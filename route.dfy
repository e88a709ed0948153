/** `POST /print`: validation, the duplicate guard, the choice between the gold and
    the silver renderer, the page, the printer and the print command. */
module PrintRoute {
  import opened Wrappers
  import opened Invoice
  import opened Guard
  import opened Templates
  import opened InvoiceDate
  import SilverLayout
  import GoldLayout

  /** The request is let through: the negation of
      `(!item || !time) && (!items || !time)`. That is, the time is truthy and at
      least one of the two item arrays is present. */
  function Accepted(inv: InvoiceData): (ok: bool)
    ensures ok <==> Truthy(inv.time) && (inv.item.Some? || inv.items.Some?)
  {
    !((inv.item.None? || !Truthy(inv.time)) && (inv.items.None? || !Truthy(inv.time)))
  }

  /** The two ways the print job is handed to SumatraPDF: a silver invoice goes to
      the default printer through `Start-Process`, every other one to a named
      printer. */
  datatype Command = ToDefaultPrinter | ToNamedPrinter(printer: string)

  /** `metal === 'silver'` picks the command; a metal that is neither gold nor
      silver is drawn on the silver template but sent by name to the silver
      printer. */
  function CommandFor(metal: Option<string>): (c: Command)
    ensures c.ToDefaultPrinter? <==> metal == Some("silver")
    ensures c.ToNamedPrinter? ==> c.printer == PrinterFor(metal)
    ensures c.ToNamedPrinter? && IsGold(metal) ==> c.printer == GoldPrinter
    ensures c.ToNamedPrinter? && !IsGold(metal) ==> c.printer == SilverPrinter
  {
    if metal == Some("silver") then ToDefaultPrinter else ToNamedPrinter(PrinterFor(metal))
  }

  /** The invoice as drawn on its template. */
  datatype Job =
    | SilverJob(template: string, page: PageSize,
                silverRows: seq<SilverLayout.Row>, summary: SilverLayout.Summary)
    | GoldJob(goldTemplate: GoldTemplate, page: PageSize, columns: GoldLayout.Columns,
              goldRows: seq<GoldLayout.Row>, goldSummary: GoldLayout.Summary)

  datatype Response =
    | BadRequest                                  // 400, missing invoice data
    | TooManyRequests(remainingTime: int)         // 429, a duplicate within the cooldown
    | ServerError                                 // 500, the renderer threw
    | Printed(printer: string, command: Command, job: Job)   // 200, names the printer

  /** A request that passed validation and the guard still makes the renderer
      throw: a gold invoice without `items`, or whose time has no space (then the
      clock part is `undefined` and `.split(':')` throws); any other invoice
      without `item` or `total`. */
  predicate RenderFails(inv: InvoiceData)
    requires Truthy(inv.time)
  {
    if IsGold(inv.metal) then inv.items.None? || ' ' !in inv.time.value
    else inv.item.None? || inv.total.None?
  }

  /** `job` is what the renderer that `metal` picks draws for `inv`. */
  predicate Renders(inv: InvoiceData, job: Job)
    requires Truthy(inv.time) && !RenderFails(inv)
  {
    if IsGold(inv.metal) then
      var items := inv.items.value;
      && job.GoldJob?
      && job.goldTemplate == SelectGoldTemplate(inv)
      && job.page == PageFor(inv.metal)
      && job.columns == GoldLayout.ColumnsFor(inv.cgst > 0, HasStone(items))
      && GoldLayout.RowsOf(inv, items, job.goldRows)
      && job.goldSummary == GoldLayout.SummaryFor(inv, items, GoldDateTime(inv.time.value).value)
    else
      && job.SilverJob?
      && job.template == SilverTemplateFile
      && job.page == PageFor(inv.metal)
      && SilverLayout.RowsOf(inv, inv.item.value, job.silverRows)
      && job.summary == SilverLayout.SummaryFor(inv, inv.time.value, inv.total.value)
  }

  /** The whole route at time `now`. An invalid request leaves the guard alone; a
      valid one goes through the guard, and once the guard accepts, its fingerprint
      stays recorded whether or not rendering then fails. */
  method PostPrint(guard: PrintGuard, inv: InvoiceData, now: int) returns (r: Response)
    modifies guard
    ensures !Accepted(inv) ==> r == BadRequest && guard.recent == old(guard.recent)
    ensures Accepted(inv) ==>
      var key := Fingerprint(inv.time, inv.total);
      var v := Decide(old(guard.recent), key, now);
      && (v.Reject? ==> r == TooManyRequests(v.remainingTime) && guard.recent == old(guard.recent))
      && (v.Accept? ==> guard.recent == Record(old(guard.recent), key, now))
      && (v.Accept? && RenderFails(inv) ==> r == ServerError)
      && (v.Accept? && !RenderFails(inv) ==>
            && r.Printed?
            && r.printer == PrinterFor(inv.metal)
            && r.command == CommandFor(inv.metal)
            && Renders(inv, r.job))
  {
    if (inv.item.None? || !Truthy(inv.time)) && (inv.items.None? || !Truthy(inv.time)) {
      return BadRequest;
    }
    var key := Fingerprint(inv.time, inv.total);
    var verdict := guard.HandlePrint(key, now);
    if verdict.Reject? {
      return TooManyRequests(verdict.remainingTime);
    }
    var time := inv.time.value;
    var job;
    if IsGold(inv.metal) {
      if inv.items.None? {
        return ServerError;
      }
      var items := inv.items.value;
      var dateTime := GoldDateTime(time);
      if dateTime.None? {
        return ServerError;
      }
      var rows := GoldLayout.ItemRows(inv, items);
      job := GoldJob(SelectGoldTemplate(inv), PageFor(inv.metal),
        GoldLayout.ColumnsFor(inv.cgst > 0, HasStone(items)), rows,
        GoldLayout.SummaryFor(inv, items, dateTime.value));
    } else {
      if inv.item.None? || inv.total.None? {
        return ServerError;
      }
      var rows := SilverLayout.ItemRows(inv, inv.item.value);
      job := SilverJob(SilverTemplateFile, PageFor(inv.metal), rows,
        SilverLayout.SummaryFor(inv, time, inv.total.value));
    }
    r := Printed(PrinterFor(inv.metal), CommandFor(inv.metal), job);
  }

  /** Sending the same invoice again within 30 seconds of an accepted print is
      answered with 429 and a wait of at most 30 seconds, and does not move the
      recorded time. */
  method PrintTwice(guard: PrintGuard, inv: InvoiceData, now: int, later: int) returns (first: Response, second: Response)
    requires Accepted(inv)
    requires Decide(guard.recent, Fingerprint(inv.time, inv.total), now) == Accept
    requires now <= later < now + CooldownMs
    modifies guard
    ensures first != BadRequest && !first.TooManyRequests?
    ensures second.TooManyRequests? && 1 <= second.remainingTime <= 30
    ensures var key := Fingerprint(inv.time, inv.total); key in guard.recent && guard.recent[key] == now
  {
    var key := Fingerprint(inv.time, inv.total);
    first := PostPrint(guard, inv, now);
    CooldownAfterAccept(old(guard.recent), key, now, later);
    second := PostPrint(guard, inv, later);
  }
}
