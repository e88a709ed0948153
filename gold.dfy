/** `createGoldInvoiceImage`, the renderer of gold invoices, on the 595 x 420 design
    of the landscape templates. */
module GoldLayout {
  import opened Wrappers
  import opened Text
  import opened Invoice
  import opened InvoiceDate
  import opened Overlay

  const DesignWidth: int := 595
  const RowTop: int := 155
  const RowStep: int := 120

  /** A column: its left edge and width in design units. */
  datatype Column = Column(x: int, width: int)
  {
    /** Twice the column's centre, where its text is anchored. */
    function Centre2(): int
    {
      2 * x + width
    }
  }

  /** The columns whose place depends on GST and on stone weight. */
  datatype Columns = Columns(
    grossWt: Column,
    stoneWt: Column,
    netWt: Column,
    rate: Column,
    wastage: Column,
    mc: Column,
    itemPrice: Column)

  /** The column table keyed by `cgst > 0` and "some item has stone weight". The stone
      column has a width exactly when there is stone weight, and then lies between
      the gross and the net weight; the texts of the columns are anchored left to
      right in the order gross, net, rate, wastage, making charge, price, all inside
      the design width. */
  function ColumnsFor(gst: bool, stone: bool): (c: Columns)
    ensures c.stoneWt.width > 0 <==> stone
    ensures !stone ==> c.stoneWt == Column(0, 0)
    ensures stone ==> c.grossWt.Centre2() < c.stoneWt.Centre2() < c.netWt.Centre2()
    ensures c.grossWt.Centre2() < c.netWt.Centre2() < c.rate.Centre2() < c.wastage.Centre2()
      < c.mc.Centre2() < c.itemPrice.Centre2()
    ensures 0 < c.grossWt.x && c.itemPrice.Centre2() < 2 * DesignWidth
  {
    Columns(
      Column(if gst then 231 else 196,
             if gst && stone then 55 else if gst then 59 else if stone then 56 else 76),
      Column(if gst && stone then 286 else if stone then 252 else 0,
             if gst && stone then 45 else if stone then 55 else 0),
      Column(if gst && stone then 332 else if gst then 290 else if stone then 307 else 272,
             if gst && stone then 56 else if gst then 60 else if stone then 55 else 74),
      Column(if gst && stone then 388 else if gst then 350 else if stone then 363 else 345,
             if gst && stone then 45 else if gst then 59 else if stone then 46 else 65),
      Column(if gst && stone then 433 else 409, if gst && stone then 43 else 57),
      Column(if stone then 476 else 467, if stone then 50 else 55),
      Column(if stone then 525 else 523, if stone then 72 else 71))
  }

  /** The stone-weight cell: `----` (`grams == None`) for an item without stone, and
      the stone rate underneath when it is positive. */
  datatype StoneCell = StoneCell(grams: Option<int>, rate: Option<int>)

  /** The wastage cell: `Rs. wastage*rate` on a GST invoice, the wastage as sent otherwise. */
  datatype WastageCell = WastageRupees(amount: int) | WastageAsSent(wastage: int)

  /** An item row: the item's position, where the row starts, and its cells, the
      optional ones as `Option`s. */
  datatype Row = Row(
    index: nat,
    top: Coord,
    name: string,
    code: Option<string>,
    qty: int,
    hsn: Option<string>,
    grossWt: int,
    stone: Option<StoneCell>,
    netWt: int,
    va: Option<int>,
    rate: int,
    wastage: WastageCell,
    mc: int,
    price: int)
  {
    /** The number printed in the first column. */
    function Serial(): nat
    {
      index + 1
    }
  }

  /** The row drawn for the item at position `index` at `top`: the code only
      when non-empty; the HSN cell only on a GST invoice, `-` for an empty HSN; the
      stone cell only when some item of the invoice has stone weight; the value
      added only on a GST invoice and when positive; the wastage in rupees on a GST
      invoice. */
  function RowFor(inv: InvoiceData, item: GoldItem, stone: bool, index: nat, top: Coord): (r: Row)
    ensures r.index == index && r.top == top && r.name == item.name
    ensures r.code.Some? <==> item.code != ""
    ensures r.hsn.Some? <==> inv.cgst != 0
    ensures r.hsn.Some? ==> r.hsn.value != "" && (item.hsn != "" ==> r.hsn.value == item.hsn)
    ensures r.stone.Some? <==> stone
    ensures r.stone.Some? ==>
      (r.stone.value.grams.Some? <==> item.stoneweight > 0) && (r.stone.value.rate.Some? <==> item.stonerate > 0)
    ensures r.va.Some? <==> inv.cgst > 0 && item.va > 0
    ensures r.wastage.WastageRupees? <==> inv.cgst > 0
    ensures r.wastage.WastageRupees? ==> r.wastage.amount == item.wastage * item.rate
    ensures r.wastage.WastageAsSent? ==> r.wastage.wastage == item.wastage
  {
    Row(index, top, item.name,
      if item.code != "" then Some(item.code) else None,
      item.qty,
      if inv.cgst != 0 then Some(if item.hsn != "" then item.hsn else "-") else None,
      item.grosswt,
      if stone then
        Some(StoneCell(if item.stoneweight > 0 then Some(item.stoneweight) else None,
                       if item.stonerate > 0 then Some(item.stonerate) else None))
      else None,
      item.netweight,
      if inv.cgst > 0 && item.va > 0 then Some(item.va) else None,
      item.rate,
      if inv.cgst > 0 then WastageRupees(item.wastage * item.rate) else WastageAsSent(item.wastage),
      item.mc,
      item.itemprice)
  }

  /** Item `i` drawn as the `k`-th row. */
  function RowAt(inv: InvoiceData, items: seq<GoldItem>, stone: bool, i: nat, k: nat): Row
    requires i < |items|
  {
    RowFor(inv, items[i], stone, i, Coord(RowTop, RowStep * k))
  }

  /** `item.grosswt > 0`: the item gets a row. */
  predicate Shown(item: GoldItem)
  {
    item.grosswt > 0
  }

  /** `rows` are the rows of exactly the items with positive gross weight, in item
      order, numbered by the item's own position (so skipped items leave gaps in
      the numbering), the `k`-th one `k` fixed steps below the first, and all with
      the stone column exactly when some item of the invoice has stone weight. */
  predicate RowsOf(inv: InvoiceData, items: seq<GoldItem>, rows: seq<Row>)
  {
    && (forall k :: 0 <= k < |rows| ==>
          rows[k].index < |items| && rows[k] == RowAt(inv, items, HasStone(items), rows[k].index, k))
    && (forall k :: 0 <= k < |rows| ==> Shown(items[rows[k].index]))
    && (forall j, k :: 0 <= j < k < |rows| ==> rows[j].index < rows[k].index)
    && (forall i :: 0 <= i < |items| && Shown(items[i]) ==> exists k :: 0 <= k < |rows| && rows[k].index == i)
  }

  /** What the item loop has drawn once it has looked at the first `n` items. */
  predicate RowsUpTo(inv: InvoiceData, items: seq<GoldItem>, rows: seq<Row>, n: nat)
  {
    && n <= |items|
    && (forall k :: 0 <= k < |rows| ==>
          rows[k].index < n && rows[k] == RowAt(inv, items, HasStone(items), rows[k].index, k))
    && (forall k :: 0 <= k < |rows| ==> Shown(items[rows[k].index]))
    && (forall j, k :: 0 <= j < k < |rows| ==> rows[j].index < rows[k].index)
    && (forall i :: 0 <= i < n && Shown(items[i]) ==> exists k :: 0 <= k < |rows| && rows[k].index == i)
  }

  /** One turn of the item loop: a shown item adds its row at the bottom, any
      other item adds nothing. */
  lemma RowsUpToNext(inv: InvoiceData, items: seq<GoldItem>, rows: seq<Row>, n: nat)
    requires RowsUpTo(inv, items, rows, n) && n < |items|
    ensures Shown(items[n]) ==> RowsUpTo(inv, items, rows + [RowAt(inv, items, HasStone(items), n, |rows|)], n + 1)
    ensures !Shown(items[n]) ==> RowsUpTo(inv, items, rows, n + 1)
  {
    if Shown(items[n]) {
      var more := rows + [RowAt(inv, items, HasStone(items), n, |rows|)];
      forall k | 0 <= k < |more|
        ensures more[k].index < n + 1 && more[k] == RowAt(inv, items, HasStone(items), more[k].index, k)
        ensures Shown(items[more[k].index])
      {
        if k < |rows| { assert more[k] == rows[k]; }
      }
      forall j, k | 0 <= j < k < |more|
        ensures more[j].index < more[k].index
      {
        assert more[j] == rows[j];
        if k < |rows| { assert more[k] == rows[k]; }
      }
      forall i | 0 <= i < n + 1 && Shown(items[i])
        ensures exists k :: 0 <= k < |more| && more[k].index == i
      {
        if i == n {
          assert more[|rows|].index == n;
        } else {
          var k :| 0 <= k < |rows| && rows[k].index == i;
          assert more[k] == rows[k];
        }
      }
    }
  }

  /** The item loop, `topPosition` advancing by a fixed step after each drawn row. */
  method ItemRows(inv: InvoiceData, items: seq<GoldItem>) returns (rows: seq<Row>)
    ensures RowsOf(inv, items, rows)
  {
    var hasStone := HasStone(items);
    rows := [];
    var topPosition := 0;
    for i := 0 to |items|
      invariant topPosition == RowStep * |rows|
      invariant RowsUpTo(inv, items, rows, i)
    {
      var item := items[i];
      RowsUpToNext(inv, items, rows, i);
      if item.grosswt > 0 {
        var row := RowFor(inv, item, hasStone, i, Coord(RowTop, topPosition));
        rows := rows + [row];
        topPosition := topPosition + RowStep;
      }
    }
  }

  /** The item positions of some rows, in row order. */
  function Indices(rows: seq<Row>): (ix: seq<int>)
    ensures |ix| == |rows|
    ensures forall k :: 0 <= k < |rows| ==> ix[k] == rows[k].index
  {
    seq(|rows|, k requires 0 <= k < |rows| => rows[k].index as int)
  }

  /** `RowsOf` leaves no freedom: the rows of an invoice are determined by it. */
  lemma RowsUnique(inv: InvoiceData, items: seq<GoldItem>, a: seq<Row>, b: seq<Row>)
    requires RowsOf(inv, items, a) && RowsOf(inv, items, b)
    ensures a == b
  {
    var ia, ib := Indices(a), Indices(b);
    forall k | 0 <= k < |a|
      ensures ia[k] in ib
    {
      assert a[k].index < |items| && Shown(items[a[k].index]);
      var k' :| 0 <= k' < |b| && b[k'].index == a[k].index;
      assert ib[k'] == ia[k];
    }
    forall k | 0 <= k < |b|
      ensures ib[k] in ia
    {
      assert b[k].index < |items| && Shown(items[b[k].index]);
      var k' :| 0 <= k' < |a| && a[k'].index == b[k].index;
      assert ia[k'] == ib[k];
    }
    IncreasingUnique(ia, ib);
    forall k | 0 <= k < |a|
      ensures a[k] == b[k]
    {
      assert ia[k] == ib[k];
    }
  }

  /** Serial numbers follow the items, not the drawn rows: an item at position `i`
      is numbered `i + 1` even when items before it were skipped. */
  lemma SerialIsPosition(inv: InvoiceData, items: seq<GoldItem>, rows: seq<Row>, k: nat)
    requires RowsOf(inv, items, rows) && k < |rows|
    ensures rows[k].Serial() == rows[k].index + 1 >= k + 1
  {
    IndexAtLeastRank(rows, k);
  }

  lemma {:induction false} IndexAtLeastRank(rows: seq<Row>, k: nat)
    requires forall j, k :: 0 <= j < k < |rows| ==> rows[j].index < rows[k].index
    requires k < |rows|
    ensures rows[k].index >= k
    decreases k
  {
    if k > 0 {
      IndexAtLeastRank(rows, k - 1);
    }
  }

  /** `items.reduce((sum, item) => sum + f(item), acc)`, a left fold: the start
      value plus the column sum. */
  function Reduce(items: seq<GoldItem>, f: GoldItem -> int, acc: int): (r: int)
    ensures r == acc + Sum(items, f)
    decreases |items|
  {
    if items == [] then acc else Reduce(items[1..], f, acc + f(items[0]))
  }

  /** The column sum, as a right fold. */
  function Sum(items: seq<GoldItem>, f: GoldItem -> int): int
    decreases |items|
  {
    if items == [] then 0 else f(items[0]) + Sum(items[1..], f)
  }

  /** The items for which `p` is `keep`. */
  function Filter(items: seq<GoldItem>, p: GoldItem -> bool, keep: bool): (r: seq<GoldItem>)
    ensures |r| <= |items|
    ensures forall x :: x in r ==> x in items && p(x) == keep
    decreases |items|
  {
    if items == [] then [] else (if p(items[0]) == keep then [items[0]] else []) + Filter(items[1..], p, keep)
  }

  lemma {:induction false} SumConcat(a: seq<GoldItem>, b: seq<GoldItem>, f: GoldItem -> int)
    ensures Sum(a + b, f) == Sum(a, f) + Sum(b, f)
    decreases |a|
  {
    if a == [] {
      assert a + b == b;
    } else {
      assert (a + b)[0] == a[0];
      assert (a + b)[1..] == a[1..] + b;
      SumConcat(a[1..], b, f);
    }
  }

  /** Every item is counted once: in the items `p` keeps or in those it drops. */
  lemma {:induction false} SumOfFilters(items: seq<GoldItem>, f: GoldItem -> int, p: GoldItem -> bool)
    ensures Sum(items, f) == Sum(Filter(items, p, true), f) + Sum(Filter(items, p, false), f)
    decreases |items|
  {
    if items != [] {
      SumOfFilters(items[1..], f, p);
      var x := items[0];
      SumConcat(if p(x) then [x] else [], Filter(items[1..], p, true), f);
      SumConcat(if !p(x) then [x] else [], Filter(items[1..], p, false), f);
      SumConcat([x], [], f);
      SumConcat([], [], f);
    }
  }

  /** A column total: the `reduce` over every item. */
  function ColumnTotal(items: seq<GoldItem>, f: GoldItem -> int): (t: int)
    ensures t == Sum(items, f)
    ensures t == Sum(Filter(items, Shown, true), f) + Sum(Filter(items, Shown, false), f)
  {
    SumOfFilters(items, f, Shown);
    Reduce(items, f, 0)
  }

  /** The customer block: name and mobile are printed as they are (`undefined`
      included), the address line only when the address is truthy. */
  datatype Customer = Customer(name: string, mobile: string, address: Option<string>)

  /** The date block: the date and time, the invoice number and the payment methods. */
  datatype Heading = Heading(dateTime: string, invoice: string, methods: string)

  /** Everything but the item rows. */
  datatype Summary = Summary(
    customer: Placed<Customer>,
    heading: Placed<Heading>,
    qty: Placed<int>,
    gross: Placed<int>,
    net: Placed<int>,
    price: Placed<int>,
    final: Placed<int>,
    roundOff: Option<Placed<int>>,
    discount: Option<Placed<int>>,
    cgst: Placed<int>,
    sgst: Placed<int>,
    tax: Placed<int>,
    salePrice: Placed<int>,
    payments: Placed<seq<string>>,
    purchasedGold: Option<Placed<(int, int)>>)

  /** The blocks below the date section all hang from its top, `70 * scaleY`. */
  function Below(raw: int): Coord
  {
    Coord(70, raw)
  }

  function PaymentLines(methods: seq<(string, string)>): (lines: seq<string>)
    ensures |lines| == |methods|
    ensures forall i :: 0 <= i < |methods| ==> lines[i] == methods[i].0 + ": Rs." + methods[i].1
  {
    seq(|methods|, i requires 0 <= i < |methods| => methods[i].0 + ": Rs." + methods[i].1)
  }

  function MethodNames(methods: seq<(string, string)>): (names: seq<string>)
    ensures |names| == |methods|
    ensures forall i :: 0 <= i < |methods| ==> names[i] == methods[i].0
  {
    seq(|methods|, i requires 0 <= i < |methods| => methods[i].0)
  }

  /** The lines of two runs of payment methods are the lines of each, in order. */
  lemma PaymentLinesAppend(a: seq<(string, string)>, b: seq<(string, string)>)
    ensures PaymentLines(a + b) == PaymentLines(a) + PaymentLines(b)
  {
    var l, la, lb := PaymentLines(a + b), PaymentLines(a), PaymentLines(b);
    forall i | 0 <= i < |l|
      ensures l[i] == (la + lb)[i]
    {
      if i < |a| {
        assert (a + b)[i] == a[i];
      } else {
        assert (a + b)[i] == b[i - |a|];
      }
    }
  }

  /** One more payment method adds ` / ` and its name to the heading line. */
  lemma MethodsHeadingSnoc(methods: seq<(string, string)>, m: (string, string))
    requires methods != []
    ensures JoinWith(MethodNames(methods + [m]), " / ") == JoinWith(MethodNames(methods), " / ") + " / " + m.0
  {
    var names := MethodNames(methods + [m]);
    assert names[..|names| - 1] == MethodNames(methods);
  }

  /** The fixed and the optional blocks. Round-off, discount and purchased gold are
      drawn exactly when their amounts are positive; the discount takes the
      round-off line when there is no round-off; in the amounts column the final
      amount, round-off, discount, purchased gold and sale price run top to bottom;
      the totals are the `reduce` over every item, shown or not. */
  function SummaryFor(inv: InvoiceData, items: seq<GoldItem>, dateTime: string): (s: Summary)
    ensures s.roundOff.Some? <==> inv.roundoff > 0
    ensures s.discount.Some? <==> inv.goldDiscount > 0
    ensures s.purchasedGold.Some? <==> inv.ogNw > 0
    ensures s.customer.value.address.Some? <==> Truthy(inv.caddress)
    ensures s.discount.Some? && s.roundOff.None? ==> s.discount.value.top == Below(1530)
    ensures s.roundOff.Some? ==> Above(s.final.top, s.roundOff.value.top) && Above(s.roundOff.value.top, s.salePrice.top)
    ensures s.discount.Some? ==> Above(s.final.top, s.discount.value.top) && Above(s.discount.value.top, s.salePrice.top)
    ensures s.roundOff.Some? && s.discount.Some? ==> Above(s.roundOff.value.top, s.discount.value.top)
    ensures s.purchasedGold.Some? ==> Above(s.final.top, s.purchasedGold.value.top) && Above(s.purchasedGold.value.top, s.salePrice.top)
    ensures s.purchasedGold.Some? && s.discount.Some? ==> Above(s.discount.value.top, s.purchasedGold.value.top)
    ensures Above(s.cgst.top, s.sgst.top) && Above(s.sgst.top, s.tax.top)
    ensures s.tax.value == inv.cgst + inv.sgst
    ensures s.gross.value == Sum(items, (it: GoldItem) => it.grosswt)
    ensures s.net.value == Sum(items, (it: GoldItem) => it.netweight)
    ensures s.price.value == Sum(items, (it: GoldItem) => it.itemprice)
    ensures s.qty.value == Sum(items, (it: GoldItem) => it.qty)
    ensures |s.payments.value| == |inv.paymethod|
    ensures forall i :: 0 <= i < |inv.paymethod| ==>
      s.payments.value[i] == inv.paymethod[i].0 + ": Rs." + inv.paymethod[i].1
    ensures s.heading.value.dateTime == dateTime && s.heading.value.invoice == inv.invoice
    ensures |inv.paymethod| == 1 ==> s.heading.value.methods == inv.paymethod[0].0
  {
    var totalsLine := Below(1340);
    Summary(
      Placed(Below(105), Customer(Show(inv.cname), Show(inv.cmobile), if Truthy(inv.caddress) then inv.caddress else None)),
      Placed(Below(103), Heading(dateTime, inv.invoice, JoinWith(MethodNames(inv.paymethod), " / "))),
      Placed(totalsLine, ColumnTotal(items, (it: GoldItem) => it.qty)),
      Placed(totalsLine, ColumnTotal(items, (it: GoldItem) => it.grosswt)),
      Placed(totalsLine, ColumnTotal(items, (it: GoldItem) => it.netweight)),
      Placed(totalsLine, ColumnTotal(items, (it: GoldItem) => it.itemprice)),
      Placed(Below(1468), inv.final),
      if inv.roundoff > 0 then Some(Placed(Below(1530), inv.roundoff)) else None,
      if inv.goldDiscount > 0 then Some(Placed(Below(if inv.roundoff > 0 then 1595 else 1530), inv.goldDiscount)) else None,
      Placed(Below(1463), inv.cgst),
      Placed(Below(1526), inv.sgst),
      Placed(Below(1591), inv.cgst + inv.sgst),
      Placed(Below(1753), inv.goldSalePrice),
      Placed(Below(if inv.cgst > 0 then 1695 else 1702), PaymentLines(inv.paymethod)),
      if inv.ogNw > 0 then Some(Placed(Below(1690), (inv.ogNw, inv.ogPrice))) else None)
  }
}
