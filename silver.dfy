/** `createInvoiceImage`, the renderer of every invoice that is not gold, on the
    420 x 595 design of the portrait template. */
module SilverLayout {
  import opened Wrappers
  import opened Text
  import opened Invoice
  import opened InvoiceDate
  import opened Overlay

  const RowTop: int := 130
  const RowStep: int := 45
  const RowHeight: int := 40
  const TotalTop: int := 457
  const DiscountTop: int := 475
  const SalePriceHeight: int := 20

  /** `Codes && Codes[i]`: the product code, when one is given. */
  function CodeAt(codes: seq<string>, i: nat): (c: Option<string>)
    ensures c.Some? <==> i < |codes| && codes[i] != ""
    ensures c.Some? ==> c.value == codes[i]
  {
    if i < |codes| && codes[i] != "" then Some(codes[i]) else None
  }

  /** An item row: the index of the item it shows, where it starts, and its columns
      (the wastage column shows `----` when it is `None`; the making charge and the
      price print `undefined` past the end of their arrays). */
  datatype Row = Row(index: nat, top: Coord, name: string, code: Option<string>, grams: int,
                     wastage: Option<int>, making: string, price: string)

  /** Item `i` drawn as the `k`-th row. */
  function RowAt(inv: InvoiceData, names: seq<string>, i: nat, k: nat): Row
    requires i < |names|
  {
    var w := NumberAt(inv.wastage, i);
    Row(i, Coord(RowTop + RowStep * k, 0), names[i], CodeAt(inv.codes, i),
      NumberAt(inv.grossweight, i), if w > 0 then Some(w) else None,
      Show(At(inv.makingCharges, i)), Show(At(inv.itemPrice, i)))
  }

  /** `grossweight[i] > 0`: item `i` gets a row. */
  predicate Shown(inv: InvoiceData, i: nat)
  {
    NumberAt(inv.grossweight, i) > 0
  }

  /** `rows` are the rows of exactly the items with positive gross weight, in
      item order, the `k`-th one `k` steps below the first. */
  predicate RowsOf(inv: InvoiceData, names: seq<string>, rows: seq<Row>)
  {
    && (forall k :: 0 <= k < |rows| ==> rows[k].index < |names| && rows[k] == RowAt(inv, names, rows[k].index, k))
    && (forall k :: 0 <= k < |rows| ==> Shown(inv, rows[k].index))
    && (forall j, k :: 0 <= j < k < |rows| ==> rows[j].index < rows[k].index)
    && (forall i :: 0 <= i < |names| && Shown(inv, i) ==> exists k :: 0 <= k < |rows| && rows[k].index == i)
  }

  /** What the item loop has drawn once it has looked at the first `n` items. */
  predicate RowsUpTo(inv: InvoiceData, names: seq<string>, rows: seq<Row>, n: nat)
  {
    && n <= |names|
    && (forall k :: 0 <= k < |rows| ==> rows[k].index < n && rows[k] == RowAt(inv, names, rows[k].index, k))
    && (forall k :: 0 <= k < |rows| ==> Shown(inv, rows[k].index))
    && (forall j, k :: 0 <= j < k < |rows| ==> rows[j].index < rows[k].index)
    && (forall i :: 0 <= i < n && Shown(inv, i) ==> exists k :: 0 <= k < |rows| && rows[k].index == i)
  }

  /** One turn of the item loop: a shown item adds its row at the bottom, any
      other item adds nothing. */
  lemma RowsUpToNext(inv: InvoiceData, names: seq<string>, rows: seq<Row>, n: nat)
    requires RowsUpTo(inv, names, rows, n) && n < |names|
    ensures Shown(inv, n) ==> RowsUpTo(inv, names, rows + [RowAt(inv, names, n, |rows|)], n + 1)
    ensures !Shown(inv, n) ==> RowsUpTo(inv, names, rows, n + 1)
  {
    if Shown(inv, n) {
      var more := rows + [RowAt(inv, names, n, |rows|)];
      forall i | 0 <= i < n + 1 && Shown(inv, i)
        ensures exists k :: 0 <= k < |more| && more[k].index == i
      {
        if i == n {
          assert more[|rows|].index == n;
        } else {
          var k :| 0 <= k < |rows| && rows[k].index == i;
          assert more[k] == rows[k];
        }
      }
    }
  }

  /** The item loop: one row per item with positive gross weight, `topPosition`
      advancing by one step after each. */
  method ItemRows(inv: InvoiceData, names: seq<string>) returns (rows: seq<Row>)
    ensures RowsOf(inv, names, rows)
  {
    rows := [];
    var topPosition := RowTop;
    for i := 0 to |names|
      invariant topPosition == RowTop + RowStep * |rows|
      invariant RowsUpTo(inv, names, rows, i)
    {
      RowsUpToNext(inv, names, rows, i);
      if NumberAt(inv.grossweight, i) > 0 {
        var w := NumberAt(inv.wastage, i);
        var row := Row(i, Coord(topPosition, 0), names[i], CodeAt(inv.codes, i),
          NumberAt(inv.grossweight, i), if w > 0 then Some(w) else None,
          Show(At(inv.makingCharges, i)), Show(At(inv.itemPrice, i)));
        rows := rows + [row];
        topPosition := topPosition + RowStep;
      }
    }
  }

  /** `RowsOf` leaves no freedom: the rows of an invoice are determined by it. */
  lemma RowsUnique(inv: InvoiceData, names: seq<string>, a: seq<Row>, b: seq<Row>)
    requires RowsOf(inv, names, a) && RowsOf(inv, names, b)
    ensures a == b
  {
    var ia := seq(|a|, k requires 0 <= k < |a| => a[k].index as int);
    var ib := seq(|b|, k requires 0 <= k < |b| => b[k].index as int);
    forall x
      ensures x in ia <==> x in ib
    {
      if x in ia {
        var k :| 0 <= k < |ia| && ia[k] == x;
        var k' :| 0 <= k' < |b| && b[k'].index == a[k].index;
        assert ib[k'] == x;
      }
      if x in ib {
        var k :| 0 <= k < |ib| && ib[k] == x;
        var k' :| 0 <= k' < |a| && a[k'].index == b[k].index;
        assert ia[k'] == x;
      }
    }
    IncreasingUnique(ia, ib);
    assert |a| == |ia| == |ib| == |b|;
    forall k | 0 <= k < |a|
      ensures a[k] == b[k]
    {
      assert ia[k] == ib[k];
    }
  }



  /** Seven rows fit above the totals block; the eighth runs into it. */
  lemma RowsClearOfTotals(k: nat)
    ensures RowTop + RowStep * k + RowHeight <= TotalTop <==> k <= 6
  {
  }

  /** `acc + parseInt(val)`: NaN, once it appears, stays. */
  function AddParsed(acc: Option<int>, v: Option<nat>): Option<int>
  {
    if acc.Some? && v.Some? then Some(acc.value + v.value) else None
  }

  /** `total.reduce((acc, val) => acc + parseInt(val), acc)`: the start value plus
      the sum of the parsed entries, or NaN (`None`) when the start value or any
      entry is NaN. */
  function ReduceTotal(total: seq<string>, acc: Option<int>): (r: Option<int>)
    ensures r == if acc.Some? && AllNumeric(total) then Some(acc.value + ParsedSum(total)) else None
    decreases |total|
  {
    if total == [] then acc
    else
      AllNumericCons(total);
      ReduceTotal(total[1..], AddParsed(acc, ParseInt(total[0])))
  }

  predicate AllNumeric(total: seq<string>)
  {
    forall i :: 0 <= i < |total| ==> ParseInt(total[i]).Some?
  }

  lemma AllNumericCons(total: seq<string>)
    requires total != []
    ensures AllNumeric(total) <==> ParseInt(total[0]).Some? && AllNumeric(total[1..])
  {
    if ParseInt(total[0]).Some? && AllNumeric(total[1..]) {
      forall i | 0 <= i < |total| ensures ParseInt(total[i]).Some? {
        if i > 0 { assert total[i] == total[1..][i - 1]; }
      }
    }
  }

  /** The sum of the parsed entries. */
  function ParsedSum(total: seq<string>): int
    requires AllNumeric(total)
    decreases |total|
  {
    if total == [] then 0 else ParseInt(total[0]).value + ParsedSum(total[1..])
  }

  /** The printed total: the sum of the entries of `total` when every entry starts
      with a digit, NaN (`None`) otherwise. */
  function Total(total: seq<string>): (r: Option<int>)
    ensures r == if AllNumeric(total) then Some(ParsedSum(total)) else None
  {
    ReduceTotal(total, Some(0))
  }

  /** The text line of the sale price block as written: the same in both branches. */
  function SalePriceTextAsWritten(discount: bool): Coord
  {
    Coord(if discount then 504 + 20 / 2 else 504 + 20 / 2, 0)
  }

  /** The sale price box moves up to 487 without a discount, but its text line stays
      at 514, below the box. */
  lemma SalePriceTextOutsideBox()
    ensures var top := SalePriceTop(false);
      !(top <= SalePriceTextAsWritten(false).scaled <= top + SalePriceHeight)
  {
  }

  function SalePriceTop(discount: bool): int
  {
    if discount then 504 else 487
  }

  /** The sale price text line centred in its box, in both layouts. */
  function SalePriceText(discount: bool): (c: Coord)
    ensures c.scaled == SalePriceTop(discount) + SalePriceHeight / 2
    ensures SalePriceTop(discount) < c.scaled < SalePriceTop(discount) + SalePriceHeight
    ensures discount ==> c == SalePriceTextAsWritten(discount)
  {
    Coord(SalePriceTop(discount) + SalePriceHeight / 2, 0)
  }

  /** Everything but the item rows. */
  datatype Summary = Summary(
    date: Placed<string>,
    metalPrice: Placed<string>,
    total: Placed<Option<int>>,
    discount: Option<Placed<int>>,
    oldMetal: Option<Placed<(int, int)>>,
    salePrice: Placed<int>,
    salePriceText: Coord)

  /** The fixed and the optional blocks. The discount block is drawn exactly when
      `Discount > 0`, the old-metal block exactly when `os_nw > 0` (at 486 below a
      discount, at 478 otherwise); the total, discount, old-metal and sale price
      blocks run top to bottom in that order. */
  function SummaryFor(inv: InvoiceData, time: string, total: seq<string>): (s: Summary)
    ensures s.discount.Some? <==> inv.silverDiscount > 0
    ensures s.oldMetal.Some? <==> inv.osNw > 0
    ensures s.oldMetal.Some? ==> s.oldMetal.value.top == Coord(if inv.silverDiscount > 0 then 486 else 478, 0)
    ensures s.discount.Some? ==> Above(s.total.top, s.discount.value.top) && Above(s.discount.value.top, s.salePrice.top)
    ensures s.oldMetal.Some? ==> Above(s.total.top, s.oldMetal.value.top) && Above(s.oldMetal.value.top, s.salePrice.top)
    ensures s.discount.Some? && s.oldMetal.Some? ==> Above(s.discount.value.top, s.oldMetal.value.top)
    ensures Above(s.total.top, s.salePrice.top)
    ensures s.total.value == if AllNumeric(total) then Some(ParsedSum(total)) else None
    ensures s.salePrice.top.scaled < s.salePriceText.scaled < s.salePrice.top.scaled + SalePriceHeight
    ensures inv.silverDiscount > 0 ==> s.salePriceText == SalePriceTextAsWritten(true)
  {
    var discounted := inv.silverDiscount > 0;
    Summary(
      Placed(Coord(80, -36), SilverDate(time)),
      Placed(Coord(100, -60), if IsGold(inv.metal) then inv.goldPrice else inv.silverPrice),
      Placed(Coord(TotalTop, 0), Total(total)),
      if discounted then Some(Placed(Coord(DiscountTop, 0), inv.silverDiscount)) else None,
      if inv.osNw > 0 then Some(Placed(Coord(if discounted then 486 else 478, 0), (inv.osNw, inv.osPrice))) else None,
      Placed(Coord(SalePriceTop(discounted), 0), inv.silverSalePrice),
      SalePriceText(discounted))
  }
}
