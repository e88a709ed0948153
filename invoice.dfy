/** The JSON body of a `POST /print` request, and the JavaScript truthiness tests
    the route applies to its fields. A field a renderer reads but the request leaves
    out is taken as `0` or `""`, which every numeric test (`> 0`) and every
    truthiness test treats exactly as JavaScript treats `undefined`. */
module Invoice {
  import opened Wrappers

  /** One element of `items`, the lines of a gold invoice. */
  datatype GoldItem = GoldItem(
    name: string,
    code: string,
    qty: int,
    hsn: string,
    grosswt: int,
    stoneweight: int,
    stonerate: int,
    netweight: int,
    va: int,                            // `VA`, the value-added percentage
    rate: int,
    wastage: int,
    mc: int,
    itemprice: int)

  datatype InvoiceData = InvoiceData(
    time: Option<string>,
    total: Option<seq<string>>,
    metal: Option<string>,
    // fields of a silver invoice
    item: Option<seq<string>>,
    codes: seq<string>,                 // `Codes`
    grossweight: seq<int>,
    wastage: seq<int>,
    makingCharges: seq<string>,         // `making_charges`, as printed
    itemPrice: seq<string>,             // `item_price`, as printed
    goldPrice: string,                  // `Gold_price`
    silverPrice: string,                // `silver_price`
    silverDiscount: int,                // `Discount`
    osNw: int,                          // `os_nw`
    osPrice: int,                       // `os_price`
    silverSalePrice: int,               // `sale price`
    // fields of a gold invoice
    items: Option<seq<GoldItem>>,
    cname: Option<string>,
    caddress: Option<string>,
    cmobile: Option<string>,
    cgst: int,
    sgst: int,
    roundoff: int,
    goldDiscount: int,                  // `discount`
    ogNw: int,                          // `og_nw`
    ogPrice: int,                       // `og_price`
    final: int,
    goldSalePrice: int,                 // `sale_price`
    paymethod: seq<(string, string)>,   // the entries of `paymethod`, in order
    invoice: string)

  /** A string field is truthy when it is present and not empty. */
  predicate Truthy(field: Option<string>)
  {
    field.Some? && field.value != ""
  }

  /** `metal === 'gold'`. */
  predicate IsGold(metal: Option<string>)
  {
    metal == Some("gold")
  }

  /** `items.some(item => item.stoneweight > 0)`. */
  predicate HasStone(items: seq<GoldItem>)
  {
    exists i :: 0 <= i < |items| && items[i].stoneweight > 0
  }
}
