/** The choices made from the metal and the invoice before anything is drawn: the
    template image, the PDF page size and the printer. */
module Templates {
  import opened Wrappers
  import opened Invoice

  /** The six templates of a gold invoice. */
  datatype GoldTemplate =
    | GstGoldStone
    | GstGold
    | NonGstGoldWithStone
    | NcNonGstGoldWithStone
    | NonGstGold
    | NcNonGstGold
  {
    /** The templates that carry a stone-weight column. */
    predicate HasStoneColumn()
    {
      this == GstGoldStone || this == NonGstGoldWithStone || this == NcNonGstGoldWithStone
    }
  }

  /** The image file of each template, under `templates/`: a PNG image, never the
      silver template. */
  function FileName(t: GoldTemplate): (name: string)
    ensures |name| > 4 && name[|name| - 4..] == ".png"
    ensures name != SilverTemplateFile
  {
    match t
    case GstGoldStone => "gst-gold-stone.png"
    case GstGold => "gst-gold.png"
    case NonGstGoldWithStone => "non-gst-gold-with-stone.png"
    case NcNonGstGoldWithStone => "Nc-non-gst-gold-with-stone.png"
    case NonGstGold => "Non-gst-gold.png"
    case NcNonGstGold => "NC-Non-gst-gold.png"
  }

  /** The template of every invoice that is not gold. */
  const SilverTemplateFile: string := "nbj.png"

  /** No two templates share an image file. */
  lemma FileNamesDistinct(t: GoldTemplate, u: GoldTemplate)
    requires t != u
    ensures FileName(t) != FileName(u)
  {
  }

  /** `cname || caddress || cmobile` is truthy. */
  predicate AnyCustomer(inv: InvoiceData)
  {
    Truthy(inv.cname) || Truthy(inv.caddress) || Truthy(inv.cmobile)
  }

  /** All three customer fields are present and exactly `""`. */
  predicate BlankCustomer(inv: InvoiceData)
  {
    inv.cname == Some("") && inv.caddress == Some("") && inv.cmobile == Some("")
  }

  /** The if/else chain of `generateGoldInvoicePDF`. Its contract is the whole
      decision table: a GST template exactly when `cgst > 0`; a template with a
      customer block exactly when GST is absent and some customer field is truthy;
      a stone column only when some item has stone weight, and always then unless
      no customer field is truthy and the fields are not all `""`. */
  function SelectGoldTemplate(inv: InvoiceData): (t: GoldTemplate)
    requires inv.items.Some?
    ensures (t == GstGoldStone || t == GstGold) <==> inv.cgst > 0
    ensures (t == NonGstGoldWithStone || t == NonGstGold) <==> inv.cgst <= 0 && AnyCustomer(inv)
    ensures t.HasStoneColumn() ==> HasStone(inv.items.value)
    ensures HasStone(inv.items.value) && (inv.cgst > 0 || AnyCustomer(inv) || BlankCustomer(inv))
      ==> t.HasStoneColumn()
    ensures t == NcNonGstGold <==>
      inv.cgst <= 0 && !AnyCustomer(inv) && !(HasStone(inv.items.value) && BlankCustomer(inv))
  {
    var stone := HasStone(inv.items.value);
    if inv.cgst > 0 && stone then GstGoldStone
    else if inv.cgst > 0 then GstGold
    else if AnyCustomer(inv) && stone then NonGstGoldWithStone
    else if BlankCustomer(inv) && stone then NcNonGstGoldWithStone
    else if AnyCustomer(inv) then NonGstGold
    else NcNonGstGold
  }

  /** With GST the customer fields play no part. */
  lemma GstIgnoresCustomer(inv: InvoiceData, name: Option<string>, address: Option<string>, mobile: Option<string>)
    requires inv.items.Some? && inv.cgst > 0
    ensures SelectGoldTemplate(inv) == SelectGoldTemplate(inv.(cname := name, caddress := address, cmobile := mobile))
  {
  }

  /** Stone weight with customer fields left out altogether (rather than sent as
      `""`) gets the template without a stone column. */
  lemma AbsentCustomerLosesStoneColumn(inv: InvoiceData)
    requires inv.items.Some? && inv.cgst <= 0 && HasStone(inv.items.value)
    requires inv.cname.None? && inv.caddress.None? && inv.cmobile.None?
    ensures SelectGoldTemplate(inv) == NcNonGstGold
  {
  }

  /** The PDF page in millimetres. */
  datatype PageSize = PageSize(widthMm: int, heightMm: int)

  /** A gold invoice goes on an A5 sheet in landscape, every other one on A5 in portrait. */
  function PageFor(metal: Option<string>): (p: PageSize)
    ensures {p.widthMm, p.heightMm} == {148, 210}
    ensures p.widthMm > p.heightMm <==> IsGold(metal)
  {
    if IsGold(metal) then PageSize(210, 148) else PageSize(148, 210)
  }

  const GoldPrinter: string := "\"EPSON L3250 Series\""
  const SilverPrinter: string := "\"Samsung M2020 Series\""

  /** The printer a request goes to. It is never empty, so the route never raises
      "No printer found". */
  function PrinterFor(metal: Option<string>): (name: string)
    ensures name != ""
    ensures name == GoldPrinter <==> IsGold(metal)
    ensures name == GoldPrinter || name == SilverPrinter
  {
    if IsGold(metal) then GoldPrinter else SilverPrinter
  }
}
