# Print server invoice model

`print-server.js` is a small Express service that prints jewellery-shop invoices.
A point-of-sale client posts an invoice as JSON to `POST /print`. The server:

- rejects a request without a time or without an item list (400);
- refuses the same invoice (same `time` and `total`) a second time within 30
  seconds (429, with the seconds left to wait);
- remembers every accepted fingerprint in an in-memory map, and prunes that map
  once it holds more than 100 entries;
- draws the invoice over a PNG template; a gold invoice goes on one of six
  landscape templates, chosen by GST, stone weight and whether the customer
  fields are filled in, and every other invoice on the portrait silver template;
- wraps the image in an A5 PDF and sends it to SumatraPDF for one of two
  printers.

This project models that route in Dafny. The textual parts it relies on are
modelled too: JavaScript `split`, `join` and `parseInt`, and the two date formats.
The duplicate guard is a class with a mutable map field, and its `HandlePrint`
method keeps the source's pruning loop. The three item loops are methods with loop
invariants: the silver rows, the gold rows and `wrapText`.

The SVG the renderers produce is modelled as abstract blocks: what each block
shows and where its box starts. A vertical position is `Coord(scaled, raw)`,
meaning `scaled * scale + raw` pixels, because the gold renderer mixes scaled
design units with raw pixel offsets. `Above(a, b)` holds for every positive
scale factor.

Modules: `Wrappers` (Option), `Text`, `Invoice` (the request body),
`Overlay`, `Guard`, `Templates`, `Wrap`, `InvoiceDate`, `SilverLayout`,
`GoldLayout` and `PrintRoute`.

In three places the model does not draw what the `print-server.js` listing
shows, and follows what the lines evidently mean:

- line 1012 records `.now()`, which is read as `Date.now()`;
- lines 1027 and 1032 test `metal? === 'gold'`, which is read as
  `metal === 'gold'`, the test `saveInvoiceAsPDF` makes on line 53;
- lines 297-300 put the silver sale price text line at `504 + 20 / 2` in both
  branches, so without a discount it lies below its box (487 to 507). The
  model's `SilverLayout.SummaryFor` centres it in the box in both layouts, at
  497 without a discount; with a discount it is the source's 514. The as-written
  line is `SilverLayout.SalePriceTextAsWritten` (see "Findings").

One `now` parameter stands for the three clock reads of a request (lines 1001,
1012 and 1016).

## Model

| member | source | states |
|---|---|---|
| Text.Split | print-server.js:366 | `split` always yields at least one piece |
| Text.JoinSplit | print-server.js:366 | joining the pieces of `split(sep)` with `sep` gives back the original string |
| Text.SplitJoin | print-server.js:366 | splitting a join of one or more pieces that do not contain `sep` gives back the pieces |
| Text.SplitFree | print-server.js:366 | no piece that `split(sep)` returns contains `sep` |
| Text.SplitWithout | print-server.js:660 | a string without the separator splits into itself alone |
| Text.SplitConcat | print-server.js:660-661 | splitting `a + sep + b` is splitting `a` followed by splitting `b` |
| Text.JoinWithChar | print-server.js:726 | `join` with a multi-character separator agrees with the one-character join when the separator is one character |
| Text.At | print-server.js:210-221 | an array element is defined exactly for indices below the length |
| Text.SliceFromEnd | print-server.js:662 | for a positive `n`, `slice(-n)` is the last `n` characters, or the whole string when it is shorter |
| Text.DigitPrefix | print-server.js:672 | the leading run of digits is all digits and is followed by a non-digit or the end |
| Text.ParseInt | print-server.js:672 | `parseInt` is NaN exactly when the string is empty or does not start with a digit |
| Text.ParseIntDigits | print-server.js:672 | a string of digits parses to the number it denotes |
| Text.ParseIntPrefix | print-server.js:270 | `parseInt` reads the digits up to the first non-digit and ignores the rest |
| Text.Decimal | print-server.js:675-676 | a number prints as a non-empty string of digits, with no leading zero unless the number is 0 |
| Text.DecimalValue | print-server.js:675-676 | the printed digits denote the number printed |
| Text.ParseDecimal | print-server.js:672-676 | printing a number and parsing it back gives the number |
| Guard.RemainingSeconds | print-server.js:1006 | `Math.ceil((30000 - elapsed) / 1000)`: the least whole number of seconds covering the rest of the cooldown, at least 1 and at most 30 |
| Guard.Decide | print-server.js:999-1009 | a request is refused exactly when its fingerprint is recorded less than 30000 ms ago, with the remaining seconds |
| Guard.Prune | print-server.js:1014-1022 | an entry survives pruning exactly when it is at most 30000 ms old, with its timestamp unchanged |
| Guard.Record | print-server.js:1012-1022 | the fingerprint maps to `now`; every other entry keeps its time; nothing is removed at 100 entries or fewer; above 100, exactly the entries older than 30000 ms are removed |
| Guard.RecordGrowsByOne | print-server.js:1012-1022 | recording adds at most one entry |
| Guard.CooldownAfterAccept | print-server.js:999-1012 | a fingerprint accepted at `now` is refused at any time less than 30000 ms later, with a wait of 1 to 30 seconds |
| Guard.AcceptedAfterCooldown | print-server.js:999-1012 | a fingerprint accepted at `now` is accepted again from 30000 ms later on |
| Guard.PrintGuard.constructor | print-server.js:11 | the guard starts with an empty map |
| Guard.PrintGuard.HandlePrint | print-server.js:993-1022 | the verdict is `Decide` on the old map; a refusal leaves the map alone; an acceptance leaves it as `Record` of the old map, the pruning loop included |
| Templates.SelectGoldTemplate | print-server.js:334-351 | the six-way template choice: stone and GST give the GST stone template, GST alone the GST template, and without GST the customer fields and stone weight decide |
| Templates.GstIgnoresCustomer | print-server.js:334-339 | with GST the customer fields never change the template |
| Templates.AbsentCustomerLosesStoneColumn | print-server.js:340-351 | without GST, an invoice whose customer fields are all absent gets the no-customer template without a stone column, even when its items have stone weight |
| Templates.FileName | print-server.js:334-351 | every gold template is a `.png` file other than the silver template `nbj.png` of line 82 |
| Templates.FileNamesDistinct | print-server.js:334-351 | the six gold templates are six different files |
| Templates.PageFor | print-server.js:64 | the PDF page is A5, landscape exactly for gold |
| Templates.PrinterFor | print-server.js:1032-1037 | the printer name is never empty (so "No printer found" cannot happen); it is the Epson printer exactly for gold, and otherwise the Samsung printer |
| Wrap.WrappedExtend | print-server.js:372-374 | appending a word that fits keeps the wrapping invariant |
| Wrap.WrappedBreak | print-server.js:375-377 | starting a new line when a word does not fit keeps the wrapping invariant |
| Wrap.WrappedClose | print-server.js:380 | once the last line is closed, every line with a space fits and every line is full with respect to the next one |
| Wrap.WrapStep | print-server.js:370-378 | one turn of the loop, in either branch, keeps the lines joined to the words read so far and keeps the wrapping invariant |
| Wrap.WrapText | print-server.js:365-382 | at least one line; the lines joined by spaces give back the text; no more lines than words; a line holding several words fits the width; every line but the last could not take the next line's first word |
| InvoiceDate.ClockHour | print-server.js:674 | `hours % 12 \|\| 12` is between 1 and 12 and agrees with the hour modulo 12; NaN gives 12 |
| InvoiceDate.Meridiem | print-server.js:673 | PM exactly when the hour is a number of at least 12 |
| InvoiceDate.SilverDate | print-server.js:119-121 | a date part with three `/` pieces `Y/M/D` prints as `D-M-Y`; with fewer pieces the day prints as `undefined` |
| InvoiceDate.GoldDate | print-server.js:661-663 | a date part with three `/` pieces `Y/M/D` prints as `D/M/` followed by the last two characters of the year; with fewer pieces it starts with `undefined` |
| InvoiceDate.GoldClock | print-server.js:671-676 | the clock ends in ` AM` or ` PM`, ` PM` exactly when the hour parses to a number of at least 12 |
| InvoiceDate.SpaceSplits | print-server.js:660 | splitting on a space gives a second piece exactly when the string contains a space |
| InvoiceDate.GoldDateTime | print-server.js:660-677 | the gold date and time are defined exactly when the time contains a space; otherwise the renderer throws |
| InvoiceDate.DatePartSplits | print-server.js:120 | `YYYY/MM/DD` splits on `/` into its three parts and has no space |
| InvoiceDate.SilverDateOfParts | print-server.js:119-121 | a silver invoice prints `DD-MM-YYYY`, with or without a clock part |
| InvoiceDate.TimeSplits | print-server.js:660 | a well-formed time splits on its space into the date part and the clock part |
| InvoiceDate.GoldClockOfParts | print-server.js:671-676 | `HH:MM` prints as the twelve-hour clock with the minutes unchanged and AM or PM |
| InvoiceDate.GoldDateOfParts | print-server.js:661-663 | `YYYY/MM/DD` prints as `DD/MM/YY` |
| InvoiceDate.GoldDateTimeOfParts | print-server.js:660-677 | a well-formed time prints as `DD/MM/YY h:MM AM\|PM` |
| InvoiceDate.MidnightIsTwelveAm | print-server.js:671-676 | `00:07` prints as `12:07 AM` |
| InvoiceDate.NoonIsTwelvePm | print-server.js:671-676 | `12:30` prints as `12:30 PM` |
| InvoiceDate.ThirteenIsOnePm | print-server.js:671-676 | `13:45` prints as `1:45 PM` |
| SilverLayout.CodeAt | print-server.js:129-130 | a product code is shown exactly when `Codes` has an entry at the row's index and that entry is not empty, and it is then that entry |
| SilverLayout.RowsUpToNext | print-server.js:127-225 | one turn of the item loop keeps the rows it has drawn correct for the items so far |
| SilverLayout.ItemRows | print-server.js:124-225 | the rows are those of exactly the items with positive gross weight, in item order, the `k`-th at `130 + 45k` |
| SilverLayout.RowsUnique | print-server.js:127-225 | the row specification has exactly one solution |
| SilverLayout.RowsClearOfTotals | print-server.js:125-134 | seven rows fit above the totals box at 457; an eighth runs into it |
| SilverLayout.ReduceTotal | print-server.js:270 | the `reduce` with `parseInt` is the start value plus the sum when the start value and every entry are numbers, and NaN otherwise |
| SilverLayout.Total | print-server.js:270 | the printed total is the sum of the parsed entries, or NaN if one entry is not numeric |
| SilverLayout.SalePriceTextOutsideBox | print-server.js:297-300 | as written, without a discount the sale price text lies outside its box |
| SilverLayout.SalePriceText | print-server.js:297-300 | the corrected text line is centred inside the sale price box in both layouts, and agrees with the source when there is a discount |
| SilverLayout.SummaryFor | print-server.js:238-303 | the discount block is shown exactly when `Discount > 0`; the old-metal block exactly when `os_nw > 0`, at 486 or 478; total, discount, old metal and sale price run top to bottom; the total is the parsed sum; the sale price text lies inside the sale price box (corrected, see "Findings"), at the source's 514 when there is a discount |
| GoldLayout.ColumnsFor | print-server.js:425-457 | the stone column has a width exactly when there is stone weight and then lies between gross and net weight; the columns run left to right inside the design width |
| GoldLayout.RowsUpToNext | print-server.js:407-657 | one turn of the item loop keeps the rows it has drawn correct for the items so far |
| GoldLayout.ItemRows | print-server.js:403-657 | the rows are those of exactly the items with positive gross weight, in item order, each carrying its cells under the GST and stone rules |
| GoldLayout.RowsUnique | print-server.js:407-657 | the row specification has exactly one solution |
| GoldLayout.SerialIsPosition | print-server.js:481 | the serial number is the item's position plus one, never less than the row's own rank |
| GoldLayout.RowFor | print-server.js:481-657 | the code appears exactly when not empty; the HSN cell exactly when `cgst` is truthy, with `-` for an empty HSN; the stone cell exactly with the stone column, its grams and rate exactly when positive; the V.A. note exactly when `cgst > 0` and `VA > 0`; the wastage is `wastage * rate` rupees exactly when `cgst > 0`, and as sent otherwise |
| GoldLayout.Reduce | print-server.js:745-786 | the left-to-right `reduce` from a start value is that value plus the column sum |
| GoldLayout.SumOfFilters | print-server.js:745-786 | a column sum splits into its drawn items and its skipped items |
| GoldLayout.ColumnTotal | print-server.js:745-786 | a total counts every item, including those whose row is not drawn |
| GoldLayout.PaymentLinesAppend | print-server.js:664-668 | the payment lines of two runs of methods are the lines of each, in order |
| GoldLayout.MethodsHeadingSnoc | print-server.js:725 | one more payment method adds ` / ` and its name to the end of the heading line |
| GoldLayout.SummaryFor | print-server.js:690-948 | round-off, discount and purchased gold are shown exactly when positive; the discount moves up without a round-off; the customer address appears exactly when truthy; the amounts run top to bottom; CGST, SGST and tax are stacked and the tax is their sum; the totals are the column sums; the heading carries the date and time and the invoice number, and a single method's name alone; payment line `i` is `key: Rs.value` of the `i`-th method |
| PrintRoute.Accepted | print-server.js:989-991 | a request passes validation exactly when its time is truthy and it has `item` or `items` |
| PrintRoute.CommandFor | print-server.js:1039-1049 | the default-printer command exactly for `metal === 'silver'`; otherwise the printer is named, the Epson one for gold and the Samsung one for anything else |
| PrintRoute.PostPrint | print-server.js:985-1082 | invalid is 400 with the map untouched; a duplicate is 429 with the guard's wait and the map untouched; once accepted the fingerprint stays recorded, a render that throws is 500, and otherwise the response names the printer and carries the command and the job its renderer draws |
| PrintRoute.PrintTwice | print-server.js:993-1012 | a valid invoice the guard accepts, sent again less than 30 seconds later, is printed (or fails) once and refused the second time, with a wait of 1 to 30 seconds |

## Left out

- `attendence-server.js` is not part of this model.
- Express routing, CORS and JSON parsing are left out, and so are `GET /health` and `GET /printers` with `listPrinters`. They are I/O around the core.
- Reading the template images and rasterising with `sharp` are left out. So are building the PDF with `pdf-lib` and the millimetre-to-point factor 2.83465. These are foreign libraries.
- Running the print command with `exec` is left out, and so are its logging and the PowerShell strings themselves. Only which command is chosen is modelled (`PrintRoute.CommandFor`).
- Creating the `temp` directory and writing the PDF are left out. A failure there would be a 500.
- The SVG markup, fonts and horizontal text positions of the summary blocks are left out. Only the gold item columns model horizontal positions.
- Numbers are integers. The model leaves out floating point: `parseFloat(os_nw)`, `toFixed(2)`, fractional weights and prices, and the division by the scale factors.
- `parseInt` is modelled without a sign, leading blanks or a radix prefix. The model does not cover the `toString` of non-string values.
- Apart from `time`, `total`, `metal`, `item`, `items` and the customer fields, the request fields are assumed present with their JSON type. The source would throw or print `undefined` for a missing one. `Object.entries(paymethod)` is a sequence of pairs in insertion order. The model assumes no method name is an array index such as `"1"`: `Object.entries` and `Object.keys` list such keys first, in ascending numeric order.
- Guard.RemainingSeconds: the bound of 30 seconds is stated only for a non-negative elapsed time. The model leaves out a clock that runs backwards.
- `wrapText` is modelled as a standalone method. Its result feeds only an unused variable in the row loop, so the rows do not depend on it. Its character width `fontSize * 0.6` is the parameter `charWidth`.
- The three clock reads of one request are one value, `now`.
- Wrap.WrapText: a word's length is its number of characters, where JavaScript's `length` counts UTF-16 code units; the two differ for characters outside the Basic Multilingual Plane.

## Findings

| source | as written | input that shows it | evidently intended | confidence | as-written member | corrected member |
|---|---|---|---|---|---|---|
| print-server.js:297-300 | both branches of the sale price text line are `504 + 20 / 2`, so the text stays at 514 when the box moves up to 487 | a silver invoice with `Discount` 0: box 487-507, text at 514 | center the text in the box in both layouts (`487 + 20 / 2` without a discount) | not executed | SilverLayout.SalePriceTextOutsideBox | SilverLayout.SalePriceText |
