# Studio inventory: vendor-receipt ingestion and inventory rules

This project models the core of a studio inventory tool. Vendor receipts arrive as PDFs. A registry
of vendor parsers picks the first parser whose `detect` claims a document. That parser turns the
text into one order header (`ParsedOrder`) and a list of line items (`ParsedLineItem`). A
command-line tool then keeps a `parts_received` table keyed by part key (`vendor:sku`), and an
append-only `parts_removed` log.

The model has these modules:

- `Base` (`base.dfy`) holds the two result records. Every optional field is an `Option`, so a
  missing amount is `None` and never zero. It also holds the document a parser is handed and the
  closed set of parser variants.
- `Registry` (`registry.dfy`) models the fixed parser order and the first-match dispatch. A
  detector has three possible outcomes (`Yes`, `No`, `Raised`), and a raised exception counts as
  a non-match.
- `DigiKey` (`digikey.dfy`) models the Digi-Key receipt grammar:
  - case-insensitive detection;
  - the labelled header fields `_find` and `_money_after`, with `re.search` modelled as a
    leftmost scan and money kept in cents (`MoneyText` prints an amount canonically: no
    leading zeros, two decimals);
  - hand-written matchers for `PART_RE` and `PRICE_RE`, each proved to accept exactly the
    lines of the pattern's shape (any digit runs, leading zeros included) and to return the
    values printed there;
  - the line-by-line item loop as a method, proved equal to a recursive specification function.
- `McMaster` (`mcmaster.dfy`) models the McMaster-Carr adapter: detection by file name or first
  page, the total coercions `_to_int` and `_to_float`, and the mapping of the extractor's output
  onto the records.
- `Cli` (`cli.dfy`) models the inventory rules of the command-line tool: `safe_str`, `shorten`,
  the `vendor:sku` split, and the receive and remove commands. `Inventory` is a class holding the
  table as a `map` and the log as a `seq`.
- `Text`, `Numeric`, `Values` and `Wrappers` model the pieces of Python the core relies on:
  - `str.strip`, `str.lower` and `str.upper`, `in` and `startswith`, and `str.replace(p, "")`;
  - leftmost `re.search`;
  - `float()` on decimal text, `int()` of a float, and `str()` of an integer;
  - Python's `None`, `str` and `int` scalars with their truthiness.

Where the project's documentation and the code disagree, the model follows the code:

- The documentation says `detect` never raises. The Digi-Key `detect` (`vendors/digikey.py:14-17`)
  opens the document without a `try`, so it raises on an unreadable file. Only the registry's
  `try` (`vendors/registry.py:28-32`) turns that into a non-match. `DigiKey.Detect` therefore
  returns `Raised` for an unreadable page.
- The documentation says parsed quantities are never negative. `_to_int("-2.5")` returns -2
  (`vendors/mcmaster.py:75`), and `McMaster.ToIntTruncatesTowardZero` states exactly that.
  Digi-Key quantities are digit runs, so they are `nat`.
- `vendors/registry.py:7` imports a `DigiKeyParser` class, but `vendors/digikey.py` defines only
  module-level functions. Its `parse_order` returns a dictionary rather than a `ParsedOrder`. The
  model treats those functions as the `DigiKeyParser` variant, with vendor id `"digikey"`
  (`vendors/digikey.py:47`), and keeps the dictionary's shape (`DigiKey.OrderDict`).

## Model

| member | source | states |
|---|---|---|
| Base.NewOrder | vendors/base.py:9-25 | an order needs only vendor, source file and path; every other field, the four money fields included, is absent |
| Base.NewLineItem | vendors/base.py:29-49 | a line item is given vendor, file, invoice, purchase order, line, sku and description; quantities, prices and vendor extras are absent |
| Registry.FirstDetected | vendors/registry.py:26-33 | none exactly when no outcome is `Yes`; otherwise the position of a `Yes` before which every outcome is `No` or `Raised` |
| Registry.RaisedIsNonMatch | vendors/registry.py:28-32 | turning a raised detection into a plain `No` never changes which parser is picked |
| Registry.Outcome | vendors/registry.py:27-32 | McMaster's detector never raises and answers its `detect`; DigiKey's is its `detect` outcome; the other four are given |
| Registry.Outcomes | vendors/registry.py:14-23 | one outcome per registered parser, in the fixed order McMaster, DigiKey, Mouser, Newark, Arduino, Bambu Lab |
| Registry.PickParser | vendors/registry.py:26-33 | the result is none exactly when no detector answers true; otherwise it is a registered parser whose detector answered true and every earlier one did not |
| Registry.PickByMcMasterName | vendors/registry.py:16-17 | a file named after McMaster is dispatched to McMaster whatever the other detectors do |
| Registry.PickDigiKey | vendors/registry.py:27-30 | a Digi-Key page that McMaster does not claim goes to the DigiKey parser |
| Registry.PickNone | vendors/registry.py:33 | with no detector answering true, dispatch yields none rather than failing |
| Registry.PickUnreadable | vendors/registry.py:28-32 | an unreadable file not named after McMaster is passed over although DigiKey's detector raises on it |
| Registry.PickEmptyPage | vendors/registry.py:26-33 | a file with an empty first page and no McMaster name has no parser among the modelled ones |
| Registry.VendorIdAgrees | vendors/mcmaster.py:13-53 | `VendorId` agrees with the `vendor` field each modelled parser writes: the McMaster order and each of its line items, and the Digi-Key order |
| DigiKey.DetectIgnoresCase | vendors/digikey.py:14-17 | detection raises exactly on an unreadable page, and succeeds exactly when some window of the page spells "DIGI-KEY ELECTRONICS" in any case |
| DigiKey.ParseOrder | vendors/digikey.py:24-58 | vendor is "digikey" and account number, payment date and card are always absent |
| DigiKey.InvoiceRoundTrip | vendors/digikey.py:27 | the digits after the first "PO Acknowledgement" of the text (no case-insensitive occurrence earlier), after at least one blank, are reported as the invoice |
| DigiKey.PurchaseOrderRoundTrip | vendors/digikey.py:28 | the digits after the first "WEB ORDER ID:" of the text, after optional blanks, are reported as the purchase order |
| DigiKey.FindRoundTrip | vendors/digikey.py:135-137 | `_find` returns the stripped field after the first case-insensitive occurrence of its label, wherever that stands |
| DigiKey.SalesTaxRoundTrip | vendors/digikey.py:34 | a canonically printed amount after the first "Sales Tax" is reported as the sales tax |
| DigiKey.TotalRoundTrip | vendors/digikey.py:35 | a canonically printed amount after the first "Total" is reported as the total |
| DigiKey.TaxAndTotalRoundTrip | vendors/digikey.py:24-58 | a receipt printing "Sales Tax" and later "Total", each for the first time, reports both amounts |
| DigiKey.FieldAtRoundTrip | vendors/digikey.py:135-137 | a label, blanks and a run of field characters are matched and the run is returned stripped |
| DigiKey.AbsentWhenNoMatch | vendors/digikey.py:135-142 | when no position of the text matches, the field or amount is absent, not zero |
| DigiKey.MoneyAtOf | vendors/digikey.py:140-142 | a label, optional blanks and any amount of the pattern's shape read back as that amount in cents |
| DigiKey.MoneyAtRoundTrip | vendors/digikey.py:140-142 | a label, optional blanks and a canonically printed amount read back as that amount in cents |
| DigiKey.AmountAtOf | vendors/digikey.py:141 | `[0-9]+\.[0-9]{2}` reads back any amount of that shape, leading zeros included, whatever follows it |
| DigiKey.AmountAtRoundTrip | vendors/digikey.py:141 | `[0-9]+\.[0-9]{2}` reads back a canonically printed amount whatever follows it |
| DigiKey.MoneyAfterOf | vendors/digikey.py:140-142 | `_money_after` reads any amount of the pattern's shape printed after the first case-insensitive occurrence of its label, wherever that stands in the text |
| DigiKey.MoneyAfterRoundTrip | vendors/digikey.py:140-142 | the same for a canonically printed amount, given in cents |
| DigiKey.MoneyAtIgnoresCase | vendors/digikey.py:141 | a label differing from the caption only in case reads the same amount |
| DigiKey.CaselessRoundTrip | vendors/digikey.py:141 | a label written in another case is still followed by its amount |
| DigiKey.SubtotalQuirk | vendors/digikey.py:140-142 | the unanchored, case-insensitive search for "Total" reads the amount after "Subtotal" |
| DigiKey.SubtotalReadAsTotal | vendors/digikey.py:35 | so a receipt starting with a subtotal reports it as the order's total |
| DigiKey.SkuAfterRoundTrip | vendors/digikey.py:66 | "PART:", optional blanks and a sku give back that sku |
| DigiKey.NumberThenSpaceRoundTrip | vendors/digikey.py:66 | a digit run followed by blanks gives back its value and the text after the blanks |
| DigiKey.MatchPartRoundTrip | vendors/digikey.py:65-67 | an item-start line with four numbers and a sku is recognised and gives back all five |
| DigiKey.NumberThenSpaceSound | vendors/digikey.py:66 | a `(\d+)\s+` match consumed a digit run and blanks, and returns the run's value and the text after them |
| DigiKey.SkuAfterSound | vendors/digikey.py:66 | a `PART:\s*([A-Z0-9\-]+)` match consumed the label, blanks and a maximal run of SKU characters, which it returns |
| DigiKey.MatchPartSound | vendors/digikey.py:65-67 | every line PART_RE accepts is four digit runs each followed by blanks, "PART:", blanks and a maximal SKU run, and the match holds exactly those four values and that SKU |
| DigiKey.AmountAtEndOf | vendors/digikey.py:69 | any amount of the shape `\d+\.\d{2}` at the end of the text, after a non-digit, is found at its start with its value in cents |
| DigiKey.AmountAtEndRoundTrip | vendors/digikey.py:69 | a canonically printed amount at the end of the text is found, starting right after a non-digit |
| DigiKey.MatchPriceOf | vendors/digikey.py:69 | text ending in "price blanks total", with amounts of any digit runs (leading zeros included) after a non-digit, has both amounts split off, and the match starts at the price |
| DigiKey.MatchPriceRoundTrip | vendors/digikey.py:69 | the same for canonically printed amounts given in cents |
| DigiKey.AmountAtEndSound | vendors/digikey.py:69 | an amount found at the end is a digit run that cannot be extended to the left, a point and two digits, with that value in cents |
| DigiKey.MatchPriceSound | vendors/digikey.py:69 | every PRICE_RE match is, from its start to the end of the text, an amount, blanks and an amount; it starts after a non-digit or at 0; price and total are those amounts |
| DigiKey.DescriptionText | vendors/digikey.py:104 | the text of a "DESC:" line is the rest of the line with the label removed and the blanks stripped |
| DigiKey.ApplyDescRoundTrip | vendors/digikey.py:103-111 | a description line ending in a price and a total sets the description to the text before them, and both amounts to the printed values |
| DigiKey.NoPriceWithoutFinalDigit | vendors/digikey.py:69 | text that does not end in a digit holds no price pair |
| DigiKey.ApplyDescWithoutPrice | vendors/digikey.py:103-111 | a description line without a price pair sets the description to the line without its label and blanks, and keeps every other field, price and total included |
| DigiKey.ParseLineItems | vendors/digikey.py:72-123 | the loop with its break and final flush returns exactly the items of the recursive specification `LineItems` |
| DigiKey.ScanOnStop | vendors/digikey.py:113-118 | a terminator with an item open ends the scan, and the open item is flushed |
| DigiKey.ScanHeaders | vendors/digikey.py:78-118 | from any state, the headers (line, quantities, sku) of the scan's items are those of the emitted items, then of the open item, then one per item-start line before the first effective terminator |
| DigiKey.LineItemsFollowStarts | vendors/digikey.py:72-123 | the items match the item-start lines before the first effective terminator one to one, in order, with line, quantities and sku from each start line |
| DigiKey.AllItemsFlushed | vendors/digikey.py:117-118 | without a terminator the last item is still flushed: one item per item-start line |
| McMaster.DetectMeaning | vendors/mcmaster.py:15-26 | detection holds exactly when the lower-cased name or the readable first page mentions "mcmaster"; the second marker adds nothing |
| McMaster.ContainsLonger | vendors/mcmaster.py:24 | text containing "mcmaster-carr" contains "mcmaster" |
| McMaster.DetectByName | vendors/mcmaster.py:17-19 | a file named after McMaster is claimed without reading it |
| McMaster.ParseOrder | vendors/mcmaster.py:28-44 | vendor, file name and path set; the invoice is stringified when present and absent when absent; other fields copied |
| McMaster.NumericInvoice | vendors/mcmaster.py:35 | a numeric invoice is reported as decimal text that reads back as the same number |
| McMaster.ToInt | vendors/mcmaster.py:70-77 | `None` and blank text give absent |
| McMaster.ToFloat | vendors/mcmaster.py:79-86 | `None` gives absent |
| McMaster.ToIntIsTruncatedToFloat | vendors/mcmaster.py:70-86 | on text without "$" or ",", `_to_int` is `_to_float` truncated toward zero, absent exactly when that is absent |
| McMaster.ToIntOfInt | vendors/mcmaster.py:70-77 | a whole number comes back unchanged |
| McMaster.ToIntOfParsed | vendors/mcmaster.py:75 | stripped text that `float` reads gives its truncation |
| McMaster.ToIntOfFixed | vendors/mcmaster.py:75 | "x.y" gives the whole part x |
| McMaster.ToIntOfDecimalText | vendors/mcmaster.py:75 | "3.0" gives 3 |
| McMaster.ToIntTruncatesTowardZero | vendors/mcmaster.py:75 | "-2.5" gives -2 |
| McMaster.ToFloatOfCleaned | vendors/mcmaster.py:82-84 | the result is what `float` reads from the text with the symbols removed |
| McMaster.DollarSignRemoved | vendors/mcmaster.py:82 | a leading "$" is removed and nothing else changes |
| McMaster.ToFloatOfDollars | vendors/mcmaster.py:79-86 | a leading "$" does not change the value read |
| McMaster.CommaRemoved | vendors/mcmaster.py:82 | one separator between plain strings is removed |
| McMaster.SeparatorRemoved | vendors/mcmaster.py:82 | removing "$" then "," from "x,y" leaves "xy" |
| McMaster.SymbolAndSeparatorRemoved | vendors/mcmaster.py:82 | removing "$" then "," from "$x,y" leaves "xy" |
| McMaster.ToFloatDropsSeparator | vendors/mcmaster.py:79-86 | "x,y" reads as the number "xy", wherever the separator stands |
| McMaster.ToFloatOfPrice | vendors/mcmaster.py:79-86 | a price such as "$1,234.56" reads as "1234.56" |
| McMaster.CoercionsOfWord | vendors/mcmaster.py:70-86 | text starting with a letter is absent under both coercions, which do not raise |
| McMaster.CoercionsOfBlank | vendors/mcmaster.py:70-86 | blank text is absent under both coercions |
| McMaster.ToLineItem | vendors/mcmaster.py:52-65 | vendor, file, invoice and purchase order come from the order; sku and description are `str(v or "")` of the extracted values, so "" exactly when missing or empty; quantities and prices go through the coercions |
| McMaster.Items | vendors/mcmaster.py:50-66 | one item per extracted item |
| McMaster.ItemsAt | vendors/mcmaster.py:50-66 | item k is built from extracted item k alone |
| McMaster.ParseLineItems | vendors/mcmaster.py:46-67 | the order is parsed first, then the items are built from it in extraction order |
| McMaster.BuildItems | vendors/mcmaster.py:49-66 | the append loop returns exactly the specified items |
| McMaster.ItemsCarryOrder | vendors/mcmaster.py:47-56 | every item names McMaster and the file, and carries the order's invoice and purchase order |
| Values.OrEmpty | vendors/mcmaster.py:58-59 | `str(v or "")` is empty exactly for falsy values, and otherwise the value's string form |
| Numeric.Truncate | vendors/mcmaster.py:75 | `int()` of a float rounds toward zero |
| Numeric.IntToStringRoundTrip | vendors/mcmaster.py:35 | the decimal text of an integer reads back as that integer |
| Cli.SafeStr | art_studio_org/cli.py:41-42 | `None` gives "" and other values their string form; the result is empty exactly for `None` and "" |
| Cli.SafeStrVersusOrEmpty | art_studio_org/cli.py:41-42 | `safe_str` agrees with `str(v or "")` on truthy values and `None`, but keeps 0 as "0" |
| Cli.Shorten | art_studio_org/cli.py:45-47 | a short string is unchanged; a long one is a prefix ending in an ellipsis, of length n when n >= 1 |
| Cli.ShortenFits | art_studio_org/cli.py:45-47 | for a positive width the result fits, and is the string or its first n-1 characters and an ellipsis |
| Cli.ShortenNonPositiveWidth | art_studio_org/cli.py:47 | for a width below one, Python's negative slice makes the result longer than the width |
| Cli.FirstColon | art_studio_org/cli.py:381 | the first ':' of the key, or none exactly when there is none |
| Cli.SplitPartKey | art_studio_org/cli.py:381-382 | the default vendor and sku are the key split at its first ':', or both "" without one |
| Cli.SplitJoin | art_studio_org/cli.py:381-382 | "vendor:sku" splits back into vendor and sku, the sku keeping its own colons |
| Cli.UnitCost | art_studio_org/cli.py:347-351 | an empty or non-numeric unit cost is 0.0, and otherwise it is the number typed |
| Cli.UpdatedRow | art_studio_org/cli.py:361-374 | quantity and spend become the old totals (NULL as 0) plus the received ones, always written as numbers; the average is recomputed only when both totals are positive; nothing else but the timestamp changes |
| Cli.NewRow | art_studio_org/cli.py:380-410 | a new row holds the quantity and spend, no invoice, and the average or 0.0; vendor and sku default to the key split, the label to the description or the key, and description, label lines, URLs and QR fields to ""; the cleaned description is the stripped one |
| Cli.ReceiveTwice | art_studio_org/cli.py:361-374 | when the row's totals plus both receipts are positive in quantity and in spend, two receipts equal one receipt of their summed quantity and spend |
| Cli.Inventory.Receive | art_studio_org/cli.py:332-413 | an empty key or a quantity that is not positive changes nothing; otherwise the row is updated or inserted; the log is untouched |
| Cli.Inventory.Remove | art_studio_org/cli.py:295-329 | exactly one log entry is appended when the key exists and the quantity is positive, otherwise nothing; the table is never changed |

## Left out

- PDF text extraction is a foreign library: `pdfplumber.open`, `_all_text`, `splitlines` and the
  page reads in both detectors. A document's first page is an input (`Base.FirstPage`), and so
  are Digi-Key's full text and its lines.
- The McMaster extractors `extract_order_info_by_page` and `parse_receipt` are not part of this
  model. Their outputs are the inputs `McMaster.OrderInfo` and `McMaster.RawItem`.
- The Mouser, Newark, Arduino and Bambu Lab parsers are not part of this model. Their detection
  outcomes are an input function (`others`), and their `vendor` identifiers are unknown
  (`Registry.VendorId` gives none for them).
- `float()` is modelled for an optional sign, digits, an optional point and digits. Python also
  accepts exponents, underscores, "inf" and "nan", which are not modelled; here they read as
  absent. Values are exact `real`s, not IEEE doubles.
- `Values.Value` has no float variant, so `_to_int`, `_to_float` and `safe_str` of a Python
  float input (whose `str` is, for example, "3.0") are not modelled. `safe_str` is applied to
  REAL columns only in `inv_list`, `inv_search` and `inv_show`, which are not modelled.
- `invoice_date` and `payment_date` are untyped in `ParsedOrder`; the model narrows them to
  optional strings. They are passed through unchanged.
- Case folding (`re.I`, `str.lower`, `str.upper`) and the digit class `\d` are ASCII only.
  Python also folds other Unicode letters and matches other Unicode decimal digits. Whitespace
  is not narrowed: `Text.IsSpace` is the full `str.isspace` set, which `\s` and `strip()` use.
- `detect`'s file handling, that is opening, closing and any I/O error, is one outcome:
  `Unreadable`.
- The sqlite database, paths and the environment are not modelled. Rows are values in a map;
  SQL `COALESCE` is modelled, and the diagnostics queries are not.
- Menus, Rich tables, `pause` and debug printing are left out. They do not affect returned data.
- The prompts, the clock (`utc_now_iso`) and the uid (`uuid4`) are parameters of the receive
  and remove methods. `FloatPrompt`'s parsing of the quantity is not modelled; the quantity is
  given as a number.
- `inv_list`, `inv_search`, `inv_show` and `inv_edit_labels` are queries or label edits outside
  the receive and remove rules, and are not modelled.
- McMaster.ToInt: its `ensures` gives only the absent cases. The value cases are stated by the
  lemmas beside it (`ToIntIsTruncatedToFloat`, `ToIntOfParsed`, `ToIntTruncatesTowardZero`).
- McMaster.ToFloat: its `ensures` gives only the absent case. The value cases are stated by the
  lemmas beside it (`ToFloatOfCleaned`, `ToFloatDropsSeparator`, `ToFloatOfPrice`).
