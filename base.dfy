/** The records every vendor parser produces, the document a parser is
    handed, and the closed set of parser variants behind the three-operation
    `VendorParser` interface (`detect`, `parse_order`, `parse_line_items`). */
module Base {
  import opened Wrappers

  /** One vendor receipt's header. Money is optional: an amount that could
      not be extracted is `None`, never `Some(0.0)`. */
  datatype ParsedOrder = ParsedOrder(
    vendor: string,
    sourceFile: string,
    pdfPath: string,
    purchaseOrder: Option<string>,
    invoice: Option<string>,
    invoiceDate: Option<string>,
    accountNumber: Option<string>,
    paymentDate: Option<string>,
    creditCard: Option<string>,
    merchandise: Option<real>,
    shipping: Option<real>,
    salesTax: Option<real>,
    total: Option<real>)

  /** `ParsedOrder(vendor, source_file, pdf_path)`: the three required
      fields, with every optional field at its default, absent. */
  function NewOrder(vendor: string, sourceFile: string, pdfPath: string): (o: ParsedOrder)
    ensures o.vendor == vendor && o.sourceFile == sourceFile && o.pdfPath == pdfPath
    ensures o.purchaseOrder.None? && o.invoice.None? && o.invoiceDate.None?
    ensures o.accountNumber.None? && o.paymentDate.None? && o.creditCard.None?
    ensures o.merchandise.None? && o.shipping.None? && o.salesTax.None? && o.total.None?
  {
    ParsedOrder(vendor, sourceFile, pdfPath, None, None, None, None, None, None,
                None, None, None, None)
  }

  /** One purchased line of a receipt. `sku` and `description` are plain
      strings (possibly empty); every other detail is optional. */
  datatype ParsedLineItem = ParsedLineItem(
    vendor: string,
    sourceFile: string,
    invoice: Option<string>,
    purchaseOrder: Option<string>,
    line: Option<int>,
    sku: string,
    description: string,
    ordered: Option<int>,
    shipped: Option<int>,
    balance: Option<int>,
    unitPrice: Option<real>,
    lineTotal: Option<real>,
    manufacturer: Option<string>,
    mfgPart: Option<string>,
    url: Option<string>)

  /** `ParsedLineItem(...)` given its seven fields without defaults (the
      invoice, purchase order and line may themselves be absent); the
      quantities, prices and vendor extras default to absent. */
  function NewLineItem(vendor: string, sourceFile: string, invoice: Option<string>,
                       purchaseOrder: Option<string>, line: Option<int>,
                       sku: string, description: string): (it: ParsedLineItem)
    ensures it.vendor == vendor && it.sourceFile == sourceFile
    ensures it.invoice == invoice && it.purchaseOrder == purchaseOrder && it.line == line
    ensures it.sku == sku && it.description == description
    ensures it.ordered.None? && it.shipped.None? && it.balance.None?
    ensures it.unitPrice.None? && it.lineTotal.None?
    ensures it.manufacturer.None? && it.mfgPart.None? && it.url.None?
  {
    ParsedLineItem(vendor, sourceFile, invoice, purchaseOrder, line, sku, description,
                   None, None, None, None, None, None, None, None)
  }

  /** What the text extractor gives for a document's first page: it cannot
      be read (the file does not open, or has no page), or it is a page
      whose `extract_text()` returned a string or `None`. */
  datatype FirstPage = Unreadable | Page(text: Option<string>)

  /** A receipt as a parser sees it: its path, the path's last component,
      and its first page. */
  datatype Document = Document(path: string, name: string, firstPage: FirstPage)

  /** What one call of a parser's `detect` does: answer true, answer false,
      or raise. */
  datatype Detection = Yes | No | Raised

  /** The implementations of the `VendorParser` interface that the registry
      knows about. */
  datatype Parser =
    | McMasterParser
    | DigiKeyParser
    | MouserParser
    | NewarkParser
    | ArduinoParser
    | BambuLabParser
}
