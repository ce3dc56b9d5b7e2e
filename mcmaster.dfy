/** The McMaster-Carr adapter (`vendors/mcmaster.py`): detection by file
    name or first page, and the mapping from the output of the existing
    extractors onto `ParsedOrder` and `ParsedLineItem`. The extractors
    themselves are not part of this model; their results are inputs. */
module McMaster {
  import opened Wrappers
  import opened Text
  import opened Numeric
  import opened Values
  import opened Base

  const Vendor := "mcmaster"

  // ---------------------------------------------------------------------
  // Detection
  // ---------------------------------------------------------------------

  /** `detect`: the lower-cased file name mentions McMaster, or else the
      lower-cased first page does. A document that cannot be read is not
      McMaster's; `detect` never raises. */
  function Detect(doc: Document): bool {
    if Contains(Lower(doc.name), Vendor) then true
    else match doc.firstPage
      case Unreadable => false
      case Page(t) =>
        var txt := Lower(t.GetOr(""));
        Contains(txt, Vendor) || Contains(txt, "mcmaster-carr")
  }

  /** Every occurrence of "mcmaster-carr" is an occurrence of "mcmaster". */
  lemma ContainsLonger(s: string)
    ensures Contains(s, "mcmaster-carr") ==> Contains(s, Vendor)
  {
    if Contains(s, "mcmaster-carr") {
      var i :| 0 <= i <= |s| && StartsWith(s[i..], "mcmaster-carr");
      assert s[i..][..|Vendor|] == "mcmaster-carr"[..|Vendor|];
      assert StartsWith(s[i..], Vendor);
    }
  }

  /** Detection is by name first, then by page text, and the second marker
      adds nothing to the first: the result is exactly "the name or the
      readable first page mentions mcmaster". */
  lemma DetectMeaning(doc: Document)
    ensures Detect(doc) <==>
              Contains(Lower(doc.name), Vendor)
              || (doc.firstPage.Page? && Contains(Lower(doc.firstPage.text.GetOr("")), Vendor))
  {
    if doc.firstPage.Page? {
      ContainsLonger(Lower(doc.firstPage.text.GetOr("")));
    }
  }

  /** A file whose name mentions McMaster is claimed without looking at its
      content, even when the content cannot be read. */
  lemma DetectByName(doc: Document)
    requires Contains(Lower(doc.name), Vendor)
    ensures Detect(doc)
  {
  }

  // ---------------------------------------------------------------------
  // Order
  // ---------------------------------------------------------------------

  /** What `extract_order_info_by_page` returns: the invoice may be a
      number or a string; the other fields are taken over as they are. */
  datatype OrderInfo = OrderInfo(
    purchaseOrder: Option<string>,
    invoice: Value,
    invoiceDate: Option<string>,
    accountNumber: Option<string>,
    paymentDate: Option<string>,
    creditCard: Option<string>,
    merchandise: Option<real>,
    shipping: Option<real>,
    salesTax: Option<real>,
    total: Option<real>)

  /** `parse_order`: the vendor id, the file's name and path, and the
      extracted header; the invoice is turned into a string when present. */
  function ParseOrder(doc: Document, info: OrderInfo): (o: ParsedOrder)
    ensures o.vendor == Vendor && o.sourceFile == doc.name && o.pdfPath == doc.path
    ensures o.invoice.None? <==> info.invoice.Null?
    ensures o.invoice.Some? ==> o.invoice.value == ToStr(info.invoice)
    ensures o.purchaseOrder == info.purchaseOrder && o.invoiceDate == info.invoiceDate
    ensures o.accountNumber == info.accountNumber && o.paymentDate == info.paymentDate
    ensures o.creditCard == info.creditCard
    ensures o.merchandise == info.merchandise && o.shipping == info.shipping
    ensures o.salesTax == info.salesTax && o.total == info.total
  {
    ParsedOrder(
      Vendor, doc.name, doc.path,
      info.purchaseOrder,
      if info.invoice.Null? then None else Some(ToStr(info.invoice)),
      info.invoiceDate, info.accountNumber, info.paymentDate, info.creditCard,
      info.merchandise, info.shipping, info.salesTax, info.total)
  }

  /** A numeric invoice is reported as its decimal digits. */
  lemma NumericInvoice(doc: Document, info: OrderInfo, n: int)
    requires info.invoice == Int(n)
    ensures ParseOrder(doc, info).invoice == Some(IntToString(n))
    ensures ParseDecimal(ParseOrder(doc, info).invoice.value) == Some(n as real)
  {
    IntToStringRoundTrip(n);
  }

  // ---------------------------------------------------------------------
  // Coercions
  // ---------------------------------------------------------------------

  /** `_to_int(x)`: absent for `None` and for blank text, otherwise
      `int(float(str(x).strip()))`; a conversion failure is absent too. */
  function ToInt(v: Value): (r: Option<int>)
    ensures v.Null? ==> r.None?
    ensures v.Str? && AllSpace(v.s) ==> r.None?
  {
    if v.Null? then None
    else
      var s := Strip(ToStr(v));
      if s == "" then None
      else match ParseDecimal(s)
        case None => None
        case Some(x) => Some(Truncate(x))
  }

  /** `_to_float(x)`: absent for `None`; otherwise the stripped text with
      every `$` and `,` removed, absent when that is empty or malformed. */
  function ToFloat(v: Value): (r: Option<real>)
    ensures v.Null? ==> r.None?
  {
    if v.Null? then None
    else
      var s := RemoveAll(RemoveAll(Strip(ToStr(v)), "$"), ",");
      if s == "" then None else PyFloat(s)
  }

  /** On text without currency symbols or separators, `_to_int` is
      `_to_float` followed by truncation toward zero. */
  lemma ToIntIsTruncatedToFloat(v: Value)
    requires !Contains(ToStr(v), "$") && !Contains(ToStr(v), ",")
    ensures ToInt(v) == (match ToFloat(v) case None => None case Some(x) => Some(Truncate(x)))
  {
    if !v.Null? {
      var s := Strip(ToStr(v));
      StripContains(ToStr(v), "$");
      StripContains(ToStr(v), ",");
      RemoveAllAbsent(s, "$");
      RemoveAllAbsent(s, ",");
      StripIdentity(s);
    }
  }

  /** A whole number comes back unchanged from `_to_int`. */
  lemma ToIntOfInt(n: int)
    ensures ToInt(Int(n)) == Some(n)
  {
    IntToStringRoundTrip(n);
    IntToStringStripped(n);
    ToIntOfParsed(IntToString(n), n as real, n);
  }

  /** `_to_int` of text with no surrounding blanks that `float` reads. */
  lemma ToIntOfParsed(s: string, v: real, k: int)
    requires Strip(s) == s && ParseDecimal(s) == Some(v) && Truncate(v) == k
    ensures ToInt(Str(s)) == Some(k)
  {
  }

  /** `_to_int` of a decimal with a fraction keeps the whole part. */
  lemma ToIntOfFixed(s: string, x: string, y: string)
    requires |x| > 0 && |y| > 0 && AllDigits(x) && AllDigits(y)
    requires s == x + "." + y
    ensures ToInt(Str(s)) == Some(DigitsValue(x))
  {
    FixedShape(s, x, y);
    StripIdentity(s);
    TruncateOfFixed(s, x, y);
  }

  /** `_to_int("3.0")` is 3. */
  lemma ToIntOfDecimalText(s: string)
    requires |s| == 3 && s[0] == '3' && s[1] == '.' && s[2] == '0'
    ensures ToInt(Str(s)) == Some(3)
  {
    var x, y := s[..1], s[2..];
    assert s == x + "." + y && AllDigits(x) && AllDigits(y) && DigitsValue(x) == 3 by {
      assert x == [s[0]] && y == [s[2]];
    }
    ToIntOfFixed(s, x, y);
  }

  /** `_to_int("-2.5")` is -2. */
  lemma ToIntTruncatesTowardZero(s: string)
    requires |s| == 4 && s[0] == '-' && s[1] == '2' && s[2] == '.' && s[3] == '5'
    ensures ToInt(Str(s)) == Some(-2)
  {
    var t, x, y := s[1..], s[1..2], s[3..];
    assert Strip(s) == s && ParseDecimal(s).Some? && Truncate(ParseDecimal(s).value) == -2 by {
      assert t == x + "." + y && x == [s[1]] && y == [s[3]];
      TruncateOfFixed(t, x, y);
      assert s == "-" + t;
      SignedStripped(s, t);
      TruncateOfNegatedText(s, t);
    }
    ToIntOfParsed(s, ParseDecimal(s).value, -2);
  }

  /** `_to_float(s)` once the symbols are gone: what `float` reads from the
      cleaned text. */
  lemma ToFloatOfCleaned(s: string, u: string, v: real)
    requires Strip(s) == s && RemoveAll(RemoveAll(s, "$"), ",") == u
    requires u != [] && PyFloat(u) == Some(v)
    ensures ToFloat(Str(s)) == Some(v)
  {
  }

  /** Removing `$` and `,` from `"$" + t` leaves `t` when `t` has neither. */
  lemma DollarSignRemoved(s: string, t: string)
    requires s == "$" + t
    requires forall k :: 0 <= k < |t| ==> t[k] != '$' && t[k] != ','
    ensures RemoveAll(RemoveAll(s, "$"), ",") == t
  {
    assert s[..1] == "$" && s[1..] == t;
    NotContainsChar(t, '$');
    RemoveAllAbsent(t, "$");
    NotContainsChar(t, ',');
    RemoveAllAbsent(t, ",");
  }

  /** A leading dollar sign does not change what `_to_float` reads from a
      plain number. */
  lemma ToFloatOfDollars(s: string, t: string)
    requires t != [] && !IsSpace(t[|t| - 1]) && !IsSpace(t[0])
    requires forall k :: 0 <= k < |t| ==> t[k] != '$' && t[k] != ','
    requires s == "$" + t
    ensures ToFloat(Str(s)) == ParseDecimal(t)
  {
    DollarSignRemoved(s, t);
    assert s[|s| - 1] == t[|t| - 1];
    StripIdentity(s);
    StripIdentity(t);
    if ParseDecimal(t).Some? {
      ToFloatOfCleaned(s, t, ParseDecimal(t).value);
    }
  }

  /** Neither a currency symbol nor a separator. */
  predicate Plain(x: string) {
    forall k :: 0 <= k < |x| ==> x[k] != '$' && x[k] != ','
  }

  /** One separator between two plain strings is removed, wherever it
      stands. */
  lemma CommaRemoved(x: string, y: string)
    requires Plain(x) && Plain(y)
    ensures RemoveAll(x + "," + y, ",") == x + y
  {
    RemoveAllCharAppend(x + ",", y, ',');
    RemoveAllCharAppend(x, ",", ',');
    NotContainsChar(x, ',');
    RemoveAllAbsent(x, ",");
    NotContainsChar(y, ',');
    RemoveAllAbsent(y, ",");
    assert RemoveAll(",", ",") == [] by {
      assert ","[..1] == "," && ","[1..] == [];
    }
    assert x + [] == x;
  }

  /** Plain text around one separator holds no currency symbol. */
  lemma NoDollarAroundComma(x: string, y: string)
    requires Plain(x) && Plain(y)
    ensures !Contains(x + "," + y, "$")
  {
    var s := x + "," + y;
    forall k | 0 <= k < |s|
      ensures s[k] != '$'
    {
      if k > |x| {
        assert s[k] == y[k - |x| - 1];
      }
    }
    NotContainsChar(s, '$');
  }

  /** One separator anywhere in otherwise plain text is removed, wherever
      it stands. */
  lemma SeparatorRemoved(s: string, x: string, y: string)
    requires s == x + "," + y && Plain(x) && Plain(y)
    ensures RemoveAll(RemoveAll(s, "$"), ",") == x + y
  {
    NoDollarAroundComma(x, y);
    RemoveAllAbsent(s, "$");
    CommaRemoved(x, y);
  }

  /** A leading currency symbol and one separator are both removed. */
  lemma SymbolAndSeparatorRemoved(s: string, x: string, y: string)
    requires s == "$" + (x + "," + y) && Plain(x) && Plain(y)
    ensures RemoveAll(RemoveAll(s, "$"), ",") == x + y
  {
    assert s[..1] == "$" && s[1..] == x + "," + y;
    SeparatorRemoved(x + "," + y, x, y);
  }

  /** `_to_float` ignores a thousands separator, and does not check where
      it stands: `x + "," + y` reads as `x + y`. */
  lemma ToFloatDropsSeparator(s: string, x: string, y: string)
    requires s == x + "," + y && Plain(x) && Plain(y)
    requires x != [] && !IsSpace(x[0]) && y != [] && !IsSpace(y[|y| - 1])
    ensures ToFloat(Str(s)) == PyFloat(x + y)
  {
    assert s[0] == x[0] && s[|s| - 1] == y[|y| - 1];
    StripIdentity(s);
    SeparatorRemoved(s, x, y);
  }

  /** `_to_float` of a price as receipts print it, such as "$1,234.56":
      the symbol and the separator are dropped and the digits read as one
      number. */
  lemma ToFloatOfPrice(s: string, x: string, y: string)
    requires s == "$" + (x + "," + y) && Plain(x) && Plain(y)
    requires y != [] && !IsSpace(y[|y| - 1])
    ensures ToFloat(Str(s)) == PyFloat(x + y)
  {
    assert s[|s| - 1] == y[|y| - 1];
    StripIdentity(s);
    SymbolAndSeparatorRemoved(s, x, y);
  }

  /** Text that begins with a letter is not a number: both coercions
      give nothing. */
  lemma CoercionsOfWord(s: string)
    requires s != [] && Strip(s) == s && (IsAsciiLower(s[0]) || IsAsciiUpper(s[0]))
    requires forall k :: 0 <= k < |s| ==> s[k] != '$' && s[k] != ','
    ensures ToInt(Str(s)) == None && ToFloat(Str(s)) == None
  {
    ParseDecimalOfWord(s);
    NotContainsChar(s, '$');
    RemoveAllAbsent(s, "$");
    NotContainsChar(s, ',');
    RemoveAllAbsent(s, ",");
  }

  /** Blank text is absent, for both coercions. */
  lemma CoercionsOfBlank(s: string)
    requires AllSpace(s)
    ensures ToInt(Str(s)) == None && ToFloat(Str(s)) == None
  {
    StripSurrounded(s, [], []);
    assert s + [] + [] == s;
  }

  // ---------------------------------------------------------------------
  // Line items
  // ---------------------------------------------------------------------

  /** One dictionary of `parse_receipt`'s output, as the keys read here. */
  datatype RawItem = RawItem(
    line: Option<int>,
    sku: Value,
    description: Value,
    ordered: Value,
    shipped: Value,
    balance: Value,
    price: Value,
    total: Value)

  /** The `ParsedLineItem` built from one extracted item of a document
      whose parsed order is `order`. */
  function ToLineItem(doc: Document, order: ParsedOrder, d: RawItem): (it: ParsedLineItem)
    ensures it.vendor == Vendor && it.sourceFile == doc.name
    ensures it.invoice == order.invoice && it.purchaseOrder == order.purchaseOrder
    ensures it.line == d.line
    ensures it.sku == OrEmpty(d.sku) && it.description == OrEmpty(d.description)
    ensures it.sku == "" <==> !Truthy(d.sku)
    ensures it.description == "" <==> !Truthy(d.description)
    ensures it.ordered == ToInt(d.ordered) && it.shipped == ToInt(d.shipped)
    ensures it.balance == ToInt(d.balance)
    ensures it.unitPrice == ToFloat(d.price) && it.lineTotal == ToFloat(d.total)
    ensures it.manufacturer.None? && it.mfgPart.None? && it.url.None?
  {
    NewLineItem(Vendor, doc.name, order.invoice, order.purchaseOrder, d.line,
                OrEmpty(d.sku), OrEmpty(d.description))
      .(ordered := ToInt(d.ordered), shipped := ToInt(d.shipped), balance := ToInt(d.balance),
        unitPrice := ToFloat(d.price), lineTotal := ToFloat(d.total))
  }

  /** The items built from the extracted items `ds`, in order. */
  function Items(doc: Document, order: ParsedOrder, ds: seq<RawItem>): (r: seq<ParsedLineItem>)
    ensures |r| == |ds|
    decreases |ds|
  {
    if ds == [] then []
    else Items(doc, order, ds[..|ds| - 1]) + [ToLineItem(doc, order, ds[|ds| - 1])]
  }

  /** Item `k` of the result is built from extracted item `k` alone. */
  lemma {:induction false} ItemsAt(doc: Document, order: ParsedOrder, ds: seq<RawItem>, k: nat)
    requires k < |ds|
    ensures Items(doc, order, ds)[k] == ToLineItem(doc, order, ds[k])
    decreases |ds|
  {
    if k < |ds| - 1 {
      ItemsAt(doc, order, ds[..|ds| - 1], k);
    }
  }

  /** One more extracted item appends one more item. */
  lemma ItemsSnoc(doc: Document, order: ParsedOrder, ds: seq<RawItem>, i: nat)
    requires i < |ds|
    ensures Items(doc, order, ds[..i + 1]) == Items(doc, order, ds[..i]) + [ToLineItem(doc, order, ds[i])]
  {
    assert ds[..i + 1][..i] == ds[..i];
  }

  /** `parse_line_items`: the document's order first, then one item per
      extracted item, in the same order. */
  method ParseLineItems(doc: Document, info: OrderInfo, extracted: seq<RawItem>)
    returns (out: seq<ParsedLineItem>)
    ensures out == Items(doc, ParseOrder(doc, info), extracted)
  {
    var order := ParseOrder(doc, info);
    out := BuildItems(doc, order, extracted);
  }

  /** The loop of `parse_line_items`: append the item built from each
      extracted item. */
  method BuildItems(doc: Document, order: ParsedOrder, extracted: seq<RawItem>)
    returns (out: seq<ParsedLineItem>)
    ensures out == Items(doc, order, extracted)
  {
    out := [];
    var i := 0;
    while i < |extracted|
      invariant 0 <= i <= |extracted|
      invariant out == Items(doc, order, extracted[..i])
    {
      ItemsSnoc(doc, order, extracted, i);
      out := out + [ToLineItem(doc, order, extracted[i])];
      i := i + 1;
    }
    assert extracted[..i] == extracted;
  }

  /** Every item of a McMaster receipt names the vendor and the file, and
      carries the order's invoice and purchase order. */
  lemma ItemsCarryOrder(doc: Document, info: OrderInfo, ds: seq<RawItem>, k: nat)
    requires k < |ds|
    ensures Items(doc, ParseOrder(doc, info), ds)[k].vendor == Vendor
    ensures Items(doc, ParseOrder(doc, info), ds)[k].sourceFile == doc.name
    ensures Items(doc, ParseOrder(doc, info), ds)[k].invoice == ParseOrder(doc, info).invoice
    ensures Items(doc, ParseOrder(doc, info), ds)[k].purchaseOrder == info.purchaseOrder
  {
    ItemsAt(doc, ParseOrder(doc, info), ds, k);
  }
}
