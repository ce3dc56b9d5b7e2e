/** The Digi-Key receipt grammar (`vendors/digikey.py`): detection on the
    first page, labelled header fields, and the line-by-line item table.
    Amounts always carry exactly two decimals, so money is kept in cents. */
module DigiKey {
  import opened Wrappers
  import opened Text
  import opened Numeric
  import opened Base

  const Vendor := "digikey"
  const Marker := "DIGI-KEY ELECTRONICS"

  type Cents = nat

  // ---------------------------------------------------------------------
  // Detection
  // ---------------------------------------------------------------------

  /** `detect`: the upper-cased first page mentions Digi-Key. Opening the
      document or reading its first page may raise, and `detect` does not
      catch that itself. */
  function Detect(page: FirstPage): Detection {
    match page
    case Unreadable => Raised
    case Page(t) => if Contains(Upper(t.GetOr("")), Marker) then Yes else No
  }

  /** Upper-casing commutes with taking a slice. */
  lemma UpperSlice(s: string, i: nat, j: nat)
    requires i <= j <= |s|
    ensures Upper(s)[i..j] == Upper(s[i..j])
  {
  }

  /** The characters of `t` from position `i` on spell `Marker` in some
      mix of upper and lower case. */
  predicate MarkerAt(t: string, i: int) {
    0 <= i <= |t| - |Marker| && Upper(t[i..i + |Marker|]) == Marker
  }

  /** Detection is a case-insensitive search: it succeeds exactly when some
      window of the page spells the marker in any mix of cases, and it
      raises exactly when the page cannot be read. */
  lemma {:induction false} DetectIgnoresCase(page: FirstPage)
    ensures Detect(page) == Raised <==> page.Unreadable?
    ensures page.Page? ==>
              (Detect(page) == Yes <==>
                 exists i :: MarkerAt(page.text.GetOr(""), i))
  {
    if page.Page? {
      var t := page.text.GetOr("");
      var u := Upper(t);
      if Detect(page) == Yes {
        var i :| 0 <= i <= |u| && StartsWith(u[i..], Marker);
        assert u[i..][..|Marker|] == u[i..i + |Marker|];
        UpperSlice(t, i, i + |Marker|);
        assert MarkerAt(t, i);
      }
      if exists i :: MarkerAt(t, i) {
        var i :| MarkerAt(t, i);
        UpperSlice(t, i, i + |Marker|);
        assert u[i..][..|Marker|] == u[i..i + |Marker|];
        assert StartsWith(u[i..], Marker);
      }
    }
  }

  // ---------------------------------------------------------------------
  // Order-level fields
  // ---------------------------------------------------------------------

  /** The dictionary `parse_order` returns. */
  datatype OrderDict = OrderDict(
    vendor: string,
    invoice: Option<string>,
    purchaseOrder: Option<string>,
    invoiceDate: Option<string>,
    accountNumber: Option<string>,
    paymentDate: Option<string>,
    creditCard: Option<string>,
    merchandise: Option<Cents>,
    shipping: Option<Cents>,
    salesTax: Option<Cents>,
    total: Option<Cents>)

  /** `[0-9\-A-Z]` under `re.I`. */
  predicate IsOrderDateChar(c: char) {
    IsDigit(c) || c == '-' || IsAsciiUpper(c) || IsAsciiLower(c)
  }

  /** The pattern `label\s+(cls+)` (`minSpace` = 1) or `label\s*(cls+)`
      (`minSpace` = 0), under `re.I`, matched at the start of `s`: the
      captured run, stripped. */
  function FieldAt(caption: string, minSpace: nat, cls: char -> bool, s: string): Option<string> {
    if !StartsWithIgnoreCase(s, caption) then None
    else
      var r := s[|caption|..];
      var w := Span(r, IsSpace);
      var v := r[w..];
      var n := Span(v, cls);
      if w < minSpace || n == 0 then None else Some(Strip(v[..n]))
  }

  /** `_find(pattern, text)` for the three labelled patterns used. */
  function Find(caption: string, minSpace: nat, cls: char -> bool, text: string): Option<string> {
    Search(s => FieldAt(caption, minSpace, cls, s), text)
  }

  /** `[0-9]+\.[0-9]{2}` at the start of `v`: the amount in cents. */
  function AmountAt(v: string): Option<Cents> {
    var n := Span(v, IsDigit);
    if n == 0 || n + 3 > |v| || v[n] != '.' || !IsDigit(v[n + 1]) || !IsDigit(v[n + 2]) then None
    else
      var whole, cents := v[..n], v[n + 1..n + 3];
      assert AllDigits(whole) by {
        assert forall k :: 0 <= k < n ==> whole[k] == v[k];
      }
      assert AllDigits(cents) by {
        assert cents[0] == v[n + 1] && cents[1] == v[n + 2];
      }
      Some(DigitsValue(whole) * 100 + DigitsValue(cents))
  }

  /** `label\s*([0-9]+\.[0-9]{2})` under `re.I`, matched at the start of
      `s`: the amount in cents. */
  function MoneyAt(caption: string, s: string): Option<Cents> {
    if !StartsWithIgnoreCase(s, caption) then None
    else
      var r := s[|caption|..];
      AmountAt(r[Span(r, IsSpace)..])
  }

  /** `_money_after(label, text)`: the first amount that follows the label,
      anywhere in the text (unanchored, so "Total" also matches inside
      "Subtotal"). */
  function MoneyAfter(caption: string, text: string): Option<Cents> {
    Search(MoneyMatcher(caption), text)
  }

  /** `MoneyAt` for one label, as the matcher `re.search` tries at every
      position. */
  function MoneyMatcher(caption: string): string -> Option<Cents> {
    s => MoneyAt(caption, s)
  }

  /** `parse_order` on the document's full text. */
  function ParseOrder(text: string): (r: OrderDict)
    ensures r.vendor == Vendor
    ensures r.accountNumber.None? && r.paymentDate.None? && r.creditCard.None?
  {
    OrderDict(
      Vendor,
      Find("PO Acknowledgement", 1, IsDigit, text),
      Find("WEB ORDER ID:", 0, IsDigit, text),
      Find("Order Date:", 0, IsOrderDateChar, text),
      None, None, None,
      MoneyAfter("Sales Amount", text),
      MoneyAfter("Shipping charges applied", text),
      MoneyAfter("Sales Tax", text),
      MoneyAfter("Total", text))
  }

  /** The two decimals of an amount: `n` with a leading zero when below ten. */
  function TwoDigits(n: nat): (r: string)
    requires n < 100
    ensures |r| == 2 && AllDigits(r) && DigitsValue(r) == n
  {
    var r := [DigitChar(n / 10), DigitChar(n % 10)];
    assert r == [r[0]] + [r[1]] && [r[0]][..0] == [];
    DigitsValueSnoc([r[0]], r[1]);
    r
  }

  /** The whole units of an amount in cents, `c / 100`, counted by
      repeated subtraction. */
  function Hundreds(c: Cents): (h: nat)
    ensures 100 * h <= c < 100 * h + 100
  {
    if c < 100 then 0 else 1 + Hundreds(c - 100)
  }

  /** An amount written the way the receipts print it: integer part, a
      point, two decimals. Reading it back gives the same number of cents. */
  function MoneyText(c: Cents): (r: string)
    ensures |r| >= 4 && AllDigits(r[..|r| - 3]) && r[|r| - 3] == '.'
    ensures IsDigit(r[|r| - 2]) && IsDigit(r[|r| - 1])
    ensures DigitsValue(r[..|r| - 3]) * 100 + DigitsValue(r[|r| - 2..]) == c
  {
    var h := Hundreds(c);
    var whole, cents := NatToString(h), TwoDigits(c - 100 * h);
    var r := whole + "." + cents;
    assert r[..|r| - 3] == whole && r[|r| - 2..] == cents;
    r
  }

  /** The two parts of a printed amount: a digit run and two decimals whose
      value is the amount in cents. */
  lemma MoneyTextParts(c: Cents) returns (x: string, y: string)
    ensures MoneyText(c) == x + "." + y && AmountText(x, y)
    ensures DigitsValue(x) * 100 + DigitsValue(y) == c
  {
    var h := Hundreds(c);
    x, y := NatToString(h), TwoDigits(c - 100 * h);
  }

  /** A label, blanks and any amount of the pattern's shape (a digit run, a
      point, two digits) are read back by `MoneyAt`, whatever text follows. */
  lemma {:induction false} MoneyAtOf(caption: string, w: string, x: string, y: string, rest: string)
    requires AllSpace(w) && AmountText(x, y)
    ensures MoneyAt(caption, caption + w + (x + "." + y) + rest) == Some(DigitsValue(x) * 100 + DigitsValue(y))
  {
    var m := x + "." + y;
    var s := caption + w + m + rest;
    assert s[..|caption|] == caption;
    var r := s[|caption|..];
    assert r == w + (m + rest);
    SpanOfPrefix(w, m + rest, IsSpace);
    assert r[|w|..] == m + rest;
    AmountAtOf(x, y, rest);
  }

  /** A label, blanks and a printed amount are read back by `MoneyAt`,
      whatever text follows. */
  lemma MoneyAtRoundTrip(caption: string, w: string, c: Cents, rest: string)
    requires AllSpace(w)
    ensures MoneyAt(caption, caption + w + MoneyText(c) + rest) == Some(c)
  {
    var x, y := MoneyTextParts(c);
    MoneyAtOf(caption, w, x, y, rest);
  }

  /** Any amount of the pattern's shape is read back by `AmountAt`, whatever
      text follows: the digit run stops at the point. */
  lemma AmountAtOf(x: string, y: string, rest: string)
    requires AmountText(x, y)
    ensures AmountAt(x + "." + y + rest) == Some(DigitsValue(x) * 100 + DigitsValue(y))
  {
    var v := x + "." + y + rest;
    AmountShapeAt(x, y, rest, v);
    AmountAtSplit(v, |x|, DigitsValue(x), DigitsValue(y));
  }

  /** Where the parts of "digits . two-digits rest" sit. */
  lemma AmountShapeAt(x: string, y: string, rest: string, v: string)
    requires AmountText(x, y) && v == x + "." + y + rest
    ensures Span(v, IsDigit) == |x| && |x| + 3 <= |v| && v[|x|] == '.'
    ensures IsDigit(v[|x| + 1]) && IsDigit(v[|x| + 2])
    ensures v[..|x|] == x && v[|x| + 1..|x| + 3] == y
  {
    var t := "." + y + rest;
    assert v == x + t;
    assert Span(v, IsDigit) == |x| by {
      SpanOfPrefix(x, t, IsDigit);
    }
    assert v[..|x|] == x && v[|x| + 1..|x| + 3] == y by {
      assert t[1..3] == y;
    }
    assert y[0] == v[|x| + 1] && y[1] == v[|x| + 2];
  }

  /** `AmountAt` where the digit run ends at `n`, followed by a point and
      two digits. */
  lemma AmountAtSplit(v: string, n: nat, a: nat, b: nat)
    requires Span(v, IsDigit) == n && 0 < n && n + 3 <= |v| && v[n] == '.'
    requires IsDigit(v[n + 1]) && IsDigit(v[n + 2])
    requires AllDigits(v[..n]) && AllDigits(v[n + 1..n + 3])
    requires a == DigitsValue(v[..n]) && b == DigitsValue(v[n + 1..n + 3])
    ensures AmountAt(v) == Some(a * 100 + b)
  {
  }

  /** A printed amount is read back by `AmountAt`, whatever text follows. */
  lemma AmountAtRoundTrip(m: string, c: Cents, rest: string)
    requires m == MoneyText(c)
    ensures AmountAt(m + rest) == Some(c)
  {
    var x, y := MoneyTextParts(c);
    AmountAtOf(x, y, rest);
  }

  /** No case-insensitive occurrence of `caption` starts inside `pre`: the
      first one in `pre + caption` is the one appended. */
  predicate LabelFirstAt(pre: string, caption: string) {
    forall j :: 0 <= j < |pre| ==> !StartsWithIgnoreCase((pre + caption)[j..], caption)
  }

  /** An occurrence of the label that starts inside `pre` would lie inside
      `pre + caption`, whatever follows. */
  lemma NoLabelBefore(pre: string, caption: string, x: string, j: nat)
    requires LabelFirstAt(pre, caption) && j < |pre|
    ensures !StartsWithIgnoreCase((pre + caption + x)[j..], caption)
  {
    var s := pre + caption + x;
    assert !StartsWithIgnoreCase((pre + caption)[j..], caption);
    assert s[j..][..|caption|] == (pre + caption)[j..][..|caption|];
  }

  /** `_money_after` finds any amount of the pattern's shape printed after
      the first occurrence of its label, wherever that stands in the text and
      whatever follows. */
  lemma {:induction false} MoneyAfterOf(pre: string, caption: string, w: string, m: string, rest: string,
                                        x: string, y: string)
    requires LabelFirstAt(pre, caption) && AllSpace(w)
    requires m == x + "." + y && AmountText(x, y)
    ensures MoneyAfter(caption, pre + caption + w + m + rest) == Some(DigitsValue(x) * 100 + DigitsValue(y))
  {
    var z := w + m + rest;
    var s := pre + caption + z;
    forall j | 0 <= j < |pre|
      ensures MoneyMatcher(caption)(s[j..]).None?
    {
      NoLabelBefore(pre, caption, z, j);
    }
    assert s[|pre|..] == caption + z;
    MoneyAtOf(caption, w, x, y, rest);
    Regroup(caption, w, m, rest, z);
    SearchAt(MoneyMatcher(caption), s, |pre|);
    Regroup(pre + caption, w, m, rest, z);
  }

  /** `_money_after` finds the amount printed after the first occurrence of
      its label, wherever that stands in the text and whatever follows. */
  lemma {:induction false} MoneyAfterRoundTrip(pre: string, caption: string, w: string, c: Cents, rest: string)
    requires LabelFirstAt(pre, caption) && AllSpace(w)
    ensures MoneyAfter(caption, pre + caption + w + MoneyText(c) + rest) == Some(c)
  {
    var x := w + MoneyText(c) + rest;
    var s := pre + caption + x;
    forall j | 0 <= j < |pre|
      ensures MoneyMatcher(caption)(s[j..]).None?
    {
      NoLabelBefore(pre, caption, x, j);
    }
    assert s[|pre|..] == caption + x;
    MoneyAtRoundTrip(caption, w, c, rest);
    Regroup(caption, w, MoneyText(c), rest, x);
    SearchAt(MoneyMatcher(caption), s, |pre|);
    Regroup(pre + caption, w, MoneyText(c), rest, x);
  }

  /** The label is matched ignoring case: text whose label differs from the
      caption only in case reads the same amount. */
  lemma MoneyAtIgnoresCase(caption: string, written: string, x: string)
    requires |written| == |caption| && Lower(written) == Lower(caption)
    ensures MoneyAt(caption, written + x) == MoneyAt(caption, caption + x)
  {
    assert (written + x)[..|caption|] == written && (caption + x)[..|caption|] == caption;
    assert (written + x)[|caption|..] == x && (caption + x)[|caption|..] == x;
  }

  /** Text whose first character differs from the caption's, ignoring case,
      does not start with the caption. */
  lemma FirstCharRulesOut(s: string, caption: string)
    requires |caption| > 0 && |s| > 0 && ToLowerChar(s[0]) != ToLowerChar(caption[0])
    ensures MoneyAt(caption, s).None?
  {
    if |caption| <= |s| {
      assert Lower(s[..|caption|])[0] != Lower(caption)[0];
    }
  }

  /** Before the "total" inside "Subtotal", no position reads as the
      caption "Total". */
  lemma SubtotalShape(s: string, x: string)
    requires s == "Subtotal" + x
    ensures forall j :: 0 <= j < 3 ==> MoneyMatcher("Total")(s[j..]).None?
    ensures s[3..] == "total" + x
  {
    forall j | 0 <= j < 3
      ensures MoneyMatcher("Total")(s[j..]).None?
    {
      assert s[j..][0] == s[j] && s[j] in "Sub";
      FirstCharRulesOut(s[j..], "Total");
    }
  }

  /** A caption written in another case is still followed by its amount. */
  lemma {:induction false} CaselessRoundTrip(written: string, caption: string, x: string, w: string, c: Cents, rest: string)
    requires |written| == |caption| && Lower(written) == Lower(caption)
    requires AllSpace(w) && x == w + MoneyText(c) + rest
    ensures MoneyAt(caption, written + x) == Some(c)
  {
    MoneyAtIgnoresCase(caption, written, x);
    var m := MoneyText(c);
    MoneyAtRoundTrip(caption, w, c, rest);
    Regroup(caption, w, m, rest, x);
  }

  /** Concatenation regrouped around a known middle. */
  lemma {:induction false} Regroup(a: string, b: string, c: string, d: string, x: string)
    requires x == b + c + d
    ensures a + b + c + d == a + x
  {
  }

  /** "total" and "Total" are the same caption ignoring case. */
  lemma TotalCaseless(written: string, caption: string)
    requires written == "total" && caption == "Total"
    ensures |written| == |caption| && Lower(written) == Lower(caption)
  {
    assert forall k :: 0 <= k < 5 ==> ToLowerChar(written[k]) == ToLowerChar(caption[k]);
  }

  /** `_money_after("Total", ...)` is unanchored and ignores case, so an
      amount printed right after "Subtotal" is read as the total. */
  lemma SubtotalQuirk(s: string, w: string, c: Cents, rest: string)
    requires AllSpace(w) && s == "Subtotal" + (w + MoneyText(c) + rest)
    ensures MoneyAfter("Total", s) == Some(c)
  {
    var x := w + MoneyText(c) + rest;
    SubtotalShape(s, x);
    TotalCaseless("total", "Total");
    CaselessRoundTrip("total", "Total", x, w, c, rest);
    SearchAt(MoneyMatcher("Total"), s, 3);
  }

  /** So the order's total is the subtotal when "Subtotal" comes first. */
  lemma SubtotalReadAsTotal(s: string, w: string, c: Cents, rest: string)
    requires AllSpace(w) && s == "Subtotal" + (w + MoneyText(c) + rest)
    ensures ParseOrder(s).total == Some(c)
  {
    SubtotalQuirk(s, w, c, rest);
  }

  /** A label, enough blanks and a run of field characters are read back by
      `FieldAt` when the run ends where the field characters end. */
  lemma {:induction false} FieldAtRoundTrip(caption: string, minSpace: nat, cls: char -> bool,
                         w: string, v: string, rest: string)
    requires AllSpace(w) && |w| >= minSpace
    requires |v| > 0 && forall k :: 0 <= k < |v| ==> cls(v[k]) && !IsSpace(v[k])
    requires rest == [] || !cls(rest[0])
    ensures FieldAt(caption, minSpace, cls, caption + w + v + rest) == Some(v)
  {
    var s := caption + w + v + rest;
    assert s[..|caption|] == caption;
    var r := s[|caption|..];
    assert r == w + (v + rest);
    SpanOfPrefix(w, v + rest, IsSpace);
    assert r[|w|..] == v + rest;
    SpanOfPrefix(v, rest, cls);
    assert (v + rest)[..|v|] == v;
    StripIdentity(v);
  }

  /** `_find` returns the field after the first occurrence of its label,
      wherever that stands in the text. */
  lemma {:induction false} FindRoundTrip(pre: string, caption: string, minSpace: nat, cls: char -> bool,
                      w: string, v: string, rest: string)
    requires LabelFirstAt(pre, caption)
    requires AllSpace(w) && |w| >= minSpace
    requires |v| > 0 && forall k :: 0 <= k < |v| ==> cls(v[k]) && !IsSpace(v[k])
    requires rest == [] || !cls(rest[0])
    ensures Find(caption, minSpace, cls, pre + caption + w + v + rest) == Some(v)
  {
    var x := w + v + rest;
    var s := pre + caption + x;
    var m := s => FieldAt(caption, minSpace, cls, s);
    forall j | 0 <= j < |pre|
      ensures m(s[j..]).None?
    {
      NoLabelBefore(pre, caption, x, j);
    }
    assert s[|pre|..] == caption + x;
    FieldAtRoundTrip(caption, minSpace, cls, w, v, rest);
    Regroup(caption, w, v, rest, x);
    SearchAt(m, s, |pre|);
    Regroup(pre + caption, w, v, rest, x);
  }

  /** The purchase-order acknowledgement number printed after the first
      "PO Acknowledgement" of the text is what `parse_order` reports as the
      invoice. */
  lemma InvoiceRoundTrip(pre: string, w: string, digits: string, rest: string)
    requires LabelFirstAt(pre, "PO Acknowledgement")
    requires AllSpace(w) && |w| >= 1
    requires |digits| > 0 && AllDigits(digits)
    requires rest == [] || !IsDigit(rest[0])
    ensures ParseOrder(pre + "PO Acknowledgement" + w + digits + rest).invoice == Some(digits)
  {
    FindRoundTrip(pre, "PO Acknowledgement", 1, IsDigit, w, digits, rest);
  }

  /** The web order id printed after the first "WEB ORDER ID:" of the text
      is what `parse_order` reports as the purchase order. */
  lemma PurchaseOrderRoundTrip(pre: string, w: string, digits: string, rest: string)
    requires LabelFirstAt(pre, "WEB ORDER ID:")
    requires AllSpace(w)
    requires |digits| > 0 && AllDigits(digits)
    requires rest == [] || !IsDigit(rest[0])
    ensures ParseOrder(pre + "WEB ORDER ID:" + w + digits + rest).purchaseOrder == Some(digits)
  {
    FindRoundTrip(pre, "WEB ORDER ID:", 0, IsDigit, w, digits, rest);
  }

  /** The sales tax printed after the first "Sales Tax" of a receipt is
      what `parse_order` reports. */
  lemma {:induction false} SalesTaxRoundTrip(s: string, pre: string, w: string, c: Cents, rest: string)
    requires LabelFirstAt(pre, "Sales Tax") && AllSpace(w)
    requires s == pre + "Sales Tax" + w + MoneyText(c) + rest
    ensures ParseOrder(s).salesTax == Some(c)
  {
    MoneyAfterRoundTrip(pre, "Sales Tax", w, c, rest);
  }

  /** The amount printed after the first "Total" of a receipt is what
      `parse_order` reports as the total. */
  lemma {:induction false} TotalRoundTrip(s: string, pre: string, w: string, c: Cents, rest: string)
    requires LabelFirstAt(pre, "Total") && AllSpace(w)
    requires s == pre + "Total" + w + MoneyText(c) + rest
    ensures ParseOrder(s).total == Some(c)
  {
    MoneyAfterRoundTrip(pre, "Total", w, c, rest);
  }

  /** Concatenation regrouped after a known head. */
  lemma {:induction false} RegroupTail<T>(a: seq<T>, b: seq<T>, c: seq<T>, d: seq<T>, e: seq<T>)
    ensures a + b + c + d + e == a + (b + c + d + e)
  {
  }

  /** A receipt that prints its sales tax and, later, its total reports
      both, provided neither label occurs before the place it is printed. */
  lemma {:induction false} TaxAndTotalRoundTrip(pre: string, w1: string, tax: Cents, mid: string,
                             w2: string, total: Cents, rest: string)
    requires LabelFirstAt(pre, "Sales Tax") && AllSpace(w1)
    requires LabelFirstAt(pre + "Sales Tax" + w1 + MoneyText(tax) + mid, "Total") && AllSpace(w2)
    ensures var s := pre + "Sales Tax" + w1 + MoneyText(tax) + mid + "Total" + w2 + MoneyText(total) + rest;
            ParseOrder(s).salesTax == Some(tax) && ParseOrder(s).total == Some(total)
  {
    var head := pre + "Sales Tax" + w1 + MoneyText(tax);
    var s := head + mid + "Total" + w2 + MoneyText(total) + rest;
    RegroupTail(head, mid, "Total", w2 + MoneyText(total), rest);
    assert s == head + (mid + "Total" + (w2 + MoneyText(total)) + rest);
    SalesTaxRoundTrip(s, pre, w1, tax, mid + "Total" + (w2 + MoneyText(total)) + rest);
    TotalRoundTrip(s, head + mid, w2, total, rest);
  }

  /** A field or amount that no position of the text matches is absent,
      not zero or empty. */
  lemma AbsentWhenNoMatch(text: string)
    ensures (forall i :: 0 <= i <= |text| ==> MoneyAt("Sales Tax", text[i..]).None?)
            ==> ParseOrder(text).salesTax.None?
    ensures (forall i :: 0 <= i <= |text| ==> MoneyAt("Total", text[i..]).None?)
            ==> ParseOrder(text).total.None?
    ensures (forall i :: 0 <= i <= |text| ==> FieldAt("PO Acknowledgement", 1, IsDigit, text[i..]).None?)
            ==> ParseOrder(text).invoice.None?
  {
  }

  // ---------------------------------------------------------------------
  // Item-table patterns
  // ---------------------------------------------------------------------

  /** `[A-Z0-9\-]` (PART_RE is case-sensitive). */
  predicate IsSkuChar(c: char) {
    IsAsciiUpper(c) || IsDigit(c) || c == '-'
  }

  /** The four numbers and the SKU captured by PART_RE. */
  datatype PartMatch = PartMatch(line: nat, ordered: nat, shipped: nat, balance: nat, sku: string)

  /** A number column read off the front of a line, and the text after it. */
  datatype Column = Column(number: nat, rest: string)

  /** `(\d+)\s+` at the start of `s`: the number and the text after the blanks. */

  function NumberThenSpace(s: string): Option<Column> {
    var d := Span(s, IsDigit);
    var w := Span(s[d..], IsSpace);
    if d == 0 || w == 0 then None else Some(Column(DigitsValue(s[..d]), s[d + w..]))
  }

  /** `PART_RE.match(s)`, that is
      `^(\d+)\s+(\d+)\s+(\d+)\s+(\d+)\s+PART:\s*([A-Z0-9\-]+)`. */
  function MatchPart(s: string): (r: Option<PartMatch>)
    ensures r.Some? ==> |s| > 0 && IsDigit(s[0])
    ensures r.Some? ==> |r.value.sku| > 0
                        && forall k :: 0 <= k < |r.value.sku| ==> IsSkuChar(r.value.sku[k])
  {
    match NumberThenSpace(s)
    case None => None
    case Some(Column(line, s1)) =>
      match NumberThenSpace(s1)
      case None => None
      case Some(Column(ordered, s2)) =>
        match NumberThenSpace(s2)
        case None => None
        case Some(Column(shipped, s3)) =>
          match NumberThenSpace(s3)
          case None => None
          case Some(Column(balance, s4)) =>
            match SkuAfter(s4)
            case None => None
            case Some(sku) => Some(PartMatch(line, ordered, shipped, balance, sku))
  }

  /** `PART:\s*([A-Z0-9\-]+)` at the start of `s`: the SKU. */
  function SkuAfter(s: string): (r: Option<string>)
    ensures r.Some? ==> |r.value| > 0 && forall k :: 0 <= k < |r.value| ==> IsSkuChar(r.value[k])
  {
    if !StartsWith(s, "PART:") then None
    else
      var s5 := s[5..];
      var s6 := s5[Span(s5, IsSpace)..];
      var k := Span(s6, IsSkuChar);
      if k == 0 then None else Some(s6[..k])
  }

  /** The `PART:` label, blanks and a SKU are read back by `SkuAfter`. */
  lemma SkuAfterRoundTrip(w: string, sku: string, tail: string)
    requires AllSpace(w)
    requires |sku| > 0 && forall k :: 0 <= k < |sku| ==> IsSkuChar(sku[k])
    requires tail == [] || !IsSkuChar(tail[0])
    ensures SkuAfter("PART:" + w + sku + tail) == Some(sku)
  {
    var s := "PART:" + w + sku + tail;
    assert s[..5] == "PART:";
    var s5 := s[5..];
    assert s5 == w + (sku + tail);
    SpanOfPrefix(w, sku + tail, IsSpace);
    assert s5[|w|..] == sku + tail;
    SpanOfPrefix(sku, tail, IsSkuChar);
    assert (sku + tail)[..|sku|] == sku;
  }

  /** A column of the item-start line: a digit run and the blanks after it. */
  predicate NumberColumn(d: string, w: string) {
    |d| > 0 && AllDigits(d) && |w| > 0 && AllSpace(w)
  }

  /** A digit run followed by blanks is consumed by `NumberThenSpace`. */
  lemma NumberThenSpaceRoundTrip(d: string, w: string, rest: string)
    requires NumberColumn(d, w)
    requires rest == [] || !IsSpace(rest[0])
    ensures NumberThenSpace(d + w + rest) == Some(Column(DigitsValue(d), rest))
  {
    var s := d + w + rest;
    assert s == d + (w + rest);
    SpanOfPrefix(d, w + rest, IsDigit);
    assert s[|d|..] == w + rest;
    SpanOfPrefix(w, rest, IsSpace);
    assert s[..|d|] == d;
    assert s[|d| + |w|..] == rest;
  }

  /** A number column starts with a digit, so it does not start with a blank. */
  lemma ColumnStart(d: string, w: string, t: string)
    requires NumberColumn(d, w)
    ensures d + w + t != [] && !IsSpace((d + w + t)[0])
  {
    assert (d + w + t)[0] == d[0];
  }

  /** `MatchPart` succeeds when its four number steps and its SKU step do. */
  lemma {:induction false} MatchPartSteps(s: string, s1: string, s2: string, s3: string, s4: string,
                       n1: nat, n2: nat, n3: nat, n4: nat, sku: string)
    requires NumberThenSpace(s) == Some(Column(n1, s1)) && NumberThenSpace(s1) == Some(Column(n2, s2))
    requires NumberThenSpace(s2) == Some(Column(n3, s3)) && NumberThenSpace(s3) == Some(Column(n4, s4))
    requires SkuAfter(s4) == Some(sku)
    ensures MatchPart(s) == Some(PartMatch(n1, n2, n3, n4, sku))
  {
  }

  /** One column of an item-start line is consumed, and what it leaves
      for the column before it starts with a digit. */
  lemma ColumnStep(d: string, w: string, rest: string)
    requires NumberColumn(d, w)
    requires rest == [] || !IsSpace(rest[0])
    ensures NumberThenSpace(d + w + rest) == Some(Column(DigitsValue(d), rest))
    ensures d + w + rest != [] && !IsSpace((d + w + rest)[0])
  {
    NumberThenSpaceRoundTrip(d, w, rest);
    ColumnStart(d, w, rest);
  }

  /** An item-start line (four numbers, blanks, `PART:`, optional blanks, a
      SKU) is recognised, and the match gives back its numbers and SKU. */
  lemma {:induction false} MatchPartRoundTrip(d1: string, w1: string, d2: string, w2: string,
                           d3: string, w3: string, d4: string, w4: string,
                           w5: string, sku: string, tail: string)
    requires NumberColumn(d1, w1) && NumberColumn(d2, w2)
    requires NumberColumn(d3, w3) && NumberColumn(d4, w4)
    requires AllSpace(w5)
    requires |sku| > 0 && forall k :: 0 <= k < |sku| ==> IsSkuChar(sku[k])
    requires tail == [] || !IsSkuChar(tail[0])
    ensures MatchPart(d1 + w1 + (d2 + w2 + (d3 + w3 + (d4 + w4 + ("PART:" + w5 + sku + tail)))))
            == Some(PartMatch(DigitsValue(d1), DigitsValue(d2), DigitsValue(d3), DigitsValue(d4), sku))
  {
    var s4 := "PART:" + w5 + sku + tail;
    var s3 := d4 + w4 + s4;
    var s2 := d3 + w3 + s3;
    var s1 := d2 + w2 + s2;
    SkuAfterRoundTrip(w5, sku, tail);
    ColumnStep(d4, w4, s4);
    ColumnStep(d3, w3, s3);
    ColumnStep(d2, w2, s2);
    ColumnStep(d1, w1, s1);
    MatchPartSteps(d1 + w1 + s1, s1, s2, s3, s4,
                   DigitsValue(d1), DigitsValue(d2), DigitsValue(d3), DigitsValue(d4), sku);
  }

  /** What `NumberThenSpace` consumed: a digit run, whose value it
      returns, and the blanks after it. */
  lemma NumberThenSpaceSound(s: string) returns (d: string, w: string)
    requires NumberThenSpace(s).Some?
    ensures NumberColumn(d, w) && NumberThenSpace(s).value.number == DigitsValue(d)
    ensures s == d + w + NumberThenSpace(s).value.rest
  {
    var n := Span(s, IsDigit);
    var m := Span(s[n..], IsSpace);
    d, w := s[..n], s[n..][..m];
    assert s == d + w + s[n + m..];
  }

  /** What `SkuAfter` consumed: the label, blanks, and the SKU it returns,
      which runs up to the first character that cannot be part of it. */
  lemma SkuAfterSound(s: string) returns (w: string, tail: string)
    requires SkuAfter(s).Some?
    ensures AllSpace(w) && s == "PART:" + w + SkuAfter(s).value + tail
    ensures tail == [] || !IsSkuChar(tail[0])
  {
    var s6;
    w, s6 := SpanParts(s[5..], IsSpace);
    var sku, t := SpanParts(s6, IsSkuChar);
    assert sku == SkuAfter(s).value;
    tail := t;
    SplitAfterLabel(s, "PART:", w, sku, tail);
  }

  /** A string is its longest `p`-prefix followed by the rest, which does
      not start with a `p` character. */
  lemma SpanParts(t: string, p: char -> bool) returns (a: string, b: string)
    ensures a == t[..Span(t, p)] && b == t[Span(t, p)..] && t == a + b
    ensures forall k :: 0 <= k < |a| ==> p(a[k])
    ensures b == [] || !p(b[0])
  {
    a, b := t[..Span(t, p)], t[Span(t, p)..];
  }

  /** A string that starts with a label is the label and the rest. */
  lemma {:induction false} SplitAfterLabel(s: string, caption: string, w: string, v: string, tail: string)
    requires StartsWith(s, caption) && s[|caption|..] == w + (v + tail)
    ensures s == caption + w + v + tail
  {
    assert s == s[..|caption|] + s[|caption|..];
  }

  /** Every line `MatchPart` accepts has the PART_RE shape: four digit runs
      `ds` each followed by blanks `ws`, "PART:", blanks `w5` and a SKU run
      that ends where SKU characters end; the match holds exactly the four
      values and that SKU. */
  lemma MatchPartSound(s: string) returns (ds: seq<string>, ws: seq<string>, w5: string, tail: string)
    requires MatchPart(s).Some?
    ensures |ds| == 4 && |ws| == 4
    ensures NumberColumn(ds[0], ws[0]) && NumberColumn(ds[1], ws[1])
    ensures NumberColumn(ds[2], ws[2]) && NumberColumn(ds[3], ws[3])
    ensures AllSpace(w5) && (tail == [] || !IsSkuChar(tail[0]))
    ensures var m := MatchPart(s).value;
            s == ds[0] + ws[0] + (ds[1] + ws[1] + (ds[2] + ws[2] + (ds[3] + ws[3] + ("PART:" + w5 + m.sku + tail))))
            && m == PartMatch(DigitsValue(ds[0]), DigitsValue(ds[1]), DigitsValue(ds[2]), DigitsValue(ds[3]), m.sku)
  {
    var s1 := NumberThenSpace(s).value.rest;
    var s2 := NumberThenSpace(s1).value.rest;
    var s3 := NumberThenSpace(s2).value.rest;
    var s4 := NumberThenSpace(s3).value.rest;
    var sku := SkuAfter(s4).value;
    var d1, w1 := NumberThenSpaceSound(s);
    var d2, w2 := NumberThenSpaceSound(s1);
    var d3, w3 := NumberThenSpaceSound(s2);
    var d4, w4 := NumberThenSpaceSound(s3);
    w5, tail := SkuAfterSound(s4);
    MatchPartSteps(s, s1, s2, s3, s4, DigitsValue(d1), DigitsValue(d2), DigitsValue(d3),
                   DigitsValue(d4), sku);
    assert MatchPart(s).value.sku == sku;
    assert s == d1 + w1 + (d2 + w2 + (d3 + w3 + (d4 + w4 + ("PART:" + w5 + sku + tail))));
    ds, ws := [d1, d2, d3, d4], [w1, w2, w3, w4];
    assert ds[0] == d1 && ds[1] == d2 && ds[2] == d3 && ds[3] == d4;
    assert ws[0] == w1 && ws[1] == w2 && ws[2] == w3 && ws[3] == w4;
  }

  /** The two amounts captured by PRICE_RE, and where the match starts. */
  datatype PriceMatch = PriceMatch(price: Cents, total: Cents, start: nat)

  /** An amount found at the end of a text: where its digits start, and
      its value in cents. */
  datatype EndAmount = EndAmount(start: nat, cents: Cents)

  /** `\d+\.\d{2}` ending exactly at the end of `s`, starting as far left as
      the digits allow: its start and its value in cents. */
  function AmountAtEnd(s: string): (r: Option<EndAmount>)
    ensures r.Some? ==> r.value.start < |s|
  {
    var n := |s|;
    if n < 3 || !IsDigit(s[n - 1]) || !IsDigit(s[n - 2]) || s[n - 3] != '.' then None
    else
      var head := s[..n - 3];
      var k := SpanBack(head, IsDigit);
      if k == 0 then None
      else
        var whole, cents := head[|head| - k..], s[n - 2..];
        assert AllDigits(whole) by {
          assert forall i :: 0 <= i < k ==> whole[i] == head[|head| - k + i];
        }
        assert AllDigits(cents) by {
          assert cents[0] == s[n - 2] && cents[1] == s[n - 1];
        }
        Some(EndAmount(|head| - k, DigitsValue(whole) * 100 + DigitsValue(cents)))
  }

  /** `PRICE_RE.search(s)`, that is `(\d+\.\d{2})\s+(\d+\.\d{2})$`. The
      match is anchored at the end, so each part is found from the right;
      the leftmost start is the beginning of the first amount's digit run. */
  function MatchPrice(s: string): (r: Option<PriceMatch>)
    ensures r.Some? ==> r.value.start < |s|
  {
    match AmountAtEnd(s)
    case None => None
    case Some(EndAmount(j2, total)) =>
      var before := s[..j2];
      var w := SpanBack(before, IsSpace);
      if w == 0 then None
      else
        match AmountAtEnd(before[..|before| - w])
        case None => None
        case Some(EndAmount(j1, price)) => Some(PriceMatch(price, total, j1))
  }

  /** `AmountAtEnd` on a string that ends in a digit run `x` starting at
      `j` (and not earlier), a point and two digits `y`. */
  lemma AmountAtEndAt(s: string, j: nat, x: string, y: string)
    requires j < |s| - 3
    requires forall k :: j <= k < |s| - 3 ==> IsDigit(s[k])
    requires s[|s| - 3] == '.' && IsDigit(s[|s| - 2]) && IsDigit(s[|s| - 1])
    requires j == 0 || !IsDigit(s[j - 1])
    requires AllDigits(x) && AllDigits(y) && s[j..|s| - 3] == x && s[|s| - 2..] == y
    ensures AmountAtEnd(s) == Some(EndAmount(j, DigitsValue(x) * 100 + DigitsValue(y)))
  {
    var head := s[..|s| - 3];
    SpanBackOfSuffix(head[..j], head[j..], IsDigit);
    assert head == head[..j] + head[j..];
    assert head[j..] == s[j..|s| - 3];
  }

  /** Where the parts of "a digits . two-digits" sit. */
  lemma AmountShape(s: string, a: string, x: string, y: string)
    requires s == a + x + "." + y
    requires a == [] || !IsDigit(a[|a| - 1])
    requires |x| > 0 && AllDigits(x) && |y| == 2 && AllDigits(y)
    ensures |a| < |s| - 3 && forall k :: |a| <= k < |s| - 3 ==> IsDigit(s[k])
    ensures s[|s| - 3] == '.' && IsDigit(s[|s| - 2]) && IsDigit(s[|s| - 1])
    ensures |a| == 0 || !IsDigit(s[|a| - 1])
    ensures s[|a|..|s| - 3] == x && s[|s| - 2..] == y
  {
  }

  /** `AmountAtEnd` on "a digits . two-digits", where `a` does not end in a
      digit: the amount starts right after `a`. */
  lemma AmountAtEndOf(s: string, a: string, x: string, y: string)
    requires s == a + x + "." + y
    requires a == [] || !IsDigit(a[|a| - 1])
    requires |x| > 0 && AllDigits(x) && |y| == 2 && AllDigits(y)
    ensures AmountAtEnd(s) == Some(EndAmount(|a|, DigitsValue(x) * 100 + DigitsValue(y)))
  {
    AmountShape(s, a, x, y);
    AmountAtEndAt(s, |a|, x, y);
  }

  /** A printed amount at the end of a string is found by `AmountAtEnd`. */
  lemma AmountAtEndRoundTrip(a: string, c: Cents)
    requires a == [] || !IsDigit(a[|a| - 1])
    ensures AmountAtEnd(a + MoneyText(c)) == Some(EndAmount(|a|, c))
  {
    var h := Hundreds(c);
    var x, y := NatToString(h), TwoDigits(c - 100 * h);
    assert MoneyText(c) == x + "." + y;
    AmountAtEndOf(a + MoneyText(c), a, x, y);
  }

  /** `MatchPrice` on "a blanks m" succeeds when the total is found at the
      end, the blanks before it are the ones `w` holds, and the price is
      found at the end of `a`. */
  lemma {:induction false} MatchPriceSteps(a: string, w: string, m: string, j1: nat, p: Cents, t: Cents)
    requires AmountAtEnd(a + w + m) == Some(EndAmount(|a| + |w|, t))
    requires |w| > 0 && SpanBack(a + w, IsSpace) == |w|
    requires AmountAtEnd(a) == Some(EndAmount(j1, p))
    ensures MatchPrice(a + w + m) == Some(PriceMatch(p, t, j1))
  {
    assert (a + w + m)[..|a| + |w|] == a + w;
    assert (a + w)[..|a|] == a;
  }

  /** The total at the end of "text blanks total" is split off. */
  lemma TotalAtEnd(a: string, w: string, t: Cents)
    requires |w| > 0 && AllSpace(w)
    ensures AmountAtEnd(a + w + MoneyText(t)) == Some(EndAmount(|a| + |w|, t))
  {
    assert (a + w)[|a| + |w| - 1] == w[|w| - 1];
    AmountAtEndRoundTrip(a + w, t);
  }

  /** An amount of the pattern's shape after blanks is found at the end. */
  lemma AmountAfterBlanks(a: string, w: string, x: string, y: string, m: string)
    requires AmountText(x, y) && |w| > 0 && AllSpace(w) && m == x + "." + y
    ensures AmountAtEnd(a + w + m) == Some(EndAmount(|a| + |w|, DigitsValue(x) * 100 + DigitsValue(y)))
  {
    assert (a + w)[|a| + |w| - 1] == w[|w| - 1];
    assert a + w + m == a + w + x + "." + y;
    AmountAtEndOf(a + w + m, a + w, x, y);
  }

  /** The blanks after an amount are exactly the trailing blanks. */
  lemma BlanksAfterAmount(a: string, w: string, x: string, y: string, head: string)
    requires AmountText(x, y) && AllSpace(w) && a == head + x + "." + y
    ensures SpanBack(a + w, IsSpace) == |w|
  {
    assert a[|a| - 1] == y[1];
    SpanBackOfSuffix(a, w, IsSpace);
  }

  /** Text ending in "price blanks total", where both amounts have the
      pattern's shape (any digit run, leading zeros included), has both
      amounts split off, and the match starts where the price starts. */
  lemma {:induction false} MatchPriceOf(head: string, x1: string, y1: string, w: string,
                                        x2: string, y2: string, a: string, m: string)
    requires AmountText(x1, y1) && AmountText(x2, y2) && |w| > 0 && AllSpace(w)
    requires head == [] || !IsDigit(head[|head| - 1])
    requires a == head + x1 + "." + y1 && m == x2 + "." + y2
    ensures MatchPrice(a + w + m)
            == Some(PriceMatch(DigitsValue(x1) * 100 + DigitsValue(y1), DigitsValue(x2) * 100 + DigitsValue(y2), |head|))
  {
    AmountAfterBlanks(a, w, x2, y2, m);
    BlanksAfterAmount(a, w, x1, y1, head);
    AmountAtEndOf(a, head, x1, y1);
    MatchPriceSteps(a, w, m, |head|, DigitsValue(x1) * 100 + DigitsValue(y1), DigitsValue(x2) * 100 + DigitsValue(y2));
  }

  /** Text ending in "price blanks total" has both amounts split off, and the
      match starts where the price starts. */
  lemma MatchPriceRoundTrip(head: string, p: Cents, w: string, t: Cents)
    requires |w| > 0 && AllSpace(w)
    requires head == [] || !IsDigit(head[|head| - 1])
    ensures MatchPrice(head + MoneyText(p) + w + MoneyText(t)) == Some(PriceMatch(p, t, |head|))
  {
    var a := head + MoneyText(p);
    assert a[|a| - 1] == MoneyText(p)[|MoneyText(p)| - 1];
    TotalAtEnd(a, w, t);
    SpanBackOfSuffix(a, w, IsSpace);
    AmountAtEndRoundTrip(head, p);
    MatchPriceSteps(a, w, MoneyText(t), |head|, p, t);
  }

  /** A printed amount: a non-empty digit run and exactly two decimals. */
  predicate AmountText(x: string, y: string) {
    |x| > 0 && AllDigits(x) && |y| == 2 && AllDigits(y)
  }

  /** What `AmountAtEnd` found: the text from its start on is a digit run,
      a point and two digits, the run cannot be extended to the left, and
      the value is that amount in cents. */
  lemma AmountAtEndSound(s: string) returns (x: string, y: string)
    requires AmountAtEnd(s).Some?
    ensures var EndAmount(j, c) := AmountAtEnd(s).value;
            AmountText(x, y) && s[j..] == x + "." + y && c == DigitsValue(x) * 100 + DigitsValue(y)
            && (j == 0 || !IsDigit(s[j - 1]))
  {
    var n := |s|;
    var head := s[..n - 3];
    var j := AmountAtEnd(s).value.start;
    x, y := head[j..], s[n - 2..];
    assert s[j..] == x + s[n - 3..] && s[n - 3..] == "." + y;
    assert j > 0 ==> s[j - 1] == head[j - 1];
  }

  /** Every match `MatchPrice` reports is PRICE_RE's: from its start on the
      text is an amount, blanks and an amount running to the end; the first
      digit run cannot be extended to the left; and price and total are the
      two amounts in cents. */
  lemma MatchPriceSound(s: string) returns (x1: string, y1: string, w: string, x2: string, y2: string)
    requires MatchPrice(s).Some?
    ensures var pm := MatchPrice(s).value;
            pm.start < |s| && s[pm.start..] == x1 + "." + y1 + w + (x2 + "." + y2)
            && (pm.start == 0 || !IsDigit(s[pm.start - 1]))
    ensures AmountText(x1, y1) && AmountText(x2, y2) && |w| > 0 && AllSpace(w)
    ensures MatchPrice(s).value.price == DigitsValue(x1) * 100 + DigitsValue(y1)
    ensures MatchPrice(s).value.total == DigitsValue(x2) * 100 + DigitsValue(y2)
  {
    var k := MatchPriceParts(s);
    var b := s[..k];
    var e1, e2 := AmountAtEnd(b).value, AmountAtEnd(s).value;
    var i := e1.start;
    assert MatchPrice(s).value == PriceMatch(e1.cents, e2.cents, i);
    x2, y2 := AmountAtEndSound(s);
    x1, y1 := AmountAtEndSound(b);
    assert i == 0 || !IsDigit(s[i - 1]) by {
      assert i > 0 ==> s[i - 1] == b[i - 1];
    }
    w := s[k..e2.start];
    SliceThree(s, i, k, e2.start);
    JoinParts(s[i..], b[i..], w, s[e2.start..], x1 + "." + y1, x2 + "." + y2);
  }

  /** Where `MatchPrice` cut the text: the total starts at `j2`, the blanks
      before it start at `k`, and the price is found at the end of `s[..k]`. */
  lemma MatchPriceParts(s: string) returns (k: nat)
    requires MatchPrice(s).Some?
    ensures var j2 := AmountAtEnd(s).value.start;
            k < j2 && AllSpace(s[k..j2]) && AmountAtEnd(s[..k]).Some?
            && MatchPrice(s).value
               == PriceMatch(AmountAtEnd(s[..k]).value.cents, AmountAtEnd(s).value.cents, AmountAtEnd(s[..k]).value.start)
  {
    var j2 := AmountAtEnd(s).value.start;
    k := j2 - SpanBack(s[..j2], IsSpace);
    assert s[..j2][..k] == s[..k];
    assert forall i :: k <= i < j2 ==> s[i] == s[..j2][i];
  }

  /** Three pieces, the outer two known. */
  lemma {:induction false} JoinParts(t: string, a: string, w: string, c: string, a': string, c': string)
    requires t == a + w + c && a == a' && c == c'
    ensures t == a' + w + c'
  {
  }

  /** The text from `i` on, cut at `k` and `j`. */
  lemma SliceThree(s: string, i: nat, k: nat, j: nat)
    requires i <= k <= j <= |s|
    ensures s[i..] == s[..k][i..] + s[k..j] + s[j..]
  {
  }

  // ---------------------------------------------------------------------
  // Line items
  // ---------------------------------------------------------------------

  /** One entry of the list `parse_line_items` returns. */
  datatype LineItem = LineItem(
    line: nat,
    ordered: nat,
    shipped: nat,
    balance: nat,
    sku: string,
    description: string,
    price: Option<Cents>,
    total: Option<Cents>)

  /** The item an item-start line opens: numbers and SKU from the match, an
      empty description and no amounts yet. */
  function OpenItem(m: PartMatch): LineItem {
    LineItem(m.line, m.ordered, m.shipped, m.balance, m.sku, "", None, None)
  }

  /** The effect of a `DESC:` line on the open item. */
  function ApplyDesc(item: LineItem, ln: string): (r: LineItem)
    ensures r.line == item.line && r.ordered == item.ordered && r.shipped == item.shipped
    ensures r.balance == item.balance && r.sku == item.sku
    ensures MatchPrice(Strip(RemoveAll(ln, "DESC:"))).None? ==>
              r.price == item.price && r.total == item.total
  {
    var desc := Strip(RemoveAll(ln, "DESC:"));
    match MatchPrice(desc)
    case Some(pm) =>
      item.(description := Strip(desc[..pm.start]), price := Some(pm.price), total := Some(pm.total))
    case None =>
      item.(description := desc)
  }

  /** The text of a `DESC:` line: the label removed and the blanks around
      the rest stripped. */
  lemma DescriptionText(w0: string, x: string)
    requires AllSpace(w0)
    requires x != [] && !IsSpace(x[0]) && !IsSpace(x[|x| - 1])
    requires !Contains(w0 + x, "DESC:")
    ensures Strip(RemoveAll("DESC:" + w0 + x, "DESC:")) == x
  {
    var ln := "DESC:" + w0 + x;
    assert ln[..5] == "DESC:" && ln[5..] == w0 + x;
    RemoveAllAbsent(w0 + x, "DESC:");
    StripSurrounded(w0, x, []);
    assert w0 + x + [] == w0 + x;
  }

  /** The ends of "head price blanks total". */
  lemma PriceLineEnds(head: string, p: Cents, w: string, t: Cents)
    requires head == [] || !IsSpace(head[0])
    ensures var x := head + MoneyText(p) + w + MoneyText(t);
            x != [] && !IsSpace(x[0]) && !IsSpace(x[|x| - 1]) && x[..|head|] == head
  {
    var mp, mt := MoneyText(p), MoneyText(t);
    var x := head + mp + w + mt;
    assert x == head + (mp + w + mt);
    assert head == [] ==> x[0] == mp[0];
    assert mp[..|mp| - 3][0] == mp[0];
    assert x[|x| - 1] == mt[|mt| - 1];
  }

  /** `ApplyDesc` once the description and its price match are known. */
  lemma ApplyDescSteps(item: LineItem, ln: string, x: string, pm: PriceMatch)
    requires Strip(RemoveAll(ln, "DESC:")) == x && MatchPrice(x) == Some(pm)
    ensures ApplyDesc(item, ln)
            == item.(description := Strip(x[..pm.start]), price := Some(pm.price), total := Some(pm.total))
  {
  }

  /** A description line ending in "price total" sets the description to
      the text before the amounts and both amounts to the printed values. */
  lemma {:induction false} ApplyDescRoundTrip(item: LineItem, w0: string, head: string,
                           p: Cents, w: string, t: Cents)
    requires AllSpace(w0) && |w| > 0 && AllSpace(w)
    requires head == [] || (!IsSpace(head[0]) && !IsDigit(head[|head| - 1]))
    requires !Contains(w0 + (head + MoneyText(p) + w + MoneyText(t)), "DESC:")
    ensures ApplyDesc(item, "DESC:" + w0 + (head + MoneyText(p) + w + MoneyText(t)))
            == item.(description := Strip(head), price := Some(p), total := Some(t))
  {
    var x := head + MoneyText(p) + w + MoneyText(t);
    PriceLineEnds(head, p, w, t);
    DescriptionText(w0, x);
    MatchPriceRoundTrip(head, p, w, t);
    ApplyDescSteps(item, "DESC:" + w0 + x, x, PriceMatch(p, t, |head|));
  }

  /** Text that does not end in a digit holds no price pair. */
  lemma NoPriceWithoutFinalDigit(x: string)
    requires x == [] || !IsDigit(x[|x| - 1])
    ensures MatchPrice(x).None?
  {
  }

  /** A description line whose text holds no price pair (for one, text
      that does not end in a digit: `NoPriceWithoutFinalDigit`) sets the
      description to the line without its label and blanks, and leaves
      everything else of the item as it was. */
  lemma ApplyDescWithoutPrice(item: LineItem, w0: string, x: string)
    requires AllSpace(w0)
    requires x != [] && !IsSpace(x[0]) && !IsSpace(x[|x| - 1]) && MatchPrice(x).None?
    requires !Contains(w0 + x, "DESC:")
    ensures ApplyDesc(item, "DESC:" + w0 + x) == item.(description := x)
  {
    DescriptionText(w0, x);
  }

  /** `Sales Amount` or `Total` at the start of a stripped line. */
  predicate IsTerminator(ln: string) {
    StartsWith(ln, "Sales Amount") || StartsWith(ln, "Total")
  }

  /** Append the open item, if there is one. */
  function Flush(items: seq<LineItem>, current: Option<LineItem>): seq<LineItem> {
    if current.Some? then items + [current.value] else items
  }

  /** The result of `parse_line_items` once `items` have been emitted and
      `current` is open, with `lines` still to read. */
  function Scan(items: seq<LineItem>, current: Option<LineItem>, lines: seq<string>): seq<LineItem>
    decreases |lines|
  {
    if lines == [] then Flush(items, current)
    else
      var ln := Strip(lines[0]);
      match MatchPart(ln)
      case Some(m) => Scan(Flush(items, current), Some(OpenItem(m)), lines[1..])
      case None =>
        if current.None? then Scan(items, current, lines[1..])
        else if StartsWith(ln, "DESC:") then Scan(items, Some(ApplyDesc(current.value, ln)), lines[1..])
        else if IsTerminator(ln) then Flush(items, current)
        else Scan(items, current, lines[1..])
  }

  /** `parse_line_items` on the document's lines, as a function. */
  function LineItems(lines: seq<string>): seq<LineItem> {
    Scan([], None, lines)
  }

  /** `parse_line_items`: a loop over the lines that keeps the open item in
      `current`, appends it to `items` when the next item starts, stops at
      the totals section and flushes the open item at the end. */
  method ParseLineItems(lines: seq<string>) returns (items: seq<LineItem>)
    ensures items == LineItems(lines)
  {
    items := [];
    var current: Option<LineItem> := None;
    var i := 0;
    while i < |lines|
      invariant 0 <= i <= |lines|
      invariant Scan(items, current, lines[i..]) == LineItems(lines)
    {
      var ln := Strip(lines[i]);
      assert lines[i..][0] == lines[i] && lines[i..][1..] == lines[i + 1..];
      var m := MatchPart(ln);
      if m.Some? {
        if current.Some? {
          items := items + [current.value];
        }
        current := Some(OpenItem(m.value));
      } else if current.None? {
      } else if StartsWith(ln, "DESC:") {
        current := Some(ApplyDesc(current.value, ln));
      } else if IsTerminator(ln) {
        break;
      }
      i := i + 1;
    }
    if current.Some? {
      items := items + [current.value];
    }
  }

  // ---------------------------------------------------------------------
  // What the item table yields
  // ---------------------------------------------------------------------

  /** The part of an item that its start line fixes. */
  function Header(it: LineItem): PartMatch {
    PartMatch(it.line, it.ordered, it.shipped, it.balance, it.sku)
  }

  /** The headers of a list of items, in order. */
  function Headers(items: seq<LineItem>): (r: seq<PartMatch>)
    ensures |r| == |items|
    decreases |items|
  {
    if items == [] then [] else [Header(items[0])] + Headers(items[1..])
  }

  /** `Headers` distributes over concatenation. */
  lemma {:induction false} HeadersAppend(a: seq<LineItem>, b: seq<LineItem>)
    ensures Headers(a + b) == Headers(a) + Headers(b)
    decreases |a|
  {
    if a != [] {
      assert (a + b)[1..] == a[1..] + b;
      HeadersAppend(a[1..], b);
    } else {
      assert a + b == b;
    }
  }

  predicate IsItemStart(l: string) {
    MatchPart(Strip(l)).Some?
  }

  predicate IsStop(l: string) {
    IsTerminator(Strip(l))
  }

  /** The matches of the item-start lines among `lines`, in order. */
  function StartHeaders(lines: seq<string>): seq<PartMatch>
    decreases |lines|
  {
    if lines == [] then []
    else
      (if IsItemStart(lines[0]) then [MatchPart(Strip(lines[0])).value] else [])
      + StartHeaders(lines[1..])
  }

  /** Line `j` ends the table: it is a terminator line and an item is open
      by then (one was open at the start, or an item-start line precedes). */
  predicate StopsAt(lines: seq<string>, j: int, open: bool) {
    0 <= j < |lines| && IsStop(lines[j])
    && (open || exists i {:trigger IsItemStart(lines[i])} :: 0 <= i < j && IsItemStart(lines[i]))
  }

  /** Flushing appends the header of the open item, if any. */
  lemma HeadersFlush(items: seq<LineItem>, current: Option<LineItem>)
    ensures Headers(Flush(items, current)) == Headers(items) + Headers(Flush([], current))
  {
    if current.Some? {
      HeadersAppend(items, [current.value]);
      assert Flush([], current) == [current.value];
    }
  }

  /** The item-start headers of a prefix, one line at a time. */
  lemma StartHeadersCons(lines: seq<string>, k: nat)
    requires 0 < k <= |lines|
    ensures IsItemStart(lines[0]) ==>
              StartHeaders(lines[..k])
              == [MatchPart(Strip(lines[0])).value] + StartHeaders(lines[1..][..k - 1])
    ensures !IsItemStart(lines[0]) ==>
              StartHeaders(lines[..k]) == StartHeaders(lines[1..][..k - 1])
  {
    assert lines[..k][1..] == lines[1..][..k - 1];
    var tail := StartHeaders(lines[1..][..k - 1]);
    assert [] + tail == tail;
  }

  /** Dropping the first line keeps `k - 1` the first line that ends the
      table, an item being open once the first line has started one. */
  lemma StopsShift(lines: seq<string>, k: nat, open: bool, open': bool)
    requires 0 < k <= |lines|
    requires k == |lines| || StopsAt(lines, k, open)
    requires forall j :: 0 <= j < k ==> !StopsAt(lines, j, open)
    requires open' == (open || IsItemStart(lines[0]))
    ensures k - 1 == |lines[1..]| || StopsAt(lines[1..], k - 1, open')
    ensures forall j :: 0 <= j < k - 1 ==> !StopsAt(lines[1..], j, open')
  {
    var rest := lines[1..];
    if k < |lines| && !open {
      var i :| 0 <= i < k && IsItemStart(lines[i]);
      if i > 0 {
        assert IsItemStart(rest[i - 1]);
      }
    }
    forall j | 0 <= j < k - 1
      ensures !StopsAt(rest, j, open')
    {
      assert !StopsAt(lines, j + 1, open);
    }
  }

  /** One step of `Scan` on an item-start line. */
  lemma ScanOnStart(items: seq<LineItem>, current: Option<LineItem>, lines: seq<string>, m: PartMatch)
    requires lines != [] && MatchPart(Strip(lines[0])) == Some(m)
    ensures Scan(items, current, lines) == Scan(Flush(items, current), Some(OpenItem(m)), lines[1..])
  {
  }

  /** One step of `Scan` on a description line while an item is open. */
  lemma ScanOnDesc(items: seq<LineItem>, item: LineItem, lines: seq<string>)
    requires lines != [] && MatchPart(Strip(lines[0])).None?
    requires StartsWith(Strip(lines[0]), "DESC:")
    ensures Scan(items, Some(item), lines)
            == Scan(items, Some(ApplyDesc(item, Strip(lines[0]))), lines[1..])
  {
  }

  /** One step of `Scan` on a line that is skipped: no item is open, or the
      line is neither a description nor a terminator. */
  lemma ScanOnSkip(items: seq<LineItem>, current: Option<LineItem>, lines: seq<string>)
    requires lines != [] && MatchPart(Strip(lines[0])).None?
    requires current.Some? ==> !StartsWith(Strip(lines[0]), "DESC:") && !IsTerminator(Strip(lines[0]))
    ensures Scan(items, current, lines) == Scan(items, current, lines[1..])
  {
  }

  /** `Scan` stops at a terminator line while an item is open. */
  lemma ScanOnStop(items: seq<LineItem>, item: LineItem, lines: seq<string>)
    requires lines != [] && IsStop(lines[0])
    ensures Scan(items, Some(item), lines) == Flush(items, Some(item))
  {
    var ln := Strip(lines[0]);
    assert ln[0] == 'S' || ln[0] == 'T';
    assert MatchPart(ln).None?;
    assert !StartsWith(ln, "DESC:");
  }

  /** Concatenation is associative. */
  lemma AppendAssoc<T>(a: seq<T>, b: seq<T>, c: seq<T>)
    ensures (a + b) + c == a + (b + c)
  {
  }

  /** A freshly opened item has the header of its start line. */
  lemma HeaderOfOpened(m: PartMatch)
    ensures Headers(Flush([], Some(OpenItem(m)))) == [m]
  {
    assert Flush([], Some(OpenItem(m))) == [OpenItem(m)];
    assert [OpenItem(m)][1..] == [];
  }

  /** A description line leaves the open item's header as it was. */
  lemma HeaderAfterDesc(item: LineItem, ln: string)
    ensures Headers(Flush([], Some(ApplyDesc(item, ln)))) == Headers(Flush([], Some(item)))
  {
    var r := ApplyDesc(item, ln);
    assert Header(r) == Header(item);
  }

  /** The scan from any state emits the items already emitted, then the
      open item, then one item per item-start line before the first line
      that ends the table; description lines never change an item's
      numbers or SKU. */
  lemma {:induction false} ScanHeaders(items: seq<LineItem>, current: Option<LineItem>,
                                       lines: seq<string>, k: nat)
    requires k <= |lines|
    requires k == |lines| || StopsAt(lines, k, current.Some?)
    requires forall j :: 0 <= j < k ==> !StopsAt(lines, j, current.Some?)
    ensures Headers(Scan(items, current, lines))
            == Headers(items) + (Headers(Flush([], current)) + StartHeaders(lines[..k]))
    decreases |lines|, 1
  {
    if lines == [] || k == 0 {
      ScanHeadersStop(items, current, lines, k);
    } else {
      match MatchPart(Strip(lines[0]))
      case Some(m) =>
        ScanHeadersStart(items, current, lines, k, m);
      case None =>
        if current.None? {
          ScanHeadersIdle(items, current, lines, k);
        } else if StartsWith(Strip(lines[0]), "DESC:") {
          ScanHeadersDesc(items, current, lines, k);
        } else {
          ScanHeadersSkip(items, current, lines, k);
        }
    }
  }

  /** `ScanHeaders` where the scan stops at once. */
  lemma ScanHeadersStop(items: seq<LineItem>, current: Option<LineItem>, lines: seq<string>, k: nat)
    requires k <= |lines| && (lines == [] || k == 0)
    requires k == |lines| || StopsAt(lines, k, current.Some?)
    ensures Headers(Scan(items, current, lines))
            == Headers(items) + (Headers(Flush([], current)) + StartHeaders(lines[..k]))
  {
    if lines != [] {
      assert StopsAt(lines, 0, current.Some?);
      ScanOnStop(items, current.value, lines);
    }
    HeadersFlush(items, current);
    assert StartHeaders(lines[..k]) == [];
    assert Headers(Flush([], current)) + [] == Headers(Flush([], current));
  }

  /** `ScanHeaders` when the first line starts an item. */
  lemma {:induction false} ScanHeadersStart(items: seq<LineItem>, current: Option<LineItem>,
                                            lines: seq<string>, k: nat, m: PartMatch)
    requires 0 < k <= |lines|
    requires k == |lines| || StopsAt(lines, k, current.Some?)
    requires forall j :: 0 <= j < k ==> !StopsAt(lines, j, current.Some?)
    requires MatchPart(Strip(lines[0])) == Some(m)
    ensures Headers(Scan(items, current, lines))
            == Headers(items) + (Headers(Flush([], current)) + StartHeaders(lines[..k]))
    decreases |lines|, 0
  {
    StopsShift(lines, k, current.Some?, true);
    ScanHeaders(Flush(items, current), Some(OpenItem(m)), lines[1..], k - 1);
    StartHeadersCons(lines, k);
    calc {
      Headers(Scan(items, current, lines));
      { ScanOnStart(items, current, lines, m); }
      Headers(Scan(Flush(items, current), Some(OpenItem(m)), lines[1..]));
      Headers(Flush(items, current))
        + (Headers(Flush([], Some(OpenItem(m)))) + StartHeaders(lines[1..][..k - 1]));
      { HeaderOfOpened(m); }
      Headers(Flush(items, current)) + StartHeaders(lines[..k]);
      { HeadersFlush(items, current); }
      (Headers(items) + Headers(Flush([], current))) + StartHeaders(lines[..k]);
      { AppendAssoc(Headers(items), Headers(Flush([], current)), StartHeaders(lines[..k])); }
      Headers(items) + (Headers(Flush([], current)) + StartHeaders(lines[..k]));
    }
  }

  /** `ScanHeaders` when the first line describes the open item. */
  lemma {:induction false} ScanHeadersDesc(items: seq<LineItem>, current: Option<LineItem>,
                                           lines: seq<string>, k: nat)
    requires 0 < k <= |lines|
    requires k == |lines| || StopsAt(lines, k, current.Some?)
    requires forall j :: 0 <= j < k ==> !StopsAt(lines, j, current.Some?)
    requires MatchPart(Strip(lines[0])).None?
    requires current.Some? && StartsWith(Strip(lines[0]), "DESC:")
    ensures Headers(Scan(items, current, lines))
            == Headers(items) + (Headers(Flush([], current)) + StartHeaders(lines[..k]))
    decreases |lines|, 0
  {
    var item := current.value;
    var ln := Strip(lines[0]);
    StopsShift(lines, k, current.Some?, current.Some?);
    ScanHeaders(items, Some(ApplyDesc(item, ln)), lines[1..], k - 1);
    StartHeadersCons(lines, k);
    assert !IsItemStart(lines[0]);
    assert StartHeaders(lines[..k]) == StartHeaders(lines[1..][..k - 1]);
    ScanOnDesc(items, item, lines);
    HeaderAfterDesc(item, ln);
  }

  /** `ScanHeaders` when no item is open and the first line starts none. */
  lemma {:induction false} ScanHeadersIdle(items: seq<LineItem>, current: Option<LineItem>,
                                           lines: seq<string>, k: nat)
    requires 0 < k <= |lines|
    requires k == |lines| || StopsAt(lines, k, current.Some?)
    requires forall j :: 0 <= j < k ==> !StopsAt(lines, j, current.Some?)
    requires MatchPart(Strip(lines[0])).None?
    requires current == None
    ensures Headers(Scan(items, current, lines))
            == Headers(items) + (Headers(Flush([], current)) + StartHeaders(lines[..k]))
    decreases |lines|, 0
  {
    IdleStep(items, lines, k);
    StopsShift(lines, k, false, false);
    ScanHeaders(items, None, lines[1..], k - 1);
  }

  /** With no item open, a line that starts none changes neither the scan
      nor the item starts. */
  lemma IdleStep(items: seq<LineItem>, lines: seq<string>, k: nat)
    requires 0 < k <= |lines| && MatchPart(Strip(lines[0])).None?
    ensures Scan(items, None, lines) == Scan(items, None, lines[1..])
    ensures StartHeaders(lines[..k]) == StartHeaders(lines[1..][..k - 1])
  {
    StartHeadersCons(lines, k);
    assert !IsItemStart(lines[0]);
  }

  /** `ScanHeaders` when the first line neither describes nor ends the open
      item. */
  lemma {:induction false} ScanHeadersSkip(items: seq<LineItem>, current: Option<LineItem>,
                                           lines: seq<string>, k: nat)
    requires 0 < k <= |lines|
    requires k == |lines| || StopsAt(lines, k, current.Some?)
    requires forall j :: 0 <= j < k ==> !StopsAt(lines, j, current.Some?)
    requires MatchPart(Strip(lines[0])).None?
    requires current.Some? && !StartsWith(Strip(lines[0]), "DESC:")
    ensures Headers(Scan(items, current, lines))
            == Headers(items) + (Headers(Flush([], current)) + StartHeaders(lines[..k]))
    decreases |lines|, 0
  {
    assert !StopsAt(lines, 0, true);
    StopsShift(lines, k, true, true);
    ScanHeaders(items, current, lines[1..], k - 1);
    StartHeadersCons(lines, k);
    assert !IsItemStart(lines[0]);
    ScanOnSkip(items, current, lines);
  }

  /** The items of a receipt correspond one to one, in order, to the
      item-start lines before the first effective terminator (a terminator
      line before any item has started is skipped); each takes its line,
      quantities and SKU from its start line. */
  lemma LineItemsFollowStarts(lines: seq<string>, k: nat)
    requires k <= |lines|
    requires k == |lines| || StopsAt(lines, k, false)
    requires forall j :: 0 <= j < k ==> !StopsAt(lines, j, false)
    ensures Headers(LineItems(lines)) == StartHeaders(lines[..k])
    ensures |LineItems(lines)| == |StartHeaders(lines[..k])|
  {
    ScanHeaders([], None, lines, k);
    assert Headers([]) == [];
  }

  /** Without a terminator line the open item is still flushed at the end:
      one item per item-start line. */
  lemma AllItemsFlushed(lines: seq<string>)
    requires forall j :: 0 <= j < |lines| ==> !IsStop(lines[j])
    ensures Headers(LineItems(lines)) == StartHeaders(lines)
  {
    LineItemsFollowStarts(lines, |lines|);
    assert lines[..|lines|] == lines;
  }
}
