/** Numbers written as text: the value of a run of ASCII digits, Python's
    `str(int)`, a restricted `float(str)` (optional sign, digits, optional
    fraction) and `int(float)`, which truncates toward zero. Reals stand
    for Python floats exactly, without binary rounding. */
module Numeric {
  import opened Wrappers
  import opened Text

  predicate AllDigits(s: string) {
    forall k :: 0 <= k < |s| ==> IsDigit(s[k])
  }

  function DigitValue(c: char): nat
    requires IsDigit(c)
  {
    c as int - '0' as int
  }

  function DigitChar(d: nat): (c: char)
    requires d < 10
    ensures IsDigit(c) && DigitValue(c) == d
  {
    ('0' as int + d) as char
  }

  /** The value of a decimal digit string, most significant digit first. */
  function DigitsValue(s: string): nat
    requires AllDigits(s)
    decreases |s|
  {
    if s == [] then 0 else 10 * DigitsValue(s[..|s| - 1]) + DigitValue(s[|s| - 1])
  }

  /** Appending one digit shifts the value by one decimal place. */
  lemma DigitsValueSnoc(s: string, c: char)
    requires AllDigits(s) && IsDigit(c)
    ensures AllDigits(s + [c]) && DigitsValue(s + [c]) == 10 * DigitsValue(s) + DigitValue(c)
  {
    assert (s + [c])[..|s|] == s;
  }

  function Pow10(k: nat): (p: nat)
    ensures p >= 1
  {
    if k == 0 then 1 else 10 * Pow10(k - 1)
  }

  /** `str(n)` for a non-negative integer; reading it back gives `n`. */
  function NatToString(n: nat): (s: string)
    ensures |s| > 0 && AllDigits(s) && DigitsValue(s) == n
  {
    if n < 10 then
      [DigitChar(n)]
    else
      var prefix := NatToString(n / 10);
      DigitsValueSnoc(prefix, DigitChar(n % 10));
      prefix + [DigitChar(n % 10)]
  }

  /** `str(i)` for any integer. */
  function IntToString(i: int): (s: string)
    ensures |s| > 0
    ensures i < 0 <==> s[0] == '-'
  {
    if i < 0 then "-" + NatToString(-i) else NatToString(i)
  }

  /** `float(s)` for the syntax `[+-] digits [. digits]` or `[+-] . digits`
      with no surrounding blanks; anything else is a conversion failure,
      modelled as None. */
  function ParseDecimal(s: string): (r: Option<real>)
    ensures s == [] ==> r.None?
  {
    if s == [] then None
    else if s[0] == '-' then
      match ParseUnsigned(s[1..])
      case None => None
      case Some(v) => Some(-v)
    else if s[0] == '+' then ParseUnsigned(s[1..])
    else ParseUnsigned(s)
  }

  /** The unsigned part of `ParseDecimal`: digits, a point, digits, with at
      least one digit in all. */
  function ParseUnsigned(body: string): (r: Option<real>)
    ensures r.Some? ==> r.value >= 0.0
  {
    var ip := Span(body, IsDigit);
    var whole := DigitsValue(body[..ip]) as real;
    if ip == |body| then
      if ip == 0 then None else Some(whole)
    else if body[ip] != '.' then None
    else
      var frac := body[ip + 1..];
      var fp := Span(frac, IsDigit);
      if fp != |frac| || ip + fp == 0 then None
      else Some(whole + Fraction(frac))
  }

  /** The value of the digits after a decimal point. */
  function Fraction(frac: string): (f: real)
    requires AllDigits(frac)
    ensures 0.0 <= f
  {
    DigitsValue(frac) as real / Pow10(|frac|) as real
  }

  /** Python's `float(s)`, which ignores surrounding whitespace. */
  function PyFloat(s: string): Option<real> {
    ParseDecimal(Strip(s))
  }

  /** `int(x)` for a float `x`: the integer part, rounding toward zero. */
  function Truncate(x: real): (k: int)
    ensures 0.0 <= x ==> k as real <= x < k as real + 1.0
    ensures x < 0.0 ==> k as real - 1.0 < x <= k as real
  {
    if x >= 0.0 then x.Floor else -((-x).Floor)
  }

  /** `str(i)` reads back as the same number. */
  lemma {:induction false} IntToStringRoundTrip(i: int)
    ensures ParseDecimal(IntToString(i)) == Some(i as real)
  {
    var s := IntToString(i);
    var body := if i < 0 then NatToString(-i) else NatToString(i);
    assert s[0] != '+';
    assert i < 0 ==> s[1..] == body;
    assert i >= 0 ==> s == body;
    assert Span(body, IsDigit) == |body|;
    assert body[..|body|] == body;
  }

  /** A digit string of length `k` is worth less than `10^k`. */
  lemma {:induction false} DigitsValueBound(s: string)
    requires AllDigits(s)
    ensures DigitsValue(s) < Pow10(|s|)
    decreases |s|
  {
    if s != [] {
      DigitsValueBound(s[..|s| - 1]);
    }
  }

  /** `float(s)` for an unsigned `s` with one point at `j` and digits on
      both sides of it. */
  lemma ParseDecimalAt(s: string, j: nat)
    requires 0 < j < |s| - 1 && s[j] == '.'
    requires forall k :: 0 <= k < |s| && k != j ==> IsDigit(s[k])
    ensures AllDigits(s[..j]) && AllDigits(s[j + 1..])
    ensures ParseDecimal(s)
            == Some(DigitsValue(s[..j]) as real + Fraction(s[j + 1..]))
  {
    assert Span(s, IsDigit) == j;
    var frac := s[j + 1..];
    assert forall k :: 0 <= k < |frac| ==> IsDigit(frac[k]);
    assert Span(frac, IsDigit) == |frac|;
  }

  /** Where the point and the digits of `x + "." + y` are. */
  lemma FixedShape(s: string, x: string, y: string)
    requires s == x + "." + y && AllDigits(x) && AllDigits(y)
    ensures |s| == |x| + 1 + |y| && s[|x|] == '.'
    ensures s[..|x|] == x && s[|x| + 1..] == y
    ensures forall k :: 0 <= k < |s| && k != |x| ==> IsDigit(s[k])
  {
    forall k | 0 <= k < |s| && k != |x|
      ensures IsDigit(s[k])
    {
      if k < |x| { assert s[k] == x[k]; } else { assert s[k] == y[k - |x| - 1]; }
    }
  }

  /** A smaller non-negative number divided by a larger one is below one. */
  lemma QuotientBelowOne(d: real, p: real)
    requires 0.0 <= d < p
    ensures d / p < 1.0
  {
    var q := d / p;
    assert q * p == d;
    assert (q - 1.0) * p == q * p - p;
  }

  /** The digits after a point are worth less than one. */
  lemma FractionBelowOne(frac: string)
    requires AllDigits(frac)
    ensures Fraction(frac) < 1.0
  {
    DigitsValueBound(frac);
    var d := DigitsValue(frac) as real;
    var p := Pow10(|frac|) as real;
    QuotientBelowOne(d, p);
  }

  /** Truncating a whole number plus a fraction in [0, 1) gives the whole
      number. */
  lemma TruncateOfWholePlus(w: nat, f: real)
    requires 0.0 <= f < 1.0
    ensures Truncate(w as real + f) == w
  {
    var k := Truncate(w as real + f);
    assert k as real <= w as real + f < k as real + 1.0;
    assert k <= w && w <= k;
  }

  /** `float("<digits>.<digits>")` is the whole part plus the fraction. */
  lemma ParseDecimalOfFixed(s: string, x: string, y: string)
    requires |x| > 0 && |y| > 0 && AllDigits(x) && AllDigits(y)
    requires s == x + "." + y
    ensures ParseDecimal(s) == Some(DigitsValue(x) as real + Fraction(y))
  {
    FixedShape(s, x, y);
    ParseDecimalAt(s, |x|);
  }

  /** A leading minus sign negates what the unsigned text reads as. */
  lemma ParseDecimalOfNegated(s: string, t: string)
    requires t != [] && t[0] != '-' && t[0] != '+' && s == "-" + t
    ensures ParseDecimal(s).None? <==> ParseDecimal(t).None?
    ensures ParseDecimal(t).Some? ==> ParseDecimal(t).value >= 0.0
    ensures ParseDecimal(t).Some? ==> ParseDecimal(s) == Some(-ParseDecimal(t).value)
  {
    assert s[0] == '-' && s[1..] == t;
    assert ParseDecimal(t) == ParseUnsigned(t);
  }

  /** `int(float("<digits>.<digits>"))` drops the fraction. */
  lemma TruncateOfFixed(s: string, x: string, y: string)
    requires |x| > 0 && |y| > 0 && AllDigits(x) && AllDigits(y)
    requires s == x + "." + y
    ensures ParseDecimal(s).Some? && Truncate(ParseDecimal(s).value) == DigitsValue(x)
  {
    ParseDecimalOfFixed(s, x, y);
    FractionBelowOne(y);
    TruncateOfWholePlus(DigitsValue(x), Fraction(y));
  }

  /** `int(float("-" + t))` is minus `int(float(t))`: truncation goes
      toward zero. */
  lemma TruncateOfNegatedText(s: string, t: string)
    requires t != [] && IsDigit(t[0]) && s == "-" + t
    ensures ParseDecimal(s).Some? <==> ParseDecimal(t).Some?
    ensures ParseDecimal(t).Some? ==>
              Truncate(ParseDecimal(s).value) == -Truncate(ParseDecimal(t).value)
  {
    ParseDecimalOfNegated(s, t);
    if ParseDecimal(t).Some? {
      TruncateOfNegated(ParseDecimal(t).value);
    }
  }

  /** Truncation toward zero is symmetric about zero. */
  lemma TruncateOfNegated(x: real)
    requires x >= 0.0
    ensures Truncate(-x) == -Truncate(x)
  {
  }

  /** Text that begins with a letter is not a number. */
  lemma ParseDecimalOfWord(s: string)
    requires s != [] && (IsAsciiLower(s[0]) || IsAsciiUpper(s[0]))
    ensures ParseDecimal(s).None?
  {
    assert Span(s, IsDigit) == 0;
  }

  /** `str(n)` has no surrounding blanks. */
  lemma IntToStringStripped(n: int)
    ensures Strip(IntToString(n)) == IntToString(n)
  {
    var s := IntToString(n);
    assert !IsSpace(s[|s| - 1]) by {
      if n < 0 {
        var d := NatToString(-n);
        assert s == "-" + d;
        assert s[|s| - 1] == d[|d| - 1];
      }
    }
    StripIdentity(s);
  }
}
