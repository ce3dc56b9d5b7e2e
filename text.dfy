/** The pieces of Python's string handling that the receipt parsers rely on:
    `str.isspace`, `strip`, `startswith`, `in`, `replace(pat, "")`, ASCII
    case mapping, and the leftmost scan that `re.search` performs. */
module Text {
  import opened Wrappers

  /** Python's `str.isspace`: general category Zs, or bidirectional class
      WS, B or S. The same set is matched by `\s` in a `str` regular
      expression and removed by `str.strip()`. */
  predicate IsSpace(c: char) {
    var n := c as int;
    (9 <= n <= 13) || (28 <= n <= 32) || n == 0x85 || n == 0xA0 || n == 0x1680
    || (0x2000 <= n <= 0x200A) || n == 0x2028 || n == 0x2029 || n == 0x202F
    || n == 0x205F || n == 0x3000
  }

  predicate IsDigit(c: char) {
    '0' <= c <= '9'
  }

  predicate IsAsciiUpper(c: char) {
    'A' <= c <= 'Z'
  }

  predicate IsAsciiLower(c: char) {
    'a' <= c <= 'z'
  }

  predicate AllSpace(s: string) {
    forall k :: 0 <= k < |s| ==> IsSpace(s[k])
  }

  function ToLowerChar(c: char): char {
    if IsAsciiUpper(c) then (c as int + 32) as char else c
  }

  function ToUpperChar(c: char): char {
    if IsAsciiLower(c) then (c as int - 32) as char else c
  }

  /** `str.lower()` restricted to ASCII letters. */
  function Lower(s: string): (r: string)
    ensures |r| == |s|
  {
    seq(|s|, k requires 0 <= k < |s| => ToLowerChar(s[k]))
  }

  /** `str.upper()` restricted to ASCII letters. */
  function Upper(s: string): (r: string)
    ensures |r| == |s|
  {
    seq(|s|, k requires 0 <= k < |s| => ToUpperChar(s[k]))
  }

  /** `s.startswith(p)` */
  predicate StartsWith(s: string, p: string) {
    |p| <= |s| && s[..|p|] == p
  }

  /** `p in s` */
  predicate Contains(s: string, p: string) {
    exists i | 0 <= i <= |s| :: StartsWith(s[i..], p)
  }

  /** A literal match of `p` at the start of `s` under `re.I`. */
  predicate StartsWithIgnoreCase(s: string, p: string) {
    |p| <= |s| && Lower(s[..|p|]) == Lower(p)
  }

  /** The length of the longest prefix of `s` whose characters satisfy `p`:
      what a greedy `p+` or `p*` consumes. */
  function Span(s: string, p: char -> bool): (n: nat)
    ensures n <= |s|
    ensures forall k :: 0 <= k < n ==> p(s[k])
    ensures n < |s| ==> !p(s[n])
  {
    if s == [] || !p(s[0]) then 0 else 1 + Span(s[1..], p)
  }

  /** The length of the longest suffix of `s` whose characters satisfy `p`. */
  function SpanBack(s: string, p: char -> bool): (n: nat)
    ensures n <= |s|
    ensures forall k :: |s| - n <= k < |s| ==> p(s[k])
    ensures n < |s| ==> !p(s[|s| - n - 1])
  {
    if s == [] || !p(s[|s| - 1]) then 0 else 1 + SpanBack(s[..|s| - 1], p)
  }

  /** `str.strip()` with no argument. */
  function Strip(s: string): (r: string)
    ensures r == [] || (!IsSpace(r[0]) && !IsSpace(r[|r| - 1]))
    ensures |r| <= |s|
  {
    var t := s[Span(s, IsSpace)..];
    t[..|t| - SpanBack(t, IsSpace)]
  }

  /** Surrounding whitespace is exactly what `Strip` removes. */
  lemma {:induction false} StripSurrounded(a: string, t: string, b: string)
    requires AllSpace(a) && AllSpace(b)
    requires t == [] || (!IsSpace(t[0]) && !IsSpace(t[|t| - 1]))
    requires t != [] || b == []
    ensures Strip(a + t + b) == t
  {
    var s := a + t + b;
    var n := Span(s, IsSpace);
    if t != [] {
      assert s[|a|] == t[0];
      assert n == |a|;
      var u := s[n..];
      assert u == t + b;
      var m := SpanBack(u, IsSpace);
      assert u[|u| - |b| - 1] == t[|t| - 1];
      assert m == |b|;
      assert u[..|u| - m] == t;
    } else {
      assert s == a;
      assert n == |a|;
    }
  }

  /** A string that begins and ends with a non-space character is left alone. */
  lemma StripIdentity(t: string)
    requires t == [] || (!IsSpace(t[0]) && !IsSpace(t[|t| - 1]))
    ensures Strip(t) == t
  {
    StripSurrounded([], t, []);
    assert [] + t + [] == t;
  }

  /** `s.replace(pat, "")`: every non-overlapping occurrence of `pat`,
      scanning left to right, is deleted. */
  function RemoveAll(s: string, pat: string): (r: string)
    requires |pat| > 0
    ensures |r| <= |s|
    decreases |s|
  {
    if |s| < |pat| then s
    else if s[..|pat|] == pat then RemoveAll(s[|pat|..], pat)
    else [s[0]] + RemoveAll(s[1..], pat)
  }

  /** Removing a pattern that does not occur changes nothing. */
  lemma {:induction false} RemoveAllAbsent(s: string, pat: string)
    requires |pat| > 0 && !Contains(s, pat)
    ensures RemoveAll(s, pat) == s
    decreases |s|
  {
    if |s| >= |pat| {
      assert s[0..] == s;
      assert forall i :: 0 <= i <= |s| - 1 ==> s[1..][i..] == s[i + 1..];
      RemoveAllAbsent(s[1..], pat);
      assert [s[0]] + s[1..] == s;
    }
  }

  /** Removing a one-character pattern distributes over concatenation. */
  lemma {:induction false} RemoveAllCharAppend(a: string, b: string, c: char)
    ensures RemoveAll(a + b, [c]) == RemoveAll(a, [c]) + RemoveAll(b, [c])
    decreases |a|
  {
    if a == [] {
      assert a + b == b;
    } else {
      var s := a + b;
      assert s[..1] == a[..1] && s[1..] == a[1..] + b;
      RemoveAllCharAppend(a[1..], b, c);
      if a[..1] != [c] {
        assert [a[0]] + (RemoveAll(a[1..], [c]) + RemoveAll(b, [c]))
               == ([a[0]] + RemoveAll(a[1..], [c])) + RemoveAll(b, [c]);
      }
    }
  }

  /** Where the leftmost-match scan of `re.search` succeeds: `m` is tried
      on every suffix `s[i..]`, for `i` from 0 up to and including `|s|`,
      and the first position where it succeeds is returned. */
  function FirstMatchAt<T>(m: string -> Option<T>, s: string): (r: Option<nat>)
    ensures r.Some? ==> r.value <= |s| && m(s[r.value..]).Some?
    ensures r.Some? ==> forall j :: 0 <= j < r.value ==> m(s[j..]).None?
    ensures r.None? ==> forall i :: 0 <= i <= |s| ==> m(s[i..]).None?
    decreases |s|
  {
    assert s[0..] == s;
    if m(s).Some? then Some(0)
    else if s == [] then None
    else
      assert forall i :: 1 <= i <= |s| ==> s[i..] == s[1..][i - 1..];
      match FirstMatchAt(m, s[1..])
      case None => None
      case Some(i) => Some(i + 1)
  }

  /** `re.search`: the result of the leftmost successful match, if any. */
  function Search<T>(m: string -> Option<T>, s: string): (r: Option<T>)
    ensures r.None? <==> forall i :: 0 <= i <= |s| ==> m(s[i..]).None?
  {
    match FirstMatchAt(m, s)
    case None => None
    case Some(i) => m(s[i..])
  }

  /** A run of characters that all satisfy `p` and is followed by one that
      does not is exactly what `Span` consumes. */
  lemma {:induction false} SpanOfPrefix(a: string, b: string, p: char -> bool)
    requires forall k :: 0 <= k < |a| ==> p(a[k])
    requires b == [] || !p(b[0])
    ensures Span(a + b, p) == |a|
    decreases |a|
  {
    if a != [] {
      assert (a + b)[1..] == a[1..] + b;
      SpanOfPrefix(a[1..], b, p);
    } else {
      assert a + b == b;
    }
  }

  /** The mirror image of `SpanOfPrefix` for `SpanBack`. */
  lemma {:induction false} SpanBackOfSuffix(a: string, b: string, p: char -> bool)
    requires forall k :: 0 <= k < |b| ==> p(b[k])
    requires a == [] || !p(a[|a| - 1])
    ensures SpanBack(a + b, p) == |b|
    decreases |b|
  {
    if b != [] {
      assert (a + b)[..|a + b| - 1] == a + b[..|b| - 1];
      SpanBackOfSuffix(a, b[..|b| - 1], p);
    } else {
      assert a + b == a;
    }
  }

  /** A string none of whose characters is `c` does not contain `c`. */
  lemma NotContainsChar(s: string, c: char)
    requires forall k :: 0 <= k < |s| ==> s[k] != c
    ensures !Contains(s, [c])
  {
    forall i | 0 <= i <= |s|
      ensures !StartsWith(s[i..], [c])
    {
      if i < |s| {
        assert s[i..][0] == s[i];
      }
    }
  }

  /** Whatever `Strip(s)` contains, `s` contains. */
  lemma StripContains(s: string, p: string)
    ensures Contains(Strip(s), p) ==> Contains(s, p)
  {
    if Contains(Strip(s), p) {
      var a := Span(s, IsSpace);
      var t := s[a..];
      var e := |t| - SpanBack(t, IsSpace);
      assert Strip(s) == s[a..a + e];
      SliceContains(s, a, a + e, p);
    }
  }

  /** Whatever a slice of `s` contains, `s` contains. */
  lemma SliceContains(s: string, lo: nat, hi: nat, p: string)
    requires lo <= hi <= |s| && Contains(s[lo..hi], p)
    ensures Contains(s, p)
  {
    var t := s[lo..hi];
    var i :| 0 <= i <= |t| && StartsWith(t[i..], p);
    assert forall k :: 0 <= k < |p| ==> s[lo + i..][k] == t[i..][k];
    assert s[lo + i..][..|p|] == p;
  }

  /** A sign in front of text with no blank at its end leaves nothing to
      strip. */
  lemma SignedStripped(s: string, t: string)
    requires t != [] && !IsSpace(t[|t| - 1]) && s == "-" + t
    ensures Strip(s) == s
  {
    assert s[|s| - 1] == t[|t| - 1];
    StripIdentity(s);
  }

  /** When `m` first succeeds at position `i`, `re.search` returns that
      match. */
  lemma SearchAt<T>(m: string -> Option<T>, s: string, i: nat)
    requires i <= |s| && m(s[i..]).Some?
    requires forall j :: 0 <= j < i ==> m(s[j..]).None?
    ensures Search(m, s) == m(s[i..])
  {
    assert FirstMatchAt(m, s) == Some(i);
  }
}
