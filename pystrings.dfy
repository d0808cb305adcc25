/** The parts of Python's `str` behaviour that the back end relies on:
    `strip`, `lower`, `find`, `rfind`, `startswith`, `endswith`, `in`,
    slicing, `"sep".join` and `str(int)`. Strings are sequences of characters. */
module PyStrings {

  /** `str.isspace()` for one character: the characters Python's `strip()`
      removes when called without an argument. */
  predicate IsSpace(c: char) {
    c == ' ' || ('\t' <= c <= '\r') || ('\U{1c}' <= c <= '\U{1f}')
    || c == '\U{85}' || c == '\U{a0}' || c == '\U{1680}'
    || ('\U{2000}' <= c <= '\U{200a}') || c == '\U{2028}' || c == '\U{2029}'
    || c == '\U{202f}' || c == '\U{205f}' || c == '\U{3000}'
  }

  /** `s.lstrip()` */
  function LStrip(s: string): (r: string)
    ensures |r| <= |s| && r == s[|s| - |r|..]
    ensures r == [] || !IsSpace(r[0])
    ensures forall i :: 0 <= i < |s| - |r| ==> IsSpace(s[i])
  {
    if |s| > 0 && IsSpace(s[0]) then LStrip(s[1..]) else s
  }

  /** `s.rstrip()` */
  function RStrip(s: string): (r: string)
    ensures |r| <= |s| && r == s[..|r|]
    ensures r == [] || !IsSpace(r[|r| - 1])
    ensures forall i :: |r| <= i < |s| ==> IsSpace(s[i])
  {
    if |s| > 0 && IsSpace(s[|s| - 1]) then RStrip(s[..|s| - 1]) else s
  }

  /** A string with no leading and no trailing whitespace. */
  predicate IsStripped(s: string) {
    s == [] || (!IsSpace(s[0]) && !IsSpace(s[|s| - 1]))
  }

  /** `s.strip()`: what remains of `s` once the whitespace at both ends is removed. */
  function Strip(s: string): (r: string)
    ensures IsStripped(r)
    ensures |s| - |LStrip(s)| + |r| <= |s|
    ensures r == s[|s| - |LStrip(s)|..|s| - |LStrip(s)| + |r|]
  {
    var l := LStrip(s);
    var r := RStrip(l);
    assert l == s[|s| - |l|..];
    assert r == l[..|r|];
    r
  }

  /** Every character `strip()` removes is whitespace. */
  lemma StripRemovesOnlySpace(s: string)
    ensures forall i :: 0 <= i < |s| - |LStrip(s)| ==> IsSpace(s[i])
    ensures forall i :: |s| - |LStrip(s)| + |Strip(s)| <= i < |s| ==> IsSpace(s[i])
  {
    var l := LStrip(s);
    var lead := |s| - |l|;
    forall i | lead + |Strip(s)| <= i < |s| ensures IsSpace(s[i]) {
      assert s[i] == l[i - lead];
    }
  }

  /** Stripping an already stripped string changes nothing. */
  lemma StripOfStripped(s: string)
    requires IsStripped(s)
    ensures Strip(s) == s
  {
  }

  /** `strip()` is idempotent. */
  lemma StripIdempotent(s: string)
    ensures Strip(Strip(s)) == Strip(s)
  {
    StripOfStripped(Strip(s));
  }

  /** `s.strip() == ""` exactly when `s` is empty or made of whitespace only. */
  lemma StripEmptyIffBlank(s: string)
    ensures Strip(s) == "" <==> forall i :: 0 <= i < |s| ==> IsSpace(s[i])
  {
    StripRemovesOnlySpace(s);
    if Strip(s) != "" {
      assert Strip(s)[0] == s[|s| - |LStrip(s)|];
    }
  }

  /** `c.lower()` for ASCII letters; every other character is kept. */
  function LowerChar(c: char): char {
    if 'A' <= c <= 'Z' then (c as int + 32) as char else c
  }

  /** `s.lower()`, restricted to ASCII case mapping. */
  function Lower(s: string): (r: string)
    ensures |r| == |s|
    ensures forall i :: 0 <= i < |s| ==> r[i] == LowerChar(s[i])
  {
    if s == [] then [] else [LowerChar(s[0])] + Lower(s[1..])
  }

  /** `s.startswith(p)` */
  predicate StartsWith(s: string, p: string) {
    |p| <= |s| && s[..|p|] == p
  }

  /** `s.endswith(p)` */
  predicate EndsWith(s: string, p: string) {
    |p| <= |s| && s[|s| - |p|..] == p
  }

  /** `s[len(p):] if s.startswith(p) else s` */
  function DropPrefix(s: string, p: string): (r: string)
    ensures StartsWith(s, p) ==> s == p + r
    ensures !StartsWith(s, p) ==> r == s
  {
    if StartsWith(s, p) then s[|p|..] else s
  }

  /** `s[:-len(p)] if s.endswith(p) else s`, for a non-empty `p` */
  function DropSuffix(s: string, p: string): (r: string)
    ensures EndsWith(s, p) ==> s == r + p
    ensures !EndsWith(s, p) ==> r == s
  {
    if EndsWith(s, p) then s[..|s| - |p|] else s
  }

  /** Dropping a prefix undoes prepending it. */
  lemma DropPrefixOfConcat(p: string, s: string)
    ensures DropPrefix(p + s, p) == s
  {
    assert (p + s)[..|p|] == p;
  }

  /** Dropping a string from itself leaves nothing. */
  lemma DropPrefixSelf(p: string)
    ensures DropPrefix(p, p) == []
  {
    assert p[..|p|] == p;
  }

  /** Dropping a suffix undoes appending it. */
  lemma DropSuffixOfConcat(s: string, p: string)
    ensures DropSuffix(s + p, p) == s
  {
    assert (s + p)[|s|..] == p;
  }

  /** A string whose first character differs from that of `p` keeps its start. */
  lemma DropPrefixMismatch(s: string, p: string)
    requires s != [] && p != [] && s[0] != p[0]
    ensures DropPrefix(s, p) == s
  {
  }

  /** A string that does not start with `p` does not start with `p + q` either. */
  lemma DropPrefixLonger(s: string, p: string, q: string)
    requires !StartsWith(s, p)
    ensures DropPrefix(s, p + q) == s
  {
    if |p + q| <= |s| {
      assert s[..|p + q|][..|p|] == s[..|p|];
      assert (p + q)[..|p|] == p;
    }
  }

  /** Lower-casing keeps a prefix a prefix. */
  lemma LowerKeepsPrefix(s: string, p: string)
    requires StartsWith(s, p)
    ensures StartsWith(Lower(s), Lower(p))
  {
    assert forall i :: 0 <= i < |p| ==> Lower(s)[i] == LowerChar(p[i]);
  }

  /** `t` occurs in `s` starting at index `j`. */
  predicate MatchesAt(s: string, t: string, j: int) {
    0 <= j && j + |t| <= |s| && s[j..j + |t|] == t
  }

  /** Scans `s` left to right from index `i` for an occurrence of `t`. */
  function FindFrom(s: string, t: string, i: nat): (r: int)
    requires i <= |s|
    decreases |s| - i
    ensures r == -1 || (i <= r && MatchesAt(s, t, r))
    ensures r == -1 ==> forall j :: i <= j ==> !MatchesAt(s, t, j)
    ensures r != -1 ==> forall j :: i <= j < r ==> !MatchesAt(s, t, j)
  {
    if i + |t| > |s| then -1
    else if s[i..i + |t|] == t then i
    else FindFrom(s, t, i + 1)
  }

  /** `s.find(t)`: the lowest index where `t` occurs, or -1. */
  function Find(s: string, t: string): (r: int)
    ensures r == -1 <==> forall j :: !MatchesAt(s, t, j)
    ensures r != -1 ==> MatchesAt(s, t, r) && forall j :: 0 <= j < r ==> !MatchesAt(s, t, j)
  {
    FindFrom(s, t, 0)
  }

  /** Scans `s` right to left from index `i` for an occurrence of `t`. */
  function RFindFrom(s: string, t: string, i: int): (r: int)
    requires i + |t| <= |s|
    decreases i + 1
    ensures r == -1 || (0 <= r <= i && MatchesAt(s, t, r))
    ensures r == -1 ==> forall j :: j <= i ==> !MatchesAt(s, t, j)
    ensures r != -1 ==> forall j :: r < j <= i ==> !MatchesAt(s, t, j)
  {
    if i < 0 then -1
    else if s[i..i + |t|] == t then i
    else RFindFrom(s, t, i - 1)
  }

  /** `s.rfind(t)`: the highest index where `t` occurs, or -1. */
  function RFind(s: string, t: string): (r: int)
    ensures r == -1 <==> forall j :: !MatchesAt(s, t, j)
    ensures r != -1 ==> MatchesAt(s, t, r) && forall j :: r < j ==> !MatchesAt(s, t, j)
  {
    if |t| > |s| then -1 else RFindFrom(s, t, |s| - |t|)
  }

  /** `t in s` for strings. */
  predicate Contains(s: string, t: string) {
    Find(s, t) != -1
  }

  /** A character that does not occur in `s` is not found in it. */
  lemma AbsentCharNotFound(s: string, c: char)
    requires forall i :: 0 <= i < |s| ==> s[i] != c
    ensures forall j :: !MatchesAt(s, [c], j)
  {
    forall j | 0 <= j < |s| ensures !MatchesAt(s, [c], j) {
      assert s[j..j + 1][0] == s[j];
    }
  }

  /** A string contains each of its prefixes. */
  lemma ContainsPrefix(s: string, p: string)
    requires StartsWith(s, p)
    ensures Contains(s, p)
  {
    assert MatchesAt(s, p, 0);
  }

  /** `s[:n]`, with Python's meaning for a negative or too large bound. */
  function Take<T>(s: seq<T>, n: int): (r: seq<T>)
    ensures n >= 0 ==> r == s[..if n < |s| then n else |s|]
    ensures n < 0 ==> r == s[..if |s| + n < 0 then 0 else |s| + n]
  {
    if n >= |s| then s
    else if n >= 0 then s[..n]
    else if |s| + n < 0 then []
    else s[..|s| + n]
  }

  /** `s[a:b]` for non-negative bounds: empty when `a >= b`, clamped to the length otherwise. */
  function Slice(s: string, a: nat, b: nat): (r: string)
    ensures a < b && a < |s| ==> r == s[a..if b < |s| then b else |s|]
    ensures (b <= a || |s| <= a) ==> r == ""
  {
    if b <= a || |s| <= a then "" else s[a..if b < |s| then b else |s|]
  }

  /** `sep.join(parts)` */
  function Join(parts: seq<string>, sep: string): string
    decreases |parts|
  {
    if |parts| == 0 then ""
    else if |parts| == 1 then parts[0]
    else Join(parts[..|parts| - 1], sep) + sep + parts[|parts| - 1]
  }

  /** The decimal digit character for `d`. */
  function DigitChar(d: nat): char
    requires d < 10
  {
    "0123456789"[d]
  }

  /** The decimal digits of `n`, most significant first, with no leading zero. */
  function NatToDecimal(n: nat): (r: string)
    decreases n
    ensures |r| >= 1
    ensures forall i :: 0 <= i < |r| ==> '0' <= r[i] <= '9'
  {
    if n < 10 then [DigitChar(n)] else NatToDecimal(n / 10) + [DigitChar(n % 10)]
  }

  /** `str(n)` for an integer. */
  function IntToStr(n: int): string {
    if n < 0 then "-" + NatToDecimal(-n) else NatToDecimal(n)
  }

  /** Numbers of two digits or more print with at least two characters. */
  lemma {:induction false} NatToDecimalLength(n: nat)
    ensures n >= 10 ==> |NatToDecimal(n)| >= 2
  {
  }

  /** Distinct numbers print differently. */
  lemma {:induction false} NatToDecimalInjective(n: nat, m: nat)
    requires NatToDecimal(n) == NatToDecimal(m)
    ensures n == m
    decreases n
  {
    NatToDecimalLength(n);
    NatToDecimalLength(m);
    if n >= 10 && m >= 10 {
      var a := NatToDecimal(n);
      assert a == NatToDecimal(n / 10) + [DigitChar(n % 10)];
      assert a == NatToDecimal(m / 10) + [DigitChar(m % 10)];
      assert a[..|a| - 1] == NatToDecimal(n / 10) == NatToDecimal(m / 10);
      NatToDecimalInjective(n / 10, m / 10);
    }
  }

  /** `str(n) == str(m)` only when `n == m`. */
  lemma IntToStrInjective(n: int, m: int)
    requires IntToStr(n) == IntToStr(m)
    ensures n == m
  {
    assert (n < 0) == (IntToStr(n)[0] == '-');
    assert (m < 0) == (IntToStr(m)[0] == '-');
    if n < 0 {
      assert IntToStr(n)[1..] == NatToDecimal(-n);
      assert IntToStr(m)[1..] == NatToDecimal(-m);
      NatToDecimalInjective(-n, -m);
    } else {
      NatToDecimalInjective(n, m);
    }
  }
}
