// The Python string operations the service relies on, written out so that the
// models built on them inherit their exact edge cases: str.strip, str.split,
// str.split(maxsplit=1), str.splitlines, clamped slicing, str.upper, str.title
// and str(int).
module PyStr {

  /** Python's str.isspace(): the characters strip() and split() treat as whitespace. */
  predicate IsSpace(c: char) {
    c == '\t' || c == '\n' || c == '\U{0B}' || c == '\U{0C}' || c == '\r'
    || ('\U{1C}' <= c <= '\U{1F}') || c == ' ' || c == '\U{85}' || c == '\U{A0}'
    || c == '\U{1680}' || ('\U{2000}' <= c <= '\U{200A}') || c == '\U{2028}'
    || c == '\U{2029}' || c == '\U{202F}' || c == '\U{205F}' || c == '\U{3000}'
  }

  /** The line boundaries str.splitlines() recognises ("\r\n" counts as one). */
  predicate IsLineBreak(c: char) {
    c == '\n' || c == '\r' || c == '\U{0B}' || c == '\U{0C}' || c == '\U{1C}'
    || c == '\U{1D}' || c == '\U{1E}' || c == '\U{85}' || c == '\U{2028}' || c == '\U{2029}'
  }

  predicate AllSpace(s: string) {
    forall i :: 0 <= i < |s| ==> IsSpace(s[i])
  }

  /** s.lstrip(): the suffix left after dropping leading whitespace. */
  function LStrip(s: string): (r: string)
    ensures |r| <= |s| && r == s[|s| - |r|..]
    ensures forall i :: 0 <= i < |s| - |r| ==> IsSpace(s[i])
    ensures r == [] || !IsSpace(r[0])
  {
    if |s| > 0 && IsSpace(s[0]) then LStrip(s[1..]) else s
  }

  /** s.rstrip(): the prefix left after dropping trailing whitespace. */
  function RStrip(s: string): (r: string)
    ensures |r| <= |s| && r == s[..|r|]
    ensures forall i :: |r| <= i < |s| ==> IsSpace(s[i])
    ensures r == [] || !IsSpace(r[|r| - 1])
  {
    if |s| > 0 && IsSpace(s[|s| - 1]) then RStrip(s[..|s| - 1]) else s
  }

  /** s.strip(): empty exactly for whitespace-only input, otherwise bounded by non-space characters. */
  function Strip(s: string): (r: string)
    ensures |r| <= |s|
    ensures r == [] <==> AllSpace(s)
    ensures r != [] ==> !IsSpace(r[0]) && !IsSpace(r[|r| - 1])
  {
    var l := LStrip(s);
    assert AllSpace(s) ==> l == [];
    RStrip(l)
  }

  /** "sep".join(parts) */
  function Join(parts: seq<string>, sep: char): string
    requires |parts| >= 1
  {
    if |parts| == 1 then parts[0] else parts[0] + [sep] + Join(parts[1..], sep)
  }

  /** s.split(sep) for a one-character separator: never empty, pieces free of sep. */
  function Split(s: string, sep: char): (r: seq<string>)
    ensures |r| >= 1
    ensures forall k :: 0 <= k < |r| ==> sep !in r[k]
    ensures s != [] && s[0] != sep ==> r[0] != [] && r[0][0] == s[0]
    decreases |s|
  {
    if |s| == 0 then [""]
    else
      var rest := Split(s[1..], sep);
      if s[0] == sep then [""] + rest else [[s[0]] + rest[0]] + rest[1..]
  }

  lemma JoinConsHead(a: string, parts: seq<string>, sep: char)
    requires |parts| >= 1
    ensures Join([a + parts[0]] + parts[1..], sep) == a + Join(parts, sep)
  {
    var q := [a + parts[0]] + parts[1..];
    assert q[1..] == parts[1..];
  }

  /** Splitting loses nothing: joining the pieces with the separator gives the input back. */
  lemma {:induction false} SplitJoin(s: string, sep: char)
    ensures Join(Split(s, sep), sep) == s
    decreases |s|
  {
    if |s| > 0 {
      var rest := Split(s[1..], sep);
      SplitJoin(s[1..], sep);
      if s[0] == sep {
        assert ([""] + rest)[1..] == rest;
      } else {
        JoinConsHead([s[0]], rest, sep);
      }
      assert s == [s[0]] + s[1..];
    }
  }

  /** The leading run of non-whitespace characters. */
  function Token(s: string): (r: string)
    ensures |r| <= |s| && r == s[..|r|]
    ensures forall i :: 0 <= i < |r| ==> !IsSpace(r[i])
    ensures |r| == |s| || IsSpace(s[|r|])
  {
    if |s| > 0 && !IsSpace(s[0]) then [s[0]] + Token(s[1..]) else []
  }

  /**
   * s.split(maxsplit=1): no pieces for whitespace-only input; otherwise the first
   * whitespace-delimited token and, if anything follows it, the remainder with its
   * leading whitespace removed.
   */
  function SplitOnce(s: string): (r: seq<string>)
    ensures |r| <= 2
    ensures r == [] <==> AllSpace(s)
    ensures |r| >= 1 ==> r[0] != [] && forall i :: 0 <= i < |r[0]| ==> !IsSpace(r[0][i])
    ensures |r| == 2 ==> r[1] != [] && !IsSpace(r[1][0])
    ensures |r| >= 1 ==> r[0] == Token(LStrip(s))
    ensures |r| == 1 ==> AllSpace(LStrip(s)[|r[0]|..])
    ensures |r| == 2 ==> r[1] == LStrip(LStrip(s)[|r[0]|..])
  {
    var t := LStrip(s);
    LStripEmpty(s);
    if t == [] then []
    else
      var head := Token(t);
      assert head != [] && head[0] == t[0];
      var rest := LStrip(t[|head|..]);
      if rest == [] then [head] else [head, rest]
  }

  lemma LStripEmpty(s: string)
    ensures LStrip(s) == [] <==> AllSpace(s)
  {
    var t := LStrip(s);
    if t != [] {
      assert t[0] == s[|s| - |t|];
    }
  }

  /** "".join(s.split()): s with every whitespace character removed. */
  function RemoveSpace(s: string): (r: string)
    ensures |r| <= |s|
    ensures forall i :: 0 <= i < |r| ==> !IsSpace(r[i])
  {
    if s == [] then [] else (if IsSpace(s[0]) then [] else [s[0]]) + RemoveSpace(s[1..])
  }

  /** Removing whitespace commutes with concatenation. */
  lemma {:induction false} RemoveSpaceAppend(a: string, b: string)
    ensures RemoveSpace(a + b) == RemoveSpace(a) + RemoveSpace(b)
  {
    if a != [] {
      assert (a + b)[0] == a[0] && (a + b)[1..] == a[1..] + b;
      RemoveSpaceAppend(a[1..], b);
      var h: string := if IsSpace(a[0]) then [] else [a[0]];
      assert RemoveSpace(a + b) == h + RemoveSpace(a[1..] + b);
      assert RemoveSpace(a) == h + RemoveSpace(a[1..]);
      assert h + (RemoveSpace(a[1..]) + RemoveSpace(b)) == (h + RemoveSpace(a[1..])) + RemoveSpace(b);
    } else {
      assert a + b == b;
    }
  }

  /** A string without whitespace is left as it is. */
  lemma {:induction false} RemoveSpaceFixed(s: string)
    requires forall i :: 0 <= i < |s| ==> !IsSpace(s[i])
    ensures RemoveSpace(s) == s
  {
    if s != [] {
      RemoveSpaceFixed(s[1..]);
    }
  }

  /** Index of the first line boundary in s, or |s| if there is none. */
  function LineEnd(s: string): (k: nat)
    ensures k <= |s|
    ensures forall i :: 0 <= i < k ==> !IsLineBreak(s[i])
    ensures k < |s| ==> IsLineBreak(s[k])
  {
    if s == [] || IsLineBreak(s[0]) then 0 else 1 + LineEnd(s[1..])
  }

  /** s.splitlines(): no pieces for "", no trailing empty piece, boundaries removed. */
  function SplitLines(s: string): (r: seq<string>)
    ensures r == [] <==> s == []
    ensures forall k, i :: 0 <= k < |r| && 0 <= i < |r[k]| ==> !IsLineBreak(r[k][i])
    decreases |s|
  {
    if s == [] then []
    else
      var k := LineEnd(s);
      if k == |s| then [s]
      else
        var width := if s[k] == '\r' && k + 1 < |s| && s[k + 1] == '\n' then 2 else 1;
        [s[..k]] + SplitLines(s[k + width..])
  }

  predicate StartsWith(s: string, prefix: string) {
    |prefix| <= |s| && s[..|prefix|] == prefix
  }

  function Min(a: int, b: int): int {
    if a <= b then a else b
  }

  /** s[lo:hi] with Python's clamping of out-of-range bounds. */
  function Slice(s: string, lo: nat, hi: nat): (r: string)
    ensures |r| == if lo >= |s| || hi <= lo then 0 else Min(hi, |s|) - lo
    ensures forall k :: 0 <= k < |r| ==> r[k] == s[lo + k]
  {
    var a := Min(lo, |s|);
    var b := Min(hi, |s|);
    if b <= a then [] else s[a..b]
  }

  predicate IsAsciiLower(c: char) { 'a' <= c <= 'z' }
  predicate IsAsciiUpper(c: char) { 'A' <= c <= 'Z' }
  predicate IsCased(c: char) { IsAsciiLower(c) || IsAsciiUpper(c) }

  function UpperChar(c: char): char {
    if IsAsciiLower(c) then (c as int - 32) as char else c
  }

  function LowerChar(c: char): char {
    if IsAsciiUpper(c) then (c as int + 32) as char else c
  }

  /** s.upper() on the ASCII letters. */
  function Upper(s: string): (r: string)
    ensures |r| == |s| && forall i :: 0 <= i < |s| ==> r[i] == UpperChar(s[i])
  {
    seq(|s|, i requires 0 <= i < |s| => UpperChar(s[i]))
  }

  /**
   * The loop of str.title(): a character is lowered when the one before it is
   * cased and title-cased otherwise; characters without case pass through.
   */
  function TitleFrom(s: string, previousCased: bool): (r: string)
    ensures |r| == |s|
    ensures forall i :: 0 <= i < |s| && !IsCased(s[i]) ==> r[i] == s[i]
  {
    if s == [] then []
    else
      [if previousCased then LowerChar(s[0]) else UpperChar(s[0])]
      + TitleFrom(s[1..], IsCased(s[0]))
  }

  /** s.title() */
  function Title(s: string): string {
    TitleFrom(s, false)
  }

  predicate IsDigit(c: char) { '0' <= c <= '9' }

  function DigitChar(d: nat): (c: char)
    requires d < 10
    ensures IsDigit(c)
  {
    ('0' as int + d) as char
  }

  /** str(n) for a non-negative integer: one or more decimal digits. */
  function NatToString(n: nat): (r: string)
    ensures |r| >= 1
    ensures forall i :: 0 <= i < |r| ==> IsDigit(r[i])
    decreases n
  {
    if n < 10 then [DigitChar(n)] else NatToString(n / 10) + [DigitChar(n % 10)]
  }

  /** str(n) for any integer: a minus sign before the digits of a negative one. */
  function IntToString(n: int): (r: string)
    ensures |r| >= 1
  {
    if n >= 0 then NatToString(n) else "-" + NatToString(-n)
  }

  /** int(s) for a string of decimal digits. */
  function DigitsValue(s: string): nat
    requires forall i :: 0 <= i < |s| ==> IsDigit(s[i])
  {
    if s == [] then 0
    else
      assert IsDigit(s[|s| - 1]);
      DigitsValue(s[..|s| - 1]) * 10 + (s[|s| - 1] as int - '0' as int)
  }

  /** int(str(n)) == n */
  lemma {:induction false} NatToStringValue(n: nat)
    ensures DigitsValue(NatToString(n)) == n
    decreases n
  {
    if n >= 10 {
      NatToStringValue(n / 10);
      var r := NatToString(n);
      assert r[..|r| - 1] == NatToString(n / 10);
    }
  }
}
