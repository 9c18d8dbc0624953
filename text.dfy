/**
 * The handful of Python string operations the harness relies on, written
 * over `string` (a sequence of code points): `str.split()` with no
 * separator, `str.splitlines()`, `str.split(sep)`, `int(...)` on a token,
 * `str(n)` and the `:02d` format of a non-negative int, `startswith`,
 * substring `in`, and the code-point order that `sorted` uses on strings.
 */
module Text {
  import opened Base

  // ---------------------------------------------------------------------------
  // Character classes
  // ---------------------------------------------------------------------------

  /** The characters for which Python's `str.isspace()` holds. */
  predicate IsSpace(c: char) {
    c == ' ' || ('\t' <= c <= '\r') || ('\U{1C}' <= c <= '\U{1F}') ||
    c == '\U{85}' || c == '\U{A0}' || c == '\U{1680}' ||
    ('\U{2000}' <= c <= '\U{200A}') || c == '\U{2028}' || c == '\U{2029}' ||
    c == '\U{202F}' || c == '\U{205F}' || c == '\U{3000}'
  }

  /** The line boundaries recognised by Python's `str.splitlines()`. */
  predicate IsLineBreak(c: char) {
    ('\n' <= c <= '\r') || ('\U{1C}' <= c <= '\U{1E}') ||
    c == '\U{85}' || c == '\U{2028}' || c == '\U{2029}'
  }

  predicate IsDigit(c: char) { '0' <= c <= '9' }

  predicate AllDigits(s: string) { forall i :: 0 <= i < |s| ==> IsDigit(s[i]) }

  function DigitChar(d: nat): (c: char)
    requires d < 10
    ensures IsDigit(c)
  {
    ('0' as int + d) as char
  }

  function DigitValue(c: char): nat
    requires IsDigit(c)
  {
    c as int - '0' as int
  }

  // ---------------------------------------------------------------------------
  // Scanning helpers
  // ---------------------------------------------------------------------------

  /** Index of the first line boundary in `s`, or `|s|` if there is none. */
  function FirstBreak(s: string): (i: nat)
    ensures i <= |s|
    ensures forall j :: 0 <= j < i ==> !IsLineBreak(s[j])
    ensures i < |s| ==> IsLineBreak(s[i])
  {
    if s == [] then 0 else if IsLineBreak(s[0]) then 0 else 1 + FirstBreak(s[1..])
  }

  /** Index of the first whitespace character in `s`, or `|s|` if there is none. */
  function FirstSpace(s: string): (i: nat)
    ensures i <= |s|
    ensures forall j :: 0 <= j < i ==> !IsSpace(s[j])
    ensures i < |s| ==> IsSpace(s[i])
  {
    if s == [] then 0 else if IsSpace(s[0]) then 0 else 1 + FirstSpace(s[1..])
  }

  /** Index of the first occurrence of `c` in `s`, or `|s|` if there is none. */
  function IndexOf(s: string, c: char): (i: nat)
    ensures i <= |s|
    ensures forall j :: 0 <= j < i ==> s[j] != c
    ensures i < |s| ==> s[i] == c
  {
    if s == [] then 0 else if s[0] == c then 0 else 1 + IndexOf(s[1..], c)
  }

  // ---------------------------------------------------------------------------
  // Splitting
  // ---------------------------------------------------------------------------

  /**
   * Python's `s.splitlines()`: pieces between line boundaries, `\r\n`
   * counting as one boundary, and no trailing empty piece.
   */
  function Lines(s: string): (lines: seq<string>)
    decreases |s|
  {
    if s == [] then []
    else
      var i := FirstBreak(s);
      if i == |s| then [s]
      else
        var next := if s[i] == '\r' && i + 1 < |s| && s[i + 1] == '\n' then i + 2 else i + 1;
        [s[..i]] + Lines(s[next..])
  }

  /** Python's `s.split()`: the maximal runs of non-whitespace characters. */
  function Tokens(s: string): (ts: seq<string>)
    ensures forall k :: 0 <= k < |ts| ==> ts[k] != []
    decreases |s|
  {
    if s == [] then []
    else if IsSpace(s[0]) then Tokens(s[1..])
    else
      var k := FirstSpace(s);
      [s[..k]] + Tokens(s[k..])
  }

  /** Python's `s.split(sep)` for a one-character separator: empty pieces are kept. */
  function SplitOn(s: string, sep: char): (parts: seq<string>)
    ensures |parts| >= 1
    decreases |s|
  {
    var i := IndexOf(s, sep);
    if i == |s| then [s] else [s[..i]] + SplitOn(s[i + 1..], sep)
  }

  lemma SplitOnNoSeparator(a: string, sep: char)
    requires sep !in a
    ensures SplitOn(a, sep) == [a]
  {
  }

  lemma SplitOnFirst(a: string, sep: char, b: string)
    requires sep !in a
    ensures SplitOn(a + [sep] + b, sep) == [a] + SplitOn(b, sep)
  {
    var s := a + [sep] + b;
    var i := IndexOf(s, sep);
    assert s[|a|] == sep;
    assert s[..|a|] == a;
    assert forall j :: 0 <= j < |a| ==> s[j] != sep;
    assert i == |a|;
    assert s[..i] == a && s[i + 1..] == b;
  }

  // ---------------------------------------------------------------------------
  // Prefix and substring tests
  // ---------------------------------------------------------------------------

  /** Python's `s.startswith(p)`. */
  predicate StartsWith(s: string, p: string) {
    |p| <= |s| && s[..|p|] == p
  }

  /** Python's `p in s` for strings: `p` occurs in `s` as a substring. */
  predicate Contains(s: string, p: string)
    decreases |s|
  {
    StartsWith(s, p) || (s != [] && Contains(s[1..], p))
  }

  // ---------------------------------------------------------------------------
  // Integers as text
  // ---------------------------------------------------------------------------

  /** Python's `str(n)` for a non-negative int. */
  function NatToString(n: nat): (s: string)
    ensures |s| >= 1 && AllDigits(s)
    decreases n
  {
    if n < 10 then [DigitChar(n)] else NatToString(n / 10) + [DigitChar(n % 10)]
  }

  /** The `:02d` format of a non-negative int: at least two digits, zero-padded. */
  function Pad2(n: nat): string {
    if n < 10 then ['0'] + NatToString(n) else NatToString(n)
  }

  /** The value of a string of decimal digits, leading zeros allowed. */
  function DigitsValue(s: string): nat
    requires AllDigits(s)
    decreases |s|
  {
    if s == [] then 0 else DigitsValue(s[..|s| - 1]) * 10 + DigitValue(s[|s| - 1])
  }

  /**
   * Python's `int(t)` on a string without whitespace: an optional sign
   * followed by at least one decimal digit; anything else is a ValueError,
   * here `None`.
   */
  function ParseInt(t: string): Option<int> {
    if t != [] && (t[0] == '-' || t[0] == '+') then
      var rest := t[1..];
      if rest != [] && AllDigits(rest) then
        var v: int := DigitsValue(rest);
        Some(if t[0] == '-' then -v else v)
      else None
    else if t != [] && AllDigits(t) then Some(DigitsValue(t))
    else None
  }

  lemma {:induction false} DigitsValueOfNatToString(n: nat)
    ensures DigitsValue(NatToString(n)) == n
    decreases n
  {
    if n >= 10 {
      var a := NatToString(n / 10);
      var s := a + [DigitChar(n % 10)];
      assert s[..|s| - 1] == a;
      DigitsValueOfNatToString(n / 10);
    }
  }

  /** `int(str(n)) == n`. */
  lemma ParseNatToString(n: nat)
    ensures ParseInt(NatToString(n)) == Some(n)
  {
    DigitsValueOfNatToString(n);
    var s := NatToString(n);
    assert IsDigit(s[0]);
  }

  /** `str` is injective on non-negative ints. */
  lemma NatToStringInjective(a: nat, b: nat)
    requires NatToString(a) == NatToString(b)
    ensures a == b
  {
    DigitsValueOfNatToString(a);
    DigitsValueOfNatToString(b);
  }

  /** For values below 100 the `:02d` format is exactly two digits. */
  lemma Pad2TwoDigits(n: nat)
    requires n < 100
    ensures Pad2(n) == [DigitChar(n / 10), DigitChar(n % 10)]
  {
    if n >= 10 {
      assert NatToString(n / 10) == [DigitChar(n / 10)];
    }
  }

  /** `int(f"{n:02d}") == n`: a leading zero does not change the value. */
  lemma ParsePad2(n: nat)
    ensures ParseInt(Pad2(n)) == Some(n)
  {
    if n < 10 {
      var s := Pad2(n);
      assert s == ['0', DigitChar(n)];
      assert s[..1] == ['0'] && ['0'][..0] == [];
      assert DigitsValue(['0']) == 0;
      assert DigitsValue(s) == n;
    } else {
      ParseNatToString(n);
    }
  }

  // ---------------------------------------------------------------------------
  // Code-point (lexicographic) order, as Python compares strings
  // ---------------------------------------------------------------------------

  /** Python's `a < b` on strings. */
  predicate LexLess(a: string, b: string)
    decreases |a|
  {
    if a == [] then b != []
    else if b == [] then false
    else a[0] < b[0] || (a[0] == b[0] && LexLess(a[1..], b[1..]))
  }

  lemma {:induction false} LexLessIrreflexive(a: string)
    ensures !LexLess(a, a)
    decreases |a|
  {
    if a != [] { LexLessIrreflexive(a[1..]); }
  }

  lemma {:induction false} LexLessTransitive(a: string, b: string, c: string)
    requires LexLess(a, b) && LexLess(b, c)
    ensures LexLess(a, c)
    decreases |a|
  {
    if a != [] && a[0] == b[0] && b[0] == c[0] {
      LexLessTransitive(a[1..], b[1..], c[1..]);
    }
  }

  lemma {:induction false} LexLessTotal(a: string, b: string)
    requires a != b
    ensures LexLess(a, b) || LexLess(b, a)
    decreases |a|
  {
    if a != [] && b != [] && a[0] == b[0] {
      assert a == [a[0]] + a[1..] && b == [b[0]] + b[1..];
      LexLessTotal(a[1..], b[1..]);
    }
  }

  /** Comparing two strings that share the length of their first parts. */
  lemma {:induction false} LexLessConcat(a: string, b: string, c: string, d: string)
    requires |a| == |c|
    ensures LexLess(a + b, c + d) <==> LexLess(a, c) || (a == c && LexLess(b, d))
    decreases |a|
  {
    if a != [] {
      assert (a + b)[0] == a[0] && (c + d)[0] == c[0];
      assert (a + b)[1..] == a[1..] + b && (c + d)[1..] == c[1..] + d;
      assert a == [a[0]] + a[1..] && c == [c[0]] + c[1..];
      assert a == c <==> a[0] == c[0] && a[1..] == c[1..];
      LexLessConcat(a[1..], b, c[1..], d);
    } else {
      assert a + b == b && c + d == d;
    }
  }

  /** Digit strings of the same length compare as the numbers they denote. */
  lemma {:induction false} LexLessNatToString(x: nat, y: nat)
    requires |NatToString(x)| == |NatToString(y)|
    ensures LexLess(NatToString(x), NatToString(y)) <==> x < y
    decreases x
  {
    if x < 10 || y < 10 {
      assert x < 10 && y < 10;
    } else {
      var a, b := NatToString(x / 10), NatToString(y / 10);
      LexLessConcat(a, [DigitChar(x % 10)], b, [DigitChar(y % 10)]);
      LexLessNatToString(x / 10, y / 10);
      if a == b { NatToStringInjective(x / 10, y / 10); }
    }
  }

  /** Two-digit `:02d` strings compare as the numbers they denote. */
  lemma LexLessPad2(x: nat, y: nat)
    requires x < 100 && y < 100
    ensures LexLess(Pad2(x), Pad2(y)) <==> x < y
  {
    Pad2TwoDigits(x);
    Pad2TwoDigits(y);
    var p, q := Pad2(x), Pad2(y);
    assert p[1..] == [DigitChar(x % 10)] && q[1..] == [DigitChar(y % 10)];
    assert p[1..][1..] == [] && q[1..][1..] == [];
    assert DigitChar(x / 10) < DigitChar(y / 10) <==> x / 10 < y / 10;
    assert DigitChar(x % 10) < DigitChar(y % 10) <==> x % 10 < y % 10;
    assert DigitChar(x / 10) == DigitChar(y / 10) <==> x / 10 == y / 10;
    assert !LexLess([], []);
    assert LexLess(p[1..], q[1..]) <==> x % 10 < y % 10;
    assert LexLess(p, q) <==> x / 10 < y / 10 || (x / 10 == y / 10 && x % 10 < y % 10);
    assert x == x / 10 * 10 + x % 10 && y == y / 10 * 10 + y % 10;
  }
}
