/**
 * The parts of Kotlin's and SQLite's string handling that the address book relies on:
 * `isBlank`, `trim`, `contains(ignoreCase = true)`, the BINARY collation that
 * `ORDER BY` uses on text columns, and `Int.toString` inside a string template.
 */
module KotlinText {

  /** Kotlin's `Char.isWhitespace()`: Java whitespace together with the Unicode space separators. */
  predicate IsWhitespace(c: char) {
    || c == ' '
    || ('\t' <= c <= '\r')
    || ('\U{1C}' <= c <= '\U{1F}')
    || c == '\U{A0}' || c == '\U{1680}'
    || ('\U{2000}' <= c <= '\U{200A}')
    || c == '\U{2028}' || c == '\U{2029}' || c == '\U{202F}' || c == '\U{205F}' || c == '\U{3000}'
  }

  /** `String.isBlank()`: empty, or whitespace only. */
  predicate IsBlank(s: string) {
    forall i :: 0 <= i < |s| ==> IsWhitespace(s[i])
  }

  /** Drops the leading whitespace; what is dropped is blank, what is kept starts with a non-blank character. */
  function TrimStart(s: string): (r: string)
    ensures |r| <= |s| && r == s[|s| - |r|..]
    ensures IsBlank(s[..|s| - |r|])
    ensures r == [] || !IsWhitespace(r[0])
  {
    if s != [] && IsWhitespace(s[0]) then
      var r := TrimStart(s[1..]);
      assert s[..|s| - |r|] == [s[0]] + s[1..][..|s| - 1 - |r|];
      r
    else s
  }

  /** Drops the trailing whitespace; what is dropped is blank, what is kept ends with a non-blank character. */
  function TrimEnd(s: string): (r: string)
    ensures |r| <= |s| && r == s[..|r|]
    ensures IsBlank(s[|r|..])
    ensures r == [] || !IsWhitespace(r[|r| - 1])
  {
    if s != [] && IsWhitespace(s[|s| - 1]) then
      var r := TrimEnd(s[..|s| - 1]);
      assert s[|r|..] == s[..|s| - 1][|r|..] + [s[|s| - 1]];
      r
    else s
  }

  /**
   * `String.trim()`: the result is a slice of the input with only whitespace cut off either end; it is empty
   * exactly for blank input, and otherwise neither starts nor ends with whitespace.
   */
  function Trim(s: string): (r: string)
    ensures exists i, j :: 0 <= i <= j <= |s| && r == s[i..j] && IsBlank(s[..i]) && IsBlank(s[j..])
    ensures r == [] <==> IsBlank(s)
    ensures r != [] ==> !IsWhitespace(r[0]) && !IsWhitespace(r[|r| - 1])
    ensures |r| <= |s|
  {
    var t := TrimStart(s);
    var r := TrimEnd(t);
    BlankEndsCut(s, t, r);
    r
  }

  /**
   * Cutting a blank prefix that leaves a non-blank start, then a blank suffix that leaves a non-blank
   * end, leaves a slice with blank text on either side, empty exactly when everything was blank.
   */
  lemma BlankEndsCut(s: string, t: string, r: string)
    requires |t| <= |s| && t == s[|s| - |t|..] && IsBlank(s[..|s| - |t|]) && (t == [] || !IsWhitespace(t[0]))
    requires |r| <= |t| && r == t[..|r|] && IsBlank(t[|r|..]) && (r == [] || !IsWhitespace(r[|r| - 1]))
    ensures exists i, j :: 0 <= i <= j <= |s| && r == s[i..j] && IsBlank(s[..i]) && IsBlank(s[j..])
    ensures r == [] <==> IsBlank(s)
    ensures r != [] ==> !IsWhitespace(r[0]) && !IsWhitespace(r[|r| - 1])
  {
    var i, j := |s| - |t|, |s| - |t| + |r|;
    assert s[i..j] == r;
    assert s[j..] == t[|r|..];
    assert s == s[..i] + s[i..j] + s[j..];
    if r != [] {
      assert r[0] == t[0] && s[i] == r[0];
    }
  }

  /** No whitespace at either end. */
  predicate Trimmed(s: string) {
    s == [] || (!IsWhitespace(s[0]) && !IsWhitespace(s[|s| - 1]))
  }

  /** A string with no whitespace at either end is its own trim. */
  lemma {:induction false} TrimFixed(s: string)
    requires Trimmed(s)
    ensures Trim(s) == s
  {
  }

  /** Kotlin compares characters ignoring case by folding them; only the ASCII letters are folded here. */
  function LowerAscii(c: char): (r: char)
    ensures 'A' <= c <= 'Z' ==> 'a' <= r <= 'z'
    ensures !('A' <= c <= 'Z') ==> r == c
  {
    if 'A' <= c <= 'Z' then (c as int + 32) as char else c
  }

  predicate CharEqualsIgnoreCase(a: char, b: char) {
    LowerAscii(a) == LowerAscii(b)
  }

  /** `q` occurs in `s` at position `k`, ignoring case. */
  predicate RegionMatches(s: string, k: int, q: string) {
    0 <= k && k + |q| <= |s| && forall j :: 0 <= j < |q| ==> CharEqualsIgnoreCase(s[k + j], q[j])
  }

  /**
   * `s.indexOf(q, from, ignoreCase = true)`: the first position at or after `from` where `q`
   * occurs, or -1 when there is none.
   */
  function IndexOfIgnoreCase(s: string, q: string, from: nat): (r: int)
    ensures r == -1 || (from <= r && RegionMatches(s, r, q))
    ensures r == -1 ==> forall k :: from <= k ==> !RegionMatches(s, k, q)
    ensures r != -1 ==> forall k :: from <= k < r ==> !RegionMatches(s, k, q)
    decreases |s| - from
  {
    if from + |q| > |s| then -1
    else if RegionMatches(s, from, q) then from
    else IndexOfIgnoreCase(s, q, from + 1)
  }

  /** `s.contains(q, ignoreCase = true)`, which Kotlin defines as `indexOf(q, ignoreCase = true) >= 0`. */
  predicate ContainsIgnoreCase(s: string, q: string) {
    IndexOfIgnoreCase(s, q, 0) >= 0
  }

  lemma ContainsIgnoreCaseMeans(s: string, q: string)
    ensures ContainsIgnoreCase(s, q) <==> exists k :: RegionMatches(s, k, q)
  {
    if exists k :: RegionMatches(s, k, q) {
      var k :| RegionMatches(s, k, q);
      assert 0 <= k;
    }
  }

  /**
   * SQLite's BINARY collation, which `ORDER BY` applies to a TEXT column: the UTF-8 bytes
   * compared with memcmp, which orders strings by their code points, a prefix first.
   */
  predicate LexLeq(a: string, b: string) {
    a == [] || (b != [] && (a[0] < b[0] || (a[0] == b[0] && LexLeq(a[1..], b[1..]))))
  }

  lemma {:induction false} LexLeqReflexive(a: string)
    ensures LexLeq(a, a)
  {
    if a != [] {
      LexLeqReflexive(a[1..]);
    }
  }

  lemma {:induction false} LexLeqTotal(a: string, b: string)
    ensures LexLeq(a, b) || LexLeq(b, a)
  {
    if a != [] && b != [] && a[0] == b[0] {
      LexLeqTotal(a[1..], b[1..]);
    }
  }

  lemma {:induction false} LexLeqAntisymmetric(a: string, b: string)
    requires LexLeq(a, b) && LexLeq(b, a)
    ensures a == b
  {
    if a != [] && b != [] {
      LexLeqAntisymmetric(a[1..], b[1..]);
      assert a == [a[0]] + a[1..];
      assert b == [b[0]] + b[1..];
    }
  }

  lemma {:induction false} LexLeqTransitive(a: string, b: string, c: string)
    requires LexLeq(a, b) && LexLeq(b, c)
    ensures LexLeq(a, c)
  {
    if a != [] && b != [] && c != [] && a[0] == b[0] && b[0] == c[0] {
      LexLeqTransitive(a[1..], b[1..], c[1..]);
    }
  }

  function DigitChar(d: nat): (c: char)
    requires d < 10
    ensures '0' <= c <= '9'
  {
    ('0' as int + d) as char
  }

  /** The value of a string of decimal digits. */
  function DecimalValue(s: string): nat
    requires forall i :: 0 <= i < |s| ==> '0' <= s[i] <= '9'
  {
    if s == [] then 0 else DecimalValue(s[..|s| - 1]) * 10 + (s[|s| - 1] as int - '0' as int)
  }

  /** `Int.toString()` of a non-negative value: its decimal digits, with no leading zero. */
  function NatToString(n: nat): (s: string)
    ensures s != [] && (forall i :: 0 <= i < |s| ==> '0' <= s[i] <= '9')
    ensures |s| > 1 ==> s[0] != '0'
  {
    if n < 10 then [DigitChar(n)] else NatToString(n / 10) + [DigitChar(n % 10)]
  }

  /** `Int.toString()`: a minus sign before the digits of a negative value. */
  function IntToString(n: int): (s: string)
    ensures s != []
  {
    if n < 0 then "-" + NatToString(-n) else NatToString(n)
  }

  /** Reading back the digits that `NatToString` writes gives the number. */
  lemma {:induction false} NatToStringRoundTrip(n: nat)
    ensures DecimalValue(NatToString(n)) == n
  {
    if n >= 10 {
      NatToStringRoundTrip(n / 10);
      var s := NatToString(n);
      assert s[..|s| - 1] == NatToString(n / 10);
    }
  }
}
