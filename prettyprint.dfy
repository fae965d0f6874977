/**
 * The text form of a range used in the staleness warning,
 * `(L:C)-(L:C)` with one-based lines and zero-based characters, together with
 * a reader for that form, so that what the warning prints can be read back.
 */
module PrettyPrint {
  import opened Common
  import opened Positions

  predicate IsDigit(c: char) {
    '0' <= c <= '9'
  }

  predicate AllDigits(s: string) {
    forall i :: 0 <= i < |s| ==> IsDigit(s[i])
  }

  function DigitChar(d: nat): (c: char)
    requires d < 10
    ensures IsDigit(c)
  {
    (48 + d) as char
  }

  function DigitValue(c: char): nat
    requires IsDigit(c)
  {
    c as int - 48
  }

  /** Decimal notation of `n` without leading zeros, as a template literal prints it. */
  function NatToString(n: nat): (s: string)
    ensures |s| > 0 && AllDigits(s)
    ensures (s[0] == '0') == (n == 0)
    ensures |s| > 1 ==> s[0] != '0'
  {
    if n < 10 then [DigitChar(n)] else NatToString(n / 10) + [DigitChar(n % 10)]
  }

  /** The number a string of decimal digits denotes. */
  function Value(digits: string): nat
    requires AllDigits(digits)
  {
    if digits == [] then 0
    else Value(digits[..|digits| - 1]) * 10 + DigitValue(digits[|digits| - 1])
  }

  lemma {:induction false} ValueOfNatToString(n: nat)
    ensures Value(NatToString(n)) == n
  {
    var s := NatToString(n);
    if n >= 10 {
      ValueOfNatToString(n / 10);
      assert s[..|s| - 1] == NatToString(n / 10);
    }
  }

  /** The length of the longest run of digits that `s` starts with. */
  function DigitRun(s: string): (k: nat)
    ensures k <= |s|
    ensures AllDigits(s[..k])
    ensures k < |s| ==> !IsDigit(s[k])
  {
    if s != [] && IsDigit(s[0]) then
      var k := 1 + DigitRun(s[1..]);
      assert forall i :: 1 <= i < k ==> s[..k][i] == s[1..][..k - 1][i - 1];
      k
    else 0
  }

  /**
   * Reads a decimal number off the front of `s`; fails when `s` does not
   * start with a digit or when its digits have a leading zero.
   */
  function ReadNumber(s: string): Option<(nat, string)> {
    var k := DigitRun(s);
    if k == 0 || (k > 1 && s[0] == '0') then None else Some((Value(s[..k]), s[k..]))
  }

  /** Reads the character `c` off the front of `s`. */
  function ReadChar(c: char, s: string): Option<string> {
    if s != [] && s[0] == c then Some(s[1..]) else None
  }

  lemma {:induction false} DigitRunOf(digits: string, rest: string)
    requires AllDigits(digits)
    requires rest == [] || !IsDigit(rest[0])
    ensures DigitRun(digits + rest) == |digits|
    decreases |digits|
  {
    if digits != [] {
      assert (digits + rest)[1..] == digits[1..] + rest;
      DigitRunOf(digits[1..], rest);
    }
  }

  /** A printed number followed by a non-digit is read back as that number. */
  lemma ReadNumberOf(n: nat, rest: string)
    requires rest == [] || !IsDigit(rest[0])
    ensures ReadNumber(NatToString(n) + rest) == Some((n, rest))
  {
    var d := NatToString(n);
    DigitRunOf(d, rest);
    assert (d + rest)[..|d|] == d;
    assert (d + rest)[|d|..] == rest;
    ValueOfNatToString(n);
  }

  /** `line:character`, both printed in decimal. */
  function PointText(line: nat, character: nat): string {
    NatToString(line) + ":" + NatToString(character)
  }

  /** Reads `line:character` off the front of `s`. */
  function ReadPoint(s: string): Option<(nat, nat, string)> {
    var a :- ReadNumber(s);
    var s1 :- ReadChar(':', a.1);
    var b :- ReadNumber(s1);
    Some((a.0, b.0, b.1))
  }

  /** Reads `(L:C)-(L:C)` back into its four numbers. */
  function ParseRange(s: string): Option<(nat, nat, nat, nat)> {
    var s0 :- ReadChar('(', s);
    var p :- ReadPoint(s0);
    var s1 :- ReadChar(')', p.2);
    var s2 :- ReadChar('-', s1);
    var s3 :- ReadChar('(', s2);
    var q :- ReadPoint(s3);
    var s4 :- ReadChar(')', q.2);
    if s4 == [] then Some((p.0, p.1, q.0, q.1)) else None
  }

  lemma ReadPointOf(line: nat, character: nat, rest: string)
    requires rest == [] || !IsDigit(rest[0])
    ensures ReadPoint(PointText(line, character) + rest) == Some((line, character, rest))
  {
    var tail := ":" + (NatToString(character) + rest);
    assert PointText(line, character) + rest == NatToString(line) + tail;
    ReadNumberOf(line, tail);
    assert ReadChar(':', tail) == Some(NatToString(character) + rest);
    ReadNumberOf(character, rest);
  }

  lemma ReadCharOf(c: char, rest: string)
    ensures ReadChar(c, [c] + rest) == Some(rest)
  {
    assert ([c] + rest)[1..] == rest;
  }

  /** `ParseRange` succeeds when each of its steps does. */
  lemma ParseRangeOf(s: string, s0: string, t0: string, s1: string, s2: string, s3: string, t1: string,
                     a: nat, b: nat, c: nat, d: nat)
    requires ReadChar('(', s) == Some(s0)
    requires ReadPoint(s0) == Some((a, b, t0))
    requires ReadChar(')', t0) == Some(s1)
    requires ReadChar('-', s1) == Some(s2)
    requires ReadChar('(', s2) == Some(s3)
    requires ReadPoint(s3) == Some((c, d, t1))
    requires ReadChar(')', t1) == Some([])
    ensures ParseRange(s) == Some((a, b, c, d))
  {
  }

  /**
   * `prettyPrintRange`: lines are printed one-based, characters as they are,
   * as `(L:C)-(L:C)`. The printed text reads back as the one-based start
   * line, the start character, the one-based end line and the end character.
   */
  function PrettyPrintRange(r: Range): (printed: string)
    ensures ParseRange(printed) ==
      Some((r.start.line + 1, r.start.character, r.end.line + 1, r.end.character))
  {
    var n1, n2, n3, n4 := r.start.line + 1, r.start.character, r.end.line + 1, r.end.character;
    var p, q := PointText(n1, n2), PointText(n3, n4);
    var s := "(" + p + ")-(" + q + ")";
    var s3 := q + ")";
    var s2 := ['('] + s3;
    var s1 := ['-'] + s2;
    var t0 := [')'] + s1;
    var s0 := p + t0;
    assert s == ['('] + s0;
    ReadCharOf('(', s0);
    ReadPointOf(n1, n2, t0);
    ReadCharOf(')', s1);
    ReadCharOf('-', s2);
    ReadCharOf('(', s3);
    ReadPointOf(n3, n4, ")");
    ReadCharOf(')', []);
    assert [')'] + [] == ")";
    ParseRangeOf(s, s0, t0, s1, s2, s3, ")", n1, n2, n3, n4);
    s
  }
}
