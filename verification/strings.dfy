/**
  * The few pieces of Python's text handling the modelled code relies on:
  * str() of an integer, repetition of a one-character string, right
  * alignment in a format field, str.center and str.join.
  */
module Strings {

  predicate IsDigit(c: char) {
    '0' <= c <= '9'
  }

  predicate AllDigits(s: string) {
    forall i :: 0 <= i < |s| ==> IsDigit(s[i])
  }

  function DigitChar(d: int): (c: char)
    requires 0 <= d < 10
    ensures IsDigit(c)
  {
    (48 + d) as char
  }

  function DigitValue(c: char): (d: int)
    requires IsDigit(c)
    ensures 0 <= d < 10
  {
    c as int - 48
  }

  /** str(n) for a natural number: its decimal digits, without leading zeros. */
  function NatToString(n: nat): (r: string)
    ensures |r| >= 1 && AllDigits(r)
    ensures r[0] == '0' ==> r == "0"
    decreases n
  {
    if n < 10 then [DigitChar(n)] else NatToString(n / 10) + [DigitChar(n % 10)]
  }

  /** The number a string of decimal digits denotes. */
  function DecimalValue(s: string): int
    requires AllDigits(s)
  {
    if s == [] then 0 else DecimalValue(s[..|s| - 1]) * 10 + DigitValue(s[|s| - 1])
  }

  /** Reading str(n) back gives n. */
  lemma {:induction false} DecimalRoundTrip(n: nat)
    ensures DecimalValue(NatToString(n)) == n
    decreases n
  {
    if n >= 10 {
      DecimalRoundTrip(n / 10);
      var s := NatToString(n);
      assert s[..|s| - 1] == NatToString(n / 10);
    }
  }

  /** str(i) for any integer: a minus sign in front of the digits of a negative number. */
  function IntToString(i: int): (r: string)
    ensures |r| >= 1
    ensures i < 0 <==> r[0] == '-'
    ensures i >= 0 ==> AllDigits(r) && DecimalValue(r) == i
    ensures i < 0 ==> r[1..] == NatToString(-i) && AllDigits(r[1..]) && DecimalValue(r[1..]) == -i
  {
    DecimalRoundTrip(if i < 0 then -i else i);
    if i < 0 then "-" + NatToString(-i) else NatToString(i)
  }

  /** The Python expression c * k for a one-character string c: empty when k <= 0. */
  function Repeat(c: char, k: int): (r: string)
    ensures |r| == (if k < 0 then 0 else k)
    ensures forall i :: 0 <= i < |r| ==> r[i] == c
    decreases k
  {
    if k <= 0 then [] else [c] + Repeat(c, k - 1)
  }

  /** Leading zeros do not change the value of a digit string. */
  lemma {:induction false} LeadingZeros(k: int, s: string)
    requires AllDigits(s)
    ensures AllDigits(Repeat('0', k) + s)
    ensures DecimalValue(Repeat('0', k) + s) == DecimalValue(s)
    decreases |s|, k
  {
    var z := Repeat('0', k);
    var t := z + s;
    if s == [] {
      assert t == z;
      if k > 0 {
        LeadingZeros(k - 1, s);
        assert t[..|t| - 1] == Repeat('0', k - 1) + s;
      }
    } else {
      LeadingZeros(k, s[..|s| - 1]);
      assert t[..|t| - 1] == z + s[..|s| - 1];
    }
  }

  /** f"{s: >width}": s right-aligned in a field of the given width, never cut. */
  function PadLeft(s: string, width: int): (r: string)
    ensures |r| == (if |s| < width then width else |s|)
    ensures r[|r| - |s|..] == s
    ensures forall i :: 0 <= i < |r| - |s| ==> r[i] == ' '
  {
    Repeat(' ', width - |s|) + s
  }

  /**
    * s.center(width): the margin width - |s| split so that the left part is
    * half the margin, plus one when both the margin and the width are odd.
    */
  function Center(s: string, width: int): (r: string)
    ensures |s| >= width ==> r == s
    ensures |r| == (if |s| < width then width else |s|)
  {
    var margin := width - |s|;
    if margin <= 0 then s
    else
      var left := margin / 2 + (if margin % 2 == 1 && width % 2 == 1 then 1 else 0);
      Repeat(' ', left) + s + Repeat(' ', margin - left)
  }

  /** sep.join(parts) */
  function Join(sep: string, parts: seq<string>): (r: string)
    ensures parts == [] ==> r == ""
    ensures |parts| == 1 ==> r == parts[0]
  {
    if parts == [] then ""
    else if |parts| == 1 then parts[0]
    else parts[0] + sep + Join(sep, parts[1..])
  }

  /** Each part with the separator in front of it, all concatenated. */
  function Prefixed(sep: string, parts: seq<string>): string
    decreases |parts|
  {
    if parts == [] then "" else Prefixed(sep, parts[..|parts| - 1]) + sep + parts[|parts| - 1]
  }

  /** A join adds one more part at its end as the separator followed by that part. */
  lemma {:induction false} JoinAppend(sep: string, parts: seq<string>, p: string)
    requires parts != []
    ensures Join(sep, parts + [p]) == Join(sep, parts) + sep + p
    decreases |parts|
  {
    var all := parts + [p];
    if |parts| > 1 {
      assert all[1..] == parts[1..] + [p];
      JoinAppend(sep, parts[1..], p);
    }
  }

  /** The last part of a join of two or more follows the separator at the very end. */
  lemma JoinLast(sep: string, parts: seq<string>)
    requires |parts| >= 2
    ensures Join(sep, parts) == Join(sep, parts[..|parts| - 1]) + sep + parts[|parts| - 1]
  {
    assert parts[..|parts| - 1] + [parts[|parts| - 1]] == parts;
    JoinAppend(sep, parts[..|parts| - 1], parts[|parts| - 1]);
  }

  /**
    * A join is the first part followed by every later part with the
    * separator in front: separators only between parts, none at the end.
    */
  lemma {:induction false} JoinIsFirstThenPrefixed(sep: string, parts: seq<string>)
    requires parts != []
    ensures Join(sep, parts) == parts[0] + Prefixed(sep, parts[1..])
    decreases |parts|
  {
    if |parts| > 1 {
      var init := parts[..|parts| - 1];
      JoinIsFirstThenPrefixed(sep, init);
      assert init + [parts[|parts| - 1]] == parts;
      JoinAppend(sep, init, parts[|parts| - 1]);
      assert parts[1..][..|parts[1..]| - 1] == init[1..];
    }
  }
}
