/**
 * Decimal rendering of integers: an optional minus sign, then the digits of
 * the magnitude, most significant first, without leading zeros.  This is what
 * JavaScript's `String(n)` gives for an integral number of magnitude below
 * 10^21 that a double holds exactly; larger numbers print in exponent form
 * (`1e+21`) or lose digits, and the model does not cover them.
 *
 * The adapter uses it twice: when a numeric tool argument such as `limit` is
 * written into the query string, and when the HTTP status is written into the
 * message of a failed upstream call.  `ParseNat` is the inverse used to state
 * that nothing is lost in the rendering.
 */
module Decimal {

  predicate IsDigit(c: char) {
    '0' <= c <= '9'
  }

  predicate AllDigits(s: string) {
    forall i :: 0 <= i < |s| ==> IsDigit(s[i])
  }

  /** A digit string as `String(n)` writes it: non-empty, and no leading zero unless it is "0". */
  predicate Canonical(s: string) {
    |s| >= 1 && AllDigits(s) && (|s| > 1 ==> s[0] != '0')
  }

  function DigitChar(d: nat): (c: char)
    requires d < 10
    ensures IsDigit(c) && c as int - '0' as int == d
  {
    ('0' as int + d) as char
  }

  function DigitValue(c: char): (d: nat)
    requires IsDigit(c)
    ensures d < 10 && DigitChar(d) == c
  {
    c as int - '0' as int
  }

  /** `String(n)` for a non-negative integer. */
  function NatToString(n: nat): (s: string)
    ensures Canonical(s)
    ensures n < 10 <==> |s| == 1
    decreases n
  {
    if n < 10 then [DigitChar(n)] else NatToString(n / 10) + [DigitChar(n % 10)]
  }

  /** `String(i)` for any integer. */
  function IntToString(i: int): (s: string)
    ensures |s| >= 1
    ensures i >= 0 ==> Canonical(s)
    ensures i < 0 ==> s[0] == '-' && Canonical(s[1..])
  {
    if i < 0 then "-" + NatToString(-i) else NatToString(i)
  }

  /** The value of a string of decimal digits (the empty string reads as 0). */
  function ParseNat(s: string): nat
    requires AllDigits(s)
  {
    if s == [] then 0 else ParseNat(s[..|s| - 1]) * 10 + DigitValue(s[|s| - 1])
  }

  lemma {:induction false} ParseNatToString(n: nat)
    ensures ParseNat(NatToString(n)) == n
    decreases n
  {
    if n >= 10 {
      var p := NatToString(n / 10);
      var s := NatToString(n);
      assert s == p + [DigitChar(n % 10)];
      assert s[..|s| - 1] == p;
      ParseNatToString(n / 10);
    }
  }

  lemma {:induction false} ParseNatPositive(s: string)
    requires Canonical(s) && s[0] != '0'
    ensures ParseNat(s) >= 1
    decreases |s|
  {
    if |s| > 1 {
      var p := s[..|s| - 1];
      assert p[0] == s[0];
      ParseNatPositive(p);
    }
  }

  lemma {:induction false} NatToStringParse(s: string)
    requires Canonical(s)
    ensures NatToString(ParseNat(s)) == s
    decreases |s|
  {
    var p := s[..|s| - 1];
    var d := DigitValue(s[|s| - 1]);
    if |s| == 1 {
      assert ParseNat(p) == 0;
    } else {
      assert p[0] == s[0];
      ParseNatPositive(p);
      NatToStringParse(p);
      var n := ParseNat(s);
      assert n == ParseNat(p) * 10 + d;
      assert n / 10 == ParseNat(p) && n % 10 == d;
      assert s == p + [s[|s| - 1]];
    }
  }

  /** Rendering is injective: two statuses or two limits never print alike. */
  lemma NatToStringInjective(m: nat, n: nat)
    requires NatToString(m) == NatToString(n)
    ensures m == n
  {
    ParseNatToString(m);
    ParseNatToString(n);
  }
}
