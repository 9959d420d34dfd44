/**
 * Decimal digit strings: the zero-padded fields of an ISO date and the
 * fixed-point text that Number.prototype.toFixed(2) produces
 * (ECMA-262, 10th edition, section 20.1.3.3).
 */
module Decimal {
  import opened Wrappers

  predicate IsDigit(c: char) {
    '0' <= c <= '9'
  }

  predicate AllDigits(s: string) {
    forall i :: 0 <= i < |s| ==> IsDigit(s[i])
  }

  function DigitChar(d: nat): (c: char)
    requires d < 10
    ensures IsDigit(c)
  {
    ('0' as int + d) as char
  }

  function DigitValue(c: char): (d: nat)
    requires IsDigit(c)
    ensures d < 10 && DigitChar(d) == c
  {
    c as int - '0' as int
  }

  function Pow10(w: nat): (p: nat)
    ensures p >= 1
  {
    if w == 0 then 1 else 10 * Pow10(w - 1)
  }

  /** The number a digit string denotes (most significant digit first). */
  function DigitsValue(s: string): (n: nat)
    requires AllDigits(s)
    ensures n < Pow10(|s|)
  {
    if s == [] then 0 else DigitsValue(s[..|s| - 1]) * 10 + DigitValue(s[|s| - 1])
  }

  /** The decimal digits of n with no leading zero ("0" for zero). */
  function NatText(n: nat): (s: string)
    ensures 1 <= |s| && AllDigits(s)
    ensures s[0] == '0' <==> n == 0
  {
    if n < 10 then [DigitChar(n)] else NatText(n / 10) + [DigitChar(n % 10)]
  }

  /** Exactly w decimal digits of n, zero-padded on the left. */
  function PadText(n: nat, w: nat): (s: string)
    requires n < Pow10(w)
    ensures |s| == w && AllDigits(s)
  {
    if w == 0 then [] else PadText(n / 10, w - 1) + [DigitChar(n % 10)]
  }

  lemma {:induction false} DigitsValueSnoc(s: string, c: char)
    requires AllDigits(s) && IsDigit(c)
    ensures AllDigits(s + [c]) && DigitsValue(s + [c]) == DigitsValue(s) * 10 + DigitValue(c)
  {
    assert (s + [c])[..|s|] == s;
  }

  /** Reading NatText back gives the number. */
  lemma {:induction false} NatTextValue(n: nat)
    ensures DigitsValue(NatText(n)) == n
  {
    if n >= 10 {
      NatTextValue(n / 10);
      DigitsValueSnoc(NatText(n / 10), DigitChar(n % 10));
    }
  }

  /** Reading PadText back gives the number. */
  lemma {:induction false} PadTextValue(n: nat, w: nat)
    requires n < Pow10(w)
    ensures DigitsValue(PadText(n, w)) == n
  {
    if w > 0 {
      PadTextValue(n / 10, w - 1);
      DigitsValueSnoc(PadText(n / 10, w - 1), DigitChar(n % 10));
    }
  }

  /**
   * The integer n of toFixed(2) for a non-negative x: the n for which
   * n / 100 - x is as close to zero as possible, the larger one on a tie.
   */
  function RoundCents(x: real): (n: int)
    ensures -0.5 < n as real - 100.0 * x <= 0.5
    ensures x >= 0.0 ==> n >= 0
  {
    (100.0 * x + 0.5).Floor
  }

  /** Hundredths as text: integer part without leading zeros, ".", two digits. */
  function CentsText(n: nat): string {
    NatText(n / 100) + "." + PadText(n % 100, 2)
  }

  /** x.toFixed(2) for |x| < 10^21: a "-" for a negative x, then the rounded magnitude. */
  function Fixed2(x: real): string {
    if x < 0.0 then "-" + CentsText(RoundCents(-x)) else CentsText(RoundCents(x))
  }

  /** The signed number of hundredths that Fixed2(x) shows. */
  function SignedCents(x: real): (n: int)
    ensures -0.5 <= n as real - 100.0 * x <= 0.5
  {
    if x < 0.0 then -RoundCents(-x) else RoundCents(x)
  }

  /** Reads "<digits>.<two digits>" back as a number of hundredths. */
  function ParseCents(s: string): Option<nat> {
    if |s| >= 4 && s[|s| - 3] == '.' && AllDigits(s[..|s| - 3]) && AllDigits(s[|s| - 2..]) then
      Some(DigitsValue(s[..|s| - 3]) * 100 + DigitsValue(s[|s| - 2..]))
    else
      None
  }

  /** Reads a Fixed2 text back as a signed number of hundredths. */
  function ParseFixed2(s: string): Option<int> {
    if |s| > 0 && s[0] == '-' then
      var n :- ParseCents(s[1..]);
      Some(-(n as int))
    else
      var n :- ParseCents(s);
      Some(n as int)
  }

  lemma CentsTextRoundTrip(n: nat)
    ensures ParseCents(CentsText(n)) == Some(n)
  {
    var s := CentsText(n);
    var whole, frac := NatText(n / 100), PadText(n % 100, 2);
    assert s[..|s| - 3] == whole;
    assert s[|s| - 2..] == frac;
    NatTextValue(n / 100);
    PadTextValue(n % 100, 2);
  }

  /** Every character of a Fixed2 text is a digit, '.', or a leading '-'. */
  lemma Fixed2Chars(x: real)
    ensures forall i :: 0 <= i < |Fixed2(x)| ==>
      IsDigit(Fixed2(x)[i]) || Fixed2(x)[i] == '.' || (i == 0 && Fixed2(x)[i] == '-')
  {
  }

  /** toFixed(2) loses nothing but the rounding to hundredths. */
  lemma Fixed2RoundTrip(x: real)
    ensures ParseFixed2(Fixed2(x)) == Some(SignedCents(x))
  {
    if x < 0.0 {
      var n := RoundCents(-x);
      CentsTextRoundTrip(n);
      assert Fixed2(x)[1..] == CentsText(n);
    } else {
      CentsTextRoundTrip(RoundCents(x));
    }
  }
}
