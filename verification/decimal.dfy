/**
 * Rendering of non-negative integers inside a JavaScript template literal
 * (`${n}`): base ten, most significant digit first, no leading zeros.
 * Used for move numbers in the move list and for row/column numbers in
 * position labels.
 */
module Decimal {

  predicate IsDigit(c: char) {
    '0' <= c <= '9'
  }

  predicate AllDigits(s: string) {
    forall i :: 0 <= i < |s| ==> IsDigit(s[i])
  }

  function DigitChar(d: nat): (c: char)
    requires d < 10
    ensures IsDigit(c)
  {
    ('0' as int + d) as char
  }

  function DigitValue(c: char): (d: nat)
    requires IsDigit(c)
    ensures d < 10 && DigitChar(d) == c
  {
    c as int - '0' as int
  }

  /** The decimal text of `n`. */
  function DecimalString(n: nat): (s: string)
    ensures |s| >= 1 && AllDigits(s)
    ensures s[0] == '0' <==> n == 0
    ensures n < 10 <==> |s| == 1
  {
    if n < 10 then [DigitChar(n)] else DecimalString(n / 10) + [DigitChar(n % 10)]
  }

  /** The number a string of digits denotes (the inverse reading). */
  function DecimalValue(s: string): nat
    requires AllDigits(s)
  {
    if s == [] then 0 else 10 * DecimalValue(s[..|s| - 1]) + DigitValue(s[|s| - 1])
  }

  lemma {:induction false} DecimalRoundTrip(n: nat)
    ensures DecimalValue(DecimalString(n)) == n
  {
    if n >= 10 {
      var s := DecimalString(n);
      assert s[..|s| - 1] == DecimalString(n / 10);
      DecimalRoundTrip(n / 10);
    }
  }

  /** Distinct numbers are rendered as distinct texts. */
  lemma DecimalStringInjective(a: nat, b: nat)
    ensures DecimalString(a) == DecimalString(b) ==> a == b
  {
    DecimalRoundTrip(a);
    DecimalRoundTrip(b);
  }

  /**
   * A digit run followed by a non-digit can be split off unambiguously:
   * if `u + p == v + q` with `u`, `v` all digits and `p`, `q` both starting
   * with a non-digit, then `u == v` and `p == q`.
   */
  lemma {:induction false} DigitPrefixUnique(u: string, p: string, v: string, q: string)
    requires AllDigits(u) && AllDigits(v)
    requires |p| > 0 && !IsDigit(p[0])
    requires |q| > 0 && !IsDigit(q[0])
    requires u + p == v + q
    ensures u == v && p == q
  {
    assert u == (u + p)[..|u|];
    assert v == (v + q)[..|v|];
  }
}
