/** Numeric and textual conventions shared by the server and the client:
    JavaScript's `Math.round`, absent values, and decimal rendering of integers. */
module Common {

  datatype Option<+T> = None | Some(value: T) {
    function GetOr(default: T): T {
      match this
      case Some(v) => v
      case None => default
    }
  }

  /** `q || 0` on an optional number: an absent (null or undefined) value and a zero both read as 0. */
  function QualityOrZero(q: Option<real>): real {
    if q.Some? then q.value else 0.0
  }

  function Min(a: int, b: int): int { if a <= b then a else b }

  /** `Math.round(x)`: the nearest integer, halves rounded towards +infinity. */
  function RoundReal(x: real): (r: int)
    ensures r as real - 0.5 <= x < r as real + 0.5
  {
    (x + 0.5).Floor
  }

  /** The integer that `Math.round` picks is the only one within [-1/2, 1/2) of x. */
  lemma RoundRealUnique(x: real, k: int)
    requires k as real - 0.5 <= x < k as real + 0.5
    ensures RoundReal(x) == k
  {
    var r := RoundReal(x);
    assert r as real - k as real < 1.0 && k as real - r as real < 1.0;
  }

  lemma RoundRealOfInt(k: int)
    ensures RoundReal(k as real) == k
  {
    RoundRealUnique(k as real, k);
  }

  /** Rounding never reverses the order of two values. */
  lemma RoundRealMonotone(x: real, y: real)
    requires x <= y
    ensures RoundReal(x) <= RoundReal(y)
  {
  }

  /** A rounded value stays within integer bounds of the rounded quantity. */
  lemma RoundRealBetween(x: real, lo: int, hi: int)
    requires lo as real <= x <= hi as real
    ensures lo <= RoundReal(x) <= hi
  {
    RoundRealMonotone(lo as real, x);
    RoundRealMonotone(x, hi as real);
    RoundRealOfInt(lo);
    RoundRealOfInt(hi);
  }

  function DigitChar(d: nat): (c: char)
    requires d < 10
    ensures '0' <= c <= '9' && (c as int) - ('0' as int) == d
  {
    ['0', '1', '2', '3', '4', '5', '6', '7', '8', '9'][d]
  }

  /** Decimal rendering of a natural number, as a template literal shows an integer. */
  function NatToString(n: nat): (s: string)
    ensures |s| > 0 && forall i :: 0 <= i < |s| ==> '0' <= s[i] <= '9'
    decreases n
  {
    if n < 10 then [DigitChar(n)] else NatToString(n / 10) + [DigitChar(n % 10)]
  }

  /** Decimal rendering of an integer: a leading '-' for negative numbers. */
  function IntToString(i: int): (s: string)
    ensures |s| > 0
    ensures (s[0] == '-') <==> i < 0
  {
    if i < 0 then "-" + NatToString(-i) else NatToString(i)
  }

  /** The value of a string of decimal digits. */
  function DecimalValue(s: string): nat
    requires forall i :: 0 <= i < |s| ==> '0' <= s[i] <= '9'
  {
    if s == [] then 0 else 10 * DecimalValue(s[..|s| - 1]) + ((s[|s| - 1] as int) - ('0' as int))
  }

  /** Reading back the digits gives the number that was rendered. */
  lemma {:induction false} NatToStringRoundTrip(n: nat)
    ensures DecimalValue(NatToString(n)) == n
  {
    var s := NatToString(n);
    if n >= 10 {
      NatToStringRoundTrip(n / 10);
      assert s[..|s| - 1] == NatToString(n / 10);
    }
  }
}
