/** Prices, cents and currency codes. */
module Money {

  /** Rounding to the nearest integer, halves away from zero (ROUND_HALF_UP). */
  function RoundHalfUp(x: real): (n: int)
    ensures x - 0.5 <= n as real <= x + 0.5
    ensures n as real == x + 0.5 ==> x > 0.0
    ensures n as real == x - 0.5 ==> x < 0.0
  {
    if x >= 0.0 then (x + 0.5).Floor else -((-x + 0.5).Floor)
  }

  /** A decimal price in integer minor units. */
  function ToCents(amount: real): int {
    RoundHalfUp(amount * 100.0)
  }

  /** A price as the database stores it, with two decimals. */
  predicate TwoDecimals(amount: real) {
    (amount * 100.0).Floor as real == amount * 100.0
  }

  lemma RoundsToItself(x: real)
    requires x.Floor as real == x
    ensures RoundHalfUp(x) as real == x
  {
    var n := x.Floor;
    assert (n as real + 0.5).Floor == n;
    assert (-(n as real) + 0.5).Floor == -n;
  }

  /** Nothing is lost for a two-decimal price, so distinct prices are distinct amounts of cents. */
  lemma CentsAreExact(amount: real)
    requires TwoDecimals(amount)
    ensures ToCents(amount) as real == amount * 100.0
  {
    RoundsToItself(amount * 100.0);
  }

  lemma DistinctPricesDistinctCents(a: real, b: real)
    requires TwoDecimals(a) && TwoDecimals(b) && a != b
    ensures ToCents(a) != ToCents(b)
  {
    CentsAreExact(a);
    CentsAreExact(b);
  }

  function UpperChar(c: char): char {
    if 'a' <= c <= 'z' then (c as int - 32) as char else c
  }

  /** `str.upper()` on the letters currency codes are made of. */
  function Upper(s: string): (r: string)
    ensures |r| == |s|
    ensures forall i :: 0 <= i < |s| ==> r[i] == UpperChar(s[i])
  {
    seq(|s|, i requires 0 <= i < |s| => UpperChar(s[i]))
  }
}
