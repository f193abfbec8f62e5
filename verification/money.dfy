/**
 * Exact decimal money, as java.math.BigDecimal computes it. Amounts are reals;
 * the only rounding the engines perform is to two decimal places with
 * RoundingMode.HALF_UP (ties away from zero).
 */
module Money {

  function Abs(x: real): real {
    if x < 0.0 then -x else x
  }

  /** A whole number of cents: a value with at most two decimal places. */
  predicate IsCents(x: real) {
    (x * 100.0).Floor as real == x * 100.0
  }

  /** BigDecimal.setScale(2, RoundingMode.HALF_UP), and divide(divisor, 2, HALF_UP) of the exact quotient. */
  function RoundHalfUp2(x: real): real {
    if x >= 0.0 then ((x * 100.0 + 0.5).Floor as real) / 100.0
    else -(((-x * 100.0 + 0.5).Floor as real) / 100.0)
  }

  /**
   * What HALF_UP to two places promises: a whole number of cents at most half a
   * cent away from x, and on a tie the one farther from zero.
   */
  predicate IsHalfUpCents(x: real, r: real) {
    && IsCents(r)
    && Abs(r - x) <= 0.005
    && (Abs(r - x) == 0.005 ==> Abs(r) > Abs(x))
  }

  lemma RoundHalfUp2IsHalfUp(x: real)
    ensures IsHalfUpCents(x, RoundHalfUp2(x))
  {
    var r := RoundHalfUp2(x);
    if x >= 0.0 {
      var k := (x * 100.0 + 0.5).Floor;
      assert r * 100.0 == k as real;
    } else {
      var k := (-x * 100.0 + 0.5).Floor;
      assert r * 100.0 == -(k as real);
      assert (r * 100.0).Floor == -k;
    }
  }

  /** HALF_UP to two places is the only rounding with that promise. */
  lemma {:induction false} HalfUpCentsUnique(x: real, r: real)
    requires IsHalfUpCents(x, r)
    ensures r == RoundHalfUp2(x)
  {
    RoundHalfUp2IsHalfUp(x);
    var s := RoundHalfUp2(x);
    var a := (r * 100.0).Floor;
    var b := (s * 100.0).Floor;
    assert r * 100.0 == a as real && s * 100.0 == b as real;
    assert Abs(r - s) <= 0.01;
    assert a == b;
  }

  /** An amount already in whole cents is left as it is. */
  lemma RoundHalfUp2OfCents(x: real)
    requires IsCents(x)
    ensures RoundHalfUp2(x) == x
  {
    assert IsHalfUpCents(x, x);
    HalfUpCentsUnique(x, x);
  }

  /** Rounding never reverses the order of two amounts. */
  lemma RoundHalfUp2Monotone(x: real, y: real)
    requires x <= y
    ensures RoundHalfUp2(x) <= RoundHalfUp2(y)
  {
    if 0.0 <= x {
      FloorMonotone(x * 100.0 + 0.5, y * 100.0 + 0.5);
    } else if y < 0.0 {
      FloorMonotone(-y * 100.0 + 0.5, -x * 100.0 + 0.5);
    }
  }

  lemma FloorMonotone(a: real, b: real)
    requires a <= b
    ensures a.Floor <= b.Floor
  {
  }

  /** Rounding keeps the sign of a non-negative amount. */
  lemma RoundHalfUp2NonNegative(x: real)
    requires 0.0 <= x
    ensures 0.0 <= RoundHalfUp2(x)
  {
  }
}
