/** Decimal rounding. Amounts are measured in units of 1e-8 coin, so that rounding a BigDecimal to
    eight places is rounding a real number of units to a whole number of units. */
module Rounding {

  /** BigDecimal's ROUND_HALF_UP: to the nearest whole unit, ties away from zero. */
  function HalfUp(x: real): int
  {
    if x >= 0.0 then (x + 0.5).Floor else -((-x + 0.5).Floor)
  }

  /** Rounding is symmetric about zero: what a negated amount takes is what the amount gives. */
  lemma HalfUpSymmetric(x: real)
    ensures HalfUp(-x) == -HalfUp(x)
  {
    if x == 0.0 {
      assert (0.5 as real).Floor == 0;
    }
  }

  /** Exactly: what rounds to `n` is what is nearer to `n` than to its neighbours, and of the two halfway
      points the one nearer to zero. */
  lemma HalfUpExactly(x: real, n: int)
    ensures HalfUp(x) == n <==>
            if 0.0 <= x then n as real - 0.5 <= x < n as real + 0.5 else n as real - 0.5 < x <= n as real + 0.5
  {
    if 0.0 <= x {
      FloorExactly(x + 0.5, n);
    } else {
      FloorExactly(-x + 0.5, -n);
    }
  }

  lemma FloorExactly(x: real, n: int)
    ensures x.Floor == n <==> n as real <= x < n as real + 1.0
  {
  }

  lemma HalfUpError(x: real)
    ensures -0.5 <= HalfUp(x) as real - x <= 0.5
  {
  }

  lemma HalfUpSign(x: real)
    ensures 0.0 <= x ==> 0 <= HalfUp(x)
    ensures x <= 0.0 ==> HalfUp(x) <= 0
  {
  }

  lemma HalfUpWhole(n: int)
    ensures HalfUp(n as real) == n
  {
  }

  lemma HalfUpMonotone(x: real, y: real)
    requires x <= y
    ensures HalfUp(x) <= HalfUp(y)
  {
  }

  /** The product of two amounts or of an amount and a rate. */
  function Times(a: real, b: real): real
  {
    a * b
  }

  lemma TimesSign(a: real, b: real)
    requires 0.0 <= a && 0.0 <= b
    ensures 0.0 <= Times(a, b)
  {
  }

  lemma TimesIsProduct(a: real, b: real)
    ensures Times(a, b) == a * b
  {
  }

  lemma OverTimes(a: real, b: real)
    requires b != 0.0
    ensures Times(a / b, b) == a
  {
  }

  lemma TimesPlus(a: real, b: real, f: real)
    ensures Times(a + b, f) == Times(a, f) + Times(b, f)
  {
  }

  /** A fraction of an amount is part of it. */
  lemma TimesFraction(a: real, f: real)
    requires 0.0 <= a && 0.0 <= f <= 1.0
    ensures 0.0 <= Times(a, f) <= a
    ensures 0.0 < a && f < 1.0 ==> Times(a, f) < a
  {
    TimesSign(a, 1.0 - f);
    assert Times(a, 1.0 - f) == a - Times(a, f);
    if 0.0 < a && f < 1.0 {
      assert a * (1.0 - f) > 0.0;
    }
  }

  lemma TimesMonotone(a: real, b: real, f: real)
    requires a <= b && 0.0 <= f
    ensures Times(a, f) <= Times(b, f)
  {
    TimesSign(b - a, f);
    assert Times(b - a, f) == Times(b, f) - Times(a, f);
  }

  /** Two amounts that differ by at most `d` have products that differ by at most `d` times as much. */
  lemma TimesClose(r: real, q: real, d: real, f: real)
    requires 0.0 <= f && -d <= r - q <= d
    ensures -Times(d, f) <= Times(r, f) - Times(q, f) <= Times(d, f)
  {
    TimesMonotone(r, q + d, f);
    TimesMonotone(q, r + d, f);
    TimesPlus(q, d, f);
    TimesPlus(r, d, f);
  }
}
