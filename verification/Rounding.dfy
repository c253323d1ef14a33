/**
  Integer quotients: bounds, monotonicity, and half-up rounding to the cent. Percentages are whole
  numbers of 1/10000 %.
*/
module Rounding {

  const FULL_PCT := 1_000_000

  function Min(a: int, b: int): int { if a <= b then a else b }
  function Max(a: int, b: int): int { if a >= b then a else b }

  lemma MulLe(a: int, b: int, c: int)
    requires a <= b && c >= 0
    ensures a * c <= b * c
  {
  }

  lemma MulPositive(a: int, b: int)
    requires a > 0 && b > 0
    ensures a * b > 0
  {
  }

  /** a / b is the largest q with q * b <= a. */
  lemma DivBounds(a: int, b: int)
    requires b > 0
    ensures (a / b) * b <= a < (a / b) * b + b
    ensures a == (a / b) * b + a % b
  {
  }

  lemma LessByMultiple(q: int, p: int, b: int)
    requires b > 0 && q * b < p * b
    ensures q < p
  {
    if q >= p {
      MulLe(p, q, b);
    }
  }

  lemma DivUnique(a: int, b: int, q: int, r: int)
    requires b > 0 && 0 <= r < b && a == q * b + r
    ensures a / b == q && a % b == r
  {
    var d := a / b;
    DivBounds(a, b);
    assert q * b < (d + 1) * b && d * b < (q + 1) * b;
    LessByMultiple(q, d + 1, b);
    LessByMultiple(d, q + 1, b);
  }

  lemma DivMonotone(a: int, a': int, b: int)
    requires b > 0 && a <= a'
    ensures a / b <= a' / b
  {
    var q, q' := a / b, a' / b;
    DivBounds(a, b);
    DivBounds(a', b);
    assert q * b < (q' + 1) * b;
    LessByMultiple(q, q' + 1, b);
  }

  /** num / den rounded to an integer, half away from zero. */
  function RoundDiv(num: int, den: int): int
    requires den > 0
  {
    if num >= 0 then (2 * num + den) / (2 * den) else -((2 * -num + den) / (2 * den))
  }

  /** The rounded quotient is never more than half a unit away from the exact one. */
  lemma RoundDivNearest(num: int, den: int)
    requires den > 0
    ensures -den <= 2 * (den * RoundDiv(num, den) - num) <= den
  {
    var a := if num >= 0 then num else -num;
    var q := (2 * a + den) / (2 * den);
    DivBounds(2 * a + den, 2 * den);
    assert q * (2 * den) == 2 * (den * q);
    assert den * -q == -(den * q);
  }

  lemma RoundDivMonotone(a: int, b: int, den: int)
    requires den > 0 && a <= b
    ensures RoundDiv(a, den) <= RoundDiv(b, den)
  {
    if a >= 0 {
      DivMonotone(2 * a + den, 2 * b + den, 2 * den);
    } else if b < 0 {
      DivMonotone(2 * -b + den, 2 * -a + den, 2 * den);
    } else {
      DivMonotone(0, 2 * -a + den, 2 * den);
      DivMonotone(0, 2 * b + den, 2 * den);
    }
  }

  /** A whole number of units is not changed by rounding. */
  lemma RoundDivExact(k: int, den: int)
    requires den > 0
    ensures RoundDiv(k * den, den) == k
  {
    if k >= 0 {
      MulLe(0, k, den);
      assert 2 * (k * den) + den == k * (2 * den) + den;
      DivUnique(2 * (k * den) + den, 2 * den, k, den);
    } else {
      MulPositive(-k, den);
      assert 2 * -(k * den) + den == (-k) * (2 * den) + den;
      DivUnique(2 * -(k * den) + den, 2 * den, -k, den);
    }
  }

  /** Halves go away from zero: of a non-negative quotient, no other integer is above by half at most. */
  lemma RoundDivHalfAway(num: int, den: int)
    requires den > 0
    ensures num >= 0 ==> -den < 2 * (den * RoundDiv(num, den) - num) <= den
    ensures RoundDiv(-num, den) == -RoundDiv(num, den)
  {
    var a := if num >= 0 then num else -num;
    DivBounds(2 * a + den, 2 * den);
    var q := (2 * a + den) / (2 * den);
    assert q * (2 * den) == 2 * (den * q);
  }

  lemma RoundedIs(num: int, den: int, q: int)
    requires den > 0 && num >= 0 && -den < 2 * (den * q - num) <= den
    ensures RoundDiv(num, den) == q
  {
    assert 2 * num + den == q * (2 * den) + (2 * num + den - 2 * (den * q));
    DivUnique(2 * num + den, 2 * den, q, 2 * num + den - 2 * (den * q));
  }

  /** x is num / den to the unit, halves away from zero. */
  predicate IsRounded(x: int, num: int, den: int) {
    den != 0
    && var n, d := if den > 0 then num else -num, if den > 0 then den else -den;
       if n >= 0 then -d < 2 * (d * x - n) <= d else -d <= 2 * (d * x - n) < d
  }

  lemma RoundDivIsRounded(num: int, den: int)
    requires den > 0
    ensures IsRounded(RoundDiv(num, den), num, den)
  {
    RoundDivHalfAway(num, den);
    RoundDivHalfAway(-num, den);
    assert den * -RoundDiv(num, den) == -(den * RoundDiv(num, den));
  }

  /** x is the whole cents of a percentage of a base, halves up. */
  predicate IsPercentage(x: int, base: int, pct: int) {
    -FULL_PCT < 2 * (FULL_PCT * x - base * pct) <= FULL_PCT
  }
}
