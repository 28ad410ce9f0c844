/** Decimal rounding, written out on reals.

    In-memory `Decimal` arithmetic is modelled by exact reals; `quantize` and
    storage into a `Numeric` column are modelled by rounding to an integer count
    of the column's smallest unit.  `quantize` uses Python's default context
    (ties to even); a PostgreSQL `numeric(p, s)` column rounds ties away from zero.
 */
module Rounding {

  /** Last digits of the stored columns: index values, percentages and price relatives. */
  const INDEX_UNITS := 100000000.0
  const PERCENT_UNITS := 10000.0
  const RELATIVE_UNITS := 10000000000.0

  /** Two real numbers whose difference is less than one unit apart. */
  function Frac(x: real): (f: real)
    ensures 0.0 <= f < 1.0
  {
    x - x.Floor as real
  }

  /** `Decimal.quantize` with the default ROUND_HALF_EVEN. */
  function HalfEven(x: real): (n: int)
    ensures -0.5 <= x - n as real <= 0.5
    ensures (x - n as real == 0.5 || x - n as real == -0.5) ==> n % 2 == 0
  {
    var f := x.Floor;
    if Frac(x) < 0.5 || (Frac(x) == 0.5 && f % 2 == 0) then f else f + 1
  }

  /** Storage into a `numeric` column: ties away from zero. */
  function HalfAway(x: real): (n: int)
    ensures -0.5 <= x - n as real <= 0.5
    ensures x - n as real == 0.5 ==> x < 0.0
    ensures x - n as real == -0.5 ==> x > 0.0
  {
    var f := x.Floor;
    if Frac(x) < 0.5 || (Frac(x) == 0.5 && x < 0.0) then f else f + 1
  }

  lemma HalfEvenFixesIntegers(n: int)
    ensures HalfEven(n as real) == n
  {
  }

  lemma HalfAwayFixesIntegers(n: int)
    ensures HalfAway(n as real) == n
  {
  }

  lemma HalfAwayMonotone(x: real, y: real)
    requires x <= y
    ensures HalfAway(x) <= HalfAway(y)
  {
    if x.Floor == y.Floor {
      assert Frac(x) <= Frac(y);
    }
  }

  /** A value between two whole numbers of units rounds to something between them. */
  lemma HalfEvenWithin(x: real, lo: int, hi: int)
    requires lo as real <= x <= hi as real
    ensures lo <= HalfEven(x) <= hi
  {
  }

  /** Ties go to even on either side of zero, so the sign does not matter. */
  lemma HalfEvenOdd(x: real)
    ensures HalfEven(-x) == -HalfEven(x)
  {
  }
}
