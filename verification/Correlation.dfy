/** Pearson correlation of a back-test (`services/historical.py`, `_correlation`), with the square root
    given as the non-negative number whose square is its argument. */
module Correlation {
  import opened Aggregates
  import opened Options
  import opened Medians
  import Rounding

  datatype CorrelationStatus = INSUFFICIENT_OVERLAP | CONSTANT_SERIES | CALCULATED

  /** The coefficient in millionths, as `quantize` leaves it. */
  datatype Coefficient = Coefficient(value: Option<int>, status: CorrelationStatus)

  function Mean(s: seq<real>): real
    requires s != []
  {
    SumReals(s) / |s| as real
  }

  function Deltas(s: seq<real>): (r: seq<real>)
    requires s != []
    ensures |r| == |s| && forall i :: 0 <= i < |s| ==> r[i] == s[i] - Mean(s)
  {
    seq(|s|, i requires 0 <= i < |s| => s[i] - Mean(s))
  }

  /** A product the verifier sees by name. */
  function Times(x: real, y: real): real {
    x * y
  }

  function Dot(a: seq<real>, b: seq<real>): real
    requires |a| == |b|
  {
    if a == [] then 0.0 else Times(a[0], b[0]) + Dot(a[1..], b[1..])
  }

  /** The sum of squared deviations that the source calls a variance. */
  function Variation(s: seq<real>): real
    requires s != []
  {
    Dot(Deltas(s), Deltas(s))
  }

  function Covariation(xs: seq<real>, ys: seq<real>): real
    requires xs != [] && |xs| == |ys|
  {
    Dot(Deltas(xs), Deltas(ys))
  }

  /** `root` is the square root of the product of two variances. */
  predicate IsRoot(root: real, x: real, y: real) {
    root >= 0.0 && root * root == x * y
  }

  const MILLION := 1000000.0

  /** The outcome for given variances and covariance. */
  function Outcome(x: real, y: real, covariance: real, root: real): Coefficient
    requires IsRoot(root, x, y)
  {
    if x == 0.0 || y == 0.0 then Coefficient(None, CONSTANT_SERIES)
    else
      RootIsPositive(x, y, root);
      Coefficient(Some(Rounding.HalfEven(covariance / root * MILLION)), CALCULATED)
  }

  /** `_correlation`. */
  function Correlate(xs: seq<real>, ys: seq<real>, root: real): Coefficient
    requires |xs| == |ys|
    requires |xs| >= 3 ==> IsRoot(root, Variation(xs), Variation(ys))
  {
    if |xs| < 3 then Coefficient(None, INSUFFICIENT_OVERLAP)
    else Outcome(Variation(xs), Variation(ys), Covariation(xs, ys), root)
  }

  lemma RootIsPositive(x: real, y: real, root: real)
    requires x != 0.0 && y != 0.0 && IsRoot(root, x, y)
    ensures root > 0.0
  {
  }

  // ---------------------------------------------------------------------------------------------
  // Cauchy-Schwarz

  function Minus(a: seq<real>, t: real, b: seq<real>): (r: seq<real>)
    requires |a| == |b|
    ensures |r| == |a|
  {
    if a == [] then [] else [a[0] - t * b[0]] + Minus(a[1..], t, b[1..])
  }

  function Quadratic(a: real, c: real, b: real, t: real): real {
    a - 2.0 * t * c + t * t * b
  }

  lemma SquareOfDifference(x: real, t: real, y: real)
    ensures Times(x - t * y, x - t * y) == Quadratic(Times(x, x), Times(x, y), Times(y, y), t)
  {
    var u := t * y;
    assert (x - u) * (x - u) == x * x - 2.0 * (x * u) + u * u;
    assert x * u == t * (x * y);
    assert u * u == t * t * (y * y);
  }

  lemma CombineSquares(t: real, xx: real, xy: real, yy: real, a: real, c: real, b: real)
    ensures Quadratic(xx, xy, yy, t) + Quadratic(a, c, b, t) == Quadratic(xx + a, xy + c, yy + b, t)
  {
    Distribute(2.0 * t, xy, c);
    Distribute(t * t, yy, b);
  }

  lemma DotHead(a: seq<real>, b: seq<real>)
    requires a != [] && |a| == |b|
    ensures Dot(a, b) == Times(a[0], b[0]) + Dot(a[1..], b[1..])
  {
  }

  lemma {:induction false} DotOfDifference(a: seq<real>, t: real, b: seq<real>)
    requires |a| == |b|
    ensures Dot(Minus(a, t, b), Minus(a, t, b)) == Quadratic(Dot(a, a), Dot(a, b), Dot(b, b), t)
  {
    if a != [] {
      var d := Minus(a, t, b);
      assert d[0] == a[0] - t * b[0] && d[1..] == Minus(a[1..], t, b[1..]);
      DotHead(d, d);
      DotHead(a, a);
      DotHead(a, b);
      DotHead(b, b);
      hide Minus, Dot, Quadratic, Times;
      DotOfDifference(a[1..], t, b[1..]);
      SquareOfDifference(a[0], t, b[0]);
      CombineSquares(t, Times(a[0], a[0]), Times(a[0], b[0]), Times(b[0], b[0]),
                     Dot(a[1..], a[1..]), Dot(a[1..], b[1..]), Dot(b[1..], b[1..]));
    }
  }

  function Square(x: real): real {
    Times(x, x)
  }

  lemma PositiveTimes(x: real, y: real)
    requires x > 0.0 && y > 0.0
    ensures Times(x, y) > 0.0
  {
  }

  lemma NegatedTimes(x: real, y: real)
    ensures Times(-x, -y) == Times(x, y)
  {
  }

  lemma NonZeroSquare(x: real)
    requires x != 0.0
    ensures Square(x) > 0.0
  {
    hide Times;
    if x > 0.0 {
      PositiveTimes(x, x);
    } else {
      PositiveTimes(-x, -x);
      NegatedTimes(x, x);
    }
  }

  lemma SquareSign(x: real)
    ensures Square(x) >= 0.0
    ensures Square(x) == 0.0 <==> x == 0.0
  {
    if x == 0.0 {
      assert Square(x) == 0.0;
    } else {
      NonZeroSquare(x);
      hide Square;
    }
  }

  lemma SquareMonotone(a: real, b: real)
    requires 0.0 <= a < b
    ensures a * a < b * b
  {
    var d := b - a;
    assert a * d >= 0.0 && d * d > 0.0;
    assert b * b == a * a + a * d + a * d + d * d;
  }

  lemma {:induction false} DotOfSelf(a: seq<real>)
    ensures Dot(a, a) >= 0.0
    ensures Dot(a, a) == 0.0 <==> forall i :: 0 <= i < |a| ==> a[i] == 0.0
  {
    if a != [] {
      var tail := a[1..];
      DotHead(a, a);
      assert Dot(a, a) == Square(a[0]) + Dot(tail, tail);
      hide Dot, Square;
      DotOfSelf(tail);
      SquareSign(a[0]);
      if Dot(a, a) == 0.0 {
        forall i | 0 <= i < |a|
          ensures a[i] == 0.0
        {
          assert i > 0 ==> tail[i - 1] == 0.0;
        }
      } else {
        assert a[0] != 0.0 || exists i :: 0 <= i < |tail| && tail[i] != 0.0;
        assert forall i :: 0 <= i < |tail| ==> tail[i] == a[i + 1];
      }
    }
  }

  lemma {:induction false} DotWithZeros(a: seq<real>, b: seq<real>)
    requires |a| == |b| && forall i :: 0 <= i < |b| ==> b[i] == 0.0
    ensures Dot(a, b) == 0.0
  {
    if a != [] {
      DotWithZeros(a[1..], b[1..]);
    }
  }

  /** From a non-negative quadratic at its minimum. */
  lemma Discriminant(a: real, b: real, c: real, t: real)
    requires b > 0.0 && t * b == c && Quadratic(a, c, b, t) >= 0.0
    ensures Times(c, c) <= Times(a, b)
  {
    assert t * t * b == t * c;
    assert (a - t * c) * b >= 0.0;
    assert t * c * b == c * c;
  }

  lemma ZeroProducts(a: real)
    ensures Times(0.0, 0.0) <= Times(a, 0.0)
  {
  }

  lemma QuotientTimes(c: real, b: real)
    requires b != 0.0
    ensures c / b * b == c
  {
  }

  lemma ProductsOfDots(a: seq<real>, b: seq<real>)
    requires |a| == |b|
    ensures Times(Dot(a, b), Dot(a, b)) <= Times(Dot(a, a), Dot(b, b))
  {
    DotOfSelf(b);
    hide *;
    if Dot(b, b) == 0.0 {
      DotWithZeros(a, b);
      ZeroProducts(Dot(a, a));
    } else {
      var t := Dot(a, b) / Dot(b, b);
      DotOfDifference(a, t, b);
      DotOfSelf(Minus(a, t, b));
      QuotientTimes(Dot(a, b), Dot(b, b));
      Discriminant(Dot(a, a), Dot(b, b), Dot(a, b), t);
    }
  }

  /** For any two series of equal length, covariance squared is at most the product of variances. */
  lemma CauchySchwarz(a: seq<real>, b: seq<real>)
    requires |a| == |b|
    ensures Dot(a, b) * Dot(a, b) <= Dot(a, a) * Dot(b, b)
  {
    ProductsOfDots(a, b);
    UnfoldTimes(Dot(a, b), Dot(a, b));
    UnfoldTimes(Dot(a, a), Dot(b, b));
    hide *;
  }

  lemma UnfoldTimes(x: real, y: real)
    ensures Times(x, y) == x * y
  {
  }

  lemma BetweenRoots(c: real, root: real)
    requires root > 0.0 && -root <= c <= root
    ensures -1.0 <= c / root <= 1.0
  {
  }

  lemma QuotientWithinOne(c: real, root: real)
    requires root > 0.0 && c * c <= root * root
    ensures -1.0 <= c / root <= 1.0
  {
    if c > root {
      SquareMonotone(root, c);
    }
    if c < -root {
      var d := -c;
      assert d * d == c * c;
      SquareMonotone(root, d);
    }
    BetweenRoots(c, root);
  }

  lemma OutcomeBounded(x: real, y: real, c: real, root: real)
    requires IsRoot(root, x, y) && x != 0.0 && y != 0.0 && c * c <= x * y
    ensures root > 0.0 && -1.0 <= c / root <= 1.0
    ensures Outcome(x, y, c, root).value.Some? && -1000000 <= Outcome(x, y, c, root).value.value <= 1000000
  {
    RootIsPositive(x, y, root);
    QuotientWithinOne(c, root);
    var q := c / root;
    Rounding.HalfEvenWithin(q * MILLION, -1000000, 1000000);
  }

  /** A calculated coefficient lies in [-1, 1], and rounding to six decimals keeps it there. */
  lemma CoefficientBounded(xs: seq<real>, ys: seq<real>, root: real)
    requires |xs| == |ys| >= 3 && IsRoot(root, Variation(xs), Variation(ys))
    ensures var r := Correlate(xs, ys, root);
            r.status == CALCULATED ==>
              && root > 0.0 && -1.0 <= Covariation(xs, ys) / root <= 1.0
              && r.value.Some? && -1000000 <= r.value.value <= 1000000
  {
    CauchySchwarz(Deltas(xs), Deltas(ys));
    var x, y, c := Variation(xs), Variation(ys), Covariation(xs, ys);
    assert c * c <= x * y;
    assert Correlate(xs, ys, root) == Outcome(x, y, c, root);
    assert Correlate(xs, ys, root).status == CALCULATED ==> x != 0.0 && y != 0.0;
    hide *;
    if Correlate(xs, ys, root).status == CALCULATED {
      OutcomeBounded(x, y, c, root);
    }
  }

  // ---------------------------------------------------------------------------------------------
  // When there is a coefficient

  predicate Constant(s: seq<real>) {
    forall i :: 0 < i < |s| ==> s[i] == s[0]
  }

  lemma {:induction false} SumOfEqual(s: seq<real>, x: real)
    requires forall i :: 0 <= i < |s| ==> s[i] == x
    ensures SumReals(s) == |s| as real * x
  {
    if s != [] {
      SumOfEqual(s[1..], x);
      assert |s| as real == |s[1..]| as real + 1.0;
    }
  }

  lemma SelfMean(n: real, x: real)
    requires n > 0.0
    ensures n * x / n == x
  {
  }

  lemma ConstantIffNoVariation(s: seq<real>)
    requires s != []
    ensures Variation(s) == 0.0 <==> Constant(s)
  {
    DotOfSelf(Deltas(s));
    if Constant(s) {
      SumOfEqual(s, s[0]);
      SelfMean(|s| as real, s[0]);
    }
    if Variation(s) == 0.0 {
      forall i | 0 <= i < |s|
        ensures s[i] == Mean(s)
      {
        assert Deltas(s)[i] == 0.0;
      }
    }
    hide Dot;
  }

  /** A coefficient is missing exactly for fewer than three points or a constant series. */
  lemma StatusCases(xs: seq<real>, ys: seq<real>, root: real)
    requires |xs| == |ys| && (|xs| >= 3 ==> IsRoot(root, Variation(xs), Variation(ys)))
    ensures var c := Correlate(xs, ys, root);
            && (c.value.Some? <==> c.status == CALCULATED)
            && (c.status == INSUFFICIENT_OVERLAP <==> |xs| < 3)
            && (c.status == CONSTANT_SERIES <==> |xs| >= 3 && (Constant(xs) || Constant(ys)))
  {
    if |xs| >= 3 {
      ConstantIffNoVariation(xs);
      ConstantIffNoVariation(ys);
    }
    hide Variation, Constant, IsRoot;
  }

  // ---------------------------------------------------------------------------------------------
  // Invariance

  lemma {:induction false} SumAffine(k: real, c: real, s: seq<real>)
    ensures SumReals(Map(Affine(k, c), s)) == k * SumReals(s) + c * |s| as real
  {
    if s != [] {
      var m := Map(Affine(k, c), s);
      assert m[1..] == Map(Affine(k, c), s[1..]);
      SumAffine(k, c, s[1..]);
      Distribute(k, s[0], SumReals(s[1..]));
      Distribute(c, 1.0, |s[1..]| as real);
      assert |s| as real == 1.0 + |s[1..]| as real;
    }
  }

  lemma AffineQuotient(k: real, c: real, x: real, n: real)
    requires n > 0.0
    ensures (k * x + c * n) / n == k * (x / n) + c
  {
    var q := x / n;
    assert q * n == x;
    assert (k * q + c) * n == k * x + c * n;
  }

  lemma MeanAffine(k: real, c: real, s: seq<real>)
    requires s != []
    ensures Mean(Map(Affine(k, c), s)) == Affine(k, c)(Mean(s))
  {
    hide *;
    SumAffine(k, c, s);
    MeanOfSum(Map(Affine(k, c), s), k * SumReals(s) + c * |s| as real);
    AffineQuotient(k, c, SumReals(s), |s| as real);
    MeanOfSum(s, SumReals(s));
    AffineAt(k, c, Mean(s));
  }

  lemma MeanOfSum(s: seq<real>, total: real)
    requires s != [] && SumReals(s) == total
    ensures Mean(s) == total / |s| as real
  {
    hide SumReals;
  }

  lemma AffineAt(k: real, c: real, x: real)
    ensures Affine(k, c)(x) == k * x + c
  {
  }

  lemma AffineDelta(k: real, c: real, x: real, mean: real)
    ensures Affine(k, c)(x) - Affine(k, c)(mean) == Affine(k, 0.0)(x - mean)
  {
    Distribute(k, x - mean, mean);
  }

  lemma DeltaAt(s: seq<real>, i: nat)
    requires i < |s|
    ensures |Deltas(s)| == |s| && Deltas(s)[i] == s[i] - Mean(s)
  {
    hide Mean;
  }

  lemma DeltaAffine(k: real, c: real, s: seq<real>, i: nat)
    requires i < |s|
    ensures |Deltas(Map(Affine(k, c), s))| == |s| == |Map(Affine(k, 0.0), Deltas(s))|
    ensures Deltas(Map(Affine(k, c), s))[i] == Map(Affine(k, 0.0), Deltas(s))[i]
  {
    hide *;
    MapAt(Affine(k, c), s, i);
    DeltaAt(Map(Affine(k, c), s), i);
    DeltaAt(s, i);
    MapAt(Affine(k, 0.0), Deltas(s), i);
    MeanAffine(k, c, s);
    AffineDelta(k, c, s[i], Mean(s));
  }

  /** Deviations from the mean ignore the offset and scale with the series. */
  lemma DeltasAffine(k: real, c: real, s: seq<real>)
    requires s != []
    ensures Deltas(Map(Affine(k, c), s)) == Map(Affine(k, 0.0), Deltas(s))
  {
    hide *;
    DeltaAffine(k, c, s, 0);
    forall i: nat | i < |s|
      ensures Deltas(Map(Affine(k, c), s))[i] == Map(Affine(k, 0.0), Deltas(s))[i]
    {
      DeltaAffine(k, c, s, i);
    }
    SameSeries(Deltas(Map(Affine(k, c), s)), Map(Affine(k, 0.0), Deltas(s)));
  }

  lemma SameSeries(a: seq<real>, b: seq<real>)
    requires |a| == |b| && forall i: nat :: i < |a| ==> a[i] == b[i]
    ensures a == b
  {
  }

  lemma {:induction false} DotCommutes(a: seq<real>, b: seq<real>)
    requires |a| == |b|
    ensures Dot(a, b) == Dot(b, a)
  {
    if a != [] {
      DotCommutes(a[1..], b[1..]);
    }
  }

  lemma ScaledTimes(k: real, x: real, y: real)
    ensures Times(k * x, y) == Scaled(k, Times(x, y))
  {
  }

  lemma ScaledSum(k: real, x: real, y: real)
    ensures Scaled(k, x) + Scaled(k, y) == Scaled(k, x + y)
  {
    Distribute(k, x, y);
  }

  lemma {:induction false} DotScales(k: real, a: seq<real>, b: seq<real>)
    requires |a| == |b|
    ensures Dot(Map(Affine(k, 0.0), a), b) == Scaled(k, Dot(a, b))
  {
    if a != [] {
      var m := Map(Affine(k, 0.0), a);
      assert m[1..] == Map(Affine(k, 0.0), a[1..]);
      DotHead(m, b);
      DotHead(a, b);
      assert m[0] == k * a[0];
      hide Dot, Map, Times, Scaled;
      DotScales(k, a[1..], b[1..]);
      ScaledTimes(k, a[0], b[0]);
      ScaledSum(k, Times(a[0], b[0]), Dot(a[1..], b[1..]));
    }
  }

  function Scaled(k: real, c: real): real {
    k * c
  }

  function TwiceScaled(k: real, x: real): real {
    k * (k * x)
  }

  lemma AffineSums(k: real, c: real, xs: seq<real>, ys: seq<real>)
    requires xs != [] && |xs| == |ys|
    ensures Variation(Map(Affine(k, c), xs)) == TwiceScaled(k, Variation(xs))
    ensures Covariation(Map(Affine(k, c), xs), ys) == Scaled(k, Covariation(xs, ys))
  {
    var d, e, m := Deltas(xs), Deltas(ys), Map(Affine(k, c), xs);
    var scaled := Map(Affine(k, 0.0), d);
    DeltasAffine(k, c, xs);
    assert Variation(m) == Dot(scaled, scaled) && Covariation(m, ys) == Dot(scaled, e);
    assert Variation(xs) == Dot(d, d) && Covariation(xs, ys) == Dot(d, e);
    hide *;
    DotScales(k, d, e);
    DotScalesTwice(k, d);
  }

  lemma DotScalesTwice(k: real, d: seq<real>)
    ensures Dot(Map(Affine(k, 0.0), d), Map(Affine(k, 0.0), d)) == TwiceScaled(k, Dot(d, d))
  {
    hide Dot, Map;
    var scaled := Map(Affine(k, 0.0), d);
    DotScales(k, d, scaled);
    DotCommutes(d, scaled);
    DotScales(k, d, d);
  }

  lemma RootIsUnique(r: real, s: real)
    requires r >= 0.0 && s >= 0.0 && r * r == s * s
    ensures r == s
  {
    if r < s {
      SquareMonotone(r, s);
    } else if s < r {
      SquareMonotone(s, r);
    }
  }

  lemma CancelScale(k: real, c: real, root: real)
    requires k > 0.0 && root > 0.0
    ensures k * root > 0.0 && (k * c) / (k * root) == c / root
  {
    var q := c / root;
    assert q * root == c;
    assert q * (k * root) == k * c;
  }

  lemma ScaledZero(k: real, x: real)
    requires k > 0.0
    ensures TwiceScaled(k, x) == 0.0 <==> x == 0.0
  {
    assert k * x == 0.0 <==> x == 0.0;
  }

  lemma SquareOfProduct(k: real, r: real)
    requires k > 0.0
    ensures (k * r) * (k * r) == k * (k * (r * r))
    ensures r >= 0.0 ==> k * r >= 0.0
    ensures r > 0.0 ==> k * r > 0.0
  {
    var p := k * r;
    assert p * p == k * (r * p) && r * p == k * (r * r);
  }

  lemma ScaledRoots(k: real, x: real, y: real, root: real, scaledRoot: real)
    requires k > 0.0 && IsRoot(root, x, y) && IsRoot(scaledRoot, TwiceScaled(k, x), y)
    ensures scaledRoot == k * root
  {
    SquareOfProduct(k, root);
    MoveFactors(k, x, y);
    RootIsUnique(scaledRoot, k * root);
  }

  lemma MoveFactors(k: real, x: real, y: real)
    ensures k * (k * (x * y)) == TwiceScaled(k, x) * y
  {
    assert k * (x * y) == (k * x) * y;
  }

  /** The root of a scaled variance is the scaled root. */
  lemma RootScales(k: real, x: real, y: real, root: real)
    requires k > 0.0 && IsRoot(root, x, y)
    ensures IsRoot(k * root, TwiceScaled(k, x), y)
  {
    SquareOfProduct(k, root);
    MoveFactors(k, x, y);
    hide TwiceScaled;
  }

  lemma OutcomeScales(k: real, x: real, y: real, c: real, root: real, scaledRoot: real)
    requires k > 0.0 && IsRoot(root, x, y) && IsRoot(scaledRoot, TwiceScaled(k, x), y)
    ensures Outcome(TwiceScaled(k, x), y, Scaled(k, c), scaledRoot) == Outcome(x, y, c, root)
  {
    ScaledRoots(k, x, y, root, scaledRoot);
    ScaledZero(k, x);
    hide IsRoot, TwiceScaled, Rounding.HalfEven;
    if x != 0.0 && y != 0.0 {
      RootIsPositive(x, y, root);
      CancelScale(k, c, root);
      assert Scaled(k, c) / scaledRoot == c / root;
    }
  }

  /** Scaling a series by a positive constant and shifting it leaves the outcome alone: in exact
      arithmetic rebasing to 100 cannot change a correlation. */
  lemma AffineInvariant(k: real, c: real, xs: seq<real>, ys: seq<real>, root: real, scaledRoot: real)
    requires k > 0.0 && |xs| == |ys|
    requires |xs| >= 3 ==> IsRoot(root, Variation(xs), Variation(ys))
    requires |xs| >= 3 ==> IsRoot(scaledRoot, Variation(Map(Affine(k, c), xs)), Variation(ys))
    ensures Correlate(Map(Affine(k, c), xs), ys, scaledRoot) == Correlate(xs, ys, root)
  {
    hide Variation, Covariation, IsRoot, Outcome, TwiceScaled, Scaled, Map;
    if |xs| >= 3 {
      AffineSums(k, c, xs, ys);
      OutcomeScales(k, Variation(xs), Variation(ys), Covariation(xs, ys), root, scaledRoot);
    }
  }

  /** The same for the other series. */
  lemma Symmetric(xs: seq<real>, ys: seq<real>, root: real)
    requires |xs| == |ys| && (|xs| >= 3 ==> IsRoot(root, Variation(xs), Variation(ys)))
    ensures |xs| >= 3 ==> IsRoot(root, Variation(ys), Variation(xs))
    ensures Correlate(ys, xs, root) == Correlate(xs, ys, root)
  {
    if |xs| >= 3 {
      DotCommutes(Deltas(xs), Deltas(ys));
      RootCommutes(root, Variation(xs), Variation(ys));
    }
    hide Dot, IsRoot, Deltas;
  }

  lemma RootCommutes(root: real, x: real, y: real)
    requires IsRoot(root, x, y)
    ensures IsRoot(root, y, x)
  {
  }

  /** An index compared with a rebased copy of itself has correlation exactly one. */
  lemma PerfectFit(k: real, c: real, xs: seq<real>, root: real)
    requires k > 0.0 && |xs| >= 3 && !Constant(xs)
    requires IsRoot(root, Variation(Map(Affine(k, c), xs)), Variation(xs))
    ensures Correlate(Map(Affine(k, c), xs), xs, root) == Coefficient(Some(1000000), CALCULATED)
  {
    ConstantIffNoVariation(xs);
    DotOfSelf(Deltas(xs));
    assert Covariation(xs, xs) == Variation(xs) > 0.0;
    hide Variation, Covariation, IsRoot, Outcome, TwiceScaled, Scaled, Map, Constant, Deltas, Dot;
    AffineSums(k, c, xs, xs);
    OutcomeOfSelf(k, Variation(xs), root);
  }

  lemma OutcomeOfSelf(k: real, x: real, root: real)
    requires k > 0.0 && x > 0.0 && IsRoot(root, TwiceScaled(k, x), x)
    ensures Outcome(TwiceScaled(k, x), x, Scaled(k, x), root) == Coefficient(Some(1000000), CALCULATED)
  {
    SquareOfProduct(k, x);
    MoveFactors(k, x, x);
    RootIsUnique(root, k * x);
    ScaledZero(k, x);
    hide IsRoot, TwiceScaled, Rounding.HalfEven;
    SelfQuotient(root);
    Rounding.HalfEvenFixesIntegers(1000000);
  }

  lemma SelfQuotient(root: real)
    requires root != 0.0
    ensures root / root * MILLION == MILLION
  {
  }

  // ---------------------------------------------------------------------------------------------
  // What the coefficient is

  /** `value`, in millionths, is the nearest to the covariance over the root. */
  ghost predicate IsCoefficient(value: int, covariance: real, root: real) {
    root > 0.0 && -root <= 2.0 * (1000000.0 * covariance - value as real * root) <= root
  }

  lemma NearestQuotient(c: real, root: real)
    requires root > 0.0
    ensures IsCoefficient(Rounding.HalfEven(c / root * MILLION), c, root)
  {
    var q, v := c / root, Rounding.HalfEven(c / root * MILLION) as real;
    var gap := q * MILLION - v;
    QuotientTimes(c, root);
    assert -0.5 <= gap <= 0.5;
    hide Rounding.HalfEven;
    ScaledGap(gap, root);
    GapTimes(q, v, root);
  }

  lemma ScaledGap(gap: real, root: real)
    requires root > 0.0 && -0.5 <= gap <= 0.5
    ensures -root <= 2.0 * (gap * root) <= root
  {
    assert (0.5 - gap) * root >= 0.0 && (0.5 + gap) * root >= 0.0;
  }

  lemma GapTimes(q: real, v: real, root: real)
    ensures (q * MILLION - v) * root == 1000000.0 * (q * root) - v * root
  {
  }

  /** A calculated coefficient is the covariance over the square root of the product of the variances, to the
      nearest millionth, so it has the covariance's sign unless it is zero. */
  lemma CoefficientIs(xs: seq<real>, ys: seq<real>, root: real)
    requires |xs| == |ys| >= 3 && IsRoot(root, Variation(xs), Variation(ys))
    ensures var r := Correlate(xs, ys, root);
            r.status == CALCULATED ==>
              && root > 0.0 && root * root == Variation(xs) * Variation(ys)
              && r.value.Some? && IsCoefficient(r.value.value, Covariation(xs, ys), root)
              && (r.value.value > 0 ==> Covariation(xs, ys) > 0.0) && (r.value.value < 0 ==> Covariation(xs, ys) < 0.0)
  {
    var x, y, c := Variation(xs), Variation(ys), Covariation(xs, ys);
    assert Correlate(xs, ys, root) == Outcome(x, y, c, root);
    hide Variation, Covariation, Correlate;
    if x != 0.0 && y != 0.0 {
      RootIsPositive(x, y, root);
      NearestQuotient(c, root);
      SignOfCovariance(Rounding.HalfEven(c / root * MILLION), c, root);
    }
    hide IsCoefficient, Rounding.HalfEven;
  }

  lemma SignOfCovariance(value: int, c: real, root: real)
    requires IsCoefficient(value, c, root)
    ensures (value > 0 ==> c > 0.0) && (value < 0 ==> c < 0.0)
  {
    if value > 0 {
      assert (value as real - 1.0) * root >= 0.0;
    } else if value < 0 {
      assert (-1.0 - value as real) * root >= 0.0;
    }
  }

  /** The sum of products of two series moved by `p` and `q`, from that of the series and their sums. */
  function Shifted(dot: real, p: real, q: real, x: real, y: real, n: real): real {
    dot - p * y - q * x + n * (p * q)
  }

  lemma ShiftedStep(x: real, y: real, p: real, q: real, dot: real, sumX: real, sumY: real, n: real)
    ensures Times(x - p, y - q) + Shifted(dot, p, q, sumX, sumY, n)
            == Shifted(Times(x, y) + dot, p, q, x + sumX, y + sumY, n + 1.0)
  {
    assert (x - p) * (y - q) == x * y - p * y - q * x + p * q;
    Distribute(p, y, sumY);
    Distribute(q, x, sumX);
    assert (n + 1.0) * (p * q) == n * (p * q) + p * q;
  }

  lemma ShiftedNone(p: real, q: real)
    ensures Shifted(0.0, p, q, 0.0, 0.0, 0.0) == 0.0
  {
  }

  lemma SumHead(s: seq<real>)
    requires s != []
    ensures SumReals(s) == s[0] + SumReals(s[1..]) && |s| as real == |s[1..]| as real + 1.0
  {
  }

  lemma {:induction false} DotShifted(a: seq<real>, b: seq<real>, p: real, q: real, xs: seq<real>, ys: seq<real>)
    requires |a| == |b| == |xs| == |ys|
    requires forall i :: 0 <= i < |xs| ==> a[i] == xs[i] - p && b[i] == ys[i] - q
    ensures Dot(a, b) == Shifted(Dot(xs, ys), p, q, SumReals(xs), SumReals(ys), |xs| as real)
  {
    if xs == [] {
      ShiftedNone(p, q);
    } else {
      DotHead(a, b);
      DotHead(xs, ys);
      SumHead(xs);
      SumHead(ys);
      hide *;
      DotShifted(a[1..], b[1..], p, q, xs[1..], ys[1..]);
      ShiftedStep(xs[0], ys[0], p, q, Dot(xs[1..], ys[1..]), SumReals(xs[1..]), SumReals(ys[1..]), |xs[1..]| as real);
    }
  }

  lemma MeanTimes(s: seq<real>)
    requires s != []
    ensures |s| as real * Mean(s) == SumReals(s)
  {
    hide SumReals;
  }

  lemma CombineMeans(n: real, p: real, q: real, dot: real, x: real, y: real)
    requires n * p == x && n * q == y
    ensures n * Shifted(dot, p, q, x, y, n) == n * dot - x * y
  {
    assert n * (p * y) == x * y && n * (q * x) == x * y;
    assert n * (n * (p * q)) == (n * p) * (n * q);
  }

  lemma CovariationUnfolds(xs: seq<real>, ys: seq<real>)
    requires xs != [] && |xs| == |ys|
    ensures Covariation(xs, ys) == Dot(Deltas(xs), Deltas(ys))
    ensures forall i :: 0 <= i < |xs| ==> Deltas(xs)[i] == xs[i] - Mean(xs) && Deltas(ys)[i] == ys[i] - Mean(ys)
  {
    hide Dot, Mean;
  }

  /** The covariance of two series in terms of their sums: `n` times it is `n` times the sum of products less
      the product of the sums. */
  lemma CovariationIs(xs: seq<real>, ys: seq<real>)
    requires xs != [] && |xs| == |ys|
    ensures var n := |xs| as real;
            n * Covariation(xs, ys) == n * Dot(xs, ys) - SumReals(xs) * SumReals(ys)
  {
    hide *;
    CovariationUnfolds(xs, ys);
    DotShifted(Deltas(xs), Deltas(ys), Mean(xs), Mean(ys), xs, ys);
    MeanTimes(xs);
    MeanTimes(ys);
    CombineMeans(|xs| as real, Mean(xs), Mean(ys), Dot(xs, ys), SumReals(xs), SumReals(ys));
  }

  // ---------------------------------------------------------------------------------------------
  // Opposite series

  function Reversed(c: Coefficient): Coefficient {
    if c.value.None? then c else Coefficient(Some(-c.value.value), c.status)
  }

  lemma OutcomeReverses(x: real, y: real, c: real, root: real)
    requires IsRoot(root, x, y)
    ensures Outcome(x, y, -c, root) == Reversed(Outcome(x, y, c, root))
  {
    if x != 0.0 && y != 0.0 {
      RootIsPositive(x, y, root);
      NegatedQuotient(c, root);
      Rounding.HalfEvenOdd(c / root * MILLION);
    }
    hide Rounding.HalfEven, IsRoot;
  }

  lemma NegatedQuotient(c: real, root: real)
    requires root > 0.0
    ensures -c / root * MILLION == -(c / root * MILLION)
  {
    var q := c / root;
    QuotientTimes(c, root);
    assert (-q) * root == -c;
    assert -c / root == -q;
  }

  lemma NegativeScale(k: real, x: real)
    ensures TwiceScaled(k, x) == TwiceScaled(-k, x) && Scaled(k, x) == -Scaled(-k, x)
  {
  }

  /** Turning a series upside down, whatever the scale and offset, turns the coefficient round. */
  lemma AffineReverses(k: real, c: real, xs: seq<real>, ys: seq<real>, root: real, scaledRoot: real)
    requires k < 0.0 && |xs| == |ys|
    requires |xs| >= 3 ==> IsRoot(root, Variation(xs), Variation(ys))
    requires |xs| >= 3 ==> IsRoot(scaledRoot, Variation(Map(Affine(k, c), xs)), Variation(ys))
    ensures Correlate(Map(Affine(k, c), xs), ys, scaledRoot) == Reversed(Correlate(xs, ys, root))
  {
    hide Variation, Covariation, IsRoot, Outcome, TwiceScaled, Scaled, Map;
    if |xs| >= 3 {
      AffineSums(k, c, xs, ys);
      NegativeScale(k, Variation(xs));
      NegativeScale(k, Covariation(xs, ys));
      var x, y := TwiceScaled(-k, Variation(xs)), Variation(ys);
      OutcomeReverses(x, y, Scaled(-k, Covariation(xs, ys)), scaledRoot);
      OutcomeScales(-k, Variation(xs), y, Covariation(xs, ys), root, scaledRoot);
    }
  }

  /** An index compared with a copy of itself turned upside down has correlation exactly minus one. */
  lemma PerfectOpposite(k: real, c: real, xs: seq<real>, root: real)
    requires k < 0.0 && |xs| >= 3 && !Constant(xs)
    requires IsRoot(root, Variation(Map(Affine(k, c), xs)), Variation(xs))
    ensures Correlate(Map(Affine(k, c), xs), xs, root) == Coefficient(Some(-1000000), CALCULATED)
  {
    ConstantIffNoVariation(xs);
    DotOfSelf(Deltas(xs));
    assert Covariation(xs, xs) == Variation(xs) > 0.0;
    CorrelateIs(Map(Affine(k, c), xs), xs, root);
    hide *;
    AffineSums(k, c, xs, xs);
    OutcomeOfOpposite(k, Variation(xs), root);
  }

  lemma CorrelateIs(xs: seq<real>, ys: seq<real>, root: real)
    requires |xs| == |ys| >= 3 && IsRoot(root, Variation(xs), Variation(ys))
    ensures Correlate(xs, ys, root) == Outcome(Variation(xs), Variation(ys), Covariation(xs, ys), root)
  {
    hide Variation, Covariation, IsRoot, Outcome;
  }

  lemma OutcomeOfOpposite(k: real, x: real, root: real)
    requires k < 0.0 && x > 0.0 && IsRoot(root, TwiceScaled(k, x), x)
    ensures Outcome(TwiceScaled(k, x), x, Scaled(k, x), root) == Coefficient(Some(-1000000), CALCULATED)
  {
    hide *;
    NegativeScale(k, x);
    OutcomeOfSelf(-k, x, root);
    OutcomeReverses(TwiceScaled(-k, x), x, Scaled(-k, x), root);
    ReversedIs(1000000);
  }

  lemma ReversedIs(value: int)
    ensures Reversed(Coefficient(Some(value), CALCULATED)) == Coefficient(Some(-value), CALCULATED)
  {
  }
}
