/** Historical reference datasets and the back-test against them (`services/historical.py`). */
module Backtest {
  import opened Options
  import opened Correlation
  import Medians
  import Periods
  import RouteComparisons
  import Rounding

  // ---------------------------------------------------------------------------------------------
  // Immutable datasets

  /** The import request: everything but the code is one opaque text. */
  datatype Payload = Payload(code: string, content: string)

  datatype Dataset = Dataset(payload: Payload, hash: int)

  type Datasets = map<string, Dataset>

  datatype ImportError = CodeTakenByOtherContent | ContentTakenByOtherCode

  datatype Import = Import(datasets: Datasets, created: bool)

  /** `import_historical_dataset`; `digest` is the SHA-256 of the canonical payload, code included. */
  function Imported(datasets: Datasets, payload: Payload, digest: Payload -> int): Result<Import, ImportError> {
    if payload.code in datasets then
      if datasets[payload.code].hash != digest(payload) then Err(CodeTakenByOtherContent)
      else Ok(Import(datasets, false))
    else if exists code :: code in datasets && datasets[code].hash == digest(payload) then Err(ContentTakenByOtherCode)
    else Ok(Import(datasets[payload.code := Dataset(payload, digest(payload))], true))
  }

  ghost predicate Consistent(datasets: Datasets, digest: Payload -> int) {
    forall code :: code in datasets ==>
      datasets[code].payload.code == code && datasets[code].hash == digest(datasets[code].payload)
  }

  /** The state after a sequence of imports; a refused one changes nothing. */
  function ImportAll(datasets: Datasets, payloads: seq<Payload>, digest: Payload -> int): Datasets {
    if payloads == [] then datasets
    else
      var before := ImportAll(datasets, payloads[..|payloads| - 1], digest);
      match Imported(before, payloads[|payloads| - 1], digest)
      case Ok(next) => next.datasets
      case Err(_) => before
  }

  /** What was once imported under a code never changes, whatever is imported later. */
  lemma {:induction false} ContentNeverChanges(datasets: Datasets, payloads: seq<Payload>, digest: Payload -> int)
    requires Consistent(datasets, digest)
    ensures Consistent(ImportAll(datasets, payloads, digest), digest)
    ensures forall code :: code in datasets ==>
              code in ImportAll(datasets, payloads, digest)
              && ImportAll(datasets, payloads, digest)[code] == datasets[code]
  {
    if payloads != [] {
      ContentNeverChanges(datasets, payloads[..|payloads| - 1], digest);
    }
  }

  /** An accepted import is found again later, and importing it again creates nothing. */
  lemma ReimportFindsIt(datasets: Datasets, payload: Payload, later: seq<Payload>, digest: Payload -> int)
    requires Consistent(datasets, digest) && Imported(datasets, payload, digest).Ok?
    ensures var db := ImportAll(Imported(datasets, payload, digest).value.datasets, later, digest);
            Imported(db, payload, digest) == Ok(Import(db, false))
  {
    var next := Imported(datasets, payload, digest).value.datasets;
    assert Consistent(next, digest);
    ContentNeverChanges(next, later, digest);
    hide ImportAll;
  }

  ghost predicate Injective(digest: Payload -> int) {
    forall a, b :: digest(a) == digest(b) ==> a == b
  }

  /** With a digest free of collisions, an import is refused exactly when its code already holds other
      content.  The refusal of identical content under another code never happens: the digest covers
      the code, so the same content under two codes has two digests. */
  lemma OnlyTheCodeMatters(datasets: Datasets, payload: Payload, digest: Payload -> int)
    requires Consistent(datasets, digest) && Injective(digest)
    ensures var r := Imported(datasets, payload, digest);
            && (r == Err(CodeTakenByOtherContent) <==>
                  payload.code in datasets && datasets[payload.code].payload != payload)
            && (r.Ok? && !r.value.created <==> payload.code in datasets && datasets[payload.code].payload == payload)
            && r != Err(ContentTakenByOtherCode)
  {
  }

  /** The same content is accepted a second time under a second code. */
  lemma SameContentTwice(datasets: Datasets, a: Payload, b: Payload, digest: Payload -> int)
    requires Consistent(datasets, digest) && Injective(digest)
    requires a.content == b.content && a.code != b.code && a.code !in datasets && b.code !in datasets
    ensures Imported(datasets, a, digest).Ok?
    ensures Imported(Imported(datasets, a, digest).value.datasets, b, digest).Ok?
    ensures Imported(Imported(datasets, a, digest).value.datasets, b, digest).value.created
  {
    OnlyTheCodeMatters(datasets, a, digest);
    var next := Imported(datasets, a, digest).value.datasets;
    assert Consistent(next, digest);
    OnlyTheCodeMatters(next, b, digest);
    hide Injective, Consistent;
  }

  class DatasetStore {
    var datasets: Datasets
    const digest: Payload -> int

    constructor (digest: Payload -> int)
      ensures datasets == map[] && this.digest == digest
      ensures Consistent(datasets, digest)
    {
      datasets, this.digest := map[], digest;
    }

    /** `import_historical_dataset`: the stored dataset and whether it was created. */
    method ImportHistoricalDataset(payload: Payload) returns (r: Result<(Dataset, bool), ImportError>)
      requires Consistent(datasets, digest)
      modifies this`datasets
      ensures Consistent(datasets, digest)
      ensures match Imported(old(datasets), payload, digest)
              case Err(e) => r == Err(e) && datasets == old(datasets)
              case Ok(next) =>
                && datasets == next.datasets && payload.code in datasets
                && r == Ok((datasets[payload.code], next.created))
    {
      var hash := digest(payload);
      if payload.code in datasets {
        if datasets[payload.code].hash != hash {
          return Err(CodeTakenByOtherContent);
        }
        return Ok((datasets[payload.code], false));
      }
      if exists code :: code in datasets && datasets[code].hash == hash {
        return Err(ContentTakenByOtherCode);
      }
      datasets := datasets[payload.code := Dataset(payload, hash)];
      r := Ok((datasets[payload.code], true));
    }
  }

  // ---------------------------------------------------------------------------------------------
  // Rebasing

  /** A monthly period with a value; `coverage` in units of 1e-4 percent. */
  datatype Month = Month(start: int, value: real, coverage: int)

  /** Rebased values and deviation in units of 1e-8, percentages in units of 1e-4. */
  datatype Point = Point(
    start: int,
    internal: real,
    reference: real,
    internalRebased: int,
    referenceRebased: int,
    deviation: int,
    deviationPercent: int,
    coverage: int)

  datatype BacktestWarning = NO_OVERLAPPING_MONTHS | INVALID_REBASE_VALUE | CORRELATION(status: CorrelationStatus)

  datatype BacktestError = DivisionByZero

  function Rebased(value: real, base: real): real
    requires base != 0.0
  {
    100.0 * value / base
  }

  function Overlap(months: seq<Month>, references: map<int, real>): seq<Month> {
    if months == [] then []
    else
      var last := months[|months| - 1];
      Overlap(months[..|months| - 1], references) + (if last.start in references then [last] else [])
  }

  lemma {:induction false} OverlapAre(months: seq<Month>, references: map<int, real>)
    ensures forall m :: m in Overlap(months, references) <==> m in months && m.start in references
  {
    if months != [] {
      OverlapAre(months[..|months| - 1], references);
    }
  }

  /** The columns computed from two rebased values. */
  function PointWith(m: Month, reference: real, internal: real, rebased: real): Point
    requires rebased != 0.0
  {
    Point(m.start, m.value, reference,
          Rounding.HalfEven(internal * Rounding.INDEX_UNITS), Rounding.HalfEven(rebased * Rounding.INDEX_UNITS),
          Rounding.HalfEven((internal - rebased) * Rounding.INDEX_UNITS),
          Rounding.HalfEven(100.0 * (internal - rebased) / rebased * Rounding.PERCENT_UNITS), m.coverage)
  }

  function PointFor(m: Month, reference: real, internalBase: real, referenceBase: real): Point
    requires internalBase != 0.0 && referenceBase != 0.0 && reference != 0.0
  {
    RebasedNotZero(reference, referenceBase);
    PointWith(m, reference, Rebased(m.value, internalBase), Rebased(reference, referenceBase))
  }

  lemma RebasedNotZero(value: real, base: real)
    requires base != 0.0
    ensures Rebased(value, base) == 0.0 <==> value == 0.0
  {
    var r := Rebased(value, base);
    assert r * base == 100.0 * value;
  }

  /** The reference of every overlapping month can be divided by. */
  predicate Divisible(overlap: seq<Month>, references: map<int, real>) {
    forall i :: 0 <= i < |overlap| ==> overlap[i].start in references && references[overlap[i].start] != 0.0
  }

  predicate Covered(overlap: seq<Month>, references: map<int, real>) {
    forall i :: 0 <= i < |overlap| ==> overlap[i].start in references
  }

  function PointsOf(overlap: seq<Month>, references: map<int, real>, internalBase: real, referenceBase: real)
    : (r: seq<Point>)
    requires internalBase != 0.0 && referenceBase != 0.0 && Divisible(overlap, references)
    ensures |r| == |overlap|
    ensures forall i :: 0 <= i < |overlap| ==>
              r[i] == PointFor(overlap[i], references[overlap[i].start], internalBase, referenceBase)
  {
    seq(|overlap|, i requires 0 <= i < |overlap| =>
      PointFor(overlap[i], references[overlap[i].start], internalBase, referenceBase))
  }

  /** The loop of `build_backtest`: one point per overlapping month, unless one of the references is
      zero, which the percentage deviation divides by. */
  method CollectPoints(overlap: seq<Month>, references: map<int, real>, internalBase: real, referenceBase: real)
    returns (r: Result<seq<Point>, BacktestError>)
    requires internalBase != 0.0 && referenceBase != 0.0 && Covered(overlap, references)
    ensures r.Ok? <==> Divisible(overlap, references)
    ensures r.Ok? ==> r.value == PointsOf(overlap, references, internalBase, referenceBase)
  {
    var points := [];
    hide PointFor;
    for i := 0 to |overlap|
      invariant |points| == i
      invariant forall k :: 0 <= k < i ==> references[overlap[k].start] != 0.0
      invariant forall k :: 0 <= k < i ==>
                  points[k] == PointFor(overlap[k], references[overlap[k].start], internalBase, referenceBase)
    {
      var month := overlap[i];
      var reference := references[month.start];
      RebasedNotZero(reference, referenceBase);
      if Rebased(reference, referenceBase) == 0.0 {
        return Err(DivisionByZero);
      }
      points := points + [PointFor(month, reference, internalBase, referenceBase)];
    }
    r := Ok(points);
  }

  function InternalSeries(points: seq<Point>): (r: seq<real>)
    ensures |r| == |points| && forall i :: 0 <= i < |points| ==>
              r[i] == points[i].internalRebased as real / Rounding.INDEX_UNITS
  {
    seq(|points|, i requires 0 <= i < |points| => points[i].internalRebased as real / Rounding.INDEX_UNITS)
  }

  function ReferenceSeries(points: seq<Point>): (r: seq<real>)
    ensures |r| == |points| && forall i :: 0 <= i < |points| ==>
              r[i] == points[i].referenceRebased as real / Rounding.INDEX_UNITS
  {
    seq(|points|, i requires 0 <= i < |points| => points[i].referenceRebased as real / Rounding.INDEX_UNITS)
  }

  /** What the points of a back-test are: none without an overlap or with a zero base. */
  ghost function ExpectedPoints(months: seq<Month>, references: map<int, real>): seq<Point> {
    var overlap := Overlap(months, references);
    if overlap == [] || !Divisible(overlap, references) || overlap[0].value == 0.0 then []
    else PointsOf(overlap, references, overlap[0].value, references[overlap[0].start])
  }

  lemma ExpectedCases(months: seq<Month>, references: map<int, real>)
    ensures var overlap, points := Overlap(months, references), ExpectedPoints(months, references);
            if overlap == [] || !Divisible(overlap, references) || overlap[0].value == 0.0 then points == []
            else overlap[0].start in references && references[overlap[0].start] != 0.0
                 && points == PointsOf(overlap, references, overlap[0].value, references[overlap[0].start])
  {
    hide PointsOf, Overlap;
  }

  /** `root` is the square root `_correlation` takes for these points. */
  ghost predicate RootFor(points: seq<Point>, root: real) {
    |points| >= 3 ==> IsRoot(root, Variation(InternalSeries(points)), Variation(ReferenceSeries(points)))
  }

  function Magnitudes(points: seq<Point>): (r: seq<int>)
    ensures |r| == |points|
    ensures forall i :: 0 <= i < |points| ==>
              r[i] == if points[i].deviationPercent < 0 then -points[i].deviationPercent else points[i].deviationPercent
  {
    seq(|points|, i requires 0 <= i < |points| =>
      if points[i].deviationPercent < 0 then -points[i].deviationPercent else points[i].deviationPercent)
  }

  function PointCoverages(points: seq<Point>): (r: seq<int>)
    ensures |r| == |points| && forall i :: 0 <= i < |points| ==> r[i] == points[i].coverage
  {
    seq(|points|, i requires 0 <= i < |points| => points[i].coverage)
  }

  function MeanIfAny(s: seq<int>): Option<int> {
    if s == [] then None else Some(Periods.RoundedMean(s))
  }

  /** Mean absolute deviation and average coverage are in units of 1e-4. */
  datatype Report = Report(
    points: seq<Point>,
    correlation: Coefficient,
    meanDeviation: Option<int>,
    averageCoverage: Option<int>,
    routes: seq<seq<RouteComparisons.RouteComparison>>,    // of each overlapping month
    warnings: seq<BacktestWarning>)

  /** The first overlapping month cannot serve as a base. */
  ghost predicate ZeroBase(overlap: seq<Month>, references: map<int, real>) {
    overlap != [] && (overlap[0].value == 0.0
                      || (overlap[0].start in references && references[overlap[0].start] == 0.0))
  }

  /** The components of the months, by start. */
  type MonthComponents = map<int, RouteComparisons.Period>

  predicate Described(months: seq<Month>, components: MonthComponents) {
    forall i :: 0 <= i < |months| ==> months[i].start in components && components[months[i].start].expected > 0
  }

  function PeriodsOf(overlap: seq<Month>, components: MonthComponents): (r: seq<RouteComparisons.Period>)
    requires Described(overlap, components)
    ensures |r| == |overlap| && forall i :: 0 <= i < |overlap| ==> r[i] == components[overlap[i].start]
  {
    seq(|overlap|, i requires 0 <= i < |overlap| => components[overlap[i].start])
  }

  /** The route comparisons of each overlapping month. */
  ghost predicate Compared(routes: seq<seq<RouteComparisons.RouteComparison>>, overlap: seq<Month>,
                           components: MonthComponents)
    requires Described(overlap, components)
  {
    && |routes| == |overlap|
    && forall i :: 0 <= i < |overlap| ==>
         var p := components[overlap[i].start];
         RouteComparisons.Compares(routes[i], p.days, p.value, p.expected)
  }

  /** The coefficient is missing for fewer than three points or a constant series, and is otherwise the
      covariance of the two rebased series over `root`, to the nearest millionth. */
  ghost predicate CorrelationIsRight(points: seq<Point>, c: Coefficient, root: real) {
    var xs, ys := InternalSeries(points), ReferenceSeries(points);
    && (c.status == INSUFFICIENT_OVERLAP <==> |points| < 3)
    && (c.status == CONSTANT_SERIES <==> |points| >= 3 && (Constant(xs) || Constant(ys)))
    && (c.value.Some? <==> c.status == CALCULATED)
    && (c.value.Some? ==> |points| >= 3 && IsCoefficient(c.value.value, Covariation(xs, ys), root))
  }

  lemma CorrelationOf(points: seq<Point>, root: real)
    requires RootFor(points, root)
    ensures CorrelationIsRight(points, Correlate(InternalSeries(points), ReferenceSeries(points), root), root)
  {
    var xs, ys := InternalSeries(points), ReferenceSeries(points);
    StatusCases(xs, ys, root);
    if |points| >= 3 {
      CoefficientIs(xs, ys, root);
    }
    hide Correlate, Variation, Covariation, IsRoot, IsCoefficient, Constant;
  }

  /** The deviation of a point is what its internal side exceeds its reference side by, up to the rounding of
      the three columns. */
  ghost predicate Deviates(p: Point) {
    -1 <= p.deviation - (p.internalRebased - p.referenceRebased) <= 1
  }

  ghost predicate AllDeviate(points: seq<Point>) {
    forall i :: 0 <= i < |points| ==> Deviates(points[i])
  }

  lemma ExpectedDeviate(months: seq<Month>, references: map<int, real>)
    ensures AllDeviate(ExpectedPoints(months, references))
  {
    ExpectedCases(months, references);
    var overlap, points := Overlap(months, references), ExpectedPoints(months, references);
    hide Overlap, ExpectedPoints, PointFor, Deviates;
    forall i | 0 <= i < |points|
      ensures Deviates(points[i])
    {
      PointDeviates(overlap[i], references[overlap[i].start], overlap[0].value, references[overlap[0].start]);
    }
  }

  /** The columns of one month: both sides as percentages of their values in the base month, the first less the
      second, and that as a percentage of the second, each to the nearest unit of its column. */
  lemma PointDeviates(m: Month, reference: real, internalBase: real, referenceBase: real)
    requires internalBase != 0.0 && referenceBase != 0.0 && reference != 0.0
    ensures var p := PointFor(m, reference, internalBase, referenceBase);
            var internal, rebased := 100.0 * m.value / internalBase, 100.0 * reference / referenceBase;
            && Deviates(p) && rebased != 0.0
            && Nearest(p.internalRebased, internal * 100000000.0) && Nearest(p.referenceRebased, rebased * 100000000.0)
            && Nearest(p.deviation, (internal - rebased) * 100000000.0)
            && Nearest(p.deviationPercent, 100.0 * (internal - rebased) / rebased * 10000.0)
            && p.start == m.start && p.internal == m.value && p.reference == reference && p.coverage == m.coverage
  {
    RebasedNotZero(reference, referenceBase);
    NearestOf(100.0 * m.value / internalBase * 100000000.0);
    NearestOf(100.0 * reference / referenceBase * 100000000.0);
    NearestOf((100.0 * m.value / internalBase - 100.0 * reference / referenceBase) * 100000000.0);
    var internal, rebased := Rebased(m.value, internalBase), Rebased(reference, referenceBase);
    NearestOf(100.0 * (internal - rebased) / rebased * 10000.0);
    hide Rounding.HalfEven;
  }

  ghost predicate Nearest(n: int, x: real) {
    -0.5 <= x - n as real <= 0.5
  }

  lemma NearestOf(x: real)
    ensures Nearest(Rounding.HalfEven(x), x)
  {
  }

  /** `build_backtest`.  It fails exactly when both bases are non-zero and a later overlapping reference is
      zero. */
  method BuildBacktest(months: seq<Month>, references: map<int, real>, components: MonthComponents, root: real)
    returns (r: Result<Report, BacktestError>)
    requires Described(months, components)
    requires RootFor(ExpectedPoints(months, references), root)
    ensures var overlap := Overlap(months, references);
            && (r.Err? <==> overlap != [] && !ZeroBase(overlap, references) && !Divisible(overlap, references))
            && Described(overlap, components)
            && (r.Ok? ==>
                  && r.value.points == ExpectedPoints(months, references)
                  && Compared(r.value.routes, overlap, components)
                  && r.value.correlation == Correlate(InternalSeries(r.value.points),
                                                      ReferenceSeries(r.value.points), root)
                  && CorrelationIsRight(r.value.points, r.value.correlation, root)
                  && AllDeviate(r.value.points)
                  && r.value.meanDeviation == MeanIfAny(Magnitudes(r.value.points))
                  && r.value.averageCoverage == MeanIfAny(PointCoverages(r.value.points))
                  && (NO_OVERLAPPING_MONTHS in r.value.warnings <==> overlap == [])
                  && (INVALID_REBASE_VALUE in r.value.warnings <==> ZeroBase(overlap, references))
                  && (CORRELATION(r.value.correlation.status) in r.value.warnings
                      <==> r.value.correlation.status != CALCULATED))
  {
    var overlap := Overlap(months, references);
    OverlapAre(months, references);
    forall i | 0 <= i < |overlap|
      ensures overlap[i].start in references
    {
      assert overlap[i] in overlap;
    }
    OverlapDescribed(months, references, components);
    ExpectedCases(months, references);
    CorrelationOf(ExpectedPoints(months, references), root);
    ExpectedDeviate(months, references);
    hide RouteComparisons.Compares, Described, CorrelationIsRight, AllDeviate;
    hide Overlap, RootFor, IsRoot, Variation, Correlate, PointsOf, MeanIfAny, Magnitudes, PointCoverages,
         InternalSeries, ReferenceSeries, ExpectedPoints;
    var warnings, points := [], [];
    if overlap != [] {
      var internalBase, referenceBase := overlap[0].value, references[overlap[0].start];
      if internalBase == 0.0 || referenceBase == 0.0 {
        warnings := warnings + [INVALID_REBASE_VALUE];
      } else {
        var collected := CollectPoints(overlap, references, internalBase, referenceBase);
        if collected.Err? {
          return Err(DivisionByZero);
        }
        points := collected.value;
      }
    } else {
      warnings := warnings + [NO_OVERLAPPING_MONTHS];
    }
    assert points == ExpectedPoints(months, references);
    var correlation := Correlate(InternalSeries(points), ReferenceSeries(points), root);
    if correlation.status != CALCULATED {
      warnings := warnings + [CORRELATION(correlation.status)];
    }
    var routes := CompareMonths(overlap, components);
    r := Ok(Report(points, correlation, MeanIfAny(Magnitudes(points)), MeanIfAny(PointCoverages(points)), routes,
                   warnings));
  }

  method CompareMonths(overlap: seq<Month>, components: MonthComponents)
    returns (routes: seq<seq<RouteComparisons.RouteComparison>>)
    requires Described(overlap, components)
    ensures Compared(routes, overlap, components)
  {
    routes := RouteComparisons.ComparePeriods(PeriodsOf(overlap, components));
    hide RouteComparisons.Compares;
  }

  lemma {:induction false} OverlapDescribed(months: seq<Month>, references: map<int, real>, components: MonthComponents)
    requires Described(months, components)
    ensures Described(Overlap(months, references), components)
  {
    if months != [] {
      OverlapDescribed(months[..|months| - 1], references, components);
    }
  }

  /** Each mean is missing exactly without points and lies within the bounds of its column. */
  lemma MeansWithin(points: seq<Point>, deviation: int, lo: int, hi: int)
    requires forall i :: 0 <= i < |points| ==> -deviation <= points[i].deviationPercent <= deviation
    requires forall i :: 0 <= i < |points| ==> lo <= points[i].coverage <= hi
    ensures var mean, average := MeanIfAny(Magnitudes(points)), MeanIfAny(PointCoverages(points));
            && (mean.Some? <==> points != []) && (average.Some? <==> points != [])
            && (points != [] ==> 0 <= mean.value <= deviation && lo <= average.value <= hi)
  {
    if points != [] {
      Periods.RoundedMeanBetween(Magnitudes(points), 0, deviation);
      Periods.RoundedMeanBetween(PointCoverages(points), lo, hi);
    }
    hide Periods.RoundedMean;
  }

  // ---------------------------------------------------------------------------------------------
  // What a back-test says

  lemma RebasedSelf(base: real)
    requires base != 0.0
    ensures Rebased(base, base) == 100.0
  {
  }

  /** The first overlapping month is 100 on both sides. */
  lemma FirstMonthIs100(months: seq<Month>, references: map<int, real>)
    ensures ExpectedPoints(months, references) != [] ==>
              var p := ExpectedPoints(months, references)[0];
              && p.internalRebased == p.referenceRebased == 100_0000_0000
              && p.deviation == 0 && p.deviationPercent == 0
  {
    var overlap := Overlap(months, references);
    if ExpectedPoints(months, references) != [] {
      RebasedSelf(overlap[0].value);
      RebasedSelf(references[overlap[0].start]);
    }
    Rounding.HalfEvenFixesIntegers(100_0000_0000);
    Rounding.HalfEvenFixesIntegers(0);
    hide Overlap, Rebased, Rounding.HalfEven;
  }

  /** The reference is a non-zero multiple of the index in every overlapping month. */
  ghost predicate Proportional(overlap: seq<Month>, references: map<int, real>, k: real) {
    k != 0.0 && forall i :: 0 <= i < |overlap| ==>
      overlap[i].start in references && references[overlap[i].start] == k * overlap[i].value
  }

  lemma ProportionalRebased(value: real, base: real, k: real)
    requires base != 0.0 && k != 0.0
    ensures k * base != 0.0 && Rebased(k * value, k * base) == Rebased(value, base)
  {
    var q := Rebased(value, base);
    assert q * base == 100.0 * value;
    assert k * base != 0.0;
    assert q * (k * base) == 100.0 * (k * value);
  }

  /** Against a reference proportional to itself an index deviates nowhere, and a coefficient that can
      be calculated is exactly one, rounding of the rebased values included. */
  lemma ProportionalAgrees(months: seq<Month>, references: map<int, real>, k: real, root: real)
    requires Proportional(Overlap(months, references), references, k)
    requires RootFor(ExpectedPoints(months, references), root)
    ensures var points := ExpectedPoints(months, references);
            && (forall i :: 0 <= i < |points| ==> points[i].deviation == 0 && points[i].deviationPercent == 0)
            && (points != [] ==> MeanIfAny(Magnitudes(points)) == Some(0))
            && InternalSeries(points) == ReferenceSeries(points)
            && (|points| >= 3 ==>
                  var c := Correlate(InternalSeries(points), ReferenceSeries(points), root);
                  c.status == CALCULATED ==> c.value == Some(1000000))
  {
    var points := ExpectedPoints(months, references);
    ProportionalPoints(months, references, k);
    if points != [] {
      Periods.RoundedMeanBetween(Magnitudes(points), 0, 0);
    }
    hide ExpectedPoints, Periods.RoundedMean, Overlap, Proportional, Correlate, Variation, IsRoot;
    assert InternalSeries(points) == ReferenceSeries(points);
    if |points| >= 3 {
      AgreementIsOne(InternalSeries(points), root);
    }
  }

  lemma ProportionalPoints(months: seq<Month>, references: map<int, real>, k: real)
    requires Proportional(Overlap(months, references), references, k)
    ensures forall i :: 0 <= i < |ExpectedPoints(months, references)| ==>
              var p := ExpectedPoints(months, references)[i];
              p.deviation == 0 && p.deviationPercent == 0 && p.internalRebased == p.referenceRebased
  {
    var points, overlap := ExpectedPoints(months, references), Overlap(months, references);
    hide PointFor, Rebased, Overlap;
    forall i | 0 <= i < |points|
      ensures points[i].deviation == 0 && points[i].deviationPercent == 0
      ensures points[i].internalRebased == points[i].referenceRebased
    {
      var value, base := overlap[i].value, overlap[0].value;
      assert references[overlap[i].start] == k * value && references[overlap[0].start] == k * base;
      ProportionalRebased(value, base, k);
      AgreeingPoint(overlap[i], references[overlap[i].start], overlap[0].value, references[overlap[0].start]);
    }
  }

  lemma AgreeingPoint(m: Month, reference: real, internalBase: real, referenceBase: real)
    requires internalBase != 0.0 && referenceBase != 0.0 && reference != 0.0
    requires Rebased(m.value, internalBase) == Rebased(reference, referenceBase)
    ensures var p := PointFor(m, reference, internalBase, referenceBase);
            p.deviation == 0 && p.deviationPercent == 0 && p.internalRebased == p.referenceRebased
  {
    RebasedNotZero(reference, referenceBase);
    Rounding.HalfEvenFixesIntegers(0);
    hide Rebased, Rounding.HalfEven;
  }

  lemma AgreementIsOne(xs: seq<real>, root: real)
    requires |xs| >= 3 && IsRoot(root, Variation(xs), Variation(xs))
    ensures Correlate(xs, xs, root).status == CALCULATED ==> Correlate(xs, xs, root).value == Some(1000000)
  {
    StatusCases(xs, xs, root);
    if !Constant(xs) {
      IdentityMap(xs);
      hide Correlate, IsRoot, Variation, Constant;
      PerfectFit(1.0, 0.0, xs, root);
    }
  }

  lemma IdentityMap(xs: seq<real>)
    ensures Medians.Map(Medians.Affine(1.0, 0.0), xs) == xs
  {
  }

  // ---------------------------------------------------------------------------------------------
  // Units do not matter

  function TimesMonth(m: Month, j: real): Month {
    m.(value := j * m.value)
  }

  function Times(months: seq<Month>, j: real): (r: seq<Month>)
    ensures |r| == |months| && forall i :: 0 <= i < |months| ==> r[i] == TimesMonth(months[i], j)
  {
    seq(|months|, i requires 0 <= i < |months| => TimesMonth(months[i], j))
  }

  function TimesAll(references: map<int, real>, k: real): map<int, real> {
    map start | start in references :: k * references[start]
  }

  lemma TimesTail(months: seq<Month>, j: real)
    requires months != []
    ensures Times(months, j) != []
    ensures var n := |months| - 1;
            Times(months, j)[..n] == Times(months[..n], j) && Times(months, j)[n] == TimesMonth(months[n], j)
            && |Times(months, j)| == |months|
  {
    hide TimesMonth;
  }

  lemma TimesAppend(months: seq<Month>, more: seq<Month>, j: real)
    ensures Times(months + more, j) == Times(months, j) + Times(more, j)
  {
    hide TimesMonth;
  }

  lemma TimesOne(m: Month, j: real)
    ensures Times([m], j) == [TimesMonth(m, j)] && Times([], j) == []
  {
    hide TimesMonth;
  }

  function IfIn(m: Month, references: map<int, real>): seq<Month> {
    if m.start in references then [m] else []
  }

  lemma IfInTimes(m: Month, references: map<int, real>, j: real, k: real)
    ensures IfIn(TimesMonth(m, j), TimesAll(references, k)) == Times(IfIn(m, references), j)
  {
    TimesOne(m, j);
  }

  lemma OverlapTail(months: seq<Month>, references: map<int, real>)
    requires months != []
    ensures var n := |months| - 1;
            Overlap(months, references) == Overlap(months[..n], references) + IfIn(months[n], references)
  {
  }

  lemma NoOverlapTimes(references: map<int, real>, j: real, k: real)
    ensures Overlap(Times([], j), TimesAll(references, k)) == Times(Overlap([], references), j)
  {
    assert Times([], j) == [];
  }

  lemma {:induction false} OverlapTimes(months: seq<Month>, references: map<int, real>, j: real, k: real)
    ensures Overlap(Times(months, j), TimesAll(references, k)) == Times(Overlap(months, references), j)
  {
    hide *;
    if months == [] {
      NoOverlapTimes(references, j, k);
    } else {
      var n := |months| - 1;
      OverlapTimes(months[..n], references, j, k);
      TimesTail(months, j);
      OverlapTail(Times(months, j), TimesAll(references, k));
      OverlapTail(months, references);
      TimesAppend(Overlap(months[..n], references), IfIn(months[n], references), j);
      IfInTimes(months[n], references, j, k);
    }
  }

  /** Equal in every column that is computed. */
  predicate SameRebased(p: Point, q: Point) {
    && p.start == q.start && p.internalRebased == q.internalRebased && p.referenceRebased == q.referenceRebased
    && p.deviation == q.deviation && p.deviationPercent == q.deviationPercent && p.coverage == q.coverage
  }

  lemma SamePoint(m: Month, n: Month, reference: real, other: real, internal: real, rebased: real)
    requires rebased != 0.0 && n.start == m.start && n.coverage == m.coverage
    ensures SameRebased(PointWith(n, other, internal, rebased), PointWith(m, reference, internal, rebased))
  {
    hide Rounding.HalfEven;
  }

  lemma PointForIs(m: Month, reference: real, internalBase: real, referenceBase: real)
    requires internalBase != 0.0 && referenceBase != 0.0 && reference != 0.0
    ensures Rebased(reference, referenceBase) != 0.0
    ensures PointFor(m, reference, internalBase, referenceBase)
         == PointWith(m, reference, Rebased(m.value, internalBase), Rebased(reference, referenceBase))
  {
    RebasedNotZero(reference, referenceBase);
    hide PointWith, Rebased;
  }

  lemma TimesMonthIs(m: Month, j: real)
    ensures var n := TimesMonth(m, j); n.start == m.start && n.coverage == m.coverage && n.value == j * m.value
  {
  }

  lemma PointTimes(m: Month, n: Month, reference: real, other: real, internalBase: real, otherInternal: real,
                   referenceBase: real, otherReference: real, j: real, k: real)
    requires internalBase != 0.0 && referenceBase != 0.0 && reference != 0.0 && j != 0.0 && k != 0.0
    requires n == TimesMonth(m, j) && other == k * reference
    requires otherInternal == j * internalBase && otherReference == k * referenceBase
    ensures otherInternal != 0.0 && otherReference != 0.0 && other != 0.0
    ensures SameRebased(PointFor(n, other, otherInternal, otherReference),
                        PointFor(m, reference, internalBase, referenceBase))
  {
    hide *;
    ProportionalRebased(m.value, internalBase, j);
    ProportionalRebased(reference, referenceBase, k);
    NonZeroProduct(k, reference);
    TimesMonthIs(m, j);
    PointForIs(m, reference, internalBase, referenceBase);
    PointForIs(n, other, otherInternal, otherReference);
    SamePoint(m, n, reference, other, Rebased(m.value, internalBase), Rebased(reference, referenceBase));
  }

  lemma NonZeroProduct(k: real, x: real)
    ensures k != 0.0 ==> (k * x == 0.0 <==> x == 0.0)
  {
  }

  lemma UsableMonth(m: Month, references: map<int, real>, j: real, k: real)
    requires j != 0.0 && k != 0.0
    ensures var n := TimesMonth(m, j);
            && n.start == m.start && n.value == j * m.value && (n.value == 0.0 <==> m.value == 0.0)
            && (m.start in TimesAll(references, k) <==> m.start in references)
            && (m.start in references ==>
                TimesAll(references, k)[m.start] == k * references[m.start]
                && (TimesAll(references, k)[m.start] == 0.0 <==> references[m.start] == 0.0))
  {
    NonZeroProduct(j, m.value);
    if m.start in references {
      NonZeroProduct(k, references[m.start]);
    }
  }

  lemma UsableTimes(overlap: seq<Month>, references: map<int, real>, j: real, k: real)
    requires j != 0.0 && k != 0.0
    ensures Divisible(Times(overlap, j), TimesAll(references, k)) <==> Divisible(overlap, references)
  {
    forall i | 0 <= i < |overlap|
      ensures Times(overlap, j)[i].start == overlap[i].start
      ensures overlap[i].start in TimesAll(references, k) <==> overlap[i].start in references
      ensures overlap[i].start in references ==>
                (TimesAll(references, k)[overlap[i].start] == 0.0 <==> references[overlap[i].start] == 0.0)
    {
      UsableMonth(overlap[i], references, j, k);
    }
    hide TimesMonth, TimesAll;
  }

  lemma PointsOfAt(overlap: seq<Month>, references: map<int, real>, internalBase: real, referenceBase: real, i: nat)
    requires i < |overlap| && internalBase != 0.0 && referenceBase != 0.0 && Divisible(overlap, references)
    ensures overlap[i].start in references && references[overlap[i].start] != 0.0
    ensures |PointsOf(overlap, references, internalBase, referenceBase)| == |overlap|
    ensures PointsOf(overlap, references, internalBase, referenceBase)[i]
         == PointFor(overlap[i], references[overlap[i].start], internalBase, referenceBase)
  {
    hide PointFor;
  }

  lemma PointTimesAt(overlap: seq<Month>, references: map<int, real>, j: real, k: real, i: nat)
    requires j != 0.0 && k != 0.0 && i < |overlap| && Divisible(overlap, references)
    requires overlap[0].value != 0.0 && overlap[0].start in references && references[overlap[0].start] != 0.0
    requires Divisible(Times(overlap, j), TimesAll(references, k))
    ensures var scaled := Times(overlap, j);
            && |scaled| == |overlap| && scaled[0].value != 0.0 && scaled[0].start in TimesAll(references, k)
            && TimesAll(references, k)[scaled[0].start] != 0.0
            && var points := PointsOf(overlap, references, overlap[0].value, references[overlap[0].start]);
               var others := PointsOf(scaled, TimesAll(references, k), scaled[0].value,
                                      TimesAll(references, k)[scaled[0].start]);
               |others| == |points| == |overlap| && SameRebased(others[i], points[i])
  {
    hide *;
    var scaled, all := Times(overlap, j), TimesAll(references, k);
    TimesIndex(overlap, j, 0);
    TimesIndex(overlap, j, i);
    UsableMonth(overlap[0], references, j, k);
    UsableMonth(overlap[i], references, j, k);
    PointsOfAt(overlap, references, overlap[0].value, references[overlap[0].start], i);
    PointsOfAt(scaled, all, scaled[0].value, all[scaled[0].start], i);
    PointTimes(overlap[i], scaled[i], references[overlap[i].start], all[overlap[i].start], overlap[0].value,
               scaled[0].value, references[overlap[0].start], all[overlap[0].start], j, k);
  }

  lemma TimesIndex(months: seq<Month>, j: real, i: nat)
    requires i < |months|
    ensures |Times(months, j)| == |months| && Times(months, j)[i] == TimesMonth(months[i], j)
  {
    hide TimesMonth;
  }

  ghost predicate AllSame(scaled: seq<Point>, points: seq<Point>) {
    |scaled| == |points| && forall i :: 0 <= i < |points| ==> SameRebased(scaled[i], points[i])
  }

  lemma PointsTimes(months: seq<Month>, references: map<int, real>, j: real, k: real)
    requires j != 0.0 && k != 0.0
    ensures AllSame(ExpectedPoints(Times(months, j), TimesAll(references, k)), ExpectedPoints(months, references))
  {
    var overlap := Overlap(months, references);
    OverlapTimes(months, references, j, k);
    UsableTimes(overlap, references, j, k);
    ExpectedCases(months, references);
    ExpectedCases(Times(months, j), TimesAll(references, k));
    hide Overlap, TimesMonth, TimesAll, PointFor, SameRebased, ExpectedPoints, PointsOf, Divisible;
    if overlap != [] {
      UsableMonth(overlap[0], references, j, k);
      if Divisible(overlap, references) && overlap[0].value != 0.0 {
        forall i: nat | i < |overlap|
          ensures SameRebased(ExpectedPoints(Times(months, j), TimesAll(references, k))[i],
                              ExpectedPoints(months, references)[i])
        {
          PointTimesAt(overlap, references, j, k, i);
        }
        PointTimesAt(overlap, references, j, k, 0);
      }
    }
  }

  lemma SameColumns(scaled: seq<Point>, points: seq<Point>)
    requires AllSame(scaled, points)
    ensures InternalSeries(scaled) == InternalSeries(points) && ReferenceSeries(scaled) == ReferenceSeries(points)
    ensures Magnitudes(scaled) == Magnitudes(points) && PointCoverages(scaled) == PointCoverages(points)
  {
  }

  /** A back-test does not depend on the units of either series: scaling all index values by one non-zero
      number and all references by another changes none of its rebased values, deviations and means, nor
      what its correlation is taken of, roundings included. */
  lemma UnitsDoNotMatter(months: seq<Month>, references: map<int, real>, j: real, k: real)
    requires j != 0.0 && k != 0.0
    ensures var points := ExpectedPoints(months, references);
            var scaled := ExpectedPoints(Times(months, j), TimesAll(references, k));
            && AllSame(scaled, points)
            && InternalSeries(scaled) == InternalSeries(points) && ReferenceSeries(scaled) == ReferenceSeries(points)
            && MeanIfAny(Magnitudes(scaled)) == MeanIfAny(Magnitudes(points))
            && MeanIfAny(PointCoverages(scaled)) == MeanIfAny(PointCoverages(points))
  {
    PointsTimes(months, references, j, k);
    hide *;
    SameColumns(ExpectedPoints(Times(months, j), TimesAll(references, k)), ExpectedPoints(months, references));
  }

  function RebasedSeries(s: seq<real>, base: real): (r: seq<real>)
    requires base != 0.0
    ensures |r| == |s| && forall i :: 0 <= i < |s| ==> r[i] == Rebased(s[i], base)
  {
    seq(|s|, i requires 0 <= i < |s| => Rebased(s[i], base))
  }

  /** In exact arithmetic rebasing both series to 100 leaves their correlation alone. */
  lemma RebasingKeepsCorrelation(xs: seq<real>, ys: seq<real>, xBase: real, yBase: real, root: real, rebasedRoot: real)
    requires |xs| == |ys| >= 3 && xBase > 0.0 && yBase > 0.0
    requires IsRoot(root, Variation(xs), Variation(ys))
    requires IsRoot(rebasedRoot, Variation(RebasedSeries(xs, xBase)), Variation(RebasedSeries(ys, yBase)))
    ensures Correlate(RebasedSeries(xs, xBase), RebasedSeries(ys, yBase), rebasedRoot) == Correlate(xs, ys, root)
  {
    var kx, ky := 100.0 / xBase, 100.0 / yBase;
    var rx, ry := RebasedSeries(xs, xBase), RebasedSeries(ys, yBase);
    SeriesIsScaling(xs, xBase);
    SeriesIsScaling(ys, yBase);
    assert kx > 0.0 && ky > 0.0;
    hide Correlate, Variation, IsRoot, Medians.Map, RebasedSeries;
    ScaledRoot(kx, xs, ys, root);
    AffineInvariant(kx, 0.0, xs, ys, root, kx * root);
    Symmetric(rx, ys, kx * root);
    Symmetric(rx, ry, rebasedRoot);
    AffineInvariant(ky, 0.0, ys, rx, kx * root, rebasedRoot);
  }

  lemma ScaledRoot(k: real, xs: seq<real>, ys: seq<real>, root: real)
    requires k > 0.0 && xs != [] && |xs| == |ys| && IsRoot(root, Variation(xs), Variation(ys))
    ensures IsRoot(k * root, Variation(Medians.Map(Medians.Affine(k, 0.0), xs)), Variation(ys))
  {
    hide *;
    AffineSums(k, 0.0, xs, ys);
    RootScales(k, Variation(xs), Variation(ys), root);
  }

  lemma SeriesIsScaling(s: seq<real>, base: real)
    requires base > 0.0
    ensures RebasedSeries(s, base) == Medians.Map(Medians.Affine(100.0 / base, 0.0), s)
  {
    forall i | 0 <= i < |s|
      ensures Medians.Affine(100.0 / base, 0.0)(s[i]) == Rebased(s[i], base)
    {
      RebasedIsScaling(s[i], base);
    }
    hide Rebased, Medians.Affine;
  }

  lemma RebasedIsScaling(value: real, base: real)
    requires base > 0.0
    ensures Medians.Affine(100.0 / base, 0.0)(value) == Rebased(value, base)
  {
    var q := 100.0 / base;
    assert q * base == 100.0;
    assert q * value * base == 100.0 * value;
  }
}
