/** Weekly and monthly metrics over stored daily indices (`indexing/periods.py`,
    `calculate_period_metrics`).

    Stored numbers are whole counts of their column's last digit: index values in units of 1e-8,
    coverage in units of 1e-4 percent.
 */
module Periods {
  import opened Aggregates
  import opened Options
  import opened Methodology
  import opened Calendar
  import Rounding

  const ONE_PERCENT := 1_0000
  const MINIMUM_COVERAGE := 80 * ONE_PERCENT

  datatype DailyIndex = DailyIndex(
    run: nat,
    date: CalendarDate,
    value: Option<int>,
    coverage: int,
    status: PublicationStatus,
    version: string,
    components: seq<Component>)

  datatype AggregationStatus = COMPLETE | PARTIAL | LOW_COVERAGE | NO_DATA

  datatype Confidence = HIGH | MEDIUM | LOW | INSUFFICIENT

  datatype Warning =
    | PARTIAL_PERIOD
    | PROVISIONAL_BASE_DAYS_EXCLUDED
    | LOW_COVERAGE_DAYS_EXCLUDED
    | SINGLE_SOURCE
    | NO_PUBLISHED_VALUES

  datatype PeriodMetrics = PeriodMetrics(
    value: Option<int>,
    averageCoverage: int,
    minimumCoverage: int,
    expected: int,
    observed: nat,
    valued: nat,
    lowCoverage: nat,
    sources: nat,
    confidence: Confidence,
    status: AggregationStatus,
    warnings: seq<Warning>)

  predicate IsPublished(row: DailyIndex) {
    row.status == PUBLISHED && row.value.Some?
  }

  predicate IsLow(row: DailyIndex, minimum: int) {
    row.coverage < minimum || row.status == INSUFFICIENT_COVERAGE
  }

  function PublishedValues(rows: seq<DailyIndex>): seq<int> {
    if rows == [] then []
    else
      var last := rows[|rows| - 1];
      PublishedValues(rows[..|rows| - 1]) + (if IsPublished(last) then [last.value.value] else [])
  }

  function Coverages(rows: seq<DailyIndex>): (r: seq<int>)
    ensures |r| == |rows|
  {
    if rows == [] then [] else Coverages(rows[..|rows| - 1]) + [rows[|rows| - 1].coverage]
  }

  function CountLow(rows: seq<DailyIndex>, minimum: int): nat {
    if rows == [] then 0
    else CountLow(rows[..|rows| - 1], minimum) + (if IsLow(rows[|rows| - 1], minimum) then 1 else 0)
  }

  predicate AnyProvisional(rows: seq<DailyIndex>) {
    exists i :: 0 <= i < |rows| && rows[i].status == PROVISIONAL_BASE
  }

  /** `(sum(values) / len(values)).quantize(...)`, in the values' own units. */
  function RoundedMean(s: seq<int>): int
    requires s != []
  {
    Rounding.HalfEven(Sum(s) as real / |s| as real)
  }

  function WarningsFor(rows: seq<DailyIndex>, expected: int, sources: nat, minimum: int): seq<Warning> {
    (if |rows| < expected then [PARTIAL_PERIOD] else [])
    + (if AnyProvisional(rows) then [PROVISIONAL_BASE_DAYS_EXCLUDED] else [])
    + (if CountLow(rows, minimum) > 0 then [LOW_COVERAGE_DAYS_EXCLUDED] else [])
    + (if rows != [] && sources < 2 then [SINGLE_SOURCE] else [])
    + (if PublishedValues(rows) == [] then [NO_PUBLISHED_VALUES] else [])
  }

  function Metrics(rows: seq<DailyIndex>, expected: int, sources: nat, minimum: int): PeriodMetrics {
    var published, low := PublishedValues(rows), CountLow(rows, minimum);
    var average := if rows == [] then 0 else RoundedMean(Coverages(rows));
    var status :=
      if published == [] then NO_DATA
      else if low > 0 then LOW_COVERAGE
      else if |rows| == expected && |published| == expected then COMPLETE
      else PARTIAL;
    var confidence :=
      match status
      case NO_DATA => INSUFFICIENT
      case LOW_COVERAGE => INSUFFICIENT
      case COMPLETE => if average >= 95 * ONE_PERCENT && sources >= 2 then HIGH else LOW
      case PARTIAL => if average >= minimum && 2 * |published| >= expected && sources >= 2 then MEDIUM else LOW;
    PeriodMetrics(
      if published == [] then None else Some(RoundedMean(published)),
      average, Least(Coverages(rows)), expected, |rows|, |published|, low, sources,
      confidence, status, WarningsFor(rows, expected, sources, minimum))
  }

  datatype PeriodError = NoExpectedDays

  /** `calculate_period_metrics`. */
  method CalculatePeriodMetrics(rows: seq<DailyIndex>, expected: int, sources: nat, minimum: int)
    returns (r: Result<PeriodMetrics, PeriodError>)
    ensures r.Err? <==> expected <= 0
    ensures r.Ok? ==> r.value == Metrics(rows, expected, sources, minimum)
  {
    if expected <= 0 {
      return Err(NoExpectedDays);
    }
    hide RoundedMean, PublishedValues, CountLow, Coverages, Least, WarningsFor;
    var coverages, published, low := Coverages(rows), PublishedValues(rows), CountLow(rows, minimum);
    var average := if coverages == [] then 0 else RoundedMean(coverages);
    var warnings := CollectWarnings(rows, expected, sources, minimum);
    var value := if published == [] then None else Some(RoundedMean(published));
    var status, confidence;
    if value.None? {
      status, confidence := NO_DATA, INSUFFICIENT;
    } else if low > 0 {
      status, confidence := LOW_COVERAGE, INSUFFICIENT;
    } else if |rows| == expected && |published| == expected {
      status := COMPLETE;
      confidence := if average >= 95 * ONE_PERCENT && sources >= 2 then HIGH else LOW;
    } else {
      status := PARTIAL;
      var completion := |published| as real / expected as real;
      HalfComplete(|published|, expected);
      confidence := if average >= minimum && completion >= 0.5 && sources >= 2 then MEDIUM else LOW;
    }
    r := Ok(PeriodMetrics(value, average, Least(coverages), expected, |rows|, |published|, low, sources,
                          confidence, status, warnings));
  }

  /** The warning list, appended in the order the conditions are tested. */
  method CollectWarnings(rows: seq<DailyIndex>, expected: int, sources: nat, minimum: int)
    returns (warnings: seq<Warning>)
    ensures warnings == WarningsFor(rows, expected, sources, minimum)
  {
    hide PublishedValues, CountLow, AnyProvisional;
    warnings := [];
    if |rows| < expected {
      warnings := warnings + [PARTIAL_PERIOD];
    }
    if AnyProvisional(rows) {
      warnings := warnings + [PROVISIONAL_BASE_DAYS_EXCLUDED];
    }
    if CountLow(rows, minimum) > 0 {
      warnings := warnings + [LOW_COVERAGE_DAYS_EXCLUDED];
    }
    if rows != [] && sources < 2 {
      warnings := warnings + [SINGLE_SOURCE];
    }
    if PublishedValues(rows) == [] {
      warnings := warnings + [NO_PUBLISHED_VALUES];
    }
  }

  lemma HalfComplete(published: nat, expected: int)
    requires expected > 0
    ensures published as real / expected as real >= 0.5 <==> 2 * published >= expected
  {
    CompareQuotient(published as real, expected as real, 0.5);
  }

  // ---------------------------------------------------------------------------------------------
  // Label soundness

  /** A row as the engine writes it at the default threshold: a published row carries a value and at
      least the minimum coverage, and no other status than the three of `calculate` occurs. */
  predicate EngineRow(row: DailyIndex) {
    && row.status in {PUBLISHED, INSUFFICIENT_COVERAGE, PROVISIONAL_BASE}
    && (row.status == PUBLISHED ==> row.value.Some? && row.coverage >= MINIMUM_COVERAGE)
  }

  ghost predicate EngineRows(rows: seq<DailyIndex>) {
    forall i :: 0 <= i < |rows| ==> EngineRow(rows[i])
  }

  lemma {:induction false} AllPublished(rows: seq<DailyIndex>)
    requires EngineRows(rows)
    ensures |PublishedValues(rows)| <= |rows|
    ensures |PublishedValues(rows)| == |rows| <==> forall i :: 0 <= i < |rows| ==> rows[i].status == PUBLISHED
  {
    if rows != [] {
      var head := rows[..|rows| - 1];
      AllPublished(head);
      if forall i :: 0 <= i < |head| ==> head[i].status == PUBLISHED {
      } else {
        var i :| 0 <= i < |head| && head[i].status != PUBLISHED;
        assert rows[i].status != PUBLISHED;
      }
    }
  }

  lemma {:induction false} NoLowRow(rows: seq<DailyIndex>, minimum: int)
    ensures CountLow(rows, minimum) == 0 <==> forall i :: 0 <= i < |rows| ==> !IsLow(rows[i], minimum)
  {
    if rows != [] {
      var head := rows[..|rows| - 1];
      NoLowRow(head, minimum);
      assert forall i :: 0 <= i < |head| ==> head[i] == rows[i];
    }
  }

  /** A period is COMPLETE exactly when every expected day was published. */
  lemma CompleteMeansEveryDayPublished(rows: seq<DailyIndex>, expected: int, sources: nat)
    requires EngineRows(rows) && 0 < expected && |rows| <= expected
    ensures Metrics(rows, expected, sources, MINIMUM_COVERAGE).status == COMPLETE
       <==> (|rows| == expected && forall i :: 0 <= i < |rows| ==> rows[i].status == PUBLISHED)
  {
    AllPublished(rows);
    NoLowRow(rows, MINIMUM_COVERAGE);
  }

  /** Warnings are empty exactly for a COMPLETE period with at least two sources. */
  lemma NoWarningsMeansComplete(rows: seq<DailyIndex>, expected: int, sources: nat)
    requires EngineRows(rows) && 0 < expected && |rows| <= expected
    ensures var m := Metrics(rows, expected, sources, MINIMUM_COVERAGE);
            m.warnings == [] <==> (m.status == COMPLETE && sources >= 2)
  {
    AllPublished(rows);
    NoLowRow(rows, MINIMUM_COVERAGE);
    CompleteMeansEveryDayPublished(rows, expected, sources);
    if Metrics(rows, expected, sources, MINIMUM_COVERAGE).warnings == [] {
      forall i | 0 <= i < |rows|
        ensures rows[i].status == PUBLISHED
      {
        assert EngineRow(rows[i]) && !IsLow(rows[i], MINIMUM_COVERAGE);
      }
    }
  }

  /** HIGH confidence means every day published with its value and at least 80% coverage, a rounded
      average of at least 95%, and at least two sources. */
  lemma HighMeansTrustworthy(rows: seq<DailyIndex>, expected: int, sources: nat)
    requires EngineRows(rows) && 0 < expected && |rows| <= expected
    requires Metrics(rows, expected, sources, MINIMUM_COVERAGE).confidence == HIGH
    ensures |rows| == expected && sources >= 2
    ensures forall i :: 0 <= i < |rows| ==> IsPublished(rows[i]) && rows[i].coverage >= MINIMUM_COVERAGE
    ensures RoundedMean(Coverages(rows)) >= 95 * ONE_PERCENT
  {
    hide RoundedMean, PublishedValues, CountLow, WarningsFor, Coverages, Least;
    CompleteMeansEveryDayPublished(rows, expected, sources);
    forall i | 0 <= i < |rows|
      ensures IsPublished(rows[i]) && rows[i].coverage >= MINIMUM_COVERAGE
    {
      assert EngineRow(rows[i]);
    }
  }

  /** The rounded mean lies between the least and the greatest of its values. */
  lemma RoundedMeanBetween(s: seq<int>, lo: int, hi: int)
    requires s != [] && forall i :: 0 <= i < |s| ==> lo <= s[i] <= hi
    ensures lo <= RoundedMean(s) <= hi
  {
    SumBounds(s, lo, hi);
    var n := |s| as real;
    assert lo as real * n <= Sum(s) as real <= hi as real * n;
    QuotientBounds(lo as real, Sum(s) as real, hi as real, n);
    Rounding.HalfEvenWithin(Sum(s) as real / n, lo, hi);
  }

  lemma {:induction false} PublishedAreRows(rows: seq<DailyIndex>, lo: int, hi: int)
    requires forall i :: 0 <= i < |rows| && IsPublished(rows[i]) ==> lo <= rows[i].value.value <= hi
    ensures forall k :: 0 <= k < |PublishedValues(rows)| ==> lo <= PublishedValues(rows)[k] <= hi
  {
    if rows != [] {
      PublishedAreRows(rows[..|rows| - 1], lo, hi);
    }
  }

  /** A period value lies between the least and the greatest published daily value, and there is one
      exactly when some day was published. */
  lemma PeriodValueBetween(rows: seq<DailyIndex>, expected: int, sources: nat, minimum: int, lo: int, hi: int)
    requires forall i :: 0 <= i < |rows| && IsPublished(rows[i]) ==> lo <= rows[i].value.value <= hi
    ensures var value := Metrics(rows, expected, sources, minimum).value;
            && (value.Some? <==> exists i :: 0 <= i < |rows| && IsPublished(rows[i]))
            && (value.Some? ==> lo <= value.value <= hi)
  {
    PublishedAreRows(rows, lo, hi);
    SomePublished(rows);
    if PublishedValues(rows) != [] {
      RoundedMeanBetween(PublishedValues(rows), lo, hi);
    }
  }

  lemma {:induction false} SomePublished(rows: seq<DailyIndex>)
    ensures PublishedValues(rows) != [] <==> exists i :: 0 <= i < |rows| && IsPublished(rows[i])
  {
    if rows != [] {
      var head := rows[..|rows| - 1];
      SomePublished(head);
      if PublishedValues(head) != [] {
        var i :| 0 <= i < |head| && IsPublished(head[i]);
        assert IsPublished(rows[i]);
      } else if IsPublished(rows[|rows| - 1]) {
      } else {
        forall i | 0 <= i < |rows|
          ensures !IsPublished(rows[i])
        {
          assert i < |head| ==> head[i] == rows[i];
        }
      }
    }
  }

  lemma {:induction false} CoveragesAre(rows: seq<DailyIndex>)
    ensures forall i :: 0 <= i < |rows| ==> Coverages(rows)[i] == rows[i].coverage
  {
    if rows != [] {
      CoveragesAre(rows[..|rows| - 1]);
    }
  }

  /** The stored coverages: the minimum is that of some day and below no other, and the average lies
      between it and the greatest. */
  lemma CoverageSummaries(rows: seq<DailyIndex>, expected: int, sources: nat, minimum: int, hi: int)
    requires rows != [] && forall i :: 0 <= i < |rows| ==> rows[i].coverage <= hi
    ensures var m := Metrics(rows, expected, sources, minimum);
            && m.minimumCoverage <= m.averageCoverage <= hi
            && (exists i :: 0 <= i < |rows| && rows[i].coverage == m.minimumCoverage)
            && (forall i :: 0 <= i < |rows| ==> m.minimumCoverage <= rows[i].coverage)
  {
    var c := Coverages(rows);
    CoveragesAre(rows);
    LeastIsLeast(c);
    forall i | 0 <= i < |c|
      ensures Least(c) <= c[i] <= hi
    {
      assert c[i] in c;
    }
    RoundedMeanBetween(c, Least(c), hi);
    var k :| 0 <= k < |c| && c[k] == Least(c);
    assert rows[k].coverage == Least(c);
    hide RoundedMean, PublishedValues, CountLow, WarningsFor, Least, Coverages;
  }

  ghost function PublishedDays(rows: seq<DailyIndex>): set<int> {
    set i | 0 <= i < |rows| && IsPublished(rows[i])
  }

  ghost function LowDays(rows: seq<DailyIndex>, minimum: int): set<int> {
    set i | 0 <= i < |rows| && IsLow(rows[i], minimum)
  }

  lemma {:induction false} PublishedAreCounted(rows: seq<DailyIndex>)
    ensures |PublishedValues(rows)| == |PublishedDays(rows)|
  {
    if rows != [] {
      var n := |rows| - 1;
      PublishedAreCounted(rows[..n]);
      assert PublishedDays(rows) == PublishedDays(rows[..n]) + (if IsPublished(rows[n]) then {n} else {});
      hide IsPublished;
    }
  }

  lemma {:induction false} LowAreCounted(rows: seq<DailyIndex>, minimum: int)
    ensures CountLow(rows, minimum) == |LowDays(rows, minimum)|
  {
    if rows != [] {
      var n := |rows| - 1;
      LowAreCounted(rows[..n], minimum);
      assert LowDays(rows, minimum) == LowDays(rows[..n], minimum) + (if IsLow(rows[n], minimum) then {n} else {});
      hide IsLow;
    }
  }

  /** The day counts of a period: its stored days, those published with a value, and those of low
      coverage. */
  lemma CountsAreCounts(rows: seq<DailyIndex>, expected: int, sources: nat, minimum: int)
    ensures var m := Metrics(rows, expected, sources, minimum);
            && m.observed == |rows| && m.expected == expected
            && m.valued == |PublishedDays(rows)| && m.lowCoverage == |LowDays(rows, minimum)|
  {
    PublishedAreCounted(rows);
    LowAreCounted(rows, minimum);
    hide RoundedMean, PublishedValues, CountLow, WarningsFor, Least, Coverages, IsPublished, IsLow;
  }

  // ---------------------------------------------------------------------------------------------
  // Every label, exactly

  /** The daily values a period averages are those of its published days, in order: the `i`-th day's stands
      where the published days before it end. */
  lemma {:induction false} PublishedInPlace(rows: seq<DailyIndex>, i: nat)
    requires i < |rows| && rows[i].status == PUBLISHED && rows[i].value.Some?
    ensures var at := |PublishedDays(rows[..i])|;
            at < |PublishedValues(rows)| == |PublishedDays(rows)| && PublishedValues(rows)[at] == rows[i].value.value
  {
    var n := |rows| - 1;
    PublishedAreCounted(rows);
    PublishedAreCounted(rows[..n]);
    if i < n {
      PublishedInPlace(rows[..n], i);
      assert rows[..n][..i] == rows[..i];
    }
    hide PublishedDays;
  }

  /** A rounded mean is the nearest whole number to the sum over the count. */
  lemma RoundedMeanNear(s: seq<int>)
    requires s != []
    ensures -0.5 <= Sum(s) as real / |s| as real - RoundedMean(s) as real <= 0.5
  {
  }

  /** When each status and each confidence is given, in terms of the days themselves. */
  lemma LabelsExactly(rows: seq<DailyIndex>, expected: int, sources: nat, minimum: int)
    ensures var m := Metrics(rows, expected, sources, minimum);
            var published, low := |PublishedDays(rows)|, |LowDays(rows, minimum)|;
            && (m.status == NO_DATA <==> published == 0)
            && (m.status == LOW_COVERAGE <==> published > 0 && low > 0)
            && (m.status == COMPLETE <==> published > 0 && low == 0 && |rows| == published == expected)
            && (m.confidence == INSUFFICIENT <==> published == 0 || low > 0)
            && (m.confidence == HIGH <==> m.status == COMPLETE && m.averageCoverage >= 95_0000 && sources >= 2)
            && (m.confidence == MEDIUM <==>
                m.status == PARTIAL && m.averageCoverage >= minimum && 2 * published >= expected && sources >= 2)
            && (m.value.None? <==> published == 0)
            && (m.value.Some? ==> m.value.value == RoundedMean(PublishedValues(rows)))
            && m.sources == sources
  {
    PublishedAreCounted(rows);
    LowAreCounted(rows, minimum);
    hide PublishedValues, CountLow, Coverages, RoundedMean, Least, WarningsFor, PublishedDays, LowDays;
  }

  /** When each warning is given; none is given twice. */
  lemma WarningsExactly(rows: seq<DailyIndex>, expected: int, sources: nat, minimum: int)
    ensures var w := Metrics(rows, expected, sources, minimum).warnings;
            && (PARTIAL_PERIOD in w <==> |rows| < expected)
            && (PROVISIONAL_BASE_DAYS_EXCLUDED in w <==>
                exists i :: 0 <= i < |rows| && rows[i].status == PROVISIONAL_BASE)
            && (LOW_COVERAGE_DAYS_EXCLUDED in w <==> |LowDays(rows, minimum)| > 0)
            && (SINGLE_SOURCE in w <==> |rows| > 0 && sources < 2)
            && (NO_PUBLISHED_VALUES in w <==> |PublishedDays(rows)| == 0)
            && |w| == Bit(PARTIAL_PERIOD in w) + Bit(PROVISIONAL_BASE_DAYS_EXCLUDED in w)
                        + Bit(LOW_COVERAGE_DAYS_EXCLUDED in w) + Bit(SINGLE_SOURCE in w) + Bit(NO_PUBLISHED_VALUES in w)
  {
    PublishedAreCounted(rows);
    LowAreCounted(rows, minimum);
    WarningsAre(rows, expected, sources, minimum);
    hide *;
    WarningList(|rows| < expected, AnyProvisional(rows), CountLow(rows, minimum) > 0, rows != [] && sources < 2,
                PublishedValues(rows) == []);
    AnyProvisionalIs(rows);
  }

  function Only(condition: bool, warning: Warning): (r: seq<Warning>)
    ensures |r| == if condition then 1 else 0
    ensures forall w :: w in r <==> condition && w == warning
  {
    if condition then [warning] else []
  }

  function WarningsIf(partial: bool, provisional: bool, low: bool, single: bool, none: bool): seq<Warning> {
    Only(partial, PARTIAL_PERIOD) + Only(provisional, PROVISIONAL_BASE_DAYS_EXCLUDED)
    + Only(low, LOW_COVERAGE_DAYS_EXCLUDED) + Only(single, SINGLE_SOURCE) + Only(none, NO_PUBLISHED_VALUES)
  }

  function Bit(condition: bool): int {
    if condition then 1 else 0
  }

  lemma WarningList(partial: bool, provisional: bool, low: bool, single: bool, none: bool)
    ensures var w := WarningsIf(partial, provisional, low, single, none);
            && (PARTIAL_PERIOD in w <==> partial) && (PROVISIONAL_BASE_DAYS_EXCLUDED in w <==> provisional)
            && (LOW_COVERAGE_DAYS_EXCLUDED in w <==> low) && (SINGLE_SOURCE in w <==> single)
            && (NO_PUBLISHED_VALUES in w <==> none)
            && |w| == Bit(partial) + Bit(provisional) + Bit(low) + Bit(single) + Bit(none)
  {
    hide Only;
  }

  lemma WarningsAre(rows: seq<DailyIndex>, expected: int, sources: nat, minimum: int)
    ensures Metrics(rows, expected, sources, minimum).warnings
            == WarningsIf(|rows| < expected, AnyProvisional(rows), CountLow(rows, minimum) > 0,
                          rows != [] && sources < 2, PublishedValues(rows) == [])
  {
    hide PublishedValues, CountLow, Coverages, RoundedMean, Least, AnyProvisional;
  }

  lemma AnyProvisionalIs(rows: seq<DailyIndex>)
    ensures AnyProvisional(rows) <==> exists i :: 0 <= i < |rows| && rows[i].status == PROVISIONAL_BASE
  {
  }

  /** The average coverage is the nearest unit to the mean of the days'. */
  lemma AverageCoverageIs(rows: seq<DailyIndex>, expected: int, sources: nat, minimum: int)
    requires rows != []
    ensures var m := Metrics(rows, expected, sources, minimum);
            && |Coverages(rows)| == |rows| && (forall i :: 0 <= i < |rows| ==> Coverages(rows)[i] == rows[i].coverage)
            && -0.5 <= Sum(Coverages(rows)) as real / |rows| as real - m.averageCoverage as real <= 0.5
  {
    CoveragesAre(rows);
    assert Coverages(rows) != [];
    RoundedMeanNear(Coverages(rows));
    hide PublishedValues, CountLow, Coverages, RoundedMean, Least, WarningsFor;
  }
}
