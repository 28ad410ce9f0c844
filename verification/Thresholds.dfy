/** The engine's coverage threshold is a parameter (`indexing/service.py`), the one of the periods is not
    (`indexing/periods.py`): when a day published under a lower one breaks the promise of the period's
    warning that days of low coverage are excluded. */
module Thresholds {
  import opened Options
  import opened Methodology
  import opened Periods
  import Rounding
  import IndexModel

  /** What a daily index is calculated from. */
  datatype Calculation = Calculation(
    id: nat, run: IndexModel.CollectionRun, inputs: seq<Input>, complete: bool, minimum: real)

  /** `calculate` raises for the others. */
  predicate Accepted(c: Calculation) {
    c.inputs != [] && PositiveWeights(c.inputs) && 0.0 <= c.minimum <= 100.0
  }

  function RowOf(c: Calculation): DailyIndex
    requires Accepted(c)
  {
    IndexModel.DailyRow(c.id, c.run, ResultOf(c.inputs, c.complete, c.minimum))
  }

  /** The least exact coverage that is stored as at least 80%. */
  const LEAST_STORED_AS_80 := 79.99995

  /** Enough for the engine, not enough for the periods. */
  predicate Between(c: Calculation) {
    && c.complete && CountAvailable(c.inputs) > 0
    && c.minimum <= Coverage(c.inputs) < LEAST_STORED_AS_80
  }

  lemma StoredBelow(coverage: real)
    requires coverage >= 0.0
    ensures IndexModel.ToCoverageUnits(coverage) < MINIMUM_COVERAGE <==> coverage < LEAST_STORED_AS_80
  {
    var scaled := coverage * 10000.0;
    assert scaled >= 0.0;
  }

  lemma CoverageAtLeastZero(s: seq<Input>)
    requires PositiveWeights(s)
    ensures Coverage(s) >= 0.0
  {
    WeightBounds(s);
  }

  /** A day is published with a value and yet of low coverage in exactly one case: its basket is complete,
      some item is available, and its coverage reaches the engine's threshold but not the periods'. */
  lemma LowYetPublished(c: Calculation)
    requires Accepted(c)
    ensures IsPublished(RowOf(c)) && IsLow(RowOf(c), MINIMUM_COVERAGE) <==> Between(c)
  {
    ValueIsPositive(c.inputs);
    CoverageAtLeastZero(c.inputs);
    StoredBelow(Coverage(c.inputs));
    hide CalculatedValue, Coverage, CountAvailable, IndexModel.ToCoverageUnits, IndexModel.ToIndexUnits,
         IndexModel.StoredComponents, IndexModel.OnlyVersion;
  }

  /** A basket of `covered` weight that is priced and the rest that is not, out of 100. */
  function Partly(covered: real): seq<Input> {
    [Input(0, Some(1.0), Some(1.0), covered), Input(1, None, None, 100.0 - covered)]
  }

  lemma OneInput(i: Input)
    ensures TotalWeight([i]) == i.weight
    ensures AvailableWeight([i]) == if Available(i) then i.weight else 0.0
    ensures CountAvailable([i]) == if Available(i) then 1 else 0
  {
    assert [i][..0] == [];
    hide Available;
  }

  lemma TwoInputs(i: Input, j: Input)
    ensures TotalWeight([i, j]) == TotalWeight([i]) + j.weight
    ensures AvailableWeight([i, j]) == AvailableWeight([i]) + if Available(j) then j.weight else 0.0
    ensures CountAvailable([i, j]) == CountAvailable([i]) + if Available(j) then 1 else 0
  {
    assert [i, j][..1] == [i];
    hide Available;
  }

  lemma PartlyCovered(covered: real)
    requires 0.0 < covered < 100.0
    ensures Partly(covered) != [] && PositiveWeights(Partly(covered)) && CountAvailable(Partly(covered)) > 0
    ensures Coverage(Partly(covered)) == covered
  {
    var s := Partly(covered);
    OneInput(s[0]);
    TwoInputs(s[0], s[1]);
    assert s == [s[0], s[1]];
    hide TotalWeight, AvailableWeight, CountAvailable;
  }

  /** A threshold never publishes a day of low coverage exactly when it is at least 79.99995%: the
      repository's 80 is one, and every lower one has a basket that shows it. */
  lemma SafeThreshold(minimum: real, run: IndexModel.CollectionRun)
    requires 0.0 <= minimum <= 100.0
    ensures minimum >= LEAST_STORED_AS_80 <==>
            forall c :: Accepted(c) && c.minimum == minimum ==>
                          !(IsPublished(RowOf(c)) && IsLow(RowOf(c), MINIMUM_COVERAGE))
  {
    hide IsPublished, IsLow, RowOf, Partly, Coverage, CountAvailable, PositiveWeights;
    forall c | Accepted(c) && c.minimum == minimum
      ensures IsPublished(RowOf(c)) && IsLow(RowOf(c), MINIMUM_COVERAGE) <==> Between(c)
    {
      LowYetPublished(c);
    }
    if minimum < LEAST_STORED_AS_80 {
      var covered := if minimum > 40.0 then minimum else 40.0;
      PartlyCovered(covered);
      var c := Calculation(0, run, Partly(covered), true, minimum);
      assert Accepted(c) && Between(c);
    }
  }

  // ---------------------------------------------------------------------------------------------
  // The period's warning

  ghost predicate AllAccepted(days: seq<Calculation>) {
    forall i :: 0 <= i < |days| ==> Accepted(days[i])
  }

  function RowsOf(days: seq<Calculation>): (rows: seq<DailyIndex>)
    requires AllAccepted(days)
    ensures |rows| == |days| && forall i :: 0 <= i < |days| ==> rows[i] == RowOf(days[i])
  {
    seq(|days|, i requires 0 <= i < |days| => RowOf(days[i]))
  }

  /** The days that are left when those of low coverage are excluded. */
  function WithoutLow(rows: seq<DailyIndex>): seq<DailyIndex> {
    if rows == [] then []
    else
      var last := rows[|rows| - 1];
      WithoutLow(rows[..|rows| - 1]) + (if IsLow(last, MINIMUM_COVERAGE) then [] else [last])
  }

  ghost predicate SomeLowPublished(rows: seq<DailyIndex>) {
    exists i :: 0 <= i < |rows| && IsPublished(rows[i]) && IsLow(rows[i], MINIMUM_COVERAGE)
  }

  lemma PublishedTail(rows: seq<DailyIndex>, last: DailyIndex)
    ensures PublishedValues(rows + [last])
         == PublishedValues(rows) + (if IsPublished(last) then [last.value.value] else [])
  {
    assert (rows + [last])[..|rows|] == rows;
  }

  lemma {:induction false} ExcludingChanges(rows: seq<DailyIndex>)
    ensures |PublishedValues(WithoutLow(rows))| <= |PublishedValues(rows)|
    ensures PublishedValues(WithoutLow(rows)) == PublishedValues(rows) <==> !SomeLowPublished(rows)
    ensures |PublishedValues(WithoutLow(rows))| == |PublishedValues(rows)| <==> !SomeLowPublished(rows)
  {
    if rows != [] {
      var n := |rows| - 1;
      var head, last := rows[..n], rows[n];
      ExcludingChanges(head);
      LowPublishedTail(rows);
      PublishedTail(head, last);
      PublishedTail(WithoutLow(head), last);
      assert head + [last] == rows;
      assert WithoutLow(head) + [] == WithoutLow(head);
      hide PublishedValues, IsPublished, IsLow, SomeLowPublished;
    }
  }

  lemma LowPublishedTail(rows: seq<DailyIndex>)
    requires rows != []
    ensures var n := |rows| - 1;
            SomeLowPublished(rows) <==>
            SomeLowPublished(rows[..n]) || (IsPublished(rows[n]) && IsLow(rows[n], MINIMUM_COVERAGE))
  {
    var n := |rows| - 1;
    assert forall i :: 0 <= i < n ==> rows[..n][i] == rows[i];
    hide IsPublished, IsLow;
  }

  lemma LowWarned(rows: seq<DailyIndex>, expected: int, sources: nat)
    requires CountLow(rows, MINIMUM_COVERAGE) > 0
    ensures LOW_COVERAGE_DAYS_EXCLUDED in Metrics(rows, expected, sources, MINIMUM_COVERAGE).warnings
  {
    hide CountLow, PublishedValues, AnyProvisional, Coverages, RoundedMean;
  }

  /** A period says that its days of low coverage are excluded while its mean is taken over more values
      than those of the other days exactly when some day was calculated between the two thresholds. */
  lemma WarningUntrue(days: seq<Calculation>, expected: int, sources: nat)
    requires AllAccepted(days)
    ensures var rows := RowsOf(days);
            LOW_COVERAGE_DAYS_EXCLUDED in Metrics(rows, expected, sources, MINIMUM_COVERAGE).warnings
            && PublishedValues(rows) != PublishedValues(WithoutLow(rows))
            <==> exists i :: 0 <= i < |days| && Between(days[i])
  {
    hide Between, Accepted, RowOf, Metrics, IsPublished, IsLow, PublishedValues, WithoutLow;
    var rows := RowsOf(days);
    forall i | 0 <= i < |days|
      ensures IsPublished(rows[i]) && IsLow(rows[i], MINIMUM_COVERAGE) <==> Between(days[i])
    {
      LowYetPublished(days[i]);
    }
    ExcludingChanges(rows);
    NoLowRow(rows, MINIMUM_COVERAGE);
    if CountLow(rows, MINIMUM_COVERAGE) > 0 {
      LowWarned(rows, expected, sources);
    }
  }

  /** Rows as the engine writes them under its own threshold are averaged exactly as the warning says. */
  lemma EngineRowsHonest(rows: seq<DailyIndex>)
    requires EngineRows(rows)
    ensures PublishedValues(WithoutLow(rows)) == PublishedValues(rows)
  {
    ExcludingChanges(rows);
    hide PublishedValues, WithoutLow;
  }

  /** For a basket of equal weights the two thresholds are numbers of available items. */
  lemma EqualWeightsBetween(c: Calculation, w: real)
    requires Accepted(c) && w > 0.0 && forall i :: 0 <= i < |c.inputs| ==> c.inputs[i].weight == w
    ensures var k, n := CountAvailable(c.inputs) as real, |c.inputs| as real;
            Between(c) <==> c.complete && 0.0 < k && c.minimum * n <= 100.0 * k < LEAST_STORED_AS_80 * n
  {
    EqualWeightCoverage(c.inputs, w, c.minimum);
    EqualWeightCoverage(c.inputs, w, LEAST_STORED_AS_80);
    hide Coverage, CountAvailable;
  }
}
