/** The status of a stored daily index by counting its components: with fifteen items of equal weight the 80%
    threshold is twelve priced items. */
module DayStatus {
  import opened Options
  import opened Domain
  import opened Methodology
  import opened Periods
  import opened IndexModel
  import opened IndexInvariant
  import opened IndexRuns
  import opened StoredRoutes
  import CallConditions
  import Rounding

  /** The components with a price relative. */
  ghost function PricedItems(row: DailyIndex): set<nat> {
    set k: nat | k < |row.components| && row.components[k].relative.Some?
  }

  ghost predicate BaseMissing(row: DailyIndex) {
    exists k :: 0 <= k < |row.components| && row.components[k].input.base.None?
  }

  /** Provisional exactly while a base is missing; otherwise published from twelve priced items of the fifteen on,
      with a value as soon as there is one; and the coverage is their share, to the nearest unit. */
  ghost predicate StatusByCount(row: DailyIndex) {
    var n := |PricedItems(row)|;
    && |row.components| == 15
    && (row.status == PROVISIONAL_BASE <==> BaseMissing(row))
    && (row.status == PUBLISHED <==> !BaseMissing(row) && n >= 12)
    && (row.status == INSUFFICIENT_COVERAGE <==> !BaseMissing(row) && n < 12)
    && (row.value.Some? <==> !BaseMissing(row) && n > 0)
    && -7.5 <= 1000000.0 * n as real - 15.0 * row.coverage as real <= 7.5
  }

  lemma RelativeIffAvailable(id: nat, run: CollectionRun, inputs: seq<Input>, complete: bool, k: nat)
    requires PositiveWeights(inputs) && k < |inputs|
    ensures var row := DailyRow(id, run, ResultOf(inputs, complete, MINIMUM_PERCENT));
            && |row.components| == |inputs|
            && (row.components[k].relative.Some? <==> Available(inputs[k]))
            && row.components[k].input.base == inputs[k].base
  {
    SomeAvailable(inputs, k);
    hide Coverage, CalculatedValue, OnlyVersion, AvailableWeight, Rounding.HalfAway, Relative, Contribution, Available;
  }

  ghost function AvailableAt(inputs: seq<Input>): set<nat> {
    set k: nat | k < |inputs| && Available(inputs[k])
  }

  lemma {:induction false} CountIs(inputs: seq<Input>)
    ensures CountAvailable(inputs) == |AvailableAt(inputs)|
  {
    if inputs != [] {
      var n := |inputs| - 1;
      CountIs(inputs[..n]);
      assert AvailableAt(inputs) == AvailableAt(inputs[..n]) + (if Available(inputs[n]) then {n} else {});
    }
    hide Available;
  }

  lemma ResultStatus(id: nat, run: CollectionRun, inputs: seq<Input>, complete: bool)
    requires PositiveWeights(inputs)
    ensures var row := DailyRow(id, run, ResultOf(inputs, complete, MINIMUM_PERCENT));
            && (row.status == PROVISIONAL_BASE <==> !complete)
            && (row.status == PUBLISHED <==> complete && Coverage(inputs) >= MINIMUM_PERCENT)
            && (row.status == INSUFFICIENT_COVERAGE <==> complete && Coverage(inputs) < MINIMUM_PERCENT)
            && (row.value.Some? <==> complete && CalculatedValue(inputs).Some?)
            && -0.5 <= Coverage(inputs) * 10000.0 - row.coverage as real < 0.5
  {
    NotNegative(inputs);
    hide Coverage, CalculatedValue, OnlyVersion, AvailableWeight, StoredComponents, ComponentOf, Rounding.HalfAway;
  }

  lemma NotNegative(inputs: seq<Input>)
    requires PositiveWeights(inputs)
    ensures Coverage(inputs) >= 0.0
  {
    WeightBounds(inputs);
    hide AvailableWeight, TotalWeight;
  }

  /** The share of fifteen items, in percent. */
  lemma ShareOfFifteen(inputs: seq<Input>)
    requires |inputs| == 15 && forall k :: 0 <= k < 15 ==> inputs[k].weight == EQUAL_WEIGHT
    ensures 15.0 * Coverage(inputs) == 100.0 * CountAvailable(inputs) as real
  {
    var share := 100.0 * CountAvailable(inputs) as real / 15.0;
    EqualWeightCoverage(inputs, EQUAL_WEIGHT, share);
    EqualWeightCoverage(inputs, EQUAL_WEIGHT, Coverage(inputs));
    hide Coverage, CountAvailable;
  }

  lemma CountsDecide(row: DailyIndex, run: CollectionRun, items: seq<BasketItem>, inputs: seq<Input>, complete: bool)
    requires FrozenShape(items) && CalculatedFrom(row, run, items, inputs, complete)
    ensures StatusByCount(row)
  {
    assert forall k :: 0 <= k < 15 ==> inputs[k].weight == items[k].weight == EQUAL_WEIGHT;
    forall k: nat | k < 15
      ensures |row.components| == 15 && (row.components[k].relative.Some? <==> Available(inputs[k]))
      ensures row.components[k].input.base == inputs[k].base
    {
      RelativeIffAvailable(row.run, run, inputs, complete, k);
    }
    RelativeIffAvailable(row.run, run, inputs, complete, 0);
    ResultStatus(row.run, run, inputs, complete);
    ShareOfFifteen(inputs);
    CountIs(inputs);
    ValueIsPositive(inputs);
    hide DailyRow, ResultOf, Available, Coverage, CalculatedValue, CountAvailable;
    assert AvailableAt(inputs) == PricedItems(row);
  }

  /** After any operations from an empty database, kills included, the status, value and coverage of every stored
      daily index follow from counting its components. */
  lemma StoredStatusByCount(routes: set<Route>, ops: seq<Op>, key: DayKey)
    requires key in Run(Empty(routes), ops).daily
    ensures StatusByCount(Run(Empty(routes), ops).daily[key])
  {
    var db := Run(Empty(routes), ops);
    EmptyInv(routes);
    assert AllCalculated(Empty(routes));
    RunCalculated(Empty(routes), ops, {});
    assert Calculated(db, key);
    hide Run, Inv, CalculatedFrom, StatusByCount, FrozenShape;
    var row := db.daily[key];
    var inputs, complete :| CalculatedFrom(row, db.runs[row.run], db.baskets[key.dataClass].items, inputs, complete);
    CountsDecide(row, db.runs[row.run], db.baskets[key.dataClass].items, inputs, complete);
  }

  lemma OnlyVersionIs(fares: seq<CanonicalFare>)
    requires CallConditions.OneVersion(fares)
    ensures fares == [] ==> OnlyVersion(fares) == "no-canonical-fares"
    ensures forall i :: 0 <= i < |fares| ==> fares[i].version == OnlyVersion(fares)
  {
  }

  /** Every stored daily index names the one version of its run's canonical fares, or that there were none, and
      carries its run's date. */
  lemma StoredVersion(routes: set<Route>, ops: seq<Op>, key: DayKey)
    requires key in Run(Empty(routes), ops).daily
    ensures var db := Run(Empty(routes), ops);
            var row := db.daily[key];
            && row.run in db.runs && row.date == db.runs[row.run].date
            && (db.runs[row.run].fares == [] ==> row.version == "no-canonical-fares")
            && forall i :: 0 <= i < |db.runs[row.run].fares| ==> db.runs[row.run].fares[i].version == row.version
  {
    var db := Run(Empty(routes), ops);
    EmptyInv(routes);
    RunKeepsInv(Empty(routes), ops, {});
    RunCalculated(Empty(routes), ops, {});
    hide *;
    VersionOfRow(db, StaleAfterRun(Empty(routes), ops, {}), key);
  }

  lemma VersionOfRow(db: Store, stale: set<PeriodKey>, key: DayKey)
    requires Inv(db, stale) && AllCalculated(db) && key in db.daily
    ensures var row := db.daily[key];
            && row.run in db.runs && row.date == db.runs[row.run].date
            && (db.runs[row.run].fares == [] ==> row.version == "no-canonical-fares")
            && forall i :: 0 <= i < |db.runs[row.run].fares| ==> db.runs[row.run].fares[i].version == row.version
  {
    var row := db.daily[key];
    assert Calculated(db, key) && DailyOk(db, key);
    assert row.version == OnlyVersion(db.runs[row.run].fares) by {
      hide ResultOf, StoredComponents, OnlyVersion, Coverage;
    }
    hide *;
    CallConditions.OneVersionIs(db.runs[row.run].fares);
    OnlyVersionIs(db.runs[row.run].fares);
  }
}
