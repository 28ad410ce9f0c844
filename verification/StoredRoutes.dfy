/** The route decomposition for what the database actually holds: every reachable state, its stored
    components, and its monthly periods. */
module StoredRoutes {
  import opened Aggregates
  import opened Options
  import opened Domain
  import opened Calendar
  import opened Methodology
  import opened Periods
  import opened IndexModel
  import opened IndexBase
  import opened IndexView
  import opened IndexRecovery
  import opened IndexInvariant
  import opened IndexRuns
  import opened RouteComparisons
  import Rounding

  // ---------------------------------------------------------------------------------------------
  // Every daily row was calculated from its basket

  /** The frozen basket: its routes and equal weights, whatever its bases. */
  predicate FrozenShape(items: seq<BasketItem>) {
    |items| == 15 && forall k :: 0 <= k < 15 ==> items[k].route == ROUTE_PAIRS[k / 5] && items[k].weight == EQUAL_WEIGHT
  }

  ghost predicate Shaped(db: Store) {
    forall dc :: dc in db.baskets ==> FrozenShape(db.baskets[dc].items)
  }

  /** The row is what `calculate` stores for these inputs, one per basket item. */
  ghost predicate CalculatedFrom(row: DailyIndex, run: CollectionRun, items: seq<BasketItem>, inputs: seq<Input>,
                                 complete: bool) {
    && |inputs| == |items| && PositiveWeights(inputs)
    && (forall k :: 0 <= k < |inputs| ==> inputs[k].id == k && inputs[k].weight == items[k].weight)
    && (complete <==> forall k :: 0 <= k < |inputs| ==> inputs[k].base.Some?)
    && row == DailyRow(row.run, run, ResultOf(inputs, complete, MINIMUM_PERCENT))
  }

  ghost predicate Calculated(db: Store, key: DayKey)
    requires key in db.daily
  {
    var row := db.daily[key];
    && row.run in db.runs && Finished(db.runs[row.run]) && key.dataClass in db.baskets
    && exists inputs, complete :: CalculatedFrom(row, db.runs[row.run], db.baskets[key.dataClass].items, inputs,
                                                 complete)
  }

  ghost predicate AllCalculated(db: Store) {
    Shaped(db) && forall key :: key in db.daily ==> Calculated(db, key)
  }

  lemma SameShape(before: seq<BasketItem>, later: seq<BasketItem>)
    requires FrozenShape(before) && BaseKept(before, later)
    ensures FrozenShape(later)
  {
  }

  lemma NewBasketShape()
    ensures FrozenShape(NewBasket().items)
  {
  }

  /** Whatever extends a state keeps the rows it had as they were calculated. */
  lemma KeptCalculated(db: Store, later: Store, key: DayKey)
    requires Extends(db, later) && key in db.daily && Calculated(db, key)
    ensures key in later.daily && Calculated(later, key)
  {
    var row := db.daily[key];
    var inputs, complete :| CalculatedFrom(row, db.runs[row.run], db.baskets[key.dataClass].items, inputs, complete);
    assert BaseKept(db.baskets[key.dataClass].items, later.baskets[key.dataClass].items);
    hide DailyRow, ResultOf;
    assert CalculatedFrom(row, later.runs[row.run], later.baskets[key.dataClass].items, inputs, complete);
  }

  lemma KeptShape(db: Store, later: Store)
    requires Extends(db, later) && Shaped(db)
    requires forall dc :: dc in later.baskets ==> dc in db.baskets
    ensures Shaped(later)
  {
    forall dc | dc in later.baskets
      ensures FrozenShape(later.baskets[dc].items)
    {
      SameShape(db.baskets[dc].items, later.baskets[dc].items);
    }
    hide FrozenShape, BaseKept;
  }

  lemma BasesInputs(items: seq<BasketItem>, rows: seq<PriceRow>, memory: Memory)
    requires items != []
    ensures var inputs := InputsFor(items, rows, memory);
            Complete(items) <==> forall k :: 0 <= k < |inputs| ==> inputs[k].base.Some?
  {
    var inputs := InputsFor(items, rows, memory);
    assert forall k :: 0 <= k < |items| ==> (inputs[k].base.Some? <==> items[k].base.Some?);
    hide InputFor;
  }

  lemma NewRowCalculated(db: Store, id: nat, memory: Memory)
    requires id in db.runs && db.runs[id].dataClass in db.baskets && DailyFor(db, id, memory).Ok?
    ensures var run := db.runs[id];
            exists inputs, complete ::
              CalculatedFrom(DailyFor(db, id, memory).value, run, db.baskets[run.dataClass].items, inputs, complete)
  {
    var run, row := db.runs[id], DailyFor(db, id, memory).value;
    var items := db.baskets[run.dataClass].items;
    var inputs := InputsFor(items, OnDay(db.prices, run.dataClass, DayOf(run)), memory);
    DailyForInputs(db, id, memory);
    DailyRowRun(db, id, memory);
    BasesInputs(items, OnDay(db.prices, run.dataClass, DayOf(run)), memory);
    assert inputs != [];
    hide DailyFor, DailyRow, ResultOf, OnDay, DayOf, Complete, Versions;
    assert CalculatedFrom(row, run, items, inputs, Complete(items));
  }

  /** The commits after the freeze: the same baskets but for new bases, and at most one new row. */
  lemma FreezeCommitsCalculated(db: Store, id: nat, memory: Memory, x: Store)
    requires AllCalculated(db) && Ready(db, id) && x in FromFreeze(db, id, memory).commits
    ensures AllCalculated(x)
  {
    var dc, key := db.runs[id].dataClass, KeyOfRun(db, id);
    EndKeepsBasket(db, id, memory);
    FreezeCommitsExtend(db, id, memory, x);
    FrozenBaskets(db, dc, memory);
    hide FromFreeze, Frozen, Shaped, Calculated, Extends, KeyOfRun;
    KeptShape(db, x);
    forall k | k in x.daily
      ensures Calculated(x, k)
    {
      if k in db.daily {
        KeptCalculated(db, x, k);
      } else {
        OnlyNewRow(db, id, memory, x, k);
      }
    }
  }

  /** Every commit has the daily rows of before, or those with the new one. */
  lemma CommitsDaily(db: Store, id: nat, memory: Memory, x: Store)
    requires Ready(db, id) && x in FromFreeze(db, id, memory).commits
    ensures x.daily == db.daily || x.daily == WithDaily(db, id, memory).daily
  {
    assert id in db.runs && db.runs[id].dataClass in db.baskets;
    var run := db.runs[id];
    hide *;
    FrozenParts(db, run.dataClass, memory);
    if FromFreeze(db, id, memory).outcome.Indexed? {
      var start := WithDaily(db, id, memory);
      IndexedCommits(db, id, memory);
      InAppended(if KeyOfRun(db, id) in db.daily then [] else [Frozen(db, run.dataClass, memory)], start,
                 Refreshes(start, run.dataClass, run.date), x);
      RefreshesKeep(start, run.dataClass, run.date);
    } else {
      RejectedCommits(db, id, memory);
    }
  }

  lemma WithDailyAdds(db: Store, id: nat, memory: Memory, k: DayKey)
    requires Ready(db, id) && k in WithDaily(db, id, memory).daily && k !in db.daily
    ensures var frozen := Frozen(db, db.runs[id].dataClass, memory);
            && k == KeyOfRun(db, id) && id in frozen.runs && db.runs[id].dataClass in frozen.baskets
            && DailyFor(frozen, id, memory).Ok?
            && WithDaily(db, id, memory).daily[k] == DailyFor(frozen, id, memory).value
  {
    FrozenParts(db, db.runs[id].dataClass, memory);
    hide Frozen, DailyFor, KeyOfRun;
  }

  /** The only daily row a call can add is the one it computes. */
  lemma AddedRow(db: Store, id: nat, memory: Memory, x: Store, k: DayKey)
    requires Ready(db, id) && x in FromFreeze(db, id, memory).commits && k in x.daily && k !in db.daily
    ensures var frozen := Frozen(db, db.runs[id].dataClass, memory);
            && k == KeyOfRun(db, id) && id in frozen.runs && db.runs[id].dataClass in frozen.baskets
            && DailyFor(frozen, id, memory).Ok? && x.daily[k] == DailyFor(frozen, id, memory).value
  {
    assert id in db.runs;
    hide *;
    CommitsDaily(db, id, memory, x);
    WithDailyAdds(db, id, memory, k);
  }

  lemma OnlyNewRow(db: Store, id: nat, memory: Memory, x: Store, k: DayKey)
    requires Ready(db, id) && x in FromFreeze(db, id, memory).commits && k in x.daily && k !in db.daily
    ensures Calculated(x, k)
  {
    var dc := db.runs[id].dataClass;
    var frozen := Frozen(db, dc, memory);
    FrozenParts(db, dc, memory);
    EndKeepsBasket(db, id, memory);
    AddedRow(db, id, memory, x, k);
    DailyRowRun(frozen, id, memory);
    NewRowCalculated(frozen, id, memory);
    hide FromFreeze, Frozen, DailyFor, Refreshes, WithDaily, CalculatedFrom;
  }

  lemma PricesCalculated(db: Store, id: nat)
    requires AllCalculated(db) && Ready(db, id) && WithPrices(db, id).Ok?
    ensures AllCalculated(WithPrices(db, id).value.store)
  {
    var next := WithPrices(db, id).value.store;
    assert next.daily == db.daily && next.baskets == db.baskets && next.runs == db.runs;
    forall k | k in next.daily
      ensures Calculated(next, k)
    {
      assert Calculated(db, k);
    }
    hide WithPrices, CalculatedFrom, FrozenShape;
  }

  lemma PricedCommitsCalculated(db: Store, id: nat, x: Store)
    requires AllCalculated(db) && Ready(db, id) && x in CallFor(db, id).commits
    ensures AllCalculated(x)
  {
    PricedOutcome(db, id);
    assert WithPrices(db, id).Ok?;
    var priced := WithPrices(db, id).value;
    PricesCalculated(db, id);
    if priced.memory.Fresh? {
      FreshCall(db, id);
      hide FromFreeze, CallFor, FromPrices, WithPrices, AllCalculated, OnDay, DayOf, MemoryFits;
      if x != priced.store {
        FreezeCommitsCalculated(priced.store, id, priced.memory, x);
      }
    } else {
      assert WithPrices(db, id) == Ok(Priced(db, Forgotten));
      ResumeWithoutDaily(db, id);
      hide FromFreeze, CallFor, FromPrices, WithPrices, AllCalculated;
      FreezeCommitsCalculated(db, id, Forgotten, x);
    }
  }

  lemma BasketCalculated(db: Store, dc: DataClass)
    requires AllCalculated(db)
    ensures AllCalculated(WithBasket(db, dc))
  {
    var next := WithBasket(db, dc);
    NewBasketShape();
    BasketExtends(db, dc);
    assert next.daily == db.daily;
    hide NewBasket, FrozenShape, Calculated, Extends;
    forall k | k in next.daily
      ensures Calculated(next, k)
    {
      KeptCalculated(db, next, k);
    }
  }

  lemma CommitsCalculated(db: Store, id: nat, x: Store)
    requires AllCalculated(db) && RunsOk(db) && x in CallFor(db, id).commits
    ensures AllCalculated(x)
  {
    assert id in db.runs && Finished(db.runs[id]);
    var dc := db.runs[id].dataClass;
    hide CallFor, AllCalculated, WithBasket;
    if dc in db.baskets {
      PricedCommitsCalculated(db, id, x);
    } else {
      var next := WithBasket(db, dc);
      CreatesBasket(db, id);
      BasketCalculated(db, dc);
      if x != next {
        PricedCommitsCalculated(next, id, x);
      }
    }
  }

  /** Every operation keeps it. */
  lemma StepCalculated(db: Store, op: Op, stale: set<PeriodKey>)
    requires Inv(db, stale) && AllCalculated(db)
    ensures AllCalculated(Step(db, op))
  {
    var next := Step(db, op);
    if op.Calculate? {
      var call := CallFor(db, op.id);
      hide CallFor, AllCalculated, BasketsOk, PricesOk, DailyOk, ViewAgrees;
      assert next == db || next in call.commits;
      if next != db {
        CommitsCalculated(db, op.id, next);
      }
    } else {
      StepExtends(db, op, stale);
      OtherStepsKeepRows(db, op);
      hide Inv, Step, Extends, Shaped, Calculated;
      KeptShape(db, next);
      forall k | k in next.daily
        ensures Calculated(next, k)
      {
        KeptCalculated(db, next, k);
      }
    }
  }

  lemma OtherStepsKeepRows(db: Store, op: Op)
    requires !op.Calculate?
    ensures Step(db, op).daily == db.daily && forall dc :: dc in Step(db, op).baskets ==> dc in db.baskets
  {
    hide Seeded, Recomputed, PositiveFares, KeyFor;
  }

  lemma {:induction false} RunCalculated(db: Store, ops: seq<Op>, stale: set<PeriodKey>)
    requires Inv(db, stale) && AllCalculated(db)
    ensures AllCalculated(Run(db, ops))
  {
    hide Inv, Step, AllCalculated, StaleAfter;
    if ops != [] {
      var head := ops[..|ops| - 1];
      RunCalculated(db, head, stale);
      RunKeepsInv(db, head, stale);
      StepCalculated(Run(db, head), ops[|ops| - 1], StaleAfterRun(db, head, stale));
    }
  }

  // ---------------------------------------------------------------------------------------------
  // Stored components against the calculation

  const TEN_DECIMALS := 0.5 / Rounding.RELATIVE_UNITS

  lemma ColumnClose(relative: real)
    ensures -TEN_DECIMALS <= Column(relative) - relative <= TEN_DECIMALS
  {
    hide Rounding.HalfAway;
  }

  /** The legs of a day's stored components, seen from the inputs they were calculated from. */
  ghost predicate LegFits(leg: Leg, i: Input) {
    && leg.weight == i.weight && (leg.relative.Some? <==> Available(i))
    && (Available(i) ==> leg.relative.value == Column(Relative(i)))
  }

  ghost predicate Fits(legs: seq<Leg>, inputs: seq<Input>) {
    |legs| == |inputs| && forall k :: 0 <= k < |legs| ==> LegFits(legs[k], inputs[k])
  }

  function RouteOfItem(items: seq<BasketItem>): int -> Route {
    (k: int) => if 0 <= k < |items| then items[k].route else DEL_BOM
  }

  function RowLegs(row: DailyIndex, items: seq<BasketItem>): seq<Leg> {
    LegsOf(row.components, RouteOfItem(items))
  }

  lemma RowFits(row: DailyIndex, run: CollectionRun, items: seq<BasketItem>, inputs: seq<Input>, complete: bool)
    requires CalculatedFrom(row, run, items, inputs, complete)
    ensures var legs := RowLegs(row, items);
            Fits(legs, inputs) && forall k :: 0 <= k < |legs| ==> legs[k].route == items[k].route
  {
    var legs := RowLegs(row, items);
    forall k: nat | k < |inputs|
      ensures k < |legs| && LegFits(legs[k], inputs[k]) && legs[k].route == items[k].route
    {
      SomeAvailable(inputs, k);
      ComponentLeg(inputs[k], AvailableWeight(inputs), items);
      hide Available, Relative, Column, AvailableWeight, ComponentOf;
    }
    hide Available, Relative, Column, AvailableWeight, ComponentOf, Coverage, CalculatedValue, OnlyVersion, LegFits;
  }

  lemma ComponentLeg(i: Input, shared: real, items: seq<BasketItem>)
    requires shared != 0.0 || !Available(i)
    ensures var leg := LegOf(StoredComponent(ComponentOf(i, shared)), RouteOfItem(items));
            && LegFits(leg, i) && leg.route == RouteOfItem(items)(i.id)
  {
    hide Available, Relative, Column, Rounding.HalfAway, Contribution;
  }

  /** Equal up to half a ten-decimal unit per unit of weight. */
  predicate NearTen(a: real, b: real, w: real) {
    -TEN_DECIMALS * w <= a - b <= TEN_DECIMALS * w
  }

  lemma NearTenTerm(w: real, a: real, b: real)
    requires w > 0.0 && -TEN_DECIMALS <= a - b <= TEN_DECIMALS
    ensures NearTen(Product(w, a), Product(w, b), w)
  {
    SpreadProduct(w, a - b, b);
    TermBounds(w, a - b, -TEN_DECIMALS, TEN_DECIMALS);
  }

  lemma NearTenSum(a: real, b: real, w: real, c: real, d: real, v: real)
    requires NearTen(a, b, w) && NearTen(c, d, v)
    ensures NearTen(a + c, b + d, w + v)
  {
  }

  lemma {:induction false} SumsFit(legs: seq<Leg>, inputs: seq<Input>)
    requires Fits(legs, inputs) && PositiveWeights(inputs)
    ensures LegWeight(legs) == AvailableWeight(inputs)
    ensures NearTen(LegTotal(legs), WeightedRelatives(inputs), AvailableWeight(inputs))
  {
    if inputs != [] {
      var n := |inputs| - 1;
      SumsFit(legs[..n], inputs[..n]);
      assert LegFits(legs[n], inputs[n]);
      if Available(inputs[n]) {
        ColumnClose(Relative(inputs[n]));
        NearTenTerm(inputs[n].weight, legs[n].relative.value, Relative(inputs[n]));
        NearTenSum(LegTotal(legs[..n]), WeightedRelatives(inputs[..n]), AvailableWeight(inputs[..n]),
                   Product(inputs[n].weight, legs[n].relative.value), Product(inputs[n].weight, Relative(inputs[n])),
                   inputs[n].weight);
      }
      hide Available, Relative, Column, NearTen;
    }
  }

  /** The index of a day's stored components is within half a ten-decimal unit of the calculated value. */
  lemma OverallFits(legs: seq<Leg>, inputs: seq<Input>)
    requires Fits(legs, inputs) && PositiveWeights(inputs) && CalculatedValue(inputs).Some?
    ensures LegWeight(legs) > 0.0
    ensures -TEN_DECIMALS <= Overall(legs) - CalculatedValue(inputs).value <= TEN_DECIMALS
  {
    OverallIs(legs);
    SomeWeightAvailable(inputs);
    hide *;
    ValueIsWeightedMean(inputs);
    SumsFit(legs, inputs);
    QuotientsNear(LegTotal(legs), WeightedRelatives(inputs), AvailableWeight(inputs));
  }

  lemma OverallIs(legs: seq<Leg>)
    ensures LegWeight(legs) != 0.0 ==> Overall(legs) == LegTotal(legs) / LegWeight(legs)
  {
    hide LegWeight, LegTotal;
  }

  lemma SomeWeightAvailable(inputs: seq<Input>)
    requires PositiveWeights(inputs) && CalculatedValue(inputs).Some?
    ensures AvailableWeight(inputs) > 0.0
  {
    WeightBounds(inputs);
    hide AvailableWeight, TotalWeight, Contributions;
  }

  lemma QuotientsNear(a: real, b: real, w: real)
    requires w > 0.0 && NearTen(a, b, w)
    ensures -TEN_DECIMALS <= a / w - b / w <= TEN_DECIMALS
  {
    CloseMeans(a, b, w, TEN_DECIMALS);
  }

  // ---------------------------------------------------------------------------------------------
  // A stored day

  /** The stored value of a published row is within 0.505 units of what its stored components give. */
  lemma StoredValueFits(row: DailyIndex, run: CollectionRun, items: seq<BasketItem>, inputs: seq<Input>, complete: bool)
    requires CalculatedFrom(row, run, items, inputs, complete) && row.value.Some?
    ensures ValueClose(row.value.value, RowLegs(row, items)) && CalculatedValue(inputs).Some?
    ensures LegWeight(RowLegs(row, items)) > 0.0
  {
    RowFits(row, run, items, inputs, complete);
    var value := CalculatedValue(inputs);
    assert value.Some? && row.value.value == ToIndexUnits(value.value) by {
      hide CalculatedValue, StoredComponents, ToIndexUnits, OnlyVersion, Coverage, AvailableWeight;
    }
    var legs := RowLegs(row, items);
    hide *;
    OverallFits(legs, inputs);
    UnitsClose(row.value.value, value.value, legs);
  }

  lemma UnitsClose(units: int, value: real, legs: seq<Leg>)
    requires units == ToIndexUnits(value) && -TEN_DECIMALS <= Overall(legs) - value <= TEN_DECIMALS
    ensures ValueClose(units, legs)
  {
    hide Overall, Rounding.HalfAway;
  }

  /** A coverage column of 100% means every item was available. */
  lemma FullColumn(row: DailyIndex, run: CollectionRun, items: seq<BasketItem>, inputs: seq<Input>, complete: bool)
    requires FrozenShape(items) && CalculatedFrom(row, run, items, inputs, complete)
             && row.coverage == 100 * ONE_PERCENT
    ensures AllAvailable(inputs) && CalculatedValue(inputs).Some?
  {
    assert row.coverage == ToCoverageUnits(Coverage(inputs)) by {
      hide Coverage, StoredComponents, ToCoverageUnits, OnlyVersion, CalculatedValue, AvailableWeight;
    }
    var c := Coverage(inputs);
    assert forall k :: 0 <= k < |inputs| ==> inputs[k].weight == EQUAL_WEIGHT;
    hide Coverage, CalculatedFrom, FrozenShape, CalculatedValue, CountAvailable;
    assert c >= 99.9;
    EqualWeightCoverage(inputs, EQUAL_WEIGHT, 99.9);
    AllCounted(inputs);
    ValueIsPositive(inputs);
  }

  /** What a stored, published, fully covered day looks like through its components. */
  ghost predicate FullRow(row: DailyIndex, items: seq<BasketItem>) {
    var legs := RowLegs(row, items);
    && |legs| == |items| && AllPriced(legs)
    && (forall k :: 0 <= k < |items| ==> legs[k].route == items[k].route && legs[k].weight == items[k].weight)
    && row.value.Some? && ValueClose(row.value.value, legs)
  }

  lemma FullRowFits(row: DailyIndex, run: CollectionRun, items: seq<BasketItem>, inputs: seq<Input>, complete: bool)
    requires FrozenShape(items) && CalculatedFrom(row, run, items, inputs, complete)
    requires row.coverage == 100 * ONE_PERCENT && row.value.Some?
    ensures FullRow(row, items)
  {
    RowFits(row, run, items, inputs, complete);
    FullColumn(row, run, items, inputs, complete);
    StoredValueFits(row, run, items, inputs, complete);
    hide FrozenShape, RowLegs, ValueClose, DailyRow, ResultOf, CalculatedValue, Available, Relative, Column, LegWeight;
  }

  /** Every published day of a reachable state: the index its stored components give is the weight-averaged
      mean of that day's route indices, and the stored value is within 0.505 units of it. */
  lemma StoredDayDecomposes(db: Store, key: DayKey)
    requires AllCalculated(db) && key in db.daily && IsPublished(db.daily[key])
    ensures key.dataClass in db.baskets
    ensures var legs := RowLegs(db.daily[key], db.baskets[key.dataClass].items);
            && WeightOver(legs, ROUTE_PAIRS) > 0.0
            && Overall(legs) == Recombined(legs, ROUTE_PAIRS) / WeightOver(legs, ROUTE_PAIRS)
            && ValueClose(db.daily[key].value.value, legs)
  {
    assert Calculated(db, key);
    var row := db.daily[key];
    var run, items := db.runs[row.run], db.baskets[key.dataClass].items;
    var inputs, complete :| CalculatedFrom(row, run, items, inputs, complete);
    assert FrozenShape(items);
    var legs := RowLegs(row, items);
    StoredValueFits(row, run, items, inputs, complete);
    RowFits(row, run, items, inputs, complete);
    ShapeLists(items, legs);
    FitsPositive(legs, inputs);
    PricedLeg(legs);
    hide *;
    DayDecomposes(legs, ROUTE_PAIRS);
  }

  lemma FitsPositive(legs: seq<Leg>, inputs: seq<Input>)
    requires Fits(legs, inputs) && PositiveWeights(inputs)
    ensures PositiveLegs(legs)
  {
    hide Available, Relative, Column;
    forall k | 0 <= k < |legs|
      ensures legs[k].weight > 0.0
    {
      assert LegFits(legs[k], inputs[k]);
    }
  }

  lemma {:induction false} PricedLeg(legs: seq<Leg>)
    ensures LegWeight(legs) != 0.0 ==> exists i :: 0 <= i < |legs| && legs[i].relative.Some?
  {
    if legs != [] {
      var head := legs[..|legs| - 1];
      PricedLeg(head);
      if LegWeight(head) != 0.0 {
        var i :| 0 <= i < |head| && head[i].relative.Some?;
        assert legs[i].relative.Some?;
      } else if legs[|legs| - 1].relative.Some? {
        assert legs[|legs| - 1].relative.Some?;
      }
    }
  }

  lemma ShapeLists(items: seq<BasketItem>, legs: seq<Leg>)
    requires FrozenShape(items) && |legs| == |items|
    requires forall k :: 0 <= k < |items| ==> legs[k].route == items[k].route
    ensures Lists(ROUTE_PAIRS, legs)
    ensures forall r :: r in ROUTE_PAIRS ==> Quoted(legs, r)
  {
    assert DEL_BOM != DEL_BLR && DEL_BOM != BOM_BLR && DEL_BLR != BOM_BLR;
    assert ROUTE_PAIRS[0] == DEL_BOM && ROUTE_PAIRS[1] == DEL_BLR && ROUTE_PAIRS[2] == BOM_BLR;
    forall k | 0 <= k < |legs|
      ensures legs[k].route in ROUTE_PAIRS
    {
      assert legs[k].route == ROUTE_PAIRS[k / 5];
    }
    assert legs[0].route == DEL_BOM && legs[5].route == DEL_BLR && legs[10].route == BOM_BLR;
  }

  // ---------------------------------------------------------------------------------------------
  // A stored period

  /** The published days of a period as the comparison reads them. */
  function PublishedDays(rows: seq<DailyIndex>, items: seq<BasketItem>): seq<seq<Leg>> {
    if rows == [] then []
    else
      var last := rows[|rows| - 1];
      PublishedDays(rows[..|rows| - 1], items) + (if last.status == PUBLISHED then [RowLegs(last, items)] else [])
  }

  lemma {:induction false} DaysFit(rows: seq<DailyIndex>, items: seq<BasketItem>)
    requires forall i :: 0 <= i < |rows| && rows[i].status == PUBLISHED ==> FullRow(rows[i], items)
    ensures StoredClose(PublishedValues(rows), PublishedDays(rows, items))
    ensures forall d :: 0 <= d < |PublishedDays(rows, items)| ==> FitsItems(PublishedDays(rows, items)[d], items)
  {
    if rows != [] {
      var head, last := rows[..|rows| - 1], rows[|rows| - 1];
      DaysFit(head, items);
      if last.status == PUBLISHED {
        assert FullRow(rows[|rows| - 1], items);
      }
      hide FullRow, RowLegs, ValueClose, FitsItems;
      FullRowParts(last, items);
    }
  }

  ghost predicate FitsItems(legs: seq<Leg>, items: seq<BasketItem>) {
    && |legs| == |items| && AllPriced(legs)
    && forall k :: 0 <= k < |items| ==> legs[k].route == items[k].route && legs[k].weight == items[k].weight
  }

  lemma FullRowParts(row: DailyIndex, items: seq<BasketItem>)
    ensures FullRow(row, items) ==>
              row.value.Some? && ValueClose(row.value.value, RowLegs(row, items))
              && FitsItems(RowLegs(row, items), items)
  {
    hide RowLegs, ValueClose;
  }

  lemma FullDaysOf(days: seq<seq<Leg>>, items: seq<BasketItem>)
    requires FrozenShape(items) && days != []
    requires forall d :: 0 <= d < |days| ==> FitsItems(days[d], items)
    ensures FullDays(days[0], days, ROUTE_PAIRS)
  {
    var first := days[0];
    assert FitsItems(first, items);
    ShapeLists(items, first);
    forall d | 0 <= d < |days|
      ensures FullOn(first, days[d])
    {
      assert FitsItems(days[d], items);
    }
    assert forall k :: 0 <= k < |first| ==> first[k].weight == EQUAL_WEIGHT;
    hide Lists, Quoted, FullOn;
  }

  /** The published days of a stored period all have a coverage of 100%. */
  ghost predicate FullyCovered(db: Store, dc: DataClass, lo: int, hi: int) {
    forall d :: lo <= d <= hi && DayKey(dc, d) in db.daily && db.daily[DayKey(dc, d)].status == PUBLISHED ==>
      db.daily[DayKey(dc, d)].coverage == 100 * ONE_PERCENT
  }

  lemma FullRows(db: Store, stale: set<PeriodKey>, dc: DataClass, lo: int, hi: int, i: nat)
    requires Inv(db, stale) && AllCalculated(db) && FullyCovered(db, dc, lo, hi) && dc in db.baskets
    requires i < |RowsBetween(db.daily, dc, lo, hi)| && RowsBetween(db.daily, dc, lo, hi)[i].status == PUBLISHED
    ensures FullRow(RowsBetween(db.daily, dc, lo, hi)[i], db.baskets[dc].items)
  {
    var row := RowsBetween(db.daily, dc, lo, hi)[i];
    InputsAreTheDays(db.daily, dc, lo, hi);
    var days := DaysBetween(db.daily, dc, lo, hi);
    assert days[i] in days;
    var key := DayKey(dc, days[i]);
    assert key in db.daily && db.daily[key] == row && Calculated(db, key) && DailyOk(db, key);
    var inputs, complete :| CalculatedFrom(row, db.runs[row.run], db.baskets[dc].items, inputs, complete);
    assert FrozenShape(db.baskets[dc].items) && EngineRow(row) && row.coverage == 100 * ONE_PERCENT;
    assert row.value.Some?;
    hide *;
    FullRowFits(row, db.runs[row.run], db.baskets[dc].items, inputs, complete);
  }

  lemma PeriodDays(db: Store, stale: set<PeriodKey>, dc: DataClass, lo: int, hi: int)
    requires Inv(db, stale) && AllCalculated(db) && FullyCovered(db, dc, lo, hi) && dc in db.baskets
    ensures var rows, items := RowsBetween(db.daily, dc, lo, hi), db.baskets[dc].items;
            var days := PublishedDays(rows, items);
            && StoredClose(PublishedValues(rows), days)
            && (days != [] ==> FullDays(days[0], days, ROUTE_PAIRS))
  {
    var rows, items := RowsBetween(db.daily, dc, lo, hi), db.baskets[dc].items;
    assert FrozenShape(items);
    hide *;
    forall i: nat | i < |rows| && rows[i].status == PUBLISHED
      ensures FullRow(rows[i], items)
    {
      FullRows(db, stale, dc, lo, hi, i);
    }
    DaysFit(rows, items);
    if PublishedDays(rows, items) != [] {
      FullDaysOf(PublishedDays(rows, items), items);
    }
  }

  /** The decomposition of a stored period: `days` are its published days through their stored components. */
  ghost predicate Decomposes(units: int, days: seq<seq<Leg>>) {
    && days != [] && WeightOver(days[0], ROUTE_PAIRS) > 0.0
    && (forall r :: r in ROUTE_PAIRS ==> RouteValues(days, r) != [])
    && Within(units, RecombinedMonth(days[0], ROUTE_PAIRS, days) / WeightOver(days[0], ROUTE_PAIRS), DAILY_ERROR + 0.5)
    && Within(units, ReportedMonth(days[0], ROUTE_PAIRS, days) / WeightOver(days[0], ROUTE_PAIRS), DAILY_ERROR + 1.0)
  }

  lemma DaysDecompose(values: seq<int>, days: seq<seq<Leg>>)
    requires days != [] && StoredClose(values, days) && FullDays(days[0], days, ROUTE_PAIRS)
    ensures values != [] && Decomposes(RoundedMean(values), days)
  {
    PeriodDecomposes(days[0], days, values, ROUTE_PAIRS);
    ReportedDecomposes(days[0], days, values, ROUTE_PAIRS);
    hide WeightOver, RecombinedMonth, ReportedMonth, RouteValues, FullDays, StoredClose, RoundedMean, Within;
  }

  /** Every stored, current period with a value whose published days all have full coverage: the period index
      is the weight-averaged mean of the routes' indices over the period, within 1.005e-8 of the exact route
      indices and 1.505e-8 of the reported ones. */
  lemma StoredPeriodDecomposes(db: Store, stale: set<PeriodKey>, pk: PeriodKey)
    requires Inv(db, stale) && AllCalculated(db) && pk in db.periods && pk !in stale
    requires db.periods[pk].metrics.value.Some? && FullyCovered(db, pk.dataClass, pk.start, db.periods[pk].end)
    ensures pk.dataClass in db.baskets
    ensures var rows := RowsBetween(db.daily, pk.dataClass, pk.start, db.periods[pk].end);
            Decomposes(db.periods[pk].metrics.value.value, PublishedDays(rows, db.baskets[pk.dataClass].items))
  {
    CurrentValue(db, stale, pk);
    PeriodHasBasket(db, stale, pk);
    var rows := RowsBetween(db.daily, pk.dataClass, pk.start, db.periods[pk].end);
    hide *;
    PeriodDays(db, stale, pk.dataClass, pk.start, db.periods[pk].end);
    SameCount(PublishedValues(rows), PublishedDays(rows, db.baskets[pk.dataClass].items));
    DaysDecompose(PublishedValues(rows), PublishedDays(rows, db.baskets[pk.dataClass].items));
  }

  /** And the comparison list of that period, as it is returned, decomposes it too. */
  lemma StoredListDecomposes(db: Store, stale: set<PeriodKey>, pk: PeriodKey, output: seq<RouteComparison>,
                             expected: int)
    requires Inv(db, stale) && AllCalculated(db) && pk in db.periods && pk !in stale && expected > 0
    requires db.periods[pk].metrics.value.Some? && FullyCovered(db, pk.dataClass, pk.start, db.periods[pk].end)
    requires pk.dataClass in db.baskets
    requires var rows := RowsBetween(db.daily, pk.dataClass, pk.start, db.periods[pk].end);
             Compares(output, PublishedDays(rows, db.baskets[pk.dataClass].items), db.periods[pk].metrics.value.value,
                      expected)
    ensures var rows := RowsBetween(db.daily, pk.dataClass, pk.start, db.periods[pk].end);
            var days, value := PublishedDays(rows, db.baskets[pk.dataClass].items), db.periods[pk].metrics.value.value;
            && days != [] && WeightOver(days[0], RoutesOf(output)) > 0.0
            && Within(value, Listed(days[0], output) / WeightOver(days[0], RoutesOf(output)), DAILY_ERROR + 1.0)
  {
    CurrentValue(db, stale, pk);
    var rows := RowsBetween(db.daily, pk.dataClass, pk.start, db.periods[pk].end);
    hide *;
    PeriodDays(db, stale, pk.dataClass, pk.start, db.periods[pk].end);
    var days := PublishedDays(rows, db.baskets[pk.dataClass].items);
    SameCount(PublishedValues(rows), days);
    ListDecomposes(days[0], days, PublishedValues(rows), ROUTE_PAIRS, output, expected);
  }

  lemma SameCount(values: seq<int>, days: seq<seq<Leg>>)
    requires StoredClose(values, days) && values != []
    ensures days != []
  {
    hide ValueClose;
  }

  lemma CurrentValue(db: Store, stale: set<PeriodKey>, pk: PeriodKey)
    requires Inv(db, stale) && pk in db.periods && pk !in stale && db.periods[pk].metrics.value.Some?
    ensures var values := PublishedValues(RowsBetween(db.daily, pk.dataClass, pk.start, db.periods[pk].end));
            values != [] && db.periods[pk].metrics.value.value == RoundedMean(values)
  {
    CurrentIsRecomputed(db, stale);
    assert IsRecomputed(db, pk);
    var date :| pk == KeyFor(pk.dataClass, date, pk.period)
                && db.periods[pk] == Recomputed(db, pk.dataClass, date, pk.period);
    hide Inv, RowsBetween, DaysBetween, SourcesOf, PublishedValues, Coverages, RoundedMean, PeriodStart, PeriodEnd,
         CountLow, WarningsFor;
  }

  lemma PeriodHasBasket(db: Store, stale: set<PeriodKey>, pk: PeriodKey)
    requires Inv(db, stale) && AllCalculated(db) && pk in db.periods
    ensures pk.dataClass in db.baskets
  {
    assert Covered(db, pk);
    var key :| key in db.daily && pk == KeyFor(key.dataClass, db.daily[key].date, pk.period);
    assert Calculated(db, key);
    hide CalculatedFrom, Shaped, PeriodStart, PricesOk, BasketsOk, DailyOk;
  }

  /** In every run from an empty database. */
  lemma ReachablePeriodsDecompose(routes: set<Route>, ops: seq<Op>, pk: PeriodKey)
    requires var db := Run(Empty(routes), ops);
             && pk in db.periods && pk !in StaleAfterRun(Empty(routes), ops, {})
             && db.periods[pk].metrics.value.Some? && FullyCovered(db, pk.dataClass, pk.start, db.periods[pk].end)
    ensures var db := Run(Empty(routes), ops);
            && pk.dataClass in db.baskets
            && var rows := RowsBetween(db.daily, pk.dataClass, pk.start, db.periods[pk].end);
            Decomposes(db.periods[pk].metrics.value.value, PublishedDays(rows, db.baskets[pk.dataClass].items))
  {
    EmptyInv(routes);
    assert AllCalculated(Empty(routes));
    hide *;
    RunKeepsInv(Empty(routes), ops, {});
    RunCalculated(Empty(routes), ops, {});
    StoredPeriodDecomposes(Run(Empty(routes), ops), StaleAfterRun(Empty(routes), ops, {}), pk);
  }
}
