/** What every reachable index database satisfies, and why each stage keeps it. */
module IndexInvariant {
  import opened Options
  import opened Domain
  import opened Calendar
  import opened Methodology
  import opened Periods
  import opened IndexModel
  import opened IndexBase
  import opened IndexView
  import opened IndexRecovery
  import Medians
  import Rounding

  // ---------------------------------------------------------------------------------------------
  // What every reachable state satisfies

  ghost predicate BasketOk(b: Basket) {
    && b.items != []
    && (forall k :: 0 <= k < |b.items| ==> ItemOk(b.items[k], b.policy))
    && (b.policy == SEEDED_FIXED ==> b.baseEnd.Some?)
  }

  /** A base is positive, and either seeded or backed by seven component dates. */
  ghost predicate ItemOk(item: BasketItem, policy: BasePolicy) {
    && item.weight > 0.0
    && (item.base.Some? ==> item.base.value > 0)
    && (policy == SEEDED_FIXED ==> item.base.Some? && item.components == [])
    && (policy == FIRST_7_ELIGIBLE_DAILY_PRICES && item.base.Some? ==> |item.components| == BASE_REQUIRED_DATES)
  }

  ghost predicate BasketsOk(db: Store) {
    forall dc :: dc in db.baskets ==> BasketOk(db.baskets[dc])
  }

  ghost predicate RowOk(row: PriceRow) {
    row.price.Some? ==> row.price.value > 0
  }

  /** A day's prices were written together: none, or one per basket item, all of one run. */
  ghost predicate DayOk(db: Store, dc: DataClass, day: int) {
    var rows := OnDay(db.prices, dc, day);
    rows != [] ==>
      && dc in db.baskets && |rows| == |db.baskets[dc].items|
      && forall k :: 0 <= k < |rows| ==> rows[k].item == k && rows[k].run == rows[0].run
  }

  ghost predicate PricesOk(db: Store) {
    && (forall i :: 0 <= i < |db.prices| ==> RowOk(db.prices[i]))
    && UniqueRows(db.prices)
    && forall dc, day :: DayOk(db, dc, day)
  }

  ghost predicate RunsOk(db: Store) {
    forall id :: id in db.runs ==> PositiveFares(db.runs[id].fares)
  }

  /** A daily index belongs to a finished run of its own class and date, whose prices it used. */
  ghost predicate DailyOk(db: Store, key: DayKey)
    requires key in db.daily
  {
    var row := db.daily[key];
    && EngineRow(row)
    && row.run in db.runs && db.runs[row.run].dataClass == key.dataClass && db.runs[row.run].date == row.date
    && Ordinal(row.date) == key.day && Finished(db.runs[row.run]) && |Versions(db.runs[row.run].fares)| <= 1
    && var rows := OnDay(db.prices, key.dataClass, key.day);
    && rows != [] && rows[0].run == row.run
  }

  ghost predicate Inv(db: Store, stale: set<PeriodKey>) {
    && BasketsOk(db) && PricesOk(db) && RunsOk(db)
    && (forall key :: key in db.daily ==> DailyOk(db, key))
    && ViewAgrees(db, stale)
  }

  // ---------------------------------------------------------------------------------------------
  // Each stage keeps it

  /** Whatever leaves prices, runs and daily indices alone, and bases and sizes of baskets intact,
      keeps the rest. */
  lemma OthersKeepInv(db: Store, next: Store)
    requires PricesOk(db) && RunsOk(db) && forall key :: key in db.daily ==> DailyOk(db, key)
    requires next.prices == db.prices && next.runs == db.runs && next.daily == db.daily
    requires forall dc :: dc in db.baskets ==>
               dc in next.baskets && |next.baskets[dc].items| == |db.baskets[dc].items|
    ensures PricesOk(next) && RunsOk(next) && forall key :: key in next.daily ==> DailyOk(next, key)
  {
    hide UniqueRows, OnDay, EngineRow, RowOk, Ordinal, Versions, PositiveFares, Finished;
    forall dc, day
      ensures DayOk(next, dc, day)
    {
      assert DayOk(db, dc, day);
    }
    forall key | key in next.daily
      ensures DailyOk(next, key)
    {
      assert DailyOk(db, key);
    }
  }

  lemma BasketsWithNew(db: Store, dc: DataClass)
    requires BasketsOk(db)
    ensures BasketsOk(WithBasket(db, dc))
  {
    NewBasketOk();
    hide BasketOk, NewBasket;
  }

  lemma OnlyBaskets(db: Store, dc: DataClass)
    ensures var next := WithBasket(db, dc);
            && next.prices == db.prices && next.runs == db.runs && next.daily == db.daily && next.periods == db.periods
            && forall c :: c in db.baskets ==> c in next.baskets && next.baskets[c] == db.baskets[c]
  {
    hide NewBasket;
  }

  lemma InvParts(db: Store, stale: set<PeriodKey>)
    ensures Inv(db, stale) <==>
            && BasketsOk(db) && PricesOk(db) && RunsOk(db)
            && (forall key :: key in db.daily ==> DailyOk(db, key)) && ViewAgrees(db, stale)
  {
    hide BasketsOk, PricesOk, RunsOk, DailyOk, ViewAgrees;
  }

  lemma BasketKeepsInv(db: Store, dc: DataClass, stale: set<PeriodKey>)
    requires Inv(db, stale)
    ensures Inv(WithBasket(db, dc), stale)
  {
    hide *;
    var next := WithBasket(db, dc);
    InvParts(db, stale);
    OnlyBaskets(db, dc);
    BasketsWithNew(db, dc);
    ViewIgnoresPrices(db, next, stale);
    OthersKeepInv(db, next);
    InvParts(next, stale);
  }

  lemma NewBasketOk()
    ensures BasketOk(NewBasket())
  {
  }

  lemma {:induction false} OnDayOther(prices: seq<PriceRow>, rows: seq<PriceRow>, dc: DataClass, day: int)
    requires forall i :: 0 <= i < |rows| ==> !(rows[i].dataClass == dc && rows[i].day == day)
    ensures OnDay(prices + rows, dc, day) == OnDay(prices, dc, day)
  {
    if rows == [] {
      assert prices + rows == prices;
    } else {
      var head := rows[..|rows| - 1];
      assert (prices + rows)[..|prices + rows| - 1] == prices + head;
      OnDayOther(prices, head, dc, day);
    }
  }

  lemma PricesKeepDays(db: Store, id: nat, dc: DataClass, day: int)
    requires id in db.runs && db.runs[id].dataClass in db.baskets && DayOk(db, dc, day)
    requires WithPrices(db, id).Ok? && WithPrices(db, id).value.memory.Fresh?
    ensures DayOk(WithPrices(db, id).value.store, dc, day)
    ensures OnDay(db.prices, dc, day) != [] ==>
              OnDay(WithPrices(db, id).value.store.prices, dc, day) == OnDay(db.prices, dc, day)
  {
    var run, next := db.runs[id], WithPrices(db, id).value.store;
    var items := db.baskets[run.dataClass].items;
    FreshStore(db, id);
    hide *;
    if dc == run.dataClass && day == DayOf(run) {
      FreshPrices(db, id);
      NewDayOk(next, id, run, items, day);
    } else {
      OtherDays(id, run, items, dc, day);
      OnDayOther(db.prices, NewPriceRows(id, run, items), dc, day);
      SameDayOk(db, next, dc, day);
    }
  }

  lemma FreshStore(db: Store, id: nat)
    requires id in db.runs && db.runs[id].dataClass in db.baskets
    requires WithPrices(db, id).Ok? && WithPrices(db, id).value.memory.Fresh?
    ensures var run, next := db.runs[id], WithPrices(db, id).value.store;
            && next.prices == db.prices + NewPriceRows(id, run, db.baskets[run.dataClass].items)
            && next.baskets == db.baskets && OnDay(db.prices, run.dataClass, DayOf(run)) == []
  {
    hide OnDay, DayOf, NewPriceRows;
  }

  lemma NewDayOk(next: Store, id: nat, run: CollectionRun, items: seq<BasketItem>, day: int)
    requires run.dataClass in next.baskets && next.baskets[run.dataClass].items == items
    requires OnDay(next.prices, run.dataClass, day) == NewPriceRows(id, run, items)
    ensures DayOk(next, run.dataClass, day)
  {
    hide OnDay, DayOf, Stored, ExactPrice, MatchingFares;
  }

  lemma OtherDays(id: nat, run: CollectionRun, items: seq<BasketItem>, dc: DataClass, day: int)
    requires !(dc == run.dataClass && day == DayOf(run))
    ensures var rows := NewPriceRows(id, run, items);
            forall i :: 0 <= i < |rows| ==> !(rows[i].dataClass == dc && rows[i].day == day)
  {
    hide DayOf, Stored, ExactPrice, MatchingFares;
  }

  lemma SameDayOk(db: Store, next: Store, dc: DataClass, day: int)
    requires DayOk(db, dc, day) && next.baskets == db.baskets
    requires OnDay(next.prices, dc, day) == OnDay(db.prices, dc, day)
    ensures DayOk(next, dc, day)
  {
    hide OnDay;
  }

  lemma NewRowsUnique(db: Store, id: nat, items: seq<BasketItem>)
    requires id in db.runs && UniqueRows(db.prices)
    requires OnDay(db.prices, db.runs[id].dataClass, DayOf(db.runs[id])) == []
    ensures UniqueRows(db.prices + NewPriceRows(id, db.runs[id], items))
  {
    OnDayNone(db.prices, db.runs[id].dataClass, DayOf(db.runs[id]));
    hide OnDay, DayOf, Stored, ExactPrice, MatchingFares;
  }

  lemma NewRowOk(id: nat, run: CollectionRun, items: seq<BasketItem>, k: nat)
    requires PositiveFares(run.fares) && k < |items|
    ensures RowOk(NewPriceRow(id, run, items, k))
  {
    if ExactPrice(run, items[k]).Some? {
      ExactPricePositive(run, items[k]);
    }
    hide ExactPrice, DayOf, MatchingFares;
  }

  lemma PricesKeepInv(db: Store, id: nat, stale: set<PeriodKey>)
    requires Inv(db, stale) && id in db.runs && db.runs[id].dataClass in db.baskets && WithPrices(db, id).Ok?
    ensures Inv(WithPrices(db, id).value.store, stale)
  {
    var priced, run := WithPrices(db, id).value, db.runs[id];
    if priced.memory.Fresh? {
      var items := db.baskets[run.dataClass].items;
      NewRowsUnique(db, id, items);
      ViewIgnoresPrices(db, priced.store, stale);
      forall dc, day
        ensures DayOk(priced.store, dc, day)
      {
        PricesKeepDays(db, id, dc, day);
      }
      forall key | key in priced.store.daily
        ensures DailyOk(priced.store, key)
      {
        assert DailyOk(db, key);
        PricesKeepDays(db, id, key.dataClass, key.day);
      }
      forall k: nat | k < |items|
        ensures RowOk(NewPriceRow(id, run, items, k))
      {
        NewRowOk(id, run, items, k);
      }
    }
    hide ViewAgrees, UniqueRows, OnDay, EngineRow, RowOk, NewPriceRow, DayOf, ExactPrices;
  }

  lemma FrozenItemOk(prices: seq<PriceRow>, item: BasketItem, rows: seq<PriceRow>, policy: BasePolicy)
    requires ItemOk(item, policy) && forall r :: r in rows ==> r in prices
    requires forall i :: 0 <= i < |prices| ==> RowOk(prices[i])
    requires |rows| <= BASE_REQUIRED_DATES
    ensures ItemOk(FrozenItem(item, rows, Forgotten), policy)
  {
    var values := ReadPrices(rows, Forgotten);
    if item.base.None? && |rows| >= BASE_REQUIRED_DATES && |values| == BASE_REQUIRED_DATES {
      StoredPricesPositive(prices, rows);
      Medians.MedianAtLeast(values, 1.0);
      Rounding.HalfAwayMonotone(1.0, Medians.Median(values));
    }
    hide Medians.Median, Rounding.HalfAway, ReadPrices;
  }

  lemma {:induction false} StoredPricesPositive(prices: seq<PriceRow>, rows: seq<PriceRow>)
    requires forall r :: r in rows ==> r in prices
    requires forall i :: 0 <= i < |prices| ==> RowOk(prices[i])
    ensures forall x :: x in ReadPrices(rows, Forgotten) ==> x >= 1.0
  {
    if rows != [] {
      StoredPricesPositive(prices, rows[..|rows| - 1]);
      assert rows[|rows| - 1] in rows;
    }
  }

  lemma FrozenBasketOk(db: Store, dc: DataClass)
    requires dc in db.baskets && BasketsOk(db) && PricesOk(db)
    ensures BasketOk(Frozen(db, dc, Forgotten).baskets[dc])
  {
    var basket := db.baskets[dc].(items := FrozenItems(db, dc, Forgotten));
    SettledTwice(basket);
    forall k: nat | k < |basket.items|
      ensures ItemOk(basket.items[k], basket.policy)
    {
      EarliestAre(db.prices, dc, k, db.runs);
      EarliestSize(db.prices, dc, k, db.runs);
      FrozenItemOk(db.prices, db.baskets[dc].items[k], Earliest(db.prices, dc, k, db.runs), basket.policy);
    }
    hide FrozenItem, Earliest, ItemOk, UniqueRows, DayOk, RowOk, AllComponents, Complete;
  }

  lemma FrozenBaskets(db: Store, dc: DataClass, memory: Memory)
    requires dc in db.baskets
    ensures forall d :: d in db.baskets && d != dc ==> d in Frozen(db, dc, memory).baskets
                                                       && Frozen(db, dc, memory).baskets[d] == db.baskets[d]
    ensures forall d :: d in Frozen(db, dc, memory).baskets ==> d in db.baskets
  {
    hide Settled, FrozenItems;
  }

  lemma FrozenBasketsOk(db: Store, dc: DataClass)
    requires dc in db.baskets && BasketsOk(db) && PricesOk(db)
    ensures BasketsOk(Frozen(db, dc, Forgotten))
  {
    FrozenBasketOk(db, dc);
    FrozenBaskets(db, dc, Forgotten);
    hide Frozen, BasketOk, PricesOk;
  }

  lemma SameSizes(db: Store, next: Store, dc: DataClass)
    requires dc in db.baskets && dc in next.baskets && BaseKept(db.baskets[dc].items, next.baskets[dc].items)
    requires forall d :: d in db.baskets && d != dc ==> d in next.baskets && next.baskets[d] == db.baskets[d]
    ensures forall d :: d in db.baskets ==> d in next.baskets && |next.baskets[d].items| == |db.baskets[d].items|
  {
  }

  lemma FreezeKeepsInv(db: Store, dc: DataClass, memory: Memory, stale: set<PeriodKey>)
    requires Inv(db, stale) && dc in db.baskets && MemoryFits(db.prices, memory)
    ensures Inv(Frozen(db, dc, memory), stale)
  {
    hide *;
    var next := Frozen(db, dc, Forgotten);
    InvParts(db, stale);
    FrozenForgets(db, dc, memory);
    FrozenKeepsBase(db, dc, Forgotten);
    FrozenParts(db, dc, Forgotten);
    FrozenBaskets(db, dc, Forgotten);
    FrozenBasketsOk(db, dc);
    ViewIgnoresPrices(db, next, stale);
    SameSizes(db, next, dc);
    OthersKeepInv(db, next);
    InvParts(next, stale);
  }

  /** What `calculate` returns at the default threshold is stored as an engine row. */
  lemma DailyIsEngineRow(db: Store, id: nat, memory: Memory)
    requires id in db.runs && db.runs[id].dataClass in db.baskets && DailyFor(db, id, memory).Ok?
    ensures EngineRow(DailyFor(db, id, memory).value)
  {
    DailyForInputs(db, id, memory);
    var run := db.runs[id];
    var items := db.baskets[run.dataClass].items;
    var inputs := InputsFor(items, OnDay(db.prices, run.dataClass, DayOf(run)), memory);
    hide InputsFor, OnDay, DailyFor, Versions, Complete, DayOf;
    PublishedWithoutValue(inputs, Complete(items), MINIMUM_PERCENT);
    ResultIsEngineRow(id, run, inputs, Complete(items));
  }

  lemma ResultIsEngineRow(id: nat, run: CollectionRun, inputs: seq<Input>, complete: bool)
    requires inputs != [] && PositiveWeights(inputs)
    ensures EngineRow(DailyRow(id, run, ResultOf(inputs, complete, MINIMUM_PERCENT)))
  {
    PublishedWithoutValue(inputs, complete, MINIMUM_PERCENT);
    hide Coverage, CalculatedValue, StoredComponents, OnlyVersion, ToIndexUnits, CountAvailable, PositiveWeights;
    if Coverage(inputs) >= MINIMUM_PERCENT {
      CoverageRounds(Coverage(inputs));
    }
  }

  lemma CoverageRounds(percent: real)
    requires percent >= 80.0
    ensures ToCoverageUnits(percent) >= MINIMUM_COVERAGE
  {
    Rounding.HalfAwayMonotone(800000.0, percent * 10000.0);
    Rounding.HalfAwayFixesIntegers(800000);
  }

  lemma DailyKeepsInv(db: Store, id: nat, memory: Memory, stale: set<PeriodKey>)
    requires Inv(db, stale) && Ready(db, id) && DailyFor(db, id, memory).Ok? && KeyOfRun(db, id) !in db.daily
    requires PricedState(db, id)
    ensures var next := db.(daily := db.daily[KeyOfRun(db, id) := DailyFor(db, id, memory).value]);
            Inv(next, stale + KeysOf(db.runs[id].dataClass, db.runs[id].date))
  {
    var run, row, key := db.runs[id], DailyFor(db, id, memory).value, KeyOfRun(db, id);
    var next := db.(daily := db.daily[key := row]);
    DailyRowRun(db, id, memory);
    DailyIsEngineRow(db, id, memory);
    NewDayStales(db, stale, run.dataClass, row);
    PricedRows(db, id);
    hide ViewAgrees, UniqueRows, OnDay, EngineRow, RowOk, BasketOk, DailyFor, WithPrices, Ordinal, Versions;
    forall d, day
      ensures DayOk(next, d, day)
    {
      assert DayOk(db, d, day);
    }
    forall k | k in next.daily
      ensures DailyOk(next, k)
    {
      assert k != key ==> DailyOk(db, k);
    }
  }

  lemma PricedRows(db: Store, id: nat)
    requires id in db.runs && db.runs[id].dataClass in db.baskets && PricedState(db, id)
    ensures var rows := OnDay(db.prices, db.runs[id].dataClass, DayOf(db.runs[id])); rows != [] && rows[0].run == id
  {
    hide OnDay, DayOf, NewPriceRow;
  }

  lemma RefreshKeepsInv(db: Store, key: DayKey, period: PeriodType, stale: set<PeriodKey>)
    requires Inv(db, stale) && key in db.daily
    ensures var date := db.daily[key].date;
            Inv(Refreshed(db, key.dataClass, date, period), stale - {KeyFor(key.dataClass, date, period)})
  {
    var date := db.daily[key].date;
    var next := Refreshed(db, key.dataClass, date, period);
    RefreshCures(db, stale, key, period);
    OthersKeepInv(db, next);
    hide ViewAgrees, PricesOk, DailyOk, RunsOk, BasketOk, Recomputed, KeyFor;
  }
}
