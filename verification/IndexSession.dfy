/** The index engine as it runs: a database session with pending rows and commits, and the methods of
    `indexing/basket.py`, `aggregate.py`, `periods.py` and `service.py`, each proved to do to the
    database exactly what the corresponding function of `IndexModel` says. */
module IndexSession {
  import opened Aggregates
  import opened Options
  import opened Domain
  import opened Calendar
  import opened Methodology
  import opened Periods
  import opened IndexModel
  import opened IndexInvariant
  import opened RouteWindowPrices
  import Sorting
  import Medians
  import Rounding

  // ---------------------------------------------------------------------------------------------
  // Facts the methods rely on

  /** Inputs read in id order are not moved by the sort of `calculate`. */
  lemma {:induction false} SortKeepsOrdered(s: seq<Input>)
    requires forall i, j :: 0 <= i < j < |s| ==> s[i].id <= s[j].id
    ensures Sorting.Sort(s, ById) == s
  {
    if s != [] {
      SortKeepsOrdered(s[1..]);
      assert [s[0]] + s[1..] == s;
    }
  }

  /** `min` and `max` over the base dates of a complete basket never see an empty list. */
  lemma {:induction false} ComponentsOfComplete(items: seq<BasketItem>)
    requires items != [] && forall k :: 0 <= k < |items| ==> |items[k].components| == BASE_REQUIRED_DATES
    ensures AllComponents(items) != []
  {
  }

  function MissingRoutesOf(db: Store): seq<Route> {
    (if DEL_BOM in db.activeRoutes then [] else [DEL_BOM])
    + (if DEL_BLR in db.activeRoutes then [] else [DEL_BLR])
    + (if BOM_BLR in db.activeRoutes then [] else [BOM_BLR])
  }

  lemma FreezeThenIndex(db: Store, id: nat, memory: Memory)
    requires id in db.runs && db.runs[id].dataClass in db.baskets
    ensures var frozen := Frozen(db, db.runs[id].dataClass, memory);
            && frozen.runs == db.runs && db.runs[id].dataClass in frozen.baskets
            && FromFreeze(db, id, memory) == After([frozen], AfterFreeze(frozen, id, memory))
  {
    hide DailyFor, Refreshes, DayOf, FrozenItems, Settled, FromDaily;
    var frozen := Frozen(db, db.runs[id].dataClass, memory);
    assert [frozen] + [] == [frozen];
  }

  lemma RefreshedIs(db: Store, dc: DataClass, date: CalendarDate, period: PeriodType)
    ensures var lo, hi := PeriodStart(date, period), PeriodEnd(date, period);
            var rows := RowsBetween(db.daily, dc, lo, hi);
            var metrics := Metrics(rows, hi - lo + 1, |SourcesOf(rows, db.runs)|, MINIMUM_COVERAGE);
            var stored := PeriodIndex(hi, metrics, DaysBetween(db.daily, dc, lo, hi));
            Refreshed(db, dc, date, period) == db.(periods := db.periods[PeriodKey(dc, period, lo) := stored])
  {
    hide PeriodStart, PeriodEnd, RowsBetween, DaysBetween, SourcesOf, Metrics;
  }

  lemma FromDailyIs(db: Store, id: nat, row: DailyIndex)
    requires id in db.runs
    ensures var run := db.runs[id];
            var next := db.(daily := db.daily[DayKey(run.dataClass, DayOf(run)) := row]);
            && FromDaily(db, id, row) == Call([next] + Refreshes(next, run.dataClass, run.date), Indexed(row, true))
            && End(db, FromDaily(db, id, row)) == Refreshes(next, run.dataClass, run.date)[1]
            && |Refreshes(next, run.dataClass, run.date)| == 2
  {
    hide DayOf, Refreshed;
  }

  /** What a new session does for a finished run, by cases. */
  lemma FinishedCall(db: Store, id: nat)
    requires id in db.runs && Finished(db.runs[id])
    ensures var dc := db.runs[id].dataClass;
            var next := WithBasket(db, dc);
            && dc in next.baskets && next.runs == db.runs && (dc in db.baskets ==> next == db)
            && (dc !in db.baskets && !RoutesActive(db) ==> CallFor(db, id) == Call([], Rejected(MissingRoutes)))
            && (dc in db.baskets || RoutesActive(db) ==>
                  CallFor(db, id) == After(if dc in db.baskets then [] else [next], FromPrices(next, id)))
  {
    hide FromPrices;
    var call := CallFor(db, id);
    assert After([], call) == call;
  }

  /** A new basket is in order. */
  lemma WithBasketOk(db: Store, dc: DataClass)
    requires BasketsOk(db)
    ensures BasketOk(WithBasket(db, dc).baskets[dc])
  {
    NewBasketOk();
    hide NewBasket, BasketOk;
  }

  /** A call from price aggregation onwards, by cases. */
  lemma PricedCall(db: Store, id: nat)
    requires id in db.runs && db.runs[id].dataClass in db.baskets
    ensures match WithPrices(db, id)
            case Err(reason) => FromPrices(db, id) == Call([], Rejected(reason))
            case Ok(priced) =>
              && priced.store.runs == db.runs && priced.store.baskets == db.baskets
              && FromPrices(db, id) == After(if priced.memory.Fresh? then [priced.store] else [],
                                             FromFreeze(priced.store, id, priced.memory))
              && (priced.memory.Forgotten? ==> priced.store == db)
  {
    hide FromFreeze, OnDay, DayOf;
  }

  lemma EmptyBasketOf(items: seq<BasketItem>)
    requires items == NewBasket().items
    ensures Basket(FIRST_7_ELIGIBLE_DAILY_PRICES, None, None, items) == NewBasket()
  {
  }

  lemma SeededOf(basket: Basket, prices: seq<real>, day: int, items: seq<BasketItem>)
    requires Seeded(basket, prices, day).Ok? && |items| == |basket.items|
    requires forall k :: 0 <= k < |basket.items| ==> items[k] == SeededItem(basket.items[k], prices[k])
    ensures Seeded(basket, prices, day).value == Basket(SEEDED_FIXED, Some(day), Some(day), items)
  {
    hide SeededItem;
    assert Seeded(basket, prices, day).value.items == items;
  }

  class Session {
    var pending: Store             // what queries and later statements see
    var saved: Store               // what a crash would leave
    var memory: Memory             // exact prices of rows this session computed
    ghost var commits: seq<Store>

    constructor (db: Store)
      ensures pending == saved == db && memory == Forgotten && commits == []
    {
      pending, saved, memory, commits := db, db, Forgotten, [];
    }

    /** Everything since `before` and `earlier` is what `call` says. */
    ghost predicate Performed(before: Store, earlier: seq<Store>, call: Call, outcome: Outcome)
      reads this
    {
      outcome == call.outcome && commits == earlier + call.commits && saved == pending == End(before, call)
    }

    /** Work that starts where `first` ended completes the whole. */
    lemma ThenPerformed(before: Store, earlier: seq<Store>, first: seq<Store>, middle: Store, call: Call,
                        outcome: Outcome)
      requires Performed(middle, earlier + first, call, outcome)
      requires middle == End(before, Call(first, outcome))
      ensures Performed(before, earlier, After(first, call), outcome)
    {
      assert earlier + (first + call.commits) == earlier + first + call.commits;
    }

    lemma NothingPerformed(before: Store, earlier: seq<Store>, outcome: Outcome)
      requires saved == pending == before && commits == earlier
      ensures Performed(before, earlier, Call([], outcome), outcome)
    {
    }

    method Commit()
      modifies this`saved, this`commits
      ensures saved == pending && commits == old(commits) + [pending]
    {
      saved := pending;
      commits := commits + [pending];
    }

    /** The item loop of `ensure_mvp_basket`: every window of every route. */
    method BasketItems() returns (items: seq<BasketItem>)
      ensures items == NewBasket().items
    {
      items := [];
      for i := 0 to |ROUTE_PAIRS|
        invariant |items| == 5 * i && forall k :: 0 <= k < |items| ==> items[k] == NewItem(k)
      {
        for j := 0 to |WINDOWS|
          invariant |items| == 5 * i + j && forall k :: 0 <= k < |items| ==> items[k] == NewItem(k)
        {
          items := items + [BasketItem(ROUTE_PAIRS[i], WINDOWS[j], EQUAL_WEIGHT, None, [])];
        }
      }
    }

    /** `ensure_mvp_basket`. */
    method EnsureMvpBasket(dc: DataClass) returns (missing: bool)
      requires saved == pending
      modifies this`pending, this`saved, this`commits
      ensures saved == pending
      ensures missing <==> dc !in old(pending).baskets && !RoutesActive(old(pending))
      ensures pending == if missing then old(pending) else WithBasket(old(pending), dc)
      ensures commits == old(commits) + (if missing || dc in old(pending).baskets then [] else [pending])
    {
      hide NewItem, NewBasket;
      if dc in pending.baskets {
        return false;
      }
      if MissingRoutesOf(pending) != [] {
        return true;
      }
      var items := BasketItems();
      EmptyBasketOf(items);
      pending := pending.(baskets := pending.baskets[dc := Basket(FIRST_7_ELIGIBLE_DAILY_PRICES, None, None, items)]);
      Commit();
      missing := false;
    }

    /** The item loop of `aggregate_route_window_prices`. */
    method PriceItems(id: nat, run: CollectionRun, items: seq<BasketItem>)
      returns (rows: seq<PriceRow>, exact: seq<Option<real>>)
      ensures rows == NewPriceRows(id, run, items) && exact == ExactPrices(run, items)
      ensures forall k :: 0 <= k < |items| ==>
                && rows[k].item == k && Describes(rows[k], run, items[k])
                && PricedFrom(exact[k], rows[k].flights, run, items[k])
    {
      rows, exact := [], [];
      hide Describes, PricedFrom;
      for k := 0 to |items|
        invariant |rows| == |exact| == k
        invariant forall m :: 0 <= m < k ==> rows[m] == NewPriceRow(id, run, items, m)
        invariant forall m :: 0 <= m < k ==> exact[m] == ExactPrice(run, items[m])
        invariant forall m :: 0 <= m < k ==>
                    && Describes(rows[m], run, items[m])
                    && PricedFrom(exact[m], rows[m].flights, run, items[m])
      {
        PriceIsMedian(run, items[k]);
        NewRowDescribes(id, run, items, k);
        var canonical := MatchingFares(run.fares, items[k]);
        var price := if canonical == [] then None else Some(Medians.Median(canonical));
        assert price == ExactPrice(run, items[k]);
        rows := rows + [PriceRow(id, run.dataClass, DayOf(run), k, Stored(price), |canonical|)];
        exact := exact + [price];
      }
    }

    /** `aggregate_route_window_prices`. */
    method AggregateRouteWindowPrices(id: nat) returns (rejection: Option<Rejection>)
      requires saved == pending && memory == Forgotten
      requires id in pending.runs && pending.runs[id].dataClass in pending.baskets
      modifies this
      ensures saved == pending
      ensures match WithPrices(old(pending), id)
              case Err(reason) =>
                rejection == Some(reason) && pending == old(pending) && commits == old(commits) && memory == Forgotten
              case Ok(priced) =>
                && rejection == None && pending == priced.store && memory == priced.memory
                && commits == old(commits) + (if priced.memory.Fresh? then [priced.store] else [])
      ensures memory.Fresh? ==>
                var before, items := |old(pending).prices|, pending.baskets[pending.runs[id].dataClass].items;
                && |pending.prices| == before + |items| && |memory.exact| == |items|
                && forall k :: 0 <= k < |items| ==>
                     var row := pending.prices[before + k];
                     && row.item == k && Describes(row, pending.runs[id], items[k])
                     && PricedFrom(memory.exact[k], row.flights, pending.runs[id], items[k])
    {
      var run := pending.runs[id];
      var items := pending.baskets[run.dataClass].items;
      hide Describes, PricedFrom;
      hide OnDay, DayOf, NewPriceRows, ExactPrices, RoutesActive;
      if items == [] {
        return Some(EmptyBasket);
      }
      var existing := OnDay(pending.prices, run.dataClass, DayOf(run));
      if existing != [] {
        if |existing| != |items| {
          return Some(IncompleteAggregation);
        }
        if exists i :: 0 <= i < |existing| && existing[i].run != id {
          return Some(DateTaken);
        }
        return None;
      }
      var rows, exact := PriceItems(id, run, items);
      pending := pending.(prices := pending.prices + rows);
      memory := Fresh(run.dataClass, DayOf(run), exact);
      Commit();
      rejection := None;
    }

    /** The loop of `freeze_base_period_if_ready` over the basket's items. */
    method FreezeItems(dc: DataClass) returns (items: seq<BasketItem>)
      requires dc in pending.baskets
      ensures items == FrozenItems(pending, dc, memory)
    {
      items := pending.baskets[dc].items;
      hide Earliest, ReadPrices;
      for k := 0 to |items|
        invariant |items| == |pending.baskets[dc].items|
        invariant forall m :: k <= m < |items| ==> items[m] == pending.baskets[dc].items[m]
        invariant forall m :: 0 <= m < k ==>
                    items[m] == FrozenItem(pending.baskets[dc].items[m],
                                           Earliest(pending.prices, dc, m, pending.runs), memory)
      {
        if items[k].base.Some? {
          continue;
        }
        var candidates := Earliest(pending.prices, dc, k, pending.runs);
        if |candidates| < BASE_REQUIRED_DATES {
          continue;
        }
        var prices := ReadPrices(candidates, memory);
        if |prices| != BASE_REQUIRED_DATES {
          continue;
        }
        var item := items[k].(base := Some(Rounding.HalfAway(Medians.Median(prices))), components := Days(candidates));
        items := items[k := item];
      }
    }

    /** `freeze_base_period_if_ready`.  Taking the least and greatest base date is safe: a complete
        basket without an end date was frozen naturally, so every item has its seven dates. */
    method FreezeBasePeriodIfReady(dc: DataClass) returns (complete: bool)
      requires dc in pending.baskets && BasketOk(pending.baskets[dc])
      modifies this`pending, this`saved, this`commits
      ensures saved == pending == Frozen(old(pending), dc, old(memory))
      ensures commits == old(commits) + [pending]
      ensures dc in pending.baskets && complete == Complete(pending.baskets[dc].items)
    {
      ghost var before := pending.baskets[dc];
      var items := FreezeItems(dc);
      var basket := pending.baskets[dc].(items := items);
      complete := Complete(items);
      if complete && basket.baseEnd.None? {
        var dates := AllComponents(items);
        assert dates != [] by {
          FrozenHaveComponents(before, pending, dc, memory, items);
          ComponentsOfComplete(items);
        }
        basket := basket.(baseStart := Some(Least(dates)), baseEnd := Some(Greatest(dates)));
      }
      assert basket == Settled(before.(items := items));
      hide FrozenItem, AllComponents, BasketOk, Complete, Earliest, Least, Greatest;
      pending := pending.(baskets := pending.baskets[dc := basket]);
      Commit();
    }

    lemma FrozenHaveComponents(before: Basket, db: Store, dc: DataClass, held: Memory, items: seq<BasketItem>)
      requires BasketOk(before) && dc in db.baskets && before == db.baskets[dc] && items == FrozenItems(db, dc, held)
      requires Complete(items) && before.baseEnd.None?
      ensures items != [] && forall k :: 0 <= k < |items| ==> |items[k].components| == BASE_REQUIRED_DATES
    {
      forall k: nat | k < |items|
        ensures |items[k].components| == BASE_REQUIRED_DATES
      {
        assert ItemOk(before.items[k], before.policy);
        EarliestLimit(db.prices, dc, k, db.runs);
        hide Earliest, ReadPrices, Medians.Median, Rounding.HalfAway;
      }
    }

    lemma EarliestLimit(prices: seq<PriceRow>, dc: DataClass, k: nat, runs: map<nat, CollectionRun>)
      ensures |Earliest(prices, dc, k, runs)| <= BASE_REQUIRED_DATES
    {
    }

    /** The item loop of `set_seeded_base_prices`: nothing when a base would change. */
    method SeedItems(basket: Basket, prices: seq<real>) returns (items: Option<seq<BasketItem>>)
      requires |prices| == |basket.items|
      ensures items.None? <==> exists k :: 0 <= k < |basket.items| && basket.items[k].base.Some?
                                           && basket.items[k].base.value as real != prices[k]
      ensures items.Some? ==> |items.value| == |basket.items|
      ensures items.Some? ==>
                forall k :: 0 <= k < |basket.items| ==> items.value[k] == SeededItem(basket.items[k], prices[k])
    {
      var seeded := [];
      hide SeededItem;
      for k := 0 to |basket.items|
        invariant |seeded| == k && forall m :: 0 <= m < k ==> seeded[m] == SeededItem(basket.items[m], prices[m])
        invariant forall m :: 0 <= m < k && basket.items[m].base.Some? ==>
                    basket.items[m].base.value as real == prices[m]
      {
        if basket.items[k].base.Some? && basket.items[k].base.value as real != prices[k] {
          return None;
        }
        seeded := seeded + [SeededItem(basket.items[k], prices[k])];
      }
      items := Some(seeded);
    }

    /** `set_seeded_base_prices`, with the price of each item in basket order. */
    method SetSeededBasePrices(dc: DataClass, prices: seq<real>, day: int) returns (error: Option<SeedError>)
      requires saved == pending && dc in pending.baskets
      modifies this`pending, this`saved, this`commits
      ensures saved == pending
      ensures match Seeded(old(pending).baskets[dc], prices, day)
              case Err(e) => error == Some(e) && pending == old(pending) && commits == old(commits)
              case Ok(basket) =>
                && error == None && commits == old(commits) + [pending]
                && pending == old(pending).(baskets := old(pending).baskets[dc := basket])
    {
      var basket := pending.baskets[dc];
      hide SeededItem, Rounding.HalfAway;
      if |prices| != |basket.items| {
        return Some(NotCovered);
      }
      if exists k :: 0 <= k < |prices| && prices[k] <= 0.0 {
        return Some(NotPositive);
      }
      var frozen := exists k :: 0 <= k < |basket.items| && basket.items[k].base.Some?;
      if frozen && basket.policy != SEEDED_FIXED {
        return Some(NaturallyFrozen);
      }
      var items := SeedItems(basket, prices);
      if items.None? {
        return Some(WouldChange);
      }
      if exists k :: 0 <= k < |prices| && Rounding.HalfAway(prices[k]) <= 0 {
        return Some(NotPositive);
      }
      SeededOf(basket, prices, day, items.value);
      pending := pending.(baskets := pending.baskets[dc := Basket(SEEDED_FIXED, Some(day), Some(day), items.value)]);
      Commit();
      error := None;
    }

    /** `refresh_period`: overwrites the stored row of the period and replaces its input links. */
    method RefreshPeriod(dc: DataClass, date: CalendarDate, period: PeriodType)
      modifies this`pending, this`saved, this`commits
      ensures saved == pending == Refreshed(old(pending), dc, date, period)
      ensures commits == old(commits) + [pending]
    {
      hide *;
      OwnPeriod(date, period);
      RefreshedIs(pending, dc, date, period);
      var lo, hi := PeriodStart(date, period), PeriodEnd(date, period);
      var rows := RowsBetween(pending.daily, dc, lo, hi);
      var sources := |SourcesOf(rows, pending.runs)|;
      var metrics := CalculatePeriodMetrics(rows, hi - lo + 1, sources, MINIMUM_COVERAGE);
      var aggregate := PeriodIndex(hi, metrics.value, DaysBetween(pending.daily, dc, lo, hi));
      pending := pending.(periods := pending.periods[PeriodKey(dc, period, lo) := aggregate]);
      Commit();
    }

    /** `refresh_periods_for_index`. */
    method RefreshPeriodsForIndex(dc: DataClass, date: CalendarDate)
      modifies this`pending, this`saved, this`commits
      ensures saved == pending == Refreshes(old(pending), dc, date)[1]
      ensures commits == old(commits) + Refreshes(old(pending), dc, date)
    {
      RefreshPeriod(dc, date, WEEKLY);
      RefreshPeriod(dc, date, MONTHLY);
      hide Refreshed;
    }

    /** The loop that copies components into rows. */
    method StoreComponents(components: seq<Component>) returns (rows: seq<Component>)
      ensures rows == StoredComponents(components)
    {
      rows := [];
      for i := 0 to |components|
        invariant |rows| == i && forall k :: 0 <= k < i ==> rows[k] == StoredComponent(components[k])
      {
        rows := rows + [StoredComponent(components[i])];
      }
    }

    /** The part of `calculate_index_for_run` that computes the new daily index. */
    method ComputeDailyIndex(id: nat, complete: bool) returns (r: Result<DailyIndex, Rejection>)
      requires id in pending.runs && pending.runs[id].dataClass in pending.baskets
      requires complete == Complete(pending.baskets[pending.runs[id].dataClass].items)
      ensures r == DailyFor(pending, id, memory)
    {
      var run := pending.runs[id];
      var items := pending.baskets[run.dataClass].items;
      var inputs := InputsFor(items, OnDay(pending.prices, run.dataClass, DayOf(run)), memory);
      SortKeepsOrdered(inputs);
      hide OnDay, DayOf, InputFor, Complete, Versions, ResultOf;
      var result := Calculate(inputs, complete, MINIMUM_PERCENT);
      if result.Err? {
        return Err(BadWeights);
      }
      if |Versions(run.fares)| > 1 {
        return Err(MixedCanonicalVersions);
      }
      var components := StoreComponents(result.value.components);
      var value := if result.value.value.None? then None else Some(ToIndexUnits(result.value.value.value));
      r := Ok(DailyIndex(id, run.date, value, ToCoverageUnits(result.value.coverage), result.value.status,
                         OnlyVersion(run.fares), components));
    }

    /** Storing the new daily index and refreshing its periods. */
    method StoreDailyIndex(id: nat, row: DailyIndex)
      requires id in pending.runs
      modifies this
      ensures Performed(old(pending), old(commits), FromDaily(old(pending), id, row), Indexed(row, true))
    {
      var run := pending.runs[id];
      FromDailyIs(pending, id, row);
      hide Refreshes, DayOf, FromDaily, End;
      pending := pending.(daily := pending.daily[DayKey(run.dataClass, DayOf(run)) := row]);
      Commit();
      RefreshPeriodsForIndex(run.dataClass, run.date);
    }

    /** `calculate_index_for_run` after the freeze. */
    method IndexFrozen(id: nat, complete: bool) returns (outcome: Outcome)
      requires saved == pending && id in pending.runs && pending.runs[id].dataClass in pending.baskets
      requires complete == Complete(pending.baskets[pending.runs[id].dataClass].items)
      modifies this
      ensures Performed(old(pending), old(commits), AfterFreeze(old(pending), id, old(memory)), outcome)
    {
      var run := pending.runs[id];
      var key := DayKey(run.dataClass, DayOf(run));
      hide DailyFor, Refreshes, DayOf, Complete, FromDaily;
      if key in pending.daily {
        var existing := pending.daily[key];
        if existing.run != id {
          return Rejected(DateTaken);
        }
        RefreshPeriodsForIndex(run.dataClass, run.date);
        return Indexed(existing, false);
      }
      var daily := ComputeDailyIndex(id, complete);
      if daily.Err? {
        return Rejected(daily.error);
      }
      StoreDailyIndex(id, daily.value);
      outcome := Indexed(daily.value, true);
    }

    /** From the freeze to the end of `calculate_index_for_run`. */
    method FinishCalculation(id: nat) returns (outcome: Outcome)
      requires saved == pending && id in pending.runs && pending.runs[id].dataClass in pending.baskets
      requires BasketOk(pending.baskets[pending.runs[id].dataClass])
      modifies this
      ensures Performed(old(pending), old(commits), FromFreeze(old(pending), id, old(memory)), outcome)
    {
      FreezeThenIndex(pending, id, memory);
      hide *;
      var complete := FreezeBasePeriodIfReady(pending.runs[id].dataClass);
      ghost var frozen := pending;
      outcome := IndexFrozen(id, complete);
      EndOfOne(old(pending), frozen, outcome);
      ThenPerformed(old(pending), old(commits), [frozen], frozen, AfterFreeze(frozen, id, old(memory)), outcome);
    }

    /** From price aggregation to the end of `calculate_index_for_run`. */
    method PriceAndFinish(id: nat) returns (outcome: Outcome)
      requires saved == pending && memory == Forgotten
      requires id in pending.runs && pending.runs[id].dataClass in pending.baskets
      requires BasketOk(pending.baskets[pending.runs[id].dataClass])
      modifies this
      ensures Performed(old(pending), old(commits), FromPrices(old(pending), id), outcome)
    {
      PricedCall(pending, id);
      hide *;
      var rejection := AggregateRouteWindowPrices(id);
      if rejection.Some? {
        outcome := Rejected(rejection.value);
        NothingPerformed(old(pending), old(commits), outcome);
        return;
      }
      ghost var priced, held := pending, memory;
      ghost var first := if held.Fresh? then [priced] else [];
      outcome := FinishCalculation(id);
      EndOfFirst(old(pending), first, priced, outcome);
      ThenPerformed(old(pending), old(commits), first, priced, FromFreeze(priced, id, held), outcome);
    }

    /** `calculate_index_for_run` in a new session. */
    method CalculateIndexForRun(id: nat) returns (outcome: Outcome)
      requires saved == pending && memory == Forgotten && BasketsOk(pending)
      modifies this
      ensures Performed(old(pending), old(commits), CallFor(old(pending), id), outcome)
    {
      hide WithBasket, BasketOk, FromPrices, RoutesActive;
      if id !in pending.runs {
        return Rejected(NoSuchRun);
      }
      var run := pending.runs[id];
      if !Finished(run) {
        return Rejected(RunNotFinished);
      }
      FinishedCall(pending, id);
      WithBasketOk(pending, run.dataClass);
      hide *;
      var missing := EnsureMvpBasket(run.dataClass);
      if missing {
        outcome := Rejected(MissingRoutes);
        NothingPerformed(old(pending), old(commits), outcome);
        return;
      }
      ghost var next := pending;
      ghost var first := if run.dataClass in old(pending).baskets then [] else [next];
      outcome := PriceAndFinish(id);
      EndOfFirst(old(pending), first, next, outcome);
      ThenPerformed(old(pending), old(commits), first, next, FromPrices(next, id), outcome);
    }
  }

  lemma EndOfOne(before: Store, x: Store, outcome: Outcome)
    ensures End(before, Call([x], outcome)) == x
  {
  }

  lemma EndOfFirst(before: Store, first: seq<Store>, x: Store, outcome: Outcome)
    requires first == [x] || (first == [] && x == before)
    ensures End(before, Call(first, outcome)) == x
  {
  }
}
