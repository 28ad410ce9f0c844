/** Every run of the index engine: any sequence of finished collections, index calculations (each
    possibly killed after any of its commits), seedings and period refreshes. */
module IndexRuns {
  import opened Aggregates
  import opened Options
  import opened Domain
  import opened Calendar
  import opened Methodology
  import opened Periods
  import opened IndexModel
  import opened IndexBase
  import opened IndexView
  import opened IndexRecovery
  import opened IndexInvariant
  import Rounding

  // ---------------------------------------------------------------------------------------------
  // One call keeps the invariant at every commit

  ghost function WeekOf(db: Store, id: nat): PeriodKey
    requires id in db.runs
  {
    KeyFor(db.runs[id].dataClass, db.runs[id].date, WEEKLY)
  }

  ghost function MonthOf(db: Store, id: nat): PeriodKey
    requires id in db.runs
  {
    KeyFor(db.runs[id].dataClass, db.runs[id].date, MONTHLY)
  }

  /** What is stale when a call has `left` of its commits still to make: nothing new before the daily row
      is committed, both periods of a new row right after, the month alone after the weekly refresh, and
      neither at the end. */
  ghost function StaleWith(outcome: Outcome, week: PeriodKey, month: PeriodKey, stale: set<PeriodKey>, left: int)
    : set<PeriodKey>
  {
    if outcome.Rejected? || left >= 3 then stale
    else if left == 2 then if outcome.created then stale + {week, month} else stale
    else if left == 1 then if outcome.created then (stale - {week}) + {month} else stale - {week}
    else stale - {week, month}
  }

  /** Every commit of a call keeps the invariant, with exactly that much stale. */
  ghost predicate CallKeeps(call: Call, week: PeriodKey, month: PeriodKey, stale: set<PeriodKey>) {
    && (call.outcome.Indexed? ==> |call.commits| >= 3)
    && forall i :: 0 <= i < |call.commits| ==>
         Inv(call.commits[i], StaleWith(call.outcome, week, month, stale, |call.commits| - 1 - i))
  }

  /** What is left stale after each of the two refresh commits. */
  lemma RefreshesKeepInv(db: Store, key: DayKey, stale: set<PeriodKey>)
    requires Inv(db, stale) && key in db.daily
    ensures var date := db.daily[key].date;
            var states := Refreshes(db, key.dataClass, date);
            var w, m := KeyFor(key.dataClass, date, WEEKLY), KeyFor(key.dataClass, date, MONTHLY);
            Inv(states[0], stale - {w}) && Inv(states[1], stale - {w} - {m})
  {
    var date := db.daily[key].date;
    var weekly := Refreshed(db, key.dataClass, date, WEEKLY);
    RefreshKeepsInv(db, key, WEEKLY, stale);
    RefreshKeepsInv(weekly, key, MONTHLY, stale - {KeyFor(key.dataClass, date, WEEKLY)});
    hide Inv, Recomputed, KeyFor;
  }

  lemma FreezeCallKeeps(db: Store, id: nat, memory: Memory, stale: set<PeriodKey>)
    requires Inv(db, stale) && Ready(db, id) && PricedState(db, id) && MemoryFits(db.prices, memory)
    ensures CallKeeps(FromFreeze(db, id, memory), WeekOf(db, id), MonthOf(db, id), stale)
  {
    var run, call := db.runs[id], FromFreeze(db, id, memory);
    if call.outcome.Indexed? {
      hide *;
      IndexedCallKeeps(db, id, memory, stale);
    } else {
      FreezeCases(db, id, memory);
      FreezeKeepsInv(db, run.dataClass, memory, stale);
      hide FromFreeze, Inv, Frozen, DailyFor, Ready, PricedState, MemoryFits, KeyFor;
      assert call.commits == [Frozen(db, run.dataClass, memory)];
    }
  }

  lemma WithDailyKeepsInv(db: Store, id: nat, memory: Memory, stale: set<PeriodKey>)
    requires Inv(db, stale) && Ready(db, id) && PricedState(db, id) && MemoryFits(db.prices, memory)
    requires FromFreeze(db, id, memory).outcome.Indexed?
    ensures Inv(WithDaily(db, id, memory),
                if KeyOfRun(db, id) in db.daily then stale else stale + {WeekOf(db, id), MonthOf(db, id)})
  {
    var run, key := db.runs[id], KeyOfRun(db, id);
    var frozen := Frozen(db, run.dataClass, memory);
    FreezeCases(db, id, memory);
    FrozenParts(db, run.dataClass, memory);
    FreezeKeepsInv(db, run.dataClass, memory, stale);
    if key !in db.daily {
      SettledState(db, id, memory, frozen);
      ReadyStays(db, id, frozen);
      DailyKeepsInv(frozen, id, memory, stale);
    }
    hide FromFreeze, Inv, Frozen, DailyFor, WithPrices, MemoryFits, KeyOfRun, KeyFor;
  }

  lemma StartOfRefreshes(db: Store, id: nat, memory: Memory, stale: set<PeriodKey>)
    requires Ready(db, id) && FromFreeze(db, id, memory).outcome.Indexed?
    requires Inv(WithDaily(db, id, memory), stale)
    ensures var start, key := WithDaily(db, id, memory), KeyOfRun(db, id);
            key in start.daily && start.daily[key].date == db.runs[id].date && key.dataClass == db.runs[id].dataClass
  {
    IndexedCommits(db, id, memory);
    WithDailyParts(db, id, memory);
    assert DailyOk(WithDaily(db, id, memory), KeyOfRun(db, id));
    hide FromFreeze, WithDaily, Refreshes, ViewAgrees, PricesOk, BasketsOk, Frozen;
  }

  lemma StaleSets(week: PeriodKey, month: PeriodKey, stale: set<PeriodKey>)
    requires week != month
    ensures (stale + {week, month}) - {week} == (stale - {week}) + {month}
    ensures (stale + {week, month}) - {week} - {month} == stale - {week, month}
    ensures stale - {week} - {month} == stale - {week, month}
  {
  }

  lemma CommitsKeep(call: Call, first: seq<Store>, start: Store, states: seq<Store>,
                    week: PeriodKey, month: PeriodKey, stale: set<PeriodKey>)
    requires call.outcome.Indexed? && |states| == 2 && call.commits == first + ([start] + states) && week != month
    requires |first| <= 1 && forall x :: x in first ==> Inv(x, stale)
    requires var s := if call.outcome.created then stale + {week, month} else stale;
             Inv(start, s) && Inv(states[0], s - {week}) && Inv(states[1], s - {week} - {month})
    ensures CallKeeps(call, week, month, stale)
  {
    StaleSets(week, month, stale);
    var n := |first|;
    assert call.commits[n] == start && call.commits[n + 1] == states[0] && call.commits[n + 2] == states[1];
    assert n == 1 ==> call.commits[0] == first[0] && first[0] in first;
    hide Inv;
  }

  lemma DifferentPeriods(db: Store, id: nat)
    requires id in db.runs
    ensures WeekOf(db, id) != MonthOf(db, id)
  {
    hide PeriodStart;
  }

  /** The two refreshes that follow the daily row of a run. */
  lemma RefreshesOfRun(db: Store, id: nat, memory: Memory, s: set<PeriodKey>)
    requires Ready(db, id) && FromFreeze(db, id, memory).outcome.Indexed?
    requires Inv(WithDaily(db, id, memory), s)
    ensures var states := Refreshes(WithDaily(db, id, memory), db.runs[id].dataClass, db.runs[id].date);
            && |states| == 2
            && Inv(states[0], s - {WeekOf(db, id)}) && Inv(states[1], s - {WeekOf(db, id)} - {MonthOf(db, id)})
  {
    assert id in db.runs;
    PeriodsOfRun(db, id);
    StartOfRefreshes(db, id, memory, s);
    RefreshesKeepInv(WithDaily(db, id, memory), KeyOfRun(db, id), s);
    assert |Refreshes(WithDaily(db, id, memory), db.runs[id].dataClass, db.runs[id].date)| == 2;
    hide *;
  }

  lemma IndexedCallKeeps(db: Store, id: nat, memory: Memory, stale: set<PeriodKey>)
    requires Inv(db, stale) && Ready(db, id) && PricedState(db, id) && MemoryFits(db.prices, memory)
    requires FromFreeze(db, id, memory).outcome.Indexed?
    ensures CallKeeps(FromFreeze(db, id, memory), WeekOf(db, id), MonthOf(db, id), stale)
  {
    assert id in db.runs && db.runs[id].dataClass in db.baskets;
    hide *;
    var run, key := db.runs[id], KeyOfRun(db, id);
    var call, start := FromFreeze(db, id, memory), WithDaily(db, id, memory);
    IndexedCommits(db, id, memory);
    WithDailyKeepsInv(db, id, memory, stale);
    FreezeKeepsInv(db, run.dataClass, memory, stale);
    DifferentPeriods(db, id);
    var s := if call.outcome.created then stale + {WeekOf(db, id), MonthOf(db, id)} else stale;
    RefreshesOfRun(db, id, memory, s);
    CommitsKeep(call, if key in db.daily then [] else [Frozen(db, run.dataClass, memory)], start,
                Refreshes(start, run.dataClass, run.date), WeekOf(db, id), MonthOf(db, id), stale);
  }

  lemma PeriodsOfRun(db: Store, id: nat)
    requires id in db.runs
    ensures WeekOf(db, id) == KeyFor(db.runs[id].dataClass, db.runs[id].date, WEEKLY)
    ensures MonthOf(db, id) == KeyFor(db.runs[id].dataClass, db.runs[id].date, MONTHLY)
  {
    hide KeyFor;
  }

  lemma PrependKeeps(first: Store, call: Call, week: PeriodKey, month: PeriodKey, stale: set<PeriodKey>)
    requires Inv(first, stale) && CallKeeps(call, week, month, stale)
    ensures CallKeeps(After([first], call), week, month, stale)
  {
    var all := After([first], call).commits;
    assert all[0] == first && forall i :: 0 < i < |all| ==> all[i] == call.commits[i - 1];
    hide Inv;
  }

  lemma PricedCallKeeps(db: Store, id: nat, stale: set<PeriodKey>)
    requires Inv(db, stale) && Ready(db, id)
    ensures CallKeeps(CallFor(db, id), WeekOf(db, id), MonthOf(db, id), stale)
  {
    PricedOutcome(db, id);
    if WithPrices(db, id).Ok? {
      var priced := WithPrices(db, id).value;
      PricesKeepInv(db, id, stale);
      if priced.memory.Fresh? {
        FreshCall(db, id);
        hide WithPrices, FromFreeze, Inv, MemoryFits, KeyFor, DayOf, OnDay, CallKeeps, CallFor;
        FreezeCallKeeps(priced.store, id, priced.memory, stale);
        PrependKeeps(priced.store, FromFreeze(priced.store, id, priced.memory), WeekOf(db, id), MonthOf(db, id), stale);
      } else {
        assert WithPrices(db, id) == Ok(Priced(db, Forgotten));
        ResumeWithoutDaily(db, id);
        hide WithPrices, FromFreeze, Inv, MemoryFits, KeyFor, DayOf, OnDay, CallKeeps, CallFor;
        FreezeCallKeeps(db, id, Forgotten, stale);
      }
    } else {
      assert CallFor(db, id).commits == [];
      hide WithPrices, CallFor, Inv;
    }
  }

  lemma PricedOutcome(db: Store, id: nat)
    requires Ready(db, id)
    ensures CallFor(db, id) == FromPrices(db, id)
    ensures WithPrices(db, id).Err? ==> CallFor(db, id).outcome == Rejected(WithPrices(db, id).error)
    ensures WithPrices(db, id).Ok? ==>
              var priced := WithPrices(db, id).value;
              && Ready(priced.store, id) && priced.store.baskets == db.baskets
              && priced.store.runs == db.runs && priced.store.daily == db.daily
              && CallFor(db, id).outcome == FromFreeze(priced.store, id, priced.memory).outcome
  {
    hide FromFreeze, OnDay, DayOf;
  }

  /** Index calculation keeps the invariant at every one of its commits, with exactly the periods stale
      whose refresh is still to come. */
  lemma CallKeepsInv(db: Store, id: nat, stale: set<PeriodKey>)
    requires Inv(db, stale) && id in db.runs
    ensures CallKeeps(CallFor(db, id), WeekOf(db, id), MonthOf(db, id), stale)
  {
    NoCommitsNoIndex(db, id);
    if CallFor(db, id).commits != [] {
      var dc := db.runs[id].dataClass;
      if dc in db.baskets {
        PricedCallKeeps(db, id, stale);
      } else {
        var next := WithBasket(db, dc);
        CreatesBasket(db, id);
        BasketKeepsInv(db, dc, stale);
        hide CallFor, Inv, KeyFor, WithBasket, CallKeeps;
        PricedCallKeeps(next, id, stale);
        PrependKeeps(next, CallFor(next, id), WeekOf(db, id), MonthOf(db, id), stale);
      }
    }
    hide CallFor, Inv, KeyFor, WithBasket;
  }

  lemma NoCommitsNoIndex(db: Store, id: nat)
    ensures CallFor(db, id).commits == [] ==> CallFor(db, id).outcome.Rejected?
  {
    hide WithPrices, Refreshes, DailyFor, Frozen, WithBasket, DayOf;
  }

  // ---------------------------------------------------------------------------------------------
  // Nothing recorded is ever rewritten

  ghost predicate DailyKept(before: Store, later: Store) {
    forall key :: key in before.daily ==> key in later.daily && later.daily[key] == before.daily[key]
  }

  /** Every finished run, price, daily index and base of `before` is in `later`, unchanged. */
  ghost predicate Extends(before: Store, later: Store) {
    && (forall dc :: dc in before.baskets ==>
          dc in later.baskets && BaseKept(before.baskets[dc].items, later.baskets[dc].items))
    && DailyKept(before, later)
    && before.prices <= later.prices
    && (forall id :: id in before.runs && Finished(before.runs[id]) ==>
          id in later.runs && later.runs[id] == before.runs[id])
  }

  lemma ExtendsTransitive(a: Store, b: Store, c: Store)
    requires Extends(a, b) && Extends(b, c)
    ensures Extends(a, c)
  {
  }

  lemma FrozenExtends(db: Store, dc: DataClass, memory: Memory, later: Store)
    requires dc in db.baskets && later.baskets == Frozen(db, dc, memory).baskets
    requires later.prices == db.prices && later.runs == db.runs
    requires DailyKept(db, later)
    ensures Extends(db, later)
  {
    FrozenKeepsBase(db, dc, memory);
    hide FrozenItems, Settled, Finished, BaseKept, DailyKept;
  }

  lemma WithDailyKeepsDaily(db: Store, id: nat, memory: Memory)
    requires Ready(db, id)
    ensures DailyKept(db, WithDaily(db, id, memory))
  {
    FrozenParts(db, db.runs[id].dataClass, memory);
    hide DailyFor, Frozen, DayOf;
  }

  lemma FreezeCommitsKeepDaily(db: Store, id: nat, memory: Memory, x: Store)
    requires Ready(db, id) && x in FromFreeze(db, id, memory).commits
    ensures DailyKept(db, x)
  {
    var run, start := db.runs[id], WithDaily(db, id, memory);
    FrozenParts(db, run.dataClass, memory);
    WithDailyKeepsDaily(db, id, memory);
    hide FromFreeze, Frozen, DailyFor, Refreshes, FromDaily, KeyOfRun, WithDaily;
    if FromFreeze(db, id, memory).outcome.Indexed? {
      IndexedCommits(db, id, memory);
      RefreshesKeep(start, run.dataClass, run.date);
    } else {
      FreezeCases(db, id, memory);
    }
  }

  lemma FreezeCommitsExtend(db: Store, id: nat, memory: Memory, x: Store)
    requires Ready(db, id) && x in FromFreeze(db, id, memory).commits
    ensures Extends(db, x)
  {
    FreezeCommitsKeepDaily(db, id, memory, x);
    EndKeepsBasket(db, id, memory);
    hide FromFreeze, Frozen, DailyKept;
    FrozenExtends(db, db.runs[id].dataClass, memory, x);
  }

  lemma SameBaskets(db: Store, later: Store)
    requires later.baskets == db.baskets && later.daily == db.daily && later.runs == db.runs
             && db.prices <= later.prices
    ensures Extends(db, later)
  {
  }

  lemma PricedCommitsExtend(db: Store, id: nat, x: Store)
    requires Ready(db, id) && x in CallFor(db, id).commits
    ensures Extends(db, x)
  {
    assert WithPrices(db, id).Err? ==> CallFor(db, id).commits == [];
    if WithPrices(db, id).value.memory.Fresh? {
      FreshCommitsExtend(db, id, x);
    } else {
      assert WithPrices(db, id) == Ok(Priced(db, Forgotten));
      ResumeWithoutDaily(db, id);
      FreezeCommitsExtend(db, id, Forgotten, x);
    }
    hide *;
  }

  lemma FreshCommitsExtend(db: Store, id: nat, x: Store)
    requires Ready(db, id) && WithPrices(db, id).Ok? && WithPrices(db, id).value.memory.Fresh?
    requires x in CallFor(db, id).commits
    ensures Extends(db, x)
  {
    var priced := WithPrices(db, id).value;
    FreshCall(db, id);
    FreshStore(db, id);
    hide FromFreeze, MemoryFits, DayOf, OnDay, Extends, CallFor, WithPrices, PricedState, NewPriceRows, Ready;
    SameBaskets(db, priced.store);
    if x != priced.store {
      FreezeCommitsExtend(priced.store, id, priced.memory, x);
      ExtendsTransitive(db, priced.store, x);
    }
  }

  lemma BasketExtends(db: Store, dc: DataClass)
    ensures Extends(db, WithBasket(db, dc))
  {
  }

  lemma CommitsExtend(db: Store, id: nat, x: Store)
    requires RunsOk(db) && x in CallFor(db, id).commits
    ensures Extends(db, x)
  {
    assert id in db.runs && Finished(db.runs[id]);
    var dc := db.runs[id].dataClass;
    hide CallFor, Extends, WithBasket;
    if dc in db.baskets {
      PricedCommitsExtend(db, id, x);
    } else {
      var next := WithBasket(db, dc);
      CreatesBasket(db, id);
      BasketExtends(db, dc);
      if x != next {
        PricedCommitsExtend(next, id, x);
        ExtendsTransitive(db, next, x);
      }
    }
  }

  // ---------------------------------------------------------------------------------------------
  // Operations and runs

  /** `cut` is the number of commits after which a calculation is killed; one with no more commits
      than that runs to its end. */
  datatype Op =
    | Collect(id: nat, run: CollectionRun)
    | Calculate(id: nat, cut: nat)
    | Seed(dataClass: DataClass, prices: seq<real>, day: int)
    | Refresh(key: DayKey, period: PeriodType)

  predicate Interrupted(db: Store, op: Op) {
    op.Calculate? && op.cut < |CallFor(db, op.id).commits|
  }

  /** The state after `cut` commits. */
  function AfterCommits(db: Store, call: Call, cut: nat): Store {
    if |call.commits| <= cut then End(db, call) else if cut == 0 then db else call.commits[cut - 1]
  }

  /** A finished run is never collected again, and stores only positive fares. */
  function Step(db: Store, op: Op): Store {
    match op
    case Collect(id, run) =>
      if (id in db.runs && Finished(db.runs[id])) || !PositiveFares(run.fares) then db
      else db.(runs := db.runs[id := run])
    case Calculate(id, cut) => AfterCommits(db, CallFor(db, id), cut)
    case Seed(dc, prices, day) =>
      if dc in db.baskets && Seeded(db.baskets[dc], prices, day).Ok?
      then db.(baskets := db.baskets[dc := Seeded(db.baskets[dc], prices, day).value])
      else db
    case Refresh(key, period) =>
      if key in db.daily then Refreshed(db, key.dataClass, db.daily[key].date, period) else db
  }

  /** Killing a calculation leaves stale what it had still to refresh; completing one, or refreshing, cures
      its periods. */
  ghost function StaleAfter(db: Store, op: Op, stale: set<PeriodKey>): set<PeriodKey> {
    match op
    case Collect(_, _) => stale
    case Calculate(id, cut) =>
      if id !in db.runs then stale
      else
        var call := CallFor(db, id);
        StaleWith(call.outcome, WeekOf(db, id), MonthOf(db, id), stale, |call.commits| - cut)
    case Seed(_, _, _) => stale
    case Refresh(key, period) =>
      if key in db.daily then stale - {KeyFor(key.dataClass, db.daily[key].date, period)} else stale
  }

  lemma CollectKeepsInv(db: Store, id: nat, run: CollectionRun, stale: set<PeriodKey>)
    requires Inv(db, stale) && !(id in db.runs && Finished(db.runs[id])) && PositiveFares(run.fares)
    ensures Inv(db.(runs := db.runs[id := run]), stale)
  {
    var next := db.(runs := db.runs[id := run]);
    CollectKeepsDaily(db, id, run);
    CollectKeepsPrices(db, id, run);
    CollectKeepsRuns(db, id, run);
    hide *;
    InvParts(db, stale);
    ViewIgnoresNewRun(db, stale, id, run);
    SameBasketsOk(db, next);
    InvParts(next, stale);
  }

  lemma SameBasketsOk(db: Store, next: Store)
    requires BasketsOk(db) && next.baskets == db.baskets
    ensures BasketsOk(next)
  {
    hide BasketOk;
  }

  lemma CollectKeepsDaily(db: Store, id: nat, run: CollectionRun)
    requires !(id in db.runs && Finished(db.runs[id])) && forall key :: key in db.daily ==> DailyOk(db, key)
    ensures forall key :: key in db.daily ==> db.daily[key].run != id && DailyOk(db.(runs := db.runs[id := run]), key)
  {
    forall key | key in db.daily
      ensures db.daily[key].run != id && DailyOk(db.(runs := db.runs[id := run]), key)
    {
      assert DailyOk(db, key);
    }
    hide EngineRow, Ordinal;
  }

  lemma CollectKeepsPrices(db: Store, id: nat, run: CollectionRun)
    requires PricesOk(db) && !(id in db.runs && Finished(db.runs[id]))
    ensures PricesOk(db.(runs := db.runs[id := run]))
  {
    var next := db.(runs := db.runs[id := run]);
    forall dc, day
      ensures DayOk(next, dc, day)
    {
      assert DayOk(db, dc, day);
    }
    hide UniqueRows, OnDay, RowOk, Ordinal;
  }

  lemma CollectKeepsRuns(db: Store, id: nat, run: CollectionRun)
    requires RunsOk(db) && PositiveFares(run.fares)
    ensures RunsOk(db.(runs := db.runs[id := run]))
  {
  }

  lemma SeededOk(basket: Basket, prices: seq<real>, day: int)
    requires BasketOk(basket) && Seeded(basket, prices, day).Ok?
    ensures BasketOk(Seeded(basket, prices, day).value)
    ensures BaseKept(basket.items, Seeded(basket, prices, day).value.items)
  {
    SeededKeepsBase(basket, prices, day);
    hide Rounding.HalfAway;
  }

  lemma SeedKeepsInv(db: Store, dc: DataClass, prices: seq<real>, day: int, stale: set<PeriodKey>)
    requires Inv(db, stale) && dc in db.baskets && Seeded(db.baskets[dc], prices, day).Ok?
    ensures Inv(db.(baskets := db.baskets[dc := Seeded(db.baskets[dc], prices, day).value]), stale)
  {
    var next := db.(baskets := db.baskets[dc := Seeded(db.baskets[dc], prices, day).value]);
    SeededOk(db.baskets[dc], prices, day);
    ViewIgnoresPrices(db, next, stale);
    OthersKeepInv(db, next);
    hide ViewAgrees, PricesOk, DailyOk, RunsOk, BasketOk, Seeded;
  }

  lemma CalculateKeepsInv(db: Store, id: nat, cut: nat, stale: set<PeriodKey>)
    requires Inv(db, stale)
    ensures Inv(Step(db, Calculate(id, cut)), StaleAfter(db, Calculate(id, cut), stale))
  {
    var call := CallFor(db, id);
    NoCommitsNoIndex(db, id);
    if id in db.runs {
      CallKeepsInv(db, id, stale);
      hide Inv, CallFor, WeekOf, MonthOf;
      if call.commits != [] && cut > 0 {
        var i := if cut >= |call.commits| then |call.commits| - 1 else cut - 1;
        assert Step(db, Calculate(id, cut)) == call.commits[i];
      } else {
        assert Step(db, Calculate(id, cut)) == db;
      }
    }
    hide Inv, KeyFor;
  }

  lemma StepKeepsInv(db: Store, op: Op, stale: set<PeriodKey>)
    requires Inv(db, stale)
    ensures Inv(Step(db, op), StaleAfter(db, op, stale))
  {
    match op {
      case Collect(id, run) =>
        if !(id in db.runs && Finished(db.runs[id])) && PositiveFares(run.fares) {
          CollectKeepsInv(db, id, run, stale);
        }
      case Calculate(id, cut) => CalculateKeepsInv(db, id, cut, stale);
      case Seed(dc, prices, day) =>
        if dc in db.baskets && Seeded(db.baskets[dc], prices, day).Ok? {
          SeedKeepsInv(db, dc, prices, day, stale);
        }
      case Refresh(key, period) =>
        if key in db.daily {
          RefreshKeepsInv(db, key, period, stale);
        }
    }
    hide Inv, CallFor, StaleWith, Seeded, Refreshed, AfterCommits, KeyFor;
  }

  lemma CollectExtends(db: Store, id: nat, run: CollectionRun)
    ensures Extends(db, Step(db, Collect(id, run)))
  {
  }

  lemma SeedExtends(db: Store, dc: DataClass, prices: seq<real>, day: int)
    requires BasketsOk(db) && dc in db.baskets && Seeded(db.baskets[dc], prices, day).Ok?
    ensures Extends(db, db.(baskets := db.baskets[dc := Seeded(db.baskets[dc], prices, day).value]))
  {
    SeededOk(db.baskets[dc], prices, day);
    hide Seeded;
  }

  lemma StepExtends(db: Store, op: Op, stale: set<PeriodKey>)
    requires Inv(db, stale)
    ensures Extends(db, Step(db, op))
  {
    SameBaskets(db, db);
    match op {
      case Collect(id, run) => CollectExtends(db, id, run);
      case Calculate(id, cut) =>
        var next := AfterCommits(db, CallFor(db, id), cut);
        if next != db {
          assert next in CallFor(db, id).commits;
          CommitsExtend(db, id, next);
        }
      case Seed(dc, prices, day) =>
        if dc in db.baskets && Seeded(db.baskets[dc], prices, day).Ok? {
          SeedExtends(db, dc, prices, day);
        }
      case Refresh(key, period) =>
        if key in db.daily {
          SameBaskets(db, Step(db, op));
        }
    }
    hide CallFor, Seeded, Recomputed, DailyOk, ViewAgrees, PricesOk, BasketOk, KeyFor, Extends;
  }

  function Run(db: Store, ops: seq<Op>): Store {
    if ops == [] then db else Step(Run(db, ops[..|ops| - 1]), ops[|ops| - 1])
  }

  ghost function StaleAfterRun(db: Store, ops: seq<Op>, stale: set<PeriodKey>): set<PeriodKey> {
    if ops == [] then stale
    else StaleAfter(Run(db, ops[..|ops| - 1]), ops[|ops| - 1], StaleAfterRun(db, ops[..|ops| - 1], stale))
  }

  function Empty(routes: set<Route>): Store {
    Store(routes, map[], map[], [], map[], map[])
  }

  // ---------------------------------------------------------------------------------------------
  // The main theorems

  /** The invariant holds after every run, and nothing recorded on the way is ever rewritten. */
  lemma {:induction false} RunKeepsInv(db: Store, ops: seq<Op>, stale: set<PeriodKey>)
    requires Inv(db, stale)
    ensures Inv(Run(db, ops), StaleAfterRun(db, ops, stale))
    ensures Extends(db, Run(db, ops))
  {
    hide Inv, Step, StaleAfter, Extends;
    if ops == [] {
      SameBaskets(db, db);
    } else {
      var head := ops[..|ops| - 1];
      RunKeepsInv(db, head, stale);
      StepKeepsInv(Run(db, head), ops[|ops| - 1], StaleAfterRun(db, head, stale));
      StepExtends(Run(db, head), ops[|ops| - 1], StaleAfterRun(db, head, stale));
      ExtendsTransitive(db, Run(db, head), Run(db, ops));
    }
  }

  lemma EmptyInv(routes: set<Route>)
    ensures Inv(Empty(routes), {})
  {
  }

  /** A stored period is what a recomputation from the daily indices in its bounds would store. */
  ghost predicate IsRecomputed(db: Store, pk: PeriodKey)
    requires pk in db.periods
  {
    exists date :: pk == KeyFor(pk.dataClass, date, pk.period)
                   && db.periods[pk] == Recomputed(db, pk.dataClass, date, pk.period)
  }

  /** The materialised view after any run from an empty database, in any date order: every period
      that is not stale equals its recomputation, and every daily index has both its periods stored
      unless they are stale. */
  lemma ViewAgreement(routes: set<Route>, ops: seq<Op>)
    ensures var db, stale := Run(Empty(routes), ops), StaleAfterRun(Empty(routes), ops, {});
            && (forall pk :: pk in db.periods && pk !in stale ==> IsRecomputed(db, pk))
            && (forall key, period :: key in db.daily && KeyFor(key.dataClass, db.daily[key].date, period) !in stale ==>
                  KeyFor(key.dataClass, db.daily[key].date, period) in db.periods)
  {
    EmptyInv(routes);
    RunKeepsInv(Empty(routes), ops, {});
    CurrentIsRecomputed(Run(Empty(routes), ops), StaleAfterRun(Empty(routes), ops, {}));
  }

  lemma CurrentIsRecomputed(db: Store, stale: set<PeriodKey>)
    requires ViewAgrees(db, stale)
    ensures forall pk :: pk in db.periods && pk !in stale ==> IsRecomputed(db, pk)
    ensures forall key, period :: key in db.daily && KeyFor(key.dataClass, db.daily[key].date, period) !in stale ==>
              KeyFor(key.dataClass, db.daily[key].date, period) in db.periods
  {
    hide Recomputed, Ordinal;
    forall pk | pk in db.periods && pk !in stale
      ensures IsRecomputed(db, pk)
    {
      assert Covered(db, pk);
      var key :| key in db.daily && pk == KeyFor(key.dataClass, db.daily[key].date, pk.period);
      assert Current(db, stale, key, pk.period);
    }
    forall key, period | key in db.daily && KeyFor(key.dataClass, db.daily[key].date, period) !in stale
      ensures KeyFor(key.dataClass, db.daily[key].date, period) in db.periods
    {
      assert Current(db, stale, key, period);
    }
  }

  ghost predicate NeverInterrupted(db: Store, ops: seq<Op>) {
    forall i :: 0 <= i < |ops| ==> !Interrupted(Run(db, ops[..i]), ops[i])
  }

  /** Only interrupted calculations leave a stale period. */
  lemma {:induction false} NothingStale(db: Store, ops: seq<Op>)
    requires NeverInterrupted(db, ops)
    ensures StaleAfterRun(db, ops, {}) == {}
  {
    if ops != [] {
      var head := ops[..|ops| - 1];
      forall i | 0 <= i < |head|
        ensures !Interrupted(Run(db, head[..i]), head[i])
      {
        assert head[..i] == ops[..i];
      }
      NothingStale(db, head);
      assert !Interrupted(Run(db, head), ops[|ops| - 1]);
    }
    hide Run, KeyFor, CallFor;
  }

  /** Completing the calculation of a run, however often it was killed before, leaves its week and
      month in agreement. */
  lemma CompletionCures(db: Store, id: nat, cut: nat, stale: set<PeriodKey>)
    requires Inv(db, stale) && CallFor(db, id).outcome.Indexed? && |CallFor(db, id).commits| <= cut
    ensures id in db.runs && ViewAgrees(Step(db, Calculate(id, cut)), stale - {WeekOf(db, id), MonthOf(db, id)})
  {
    CalculateKeepsInv(db, id, cut, stale);
    hide CallFor, ViewAgrees, KeyFor;
  }

  /** Why a call can be refused, in any reachable state: never because of what an earlier call left
      behind. */
  predicate Acceptable(db: Store, id: nat) {
    && id in db.runs && Finished(db.runs[id])
    && (db.runs[id].dataClass in db.baskets || RoutesActive(db))
    && |Versions(db.runs[id].fares)| <= 1
    && var rows := OnDay(db.prices, db.runs[id].dataClass, DayOf(db.runs[id]));
       rows == [] || rows[0].run == id
  }

  /** A call succeeds exactly when its run is finished, a basket exists or can be made, its fares
      share one version, and no other run has priced its date. */
  lemma CallSucceeds(db: Store, id: nat, stale: set<PeriodKey>)
    requires Inv(db, stale)
    ensures CallFor(db, id).outcome.Indexed? <==> Acceptable(db, id)
    ensures CallFor(db, id).outcome.Rejected? ==>
              CallFor(db, id).outcome.reason
              in {NoSuchRun, RunNotFinished, MissingRoutes, DateTaken, MixedCanonicalVersions}
  {
    if id in db.runs && Finished(db.runs[id]) {
      var dc := db.runs[id].dataClass;
      if dc in db.baskets {
        PricedCallSucceeds(db, id, stale);
      } else if RoutesActive(db) {
        var next := WithBasket(db, dc);
        BasketKeepsInv(db, dc, stale);
        assert CallFor(db, id) == After([next], FromPrices(next, id));
        PricedCallSucceeds(next, id, stale);
      }
    }
    hide FromPrices, Inv, OnDay, DayOf, NewBasket;
  }

  lemma PricedCallSucceeds(db: Store, id: nat, stale: set<PeriodKey>)
    requires Inv(db, stale) && Ready(db, id)
    ensures CallFor(db, id) == FromPrices(db, id)
    ensures CallFor(db, id).outcome.Indexed? <==> Acceptable(db, id)
    ensures CallFor(db, id).outcome.Rejected? ==> CallFor(db, id).outcome.reason in {DateTaken, MixedCanonicalVersions}
  {
    var run, key := db.runs[id], KeyOfRun(db, id);
    assert DayOk(db, run.dataClass, DayOf(run));
    assert key in db.daily ==> DailyOk(db, key);
    PricesFound(db, id, OnDay(db.prices, run.dataClass, DayOf(run)));
    PricedOutcome(db, id);
    if WithPrices(db, id).Ok? {
      var priced := WithPrices(db, id).value;
      hide CallFor, FromPrices, FromFreeze, OnDay, DayOf, WithPrices, ViewAgrees, PricesOk, BasketOk, EngineRow,
           Versions;
      FreezeSucceeds(priced.store, id, priced.memory);
    }
    hide CallFor, FromPrices, FromFreeze, OnDay, DayOf, WithPrices, ViewAgrees, PricesOk, BasketOk, EngineRow, Versions;
  }

  /** In a consistent state prices are missing, this run's, or another run's. */
  lemma PricesFound(db: Store, id: nat, rows: seq<PriceRow>)
    requires Ready(db, id) && BasketsOk(db) && DayOk(db, db.runs[id].dataClass, DayOf(db.runs[id]))
    requires rows == OnDay(db.prices, db.runs[id].dataClass, DayOf(db.runs[id]))
    ensures WithPrices(db, id).Err? <==> rows != [] && rows[0].run != id
    ensures WithPrices(db, id).Err? ==> WithPrices(db, id).error == DateTaken
    ensures WithPrices(db, id).Ok? ==> (WithPrices(db, id).value.memory.Fresh? <==> rows == [])
    ensures rows != [] && rows[0].run == id ==> WithPrices(db, id) == Ok(Priced(db, Forgotten))
  {
    assert BasketOk(db.baskets[db.runs[id].dataClass]);
    hide OnDay, DayOf, NewPriceRows, ItemOk;
  }

  lemma FreezeSucceeds(db: Store, id: nat, memory: Memory)
    requires Ready(db, id) && BasketOk(db.baskets[db.runs[id].dataClass])
    requires KeyOfRun(db, id) in db.daily ==>
               db.daily[KeyOfRun(db, id)].run == id && |Versions(db.runs[id].fares)| <= 1
    ensures var outcome := FromFreeze(db, id, memory).outcome;
            && (outcome.Indexed? <==> |Versions(db.runs[id].fares)| <= 1)
            && (outcome.Rejected? ==> outcome.reason == MixedCanonicalVersions)
  {
    var dc := db.runs[id].dataClass;
    var frozen := Frozen(db, dc, memory);
    FreezeCases(db, id, memory);
    FrozenParts(db, dc, memory);
    FrozenKeepsBase(db, dc, memory);
    DailyForInputs(frozen, id, memory);
    InputsHaveWeights(frozen.baskets[dc].items, OnDay(frozen.prices, dc, DayOf(db.runs[id])), memory);
    hide FromFreeze, Frozen, OnDay, DayOf, DailyFor, Versions, InputsFor;
  }

  lemma InputsHaveWeights(items: seq<BasketItem>, rows: seq<PriceRow>, memory: Memory)
    ensures var inputs := InputsFor(items, rows, memory);
            (inputs == [] <==> items == []) && forall k :: 0 <= k < |items| ==> inputs[k].weight == items[k].weight
  {
  }

  // ---------------------------------------------------------------------------------------------
  // Consequences for what is published

  lemma CreatedStatus(db: Store, id: nat, memory: Memory)
    requires Ready(db, id) && FromFreeze(db, id, memory).outcome.Indexed? && FromFreeze(db, id, memory).outcome.created
    requires Complete(db.baskets[db.runs[id].dataClass].items)
    ensures FromFreeze(db, id, memory).outcome.row.status != PROVISIONAL_BASE
  {
    var dc := db.runs[id].dataClass;
    var frozen := Frozen(db, dc, memory);
    FreezeCases(db, id, memory);
    FrozenParts(db, dc, memory);
    FrozenKeepsBase(db, dc, memory);
    CompleteIsStable(db.baskets[dc].items, frozen.baskets[dc].items);
    DailyForInputs(frozen, id, memory);
    hide FromFreeze, Frozen, OnDay, DayOf, DailyFor, Versions, InputsFor, Complete, Coverage, OnlyVersion;
  }

  /** Completeness is monotone: once every item of a class has its base, no index of that class
      created by any later call, after any operations, is provisional. */
  lemma NeverProvisionalAgain(db: Store, ops: seq<Op>, id: nat, stale: set<PeriodKey>)
    requires Inv(db, stale) && id in Run(db, ops).runs && Run(db, ops).runs[id].dataClass in db.baskets
    requires Complete(db.baskets[Run(db, ops).runs[id].dataClass].items)
    requires var outcome := CallFor(Run(db, ops), id).outcome; outcome.Indexed? && outcome.created
    ensures CallFor(Run(db, ops), id).outcome.row.status != PROVISIONAL_BASE
  {
    var later := Run(db, ops);
    var dc := later.runs[id].dataClass;
    RunKeepsInv(db, ops, stale);
    CompleteIsStable(db.baskets[dc].items, later.baskets[dc].items);
    CallSucceeds(later, id, StaleAfterRun(db, ops, stale));
    hide CallFor, Run, Complete, FromPrices, FromFreeze, StaleAfterRun, OnDay, DayOf, Versions;
    PricedOutcome(later, id);
    assert WithPrices(later, id).Ok?;
    CreatedStatus(WithPrices(later, id).value.store, id, WithPrices(later, id).value.memory);
  }

  lemma {:induction false} EveryDayPresent(daily: map<DayKey, DailyIndex>, dc: DataClass, lo: int, hi: int)
    requires |DaysBetween(daily, dc, lo, hi)| == hi - lo + 1
    ensures forall d :: lo <= d <= hi ==> DayKey(dc, d) in daily
    decreases hi - lo
  {
    if lo <= hi {
      InputsAreTheDays(daily, dc, lo, hi - 1);
      EveryDayPresent(daily, dc, lo, hi - 1);
    }
  }

  lemma {:induction false} RowsAreEngineRows(db: Store, dc: DataClass, lo: int, hi: int)
    requires forall key :: key in db.daily ==> EngineRow(db.daily[key])
    ensures EngineRows(RowsBetween(db.daily, dc, lo, hi))
    decreases hi - lo
  {
    if lo <= hi {
      RowsAreEngineRows(db, dc, lo, hi - 1);
    }
    hide EngineRow;
  }

  /** What a stored period's labels promise: its inputs are the stored days within its bounds, it
      warns of nothing exactly when it is COMPLETE with two sources, and HIGH confidence means every
      calendar day of it was published with enough coverage. */
  ghost predicate SoundLabels(db: Store, dc: DataClass, start: int, p: PeriodIndex) {
    && (forall d :: d in p.inputs <==> start <= d <= p.end && DayKey(dc, d) in db.daily)
    && p.metrics.observed == |p.inputs| <= p.metrics.expected == p.end - start + 1
    && (p.metrics.warnings == [] <==> p.metrics.status == COMPLETE && p.metrics.sources >= 2)
    && (p.metrics.confidence == HIGH ==> HighPeriod(db, dc, start, p))
  }

  ghost predicate HighPeriod(db: Store, dc: DataClass, start: int, p: PeriodIndex) {
    && p.metrics.sources >= 2 && p.metrics.averageCoverage >= 95 * ONE_PERCENT
    && forall d :: start <= d <= p.end ==> DayPublished(db, DayKey(dc, d))
  }

  /** The labels of every stored period that is not stale are sound. */
  lemma StoredLabels(db: Store, stale: set<PeriodKey>, pk: PeriodKey)
    requires Inv(db, stale) && pk in db.periods && pk !in stale
    ensures SoundLabels(db, pk.dataClass, pk.start, db.periods[pk])
  {
    CurrentIsRecomputed(db, stale);
    assert IsRecomputed(db, pk);
    DailyAreEngineRows(db, stale);
    hide Inv, Recomputed, PeriodStart, SoundLabels, EngineRow;
    var date :| pk == KeyFor(pk.dataClass, date, pk.period)
                && db.periods[pk] == Recomputed(db, pk.dataClass, date, pk.period);
    RecomputedLabels(db, pk.dataClass, date, pk.period);
  }

  lemma DailyAreEngineRows(db: Store, stale: set<PeriodKey>)
    requires Inv(db, stale)
    ensures forall key :: key in db.daily ==> EngineRow(db.daily[key])
  {
    hide ViewAgrees, PricesOk, BasketsOk, RunsOk, EngineRow;
    assert forall key :: key in db.daily ==> DailyOk(db, key);
  }

  ghost predicate DayPublished(db: Store, key: DayKey) {
    key in db.daily && IsPublished(db.daily[key]) && db.daily[key].coverage >= MINIMUM_COVERAGE
  }

  lemma RecomputedIs(db: Store, dc: DataClass, date: CalendarDate, period: PeriodType)
    ensures var lo, hi := PeriodStart(date, period), PeriodEnd(date, period);
            var rows := RowsBetween(db.daily, dc, lo, hi);
            Recomputed(db, dc, date, period)
              == PeriodIndex(hi, Metrics(rows, hi - lo + 1, |SourcesOf(rows, db.runs)|, MINIMUM_COVERAGE),
                             DaysBetween(db.daily, dc, lo, hi))
  {
    hide PeriodStart, PeriodEnd, RowsBetween, DaysBetween, SourcesOf, Metrics;
  }

  lemma RecomputedLabels(db: Store, dc: DataClass, date: CalendarDate, period: PeriodType)
    requires forall key :: key in db.daily ==> EngineRow(db.daily[key])
    ensures SoundLabels(db, dc, PeriodStart(date, period), Recomputed(db, dc, date, period))
  {
    hide *;
    var lo, hi := PeriodStart(date, period), PeriodEnd(date, period);
    OwnPeriod(date, period);
    RecomputedIs(db, dc, date, period);
    MetricsLabels(db, dc, lo, hi, |SourcesOf(RowsBetween(db.daily, dc, lo, hi), db.runs)|);
  }

  lemma MetricsLabels(db: Store, dc: DataClass, lo: int, hi: int, sources: nat)
    requires lo <= hi && forall key :: key in db.daily ==> EngineRow(db.daily[key])
    ensures var m := Metrics(RowsBetween(db.daily, dc, lo, hi), hi - lo + 1, sources, MINIMUM_COVERAGE);
            SoundLabels(db, dc, lo, PeriodIndex(hi, m, DaysBetween(db.daily, dc, lo, hi)))
  {
    var rows := RowsBetween(db.daily, dc, lo, hi);
    var m := Metrics(rows, hi - lo + 1, sources, MINIMUM_COVERAGE);
    hide *;
    InputFacts(db, dc, lo, hi);
    RowsAreEngineRows(db, dc, lo, hi);
    MetricsFields(rows, hi - lo + 1, sources);
    NoWarningsMeansComplete(rows, hi - lo + 1, sources);
    if m.confidence == HIGH {
      HighLabels(db, dc, lo, hi, sources);
    }
    CombineLabels(db, dc, lo, PeriodIndex(hi, m, DaysBetween(db.daily, dc, lo, hi)));
  }

  lemma CombineLabels(db: Store, dc: DataClass, start: int, p: PeriodIndex)
    requires forall d :: d in p.inputs <==> start <= d <= p.end && DayKey(dc, d) in db.daily
    requires p.metrics.observed == |p.inputs| <= p.metrics.expected == p.end - start + 1
    requires p.metrics.warnings == [] <==> p.metrics.status == COMPLETE && p.metrics.sources >= 2
    requires p.metrics.confidence == HIGH ==> HighPeriod(db, dc, start, p)
    ensures SoundLabels(db, dc, start, p)
  {
    hide HighPeriod;
  }

  lemma InputFacts(db: Store, dc: DataClass, lo: int, hi: int)
    requires lo <= hi
    ensures var days := DaysBetween(db.daily, dc, lo, hi);
            && (forall d :: d in days <==> lo <= d <= hi && DayKey(dc, d) in db.daily)
            && |RowsBetween(db.daily, dc, lo, hi)| == |days| <= hi - lo + 1
  {
    InputsAreTheDays(db.daily, dc, lo, hi);
    hide *;
  }

  lemma HighLabels(db: Store, dc: DataClass, lo: int, hi: int, sources: nat)
    requires lo <= hi && EngineRows(RowsBetween(db.daily, dc, lo, hi))
    requires |RowsBetween(db.daily, dc, lo, hi)| <= hi - lo + 1
    requires Metrics(RowsBetween(db.daily, dc, lo, hi), hi - lo + 1, sources, MINIMUM_COVERAGE).confidence == HIGH
    ensures var m := Metrics(RowsBetween(db.daily, dc, lo, hi), hi - lo + 1, sources, MINIMUM_COVERAGE);
            HighPeriod(db, dc, lo, PeriodIndex(hi, m, DaysBetween(db.daily, dc, lo, hi)))
  {
    var rows := RowsBetween(db.daily, dc, lo, hi);
    MetricsFields(rows, hi - lo + 1, sources);
    HighMeansTrustworthy(rows, hi - lo + 1, sources);
    HighDays(db, dc, lo, hi);
    hide EngineRow, EngineRows, RowsBetween, DaysBetween, Metrics, DayPublished, RoundedMean, Coverages;
  }

  lemma MetricsFields(rows: seq<DailyIndex>, expected: int, sources: nat)
    ensures var m := Metrics(rows, expected, sources, MINIMUM_COVERAGE);
            && m.observed == |rows| && m.expected == expected && m.sources == sources
            && (rows != [] ==> m.averageCoverage == RoundedMean(Coverages(rows)))
  {
    hide PublishedValues, CountLow, Coverages, Least, RoundedMean, WarningsFor;
  }

  lemma HighDays(db: Store, dc: DataClass, lo: int, hi: int)
    requires var rows := RowsBetween(db.daily, dc, lo, hi);
             && |rows| == hi - lo + 1
             && forall i :: 0 <= i < |rows| ==> IsPublished(rows[i]) && rows[i].coverage >= MINIMUM_COVERAGE
    ensures forall d :: lo <= d <= hi ==> DayPublished(db, DayKey(dc, d))
  {
    InputsAreTheDays(db.daily, dc, lo, hi);
    EveryDayPresent(db.daily, dc, lo, hi);
    var days, rows := DaysBetween(db.daily, dc, lo, hi), RowsBetween(db.daily, dc, lo, hi);
    hide RowsBetween, DaysBetween, IsPublished;
    forall d | lo <= d <= hi
      ensures DayPublished(db, DayKey(dc, d))
    {
      assert d in days;
      var i :| 0 <= i < |days| && days[i] == d;
      assert rows[i] == db.daily[DayKey(dc, d)];
    }
  }

  // ---------------------------------------------------------------------------------------------
  // Positivity

  lemma {:induction false} FoundPrice(prices: seq<PriceRow>, dc: DataClass, day: int, k: nat)
    ensures forall row :: row in OnDay(prices, dc, day) ==> row in prices && row.dataClass == dc && row.day == day
    ensures var found := FindPrice(OnDay(prices, dc, day), k);
            found.Some? ==> found.value in prices && found.value.item == k
                            && found.value.dataClass == dc && found.value.day == day
  {
    InOnDay(prices, dc, day);
    InFindPrice(OnDay(prices, dc, day), k);
  }

  lemma {:induction false} InOnDay(prices: seq<PriceRow>, dc: DataClass, day: int)
    ensures forall row :: row in OnDay(prices, dc, day) ==> row in prices && row.dataClass == dc && row.day == day
  {
    if prices != [] {
      InOnDay(prices[..|prices| - 1], dc, day);
    }
  }

  lemma {:induction false} InFindPrice(rows: seq<PriceRow>, k: nat)
    ensures FindPrice(rows, k).Some? ==> FindPrice(rows, k).value in rows && FindPrice(rows, k).value.item == k
  {
    if rows != [] {
      InFindPrice(rows[..|rows| - 1], k);
    }
  }

  /** Exact prices a session holds are those of a run with positive fares. */
  ghost predicate MemoryPositive(memory: Memory) {
    memory.Fresh? ==> forall k :: 0 <= k < |memory.exact| && memory.exact[k].Some? ==> memory.exact[k].value >= 1.0
  }

  lemma FreshPositive(db: Store, id: nat)
    requires Ready(db, id) && WithPrices(db, id).Ok?
    ensures MemoryPositive(WithPrices(db, id).value.memory)
  {
    var run, items := db.runs[id], db.baskets[db.runs[id].dataClass].items;
    forall k | 0 <= k < |items| && ExactPrice(run, items[k]).Some?
      ensures ExactPrice(run, items[k]).value >= 1.0
    {
      ExactPricePositive(run, items[k]);
    }
    hide ExactPrice, OnDay, DayOf, NewPriceRows;
  }

  /** A price relative is computed for every input that has both a price and a base and cannot raise,
      and the value is strictly positive whenever there is one. */
  ghost predicate SoundInputs(inputs: seq<Input>) {
    && PositiveWeights(inputs)
    && (forall k :: 0 <= k < |inputs| && inputs[k].current.Some? && inputs[k].base.Some? ==>
          Available(inputs[k])
          && PriceRelative(inputs[k].current.value, inputs[k].base.value) == Ok(Relative(inputs[k])))
    && (CalculatedValue(inputs).Some? ==> CalculatedValue(inputs).value > 0.0)
  }

  function InputsOfRun(db: Store, id: nat, memory: Memory): seq<Input>
    requires id in db.runs && db.runs[id].dataClass in db.baskets
  {
    var run := db.runs[id];
    InputsFor(db.baskets[run.dataClass].items, OnDay(db.prices, run.dataClass, DayOf(run)), memory)
  }

  /** In every reachable state each price and base the calculation reads is at least one paisa. */
  lemma IndexIsPositive(db: Store, id: nat, memory: Memory, stale: set<PeriodKey>)
    requires Inv(db, stale) && id in db.runs && db.runs[id].dataClass in db.baskets && MemoryPositive(memory)
    ensures SoundInputs(InputsOfRun(db, id, memory))
  {
    var run, dc := db.runs[id], db.runs[id].dataClass;
    var items, rows := db.baskets[dc].items, OnDay(db.prices, dc, DayOf(run));
    var inputs := InputsFor(items, rows, memory);
    assert BasketOk(db.baskets[dc]) && PricesOk(db);
    hide Inv, InputsFor, OnDay, FindPrice, DayOf, PricesOk, SoundInputs;
    forall k | 0 <= k < |inputs|
      ensures inputs[k].weight > 0.0
      ensures inputs[k].current.Some? ==> inputs[k].current.value >= 1.0
      ensures inputs[k].base.Some? ==> inputs[k].base.value > 0.0
    {
      InputPositive(db.prices, dc, DayOf(run), items[k], k, memory);
      assert ItemOk(items[k], db.baskets[dc].policy);
    }
    assert InputsOfRun(db, id, memory) == inputs;
    hide *;
    PositiveInputs(inputs);
  }

  /** The inputs a call computes its daily index from: those of the frozen basket. */
  lemma CallIsPositive(db: Store, id: nat, stale: set<PeriodKey>)
    requires Inv(db, stale) && Ready(db, id) && WithPrices(db, id).Ok?
    ensures var priced := WithPrices(db, id).value;
            && id in priced.store.runs && priced.store.runs == db.runs && db.runs[id].dataClass in priced.store.baskets
            && var frozen := Frozen(priced.store, db.runs[id].dataClass, priced.memory);
            && frozen.runs == db.runs && db.runs[id].dataClass in frozen.baskets
            && SoundInputs(InputsOfRun(frozen, id, priced.memory))
  {
    var dc, priced := db.runs[id].dataClass, WithPrices(db, id).value;
    PricedOutcome(db, id);
    PricesKeepInv(db, id, stale);
    FreshPositive(db, id);
    MemoryAfterPrices(db, id);
    hide *;
    FrozenParts(priced.store, dc, priced.memory);
    FreezeKeepsInv(priced.store, dc, priced.memory, stale);
    IndexIsPositive(Frozen(priced.store, dc, priced.memory), id, priced.memory, stale);
  }

  lemma MemoryAfterPrices(db: Store, id: nat)
    requires Ready(db, id) && WithPrices(db, id).Ok?
    ensures MemoryFits(WithPrices(db, id).value.store.prices, WithPrices(db, id).value.memory)
    ensures WithPrices(db, id).value.store.runs == db.runs && id in db.runs
    ensures db.runs[id].dataClass in WithPrices(db, id).value.store.baskets
  {
    if WithPrices(db, id).value.memory.Fresh? {
      FreshCall(db, id);
    }
    hide OnDay, DayOf, NewPriceRows, ExactPrices;
  }

  lemma InputPositive(prices: seq<PriceRow>, dc: DataClass, day: int, item: BasketItem, k: nat, memory: Memory)
    requires MemoryPositive(memory) && forall i :: 0 <= i < |prices| ==> RowOk(prices[i])
    ensures var current := InputFor(item, k, OnDay(prices, dc, day), memory).current;
            current.Some? ==> current.value >= 1.0
  {
    FoundPrice(prices, dc, day, k);
    hide OnDay, FindPrice;
  }

  lemma PositiveInputs(inputs: seq<Input>)
    requires forall k :: 0 <= k < |inputs| ==>
               && inputs[k].weight > 0.0
               && (inputs[k].current.Some? ==> inputs[k].current.value >= 1.0)
               && (inputs[k].base.Some? ==> inputs[k].base.value > 0.0)
    ensures SoundInputs(inputs)
  {
    ValueIsPositive(inputs);
    hide CalculatedValue, Relative;
  }

  // ---------------------------------------------------------------------------------------------
  // A row, once calculated, is found for ever

  lemma UnpricedUnindexed(db: Store, id: nat, stale: set<PeriodKey>)
    requires Inv(db, stale) && id in db.runs
    requires OnDay(db.prices, db.runs[id].dataClass, DayOf(db.runs[id])) == []
    ensures KeyOfRun(db, id) !in db.daily
  {
    assert KeyOfRun(db, id) in db.daily ==> DailyOk(db, KeyOfRun(db, id));
    hide OnDay, ViewAgrees, PricesOk, BasketsOk, EngineRow;
  }

  lemma {:induction false} OnDayKept(before: seq<PriceRow>, later: seq<PriceRow>, dc: DataClass, day: int)
    requires before <= later && OnDay(before, dc, day) != []
    ensures OnDay(later, dc, day) != [] && OnDay(later, dc, day)[0] == OnDay(before, dc, day)[0]
    decreases |later|
  {
    if |before| == |later| {
      assert before == later;
    } else {
      OnDayKept(before, later[..|later| - 1], dc, day);
    }
  }

  lemma FoundRow(db: Store, id: nat)
    requires Ready(db, id) && CallFor(db, id).outcome.Indexed? && KeyOfRun(db, id) in db.daily
    ensures CallFor(db, id).outcome == Indexed(db.daily[KeyOfRun(db, id)], false)
  {
    PricedOutcome(db, id);
    assert WithPrices(db, id).Ok?;
    var priced := WithPrices(db, id).value;
    hide WithPrices, FromFreeze, CallFor, KeyOfRun, DayOf, Finished, PositiveFares;
    ReadyStays(db, id, priced.store);
    FreezeCases(priced.store, id, priced.memory);
    hide Frozen, DailyFor, FromDaily, Refreshes, Concluded;
  }

  lemma ReturnedRow(db: Store, id: nat)
    requires Ready(db, id) && CallFor(db, id).outcome.Indexed? && !CallFor(db, id).outcome.created
    ensures KeyOfRun(db, id) in db.daily && db.daily[KeyOfRun(db, id)] == CallFor(db, id).outcome.row
  {
    PricedOutcome(db, id);
    assert WithPrices(db, id).Ok?;
    var priced := WithPrices(db, id).value;
    hide WithPrices, FromFreeze, CallFor, KeyOfRun, DayOf, Finished, PositiveFares;
    ReadyStays(db, id, priced.store);
    FreezeCases(priced.store, id, priced.memory);
    hide Frozen, DailyFor, FromDaily, Refreshes, Concluded;
  }

  /** What a state keeps of an earlier one in which the run had its row. */
  lemma StaysAcceptable(before: Store, later: Store, id: nat, stale: set<PeriodKey>)
    requires Inv(before, stale) && Extends(before, later) && Acceptable(before, id)
    requires before.runs[id].dataClass in before.baskets && KeyOfRun(before, id) in before.daily
    ensures Acceptable(later, id) && later.runs[id] == before.runs[id] && later.runs[id].dataClass in later.baskets
    ensures KeyOfRun(later, id) == KeyOfRun(before, id) && KeyOfRun(later, id) in later.daily
    ensures later.daily[KeyOfRun(later, id)] == before.daily[KeyOfRun(before, id)]
  {
    if OnDay(before.prices, before.runs[id].dataClass, DayOf(before.runs[id])) == [] {
      UnpricedUnindexed(before, id, stale);
      assert false;
    }
    OnDayKept(before.prices, later.prices, before.runs[id].dataClass, DayOf(before.runs[id]));
    hide Inv, OnDay, DayOf, Versions, Finished, BaseKept;
  }

  lemma EndOfCall(db: Store, id: nat, stale: set<PeriodKey>) returns (later: set<PeriodKey>)
    requires Inv(db, stale) && CallFor(db, id).outcome.Indexed?
    ensures id in db.runs && Finished(db.runs[id]) && PositiveFares(db.runs[id].fares)
    ensures Inv(EndState(db, id), later) && Extends(db, EndState(db, id))
  {
    var call := CallFor(db, id);
    NoCommitsNoIndex(db, id);
    assert RunsOk(db) && id in db.runs && Finished(db.runs[id]);
    later := StaleAfter(db, Calculate(id, |call.commits|), stale);
    CalculateKeepsInv(db, id, |call.commits|, stale);
    assert Step(db, Calculate(id, |call.commits|)) == EndState(db, id);
    assert EndState(db, id) in call.commits;
    CommitsExtend(db, id, EndState(db, id));
    hide *;
  }

  lemma FinishedKept(before: Store, later: Store, id: nat)
    requires Extends(before, later) && id in before.runs && Finished(before.runs[id])
    requires PositiveFares(before.runs[id].fares)
    ensures id in later.runs && later.runs[id] == before.runs[id] && PositiveFares(later.runs[id].fares)
  {
  }

  lemma AcceptableReady(db: Store, id: nat, stale: set<PeriodKey>)
    requires Inv(db, stale) && Acceptable(db, id) && db.runs[id].dataClass in db.baskets
    ensures Ready(db, id)
  {
    hide BasketsOk, PricesOk, DailyOk, ViewAgrees, OnDay, DayOf, Versions;
  }

  lemma ExtendsBasket(before: Store, later: Store, dc: DataClass)
    requires Extends(before, later) && dc in before.baskets
    ensures dc in later.baskets
  {
  }

  lemma LastCommit(db: Store, id: nat)
    requires CallFor(db, id).commits != []
    ensures EndState(db, id) in CallFor(db, id).commits
  {
    hide CallFor;
  }

  lemma EndHasBasket(db: Store, id: nat)
    requires RunsOk(db) && id in db.runs && PositiveFares(db.runs[id].fares) && CallFor(db, id).outcome.Indexed?
    ensures db.runs[id].dataClass in EndState(db, id).baskets
  {
    var dc := db.runs[id].dataClass;
    NoCommitsNoIndex(db, id);
    assert dc in WithBasket(db, dc).baskets && RunsOk(WithBasket(db, dc));
    hide *;
    if dc in db.baskets {
      LastCommit(db, id);
      CommitsExtend(db, id, EndState(db, id));
      ExtendsBasket(db, EndState(db, id), dc);
    } else {
      var next := WithBasket(db, dc);
      CreatesBasket(db, id);
      SameOutcome(next, CallFor(next, id));
      NoCommitsNoIndex(next, id);
      LastCommit(next, id);
      CommitsExtend(next, id, EndState(next, id));
      ExtendsBasket(next, EndState(next, id), dc);
    }
  }

  lemma SameOutcome(first: Store, call: Call)
    ensures After([first], call).outcome == call.outcome
  {
  }

  lemma ReadyIs(db: Store, id: nat)
    requires id in db.runs && PositiveFares(db.runs[id].fares) && Finished(db.runs[id])
    requires db.runs[id].dataClass in db.baskets
    ensures Ready(db, id)
  {
    hide PositiveFares, Finished;
  }

  /** Once a call has indexed its run, every later call returns the very same row with `created=False`,
      whatever operations come in between. */
  lemma RowIsFinal(db: Store, id: nat, ops: seq<Op>, stale: set<PeriodKey>)
    requires Inv(db, stale) && CallFor(db, id).outcome.Indexed?
    ensures CallFor(Run(EndState(db, id), ops), id).outcome == Indexed(CallFor(db, id).outcome.row, false)
  {
    hide *;
    var x := EndState(db, id);
    var later := Run(x, ops);
    var s := EndOfCall(db, id, stale);
    FinishedKept(db, x, id);
    LaterCallsFindTheRow(db, id);
    InvParts(db, stale);
    EndHasBasket(db, id);
    ReadyIs(x, id);
    ReturnedRow(x, id);
    CallSucceeds(x, id, s);
    RunKeepsInv(x, ops, s);
    StaysAcceptable(x, later, id, s);
    AcceptableReady(later, id, StaleAfterRun(x, ops, s));
    CallSucceeds(later, id, StaleAfterRun(x, ops, s));
    FoundRow(later, id);
  }
}
