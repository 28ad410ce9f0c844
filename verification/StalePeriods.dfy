/** What a killed calculation leaves stale is really out of date: its week or month is missing, or is not
    what a recomputation would store. */
module StalePeriods {
  import opened Options
  import opened Domain
  import opened Calendar
  import opened Periods
  import opened IndexModel
  import opened IndexBase
  import opened IndexView
  import opened IndexRecovery
  import opened IndexInvariant
  import opened IndexRuns

  // ---------------------------------------------------------------------------------------------
  // A period that misses a day

  ghost predicate AddsDay(db: Store, later: Store, key: DayKey) {
    && later.runs == db.runs && later.periods == db.periods
    && key !in db.daily && later.daily.Keys == db.daily.Keys + {key}
  }

  ghost predicate OutOfDate(db: Store, pk: PeriodKey) {
    pk !in db.periods || !IsRecomputed(db, pk)
  }

  lemma RecomputedInputs(db: Store, pk: PeriodKey, day: CalendarDate)
    requires pk in db.periods && IsRecomputed(db, pk) && PeriodStart(day, pk.period) == pk.start
    ensures Ordinal(day) in db.periods[pk].inputs <==> DayKey(pk.dataClass, Ordinal(day)) in db.daily
  {
    var date: CalendarDate :| pk == KeyFor(pk.dataClass, date, pk.period)
                              && db.periods[pk] == Recomputed(db, pk.dataClass, date, pk.period);
    var lo, hi := PeriodStart(date, pk.period), PeriodEnd(date, pk.period);
    assert db.periods[pk].inputs == DaysBetween(db.daily, pk.dataClass, lo, hi);
    InputsAreTheDays(db.daily, pk.dataClass, lo, hi);
    PeriodsPartition(date, day, pk.period);
    hide PeriodStart, PeriodEnd, Ordinal, Metrics, RowsBetween, DaysBetween, SourcesOf;
  }

  /** A period that agreed before a day was added to it does not agree after. */
  lemma MissesTheDay(db: Store, later: Store, pk: PeriodKey, day: CalendarDate, stale: set<PeriodKey>)
    requires ViewAgrees(db, stale) && pk !in stale && PeriodStart(day, pk.period) == pk.start
    requires AddsDay(db, later, DayKey(pk.dataClass, Ordinal(day)))
    ensures OutOfDate(later, pk)
  {
    CurrentIsRecomputed(db, stale);
    hide PeriodStart, Ordinal, IsRecomputed, ViewAgrees;
    if pk in later.periods && IsRecomputed(later, pk) {
      RecomputedInputs(db, pk, day);
      RecomputedInputs(later, pk, day);
    }
  }

  // ---------------------------------------------------------------------------------------------
  // The last commits of a call that creates a daily row

  ghost predicate Creates(call: Call) {
    call.outcome.Indexed? && call.outcome.created
  }

  /** The call adds the day of its run in `start` and then refreshes its two periods. */
  ghost predicate EndsWith(call: Call, db: Store, id: nat, start: Store)
    requires id in db.runs
  {
    var n, run := |call.commits|, db.runs[id];
    && n >= 3 && call.commits[n - 3] == start
    && call.commits[n - 2] == Refreshed(start, run.dataClass, run.date, WEEKLY)
    && AddsDay(db, start, KeyOfRun(db, id))
  }

  lemma WithDailyAddsDay(db: Store, id: nat, memory: Memory)
    requires Ready(db, id) && Creates(FromFreeze(db, id, memory))
    ensures AddsDay(db, WithDaily(db, id, memory), KeyOfRun(db, id))
  {
    CreatedDaily(db, id, memory);
    IndexedCommits(db, id, memory);
    FrozenParts(db, db.runs[id].dataClass, memory);
    hide FromFreeze, Frozen, DailyFor, KeyOfRun, Refreshes;
  }

  lemma RefreshesAre(db: Store, dc: DataClass, date: CalendarDate)
    ensures |Refreshes(db, dc, date)| == 2 && Refreshes(db, dc, date)[0] == Refreshed(db, dc, date, WEEKLY)
  {
    hide Refreshed;
  }

  lemma FrozenEnds(db: Store, id: nat, memory: Memory)
    requires Ready(db, id) && Creates(FromFreeze(db, id, memory))
    ensures id in db.runs && EndsWith(FromFreeze(db, id, memory), db, id, WithDaily(db, id, memory))
  {
    var run, start := db.runs[id], WithDaily(db, id, memory);
    IndexedCommits(db, id, memory);
    WithDailyAddsDay(db, id, memory);
    RefreshesAre(start, run.dataClass, run.date);
    hide FromFreeze, WithDaily, Refreshes, Refreshed, KeyOfRun, AddsDay, Frozen;
  }

  lemma PrependEnds(first: Store, call: Call, db: Store, next: Store, id: nat, start: Store)
    requires id in db.runs && id in next.runs && EndsWith(call, next, id, start)
    requires next.runs == db.runs && next.daily == db.daily && next.periods == db.periods
    ensures EndsWith(After([first], call), db, id, start)
  {
    var all := After([first], call).commits;
    assert forall i :: 0 < i < |all| ==> all[i] == call.commits[i - 1];
    hide Refreshed;
  }

  lemma PricedStore(db: Store, id: nat)
    requires Ready(db, id) && WithPrices(db, id).Ok?
    ensures var next := WithPrices(db, id).value.store;
            next.runs == db.runs && next.daily == db.daily && next.periods == db.periods
  {
    hide OnDay, DayOf, NewPriceRows, ExactPrices;
  }

  lemma PricedEnds(db: Store, id: nat) returns (start: Store)
    requires Ready(db, id) && Creates(CallFor(db, id))
    ensures id in db.runs && EndsWith(CallFor(db, id), db, id, start)
  {
    PricedOutcome(db, id);
    assert WithPrices(db, id).Ok?;
    PricedStore(db, id);
    var priced := WithPrices(db, id).value;
    start := WithDaily(priced.store, id, priced.memory);
    if priced.memory.Fresh? {
      FreshCall(db, id);
      hide WithPrices, FromFreeze, CallFor, WithDaily, EndsWith, Finished, OnDay, MemoryFits;
      FrozenEnds(priced.store, id, priced.memory);
      PrependEnds(priced.store, FromFreeze(priced.store, id, priced.memory), db, priced.store, id, start);
    } else {
      PricesAlready(db, id);
      ResumeWithoutDaily(db, id);
      hide WithPrices, FromFreeze, CallFor, WithDaily, EndsWith, Finished;
      FrozenEnds(db, id, Forgotten);
    }
  }

  lemma CallEnds(db: Store, id: nat, stale: set<PeriodKey>) returns (start: Store)
    requires Inv(db, stale) && Creates(CallFor(db, id))
    ensures id in db.runs && EndsWith(CallFor(db, id), db, id, start)
  {
    NoCommitsNoIndex(db, id);
    assert RunsOk(db) && id in db.runs && Finished(db.runs[id]);
    var dc := db.runs[id].dataClass;
    if dc in db.baskets {
      hide CallFor, EndsWith, Inv;
      start := PricedEnds(db, id);
    } else {
      var next := WithBasket(db, dc);
      CreatesBasket(db, id);
      hide CallFor, EndsWith, Inv;
      start := PricedEnds(next, id);
      PrependEnds(next, CallFor(next, id), db, next, id, start);
    }
  }

  // ---------------------------------------------------------------------------------------------

  lemma StillOutOfDate(start: Store, dc: DataClass, date: CalendarDate, pk: PeriodKey, db: Store,
                       stale: set<PeriodKey>, day: CalendarDate)
    requires ViewAgrees(db, stale) && pk !in stale && PeriodStart(day, pk.period) == pk.start && pk.period == MONTHLY
    requires AddsDay(db, start, DayKey(pk.dataClass, Ordinal(day)))
    ensures OutOfDate(Refreshed(start, dc, date, WEEKLY), pk)
  {
    var x := Refreshed(start, dc, date, WEEKLY);
    CurrentIsRecomputed(db, stale);
    hide PeriodStart, Ordinal, IsRecomputed, ViewAgrees, Recomputed;
    if pk in x.periods && IsRecomputed(x, pk) {
      RecomputedInputs(db, pk, day);
      RecomputedInputs(x, pk, day);
    }
  }

  lemma PeriodKeysOfRun(db: Store, id: nat)
    requires id in db.runs
    ensures var run, week, month := db.runs[id], WeekOf(db, id), MonthOf(db, id);
            && week.dataClass == month.dataClass == run.dataClass && week.period == WEEKLY && month.period == MONTHLY
            && week.start == PeriodStart(run.date, WEEKLY) && month.start == PeriodStart(run.date, MONTHLY)
            && KeyOfRun(db, id) == DayKey(run.dataClass, Ordinal(run.date))
  {
    hide PeriodStart, Ordinal;
  }

  lemma KilledState(db: Store, id: nat, cut: nat, start: Store)
    requires id in db.runs && EndsWith(CallFor(db, id), db, id, start)
    requires 1 <= |CallFor(db, id).commits| - cut <= 2
    ensures var x, run := Step(db, Calculate(id, cut)), db.runs[id];
            && AddsDay(db, start, KeyOfRun(db, id))
            && x == (if |CallFor(db, id).commits| - cut == 2 then start
                     else Refreshed(start, run.dataClass, run.date, WEEKLY))
            && x.runs == db.runs && x.daily == start.daily && KeyOfRun(db, id) in x.daily
  {
    hide CallFor, KeyOfRun, Recomputed;
  }

  lemma StaleAfterCall(db: Store, id: nat, cut: nat, stale: set<PeriodKey>, pk: PeriodKey)
    requires pk in StaleAfter(db, Calculate(id, cut), stale) && pk !in stale
    ensures id in db.runs && Creates(CallFor(db, id)) && 1 <= |CallFor(db, id).commits| - cut <= 2
    ensures pk == MonthOf(db, id) || (|CallFor(db, id).commits| - cut == 2 && pk == WeekOf(db, id))
  {
    hide CallFor, WeekOf, MonthOf;
  }

  /** Every period that killing a calculation makes stale is out of date in the state it leaves behind. */
  lemma KilledIsOutOfDate(db: Store, id: nat, cut: nat, stale: set<PeriodKey>, pk: PeriodKey)
    requires Inv(db, stale) && pk in StaleAfter(db, Calculate(id, cut), stale) && pk !in stale
    ensures OutOfDate(Step(db, Calculate(id, cut)), pk)
    ensures id in db.runs && KeyOfRun(db, id) in Step(db, Calculate(id, cut)).daily
  {
    hide *;
    InvParts(db, stale);
    StaleAfterCall(db, id, cut, stale, pk);
    PeriodKeysOfRun(db, id);
    var run := db.runs[id];
    var start := CallEnds(db, id, stale);
    KilledState(db, id, cut, start);
    if |CallFor(db, id).commits| - cut == 2 {
      MissesTheDay(db, start, pk, run.date, stale);
    } else {
      StillOutOfDate(start, run.dataClass, run.date, pk, db, stale, run.date);
    }
  }

  // ---------------------------------------------------------------------------------------------
  // Over whole runs

  /** The stored row of the period, if there is one, lacks the day `key` of it. */
  ghost predicate Lacks(db: Store, pk: PeriodKey, key: DayKey)
    requires key in db.daily
  {
    && pk == KeyFor(key.dataClass, db.daily[key].date, pk.period)
    && (pk in db.periods ==> key.day !in db.periods[pk].inputs)
  }

  ghost predicate Missed(db: Store, pk: PeriodKey) {
    exists key :: key in db.daily && Lacks(db, pk, key)
  }

  lemma MissedIsOutOfDate(db: Store, pk: PeriodKey)
    requires WellDated(db) && Missed(db, pk)
    ensures Covered(db, pk) && OutOfDate(db, pk)
  {
    var key :| key in db.daily && Lacks(db, pk, key);
    hide PeriodStart, Ordinal, IsRecomputed;
    if pk in db.periods && IsRecomputed(db, pk) {
      RecomputedInputs(db, pk, db.daily[key].date);
    }
  }

  ghost predicate SamePeriod(db: Store, later: Store, pk: PeriodKey) {
    pk in later.periods ==> pk in db.periods && later.periods[pk] == db.periods[pk]
  }

  /** What lacks a day lacks it until the period is stored again. */
  lemma MissedStays(db: Store, later: Store, pk: PeriodKey)
    requires Missed(db, pk) && DailyKept(db, later) && SamePeriod(db, later, pk)
    ensures Missed(later, pk)
  {
    var key :| key in db.daily && Lacks(db, pk, key);
    assert Lacks(later, pk, key);
  }

  /** Each commit stores no period but those of the run, and the week only from its second to last on. */
  ghost predicate StoresOnly(db: Store, x: Store, week: PeriodKey, month: PeriodKey, left: int) {
    forall pk :: (pk == week ==> left >= 2) && (pk == month ==> left >= 1) ==> SamePeriod(db, x, pk)
  }

  ghost predicate CallStoresOnly(db: Store, call: Call, week: PeriodKey, month: PeriodKey) {
    && (call.outcome.Rejected? ==>
          forall i :: 0 <= i < |call.commits| ==> call.commits[i].periods == db.periods)
    && (call.outcome.Indexed? ==>
          forall i :: 0 <= i < |call.commits| ==>
            StoresOnly(db, call.commits[i], week, month, |call.commits| - 1 - i))
  }

  lemma RefreshesStore(db: Store, id: nat, start: Store)
    requires id in db.runs && start.periods == db.periods
    ensures var states := Refreshes(start, db.runs[id].dataClass, db.runs[id].date);
            && |states| == 2 && StoresOnly(db, start, WeekOf(db, id), MonthOf(db, id), 2)
            && StoresOnly(db, states[0], WeekOf(db, id), MonthOf(db, id), 1)
            && StoresOnly(db, states[1], WeekOf(db, id), MonthOf(db, id), 0)
  {
    hide Recomputed, PeriodStart;
  }

  lemma FrozenStores(db: Store, id: nat, memory: Memory)
    requires Ready(db, id)
    ensures id in db.runs && CallStoresOnly(db, FromFreeze(db, id, memory), WeekOf(db, id), MonthOf(db, id))
  {
    var run, call := db.runs[id], FromFreeze(db, id, memory);
    var frozen := Frozen(db, run.dataClass, memory);
    FrozenParts(db, run.dataClass, memory);
    if call.outcome.Indexed? {
      var start := WithDaily(db, id, memory);
      IndexedCommits(db, id, memory);
      WithDailyPeriods(db, id, memory);
      RefreshesStore(db, id, start);
      hide FromFreeze, WithDaily, Refreshes, StoresOnly, WeekOf, MonthOf, KeyOfRun, Frozen;
      FrozenOnly(db, frozen, WeekOf(db, id), MonthOf(db, id));
      StoresInOrder(db, call, if KeyOfRun(db, id) in db.daily then [] else [frozen], start,
                    Refreshes(start, run.dataClass, run.date), WeekOf(db, id), MonthOf(db, id));
    } else {
      RejectedCommits(db, id, memory);
      hide FromFreeze, Frozen;
    }
  }

  lemma WithDailyPeriods(db: Store, id: nat, memory: Memory)
    requires Ready(db, id)
    ensures WithDaily(db, id, memory).periods == db.periods
  {
    FrozenParts(db, db.runs[id].dataClass, memory);
    hide DailyFor, Frozen, DayOf;
  }

  lemma FrozenOnly(db: Store, x: Store, week: PeriodKey, month: PeriodKey)
    requires x.periods == db.periods
    ensures forall left :: StoresOnly(db, x, week, month, left)
  {
  }

  lemma StoresInOrder(db: Store, call: Call, first: seq<Store>, start: Store, states: seq<Store>, week: PeriodKey,
                      month: PeriodKey)
    requires call.outcome.Indexed? && call.commits == first + ([start] + states) && |first| <= 1 && |states| == 2
    requires forall x, left :: x in first ==> StoresOnly(db, x, week, month, left)
    requires StoresOnly(db, start, week, month, 2)
    requires StoresOnly(db, states[0], week, month, 1) && StoresOnly(db, states[1], week, month, 0)
    ensures CallStoresOnly(db, call, week, month)
  {
    var n := |first|;
    assert call.commits[n] == start && call.commits[n + 1] == states[0] && call.commits[n + 2] == states[1];
    assert n == 1 ==> call.commits[0] == first[0] && first[0] in first;
    hide StoresOnly;
  }

  lemma PrependStores(first: Store, call: Call, db: Store, week: PeriodKey, month: PeriodKey)
    requires first.periods == db.periods && CallStoresOnly(first, call, week, month)
    ensures CallStoresOnly(db, After([first], call), week, month)
  {
    var all := After([first], call);
    FrozenOnly(db, first, week, month);
    assert all.commits[0] == first;
    forall i | 0 < i < |all.commits|
      ensures all.commits[i] == call.commits[i - 1]
    {
    }
    if call.outcome.Indexed? {
      forall i | 0 <= i < |all.commits|
        ensures StoresOnly(db, all.commits[i], week, month, |all.commits| - 1 - i)
      {
        if i > 0 {
          assert StoresOnly(first, call.commits[i - 1], week, month, |call.commits| - 1 - (i - 1));
          SameStart(first, db, all.commits[i], week, month, |all.commits| - 1 - i);
        }
      }
    }
    hide StoresOnly;
  }

  lemma SameStart(first: Store, db: Store, x: Store, week: PeriodKey, month: PeriodKey, left: int)
    requires first.periods == db.periods && StoresOnly(first, x, week, month, left)
    ensures StoresOnly(db, x, week, month, left)
  {
    forall pk | (pk == week ==> left >= 2) && (pk == month ==> left >= 1)
      ensures SamePeriod(db, x, pk)
    {
      assert SamePeriod(first, x, pk);
    }
  }

  lemma SameKeys(db: Store, next: Store, id: nat)
    requires id in db.runs && next.runs == db.runs
    ensures WeekOf(next, id) == WeekOf(db, id) && MonthOf(next, id) == MonthOf(db, id)
  {
    hide PeriodStart;
  }

  lemma PricedStores(db: Store, id: nat)
    requires Ready(db, id)
    ensures id in db.runs && CallStoresOnly(db, CallFor(db, id), WeekOf(db, id), MonthOf(db, id))
  {
    PricedOutcome(db, id);
    if WithPrices(db, id).Ok? {
      PricedStore(db, id);
      var priced := WithPrices(db, id).value;
      if priced.memory.Fresh? {
        FreshCall(db, id);
        SameKeys(db, priced.store, id);
        hide WithPrices, FromFreeze, CallFor, CallStoresOnly, Finished, OnDay, MemoryFits, WeekOf, MonthOf;
        FrozenStores(priced.store, id, priced.memory);
        PrependStores(priced.store, FromFreeze(priced.store, id, priced.memory), db, WeekOf(db, id), MonthOf(db, id));
      } else {
        PricesAlready(db, id);
        ResumeWithoutDaily(db, id);
        hide WithPrices, FromFreeze, CallFor, CallStoresOnly, Finished, WeekOf, MonthOf;
        FrozenStores(db, id, Forgotten);
      }
    } else {
      assert CallFor(db, id).commits == [] && CallFor(db, id).outcome.Rejected?;
      hide WithPrices, CallFor, WeekOf, MonthOf, StoresOnly;
    }
  }

  lemma CallStores(db: Store, id: nat, stale: set<PeriodKey>)
    requires Inv(db, stale) && id in db.runs
    ensures CallStoresOnly(db, CallFor(db, id), WeekOf(db, id), MonthOf(db, id))
  {
    NoCommitsNoIndex(db, id);
    InvParts(db, stale);
    if CallFor(db, id).commits == [] {
      hide CallFor, Inv, WeekOf, MonthOf, StoresOnly;
    } else {
      assert Finished(db.runs[id]) && PositiveFares(db.runs[id].fares);
      var dc := db.runs[id].dataClass;
      if dc in db.baskets {
        hide CallFor, Inv, CallStoresOnly;
        PricedStores(db, id);
      } else {
        var next := WithBasket(db, dc);
        CreatesBasket(db, id);
        SameKeys(db, next, id);
        hide CallFor, Inv, CallStoresOnly, WeekOf, MonthOf;
        PricedStores(next, id);
        PrependStores(next, CallFor(next, id), db, WeekOf(db, id), MonthOf(db, id));
      }
    }
  }

  /** A period that is still stale after a step was not stored by it. */
  lemma StillStale(db: Store, op: Op, stale: set<PeriodKey>, pk: PeriodKey)
    requires Inv(db, stale) && pk in StaleAfter(db, op, stale)
    ensures SamePeriod(db, Step(db, op), pk)
  {
    match op {
      case Collect(_, _) =>
      case Seed(_, _, _) => hide Seeded;
      case Refresh(key, period) => hide Recomputed, PeriodStart;
      case Calculate(id, cut) =>
        if id in db.runs {
          CallStores(db, id, stale);
          CalculatedStale(db, id, cut, stale, pk);
        } else {
          assert Step(db, op) == db;
        }
        hide CallFor, CallStoresOnly, WeekOf, MonthOf, StaleWith, Inv;
    }
  }

  lemma CalculatedStale(db: Store, id: nat, cut: nat, stale: set<PeriodKey>, pk: PeriodKey)
    requires id in db.runs && CallStoresOnly(db, CallFor(db, id), WeekOf(db, id), MonthOf(db, id))
    requires pk in StaleAfter(db, Calculate(id, cut), stale)
    requires CallFor(db, id).commits == [] ==> CallFor(db, id).outcome.Rejected?
    ensures SamePeriod(db, Step(db, Calculate(id, cut)), pk)
  {
    var call, x := CallFor(db, id), Step(db, Calculate(id, cut));
    DifferentPeriods(db, id);
    hide CallFor, WeekOf, MonthOf;
    if cut > 0 && call.commits != [] {
      var i := if cut >= |call.commits| then |call.commits| - 1 else cut - 1;
      assert x == call.commits[i];
      if call.outcome.Indexed? {
        assert StoresOnly(db, x, WeekOf(db, id), MonthOf(db, id), |call.commits| - 1 - i);
      }
    }
  }

  lemma NewDayOf(x: Store, dc: DataClass, day: CalendarDate)
    requires WellDated(x) && DayKey(dc, Ordinal(day)) in x.daily
    ensures x.daily[DayKey(dc, Ordinal(day))].date == day
  {
    OrdinalInjective(x.daily[DayKey(dc, Ordinal(day))].date, day);
    hide Ordinal;
  }

  lemma LacksNewDay(db: Store, x: Store, pk: PeriodKey, day: CalendarDate, stale: set<PeriodKey>)
    requires ViewAgrees(db, stale) && pk !in stale && PeriodStart(day, pk.period) == pk.start
    requires WellDated(x) && SamePeriod(db, x, pk)
    requires DayKey(pk.dataClass, Ordinal(day)) !in db.daily && DayKey(pk.dataClass, Ordinal(day)) in x.daily
    ensures Missed(x, pk)
  {
    var key := DayKey(pk.dataClass, Ordinal(day));
    NewDayOf(x, pk.dataClass, day);
    CurrentIsRecomputed(db, stale);
    hide PeriodStart, Ordinal, IsRecomputed, ViewAgrees, WellDated;
    if pk in x.periods {
      RecomputedInputs(db, pk, day);
    }
    assert Lacks(x, pk, key);
  }

  lemma KeysAdded(db: Store, later: Store, key: DayKey)
    requires AddsDay(db, later, key)
    ensures key !in db.daily
  {
  }

  /** A period newly stale lacks the day the killed call has just stored. */
  lemma NewlyMissed(db: Store, id: nat, cut: nat, stale: set<PeriodKey>, pk: PeriodKey)
    requires Inv(db, stale) && pk in StaleAfter(db, Calculate(id, cut), stale) && pk !in stale
    requires WellDated(Step(db, Calculate(id, cut)))
    ensures Missed(Step(db, Calculate(id, cut)), pk)
  {
    hide *;
    StaleAfterCall(db, id, cut, stale, pk);
    StillStale(db, Calculate(id, cut), stale, pk);
    InvParts(db, stale);
    PeriodKeysOfRun(db, id);
    var start := CallEnds(db, id, stale);
    KilledState(db, id, cut, start);
    KeysAdded(db, start, KeyOfRun(db, id));
    LacksNewDay(db, Step(db, Calculate(id, cut)), pk, db.runs[id].date, stale);
  }

  lemma OthersAddNone(db: Store, op: Op, stale: set<PeriodKey>)
    requires !op.Calculate?
    ensures StaleAfter(db, op, stale) <= stale
  {
    hide KeyFor;
  }

  lemma ExtendsDaily(db: Store, later: Store)
    requires Extends(db, later)
    ensures DailyKept(db, later)
  {
    hide DailyKept, BaseKept;
  }

  lemma ViewDates(db: Store, stale: set<PeriodKey>)
    requires ViewAgrees(db, stale)
    ensures WellDated(db)
  {
    hide WellDated, Current, Covered;
  }

  lemma StepMissed(db: Store, op: Op, stale: set<PeriodKey>, pk: PeriodKey)
    requires Inv(db, stale) && pk in StaleAfter(db, op, stale) && (pk in stale ==> Missed(db, pk))
    ensures Missed(Step(db, op), pk)
  {
    hide *;
    if pk in stale {
      StepExtends(db, op, stale);
      ExtendsDaily(db, Step(db, op));
      StillStale(db, op, stale, pk);
      MissedStays(db, Step(db, op), pk);
    } else if op.Calculate? {
      StepKeepsInv(db, op, stale);
      InvParts(Step(db, op), StaleAfter(db, op, stale));
      ViewDates(Step(db, op), StaleAfter(db, op, stale));
      NewlyMissed(db, op.id, op.cut, stale, pk);
    } else {
      OthersAddNone(db, op, stale);
    }
  }

  lemma {:induction false} RunMissed(db: Store, ops: seq<Op>, pk: PeriodKey)
    requires Inv(db, {}) && pk in StaleAfterRun(db, ops, {})
    ensures Missed(Run(db, ops), pk)
    decreases |ops|
  {
    hide Inv, Step, StaleAfter, Missed;
    if ops != [] {
      var head, last := ops[..|ops| - 1], ops[|ops| - 1];
      if pk in StaleAfterRun(db, head, {}) {
        RunMissed(db, head, pk);
      }
      RunKeepsInv(db, head, {});
      StepMissed(Run(db, head), last, StaleAfterRun(db, head, {}), pk);
    }
  }

  lemma OutOfDateIsStale(db: Store, stale: set<PeriodKey>, pk: PeriodKey)
    requires ViewAgrees(db, stale) && Covered(db, pk) && OutOfDate(db, pk)
    ensures pk in stale
  {
    var key :| key in db.daily && pk == KeyFor(key.dataClass, db.daily[key].date, pk.period);
    assert Current(db, stale, key, pk.period);
    hide Recomputed, PeriodStart;
  }

  /** After any sequence of operations from an empty database the stale periods are exactly the periods of
      stored days that are missing or not what a recomputation would store. */
  lemma StaleIsOutOfDate(routes: set<Route>, ops: seq<Op>, pk: PeriodKey)
    ensures var db := Run(Empty(routes), ops);
            pk in StaleAfterRun(Empty(routes), ops, {}) <==> Covered(db, pk) && OutOfDate(db, pk)
  {
    hide *;
    var db, stale := Run(Empty(routes), ops), StaleAfterRun(Empty(routes), ops, {});
    EmptyInv(routes);
    RunKeepsInv(Empty(routes), ops, {});
    InvParts(db, stale);
    ViewDates(db, stale);
    if pk in stale {
      RunMissed(Empty(routes), ops, pk);
      MissedIsOutOfDate(db, pk);
    }
    if Covered(db, pk) && OutOfDate(db, pk) {
      OutOfDateIsStale(db, stale, pk);
    }
  }
}
