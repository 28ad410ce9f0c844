/** Crash recovery, in terms of what is known before the call.

    A calculation that finds its date unpriced keeps the exact medians in memory while the table keeps
    them rounded to paise.  Killed between the prices and the daily row, it is resumed from the rounded
    ones.  That matters exactly for an item that has its base by then and whose median is not whole.
 */
module IndexCrash {
  import opened Options
  import opened Domain
  import opened Calendar
  import opened Methodology
  import opened Periods
  import opened IndexModel
  import opened IndexBase
  import opened IndexView
  import opened IndexRecovery
  import opened IndexInvariant
  import opened IndexRuns
  import opened StoredRelatives
  import Medians
  import Rounding

  /** Today's price of item `k` may enter its base. */
  predicate Feeds(run: CollectionRun, item: BasketItem) {
    ExactPrice(run, item).Some? && (run.dataClass == LIVE ==> run.trigger == SCHEDULED)
  }

  /** Item `k` has its base, or gets it from today's price as the last of seven. */
  predicate WillHaveBase(db: Store, id: nat, k: nat)
    requires id in db.runs && db.runs[id].dataClass in db.baskets && k < |db.baskets[db.runs[id].dataClass].items|
  {
    var run := db.runs[id];
    var item := db.baskets[run.dataClass].items[k];
    item.base.Some?
    || |Candidates(db.prices, run.dataClass, k, db.runs)| + (if Feeds(run, item) then 1 else 0) >= BASE_REQUIRED_DATES
  }

  /** Some item will have a base and has a half-paisa median. */
  predicate HalfPaisaOnBase(db: Store, id: nat)
    requires id in db.runs && db.runs[id].dataClass in db.baskets
  {
    var items := db.baskets[db.runs[id].dataClass].items;
    exists k :: 0 <= k < |items| && WillHaveBase(db, id, k) && Fractional(ExactPrice(db.runs[id], items[k]))
  }

  /** The call is going to index a date nobody has priced, with such an item: everything here is a fact
      about the database before the call. */
  predicate AtRisk(db: Store, id: nat) {
    && Acceptable(db, id) && db.runs[id].dataClass in db.baskets
    && OnDay(db.prices, db.runs[id].dataClass, DayOf(db.runs[id])) == []
    && HalfPaisaOnBase(db, id)
  }

  // ---------------------------------------------------------------------------------------------
  // Who has a base when the call ends

  lemma NewRowFeeds(prices: seq<PriceRow>, id: nat, run: CollectionRun, items: seq<BasketItem>, j: nat, k: nat,
                    runs: map<nat, CollectionRun>)
    requires id in runs && runs[id] == run && j < |items|
    ensures Eligible(NewPriceRow(id, run, items, j), run.dataClass, k, runs) <==> j == k && Feeds(run, items[j])
  {
    hide ExactPrice, MatchingFares, DayOf, Rounding.HalfAway;
  }

  lemma CandidatesAppend(prices: seq<PriceRow>, row: PriceRow, dc: DataClass, k: nat, runs: map<nat, CollectionRun>)
    ensures Candidates(prices + [row], dc, k, runs)
         == Candidates(prices, dc, k, runs) + (if Eligible(row, dc, k, runs) then [row] else [])
  {
    assert (prices + [row])[..|prices|] == prices;
    hide Eligible;
  }

  /** Aggregation adds at most one candidate to an item: today's price. */
  lemma {:induction false} CandidatesGrow(prices: seq<PriceRow>, id: nat, run: CollectionRun, items: seq<BasketItem>,
                                          k: nat, runs: map<nat, CollectionRun>, m: nat)
    requires id in runs && runs[id] == run && m <= |items|
    ensures |Candidates(prices + NewPriceRows(id, run, items)[..m], run.dataClass, k, runs)|
         == |Candidates(prices, run.dataClass, k, runs)| + (if k < m && Feeds(run, items[k]) then 1 else 0)
  {
    var rows := NewPriceRows(id, run, items);
    if m == 0 {
      assert prices + rows[..0] == prices;
    } else {
      var j := m - 1;
      CandidatesGrow(prices, id, run, items, k, runs, j);
      assert prices + rows[..m] == prices + rows[..j] + [rows[j]];
      hide Candidates, Feeds, NewPriceRow, Eligible;
      CandidatesAppend(prices + rows[..j], rows[j], run.dataClass, k, runs);
      NewRowFeeds(prices, id, run, items, j, k, runs);
    }
  }

  lemma {:induction false} AllRead(rows: seq<PriceRow>)
    requires forall r :: r in rows ==> r.price.Some?
    ensures |ReadPrices(rows, Forgotten)| == |rows|
  {
    if rows != [] {
      AllRead(rows[..|rows| - 1]);
      assert rows[|rows| - 1] in rows;
    }
  }

  /** A freeze gives an item its base exactly when it has seven candidates. */
  lemma BaseAfterFreeze(db: Store, dc: DataClass, k: nat)
    requires dc in db.baskets && k < |db.baskets[dc].items|
    ensures var items := Frozen(db, dc, Forgotten).baskets[dc].items;
            && k < |items|
            && (items[k].base.Some? <==>
                  db.baskets[dc].items[k].base.Some? || |Candidates(db.prices, dc, k, db.runs)| >= BASE_REQUIRED_DATES)
  {
    var rows := Earliest(db.prices, dc, k, db.runs);
    SettledTwice(db.baskets[dc].(items := FrozenItems(db, dc, Forgotten)));
    EarliestAre(db.prices, dc, k, db.runs);
    AllRead(rows);
    EarliestCount(db.prices, dc, k, db.runs);
    hide Settled, Earliest, ReadPrices, Medians.Median, Rounding.HalfAway, Candidates, Eligible;
    assert forall r :: r in rows ==> Eligible(r, dc, k, db.runs);
    assert Frozen(db, dc, Forgotten).baskets[dc].items[k] == FrozenItem(db.baskets[dc].items[k], rows, Forgotten);
  }

  lemma EarliestCount(prices: seq<PriceRow>, dc: DataClass, k: nat, runs: map<nat, CollectionRun>)
    ensures |Earliest(prices, dc, k, runs)| >= BASE_REQUIRED_DATES
       <==> |Candidates(prices, dc, k, runs)| >= BASE_REQUIRED_DATES
  {
    hide Candidates;
  }

  /** A call on an unpriced date ends with bases for exactly the items that were to have one. */
  lemma EndBases(db: Store, id: nat, k: nat, stale: set<PeriodKey>)
    requires Inv(db, stale) && Ready(db, id) && WithPrices(db, id).Ok? && WithPrices(db, id).value.memory.Fresh?
    requires k < |db.baskets[db.runs[id].dataClass].items|
    ensures var dc, end := db.runs[id].dataClass, EndState(db, id);
            && dc in end.baskets && BaseKept(db.baskets[dc].items, end.baskets[dc].items)
            && (end.baskets[dc].items[k].base.Some? <==> WillHaveBase(db, id, k))
            && (end.baskets[dc].items[k].base.Some? ==> end.baskets[dc].items[k].base.value > 0)
  {
    var run, dc := db.runs[id], db.runs[id].dataClass;
    var priced := WithPrices(db, id).value;
    FreshCall(db, id);
    PricedOutcome(db, id);
    FreshStore(db, id);
    EndKeepsBasket(priced.store, id, priced.memory);
    FrozenForgets(priced.store, dc, priced.memory);
    FrozenKeepsBase(priced.store, dc, priced.memory);
    PricesKeepInv(db, id, stale);
    EndBasePositive(priced.store, dc, k, stale);
    hide *;
    CandidatesAfterPrices(db, id, k);
    BaseAfterFreeze(priced.store, dc, k);
    WillHaveBaseIs(db, id, k);
  }

  lemma EndBasePositive(db: Store, dc: DataClass, k: nat, stale: set<PeriodKey>)
    requires Inv(db, stale) && dc in db.baskets && k < |db.baskets[dc].items|
    ensures var items := Frozen(db, dc, Forgotten).baskets[dc].items;
            k < |items| && (items[k].base.Some? ==> items[k].base.value > 0)
  {
    FrozenBasketOk(db, dc);
    FrozenKeepsBase(db, dc, Forgotten);
    var basket := Frozen(db, dc, Forgotten).baskets[dc];
    assert ItemOk(basket.items[k], basket.policy) by {
      hide Inv, Frozen, ItemOk;
    }
    hide Inv, Frozen;
  }

  lemma CandidatesAfterPrices(db: Store, id: nat, k: nat)
    requires id in db.runs && db.runs[id].dataClass in db.baskets
    requires k < |db.baskets[db.runs[id].dataClass].items|
    requires WithPrices(db, id).Ok? && WithPrices(db, id).value.memory.Fresh?
    ensures var run := db.runs[id];
            |Candidates(WithPrices(db, id).value.store.prices, run.dataClass, k, db.runs)|
            == |Candidates(db.prices, run.dataClass, k, db.runs)|
               + (if Feeds(run, db.baskets[run.dataClass].items[k]) then 1 else 0)
  {
    var run := db.runs[id];
    var items := db.baskets[run.dataClass].items;
    FreshStore(db, id);
    CandidatesGrow(db.prices, id, run, items, k, db.runs, |items|);
    assert NewPriceRows(id, run, items)[..|items|] == NewPriceRows(id, run, items);
    hide *;
  }

  lemma WillHaveBaseIs(db: Store, id: nat, k: nat)
    requires id in db.runs && db.runs[id].dataClass in db.baskets
    requires k < |db.baskets[db.runs[id].dataClass].items|
    ensures var run := db.runs[id];
            var item := db.baskets[run.dataClass].items[k];
            WillHaveBase(db, id, k) <==>
            item.base.Some? || |Candidates(db.prices, run.dataClass, k, db.runs)|
                               + (if Feeds(run, item) then 1 else 0) >= BASE_REQUIRED_DATES
  {
    hide Candidates, Feeds;
  }

  /** Nothing was rounded that matters exactly when no item with a base to be has a half-paisa median. */
  lemma WholeUnlessHalfPaisa(db: Store, id: nat, stale: set<PeriodKey>)
    requires Inv(db, stale) && Ready(db, id) && WithPrices(db, id).Ok? && WithPrices(db, id).value.memory.Fresh?
    ensures PricesWereWhole(db, id) <==> !HalfPaisaOnBase(db, id)
  {
    var run, dc, end := db.runs[id], db.runs[id].dataClass, EndState(db, id);
    var items := db.baskets[dc].items;
    EndItems(db, id, stale);
    forall k: nat | k < |items|
      ensures end.baskets[dc].items[k].base.Some? <==> WillHaveBase(db, id, k)
      ensures end.baskets[dc].items[k].base.Some? ==> end.baskets[dc].items[k].base.value > 0
      ensures ExactPrice(run, end.baskets[dc].items[k]) == ExactPrice(run, items[k])
    {
      EndBases(db, id, k, stale);
      ExactPriceSame(run, end.baskets[dc].items[k], items[k]);
    }
    hide EndState, ExactPrice, WillHaveBase, Inv, WithPrices, Ready, Whole;
  }

  lemma EndItems(db: Store, id: nat, stale: set<PeriodKey>)
    requires Inv(db, stale) && Ready(db, id) && WithPrices(db, id).Ok? && WithPrices(db, id).value.memory.Fresh?
    ensures var dc, end := db.runs[id].dataClass, EndState(db, id);
            dc in end.baskets && BaseKept(db.baskets[dc].items, end.baskets[dc].items)
  {
    assert BasketOk(db.baskets[db.runs[id].dataClass]);
    hide EndState, WithPrices, WillHaveBase, ItemOk, Inv;
    EndBases(db, id, 0, stale);
  }

  // ---------------------------------------------------------------------------------------------
  // Which commits lose the exact prices

  /** The five commits of a call that prices its date: prices, freeze, daily row, week, month. */
  lemma FiveCommits(db: Store, id: nat, stale: set<PeriodKey>)
    requires Inv(db, stale) && Ready(db, id) && WithPrices(db, id).Ok? && WithPrices(db, id).value.memory.Fresh?
    requires CallFor(db, id).outcome.Indexed?
    ensures KeyOfRun(db, id) !in db.daily && CallFor(db, id).outcome.created
    ensures var priced := WithPrices(db, id).value;
            && Ready(priced.store, id) && priced.store.daily == db.daily
            && var start := WithDaily(priced.store, id, priced.memory);
            && KeyOfRun(db, id) in start.daily
            && CallFor(db, id).commits
               == [priced.store] + ([Frozen(priced.store, db.runs[id].dataClass, priced.memory)]
                                    + ([start] + Refreshes(start, db.runs[id].dataClass, db.runs[id].date)))
  {
    var key, priced := KeyOfRun(db, id), WithPrices(db, id).value;
    FreshCall(db, id);
    PricedOutcome(db, id);
    UnpricedUnindexed(db, id, stale);
    ReadyStays(db, id, priced.store);
    hide *;
    IndexedCommits(priced.store, id, priced.memory);
    AfterIs(priced.store, FromFreeze(priced.store, id, priced.memory));
  }

  lemma AfterIs(first: Store, call: Call)
    ensures After([first], call).commits == [first] + call.commits && After([first], call).outcome == call.outcome
  {
  }

  lemma FreshCommits(db: Store, id: nat, i: nat, stale: set<PeriodKey>)
    requires Inv(db, stale) && Ready(db, id) && WithPrices(db, id).Ok? && WithPrices(db, id).value.memory.Fresh?
    requires CallFor(db, id).outcome.Indexed? && i < |CallFor(db, id).commits|
    ensures CallFor(db, id).outcome.created && |CallFor(db, id).commits| == 5
    ensures KeyOfRun(db, id) in CallFor(db, id).commits[i].daily <==> i >= 2
  {
    var run, dc, key := db.runs[id], db.runs[id].dataClass, KeyOfRun(db, id);
    var priced := WithPrices(db, id).value;
    FiveCommits(db, id, stale);
    var start := WithDaily(priced.store, id, priced.memory);
    var frozen, states := Frozen(priced.store, dc, priced.memory), Refreshes(start, dc, run.date);
    assert |states| == 2;
    hide *;
    FrozenParts(priced.store, dc, priced.memory);
    RefreshesKeep(start, dc, run.date);
    assert states[0] in states && states[1] in states;
    FromSecondOn(CallFor(db, id).commits, priced.store, frozen, start, states, key, i);
  }

  lemma FromSecondOn(commits: seq<Store>, priced: Store, frozen: Store, start: Store, states: seq<Store>, key: DayKey,
                     i: nat)
    requires commits == [priced] + ([frozen] + ([start] + states)) && |states| == 2 && i < |commits|
    requires key !in priced.daily && key !in frozen.daily && key in start.daily
    requires key in states[0].daily && key in states[1].daily
    ensures |commits| == 5 && (key in commits[i].daily <==> i >= 2)
  {
  }

  /** After any commit of a call that got as far as prices, the date is priced. */
  lemma DatePriced(db: Store, id: nat, i: nat)
    requires Ready(db, id) && i < |CallFor(db, id).commits|
    ensures var x := CallFor(db, id).commits[i];
            && x.runs == db.runs && OnDay(x.prices, db.runs[id].dataClass, DayOf(db.runs[id])) != []
  {
    var x := CallFor(db, id).commits[i];
    PricedOutcome(db, id);
    assert WithPrices(db, id).Ok?;
    var priced := WithPrices(db, id).value;
    EndKeepsBasket(priced.store, id, priced.memory);
    if priced.memory.Fresh? {
      FreshCall(db, id);
      hide WithPrices, FromFreeze, CallFor, FromPrices, OnDay, DayOf, Frozen, MemoryFits;
      assert x == priced.store || x in FromFreeze(priced.store, id, priced.memory).commits;
    } else {
      PricesAlready(db, id);
      ResumeWithoutDaily(db, id);
      hide WithPrices, FromFreeze, CallFor, FromPrices, OnDay, DayOf, Frozen;
      assert x in FromFreeze(db, id, Forgotten).commits;
    }
  }

  lemma LostIff(db: Store, id: nat, i: nat, stale: set<PeriodKey>)
    requires Inv(db, stale) && Ready(db, id) && i < |CallFor(db, id).commits|
    ensures ExactPricesLost(db, id, CallFor(db, id).commits[i]) <==>
            && Acceptable(db, id) && i <= 1
            && OnDay(db.prices, db.runs[id].dataClass, DayOf(db.runs[id])) == []
  {
    var x := CallFor(db, id).commits[i];
    CallSucceeds(db, id, stale);
    DatePriced(db, id, i);
    if OnDay(db.prices, db.runs[id].dataClass, DayOf(db.runs[id])) == [] {
      FreshWhenUnpriced(db, id);
      if CallFor(db, id).outcome.Indexed? {
        FreshCommits(db, id, i, stale);
      }
    }
    hide CallFor, OnDay, DayOf, Inv, Acceptable, WithPrices, KeyOfRun;
  }

  lemma FreshWhenUnpriced(db: Store, id: nat)
    requires Ready(db, id) && OnDay(db.prices, db.runs[id].dataClass, DayOf(db.runs[id])) == []
    requires CallFor(db, id).commits != []
    ensures WithPrices(db, id).Ok? && WithPrices(db, id).value.memory.Fresh?
  {
    hide OnDay, DayOf, FromFreeze, NewPriceRows, ExactPrices;
  }

  // ---------------------------------------------------------------------------------------------
  // The theorem

  lemma RecoverPriced(db: Store, id: nat, i: nat, stale: set<PeriodKey>)
    requires Inv(db, stale) && Ready(db, id) && i < |CallFor(db, id).commits|
    ensures EndState(CallFor(db, id).commits[i], id) == EndState(db, id) <==> !(AtRisk(db, id) && i <= 1)
  {
    RecoveryByOutcome(db, id, i);
    LostIff(db, id, i, stale);
    if OnDay(db.prices, db.runs[id].dataClass, DayOf(db.runs[id])) == [] {
      FreshWhenUnpriced(db, id);
      WholeUnlessHalfPaisa(db, id, stale);
    }
    hide CallFor, OnDay, DayOf, Inv, Acceptable, WithPrices, EndState, ExactPricesLost, PricesWereWhole,
         HalfPaisaOnBase;
  }

  lemma PricedClassHasBasket(db: Store, r: PriceRow, stale: set<PeriodKey>)
    requires Inv(db, stale) && r in db.prices
    ensures r.dataClass in db.baskets
  {
    assert DayOk(db, r.dataClass, r.day);
    OnDayNone(db.prices, r.dataClass, r.day);
    var m :| 0 <= m < |db.prices| && db.prices[m] == r;
    hide OnDay, ViewAgrees, UniqueRows, DailyOk, BasketsOk;
  }

  /** A class without a basket has no prices, hence nobody has a base when its first call ends. */
  lemma NoBasketNoCandidates(db: Store, dc: DataClass, k: nat, stale: set<PeriodKey>)
    requires Inv(db, stale) && dc !in db.baskets
    ensures Candidates(db.prices, dc, k, db.runs) == []
  {
    CandidatesAre(db.prices, dc, k, db.runs);
    var c := Candidates(db.prices, dc, k, db.runs);
    assert c == [] || c[0] in c;
    forall r | r in c
      ensures r.dataClass in db.baskets && r.dataClass == dc
    {
      PricedClassHasBasket(db, r, stale);
    }
    hide Inv, Candidates;
  }

  lemma NewBasketSafe(db: Store, id: nat, stale: set<PeriodKey>)
    requires Inv(db, stale) && id in db.runs && db.runs[id].dataClass !in db.baskets
    ensures !AtRisk(WithBasket(db, db.runs[id].dataClass), id)
  {
    var dc := db.runs[id].dataClass;
    var next := WithBasket(db, dc);
    var items := next.baskets[dc].items;
    forall k: nat | k < |items|
      ensures !WillHaveBase(next, id, k)
    {
      NoBasketNoCandidates(db, dc, k, stale);
      hide Candidates, Feeds, Inv;
    }
    hide WillHaveBase, Inv, Acceptable, OnDay, DayOf, WithBasket;
  }

  /** A call that commits anything works on a finished run. */
  lemma CommitsMeanFinished(db: Store, id: nat, stale: set<PeriodKey>)
    requires Inv(db, stale) && id in db.runs && CallFor(db, id).commits != []
    ensures Finished(db.runs[id]) && PositiveFares(db.runs[id].fares) && RunsOk(db)
    ensures db.runs[id].dataClass in db.baskets ==> Ready(db, id)
  {
    hide BasketsOk, PricesOk, DailyOk, ViewAgrees, PositiveFares, FromPrices, WithBasket;
  }

  /** Crash recovery.  Whatever commit a call is killed after, calling again for the same run ends in the
      state an uninterrupted call reaches, except after the first two commits of a call at risk. */
  lemma CrashRecovery(db: Store, id: nat, i: nat, stale: set<PeriodKey>)
    requires Inv(db, stale) && id in db.runs && i < |CallFor(db, id).commits|
    ensures EndState(CallFor(db, id).commits[i], id) == EndState(db, id) <==> !(AtRisk(db, id) && i <= 1)
  {
    hide *;
    CommitsMeanFinished(db, id, stale);
    if db.runs[id].dataClass in db.baskets {
      RecoverPriced(db, id, i, stale);
    } else {
      RecoverNewBasket(db, id, i, stale);
    }
  }

  lemma RecoverNewBasket(db: Store, id: nat, i: nat, stale: set<PeriodKey>)
    requires Inv(db, stale) && id in db.runs && PositiveFares(db.runs[id].fares)
    requires db.runs[id].dataClass !in db.baskets && i < |CallFor(db, id).commits|
    ensures EndState(CallFor(db, id).commits[i], id) == EndState(db, id) && !AtRisk(db, id)
  {
    hide *;
    var dc := db.runs[id].dataClass;
    var next := WithBasket(db, dc);
    NoBasketNoRisk(db, id);
    CreatesBasket(db, id);
    NextCommit(next, CallFor(next, id), i);
    if i > 0 {
      BasketKeepsInv(db, dc, stale);
      NewBasketSafe(db, id, stale);
      RecoverPriced(next, id, i - 1, stale);
    }
  }

  lemma NoBasketNoRisk(db: Store, id: nat)
    requires id in db.runs && db.runs[id].dataClass !in db.baskets
    ensures !AtRisk(db, id)
  {
    hide Acceptable, OnDay, DayOf;
  }

  lemma NextCommit(first: Store, call: Call, i: nat)
    ensures After([first], call).commits[0] == first
    ensures 0 < i <= |call.commits| ==> After([first], call).commits[i] == call.commits[i - 1]
    ensures |After([first], call).commits| == |call.commits| + 1
  {
  }

  /** The item of the basket that a call at risk will freeze. */
  predicate HalfPaisaItem(db: Store, id: nat, k: nat)
    requires id in db.runs && db.runs[id].dataClass in db.baskets
  {
    var items := db.baskets[db.runs[id].dataClass].items;
    k < |items| && WillHaveBase(db, id, k) && Fractional(ExactPrice(db.runs[id], items[k]))
  }

  lemma FirstCommits(db: Store, id: nat, stale: set<PeriodKey>)
    requires id in db.runs && db.runs[id].dataClass in db.baskets
    requires Inv(db, stale) && Ready(db, id) && WithPrices(db, id).Ok? && WithPrices(db, id).value.memory.Fresh?
    requires CallFor(db, id).outcome.Indexed?
    ensures var priced, commits := WithPrices(db, id).value, CallFor(db, id).commits;
            && |commits| >= 2 && db.runs[id].dataClass in priced.store.baskets
            && commits[0] == priced.store
            && commits[1] == Frozen(priced.store, db.runs[id].dataClass, priced.memory)
  {
    hide *;
    var priced, run := WithPrices(db, id).value, db.runs[id];
    FiveCommits(db, id, stale);
    FreshStore(db, id);
    var start := WithDaily(priced.store, id, priced.memory);
    FirstTwo(CallFor(db, id).commits, priced.store, Frozen(priced.store, run.dataClass, priced.memory),
             [start] + Refreshes(start, run.dataClass, run.date));
  }

  lemma FirstTwo(commits: seq<Store>, a: Store, b: Store, rest: seq<Store>)
    requires commits == [a] + ([b] + rest)
    ensures |commits| >= 2 && commits[0] == a && commits[1] == b
  {
  }

  lemma ItemParts(db: Store, id: nat, k: nat)
    requires id in db.runs && db.runs[id].dataClass in db.baskets && HalfPaisaItem(db, id, k)
    ensures var items := db.baskets[db.runs[id].dataClass].items;
            k < |items| && WillHaveBase(db, id, k) && Fractional(ExactPrice(db.runs[id], items[k]))
  {
    hide WillHaveBase, Fractional, ExactPrice;
  }

  lemma KeptItem(before: seq<BasketItem>, later: seq<BasketItem>, k: nat)
    requires BaseKept(before, later) && k < |before|
    ensures k < |later| && later[k].route == before[k].route && later[k].window == before[k].window
  {
  }

  /** Such an item at the end of the call. */
  lemma ItemAtEnd(db: Store, id: nat, k: nat, stale: set<PeriodKey>)
    requires id in db.runs && db.runs[id].dataClass in db.baskets && HalfPaisaItem(db, id, k)
    requires Inv(db, stale) && Ready(db, id) && WithPrices(db, id).Ok? && WithPrices(db, id).value.memory.Fresh?
    ensures var end, dc := EndState(db, id), db.runs[id].dataClass;
            && dc in end.baskets && k < |end.baskets[dc].items|
            && end.baskets[dc].items[k].base.Some? && end.baskets[dc].items[k].base.value > 0
            && Fractional(ExactPrice(db.runs[id], end.baskets[dc].items[k]))
  {
    hide *;
    var items := db.baskets[db.runs[id].dataClass].items;
    ItemParts(db, id, k);
    EndBases(db, id, k, stale);
    var later := EndState(db, id).baskets[db.runs[id].dataClass].items;
    KeptItem(items, later, k);
    ExactPriceSame(db.runs[id], later[k], items[k]);
  }

  /** In a call at risk the relatives of each such item differ, in their ten-decimal columns, between the rows
      that the uninterrupted and the resumed call leave. */
  lemma RelativesLost(db: Store, id: nat, i: nat, k: nat, stale: set<PeriodKey>)
    requires id in db.runs && db.runs[id].dataClass in db.baskets && HalfPaisaItem(db, id, k)
    requires Inv(db, stale) && Ready(db, id) && WithPrices(db, id).Ok? && WithPrices(db, id).value.memory.Fresh?
    requires CallFor(db, id).outcome.Indexed? && i < |CallFor(db, id).commits| && i <= 1
    ensures ColumnsDiffer(EndState(db, id), EndState(CallFor(db, id).commits[i], id), KeyOfRun(db, id), k)
  {
    hide *;
    FirstCommits(db, id, stale);
    ItemAtEnd(db, id, k, stale);
    FreshUnindexed(db, id, stale);
    ResumedRow(db, id, CallFor(db, id).commits[i], k);
  }

  lemma FreshUnindexed(db: Store, id: nat, stale: set<PeriodKey>)
    requires Inv(db, stale) && Ready(db, id) && WithPrices(db, id).Ok? && WithPrices(db, id).value.memory.Fresh?
    ensures id in db.runs && KeyOfRun(db, id) !in db.daily
  {
    assert id in db.runs;
    hide *;
    FreshCall(db, id);
    UnpricedUnindexed(db, id, stale);
  }

  /** Every state at risk fails: killed after its prices or after its freeze, the call that follows ends
      in a different state, and the difference shows in a stored price relative of each item with a
      half-paisa median and a base, unless that base is beyond five billion rupees. */
  lemma RecoveryFails(db: Store, id: nat, stale: set<PeriodKey>)
    requires Inv(db, stale) && AtRisk(db, id)
    ensures var commits := CallFor(db, id).commits;
            && |commits| == 5
            && EndState(commits[0], id) != EndState(db, id) && EndState(commits[1], id) != EndState(db, id)
            && (exists k: nat :: HalfPaisaItem(db, id, k))
            && forall k: nat :: HalfPaisaItem(db, id, k) ==>
                 && ColumnsDiffer(EndState(db, id), EndState(commits[0], id), KeyOfRun(db, id), k)
                 && ColumnsDiffer(EndState(db, id), EndState(commits[1], id), KeyOfRun(db, id), k)
  {
    assert Ready(db, id);
    RiskHasItem(db, id);
    CallSucceeds(db, id, stale);
    NoCommitsNoIndex(db, id);
    FreshWhenUnpriced(db, id);
    FreshCommits(db, id, 0, stale);
    hide AtRisk, CallFor, EndState, Inv, WithPrices, Ready, HalfPaisaItem, ColumnsDiffer, KeyOfRun;
    CrashRecovery(db, id, 0, stale);
    CrashRecovery(db, id, 1, stale);
    forall k: nat | HalfPaisaItem(db, id, k)
      ensures ColumnsDiffer(EndState(db, id), EndState(CallFor(db, id).commits[0], id), KeyOfRun(db, id), k)
      ensures ColumnsDiffer(EndState(db, id), EndState(CallFor(db, id).commits[1], id), KeyOfRun(db, id), k)
    {
      RelativesLost(db, id, 0, k, stale);
      RelativesLost(db, id, 1, k, stale);
    }
  }

  lemma RiskHasItem(db: Store, id: nat)
    requires AtRisk(db, id)
    ensures id in db.runs && db.runs[id].dataClass in db.baskets && exists k: nat :: HalfPaisaItem(db, id, k)
  {
    var items := db.baskets[db.runs[id].dataClass].items;
    var k: int :| 0 <= k < |items| && WillHaveBase(db, id, k) && Fractional(ExactPrice(db.runs[id], items[k]));
    assert HalfPaisaItem(db, id, k);
    hide OnDay, DayOf, Acceptable, WillHaveBase, Fractional, ExactPrice;
  }

  // ---------------------------------------------------------------------------------------------
  // Any number of kills

  /** The state after a call was started over and over, the `i`-th time killed after `cuts[i]` commits;
      a cut at or beyond the last commit is a call that ran to its end. */
  function Killed(db: Store, id: nat, cuts: seq<nat>): Store
    decreases |cuts|
  {
    if cuts == [] then db else Killed(AfterCommits(db, CallFor(db, id), cuts[0]), id, cuts[1..])
  }

  /** The first call that committed anything committed no more than the prices and the freeze. */
  predicate FirstKillEarly(cuts: seq<nat>) {
    cuts != [] && (1 <= cuts[0] <= 2 || (cuts[0] == 0 && FirstKillEarly(cuts[1..])))
  }

  /** Once something was committed the call is at risk no more. */
  lemma PricedCommitSafe(db: Store, id: nat, i: nat)
    requires Ready(db, id) && i < |CallFor(db, id).commits|
    ensures !AtRisk(CallFor(db, id).commits[i], id)
  {
    DatePriced(db, id, i);
    hide *;
    PricedNoRisk(CallFor(db, id).commits[i], id);
  }

  lemma NoLongerAtRisk(db: Store, id: nat, i: nat, stale: set<PeriodKey>)
    requires Inv(db, stale) && id in db.runs && i < |CallFor(db, id).commits|
    ensures !AtRisk(CallFor(db, id).commits[i], id)
  {
    CommitsMeanFinished(db, id, stale);
    var dc := db.runs[id].dataClass;
    hide *;
    if dc in db.baskets {
      PricedCommitSafe(db, id, i);
    } else {
      var next := WithBasket(db, dc);
      CreatesBasket(db, id);
      NewBasketSafe(db, id, stale);
      NextCommit(next, CallFor(next, id), i);
      if i > 0 {
        PricedCommitSafe(next, id, i - 1);
      }
    }
  }

  lemma PricedNoRisk(db: Store, id: nat)
    requires id in db.runs && OnDay(db.prices, db.runs[id].dataClass, DayOf(db.runs[id])) != []
    ensures !AtRisk(db, id)
  {
    hide OnDay, DayOf, Acceptable, HalfPaisaOnBase;
  }

  lemma KeptAt(call: Call, week: PeriodKey, month: PeriodKey, stale: set<PeriodKey>, i: nat)
    requires CallKeeps(call, week, month, stale) && i < |call.commits|
    ensures Inv(call.commits[i], StaleWith(call.outcome, week, month, stale, |call.commits| - 1 - i))
  {
    hide Inv, StaleWith;
  }

  lemma FinishedRunKept(db: Store, x: Store, id: nat)
    requires Extends(db, x) && id in db.runs && Finished(db.runs[id])
    ensures id in x.runs
  {
    hide DailyKept, BaseKept;
  }

  /** Every commit is again a state the theorem speaks about. */
  lemma CommitKeepsRun(db: Store, id: nat, i: nat, stale: set<PeriodKey>) returns (later: set<PeriodKey>)
    requires Inv(db, stale) && id in db.runs && i < |CallFor(db, id).commits|
    ensures Inv(CallFor(db, id).commits[i], later) && id in CallFor(db, id).commits[i].runs
  {
    var call := CallFor(db, id);
    assert call.commits[i] in call.commits;
    hide *;
    CommitsMeanFinished(db, id, stale);
    later := StaleWith(call.outcome, WeekOf(db, id), MonthOf(db, id), stale, |call.commits| - 1 - i);
    CallKeepsInv(db, id, stale);
    KeptAt(call, WeekOf(db, id), MonthOf(db, id), stale, i);
    CommitsExtend(db, id, call.commits[i]);
    FinishedRunKept(db, call.commits[i], id);
  }

  /** A call not at risk survives any number of kills. */
  lemma {:induction false} SafeFromKills(db: Store, id: nat, cuts: seq<nat>, stale: set<PeriodKey>)
    requires Inv(db, stale) && id in db.runs && !AtRisk(db, id)
    ensures EndState(Killed(db, id, cuts), id) == EndState(db, id)
    decreases |cuts|
  {
    hide Inv, AtRisk, CallFor, EndState;
    if cuts != [] {
      var call := CallFor(db, id);
      var x := AfterCommits(db, call, cuts[0]);
      if x == db {
        SafeFromKills(db, id, cuts[1..], stale);
      } else {
        var i := if |call.commits| <= cuts[0] then |call.commits| - 1 else cuts[0] - 1;
        assert x == call.commits[i];
        CrashRecovery(db, id, i, stale);
        NoLongerAtRisk(db, id, i, stale);
        var s := CommitKeepsRun(db, id, i, stale);
        SafeFromKills(x, id, cuts[1..], s);
      }
    }
  }

  /** Recovery from any number of kills, whatever commits they come after: only the first call that
      committed anything matters. */
  lemma {:induction false} RepeatedKills(db: Store, id: nat, cuts: seq<nat>, stale: set<PeriodKey>)
    requires Inv(db, stale) && id in db.runs
    ensures EndState(Killed(db, id, cuts), id) == EndState(db, id) <==> !(AtRisk(db, id) && FirstKillEarly(cuts))
    decreases |cuts|
  {
    if !AtRisk(db, id) {
      SafeFromKills(db, id, cuts, stale);
    } else if cuts != [] {
      RecoveryFails(db, id, stale);
      hide Inv, AtRisk, CallFor, EndState;
      var call := CallFor(db, id);
      var x := AfterCommits(db, call, cuts[0]);
      if cuts[0] == 0 {
        RepeatedKills(db, id, cuts[1..], stale);
      } else {
        var i := if |call.commits| <= cuts[0] then |call.commits| - 1 else cuts[0] - 1;
        assert x == call.commits[i];
        CrashRecovery(db, id, i, stale);
        NoLongerAtRisk(db, id, i, stale);
        var s := CommitKeepsRun(db, id, i, stale);
        SafeFromKills(x, id, cuts[1..], s);
      }
    }
    hide Inv, AtRisk, CallFor, EndState;
  }

  // ---------------------------------------------------------------------------------------------
  // The risk is real

  function Ones(): (r: seq<real>)
    ensures |r| == 15 && forall k :: 0 <= k < 15 ==> r[k] == 1.0
  {
    seq(15, k => 1.0)
  }

  /** A finished run is collected, its calculation is killed right after it made the basket, and the
      basket is seeded. */
  function Risky(run: CollectionRun, day: int): seq<Op> {
    [Collect(0, run), Calculate(0, 1), Seed(run.dataClass, Ones(), day)]
  }

  lemma BasketCommit(db: Store, id: nat)
    requires id in db.runs && Finished(db.runs[id]) && db.runs[id].dataClass !in db.baskets && RoutesActive(db)
    ensures Step(db, Calculate(id, 1)) == WithBasket(db, db.runs[id].dataClass)
  {
    hide FromPrices, NewBasket;
  }

  lemma OnesSeed(day: int)
    ensures Seeded(NewBasket(), Ones(), day).Ok?
    ensures var basket := Seeded(NewBasket(), Ones(), day).value;
            |basket.items| == 15 && forall k :: 0 <= k < 15 ==>
              && basket.items[k].base == Some(1) && basket.items[k].route == NewItem(k).route
              && basket.items[k].window == NewItem(k).window
  {
    Rounding.HalfAwayFixesIntegers(1);
    hide Rounding.HalfAway;
  }

  lemma RunAppend(db: Store, ops: seq<Op>, op: Op)
    ensures Run(db, ops + [op]) == Step(Run(db, ops), op)
  {
    assert (ops + [op])[..|ops|] == ops;
    hide Step;
  }

  lemma RunThree(db: Store, a: Op, b: Op, c: Op)
    ensures Run(db, [a, b, c]) == Step(Step(Step(db, a), b), c)
  {
    assert Run(db, []) == db;
    hide *;
    RunAppend(db, [], a);
    RunAppend(db, [a], b);
    RunAppend(db, [a, b], c);
    assert [] + [a] == [a] && [a] + [b] == [a, b] && [a, b] + [c] == [a, b, c];
  }

  lemma RiskyState(routes: set<Route>, run: CollectionRun, day: int)
    requires DEL_BOM in routes && DEL_BLR in routes && BOM_BLR in routes
    requires Finished(run) && PositiveFares(run.fares)
    ensures var db := Run(Empty(routes), Risky(run, day));
            && 0 in db.runs && db.runs[0] == run && db.prices == [] && run.dataClass in db.baskets
            && Seeded(NewBasket(), Ones(), day).Ok?
            && db.baskets[run.dataClass] == Seeded(NewBasket(), Ones(), day).value
  {
    var first := Step(Empty(routes), Collect(0, run));
    RunThree(Empty(routes), Collect(0, run), Calculate(0, 1), Seed(run.dataClass, Ones(), day));
    BasketCommit(first, 0);
    OnesSeed(day);
    hide Seeded, NewBasket, CallFor, PositiveFares, Finished;
  }

  /** States at risk are reached: from an empty database, by any finished run of one method version with a
      half-paisa median on some item of the basket. */
  lemma RiskIsReached(routes: set<Route>, run: CollectionRun, day: int, k: nat)
    requires DEL_BOM in routes && DEL_BLR in routes && BOM_BLR in routes
    requires Finished(run) && PositiveFares(run.fares) && |Versions(run.fares)| <= 1
    requires k < 15 && Fractional(ExactPrice(run, NewItem(k)))
    ensures AtRisk(Run(Empty(routes), Risky(run, day)), 0)
  {
    var db := Run(Empty(routes), Risky(run, day));
    RiskyState(routes, run, day);
    OnesSeed(day);
    var items := db.baskets[run.dataClass].items;
    ExactPriceSame(run, items[k], NewItem(k));
    assert OnDay(db.prices, run.dataClass, DayOf(run)) == [];
    hide Run, Risky, Seeded, NewBasket, Versions, ExactPrice, DayOf, Finished, PositiveFares, Candidates, Whole,
         NewItem;
    assert WillHaveBase(db, 0, k);
  }
}
