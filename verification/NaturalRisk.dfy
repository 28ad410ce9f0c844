/** The risk of a killed calculation is reached by the ordinary course of events: days collected and indexed
    one after the other until the base is frozen from them, then a day with a half-paisa median. */
module NaturalRisk {
  import opened Options
  import opened Domain
  import opened IndexModel
  import opened IndexBase
  import opened IndexView
  import opened IndexRecovery
  import opened IndexInvariant
  import opened IndexRuns
  import opened StoredRelatives
  import opened IndexCrash

  /** Each run is collected and then indexed to the end; a calculation has at most six commits. */
  function History(runs: seq<CollectionRun>): seq<Op> {
    if runs == [] then []
    else
      var n := |runs| - 1;
      History(runs[..n]) + [Collect(n, runs[n]), Calculate(n, 6)]
  }

  /** A finished run of one method version that prices item `k`, scheduled if its class is LIVE. */
  predicate Usable(run: CollectionRun, dc: DataClass, k: nat)
    requires k < 15
  {
    && Finished(run) && PositiveFares(run.fares) && |Versions(run.fares)| <= 1 && run.dataClass == dc
    && Feeds(run, NewItem(k))
  }

  /** Usable runs of different dates. */
  ghost predicate UsableDays(runs: seq<CollectionRun>, dc: DataClass, k: nat)
    requires k < 15
  {
    && (forall j :: 0 <= j < |runs| ==> Usable(runs[j], dc, k))
    && forall i, j :: 0 <= i < j < |runs| ==> DayOf(runs[i]) != DayOf(runs[j])
  }

  ghost predicate PricedDay(runs: seq<CollectionRun>, day: int) {
    exists j :: 0 <= j < |runs| && DayOf(runs[j]) == day
  }

  /** The basket is the frozen one, with bases or without. */
  ghost predicate OfNewBasket(items: seq<BasketItem>) {
    SameDimensions(NewBasket().items, items)
  }

  /** The database after a history: its runs, its basket, no other days priced, and as many candidates. */
  ghost predicate Built(db: Store, runs: seq<CollectionRun>, dc: DataClass, k: nat) {
    && (runs == [] ==> RoutesActive(db)) && (forall id :: id in db.runs ==> id < |runs|)
    && (dc in db.baskets <==> runs != []) && (dc in db.baskets ==> OfNewBasket(db.baskets[dc].items))
    && |Candidates(db.prices, dc, k, db.runs)| >= |runs|
    && forall day :: OnDay(db.prices, dc, day) != [] ==> PricedDay(runs, day)
  }

  // ---------------------------------------------------------------------------------------------
  // One more day

  /** Collecting a run takes no candidate away. */
  lemma {:induction false} CollectKeepsCandidates(prices: seq<PriceRow>, dc: DataClass, k: nat,
                                                  runs: map<nat, CollectionRun>, id: nat, run: CollectionRun)
    requires id !in runs
    ensures |Candidates(prices, dc, k, runs[id := run])| >= |Candidates(prices, dc, k, runs)|
  {
    if prices != [] {
      CollectKeepsCandidates(prices[..|prices| - 1], dc, k, runs, id, run);
    }
  }

  lemma CollectStep(db: Store, id: nat, run: CollectionRun)
    requires id !in db.runs && PositiveFares(run.fares)
    ensures Step(db, Collect(id, run)) == db.(runs := db.runs[id := run])
  {
    hide PositiveFares;
  }

  /** The state in which a collected run is about to be indexed, its basket made if need be. */
  function Start(db: Store, id: nat, run: CollectionRun): Store {
    WithBasket(db.(runs := db.runs[id := run]), run.dataClass)
  }

  lemma NewDimensions(items: seq<BasketItem>, k: nat, run: CollectionRun)
    requires OfNewBasket(items) && k < 15
    ensures |items| == 15 && ExactPrice(run, items[k]) == ExactPrice(run, NewItem(k))
    ensures Feeds(run, items[k]) <==> Feeds(run, NewItem(k))
  {
    assert NewBasket().items[k] == NewItem(k);
    ExactPriceSame(run, items[k], NewItem(k));
    hide NewItem, ExactPrice;
  }

  lemma NewBasketItems()
    ensures OfNewBasket(NewBasket().items)
  {
  }

  lemma StartParts(db: Store, runs: seq<CollectionRun>, run: CollectionRun, k: nat)
    requires k < 15 && Usable(run, run.dataClass, k) && Built(db, runs, run.dataClass, k)
    requires !PricedDay(runs, DayOf(run))
    ensures var b, id := Start(db, |runs|, run), |runs|;
            && id in b.runs && b.runs[id] == run && Ready(b, id) && b.prices == db.prices
            && (run.dataClass !in db.baskets ==> RoutesActive(db))
            && run.dataClass in b.baskets && OfNewBasket(b.baskets[run.dataClass].items)
            && OnDay(b.prices, run.dataClass, DayOf(run)) == [] && Acceptable(b, id)
            && |Candidates(b.prices, run.dataClass, k, b.runs)| >= |runs|
  {
    NewBasketItems();
    CollectKeepsCandidates(db.prices, run.dataClass, k, db.runs, |runs|, run);
    hide OnDay, DayOf, Candidates, NewBasket, OfNewBasket, PositiveFares, Versions, Feeds, PricedDay;
  }

  lemma StartInv(db: Store, runs: seq<CollectionRun>, run: CollectionRun, k: nat, stale: set<PeriodKey>)
    requires Inv(db, stale) && k < 15 && Usable(run, run.dataClass, k) && Built(db, runs, run.dataClass, k)
    ensures Inv(Start(db, |runs|, run), stale)
  {
    var next := db.(runs := db.runs[|runs| := run]);
    assert |runs| !in db.runs && PositiveFares(run.fares);
    hide *;
    CollectKeepsInv(db, |runs|, run, stale);
    BasketKeepsInv(next, run.dataClass, stale);
    assert Start(db, |runs|, run) == WithBasket(next, run.dataClass) by {
      StartIs(db, |runs|, run);
    }
  }

  lemma StartIs(db: Store, id: nat, run: CollectionRun)
    ensures Start(db, id, run) == WithBasket(db.(runs := db.runs[id := run]), run.dataClass)
  {
  }

  lemma StartFresh(db: Store, id: nat, stale: set<PeriodKey>)
    requires Inv(db, stale) && Ready(db, id) && Acceptable(db, id)
    requires OnDay(db.prices, db.runs[id].dataClass, DayOf(db.runs[id])) == []
    ensures WithPrices(db, id).Ok? && WithPrices(db, id).value.memory.Fresh? && CallFor(db, id).outcome.Indexed?
    ensures |CallFor(db, id).commits| == 5
  {
    hide *;
    CallSucceeds(db, id, stale);
    NoCommitsNoIndex(db, id);
    FreshWhenUnpriced(db, id);
    FreshCommits(db, id, 0, stale);
  }

  lemma CompletedStep(db: Store, id: nat)
    requires |CallFor(db, id).commits| <= 6
    ensures Step(db, Calculate(id, 6)) == EndState(db, id)
  {
    hide CallFor;
  }

  lemma MakesBasket(db: Store, id: nat)
    requires id in db.runs && Finished(db.runs[id]) && db.runs[id].dataClass !in db.baskets && RoutesActive(db)
    ensures CallFor(db, id).commits != []
  {
    hide FromPrices, NewBasket;
  }

  lemma HasBasket(db: Store, id: nat, run: CollectionRun)
    requires run.dataClass in db.baskets
    ensures Start(db, id, run) == db.(runs := db.runs[id := run])
  {
  }

  /** Indexing a collected run to its end, the basket being made on the way if need be. */
  lemma CalculateStep(db: Store, id: nat, run: CollectionRun)
    requires Finished(run) && PositiveFares(run.fares) && (run.dataClass !in db.baskets ==> RoutesActive(db))
    requires |CallFor(Start(db, id, run), id).commits| == 5
    ensures Step(db.(runs := db.runs[id := run]), Calculate(id, 6)) == EndState(Start(db, id, run), id)
  {
    var next, b := db.(runs := db.runs[id := run]), Start(db, id, run);
    StartIs(db, id, run);
    if run.dataClass in db.baskets {
      HasBasket(db, id, run);
      CompletedStep(next, id);
    } else {
      MakesBasket(next, id);
      CreatesBasket(next, id);
      NextCommit(b, CallFor(b, id), 0);
      CompletedStep(next, id);
    }
    hide *;
  }

  lemma PricesAfter(db: Store, id: nat)
    requires Ready(db, id) && WithPrices(db, id).Ok? && WithPrices(db, id).value.memory.Fresh?
    ensures var run, end := db.runs[id], EndState(db, id);
            && run.dataClass in db.baskets
            && end.prices == db.prices + NewPriceRows(id, run, db.baskets[run.dataClass].items)
            && end.prices == WithPrices(db, id).value.store.prices && end.runs == db.runs
  {
    assert id in db.runs && db.runs[id].dataClass in db.baskets;
    var priced := WithPrices(db, id).value;
    PricedOutcome(db, id);
    FreshCall(db, id);
    FreshStore(db, id);
    EndKeepsBasket(priced.store, id, priced.memory);
    hide *;
  }

  lemma DaysAfter(prices: seq<PriceRow>, runs: seq<CollectionRun>, run: CollectionRun, id: nat, items: seq<BasketItem>,
                  dc: DataClass, day: int)
    requires OnDay(prices, dc, day) != [] ==> PricedDay(runs, day)
    requires OnDay(prices + NewPriceRows(id, run, items), dc, day) != []
    ensures PricedDay(runs + [run], day)
  {
    var all := runs + [run];
    if DayOf(run) == day {
      assert all[|runs|] == run;
    } else {
      OtherDays(id, run, items, dc, day);
      OnDayOther(prices, NewPriceRows(id, run, items), dc, day);
      var j :| 0 <= j < |runs| && DayOf(runs[j]) == day;
      assert all[j] == runs[j];
    }
    hide OnDay, DayOf, NewPriceRows;
  }

  lemma DimensionsKept(before: seq<BasketItem>, later: seq<BasketItem>)
    requires OfNewBasket(before) && BaseKept(before, later)
    ensures OfNewBasket(later)
  {
    hide NewBasket;
  }

  lemma Rebuilt(end: Store, runs: seq<CollectionRun>, run: CollectionRun, k: nat)
    requires run.dataClass in end.baskets && OfNewBasket(end.baskets[run.dataClass].items)
    requires forall id :: id in end.runs ==> id <= |runs|
    requires |Candidates(end.prices, run.dataClass, k, end.runs)| > |runs|
    requires forall day :: OnDay(end.prices, run.dataClass, day) != [] ==> PricedDay(runs + [run], day)
    ensures Built(end, runs + [run], run.dataClass, k)
  {
    hide OnDay, PricedDay, Candidates, OfNewBasket;
  }

  lemma StartRuns(db: Store, runs: seq<CollectionRun>, run: CollectionRun, dc: DataClass, k: nat)
    requires Built(db, runs, dc, k)
    ensures |runs| !in db.runs && forall id :: id in Start(db, |runs|, run).runs ==> id <= |runs|
    ensures forall day :: OnDay(db.prices, dc, day) != [] ==> PricedDay(runs, day)
  {
    hide OnDay, PricedDay, Candidates, OfNewBasket, NewBasket;
  }

  lemma UsableParts(run: CollectionRun, dc: DataClass, k: nat)
    requires k < 15 && Usable(run, dc, k)
    ensures Finished(run) && PositiveFares(run.fares) && Feeds(run, NewItem(k)) && run.dataClass == dc
  {
    hide Finished, PositiveFares, Feeds, NewItem, Versions;
  }

  /** The candidates and the basket at the end of the indexing. */
  lemma AfterStart(b: Store, id: nat, k: nat, stale: set<PeriodKey>)
    requires Inv(b, stale) && Ready(b, id) && Acceptable(b, id) && k < 15
    requires OnDay(b.prices, b.runs[id].dataClass, DayOf(b.runs[id])) == []
    requires OfNewBasket(b.baskets[b.runs[id].dataClass].items) && Feeds(b.runs[id], NewItem(k))
    ensures var dc, end := b.runs[id].dataClass, EndState(b, id);
            && end.runs == b.runs && dc in end.baskets && OfNewBasket(end.baskets[dc].items)
            && end.prices == b.prices + NewPriceRows(id, b.runs[id], b.baskets[dc].items)
            && |Candidates(end.prices, dc, k, end.runs)| == |Candidates(b.prices, dc, k, b.runs)| + 1
  {
    assert id in b.runs && b.runs[id].dataClass in b.baskets;
    hide *;
    var dc := b.runs[id].dataClass;
    StartFresh(b, id, stale);
    PricesAfter(b, id);
    EndItems(b, id, stale);
    NewDimensions(b.baskets[dc].items, k, b.runs[id]);
    CandidatesAfterPrices(b, id, k);
    DimensionsKept(b.baskets[dc].items, EndState(b, id).baskets[dc].items);
  }

  /** One more day collected and indexed adds its price to the candidates. */
  lemma OneMoreDay(db: Store, runs: seq<CollectionRun>, run: CollectionRun, k: nat, stale: set<PeriodKey>)
    requires Inv(db, stale) && k < 15 && Usable(run, run.dataClass, k) && Built(db, runs, run.dataClass, k)
    requires !PricedDay(runs, DayOf(run))
    ensures Built(Step(Step(db, Collect(|runs|, run)), Calculate(|runs|, 6)), runs + [run], run.dataClass, k)
  {
    hide *;
    var id, dc, b := |runs|, run.dataClass, Start(db, |runs|, run);
    UsableParts(run, dc, k);
    StartParts(db, runs, run, k);
    StartRuns(db, runs, run, dc, k);
    StartInv(db, runs, run, k, stale);
    StartFresh(b, id, stale);
    CollectStep(db, id, run);
    CalculateStep(db, id, run);
    AfterStart(b, id, k, stale);
    var end := EndState(b, id);
    forall day | OnDay(end.prices, dc, day) != []
      ensures PricedDay(runs + [run], day)
    {
      DaysAfter(db.prices, runs, run, id, b.baskets[dc].items, dc, day);
    }
    Rebuilt(end, runs, run, k);
  }

  // ---------------------------------------------------------------------------------------------
  // The whole history

  lemma HistoryIs(runs: seq<CollectionRun>)
    requires runs != []
    ensures var n := |runs| - 1;
            History(runs) == History(runs[..n]) + [Collect(n, runs[n])] + [Calculate(n, 6)]
  {
  }

  lemma HistoryStep(routes: set<Route>, runs: seq<CollectionRun>)
    requires runs != []
    ensures var n := |runs| - 1;
            Run(Empty(routes), History(runs))
              == Step(Step(Run(Empty(routes), History(runs[..n])), Collect(n, runs[n])), Calculate(n, 6))
  {
    hide *;
    var n := |runs| - 1;
    HistoryIs(runs);
    RunAppend(Empty(routes), History(runs[..n]), Collect(n, runs[n]));
    RunAppend(Empty(routes), History(runs[..n]) + [Collect(n, runs[n])], Calculate(n, 6));
  }

  lemma EmptyBuilt(routes: set<Route>, dc: DataClass, k: nat)
    requires DEL_BOM in routes && DEL_BLR in routes && BOM_BLR in routes
    ensures Built(Empty(routes), [], dc, k)
  {
  }

  lemma LastDay(runs: seq<CollectionRun>, dc: DataClass, k: nat)
    requires k < 15 && runs != [] && UsableDays(runs, dc, k)
    ensures var n := |runs| - 1;
            && UsableDays(runs[..n], dc, k) && Usable(runs[n], dc, k) && runs[n].dataClass == dc
            && !PricedDay(runs[..n], DayOf(runs[n])) && runs == runs[..n] + [runs[n]]
  {
    hide DayOf, Feeds, Finished, PositiveFares, Versions;
  }

  lemma {:induction false} HistoryBuilds(routes: set<Route>, runs: seq<CollectionRun>, dc: DataClass, k: nat)
    requires DEL_BOM in routes && DEL_BLR in routes && BOM_BLR in routes
    requires k < 15 && UsableDays(runs, dc, k)
    ensures Built(Run(Empty(routes), History(runs)), runs, dc, k)
    decreases |runs|
  {
    hide Built, Usable, UsableDays, PricedDay, Step, Run, Empty, DayOf;
    if runs == [] {
      EmptyBuilt(routes, dc, k);
      NoHistory(routes);
    } else {
      var n := |runs| - 1;
      LastDay(runs, dc, k);
      HistoryBuilds(routes, runs[..n], dc, k);
      HistoryStep(routes, runs);
      EmptyInv(routes);
      RunKeepsInv(Empty(routes), History(runs[..n]), {});
      OneMoreDay(Run(Empty(routes), History(runs[..n])), runs[..n], runs[n], k,
                 StaleAfterRun(Empty(routes), History(runs[..n]), {}));
    }
  }

  lemma NoHistory(routes: set<Route>)
    ensures Run(Empty(routes), History([])) == Empty(routes)
  {
  }

  /** States at risk are reached in the ordinary course: after seven usable days (six, if the price of the
      next day may itself enter the base), any finished run of one method version on a new date that has a
      half-paisa median on the item. */
  lemma NaturalRiskIsReached(routes: set<Route>, runs: seq<CollectionRun>, last: CollectionRun, k: nat)
    requires DEL_BOM in routes && DEL_BLR in routes && BOM_BLR in routes
    requires k < 15 && UsableDays(runs, last.dataClass, k)
    requires Finished(last) && PositiveFares(last.fares) && |Versions(last.fares)| <= 1
    requires forall j :: 0 <= j < |runs| ==> DayOf(runs[j]) != DayOf(last)
    requires |runs| + (if Feeds(last, NewItem(k)) then 1 else 0) >= BASE_REQUIRED_DATES
    requires Fractional(ExactPrice(last, NewItem(k)))
    ensures AtRisk(Run(Empty(routes), History(runs) + [Collect(|runs|, last)]), |runs|)
  {
    NotPriced(runs, last);
    hide *;
    var db, id := Run(Empty(routes), History(runs)), |runs|;
    HistoryBuilds(routes, runs, last.dataClass, k);
    StartRuns(db, runs, last, last.dataClass, k);
    RunAppend(Empty(routes), History(runs), Collect(id, last));
    CollectStep(db, id, last);
    BuiltAtRisk(db, runs, last, k);
  }

  lemma NotPriced(runs: seq<CollectionRun>, last: CollectionRun)
    requires forall j :: 0 <= j < |runs| ==> DayOf(runs[j]) != DayOf(last)
    ensures !PricedDay(runs, DayOf(last))
  {
    hide DayOf;
  }

  lemma BuiltAtRisk(db: Store, runs: seq<CollectionRun>, last: CollectionRun, k: nat)
    requires k < 15 && Built(db, runs, last.dataClass, k) && |runs| !in db.runs && !PricedDay(runs, DayOf(last))
    requires Finished(last) && PositiveFares(last.fares) && |Versions(last.fares)| <= 1
    requires |runs| + (if Feeds(last, NewItem(k)) then 1 else 0) >= BASE_REQUIRED_DATES
    requires Fractional(ExactPrice(last, NewItem(k)))
    ensures AtRisk(db.(runs := db.runs[|runs| := last]), |runs|)
  {
    var next, id := db.(runs := db.runs[|runs| := last]), |runs|;
    var items := db.baskets[last.dataClass].items;
    NewDimensions(items, k, last);
    CollectKeepsCandidates(db.prices, last.dataClass, k, db.runs, id, last);
    hide Candidates, OnDay, DayOf, Feeds, ExactPrice, NewItem, Versions, Finished, PositiveFares, OfNewBasket, Whole,
         PricedDay;
    assert WillHaveBase(next, id, k);
  }
}
