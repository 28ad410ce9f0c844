/** Every price the database ever holds is the median of its own run's fares: `RouteWindowPrices` over all
    states the index engine can reach. */
module StoredPrices {
  import opened Options
  import opened Domain
  import opened Calendar
  import opened IndexModel
  import opened IndexBase
  import opened IndexView
  import opened IndexRecovery
  import opened IndexInvariant
  import opened IndexRuns
  import opened RouteWindowPrices
  import Medians

  /** A stored price belongs to a finished run of its class and day, and describes that run's fares on the
      route and window of its basket item. */
  ghost predicate FromItsRun(db: Store, row: PriceRow) {
    && row.run in db.runs && Finished(db.runs[row.run])
    && row.dataClass == db.runs[row.run].dataClass && row.day == Ordinal(db.runs[row.run].date)
    && row.dataClass in db.baskets && row.item < |db.baskets[row.dataClass].items|
    && Describes(row, db.runs[row.run], db.baskets[row.dataClass].items[row.item])
  }

  ghost predicate AllFromRuns(db: Store) {
    forall i :: 0 <= i < |db.prices| ==> FromItsRun(db, db.prices[i])
  }

  lemma SameItemDescribed(row: PriceRow, run: CollectionRun, a: BasketItem, b: BasketItem)
    requires Describes(row, run, a) && a.route == b.route && a.window == b.window
    ensures Describes(row, run, b)
  {
    assert PricedFares(run, a) == PricedFares(run, b);
    hide PricedFares, Medians.MedianOf, FareAt;
  }

  lemma KeptFromRun(db: Store, later: Store, row: PriceRow)
    requires Extends(db, later) && FromItsRun(db, row)
    ensures FromItsRun(later, row)
  {
    var dc, k := row.dataClass, row.item;
    assert BaseKept(db.baskets[dc].items, later.baskets[dc].items);
    hide Describes, DailyKept, Ordinal, Finished;
    SameItemDescribed(row, db.runs[row.run], db.baskets[dc].items[k], later.baskets[dc].items[k]);
  }

  lemma KeptAll(db: Store, later: Store)
    requires Extends(db, later) && AllFromRuns(db) && later.prices == db.prices
    ensures AllFromRuns(later)
  {
    hide Extends, FromItsRun;
    forall i | 0 <= i < |later.prices|
      ensures FromItsRun(later, later.prices[i])
    {
      KeptFromRun(db, later, db.prices[i]);
    }
  }

  lemma NewFromRun(db: Store, id: nat, k: nat)
    requires Ready(db, id) && k < |db.baskets[db.runs[id].dataClass].items|
    ensures FromItsRun(db, NewPriceRow(id, db.runs[id], db.baskets[db.runs[id].dataClass].items, k))
  {
    NewRowDescribes(id, db.runs[id], db.baskets[db.runs[id].dataClass].items, k);
    hide Describes, PositiveFares, Finished, Stored, MatchingFares;
  }

  lemma AggregationFromRuns(db: Store, id: nat)
    requires AllFromRuns(db) && Ready(db, id) && WithPrices(db, id).Ok?
    ensures AllFromRuns(WithPrices(db, id).value.store) && Extends(db, WithPrices(db, id).value.store)
  {
    var next := WithPrices(db, id).value.store;
    if WithPrices(db, id).value.memory.Fresh? {
      FreshPricesFromRuns(db, id);
    } else {
      assert next == db;
      SameBaskets(db, db);
    }
    hide *;
  }

  lemma FreshPricesFromRuns(db: Store, id: nat)
    requires AllFromRuns(db) && Ready(db, id) && WithPrices(db, id).Ok? && WithPrices(db, id).value.memory.Fresh?
    ensures AllFromRuns(WithPrices(db, id).value.store) && Extends(db, WithPrices(db, id).value.store)
  {
    var run, next := db.runs[id], WithPrices(db, id).value.store;
    var items := db.baskets[run.dataClass].items;
    FreshStore(db, id);
    assert next.runs == db.runs && next.daily == db.daily;
    SameBaskets(db, next);
    assert Ready(next, id);
    hide WithPrices, Extends, FromItsRun, Ready, OnDay, DayOf, NewPriceRow;
    forall i: nat | i < |next.prices|
      ensures FromItsRun(next, next.prices[i])
    {
      if i < |db.prices| {
        KeptFromRun(db, next, db.prices[i]);
      } else {
        NewFromRun(next, id, i - |db.prices|);
      }
    }
  }

  lemma FreezeCommitsFromRuns(db: Store, id: nat, memory: Memory, x: Store)
    requires AllFromRuns(db) && Ready(db, id) && x in FromFreeze(db, id, memory).commits
    ensures AllFromRuns(x)
  {
    EndKeepsBasket(db, id, memory);
    FreezeCommitsExtend(db, id, memory, x);
    hide FromFreeze, Frozen, Extends, AllFromRuns;
    KeptAll(db, x);
  }

  lemma PricedCommitsFromRuns(db: Store, id: nat, x: Store)
    requires AllFromRuns(db) && Ready(db, id) && x in CallFor(db, id).commits
    ensures AllFromRuns(x)
  {
    PricedOutcome(db, id);
    assert WithPrices(db, id).Ok?;
    var priced := WithPrices(db, id).value;
    AggregationFromRuns(db, id);
    if priced.memory.Fresh? {
      FreshCall(db, id);
      hide FromFreeze, CallFor, FromPrices, WithPrices, AllFromRuns, OnDay, DayOf, MemoryFits;
      if x != priced.store {
        FreezeCommitsFromRuns(priced.store, id, priced.memory, x);
      }
    } else {
      assert WithPrices(db, id) == Ok(Priced(db, Forgotten));
      ResumeWithoutDaily(db, id);
      hide FromFreeze, CallFor, FromPrices, WithPrices, AllFromRuns;
      FreezeCommitsFromRuns(db, id, Forgotten, x);
    }
  }

  lemma CommitsFromRuns(db: Store, id: nat, x: Store)
    requires AllFromRuns(db) && RunsOk(db) && x in CallFor(db, id).commits
    ensures AllFromRuns(x)
  {
    assert id in db.runs && Finished(db.runs[id]);
    var dc := db.runs[id].dataClass;
    hide CallFor, AllFromRuns, WithBasket;
    if dc in db.baskets {
      PricedCommitsFromRuns(db, id, x);
    } else {
      var next := WithBasket(db, dc);
      CreatesBasket(db, id);
      BasketExtends(db, dc);
      KeptAll(db, next);
      if x != next {
        PricedCommitsFromRuns(next, id, x);
      }
    }
  }

  lemma OtherStepsKeepPrices(db: Store, op: Op)
    requires !op.Calculate?
    ensures Step(db, op).prices == db.prices
  {
    hide Seeded, Recomputed, PositiveFares, KeyFor;
  }

  lemma StepFromRuns(db: Store, op: Op, stale: set<PeriodKey>)
    requires Inv(db, stale) && AllFromRuns(db)
    ensures AllFromRuns(Step(db, op))
  {
    var next := Step(db, op);
    if op.Calculate? {
      var call := CallFor(db, op.id);
      hide CallFor, AllFromRuns, BasketsOk, PricesOk, DailyOk, ViewAgrees;
      assert next == db || next in call.commits;
      if next != db {
        CommitsFromRuns(db, op.id, next);
      }
    } else {
      StepExtends(db, op, stale);
      OtherStepsKeepPrices(db, op);
      hide *;
      KeptAll(db, next);
    }
  }

  lemma {:induction false} RunFromRuns(db: Store, ops: seq<Op>, stale: set<PeriodKey>)
    requires Inv(db, stale) && AllFromRuns(db)
    ensures AllFromRuns(Run(db, ops))
  {
    hide Inv, Step, AllFromRuns, StaleAfter;
    if ops != [] {
      var head := ops[..|ops| - 1];
      RunFromRuns(db, head, stale);
      RunKeepsInv(db, head, stale);
      StepFromRuns(Run(db, head), ops[|ops| - 1], StaleAfterRun(db, head, stale));
    }
  }

  /** Whatever is collected, calculated, killed, seeded or refreshed from an empty database on, every stored
      price is the median of the economy rupee fares of its own run on its item's route and window. */
  lemma StoredPricesAreMedians(routes: set<Route>, ops: seq<Op>)
    ensures AllFromRuns(Run(Empty(routes), ops))
  {
    EmptyInv(routes);
    hide Inv, Run;
    RunFromRuns(Empty(routes), ops, {});
  }
}
