/** The base period of a basket: unlike its base prices, its dates are not written once.  A freeze and
    everything an index calculation does leave them alone when they are set; a second seeding does not. */
module BaseDates {
  import opened Options
  import opened Domain
  import opened IndexModel
  import opened IndexBase
  import opened IndexRecovery
  import opened IndexInvariant
  import opened IndexRuns
  import opened IndexView
  import opened Periods
  import Rounding

  predicate SameDates(before: Basket, later: Basket) {
    later.baseStart == before.baseStart && later.baseEnd == before.baseEnd
  }

  /** Every basket that has its base period keeps it. */
  ghost predicate DatesKept(before: Store, later: Store) {
    forall dc :: dc in before.baskets && before.baskets[dc].baseEnd.Some? ==>
      dc in later.baskets && SameDates(before.baskets[dc], later.baskets[dc])
  }

  // ---------------------------------------------------------------------------------------------
  // Seeding twice

  /** After an accepted seeding the next one is accepted exactly with the stored bases as its prices; it
      then changes nothing but the dates, and those exactly when its day is another one. */
  lemma SeedingAgain(basket: Basket, prices: seq<real>, day: int, again: seq<real>, later: int)
    requires Seeded(basket, prices, day).Ok?
    ensures var once := Seeded(basket, prices, day).value;
            && (Seeded(once, again, later).Ok? <==>
                |again| == |prices| && forall k :: 0 <= k < |prices| ==>
                  again[k] == Rounding.HalfAway(prices[k]) as real)
            && (Seeded(once, again, later).Ok? ==>
                var twice := Seeded(once, again, later).value;
                && twice == once.(baseStart := Some(later), baseEnd := Some(later))
                && (SameDates(once, twice) <==> later == day))
  {
    var once := Seeded(basket, prices, day).value;
    SeededParts(basket, prices, day);
    if Seeded(once, again, later).Ok? {
      SeededParts(once, again, later);
      SeededStored(once, again, later);
      SameItems(once.items, Seeded(once, again, later).value.items, again);
    } else if |again| == |prices|
              && forall k :: 0 <= k < |prices| ==> again[k] == Rounding.HalfAway(prices[k]) as real {
      AcceptsStored(once, again, later);
    }
    hide Seeded, SeededItem, Rounding.HalfAway;
  }

  lemma SeededParts(basket: Basket, prices: seq<real>, day: int)
    requires Seeded(basket, prices, day).Ok?
    ensures var next := Seeded(basket, prices, day).value;
            && next.policy == SEEDED_FIXED && next.baseStart == Some(day) && next.baseEnd == Some(day)
            && |next.items| == |prices| == |basket.items|
            && forall k :: 0 <= k < |prices| ==>
                 next.items[k] == SeededItem(basket.items[k], prices[k]) && Rounding.HalfAway(prices[k]) > 0
                 && next.items[k].base == Some(Rounding.HalfAway(prices[k])) && next.items[k].components == []
  {
    hide Rounding.HalfAway;
  }

  /** An accepted price of an item that has its base is that base. */
  lemma SeededStored(basket: Basket, prices: seq<real>, day: int)
    requires Seeded(basket, prices, day).Ok?
    ensures |basket.items| == |prices|
    ensures forall k :: 0 <= k < |prices| && basket.items[k].base.Some? ==>
              basket.items[k].base.value as real == prices[k]
  {
    hide Rounding.HalfAway, SeededItem;
  }

  lemma SameItems(items: seq<BasketItem>, next: seq<BasketItem>, prices: seq<real>)
    requires |items| == |next| == |prices|
    requires forall k :: 0 <= k < |items| ==>
               && items[k].components == [] && items[k].base.Some?
               && items[k].base.value as real == prices[k] && next[k] == SeededItem(items[k], prices[k])
    ensures next == items
  {
    forall k | 0 <= k < |items|
      ensures next[k] == items[k]
    {
      Rounding.HalfAwayFixesIntegers(items[k].base.value);
    }
    hide Rounding.HalfAway;
  }

  lemma AcceptsStored(basket: Basket, prices: seq<real>, day: int)
    requires basket.policy == SEEDED_FIXED && |basket.items| == |prices|
    requires forall k :: 0 <= k < |prices| ==>
               basket.items[k].base.Some? && basket.items[k].base.value > 0
               && prices[k] == basket.items[k].base.value as real
    ensures Seeded(basket, prices, day).Ok?
  {
    forall k | 0 <= k < |prices|
      ensures Rounding.HalfAway(prices[k]) == basket.items[k].base.value
    {
      Rounding.HalfAwayFixesIntegers(basket.items[k].base.value);
    }
    hide Rounding.HalfAway, SeededItem;
  }

  // ---------------------------------------------------------------------------------------------
  // Everything else

  /** A freeze never moves a base period that is set. */
  lemma FreezeKeepsDates(db: Store, dc: DataClass, memory: Memory, later: Store)
    requires dc in db.baskets && later.baskets == Frozen(db, dc, memory).baskets
    ensures DatesKept(db, later)
  {
    hide FrozenItems, Complete, AllComponents;
  }

  lemma SameBasketsKeepDates(db: Store, mid: Store, later: Store)
    requires DatesKept(mid, later) && forall dc :: dc in db.baskets ==>
               dc in mid.baskets && mid.baskets[dc] == db.baskets[dc]
    ensures DatesKept(db, later)
  {
    hide SameDates;
  }

  lemma FromFreezeKeepsDates(db: Store, id: nat, memory: Memory, x: Store)
    requires Ready(db, id) && x in FromFreeze(db, id, memory).commits
    ensures DatesKept(db, x)
  {
    assert id in db.runs && db.runs[id].dataClass in db.baskets;
    EndKeepsBasket(db, id, memory);
    hide *;
    FreezeKeepsDates(db, db.runs[id].dataClass, memory, x);
  }

  lemma PricedKeepsDates(db: Store, id: nat, x: Store)
    requires Ready(db, id) && x in CallFor(db, id).commits
    ensures DatesKept(db, x)
  {
    assert WithPrices(db, id).Err? ==> CallFor(db, id).commits == [];
    PricedOutcome(db, id);
    if WithPrices(db, id).value.memory.Fresh? {
      var priced := WithPrices(db, id).value;
      FreshCall(db, id);
      SameBasketsKeepDates(db, priced.store, priced.store) by {
        KeepsOwnDates(priced.store);
      }
      if x != priced.store {
        assert x in FromFreeze(priced.store, id, priced.memory).commits by {
          hide *;
        }
        hide *;
        FromFreezeKeepsDates(priced.store, id, priced.memory, x);
        SameBasketsKeepDates(db, priced.store, x);
      }
    } else {
      assert WithPrices(db, id) == Ok(Priced(db, Forgotten));
      ResumeWithoutDaily(db, id);
      FromFreezeKeepsDates(db, id, Forgotten, x);
    }
    hide *;
  }

  lemma KeepsOwnDates(db: Store)
    ensures DatesKept(db, db)
  {
  }

  lemma CommitsKeepDates(db: Store, id: nat, x: Store)
    requires RunsOk(db) && x in CallFor(db, id).commits
    ensures DatesKept(db, x)
  {
    assert id in db.runs && Finished(db.runs[id]);
    var dc := db.runs[id].dataClass;
    if dc in db.baskets {
      hide CallFor, DatesKept;
      PricedKeepsDates(db, id, x);
    } else {
      var next := WithBasket(db, dc);
      CreatesBasket(db, id);
      KeepsOwnDates(next);
      assert forall c :: c in db.baskets ==> c in next.baskets && next.baskets[c] == db.baskets[c];
      hide CallFor, DatesKept, WithBasket;
      if x != next {
        PricedKeepsDates(next, id, x);
      }
      SameBasketsKeepDates(db, next, x);
    }
  }

  /** An accepted seeding of the basket under another date than the one it has. */
  predicate MovesDates(db: Store, dc: DataClass, op: Op)
    requires dc in db.baskets
  {
    && op.Seed? && op.dataClass == dc && Seeded(db.baskets[dc], op.prices, op.day).Ok?
    && !(db.baskets[dc].baseStart == db.baskets[dc].baseEnd == Some(op.day))
  }

  lemma KeptAt(db: Store, later: Store, dc: DataClass)
    requires DatesKept(db, later) && dc in db.baskets && db.baskets[dc].baseEnd.Some?
    ensures dc in later.baskets && SameDates(db.baskets[dc], later.baskets[dc])
  {
  }

  lemma CalculateKeepsDates(db: Store, id: nat, cut: nat, stale: set<PeriodKey>)
    requires Inv(db, stale)
    ensures DatesKept(db, Step(db, Calculate(id, cut)))
  {
    var next := AfterCommits(db, CallFor(db, id), cut);
    InvParts(db, stale);
    KeepsOwnDates(db);
    assert Step(db, Calculate(id, cut)) == next;
    hide DatesKept, Inv, CallFor;
    if next != db {
      assert next in CallFor(db, id).commits;
      CommitsKeepDates(db, id, next);
    }
  }

  lemma SeedMovesDates(db: Store, op: Op, dc: DataClass)
    requires op.Seed? && dc in db.baskets && db.baskets[dc].baseEnd.Some?
    ensures dc in Step(db, op).baskets
    ensures !SameDates(db.baskets[dc], Step(db, op).baskets[dc]) <==> MovesDates(db, dc, op)
  {
    if op.dataClass in db.baskets && Seeded(db.baskets[op.dataClass], op.prices, op.day).Ok? {
      SeededParts(db.baskets[op.dataClass], op.prices, op.day);
    }
    hide Seeded;
  }

  lemma OtherKeepsBaskets(db: Store, op: Op)
    requires op.Collect? || op.Refresh?
    ensures Step(db, op).baskets == db.baskets
  {
    hide Recomputed, CallFor;
  }

  lemma NotSeeding(db: Store, dc: DataClass, op: Op)
    requires !op.Seed? && dc in db.baskets
    ensures !MovesDates(db, dc, op)
  {
  }

  /** The one operation that moves a base period once it is set, killed calculations included. */
  lemma StepMovesDates(db: Store, op: Op, dc: DataClass, stale: set<PeriodKey>)
    requires Inv(db, stale) && dc in db.baskets && db.baskets[dc].baseEnd.Some?
    ensures dc in Step(db, op).baskets
    ensures !SameDates(db.baskets[dc], Step(db, op).baskets[dc]) <==> MovesDates(db, dc, op)
  {
    hide *;
    match op {
      case Calculate(id, cut) =>
        CalculateKeepsDates(db, id, cut, stale);
        NotSeeding(db, dc, op);
        KeptAt(db, Step(db, op), dc);
      case Seed(_, _, _) => SeedMovesDates(db, op, dc);
      case _ =>
        OtherKeepsBaskets(db, op);
        NotSeeding(db, dc, op);
        KeepsOwnDates(db);
        KeptAt(db, db, dc);
    }
  }
}
