/** What the components of a stored daily index quote: the stored prices of its own day and run and the frozen
    bases of its basket, in every state the index engine can reach. */
module StoredComponents {
  import opened Options
  import opened Domain
  import opened Calendar
  import opened Methodology
  import opened Periods
  import opened IndexModel
  import opened IndexBase
  import opened IndexView
  import opened IndexRecovery
  import opened IndexInvariant
  import opened IndexRuns
  import StoredRoutes
  import Rounding

  // ---------------------------------------------------------------------------------------------
  // What a component quotes

  function InPaise(price: Option<int>): Option<real> {
    if price.None? then None else Some(price.value as real)
  }

  /** The price row of item `k` on the day of an index. */
  predicate PriceOf(p: PriceRow, key: DayKey, run: nat, k: nat) {
    p.dataClass == key.dataClass && p.day == key.day && p.run == run && p.item == k
  }

  /** A component quotes the stored price of its item on its day, missing when that is, at the item's weight; a
      base it quotes is the one the item still has. */
  ghost predicate QuotesItem(prices: seq<PriceRow>, item: BasketItem, key: DayKey, run: nat, k: nat, i: Input) {
    && i.id == k && i.weight == item.weight
    && (exists n :: 0 <= n < |prices| && PriceOf(prices[n], key, run, k) && i.current == InPaise(prices[n].price))
    && (i.base.Some? ==> item.base.Some? && i.base.value == item.base.value as real)
  }

  ghost predicate Quotes(prices: seq<PriceRow>, items: seq<BasketItem>, key: DayKey, row: DailyIndex) {
    && |row.components| == |items|
    && forall k: nat :: k < |items| ==> QuotesItem(prices, items[k], key, row.run, k, row.components[k].input)
  }

  ghost predicate AllQuote(db: Store) {
    forall key :: key in db.daily ==>
      key.dataClass in db.baskets && Quotes(db.prices, db.baskets[key.dataClass].items, key, db.daily[key])
  }

  // ---------------------------------------------------------------------------------------------
  // A new row

  lemma {:induction false} FindsPrice(rows: seq<PriceRow>, k: nat)
    requires exists n :: 0 <= n < |rows| && rows[n].item == k
    ensures FindPrice(rows, k).Some? && FindPrice(rows, k).value in rows && FindPrice(rows, k).value.item == k
  {
    var n :| 0 <= n < |rows| && rows[n].item == k;
    if n < |rows| - 1 && rows[|rows| - 1].item != k {
      assert rows[..|rows| - 1][n].item == k;
      FindsPrice(rows[..|rows| - 1], k);
    }
  }

  /** The price row of an item of a run whose prices are there. */
  lemma PriceThere(db: Store, id: nat, k: nat) returns (row: PriceRow)
    requires id in db.runs && db.runs[id].dataClass in db.baskets && PricedState(db, id)
    requires DayOk(db, db.runs[id].dataClass, DayOf(db.runs[id]))
    requires k < |db.baskets[db.runs[id].dataClass].items|
    ensures var dc, day := db.runs[id].dataClass, DayOf(db.runs[id]);
            && FindPrice(OnDay(db.prices, dc, day), k) == Some(row)
            && row in db.prices && PriceOf(row, DayKey(dc, day), id, k)
  {
    var dc, day := db.runs[id].dataClass, DayOf(db.runs[id]);
    var rows := OnDay(db.prices, dc, day);
    InOnDay(db.prices, dc, day);
    assert rows != [] && |rows| == |db.baskets[dc].items| && forall i :: 0 <= i < |rows| ==> rows[i].run == id;
    hide OnDay, DayOf, WithPrices;
    assert rows[k].item == k;
    FindsPrice(rows, k);
    row := FindPrice(rows, k).value;
    var n :| 0 <= n < |rows| && rows[n] == row;
    hide FindPrice;
  }

  function Rounded(price: Option<real>): Option<real> {
    if price.None? then None else Some(Rounding.HalfAway(price.value) as real)
  }

  /** Rounding what the session holds gives what the column holds. */
  lemma ReadIsStored(prices: seq<PriceRow>, row: PriceRow, memory: Memory)
    requires MemoryFits(prices, memory) && row in prices
    ensures Rounded(ReadPrice(row, memory)) == InPaise(row.price)
  {
    if row.price.Some? {
      Rounding.HalfAwayFixesIntegers(row.price.value);
    }
    hide Rounding.HalfAway;
  }

  lemma ComponentInput(id: nat, run: CollectionRun, inputs: seq<Input>, complete: bool, k: nat)
    requires PositiveWeights(inputs) && k < |inputs|
    ensures var row := DailyRow(id, run, ResultOf(inputs, complete, MINIMUM_PERCENT));
            && |row.components| == |inputs|
            && row.components[k].input == inputs[k].(current := Rounded(inputs[k].current))
  {
    SomeAvailable(inputs, k);
    hide Coverage, CalculatedValue, OnlyVersion, AvailableWeight, Rounding.HalfAway, Relative, Contribution;
  }

  lemma InputIs(item: BasketItem, k: nat, rows: seq<PriceRow>, memory: Memory)
    ensures var i, row := InputFor(item, k, rows, memory), FindPrice(rows, k);
            && i.id == k && i.weight == item.weight
            && (row.Some? ==> i.current == ReadPrice(row.value, memory))
            && (i.base.Some? ==> item.base.Some? && i.base.value == item.base.value as real)
  {
    hide FindPrice, ReadPrice;
  }

  lemma NewComponentQuotes(db: Store, id: nat, memory: Memory, k: nat)
    requires id in db.runs && db.runs[id].dataClass in db.baskets && DailyFor(db, id, memory).Ok?
    requires PricedState(db, id) && MemoryFits(db.prices, memory)
    requires DayOk(db, db.runs[id].dataClass, DayOf(db.runs[id]))
    requires k < |db.baskets[db.runs[id].dataClass].items|
    ensures var run := db.runs[id];
            var items, row := db.baskets[run.dataClass].items, DailyFor(db, id, memory).value;
            && |row.components| == |items|
            && QuotesItem(db.prices, items[k], DayKey(run.dataClass, DayOf(run)), id, k, row.components[k].input)
  {
    var run := db.runs[id];
    var items := db.baskets[run.dataClass].items;
    var rows := OnDay(db.prices, run.dataClass, DayOf(run));
    var inputs := InputsFor(items, rows, memory);
    DailyForInputs(db, id, memory);
    var price := PriceThere(db, id, k);
    assert inputs[k] == InputFor(items[k], k, rows, memory);
    hide *;
    ComponentInput(id, run, inputs, Complete(items), k);
    InputIs(items[k], k, rows, memory);
    ReadIsStored(db.prices, price, memory);
    QuotesFrom(db.prices, items[k], DayKey(run.dataClass, DayOf(run)), id, k, inputs[k], price);
  }

  lemma QuotesFrom(prices: seq<PriceRow>, item: BasketItem, key: DayKey, run: nat, k: nat, i: Input, price: PriceRow)
    requires price in prices && PriceOf(price, key, run, k) && Rounded(i.current) == InPaise(price.price)
    requires i.id == k && i.weight == item.weight
    requires i.base.Some? ==> item.base.Some? && i.base.value == item.base.value as real
    ensures QuotesItem(prices, item, key, run, k, i.(current := Rounded(i.current)))
  {
    var n :| 0 <= n < |prices| && prices[n] == price;
    hide Rounded, InPaise, PriceOf;
  }

  lemma NewRowQuotes(db: Store, id: nat, memory: Memory)
    requires id in db.runs && db.runs[id].dataClass in db.baskets && DailyFor(db, id, memory).Ok?
    requires PricedState(db, id) && MemoryFits(db.prices, memory)
    requires DayOk(db, db.runs[id].dataClass, DayOf(db.runs[id]))
    ensures var run := db.runs[id];
            Quotes(db.prices, db.baskets[run.dataClass].items, DayKey(run.dataClass, DayOf(run)),
                   DailyFor(db, id, memory).value)
  {
    var run := db.runs[id];
    var items := db.baskets[run.dataClass].items;
    DailyRowRun(db, id, memory);
    RowSize(db, id, memory);
    hide DailyFor, PricedState, MemoryFits, DayOk, DayOf, QuotesItem;
    forall k: nat | k < |items|
      ensures QuotesItem(db.prices, items[k], DayKey(run.dataClass, DayOf(run)), id, k,
                         DailyFor(db, id, memory).value.components[k].input)
    {
      NewComponentQuotes(db, id, memory, k);
    }
  }

  lemma RowSize(db: Store, id: nat, memory: Memory)
    requires id in db.runs && db.runs[id].dataClass in db.baskets && DailyFor(db, id, memory).Ok?
    ensures |DailyFor(db, id, memory).value.components| == |db.baskets[db.runs[id].dataClass].items|
  {
    DailyForInputs(db, id, memory);
    hide DailyFor, OnDay, DayOf, Complete, OnlyVersion, Coverage, CalculatedValue, InputFor;
  }

  // ---------------------------------------------------------------------------------------------
  // Kept by every later state

  lemma QuoteKept(prices: seq<PriceRow>, later: seq<PriceRow>, a: BasketItem, b: BasketItem, key: DayKey, run: nat,
                  k: nat, i: Input)
    requires prices <= later && QuotesItem(prices, a, key, run, k, i)
    requires b.weight == a.weight && (a.base.Some? ==> b.base == a.base)
    ensures QuotesItem(later, b, key, run, k, i)
  {
    var n :| 0 <= n < |prices| && PriceOf(prices[n], key, run, k) && i.current == InPaise(prices[n].price);
    assert later[n] == prices[n];
    hide PriceOf, InPaise;
  }

  lemma QuotesKept(prices: seq<PriceRow>, later: seq<PriceRow>, items: seq<BasketItem>, kept: seq<BasketItem>,
                   key: DayKey, row: DailyIndex)
    requires prices <= later && BaseKept(items, kept) && Quotes(prices, items, key, row)
    ensures Quotes(later, kept, key, row)
  {
    hide QuotesItem;
    forall k: nat | k < |kept|
      ensures QuotesItem(later, kept[k], key, row.run, k, row.components[k].input)
    {
      QuoteKept(prices, later, items[k], kept[k], key, row.run, k, row.components[k].input);
    }
  }

  lemma RowKept(db: Store, later: Store, key: DayKey)
    requires AllQuote(db) && Extends(db, later) && key in db.daily
    ensures key in later.daily && key.dataClass in later.baskets
    ensures Quotes(later.prices, later.baskets[key.dataClass].items, key, later.daily[key])
  {
    var dc := key.dataClass;
    assert dc in db.baskets && BaseKept(db.baskets[dc].items, later.baskets[dc].items);
    hide Quotes, BaseKept, Finished;
    QuotesKept(db.prices, later.prices, db.baskets[dc].items, later.baskets[dc].items, key, db.daily[key]);
  }

  lemma KeptAll(db: Store, later: Store)
    requires AllQuote(db) && Extends(db, later) && later.daily == db.daily
    ensures AllQuote(later)
  {
    hide Extends, Quotes;
    forall key | key in later.daily
      ensures key.dataClass in later.baskets
              && Quotes(later.prices, later.baskets[key.dataClass].items, key, later.daily[key])
    {
      RowKept(db, later, key);
    }
  }

  // ---------------------------------------------------------------------------------------------
  // Every operation

  /** A state whose prices for the run are there and in order. */
  ghost predicate PricedInOrder(db: Store, id: nat) {
    Ready(db, id) && PricedState(db, id) && DayOk(db, db.runs[id].dataClass, DayOf(db.runs[id]))
  }

  lemma SameDayFrozen(db: Store, id: nat, memory: Memory)
    requires PricedInOrder(db, id) && MemoryFits(db.prices, memory)
    ensures var frozen := Frozen(db, db.runs[id].dataClass, memory);
            && id in frozen.runs && frozen.runs[id] == db.runs[id] && db.runs[id].dataClass in frozen.baskets
            && frozen.prices == db.prices && PricedState(frozen, id)
            && DayOk(frozen, db.runs[id].dataClass, DayOf(db.runs[id]))
  {
    var dc := db.runs[id].dataClass;
    var frozen := Frozen(db, dc, memory);
    FrozenParts(db, dc, memory);
    FrozenKeepsBase(db, dc, memory);
    SettledState(db, id, memory, frozen);
    hide Frozen, WithPrices, MemoryFits, OnDay, DayOf;
    FrozenSize(db, dc, memory);
  }

  lemma FrozenSize(db: Store, dc: DataClass, memory: Memory)
    requires dc in db.baskets
    ensures var frozen := Frozen(db, dc, memory);
            dc in frozen.baskets && |frozen.baskets[dc].items| == |db.baskets[dc].items|
  {
    FrozenKeepsBase(db, dc, memory);
    hide Frozen;
  }

  lemma AddedQuotes(db: Store, id: nat, memory: Memory, x: Store, k: DayKey)
    requires PricedInOrder(db, id) && MemoryFits(db.prices, memory)
    requires x in FromFreeze(db, id, memory).commits && k in x.daily && k !in db.daily
    ensures k.dataClass in x.baskets && Quotes(x.prices, x.baskets[k.dataClass].items, k, x.daily[k])
  {
    var frozen := Frozen(db, db.runs[id].dataClass, memory);
    SameDayFrozen(db, id, memory);
    EndKeepsBasket(db, id, memory);
    StoredRoutes.AddedRow(db, id, memory, x, k);
    assert k == DayKey(db.runs[id].dataClass, DayOf(db.runs[id]));
    hide FromFreeze, Frozen, DailyFor, Quotes, PricedState, MemoryFits, DayOk, DayOf;
    NewRowQuotes(frozen, id, memory);
  }

  lemma FreezeCommitsQuote(db: Store, id: nat, memory: Memory, x: Store)
    requires AllQuote(db) && PricedInOrder(db, id) && MemoryFits(db.prices, memory)
    requires x in FromFreeze(db, id, memory).commits
    ensures AllQuote(x)
  {
    assert Ready(db, id);
    FreezeCommitsExtend(db, id, memory, x);
    hide FromFreeze, Quotes, PricedInOrder, MemoryFits, Extends;
    forall k | k in x.daily
      ensures k.dataClass in x.baskets && Quotes(x.prices, x.baskets[k.dataClass].items, k, x.daily[k])
    {
      if k in db.daily {
        RowKept(db, x, k);
      } else {
        AddedQuotes(db, id, memory, x, k);
      }
    }
  }

  /** Price aggregation leaves the run's prices in order. */
  lemma PricesInOrder(db: Store, id: nat, stale: set<PeriodKey>)
    requires Inv(db, stale) && Ready(db, id) && WithPrices(db, id).Ok?
    ensures var priced := WithPrices(db, id).value;
            && PricedInOrder(priced.store, id) && MemoryFits(priced.store.prices, priced.memory)
            && Extends(db, priced.store) && priced.store.daily == db.daily
  {
    var priced := WithPrices(db, id).value;
    PricedOutcome(db, id);
    PricesKeepInv(db, id, stale);
    MemoryAfterPrices(db, id);
    if priced.memory.Fresh? {
      FreshCall(db, id);
      FreshStore(db, id);
    } else {
      assert WithPrices(db, id) == Ok(Priced(db, Forgotten));
    }
    DaysInOrder(priced.store, stale, db.runs[id].dataClass, DayOf(db.runs[id]));
    hide WithPrices, OnDay, DayOf, NewPriceRows, FromFreeze, CallFor, FromPrices, MemoryFits, DayOk, Inv;
    SameBaskets(db, priced.store);
  }

  lemma DaysInOrder(db: Store, stale: set<PeriodKey>, dc: DataClass, day: int)
    requires Inv(db, stale)
    ensures DayOk(db, dc, day)
  {
  }

  lemma PricedCommitsQuote(db: Store, id: nat, x: Store, stale: set<PeriodKey>)
    requires AllQuote(db) && Inv(db, stale) && Ready(db, id) && x in CallFor(db, id).commits
    ensures AllQuote(x)
  {
    PricedOutcome(db, id);
    assert WithPrices(db, id).Ok?;
    var priced := WithPrices(db, id).value;
    PricesInOrder(db, id, stale);
    KeptAll(db, priced.store);
    if priced.memory.Fresh? {
      FreshCall(db, id);
      hide FromFreeze, CallFor, FromPrices, WithPrices, AllQuote, OnDay, DayOf, MemoryFits, PricedInOrder;
      if x != priced.store {
        FreezeCommitsQuote(priced.store, id, priced.memory, x);
      }
    } else {
      assert WithPrices(db, id) == Ok(Priced(db, Forgotten));
      ResumeWithoutDaily(db, id);
      hide FromFreeze, CallFor, FromPrices, WithPrices, AllQuote, MemoryFits, PricedInOrder;
      FreezeCommitsQuote(db, id, Forgotten, x);
    }
  }

  lemma CommitsQuote(db: Store, id: nat, x: Store, stale: set<PeriodKey>)
    requires AllQuote(db) && Inv(db, stale) && x in CallFor(db, id).commits
    ensures AllQuote(x)
  {
    assert id in db.runs && Finished(db.runs[id]);
    var dc := db.runs[id].dataClass;
    hide CallFor, AllQuote, WithBasket, BasketsOk, PricesOk, DailyOk, ViewAgrees;
    if dc in db.baskets {
      PricedCommitsQuote(db, id, x, stale);
    } else {
      var next := WithBasket(db, dc);
      CreatesBasket(db, id);
      BasketExtends(db, dc);
      BasketKeepsInv(db, dc, stale);
      SameDaily(db, dc);
      KeptAll(db, next);
      if x != next {
        PricedCommitsQuote(next, id, x, stale);
      }
    }
  }

  lemma SameDaily(db: Store, dc: DataClass)
    ensures WithBasket(db, dc).daily == db.daily
  {
  }

  lemma StepQuotes(db: Store, op: Op, stale: set<PeriodKey>)
    requires Inv(db, stale) && AllQuote(db)
    ensures AllQuote(Step(db, op))
  {
    var next := Step(db, op);
    if op.Calculate? {
      var call := CallFor(db, op.id);
      hide CallFor, AllQuote, Inv;
      assert next == db || next in call.commits;
      if next != db {
        CommitsQuote(db, op.id, next, stale);
      }
    } else {
      StepExtends(db, op, stale);
      StoredRoutes.OtherStepsKeepRows(db, op);
      hide *;
      KeptAll(db, next);
    }
  }

  lemma {:induction false} RunQuotes(db: Store, ops: seq<Op>, stale: set<PeriodKey>)
    requires Inv(db, stale) && AllQuote(db)
    ensures AllQuote(Run(db, ops))
  {
    hide Inv, Step, AllQuote, StaleAfter;
    if ops != [] {
      var head := ops[..|ops| - 1];
      RunQuotes(db, head, stale);
      RunKeepsInv(db, head, stale);
      StepQuotes(Run(db, head), ops[|ops| - 1], StaleAfterRun(db, head, stale));
    }
  }

  /** After any operations from an empty database, kills included, every component of every stored daily index
      quotes the stored price of its item on that day, priced by the same run, at its weight in the basket, and
      its base, when it quotes one, is the one its item still has. */
  lemma ComponentsQuoteStored(routes: set<Route>, ops: seq<Op>)
    ensures AllQuote(Run(Empty(routes), ops))
  {
    EmptyInv(routes);
    hide Inv, Run;
    RunQuotes(Empty(routes), ops, {});
  }
}
