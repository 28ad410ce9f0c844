/** The price relatives an index call stores, and the trace that half a paisa leaves in them. */
module StoredRelatives {
  import opened Options
  import opened Domain
  import opened Methodology
  import opened Periods
  import opened IndexModel
  import opened IndexBase
  import opened IndexRecovery
  import opened IndexRuns
  import opened Sorting
  import Medians
  import Rounding

  /** A price relative as its ten-decimal column keeps it. */
  function RelativeColumn(relative: real): int {
    Rounding.HalfAway(relative * Rounding.RELATIVE_UNITS)
  }

  /** Five billion rupees; up to twice that fits the column of a base. */
  const LARGEST_BASE := 500_000_000_000

  lemma ApartRounds(x: real, y: real)
    requires 0.0 < x && x + 1.0 <= y
    ensures Rounding.HalfAway(x) < Rounding.HalfAway(y)
  {
  }

  /** Half a paisa of an item's price shows in the stored price relative for every base up to five billion
      rupees. */
  lemma HalfPaisaShows(price: real, base: int)
    requires price > 0.0 && price - price.Floor as real == 0.5 && 0 < base <= LARGEST_BASE
    ensures RelativeColumn(100.0 * price / base as real)
         != RelativeColumn(100.0 * Rounding.HalfAway(price) as real / base as real)
  {
    var kept, b := Rounding.HalfAway(price) as real, base as real;
    var x := 100.0 * price / b * Rounding.RELATIVE_UNITS;
    assert kept == price + 0.5;
    RelativeStep(price, b);
    ApartRounds(x, 100.0 * kept / b * Rounding.RELATIVE_UNITS);
    hide Rounding.HalfAway;
  }

  lemma RelativeStep(price: real, base: real)
    requires price > 0.0 && 0.0 < base <= 500_000_000_000.0
    ensures 0.0 < 100.0 * price / base * Rounding.RELATIVE_UNITS
    ensures 100.0 * price / base * Rounding.RELATIVE_UNITS + 1.0
         <= 100.0 * (price + 0.5) / base * Rounding.RELATIVE_UNITS
  {
    var q, step := 100.0 * price / base, 50.0 / base;
    assert q * base == 100.0 * price && step * base == 50.0;
    assert q > 0.0;
    assert (q + step) * base == 100.0 * (price + 0.5);
    assert 100.0 * (price + 0.5) / base == q + step;
    assert step * 500_000_000_000.0 >= 50.0;
  }

  predicate Fractional(price: Option<real>) {
    price.Some? && !Whole(price.value)
  }

  // ---------------------------------------------------------------------------------------------
  // A median of paise that is not whole lies half-way between two

  predicate Integral(x: real) {
    x == x.Floor as real
  }

  lemma {:induction false} FaresIntegral(fares: seq<CanonicalFare>, item: BasketItem)
    ensures forall x :: x in MatchingFares(fares, item) ==> Integral(x)
  {
    if fares != [] {
      FaresIntegral(fares[..|fares| - 1], item);
    }
  }

  lemma EvenMidpoint(x: real, y: real, q: int)
    requires x + y == 2.0 * q as real
    ensures Integral(Medians.Midpoint(x, y))
  {
    assert Medians.Midpoint(x, y) == q as real;
  }

  lemma OddMidpoint(x: real, y: real, q: int)
    requires x + y == 2.0 * q as real + 1.0
    ensures var m := Medians.Midpoint(x, y); m - m.Floor as real == 0.5
  {
    assert Medians.Midpoint(x, y) == q as real + 0.5;
    HalfAbove(q);
  }

  lemma HalfAbove(q: int)
    ensures (q as real + 0.5).Floor == q
  {
  }

  lemma Halves(a: int, b: int) returns (q: int)
    ensures a as real + b as real == 2.0 * q as real || a as real + b as real == 2.0 * q as real + 1.0
  {
    q := (a + b) / 2;
    assert a + b == 2 * q || a + b == 2 * q + 1;
    assert a as real + b as real == (a + b) as real;
  }

  lemma MidpointHalf(x: real, y: real)
    requires Integral(x) && Integral(y)
    ensures var m := Medians.Midpoint(x, y); Integral(m) || m - m.Floor as real == 0.5
  {
    var q := Halves(x.Floor, y.Floor);
    hide Medians.Midpoint;
    if x + y == 2.0 * q as real {
      EvenMidpoint(x, y, q);
    } else {
      OddMidpoint(x, y, q);
    }
  }

  lemma MedianHalf(s: seq<real>)
    requires s != [] && forall x :: x in s ==> Integral(x)
    ensures var m := Medians.Median(s); Integral(m) || m - m.Floor as real == 0.5
  {
    var ordered := Medians.Ascending(s);
    SortPermutes(s, Medians.AtMost);
    SameMembers(s, ordered);
    assert |ordered| == |multiset(ordered)| == |multiset(s)| == |s|;
    hide Sort, Integral, Medians.Midpoint;
    assert ordered[|ordered| / 2] in ordered;
    if |ordered| % 2 == 0 {
      assert ordered[|ordered| / 2 - 1] in ordered;
      MidpointHalf(ordered[|ordered| / 2 - 1], ordered[|ordered| / 2]);
    }
  }

  lemma FractionalIsHalf(run: CollectionRun, item: BasketItem)
    requires Fractional(ExactPrice(run, item))
    ensures var price := ExactPrice(run, item).value; price - price.Floor as real == 0.5
  {
    var price := ExactPrice(run, item).value;
    FaresIntegral(run.fares, item);
    MedianHalf(MatchingFares(run.fares, item));
    if Integral(price) {
      Rounding.HalfAwayFixesIntegers(price.Floor);
    }
    hide Medians.Median, MatchingFares, Rounding.HalfAway;
  }

  // ---------------------------------------------------------------------------------------------
  // The relative of one item in a calculated row

  /** What a call that priced its date reads of an item, from memory and from the table. */
  lemma ItemInputs(run: CollectionRun, id: nat, before: seq<BasketItem>, items: seq<BasketItem>, k: nat)
    requires SameDimensions(before, items) && k < |items| && ExactPrice(run, items[k]).Some?
    ensures var rows := NewPriceRows(id, run, before);
            var memory := Fresh(run.dataClass, DayOf(run), ExactPrices(run, before));
            var price := ExactPrice(run, items[k]).value;
            && InputsFor(items, rows, memory)[k].current == Some(price)
            && InputsFor(items, rows, Forgotten)[k].current == Some(Rounding.HalfAway(price) as real)
  {
    FindNewPrice(NewPriceRows(id, run, before), k);
    ExactPriceSame(run, before[k], items[k]);
    hide ExactPrice, DayOf, Rounding.HalfAway;
  }

  lemma ItemBase(items: seq<BasketItem>, rows: seq<PriceRow>, memory: Memory, k: nat)
    requires k < |items| && items[k].base.Some?
    ensures InputsFor(items, rows, memory)[k].base == Some(items[k].base.value as real)
  {
    hide FindPrice;
  }

  /** The relative a row keeps of an item with a price and a base. */
  lemma RowRelative(id: nat, run: CollectionRun, inputs: seq<Input>, complete: bool, k: nat)
    requires PositiveWeights(inputs) && k < |inputs| && Available(inputs[k])
    ensures var row := DailyRow(id, run, ResultOf(inputs, complete, MINIMUM_PERCENT));
            && |row.components| == |inputs|
            && row.components[k].relative == Some(100.0 * inputs[k].current.value / inputs[k].base.value)
  {
    SomeAvailable(inputs, k);
    hide Coverage, CalculatedValue, OnlyVersion, AvailableWeight, Rounding.HalfAway;
  }

  lemma PricedInput(i: Input, price: real, base: int)
    requires i.current == Some(price) && price > 0.0 && i.base == Some(base as real) && base > 0
    ensures Available(i)
  {
  }

  lemma CalculatedRow(db: Store, id: nat, memory: Memory)
    requires id in db.runs && db.runs[id].dataClass in db.baskets && DailyFor(db, id, memory).Ok?
    ensures var run := db.runs[id];
            var items := db.baskets[run.dataClass].items;
            var inputs := InputsFor(items, OnDay(db.prices, run.dataClass, DayOf(run)), memory);
            && PositiveWeights(inputs)
            && DailyFor(db, id, memory).value == DailyRow(id, run, ResultOf(inputs, Complete(items), MINIMUM_PERCENT))
  {
    DailyForInputs(db, id, memory);
    hide DailyFor, InputsFor, OnDay, DayOf, DailyRow, ResultOf, Complete, PositiveWeights, Versions;
  }

  lemma DailyRelative(db: Store, id: nat, memory: Memory, rows: seq<PriceRow>, k: nat, price: real, base: int)
    requires id in db.runs && db.runs[id].dataClass in db.baskets && DailyFor(db, id, memory).Ok?
    requires rows == OnDay(db.prices, db.runs[id].dataClass, DayOf(db.runs[id]))
    requires k < |db.baskets[db.runs[id].dataClass].items| && base > 0 && price > 0.0
    requires db.baskets[db.runs[id].dataClass].items[k].base == Some(base)
    requires InputsFor(db.baskets[db.runs[id].dataClass].items, rows, memory)[k].current == Some(price)
    ensures var row := DailyFor(db, id, memory).value;
            k < |row.components| && row.components[k].relative == Some(100.0 * price / base as real)
  {
    var run := db.runs[id];
    var items := db.baskets[run.dataClass].items;
    var inputs := InputsFor(items, rows, memory);
    assert |inputs| == |items|;
    hide *;
    CalculatedRow(db, id, memory);
    ItemBase(items, rows, memory, k);
    PricedInput(inputs[k], price, base);
    RowRelative(id, run, inputs, Complete(items), k);
  }

  // ---------------------------------------------------------------------------------------------
  // The rows of an uninterrupted and of a resumed call

  /** Item `k` has relatives in both rows, different ones in their ten-decimal columns. */
  predicate RowsDiffer(a: DailyIndex, b: DailyIndex, k: nat, base: int) {
    && k < |a.components| && k < |b.components|
    && a.components[k].relative.Some? && b.components[k].relative.Some?
    && (base <= LARGEST_BASE ==>
          RelativeColumn(a.components[k].relative.value) != RelativeColumn(b.components[k].relative.value))
  }

  /** Both states keep a row of the date in which item `k` has a price relative, and the ten-decimal columns of
      the two differ, unless the base is beyond five billion rupees. */
  ghost predicate ColumnsDiffer(a: Store, b: Store, key: DayKey, k: nat) {
    && key in a.daily && key in b.daily
    && key.dataClass in a.baskets && k < |a.baskets[key.dataClass].items|
    && a.baskets[key.dataClass].items[k].base.Some?
    && RowsDiffer(a.daily[key], b.daily[key], k, a.baskets[key.dataClass].items[k].base.value)
  }

  lemma ConcludedRow(db: Store, id: nat, daily: Result<DailyIndex, Rejection>)
    requires id in db.runs && daily.Ok?
    ensures var end := Concluded(db, id, daily);
            && KeyOfRun(db, id) in end.daily && end.daily[KeyOfRun(db, id)] == daily.value
            && end.baskets == db.baskets
  {
    var run, next := db.runs[id], db.(daily := db.daily[KeyOfRun(db, id) := daily.value]);
    DailyCommits(db, id, daily.value);
    RefreshesKeep(next, run.dataClass, run.date);
    assert Refreshes(next, run.dataClass, run.date)[1] in Refreshes(next, run.dataClass, run.date);
    hide FromDaily, Refreshes, KeyOfRun;
  }

  lemma HalvesDiffer(a: DailyIndex, b: DailyIndex, k: nat, price: real, base: int)
    requires k < |a.components| && k < |b.components| && base > 0
    requires price > 0.0 && price - price.Floor as real == 0.5
    requires a.components[k].relative == Some(100.0 * price / base as real)
    requires b.components[k].relative == Some(100.0 * Rounding.HalfAway(price) as real / base as real)
    ensures RowsDiffer(a, b, k, base)
  {
    if base <= LARGEST_BASE {
      HalfPaisaShows(price, base);
    }
    hide Rounding.HalfAway, RelativeColumn;
  }

  /** The two rows that can be calculated once the prices are frozen: from memory and from the table. */
  lemma TwoRows(db: Store, id: nat, before: seq<BasketItem>, k: nat, base: int)
    requires id in db.runs && PositiveFares(db.runs[id].fares) && db.runs[id].dataClass in db.baskets
    requires SameDimensions(before, db.baskets[db.runs[id].dataClass].items)
    requires OnDay(db.prices, db.runs[id].dataClass, DayOf(db.runs[id])) == NewPriceRows(id, db.runs[id], before)
    requires k < |db.baskets[db.runs[id].dataClass].items| && base > 0
    requires db.baskets[db.runs[id].dataClass].items[k].base == Some(base)
    requires Fractional(ExactPrice(db.runs[id], db.baskets[db.runs[id].dataClass].items[k]))
    requires DailyFor(db, id, Fresh(db.runs[id].dataClass, DayOf(db.runs[id]), ExactPrices(db.runs[id], before))).Ok?
    requires DailyFor(db, id, Forgotten).Ok?
    ensures var run := db.runs[id];
            RowsDiffer(DailyFor(db, id, Fresh(run.dataClass, DayOf(run), ExactPrices(run, before))).value,
                       DailyFor(db, id, Forgotten).value, k, base)
  {
    hide *;
    var run := db.runs[id];
    var items, rows := db.baskets[run.dataClass].items, NewPriceRows(id, run, before);
    var memory := Fresh(run.dataClass, DayOf(run), ExactPrices(run, before));
    FractionalHas(ExactPrice(run, items[k]));
    var price := ExactPrice(run, items[k]).value;
    ItemInputs(run, id, before, items, k);
    ExactPricePositive(run, items[k]);
    FractionalIsHalf(run, items[k]);
    DailyRelative(db, id, memory, rows, k, price, base);
    DailyRelative(db, id, Forgotten, rows, k, Rounding.HalfAway(price) as real, base);
    HalvesDiffer(DailyFor(db, id, memory).value, DailyFor(db, id, Forgotten).value, k, price, base);
  }

  lemma FractionalHas(price: Option<real>)
    requires Fractional(price)
    ensures price.Some?
  {
  }

  /** The frozen state of a call that prices its date, and the rows that can be calculated from it. */
  lemma FrozenRows(db: Store, id: nat, k: nat, base: int)
    requires Ready(db, id) && WithPrices(db, id).Ok? && WithPrices(db, id).value.memory.Fresh?
    requires db.runs[id].dataClass in WithPrices(db, id).value.store.baskets
    requires var priced, run := WithPrices(db, id).value, db.runs[id];
             var frozen := Frozen(priced.store, run.dataClass, priced.memory);
             && run.dataClass in frozen.baskets && id in frozen.runs && DailyFor(frozen, id, priced.memory).Ok?
             && k < |frozen.baskets[run.dataClass].items| && base > 0
             && frozen.baskets[run.dataClass].items[k].base == Some(base)
             && Fractional(ExactPrice(run, frozen.baskets[run.dataClass].items[k]))
    ensures var priced := WithPrices(db, id).value;
            var frozen := Frozen(priced.store, db.runs[id].dataClass, priced.memory);
            && DailyFor(frozen, id, Forgotten).Ok?
            && RowsDiffer(DailyFor(frozen, id, priced.memory).value, DailyFor(frozen, id, Forgotten).value, k, base)
  {
    assert id in db.runs && db.runs[id].dataClass in db.baskets;
    var priced, run := WithPrices(db, id).value, db.runs[id];
    FreshDaily(db, id);
    var frozen := Frozen(priced.store, run.dataClass, priced.memory);
    assert DailyFor(frozen, id, Forgotten).Ok? by {
      hide Frozen, DailyFor, WithPrices, WholePaiseWhereBased;
    }
    hide *;
    FreshlyPriced(db, id);
    FrozenKeepsBase(priced.store, run.dataClass, priced.memory);
    FrozenParts(priced.store, run.dataClass, priced.memory);
    KeptDimensions(db.baskets[run.dataClass].items, frozen.baskets[run.dataClass].items);
    TwoRows(frozen, id, db.baskets[run.dataClass].items, k, base);
  }

  /** Killed after its prices or after its freeze, a call that prices its date and creates its row is resumed
      to a row with another relative of every item that has a half-paisa median and a base. */
  lemma ResumedRow(db: Store, id: nat, x: Store, k: nat)
    requires Ready(db, id) && WithPrices(db, id).Ok? && WithPrices(db, id).value.memory.Fresh?
    requires KeyOfRun(db, id) !in db.daily && CallFor(db, id).outcome.Indexed?
    requires var priced := WithPrices(db, id).value;
             && db.runs[id].dataClass in priced.store.baskets
             && (x == priced.store || x == Frozen(priced.store, db.runs[id].dataClass, priced.memory))
    requires var end, dc := EndState(db, id), db.runs[id].dataClass;
             && dc in end.baskets && k < |end.baskets[dc].items|
             && end.baskets[dc].items[k].base.Some? && end.baskets[dc].items[k].base.value > 0
             && Fractional(ExactPrice(db.runs[id], end.baskets[dc].items[k]))
    ensures ColumnsDiffer(EndState(db, id), EndState(x, id), KeyOfRun(db, id), k)
  {
    assert id in db.runs;
    var priced, dc := WithPrices(db, id).value, db.runs[id].dataClass;
    var frozen := Frozen(priced.store, dc, priced.memory);
    PricedOutcome(db, id);
    FreshCall(db, id);
    FreshDaily(db, id);
    hide FromFreeze, Frozen, DailyFor, WithPrices, CallFor, Concluded, EndState, RelativeColumn, KeyOfRun, Finished,
         PositiveFares, MemoryFits, OnDay, DayOf, PricedState, ExactPrice, Whole, End;
    ReadyStays(db, id, priced.store);
    FrozenParts(priced.store, dc, priced.memory);
    EndKeepsBasket(priced.store, id, priced.memory);
    FreezeCases(priced.store, id, priced.memory);
    ResumeUnindexed(priced.store, id, priced.memory, x);
    SameKey(priced.store, id, frozen);
    ConcludedRow(frozen, id, DailyFor(frozen, id, priced.memory));
    ConcludedRow(frozen, id, DailyFor(frozen, id, Forgotten));
    CreatedDaily(priced.store, id, priced.memory);
    FrozenRows(db, id, k, frozen.baskets[dc].items[k].base.value);
  }
}
