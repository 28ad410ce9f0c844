/** Interrupting `calculate_index_for_run` between commits and calling it again.

    Every stage recognises its own finished work, so a second call from any committed state repeats
    none of it.  The one thing a crash destroys is the session's memory of exact medians: between the
    commit of the prices and the commit of the daily index, the resumed call computes from the stored,
    rounded prices instead.
 */
module IndexRecovery {
  import opened Options
  import opened Domain
  import opened Calendar
  import opened Methodology
  import opened Periods
  import opened IndexModel
  import opened IndexBase
  import opened IndexView
  import Medians
  import Rounding

  predicate PositiveFares(fares: seq<CanonicalFare>) {
    forall i :: 0 <= i < |fares| ==> fares[i].fare > 0
  }

  function EndState(db: Store, id: nat): Store {
    End(db, CallFor(db, id))
  }

  // ---------------------------------------------------------------------------------------------
  // Prices

  lemma {:induction false} OnDayNone(prices: seq<PriceRow>, dc: DataClass, day: int)
    ensures OnDay(prices, dc, day) == [] <==>
            forall i :: 0 <= i < |prices| ==> !(prices[i].dataClass == dc && prices[i].day == day)
  {
    if prices != [] {
      var head := prices[..|prices| - 1];
      OnDayNone(head, dc, day);
      assert forall i :: 0 <= i < |head| ==> head[i] == prices[i];
    }
  }

  lemma {:induction false} OnDayAppend(prices: seq<PriceRow>, rows: seq<PriceRow>, dc: DataClass, day: int)
    requires forall i :: 0 <= i < |rows| ==> rows[i].dataClass == dc && rows[i].day == day
    ensures OnDay(prices + rows, dc, day) == OnDay(prices, dc, day) + rows
  {
    if rows == [] {
      assert prices + rows == prices;
    } else {
      var head := rows[..|rows| - 1];
      assert (prices + rows)[..|prices + rows| - 1] == prices + head;
      OnDayAppend(prices, head, dc, day);
    }
  }

  lemma NewRowsFit(db: Store, id: nat, items: seq<BasketItem>)
    requires id in db.runs && OnDay(db.prices, db.runs[id].dataClass, DayOf(db.runs[id])) == []
    ensures var run := db.runs[id];
            MemoryFits(db.prices + NewPriceRows(id, run, items),
                       Fresh(run.dataClass, DayOf(run), ExactPrices(run, items)))
  {
    var run, had, rows := db.runs[id], db.prices, NewPriceRows(id, db.runs[id], items);
    var all := had + rows;
    OnDayNone(had, run.dataClass, DayOf(run));
    hide ExactPrice, Stored, DayOf, OnDay;
    forall i | 0 <= i < |all| && all[i].dataClass == run.dataClass && all[i].day == DayOf(run) && all[i].item < |items|
      ensures all[i].price == Stored(ExactPrices(run, items)[all[i].item])
    {
      assert i >= |had| && all[i] == rows[i - |had|];
    }
  }

  /** Fresh prices are exactly the day's rows, and the session remembers them faithfully. */
  lemma FreshPrices(db: Store, id: nat)
    requires id in db.runs && db.runs[id].dataClass in db.baskets
    requires WithPrices(db, id).Ok? && WithPrices(db, id).value.memory.Fresh?
    ensures var run, next := db.runs[id], WithPrices(db, id).value;
            && OnDay(next.store.prices, run.dataClass, DayOf(run))
               == NewPriceRows(id, run, db.baskets[run.dataClass].items)
            && MemoryFits(next.store.prices, next.memory)
  {
    var run := db.runs[id];
    var items := db.baskets[run.dataClass].items;
    NewRowsFit(db, id, items);
    OnDayAppend(db.prices, NewPriceRows(id, run, items), run.dataClass, DayOf(run));
    hide ExactPrice, Stored, DayOf, MemoryFits, NewPriceRows, ExactPrices;
    assert [] + NewPriceRows(id, run, items) == NewPriceRows(id, run, items);
  }

  /** Once a call has its prices, any later state with those prices has them too. */
  lemma PricesSettled(db: Store, id: nat, later: Store)
    requires id in db.runs && db.runs[id].dataClass in db.baskets && WithPrices(db, id).Ok?
    requires later.prices == WithPrices(db, id).value.store.prices && later.runs == db.runs
    requires db.runs[id].dataClass in later.baskets
    requires |later.baskets[db.runs[id].dataClass].items| == |db.baskets[db.runs[id].dataClass].items|
    ensures WithPrices(later, id) == Ok(Priced(later, Forgotten))
  {
    if WithPrices(db, id).value.memory.Fresh? {
      FreshPrices(db, id);
    }
    hide OnDay, ExactPrice, Stored, DayOf;
  }

  // ---------------------------------------------------------------------------------------------
  // Base

  /** A state that already holds the frozen basket is left alone by another freeze. */
  lemma FreezeSettled(db: Store, dc: DataClass, memory: Memory, later: Store)
    requires dc in db.baskets && MemoryFits(db.prices, memory)
    requires later.prices == db.prices && later.runs == db.runs && later.baskets == Frozen(db, dc, memory).baskets
    ensures Frozen(later, dc, Forgotten) == later
  {
    var frozen := Frozen(db, dc, Forgotten);
    FrozenForgets(db, dc, memory);
    FrozenTwice(db, dc);
    hide MemoryFits, Settled;
    assert FrozenItems(later, dc, Forgotten) == FrozenItems(frozen, dc, Forgotten);
    assert later.baskets[dc := frozen.baskets[dc]] == later.baskets;
  }

  // ---------------------------------------------------------------------------------------------
  // Resuming after the freeze

  /** From a settled state with the daily index stored, a call only refreshes the two periods. */
  lemma ResumeWithDaily(db: Store, id: nat)
    requires id in db.runs && Finished(db.runs[id]) && db.runs[id].dataClass in db.baskets
    requires WithPrices(db, id) == Ok(Priced(db, Forgotten))
    requires Frozen(db, db.runs[id].dataClass, Forgotten) == db
    requires var key := DayKey(db.runs[id].dataClass, DayOf(db.runs[id])); key in db.daily && db.daily[key].run == id
    ensures EndState(db, id) == Refreshes(db, db.runs[id].dataClass, db.runs[id].date)[1]
    ensures CallFor(db, id).outcome
         == Indexed(db.daily[DayKey(db.runs[id].dataClass, DayOf(db.runs[id]))], false)
  {
    hide Refreshed, WithPrices, Frozen, DailyFor, DayOf;
    var call := FromFreeze(db, id, Forgotten);
    assert After([], call) == call;
  }

  /** From a settled state without it, a call computes it from the stored prices. */
  lemma ResumeWithoutDaily(db: Store, id: nat)
    requires id in db.runs && Finished(db.runs[id]) && db.runs[id].dataClass in db.baskets
    requires WithPrices(db, id) == Ok(Priced(db, Forgotten))
    ensures CallFor(db, id) == FromFreeze(db, id, Forgotten)
  {
    hide WithPrices, Frozen, DailyFor, DayOf, FromFreeze;
    var call := FromFreeze(db, id, Forgotten);
    assert After([], call) == call;
  }

  // ---------------------------------------------------------------------------------------------
  // Exact against stored prices

  predicate Whole(price: real) {
    Rounding.HalfAway(price) as real == price
  }

  /** `b` is `a` with each current price replaced by its stored rounding, all prices staying positive. */
  ghost predicate Rounds(a: seq<Input>, b: seq<Input>) {
    && |a| == |b|
    && forall k :: 0 <= k < |a| ==>
        && b[k].id == a[k].id && b[k].base == a[k].base && b[k].weight == a[k].weight
        && (a[k].current.None? ==> b[k].current == None)
        && (a[k].current.Some? ==>
              && a[k].current.value > 0.0 && Rounding.HalfAway(a[k].current.value) > 0
              && b[k].current == Some(Rounding.HalfAway(a[k].current.value) as real))
  }

  ghost predicate WholeWhereAvailable(a: seq<Input>) {
    forall k :: 0 <= k < |a| && Available(a[k]) ==> Whole(a[k].current.value)
  }

  lemma RoundedComponent(i: Input, j: Input, shared: real)
    requires Rounds([i], [j]) && (shared != 0.0 || !Available(i))
    ensures Available(j) <==> Available(i)
    ensures StoredComponent(ComponentOf(i, shared)) == StoredComponent(ComponentOf(j, shared))
       <==> (Available(i) ==> Whole(i.current.value))
  {
    assert Rounds([i], [j]) ==> [i][0] == i && [j][0] == j;
    if i.current.Some? {
      Rounding.HalfAwayFixesIntegers(Rounding.HalfAway(i.current.value));
      if Available(i) && !Whole(i.current.value) {
        RelativesDiffer(i, j);
      }
    }
    hide Rounding.HalfAway, Relative;
  }

  lemma RelativesDiffer(i: Input, j: Input)
    requires Available(i) && Available(j) && i.base == j.base && i.current != j.current
    ensures Relative(i) != Relative(j)
  {
    QuotientsDiffer(100.0 * i.current.value, 100.0 * j.current.value, i.base.value);
  }

  lemma QuotientsDiffer(x: real, y: real, b: real)
    requires b != 0.0 && x != y
    ensures x / b != y / b
  {
    var p, q := x / b, y / b;
    assert p * b == x && q * b == y;
  }

  lemma {:induction false} RoundedSums(a: seq<Input>, b: seq<Input>, shared: real)
    requires Rounds(a, b) && shared != 0.0
    ensures TotalWeight(a) == TotalWeight(b) && AvailableWeight(a) == AvailableWeight(b)
    ensures WholeWhereAvailable(a) ==> Contributions(a, shared) == Contributions(b, shared)
  {
    if a != [] {
      var ha, hb := a[..|a| - 1], b[..|b| - 1];
      RoundedSums(ha, hb, shared);
      var i, j := a[|a| - 1], b[|b| - 1];
      assert Available(i) <==> Available(j);
      assert WholeWhereAvailable(a) ==> WholeWhereAvailable(ha);
      assert WholeWhereAvailable(a) && Available(i) ==> i == j;
    }
    hide Rounding.HalfAway, Available, Relative, Contribution;
  }

  /** The stored components tell whether any price that mattered was not a whole number of paise;
      when all were, the whole result is the same. */
  lemma RoundedResult(a: seq<Input>, b: seq<Input>, complete: bool, minimum: real)
    requires Rounds(a, b) && PositiveWeights(a)
    ensures PositiveWeights(b)
    ensures var r, q := ResultOf(a, complete, minimum), ResultOf(b, complete, minimum);
            && (StoredComponents(r.components) == StoredComponents(q.components) <==> WholeWhereAvailable(a))
            && (WholeWhereAvailable(a) ==> r.value == q.value && r.coverage == q.coverage && r.status == q.status)
  {
    RoundedSums(a, b, if AvailableWeight(a) != 0.0 then AvailableWeight(a) else 1.0);
    var r, q := ResultOf(a, complete, minimum), ResultOf(b, complete, minimum);
    forall k: nat | k < |a|
      ensures StoredComponent(r.components[k]) == StoredComponent(q.components[k])
         <==> (Available(a[k]) ==> Whole(a[k].current.value))
    {
      SomeAvailable(a, k);
      RoundedComponent(a[k], b[k], AvailableWeight(a));
    }
    hide Rounding.HalfAway, StoredComponent, ComponentOf, Available, Contributions, AvailableWeight, TotalWeight;
    var sr, sq := StoredComponents(r.components), StoredComponents(q.components);
    assert sr == sq <==> forall k :: 0 <= k < |a| ==> sr[k] == sq[k];
  }

  lemma {:induction false} FindNewPrice(rows: seq<PriceRow>, k: nat)
    requires forall i :: 0 <= i < |rows| ==> rows[i].item == i
    requires k < |rows|
    ensures FindPrice(rows, k) == Some(rows[k])
  {
    if k < |rows| - 1 {
      FindNewPrice(rows[..|rows| - 1], k);
    }
  }

  lemma {:induction false} MatchingPositive(fares: seq<CanonicalFare>, item: BasketItem)
    requires PositiveFares(fares)
    ensures forall x :: x in MatchingFares(fares, item) ==> x >= 1.0
  {
    if fares != [] {
      MatchingPositive(fares[..|fares| - 1], item);
    }
  }

  /** A median of positive fares, and its stored rounding, are at least one paisa. */
  lemma ExactPricePositive(run: CollectionRun, item: BasketItem)
    requires PositiveFares(run.fares) && ExactPrice(run, item).Some?
    ensures ExactPrice(run, item).value >= 1.0 && Rounding.HalfAway(ExactPrice(run, item).value) >= 1
  {
    MatchingPositive(run.fares, item);
    Medians.MedianAtLeast(MatchingFares(run.fares, item), 1.0);
    hide Medians.Median;
    Rounding.HalfAwayMonotone(1.0, ExactPrice(run, item).value);
  }

  /** Same routes and windows, hence the same exact prices. */
  ghost predicate SameDimensions(a: seq<BasketItem>, b: seq<BasketItem>) {
    && |a| == |b|
    && forall k :: 0 <= k < |a| ==> a[k].route == b[k].route && a[k].window == b[k].window
  }

  lemma {:induction false} ExactPriceSame(run: CollectionRun, a: BasketItem, b: BasketItem)
    requires a.route == b.route && a.window == b.window
    ensures ExactPrice(run, a) == ExactPrice(run, b)
  {
    FaresSame(run.fares, a, b);
  }

  lemma {:induction false} FaresSame(fares: seq<CanonicalFare>, a: BasketItem, b: BasketItem)
    requires a.route == b.route && a.window == b.window
    ensures MatchingFares(fares, a) == MatchingFares(fares, b)
  {
    if fares != [] {
      FaresSame(fares[..|fares| - 1], a, b);
    }
  }

  /** Every basket item with a base has, on this run, either no price or one of whole paise. */
  ghost predicate WholePaiseWhereBased(run: CollectionRun, items: seq<BasketItem>) {
    forall k :: 0 <= k < |items| && items[k].base.Some? && items[k].base.value > 0 ==>
      ExactPrice(run, items[k]).None? || Whole(ExactPrice(run, items[k]).value)
  }

  /** The inputs a session computes from memory against those a later session reads back. */
  lemma InputsRound(run: CollectionRun, id: nat, before: seq<BasketItem>, items: seq<BasketItem>)
    requires PositiveFares(run.fares) && SameDimensions(before, items)
    ensures var rows := NewPriceRows(id, run, before);
            var exact := InputsFor(items, rows, Fresh(run.dataClass, DayOf(run), ExactPrices(run, before)));
            && Rounds(exact, InputsFor(items, rows, Forgotten))
            && (WholeWhereAvailable(exact) <==> WholePaiseWhereBased(run, items))
  {
    var rows, memory := NewPriceRows(id, run, before), Fresh(run.dataClass, DayOf(run), ExactPrices(run, before));
    var exact, kept := InputsFor(items, rows, memory), InputsFor(items, rows, Forgotten);
    hide ExactPrice, DayOf, Rounding.HalfAway;
    forall k: nat | k < |items|
      ensures exact[k].current == ExactPrice(run, items[k])
      ensures Rounds([exact[k]], [kept[k]])
      ensures exact[k].base == (if items[k].base.None? then None else Some(items[k].base.value as real))
    {
      FindNewPrice(rows, k);
      ExactPriceSame(run, before[k], items[k]);
      if ExactPrice(run, items[k]).Some? {
        ExactPricePositive(run, items[k]);
      }
    }
    forall k | 0 <= k < |exact|
      ensures Available(exact[k]) <==>
              (items[k].base.Some? && items[k].base.value > 0 && ExactPrice(run, items[k]).Some?)
    {
      assert Rounds([exact[k]], [kept[k]]);
      assert [exact[k]][0] == exact[k];
    }
    RoundsPointwise(exact, kept);
  }

  lemma RoundsPointwise(a: seq<Input>, b: seq<Input>)
    requires |a| == |b| && forall k: nat :: k < |a| ==> Rounds([a[k]], [b[k]])
    ensures Rounds(a, b)
  {
    forall k | 0 <= k < |a|
      ensures Rounds([a[k]], [b[k]]) && [a[k]][0] == a[k] && [b[k]][0] == b[k]
    {
    }
  }

  /** The daily index a session writes equals the one a resumed session would write exactly when
      every price that entered it was a whole number of paise. */
  lemma DailyFromMemory(db: Store, id: nat, before: seq<BasketItem>)
    requires id in db.runs && PositiveFares(db.runs[id].fares) && db.runs[id].dataClass in db.baskets
    requires SameDimensions(before, db.baskets[db.runs[id].dataClass].items)
    requires OnDay(db.prices, db.runs[id].dataClass, DayOf(db.runs[id])) == NewPriceRows(id, db.runs[id], before)
    ensures var run := db.runs[id];
            var direct := DailyFor(db, id, Fresh(run.dataClass, DayOf(run), ExactPrices(run, before)));
            var resumed := DailyFor(db, id, Forgotten);
            && (direct.Err? ==> resumed == direct)
            && (direct.Ok? ==> resumed.Ok?)
            && (direct.Ok? ==> (resumed == direct <==> WholePaiseWhereBased(run, db.baskets[run.dataClass].items)))
  {
    var run := db.runs[id];
    var items, rows := db.baskets[run.dataClass].items, NewPriceRows(id, run, before);
    var exact := InputsFor(items, rows, Fresh(run.dataClass, DayOf(run), ExactPrices(run, before)));
    var kept := InputsFor(items, rows, Forgotten);
    InputsRound(run, id, before, items);
    RoundsWeights(exact, kept);
    if PositiveWeights(exact) {
      RoundedResult(exact, kept, Complete(items), MINIMUM_PERCENT);
      RowsAgree(id, run, ResultOf(exact, Complete(items), MINIMUM_PERCENT),
                ResultOf(kept, Complete(items), MINIMUM_PERCENT));
    }
    hide *;
    DailyForInputs(db, id, Fresh(run.dataClass, DayOf(run), ExactPrices(run, before)));
    DailyForInputs(db, id, Forgotten);
  }

  lemma DailyForInputs(db: Store, id: nat, memory: Memory)
    requires id in db.runs && db.runs[id].dataClass in db.baskets
    ensures var run := db.runs[id];
            var items := db.baskets[run.dataClass].items;
            var inputs := InputsFor(items, OnDay(db.prices, run.dataClass, DayOf(run)), memory);
            DailyFor(db, id, memory) ==
              if inputs == [] || !PositiveWeights(inputs) then Err(BadWeights)
              else if |Versions(run.fares)| > 1 then Err(MixedCanonicalVersions)
              else Ok(DailyRow(id, run, ResultOf(inputs, Complete(items), MINIMUM_PERCENT)))
  {
  }

  lemma RowsAgree(id: nat, run: CollectionRun, r: IndexResult, q: IndexResult)
    requires StoredComponents(r.components) == StoredComponents(q.components) ==>
               r.value == q.value && r.coverage == q.coverage && r.status == q.status
    ensures DailyRow(id, run, r) == DailyRow(id, run, q)
       <==> StoredComponents(r.components) == StoredComponents(q.components)
  {
    hide StoredComponents, ToIndexUnits, ToCoverageUnits, OnlyVersion;
  }

  lemma RoundsWeights(a: seq<Input>, b: seq<Input>)
    requires Rounds(a, b)
    ensures PositiveWeights(a) <==> PositiveWeights(b)
    ensures a == [] <==> b == []
  {
  }

  // ---------------------------------------------------------------------------------------------
  // The recovery theorem

  /** Where the rest of a call leads once the daily row (if any) has been computed. */
  function Concluded(db: Store, id: nat, daily: Result<DailyIndex, Rejection>): Store
    requires id in db.runs
  {
    match daily
    case Err(_) => db
    case Ok(row) => End(db, FromDaily(db, id, row))
  }

  predicate Ready(db: Store, id: nat) {
    id in db.runs && PositiveFares(db.runs[id].fares) && Finished(db.runs[id]) && db.runs[id].dataClass in db.baskets
  }

  function KeyOfRun(db: Store, id: nat): DayKey
    requires id in db.runs
  {
    DayKey(db.runs[id].dataClass, DayOf(db.runs[id]))
  }

  /** What follows the freeze, case by case. */
  lemma FreezeCases(db: Store, id: nat, memory: Memory)
    requires Ready(db, id)
    ensures var run := db.runs[id];
            var frozen, call := Frozen(db, run.dataClass, memory), FromFreeze(db, id, memory);
            var key := KeyOfRun(db, id);
            if key in db.daily then
              if db.daily[key].run != id then
                call.commits == [frozen] && End(db, call) == frozen && call.outcome == Rejected(DateTaken)
              else
                && call.commits == [frozen] + Refreshes(frozen, run.dataClass, run.date)
                && End(db, call) == Refreshes(frozen, run.dataClass, run.date)[1]
                && call.outcome == Indexed(db.daily[key], false)
            else
              var daily := DailyFor(frozen, id, memory);
              && End(db, call) == Concluded(frozen, id, daily)
              && (daily.Err? ==> call.commits == [frozen] && call.outcome == Rejected(daily.error))
              && (daily.Ok? ==> call.commits == [frozen] + FromDaily(frozen, id, daily.value).commits)
              && (daily.Ok? ==> call.outcome == Indexed(daily.value, true))
  {
    hide DailyFor, Refreshed, DayOf, FrozenItems, Settled;
  }

  lemma DailyCommits(db: Store, id: nat, row: DailyIndex)
    requires id in db.runs
    ensures var run, next := db.runs[id], db.(daily := db.daily[KeyOfRun(db, id) := row]);
            && FromDaily(db, id, row).commits == [next] + Refreshes(next, run.dataClass, run.date)
            && End(db, FromDaily(db, id, row)) == Refreshes(next, run.dataClass, run.date)[1]
            && End(db, FromDaily(db, id, row)).daily == next.daily
  {
    hide DayOf, Recomputed;
  }

  lemma RefreshesKeep(db: Store, dc: DataClass, date: CalendarDate)
    ensures forall x :: x in Refreshes(db, dc, date) ==>
              x.prices == db.prices && x.runs == db.runs && x.baskets == db.baskets && x.daily == db.daily
  {
    hide Recomputed;
  }

  lemma DifferentRowsDifferentEnds(db: Store, id: nat, a: Result<DailyIndex, Rejection>,
                                   b: Result<DailyIndex, Rejection>)
    requires id in db.runs && KeyOfRun(db, id) !in db.daily
    requires a.Ok? && b.Ok?
    ensures Concluded(db, id, a) == Concluded(db, id, b) <==> a == b
  {
    DailyCommits(db, id, a.value);
    DailyCommits(db, id, b.value);
    var key := KeyOfRun(db, id);
    if a != b {
      assert db.daily[key := a.value][key] != db.daily[key := b.value][key];
    }
    hide FromDaily, End, KeyOfRun;
  }

  /** A state from which the prices of this run need no more work. */
  predicate PricedState(db: Store, id: nat)
    requires id in db.runs && db.runs[id].dataClass in db.baskets
  {
    WithPrices(db, id) == Ok(Priced(db, Forgotten))
  }

  /** The first committed state that holds the daily index of an indexed call. */
  function WithDaily(db: Store, id: nat, memory: Memory): Store
    requires Ready(db, id)
  {
    var frozen := Frozen(db, db.runs[id].dataClass, memory);
    match DailyFor(frozen, id, memory)
    case Err(_) => frozen
    case Ok(row) =>
      if KeyOfRun(db, id) in db.daily then frozen else frozen.(daily := frozen.daily[KeyOfRun(db, id) := row])
  }

  /** The commits of an indexed call: the freeze, unless it already had its daily index, then the
      state with the daily index, then the two refreshes. */
  lemma IndexedCommits(db: Store, id: nat, memory: Memory)
    requires Ready(db, id) && FromFreeze(db, id, memory).outcome.Indexed?
    ensures var run, start, call := db.runs[id], WithDaily(db, id, memory), FromFreeze(db, id, memory);
            var key := KeyOfRun(db, id);
            && call.commits == (if key in db.daily then [] else [Frozen(db, run.dataClass, memory)])
                               + ([start] + Refreshes(start, run.dataClass, run.date))
            && End(db, call) == Refreshes(start, run.dataClass, run.date)[1]
            && key in start.daily && start.daily[key] == call.outcome.row && start.daily[key].run == id
            && (call.outcome.created <==> key !in db.daily)
  {
    var run, key := db.runs[id], KeyOfRun(db, id);
    var frozen, start := Frozen(db, run.dataClass, memory), WithDaily(db, id, memory);
    FreezeCases(db, id, memory);
    FrozenParts(db, run.dataClass, memory);
    var daily := DailyFor(frozen, id, memory);
    if key in db.daily {
      assert start == frozen;
      assert [] + ([start] + Refreshes(start, run.dataClass, run.date))
          == [frozen] + Refreshes(frozen, run.dataClass, run.date);
    } else {
      DailyCommits(frozen, id, daily.value);
      DailyRowRun(frozen, id, memory);
    }
    hide *;
  }

  lemma FrozenParts(db: Store, dc: DataClass, memory: Memory)
    requires dc in db.baskets
    ensures var frozen := Frozen(db, dc, memory);
            && frozen.daily == db.daily && frozen.runs == db.runs && frozen.prices == db.prices
            && frozen.periods == db.periods && dc in frozen.baskets
  {
    hide Settled, FrozenItems;
  }

  lemma WithDailyParts(db: Store, id: nat, memory: Memory)
    requires Ready(db, id)
    ensures var start, frozen := WithDaily(db, id, memory), Frozen(db, db.runs[id].dataClass, memory);
            && start.prices == db.prices && start.runs == db.runs && start.baskets == frozen.baskets
  {
    FrozenParts(db, db.runs[id].dataClass, memory);
    hide DailyFor, Frozen, DayOf;
  }

  lemma DailyRowRun(db: Store, id: nat, memory: Memory)
    requires id in db.runs && db.runs[id].dataClass in db.baskets && DailyFor(db, id, memory).Ok?
    ensures DailyFor(db, id, memory).value.run == id
    ensures DailyFor(db, id, memory).value.date == db.runs[id].date
    ensures |Versions(db.runs[id].fares)| <= 1
  {
    DailyForInputs(db, id, memory);
    hide DailyFor, ResultOf, InputsFor, OnlyVersion, StoredComponents;
  }

  /** Resuming an indexed call from a state that holds its daily index. */
  lemma ResumeIndexed(db: Store, id: nat, memory: Memory, x: Store)
    requires Ready(db, id) && PricedState(db, id) && MemoryFits(db.prices, memory)
    requires FromFreeze(db, id, memory).outcome.Indexed?
    requires var start := WithDaily(db, id, memory);
             x == start || x in Refreshes(start, db.runs[id].dataClass, db.runs[id].date)
    ensures EndState(x, id) == End(db, FromFreeze(db, id, memory))
    ensures CallFor(x, id).outcome == Indexed(FromFreeze(db, id, memory).outcome.row, false)
  {
    var run, start := db.runs[id], WithDaily(db, id, memory);
    IndexedCommits(db, id, memory);
    WithDailyParts(db, id, memory);
    RefreshesKeep(start, run.dataClass, run.date);
    RefreshesResume(start, run.dataClass, run.date);
    assert x == start || x == Refreshes(start, run.dataClass, run.date)[0]
           || x == Refreshes(start, run.dataClass, run.date)[1];
    SettledState(db, id, memory, x);
    hide *;
    ReadyStays(db, id, x);
    SameKey(db, id, x);
    ResumeWithDaily(x, id);
  }

  lemma ReadyStays(db: Store, id: nat, x: Store)
    requires Ready(db, id) && x.runs == db.runs && db.runs[id].dataClass in x.baskets
    ensures Ready(x, id) && KeyOfRun(x, id) == KeyOfRun(db, id)
    ensures Finished(x.runs[id]) && x.runs[id] == db.runs[id]
  {
  }

  lemma SameKey(db: Store, id: nat, x: Store)
    requires id in db.runs && x.runs == db.runs
    ensures KeyOfRun(db, id) == KeyOfRun(x, id) == DayKey(x.runs[id].dataClass, DayOf(x.runs[id]))
  {
  }

  /** Every state that has the prices and the frozen basket needs neither again. */
  lemma SettledState(db: Store, id: nat, memory: Memory, x: Store)
    requires Ready(db, id) && PricedState(db, id) && MemoryFits(db.prices, memory)
    requires x.prices == db.prices && x.runs == db.runs
    requires x.baskets == Frozen(db, db.runs[id].dataClass, memory).baskets
    ensures db.runs[id].dataClass in x.baskets
    ensures WithPrices(x, id) == Ok(Priced(x, Forgotten))
    ensures Frozen(x, db.runs[id].dataClass, Forgotten) == x
  {
    var dc := db.runs[id].dataClass;
    FrozenKeepsBase(db, dc, memory);
    FreezeSettled(db, dc, memory, x);
    PricesSettled(db, id, x);
    hide WithPrices, MemoryFits, Settled, FrozenItems;
  }

  /** Resuming from the priced or the frozen state, before any daily index: the stored prices decide. */
  lemma ResumeUnindexed(db: Store, id: nat, memory: Memory, x: Store)
    requires Ready(db, id) && PricedState(db, id) && MemoryFits(db.prices, memory)
    requires KeyOfRun(db, id) !in db.daily
    requires x == db || x == Frozen(db, db.runs[id].dataClass, memory)
    ensures var frozen := Frozen(db, db.runs[id].dataClass, memory);
            EndState(x, id) == Concluded(frozen, id, DailyFor(frozen, id, Forgotten))
  {
    var run := db.runs[id];
    var frozen := Frozen(db, run.dataClass, memory);
    FrozenForgets(db, run.dataClass, memory);
    if x == frozen {
      SettledState(db, id, memory, x);
    }
    assert x.runs == db.runs && x.daily == db.daily && run.dataClass in x.baskets;
    hide FromFreeze, DailyFor, WithPrices, MemoryFits, Settled, FrozenItems, DayOf, Frozen;
    ResumeWithoutDaily(x, id);
    FreezeCases(x, id, Forgotten);
    assert EndState(x, id) == End(x, FromFreeze(x, id, Forgotten));
    assert Frozen(x, run.dataClass, Forgotten) == frozen;
  }

  /** Forgetting the exact prices neither raises an error nor hides one. */
  ghost predicate SameErrors(db: Store, id: nat, memory: Memory)
    requires id in db.runs && db.runs[id].dataClass in db.baskets
  {
    var direct, resumed := DailyFor(db, id, memory), DailyFor(db, id, Forgotten);
    (direct.Err? ==> resumed == direct) && (direct.Ok? ==> resumed.Ok?)
  }

  /** Resuming when the date's daily index was already there before the call. */
  lemma ResumeFound(db: Store, id: nat, memory: Memory, x: Store)
    requires Ready(db, id) && PricedState(db, id) && MemoryFits(db.prices, memory) && KeyOfRun(db, id) in db.daily
    requires x == db || x == Frozen(db, db.runs[id].dataClass, memory)
    ensures EndState(x, id) == End(db, FromFreeze(db, id, memory))
    ensures CallFor(x, id).outcome == FromFreeze(db, id, memory).outcome
  {
    var run := db.runs[id];
    var frozen := Frozen(db, run.dataClass, memory);
    FrozenForgets(db, run.dataClass, memory);
    FrozenParts(db, run.dataClass, memory);
    if x == frozen {
      SettledState(db, id, memory, x);
    }
    FreezeCases(db, id, memory);
    hide FromFreeze, DailyFor, WithPrices, MemoryFits, Settled, FrozenItems, DayOf, Frozen, Refreshes, KeyOfRun;
    ResumeWithoutDaily(x, id);
    FreezeCases(x, id, Forgotten);
    assert Frozen(x, run.dataClass, Forgotten) == frozen;
    ReadyStays(db, id, x);
    assert EndState(x, id) == End(x, FromFreeze(x, id, Forgotten));
  }

  /** The daily index computed from memory differs from the one computed from stored prices. */
  ghost predicate MemoryMatters(db: Store, id: nat, memory: Memory)
    requires Ready(db, id)
  {
    var frozen := Frozen(db, db.runs[id].dataClass, memory);
    DailyFor(frozen, id, memory) != DailyFor(frozen, id, Forgotten)
  }

  /** A crash left `x` without the daily index that the call was about to create. */
  ghost predicate Lost(db: Store, id: nat, memory: Memory, x: Store)
    requires Ready(db, id)
  {
    var outcome := FromFreeze(db, id, memory).outcome;
    outcome.Indexed? && outcome.created && KeyOfRun(db, id) !in x.daily
  }

  ghost predicate ErrorsAgree(db: Store, id: nat, memory: Memory)
    requires Ready(db, id)
  {
    SameErrors(Frozen(db, db.runs[id].dataClass, memory), id, memory)
  }

  lemma RecoverLost(db: Store, id: nat, memory: Memory, x: Store)
    requires Ready(db, id) && PricedState(db, id) && MemoryFits(db.prices, memory) && KeyOfRun(db, id) !in db.daily
    requires ErrorsAgree(db, id, memory)
    requires x == db || x == Frozen(db, db.runs[id].dataClass, memory)
    ensures EndState(x, id) == End(db, FromFreeze(db, id, memory))
       <==> !(Lost(db, id, memory, x) && MemoryMatters(db, id, memory))
  {
    var run := db.runs[id];
    var frozen := Frozen(db, run.dataClass, memory);
    FreezeCases(db, id, memory);
    FrozenParts(db, run.dataClass, memory);
    ReadyStays(db, id, frozen);
    hide FromFreeze, DailyFor, WithPrices, MemoryFits, Frozen, Refreshes, KeyOfRun, FromDaily, SameErrors;
    ResumeUnindexed(db, id, memory, x);
    RecoverUnindexed(frozen, id, memory);
  }

  lemma RecoverKept(db: Store, id: nat, memory: Memory, x: Store)
    requires Ready(db, id) && PricedState(db, id) && MemoryFits(db.prices, memory) && KeyOfRun(db, id) !in db.daily
    requires x in FromFreeze(db, id, memory).commits && x != Frozen(db, db.runs[id].dataClass, memory)
    ensures EndState(x, id) == End(db, FromFreeze(db, id, memory)) && !Lost(db, id, memory, x)
  {
    var run := db.runs[id];
    FreezeCases(db, id, memory);
    hide FromFreeze, DailyFor, WithPrices, MemoryFits, Frozen, Refreshes, KeyOfRun, FromDaily, WithDaily;
    IndexedCommits(db, id, memory);
    WithDailyParts(db, id, memory);
    RefreshesKeep(WithDaily(db, id, memory), run.dataClass, run.date);
    ResumeIndexed(db, id, memory, x);
  }

  /** Recovery from every state that has this run's prices. */
  lemma RecoverFromPriced(db: Store, id: nat, memory: Memory, x: Store)
    requires Ready(db, id) && PricedState(db, id) && MemoryFits(db.prices, memory) && ErrorsAgree(db, id, memory)
    requires x == db || x in FromFreeze(db, id, memory).commits
    ensures EndState(x, id) == End(db, FromFreeze(db, id, memory))
       <==> !(Lost(db, id, memory, x) && MemoryMatters(db, id, memory))
  {
    assert id in db.runs && db.runs[id].dataClass in db.baskets;
    hide *;
    if KeyOfRun(db, id) in db.daily {
      RecoverFound(db, id, memory, x);
    } else if x == db || x == Frozen(db, db.runs[id].dataClass, memory) {
      RecoverLost(db, id, memory, x);
    } else {
      RecoverKept(db, id, memory, x);
    }
  }

  lemma RecoverFound(db: Store, id: nat, memory: Memory, x: Store)
    requires Ready(db, id) && PricedState(db, id) && MemoryFits(db.prices, memory) && KeyOfRun(db, id) in db.daily
    requires x == db || x in FromFreeze(db, id, memory).commits
    ensures EndState(x, id) == End(db, FromFreeze(db, id, memory))
    ensures !Lost(db, id, memory, x)
  {
    var frozen := Frozen(db, db.runs[id].dataClass, memory);
    FreezeCases(db, id, memory);
    if x == db || x == frozen {
      ResumeFound(db, id, memory, x);
    } else {
      IndexedCommits(db, id, memory);
      hide FromFreeze, Frozen, DailyFor;
      ResumeIndexed(db, id, memory, x);
    }
    hide *;
  }

  lemma RecoverUnindexed(frozen: Store, id: nat, memory: Memory)
    requires Ready(frozen, id) && KeyOfRun(frozen, id) !in frozen.daily && SameErrors(frozen, id, memory)
    ensures var direct, resumed := DailyFor(frozen, id, memory), DailyFor(frozen, id, Forgotten);
            Concluded(frozen, id, resumed) == Concluded(frozen, id, direct) <==> (direct.Err? || direct == resumed)
  {
    var direct, resumed := DailyFor(frozen, id, memory), DailyFor(frozen, id, Forgotten);
    if direct.Ok? {
      DifferentRowsDifferentEnds(frozen, id, resumed, direct);
    }
    hide DailyFor, FromDaily, KeyOfRun;
  }

  /** The crash left today's prices stored, but not yet the daily index this call was to create. */
  ghost predicate ExactPricesLost(db: Store, id: nat, x: Store)
    requires id in db.runs
  {
    var run, call := db.runs[id], CallFor(db, id);
    && call.outcome.Indexed? && call.outcome.created
    && OnDay(db.prices, run.dataClass, DayOf(run)) == [] && OnDay(x.prices, run.dataClass, DayOf(run)) != []
    && KeyOfRun(db, id) !in x.daily
  }

  /** Every item with a base has a whole-paise price, in the basket as the finished call leaves it. */
  ghost predicate PricesWereWhole(db: Store, id: nat)
    requires id in db.runs
  {
    var dc, end := db.runs[id].dataClass, EndState(db, id);
    dc in end.baskets && WholePaiseWhereBased(db.runs[id], end.baskets[dc].items)
  }

  lemma InAppended(first: seq<Store>, start: Store, rest: seq<Store>, x: Store)
    requires x in first + ([start] + rest)
    ensures x in first || x == start || x in rest
  {
  }

  lemma FrozenCommit(db: Store, id: nat, memory: Memory, x: Store)
    requires Ready(db, id) && x in FromFreeze(db, id, memory).commits
    ensures var frozen := Frozen(db, db.runs[id].dataClass, memory);
            x.prices == db.prices && x.runs == db.runs && x.baskets == frozen.baskets
  {
    assert id in db.runs && db.runs[id].dataClass in db.baskets;
    var run := db.runs[id];
    hide *;
    FrozenParts(db, run.dataClass, memory);
    if FromFreeze(db, id, memory).outcome.Indexed? {
      var start := WithDaily(db, id, memory);
      IndexedCommits(db, id, memory);
      WithDailyParts(db, id, memory);
      InAppended(if KeyOfRun(db, id) in db.daily then [] else [Frozen(db, run.dataClass, memory)], start,
                 Refreshes(start, run.dataClass, run.date), x);
      RefreshesKeep(start, run.dataClass, run.date);
    } else {
      RejectedCommits(db, id, memory);
    }
  }

  lemma SomeCommit(db: Store, id: nat, memory: Memory)
    requires Ready(db, id)
    ensures FromFreeze(db, id, memory).commits != []
    ensures End(db, FromFreeze(db, id, memory)) in FromFreeze(db, id, memory).commits
  {
    FreezeCases(db, id, memory);
    hide FromFreeze, Frozen, DailyFor, Refreshes, FromDaily, KeyOfRun;
  }

  /** The end of a call that reached the freeze has the frozen basket. */
  lemma EndKeepsBasket(db: Store, id: nat, memory: Memory)
    requires Ready(db, id)
    ensures var frozen, end := Frozen(db, db.runs[id].dataClass, memory), End(db, FromFreeze(db, id, memory));
            end.baskets == frozen.baskets && end.prices == db.prices && end.runs == db.runs
    ensures forall x :: x in FromFreeze(db, id, memory).commits ==>
              x.prices == db.prices && x.runs == db.runs
              && x.baskets == Frozen(db, db.runs[id].dataClass, memory).baskets
  {
    assert id in db.runs && db.runs[id].dataClass in db.baskets;
    hide *;
    SomeCommit(db, id, memory);
    forall x | x in FromFreeze(db, id, memory).commits
      ensures x.prices == db.prices && x.runs == db.runs
      ensures x.baskets == Frozen(db, db.runs[id].dataClass, memory).baskets
    {
      FrozenCommit(db, id, memory, x);
    }
  }

  lemma RejectedCommits(db: Store, id: nat, memory: Memory)
    requires Ready(db, id) && FromFreeze(db, id, memory).outcome.Rejected?
    ensures FromFreeze(db, id, memory).commits == [Frozen(db, db.runs[id].dataClass, memory)]
  {
    FreezeCases(db, id, memory);
    hide FromFreeze, Frozen, DailyFor, Refreshes, FromDaily, KeyOfRun;
  }

  /** A call that finds its prices computes nothing from memory: it recovers from every commit. */
  lemma RecoverFoundPrices(db: Store, id: nat, x: Store)
    requires Ready(db, id) && WithPrices(db, id).Ok? && WithPrices(db, id).value.memory == Forgotten
    requires x in CallFor(db, id).commits
    ensures EndState(x, id) == EndState(db, id)
    ensures OnDay(db.prices, db.runs[id].dataClass, DayOf(db.runs[id])) != []
  {
    assert WithPrices(db, id) == Ok(Priced(db, Forgotten));
    ResumeWithoutDaily(db, id);
    hide WithPrices, CallFor, FromFreeze, DailyFor, Frozen, DayOf, OnDay;
    RecoverFromPriced(db, id, Forgotten, x);
  }

  /** The state with fresh prices, and what the call does from there. */
  lemma PricesAlready(db: Store, id: nat)
    requires Ready(db, id) && WithPrices(db, id).Ok? && WithPrices(db, id).value.memory.Forgotten?
    ensures WithPrices(db, id) == Ok(Priced(db, Forgotten))
    ensures OnDay(db.prices, db.runs[id].dataClass, DayOf(db.runs[id])) != []
  {
    hide OnDay, DayOf;
  }

  lemma FreshCall(db: Store, id: nat)
    requires Ready(db, id) && WithPrices(db, id).Ok? && WithPrices(db, id).value.memory.Fresh?
    ensures var priced := WithPrices(db, id).value;
            && Ready(priced.store, id) && PricedState(priced.store, id)
            && MemoryFits(priced.store.prices, priced.memory)
            && CallFor(db, id) == After([priced.store], FromFreeze(priced.store, id, priced.memory))
            && EndState(db, id) == End(priced.store, FromFreeze(priced.store, id, priced.memory))
            && OnDay(db.prices, db.runs[id].dataClass, DayOf(db.runs[id])) == []
            && OnDay(priced.store.prices, db.runs[id].dataClass, DayOf(db.runs[id])) != []
  {
    var priced := WithPrices(db, id).value;
    FreshPrices(db, id);
    PricesSettled(db, id, priced.store);
    hide FromFreeze, DayOf, MemoryFits, NewPriceRow, ExactPrices;
  }

  lemma KeptDimensions(before: seq<BasketItem>, later: seq<BasketItem>)
    requires BaseKept(before, later)
    ensures SameDimensions(before, later)
  {
  }

  /** What a call that prices its date has in memory and in the table. */
  lemma FreshlyPriced(db: Store, id: nat)
    requires Ready(db, id) && WithPrices(db, id).Ok? && WithPrices(db, id).value.memory.Fresh?
    ensures var priced, run := WithPrices(db, id).value, db.runs[id];
            var items := db.baskets[run.dataClass].items;
            && priced.memory == Fresh(run.dataClass, DayOf(run), ExactPrices(run, items))
            && priced.store.runs == db.runs && priced.store.baskets == db.baskets
            && OnDay(priced.store.prices, run.dataClass, DayOf(run)) == NewPriceRows(id, run, items)
            && PositiveFares(run.fares)
  {
    FreshPrices(db, id);
    hide DayOf, MemoryFits, NewPriceRows, ExactPrices, OnDay, PositiveFares;
  }

  /** The daily row of such a call against the one a resumed call computes. */
  lemma FreshDaily(db: Store, id: nat)
    requires Ready(db, id) && WithPrices(db, id).Ok? && WithPrices(db, id).value.memory.Fresh?
    ensures var priced, run := WithPrices(db, id).value, db.runs[id];
            && run.dataClass in priced.store.baskets
            && var frozen := Frozen(priced.store, run.dataClass, priced.memory);
               && id in frozen.runs && frozen.runs[id] == run && run.dataClass in frozen.baskets
               && SameErrors(frozen, id, priced.memory)
               && (DailyFor(frozen, id, priced.memory).Ok? ==>
                     (DailyFor(frozen, id, priced.memory) != DailyFor(frozen, id, Forgotten)
                      <==> !WholePaiseWhereBased(run, frozen.baskets[run.dataClass].items)))
  {
    assert id in db.runs && db.runs[id].dataClass in db.baskets;
    FreshlyPriced(db, id);
    var priced, run := WithPrices(db, id).value, db.runs[id];
    var items := db.baskets[run.dataClass].items;
    FrozenKeepsBase(priced.store, run.dataClass, priced.memory);
    FrozenParts(priced.store, run.dataClass, priced.memory);
    hide DayOf, NewPriceRows, ExactPrices, Frozen, DailyFor, WithPrices, WholePaiseWhereBased, OnDay, PositiveFares,
         BaseKept, SameDimensions;
    KeptDimensions(items, Frozen(priced.store, run.dataClass, priced.memory).baskets[run.dataClass].items);
    DailyFromMemory(Frozen(priced.store, run.dataClass, priced.memory), id, items);
  }

  lemma CreatedDaily(db: Store, id: nat, memory: Memory)
    requires Ready(db, id) && FromFreeze(db, id, memory).outcome.Indexed? && FromFreeze(db, id, memory).outcome.created
    ensures DailyFor(Frozen(db, db.runs[id].dataClass, memory), id, memory).Ok?
  {
    FreezeCases(db, id, memory);
    hide FromFreeze, Frozen, DailyFor, KeyOfRun;
  }

  /** The basket at the end of such a call is the frozen one. */
  lemma FreshBasket(db: Store, id: nat)
    requires Ready(db, id) && WithPrices(db, id).Ok? && WithPrices(db, id).value.memory.Fresh?
    ensures var priced, run := WithPrices(db, id).value, db.runs[id];
            && run.dataClass in priced.store.baskets
            && var frozen := Frozen(priced.store, run.dataClass, priced.memory);
               && run.dataClass in frozen.baskets
               && (PricesWereWhole(db, id) <==> WholePaiseWhereBased(run, frozen.baskets[run.dataClass].items))
  {
    var priced, run := WithPrices(db, id).value, db.runs[id];
    FreshlyPriced(db, id);
    FreshCall(db, id);
    EndKeepsBasket(priced.store, id, priced.memory);
    FrozenParts(priced.store, run.dataClass, priced.memory);
    hide FromFreeze, DayOf, MemoryFits, NewPriceRows, ExactPrices, Frozen, DailyFor, WithPrices, WholePaiseWhereBased,
         OnDay, PositiveFares, CallFor;
  }

  /** From fresh prices, memory matters exactly when some price with a base was not whole. */
  lemma FreshMemoryMatters(db: Store, id: nat)
    requires Ready(db, id) && WithPrices(db, id).Ok? && WithPrices(db, id).value.memory.Fresh?
    ensures var priced := WithPrices(db, id).value;
            && Ready(priced.store, id) && ErrorsAgree(priced.store, id, priced.memory)
            && (FromFreeze(priced.store, id, priced.memory).outcome.Indexed?
                && FromFreeze(priced.store, id, priced.memory).outcome.created ==>
                  (MemoryMatters(priced.store, id, priced.memory) <==> !PricesWereWhole(db, id)))
  {
    var priced := WithPrices(db, id).value;
    FreshCall(db, id);
    FreshlyPriced(db, id);
    FreshDaily(db, id);
    FreshBasket(db, id);
    hide FromFreeze, DayOf, MemoryFits, NewPriceRows, ExactPrices, Frozen, DailyFor, WithPrices, WholePaiseWhereBased,
         OnDay, PositiveFares, CallFor, PricesWereWhole, SameErrors, Finished;
    if FromFreeze(priced.store, id, priced.memory).outcome.Indexed?
       && FromFreeze(priced.store, id, priced.memory).outcome.created {
      CreatedDaily(priced.store, id, priced.memory);
    }
  }

  lemma RecoverFreshPrices(db: Store, id: nat, x: Store)
    requires Ready(db, id) && WithPrices(db, id).Ok? && WithPrices(db, id).value.memory.Fresh?
    requires x in CallFor(db, id).commits
    ensures EndState(x, id) == EndState(db, id) <==> !(ExactPricesLost(db, id, x) && !PricesWereWhole(db, id))
  {
    var priced := WithPrices(db, id).value;
    FreshCall(db, id);
    FreshMemoryMatters(db, id);
    EndKeepsBasket(priced.store, id, priced.memory);
    assert x == priced.store || x in FromFreeze(priced.store, id, priced.memory).commits;
    RecoverFromPriced(priced.store, id, priced.memory, x);
    hide FromFreeze, DayOf, MemoryFits, Frozen, DailyFor, WithPrices, CallFor, OnDay, PricesWereWhole, MemoryMatters,
         ErrorsAgree, Ready, EndState;
  }

  lemma RecoverWithBasket(db: Store, id: nat, x: Store)
    requires Ready(db, id) && x in CallFor(db, id).commits
    ensures EndState(x, id) == EndState(db, id) <==> !(ExactPricesLost(db, id, x) && !PricesWereWhole(db, id))
  {
    assert WithPrices(db, id).Ok?;
    if WithPrices(db, id).value.memory.Fresh? {
      RecoverFreshPrices(db, id, x);
    } else {
      assert WithPrices(db, id).value.memory == Forgotten;
      RecoverFoundPrices(db, id, x);
    }
    hide WithPrices, CallFor, FromFreeze, EndState, PricesWereWhole, OnDay, DayOf, KeyOfRun;
  }

  /** A call that first creates the basket continues as a call on the state with the basket. */
  lemma CreatesBasket(db: Store, id: nat)
    requires id in db.runs && PositiveFares(db.runs[id].fares)
    requires db.runs[id].dataClass !in db.baskets && CallFor(db, id).commits != []
    ensures var next := WithBasket(db, db.runs[id].dataClass);
            && Ready(next, id) && next.prices == db.prices && next.runs == db.runs
            && CallFor(db, id) == After([next], CallFor(next, id)) && EndState(db, id) == EndState(next, id)
  {
    hide FromPrices, NewBasket;
  }

  /** Whatever commit a call is interrupted after, calling again for the same run ends in the state an
      uninterrupted call reaches, unless the crash lost exact prices that were not whole paise.  When that
      is, in terms of the state before the call, `IndexCrash` says. */
  lemma RecoveryByOutcome(db: Store, id: nat, i: nat)
    requires id in db.runs && PositiveFares(db.runs[id].fares) && i < |CallFor(db, id).commits|
    ensures var x := CallFor(db, id).commits[i];
            EndState(x, id) == EndState(db, id) <==> !(ExactPricesLost(db, id, x) && !PricesWereWhole(db, id))
  {
    var x := CallFor(db, id).commits[i];
    if db.runs[id].dataClass in db.baskets {
      assert Ready(db, id);
      RecoverWithBasket(db, id, x);
    } else {
      CreatesBasket(db, id);
      var next := WithBasket(db, db.runs[id].dataClass);
      if i > 0 {
        assert x in CallFor(next, id).commits;
        RecoverWithBasket(next, id, x);
      }
    }
    hide CallFor, EndState, WithBasket, OnDay, DayOf, KeyOfRun, WholePaiseWhereBased;
  }

  /** Once a call has indexed its run, every later call finds the same row and creates nothing. */
  lemma LaterCallsFindTheRow(db: Store, id: nat)
    requires id in db.runs && PositiveFares(db.runs[id].fares) && CallFor(db, id).outcome.Indexed?
    ensures CallFor(EndState(db, id), id).outcome == Indexed(CallFor(db, id).outcome.row, false)
    ensures EndState(EndState(db, id), id) == EndState(db, id)
  {
    var start := if db.runs[id].dataClass in db.baskets then db else WithBasket(db, db.runs[id].dataClass);
    if db.runs[id].dataClass !in db.baskets {
      CreatesBasket(db, id);
    }
    assert Ready(start, id);
    LaterCallsWithBasket(start, id);
    hide CallFor, EndState, WithBasket;
  }

  lemma LaterCallsWithBasket(db: Store, id: nat)
    requires Ready(db, id) && CallFor(db, id).outcome.Indexed?
    ensures CallFor(EndState(db, id), id).outcome == Indexed(CallFor(db, id).outcome.row, false)
    ensures EndState(EndState(db, id), id) == EndState(db, id)
  {
    assert WithPrices(db, id).Ok?;
    var priced := WithPrices(db, id).value;
    if priced.memory.Fresh? {
      FreshCall(db, id);
    } else {
      assert WithPrices(db, id) == Ok(Priced(db, Forgotten));
      ResumeWithoutDaily(db, id);
    }
    hide WithPrices, CallFor, FromFreeze, DayOf, OnDay, MemoryFits;
    var start := WithDaily(priced.store, id, priced.memory);
    IndexedCommits(priced.store, id, priced.memory);
    ResumeIndexed(priced.store, id, priced.memory, Refreshes(start, db.runs[id].dataClass, db.runs[id].date)[1]);
  }

  // ---------------------------------------------------------------------------------------------
  // An input for which recovery fails

  /** Two economy INR fares of 1 and 2 paise have the median 1.5, stored as 2. */
  lemma HalfPaisaIsNotWhole(run: CollectionRun, item: BasketItem, a: CanonicalFare, b: CanonicalFare)
    requires run.fares == [a, b] && Matches(a, item) && Matches(b, item) && a.fare == 1 && b.fare == 2
    ensures ExactPrice(run, item) == Some(1.5) && Stored(ExactPrice(run, item)) == Some(2)
    ensures !Whole(ExactPrice(run, item).value)
  {
    assert [a, b][..1] == [a] && [a][..0] == [];
    assert MatchingFares([a], item) == [1.0];
    assert MatchingFares([a, b], item) == [1.0, 2.0];
    TwoValues();
  }

  lemma TwoValues()
    ensures Medians.Median([1.0, 2.0]) == 1.5
  {
    var s := [1.0, 2.0];
    assert s[1..] == [2.0] && [2.0][1..] == [];
    assert Medians.Ascending([2.0]) == [2.0];
    assert Medians.Ascending(s) == s;
  }
}
