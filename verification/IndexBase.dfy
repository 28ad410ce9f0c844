/** The frozen base: what it is, that it is written once, and that recomputing it changes nothing. */
module IndexBase {
  import opened Aggregates
  import opened Options
  import opened Domain
  import opened Calendar
  import opened Methodology
  import opened Periods
  import opened IndexModel
  import opened Sorting
  import Medians
  import Rounding

  // ---------------------------------------------------------------------------------------------
  // In-memory prices do not influence the base

  /** What the session remembers rounds to what it stored. */
  ghost predicate MemoryFits(prices: seq<PriceRow>, memory: Memory) {
    memory.Fresh? ==>
      forall i :: 0 <= i < |prices| && prices[i].dataClass == memory.dataClass && prices[i].day == memory.day
                  && prices[i].item < |memory.exact| ==>
        prices[i].price == Stored(memory.exact[prices[i].item])
  }

  function RoundPaise(): real -> real {
    (x: real) => Rounding.HalfAway(x) as real
  }

  lemma RoundPaiseMonotone()
    ensures Medians.Monotone(RoundPaise())
  {
    forall x: real, y: real | x <= y
      ensures RoundPaise()(x) <= RoundPaise()(y)
    {
      Rounding.HalfAwayMonotone(x, y);
    }
  }

  /** Forgetting the session turns each read price into its stored rounding. */
  lemma ForgetPrice(prices: seq<PriceRow>, row: PriceRow, memory: Memory)
    requires MemoryFits(prices, memory) && row in prices
    ensures ReadPrice(row, Forgotten).Some? <==> ReadPrice(row, memory).Some?
    ensures ReadPrice(row, memory).Some? ==>
              ReadPrice(row, Forgotten).value == RoundPaise()(ReadPrice(row, memory).value)
  {
    var i :| 0 <= i < |prices| && prices[i] == row;
    if row.price.Some? {
      Rounding.HalfAwayFixesIntegers(row.price.value);
    }
  }

  lemma {:induction false} ForgetPrices(prices: seq<PriceRow>, rows: seq<PriceRow>, memory: Memory)
    requires MemoryFits(prices, memory) && forall r :: r in rows ==> r in prices
    ensures ReadPrices(rows, Forgotten) == Medians.Map(RoundPaise(), ReadPrices(rows, memory))
  {
    if rows != [] {
      var head, last := rows[..|rows| - 1], rows[|rows| - 1];
      ForgetPrices(prices, head, memory);
      assert last in rows;
      ForgetPrice(prices, last, memory);
      MapAppend(ReadPrices(head, memory), ReadPrice(last, memory));
    }
    hide MemoryFits, ReadPrice, RoundPaise;
  }

  lemma MapAppend(s: seq<real>, x: Option<real>)
    ensures x.Some? ==>
              Medians.Map(RoundPaise(), s + [x.value]) == Medians.Map(RoundPaise(), s) + [RoundPaise()(x.value)]
    ensures Medians.Map(RoundPaise(), s + []) == Medians.Map(RoundPaise(), s)
  {
    hide RoundPaise;
    assert s + [] == s;
  }

  lemma FrozenItemForgets(prices: seq<PriceRow>, item: BasketItem, rows: seq<PriceRow>, memory: Memory)
    requires MemoryFits(prices, memory) && forall r :: r in rows ==> r in prices
    ensures FrozenItem(item, rows, memory) == FrozenItem(item, rows, Forgotten)
  {
    hide MemoryFits;
    ForgetPrices(prices, rows, memory);
    var exact := ReadPrices(rows, memory);
    if |exact| == BASE_REQUIRED_DATES {
      RoundPaiseMonotone();
      Medians.MedianOddMap(RoundPaise(), exact);
      Rounding.HalfAwayFixesIntegers(Rounding.HalfAway(Medians.Median(exact)));
    }
    hide Medians.Median, Rounding.HalfAway;
  }

  lemma {:induction false} CandidatesAre(prices: seq<PriceRow>, dc: DataClass, k: nat, runs: map<nat, CollectionRun>)
    ensures forall r :: r in Candidates(prices, dc, k, runs) <==> r in prices && Eligible(r, dc, k, runs)
  {
    hide Eligible;
    if prices != [] {
      var head, last := prices[..|prices| - 1], prices[|prices| - 1];
      CandidatesAre(head, dc, k, runs);
      assert forall r :: r in prices <==> r in head || r == last;
    }
  }

  lemma EarliestAre(prices: seq<PriceRow>, dc: DataClass, k: nat, runs: map<nat, CollectionRun>)
    ensures forall r :: r in Earliest(prices, dc, k, runs) ==> r in prices && Eligible(r, dc, k, runs)
  {
    var c := Candidates(prices, dc, k, runs);
    CandidatesAre(prices, dc, k, runs);
    SortPermutes(c, ByDay);
    SameMembers(c, Sort(c, ByDay));
    hide Eligible, Candidates, Sort;
  }

  /** The base does not depend on whether the session still holds exact prices. */
  lemma FrozenForgets(db: Store, dc: DataClass, memory: Memory)
    requires dc in db.baskets && MemoryFits(db.prices, memory)
    ensures Frozen(db, dc, memory) == Frozen(db, dc, Forgotten)
  {
    var items := db.baskets[dc].items;
    forall k: nat | k < |items|
      ensures FrozenItem(items[k], Earliest(db.prices, dc, k, db.runs), memory)
           == FrozenItem(items[k], Earliest(db.prices, dc, k, db.runs), Forgotten)
    {
      EarliestAre(db.prices, dc, k, db.runs);
      FrozenItemForgets(db.prices, items[k], Earliest(db.prices, dc, k, db.runs), memory);
    }
    hide FrozenItem, Earliest, MemoryFits;
    assert FrozenItems(db, dc, memory) == FrozenItems(db, dc, Forgotten);
  }

  // ---------------------------------------------------------------------------------------------
  // Freezing twice

  lemma FrozenItemTwice(item: BasketItem, rows: seq<PriceRow>)
    ensures FrozenItem(FrozenItem(item, rows, Forgotten), rows, Forgotten) == FrozenItem(item, rows, Forgotten)
  {
    hide ReadPrices;
  }

  lemma SettledTwice(basket: Basket)
    ensures Settled(Settled(basket)) == Settled(basket) && Settled(basket).items == basket.items
  {
    hide Complete, AllComponents, Greatest, Least;
  }

  /** A second freeze on the same prices changes nothing. */
  lemma FrozenTwice(db: Store, dc: DataClass)
    requires dc in db.baskets
    ensures Frozen(Frozen(db, dc, Forgotten), dc, Forgotten) == Frozen(db, dc, Forgotten)
  {
    var once := Frozen(db, dc, Forgotten);
    var basket := db.baskets[dc].(items := FrozenItems(db, dc, Forgotten));
    SettledTwice(basket);
    forall k: nat | k < |basket.items|
      ensures FrozenItems(once, dc, Forgotten)[k] == basket.items[k]
    {
      FrozenItemTwice(db.baskets[dc].items[k], Earliest(db.prices, dc, k, db.runs));
    }
    hide FrozenItem, Settled, Earliest;
    assert FrozenItems(once, dc, Forgotten) == basket.items;
    assert once.baskets[dc].(items := basket.items) == Settled(basket);
  }

  // ---------------------------------------------------------------------------------------------
  // What a naturally frozen base is

  /** The unique constraint on daily prices. */
  ghost predicate UniqueRows(prices: seq<PriceRow>) {
    forall i, j :: 0 <= i < j < |prices| ==>
      !(prices[i].dataClass == prices[j].dataClass && prices[i].day == prices[j].day
        && prices[i].item == prices[j].item)
  }

  ghost predicate DistinctDays(rows: seq<PriceRow>) {
    forall i, j :: 0 <= i < j < |rows| ==> rows[i].day != rows[j].day
  }

  lemma {:induction false} CandidatesDistinct(prices: seq<PriceRow>, dc: DataClass, k: nat,
                                              runs: map<nat, CollectionRun>)
    requires UniqueRows(prices)
    ensures DistinctDays(Candidates(prices, dc, k, runs))
  {
    if prices != [] {
      var head, last := prices[..|prices| - 1], prices[|prices| - 1];
      CandidatesDistinct(head, dc, k, runs);
      CandidatesAre(head, dc, k, runs);
      var c := Candidates(head, dc, k, runs);
      if Eligible(last, dc, k, runs) {
        forall i | 0 <= i < |c|
          ensures c[i].day != last.day
        {
          assert c[i] in c;
          var m :| 0 <= m < |head| && head[m] == c[i];
          assert prices[m] == c[i];
        }
      }
    }
  }

  lemma {:induction false} InsertDistinct(x: PriceRow, s: seq<PriceRow>)
    requires DistinctDays(s) && forall r :: r in s ==> r.day != x.day
    ensures DistinctDays(Insert(x, s, ByDay))
  {
    if s != [] && !ByDay(x, s[0]) {
      InsertDistinct(x, s[1..]);
      InsertPermutes(x, s[1..], ByDay);
      var tail := Insert(x, s[1..], ByDay);
      SameMembers(tail, [x] + s[1..]);
      forall i | 0 <= i < |tail|
        ensures tail[i].day != s[0].day
      {
        assert tail[i] in tail;
        if tail[i] in s[1..] {
          var m :| 0 <= m < |s[1..]| && s[1..][m] == tail[i];
          assert s[m + 1] == tail[i];
        }
      }
    }
  }

  lemma {:induction false} SortDistinct(s: seq<PriceRow>)
    requires DistinctDays(s)
    ensures DistinctDays(Sort(s, ByDay))
  {
    if s != [] {
      SortDistinct(s[1..]);
      SortPermutes(s[1..], ByDay);
      SameMembers(s[1..], Sort(s[1..], ByDay));
      forall r | r in s[1..]
        ensures r.day != s[0].day
      {
        var m :| 0 <= m < |s[1..]| && s[1..][m] == r;
        assert s[m + 1] == r;
      }
      InsertDistinct(s[0], Sort(s[1..], ByDay));
    }
  }

  lemma StrictOrder(ordered: seq<PriceRow>)
    requires SortedBy(ordered, ByDay) && DistinctDays(ordered)
    ensures forall i, j :: 0 <= i < j < |ordered| ==> ordered[i].day < ordered[j].day
  {
    forall i, j | 0 <= i < j < |ordered|
      ensures ordered[i].day < ordered[j].day
    {
      assert ByDay(ordered[i], ordered[j]);
    }
  }

  lemma LaterThanPrefix(ordered: seq<PriceRow>, n: nat, r: PriceRow)
    requires 0 < n <= |ordered| && r in ordered && r !in ordered[..n]
    requires forall i, j :: 0 <= i < j < |ordered| ==> ordered[i].day < ordered[j].day
    ensures ordered[n - 1].day < r.day
  {
    var m :| 0 <= m < |ordered| && ordered[m] == r;
    assert forall i :: 0 <= i < n ==> ordered[i] in ordered[..n];
  }

  /** The rows a base is computed from: the seven earliest eligible ones, on seven distinct dates;
      any other eligible row is dated after all of them. */
  lemma EarliestSeven(prices: seq<PriceRow>, dc: DataClass, k: nat, runs: map<nat, CollectionRun>)
    requires UniqueRows(prices) && |Earliest(prices, dc, k, runs)| == BASE_REQUIRED_DATES
    ensures var rows := Earliest(prices, dc, k, runs);
            && (forall i, j :: 0 <= i < j < BASE_REQUIRED_DATES ==> rows[i].day < rows[j].day)
            && (forall r :: r in rows ==> r in prices && Eligible(r, dc, k, runs))
            && (forall r :: r in prices && Eligible(r, dc, k, runs) && r !in rows ==> rows[6].day < r.day)
  {
    var c, rows := Candidates(prices, dc, k, runs), Earliest(prices, dc, k, runs);
    var ordered := Sort(c, ByDay);
    assert |ordered| >= BASE_REQUIRED_DATES && rows == ordered[..BASE_REQUIRED_DATES];
    hide Eligible, Candidates, Sort, Earliest, SortedBy, DistinctDays, UniqueRows;
    CandidatesDistinct(prices, dc, k, runs);
    SortDistinct(c);
    SortOrders(c, ByDay);
    StrictOrder(ordered);
    SortPermutes(c, ByDay);
    SameMembers(c, ordered);
    CandidatesAre(prices, dc, k, runs);
    EarliestAre(prices, dc, k, runs);
    forall r | r in prices && Eligible(r, dc, k, runs) && r !in rows
      ensures rows[6].day < r.day
    {
      LaterThanPrefix(ordered, BASE_REQUIRED_DATES, r);
    }
  }

  /** An item that a freeze gives a base had none, and gets the stored median of its earliest seven
      eligible prices together with their dates. */
  lemma NaturalBase(db: Store, dc: DataClass, k: nat)
    requires dc in db.baskets && UniqueRows(db.prices) && k < |db.baskets[dc].items|
    requires db.baskets[dc].items[k].base.None? && Frozen(db, dc, Forgotten).baskets[dc].items[k].base.Some?
    ensures var rows, item := Earliest(db.prices, dc, k, db.runs), Frozen(db, dc, Forgotten).baskets[dc].items[k];
            && |rows| == BASE_REQUIRED_DATES && item.components == Days(rows)
            && |ReadPrices(rows, Forgotten)| == BASE_REQUIRED_DATES
            && item.base.value as real == Medians.Median(ReadPrices(rows, Forgotten))
  {
    SettledTwice(db.baskets[dc].(items := FrozenItems(db, dc, Forgotten)));
    var rows := Earliest(db.prices, dc, k, db.runs);
    var item := FrozenItem(db.baskets[dc].items[k], rows, Forgotten);
    assert Frozen(db, dc, Forgotten).baskets[dc].items[k] == item;
    hide Settled, Earliest;
    assert |rows| <= BASE_REQUIRED_DATES by {
      EarliestSize(db.prices, dc, k, db.runs);
    }
    WholeMedian(rows);
  }

  lemma EarliestSize(prices: seq<PriceRow>, dc: DataClass, k: nat, runs: map<nat, CollectionRun>)
    ensures |Earliest(prices, dc, k, runs)| <= BASE_REQUIRED_DATES
  {
  }

  /** Seven stored prices have a stored median: nothing is rounded away. */
  lemma WholeMedian(rows: seq<PriceRow>)
    requires |ReadPrices(rows, Forgotten)| == BASE_REQUIRED_DATES
    ensures Rounding.HalfAway(Medians.Median(ReadPrices(rows, Forgotten))) as real
         == Medians.Median(ReadPrices(rows, Forgotten))
  {
    var prices := ReadPrices(rows, Forgotten);
    WholePrices(rows);
    RoundPaiseMonotone();
    Medians.MedianOddMap(RoundPaise(), prices);
    hide Medians.Median;
  }

  lemma {:induction false} WholePrices(rows: seq<PriceRow>)
    ensures Medians.Map(RoundPaise(), ReadPrices(rows, Forgotten)) == ReadPrices(rows, Forgotten)
  {
    if rows != [] {
      var head, last := rows[..|rows| - 1], rows[|rows| - 1];
      WholePrices(head);
      MapAppend(ReadPrices(head, Forgotten), ReadPrice(last, Forgotten));
      if last.price.Some? {
        Rounding.HalfAwayFixesIntegers(last.price.value);
      }
    }
  }

  lemma {:induction false} ComponentsAmongAll(items: seq<BasketItem>, k: nat)
    requires k < |items|
    ensures forall day :: day in items[k].components ==> day in AllComponents(items)
  {
    if k < |items| - 1 {
      ComponentsAmongAll(items[..|items| - 1], k);
    }
  }

  /** The base period of a basket that a freeze completes runs from the earliest to the latest date that
      any of its bases was computed from. */
  lemma BaseDatesSpan(basket: Basket)
    requires Complete(basket.items) && basket.baseEnd.None? && AllComponents(basket.items) != []
    ensures var settled := Settled(basket);
            && settled.baseStart.Some? && settled.baseEnd.Some?
            && settled.baseStart.value in AllComponents(basket.items)
            && settled.baseEnd.value in AllComponents(basket.items)
            && forall k, day :: 0 <= k < |basket.items| && day in basket.items[k].components ==>
                 settled.baseStart.value <= day <= settled.baseEnd.value
  {
    var all := AllComponents(basket.items);
    LeastIsLeast(all);
    GreatestIsGreatest(all);
    hide AllComponents, Complete, Least, Greatest;
    forall k: nat, day | k < |basket.items| && day in basket.items[k].components
      ensures Least(all) <= day <= Greatest(all)
    {
      ComponentsAmongAll(basket.items, k);
    }
  }

  // ---------------------------------------------------------------------------------------------
  // Written once

  /** No base price, once set, differs later, nor does the list of dates it came from. */
  ghost predicate BaseKept(before: seq<BasketItem>, later: seq<BasketItem>) {
    && |later| == |before|
    && forall k :: 0 <= k < |before| ==>
        && later[k].route == before[k].route && later[k].window == before[k].window
        && later[k].weight == before[k].weight
        && (before[k].base.Some? ==> later[k].base == before[k].base && later[k].components == before[k].components)
  }

  lemma FrozenKeepsBase(db: Store, dc: DataClass, memory: Memory)
    requires dc in db.baskets
    ensures BaseKept(db.baskets[dc].items, Frozen(db, dc, memory).baskets[dc].items)
  {
    SettledTwice(db.baskets[dc].(items := FrozenItems(db, dc, memory)));
    hide Settled, Earliest, ReadPrices;
  }

  /** Seeding keeps every base that was already there; a basket whose seeded items carry no
      component dates keeps those too. */
  lemma SeededKeepsBase(basket: Basket, prices: seq<real>, day: int)
    requires Seeded(basket, prices, day).Ok?
    requires basket.policy == SEEDED_FIXED ==>
      forall k :: 0 <= k < |basket.items| ==> basket.items[k].components == []
    ensures BaseKept(basket.items, Seeded(basket, prices, day).value.items)
  {
    var next := Seeded(basket, prices, day).value;
    forall k | 0 <= k < |basket.items| && basket.items[k].base.Some?
      ensures next.items[k].base == basket.items[k].base && next.items[k].components == basket.items[k].components
    {
      assert basket.items[k].base.value as real == prices[k];
      Rounding.HalfAwayFixesIntegers(basket.items[k].base.value);
    }
    hide Rounding.HalfAway;
  }

  /** An accepted seeding completes the basket with positive bases, each within half a paisa of its price
      and equal to it when that is whole. */
  lemma SeedingCompletes(basket: Basket, prices: seq<real>, day: int)
    requires basket.items != [] && Seeded(basket, prices, day).Ok?
    ensures var items := Seeded(basket, prices, day).value.items;
            && Complete(items) && |items| == |prices|
            && forall k :: 0 <= k < |items| ==>
                 && items[k].base.Some? && items[k].base.value > 0
                 && -0.5 <= prices[k] - items[k].base.value as real <= 0.5
                 && (prices[k] == prices[k].Floor as real ==> items[k].base.value as real == prices[k])
  {
    var items := Seeded(basket, prices, day).value.items;
    forall k | 0 <= k < |items|
      ensures items[k].base == Some(Rounding.HalfAway(prices[k])) && Rounding.HalfAway(prices[k]) > 0
      ensures prices[k] == prices[k].Floor as real ==> Rounding.HalfAway(prices[k]) == prices[k].Floor
    {
      Rounding.HalfAwayFixesIntegers(prices[k].Floor);
    }
  }

  /** Once complete, a basket stays complete under anything that keeps its bases. */
  lemma CompleteIsStable(before: seq<BasketItem>, later: seq<BasketItem>)
    requires BaseKept(before, later) && Complete(before)
    ensures Complete(later)
  {
  }
}
