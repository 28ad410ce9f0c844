/** When an item of a natural basket gets its base, and what it is (`indexing/periods.py`), said of the stored
    prices: the median of the first seven prices it has, scheduled runs alone counting for live data. */
module BaseRule {
  import opened Options
  import opened Domain
  import opened IndexModel
  import opened IndexBase
  import opened Medians
  import opened Sorting
  import Rounding

  /** The stored prices of item `k` that may enter its base. */
  ghost function Entering(db: Store, dc: DataClass, k: nat): set<PriceRow> {
    set r | r in db.prices && r.item == k && r.dataClass == dc && r.price.Some?
            && (dc == LIVE ==> r.run in db.runs && db.runs[r.run].trigger == SCHEDULED)
  }

  ghost function PriceAt(): PriceRow -> real {
    (r: PriceRow) => if r.price.Some? then r.price.value as real else 0.0
  }

  /** Seven of the rows, on seven dates, with every other one dated after them. */
  ghost predicate FirstSeven(first: set<PriceRow>, rows: set<PriceRow>) {
    && first <= rows && |first| == 7
    && (forall a, b :: a in first && b in first && a != b ==> a.day != b.day)
    && forall a, b :: a in first && b in rows - first ==> a.day < b.day
  }

  /** The dates of the rows, in ascending order. */
  ghost predicate DatesOf(days: seq<int>, rows: set<PriceRow>) {
    && |days| == |rows| && (forall i, j :: 0 <= i < j < |days| ==> days[i] < days[j])
    && forall r :: r in rows ==> r.day in days
  }

  /** The item's base is the median of its first seven prices and its components are their dates. */
  ghost predicate BasedOn(item: BasketItem, first: set<PriceRow>, rows: set<PriceRow>) {
    && FirstSeven(first, rows)
    && item.base.Some? && MedianOf(first, PriceAt(), item.base.value as real)
    && DatesOf(item.components, first)
  }

  lemma EligibleMeans(db: Store, dc: DataClass, k: nat, r: PriceRow)
    ensures r in db.prices && Eligible(r, dc, k, db.runs) <==> r in Entering(db, dc, k)
  {
  }

  lemma DaysDistinguish(rows: seq<PriceRow>)
    requires DistinctDays(rows)
    ensures forall i, j :: 0 <= i < j < |rows| ==> rows[i] != rows[j]
  {
  }

  lemma DistinctCount(rows: seq<PriceRow>)
    requires DistinctDays(rows)
    ensures |SetOf(rows)| == |rows|
  {
    var values := seq(|rows|, i requires 0 <= i < |rows| => PriceAt()(rows[i]));
    DaysDistinguish(rows);
    SetOfCount(values, rows, PriceAt());
  }

  /** As many rows enter as there are candidates, and the earliest seven of them are taken. */
  lemma EarliestCount(db: Store, dc: DataClass, k: nat)
    requires UniqueRows(db.prices)
    ensures |Earliest(db.prices, dc, k, db.runs)|
            == if |Entering(db, dc, k)| < 7 then |Entering(db, dc, k)| else 7
  {
    var candidates := Candidates(db.prices, dc, k, db.runs);
    CandidatesDistinct(db.prices, dc, k, db.runs);
    CandidatesAre(db.prices, dc, k, db.runs);
    EarliestLength(db, dc, k);
    hide *;
    forall r
      ensures r in SetOf(candidates) <==> r in Entering(db, dc, k)
    {
      EligibleMeans(db, dc, k, r);
      InSetOf(candidates, r);
    }
    assert SetOf(candidates) == Entering(db, dc, k);
    DistinctCount(candidates);
  }

  lemma InSetOf(rows: seq<PriceRow>, r: PriceRow)
    ensures r in SetOf(rows) <==> r in rows
  {
  }

  lemma EarliestLength(db: Store, dc: DataClass, k: nat)
    ensures var candidates := Candidates(db.prices, dc, k, db.runs);
            |Earliest(db.prices, dc, k, db.runs)| == if |candidates| < 7 then |candidates| else 7
  {
    SortPermutes(Candidates(db.prices, dc, k, db.runs), ByDay);
    hide Candidates, Sort;
    var c := Candidates(db.prices, dc, k, db.runs);
    assert |multiset(Sort(c, ByDay))| == |multiset(c)|;
  }

  lemma {:induction false} PricesRead(rows: seq<PriceRow>)
    requires forall r :: r in rows ==> r.price.Some?
    ensures |ReadPrices(rows, Forgotten)| == |rows|
    ensures forall i :: 0 <= i < |rows| ==> ReadPrices(rows, Forgotten)[i] == PriceAt()(rows[i])
  {
    if rows != [] {
      var n := |rows| - 1;
      assert rows[n] in rows;
      assert forall r :: r in rows[..n] ==> r in rows;
      PricesRead(rows[..n]);
    }
  }

  /** The item a freeze leaves. */
  lemma FrozenIs(db: Store, dc: DataClass, k: nat)
    requires dc in db.baskets && k < |db.baskets[dc].items|
    ensures var before := db.baskets[dc].items[k];
            && dc in Frozen(db, dc, Forgotten).baskets
            && |Frozen(db, dc, Forgotten).baskets[dc].items| == |db.baskets[dc].items|
            && Frozen(db, dc, Forgotten).baskets[dc].items[k]
                 == FrozenItem(before, Earliest(db.prices, dc, k, db.runs), Forgotten)
  {
    SettledTwice(db.baskets[dc].(items := FrozenItems(db, dc, Forgotten)));
    hide Settled, Earliest, FrozenItem;
  }

  lemma AscendingDays(rows: seq<PriceRow>)
    requires forall i, j :: 0 <= i < j < |rows| ==> rows[i].day < rows[j].day
    ensures DistinctDays(rows)
    ensures DatesOf(Days(rows), SetOf(rows))
  {
    DistinctCount(rows);
    forall r | r in SetOf(rows)
      ensures r.day in Days(rows)
    {
      var i :| 0 <= i < |rows| && rows[i] == r;
      assert Days(rows)[i] == r.day;
    }
  }

  lemma EarliestAreFirst(db: Store, dc: DataClass, k: nat)
    requires UniqueRows(db.prices) && |Earliest(db.prices, dc, k, db.runs)| == 7
    ensures var rows := Earliest(db.prices, dc, k, db.runs);
            && FirstSeven(SetOf(rows), Entering(db, dc, k)) && DatesOf(Days(rows), SetOf(rows))
            && (forall i, j :: 0 <= i < j < |rows| ==> rows[i] != rows[j]) && forall r :: r in rows ==> r.price.Some?
  {
    var rows, entering := Earliest(db.prices, dc, k, db.runs), Entering(db, dc, k);
    EarliestSeven(db.prices, dc, k, db.runs);
    AscendingDays(rows);
    DaysDistinguish(rows);
    DistinctCount(rows);
    forall r
      ensures r in rows ==> r in entering && r.price.Some?
      ensures r in entering && r !in rows ==> rows[6].day < r.day
    {
      EligibleMeans(db, dc, k, r);
    }
    hide Earliest, Eligible, UniqueRows;
    FirstOf(rows, entering);
  }

  lemma FirstOf(rows: seq<PriceRow>, entering: set<PriceRow>)
    requires |rows| == 7 && |SetOf(rows)| == 7 && forall i, j :: 0 <= i < j < |rows| ==> rows[i].day < rows[j].day
    requires forall r :: r in rows ==> r in entering
    requires forall r :: r in entering && r !in rows ==> rows[6].day < r.day
    ensures FirstSeven(SetOf(rows), entering)
  {
    forall a, b | a in SetOf(rows) && b in entering - SetOf(rows)
      ensures a.day < b.day
    {
      var i :| 0 <= i < |rows| && rows[i] == a;
      assert i < 6 ==> rows[i].day < rows[6].day;
    }
  }

  lemma BasedOnEarliest(db: Store, dc: DataClass, k: nat, item: BasketItem)
    requires UniqueRows(db.prices) && item.base.None? && |Earliest(db.prices, dc, k, db.runs)| == 7
    ensures var rows := Earliest(db.prices, dc, k, db.runs);
            BasedOn(FrozenItem(item, rows, Forgotten), SetOf(rows), Entering(db, dc, k))
  {
    var rows := Earliest(db.prices, dc, k, db.runs);
    var prices := ReadPrices(rows, Forgotten);
    EarliestAreFirst(db, dc, k);
    PricesRead(rows);
    WholeMedian(rows);
    FrozenFrom(item, rows);
    hide Earliest, UniqueRows, ReadPrices, PriceAt, Entering, FirstSeven, DatesOf, Rounding.HalfAway, Median, MedianOf,
         FrozenItem;
    MedianIsMiddle(prices, rows, PriceAt());
  }

  lemma FrozenFrom(item: BasketItem, rows: seq<PriceRow>)
    requires item.base.None? && |rows| == 7 && |ReadPrices(rows, Forgotten)| == 7
    ensures FrozenItem(item, rows, Forgotten)
            == item.(base := Some(Rounding.HalfAway(Median(ReadPrices(rows, Forgotten)))), components := Days(rows))
  {
    hide ReadPrices, Median, Rounding.HalfAway;
  }

  lemma NotFrozen(item: BasketItem, rows: seq<PriceRow>)
    requires |rows| < 7
    ensures FrozenItem(item, rows, Forgotten) == item
  {
    hide ReadPrices, Median, Rounding.HalfAway;
  }

  /** A freeze gives an item without a base one exactly when at least seven stored prices may enter it: the median
      of the seven earliest, whose dates it keeps.  Prices of other items and classes never enter, nor do
      missing ones, nor prices of runs that were not scheduled when the class is LIVE. */
  lemma BaseExactly(db: Store, dc: DataClass, k: nat)
    requires dc in db.baskets && UniqueRows(db.prices) && k < |db.baskets[dc].items|
    requires db.baskets[dc].items[k].base.None?
    ensures dc in Frozen(db, dc, Forgotten).baskets && k < |Frozen(db, dc, Forgotten).baskets[dc].items|
    ensures var before, after := db.baskets[dc].items[k], Frozen(db, dc, Forgotten).baskets[dc].items[k];
            if |Entering(db, dc, k)| < 7 then after == before
            else exists first :: BasedOn(after, first, Entering(db, dc, k))
  {
    var rows := Earliest(db.prices, dc, k, db.runs);
    EarliestCount(db, dc, k);
    FrozenIs(db, dc, k);
    hide *;
    if |Entering(db, dc, k)| < 7 {
      NotFrozen(db.baskets[dc].items[k], rows);
    } else {
      BasedOnEarliest(db, dc, k, db.baskets[dc].items[k]);
    }
  }
}
