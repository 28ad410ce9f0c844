/** What a daily route-window price is (`indexing/aggregate.py`), said of the run's fares themselves: the
    median of the economy rupee fares of that route and window, and of no others. */
module RouteWindowPrices {
  import opened Options
  import opened Domain
  import opened IndexModel
  import opened Medians
  import Rounding

  /** The fares that enter the price of an item, by their place in the run. */
  ghost function PricedFares(run: CollectionRun, item: BasketItem): set<nat> {
    set i: nat | i < |run.fares|
                 && run.fares[i].route == item.route && run.fares[i].window == item.window
                 && run.fares[i].cabin == "ECONOMY" && run.fares[i].currency == "INR"
  }

  ghost function FareAt(run: CollectionRun): nat -> real {
    (i: nat) => if i < |run.fares| then run.fares[i].fare as real else 0.0
  }

  /** The same places in the order of the query. */
  ghost function Places(fares: seq<CanonicalFare>, item: BasketItem): (r: seq<nat>)
    ensures |r| == |MatchingFares(fares, item)|
  {
    if fares == [] then []
    else
      var n := |fares| - 1;
      Places(fares[..n], item) + (if Matches(fares[n], item) then [n] else [])
  }

  lemma PlacesStep(fares: seq<CanonicalFare>, item: BasketItem)
    requires fares != []
    ensures var n := |fares| - 1;
            && Places(fares, item) == Places(fares[..n], item) + (if Matches(fares[n], item) then [n] else [])
            && MatchingFares(fares, item)
                 == MatchingFares(fares[..n], item) + (if Matches(fares[n], item) then [fares[n].fare as real] else [])
  {
    hide Matches;
  }

  /** Each place holds the fare the query returns, no place comes twice, and every match has its place. */
  ghost predicate Located(places: seq<nat>, values: seq<real>, fares: seq<CanonicalFare>, item: BasketItem) {
    && |places| == |values|
    && (forall k :: 0 <= k < |places| ==> places[k] < |fares| && values[k] == fares[places[k]].fare as real)
    && (forall j, k :: 0 <= j < k < |places| ==> places[j] < places[k])
    && (forall i: nat :: i in places <==> i < |fares| && Matches(fares[i], item))
  }

  lemma {:induction false} PlacesLocate(fares: seq<CanonicalFare>, item: BasketItem)
    ensures Located(Places(fares, item), MatchingFares(fares, item), fares, item)
  {
    if fares == [] {
    } else {
      var n := |fares| - 1;
      PlacesLocate(fares[..n], item);
      PlacesStep(fares, item);
      hide *;
      var places, values := Places(fares[..n], item), MatchingFares(fares[..n], item);
      if Matches(fares[n], item) {
        LocatedTake(places, values, fares, item);
      } else {
        LocatedSkip(places, values, fares, item);
        assert places + [] == places && values + [] == values;
      }
    }
  }

  lemma LocatedSkip(places: seq<nat>, values: seq<real>, fares: seq<CanonicalFare>, item: BasketItem)
    requires fares != [] && !Matches(fares[|fares| - 1], item)
    requires Located(places, values, fares[..|fares| - 1], item)
    ensures Located(places, values, fares, item)
  {
    hide Matches;
  }

  lemma LocatedTake(places: seq<nat>, values: seq<real>, fares: seq<CanonicalFare>, item: BasketItem)
    requires fares != [] && Matches(fares[|fares| - 1], item)
    requires Located(places, values, fares[..|fares| - 1], item)
    ensures var n := |fares| - 1; Located(places + [n], values + [fares[n].fare as real], fares, item)
  {
    hide Matches;
    var n := |fares| - 1;
    assert forall k :: 0 <= k < |places| ==> places[k] < n;
    forall i: nat
      ensures i in places + [n] <==> i < |fares| && Matches(fares[i], item)
    {
      assert i in places + [n] <==> i in places || i == n;
      assert i < n ==> fares[..n][i] == fares[i];
    }
  }

  lemma PlacesAre(run: CollectionRun, item: BasketItem)
    ensures SetOf(Places(run.fares, item)) == PricedFares(run, item)
    ensures ValuesOf(MatchingFares(run.fares, item), Places(run.fares, item), FareAt(run))
  {
    PlacesLocate(run.fares, item);
    hide Places, MatchingFares;
    forall i: nat
      ensures i in SetOf(Places(run.fares, item)) <==> i in PricedFares(run, item)
    {
    }
  }

  /** The price held in memory and the number of flights it counts. */
  ghost predicate PricedFrom(price: Option<real>, flights: nat, run: CollectionRun, item: BasketItem) {
    && flights == |PricedFares(run, item)|
    && (price.None? <==> PricedFares(run, item) == {})
    && (price.Some? ==> MedianOf(PricedFares(run, item), FareAt(run), price.value))
  }

  /** A price is the median of the fares whose route, window, cabin and currency are the item's: there is
      none exactly without such a fare, the flights counted are those fares, and at least half of them
      lie on either side of it. */
  lemma PriceIsMedian(run: CollectionRun, item: BasketItem)
    ensures PricedFrom(ExactPrice(run, item), |MatchingFares(run.fares, item)|, run, item)
    ensures var fares, price := PricedFares(run, item), ExactPrice(run, item);
            price.Some? ==>
              && 2 * |UpTo(fares, FareAt(run), price.value)| >= |fares|
              && 2 * |UpFrom(fares, FareAt(run), price.value)| >= |fares|
  {
    var fares, values := PricedFares(run, item), MatchingFares(run.fares, item);
    var places, f := Places(run.fares, item), FareAt(run);
    PlacesAre(run, item);
    SetOfCount(values, places, f);
    PriceIs(run, item);
    hide *;
    if values != [] {
      MedianIsMiddle(values, places, f);
      MedianHalves(fares, f, Median(values));
    }
    PricedFromIs(ExactPrice(run, item), |values|, run, item);
  }

  lemma PriceIs(run: CollectionRun, item: BasketItem)
    ensures var values := MatchingFares(run.fares, item);
            ExactPrice(run, item) == if values == [] then None else Some(Median(values))
  {
  }

  lemma PricedFromIs(price: Option<real>, flights: nat, run: CollectionRun, item: BasketItem)
    requires flights == |PricedFares(run, item)| && (price.None? <==> flights == 0)
    requires price.Some? ==> MedianOf(PricedFares(run, item), FareAt(run), price.value)
    ensures PricedFrom(price, flights, run, item)
  {
    hide MedianOf, PricedFares, FareAt;
  }

  /** The row stored for an item: the median as its column rounds it. */
  ghost predicate Describes(row: PriceRow, run: CollectionRun, item: BasketItem) {
    && row.flights == |PricedFares(run, item)|
    && (row.price.None? <==> PricedFares(run, item) == {})
    && (row.price.Some? ==>
          exists m :: MedianOf(PricedFares(run, item), FareAt(run), m) && row.price.value == Rounding.HalfAway(m))
  }

  lemma NewRowDescribes(id: nat, run: CollectionRun, items: seq<BasketItem>, k: nat)
    requires k < |items|
    ensures Describes(NewPriceRow(id, run, items, k), run, items[k])
  {
    PriceIsMedian(run, items[k]);
    hide ExactPrice, MatchingFares, PricedFares, MedianOf, FareAt, Rounding.HalfAway;
  }

  /** A fare that differs in route, window, cabin or currency changes neither the price nor the count,
      wherever among the run's fares it stands. */
  lemma OtherFareIgnored(run: CollectionRun, item: BasketItem, fare: CanonicalFare, at: nat)
    requires at <= |run.fares|
    requires fare.route != item.route || fare.window != item.window
             || fare.cabin != "ECONOMY" || fare.currency != "INR"
    ensures var more := run.(fares := run.fares[..at] + [fare] + run.fares[at..]);
            && ExactPrice(more, item) == ExactPrice(run, item)
            && MatchingFares(more.fares, item) == MatchingFares(run.fares, item)
  {
    var head, tail := run.fares[..at], run.fares[at..];
    var more := run.(fares := head + [fare] + tail);
    assert head + tail == run.fares && [fare][..0] == [];
    assert MatchingFares([fare], item) == [];
    PriceIs(run, item);
    PriceIs(more, item);
    hide *;
    MatchingAppend(head, tail, item);
    MatchingAppend(head, [fare], item);
    MatchingAppend(head + [fare], tail, item);
    assert MatchingFares(head, item) + [] == MatchingFares(head, item);
  }

  lemma {:induction false} MatchingAppend(a: seq<CanonicalFare>, b: seq<CanonicalFare>, item: BasketItem)
    ensures MatchingFares(a + b, item) == MatchingFares(a, item) + MatchingFares(b, item)
  {
    if b == [] {
      assert a + b == a;
    } else {
      var n := |b| - 1;
      assert (a + b)[..|a + b| - 1] == a + b[..n];
      MatchingAppend(a, b[..n], item);
    }
  }
}
