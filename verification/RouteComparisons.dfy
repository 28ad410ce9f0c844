/** Per-route indices of a month (`services/historical.py`, `_route_comparisons`), built from the stored
    components, and how the published index decomposes into them. */
module RouteComparisons {
  import opened Aggregates
  import opened Options
  import opened Domain
  import opened Methodology
  import opened Periods
  import opened Sorting
  import Rounding

  /** One stored component of a published day, joined with its route and configured weight. */
  datatype Leg = Leg(route: Route, relative: Option<real>, weight: real)

  datatype RouteComparison = RouteComparison(
    route: Route, routeIndex: int, deviation: int, observed: nat, expected: int, coverage: int)

  /** A price relative as its ten-decimal column keeps it. */
  function Column(relative: real): real {
    Rounding.HalfAway(relative * Rounding.RELATIVE_UNITS) as real / Rounding.RELATIVE_UNITS
  }

  function LegOf(c: Component, routeOf: int -> Route): Leg {
    Leg(routeOf(c.input.id), if c.relative.Some? then Some(Column(c.relative.value)) else None, c.input.weight)
  }

  /** The component rows of a day, as the comparison reads them. */
  function LegsOf(components: seq<Component>, routeOf: int -> Route): (r: seq<Leg>)
    ensures |r| == |components| && forall i :: 0 <= i < |components| ==> r[i] == LegOf(components[i], routeOf)
  {
    seq(|components|, i requires 0 <= i < |components| => LegOf(components[i], routeOf))
  }

  predicate Counts(l: Leg, route: Route) {
    l.route == route && l.relative.Some?
  }

  function Product(weight: real, relative: real): real {
    weight * relative
  }

  function RouteWeight(legs: seq<Leg>, route: Route): real {
    if legs == [] then 0.0
    else
      var last := legs[|legs| - 1];
      RouteWeight(legs[..|legs| - 1], route) + (if Counts(last, route) then last.weight else 0.0)
  }

  function RouteTotal(legs: seq<Leg>, route: Route): real {
    if legs == [] then 0.0
    else
      var last := legs[|legs| - 1];
      RouteTotal(legs[..|legs| - 1], route)
      + (if Counts(last, route) then Product(last.weight, last.relative.value) else 0.0)
  }

  /** The index of a route on a day: the weighted mean of its available relatives. */
  function RouteDay(legs: seq<Leg>, route: Route): Option<real> {
    if RouteWeight(legs, route) == 0.0 then None else Some(RouteTotal(legs, route) / RouteWeight(legs, route))
  }

  function RouteValues(days: seq<seq<Leg>>, route: Route): seq<real> {
    if days == [] then []
    else
      var value := RouteDay(days[|days| - 1], route);
      RouteValues(days[..|days| - 1], route) + (if value.Some? then [value.value] else [])
  }

  /** The index of a route over a month: the mean of its daily indices. */
  function RouteIndex(days: seq<seq<Leg>>, route: Route): real
    requires RouteValues(days, route) != []
  {
    SumReals(RouteValues(days, route)) / |RouteValues(days, route)| as real
  }

  // ---------------------------------------------------------------------------------------------
  // One day

  /** Sum of the route weights over a list of routes. */
  function WeightOver(legs: seq<Leg>, routes: seq<Route>): real {
    if routes == [] then 0.0 else WeightOver(legs, routes[..|routes| - 1]) + RouteWeight(legs, routes[|routes| - 1])
  }

  function TotalOver(legs: seq<Leg>, routes: seq<Route>): real {
    if routes == [] then 0.0 else TotalOver(legs, routes[..|routes| - 1]) + RouteTotal(legs, routes[|routes| - 1])
  }

  /** `routes` lists every route of the legs, each once. */
  ghost predicate Lists(routes: seq<Route>, legs: seq<Leg>) {
    Distinct(routes) && forall i :: 0 <= i < |legs| ==> legs[i].route in routes
  }

  /** One more leg adds to exactly one of the distinct routes. */
  lemma {:induction false} OneMoreLeg(legs: seq<Leg>, l: Leg, routes: seq<Route>)
    requires Distinct(routes)
    ensures WeightOver(legs + [l], routes) == WeightOver(legs, routes)
              + (if l.route in routes && l.relative.Some? then l.weight else 0.0)
    ensures TotalOver(legs + [l], routes) == TotalOver(legs, routes)
              + (if l.route in routes && l.relative.Some? then Product(l.weight, l.relative.value) else 0.0)
  {
    if routes != [] {
      var head, last := routes[..|routes| - 1], routes[|routes| - 1];
      assert Distinct(head) && last !in head && routes == head + [last];
      OneMoreLeg(legs, l, head);
      assert (legs + [l])[..|legs|] == legs;
      hide Product, Distinct;
    }
  }

  lemma {:induction false} NoLegs(routes: seq<Route>)
    ensures WeightOver([], routes) == 0.0 && TotalOver([], routes) == 0.0
  {
    if routes != [] {
      NoLegs(routes[..|routes| - 1]);
    }
  }

  function LegWeight(legs: seq<Leg>): real {
    if legs == [] then 0.0
    else LegWeight(legs[..|legs| - 1]) + (if legs[|legs| - 1].relative.Some? then legs[|legs| - 1].weight else 0.0)
  }

  function LegTotal(legs: seq<Leg>): real {
    if legs == [] then 0.0
    else
      var last := legs[|legs| - 1];
      LegTotal(legs[..|legs| - 1]) + (if last.relative.Some? then Product(last.weight, last.relative.value) else 0.0)
  }

  /** The overall index of a day as its stored components give it: the weighted mean of all relatives. */
  function Overall(legs: seq<Leg>): real {
    if LegWeight(legs) == 0.0 then 0.0 else LegTotal(legs) / LegWeight(legs)
  }

  /** Over all routes of a day, the route weights and totals add up to those of the day. */
  lemma {:induction false} SumsOverRoutes(legs: seq<Leg>, routes: seq<Route>)
    requires Lists(routes, legs)
    ensures WeightOver(legs, routes) == LegWeight(legs)
    ensures TotalOver(legs, routes) == LegTotal(legs)
  {
    if legs == [] {
      NoLegs(routes);
    } else {
      var head, last := legs[..|legs| - 1], legs[|legs| - 1];
      assert legs == head + [last];
      SumsOverRoutes(head, routes);
      OneMoreLeg(head, last, routes);
      hide Distinct, WeightOver, TotalOver, Product;
    }
  }

  /** Sum over the routes of route weight times route index. */
  function Recombined(legs: seq<Leg>, routes: seq<Route>): real {
    if routes == [] then 0.0
    else
      var route := routes[|routes| - 1];
      Recombined(legs, routes[..|routes| - 1])
      + (if RouteDay(legs, route).Some? then Product(RouteWeight(legs, route), RouteDay(legs, route).value) else 0.0)
  }

  ghost predicate PositiveLegs(legs: seq<Leg>) {
    forall i :: 0 <= i < |legs| ==> legs[i].weight > 0.0
  }

  lemma {:induction false} NoWeightNoTotal(legs: seq<Leg>, route: Route)
    requires PositiveLegs(legs)
    ensures RouteWeight(legs, route) >= 0.0
    ensures RouteWeight(legs, route) == 0.0 ==> RouteTotal(legs, route) == 0.0
    ensures RouteWeight(legs, route) > 0.0 <==> exists i :: 0 <= i < |legs| && Counts(legs[i], route)
  {
    if legs != [] {
      var head := legs[..|legs| - 1];
      NoWeightNoTotal(head, route);
      assert Counts(legs[|legs| - 1], route) || !Counts(legs[|legs| - 1], route);
      if RouteWeight(head, route) > 0.0 {
        var i :| 0 <= i < |head| && Counts(head[i], route);
        assert Counts(legs[i], route);
      }
      forall i | 0 <= i < |legs| && Counts(legs[i], route)
        ensures RouteWeight(legs, route) > 0.0
      {
        assert i < |head| ==> Counts(head[i], route);
      }
    }
    hide Product, Counts;
  }

  lemma WeightTimesMean(w: real, total: real)
    requires w != 0.0
    ensures Product(w, total / w) == total
  {
  }

  lemma {:induction false} RecombinedIsTotal(legs: seq<Leg>, routes: seq<Route>)
    requires PositiveLegs(legs)
    ensures Recombined(legs, routes) == TotalOver(legs, routes)
  {
    if routes != [] {
      var route := routes[|routes| - 1];
      RecombinedIsTotal(legs, routes[..|routes| - 1]);
      NoWeightNoTotal(legs, route);
      if RouteWeight(legs, route) != 0.0 {
        WeightTimesMean(RouteWeight(legs, route), RouteTotal(legs, route));
      }
      hide Product, RouteWeight, RouteTotal, PositiveLegs;
    }
  }

  lemma {:induction false} SomeWeight(legs: seq<Leg>)
    requires PositiveLegs(legs)
    ensures LegWeight(legs) >= 0.0
    ensures LegWeight(legs) > 0.0 <==> exists i :: 0 <= i < |legs| && legs[i].relative.Some?
  {
    if legs != [] {
      var head := legs[..|legs| - 1];
      SomeWeight(head);
      if LegWeight(head) > 0.0 {
        var i :| 0 <= i < |head| && head[i].relative.Some?;
        assert legs[i].relative.Some?;
      }
      forall i | 0 <= i < |legs| && legs[i].relative.Some?
        ensures LegWeight(legs) > 0.0
      {
        assert i < |head| ==> head[i].relative.Some?;
      }
    }
  }

  /** On every day with a priced item the overall index is the weight-averaged mean of that day's route
      indices. */
  lemma DayDecomposes(legs: seq<Leg>, routes: seq<Route>)
    requires PositiveLegs(legs) && Lists(routes, legs)
    requires exists i :: 0 <= i < |legs| && legs[i].relative.Some?
    ensures WeightOver(legs, routes) > 0.0
    ensures Overall(legs) == Recombined(legs, routes) / WeightOver(legs, routes)
  {
    SomeWeight(legs);
    SumsOverRoutes(legs, routes);
    RecombinedIsTotal(legs, routes);
    hide LegWeight, LegTotal, WeightOver, TotalOver, Recombined, Lists, PositiveLegs;
  }

  // ---------------------------------------------------------------------------------------------
  // A month of fully priced days

  predicate AllPriced(legs: seq<Leg>) {
    forall i :: 0 <= i < |legs| ==> legs[i].relative.Some?
  }

  /** Days of one basket: the same routes in the same order, with the same weights. */
  ghost predicate SameBasket(a: seq<Leg>, b: seq<Leg>) {
    |a| == |b| && forall i :: 0 <= i < |a| ==> a[i].route == b[i].route && a[i].weight == b[i].weight
  }

  lemma {:induction false} SameRouteWeights(a: seq<Leg>, b: seq<Leg>, route: Route)
    requires SameBasket(a, b) && AllPriced(a) && AllPriced(b)
    ensures RouteWeight(a, route) == RouteWeight(b, route)
  {
    if a != [] {
      SameRouteWeights(a[..|a| - 1], b[..|b| - 1], route);
    }
  }

  function SumOfOveralls(days: seq<seq<Leg>>): real {
    if days == [] then 0.0 else SumOfOveralls(days[..|days| - 1]) + Overall(days[|days| - 1])
  }

  /** Sum over the routes of route weight times the summed daily indices of the route. */
  function RecombinedSums(first: seq<Leg>, routes: seq<Route>, days: seq<seq<Leg>>): real {
    if routes == [] then 0.0
    else
      var route := routes[|routes| - 1];
      RecombinedSums(first, routes[..|routes| - 1], days)
      + Product(RouteWeight(first, route), SumReals(RouteValues(days, route)))
  }

  /** A fully priced basket and its routes, each listed once. */
  ghost predicate FullBasket(first: seq<Leg>, routes: seq<Route>) {
    && first != [] && PositiveLegs(first) && AllPriced(first) && Lists(routes, first)
    && forall r :: r in routes ==> Quoted(first, r)
  }

  ghost predicate Quoted(legs: seq<Leg>, route: Route) {
    exists i :: 0 <= i < |legs| && legs[i].route == route
  }

  ghost predicate FullOn(first: seq<Leg>, day: seq<Leg>) {
    SameBasket(first, day) && AllPriced(day)
  }

  /** Days of one basket with every item priced. */
  ghost predicate FullDays(first: seq<Leg>, days: seq<seq<Leg>>, routes: seq<Route>) {
    FullBasket(first, routes) && forall d :: 0 <= d < |days| ==> FullOn(first, days[d])
  }

  lemma SpreadProduct(w: real, a: real, b: real)
    ensures Product(w, a + b) == Product(w, a) + Product(w, b)
  {
  }

  /** One more day adds its recombined index. */
  lemma {:induction false} OneMoreDay(first: seq<Leg>, routes: seq<Route>, days: seq<seq<Leg>>, day: seq<Leg>)
    requires forall r :: r in routes ==> RouteWeight(day, r) == RouteWeight(first, r) && RouteWeight(first, r) != 0.0
    ensures RecombinedSums(first, routes, days + [day]) == RecombinedSums(first, routes, days) + Recombined(day, routes)
  {
    if routes != [] {
      var head, route := routes[..|routes| - 1], routes[|routes| - 1];
      assert forall r :: r in head ==> r in routes;
      assert route in routes;
      OneMoreDay(first, head, days, day);
      assert (days + [day])[..|days|] == days;
      var value := RouteDay(day, route).value;
      assert RouteValues(days + [day], route) == RouteValues(days, route) + [value];
      SumAppend(RouteValues(days, route), value);
      SpreadProduct(RouteWeight(first, route), SumReals(RouteValues(days, route)), value);
      hide Product, RouteWeight, RouteValues, SumReals, RouteTotal;
    }
  }

  lemma {:induction false} NoDays(first: seq<Leg>, routes: seq<Route>)
    ensures RecombinedSums(first, routes, []) == 0.0
  {
    if routes != [] {
      NoDays(first, routes[..|routes| - 1]);
    }
  }

  /** A fully priced day of the basket has every route's weight, as any other such day. */
  lemma FullDay(first: seq<Leg>, day: seq<Leg>, routes: seq<Route>)
    requires FullBasket(first, routes) && FullOn(first, day)
    ensures PositiveLegs(day) && Lists(routes, day) && exists i :: 0 <= i < |day| && day[i].relative.Some?
    ensures forall r :: r in routes ==> RouteWeight(day, r) == RouteWeight(first, r) && RouteWeight(first, r) != 0.0
  {
    forall r | r in routes
      ensures RouteWeight(day, r) == RouteWeight(first, r) && RouteWeight(first, r) != 0.0
    {
      RouteOfFullDay(first, day, routes, r);
    }
    assert day[0].relative.Some?;
    forall i | 0 <= i < |day|
      ensures day[i].route in routes
    {
      assert day[i].route == first[i].route;
    }
    hide RouteWeight, Distinct, Quoted;
  }

  lemma RouteOfFullDay(first: seq<Leg>, day: seq<Leg>, routes: seq<Route>, r: Route)
    requires FullBasket(first, routes) && FullOn(first, day) && r in routes
    ensures RouteWeight(day, r) == RouteWeight(first, r) && RouteWeight(first, r) != 0.0
  {
    SameRouteWeights(first, day, r);
    assert Quoted(first, r);
    var i :| 0 <= i < |first| && first[i].route == r;
    assert Counts(first[i], r);
    NoWeightNoTotal(first, r);
    hide RouteWeight, Lists;
  }

  lemma {:induction false} SameWeightOver(a: seq<Leg>, b: seq<Leg>, routes: seq<Route>)
    requires forall r :: r in routes ==> RouteWeight(a, r) == RouteWeight(b, r)
    ensures WeightOver(a, routes) == WeightOver(b, routes)
  {
    if routes != [] {
      SameWeightOver(a, b, routes[..|routes| - 1]);
      assert routes[|routes| - 1] in routes;
    }
    hide RouteWeight;
  }

  /** One fully priced day, recombined with the weights of any other. */
  lemma DayRecombines(first: seq<Leg>, day: seq<Leg>, routes: seq<Route>)
    requires FullBasket(first, routes) && FullOn(first, day)
    ensures forall r :: r in routes ==> RouteWeight(day, r) == RouteWeight(first, r) && RouteWeight(first, r) != 0.0
    ensures Recombined(day, routes) == Product(WeightOver(first, routes), Overall(day))
  {
    hide *;
    FullDay(first, day, routes);
    DayDecomposes(day, routes);
    SameWeightOver(day, first, routes);
    QuotientProduct(Recombined(day, routes), WeightOver(first, routes));
  }

  lemma SumsStep(first: seq<Leg>, routes: seq<Route>, head: seq<seq<Leg>>, day: seq<Leg>, w: real, s: real, v: real)
    requires RecombinedSums(first, routes, head) == Product(w, s) && Recombined(day, routes) == Product(w, v)
    requires forall r :: r in routes ==> RouteWeight(day, r) == RouteWeight(first, r) && RouteWeight(first, r) != 0.0
    ensures RecombinedSums(first, routes, head + [day]) == Product(w, s + v)
  {
    hide *;
    OneMoreDay(first, routes, head, day);
    SpreadProduct(w, s, v);
  }

  lemma {:induction false} DaysSum(first: seq<Leg>, days: seq<seq<Leg>>, routes: seq<Route>)
    requires FullDays(first, days, routes)
    ensures RecombinedSums(first, routes, days) == Product(WeightOver(first, routes), SumOfOveralls(days))
  {
    hide *;
    if days == [] {
      EmptySum(first, routes);
    } else {
      var head, day := days[..|days| - 1], days[|days| - 1];
      OneDayOf(first, days, routes);
      SumOfOverallsStep(days);
      LastSplit(days);
      DaysSum(first, head, routes);
      DayRecombines(first, day, routes);
      SumsStep(first, routes, head, day, WeightOver(first, routes), SumOfOveralls(head), Overall(day));
    }
  }

  lemma EmptySum(first: seq<Leg>, routes: seq<Route>)
    ensures RecombinedSums(first, routes, []) == Product(WeightOver(first, routes), SumOfOveralls([]))
  {
    NoDays(first, routes);
    hide RecombinedSums, WeightOver;
  }

  lemma SumOfOverallsStep(days: seq<seq<Leg>>)
    requires days != []
    ensures SumOfOveralls(days) == SumOfOveralls(days[..|days| - 1]) + Overall(days[|days| - 1])
  {
    hide Overall;
  }

  lemma LastSplit<T>(s: seq<T>)
    requires s != []
    ensures s == s[..|s| - 1] + [s[|s| - 1]]
  {
  }

  lemma OneDayOf(first: seq<Leg>, days: seq<seq<Leg>>, routes: seq<Route>)
    requires FullDays(first, days, routes) && days != []
    ensures FullDays(first, days[..|days| - 1], routes)
    ensures FullBasket(first, routes) && FullOn(first, days[|days| - 1])
  {
    hide FullBasket, FullOn;
  }

  lemma QuotientProduct(x: real, w: real)
    requires w != 0.0
    ensures Product(w, x / w) == x
  {
  }

  /** The same weighting of the routes' monthly indices. */
  function RecombinedMonth(first: seq<Leg>, routes: seq<Route>, days: seq<seq<Leg>>): real
    requires days != [] && forall r :: r in routes ==> RouteValues(days, r) != []
  {
    if routes == [] then 0.0
    else
      var head, route := routes[..|routes| - 1], routes[|routes| - 1];
      assert forall r :: r in head ==> r in routes;
      RecombinedMonth(first, head, days) + Product(RouteWeight(first, route), RouteIndex(days, route))
  }

  lemma {:induction false} EveryDayCounts(days: seq<seq<Leg>>, route: Route)
    requires forall d :: 0 <= d < |days| ==> RouteWeight(days[d], route) != 0.0
    ensures |RouteValues(days, route)| == |days|
  {
    if days != [] {
      EveryDayCounts(days[..|days| - 1], route);
    }
    hide RouteWeight, RouteTotal;
  }

  lemma ProductQuotient(w: real, x: real, n: real)
    requires n != 0.0
    ensures Product(w, x / n) == Product(w, x) / n
  {
    var q := x / n;
    assert q * n == x;
    assert w * q * n == w * x;
  }

  lemma AddQuotients(a: real, b: real, n: real)
    requires n != 0.0
    ensures a / n + b / n == (a + b) / n
  {
  }

  function MeanOf(x: real, n: real): real
    requires n != 0.0
  {
    x / n
  }

  lemma AddMeans(s: real, w: real, total: real, n: real)
    requires n != 0.0
    ensures MeanOf(s, n) + Product(w, MeanOf(total, n)) == MeanOf(s + Product(w, total), n)
  {
    ProductQuotient(w, total, n);
    AddQuotients(s, Product(w, total), n);
    hide Product;
  }

  lemma {:induction false} MonthIsMean(first: seq<Leg>, routes: seq<Route>, days: seq<seq<Leg>>)
    requires days != [] && forall r :: r in routes ==> |RouteValues(days, r)| == |days|
    ensures forall r :: r in routes ==> RouteValues(days, r) != []
    ensures RecombinedMonth(first, routes, days) == MeanOf(RecombinedSums(first, routes, days), |days| as real)
  {
    forall r | r in routes
      ensures RouteValues(days, r) != []
    {
      assert |RouteValues(days, r)| == |days| > 0;
    }
    if routes != [] {
      var head, route := routes[..|routes| - 1], routes[|routes| - 1];
      assert forall r :: r in head ==> r in routes;
      assert route in routes;
      MonthIsMean(first, head, days);
      MonthStep(first, routes, days);
    }
    hide Product, RouteWeight, RouteValues, SumReals, RouteIndex;
  }

  lemma MonthStep(first: seq<Leg>, routes: seq<Route>, days: seq<seq<Leg>>)
    requires days != [] && routes != [] && forall r :: r in routes ==> RouteValues(days, r) != []
    requires |RouteValues(days, routes[|routes| - 1])| == |days|
    requires forall r :: r in routes[..|routes| - 1] ==> r in routes
    requires RecombinedMonth(first, routes[..|routes| - 1], days)
          == MeanOf(RecombinedSums(first, routes[..|routes| - 1], days), |days| as real)
    ensures RecombinedMonth(first, routes, days) == MeanOf(RecombinedSums(first, routes, days), |days| as real)
  {
    var head, route, n := routes[..|routes| - 1], routes[|routes| - 1], |days| as real;
    assert route in routes;
    MonthUnfold(first, routes, days);
    hide *;
    MeanStep(RecombinedMonth(first, routes, days), RecombinedMonth(first, head, days),
             RecombinedSums(first, routes, days), RecombinedSums(first, head, days), RouteWeight(first, route),
             SumReals(RouteValues(days, route)), n);
  }

  lemma MeanStep(m: real, mHead: real, s: real, sHead: real, w: real, total: real, n: real)
    requires n != 0.0 && mHead == MeanOf(sHead, n)
    requires m == mHead + Product(w, MeanOf(total, n)) && s == sHead + Product(w, total)
    ensures m == MeanOf(s, n)
  {
    AddMeans(sHead, w, total, n);
    hide *;
  }

  lemma MonthUnfold(first: seq<Leg>, routes: seq<Route>, days: seq<seq<Leg>>)
    requires days != [] && routes != [] && forall r :: r in routes ==> RouteValues(days, r) != []
    requires |RouteValues(days, routes[|routes| - 1])| == |days|
    requires forall r :: r in routes[..|routes| - 1] ==> r in routes
    ensures var head, route := routes[..|routes| - 1], routes[|routes| - 1];
            var w, total := RouteWeight(first, route), SumReals(RouteValues(days, route));
            && RecombinedMonth(first, routes, days)
               == RecombinedMonth(first, head, days) + Product(w, MeanOf(total, |days| as real))
            && RecombinedSums(first, routes, days) == RecombinedSums(first, head, days) + Product(w, total)
  {
    hide Product, RouteWeight, SumReals, RouteValues;
    assert routes[|routes| - 1] in routes;
  }

  /** A month whose published days are all fully priced: the mean of the daily indices is the same weighting
      of the routes' monthly indices. */
  lemma MonthDecomposes(first: seq<Leg>, days: seq<seq<Leg>>, routes: seq<Route>)
    requires FullDays(first, days, routes) && days != []
    ensures WeightOver(first, routes) > 0.0
    ensures forall r :: r in routes ==> RouteValues(days, r) != []
    ensures MeanOf(SumOfOveralls(days), |days| as real)
              == RecombinedMonth(first, routes, days) / WeightOver(first, routes)
  {
    hide *;
    DaysSum(first, days, routes);
    forall r | r in routes
      ensures |RouteValues(days, r)| == |days|
    {
      EveryRouteEveryDay(first, days, routes, r);
    }
    FirstWeight(first, days, routes);
    MonthIsMean(first, routes, days);
    SwapQuotients(WeightOver(first, routes), SumOfOveralls(days), |days| as real);
  }

  lemma FirstWeight(first: seq<Leg>, days: seq<seq<Leg>>, routes: seq<Route>)
    requires FullDays(first, days, routes)
    ensures WeightOver(first, routes) > 0.0
  {
    assert first[0].relative.Some?;
    SomeWeight(first);
    SumsOverRoutes(first, routes);
    hide WeightOver, LegWeight, Lists, LegTotal, TotalOver;
  }

  lemma EveryRouteEveryDay(first: seq<Leg>, days: seq<seq<Leg>>, routes: seq<Route>, r: Route)
    requires FullDays(first, days, routes) && r in routes
    ensures |RouteValues(days, r)| == |days|
  {
    forall d | 0 <= d < |days|
      ensures RouteWeight(days[d], r) != 0.0
    {
      assert FullOn(first, days[d]);
      hide FullBasket, FullOn, RouteWeight;
      RouteOfFullDay(first, days[d], routes, r);
    }
    hide *;
    EveryDayCounts(days, r);
  }

  lemma SwapQuotients(w: real, x: real, n: real)
    requires w != 0.0 && n != 0.0
    ensures MeanOf(x, n) == MeanOf(Product(w, x), n) / w
  {
    var q := x / n;
    assert q * n == x;
    ProductQuotient(w, x, n);
    assert Product(w, q) / w == q;
  }

  // ---------------------------------------------------------------------------------------------
  // Up to rounding

  /** Half a unit from storing a daily value and half a ten-decimal unit from storing its relatives. */
  const DAILY_ERROR := 0.505

  /** Stored daily values against the indices their stored components give. */
  ghost predicate StoredClose(values: seq<int>, days: seq<seq<Leg>>) {
    && |values| == |days|
    && forall i :: 0 <= i < |days| ==> ValueClose(values[i], days[i])
  }

  predicate ValueClose(value: int, day: seq<Leg>) {
    -DAILY_ERROR <= value as real - Overall(day) * Rounding.INDEX_UNITS <= DAILY_ERROR
  }

  lemma {:induction false} SumsClose(values: seq<int>, days: seq<seq<Leg>>)
    requires StoredClose(values, days)
    ensures var n := |days| as real;
            -DAILY_ERROR * n <= Sum(values) as real - SumOfOveralls(days) * Rounding.INDEX_UNITS <= DAILY_ERROR * n
  {
    if days != [] {
      SumsClose(values[..|values| - 1], days[..|days| - 1]);
      assert ValueClose(values[|values| - 1], days[|days| - 1]);
      assert (|days| - 1) as real == |days| as real - 1.0;
    }
    hide Overall;
  }

  lemma CloseMeans(sum: real, exact: real, n: real, error: real)
    requires n > 0.0 && -error * n <= sum - exact <= error * n
    ensures -error <= sum / n - exact / n <= error
  {
    SubtractQuotients(sum, exact, n);
    QuotientBounds(-error, sum - exact, error, n);
  }

  lemma SubtractQuotients(a: real, b: real, n: real)
    requires n != 0.0
    ensures a / n - b / n == (a - b) / n
  {
  }

  lemma MoveUnits(x: real, n: real)
    requires n != 0.0
    ensures x * Rounding.INDEX_UNITS / n == MeanOf(x, n) * Rounding.INDEX_UNITS
  {
  }

  /** A stored number of units against an exact value. */
  predicate Within(units: int, exact: real, error: real) {
    -error <= units as real - exact * Rounding.INDEX_UNITS <= error
  }

  lemma WithinOneUnit(rounded: int, sum: real, exact: real, n: real)
    requires n > 0.0 && rounded == Rounding.HalfEven(sum / n)
    requires -DAILY_ERROR * n <= sum - exact * Rounding.INDEX_UNITS <= DAILY_ERROR * n
    ensures Within(rounded, MeanOf(exact, n), DAILY_ERROR + 0.5)
  {
    CloseMeans(sum, exact * Rounding.INDEX_UNITS, n, DAILY_ERROR);
    MoveUnits(exact, n);
    hide Rounding.HalfEven, MeanOf;
  }

  /** The stored period index differs from the recombined route indices by at most 1.005e-8. */
  lemma PeriodDecomposes(first: seq<Leg>, days: seq<seq<Leg>>, values: seq<int>, routes: seq<Route>)
    requires FullDays(first, days, routes) && days != [] && StoredClose(values, days)
    ensures WeightOver(first, routes) > 0.0 && values != []
    ensures forall r :: r in routes ==> RouteValues(days, r) != []
    ensures Within(RoundedMean(values), RecombinedMonth(first, routes, days) / WeightOver(first, routes),
                   DAILY_ERROR + 0.5)
  {
    MonthDecomposes(first, days, routes);
    SumsClose(values, days);
    assert values != [] && RoundedMean(values) == Rounding.HalfEven(Sum(values) as real / |days| as real);
    hide *;
    WithinOneUnit(RoundedMean(values), Sum(values) as real, SumOfOveralls(days), |days| as real);
  }

  /** The route indices as reported, rounded to eight decimals, in the same weighting. */
  function ReportedMonth(first: seq<Leg>, routes: seq<Route>, days: seq<seq<Leg>>): real
    requires forall r :: r in routes ==> RouteValues(days, r) != []
  {
    if routes == [] then 0.0
    else
      var head, route := routes[..|routes| - 1], routes[|routes| - 1];
      assert forall r :: r in head ==> r in routes;
      ReportedMonth(first, head, days) + Product(RouteWeight(first, route), Reported(days, route))
  }

  /** The `route_index` of a comparison. */
  function Reported(days: seq<seq<Leg>>, route: Route): real
    requires RouteValues(days, route) != []
  {
    Rounding.HalfEven(RouteIndex(days, route) * Rounding.INDEX_UNITS) as real / Rounding.INDEX_UNITS
  }

  const HALF_UNIT := 0.5 / Rounding.INDEX_UNITS

  lemma ReportedClose(days: seq<seq<Leg>>, route: Route)
    requires RouteValues(days, route) != []
    ensures -HALF_UNIT <= Reported(days, route) - RouteIndex(days, route) <= HALF_UNIT
  {
    hide RouteIndex, Rounding.HalfEven;
  }

  /** Equal up to half a unit per unit of weight. */
  predicate Near(a: real, b: real, w: real) {
    -HALF_UNIT * w <= a - b <= HALF_UNIT * w
  }

  lemma NearProduct(w: real, a: real, b: real)
    requires w >= 0.0 && -HALF_UNIT <= a - b <= HALF_UNIT
    ensures Near(Product(w, a), Product(w, b), w)
  {
    SpreadProduct(w, a - b, b);
    if w > 0.0 {
      TermBounds(w, a - b, -HALF_UNIT, HALF_UNIT);
    }
  }

  lemma NearSum(a: real, b: real, w: real, c: real, d: real, v: real)
    requires Near(a, b, w) && Near(c, d, v)
    ensures Near(a + c, b + d, w + v)
  {
  }

  lemma {:induction false} ReportedSums(first: seq<Leg>, routes: seq<Route>, days: seq<seq<Leg>>)
    requires PositiveLegs(first) && days != [] && forall r :: r in routes ==> RouteValues(days, r) != []
    ensures Near(ReportedMonth(first, routes, days), RecombinedMonth(first, routes, days), WeightOver(first, routes))
  {
    if routes != [] {
      var head, route := routes[..|routes| - 1], routes[|routes| - 1];
      assert forall r :: r in head ==> r in routes;
      assert route in routes;
      ReportedUnfold(first, routes, days);
      hide *;
      ReportedSums(first, head, days);
      ReportedClose(days, route);
      NoWeightNoTotal(first, route);
      NearProduct(RouteWeight(first, route), Reported(days, route), RouteIndex(days, route));
      NearSum(ReportedMonth(first, head, days), RecombinedMonth(first, head, days), WeightOver(first, head),
              Product(RouteWeight(first, route), Reported(days, route)),
              Product(RouteWeight(first, route), RouteIndex(days, route)), RouteWeight(first, route));
    }
  }

  lemma ReportedUnfold(first: seq<Leg>, routes: seq<Route>, days: seq<seq<Leg>>)
    requires days != [] && routes != [] && forall r :: r in routes ==> RouteValues(days, r) != []
    requires forall r :: r in routes[..|routes| - 1] ==> r in routes
    ensures routes[|routes| - 1] in routes
    ensures var head, route := routes[..|routes| - 1], routes[|routes| - 1];
            && ReportedMonth(first, routes, days)
               == ReportedMonth(first, head, days) + Product(RouteWeight(first, route), Reported(days, route))
            && RecombinedMonth(first, routes, days)
               == RecombinedMonth(first, head, days) + Product(RouteWeight(first, route), RouteIndex(days, route))
            && WeightOver(first, routes) == WeightOver(first, head) + RouteWeight(first, route)
  {
    hide Product, RouteWeight, RouteValues, Reported, RouteIndex;
  }

  /** Against the route indices as reported, half a unit more: at most 1.505e-8. */
  lemma ReportedDecomposes(first: seq<Leg>, days: seq<seq<Leg>>, values: seq<int>, routes: seq<Route>)
    requires FullDays(first, days, routes) && days != [] && StoredClose(values, days)
    ensures WeightOver(first, routes) > 0.0 && values != []
    ensures forall r :: r in routes ==> RouteValues(days, r) != []
    ensures Within(RoundedMean(values), ReportedMonth(first, routes, days) / WeightOver(first, routes),
                   DAILY_ERROR + 1.0)
  {
    PeriodDecomposes(first, days, values, routes);
    assert PositiveLegs(first) by {
      hide PositiveLegs;
    }
    hide *;
    ReportedSums(first, routes, days);
    ShiftByHalf(RoundedMean(values), RecombinedMonth(first, routes, days), ReportedMonth(first, routes, days),
                WeightOver(first, routes));
  }

  lemma ShiftByHalf(value: int, exact: real, reported: real, w: real)
    requires w > 0.0 && Near(reported, exact, w)
    requires Within(value, exact / w, DAILY_ERROR + 0.5)
    ensures Within(value, reported / w, DAILY_ERROR + 1.0)
  {
    CloseMeans(reported, exact, w, HALF_UNIT);
  }

  // ---------------------------------------------------------------------------------------------
  // The loops

  function PairsOf(legs: seq<Leg>, route: Route): seq<(real, real)> {
    if legs == [] then []
    else
      var last := legs[|legs| - 1];
      PairsOf(legs[..|legs| - 1], route) + (if Counts(last, route) then [(last.relative.value, last.weight)] else [])
  }

  function PairWeight(pairs: seq<(real, real)>): real {
    if pairs == [] then 0.0 else PairWeight(pairs[..|pairs| - 1]) + pairs[|pairs| - 1].1
  }

  function PairTotal(pairs: seq<(real, real)>): real {
    if pairs == [] then 0.0
    else PairTotal(pairs[..|pairs| - 1]) + Product(pairs[|pairs| - 1].1, pairs[|pairs| - 1].0)
  }

  lemma PairAppend(pairs: seq<(real, real)>, p: (real, real))
    ensures PairWeight(pairs + [p]) == PairWeight(pairs) + p.1
    ensures PairTotal(pairs + [p]) == PairTotal(pairs) + Product(p.1, p.0)
  {
    assert (pairs + [p])[..|pairs|] == pairs;
  }

  lemma {:induction false} PairSums(legs: seq<Leg>, route: Route)
    ensures PairWeight(PairsOf(legs, route)) == RouteWeight(legs, route)
    ensures PairTotal(PairsOf(legs, route)) == RouteTotal(legs, route)
  {
    if legs != [] {
      var head, last := legs[..|legs| - 1], legs[|legs| - 1];
      PairSums(head, route);
      if Counts(last, route) {
        PairAppend(PairsOf(head, route), (last.relative.value, last.weight));
      } else {
        assert PairsOf(head, route) + [] == PairsOf(head, route);
      }
    }
    hide Product, PairWeight, PairTotal;
  }

  lemma PairsStep(legs: seq<Leg>, i: nat, route: Route)
    requires i < |legs|
    ensures PairsOf(legs[..i + 1], route) == PairsOf(legs[..i], route)
              + (if Counts(legs[i], route) then [(legs[i].relative.value, legs[i].weight)] else [])
  {
    assert legs[..i + 1][..i] == legs[..i];
  }

  /** `by_route_day` for one day: the relatives and weights of each route that has any. */
  method GroupDay(legs: seq<Leg>) returns (routes: seq<Route>, groups: map<Route, seq<(real, real)>>)
    ensures Distinct(routes) && forall r :: r in groups <==> r in routes
    ensures forall r :: r in groups ==> groups[r] == PairsOf(legs, r)
    ensures forall r :: r !in groups ==> PairsOf(legs, r) == []
  {
    routes, groups := [], map[];
    for i := 0 to |legs|
      invariant Distinct(routes) && forall r :: r in groups <==> r in routes
      invariant forall r :: r in groups ==> groups[r] == PairsOf(legs[..i], r)
      invariant forall r :: r !in groups ==> PairsOf(legs[..i], r) == []
    {
      var l := legs[i];
      forall r
        ensures PairsOf(legs[..i + 1], r) == PairsOf(legs[..i], r)
                  + (if Counts(l, r) then [(l.relative.value, l.weight)] else [])
      {
        PairsStep(legs, i, r);
      }
      hide PairsOf;
      if l.relative.Some? {
        var pair := (l.relative.value, l.weight);
        if l.route in groups {
          groups := groups[l.route := groups[l.route] + [pair]];
        } else {
          routes := routes + [l.route];
          groups := groups[l.route := [pair]];
        }
      }
    }
    assert legs[..|legs|] == legs;
  }

  /** One route of a day added to `by_route`; `order` lists its keys. */
  method AddRoute(legs: seq<Leg>, route: Route, pairs: seq<(real, real)>, byRoute: map<Route, seq<real>>,
                  order: seq<Route>)
    returns (r: map<Route, seq<real>>, all: seq<Route>)
    requires Keyed(byRoute, order) && pairs == PairsOf(legs, route)
    ensures Keyed(r, all) && Added(legs, byRoute, r, route)
    ensures forall other :: other != route ==> Untouched(byRoute, r, other)
  {
    r, all := byRoute, order;
    PairSums(legs, route);
    hide Product, PairsOf, PairWeight, PairTotal, RouteWeight, RouteTotal, Keyed;
    var weight := PairWeight(pairs);
    if weight != 0.0 {
      var value := PairTotal(pairs) / weight;
      KeyedStep(r, all, route, value);
      if route in r {
        r := r[route := r[route] + [value]];
      } else {
        r, all := r[route := [value]], all + [route];
      }
    }
  }

  ghost predicate Untouched(before: map<Route, seq<real>>, later: map<Route, seq<real>>, route: Route) {
    (route in later <==> route in before) && (route in later ==> later[route] == before[route])
  }

  /** The route indices of one day added to `by_route`. */
  method AddDay(legs: seq<Leg>, byRoute: map<Route, seq<real>>, order: seq<Route>)
    returns (r: map<Route, seq<real>>, all: seq<Route>)
    requires Keyed(byRoute, order)
    ensures Keyed(r, all)
    ensures forall route :: Added(legs, byRoute, r, route)
  {
    var routes, groups := GroupDay(legs);
    r, all := byRoute, order;
    hide PairsOf, RouteDay, Keyed;
    for k := 0 to |routes|
      invariant Keyed(r, all)
      invariant forall route :: route !in routes[..k] ==> Untouched(byRoute, r, route)
      invariant forall route :: route in routes[..k] ==> Added(legs, byRoute, r, route)
    {
      var route := routes[k];
      assert route in groups;
      assert routes[..k + 1] == routes[..k] + [route] && route !in routes[..k];
      ghost var before := r;
      r, all := AddRoute(legs, route, groups[route], r, all);
      forall other
        ensures other in routes[..k + 1] ==> Added(legs, byRoute, r, other)
        ensures other !in routes[..k + 1] ==> Untouched(byRoute, r, other)
      {
        Compose(legs, byRoute, before, r, other);
      }
    }
    assert routes[..|routes|] == routes;
    forall route
      ensures Added(legs, byRoute, r, route)
    {
      if route !in routes {
        NoValue(legs, route);
      }
    }
  }

  /** Nothing, then nothing or the day's value; or the day's value, then nothing. */
  lemma Compose(legs: seq<Leg>, a: map<Route, seq<real>>, b: map<Route, seq<real>>, c: map<Route, seq<real>>,
                route: Route)
    ensures Untouched(a, b, route) && Untouched(b, c, route) ==> Untouched(a, c, route)
    ensures Untouched(a, b, route) && Added(legs, b, c, route) ==> Added(legs, a, c, route)
    ensures Added(legs, a, b, route) && Untouched(b, c, route) ==> Added(legs, a, c, route)
  {
    hide RouteDay;
  }

  lemma NoValue(legs: seq<Leg>, route: Route)
    ensures PairsOf(legs, route) == [] ==> RouteDay(legs, route).None?
  {
    PairSums(legs, route);
    hide PairsOf, RouteWeight, RouteTotal;
  }

  /** What one day does to the values of a route. */
  ghost predicate Added(legs: seq<Leg>, before: map<Route, seq<real>>, later: map<Route, seq<real>>, route: Route) {
    var value := RouteDay(legs, route);
    && (route in later <==> route in before || value.Some?)
    && (route in later ==> later[route] == (if route in before then before[route] else [])
                                           + (if value.Some? then [value.value] else []))
  }

  /** `order` lists the keys of the dictionary, each once. */
  ghost predicate Keyed(byRoute: map<Route, seq<real>>, order: seq<Route>) {
    Distinct(order) && forall route :: route in byRoute <==> route in order
  }

  lemma KeyedStep(byRoute: map<Route, seq<real>>, order: seq<Route>, route: Route, value: real)
    requires Keyed(byRoute, order)
    ensures route in byRoute ==> Keyed(byRoute[route := byRoute[route] + [value]], order)
    ensures route !in byRoute ==> Keyed(byRoute[route := [value]], order + [route])
  {
  }

  /** `by_route` after all published days of a period. */
  method CollectRoutes(days: seq<seq<Leg>>) returns (byRoute: map<Route, seq<real>>, order: seq<Route>)
    ensures Keyed(byRoute, order)
    ensures forall route :: route in byRoute <==> RouteValues(days, route) != []
    ensures forall route :: route in byRoute ==> byRoute[route] == RouteValues(days, route)
  {
    byRoute, order := map[], [];
    hide RouteDay;
    for i := 0 to |days|
      invariant Keyed(byRoute, order)
      invariant forall route :: route in byRoute <==> RouteValues(days[..i], route) != []
      invariant forall route :: route in byRoute ==> byRoute[route] == RouteValues(days[..i], route)
    {
      assert days[..i + 1][..i] == days[..i];
      ghost var before := byRoute;
      byRoute, order := AddDay(days[i], byRoute, order);
      forall route
        ensures route in byRoute <==> RouteValues(days[..i + 1], route) != []
        ensures route in byRoute ==> byRoute[route] == RouteValues(days[..i + 1], route)
      {
        assert Added(days[i], before, byRoute, route);
      }
    }
    assert days[..|days|] == days;
  }

  function ComparisonFor(route: Route, values: seq<real>, periodValue: int, expected: int): RouteComparison
    requires values != [] && expected > 0
  {
    var index := SumReals(values) / |values| as real;
    RouteComparison(route, Rounding.HalfEven(index * Rounding.INDEX_UNITS),
                    Rounding.HalfEven((index - periodValue as real / Rounding.INDEX_UNITS) * Rounding.INDEX_UNITS),
                    |values|, expected,
                    Rounding.HalfEven(100.0 * |values| as real / expected as real * Rounding.PERCENT_UNITS))
  }

  /** The reported route index and count of a comparison. */
  lemma ComparisonReports(days: seq<seq<Leg>>, route: Route, periodValue: int, expected: int)
    requires RouteValues(days, route) != [] && expected > 0
    ensures var c := ComparisonFor(route, RouteValues(days, route), periodValue, expected);
            && c.routeIndex as real / Rounding.INDEX_UNITS == Reported(days, route)
            && c.observed == |RouteValues(days, route)| <= |days|
  {
    ValuesPerDay(days, route);
    hide RouteValues, Rounding.HalfEven;
  }

  /** The columns of a comparison: the mean of the route's daily indices, what it exceeds the period's value by
      (up to the rounding of both), and the share of expected days on which the route was priced, each to the
      nearest unit of its column. */
  lemma ComparisonDeviates(route: Route, values: seq<real>, periodValue: int, expected: int)
    requires values != [] && expected > 0
    ensures var c, n := ComparisonFor(route, values, periodValue, expected), |values| as real;
            && -1 <= c.deviation - (c.routeIndex - periodValue) <= 1
            && c.observed == |values| && c.expected == expected
            && -0.5 <= SumReals(values) / n * 100000000.0 - c.routeIndex as real <= 0.5
            && -0.5 <= 100.0 * n / expected as real * 10000.0 - c.coverage as real <= 0.5
  {
    var index := SumReals(values) / |values| as real;
    DeviationUnits(index, periodValue);
    hide Rounding.HalfEven, SumReals;
  }

  lemma DeviationUnits(index: real, units: int)
    ensures (index - units as real / Rounding.INDEX_UNITS) * Rounding.INDEX_UNITS
            == index * Rounding.INDEX_UNITS - units as real
  {
  }

  lemma {:induction false} ValuesPerDay(days: seq<seq<Leg>>, route: Route)
    ensures |RouteValues(days, route)| <= |days|
  {
    if days != [] {
      ValuesPerDay(days[..|days| - 1], route);
    }
    hide RouteDay;
  }

  // ---------------------------------------------------------------------------------------------
  // The order of the output

  /** Text order, as Python compares strings. */
  predicate TextAtMost(a: string, b: string) {
    a == [] || (b != [] && (a[0] < b[0] || (a[0] == b[0] && TextAtMost(a[1..], b[1..]))))
  }

  /** The order of `(origin, destination)` pairs. */
  predicate RouteAtMost(a: Route, b: Route) {
    if a.origin == b.origin then TextAtMost(a.destination, b.destination) else TextAtMost(a.origin, b.origin)
  }

  lemma {:induction false} TextTotal(a: string, b: string)
    ensures TextAtMost(a, b) || TextAtMost(b, a)
    ensures TextAtMost(a, b) && TextAtMost(b, a) ==> a == b
  {
    if a != [] && b != [] {
      TextTotal(a[1..], b[1..]);
      assert a == [a[0]] + a[1..] && b == [b[0]] + b[1..];
    }
  }

  lemma {:induction false} TextTransitive(a: string, b: string, c: string)
    requires TextAtMost(a, b) && TextAtMost(b, c)
    ensures TextAtMost(a, c)
  {
    if a != [] && b != [] && c != [] && a[0] == b[0] == c[0] {
      TextTransitive(a[1..], b[1..], c[1..]);
    }
  }

  lemma RouteTransitive(a: Route, b: Route, c: Route)
    requires RouteAtMost(a, b) && RouteAtMost(b, c)
    ensures RouteAtMost(a, c)
  {
    if a.origin == b.origin == c.origin {
      TextTransitive(a.destination, b.destination, c.destination);
    } else {
      if a.origin != b.origin && b.origin != c.origin {
        TextTransitive(a.origin, b.origin, c.origin);
      }
      TextTotal(a.origin, b.origin);
    }
    hide TextAtMost;
  }

  lemma RouteOrder()
    ensures TotalPreorder(RouteAtMost)
  {
    forall a: Route, b: Route
      ensures RouteAtMost(a, b) || RouteAtMost(b, a)
    {
      TextTotal(a.origin, b.origin);
      TextTotal(a.destination, b.destination);
    }
    forall a: Route, b: Route, c: Route | RouteAtMost(a, b) && RouteAtMost(b, c)
      ensures RouteAtMost(a, c)
    {
      RouteTransitive(a, b, c);
    }
    hide RouteAtMost;
  }

  /** One row of the output. */
  predicate Reports(c: RouteComparison, route: Route, values: seq<real>, periodValue: int, expected: int)
    requires expected > 0
  {
    values != [] && c.route == route && c == ComparisonFor(route, values, periodValue, expected)
  }

  /** The output loop over the sorted routes. */
  method BuildComparisons(sorted: seq<Route>, byRoute: map<Route, seq<real>>, periodValue: int, expected: int)
    returns (output: seq<RouteComparison>)
    requires expected > 0 && forall r :: r in sorted ==> r in byRoute && byRoute[r] != []
    ensures |output| == |sorted|
    ensures forall i :: 0 <= i < |sorted| ==>
              sorted[i] in byRoute && Reports(output[i], sorted[i], byRoute[sorted[i]], periodValue, expected)
  {
    output := [];
    hide ComparisonFor;
    for i := 0 to |sorted|
      invariant |output| == i
      invariant forall k :: 0 <= k < i ==>
                  sorted[k] in byRoute && Reports(output[k], sorted[k], byRoute[sorted[k]], periodValue, expected)
    {
      assert sorted[i] in sorted;
      ComparisonRoute(sorted[i], byRoute[sorted[i]], periodValue, expected);
      output := output + [ComparisonFor(sorted[i], byRoute[sorted[i]], periodValue, expected)];
    }
  }

  /** Every row of the list reports its route. */
  ghost predicate AllReport(output: seq<RouteComparison>, days: seq<seq<Leg>>, periodValue: int, expected: int)
    requires expected > 0
  {
    forall i :: 0 <= i < |output| ==>
      Reports(output[i], output[i].route, RouteValues(days, output[i].route), periodValue, expected)
  }

  /** What the comparison of a period is: in route order, without repetition, one row for exactly the routes
      that were priced on any of its published days, each with its index, deviation, count and coverage. */
  ghost predicate Compares(output: seq<RouteComparison>, days: seq<seq<Leg>>, periodValue: int, expected: int)
    requires expected > 0
  {
    && (forall i, j :: 0 <= i < j < |output| ==>
          output[i].route != output[j].route && RouteAtMost(output[i].route, output[j].route))
    && AllReport(output, days, periodValue, expected)
    && forall route :: RouteValues(days, route) != [] ==> exists i :: 0 <= i < |output| && output[i].route == route
  }

  /** `_route_comparisons` for one period with a value: in route order, one row per route that was priced
      on any of its published days. */
  method CompareRoutes(days: seq<seq<Leg>>, periodValue: int, expected: int) returns (output: seq<RouteComparison>)
    requires expected > 0
    ensures Compares(output, days, periodValue, expected)
  {
    var byRoute, order := CollectRoutes(days);
    var sorted := Sort(order, RouteAtMost);
    SortedRoutes(order);
    SortPermutes(order, RouteAtMost);
    SameMembers(order, sorted);
    hide RouteAtMost, RouteValues, Sort, Reports, Compares, ComparisonFor;
    output := BuildComparisons(sorted, byRoute, periodValue, expected);
    BuiltCompares(output, sorted, days, periodValue, expected);
  }

  lemma BuiltCompares(output: seq<RouteComparison>, sorted: seq<Route>, days: seq<seq<Leg>>, periodValue: int,
                      expected: int)
    requires expected > 0 && |output| == |sorted|
    requires forall i, j :: 0 <= i < j < |sorted| ==> sorted[i] != sorted[j] && RouteAtMost(sorted[i], sorted[j])
    requires forall i :: 0 <= i < |sorted| ==>
               Reports(output[i], sorted[i], RouteValues(days, sorted[i]), periodValue, expected)
    requires forall route :: RouteValues(days, route) != [] ==> route in sorted
    ensures Compares(output, days, periodValue, expected)
  {
    hide RouteAtMost, RouteValues, ComparisonFor;
    assert forall i :: 0 <= i < |output| ==> output[i].route == sorted[i];
    forall route | RouteValues(days, route) != []
      ensures exists i :: 0 <= i < |output| && output[i].route == route
    {
      var i :| 0 <= i < |sorted| && sorted[i] == route;
      assert output[i].route == route;
    }
  }

  lemma ComparisonRoute(route: Route, values: seq<real>, periodValue: int, expected: int)
    requires values != [] && expected > 0
    ensures ComparisonFor(route, values, periodValue, expected).route == route
  {
    hide Rounding.HalfEven;
  }

  lemma SortedRoutes(order: seq<Route>)
    requires Distinct(order)
    ensures var sorted := Sort(order, RouteAtMost);
            forall i, j :: 0 <= i < j < |sorted| ==> sorted[i] != sorted[j] && RouteAtMost(sorted[i], sorted[j])
  {
    RouteOrder();
    SortOrders(order, RouteAtMost);
    SortPermutes(order, RouteAtMost);
    DistinctPermutes(order, Sort(order, RouteAtMost));
    hide RouteAtMost, Sort;
  }

  lemma DistinctPermutes(a: seq<Route>, b: seq<Route>)
    requires Distinct(a) && multiset(a) == multiset(b)
    ensures Distinct(b)
  {
    forall i, j | 0 <= i < j < |b|
      ensures b[i] != b[j]
    {
      CountOnce(a, b[i]);
      CountTwice(b, i, j);
    }
  }

  lemma {:induction false} CountOnce(s: seq<Route>, x: Route)
    requires Distinct(s)
    ensures multiset(s)[x] <= 1
  {
    if s != [] {
      var head, last := s[..|s| - 1], s[|s| - 1];
      CountOnce(head, x);
      assert s == head + [last];
      assert last !in multiset(head);
    }
  }

  lemma CountTwice(s: seq<Route>, i: nat, j: nat)
    requires i < j < |s|
    ensures s[i] == s[j] ==> multiset(s)[s[i]] >= 2
  {
    assert s == s[..j] + s[j..];
    assert s[..j][i] == s[i] && s[j..][0] == s[j];
    assert multiset(s) == multiset(s[..j]) + multiset(s[j..]);
    assert s[i] in s[..j] && s[j] in s[j..];
  }

  /** A published period as the comparison reads it: its days, stored index and number of days. */
  datatype Period = Period(days: seq<seq<Leg>>, value: int, expected: int)

  /** The outer loop of `_route_comparisons`. */
  method ComparePeriods(periods: seq<Period>) returns (output: seq<seq<RouteComparison>>)
    requires forall k :: 0 <= k < |periods| ==> periods[k].expected > 0
    ensures |output| == |periods|
    ensures forall k :: 0 <= k < |periods| ==>
              Compares(output[k], periods[k].days, periods[k].value, periods[k].expected)
  {
    output := [];
    hide Compares;
    for k := 0 to |periods|
      invariant |output| == k
      invariant forall j :: 0 <= j < k ==> Compares(output[j], periods[j].days, periods[j].value, periods[j].expected)
    {
      var rows := CompareRoutes(periods[k].days, periods[k].value, periods[k].expected);
      output := output + [rows];
    }
  }

  // ---------------------------------------------------------------------------------------------
  // The list that is returned

  function RoutesOf(output: seq<RouteComparison>): (routes: seq<Route>)
    ensures |routes| == |output| && forall i :: 0 <= i < |output| ==> routes[i] == output[i].route
  {
    seq(|output|, i requires 0 <= i < |output| => output[i].route)
  }

  /** The rows of the list put together again: their reported indices, each with the weight of its route. */
  function Listed(first: seq<Leg>, output: seq<RouteComparison>): real {
    if output == [] then 0.0
    else
      var last := output[|output| - 1];
      Listed(first, output[..|output| - 1])
      + Product(RouteWeight(first, last.route), last.routeIndex as real / Rounding.INDEX_UNITS)
  }

  lemma LastReports(output: seq<RouteComparison>, days: seq<seq<Leg>>, periodValue: int, expected: int)
    requires expected > 0 && output != [] && AllReport(output, days, periodValue, expected)
    ensures var n := |output| - 1;
            && AllReport(output[..n], days, periodValue, expected)
            && RouteValues(days, output[n].route) != []
            && output[n].routeIndex as real / Rounding.INDEX_UNITS == Reported(days, output[n].route)
            && RoutesOf(output) == RoutesOf(output[..n]) + [output[n].route]
  {
    var n := |output| - 1;
    assert Reports(output[n], output[n].route, RouteValues(days, output[n].route), periodValue, expected);
    assert forall i :: 0 <= i < n ==> output[..n][i] == output[i];
    hide RouteValues, ComparisonFor, Reported;
    ComparisonReports(days, output[n].route, periodValue, expected);
  }

  lemma ListedStep(first: seq<Leg>, output: seq<RouteComparison>)
    requires output != []
    ensures var n := |output| - 1;
            Listed(first, output)
              == Listed(first, output[..n])
                 + Product(RouteWeight(first, output[n].route), output[n].routeIndex as real / Rounding.INDEX_UNITS)
  {
    hide Product, RouteWeight;
  }

  lemma ReportedStep(first: seq<Leg>, routes: seq<Route>, route: Route, days: seq<seq<Leg>>)
    requires RouteValues(days, route) != [] && forall r :: r in routes ==> RouteValues(days, r) != []
    ensures forall r :: r in routes + [route] ==> RouteValues(days, r) != []
    ensures ReportedMonth(first, routes + [route], days)
         == ReportedMonth(first, routes, days) + Product(RouteWeight(first, route), Reported(days, route))
  {
    assert (routes + [route])[..|routes|] == routes;
    hide Product, RouteWeight, Reported, RouteValues;
  }

  lemma NothingListed(first: seq<Leg>, days: seq<seq<Leg>>)
    ensures Listed(first, []) == 0.0 && RoutesOf([]) == [] && ReportedMonth(first, [], days) == 0.0
  {
  }

  lemma {:induction false} ListedIsReported(first: seq<Leg>, output: seq<RouteComparison>, days: seq<seq<Leg>>,
                                            periodValue: int, expected: int)
    requires expected > 0 && AllReport(output, days, periodValue, expected)
    ensures forall r :: r in RoutesOf(output) ==> RouteValues(days, r) != []
    ensures Listed(first, output) == ReportedMonth(first, RoutesOf(output), days)
    decreases |output|
  {
    hide *;
    if output == [] {
      NothingListed(first, days);
    } else {
      var n := |output| - 1;
      LastReports(output, days, periodValue, expected);
      ListedIsReported(first, output[..n], days, periodValue, expected);
      ListedStep(first, output);
      ReportedStep(first, RoutesOf(output[..n]), output[n].route, days);
    }
  }

  lemma {:induction false} WeightQuotes(legs: seq<Leg>, route: Route)
    ensures RouteWeight(legs, route) != 0.0 ==> Quoted(legs, route)
  {
    if legs != [] {
      var n := |legs| - 1;
      WeightQuotes(legs[..n], route);
      if RouteWeight(legs[..n], route) != 0.0 {
        var i :| 0 <= i < n && legs[..n][i].route == route;
        assert legs[i].route == route;
      } else if Counts(legs[n], route) {
        assert legs[n].route == route;
      }
    }
  }

  lemma {:induction false} ValueQuotes(first: seq<Leg>, days: seq<seq<Leg>>, route: Route)
    requires forall d :: 0 <= d < |days| ==> FullOn(first, days[d])
    ensures RouteValues(days, route) != [] ==> Quoted(first, route)
  {
    if days != [] {
      var n := |days| - 1;
      assert forall d :: 0 <= d < n ==> days[..n][d] == days[d];
      ValueQuotes(first, days[..n], route);
      if RouteDay(days[n], route).Some? {
        WeightQuotes(days[n], route);
        assert FullOn(first, days[n]);
        QuotedSame(first, days[n], route);
      }
    }
    hide FullOn, RouteWeight, RouteTotal, Quoted;
  }

  lemma QuotedSame(first: seq<Leg>, day: seq<Leg>, route: Route)
    requires FullOn(first, day) && Quoted(day, route)
    ensures Quoted(first, route)
  {
    var i :| 0 <= i < |day| && day[i].route == route;
    assert first[i].route == route;
  }

  /** The list covers the same basket as the routes it is compared over. */
  lemma ListCovers(first: seq<Leg>, days: seq<seq<Leg>>, routes: seq<Route>, output: seq<RouteComparison>,
                   periodValue: int, expected: int)
    requires FullDays(first, days, routes) && days != [] && expected > 0
    requires Compares(output, days, periodValue, expected)
    ensures FullDays(first, days, RoutesOf(output))
  {
    var listed := RoutesOf(output);
    forall i | 0 <= i < |first|
      ensures first[i].route in listed
    {
      EveryRouteEveryDay(first, days, routes, first[i].route);
      var k :| 0 <= k < |output| && output[k].route == first[i].route;
      assert listed[k] == first[i].route;
    }
    forall r | r in listed
      ensures Quoted(first, r)
    {
      var k :| 0 <= k < |listed| && listed[k] == r;
      assert Reports(output[k], r, RouteValues(days, r), periodValue, expected);
      ValueQuotes(first, days, r);
    }
    assert Distinct(listed);
    hide FullOn, RouteValues, Quoted, AllPriced, ComparisonFor, RouteAtMost, PositiveLegs;
  }

  /** A period index that is the rounded mean of daily values close to their components is the weighted mean of
      the indices in the list as returned, within 1.505e-8. */
  lemma ListDecomposes(first: seq<Leg>, days: seq<seq<Leg>>, values: seq<int>, routes: seq<Route>,
                       output: seq<RouteComparison>, expected: int)
    requires FullDays(first, days, routes) && days != [] && StoredClose(values, days) && expected > 0 && values != []
    requires Compares(output, days, RoundedMean(values), expected)
    ensures WeightOver(first, RoutesOf(output)) > 0.0
    ensures Within(RoundedMean(values), Listed(first, output) / WeightOver(first, RoutesOf(output)), DAILY_ERROR + 1.0)
  {
    ListCovers(first, days, routes, output, RoundedMean(values), expected);
    ListedIsReported(first, output, days, RoundedMean(values), expected);
    hide *;
    ReportedDecomposes(first, days, values, RoutesOf(output));
  }
}
