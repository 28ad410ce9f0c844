/** When `calculate_index_for_run` is accepted, said of the rows of the database, and the basket it creates. */
module CallConditions {
  import opened Options
  import opened Domain
  import opened Calendar
  import opened IndexModel
  import opened IndexBase
  import opened IndexRecovery
  import opened IndexInvariant
  import opened IndexRuns

  // ---------------------------------------------------------------------------------------------
  // Accepted calls

  ghost predicate OneVersion(fares: seq<CanonicalFare>) {
    forall i, j :: 0 <= i < |fares| && 0 <= j < |fares| ==> fares[i].version == fares[j].version
  }

  lemma {:induction false} VersionsAre(fares: seq<CanonicalFare>, version: string)
    ensures version in Versions(fares) <==> exists i :: 0 <= i < |fares| && fares[i].version == version
  {
    if fares != [] {
      var head, n := fares[..|fares| - 1], |fares| - 1;
      VersionsAre(head, version);
      if version in Versions(head) {
        var i :| 0 <= i < |head| && head[i].version == version;
        assert fares[i].version == version;
      }
      if i :| 0 <= i < |fares| && fares[i].version == version {
        assert i < n ==> head[i].version == version;
      }
    }
  }

  lemma VersionIn(fares: seq<CanonicalFare>, i: nat)
    requires i < |fares|
    ensures fares[i].version in Versions(fares)
  {
    VersionsAre(fares, fares[i].version);
    hide Versions;
  }

  lemma OneVersionIs(fares: seq<CanonicalFare>)
    ensures |Versions(fares)| <= 1 <==> OneVersion(fares)
  {
    hide Versions;
    if |Versions(fares)| <= 1 {
      forall i, j | 0 <= i < |fares| && 0 <= j < |fares|
        ensures fares[i].version == fares[j].version
      {
        VersionIn(fares, i);
        VersionIn(fares, j);
        NoTwo(Versions(fares), fares[i].version, fares[j].version);
      }
    } else {
      var a, b := TwoOf(Versions(fares));
      VersionsAre(fares, a);
      VersionsAre(fares, b);
    }
  }

  lemma NoTwo<T>(s: set<T>, a: T, b: T)
    requires |s| <= 1 && a in s && b in s
    ensures a == b
  {
    assert |s - {a}| == |s| - 1;
    assert s - {a} == {};
    assert b !in s - {a};
  }

  lemma TwoOf<T>(s: set<T>) returns (a: T, b: T)
    requires |s| > 1
    ensures a in s && b in s && a != b
  {
    a :| a in s;
    assert s - {a} != {} by {
      assert |s - {a}| == |s| - 1;
    }
    b :| b in s - {a};
  }

  /** No stored price of the run's class and day belongs to another run. */
  ghost predicate DayIsFree(prices: seq<PriceRow>, id: nat, dc: DataClass, day: int) {
    forall i :: 0 <= i < |prices| && prices[i].dataClass == dc && prices[i].day == day ==> prices[i].run == id
  }

  lemma {:induction false} RowOnDay(prices: seq<PriceRow>, i: nat, dc: DataClass, day: int)
    requires i < |prices| && prices[i].dataClass == dc && prices[i].day == day
    ensures prices[i] in OnDay(prices, dc, day)
  {
    if i < |prices| - 1 {
      RowOnDay(prices[..|prices| - 1], i, dc, day);
    }
  }

  lemma FreeDay(db: Store, id: nat, dc: DataClass, day: int)
    requires DayOk(db, dc, day)
    ensures var rows := OnDay(db.prices, dc, day);
            rows == [] || rows[0].run == id <==> DayIsFree(db.prices, id, dc, day)
  {
    var rows := OnDay(db.prices, dc, day);
    InOnDay(db.prices, dc, day);
    hide OnDay;
    if rows == [] || rows[0].run == id {
      forall i: nat | i < |db.prices| && db.prices[i].dataClass == dc && db.prices[i].day == day
        ensures db.prices[i].run == id
      {
        RowOnDay(db.prices, i, dc, day);
        var k :| 0 <= k < |rows| && rows[k] == db.prices[i];
      }
    } else {
      assert rows[0] in rows;
      var i :| 0 <= i < |db.prices| && db.prices[i] == rows[0];
      assert !DayIsFree(db.prices, id, dc, day);
    }
  }

  /** In any reachable state a call succeeds exactly when its run exists and is COMPLETED or PARTIAL, its class has
      a basket or the three routes are active, its fares share one version, and no other run has a price of
      its class on its date. */
  lemma AcceptedExactly(db: Store, id: nat, stale: set<PeriodKey>)
    requires Inv(db, stale)
    ensures CallFor(db, id).outcome.Indexed? <==>
            && id in db.runs
            && (db.runs[id].status == RunStatus.COMPLETED || db.runs[id].status == RunStatus.PARTIAL)
            && (db.runs[id].dataClass in db.baskets
                || {Route("DEL", "BOM"), Route("DEL", "BLR"), Route("BOM", "BLR")} <= db.activeRoutes)
            && OneVersion(db.runs[id].fares)
            && DayIsFree(db.prices, id, db.runs[id].dataClass, Ordinal(db.runs[id].date))
  {
    CallSucceeds(db, id, stale);
    if id in db.runs {
      DaysOk(db, stale, db.runs[id].dataClass, Ordinal(db.runs[id].date));
    }
    hide *;
    AcceptableIs(db, id);
    if id in db.runs {
      OneVersionIs(db.runs[id].fares);
      FreeDay(db, id, db.runs[id].dataClass, Ordinal(db.runs[id].date));
    }
  }

  lemma DaysOk(db: Store, stale: set<PeriodKey>, dc: DataClass, day: int)
    requires Inv(db, stale)
    ensures DayOk(db, dc, day)
  {
  }

  lemma AcceptableIs(db: Store, id: nat)
    ensures Acceptable(db, id) <==>
            && id in db.runs
            && (db.runs[id].status == RunStatus.COMPLETED || db.runs[id].status == RunStatus.PARTIAL)
            && (db.runs[id].dataClass in db.baskets
                || {Route("DEL", "BOM"), Route("DEL", "BLR"), Route("BOM", "BLR")} <= db.activeRoutes)
            && |Versions(db.runs[id].fares)| <= 1
            && var rows := OnDay(db.prices, db.runs[id].dataClass, Ordinal(db.runs[id].date));
               rows == [] || rows[0].run == id
  {
    hide Versions, OnDay, Ordinal;
  }

  // ---------------------------------------------------------------------------------------------
  // The basket

  /** A new basket holds every one of the three routes with every one of the five windows exactly once, at equal
      weights that add up to one to within five units of the twelfth decimal, without any base. */
  lemma BasketCovers(route: Route, window: AdvanceWindow)
    ensures var items := NewBasket().items;
            && |items| == 15
            && (route in {Route("DEL", "BOM"), Route("DEL", "BLR"), Route("BOM", "BLR")} && window != OTHER <==>
                exists k :: 0 <= k < 15 && items[k].route == route && items[k].window == window)
            && (forall j, k :: 0 <= j < k < 15 ==>
                  items[j].route != items[k].route || items[j].window != items[k].window)
            && (forall k :: 0 <= k < 15 ==> items[k].weight == items[0].weight && items[k].base.None?)
            && -0.000000000005 <= 15.0 * items[0].weight - 1.0 <= 0.000000000005
  {
    var items := NewBasket().items;
    ItemsAre();
    forall k | 0 <= k < 15
      ensures items[k].route == ROUTE_PAIRS[k / 5] && items[k].window == WINDOWS[k % 5]
      ensures items[k].weight == EQUAL_WEIGHT && items[k].base.None?
    {
    }
    hide NewBasket;
    if window != OTHER && route in {DEL_BOM, DEL_BLR, BOM_BLR} {
      var r := if route == DEL_BOM then 0 else if route == DEL_BLR then 1 else 2;
      var w := if window == T1 then 0 else if window == T7 then 1 else if window == T15 then 2
               else if window == T30 then 3 else 4;
      var k := 5 * r + w;
      assert k / 5 == r && k % 5 == w;
      assert items[k].route == route && items[k].window == window;
    }
  }

  lemma ItemsAre()
    ensures |NewBasket().items| == 15
    ensures forall k :: 0 <= k < 15 ==> NewBasket().items[k] == NewItem(k)
  {
  }
}
