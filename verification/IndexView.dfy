/** The materialised weekly and monthly view against the daily indices it summarises. */
module IndexView {
  import opened Options
  import opened Domain
  import opened Calendar
  import opened Methodology
  import opened Periods
  import opened IndexModel

  /** Each stored day is the ordinal of its row's own date. */
  ghost predicate WellDated(db: Store) {
    forall key :: key in db.daily ==> Ordinal(db.daily[key].date) == key.day
  }

  /** The period of a stored day is stale, or stored as a recomputation would give it. */
  ghost predicate Current(db: Store, stale: set<PeriodKey>, key: DayKey, period: PeriodType)
    requires key in db.daily
  {
    var date := db.daily[key].date;
    var pk := KeyFor(key.dataClass, date, period);
    pk in stale || (pk in db.periods && db.periods[pk] == Recomputed(db, key.dataClass, date, period))
  }

  /** Some stored day belongs to the period. */
  ghost predicate Covered(db: Store, pk: PeriodKey) {
    exists key :: key in db.daily
                  && pk == KeyFor(key.dataClass, db.daily[key].date, pk.period)
  }

  /** Every period containing a daily index is stored as a recomputation would give it, except the
      `stale` ones, and no period is stored without a daily index in it. */
  ghost predicate ViewAgrees(db: Store, stale: set<PeriodKey>) {
    && WellDated(db)
    && (forall key, period :: key in db.daily ==> Current(db, stale, key, period))
    && (forall pk :: pk in db.periods ==> Covered(db, pk))
  }

  // ---------------------------------------------------------------------------------------------
  // What a recomputation depends on

  /** The inputs of a period are exactly the stored days within its bounds, in date order. */
  lemma {:induction false} InputsAreTheDays(daily: map<DayKey, DailyIndex>, dc: DataClass, lo: int, hi: int)
    ensures forall d :: d in DaysBetween(daily, dc, lo, hi) <==> lo <= d <= hi && DayKey(dc, d) in daily
    ensures var days, rows := DaysBetween(daily, dc, lo, hi), RowsBetween(daily, dc, lo, hi);
            && |rows| == |days| <= (if hi < lo then 0 else hi - lo + 1)
            && (forall i :: 0 <= i < |days| ==> DayKey(dc, days[i]) in daily && rows[i] == daily[DayKey(dc, days[i])])
            && (forall i, j :: 0 <= i < j < |days| ==> days[i] < days[j])
    decreases hi - lo
  {
    if lo <= hi {
      InputsAreTheDays(daily, dc, lo, hi - 1);
      var days := DaysBetween(daily, dc, lo, hi - 1);
      forall i | 0 <= i < |days|
        ensures days[i] < hi
      {
        assert days[i] in days;
      }
    }
  }

  lemma {:induction false} RowsUnaffected(daily: map<DayKey, DailyIndex>, dc: DataClass, lo: int, hi: int,
                                          key: DayKey, row: DailyIndex)
    requires key.dataClass != dc || key.day < lo || hi < key.day
    ensures RowsBetween(daily[key := row], dc, lo, hi) == RowsBetween(daily, dc, lo, hi)
    ensures DaysBetween(daily[key := row], dc, lo, hi) == DaysBetween(daily, dc, lo, hi)
    decreases hi - lo
  {
    if lo <= hi {
      RowsUnaffected(daily, dc, lo, hi - 1, key, row);
    }
  }

  /** Only daily rows within the bounds matter. */
  lemma RecomputedUnaffected(db: Store, dc: DataClass, date: CalendarDate, period: PeriodType, key: DayKey,
                             row: DailyIndex)
    requires key.dataClass != dc || key.day < PeriodStart(date, period) || PeriodEnd(date, period) < key.day
    ensures Recomputed(db.(daily := db.daily[key := row]), dc, date, period) == Recomputed(db, dc, date, period)
  {
    RowsUnaffected(db.daily, dc, PeriodStart(date, period), PeriodEnd(date, period), key, row);
  }

  /** Two dates with the same period key have the same recomputation. */
  lemma RecomputedSamePeriod(db: Store, dc: DataClass, d: CalendarDate, e: CalendarDate, period: PeriodType)
    requires KeyFor(dc, d, period) == KeyFor(dc, e, period)
    ensures Recomputed(db, dc, d, period) == Recomputed(db, dc, e, period)
  {
    PeriodsPartition(d, e, period);
  }

  /** Nothing but the daily indices and the runs matters. */
  lemma RecomputedFromDaily(db: Store, later: Store, dc: DataClass, date: CalendarDate, period: PeriodType)
    requires later.daily == db.daily && later.runs == db.runs
    ensures Recomputed(later, dc, date, period) == Recomputed(db, dc, date, period)
  {
  }

  lemma {:induction false} SourcesUnaffected(rows: seq<DailyIndex>, runs: map<nat, CollectionRun>, id: nat,
                                             run: CollectionRun)
    requires forall i :: 0 <= i < |rows| ==> rows[i].run != id
    ensures SourcesOf(rows, runs[id := run]) == SourcesOf(rows, runs)
  {
    if rows != [] {
      SourcesUnaffected(rows[..|rows| - 1], runs, id, run);
    }
  }

  /** A run no daily index refers to does not change any period. */
  lemma RecomputedNewRun(db: Store, dc: DataClass, date: CalendarDate, period: PeriodType, id: nat, run: CollectionRun)
    requires forall key :: key in db.daily ==> db.daily[key].run != id
    ensures Recomputed(db.(runs := db.runs[id := run]), dc, date, period) == Recomputed(db, dc, date, period)
  {
    var lo, hi := PeriodStart(date, period), PeriodEnd(date, period);
    InputsAreTheDays(db.daily, dc, lo, hi);
    SourcesUnaffected(RowsBetween(db.daily, dc, lo, hi), db.runs, id, run);
  }

  // ---------------------------------------------------------------------------------------------
  // Each step keeps the agreement

  ghost function KeysOf(dc: DataClass, date: CalendarDate): set<PeriodKey>
  {
    {KeyFor(dc, date, WEEKLY), KeyFor(dc, date, MONTHLY)}
  }

  lemma NewDayKeepsOthers(db: Store, stale: set<PeriodKey>, dc: DataClass, row: DailyIndex, key: DayKey,
                          period: PeriodType)
    requires key in db.daily && Ordinal(db.daily[key].date) == key.day
    requires Current(db, stale, key, period) && key != DayKey(dc, Ordinal(row.date))
    ensures Current(db.(daily := db.daily[DayKey(dc, Ordinal(row.date)) := row]), stale + KeysOf(dc, row.date), key,
                    period)
  {
    var date := db.daily[key].date;
    hide Ordinal, PeriodStart, PeriodEnd, Recomputed;
    if KeyFor(key.dataClass, date, period) != KeyFor(dc, row.date, period) {
      if key.dataClass == dc {
        PeriodsPartition(date, row.date, period);
      }
      RecomputedUnaffected(db, key.dataClass, date, period, DayKey(dc, Ordinal(row.date)), row);
    }
  }

  lemma CoveredStays(db: Store, later: Store, pk: PeriodKey)
    requires Covered(db, pk) && forall key :: key in db.daily ==>
               key in later.daily && later.daily[key] == db.daily[key]
    ensures Covered(later, pk)
  {
    var key :| key in db.daily
               && pk == KeyFor(key.dataClass, db.daily[key].date, pk.period);
    assert key in later.daily;
  }

  /** A new daily index leaves only its own week and month to be refreshed. */
  lemma NewDayStales(db: Store, stale: set<PeriodKey>, dc: DataClass, row: DailyIndex)
    requires ViewAgrees(db, stale) && DayKey(dc, Ordinal(row.date)) !in db.daily
    ensures ViewAgrees(db.(daily := db.daily[DayKey(dc, Ordinal(row.date)) := row]), stale + KeysOf(dc, row.date))
  {
    var day := DayKey(dc, Ordinal(row.date));
    var next := db.(daily := db.daily[day := row]);
    forall key, period | key in next.daily
      ensures Current(next, stale + KeysOf(dc, row.date), key, period)
    {
      if key != day {
        NewDayKeepsOthers(db, stale, dc, row, key, period);
      }
    }
    forall pk | pk in next.periods
      ensures Covered(next, pk)
    {
      CoveredStays(db, next, pk);
    }
    hide Ordinal, Current, Covered;
  }

  lemma RefreshKeepsOthers(db: Store, stale: set<PeriodKey>, key: DayKey, period: PeriodType, other: DayKey,
                           p: PeriodType)
    requires key in db.daily && other in db.daily
    requires Current(db, stale, other, p)
    ensures var date := db.daily[key].date;
            Current(Refreshed(db, key.dataClass, date, period), stale - {KeyFor(key.dataClass, date, period)}, other, p)
  {
    var date, d := db.daily[key].date, db.daily[other].date;
    var pk, ok := KeyFor(key.dataClass, date, period), KeyFor(other.dataClass, d, p);
    var next := Refreshed(db, key.dataClass, date, period);
    RefreshedAt(db, key.dataClass, date, period, ok);
    RecomputedFromDaily(db, next, other.dataClass, d, p);
    if ok == pk {
      KeyFields(key.dataClass, date, period, other.dataClass, d, p);
      RecomputedSamePeriod(db, key.dataClass, d, date, period);
    }
    hide Recomputed, KeyFor, Refreshed;
  }

  lemma KeyFields(a: DataClass, d: CalendarDate, p: PeriodType, b: DataClass, e: CalendarDate, q: PeriodType)
    requires KeyFor(a, d, p) == KeyFor(b, e, q)
    ensures a == b && p == q
  {
  }

  lemma RefreshedAt(db: Store, dc: DataClass, date: CalendarDate, period: PeriodType, k: PeriodKey)
    ensures var next, pk := Refreshed(db, dc, date, period), KeyFor(dc, date, period);
            && next.daily == db.daily && next.runs == db.runs && pk in next.periods
            && next.periods[pk] == Recomputed(db, dc, date, period)
            && (k != pk ==> (k in next.periods <==> k in db.periods))
            && (k != pk && k in db.periods ==> next.periods[k] == db.periods[k])
  {
    hide Recomputed, KeyFor;
  }

  /** Refreshing a period that contains a stored day makes it current and disturbs no other. */
  lemma RefreshCures(db: Store, stale: set<PeriodKey>, key: DayKey, period: PeriodType)
    requires ViewAgrees(db, stale) && key in db.daily
    ensures var date := db.daily[key].date;
            ViewAgrees(Refreshed(db, key.dataClass, date, period), stale - {KeyFor(key.dataClass, date, period)})
  {
    var date := db.daily[key].date;
    var next := Refreshed(db, key.dataClass, date, period);
    var pk := KeyFor(key.dataClass, date, period);
    forall other, p | other in next.daily
      ensures Current(next, stale - {pk}, other, p)
    {
      RefreshKeepsOthers(db, stale, key, period, other, p);
    }
    forall k | k in next.periods
      ensures Covered(next, k)
    {
      if k == pk {
        assert key in next.daily;
      } else {
        CoveredStays(db, next, k);
      }
    }
    hide Current, Recomputed;
  }

  /** Changes to prices and baskets do not touch the view. */
  lemma ViewIgnoresPrices(db: Store, later: Store, stale: set<PeriodKey>)
    requires ViewAgrees(db, stale)
    requires later.daily == db.daily && later.runs == db.runs && later.periods == db.periods
    ensures ViewAgrees(later, stale)
  {
    hide Ordinal, PeriodStart, Recomputed;
    forall key, period | key in later.daily
      ensures Current(later, stale, key, period)
    {
      assert Current(db, stale, key, period);
      RecomputedFromDaily(db, later, key.dataClass, db.daily[key].date, period);
    }
    forall pk | pk in later.periods
      ensures Covered(later, pk)
    {
      CoveredStays(db, later, pk);
    }
  }

  lemma ViewIgnoresNewRun(db: Store, stale: set<PeriodKey>, id: nat, run: CollectionRun)
    requires ViewAgrees(db, stale) && forall key :: key in db.daily ==> db.daily[key].run != id
    ensures ViewAgrees(db.(runs := db.runs[id := run]), stale)
  {
    var later := db.(runs := db.runs[id := run]);
    hide Ordinal, PeriodStart, Recomputed;
    forall key, period | key in later.daily
      ensures Current(later, stale, key, period)
    {
      assert Current(db, stale, key, period);
      RecomputedNewRun(db, key.dataClass, db.daily[key].date, period, id, run);
    }
    forall pk | pk in later.periods
      ensures Covered(later, pk)
    {
      CoveredStays(db, later, pk);
    }
  }

  // ---------------------------------------------------------------------------------------------
  // Refreshing again

  /** Refreshing a current period changes nothing. */
  lemma RefreshCurrent(db: Store, dc: DataClass, date: CalendarDate, period: PeriodType)
    requires KeyFor(dc, date, period) in db.periods
    requires db.periods[KeyFor(dc, date, period)] == Recomputed(db, dc, date, period)
    ensures Refreshed(db, dc, date, period) == db
  {
    hide Recomputed, PeriodStart;
  }

  /** From either commit of a refresh, refreshing again ends in the same state. */
  lemma RefreshesResume(db: Store, dc: DataClass, date: CalendarDate)
    ensures var done := Refreshes(db, dc, date);
            && Refreshes(done[0], dc, date)[1] == done[1]
            && Refreshes(done[1], dc, date)[1] == done[1]
  {
    hide Recomputed, PeriodStart, Valid;
    var weekly := Refreshed(db, dc, date, WEEKLY);
    var monthly := Refreshed(weekly, dc, date, MONTHLY);
    RecomputedFromDaily(db, weekly, dc, date, WEEKLY);
    RefreshCurrent(weekly, dc, date, WEEKLY);
    RecomputedFromDaily(db, monthly, dc, date, WEEKLY);
    RefreshCurrent(monthly, dc, date, WEEKLY);
    RecomputedFromDaily(weekly, monthly, dc, date, MONTHLY);
    RefreshCurrent(monthly, dc, date, MONTHLY);
  }

  // ---------------------------------------------------------------------------------------------
  // The sources of a period

  /** Some canonical fare of the run behind some day used the source. */
  ghost predicate UsedOn(rows: seq<DailyIndex>, runs: map<nat, CollectionRun>, source: int) {
    exists i, k ::
      && 0 <= i < |rows| && rows[i].run in runs && 0 <= k < |runs[rows[i].run].fares|
      && source in runs[rows[i].run].fares[k].usedSources
  }

  ghost predicate UsedBy(fares: seq<CanonicalFare>, source: int) {
    exists k :: 0 <= k < |fares| && source in fares[k].usedSources
  }

  lemma {:induction false} FareSourcesAre(fares: seq<CanonicalFare>, source: int)
    ensures source in FareSources(fares) <==> UsedBy(fares, source)
  {
    if fares != [] {
      var head, n := fares[..|fares| - 1], |fares| - 1;
      FareSourcesAre(head, source);
      if UsedBy(head, source) {
        var k :| 0 <= k < |head| && source in head[k].usedSources;
        assert source in fares[k].usedSources;
      }
      if UsedBy(fares, source) && source !in fares[n].usedSources {
        var k :| 0 <= k < |fares| && source in fares[k].usedSources;
        assert source in head[k].usedSources;
      }
    }
  }

  lemma UsedOnStep(rows: seq<DailyIndex>, runs: map<nat, CollectionRun>, source: int)
    requires rows != []
    ensures var n := |rows| - 1;
            UsedOn(rows, runs, source) <==>
              UsedOn(rows[..n], runs, source)
              || (rows[n].run in runs && UsedBy(runs[rows[n].run].fares, source))
  {
    var n := |rows| - 1;
    if UsedOn(rows[..n], runs, source) {
      var i, k :| 0 <= i < n && rows[..n][i].run in runs && 0 <= k < |runs[rows[..n][i].run].fares|
                  && source in runs[rows[..n][i].run].fares[k].usedSources;
      assert rows[i].run in runs && source in runs[rows[i].run].fares[k].usedSources;
    }
    if UsedOn(rows, runs, source) {
      var i, k :| 0 <= i < |rows| && rows[i].run in runs && 0 <= k < |runs[rows[i].run].fares|
                  && source in runs[rows[i].run].fares[k].usedSources;
      if i < n {
        assert rows[..n][i].run in runs && source in runs[rows[..n][i].run].fares[k].usedSources;
      }
    }
  }

  /** The sources counted for a period are those some canonical fare of a run behind one of its days used. */
  lemma {:induction false} SourcesAre(rows: seq<DailyIndex>, runs: map<nat, CollectionRun>, source: int)
    ensures source in SourcesOf(rows, runs) <==> UsedOn(rows, runs, source)
  {
    if rows != [] {
      var n := |rows| - 1;
      SourcesAre(rows[..n], runs, source);
      UsedOnStep(rows, runs, source);
      if rows[n].run in runs {
        FareSourcesAre(runs[rows[n].run].fares, source);
      }
      hide UsedOn, UsedBy, FareSources;
    }
  }

  /** A refreshed period expects seven days or the days of its month, observes the stored days within its bounds, and
      counts the sources used on them. */
  lemma RefreshedCounts(db: Store, dc: DataClass, date: CalendarDate, period: PeriodType)
    ensures var p := Recomputed(db, dc, date, period);
            var rows := RowsBetween(db.daily, dc, PeriodStart(date, period), p.end);
            && p.metrics.expected == (if period == WEEKLY then 7 else DaysInMonth(date.year, date.month))
            && p.metrics.observed == |rows| == |p.inputs|
            && (forall d :: d in p.inputs <==> PeriodStart(date, period) <= d <= p.end && DayKey(dc, d) in db.daily)
            && p.metrics.sources == |SourcesOf(rows, db.runs)|
            && forall source :: source in SourcesOf(rows, db.runs) <==> UsedOn(rows, db.runs, source)
  {
    var lo, hi := PeriodStart(date, period), PeriodEnd(date, period);
    var rows := RowsBetween(db.daily, dc, lo, hi);
    var sources := |SourcesOf(rows, db.runs)|;
    OwnPeriod(date, period);
    RecomputedParts(db, dc, date, period);
    hide *;
    InputsAreTheDays(db.daily, dc, lo, hi);
    CountsAreCounts(rows, hi - lo + 1, sources, MINIMUM_COVERAGE);
    LabelsExactly(rows, hi - lo + 1, sources, MINIMUM_COVERAGE);
    forall source
      ensures source in SourcesOf(rows, db.runs) <==> UsedOn(rows, db.runs, source)
    {
      SourcesAre(rows, db.runs, source);
    }
  }

  lemma RecomputedParts(db: Store, dc: DataClass, date: CalendarDate, period: PeriodType)
    ensures var lo, hi := PeriodStart(date, period), PeriodEnd(date, period);
            var rows, p := RowsBetween(db.daily, dc, lo, hi), Recomputed(db, dc, date, period);
            && p.end == hi && p.inputs == DaysBetween(db.daily, dc, lo, hi)
            && p.metrics == Metrics(rows, hi - lo + 1, |SourcesOf(rows, db.runs)|, MINIMUM_COVERAGE)
            && hi - lo + 1 == ExpectedDays(date, period)
  {
    hide PeriodStart, PeriodEnd, RowsBetween, DaysBetween, SourcesOf, Metrics;
  }
}
