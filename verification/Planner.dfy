/** The job matrix of a collection run and its idempotency keys (`services/planner.py`). */
module Planner {
  import opened Aggregates
  import opened Domain
  import opened Calendar

  datatype PlannedJob = PlannedJob(route: Route, days: int, window: AdvanceWindow, source: string, key: string)

  /** What a run's keys share: one run exists per data class, trigger and methodological date. */
  datatype RunKey = RunKey(dataClass: DataClass, trigger: RunTrigger, date: Date)

  // ---------------------------------------------------------------------------------------------
  // Key text

  predicate Free(c: char, s: string) {
    c !in s
  }

  function ClassText(d: DataClass): (s: string)
    ensures Free(':', s)
  {
    match d
    case LIVE => "LIVE"
    case HISTORICAL => "HISTORICAL"
    case SYNTHETIC => "SYNTHETIC"
    case RECORDED_DEMO => "RECORDED_DEMO"
  }

  function TriggerText(t: RunTrigger): (s: string)
    ensures Free(':', s)
  {
    match t
    case SCHEDULED => "SCHEDULED"
    case MANUAL => "MANUAL"
    case BACKFILL => "BACKFILL"
    case TEST => "TEST"
  }

  function WindowText(w: AdvanceWindow): (s: string)
    ensures Free(':', s)
  {
    match w
    case T1 => "T1"
    case T7 => "T7"
    case T15 => "T15"
    case T30 => "T30"
    case T45 => "T45"
    case OTHER => "OTHER"
  }

  /** The dates `datetime.date` can hold. */
  predicate InCalendar(d: Date) {
    Valid(d) && d.year <= 9999
  }

  function Digit(n: int): char
    requires 0 <= n < 10
  {
    ('0' as int + n) as char
  }

  function TwoDigits(n: int): string
    requires 0 <= n < 100
  {
    [Digit(n / 10), Digit(n % 10)]
  }

  /** `date.isoformat()`. */
  function IsoFormat(d: Date): (s: string)
    requires InCalendar(d)
    ensures |s| == 10 && Free(':', s)
  {
    TwoDigits(d.year / 100) + TwoDigits(d.year % 100) + "-" + TwoDigits(d.month) + "-" + TwoDigits(d.day)
  }

  /** Airport codes carry neither separator. */
  predicate PlainCode(code: string) {
    Free(':', code) && Free('-', code)
  }

  predicate PlainRoute(r: Route) {
    PlainCode(r.origin) && PlainCode(r.destination)
  }

  function RouteText(r: Route): string {
    r.origin + "-" + r.destination
  }

  /** The six fields joined by colons; a source code may contain any character. */
  function IdempotencyKey(run: RunKey, source: string, route: Route, window: AdvanceWindow): string
    requires InCalendar(run.date)
  {
    ClassText(run.dataClass) + ":" + (TriggerText(run.trigger) + ":" + (IsoFormat(run.date) + ":" +
      (source + ":" + RouteText(route) + ":" + WindowText(window))))
  }

  /** Splitting at the first separator is unambiguous. */
  lemma SplitFirst(c: char, a: string, b: string, x: string, y: string)
    requires Free(c, a) && Free(c, b) && a + [c] + x == b + [c] + y
    ensures a == b && x == y
  {
    var left, right := a + [c] + x, b + [c] + y;
    assert left[|a|] == c && right[|b|] == c;
    assert forall k :: 0 <= k < |a| ==> left[k] == a[k] != c;
    assert forall k :: 0 <= k < |b| ==> right[k] == b[k] != c;
    assert a == left[..|a|] && b == right[..|b|];
    assert x == left[|a| + 1..] && y == right[|b| + 1..];
  }

  /** Beyond the last separator there is none, so no other one lies to the right of it. */
  lemma LastSeparator(c: char, a: string, text: string, x: string, k: nat)
    requires Free(c, a) && text == x + [c] + a && k < |text| && text[k] == c
    ensures k <= |x|
  {
    assert forall i :: |x| < i < |text| ==> text[i] == a[i - |x| - 1];
  }

  /** So is splitting at the last one. */
  lemma SplitLast(c: char, a: string, b: string, x: string, y: string)
    requires Free(c, a) && Free(c, b) && x + [c] + a == y + [c] + b
    ensures a == b && x == y
  {
    var text := x + [c] + a;
    LastSeparator(c, a, text, x, |y|);
    LastSeparator(c, b, text, y, |x|);
    assert x == text[..|x|] && y == text[..|y|];
    assert a == text[|x| + 1..] && b == text[|y| + 1..];
  }

  lemma TwoDigitsInjective(m: int, n: int)
    requires 0 <= m < 100 && 0 <= n < 100 && TwoDigits(m) == TwoDigits(n)
    ensures m == n
  {
    assert TwoDigits(m)[0] == Digit(m / 10) && TwoDigits(m)[1] == Digit(m % 10);
    assert TwoDigits(n)[0] == Digit(n / 10) && TwoDigits(n)[1] == Digit(n % 10);
  }

  lemma IsoFormatInjective(d: Date, e: Date)
    requires InCalendar(d) && InCalendar(e) && IsoFormat(d) == IsoFormat(e)
    ensures d == e
  {
    var s, t := IsoFormat(d), IsoFormat(e);
    assert s[0..2] == TwoDigits(d.year / 100) && t[0..2] == TwoDigits(e.year / 100);
    assert s[2..4] == TwoDigits(d.year % 100) && t[2..4] == TwoDigits(e.year % 100);
    assert s[5..7] == TwoDigits(d.month) && t[5..7] == TwoDigits(e.month);
    assert s[8..10] == TwoDigits(d.day) && t[8..10] == TwoDigits(e.day);
    hide TwoDigits;
    TwoDigitsInjective(d.year / 100, e.year / 100);
    TwoDigitsInjective(d.year % 100, e.year % 100);
    TwoDigitsInjective(d.month, e.month);
    TwoDigitsInjective(d.day, e.day);
  }

  /** Equal keys name the same run, source, route and window, whatever the source codes contain. */
  lemma KeyInjective(a: RunKey, b: RunKey, s: string, t: string, q: Route, r: Route, v: AdvanceWindow, w: AdvanceWindow)
    requires InCalendar(a.date) && InCalendar(b.date) && PlainRoute(q) && PlainRoute(r)
    requires IdempotencyKey(a, s, q, v) == IdempotencyKey(b, t, r, w)
    ensures a == b && s == t && q == r && v == w
  {
    var tailA := s + ":" + RouteText(q) + ":" + WindowText(v);
    var tailB := t + ":" + RouteText(r) + ":" + WindowText(w);
    hide ClassText, TriggerText, IsoFormat, WindowText;
    SplitFirst(':', ClassText(a.dataClass), ClassText(b.dataClass),
               TriggerText(a.trigger) + ":" + (IsoFormat(a.date) + ":" + tailA),
               TriggerText(b.trigger) + ":" + (IsoFormat(b.date) + ":" + tailB));
    SplitFirst(':', TriggerText(a.trigger), TriggerText(b.trigger),
               IsoFormat(a.date) + ":" + tailA, IsoFormat(b.date) + ":" + tailB);
    SplitFirst(':', IsoFormat(a.date), IsoFormat(b.date), tailA, tailB);
    IsoFormatInjective(a.date, b.date);
    SplitLast(':', WindowText(v), WindowText(w), s + ":" + RouteText(q), t + ":" + RouteText(r));
    SplitLast(':', RouteText(q), RouteText(r), s, t);
    SplitFirst('-', q.origin, r.origin, q.destination, r.destination);
    TextsInjective(a, b, v, w);
  }

  lemma TextsInjective(a: RunKey, b: RunKey, v: AdvanceWindow, w: AdvanceWindow)
    ensures ClassText(a.dataClass) == ClassText(b.dataClass) ==> a.dataClass == b.dataClass
    ensures TriggerText(a.trigger) == TriggerText(b.trigger) ==> a.trigger == b.trigger
    ensures WindowText(v) == WindowText(w) ==> v == w
  {
    assert ClassText(a.dataClass)[0] == ClassText(b.dataClass)[0] ==> a.dataClass == b.dataClass;
    assert TriggerText(a.trigger)[0] == TriggerText(b.trigger)[0] ==> a.trigger == b.trigger;
    assert |WindowText(v)| == |WindowText(w)| && WindowText(v)[1] == WindowText(w)[1] ==> v == w;
  }

  // ---------------------------------------------------------------------------------------------
  // The matrix

  function JobFor(run: RunKey, route: Route, days: int, source: string): PlannedJob
    requires InCalendar(run.date)
  {
    PlannedJob(route, days, ClassifyWindow(days), source, IdempotencyKey(run, source, route, ClassifyWindow(days)))
  }

  function JobsForSources(run: RunKey, route: Route, days: int, sources: seq<string>): (jobs: seq<PlannedJob>)
    requires InCalendar(run.date)
    ensures |jobs| == |sources|
    ensures forall k :: 0 <= k < |sources| ==> jobs[k] == JobFor(run, route, days, sources[k])
  {
    if sources == [] then []
    else JobsForSources(run, route, days, sources[..|sources| - 1]) + [JobFor(run, route, days, sources[|sources| - 1])]
  }

  function JobsForDays(run: RunKey, route: Route, days: seq<int>, sources: seq<string>): (jobs: seq<PlannedJob>)
    requires InCalendar(run.date)
  {
    if days == [] then []
    else JobsForDays(run, route, days[..|days| - 1], sources) + JobsForSources(run, route, days[|days| - 1], sources)
  }

  function Matrix(run: RunKey, routes: seq<Route>, sources: seq<string>): (jobs: seq<PlannedJob>)
    requires InCalendar(run.date)
  {
    if routes == [] then []
    else Matrix(run, routes[..|routes| - 1], sources) + JobsForDays(run, routes[|routes| - 1], WINDOW_DAYS, sources)
  }

  lemma SourcesStep(run: RunKey, route: Route, days: int, sources: seq<string>, k: nat)
    requires InCalendar(run.date) && k < |sources|
    ensures JobsForSources(run, route, days, sources[..k + 1])
         == JobsForSources(run, route, days, sources[..k]) + [JobFor(run, route, days, sources[k])]
  {
    assert sources[..k + 1][..k] == sources[..k];
  }

  lemma DaysStep(run: RunKey, route: Route, days: seq<int>, sources: seq<string>, d: nat)
    requires InCalendar(run.date) && d < |days|
    ensures JobsForDays(run, route, days[..d + 1], sources)
         == JobsForDays(run, route, days[..d], sources) + JobsForSources(run, route, days[d], sources)
  {
    assert days[..d + 1][..d] == days[..d];
  }

  lemma RoutesStep(run: RunKey, routes: seq<Route>, sources: seq<string>, r: nat)
    requires InCalendar(run.date) && r < |routes|
    ensures Matrix(run, routes[..r + 1], sources)
         == Matrix(run, routes[..r], sources) + JobsForDays(run, routes[r], WINDOW_DAYS, sources)
  {
    assert routes[..r + 1][..r] == routes[..r];
  }

  lemma EmptyPlans(run: RunKey, route: Route, days: int)
    requires InCalendar(run.date)
    ensures Matrix(run, [], []) == [] && JobsForDays(run, route, [], []) == []
            && JobsForSources(run, route, days, []) == []
    ensures forall sources: seq<string> :: Matrix(run, [], sources) == [] && JobsForDays(run, route, [], sources) == []
  {
  }

  /** The two inner loops of `plan_collection_run`, for one route. */
  method PlanRoute(run: RunKey, route: Route, sources: seq<string>) returns (jobs: seq<PlannedJob>)
    requires InCalendar(run.date)
    ensures jobs == JobsForDays(run, route, WINDOW_DAYS, sources)
  {
    hide *;
    jobs := [];
    EmptyPlans(run, route, 0);
    for d := 0 to |WINDOW_DAYS|
      invariant jobs == JobsForDays(run, route, WINDOW_DAYS[..d], sources)
    {
      ghost var before := jobs;
      EmptyPlans(run, route, WINDOW_DAYS[d]);
      for k := 0 to |sources|
        invariant jobs == before + JobsForSources(run, route, WINDOW_DAYS[d], sources[..k])
      {
        SourcesStep(run, route, WINDOW_DAYS[d], sources, k);
        jobs := jobs + [JobFor(run, route, WINDOW_DAYS[d], sources[k])];
      }
      assert sources[..|sources|] == sources;
      DaysStep(run, route, WINDOW_DAYS, sources, d);
    }
    assert WINDOW_DAYS[..|WINDOW_DAYS|] == WINDOW_DAYS;
  }

  /** The outer loop of `plan_collection_run`. */
  method PlanJobs(run: RunKey, routes: seq<Route>, sources: seq<string>) returns (jobs: seq<PlannedJob>)
    requires InCalendar(run.date)
    ensures jobs == Matrix(run, routes, sources)
  {
    jobs := [];
    for r := 0 to |routes|
      invariant jobs == Matrix(run, routes[..r], sources)
    {
      var block := PlanRoute(run, routes[r], sources);
      RoutesStep(run, routes, sources, r);
      jobs := jobs + block;
    }
    assert routes[..|routes|] == routes;
  }

  lemma {:induction false} DaysSize(run: RunKey, route: Route, days: seq<int>, sources: seq<string>)
    requires InCalendar(run.date)
    ensures |JobsForDays(run, route, days, sources)| == |days| * |sources|
  {
    if days != [] {
      DaysSize(run, route, days[..|days| - 1], sources);
      assert |days| * |sources| == (|days| - 1) * |sources| + |sources|;
    }
  }

  lemma OneMoreRoute(r: int, k: int)
    ensures r * 5 * k == (r - 1) * 5 * k + 5 * k
  {
  }

  /** `planned_jobs` is the number of jobs planned. */
  lemma {:induction false} MatrixSize(run: RunKey, routes: seq<Route>, sources: seq<string>)
    requires InCalendar(run.date)
    ensures |Matrix(run, routes, sources)| == |routes| * |WINDOW_DAYS| * |sources|
  {
    if routes != [] {
      MatrixSize(run, routes[..|routes| - 1], sources);
      DaysSize(run, routes[|routes| - 1], WINDOW_DAYS, sources);
      OneMoreRoute(|routes|, |sources|);
    }
  }

  function Cell(job: PlannedJob): (Route, int, string) {
    (job.route, job.days, job.source)
  }

  /** No cell occurs twice. */
  ghost predicate CellsDistinct(jobs: seq<PlannedJob>) {
    forall i, j :: 0 <= i < j < |jobs| ==> Cell(jobs[i]) != Cell(jobs[j])
  }

  lemma CellsAppend(a: seq<PlannedJob>, b: seq<PlannedJob>)
    requires CellsDistinct(a) && CellsDistinct(b)
    requires forall x, y :: x in a && y in b ==> Cell(x) != Cell(y)
    ensures CellsDistinct(a + b)
  {
  }

  lemma {:induction false} DaysCells(run: RunKey, route: Route, days: seq<int>, sources: seq<string>)
    requires InCalendar(run.date) && Distinct(days) && Distinct(sources)
    ensures CellsDistinct(JobsForDays(run, route, days, sources))
    ensures forall d, s :: d in days && s in sources ==>
              JobFor(run, route, d, s) in JobsForDays(run, route, days, sources)
    ensures forall x :: x in JobsForDays(run, route, days, sources) ==>
              x.route == route && x.days in days && x.source in sources && x == JobFor(run, route, x.days, x.source)
  {
    if days != [] {
      var head, day := days[..|days| - 1], days[|days| - 1];
      DaysCells(run, route, head, sources);
      var block := JobsForSources(run, route, day, sources);
      forall s | s in sources
        ensures JobFor(run, route, day, s) in block
      {
        var k :| 0 <= k < |sources| && sources[k] == s;
        assert block[k] == JobFor(run, route, day, s);
      }
      CellsAppend(JobsForDays(run, route, head, sources), block);
    }
  }

  /** Exactly one job per route, booking window and source. */
  lemma {:induction false} MatrixIsComplete(run: RunKey, routes: seq<Route>, sources: seq<string>)
    requires InCalendar(run.date) && Distinct(routes) && Distinct(sources)
    ensures CellsDistinct(Matrix(run, routes, sources))
    ensures forall x :: x in Matrix(run, routes, sources) <==>
              (x.route in routes && x.days in WINDOW_DAYS && x.source in sources
               && x == JobFor(run, x.route, x.days, x.source))
  {
    if routes != [] {
      var head, route := routes[..|routes| - 1], routes[|routes| - 1];
      MatrixIsComplete(run, head, sources);
      DaysCells(run, route, WINDOW_DAYS, sources);
      CellsAppend(Matrix(run, head, sources), JobsForDays(run, route, WINDOW_DAYS, sources));
    }
  }

  lemma DifferentCellsDifferentKeys(run: RunKey, x: PlannedJob, y: PlannedJob)
    requires InCalendar(run.date) && PlainRoute(x.route) && PlainRoute(y.route)
    requires x == JobFor(run, x.route, x.days, x.source) && y == JobFor(run, y.route, y.days, y.source)
    requires x.days in WINDOW_DAYS && y.days in WINDOW_DAYS
    requires Cell(x) != Cell(y)
    ensures x.key != y.key
  {
    hide IdempotencyKey, PlainRoute;
    if x.key == y.key {
      KeyInjective(run, run, x.source, y.source, x.route, y.route, ClassifyWindow(x.days), ClassifyWindow(y.days));
    }
  }

  /** Within a run no two planned jobs share an idempotency key. */
  lemma PlannedKeysDistinct(run: RunKey, routes: seq<Route>, sources: seq<string>, i: nat, j: nat)
    requires InCalendar(run.date) && Distinct(routes) && Distinct(sources)
    requires forall r :: r in routes ==> PlainRoute(r)
    requires i < j < |Matrix(run, routes, sources)|
    ensures Matrix(run, routes, sources)[i].key != Matrix(run, routes, sources)[j].key
  {
    MatrixIsComplete(run, routes, sources);
    var jobs := Matrix(run, routes, sources);
    hide JobFor, PlainRoute, Matrix;
    assert jobs[i] in jobs && jobs[j] in jobs;
    DifferentCellsDifferentKeys(run, jobs[i], jobs[j]);
  }

  function Decimal(n: int): string
    requires 0 <= n < 100
  {
    if n < 10 then [Digit(n)] else TwoDigits(n)
  }

  /** Each scheduled lead time has the window that bears its number, and no other lead time has one. */
  lemma WindowsBearTheirDays(days: int)
    ensures days in WINDOW_DAYS <==> ClassifyWindow(days) != OTHER
    ensures days in WINDOW_DAYS ==> 0 <= days < 100 && WindowText(ClassifyWindow(days)) == "T" + Decimal(days)
  {
    assert WINDOW_DAYS[0] == 1 && WINDOW_DAYS[1] == 7 && WINDOW_DAYS[2] == 15 && WINDOW_DAYS[3] == 30
           && WINDOW_DAYS[4] == 45;
  }
}
