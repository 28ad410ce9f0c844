/** `plan_collection_run` on the table of collection runs. */
module PlanService {
  import opened Aggregates
  import opened Domain
  import opened Planner

  datatype PlannedRun = PlannedRun(planned: nat, jobs: seq<PlannedJob>)

  type Runs = map<RunKey, PlannedRun>

  /** A run to plan, with the active routes and enabled sources of the moment. */
  datatype Request = Request(key: RunKey, routes: seq<Route>, sources: seq<string>)

  predicate ValidRequest(q: Request) {
    && InCalendar(q.key.date) && Distinct(q.routes) && Distinct(q.sources)
    && forall r :: r in q.routes ==> PlainRoute(r)
  }

  /** One job for every route, window and source. */
  function Size(q: Request): nat {
    |q.routes| * |WINDOW_DAYS| * |q.sources|
  }

  /** An existing run of the same class, trigger and date is reused as it stands. */
  function Planned(runs: Runs, q: Request): Runs
    requires InCalendar(q.key.date)
  {
    if q.key in runs then runs
    else
      runs[q.key := PlannedRun(Size(q), Matrix(q.key, q.routes, q.sources))]
  }

  /** The table after a sequence of plans. */
  function PlanAll(runs: Runs, requests: seq<Request>): Runs
    requires forall i :: 0 <= i < |requests| ==> ValidRequest(requests[i])
  {
    if requests == [] then runs
    else
      assert ValidRequest(requests[|requests| - 1]);
      Planned(PlanAll(runs, requests[..|requests| - 1]), requests[|requests| - 1])
  }

  ghost predicate JobOk(key: RunKey, x: PlannedJob)
    requires InCalendar(key.date)
  {
    x.days in WINDOW_DAYS && PlainRoute(x.route) && x == JobFor(key, x.route, x.days, x.source)
  }

  ghost predicate RunOk(key: RunKey, run: PlannedRun) {
    && InCalendar(key.date) && run.planned == |run.jobs| && CellsDistinct(run.jobs)
    && forall i :: 0 <= i < |run.jobs| ==> JobOk(key, run.jobs[i])
  }

  ghost predicate RunsOk(runs: Runs) {
    forall key :: key in runs ==> RunOk(key, runs[key])
  }

  lemma PlannedOk(runs: Runs, q: Request)
    requires RunsOk(runs) && ValidRequest(q)
    ensures RunsOk(Planned(runs, q))
  {
    if q.key !in runs {
      var jobs := Matrix(q.key, q.routes, q.sources);
      MatrixSize(q.key, q.routes, q.sources);
      MatrixIsComplete(q.key, q.routes, q.sources);
      hide Matrix, JobFor, PlainRoute, CellsDistinct;
      forall i | 0 <= i < |jobs|
        ensures JobOk(q.key, jobs[i])
      {
        assert jobs[i] in jobs;
      }
    }
    hide RunOk;
  }

  /** The run has exactly one job for every route, booking window and source of the request. */
  ghost predicate Covers(run: PlannedRun, q: Request)
    requires InCalendar(q.key.date)
  {
    && run.planned == |run.jobs| == Size(q) && CellsDistinct(run.jobs)
    && forall x :: x in run.jobs <==>
         x.route in q.routes && x.days in WINDOW_DAYS && x.source in q.sources
         && x == JobFor(q.key, x.route, x.days, x.source)
  }

  /** No run had the key of request `i` before it. */
  ghost predicate First(runs: Runs, requests: seq<Request>, i: nat)
    requires i < |requests|
  {
    requests[i].key !in runs && forall h :: 0 <= h < i ==> requests[h].key != requests[i].key
  }

  lemma PlannedCovers(runs: Runs, q: Request)
    requires ValidRequest(q) && q.key !in runs
    ensures q.key in Planned(runs, q) && Covers(Planned(runs, q)[q.key], q)
  {
    MatrixSize(q.key, q.routes, q.sources);
    MatrixIsComplete(q.key, q.routes, q.sources);
    hide Matrix, JobFor, CellsDistinct;
  }

  lemma {:induction false} KeysRequested(runs: Runs, requests: seq<Request>, key: RunKey)
    requires forall i :: 0 <= i < |requests| ==> ValidRequest(requests[i])
    requires key !in runs && forall i :: 0 <= i < |requests| ==> requests[i].key != key
    ensures key !in PlanAll(runs, requests)
  {
    if requests != [] {
      assert ValidRequest(requests[|requests| - 1]);
      KeysRequested(runs, requests[..|requests| - 1], key);
    }
    hide ValidRequest, Matrix;
  }

  /** After any sequence of plans every run has as many jobs as it says, no cell twice, and a run once
      planned is never planned again. */
  lemma {:induction false} PlansKept(runs: Runs, requests: seq<Request>)
    requires RunsOk(runs) && forall i :: 0 <= i < |requests| ==> ValidRequest(requests[i])
    ensures RunsOk(PlanAll(runs, requests))
    ensures forall key :: key in runs ==> key in PlanAll(runs, requests) && PlanAll(runs, requests)[key] == runs[key]
  {
    hide RunsOk, Matrix;
    if requests != [] {
      PlansKept(runs, requests[..|requests| - 1]);
      PlannedOk(PlanAll(runs, requests[..|requests| - 1]), requests[|requests| - 1]);
    }
  }

  lemma PlannedKeeps(runs: Runs, q: Request, key: RunKey)
    requires InCalendar(q.key.date) && key in runs
    ensures key in Planned(runs, q) && Planned(runs, q)[key] == runs[key]
  {
    hide Matrix;
  }

  lemma PlanAllStep(runs: Runs, requests: seq<Request>)
    requires requests != [] && forall i :: 0 <= i < |requests| ==> ValidRequest(requests[i])
    ensures var n := |requests| - 1;
            && ValidRequest(requests[n]) && InCalendar(requests[n].key.date)
            && (forall i :: 0 <= i < |requests[..n]| ==> ValidRequest(requests[..n][i]))
            && PlanAll(runs, requests) == Planned(PlanAll(runs, requests[..n]), requests[n])
  {
    assert ValidRequest(requests[|requests| - 1]);
    hide Matrix, Planned;
  }

  lemma FirstInHead(runs: Runs, requests: seq<Request>, i: nat)
    requires i < |requests| - 1 && First(runs, requests, i)
    ensures var head := requests[..|requests| - 1]; head[i] == requests[i] && First(runs, head, i)
  {
  }

  /** The first request for a class, trigger and date decides what its run consists of, whatever is
      planned later: one job for every route, window and source. */
  lemma {:induction false} FirstRequestCovered(runs: Runs, requests: seq<Request>, i: nat)
    requires forall k :: 0 <= k < |requests| ==> ValidRequest(requests[k])
    requires i < |requests| && First(runs, requests, i)
    ensures var q := requests[i];
            && InCalendar(q.key.date) && q.key in PlanAll(runs, requests) && Covers(PlanAll(runs, requests)[q.key], q)
    decreases |requests|
  {
    var n := |requests| - 1;
    PlanAllStep(runs, requests);
    if i < n {
      FirstInHead(runs, requests, i);
      FirstRequestCovered(runs, requests[..n], i);
      PlannedKeeps(PlanAll(runs, requests[..n]), requests[n], requests[i].key);
    } else {
      KeysRequested(runs, requests[..n], requests[n].key);
      PlannedCovers(PlanAll(runs, requests[..n]), requests[n]);
    }
    hide PlanAll, Planned, Covers, ValidRequest;
  }

  lemma WindowFixesDays(d: int, e: int)
    requires d in WINDOW_DAYS && e in WINDOW_DAYS && ClassifyWindow(d) == ClassifyWindow(e)
    ensures d == e
  {
  }

  /** No two jobs in the whole table share an idempotency key: its unique constraint never fails. */
  lemma KeysUnique(runs: Runs, a: RunKey, b: RunKey, i: nat, j: nat)
    requires RunsOk(runs) && a in runs && b in runs && i < |runs[a].jobs| && j < |runs[b].jobs|
    ensures runs[a].jobs[i].key == runs[b].jobs[j].key <==> a == b && i == j
  {
    var x, y := runs[a].jobs[i], runs[b].jobs[j];
    assert RunOk(a, runs[a]) && RunOk(b, runs[b]);
    assert JobOk(a, x) && JobOk(b, y);
    if x.key == y.key {
      KeyInjective(a, b, x.source, y.source, x.route, y.route, ClassifyWindow(x.days), ClassifyWindow(y.days));
      WindowFixesDays(x.days, y.days);
      assert Cell(x) == Cell(y);
    }
    hide IdempotencyKey, PlainRoute, ClassifyWindow;
  }

  lemma PlannedCases(runs: Runs, q: Request)
    requires ValidRequest(q)
    ensures InCalendar(q.key.date)
    ensures Planned(runs, q) ==
            if q.key in runs then runs
            else
              runs[q.key := PlannedRun(Size(q), Matrix(q.key, q.routes, q.sources))]
  {
    hide Matrix, Size;
  }

  class RunTable {
    var runs: Runs

    constructor ()
      ensures runs == map[] && RunsOk(runs)
    {
      runs := map[];
    }

    /** `plan_collection_run`: whether the run was created. */
    method PlanCollectionRun(q: Request) returns (created: bool)
      requires RunsOk(runs) && ValidRequest(q)
      modifies this
      ensures RunsOk(runs) && runs == Planned(old(runs), q)
      ensures created <==> q.key !in old(runs)
      ensures q.key in runs
    {
      PlannedOk(runs, q);
      PlannedCases(runs, q);
      hide *;
      if q.key in runs {
        return false;
      }
      var planned := Size(q);
      var jobs := PlanJobs(q.key, q.routes, q.sources);
      runs := runs[q.key := PlannedRun(planned, jobs)];
      created := true;
    }
  }
}
