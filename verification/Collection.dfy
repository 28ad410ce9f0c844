/** The life of a collection run (`services/collection.py`, `run_sources`). */
module Collection {
  import opened Options
  import opened Domain
  import opened Worker

  /** A run with its jobs and evidence; `fares` counts its canonical fares. */
  datatype Run = Run(
    status: RunStatus,
    planned: nat,
    successful: nat,
    failed: nat,
    valid: nat,
    fares: nat,
    work: Database)

  /** Everything outside the run: each adapter answer, and what outlier flagging and canonicalisation
      make of the observations and of the canonical fares there are already. */
  datatype Environment = Environment(
    adapter: (nat, nat) -> AdapterOutcome,
    curate: (seq<Observation>, nat) -> (seq<Observation>, nat))

  /** The same quotes, in the same order. */
  predicate SameQuotes(before: seq<Observation>, later: seq<Observation>) {
    |later| == |before| && forall i :: 0 <= i < |before| ==> later[i].raw == before[i].raw
  }

  /** Curation may change which observations are included, never which quotes they belong to. */
  ghost predicate Honest(env: Environment) {
    forall o, n :: SameQuotes(o, env.curate(o, n).0)
  }

  predicate Over(status: RunStatus) {
    status == COMPLETED || status == PARTIAL || status == ABORTED
  }

  predicate Open(status: JobStatus) {
    status == PLANNED || status == RUNNING
  }

  function CountStatus(jobs: seq<Job>, status: JobStatus): nat {
    if jobs == [] then 0
    else (if jobs[|jobs| - 1].status == status then 1 else 0) + CountStatus(jobs[..|jobs| - 1], status)
  }

  function CountIncluded(observations: seq<Observation>): nat {
    if observations == [] then 0
    else (if observations[|observations| - 1].included then 1 else 0)
         + CountIncluded(observations[..|observations| - 1])
  }

  // ---------------------------------------------------------------------------------------------
  // The committed states of one call

  function Lift(run: Run, events: seq<Event>): seq<Run> {
    if events == [] then []
    else
      var rest := Lift(run, events[..|events| - 1]);
      if events[|events| - 1].Committed? then rest + [run.(work := events[|events| - 1].state)] else rest
  }

  function JobEvents(work: Database, j: nat, s: Settings, env: Environment): seq<Event> {
    if j < |work.jobs| then Execute(work, j, s, (n: nat) => env.adapter(j, n)) else []
  }

  /** The jobs a call has to execute: those PLANNED or RUNNING when it begins. */
  function OpenJobs(jobs: seq<Job>): (open: seq<nat>)
    ensures forall j: nat :: j in open <==> j < |jobs| && Open(jobs[j].status)
    ensures forall a :: 0 <= a < |open| ==> open[a] < |jobs|
    ensures forall a, b :: 0 <= a < b < |open| ==> open[a] < open[b]
  {
    if jobs == [] then []
    else
      var rest := OpenJobs(jobs[..|jobs| - 1]);
      assert forall a :: 0 <= a < |rest| ==> rest[a] in rest;
      if Open(jobs[|jobs| - 1].status) then rest + [|jobs| - 1] else rest
  }

  function JobCommits(run: Run, open: seq<nat>, s: Settings, env: Environment): seq<Run>
    decreases |open|
  {
    if open == [] then []
    else
      var events := JobEvents(run.work, open[0], s, env);
      Lift(run, events) + JobCommits(run.(work := Durable(run.work, events)), open[1..], s, env)
  }

  function AfterJobs(run: Run, open: seq<nat>, s: Settings, env: Environment): Run
    decreases |open|
  {
    if open == [] then run
    else AfterJobs(run.(work := Durable(run.work, JobEvents(run.work, open[0], s, env))), open[1..], s, env)
  }

  function Curated(run: Run, env: Environment): Run {
    var (observations, fares) := env.curate(run.work.observations, run.fares);
    run.(work := run.work.(observations := observations), fares := if run.fares > 0 then run.fares else fares)
  }

  function Finished(run: Run): Run {
    var successful, failed := CountStatus(run.work.jobs, SUCCEEDED), CountStatus(run.work.jobs, FAILED);
    run.(successful := successful,
         failed := failed,
         valid := CountIncluded(run.work.observations),
         status := if failed == 0 then COMPLETED else if successful == 0 then ABORTED else PARTIAL)
  }

  /** Canonicalisation commits only when the run has no canonical fares yet. */
  function Call(run: Run, s: Settings, env: Environment): seq<Run> {
    if Over(run.status) then []
    else
      var active := run.(status := ACTIVE);
      var open := OpenJobs(run.work.jobs);
      var done := AfterJobs(active, open, s, env);
      [active] + JobCommits(active, open, s, env)
      + (if done.fares > 0 then [] else [Curated(done, env)])
      + [Finished(Curated(done, env))]
  }

  function Returned(run: Run, s: Settings, env: Environment): Run {
    if Over(run.status) then run
    else Finished(Curated(AfterJobs(run.(status := ACTIVE), OpenJobs(run.work.jobs), s, env), env))
  }

  // ---------------------------------------------------------------------------------------------
  // What every committed state satisfies

  ghost function JobsWith(jobs: seq<Job>, status: JobStatus): set<nat> {
    set j: nat | j < |jobs| && jobs[j].status == status
  }

  ghost function IncludedRows(observations: seq<Observation>): set<nat> {
    set k: nat | k < |observations| && observations[k].included
  }

  /** The counters are the numbers of jobs with each status and of included observations, every planned job is
      counted, and the status says which of the two kinds there are. */
  ghost predicate Accounted(run: Run) {
    && run.successful == |JobsWith(run.work.jobs, SUCCEEDED)|
    && run.failed == |JobsWith(run.work.jobs, FAILED)|
    && run.valid == |IncludedRows(run.work.observations)|
    && run.successful + run.failed == run.planned
    && run.status == (if run.failed == 0 then COMPLETED else if run.successful == 0 then ABORTED else PARTIAL)
  }

  ghost predicate AllTerminal(run: Run) {
    forall j :: 0 <= j < |run.work.jobs| ==> Terminal(run.work.jobs[j].status)
  }

  ghost predicate RunInv(run: Run, s: Settings) {
    && |run.work.jobs| == run.planned
    && Evidence(run.work)
    && (forall j :: 0 <= j < run.planned ==> run.work.jobs[j].status != SKIPPED)
    && (forall j :: 0 <= j < run.planned ==> run.work.jobs[j].attempts <= MaxAttempts(s))
    && (Over(run.status) ==> Accounted(run) && AllTerminal(run))
  }

  ghost predicate AllInv(runs: seq<Run>, s: Settings) {
    forall i :: 0 <= i < |runs| ==> RunInv(runs[i], s)
  }

  /** A run fresh from the planner. */
  lemma PlannedRunInv(run: Run, s: Settings)
    requires run.status == PENDING && run.planned == |run.work.jobs| && run.work.raws == []
             && run.work.observations == []
    requires forall j :: 0 <= j < |run.work.jobs| ==>
               run.work.jobs[j].status == PLANNED && run.work.jobs[j].attempts == 0
    ensures RunInv(run, s)
  {
  }

  lemma KeepsRunInv(run: Run, later: Database, j: nat, s: Settings)
    requires RunInv(run, s) && !Over(run.status) && Keeps(run.work, later, j, s)
    ensures RunInv(run.(work := later), s)
  {
    hide Evidence;
    forall k | 0 <= k < run.planned
      ensures later.jobs[k].status != SKIPPED && later.jobs[k].attempts <= MaxAttempts(s)
    {
      assert k != j ==> later.jobs[k] == run.work.jobs[k];
    }
  }

  lemma {:induction false} LiftInv(run: Run, events: seq<Event>, j: nat, s: Settings)
    requires RunInv(run, s) && !Over(run.status) && AllKeep(run.work, events, j, s)
    ensures AllInv(Lift(run, events), s)
    decreases |events|
  {
    hide Keeps, RunInv;
    if events != [] {
      var head, last := events[..|events| - 1], events[|events| - 1];
      LiftInv(run, head, j, s);
      if last.Committed? {
        assert Keeps(run.work, events[|events| - 1].state, j, s);
        KeepsRunInv(run, last.state, j, s);
      }
    }
  }

  /** Everything one job's execution establishes about the run. */
  lemma OneJob(run: Run, j: nat, s: Settings, env: Environment)
    requires RunInv(run, s) && !Over(run.status) && j < |run.work.jobs|
    ensures var events := JobEvents(run.work, j, s, env);
            var next := run.(work := Durable(run.work, events));
            && AllInv(Lift(run, events), s) && RunInv(next, s)
            && |next.work.jobs| == |run.work.jobs|
            && Terminal(next.work.jobs[j].status)
            && forall k :: 0 <= k < |run.work.jobs| && k != j ==> next.work.jobs[k] == run.work.jobs[k]
  {
    var adapter := (n: nat) => env.adapter(j, n);
    ExecuteKeeps(run.work, j, s, adapter);
    ExecuteEnds(run.work, j, s, adapter);
    var events := Execute(run.work, j, s, adapter);
    CrashKeeps(run.work, events, j, s);
    LiftInv(run, events, j, s);
    KeepsRunInv(run, Durable(run.work, events), j, s);
    hide Execute, RunInv, Evidence, Lift, Durable, AllKeep, AllInv;
  }

  lemma {:induction false} JobsInv(run: Run, open: seq<nat>, s: Settings, env: Environment)
    requires RunInv(run, s) && !Over(run.status)
    requires forall k :: 0 <= k < |open| ==> open[k] < |run.work.jobs|
    requires forall j: nat :: j < |run.work.jobs| ==> Terminal(run.work.jobs[j].status) || j in open
    ensures AllInv(JobCommits(run, open, s, env), s)
    ensures var done := AfterJobs(run, open, s, env);
            && RunInv(done, s) && AllTerminal(done) && done == run.(work := done.work)
    decreases |open|
  {
    if open != [] {
      var events := JobEvents(run.work, open[0], s, env);
      var next := run.(work := Durable(run.work, events));
      OneJob(run, open[0], s, env);
      forall j: nat | j < |next.work.jobs|
        ensures Terminal(next.work.jobs[j].status) || j in open[1..]
      {
        assert j in open ==> j == open[0] || j in open[1..];
      }
      JobsInv(next, open[1..], s, env);
      AllInvAppend(Lift(run, events), JobCommits(next, open[1..], s, env), s);
    }
    hide RunInv, AllInv, Durable, JobEvents, Lift;
  }

  lemma AllInvAppend(a: seq<Run>, b: seq<Run>, s: Settings)
    requires AllInv(a, s) && AllInv(b, s)
    ensures AllInv(a + b, s)
  {
    hide RunInv;
  }

  lemma {:induction false} TerminalCount(jobs: seq<Job>)
    requires forall j :: 0 <= j < |jobs| ==> Terminal(jobs[j].status)
    ensures CountStatus(jobs, SUCCEEDED) + CountStatus(jobs, FAILED) == |jobs|
  {
    if jobs != [] {
      TerminalCount(jobs[..|jobs| - 1]);
    }
  }

  lemma {:induction false} StatusCounted(jobs: seq<Job>, status: JobStatus)
    ensures CountStatus(jobs, status) == |JobsWith(jobs, status)|
  {
    if jobs != [] {
      var n := |jobs| - 1;
      StatusCounted(jobs[..n], status);
      assert JobsWith(jobs, status) == JobsWith(jobs[..n], status) + (if jobs[n].status == status then {n} else {});
    }
  }

  lemma {:induction false} IncludedCounted(observations: seq<Observation>)
    ensures CountIncluded(observations) == |IncludedRows(observations)|
  {
    if observations != [] {
      var n := |observations| - 1;
      IncludedCounted(observations[..n]);
      assert IncludedRows(observations)
               == IncludedRows(observations[..n]) + (if observations[n].included then {n} else {});
    }
  }

  lemma CuratedKeepsInv(run: Run, s: Settings, env: Environment)
    requires RunInv(run, s) && !Over(run.status) && Honest(env)
    ensures RunInv(Curated(run, env), s)
    ensures Curated(run, env).work.jobs == run.work.jobs && Curated(run, env).planned == run.planned
  {
    var before, after := run.work.observations, Curated(run, env).work.observations;
    assert SameQuotes(before, after);
    forall i: nat | i < |run.work.raws|
      ensures HasObservation(after, i)
    {
      assert HasObservation(before, i);
      var k :| 0 <= k < |before| && before[k].raw == i;
      assert after[k].raw == i;
    }
  }

  lemma FinishedInv(run: Run, s: Settings)
    requires RunInv(run, s) && AllTerminal(run)
    ensures RunInv(Finished(run), s) && Over(Finished(run).status)
    ensures Accounted(Finished(run)) && AllTerminal(Finished(run))
  {
    hide Evidence, JobsWith, IncludedRows;
    TerminalCount(run.work.jobs);
    StatusCounted(run.work.jobs, SUCCEEDED);
    StatusCounted(run.work.jobs, FAILED);
    IncludedCounted(run.work.observations);
  }

  /** Every state a call commits, and the state it returns, satisfies the run invariant. */
  lemma CallInv(run: Run, s: Settings, env: Environment)
    requires RunInv(run, s) && Honest(env)
    ensures AllInv(Call(run, s, env), s)
    ensures RunInv(Returned(run, s, env), s) && Over(Returned(run, s, env).status)
  {
    if !Over(run.status) {
      var active := run.(status := ACTIVE);
      assert RunInv(active, s);
      var open := OpenJobs(run.work.jobs);
      forall j: nat | j < |run.work.jobs|
        ensures Terminal(run.work.jobs[j].status) || j in open
      {
      }
      JobsInv(active, open, s, env);
      var done := AfterJobs(active, open, s, env);
      CuratedKeepsInv(done, s, env);
      var curated := Curated(done, env);
      assert AllTerminal(curated);
      FinishedInv(curated, s);
      hide RunInv, JobCommits, AfterJobs, Curated, Finished, Honest;
      assert AllInv([active], s);
      AllInvAppend([active], JobCommits(active, open, s, env), s);
      var tail := if done.fares > 0 then [] else [curated];
      assert AllInv(tail, s);
      AllInvAppend([active] + JobCommits(active, open, s, env), tail, s);
      AllInvAppend([active] + JobCommits(active, open, s, env) + tail, [Finished(curated)], s);
    }
  }

  /** A call killed after some of its commits. */
  datatype Interruption = Interruption(env: Environment, cut: nat)

  function AfterCrash(run: Run, s: Settings, crash: Interruption): Run {
    var commits := Call(run, s, crash.env);
    if crash.cut == 0 || commits == [] then run
    else if crash.cut <= |commits| then commits[crash.cut - 1]
    else commits[|commits| - 1]
  }

  function AfterCrashes(run: Run, s: Settings, crashes: seq<Interruption>): Run
    decreases |crashes|
  {
    if crashes == [] then run else AfterCrashes(AfterCrash(run, s, crashes[0]), s, crashes[1..])
  }

  /** Conservation and resume: after any number of interruptions, the next call that returns leaves
      every planned job SUCCEEDED or FAILED, counted in the run, and its status says so. */
  lemma {:induction false} ResumeConserves(run: Run, s: Settings, crashes: seq<Interruption>, env: Environment)
    requires RunInv(run, s) && Honest(env) && forall c :: c in crashes ==> Honest(c.env)
    ensures var end := Returned(AfterCrashes(run, s, crashes), s, env);
            && AllTerminal(end) && Accounted(end) && end.planned == |end.work.jobs|
            && Evidence(end.work)
    decreases |crashes|
  {
    hide Honest;
    if crashes == [] {
      CallInv(run, s, env);
    } else {
      assert crashes[0] in crashes;
      CallInv(run, s, crashes[0].env);
      ResumeConserves(AfterCrash(run, s, crashes[0]), s, crashes[1..], env);
    }
  }

  ghost predicate AllPlan(runs: seq<Run>, planned: nat) {
    forall i :: 0 <= i < |runs| ==> runs[i].planned == planned
  }

  lemma {:induction false} LiftPlan(run: Run, events: seq<Event>)
    ensures AllPlan(Lift(run, events), run.planned)
  {
    if events != [] {
      LiftPlan(run, events[..|events| - 1]);
    }
  }

  lemma {:induction false} JobsPlan(run: Run, open: seq<nat>, s: Settings, env: Environment)
    ensures AllPlan(JobCommits(run, open, s, env), run.planned)
    ensures AfterJobs(run, open, s, env).planned == run.planned
    decreases |open|
  {
    if open != [] {
      var events := JobEvents(run.work, open[0], s, env);
      LiftPlan(run, events);
      JobsPlan(run.(work := Durable(run.work, events)), open[1..], s, env);
    }
    hide JobEvents, Lift, Durable;
  }

  lemma CallPlan(run: Run, s: Settings, env: Environment)
    ensures AllPlan(Call(run, s, env), run.planned) && Returned(run, s, env).planned == run.planned
  {
    JobsPlan(run.(status := ACTIVE), OpenJobs(run.work.jobs), s, env);
    hide JobCommits, AfterJobs, OpenJobs, CountStatus, CountIncluded;
  }

  /** No call, killed or not, changes how many jobs the run was planned with. */
  lemma {:induction false} PlanStays(run: Run, s: Settings, crashes: seq<Interruption>, env: Environment)
    ensures Returned(AfterCrashes(run, s, crashes), s, env).planned == run.planned
    decreases |crashes|
  {
    if crashes == [] {
      CallPlan(run, s, env);
    } else {
      CallPlan(run, s, crashes[0].env);
      PlanStays(AfterCrash(run, s, crashes[0]), s, crashes[1..], env);
    }
    hide Call, Returned;
  }

  /** A run that is over is never executed again: a call commits nothing and returns it as it is. */
  lemma OverIsFinal(run: Run, s: Settings, env: Environment)
    requires RunInv(run, s) && Honest(env)
    ensures var end := Returned(run, s, env);
            Call(end, s, env) == [] && Returned(end, s, env) == end
  {
    CallInv(run, s, env);
  }
}
