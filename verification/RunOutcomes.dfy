/** How every job of a collection run ends (`services/collection.py`), said of what the adapter answered it: the
    jobs of a run do not disturb each other. */
module RunOutcomes {
  import opened Options
  import opened Domain
  import opened Worker
  import opened Collection
  import opened JobOutcomes

  /** What one job comes to, `raws` being the quotes held before. */
  ghost predicate JobEnds(raws: seq<RawQuote>, before: Job, after: Job, j: nat, s: Settings,
                          adapter: nat -> AdapterOutcome) {
    if !before.linked then after == before.(status := FAILED, failure := Some(INVALID_RESPONSE))
    else if before.attempts > s.maxRetries then after == before.(status := FAILED, failure := Some(UNKNOWN_ERROR))
    else
      && before.attempts < after.attempts <= s.maxRetries + 1
      && (forall n: nat :: before.attempts < n < after.attempts ==> FailsInPassing(raws, j, adapter(n)))
      && Decides(raws, after, j, s, adapter(after.attempts))
  }

  /** The last answer decides. */
  ghost predicate Decides(raws: seq<RawQuote>, after: Job, j: nat, s: Settings, answer: AdapterOutcome) {
    if Succeeds(raws, j, answer) then
      after.status == SUCCEEDED && after.failure == (if answer.quotes == [] then Some(NO_RESULTS) else None)
    else
      && after.status == FAILED && after.failure.Some? && FailsWith(raws, j, answer, after.failure.value)
      && (Passing(after.failure.value) ==> after.attempts == s.maxRetries + 1)
  }

  lemma EndedJob(before: Database, later: Database, j: nat, s: Settings, adapter: nat -> AdapterOutcome)
    requires Ended(before, later, j, s, adapter)
    ensures j < |before.jobs| && |later.jobs| == |before.jobs|
    ensures JobEnds(before.raws, before.jobs[j], later.jobs[j], j, s, adapter)
  {
    hide Succeeds, FailsWith, FailsInPassing, Holds, FailureKeeps, Passing;
  }

  // ---------------------------------------------------------------------------------------------
  // Only a job's own quotes matter to it

  /** The two hold the same quotes of job `j`. */
  ghost predicate SameOwn(a: seq<RawQuote>, b: seq<RawQuote>, j: nat) {
    forall r: RawQuote :: r.job == j ==> (r in a <==> r in b)
  }

  lemma SameAcceptable(a: seq<RawQuote>, b: seq<RawQuote>, j: nat, quotes: seq<Quote>, i: nat)
    requires SameOwn(a, b, j) && i < |quotes|
    ensures Acceptable(a, j, quotes, i) <==> Acceptable(b, j, quotes, i)
  {
  }

  lemma SameUpTo(a: seq<RawQuote>, b: seq<RawQuote>, j: nat, quotes: seq<Quote>, n: nat)
    requires SameOwn(a, b, j) && AcceptableUpTo(a, j, quotes, n)
    ensures AcceptableUpTo(b, j, quotes, n)
  {
    hide Acceptable, SameOwn;
    forall i: nat | i < n
      ensures i < |quotes| && Acceptable(b, j, quotes, i)
    {
      assert Acceptable(a, j, quotes, i);
      SameAcceptable(a, b, j, quotes, i);
    }
  }

  lemma SameStop(a: seq<RawQuote>, b: seq<RawQuote>, j: nat, quotes: seq<Quote>, i: nat)
    requires SameOwn(a, b, j) && StopsAt(a, j, quotes, i)
    ensures StopsAt(b, j, quotes, i)
  {
    hide Acceptable, AcceptableUpTo, SameOwn;
    SameAcceptable(a, b, j, quotes, i);
    SameUpTo(a, b, j, quotes, i);
  }

  lemma SameFailure(a: seq<RawQuote>, b: seq<RawQuote>, j: nat, answer: AdapterOutcome, code: FailureCode)
    requires SameOwn(a, b, j) && FailsWith(a, j, answer, code)
    ensures FailsWith(b, j, answer, code)
  {
    hide SameOwn, Acceptable, StopCode;
    if answer.Quotes? {
      var i: nat :| StopsAt(a, j, answer.quotes, i) && code == StopCode(answer.quotes[i]);
      SameStop(a, b, j, answer.quotes, i);
    }
  }

  lemma SameSuccess(a: seq<RawQuote>, b: seq<RawQuote>, j: nat, answer: AdapterOutcome)
    requires SameOwn(a, b, j)
    ensures Succeeds(a, j, answer) <==> Succeeds(b, j, answer)
  {
    hide AcceptableUpTo;
    SameOwnFlips(a, b, j);
    hide SameOwn;
    if answer.Quotes? {
      if AcceptableUpTo(a, j, answer.quotes, |answer.quotes|) {
        SameUpTo(a, b, j, answer.quotes, |answer.quotes|);
      }
      if AcceptableUpTo(b, j, answer.quotes, |answer.quotes|) {
        SameUpTo(b, a, j, answer.quotes, |answer.quotes|);
      }
    }
  }

  lemma SameOwnFlips(a: seq<RawQuote>, b: seq<RawQuote>, j: nat)
    requires SameOwn(a, b, j)
    ensures SameOwn(b, a, j)
  {
  }

  lemma SamePassing(a: seq<RawQuote>, b: seq<RawQuote>, j: nat, answer: AdapterOutcome)
    requires SameOwn(a, b, j) && FailsInPassing(a, j, answer)
    ensures FailsInPassing(b, j, answer)
  {
    hide SameOwn, FailsWith, Passing;
    var code :| FailsWith(a, j, answer, code) && Passing(code);
    SameFailure(a, b, j, answer, code);
  }

  lemma SameDecision(a: seq<RawQuote>, b: seq<RawQuote>, after: Job, j: nat, s: Settings, answer: AdapterOutcome)
    requires SameOwn(a, b, j) && Decides(a, after, j, s, answer)
    ensures Decides(b, after, j, s, answer)
  {
    SameSuccess(a, b, j, answer);
    if !Succeeds(a, j, answer) {
      SameFailure(a, b, j, answer, after.failure.value);
    }
    hide SameOwn, Succeeds, FailsWith, Passing;
  }

  lemma SameEnd(a: seq<RawQuote>, b: seq<RawQuote>, before: Job, after: Job, j: nat, s: Settings,
                adapter: nat -> AdapterOutcome)
    requires SameOwn(a, b, j) && JobEnds(a, before, after, j, s, adapter)
    ensures JobEnds(b, before, after, j, s, adapter)
  {
    hide SameOwn, Decides, FailsInPassing;
    if before.linked && before.attempts <= s.maxRetries {
      SameDecision(a, b, after, j, s, adapter(after.attempts));
      forall n: nat | before.attempts < n < after.attempts
        ensures FailsInPassing(b, j, adapter(n))
      {
        SamePassing(a, b, j, adapter(n));
      }
    }
  }

  // ---------------------------------------------------------------------------------------------
  // A job adds no other job's quotes

  lemma HoldsOwn(before: Database, later: Database, j: nat, quotes: seq<Quote>, other: nat)
    requires Holds(before, later, j, quotes) && other != j
    ensures SameOwn(before.raws, later.raws, other)
  {
    hide Evidence, ObservedAs, Repeated;
  }

  lemma AnswerLeavesOthers(before: Database, later: Database, j: nat, s: Settings, answer: AdapterOutcome, other: nat)
    requires j < |later.jobs| && EndsWith(before, later, j, s, answer) && other != j
    ensures SameOwn(before.raws, later.raws, other)
  {
    hide AllAcceptable, FailsWith, Passing, Holds, SameOwn, Rejects;
    if Succeeds(before.raws, j, answer) {
      HoldsOwn(before, later, j, answer.quotes, other);
    } else if i: nat :| Rejects(before.raws, j, answer, i) {
      RejectedPrefix(before.raws, j, answer, i);
      HoldsOwn(before, later, j, answer.quotes[..i + 1], other);
    } else {
      SameQuotesOwn(before.raws, later.raws, other);
    }
  }

  lemma RejectedPrefix(raws: seq<RawQuote>, j: nat, answer: AdapterOutcome, i: nat)
    requires Rejects(raws, j, answer, i)
    ensures answer.Quotes? && i + 1 <= |answer.quotes|
  {
    hide Acceptable;
  }

  lemma SameQuotesOwn(a: seq<RawQuote>, b: seq<RawQuote>, j: nat)
    requires a == b
    ensures SameOwn(a, b, j)
  {
  }

  lemma EndedLeavesOthers(before: Database, later: Database, j: nat, s: Settings, adapter: nat -> AdapterOutcome,
                          other: nat)
    requires Ended(before, later, j, s, adapter) && other != j
    ensures SameOwn(before.raws, later.raws, other)
  {
    hide EndsWith, FailsInPassing, SameOwn;
    if before.jobs[j].linked && before.jobs[j].attempts <= s.maxRetries {
      AnswerLeavesOthers(before, later, j, s, adapter(later.jobs[j].attempts), other);
    } else {
      SameQuotesOwn(before.raws, later.raws, other);
    }
  }

  // ---------------------------------------------------------------------------------------------
  // All jobs of a call

  /** The answers job `j` gets. */
  function AnswersTo(env: Environment, j: nat): nat -> AdapterOutcome {
    (n: nat) => env.adapter(j, n)
  }

  lemma OneJob(run: Run, j: nat, s: Settings, env: Environment)
    requires j < |run.work.jobs| && Evidence(run.work)
    ensures var next := Durable(run.work, JobEvents(run.work, j, s, env));
            Evidence(next) && Ended(run.work, next, j, s, AnswersTo(env, j))
  {
    assert JobEvents(run.work, j, s, env) == Execute(run.work, j, s, AnswersTo(env, j));
    hide *;
    ExecuteOutcome(run.work, j, s, AnswersTo(env, j));
    ExecuteKeeps(run.work, j, s, AnswersTo(env, j));
    CrashKeeps(run.work, Execute(run.work, j, s, AnswersTo(env, j)), j, s);
    KeepsEvidence(run.work, Durable(run.work, Execute(run.work, j, s, AnswersTo(env, j))), j, s);
  }

  lemma KeepsEvidence(db: Database, later: Database, j: nat, s: Settings)
    requires Keeps(db, later, j, s)
    ensures Evidence(later)
  {
    hide Evidence;
  }

  /** What executing these jobs leaves of each job: those executed ended as their own answers say, the others
      stand as they stood. */
  ghost predicate JobsEnded(run: Run, end: Run, open: seq<nat>, s: Settings, env: Environment) {
    && |end.work.jobs| == |run.work.jobs|
    && forall j: nat :: j < |run.work.jobs| ==>
         if j in open then
           JobEnds(run.work.raws, run.work.jobs[j], end.work.jobs[j], j, s, AnswersTo(env, j))
         else end.work.jobs[j] == run.work.jobs[j]
  }

  ghost predicate DistinctJobs(open: seq<nat>, count: nat) {
    && (forall a :: 0 <= a < |open| ==> open[a] < count)
    && forall a, b :: 0 <= a < b < |open| ==> open[a] != open[b]
  }

  lemma FirstJob(open: seq<nat>, count: nat)
    requires DistinctJobs(open, count) && open != []
    ensures open[0] < count && open[0] !in open[1..] && DistinctJobs(open[1..], count)
    ensures forall j :: j in open <==> j == open[0] || j in open[1..]
  {
    assert open == [open[0]] + open[1..];
  }

  lemma OthersStand(before: Database, later: Database, j: nat, s: Settings, adapter: nat -> AdapterOutcome)
    requires Ended(before, later, j, s, adapter)
    ensures |later.jobs| == |before.jobs|
    ensures forall k :: 0 <= k < |before.jobs| && k != j ==> later.jobs[k] == before.jobs[k]
  {
    hide AttemptsEnd;
  }

  lemma JobsEndedMore(run: Run, mid: Run, end: Run, open: seq<nat>, s: Settings, env: Environment)
    requires DistinctJobs(open, |run.work.jobs|) && open != []
    requires Ended(run.work, mid.work, open[0], s, AnswersTo(env, open[0]))
    requires JobsEnded(mid, end, open[1..], s, env)
    ensures JobsEnded(run, end, open, s, env)
  {
    var first, rest := open[0], open[1..];
    FirstJob(open, |run.work.jobs|);
    EndedJob(run.work, mid.work, first, s, AnswersTo(env, first));
    OthersStand(run.work, mid.work, first, s, AnswersTo(env, first));
    hide Ended, JobEnds, DistinctJobs, AnswersTo;
    forall j: nat | j < |run.work.jobs| && j in rest
      ensures JobEnds(run.work.raws, run.work.jobs[j], end.work.jobs[j], j, s, AnswersTo(env, j))
    {
      EndedLeavesOthers(run.work, mid.work, first, s, AnswersTo(env, first), j);
      SameOwnFlips(run.work.raws, mid.work.raws, j);
      SameEnd(mid.work.raws, run.work.raws, mid.work.jobs[j], end.work.jobs[j], j, s, AnswersTo(env, j));
    }
  }

  lemma {:induction false} JobsEnd(run: Run, open: seq<nat>, s: Settings, env: Environment)
    requires Evidence(run.work) && DistinctJobs(open, |run.work.jobs|)
    ensures JobsEnded(run, AfterJobs(run, open, s, env), open, s, env)
    decreases |open|
  {
    if open == [] {
      hide Evidence;
    } else {
      var mid := run.(work := Durable(run.work, JobEvents(run.work, open[0], s, env)));
      FirstJob(open, |run.work.jobs|);
      OneJob(run, open[0], s, env);
      OthersStand(run.work, mid.work, open[0], s, AnswersTo(env, open[0]));
      assert AfterJobs(run, open, s, env) == AfterJobs(mid, open[1..], s, env);
      hide *;
      JobsEnd(mid, open[1..], s, env);
      JobsEndedMore(run, mid, AfterJobs(run, open, s, env), open, s, env);
    }
  }

  lemma OpenDistinct(jobs: seq<Job>)
    ensures DistinctJobs(OpenJobs(jobs), |jobs|)
  {
    hide Open;
  }

  /** A call of a run that is not over ends every job that was PLANNED or RUNNING as the adapter's answers to that
      job alone say, and leaves every other job as it was. */
  lemma RunOutcome(run: Run, s: Settings, env: Environment)
    requires !Over(run.status) && Evidence(run.work)
    ensures var end := Returned(run, s, env);
            && |end.work.jobs| == |run.work.jobs|
            && forall j: nat :: j < |run.work.jobs| ==>
                 if run.work.jobs[j].status == PLANNED || run.work.jobs[j].status == RUNNING then
                   JobEnds(run.work.raws, run.work.jobs[j], end.work.jobs[j], j, s, AnswersTo(env, j))
                 else end.work.jobs[j] == run.work.jobs[j]
  {
    var active, open := run.(status := ACTIVE), OpenJobs(run.work.jobs);
    OpenDistinct(run.work.jobs);
    JobsEnd(active, open, s, env);
    ReturnedJobs(run, s, env);
    assert forall j: nat :: j < |run.work.jobs| ==>
             (j in open <==> run.work.jobs[j].status == PLANNED || run.work.jobs[j].status == RUNNING);
    hide AfterJobs, Returned, JobEnds, OpenJobs, Evidence, AnswersTo;
  }

  lemma ReturnedJobs(run: Run, s: Settings, env: Environment)
    requires !Over(run.status)
    ensures Returned(run, s, env).work.jobs
            == AfterJobs(run.(status := ACTIVE), OpenJobs(run.work.jobs), s, env).work.jobs
  {
    hide AfterJobs, OpenJobs, CountStatus, CountIncluded;
  }
}
