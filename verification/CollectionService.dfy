/** `CollectionService.run_sources`, from the point where its run has been planned or found. */
module CollectionService {
  import opened Options
  import opened Domain
  import opened Worker
  import opened Collection
  import WorkerSession

  class RunSession {
    var run: Run                   // the run as the session sees it
    var saved: Run                 // the run as a crash would leave it
    ghost var commits: seq<Run>

    constructor (run: Run)
      ensures this.run == saved == run && commits == []
    {
      this.run, saved, commits := run, run, [];
    }

    method Commit()
      modifies this
      ensures saved == run == old(run)
      ensures commits == old(commits) + [run]
    {
      saved := run;
      commits := commits + [run];
    }

    /** The worker executes one job on this session's database. */
    method ExecuteJob(j: nat, s: Settings, env: Environment)
      requires saved == run && j < |run.work.jobs|
      modifies this
      ensures saved == run == old(run).(work := Durable(old(run).work, JobEvents(old(run).work, j, s, env)))
      ensures commits == old(commits) + Lift(old(run), JobEvents(old(run).work, j, s, env))
    {
      var worker := new WorkerSession.Session(run.work);
      worker.ExecuteJob(j, s, (n: nat) => env.adapter(j, n));
      hide Execute, Durable, Lift;
      assert worker.events == JobEvents(run.work, j, s, env);
      commits := commits + Lift(run, worker.events);
      run := run.(work := worker.saved);
      saved := run;
    }

    /** Executes or resumes the run; a run that is over is returned as it stands. */
    method RunSources(s: Settings, env: Environment)
      requires saved == run && RunInv(run, s) && Honest(env)
      modifies this
      ensures saved == run == Returned(old(run), s, env)
      ensures commits == old(commits) + Call(old(run), s, env)
      ensures AllTerminal(run) && Accounted(run)
    {
      hide *;
      CallUnfold(run, s, env);
      ReturnedIsAccounted(run, s, env);
      if Over(run.status) {
        return;
      }
      run := run.(status := ACTIVE);
      Commit();
      ActiveInv(old(run), s);
      ExecuteJobs(s, env);
      Finish(env);
    }

    /** Flagging, canonicalisation, the final counters and the final status. */
    method Finish(env: Environment)
      requires saved == run
      modifies this
      ensures saved == run == Finished(Curated(old(run), env))
      ensures commits == old(commits) + (if old(run).fares > 0 then [] else [Curated(old(run), env)]) + [run]
    {
      var (observations, fares) := env.curate(run.work.observations, run.fares);
      run := run.(work := run.work.(observations := observations));
      if run.fares == 0 {
        run := run.(fares := fares);
        Commit();
      }
      run := run.(successful := CountStatus(run.work.jobs, SUCCEEDED), failed := CountStatus(run.work.jobs, FAILED));
      run := run.(valid := CountIncluded(run.work.observations));
      if run.failed == 0 {
        run := run.(status := COMPLETED);
      } else if run.successful == 0 {
        run := run.(status := ABORTED);
      } else {
        run := run.(status := PARTIAL);
      }
      Commit();
    }

    /** One round of the job loop. */
    method ExecuteNext(jobs: seq<nat>, k: nat, s: Settings, env: Environment)
      requires saved == run && RunInv(run, s) && !Over(run.status)
      requires k < |jobs| && jobs[k] < |run.work.jobs|
      modifies this
      ensures saved == run && RunInv(run, s) && !Over(run.status) && |run.work.jobs| == |old(run).work.jobs|
      ensures AfterJobs(run, jobs[k + 1..], s, env) == AfterJobs(old(run), jobs[k..], s, env)
      ensures commits + JobCommits(run, jobs[k + 1..], s, env) == old(commits) + JobCommits(old(run), jobs[k..], s, env)
    {
      hide *;
      OneJob(run, jobs[k], s, env);
      JobsUnfold(run, jobs, k, s, env);
      ghost var lifted := Lift(run, JobEvents(run.work, jobs[k], s, env));
      ExecuteJob(jobs[k], s, env);
      assert commits + JobCommits(run, jobs[k + 1..], s, env)
          == old(commits) + (lifted + JobCommits(run, jobs[k + 1..], s, env));
    }

    /** `for job in jobs: await worker.execute(session, run, job)`. */
    method ExecuteJobs(s: Settings, env: Environment)
      requires saved == run && RunInv(run, s) && !Over(run.status)
      modifies this
      ensures saved == run == AfterJobs(old(run), OpenJobs(old(run).work.jobs), s, env)
      ensures commits == old(commits) + JobCommits(old(run), OpenJobs(old(run).work.jobs), s, env)
    {
      ghost var before := run;
      var jobs := OpenJobs(run.work.jobs);
      assert jobs[0..] == jobs;
      hide *;
      for k := 0 to |jobs|
        invariant saved == run && RunInv(run, s) && !Over(run.status)
        invariant |run.work.jobs| == |before.work.jobs|
        invariant AfterJobs(run, jobs[k..], s, env) == AfterJobs(before, jobs, s, env)
        invariant commits + JobCommits(run, jobs[k..], s, env) == old(commits) + JobCommits(before, jobs, s, env)
      {
        ExecuteNext(jobs, k, s, env);
      }
      NoJobsLeft(run, s, env);
      assert jobs[|jobs|..] == [];
    }
  }

  lemma NoJobsLeft(run: Run, s: Settings, env: Environment)
    ensures AfterJobs(run, [], s, env) == run && JobCommits(run, [], s, env) == []
  {
  }

  lemma CallUnfold(run: Run, s: Settings, env: Environment)
    ensures Over(run.status) ==> Call(run, s, env) == [] && Returned(run, s, env) == run
    ensures !Over(run.status) ==>
              var active, open := run.(status := ACTIVE), OpenJobs(run.work.jobs);
              var done := AfterJobs(active, open, s, env);
              && Returned(run, s, env) == Finished(Curated(done, env))
              && Call(run, s, env) == [active] + JobCommits(active, open, s, env)
                   + (if done.fares > 0 then [] else [Curated(done, env)]) + [Returned(run, s, env)]
  {
    hide OpenJobs, AfterJobs, JobCommits, Curated, Finished;
  }

  lemma ReturnedIsAccounted(run: Run, s: Settings, env: Environment)
    requires RunInv(run, s) && Honest(env)
    ensures AllTerminal(Returned(run, s, env)) && Accounted(Returned(run, s, env))
  {
    CallInv(run, s, env);
  }

  lemma ActiveInv(run: Run, s: Settings)
    requires RunInv(run, s) && !Over(run.status)
    ensures RunInv(run.(status := ACTIVE), s) && !Over(run.(status := ACTIVE).status)
  {
  }

  lemma JobsUnfold(run: Run, jobs: seq<nat>, k: nat, s: Settings, env: Environment)
    requires k < |jobs|
    ensures var events := JobEvents(run.work, jobs[k], s, env);
            var next := run.(work := Durable(run.work, events));
            && AfterJobs(run, jobs[k..], s, env) == AfterJobs(next, jobs[k + 1..], s, env)
            && JobCommits(run, jobs[k..], s, env) == Lift(run, events) + JobCommits(next, jobs[k + 1..], s, env)
  {
    assert jobs[k..][0] == jobs[k] && jobs[k..][1..] == jobs[k + 1..];
    hide JobEvents, Durable, Lift;
  }
}
