/** A collection run from its plan to its end, with the curation it really gets: outlier flags and
    canonicalisation of its observations. */
module CuratedRuns {
  import opened Options
  import opened Domain
  import opened Worker
  import opened Collection
  import Observations
  import Outliers
  import Canonical
  import CanonicalFareRule
  import CanonicalRun
  import KeptObservations
  import Scores
  import PlanService

  // ---------------------------------------------------------------------------------------------
  // Curation

  /** Everything but inclusion of the observation of each raw quote, as curation finds it. */
  type Details = nat -> Observations.Observation

  function TableFor(observations: seq<Observation>, details: Details): (r: seq<Observations.Observation>)
    ensures |r| == |observations|
    ensures forall i :: 0 <= i < |observations| ==>
              r[i] == details(observations[i].raw).(included := observations[i].included)
  {
    seq(|observations|, i requires 0 <= i < |observations| =>
      details(observations[i].raw).(included := observations[i].included))
  }

  /** Takes over which observations a table includes. */
  function WithInclusion(observations: seq<Observation>, table: seq<Observations.Observation>): (r: seq<Observation>)
    requires |table| == |observations|
    ensures |r| == |observations|
    ensures forall i :: 0 <= i < |r| ==> r[i] == Observation(observations[i].raw, table[i].included)
  {
    seq(|observations|, i requires 0 <= i < |observations| => Observation(observations[i].raw, table[i].included))
  }

  /** `flag_statistical_outliers` and then `canonicalize_run`, which leaves a run that has canonical fares
      alone: the observations and the number of fares they leave behind. */
  function Curate(observations: seq<Observation>, fares: nat, details: Details, sources: Canonical.Sources,
                  policy: Canonical.Policy): (r: (seq<Observation>, nat))
    ensures |r.0| == |observations|
  {
    var flagged := Outliers.AfterPass(TableFor(observations, details));
    if fares > 0 then (WithInclusion(observations, flagged), fares)
    else
      var state := CanonicalRun.Canonicalised(CanonicalRun.State(flagged, []), sources, policy);
      TableKept(flagged, sources, policy);
      (WithInclusion(observations, state.table), |state.fares|)
  }

  lemma {:induction false} AfterKeysKeeps(table: seq<Observations.Observation>, keys: seq<CanonicalRun.Key>,
                                          sources: Canonical.Sources, policy: Canonical.Policy)
    ensures |CanonicalRun.AfterKeys(table, keys, sources, policy).table| == |table|
  {
    if keys != [] {
      AfterKeysKeeps(table, keys[..|keys| - 1], sources, policy);
      Scores.LastKey(table, keys, sources, policy);
    }
    hide CanonicalRun.WithGroup, CanonicalRun.Members;
  }

  lemma TableKept(table: seq<Observations.Observation>, sources: Canonical.Sources, policy: Canonical.Policy)
    ensures |CanonicalRun.Canonicalised(CanonicalRun.State(table, []), sources, policy).table| == |table|
  {
    AfterKeysKeeps(table, CanonicalRun.Keys(table), sources, policy);
    hide CanonicalRun.AfterKeys, CanonicalRun.Keys;
  }

  /** The environment of one call: the adapter, and curation on that table. */
  function Surroundings(adapter: (nat, nat) -> AdapterOutcome, details: Details, sources: Canonical.Sources,
                        policy: Canonical.Policy): Environment
  {
    Environment(adapter, (o: seq<Observation>, n: nat) => Curate(o, n, details, sources, policy))
  }

  /** Curation never loses or moves a quote. */
  lemma CurationHonest(adapter: (nat, nat) -> AdapterOutcome, details: Details, sources: Canonical.Sources,
                       policy: Canonical.Policy)
    ensures Honest(Surroundings(adapter, details, sources, policy))
  {
    hide Outliers.AfterPass, CanonicalRun.Canonicalised;
  }

  lemma MarkedExcludes(o: Observations.Observation, i: int, p: Canonical.Parts, conflict: bool)
    ensures CanonicalRun.Marked(o, i, p, conflict).included ==> o.included
  {
    hide CanonicalRun.Has;
  }

  lemma OwnMarkExcludes(table: seq<Observations.Observation>, keys: seq<CanonicalRun.Key>, sources: Canonical.Sources,
                        policy: Canonical.Policy, i: nat)
    requires i < |table|
    ensures Scores.OwnMark(table, keys, sources, policy, i).included ==> table[i].included
  {
    var key := CanonicalRun.KeyOf(table[i]);
    if key.Some? && key.value in keys {
      var p := Canonical.PartsOf(CanonicalRun.Members(table, key.value), sources);
      MarkedExcludes(table[i], i, p, Scores.ConflictOf(p, sources, policy));
    }
    hide CanonicalRun.Marked, Canonical.PartsOf, CanonicalRun.Members, CanonicalRun.KeyOf, Scores.ConflictOf;
  }

  lemma CanonicalisedExcludes(table: seq<Observations.Observation>, sources: Canonical.Sources,
                              policy: Canonical.Policy, i: nat)
    requires i < |table|
    ensures var later := CanonicalRun.Canonicalised(CanonicalRun.State(table, []), sources, policy).table;
            |later| == |table| && (later[i].included ==> table[i].included)
  {
    var keys := CanonicalRun.Keys(table);
    Scores.CanonicalisedRow(table, sources, policy, i);
    OwnMarkExcludes(table, keys, sources, policy, i);
    hide *;
  }

  lemma FlaggedIncluded(observations: seq<Observation>, details: Details, i: nat)
    requires i < |observations|
    ensures var flagged := Outliers.AfterPass(TableFor(observations, details));
            |flagged| == |observations| && flagged[i].included == observations[i].included
  {
    Outliers.SecondPassIsIdle(TableFor(observations, details));
    hide Outliers.AfterPass;
  }

  lemma CurateCases(observations: seq<Observation>, fares: nat, details: Details, sources: Canonical.Sources,
                    policy: Canonical.Policy, i: nat)
    requires i < |observations|
    ensures var flagged := Outliers.AfterPass(TableFor(observations, details));
            var after := Curate(observations, fares, details, sources, policy).0;
            var state := CanonicalRun.Canonicalised(CanonicalRun.State(flagged, []), sources, policy);
            && |after| == |flagged| == |state.table| == |observations|
            && after[i].included == if fares > 0 then flagged[i].included else state.table[i].included
  {
    TableKept(Outliers.AfterPass(TableFor(observations, details)), sources, policy);
    hide Outliers.AfterPass, CanonicalRun.Canonicalised, TableFor;
  }

  /** Curation only ever excludes, and once a run has canonical fares it excludes nothing more. */
  lemma CurationOnlyExcludes(observations: seq<Observation>, fares: nat, details: Details, sources: Canonical.Sources,
                             policy: Canonical.Policy, i: nat)
    requires i < |observations|
    ensures var after := Curate(observations, fares, details, sources, policy).0;
            && |after| == |observations| && (after[i].included ==> observations[i].included)
            && (fares > 0 ==> after[i].included == observations[i].included)
  {
    hide *;
    var flagged := Outliers.AfterPass(TableFor(observations, details));
    CurateCases(observations, fares, details, sources, policy, i);
    FlaggedIncluded(observations, details, i);
    CanonicalisedExcludes(flagged, sources, policy, i);
  }

  // ---------------------------------------------------------------------------------------------
  // From the plan to the end

  /** The run that planning leaves in the database; `linked` says which jobs still have their route and
      source rows when they are executed. */
  function Start(run: PlanService.PlannedRun, linked: nat -> bool): Run {
    Run(PENDING, run.planned, 0, 0, 0, 0,
        Database(seq(|run.jobs|, i requires 0 <= i < |run.jobs| => Job(PLANNED, 0, None, linked(i))), [], []))
  }

  lemma StartInv(run: PlanService.PlannedRun, linked: nat -> bool, s: Settings)
    requires run.planned == |run.jobs|
    ensures RunInv(Start(run, linked), s)
  {
    PlannedRunInv(Start(run, linked), s);
  }

  /** One call of the service: what its adapter answers and what curation finds in the tables. */
  datatype Conditions = Conditions(
    adapter: (nat, nat) -> AdapterOutcome, details: Details, sources: Canonical.Sources, policy: Canonical.Policy)

  function EnvironmentOf(c: Conditions): Environment {
    Surroundings(c.adapter, c.details, c.sources, c.policy)
  }

  function Kills(conditions: seq<Conditions>, cuts: seq<nat>): (r: seq<Interruption>)
    requires |conditions| == |cuts|
    ensures |r| == |cuts|
    ensures forall i :: 0 <= i < |r| ==> r[i] == Interruption(EnvironmentOf(conditions[i]), cuts[i])
  {
    seq(|cuts|, i requires 0 <= i < |cuts| && |conditions| == |cuts| =>
      Interruption(EnvironmentOf(conditions[i]), cuts[i]))
  }

  lemma KillsHonest(conditions: seq<Conditions>, cuts: seq<nat>)
    requires |conditions| == |cuts|
    ensures forall c :: c in Kills(conditions, cuts) ==> Honest(c.env)
  {
    forall c | c in Kills(conditions, cuts)
      ensures Honest(c.env)
    {
      var i :| 0 <= i < |cuts| && Kills(conditions, cuts)[i] == c;
      CurationHonest(conditions[i].adapter, conditions[i].details, conditions[i].sources, conditions[i].policy);
    }
    hide Honest, Surroundings;
  }

  /** The first request for a class, trigger and date plans a run; however often its calls are killed, the
      one that returns leaves as many jobs SUCCEEDED or FAILED as the request has routes, windows and
      sources, with one observation per raw quote and a matching status. */
  lemma PlannedRunConserves(requests: seq<PlanService.Request>, i: nat, linked: nat -> bool, s: Settings,
                            conditions: seq<Conditions>, cuts: seq<nat>, last: Conditions)
    requires forall k :: 0 <= k < |requests| ==> PlanService.ValidRequest(requests[k])
    requires i < |requests| && PlanService.First(map[], requests, i) && |conditions| == |cuts|
    ensures var q, runs := requests[i], PlanService.PlanAll(map[], requests);
            && q.key in runs
            && var end := Returned(AfterCrashes(Start(runs[q.key], linked), s, Kills(conditions, cuts)), s,
                                   EnvironmentOf(last));
               && Accounted(end) && AllTerminal(end) && Evidence(end.work)
               && end.successful + end.failed == |end.work.jobs| == PlanService.Size(q)
  {
    var q, runs := requests[i], PlanService.PlanAll(map[], requests);
    PlanService.FirstRequestCovered(map[], requests, i);
    var planned := runs[q.key];
    assert planned.planned == |planned.jobs| == PlanService.Size(q);
    var run := Start(planned, linked);
    assert run.planned == planned.planned;
    hide *;
    StartInv(planned, linked, s);
    KillsHonest(conditions, cuts);
    CurationHonest(last.adapter, last.details, last.sources, last.policy);
    EnvironmentIs(last);
    ResumeConserves(run, s, Kills(conditions, cuts), EnvironmentOf(last));
    PlanStays(run, s, Kills(conditions, cuts), EnvironmentOf(last));
    AccountedSum(Returned(AfterCrashes(run, s, Kills(conditions, cuts)), s, EnvironmentOf(last)));
  }

  lemma EnvironmentIs(c: Conditions)
    ensures EnvironmentOf(c) == Surroundings(c.adapter, c.details, c.sources, c.policy)
  {
  }

  lemma AccountedSum(run: Run)
    requires Accounted(run)
    ensures run.successful + run.failed == run.planned
  {
  }

  // ---------------------------------------------------------------------------------------------
  // What curation makes of a run

  /** `flagged` is the table with its outliers flagged, `later` what canonicalising leaves of it, `made` the
      canonical fares; a run that has fares keeps them and canonicalises nothing. */
  ghost predicate CuratedBy(before: seq<Observation>, fares: nat, after: seq<Observation>, count: nat, c: Conditions,
                            flagged: seq<Observations.Observation>, later: seq<Observations.Observation>,
                            made: seq<CanonicalRun.CanonicalFare>) {
    && Outliers.FlagsOutlying(TableFor(before, c.details), flagged)
    && |after| == |before| == |later|
    && (forall i :: 0 <= i < |after| ==> after[i].raw == before[i].raw && after[i].included == later[i].included)
    && if fares > 0 then later == flagged && count == fares
       else
         && KeptObservations.CuratedTo(flagged, later, c.sources)
         && CanonicalFareRule.FaresAre(flagged, made, c.sources, c.policy) && count == |made|
  }

  lemma CurateIs(before: seq<Observation>, fares: nat, c: Conditions)
    returns (flagged: seq<Observations.Observation>, later: seq<Observations.Observation>,
             made: seq<CanonicalRun.CanonicalFare>)
    ensures var (after, count) := Curate(before, fares, c.details, c.sources, c.policy);
            CuratedBy(before, fares, after, count, c, flagged, later, made)
  {
    flagged := Outliers.AfterPass(TableFor(before, c.details));
    var state := CanonicalRun.Canonicalised(CanonicalRun.State(flagged, []), c.sources, c.policy);
    made := state.fares;
    Outliers.PassFlagsOutlying(TableFor(before, c.details));
    CurateEither(before, fares, c);
    hide *;
    if fares > 0 {
      later := flagged;
    } else {
      later := state.table;
      KeptObservations.TableIsCurated(flagged, c.sources, c.policy);
      CanonicalFareRule.CanonicalFaresAre(flagged, c.sources, c.policy);
    }
    CuratedByIs(before, fares, c, flagged, later, made);
  }

  lemma CurateEither(before: seq<Observation>, fares: nat, c: Conditions)
    ensures var flagged := Outliers.AfterPass(TableFor(before, c.details));
            var state := CanonicalRun.Canonicalised(CanonicalRun.State(flagged, []), c.sources, c.policy);
            && |flagged| == |before| == |state.table|
            && Curate(before, fares, c.details, c.sources, c.policy)
                 == if fares > 0 then (WithInclusion(before, flagged), fares)
                    else (WithInclusion(before, state.table), |state.fares|)
  {
    TableKept(Outliers.AfterPass(TableFor(before, c.details)), c.sources, c.policy);
    hide Outliers.AfterPass, CanonicalRun.Canonicalised;
  }

  lemma CuratedByIs(before: seq<Observation>, fares: nat, c: Conditions, flagged: seq<Observations.Observation>,
                    later: seq<Observations.Observation>, made: seq<CanonicalRun.CanonicalFare>)
    requires |later| == |before| && Outliers.FlagsOutlying(TableFor(before, c.details), flagged)
    requires fares > 0 ==> later == flagged
    requires fares == 0 ==> KeptObservations.CuratedTo(flagged, later, c.sources)
    requires fares == 0 ==> CanonicalFareRule.FaresAre(flagged, made, c.sources, c.policy)
    ensures var count := if fares > 0 then fares else |made|;
            CuratedBy(before, fares, WithInclusion(before, later), count, c, flagged, later, made)
  {
    hide Outliers.FlagsOutlying, TableFor, KeptObservations.CuratedTo, CanonicalFareRule.FaresAre;
  }

  /** A call of a run that is not over ends with the observations its jobs left, flagged and canonicalised: which
      of them are included and how many canonical fares there are is what the rules for outliers, for kept
      observations and for canonical fares say. */
  lemma RunIsCurated(run: Run, s: Settings, c: Conditions)
    returns (flagged: seq<Observations.Observation>, later: seq<Observations.Observation>,
             made: seq<CanonicalRun.CanonicalFare>)
    requires !Over(run.status)
    ensures var done := AfterJobs(run.(status := ACTIVE), OpenJobs(run.work.jobs), s, EnvironmentOf(c));
            var end := Returned(run, s, EnvironmentOf(c));
            && done.fares == run.fares
            && CuratedBy(done.work.observations, run.fares, end.work.observations, end.fares, c, flagged, later, made)
            && end.work.raws == done.work.raws && end.work.jobs == done.work.jobs
  {
    var done := AfterJobs(run.(status := ACTIVE), OpenJobs(run.work.jobs), s, EnvironmentOf(c));
    JobsKeepFares(run.(status := ACTIVE), OpenJobs(run.work.jobs), s, EnvironmentOf(c));
    ReturnedIs(run, s, c);
    hide *;
    flagged, later, made := CurateIs(done.work.observations, run.fares, c);
  }

  lemma {:induction false} JobsKeepFares(run: Run, open: seq<nat>, s: Settings, env: Environment)
    ensures AfterJobs(run, open, s, env).fares == run.fares
    decreases |open|
  {
    if open != [] {
      JobsKeepFares(run.(work := Durable(run.work, JobEvents(run.work, open[0], s, env))), open[1..], s, env);
    }
    hide JobEvents, Durable;
  }

  lemma ReturnedIs(run: Run, s: Settings, c: Conditions)
    requires !Over(run.status)
    ensures var done := AfterJobs(run.(status := ACTIVE), OpenJobs(run.work.jobs), s, EnvironmentOf(c));
            var end := Returned(run, s, EnvironmentOf(c));
            var (after, count) := Curate(done.work.observations, done.fares, c.details, c.sources, c.policy);
            && end.work.observations == after && end.work.raws == done.work.raws && end.work.jobs == done.work.jobs
            && end.fares == count
  {
    hide AfterJobs, OpenJobs, TableFor, WithInclusion, Outliers.AfterPass, CanonicalRun.Canonicalised, CountStatus,
         CountIncluded;
  }
}
