/** The worker's database session: pending rows, commit, rollback, and the methods of
    `CollectionWorker` that use them. */
module WorkerSession {
  import opened Options
  import opened Worker
  import opened JobOutcomes

  class Session {
    var pending: Database          // what queries and later statements see
    var saved: Database            // what a crash would leave
    ghost var events: seq<Event>

    constructor (db: Database)
      ensures pending == saved == db && events == []
    {
      pending, saved, events := db, db, [];
    }

    method Commit()
      modifies this
      ensures saved == pending == old(pending)
      ensures events == old(events) + [Committed(pending)]
    {
      saved := pending;
      events := events + [Committed(pending)];
    }

    method Rollback()
      modifies this`pending
      ensures pending == saved
    {
      pending := saved;
    }

    /** `_persist_raw_quote`: returns the row to observe, or raises for a payload that is no object. */
    method PersistRawQuote(j: nat, quote: Quote) returns (r: Result<nat, FailureCode>)
      modifies this`pending
      ensures r.Err? <==> !quote.payloadIsObject
      ensures r.Err? ==> r.error == INVALID_RESPONSE && pending == old(pending)
      ensures r.Ok? ==> (pending, r.value) == WithRaw(old(pending), j, quote)
    {
      if !quote.payloadIsObject {
        return Err(INVALID_RESPONSE);
      }
      var existing := FindRaw(pending.raws, RawQuote(j, quote.hash));
      if existing.Some? {
        return Ok(existing.value);
      }
      var raw := |pending.raws|;
      pending := pending.(raws := pending.raws + [RawQuote(j, quote.hash)]);
      return Ok(raw);
    }

    method FindObservation(raw: nat) returns (found: bool)
      ensures found <==> HasObservation(pending.observations, raw)
    {
      found := false;
      for i := 0 to |pending.observations|
        invariant found <==> exists k :: 0 <= k < i && pending.observations[k].raw == raw
      {
        found := found || pending.observations[i].raw == raw;
      }
    }

    /** The quote loop of `_attempt`: `None` when every quote was stored. */
    method StoreResponse(j: nat, quotes: seq<Quote>) returns (failure: Option<FailureCode>)
      requires saved == pending
      modifies this
      ensures StoreQuotes(old(pending), j, quotes).Stored? ==>
                && failure == None && pending == StoreQuotes(old(pending), j, quotes).state
                && saved == old(saved) && events == old(events)
      ensures StoreQuotes(old(pending), j, quotes).StoredRejection? ==>
                && failure == Some(INVALID_RESPONSE)
                && saved == pending == StoreQuotes(old(pending), j, quotes).state
                && events == old(events) + [Committed(pending)]
      ensures StoreQuotes(old(pending), j, quotes).Raised? ==>
                && failure == Some(StoreQuotes(old(pending), j, quotes).code)
                && saved == pending == old(pending) && events == old(events)
    {
      for i := 0 to |quotes|
        invariant saved == old(saved) && events == old(events)
        invariant StoreQuotes(pending, j, quotes[i..]) == StoreQuotes(old(pending), j, quotes)
      {
        ghost var before := pending;
        assert quotes[i..][1..] == quotes[i + 1..] && quotes[i..][0] == quotes[i];
        var raw := PersistRawQuote(j, quotes[i]);
        if raw.Err? {
          Rollback();
          return Some(raw.error);
        }
        var found := FindObservation(raw.value);
        if !found {
          match quotes[i].normalisation {
            case Normalised(included) =>
              pending := pending.(observations := pending.observations + [Observation(raw.value, included)]);
            case NotNormalisable =>
              pending := pending.(observations := pending.observations + [Observation(raw.value, false)]);
              Commit();
              return Some(INVALID_RESPONSE);
            case Raises =>
              Rollback();
              return Some(UNKNOWN_ERROR);
          }
        }
        assert StoreQuote(before, j, quotes[i]) == Stored(pending);
      }
      return None;
    }

    /** `_attempt`: `None` when the job has succeeded. */
    method AttemptJob(j: nat, outcome: AdapterOutcome) returns (failure: Option<FailureCode>)
      requires saved == pending && j < |pending.jobs|
      modifies this
      ensures var r := AttemptOnce(old(pending), j, outcome);
              && failure == r.failure
              && saved == pending == r.state
              && events == old(events) + [Attempted] + (if r.committed then [Committed(r.state)] else [])
      ensures Evidence(old(pending)) ==> Reported(old(pending), pending, failure, j, outcome)
    {
      if Evidence(pending) {
        AttemptReported(pending, j, outcome);
      }
      hide Reported, Evidence;
      events := events + [Attempted];
      match outcome {
        case TimedOut => return Some(NETWORK_TIMEOUT);
        case AdapterError(code) => return Some(code);
        case BadValue => Rollback(); return Some(INVALID_RESPONSE);
        case Unexpected => Rollback(); return Some(UNKNOWN_ERROR);
        case Quotes(quotes) =>
          if |quotes| == 0 {
            var done := pending.jobs[j].(status := SUCCEEDED, failure := Some(NO_RESULTS));
            pending := pending.(jobs := pending.jobs[j := done]);
            Commit();
            return None;
          }
          StoreKeepsJobs(pending, j, quotes);
          failure := StoreResponse(j, quotes);
          if failure.Some? {
            return;
          }
          pending := pending.(jobs := pending.jobs[j := pending.jobs[j].(status := SUCCEEDED, failure := None)]);
          Commit();
      }
    }

    /** `_fail_job`. */
    method FailJob(j: nat, code: FailureCode)
      requires j < |pending.jobs|
      modifies this
      ensures saved == pending == Failed(old(pending), j, code) && |pending.jobs| == |old(pending).jobs|
      ensures events == old(events) + [Committed(pending)]
    {
      pending := pending.(jobs := pending.jobs[j := pending.jobs[j].(status := FAILED, failure := Some(code))]);
      Commit();
    }

    /** `CollectionWorker.execute`; `adapter(n)` is what attempt number `n` meets. */
    method ExecuteJob(j: nat, s: Settings, adapter: nat -> AdapterOutcome)
      requires saved == pending && j < |pending.jobs|
      modifies this
      ensures events == old(events) + Execute(old(pending), j, s, adapter)
      ensures saved == pending == Durable(old(pending), Execute(old(pending), j, s, adapter))
      ensures Evidence(old(pending)) ==> Ended(old(pending), pending, j, s, adapter)
    {
      EndsAsAnswered(pending, j, s, adapter);
      ExecuteIs(pending, j, s, adapter);
      hide *;
      ghost var start := pending;
      if !pending.jobs[j].linked {
        FailJob(j, INVALID_RESPONSE);
        return;
      }
      StartedIs(start, j);
      pending := pending.(jobs := pending.jobs[j := pending.jobs[j].(status := RUNNING)]);
      Commit();
      RunStarted(j, s, adapter);
    }

    /** The rest of `execute`, once the job is RUNNING. */
    method RunStarted(j: nat, s: Settings, adapter: nat -> AdapterOutcome)
      requires saved == pending && j < |pending.jobs|
      modifies this
      ensures events == old(events) + AfterStart(old(pending), j, s, adapter)
      ensures saved == pending == Durable(old(pending), AfterStart(old(pending), j, s, adapter))
    {
      hide *;
      AfterStartIs(pending, j, s, adapter);
      var maxAttempts := MaxAttempts(s);
      if pending.jobs[j].attempts >= maxAttempts {
        FailJob(j, UNKNOWN_ERROR);
        return;
      }
      RunAttempts(j, s, adapter);
    }

    /** Counts an attempt durably, then makes it. */
    method CountAndAttempt(j: nat, adapter: nat -> AdapterOutcome) returns (failure: Option<FailureCode>)
      requires saved == pending && j < |pending.jobs|
      modifies this
      ensures var r := AttemptOnce(Counted(old(pending), j), j, adapter(old(pending).jobs[j].attempts + 1));
              && saved == pending == r.state && failure == r.failure
              && |pending.jobs| == |old(pending).jobs|
              && (failure.Some? ==> pending.jobs[j].attempts == old(pending).jobs[j].attempts + 1)
      ensures events == old(events) + Head(old(pending), j, adapter)
    {
      hide AttemptOnce;
      pending := pending.(jobs := pending.jobs[j := pending.jobs[j].(attempts := pending.jobs[j].attempts + 1)]);
      Commit();
      failure := AttemptJob(j, adapter(pending.jobs[j].attempts));
    }

    /** One iteration of the retry loop: true when the job has ended, false to go round again. */
    method Iterate(j: nat, s: Settings, adapter: nat -> AdapterOutcome) returns (ended: bool)
      requires saved == pending && j < |pending.jobs| && pending.jobs[j].attempts < MaxAttempts(s)
      modifies this
      ensures saved == pending && |pending.jobs| == |old(pending).jobs|
      ensures ended ==>
                && events == old(events) + Loop(old(pending), j, s, adapter)
                && pending == Durable(old(pending), Loop(old(pending), j, s, adapter))
      ensures !ended ==>
                && pending.jobs[j].attempts == old(pending).jobs[j].attempts + 1 < MaxAttempts(s)
                && events + Loop(pending, j, s, adapter) == old(events) + Loop(old(pending), j, s, adapter)
                && Durable(pending, Loop(pending, j, s, adapter))
                   == Durable(old(pending), Loop(old(pending), j, s, adapter))
    {
      ghost var before := pending;
      hide *;
      LoopUnfolds(before, j, s, adapter);
      HeadDurable(before, j, adapter);
      ghost var head := Head(before, j, adapter);
      var failure := CountAndAttempt(j, adapter);
      if failure.None? {
        return true;
      }
      var code, n := failure.value, pending.jobs[j].attempts;
      var shouldRetry := Retries(s, n, code);
      if !shouldRetry {
        ghost var failed := [Committed(Failed(pending, j, code))];
        DurableAppend(before, head, failed);
        DurableLast(pending, failed);
        FailJob(j, code);
        assert events == old(events) + (head + failed);
        return true;
      }
      RetriesHasBudget(s, n, code);
      BackOff(s, n);
      LoopStep(old(events), before, head, pending, Sleep(s, n), Loop(pending, j, s, adapter));
      SleepDurable(pending, s, n);
      return false;
    }

    /** Sleep unless the delay is zero. */
    method BackOff(s: Settings, n: nat)
      requires n > 0
      modifies this`events
      ensures events == old(events) + Sleep(s, n)
    {
      var delay := Delay(s, n);
      if delay > 0.0 {
        events := events + [Slept(delay)];
      }
    }

    /** The `for _ in range(attempts_remaining)` loop, which is never exhausted. */
    method RunAttempts(j: nat, s: Settings, adapter: nat -> AdapterOutcome)
      requires saved == pending && j < |pending.jobs| && pending.jobs[j].attempts < MaxAttempts(s)
      modifies this
      ensures events == old(events) + Loop(old(pending), j, s, adapter)
      ensures saved == pending == Durable(old(pending), Loop(old(pending), j, s, adapter))
    {
      hide *;
      ghost var start := pending;
      var remaining := MaxAttempts(s) - pending.jobs[j].attempts;
      for k := 0 to remaining
        invariant saved == pending && j < |pending.jobs| && k < remaining
        invariant pending.jobs[j].attempts + remaining == MaxAttempts(s) + k
        invariant events + Loop(pending, j, s, adapter) == old(events) + Loop(start, j, s, adapter)
        invariant Durable(pending, Loop(pending, j, s, adapter)) == Durable(start, Loop(start, j, s, adapter))
      {
        var ended := Iterate(j, s, adapter);
        if ended {
          return;
        }
      }
      assert false;
    }
  }

  lemma StartedIs(db: Database, j: nat)
    requires j < |db.jobs|
    ensures Started(db, j) == db.(jobs := db.jobs[j := db.jobs[j].(status := RUNNING)])
  {
  }

  lemma EndsAsAnswered(db: Database, j: nat, s: Settings, adapter: nat -> AdapterOutcome)
    requires j < |db.jobs|
    ensures Evidence(db) ==> Ended(db, Durable(db, Execute(db, j, s, adapter)), j, s, adapter)
  {
    hide *;
    if Evidence(db) {
      ExecuteOutcome(db, j, s, adapter);
    }
  }

  lemma LoopStep(log: seq<Event>, db: Database, head: seq<Event>, next: Database, sleep: seq<Event>, rest: seq<Event>)
    ensures log + head + sleep + rest == log + (head + sleep + rest)
    ensures Durable(db, head) == next && Durable(next, sleep) == next ==>
              Durable(db, head + sleep + rest) == Durable(next, rest)
  {
    DurableAppend(db, head, sleep);
    DurableAppend(db, head + sleep, rest);
  }

  lemma SleepDurable(db: Database, s: Settings, n: nat)
    requires n > 0
    ensures Durable(db, Sleep(s, n)) == db
  {
    PaidSleep(db, s, n, 0);
  }
}
