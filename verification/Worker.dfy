/** What one collection job may do to the database (`services/worker.py`), as pure functions.

    An execution is described by its events: each commit with the state it makes durable, each
    adapter attempt, and each backoff sleep.  A crash keeps a prefix of the events.
 */
module Worker {
  import opened Options

  datatype JobStatus = PLANNED | RUNNING | SUCCEEDED | FAILED | SKIPPED

  datatype FailureCode =
    | SOURCE_UNAVAILABLE | RATE_LIMITED | ROBOTS_DISALLOWED | TERMS_RESTRICTED | CAPTCHA_BLOCKED
    | AUTHENTICATION_FAILED | PARSER_CHANGED | NO_RESULTS | NETWORK_TIMEOUT | INVALID_RESPONSE
    | UNKNOWN_ERROR

  /** `adapter_max_retries`, `retry_backoff_seconds`, `retry_backoff_max_seconds`. */
  datatype Settings = Settings(maxRetries: nat, backoff: real, backoffMax: real)

  /** `linked` is false when the job's route or source row is missing. */
  datatype Job = Job(status: JobStatus, attempts: nat, failure: Option<FailureCode>, linked: bool)

  datatype RawQuote = RawQuote(job: nat, hash: int)

  datatype Observation = Observation(raw: nat, included: bool)

  datatype Database = Database(jobs: seq<Job>, raws: seq<RawQuote>, observations: seq<Observation>)

  /** How normalising and inserting one new quote goes: an observation; a KeyError, TypeError or
      ValueError, whose rejection row is stored instead; or any other exception, including a
      database error raised while flushing either row. */
  datatype Normalisation = Normalised(included: bool) | NotNormalisable | Raises

  datatype Quote = Quote(hash: int, payloadIsObject: bool, normalisation: Normalisation)

  datatype AdapterOutcome =
    | Quotes(quotes: seq<Quote>)
    | TimedOut
    | AdapterError(code: FailureCode)
    | BadValue                      // KeyError, TypeError or ValueError, a missing adapter included
    | Unexpected

  datatype Event = Committed(state: Database) | Attempted | Slept(seconds: real)

  predicate Transient(code: FailureCode) {
    code in {SOURCE_UNAVAILABLE, RATE_LIMITED, NETWORK_TIMEOUT, UNKNOWN_ERROR}
  }

  predicate ValidSettings(s: Settings) {
    s.backoff >= 0.0 && s.backoffMax >= 0.0
  }

  function MaxAttempts(s: Settings): nat {
    s.maxRetries + 1
  }

  function PowerOfTwo(n: nat): (r: real)
    ensures r >= 1.0
  {
    if n == 0 then 1.0 else 2.0 * PowerOfTwo(n - 1)
  }

  /** Backoff after the given attempt number. */
  function Delay(s: Settings, attempt: nat): real
    requires attempt > 0
  {
    var grown := s.backoff * PowerOfTwo(attempt - 1);
    if grown <= s.backoffMax then grown else s.backoffMax
  }

  // ---------------------------------------------------------------------------------------------
  // Storing quotes

  function FindRaw(raws: seq<RawQuote>, wanted: RawQuote): (r: Option<nat>)
    ensures r.Some? ==> r.value < |raws| && raws[r.value] == wanted
    ensures r.None? ==> wanted !in raws
  {
    if raws == [] then None
    else if raws[|raws| - 1] == wanted then Some(|raws| - 1)
    else FindRaw(raws[..|raws| - 1], wanted)
  }

  predicate HasObservation(observations: seq<Observation>, raw: nat) {
    exists i :: 0 <= i < |observations| && observations[i].raw == raw
  }

  datatype Stored =
    | Stored(state: Database)
    | StoredRejection(state: Database)
    | Raised(code: FailureCode)

  /** `_persist_raw_quote`: the quote's row number, inserting it unless the job already has it. */
  function WithRaw(db: Database, job: nat, quote: Quote): (Database, nat) {
    var row := RawQuote(job, quote.hash);
    match FindRaw(db.raws, row)
    case Some(found) => (db, found)
    case None => (db.(raws := db.raws + [row]), |db.raws|)
  }

  function WithObservation(db: Database, raw: nat, included: bool): Database {
    db.(observations := db.observations + [Observation(raw, included)])
  }

  function StoreQuote(db: Database, job: nat, quote: Quote): Stored {
    if !quote.payloadIsObject then Raised(INVALID_RESPONSE)
    else
      var (next, raw) := WithRaw(db, job, quote);
      if HasObservation(next.observations, raw) then Stored(next)
      else
        match quote.normalisation
        case Normalised(included) => Stored(WithObservation(next, raw, included))
        case NotNormalisable => StoredRejection(WithObservation(next, raw, false))
        case Raises => Raised(UNKNOWN_ERROR)
  }

  /** The quotes of one response, in order, stopping at the first rejection or exception. */
  function StoreQuotes(db: Database, job: nat, quotes: seq<Quote>): Stored
    decreases |quotes|
  {
    if quotes == [] then Stored(db)
    else
      var first := StoreQuote(db, job, quotes[0]);
      if first.Stored? then StoreQuotes(first.state, job, quotes[1..]) else first
  }

  // ---------------------------------------------------------------------------------------------
  // Attempts and executions

  function WithJob(db: Database, j: nat, job: Job): (r: Database)
    requires j < |db.jobs|
    ensures |r.jobs| == |db.jobs| && r.jobs[j] == job
  {
    db.(jobs := db.jobs[j := job])
  }

  function Failed(db: Database, j: nat, code: FailureCode): Database
    requires j < |db.jobs|
  {
    WithJob(db, j, db.jobs[j].(status := FAILED, failure := Some(code)))
  }

  function Succeeded(db: Database, j: nat, failure: Option<FailureCode>): Database
    requires j < |db.jobs|
  {
    WithJob(db, j, db.jobs[j].(status := SUCCEEDED, failure := failure))
  }

  function Counted(db: Database, j: nat): Database
    requires j < |db.jobs|
  {
    WithJob(db, j, db.jobs[j].(attempts := db.jobs[j].attempts + 1))
  }

  function Started(db: Database, j: nat): Database
    requires j < |db.jobs|
  {
    WithJob(db, j, db.jobs[j].(status := RUNNING))
  }

  /** The state one attempt leaves durable, and the failure it reports. */
  datatype Attempt = Attempt(state: Database, committed: bool, failure: Option<FailureCode>)

  function AttemptOnce(db: Database, j: nat, outcome: AdapterOutcome): Attempt
    requires j < |db.jobs|
    ensures var r := AttemptOnce(db, j, outcome);
            && |r.state.jobs| == |db.jobs|
            && (!r.committed ==> r.state == db)
            && (r.failure.Some? ==> r.state.jobs == db.jobs)
  {
    match outcome
    case TimedOut => Attempt(db, false, Some(NETWORK_TIMEOUT))
    case AdapterError(code) => Attempt(db, false, Some(code))
    case BadValue => Attempt(db, false, Some(INVALID_RESPONSE))
    case Unexpected => Attempt(db, false, Some(UNKNOWN_ERROR))
    case Quotes(quotes) =>
      if quotes == [] then Attempt(Succeeded(db, j, Some(NO_RESULTS)), true, None)
      else
        StoreKeepsJobs(db, j, quotes);
        match StoreQuotes(db, j, quotes)
        case Stored(state) => Attempt(Succeeded(state, j, None), true, None)
        case StoredRejection(state) => Attempt(state, true, Some(INVALID_RESPONSE))
        case Raised(code) => Attempt(db, false, Some(code))
  }

  predicate Retries(s: Settings, attempts: nat, code: FailureCode) {
    Transient(code) && attempts < MaxAttempts(s)
  }

  function Sleep(s: Settings, attempts: nat): seq<Event>
    requires attempts > 0
  {
    if Delay(s, attempts) > 0.0 then [Slept(Delay(s, attempts))] else []
  }

  /** The retry loop from a state in which attempts remain; `adapter(n)` answers attempt `n`. */
  function Loop(db: Database, j: nat, s: Settings, adapter: nat -> AdapterOutcome): seq<Event>
    requires j < |db.jobs| && db.jobs[j].attempts < MaxAttempts(s)
    decreases MaxAttempts(s) - db.jobs[j].attempts
  {
    var counted := Counted(db, j);
    var n := counted.jobs[j].attempts;
    var result := AttemptOnce(counted, j, adapter(n));
    var head := [Committed(counted), Attempted] + (if result.committed then [Committed(result.state)] else []);
    match result.failure
    case None => head
    case Some(code) =>
      if Retries(s, n, code) then head + Sleep(s, n) + Loop(result.state, j, s, adapter)
      else head + [Committed(Failed(result.state, j, code))]
  }

  function Execute(db: Database, j: nat, s: Settings, adapter: nat -> AdapterOutcome): seq<Event>
    requires j < |db.jobs|
  {
    if !db.jobs[j].linked then [Committed(Failed(db, j, INVALID_RESPONSE))]
    else
      var started := Started(db, j);
      [Committed(started)] +
      if started.jobs[j].attempts >= MaxAttempts(s) then [Committed(Failed(started, j, UNKNOWN_ERROR))]
      else Loop(started, j, s, adapter)
  }

  /** The durable state after some events. */
  function Durable(db: Database, events: seq<Event>): Database {
    if events == [] then db
    else if events[|events| - 1].Committed? then events[|events| - 1].state
    else Durable(db, events[..|events| - 1])
  }

  function CountAttempts(events: seq<Event>): nat {
    if events == [] then 0
    else (if events[|events| - 1].Attempted? then 1 else 0) + CountAttempts(events[..|events| - 1])
  }

  // ---------------------------------------------------------------------------------------------
  // Evidence

  /** Each raw quote has exactly one observation, and no job holds one content hash twice. */
  ghost predicate Evidence(db: Database) {
    && (forall i, k :: 0 <= i < k < |db.raws| ==> db.raws[i] != db.raws[k])
    && (forall k :: 0 <= k < |db.observations| ==> db.observations[k].raw < |db.raws|)
    && (forall i, k :: 0 <= i < k < |db.observations| ==> db.observations[i].raw != db.observations[k].raw)
    && (forall i: nat :: i < |db.raws| ==> HasObservation(db.observations, i))
  }

  /** Evidence is only ever appended. */
  ghost predicate Extends(db: Database, later: Database) {
    db.raws <= later.raws && db.observations <= later.observations
  }

  lemma StoreKeepsJobs(db: Database, job: nat, quotes: seq<Quote>)
    ensures var r := StoreQuotes(db, job, quotes); !r.Raised? ==> r.state.jobs == db.jobs
    decreases |quotes|
  {
    if quotes != [] && StoreQuote(db, job, quotes[0]).Stored? {
      StoreKeepsJobs(StoreQuote(db, job, quotes[0]).state, job, quotes[1..]);
    }
  }

  lemma ObservationAdded(db: Database, raw: nat, included: bool)
    requires raw == |db.raws| - 1
    requires Evidence(db.(raws := db.raws[..raw]))
    requires db.raws[raw] !in db.raws[..raw]
    ensures Evidence(WithObservation(db, raw, included))
  {
    var next := WithObservation(db, raw, included);
    forall i: nat | i < |next.raws|
      ensures HasObservation(next.observations, i)
    {
      if i < raw {
        assert HasObservation(db.observations, i);
        var k :| 0 <= k < |db.observations| && db.observations[k].raw == i;
        assert next.observations[k].raw == i;
      } else {
        assert next.observations[|db.observations|].raw == i;
      }
    }
    forall i, k | 0 <= i < k < |next.raws|
      ensures next.raws[i] != next.raws[k]
    {
      assert next.raws[i] == db.raws[..raw][i];
      if k < raw {
        assert db.raws[..raw][k] == next.raws[k];
      }
    }
  }

  lemma StoreQuoteKeepsEvidence(db: Database, job: nat, quote: Quote)
    requires Evidence(db)
    ensures var r := StoreQuote(db, job, quote); !r.Raised? ==> Evidence(r.state) && Extends(db, r.state)
  {
    if quote.payloadIsObject {
      var (next, raw) := WithRaw(db, job, quote);
      if next == db {
        assert HasObservation(db.observations, raw);
      } else {
        assert next.raws[..raw] == db.raws && db.(raws := next.raws[..raw]) == db;
        assert !HasObservation(next.observations, raw);
        if quote.normalisation != Raises {
          ObservationAdded(next, raw, quote.normalisation.Normalised? && quote.normalisation.included);
        }
      }
    }
  }

  lemma {:induction false} StoreQuotesKeepEvidence(db: Database, job: nat, quotes: seq<Quote>)
    requires Evidence(db)
    ensures var r := StoreQuotes(db, job, quotes); !r.Raised? ==> Evidence(r.state) && Extends(db, r.state)
    decreases |quotes|
  {
    hide Evidence;
    if quotes != [] {
      StoreQuoteKeepsEvidence(db, job, quotes[0]);
      var first := StoreQuote(db, job, quotes[0]);
      if first.Stored? {
        StoreQuotesKeepEvidence(first.state, job, quotes[1..]);
      }
    }
  }

  // ---------------------------------------------------------------------------------------------
  // Every committed state of an execution

  /** What every execution of job `j` keeps of the state it started from. */
  ghost predicate Keeps(db: Database, later: Database, j: nat, s: Settings) {
    && Evidence(later) && Extends(db, later)
    && |later.jobs| == |db.jobs| && j < |db.jobs|
    && (forall k :: 0 <= k < |db.jobs| && k != j ==> later.jobs[k] == db.jobs[k])
    && db.jobs[j].attempts <= later.jobs[j].attempts
    && (later.jobs[j].attempts > db.jobs[j].attempts ==> later.jobs[j].attempts <= MaxAttempts(s))
    && later.jobs[j].linked == db.jobs[j].linked
    && (later.jobs[j].status == SKIPPED ==> db.jobs[j].status == SKIPPED)
  }

  ghost predicate AllKeep(db: Database, events: seq<Event>, j: nat, s: Settings) {
    forall i :: 0 <= i < |events| && events[i].Committed? ==> Keeps(db, events[i].state, j, s)
  }

  lemma KeepsTransitive(a: Database, b: Database, c: Database, j: nat, s: Settings)
    requires Keeps(a, b, j, s) && Keeps(b, c, j, s)
    ensures Keeps(a, c, j, s)
  {
    hide Evidence;
  }

  lemma AllKeepShift(a: Database, b: Database, events: seq<Event>, j: nat, s: Settings)
    requires Keeps(a, b, j, s) && AllKeep(b, events, j, s)
    ensures AllKeep(a, events, j, s)
  {
    forall i | 0 <= i < |events| && events[i].Committed?
      ensures Keeps(a, events[i].state, j, s)
    {
      KeepsTransitive(a, b, events[i].state, j, s);
    }
  }

  lemma AttemptKeeps(db: Database, j: nat, s: Settings, outcome: AdapterOutcome)
    requires j < |db.jobs| && Evidence(db)
    ensures Keeps(db, AttemptOnce(db, j, outcome).state, j, s)
  {
    if outcome.Quotes? && outcome.quotes != [] {
      StoreKeepsJobs(db, j, outcome.quotes);
      StoreQuotesKeepEvidence(db, j, outcome.quotes);
    }
    hide StoreQuotes, StoreQuote;
  }

  lemma {:induction false} LoopKeeps(db: Database, j: nat, s: Settings, adapter: nat -> AdapterOutcome)
    requires j < |db.jobs| && db.jobs[j].attempts < MaxAttempts(s) && Evidence(db)
    ensures AllKeep(db, Loop(db, j, s, adapter), j, s)
    decreases MaxAttempts(s) - db.jobs[j].attempts
  {
    var counted := Counted(db, j);
    var n := counted.jobs[j].attempts;
    var result := AttemptOnce(counted, j, adapter(n));
    assert Keeps(db, counted, j, s);
    AttemptKeeps(counted, j, s, adapter(n));
    KeepsTransitive(db, counted, result.state, j, s);
    if result.failure.Some? {
      var code := result.failure.value;
      if Retries(s, n, code) {
        LoopKeeps(result.state, j, s, adapter);
        AllKeepShift(db, result.state, Loop(result.state, j, s, adapter), j, s);
      } else {
        assert Keeps(result.state, Failed(result.state, j, code), j, s);
        KeepsTransitive(db, result.state, Failed(result.state, j, code), j, s);
      }
    }
    hide Keeps, AttemptOnce, Sleep;
  }

  lemma ExecuteKeeps(db: Database, j: nat, s: Settings, adapter: nat -> AdapterOutcome)
    requires j < |db.jobs| && Evidence(db)
    ensures AllKeep(db, Execute(db, j, s, adapter), j, s)
  {
    if db.jobs[j].linked {
      var started := Started(db, j);
      assert Keeps(db, started, j, s);
      if started.jobs[j].attempts >= MaxAttempts(s) {
        assert Keeps(db, Failed(started, j, UNKNOWN_ERROR), j, s);
      } else {
        LoopKeeps(started, j, s, adapter);
        AllKeepShift(db, started, Loop(started, j, s, adapter), j, s);
      }
      hide Loop, Keeps;
    }
  }

  /** Whatever prefix of an execution survives a crash, the durable state has lost no evidence,
      pairs every raw quote with one observation, and stays within the attempt budget. */
  lemma {:induction false} CrashKeeps(db: Database, events: seq<Event>, j: nat, s: Settings)
    requires j < |db.jobs| && Evidence(db) && AllKeep(db, events, j, s)
    ensures Keeps(db, Durable(db, events), j, s)
    decreases |events|
  {
    if events != [] && !events[|events| - 1].Committed? {
      CrashKeeps(db, events[..|events| - 1], j, s);
    }
  }

  // ---------------------------------------------------------------------------------------------
  // Execution always ends the job

  lemma {:induction false} DurableAppend(db: Database, first: seq<Event>, second: seq<Event>)
    ensures Durable(db, first + second) == Durable(Durable(db, first), second)
    ensures CountAttempts(first + second) == CountAttempts(first) + CountAttempts(second)
    decreases |second|
  {
    var all := first + second;
    if second == [] {
      assert all == first;
    } else {
      assert all[..|all| - 1] == first + second[..|second| - 1];
      DurableAppend(db, first, second[..|second| - 1]);
    }
  }

  predicate Terminal(status: JobStatus) {
    status == SUCCEEDED || status == FAILED
  }

  /** An attempt that is not repeated ends with a commit that settles the job. */
  lemma LastAttempt(db: Database, j: nat, s: Settings, adapter: nat -> AdapterOutcome)
    requires j < |db.jobs| && db.jobs[j].attempts < MaxAttempts(s)
    requires var counted := Counted(db, j);
             var n := counted.jobs[j].attempts;
             var failure := AttemptOnce(counted, j, adapter(n)).failure;
             failure.None? || !Retries(s, n, failure.value)
    ensures var events := Loop(db, j, s, adapter);
            && events != [] && events[|events| - 1].Committed?
            && j < |events[|events| - 1].state.jobs| && Terminal(events[|events| - 1].state.jobs[j].status)
  {
    hide Retries, StoreQuotes, Sleep;
  }

  /** One that is repeated: the events before the sleep, and the state the loop goes on from. */
  lemma RepeatedAttempt(db: Database, j: nat, s: Settings, adapter: nat -> AdapterOutcome)
    returns (head: seq<Event>, next: Database)
    requires j < |db.jobs| && db.jobs[j].attempts < MaxAttempts(s)
    requires var counted := Counted(db, j);
             var n := counted.jobs[j].attempts;
             var failure := AttemptOnce(counted, j, adapter(n)).failure;
             failure.Some? && Retries(s, n, failure.value)
    ensures |next.jobs| == |db.jobs| && next.jobs[j].attempts == db.jobs[j].attempts + 1 < MaxAttempts(s)
    ensures forall i :: 0 <= i < |head| ==> !head[i].Slept?
    ensures Loop(db, j, s, adapter) == head + Sleep(s, next.jobs[j].attempts) + Loop(next, j, s, adapter)
  {
    var counted := Counted(db, j);
    var result := AttemptOnce(counted, j, adapter(counted.jobs[j].attempts));
    next := result.state;
    head := [Committed(counted), Attempted] + (if result.committed then [Committed(result.state)] else []);
    hide AttemptOnce, Sleep, Failed;
  }

  lemma {:induction false} LoopEnds(db: Database, j: nat, s: Settings, adapter: nat -> AdapterOutcome)
    requires j < |db.jobs| && db.jobs[j].attempts < MaxAttempts(s)
    ensures var end := Durable(db, Loop(db, j, s, adapter)); j < |end.jobs| && Terminal(end.jobs[j].status)
    decreases MaxAttempts(s) - db.jobs[j].attempts
  {
    var counted := Counted(db, j);
    var n := counted.jobs[j].attempts;
    var failure := AttemptOnce(counted, j, adapter(n)).failure;
    hide *;
    if failure.Some? && Retries(s, n, failure.value) {
      var head, next := RepeatedAttempt(db, j, s, adapter);
      LoopEnds(next, j, s, adapter);
      LastIsCommitted(next, j, s, adapter);
      DurableLast(next, Loop(next, j, s, adapter));
      DurableLast(db, Loop(db, j, s, adapter));
    } else {
      LastAttempt(db, j, s, adapter);
      DurableLast(db, Loop(db, j, s, adapter));
    }
  }

  lemma DurableLast(db: Database, events: seq<Event>)
    requires events != [] && events[|events| - 1].Committed?
    ensures Durable(db, events) == events[|events| - 1].state
  {
  }

  lemma {:induction false} LastIsCommitted(db: Database, j: nat, s: Settings, adapter: nat -> AdapterOutcome)
    requires j < |db.jobs| && db.jobs[j].attempts < MaxAttempts(s)
    ensures var events := Loop(db, j, s, adapter);
            |events| >= 3 && events[0].Committed? && events[1] == Attempted && events[|events| - 1].Committed?
    decreases MaxAttempts(s) - db.jobs[j].attempts
  {
    var counted := Counted(db, j);
    var result := AttemptOnce(counted, j, adapter(counted.jobs[j].attempts));
    if result.failure.Some? && Retries(s, counted.jobs[j].attempts, result.failure.value) {
      LastIsCommitted(result.state, j, s, adapter);
    }
    hide AttemptOnce, Sleep, Failed;
  }

  /** Every `execute` that returns leaves its job SUCCEEDED or FAILED: the loop never falls through. */
  lemma ExecuteEnds(db: Database, j: nat, s: Settings, adapter: nat -> AdapterOutcome)
    requires j < |db.jobs|
    ensures var end := Durable(db, Execute(db, j, s, adapter)); j < |end.jobs| && Terminal(end.jobs[j].status)
  {
    if db.jobs[j].linked {
      var started := Started(db, j);
      if started.jobs[j].attempts < MaxAttempts(s) {
        LoopEnds(started, j, s, adapter);
        DurableAppend(db, [Committed(started)], Loop(started, j, s, adapter));
      }
    }
  }

  // ---------------------------------------------------------------------------------------------
  // The retry budget, across crashes

  function AttemptsOf(db: Database, j: nat): nat {
    if j < |db.jobs| then db.jobs[j].attempts else 0
  }

  /** At every crash point, each attempt made so far has already been counted durably. */
  ghost predicate Paid(db: Database, events: seq<Event>, j: nat) {
    forall cut: nat :: cut <= |events| ==>
      CountAttempts(events[..cut]) + AttemptsOf(db, j) <= AttemptsOf(Durable(db, events[..cut]), j)
  }

  lemma PaidAppend(db: Database, first: seq<Event>, second: seq<Event>, j: nat)
    requires Paid(db, first, j) && Paid(Durable(db, first), second, j)
    ensures Paid(db, first + second, j)
  {
    var all := first + second;
    assert first[..|first|] == first;
    forall cut: nat | cut <= |all|
      ensures CountAttempts(all[..cut]) + AttemptsOf(db, j) <= AttemptsOf(Durable(db, all[..cut]), j)
    {
      if cut <= |first| {
        assert all[..cut] == first[..cut];
      } else {
        assert all[..cut] == first + second[..cut - |first|];
        DurableAppend(db, first, second[..cut - |first|]);
      }
    }
  }

  /** Events without an attempt cost nothing as long as no commit lowers the count. */
  lemma PaidQuiet(db: Database, event: Event, j: nat)
    requires !event.Attempted?
    requires event.Committed? ==> AttemptsOf(event.state, j) >= AttemptsOf(db, j)
    ensures Paid(db, [event], j)
  {
    forall cut: nat | cut <= 1
      ensures CountAttempts([event][..cut]) + AttemptsOf(db, j) <= AttemptsOf(Durable(db, [event][..cut]), j)
    {
      assert [event][..0] == [] && [event][..1] == [event];
    }
  }

  lemma PaidAttempt(db: Database, j: nat)
    requires j < |db.jobs|
    ensures Paid(db, [Committed(Counted(db, j)), Attempted], j)
    ensures Durable(db, [Committed(Counted(db, j)), Attempted]) == Counted(db, j)
    ensures CountAttempts([Committed(Counted(db, j)), Attempted]) == 1
  {
    var pair := [Committed(Counted(db, j)), Attempted];
    assert pair == [pair[0]] + [pair[1]];
    DurableAppend(db, [pair[0]], [pair[1]]);
    assert CountAttempts([pair[0]]) == 0 && CountAttempts([pair[1]]) == 1;
    assert Durable(db, [pair[0]]) == Counted(db, j) == Durable(Counted(db, j), [pair[1]]);
    forall cut: nat | cut <= 2
      ensures CountAttempts(pair[..cut]) + AttemptsOf(db, j) <= AttemptsOf(Durable(db, pair[..cut]), j)
    {
      assert pair[..0] == [] && pair[..1] == [pair[0]] && pair[..2] == pair;
    }
  }

  lemma {:induction false} LoopPaid(db: Database, j: nat, s: Settings, adapter: nat -> AdapterOutcome)
    requires j < |db.jobs| && db.jobs[j].attempts < MaxAttempts(s)
    ensures Paid(db, Loop(db, j, s, adapter), j)
    decreases MaxAttempts(s) - db.jobs[j].attempts
  {
    var counted := Counted(db, j);
    var n := counted.jobs[j].attempts;
    var result := AttemptOnce(counted, j, adapter(n));
    var head := [Committed(counted), Attempted];
    PaidAttempt(db, j);
    AttemptKeepsCount(counted, j, adapter(n));
    if result.committed {
      PaidQuiet(counted, Committed(result.state), j);
      PaidAppend(db, head, [Committed(result.state)], j);
      head := head + [Committed(result.state)];
    } else {
      assert head + [] == head;
    }
    assert Durable(db, head) == result.state;
    if result.failure.Some? {
      var code := result.failure.value;
      if Retries(s, n, code) {
        LoopPaid(result.state, j, s, adapter);
        PaidSleep(result.state, s, n, j);
        PaidAppend(db, head, Sleep(s, n), j);
        DurableAppend(db, head, Sleep(s, n));
        PaidAppend(db, head + Sleep(s, n), Loop(result.state, j, s, adapter), j);
      } else {
        PaidQuiet(result.state, Committed(Failed(result.state, j, code)), j);
        PaidAppend(db, head, [Committed(Failed(result.state, j, code))], j);
      }
    }
    hide Paid, Durable, AttemptOnce, Failed, Sleep;
  }

  lemma PaidSleep(db: Database, s: Settings, n: nat, j: nat)
    requires n > 0
    ensures Paid(db, Sleep(s, n), j) && Durable(db, Sleep(s, n)) == db
  {
    if Sleep(s, n) != [] {
      PaidQuiet(db, Sleep(s, n)[0], j);
    }
  }

  lemma AttemptKeepsCount(db: Database, j: nat, outcome: AdapterOutcome)
    requires j < |db.jobs|
    ensures AttemptsOf(AttemptOnce(db, j, outcome).state, j) == AttemptsOf(db, j)
  {
    if outcome.Quotes? {
      StoreKeepsJobs(db, j, outcome.quotes);
    }
  }

  lemma ExecutePaid(db: Database, j: nat, s: Settings, adapter: nat -> AdapterOutcome)
    requires j < |db.jobs|
    ensures Paid(db, Execute(db, j, s, adapter), j)
  {
    if !db.jobs[j].linked {
      PaidQuiet(db, Committed(Failed(db, j, INVALID_RESPONSE)), j);
    } else {
      var started := Started(db, j);
      PaidQuiet(db, Committed(started), j);
      if started.jobs[j].attempts >= MaxAttempts(s) {
        PaidQuiet(started, Committed(Failed(started, j, UNKNOWN_ERROR)), j);
        PaidAppend(db, [Committed(started)], [Committed(Failed(started, j, UNKNOWN_ERROR))], j);
      } else {
        LoopPaid(started, j, s, adapter);
        PaidAppend(db, [Committed(started)], Loop(started, j, s, adapter), j);
      }
    }
  }

  /** One execution, killed after `cut` events; a cut past the end means it ran to completion. */
  datatype Execution = Execution(adapter: nat -> AdapterOutcome, cut: nat)

  function Survived(db: Database, j: nat, s: Settings, execution: Execution): seq<Event>
    requires j < |db.jobs|
  {
    var events := Execute(db, j, s, execution.adapter);
    if execution.cut <= |events| then events[..execution.cut] else events
  }

  lemma SurvivedKeeps(db: Database, j: nat, s: Settings, execution: Execution)
    requires j < |db.jobs| && Evidence(db)
    ensures var events := Survived(db, j, s, execution);
            && Keeps(db, Durable(db, events), j, s)
            && CountAttempts(events) + AttemptsOf(db, j) <= AttemptsOf(Durable(db, events), j)
  {
    ExecuteKeeps(db, j, s, execution.adapter);
    ExecutePaid(db, j, s, execution.adapter);
    var all := Execute(db, j, s, execution.adapter);
    assert all[..|all|] == all;
    hide Execute;
    CrashKeeps(db, Survived(db, j, s, execution), j, s);
  }

  /** The state after any number of executions of one job, each possibly killed. */
  ghost predicate Restarts(db: Database, j: nat, s: Settings, executions: seq<Execution>, end: Database, attempts: nat)
    decreases |executions|
  {
    if executions == [] then end == db && attempts == 0
    else
      && j < |db.jobs|
      && var events := Survived(db, j, s, executions[0]);
      && attempts >= CountAttempts(events)
      && Restarts(Durable(db, events), j, s, executions[1..], end, attempts - CountAttempts(events))
  }

  /** Over all executions of a job, however often the process is killed, the adapter is called at
      most `max_retries + 1` times, and every durable state is sound evidence. */
  lemma {:induction false} RetryBudget(db: Database, j: nat, s: Settings, executions: seq<Execution>,
                                       end: Database, attempts: nat)
    requires j < |db.jobs| && Evidence(db) && Restarts(db, j, s, executions, end, attempts)
    ensures Keeps(db, end, j, s)
    ensures attempts > 0 ==> AttemptsOf(db, j) + attempts <= AttemptsOf(end, j) <= MaxAttempts(s)
    decreases |executions|
  {
    if executions != [] {
      var events := Survived(db, j, s, executions[0]);
      var next := Durable(db, events);
      SurvivedKeeps(db, j, s, executions[0]);
      RetryBudget(next, j, s, executions[1..], end, attempts - CountAttempts(events));
      KeepsTransitive(db, next, end, j, s);
    }
  }

  // ---------------------------------------------------------------------------------------------
  // Backoff

  lemma DelayGrows(s: Settings, n: nat)
    requires ValidSettings(s) && n > 0
    ensures 0.0 <= Delay(s, n) <= Delay(s, n + 1) <= s.backoffMax
  {
    var p := PowerOfTwo(n - 1);
    assert PowerOfTwo(n) == 2.0 * p;
    assert s.backoff * p >= 0.0;
    assert s.backoff * (2.0 * p) == 2.0 * (s.backoff * p);
  }

  /** Sleeps start no shorter than `least`, never shrink, are capped, and are followed by an attempt. */
  ghost predicate BackoffSound(events: seq<Event>, least: real, s: Settings) {
    && (forall i :: 0 <= i < |events| && events[i].Slept? ==>
          && least <= events[i].seconds <= s.backoffMax
          && i + 2 < |events| && events[i + 2] == Attempted)
    && (forall i, k :: 0 <= i < k < |events| && events[i].Slept? && events[k].Slept? ==>
          events[i].seconds <= events[k].seconds)
  }

  lemma LastHasNoSleep(db: Database, j: nat, s: Settings, adapter: nat -> AdapterOutcome, least: real)
    requires j < |db.jobs| && db.jobs[j].attempts < MaxAttempts(s)
    requires var counted := Counted(db, j);
             var n := counted.jobs[j].attempts;
             var failure := AttemptOnce(counted, j, adapter(n)).failure;
             failure.None? || !Retries(s, n, failure.value)
    ensures BackoffSound(Loop(db, j, s, adapter), least, s)
  {
    hide Retries, AttemptOnce, Sleep, Failed;
  }

  lemma SleepIs(s: Settings, attempts: nat)
    requires attempts > 0
    ensures Sleep(s, attempts) == [] || Sleep(s, attempts) == [Slept(Delay(s, attempts))]
  {
    hide Delay;
  }

  lemma {:induction false} LoopBackoff(db: Database, j: nat, s: Settings, adapter: nat -> AdapterOutcome)
    requires ValidSettings(s) && j < |db.jobs| && db.jobs[j].attempts < MaxAttempts(s)
    ensures BackoffSound(Loop(db, j, s, adapter), Delay(s, db.jobs[j].attempts + 1), s)
    decreases MaxAttempts(s) - db.jobs[j].attempts
  {
    var counted := Counted(db, j);
    var n := counted.jobs[j].attempts;
    var failure := AttemptOnce(counted, j, adapter(n)).failure;
    assert n == db.jobs[j].attempts + 1;
    hide *;
    if failure.Some? && Retries(s, n, failure.value) {
      var head, next := RepeatedAttempt(db, j, s, adapter);
      LoopBackoff(next, j, s, adapter);
      LastIsCommitted(next, j, s, adapter);
      DelayGrows(s, n);
      SleepIs(s, n);
      BackoffAppend(head, Sleep(s, n), Loop(next, j, s, adapter), Delay(s, n), Delay(s, n + 1), s);
    } else {
      LastHasNoSleep(db, j, s, adapter, Delay(s, n));
    }
  }

  lemma BackoffAppend(head: seq<Event>, sleep: seq<Event>, rest: seq<Event>, least: real, next: real, s: Settings)
    requires forall i :: 0 <= i < |head| ==> !head[i].Slept?
    requires sleep == [] || sleep == [Slept(least)]
    requires least <= next && least <= s.backoffMax
    requires BackoffSound(rest, next, s) && |rest| >= 2 && rest[1] == Attempted
    ensures BackoffSound(head + sleep + rest, least, s)
  {
    var all, k := head + sleep + rest, |head| + |sleep|;
    assert forall i :: k <= i < |all| ==> all[i] == rest[i - k];
    assert forall i :: 0 <= i < |head| ==> all[i] == head[i];
  }

  /** In any execution backoff delays are non-decreasing, at most the cap, and never follow the last attempt. */
  lemma ExecuteBackoff(db: Database, j: nat, s: Settings, adapter: nat -> AdapterOutcome)
    requires ValidSettings(s) && j < |db.jobs|
    ensures BackoffSound(Execute(db, j, s, adapter), 0.0, s)
  {
    if db.jobs[j].linked && db.jobs[j].attempts < MaxAttempts(s) {
      var started := Started(db, j);
      LoopBackoff(started, j, s, adapter);
      DelayGrows(s, db.jobs[j].attempts + 1);
      LastIsCommitted(started, j, s, adapter);
      hide Loop, Delay;
      BackoffAppend([Committed(started)], [], Loop(started, j, s, adapter), 0.0, Delay(s, db.jobs[j].attempts + 1), s);
      assert [Committed(started)] + [] + Loop(started, j, s, adapter)
               == [Committed(started)] + Loop(started, j, s, adapter);
    }
  }

  /** The events of one attempt up to the handling of its failure. */
  ghost function Head(db: Database, j: nat, adapter: nat -> AdapterOutcome): seq<Event>
    requires j < |db.jobs|
  {
    var r := AttemptOnce(Counted(db, j), j, adapter(db.jobs[j].attempts + 1));
    [Committed(Counted(db, j)), Attempted] + (if r.committed then [Committed(r.state)] else [])
  }

  lemma LoopUnfolds(db: Database, j: nat, s: Settings, adapter: nat -> AdapterOutcome)
    requires j < |db.jobs| && db.jobs[j].attempts < MaxAttempts(s)
    ensures var n := db.jobs[j].attempts + 1;
            var r := AttemptOnce(Counted(db, j), j, adapter(n));
            Loop(db, j, s, adapter) ==
              if r.failure.None? then Head(db, j, adapter)
              else if Retries(s, n, r.failure.value)
              then Head(db, j, adapter) + Sleep(s, n) + Loop(r.state, j, s, adapter)
              else Head(db, j, adapter) + [Committed(Failed(r.state, j, r.failure.value))]
  {
  }

  lemma HeadDurable(db: Database, j: nat, adapter: nat -> AdapterOutcome)
    requires j < |db.jobs|
    ensures Durable(db, Head(db, j, adapter)) ==
            AttemptOnce(Counted(db, j), j, adapter(db.jobs[j].attempts + 1)).state
    ensures CountAttempts(Head(db, j, adapter)) == 1
  {
    hide AttemptOnce;
    PaidAttempt(db, j);
    var r := AttemptOnce(Counted(db, j), j, adapter(db.jobs[j].attempts + 1));
    var pair := [Committed(Counted(db, j)), Attempted];
    if r.committed {
      DurableLast(Counted(db, j), [Committed(r.state)]);
      QuietCount(Committed(r.state));
      DurableAppend(db, pair, [Committed(r.state)]);
    } else {
      assert Head(db, j, adapter) == pair;
    }
  }

  lemma QuietCount(event: Event)
    requires !event.Attempted?
    ensures CountAttempts([event]) == 0
  {
    assert [event][..0] == [];
  }

  /** A further attempt is made exactly after a transient failure with budget left; otherwise this is
      the last one. */
  lemma RetriedExactlyWhenTransient(db: Database, j: nat, s: Settings, adapter: nat -> AdapterOutcome)
    requires j < |db.jobs| && db.jobs[j].attempts < MaxAttempts(s)
    ensures var n := db.jobs[j].attempts + 1;
            var failure := AttemptOnce(Counted(db, j), j, adapter(n)).failure;
            CountAttempts(Loop(db, j, s, adapter)) > 1 <==>
            && n <= s.maxRetries && failure.Some?
            && (failure.value == SOURCE_UNAVAILABLE || failure.value == RATE_LIMITED
                || failure.value == NETWORK_TIMEOUT || failure.value == UNKNOWN_ERROR)
  {
    var attempt := AttemptOnce(Counted(db, j), j, adapter(db.jobs[j].attempts + 1));
    RetriesMeans(s, db.jobs[j].attempts + 1, attempt.failure);
    hide Loop, AttemptOnce, Head, Sleep, Retries;
    var n, head := db.jobs[j].attempts + 1, Head(db, j, adapter);
    var result := AttemptOnce(Counted(db, j), j, adapter(n));
    LoopUnfolds(db, j, s, adapter);
    HeadDurable(db, j, adapter);
    if result.failure.Some? {
      var code := result.failure.value;
      if Retries(s, n, code) {
        RetriesHasBudget(s, n, code);
        var rest := Loop(result.state, j, s, adapter);
        LastIsCommitted(result.state, j, s, adapter);
        AttemptIsCounted(rest, 1);
        DurableAppend(db, head, Sleep(s, n));
        DurableAppend(db, head + Sleep(s, n), rest);
      } else {
        DurableAppend(db, head, [Committed(Failed(result.state, j, code))]);
      }
    }
  }

  lemma RetriesMeans(s: Settings, n: nat, failure: Option<FailureCode>)
    ensures failure.Some? ==>
              (Retries(s, n, failure.value) <==>
               n <= s.maxRetries
               && (failure.value == SOURCE_UNAVAILABLE || failure.value == RATE_LIMITED
                   || failure.value == NETWORK_TIMEOUT || failure.value == UNKNOWN_ERROR))
  {
  }

  lemma RetriesHasBudget(s: Settings, n: nat, code: FailureCode)
    requires Retries(s, n, code)
    ensures n < MaxAttempts(s)
  {
  }

  lemma {:induction false} AttemptIsCounted(events: seq<Event>, i: nat)
    requires i < |events| && events[i] == Attempted
    ensures CountAttempts(events) >= 1
    decreases |events|
  {
    if i < |events| - 1 {
      AttemptIsCounted(events[..|events| - 1], i);
    }
  }
}
