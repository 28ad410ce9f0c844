/** How a collection job ends (`services/worker.py`), said of the answers the adapter gave: what each
    answer leads to, which answers are asked for again, and what the job then holds. */
module JobOutcomes {
  import opened Options
  import opened Worker

  // ---------------------------------------------------------------------------------------------
  // What one answer leads to

  /** The job already holds the quote, or an earlier quote of the same response was the same. */
  ghost predicate Repeated(raws: seq<RawQuote>, j: nat, quotes: seq<Quote>, i: nat)
    requires i < |quotes|
  {
    RawQuote(j, quotes[i].hash) in raws || exists k :: 0 <= k < i && quotes[k].hash == quotes[i].hash
  }

  /** Quote `i` gets an observation, or has one. */
  ghost predicate Acceptable(raws: seq<RawQuote>, j: nat, quotes: seq<Quote>, i: nat)
    requires i < |quotes|
  {
    quotes[i].payloadIsObject && (quotes[i].normalisation.Normalised? || Repeated(raws, j, quotes, i))
  }

  ghost predicate AcceptableUpTo(raws: seq<RawQuote>, j: nat, quotes: seq<Quote>, n: nat) {
    n <= |quotes| && forall i: nat :: i < n ==> Acceptable(raws, j, quotes, i)
  }

  ghost predicate AllAcceptable(raws: seq<RawQuote>, j: nat, quotes: seq<Quote>) {
    AcceptableUpTo(raws, j, quotes, |quotes|)
  }

  /** Quote `i` is the first that is not. */
  ghost predicate StopsAt(raws: seq<RawQuote>, j: nat, quotes: seq<Quote>, i: nat) {
    i < |quotes| && !Acceptable(raws, j, quotes, i) && AcceptableUpTo(raws, j, quotes, i)
  }

  /** The failure codes of the adapter's answers. */
  ghost predicate FailsWith(raws: seq<RawQuote>, j: nat, answer: AdapterOutcome, code: FailureCode) {
    match answer
    case TimedOut => code == NETWORK_TIMEOUT
    case AdapterError(given) => code == given
    case BadValue => code == INVALID_RESPONSE
    case Unexpected => code == UNKNOWN_ERROR
    case Quotes(quotes) => exists i: nat :: StopsAt(raws, j, quotes, i) && code == StopCode(quotes[i])
  }

  ghost function StopCode(quote: Quote): FailureCode {
    if quote.payloadIsObject && quote.normalisation == Raises then UNKNOWN_ERROR else INVALID_RESPONSE
  }

  ghost predicate Succeeds(raws: seq<RawQuote>, j: nat, answer: AdapterOutcome) {
    answer.Quotes? && AllAcceptable(raws, j, answer.quotes)
  }

  /** The failures another attempt may cure. */
  ghost predicate Passing(code: FailureCode) {
    code == SOURCE_UNAVAILABLE || code == RATE_LIMITED || code == NETWORK_TIMEOUT || code == UNKNOWN_ERROR
  }

  /** The index of an observation of this quote with this inclusion. */
  ghost predicate ObservedAs(db: Database, row: RawQuote, included: bool) {
    exists k :: 0 <= k < |db.observations| && db.observations[k].raw < |db.raws|
                && db.raws[db.observations[k].raw] == row && db.observations[k].included == included
  }

  /** `later` holds what `before` held, every one of these quotes under job `j`, and nothing else; a new
      quote is included exactly when normalising it said so. */
  ghost predicate Holds(before: Database, later: Database, j: nat, quotes: seq<Quote>) {
    && Evidence(later) && Extends(before, later)
    && (forall i :: 0 <= i < |quotes| ==> RawQuote(j, quotes[i].hash) in later.raws)
    && (forall r :: r in later.raws && r !in before.raws ==>
          r.job == j && exists i :: 0 <= i < |quotes| && quotes[i].hash == r.hash)
    && (forall i: nat :: i < |quotes| && !Repeated(before.raws, j, quotes, i) ==>
          ObservedAs(later, RawQuote(j, quotes[i].hash), Included(quotes[i])))
  }

  ghost predicate Included(quote: Quote) {
    quote.normalisation.Normalised? && quote.normalisation.included
  }

  ghost predicate SameEvidence(a: Database, b: Database) {
    a.raws == b.raws && a.observations == b.observations
  }

  /** The answer is one whose quotes up to a rejected one are kept. */
  ghost predicate Rejects(raws: seq<RawQuote>, j: nat, answer: AdapterOutcome, i: nat) {
    && answer.Quotes? && StopsAt(raws, j, answer.quotes, i)
    && answer.quotes[i].payloadIsObject && answer.quotes[i].normalisation.NotNormalisable?
  }

  /** What a failing answer leaves: nothing, but for the quotes up to a rejected one. */
  ghost predicate FailureKeeps(before: Database, later: Database, j: nat, answer: AdapterOutcome) {
    && (forall i: nat :: Rejects(before.raws, j, answer, i) ==> Holds(before, later, j, answer.quotes[..i + 1]))
    && ((forall i: nat :: !Rejects(before.raws, j, answer, i)) ==> SameEvidence(before, later))
  }

  /** The job after its last answer, which was its `attempts`-th. */
  ghost predicate EndsWith(before: Database, later: Database, j: nat, s: Settings, answer: AdapterOutcome)
    requires j < |later.jobs|
  {
    var job := later.jobs[j];
    if Succeeds(before.raws, j, answer) then
      && job.status == SUCCEEDED && Holds(before, later, j, answer.quotes)
      && job.failure == (if answer.quotes == [] then Some(NO_RESULTS) else None)
      && (answer.quotes == [] ==> SameEvidence(before, later))
    else
      && job.status == FAILED && job.failure.Some? && FailsWith(before.raws, j, answer, job.failure.value)
      && (Passing(job.failure.value) ==> job.attempts == s.maxRetries + 1)
      && FailureKeeps(before, later, j, answer)
  }

  /** The attempts of one execution: every answer but the last failed in passing, and the last one
      decided how the job ended. */
  ghost predicate AttemptsEnd(before: Database, later: Database, j: nat, s: Settings, adapter: nat -> AdapterOutcome)
    requires j < |before.jobs| && j < |later.jobs|
  {
    var first, last := before.jobs[j].attempts, later.jobs[j].attempts;
    && first < last <= s.maxRetries + 1
    && (forall n: nat :: first < n < last ==> FailsInPassing(before.raws, j, adapter(n)))
    && EndsWith(before, later, j, s, adapter(last))
  }

  ghost predicate FailsInPassing(raws: seq<RawQuote>, j: nat, answer: AdapterOutcome) {
    exists code :: FailsWith(raws, j, answer, code) && Passing(code)
  }

  /** How an execution ends. */
  ghost predicate Ended(before: Database, later: Database, j: nat, s: Settings, adapter: nat -> AdapterOutcome) {
    && j < |before.jobs| && |later.jobs| == |before.jobs|
    && (forall k :: 0 <= k < |before.jobs| && k != j ==> later.jobs[k] == before.jobs[k])
    && var job := before.jobs[j];
    if !job.linked then
      SameEvidence(before, later) && later.jobs[j] == job.(status := FAILED, failure := Some(INVALID_RESPONSE))
    else if job.attempts > s.maxRetries then
      SameEvidence(before, later) && later.jobs[j] == job.(status := FAILED, failure := Some(UNKNOWN_ERROR))
    else AttemptsEnd(before, later, j, s, adapter)
  }

  // ---------------------------------------------------------------------------------------------
  // Storing one quote

  lemma SameHolds(before: Database, later: Database, j: nat, quote: Quote)
    requires Evidence(before) && SameEvidence(before, later) && RawQuote(j, quote.hash) in before.raws
    ensures Holds(before, later, j, [quote])
  {
    SameIsEvidence(before, later);
    hide Evidence, ObservedAs;
    assert Repeated(before.raws, j, [quote], 0);
  }

  lemma SameIsEvidence(before: Database, later: Database)
    requires Evidence(before) && SameEvidence(before, later)
    ensures Evidence(later) && Extends(before, later)
  {
  }

  lemma NewHolds(before: Database, later: Database, j: nat, quote: Quote)
    requires Evidence(later) && later.raws == before.raws + [RawQuote(j, quote.hash)]
    requires later.observations == before.observations + [Observation(|before.raws|, Included(quote))]
    ensures Holds(before, later, j, [quote])
  {
    hide Evidence, Included;
    var row := RawQuote(j, quote.hash);
    assert later.raws[|before.raws|] == row;
    assert ObservedAs(later, row, Included(quote)) by {
      assert later.observations[|before.observations|] == Observation(|before.raws|, Included(quote));
    }
    assert forall r :: r in later.raws ==> r in before.raws || r == row;
    assert [quote][0].hash == row.hash;
  }

  /** A quote is stored, stored with a rejection, or raises, exactly as its payload, the evidence held, and
      its normalisation say. */
  lemma StoreOne(db: Database, j: nat, quote: Quote)
    requires Evidence(db)
    ensures var r, held := StoreQuote(db, j, quote), RawQuote(j, quote.hash) in db.raws;
            if !quote.payloadIsObject then r == Raised(INVALID_RESPONSE)
            else if held || quote.normalisation.Normalised? then r.Stored? && Holds(db, r.state, j, [quote])
            else if quote.normalisation == Raises then r == Raised(UNKNOWN_ERROR)
            else r.StoredRejection? && Holds(db, r.state, j, [quote])
  {
    if quote.payloadIsObject {
      StoreQuoteKeepsEvidence(db, j, quote);
      if RawQuote(j, quote.hash) in db.raws {
        StoreHeld(db, j, quote);
        SameHolds(db, db, j, quote);
      } else {
        StoreNew(db, j, quote);
        hide Evidence, Holds, StoreQuote;
        if quote.normalisation != Raises {
          NewHolds(db, StoreQuote(db, j, quote).state, j, quote);
        }
      }
    }
    hide *;
  }

  lemma StoreHeld(db: Database, j: nat, quote: Quote)
    requires Evidence(db) && quote.payloadIsObject && RawQuote(j, quote.hash) in db.raws
    ensures StoreQuote(db, j, quote) == Stored(db)
  {
    hide HasObservation;
  }

  lemma StoreNew(db: Database, j: nat, quote: Quote)
    requires Evidence(db) && quote.payloadIsObject && RawQuote(j, quote.hash) !in db.raws
    ensures var r, n := StoreQuote(db, j, quote), |db.raws|;
            var next := db.(raws := db.raws + [RawQuote(j, quote.hash)],
                            observations := db.observations + [Observation(n, Included(quote))]);
            match quote.normalisation
            case Normalised(_) => r == Stored(next)
            case NotNormalisable => r == StoredRejection(next)
            case Raises => r == Raised(UNKNOWN_ERROR)
  {
    assert !HasObservation(db.observations, |db.raws|);
    hide HasObservation, Evidence;
  }

  // ---------------------------------------------------------------------------------------------
  // Storing a response

  lemma HoldsCompose(a: Database, b: Database, c: Database, j: nat, quotes: seq<Quote>)
    requires quotes != [] && Holds(a, b, j, [quotes[0]]) && Holds(b, c, j, quotes[1..])
    ensures Holds(a, c, j, quotes)
  {
    var rest := quotes[1..];
    hide Evidence, ObservedAs, Included;
    assert forall i :: 0 < i < |quotes| ==> quotes[i] == rest[i - 1];
    forall i | 0 <= i < |quotes|
      ensures RawQuote(j, quotes[i].hash) in c.raws
    {
      if i == 0 {
        assert [quotes[0]][0] == quotes[0];
      } else {
        assert RawQuote(j, rest[i - 1].hash) in c.raws;
      }
    }
    forall r | r in c.raws && r !in a.raws
      ensures r.job == j && exists i :: 0 <= i < |quotes| && quotes[i].hash == r.hash
    {
      if r in b.raws {
        assert quotes[0].hash == r.hash;
      } else {
        var i :| 0 <= i < |rest| && rest[i].hash == r.hash;
        assert quotes[i + 1].hash == r.hash;
      }
    }
    forall i: nat | i < |quotes| && !Repeated(a.raws, j, quotes, i)
      ensures ObservedAs(c, RawQuote(j, quotes[i].hash), Included(quotes[i]))
    {
      if i == 0 {
        assert !Repeated(a.raws, j, [quotes[0]], 0);
        ObservedLater(b, c, RawQuote(j, quotes[0].hash), Included(quotes[0]));
      } else {
        RepeatedShift(a, b, j, quotes, i);
      }
    }
  }

  lemma ObservedLater(b: Database, c: Database, row: RawQuote, included: bool)
    requires Extends(b, c) && ObservedAs(b, row, included)
    ensures ObservedAs(c, row, included)
  {
    var k :| 0 <= k < |b.observations| && b.observations[k].raw < |b.raws|
             && b.raws[b.observations[k].raw] == row && b.observations[k].included == included;
    assert c.observations[k] == b.observations[k] && c.raws[c.observations[k].raw] == row;
  }

  /** Once the first quote is stored, the rest stand as they stood behind it. */
  lemma RepeatedShift(a: Database, b: Database, j: nat, quotes: seq<Quote>, i: nat)
    requires 0 < i < |quotes| && Holds(a, b, j, [quotes[0]])
    ensures Repeated(a.raws, j, quotes, i) <==> Repeated(b.raws, j, quotes[1..], i - 1)
  {
    var rest, row := quotes[1..], RawQuote(j, quotes[i].hash);
    assert RawQuote(j, [quotes[0]][0].hash) in b.raws;
    assert rest[i - 1] == quotes[i];
    hide Evidence, ObservedAs;
    if Repeated(a.raws, j, quotes, i) {
      if row !in b.raws {
        var k :| 0 <= k < i && quotes[k].hash == quotes[i].hash;
        assert k > 0 && rest[k - 1].hash == rest[i - 1].hash;
      }
    }
    if Repeated(b.raws, j, rest, i - 1) {
      if row in b.raws {
        assert row in a.raws || quotes[0].hash == quotes[i].hash;
      } else {
        var k :| 0 <= k < i - 1 && rest[k].hash == rest[i - 1].hash;
        assert quotes[k + 1].hash == quotes[i].hash;
      }
    }
  }

  lemma AcceptableShift(a: Database, b: Database, j: nat, quotes: seq<Quote>, i: nat)
    requires 0 < i < |quotes| && Holds(a, b, j, [quotes[0]])
    ensures Acceptable(a.raws, j, quotes, i) <==> Acceptable(b.raws, j, quotes[1..], i - 1)
  {
    RepeatedShift(a, b, j, quotes, i);
    hide Repeated, Holds;
  }

  lemma FirstAcceptable(raws: seq<RawQuote>, j: nat, quotes: seq<Quote>)
    requires quotes != []
    ensures Acceptable(raws, j, quotes, 0) <==>
            quotes[0].payloadIsObject
            && (quotes[0].normalisation.Normalised? || RawQuote(j, quotes[0].hash) in raws)
  {
  }

  lemma AllShift(a: Database, b: Database, j: nat, quotes: seq<Quote>)
    requires quotes != [] && Holds(a, b, j, [quotes[0]]) && AllAcceptable(a.raws, j, quotes)
    ensures AllAcceptable(b.raws, j, quotes[1..])
  {
    hide Holds, Acceptable;
    forall i: nat | i < |quotes[1..]|
      ensures Acceptable(b.raws, j, quotes[1..], i)
    {
      AcceptableShift(a, b, j, quotes, i + 1);
    }
  }

  lemma StopShift(a: Database, b: Database, j: nat, quotes: seq<Quote>, i: nat)
    requires 0 < i && StopsAt(a.raws, j, quotes, i) && Holds(a, b, j, [quotes[0]])
    ensures StopsAt(b.raws, j, quotes[1..], i - 1)
  {
    AcceptableShift(a, b, j, quotes, i);
    hide Holds, Acceptable;
    forall k: nat | k < i - 1 && k < |quotes[1..]|
      ensures Acceptable(b.raws, j, quotes[1..], k)
    {
      AcceptableShift(a, b, j, quotes, k + 1);
    }
  }

  lemma StoreStep(db: Database, j: nat, quotes: seq<Quote>)
    requires quotes != []
    ensures var first := StoreQuote(db, j, quotes[0]);
            StoreQuotes(db, j, quotes) == if first.Stored? then StoreQuotes(first.state, j, quotes[1..]) else first
  {
    hide StoreQuote;
  }

  lemma NothingHeld(db: Database, j: nat)
    requires Evidence(db)
    ensures StoreQuotes(db, j, []) == Stored(db) && Holds(db, db, j, [])
  {
    hide Evidence;
  }

  /** A response of acceptable quotes is stored whole. */
  lemma {:induction false} StoreAll(db: Database, j: nat, quotes: seq<Quote>)
    requires Evidence(db) && AllAcceptable(db.raws, j, quotes)
    ensures var r := StoreQuotes(db, j, quotes); r.Stored? && Holds(db, r.state, j, quotes)
    decreases |quotes|
  {
    if quotes == [] {
      NothingHeld(db, j);
    } else {
      var next := FirstStored(db, j, quotes);
      AllShift(db, next, j, quotes);
      StoreAll(next, j, quotes[1..]);
      HoldsCompose(db, next, StoreQuotes(next, j, quotes[1..]).state, j, quotes);
    }
    hide *;
  }

  lemma FirstStored(db: Database, j: nat, quotes: seq<Quote>) returns (next: Database)
    requires quotes != [] && Evidence(db) && Acceptable(db.raws, j, quotes, 0)
    ensures Evidence(next) && Holds(db, next, j, [quotes[0]])
    ensures StoreQuotes(db, j, quotes) == StoreQuotes(next, j, quotes[1..])
  {
    FirstAcceptable(db.raws, j, quotes);
    StoreOne(db, j, quotes[0]);
    StoreStep(db, j, quotes);
    hide StoreQuote, StoreQuotes, Evidence, Acceptable;
    next := StoreQuote(db, j, quotes[0]).state;
  }

  /** Any other response is left at its first unacceptable quote. */
  lemma {:induction false} StoreStops(db: Database, j: nat, quotes: seq<Quote>, i: nat)
    requires Evidence(db) && StopsAt(db.raws, j, quotes, i)
    ensures var r := StoreQuotes(db, j, quotes);
            if quotes[i].payloadIsObject && quotes[i].normalisation.NotNormalisable?
            then r.StoredRejection? && Holds(db, r.state, j, quotes[..i + 1])
            else r == Raised(StopCode(quotes[i]))
    decreases i
  {
    StopIndex(db.raws, j, quotes, i);
    hide *;
    if i == 0 {
      StopsFirst(db, j, quotes);
    } else {
      var rest := quotes[1..];
      var next := FirstStored(db, j, quotes);
      StopShift(db, next, j, quotes, i);
      StoreStops(next, j, rest, i - 1);
      if quotes[i].payloadIsObject && quotes[i].normalisation.NotNormalisable? {
        HeadHolds(db, next, StoreQuotes(next, j, rest).state, j, quotes, i);
      }
    }
  }

  lemma HeadHolds(a: Database, b: Database, c: Database, j: nat, quotes: seq<Quote>, i: nat)
    requires 0 < i < |quotes| && Holds(a, b, j, [quotes[0]]) && Holds(b, c, j, quotes[1..][..i])
    ensures Holds(a, c, j, quotes[..i + 1])
  {
    hide *;
    var head := quotes[..i + 1];
    assert head[0] == quotes[0] && head[1..] == quotes[1..][..i];
    HoldsCompose(a, b, c, j, head);
  }

  lemma StopsFirst(db: Database, j: nat, quotes: seq<Quote>)
    requires Evidence(db) && StopsAt(db.raws, j, quotes, 0)
    ensures var r := StoreQuotes(db, j, quotes);
            if quotes[0].payloadIsObject && quotes[0].normalisation.NotNormalisable?
            then r.StoredRejection? && Holds(db, r.state, j, quotes[..1])
            else r == Raised(StopCode(quotes[0]))
  {
    FirstAcceptable(db.raws, j, quotes);
    StoreOne(db, j, quotes[0]);
    StoreStep(db, j, quotes);
    assert quotes[..1] == [quotes[0]];
    hide StoreQuote, StoreQuotes, Evidence, Acceptable, Holds;
  }

  // ---------------------------------------------------------------------------------------------
  // One attempt

  lemma {:induction false} SomeStop(raws: seq<RawQuote>, j: nat, quotes: seq<Quote>, n: nat) returns (i: nat)
    requires AcceptableUpTo(raws, j, quotes, n) && !AllAcceptable(raws, j, quotes)
    ensures StopsAt(raws, j, quotes, i)
    decreases |quotes| - n
  {
    hide Acceptable;
    if Acceptable(raws, j, quotes, n) {
      i := SomeStop(raws, j, quotes, n + 1);
    } else {
      i := n;
    }
  }

  /** A response stops at one place. */
  lemma OneStop(raws: seq<RawQuote>, j: nat, quotes: seq<Quote>, i: nat, k: nat)
    requires StopsAt(raws, j, quotes, i) && StopsAt(raws, j, quotes, k)
    ensures i == k
  {
    hide Acceptable;
  }

  lemma StopExcludesAll(raws: seq<RawQuote>, j: nat, quotes: seq<Quote>, i: nat)
    requires StopsAt(raws, j, quotes, i)
    ensures !AllAcceptable(raws, j, quotes)
  {
    hide Acceptable;
  }

  /** What one attempt reports and leaves, as the answer says. */
  ghost predicate Reported(before: Database, later: Database, failure: Option<FailureCode>, j: nat,
                           answer: AdapterOutcome)
    requires j < |before.jobs|
  {
    if Succeeds(before.raws, j, answer) then
      && failure == None && Holds(before, later, j, answer.quotes)
      && (answer.quotes == [] ==> SameEvidence(before, later))
      && later.jobs == before.jobs[j := before.jobs[j].(
           status := SUCCEEDED, failure := if answer.quotes == [] then Some(NO_RESULTS) else None)]
    else
      && failure.Some? && FailsWith(before.raws, j, answer, failure.value)
      && later.jobs == before.jobs
      && FailureKeeps(before, later, j, answer)
      && (Passing(failure.value) ==> later == before)
  }

  lemma HoldsWithJob(before: Database, later: Database, jobs: seq<Job>, j: nat, quotes: seq<Quote>)
    requires Holds(before, later, j, quotes)
    ensures Holds(before, later.(jobs := jobs), j, quotes)
  {
    hide Repeated;
    var next := later.(jobs := jobs);
    forall i: nat | i < |quotes| && !Repeated(before.raws, j, quotes, i)
      ensures ObservedAs(next, RawQuote(j, quotes[i].hash), Included(quotes[i]))
    {
      assert ObservedAs(later, RawQuote(j, quotes[i].hash), Included(quotes[i]));
    }
  }

  lemma EmptyReported(db: Database, j: nat)
    requires j < |db.jobs| && Evidence(db)
    ensures var r := AttemptOnce(db, j, Quotes([])); Reported(db, r.state, r.failure, j, Quotes([]))
  {
    NothingHeld(db, j);
    var r := AttemptOnce(db, j, Quotes([]));
    HoldsWithJob(db, db, r.state.jobs, j, []);
    assert AllAcceptable(db.raws, j, []);
    assert r.state == db.(jobs := r.state.jobs);
    hide Holds, Evidence;
  }

  lemma StoredReported(db: Database, j: nat, quotes: seq<Quote>)
    requires j < |db.jobs| && Evidence(db) && quotes != [] && AllAcceptable(db.raws, j, quotes)
    ensures var r := AttemptOnce(db, j, Quotes(quotes)); Reported(db, r.state, r.failure, j, Quotes(quotes))
  {
    StoreAll(db, j, quotes);
    StoreKeepsJobs(db, j, quotes);
    var stored := StoreQuotes(db, j, quotes).state;
    var r := AttemptOnce(db, j, Quotes(quotes));
    HoldsWithJob(db, stored, r.state.jobs, j, quotes);
    assert r.state == stored.(jobs := r.state.jobs);
    hide Holds, Evidence, StoreQuotes, AllAcceptable;
  }

  lemma RejectsOnlyAt(raws: seq<RawQuote>, j: nat, quotes: seq<Quote>, i: nat)
    requires StopsAt(raws, j, quotes, i)
    ensures forall k: nat :: Rejects(raws, j, Quotes(quotes), k) <==>
                             k == i && quotes[i].payloadIsObject && quotes[i].normalisation.NotNormalisable?
  {
    forall k: nat | Rejects(raws, j, Quotes(quotes), k)
      ensures k == i
    {
      OneStop(raws, j, quotes, i, k);
    }
    hide StopsAt;
  }

  /** An attempt that got quotes, by what storing them came to. */
  lemma AttemptStores(db: Database, j: nat, quotes: seq<Quote>)
    requires j < |db.jobs| && quotes != []
    ensures StoreQuotes(db, j, quotes).StoredRejection? ==>
              && AttemptOnce(db, j, Quotes(quotes))
                   == Attempt(StoreQuotes(db, j, quotes).state, true, Some(INVALID_RESPONSE))
              && StoreQuotes(db, j, quotes).state.jobs == db.jobs
    ensures StoreQuotes(db, j, quotes).Raised? ==>
              AttemptOnce(db, j, Quotes(quotes)) == Attempt(db, false, Some(StoreQuotes(db, j, quotes).code))
  {
    StoreKeepsJobs(db, j, quotes);
    hide StoreQuotes;
  }

  lemma StoppedReported(db: Database, j: nat, quotes: seq<Quote>, i: nat)
    requires j < |db.jobs| && Evidence(db) && StopsAt(db.raws, j, quotes, i)
    ensures var r := AttemptOnce(db, j, Quotes(quotes)); Reported(db, r.state, r.failure, j, Quotes(quotes))
  {
    StoreStops(db, j, quotes, i);
    StopExcludesAll(db.raws, j, quotes, i);
    RejectsOnlyAt(db.raws, j, quotes, i);
    StopIndex(db.raws, j, quotes, i);
    AttemptStores(db, j, quotes);
    hide *;
    var r := AttemptOnce(db, j, Quotes(quotes));
    StopFails(db.raws, j, quotes, i);
    if quotes[i].payloadIsObject && quotes[i].normalisation.NotNormalisable? {
      RejectionKeeps(db, r.state, j, quotes, i);
    } else {
      OthersKeepNothing(db, j, quotes);
    }
    FailedReported(db, r, j, Quotes(quotes));
  }

  lemma StopFails(raws: seq<RawQuote>, j: nat, quotes: seq<Quote>, i: nat)
    requires StopsAt(raws, j, quotes, i) && i < |quotes|
    ensures FailsWith(raws, j, Quotes(quotes), StopCode(quotes[i])) && !Succeeds(raws, j, Quotes(quotes))
    ensures quotes[i].payloadIsObject && quotes[i].normalisation.NotNormalisable? ==>
              StopCode(quotes[i]) == INVALID_RESPONSE && !Passing(INVALID_RESPONSE)
  {
    StopExcludesAll(raws, j, quotes, i);
    hide StopsAt, AllAcceptable;
  }

  lemma RejectionKeeps(before: Database, later: Database, j: nat, quotes: seq<Quote>, i: nat)
    requires i < |quotes| && Holds(before, later, j, quotes[..i + 1])
    requires forall k: nat :: Rejects(before.raws, j, Quotes(quotes), k) <==> k == i
    ensures FailureKeeps(before, later, j, Quotes(quotes))
  {
    hide Rejects, Holds;
    assert Rejects(before.raws, j, Quotes(quotes), i);
    assert forall k: nat :: Rejects(before.raws, j, Quotes(quotes), k) ==> quotes[..k + 1] == quotes[..i + 1];
  }

  lemma OthersKeepNothing(db: Database, j: nat, quotes: seq<Quote>)
    requires forall k: nat :: !Rejects(db.raws, j, Quotes(quotes), k)
    ensures FailureKeeps(db, db, j, Quotes(quotes))
  {
    hide Rejects, Holds;
  }

  lemma FailedReported(before: Database, r: Attempt, j: nat, answer: AdapterOutcome)
    requires j < |before.jobs| && !Succeeds(before.raws, j, answer)
    requires r.failure.Some? && FailsWith(before.raws, j, answer, r.failure.value)
    requires r.state.jobs == before.jobs && FailureKeeps(before, r.state, j, answer)
    requires Passing(r.failure.value) ==> r.state == before
    ensures Reported(before, r.state, r.failure, j, answer)
  {
    hide Succeeds, FailsWith, FailureKeeps, Passing;
  }

  lemma StopIndex(raws: seq<RawQuote>, j: nat, quotes: seq<Quote>, i: nat)
    requires StopsAt(raws, j, quotes, i)
    ensures i < |quotes| && (i > 0 ==> Acceptable(raws, j, quotes, 0))
  {
    hide Acceptable;
  }

  lemma OtherReported(db: Database, j: nat, answer: AdapterOutcome)
    requires j < |db.jobs| && !answer.Quotes?
    ensures var r := AttemptOnce(db, j, answer); Reported(db, r.state, r.failure, j, answer)
  {
    hide Holds, Evidence;
  }

  lemma AttemptReported(db: Database, j: nat, answer: AdapterOutcome)
    requires j < |db.jobs| && Evidence(db)
    ensures var r := AttemptOnce(db, j, answer); Reported(db, r.state, r.failure, j, answer)
  {
    hide *;
    if !answer.Quotes? {
      OtherReported(db, j, answer);
    } else if answer.quotes == [] {
      EmptyReported(db, j);
      assert answer == Quotes([]);
    } else if AllAcceptable(db.raws, j, answer.quotes) {
      StoredReported(db, j, answer.quotes);
    } else {
      NoneYet(db.raws, j, answer.quotes);
      var i := SomeStop(db.raws, j, answer.quotes, 0);
      StoppedReported(db, j, answer.quotes, i);
    }
  }

  lemma NoneYet(raws: seq<RawQuote>, j: nat, quotes: seq<Quote>)
    ensures AcceptableUpTo(raws, j, quotes, 0)
  {
  }

  // ---------------------------------------------------------------------------------------------
  // The whole execution

  lemma RetriesPassing(s: Settings, n: nat, code: FailureCode)
    ensures Retries(s, n, code) <==> Passing(code) && n <= s.maxRetries
  {
  }

  lemma HoldsFromSame(a: Database, b: Database, later: Database, j: nat, quotes: seq<Quote>)
    requires SameEvidence(a, b) && Holds(a, later, j, quotes)
    ensures Holds(b, later, j, quotes)
  {
    hide Repeated, ObservedAs, Evidence;
  }

  lemma KeepsFromSame(a: Database, b: Database, later: Database, j: nat, answer: AdapterOutcome)
    requires SameEvidence(a, b) && FailureKeeps(a, later, j, answer)
    ensures FailureKeeps(b, later, j, answer)
  {
    assert a.raws == b.raws;
    assert forall i: nat :: Rejects(a.raws, j, answer, i) ==> answer.Quotes? && i + 1 <= |answer.quotes|;
    hide Holds, Rejects;
    forall i: nat | Rejects(b.raws, j, answer, i)
      ensures Holds(b, later, j, answer.quotes[..i + 1])
    {
      HoldsFromSame(a, b, later, j, answer.quotes[..i + 1]);
    }
  }

  lemma EndsFromSame(a: Database, b: Database, later: Database, j: nat, s: Settings, answer: AdapterOutcome)
    requires SameEvidence(a, b) && j < |later.jobs| && EndsWith(a, later, j, s, answer)
    ensures EndsWith(b, later, j, s, answer)
  {
    assert a.raws == b.raws;
    if Succeeds(a.raws, j, answer) {
      HoldsFromSame(a, b, later, j, answer.quotes);
    } else {
      KeepsFromSame(a, b, later, j, answer);
    }
    hide Holds, FailureKeeps, Succeeds, FailsWith, Passing;
  }

  lemma FailureEnds(before: Database, r: Attempt, j: nat, s: Settings, answer: AdapterOutcome)
    requires j < |before.jobs| && Reported(before, r.state, r.failure, j, answer) && r.failure.Some?
    requires !Retries(s, before.jobs[j].attempts, r.failure.value) && before.jobs[j].attempts <= s.maxRetries + 1
    ensures |r.state.jobs| == |before.jobs|
    ensures EndsWith(before, Failed(r.state, j, r.failure.value), j, s, answer)
    ensures Failed(r.state, j, r.failure.value).jobs
              == before.jobs[j := before.jobs[j].(status := FAILED, failure := Some(r.failure.value))]
  {
    var end := Failed(r.state, j, r.failure.value);
    RetriesPassing(s, before.jobs[j].attempts, r.failure.value);
    KeepsWithJob(before, r.state, end.jobs, j, answer);
    assert end == r.state.(jobs := end.jobs);
    hide Holds, FailureKeeps, Succeeds, FailsWith, Passing, Retries;
  }

  lemma KeepsWithJob(before: Database, later: Database, jobs: seq<Job>, j: nat, answer: AdapterOutcome)
    requires FailureKeeps(before, later, j, answer)
    ensures FailureKeeps(before, later.(jobs := jobs), j, answer)
  {
    assert forall i: nat :: Rejects(before.raws, j, answer, i) ==> answer.Quotes? && i + 1 <= |answer.quotes|;
    hide Holds, Rejects;
    forall i: nat | Rejects(before.raws, j, answer, i)
      ensures Holds(before, later.(jobs := jobs), j, answer.quotes[..i + 1])
    {
      HoldsWithJob(before, later, jobs, j, answer.quotes[..i + 1]);
    }
  }

  lemma SuccessEnds(before: Database, r: Attempt, j: nat, s: Settings, answer: AdapterOutcome)
    requires j < |before.jobs| && Reported(before, r.state, r.failure, j, answer) && r.failure.None?
    ensures |r.state.jobs| == |before.jobs| && r.state.jobs[j].attempts == before.jobs[j].attempts
    ensures forall k :: 0 <= k < |before.jobs| && k != j ==> r.state.jobs[k] == before.jobs[k]
    ensures EndsWith(before, r.state, j, s, answer)
  {
    hide Holds, FailureKeeps, Succeeds, FailsWith, Passing;
  }

  /** One more answer that failed in passing, before the ones the rest of the loop meets. */
  lemma OneMorePasses(db: Database, counted: Database, end: Database, j: nat, s: Settings,
                      adapter: nat -> AdapterOutcome)
    requires j < |db.jobs| && j < |counted.jobs| && j < |end.jobs|
    requires SameEvidence(counted, db) && counted.jobs[j].attempts == db.jobs[j].attempts + 1
    requires FailsInPassing(db.raws, j, adapter(counted.jobs[j].attempts))
    requires AttemptsEnd(counted, end, j, s, adapter)
    ensures AttemptsEnd(db, end, j, s, adapter)
  {
    assert counted.raws == db.raws;
    EndsFromSame(counted, db, end, j, s, adapter(end.jobs[j].attempts));
    hide EndsWith, FailsInPassing;
  }

  lemma OnlyAttempt(db: Database, counted: Database, end: Database, j: nat, s: Settings,
                    adapter: nat -> AdapterOutcome)
    requires j < |db.jobs| && j < |end.jobs| && SameEvidence(counted, db)
    requires end.jobs[j].attempts == db.jobs[j].attempts + 1 <= s.maxRetries + 1
    requires EndsWith(counted, end, j, s, adapter(end.jobs[j].attempts))
    ensures AttemptsEnd(db, end, j, s, adapter)
  {
    EndsFromSame(counted, db, end, j, s, adapter(end.jobs[j].attempts));
    hide EndsWith, FailsInPassing;
  }

  lemma CountedIs(db: Database, j: nat)
    requires j < |db.jobs| && Evidence(db)
    ensures var counted := Counted(db, j);
            && Evidence(counted) && SameEvidence(counted, db)
            && counted.jobs == db.jobs[j := db.jobs[j].(attempts := db.jobs[j].attempts + 1)]
  {
    SameIsEvidence(db, Counted(db, j));
    hide Evidence;
  }

  lemma ReportedPassing(before: Database, r: Attempt, j: nat, s: Settings, n: nat, answer: AdapterOutcome)
    requires j < |before.jobs| && Reported(before, r.state, r.failure, j, answer)
    requires r.failure.Some? && Retries(s, n, r.failure.value)
    ensures r.state == before && FailsInPassing(before.raws, j, answer) && n <= s.maxRetries
  {
    RetriesPassing(s, n, r.failure.value);
    hide Holds, FailureKeeps, Succeeds, FailsWith, Passing, Retries;
  }

  /** The state the loop ends in, by what the attempt it starts with reports. */
  lemma LoopDurable(db: Database, j: nat, s: Settings, adapter: nat -> AdapterOutcome)
    requires j < |db.jobs| && db.jobs[j].attempts < MaxAttempts(s)
    ensures var n := db.jobs[j].attempts + 1;
            var r := AttemptOnce(Counted(db, j), j, adapter(n));
            Durable(db, Loop(db, j, s, adapter))
              == if r.failure.None? then r.state
                 else if Retries(s, n, r.failure.value) then Durable(r.state, Loop(r.state, j, s, adapter))
                 else Failed(r.state, j, r.failure.value)
  {
    var n, head := db.jobs[j].attempts + 1, Head(db, j, adapter);
    var r := AttemptOnce(Counted(db, j), j, adapter(n));
    LoopUnfolds(db, j, s, adapter);
    HeadDurable(db, j, adapter);
    hide *;
    if r.failure.Some? {
      if Retries(s, n, r.failure.value) {
        var rest := Loop(r.state, j, s, adapter);
        PaidSleep(r.state, s, n, j);
        DurableAppend(db, head, Sleep(s, n));
        DurableAppend(db, head + Sleep(s, n), rest);
      } else {
        var failed := [Committed(Failed(r.state, j, r.failure.value))];
        DurableAppend(db, head, failed);
        DurableLast(r.state, failed);
      }
    }
  }

  lemma {:induction false} LoopOutcome(db: Database, j: nat, s: Settings, adapter: nat -> AdapterOutcome)
    requires j < |db.jobs| && db.jobs[j].attempts <= s.maxRetries && Evidence(db)
    ensures var end := Durable(db, Loop(db, j, s, adapter));
            && |end.jobs| == |db.jobs| && AttemptsEnd(db, end, j, s, adapter)
            && forall k :: 0 <= k < |db.jobs| && k != j ==> end.jobs[k] == db.jobs[k]
    decreases s.maxRetries - db.jobs[j].attempts
  {
    var n, counted := db.jobs[j].attempts + 1, Counted(db, j);
    var r := AttemptOnce(counted, j, adapter(n));
    CountedIs(db, j);
    AttemptReported(counted, j, adapter(n));
    LoopDurable(db, j, s, adapter);
    assert counted.raws == db.raws;
    hide *;
    var end := Durable(db, Loop(db, j, s, adapter));
    if r.failure.None? {
      SuccessEnds(counted, r, j, s, adapter(n));
      OnlyAttempt(db, counted, end, j, s, adapter);
    } else if Retries(s, n, r.failure.value) {
      ReportedPassing(counted, r, j, s, n, adapter(n));
      LoopOutcome(counted, j, s, adapter);
      OneMorePasses(db, counted, end, j, s, adapter);
    } else {
      FailureEnds(counted, r, j, s, adapter(n));
      OnlyAttempt(db, counted, end, j, s, adapter);
    }
  }

  /** The events of a job once it is RUNNING. */
  function AfterStart(db: Database, j: nat, s: Settings, adapter: nat -> AdapterOutcome): seq<Event>
    requires j < |db.jobs|
  {
    if db.jobs[j].attempts >= MaxAttempts(s) then [Committed(Failed(db, j, UNKNOWN_ERROR))]
    else Loop(db, j, s, adapter)
  }

  lemma AfterStartIs(db: Database, j: nat, s: Settings, adapter: nat -> AdapterOutcome)
    requires j < |db.jobs|
    ensures var events := AfterStart(db, j, s, adapter);
            if db.jobs[j].attempts >= MaxAttempts(s) then
              && events == [Committed(Failed(db, j, UNKNOWN_ERROR))]
              && Durable(db, events) == Failed(db, j, UNKNOWN_ERROR)
            else events == Loop(db, j, s, adapter)
  {
    hide Loop;
  }

  /** The two ways through `execute`. */
  lemma ExecuteIs(db: Database, j: nat, s: Settings, adapter: nat -> AdapterOutcome)
    requires j < |db.jobs|
    ensures var events, started := Execute(db, j, s, adapter), Started(db, j);
            if !db.jobs[j].linked then
              && events == [Committed(Failed(db, j, INVALID_RESPONSE))]
              && Durable(db, events) == Failed(db, j, INVALID_RESPONSE)
            else
              && events == [Committed(started)] + AfterStart(started, j, s, adapter)
              && Durable(db, events) == Durable(started, AfterStart(started, j, s, adapter))
  {
    var started := Started(db, j);
    hide Loop;
    DurableAppend(db, [Committed(started)], AfterStart(started, j, s, adapter));
  }

  /** How any execution ends: a job without its route or source, or without attempts left, fails as such
      without asking.  Any other is asked again exactly while the answers fail in passing and attempts are
      left, and its last answer decides: quotes that can all be kept make it SUCCEEDED, holding every one of
      them under the job, with NO_RESULTS for an empty list; any other answer makes it FAILED with that
      answer's code. */
  lemma ExecuteOutcome(db: Database, j: nat, s: Settings, adapter: nat -> AdapterOutcome)
    requires j < |db.jobs| && Evidence(db)
    ensures Ended(db, Durable(db, Execute(db, j, s, adapter)), j, s, adapter)
  {
    hide AttemptsEnd, Loop, Evidence;
    if db.jobs[j].linked {
      var started := Started(db, j);
      if db.jobs[j].attempts <= s.maxRetries {
        SameIsEvidence(db, started);
        LoopOutcome(started, j, s, adapter);
        DurableAppend(db, [Committed(started)], Loop(started, j, s, adapter));
        AttemptsFromStarted(db, started, Durable(started, Loop(started, j, s, adapter)), j, s, adapter);
      }
    }
  }

  lemma AttemptsFromStarted(db: Database, started: Database, end: Database, j: nat, s: Settings,
                            adapter: nat -> AdapterOutcome)
    requires j < |db.jobs| && j < |started.jobs| && j < |end.jobs|
    requires SameEvidence(started, db) && started.jobs[j].attempts == db.jobs[j].attempts
    requires AttemptsEnd(started, end, j, s, adapter)
    ensures AttemptsEnd(db, end, j, s, adapter)
  {
    assert started.raws == db.raws;
    EndsFromSame(started, db, end, j, s, adapter(end.jobs[j].attempts));
    hide EndsWith, FailsInPassing;
  }

  // ---------------------------------------------------------------------------------------------
  // How often the adapter is asked

  lemma SleepQuiet(s: Settings, n: nat)
    requires n > 0
    ensures CountAttempts(Sleep(s, n)) == 0
  {
    SleepIs(s, n);
    QuietCount(Slept(Delay(s, n)));
    hide Sleep, Delay;
  }

  lemma LoopCount(db: Database, j: nat, s: Settings, adapter: nat -> AdapterOutcome)
    requires j < |db.jobs| && db.jobs[j].attempts < MaxAttempts(s)
    ensures var n := db.jobs[j].attempts + 1;
            var r := AttemptOnce(Counted(db, j), j, adapter(n));
            CountAttempts(Loop(db, j, s, adapter))
              == if r.failure.Some? && Retries(s, n, r.failure.value)
                 then 1 + CountAttempts(Loop(r.state, j, s, adapter)) else 1
  {
    var n, head := db.jobs[j].attempts + 1, Head(db, j, adapter);
    var r := AttemptOnce(Counted(db, j), j, adapter(n));
    LoopUnfolds(db, j, s, adapter);
    HeadDurable(db, j, adapter);
    hide *;
    if r.failure.Some? {
      if Retries(s, n, r.failure.value) {
        var rest := Loop(r.state, j, s, adapter);
        SleepQuiet(s, n);
        DurableAppend(db, head, Sleep(s, n));
        DurableAppend(db, head + Sleep(s, n), rest);
      } else {
        var failed := Committed(Failed(r.state, j, r.failure.value));
        DurableAppend(db, head, [failed]);
        QuietCount(failed);
      }
    }
  }

  lemma {:induction false} LoopAsks(db: Database, j: nat, s: Settings, adapter: nat -> AdapterOutcome)
    requires j < |db.jobs| && db.jobs[j].attempts <= s.maxRetries && Evidence(db)
    ensures var end := Durable(db, Loop(db, j, s, adapter));
            && |end.jobs| == |db.jobs|
            && CountAttempts(Loop(db, j, s, adapter)) == end.jobs[j].attempts - db.jobs[j].attempts
    decreases s.maxRetries - db.jobs[j].attempts
  {
    var n, counted := db.jobs[j].attempts + 1, Counted(db, j);
    var r := AttemptOnce(counted, j, adapter(n));
    CountedIs(db, j);
    AttemptReported(counted, j, adapter(n));
    LoopDurable(db, j, s, adapter);
    LoopCount(db, j, s, adapter);
    hide *;
    if r.failure.None? {
      SuccessEnds(counted, r, j, s, adapter(n));
    } else if Retries(s, n, r.failure.value) {
      ReportedPassing(counted, r, j, s, n, adapter(n));
      LoopAsks(counted, j, s, adapter);
    } else {
      FailureEnds(counted, r, j, s, adapter(n));
    }
  }

  /** An execution asks the adapter once for every attempt it counts. */
  lemma ExecuteAsks(db: Database, j: nat, s: Settings, adapter: nat -> AdapterOutcome)
    requires j < |db.jobs| && Evidence(db)
    ensures var events := Execute(db, j, s, adapter);
            var end := Durable(db, events);
            |end.jobs| == |db.jobs| && CountAttempts(events) == end.jobs[j].attempts - db.jobs[j].attempts
  {
    if !db.jobs[j].linked {
      QuietCount(Committed(Failed(db, j, INVALID_RESPONSE)));
    } else {
      var started := Started(db, j);
      SameIsEvidence(db, started);
      QuietCount(Committed(started));
      hide Evidence, Loop;
      if db.jobs[j].attempts <= s.maxRetries {
        LoopAsks(started, j, s, adapter);
        DurableAppend(db, [Committed(started)], Loop(started, j, s, adapter));
      } else {
        var failed := Committed(Failed(started, j, UNKNOWN_ERROR));
        QuietCount(failed);
        DurableAppend(db, [Committed(started)], [failed]);
      }
    }
  }

  lemma OneCode(raws: seq<RawQuote>, j: nat, answer: AdapterOutcome, a: FailureCode, b: FailureCode)
    requires FailsWith(raws, j, answer, a) && FailsWith(raws, j, answer, b)
    ensures a == b && !Succeeds(raws, j, answer)
  {
    hide Acceptable, StopCode;
    if answer.Quotes? {
      var i: nat :| StopsAt(raws, j, answer.quotes, i) && a == StopCode(answer.quotes[i]);
      var k: nat :| StopsAt(raws, j, answer.quotes, k) && b == StopCode(answer.quotes[k]);
      OneStop(raws, j, answer.quotes, i, k);
      StopExcludesAll(raws, j, answer.quotes, i);
    }
  }

  /** The adapter is asked again exactly after an answer that failed with SOURCE_UNAVAILABLE, RATE_LIMITED,
      NETWORK_TIMEOUT or UNKNOWN_ERROR while attempts are left. */
  lemma AskedAgain(db: Database, j: nat, s: Settings, adapter: nat -> AdapterOutcome)
    requires j < |db.jobs| && db.jobs[j].attempts <= s.maxRetries && Evidence(db)
    ensures var n := db.jobs[j].attempts + 1;
            CountAttempts(Loop(db, j, s, adapter)) > 1 <==>
            n <= s.maxRetries && FailsInPassing(db.raws, j, adapter(n))
  {
    var n, counted := db.jobs[j].attempts + 1, Counted(db, j);
    var r := AttemptOnce(counted, j, adapter(n));
    CountedIs(db, j);
    AttemptReported(counted, j, adapter(n));
    RetriedExactlyWhenTransient(db, j, s, adapter);
    assert counted.raws == db.raws;
    hide *;
    ReportedCode(counted, r, j, adapter(n));
    PassingIs(r.failure);
  }

  lemma PassingIs(failure: Option<FailureCode>)
    ensures failure.Some? ==>
              (Passing(failure.value) <==>
               failure.value == SOURCE_UNAVAILABLE || failure.value == RATE_LIMITED
               || failure.value == NETWORK_TIMEOUT || failure.value == UNKNOWN_ERROR)
  {
  }

  lemma ReportedCode(before: Database, r: Attempt, j: nat, answer: AdapterOutcome)
    requires j < |before.jobs| && Reported(before, r.state, r.failure, j, answer)
    ensures FailsInPassing(before.raws, j, answer) <==> r.failure.Some? && Passing(r.failure.value)
  {
    hide Succeeds, FailsWith, Passing, Holds, FailureKeeps;
    if FailsInPassing(before.raws, j, answer) {
      var code :| FailsWith(before.raws, j, answer, code) && Passing(code);
      OneCode(before.raws, j, answer, code, code);
      OneCode(before.raws, j, answer, code, r.failure.value);
    }
  }

  // ---------------------------------------------------------------------------------------------
  // How long it waits in between

  /** The seconds slept, in order. */
  function Sleeps(events: seq<Event>): seq<real> {
    if events == [] then []
    else
      var last := events[|events| - 1];
      Sleeps(events[..|events| - 1]) + (if last.Slept? then [last.seconds] else [])
  }

  lemma {:induction false} SleepsAppend(a: seq<Event>, b: seq<Event>)
    ensures Sleeps(a + b) == Sleeps(a) + Sleeps(b)
  {
    if b == [] {
      assert a + b == a;
    } else {
      var n := |b| - 1;
      assert (a + b)[..|a + b| - 1] == a + b[..n];
      SleepsAppend(a, b[..n]);
    }
  }

  lemma {:induction false} NoSleeps(events: seq<Event>)
    requires forall i :: 0 <= i < |events| ==> !events[i].Slept?
    ensures Sleeps(events) == []
  {
    if events != [] {
      NoSleeps(events[..|events| - 1]);
    }
  }

  /** The first delay is the backoff, each further one twice the one before it, none above the cap. */
  lemma DelayDoubles(s: Settings, n: nat)
    requires ValidSettings(s) && n > 0
    ensures Delay(s, 1) == if s.backoff <= s.backoffMax then s.backoff else s.backoffMax
    ensures Delay(s, n + 1) == if 2.0 * Delay(s, n) <= s.backoffMax then 2.0 * Delay(s, n) else s.backoffMax
    ensures Delay(s, n) > 0.0 <==> s.backoff > 0.0 && s.backoffMax > 0.0
  {
    var p := PowerOfTwo(n - 1);
    assert PowerOfTwo(0) == 1.0 && PowerOfTwo(n) == 2.0 * p;
    DoubledProduct(s.backoff, p);
    hide PowerOfTwo;
  }

  lemma DoubledProduct(x: real, p: real)
    requires x >= 0.0 && p >= 1.0
    ensures x * (2.0 * p) == 2.0 * (x * p) && (x * p > 0.0 <==> x > 0.0) && x * p >= 0.0
  {
    assert x > 0.0 ==> x * (p - 1.0) >= 0.0;
  }

  lemma SleepsOf(s: Settings, n: nat)
    requires n > 0
    ensures Sleeps(Sleep(s, n)) == if Delay(s, n) > 0.0 then [Delay(s, n)] else []
  {
    hide Delay;
    if Delay(s, n) > 0.0 {
      assert [Slept(Delay(s, n))][..0] == [];
    }
  }

  /** The sleeps of an execution whose attempts are numbered from `first + 1`: one after each but the last. */
  ghost predicate WaitsBetween(sleeps: seq<real>, s: Settings, first: nat, attempts: nat) {
    if s.backoff > 0.0 && s.backoffMax > 0.0 then
      && |sleeps| == (if attempts == 0 then 0 else attempts - 1)
      && forall i: nat :: i < |sleeps| ==> sleeps[i] == Delay(s, first + 1 + i)
    else sleeps == []
  }

  lemma WaitsOnce(s: Settings, first: nat, attempts: nat)
    requires attempts <= 1
    ensures WaitsBetween([], s, first, attempts)
  {
  }

  lemma WaitsMore(s: Settings, first: nat, sleep: seq<real>, rest: seq<real>, attempts: nat)
    requires attempts > 0 && WaitsBetween(rest, s, first + 1, attempts)
    requires sleep == if s.backoff > 0.0 && s.backoffMax > 0.0 then [Delay(s, first + 1)] else []
    ensures WaitsBetween(sleep + rest, s, first, attempts + 1)
  {
    hide Delay;
  }

  lemma HeadSleeps(db: Database, j: nat, adapter: nat -> AdapterOutcome)
    requires j < |db.jobs|
    ensures Sleeps(Head(db, j, adapter)) == []
  {
    NoSleeps(Head(db, j, adapter));
    hide AttemptOnce, Sleeps;
  }

  lemma LoopSleeps(db: Database, j: nat, s: Settings, adapter: nat -> AdapterOutcome)
    requires j < |db.jobs| && db.jobs[j].attempts < MaxAttempts(s)
    ensures var n := db.jobs[j].attempts + 1;
            var r := AttemptOnce(Counted(db, j), j, adapter(n));
            Sleeps(Loop(db, j, s, adapter))
              == if r.failure.Some? && Retries(s, n, r.failure.value)
                 then Sleeps(Sleep(s, n)) + Sleeps(Loop(r.state, j, s, adapter)) else []
  {
    var n, head := db.jobs[j].attempts + 1, Head(db, j, adapter);
    var r := AttemptOnce(Counted(db, j), j, adapter(n));
    LoopUnfolds(db, j, s, adapter);
    HeadSleeps(db, j, adapter);
    hide *;
    if r.failure.Some? {
      if Retries(s, n, r.failure.value) {
        var rest := Loop(r.state, j, s, adapter);
        SleepsAppend(head, Sleep(s, n));
        SleepsAppend(head + Sleep(s, n), rest);
        assert [] + Sleeps(Sleep(s, n)) == Sleeps(Sleep(s, n));
      } else {
        var failed := [Committed(Failed(r.state, j, r.failure.value))];
        SleepsAppend(head, failed);
        NoSleeps(failed);
      }
    }
  }

  ghost predicate Waited(s: Settings, first: nat, events: seq<Event>) {
    WaitsBetween(Sleeps(events), s, first, CountAttempts(events)) && CountAttempts(events) > 0
  }

  lemma WaitedOnce(s: Settings, first: nat, events: seq<Event>)
    requires Sleeps(events) == [] && CountAttempts(events) == 1
    ensures Waited(s, first, events)
  {
    WaitsOnce(s, first, 1);
    hide WaitsBetween, Sleeps, CountAttempts;
  }

  lemma WaitedMore(s: Settings, first: nat, rest: seq<Event>, events: seq<Event>)
    requires ValidSettings(s) && Waited(s, first + 1, rest)
    requires Sleeps(events) == Sleeps(Sleep(s, first + 1)) + Sleeps(rest)
    requires CountAttempts(events) == 1 + CountAttempts(rest)
    ensures Waited(s, first, events)
  {
    SleepsOf(s, first + 1);
    DelayDoubles(s, first + 1);
    hide WaitsBetween, Sleeps, CountAttempts, Delay, Sleep;
    WaitsMore(s, first, Sleeps(Sleep(s, first + 1)), Sleeps(rest), CountAttempts(rest));
  }

  lemma BudgetIs(s: Settings)
    ensures MaxAttempts(s) == s.maxRetries + 1
  {
  }

  lemma {:induction false} LoopWaits(db: Database, j: nat, s: Settings, adapter: nat -> AdapterOutcome)
    requires ValidSettings(s) && j < |db.jobs| && db.jobs[j].attempts <= s.maxRetries && Evidence(db)
    ensures Waited(s, db.jobs[j].attempts, Loop(db, j, s, adapter))
    decreases s.maxRetries - db.jobs[j].attempts
  {
    hide *;
    var n, counted := db.jobs[j].attempts + 1, Counted(db, j);
    CountedIs(db, j);
    if GoesOn(AttemptOnce(counted, j, adapter(n)), s, n) {
      LoopGoesOn(db, j, s, adapter);
      LoopWaits(counted, j, s, adapter);
      WaitedMore(s, n - 1, Loop(counted, j, s, adapter), Loop(db, j, s, adapter));
    } else {
      LoopStops(db, j, s, adapter);
      WaitedOnce(s, n - 1, Loop(db, j, s, adapter));
    }
  }

  predicate GoesOn(r: Attempt, s: Settings, n: nat) {
    r.failure.Some? && Retries(s, n, r.failure.value)
  }

  lemma LoopStops(db: Database, j: nat, s: Settings, adapter: nat -> AdapterOutcome)
    requires j < |db.jobs| && db.jobs[j].attempts <= s.maxRetries
    requires !GoesOn(AttemptOnce(Counted(db, j), j, adapter(db.jobs[j].attempts + 1)), s, db.jobs[j].attempts + 1)
    ensures db.jobs[j].attempts < MaxAttempts(s)
    ensures CountAttempts(Loop(db, j, s, adapter)) == 1 && Sleeps(Loop(db, j, s, adapter)) == []
  {
    BudgetIs(s);
    LoopCount(db, j, s, adapter);
    LoopSleeps(db, j, s, adapter);
    hide AttemptOnce, Loop, Retries, Sleeps, CountAttempts, Sleep;
  }

  lemma LoopGoesOn(db: Database, j: nat, s: Settings, adapter: nat -> AdapterOutcome)
    requires j < |db.jobs| && db.jobs[j].attempts <= s.maxRetries && Evidence(db)
    requires GoesOn(AttemptOnce(Counted(db, j), j, adapter(db.jobs[j].attempts + 1)), s, db.jobs[j].attempts + 1)
    ensures db.jobs[j].attempts < MaxAttempts(s) && db.jobs[j].attempts + 1 <= s.maxRetries
    ensures Counted(db, j).jobs[j].attempts < MaxAttempts(s)
    ensures var events, rest := Loop(db, j, s, adapter), Loop(Counted(db, j), j, s, adapter);
            && CountAttempts(events) == 1 + CountAttempts(rest)
            && Sleeps(events) == Sleeps(Sleep(s, db.jobs[j].attempts + 1)) + Sleeps(rest)
  {
    var n, counted := db.jobs[j].attempts + 1, Counted(db, j);
    var r := AttemptOnce(counted, j, adapter(n));
    CountedIs(db, j);
    AttemptReported(counted, j, adapter(n));
    GoesOnIs(r, s, n);
    hide *;
    BudgetIs(s);
    ReportedPassing(counted, r, j, s, n, adapter(n));
    LoopCount(db, j, s, adapter);
    LoopSleeps(db, j, s, adapter);
  }

  lemma GoesOnIs(r: Attempt, s: Settings, n: nat)
    requires GoesOn(r, s, n)
    ensures r.failure.Some? && Retries(s, n, r.failure.value)
  {
  }

  /** An execution sleeps once between any two of its attempts, for the backoff doubled with each attempt and
      capped, and never otherwise; not at all when the backoff or the cap is zero. */
  lemma ExecuteWaits(db: Database, j: nat, s: Settings, adapter: nat -> AdapterOutcome)
    requires ValidSettings(s) && j < |db.jobs| && Evidence(db)
    ensures var events := Execute(db, j, s, adapter);
            WaitsBetween(Sleeps(events), s, db.jobs[j].attempts, CountAttempts(events))
  {
    var started := Started(db, j);
    ExecuteIs(db, j, s, adapter);
    StartedSame(db, j);
    hide *;
    if !db.jobs[j].linked {
      OnlyCommitted(Failed(db, j, INVALID_RESPONSE));
      WaitsOnce(s, db.jobs[j].attempts, 0);
    } else {
      var rest := AfterStart(started, j, s, adapter);
      OnlyCommitted(started);
      AfterStartWaits(started, j, s, adapter);
      DurableAppend(db, [Committed(started)], rest);
      SleepsAppend([Committed(started)], rest);
      assert [] + Sleeps(rest) == Sleeps(rest);
    }
  }

  lemma StartedSame(db: Database, j: nat)
    requires j < |db.jobs| && Evidence(db)
    ensures Evidence(Started(db, j)) && SameEvidence(Started(db, j), db)
    ensures Started(db, j).jobs[j].attempts == db.jobs[j].attempts
  {
    SameIsEvidence(db, Started(db, j));
    hide Evidence;
  }

  lemma OnlyCommitted(state: Database)
    ensures Sleeps([Committed(state)]) == [] && CountAttempts([Committed(state)]) == 0
  {
    NoSleeps([Committed(state)]);
    QuietCount(Committed(state));
    hide Sleeps, CountAttempts;
  }

  lemma AfterStartWaits(db: Database, j: nat, s: Settings, adapter: nat -> AdapterOutcome)
    requires ValidSettings(s) && j < |db.jobs| && Evidence(db)
    ensures var events := AfterStart(db, j, s, adapter);
            WaitsBetween(Sleeps(events), s, db.jobs[j].attempts, CountAttempts(events))
  {
    BudgetIs(s);
    AfterStartIs(db, j, s, adapter);
    hide *;
    if db.jobs[j].attempts <= s.maxRetries {
      LoopWaits(db, j, s, adapter);
      WaitedIs(s, db.jobs[j].attempts, Loop(db, j, s, adapter));
    } else {
      OnlyCommitted(Failed(db, j, UNKNOWN_ERROR));
      WaitsOnce(s, db.jobs[j].attempts, 0);
    }
  }

  lemma WaitedIs(s: Settings, first: nat, events: seq<Event>)
    requires Waited(s, first, events)
    ensures WaitsBetween(Sleeps(events), s, first, CountAttempts(events))
  {
  }
}
