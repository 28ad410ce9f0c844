/** Serialised rendering in `PermissionedWebAdapter.search` (`collectors/permissioned_web.py`).

    Concurrent calls on one adapter are interleaved steps over the lock, the shared
    `_last_render_finished_at` and a clock that may advance between any two steps.  A step is the
    code between two `await`s; a render may succeed, raise or be cancelled, and a call may also be
    cancelled while it waits for the lock or sleeps.
 */
module CrawlDelay {
  import opened Options

  type RequestId = nat

  datatype Phase =
    | AwaitingLock
    | Sleeping(until: real)
    | Rendering
    | Finalising     // the render has ended; the `finally` block has not run yet
    | Finished

  datatype Request = Request(delay: Option<real>, phase: Phase)

  datatype Render = Render(request: RequestId, delay: Option<real>, start: real, end: Option<real>)

  datatype Adapter = Adapter(
    clock: real,
    holder: Option<RequestId>,
    lastFinished: Option<real>,
    requests: map<RequestId, Request>,
    renders: seq<Render>)

  datatype Step =
    | Tick(now: real)
    | Arrive(id: RequestId, delay: Option<real>)
    | Acquire(id: RequestId)
    | Wake(id: RequestId)
    | EndRender(id: RequestId)          // normal return, exception or cancellation of the render
    | Finalise(id: RequestId)           // `finally`, then leaving `async with`
    | CancelWaiting(id: RequestId)
    | CancelSleep(id: RequestId)

  ghost predicate Init(a: Adapter) {
    a.holder == None && a.lastFinished == None && a.requests == map[] && a.renders == []
  }

  predicate InPhase(a: Adapter, id: RequestId, phase: Phase) {
    id in a.requests && a.requests[id].phase == phase
  }

  function Moved(a: Adapter, id: RequestId, phase: Phase): Adapter
    requires id in a.requests
  {
    a.(requests := a.requests[id := a.requests[id].(phase := phase)])
  }

  /** The call enters `renderer.render`. */
  function Started(a: Adapter, id: RequestId): Adapter
    requires id in a.requests
  {
    Moved(a, id, Rendering).(renders := a.renders + [Render(id, a.requests[id].delay, a.clock, None)])
  }

  /** `remaining = delay - (monotonic() - last)`, when both are known. */
  function Remaining(a: Adapter, id: RequestId): real
    requires id in a.requests
  {
    var delay := a.requests[id].delay;
    if delay.Some? && a.lastFinished.Some? then delay.value - (a.clock - a.lastFinished.value) else 0.0
  }

  predicate Enabled(a: Adapter, step: Step) {
    match step
    case Tick(now) => now >= a.clock
    case Arrive(id, _) => id !in a.requests
    case Acquire(id) => a.holder == None && InPhase(a, id, AwaitingLock)
    case Wake(id) => id in a.requests && a.requests[id].phase.Sleeping? && a.clock >= a.requests[id].phase.until
    case EndRender(id) => InPhase(a, id, Rendering) && a.renders != []
    case Finalise(id) => InPhase(a, id, Finalising)
    case CancelWaiting(id) => InPhase(a, id, AwaitingLock)
    case CancelSleep(id) => id in a.requests && a.requests[id].phase.Sleeping?
  }

  function Next(a: Adapter, step: Step): Adapter
    requires Enabled(a, step)
  {
    match step
    case Tick(now) => a.(clock := now)
    case Arrive(id, delay) => a.(requests := a.requests[id := Request(delay, AwaitingLock)])
    case Acquire(id) =>
      var held := a.(holder := Some(id));
      if Remaining(a, id) > 0.0 then Moved(held, id, Sleeping(a.clock + Remaining(a, id))) else Started(held, id)
    case Wake(id) => Started(a, id)
    case EndRender(id) =>
      var last := |a.renders| - 1;
      Moved(a, id, Finalising).(renders := a.renders[last := a.renders[last].(end := Some(a.clock))])
    case Finalise(id) => Moved(a, id, Finished).(lastFinished := Some(a.clock), holder := None)
    case CancelWaiting(id) => Moved(a, id, Finished)
    case CancelSleep(id) => Moved(a, id, Finished).(holder := None)
  }

  /** The state after a whole schedule; `None` when some step was not enabled. */
  function Run(a: Adapter, schedule: seq<Step>): Option<Adapter>
    decreases |schedule|
  {
    if schedule == [] then Some(a)
    else if Enabled(a, schedule[0]) then Run(Next(a, schedule[0]), schedule[1..])
    else None
  }

  // ---------------------------------------------------------------------------------------------
  // Safety

  predicate InsideLock(phase: Phase) {
    phase.Sleeping? || phase.Rendering? || phase.Finalising?
  }

  /** Renders `i < j` do not overlap, and `j` waited out its own crawl delay after `i` ended. */
  predicate Spaced(first: Render, second: Render) {
    && first.end.Some?
    && first.start <= first.end.value <= second.start
    && (second.delay.Some? ==> second.start >= first.end.value + second.delay.value)
  }

  ghost predicate Safe(a: Adapter) {
    forall i, j :: 0 <= i < j < |a.renders| ==> Spaced(a.renders[i], a.renders[j])
  }

  /** Exactly the lock holder is between acquiring the lock and leaving it. */
  ghost predicate Exclusive(a: Adapter) {
    && (forall id :: id in a.requests && InsideLock(a.requests[id].phase) ==> a.holder == Some(id))
    && (a.holder.Some? ==> a.holder.value in a.requests && InsideLock(a.requests[a.holder.value].phase))
  }

  predicate RenderOpen(a: Adapter) {
    a.holder.Some? && a.holder.value in a.requests && a.requests[a.holder.value].phase.Rendering?
  }

  predicate RecordPending(a: Adapter) {
    a.holder.Some? && a.holder.value in a.requests && a.requests[a.holder.value].phase.Finalising?
  }

  /** The render has ended, no later than the recorded time. */
  predicate EndedBy(r: Render, finished: Option<real>) {
    r.end.Some? && r.start <= r.end.value && finished.Some? && r.end.value <= finished.value
  }

  /** Every ended render other than one still waiting for its `finally` is covered by the record. */
  ghost predicate Recorded(a: Adapter) {
    var closed := if RenderOpen(a) || RecordPending(a) then |a.renders| - 1 else |a.renders|;
    && closed >= 0
    && (a.lastFinished.Some? ==> a.lastFinished.value <= a.clock)
    && forall i :: 0 <= i < closed ==> EndedBy(a.renders[i], a.lastFinished)
  }

  ghost predicate LastRenderMatches(a: Adapter) {
    RenderOpen(a) || RecordPending(a) ==>
      && a.renders != []
      && var last := a.renders[|a.renders| - 1];
      && last.start <= a.clock
      && (if RenderOpen(a) then last.end == None
          else last.end.Some? && last.start <= last.end.value <= a.clock)
  }

  ghost predicate SleepUntilDue(a: Adapter) {
    forall id :: id in a.requests && a.requests[id].phase.Sleeping? ==>
      && a.requests[id].delay.Some?
      && a.lastFinished.Some?
      && a.requests[id].phase.until == a.lastFinished.value + a.requests[id].delay.value
  }

  ghost predicate Inv(a: Adapter) {
    && Exclusive(a) && Recorded(a) && LastRenderMatches(a) && SleepUntilDue(a) && Safe(a)
  }

  /** Starting a render keeps the invariant when the delay has been waited out. */
  lemma StartKeepsInv(a: Adapter, id: RequestId)
    requires id in a.requests && a.holder == Some(id)
    requires forall other :: other in a.requests && other != id ==> !InsideLock(a.requests[other].phase)
    requires forall i :: 0 <= i < |a.renders| ==> Spaced(a.renders[i], Render(id, a.requests[id].delay, a.clock, None))
    requires a.lastFinished.Some? ==> a.lastFinished.value <= a.clock
    requires forall i :: 0 <= i < |a.renders| ==> EndedBy(a.renders[i], a.lastFinished)
    requires Safe(a)
    ensures Inv(Started(a, id))
  {
  }

  /** With no render under way and its delay waited out, a call is spaced from every earlier render. */
  lemma WaitedOut(a: Adapter, id: RequestId, i: nat)
    requires Recorded(a) && id in a.requests && !RenderOpen(a) && !RecordPending(a) && i < |a.renders|
    requires Remaining(a, id) <= 0.0
    ensures Spaced(a.renders[i], Render(id, a.requests[id].delay, a.clock, None))
  {
  }

  lemma AllRecorded(a: Adapter, i: nat)
    requires Recorded(a) && !RenderOpen(a) && !RecordPending(a) && i < |a.renders|
    ensures EndedBy(a.renders[i], a.lastFinished)
  {
  }

  lemma AcquireKeepsInv(a: Adapter, id: RequestId)
    requires Inv(a) && Enabled(a, Acquire(id))
    ensures Inv(Next(a, Acquire(id)))
  {
    if Remaining(a, id) <= 0.0 {
      forall i: nat | i < |a.renders|
        ensures Spaced(a.renders[i], Render(id, a.requests[id].delay, a.clock, None))
        ensures EndedBy(a.renders[i], a.lastFinished)
      {
        WaitedOut(a, id, i);
        AllRecorded(a, i);
      }
      hide Spaced, Safe, SleepUntilDue, LastRenderMatches, EndedBy;
      StartKeepsInv(a.(holder := Some(id)), id);
    } else {
      hide Spaced;
    }
  }

  lemma WakeKeepsInv(a: Adapter, id: RequestId)
    requires Inv(a) && Enabled(a, Wake(id))
    ensures Inv(Next(a, Wake(id)))
  {
    assert a.holder == Some(id) && Remaining(a, id) <= 0.0;
    forall i: nat | i < |a.renders|
      ensures Spaced(a.renders[i], Render(id, a.requests[id].delay, a.clock, None))
      ensures EndedBy(a.renders[i], a.lastFinished)
    {
      WaitedOut(a, id, i);
      AllRecorded(a, i);
    }
    hide Spaced, Safe, SleepUntilDue, LastRenderMatches, EndedBy;
    StartKeepsInv(a, id);
  }

  /** The end of a render closes the last one and nothing else. */
  lemma EndRenderKeepsInv(a: Adapter, id: RequestId)
    requires Inv(a) && Enabled(a, EndRender(id))
    ensures Inv(Next(a, EndRender(id)))
  {
    var next, last := Next(a, EndRender(id)), |a.renders| - 1;
    assert a.holder == Some(id) && RenderOpen(a) && RecordPending(next) && !RenderOpen(next);
    assert forall i :: 0 <= i < last ==> next.renders[i] == a.renders[i];
    assert next.renders[last] == a.renders[last].(end := Some(a.clock));
    hide Spaced;
    forall i, j | 0 <= i < j < |next.renders|
      ensures Spaced(next.renders[i], next.renders[j])
    {
      assert Spaced(a.renders[i], a.renders[j]);
      EndDoesNotMatter(a.renders[i], a.renders[j], next.renders[j]);
    }
  }

  lemma EndDoesNotMatter(first: Render, second: Render, ended: Render)
    requires Spaced(first, second) && ended.start == second.start && ended.delay == second.delay
    ensures Spaced(first, ended)
  {
  }

  /** The `finally` block records the end and leaves the lock. */
  lemma FinaliseKeepsInv(a: Adapter, id: RequestId)
    requires Inv(a) && Enabled(a, Finalise(id))
    ensures Inv(Next(a, Finalise(id)))
  {
  }

  lemma StepKeepsInv(a: Adapter, step: Step)
    requires Inv(a) && Enabled(a, step)
    ensures Inv(Next(a, step))
  {
    match step
    case Acquire(id) => AcquireKeepsInv(a, id);
    case Wake(id) => WakeKeepsInv(a, id);
    case EndRender(id) => EndRenderKeepsInv(a, id);
    case Finalise(id) => FinaliseKeepsInv(a, id);
    case _ => QuietStepKeepsInv(a, step);
  }

  /** The clock advancing, a call arriving, and a cancellation that ends no render. */
  lemma QuietStepKeepsInv(a: Adapter, step: Step)
    requires Inv(a) && Enabled(a, step)
    requires step.Tick? || step.Arrive? || step.CancelWaiting? || step.CancelSleep?
    ensures Inv(Next(a, step))
  {
    var next := Next(a, step);
    assert next.renders == a.renders && next.lastFinished == a.lastFinished && next.clock >= a.clock;
    assert RenderOpen(next) == RenderOpen(a) && RecordPending(next) == RecordPending(a);
    hide Spaced, EndedBy;
  }

  lemma {:induction false} RunKeepsInv(a: Adapter, schedule: seq<Step>)
    requires Inv(a) && Run(a, schedule).Some?
    ensures Inv(Run(a, schedule).value)
    decreases |schedule|
  {
    if schedule != [] {
      StepKeepsInv(a, schedule[0]);
      RunKeepsInv(Next(a, schedule[0]), schedule[1..]);
    }
  }

  /** Under every interleaving no two renders overlap, and each render with crawl delay `d` starts
      at least `d` after every earlier render ended. */
  lemma CrawlDelayHonoured(start: Adapter, schedule: seq<Step>, i: nat, j: nat)
    requires Init(start) && Run(start, schedule).Some?
    requires i < j < |Run(start, schedule).value.renders|
    ensures var renders := Run(start, schedule).value.renders;
            && renders[i].end.Some? && renders[i].end.value <= renders[j].start
            && (renders[j].delay.Some? ==> renders[j].start - renders[i].end.value >= renders[j].delay.value)
  {
    RunKeepsInv(start, schedule);
    var renders := Run(start, schedule).value.renders;
    assert Spaced(renders[i], renders[j]);
  }

  /** Nor does the delay last longer than it must: a sleeper's time is up exactly when its delay has passed since
      the last recorded end of a render, and a request that gets the lock when nothing has been recorded yet,
      or its delay has passed, renders at once. */
  lemma DelayIsNoLonger(start: Adapter, schedule: seq<Step>, id: RequestId)
    requires Init(start) && Run(start, schedule).Some?
    requires id in Run(start, schedule).value.requests
    ensures var a := Run(start, schedule).value;
            var request := a.requests[id];
            && (request.phase.Sleeping? ==>
                  && request.delay.Some? && a.lastFinished.Some?
                  && request.phase.until == a.lastFinished.value + request.delay.value)
            && (Enabled(a, Acquire(id)) ==>
                  (Next(a, Acquire(id)).requests[id].phase == Rendering <==>
                   request.delay.None? || a.lastFinished.None?
                   || a.clock >= a.lastFinished.value + request.delay.value))
  {
    RunKeepsInv(start, schedule);
    hide Run, Exclusive, Recorded, LastRenderMatches, Safe;
  }

  /** No failure or cancellation leaks the lock: whoever holds it is still inside and can be driven
      out by its own next step, after which the lock is free or a render is under way. */
  lemma HolderCanProceed(start: Adapter, schedule: seq<Step>)
    requires Init(start) && Run(start, schedule).Some?
    requires Run(start, schedule).value.holder.Some?
    ensures var a := Run(start, schedule).value;
            var id := a.holder.value;
            && id in a.requests
            && match a.requests[id].phase {
                 case Sleeping(until) =>
                   Enabled(a, Tick(if until > a.clock then until else a.clock))
                   && Enabled(Next(a, Tick(if until > a.clock then until else a.clock)), Wake(id))
                 case Rendering => Enabled(a, EndRender(id))
                 case Finalising => Enabled(a, Finalise(id)) && Next(a, Finalise(id)).holder == None
                 case _ => false
               }
  {
    RunKeepsInv(start, schedule);
  }
}
