/** `SourceRateLimiter.wait` (`services/worker.py`), called sequentially by the worker. */
module RateLimiter {
  import opened Options

  datatype Source = Source(code: string, perMinute: Option<int>)

  /** One granted request: the limit then in force and the clock reading at which it was granted. */
  datatype Grant = Grant(perMinute: int, at: real)

  datatype WaitError = DivisionByZero

  /** A monotone clock with a sleep that lasts at least as long as asked; `asked` remembers how long that was. */
  class Clock {
    var now: real
    ghost var asked: seq<real>

    constructor (start: real)
      ensures now == start && asked == []
    {
      now, asked := start, [];
    }

    method Monotonic() returns (reading: real)
      modifies this`now
      ensures old(now) <= reading == now
    {
      var later: real := *;
      now := if later >= now then later else now;
      reading := now;
    }

    method Sleep(seconds: real)
      modifies this
      ensures now >= old(now) + seconds && now >= old(now)
      ensures asked == old(asked) + [seconds]
    {
      asked := asked + [seconds];
      var later: real := *;
      var due := if seconds > 0.0 then now + seconds else now;
      now := if later >= due then later else due;
    }
  }

  function Interval(perMinute: int): real
    requires perMinute != 0
  {
    60.0 / perMinute as real
  }

  /** Consecutive grants are at least the earlier grant's interval apart. */
  ghost predicate Spaced(log: seq<Grant>) {
    && (forall i :: 0 <= i < |log| ==> log[i].perMinute != 0)
    && forall i :: 0 < i < |log| ==> log[i].at >= log[i - 1].at + Interval(log[i - 1].perMinute)
  }

  /** A non-empty log agrees with the dictionary's next allowed time. */
  ghost predicate Agrees(nextAt: real, log: seq<Grant>) {
    && log != [] && Spaced(log)
    && nextAt == log[|log| - 1].at + Interval(log[|log| - 1].perMinute)
  }

  lemma AgreesExtends(nextAt: real, log: seq<Grant>, next: Grant)
    requires log == [] || (Agrees(nextAt, log) && next.at >= nextAt)
    requires next.perMinute != 0
    ensures Agrees(next.at + Interval(next.perMinute), log + [next])
  {
    hide Interval;
  }

  class SourceRateLimiter {
    const clock: Clock
    var nextRequestAt: map<string, real>
    ghost var log: map<string, seq<Grant>>

    ghost predicate Valid()
      reads this
    {
      && nextRequestAt.Keys == log.Keys
      && forall code :: code in log ==> Agrees(nextRequestAt[code], log[code])
    }

    ghost function Grants(code: string): seq<Grant>
      reads this
    {
      if code in log then log[code] else []
    }

    constructor (clock: Clock)
      ensures Valid() && this.clock == clock && log == map[]
    {
      this.clock := clock;
      nextRequestAt, log := map[], map[];
    }

    /** One more sleep was asked for, no longer than until the last grant was one interval old. */
    ghost predicate AskedFor(grants: seq<Grant>, now: real, asked: seq<real>)
      reads clock
    {
      && grants != [] && grants[|grants| - 1].perMinute != 0 && |clock.asked| == |asked| + 1
      && clock.asked[..|asked|] == asked
      && var last := grants[|grants| - 1];
      0.0 < clock.asked[|asked|] <= last.at + 60.0 / last.perMinute as real - now
    }

    /** Delays the caller until the source may be asked again, never for longer, and records the grant. */
    method Wait(source: Source) returns (r: Result<(), WaitError>)
      requires Valid()
      modifies this, clock
      ensures Valid() && clock.now >= old(clock.now)
      ensures forall code :: code != source.code ==> Grants(code) == old(Grants(code))
      ensures r.Err? <==> source.perMinute == Some(0)
      ensures source.perMinute.None? || r.Err? ==> log == old(log) && nextRequestAt == old(nextRequestAt)
      ensures source.perMinute.Some? && r.Ok? ==>
                Grants(source.code) == old(Grants(source.code)) + [Grant(source.perMinute.value, clock.now)]
      ensures clock.asked == old(clock.asked) || AskedFor(old(Grants(source.code)), old(clock.now), old(clock.asked))
    {
      if source.perMinute.None? {
        return Ok(());
      }
      if source.perMinute.value == 0 {
        return Err(DivisionByZero);
      }
      var now := clock.Monotonic();
      var nextAt := if source.code in nextRequestAt then nextRequestAt[source.code] else now;
      if nextAt > now {
        clock.Sleep(nextAt - now);
        now := clock.Monotonic();
      }
      Reserve(source.code, source.perMinute.value, nextAt, now);
      return Ok(());
    }

    /** The dictionary update that ends `wait`, once the clock has reached `nextAt`. */
    method Reserve(code: string, perMinute: int, nextAt: real, now: real)
      requires Valid() && perMinute != 0 && now >= nextAt
      requires code in nextRequestAt ==> nextAt == nextRequestAt[code]
      modifies this`nextRequestAt, this`log
      ensures Valid()
      ensures Grants(code) == old(Grants(code)) + [Grant(perMinute, now)]
      ensures forall other :: other != code ==> Grants(other) == old(Grants(other))
      ensures clock.asked == old(clock.asked)
    {
      hide Interval, Agrees;
      AgreesExtends(nextAt, Grants(code), Grant(perMinute, now));
      nextRequestAt := nextRequestAt[code := (if now >= nextAt then now else nextAt) + Interval(perMinute)];
      log := log[code := Grants(code) + [Grant(perMinute, now)]];
    }
  }

  // ---------------------------------------------------------------------------------------------
  // What a spaced log means for the source

  lemma {:induction false} SpacedApart(log: seq<Grant>, r: int, i: nat, j: nat)
    requires Spaced(log) && r > 0 && i <= j < |log|
    requires forall k :: 0 <= k < |log| ==> log[k].perMinute == r
    ensures log[j].at - log[i].at >= (j - i) as real * Interval(r)
    decreases j
  {
    if i < j {
      SpacedApart(log, r, i, j - 1);
      assert (j - i) as real * Interval(r) == (j - 1 - i) as real * Interval(r) + Interval(r);
    }
  }

  ghost function InMinute(log: seq<Grant>, from: real): set<nat> {
    set i: nat | i < |log| && from <= log[i].at < from + 60.0
  }

  ghost function Range(lo: nat, n: nat): (r: set<nat>)
    ensures |r| == n
    ensures forall i: nat :: i in r <==> lo <= i < lo + n
  {
    if n == 0 then {} else Range(lo, n - 1) + {lo + n - 1}
  }

  lemma {:induction false} LeastElement(s: set<nat>) returns (least: nat)
    requires s != {}
    ensures least in s && forall x :: x in s ==> least <= x
    decreases |s|
  {
    var x :| x in s;
    if s == {x} {
      least := x;
    } else {
      var rest := LeastElement(s - {x});
      least := if x < rest then x else rest;
      assert forall y :: y in s ==> y == x || y in s - {x};
    }
  }

  /** Two grants `r` or more positions apart never share a window. */
  lemma SameMinuteIsNear(log: seq<Grant>, r: int, i: nat, j: nat)
    requires Spaced(log) && r > 0 && i <= j < |log|
    requires forall k :: 0 <= k < |log| ==> log[k].perMinute == r
    requires log[j].at - log[i].at < 60.0
    ensures j < i + r
  {
    hide Interval, Spaced;
    SpacedApart(log, r, i, j);
    FullMinute(j - i, r);
  }

  /** Any half-open sixty-second window holds at most `r` grants. */
  lemma MinuteBound(log: seq<Grant>, r: int, from: real)
    requires Spaced(log) && r > 0
    requires forall k :: 0 <= k < |log| ==> log[k].perMinute == r
    ensures |InMinute(log, from)| <= r
  {
    hide Spaced;
    var hits := InMinute(log, from);
    if hits != {} {
      var first := LeastElement(hits);
      var range := Range(first, r);
      forall j | j in hits
        ensures j in range
      {
        SameMinuteIsNear(log, r, first, j);
      }
      SubsetSize(hits, range);
    }
  }

  /** `r` intervals of `60 / r` seconds fill the minute. */
  lemma FullMinute(steps: int, r: int)
    requires r > 0
    ensures steps >= r ==> steps as real * Interval(r) >= 60.0
  {
    if steps >= r {
      assert r as real * Interval(r) == 60.0;
      assert (steps - r) as real * Interval(r) >= 0.0;
      assert steps as real * Interval(r) == r as real * Interval(r) + (steps - r) as real * Interval(r);
    }
  }

  lemma {:induction false} SubsetSize(a: set<nat>, b: set<nat>)
    requires a <= b
    ensures |a| <= |b|
  {
    assert b == a + (b - a);
  }
}
