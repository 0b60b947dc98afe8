/**
 * The long timer (app_spec_ostimer.cpp): the timer of the operating system takes 16-bit times only, so
 * a longer interval is made of several of them.
 */
module SpecTimer {
  const UINT16_MAX: nat := 0xFFFF

  type Millis = x: nat | x <= 0xFFFF_FFFF

  /**
   Whether the operating system's timer is running, what it was started with so far, the last start
   first to come, and the number of calls of the user's function.
   */
  datatype State = State(periodic: bool, interval: Millis, ctx: Millis, running: bool, started: seq<nat>, calls: nat)

  /** The times that make up an interval. */
  function Chunks(ms: Millis): (r: seq<nat>)
    ensures r != []
    ensures forall c <- r :: c <= UINT16_MAX
  {
    if ms > UINT16_MAX then [UINT16_MAX] + Chunks(ms - UINT16_MAX) else [ms]
  }

  function Total(chunks: seq<nat>): nat {
    if chunks == [] then 0 else chunks[0] + Total(chunks[1..])
  }

  class Timer {
    const periodic: bool
    var interval: Millis
    var ctx: Millis
    var running: bool
    ghost var started: seq<nat>
    ghost var calls: nat

    ghost function View(): State
      reads this
    {
      State(periodic, interval, ctx, running, started, calls)
    }

    constructor (periodic: bool)
      ensures View() == State(periodic, 0, 0, false, [], 0)
    {
      this.periodic, interval, ctx, running, started, calls := periodic, 0, 0, false, [], 0;
    }

    /** osTimerStart. */
    method OsStart(ms: Millis)
      modifies this`running, this`started
      ensures running && started == old(started) + [ms]
    {
      running := true;
      started := started + [ms];
    }

    /** app_spec_timer_start. */
    method Start(ms: Millis)
      modifies this
      ensures View() == Started(old(View()), ms)
    {
      if ms > UINT16_MAX {
        interval := ms;
        ctx := ms;
        OsStart(UINT16_MAX);
      } else {
        interval := ms;
        ctx := ms;
        OsStart(ms);
      }
    }

    /** app_spec_timer_handler, called when the running timer has run out. */
    method Handler()
      requires running
      modifies this
      ensures View() == Fired(old(View()))
    {
      running := false;
      if ctx > UINT16_MAX {
        ctx := ctx - UINT16_MAX;
        if ctx > UINT16_MAX {
          OsStart(UINT16_MAX);
        } else {
          OsStart(ctx);
        }
      } else {
        calls := calls + 1;
        if periodic { Start(interval); }
      }
    }
  }

  function Started(s: State, ms: Millis): State {
    s.(interval := ms, ctx := ms, running := true, started := s.started + [Chunks(ms)[0]])
  }

  /** One expiry. */
  function Fired(s: State): State {
    if s.ctx > UINT16_MAX then
      s.(ctx := s.ctx - UINT16_MAX, running := true, started := s.started + [Chunks(s.ctx - UINT16_MAX)[0]])
    else
      var called := s.(calls := s.calls + 1, running := false);
      if s.periodic then Started(called, s.interval) else called
  }

  function Run(s: State, n: nat): State
    decreases n
  {
    if n == 0 then s else Run(Fired(s), n - 1)
  }

  // ---------------------------------------------------------------- one interval

  /** The times of an interval add up to it. */
  lemma {:induction false} ChunksAddUp(ms: Millis)
    ensures Total(Chunks(ms)) == ms
  {
    if ms > UINT16_MAX {
      ChunksAddUp(ms - UINT16_MAX);
      assert ([UINT16_MAX] + Chunks(ms - UINT16_MAX))[1..] == Chunks(ms - UINT16_MAX);
    } else {
      assert [ms][1..] == [];
    }
  }

  /** Before the last expiry of what is left of an interval nothing is called and the timer keeps running. */
  lemma {:induction false} NoCallBefore(s: State, n: nat)
    requires n < |Chunks(s.ctx)|
    ensures Run(s, n).calls == s.calls
    ensures s.running ==> Run(s, n).running
    decreases n
  {
    if n > 0 { NoCallBefore(Fired(s), n - 1); }
  }

  /** The last expiry of what is left of an interval makes the one call; all of it has been started. */
  lemma {:induction false} CallAtEnd(s: State)
    ensures var left := Chunks(s.ctx);
      var done := Run(s, |left|);
      var times := s.started + left[1..];
      && done.calls == s.calls + 1
      && done.interval == s.interval && done.periodic == s.periodic
      && (s.periodic ==> done.ctx == s.interval && done.running && done.started == times + [Chunks(s.interval)[0]])
      && (!s.periodic ==> !done.running && done.started == times)
    decreases s.ctx
  {
    var left := Chunks(s.ctx);
    if s.ctx > UINT16_MAX {
      var next := Fired(s);
      CallAtEnd(next);
      assert left[1..] == Chunks(next.ctx) == [Chunks(next.ctx)[0]] + Chunks(next.ctx)[1..];
      assert s.started + left[1..] == next.started + Chunks(next.ctx)[1..];
    } else {
      assert left[1..] == [] && s.started + [] == s.started;
      assert Run(s, 1) == Run(Fired(s), 0);
    }
  }

  // ---------------------------------------------------------------- whole runs

  lemma {:induction false} RunSplit(s: State, n: nat, m: nat)
    ensures Run(s, n + m) == Run(Run(s, n), m)
    decreases n
  {
    if n > 0 { RunSplit(Fired(s), n - 1, m); }
  }

  lemma {:induction false} TotalConcat(a: seq<nat>, b: seq<nat>)
    ensures Total(a + b) == Total(a) + Total(b)
  {
    if a == [] {
      assert a + b == b;
    } else {
      assert (a + b)[1..] == a[1..] + b;
      TotalConcat(a[1..], b);
    }
  }

  /** A one-shot timer: every time started fits, they add up, and the call comes once, at the end. */
  lemma OneShot(s: State, ms: Millis)
    requires !s.periodic
    ensures var k := |Chunks(ms)|;
      var done := Run(Started(s, ms), k);
      && done.started == s.started + Chunks(ms)
      && (forall c <- Chunks(ms) :: c <= UINT16_MAX) && Total(Chunks(ms)) == ms
      && done.calls == s.calls + 1 && !done.running
      && forall n :: 0 <= n < k ==> Run(Started(s, ms), n).calls == s.calls && Run(Started(s, ms), n).running
  {
    hide Run, Chunks, Total;
    var first := Started(s, ms);
    CallAtEnd(first);
    ChunksAddUp(ms);
    assert Chunks(ms) == [Chunks(ms)[0]] + Chunks(ms)[1..];
    forall n | 0 <= n < |Chunks(ms)|
      ensures Run(first, n).calls == s.calls && Run(first, n).running
    {
      NoCallBefore(first, n);
    }
  }

  /** The expiries of a number of intervals. */
  function Expiries(ms: Millis, rounds: nat): nat {
    if rounds == 0 then 0 else |Chunks(ms)| + Expiries(ms, rounds - 1)
  }

  /**
   A periodic timer: after any number of rounds the call has been made once for each, the times of
   the completed rounds add up to as many intervals, and the next round has been started.
   */
  lemma {:induction false} PeriodicRuns(s: State, ms: Millis, rounds: nat)
    requires s.periodic
    ensures var done := Run(Started(s, ms), Expiries(ms, rounds));
      && done.calls == s.calls + rounds
      && done.ctx == ms && done.interval == ms && done.periodic && done.running
      && |done.started| == |s.started| + Expiries(ms, rounds) + 1
      && s.started <= done.started && done.started[|done.started| - 1] == Chunks(ms)[0]
      && Total(done.started[|s.started|..|done.started| - 1]) == rounds * ms
    decreases rounds
  {
    var first := Started(s, ms);
    if rounds == 0 {
      assert first.started[|s.started|..|first.started| - 1] == [];
    } else {
      var k := Expiries(ms, rounds - 1);
      var before := Run(first, k);
      PeriodicRuns(s, ms, rounds - 1);
      RunSplit(first, k, |Chunks(ms)|);
      CallAtEnd(before);
      ChunksAddUp(ms);
      RoundTotal(s.started, before.started, Chunks(ms), ms, rounds);
    }
  }

  lemma RoundTotal(prefix: seq<nat>, before: seq<nat>, chunks: seq<nat>, ms: nat, rounds: nat)
    requires rounds > 0 && chunks != [] && Total(chunks) == ms
    requires prefix <= before && |prefix| < |before| && before[|before| - 1] == chunks[0]
    requires Total(before[|prefix|..|before| - 1]) == (rounds - 1) * ms
    ensures Total((before + chunks[1..])[|prefix|..]) == rounds * ms
  {
    var done := before[|prefix|..|before| - 1];
    assert (before + chunks[1..])[|prefix|..] == done + chunks;
    TotalConcat(done, chunks);
    assert (rounds - 1) * ms + ms == rounds * ms;
  }

  /** Between two calls of a periodic timer nothing is called. */
  lemma CallsOncePerRound(s: State, ms: Millis, rounds: nat, n: nat)
    requires s.periodic && n < |Chunks(ms)|
    ensures Run(Started(s, ms), Expiries(ms, rounds) + n).calls == s.calls + rounds
  {
    PeriodicRuns(s, ms, rounds);
    RunSplit(Started(s, ms), Expiries(ms, rounds), n);
    NoCallBefore(Run(Started(s, ms), Expiries(ms, rounds)), n);
  }
}
