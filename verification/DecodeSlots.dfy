/**
 The three PCM slots between the co-processor, which decodes into them, and the MCU, which plays
 them. First the operations on the shared variables and the class that carries them out in place.
 DecodeSlotsProtocol.dfy interleaves the same operations.
 */
module DecodeSlots {
  import opened Ring

  const SLOTS := 3

  datatype SlotState = Idle | Working | Done | Failed

  /** The variables both cores see; `loop` is the size of a slot in bytes. */
  datatype Shared = Shared(state: seq<SlotState>, outLen: seq<nat>, out: seq<byte>, cpIdx: nat, mcuIdx: nat, loop: nat)

  ghost predicate WellFormed(sh: Shared) {
    && |sh.state| == SLOTS && |sh.outLen| == SLOTS
    && sh.cpIdx < SLOTS && sh.mcuIdx < SLOTS
    && sh.loop > 0 && SLOTS * sh.loop <= |sh.out|
  }

  /** Where slot `k` begins. */
  function Base(k: nat, loop: nat): (r: nat)
    requires k < SLOTS
    ensures r == if k == 0 then 0 else if k == 1 then loop else 2 * loop
  {
    loop * k
  }

  function Block(out: seq<byte>, k: nat, loop: nat): (b: seq<byte>)
    requires k < SLOTS && SLOTS * loop <= |out|
    ensures |b| == loop
  {
    out[Base(k, loop)..Base(k, loop) + loop]
  }

  function NextSlot(k: nat): (r: nat)
    requires k < SLOTS
    ensures r < SLOTS
  {
    if k + 1 >= SLOTS then 0 else k + 1
  }

  /** Output a slot still being filled carries over from the call before. */
  function Carried(sh: Shared): (n: nat)
    requires WellFormed(sh)
    ensures n < sh.loop
  {
    if sh.state[sh.cpIdx].Working? && sh.outLen[sh.cpIdx] < sh.loop then sh.outLen[sh.cpIdx] else 0
  }

  /** Where the next decode call is told to write. */
  function WindowStart(sh: Shared): nat
    requires WellFormed(sh)
  {
    Base(sh.cpIdx, sh.loop) + Carried(sh)
  }

  /** A full but unfinished slot starts over. */
  function Restarted(sh: Shared): (r: Shared)
    requires WellFormed(sh)
    ensures WellFormed(r)
  {
    if sh.state[sh.cpIdx].Working? && sh.outLen[sh.cpIdx] >= sh.loop
    then sh.(outLen := sh.outLen[sh.cpIdx := 0]) else sh
  }

  predicate CanBegin(sh: Shared)
    requires WellFormed(sh)
  {
    sh.state[sh.cpIdx].Idle? || sh.state[sh.cpIdx].Working?
  }

  function Begun(sh: Shared): (r: Shared)
    requires WellFormed(sh)
    ensures WellFormed(r)
  {
    if sh.state[sh.cpIdx].Idle?
    then sh.(state := sh.state[sh.cpIdx := Working], outLen := sh.outLen[sh.cpIdx := 0]) else sh
  }

  function Written(sh: Shared, at: nat, data: seq<byte>): (r: Shared)
    requires WellFormed(sh) && at + |data| <= |sh.out|
    ensures WellFormed(r) && |r.out| == |sh.out| && r.loop == sh.loop
  {
    sh.(out := sh.out[..at] + data + sh.out[at + |data|..])
  }

  function Counted(sh: Shared, n: nat): (r: Shared)
    requires WellFormed(sh)
    ensures WellFormed(r)
  {
    sh.(outLen := sh.outLen[sh.cpIdx := sh.outLen[sh.cpIdx] + n])
  }

  function Marked(sh: Shared, n: nat): (r: Shared)
    requires WellFormed(sh)
    ensures WellFormed(r)
  {
    sh.(state := sh.state[sh.cpIdx := if n == sh.loop then Done else Failed])
  }

  function Freed(sh: Shared): (r: Shared)
    requires WellFormed(sh)
    ensures WellFormed(r)
  {
    sh.(state := sh.state[sh.mcuIdx := Idle])
  }

  /** The slots after start-up: those from `first` on count as decoded, to buy latency. */
  function Started(first: nat, loop: nat, out: seq<byte>): (r: Shared)
    requires first < SLOTS && loop > 0 && SLOTS * loop <= |out|
    ensures WellFormed(r)
  {
    Shared(seq(SLOTS, k => if k < first then Idle else Done), seq(SLOTS, k => if k < first then 0 else loop),
           out, 0, first, loop)
  }

  /** One decoder attempt: nothing to load, or some output and whether decoding failed. */
  datatype Attempt = NoInput | Output(data: seq<byte>, failed: bool)

  /** The decoder may put out at most what room the call has left. */
  ghost predicate Fits(attempts: seq<Attempt>, room: nat) {
    attempts != [] && attempts[0].Output? ==>
      |attempts[0].data| <= room && Fits(attempts[1..], room - |attempts[0].data|)
  }

  datatype CallResult = CallResult(sh: Shared, n: nat, retry: bool)

  /** The decode loop of one call, `done` bytes into it: where it stops and what it has written. */
  ghost function Decoded(sh: Shared, at: nat, done: nat, attempts: seq<Attempt>): (r: CallResult)
    requires WellFormed(sh) && at + sh.loop <= |sh.out| && done <= sh.loop && Fits(attempts, sh.loop - done)
    ensures WellFormed(r.sh) && r.n <= sh.loop
    decreases |attempts|
  {
    if done >= sh.loop then CallResult(sh, done, false)
    else if attempts == [] || attempts[0].NoInput? then CallResult(sh, done, true)
    else
      var next := Written(sh, at + done, attempts[0].data);
      var n := done + |attempts[0].data|;
      if attempts[0].failed then CallResult(next, n, false) else Decoded(next, at, n, attempts[1..])
  }

  ghost function Ended(sh: Shared, n: nat, retry: bool): (r: Shared)
    requires WellFormed(sh)
    ensures WellFormed(r)
  {
    if retry then Counted(sh, n) else Marked(Counted(sh, n), n).(cpIdx := NextSlot(sh.cpIdx))
  }

  /** One uninterrupted call of the co-processor. */
  ghost function AfterCall(sh: Shared, attempts: seq<Attempt>): (r: Shared)
    requires WellFormed(sh) && WindowStart(sh) + sh.loop <= |sh.out| && Fits(attempts, sh.loop)
    ensures WellFormed(r)
  {
    if !CanBegin(sh) then sh
    else
      var c := Decoded(Begun(Restarted(sh)), WindowStart(sh), 0, attempts);
      Ended(c.sh, c.n, c.retry)
  }

  /** The MCU plays a slot when it is done and has the length asked for. */
  predicate Playable(sh: Shared, k: nat, outMax: nat)
    requires WellFormed(sh) && k < SLOTS
  {
    sh.state[k].Done? && sh.outLen[k] == outMax
  }

  // ----- A call gets room for a whole slot, whatever the slot already holds. -----

  /** The window of a call lies in memory, but for one that continues the last slot of a tight memory. */
  lemma WindowFits(sh: Shared)
    requires WellFormed(sh)
    ensures WindowStart(sh) + sh.loop <= |sh.out| <==>
      !(sh.cpIdx == SLOTS - 1 && Carried(sh) > |sh.out| - SLOTS * sh.loop)
  {}

  /** Memory outside the slot of the co-processor is the same. */
  ghost predicate OthersKept(sh: Shared, after: Shared)
    requires WellFormed(sh)
  {
    && |after.out| == |sh.out|
    && forall i :: 0 <= i < |sh.out| && !(Base(sh.cpIdx, sh.loop) <= i < Base(sh.cpIdx, sh.loop) + sh.loop) ==>
         after.out[i] == sh.out[i]
  }

  lemma {:induction false} DecodedInWindow(sh: Shared, at: nat, done: nat, attempts: seq<Attempt>)
    requires WellFormed(sh) && at + sh.loop <= |sh.out| && done <= sh.loop && Fits(attempts, sh.loop - done)
    ensures var c := Decoded(sh, at, done, attempts);
      && |c.sh.out| == |sh.out|
      && (forall i :: 0 <= i < |sh.out| && !(at <= i < at + sh.loop) ==> c.sh.out[i] == sh.out[i])
      && c.sh.outLen == sh.outLen && c.sh.state == sh.state && c.sh.cpIdx == sh.cpIdx && c.sh.loop == sh.loop
    decreases |attempts|
  {
    if done < sh.loop && attempts != [] && attempts[0].Output? && !attempts[0].failed {
      DecodedInWindow(Written(sh, at + done, attempts[0].data), at, done + |attempts[0].data|, attempts[1..]);
    }
  }

  ghost function Joined(attempts: seq<Attempt>): seq<byte>
    requires AllOutputs(attempts)
  {
    if attempts == [] then [] else attempts[0].data + Joined(attempts[1..])
  }

  /** The first `k` attempts put something out, and the decoder failed in none of them but perhaps the last. */
  ghost predicate Taken(attempts: seq<Attempt>, k: nat)
    requires k <= |attempts|
  {
    && AllOutputs(attempts[..k])
    && (forall i :: 0 <= i < k - 1 ==> attempts[i].Output? && !attempts[i].failed)
  }

  ghost predicate AllOutputs(attempts: seq<Attempt>) {
    forall a <- attempts :: a.Output?
  }

  /** The decoder failed in the last of the first `k` attempts. */
  ghost predicate FailedAt(attempts: seq<Attempt>, k: nat)
    requires k <= |attempts|
  {
    k > 0 && attempts[k - 1].Output? && attempts[k - 1].failed
  }

  lemma TakenMore(attempts: seq<Attempt>, k: nat)
    requires attempts != [] && attempts[0].Output? && !attempts[0].failed && k < |attempts| && Taken(attempts[1..], k)
    ensures Taken(attempts, k + 1) && (k > 0 ==> (FailedAt(attempts, k + 1) <==> FailedAt(attempts[1..], k)))
    ensures AllOutputs(attempts[..k + 1]) && AllOutputs(attempts[1..][..k])
    ensures Joined(attempts[..k + 1]) == attempts[0].data + Joined(attempts[1..][..k])
  {
    var some := attempts[..k + 1];
    assert some[1..] == attempts[1..][..k];
    forall a | a in some ensures a.Output? {
      if a != some[0] { assert a in attempts[1..][..k]; }
    }
    forall i | 0 <= i < k ensures attempts[i].Output? && !attempts[i].failed {
      if i > 0 { assert attempts[1..][i - 1] == attempts[i]; }
    }
  }

  lemma TakenNone(sh: Shared, at: nat, attempts: seq<Attempt>)
    requires WellFormed(sh) && at <= |sh.out|
    ensures Taken(attempts, 0) && AllOutputs(attempts[..0]) && Joined(attempts[..0]) == [] && Written(sh, at, []) == sh
  {
    assert sh.out[..at] + [] + sh.out[at..] == sh.out;
  }

  lemma TakenOne(attempts: seq<Attempt>)
    requires attempts != [] && attempts[0].Output?
    ensures Taken(attempts, 1) && AllOutputs(attempts[..1]) && Joined(attempts[..1]) == attempts[0].data
  {
    assert attempts[..1] == [attempts[0]] && [attempts[0]][1..] == [];
    assert Joined([attempts[0]]) == attempts[0].data + Joined([]);
  }

  lemma WrittenTwice(sh: Shared, at: nat, a: seq<byte>, b: seq<byte>)
    requires WellFormed(sh) && at + |a| + |b| <= |sh.out|
    ensures Written(Written(sh, at, a), at + |a|, b) == Written(sh, at, a + b)
  {
    var once := sh.out[..at] + a + sh.out[at + |a|..];
    assert once[..at + |a|] == sh.out[..at] + a;
    assert once[at + |a| + |b|..] == sh.out[at + |a| + |b|..];
    assert sh.out[..at] + a + b + sh.out[at + |a| + |b|..] == sh.out[..at] + (a + b) + sh.out[at + |a| + |b|..];
  }

  /**
   The outputs of a call lie one behind the other from the start of its window: those of the attempts up to
   the one that filled the slot, the first failure, or the end of the input, and the rest of the memory is the
   same. The call is to be continued exactly in the last case.
   */
  lemma {:induction false} DecodedInOrder(sh: Shared, at: nat, done: nat, attempts: seq<Attempt>) returns (k: nat)
    requires WellFormed(sh) && at + sh.loop <= |sh.out| && done <= sh.loop && Fits(attempts, sh.loop - done)
    ensures k <= |attempts| && Taken(attempts, k) && AllOutputs(attempts[..k])
    ensures var all := Joined(attempts[..k]); var c := Decoded(sh, at, done, attempts);
      && c.n == done + |all| <= sh.loop && c.sh == Written(sh, at + done, all)
      && (c.retry ==> c.n < sh.loop && !FailedAt(attempts, k) && (k == |attempts| || attempts[k].NoInput?))
      && (!c.retry ==> c.n == sh.loop || FailedAt(attempts, k))
    decreases |attempts|
  {
    hide Written, Taken, Joined, AllOutputs;
    if done >= sh.loop || attempts == [] || attempts[0].NoInput? {
      k := 0;
      TakenNone(sh, at + done, attempts);
    } else if attempts[0].failed {
      k := 1;
      TakenOne(attempts);
    } else {
      var data := attempts[0].data;
      var more := DecodedInOrder(Written(sh, at + done, data), at, done + |data|, attempts[1..]);
      k := more + 1;
      TakenMore(attempts, more);
      assert |attempts[1..]| == |attempts| - 1 && (more < |attempts| - 1 ==> attempts[1..][more] == attempts[k]);
      WrittenTwice(sh, at + done, data, Joined(attempts[1..][..more]));
    }
  }

  /** One full load: the whole window is overwritten. */
  lemma FullLoad(sh: Shared, data: seq<byte>)
    requires WellFormed(sh) && CanBegin(sh) && WindowStart(sh) + sh.loop <= |sh.out| && |data| == sh.loop
    ensures AfterCall(sh, [Output(data, false)]).out == Written(sh, WindowStart(sh), data).out
  {
    var started := Begun(Restarted(sh));
    var at := WindowStart(sh);
    assert Decoded(started, at, 0, [Output(data, false)]) == CallResult(Written(started, at, data), sh.loop, false);
  }

  /**
   Whatever a call decodes, it leaves the memory of the other slots alone exactly when nothing was
   carried over into its slot.
   */
  lemma CallKeepsOthers(sh: Shared)
    requires WellFormed(sh) && CanBegin(sh) && WindowStart(sh) + sh.loop <= |sh.out|
    ensures (forall attempts :: Fits(attempts, sh.loop) ==> OthersKept(sh, AfterCall(sh, attempts)))
      <==> Carried(sh) == 0
  {
    if Carried(sh) == 0 {
      forall attempts | Fits(attempts, sh.loop) ensures OthersKept(sh, AfterCall(sh, attempts)) {
        DecodedInWindow(Begun(Restarted(sh)), WindowStart(sh), 0, attempts);
      }
    } else {
      var at, last := WindowStart(sh), WindowStart(sh) + sh.loop - 1;
      var data := seq(sh.loop, _ => if sh.out[last] == 0 then 1 as byte else 0);
      FullLoad(sh, data);
      assert Fits([Output(data, false)], sh.loop);
      assert AfterCall(sh, [Output(data, false)]).out[last] == data[sh.loop - 1];
      assert !OthersKept(sh, AfterCall(sh, [Output(data, false)]));
    }
  }

  /** A slot that a call completes can be played exactly when nothing had been carried over into it. */
  lemma CarriedSlotIsNotPlayed(sh: Shared, attempts: seq<Attempt>)
    requires WellFormed(sh) && WindowStart(sh) + sh.loop <= |sh.out| && Fits(attempts, sh.loop) && CanBegin(sh)
    ensures var after := AfterCall(sh, attempts);
      after.state[sh.cpIdx].Done? ==>
        && after.outLen[sh.cpIdx] == Carried(sh) + sh.loop
        && (Playable(after, sh.cpIdx, sh.loop) <==> Carried(sh) == 0)
  {
    DecodedInWindow(Begun(Restarted(sh)), WindowStart(sh), 0, attempts);
  }

  class Slots {
    const state: array<SlotState>
    const outLen: array<nat>
    const out: array<byte>
    var cpIdx: nat
    var mcuIdx: nat
    var loop: nat
    var inited: bool

    ghost predicate Valid()
      reads this, state, outLen, out
    {
      && state.Length == SLOTS && outLen.Length == SLOTS
      && (inited ==> WellFormed(Abs())) && cpIdx < SLOTS
    }

    ghost function Abs(): Shared
      reads this, state, outLen, out
    {
      Shared(state[..], outLen[..], out[..], cpIdx, mcuIdx, loop)
    }

    constructor (outCache: array<byte>)
      ensures Valid() && !inited && cpIdx == 0 && out == outCache && fresh(state) && fresh(outLen)
    {
      state := new SlotState[SLOTS](_ => Idle);
      outLen := new nat[SLOTS](_ => 0);
      out := outCache;
      cpIdx, mcuIdx, loop, inited := 0, 0, 0, false;
    }

    /** Prepares the slots once. The source asserts that three slots fit the output memory. */
    method Init(outMax: nat, lhdc: bool)
      requires Valid() && cpIdx == 0 && outMax > 0 && SLOTS * outMax <= out.Length
      modifies this`mcuIdx, this`loop, this`inited, state, outLen
      ensures Valid() && inited
      ensures Abs() == if old(inited) then old(Abs()) else Started(if lhdc then 1 else SLOTS - 1, outMax, old(out[..]))
    {
      if inited {
        return;
      }
      inited, loop := true, outMax;
      for i := 0 to SLOTS
        invariant inited && loop == outMax
        invariant forall k :: 0 <= k < i ==> state[k] == Idle && outLen[k] == 0
      {
        state[i], outLen[i] := Idle, 0;
      }
      mcuIdx := if lhdc then 1 else SLOTS - 1;
      for i := mcuIdx to SLOTS
        invariant inited && loop == outMax && mcuIdx == if lhdc then 1 else SLOTS - 1
        invariant forall k :: 0 <= k < SLOTS ==> state[k] == (if mcuIdx <= k < i then Done else Idle)
        invariant forall k :: 0 <= k < SLOTS ==> outLen[k] == (if mcuIdx <= k < i then loop else 0)
      {
        state[i], outLen[i] := Done, loop;
      }
      assert state[..] == Started(mcuIdx, outMax, out[..]).state;
      assert outLen[..] == Started(mcuIdx, outMax, out[..]).outLen;
    }

    method DecodeBegin() returns (ok: bool)
      requires Valid() && inited
      modifies state, outLen
      ensures Valid()
      ensures ok == CanBegin(old(Abs()))
      ensures Abs() == if ok then Begun(old(Abs())) else old(Abs())
    {
      if state[cpIdx] != Idle && state[cpIdx] != Working {
        return false;
      }
      if state[cpIdx] == Idle {
        state[cpIdx] := Working;
        outLen[cpIdx] := 0;
      }
      ok := true;
    }

    method DecodeEnd(n: nat, retry: bool)
      requires Valid() && inited
      modifies this`cpIdx, state, outLen
      ensures Valid()
      ensures Abs() == Ended(old(Abs()), n, retry)
    {
      outLen[cpIdx] := outLen[cpIdx] + n;
      if !retry {
        state[cpIdx] := if loop == n then Done else Failed;
        cpIdx := cpIdx + 1;
        if cpIdx >= SLOTS {
          cpIdx := 0;
        }
      }
    }

    /** Decodes until the slot is full, the decoder fails or no input is left. */
    method DecodeFrame(at: nat, attempts: seq<Attempt>) returns (n: nat)
      requires Valid() && inited && at + loop <= out.Length && Fits(attempts, loop)
      modifies this`cpIdx, state, outLen, out
      ensures Valid() && inited
      ensures !CanBegin(old(Abs())) ==> n == 0 && Abs() == old(Abs())
      ensures CanBegin(old(Abs())) ==>
        var c := Decoded(Begun(old(Abs())), at, 0, attempts);
        n == c.n && Abs() == Ended(c.sh, c.n, c.retry)
    {
      var ok := DecodeBegin();
      if !ok {
        return 0;
      }
      var retry;
      n, retry := DecodeLoop(at, attempts);
      DecodeEnd(n, retry);
    }

    method DecodeLoop(at: nat, attempts: seq<Attempt>) returns (n: nat, retry: bool)
      requires Valid() && inited && at + loop <= out.Length && Fits(attempts, loop)
      modifies out
      ensures Valid()
      ensures CallResult(Abs(), n, retry) == Decoded(old(Abs()), at, 0, attempts)
    {
      hide Written;
      var rest, stop := attempts, false;
      n, retry := 0, false;
      while n < loop && !stop
        invariant Valid() && n <= loop && WellFormed(Abs())
        invariant !stop ==> !retry && Fits(rest, loop - n)
        invariant Decoded(old(Abs()), at, 0, attempts)
               == if stop then CallResult(Abs(), n, retry) else Decoded(Abs(), at, n, rest)
        decreases !stop, |rest|
      {
        if rest == [] || rest[0].NoInput? {
          retry, stop := true, true;
        } else {
          Store(at + n, rest[0].data);
          n := n + |rest[0].data|;
          stop, rest := rest[0].failed, rest[1..];
        }
      }
    }

    method Store(at: nat, data: seq<byte>)
      requires Valid() && inited && at + |data| <= out.Length
      modifies out
      ensures Valid() && Abs() == Written(old(Abs()), at, data)
    {
      CopyInto(out, at, data);
    }

    /** One round of the co-processor task; it goes on while a round filled its window. */
    method MainRound(attempts: seq<Attempt>) returns (again: bool)
      requires Valid() && inited && Fits(attempts, loop)
      requires WindowStart(Abs()) + loop <= out.Length
      modifies this`cpIdx, state, outLen, out
      ensures Valid()
      ensures Abs() == AfterCall(old(Abs()), attempts)
      ensures again ==> CanBegin(old(Abs()))
    {
      var pcmLen := loop;
      if state[cpIdx] == Working {
        if outLen[cpIdx] < loop {
          pcmLen := loop - outLen[cpIdx];
        } else {
          outLen[cpIdx] := 0;
        }
      }
      var at := loop * cpIdx + loop - pcmLen;
      assert Abs() == Restarted(old(Abs())) && at == WindowStart(old(Abs()));
      var n := DecodeFrame(at, attempts);
      again := n == pcmLen;
    }

    /** The MCU's turn: deliver the next slot if it is decoded and full, then give it back. */
    method Process(outMax: nat) returns (delivered: bool, pcm: seq<byte>)
      requires Valid() && inited && outMax <= loop
      modifies this`mcuIdx, state
      ensures Valid()
      ensures var was := old(Abs()); var st := was.state[was.mcuIdx];
        && (delivered <==> Playable(was, was.mcuIdx, outMax))
        && (delivered ==> pcm == Block(was.out, was.mcuIdx, was.loop)[..outMax])
        && (!delivered ==> pcm == [])
        && Abs() == if st.Done? || st.Failed? then Freed(was).(mcuIdx := NextSlot(was.mcuIdx)) else was
    {
      delivered, pcm := false, [];
      if state[mcuIdx] == Done && outLen[mcuIdx] == outMax {
        var rpos := Base(mcuIdx, loop);
        delivered, pcm := true, out[rpos..rpos + outMax];
      }
      if state[mcuIdx] == Done || state[mcuIdx] == Failed {
        state[mcuIdx] := Idle;
        mcuIdx := mcuIdx + 1;
        if mcuIdx >= SLOTS {
          mcuIdx := 0;
        }
      }
    }
  }
}
