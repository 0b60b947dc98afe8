/**
 The compressed-audio ring under every interleaving of its three parties: the Bluetooth thread that
 fills the receive queue, the MCU that copies queue bytes into the ring, and the co-processor that
 reads them out. Shared variables are accessed one step at a time and memory is copied byte by byte.
 A party whose step is not possible leaves the state unchanged, so every list of actions is a run.
 */
module InCacheProtocol {
  import opened Ring
  import opened InCaches

  datatype McuPc =
    | McuIdle
    | McuSnapped(w: nat, r: nat)
    | McuSized(w: nat, r: nat, n: nat)
    | McuCopying(w: nat, r: nat, n: nat, done: nat)
    | McuPublished(n: nat)

  datatype CpPc =
    | CpIdle
    | CpReading(r: nat, w: nat, buf: seq<byte>)

  /** `enqueued` and `consumed` record what entered the receive queue and what the decoder took. */
  datatype State = State(cache: seq<byte>, wpos: nat, rpos: nat, queue: seq<byte>,
                         mcu: McuPc, cp: CpPc, enqueued: seq<byte>, consumed: seq<byte>)

  datatype Action =
    | Receive(data: seq<byte>)
    | McuSnapshot | McuLength | McuPeek | McuCopyByte | McuPublish | McuDequeue
    | CpSnapshot | CpReadByte | CpPublish(taken: nat)

  ghost predicate WellFormed(s: State) {
    && s.wpos < |s.cache| && s.rpos < |s.cache|
    && (s.mcu.McuSnapped? || s.mcu.McuSized? || s.mcu.McuCopying? ==>
        s.mcu.w < |s.cache| && s.mcu.r < |s.cache|)
    && (s.mcu.McuSized? ==> s.mcu.n < |s.cache|)
    && (s.mcu.McuCopying? ==> s.mcu.done <= s.mcu.n < |s.cache|)
    && (s.cp.CpReading? ==> s.cp.r < |s.cache| && s.cp.w < |s.cache| && |s.cp.buf| <= InUse(s.cp.w, s.cp.r, |s.cache|))
  }

  /** The ring index the MCU writes next, while it is copying. */
  ghost function Target(s: State): nat
    requires WellFormed(s) && s.mcu.McuCopying?
  {
    Advance(s.mcu.w, s.mcu.done, |s.cache|)
  }

  ghost function McuStep(s: State, a: Action): State
    requires WellFormed(s)
  {
    match a
    case McuSnapshot =>
      if s.mcu.McuIdle? && Free(s.wpos, s.rpos, |s.cache|) != 0
      then s.(mcu := McuSnapped(s.wpos, s.rpos)) else s
    case McuLength =>
      if s.mcu.McuSnapped?
      then s.(mcu := McuSized(s.mcu.w, s.mcu.r, Min(|s.queue|, Free(s.mcu.w, s.mcu.r, |s.cache|)))) else s
    case McuPeek =>
      if s.mcu.McuSized? && s.mcu.n <= |s.queue|
      then s.(mcu := McuCopying(s.mcu.w, s.mcu.r, s.mcu.n, 0)) else s
    case McuCopyByte =>
      if s.mcu.McuCopying? && s.mcu.done < s.mcu.n <= |s.queue|
      then s.(cache := s.cache[Target(s) := s.queue[s.mcu.done]], mcu := s.mcu.(done := s.mcu.done + 1)) else s
    case McuPublish =>
      if s.mcu.McuCopying? && s.mcu.done == s.mcu.n
      then s.(wpos := Target(s), mcu := McuPublished(s.mcu.done)) else s
    case McuDequeue =>
      if s.mcu.McuPublished? && s.mcu.n <= |s.queue|
      then s.(queue := s.queue[s.mcu.n..], mcu := McuIdle) else s
    case _ => s
  }

  ghost function CpStep(s: State, a: Action): State
    requires WellFormed(s)
  {
    match a
    case CpSnapshot =>
      if s.cp.CpIdle? then s.(cp := CpReading(s.rpos, s.wpos, [])) else s
    case CpReadByte =>
      if s.cp.CpReading? && |s.cp.buf| < InUse(s.cp.w, s.cp.r, |s.cache|)
      then s.(cp := s.cp.(buf := s.cp.buf + [s.cache[Advance(s.cp.r, |s.cp.buf|, |s.cache|)]])) else s
    case CpPublish(taken) =>
      if s.cp.CpReading? && taken <= |s.cp.buf|
      then s.(rpos := Advance(s.cp.r, taken, |s.cache|), consumed := s.consumed + s.cp.buf[..taken], cp := CpIdle) else s
    case _ => s
  }

  ghost function Step(s: State, a: Action): (t: State)
    requires WellFormed(s)
    ensures WellFormed(t) && |t.cache| == |s.cache|
  {
    match a
    case Receive(data) => s.(queue := s.queue + data, enqueued := s.enqueued + data)
    case McuSnapshot | McuLength | McuPeek | McuCopyByte | McuPublish | McuDequeue => McuStep(s, a)
    case CpSnapshot | CpReadByte | CpPublish(_) => CpStep(s, a)
  }

  ghost function Run(s: State, acts: seq<Action>): (t: State)
    requires WellFormed(s)
    ensures WellFormed(t) && |t.cache| == |s.cache|
    decreases |acts|
  {
    if acts == [] then s else Run(Step(s, acts[0]), acts[1..])
  }

  ghost function Used(s: State): nat
    requires WellFormed(s)
  {
    InUse(s.wpos, s.rpos, |s.cache|)
  }

  ghost function Contents(s: State): seq<byte>
    requires WellFormed(s)
  {
    Gather(s.cache, s.rpos, Used(s))
  }

  /** Queue bytes already published in the ring but not yet dropped from the queue. */
  ghost function Handed(s: State): nat {
    if s.mcu.McuPublished? then s.mcu.n else 0
  }

  ghost predicate McuInv(s: State)
    requires WellFormed(s)
  {
    && Handed(s) <= |s.queue|
    && (s.mcu.McuSnapped? || s.mcu.McuSized? || s.mcu.McuCopying? ==>
        s.mcu.w == s.wpos && Used(s) <= InUse(s.mcu.w, s.mcu.r, |s.cache|))
    && (s.mcu.McuSized? ==> s.mcu.n <= |s.queue| && s.mcu.n <= Free(s.mcu.w, s.mcu.r, |s.cache|))
    && (s.mcu.McuCopying? ==>
        && s.mcu.n <= |s.queue| && s.mcu.n <= Free(s.mcu.w, s.mcu.r, |s.cache|)
        && Gather(s.cache, s.wpos, s.mcu.done) == s.queue[..s.mcu.done])
  }

  ghost predicate CpInv(s: State)
    requires WellFormed(s)
  {
    s.cp.CpReading? ==>
      && s.cp.r == s.rpos && InUse(s.cp.w, s.cp.r, |s.cache|) <= Used(s)
      && s.cp.buf == Contents(s)[..|s.cp.buf|]
  }

  ghost predicate Inv(s: State) {
    && WellFormed(s) && McuInv(s) && CpInv(s)
    && s.enqueued == s.consumed + Contents(s) + s.queue[Handed(s)..]
  }

  ghost function Start(cache: seq<byte>): State {
    State(cache, 0, 0, [], McuIdle, CpIdle, [], [])
  }

  lemma StepKeepsInv(s: State, a: Action)
    requires Inv(s)
    ensures Inv(Step(s, a))
  {
    assert WellFormed(s);
    hide Inv, WellFormed, McuStep, CpStep;
    match a {
      case Receive(data) => ReceiveKeepsInv(s, data);
      case McuSnapshot => PrepareKeepsInv(s, a);
      case McuLength => PrepareKeepsInv(s, a);
      case McuPeek => PrepareKeepsInv(s, a);
      case McuCopyByte => CopyKeepsInv(s);
      case McuPublish => PublishKeepsInv(s);
      case McuDequeue => DequeueKeepsInv(s);
      case CpSnapshot => ReadKeepsInv(s, a);
      case CpReadByte => ReadKeepsInv(s, a);
      case CpPublish(taken) => ConsumeKeepsInv(s, taken);
    }
  }

  lemma ReceiveKeepsInv(s: State, data: seq<byte>)
    requires Inv(s)
    ensures Inv(Step(s, Receive(data)))
  {
    var t := Step(s, Receive(data));
    assert Contents(t) == Contents(s) && t.queue[Handed(t)..] == s.queue[Handed(s)..] + data;
    hide Gather, InUse, Free, Advance;
    if s.mcu.McuCopying? { assert t.queue[..s.mcu.done] == s.queue[..s.mcu.done]; }
  }

  lemma PrepareKeepsInv(s: State, a: Action)
    requires Inv(s) && (a.McuSnapshot? || a.McuLength? || a.McuPeek?)
    ensures Inv(Step(s, a))
  {}

  lemma DequeueKeepsInv(s: State)
    requires Inv(s)
    ensures Inv(Step(s, McuDequeue))
  {
    if s.mcu.McuPublished? { assert s.queue[s.mcu.n..][0..] == s.queue[s.mcu.n..]; }
  }

  lemma ReadKeepsInv(s: State, a: Action)
    requires Inv(s) && (a.CpSnapshot? || a.CpReadByte?)
    ensures Inv(Step(s, a))
  {
    if s.cp.CpReading? && a.CpReadByte? && |s.cp.buf| < InUse(s.cp.w, s.cp.r, |s.cache|) {
      assert Contents(s)[..|s.cp.buf| + 1] == Contents(s)[..|s.cp.buf|] + [Contents(s)[|s.cp.buf|]];
    }
  }

  /** The byte being written lies in the free part, outside everything published. */
  lemma CopyKeepsInv(s: State)
    requires Inv(s)
    ensures Inv(Step(s, McuCopyByte))
  {
    if s.mcu.McuCopying? && s.mcu.done < s.mcu.n {
      var t := Step(s, McuCopyByte);
      assert Contents(t) == Contents(s);
      var g := Gather(t.cache, t.wpos, t.mcu.done);
      forall i | 0 <= i < t.mcu.done ensures g[i] == s.queue[i] {
        if i < s.mcu.done { assert Gather(s.cache, s.wpos, s.mcu.done)[i] == s.queue[..s.mcu.done][i]; }
      }
      assert g == t.queue[..t.mcu.done];
    }
  }

  lemma PublishKeepsInv(s: State)
    requires Inv(s)
    ensures Inv(Step(s, McuPublish))
  {
    if s.mcu.McuCopying? && s.mcu.done == s.mcu.n {
      var t, n := Step(s, McuPublish), s.mcu.n;
      InUseProduced(s.wpos, s.rpos, n, |s.cache|);
      GatherSplit(s.cache, s.rpos, Used(s), n);
      assert Contents(t) == Contents(s) + s.queue[..n];
      assert s.queue[0..] == s.queue[..n] + s.queue[n..];
      hide Gather;
    }
  }

  lemma ConsumeKeepsInv(s: State, taken: nat)
    requires Inv(s)
    ensures Inv(Step(s, CpPublish(taken)))
  {
    hide Gather, Advance, InUse, Free;
    if s.cp.CpReading? && taken <= |s.cp.buf| {
      var t := Step(s, CpPublish(taken));
      InUseConsumed(s.wpos, s.rpos, taken, |s.cache|);
      GatherDrop(s.cache, s.rpos, taken, Used(s));
      assert s.cp.buf[..taken] == Contents(s)[..taken];
      assert Contents(s) == s.cp.buf[..taken] + Contents(t);
    }
  }

  lemma {:induction false} RunKeepsInv(s: State, acts: seq<Action>)
    requires Inv(s)
    ensures Inv(Run(s, acts))
    decreases |acts|
  {
    if acts != [] {
      StepKeepsInv(s, acts[0]);
      RunKeepsInv(Step(s, acts[0]), acts[1..]);
    }
  }

  /**
   No byte is lost, duplicated or reordered, whatever the interleaving: what the decoder took, what
   the ring holds and what the queue has not handed over are together what was received.
   */
  lemma NothingLost(cache: seq<byte>, acts: seq<Action>)
    requires |cache| > 0
    ensures var s := Run(Start(cache), acts);
      && Handed(s) <= |s.queue|
      && s.enqueued == s.consumed + Contents(s) + s.queue[Handed(s)..]
  {
    RunKeepsInv(Start(cache), acts);
  }

  /**
   In every reachable state the byte the MCU is about to write is none of those the co-processor may
   still read, neither within its own snapshot nor within the published ring.
   */
  lemma MemoryIsNotShared(cache: seq<byte>, acts: seq<Action>)
    requires |cache| > 0
    ensures var s := Run(Start(cache), acts);
      s.mcu.McuCopying? && s.mcu.done < s.mcu.n ==>
        && (forall i :: 0 <= i < Used(s) ==> Advance(s.rpos, i, |s.cache|) != Target(s))
        && (s.cp.CpReading? ==>
            forall i :: 0 <= i < InUse(s.cp.w, s.cp.r, |s.cache|) ==> Advance(s.cp.r, i, |s.cache|) != Target(s))
  {
    RunKeepsInv(Start(cache), acts);
  }

  lemma {:induction false} RunAppend(s: State, a: seq<Action>, b: seq<Action>)
    requires WellFormed(s)
    ensures Run(s, a + b) == Run(Run(s, a), b)
    decreases |a|
  {
    if a == [] {
      assert a + b == b;
    } else {
      assert (a + b)[0] == a[0] && (a + b)[1..] == a[1..] + b;
      RunAppend(Step(s, a[0]), a[1..], b);
    }
  }

  ghost function Copies(n: nat): seq<Action> {
    if n == 0 then [] else [McuCopyByte] + Copies(n - 1)
  }

  ghost function Copied(s: State, data: seq<byte>): State
    requires WellFormed(s) && s.mcu.McuCopying? && s.mcu.done + |data| <= s.mcu.n
    ensures WellFormed(Copied(s, data))
  {
    s.(cache := Overwrite(s.cache, Target(s), data), mcu := s.mcu.(done := s.mcu.done + |data|))
  }

  lemma CopyOne(s: State)
    requires WellFormed(s) && s.mcu.McuCopying? && s.mcu.done < s.mcu.n <= |s.queue|
    ensures Step(s, McuCopyByte) == Copied(s, [s.queue[s.mcu.done]])
  {
    OverwriteOne(s.cache, Target(s), s.queue[s.mcu.done]);
  }

  lemma CopiedTwice(s: State, x: seq<byte>, y: seq<byte>)
    requires WellFormed(s) && s.mcu.McuCopying? && s.mcu.done + |x| + |y| <= s.mcu.n
    ensures Copied(Copied(s, x), y) == Copied(s, x + y)
  {
    AdvanceSum(s.mcu.w, s.mcu.done, |x|, |s.cache|);
    OverwriteTwice(s.cache, Target(s), x, y);
  }

  lemma JoinCopies(s: State, x: seq<byte>, y: seq<byte>, z: seq<byte>)
    requires WellFormed(s) && s.mcu.McuCopying? && s.mcu.done + |z| <= s.mcu.n && z == x + y
    ensures Copied(Copied(s, x), y) == Copied(s, z)
  {
    CopiedTwice(s, x, y);
  }

  lemma CopiedNothing(s: State)
    requires WellFormed(s) && s.mcu.McuCopying?
    ensures Copied(s, []) == s
  {
    assert Overwrite(s.cache, Target(s), []) == s.cache;
  }

  lemma FirstCopy(s: State, k: nat)
    requires k > 0 && WellFormed(s)
    ensures WellFormed(Step(s, McuCopyByte)) && Run(s, Copies(k)) == Run(Step(s, McuCopyByte), Copies(k - 1))
  {
    hide Step, WellFormed;
    assert Copies(k)[0] == McuCopyByte && Copies(k)[1..] == Copies(k - 1);
  }

  /** Copying byte by byte, uninterrupted, is one block copy. */
  lemma {:induction false} CopiesAreOverwrite(s: State, k: nat)
    requires WellFormed(s) && s.mcu.McuCopying? && s.mcu.done + k <= s.mcu.n <= |s.queue|
    ensures Run(s, Copies(k)) == Copied(s, s.queue[s.mcu.done..s.mcu.done + k])
    decreases k
  {
    hide Step, WellFormed, Copied, Run, Copies;
    var d, q := s.mcu.done, s.queue;
    if k == 0 {
      CopiedNothing(s);
      NoCopies(s);
      assert q[d..d] == [];
    } else {
      FirstCopy(s, k);
      AfterOne(s);
      var t := Copied(s, [q[d]]);
      var rest := q[d + 1..d + k];
      assert t.queue[t.mcu.done..t.mcu.done + (k - 1)] == rest;
      CopiesAreOverwrite(t, k - 1);
      assert q[d..d + k] == [q[d]] + rest;
      JoinCopies(s, [q[d]], rest, q[d..d + k]);
    }
  }

  lemma NoCopies(s: State)
    requires WellFormed(s)
    ensures Run(s, Copies(0)) == s
  {}

  lemma AfterOne(s: State)
    requires WellFormed(s) && s.mcu.McuCopying? && s.mcu.done < s.mcu.n <= |s.queue|
    ensures var t := Copied(s, [s.queue[s.mcu.done]]);
      && Step(s, McuCopyByte) == t && WellFormed(t)
      && t.mcu.McuCopying? && t.mcu.n == s.mcu.n && t.mcu.done == s.mcu.done + 1 && t.queue == s.queue
  {
    CopyOne(s);
  }

  /** The steps of one uninterrupted load when `n` bytes can move. */
  ghost function LoadActions(n: nat): seq<Action> {
    [McuSnapshot, McuLength, McuPeek] + Copies(n) + [McuPublish, McuDequeue]
  }

  lemma BeginsCopying(s: State)
    requires WellFormed(s) && s.mcu.McuIdle? && Free(s.wpos, s.rpos, |s.cache|) != 0
    ensures Run(s, [McuSnapshot, McuLength, McuPeek])
         == s.(mcu := McuCopying(s.wpos, s.rpos, Min(|s.queue|, Free(s.wpos, s.rpos, |s.cache|)), 0))
  {
    var s1 := Step(s, McuSnapshot);
    var s2 := Step(s1, McuLength);
    assert [McuSnapshot, McuLength, McuPeek][1..] == [McuLength, McuPeek];
    assert [McuLength, McuPeek][1..] == [McuPeek];
    assert Run(s2, [McuPeek]) == Run(Step(s2, McuPeek), []);
  }

  lemma EndsCopying(s: State)
    requires WellFormed(s) && s.mcu.McuCopying? && s.mcu.done == s.mcu.n <= |s.queue|
    ensures Run(s, [McuPublish, McuDequeue])
         == s.(wpos := Target(s), queue := s.queue[s.mcu.n..], mcu := McuIdle)
  {
    var s1 := Step(s, McuPublish);
    assert [McuPublish, McuDequeue][1..] == [McuDequeue];
    assert Run(s1, [McuDequeue]) == Run(Step(s1, McuDequeue), []);
  }

  /** An uninterrupted load has exactly the effect InCache.Load promises. */
  lemma LoadIsARun(s: State)
    requires WellFormed(s) && s.mcu.McuIdle?
    ensures var n := Min(|s.queue|, Free(s.wpos, s.rpos, |s.cache|));
      Free(s.wpos, s.rpos, |s.cache|) != 0 ==>
      Run(s, LoadActions(n)) == s.(
        cache := Overwrite(s.cache, s.wpos, s.queue[..n]),
        wpos := Advance(s.wpos, n, |s.cache|),
        queue := s.queue[n..])
  {
    var n := Min(|s.queue|, Free(s.wpos, s.rpos, |s.cache|));
    if Free(s.wpos, s.rpos, |s.cache|) != 0 {
      var pre, post := [McuSnapshot, McuLength, McuPeek], [McuPublish, McuDequeue];
      BeginsCopying(s);
      var s3 := s.(mcu := McuCopying(s.wpos, s.rpos, n, 0));
      CopiesAreOverwrite(s3, n);
      EndsCopying(Run(s3, Copies(n)));
      RunAppend(s, pre, Copies(n));
      RunAppend(s, pre + Copies(n), post);
    }
  }

  // ----- The co-processor's side without interruption. -----

  ghost function Reads(n: nat): seq<Action> {
    if n == 0 then [] else [CpReadByte] + Reads(n - 1)
  }

  lemma RunFirst(s: State, a: Action, rest: seq<Action>)
    requires WellFormed(s)
    ensures Run(s, [a] + rest) == Run(Step(s, a), rest)
  {
    assert ([a] + rest)[1..] == rest;
  }

  lemma ReadOne(s: State)
    requires WellFormed(s) && s.cp.CpReading? && |s.cp.buf| < InUse(s.cp.w, s.cp.r, |s.cache|)
    requires s.cp.buf == Gather(s.cache, s.cp.r, |s.cp.buf|)
    ensures Step(s, CpReadByte) == s.(cp := s.cp.(buf := Gather(s.cache, s.cp.r, |s.cp.buf| + 1)))
  {
    assert Gather(s.cache, s.cp.r, |s.cp.buf| + 1)
      == s.cp.buf + [s.cache[Advance(s.cp.r, |s.cp.buf|, |s.cache|)]];
  }

  /** Uninterrupted reads of single bytes are one read of a block. */
  lemma {:induction false} ReadsAreGather(s: State, n: nat)
    requires WellFormed(s) && s.cp.CpReading? && |s.cp.buf| + n <= InUse(s.cp.w, s.cp.r, |s.cache|)
    requires s.cp.buf == Gather(s.cache, s.cp.r, |s.cp.buf|)
    ensures Run(s, Reads(n)) == s.(cp := s.cp.(buf := Gather(s.cache, s.cp.r, |s.cp.buf| + n)))
    decreases n
  {
    if n > 0 {
      ReadOne(s);
      hide Run, Step, Gather, InUse;
      RunFirst(s, CpReadByte, Reads(n - 1));
      ReadsAreGather(Step(s, CpReadByte), n - 1);
    } else {
      assert Run(s, []) == s;
    }
  }

  lemma SnapshotTaken(s: State)
    requires WellFormed(s) && s.cp.CpIdle?
    ensures Step(s, CpSnapshot) == s.(cp := CpReading(s.rpos, s.wpos, []))
    ensures Gather(s.cache, s.rpos, 0) == []
  {}

  lemma Published(s: State, n: nat, taken: nat)
    requires WellFormed(s) && s.cp.CpReading? && s.cp.r == s.rpos && taken <= n <= Used(s)
    requires s.cp.buf == Gather(s.cache, s.rpos, n)
    ensures Step(s, CpPublish(taken)) == s.(
      rpos := Advance(s.rpos, taken, |s.cache|), consumed := s.consumed + Contents(s)[..taken], cp := CpIdle)
  {
    GatherDrop(s.cache, s.rpos, taken, n);
    GatherDrop(s.cache, s.rpos, taken, Used(s));
    hide Gather, InUse;
  }

  lemma RunLast(s: State, a: Action)
    requires WellFormed(s)
    ensures Run(s, [a]) == Step(s, a)
  {
    hide Step;
    assert [a][1..] == [];
    assert Run(Step(s, a), []) == Step(s, a);
  }

  /** An uninterrupted fetch takes exactly the oldest bytes of the ring, as InCache.GetData returns them. */
  lemma FetchIsARun(s: State, n: nat, taken: nat)
    requires WellFormed(s) && s.cp.CpIdle? && taken <= n <= Used(s)
    ensures Run(s, [CpSnapshot] + (Reads(n) + [CpPublish(taken)])) == s.(
      rpos := Advance(s.rpos, taken, |s.cache|),
      consumed := s.consumed + Contents(s)[..taken])
  {
    SnapshotTaken(s);
    var s1 := s.(cp := CpReading(s.rpos, s.wpos, []));
    var s2 := s.(cp := CpReading(s.rpos, s.wpos, Gather(s.cache, s.rpos, n)));
    assert WellFormed(s1) && WellFormed(s2);
    ReadsAreGather(s1, n);
    Published(s2, n, taken);
    hide Step, Run, Gather, InUse, Advance;
    RunFirst(s, CpSnapshot, Reads(n) + [CpPublish(taken)]);
    RunAppend(s1, Reads(n), [CpPublish(taken)]);
    RunLast(s2, CpPublish(taken));
  }
}
