/**
 The ring that keeps what was played until the echo canceller has recorded the matching input. All
 writes and reads have one fixed length; a flag tells a full ring from an empty one. Overrunning the
 end of the memory, overflow and underflow are assertions in the source.
 */
module EchoRing {
  import opened Ring

  datatype State = State(buf: seq<byte>, wpos: nat, rpos: nat, full: bool)

  datatype Fault = WriteOverrun | Overflow | ReadOverrun | Underflow

  datatype Status = Done | Stopped(fault: Fault)

  datatype Outcome = Ok(state: State, data: seq<byte>) | Asserted(fault: Fault)

  ghost predicate WellFormed(s: State) {
    s.wpos < |s.buf| && s.rpos < |s.buf|
  }

  /** The length both sides compute from the positions and the flag. */
  function QueueLen(s: State): nat
    requires WellFormed(s)
  {
    if s.rpos == s.wpos then (if s.full then |s.buf| else 0)
    else if s.rpos < s.wpos then s.wpos - s.rpos
    else |s.buf| + s.wpos - s.rpos
  }

  function Stepped(pos: nat, n: nat, size: nat): nat {
    if pos + n >= size then 0 else pos + n
  }

  function Write(s: State, data: seq<byte>): Outcome
    requires WellFormed(s)
  {
    if s.wpos + |data| > |s.buf| then Asserted(WriteOverrun)
    else if QueueLen(s) + |data| > |s.buf| then Asserted(Overflow)
    else
      var w := Stepped(s.wpos, |data|, |s.buf|);
      Ok(State(s.buf[..s.wpos] + data + s.buf[s.wpos + |data|..], w, s.rpos, s.full || s.rpos == w), [])
  }

  function Read(s: State, n: nat): Outcome
    requires WellFormed(s)
  {
    if s.rpos + n > |s.buf| then Asserted(ReadOverrun)
    else if QueueLen(s) < n then Asserted(Underflow)
    else
      Ok(s.(rpos := Stepped(s.rpos, n, |s.buf|), full := s.full && s.rpos != s.wpos), s.buf[s.rpos..s.rpos + n])
  }

  class Echo {
    const queue: array<byte>
    var wpos: nat
    var rpos: nat
    var full: bool

    ghost predicate Valid()
      reads this, queue
    {
      WellFormed(Abs())
    }

    ghost function Abs(): State
      reads this, queue
    {
      State(queue[..], wpos, rpos, full)
    }

    constructor (size: nat)
      requires size > 0
      ensures Valid() && queue.Length == size && wpos == rpos == 0 && !full
    {
      queue := new byte[size](_ => 0);
      wpos, rpos, full := 0, 0, false;
    }

    /** Appends one chunk, or reports the assertion that fails. */
    method Put(data: seq<byte>) returns (status: Status)
      requires Valid()
      modifies this, queue
      ensures Valid()
      ensures match Write(old(Abs()), data)
        case Ok(s, _) => status == Done && Abs() == s
        case Asserted(f) => status == Stopped(f) && Abs() == old(Abs())
    {
      if wpos + |data| > queue.Length {
        return Stopped(WriteOverrun);
      }
      var len := QueueLen(State(queue[..], wpos, rpos, full));
      if len + |data| > queue.Length {
        return Stopped(Overflow);
      }
      CopyInto(queue, wpos, data);
      wpos := wpos + |data|;
      if wpos >= queue.Length {
        wpos := 0;
      }
      if rpos == wpos {
        full := true;
      }
      status := Done;
    }

    /** Takes the oldest `n` bytes, or reports the assertion that fails. */
    method Take(n: nat) returns (status: Status, data: seq<byte>)
      requires Valid()
      modifies this
      ensures Valid()
      ensures match Read(old(Abs()), n)
        case Ok(s, d) => status == Done && Abs() == s && data == d
        case Asserted(f) => status == Stopped(f) && data == []
    {
      status, data := Done, [];
      if rpos + n > queue.Length {
        return Stopped(ReadOverrun), [];
      }
      var len := QueueLen(State(queue[..], wpos, rpos, full));
      if rpos == wpos {
        full := false;
      }
      if len < n {
        return Stopped(Underflow), [];
      }
      data := queue[rpos..rpos + n];
      rpos := rpos + n;
      if rpos >= queue.Length {
        rpos := 0;
      }
    }
  }

  // ----- The ring is a first-in first-out queue. -----

  datatype Op = Play(data: seq<byte>) | Record

  /** The calls the two audio paths make: fixed chunks, never beyond emptiness or capacity. */
  ghost predicate Legal(ops: seq<Op>, chunk: nat, size: nat, queued: nat)
    decreases |ops|
  {
    ops != [] ==>
      if ops[0].Play?
      then |ops[0].data| == chunk && queued + chunk <= size && Legal(ops[1..], chunk, size, queued + chunk)
      else chunk <= queued && Legal(ops[1..], chunk, size, queued - chunk)
  }

  /** What a plain queue would return. */
  ghost function Fifo(ops: seq<Op>, chunk: nat, size: nat, queue: seq<byte>): seq<seq<byte>>
    requires Legal(ops, chunk, size, |queue|)
    decreases |ops|
  {
    if ops == [] then []
    else if ops[0].Play? then Fifo(ops[1..], chunk, size, queue + ops[0].data)
    else [queue[..chunk]] + Fifo(ops[1..], chunk, size, queue[chunk..])
  }

  datatype RunResult = Completed(outputs: seq<seq<byte>>) | Halted

  ghost function Run(s: State, ops: seq<Op>, chunk: nat): RunResult
    requires WellFormed(s)
    decreases |ops|
  {
    if ops == [] then Completed([])
    else
      match (if ops[0].Play? then Write(s, ops[0].data) else Read(s, chunk))
      case Asserted(_) => Halted
      case Ok(t, data) =>
        match Run(t, ops[1..], chunk)
        case Halted => Halted
        case Completed(outputs) => Completed((if ops[0].Play? then [] else [data]) + outputs)
  }

  ghost function Empty(buf: seq<byte>): State { State(buf, 0, 0, false) }

  ghost function Times(k: nat, n: nat): nat {
    if k == 0 then 0 else Times(k - 1, n) + n
  }

  ghost predicate Multiple(pos: nat, chunk: nat) {
    exists k: nat :: pos == Times(k, chunk)
  }

  ghost predicate Aligned(s: State, chunk: nat)
    requires WellFormed(s) && chunk > 0
  {
    Multiple(s.wpos, chunk) && Multiple(s.rpos, chunk) && Multiple(|s.buf|, chunk)
  }

  /** The ring holds exactly `queue`, and the flag is set exactly when that fills it. */
  ghost predicate Holds(s: State, queue: seq<byte>) {
    && WellFormed(s) && |queue| <= |s.buf|
    && s.wpos == Advance(s.rpos, |queue|, |s.buf|)
    && (s.full <==> |queue| == |s.buf|)
    && Gather(s.buf, s.rpos, |queue|) == queue
  }

  /** An aligned position leaves room for a whole chunk, and the next one is aligned again. */
  lemma AlignedStep(pos: nat, chunk: nat, size: nat)
    requires chunk > 0 && pos < size && Multiple(pos, chunk) && Multiple(size, chunk)
    ensures pos + chunk <= size
    ensures Stepped(pos, chunk, size) == Advance(pos, chunk, size)
    ensures Multiple(Stepped(pos, chunk, size), chunk)
  {
    var a: nat :| pos == Times(a, chunk);
    var b: nat :| size == Times(b, chunk);
    OrderedTimes(a, b, chunk);
    assert pos + chunk == Times(a + 1, chunk);
    assert 0 == Times(0, chunk);
  }

  lemma {:induction false} TimesGrows(a: nat, b: nat, n: nat)
    requires a <= b
    ensures Times(a, n) <= Times(b, n)
    decreases b
  {
    if a < b { TimesGrows(a, b - 1, n); }
  }

  lemma OrderedTimes(a: nat, b: nat, n: nat)
    requires Times(a, n) < Times(b, n)
    ensures Times(a, n) + n <= Times(b, n)
  {
    if b <= a { TimesGrows(b, a, n); } else { TimesGrows(a + 1, b, n); }
  }

  lemma {:induction false} TimesIsProduct(k: nat, n: nat)
    ensures Times(k, n) == k * n
    decreases k
  {
    if k > 0 {
      TimesIsProduct(k - 1, n);
      assert (k - 1) * n + n == k * n;
    }
  }

  /** The queue length both sides compute is the number of bytes written and not yet read. */
  lemma QueueLenCounts(s: State, queue: seq<byte>)
    requires Holds(s, queue)
    ensures QueueLen(s) == |queue|
  {}

  /**
   Which assertion a write or a read meets, for every length: crossing the end of the memory is looked at first, then
   whether there is room, or enough to read. Without a fault exactly the bytes taken are the oldest.
   */
  lemma FaultsTell(s: State, queue: seq<byte>, data: seq<byte>, n: nat)
    requires Holds(s, queue)
    ensures Write(s, data) == Asserted(WriteOverrun) <==> |s.buf| - s.wpos < |data|
    ensures Write(s, data) == Asserted(Overflow) <==> |data| <= |s.buf| - s.wpos && |s.buf| < |queue| + |data|
    ensures Write(s, data).Ok? <==> |data| <= |s.buf| - s.wpos && |queue| + |data| <= |s.buf|
    ensures Read(s, n) == Asserted(ReadOverrun) <==> |s.buf| - s.rpos < n
    ensures Read(s, n) == Asserted(Underflow) <==> n <= |s.buf| - s.rpos && |queue| < n
    ensures Read(s, n).Ok? <==> n <= |s.buf| - s.rpos && n <= |queue|
    ensures Read(s, n).Ok? ==> Read(s, n).data == queue[..n]
  {
    hide Gather, Holds;
    QueueLenCounts(s, queue);
    if n <= |s.buf| - s.rpos && n <= |queue| { Oldest(s, queue, n); }
  }

  lemma Oldest(s: State, queue: seq<byte>, n: nat)
    requires Holds(s, queue) && n <= |queue| && s.rpos + n <= |s.buf|
    ensures s.buf[s.rpos..s.rpos + n] == queue[..n]
  {
    GatherFlat(s.buf, s.rpos, n);
    assert Gather(s.buf, s.rpos, |queue|)[..n] == Gather(s.buf, s.rpos, n);
  }

  lemma WriteAppends(s: State, queue: seq<byte>, data: seq<byte>)
    requires Holds(s, queue) && |data| > 0 && Aligned(s, |data|) && |queue| + |data| <= |s.buf|
    ensures var o := Write(s, data);
      o.Ok? && |o.state.buf| == |s.buf| && Holds(o.state, queue + data) && Aligned(o.state, |data|)
  {
    AlignedStep(s.wpos, |data|, |s.buf|);
    QueueLenCounts(s, queue);
    OverwriteFlat(s.buf, s.wpos, data);
    GatherAppended(s.buf, s.rpos, |queue|, data);
    AdvanceSum(s.rpos, |queue|, |data|, |s.buf|);
    hide Gather, Overwrite;
  }

  lemma ReadRemoves(s: State, queue: seq<byte>, n: nat)
    requires Holds(s, queue) && n > 0 && Aligned(s, n) && n <= |queue|
    ensures var o := Read(s, n);
      o.Ok? && o.data == queue[..n] && o.state.buf == s.buf && Holds(o.state, queue[n..]) && Aligned(o.state, n)
  {
    AlignedStep(s.rpos, n, |s.buf|);
    QueueLenCounts(s, queue);
    GatherDrop(s.buf, s.rpos, n, |queue|);
    GatherFlat(s.buf, s.rpos, n);
    AdvanceSum(s.rpos, n, |queue| - n, |s.buf|);
    hide Gather;
  }

  lemma {:induction false} RunIsFifo(s: State, queue: seq<byte>, ops: seq<Op>, chunk: nat)
    requires chunk > 0 && Holds(s, queue) && Aligned(s, chunk) && Legal(ops, chunk, |s.buf|, |queue|)
    ensures Run(s, ops, chunk) == Completed(Fifo(ops, chunk, |s.buf|, queue))
    decreases |ops|
  {
    if ops != [] {
      if ops[0].Play? {
        WriteAppends(s, queue, ops[0].data);
        hide Holds, Write, Read, Aligned;
        RunIsFifo(Write(s, ops[0].data).state, queue + ops[0].data, ops[1..], chunk);
      } else {
        ReadRemoves(s, queue, chunk);
        hide Holds, Write, Read, Aligned;
        RunIsFifo(Read(s, chunk).state, queue[chunk..], ops[1..], chunk);
      }
    }
  }

  ghost predicate NeverAsserts(chunk: nat, size: nat) {
    forall buf: seq<byte>, ops: seq<Op> {:trigger Run(Empty(buf), ops, chunk)} ::
      |buf| == size > 0 && Legal(ops, chunk, size, 0) ==> Run(Empty(buf), ops, chunk).Completed?
  }

  /** `k` times a chunk in and out again. */
  ghost function Rounds(k: nat, data: seq<byte>): seq<Op> {
    if k == 0 then [Play(data)] else [Play(data), Record] + Rounds(k - 1, data)
  }

  lemma {:induction false} RoundsLegal(k: nat, data: seq<byte>, size: nat)
    requires |data| <= size
    ensures Legal(Rounds(k, data), |data|, size, 0)
    decreases k
  {
    if k > 0 {
      RoundsLegal(k - 1, data, size);
      var ops := Rounds(k, data);
      assert ops[1..][0] == Record && ops[1..][1..] == Rounds(k - 1, data);
    }
  }

  /** An unaligned ring runs over its end once the positions have moved far enough. */
  lemma {:induction false} RoundsOverrun(s: State, k: nat, data: seq<byte>)
    requires WellFormed(s) && s.wpos == s.rpos && !s.full && |data| > 0
    requires s.wpos + k * |data| < |s.buf| < s.wpos + (k + 1) * |data|
    ensures Run(s, Rounds(k, data), |data|) == Halted
    decreases k
  {
    if k > 0 {
      var n, ops := |data|, Rounds(k, data);
      assert (k - 1) * n == k * n - n && (k + 1) * n == k * n + n;
      assert k * n >= n by { assert k * n == (k - 1) * n + n; assert (k - 1) * n >= 0; }
      assert ops[1..][0] == Record && ops[1..][1..] == Rounds(k - 1, data);
      var t := Write(s, data).state;
      var u := Read(t, n).state;
      assert u.wpos == u.rpos == s.wpos + n && !u.full;
      RoundsOverrun(u, k - 1, data);
    }
  }

  lemma DivisionBounds(chunk: nat, size: nat)
    requires chunk > 0
    ensures size % chunk == 0 ==> size == Times(size / chunk, chunk)
    ensures size % chunk != 0 ==> (size / chunk) * chunk < size < (size / chunk + 1) * chunk
  {
    TimesIsProduct(size / chunk, chunk);
    assert size == (size / chunk) * chunk + size % chunk;
  }

  lemma MultipleIsSafe(chunk: nat, size: nat)
    requires chunk > 0 && size > 0 && (size % chunk == 0 || size < chunk)
    ensures NeverAsserts(chunk, size)
  {
    DivisionBounds(chunk, size);
    assert 0 == Times(0, chunk);
    forall buf: seq<byte>, ops: seq<Op> | |buf| == size && Legal(ops, chunk, size, 0)
      ensures Run(Empty(buf), ops, chunk).Completed?
    {
      if size < chunk { assert ops == []; } else { RunIsFifo(Empty(buf), [], ops, chunk); }
    }
  }

  lemma OtherwiseOverruns(chunk: nat, size: nat)
    requires chunk > 0 && size % chunk != 0 && size >= chunk
    ensures !NeverAsserts(chunk, size)
  {
    var buf, data := seq(size, _ => 0 as byte), seq(chunk, _ => 0 as byte);
    DivisionBounds(chunk, size);
    RoundsLegal(size / chunk, data, size);
    RoundsOverrun(Empty(buf), size / chunk, data);
    assert !Run(Empty(buf), Rounds(size / chunk, data), chunk).Completed?;
  }

  /**
   With chunks of one length, no position or length assertion can fail over any legal run exactly when
   the size is a multiple of the chunk, or too small for any chunk at all.
   */
  lemma SizeMustBeMultiple(chunk: nat, size: nat)
    requires chunk > 0 && size > 0
    ensures NeverAsserts(chunk, size) <==> size % chunk == 0 || size < chunk
  {
    if size % chunk == 0 || size < chunk {
      MultipleIsSafe(chunk, size);
    } else {
      OtherwiseOverruns(chunk, size);
    }
  }
}
