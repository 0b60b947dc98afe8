/**
 Handing call-audio frames to the co-processor. The MCU leaves a frame and takes the result of the
 previous one in the same exchange; a state variable says which core owns the shared buffers.
 */
module ScoHandoff {
  import opened Ring

  const FRAME_LEN_MAX := 256
  const CHANNEL_NUM_MAX := 2
  const CAPACITY := FRAME_LEN_MAX * CHANNEL_NUM_MAX

  type Pcm = seq<int>

  datatype Owner = None | Idle | Working

  /** The shared variables; the counters are kept by the MCU and the co-processor respectively. */
  datatype Shared = Shared(owner: Owner, inPcm: Pcm, outPcm: Pcm, inRef: Pcm, pcmLen: nat,
                           frameLen: nat, channels: nat, required: nat, runs: nat)

  /** A signal-processing algorithm: any function of its own state, a frame and a reference frame. */
  type Algo<!A> = (A, Pcm, Pcm) -> (A, Pcm)

  datatype RefFrame = NoRef | Ref(data: Pcm)

  /** One call of the exchange. The source asserts the frame size. */
  datatype Call = Call(pcm: Pcm, ref: RefFrame)

  ghost predicate WellFormed(sh: Shared) {
    && |sh.inPcm| == CAPACITY && |sh.outPcm| == CAPACITY && |sh.inRef| == FRAME_LEN_MAX
    && sh.pcmLen <= CAPACITY && 0 < sh.frameLen <= FRAME_LEN_MAX && 0 < sh.channels <= CHANNEL_NUM_MAX
  }

  ghost predicate Suits(sh: Shared, c: Call) {
    && |c.pcm| == sh.frameLen * sh.channels
    && (c.ref.Ref? ==> |c.ref.data| == sh.frameLen)
  }

  function Patched(buf: Pcm, data: Pcm): (r: Pcm)
    requires |data| <= |buf|
    ensures |r| == |buf| && r[..|data|] == data
  {
    data + buf[|data|..]
  }

  /** Silence. */
  function Zeros(n: nat): (r: Pcm)
    ensures |r| == n && forall x <- r :: x == 0
  {
    seq(n, _ => 0)
  }

  lemma FrameFits(frameLen: nat, channels: nat)
    requires 0 < frameLen <= FRAME_LEN_MAX && 0 < channels <= CHANNEL_NUM_MAX
    ensures frameLen <= frameLen * channels <= CAPACITY
  {
    assert channels == 1 || channels == 2;
  }

  /** The shared variables after initialisation, whatever the buffers held before. */
  ghost function Inited(inPcm: Pcm, outPcm: Pcm, inRef: Pcm, frameLen: nat, channels: nat): (r: Shared)
    requires |inPcm| == CAPACITY && |outPcm| == CAPACITY && |inRef| == FRAME_LEN_MAX
    requires 0 < frameLen <= FRAME_LEN_MAX && 0 < channels <= CHANNEL_NUM_MAX
    ensures WellFormed(r)
  {
    FrameFits(frameLen, channels);
    Shared(Idle, Patched(inPcm, Zeros(frameLen * channels)), Patched(outPcm, Zeros(frameLen * channels)),
           Patched(inRef, Zeros(frameLen)), frameLen, frameLen, channels, 0, 0)
  }

  /** Copies `data` to the front of a buffer. */
  method Patch(buf: array<int>, data: Pcm)
    requires |data| <= buf.Length
    modifies buf
    ensures buf[..] == Patched(old(buf[..]), data)
  {
    CopyInto(buf, 0, data);
  }

  class Bridge {
    var owner: Owner
    const inPcm: array<int>
    const outPcm: array<int>
    const inRef: array<int>
    var pcmLen: nat
    var frameLen: nat
    var channels: nat
    var requireCnt: nat
    var runCnt: nat

    ghost predicate Valid()
      reads this, inPcm, outPcm, inRef
    {
      && inPcm != outPcm && inPcm != inRef && outPcm != inRef
      && inPcm.Length == CAPACITY && outPcm.Length == CAPACITY && inRef.Length == FRAME_LEN_MAX
      && (owner != None ==> WellFormed(Abs()))
    }

    ghost function Abs(): Shared
      reads this, inPcm, outPcm, inRef
    {
      Shared(owner, inPcm[..], outPcm[..], inRef[..], pcmLen, frameLen, channels, requireCnt, runCnt)
    }

    constructor ()
      ensures Valid() && owner == None && fresh(inPcm) && fresh(outPcm) && fresh(inRef)
    {
      owner := None;
      inPcm, outPcm, inRef := new int[CAPACITY](_ => 0), new int[CAPACITY](_ => 0), new int[FRAME_LEN_MAX](_ => 0);
      pcmLen, frameLen, channels, requireCnt, runCnt := 0, 0, 0, 0, 0;
    }

    method Init(frameLen: nat, channels: nat)
      requires Valid() && 0 < frameLen <= FRAME_LEN_MAX && 0 < channels <= CHANNEL_NUM_MAX
      modifies this, inPcm, outPcm, inRef
      ensures Valid() && owner == Idle
      ensures Abs() == Inited(old(inPcm[..]), old(outPcm[..]), old(inRef[..]), frameLen, channels)
    {
      requireCnt, runCnt := 0, 0;
      this.frameLen, this.channels, pcmLen := frameLen, channels, frameLen;
      FrameFits(frameLen, channels);
      Patch(inPcm, Zeros(frameLen * channels));
      Patch(outPcm, Zeros(frameLen * channels));
      Patch(inRef, Zeros(frameLen));
      owner := Idle;
    }

    /**
     The exchange, once the wait for the co-processor is over: leaves the frame, returns the previous
     result in place of it. The caller's buffer must be able to hold that result.
     */
    method Process(pcm: array<int>, ref: RefFrame) returns (len: nat)
      requires Valid() && owner != Working && pcm != inPcm && pcm != outPcm && pcm != inRef
      requires Suits(Abs(), Call(pcm[..], ref)) && pcmLen <= pcm.Length
      modifies this, inPcm, inRef, pcm
      ensures Valid()
      ensures old(owner) == Idle ==>
        && len == old(pcmLen)
        && pcm[..] == Patched(old(pcm[..]), old(outPcm[..pcmLen]))
        && Abs() == Exchanged(old(Abs()), Call(old(pcm[..]), ref))
      ensures old(owner) == None ==> len == pcm.Length && pcm[..] == old(pcm[..]) && Abs() == old(Abs())
    {
      len := pcm.Length;
      if owner == Idle {
        SuitsCapacity(Abs(), Call(pcm[..], ref));
        Patch(inPcm, pcm[..]);
        if ref.Ref? {
          Patch(inRef, ref.data);
        }
        Patch(pcm, outPcm[..pcmLen]);
        len := pcmLen;
        pcmLen := pcm.Length;
        requireCnt := requireCnt + 1;
        owner := Working;
      }
    }

    /** The co-processor's task: runs the algorithm on the frame in place and publishes the result. */
    method CpMain<A>(algo: Algo<A>, a: A) returns (b: A)
      requires Valid() && owner == Working && |algo(a, inPcm[..pcmLen], inRef[..frameLen]).1| <= CAPACITY
      modifies this, inPcm, outPcm
      ensures Valid() && b == algo(a, old(inPcm[..pcmLen]), old(inRef[..frameLen])).0
      ensures Abs() == Served(old(Abs()), algo(a, old(inPcm[..pcmLen]), old(inRef[..frameLen])).1)
    {
      var r := algo(a, inPcm[..pcmLen], inRef[..frameLen]);
      Patch(inPcm, r.1);
      pcmLen := |r.1|;
      Patch(outPcm, inPcm[..pcmLen]);
      runCnt := runCnt + 1;
      owner := Idle;
      b := r.0;
    }
  }

  lemma SuitsCapacity(sh: Shared, c: Call)
    requires WellFormed(sh) && Suits(sh, c)
    ensures |c.pcm| <= CAPACITY && (c.ref.Ref? ==> |c.ref.data| <= FRAME_LEN_MAX)
  {
    assert sh.channels == 1 || sh.channels == 2;
  }

  // The pieces of the exchange and of the service, in the order they happen.

  ghost function InFilled(sh: Shared, c: Call): Shared
    requires WellFormed(sh) && |c.pcm| <= CAPACITY
  {
    sh.(inPcm := Patched(sh.inPcm, c.pcm))
  }

  ghost function RefFilled(sh: Shared, c: Call): Shared
    requires WellFormed(sh) && (c.ref.Ref? ==> |c.ref.data| <= FRAME_LEN_MAX)
  {
    if c.ref.Ref? then sh.(inRef := Patched(sh.inRef, c.ref.data)) else sh
  }

  ghost function Exchanged(sh: Shared, c: Call): Shared
    requires WellFormed(sh) && |c.pcm| <= CAPACITY && (c.ref.Ref? ==> |c.ref.data| <= FRAME_LEN_MAX)
  {
    RefFilled(InFilled(sh, c), c).(pcmLen := |c.pcm|, required := sh.required + 1, owner := Working)
  }

  ghost function Computed(sh: Shared, result: Pcm): Shared
    requires WellFormed(sh) && |result| <= CAPACITY
  {
    sh.(inPcm := Patched(sh.inPcm, result), pcmLen := |result|)
  }

  ghost function OutFilled(sh: Shared): Shared
    requires WellFormed(sh)
  {
    sh.(outPcm := Patched(sh.outPcm, sh.inPcm[..sh.pcmLen]))
  }

  ghost function Served(sh: Shared, result: Pcm): Shared
    requires WellFormed(sh) && |result| <= CAPACITY
  {
    OutFilled(Computed(sh, result)).(runs := sh.runs + 1, owner := Idle)
  }
}
