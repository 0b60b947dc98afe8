/**
 The exchange of call-audio frames under every interleaving of the caller and the co-processor. Each
 buffer copy and each access to a shared variable is a step. A step that is not possible leaves the
 state unchanged, so every list of actions is a run.
 */
module ScoProtocol {
  import opened ScoHandoff

  /** Where the caller stands; `In` counts the pieces of the exchange already done. */
  datatype McuPc = Outside | Waiting(c: Call) | In(c: Call, done: nat)

  datatype CpPc = CpIdle | CpStarted | CpComputed | CpFilled | CpCounted

  /**
   `signalled` is the event to the co-processor; `a` the algorithm's own state. `calls` records the
   completed exchanges and `returned` what they gave back.
   */
  datatype State<A> = State(sh: Shared, signalled: bool, mcu: McuPc, cp: CpPc, a: A,
                            calls: seq<Call>, returned: seq<Pcm>)

  datatype Action =
    | McuCall(c: Call) | McuPoll | McuFillIn | McuFillRef | McuTakeOut | McuSetLength | McuCount | McuPublish
    | CpStart | CpCompute | CpFill | CpCount | CpRelease

  ghost predicate Bounded<A(!new)>(s: State<A>, algo: Algo<A>) {
    && WellFormed(s.sh) && s.sh.owner != None && Short(algo)
    && (!s.mcu.Outside? ==> Suits(s.sh, s.mcu.c) && |s.mcu.c.pcm| <= CAPACITY)
  }

  /** The algorithm's results fit the shared buffers. */
  ghost predicate Short<A(!new)>(algo: Algo<A>) {
    forall a: A, pcm, ref :: |algo(a, pcm, ref).1| <= CAPACITY
  }

  ghost function McuStep<A(!new)>(s: State<A>, act: Action, algo: Algo<A>): (t: State<A>)
    requires Bounded(s, algo)
    ensures Bounded(t, algo)
  {
    if s.mcu.Outside? then
      if act.McuCall? && Suits(s.sh, act.c) then (SuitsCapacity(s.sh, act.c); s.(mcu := Waiting(act.c))) else s
    else if s.mcu.Waiting? then
      if act.McuPoll? && s.sh.owner.Idle? then s.(mcu := In(s.mcu.c, 0)) else s
    else
      var c := s.mcu.c;
      match (s.mcu.done, act)
      case (0, McuFillIn) => s.(sh := InFilled(s.sh, c), mcu := In(c, 1))
      case (1, McuFillRef) => SuitsCapacity(s.sh, c); s.(sh := RefFilled(s.sh, c), mcu := In(c, 2))
      case (2, McuTakeOut) => s.(returned := s.returned + [s.sh.outPcm[..s.sh.pcmLen]], mcu := In(c, 3))
      case (3, McuSetLength) => s.(sh := s.sh.(pcmLen := |c.pcm|), mcu := In(c, 4))
      case (4, McuCount) => s.(sh := s.sh.(required := s.sh.required + 1), mcu := In(c, 5))
      case (5, McuPublish) =>
        s.(sh := s.sh.(owner := Working), signalled := true, mcu := Outside, calls := s.calls + [c])
      case _ => s
  }

  ghost function CpStep<A(!new)>(s: State<A>, act: Action, algo: Algo<A>): (t: State<A>)
    requires Bounded(s, algo)
    ensures Bounded(t, algo)
  {
    match (s.cp, act)
    case (CpIdle, CpStart) => if s.signalled then s.(signalled := false, cp := CpStarted) else s
    case (CpStarted, CpCompute) =>
      var r := algo(s.a, s.sh.inPcm[..s.sh.pcmLen], s.sh.inRef[..s.sh.frameLen]);
      s.(sh := Computed(s.sh, r.1), a := r.0, cp := CpComputed)
    case (CpComputed, CpFill) => s.(sh := OutFilled(s.sh), cp := CpFilled)
    case (CpFilled, CpCount) => s.(sh := s.sh.(runs := s.sh.runs + 1), cp := CpCounted)
    case (CpCounted, CpRelease) => s.(sh := s.sh.(owner := Idle), cp := CpIdle)
    case _ => s
  }

  ghost function Step<A(!new)>(s: State<A>, act: Action, algo: Algo<A>): (t: State<A>)
    requires Bounded(s, algo)
    ensures Bounded(t, algo)
  {
    if act.CpStart? || act.CpCompute? || act.CpFill? || act.CpCount? || act.CpRelease?
    then CpStep(s, act, algo) else McuStep(s, act, algo)
  }

  ghost function Run<A(!new)>(s: State<A>, acts: seq<Action>, algo: Algo<A>): (t: State<A>)
    requires Bounded(s, algo)
    ensures Bounded(t, algo)
    decreases |acts|
  {
    if acts == [] then s else Run(Step(s, acts[0], algo), acts[1..], algo)
  }

  // ----- What the calls should return. -----

  /** The reference frame in force for the last of `calls`. */
  ghost function LastRef(calls: seq<Call>, frameLen: nat): Pcm {
    if calls == [] then Zeros(frameLen)
    else if calls[|calls| - 1].ref.Ref? then calls[|calls| - 1].ref.data
    else LastRef(calls[..|calls| - 1], frameLen)
  }

  /** The algorithm's state after having processed `calls`. */
  ghost function StateAfter<A>(algo: Algo<A>, a: A, calls: seq<Call>, frameLen: nat): A
    decreases |calls|, 1
  {
    if calls == [] then a else Apply(algo, a, calls, frameLen).0
  }

  /** The algorithm applied to the last of `calls`, in the state the earlier ones left it in. */
  ghost function Apply<A>(algo: Algo<A>, a: A, calls: seq<Call>, frameLen: nat): (A, Pcm)
    requires calls != []
    decreases |calls|, 0
  {
    algo(StateAfter(algo, a, calls[..|calls| - 1], frameLen), calls[|calls| - 1].pcm, LastRef(calls, frameLen))
  }

  /** What the exchange following `calls` gives back: the result for the last of them, at first silence. */
  ghost function Due<A>(algo: Algo<A>, a: A, calls: seq<Call>, frameLen: nat): Pcm {
    if calls == [] then Zeros(frameLen) else Apply(algo, a, calls, frameLen).1
  }

  // ----- The invariant. -----

  ghost function Held(sh: Shared): Pcm
    requires WellFormed(sh)
  {
    sh.outPcm[..sh.pcmLen]
  }

  /** The caller owns the buffers: the last result is complete and the exchange so far took place. */
  ghost predicate CallerInv<A(!new)>(s: State<A>, algo: Algo<A>, a0: A)
    requires Bounded(s, algo)
  {
    var n, d := |s.calls|, if s.mcu.In? then s.mcu.done else 0;
    && !s.signalled && s.cp.CpIdle?
    && s.a == StateAfter(algo, a0, s.calls, s.sh.frameLen)
    && s.sh.runs == n && s.sh.required == (if d == 5 then n + 1 else n)
    && |s.returned| == (if d >= 3 then n + 1 else n)
    && (d < 4 ==> Held(s.sh) == Due(algo, a0, s.calls, s.sh.frameLen))
    && (d >= 4 ==> s.sh.pcmLen == |s.mcu.c.pcm|)
    && (s.mcu.In? ==> d <= 5)
    && (d >= 1 ==> s.sh.inPcm[..|s.mcu.c.pcm|] == s.mcu.c.pcm)
    && s.sh.inRef[..s.sh.frameLen]
       == LastRef(if d >= 2 then s.calls + [s.mcu.c] else s.calls, s.sh.frameLen)
  }

  /** The co-processor owns the buffers and is working on the last exchange. */
  ghost predicate ServerInv<A(!new)>(s: State<A>, algo: Algo<A>, a0: A)
    requires Bounded(s, algo)
  {
    var n := |s.calls|;
    && n > 0 && !s.mcu.In? && (s.signalled <==> s.cp.CpIdle?)
    && |s.returned| == n && s.sh.required == n
    && s.sh.runs == (if s.cp.CpCounted? then n else n - 1)
    && s.sh.inRef[..s.sh.frameLen] == LastRef(s.calls, s.sh.frameLen)
    && (s.cp.CpIdle? || s.cp.CpStarted? ==>
        && s.a == StateAfter(algo, a0, s.calls[..n - 1], s.sh.frameLen)
        && s.sh.inPcm[..s.sh.pcmLen] == s.calls[n - 1].pcm)
    && (s.cp.CpComputed? || s.cp.CpFilled? || s.cp.CpCounted? ==>
        && s.a == StateAfter(algo, a0, s.calls, s.sh.frameLen)
        && s.sh.inPcm[..s.sh.pcmLen] == Due(algo, a0, s.calls, s.sh.frameLen))
    && (s.cp.CpFilled? || s.cp.CpCounted? ==> Held(s.sh) == Due(algo, a0, s.calls, s.sh.frameLen))
  }

  ghost predicate Inv<A(!new)>(s: State<A>, algo: Algo<A>, a0: A) {
    && Bounded(s, algo)
    && (if s.sh.owner.Idle? then CallerInv(s, algo, a0) else ServerInv(s, algo, a0))
    && |s.returned| <= |s.calls| + 1
    && (forall i :: 0 <= i < |s.returned| ==> s.returned[i] == Due(algo, a0, s.calls[..i], s.sh.frameLen))
  }

  lemma FillInKeepsInv<A(!new)>(s: State<A>, algo: Algo<A>, a0: A)
    requires Inv(s, algo, a0) && s.mcu.In? && s.mcu.done == 0
    ensures Inv(McuStep(s, McuFillIn, algo), algo, a0)
  {
    hide Due, StateAfter, LastRef;
  }

  lemma FillRefKeepsInv<A(!new)>(s: State<A>, algo: Algo<A>, a0: A)
    requires Inv(s, algo, a0) && s.mcu.In? && s.mcu.done == 1
    ensures Inv(McuStep(s, McuFillRef, algo), algo, a0)
  {
    hide Due, StateAfter;
    assert (s.calls + [s.mcu.c])[..|s.calls|] == s.calls;
  }

  lemma TakeOutKeepsInv<A(!new)>(s: State<A>, algo: Algo<A>, a0: A)
    requires Inv(s, algo, a0) && s.mcu.In? && s.mcu.done == 2
    ensures Inv(McuStep(s, McuTakeOut, algo), algo, a0)
  {
    hide Due, StateAfter, LastRef;
    assert s.calls[..|s.calls|] == s.calls;
  }

  lemma PublishKeepsInv<A(!new)>(s: State<A>, algo: Algo<A>, a0: A)
    requires Inv(s, algo, a0) && s.mcu.In? && s.mcu.done == 5
    ensures Inv(McuStep(s, McuPublish, algo), algo, a0)
  {
    hide Due, StateAfter, LastRef;
    var t, n := McuStep(s, McuPublish, algo), |s.calls|;
    assert t.calls[..n] == s.calls;
    forall i | 0 <= i < |t.returned| ensures t.returned[i] == Due(algo, a0, t.calls[..i], t.sh.frameLen) {
      assert t.calls[..i] == s.calls[..i];
    }
  }

  lemma McuKeepsInv<A(!new)>(s: State<A>, act: Action, algo: Algo<A>, a0: A)
    requires Inv(s, algo, a0)
    ensures Inv(McuStep(s, act, algo), algo, a0)
  {
    if s.mcu.In? {
      match (s.mcu.done, act) {
        case (0, McuFillIn) => FillInKeepsInv(s, algo, a0);
        case (1, McuFillRef) => FillRefKeepsInv(s, algo, a0);
        case (2, McuTakeOut) => TakeOutKeepsInv(s, algo, a0);
        case (5, McuPublish) => PublishKeepsInv(s, algo, a0);
        case _ => hide Due, StateAfter, LastRef, InFilled, RefFilled, Patched;
      }
    } else {
      hide Due, StateAfter, LastRef;
    }
  }

  lemma CpKeepsInv<A(!new)>(s: State<A>, act: Action, algo: Algo<A>, a0: A)
    requires Inv(s, algo, a0)
    ensures Inv(CpStep(s, act, algo), algo, a0)
  {
  }

  lemma {:induction false} RunKeepsInv<A(!new)>(s: State<A>, acts: seq<Action>, algo: Algo<A>, a0: A)
    requires Inv(s, algo, a0)
    ensures Inv(Run(s, acts, algo), algo, a0)
    decreases |acts|
  {
    if acts != [] {
      McuKeepsInv(s, acts[0], algo, a0);
      CpKeepsInv(s, acts[0], algo, a0);
      assert Bounded(s, algo);
      hide Inv, McuStep, CpStep;
      RunKeepsInv(Step(s, acts[0], algo), acts[1..], algo, a0);
    }
  }

  ghost predicate Silent(sh: Shared) {
    && WellFormed(sh) && sh.owner.Idle? && sh.required == 0 && sh.runs == 0
    && sh.pcmLen == sh.frameLen && sh.outPcm[..sh.frameLen] == Zeros(sh.frameLen)
    && sh.inRef[..sh.frameLen] == Zeros(sh.frameLen)
  }

  /** Initialisation leaves one frame of silence to be returned. */
  lemma InitIsSilent(inPcm: Pcm, outPcm: Pcm, inRef: Pcm, frameLen: nat, channels: nat)
    requires |inPcm| == CAPACITY && |outPcm| == CAPACITY && |inRef| == FRAME_LEN_MAX
    requires 0 < frameLen <= FRAME_LEN_MAX && 0 < channels <= CHANNEL_NUM_MAX
    ensures Silent(Inited(inPcm, outPcm, inRef, frameLen, channels))
  {
    FrameFits(frameLen, channels);
    assert Zeros(frameLen * channels)[..frameLen] == Zeros(frameLen);
  }

  /** The state in which Bridge.Init leaves the system. */
  ghost function Start<A(!new)>(inPcm: Pcm, outPcm: Pcm, inRef: Pcm, frameLen: nat, channels: nat,
                                algo: Algo<A>, a: A): (s: State<A>)
    requires |inPcm| == CAPACITY && |outPcm| == CAPACITY && |inRef| == FRAME_LEN_MAX
    requires 0 < frameLen <= FRAME_LEN_MAX && 0 < channels <= CHANNEL_NUM_MAX
    requires Short(algo)
    ensures Inv(s, algo, a)
  {
    InitIsSilent(inPcm, outPcm, inRef, frameLen, channels);
    State(Inited(inPcm, outPcm, inRef, frameLen, channels), false, Outside, CpIdle, a, [], [])
  }

  /**
   Whatever the interleaving, every exchange after initialisation gives back the algorithm's result for
   the frame of the exchange before it, computed in the order of the calls; the first gives back silence.
   */
  lemma EveryCallReturnsPrevious<A(!new)>(inPcm: Pcm, outPcm: Pcm, inRef: Pcm, frameLen: nat, channels: nat,
                                          acts: seq<Action>, algo: Algo<A>, a: A)
    requires |inPcm| == CAPACITY && |outPcm| == CAPACITY && |inRef| == FRAME_LEN_MAX
    requires 0 < frameLen <= FRAME_LEN_MAX && 0 < channels <= CHANNEL_NUM_MAX
    requires Short(algo)
    ensures var s := Run(Start(inPcm, outPcm, inRef, frameLen, channels, algo, a), acts, algo);
      && |s.calls| <= |s.returned| <= |s.calls| + 1
      && (forall i :: 0 <= i < |s.returned| ==>
            s.returned[i] == if i == 0 then Zeros(s.sh.frameLen)
                             else Apply(algo, a, s.calls[..i], s.sh.frameLen).1)
  {
    RunKeepsInv(Start(inPcm, outPcm, inRef, frameLen, channels, algo, a), acts, algo, a);
  }

  /**
   The caller touches the buffers only while they are idle and the co-processor only while it works;
   the counters differ by one exactly while a frame is outstanding.
   */
  lemma BuffersAreOwned<A(!new)>(inPcm: Pcm, outPcm: Pcm, inRef: Pcm, frameLen: nat, channels: nat,
                                 acts: seq<Action>, algo: Algo<A>, a: A)
    requires |inPcm| == CAPACITY && |outPcm| == CAPACITY && |inRef| == FRAME_LEN_MAX
    requires 0 < frameLen <= FRAME_LEN_MAX && 0 < channels <= CHANNEL_NUM_MAX
    requires Short(algo)
    ensures var s := Run(Start(inPcm, outPcm, inRef, frameLen, channels, algo, a), acts, algo);
      && (s.mcu.In? ==> s.sh.owner.Idle? && s.cp.CpIdle? && !s.signalled)
      && (!s.cp.CpIdle? || s.signalled ==> s.sh.owner.Working? && !s.mcu.In?)
      && s.sh.required - s.sh.runs ==
           (if s.sh.owner.Working? then (if s.cp.CpCounted? then 0 else 1)
            else if s.mcu.In? && s.mcu.done == 5 then 1 else 0)
  {
    RunKeepsInv(Start(inPcm, outPcm, inRef, frameLen, channels, algo, a), acts, algo, a);
  }

  /** The steps of one exchange have together the effect of Bridge.Process. */
  lemma ExchangeIsARun<A(!new)>(s: State<A>, algo: Algo<A>)
    requires Bounded(s, algo) && s.mcu.In? && s.mcu.done == 0
    requires s.mcu.c.ref.Ref? ==> |s.mcu.c.ref.data| <= FRAME_LEN_MAX
    ensures var s1 := Step(s, McuFillIn, algo);
      var s2 := Step(s1, McuFillRef, algo);
      var s3 := Step(s2, McuTakeOut, algo);
      var s4 := Step(s3, McuSetLength, algo);
      var s5 := Step(s4, McuCount, algo);
      Step(s5, McuPublish, algo)
        == s.(sh := Exchanged(s.sh, s.mcu.c), signalled := true, mcu := Outside,
              calls := s.calls + [s.mcu.c], returned := s.returned + [Held(s.sh)])
  {
    hide Patched;
    var s1 := Step(s, McuFillIn, algo);
    assert s1 == s.(sh := InFilled(s.sh, s.mcu.c), mcu := In(s.mcu.c, 1));
  }

  /** A call of the right size begins its exchange as soon as the buffers are idle, and not before. */
  lemma CallBegins<A(!new)>(s: State<A>, c: Call, algo: Algo<A>)
    requires Bounded(s, algo) && s.mcu.Outside? && Suits(s.sh, c)
    ensures var t := Step(Step(s, McuCall(c), algo), McuPoll, algo);
      t == s.(mcu := if s.sh.owner.Idle? then In(c, 0) else Waiting(c))
  {
    SuitsCapacity(s.sh, c);
  }

  /** Neither computing nor publishing changes the counters. */
  lemma ServiceCounts(sh: Shared, result: Pcm)
    requires WellFormed(sh) && |result| <= CAPACITY
    ensures OutFilled(Computed(sh, result)).runs == sh.runs
  {}

  /** The steps of one service have together the effect of Bridge.CpMain. */
  lemma ServiceIsARun<A(!new)>(s: State<A>, algo: Algo<A>)
    requires Bounded(s, algo) && s.cp.CpStarted?
    ensures var r := algo(s.a, s.sh.inPcm[..s.sh.pcmLen], s.sh.inRef[..s.sh.frameLen]);
      var s1 := Step(s, CpCompute, algo);
      var s2 := Step(s1, CpFill, algo);
      var s3 := Step(s2, CpCount, algo);
      Step(s3, CpRelease, algo) == s.(sh := Served(s.sh, r.1), a := r.0, cp := CpIdle)
  {
    var r := algo(s.a, s.sh.inPcm[..s.sh.pcmLen], s.sh.inRef[..s.sh.frameLen]);
    ComputeStep(s, algo);
    var s1 := s.(sh := Computed(s.sh, r.1), a := r.0, cp := CpComputed);
    PublishSteps(s1, algo);
    ServiceCounts(s.sh, r.1);
    hide Step, OutFilled, Computed;
  }

  lemma ComputeStep<A(!new)>(s: State<A>, algo: Algo<A>)
    requires Bounded(s, algo) && s.cp.CpStarted?
    ensures var r := algo(s.a, s.sh.inPcm[..s.sh.pcmLen], s.sh.inRef[..s.sh.frameLen]);
      && |r.1| <= CAPACITY
      && Step(s, CpCompute, algo) == s.(sh := Computed(s.sh, r.1), a := r.0, cp := CpComputed)
  {
    hide Patched, McuStep, Suits;
  }

  lemma PublishSteps<A(!new)>(s: State<A>, algo: Algo<A>)
    requires Bounded(s, algo) && s.cp.CpComputed?
    ensures Step(Step(Step(s, CpFill, algo), CpCount, algo), CpRelease, algo)
      == s.(sh := OutFilled(s.sh).(runs := OutFilled(s.sh).runs + 1, owner := Idle), cp := CpIdle)
  {
    hide Patched, McuStep, Suits;
  }

  /** After a service the buffers belong to the caller, and the next exchange takes out the result. */
  lemma ServedPublishes(sh: Shared, result: Pcm)
    requires WellFormed(sh) && |result| <= CAPACITY
    ensures var after := Served(sh, result);
      && WellFormed(after) && after.owner.Idle? && after.runs == sh.runs + 1
      && Held(after) == result
      && after.outPcm[|result|..] == sh.outPcm[|result|..]
      && after == sh.(owner := after.owner, inPcm := after.inPcm, outPcm := after.outPcm,
                      pcmLen := |result|, runs := after.runs)
  {}

  /** After an exchange the co-processor finds the caller's frame, and the reference frame last given. */
  lemma ExchangeHandsOver(sh: Shared, c: Call)
    requires WellFormed(sh) && Suits(sh, c)
    ensures |c.pcm| <= CAPACITY && (c.ref.Ref? ==> |c.ref.data| <= FRAME_LEN_MAX)
    ensures var after := Exchanged(sh, c);
      && WellFormed(after) && after.owner.Working? && after.required == sh.required + 1
      && after.inPcm[..after.pcmLen] == c.pcm
      && after.inRef[..after.frameLen] == (if c.ref.Ref? then c.ref.data else sh.inRef[..sh.frameLen])
      && after == sh.(owner := after.owner, inPcm := after.inPcm, inRef := after.inRef,
                      pcmLen := |c.pcm|, required := after.required)
  {
    SuitsCapacity(sh, c);
  }
}
