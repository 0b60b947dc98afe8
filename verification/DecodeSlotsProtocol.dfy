/**
 The PCM slots under every interleaving of the co-processor and the MCU. Each access to a shared
 variable is a step of its own, and the MCU copies a slot out byte by byte. A step that is not
 possible leaves the state unchanged, so every list of actions is a run.
 */
module DecodeSlotsProtocol {
  import opened Ring
  import opened DecodeSlots

  datatype CpPc =
    | CpIdle
    | CpCalled(at: nat)
    | CpDecoding(at: nat, done: nat)
    | CpEnding(n: nat, retry: bool)
    | CpMarking(n: nat)
    | CpAdvancing

  datatype McuPc =
    | McuIdle
    | McuSawDone
    | McuCopying(buf: seq<byte>)
    | McuExit(delivered: bool)
    | McuFreeing(delivered: bool)
    | McuAdvancing

  /** How a slot ended: a block of PCM, or a decoding failure. */
  datatype Outcome = Pcm(block: seq<byte>) | Lost
  datatype Delivery = Delivery(slot: nat, block: seq<byte>)

  /**
   `produced` lists how slots ended, in order, beginning with those filled at start-up; `drained`
   counts the slots given back, and `delivered` the blocks played with their place in `produced`.
   */
  datatype State = State(sh: Shared, first: nat, cp: CpPc, mcu: McuPc,
                         produced: seq<Outcome>, drained: nat, delivered: seq<Delivery>)

  datatype Action =
    | CpCall | CpBegin | CpNoInput | CpOutput(data: seq<byte>, failed: bool) | CpCount | CpMark | CpAdvance
    | McuStart | McuCheckLength(outMax: nat) | McuCopyByte | McuExamine | McuFree | McuAdvance

  ghost predicate Bounded(s: State) {
    && WellFormed(s.sh) && s.first < SLOTS
    && (s.cp.CpCalled? || s.cp.CpDecoding? ==> s.cp.at + s.sh.loop <= |s.sh.out|)
    && (s.cp.CpDecoding? ==> s.cp.done <= s.sh.loop)
  }

  ghost function CpStep(s: State, a: Action): (t: State)
    requires Bounded(s)
    ensures Bounded(t)
  {
    match a
    case CpCall =>
      if s.cp.CpIdle? && WindowStart(s.sh) + s.sh.loop <= |s.sh.out|
      then s.(sh := Restarted(s.sh), cp := CpCalled(WindowStart(s.sh))) else s
    case CpBegin =>
      if !s.cp.CpCalled? then s
      else if CanBegin(s.sh) then s.(sh := Begun(s.sh), cp := CpDecoding(s.cp.at, 0))
      else s.(cp := CpIdle)
    case CpNoInput =>
      if s.cp.CpDecoding? then s.(cp := CpEnding(s.cp.done, true)) else s
    case CpOutput(data, failed) =>
      if s.cp.CpDecoding? && s.cp.done + |data| <= s.sh.loop then
        var n := s.cp.done + |data|;
        s.(sh := Written(s.sh, s.cp.at + s.cp.done, data),
           cp := if failed || n == s.sh.loop then CpEnding(n, false) else CpDecoding(s.cp.at, n))
      else s
    case CpCount =>
      if s.cp.CpEnding?
      then s.(sh := Counted(s.sh, s.cp.n), cp := if s.cp.retry then CpIdle else CpMarking(s.cp.n)) else s
    case CpMark =>
      if s.cp.CpMarking?
      then s.(sh := Marked(s.sh, s.cp.n), cp := CpAdvancing, produced := s.produced + [
              if s.cp.n == s.sh.loop then Pcm(Block(s.sh.out, s.sh.cpIdx, s.sh.loop)) else Lost]) else s
    case CpAdvance =>
      if s.cp.CpAdvancing? then s.(sh := s.sh.(cpIdx := NextSlot(s.sh.cpIdx)), cp := CpIdle) else s
    case _ => s
  }

  ghost function McuStep(s: State, a: Action): (t: State)
    requires Bounded(s)
    ensures Bounded(t)
  {
    var slot := s.sh.mcuIdx;
    match a
    case McuStart =>
      if s.mcu.McuIdle? then s.(mcu := if s.sh.state[slot].Done? then McuSawDone else McuExit(false)) else s
    case McuCheckLength(outMax) =>
      if s.mcu.McuSawDone?
      then s.(mcu := if s.sh.outLen[slot] == outMax then McuCopying([]) else McuExit(false)) else s
    case McuCopyByte =>
      if s.mcu.McuCopying? && |s.mcu.buf| < s.sh.loop then
        var buf := s.mcu.buf + [s.sh.out[Base(slot, s.sh.loop) + |s.mcu.buf|]];
        if |buf| == s.sh.loop
        then s.(mcu := McuExit(true), delivered := s.delivered + [Delivery(s.drained, buf)])
        else s.(mcu := McuCopying(buf))
      else s
    case McuExamine =>
      if !s.mcu.McuExit? then s
      else if s.sh.state[slot].Done? || s.sh.state[slot].Failed? then s.(mcu := McuFreeing(s.mcu.delivered))
      else s.(mcu := McuIdle)
    case McuFree =>
      if s.mcu.McuFreeing? then s.(sh := Freed(s.sh), mcu := McuAdvancing, drained := s.drained + 1) else s
    case McuAdvance =>
      if s.mcu.McuAdvancing? then s.(sh := s.sh.(mcuIdx := NextSlot(slot)), mcu := McuIdle) else s
    case _ => s
  }

  ghost function Step(s: State, a: Action): (t: State)
    requires Bounded(s)
    ensures Bounded(t)
  {
    match a
    case CpCall | CpBegin | CpNoInput | CpOutput(_, _) | CpCount | CpMark | CpAdvance => CpStep(s, a)
    case McuStart | McuCheckLength(_) | McuCopyByte | McuExamine | McuFree | McuAdvance => McuStep(s, a)
  }

  ghost function Run(s: State, acts: seq<Action>): (t: State)
    requires Bounded(s)
    ensures Bounded(t)
    decreases |acts|
  {
    if acts == [] then s else Run(Step(s, acts[0]), acts[1..])
  }

  ghost function Start(first: nat, loop: nat, out: seq<byte>): (s: State)
    requires 0 < first < SLOTS && loop > 0 && SLOTS * loop <= |out|
    ensures Bounded(s)
  {
    State(Started(first, loop, out), first, CpIdle, McuIdle,
          seq(SLOTS - first, i requires 0 <= i < SLOTS - first => Pcm(Block(out, first + i, loop))), 0, [])
  }

  /** The slot that holds the `k`-th outcome. */
  ghost function Slot(first: nat, k: nat): (r: nat)
    ensures r < SLOTS
  {
    (first + k) % SLOTS
  }

  /** Numbers less than three apart name different slots, and numbers three apart the same one. */
  lemma SlotNumbers(first: nat, j: nat, k: nat)
    requires first < SLOTS
    ensures j < k < j + SLOTS ==> Slot(first, j) != Slot(first, k)
    ensures k == j + SLOTS ==> Slot(first, k) == Slot(first, j)
    ensures k == j + 1 ==> NextSlot(Slot(first, j)) == Slot(first, k)
  {}

  // ----- Ownership of the slots, for every decoder. -----

  ghost predicate EndedAs(st: SlotState, o: Outcome) {
    if o.Pcm? then st.Done? else st.Failed?
  }

  /** The slots of undrained outcomes are done or failed, the others idle, except the one being filled. */
  ghost predicate StatesInv(sh: Shared, first: nat, produced: seq<Outcome>, drained: nat)
    requires WellFormed(sh)
  {
    && drained <= |produced| <= drained + SLOTS
    && (forall k :: drained <= k < |produced| ==> EndedAs(sh.state[Slot(first, k)], produced[k]))
    && (forall k :: |produced| < k < drained + SLOTS ==> sh.state[Slot(first, k)].Idle?)
    && (|produced| < drained + SLOTS ==>
        sh.state[Slot(first, |produced|)].Idle? || sh.state[Slot(first, |produced|)].Working?)
  }

  ghost predicate CpOwns(sh: Shared, first: nat, p: nat, drained: nat, cp: CpPc)
    requires WellFormed(sh)
  {
    && (if cp.CpAdvancing? then p > 0 && sh.cpIdx == Slot(first, p - 1) else sh.cpIdx == Slot(first, p))
    && (cp.CpDecoding? || cp.CpEnding? || cp.CpMarking? ==>
        p < drained + SLOTS && sh.state[sh.cpIdx].Working?)
    && (cp.CpAdvancing? && p < drained + SLOTS ==> sh.state[Slot(first, p)].Idle?)
  }

  ghost predicate McuOwns(sh: Shared, first: nat, produced: seq<Outcome>, drained: nat, mcu: McuPc)
    requires WellFormed(sh)
  {
    && (if mcu.McuAdvancing? then drained > 0 && sh.mcuIdx == Slot(first, drained - 1)
        else sh.mcuIdx == Slot(first, drained))
    && (mcu.McuSawDone? || mcu.McuCopying? ==> drained < |produced| && produced[drained].Pcm?)
    && (mcu.McuFreeing? ==> drained < |produced|)
    && ((mcu.McuExit? || mcu.McuFreeing?) && mcu.delivered ==> drained < |produced| && produced[drained].Pcm?)
  }

  /** Deliveries come from slots that were decoded, in strictly increasing order. */
  ghost predicate InSequence(produced: seq<Outcome>, delivered: seq<Delivery>, limit: nat) {
    && (forall i :: 0 <= i < |delivered| ==>
          delivered[i].slot < limit && delivered[i].slot < |produced| && produced[delivered[i].slot].Pcm?)
    && (forall i, j :: 0 <= i < j < |delivered| ==> delivered[i].slot < delivered[j].slot)
  }

  ghost function Limit(s: State): nat {
    if (s.mcu.McuExit? || s.mcu.McuFreeing?) && s.mcu.delivered then s.drained + 1 else s.drained
  }

  ghost predicate Owned(s: State) {
    && Bounded(s)
    && StatesInv(s.sh, s.first, s.produced, s.drained)
    && CpOwns(s.sh, s.first, |s.produced|, s.drained, s.cp)
    && McuOwns(s.sh, s.first, s.produced, s.drained, s.mcu)
    && InSequence(s.produced, s.delivered, Limit(s))
  }

  lemma StartIsOwned(first: nat, loop: nat, out: seq<byte>)
    requires 0 < first < SLOTS && loop > 0 && SLOTS * loop <= |out|
    ensures Owned(Start(first, loop, out))
  {}

  /** When all three slots hold undrained output the co-processor cannot begin. */
  lemma BusyWhenFull(s: State)
    requires Owned(s) && |s.produced| == s.drained + SLOTS
    ensures !s.sh.state[Slot(s.first, |s.produced|)].Idle? && !s.sh.state[Slot(s.first, |s.produced|)].Working?
  {
    SlotNumbers(s.first, s.drained, |s.produced|);
    assert EndedAs(s.sh.state[Slot(s.first, s.drained)], s.produced[s.drained]);
  }

  lemma BeginKeepsOwned(s: State)
    requires Owned(s)
    ensures Owned(CpStep(s, CpBegin))
  {
    hide Slot, Block;
    if s.cp.CpCalled? && CanBegin(s.sh) {
      var t, p, d := CpStep(s, CpBegin), |s.produced|, s.drained;
      if p == d + SLOTS { BusyWhenFull(s); assert false; }
      forall k | d <= k < p ensures EndedAs(t.sh.state[Slot(s.first, k)], s.produced[k]) { SlotNumbers(s.first, k, p); }
      forall k | p < k < d + SLOTS ensures t.sh.state[Slot(s.first, k)].Idle? { SlotNumbers(s.first, p, k); }
    }
  }

  lemma MarkKeepsOwned(s: State)
    requires Owned(s)
    ensures Owned(CpStep(s, CpMark))
  {
    hide Slot, Block;
    if s.cp.CpMarking? {
      var t, p := CpStep(s, CpMark), |s.produced|;
      forall k | s.drained <= k < p + 1 ensures EndedAs(t.sh.state[Slot(s.first, k)], t.produced[k]) {
        SlotNumbers(s.first, k, p);
      }
      forall k | p < k < s.drained + SLOTS ensures t.sh.state[Slot(s.first, k)].Idle? { SlotNumbers(s.first, p, k); }
    }
  }

  lemma AdvanceKeepsOwned(s: State)
    requires Owned(s)
    ensures Owned(CpStep(s, CpAdvance))
  {
    hide Slot, Block;
    if s.cp.CpAdvancing? { SlotNumbers(s.first, |s.produced| - 1, |s.produced|); }
  }

  /** The steps that change neither slot states nor positions. */
  lemma OtherKeepsOwned(s: State, a: Action)
    requires Owned(s) && (a.CpCall? || a.CpNoInput? || a.CpOutput? || a.CpCount?)
    ensures Owned(CpStep(s, a))
  {
    hide Slot, Block;
  }

  lemma LookKeepsOwned(s: State, a: Action)
    requires Owned(s) && (a.McuStart? || a.McuCheckLength? || a.McuCopyByte? || a.McuExamine?)
    ensures Owned(McuStep(s, a))
  {
    hide Slot, Block;
    if s.drained < |s.produced| {
      assert EndedAs(s.sh.state[Slot(s.first, s.drained)], s.produced[s.drained]);
    }
  }

  lemma FreeKeepsOwned(s: State)
    requires Owned(s)
    ensures Owned(McuStep(s, McuFree))
  {
    hide Slot, Block;
    if s.mcu.McuFreeing? {
      var t, d, p := McuStep(s, McuFree), s.drained, |s.produced|;
      SlotNumbers(s.first, d, p);
      SlotNumbers(s.first, d, d + SLOTS);
      forall k | d < k < p ensures EndedAs(t.sh.state[Slot(s.first, k)], s.produced[k]) { SlotNumbers(s.first, d, k); }
      forall k | p < k < d + 1 + SLOTS ensures t.sh.state[Slot(s.first, k)].Idle? { SlotNumbers(s.first, d, k); }
    }
  }

  lemma ReturnKeepsOwned(s: State)
    requires Owned(s)
    ensures Owned(McuStep(s, McuAdvance))
  {
    hide Slot, Block, InSequence;
    if s.mcu.McuAdvancing? { SlotNumbers(s.first, s.drained - 1, s.drained); }
  }

  lemma StepKeepsOwned(s: State, a: Action)
    requires Owned(s)
    ensures Owned(Step(s, a)) && Step(s, a).sh.loop == s.sh.loop
  {
    assert Bounded(s);
    hide Owned;
    match a {
      case CpBegin => BeginKeepsOwned(s);
      case CpMark => MarkKeepsOwned(s);
      case CpAdvance => AdvanceKeepsOwned(s);
      case McuFree => FreeKeepsOwned(s);
      case McuAdvance => ReturnKeepsOwned(s);
      case CpCall | CpNoInput | CpOutput(_, _) | CpCount => OtherKeepsOwned(s, a);
      case McuStart | McuCheckLength(_) | McuCopyByte | McuExamine => LookKeepsOwned(s, a);
    }
  }

  lemma {:induction false} RunKeepsOwned(s: State, acts: seq<Action>)
    requires Owned(s)
    ensures Owned(Run(s, acts)) && Run(s, acts).sh.loop == s.sh.loop
    decreases |acts|
  {
    if acts != [] {
      StepKeepsOwned(s, acts[0]);
      hide Owned, Step;
      RunKeepsOwned(Step(s, acts[0]), acts[1..]);
    }
  }

  /**
   For every decoder and every interleaving: the slots from the MCU's up to the co-processor's hold
   finished outcomes and the rest are idle, but for the one being filled. The co-processor decodes
   only into a slot marked as being filled, which is none of the undrained ones, and the MCU copies
   only a slot marked done, which is not the one being filled.
   */
  lemma SlotsAreNotShared(first: nat, loop: nat, out: seq<byte>, acts: seq<Action>)
    requires 0 < first < SLOTS && loop > 0 && SLOTS * loop <= |out|
    ensures var s := Run(Start(first, loop, out), acts);
      && StatesInv(s.sh, s.first, s.produced, s.drained)
      && (s.cp.CpDecoding? ==>
            && s.sh.state[s.sh.cpIdx].Working?
            && forall k :: s.drained <= k < |s.produced| ==> Slot(s.first, k) != s.sh.cpIdx)
      && (s.mcu.McuCopying? ==>
            s.sh.state[s.sh.mcuIdx].Done? && !(s.cp.CpDecoding? && s.sh.cpIdx == s.sh.mcuIdx))
  {
    StartIsOwned(first, loop, out);
    RunKeepsOwned(Start(first, loop, out), acts);
    var s := Run(Start(first, loop, out), acts);
    hide Run, Slot;
    if s.cp.CpDecoding? {
      forall k | s.drained <= k < |s.produced| ensures Slot(s.first, k) != s.sh.cpIdx {
        SlotNumbers(s.first, k, |s.produced|);
      }
    }
    if s.mcu.McuCopying? { assert EndedAs(s.sh.state[Slot(s.first, s.drained)], s.produced[s.drained]); }
  }

  // ----- Contents of the slots, when no call carries output over from the one before. -----

  /** A call of the co-processor starts in a slot into which an earlier call has put something. */
  ghost predicate Carries(s: State, a: Action)
    requires Bounded(s)
  {
    a.CpCall? && s.cp.CpIdle? && Carried(s.sh) > 0
  }

  ghost predicate NothingCarried(s: State, acts: seq<Action>)
    requires Bounded(s)
    decreases |acts|
  {
    acts != [] ==> !Carries(s, acts[0]) && NothingCarried(Step(s, acts[0]), acts[1..])
  }

  /** Slot `k` holds the whole block. */
  ghost predicate Holds(sh: Shared, k: nat, o: Outcome)
    requires WellFormed(sh) && k < SLOTS
  {
    o.Pcm? ==> sh.outLen[k] == sh.loop && Block(sh.out, k, sh.loop) == o.block
  }

  ghost predicate Filled(s: State)
    requires Bounded(s)
  {
    && (s.cp.CpCalled? || s.cp.CpDecoding? ==> s.cp.at == Base(s.sh.cpIdx, s.sh.loop))
    && (s.cp.CpCalled? && s.sh.state[s.sh.cpIdx].Working? ==> s.sh.outLen[s.sh.cpIdx] == 0)
    && (s.cp.CpDecoding? || s.cp.CpEnding? ==> s.sh.outLen[s.sh.cpIdx] == 0)
    && (s.cp.CpMarking? ==> s.sh.outLen[s.sh.cpIdx] == s.cp.n)
  }

  /** Deliveries are the blocks decoded. */
  ghost predicate Faithful(produced: seq<Outcome>, delivered: seq<Delivery>) {
    forall i :: 0 <= i < |delivered| ==>
      delivered[i].slot < |produced| && produced[delivered[i].slot] == Pcm(delivered[i].block)
  }

  ghost predicate Inv(s: State) {
    && Owned(s) && Filled(s)
    && (forall k :: s.drained <= k < |s.produced| ==> Holds(s.sh, Slot(s.first, k), s.produced[k]))
    && (s.mcu.McuCopying? ==> s.mcu.buf <= s.produced[s.drained].block)
    && Faithful(s.produced, s.delivered)
  }

  lemma StartInv(first: nat, loop: nat, out: seq<byte>)
    requires 0 < first < SLOTS && loop > 0 && SLOTS * loop <= |out|
    ensures Inv(Start(first, loop, out))
  {
    StartIsOwned(first, loop, out);
    hide Owned;
  }

  /** Output written to the co-processor's slot changes no other slot. */
  lemma OtherBlocksKept(sh: Shared, at: nat, data: seq<byte>, k: nat)
    requires WellFormed(sh) && k < SLOTS && k != sh.cpIdx
    requires Base(sh.cpIdx, sh.loop) <= at && at + |data| <= Base(sh.cpIdx, sh.loop) + sh.loop
    ensures Block(Written(sh, at, data).out, k, sh.loop) == Block(sh.out, k, sh.loop)
  {}

  /** A step of the co-processor leaves the undrained slots as they are. */
  lemma CpStepKeepsHeld(s: State, a: Action, k: nat)
    requires Inv(s) && !Carries(s, a) && s.drained <= k < |s.produced|
    ensures Holds(CpStep(s, a).sh, Slot(s.first, k), s.produced[k])
  {
    hide Slot, Block, InSequence;
    var p := |s.produced|;
    assert Holds(s.sh, Slot(s.first, k), s.produced[k]);
    assert EndedAs(s.sh.state[Slot(s.first, k)], s.produced[k]);
    SlotNumbers(s.first, k, p);
    if a.CpOutput? && s.cp.CpDecoding? && s.cp.done + |a.data| <= s.sh.loop {
      OtherBlocksKept(s.sh, s.cp.at + s.cp.done, a.data, Slot(s.first, k));
    }
  }

  lemma CpStepKeepsFilled(s: State, a: Action)
    requires Inv(s) && !Carries(s, a)
    ensures Filled(CpStep(s, a))
  {
    hide Slot, Block, Holds;
  }

  lemma CpStepKeepsInv(s: State, a: Action)
    requires Inv(s) && !Carries(s, a) && Owned(CpStep(s, a))
    ensures Inv(CpStep(s, a))
  {
    CpStepKeepsFilled(s, a);
    hide Slot, Block, Filled, Owned;
    var t, p := CpStep(s, a), |s.produced|;
    forall k | s.drained <= k < |t.produced| ensures Holds(t.sh, Slot(s.first, k), t.produced[k]) {
      if k < p { CpStepKeepsHeld(s, a, k); } else { MarkedHolds(s, a); }
    }
  }

  lemma MarkedHolds(s: State, a: Action)
    requires Inv(s) && |CpStep(s, a).produced| > |s.produced|
    ensures Holds(CpStep(s, a).sh, Slot(s.first, |s.produced|), CpStep(s, a).produced[|s.produced|])
  {
    hide Slot, Block;
  }

  lemma CopyKeepsInv(s: State)
    requires Inv(s) && Owned(McuStep(s, McuCopyByte))
    ensures Inv(McuStep(s, McuCopyByte))
  {
    hide Slot;
    if s.mcu.McuCopying? && |s.mcu.buf| < s.sh.loop {
      var block, n := s.produced[s.drained].block, |s.mcu.buf|;
      assert Holds(s.sh, Slot(s.first, s.drained), s.produced[s.drained]);
      assert s.sh.out[Base(s.sh.mcuIdx, s.sh.loop) + n] == block[n];
      assert s.mcu.buf + [block[n]] == block[..n + 1];
      hide Block, Owned, InSequence;
    }
  }

  lemma McuStepKeepsInv(s: State, a: Action)
    requires Inv(s) && !a.McuCopyByte? && Owned(McuStep(s, a))
    ensures Inv(McuStep(s, a))
  {
    hide Slot, Block;
    var t := McuStep(s, a);
    forall k | t.drained <= k < |t.produced| ensures Holds(t.sh, Slot(s.first, k), t.produced[k]) {
      assert Holds(s.sh, Slot(s.first, k), s.produced[k]);
    }
  }

  lemma StepKeepsInv(s: State, a: Action)
    requires Inv(s) && !Carries(s, a)
    ensures Inv(Step(s, a))
  {
    assert Owned(s) && Bounded(s);
    StepKeepsOwned(s, a);
    hide Inv, Owned, CpStep, McuStep;
    match a {
      case CpCall | CpBegin | CpNoInput | CpOutput(_, _) | CpCount | CpMark | CpAdvance => CpStepKeepsInv(s, a);
      case McuCopyByte => CopyKeepsInv(s);
      case McuStart | McuCheckLength(_) | McuExamine | McuFree | McuAdvance => McuStepKeepsInv(s, a);
    }
  }

  lemma {:induction false} RunKeepsInv(s: State, acts: seq<Action>)
    requires Inv(s) && NothingCarried(s, acts)
    ensures Inv(Run(s, acts))
    decreases |acts|
  {
    if acts != [] {
      StepKeepsInv(s, acts[0]);
      hide Inv, Step;
      RunKeepsInv(Step(s, acts[0]), acts[1..]);
    }
  }

  // ----- Blocks that are given back without having been played, for every decoder. -----

  /** The PCM blocks among the outcomes. */
  ghost function Blocks(os: seq<Outcome>): seq<seq<byte>> {
    if os == [] then []
    else Blocks(os[..|os| - 1]) + if os[|os| - 1].Pcm? then [os[|os| - 1].block] else []
  }

  ghost function Played(ds: seq<Delivery>): (r: seq<seq<byte>>)
    ensures |r| == |ds|
  {
    seq(|ds|, i requires 0 <= i < |ds| => ds[i].block)
  }

  /** In-order deliveries are as many as, or fewer than, the blocks they come from. */
  lemma {:induction false} InSequenceFits(produced: seq<Outcome>, ds: seq<Delivery>, n: nat)
    requires InSequence(produced, ds, n) && n <= |produced|
    ensures |ds| <= |Blocks(produced[..n])|
    ensures |ds| == |Blocks(produced[..n])| && Faithful(produced, ds) ==> Played(ds) == Blocks(produced[..n])
    decreases n
  {
    if n == 0 {
      if ds != [] { assert false; }
    } else {
      assert produced[..n][..n - 1] == produced[..n - 1] && produced[..n][n - 1] == produced[n - 1];
      if ds != [] && ds[|ds| - 1].slot == n - 1 {
        var rest := ds[..|ds| - 1];
        InSequenceFits(produced, rest, n - 1);
        assert Played(ds) == Played(rest) + [ds[|ds| - 1].block];
      } else {
        InSequenceFits(produced, ds, n - 1);
      }
    }
  }

  /** A decoded block given back without having been played. */
  ghost predicate Drop(s: State, a: Action) {
    a.McuFree? && s.mcu == McuFreeing(false) && s.drained < |s.produced| && s.produced[s.drained].Pcm?
  }

  /**
   The two ways to lose a block, by what the cores do: the co-processor completes the slot the MCU is
   about to examine for the second time, after the first time found it unfinished; or the length the
   MCU asks for is not the length of the finished slot.
   */
  ghost predicate Race(s: State, a: Action) {
    a.CpMark? && s.cp == CpMarking(s.sh.loop) && s.mcu == McuExit(false) && s.sh.cpIdx == s.sh.mcuIdx
  }

  ghost predicate Mismatch(s: State, a: Action)
    requires Bounded(s)
  {
    a.McuCheckLength? && s.mcu.McuSawDone? && s.sh.outLen[s.sh.mcuIdx] != a.outMax
  }

  ghost function Drops(s: State, acts: seq<Action>): nat
    requires Bounded(s)
    decreases |acts|
  {
    if acts == [] then 0
    else (if Drop(s, acts[0]) then 1 else 0) + Drops(Step(s, acts[0]), acts[1..])
  }

  ghost function Races(s: State, acts: seq<Action>): nat
    requires Bounded(s)
    decreases |acts|
  {
    if acts == [] then 0
    else (if Race(s, acts[0]) then 1 else 0) + Races(Step(s, acts[0]), acts[1..])
  }

  ghost function Mismatches(s: State, acts: seq<Action>): nat
    requires Bounded(s)
    decreases |acts|
  {
    if acts == [] then 0
    else (if Mismatch(s, acts[0]) then 1 else 0) + Mismatches(Step(s, acts[0]), acts[1..])
  }

  /** The MCU is on its way to give back a block it has not played. */
  ghost function Losing(s: State): nat {
    if (s.mcu == McuExit(false) || s.mcu == McuFreeing(false)) && s.drained < |s.produced| && s.produced[s.drained].Pcm?
    then 1 else 0
  }

  lemma StepLosses(s: State, a: Action)
    requires Owned(s)
    ensures (if Drop(s, a) then 1 else 0) + Losing(Step(s, a))
      == Losing(s) + (if Race(s, a) then 1 else 0) + (if Mismatch(s, a) then 1 else 0)
  {
    hide Slot, Block, InSequence;
    var d, p := s.drained, |s.produced|;
    if d < p {
      assert EndedAs(s.sh.state[Slot(s.first, d)], s.produced[d]);
      SlotNumbers(s.first, d, p);
    }
  }

  /** The drops, and the one under way, are the races and the mismatches. */
  lemma {:induction false} RunLosses(s: State, acts: seq<Action>)
    requires Owned(s)
    ensures Drops(s, acts) + Losing(Run(s, acts)) == Losing(s) + Races(s, acts) + Mismatches(s, acts)
    decreases |acts|
  {
    if acts != [] {
      StepKeepsOwned(s, acts[0]);
      StepLosses(s, acts[0]);
      hide Owned, Step, Losing, Drop, Race, Mismatch;
      RunLosses(Step(s, acts[0]), acts[1..]);
    }
  }

  ghost function Pending(s: State): int {
    |Blocks(s.produced[..Min(Limit(s), |s.produced|)])| - |s.delivered|
  }

  lemma BlocksGrow(os: seq<Outcome>, o: Outcome)
    ensures Blocks(os + [o]) == Blocks(os) + if o.Pcm? then [o.block] else []
  {
    assert (os + [o])[..|os|] == os;
  }

  /** Of the co-processor's steps only the publication of an outcome matters, and it comes last. */
  lemma CpStepDrops(s: State, a: Action)
    requires Owned(s)
    ensures Pending(CpStep(s, a)) == Pending(s)
  {
    hide Slot, Block, Blocks;
    var t, n := CpStep(s, a), Limit(s);
    assert Limit(t) == n <= |s.produced| && t.delivered == s.delivered;
    assert t.produced[..n] == s.produced[..n];
  }

  lemma McuStepDrops(s: State, a: Action)
    requires Owned(s)
    ensures Pending(McuStep(s, a)) == Pending(s) + if Drop(s, a) then 1 else 0
  {
    hide Slot, Block, Blocks, InSequence;
    var t, d, p := McuStep(s, a), s.drained, s.produced;
    assert t.produced == p;
    if d < |p| {
      assert EndedAs(s.sh.state[Slot(s.first, d)], p[d]);
      assert p[..d + 1] == p[..d] + [p[d]];
      BlocksGrow(p[..d], p[d]);
    }
  }

  lemma {:induction false} RunDrops(s: State, acts: seq<Action>)
    requires Owned(s)
    ensures Pending(Run(s, acts)) == Pending(s) + Drops(s, acts)
    decreases |acts|
  {
    if acts != [] {
      StepKeepsOwned(s, acts[0]);
      CpStepDrops(s, acts[0]);
      McuStepDrops(s, acts[0]);
      hide Owned, CpStep, McuStep, Pending, Drop;
      RunDrops(Step(s, acts[0]), acts[1..]);
    }
  }

  /**
   For every decoder and every interleaving, the number of decoded blocks the MCU has dealt with and
   not played is the number of races and mismatches, less the one that is still on its way out.
   */
  lemma UnplayedAreLosses(first: nat, loop: nat, out: seq<byte>, acts: seq<Action>)
    requires 0 < first < SLOTS && loop > 0 && SLOTS * loop <= |out|
    ensures var s0 := Start(first, loop, out); var s := Run(s0, acts);
      && Limit(s) <= |s.produced| && InSequence(s.produced, s.delivered, Limit(s))
      && |Blocks(s.produced[..Limit(s)])| - |s.delivered| == Races(s0, acts) + Mismatches(s0, acts) - Losing(s)
  {
    var s0 := Start(first, loop, out);
    StartIsOwned(first, loop, out);
    RunKeepsOwned(s0, acts);
    RunLosses(s0, acts);
    RunDrops(s0, acts);
    hide Run, Races, Mismatches, Drops, Blocks;
    assert s0.produced[..0] == [] && Blocks([]) == [] by { BlocksNone(); }
  }

  lemma BlocksNone()
    ensures Blocks([]) == []
  {}

  /**
   When no call carries output over, what was played is an in-order subsequence of what was decoded, block
   for block. It is all of what the MCU has dealt with exactly when no slot was completed between
   its two examinations and no other length was asked for, but for the one still on its way out.
   */
  lemma PlayedInOrder(first: nat, loop: nat, out: seq<byte>, acts: seq<Action>)
    requires 0 < first < SLOTS && loop > 0 && SLOTS * loop <= |out|
    requires NothingCarried(Start(first, loop, out), acts)
    ensures var s0 := Start(first, loop, out); var s := Run(s0, acts);
      && InSequence(s.produced, s.delivered, Limit(s)) && Faithful(s.produced, s.delivered)
      && Limit(s) <= |s.produced|
      && (Played(s.delivered) == Blocks(s.produced[..Limit(s)]) <==>
            Races(s0, acts) + Mismatches(s0, acts) == Losing(s))
  {
    var s0 := Start(first, loop, out);
    StartInv(first, loop, out);
    RunKeepsInv(s0, acts);
    UnplayedAreLosses(first, loop, out, acts);
    var s := Run(s0, acts);
    InSequenceFits(s.produced, s.delivered, Limit(s));
  }

  /**
   A block can be lost. Whenever every finished slot has been given back and the co-processor is
   filling the next one, this schedule does it: the MCU looks, the slot is completed, the MCU looks
   again, and gives the finished slot back without having played it.
   */
  lemma RaceLosesBlock(s: State, data: seq<byte>)
    requires Inv(s) && s.cp == CpDecoding(Base(s.sh.cpIdx, s.sh.loop), 0) && s.mcu.McuIdle?
    requires s.drained == |s.produced| && |data| == s.sh.loop
    ensures var s1 := Step(s, McuStart);
      var s2 := Step(s1, CpOutput(data, false));
      var s3 := Step(s2, CpCount);
      var s4 := Step(s3, CpMark);
      var s5 := Step(s4, McuExamine);
      Race(s3, CpMark) && Drop(s5, McuFree) && s5.produced[s5.drained] == Pcm(data)
  {
    var s1 := Step(s, McuStart);
    assert s1 == s.(mcu := McuExit(false));
    var s2 := Step(s1, CpOutput(data, false));
    assert s2.cp == CpEnding(s.sh.loop, false) && s2.mcu == McuExit(false) && s2.sh == Written(s.sh, s.cp.at, data);
    assert Block(s2.sh.out, s.sh.cpIdx, s.sh.loop) == data;
    hide Slot, Holds, Block;
  }

  lemma RunFirst(s: State, a: Action, rest: seq<Action>)
    requires Bounded(s)
    ensures Run(s, [a] + rest) == Run(Step(s, a), rest)
    ensures NothingCarried(s, [a] + rest) <==> !Carries(s, a) && NothingCarried(Step(s, a), rest)
  {
    assert ([a] + rest)[1..] == rest;
  }

  /** The first two steps of a run. */
  lemma RunTwo(s: State, a: Action, b: Action, rest: seq<Action>)
    requires Bounded(s)
    ensures Run(s, [a, b] + rest) == Run(Step(Step(s, a), b), rest)
    ensures NothingCarried(s, [a, b] + rest) ==> NothingCarried(Step(Step(s, a), b), rest)
  {
    hide Run, Step, NothingCarried;
    assert [a, b] + rest == [a] + ([b] + rest);
    RunFirst(s, a, [b] + rest);
    RunFirst(Step(s, a), b, rest);
  }

  /** From start-up, the MCU plays and returns the slot filled at start-up, and a call begins. */
  ghost function ToFirstCall(): seq<Action> {
    [McuStart, McuCheckLength(1)] + ([McuCopyByte, McuExamine] + ([McuFree, McuAdvance] + ([CpCall, CpBegin] + [])))
  }

  lemma StartBeforeLast(out: seq<byte>)
    requires |out| == SLOTS
    ensures Start(2, 1, out) ==
      State(Shared([Idle, Idle, Done], [0, 0, 1], out, 0, 2, 1), 2, CpIdle, McuIdle, [Pcm([out[2]])], 0, [])
  {
    var s, block := Start(2, 1, out), Block(out, 2, 1);
    assert block == [out[2]];
    assert s.produced == [Pcm(block)];
  }

  /** The state after start-up for one-byte slots of which only the last is filled. */
  ghost function OneFilled(out: seq<byte>): State
    requires |out| == SLOTS
  {
    State(Shared([Idle, Idle, Done], [0, 0, 1], out, 0, 2, 1), 2, CpIdle, McuIdle, [Pcm([out[2]])], 0, [])
  }

  lemma OnePlayed(out: seq<byte>)
    requires |out| == SLOTS
    ensures Step(Step(OneFilled(out), McuStart), McuCheckLength(1)) == OneFilled(out).(mcu := McuCopying([]))
    ensures Step(Step(OneFilled(out).(mcu := McuCopying([])), McuCopyByte), McuExamine)
      == OneFilled(out).(mcu := McuFreeing(true), delivered := [Delivery(0, [out[2]])])
  {
    var none: seq<byte>, buf := [], [out[2]];
    assert none + [out[Base(2, 1) + 0]] == buf;
    assert OneFilled(out).delivered + [Delivery(0, buf)] == [Delivery(0, buf)];
  }

  lemma OneReturned(out: seq<byte>)
    requires |out| == SLOTS
    ensures var s := OneFilled(out).(mcu := McuFreeing(true), delivered := [Delivery(0, [out[2]])]);
      var t := s.(mcu := McuIdle, drained := 1, sh := Shared([Idle, Idle, Idle], [0, 0, 1], out, 0, 0, 1));
      && Step(Step(s, McuFree), McuAdvance) == t
      && Step(Step(t, CpCall), CpBegin)
           == t.(cp := CpDecoding(0, 0), sh := Shared([Working, Idle, Idle], [0, 0, 1], out, 0, 0, 1))
  {}

  lemma FirstCallInv(out: seq<byte>)
    requires |out| == SLOTS
    ensures Inv(Run(Start(2, 1, out), ToFirstCall()))
  {
    var s0 := Start(2, 1, out);
    StartInv(2, 1, out);
    FullSlotsCarryNothing(s0, ToFirstCall());
    RunKeepsInv(s0, ToFirstCall());
  }

  /** The premises of RaceLosesBlock are met in a run from start-up. */
  lemma RaceIsReached(out: seq<byte>)
    requires |out| == SLOTS
    ensures var s := Run(Start(2, 1, out), ToFirstCall());
      && Inv(s) && s.cp == CpDecoding(Base(s.sh.cpIdx, s.sh.loop), 0) && s.mcu.McuIdle?
      && s.drained == |s.produced| == 1 && s.delivered == [Delivery(0, [out[2]])]
  {
    hide Inv, NothingCarried, Run, Start, Step;
    FirstCallInv(out);
    StartBeforeLast(out);
    OnePlayed(out);
    OneReturned(out);
    var s0 := OneFilled(out);
    RunTwo(s0, McuStart, McuCheckLength(1),
           [McuCopyByte, McuExamine] + ([McuFree, McuAdvance] + ([CpCall, CpBegin] + [])));
    var s2 := s0.(mcu := McuCopying([]));
    RunTwo(s2, McuCopyByte, McuExamine, [McuFree, McuAdvance] + ([CpCall, CpBegin] + []));
    var s4 := s0.(mcu := McuFreeing(true), delivered := [Delivery(0, [out[2]])]);
    RunTwo(s4, McuFree, McuAdvance, [CpCall, CpBegin] + []);
    var s6 := Step(Step(s4, McuFree), McuAdvance);
    RunTwo(s6, CpCall, CpBegin, []);
    RunNone(Step(Step(s6, CpCall), CpBegin));
  }

  lemma RunNone(s: State)
    requires Bounded(s)
    ensures Run(s, []) == s
  {}

  /** Half a slot is decoded, then input runs out; the next call decodes a whole slot. */
  ghost function HalfThenWhole(x: byte, y: byte, z: byte): seq<Action> {
    [CpCall, CpBegin]
    + ([CpOutput([x], false), CpNoInput] + ([CpCount] + ([CpCall] + ([CpBegin, CpOutput([y, z], false)] + []))))
  }

  lemma StartAfterFirst(out: seq<byte>)
    requires |out| == 2 * SLOTS
    ensures var s := Start(1, 2, out);
      && s == State(Shared([Idle, Done, Done], [0, 2, 2], out, 0, 1, 2), 1, CpIdle, McuIdle, s.produced, 0, [])
      && s.produced != [] && s.produced[0] == Pcm([out[2], out[3]])
  {
    var block := Block(out, 1, 2);
    assert block == [out[2], out[3]];
  }

  lemma HalfDecoded(s: State, out: seq<byte>, x: byte)
    requires |out| == 2 * SLOTS && s.sh == Shared([Idle, Done, Done], [0, 2, 2], out, 0, 1, 2)
    requires s.first == 1 && s.cp == CpIdle
    ensures var s2 := Step(Step(s, CpCall), CpBegin);
      var s4 := Step(Step(s2, CpOutput([x], false)), CpNoInput);
      Step(s4, CpCount) == s.(sh := Shared([Working, Done, Done], [1, 2, 2], [x] + out[1..], 0, 1, 2))
  {}

  lemma WholeDecoded(s: State, out: seq<byte>, x: byte, y: byte, z: byte)
    requires |out| == 2 * SLOTS && s.sh == Shared([Working, Done, Done], [1, 2, 2], [x] + out[1..], 0, 1, 2)
    requires s.first == 1 && s.cp == CpIdle
    ensures Carries(s, CpCall)
    ensures Step(Step(Step(s, CpCall), CpBegin), CpOutput([y, z], false))
      == s.(cp := CpEnding(2, false), sh := s.sh.(out := [x, y, z] + out[3..]))
  {}

  /**
   A run from start-up in which a call finds something carried over: its output runs on into the next
   slot, which holds a decoded block not yet played.
   */
  lemma CarryOverwritesUndrained(out: seq<byte>, x: byte, y: byte, z: byte)
    requires |out| == 2 * SLOTS
    ensures var s := Run(Start(1, 2, out), HalfThenWhole(x, y, z));
      && !NothingCarried(Start(1, 2, out), HalfThenWhole(x, y, z))
      && s.drained == 0 && s.produced != [] && s.produced[0] == Pcm([out[2], out[3]])
      && s.sh.state[1].Done? && Slot(s.first, 0) == 1
      && s.sh.out == [x, y, z] + out[3..]
  {
    var s0 := Start(1, 2, out);
    var tail := [CpBegin, CpOutput([y, z], false)] + [];
    StartAfterFirst(out);
    hide NothingCarried, Run, Start, Step, Carries;
    HalfDecoded(s0, out, x);
    RunTwo(s0, CpCall, CpBegin, [CpOutput([x], false), CpNoInput] + ([CpCount] + ([CpCall] + tail)));
    var s2 := Step(Step(s0, CpCall), CpBegin);
    RunTwo(s2, CpOutput([x], false), CpNoInput, [CpCount] + ([CpCall] + tail));
    var s4 := Step(Step(s2, CpOutput([x], false)), CpNoInput);
    RunFirst(s4, CpCount, [CpCall] + tail);
    var s5 := Step(s4, CpCount);
    WholeDecoded(s5, out, x, y, z);
    RunFirst(s5, CpCall, tail);
    var s6 := Step(s5, CpCall);
    RunTwo(s6, CpBegin, CpOutput([y, z], false), []);
    RunNone(Step(Step(s6, CpBegin), CpOutput([y, z], false)));
  }

  // ----- Decoders that fill a slot from one load carry nothing over. -----

  ghost predicate FullSlots(acts: seq<Action>, loop: nat) {
    forall a <- acts :: a.CpOutput? && !a.failed ==> |a.data| == loop
  }

  ghost predicate NothingBegun(s: State)
    requires Bounded(s)
  {
    && (s.cp.CpDecoding? ==> s.cp.done == 0)
    && (s.cp.CpEnding? && s.cp.retry ==> s.cp.n == 0)
    && (s.sh.state[s.sh.cpIdx].Working? && !s.cp.CpMarking? && !s.cp.CpAdvancing? ==> s.sh.outLen[s.sh.cpIdx] == 0)
  }

  lemma FullStep(s: State, a: Action)
    requires Owned(s) && NothingBegun(s) && FullSlots([a], s.sh.loop)
    ensures !Carries(s, a) && NothingBegun(Step(s, a))
  {
    assert a in [a];
    hide Slot, Block, InSequence;
    if a.CpAdvance? && s.cp.CpAdvancing? {
      SlotNumbers(s.first, |s.produced| - 1, |s.produced|);
      if |s.produced| == s.drained + SLOTS { BusyWhenFull(s); }
    }
  }

  lemma {:induction false} FullSlotsCarryNothing(s: State, acts: seq<Action>)
    requires Owned(s) && NothingBegun(s) && FullSlots(acts, s.sh.loop)
    ensures NothingCarried(s, acts)
    decreases |acts|
  {
    if acts != [] {
      assert FullSlots([acts[0]], s.sh.loop);
      FullStep(s, acts[0]);
      StepKeepsOwned(s, acts[0]);
      hide Owned, Step, NothingBegun, Carries;
      FullSlotsCarryNothing(Step(s, acts[0]), acts[1..]);
    }
  }
}
