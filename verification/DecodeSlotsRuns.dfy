/**
 The methods of the slot class are runs of the slot machine: a decode call of the co-processor and a turn of
 the MCU, each without interruption.
 */
module DecodeSlotsRuns {
  import opened Ring
  import opened DecodeSlots
  import opened DecodeSlotsProtocol

  lemma RunNext(s: State, a: Action, rest: seq<Action>)
    requires Bounded(s)
    ensures Run(s, [a] + rest) == Run(Step(s, a), rest)
  {
    assert ([a] + rest)[1..] == rest;
  }

  lemma RunEmpty(s: State)
    requires Bounded(s)
    ensures Run(s, []) == s
  {}

  // ----- A decode call. -----

  ghost function Tried(a: Attempt): Action {
    if a.NoInput? then CpNoInput else CpOutput(a.data, a.failed)
  }

  ghost function Ending(): seq<Action> {
    [CpNoInput] + ([CpCount] + ([CpMark] + ([CpAdvance] + [])))
  }

  /** The steps of the decode loop, and those that end the call. */
  ghost function Loop(attempts: seq<Attempt>): seq<Action> {
    if attempts == [] then Ending() else [Tried(attempts[0])] + Loop(attempts[1..])
  }

  /** All steps of one call; those that are not possible any more do nothing. */
  ghost function Call(attempts: seq<Attempt>): seq<Action> {
    [CpCall] + ([CpBegin] + Loop(attempts))
  }

  /** How a slot ended, if it did. */
  ghost function Outcomes(c: CallResult): seq<Outcome>
    requires WellFormed(c.sh)
  {
    if c.retry then []
    else if c.n == c.sh.loop then [Pcm(Block(c.sh.out, c.sh.cpIdx, c.sh.loop))]
    else [Lost]
  }

  /** The state after the decode loop stopped with the result `c`. */
  ghost function AfterLoop(s: State, c: CallResult): State
    requires WellFormed(c.sh)
  {
    s.(sh := Ended(c.sh, c.n, c.retry), cp := CpIdle, produced := s.produced + Outcomes(c))
  }

  lemma EndingRuns(s: State, c: CallResult)
    requires Bounded(s) && s.sh == c.sh && s.cp == CpEnding(c.n, c.retry)
    ensures Run(s, Ending()) == AfterLoop(s, c)
  {
    var s1 := Step(s, CpNoInput);
    assert s1 == s;
    var s2 := Step(s1, CpCount);
    var s3 := Step(s2, CpMark);
    var s4 := Step(s3, CpAdvance);
    assert s4 == AfterLoop(s, c);
    hide Step, Run, AfterLoop;
    RunNext(s, CpNoInput, [CpCount] + ([CpMark] + ([CpAdvance] + [])));
    RunNext(s1, CpCount, [CpMark] + ([CpAdvance] + []));
    RunNext(s2, CpMark, [CpAdvance] + []);
    RunNext(s3, CpAdvance, []);
    RunEmpty(s4);
  }

  /** Once the loop has stopped, the further attempts are not made. */
  lemma {:induction false} StoppedRuns(s: State, attempts: seq<Attempt>, c: CallResult)
    requires Bounded(s) && s.sh == c.sh && s.cp == CpEnding(c.n, c.retry)
    ensures Run(s, Loop(attempts)) == AfterLoop(s, c)
    decreases |attempts|
  {
    if attempts == [] {
      EndingRuns(s, c);
    } else {
      assert Step(s, Tried(attempts[0])) == s;
      hide Step, Run, AfterLoop;
      RunNext(s, Tried(attempts[0]), Loop(attempts[1..]));
      StoppedRuns(s, attempts[1..], c);
    }
  }

  /** One attempt: the loop goes on, or stops with the result of the call. */
  lemma AttemptRuns(s: State, at: nat, done: nat, attempts: seq<Attempt>)
    requires Bounded(s) && s.cp == CpDecoding(at, done) && done < s.sh.loop
    requires attempts != [] && Fits(attempts, s.sh.loop - done)
    ensures var c := Decoded(s.sh, at, done, attempts); var t := Step(s, Tried(attempts[0]));
      && t == s.(sh := t.sh, cp := t.cp) && t.sh.loop == s.sh.loop
      && if t.cp.CpDecoding?
         then && t.cp.at == at && t.cp.done < s.sh.loop && Fits(attempts[1..], s.sh.loop - t.cp.done)
              && Decoded(t.sh, at, t.cp.done, attempts[1..]) == c
         else t.sh == c.sh && t.cp == CpEnding(c.n, c.retry)
  {
    hide Written;
    var a := attempts[0];
    if a.Output? && !a.failed && done + |a.data| == s.sh.loop {
      var next := Written(s.sh, at + done, a.data);
      assert Decoded(next, at, s.sh.loop, attempts[1..]) == CallResult(next, s.sh.loop, false);
    }
  }

  /** The loop stops where the call stops. */
  lemma {:induction false} LoopRuns(s: State, at: nat, done: nat, attempts: seq<Attempt>)
    requires Bounded(s) && s.cp == CpDecoding(at, done) && done < s.sh.loop && Fits(attempts, s.sh.loop - done)
    ensures Run(s, Loop(attempts)) == AfterLoop(s, Decoded(s.sh, at, done, attempts))
    decreases |attempts|
  {
    var c := Decoded(s.sh, at, done, attempts);
    if attempts == [] {
      NoInputEnds(s, at, done, c);
    } else {
      var t := Step(s, Tried(attempts[0]));
      AttemptRuns(s, at, done, attempts);
      hide Run, AfterLoop, Step, Decoded, Fits, Tried;
      RunNext(s, Tried(attempts[0]), Loop(attempts[1..]));
      SameRest(s, t, c);
      if t.cp.CpDecoding? { LoopRuns(t, at, t.cp.done, attempts[1..]); } else { StoppedRuns(t, attempts[1..], c); }
    }
  }

  lemma SameRest(s: State, t: State, c: CallResult)
    requires WellFormed(c.sh) && t == s.(sh := t.sh, cp := t.cp)
    ensures AfterLoop(t, c) == AfterLoop(s, c)
  {}

  lemma NoInputEnds(s: State, at: nat, done: nat, c: CallResult)
    requires Bounded(s) && s.cp == CpDecoding(at, done) && c == CallResult(s.sh, done, true)
    ensures Run(s, Ending()) == AfterLoop(s, c)
  {
    var t, rest := Step(s, CpNoInput), [CpCount] + ([CpMark] + ([CpAdvance] + []));
    assert t == s.(cp := CpEnding(done, true));
    assert Step(t, CpNoInput) == t;
    hide Step, Run, AfterLoop;
    RunNext(s, CpNoInput, rest);
    RunNext(t, CpNoInput, rest);
    EndingRuns(t, c);
    SameRest(s, t, c);
  }

  lemma {:induction false} IdleRuns(s: State, attempts: seq<Attempt>)
    requires Bounded(s) && s.cp.CpIdle?
    ensures Run(s, Loop(attempts)) == s
    decreases |attempts|
  {
    if attempts == [] {
      var rest := [CpCount] + ([CpMark] + ([CpAdvance] + []));
      assert Step(s, CpNoInput) == s && Step(s, CpCount) == s && Step(s, CpMark) == s && Step(s, CpAdvance) == s;
      hide Step, Run;
      RunNext(s, CpNoInput, rest);
      RunNext(s, CpCount, [CpMark] + ([CpAdvance] + []));
      RunNext(s, CpMark, [CpAdvance] + []);
      RunNext(s, CpAdvance, []);
      RunEmpty(s);
    } else {
      assert Step(s, Tried(attempts[0])) == s;
      hide Step, Run;
      RunNext(s, Tried(attempts[0]), Loop(attempts[1..]));
      IdleRuns(s, attempts[1..]);
    }
  }

  /**
   A call of the co-processor without interruption has the effect that Slots.MainRound states, for every
   decoder, and ends a slot with what then lies in it.
   */
  lemma CallIsARun(s: State, attempts: seq<Attempt>)
    requires Bounded(s) && s.cp.CpIdle? && WindowStart(s.sh) + s.sh.loop <= |s.sh.out|
    requires Fits(attempts, s.sh.loop)
    ensures var t := Run(s, Call(attempts));
      && t == s.(sh := AfterCall(s.sh, attempts), produced := t.produced)
      && t.produced == s.produced + if !CanBegin(s.sh) then []
           else Outcomes(Decoded(Begun(Restarted(s.sh)), WindowStart(s.sh), 0, attempts))
  {
    var s1 := Step(s, CpCall);
    var s2 := Step(s1, CpBegin);
    hide Run, Loop, Ended, Decoded, Fits;
    RunNext(s, CpCall, [CpBegin] + Loop(attempts));
    RunNext(s1, CpBegin, Loop(attempts));
    if CanBegin(s.sh) {
      LoopRuns(s2, WindowStart(s.sh), 0, attempts);
    } else {
      IdleRuns(s2, attempts);
    }
  }

  // ----- A turn of the MCU. -----

  ghost function Copies(n: nat, rest: seq<Action>): seq<Action> {
    if n == 0 then rest else [McuCopyByte] + Copies(n - 1, rest)
  }

  ghost function Giving(): seq<Action> {
    [McuExamine] + ([McuFree] + ([McuAdvance] + []))
  }

  ghost function Turn(outMax: nat, loop: nat): seq<Action> {
    [McuStart] + ([McuCheckLength(outMax)] + Copies(loop, Giving()))
  }

  lemma CopyStep(s: State)
    requires Bounded(s) && s.mcu.McuCopying? && |s.mcu.buf| < s.sh.loop
    requires s.mcu.buf == Block(s.sh.out, s.sh.mcuIdx, s.sh.loop)[..|s.mcu.buf|]
    ensures var block := Block(s.sh.out, s.sh.mcuIdx, s.sh.loop); var k := |s.mcu.buf| + 1;
      Step(s, McuCopyByte) ==
        if k == s.sh.loop then s.(mcu := McuExit(true), delivered := s.delivered + [Delivery(s.drained, block)])
        else s.(mcu := McuCopying(block[..k]))
  {
    var block, k := Block(s.sh.out, s.sh.mcuIdx, s.sh.loop), |s.mcu.buf|;
    assert s.mcu.buf + [s.sh.out[Base(s.sh.mcuIdx, s.sh.loop) + k]] == block[..k + 1];
    assert block[..s.sh.loop] == block;
    hide Block, Base;
  }

  lemma {:induction false} CopiesRun(s: State, n: nat, rest: seq<Action>)
    requires Bounded(s) && s.mcu.McuCopying? && |s.mcu.buf| + n == s.sh.loop && n > 0
    requires s.mcu.buf == Block(s.sh.out, s.sh.mcuIdx, s.sh.loop)[..|s.mcu.buf|]
    ensures var all := Delivery(s.drained, Block(s.sh.out, s.sh.mcuIdx, s.sh.loop));
      var t := s.(mcu := McuExit(true), delivered := s.delivered + [all]);
      Bounded(t) && Run(s, Copies(n, rest)) == Run(t, rest)
    decreases n
  {
    hide Run, Block, Step;
    CopyStep(s);
    RunNext(s, McuCopyByte, Copies(n - 1, rest));
    if n > 1 { CopiesRun(Step(s, McuCopyByte), n - 1, rest); }
  }

  lemma {:induction false} CopiesIdle(s: State, n: nat, rest: seq<Action>)
    requires Bounded(s) && !s.mcu.McuCopying?
    ensures Run(s, Copies(n, rest)) == Run(s, rest)
    decreases n
  {
    if n > 0 {
      assert Step(s, McuCopyByte) == s;
      hide Run;
      RunNext(s, McuCopyByte, Copies(n - 1, rest));
      CopiesIdle(s, n - 1, rest);
    }
  }

  /** The slot is given back when it is finished, whether or not it was played. */
  ghost function GivenBack(s: State): State
    requires Bounded(s)
  {
    var st := s.sh.state[s.sh.mcuIdx];
    if st.Done? || st.Failed?
    then s.(sh := Freed(s.sh).(mcuIdx := NextSlot(s.sh.mcuIdx)), drained := s.drained + 1) else s
  }

  lemma GivingRuns(s: State)
    requires Bounded(s) && s.mcu.McuExit?
    ensures Run(s, Giving()) == GivenBack(s).(mcu := McuIdle)
  {
    var s1 := Step(s, McuExamine);
    var s2 := Step(s1, McuFree);
    var s3 := Step(s2, McuAdvance);
    assert s3 == GivenBack(s).(mcu := McuIdle);
    hide Step, Run, GivenBack;
    RunNext(s, McuExamine, [McuFree] + ([McuAdvance] + []));
    RunNext(s1, McuFree, [McuAdvance] + []);
    RunNext(s2, McuAdvance, []);
    RunEmpty(s3);
  }

  lemma GivenBackKeeps(s: State, mcu: McuPc, delivered: seq<Delivery>)
    requires Bounded(s)
    ensures GivenBack(s.(mcu := mcu, delivered := delivered)) == GivenBack(s).(mcu := mcu, delivered := delivered)
  {}

  /** The first two looks of the MCU at the slot find out whether it can be played. */
  lemma LooksRun(s: State)
    requires Bounded(s) && s.mcu.McuIdle?
    ensures Step(Step(s, McuStart), McuCheckLength(s.sh.loop))
      == s.(mcu := if Playable(s.sh, s.sh.mcuIdx, s.sh.loop) then McuCopying([]) else McuExit(false))
  {}

  /** A turn of the MCU without interruption plays and gives back what Slots.Process states. */
  lemma TurnIsARun(s: State)
    requires Bounded(s) && s.mcu.McuIdle?
    ensures var sh := s.sh; var t := Run(s, Turn(sh.loop, sh.loop));
      && t == GivenBack(s).(delivered := t.delivered)
      && t.delivered == s.delivered
           + if Playable(sh, sh.mcuIdx, sh.loop) then [Delivery(s.drained, Block(sh.out, sh.mcuIdx, sh.loop))] else []
  {
    hide Run, Copies, Block, Step, GivenBack, Playable;
    var sh := s.sh;
    var rest := Copies(sh.loop, Giving());
    RunNext(s, McuStart, [McuCheckLength(sh.loop)] + rest);
    RunNext(Step(s, McuStart), McuCheckLength(sh.loop), rest);
    LooksRun(s);
    if Playable(sh, sh.mcuIdx, sh.loop) {
      CopiesRun(s.(mcu := McuCopying([])), sh.loop, Giving());
      var more := s.delivered + [Delivery(s.drained, Block(sh.out, sh.mcuIdx, sh.loop))];
      GivenBackKeeps(s, McuExit(true), more);
      GivingRuns(s.(mcu := McuExit(true), delivered := more));
    } else {
      CopiesIdle(s.(mcu := McuExit(false)), sh.loop, Giving());
      GivenBackKeeps(s, McuExit(false), s.delivered);
      GivingRuns(s.(mcu := McuExit(false)));
    }
    GivenBackIdle(s);
  }

  lemma GivenBackIdle(s: State)
    requires Bounded(s)
    ensures GivenBack(s).mcu == s.mcu && GivenBack(s).delivered == s.delivered
  {}
}
