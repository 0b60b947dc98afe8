/**
 * The voice detector (voice_detector.c, app_voice_detector.cpp): events queue short command sequences,
 * and the device runs the queue until it is empty. The detector listens with the voice activity
 * detector (VAD) or captures with the microphone stream.
 */
module VoiceDetector {
  const CMD_QUEUE_DATA_SIZE := 15
  const COUNTER_SIZE := 0x1_0000_0000

  datatype Cmd = Idle | Exit | VadOpen | VadStart | VadStop | VadClose | CapStart | CapStop | CapOpen | CapClose
               | Clk32K | Clk26M | Clk52M | Clk104M

  datatype Event = StartVad | StartCapture | Close | OtherEvent

  /** How far a stream or the VAD is set up. */
  datatype Stage = Closed | Ready | Running

  /** The device. Misuses counts operations on a stream in the wrong stage. */
  datatype Dev = Dev(ready: bool, state: Cmd, clock: Cmd, captureSet: bool, wakeups: nat,
                     vad: Stage, capture: Stage, misuses: nat)

  // ---------------------------------------------------------------- commands

  function Next(from: Stage, needed: Stage, to: Stage): Stage {
    if from == needed then to else from
  }

  function Misuse(from: Stage, needed: Stage): nat {
    if from == needed then 0 else 1
  }

  function MoveVad(d: Dev, needed: Stage, to: Stage): Dev {
    d.(vad := Next(d.vad, needed, to), misuses := d.misuses + Misuse(d.vad, needed))
  }

  function MoveCapture(d: Dev, needed: Stage, to: Stage): Dev {
    d.(capture := Next(d.capture, needed, to), misuses := d.misuses + Misuse(d.capture, needed))
  }

  /** Opening a capture stream that has not been set up is the one command that fails. */
  predicate Fails(d: Dev, c: Cmd) {
    c.CapOpen? && !d.captureSet
  }

  predicate IsClock(c: Cmd) {
    c.Clk32K? || c.Clk26M? || c.Clk52M? || c.Clk104M?
  }

  function Act(d: Dev, c: Cmd): Dev {
    match c
    case VadOpen => MoveVad(d, Closed, Ready)
    case VadStart => MoveVad(d, Ready, Running).(wakeups := 0)
    case VadStop => MoveVad(d, Running, Ready)
    case VadClose => MoveVad(d, Ready, Closed)
    case CapOpen => if Fails(d, c) then d else MoveCapture(d, Closed, Ready)
    case CapStart => MoveCapture(d, Ready, Running)
    case CapStop => MoveCapture(d, Running, Ready)
    case CapClose => MoveCapture(d, Ready, Closed)
    case Idle => d
    case Exit => d
    case _ => d.(clock := c)
  }

  /** A command that succeeds becomes the state, unless it only changes the clock. */
  function After(d: Dev, c: Cmd): Dev {
    var done := Act(d, c);
    if Fails(d, c) || IsClock(c) then done else done.(state := c)
  }

  function Exec(d: Dev, cmds: seq<Cmd>): Dev
    decreases |cmds|
  {
    if cmds == [] then d else Exec(After(d, cmds[0]), cmds[1..])
  }

  // ---------------------------------------------------------------- the command queue

  class CommandQueue {
    var idx: int
    var out: int
    const data: array<Cmd>

    ghost predicate Valid()
      reads this, data
    {
      data.Length == CMD_QUEUE_DATA_SIZE &&
      ((idx == -1 && out == -1) || (0 < idx <= CMD_QUEUE_DATA_SIZE && -1 <= out < idx))
    }

    ghost function Contents(): seq<Cmd>
      requires Valid()
      reads this, data
    {
      if idx < 0 then [] else data[if out < 0 then 0 else out..idx]
    }

    /** Entries that can still be queued before the queue has been emptied. */
    ghost function Room(): nat
      requires Valid()
      reads this, data
    {
      if idx < 0 then CMD_QUEUE_DATA_SIZE else CMD_QUEUE_DATA_SIZE - idx
    }

    constructor ()
      ensures Valid() && fresh(data) && Contents() == [] && Room() == CMD_QUEUE_DATA_SIZE
    {
      idx, out := -1, -1;
      data := new Cmd[CMD_QUEUE_DATA_SIZE](i => Idle);
    }

    method Init()
      requires Valid()
      modifies this
      ensures Valid() && Contents() == [] && Room() == CMD_QUEUE_DATA_SIZE
    {
      idx, out := -1, -1;
    }

    /** -2 when the queue is full; entries already taken out still use up room until it is empty. */
    method Enqueue(c: Cmd) returns (ret: int)
      requires Valid()
      modifies this, data
      ensures Valid()
      ensures ret == if old(Room()) == 0 then -2 else 0
      ensures Contents() == if ret == 0 then old(Contents()) + [c] else old(Contents())
      ensures Room() == if ret == 0 then old(Room()) - 1 else 0
    {
      if idx >= CMD_QUEUE_DATA_SIZE { return -2; }
      if idx < 0 { idx := 0; }
      data[idx] := c;
      idx := idx + 1;
      return 0;
    }

    method Dequeue() returns (empty: bool, c: Cmd)
      requires Valid()
      modifies this
      ensures Valid()
      ensures empty == (old(Contents()) == [])
      ensures !empty ==> old(Contents()) == [c] + Contents()
      ensures empty ==> Contents() == []
      ensures Room() == if Contents() == [] then CMD_QUEUE_DATA_SIZE else old(Room())
    {
      c := Idle;
      if idx < 0 { return true, c; }
      if out < 0 { out := 0; }
      c := data[out];
      assert data[out..idx] == [c] + data[out + 1..idx];
      out := out + 1;
      if out >= idx {
        out := -1;
        idx := -1;
      }
      return false, c;
    }

    method IsEmpty() returns (empty: bool)
      requires Valid()
      ensures empty == (Contents() == [])
    {
      return idx < 0;
    }
  }

  // ---------------------------------------------------------------- events

  /** The commands that an event sends, chosen by the state it finds. */
  function Commands(state: Cmd, e: Event): seq<Cmd> {
    match e
    case StartVad =>
      if state == VadClose then [CapStop, CapClose, VadOpen, VadStart, Clk32K] else [VadOpen, VadStart, Clk32K]
    case StartCapture => [CapOpen, CapStart, VadStop, VadClose]
    case Close => if state == VadClose then [CapStop, CapClose, Exit] else [VadStop, VadClose, Exit]
    case OtherEvent => [CapStop, CapClose, VadStop, VadClose, Exit]
  }

  /** What an event does to an open device with an empty queue, and to a closed one. */
  function Handle(d: Dev, e: Event): Dev {
    var fast := d.(clock := Clk26M);
    if !d.ready then fast
    else
      var done := Exec(fast, Commands(d.state, e));
      if e.Close? then done.(ready := false) else done
  }

  class Detector {
    const queue: CommandQueue
    var ready: bool
    var running: bool
    var state: Cmd
    var clock: Cmd
    var captureSet: bool
    var wakeups: nat
    var vad: Stage
    var capture: Stage
    ghost var misuses: nat

    ghost predicate Valid()
      reads this, queue, queue.data
    {
      queue.Valid() && wakeups < COUNTER_SIZE
    }

    /** Between two calls the queue of an open device is empty. */
    ghost predicate AtRest()
      reads this, queue, queue.data
    {
      Valid() && (ready ==> queue.Contents() == [])
    }

    ghost function View(): Dev
      reads this
    {
      Dev(ready, state, clock, captureSet, wakeups, vad, capture, misuses)
    }

    constructor ()
      ensures AtRest() && !running && fresh(queue) && fresh(queue.data)
      ensures View() == Dev(false, Idle, Clk32K, false, 0, Closed, Closed, 0)
    {
      queue := new CommandQueue();
      ready, running, state, clock := false, false, Idle, Clk32K;
      captureSet, wakeups, vad, capture, misuses := false, 0, Closed, Closed, 0;
    }

    /** voice_detector_open: everything is reset except what the hardware holds. */
    method Open() returns (ret: int)
      requires Valid()
      modifies this, queue
      ensures Valid() && running == old(running)
      ensures ret == if old(ready) then -2 else if running then -3 else 0
      ensures ret != 0 ==> View() == old(View()) && queue.Contents() == old(queue.Contents())
      ensures ret == 0 ==> queue.Contents() == []
      ensures ret == 0 ==> View() == Step(old(View()), Reopen)
    {
      if ready { return -2; }
      if running { return -3; }
      captureSet, wakeups, clock := false, 0, Clk32K;
      queue.Init();
      state := Idle;
      ready := true;
      return 0;
    }

    /** voice_detector_setup_stream for the capture stream; set says whether the stream is complete. */
    method SetupCapture(complete: bool) returns (ret: int)
      requires Valid()
      modifies this`captureSet
      ensures Valid() && queue.Contents() == old(queue.Contents())
      ensures ret == if ready then 0 else -2
      ensures View() == Step(old(View()), Setup(complete))
    {
      if !ready { return -2; }
      captureSet := complete;
      return 0;
    }

    /** voice_detector_process_cmd and the command functions it selects. */
    method ProcessCmd(c: Cmd) returns (err: int)
      requires Valid()
      modifies this`clock, this`wakeups, this`vad, this`capture, this`misuses
      ensures Valid()
      ensures View() == Act(old(View()), c)
      ensures err == if Fails(old(View()), c) then -1 else 0
    {
      if IsClock(c) { clock := c; }
      match c {
        case VadOpen =>
          misuses := misuses + Misuse(vad, Closed);
          vad := Next(vad, Closed, Ready);
        case VadStart =>
          wakeups := 0;
          misuses := misuses + Misuse(vad, Ready);
          vad := Next(vad, Ready, Running);
        case VadStop =>
          misuses := misuses + Misuse(vad, Running);
          vad := Next(vad, Running, Ready);
        case VadClose =>
          misuses := misuses + Misuse(vad, Ready);
          vad := Next(vad, Ready, Closed);
        case CapOpen =>
          if !captureSet { return -1; }
          misuses := misuses + Misuse(capture, Closed);
          capture := Next(capture, Closed, Ready);
        case CapStart =>
          misuses := misuses + Misuse(capture, Ready);
          capture := Next(capture, Ready, Running);
        case CapStop =>
          misuses := misuses + Misuse(capture, Running);
          capture := Next(capture, Running, Ready);
        case CapClose =>
          misuses := misuses + Misuse(capture, Ready);
          capture := Next(capture, Ready, Closed);
        case _ =>
      }
      return 0;
    }

    method SetStatus(c: Cmd)
      modifies this`state
      ensures state == if IsClock(c) then old(state) else c
    {
      if IsClock(c) { return; }
      state := c;
    }

    /** voice_detector_send_cmd_array: stops at the first command the queue does not take. */
    method Send(cmds: seq<Cmd>) returns (ret: int)
      requires Valid()
      modifies queue, queue.data
      ensures Valid() && View() == old(View())
      ensures ret == if |cmds| <= old(queue.Room()) then 0 else -2
      ensures queue.Contents() == old(queue.Contents()) + (if ret == 0 then cmds else cmds[..old(queue.Room())])
    {
      var i := 0;
      while i < |cmds|
        invariant i <= |cmds| && Valid() && View() == old(View())
        invariant queue.Room() == old(queue.Room()) - i
        invariant queue.Contents() == old(queue.Contents()) + cmds[..i]
      {
        ret := queue.Enqueue(cmds[i]);
        if ret != 0 { return ret; }
        assert cmds[..i + 1] == cmds[..i] + [cmds[i]];
        i := i + 1;
      }
      assert cmds[..|cmds|] == cmds;
      return 0;
    }

    /** voice_detector_run until the queue is empty; the result is that of the last command. */
    method Run() returns (ret: int)
      requires Valid()
      modifies this, queue
      ensures Valid()
      ensures !ready ==> ret == -2 && View() == old(View()) && queue.Contents() == old(queue.Contents())
      ensures ready == old(ready)
      ensures ready ==> View() == Exec(old(View()), old(queue.Contents())) && queue.Contents() == []
    {
      hide Exec, Act, Fails;
      if !ready { return -2; }
      running := true;
      ret := 0;
      var finished := false;
      while !finished
        invariant Valid() && ready
        invariant Exec(View(), queue.Contents()) == Exec(old(View()), old(queue.Contents()))
        invariant finished ==> queue.Contents() == []
        decreases |queue.Contents()|, !finished
      {
        var err := 0;
        ghost var before := View();
        var nothing, c := queue.Dequeue();
        if !nothing {
          ExecStep(before, c, queue.Contents());
          err := ProcessCmd(c);
          if err == 0 { SetStatus(c); }
        }
        var empty := queue.IsEmpty();
        if empty {
          finished := true;
          ret := err;
        }
      }
      ExecNone(View());
      running := false;
    }

    /** app_voice_detector_process. */
    method Process(e: Event) returns (ret: int)
      requires AtRest()
      modifies this, queue, queue.data
      ensures AtRest() && View() == Step(old(View()), Deliver(e))
      ensures !old(ready) ==> ret == -2
    {
      hide Act, Fails, Exec;
      clock := Clk26M;
      var cmds := Commands(state, e);
      assert |cmds| <= 5 && [] + cmds == cmds;
      ret := Send(cmds);
      assert ready ==> ret == 0;   // the queue does not overflow
      ret := Run();
      if e.Close? { ready := false; }
    }

    /**
     voice_detector_vad_callback and the two wake-up functions: the first interrupt after the VAD was
     started posts an event, if the detector is listening.
     */
    method VadInterrupt(found: bool) returns (posted: bool, e: Event)
      requires Valid()
      modifies this`wakeups
      ensures Valid() && View() == Step(old(View()), Interrupt)
      ensures queue.Contents() == old(queue.Contents())
      ensures posted == Posts(old(View()))
      ensures posted ==> e == if found then StartCapture else StartVad
    {
      wakeups := (wakeups + 1) % COUNTER_SIZE;
      e := if found then StartCapture else StartVad;
      posted := wakeups == 1 && state == VadStart;
    }
  }

  // ---------------------------------------------------------------- whole runs

  /** The states in which the detector rests between two events of an open device. */
  ghost predicate Steady(d: Dev) {
    && d.ready
    && (|| (d.state == Idle && d.vad == Closed && d.capture == Closed)
        || (d.state == VadStart && d.vad == Running && d.capture == Closed)
        || (d.state == VadClose && d.vad == Closed && d.capture == Running))
  }

  /** The events that the interface expects in a state. */
  predicate Admitted(d: Dev, e: Event) {
    match e
    case StartVad => d.state == Idle || d.state == VadClose
    case StartCapture => d.state == VadStart && d.captureSet
    case Close => d.state == VadStart || d.state == VadClose
    case OtherEvent => false
  }

  lemma ExecStep(d: Dev, c: Cmd, rest: seq<Cmd>)
    ensures Exec(d, [c] + rest) == Exec(After(d, c), rest)
  {
    assert ([c] + rest)[1..] == rest;
  }

  lemma ExecNone(d: Dev)
    ensures Exec(d, []) == d
  {}

  function Twice(d: Dev, a: Cmd, b: Cmd): Dev {
    After(After(d, a), b)
  }

  /** The device after an event, command by command. */
  function Handled(d: Dev, e: Event): Dev {
    var fast := d.(clock := Clk26M);
    match e
    case StartVad =>
      After(Twice(if d.state == VadClose then Twice(fast, CapStop, CapClose) else fast, VadOpen, VadStart), Clk32K)
    case StartCapture => Twice(Twice(fast, CapOpen, CapStart), VadStop, VadClose)
    case Close =>
      After(if d.state == VadClose then Twice(fast, CapStop, CapClose) else Twice(fast, VadStop, VadClose), Exit).(ready := false)
    case OtherEvent => After(Twice(Twice(fast, CapStop, CapClose), VadStop, VadClose), Exit)
  }

  lemma ExecTwice(d: Dev, a: Cmd, b: Cmd, rest: seq<Cmd>)
    ensures Exec(d, [a, b] + rest) == Exec(Twice(d, a, b), rest)
  {
    hide After, Exec;
    assert [a, b] + rest == [a] + ([b] + rest);
    ExecStep(d, a, [b] + rest);
    ExecStep(After(d, a), b, rest);
  }

  lemma ExecOne(d: Dev, c: Cmd)
    ensures Exec(d, [c]) == After(d, c)
  {
    assert Exec(After(d, c), []) == After(d, c);
  }

  lemma HandleSteps(d: Dev, e: Event)
    requires d.ready
    ensures Handle(d, e) == Handled(d, e)
  {
    var fast, cmds := d.(clock := Clk26M), Commands(d.state, e);
    hide After, Exec, Twice;
    ExecTwice(fast, cmds[0], cmds[1], cmds[2..]);
    var two := Twice(fast, cmds[0], cmds[1]);
    assert cmds == [cmds[0], cmds[1]] + cmds[2..];
    if |cmds| == 3 {
      assert cmds[2..] == [cmds[2]];
      ExecOne(two, cmds[2]);
    } else {
      assert cmds[2..] == [cmds[2], cmds[3]] + cmds[4..];
      ExecTwice(two, cmds[2], cmds[3], cmds[4..]);
      var four := Twice(two, cmds[2], cmds[3]);
      if |cmds| == 5 {
        assert cmds[4..] == [cmds[4]];
        ExecOne(four, cmds[4]);
      } else {
        assert cmds[4..] == [];
        ExecNone(four);
      }
    }
  }

  /** The pairs of commands, on a stream that is either closed or running. */
  lemma VadPairs(d: Dev)
    requires d.vad != Ready
    ensures Twice(d, VadOpen, VadStart) ==
      d.(vad := Running, wakeups := 0, state := VadStart, misuses := d.misuses + 2 * Misuse(d.vad, Closed))
    ensures Twice(d, VadStop, VadClose) ==
      d.(vad := Closed, state := VadClose, misuses := d.misuses + 2 * Misuse(d.vad, Running))
  {
    var open, stop := After(d, VadOpen), After(d, VadStop);
    assert open == MoveVad(d, Closed, Ready).(state := VadOpen);
    assert stop == MoveVad(d, Running, Ready).(state := VadStop);
    assert After(open, VadStart) == MoveVad(open, Ready, Running).(wakeups := 0, state := VadStart);
    assert After(stop, VadClose) == MoveVad(stop, Ready, Closed).(state := VadClose);
    hide After;
  }

  lemma CapturePairs(d: Dev)
    requires d.capture != Ready
    ensures Twice(d, CapStop, CapClose) ==
      d.(capture := Closed, state := CapClose, misuses := d.misuses + 2 * Misuse(d.capture, Running))
    ensures Twice(d, CapOpen, CapStart) ==
      if d.captureSet
      then d.(capture := Running, state := CapStart, misuses := d.misuses + 2 * Misuse(d.capture, Closed))
      else d.(state := CapStart, misuses := d.misuses + 1)
  {
    var open, stop := After(d, CapOpen), After(d, CapStop);
    assert open == if d.captureSet then MoveCapture(d, Closed, Ready).(state := CapOpen) else d;
    assert stop == MoveCapture(d, Running, Ready).(state := CapStop);
    assert After(open, CapStart) == MoveCapture(open, Ready, Running).(state := CapStart);
    assert After(stop, CapClose) == MoveCapture(stop, Ready, Closed).(state := CapClose);
    hide After;
  }

  lemma Single(d: Dev)
    ensures After(d, Clk32K) == d.(clock := Clk32K) && After(d, Exit) == d.(state := Exit)
  {}

  /**
   An event misuses a stream if and only if it is not admitted. After an admitted event exactly one of
   the VAD and the capture stream is running, or none is even open after a close.
   */
  ghost predicate Outcome(d: Dev, e: Event) {
    var after := Handle(d, e);
    && d.misuses <= after.misuses
    && (after.misuses == d.misuses <==> Admitted(d, e))
    && (Admitted(d, e) && !e.Close? ==> Steady(after) && after.state != Idle)
    && (Admitted(d, e) && e.Close? ==> after.vad == Closed && after.capture == Closed && !after.ready)
  }

  lemma LegalIffAdmitted(d: Dev, e: Event)
    requires Steady(d)
    ensures Outcome(d, e)
  {
    hide Handle, Twice, After, Act;
    HandleSteps(d, e);
    var fast := d.(clock := Clk26M);
    VadPairs(fast);
    CapturePairs(fast);
    var down := Twice(fast, CapStop, CapClose);
    VadPairs(down);
    CapturePairs(down);
    var up := Twice(fast, CapOpen, CapStart);
    VadPairs(up);
    CapturePairs(up);
    match e
    case StartVad => Single(Twice(if d.state == VadClose then down else fast, VadOpen, VadStart));
    case StartCapture =>
    case Close => Single(if d.state == VadClose then down else Twice(fast, VadStop, VadClose));
    case OtherEvent => Single(Twice(down, VadStop, VadClose));
  }

  /** What can happen to the device over its life. */
  datatype Action = Reopen | Setup(complete: bool) | Deliver(e: Event) | Interrupt

  const INITIAL := Dev(false, Idle, Clk32K, false, 0, Closed, Closed, 0)

  function Step(d: Dev, a: Action): Dev {
    match a
    case Reopen => if d.ready then d else Dev(true, Idle, Clk32K, false, 0, d.vad, d.capture, d.misuses)
    case Setup(complete) => if d.ready then d.(captureSet := complete) else d
    case Deliver(e) => Handle(d, e)
    case Interrupt => d.(wakeups := (d.wakeups + 1) % COUNTER_SIZE)
  }

  function RunOf(acts: seq<Action>): Dev
    decreases |acts|
  {
    if acts == [] then INITIAL else Step(RunOf(acts[..|acts| - 1]), acts[|acts| - 1])
  }

  /** Every event that reaches an open device is one it expects. */
  predicate AllAdmitted(acts: seq<Action>)
    decreases |acts|
  {
    if acts == [] then true
    else
      var d, last := RunOf(acts[..|acts| - 1]), acts[|acts| - 1];
      AllAdmitted(acts[..|acts| - 1]) && (last.Deliver? && d.ready ==> Admitted(d, last.e))
  }

  lemma {:induction false} MisusesGrow(d: Dev, cmds: seq<Cmd>)
    ensures d.misuses <= Exec(d, cmds).misuses
    decreases |cmds|
  {
    if cmds != [] {
      AfterGrows(d, cmds[0]);
      hide After;
      MisusesGrow(After(d, cmds[0]), cmds[1..]);
    }
  }

  lemma AfterGrows(d: Dev, c: Cmd)
    ensures d.misuses <= After(d, c).misuses
  {}

  lemma StepGrows(d: Dev, a: Action)
    ensures d.misuses <= Step(d, a).misuses
  {
    hide Exec;
    if a.Deliver? { MisusesGrow(d.(clock := Clk26M), Commands(d.state, a.e)); }
  }

  /** An open device rests, a closed one holds nothing open. */
  ghost predicate Resting(d: Dev) {
    if d.ready then Steady(d) else d.vad == Closed && d.capture == Closed
  }

  lemma StepRests(d: Dev, a: Action)
    requires Resting(d)
    ensures a.Deliver? && d.ready && !Admitted(d, a.e) ==> Step(d, a).misuses > d.misuses
    ensures (a.Deliver? && d.ready ==> Admitted(d, a.e)) ==> Resting(Step(d, a)) && Step(d, a).misuses == d.misuses
  {
    if a.Deliver? && d.ready {
      LegalIffAdmitted(d, a.e);
      hide Handle;
    }
  }

  /**
   In every run from start-up, all stream operations are legal if and only if every event was one
   the device expects; then the device rests, and a closed one has the VAD and the stream closed.
   */
  lemma {:induction false} RunIsLegal(acts: seq<Action>)
    ensures RunOf(acts).misuses == 0 <==> AllAdmitted(acts)
    ensures AllAdmitted(acts) ==> Resting(RunOf(acts))
    decreases |acts|
  {
    if acts != [] {
      var front, last := acts[..|acts| - 1], acts[|acts| - 1];
      hide Step, Resting, Admitted;
      RunIsLegal(front);
      StepGrows(RunOf(front), last);
      if AllAdmitted(front) { StepRests(RunOf(front), last); }
    } else {
      assert RunOf(acts) == INITIAL;
    }
  }

  /** A stream set up last decides whether capture can be started while listening; a closed device ignores it. */
  lemma SetupDecides(d: Dev, complete: bool)
    ensures Steady(d) && d.state == VadStart ==>
      var t := Step(d, Setup(complete));
      Steady(t) && t.state == VadStart && (Admitted(t, StartCapture) <==> complete)
    ensures !d.ready ==> Step(d, Setup(complete)) == d
  {}

  /**
   Opening a device that is open changes nothing. A closed one forgets the stream it was set up with: after it
   was opened the VAD can be started, with a new count of wake-ups, and capture cannot.
   */
  lemma ReopenForgets(d: Dev)
    requires Resting(d)
    ensures d.ready ==> Step(d, Reopen) == d
    ensures !d.ready ==>
      var o := Step(d, Reopen);
      var listening := Step(o, Deliver(StartVad));
      && Steady(o) && o.state == Idle && o.clock == Clk32K && o.wakeups == 0 && !o.captureSet
      && Steady(listening) && listening.state == VadStart && listening.misuses == d.misuses && listening.wakeups == 0
      && !Admitted(listening, StartCapture)
  {
    if !d.ready {
      var o := Step(d, Reopen);
      hide Act, After, Exec, Commands;
      LegalIffAdmitted(o, StartVad);
      StartClearsCounter(o);
      StartKeepsSetup(o);
    }
  }

  /** Only the clock commands change the clock. */
  lemma {:induction false} ClockCommands(d: Dev, cmds: seq<Cmd>)
    requires forall c <- cmds :: !IsClock(c)
    ensures Exec(d, cmds).clock == d.clock
    decreases |cmds|
  {
    if cmds != [] {
      assert !IsClock(cmds[0]) && forall c <- cmds[1..] :: c in cmds;
      ClockCommands(After(d, cmds[0]), cmds[1..]);
    }
  }

  /** A detector that listens runs on the slow clock; every other event leaves the fast one. */
  lemma ListeningIsSlow(d: Dev, e: Event)
    requires d.ready
    ensures Handle(d, e).clock == if e.StartVad? then Clk32K else Clk26M
  {
    HandleSteps(d, e);
    hide Exec, Handle;
  }

  lemma StartKeepsSetup(d: Dev)
    requires Steady(d) && Admitted(d, StartVad)
    ensures Handle(d, StartVad).captureSet == d.captureSet
  {
    HandleSteps(d, StartVad);
    hide Exec, Handle;
  }

  // ---------------------------------------------------------------- the wake-up gate

  /** The next interrupt posts an event. */
  predicate Posts(d: Dev) {
    (d.wakeups + 1) % COUNTER_SIZE == 1 && d.state == VadStart
  }

  /** The events posted by n interrupts one after the other. */
  function Posted(d: Dev, n: nat): nat
    decreases n
  {
    if n == 0 then 0 else (if Posts(d) then 1 else 0) + Posted(Step(d, Interrupt), n - 1)
  }

  /** Whenever the 32-bit counter passes from 0 to 1, one event is posted. */
  lemma {:induction false} PostedFrom(d: Dev, n: nat)
    requires d.state == VadStart && d.wakeups < COUNTER_SIZE
    ensures Posted(d, n) == (d.wakeups + n + COUNTER_SIZE - 1) / COUNTER_SIZE - (d.wakeups + COUNTER_SIZE - 1) / COUNTER_SIZE
    decreases n
  {
    hide Step, Posts;
    if n > 0 {
      OneInterrupt(d);
      PostedFrom(Step(d, Interrupt), n - 1);
    }
  }

  lemma OneInterrupt(d: Dev)
    requires d.state == VadStart && d.wakeups < COUNTER_SIZE
    ensures var t := Step(d, Interrupt);
      && t.state == VadStart && t.wakeups == (if d.wakeups + 1 == COUNTER_SIZE then 0 else d.wakeups + 1)
    ensures Posts(d) <==> d.wakeups == 0
  {}

  /**
   After an admitted event that starts the VAD, n interrupts post one event for every 2^32 of them that
   have begun, so exactly one for any number from 1 to 2^32.
   */
  lemma OnePostPerStart(d: Dev, n: nat)
    requires Steady(d) && Admitted(d, StartVad)
    ensures var started := Step(d, Deliver(StartVad));
      && Posted(started, n) == (n + COUNTER_SIZE - 1) / COUNTER_SIZE
      && (Posted(started, n) == 1 <==> 1 <= n <= COUNTER_SIZE)
  {
    StartClearsCounter(d);
    PostedFrom(Step(d, Deliver(StartVad)), n);
  }

  lemma StartClearsCounter(d: Dev)
    requires Steady(d) && Admitted(d, StartVad)
    ensures Handle(d, StartVad).wakeups == 0 && Handle(d, StartVad).state == VadStart
  {
    HandleSteps(d, StartVad);
    hide Exec, Handle;
  }

  /** While the detector is not listening, interrupts post nothing, however many there are. */
  lemma {:induction false} NothingPosted(d: Dev, n: nat)
    requires d.state != VadStart
    ensures Posted(d, n) == 0
    decreases n
  {
    if n > 0 {
      assert Step(d, Interrupt).state == d.state;
      NothingPosted(Step(d, Interrupt), n - 1);
    }
  }
}
