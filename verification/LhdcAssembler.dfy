/**
 Reassembly of LHDC audio frames from A2DP packets. A packet carries two header bytes, flags and a
 sequence number, and then either a whole frame or a fragment of one.
 */
module LhdcAssembler {
  import opened Ring

  const BUFFER_LENGTH := 4096

  /** A packet as received; the source reads both header bytes of every packet. */
  type Packet = p: seq<byte> | |p| >= 2 witness [0, 0]

  function Latency(p: Packet): nat { (p[0] % 4) as nat }

  /** None of the fragment flags F (0x80), S (0x40), L (0x20) is set. */
  predicate Whole(p: Packet) { p[0] / 32 == 0 }

  predicate First(p: Packet) { p[0] / 64 % 2 == 1 }

  predicate Last(p: Packet) { p[0] / 32 % 2 == 1 }

  function Number(p: Packet): byte { p[1] }

  function Payload(p: Packet): seq<byte> { p[2..] }

  function After(n: byte): byte {
    if n == 255 then 0 else n + 1
  }

  /** The packet of a sender: three fragment flags, the frame count, the latency level, a number and the payload. */
  function Pack(f: bool, s: bool, l: bool, frames: nat, latency: nat, n: byte, data: seq<byte>): Packet
    requires frames < 8 && latency < 4
  {
    var flags := (if f then 0x80 else 0) + (if s then 0x40 else 0) + (if l then 0x20 else 0);
    [(flags + 4 * frames + latency) as byte, n] + data
  }

  /** The receiver finds in a packet what the sender put there. */
  lemma FieldsRoundTrip(f: bool, s: bool, l: bool, frames: nat, latency: nat, n: byte, data: seq<byte>)
    requires frames < 8 && latency < 4
    ensures var p := Pack(f, s, l, frames, latency, n, data);
      && (Whole(p) <==> !f && !s && !l)
      && (First(p) <==> s)
      && (Last(p) <==> l)
      && Latency(p) == latency && Number(p) == n && Payload(p) == data
  {
    assert Payload(Pack(f, s, l, frames, latency, n, data)) == data;
  }

  /** What is remembered between packets; `partial` is the frame being assembled, if any. */
  datatype State = State(synced: bool, next: byte, waiting: bool, partial: seq<byte>)

  datatype Emit = Nothing | Frame(data: seq<byte>)

  datatype Result = Result(state: State, ret: int, emit: Emit)

  const UNSYNCED := State(false, 255, false, [])

  ghost predicate Sane(s: State) {
    (s.waiting ==> s.synced) && (!s.waiting ==> s.partial == []) && |s.partial| < BUFFER_LENGTH
  }

  /** The packet that may begin a frame: a whole one is passed on, a first fragment is kept. */
  function Begin(s: State, p: Packet): Result
    requires !s.waiting && s.partial == []
  {
    var locked := if s.synced then s else s.(synced := true, next := After(Number(p)));
    if Whole(p) then Result(locked, 1, Frame(Payload(p)))
    else if !First(p) then Result(s, -1, Nothing)
    else if |Payload(p)| >= BUFFER_LENGTH then Result(s, 0, Nothing)
    else Result(locked.(waiting := true, partial := Payload(p)), 0, Nothing)
  }

  /** A packet while a frame is being assembled: its payload is appended whatever its flags. */
  function Continue(s: State, p: Packet): Result
    requires s.waiting
  {
    var all := s.partial + Payload(p);
    var idle := s.(waiting := false, partial := []);
    if |all| >= BUFFER_LENGTH then Result(idle, -1, Nothing)
    else if Last(p) then Result(idle, 1, Frame(all))
    else Result(s.(partial := all), 0, Nothing)
  }

  function Assemble(s: State, p: Packet): (r: Result)
    requires Sane(s)
    ensures Sane(r.state)
    ensures r.ret == 1 <==> r.emit.Frame?
  {
    if s.synced && Number(p) != s.next then
      var reset := State(false, s.next, false, []);
      if Whole(p) || First(p) then Begin(reset, p) else Result(reset, 0, Nothing)
    else
      var s1 := if s.synced then s.(next := After(Number(p))) else s;
      if s1.waiting then Continue(s1, p) else Begin(s1, p)
  }

  /** The packet is dropped for its number before anything else is looked at. */
  ghost predicate Skipped(s: State, p: Packet) {
    s.synced && Number(p) != s.next && !Whole(p) && !First(p)
  }

  /**
   The return code: 1 for a frame; -1 for a packet that belongs to no frame, and for the fragment with which a
   frame outgrows the buffer; 0 for a fragment kept, a packet skipped after a gap, and a first fragment that alone
   outgrows the buffer.
   */
  lemma ReturnTells(s: State, p: Packet)
    requires Sane(s)
    ensures var r := Assemble(s, p); var inFrame := s.waiting && Number(p) == s.next;
      && (r.ret == 1 <==> r.emit.Frame?)
      && (r.ret == -1 <==>
            && !Skipped(s, p)
            && if inFrame then |s.partial| + |Payload(p)| >= BUFFER_LENGTH else !Whole(p) && !First(p))
      && (r.ret == 0 <==> r.ret != 1 && r.ret != -1)
      && (r.ret != 1 && !s.synced && !r.state.synced ==> r.state == s)
  {}

  /** A whole frame longer than the buffer, at a point where a frame may begin: it is copied unchecked. */
  predicate Overruns(s: State, p: Packet) {
    Whole(p) && |Payload(p)| > BUFFER_LENGTH && !(s.waiting && s.next == Number(p))
  }

  /** Everything else that is put out fits the buffer, so exactly these packets write past it. */
  lemma OverrunsExactly(s: State, p: Packet)
    requires Sane(s)
    ensures var e := Assemble(s, p).emit; e.Frame? && |e.data| > BUFFER_LENGTH <==> Overruns(s, p)
  {
    hide Latency;
    if s.waiting && s.next == Number(p) { assert Assemble(s, p) == Continue(s.(next := After(Number(p))), p); }
  }

  class Assembler {
    var isSynced: bool
    var serialNo: byte
    var waitingLast: bool
    const buffer: array<byte>
    var bufLen: nat
    var latencyUpdated: nat

    ghost predicate Valid()
      reads this, buffer
    {
      buffer.Length == BUFFER_LENGTH && bufLen <= BUFFER_LENGTH && Sane(Abs())
    }

    ghost function Abs(): State
      requires bufLen <= buffer.Length
      reads this, buffer
    {
      State(isSynced, serialNo, waitingLast, buffer[..bufLen])
    }

    constructor ()
      ensures Valid() && Abs() == UNSYNCED
    {
      buffer := new byte[BUFFER_LENGTH](_ => 0);
      isSynced, serialNo, waitingLast, bufLen, latencyUpdated := false, 255, false, 0, 0;
    }

    method Reset()
      requires Valid()
      modifies this
      ensures Valid() && Abs() == State(false, old(serialNo), false, []) && latencyUpdated == old(latencyUpdated)
    {
      isSynced, waitingLast, bufLen := false, false, 0;
    }

    /** Takes one packet. A whole frame is copied unchecked, so it must fit the buffer. */
    method Take(p: Packet) returns (ret: int, out: Emit)
      requires Valid() && !Overruns(Abs(), p)
      modifies this, buffer
      ensures Valid() && latencyUpdated == Latency(p)
      ensures Assemble(old(Abs()), p) == Result(Abs(), ret, out)
    {
      if latencyUpdated != Latency(p) {
        latencyUpdated := Latency(p);
      }
      if isSynced {
        if Number(p) != serialNo {
          Reset();
          if !Whole(p) && !First(p) {
            return 0, Nothing;
          }
        } else {
          serialNo := After(Number(p));
        }
      }
      if !waitingLast {
        ret, out := TakeFirst(p);
      } else {
        ret, out := TakeNext(p);
      }
    }

    method TakeFirst(p: Packet) returns (ret: int, out: Emit)
      requires Valid() && !waitingLast && (Whole(p) ==> |Payload(p)| <= BUFFER_LENGTH)
      modifies this, buffer
      ensures Valid() && latencyUpdated == old(latencyUpdated)
      ensures Begin(old(Abs()), p) == Result(Abs(), ret, out)
    {
      var data := Payload(p);
      ret, out := -1, Nothing;
      assert bufLen == |buffer[..bufLen]| == 0;
      if Whole(p) {
        CopyInto(buffer, 0, data);
        assert buffer[..|data|] == data;
        out, bufLen, ret := Frame(buffer[..|data|]), 0, 1;
      } else if First(p) {
        ret := 0;
        if bufLen + |data| >= BUFFER_LENGTH {
          bufLen := 0;
          return;
        }
        CopyInto(buffer, 0, data);
        assert buffer[..|data|] == data;
        bufLen, waitingLast := |data|, true;
      }
      if ret >= 0 && !isSynced {
        isSynced, serialNo := true, After(Number(p));
      }
    }

    method TakeNext(p: Packet) returns (ret: int, out: Emit)
      requires Valid() && waitingLast
      modifies this, buffer
      ensures Valid() && latencyUpdated == old(latencyUpdated)
      ensures Continue(old(Abs()), p) == Result(Abs(), ret, out)
    {
      var data := Payload(p);
      ret, out := -1, Nothing;
      if bufLen + |data| >= BUFFER_LENGTH {
        bufLen, waitingLast := 0, false;
        return;
      }
      ghost var was := buffer[..bufLen];
      CopyInto(buffer, bufLen, data);
      bufLen := bufLen + |data|;
      assert buffer[..bufLen] == was + data;
      ret := 0;
      if Last(p) {
        out, bufLen, ret, waitingLast := Frame(buffer[..bufLen]), 0, 1, false;
      }
    }
  }

  // ----- Every frame put out is justified by the packets received. -----

  ghost function Joined(ps: seq<Packet>): seq<byte> {
    if ps == [] then [] else Joined(ps[..|ps| - 1]) + Payload(ps[|ps| - 1])
  }

  /** Neighbouring packets have consecutive numbers, modulo 256. */
  ghost predicate Numbered(ps: seq<Packet>) {
    forall i, j :: 0 <= i < |ps| && 0 <= j < |ps| && j == i + 1 ==> Number(ps[j]) == After(Number(ps[i]))
  }

  /** Fragments of one frame so far: no gap in the numbers, an S fragment first, no L after it. */
  ghost predicate Fragments(ps: seq<Packet>) {
    && ps != [] && First(ps[0]) && !Whole(ps[0])
    && Numbered(ps)
    && (forall i :: 0 < i < |ps| ==> !Last(ps[i]))
  }

  /** The packets `ps` make up exactly the frame `data`. */
  ghost predicate MakesFrame(ps: seq<Packet>, data: seq<byte>) {
    || (|ps| == 1 && Whole(ps[0]) && data == Payload(ps[0]))
    || (|ps| >= 2 && Fragments(ps[..|ps| - 1]) && Last(ps[|ps| - 1])
        && Number(ps[|ps| - 1]) == After(Number(ps[|ps| - 2])) && data == Joined(ps))
  }

  ghost function Run(s: State, ps: seq<Packet>): (t: State)
    requires Sane(s)
    ensures Sane(t)
    decreases |ps|
  {
    if ps == [] then s else Run(Assemble(s, ps[0]).state, ps[1..])
  }

  ghost function Emitted(s: State, ps: seq<Packet>): seq<seq<byte>>
    requires Sane(s)
    decreases |ps|
  {
    if ps == [] then []
    else
      var r := Assemble(s, ps[0]);
      (if r.emit.Frame? then [r.emit.data] else []) + Emitted(r.state, ps[1..])
  }

  lemma {:induction false} RunAppend(s: State, a: seq<Packet>, b: seq<Packet>)
    requires Sane(s)
    ensures Run(s, a + b) == Run(Run(s, a), b)
    ensures Emitted(s, a + b) == Emitted(s, a) + Emitted(Run(s, a), b)
    decreases |a|
  {
    hide Assemble;
    if a == [] {
      assert a + b == b;
    } else {
      assert (a + b)[0] == a[0] && (a + b)[1..] == a[1..] + b;
      var r := Assemble(s, a[0]);
      RunAppend(r.state, a[1..], b);
      var first := if r.emit.Frame? then [r.emit.data] else [];
      assert Emitted(s, a + b) == first + Emitted(r.state, a[1..] + b);
      assert Emitted(s, a) == first + Emitted(r.state, a[1..]);
    }
  }

  /** A frame put out, and the stretch of received packets it came from. */
  datatype Output = Output(from: nat, to: nat, data: seq<byte>)

  ghost function Datas(os: seq<Output>): (r: seq<seq<byte>>)
    ensures |r| == |os|
  {
    seq(|os|, i requires 0 <= i < |os| => os[i].data)
  }

  /** The packets of `ps` from `from` on make up the frame being assembled, if there is one. */
  ghost predicate Assembling(s: State, ps: seq<Packet>, from: nat) {
    && from <= |ps|
    && (s.synced ==> ps != [] && s.next == After(Number(ps[|ps| - 1])))
    && (s.waiting <==> from < |ps|)
    && (s.waiting ==> Fragments(ps[from..]) && s.partial == Joined(ps[from..]))
  }

  /** Each output comes from its own stretch of packets, in order, and is what they make up. */
  ghost predicate Justified(os: seq<Output>, ps: seq<Packet>, limit: nat)
    requires limit <= |ps|
  {
    && (forall i :: 0 <= i < |os| ==> os[i].from < os[i].to <= limit)
    && (forall i :: 0 <= i < |os| ==> MakesFrame(ps[os[i].from..os[i].to], os[i].data))
    && (forall i, j :: 0 <= i < j < |os| ==> os[i].to <= os[j].from)
  }

  lemma JustifiedLonger(os: seq<Output>, ps: seq<Packet>, p: Packet, limit: nat)
    requires limit <= |ps| && Justified(os, ps, limit)
    ensures Justified(os, ps + [p], limit)
  {
    forall i | 0 <= i < |os| ensures MakesFrame((ps + [p])[os[i].from..os[i].to], os[i].data) {
      assert (ps + [p])[os[i].from..os[i].to] == ps[os[i].from..os[i].to];
    }
  }

  lemma OneMore(os: seq<Output>, ps: seq<Packet>, limit: nat, o: Output) returns (more: seq<Output>)
    requires limit <= o.from < o.to == |ps| && Justified(os, ps, limit) && MakesFrame(ps[o.from..o.to], o.data)
    ensures Justified(more, ps, |ps|) && Datas(more) == Datas(os) + [o.data]
  {
    more := os + [o];
  }

  lemma JoinedMore(qs: seq<Packet>, p: Packet)
    ensures Joined(qs + [p]) == Joined(qs) + Payload(p)
  {
    assert (qs + [p])[..|qs|] == qs;
  }

  /** One more fragment of the frame under way. */
  lemma FragmentJoins(qs: seq<Packet>, p: Packet)
    requires Fragments(qs) && Number(p) == After(Number(qs[|qs| - 1])) && !Last(p)
    ensures Fragments(qs + [p])
  {
    hide After, Number, First, Last, Whole;
  }

  /** The last fragment of the frame under way. */
  lemma FragmentCompletes(qs: seq<Packet>, p: Packet)
    requires Fragments(qs) && Number(p) == After(Number(qs[|qs| - 1])) && Last(p)
    ensures MakesFrame(qs + [p], Joined(qs + [p]))
  {
    assert (qs + [p])[..|qs|] == qs;
  }

  lemma JoinedOne(p: Packet)
    ensures Joined([p]) == Payload(p)
  {
    assert [p][..0] == [];
  }

  /** The packets `qs` are those of the frame under way, or of the frame just put out. */
  ghost predicate Accounts(r: Result, qs: seq<Packet>, p: Packet) {
    && (r.state.synced ==> r.state.next == After(Number(p)))
    && (r.state.waiting ==> Fragments(qs) && r.state.partial == Joined(qs))
    && (r.emit.Frame? ==> !r.state.waiting && MakesFrame(qs, r.emit.data))
  }

  lemma NextFragment(s: State, qs: seq<Packet>, p: Packet)
    requires Sane(s) && s.waiting && s.next == Number(p)
    requires Fragments(qs) && s.partial == Joined(qs) && s.next == After(Number(qs[|qs| - 1]))
    ensures Accounts(Assemble(s, p), qs + [p], p)
  {
    JoinedMore(qs, p);
    if Last(p) { FragmentCompletes(qs, p); } else { FragmentJoins(qs, p); }
    hide Fragments, MakesFrame, Joined;
  }

  lemma FreshPacket(s: State, p: Packet)
    requires Sane(s) && (s.waiting ==> s.next != Number(p))
    ensures Accounts(Assemble(s, p), [p], p)
  {
    JoinedOne(p);
    hide Joined;
  }

  /** What one packet does to the frame under way and to the output. */
  lemma PacketIsJustified(s: State, ps: seq<Packet>, from: nat, p: Packet) returns (start: nat, next: nat)
    requires Sane(s) && Assembling(s, ps, from)
    ensures var r := Assemble(s, p);
      && Assembling(r.state, ps + [p], next) && from <= start <= next
      && (r.emit.Frame? ==> start <= |ps| && next == |ps| + 1 && MakesFrame((ps + [p])[start..], r.emit.data))
  {
    var r, qs := Assemble(s, p), ps + [p];
    if s.waiting && Number(p) == s.next {
      NextFragment(s, ps[from..], p);
      assert qs[from..] == ps[from..] + [p];
      start := from;
    } else {
      FreshPacket(s, p);
      assert qs[|ps|..] == [p];
      start := |ps|;
    }
    next := if r.state.waiting then start else |qs|;
    hide Assemble, Fragments, MakesFrame, Joined;
  }

  /**
   Over any packets whatever: the frames put out come from disjoint stretches of the input, in order.
   Each is a whole frame or a run of fragments with consecutive numbers from an S fragment to the
   first L fragment after it. So fragments on both sides of a gap are never joined.
   */
  lemma {:induction false} FramesAreJustified(ps: seq<Packet>) returns (os: seq<Output>, from: nat)
    ensures from <= |ps| && Assembling(Run(UNSYNCED, ps), ps, from)
    ensures Justified(os, ps, from) && Datas(os) == Emitted(UNSYNCED, ps)
    decreases |ps|
  {
    if ps == [] {
      os, from := [], 0;
    } else {
      var n := |ps| - 1;
      var init, p := ps[..n], ps[n];
      assert ps == init + [p];
      var before;
      os, before := FramesAreJustified(init);
      var s := Run(UNSYNCED, init);
      RunAppend(UNSYNCED, init, [p]);
      var r := Assemble(s, p);
      assert Run(s, [p]) == r.state && Emitted(s, [p]) == if r.emit.Frame? then [r.emit.data] else [];
      var start;
      start, from := PacketIsJustified(s, init, before, p);
      hide Assemble, MakesFrame, Assembling, Run, Justified, Emitted;
      JustifiedLonger(os, init, p, before);
      if r.emit.Frame? {
        assert ps[start..] == ps[start..n + 1];
        os := OneMore(os, ps, before, Output(start, n + 1, r.emit.data));
      }
    }
  }

  // ----- Without loss the original frames come out. -----

  /** The packets of one frame as a sender makes them: whole, or fragments that fit the buffer. */
  ghost predicate Sent(g: seq<Packet>) {
    || (|g| == 1 && Whole(g[0]))
    || (|g| >= 2 && !Whole(g[0]) && First(g[0]) && Last(g[|g| - 1])
        && (forall i :: 0 < i < |g| - 1 ==> !Last(g[i]))
        && |Joined(g)| < BUFFER_LENGTH)
  }

  ghost function Flatten(gs: seq<seq<Packet>>): seq<Packet> {
    if gs == [] then [] else gs[0] + Flatten(gs[1..])
  }

  ghost function Originals(gs: seq<seq<Packet>>): (r: seq<seq<byte>>)
    ensures |r| == |gs|
  {
    seq(|gs|, i requires 0 <= i < |gs| => Joined(gs[i]))
  }

  /** Between frames: ready for a packet with number `n`. */
  ghost predicate Ready(s: State, ps: seq<Packet>) {
    Sane(s) && !s.waiting && (s.synced && ps != [] ==> s.next == Number(ps[0]))
  }

  lemma {:induction false} JoinedPrefix(ps: seq<Packet>, k: nat)
    requires k <= |ps|
    ensures |Joined(ps[..k])| <= |Joined(ps)|
    decreases |ps|
  {
    if k == |ps| {
      assert ps[..k] == ps;
    } else {
      assert ps[..|ps| - 1][..k] == ps[..k];
      JoinedPrefix(ps[..|ps| - 1], k);
    }
  }

  /** After `k` fragments, not all, they are what has been assembled and nothing was put out. */
  lemma {:induction false} FragmentsCollect(s: State, g: seq<Packet>, k: nat)
    requires Sent(g) && |g| >= 2 && 1 <= k < |g| && Numbered(g) && Ready(s, g)
    ensures Run(s, g[..k]) == State(true, After(Number(g[k - 1])), true, Joined(g[..k]))
    ensures Emitted(s, g[..k]) == []
    decreases k
  {
    JoinedPrefix(g, k);
    if k == 1 {
      JoinedOne(g[0]);
      assert g[..1] == [g[0]];
      var t := Assemble(s, g[0]).state;
      assert Run(s, [g[0]]) == t;
    } else {
      FragmentsCollect(s, g, k - 1);
      var t := Run(s, g[..k - 1]);
      assert g[..k] == g[..k - 1] + [g[k - 1]] && g[..k][..k - 1] == g[..k - 1];
      RunAppend(s, g[..k - 1], [g[k - 1]]);
      assert Run(t, [g[k - 1]]) == Assemble(t, g[k - 1]).state;
    }
  }

  lemma GroupComesOut(s: State, g: seq<Packet>)
    requires Sent(g) && Numbered(g) && Ready(s, g)
    ensures Emitted(s, g) == [Joined(g)]
    ensures Run(s, g).synced && !Run(s, g).waiting && Run(s, g).next == After(Number(g[|g| - 1]))
  {
    var n := |g| - 1;
    if n == 0 {
      JoinedOne(g[0]);
      assert g == [g[0]];
      assert Run(s, g) == Assemble(s, g[0]).state;
    } else {
      FragmentsCollect(s, g, n);
      assert g == g[..n] + [g[n]];
      RunAppend(s, g[..n], [g[n]]);
      var t := Run(s, g[..n]);
      assert Run(t, [g[n]]) == Assemble(t, g[n]).state;
    }
  }

  lemma NumberedParts(a: seq<Packet>, b: seq<Packet>)
    requires Numbered(a + b)
    ensures Numbered(a) && Numbered(b)
  {
    var all := a + b;
    forall i, j | 0 <= i < |a| && 0 <= j < |a| && j == i + 1 ensures Number(a[j]) == After(Number(a[i])) {
      assert a[i] == all[i] && a[j] == all[j];
    }
    forall i, j | 0 <= i < |b| && 0 <= j < |b| && j == i + 1 ensures Number(b[j]) == After(Number(b[i])) {
      assert b[i] == all[|a| + i] && b[j] == all[|a| + j];
    }
  }

  /** A lossless stream of frames that fit the buffer comes out as exactly the original frames. */
  lemma {:induction false} LosslessStream(s: State, gs: seq<seq<Packet>>)
    requires (forall g <- gs :: Sent(g)) && Numbered(Flatten(gs)) && Ready(s, Flatten(gs))
    ensures Emitted(s, Flatten(gs)) == Originals(gs)
    decreases |gs|
  {
    if gs != [] {
      var g, rest := gs[0], Flatten(gs[1..]);
      var all := Flatten(gs);
      assert all == g + rest && all[..|g|] == g && all[|g|..] == rest;
      NumberedParts(g, rest);
      GroupComesOut(s, g);
      RunAppend(s, g, rest);
      if rest != [] { assert rest[0] == all[|g|] && g[|g| - 1] == all[|g| - 1]; }
      LosslessStream(Run(s, g), gs[1..]);
      assert Originals(gs) == [Joined(g)] + Originals(gs[1..]);
    }
  }
}
