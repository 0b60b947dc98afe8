/**
 Classification of received mSBC packets: muted by the controller, repeated by a radio conflict,
 damaged, out of sequence, or good.
 */
module PacketLoss {
  import opened SbcCrc
  import opened MsbcFraming

  datatype Kind =
    | Pass | ControllerMute | HeaderError | CrcError | PadError | DataMissing
    | SequenceDiscontinue | BleConflict | DecoderError

  const KINDS := 9
  const COMPARED := PACKET_SIZE - 1

  function KindIndex(k: Kind): (i: nat)
    ensures i < KINDS
  {
    match k
    case Pass => 0 case ControllerMute => 1 case HeaderError => 2 case CrcError => 3 case PadError => 4
    case DataMissing => 5 case SequenceDiscontinue => 6 case BleConflict => 7 case DecoderError => 8
  }

  /** The histogram with one more packet of a kind, in 32-bit counters. */
  function Counted(hist: seq<nat>, k: Kind): seq<nat>
    requires |hist| == KINDS
  {
    hist[KindIndex(k) := (hist[KindIndex(k)] + 1) % 0x1_0000_0000]
  }

  /** The last number, the last two packets (`older` first), and the last two conflict flags. */
  datatype State = State(last: bv8, older: Packet, newer: Packet, conflict: bool, conflictBefore: bool)

  datatype Result = Result(state: State, kind: Kind)

  ghost predicate WellFormed(s: State) {
    |s.older| == PACKET_SIZE && |s.newer| == PACKET_SIZE
  }

  function Muted(pkt: Packet, pattern: bv8): bool
    requires |pkt| == PACKET_SIZE
  {
    forall i :: 0 <= i < COMPARED ==> pkt[i] == pattern
  }

  /** The packet repeats the one before the last, and the same was not already noticed. */
  function Repeats(s: State, pkt: Packet): bool
    requires WellFormed(s) && |pkt| == PACKET_SIZE
  {
    !s.conflictBefore && s.older[..COMPARED] == pkt[..COMPARED]
  }

  function NextNumber(n: bv8): bv8 {
    if n + 1 == 4 then 0 else n + 1
  }

  /** Classification of a packet that is neither muted nor a repetition. */
  function Checked(last: bv8, pkt: Packet): (bv8, Kind)
    requires |pkt| == PACKET_SIZE
  {
    var (err, sn) := Parse(pkt);
    if err == -4 then (NO_NUMBER, CrcError)
    else if err < 0 then (NO_NUMBER, HeaderError)
    else if last == NO_NUMBER then (sn, if sn == NO_NUMBER then SequenceDiscontinue else Pass)
    else if sn != NO_NUMBER && sn == NextNumber(last) then (sn, Pass)
    else (NO_NUMBER, SequenceDiscontinue)
  }

  function Process(s: State, pkt: Packet, pattern: bv8): (r: Result)
    requires WellFormed(s) && |pkt| == PACKET_SIZE
    ensures WellFormed(r.state)
  {
    var repeats := Repeats(s, pkt);
    var shifted := s.(older := s.newer, newer := pkt);
    if Muted(pkt, pattern) then Result(shifted.(last := NO_NUMBER), ControllerMute)
    else
      var noted := shifted.(conflict := repeats, conflictBefore := s.conflict);
      if repeats then Result(noted.(last := NO_NUMBER), BleConflict)
      else
        var (last, kind) := Checked(s.last, pkt);
        Result(noted.(last := last), kind)
  }

  function Zeros(): (p: Packet)
    ensures |p| == PACKET_SIZE
  {
    seq(PACKET_SIZE, _ => 0)
  }

  function Initial(): (s: State)
    ensures WellFormed(s)
  {
    State(NO_NUMBER, Zeros(), Zeros(), false, false)
  }

  lemma ParseCodes(pkt: Packet)
    requires |pkt| == PACKET_SIZE
    ensures -4 <= Parse(pkt).0 <= 0
  {
    hide Fold;
  }

  class Detector {
    var lastSeqNum: bv8
    const lastPkt: array<bv8>
    var conflict: bool
    var conflictBefore: bool
    const hist: array<nat>

    ghost predicate Valid()
      reads this
    {
      lastPkt.Length == 2 * PACKET_SIZE && hist.Length == KINDS
    }

    ghost function Abs(): (s: State)
      requires Valid()
      reads this, lastPkt
      ensures WellFormed(s)
    {
      State(lastSeqNum, lastPkt[..PACKET_SIZE], lastPkt[PACKET_SIZE..], conflict, conflictBefore)
    }

    constructor ()
      ensures Valid() && Abs() == Initial() && hist[..] == seq(KINDS, _ => 0)
      ensures fresh(lastPkt) && fresh(hist)
    {
      lastSeqNum, conflict, conflictBefore := NO_NUMBER, false, false;
      lastPkt := new bv8[2 * PACKET_SIZE](_ => 0);
      hist := new nat[KINDS](_ => 0);
      new;
      assert lastPkt[..PACKET_SIZE] == Zeros() && lastPkt[PACKET_SIZE..] == Zeros();
    }

    /** Compares with the packet before the last, then shifts the stored packets. */
    method UpdateConflict(pkt: Packet) returns (repeats: bool)
      requires Valid() && |pkt| == PACKET_SIZE
      modifies lastPkt
      ensures repeats == Repeats(old(Abs()), pkt)
      ensures Abs() == old(Abs()).(older := old(Abs()).newer, newer := pkt)
    {
      var same := true;
      for i := 0 to COMPARED
        invariant same <==> lastPkt[..i] == pkt[..i]
      {
        if lastPkt[i] != pkt[i] {
          same := false;
        }
      }
      assert lastPkt[..PACKET_SIZE][..COMPARED] == lastPkt[..COMPARED];
      repeats := !conflictBefore && same;
      ghost var newer := lastPkt[PACKET_SIZE..];
      forall i | 0 <= i < PACKET_SIZE {
        lastPkt[i] := lastPkt[PACKET_SIZE + i];
      }
      assert lastPkt[..PACKET_SIZE] == newer;
      forall i | 0 <= i < PACKET_SIZE {
        lastPkt[PACKET_SIZE + i] := pkt[i];
      }
      assert lastPkt[..PACKET_SIZE] == newer && lastPkt[PACKET_SIZE..] == pkt;
    }

    method CheckMute(pkt: Packet, pattern: bv8) returns (muted: bool)
      requires |pkt| == PACKET_SIZE
      ensures muted == Muted(pkt, pattern)
    {
      for i := 0 to COMPARED
        invariant forall k :: 0 <= k < i ==> pkt[k] == pattern
      {
        if pkt[i] != pattern {
          return false;
        }
      }
      muted := true;
    }

    /** Classifies one packet and counts its kind. The counters are 32 bits wide. */
    method Take(pkt: Packet, pattern: bv8) returns (kind: Kind)
      requires Valid() && |pkt| == PACKET_SIZE
      modifies this, lastPkt, hist
      ensures Valid() && Result(Abs(), kind) == Process(old(Abs()), pkt, pattern)
      ensures hist[..] == Counted(old(hist[..]), kind)
    {
      hide Checked, Repeats, Muted;
      var repeats := UpdateConflict(pkt);
      var muted := CheckMute(pkt, pattern);
      if muted {
        kind, lastSeqNum := ControllerMute, NO_NUMBER;
      } else {
        conflictBefore, conflict := conflict, repeats;
        if repeats {
          kind, lastSeqNum := BleConflict, NO_NUMBER;
        } else {
          kind := CheckPacket(pkt);
        }
      }
      hist[KindIndex(kind)] := (hist[KindIndex(kind)] + 1) % 0x1_0000_0000;
    }

    method CheckPacket(pkt: Packet) returns (kind: Kind)
      requires Valid() && |pkt| == PACKET_SIZE
      modifies this`lastSeqNum
      ensures (lastSeqNum, kind) == Checked(old(lastSeqNum), pkt)
    {
      var err, seqNum := ParseHeader(pkt);
      ParseCodes(pkt);
      hide Parse;
      if err < 0 && err >= -3 {
        kind, lastSeqNum := HeaderError, NO_NUMBER;
      } else if err == -4 {
        kind, lastSeqNum := CrcError, NO_NUMBER;
      } else if lastSeqNum == NO_NUMBER {
        kind := if seqNum == NO_NUMBER then SequenceDiscontinue else Pass;
        lastSeqNum := seqNum;
      } else if seqNum == NO_NUMBER {
        kind, lastSeqNum := SequenceDiscontinue, NO_NUMBER;
      } else if seqNum == NextNumber(lastSeqNum) {
        kind, lastSeqNum := Pass, seqNum;
      } else {
        kind, lastSeqNum := SequenceDiscontinue, NO_NUMBER;
      }
    }
  }

  // ----- What the classification detects. -----

  /** The controller fills a muted packet with 0x55 or with zeros, depending on the chip. */
  ghost predicate MutePattern(pattern: bv8) {
    pattern == 0x55 || pattern == 0x00
  }

  ghost function Run(s: State, pkts: seq<Packet>, pattern: bv8): (t: State)
    requires WellFormed(s) && forall p <- pkts :: |p| == PACKET_SIZE
    ensures WellFormed(t)
    decreases |pkts|
  {
    if pkts == [] then s else Process(Run(s, pkts[..|pkts| - 1], pattern), pkts[|pkts| - 1], pattern).state
  }

  ghost function Kinds(s: State, pkts: seq<Packet>, pattern: bv8): (ks: seq<Kind>)
    requires WellFormed(s) && forall p <- pkts :: |p| == PACKET_SIZE
    ensures |ks| == |pkts|
    decreases |pkts|
  {
    if pkts == [] then []
    else
      var init := pkts[..|pkts| - 1];
      Kinds(s, init, pattern) + [Process(Run(s, init, pattern), pkts[|pkts| - 1], pattern).kind]
  }

  /** The state right after the packet numbered `m` passed. */
  ghost predicate JustPassed(s: State, m: nat) {
    WellFormed(s) && s.last == Code(m)
  }

  lemma GoodIsNotMuted(pkt: Packet, n: nat, pattern: bv8)
    requires Good(pkt, n) && MutePattern(pattern)
    ensures !Muted(pkt, pattern)
  {
    hide Fold, Parse;
    assert pkt[0] != pattern;
  }

  lemma CodesDiffer(m: nat, n: nat)
    ensures Code(m) == Code(n) <==> m % 4 == n % 4
    ensures NumberByte(m) == NumberByte(n) <==> m % 4 == n % 4
    ensures NextNumber(Code(m)) == Code(m + 1) && Code(m) != NO_NUMBER
  {}

  lemma LossModFour(m: nat, k: nat)
    ensures m % 4 == (m + k) % 4 <==> k % 4 == 0
  {}

  /** The kind of a good packet numbered `n` when `repeats` tells whether it repeats an earlier one. */
  ghost function GoodKind(last: bv8, n: nat, repeats: bool): Kind {
    if repeats then BleConflict
    else if last == NO_NUMBER || NextNumber(last) == Code(n) then Pass
    else SequenceDiscontinue
  }

  /** A good packet is never muted: only its number and the repetition check decide. */
  lemma GoodIsChecked(s: State, pkt: Packet, n: nat, pattern: bv8)
    requires WellFormed(s) && Good(pkt, n) && MutePattern(pattern)
    ensures var r := Process(s, pkt, pattern);
      && r.kind == GoodKind(s.last, n, Repeats(s, pkt))
      && r.state == State(if r.kind.Pass? then Code(n) else NO_NUMBER, s.newer, pkt, Repeats(s, pkt), s.conflict)
  {
    hide Fold, Parse;
    assert |pkt| == PACKET_SIZE;
    hide Muted, Good, Repeats, Code;
    GoodIsNotMuted(pkt, n, pattern);
    AcceptsExactlyGood(pkt, n);
    CodesDiffer(n, n);
  }

  /**
   After a packet that passed, let k packets be lost and a good one arrive. It passes exactly when k is
   a multiple of four and it does not repeat the packet received before the one that passed.
   */
  lemma AfterLoss(s: State, m: nat, k: nat, pkt: Packet, pattern: bv8)
    requires JustPassed(s, m) && Good(pkt, m + k + 1) && MutePattern(pattern)
    ensures Process(s, pkt, pattern).kind.Pass? <==> k % 4 == 0 && !Repeats(s, pkt)
  {
    hide Fold, Parse;
    assert |pkt| == PACKET_SIZE;
    LossModFour(m + 1, k);
    hide Process, Good, Repeats, Code, NextNumber;
    GoodIsChecked(s, pkt, m + k + 1, pattern);
    CodesDiffer(m + 1, m + k + 1);
    CodesDiffer(m, m);
  }

  lemma DifferentNumbersDoNotRepeat(s: State, pkt: Packet, m: nat, n: nat)
    requires WellFormed(s) && Good(pkt, n) && m % 4 != n % 4 && |s.older| > 1 && s.older[1] == NumberByte(m)
    ensures !Repeats(s, pkt)
  {
    hide Fold, Parse;
    assert pkt[1] == NumberByte(n) && |pkt| == PACKET_SIZE;
    hide Good, NumberByte;
    CodesDiffer(m, n);
    assert s.older[..COMPARED][1] != pkt[..COMPARED][1];
  }

  /** When two packets in a row arrived before the loss, the repetition check never interferes. */
  lemma AfterLossInSequence(s: State, m: nat, k: nat, pkt: Packet, pattern: bv8)
    requires JustPassed(s, m + 1) && Good(s.older, m) && Good(pkt, m + k + 2) && MutePattern(pattern)
    ensures Process(s, pkt, pattern).kind.Pass? <==> k % 4 == 0
  {
    hide Fold, Parse;
    assert |pkt| == PACKET_SIZE && |s.older| > 1 && s.older[1] == NumberByte(m);
    hide Process, Good, Repeats, NumberByte;
    AfterLoss(s, m + 1, k, pkt, pattern);
    if k % 4 == 0 {
      DifferentNumbersDoNotRepeat(s, pkt, m, m + k + 2);
    }
  }

  // ----- The histogram. -----

  /** The histogram after packets of these kinds. */
  ghost function Tallied(hist: seq<nat>, ks: seq<Kind>): (h: seq<nat>)
    requires |hist| == KINDS
    ensures |h| == KINDS
  {
    if ks == [] then hist else Counted(Tallied(hist, ks[..|ks| - 1]), ks[|ks| - 1])
  }

  lemma OwnCounter(j: Kind, k: Kind)
    ensures KindIndex(j) == KindIndex(k) <==> j == k
  {}

  lemma CountedTells(hist: seq<nat>, j: Kind, k: Kind)
    requires |hist| == KINDS
    ensures Counted(hist, j)[KindIndex(k)] ==
      if j == k then (hist[KindIndex(k)] + 1) % 0x1_0000_0000 else hist[KindIndex(k)]
  {
    OwnCounter(j, k);
  }

  lemma WrapOne(a: nat, b: nat, n: nat)
    requires n == (a + b) % 0x1_0000_0000
    ensures (n + 1) % 0x1_0000_0000 == (a + b + 1) % 0x1_0000_0000
  {}

  /** Every kind has its own counter, which holds the number of packets of that kind modulo 2^32. */
  lemma {:induction false} HistogramCounts(hist: seq<nat>, ks: seq<Kind>, k: Kind)
    requires |hist| == KINDS && hist[KindIndex(k)] < 0x1_0000_0000
    ensures Tallied(hist, ks)[KindIndex(k)] == (hist[KindIndex(k)] + multiset(ks)[k]) % 0x1_0000_0000
    decreases |ks|
  {
    hide Counted, KindIndex;
    if ks != [] {
      var n := |ks| - 1;
      assert ks == ks[..n] + [ks[n]];
      HistogramCounts(hist, ks[..n], k);
      CountedTells(Tallied(hist, ks[..n]), ks[n], k);
      if ks[n] == k { WrapOne(hist[KindIndex(k)], multiset(ks[..n])[k], Tallied(hist, ks[..n])[KindIndex(k)]); }
    }
  }

  // ----- Damaged packets, told from their bytes. -----

  /** The header is one of the sender's four, followed by the sync word of the frame. */
  ghost predicate HeaderRight(pkt: Packet)
    requires |pkt| == PACKET_SIZE
  {
    pkt[0] == 0x01 && pkt[2] == 0xAD && exists n: nat :: n < 4 && pkt[1] == NumberByte(n)
  }

  /** The reserved bytes are zero and the CRC is that of the header and the scale factors. */
  ghost predicate CrcRight(pkt: Packet)
    requires |pkt| == PACKET_SIZE
  {
    pkt[3] == 0 && pkt[4] == 0 && pkt[5] == Fold(CRC_START, Covered(pkt))
  }

  /** The bytes of a packet decide what the header check makes of it. */
  lemma ParseTells(pkt: Packet)
    requires |pkt| == PACKET_SIZE
    ensures -3 <= Parse(pkt).0 < 0 <==> !HeaderRight(pkt)
    ensures Parse(pkt).0 == -4 <==> HeaderRight(pkt) && !CrcRight(pkt)
    ensures Parse(pkt).0 == 0 <==> HeaderRight(pkt) && CrcRight(pkt)
    ensures HeaderRight(pkt) && CrcRight(pkt) <==> exists n: nat :: n < 4 && Good(pkt, n)
  {
    hide Fold, Covered;
    var b := pkt[1];
    assert b & 0x0F == 0x08 && ((b & 0x30) >> 4 == 0 || (b & 0x30) >> 4 == 3)
           && ((b & 0xC0) >> 6 == 0 || (b & 0xC0) >> 6 == 3)
      <==> b == 0x08 || b == 0x38 || b == 0xC8 || b == 0xF8;
    assert NumberByte(0) == 0x08 && NumberByte(1) == 0x38 && NumberByte(2) == 0xC8 && NumberByte(3) == 0xF8;
    if HeaderRight(pkt) && CrcRight(pkt) {
      var n: nat :| n < 4 && b == NumberByte(n);
      assert Good(pkt, n);
    }
  }

  /**
   Every packet in every state: muted, a repetition, or else a wrong header, a wrong CRC, or undamaged,
   each exactly when its bytes are. So only an undamaged packet passes.
   */
  lemma KindTells(s: State, pkt: Packet, pattern: bv8)
    requires WellFormed(s) && |pkt| == PACKET_SIZE
    ensures var r := Process(s, pkt, pattern); var checked := !Muted(pkt, pattern) && !Repeats(s, pkt);
      && (r.kind == ControllerMute <==> forall i :: 0 <= i < PACKET_SIZE - 1 ==> pkt[i] == pattern)
      && (r.kind == BleConflict <==> !Muted(pkt, pattern) && Repeats(s, pkt))
      && (r.kind == HeaderError <==> checked && !HeaderRight(pkt))
      && (r.kind == CrcError <==> checked && HeaderRight(pkt) && !CrcRight(pkt))
      && (r.kind == Pass || r.kind == SequenceDiscontinue <==> checked && exists n: nat :: n < 4 && Good(pkt, n))
  {
    hide Parse, Repeats, HeaderRight, CrcRight, Good;
    ParseTells(pkt);
    if n: nat :| n < 4 && Good(pkt, n) { AcceptsExactlyGood(pkt, n); }
  }

  /** A packet that does not pass is forgotten: the good packet after it passes whatever its number. */
  lemma AfterDamage(s: State, bad: Packet, pkt: Packet, n: nat, pattern: bv8)
    requires WellFormed(s) && |bad| == PACKET_SIZE && Good(pkt, n) && MutePattern(pattern)
    requires Process(s, bad, pattern).kind != Pass
    ensures var t := Process(s, bad, pattern).state;
      && t.last == NO_NUMBER && t.newer == bad
      && Process(t, pkt, pattern).kind == if Repeats(t, pkt) then BleConflict else Pass
  {
    hide Parse, Muted, Good, Repeats;
    GoodIsChecked(Process(s, bad, pattern).state, pkt, n, pattern);
  }

  // ----- A whole stream of good packets, whatever their numbers. -----

  /** Undamaged packets as they arrive, with the numbers the sender gave them. */
  ghost predicate AllGood(pkts: seq<Packet>, ns: seq<nat>) {
    |ns| == |pkts| && forall i :: 0 <= i < |pkts| ==> Good(pkts[i], ns[i])
  }

  lemma GoodSizes(pkts: seq<Packet>, ns: seq<nat>)
    requires AllGood(pkts, ns)
    ensures forall p <- pkts :: |p| == PACKET_SIZE
  {
    hide Fold;
  }

  /** Packet i has the bytes of the second one before it, and that one did not count as a repetition. */
  ghost predicate Repetition(pkts: seq<Packet>, i: nat)
    requires i < |pkts| && forall p <- pkts :: |p| == PACKET_SIZE
  {
    i >= 2 && pkts[i][..COMPARED] == pkts[i - 2][..COMPARED] && !Repetition(pkts, i - 2)
  }

  /** The numbers leave room for a number of lost packets that is no multiple of four. */
  ghost predicate Skip(m: nat, n: nat) {
    n % 4 != (m + 1) % 4
  }

  /** The kind of packet i, told from the packets and their numbers alone. */
  ghost function Expected(pkts: seq<Packet>, ns: seq<nat>, i: nat): Kind
    requires i < |pkts| == |ns| && forall p <- pkts :: |p| == PACKET_SIZE
  {
    if Repetition(pkts, i) then BleConflict
    else if i > 0 && Expected(pkts, ns, i - 1) == Pass && Skip(ns[i - 1], ns[i]) then SequenceDiscontinue
    else Pass
  }

  /** What the detector remembers after the first `i` packets. */
  ghost function Memory(pkts: seq<Packet>, ns: seq<nat>, i: nat): (s: State)
    requires i <= |pkts| == |ns| && forall p <- pkts :: |p| == PACKET_SIZE
    ensures WellFormed(s)
  {
    State(
      if i >= 1 && Expected(pkts, ns, i - 1) == Pass then Code(ns[i - 1]) else NO_NUMBER,
      if i >= 2 then pkts[i - 2] else Zeros(),
      if i >= 1 then pkts[i - 1] else Zeros(),
      i >= 1 && Repetition(pkts, i - 1),
      i >= 2 && Repetition(pkts, i - 2))
  }

  /** A good packet never repeats the zeros the detector starts from. */
  lemma MemoryRepeats(pkts: seq<Packet>, ns: seq<nat>, i: nat)
    requires i < |pkts| && AllGood(pkts, ns)
    requires forall p <- pkts :: |p| == PACKET_SIZE
    ensures Repeats(Memory(pkts, ns, i), pkts[i]) == Repetition(pkts, i)
  {
    hide Fold, Parse, Expected, Code;
    if i < 2 {
      assert Good(pkts[i], ns[i]);
      assert pkts[i][..COMPARED][0] == 0x01 && Zeros()[..COMPARED][0] == 0x00;
    }
  }

  /** One more packet of the stream. */
  lemma NextOfStream(pkts: seq<Packet>, ns: seq<nat>, i: nat, pattern: bv8)
    requires i < |pkts| && AllGood(pkts, ns) && MutePattern(pattern)
    requires forall p <- pkts :: |p| == PACKET_SIZE
    ensures Process(Memory(pkts, ns, i), pkts[i], pattern)
      == Result(Memory(pkts, ns, i + 1), Expected(pkts, ns, i))
  {
    hide Process, Good, Code, NextNumber, NumberByte, Repeats, Repetition, Fold;
    GoodIsChecked(Memory(pkts, ns, i), pkts[i], ns[i], pattern);
    MemoryRepeats(pkts, ns, i);
    if i > 0 {
      CodesDiffer(ns[i - 1], ns[i]);
      CodesDiffer(ns[i - 1] + 1, ns[i]);
    }
  }

  lemma {:induction false} StreamMemory(pkts: seq<Packet>, ns: seq<nat>, i: nat, pattern: bv8)
    requires i <= |pkts| && AllGood(pkts, ns) && MutePattern(pattern)
    requires forall p <- pkts :: |p| == PACKET_SIZE
    ensures Run(Initial(), pkts[..i], pattern) == Memory(pkts, ns, i)
  {
    hide Process, AllGood, Fold, Repetition, Expected;
    if i > 0 {
      StreamMemory(pkts, ns, i - 1, pattern);
      NextOfStream(pkts, ns, i - 1, pattern);
      hide Memory;
      assert pkts[..i][..i - 1] == pkts[..i - 1];
    }
  }

  lemma {:induction false} KindAt(s: State, pkts: seq<Packet>, i: nat, pattern: bv8)
    requires WellFormed(s) && i < |pkts| && forall p <- pkts :: |p| == PACKET_SIZE
    ensures Kinds(s, pkts, pattern)[i] == Process(Run(s, pkts[..i], pattern), pkts[i], pattern).kind
    decreases |pkts|
  {
    hide Process, Run;
    var n := |pkts| - 1;
    if i < n {
      KindAt(s, pkts[..n], i, pattern);
      assert pkts[..n][..i] == pkts[..i];
    }
  }

  /**
   The kind of every packet of a stream of undamaged packets, with any losses whatever between them:
   a repetition is a conflict, and any other packet fails exactly when its predecessor passed and the
   numbers of packets lost in between is no multiple of four.
   */
  lemma StreamKinds(pkts: seq<Packet>, ns: seq<nat>, pattern: bv8)
    requires AllGood(pkts, ns) && MutePattern(pattern)
    ensures forall p <- pkts :: |p| == PACKET_SIZE
    ensures forall i :: 0 <= i < |pkts| ==> Kinds(Initial(), pkts, pattern)[i] == Expected(pkts, ns, i)
  {
    GoodSizes(pkts, ns);
    hide Process, AllGood, Fold, Repetition, Expected, Run, Memory, Kinds;
    forall i | 0 <= i < |pkts| ensures Kinds(Initial(), pkts, pattern)[i] == Expected(pkts, ns, i) {
      KindAt(Initial(), pkts, i, pattern);
      StreamMemory(pkts, ns, i, pattern);
      NextOfStream(pkts, ns, i, pattern);
    }
  }

  /** Packets with different numbers are no repetition of one another. */
  lemma NoRepetition(pkts: seq<Packet>, ns: seq<nat>, i: nat)
    requires i < |pkts| && AllGood(pkts, ns) && (i >= 2 ==> ns[i - 2] % 4 != ns[i] % 4)
    requires forall p <- pkts :: |p| == PACKET_SIZE
    ensures !Repetition(pkts, i)
  {
    hide Fold, Parse;
    if i >= 2 {
      var x, y := pkts[i - 2], pkts[i];
      assert Good(x, ns[i - 2]) && Good(y, ns[i]);
      assert x[1] == NumberByte(ns[i - 2]) && y[1] == NumberByte(ns[i]);
      hide Good, NumberByte, AllGood;
      CodesDiffer(ns[i - 2], ns[i]);
      assert x[..COMPARED][1] != y[..COMPARED][1];
    }
  }

  /** The packets are numbered from `first` on with none missing. */
  ghost predicate Consecutive(ns: seq<nat>, first: nat) {
    forall i :: 0 <= i < |ns| ==> ns[i] == first + i
  }

  lemma NeighboursFit(m: nat)
    ensures m % 4 != (m + 2) % 4 && !Skip(m, m + 1)
  {}

  lemma {:induction false} ConsecutivePasses(pkts: seq<Packet>, ns: seq<nat>, first: nat, i: nat)
    requires i < |pkts| && AllGood(pkts, ns) && Consecutive(ns, first)
    requires forall p <- pkts :: |p| == PACKET_SIZE
    ensures Expected(pkts, ns, i) == Pass
  {
    hide Good, Skip, Repetition;
    assert i >= 1 ==> ns[i - 1] == first + i - 1;
    assert i >= 2 ==> ns[i - 2] == first + i - 2;
    assert ns[i] == first + i;
    hide Consecutive;
    if i >= 2 { NeighboursFit(ns[i - 2]); }
    NoRepetition(pkts, ns, i);
    if i > 0 {
      NeighboursFit(ns[i - 1]);
      ConsecutivePasses(pkts, ns, first, i - 1);
    }
  }

  /** A stream received completely passes from its first packet on. */
  lemma LosslessPasses(pkts: seq<Packet>, ns: seq<nat>, first: nat, pattern: bv8)
    requires AllGood(pkts, ns) && Consecutive(ns, first) && MutePattern(pattern)
    ensures forall p <- pkts :: |p| == PACKET_SIZE
    ensures forall i :: 0 <= i < |pkts| ==> Kinds(Initial(), pkts, pattern)[i] == Pass
  {
    hide Good, Consecutive, Kinds, Expected;
    StreamKinds(pkts, ns, pattern);
    forall i | 0 <= i < |pkts| ensures Expected(pkts, ns, i) == Pass {
      ConsecutivePasses(pkts, ns, first, i);
    }
  }

  /** Between packet i and its predecessor packets got lost, not a multiple of four. */
  ghost predicate AfterGap(pkts: seq<Packet>, ns: seq<nat>, i: nat)
    requires i < |pkts| == |ns| && forall p <- pkts :: |p| == PACKET_SIZE
  {
    i > 0 && Skip(ns[i - 1], ns[i]) && !Repetition(pkts, i)
  }

  /**
   When packets get lost before every one of a row of received packets, only every other loss is
   noticed: the packet after a rejected one passes whatever its number is.
   */
  lemma {:induction false} EveryOtherLossIsNoticed(pkts: seq<Packet>, ns: seq<nat>, start: nat, k: nat)
    requires start + k < |pkts| && AllGood(pkts, ns)
    requires forall p <- pkts :: |p| == PACKET_SIZE
    requires Expected(pkts, ns, start) == Pass
    requires forall i :: start < i <= start + k ==> AfterGap(pkts, ns, i)
    ensures Expected(pkts, ns, start + k) == if k % 2 == 0 then Pass else SequenceDiscontinue
  {
    hide Repetition, Good, Skip;
    if k > 0 {
      EveryOtherLossIsNoticed(pkts, ns, start, k - 1);
      assert AfterGap(pkts, ns, start + k);
    }
  }

  /**
   The repetition check can reject the very next packet of a stream: numbers 3, 5, 8, 9 arrive, the
   last with the same bytes as the second. The third passes and no packet is missing between it and
   the fourth, yet the fourth is classified as a conflict.
   */
  lemma RepeatedContentIsRejected(x: Packet, a: Packet, b: Packet, pattern: bv8)
    requires Good(x, 3) && Good(a, 5) && Good(b, 8) && MutePattern(pattern)
    ensures AllGood([x, a, b, a], [3, 5, 8, 9]) && |x| == |a| == |b| == PACKET_SIZE
    ensures Kinds(Initial(), [x, a, b, a], pattern) == [Pass, SequenceDiscontinue, Pass, BleConflict]
  {
    hide Fold, Parse, Kinds;
    CodesDiffer(5, 9);
    var pkts, ns := [x, a, b, a], [3, 5, 8, 9];
    assert NumberByte(5) == NumberByte(9);
    assert Good(a, 9);
    StreamKinds(pkts, ns, pattern);
    NoRepetition(pkts, ns, 2);
    assert !Repetition(pkts, 1) && Repetition(pkts, 3);
    assert Expected(pkts, ns, 0) == Pass;
    assert Expected(pkts, ns, 1) == SequenceDiscontinue;
    assert Expected(pkts, ns, 2) == Pass;
    assert Expected(pkts, ns, 3) == BleConflict;
  }
}
