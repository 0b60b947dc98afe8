/**
 AAC packets in a byte stream. Each packet is stored behind a two-byte little-endian length; readers
 on either core must find the packet boundaries again.
 */
module AacFraming {
  import opened Ring
  import opened CQueues
  import opened InCaches
  import P = InCacheProtocol

  type Packet = seq<byte>

  const PACKET_LIMIT := 2048
  const LENGTH_LIMIT := 65536

  function Header(n: nat): (h: seq<byte>)
    requires n < LENGTH_LIMIT
    ensures |h| == 2 && HeaderValue(h) == n
  {
    [(n % 256) as byte, (n / 256) as byte]
  }

  function HeaderValue(h: seq<byte>): nat
    requires |h| >= 2
  {
    h[0] as nat + 256 * h[1] as nat
  }

  ghost predicate Framable(ps: seq<Packet>, limit: nat) {
    forall p <- ps :: |p| < limit
  }

  ghost function Stream(ps: seq<Packet>): seq<byte>
    requires Framable(ps, LENGTH_LIMIT)
  {
    if ps == [] then [] else Header(|ps[0]|) + ps[0] + Stream(ps[1..])
  }

  lemma StreamFirst(p: Packet, ps: seq<Packet>)
    requires Framable([p] + ps, LENGTH_LIMIT)
    ensures Framable(ps, LENGTH_LIMIT) && |p| < LENGTH_LIMIT
    ensures Stream([p] + ps) == Header(|p|) + p + Stream(ps)
  {
    var all := [p] + ps;
    assert all[0] == p && all[1..] == ps;
    assert p in all && forall q <- ps :: q in all;
  }

  lemma {:induction false} StreamAppend(ps: seq<Packet>, qs: seq<Packet>)
    requires Framable(ps, LENGTH_LIMIT) && Framable(qs, LENGTH_LIMIT)
    ensures Framable(ps + qs, LENGTH_LIMIT) && Stream(ps + qs) == Stream(ps) + Stream(qs)
    decreases |ps|
  {
    assert Framable(ps + qs, LENGTH_LIMIT);
    if ps == [] {
      assert ps + qs == qs;
    } else {
      var p, more := ps[0], ps[1..];
      assert ps == [p] + more && ps + qs == [p] + (more + qs);
      hide Header, Framable;
      StreamFirst(p, more);
      StreamFirst(p, more + qs);
      StreamAppend(more, qs);
      hide Stream;
      assert Header(|p|) + p + (Stream(more) + Stream(qs)) == Header(|p|) + p + Stream(more) + Stream(qs);
    }
  }

  lemma StreamOne(p: Packet)
    requires |p| < LENGTH_LIMIT
    ensures Stream([p]) == Header(|p|) + p
  {
    assert Stream([p][1..]) == [];
  }

  // ----- The single-core path: packets go through the receive queue only. -----

  /** The buffer size class the decoder is given for a packet of `n` bytes. */
  function MaxRead(n: nat): (r: nat)
    requires n < PACKET_LIMIT
    ensures n < r && r in {64, 128, 256, 512, 1024, 2048} && (r > 64 ==> r / 2 <= n)
  {
    if n < 64 then 64 else if n < 128 then 128 else if n < 256 then 256
    else if n < 512 then 512 else if n < 1024 then 1024 else 2048
  }

  datatype LoadStatus = Loaded | NoData | BadHeader

  class AacQueue {
    const queue: CQueue
    var mtuCount: int
    var delayMtuCount: nat
    var caching: bool
    var resetQueue: bool
    /** The packets queued; `overflowed` tells whether the caching phase ended by a rejected packet. */
    ghost var packets: seq<Packet>
    ghost var overflowed: bool

    ghost predicate Valid()
      reads this, queue, queue.base
    {
      && queue.Valid()
      && Framable(packets, LENGTH_LIMIT)
      && (!resetQueue ==> queue.Contents() == Stream(packets))
      && (!resetQueue ==> mtuCount == |packets| + if overflowed then 1 else 0)
      && (caching ==> !overflowed)
      && (caching && delayMtuCount == 0 ==> packets == [])
    }

    constructor (q: CQueue)
      requires q.Valid() && q.len == 0
      ensures Valid() && queue == q && packets == [] && caching && !overflowed && !resetQueue
    {
      queue := q;
      mtuCount, delayMtuCount, caching, resetQueue := 0, 0, true, false;
      packets, overflowed := [], false;
    }

    /** Queues length and packet when both fit together, otherwise nothing. */
    method PutFrame(buf: Packet) returns (ok: bool)
      requires queue.Valid() && |buf| < LENGTH_LIMIT
      modifies queue, queue.base
      ensures queue.Valid()
      ensures ok <==> |buf| + 2 <= queue.base.Length - old(queue.len)
      ensures queue.Contents() == old(queue.Contents()) + if ok then Stream([buf]) else []
    {
      StreamOne(buf);
      var available := queue.Available();
      if available >= |buf| + 2 {
        ok := queue.Enqueue(Header(|buf|));
        ok := queue.Enqueue(buf);
      } else {
        ok := false;
      }
    }

    /** A packet arriving while playback has not started yet. It is counted even when it did not fit. */
    method StoreCaching(buf: Packet, delayLimit: nat) returns (ok: bool)
      requires Valid() && caching && |buf| < LENGTH_LIMIT
      modifies this, queue, queue.base
      ensures Valid() && resetQueue == old(resetQueue)
      ensures ok <==> |buf| + 2 <= queue.base.Length - old(queue.len)
      ensures packets == old(packets) + if ok then [buf] else []
      ensures overflowed == !ok
      ensures caching <==> ok && delayMtuCount < delayLimit
      ensures delayMtuCount == old(delayMtuCount) + 1
    {
      ok := PutFrame(buf);
      if delayMtuCount == 0 {
        mtuCount := 0;
      }
      delayMtuCount := delayMtuCount + 1;
      mtuCount := mtuCount + 1;
      if delayMtuCount >= delayLimit {
        caching := false;
      }
      if !ok {
        caching, overflowed := false, true;
      } else {
        StreamAppend(packets, [buf]);
        packets := packets + [buf];
      }
    }

    /** One attempt to store a packet during playback; only a stored packet is counted. */
    method StorePlaying(buf: Packet) returns (ok: bool)
      requires Valid() && !caching && |buf| < LENGTH_LIMIT
      modifies this, queue, queue.base
      ensures Valid() && resetQueue == old(resetQueue) && !caching && overflowed == old(overflowed)
      ensures ok <==> |buf| + 2 <= queue.base.Length - old(queue.len)
      ensures packets == old(packets) + if ok then [buf] else []
    {
      delayMtuCount := 0;
      ok := PutFrame(buf);
      if ok {
        mtuCount := mtuCount + 1;
        StreamAppend(packets, [buf]);
        packets := packets + [buf];
      }
    }

    /** Takes `n` bytes off the queue, or none when there are fewer. */
    method ReadBytes(n: nat) returns (ok: bool, data: seq<byte>)
      requires queue.Valid()
      modifies queue
      ensures queue.Valid()
      ensures ok <==> n <= old(queue.len)
      ensures ok ==> data == old(queue.Contents())[..n] && queue.Contents() == old(queue.Contents())[n..]
      ensures !ok ==> queue.Contents() == old(queue.Contents())
    {
      var e1, e2;
      ok, e1, e2 := queue.Peek(n);
      data := e1 + e2;
      if ok {
        ok := queue.Dequeue(n);
      }
    }

    /**
     Takes one packet off the queue. The second read, of the payload the length announced, cannot fail.
     A packet of 2048 bytes or more is reported as a bad header and the queue is marked for a reset.
     */
    method Load() returns (status: LoadStatus, payload: Packet, maxRead: nat)
      requires Valid() && !resetQueue
      modifies this, queue
      ensures Valid() && caching == old(caching) && overflowed == old(overflowed)
      ensures status == if old(packets) == [] then NoData
                        else if |old(packets)[0]| >= PACKET_LIMIT then BadHeader else Loaded
      ensures resetQueue <==> status == BadHeader
      ensures status == Loaded ==>
        && payload == old(packets)[0] && packets == old(packets)[1..]
        && |payload| < maxRead <= PACKET_LIMIT
      ensures status == NoData ==> packets == []
    {
      payload, maxRead := [], 0;
      ghost var was := queue.Contents();
      var ok, header := ReadBytes(2);
      if !ok {
        return NoData, payload, maxRead;
      }
      ghost var p := packets[0];
      assert was == Header(|p|) + p + Stream(packets[1..]);
      assert header == Header(|p|);
      var aacLen := HeaderValue(header);
      if aacLen >= PACKET_LIMIT {
        resetQueue := true;
        return BadHeader, payload, maxRead;
      }
      maxRead := MaxRead(aacLen);
      assert queue.Contents() == p + Stream(packets[1..]);
      ok, payload := ReadBytes(aacLen);
      if !ok {
        assert false;
        return NoData, payload, maxRead;
      }
      assert queue.Contents() == Stream(packets[1..]);
      packets := packets[1..];
      mtuCount := mtuCount - 1;
      status := Loaded;
    }
  }

  // ----- The dual-core path: the co-processor parses what has reached the ring. -----

  datatype Parse = TooShort | Malformed | Incomplete | Complete(packet: Packet)

  /** What the loader decides from the ring contents it sees. */
  function ParseHead(avail: seq<byte>): Parse {
    if |avail| < 2 then TooShort
    else if HeaderValue(avail) >= PACKET_LIMIT then Malformed
    else if |avail| < 2 + HeaderValue(avail) then Incomplete
    else Complete(avail[2..2 + HeaderValue(avail)])
  }

  function Taken(p: Parse): nat {
    if p.Complete? then 2 + |p.packet| else 0
  }

  /** The co-processor's loader; the length may straddle the end of the ring, and so may the packet. */
  method CpLoad(c: InCache) returns (r: Parse)
    requires c.Valid()
    modifies c`rpos
    ensures c.Valid()
    ensures r == ParseHead(old(c.Contents()))
    ensures c.Contents() == old(c.Contents())[Taken(r)..]
  {
    hide ParseHead, HeaderValue, Gather;
    var w, rp, size := c.wpos, c.rpos, c.cache.Length;
    ghost var was := c.Contents();
    var len := InUse(w, rp, size);
    assert was[0..] == was;
    ParseShort(was);
    if len < 2 {
      return TooShort;
    }
    var aacLen: nat;
    if w > rp || size >= rp + 2 {
      aacLen := c.cache[rp] as nat + 256 * c.cache[rp + 1] as nat;
    } else {
      aacLen := c.cache[rp] as nat + 256 * c.cache[0] as nat;
    }
    PacketInRing(c.cache[..], rp, len, 0);
    ParseBy(was, aacLen);
    if aacLen >= PACKET_LIMIT {
      return Malformed;
    }
    if len < 2 + aacLen {
      return Incomplete;
    }
    PacketInRing(c.cache[..], rp, len, aacLen);
    var next := Advance(rp, 2, size);
    var data := c.GetData(aacLen, w, next);
    c.rpos := Advance(next, aacLen, size);
    r := Complete(data);
  }

  lemma ParseShort(avail: seq<byte>)
    ensures |avail| < 2 ==> ParseHead(avail) == TooShort
  {}

  /** What is decided once the two length bytes are known. */
  lemma ParseBy(avail: seq<byte>, n: nat)
    requires |avail| >= 2 && n == avail[0] as nat + 256 * avail[1] as nat
    ensures ParseHead(avail) ==
      if n >= PACKET_LIMIT then Malformed
      else if |avail| < 2 + n then Incomplete
      else Complete(avail[2..2 + n])
  {}

  /** Where the length bytes, the packet and what follows it lie in the ring. */
  lemma PacketInRing(mem: seq<byte>, rpos: nat, len: nat, n: nat)
    requires rpos < |mem| && 2 + n <= len < |mem|
    ensures var next := Advance(rpos, 2, |mem|); var all := Gather(mem, rpos, len);
      && all[0] == mem[rpos] && all[1] == mem[Advance(rpos, 1, |mem|)]
      && Gather(mem, next, n) == all[2..2 + n]
      && Gather(mem, Advance(next, n, |mem|), len - 2 - n) == all[2 + n..]
  {
    var next, all := Advance(rpos, 2, |mem|), Gather(mem, rpos, len);
    GatherDrop(mem, rpos, 2, len);
    GatherDrop(mem, next, n, len - 2);
    assert all[2..][..n] == all[2..2 + n] && all[2..][n..] == all[2 + n..];
  }

  /** From any part of the stream that has arrived, the loader takes the next packet or waits. */
  lemma HeadOfStream(ps: seq<Packet>, avail: seq<byte>)
    requires Framable(ps, PACKET_LIMIT) && avail <= Stream(ps)
    ensures var r := ParseHead(avail);
      && !r.Malformed?
      && (r.Complete? ==> ps != [] && r.packet == ps[0])
      && (r.Complete? <==> ps != [] && |avail| >= 2 + |ps[0]|)
  {
    if |avail| >= 2 {
      var p := ps[0];
      assert Stream(ps) == Header(|p|) + p + Stream(ps[1..]);
      assert avail[0] == Header(|p|)[0] && avail[1] == Header(|p|)[1];
      assert HeaderValue(avail) == HeaderValue(Header(|p|)) == |p|;
      if |avail| >= 2 + |p| {
        assert avail[2..2 + |p|] == Stream(ps)[2..2 + |p|] == p;
      }
    }
  }

  /** The ring bytes the co-processor's snapshot covers. */
  ghost function Seen(s: P.State): seq<byte>
    requires P.WellFormed(s) && s.cp.CpReading?
  {
    Gather(s.cache, s.cp.r, InUse(s.cp.w, s.cp.r, |s.cache|))
  }

  /** In this run the co-processor publishes exactly what its AAC loader takes. */
  ghost predicate RunsLoader(s: P.State, acts: seq<P.Action>)
    requires P.WellFormed(s)
    decreases |acts|
  {
    acts != [] ==>
      && (acts[0].CpPublish? && s.cp.CpReading? ==>
          acts[0].taken == Taken(ParseHead(Seen(s))) <= |s.cp.buf|)
      && RunsLoader(P.Step(s, acts[0]), acts[1..])
  }

  /** The packet the loader returns when it publishes in this state, if any. */
  ghost function TakenBy(s: P.State, a: P.Action): seq<Packet>
    requires P.WellFormed(s)
  {
    if a.CpPublish? && s.cp.CpReading? && ParseHead(Seen(s)).Complete? then [ParseHead(Seen(s)).packet] else []
  }

  /** The packets the loader returned along the run. */
  ghost function LoadedBy(s: P.State, acts: seq<P.Action>): seq<Packet>
    requires P.WellFormed(s)
    decreases |acts|
  {
    if acts == [] then [] else TakenBy(s, acts[0]) + LoadedBy(P.Step(s, acts[0]), acts[1..])
  }

  lemma {:induction false} EnqueuedGrows(s: P.State, acts: seq<P.Action>)
    requires P.WellFormed(s)
    ensures s.enqueued <= P.Run(s, acts).enqueued
    decreases |acts|
  {
    if acts != [] {
      EnqueuedGrows(P.Step(s, acts[0]), acts[1..]);
    }
  }

  /** The snapshot shows the next unconsumed bytes, and the buffer what of it has been read. */
  lemma SnapshotIsNext(s: P.State)
    requires P.Inv(s) && s.cp.CpReading?
    ensures s.consumed <= s.enqueued
    ensures s.cp.buf <= Seen(s) <= s.enqueued[|s.consumed|..]
  {
    GatherDrop(s.cache, s.rpos, |Seen(s)|, P.Used(s));
    assert s.enqueued[|s.consumed|..] == P.Contents(s) + s.queue[P.Handed(s)..];
  }

  /** One publish: the loader took the first packet of the remaining stream, or nothing. */
  lemma PublishTakesPacket(s: P.State, ps: seq<Packet>, taken: nat)
    requires P.Inv(s) && Framable(ps, PACKET_LIMIT) && s.cp.CpReading?
    requires s.consumed <= s.enqueued && s.enqueued[|s.consumed|..] <= Stream(ps)
    requires taken == Taken(ParseHead(Seen(s))) <= |s.cp.buf|
    ensures var got := TakenBy(s, P.CpPublish(taken));
      && got <= ps
      && P.Step(s, P.CpPublish(taken)).consumed == s.consumed + Stream(got)
  {
    hide P.McuInv, P.CpInv, P.Contents, ParseHead;
    SnapshotIsNext(s);
    HeadOfStream(ps, Seen(s));
    assert s.cp.buf[..taken] == Stream(ps)[..taken];
    if taken != 0 {
      StreamOne(ps[0]);
      assert Stream(ps)[..taken] == Stream([ps[0]]);
    }
  }

  /** What is left to come after the packets `got` have been consumed. */
  lemma CutStream(end: seq<byte>, consumed: seq<byte>, got: seq<Packet>, ps: seq<Packet>)
    requires Framable(ps, LENGTH_LIMIT) && got <= ps
    requires consumed + Stream(got) <= end && end[|consumed|..] <= Stream(ps)
    ensures end[|consumed + Stream(got)|..] <= Stream(ps[|got|..])
  {
    hide Stream;
    var later := ps[|got|..];
    assert got + later == ps;
    StreamAppend(got, later);
    CutPrefix(end, consumed, Stream(got), Stream(later));
  }

  lemma CutPrefix(end: seq<byte>, consumed: seq<byte>, taken: seq<byte>, later: seq<byte>)
    requires consumed + taken <= end && end[|consumed|..] <= taken + later
    ensures end[|consumed + taken|..] <= later
  {
    assert end[|consumed + taken|..] == end[|consumed|..][|taken|..];
  }

  lemma LoaderStep(s: P.State, a: P.Action, sent: seq<byte>, ps: seq<Packet>)
    requires P.Inv(s) && Framable(ps, PACKET_LIMIT)
    requires s.cp.CpReading? && a.CpPublish? && a.taken == Taken(ParseHead(Seen(s))) <= |s.cp.buf|
    requires s.enqueued <= sent && sent[|s.consumed|..] <= Stream(ps)
    ensures var got, t := TakenBy(s, a), P.Step(s, a);
      && got <= ps && t.consumed == s.consumed + Stream(got)
      && sent[|t.consumed|..] <= Stream(ps[|got|..])
  {
    assert s.consumed <= s.enqueued;
    assert s.enqueued[|s.consumed|..] <= sent[|s.consumed|..];
    PublishTakesPacket(s, ps, a.taken);
    var got, t := TakenBy(s, a), P.Step(s, a);
    P.StepKeepsInv(s, a);
    assert t.consumed <= t.enqueued == s.enqueued;
    CutStream(sent, s.consumed, got, ps);
  }

  lemma OtherStep(s: P.State, a: P.Action)
    requires P.Inv(s) && !(s.cp.CpReading? && a.CpPublish?)
    ensures TakenBy(s, a) == [] && P.Step(s, a).consumed == s.consumed
  {}

  lemma ConsumedIsPrefix(s: P.State)
    requires P.Inv(s)
    ensures P.WellFormed(s) && s.consumed <= s.enqueued
  {}

  /** The first step of a run: what it takes heads the packets still to come. */
  lemma FirstStep(s: P.State, acts: seq<P.Action>, sent: seq<byte>, ps: seq<Packet>)
    requires P.Inv(s) && acts != [] && RunsLoader(s, acts) && Framable(ps, PACKET_LIMIT)
    requires P.Run(s, acts).enqueued <= sent && |s.consumed| <= |sent| && sent[|s.consumed|..] <= Stream(ps)
    ensures var got, t := TakenBy(s, acts[0]), P.Step(s, acts[0]);
      && P.Inv(t) && P.Run(t, acts[1..]) == P.Run(s, acts)
      && got <= ps && t.consumed == s.consumed + Stream(got)
      && |t.consumed| <= |sent| && sent[|t.consumed|..] <= Stream(ps[|got|..])
  {
    ConsumedIsPrefix(s);
    assert Stream([]) == [];
    var a, t := acts[0], P.Step(s, acts[0]);
    P.StepKeepsInv(s, a);
    ConsumedIsPrefix(t);
    hide P.Inv, P.Step, P.WellFormed, TakenBy, Stream, Seen, ParseHead;
    EnqueuedGrows(s, acts);
    EnqueuedGrows(t, acts[1..]);
    if s.cp.CpReading? && a.CpPublish? {
      LoaderStep(s, a, sent, ps);
    } else {
      OtherStep(s, a);
    }
  }

  lemma JoinSteps(ps: seq<Packet>, got: seq<Packet>, more: seq<Packet>, c0: seq<byte>, c2: seq<byte>)
    requires Framable(ps, LENGTH_LIMIT) && got <= ps && more <= ps[|got|..]
    requires c2 == c0 + Stream(got) + Stream(more)
    ensures got + more <= ps && c2 == c0 + Stream(got + more)
  {
    StreamAppend(got, more);
    assert c0 + Stream(got) + Stream(more) == c0 + (Stream(got) + Stream(more));
  }

  /**
   Through any interleaving of receive thread, MCU and co-processor, and any splitting of the bytes by
   the ring, the loader returns the packets that were sent: whole, in order, none twice.
   */
  lemma {:induction false} LoaderReturnsPackets(s: P.State, acts: seq<P.Action>, sent: seq<byte>, ps: seq<Packet>)
    requires P.Inv(s) && RunsLoader(s, acts) && Framable(ps, PACKET_LIMIT)
    requires P.Run(s, acts).enqueued <= sent && |s.consumed| <= |sent| && sent[|s.consumed|..] <= Stream(ps)
    ensures LoadedBy(s, acts) <= ps
    ensures P.Run(s, acts).consumed == s.consumed + Stream(LoadedBy(s, acts))
    decreases |acts|
  {
    if acts != [] {
      var t, got := P.Step(s, acts[0]), TakenBy(s, acts[0]);
      FirstStep(s, acts, sent, ps);
      LoaderReturnsPackets(t, acts[1..], sent, ps[|got|..]);
      JoinSteps(ps, got, LoadedBy(t, acts[1..]), s.consumed, P.Run(s, acts).consumed);
    }
  }
}
