/**
 The LHDC loader of the co-processor (a2dpplay.cpp). The MCU puts a tag and a length in front of every
 frame; the loader looks for the tag byte by byte in what has reached the ring, and moves the read
 position only when a whole frame is there.
 */
module LhdcLoader {
  import opened Ring
  import opened InCaches

  const HEADER := 8
  const WORD := 0x1_0000_0000

  type Frame = f: seq<byte> | |f| < WORD - HEADER

  /** The tag spells lhdc. */
  function Tag(): (t: seq<byte>)
    ensures |t| == |"lhdc"| && forall i :: 0 <= i < |t| ==> t[i] as int == "lhdc"[i] as int
  {
    [0x6C, 0x68, 0x64, 0x63]
  }

  /** A 32-bit length, lowest byte first. */
  function LengthBytes(n: nat): (s: seq<byte>)
    requires n < WORD
    ensures |s| == 4
  {
    var a := n / 0x100;
    var b := a / 0x100;
    var c := b / 0x100;
    [(n % 0x100) as byte, (a % 0x100) as byte, (b % 0x100) as byte, c as byte]
  }

  function LengthValue(s: seq<byte>): (n: nat)
    requires |s| >= 4
    ensures n < WORD
  {
    s[0] as nat + 0x100 * s[1] as nat + 0x10000 * s[2] as nat + 0x1000000 * s[3] as nat
  }

  lemma LengthRoundTrip(n: nat, rest: seq<byte>)
    requires n < WORD
    ensures LengthValue(LengthBytes(n) + rest) == n
  {
    var a := n / 0x100;
    var b := a / 0x100;
    assert n == 0x100 * a + n % 0x100 && a == 0x100 * b + a % 0x100;
  }

  /** A frame as it is put in the queue. */
  function Tagged(f: Frame): (s: seq<byte>)
    ensures |s| == HEADER + |f|
  {
    Tag() + LengthBytes(|f|) + f
  }

  function Stream(fs: seq<Frame>): seq<byte> {
    if fs == [] then [] else Tagged(fs[0]) + Stream(fs[1..])
  }

  predicate TagAt(s: seq<byte>, k: nat) {
    k + HEADER <= |s| && s[k..k + 4] == Tag()
  }

  /** The first place where a header with the tag has arrived, or where too few bytes for one are left. */
  function FindTag(s: seq<byte>, from: nat): (k: nat)
    requires from <= |s|
    ensures from <= k <= |s|
    ensures k + HEADER > |s| || TagAt(s, k)
    ensures forall j :: from <= j < k ==> !TagAt(s, j)
    decreases |s| - from
  {
    if from + HEADER > |s| || TagAt(s, from) then from else FindTag(s, from + 1)
  }

  datatype Parse = Wait | Loaded(frame: seq<byte>)

  /** The length behind the tag found leaves room for the header in 32 bits. */
  predicate LengthFits(s: seq<byte>) {
    var k := FindTag(s, 0);
    k + HEADER <= |s| ==> LengthValue(s[k + 4..]) < WORD - HEADER
  }

  function ParseHead(s: seq<byte>): Parse {
    var k := FindTag(s, 0);
    if k + HEADER > |s| then Wait
    else
      var n := LengthValue(s[k + 4..]);
      if |s| - k < HEADER + n then Wait else Loaded(s[k + HEADER..k + HEADER + n])
  }

  /** The bytes consumed: those before the tag, the header and the frame. */
  function Taken(s: seq<byte>): (n: nat)
    ensures n <= |s|
  {
    var p := ParseHead(s);
    if p.Loaded? then FindTag(s, 0) + HEADER + |p.frame| else 0
  }

  /** Dropping consumed bytes at the front of the ring, at the level of positions. */
  lemma Shifted(mem: seq<byte>, r0: nat, w: nat, k: nat)
    requires r0 < |mem| && w < |mem| && k <= InUse(w, r0, |mem|)
    ensures var r := Advance(r0, k, |mem|);
      && InUse(w, r, |mem|) == InUse(w, r0, |mem|) - k
      && Gather(mem, r, InUse(w, r, |mem|)) == Gather(mem, r0, InUse(w, r0, |mem|))[k..]
  {
    InUseConsumed(w, r0, k, |mem|);
    GatherDrop(mem, r0, k, InUse(w, r0, |mem|));
  }

  /** The n bytes at place k of the ring's contents. */
  lemma BytesAt(mem: seq<byte>, r0: nat, w: nat, k: nat, n: nat)
    requires r0 < |mem| && w < |mem| && k + n <= InUse(w, r0, |mem|)
    ensures Gather(mem, Advance(r0, k, |mem|), n) == Gather(mem, r0, InUse(w, r0, |mem|))[k..k + n]
  {
    var r, all := Advance(r0, k, |mem|), Gather(mem, r0, InUse(w, r0, |mem|));
    Shifted(mem, r0, w, k);
    hide Gather, InUse, Advance;
    GatherDrop(mem, r, n, InUse(w, r, |mem|));
    assert all[k..][..n] == all[k..k + n];
  }

  /** The header read at place k of the ring's contents. */
  lemma HeaderAt(mem: seq<byte>, r0: nat, w: nat, k: nat)
    requires r0 < |mem| && w < |mem| && k + HEADER <= InUse(w, r0, |mem|)
    ensures var header := Gather(mem, Advance(r0, k, |mem|), HEADER);
      var was := Gather(mem, r0, InUse(w, r0, |mem|));
      && (header[..4] == Tag() <==> TagAt(was, k))
      && LengthValue(header[4..]) == LengthValue(was[k + 4..])
  {
    hide Gather, InUse, Advance;
    BytesAt(mem, r0, w, k, HEADER);
    var header, was := Gather(mem, Advance(r0, k, |mem|), HEADER), Gather(mem, r0, InUse(w, r0, |mem|));
    assert header[..4] == was[k..k + 4];
    assert header[4..] == was[k + 4..k + HEADER];
  }

  /** The read position behind n more bytes. */
  lemma MoveOn(r0: nat, k: nat, n: nat, size: nat)
    requires r0 < size && k + n <= size
    ensures Advance(Advance(r0, k, size), n, size) == Advance(r0, k + n, size)
  {
    AdvanceSum(r0, k, n, size);
  }

  /** The search for the tag from position r on; the place where it stops, and the length read there. */
  method Seek(c: InCache, w: nat, r0: nat) returns (found: bool, r: nat, n: nat, ghost k: nat)
    requires c.Valid() && c.rpos == r0 && c.wpos == w
    ensures r < c.cache.Length
    ensures k == FindTag(c.Contents(), 0) && r == Advance(r0, k, c.cache.Length)
    ensures found <==> k + HEADER <= |c.Contents()|
    ensures found ==> n == LengthValue(c.Contents()[k + 4..])
  {
    hide Gather, InUse, Advance, FindTag, LengthValue;
    ghost var was := c.Contents();
    var size := c.cache.Length;
    r, n, k := r0, 0, 0;
    Start(r0, size);
    while true
      invariant k <= |was| && r == Advance(r0, k, size) && FindTag(was, 0) == FindTag(was, k)
      decreases |was| - k
    {
      Shifted(c.cache[..], r0, w, k);
      FindStep(was, k);
      if InUse(w, r, size) < HEADER { return false, r, 0, k; }
      HeaderAt(c.cache[..], r0, w, k);
      var header := c.GetData(HEADER, w, r);
      if header[..4] == Tag() { return true, r, LengthValue(header[4..]), k; }
      MoveOn(r0, k, 1, size);
      r := Advance(r, 1, size);
      k := k + 1;
    }
  }

  /** cp_load_lhdc_frame; busy stands for the two conditions of the codec under which nothing is read. */
  method Load(c: InCache, busy: bool) returns (p: Parse)
    requires c.Valid() && LengthFits(c.Contents())
    modifies c`rpos
    ensures c.Valid()
    ensures p == if busy then Wait else ParseHead(old(c.Contents()))
    ensures c.Contents() == old(c.Contents())[if busy then 0 else Taken(old(c.Contents()))..]
  {
    hide Gather, InUse, Advance, FindTag, LengthValue;
    ghost var was, mem := c.Contents(), c.cache[..];
    assert was[0..] == was;
    if busy { return Wait; }
    var w, r0, size := c.wpos, c.rpos, c.cache.Length;
    var found, r, n;
    ghost var k;
    found, r, n, k := Seek(c, w, r0);
    if !found { return Wait; }
    Shifted(mem, r0, w, k);
    if InUse(w, r, size) < (HEADER + n) % WORD { return Wait; }
    FrameAt(mem, r0, w, k, n);
    r := Advance(r, HEADER, size);
    var data := c.GetData(n, w, r);
    r := Advance(r, n, size);
    c.rpos := r;
    return Loaded(data);
  }

  /** The frame behind a header at place k, and the ring after it. */
  lemma FrameAt(mem: seq<byte>, r0: nat, w: nat, k: nat, n: nat)
    requires r0 < |mem| && w < |mem| && k + HEADER + n <= InUse(w, r0, |mem|)
    ensures var start := Advance(Advance(r0, k, |mem|), HEADER, |mem|);
      var end := Advance(start, n, |mem|);
      var was := Gather(mem, r0, InUse(w, r0, |mem|));
      && n <= InUse(w, start, |mem|)
      && Gather(mem, start, n) == was[k + HEADER..k + HEADER + n]
      && Gather(mem, end, InUse(w, end, |mem|)) == was[k + HEADER + n..]
  {
    hide Gather, InUse, Advance;
    Fits(w, r0, |mem|);
    MoveOn(r0, k, HEADER, |mem|);
    MoveOn(r0, k + HEADER, n, |mem|);
    Shifted(mem, r0, w, k + HEADER);
    BytesAt(mem, r0, w, k + HEADER, n);
    Shifted(mem, r0, w, k + HEADER + n);
  }

  lemma Fits(w: nat, r: nat, size: nat)
    requires w < size && r < size
    ensures InUse(w, r, size) < size
  {}

  /**
   The test whether a frame is complete adds header and length in 32 bits. It is right for every length
   that leaves room for the header, and for no other.
   */
  lemma TestIsRight(len: nat, n: nat)
    requires HEADER <= len < WORD && n < WORD
    ensures (len >= (HEADER + n) % WORD <==> len >= HEADER + n) <==> n < WORD - HEADER
  {}

  lemma Start(r0: nat, size: nat)
    requires r0 < size
    ensures Advance(r0, 0, size) == r0
  {}

  lemma FindStep(s: seq<byte>, k: nat)
    requires k <= |s|
    ensures FindTag(s, k) == if k + HEADER > |s| || TagAt(s, k) then k else FindTag(s, k + 1)
  {}

  // ---------------------------------------------------------------- what the loader makes of a stream

  lemma {:induction false} FindSkips(s: seq<byte>, from: nat, k: nat)
    requires from <= k <= |s| && (from < k ==> k - 1 + HEADER <= |s|)
    requires forall j :: from <= j < k ==> !TagAt(s, j)
    ensures FindTag(s, from) == FindTag(s, k)
    decreases k - from
  {
    if from < k { FindSkips(s, from + 1, k); }
  }

  /** No tag starts in the bytes g in front of a stream. */
  ghost predicate Garbage(g: seq<byte>, fs: seq<Frame>) {
    forall j :: 0 <= j < |g| ==> !TagAt(g + Stream(fs), j)
  }

  /** What is at the front of a stream of frames. */
  lemma FrontOf(f: Frame, more: seq<byte>)
    ensures var s := Tagged(f) + more;
      TagAt(s, 0) && LengthValue(s[4..]) == |f| && s[HEADER..HEADER + |f|] == f
  {
    var s := Tagged(f) + more;
    assert s[4..] == LengthBytes(|f|) + (f + more);
    LengthRoundTrip(|f|, f + more);
    assert s[..4] == Tag();
    hide LengthBytes, LengthValue;
    assert s[HEADER..HEADER + |f|] == f;
  }

  /**
   From any part that has arrived of garbage followed by frames, the loader takes the first frame if all
   of it is there, and otherwise waits without consuming anything.
   */
  lemma LoaderTakesHead(g: seq<byte>, fs: seq<Frame>, avail: seq<byte>)
    requires Garbage(g, fs) && avail <= g + Stream(fs)
    ensures LengthFits(avail)
    ensures if fs != [] && |avail| >= |g| + HEADER + |fs[0]|
      then ParseHead(avail) == Loaded(fs[0]) && Taken(avail) == |g| + HEADER + |fs[0]|
      else ParseHead(avail) == Wait && Taken(avail) == 0
  {
    hide LengthBytes, LengthValue, FindTag, Stream, Tagged;
    var all := g + Stream(fs);
    forall j | 0 <= j < |g| && j + HEADER <= |avail| ensures !TagAt(avail, j) {
      assert !TagAt(all, j) && avail[j..j + 4] == all[j..j + 4];
    }
    if |avail| < |g| + HEADER {
      var k := if |avail| < HEADER then 0 else |avail| - HEADER + 1;
      FindSkips(avail, 0, k);
      FindStep(avail, k);
    } else {
      FindSkips(avail, 0, |g|);
      FindStep(avail, |g|);
      StreamNotEmpty(fs);
      StreamFront(fs);
      FrontOf(fs[0], Stream(fs[1..]));
      SameFront(all, avail, g, Stream(fs), |fs[0]|);
    }
  }

  lemma StreamFront(fs: seq<Frame>)
    requires fs != []
    ensures Stream(fs) == Tagged(fs[0]) + Stream(fs[1..])
  {}

  lemma StreamNotEmpty(fs: seq<Frame>)
    requires Stream(fs) != []
    ensures fs != []
  {}

  /** The header and the frame behind g are the same in the part that has arrived. */
  lemma SameFront(all: seq<byte>, avail: seq<byte>, g: seq<byte>, s: seq<byte>, n: nat)
    requires all == g + s && avail <= all && |avail| >= |g| + HEADER
    ensures TagAt(avail, |g|) <==> TagAt(s, 0)
    ensures LengthValue(avail[|g| + 4..]) == LengthValue(s[4..])
    ensures |g| + HEADER + n <= |avail| ==> avail[|g| + HEADER..|g| + HEADER + n] == s[HEADER..HEADER + n]
  {
    assert avail[|g|..|g| + 4] == s[0..4];
    forall i | 0 <= i < 4 ensures avail[|g| + 4..][i] == s[4..][i] {
      assert all[|g| + 4 + i] == s[4 + i];
    }
  }

  function Flat(chunks: seq<seq<byte>>): seq<byte> {
    if chunks == [] then [] else chunks[0] + Flat(chunks[1..])
  }

  /** The frames returned when the bytes arrive in chunks and the loader is called after each. */
  function Returned(avail: seq<byte>, chunks: seq<seq<byte>>): seq<seq<byte>>
    decreases |chunks|
  {
    if chunks == [] then []
    else
      var now := avail + chunks[0];
      var later := Returned(now[Taken(now)..], chunks[1..]);
      if ParseHead(now).Loaded? then [ParseHead(now).frame] + later else later
  }

  lemma NoGarbage(fs: seq<Frame>)
    ensures Garbage([], fs)
  {}

  /** After one call, what is left in the ring and what is still to come make up the rest of the stream. */
  lemma AfterCall(fs: seq<Frame>, now: seq<byte>, rest: seq<byte>)
    requires now + rest <= Stream(fs)
    ensures ParseHead(now) == Wait ==> Taken(now) == 0
    ensures ParseHead(now) != Wait ==>
      fs != [] && ParseHead(now) == Loaded(fs[0]) && now[Taken(now)..] + rest <= Stream(fs[1..])
  {
    hide ParseHead, Taken, Stream, Tagged, LengthFits, Garbage;
    var s, none: seq<byte> := Stream(fs), [];
    assert none + s == s;
    NoGarbage(fs);
    LoaderTakesHead([], fs, now);
    if Taken(now) > 0 {
      StreamFront(fs);
      var n := Taken(now);
      assert now[n..] + rest == (now + rest)[n..] && Stream(fs)[n..] == Stream(fs[1..]);
    }
  }

  /** However the stream is cut into arrivals, the loader returns its frames, whole and in order. */
  lemma {:induction false} FramesComeOut(fs: seq<Frame>, avail: seq<byte>, chunks: seq<seq<byte>>)
    requires avail + Flat(chunks) <= Stream(fs)
    ensures Returned(avail, chunks) <= fs
    decreases |chunks|
  {
    hide ParseHead, Taken, Stream;
    if chunks != [] {
      var now, rest := avail + chunks[0], Flat(chunks[1..]);
      assert avail + Flat(chunks) == now + rest;
      AfterCall(fs, now, rest);
      if ParseHead(now) == Wait {
        assert now[0..] == now;
        FramesComeOut(fs, now, chunks[1..]);
      } else {
        FramesComeOut(fs[1..], now[Taken(now)..], chunks[1..]);
        assert fs == [fs[0]] + fs[1..];
      }
    }
  }

  /** Once everything has arrived, as many calls as there are frames return all of them. */
  lemma {:induction false} AllFramesComeOut(fs: seq<Frame>, calls: seq<seq<byte>>)
    requires |calls| >= |fs| && forall c <- calls :: c == []
    ensures Returned(Stream(fs), calls) == fs
    decreases |calls|
  {
    hide ParseHead, Taken, Stream;
    if calls != [] {
      var s := Stream(fs);
      assert calls[0] in calls && forall c <- calls[1..] :: c in calls;
      assert s + calls[0] == s && s[0..] == s;
      CallTakes(fs);
      if fs == [] {
        AllFramesComeOut(fs, calls[1..]);
      } else {
        AllFramesComeOut(fs[1..], calls[1..]);
        assert fs == [fs[0]] + fs[1..];
      }
    }
  }

  lemma CallTakes(fs: seq<Frame>)
    ensures if fs == [] then ParseHead(Stream(fs)) == Wait && Taken(Stream(fs)) == 0
      else ParseHead(Stream(fs)) == Loaded(fs[0]) && Stream(fs)[Taken(Stream(fs))..] == Stream(fs[1..])
  {
    assert [] + Stream(fs) == Stream(fs);
    LoaderTakesHead([], fs, Stream(fs));
    if fs != [] { StreamFront(fs); }
  }

  /**
   However the stream is cut into arrivals, once all of it has arrived and the loader has been called as
   often again as there are frames, it has returned exactly the frames.
   */
  lemma {:induction false} EveryFrameComesOut(fs: seq<Frame>, avail: seq<byte>, chunks: seq<seq<byte>>,
                                              calls: seq<seq<byte>>)
    requires avail + Flat(chunks) == Stream(fs)
    requires |calls| >= |fs| && forall c <- calls :: c == []
    ensures Returned(avail, chunks + calls) == fs
    decreases |chunks|
  {
    if chunks == [] {
      assert chunks + calls == calls && avail + [] == avail;
      AllFramesComeOut(fs, calls);
    } else {
      var now, rest := avail + chunks[0], Flat(chunks[1..]);
      assert avail + Flat(chunks) == now + rest;
      assert (chunks + calls)[0] == chunks[0] && (chunks + calls)[1..] == chunks[1..] + calls;
      AfterCall(fs, now, rest);
      LeftOver(fs, now, rest);
      hide ParseHead, Taken, Stream;
      if ParseHead(now) == Wait {
        assert now[0..] == now;
        EveryFrameComesOut(fs, now, chunks[1..], calls);
      } else {
        EveryFrameComesOut(fs[1..], now[Taken(now)..], chunks[1..], calls);
        assert fs == [fs[0]] + fs[1..];
      }
    }
  }

  lemma LeftOver(fs: seq<Frame>, now: seq<byte>, rest: seq<byte>)
    requires now + rest == Stream(fs)
    ensures ParseHead(now) != Wait ==> fs != [] && now[Taken(now)..] + rest == Stream(fs[1..])
  {
    hide ParseHead, Taken, Stream, Tagged, LengthFits, Garbage;
    var s, none: seq<byte> := Stream(fs), [];
    assert none + s == s;
    NoGarbage(fs);
    LoaderTakesHead([], fs, now);
    if Taken(now) > 0 {
      StreamFront(fs);
      var n := Taken(now);
      assert now[n..] + rest == (now + rest)[n..] && Stream(fs)[n..] == Stream(fs[1..]);
    }
  }
}
