/**
 Reassembly after losses: which frames come out when packets of a stream of LHDC frames do not arrive.
 */
module LhdcLoss {
  import opened Ring
  import opened LhdcAssembler

  // ----- A new start. -----

  /** The packet is not taken for the continuation of the frame being assembled. */
  ghost predicate StartsOver(s: State, p: Packet) {
    Sane(s) && !(s.waiting && s.next == Number(p))
  }

  /** Between frames, ready for any number. */
  ghost function Fresh(s: State): (r: State)
    requires Sane(s)
    ensures Sane(r) && !r.synced && !r.waiting
  {
    State(false, s.next, false, [])
  }

  lemma FreshFollows(s: State, p: Packet)
    requires StartsOver(s, p) && (Whole(p) || (First(p) && |Payload(p)| < BUFFER_LENGTH))
    ensures Assemble(s, p) == Assemble(Fresh(s), p)
  {}

  lemma FreshFirst(s: State, ps: seq<Packet>)
    requires ps != [] && StartsOver(s, ps[0])
    requires Whole(ps[0]) || (First(ps[0]) && |Payload(ps[0])| < BUFFER_LENGTH)
    ensures Emitted(s, ps) == Emitted(Fresh(s), ps) && Run(s, ps) == Run(Fresh(s), ps)
  {
    FreshFollows(s, ps[0]);
    hide Assemble;
  }

  /** The first packet of a sent frame can begin it. */
  lemma CanStart(g: seq<Packet>)
    requires Sent(g)
    ensures Whole(g[0]) || (First(g[0]) && |Payload(g[0])| < BUFFER_LENGTH)
  {
    if |g| >= 2 {
      JoinedPrefix(g, 1);
      assert g[..1] == [g[0]];
      JoinedOne(g[0]);
    }
  }

  /**
   From any state that does not take the first packet for a continuation, a stream comes out as exactly
   its frames: after a gap, and after a frame that was given up, nothing more is lost.
   */
  lemma Resumes(s: State, gs: seq<seq<Packet>>)
    requires gs != [] && (forall g <- gs :: Sent(g)) && Numbered(Flatten(gs))
    requires Flatten(gs) != [] && StartsOver(s, Flatten(gs)[0])
    ensures Emitted(s, Flatten(gs)) == Originals(gs)
  {
    var ps, g := Flatten(gs), gs[0];
    assert Sent(g);
    assert ps[0] == g[0];
    CanStart(g);
    FreshFirst(s, ps);
    LosslessStream(Fresh(s), gs);
  }

  /** With the expected number, a whole frame is swallowed by the one being assembled. */
  lemma ExpectedIsSwallowed(s: State, p: Packet)
    requires Sane(s) && s.waiting && s.next == Number(p) && Whole(p)
    ensures Assemble(s, p).emit == Nothing
  {}

  // ----- Losses within a stream. -----

  /** The packets that arrive. */
  ghost function Arriving(ps: seq<Packet>, kept: seq<bool>): seq<Packet>
    requires |ps| == |kept|
  {
    if ps == [] then [] else (if kept[0] then [ps[0]] else []) + Arriving(ps[1..], kept[1..])
  }

  /** The packets lost at the end, when `lost` were lost just before. */
  ghost function LostAfter(kept: seq<bool>, lost: nat): nat {
    if kept == [] then lost else LostAfter(kept[1..], if kept[0] then 0 else lost + 1)
  }

  /** Whenever a packet arrives after losses, the numbers tell: not a multiple of 256 in a row are missing. */
  ghost predicate Noticed(kept: seq<bool>, lost: nat) {
    kept == [] ||
    if kept[0] then (lost > 0 ==> lost % 256 != 0) && Noticed(kept[1..], 0) else Noticed(kept[1..], lost + 1)
  }

  ghost predicate AllKept(kept: seq<bool>) {
    forall k <- kept :: k
  }

  /** A sent frame whose later fragments cannot be taken for the beginning of one. */
  ghost predicate Proper(g: seq<Packet>) {
    Sent(g) && forall i :: 0 < i < |g| ==> Continues(g[i])
  }

  ghost predicate Continues(p: Packet) {
    !Whole(p) && !First(p)
  }

  /** The frames of which every packet arrives. */
  ghost function Survivors(gs: seq<seq<Packet>>, kept: seq<bool>): seq<seq<byte>>
    requires |kept| == |Flatten(gs)|
  {
    if gs == [] then []
    else
      var n := |gs[0]|;
      (if AllKept(kept[..n]) then [Joined(gs[0])] else []) + Survivors(gs[1..], kept[n..])
  }

  /** After `lost` packets in a row were lost the next one sent has the number `n`. */
  ghost predicate Expects(s: State, lost: nat, n: byte) {
    s.synced ==> n as int == (s.next as int + lost) % 256
  }

  /** Between frames, or in one of which a packet was lost. */
  ghost predicate Boundary(s: State, lost: nat) {
    Sane(s) && (lost == 0 ==> !s.waiting)
  }

  /** The frame under way is given up: its further fragments are not put out. */
  ghost predicate Broken(s: State, lost: nat) {
    Sane(s) && (lost == 0 ==> !s.synced)
  }

  lemma NextExpected(s: State, lost: nat, n: byte)
    requires Expects(s, lost, n)
    ensures Expects(s, lost + 1, After(n))
  {}

  /** A noticed loss: the number is not the expected one. */
  lemma NumberTells(s: State, lost: nat, n: byte)
    requires Expects(s, lost, n) && s.synced && lost % 256 != 0
    ensures n != s.next
  {}

  lemma BrokenDrops(s: State, p: Packet, lost: nat)
    requires Broken(s, lost) && Expects(s, lost, Number(p)) && Continues(p) && (lost > 0 ==> lost % 256 != 0)
    ensures Assemble(s, p).emit == Nothing && Broken(Assemble(s, p).state, 0)
    ensures !Assemble(s, p).state.synced
  {
    if s.synced { NumberTells(s, lost, Number(p)); }
  }

  ghost function LastNumber(ps: seq<Packet>): byte
    requires ps != []
  {
    Number(ps[|ps| - 1])
  }

  lemma NumberedRest(ps: seq<Packet>)
    requires Numbered(ps) && |ps| >= 2
    ensures Numbered(ps[1..]) && Number(ps[1]) == After(Number(ps[0]))
  {
    hide Number, After;
  }

  /** Of the rest of a broken frame nothing comes out. */
  lemma {:induction false} BrokenRest(s: State, ps: seq<Packet>, kept: seq<bool>, lost: nat, n: byte)
    requires |ps| == |kept| && Numbered(ps) && (forall p <- ps :: Continues(p)) && Noticed(kept, lost)
    requires Broken(s, lost) && Expects(s, lost, n) && (ps != [] ==> Number(ps[0]) == n)
    ensures Emitted(s, Arriving(ps, kept)) == []
    ensures var t, more := Run(s, Arriving(ps, kept)), LostAfter(kept, lost);
      Broken(t, more) && Expects(t, more, if ps == [] then n else After(LastNumber(ps)))
    decreases |ps|
  {
    if ps != [] {
      hide Assemble, Numbered, Number, After, Continues, Expects, Broken;
      var p, rest, more := ps[0], ps[1..], kept[1..];
      if |ps| >= 2 { NumberedRest(ps); }
      if |ps| < 2 { NumberedEmpty(rest); }
      assert p in ps && forall q <- rest :: q in ps;
      if kept[0] {
        var t := Assemble(s, p).state;
        BrokenDrops(s, p, lost);
        UnsyncedExpects(t, After(n));
        assert Arriving(ps, kept) == [p] + Arriving(rest, more);
        RunOne(s, p, Arriving(rest, more));
        BrokenRest(t, rest, more, 0, After(n));
      } else {
        NextExpected(s, lost, n);
        StillBroken(s, lost);
        assert Arriving(ps, kept) == Arriving(rest, more);
        BrokenRest(s, rest, more, lost + 1, After(n));
      }
      LastOfRest(ps);
    }
  }

  lemma NumberedEmpty(ps: seq<Packet>)
    requires ps == []
    ensures Numbered(ps)
  {}

  lemma LastOfRest(ps: seq<Packet>)
    requires ps != []
    ensures |ps| >= 2 ==> LastNumber(ps[1..]) == LastNumber(ps)
    ensures |ps| == 1 ==> LastNumber(ps) == Number(ps[0])
  {}

  lemma StillBroken(s: State, lost: nat)
    requires Sane(s)
    ensures Broken(s, lost + 1)
  {}

  lemma UnsyncedExpects(s: State, n: byte)
    requires !s.synced
    ensures Expects(s, 0, n)
  {}

  lemma RunOne(s: State, p: Packet, rest: seq<Packet>)
    requires Sane(s)
    ensures var r := Assemble(s, p);
      && Run(s, [p] + rest) == Run(r.state, rest)
      && Emitted(s, [p] + rest) == (if r.emit.Frame? then [r.emit.data] else []) + Emitted(r.state, rest)
  {
    assert ([p] + rest)[1..] == rest;
  }

  // ----- One frame, whatever of it arrives. -----

  lemma BoundaryStarts(s: State, lost: nat, p: Packet)
    requires Boundary(s, lost) && Expects(s, lost, Number(p)) && (lost > 0 ==> lost % 256 != 0)
    ensures StartsOver(s, p)
  {
    if s.synced && lost > 0 { NumberTells(s, lost, Number(p)); }
  }

  lemma KeptGroup(s: State, g: seq<Packet>, lost: nat)
    requires Proper(g) && Numbered(g) && Boundary(s, lost) && Expects(s, lost, Number(g[0]))
    requires lost > 0 ==> lost % 256 != 0
    ensures Emitted(s, g) == [Joined(g)]
    ensures Boundary(Run(s, g), 0) && Expects(Run(s, g), 0, After(LastNumber(g)))
  {
    hide Assemble, Emitted, Run, Joined;
    CanStart(g);
    BoundaryStarts(s, lost, g[0]);
    FreshFirst(s, g);
    GroupComesOut(Fresh(s), g);
  }

  lemma CutGroup(s: State, g: seq<Packet>, k: nat, lost: nat)
    requires Proper(g) && Numbered(g) && Boundary(s, lost) && Expects(s, lost, Number(g[0]))
    requires 0 < k < |g| && (lost > 0 ==> lost % 256 != 0)
    ensures Emitted(s, g[..k]) == []
    ensures Broken(Run(s, g[..k]), 1) && Expects(Run(s, g[..k]), 1, After(Number(g[k])))
  {
    hide Assemble, Emitted, Run, Joined;
    CanStart(g);
    BoundaryStarts(s, lost, g[0]);
    FreshFirst(s, g[..k]);
    FragmentsCollect(Fresh(s), g, k);
    assert Number(g[k]) == After(Number(g[k - 1]));
    NextExpected(Run(s, g[..k]), 0, Number(g[k]));
  }

  ghost function FirstLost(kept: seq<bool>): (k: nat)
    requires !AllKept(kept)
    ensures k < |kept| && !kept[k] && AllKept(kept[..k])
  {
    if !kept[0] then 0
    else
      assert !AllKept(kept[1..]) by { assert forall k <- kept :: k == kept[0] || k in kept[1..]; }
      assert forall n :: 0 <= n < |kept| ==> kept[..n + 1] == [kept[0]] + kept[1..][..n];
      FirstLost(kept[1..]) + 1
  }

  /** What the first `k` packets do to the account of losses when all of them arrive. */
  lemma {:induction false} KeptPrefix(ps: seq<Packet>, kept: seq<bool>, k: nat, lost: nat)
    requires |ps| == |kept| && 0 < k <= |ps| && AllKept(kept[..k])
    ensures Arriving(ps, kept) == ps[..k] + Arriving(ps[k..], kept[k..])
    ensures Noticed(kept, lost) ==> (lost > 0 ==> lost % 256 != 0) && Noticed(kept[k..], 0)
    ensures LostAfter(kept, lost) == LostAfter(kept[k..], 0)
    decreases k
  {
    assert kept[0] in kept[..k];
    if k > 1 {
      assert kept[1..][..k - 1] == kept[..k][1..];
      assert forall b <- kept[..k][1..] :: b in kept[..k];
      KeptPrefix(ps[1..], kept[1..], k - 1, 0);
      assert ps[1..][k - 1..] == ps[k..] && kept[1..][k - 1..] == kept[k..];
      assert ps[..k] == [ps[0]] + ps[1..][..k - 1];
    }
  }

  lemma LostHere(ps: seq<Packet>, kept: seq<bool>, lost: nat)
    requires |ps| == |kept| && ps != [] && !kept[0]
    ensures Arriving(ps, kept) == Arriving(ps[1..], kept[1..])
    ensures Noticed(kept, lost) ==> Noticed(kept[1..], lost + 1)
    ensures LostAfter(kept, lost) == LostAfter(kept[1..], lost + 1)
  {}

  lemma TailContinues(g: seq<Packet>, k: nat)
    requires Proper(g) && k < |g| && Numbered(g)
    ensures forall p <- g[k + 1..] :: Continues(p)
    ensures Numbered(g[k + 1..])
    ensures k + 1 < |g| ==> Number(g[k + 1]) == After(Number(g[k])) && LastNumber(g[k + 1..]) == LastNumber(g)
    ensures k + 1 == |g| ==> LastNumber(g) == Number(g[k])
  {
    hide Continues, Number, After;
    forall p | p in g[k + 1..] ensures Continues(p) {
      var i :| 0 <= i < |g[k + 1..]| && g[k + 1..][i] == p;
      assert g[k + 1 + i] == p;
    }
    assert g[..k + 1] + g[k + 1..] == g;
    NumberedParts(g[..k + 1], g[k + 1..]);
  }

  /** After the group: between frames, or still in one of which a packet was lost. */
  ghost predicate Ended(s: State, kept: seq<bool>, lost: nat, g: seq<Packet>)
    requires g != []
  {
    Boundary(s, LostAfter(kept, lost)) && Expects(s, LostAfter(kept, lost), After(LastNumber(g)))
  }

  lemma BrokenEnds(s: State, lost: nat)
    requires Broken(s, lost)
    ensures Sane(s) && Boundary(s, lost)
  {}

  /** The packets behind the first lost one bring out nothing. */
  lemma GroupFromLoss(s: State, g: seq<Packet>, kept: seq<bool>, k: nat, lost: nat)
    requires Proper(g) && Numbered(g) && |kept| == |g| && k < |g| && !kept[k] && Noticed(kept[k..], lost)
    requires Broken(s, lost + 1) && Expects(s, lost, Number(g[k]))
    ensures Emitted(s, Arriving(g[k..], kept[k..])) == []
    ensures Ended(Run(s, Arriving(g[k..], kept[k..])), kept[k..], lost, g)
  {
    BrokenEnds(s, lost + 1);
    hide Broken, Expects, Assemble, Number, After, Emitted, Run, Proper, Numbered;
    var ps, more := g[k..], kept[k..];
    LostHere(ps, more, lost);
    TailContinues(g, k);
    assert ps[1..] == g[k + 1..];
    NextExpected(s, lost, Number(g[k]));
    BrokenRest(s, ps[1..], more[1..], lost + 1, After(Number(g[k])));
    var t := Run(s, Arriving(ps, more));
    BrokenEnds(t, LostAfter(more, lost));
  }

  lemma GroupArrives(s: State, g: seq<Packet>, kept: seq<bool>, lost: nat)
    requires Proper(g) && Numbered(g) && |kept| == |g| && Noticed(kept, lost)
    requires Boundary(s, lost) && Expects(s, lost, Number(g[0]))
    ensures Emitted(s, Arriving(g, kept)) == if AllKept(kept) then [Joined(g)] else []
    ensures Ended(Run(s, Arriving(g, kept)), kept, lost, g)
  {
    assert g != [];
    hide Assemble, Number, After, Emitted, Run, Proper, Numbered, Broken, Expects, Boundary;
    hide Noticed, Arriving, LostAfter, Joined;
    var n := |g|;
    if AllKept(kept) {
      assert kept[..n] == kept && g[..n] == g && g[n..] == [] && kept[n..] == [];
      KeptPrefix(g, kept, n, lost);
      ArrivingNone();
      KeptGroup(s, g, lost);
      assert g + [] == g;
    } else {
      var k := FirstLost(kept);
      assert g[0..] == g && kept[0..] == kept;
      if k == 0 {
        BoundaryBreaks(s, lost);
        GroupFromLoss(s, g, kept, 0, lost);
      } else {
        KeptPrefix(g, kept, k, lost);
        CutGroup(s, g, k, lost);
        var t := Run(s, g[..k]);
        RunAppend(s, g[..k], Arriving(g[k..], kept[k..]));
        CutExpects(t, Number(g[k]));
        GroupFromLoss(t, g, kept, k, 0);
      }
    }
  }

  lemma ArrivingNone()
    ensures Arriving([], []) == [] && LostAfter([], 0) == 0
  {}

  lemma BoundaryBreaks(s: State, lost: nat)
    requires Boundary(s, lost)
    ensures Broken(s, lost + 1)
  {}

  lemma CutExpects(s: State, n: byte)
    requires Expects(s, 1, After(n))
    ensures Expects(s, 0, n)
  {}

  // ----- The whole stream. -----

  lemma {:induction false} ArrivingParts(a: seq<Packet>, b: seq<Packet>, kept: seq<bool>)
    requires |kept| == |a| + |b|
    ensures Arriving(a + b, kept) == Arriving(a, kept[..|a|]) + Arriving(b, kept[|a|..])
    decreases |a|
  {
    if a == [] {
      assert a + b == b && kept[0..] == kept;
    } else {
      var one := if kept[0] then [a[0]] else [];
      var front, back := kept[1..][..|a| - 1], kept[|a|..];
      assert (a + b)[0] == a[0] && (a + b)[1..] == a[1..] + b;
      assert kept[..|a|][1..] == front && kept[1..][|a| - 1..] == back;
      ArrivingParts(a[1..], b, kept[1..]);
      assert Arriving(a + b, kept) == one + Arriving(a[1..] + b, kept[1..]);
      assert Arriving(a, kept[..|a|]) == one + Arriving(a[1..], front);
      hide Arriving;
      assert one + (Arriving(a[1..], front) + Arriving(b, back)) == one + Arriving(a[1..], front) + Arriving(b, back);
    }
  }

  lemma {:induction false} NoticedParts(kept: seq<bool>, n: nat, lost: nat)
    requires n <= |kept| && Noticed(kept, lost)
    ensures Noticed(kept[..n], lost) && Noticed(kept[n..], LostAfter(kept[..n], lost))
    decreases n
  {
    if n == 0 {
      assert kept[0..] == kept;
    } else {
      assert kept[..n][1..] == kept[1..][..n - 1] && kept[1..][n - 1..] == kept[n..];
      NoticedParts(kept[1..], n - 1, if kept[0] then 0 else lost + 1);
    }
  }

  /**
   A loss costs only the frames of which a packet was lost. From any state between frames, whatever packets
   of a stream do not arrive, exactly the frames that arrive whole come out, in order, as long as the
   losses in a row are not a multiple of 256, which the 8-bit numbers cannot tell from none.
   */
  lemma {:induction false} LossesCostTheirFrames(s: State, gs: seq<seq<Packet>>, kept: seq<bool>, lost: nat)
    requires (forall g <- gs :: Proper(g)) && Numbered(Flatten(gs)) && |kept| == |Flatten(gs)|
    requires Noticed(kept, lost) && Boundary(s, lost)
    requires Flatten(gs) != [] ==> Expects(s, lost, Number(Flatten(gs)[0]))
    ensures Emitted(s, Arriving(Flatten(gs), kept)) == Survivors(gs, kept)
    decreases |gs|
  {
    if gs != [] {
      var g, rest := gs[0], Flatten(gs[1..]);
      var all, n := Flatten(gs), |gs[0]|;
      assert Proper(g) && g != [];
      assert all == g + rest && all[0] == g[0];
      hide Assemble, Number, After, Emitted, Run, Proper, Numbered, Expects, Noticed, Arriving, LostAfter, Joined;
      NumberedParts(g, rest);
      ArrivingParts(g, rest, kept);
      NoticedParts(kept, n, lost);
      GroupArrives(s, g, kept[..n], lost);
      var t := Run(s, Arriving(g, kept[..n]));
      RunAppend(s, Arriving(g, kept[..n]), Arriving(rest, kept[n..]));
      if rest != [] { FollowsOn(g, rest); }
      LossesCostTheirFrames(t, gs[1..], kept[n..], LostAfter(kept[..n], lost));
    }
  }

  lemma FollowsOn(g: seq<Packet>, rest: seq<Packet>)
    requires Numbered(g + rest) && g != [] && rest != []
    ensures Number(rest[0]) == After(LastNumber(g))
  {
    hide Number, After;
    var all := g + rest;
    assert all[|g|] == rest[0] && all[|g| - 1] == g[|g| - 1];
  }
}
