/**
 * The factory test tone (app_factory_audio.cpp): a pattern of 16-bit samples is played over and over,
 * in requests of any size. The pattern is seen as bytes; the position may rest at its very end.
 */
module PatternPlayer {
  import opened Ring
  import Bits

  /** n bytes of the pattern played in a circle from position s. */
  function Cycle(p: seq<byte>, s: nat, n: nat): (r: seq<byte>)
    requires 0 < |p| && s <= |p|
    ensures |r| == n
    decreases n, s
  {
    if n == 0 then []
    else if s == |p| then Cycle(p, 0, n)
    else [p[s]] + Cycle(p, s + 1, n - 1)
  }

  /** Where playing n bytes from position s ends. */
  function Position(size: nat, s: nat, n: nat): (r: nat)
    requires 0 < size && s <= size
    ensures r <= size
    decreases n, s
  {
    if n == 0 then s
    else if s == size then Position(size, 0, n)
    else Position(size, s + 1, n - 1)
  }

  /** As long as the end of the pattern is not passed, the bytes are a piece of it. */
  lemma {:induction false} CyclePiece(p: seq<byte>, s: nat, n: nat)
    requires 0 < |p| && s + n <= |p|
    ensures Cycle(p, s, n) == p[s..s + n] && Position(|p|, s, n) == s + n
    decreases n
  {
    if n > 0 {
      CyclePiece(p, s + 1, n - 1);
      assert p[s..s + n] == [p[s]] + p[s + 1..s + n];
    }
  }

  lemma CycleStep(p: seq<byte>, s: nat, n: nat)
    requires s < |p| && n > 0
    ensures Cycle(p, s, n) == [p[s]] + Cycle(p, s + 1, n - 1)
    ensures Position(|p|, s, n) == Position(|p|, s + 1, n - 1)
  {}

  lemma CycleNone(p: seq<byte>, s: nat)
    requires 0 < |p| && s <= |p|
    ensures Cycle(p, s, 0) == [] && Position(|p|, s, 0) == s
  {}

  /** The end of the pattern and its start are the same place to play from. */
  lemma FromEnd(p: seq<byte>, n: nat)
    requires 0 < |p|
    ensures Cycle(p, |p|, n) == Cycle(p, 0, n)
    ensures n > 0 ==> Position(|p|, |p|, n) == Position(|p|, 0, n)
  {}

  /** Playing n bytes and then m more is playing n + m. */
  lemma {:induction false} CycleSplit(p: seq<byte>, s: nat, n: nat, m: nat)
    requires 0 < |p| && s <= |p|
    ensures Cycle(p, s, n + m) == Cycle(p, s, n) + Cycle(p, Position(|p|, s, n), m)
    ensures Position(|p|, s, n + m) == Position(|p|, Position(|p|, s, n), m)
    decreases n, s
  {
    hide Cycle, Position;
    if n == 0 {
      CycleNone(p, s);
      assert Cycle(p, s, n + m) == [] + Cycle(p, s, m);
    } else if s == |p| {
      CycleSplit(p, 0, n, m);
      FromEnd(p, n);
      FromEnd(p, n + m);
    } else {
      CycleSplit(p, s + 1, n - 1, m);
      CycleStep(p, s, n);
      CycleStep(p, s, n + m);
    }
  }

  /** Byte k of the playing from the start is byte k modulo the size of the pattern. */
  lemma {:induction false} CycleIsPeriodic(p: seq<byte>, s: nat, n: nat, k: nat)
    requires 0 < |p| && s <= |p| && k < n
    ensures Cycle(p, s, n)[k] == p[(s + k) % |p|]
    decreases n, s
  {
    if s == |p| {
      CycleIsPeriodic(p, 0, n, k);
      AddSize(k, |p|);
    } else if k > 0 {
      CycleIsPeriodic(p, s + 1, n - 1, k - 1);
    } else {
      SmallMod(s, |p|);
    }
  }

  lemma AddSize(k: nat, size: nat)
    requires size > 0
    ensures (size + k) % size == k % size
  {
    var q := k / size;
    assert size + k == (q + 1) * size + k % size;
    Bits.ModOf(size + k, size, q + 1, k % size);
  }

  lemma SmallMod(s: nat, size: nat)
    requires s < size
    ensures s % size == s
  {}

  /** A whole number of 16-bit samples. */
  predicate Whole(n: int) {
    n % 2 == 0
  }

  lemma WholeDifference(a: int, b: int)
    requires Whole(a) && Whole(b)
    ensures Whole(a - b) && Whole(0) && Whole(a + b)
  {}

  class Player {
    const pattern: array<byte>
    var pos: nat

    ghost predicate Valid()
      reads this, pattern
    {
      0 < pattern.Length && Whole(pattern.Length) && pos <= pattern.Length && Whole(pos)
    }

    constructor (samples: array<byte>)
      requires 0 < samples.Length && Whole(samples.Length)
      ensures Valid() && pattern == samples && pos == 0
    {
      pattern := samples;
      pos := 0;
    }

    /** The copying of one piece to buf[at..], below end. */
    static method Write(buf: array<byte>, at: nat, src: seq<byte>, end: nat)
      requires at + |src| <= end <= buf.Length
      modifies buf
      ensures buf[..at + |src|] == old(buf[..at]) + src
      ensures buf[end..] == old(buf[end..])
    {
      CopyInto(buf, at, src);
    }

    /** n bytes of the pattern from the sample that holds position from. */
    method Samples(from: nat, n: nat) returns (r: seq<byte>)
      requires Whole(from) && from + n <= pattern.Length
      ensures r == pattern[..][from..from + n]
    {
      r := pattern[from / 2 * 2..from / 2 * 2 + n];
    }

    /** app_factorymode_output_pcmpatten for a whole number of samples. */
    method Output(buf: array<byte>, len: nat)
      requires Valid() && buf != pattern && len <= buf.Length && Whole(len)
      modifies this, buf
      ensures Valid() && pos == Position(pattern.Length, old(pos), len)
      ensures buf[..len] == Cycle(pattern[..], old(pos), len)
      ensures buf[len..] == old(buf[len..])
    {
      hide Cycle, Position;
      if len > pattern.Length {
        OutputLong(buf, len);
      } else {
        OutputShort(buf, len);
      }
    }

    method OutputLong(buf: array<byte>, len: nat)
      requires Valid() && buf != pattern && pattern.Length < len <= buf.Length && Whole(len)
      modifies this, buf
      ensures Valid() && pos == Position(pattern.Length, old(pos), len)
      ensures buf[..len] == Cycle(pattern[..], old(pos), len)
      ensures buf[len..] == old(buf[len..])
    {
      hide Cycle, Position, Whole;
      ghost var p, rest, start := pattern[..], buf[len..], pos;
      var remain: nat := len;
      var curr: nat := 0;
      CycleNone(p, pos);
      while remain > 0
        invariant Valid() && pattern[..] == p && remain <= len && Whole(remain)
        invariant remain > 0 && pos > 0 ==> remain == len && pos == start
        invariant remain > 0 ==> curr == len - remain
        invariant remain > 0 && pos == 0 ==> AtStart(p, start, curr)
        invariant remain == 0 ==> pos == Position(|p|, start, len)
        invariant buf[..len - remain] == Cycle(p, start, len - remain)
        invariant buf[len..] == rest
        decreases remain, pos
      {
        WholeDifference(pattern.Length, pos);
        WholeDifference(remain, pattern.Length);
        WholeDifference(remain - pattern.Length, pos);
        if pos > 0 {
          curr := pattern.Length - pos;
          CyclePiece(p, pos, curr);
          var first := Samples(pos, curr);
          Write(buf, 0, first, len);
          assert buf[..curr] == first == Cycle(p, start, curr);
          remain := remain - curr;
          pos := 0;
        } else if remain > pattern.Length {
          Extend(p, start, curr, |p|);
          assert p[..|p|] == p;
          Write(buf, curr, pattern[..], len);
          assert buf[..curr + |p|] == Cycle(p, start, curr) + p;
          curr := curr + pattern.Length;
          remain := remain - pattern.Length;
        } else {
          Extend(p, start, curr, remain);
          var last := pattern[..remain];
          assert last == p[..remain];
          Write(buf, curr, last, len);
          assert buf[..len] == Cycle(p, start, curr) + last;
          pos := remain;
          remain := 0;
        }
      }
    }

    method OutputShort(buf: array<byte>, len: nat)
      requires Valid() && buf != pattern && len <= pattern.Length && len <= buf.Length && Whole(len)
      modifies this, buf
      ensures Valid() && pos == Position(pattern.Length, old(pos), len)
      ensures buf[..len] == Cycle(pattern[..], old(pos), len)
      ensures buf[len..] == old(buf[len..])
    {
      hide Cycle, Position, Whole;
      ghost var p := pattern[..];
      WholeDifference(len, pattern.Length);
      WholeDifference(len - pattern.Length, pos);
      WholeDifference(pos, len);
      if pattern.Length - pos >= len {
        CyclePiece(p, pos, len);
        var first := Samples(pos, len);
        Write(buf, 0, first, len);
        pos := pos + len;
      } else {
        var curr := pattern.Length - pos;
        CyclePiece(p, pos, curr);
        Extend(p, pos, curr, len - curr);
        var first := Samples(pos, curr);
        Write(buf, 0, first, len);
        assert buf[..curr] == first;
        pos := len - curr;
        var second := pattern[..pos];
        assert second == p[..pos];
        Write(buf, curr, second, len);
        assert buf[..len] == first + second;
      }
    }
  }

  /** Playing n bytes from position s ends where the pattern starts. */
  ghost predicate AtStart(p: seq<byte>, s: nat, n: nat)
    requires 0 < |p| && s <= |p|
  {
    Position(|p|, s, n) == 0 || Position(|p|, s, n) == |p|
  }

  /** Once the start of the pattern is reached again, its first m bytes follow. */
  lemma Extend(p: seq<byte>, s: nat, n: nat, m: nat)
    requires 0 < |p| && s <= |p| && m <= |p|
    requires AtStart(p, s, n)
    ensures Cycle(p, s, n + m) == Cycle(p, s, n) + p[..m]
    ensures m > 0 ==> Position(|p|, s, n + m) == m
  {
    hide Cycle, Position;
    CycleSplit(p, s, n, m);
    CyclePiece(p, 0, m);
    FromEnd(p, m);
  }

  function Total(requests: seq<nat>): nat {
    if requests == [] then 0 else requests[0] + Total(requests[1..])
  }

  /** The bytes of one request after the other. */
  function Outputs(p: seq<byte>, s: nat, requests: seq<nat>): seq<byte>
    requires 0 < |p| && s <= |p|
    decreases |requests|
  {
    if requests == [] then []
    else Cycle(p, s, requests[0]) + Outputs(p, Position(|p|, s, requests[0]), requests[1..])
  }

  /** However the playing is cut in requests, the bytes are the cyclic repetition of the pattern. */
  lemma {:induction false} RequestsDoNotMatter(p: seq<byte>, s: nat, requests: seq<nat>)
    requires 0 < |p| && s <= |p|
    ensures Outputs(p, s, requests) == Cycle(p, s, Total(requests))
    decreases |requests|
  {
    if requests != [] {
      var n := requests[0];
      RequestsDoNotMatter(p, Position(|p|, s, n), requests[1..]);
      CycleSplit(p, s, n, Total(requests[1..]));
    }
  }
}
