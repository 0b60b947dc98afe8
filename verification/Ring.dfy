/**
 Addressing in a fixed-size circular buffer, and the byte copy that fills it. The compressed-audio
 queue, the inter-core ring and the echo ring all address memory this way.
 */
module Ring {
  newtype byte = x: int | 0 <= x < 256

  function Min(a: nat, b: nat): nat {
    if a <= b then a else b
  }

  /** The position `n` places after `pos`. */
  function Advance(pos: nat, n: nat, size: nat): (r: nat)
    requires pos < size && n <= size
    ensures r < size
  {
    if pos + n >= size then pos + n - size else pos + n
  }

  /** How many places forward of `from` the position `to` lies. */
  function Dist(from: nat, to: nat, size: nat): (r: nat)
    requires from < size && to < size
    ensures r < size && Advance(from, r, size) == to
  {
    if to >= from then to - from else size - from + to
  }

  /** The `n` elements met walking forward from `pos`. */
  function Gather<T>(buf: seq<T>, pos: nat, n: nat): (r: seq<T>)
    requires pos < |buf| && n <= |buf|
    ensures |r| == n
  {
    seq(n, i requires 0 <= i < n => buf[Advance(pos, i, |buf|)])
  }

  /** `buf` after `data` was laid down walking forward from `pos`. */
  function Overwrite<T>(buf: seq<T>, pos: nat, data: seq<T>): (r: seq<T>)
    requires pos < |buf| && |data| <= |buf|
    ensures |r| == |buf|
  {
    seq(|buf|, k requires 0 <= k < |buf| =>
      if Dist(pos, k, |buf|) < |data| then data[Dist(pos, k, |buf|)] else buf[k])
  }

  lemma AdvanceSum(pos: nat, a: nat, b: nat, size: nat)
    requires pos < size && a + b <= size
    ensures Advance(Advance(pos, a, size), b, size) == Advance(pos, a + b, size)
  {}

  lemma AdvanceIsMod(pos: nat, n: nat, size: nat)
    requires pos < size && n <= size
    ensures (pos + n) % size == Advance(pos, n, size)
  {
    if pos + n >= size {
      assert pos + n == size + Advance(pos, n, size);
    }
  }

  /** Walking a + b places is walking a places and then b more. */
  lemma GatherSplit<T>(buf: seq<T>, pos: nat, a: nat, b: nat)
    requires pos < |buf| && a + b <= |buf|
    ensures Gather(buf, pos, a + b) == Gather(buf, pos, a) + Gather(buf, Advance(pos, a, |buf|), b)
  {
    var whole, parts := Gather(buf, pos, a + b), Gather(buf, pos, a) + Gather(buf, Advance(pos, a, |buf|), b);
    forall i | 0 <= i < a + b ensures whole[i] == parts[i] {
      if i >= a { AdvanceSum(pos, a, i - a, |buf|); }
    }
  }

  /** Skipping the first `k` elements of a walk starts it `k` places later. */
  lemma GatherDrop<T>(buf: seq<T>, pos: nat, k: nat, n: nat)
    requires pos < |buf| && k <= n <= |buf|
    ensures Gather(buf, pos, n)[..k] == Gather(buf, pos, k)
    ensures Gather(buf, pos, n)[k..] == Gather(buf, Advance(pos, k, |buf|), n - k)
  {
    GatherSplit(buf, pos, k, n - k);
  }

  /** Laying data down and reading it back returns it. */
  lemma GatherOverwritten<T>(buf: seq<T>, pos: nat, data: seq<T>)
    requires pos < |buf| && |data| <= |buf|
    ensures Gather(Overwrite(buf, pos, data), pos, |data|) == data
  {}

  /** Data laid down after the first `n` elements leaves those `n` elements alone. */
  lemma GatherUntouched<T>(buf: seq<T>, pos: nat, n: nat, data: seq<T>)
    requires pos < |buf| && n + |data| <= |buf|
    ensures Gather(Overwrite(buf, Advance(pos, n, |buf|), data), pos, n) == Gather(buf, pos, n)
  {}

  /** Appending to the ring's contents: the old elements stay and the new ones follow them. */
  lemma GatherAppended<T>(buf: seq<T>, pos: nat, n: nat, data: seq<T>)
    requires pos < |buf| && n + |data| <= |buf|
    ensures Gather(Overwrite(buf, Advance(pos, n, |buf|), data), pos, n + |data|) == Gather(buf, pos, n) + data
  {
    var after := Overwrite(buf, Advance(pos, n, |buf|), data);
    GatherSplit(after, pos, n, |data|);
    GatherUntouched(buf, pos, n, data);
    GatherOverwritten(buf, Advance(pos, n, |buf|), data);
  }

  lemma OverwriteTwice<T>(buf: seq<T>, pos: nat, a: seq<T>, b: seq<T>)
    requires pos < |buf| && |a| + |b| <= |buf|
    ensures Overwrite(Overwrite(buf, pos, a), Advance(pos, |a|, |buf|), b) == Overwrite(buf, pos, a + b)
  {
    var l, r := Overwrite(Overwrite(buf, pos, a), Advance(pos, |a|, |buf|), b), Overwrite(buf, pos, a + b);
    forall k | 0 <= k < |buf| ensures l[k] == r[k] {}
  }

  lemma OverwriteOne<T>(buf: seq<T>, pos: nat, x: T)
    requires pos < |buf|
    ensures Overwrite(buf, pos, [x]) == buf[pos := x]
  {}

  /** A copy that does not run past the end is a flat copy. */
  lemma OverwriteFlat<T>(buf: seq<T>, pos: nat, data: seq<T>)
    requires pos < |buf| && pos + |data| <= |buf|
    ensures Overwrite(buf, pos, data) == buf[..pos] + data + buf[pos + |data|..]
  {}

  lemma GatherFlat<T>(buf: seq<T>, pos: nat, n: nat)
    requires pos < |buf| && n <= |buf|
    ensures pos + n <= |buf| ==> Gather(buf, pos, n) == buf[pos..pos + n]
    ensures pos + n > |buf| ==> Gather(buf, pos, n) == buf[pos..] + buf[..pos + n - |buf|]
  {}

  /** Copies `src` to `dst` from index `at` on, one element at a time. */
  method CopyInto<T>(dst: array<T>, at: nat, src: seq<T>)
    requires at + |src| <= dst.Length
    modifies dst
    ensures dst[..] == old(dst[..at]) + src + old(dst[at + |src|..])
  {
    for i := 0 to |src|
      invariant forall k :: 0 <= k < dst.Length ==> dst[k] == if at <= k < at + i then src[k - at] else old(dst[k])
    {
      dst[at + i] := src[i];
    }
  }
}
