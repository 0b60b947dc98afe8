/**
 The ring of compressed audio shared by the two cores: the MCU moves bytes into it from the
 receive queue, the co-processor takes them out. One byte is always left free, so that equal
 positions mean an empty ring. InCacheProtocol.dfy proves the same ring under interleaving.
 */
module InCaches {
  import opened Ring
  import opened CQueues

  /** Bytes between the read and the write position. */
  function InUse(wpos: nat, rpos: nat, size: nat): (n: nat)
    requires wpos < size && rpos < size
    ensures n < size && (n == 0 <==> wpos == rpos)
  {
    Dist(rpos, wpos, size)
  }

  function Free(wpos: nat, rpos: nat, size: nat): (n: nat)
    requires wpos < size && rpos < size
    ensures n + InUse(wpos, rpos, size) + 1 == size
  {
    if wpos < rpos then rpos - wpos - 1 else size - wpos + rpos - 1
  }

  /** Consuming `k` bytes moves the read position and shrinks the contents by as much. */
  lemma InUseConsumed(wpos: nat, rpos: nat, k: nat, size: nat)
    requires wpos < size && rpos < size && k <= InUse(wpos, rpos, size)
    ensures InUse(wpos, Advance(rpos, k, size), size) == InUse(wpos, rpos, size) - k
  {}

  /** Publishing `k` bytes moves the write position and grows the contents by as much. */
  lemma InUseProduced(wpos: nat, rpos: nat, k: nat, size: nat)
    requires wpos < size && rpos < size && k <= Free(wpos, rpos, size)
    ensures InUse(Advance(wpos, k, size), rpos, size) == InUse(wpos, rpos, size) + k
    ensures Advance(rpos, InUse(wpos, rpos, size), size) == wpos
  {}

  class InCache {
    const cache: array<byte>
    var wpos: nat
    var rpos: nat

    ghost predicate Valid()
      reads this
    {
      wpos < cache.Length && rpos < cache.Length
    }

    /** The bytes loaded and not yet consumed, oldest first. */
    ghost function Contents(): (s: seq<byte>)
      requires Valid()
      reads this, cache
      ensures |s| == InUse(wpos, rpos, cache.Length)
    {
      Gather(cache[..], rpos, InUse(wpos, rpos, cache.Length))
    }

    constructor (buf: array<byte>)
      requires buf.Length > 0
      ensures Valid() && cache == buf && Contents() == []
    {
      cache := buf;
      wpos, rpos := 0, 0;
    }

    /** A flat copy into the ring memory. */
    method Store(pos: nat, data: seq<byte>)
      requires pos < cache.Length && pos + |data| <= cache.Length
      modifies cache
      ensures cache[..] == Overwrite(old(cache[..]), pos, data)
    {
      CopyInto(cache, pos, data);
      OverwriteFlat(old(cache[..]), pos, data);
    }

    /** Stores one queue piece of which only `fit` bytes fit before the end of the ring. */
    method StorePiece(pos: nat, data: seq<byte>, fit: nat) returns (next: nat)
      requires pos < cache.Length && |data| <= cache.Length
      requires pos + fit == cache.Length || (pos + fit <= cache.Length && |data| <= fit)
      modifies cache
      ensures cache[..] == Overwrite(old(cache[..]), pos, data)
      ensures next == Advance(pos, |data|, cache.Length)
    {
      ghost var mem := cache[..];
      var first := if fit > |data| then |data| else fit;
      Store(pos, data[..first]);
      next := Advance(pos, first, cache.Length);
      var rest := data[first..];
      assert data[..first] + rest == data;
      if |rest| != 0 {
        Store(next, rest);
        OverwriteTwice(mem, pos, data[..first], rest);
        AdvanceSum(pos, first, |rest|, cache.Length);
        next := Advance(next, |rest|, cache.Length);
      } else {
        assert data[..first] == data;
      }
    }

    /** Stores the two queue pieces one after the other from write position `w` on. */
    method StorePieces(w0: nat, r: nat, e1: seq<byte>, e2: seq<byte>) returns (w: nat)
      requires w0 < cache.Length && r < cache.Length && |e1| + |e2| <= Free(w0, r, cache.Length)
      modifies cache
      ensures cache[..] == Overwrite(old(cache[..]), w0, e1 + e2)
      ensures w == Advance(w0, |e1| + |e2|, cache.Length)
    {
      ghost var mem := cache[..];
      w := w0;
      if w < r {
        if |e1| != 0 {
          Store(w, e1);
          w := w + |e1|;
        }
        assert cache[..] == Overwrite(mem, w0, e1);
        if |e2| != 0 {
          Store(w, e2);
          w := w + |e2|;
        }
      } else {
        var fit := cache.Length - w;
        if |e1| != 0 {
          w := StorePiece(w, e1, fit);
          fit := if w < r then r - w - 1 else cache.Length - w;
        }
        assert cache[..] == Overwrite(mem, w0, e1);
        if |e2| != 0 {
          w := StorePiece(w, e2, fit);
        }
      }
      OverwriteTwice(mem, w0, e1, e2);
      assert e2 == [] ==> e1 + e2 == e1;
    }

    /**
     Moves as much of the receive queue into the ring as fits. The queue hands its bytes over in
     two pieces and each piece may have to be cut again at the end of the ring.
     */
    method Load(queue: CQueue) returns (ret: int)
      requires Valid() && queue.Valid() && queue.base != cache
      modifies this`wpos, cache, queue
      ensures Valid() && queue.Valid()
      ensures ret == 0
      ensures var was := old(queue.Contents());
        var n := Min(|was|, old(Free(wpos, rpos, cache.Length)));
        && Contents() == old(Contents()) + was[..n]
        && queue.Contents() == was[n..]
        && cache[..] == Overwrite(old(cache[..]), old(wpos), was[..n])
        && wpos == Advance(old(wpos), n, cache.Length)
    {
      var w, r := wpos, rpos;
      var freeLen := Free(w, r, cache.Length);
      if freeLen == 0 {
        assert queue.Contents()[..0] == [];
        return 0;
      }
      var n := queue.len;
      if n > freeLen {
        n := freeLen;
      }
      var ok, e1, e2 := queue.Peek(n);
      if !ok {
        assert false;
        return 1;
      }
      assert |e1| + |e2| == |e1 + e2| == n;
      GatherAppended(cache[..], r, InUse(w, r, cache.Length), e1 + e2);
      w := StorePieces(w, r, e1, e2);
      AdvanceSum(r, InUse(wpos, r, cache.Length), n, cache.Length);
      wpos := w;
      ok := queue.Dequeue(n);
      ret := 0;
    }

    /** Copies the next `n` bytes out without consuming them. */
    method GetData(n: nat, in_wpos: nat, in_rpos: nat) returns (data: seq<byte>)
      requires in_wpos < cache.Length && in_rpos < cache.Length
      requires n <= InUse(in_wpos, in_rpos, cache.Length)
      ensures data == Gather(cache[..], in_rpos, n)
    {
      GatherFlat(cache[..], in_rpos, n);
      if in_wpos > in_rpos || cache.Length >= in_rpos + n {
        data := cache[in_rpos..in_rpos + n];
      } else {
        var first := cache.Length - in_rpos;
        data := cache[in_rpos..] + cache[..n - first];
      }
    }
  }
}
