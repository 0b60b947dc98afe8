/**
 The circular byte queue between the Bluetooth receive path and the audio player: one array,
 a read position, a write position and a length.
 */
module CQueues {
  import opened Ring

  class CQueue {
    const base: array<byte>
    var len: nat
    var read: nat
    var write: nat

    ghost predicate Valid()
      reads this, base
    {
      && read < base.Length && write < base.Length && len <= base.Length
      && write == Advance(read, len, base.Length)
    }

    /** The queued bytes, oldest first. */
    ghost function Contents(): (s: seq<byte>)
      requires Valid()
      reads this, base
      ensures |s| == len
    {
      Gather(base[..], read, len)
    }

    constructor (buf: array<byte>)
      requires buf.Length > 0
      ensures Valid() && base == buf && Contents() == []
    {
      base := buf;
      len, read, write := 0, 0, 0;
    }

    method Available() returns (n: nat)
      requires Valid()
      ensures n == base.Length - len
    {
      n := base.Length - len;
    }

    /** Appends all of `e`, or nothing when it does not fit. */
    method Enqueue(e: seq<byte>) returns (ok: bool)
      requires Valid()
      modifies this, base
      ensures Valid()
      ensures ok <==> old(len) + |e| <= base.Length
      ensures Contents() == old(Contents()) + (if ok then e else [])
    {
      if base.Length - len < |e| {
        return false;
      }
      ghost var was := base[..];
      var bytesToTheEnd := base.Length - write;
      if bytesToTheEnd > |e| {
        CopyInto(base, write, e);
        OverwriteFlat(was, write, e);
      } else {
        CopyInto(base, write, e[..bytesToTheEnd]);
        OverwriteFlat(was, write, e[..bytesToTheEnd]);
        ghost var half := base[..];
        CopyInto(base, 0, e[bytesToTheEnd..]);
        OverwriteFlat(half, 0, e[bytesToTheEnd..]);
        OverwriteTwice(was, write, e[..bytesToTheEnd], e[bytesToTheEnd..]);
        assert e[..bytesToTheEnd] + e[bytesToTheEnd..] == e;
      }
      GatherAppended(was, read, len, e);
      write := if bytesToTheEnd > |e| then write + |e| else |e| - bytesToTheEnd;
      len := len + |e|;
      ok := true;
    }

    /** Drops the oldest `n` bytes, or nothing when there are fewer. */
    method Dequeue(n: nat) returns (ok: bool)
      requires Valid()
      modifies this
      ensures Valid()
      ensures ok <==> n <= old(len)
      ensures Contents() == if ok then old(Contents())[n..] else old(Contents())
    {
      if len < n {
        return false;
      }
      GatherSplit(base[..], read, n, len - n);
      AdvanceSum(read, n, len - n, base.Length);
      AdvanceIsMod(read, n, base.Length);
      read, len := (read + n) % base.Length, len - n;
      ok := true;
    }

    /** The oldest `want` bytes as two pieces, cut where the array ends; both empty on failure. */
    method Peek(want: nat) returns (ok: bool, e1: seq<byte>, e2: seq<byte>)
      requires Valid()
      ensures ok <==> want <= len
      ensures ok ==> e1 + e2 == Contents()[..want]
      ensures !ok ==> e1 == [] && e2 == []
    {
      if len < want {
        return false, [], [];
      }
      GatherSplit(base[..], read, want, len - want);
      GatherFlat(base[..], read, want);
      if write > read || base.Length - read >= want {
        return true, base[read..read + want], [];
      } else {
        return true, base[read..], base[..want - (base.Length - read)];
      }
    }
  }
}
