/**
 mSBC frames on the call link: how the sender numbers them and how the receiver checks the two-byte
 synchronization header (section 5.7.2 of the Hands-Free Profile 1.6) and the frame CRC.
 */
module MsbcFraming {
  import opened SbcCrc

  const PACKET_SIZE := 60
  const ENCODED_SIZE := 57
  const CRC_START: bv8 := 0x0F
  const NO_NUMBER: bv8 := 0xFF

  type Packet = seq<bv8>

  // ----- The sender. -----

  /** The second header byte for sequence number `n` modulo 4: each number bit is sent twice. */
  function NumberByte(n: nat): (b: bv8) {
    if n % 4 == 0 then 0x08 else if n % 4 == 1 then 0x38 else if n % 4 == 2 then 0xC8 else 0xF8
  }

  class Sender {
    var counter: bv8
    /** How many numbers have been handed out. */
    ghost var count: nat

    ghost predicate Valid()
      reads this
    {
      counter == NumberByte(count)
    }

    constructor ()
      ensures Valid() && count == 0
    {
      counter, count := 0x08, 0;
    }

    method NextCounter() returns (c: bv8)
      requires Valid()
      modifies this
      ensures Valid() && count == old(count) + 1 && c == NumberByte(count)
    {
      if counter == 0x08 {
        counter := 0x38;
      } else if counter == 0x38 {
        counter := 0xC8;
      } else if counter == 0xC8 {
        counter := 0xF8;
      } else if counter == 0xF8 {
        counter := 0x08;
      }
      c, count := counter, count + 1;
    }

    /** The bytes sent for one encoded frame: header, frame, padding. */
    method Build(enc: seq<bv8>) returns (pkt: Packet)
      requires Valid()
      modifies this
      ensures Valid() && count == old(count) + 1 && pkt == Sent(count, enc)
    {
      var c := NextCounter();
      pkt := [0x01, c] + enc + [0x00];
    }
  }

  ghost function Sent(n: nat, enc: seq<bv8>): Packet {
    [0x01, NumberByte(n)] + enc + [0x00]
  }

  // ----- The receiver's header check. -----

  /** The bytes the CRC covers: all header fields but the CRC itself, and the scale factors. */
  function Covered(buf: Packet): (c: seq<bv8>)
    requires |buf| >= 10
    ensures |c| == 6
  {
    [buf[3], buf[4], buf[6], buf[7], buf[8], buf[9]]
  }

  /** The check of one packet: an error code, and the sequence number when there is none. */
  function Parse(buf: Packet): (int, bv8)
    requires |buf| >= 10
  {
    var sn1, sn2 := (buf[1] & 0x30) >> 4, (buf[1] & 0xC0) >> 6;
    if buf[0] != 0x01 || buf[1] & 0x0F != 0x08 || buf[2] != 0xAD then (-1, NO_NUMBER)
    else if sn1 != 0 && sn1 != 3 then (-2, NO_NUMBER)
    else if sn2 != 0 && sn2 != 3 then (-3, NO_NUMBER)
    else if buf[3] != 0 || buf[4] != 0 || Fold(CRC_START, Covered(buf)) != buf[5] then (-4, NO_NUMBER)
    else (0, (sn1 & 1) | (sn2 & 2))
  }

  lemma FoldTwo(crc: bv8, data: seq<bv8>)
    requires |data| >= 2
    ensures Fold(crc, data) == Fold(Lookup(Xor(Lookup(Xor(crc, data[0])), data[1])), data[2..])
  {
    hide Lookup, Xor;
    assert data[1..][1..] == data[2..];
  }

  method ParseHeader(buf: Packet) returns (err: int, sn: bv8)
    requires |buf| >= 10
    ensures (err, sn) == Parse(buf)
  {
    hide Lookup, Xor, Fold;
    sn := NO_NUMBER;
    if buf[0] != 0x01 || buf[1] & 0x0F != 0x08 || buf[2] != 0xAD {
      return -1, sn;
    }
    var sn1, sn2 := (buf[1] & 0x30) >> 4, (buf[1] & 0xC0) >> 6;
    if sn1 != 0 && sn1 != 3 {
      return -2, sn;
    }
    if sn2 != 0 && sn2 != 3 {
      return -3, sn;
    }
    var fcs := Lookup(Xor(CRC_START, buf[3]));
    if buf[3] != 0 {
      return -4, sn;
    }
    fcs := Lookup(Xor(fcs, buf[4]));
    if buf[4] != 0 {
      return -4, sn;
    }
    FoldTwo(CRC_START, Covered(buf));
    assert Covered(buf)[2..] == [buf[6], buf[7], buf[8], buf[9]];
    fcs := FoldScaleFactors(buf, fcs);
    if buf[5] != fcs {
      return -4, sn;
    }
    return 0, (sn1 & 1) | (sn2 & 2);
  }

  /** The loop walks half bytes; only every second step folds a byte, and the half-byte case never arises. */
  method FoldScaleFactors(buf: Packet, start: bv8) returns (fcs: bv8)
    requires |buf| >= 10
    ensures fcs == Fold(start, [buf[6], buf[7], buf[8], buf[9]])
  {
    hide Lookup, Xor;
    var ind, bitOffset := 6, 24;
    ghost var four := [buf[6], buf[7], buf[8], buf[9]];
    fcs := start;
    for sb := 0 to 8
      invariant bitOffset == 24 + 4 * sb && ind == 6 + sb / 2
      invariant Fold(start, four) == Fold(fcs, four[ind - 6..])
    {
      if bitOffset % 8 != 0 {
        assert four[ind - 6..][1..] == four[ind - 5..];
        fcs := Lookup(Xor(fcs, buf[ind]));
        ind := ind + 1;
      } else if sb == 7 {
        assert false;
      }
      bitOffset := bitOffset + 4;
    }
  }

  /** A packet the receiver accepts, with number `n` modulo 4. */
  ghost predicate Good(pkt: Packet, n: nat) {
    && |pkt| == PACKET_SIZE
    && pkt[0] == 0x01 && pkt[1] == NumberByte(n) && pkt[2] == 0xAD
    && pkt[3] == 0 && pkt[4] == 0 && pkt[5] == Fold(CRC_START, Covered(pkt))
  }

  function Code(n: nat): bv8 {
    if n % 4 == 0 then 0 else if n % 4 == 1 then 1 else if n % 4 == 2 then 2 else 3
  }

  /** The receiver accepts exactly the packets with one of the sender's four headers and a right CRC. */
  lemma AcceptsExactlyGood(pkt: Packet, n: nat)
    requires |pkt| == PACKET_SIZE
    ensures Parse(pkt) == (0, Code(n)) <==> Good(pkt, n)
  {
    hide Fold;
  }

  /** The bytes that are the same in every header. */
  ghost predicate Fixed(buf: Packet)
    requires |buf| >= 10
  {
    buf[0] == 0x01 && buf[1] & 0x0F == 0x08 && buf[2] == 0xAD
  }

  /** The two copies of the lower number bit, and those of the upper one, agree. */
  ghost predicate LowerAgrees(b: bv8) { b & 0x10 != 0 <==> b & 0x20 != 0 }
  ghost predicate UpperAgrees(b: bv8) { b & 0x40 != 0 <==> b & 0x80 != 0 }

  /** The error codes: a fixed byte, a number bit whose copies differ, or what the CRC covers, in this order. */
  lemma ErrorsTell(buf: Packet)
    requires |buf| >= 10
    ensures var err := Parse(buf).0;
      && (err == -1 <==> !Fixed(buf))
      && (err == -2 <==> Fixed(buf) && !LowerAgrees(buf[1]))
      && (err == -3 <==> Fixed(buf) && LowerAgrees(buf[1]) && !UpperAgrees(buf[1]))
      && (err == 0 || err == -4 <==> Fixed(buf) && LowerAgrees(buf[1]) && UpperAgrees(buf[1]))
  {
    hide Fold, Covered;
    var b := buf[1];
    assert LowerAgrees(b) <==> (b & 0x30) >> 4 == 0 || (b & 0x30) >> 4 == 3;
    assert UpperAgrees(b) <==> (b & 0xC0) >> 6 == 0 || (b & 0xC0) >> 6 == 3;
  }

  /** An encoded frame as the codec produces it: sync word, zero reserved bytes, and its CRC. */
  ghost predicate Encoded(enc: seq<bv8>) {
    && |enc| == ENCODED_SIZE && enc[0] == 0xAD && enc[1] == 0 && enc[2] == 0
    && enc[3] == Fold(CRC_START, [enc[1], enc[2], enc[4], enc[5], enc[6], enc[7]])
  }

  lemma SentIsGood(n: nat, enc: seq<bv8>)
    requires Encoded(enc)
    ensures Good(Sent(n, enc), n)
  {
    var pkt := Sent(n, enc);
    assert Covered(pkt) == [enc[1], enc[2], enc[4], enc[5], enc[6], enc[7]];
  }

  /** A packet has the size of the link's, and the decoder finds in it every byte of the encoded frame. */
  lemma SentCarriesFrame(n: nat, enc: seq<bv8>)
    requires |enc| == ENCODED_SIZE
    ensures var pkt := Sent(n, enc);
      && |pkt| == PACKET_SIZE
      && pkt[2..2 + ENCODED_SIZE] == enc
      && pkt[PACKET_SIZE - 1] == 0x00
  {}

  /** A burst of at most eight bits within the covered bytes is always noticed. */
  lemma BurstInHeaderIsNoticed(a: Packet, b: Packet, i: nat)
    requires |a| >= 10 && |b| >= 10 && DifferInBurst(Covered(a), Covered(b), i) && a[5] == b[5]
    ensures !(Parse(a).0 == 0 && Parse(b).0 == 0)
  {
    hide Fold, DifferInBurst;
    BurstIsDetected(CRC_START, Covered(a), Covered(b), i);
  }
}
