/**
 The CRC of an mSBC frame header: a byte-wise lookup table, and the bit-serial division it stands for
 (section 12, Appendix B, of the Advanced Audio Distribution Profile 1.3).
 */
module SbcCrc {

  /** The lookup table, sixteen entries to a row. */
  function Lookup(x: bv8): bv8 {
    var lo := x & 0x0F;
    match x >> 4
    case 0 => Row0(lo)
    case 1 => Row1(lo)
    case 2 => Row2(lo)
    case 3 => Row3(lo)
    case 4 => Row4(lo)
    case 5 => Row5(lo)
    case 6 => Row6(lo)
    case 7 => Row7(lo)
    case 8 => Row8(lo)
    case 9 => Row9(lo)
    case 10 => RowA(lo)
    case 11 => RowB(lo)
    case 12 => RowC(lo)
    case 13 => RowD(lo)
    case 14 => RowE(lo)
    case _ => RowF(lo)
  }

  function Row0(lo: bv8): bv8 {
    match lo
    case 0 => 0x00 case 1 => 0x1D case 2 => 0x3A case 3 => 0x27 case 4 => 0x74 case 5 => 0x69 case 6 => 0x4E case 7 => 0x53
    case 8 => 0xE8 case 9 => 0xF5 case 10 => 0xD2 case 11 => 0xCF case 12 => 0x9C case 13 => 0x81 case 14 => 0xA6 case _ => 0xBB
  }

  function Row1(lo: bv8): bv8 {
    match lo
    case 0 => 0xCD case 1 => 0xD0 case 2 => 0xF7 case 3 => 0xEA case 4 => 0xB9 case 5 => 0xA4 case 6 => 0x83 case 7 => 0x9E
    case 8 => 0x25 case 9 => 0x38 case 10 => 0x1F case 11 => 0x02 case 12 => 0x51 case 13 => 0x4C case 14 => 0x6B case _ => 0x76
  }

  function Row2(lo: bv8): bv8 {
    match lo
    case 0 => 0x87 case 1 => 0x9A case 2 => 0xBD case 3 => 0xA0 case 4 => 0xF3 case 5 => 0xEE case 6 => 0xC9 case 7 => 0xD4
    case 8 => 0x6F case 9 => 0x72 case 10 => 0x55 case 11 => 0x48 case 12 => 0x1B case 13 => 0x06 case 14 => 0x21 case _ => 0x3C
  }

  function Row3(lo: bv8): bv8 {
    match lo
    case 0 => 0x4A case 1 => 0x57 case 2 => 0x70 case 3 => 0x6D case 4 => 0x3E case 5 => 0x23 case 6 => 0x04 case 7 => 0x19
    case 8 => 0xA2 case 9 => 0xBF case 10 => 0x98 case 11 => 0x85 case 12 => 0xD6 case 13 => 0xCB case 14 => 0xEC case _ => 0xF1
  }

  function Row4(lo: bv8): bv8 {
    match lo
    case 0 => 0x13 case 1 => 0x0E case 2 => 0x29 case 3 => 0x34 case 4 => 0x67 case 5 => 0x7A case 6 => 0x5D case 7 => 0x40
    case 8 => 0xFB case 9 => 0xE6 case 10 => 0xC1 case 11 => 0xDC case 12 => 0x8F case 13 => 0x92 case 14 => 0xB5 case _ => 0xA8
  }

  function Row5(lo: bv8): bv8 {
    match lo
    case 0 => 0xDE case 1 => 0xC3 case 2 => 0xE4 case 3 => 0xF9 case 4 => 0xAA case 5 => 0xB7 case 6 => 0x90 case 7 => 0x8D
    case 8 => 0x36 case 9 => 0x2B case 10 => 0x0C case 11 => 0x11 case 12 => 0x42 case 13 => 0x5F case 14 => 0x78 case _ => 0x65
  }

  function Row6(lo: bv8): bv8 {
    match lo
    case 0 => 0x94 case 1 => 0x89 case 2 => 0xAE case 3 => 0xB3 case 4 => 0xE0 case 5 => 0xFD case 6 => 0xDA case 7 => 0xC7
    case 8 => 0x7C case 9 => 0x61 case 10 => 0x46 case 11 => 0x5B case 12 => 0x08 case 13 => 0x15 case 14 => 0x32 case _ => 0x2F
  }

  function Row7(lo: bv8): bv8 {
    match lo
    case 0 => 0x59 case 1 => 0x44 case 2 => 0x63 case 3 => 0x7E case 4 => 0x2D case 5 => 0x30 case 6 => 0x17 case 7 => 0x0A
    case 8 => 0xB1 case 9 => 0xAC case 10 => 0x8B case 11 => 0x96 case 12 => 0xC5 case 13 => 0xD8 case 14 => 0xFF case _ => 0xE2
  }

  function Row8(lo: bv8): bv8 {
    match lo
    case 0 => 0x26 case 1 => 0x3B case 2 => 0x1C case 3 => 0x01 case 4 => 0x52 case 5 => 0x4F case 6 => 0x68 case 7 => 0x75
    case 8 => 0xCE case 9 => 0xD3 case 10 => 0xF4 case 11 => 0xE9 case 12 => 0xBA case 13 => 0xA7 case 14 => 0x80 case _ => 0x9D
  }

  function Row9(lo: bv8): bv8 {
    match lo
    case 0 => 0xEB case 1 => 0xF6 case 2 => 0xD1 case 3 => 0xCC case 4 => 0x9F case 5 => 0x82 case 6 => 0xA5 case 7 => 0xB8
    case 8 => 0x03 case 9 => 0x1E case 10 => 0x39 case 11 => 0x24 case 12 => 0x77 case 13 => 0x6A case 14 => 0x4D case _ => 0x50
  }

  function RowA(lo: bv8): bv8 {
    match lo
    case 0 => 0xA1 case 1 => 0xBC case 2 => 0x9B case 3 => 0x86 case 4 => 0xD5 case 5 => 0xC8 case 6 => 0xEF case 7 => 0xF2
    case 8 => 0x49 case 9 => 0x54 case 10 => 0x73 case 11 => 0x6E case 12 => 0x3D case 13 => 0x20 case 14 => 0x07 case _ => 0x1A
  }

  function RowB(lo: bv8): bv8 {
    match lo
    case 0 => 0x6C case 1 => 0x71 case 2 => 0x56 case 3 => 0x4B case 4 => 0x18 case 5 => 0x05 case 6 => 0x22 case 7 => 0x3F
    case 8 => 0x84 case 9 => 0x99 case 10 => 0xBE case 11 => 0xA3 case 12 => 0xF0 case 13 => 0xED case 14 => 0xCA case _ => 0xD7
  }

  function RowC(lo: bv8): bv8 {
    match lo
    case 0 => 0x35 case 1 => 0x28 case 2 => 0x0F case 3 => 0x12 case 4 => 0x41 case 5 => 0x5C case 6 => 0x7B case 7 => 0x66
    case 8 => 0xDD case 9 => 0xC0 case 10 => 0xE7 case 11 => 0xFA case 12 => 0xA9 case 13 => 0xB4 case 14 => 0x93 case _ => 0x8E
  }

  function RowD(lo: bv8): bv8 {
    match lo
    case 0 => 0xF8 case 1 => 0xE5 case 2 => 0xC2 case 3 => 0xDF case 4 => 0x8C case 5 => 0x91 case 6 => 0xB6 case 7 => 0xAB
    case 8 => 0x10 case 9 => 0x0D case 10 => 0x2A case 11 => 0x37 case 12 => 0x64 case 13 => 0x79 case 14 => 0x5E case _ => 0x43
  }

  function RowE(lo: bv8): bv8 {
    match lo
    case 0 => 0xB2 case 1 => 0xAF case 2 => 0x88 case 3 => 0x95 case 4 => 0xC6 case 5 => 0xDB case 6 => 0xFC case 7 => 0xE1
    case 8 => 0x5A case 9 => 0x47 case 10 => 0x60 case 11 => 0x7D case 12 => 0x2E case 13 => 0x33 case 14 => 0x14 case _ => 0x09
  }

  function RowF(lo: bv8): bv8 {
    match lo
    case 0 => 0x7F case 1 => 0x62 case 2 => 0x45 case 3 => 0x58 case 4 => 0x0B case 5 => 0x16 case 6 => 0x31 case 7 => 0x2C
    case 8 => 0x97 case 9 => 0x8A case 10 => 0xAD case 11 => 0xB0 case 12 => 0xE3 case 13 => 0xFE case 14 => 0xD9 case _ => 0xC4
  }

  function Xor(x: bv8, y: bv8): bv8 { x ^ y }

  /** The header check's register after running the table over `data`. */
  function Fold(crc: bv8, data: seq<bv8>): bv8
    decreases |data|
  {
    if data == [] then crc else Fold(Lookup(Xor(crc, data[0])), data[1..])
  }

  /** One zero bit through the divider for x^8 + x^4 + x^3 + x^2 + 1. */
  function Shift(crc: bv8): bv8 {
    if crc & 0x80 != 0 then (crc << 1) ^ 0x1D else crc << 1
  }

  function Shifts(crc: bv8, n: nat): bv8
    decreases n
  {
    if n == 0 then crc else Shifts(Shift(crc), n - 1)
  }

  function Shift8(crc: bv8): bv8 {
    Shift(Shift(Shift(Shift(Shift(Shift(Shift(Shift(crc))))))))
  }

  lemma ShiftsEight(crc: bv8)
    ensures Shifts(crc, 8) == Shift8(crc)
  {
    var c2 := Shift(Shift(crc));
    var c4 := Shift(Shift(c2));
    var c6 := Shift(Shift(c4));
    assert Shifts(crc, 8) == Shifts(c2, 6);
    assert Shifts(c2, 6) == Shifts(c4, 4);
    assert Shifts(c4, 4) == Shifts(c6, 2);
  }

  /** Every table entry is its index shifted through the divider eight times. */
  lemma TableIsShift8(x: bv8)
    ensures Lookup(x) == Shift8(x)
  {
    var lo := x & 0x0F;
    match x >> 4 {
      case 0 => assert x == lo | 0x00; Entries0(lo);
      case 1 => assert x == lo | 0x10; Entries1(lo);
      case 2 => assert x == lo | 0x20; Entries2(lo);
      case 3 => assert x == lo | 0x30; Entries3(lo);
      case 4 => assert x == lo | 0x40; Entries4(lo);
      case 5 => assert x == lo | 0x50; Entries5(lo);
      case 6 => assert x == lo | 0x60; Entries6(lo);
      case 7 => assert x == lo | 0x70; Entries7(lo);
      case 8 => assert x == lo | 0x80; Entries8(lo);
      case 9 => assert x == lo | 0x90; Entries9(lo);
      case 10 => assert x == lo | 0xA0; EntriesA(lo);
      case 11 => assert x == lo | 0xB0; EntriesB(lo);
      case 12 => assert x == lo | 0xC0; EntriesC(lo);
      case 13 => assert x == lo | 0xD0; EntriesD(lo);
      case 14 => assert x == lo | 0xE0; EntriesE(lo);
      case _ => assert x == lo | 0xF0; EntriesF(lo);
    }
  }

  lemma Entries0(lo: bv8)
    requires lo < 16
    ensures Row0(lo) == Shift8(lo | 0x00)
  {}

  lemma Entries1(lo: bv8)
    requires lo < 16
    ensures Row1(lo) == Shift8(lo | 0x10)
  {}

  lemma Entries2(lo: bv8)
    requires lo < 16
    ensures Row2(lo) == Shift8(lo | 0x20)
  {}

  lemma Entries3(lo: bv8)
    requires lo < 16
    ensures Row3(lo) == Shift8(lo | 0x30)
  {}

  lemma Entries4(lo: bv8)
    requires lo < 16
    ensures Row4(lo) == Shift8(lo | 0x40)
  {}

  lemma Entries5(lo: bv8)
    requires lo < 16
    ensures Row5(lo) == Shift8(lo | 0x50)
  {}

  lemma Entries6(lo: bv8)
    requires lo < 16
    ensures Row6(lo) == Shift8(lo | 0x60)
  {}

  lemma Entries7(lo: bv8)
    requires lo < 16
    ensures Row7(lo) == Shift8(lo | 0x70)
  {}

  lemma Entries8(lo: bv8)
    requires lo < 16
    ensures Row8(lo) == Shift8(lo | 0x80)
  {}

  lemma Entries9(lo: bv8)
    requires lo < 16
    ensures Row9(lo) == Shift8(lo | 0x90)
  {}

  lemma EntriesA(lo: bv8)
    requires lo < 16
    ensures RowA(lo) == Shift8(lo | 0xA0)
  {}

  lemma EntriesB(lo: bv8)
    requires lo < 16
    ensures RowB(lo) == Shift8(lo | 0xB0)
  {}

  lemma EntriesC(lo: bv8)
    requires lo < 16
    ensures RowC(lo) == Shift8(lo | 0xC0)
  {}

  lemma EntriesD(lo: bv8)
    requires lo < 16
    ensures RowD(lo) == Shift8(lo | 0xD0)
  {}

  lemma EntriesE(lo: bv8)
    requires lo < 16
    ensures RowE(lo) == Shift8(lo | 0xE0)
  {}

  lemma EntriesF(lo: bv8)
    requires lo < 16
    ensures RowF(lo) == Shift8(lo | 0xF0)
  {}

  // ----- The table computes the bit-serial division. -----

  /** One message bit, most significant first, enters the divider. */
  function Feed(crc: bv8, bit: bool): bv8 {
    if (crc & 0x80 != 0) != bit then (crc << 1) ^ 0x1D else crc << 1
  }

  /** The bit-serial division of a whole bit string. */
  function Divide(crc: bv8, bits: seq<bool>): bv8
    decreases |bits|
  {
    if bits == [] then crc else Divide(Feed(crc, bits[0]), bits[1..])
  }

  /** The top `n` bits of a byte, most significant first. */
  function TopBits(b: bv8, n: nat): seq<bool>
    decreases n
  {
    if n == 0 then [] else [b & 0x80 != 0] + TopBits(b << 1, n - 1)
  }

  function Bits(data: seq<bv8>): seq<bool> {
    if data == [] then [] else TopBits(data[0], 8) + Bits(data[1..])
  }

  lemma FeedIsShift(crc: bv8, b: bv8)
    ensures Xor(Feed(crc, b & 0x80 != 0), b << 1) == Shift(Xor(crc, b))
  {}

  /** What is left of a byte after its top `n` bits went out. */
  function Rest(b: bv8, n: nat): bv8
    decreases n
  {
    if n == 0 then b else Rest(b << 1, n - 1)
  }

  lemma RestOfAll(b: bv8)
    ensures Rest(b, 8) == 0
  {
    assert Rest(b, 8) == Rest(b << 1 << 1 << 1, 5);
    assert Rest(b << 1 << 1 << 1, 5) == Rest(b << 1 << 1 << 1 << 1 << 1 << 1, 2);
  }

  /** Feeding `n` bits of a byte is shifting the register with the byte folded in. */
  lemma {:induction false} DivideByte(crc: bv8, b: bv8, n: nat)
    ensures Xor(Divide(crc, TopBits(b, n)), Rest(b, n)) == Shifts(Xor(crc, b), n)
    decreases n
  {
    hide Feed, Shift, Xor;
    if n > 0 {
      var top := b & 0x80 != 0;
      FeedIsShift(crc, b);
      assert TopBits(b, n)[1..] == TopBits(b << 1, n - 1);
      DivideByte(Feed(crc, top), b << 1, n - 1);
    }
  }

  lemma {:induction false} DivideAppend(crc: bv8, a: seq<bool>, b: seq<bool>)
    ensures Divide(crc, a + b) == Divide(Divide(crc, a), b)
    decreases |a|
  {
    if a == [] {
      assert a + b == b;
    } else {
      assert (a + b)[0] == a[0] && (a + b)[1..] == a[1..] + b;
      DivideAppend(Feed(crc, a[0]), a[1..], b);
    }
  }

  lemma LookupIsDivision(crc: bv8, b: bv8)
    ensures Lookup(Xor(crc, b)) == Divide(crc, TopBits(b, 8))
  {
    assert forall x: bv8 :: Xor(x, 0) == x;
    hide *;
    TableIsShift8(Xor(crc, b));
    ShiftsEight(Xor(crc, b));
    DivideByte(crc, b, 8);
    RestOfAll(b);
  }

  /** Folding the table over any bytes is dividing their bits, from the same register. */
  lemma {:induction false} FoldIsDivision(crc: bv8, data: seq<bv8>)
    ensures Fold(crc, data) == Divide(crc, Bits(data))
    decreases |data|
  {
    if data != [] {
      var b := data[0];
      LookupIsDivision(crc, b);
      hide Lookup, Xor;
      DivideAppend(crc, TopBits(b, 8), Bits(data[1..]));
      FoldIsDivision(Lookup(Xor(crc, b)), data[1..]);
    }
  }

  // ----- Short bursts are always detected. -----

  lemma ShiftInjective(x: bv8, y: bv8)
    ensures Shift(x) == Shift(y) ==> x == y
  {}

  /** The same step without a branch. */
  function Masked(crc: bv8): bv8 {
    (crc << 1) ^ ((0 - (crc >> 7)) & 0x1D)
  }

  lemma MaskedIsShift(crc: bv8)
    ensures Masked(crc) == Shift(crc)
  {}

  lemma MaskedLinear(x: bv8, y: bv8)
    ensures Masked(Xor(x, y)) == Xor(Masked(x), Masked(y))
  {}

  lemma ShiftLinear(x: bv8, y: bv8)
    ensures Shift(Xor(x, y)) == Xor(Shift(x), Shift(y))
  {
    hide *;
    MaskedIsShift(x);
    MaskedIsShift(y);
    MaskedIsShift(Xor(x, y));
    MaskedLinear(x, y);
  }

  lemma {:induction false} ShiftsInjective(x: bv8, y: bv8, n: nat)
    ensures Shifts(x, n) == Shifts(y, n) ==> x == y
    decreases n
  {
    hide Shift;
    if n > 0 {
      ShiftInjective(x, y);
      ShiftsInjective(Shift(x), Shift(y), n - 1);
    }
  }

  lemma {:induction false} ShiftsLinear(x: bv8, y: bv8, n: nat)
    ensures Shifts(Xor(x, y), n) == Xor(Shifts(x, n), Shifts(y, n))
    decreases n
  {
    hide Shift, Xor;
    if n > 0 {
      ShiftLinear(x, y);
      ShiftsLinear(Shift(x), Shift(y), n - 1);
    }
  }

  lemma LookupInjective(x: bv8, y: bv8)
    ensures Lookup(x) == Lookup(y) ==> x == y
  {
    hide *;
    TableIsShift8(x);
    TableIsShift8(y);
    ShiftsEight(x);
    ShiftsEight(y);
    ShiftsInjective(x, y, 8);
  }

  lemma LookupLinear(x: bv8, y: bv8)
    ensures Lookup(Xor(x, y)) == Xor(Lookup(x), Lookup(y))
  {
    hide *;
    TableIsShift8(x);
    TableIsShift8(y);
    TableIsShift8(Xor(x, y));
    ShiftsEight(x);
    ShiftsEight(y);
    ShiftsEight(Xor(x, y));
    ShiftsLinear(x, y, 8);
  }

  lemma XorCancels(x: bv8, y: bv8, b: bv8)
    ensures Xor(x, b) == Xor(y, b) ==> x == y
  {}

  /** Different registers stay different over the same data. */
  lemma {:induction false} FoldInjective(x: bv8, y: bv8, data: seq<bv8>)
    ensures Fold(x, data) == Fold(y, data) ==> x == y
    decreases |data|
  {
    hide Lookup, Xor;
    if data != [] {
      var b := data[0];
      XorCancels(x, y, b);
      LookupInjective(Xor(x, b), Xor(y, b));
      FoldInjective(Lookup(Xor(x, b)), Lookup(Xor(y, b)), data[1..]);
    }
  }

  /** The sixteen bits `hi` `lo` are a nonzero pattern within eight consecutive bits. */
  predicate InBurst(hi: bv8, lo: bv8) {
    var w := ((hi as bv16) << 8) | (lo as bv16);
    w != 0 && (w & 0x00FF == w || w & 0x01FE == w || w & 0x03FC == w || w & 0x07F8 == w || w & 0x0FF0 == w
               || w & 0x1FE0 == w || w & 0x3FC0 == w || w & 0x7F80 == w || w & 0xFF00 == w)
  }

  lemma BurstRemains(hi: bv8, lo: bv8)
    requires InBurst(hi, lo)
    ensures Shift8(hi) != lo
  {}

  /** Two strings of one length that differ only in eight consecutive bits, which begin in byte `i`. */
  ghost predicate DifferInBurst(a: seq<bv8>, b: seq<bv8>, i: nat) {
    && |a| == |b| && i < |a|
    && (forall k :: 0 <= k < |a| && k != i && k != i + 1 ==> a[k] == b[k])
    && InBurst(Xor(a[i], b[i]), if i + 1 < |a| then Xor(a[i + 1], b[i + 1]) else 0)
  }

  lemma XorFacts(c: bv8, x: bv8, y: bv8)
    ensures Xor(Xor(c, x), Xor(c, y)) == Xor(x, y)
    ensures Xor(c, x) == Xor(c, y) ==> x == y
    ensures Xor(x, y) == 0 <==> x == y
  {}

  lemma CrossXor(p: bv8, q: bv8, x: bv8, y: bv8)
    ensures Xor(p, x) == Xor(q, y) ==> Xor(p, q) == Xor(x, y)
  {}

  /** After the first byte of a burst the registers differ by something its second byte cannot undo. */
  lemma RegistersDiffer(crc: bv8, x: bv8, y: bv8, lo: bv8)
    requires InBurst(Xor(x, y), lo)
    ensures Xor(Lookup(Xor(crc, x)), Lookup(Xor(crc, y))) != lo
  {
    hide *;
    XorFacts(crc, x, y);
    BurstRemains(Xor(x, y), lo);
    TableIsShift8(Xor(x, y));
    LookupLinear(Xor(crc, x), Xor(crc, y));
  }

  lemma BurstChangesFold(crc: bv8, a: seq<bv8>, b: seq<bv8>)
    requires DifferInBurst(a, b, 0)
    ensures Fold(crc, a) != Fold(crc, b)
  {
    hide Lookup, Xor, InBurst;
    var p, q := Lookup(Xor(crc, a[0])), Lookup(Xor(crc, b[0]));
    RegistersDiffer(crc, a[0], b[0], if |a| > 1 then Xor(a[1], b[1]) else 0);
    if |a| == 1 {
      XorFacts(0, p, q);
      assert a[1..] == [] && b[1..] == [];
      assert Fold(p, a[1..]) == p && Fold(q, b[1..]) == q;
    } else {
      CrossXor(p, q, a[1], b[1]);
      LookupInjective(Xor(p, a[1]), Xor(q, b[1]));
      assert a[1..][1..] == b[1..][1..];
      FoldInjective(Lookup(Xor(p, a[1])), Lookup(Xor(q, b[1])), a[1..][1..]);
    }
  }

  /** Strings that differ only within a burst of at most eight bits never share a CRC. */
  lemma {:induction false} BurstIsDetected(crc: bv8, a: seq<bv8>, b: seq<bv8>, i: nat)
    requires DifferInBurst(a, b, i)
    ensures Fold(crc, a) != Fold(crc, b)
    decreases |a|
  {
    if i == 0 {
      BurstChangesFold(crc, a, b);
    } else {
      assert a[0] == b[0];
      assert DifferInBurst(a[1..], b[1..], i - 1);
      BurstIsDetected(Lookup(Xor(crc, a[0])), a[1..], b[1..], i - 1);
    }
  }
}
