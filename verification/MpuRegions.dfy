/**
 * Write protection of the fast RAM with two memory protection regions (mpu_armv7m.c). A region is a
 * power of two in size, aligned to its size, and split in eight sub-regions that can be switched off
 * one by one (section B3.5, PMSAv7, of the ARMv7-M Architecture Reference Manual).
 */
module MpuRegions {
  import opened Bits

  const REGIONS: nat := 8
  const NULL_POINTER: nat := 0
  const FRAM_TEXT1: nat := 2
  const FRAM_TEXT2: nat := 3

  const READ_WRITE_EXEC: nat := 0
  const READ_EXEC: nat := 1
  const EXEC: nat := 2
  const READ_WRITE: nat := 3
  const READ: nat := 4
  const NO_ACCESS: nat := 5
  const ATTRIBUTES: nat := 6

  const SMALLEST: nat := 0x80
  const LARGEST: nat := 0x4000

  /** The value -1 of the source, read back as an unsigned size. */
  const NO_SIZE: nat := WORD - 1

  /** The base address register and the attribute and size register of one region. */
  datatype Registers = Registers(rbar: nat, rasr: nat)

  /** A region as the program asks for it. */
  datatype Setting = Setting(addr: Word, len: Word, srd: nat)

  // ---------------------------------------------------------------- register encoding

  const REGION_FIELD: nat := 0xF
  const VALID_FIELD: nat := 0x10
  const ADDR_FIELD: nat := 0xFFFFFFE0
  const SIZE_FIELD: nat := 0x3E
  const SRD_FIELD: nat := 0xFF00
  const AP_FIELD: nat := 0x7000000
  const XN_FIELD: nat := 0x10000000

  /** Type extension 0, shareable, cacheable and bufferable. */
  const ACCESS: nat := 0x70000

  function Xn(attr: nat): nat {
    if attr == READ_WRITE_EXEC || attr == READ_EXEC || attr == EXEC then 0 else 1
  }

  function Ap(attr: nat): nat {
    if attr == READ_WRITE_EXEC || attr == READ_WRITE then 3
    else if attr == READ_EXEC || attr == READ then 6
    else 0
  }

  function Rbar(id: nat, addr: nat): nat {
    Or(Or(And(addr, ADDR_FIELD), And(id, REGION_FIELD)), VALID_FIELD)
  }

  function Rasr(xn: nat, ap: nat, srd: nat, size: nat): nat {
    Or(Or(Or(Or(Or(
      And(xn * 0x10000000, XN_FIELD),
      And(ap * 0x1000000, AP_FIELD)),
      ACCESS),
      And(srd * 0x100, SRD_FIELD)),
      And(size * 2, SIZE_FIELD)),
      1)
  }

  function Encode(id: nat, s: Setting, attr: nat): Registers
    requires s.len > 0
  {
    Registers(Rbar(id, s.addr), Rasr(Xn(attr), Ap(attr), s.srd, (LsbPos(s.len) - 1) % 0x100))
  }

  /** The processor's reading of the registers: does this region apply to address a? */
  ghost predicate Applies(r: Registers, a: Word) {
    var size := r.rasr / 2 % 0x20;
    var len := Pow2(size + 1);
    var base := r.rbar - r.rbar % 0x20;
    && r.rasr % 2 == 1
    && Div(a, len) == Div(base, len)
    && (size < 7 || !Bit(r.rasr / 0x100 % 0x100, Div(a % len, Pow2(size - 2))))
  }

  predicate ReadOnly(r: Registers) {
    r.rasr / 0x1000000 % 8 == 6
  }

  predicate ReadWrite(r: Registers) {
    r.rasr / 0x1000000 % 8 == 3
  }

  predicate NoAccess(r: Registers) {
    r.rasr / 0x1000000 % 8 == 0
  }

  /** Normal memory: type extension 0, shareable, cacheable, bufferable. */
  predicate Normal(r: Registers) {
    r.rasr / 0x10000 % 0x40 == 7
  }

  predicate Executable(r: Registers) {
    r.rasr / 0x10000000 % 2 == 0
  }

  /** The address lies in an enabled sub-region of the setting. */
  predicate Covers(s: Setting, a: Word) {
    && 8 <= s.len
    && s.addr <= a < s.addr + s.len
    && !Bit(s.srd, Div(a - s.addr, s.len / 8))
  }

  lemma Powers()
    ensures Pow2(0) == 1 && Pow2(1) == 2 && Pow2(4) == 0x10 && Pow2(5) == 0x20 && Pow2(6) == 0x40 && Pow2(7) == 0x80
    ensures Pow2(8) == 0x100 && Pow2(14) == 0x4000 && Pow2(16) == 0x10000 && Pow2(24) == 0x1000000
    ensures Pow2(27) == 0x8000000 && Pow2(28) == 0x10000000 && Pow2(29) == 0x20000000 && Pow2(32) == WORD
  {
    assert Pow2(5) == 0x20 && Pow2(10) == 0x400 && Pow2(14) == 0x4000 && Pow2(19) == 0x80000;
    assert Pow2(24) == 0x1000000 && Pow2(27) == 0x8000000 && Pow2(29) == 0x20000000 && Pow2(32) == WORD;
  }

  /** A value shifted to its place is not changed by the mask of its field. */
  lemma FieldFits(x: nat, n: nat, k: nat)
    requires k <= n && x < Pow2(n) && x % Pow2(k) == 0
    ensures Pow2(k) <= Pow2(n) && And(x, Pow2(n) - Pow2(k)) == x
  {
    AndHigh(x, n, k);
  }

  lemma RasrIsSum(xn: nat, ap: nat, srd: nat, size: nat)
    requires xn < 2 && ap < 8 && srd < 0x100 && size < 0x20
    ensures Rasr(xn, ap, srd, size) == xn * 0x10000000 + ap * 0x1000000 + ACCESS + srd * 0x100 + size * 2 + 1
  {
    hide And, Or, Pow2;
    Powers();
    FieldFits(xn * 0x10000000, 29, 28);
    FieldFits(ap * 0x1000000, 27, 24);
    FieldFits(srd * 0x100, 16, 8);
    FieldFits(size * 2, 6, 1);
    var r := xn * 0x10000000;
    OrIsSum(r, ap * 0x1000000, 28);
    r := r + ap * 0x1000000;
    OrIsSum(r, ACCESS, 24);
    r := r + ACCESS;
    OrIsSum(r, srd * 0x100, 16);
    r := r + srd * 0x100;
    OrIsSum(r, size * 2, 8);
    r := r + size * 2;
    OrIsSum(r, 1, 1);
  }

  /** Setting the valid bit of a register that has it clear. */
  lemma ValidBit(v: nat)
    requires v / 0x10 % 2 == 0
    ensures Or(v, VALID_FIELD) == v + VALID_FIELD
  {
    hide Or;
    var a := v / 2;
    var b := a / 2;
    var c := b / 2;
    var d := c / 2;
    assert d == v / 0x10;
    OrStep(v, 0x10);
    OrStep(a, 8);
    OrStep(b, 4);
    OrStep(c, 2);
    OrStep(d, 1);
    OrZero(d / 2);
  }

  lemma OrZero(v: nat)
    ensures Or(v, 0) == v && Or(0, v) == v
  {}

  lemma RbarIsSum(id: nat, addr: Word)
    requires id < REGIONS && addr % 0x20 == 0
    ensures Rbar(id, addr) == addr + VALID_FIELD + id
  {
    hide And, Or, Pow2;
    Powers();
    FieldFits(addr, 32, 5);
    AndLow(id, 4);
    OrIsSum(addr, id, 5);
    ValidBit(addr + id);
  }

  lemma FieldsOf(xn: nat, ap: nat, srd: nat, size: nat)
    requires xn < 2 && ap < 8 && srd < 0x100 && size < 0x20
    ensures var rasr := Rasr(xn, ap, srd, size);
      && rasr % 2 == 1
      && rasr / 2 % 0x20 == size
      && rasr / 0x100 % 0x100 == srd
      && rasr / 0x1000000 % 8 == ap
      && rasr / 0x10000000 % 2 == xn
  {
    hide Rasr;
    RasrIsSum(xn, ap, srd, size);
    var rasr := Rasr(xn, ap, srd, size);
    assert rasr / 2 == 0x20 * (xn * 0x400000 + ap * 0x40000 + 0x1C00 + srd * 4) + size;
    assert rasr / 0x100 == 0x100 * (xn * 0x1000 + ap * 0x100 + 7) + srd;
    assert rasr / 0x1000000 == 8 * (2 * xn) + ap;
    assert rasr / 0x10000000 == xn;
  }

  lemma AppliesTo(r: Registers, a: Word, n: nat, addr: nat, srd: nat)
    requires 10 <= n && r.rasr % 2 == 1 && r.rasr / 2 % 0x20 == n - 1 && r.rasr / 0x100 % 0x100 == srd
    requires r.rbar - r.rbar % 0x20 == addr
    ensures Applies(r, a) <==>
      && Div(a, Pow2(n)) == Div(addr, Pow2(n))
      && !Bit(srd, Div(a % Pow2(n), Pow2(n - 3)))
  {
    hide Bit, Div, Pow2;
  }

  /** The registers mean to the processor what the program asked for. */
  lemma EncodingIsFaithful(id: nat, s: Setting, attr: nat, a: Word, n: nat)
    requires id < REGIONS && 10 <= n <= 17 && s.len == Pow2(n) && s.addr % s.len == 0 && s.srd < 0x100
    ensures Applies(Encode(id, s, attr), a) <==> Covers(s, a)
    ensures ReadOnly(Encode(id, s, attr)) <==> Ap(attr) == 6
    ensures Executable(Encode(id, s, attr)) <==> Xn(attr) == 0
  {
    hide Rbar, Rasr, LsbPos, Bit, Ap, Xn, Div, Pow2, Applies, Covers;
    Narrow(attr);
    LsbOfPow2(n);
    FieldsOf(Xn(attr), Ap(attr), s.srd, n - 1);
    MultipleOf32(s.addr, n);
    RbarIsSum(id, s.addr);
    assert Rbar(id, s.addr) - Rbar(id, s.addr) % 0x20 == s.addr;
    AppliesTo(Encode(id, s, attr), a, n, s.addr, s.srd);
    CoversBlock(s, n, a);
  }

  /** Every attribute means to the processor what its name says. */
  lemma AttributesAreFaithful(id: nat, s: Setting, attr: nat, n: nat)
    requires attr < ATTRIBUTES && 10 <= n <= 17 && s.len == Pow2(n) && s.srd < 0x100
    ensures var r := Encode(id, s, attr);
      && (ReadWrite(r) <==> attr in {READ_WRITE, READ_WRITE_EXEC})
      && (ReadOnly(r) <==> attr in {READ, READ_EXEC})
      && (NoAccess(r) <==> attr in {EXEC, NO_ACCESS})
      && (Executable(r) <==> attr in {EXEC, READ_EXEC, READ_WRITE_EXEC})
      && Normal(r)
  {
    hide Rbar, Rasr, LsbPos, Pow2;
    LsbOfPow2(n);
    FieldsOf(Xn(attr), Ap(attr), s.srd, n - 1);
    RasrIsSum(Xn(attr), Ap(attr), s.srd, n - 1);
    MiddleField(Xn(attr), Ap(attr), s.srd, n - 1);
  }

  lemma MiddleField(xn: nat, ap: nat, srd: nat, size: nat)
    requires xn < 2 && ap < 8 && srd < 0x100 && size < 0x20
    ensures (xn * 0x10000000 + ap * 0x1000000 + ACCESS + srd * 0x100 + size * 2 + 1) / 0x10000 % 0x40 == 7
  {
    var low := srd * 0x100 + size * 2 + 1;
    assert low < 0x10000;
    assert xn * 0x10000000 + ap * 0x1000000 + ACCESS + low == 0x10000 * (0x40 * (xn * 0x40 + ap * 4) + 7) + low;
  }

  /** The setting that closes the page at address 0. */
  function NullPage(len: Word): Registers
    requires len > 0
  {
    Encode(NULL_POINTER, Setting(0, len, 0), NO_ACCESS)
  }

  /** No access of any kind to the first kilobyte, or the first two. */
  lemma NullPageIsClosed(len: Word, a: Word)
    requires len == 0x400 || len == 0x800
    ensures var r := NullPage(len);
      && (Applies(r, a) <==> a < len)
      && NoAccess(r) && !Executable(r)
    ensures Check(NULL_POINTER, 0, len, NO_ACCESS) == 0
  {
    hide Applies, Encode, LsbPos, Bit, Check;
    var n := if len == 0x400 then 10 else 11;
    assert len == Pow2(n) by { assert Pow2(10) == 0x400 && Pow2(11) == 0x800; }
    var s := Setting(0, len, 0);
    EncodingIsFaithful(NULL_POINTER, s, NO_ACCESS, a, n);
    AttributesAreFaithful(NULL_POINTER, s, NO_ACCESS, n);
    if a < len { ZeroBit(Div(a, len / 8)); }
    LsbOfPow2(n);
    CheckAccepts(NULL_POINTER, 0, len, NO_ACCESS);
  }

  lemma CoversBlock(s: Setting, n: nat, a: Word)
    requires 10 <= n && s.len == Pow2(n) && s.addr % s.len == 0
    ensures Covers(s, a) <==>
      Div(a, Pow2(n)) == Div(s.addr, Pow2(n)) && !Bit(s.srd, Div(a % Pow2(n), Pow2(n - 3)))
  {
    hide Bit, Div, Pow2;
    Eighth(n);
    SameBlock(s.addr, s.len, a);
  }

  lemma MultipleOf32(addr: nat, n: nat)
    requires 5 <= n && addr % Pow2(n) == 0
    ensures addr % 0x20 == 0
  {
    assert Pow2(5) == 0x20;
    if addr > 0 {
      LsbDivides(addr, n);
      LsbDivides(addr, 5);
    }
  }

  lemma Narrow(attr: nat)
    ensures Xn(attr) < 2 && Ap(attr) < 8
  {}

  lemma Eighth(n: nat)
    requires n >= 3
    ensures Pow2(n) == 8 * Pow2(n - 3)
  {
    assert Pow2(n) == 2 * Pow2(n - 1) && Pow2(n - 1) == 2 * Pow2(n - 2);
  }

  lemma SameBlock(addr: nat, len: nat, a: nat)
    requires len > 0 && addr % len == 0
    ensures Div(a, len) == Div(addr, len) <==> addr <= a < addr + len
    ensures addr <= a < addr + len ==> a % len == a - addr
  {
    var q := addr / len;
    assert addr == q * len;
    DivLess(a, len, q);
    DivLess(a, len, q + 1);
    if addr <= a < addr + len { ModOf(a, len, q, a - addr); }
  }

  // ---------------------------------------------------------------- choice of the regions

  /** calc_sub_region_size: the alignment of the start, at most 16 KiB, at least 128 bytes. */
  function SubRegionSize(frStart: Word): Word
    requires frStart > 0
  {
    var sz := Pow2(LsbPos(frStart));
    if sz < SMALLEST then NO_SIZE else if sz > LARGEST then LARGEST else sz
  }

  function TopDisabled(rgEnd: Word, frEnd: Word, sub: Word): nat
    requires sub > 0
  {
    Div((rgEnd - frEnd) % WORD, sub) + (if And(frEnd, sub - 1) != 0 then 1 else 0)
  }

  /** mpu_get_top_srd: the mask that switches the sub-regions from the frame's end on off. */
  function TopSrd(rgEnd: Word, frEnd: Word, sub: Word): nat
    requires sub > 0 && TopDisabled(rgEnd, frEnd, sub) <= 8
  {
    Pow2Grows(8 - TopDisabled(rgEnd, frEnd, sub), 8);
    assert Pow2(8) == 0x100;
    And(0xFF, Not(Pow2(8 - TopDisabled(rgEnd, frEnd, sub)) - 1))
  }

  /** mpu_get_bottom_srd: the mask that switches the sub-regions before the frame's start off. */
  function BottomSrd(rgStart: Word, frStart: Word, sub: Word): nat
    requires sub > 0
  {
    And(0xFF, Pow2(Div((frStart - rgStart) % WORD, sub)) - 1)
  }

  function RegionSize(sub: Word): Word {
    sub * 8 % WORD
  }

  function RegionStart(frStart: Word, sub: Word): Word
    requires RegionSize(sub) > 0
  {
    And(frStart, Not(RegionSize(sub) - 1))
  }

  /** The size is the largest power of two up to 16 KiB that divides the start; none below 128 bytes. */
  lemma SizeOf(frStart: Word) returns (n: nat)
    requires frStart > 0
    ensures frStart % SMALLEST != 0 <==> SubRegionSize(frStart) == NO_SIZE
    ensures frStart % SMALLEST == 0 ==>
      && 7 <= n <= 14
      && SubRegionSize(frStart) == Pow2(n)
      && frStart % Pow2(n) == 0
      && (n < 14 ==> frStart % Pow2(n + 1) != 0)
  {
    var p := LsbPos(frStart);
    assert Pow2(5) == 0x20 && Pow2(7) == SMALLEST && Pow2(12) == 0x1000 && Pow2(14) == LARGEST;
    LsbDivides(frStart, 7);
    n := if p < 14 then p else 14;
    LsbDivides(frStart, n);
    LsbDivides(frStart, n + 1);
    if p < 7 { Pow2Grows(p, 6); }
    else if p < 14 { Pow2Grows(7, p); Pow2Grows(p, 13); }
    else { Pow2Grows(14, p); }
  }

  /** The region starts at the multiple of its size at or below the start of the frame. */
  lemma StartOf(frStart: Word, n: nat)
    requires 7 <= n <= 14 && frStart % Pow2(n) == 0
    ensures Pow2(n) <= LARGEST && RegionSize(Pow2(n)) == Pow2(n + 3) == 8 * Pow2(n)
    ensures var rg := RegionStart(frStart, Pow2(n));
      && rg % Pow2(n + 3) == 0
      && rg % Pow2(n) == 0
      && rg <= frStart < rg + 8 * Pow2(n) <= WORD
  {
    hide Pow2, And, LsbPos;
    Powers();
    Eighth(n + 3);
    Pow2Grows(n, 14);
    AndHigh(frStart, 32, n + 3);
    var size := Pow2(n + 3);
    var rg := frStart - frStart % size;
    RoundDown(frStart, size);
    PowerDivides(32, n + 3);
    MultiplesApart(rg, WORD, size);
    DividesLess(rg, n + 3, n);
  }

  lemma RoundDown(x: nat, m: nat)
    requires m > 0
    ensures (x - x % m) % m == 0 && x - x % m <= x < x - x % m + m
  {
    var q := Div(x, m);
    ModOf(x - x % m, m, q, 0);
  }

  lemma MultiplesApart(x: nat, y: nat, m: nat)
    requires m > 0 && x % m == 0 && y % m == 0 && x < y
    ensures x + m <= y
  {
    var q, w := Div(x, m), Div(y, m);
    assert x == q * m && y == w * m;
    DivLess(x, m, w);
    Monotone(q + 1, w, m);
  }

  lemma DividesLess(x: nat, a: nat, b: nat)
    requires b <= a && x % Pow2(a) == 0
    ensures x % Pow2(b) == 0
  {
    if x > 0 {
      LsbDivides(x, a);
      LsbDivides(x, b);
    }
  }

  lemma {:induction false} PowerDivides(a: nat, b: nat)
    requires b <= a
    ensures Pow2(a) % Pow2(b) == 0
  {
    LsbOfPow2(a);
    LsbDivides(Pow2(a), b);
  }

  /** Sub-regions from the one that holds the end of the frame on are counted. */
  lemma TopCount(o: nat, sub: nat)
    requires sub > 0 && o < 8 * sub
    ensures Div(8 * sub - o, sub) + (if o % sub != 0 then 1 else 0) == 8 - Div(o, sub)
    ensures Div(o, sub) < 8
  {
    var e, r := Div(o, sub), o % sub;
    assert o == e * sub + r;
    DivLess(o, sub, 8);
    if r == 0 {
      ModOf(8 * sub - o, sub, 8 - e, 0);
    } else {
      assert 8 * sub - o == (7 - e) * sub + (sub - r);
      ModOf(8 * sub - o, sub, 7 - e, sub - r);
    }
  }

  /** Adding a multiple of the size does not change the remainder. */
  lemma SameRemainder(rg: nat, o: nat, sub: nat)
    requires sub > 0 && rg % sub == 0
    ensures (rg + o) % sub == o % sub
  {
    var q, e := Div(rg, sub), Div(o, sub);
    assert rg + o == (q + e) * sub + o % sub;
    ModOf(rg + o, sub, q + e, o % sub);
  }

  lemma LowByte(y: nat, k: nat)
    requires k < 8
    ensures And(0xFF, y) < 0x100 && (Bit(And(0xFF, y), k) <==> Bit(y, k))
  {
    hide Pow2, And, Bit;
    Powers();
    AndBit(0xFF, y, k);
    MaskBit(8, k);
  }

  lemma TopDisabledIs(rg: Word, frEnd: Word, n: nat)
    requires 7 <= n <= 14 && rg % Pow2(n) == 0 && Pow2(n) <= LARGEST
    requires rg <= frEnd < rg + 8 * Pow2(n) < WORD
    ensures TopDisabled(rg + 8 * Pow2(n), frEnd, Pow2(n)) == 8 - Div(frEnd - rg, Pow2(n)) <= 8
  {
    hide Pow2, And, Div;
    var sub := Pow2(n);
    AndLow(frEnd, n);
    SameRemainder(rg, frEnd - rg, sub);
    TopCount(frEnd - rg, sub);
  }

  /** The top mask switches off exactly the sub-regions from the frame's end on. */
  lemma TopBit(rgEnd: Word, frEnd: Word, sub: Word, e: nat, k: nat)
    requires 0 < sub && e <= 8 && k < 8 && TopDisabled(rgEnd, frEnd, sub) == 8 - e
    ensures TopSrd(rgEnd, frEnd, sub) < 0x100
    ensures Bit(TopSrd(rgEnd, frEnd, sub), k) <==> k >= e
  {
    hide Pow2, And, Bit, Div, TopDisabled;
    Powers();
    Pow2Grows(e, 8);
    LowByte(Not(Pow2(e) - 1), k);
    HighMaskBit(32, e, k);
  }

  /** The bottom mask switches off exactly the sub-regions before the frame. */
  lemma BottomBit(rg: Word, frStart: Word, sub: Word, k: nat)
    requires 0 < sub && rg <= frStart < rg + 8 * sub && k < 8
    ensures var srd := BottomSrd(rg, frStart, sub);
      srd < 0x100 && (Bit(srd, k) <==> k < Div(frStart - rg, sub))
  {
    hide Pow2, And, Bit, Div;
    var j := Div(frStart - rg, sub);
    LowByte(Pow2(j) - 1, k);
    MaskBit(j, k);
  }

  // ---------------------------------------------------------------- the two settings

  function RegionEnd(rgStart: Word, sub: Word): Word {
    (rgStart + RegionSize(sub)) % WORD
  }

  /** The part of the frame's end that a setting from rgStart can trim. */
  predicate Trims(rgStart: Word, frEnd: Word, sub: Word) {
    frEnd < RegionEnd(rgStart, sub)
  }

  predicate Trimmable(rgStart: Word, frEnd: Word, sub: Word) {
    sub > 0 && (Trims(rgStart, frEnd, sub) ==> TopDisabled(RegionEnd(rgStart, sub), frEnd, sub) <= 8)
  }

  /** The region that holds the start of the frame. */
  function First(rgStart: Word, frStart: Word, frEnd: Word, sub: Word): Setting
    requires Trimmable(rgStart, frEnd, sub)
  {
    var bottom := if frStart > rgStart then BottomSrd(rgStart, frStart, sub) else 0;
    var top := if Trims(rgStart, frEnd, sub) then TopSrd(RegionEnd(rgStart, sub), frEnd, sub) else 0;
    Setting(rgStart, RegionSize(sub), Or(bottom, top))
  }

  /** The region after it, used when the frame does not end in the first. */
  function Second(rgStart: Word, frEnd: Word, sub: Word): Setting
    requires Trimmable(rgStart, frEnd, sub)
  {
    var top := if Trims(rgStart, frEnd, sub) then TopSrd(RegionEnd(rgStart, sub), frEnd, sub) else 0;
    Setting(rgStart, RegionSize(sub), top)
  }

  /** Address a lies in the part of [frStart, frEnd) that whole sub-regions starting at rg can hold. */
  predicate InFrame(frStart: nat, frEnd: nat, sub: nat, a: nat)
    requires sub > 0
  {
    frStart <= a < frEnd - frEnd % sub
  }

  /** Sub-regions before number e are exactly the addresses before the frame's end rounded down. */
  lemma BeforeEnd(rg: nat, frEnd: nat, sub: nat, a: nat)
    requires sub > 0 && rg % sub == 0 && rg <= frEnd && rg <= a
    ensures Div(a - rg, sub) < Div(frEnd - rg, sub) <==> a < frEnd - frEnd % sub
  {
    SameRemainder(rg, frEnd - rg, sub);
    var o := frEnd - rg;
    DivLess(a - rg, sub, Div(o, sub));
    assert o == Div(o, sub) * sub + o % sub;
  }

  /** Sub-regions before number j are exactly the addresses before the frame's start. */
  lemma BeforeStart(rg: nat, frStart: nat, sub: nat, a: nat)
    requires sub > 0 && rg % sub == 0 && frStart % sub == 0 && rg <= frStart && rg <= a
    ensures Div(a - rg, sub) < Div(frStart - rg, sub) <==> a < frStart
  {
    BeforeEnd(rg, frStart, sub, a);
  }

  /** A frame that does not end in a region is not cut short in it by rounding. */
  lemma EndBeyond(rg: nat, frEnd: nat, sub: nat)
    requires sub > 0 && rg % sub == 0 && rg + 8 * sub <= frEnd
    ensures rg + 8 * sub <= frEnd - frEnd % sub
  {
    BeforeEnd(rg, frEnd, sub, rg + 8 * sub - 1);
    DivLess(8 * sub - 1, sub, 8);
    DivLess(frEnd - rg, sub, 8);
  }

  /** A sub-region size that a region can have, and a start that is a multiple of it. */
  ghost predicate Geometry(rg: Word, sub: Word, n: nat) {
    && 7 <= n <= 14
    && sub == Pow2(n) <= LARGEST
    && RegionSize(sub) == 8 * sub
    && rg % sub == 0
  }

  /** A region without trimming at its start covers its addresses before the frame's end. */
  lemma SecondCovers(rg: Word, frEnd: Word, sub: Word, n: nat, a: Word)
    requires Geometry(rg, sub, n) && rg <= frEnd && rg + 8 * sub < WORD
    ensures Trimmable(rg, frEnd, sub) && Second(rg, frEnd, sub).srd < 0x100
    ensures Covers(Second(rg, frEnd, sub), a) <==> rg <= a < rg + 8 * sub && a < frEnd - frEnd % sub
  {
    hide Pow2, And, Bit, Div, TopDisabled, TopSrd, RegionSize;
    if Trims(rg, frEnd, sub) {
      TopDisabledIs(rg, frEnd, n);
      TopBit(rg + 8 * sub, frEnd, sub, Div(frEnd - rg, sub), 0);
    } else {
      EndBeyond(rg, frEnd, sub);
    }
    if rg <= a < rg + 8 * sub {
      var k := Div(a - rg, sub);
      DivLess(a - rg, sub, 8);
      ZeroBit(k);
      BeforeEnd(rg, frEnd, sub, a);
      if Trims(rg, frEnd, sub) {
        TopBit(rg + 8 * sub, frEnd, sub, Div(frEnd - rg, sub), k);
      }
    }
  }

  lemma JoinedCovers(rg: Word, len: Word, bottom: nat, top: nat, a: Word)
    requires 8 <= len && rg <= a
    ensures Covers(Setting(rg, len, Or(bottom, top)), a) <==>
      Covers(Setting(rg, len, top), a) && !Bit(bottom, Div(a - rg, len / 8))
  {
    hide Or, Bit, Div;
    OrBit(bottom, top, Div(a - rg, len / 8));
  }

  /** The first region covers its addresses from the frame's start on and before its end. */
  lemma FirstCovers(rg: Word, frStart: Word, frEnd: Word, sub: Word, n: nat, a: Word)
    requires Geometry(rg, sub, n) && frStart % sub == 0 && rg <= frStart <= frEnd
    requires frStart < rg + 8 * sub < WORD
    ensures Trimmable(rg, frEnd, sub) && First(rg, frStart, frEnd, sub).srd < 0x100
    ensures Covers(First(rg, frStart, frEnd, sub), a) <==>
      a < rg + 8 * sub && InFrame(frStart, frEnd, sub, a)
  {
    SecondCovers(rg, frEnd, sub, n, a);
    hide Pow2, Bit, Div, Trims, TopDisabled, TopSrd, BottomSrd, Or, RegionSize, RegionEnd;
    BottomBit(rg, frStart, sub, 0);
    var bottom := if frStart > rg then BottomSrd(rg, frStart, sub) else 0;
    OrByte(bottom, Second(rg, frEnd, sub).srd);
    if rg <= a < rg + 8 * sub {
      FirstPart(rg, frStart, sub, a);
      hide Covers;
      JoinedCovers(rg, 8 * sub, bottom, Second(rg, frEnd, sub).srd, a);
    }
  }

  /** The bottom mask switches an address off exactly when it is before the frame. */
  lemma FirstPart(rg: Word, frStart: Word, sub: Word, a: Word)
    requires sub > 0 && rg % sub == 0 && frStart % sub == 0 && rg <= frStart < rg + 8 * sub
    requires rg <= a < rg + 8 * sub
    ensures Bit(if frStart > rg then BottomSrd(rg, frStart, sub) else 0, Div(a - rg, sub)) <==> a < frStart
  {
    hide Bit, Div, BottomSrd;
    var k := Div(a - rg, sub);
    DivLess(a - rg, sub, 8);
    ZeroBit(k);
    BottomBit(rg, frStart, sub, k);
    BeforeStart(rg, frStart, sub, a);
  }

  lemma OrByte(x: nat, y: nat)
    requires x < 0x100 && y < 0x100
    ensures Or(x, y) < 0x100
  {
    hide Or, Pow2;
    Powers();
    OrBelow(x, y, 8);
  }

  lemma {:induction false} OrBelow(x: nat, y: nat, k: nat)
    requires x < Pow2(k) && y < Pow2(k)
    ensures Or(x, y) < Pow2(k)
  {
    if x != 0 && y != 0 { OrBelow(x / 2, y / 2, k - 1); }
  }

  // ---------------------------------------------------------------- the whole frame

  /** Neither the end of the first region nor, where it is used, of the second is beyond 32 bits. */
  predicate NoWrap(rg: Word, frEnd: Word, sub: Word) {
    rg + 8 * sub < WORD && (frEnd < rg + 8 * sub || rg + 16 * sub < WORD)
  }

  /** The frame starts in the region at rg, a multiple of the region size. */
  ghost predicate Placed(rg: Word, frStart: Word, frEnd: Word, sub: Word, n: nat) {
    && Geometry(rg, sub, n)
    && rg % (8 * sub) == 0
    && frStart % sub == 0
    && 0 < frStart
    && rg <= frStart <= frEnd
    && frStart < rg + 8 * sub <= WORD
  }

  lemma EndOf(rg: Word, sub: Word, n: nat)
    requires Geometry(rg, sub, n)
    ensures RegionEnd(rg, sub) == (rg + 8 * sub) % WORD
    ensures rg + 8 * sub < WORD ==> RegionEnd(rg, sub) == rg + 8 * sub
  {}

  lemma NextComputable(rg: Word, frEnd: Word, sub: Word, n: nat)
    requires Geometry(rg, sub, n) && rg <= frEnd && rg + 8 * sub <= WORD
    ensures Trimmable(rg, frEnd, sub)
  {
    hide TopDisabled, Pow2, Div, RegionEnd, RegionSize;
    EndOf(rg, sub, n);
    if rg + 8 * sub < WORD { SecondCovers(rg, frEnd, sub, n, 0); }
  }

  /** Both settings can be computed: no shift by a negative amount. */
  lemma Computable(rg: Word, frStart: Word, frEnd: Word, sub: Word, n: nat)
    requires Placed(rg, frStart, frEnd, sub, n)
    ensures Trimmable(rg, frEnd, sub)
    ensures !Trims(rg, frEnd, sub) ==> Trimmable(RegionEnd(rg, sub), frEnd, sub)
  {
    hide TopDisabled, Pow2, Div, RegionEnd, RegionSize;
    EndOf(rg, sub, n);
    if rg + 8 * sub == WORD {
      EndOf(0, sub, n);
    } else {
      SecondCovers(rg, frEnd, sub, n, 0);
      NextGeometry(rg, sub, n);
      if !Trims(rg, frEnd, sub) {
        RoomForSecond(rg, sub, n);
        NextComputable(rg + 8 * sub, frEnd, sub, n);
      }
    }
  }

  lemma NextGeometry(rg: Word, sub: Word, n: nat)
    requires Geometry(rg, sub, n) && rg + 8 * sub < WORD
    ensures Geometry(rg + 8 * sub, sub, n)
  {
    hide Pow2, RegionSize;
    ModOf(8 * sub, sub, 8, 0);
    SameRemainder(rg, 8 * sub, sub);
  }

  lemma NoSizeTrim(rg: Word, frEnd: Word)
    ensures Trimmable(rg, frEnd, NO_SIZE)
  {
    var x := (RegionEnd(rg, NO_SIZE) - frEnd) % WORD;
    DivLess(x, NO_SIZE, 2);
  }

  /** The addresses in enabled sub-regions of the programmed regions. */
  predicate Covered(rg: Word, frStart: Word, frEnd: Word, sub: Word, a: Word)
    requires Trimmable(rg, frEnd, sub)
    requires !Trims(rg, frEnd, sub) ==> Trimmable(RegionEnd(rg, sub), frEnd, sub)
  {
    || Covers(First(rg, frStart, frEnd, sub), a)
    || (!Trims(rg, frEnd, sub) && Covers(Second(RegionEnd(rg, sub), frEnd, sub), a))
  }

  /** What is to be covered: the frame in whole sub-regions, as far as two regions reach. */
  predicate Promised(rg: Word, frStart: Word, frEnd: Word, sub: Word, a: Word)
    requires sub > 0
  {
    InFrame(frStart, frEnd, sub, a) && a < rg + 16 * sub
  }

  lemma CoveredWithoutWrap(rg: Word, frStart: Word, frEnd: Word, sub: Word, n: nat, a: Word)
    requires Placed(rg, frStart, frEnd, sub, n) && NoWrap(rg, frEnd, sub)
    ensures Trimmable(rg, frEnd, sub) && (!Trims(rg, frEnd, sub) ==> Trimmable(RegionEnd(rg, sub), frEnd, sub))
    ensures Covered(rg, frStart, frEnd, sub, a) <==> Promised(rg, frStart, frEnd, sub, a)
  {
    hide Pow2, First, Second, Covers, TopDisabled, RegionEnd, RegionSize;
    EndOf(rg, sub, n);
    Computable(rg, frStart, frEnd, sub, n);
    FirstCovers(rg, frStart, frEnd, sub, n, a);
    NextGeometry(rg, sub, n);
    if Trims(rg, frEnd, sub) {
    } else {
      SecondCovers(rg + 8 * sub, frEnd, sub, n, a);
      EndBeyond(rg, frEnd, sub);
    }
  }

  /** Without a wrap the two regions cover exactly what is promised; with one they do not. */
  lemma CoverageIsExact(rg: Word, frStart: Word, frEnd: Word, sub: Word, n: nat)
    requires Placed(rg, frStart, frEnd, sub, n)
    ensures Trimmable(rg, frEnd, sub) && (!Trims(rg, frEnd, sub) ==> Trimmable(RegionEnd(rg, sub), frEnd, sub))
    ensures NoWrap(rg, frEnd, sub) <==>
      forall a: Word :: Covered(rg, frStart, frEnd, sub, a) <==> Promised(rg, frStart, frEnd, sub, a)
  {
    Computable(rg, frStart, frEnd, sub, n);
    if NoWrap(rg, frEnd, sub) {
      forall a: Word
        ensures Covered(rg, frStart, frEnd, sub, a) <==> Promised(rg, frStart, frEnd, sub, a)
      {
        hide Covered, Promised, Placed;
        CoveredWithoutWrap(rg, frStart, frEnd, sub, n, a);
      }
    } else {
      WrapIsWrong(rg, frStart, frEnd, sub, n);
    }
  }

  /** A second region that is not trimmed covers its first and its last address. */
  lemma UntrimmedCovers(rg: Word, frEnd: Word, sub: Word, n: nat, a: Word)
    requires Geometry(rg, sub, n) && !Trims(rg, frEnd, sub) && Trimmable(rg, frEnd, sub) && rg <= a < rg + 8 * sub
    ensures Covers(Second(rg, frEnd, sub), a)
  {
    hide Pow2, TopDisabled, Bit, Div, TopSrd, Trims, RegionSize;
    ZeroBit(Div(a - rg, sub));
  }

  /** When the first region ends the memory, the second covers the null page. */
  lemma FirstWraps(rg: Word, frStart: Word, frEnd: Word, sub: Word, n: nat)
    requires Placed(rg, frStart, frEnd, sub, n) && rg + 8 * sub == WORD
    requires Trimmable(rg, frEnd, sub) && (!Trims(rg, frEnd, sub) ==> Trimmable(RegionEnd(rg, sub), frEnd, sub))
    ensures Covered(rg, frStart, frEnd, sub, 0) && !Promised(rg, frStart, frEnd, sub, 0)
  {
    hide Pow2, First, Second, Covers, TopDisabled, RegionEnd, RegionSize;
    EndOf(rg, sub, n);
    EndOf(0, sub, n);
    UntrimmedCovers(0, frEnd, sub, n, 0);
  }

  /** When the second region ends the memory, it covers the very last address. */
  lemma SecondWraps(rg: Word, frStart: Word, frEnd: Word, sub: Word, n: nat)
    requires Placed(rg, frStart, frEnd, sub, n) && rg + 8 * sub <= frEnd && rg + 16 * sub >= WORD
    requires Trimmable(rg, frEnd, sub) && (!Trims(rg, frEnd, sub) ==> Trimmable(RegionEnd(rg, sub), frEnd, sub))
    ensures Covered(rg, frStart, frEnd, sub, WORD - 1) && !Promised(rg, frStart, frEnd, sub, WORD - 1)
  {
    hide Pow2, First, Second, Covers, TopDisabled, RegionEnd, RegionSize;
    EndOf(rg, sub, n);
    NextGeometry(rg, sub, n);
    EndOf(rg + 8 * sub, sub, n);
    RoomForSecond(rg, sub, n);
    UntrimmedCovers(rg + 8 * sub, frEnd, sub, n, WORD - 1);
  }

  /** After a wrap an address that was not asked for is covered. */
  lemma WrapIsWrong(rg: Word, frStart: Word, frEnd: Word, sub: Word, n: nat)
    requires Placed(rg, frStart, frEnd, sub, n) && !NoWrap(rg, frEnd, sub)
    requires Trimmable(rg, frEnd, sub) && (!Trims(rg, frEnd, sub) ==> Trimmable(RegionEnd(rg, sub), frEnd, sub))
    ensures var a := if rg + 8 * sub == WORD then 0 else WORD - 1;
      Covered(rg, frStart, frEnd, sub, a) && !Promised(rg, frStart, frEnd, sub, a)
  {
    hide Covered, Promised, Trimmable, Trims, RegionEnd, Geometry;
    if rg + 8 * sub == WORD { FirstWraps(rg, frStart, frEnd, sub, n); } else { SecondWraps(rg, frStart, frEnd, sub, n); }
  }

  lemma RoomForSecond(rg: Word, sub: Word, n: nat)
    requires Geometry(rg, sub, n) && rg % (8 * sub) == 0 && rg + 8 * sub < WORD
    ensures rg + 16 * sub <= WORD
  {
    hide Pow2, RegionSize;
    Eighth(n + 3);
    PowerDivides(32, n + 3);
    Powers();
    SameRemainder(rg, 8 * sub, 8 * sub);
    ModOf(8 * sub, 8 * sub, 1, 0);
    MultiplesApart(rg + 8 * sub, WORD, 8 * sub);
  }

  /** The frame's region, and the size of its sub-regions as a power of two. */
  lemma Place(frStart: Word, frEnd: Word) returns (n: nat)
    requires 0 < frStart <= frEnd && frStart % SMALLEST == 0
    ensures RegionSize(SubRegionSize(frStart)) > 0
    ensures Placed(RegionStart(frStart, SubRegionSize(frStart)), frStart, frEnd, SubRegionSize(frStart), n)
  {
    hide SubRegionSize, RegionStart, RegionSize, Pow2;
    n := SizeOf(frStart);
    StartOf(frStart, n);
  }

  /** The first test of mpu_set that fails: region number, length, alignment, attribute. */
  function Check(id: nat, addr: Word, len: Word, attr: nat): int {
    if id >= REGIONS then 2
    else if len < 32 || And(len, len - 1) != 0 then 3
    else if And(addr, len - 1) != 0 then 4
    else if attr >= ATTRIBUTES then 5
    else 0
  }

  /** The checks accept exactly aligned powers of two. */
  lemma CheckAccepts(id: nat, addr: Word, len: Word, attr: nat)
    requires len > 0
    ensures Check(id, addr, len, attr) == 0 <==>
      && id < REGIONS && attr < ATTRIBUTES
      && 32 <= len == Pow2(LsbPos(len))
      && addr % len == 0
  {
    hide And, Pow2, LsbPos;
    DropLowest(len);
    AndLow(addr, LsbPos(len));
  }

  /** The error codes: which argument is wrong, the first one in the order of the arguments if several are. */
  lemma CheckTells(id: nat, addr: Word, len: Word, attr: nat)
    requires len > 0
    ensures var code := Check(id, addr, len, attr); var sized := 32 <= len == Pow2(LsbPos(len));
      && (code == 2 <==> id >= REGIONS)
      && (code == 3 <==> id < REGIONS && !sized)
      && (code == 4 <==> id < REGIONS && sized && addr % len != 0)
      && (code == 5 <==> id < REGIONS && sized && addr % len == 0 && attr >= ATTRIBUTES)
      && code in {0, 2, 3, 4, 5}
  {
    hide And, Pow2, LsbPos;
    DropLowest(len);
    AndLow(addr, LsbPos(len));
  }

  /** The hardware picks the region from the low bits of the base address register. */
  lemma AcceptedRegion(id: nat, addr: Word, len: Word, attr: nat)
    requires len > 0 && Check(id, addr, len, attr) == 0
    ensures Rbar(id, addr) % 0x10 == id
  {
    hide Check, Rbar, Pow2, LsbPos;
    CheckAccepts(id, addr, len, attr);
    Aligned(addr, len);
    RbarIsSum(id, addr);
    assert (addr + VALID_FIELD + id) % 0x10 == id;
  }

  lemma Aligned(addr: nat, len: nat)
    requires 32 <= len == Pow2(LsbPos(len)) && addr % len == 0
    ensures addr % 0x20 == 0
  {
    hide Pow2, LsbPos;
    LsbAtLeast(len);
    MultipleOf32(addr, LsbPos(len));
  }

  /** Opening the unit switches every region off. */
  function Cleared(bank: seq<Registers>): (r: seq<Registers>)
    ensures |r| == |bank|
    ensures forall i :: 0 <= i < |bank| ==> r[i] == Registers(bank[i].rbar, 0)
  {
    seq(|bank|, i requires 0 <= i < |bank| => Registers(bank[i].rbar, 0))
  }

  lemma LsbAtLeast(len: nat)
    requires 32 <= len == Pow2(LsbPos(len))
    ensures LsbPos(len) >= 5
  {
    assert Pow2(4) == 0x10;
    if LsbPos(len) < 5 { Pow2Grows(LsbPos(len), 4); }
  }

  /** Both settings of a frame can be computed, whether its start is aligned or not. */
  predicate Settable(frStart: Word, frEnd: Word)
    requires 0 < frStart
  {
    var sub := SubRegionSize(frStart);
    && RegionSize(sub) > 0
    && Trimmable(RegionStart(frStart, sub), frEnd, sub)
    && (sub != NO_SIZE && !Trims(RegionStart(frStart, sub), frEnd, sub) ==>
          Trimmable(RegionEnd(RegionStart(frStart, sub), sub), frEnd, sub))
  }

  lemma EveryFrameIsSettable(frStart: Word, frEnd: Word)
    requires 0 < frStart <= frEnd
    ensures Settable(frStart, frEnd)
  {
    hide SubRegionSize, RegionStart, RegionEnd, Trims, Trimmable;
    var n := SizeOf(frStart);
    if frStart % SMALLEST == 0 {
      n := Place(frStart, frEnd);
      Computable(RegionStart(frStart, SubRegionSize(frStart)), frStart, frEnd, SubRegionSize(frStart), n);
    } else {
      NoSizeTrim(RegionStart(frStart, NO_SIZE), frEnd);
    }
  }

  /** Without a size, the length asked for is refused. */
  lemma NoSizeIsRefused(id: nat, addr: Word, attr: nat)
    requires id < REGIONS
    ensures Check(id, addr, RegionSize(NO_SIZE), attr) == 3
  {
    hide And, Pow2, LsbPos;
    var len := RegionSize(NO_SIZE);
    DropLowest(len);
    Powers();
    LsbDivides(len, 4);
    if LsbPos(len) < 4 { Pow2Grows(LsbPos(len), 4); }
  }

  /** With a size, both settings are accepted. */
  lemma SizeIsAccepted(id: nat, rg: Word, sub: Word, n: nat, attr: nat)
    requires id < REGIONS && attr < ATTRIBUTES && Geometry(rg, sub, n) && rg % (8 * sub) == 0
    ensures Check(id, rg, RegionSize(sub), attr) == 0
  {
    hide Pow2, LsbPos, Check;
    Powers();
    Pow2Grows(7, n);
    Eighth(n + 3);
    LsbOfPow2(n + 3);
    CheckAccepts(id, rg, RegionSize(sub), attr);
  }

  /** The registers after the two settings of the frame. */
  function Programmed(bank: seq<Registers>, frStart: Word, frEnd: Word): (r: seq<Registers>)
    requires |bank| == REGIONS && 0 < frStart && Settable(frStart, frEnd) && frStart % SMALLEST == 0
    ensures |r| == REGIONS
  {
    var sub := SubRegionSize(frStart);
    var rg := RegionStart(frStart, sub);
    assert sub != NO_SIZE by { var _ := SizeOf(frStart); }
    var once := bank[FRAM_TEXT1 := Encode(FRAM_TEXT1, First(rg, frStart, frEnd, sub), READ)];
    if Trims(rg, frEnd, sub) then once
    else once[FRAM_TEXT2 := Encode(FRAM_TEXT2, Second(RegionEnd(rg, sub), frEnd, sub), READ_EXEC)]
  }

  class Mpu {
    const present: bool
    var enabled: bool
    var bank: seq<Registers>

    predicate Valid()
      reads this
    {
      |bank| == REGIONS
    }

    /** The registers once a call has made sure that the unit is open. */
    function Opened(): seq<Registers>
      reads this
    {
      if enabled || !present then bank else Cleared(bank)
    }

    method Open() returns (ret: int)
      requires Valid()
      modifies this
      ensures Valid()
      ensures ret == if present then 0 else 1
      ensures enabled == (present || old(enabled))
      ensures bank == if present then Cleared(old(bank)) else old(bank)
    {
      if !present { return 1; }
      var i := 0;
      while i < REGIONS
        invariant i <= REGIONS && Valid() && enabled == old(enabled)
        invariant forall k :: 0 <= k < REGIONS ==>
          bank[k] == if k < i then Registers(old(bank)[k].rbar, 0) else old(bank)[k]
      {
        bank := bank[i := bank[i].(rasr := 0)];
        i := i + 1;
      }
      enabled := true;
      assert bank == Cleared(old(bank));
      return 0;
    }

    method Set(id: nat, addr: Word, len: Word, srd: nat, attr: nat) returns (ret: int)
      requires Valid() && len > 0
      modifies this
      ensures Valid()
      ensures enabled == (present || old(enabled))
      ensures ret == if old(enabled) || present then Check(id, addr, len, attr) else 1
      ensures bank == if ret == 0 then old(Opened())[id := Encode(id, Setting(addr, len, srd), attr)] else old(Opened())
      ensures forall i :: 0 <= i < REGIONS && (ret == 0 ==> i != id) ==>
        bank[i] == if old(enabled) || !present then old(bank)[i] else Registers(old(bank)[i].rbar, 0)
    {
      hide Rbar, Rasr, LsbPos, And, Xn, Ap, Pow2;
      if !enabled {
        ret := Open();
        if ret != 0 { return ret; }
      }
      if id >= REGIONS { return 2; }
      if len < 32 || And(len, len - 1) != 0 { return 3; }
      if And(addr, len - 1) != 0 { return 4; }
      if attr >= ATTRIBUTES { return 5; }
      var xn := Xn(attr);
      var ap := Ap(attr);
      var size := (LsbPos(len) - 1) % 0x100;
      var rbar := Rbar(id, addr);
      var rasr := Rasr(xn, ap, srd, size);
      AcceptedRegion(id, addr, len, attr);
      bank := bank[rbar % 0x10 := Registers(rbar, rasr)];
      return 0;
    }

    /** mpu_null_check_enable: closes the page at address 0, which is smaller on one chip. */
    method NullCheck(best1000: bool) returns (ret: int)
      requires Valid()
      modifies this
      ensures Valid()
      ensures enabled == (present || old(enabled))
      ensures ret == if present || old(enabled) then 0 else 1
      ensures bank == if ret == 0 then old(Opened())[NULL_POINTER := NullPage(if best1000 then 0x400 else 0x800)]
        else old(bank)
    {
      hide Encode, Check;
      var len := if best1000 then 0x400 else 0x800;
      NullPageIsClosed(len, 0);
      ret := Set(NULL_POINTER, 0, len, 0, NO_ACCESS);
    }

    /** Two regions over the frame, or error 3 and none when its start is not aligned to 128 bytes. */
    method ProtectFrame(frStart: Word, frEnd: Word) returns (ret: int)
      requires Valid() && 0 < frStart <= frEnd
      modifies this
      ensures Valid() && Settable(frStart, frEnd)
      ensures enabled == (present || old(enabled))
      ensures !present && !old(enabled) ==> ret == 1 && bank == old(bank)
      ensures (present || old(enabled)) && frStart % SMALLEST != 0 ==> ret == 3 && bank == old(Opened())
      ensures (present || old(enabled)) && frStart % SMALLEST == 0 ==>
        ret == 0 && bank == Programmed(old(Opened()), frStart, frEnd)
    {
      hide SubRegionSize, RegionStart, Or, And, Pow2, Div, BottomSrd, TopSrd, TopDisabled, Encode, Check;
      EveryFrameIsSettable(frStart, frEnd);
      ghost var n := SizeOf(frStart);
      // a negative size is tested for, but the size is unsigned and the test never holds
      var sub := SubRegionSize(frStart);
      var size := RegionSize(sub);
      var rg := RegionStart(frStart, sub);
      var srd := 0;
      if frStart > rg {
        OrZero(BottomSrd(rg, frStart, sub));
        srd := Or(srd, BottomSrd(rg, frStart, sub));
      }
      OrZero(srd);
      var rgEnd := (rg + size) % WORD;
      var finished := false;
      if frEnd < rgEnd {
        srd := Or(srd, TopSrd(rgEnd, frEnd, sub));
        finished := true;
      }
      if frStart % SMALLEST == 0 {
        n := Place(frStart, frEnd);
        SizeIsAccepted(FRAM_TEXT1, rg, sub, n, READ);
        EndAligned(rg, frStart, frEnd, sub, n);
        SizeIsAccepted(FRAM_TEXT2, RegionEnd(rg, sub), sub, n, READ_EXEC);
      } else {
        NoSizeIsRefused(FRAM_TEXT1, rg, READ);
      }
      assert Setting(rg, size, srd) == First(rg, frStart, frEnd, sub);
      ret := Set(FRAM_TEXT1, rg, size, srd, READ);
      if ret != 0 || finished { return ret; }
      rg := (rg + size) % WORD;
      srd := 0;
      rgEnd := (rg + size) % WORD;
      if frEnd < rgEnd { srd := TopSrd(rgEnd, frEnd, sub); }
      assert Setting(rg, size, srd) == Second(rg, frEnd, sub);
      ret := Set(FRAM_TEXT2, rg, size, srd, READ_EXEC);
    }

    /** mpu_setup: the page at address 0, then the frame; the results are not looked at. */
    method Setup(best1000: bool, frStart: Word, frEnd: Word)
      requires Valid() && 0 < frStart <= frEnd
      modifies this
      ensures Valid() && Settable(frStart, frEnd)
      ensures !present && !old(enabled) ==> bank == old(bank)
      ensures present || old(enabled) ==>
        var closed := old(Opened())[NULL_POINTER := NullPage(if best1000 then 0x400 else 0x800)];
        bank == if frStart % SMALLEST == 0 then Programmed(closed, frStart, frEnd) else closed
    {
      hide Programmed, NullPage, Settable;
      var _ := NullCheck(best1000);
      var _ := ProtectFrame(frStart, frEnd);
    }
  }

  // ---------------------------------------------------------------- what the processor then protects

  lemma SrdFits(rg: Word, frStart: Word, frEnd: Word, sub: Word)
    requires Trimmable(rg, frEnd, sub)
    ensures First(rg, frStart, frEnd, sub).srd < 0x100
    ensures Second(rg, frEnd, sub).srd < 0x100
  {
    hide And, Pow2, Or, Trims, TopDisabled;
    var bottom := if frStart > rg then BottomSrd(rg, frStart, sub) else 0;
    OrByte(bottom, Second(rg, frEnd, sub).srd);
  }

  /** The second region is as well aligned as the first. */
  lemma EndAligned(rg: Word, frStart: Word, frEnd: Word, sub: Word, n: nat)
    requires Placed(rg, frStart, frEnd, sub, n)
    ensures Geometry(RegionEnd(rg, sub), sub, n) && RegionEnd(rg, sub) % (8 * sub) == 0
  {
    EndOf(rg, sub, n);
    hide Pow2, RegionSize, RegionEnd;
    if rg + 8 * sub < WORD {
      NextGeometry(rg, sub, n);
      SameRemainder(rg, 8 * sub, 8 * sub);
      ModOf(8 * sub, 8 * sub, 1, 0);
    } else {
      ModOf(0, 8 * sub, 0, 0);
      ModOf(0, sub, 0, 0);
    }
  }

  /** What the processor reads in the registers of an aligned setting. */
  lemma SettingSeen(id: nat, s: Setting, attr: nat, sub: Word, n: nat, a: Word)
    requires id < REGIONS && Geometry(s.addr, sub, n) && s.addr % (8 * sub) == 0
    requires s.len == RegionSize(sub) && s.srd < 0x100
    ensures Applies(Encode(id, s, attr), a) <==> Covers(s, a)
    ensures ReadOnly(Encode(id, s, attr)) <==> Ap(attr) == 6
    ensures Executable(Encode(id, s, attr)) <==> Xn(attr) == 0
  {
    hide Pow2, LsbPos, Encode, Covers, Applies, ReadOnly, Executable;
    Eighth(n + 3);
    EncodingIsFaithful(id, s, attr, a, n + 3);
  }

  /** The registers of a frame apply to exactly the addresses its settings cover. */
  lemma ProcessorSees(bank: seq<Registers>, frStart: Word, frEnd: Word, n: nat, a: Word)
    requires |bank| == REGIONS && bank[FRAM_TEXT2].rasr % 2 == 0
    requires 0 < frStart <= frEnd && frStart % SMALLEST == 0 && Settable(frStart, frEnd)
    requires SubRegionSize(frStart) != NO_SIZE
    requires Placed(RegionStart(frStart, SubRegionSize(frStart)), frStart, frEnd, SubRegionSize(frStart), n)
    ensures var sub := SubRegionSize(frStart);
      var rg := RegionStart(frStart, sub);
      var after := Programmed(bank, frStart, frEnd);
      && (Applies(after[FRAM_TEXT1], a) || Applies(after[FRAM_TEXT2], a) <==> Covered(rg, frStart, frEnd, sub, a))
      && ReadOnly(after[FRAM_TEXT1]) && !Executable(after[FRAM_TEXT1])
      && (!Trims(rg, frEnd, sub) ==> ReadOnly(after[FRAM_TEXT2]) && Executable(after[FRAM_TEXT2]))
  {
    var sub := SubRegionSize(frStart);
    var rg := RegionStart(frStart, sub);
    if Trims(rg, frEnd, sub) { Off(bank[FRAM_TEXT2], a); }
    hide Pow2, LsbPos, Encode, Covers, Applies, ReadOnly, Executable, SubRegionSize, RegionStart, Trims, TopDisabled;
    hide RegionSize, RegionEnd, Or, TopSrd, BottomSrd;
    SrdFits(rg, frStart, frEnd, sub);
    SettingSeen(FRAM_TEXT1, First(rg, frStart, frEnd, sub), READ, sub, n, a);
    if !Trims(rg, frEnd, sub) {
      EndAligned(rg, frStart, frEnd, sub, n);
      SrdFits(RegionEnd(rg, sub), frStart, frEnd, sub);
      SettingSeen(FRAM_TEXT2, Second(RegionEnd(rg, sub), frEnd, sub), READ_EXEC, sub, n, a);
    }
  }

  lemma Off(r: Registers, a: Word)
    requires r.rasr % 2 == 0
    ensures !Applies(r, a)
  {
    hide Bit, Div, Pow2;
  }

  /** The frame's two regions apply to address a. */
  ghost predicate Protects(bank: seq<Registers>, a: Word)
    requires |bank| == REGIONS
  {
    Applies(bank[FRAM_TEXT1], a) || Applies(bank[FRAM_TEXT2], a)
  }

  /** Programming the frame gives exactly the promised protection if and only if nothing wraps. */
  lemma FrameIsProtected(bank: seq<Registers>, frStart: Word, frEnd: Word)
    requires |bank| == REGIONS && bank[FRAM_TEXT2].rasr % 2 == 0
    requires 0 < frStart <= frEnd && frStart % SMALLEST == 0
    ensures Settable(frStart, frEnd)
    ensures var sub := SubRegionSize(frStart);
      var rg := RegionStart(frStart, sub);
      NoWrap(rg, frEnd, sub) <==> forall a: Word ::
        Protects(Programmed(bank, frStart, frEnd), a) <==> Promised(rg, frStart, frEnd, sub, a)
  {
    hide *;
    EveryFrameIsSettable(frStart, frEnd);
    var n := SizeOf(frStart);
    n := Place(frStart, frEnd);
    var sub := SubRegionSize(frStart);
    var rg := RegionStart(frStart, sub);
    CoverageIsExact(rg, frStart, frEnd, sub, n);
    forall a: Word
      ensures Protects(Programmed(bank, frStart, frEnd), a) <==> Covered(rg, frStart, frEnd, sub, a)
    {
      ProtectsWhatIsCovered(bank, frStart, frEnd, n, a);
    }
  }

  lemma ProtectsWhatIsCovered(bank: seq<Registers>, frStart: Word, frEnd: Word, n: nat, a: Word)
    requires |bank| == REGIONS && bank[FRAM_TEXT2].rasr % 2 == 0
    requires 0 < frStart <= frEnd && frStart % SMALLEST == 0 && Settable(frStart, frEnd)
    requires SubRegionSize(frStart) != NO_SIZE
    requires Placed(RegionStart(frStart, SubRegionSize(frStart)), frStart, frEnd, SubRegionSize(frStart), n)
    ensures Protects(Programmed(bank, frStart, frEnd), a) <==>
      Covered(RegionStart(frStart, SubRegionSize(frStart)), frStart, frEnd, SubRegionSize(frStart), a)
  {
    ProcessorSees(bank, frStart, frEnd, n, a);
    hide Programmed, Covered, Applies, SubRegionSize, RegionStart, Placed, Trimmable;
  }

  /** The first region is read-only data, the second read-only code; no other region is touched. */
  lemma FramePermissions(bank: seq<Registers>, frStart: Word, frEnd: Word)
    requires |bank| == REGIONS && bank[FRAM_TEXT2].rasr % 2 == 0
    requires 0 < frStart <= frEnd && frStart % SMALLEST == 0
    ensures Settable(frStart, frEnd)
    ensures var sub := SubRegionSize(frStart);
      var after := Programmed(bank, frStart, frEnd);
      && ReadOnly(after[FRAM_TEXT1]) && !Executable(after[FRAM_TEXT1])
      && (Trims(RegionStart(frStart, sub), frEnd, sub) ==> after[FRAM_TEXT2] == bank[FRAM_TEXT2])
      && (!Trims(RegionStart(frStart, sub), frEnd, sub) ==> ReadOnly(after[FRAM_TEXT2]) && Executable(after[FRAM_TEXT2]))
      && (forall i :: 0 <= i < REGIONS && i != FRAM_TEXT1 && i != FRAM_TEXT2 ==> after[i] == bank[i])
  {
    EveryFrameIsSettable(frStart, frEnd);
    var n := SizeOf(frStart);
    n := Place(frStart, frEnd);
    hide SubRegionSize, RegionStart, Placed, ReadOnly, Executable, Applies, Covered, Trims, Encode;
    ProcessorSees(bank, frStart, frEnd, n, 0);
  }
}
