/**
 * The packet parser of the factory serial link (app_factory_cdc_comm.c). A packet is a header of
 * prefix, type, sequence number and length, the payload, and a check byte that makes all bytes add up
 * to 0xFF. The parser asks the transport for an exact number of bytes each time.
 */
module CdcParser {
  import opened Ring

  const PREFIX_CHAR: byte := 0xBE
  const HEADER := 4
  const DATA := 22

  const TYPE_SYS: byte := 0
  const TYPE_READ: byte := 1
  const TYPE_WRITE: byte := 2

  const SYS_CMD_REBOOT: byte := 0xF1
  const SYS_CMD_SHUTDOWN: byte := 0xF2
  const SYS_CMD_SET_BOOTMODE: byte := 0xE1
  const SYS_CMD_CLR_BOOTMODE: byte := 0xE2
  const SYS_CMD_GET_BOOTMODE: byte := 0xE3

  const ERR_NONE: byte := 0
  const ERR_LEN: byte := 1
  const ERR_CHECKSUM: byte := 2
  const ERR_SYS_CMD: byte := 6
  const ERR_DATA_LEN: byte := 8

  datatype Message = Message(typ: byte, num: byte, payload: seq<byte>)

  /** Reading a header of which some bytes are in place, reading the rest of a packet, or given up. */
  datatype State = Header(have: seq<byte>) | Data(hdr: seq<byte>) | Failed(err: byte)

  function Sum(s: seq<byte>): nat {
    if s == [] then 0 else (Sum(s[..|s| - 1]) + s[|s| - 1] as nat) % 256
  }

  lemma SumSnoc(s: seq<byte>, b: byte)
    ensures Sum(s + [b]) == (Sum(s) + b as nat) % 256
  {
    assert (s + [b])[..|s|] == s;
  }

  lemma SumRange(s: seq<byte>)
    ensures Sum(s) < 256
  {}

  lemma {:induction false} SumConcat(a: seq<byte>, b: seq<byte>)
    ensures Sum(a + b) == (Sum(a) + Sum(b)) % 256
    decreases |b|
  {
    if b == [] {
      assert a + b == a && Sum(b) == 0;
      SumRange(a);
    } else {
      hide Sum;
      var front, last := b[..|b| - 1], b[|b| - 1];
      assert a + b == (a + front) + [last] && b == front + [last];
      SumConcat(a, front);
      SumSnoc(a + front, last);
      SumSnoc(front, last);
      var x, y, z := Sum(a), Sum(front), last as nat;
      assert Sum(a + b) == ((x + y) % 256 + z) % 256 && Sum(b) == (y + z) % 256;
      WrapSum(x, y, z);
    }
  }

  lemma WrapSum(x: nat, y: nat, z: nat)
    ensures ((x + y) % 256 + z) % 256 == (x + (y + z) % 256) % 256
  {}

  // ---------------------------------------------------------------- what is accepted

  /** check_msg_hdr: the lengths a type can have. */
  predicate HeaderOk(typ: byte, len: byte) {
    && (typ == TYPE_SYS ==> len == 1 || len == 5)
    && (typ == TYPE_READ ==> len == 4)
    && (typ == TYPE_WRITE ==> 4 < len <= 20)
    && len as int + 1 <= DATA
  }

  /** handle_sys_cmd: the error of a system command with n parameter bytes. */
  function SysError(cmd: byte, n: nat): byte {
    if cmd == SYS_CMD_SET_BOOTMODE || cmd == SYS_CMD_CLR_BOOTMODE then
      if n != 4 then ERR_DATA_LEN else ERR_NONE
    else if n != 0 then ERR_DATA_LEN
    else if cmd == SYS_CMD_REBOOT || cmd == SYS_CMD_SHUTDOWN || cmd == SYS_CMD_GET_BOOTMODE then ERR_NONE
    else ERR_SYS_CMD
  }

  predicate HasHeader(h: seq<byte>) {
    |h| == HEADER && h[0] == PREFIX_CHAR && HeaderOk(h[1], h[3])
  }

  function Served(typ: byte, payload: seq<byte>): byte {
    if typ == TYPE_SYS && payload != [] then SysError(payload[0], |payload| - 1) else ERR_NONE
  }

  /** The packet that carries a message. */
  function Frame(m: Message): seq<byte>
    requires |m.payload| < 256
  {
    var body := [PREFIX_CHAR, m.typ, m.num, |m.payload| as byte] + m.payload;
    body + [(255 - Sum(body)) as byte]
  }

  /** Everything from the first prefix on. */
  function FromPrefix(s: seq<byte>): (r: seq<byte>)
    ensures r != [] ==> r[0] == PREFIX_CHAR
    ensures |r| <= |s| && r == s[|s| - |r|..]
    ensures PREFIX_CHAR !in s[..|s| - |r|]
  {
    if s == [] then [] else if s[0] == PREFIX_CHAR then s else FromPrefix(s[1..])
  }

  // ---------------------------------------------------------------- one step

  predicate Wf(st: State) {
    match st
    case Header(have) => |have| < HEADER && (have != [] ==> have[0] == PREFIX_CHAR)
    case Data(hdr) => HasHeader(hdr)
    case Failed(_) => true
  }

  /** How many bytes are asked for. */
  function Need(st: State): (n: nat)
    requires Wf(st) && !st.Failed?
    ensures n > 0
  {
    match st
    case Header(have) => HEADER - |have|
    case Data(hdr) => hdr[3] as nat + 1
  }

  datatype Outcome = Outcome(state: State, got: seq<Message>)

  function HeaderStep(all: seq<byte>): (st: State)
    requires |all| == HEADER
    ensures Wf(st)
  {
    if all[0] != PREFIX_CHAR then Header(FromPrefix(all))
    else if HeaderOk(all[1], all[3]) then Data(all)
    else Failed(ERR_LEN)
  }

  function DataStep(hdr: seq<byte>, data: seq<byte>): (o: Outcome)
    requires HasHeader(hdr) && |data| == hdr[3] as nat + 1
    ensures Wf(o.state)
  {
    var payload := data[..|data| - 1];
    if Sum(hdr + data) != 255 then Outcome(Failed(ERR_CHECKSUM), [])
    else if Served(hdr[1], payload) != ERR_NONE then Outcome(Failed(Served(hdr[1], payload)), [])
    else Outcome(Header([]), [Message(hdr[1], hdr[2], payload)])
  }

  function Step(st: State, chunk: seq<byte>): (o: Outcome)
    requires Wf(st) && !st.Failed? && |chunk| == Need(st)
    ensures Wf(o.state)
  {
    match st
    case Header(have) => Outcome(HeaderStep(have + chunk), [])
    case Data(hdr) => DataStep(hdr, chunk)
  }

  // ---------------------------------------------------------------- a stream of bytes

  datatype Scanned = Scanned(state: State, rest: seq<byte>, got: seq<Message>)

  /** The parser fed from a stream until it fails or the stream has fewer bytes than it asks for. */
  function Scan(st: State, input: seq<byte>): Scanned
    requires Wf(st)
    decreases |input|
  {
    if st.Failed? || |input| < Need(st) then Scanned(st, input, [])
    else
      var o := Step(st, input[..Need(st)]);
      var later := Scan(o.state, input[Need(st)..]);
      Scanned(later.state, later.rest, o.got + later.got)
  }

  lemma ScanStep(st: State, chunk: seq<byte>, more: seq<byte>)
    requires Wf(st) && !st.Failed? && |chunk| == Need(st)
    ensures var o := Step(st, chunk);
      var later := Scan(o.state, more);
      Scan(st, chunk + more) == Scanned(later.state, later.rest, o.got + later.got)
  {
    assert (chunk + more)[..Need(st)] == chunk && (chunk + more)[Need(st)..] == more;
  }

  lemma {:induction false} PrefixAt(g: seq<byte>, p: seq<byte>)
    requires PREFIX_CHAR !in g && (p != [] ==> p[0] == PREFIX_CHAR)
    ensures FromPrefix(g + p) == p
  {
    if g == [] {
      assert g + p == p;
    } else {
      assert (g + p)[1..] == g[1..] + p && (g + p)[0] == g[0];
      PrefixAt(g[1..], p);
    }
  }

  /** A header whose bytes are all there is examined. */
  lemma HeaderRead(have: seq<byte>, chunk: seq<byte>, more: seq<byte>)
    requires Wf(Header(have)) && |have + chunk| == HEADER
    ensures Scan(Header(have), chunk + more) == Scan(HeaderStep(have + chunk), more)
  {
    hide Scan, HeaderStep;
    ScanStep(Header(have), chunk, more);
    var later := Scan(HeaderStep(have + chunk), more);
    assert [] + later.got == later.got;
  }

  /** Fewer than four bytes before the prefix: the header's first bytes are moved to their place. */
  lemma PartialRefill(g: seq<byte>, h: seq<byte>, more: seq<byte>)
    requires PREFIX_CHAR !in g && 0 < |g| < HEADER && |h| == HEADER && h[0] == PREFIX_CHAR
    ensures Scan(Header([]), g + (h + more)) == Scan(HeaderStep(h), more)
  {
    hide Scan, FromPrefix, HeaderStep;
    var k := HEADER - |g|;
    var a, b := h[..k], h[k..];
    var chunk := g + a;
    Moved(g, a);
    assert h == a + b && [] + chunk == chunk;
    Regroup(g, a, b, more);
    HeaderRead([], chunk, b + more);
    HeaderRead(a, b, more);
  }

  lemma Regroup(g: seq<byte>, a: seq<byte>, b: seq<byte>, more: seq<byte>)
    ensures g + ((a + b) + more) == (g + a) + (b + more)
  {}

  lemma Moved(g: seq<byte>, a: seq<byte>)
    requires PREFIX_CHAR !in g && g != [] && a != [] && a[0] == PREFIX_CHAR && |g + a| == HEADER
    ensures HeaderStep(g + a) == Header(a)
  {
    PrefixAt(g, a);
    assert (g + a)[0] == g[0];
  }

  /** Whatever comes before the first prefix, the header examined is the four bytes from it on. */
  lemma {:induction false} LocksOntoPrefix(g: seq<byte>, h: seq<byte>, more: seq<byte>)
    requires PREFIX_CHAR !in g && |h| == HEADER && h[0] == PREFIX_CHAR
    ensures Scan(Header([]), g + (h + more)) == Scan(HeaderStep(h), more)
    decreases |g|
  {
    hide Scan, FromPrefix;
    if g == [] {
      assert g + (h + more) == h + more && [] + h == h;
      HeaderRead([], h, more);
    } else if |g| < HEADER {
      PartialRefill(g, h, more);
    } else {
      var chunk, rest := g[..HEADER], g[HEADER..] + (h + more);
      PrefixAt(chunk, []);
      assert chunk + [] == chunk && [] + chunk == chunk;
      assert HeaderStep(chunk) == Header([]);
      hide HeaderStep;
      assert g + (h + more) == chunk + rest;
      HeaderRead([], chunk, rest);
      LocksOntoPrefix(g[HEADER..], h, more);
    }
  }

  /** A frame's bytes add up to 0xFF. */
  lemma FrameSum(m: Message)
    requires |m.payload| < 256
    ensures Sum(Frame(m)) == 255
  {
    var body := [PREFIX_CHAR, m.typ, m.num, |m.payload| as byte] + m.payload;
    var check := (255 - Sum(body)) as byte;
    assert (body + [check])[..|body|] == body;
  }

  /**
   Garbage without a prefix and then a frame: if its header passes, the checksum is right; the message
   is delivered, or refused for what it asks, and the parser is ready for the byte after the frame.
   */
  lemma FrameArrives(g: seq<byte>, m: Message, more: seq<byte>)
    requires PREFIX_CHAR !in g && |m.payload| < 256 && HeaderOk(m.typ, |m.payload| as byte)
    ensures var s := Scan(Header([]), g + (Frame(m) + more));
      if Served(m.typ, m.payload) == ERR_NONE then
        var later := Scan(Header([]), more);
        s == Scanned(later.state, later.rest, [m] + later.got)
      else s == Scanned(Failed(Served(m.typ, m.payload)), more, [])
  {
    var h := [PREFIX_CHAR, m.typ, m.num, |m.payload| as byte];
    var check := (255 - Sum(h + m.payload)) as byte;
    var data := m.payload + [check];
    assert Frame(m) == h + data;
    assert g + (Frame(m) + more) == g + (h + (data + more));
    LocksOntoPrefix(g, h, data + more);
    FrameSum(m);
    assert data[..|data| - 1] == m.payload;
    ScanStep(Data(h), data, more);
  }

  /** A stream of frames with garbage before each of them. */
  function Stream(gs: seq<seq<byte>>, ms: seq<Message>): seq<byte>
    requires |gs| == |ms| && forall m <- ms :: |m.payload| < 256
  {
    if ms == [] then [] else gs[0] + (Frame(ms[0]) + Stream(gs[1..], ms[1..]))
  }

  /** All messages of such a stream arrive, in order, and no byte is left over. */
  lemma {:induction false} AllArrive(gs: seq<seq<byte>>, ms: seq<Message>)
    requires |gs| == |ms| && forall g <- gs :: PREFIX_CHAR !in g
    requires forall m <- ms ::
      |m.payload| < 256 && HeaderOk(m.typ, |m.payload| as byte) && Served(m.typ, m.payload) == ERR_NONE
    ensures Scan(Header([]), Stream(gs, ms)) == Scanned(Header([]), [], ms)
    decreases |ms|
  {
    if ms != [] {
      AllArrive(gs[1..], ms[1..]);
      FrameArrives(gs[0], ms[0], Stream(gs[1..], ms[1..]));
      assert ms == [ms[0]] + ms[1..];
    }
  }

  /** Adding the same to two different remainders leaves them different. */
  lemma RemaindersDiffer(u: nat, v: nat, q: nat)
    requires u < v < 256
    ensures (u + q) % 256 != (v + q) % 256
  {
    var j, k := (u + q) / 256, (v + q) / 256;
    assert u + q == 256 * j + (u + q) % 256 && v + q == 256 * k + (v + q) % 256;
  }

  lemma BytesDiffer(p: nat, a: byte, b: byte, q: nat)
    requires a != b
    ensures ((p + a as nat) % 256 + q) % 256 != ((p + b as nat) % 256 + q) % 256
  {
    var x, y := (a as nat + p) % 256, (b as nat + p) % 256;
    if a < b { RemaindersDiffer(a as nat, b as nat, p); } else { RemaindersDiffer(b as nat, a as nat, p); }
    if x < y { RemaindersDiffer(x, y, q); } else { RemaindersDiffer(y, x, q); }
  }

  /** One changed byte changes the sum. */
  lemma SumChanges(all: seq<byte>, i: nat, b: byte)
    requires i < |all| && b != all[i]
    ensures Sum(all[i := b]) != Sum(all)
  {
    hide Sum;
    var before, after := all[..i], all[i + 1..];
    assert all == before + [all[i]] + after && all[i := b] == before + [b] + after;
    SumConcat(before + [all[i]], after);
    SumConcat(before + [b], after);
    SumSnoc(before, all[i]);
    SumSnoc(before, b);
    BytesDiffer(Sum(before), all[i], b, Sum(after));
  }

  /** One changed byte after the header is noticed. */
  lemma ChangedByteIsNoticed(hdr: seq<byte>, data: seq<byte>, k: nat, b: byte)
    requires HasHeader(hdr) && |data| == hdr[3] as nat + 1 && k < |data| && b != data[k]
    requires Sum(hdr + data) == 255
    ensures DataStep(hdr, data[k := b]) == Outcome(Failed(ERR_CHECKSUM), [])
  {
    assert hdr + data[k := b] == (hdr + data)[|hdr| + k := b];
    SumChanges(hdr + data, |hdr| + k, b);
    hide Sum;
  }

  /** The payload lengths that a type may have; only the buffer limits the types that are not known. */
  function Lengths(typ: byte): set<byte> {
    if typ == TYPE_SYS then {1, 5}
    else if typ == TYPE_READ then {4}
    else if typ == TYPE_WRITE then {5, 6, 7, 8, 9, 10, 11, 12, 13, 14, 15, 16, 17, 18, 19, 20}
    else {0, 1, 2, 3, 4, 5, 6, 7, 8, 9, 10, 11, 12, 13, 14, 15, 16, 17, 18, 19, 20, 21}
  }

  lemma AcceptedLengths(typ: byte, len: byte)
    ensures HeaderOk(typ, len) <==> len in Lengths(typ)
  {}

  /** The system commands that are carried out: three on their own, two with a boot mode. */
  predicate Command(payload: seq<byte>) {
    || payload in {[SYS_CMD_REBOOT], [SYS_CMD_SHUTDOWN], [SYS_CMD_GET_BOOTMODE]}
    || (|payload| == 5 && payload[0] in {SYS_CMD_SET_BOOTMODE, SYS_CMD_CLR_BOOTMODE})
  }

  /**
   A system packet goes through exactly when it carries one of these commands; otherwise the parser stops with
   the error for an unknown command, or for the wrong number of parameters.
   */
  lemma SystemCommands(g: seq<byte>, m: Message, more: seq<byte>)
    requires PREFIX_CHAR !in g && m.typ == TYPE_SYS && (|m.payload| == 1 || |m.payload| == 5)
    ensures var s := Scan(Header([]), g + (Frame(m) + more));
      if Command(m.payload) then
        var later := Scan(Header([]), more);
        s == Scanned(later.state, later.rest, [m] + later.got)
      else s == Scanned(Failed(if |m.payload| == 1 && m.payload[0] !in {SYS_CMD_SET_BOOTMODE, SYS_CMD_CLR_BOOTMODE}
                               then ERR_SYS_CMD else ERR_DATA_LEN), more, [])
  {
    hide Scan, Frame;
    FrameArrives(g, m, more);
    if |m.payload| == 1 { assert m.payload == [m.payload[0]]; }
  }

  /** Packets of any other type go through whatever they carry. */
  lemma OtherPackets(g: seq<byte>, m: Message, more: seq<byte>)
    requires PREFIX_CHAR !in g && m.typ != TYPE_SYS && |m.payload| < 256 && HeaderOk(m.typ, |m.payload| as byte)
    ensures var later := Scan(Header([]), more);
      Scan(Header([]), g + (Frame(m) + more)) == Scanned(later.state, later.rest, [m] + later.got)
  {
    hide Scan, Frame, HeaderOk;
    FrameArrives(g, m, more);
  }

  // ---------------------------------------------------------------- the link

  datatype ParseState = ParseHeader | ParseData

  /** The packet sent in answer to a header. */
  function Reply(typ: byte, num: byte, payload: seq<byte>): seq<byte>
    requires |payload| < 256
  {
    Frame(Message(typ, num, payload))
  }

  /** What is sent after a message was accepted: only system commands are answered here. */
  function Answer(m: Message, mode: seq<byte>): seq<seq<byte>>
    requires |m.payload| < 256 && |mode| == 4
  {
    if m.typ != TYPE_SYS || m.payload == [] then []
    else if m.payload[0] == SYS_CMD_GET_BOOTMODE then [Reply(m.typ, m.num, [ERR_NONE] + mode)]
    else [Reply(m.typ, m.num, [ERR_NONE])]
  }

  /**
   Exactly the system commands are answered, once and under their own type and number: with the code for no
   error, and the boot mode behind it if that was asked for.
   */
  lemma AnswerTells(m: Message, mode: seq<byte>)
    requires |m.payload| < 256 && |mode| == 4
    ensures m.typ == TYPE_SYS && Command(m.payload) ==>
      var carried := if m.payload == [SYS_CMD_GET_BOOTMODE] then [ERR_NONE] + mode else [ERR_NONE];
      Answer(m, mode) == [Frame(Message(m.typ, m.num, carried))]
    ensures m.typ != TYPE_SYS ==> Answer(m, mode) == []
  {
    hide Frame;
    if |m.payload| == 1 { assert m.payload == [m.payload[0]]; }
  }

  class Link {
    var state: ParseState
    const recv: array<byte>
    const send: array<byte>
    var buf: nat
    var len: nat
    /** The packets given to the transport, and the messages accepted from it. */
    var sent: seq<seq<byte>>
    ghost var handled: seq<Message>

    ghost predicate Buffers()
      reads send
    {
      recv.Length == HEADER + DATA && send.Length == HEADER + DATA && recv != send && send[0] == PREFIX_CHAR
    }

    ghost predicate Valid()
      reads this, recv, send
    {
      && Buffers()
      && match state
         case ParseHeader => buf < HEADER && len == HEADER - buf && (buf > 0 ==> recv[0] == PREFIX_CHAR)
         case ParseData => buf == HEADER && HasHeader(recv[..HEADER]) && len == recv[3] as nat + 1
    }

    ghost function View(): (st: State)
      requires Valid()
      reads this, recv, send
      ensures Wf(st) && !st.Failed? && len == Need(st)
    {
      match state
      case ParseHeader => Header(recv[..buf])
      case ParseData => Data(recv[..HEADER])
    }

    constructor ()
      ensures Valid() && View() == Header([]) && sent == [] && handled == [] && fresh(recv) && fresh(send)
    {
      state, buf, len, sent, handled := ParseHeader, 0, HEADER, [], [];
      recv := new byte[HEADER + DATA](_ => 0);
      send := new byte[HEADER + DATA](i => if i == 0 then PREFIX_CHAR else 0);
    }

    /** check_sum over the first n bytes. */
    static method CheckSum(a: array<byte>, n: nat) returns (sum: byte)
      requires n <= a.Length
      ensures sum as nat == Sum(a[..n])
    {
      sum := 0;
      var i := 0;
      while i < n
        invariant i <= n && sum as nat == Sum(a[..i])
      {
        assert a[..i + 1] == a[..i] + [a[i]];
        SumSnoc(a[..i], a[i]);
        sum := ((sum as nat + a[i] as nat) % 256) as byte;
        i := i + 1;
      }
    }

    /** Type and number are those of the packet being received. */
    method SendReply(payload: seq<byte>) returns (ret: int)
      requires Valid()
      modifies send, this`sent
      ensures Valid() && View() == old(View())
      ensures ret == if |payload| + 1 > DATA then -1 else 0
      ensures sent == if ret == 0 then old(sent) + [Reply(recv[1], recv[2], payload)] else old(sent)
    {
      hide Sum, HasHeader;
      var n := |payload|;
      if n + 1 > DATA { return -1; }
      FillReply(recv[1], recv[2], payload);
      var sum := CheckSum(send, HEADER + n);
      SumRange(send[..HEADER + n]);
      send[HEADER + n] := 255 - sum;
      assert send[..HEADER + n + 1] == send[..HEADER + n] + [255 - sum];
      sent := sent + [send[..HEADER + n + 1]];
      return 0;
    }

    method FillReply(typ: byte, num: byte, payload: seq<byte>)
      requires Buffers() && |payload| + 1 <= DATA
      modifies send
      ensures Buffers()
      ensures send[..HEADER + |payload|] == [PREFIX_CHAR, typ, num, |payload| as byte] + payload
    {
      send[1], send[2], send[3] := typ, num, |payload| as byte;
      var header := send[..HEADER];
      assert header == [PREFIX_CHAR, typ, num, |payload| as byte];
      CopyInto(send, HEADER, payload);
      assert send[..HEADER] == header;
    }

    method ResetParseState()
      requires Buffers()
      modifies this`state, this`buf, this`len, recv
      ensures Valid() && View() == Header([])
    {
      state := ParseHeader;
      recv[0], recv[1], recv[2], recv[3] := 0, 0, 0, 0;
      buf := 0;
      len := HEADER;
    }

    /** The bytes of the header from number i on are moved to its front. */
    method MoveDown(i: nat)
      requires Buffers() && 0 < i < HEADER
      modifies recv
      ensures recv[..HEADER - i] == old(recv[i..HEADER])
    {
      var k := 0;
      while k < HEADER - i
        invariant k <= HEADER - i
        invariant forall j :: 0 <= j < k ==> recv[j] == old(recv[i + j])
        invariant forall j :: k <= j < HEADER ==> recv[j] == old(recv[j])
      {
        recv[k] := recv[i + k];
        k := k + 1;
      }
    }

    /** The scan of a header that does not start with the prefix, over its first rlen bytes. */
    method Resync(rlen: nat)
      requires Buffers() && rlen == HEADER && recv[0] != PREFIX_CHAR && state == ParseHeader
      modifies this`buf, this`len, recv
      ensures Valid() && View() == Header(FromPrefix(old(recv[..HEADER])))
    {
      hide FromPrefix;
      ghost var all := recv[..HEADER];
      var i := 1;
      while i < rlen
        invariant 1 <= i <= rlen && recv[..HEADER] == all
        invariant forall k :: 0 <= k < i ==> all[k] != PREFIX_CHAR
      {
        if recv[i] == PREFIX_CHAR {
          MoveDown(i);
          break;
        }
        i := i + 1;
      }
      buf := rlen - i;
      len := HEADER + i - rlen;
      assert recv[..buf] == all[i..];
      assert all == all[..i] + all[i..];
      PrefixAt(all[..i], all[i..]);
    }

    /** handle_data: the check byte, then system commands; mode is the boot mode at this time. */
    method HandleData(mode: seq<byte>) returns (err: byte)
      requires Valid() && state == ParseData && |mode| == 4
      modifies this`sent, this`handled, send
      ensures Valid() && View() == old(View())
      ensures var o := DataStep(recv[..HEADER], recv[HEADER..HEADER + len]);
        && (err == if o.state.Failed? then o.state.err else ERR_NONE)
        && handled == old(handled) + o.got
        && sent == (if o.got == [] then old(sent) else old(sent) + Answer(o.got[0], mode))
    {
      hide Sum;
      var hdr, data := recv[..HEADER], recv[HEADER..HEADER + len];
      assert recv[..HEADER + len] == hdr + data;
      var sum := CheckSum(recv, HEADER + len);
      if sum != 0xFF { return ERR_CHECKSUM; }
      var payload := recv[HEADER..HEADER + len - 1];
      assert payload == data[..|data| - 1];
      if recv[1] == TYPE_SYS {
        err := SysError(payload[0], |payload| - 1);
        if err != ERR_NONE { return err; }
        if payload[0] == SYS_CMD_GET_BOOTMODE {
          var _ := SendReply([ERR_NONE] + mode);
        } else {
          var _ := SendReply([ERR_NONE]);
        }
      }
      handled := handled + [Message(recv[1], recv[2], payload)];
      return ERR_NONE;
    }

    /** parse_packet, once the bytes asked for are in the buffer. */
    method ParsePacket(mode: seq<byte>) returns (ret: int)
      requires Valid() && |mode| == 4
      modifies this, recv, send
      ensures Valid()
      ensures var o := match old(state)
                case ParseHeader => Outcome(HeaderStep(old(recv[..HEADER])), [])
                case ParseData => DataStep(old(recv[..HEADER]), old(recv[HEADER..HEADER + len]));
        && ret == (if o.state.Failed? then 1 else 0)
        && (!o.state.Failed? ==> View() == o.state)
        && handled == old(handled) + o.got
        && sent == old(sent) + (if o.state.Failed? then [Reply(old(recv[1]), old(recv[2]), [o.state.err])]
                                else if o.got == [] then [] else Answer(o.got[0], mode))
    {
      hide Sum, Frame, SysError;
      var err := ERR_NONE;
      match state {
        case ParseHeader =>
          if recv[0] == PREFIX_CHAR {
            if HeaderOk(recv[1], recv[3]) {
              state := ParseData;
              buf := HEADER;
              len := recv[3] as nat + 1;
            } else {
              err := ERR_LEN;
            }
          } else {
            Resync(buf + len);
          }
        case ParseData =>
          err := HandleData(mode);
          if err == ERR_NONE { ResetParseState(); }
      }
      if err == ERR_NONE { return 0; }
      var _ := SendReply([err]);
      return 1;
    }

    /** One turn of the main loop: the bytes asked for arrive; after an error the link starts over. */
    method Receive(chunk: seq<byte>, mode: seq<byte>) returns (ret: int)
      requires Valid() && |chunk| == len && |mode| == 4
      modifies this, recv, send
      ensures Valid()
      ensures var o := Step(old(View()), chunk);
        && ret == (if o.state.Failed? then 1 else 0)
        && View() == (if o.state.Failed? then Header([]) else o.state)
        && handled == old(handled) + o.got
    {
      hide Sum, Frame, SysError, DataStep, HeaderStep;
      ghost var before := recv[..];
      CopyInto(recv, buf, chunk);
      assert recv[..buf] == before[..buf] && recv[buf..buf + len] == chunk;
      assert state == ParseHeader ==> recv[..HEADER] == before[..buf] + chunk;
      ret := ParsePacket(mode);
      if ret != 0 { ResetParseState(); }
    }
  }
}
