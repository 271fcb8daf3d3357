/** The packets of the control protocol, and what the daemon answers to one whole request. */
module Packet {
  import opened Bytes
  import opened Tain
  import opened Supervisor
  import opened SupervisorControl

  const HEADER: nat := 3
  const PKT_SIZE: nat := 258

  /** How many bytes the packet that begins with these bytes has, as far as they tell. */
  function Need(buf: seq<byte>): (n: nat)
    ensures HEADER <= n <= PKT_SIZE
  {
    if |buf| < HEADER then HEADER else HEADER + (buf[2] as int)
  }

  /** A complete packet and nothing more. */
  predicate Whole(p: seq<byte>) {
    |p| >= HEADER && |p| == Need(p)
  }

  /** pkt_load. */
  function Load(proto: byte, kind: byte, data: seq<byte>): (p: seq<byte>)
    requires |data| <= 255
    ensures Whole(p) && p[0] == proto && p[1] == kind && p[HEADER..] == data
  {
    [proto, kind, |data|] + data
  }

  const CONTROL: byte := 67  // 'C'
  const QUERY: byte := 81    // 'Q'
  const PIDYANK: byte := 89  // 'Y'
  const ERROR: byte := 69    // 'E'
  const STATUS: byte := 83   // 'S'

  const ENOENT: u32 := 2
  const EBUSY: u32 := 16
  const ENOTDIR: u32 := 20
  const EPROTO: u32 := 71
  const ENOTSUP: u32 := 95

  // ---- fields ----

  const U64: int := 0x1_0000_0000_0000_0000

  /** upak64: least significant byte first. */
  function Pack64(u: nat): (b: seq<byte>)
    requires u < U64
    ensures |b| == 8
  {
    Pack32(u % U32_LIMIT) + Pack32(u / U32_LIMIT)
  }

  function Unpack64(b: seq<byte>): (u: nat)
    requires |b| == 8
  {
    (Unpack32(b[..4]) as nat) + (Unpack32(b[4..]) as nat) * U32_LIMIT
  }

  lemma PackUnpack64(u: nat)
    requires u < U64
    ensures Unpack64(Pack64(u)) == u
  {
    hide Pack32, Unpack32;
    PackUnpack32(u % U32_LIMIT);
    PackUnpack32(u / U32_LIMIT);
    assert Pack64(u)[..4] == Pack32(u % U32_LIMIT) && Pack64(u)[4..] == Pack32(u / U32_LIMIT);
  }

  /** Most significant byte first. */
  function Reverse4(b: seq<byte>): (r: seq<byte>)
    requires |b| == 4
    ensures |r| == 4
  {
    [b[3], b[2], b[1], b[0]]
  }

  /** tain_pack: seconds and nanoseconds, most significant byte first. */
  function TainPack(t: Tain): (b: seq<byte>)
    ensures |b| == 12
  {
    Reverse4(Pack32(t.sec / U32_LIMIT)) + Reverse4(Pack32(t.sec % U32_LIMIT)) + Reverse4(Pack32(t.nsec))
  }

  function TainUnpack(b: seq<byte>): (t: Stamp)
    requires |b| == 12
  {
    Stamp((Unpack32(Reverse4(b[4..8])) as nat) + (Unpack32(Reverse4(b[..4])) as nat) * U32_LIMIT,
          Unpack32(Reverse4(b[8..])))
  }

  lemma TainRoundTrip(t: Tain)
    ensures TainUnpack(TainPack(t)) == t
  {
    var hi, lo := Pack32(t.sec / U32_LIMIT), Pack32(t.sec % U32_LIMIT);
    var b := TainPack(t);
    assert b[..4] == Reverse4(hi) && b[4..8] == Reverse4(lo) && b[8..] == Reverse4(Pack32(t.nsec));
    ReverseTwice(hi);
    ReverseTwice(lo);
    ReverseTwice(Pack32(t.nsec));
    hide Pack32, Unpack32, Reverse4;
    PackUnpack32(t.sec / U32_LIMIT);
    PackUnpack32(t.sec % U32_LIMIT);
    PackUnpack32(t.nsec);
  }

  lemma ReverseTwice(b: seq<byte>)
    requires |b| == 4
    ensures Reverse4(Reverse4(b)) == b
  {
  }

  function Bit(on: bool, value: int): int {
    if on then value else 0
  }

  predicate HasBit(b: byte, value: int)
    requires value > 0
  {
    (b as int) / value % 2 == 1
  }

  /** The flags of a service, as in its status. */
  function SvdefFlags(sv: Svdef): (b: byte) {
    Bit(sv.active, 1) + Bit(sv.hasLog, 2) + Bit(sv.cull, 4) + Bit(sv.cycle, 8) + Bit(sv.down, 16) + Bit(sv.once, 32)
  }

  lemma SvdefFlagsExact(sv: Svdef)
    ensures var b := SvdefFlags(sv);
            && HasBit(b, 1) == sv.active && HasBit(b, 2) == sv.hasLog && HasBit(b, 4) == sv.cull
            && HasBit(b, 8) == sv.cycle && HasBit(b, 16) == sv.down && HasBit(b, 32) == sv.once
  {
  }

  function SubFlags(s: Sub, isLog: bool): (b: byte) {
    Bit(isLog, 1) + Bit(s.isReset, 2) + Bit(s.isOnce, 4) + Bit(s.isPaused, 8) + Bit(s.wantDown, 16) + Bit(s.failing, 32)
  }

  lemma SubFlagsExact(s: Sub, isLog: bool)
    ensures var b := SubFlags(s, isLog);
            && HasBit(b, 1) == isLog && HasBit(b, 2) == s.isReset && HasBit(b, 4) == s.isOnce
            && HasBit(b, 8) == s.isPaused && HasBit(b, 16) == s.wantDown && HasBit(b, 32) == s.failing
  {
  }

  // ---- status ----

  /** Process id and start time of the daemon itself. */
  datatype Self = Self(pid: u32, when: Tain)

  function SubBytes(s: Sub, isLog: bool): (b: seq<byte>)
    ensures |b| == 18
  {
    Pack32(Wrap32(s.pid)) + TainPack(s.when) + [SubFlags(s, isLog), 0]
  }

  function StatusData(me: Self, sv: Svdef): (b: seq<byte>)
    ensures |b| == 66
  {
    var head := Pack32(me.pid) + TainPack(me.when) + TainPack(sv.when) + [SvdefFlags(sv), 0];
    head + SubBytes(sv.main, false) + (if sv.hasLog then SubBytes(sv.log, true) else Zeros(18))
  }

  lemma SubRoundTrip(s: Sub, isLog: bool)
    ensures var b := SubBytes(s, isLog);
            && Unpack32(b[..4]) == Wrap32(s.pid) && TainUnpack(b[4..16]) == s.when
            && HasBit(b[16], 1) == isLog && HasBit(b[16], 2) == s.isReset && HasBit(b[16], 4) == s.isOnce
            && HasBit(b[16], 8) == s.isPaused && HasBit(b[16], 16) == s.wantDown && HasBit(b[16], 32) == s.failing
  {
    hide Pack32, Unpack32, TainPack, TainUnpack, SubFlags, HasBit, Wrap32;
    var b := SubBytes(s, isLog);
    assert b[..4] == Pack32(Wrap32(s.pid)) && b[4..16] == TainPack(s.when) && b[16] == SubFlags(s, isLog);
    PackUnpack32(Wrap32(s.pid));
    TainRoundTrip(s.when);
    SubFlagsExact(s, isLog);
  }

  /** What a client reads out of the status of a service is what the daemon knows of it. */
  lemma StatusRoundTrip(me: Self, sv: Svdef)
    ensures var b := StatusData(me, sv);
            && Unpack32(b[..4]) == me.pid && TainUnpack(b[4..16]) == me.when && TainUnpack(b[16..28]) == sv.when
            && HasBit(b[28], 1) == sv.active && HasBit(b[28], 2) == sv.hasLog && HasBit(b[28], 4) == sv.cull
            && HasBit(b[28], 8) == sv.cycle && HasBit(b[28], 16) == sv.down && HasBit(b[28], 32) == sv.once
            && b[30..48] == SubBytes(sv.main, false)
            && b[48..66] == (if sv.hasLog then SubBytes(sv.log, true) else Zeros(18))
  {
    hide Pack32, Unpack32, TainPack, TainUnpack, SvdefFlags, HasBit, SubBytes;
    var b := StatusData(me, sv);
    assert b[..4] == Pack32(me.pid) && b[4..16] == TainPack(me.when) && b[16..28] == TainPack(sv.when);
    assert b[28] == SvdefFlags(sv) && b[30..48] == SubBytes(sv.main, false);
    PackUnpack32(me.pid);
    TainRoundTrip(me.when);
    TainRoundTrip(sv.when);
    SvdefFlagsExact(sv);
  }

  // ---- requests ----

  function RequestFlags(q: Request): byte {
    Bit(q.which.Log?, 1) + Bit(q.group, 2)
  }

  /** The payload of a control request, as the client packs it. */
  function RequestData(q: Request): (b: seq<byte>)
    requires q.id.dev < U64 && q.id.ino < U64 && (q.cmd as int) < 256
    ensures |b| == 18
  {
    Pack64(q.id.dev) + Pack64(q.id.ino) + [q.cmd as int, RequestFlags(q)]
  }

  /** The request in a payload, as the daemon unpacks it. */
  function RequestOf(b: seq<byte>): (q: Request)
    requires |b| == 18
  {
    Request(Id(Unpack64(b[..8]), Unpack64(b[8..16])), if HasBit(b[17], 1) then Log else Main,
            (b[16] as int) as char, HasBit(b[17], 2))
  }

  lemma RequestRoundTrip(q: Request)
    requires q.id.dev < U64 && q.id.ino < U64 && (q.cmd as int) < 256
    ensures RequestOf(RequestData(q)) == q
  {
    hide Pack64, Unpack64;
    var b := RequestData(q);
    assert b[..8] == Pack64(q.id.dev) && b[8..16] == Pack64(q.id.ino) && b[16] == q.cmd as int;
    PackUnpack64(q.id.dev);
    PackUnpack64(q.id.ino);
  }

  // ---- one whole request ----

  function ErrorPkt(code: u32): (p: seq<byte>)
    ensures Whole(p) && |p| == 7 && p[0] == 2 && p[1] == ERROR
  {
    Load(2, ERROR, Pack32(code))
  }

  function ReplyCode(reply: Reply): u32 {
    match reply
    case NoEntry => ENOENT
    case Busy => EBUSY
    case Unknown => EPROTO
    case Okay => 0
  }

  /** What one request does and what is answered, taken as a whole. */
  function Handle(st: State, me: Self, p: seq<byte>): (r: (State, seq<byte>))
    requires Whole(p)
  {
    if p[0] != 2 then (st, ErrorPkt(EPROTO))
    else if p[1] == CONTROL && |p| == 21 then
      var (st1, reply) := Serve(st, RequestOf(p[HEADER..]));
      (st1, ErrorPkt(ReplyCode(reply)))
    else if p[1] == QUERY && |p| == 19 then
      var i := Lookup(st.svs, Id(Unpack64(p[3..11]), Unpack64(p[11..19])));
      (st, if i == |st.svs| then ErrorPkt(ENOTDIR) else Load(2, STATUS, StatusData(me, st.svs[i])))
    else (st, ErrorPkt(if p[1] == PIDYANK then ENOTSUP else EPROTO))
  }

  /** The answer is always a well-formed error packet of 7 bytes or status packet of 69. */
  lemma HandleForm(st: State, me: Self, p: seq<byte>)
    requires Whole(p)
    ensures var r := Handle(st, me, p).1;
            && Whole(r) && r[0] == 2
            && ((r[1] == ERROR && |r| == 7) || (r[1] == STATUS && |r| == 69 && p[1] == QUERY && |p| == 19))
  {
    hide StatusData, Lookup, Serve, RequestOf;
  }

  /** The table changes only for a control request in protocol 2 of 21 bytes that names a known service
      that is not being deactivated, and only the entry of that service changes. */
  lemma HandleTouches(st: State, me: Self, p: seq<byte>)
    requires Whole(p)
    ensures var r := Handle(st, me, p).0;
            r == st ||
            (&& p[0] == 2 && p[1] == CONTROL && |p| == 21
             && var i := Lookup(st.svs, RequestOf(p[HEADER..]).id);
                && i < |st.svs| && !st.svs[i].cull
                && |r.svs| == |st.svs| && forall k :: 0 <= k < |st.svs| && k != i ==> r.svs[k] == st.svs[k])
  {
    hide StatusData, Lookup, Control, RequestOf;
  }

  /** The service a packet names: device and inode, eight bytes each after the header. */
  function Named(p: seq<byte>): Id
    requires |p| >= 19
  {
    Id(Unpack64(p[3..11]), Unpack64(p[11..19]))
  }

  /** The first entry of a service. */
  ghost predicate EntryOf(svs: seq<Svdef>, i: nat, id: Id) {
    i < |svs| && svs[i].id == id && forall j :: 0 <= j < i ==> svs[j].id != id
  }

  lemma {:induction false} LookupFirst(svs: seq<Svdef>, id: Id)
    ensures var i := Lookup(svs, id);
            && (forall j :: 0 <= j < i ==> svs[j].id != id)
            && (forall k :: EntryOf(svs, k, id) ==> k == i)
  {
    if svs != [] && svs[0].id != id {
      LookupFirst(svs[1..], id);
      forall j | 0 <= j < Lookup(svs, id)
        ensures svs[j].id != id
      {
        if j > 0 {
          assert svs[j] == svs[1..][j - 1];
        }
      }
    }
  }

  /** What a control packet does and how it is answered: 2 for a service without an entry, 16 for one
      being deactivated, 71 for an unknown command, none of which changes anything; otherwise the
      command is carried out on the process and with the reach the flags say, and answered with 0. */
  lemma ControlReplies(st: State, me: Self, p: seq<byte>, i: nat)
    requires Whole(p) && p[0] == 2 && p[1] == 67 && |p| == 21
    ensures var r := Handle(st, me, p);
            && |r.1| == 7 && r.1[..3] == [2, 69, 4]
            && ((forall k :: 0 <= k < |st.svs| ==> st.svs[k].id != Named(p)) ==> Unpack32(r.1[3..]) == 2 && r.0 == st)
            && (EntryOf(st.svs, i, Named(p)) ==>
                  var cmd := (p[19] as int) as char;
                  if st.svs[i].cull then Unpack32(r.1[3..]) == 16 && r.0 == st
                  else if cmd !in "DUacdhikopqtuw12" then Unpack32(r.1[3..]) == 71 && r.0 == st
                  else
                    var c := Control(st.svs[i], if HasBit(p[20], 1) then Log else Main, cmd, HasBit(p[20], 2), st.w);
                    Unpack32(r.1[3..]) == 0 && r.0 == State(st.svs[i := c.0], c.1))
  {
    hide Lookup, Control, Unpack64, Pack32, Unpack32, HasBit;
    var data := p[HEADER..];
    assert data[..8] == p[3..11] && data[8..16] == p[11..19] && data[16] == p[19] && data[17] == p[20];
    LookupFirst(st.svs, Named(p));
    var j := Lookup(st.svs, Named(p));
    var q := RequestOf(data);
    CodeBack(ReplyCode(Serve(st, q).1));
    if j < |st.svs| {
      CommandsKnown(st.svs[j], q.which, q.cmd, q.group, st.w);
      UnknownSame(st.svs, j);
    }
  }

  lemma CodeBack(code: u32)
    ensures var r := ErrorPkt(code); r[..3] == [2, 69, 4] && Unpack32(r[3..]) == code
  {
    hide Pack32, Unpack32;
    PackUnpack32(code);
    assert ErrorPkt(code)[3..] == Pack32(code);
  }

  lemma UnknownSame(svs: seq<Svdef>, i: nat)
    requires i < |svs|
    ensures svs[i := svs[i]] == svs
  {
  }

  /** All other packets change nothing. A query is answered with the status of its service, or with 20;
      a packet of another protocol, type or size with 71, except for the type that is not supported. */
  lemma OtherReplies(st: State, me: Self, p: seq<byte>, i: nat)
    requires Whole(p) && !(p[0] == 2 && p[1] == 67 && |p| == 21)
    ensures var r := Handle(st, me, p);
            && r.0 == st
            && (p[0] == 2 && p[1] == 81 && |p| == 19 ==>
                  && (EntryOf(st.svs, i, Named(p)) ==> r.1 == [2, 83, 66] + StatusData(me, st.svs[i]))
                  && ((forall k :: 0 <= k < |st.svs| ==> st.svs[k].id != Named(p)) ==> r.1[..3] == [2, 69, 4] && Unpack32(r.1[3..]) == 20))
            && (!(p[0] == 2 && p[1] == 81 && |p| == 19) ==>
                  |r.1| == 7 && r.1[..3] == [2, 69, 4] && Unpack32(r.1[3..]) == if p[0] == 2 && p[1] == 89 then 95 else 71)
  {
    hide Lookup, Unpack64, Pack32, Unpack32, StatusData;
    CodeBack(20);
    CodeBack(71);
    CodeBack(95);
    if p[0] == 2 && p[1] == 81 && |p| == 19 {
      LookupFirst(st.svs, Named(p));
    }
  }

  // ---- byte order ----

  /** The unpacked number, byte by byte. */
  lemma Positional64(b: seq<byte>)
    requires |b| == 8
    ensures Unpack64(b) == (b[0] as int) + 0x100 * (b[1] as int) + 0x1_0000 * (b[2] as int) + 0x100_0000 * (b[3] as int)
              + 0x1_0000_0000 * (b[4] as int) + 0x100_0000_0000 * (b[5] as int)
              + 0x1_0000_0000_0000 * (b[6] as int) + 0x100_0000_0000_0000 * (b[7] as int)
  {
    hide Unpack32;
    LittleEndian32(b[..4]);
    LittleEndian32(b[4..]);
  }

  /** Seconds, then nanoseconds, most significant byte first. */
  lemma TainPositional(b: seq<byte>)
    requires |b| == 12
    ensures TainUnpack(b).sec == (b[7] as int) + 0x100 * (b[6] as int) + 0x1_0000 * (b[5] as int) + 0x100_0000 * (b[4] as int)
              + 0x1_0000_0000 * (b[3] as int) + 0x100_0000_0000 * (b[2] as int)
              + 0x1_0000_0000_0000 * (b[1] as int) + 0x100_0000_0000_0000 * (b[0] as int)
    ensures TainUnpack(b).nsec == (b[11] as int) + 0x100 * (b[10] as int) + 0x1_0000 * (b[9] as int) + 0x100_0000 * (b[8] as int)
  {
    hide Unpack32;
    LittleEndian32(Reverse4(b[4..8]));
    LittleEndian32(Reverse4(b[..4]));
    LittleEndian32(Reverse4(b[8..]));
  }
}
