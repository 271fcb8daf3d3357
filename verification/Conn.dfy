/** A client connection: requests arrive and replies leave in pieces of any size, and the daemon deals
    with them as if each request and each reply were one piece. */
module Conn {
  import opened Bytes
  import opened Supervisor
  import opened Packet

  datatype Conn = Closed | Reading(buf: seq<byte>) | Writing(pkt: seq<byte>, w: nat)

  // ---- reading ----

  /** What one read call yields; after the last one the socket has nothing more for now. */
  datatype Read = Bytes(b: seq<byte>) | Eof | Fail

  /** How pkt_read leaves its loop. */
  datatype Outcome = Full(buf: seq<byte>) | Short(buf: seq<byte>) | Lost

  /** The bytes a read call can still store. */
  function Fitting(buf: seq<byte>, b: seq<byte>): (r: seq<byte>)
    requires |buf| <= PKT_SIZE
    ensures |buf| + |r| <= PKT_SIZE && r <= b
    ensures |buf| + |b| <= PKT_SIZE ==> r == b
  {
    if |b| <= PKT_SIZE - |buf| then b else b[..PKT_SIZE - |buf|]
  }

  /** pkt_read from the bytes it has. */
  function PktRead(buf: seq<byte>, input: seq<Read>): (r: Outcome)
    requires |buf| <= PKT_SIZE
    ensures r.Full? ==> Whole(r.buf)
    ensures r.Short? ==> |r.buf| < Need(r.buf)
    ensures !r.Lost? ==> |buf| <= |r.buf| <= PKT_SIZE
    decreases |input|
  {
    if |buf| >= Need(buf) then (if |buf| == Need(buf) then Full(buf) else Lost)
    else if input == [] then Short(buf)
    else if input[0].Bytes? && input[0].b != [] then PktRead(buf + Fitting(buf, input[0].b), input[1..])
    else Lost
  }

  /** perpd_conn_read: a complete packet is executed at once; a read that yields nothing closes. */
  function ConnRead(c: Conn, st: State, me: Self, input: seq<Read>): (r: (Conn, State))
    requires c.Reading? && |c.buf| <= PKT_SIZE
  {
    match PktRead(c.buf, input)
    case Lost => (Closed, st)
    case Short(buf) => (if |buf| == |c.buf| then Closed else Reading(buf), st)
    case Full(buf) =>
      if |buf| == |c.buf| then (Closed, st) else
        var (st1, reply) := Handle(st, me, buf);
        (Writing(reply, 0), st1)
  }

  // ---- writing ----

  /** perpd_conn_write when the socket takes n more bytes. */
  function ConnWrite(c: Conn, n: nat): (r: (Conn, seq<byte>))
    requires c.Writing? && c.w <= |c.pkt|
  {
    if n < |c.pkt| - c.w then (c.(w := c.w + n), c.pkt[c.w..c.w + n])
    else (Reading([]), c.pkt[c.w..])
  }

  // ---- framing ----

  /** The complete packets at the front of a byte stream. */
  function Frames(s: seq<byte>): (ps: seq<seq<byte>>) {
    if |s| < Need(s) then [] else [s[..Need(s)]] + Frames(s[Need(s)..])
  }

  function Rest(s: seq<byte>): (r: seq<byte>) {
    if |s| < Need(s) then s else Rest(s[Need(s)..])
  }

  function Join(ps: seq<seq<byte>>): (s: seq<byte>) {
    if ps == [] then [] else Join(ps[..|ps| - 1]) + ps[|ps| - 1]
  }

  lemma JoinAppend(ps: seq<seq<byte>>, p: seq<byte>)
    ensures Join(ps + [p]) == Join(ps) + p
  {
    assert (ps + [p])[..|ps|] == ps;
  }

  lemma NeedAppend(a: seq<byte>, b: seq<byte>)
    requires |a| >= HEADER
    ensures Need(a + b) == Need(a)
  {
  }

  /** Bytes that stay within one packet add to the rest, and complete a frame when they reach its end. */
  lemma {:induction false} FramesAppend(s: seq<byte>, b: seq<byte>)
    requires |Rest(s) + b| <= Need(Rest(s) + b)
    ensures var t := Rest(s) + b;
            if Whole(t) then Frames(s + b) == Frames(s) + [t] && Rest(s + b) == []
            else Frames(s + b) == Frames(s) && Rest(s + b) == t
  {
    if |s| < Need(s) {
      var t := s + b;
      if Whole(t) {
        assert t[..Need(t)] == t && t[Need(t)..] == [];
        assert Frames([]) == [] && Rest([]) == [];
      }
    } else {
      var n := Need(s);
      NeedAppend(s, b);
      assert (s + b)[..n] == s[..n] && (s + b)[n..] == s[n..] + b;
      FramesAppend(s[n..], b);
      var t := Rest(s) + b;
      if Whole(t) {
        assert [s[..n]] + (Frames(s[n..]) + [t]) == [s[..n]] + Frames(s[n..]) + [t];
      }
    }
  }

  lemma {:induction false} RestShort(s: seq<byte>)
    ensures |Rest(s)| < Need(Rest(s))
  {
    if |s| >= Need(s) {
      RestShort(s[Need(s)..]);
    }
  }

  // ---- requests as a whole ----

  /** What happens to the daemon when every request is one event. */
  datatype Atom = Change(st: State) | Asked(p: seq<byte>)

  /** The state after such events, and the replies. */
  function Atomic(st: State, me: Self, es: seq<Atom>): (r: (State, seq<seq<byte>>)) {
    if es == [] then (st, []) else
      var (st1, replies) := Atomic(st, me, es[..|es| - 1]);
      match es[|es| - 1]
      case Change(st2) => (st2, replies)
      case Asked(p) =>
        if !Whole(p) then (st1, replies) else
          var (st2, reply) := Handle(st1, me, p);
          (st2, replies + [reply])
  }

  function Requests(es: seq<Atom>): (ps: seq<seq<byte>>) {
    if es == [] then [] else
      var ps := Requests(es[..|es| - 1]);
      if es[|es| - 1].Asked? then ps + [es[|es| - 1].p] else ps
  }

  lemma AtomicAppend(st: State, me: Self, es: seq<Atom>, e: Atom)
    ensures var (st1, replies) := Atomic(st, me, es);
            Atomic(st, me, es + [e]) ==
            if e.Change? then (e.st, replies)
            else if !Whole(e.p) then (st1, replies)
            else (Handle(st1, me, e.p).0, replies + [Handle(st1, me, e.p).1])
    ensures Requests(es + [e]) == if e.Asked? then Requests(es) + [e.p] else Requests(es)
  {
    hide Handle, Whole;
    assert (es + [e])[..|es|] == es;
  }

  // ---- requests in pieces ----

  /** A connection together with the daemon: bytes received and sent so far, and the same history with
      every request as one event. */
  datatype Session = Session(conn: Conn, st: State, got: seq<byte>, out: seq<byte>, es: seq<Atom>)

  /** The daemon's state changes for other reasons, or the socket is ready. */
  datatype Happening = Elsewhere(st: State) | Readable(chunks: seq<seq<byte>>) | Writable(n: nat)

  function Reads(chunks: seq<seq<byte>>): (r: seq<Read>)
    ensures |r| == |chunks|
  {
    seq(|chunks|, i requires 0 <= i < |chunks| => Bytes(chunks[i]))
  }

  function Glue(chunks: seq<seq<byte>>): (s: seq<byte>) {
    if chunks == [] then [] else chunks[0] + Glue(chunks[1..])
  }

  /** What a client that sends one request at a time can make happen: each readable event brings at
      least one byte, and none beyond the packet being read. */
  ghost predicate Polite(s: Session, h: Happening) {
    match h
    case Elsewhere(_) => true
    case Readable(chunks) =>
      && s.conn.Reading? && chunks != [] && (forall k :: 0 <= k < |chunks| ==> chunks[k] != [])
      && |s.conn.buf + Glue(chunks)| <= Need(s.conn.buf + Glue(chunks))
    case Writable(_) => s.conn.Writing?
  }

  function Advance(s: Session, me: Self, h: Happening): (r: Session) {
    match h
    case Elsewhere(st) => Session(s.conn, st, s.got, s.out, s.es + [Change(st)])
    case Readable(chunks) =>
      if !s.conn.Reading? || |s.conn.buf| > PKT_SIZE then s else
        var (c, st) := ConnRead(s.conn, s.st, me, Reads(chunks));
        var got := s.got + Glue(chunks);
        Session(c, st, got, s.out, if c.Writing? then s.es + [Atom.Asked(s.conn.buf + Glue(chunks))] else s.es)
    case Writable(n) =>
      if !s.conn.Writing? || s.conn.w > |s.conn.pkt| then s else
        var (c, b) := ConnWrite(s.conn, n);
        Session(c, s.st, s.got, s.out + b, s.es)
  }

  /** The part of the reply that is still to be sent. */
  function Unsent(c: Conn): (b: seq<byte>) {
    if c.Writing? && c.w <= |c.pkt| then c.pkt[c.w..] else []
  }

  /** The session in pieces shows what the session in whole requests shows. */
  ghost predicate Refines(s: Session, st0: State, me: Self) {
    && Atomic(st0, me, s.es) == (s.st, Atomic(st0, me, s.es).1)
    && Requests(s.es) == Frames(s.got)
    && s.out + Unsent(s.conn) == Join(Atomic(st0, me, s.es).1)
    && match s.conn
       case Closed => false
       case Reading(buf) => buf == Rest(s.got) && |buf| < Need(buf)
       case Writing(pkt, w) => Rest(s.got) == [] && Whole(pkt) && w < |pkt|
  }

  lemma GlueFirst(buf: seq<byte>, chunks: seq<seq<byte>>)
    requires chunks != []
    ensures (buf + chunks[0]) + Glue(chunks[1..]) == buf + Glue(chunks)
  {
  }

  /** However the bytes are split, reading delivers them all, and nothing is lost. */
  lemma {:induction false} PktReadAll(buf: seq<byte>, chunks: seq<seq<byte>>)
    requires |buf| <= PKT_SIZE && forall k :: 0 <= k < |chunks| ==> chunks[k] != []
    requires |buf + Glue(chunks)| <= Need(buf + Glue(chunks))
    ensures var t := buf + Glue(chunks);
            PktRead(buf, Reads(chunks)) == if Whole(t) then Full(t) else Short(t)
    decreases |chunks|
  {
    var t := buf + Glue(chunks);
    if chunks == [] {
      assert t == buf;
    } else {
      if |buf| >= HEADER {
        NeedAppend(buf, Glue(chunks));
      }
      assert Glue(chunks) == chunks[0] + Glue(chunks[1..]);
      assert |buf| < Need(buf);
      GlueFirst(buf, chunks);
      assert Reads(chunks)[1..] == Reads(chunks[1..]);
      assert Fitting(buf, chunks[0]) == chunks[0];
      PktReadAll(buf + chunks[0], chunks[1..]);
    }
  }

  lemma GlueSome(chunks: seq<seq<byte>>)
    requires chunks != [] && chunks[0] != []
    ensures |Glue(chunks)| > 0
  {
  }

  lemma ReadRefines(s: Session, st0: State, me: Self, chunks: seq<seq<byte>>)
    requires Refines(s, st0, me) && Polite(s, Readable(chunks))
    ensures Refines(Advance(s, me, Readable(chunks)), st0, me)
  {
    hide Handle, Atomic, Requests, Frames, Rest, Glue, Join, PktRead, Whole, Need;
    var buf := s.conn.buf;
    var t := buf + Glue(chunks);
    GlueSome(chunks);
    PktReadAll(buf, chunks);
    FramesAppend(s.got, Glue(chunks));
    RestShort(s.got + Glue(chunks));
    if Whole(t) {
      AtomicAppend(st0, me, s.es, Atom.Asked(t));
      var r := Handle(s.st, me, t);
      HandleForm(s.st, me, t);
      assert |r.1| > 0 by { WholeSome(r.1); }
      JoinAppend(Atomic(st0, me, s.es).1, r.1);
      assert s.out + [] == s.out && r.1[0..] == r.1;
    }
  }

  lemma WholeSome(p: seq<byte>)
    requires Whole(p)
    ensures |p| > 0
  {
  }

  lemma WriteRefines(s: Session, st0: State, me: Self, n: nat)
    requires Refines(s, st0, me) && s.conn.Writing?
    ensures Refines(Advance(s, me, Writable(n)), st0, me)
  {
    hide Atomic, Requests, Frames, Rest, Join, Whole;
    var pkt, w := s.conn.pkt, s.conn.w;
    if n < |pkt| - w {
      assert pkt[w..] == pkt[w..w + n] + pkt[w + n..];
      assert s.out + pkt[w..] == (s.out + pkt[w..w + n]) + pkt[w + n..];
    } else {
      assert (s.out + pkt[w..]) + [] == s.out + pkt[w..];
      assert |Rest(s.got)| < Need(Rest(s.got));
    }
  }

  lemma AdvanceRefines(s: Session, st0: State, me: Self, h: Happening)
    requires Refines(s, st0, me) && Polite(s, h)
    ensures Refines(Advance(s, me, h), st0, me)
  {
    match h
    case Readable(chunks) => ReadRefines(s, st0, me, chunks);
    case Writable(n) => WriteRefines(s, st0, me, n);
    case Elsewhere(st) =>
      hide Atomic, Requests, Frames, Rest, Join, Whole, Need, Unsent;
      AtomicAppend(st0, me, s.es, Change(st));
  }

  function Open(st: State): Session {
    Session(Reading([]), st, [], [], [])
  }

  function Run(s: Session, me: Self, hs: seq<Happening>): (r: Session) {
    if hs == [] then s else Advance(Run(s, me, hs[..|hs| - 1]), me, hs[|hs| - 1])
  }

  /** The client is polite all along. */
  ghost predicate PoliteRun(s: Session, me: Self, hs: seq<Happening>) {
    hs == [] || (PoliteRun(s, me, hs[..|hs| - 1]) && Polite(Run(s, me, hs[..|hs| - 1]), hs[|hs| - 1]))
  }

  lemma OpenRefines(st: State, me: Self)
    ensures Refines(Open(st), st, me)
  {
  }

  /** However requests and replies are split, the requests handled are the packets received, the state
      is that of handling them whole, and what was sent and is still to be sent are the replies. */
  lemma {:induction false} RunRefines(st: State, me: Self, hs: seq<Happening>)
    requires PoliteRun(Open(st), me, hs)
    ensures Refines(Run(Open(st), me, hs), st, me)
  {
    hide Refines, Advance, Polite;
    if hs == [] {
      OpenRefines(st, me);
    } else {
      var front := hs[..|hs| - 1];
      RunRefines(st, me, front);
      AdvanceRefines(Run(Open(st), me, front), st, me, hs[|hs| - 1]);
    }
  }

  // ---- the splitting does not matter ----

  predicate OnlyAsked(es: seq<Atom>) {
    forall k :: 0 <= k < |es| ==> es[k].Asked?
  }

  lemma {:induction false} RequestsDetermine(a: seq<Atom>, b: seq<Atom>)
    requires OnlyAsked(a) && OnlyAsked(b) && Requests(a) == Requests(b)
    ensures a == b
  {
    RequestsLength(a);
    RequestsLength(b);
    if a != [] {
      var n := |a| - 1;
      assert Requests(a)[..n] == Requests(a[..n]) && Requests(b)[..n] == Requests(b[..n]);
      RequestsDetermine(a[..n], b[..n]);
      assert Requests(a)[n] == a[n].p && Requests(b)[n] == b[n].p;
      assert a == a[..n] + [a[n]] && b == b[..n] + [b[n]];
    }
  }

  lemma {:induction false} RequestsLength(es: seq<Atom>)
    requires OnlyAsked(es)
    ensures |Requests(es)| == |es|
  {
    if es != [] {
      RequestsLength(es[..|es| - 1]);
    }
  }

  lemma {:induction false} RunOnlyAsks(s: Session, me: Self, hs: seq<Happening>)
    requires OnlyAsked(s.es) && forall k :: 0 <= k < |hs| ==> !hs[k].Elsewhere?
    ensures OnlyAsked(Run(s, me, hs).es)
  {
    hide ConnRead, ConnWrite;
    if hs != [] {
      RunOnlyAsks(s, me, hs[..|hs| - 1]);
    }
  }

  /** Two polite runs that delivered the same bytes left the daemon in the same state and owe the
      client the same replies. */
  lemma SplittingIrrelevant(st: State, me: Self, hs: seq<Happening>, hs': seq<Happening>)
    requires PoliteRun(Open(st), me, hs) && PoliteRun(Open(st), me, hs')
    requires forall k :: 0 <= k < |hs| ==> !hs[k].Elsewhere?
    requires forall k :: 0 <= k < |hs'| ==> !hs'[k].Elsewhere?
    requires Run(Open(st), me, hs).got == Run(Open(st), me, hs').got
    ensures var s, s' := Run(Open(st), me, hs), Run(Open(st), me, hs');
            s.st == s'.st && s.out + Unsent(s.conn) == s'.out + Unsent(s'.conn)
  {
    hide Run, Polite, Atomic, Requests, Frames, Rest, Join, Unsent, OnlyAsked, PoliteRun;
    var s, s' := Run(Open(st), me, hs), Run(Open(st), me, hs');
    RunRefines(st, me, hs);
    RunRefines(st, me, hs');
    assert OnlyAsked([]) by { NoneAsked(); }
    RunOnlyAsks(Open(st), me, hs);
    RunOnlyAsks(Open(st), me, hs');
    RequestsDetermine(s.es, s'.es);
  }

  lemma NoneAsked()
    ensures OnlyAsked([])
  {
  }

  // ---- where splitting matters ----

  /** Bytes beyond the end of the packet in one read close the connection, and nothing is done. */
  lemma OverrunCloses(buf: seq<byte>, b: seq<byte>, more: seq<Read>, st: State, me: Self)
    requires |buf| < Need(buf) < |buf + b| <= PKT_SIZE && |buf + b| > Need(buf + b)
    ensures ConnRead(Reading(buf), st, me, [Bytes(b)] + more) == (Closed, st)
  {
    assert ([Bytes(b)] + more)[1..] == more;
    assert PktRead(buf + b, more) == Lost;
  }

  /** A readiness event without a byte closes the connection. */
  lemma NothingCloses(buf: seq<byte>, st: State, me: Self)
    requires |buf| < Need(buf)
    ensures ConnRead(Reading(buf), st, me, []) == (Closed, st)
  {
  }

  lemma {:induction false} BrokenRead(buf: seq<byte>, chunks: seq<seq<byte>>, x: Read, more: seq<Read>)
    requires |buf| <= PKT_SIZE && forall k :: 0 <= k < |chunks| ==> chunks[k] != []
    requires |buf + Glue(chunks)| < Need(buf + Glue(chunks)) && (x == Eof || x == Fail || x == Bytes([]))
    ensures PktRead(buf, Reads(chunks) + [x] + more) == Lost
    decreases |chunks|
  {
    var input := Reads(chunks) + [x] + more;
    if chunks == [] {
      assert buf + Glue(chunks) == buf;
      assert input[0] == x;
    } else {
      if |buf| >= HEADER {
        NeedAppend(buf, Glue(chunks));
      }
      assert Glue(chunks) == chunks[0] + Glue(chunks[1..]);
      assert |buf| < Need(buf);
      GlueFirst(buf, chunks);
      assert input[0] == Bytes(chunks[0]) && input[1..] == Reads(chunks[1..]) + [x] + more;
      assert Fitting(buf, chunks[0]) == chunks[0];
      BrokenRead(buf + chunks[0], chunks[1..], x, more);
    }
  }

  /** The end of the stream or an error within a packet closes the connection, and nothing is done. */
  lemma BrokenCloses(buf: seq<byte>, chunks: seq<seq<byte>>, x: Read, more: seq<Read>, st: State, me: Self)
    requires |buf| <= PKT_SIZE && forall k :: 0 <= k < |chunks| ==> chunks[k] != []
    requires |buf + Glue(chunks)| < Need(buf + Glue(chunks)) && (x == Eof || x == Fail || x == Bytes([]))
    ensures ConnRead(Reading(buf), st, me, Reads(chunks) + [x] + more) == (Closed, st)
  {
    hide PktRead, Handle, Glue;
    BrokenRead(buf, chunks, x, more);
  }

  /** Two requests at once: whether they are served depends on how the bytes are split. */
  lemma PipeliningDepends(st: State, me: Self)
    ensures var p := [2, PIDYANK, 0];
            && ConnRead(Reading([]), st, me, [Bytes(p + p)]).0.Closed?
            && ConnRead(Reading([]), st, me, [Bytes(p), Bytes(p)]).0.Writing?
  {
    hide Handle;
    var p: seq<byte> := [2, PIDYANK, 0];
    assert PktRead(p, [Bytes(p)]) == Full(p);
    assert [Bytes(p), Bytes(p)][1..] == [Bytes(p)];
    assert PktRead([], [Bytes(p), Bytes(p)]) == Full([] + p);
    OverrunCloses([], p + p, [], st, me);
    assert [Bytes(p + p)] + [] == [Bytes(p + p)];
  }
}
