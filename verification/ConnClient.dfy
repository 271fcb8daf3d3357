/** The connection record the daemon keeps for a client, with its packet buffer changed in place. */
module ConnClient {
  import opened Bytes
  import opened Layout
  import opened Tain
  import opened Supervisor
  import opened Daemon
  import opened Packet
  import opened Conn

  datatype Mode = CLOSED | READING | WRITING

  /** Bytes taken by the write calls of one event. */
  function Taken(accepts: seq<nat>, left: nat): (n: nat)
    ensures n <= left
  {
    if Sum(accepts) < left then Sum(accepts) else left
  }

  class Client {
    var mode: Mode
    var n: nat
    var w: nat
    const pkt: array<byte>

    /** The buffer holds what is counted. */
    ghost predicate Roomy()
      reads this
    {
      pkt.Length == PKT_SIZE && n <= PKT_SIZE
    }

    /** Between events: reading an incomplete packet, or writing a whole one with some of it left. */
    ghost predicate Valid()
      reads this, pkt
    {
      && Roomy()
      && (mode.READING? ==> n < Need(pkt[..n]) && w == 0)
      && (mode.WRITING? ==> Whole(pkt[..n]) && w < n)
    }

    /** The connection this record stands for. */
    ghost function View(): (c: Conn)
      requires Valid()
      reads this, pkt
    {
      match mode
      case CLOSED => Closed
      case READING => Reading(pkt[..n])
      case WRITING => Writing(pkt[..n], w)
    }

    /** perpd_conn_reset. */
    constructor ()
      ensures Valid() && View() == Closed && fresh(pkt)
    {
      mode, n, w := CLOSED, 0, 0;
      pkt := new byte[PKT_SIZE](_ => 0);
    }

    /** perpd_conn_close. */
    method Close()
      requires Roomy()
      modifies this
      ensures Valid() && View() == Closed
    {
      mode, n, w := CLOSED, 0, 0;
    }

    /** perpd_conn_start. */
    method Begin()
      requires Valid()
      modifies this
      ensures Valid() && View() == Reading([])
    {
      mode, n, w := READING, 0, 0;
    }

    /** Copy bytes into the buffer. */
    method Store(at: nat, b: seq<byte>)
      requires at + |b| <= pkt.Length
      modifies pkt
      ensures pkt[..at + |b|] == old(pkt[..at]) + b
    {
      var j := 0;
      while j < |b|
        invariant j <= |b|
        invariant pkt[..at] == old(pkt[..at]) && pkt[at..at + j] == b[..j]
      {
        pkt[at + j] := b[j];
        assert pkt[at..at + j + 1] == pkt[at..at + j] + [b[j]];
        j := j + 1;
      }
      assert pkt[..at + |b|] == pkt[..at] + pkt[at..at + |b|];
    }

    /** Bytes of the packet in the buffer, as far as n of them tell. */
    method Length(n: nat) returns (len: nat)
      requires n <= pkt.Length == PKT_SIZE
      ensures len == Need(pkt[..n])
    {
      len := if n < HEADER then HEADER else HEADER + (pkt[2] as int);
    }

    /** pkt_read: a positive count, 0 at the end of input, or -1. */
    method PktReadInto(offset: nat, input: seq<Read>) returns (r: int)
      requires offset <= pkt.Length == PKT_SIZE
      modifies pkt
      ensures var o := PktRead(old(pkt[..offset]), input);
              if o.Lost? then r <= 0
              else r == |o.buf| - offset && r >= 0 && pkt[..offset + r] == o.buf
    {
      hide Need;
      var m, k := offset, 0;
      assert input[0..] == input;
      var toRead := Length(m);
      while m < toRead
        invariant offset <= m <= PKT_SIZE && k <= |input| && toRead == Need(pkt[..m])
        invariant PktRead(pkt[..m], input[k..]) == PktRead(old(pkt[..offset]), input)
        decreases |input| - k
      {
        if k == |input| {
          return m - offset;
        }
        if input[k].Fail? {
          return -1;
        }
        if input[k].Eof? || input[k].b == [] {
          return 0;
        }
        var b := Fitting(pkt[..m], input[k].b);
        Store(m, b);
        assert input[k..][1..] == input[k + 1..];
        m, k := m + |b|, k + 1;
        toRead := Length(m);
      }
      if m != toRead {
        return -1;
      }
      r := m - offset;
    }

    /** pkt_write: how much of the packet the socket took. */
    method PktWriteFrom(offset: nat, accepts: seq<nat>) returns (r: nat, sent: seq<byte>)
      requires pkt.Length == PKT_SIZE && offset <= Need(pkt[..])
      ensures r == Taken(accepts, Need(pkt[..]) - offset) && sent == pkt[offset..offset + r]
    {
      hide Need;
      var len := Length(PKT_SIZE);
      assert pkt[..PKT_SIZE] == pkt[..];
      var b, k := offset, 0;
      sent := [];
      SumNone(accepts);
      while b < len && k < |accepts|
        invariant k <= |accepts| && offset <= b <= len && sent == pkt[offset..b]
        invariant b == offset + Taken(accepts[..k], len - offset)
      {
        var took := if accepts[k] < len - b then accepts[k] else len - b;
        SumNext(accepts, k);
        assert pkt[offset..b + took] == pkt[offset..b] + pkt[b..b + took];
        sent := sent + pkt[b..b + took];
        b, k := b + took, k + 1;
      }
      assert accepts[..|accepts|] == accepts;
      if k < |accepts| {
        SumMore(accepts, k);
      }
      r := b - offset;
    }

    // ---- executing a request ----

    /** Put a reply in the buffer. */
    method Respond(p: seq<byte>)
      requires pkt.Length == PKT_SIZE && Whole(p)
      modifies this, pkt
      ensures Valid() && View() == Writing(p, 0)
    {
      Store(0, p);
      assert pkt[..0] + p == p;
      mode, n, w := WRITING, |p|, 0;
    }

    /** perpd_conn_exec_control. */
    method ExecControl(d: Perpd)
      requires Roomy() && n == 21 && d.Valid()
      modifies this, pkt, d`w, d.svdefs
      ensures var (st, reply) := Serve(old(d.Abs()), RequestOf(old(pkt[3..21])));
              && Valid() && View() == Writing(ErrorPkt(ReplyCode(reply)), 0)
              && d.Valid() && d.Abs() == st
    {
      hide RequestOf, Serve, ErrorPkt, ReplyCode, Whole;
      var q := RequestOf(pkt[3..21]);
      var reply := d.ServeTable(q);
      Respond(ErrorPkt(ReplyCode(reply)));
      assert old(pkt[3..21]) == old(pkt[..])[3..21];
    }

    /** perpd_conn_exec_query. */
    method ExecQuery(d: Perpd, me: Self)
      requires Roomy() && n == 19 && d.Valid()
      modifies this, pkt
      ensures var svs := old(d.Abs().svs);
              var i := Lookup(svs, Id(Unpack64(old(pkt[3..11])), Unpack64(old(pkt[11..19]))));
              && Valid()
              && View() == Writing(if i == |svs| then ErrorPkt(ENOTDIR) else Load(2, STATUS, StatusData(me, svs[i])), 0)
              && d.Valid() && d.Abs() == old(d.Abs())
    {
      hide Lookup, Unpack64, StatusData, Whole, ErrorPkt;
      var i := d.Find(Id(Unpack64(pkt[3..11]), Unpack64(pkt[11..19])));
      if i == d.nservices {
        Respond(ErrorPkt(ENOTDIR));
      } else {
        var sv := d.Entry(i);
        Respond(Load(2, STATUS, StatusData(me, sv)));
      }
    }

    /** perpd_conn_exec: after an early error reply the type in the buffer is that of the reply, so the
        dispatch answers with the same error once more. */
    method Exec(d: Perpd, me: Self)
      requires Roomy() && Whole(pkt[..n]) && d.Valid()
      modifies this, pkt, d`w, d.svdefs
      ensures var (st, reply) := Handle(old(d.Abs()), me, old(pkt[..n]));
              Valid() && View() == Writing(reply, 0) && d.Valid() && d.Abs() == st
    {
      hide Lookup, Unpack64, StatusData, Serve, RequestOf, ReplyCode;
      ghost var p := pkt[..n];
      var size := n;
      if size < HEADER || pkt[0] != 2 || HEADER + (pkt[2] as int) != size {
        Respond(ErrorPkt(EPROTO));
        assert pkt[1] == View().pkt[1] == ERROR;
      }
      var kind := pkt[1];
      if kind == CONTROL {
        if size != 21 {
          Respond(ErrorPkt(EPROTO));
        } else {
          assert pkt[3..21] == p[HEADER..];
          ExecControl(d);
        }
      } else if kind == QUERY {
        if size != 19 {
          Respond(ErrorPkt(EPROTO));
        } else {
          assert pkt[3..11] == p[3..11] && pkt[11..19] == p[11..19];
          ExecQuery(d, me);
        }
      } else if kind == PIDYANK {
        Respond(ErrorPkt(ENOTSUP));
      } else {
        Respond(ErrorPkt(EPROTO));
      }
    }

    // ---- events ----

    /** perpd_conn_read. */
    method OnReadable(d: Perpd, me: Self, input: seq<Read>)
      requires Valid() && mode.READING? && d.Valid()
      modifies this, pkt, d`w, d.svdefs
      ensures var (c, st) := ConnRead(old(View()), old(d.Abs()), me, input);
              Valid() && View() == c && d.Valid() && d.Abs() == st
    {
      hide PktRead, Handle;
      var r := PktReadInto(n, input);
      if r <= 0 {
        Close();
        return;
      }
      n := n + r;
      if n >= HEADER && n >= HEADER + (pkt[2] as int) {
        Exec(d, me);
      }
    }

    /** perpd_conn_write. */
    method OnWritable(accepts: seq<nat>) returns (sent: seq<byte>)
      requires Valid() && mode.WRITING?
      modifies this
      ensures var (c, b) := ConnWrite(old(View()), Sum(accepts)); Valid() && View() == c && sent == b
    {
      var r;
      assert Need(pkt[..]) == n;
      r, sent := PktWriteFrom(w, accepts);
      if w + r == n {
        Begin();
      } else {
        w := w + r;
      }
    }
  }

  lemma SumNone(ns: seq<nat>)
    ensures Sum(ns[..0]) == 0
  {
  }

  lemma SumNext(ns: seq<nat>, k: nat)
    requires k < |ns|
    ensures Sum(ns[..k + 1]) == Sum(ns[..k]) + ns[k]
  {
    assert ns[..k + 1][..k] == ns[..k];
  }

  lemma {:induction false} SumMore(ns: seq<nat>, k: nat)
    requires k <= |ns|
    ensures Sum(ns[..k]) <= Sum(ns)
    decreases |ns| - k
  {
    if k < |ns| {
      SumNext(ns, k);
      SumMore(ns, k + 1);
    } else {
      assert ns[..k] == ns;
    }
  }
}
