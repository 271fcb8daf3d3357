/** Buffered input and output over short reads and writes (lasagna/ioq). */
module Ioq {
  import opened Bytes

  /** Replace the bytes of c from pos on by d; a gap before pos is filled with zeros. */
  function Overlay(c: seq<byte>, pos: nat, d: seq<byte>): (r: seq<byte>)
    ensures |r| == if d == [] then |c| else if |c| < pos + |d| then pos + |d| else |c|
  {
    if d == [] then c else
      (if |c| < pos then c + Zeros(pos - |c|) else c[..pos]) + d
      + (if pos + |d| < |c| then c[pos + |d|..] else [])
  }

  lemma OverlayAt(c: seq<byte>, pos: nat, d: seq<byte>, i: nat)
    requires i < |Overlay(c, pos, d)|
    ensures Overlay(c, pos, d)[i] ==
            if pos <= i < pos + |d| then d[i - pos] else if i < |c| then c[i] else 0
  {
  }

  /** Two writes in a row are one write of both pieces. */
  lemma OverlayConcat(c: seq<byte>, pos: nat, a: seq<byte>, b: seq<byte>)
    ensures Overlay(Overlay(c, pos, a), pos + |a|, b) == Overlay(c, pos, a + b)
  {
    hide Overlay;
    var l, r := Overlay(Overlay(c, pos, a), pos + |a|, b), Overlay(c, pos, a + b);
    forall i | 0 <= i < |r|
      ensures |l| == |r| && l[i] == r[i]
    {
      OverlayAt(c, pos, a + b, i);
      OverlayAt(Overlay(c, pos, a), pos + |a|, b, i);
      if i < |Overlay(c, pos, a)| {
        OverlayAt(c, pos, a, i);
      }
    }
  }

  /** A file open for writing. The system call may write less than asked, fail, or, finitely often
      (stalls), write nothing. The ghost fields tell what has been written since the last seek, and how
      many calls failed. */
  class Sink {
    var content: seq<byte>
    var pos: nat
    var stalls: nat
    ghost var base: seq<byte>
    ghost var start: nat
    ghost var log: seq<byte>
    ghost var errors: nat

    ghost predicate Valid()
      reads this
    {
      pos == start + |log| && content == Overlay(base, start, log)
    }

    constructor (stalls: nat)
      ensures Valid() && content == [] && pos == 0 && log == []
    {
      content, pos, this.stalls := [], 0, stalls;
      base, start, log, errors := [], 0, [], 0;
    }

    method Write(data: seq<byte>) returns (w: int)
      requires Valid() && data != []
      modifies this
      ensures Valid() && base == old(base) && start == old(start)
      ensures -1 <= w <= |data|
      ensures log == old(log) + (if w < 0 then [] else data[..w])
      ensures if w == 0 then stalls < old(stalls) else stalls == old(stalls)
      ensures errors == old(errors) + if w == -1 then 1 else 0
    {
      w :| -1 <= w <= |data| && (w == 0 ==> stalls > 0);
      if w == 0 {
        stalls := stalls - 1;
      } else if w > 0 {
        OverlayConcat(base, start, log, data[..w]);
        content := Overlay(content, pos, data[..w]);
        pos := pos + w;
        log := log + data[..w];
      } else {
        errors := errors + 1;
      }
      assert w <= 0 ==> log == old(log) + [];
    }

    method Seek(to: nat)
      requires Valid()
      modifies this
      ensures Valid() && base == content == old(content) && start == to && log == []
      ensures pos == to && stalls == old(stalls) && errors == old(errors)
    {
      pos := to;
      base, start, log := content, to, [];
    }
  }

  /** write_all: it fails exactly when a call failed, and then some first part of the data has been
      written. */
  method WriteAll(file: Sink, data: seq<byte>) returns (ok: bool)
    requires file.Valid()
    modifies file
    ensures file.Valid() && file.base == old(file.base) && file.start == old(file.start)
    ensures old(file.log) <= file.log <= old(file.log) + data
    ensures ok ==> file.log == old(file.log) + data
    ensures ok <==> file.errors == old(file.errors)
  {
    var done := 0;
    while done < |data|
      invariant 0 <= done <= |data|
      invariant file.Valid() && file.base == old(file.base) && file.start == old(file.start)
      invariant file.log == old(file.log) + data[..done] && file.errors == old(file.errors)
      decreases |data| - done, file.stalls
    {
      var w := file.Write(data[done..]);
      if w == -1 {
        assert file.log == old(file.log) + data[..done];
        return false;
      }
      assert data[done..][..w] == data[done..done + w];
      assert data[..done] + data[done..done + w] == data[..done + w];
      done := done + w;
    }
    assert data[..done] == data;
    return true;
  }

  const IOQ_BUFSIZE: nat := 8192

  /** An output queue: buf[..p] is what waits to be written; the buffer fills from the front. */
  class OutQueue {
    const buf: array<byte>
    var p: nat
    const file: Sink

    ghost predicate Valid()
      reads this, buf, file
    {
      p <= buf.Length && 0 < buf.Length && file.Valid()
    }

    /** Everything put since the last seek: written, then waiting. */
    ghost function Stream(): (s: seq<byte>)
      requires p <= buf.Length
      reads this, buf, file
    {
      file.log + buf[..p]
    }

    constructor (size: nat, file: Sink)
      requires 0 < size && file.Valid()
      ensures Valid() && p == 0 && this.file == file && fresh(buf) && buf.Length == size
    {
      buf := new byte[size](_ => 0);
      p := 0;
      this.file := file;
    }

    /** On failure the buffer is dropped, whatever part of it was written. */
    method Flush() returns (ok: bool)
      requires Valid()
      modifies this, file
      ensures Valid() && p == 0 && file.base == old(file.base) && file.start == old(file.start)
      ensures ok ==> file.log == old(Stream())
      ensures ok <==> file.errors == old(file.errors)
      ensures old(file.log) <= file.log <= old(Stream())
    {
      if p == 0 {
        assert buf[..p] == [];
        return true;
      }
      var waiting := buf[..p];
      p := 0;
      ok := WriteAll(file, waiting);
    }

    /** Append to the buffered bytes; they must fit. */
    method Store(data: seq<byte>)
      requires Valid() && p + |data| <= buf.Length
      modifies this`p, buf
      ensures Valid() && Stream() == old(Stream()) + data
    {
      var i := 0;
      while i < |data|
        invariant 0 <= i <= |data| && p == old(p)
        invariant buf[..p] == old(buf[..p])
        invariant buf[p..p + i] == data[..i]
      {
        buf[p + i] := data[i];
        assert buf[p..p + i + 1] == buf[p..p + i] + [data[i]];
        i := i + 1;
      }
      assert buf[..p + i] == buf[..p] + buf[p..p + i];
      assert data[..i] == data;
      p := p + |data|;
    }

    /** Write what does not fit into the empty buffer, in large pieces; the rest fits. */
    method WriteOut(data: seq<byte>) returns (ok: bool, rest: seq<byte>)
      requires Valid() && p == 0
      modifies file
      ensures Valid() && file.base == old(file.base) && file.start == old(file.start)
      ensures old(file.log) <= file.log <= old(file.log) + data
      ensures ok ==> file.log + rest == old(file.log) + data && |rest| <= buf.Length
      ensures ok <==> file.errors == old(file.errors)
    {
      rest := data;
      var n := if buf.Length < IOQ_BUFSIZE then IOQ_BUFSIZE else buf.Length;
      while |rest| > buf.Length
        invariant Valid() && 0 < n
        invariant file.base == old(file.base) && file.start == old(file.start)
        invariant file.log + rest == old(file.log) + data
        invariant old(file.log) <= file.log && file.errors == old(file.errors)
        decreases |rest|
      {
        if |rest| < n {
          n := |rest|;
        }
        ghost var was := file.log;
        ok := WriteAll(file, rest[..n]);
        assert was + rest == (was + rest[..n]) + rest[n..];
        if !ok {
          return false, rest;
        }
        rest := rest[n..];
      }
      return true, rest;
    }

    /** The bytes put come out in order: written ++ waiting grows by exactly the data, however the
        writes are cut; it fails exactly when a write does, and what was written is then still a first
        part of it. */
    method Put(data: seq<byte>) returns (ok: bool)
      requires Valid()
      modifies this, buf, file
      ensures Valid() && file.base == old(file.base) && file.start == old(file.start)
      ensures ok ==> Stream() == old(Stream()) + data
      ensures !ok ==> old(file.log) <= file.log <= old(Stream()) + data
      ensures ok <==> file.errors == old(file.errors)
    {
      var rest := data;
      if |data| > buf.Length - p {
        ok := Flush();
        if !ok {
          return false;
        }
        ok, rest := WriteOut(data);
        if !ok {
          return false;
        }
        assert Stream() == file.log;
      }
      Store(rest);
      return true;
    }

    /** ioq_putfill: fill the buffer before each flush. */
    method PutFill(data: seq<byte>) returns (ok: bool)
      requires Valid()
      modifies this, buf, file
      ensures Valid() && file.base == old(file.base) && file.start == old(file.start)
      ensures ok ==> Stream() == old(Stream()) + data
      ensures !ok ==> old(file.log) <= file.log <= old(Stream()) + data
      ensures ok <==> file.errors == old(file.errors)
    {
      var rest := data;
      while |rest| > buf.Length - p
        invariant Valid()
        invariant file.base == old(file.base) && file.start == old(file.start)
        invariant Stream() + rest == old(Stream()) + data
        invariant old(file.log) <= file.log && file.errors == old(file.errors)
        decreases |rest|, p
      {
        var n := buf.Length - p;
        ghost var was := Stream();
        Store(rest[..n]);
        assert was + rest == (was + rest[..n]) + rest[n..];
        rest := rest[n..];
        ok := Flush();
        if !ok {
          return false;
        }
        assert Stream() == file.log;
      }
      Store(rest);
      return true;
    }
  }

  /** A file open for reading: the system call yields any first part of what is pending, nothing at
      the end of the file, or an error. */
  class Source {
    var pending: seq<byte>
    ghost var errors: nat

    constructor (pending: seq<byte>)
      ensures this.pending == pending
    {
      this.pending := pending;
      errors := 0;
    }

    method Read(max: nat) returns (r: int, data: seq<byte>)
      requires 0 < max
      modifies this
      ensures r == -1 || 0 <= r <= max
      ensures r == 0 ==> old(pending) == []
      ensures |data| == if r < 0 then 0 else r
      ensures data + pending == old(pending)
      ensures errors == old(errors) + if r == -1 then 1 else 0
    {
      if * {
        errors := errors + 1;
        return -1, [];
      }
      var limit := if max < |pending| then max else |pending|;
      r :| 0 <= r <= limit && (r == 0 ==> limit == 0);
      data := pending[..r];
      pending := pending[r..];
    }
  }

  /** buf_rcopy within one buffer: slide the first n bytes up by `up`, last byte first. */
  method SlideUp(a: array<byte>, up: nat, n: nat)
    requires up + n <= a.Length
    modifies a
    ensures a[up..up + n] == old(a[..n])
  {
    var k := n;
    while k > 0
      invariant 0 <= k <= n
      invariant a[..k] == old(a[..k])
      invariant forall i :: k <= i < n ==> a[up + i] == old(a[i])
    {
      k := k - 1;
      a[up + k] := a[k];
      assert a[..k] == old(a[..k]);
    }
  }

  /** An input queue: buf[n..n + p] is what was read and not yet taken; it ends at the end of the
      buffer, so n + p is the size of the buffer. */
  class InQueue {
    const buf: array<byte>
    var n: nat
    var p: nat
    const src: Source

    ghost predicate Valid()
      reads this, buf
    {
      0 < buf.Length && n + p == buf.Length
    }

    ghost function Buffered(): seq<byte>
      requires Valid()
      reads this, buf
    {
      buf[n..]
    }

    /** All bytes still to be delivered. */
    ghost function Upcoming(): seq<byte>
      requires Valid()
      reads this, buf, src
    {
      Buffered() + src.pending
    }

    constructor (size: nat, src: Source)
      requires 0 < size
      ensures Valid() && p == 0 && this.src == src && fresh(buf) && Upcoming() == src.pending
    {
      buf := new byte[size](_ => 0);
      n, p := size, 0;
      this.src := src;
    }

    /** Fill an empty buffer with one read; a short read is slid to the end of the buffer. */
    method Feed() returns (r: int)
      requires Valid()
      modifies this, buf, src
      ensures Valid() && Upcoming() == old(Upcoming())
      ensures r > 0 ==> r == p
      ensures r == 0 ==> Upcoming() == []
      ensures r <= 0 ==> p == 0
      ensures r >= 0 <==> src.errors == old(src.errors)
    {
      if p > 0 {
        return p;
      }
      var data;
      r, data := src.Read(n);
      if r <= 0 {
        assert data == [] && data + src.pending == src.pending;
        return r;
      }
      forall i | 0 <= i < r {
        buf[i] := data[i];
      }
      assert buf[..r] == data;
      p := r;
      n := n - r;
      if n > 0 {
        SlideUp(buf, n, r);
      }
      assert buf[n..] == data;
      assert old(buf[n..]) == [];
    }

    /** Take up to len bytes from the buffer. */
    method Extract(len: nat) returns (data: seq<byte>)
      requires Valid()
      modifies this
      ensures Valid() && |data| == if len > old(p) then old(p) else len
      ensures data + Upcoming() == old(Upcoming())
    {
      var take := if len > p then p else len;
      data := buf[n..n + take];
      assert buf[n..] == data + buf[n + take..];
      p := p - take;
      n := n + take;
      assert data + (buf[n..] + src.pending) == (data + buf[n..]) + src.pending;
    }

    /** Deliver up to len bytes: never out of order, lost or twice. */
    method Get(len: nat) returns (r: int, data: seq<byte>)
      requires Valid() && 0 < len
      modifies this, buf, src
      ensures Valid() && data + Upcoming() == old(Upcoming())
      ensures |data| == (if r < 0 then 0 else r) && r <= len
      ensures r == 0 ==> Upcoming() == []
      ensures r >= 0 <==> src.errors == old(src.errors)
    {
      if p > 0 {
        data := Extract(len);
        return |data|, data;
      }
      if n <= len {
        r, data := src.Read(len);
        assert buf[n..] == [];
        assert data + ([] + src.pending) == data + src.pending;
        return;
      }
      r := Feed();
      if r <= 0 {
        data := [];
        return;
      }
      data := Extract(len);
      return |data|, data;
    }

    /** Discard bytes the caller has looked at in the buffer. */
    method Seek(len: nat)
      requires Valid() && len <= p
      modifies this
      ensures Valid() && p == old(p) - len
      ensures old(Buffered())[..len] + Upcoming() == old(Upcoming())
    {
      n := n + len;
      p := p - len;
      ghost var b := old(buf[n..]);
      assert b == b[..len] + buf[n..];
      assert b[..len] + (buf[n..] + src.pending) == (b[..len] + buf[n..]) + src.pending;
    }
  }
}
