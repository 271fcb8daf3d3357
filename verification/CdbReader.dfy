/** The reader object of lasagna/cdb over a mapped file. */
module CdbReader {
  import opened Bytes
  import opened SlotTable
  import opened CdbHash
  import opened Layout
  import opened CdbImage
  import opened CdbLookup

  /** One more hit before the others. */
  function Prepend(hit: Hit, a: Answer<Hit>): Answer<Hit> {
    match a
    case Wrong => Wrong
    case Hits(rest) => Hits([hit] + rest)
  }

  /** A probe decides how a run of hits goes on. */
  lemma RunProbe(img: seq<byte>, q: Query, d: nat)
    requires ValidQuery(q)
    ensures match Probe(img, q, d)
            case Failed => Run(img, q, d) == Wrong
            case Absent => Run(img, q, d) == Hits([])
            case Found(d', rpos, dlen) => Run(img, q, d) == Prepend(Hit(rpos, dlen), Run(img, q, d' + 1))
  {
    hide Probe;
  }

  lemma RunOver(img: seq<byte>, q: Query)
    requires ValidQuery(q)
    ensures Run(img, q, q.tslots) == Hits([])
  {
  }

  lemma DistCyc(s: nat, d: nat, n: nat)
    requires s < n && d < n
    ensures Dist(s, Cyc(s, d, n), n) == d
  {
  }

  datatype Cursor = Lost | End | At(rpos: u32, klen: u32, dlen: u32)

  /** The record header at rpos, unless rpos is at or past the end of the records. */
  function SeqAt(img: seq<byte>, eod: nat, rpos: u32): (c: Cursor) {
    if rpos >= eod then End else
      match ReadAt(img, 8, rpos)
      case None => Lost
      case Some(b) => At(rpos, Unpack32(b[..4]), Unpack32(b[4..]))
  }

  function SeqNext(img: seq<byte>, eod: nat, c: Cursor): Cursor
    requires c.At?
  {
    SeqAt(img, eod, Wrap32(c.rpos + c.klen + c.dlen + 8))
  }

  /** seqinit followed by n calls of seqnext. */
  function Walk(img: seq<byte>, eod: nat, n: nat): (c: Cursor) {
    if n == 0 then SeqAt(img, eod, RBASE) else
      var c := Walk(img, eod, n - 1);
      if c.At? then SeqNext(img, eod, c) else c
  }

  lemma SeqAtRecord(rs: seq<Record>, i: nat)
    requires Fits(rs) && i < |rs|
    ensures HBase(rs[..i]) + RecSize(rs[i]) < U32_LIMIT
    ensures SeqAt(Image(rs), HBase(rs), HBase(rs[..i])) == At(HBase(rs[..i]), |rs[i].key|, |rs[i].data|)
  {
    hide Image, HBase, RecBytes;
    ImageSize(rs);
    ImageRecord(rs, i);
    RecordParts(Image(rs), rs[i], HBase(rs[..i]));
  }

  lemma HBaseNext(rs: seq<Record>, i: nat)
    requires i < |rs|
    ensures HBase(rs[..i + 1]) == HBase(rs[..i]) + RecSize(rs[i])
  {
    assert rs[..i + 1][..i] == rs[..i];
  }

  /** The cursor on record n, or past the last. */
  ghost function Visit(rs: seq<Record>, n: nat): Cursor
    requires n <= |rs|
  {
    if n < |rs| then At(Wrap32(HBase(rs[..n])), Wrap32(|rs[n].key|), Wrap32(|rs[n].data|)) else End
  }

  lemma SeqAtVisit(rs: seq<Record>, n: nat)
    requires Fits(rs) && n <= |rs|
    ensures SeqAt(Image(rs), HBase(rs), Wrap32(HBase(rs[..n]))) == Visit(rs, n)
  {
    hide Image, HBase, SeqAt;
    if n < |rs| {
      SeqAtRecord(rs, n);
    } else {
      assert rs[..n] == rs;
      WalkEnd(rs);
    }
  }

  lemma SeqNextVisit(rs: seq<Record>, n: nat)
    requires Fits(rs) && n < |rs|
    ensures SeqNext(Image(rs), HBase(rs), Visit(rs, n)) == Visit(rs, n + 1)
  {
    hide Image, HBase, SeqAt, Wrap32, Fits;
    SeqAtRecord(rs, n);
    HBaseNext(rs, n);
    SeqAtVisit(rs, n + 1);
    WrapSmall(|rs[n].key|);
    WrapSmall(|rs[n].data|);
    WrapSmall(HBase(rs[..n]));
  }

  /** A walk over a finished file visits the records in the order added, then ends. */
  lemma {:induction false} WalkVisitsAll(rs: seq<Record>, n: nat)
    requires Fits(rs) && n <= |rs|
    ensures Walk(Image(rs), HBase(rs), n) == Visit(rs, n)
  {
    hide Image, HBase, SeqAt, SeqNext;
    if n == 0 {
      assert rs[..0] == [];
      HBaseStart();
      SeqAtVisit(rs, 0);
    } else {
      WalkVisitsAll(rs, n - 1);
      SeqNextVisit(rs, n - 1);
    }
  }

  lemma HBaseStart()
    ensures HBase([]) == RBASE
  {
  }

  lemma WalkEnd(rs: seq<Record>)
    requires Fits(rs)
    ensures SeqAt(Image(rs), HBase(rs), HBase(rs)) == End
  {
    hide Image, HBase;
  }

  /** The first pointer of a finished file tells where its records end. */
  lemma InitFindsEnd(rs: seq<Record>)
    requires Fits(rs)
    ensures |Image(rs)| >= 4
    ensures Unpack32(Image(rs)[..4]) == HBase(rs)
  {
    hide Image, HBase, Pack32, Unpack32, SubTable, Entries;
    ImageSize(rs);
    ImagePointer(rs, 0);
    assert SubTables(CdbKind, Entries(rs))[..0] == [];
    assert Image(rs)[..4] == Image(rs)[0..8][..4];
    WrapSmall(HBase(rs));
    PackUnpack32(HBase(rs));
  }

  /** The reader object; hdb shares its search. */
  class Cdb {
    const kind: Kind
    const image: seq<byte>
    var hbase: u32
    var key: seq<byte>
    var klen: u32
    var h: u32
    var tbase: u32
    var tslots: u32
    var s0: nat
    var sN: nat
    var rpos: u32
    var dlen: u32

    constructor (kind: Kind, image: seq<byte>)
      requires |image| < U32_LIMIT
      ensures Valid() && this.image == image && this.kind == kind
    {
      this.kind, this.image := kind, image;
      hbase, key, klen, h, tbase, tslots := 0, [], 0, 0, 0, 0;
      s0, sN, rpos, dlen := 0, 0, 0, 0;
    }

    ghost predicate Valid()
      reads this
    {
      && |image| < U32_LIMIT
      && (tslots == 0 || s0 < tslots)
    }

    /** The key in the object is the one last searched for. */
    ghost predicate Searching()
      reads this
    {
      Valid() && klen == |key|
    }

    /** The last search or continued search hit. */
    ghost predicate Positioned()
      reads this
    {
      Searching() && sN < tslots
    }

    ghost function Q(): Query
      reads this
    {
      Query(kind, key, h, tbase, tslots, s0)
    }

    /** What findnext has still to yield. */
    ghost function Rest(): Answer<Hit>
      requires Positioned()
      reads this
    {
      Run(image, Q(), Dist(s0, sN, tslots) + 1)
    }

    ghost function Position(): Cursor
      reads this
    {
      At(rpos, klen, dlen)
    }

    /** cdb_read of the mapped file into a caller's buffer. */
    method Read(buf: array<byte>, len: nat, offset: u32) returns (rc: int)
      requires len <= buf.Length
      modifies buf
      ensures rc == 0 || rc == -1
      ensures rc == 0 <==> ReadAt(image, len, offset).Some?
      ensures rc == 0 ==> buf[..len] == ReadAt(image, len, offset).value
    {
      if offset >= |image| || |image| - offset < len {
        return -1;
      }
      forall i | 0 <= i < len {
        buf[i] := image[offset + i];
      }
      assert buf[..len] == image[offset..offset + len];
      return 0;
    }

    /** cdb_init after the mapping: the first pointer gives the end of the records. */
    method Init() returns (rc: int)
      requires Valid()
      modifies this`hbase
      ensures rc == if |image| < 4 then -1 else 0
      ensures rc == 0 ==> hbase == Unpack32(image[..4])
    {
      var buf := new byte[4](_ => 0);
      rc := Read(buf, 4, 0);
      if rc == -1 {
        return;
      }
      hbase := Unpack32(buf[..4]);
    }

    method KeyMatchAt(kpos0: u32) returns (rc: int)
      requires Searching()
      ensures rc == match KeyMatch(image, key, kpos0, |key|, 0)
                    case Broken => -1
                    case Differs => 0
                    case Same(_) => 1
    {
      var kbuf := new byte[KBUF](_ => 0);
      var left, kpos := klen, kpos0;
      while left > 0
        invariant 0 <= left <= |key|
        invariant KeyMatch(image, key, kpos0, |key|, 0) == KeyMatch(image, key, kpos, left, 0)
      {
        var n := if KBUF > left then left else KBUF;
        var r := Read(kbuf, n, kpos);
        if r == -1 {
          return -1;
        }
        if key[..n] != kbuf[..n] {
          return 0;
        }
        kpos := Wrap32(kpos + n);
        left := left - n;
      }
      return 1;
    }

    /** Probe slots from the given one until a match, a free slot, or back at the initial slot. */
    method HashProbe(start: nat) returns (rc: int)
      requires Searching() && s0 < tslots && start < tslots
      modifies this`sN, this`rpos, this`dlen
      ensures Searching()
      ensures match Probe(image, Q(), Dist(s0, start, tslots))
              case Failed => rc == -1
              case Absent => rc == 0
              case Found(d, rp, dl) => rc == 1 && sN == Cyc(s0, d, tslots) && rpos == rp && dlen == dl
      ensures rc != 1 ==> sN == old(sN)
    {
      hide Check, Unpack32, ReadAt;
      var nbuf := new byte[8](_ => 0);
      var target := start;
      ghost var d0 := Dist(s0, start, tslots);
      ghost var d := d0;
      while true
        invariant sN == old(sN) && d < tslots
        invariant target == Cyc(s0, d, tslots)
        invariant Probe(image, Q(), d0) == Probe(image, Q(), d)
        decreases tslots - d
      {
        var r := Read(nbuf, 8, Wrap32(tbase + target * 8));
        if r == -1 {
          return -1;
        }
        var slot := Slot(Unpack32(nbuf[..8][..4]), Unpack32(nbuf[..8][4..]));
        if slot.rpos == 0 {
          return 0;
        }
        if slot.hash == h {
          var v, dl := CheckAt(nbuf, slot.rpos);
          if v == -1 {
            return -1;
          }
          if v == 1 {
            sN, rpos, dlen := target, slot.rpos, dl;
            return 1;
          }
        }
        target := target + 1;
        if target == tslots {
          target := 0;
        }
        d := d + 1;
        if target == s0 {
          assert d == tslots;
          return 0;
        }
      }
    }

    /** The record test of a probe: header, key length, key. */
    method CheckAt(nbuf: array<byte>, at: u32) returns (rc: int, dl: u32)
      requires Searching() && nbuf.Length == 8
      modifies nbuf
      ensures match Check(kind, image, key, at)
              case Broken => rc == -1
              case Differs => rc == 0
              case Same(dlen) => rc == 1 && dl == dlen
    {
      hide KeyMatch, ReadAt, KeyLength, DataLength;
      dl := 0;
      var n := HeadSize(kind);
      rc := Read(nbuf, n, at);
      if rc == -1 {
        return;
      }
      if KeyLength(kind, nbuf[..n]) != klen {
        return 0, 0;
      }
      dl := DataLength(kind, nbuf[..n]);
      KeyMatchDlen(image, key, Wrap32(at + n), |key|, dl);
      rc := KeyMatchAt(Wrap32(at + n));
    }

    /** Begin a search in a subtable: 1 with the cursor on the first hit, 0 for none, -1 for a failed
        read. */
    method Search(k: seq<byte>, hash: u32, base: u32, slots: u32) returns (rc: int)
      requires Valid() && |k| < U32_LIMIT && hash == Hash(kind, k)
      modifies this
      ensures Searching() && key == k && hbase == old(hbase)
      ensures rc == 1 || rc == 0 || rc == -1
      ensures rc == 1 ==> Positioned() && HitsIn(kind, image, k, base, slots) == Prepend(Hit(rpos, dlen), Rest())
      ensures rc == 0 ==> HitsIn(kind, image, k, base, slots) == Hits([])
      ensures rc == -1 ==> HitsIn(kind, image, k, base, slots) == Wrong
    {
      hide Hash, Target, Probe, Run, Prepend;
      key, klen, h := k, |k|, hash;
      tbase, tslots := base, slots;
      if tslots == 0 {
        return 0;
      }
      var target := Target(kind, h, tslots);
      s0 := target;
      RunProbe(image, Q(), 0);
      rc := HashProbe(target);
      if rc == 1 {
        DistCyc(s0, Probe(image, Q(), 0).d, tslots);
      }
    }

    /** cdb_find. */
    method Find(k: seq<byte>) returns (rc: int)
      requires kind == CdbKind && Valid() && |k| < U32_LIMIT
      modifies this
      ensures Searching() && key == k && hbase == old(hbase)
      ensures rc == 1 || rc == 0 || rc == -1
      ensures rc == 1 ==> Positioned() && Lookup(image, k) == Prepend(Hit(rpos, dlen), Rest())
      ensures rc == 0 ==> Lookup(image, k) == Hits([])
      ensures rc == -1 ==> Lookup(image, k) == Wrong
    {
      hide Unpack32, ReadAt, Hash, Prepend, Ntab, HashFold, HitsIn, Rest;
      key, klen := k, |k|;
      var hash := HashPart(CdbKind, HASH_INIT, k);
      HashOf(CdbKind, k);
      var nbuf := new byte[8](_ => 0);
      rc := Read(nbuf, 8, 8 * Ntab(CdbKind, hash));
      if rc == -1 {
        return -1;
      }
      rc := Search(k, hash, Unpack32(nbuf[..8][..4]), Unpack32(nbuf[..8][4..]));
    }

    /** Continue the search after a hit. */
    method FindNext() returns (rc: int)
      requires Positioned()
      modifies this`sN, this`rpos, this`dlen
      ensures Searching()
      ensures rc == 1 || rc == 0 || rc == -1
      ensures rc == 1 ==> Positioned() && old(Rest()) == Prepend(Hit(rpos, dlen), Rest())
      ensures rc == 1 ==> Dist(s0, sN, tslots) > old(Dist(s0, sN, tslots))
      ensures rc == 0 ==> old(Rest()) == Hits([])
      ensures rc == -1 ==> old(Rest()) == Wrong
    {
      hide Probe, Run, Prepend;
      var target := sN + 1;
      if target == tslots {
        target := 0;
      }
      ghost var d := Dist(s0, sN, tslots) + 1;
      assert target == Cyc(s0, d, tslots);
      if target == s0 {
        RunOver(image, Q());
        return 0;
      }
      DistCyc(s0, d, tslots);
      RunProbe(image, Q(), d);
      rc := HashProbe(target);
      if rc == 1 {
        DistCyc(s0, Probe(image, Q(), d).d, tslots);
      }
    }

    /** cdb_get: up to len bytes of the data at the cursor. */
    method Get(buf: array<byte>, len: nat) returns (rc: int)
      requires Valid() && len <= buf.Length
      modifies buf
      ensures rc == 0 || rc == -1
      ensures var n := if len > dlen then dlen else len;
              var r := ReadAt(image, n, Wrap32(rpos + HeadSize(kind) + klen));
              (rc == 0 <==> r.Some?) && (rc == 0 ==> buf[..n] == r.value)
    {
      rc := Read(buf, if len > dlen then dlen else len, Wrap32(rpos + HeadSize(kind) + klen));
    }

    /** Sequential access from the first record: 1 positioned, 0 at the end, -1 for a failed read. */
    method SeqInit() returns (rc: int)
      requires Valid()
      modifies this
      ensures Valid() && hbase == old(hbase)
      ensures rc == match Walk(image, hbase, 0) case Lost => -1 case End => 0 case At(_, _, _) => 1
      ensures rc == 1 ==> Walk(image, hbase, 0) == Position()
    {
      rc := SeqTo(RBASE);
    }

    method Next() returns (rc: int)
      requires Valid()
      modifies this
      ensures Valid() && hbase == old(hbase)
      ensures rc == match SeqNext(image, hbase, old(Position())) case Lost => -1 case End => 0 case At(_, _, _) => 1
      ensures rc == 1 ==> SeqNext(image, hbase, old(Position())) == Position()
    {
      rc := SeqTo(Wrap32(rpos + klen + dlen + 8));
    }

    method SeqTo(at: u32) returns (rc: int)
      requires Valid()
      modifies this
      ensures Valid() && hbase == old(hbase)
      ensures rc == match SeqAt(image, hbase, at) case Lost => -1 case End => 0 case At(_, _, _) => 1
      ensures rc == 1 ==> Position() == SeqAt(image, hbase, at)
    {
      hide Unpack32;
      if !(at < hbase) {
        return 0;
      }
      var nbuf := new byte[8](_ => 0);
      rc := Read(nbuf, 8, at);
      if rc == -1 {
        return;
      }
      rpos := at;
      klen := Unpack32(nbuf[..8][..4]);
      dlen := Unpack32(nbuf[..8][4..]);
      return 1;
    }
  }

  /** The comparison only carries the data length along. */
  lemma {:induction false} KeyMatchDlen(img: seq<byte>, key: seq<byte>, kpos: u32, left: nat, dlen: u32)
    requires left <= |key|
    ensures KeyMatch(img, key, kpos, left, dlen)
         == var v := KeyMatch(img, key, kpos, left, 0);
            if v.Same? then Same(dlen) else v
    decreases left
  {
    if left > 0 {
      var n := if KBUF > left then left else KBUF;
      KeyMatchDlen(img, key, Wrap32(kpos + n), left - n, dlen);
    }
  }
}
