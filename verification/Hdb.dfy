/** The hdb file: a header that says where everything is, a comment, records with 24-bit lengths, then
    eight subtables. What the reader's initialization and its sequential walk give back. */
module Hdb {
  import opened Bytes
  import opened SlotTable
  import opened CdbHash
  import opened Layout
  import opened CdbImage
  import opened CdbLookup

  const HDB_TABS: nat := 8
  const CBASE: nat := 88

  /** "hdb32/1.0" in 16 bytes. */
  function Ident(): (b: seq<byte>)
    ensures |b| == 16
  {
    [104, 100, 98, 51, 50, 47, 49, 46, 48, 0, 0, 0, 0, 0, 0, 0]
  }

  // ---- records ----

  /** hdbmk_add refuses longer keys and data. */
  predicate Short(r: Record) {
    |r.key| < U24_LIMIT && |r.data| < U24_LIMIT
  }

  ghost predicate AllShort(rs: seq<Record>) {
    forall i :: 0 <= i < |rs| ==> Short(rs[i])
  }

  function Size(r: Record): nat {
    6 + |r.key| + |r.data|
  }

  function RecordBytes(r: Record): (b: seq<byte>)
    ensures |b| == Size(r)
  {
    Pack24(|r.key| % U24_LIMIT) + Pack24(|r.data| % U24_LIMIT) + r.key + r.data
  }

  function Rows(rs: seq<Record>): (b: seq<byte>) {
    if rs == [] then [] else Rows(rs[..|rs| - 1]) + RecordBytes(rs[|rs| - 1])
  }

  lemma RowsLast(rs: seq<Record>, r: Record)
    ensures Rows(rs + [r]) == Rows(rs) + RecordBytes(r) && Rows([]) == []
  {
    hide RecordBytes;
    assert (rs + [r])[..|rs|] == rs;
  }

  lemma {:induction false} RowsAt(rs: seq<Record>, i: nat)
    requires i < |rs|
    ensures |Rows(rs[..i + 1])| == |Rows(rs[..i])| + Size(rs[i])
    ensures |Rows(rs[..i])| + Size(rs[i]) <= |Rows(rs)|
    ensures Rows(rs)[|Rows(rs[..i])|..|Rows(rs[..i])| + Size(rs[i])] == RecordBytes(rs[i])
  {
    hide RecordBytes, Rows, Size;
    var last := |rs| - 1;
    var front := rs[..last];
    assert rs == front + [rs[last]];
    RowsLast(front, rs[last]);
    var o := |Rows(rs[..i])|;
    if i < last {
      assert front[..i] == rs[..i] && front[..i + 1] == rs[..i + 1];
      RowsAt(front, i);
      SliceLeft(Rows(front), RecordBytes(rs[last]), o, o + Size(rs[i]));
    } else {
      assert rs[..i + 1] == rs && rs[..i] == front;
      SliceRight(Rows(front), RecordBytes(rs[last]), 0, Size(rs[i]));
    }
  }

  // ---- the file ----

  /** What a finished file is made of. */
  datatype Parts = Parts(comment: seq<byte>, records: seq<Record>, tables: seq<seq<Slot>>)

  function RecordBase(p: Parts): nat {
    CBASE + |p.comment|
  }

  function TableBase(p: Parts): nat {
    RecordBase(p) + |Rows(p.records)|
  }

  /** Slots and offset of each subtable. */
  function Directory(hbase: nat, tables: seq<seq<Slot>>): (b: seq<byte>)
    ensures |b| == 8 * |tables|
  {
    if tables == [] then [] else
      var last := |tables| - 1;
      Directory(hbase, tables[..last])
      + Pack32(Wrap32(|tables[last]|)) + Pack32(Wrap32(hbase + 8 * |Flat(tables[..last])|))
  }

  /** Sections I, M and P. */
  function Header(p: Parts): (b: seq<byte>)
    requires |p.tables| == HDB_TABS
    ensures |b| == CBASE
  {
    Ident() + Pack32(Wrap32(|p.records|)) + Pack32(Wrap32(RecordBase(p))) + Directory(TableBase(p), p.tables)
  }

  function HdbFile(p: Parts): (b: seq<byte>)
    requires |p.tables| == HDB_TABS
  {
    Header(p) + p.comment + Rows(p.records) + EncSlots(Flat(p.tables))
  }

  /** Eight subtables, lengths of 24 bits, and a file below 2^32 bytes. */
  ghost predicate Proper(p: Parts) {
    && |p.tables| == HDB_TABS && AllShort(p.records) && |p.records| < U32_LIMIT
    && |HdbFile(p)| < U32_LIMIT
  }

  // ---- what the generator makes ----

  /** One (hash, offset) pair per record, in order. */
  function HdbEntries(base: nat, rs: seq<Record>): (es: seq<Slot>)
    ensures |es| == |rs|
  {
    if rs == [] then [] else
      var last := |rs| - 1;
      HdbEntries(base, rs[..last]) + [Slot(Hash(HdbKind, rs[last].key), Wrap32(base + |Rows(rs[..last])|))]
  }

  /** The parts of the file made of a comment and records. */
  function Made(comment: seq<byte>, rs: seq<Record>): (p: Parts)
    ensures |p.tables| == HDB_TABS
  {
    Parts(comment, rs, SubTables(HdbKind, HdbEntries(CBASE + |comment|, rs)))
  }

  /** The whole file, tables included, is below 2^32 bytes. */
  predicate HdbFits(comment: seq<byte>, rs: seq<Record>) {
    CBASE + |comment| + |Rows(rs)| + 16 * |rs| < U32_LIMIT
  }

  lemma MadeSize(comment: seq<byte>, rs: seq<Record>)
    ensures |HdbFile(Made(comment, rs))| == CBASE + |comment| + |Rows(rs)| + 16 * |rs|
  {
    hide Rows, Flat, EncSlots, Header, HdbEntries, SubTables;
    SlotsTotal(HdbKind, HdbEntries(CBASE + |comment|, rs));
  }

  lemma MadeProper(comment: seq<byte>, rs: seq<Record>)
    requires AllShort(rs) && HdbFits(comment, rs)
    ensures Proper(Made(comment, rs))
  {
    hide Rows, HdbFile, AllShort, HdbEntries, SubTables;
    MadeSize(comment, rs);
  }

  lemma {:induction false} DirectoryAt(hbase: nat, tables: seq<seq<Slot>>, k: nat)
    requires k < |tables|
    ensures Directory(hbase, tables)[8 * k..8 * k + 8]
         == Pack32(Wrap32(|tables[k]|)) + Pack32(Wrap32(hbase + 8 * |Flat(tables[..k])|))
  {
    hide Pack32, Flat, Wrap32;
    var last := |tables| - 1;
    var front := tables[..last];
    var entry := Pack32(Wrap32(|tables[last]|)) + Pack32(Wrap32(hbase + 8 * |Flat(front)|));
    assert Directory(hbase, tables) == Directory(hbase, front) + entry;
    if k < last {
      assert front[..k] == tables[..k];
      DirectoryAt(hbase, front, k);
      SliceLeft(Directory(hbase, front), entry, 8 * k, 8 * k + 8);
    } else {
      SliceRight(Directory(hbase, front), entry, 0, 8);
    }
  }

  /** The header as a reader finds it. */
  lemma HeaderFields(p: Parts)
    requires Proper(p)
    ensures var b := HdbFile(p);
            && CBASE <= |b| && b[..16] == Ident()
            && b[16..20] == Pack32(Wrap32(|p.records|)) && b[20..24] == Pack32(Wrap32(RecordBase(p)))
            && b[24..88] == Directory(TableBase(p), p.tables)
  {
    hide Directory, Rows, Flat, EncSlots, Pack32, Wrap32;
    var h := Header(p);
    assert HdbFile(p)[..88] == h;
    assert h[..16] == Ident();
    assert h[16..20] == Pack32(Wrap32(|p.records|)) && h[20..24] == Pack32(Wrap32(RecordBase(p)));
    assert h[24..88] == Directory(TableBase(p), p.tables);
    assert HdbFile(p)[..88][..16] == HdbFile(p)[..16] && HdbFile(p)[..88][16..20] == HdbFile(p)[16..20];
    assert HdbFile(p)[..88][20..24] == HdbFile(p)[20..24] && HdbFile(p)[..88][24..88] == HdbFile(p)[24..88];
  }

  /** Subtable k: its slots and where it begins. */
  lemma DirectoryField(p: Parts, k: nat)
    requires Proper(p) && k < HDB_TABS
    ensures TableBase(p) + 8 * |Flat(p.tables[..k])| + 8 * |p.tables[k]| <= |HdbFile(p)|
    ensures Unpack32(HdbFile(p)[24 + 8 * k..28 + 8 * k]) == |p.tables[k]|
    ensures Unpack32(HdbFile(p)[28 + 8 * k..32 + 8 * k]) == TableBase(p) + 8 * |Flat(p.tables[..k])|
  {
    hide Directory, Rows, EncSlots, Pack32, Unpack32, Flat, Wrap32;
    var b, o := HdbFile(p), TableBase(p) + 8 * |Flat(p.tables[..k])|;
    HeaderFields(p);
    DirectoryAt(TableBase(p), p.tables, k);
    FlatAt(p.tables, k);
    var d := b[24..88];
    SliceSlice(b, 24, 88, 8 * k, 8 * k + 8);
    SliceSlice(b, 24 + 8 * k, 32 + 8 * k, 0, 4);
    SliceSlice(b, 24 + 8 * k, 32 + 8 * k, 4, 8);
    var n, at := Pack32(Wrap32(|p.tables[k]|)), Pack32(Wrap32(o));
    assert (n + at)[0..4] == n && (n + at)[4..8] == at;
    WrapSmall(o);
    WrapSmall(|p.tables[k]|);
    PackUnpack32(Wrap32(o));
    PackUnpack32(Wrap32(|p.tables[k]|));
  }

  /** Table k lies where the directory says. */
  lemma TablesLie(p: Parts, k: nat, i: nat)
    requires Proper(p) && k < HDB_TABS && i < |p.tables[k]|
    ensures var o := TableBase(p) + 8 * |Flat(p.tables[..k])| + 8 * i;
            o + 8 <= |HdbFile(p)| && HdbFile(p)[o..o + 8] == SlotBytes(p.tables[k][i])
  {
    hide Directory, Rows, Flat, EncSlots, SlotBytes;
    FlatAt(p.tables, k);
    var j, all := |Flat(p.tables[..k])| + i, Flat(p.tables);
    assert all[j] == p.tables[k][i] by {
      assert all[|Flat(p.tables[..k])|..|Flat(p.tables[..k])| + |p.tables[k]|][i] == all[j];
    }
    EncSlotsAt(all, j);
    SliceRight(Header(p) + p.comment + Rows(p.records), EncSlots(all), 8 * j, 8 * j + 8);
  }

  // ---- the sequential walk ----

  datatype Cursor = Lost | End | At(rpos: u32, klen: u32, dlen: u32)

  function SeqAt(img: seq<byte>, eod: nat, rpos: u32): (c: Cursor) {
    if rpos >= eod then End else
      match ReadAt(img, 6, rpos)
      case None => Lost
      case Some(b) => At(rpos, Unpack24(b[..3]), Unpack24(b[3..]))
  }

  function SeqNext(img: seq<byte>, eod: nat, c: Cursor): Cursor
    requires c.At?
  {
    SeqAt(img, eod, Wrap32(c.rpos + c.klen + c.dlen + 6))
  }

  /** seqinit followed by n calls of seqnext. */
  function Walk(img: seq<byte>, rbase: u32, eod: nat, n: nat): (c: Cursor) {
    if n == 0 then SeqAt(img, eod, rbase) else
      var c := Walk(img, rbase, eod, n - 1);
      if c.At? then SeqNext(img, eod, c) else c
  }

  /** File offset of record n. */
  function Offset(p: Parts, n: nat): nat
    requires n <= |p.records|
  {
    RecordBase(p) + |Rows(p.records[..n])|
  }

  lemma RecordLies(p: Parts, n: nat)
    requires Proper(p) && n < |p.records|
    ensures var r, o := p.records[n], Offset(p, n);
            && Offset(p, n + 1) == o + Size(r) <= TableBase(p) <= |HdbFile(p)|
            && HdbFile(p)[o..o + 6] == Pack24(|r.key|) + Pack24(|r.data|)
            && HdbFile(p)[o + 6..o + 6 + |r.key|] == r.key
            && HdbFile(p)[o + 6 + |r.key|..o + Size(r)] == r.data
  {
    hide Rows, Header, Flat, EncSlots, Pack24, RecordBytes;
    var r, o := p.records[n], |Rows(p.records[..n])|;
    assert Short(r);
    RecordParts(r);
    RowsAt(p.records, n);
    FileSize(p);
    var at := RecordBase(p) + o;
    assert HdbFile(p)[at..at + Size(r)] == RecordBytes(r) by { RowsLie(p, o, o + Size(r)); }
    SliceSlice(HdbFile(p), at, at + Size(r), 0, 6);
    SliceSlice(HdbFile(p), at, at + Size(r), 6, 6 + |r.key|);
    SliceSlice(HdbFile(p), at, at + Size(r), 6 + |r.key|, Size(r));
  }

  lemma RecordParts(r: Record)
    requires Short(r)
    ensures var b := RecordBytes(r);
            && b[0..6] == Pack24(|r.key|) + Pack24(|r.data|)
            && b[6..6 + |r.key|] == r.key && b[6 + |r.key|..Size(r)] == r.data
  {
    hide Pack24;
  }

  lemma RowsLie(p: Parts, lo: nat, hi: nat)
    requires |p.tables| == HDB_TABS && lo <= hi <= |Rows(p.records)|
    ensures |HdbFile(p)| >= RecordBase(p) + hi
    ensures HdbFile(p)[RecordBase(p) + lo..RecordBase(p) + hi] == Rows(p.records)[lo..hi]
  {
    hide Rows, Header, Flat, EncSlots;
    var head := Header(p) + p.comment;
    SliceRight(head, Rows(p.records), lo, hi);
    SliceLeft(head + Rows(p.records), EncSlots(Flat(p.tables)), |head| + lo, |head| + hi);
  }

  /** The cursor on record n, or past the last. */
  function Visit(p: Parts, n: nat): Cursor
    requires n <= |p.records|
  {
    if n < |p.records| then At(Wrap32(Offset(p, n)), Wrap32(|p.records[n].key|), Wrap32(|p.records[n].data|)) else End
  }

  lemma SeqAtVisit(p: Parts, n: nat)
    requires Proper(p) && n <= |p.records|
    ensures Offset(p, n) < U32_LIMIT
    ensures SeqAt(HdbFile(p), TableBase(p), Offset(p, n)) == Visit(p, n)
  {
    hide Rows, HdbFile, Pack24, Unpack24;
    if n < |p.records| {
      var r := p.records[n];
      RecordLies(p, n);
      assert Short(r);
      PackUnpack24(|r.key|);
      PackUnpack24(|r.data|);
      var b := Pack24(|r.key|) + Pack24(|r.data|);
      assert b[..3] == Pack24(|r.key|) && b[3..] == Pack24(|r.data|);
    } else {
      assert p.records[..n] == p.records;
      FileSize(p);
    }
  }

  lemma FileSize(p: Parts)
    requires |p.tables| == HDB_TABS
    ensures |HdbFile(p)| >= TableBase(p)
  {
    hide Rows, Header, Flat, EncSlots;
  }

  lemma SeqNextVisit(p: Parts, n: nat)
    requires Proper(p) && n < |p.records|
    ensures SeqNext(HdbFile(p), TableBase(p), Visit(p, n)) == Visit(p, n + 1)
  {
    hide Rows, HdbFile, SeqAt, Pack24, Wrap32, Offset, TableBase;
    RecordLies(p, n);
    SeqAtVisit(p, n);
    SeqAtVisit(p, n + 1);
    assert Short(p.records[n]);
    WrapSmall(|p.records[n].key|);
    WrapSmall(|p.records[n].data|);
    WrapSmall(Offset(p, n));
    WrapSmall(Offset(p, n + 1));
  }

  /** A walk over a finished file visits the records in the order added, then ends. */
  lemma {:induction false} WalkVisitsAll(p: Parts, n: nat)
    requires Proper(p) && n <= |p.records|
    ensures RecordBase(p) < U32_LIMIT
    ensures Walk(HdbFile(p), RecordBase(p), TableBase(p), n) == Visit(p, n)
  {
    hide Rows, HdbFile, SeqAt, SeqNext, TableBase;
    assert Offset(p, 0) == RecordBase(p) by { OffsetStart(p); }
    SeqAtVisit(p, 0);
    if n > 0 {
      WalkVisitsAll(p, n - 1);
      SeqNextVisit(p, n - 1);
    }
  }

  lemma OffsetStart(p: Parts)
    ensures Offset(p, 0) == RecordBase(p)
  {
    assert p.records[..0] == [];
  }

  // ---- the reader ----

  class Reader {
    const image: seq<byte>
    const slots: array<u32>
    const offsets: array<u32>
    var nrecs: u32
    var cbase: u32
    var rbase: u32
    var hbase: u32
    var rpos: u32
    var klen: u32
    var dlen: u32

    constructor (image: seq<byte>)
      requires |image| < U32_LIMIT
      ensures Valid() && this.image == image && fresh(slots) && fresh(offsets)
    {
      this.image := image;
      slots := new u32[HDB_TABS](_ => 0);
      offsets := new u32[HDB_TABS](_ => 0);
      nrecs, cbase, rbase, hbase, rpos, klen, dlen := 0, 0, 0, 0, 0, 0, 0;
    }

    ghost predicate Valid()
      reads this
    {
      |image| < U32_LIMIT && slots.Length == HDB_TABS && offsets.Length == HDB_TABS && slots != offsets
    }

    /** hdb_init after the mapping: refuses a file that is too short or not of this kind. */
    method Init() returns (rc: int)
      requires Valid()
      modifies this, slots, offsets
      ensures Valid()
      ensures rc == if |image| >= CBASE && image[..16] == Ident() then 0 else -1
      ensures rc == 0 ==>
                && nrecs == Unpack32(image[16..20]) && rbase == Unpack32(image[20..24]) && cbase == CBASE
                && hbase == offsets[0]
                && forall k :: 0 <= k < HDB_TABS ==>
                     slots[k] == Unpack32(image[24 + 8 * k..28 + 8 * k]) && offsets[k] == Unpack32(image[28 + 8 * k..32 + 8 * k])
    {
      hide Unpack32;
      if |image| < CBASE {
        return -1;
      }
      var header := image[..CBASE];
      if header[..16] != Ident() {
        return -1;
      }
      var at := 16;
      assert header[16..20] == image[16..20] && header[20..24] == image[20..24];
      nrecs := Unpack32(header[at..at + 4]);
      at := at + 4;
      rbase := Unpack32(header[at..at + 4]);
      var i := 0;
      while i < HDB_TABS
        invariant i <= HDB_TABS && at == 20 + 8 * i && Valid()
        invariant nrecs == Unpack32(image[16..20]) && rbase == Unpack32(image[20..24])
        invariant forall k :: 0 <= k < i ==>
                    slots[k] == Unpack32(image[24 + 8 * k..28 + 8 * k]) && offsets[k] == Unpack32(image[28 + 8 * k..32 + 8 * k])
      {
        at := at + 4;
        slots[i] := Unpack32(header[at..at + 4]);
        assert header[at..at + 4] == image[24 + 8 * i..28 + 8 * i];
        at := at + 4;
        offsets[i] := Unpack32(header[at..at + 4]);
        assert header[at..at + 4] == image[28 + 8 * i..32 + 8 * i];
        i := i + 1;
      }
      cbase := CBASE;
      hbase := offsets[0];
      return 0;
    }

    /** On a finished file initialization gives back what was written. */
    method InitFinished(ghost p: Parts) returns (rc: int)
      requires Valid() && Proper(p) && image == HdbFile(p)
      modifies this, slots, offsets
      ensures Valid() && rc == 0 && nrecs == |p.records| && rbase == RecordBase(p) && hbase == TableBase(p)
      ensures forall k :: 0 <= k < HDB_TABS ==>
                slots[k] == |p.tables[k]| && offsets[k] == TableBase(p) + 8 * |Flat(p.tables[..k])|
    {
      hide Unpack32, Pack32, HdbFile, TableBase, RecordBase, Flat, Wrap32, AllShort;
      HeaderFields(p);
      HeaderNumbers(p);
      forall k | 0 <= k < HDB_TABS
        ensures Unpack32(image[24 + 8 * k..28 + 8 * k]) == |p.tables[k]|
        ensures Unpack32(image[28 + 8 * k..32 + 8 * k]) == TableBase(p) + 8 * |Flat(p.tables[..k])|
      {
        DirectoryField(p, k);
      }
      NoTables(p.tables);
      rc := Init();
    }

    ghost function Position(): Cursor
      reads this
    {
      At(rpos, klen, dlen)
    }

    method SeqTo(at: u32) returns (rc: int)
      requires Valid()
      modifies this`rpos, this`klen, this`dlen
      ensures rc == match SeqAt(image, hbase, at) case Lost => -1 case End => 0 case At(_, _, _) => 1
      ensures rc == 1 ==> Position() == SeqAt(image, hbase, at)
    {
      hide Unpack24;
      if !(at < hbase) {
        return 0;
      }
      var b := ReadAt(image, 6, at);
      if b.None? {
        return -1;
      }
      rpos := at;
      klen := Unpack24(b.value[..3]);
      dlen := Unpack24(b.value[3..]);
      return 1;
    }

    method SeqInit() returns (rc: int)
      requires Valid()
      modifies this`rpos, this`klen, this`dlen
      ensures rc == match Walk(image, rbase, hbase, 0) case Lost => -1 case End => 0 case At(_, _, _) => 1
      ensures rc == 1 ==> Position() == Walk(image, rbase, hbase, 0)
    {
      rc := SeqTo(rbase);
    }

    method Next() returns (rc: int)
      requires Valid()
      modifies this`rpos, this`klen, this`dlen
      ensures rc == match SeqNext(image, hbase, old(Position())) case Lost => -1 case End => 0 case At(_, _, _) => 1
      ensures rc == 1 ==> Position() == SeqNext(image, hbase, old(Position()))
    {
      rc := SeqTo(Wrap32(rpos + klen + dlen + 6));
    }
  }

  lemma HeaderNumbers(p: Parts)
    requires Proper(p)
    ensures RecordBase(p) <= TableBase(p) <= |HdbFile(p)|
    ensures Unpack32(Pack32(Wrap32(|p.records|))) == |p.records|
    ensures Unpack32(Pack32(Wrap32(RecordBase(p)))) == RecordBase(p)
  {
    hide Rows, Pack32, Unpack32, Wrap32, HdbFile;
    FileSize(p);
    WrapSmall(|p.records|);
    WrapSmall(RecordBase(p));
    PackUnpack32(Wrap32(|p.records|));
    PackUnpack32(Wrap32(RecordBase(p)));
  }

  lemma NoTables(tables: seq<seq<Slot>>)
    requires |tables| > 0
    ensures Flat(tables[..0]) == []
  {
  }
}
