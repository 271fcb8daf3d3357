/** Searching an hdb file, and what was added comes back. */
module HdbStore {
  import opened Bytes
  import opened SlotTable
  import opened CdbHash
  import opened Layout
  import opened CdbImage
  import opened CdbBuild
  import opened CdbLookup
  import CdbReader
  import opened CdbWriter
  import opened CdbStore
  import opened Ioq
  import opened Hdb
  import opened HdbWriter

  /** hdb_find continued by hdb_findnext; keys are limited to 24-bit lengths. */
  function HdbLookup(img: seq<byte>, key: seq<byte>): (a: Answer<Hit>)
    requires |img| >= CBASE
  {
    if |key| >= U24_LIMIT then Wrong else
      var o := 24 + 8 * Ntab(HdbKind, Hash(HdbKind, key));
      HitsIn(HdbKind, img, key, Unpack32(img[o + 4..o + 8]), Unpack32(img[o..o + 4]))
  }

  function HdbAnswers(img: seq<byte>, key: seq<byte>): (a: Answer<seq<byte>>)
    requires |img| >= CBASE
  {
    Gathered(HdbKind, img, |key|, HdbLookup(img, key))
  }

  // ---- the records of a finished file ----

  lemma {:induction false} EntriesFront(base: nat, rs: seq<Record>, i: nat)
    requires i < |rs|
    ensures HdbEntries(base, rs[..i + 1])
         == HdbEntries(base, rs[..i]) + [Slot(Hash(HdbKind, rs[i].key), Wrap32(base + |Rows(rs[..i])|))]
  {
    hide Hash, Rows;
    assert rs[..i + 1][..i] == rs[..i];
  }

  /** The record test at the offset of record n. */
  lemma HdbCheck(p: Parts, n: nat, key: seq<byte>)
    requires Proper(p) && n < |p.records|
    ensures Offset(p, n) < U32_LIMIT
    ensures Check(HdbKind, HdbFile(p), key, Offset(p, n))
         == if p.records[n].key == Folded(key) then Same(|p.records[n].data|) else Differs
  {
    hide KeyMatch, Folded, HdbFile, Pack24, Unpack24, Rows, Offset, TableBase;
    var r, o, img := p.records[n], Offset(p, n), HdbFile(p);
    RecordLies(p, n);
    assert Short(r);
    PackUnpack24(|r.key|);
    PackUnpack24(|r.data|);
    var head := Pack24(|r.key|) + Pack24(|r.data|);
    assert head[..3] == Pack24(|r.key|) && head[3..] == Pack24(|r.data|);
    if |r.key| == |key| {
      KeyMatchFrom(img, key, o + 6, 0, 0, |r.data|);
      assert Folded(key)[0..|key|] == Folded(key);
    }
  }

  /** The data at a hit on record n. */
  lemma HdbFetch(p: Parts, n: nat)
    requires Proper(p) && n < |p.records| && TableBase(p) < |HdbFile(p)|
    ensures Fetch(HdbKind, HdbFile(p), |p.records[n].key|, Hit(Wrap32(Offset(p, n)), Wrap32(|p.records[n].data|)))
         == Some(p.records[n].data)
  {
    hide HdbFile, Pack24, Rows, Offset, TableBase, Wrap32;
    var r := p.records[n];
    RecordLies(p, n);
    assert Short(r);
    WrapSmall(Offset(p, n));
    WrapSmall(|r.data|);
    WrapSmall(Offset(p, n) + 6 + |r.key|);
  }

  /** Where the first i records with this key are. */
  function HitsAmong(p: Parts, i: nat, key: seq<byte>): (r: seq<Hit>)
    requires i <= |p.records|
  {
    if i == 0 then [] else
      var front := HitsAmong(p, i - 1, key);
      var r := p.records[i - 1];
      if r.key == key then front + [Hit(Wrap32(Offset(p, i - 1)), Wrap32(|r.data|))] else front
  }

  lemma {:induction false} HitsOfMade(p: Parts, i: nat, key: seq<byte>)
    requires Proper(p) && i <= |p.records|
    ensures var rposs := WithHash(HdbEntries(RecordBase(p), p.records[..i]), Hash(HdbKind, key));
            && Sound(HdbKind, HdbFile(p), key, rposs)
            && HitsOf(HdbKind, HdbFile(p), key, rposs)
               == if Hash(HdbKind, Folded(key)) == Hash(HdbKind, key) then HitsAmong(p, i, Folded(key)) else []
    decreases i
  {
    hide *;
    EightTables(p);
    var img, h, rs := HdbFile(p), Hash(HdbKind, key), p.records;
    if i == 0 {
      assert rs[..0] == [];
      NothingMade(p, key);
    } else {
      var k := i - 1;
      var was := HdbEntries(RecordBase(p), rs[..k]);
      var rpos := Wrap32(Offset(p, k));
      HitsOfMade(p, k, key);
      EntriesFront(RecordBase(p), rs, k);
      assert Offset(p, k) == RecordBase(p) + |Rows(rs[..k])| by { OffsetIs(p, k); }
      HdbCheck(p, k, key);
      WrapSmall(Offset(p, k));
      assert Short(rs[k]) by { ShortAt(p, k); }
      WrapSmall(|rs[k].data|);
      assert |rs[k].data| < U32_LIMIT by { ShortSmall(rs[k]); }
      WithHashAppend(was, Slot(Hash(HdbKind, rs[k].key), rpos), h);
      AmongStep(p, k, Folded(key));
      if Hash(HdbKind, rs[k].key) == h {
        HitsStep(HdbKind, img, key, WithHash(was, h), rpos);
      }
    }
  }

  lemma EightTables(p: Parts)
    requires Proper(p)
    ensures |p.tables| == HDB_TABS
  {
  }

  lemma OffsetIs(p: Parts, k: nat)
    requires k <= |p.records|
    ensures Offset(p, k) == RecordBase(p) + |Rows(p.records[..k])|
  {
  }

  lemma ShortAt(p: Parts, k: nat)
    requires Proper(p) && k < |p.records|
    ensures Short(p.records[k])
  {
  }

  lemma ShortSmall(r: Record)
    requires Short(r)
    ensures |r.data| < U32_LIMIT && |r.key| < U32_LIMIT
  {
  }

  lemma NothingMade(p: Parts, key: seq<byte>)
    ensures WithHash(HdbEntries(RecordBase(p), []), Hash(HdbKind, key)) == []
    ensures HitsOf(HdbKind, if |p.tables| == HDB_TABS then HdbFile(p) else [], key, []) == []
    ensures Sound(HdbKind, if |p.tables| == HDB_TABS then HdbFile(p) else [], key, [])
    ensures HitsAmong(p, 0, Folded(key)) == []
  {
    hide Hash, HdbFile;
  }

  lemma AmongStep(p: Parts, k: nat, key: seq<byte>)
    requires k < |p.records|
    ensures HitsAmong(p, k + 1, key)
         == if p.records[k].key == key then HitsAmong(p, k, key) + [Hit(Wrap32(Offset(p, k)), Wrap32(|p.records[k].data|))]
            else HitsAmong(p, k, key)
  {
    hide Offset;
  }

  lemma HdbTableAt(p: Parts, t: nat)
    requires Proper(p) && t < HDB_TABS
    ensures TableAt(HdbFile(p), TableBase(p) + 8 * |Flat(p.tables[..t])|, p.tables[t])
  {
    hide HdbFile, Flat, TableBase, SlotBytes;
    DirectoryField(p, t);
    forall i | 0 <= i < |p.tables[t]|
      ensures var o := TableBase(p) + 8 * |Flat(p.tables[..t])| + 8 * i;
              HdbFile(p)[o..o + 8] == SlotBytes(p.tables[t][i])
    {
      TablesLie(p, t, i);
    }
  }

  /** The hits of a key in a finished file. */
  lemma HdbLookupHits(comment: seq<byte>, rs: seq<Record>, key: seq<byte>)
    requires AllShort(rs) && HdbFits(comment, rs) && |key| < U24_LIMIT
    ensures var p := Made(comment, rs);
            && |HdbFile(p)| >= CBASE
            && HdbLookup(HdbFile(p), key)
               == Hits(if Hash(HdbKind, Folded(key)) == Hash(HdbKind, key) then HitsAmong(p, |rs|, Folded(key)) else [])
  {
    hide HdbFile, Hash, Run, Folded, HitsOf, Scan, Table, Target, TableAt, HitsAmong, Flat, Unpack32, TableBase, HdbEntries, Rows, AllShort, Ntab, InTab;
    var p := Made(comment, rs);
    MadeProper(comment, rs);
    HeaderFields(p);
    var img, es, h := HdbFile(p), HdbEntries(RecordBase(p), rs), Hash(HdbKind, key);
    var tab := Ntab(HdbKind, h);
    var t, sub := p.tables[tab], InTab(HdbKind, es, tab);
    MadeSize(comment, rs);
    HdbEntriesUsed(RecordBase(p), rs);
    InTabUsed(HdbKind, es, tab);
    ScanTable(HdbKind, sub, 2 * |sub|, h);
    WithHashInTab(HdbKind, es, h);
    assert rs[..|rs|] == rs;
    HitsOfMade(p, |rs|, key);
    DirectoryField(p, tab);
    HdbTableAt(p, tab);
    assert Scan(HdbKind, t, h, 0) == WithHash(es, h);
    if |t| == 0 {
      EmptyHdbScan(t, h);
      NothingMade(p, key);
    } else {
      RunIsScan(img, Query(HdbKind, key, h, TableBase(p) + 8 * |Flat(p.tables[..tab])|, |t|, Target(HdbKind, h, |t|)), t, 0);
    }
  }

  lemma EmptyHdbScan(t: seq<Slot>, h: u32)
    requires t == []
    ensures Scan(HdbKind, t, h, 0) == []
  {
  }

  lemma {:induction false} FetchAmong(p: Parts, i: nat, key: seq<byte>)
    requires Proper(p) && i <= |p.records| && (p.records != [] ==> TableBase(p) < |HdbFile(p)|)
    ensures FetchAll(HdbKind, HdbFile(p), |key|, HitsAmong(p, i, key)) == Hits(DataUnder(p.records[..i], key))
    decreases i
  {
    hide *;
    EightTables(p);
    if i == 0 {
      assert p.records[..0] == [];
      NothingUnder(key);
      NothingAmong(p, key);
      FetchNone(HdbKind, HdbFile(p), |key|);
    } else {
      var k := i - 1;
      FetchAmong(p, k, key);
      AmongStep(p, k, key);
      DataUnderStep(p.records, k, key);
      if p.records[k].key == key {
        HdbFetch(p, k);
        FetchNext(HdbKind, HdbFile(p), |key|, HitsAmong(p, k, key), Hit(Wrap32(Offset(p, k)), Wrap32(|p.records[k].data|)));
      }
    }
  }

  lemma NothingAmong(p: Parts, key: seq<byte>)
    ensures HitsAmong(p, 0, key) == []
  {
  }

  /** Exactly what a finished file answers for any key that is not too long. */
  lemma HdbAnswersExact(comment: seq<byte>, rs: seq<Record>, key: seq<byte>)
    requires AllShort(rs) && HdbFits(comment, rs) && |key| < U24_LIMIT
    ensures |HdbFile(Made(comment, rs))| >= CBASE
    ensures HdbAnswers(HdbFile(Made(comment, rs)), key)
         == Hits(if Hash(HdbKind, Folded(key)) == Hash(HdbKind, key) then DataUnder(rs, Folded(key)) else [])
  {
    hide HdbFile, HdbLookup, HitsAmong, DataUnder, Hash, Folded, AllShort, TableBase, Proper, Rows, FetchAll;
    var p := Made(comment, rs);
    MadeProper(comment, rs);
    HdbLookupHits(comment, rs, key);
    MadeSize(comment, rs);
    MadeBase(comment, rs);
    FetchAmong(p, |rs|, Folded(key));
    assert rs[..|rs|] == rs;
    assert |Folded(key)| == |key|;
    FetchNone(HdbKind, HdbFile(p), |key|);
  }

  lemma MadeBase(comment: seq<byte>, rs: seq<Record>)
    ensures TableBase(Made(comment, rs)) == CBASE + |comment| + |Rows(rs)|
  {
    hide Rows;
  }

  /** For keys of up to 80 bytes: find and then findnext yield exactly the data added under the key, in
      insertion order. */
  lemma HdbFindYieldsAdded(comment: seq<byte>, rs: seq<Record>, key: seq<byte>)
    requires AllShort(rs) && HdbFits(comment, rs) && |key| <= KBUF
    ensures |HdbFile(Made(comment, rs))| >= CBASE
    ensures HdbAnswers(HdbFile(Made(comment, rs)), key) == Hits(DataUnder(rs, key))
  {
    hide HdbFile, HdbAnswers, DataUnder, Hash, Folded, AllShort, Rows;
    ShortKeyFolded(key);
    HdbAnswersExact(comment, rs, key);
  }

  lemma KeyAloneFits(key: seq<byte>)
    requires |key| < U24_LIMIT
    ensures var rs := [Record(key, [])]; AllShort(rs) && HdbFits([], rs)
  {
    hide RecordBytes, Rows;
    var rs := [Record(key, [])];
    assert rs[..0] == [] && rs[..1] == rs;
    assert |Rows(rs[..0])| == 0 by { NoRows(); }
    RowsAt(rs, 0);
  }

  lemma NoRows()
    ensures Rows([]) == []
  {
  }

  lemma KeyAloneData(key: seq<byte>, asked: seq<byte>)
    ensures DataUnder([Record(key, [])], asked) == if key == asked then [[]] else []
  {
    hide DataUnder;
    var rs := [Record(key, [])];
    assert rs[..0] == [] && rs[..1] == rs;
    NothingUnder(asked);
    DataUnderStep(rs, 0, asked);
  }

  /** Lookups of a key that is not too long are right in every file exactly when the key repeats its
      first 80 bytes. */
  lemma HdbFindRightIff(key: seq<byte>)
    requires |key| < U24_LIMIT
    ensures (forall comment, rs :: AllShort(rs) && HdbFits(comment, rs) ==>
               |HdbFile(Made(comment, rs))| >= CBASE && HdbAnswers(HdbFile(Made(comment, rs)), key) == Hits(DataUnder(rs, key)))
            <==> Folded(key) == key
  {
    hide *;
    if Folded(key) == key {
      forall comment, rs | AllShort(rs) && HdbFits(comment, rs)
        ensures |HdbFile(Made(comment, rs))| >= CBASE
        ensures HdbAnswers(HdbFile(Made(comment, rs)), key) == Hits(DataUnder(rs, key))
      {
        HdbAnswersExact(comment, rs, key);
      }
    } else {
      var rs := [Record(key, [])];
      KeyAloneFits(key);
      KeyAloneData(key, key);
      KeyAloneData(key, Folded(key));
      HdbAnswersExact([], rs, key);
      assert HdbAnswers(HdbFile(Made([], rs)), key) != Hits(DataUnder(rs, key));
    }
  }

  // ---- searching ----

  /** hdb_find: the directory read by hdb_init selects the subtable. */
  method HdbFind(db: Reader, c: CdbReader.Cdb, k: seq<byte>) returns (rc: int)
    requires db.Valid() && c.kind == HdbKind && c.Valid() && c.image == db.image && |db.image| >= CBASE && |k| < U32_LIMIT
    requires forall t :: 0 <= t < HDB_TABS ==>
               db.slots[t] == Unpack32(db.image[24 + 8 * t..28 + 8 * t]) && db.offsets[t] == Unpack32(db.image[28 + 8 * t..32 + 8 * t])
    modifies c
    ensures |k| < U24_LIMIT ==> c.Searching() && c.key == k
    ensures rc == 1 || rc == 0 || rc == -1
    ensures rc == 1 ==> |k| < U24_LIMIT && c.Positioned() && HdbLookup(c.image, k) == CdbReader.Prepend(Hit(c.rpos, c.dlen), c.Rest())
    ensures rc == 0 ==> HdbLookup(c.image, k) == Hits([])
    ensures rc == -1 ==> HdbLookup(c.image, k) == Wrong
    ensures c.Valid()
  {
    hide Unpack32, Hash, HashFold, HitsIn, Ntab;
    if |k| >= U24_LIMIT {
      return -1;
    }
    var hash := HashPart(HdbKind, 0, k);
    HashOf(HdbKind, k);
    var ntab := Ntab(HdbKind, hash);
    rc := c.Search(k, hash, db.offsets[ntab], db.slots[ntab]);
  }

  /** Every answer to a key. */
  method HdbAllData(db: Reader, c: CdbReader.Cdb, key: seq<byte>) returns (ok: bool, out: seq<seq<byte>>)
    requires db.Valid() && c.kind == HdbKind && c.Valid() && c.image == db.image && |db.image| >= CBASE && |key| < U24_LIMIT
    requires forall t :: 0 <= t < HDB_TABS ==>
               db.slots[t] == Unpack32(db.image[24 + 8 * t..28 + 8 * t]) && db.offsets[t] == Unpack32(db.image[28 + 8 * t..32 + 8 * t])
    modifies c
    ensures c.Valid() && HdbAnswers(c.image, key) == if ok then Hits(out) else Wrong
  {
    hide Gathered, HdbLookup, Unpack32;
    var rc := HdbFind(db, c, key);
    ok, out := Collect(c, rc, HdbLookup(c.image, key));
  }

  // ---- the whole use ----

  lemma HdbFitsFront(comment: seq<byte>, rs: seq<Record>, i: nat)
    requires HdbFits(comment, rs) && i < |rs|
    ensures CBASE + |comment| + |Rows(rs[..i])| + Size(rs[i]) < U32_LIMIT
    ensures rs[..i + 1] == rs[..i] + [rs[i]]
  {
    hide RecordBytes;
    RowsAt(rs, i);
  }

  lemma HdbNoWrap(counts: seq<u32>, comment: seq<byte>, rs: seq<Record>)
    requires Counted(HdbKind, counts, HdbEntries(CBASE + |comment|, rs)) && HdbFits(comment, rs)
    ensures NoWrap(counts)
  {
    hide InTab, HdbEntries, Rows;
    forall t | 0 <= t < |counts|
      ensures counts[t] < WRAP_COUNT
    {
      InTabLength(HdbKind, HdbEntries(CBASE + |comment|, rs), t);
    }
  }

  lemma HdbFilled(mk: HdbMk, comment: seq<byte>, rs: seq<Record>)
    requires mk.Valid() && mk.records == rs && mk.comment == comment && HdbFits(comment, rs)
    ensures NoWrap(mk.index.count[..]) && mk !in mk.index.repr
  {
    hide InTab, HdbEntries, Rows, AllShort;
    CountedHere(mk.index);
    HdbNoWrap(mk.index.count[..], comment, rs);
  }

  lemma HdbAtEnd(mk: HdbMk)
    requires mk.Valid()
    ensures mk.fp == CBASE + |mk.comment| + |Rows(mk.records)|
  {
    hide Rows, HdbEntries, AllShort;
  }

  /** Make a file: unless a write call fails, its bytes are those of the comment and the records. */
  method HdbStoreAll(bufSize: nat, file: Sink, comment: seq<byte>, rs: seq<Record>) returns (ok: bool)
    requires 0 < bufSize && file.Valid() && file.content == [] && AllShort(rs) && HdbFits(comment, rs)
    modifies file
    ensures ok ==> file.content == HdbFile(Made(comment, rs))
    ensures ok <==> file.errors == old(file.errors)
  {
    hide Rows, HdbEntries, HdbFile, HdbMk.Valid, NoWrap, Counted, CodeBytes;
    var mk := new HdbMk(bufSize, file);
    var res := mk.Start(comment);
    if !res.Added? {
      return false;
    }
    var i := 0;
    while i < |rs|
      invariant i <= |rs| && mk.Valid() && mk.records == rs[..i] && mk.comment == comment && mk.ioq.file == file
      invariant fresh(mk.index.repr) && fresh(mk.ioq.buf) && file.errors == old(file.errors)
    {
      HdbFitsFront(comment, rs, i);
      HdbAtEnd(mk);
      assert Short(rs[i]);
      res := mk.Add(rs[i].key, rs[i].data);
      if !res.Added? {
        return false;
      }
      i := i + 1;
    }
    assert rs[..i] == rs;
    HdbFilled(mk, comment, rs);
    var done := mk.Finish();
    return done.Done?;
  }

  /** Make a file, open it, and ask for a key: unless a write call fails, there is an answer, and it is
      exactly the data of the records with that key, in the order they were added. */
  method HdbStoreAndAsk(bufSize: nat, file: Sink, comment: seq<byte>, rs: seq<Record>, key: seq<byte>)
    returns (r: Option<seq<seq<byte>>>)
    requires 0 < bufSize && file.Valid() && file.content == [] && AllShort(rs) && HdbFits(comment, rs) && |key| <= KBUF
    modifies file
    ensures r.Some? ==> r.value == DataUnder(rs, key)
    ensures r.None? <==> file.errors != old(file.errors)
  {
    hide Rows, HdbFile, DataUnder, HdbAnswers, AllShort, Unpack32;
    var ok := HdbStoreAll(bufSize, file, comment, rs);
    if !ok {
      return None;
    }
    MadeSize(comment, rs);
    HdbFindYieldsAdded(comment, rs, key);
    assert |file.content| < U32_LIMIT;
    var db := new Reader(file.content);
    MadeIdent(comment, rs);
    var rc := db.Init();
    var c := new CdbReader.Cdb(HdbKind, file.content);
    var out;
    ok, out := HdbAllData(db, c, key);
    r := Some(out);
  }

  lemma MadeIdent(comment: seq<byte>, rs: seq<Record>)
    requires AllShort(rs) && HdbFits(comment, rs)
    ensures var b := HdbFile(Made(comment, rs)); |b| >= CBASE && b[..16] == Ident()
  {
    hide Rows, HdbFile, AllShort, Directory;
    MadeProper(comment, rs);
    HeaderFields(Made(comment, rs));
  }
}
