/** The two file formats with their numbers written out: where a record is filed. */
module FileLaws {
  import opened Bytes
  import opened SlotTable
  import opened HashBits
  import opened CdbHash
  import opened Layout
  import opened CdbImage
  import opened CdbLookup
  import opened Hdb
  import opened HdbWriter
  import opened HdbStore

  lemma Multiple(k: int, n: nat)
    ensures k >= 1 ==> k * n >= n
    ensures k <= -1 ==> k * n + n <= 0
  {
  }

  lemma ModOnce(q: nat, n: nat, r: nat)
    requires r < n
    ensures (q * n + r) % n == r
  {
    var x := q * n + r;
    var y, m := x / n, x % n;
    assert x == y * n + m;
    assert (q - y) * n == m - r;
    Multiple(q - y, n);
  }

  /** The k-th slot from home on, cyclically. */
  function From(home: nat, k: nat, n: nat): nat
    requires n > 0
  {
    (home + k) % n
  }

  /** Steps from the target slot are steps from the home of the hash, cyclically. */
  lemma CycMod(home: nat, d: nat, n: nat)
    requires d < n
    ensures Cyc(home % n, d, n) == From(home, d, n)
  {
    var q, s := home / n, home % n;
    assert home == q * n + s;
    if s + d < n {
      ModOnce(q, n, s + d);
    } else {
      assert home + d == (q + 1) * n + (s + d - n);
      ModOnce(q + 1, n, s + d - n);
    }
  }

  /** A loaded entry is reached from its home over occupied slots only. */
  lemma Reached(kind: Kind, es: seq<Slot>, n: nat, i: nat) returns (d: nat)
    requires |es| <= n && AllUsed(es) && i < |es|
    ensures var t, home := Table(kind, es, n), Home(kind, es[i].hash);
            && d < n && From(home, d, n) < n && t[From(home, d, n)] == es[i]
            && forall k :: 0 <= k < d ==> From(home, k, n) < n && t[From(home, k, n)].rpos != 0
  {
    hide Table, Home, AllUsed, Cyc, Dist, From;
    var p := TableHolds(kind, es, n, i);
    var t, home := Table(kind, es, n), Home(kind, es[i].hash);
    TablePacked(kind, es, n);
    assert !Free(es[i]) by { UsedAt(es, i); }
    d := Dist(home % n, p, n);
    CycMod(home, d, n);
    forall k | 0 <= k < d
      ensures From(home, k, n) < n && t[From(home, k, n)].rpos != 0
    {
      CycMod(home, k, n);
      assert !Free(t[Cyc(Target(kind, t[p].hash, n), k, n)]);
    }
  }

  lemma UsedAt(es: seq<Slot>, i: nat)
    requires AllUsed(es) && i < |es|
    ensures !Free(es[i])
  {
  }

  /** An entry is among those of its subtable. */
  lemma {:induction false} InTabHas(kind: Kind, es: seq<Slot>, i: nat) returns (j: nat)
    requires i < |es|
    ensures var sub := InTab(kind, es, Ntab(kind, es[i].hash)); j < |sub| && sub[j] == es[i]
  {
    hide Ntab;
    var last := |es| - 1;
    if i == last {
      j := |InTab(kind, es[..last], Ntab(kind, es[i].hash))|;
    } else {
      j := InTabHas(kind, es[..last], i);
    }
  }

  lemma {:induction false} EntryAt(rs: seq<Record>, i: nat)
    requires i < |rs|
    ensures Entries(rs)[i] == Slot(Hash(CdbKind, rs[i].key), Wrap32(HBase(rs[..i])))
  {
    hide Hash, HBase, Wrap32;
    var last := |rs| - 1;
    if i < last {
      assert rs[..last][..i] == rs[..i];
      EntryAt(rs[..last], i);
    }
  }

  /** The eight bytes of slot s of a table: the hash, then the offset of the record. */
  ghost predicate SlotIs(img: seq<byte>, tbase: nat, s: nat, hash: u32, rpos: u32) {
    && tbase + 8 * s + 8 <= |img|
    && Unpack32(img[tbase + 8 * s..tbase + 8 * s + 4]) == hash
    && Unpack32(img[tbase + 8 * s + 4..tbase + 8 * s + 8]) == rpos
  }

  lemma SlotRead8(img: seq<byte>, tbase: nat, s: nat, e: Slot)
    requires tbase + 8 * s + 8 <= |img| && img[tbase + 8 * s..tbase + 8 * s + 8] == SlotBytes(e)
    ensures SlotIs(img, tbase, s, e.hash, e.rpos)
  {
    hide Pack32, Unpack32;
    var o := tbase + 8 * s;
    SliceSlice(img, o, o + 8, 0, 4);
    SliceSlice(img, o, o + 8, 4, 8);
    assert SlotBytes(e)[0..4] == Pack32(e.hash) && SlotBytes(e)[4..8] == Pack32(e.rpos);
    PackUnpack32(e.hash);
    PackUnpack32(e.rpos);
  }

  /** The table at tbase holds the entry at the first place from home on that was free for it: d steps
      away, with occupied slots before it. */
  ghost predicate FiledAt(img: seq<byte>, tbase: nat, n: nat, home: nat, hash: u32, rpos: u32) {
    n > 0 && exists d: nat :: d < n && FiledAfter(img, tbase, n, home, hash, rpos, d)
  }

  ghost predicate FiledAfter(img: seq<byte>, tbase: nat, n: nat, home: nat, hash: u32, rpos: u32, d: nat)
    requires n > 0
  {
    && SlotIs(img, tbase, From(home, d, n), hash, rpos)
    && forall k :: 0 <= k < d ==> Occupied(img, tbase, From(home, k, n))
  }

  ghost predicate Occupied(img: seq<byte>, tbase: nat, s: nat) {
    exists h: u32, r: u32 :: SlotIs(img, tbase, s, h, r) && r != 0
  }

  lemma FiledIs(img: seq<byte>, tbase: nat, kind: Kind, sub: seq<Slot>, t: seq<Slot>, j: nat)
    requires AllUsed(sub) && j < |sub| && |t| == 2 * |sub| && t == Table(kind, sub, |t|) && TableAt(img, tbase, t)
    ensures FiledAt(img, tbase, |t|, Home(kind, sub[j].hash), sub[j].hash, sub[j].rpos)
  {
    hide Table, Home, AllUsed, SlotBytes, SlotIs, From;
    var n, home := |t|, Home(kind, sub[j].hash);
    var d := Reached(kind, sub, n, j);
    SlotRead8(img, tbase, From(home, d, n), sub[j]);
    forall k | 0 <= k < d
      ensures Occupied(img, tbase, From(home, k, n))
    {
      var s := From(home, k, n);
      SlotRead8(img, tbase, s, t[s]);
    }
    assert FiledAfter(img, tbase, n, home, sub[j].hash, sub[j].rpos, d);
  }

  lemma HomeIs(h: u32)
    ensures Home(CdbKind, h) == h / 256 && Ntab(CdbKind, h) == h % 256 && Ntab(HdbKind, h) == h % 8
  {
  }

  /** A cdb record at offset o: two lengths of four bytes, the key, the data. */
  ghost predicate CdbRecordAt(img: seq<byte>, o: nat, r: Record) {
    && o + 8 + |r.key| + |r.data| <= |img|
    && Unpack32(img[o..o + 4]) == |r.key| && Unpack32(img[o + 4..o + 8]) == |r.data|
    && img[o + 8..o + 8 + |r.key|] == r.key && img[o + 8 + |r.key|..o + 8 + |r.key| + |r.data|] == r.data
  }

  /** The eight bytes at 8 * (h % 256) give the offset and the size of a table, and that table holds h and
      o at the first slot from h / 256 on, cyclically, that was free. */
  ghost predicate CdbFiled(img: seq<byte>, h: u32, o: u32) {
    var p := 8 * (h % 256);
    && |img| >= 2048
    && FiledAt(img, Unpack32(img[p..p + 4]), Unpack32(img[p + 4..p + 8]), h / 256, h, o)
  }

  /** cdb, byte by byte: record i of a finished file lies past the first 2048 bytes and the records before
      it, and is filed there under the hash the code computes. */
  lemma CdbRecordFiled(rs: seq<Record>, i: nat)
    requires Fits(rs) && i < |rs|
    ensures var o := 2048 + Taken(rs[..i]);
            && CdbRecordAt(Image(rs), o, rs[i])
            && o < U32_LIMIT && CdbFiled(Image(rs), CdbWord(Octets(rs[i].key)) as int, o)
  {
    hide Image, Hash, CdbWord, Octets, Unpack32, FiledAt, HBase, Taken, CdbRecordAt;
    HashIsBits(rs[i].key);
    TakenIs(rs[..i]);
    CdbRecordLies(rs, i);
    CdbRecordTable(rs, i);
    HomeIs(Hash(CdbKind, rs[i].key));
  }

  /** The bytes that records take. */
  function Taken(rs: seq<Record>): nat {
    if rs == [] then 0 else Taken(rs[..|rs| - 1]) + 8 + |rs[|rs| - 1].key| + |rs[|rs| - 1].data|
  }

  lemma {:induction false} TakenIs(rs: seq<Record>)
    ensures HBase(rs) == 2048 + Taken(rs)
  {
    if rs != [] {
      TakenIs(rs[..|rs| - 1]);
    }
  }

  lemma CdbRecordLies(rs: seq<Record>, i: nat)
    requires Fits(rs) && i < |rs|
    ensures CdbRecordAt(Image(rs), HBase(rs[..i]), rs[i]) && |Image(rs)| < U32_LIMIT
  {
    hide Image, HBase, Pack32, Unpack32, Wrap32;
    var img, r, o := Image(rs), rs[i], HBase(rs[..i]);
    ImageSize(rs);
    ImageRecord(rs, i);
    var m := RecSize(r);
    SliceSlice(img, o, o + m, 0, 4);
    SliceSlice(img, o, o + m, 4, 8);
    SliceSlice(img, o, o + m, 8, 8 + |r.key|);
    SliceSlice(img, o, o + m, 8 + |r.key|, m);
    RecParts(r);
    WrapSmall(|r.key|);
    WrapSmall(|r.data|);
    PackUnpack32(Wrap32(|r.key|));
    PackUnpack32(Wrap32(|r.data|));
  }

  lemma RecParts(r: Record)
    ensures var b, m := RecBytes(r), RecSize(r);
            && b[0..4] == Pack32(Wrap32(|r.key|)) && b[4..8] == Pack32(Wrap32(|r.data|))
            && b[8..8 + |r.key|] == r.key && b[8 + |r.key|..m] == r.data
  {
    hide Pack32, Wrap32;
  }

  lemma CdbRecordTable(rs: seq<Record>, i: nat)
    requires Fits(rs) && i < |rs|
    ensures |Image(rs)| >= 2048
    ensures var img, h := Image(rs), Hash(CdbKind, rs[i].key);
            var p := 8 * Ntab(CdbKind, h);
            && HBase(rs[..i]) < U32_LIMIT
            && FiledAt(img, Unpack32(img[p..p + 4]), Unpack32(img[p + 4..p + 8]), Home(CdbKind, h), h, HBase(rs[..i]))
  {
    hide Image, HBase, Hash, Home, Unpack32, Pack32, FiledAt, Table, TableAt, Entries, InTab, TabBase, AllUsed, Ntab, Wrap32;
    var img, es, h := Image(rs), Entries(rs), Hash(CdbKind, rs[i].key);
    var tab := Ntab(CdbKind, h);
    var sub := InTab(CdbKind, es, tab);
    EntryAt(rs, i);
    var j := InTabHas(CdbKind, es, i);
    ImageSize(rs);
    ImageRecord(rs, i);
    WrapSmall(HBase(rs[..i]));
    EntriesUsed(rs);
    InTabUsed(CdbKind, es, tab);
    ImagePointer(rs, tab);
    TabBaseBound(es, tab);
    PointerRead(img, 8 * tab, HBase(rs) + 8 * TabBase(es, tab), 2 * |sub|);
    ImageTable(rs, tab);
    FiledIs(img, HBase(rs) + 8 * TabBase(es, tab), CdbKind, sub, SubTable(CdbKind, es, tab), j);
  }

  lemma PointerRead(img: seq<byte>, p: nat, offset: nat, n: nat)
    requires p + 8 <= |img| && offset < U32_LIMIT && n < U32_LIMIT && img[p..p + 8] == PtrBytes(offset, n)
    ensures Unpack32(img[p..p + 4]) == offset && Unpack32(img[p + 4..p + 8]) == n
  {
    hide Pack32, Unpack32, Wrap32;
    SliceSlice(img, p, p + 8, 0, 4);
    SliceSlice(img, p, p + 8, 4, 8);
    assert PtrBytes(offset, n)[0..4] == Pack32(Wrap32(offset)) && PtrBytes(offset, n)[4..8] == Pack32(Wrap32(n));
    WrapSmall(offset);
    WrapSmall(n);
    PackUnpack32(Wrap32(offset));
    PackUnpack32(Wrap32(n));
  }

  // ---- the second database ----

  lemma {:induction false} HdbEntryAt(base: nat, rs: seq<Record>, i: nat)
    requires i < |rs|
    ensures HdbEntries(base, rs)[i] == Slot(Hash(HdbKind, rs[i].key), Wrap32(base + |Rows(rs[..i])|))
  {
    hide Hash, Rows, Wrap32;
    var last := |rs| - 1;
    if i < last {
      assert rs[..last][..i] == rs[..i];
      HdbEntryAt(base, rs[..last], i);
    }
  }

  /** An hdb record at offset o: two lengths of three bytes, the key, the data. */
  ghost predicate HdbRecordAt(img: seq<byte>, o: nat, r: Record) {
    && o + 6 + |r.key| + |r.data| <= |img|
    && Unpack24(img[o..o + 3]) == |r.key| && Unpack24(img[o + 3..o + 6]) == |r.data|
    && img[o + 6..o + 6 + |r.key|] == r.key && img[o + 6 + |r.key|..o + 6 + |r.key| + |r.data|] == r.data
  }

  /** Where the search for a hash starts. */
  function HdbStart(h: bv32): nat {
    (((h >> 13) ^ h) >> 3) as int
  }

  /** The eight bytes at 24 + 8 * (h % 8) give the size and the offset of a table, and that table holds h
      and o at the first slot from the start on, cyclically, that was free. */
  ghost predicate HdbFiled(img: seq<byte>, h: u32, start: nat, o: u32) {
    var p := 24 + 8 * (h % 8);
    && |img| >= 88
    && FiledAt(img, Unpack32(img[p + 4..p + 8]), Unpack32(img[p..p + 4]), start, h, o)
  }

  /** The bytes that records take in the second database. */
  function HdbTaken(rs: seq<Record>): nat {
    if rs == [] then 0 else HdbTaken(rs[..|rs| - 1]) + 6 + |rs[|rs| - 1].key| + |rs[|rs| - 1].data|
  }

  lemma {:induction false} HdbTakenIs(rs: seq<Record>)
    ensures |Rows(rs)| == HdbTaken(rs)
  {
    hide RecordBytes;
    if rs != [] {
      var last := |rs| - 1;
      HdbTakenIs(rs[..last]);
      RowsAt(rs, last);
      assert rs[..last + 1] == rs;
    }
  }

  /** hdb, byte by byte: a finished file begins with the identifier, the number of records and where
      they begin, which is past the header and the comment. Record i lies past the records before it, and
      is filed there under the hash the code computes. */
  lemma HdbRecordFiled(comment: seq<byte>, rs: seq<Record>, i: nat)
    requires AllShort(rs) && HdbFits(comment, rs) && i < |rs|
    ensures var img, o := HdbFile(Made(comment, rs)), 88 + |comment| + HdbTaken(rs[..i]);
            && |img| >= 88 + |comment|
            && img[..16] == [104, 100, 98, 51, 50, 47, 49, 46, 48, 0, 0, 0, 0, 0, 0, 0]
            && Unpack32(img[16..20]) == |rs| && Unpack32(img[20..24]) == 88 + |comment| && img[88..88 + |comment|] == comment
            && HdbRecordAt(img, o, rs[i]) && o < U32_LIMIT
            && var h := HdbWord(Octets(rs[i].key)); HdbFiled(img, h as int, HdbStart(h), o)
  {
    hide HdbFile, Made, Hash, HdbWord, Octets, Unpack32, FiledAt, HdbTaken, HdbRecordAt, Rows, AllShort, HdbStart, HdbFiled;
    HashIsBits(rs[i].key);
    HdbTakenIs(rs[..i]);
    HdbHead(comment, rs);
    HdbRecordLies(comment, rs, i);
    HdbRecordTable(comment, rs, i);
  }

  lemma HdbHead(comment: seq<byte>, rs: seq<Record>)
    requires AllShort(rs) && HdbFits(comment, rs)
    ensures var img := HdbFile(Made(comment, rs));
            && |img| >= 88 + |comment|
            && img[..16] == [104, 100, 98, 51, 50, 47, 49, 46, 48, 0, 0, 0, 0, 0, 0, 0]
            && Unpack32(img[16..20]) == |rs| && Unpack32(img[20..24]) == 88 + |comment| && img[88..88 + |comment|] == comment
  {
    hide Pack32, Unpack32, Rows, Wrap32, Directory, EncSlots, Flat, HdbEntries, SubTables, AllShort;
    var p := Made(comment, rs);
    MadeProper(comment, rs);
    MadeSize(comment, rs);
    HeaderFields(p);
    WrapSmall(|rs|);
    WrapSmall(88 + |comment|);
    PackUnpack32(Wrap32(|rs|));
    PackUnpack32(Wrap32(88 + |comment|));
    CommentLies(p);
  }

  lemma CommentLies(p: Parts)
    requires |p.tables| == HDB_TABS
    ensures |HdbFile(p)| >= 88 + |p.comment| && HdbFile(p)[88..88 + |p.comment|] == p.comment
  {
    hide Header, Rows, EncSlots, Flat;
    var a, b, c, d := Header(p), p.comment, Rows(p.records), EncSlots(Flat(p.tables));
    assert a + b + c + d == a + (b + (c + d));
    SliceRight(a, b + (c + d), 0, |b|);
    SliceLeft(b, c + d, 0, |b|);
  }

  lemma HdbRecordLies(comment: seq<byte>, rs: seq<Record>, i: nat)
    requires AllShort(rs) && HdbFits(comment, rs) && i < |rs|
    ensures HdbRecordAt(HdbFile(Made(comment, rs)), 88 + |comment| + |Rows(rs[..i])|, rs[i])
  {
    hide HdbFile, Rows, Pack24, Unpack24, AllShort, HdbEntries, SubTables;
    var p, r := Made(comment, rs), rs[i];
    MadeProper(comment, rs);
    RecordLies(p, i);
    OffsetIs(p, i);
    var img, o := HdbFile(p), Offset(p, i);
    assert Short(r) by { ShortAt(p, i); }
    PackUnpack24(|r.key|);
    PackUnpack24(|r.data|);
    var head := Pack24(|r.key|) + Pack24(|r.data|);
    assert head[0..3] == Pack24(|r.key|) && head[3..6] == Pack24(|r.data|);
    SliceSlice(img, o, o + 6, 0, 3);
    SliceSlice(img, o, o + 6, 3, 6);
  }

  /** An entry of subtable k, as a reader finds it through the directory. */
  lemma HdbTableFiled(p: Parts, k: nat, sub: seq<Slot>, t: seq<Slot>, j: nat)
    requires Proper(p) && k < HDB_TABS && p.tables[k] == t && AllUsed(sub) && j < |sub|
    requires |t| == 2 * |sub| && t == Table(HdbKind, sub, |t|) && |HdbFile(p)| >= 88
    ensures var img := HdbFile(p);
            FiledAt(img, Unpack32(img[28 + 8 * k..32 + 8 * k]), Unpack32(img[24 + 8 * k..28 + 8 * k]),
                    Home(HdbKind, sub[j].hash), sub[j].hash, sub[j].rpos)
  {
    hide *;
    EightTables(p);
    DirectoryField(p, k);
    HdbTableAt(p, k);
    FiledIs(HdbFile(p), TableBase(p) + 8 * |Flat(p.tables[..k])|, HdbKind, sub, t, j);
  }

  lemma LongEnough(p: Parts)
    requires Proper(p)
    ensures |HdbFile(p)| >= 88
  {
    hide HdbFile, Directory;
    HeaderFields(p);
  }

  lemma HdbRecordTable(comment: seq<byte>, rs: seq<Record>, i: nat)
    requires AllShort(rs) && HdbFits(comment, rs) && i < |rs|
    ensures 88 + |comment| + |Rows(rs[..i])| < U32_LIMIT
    ensures HdbFiled(HdbFile(Made(comment, rs)), Hash(HdbKind, rs[i].key), HdbStart(HdbWord(Octets(rs[i].key))),
                     88 + |comment| + |Rows(rs[..i])|)
  {
    hide HdbFile, Rows, Hash, Home, Unpack32, FiledAt, Table, HdbEntries, InTab, AllUsed, Ntab, Wrap32, AllShort, HdbWord, Octets, HdbStart, Proper;
    var p := Made(comment, rs);
    var es, h := HdbEntries(CBASE + |comment|, rs), Hash(HdbKind, rs[i].key);
    var tab := Ntab(HdbKind, h);
    HdbEntryAt(CBASE + |comment|, rs, i);
    var j := InTabHas(HdbKind, es, i);
    MadeProper(comment, rs);
    RowsFront(rs, i);
    WrapSmall(88 + |comment| + |Rows(rs[..i])|);
    HdbUsed(comment, rs);
    InTabUsed(HdbKind, es, tab);
    LongEnough(p);
    HdbTableFiled(p, tab, InTab(HdbKind, es, tab), p.tables[tab], j);
    HashIsWords(rs[i].key);
    StartIs(HdbWord(Octets(rs[i].key)));
    HomeIs(h);
  }

  lemma StartIs(x: bv32)
    ensures Home(HdbKind, Int32(x)) == HdbStart(x)
  {
    hide Shuffle, Int32, Home;
    HdbHome(x);
    ShuffleIs(x);
  }

  lemma ShuffleIs(x: bv32)
    ensures Shuffle(x) == ((x >> 13) ^ x) >> 3
  {
  }

  lemma RowsFront(rs: seq<Record>, i: nat)
    requires i < |rs|
    ensures |Rows(rs[..i])| <= |Rows(rs)|
  {
    hide Rows, RecordBytes;
    RowsAt(rs, i);
  }

  lemma HdbUsed(comment: seq<byte>, rs: seq<Record>)
    requires HdbFits(comment, rs)
    ensures AllUsed(HdbEntries(CBASE + |comment|, rs))
  {
    hide HdbEntries, AllUsed, Rows;
    HdbEntriesUsed(CBASE + |comment|, rs);
  }
}
