/** The database generator of lasagna/hdb: adding records, and finishing the file. */
module HdbWriter {
  import opened Bytes
  import opened SlotTable
  import opened CdbHash
  import opened Layout
  import opened CdbImage
  import opened CdbBuild
  import opened BlockLists
  import opened Ioq
  import opened CdbWriter
  import opened Hdb

  /** Records in a block of a list. */
  const HDB_NRECS: nat := 256

  // ---- one subtable ----

  lemma FreeTable(n: nat)
    ensures Zeros(8 * n) == EncSlots(Table(HdbKind, [], n))
  {
    EncFree(Table(HdbKind, [], n));
  }

  lemma WholeSplice(t: seq<Slot>, x: seq<Slot>)
    requires |x| == |t|
    ensures Splice(t, 0, x) == x && t[0..|t|] == t
  {
  }

  /** The entries of a subtable leave room for the next as they are loaded. */
  lemma RoomInTable(all: seq<Slot>, k: nat, n: nat)
    requires k < |all| && AllUsed(all) && n == 2 * |all|
    ensures HasFree(Table(HdbKind, all[..k], n))
    ensures Table(HdbKind, all[..k + 1], n) == Insert(HdbKind, Table(HdbKind, all[..k], n), all[k])
  {
    assert AllUsed(all[..k]);
    TableUsed(HdbKind, all[..k], n);
    FreeExists(Table(HdbKind, all[..k], n));
    assert all[..k + 1][..k] == all[..k];
  }

  /** All these entries belong to subtable i, which is the one that begins at the adjustment. */
  ghost predicate OneTable(all: seq<Slot>, i: nat, slots: seq<u32>, offset: seq<u32>, adj: u32, n: nat) {
    && |slots| == |offset| == HDB_TABS && i < HDB_TABS
    && slots[i] == n == 2 * |all| && offset[i] == adj
    && forall k :: 0 <= k < |all| ==> Ntab(HdbKind, all[k].hash) == i
  }

  lemma {:induction false} InTabOnly(es: seq<Slot>, t: nat)
    ensures forall k :: 0 <= k < |InTab(HdbKind, es, t)| ==> Ntab(HdbKind, InTab(HdbKind, es, t)[k].hash) == t
  {
    hide Ntab;
    if es != [] {
      InTabOnly(es[..|es| - 1], t);
    }
  }

  /** Load the records of one block. */
  method LoadRecords(block: Block, tbuf: array<byte>, slots: seq<u32>, offset: seq<u32>, adj: u32,
                     ghost i: nat, ghost n: nat, ghost all: seq<Slot>, ghost done: nat)
    returns (rc: int)
    requires AllUsed(all) && OneTable(all, i, slots, offset, adj, n) && 8 * n <= tbuf.Length
    requires done + |block.record| <= |all| && all[done..done + |block.record|] == block.record
    requires tbuf[..8 * n] == EncSlots(Table(HdbKind, all[..done], n))
    modifies tbuf
    ensures rc == 0
    ensures tbuf[..8 * n] == EncSlots(Table(HdbKind, all[..done + |block.record|], n))
  {
    hide EncSlots, Table, AllUsed, Target, Insert, Splice, HasFree, Ntab;
    var k := 0;
    while k < |block.record|
      invariant 0 <= k <= |block.record|
      invariant tbuf[..8 * n] == EncSlots(Table(HdbKind, all[..done + k], n))
    {
      var e := block.record[k];
      assert e == all[done..done + |block.record|][k] == all[done + k];
      ghost var t := Table(HdbKind, all[..done + k], n);
      RoomInTable(all, done + k, n);
      WholeSplice(t, Insert(HdbKind, t, e));
      var ntab := Ntab(HdbKind, e.hash);
      var tbase := offset[ntab] - adj;
      var tslots := slots[ntab];
      rc := TbufLoad(HdbKind, tbuf, tbase, tslots, Target(HdbKind, e.hash, tslots), e, t);
      k := k + 1;
    }
    return 0;
  }

  /** Load every entry of a reversed list into a zeroed buffer. */
  method LoadTable(head: Block?, ghost spine: seq<Block>, tbuf: array<byte>, slots: seq<u32>, offset: seq<u32>, adj: u32,
                   ghost i: nat, ghost n: nat, ghost all: seq<Slot>)
    returns (rc: int)
    requires Chain(head, spine) && Forward(spine) == all
    requires AllUsed(all) && OneTable(all, i, slots, offset, adj, n)
    requires 8 * n <= tbuf.Length && tbuf[..8 * n] == Zeros(8 * n)
    modifies tbuf
    ensures rc == 0
    ensures tbuf[..8 * n] == EncSlots(Table(HdbKind, all, n))
  {
    hide EncSlots, Table, AllUsed, Zeros, Forward, Chain, OneTable;
    FreeTable(n);
    var block := head;
    ghost var b, done := 0, 0;
    assert all[..0] == [] && spine[0..] == spine;
    assert [] + Forward(spine) == Forward(spine);
    while block != null
      invariant 0 <= b <= |spine| && 0 <= done <= |all|
      invariant Chain(block, spine[b..])
      invariant all[..done] + Forward(spine[b..]) == all
      invariant tbuf[..8 * n] == EncSlots(Table(HdbKind, all[..done], n))
      decreases |spine| - b
    {
      ChainStep(block, spine, b);
      ghost var m := |block.record|;
      NextPiece(all, done, block.record, Forward(spine[b + 1..]));
      rc := LoadRecords(block, tbuf, slots, offset, adj, i, n, all, done);
      done := done + m;
      b := b + 1;
      block := block.next;
    }
    ChainEnd(spine[b..]);
    assert all[..done] == all;
    return 0;
  }

  // ---- sizes and offsets ----

  /** The first loop of hdbmk_finish: slots and offset of every subtable, the number of records, and
      the overflow checks. */
  method HdbPlan(count: array<u32>, hbase: u32)
    returns (ok: bool, slots: array<u32>, offset: array<u32>, nrecs: u32)
    requires count.Length == HDB_TABS
    ensures fresh(slots) && fresh(offset) && slots.Length == offset.Length == HDB_TABS
    ensures ok <==> Accepted(hbase, count[..])
    ensures ok ==> Planned(count[..], HDB_TABS, slots[..], offset[..])
    ensures ok ==> exists n: nat :: 2 * n == Twice(count[..]) && nrecs == Wrap32(n)
  {
    hide CodeBytes, Wrap32, Times32, Planned, Twice;
    slots := new u32[HDB_TABS](_ => 0);
    offset := new u32[HDB_TABS](_ => 0);
    var sum: u32, toff: u32, i := 0, 0, 0;
    nrecs := 0;
    ghost var counts := count[..];
    ghost var n: nat := 0;
    CodeBytesZero([]);
    assert counts[..0] == [];
    assert Times32(0, 8) == 0 by { TimesZero(); }
    WrapSmall(0);
    PlannedStart(counts, slots[..], offset[..]);
    while i < HDB_TABS
      invariant 0 <= i <= HDB_TABS && counts == count[..]
      invariant toff == CodeBytes(counts[..i]) && Times32(sum, 8) == toff
      invariant 2 * n == Twice(counts[..i]) && nrecs == Wrap32(n)
      invariant Planned(counts, i, slots[..], offset[..])
    {
      WrapAdd(n, count[i]);
      nrecs := Wrap32(nrecs + count[i]);
      var tslots := Times32(count[i], 2);
      PlannedStep(counts, i, slots[..], offset[..]);
      slots[i] := tslots;
      offset[i] := toff;
      TwiceNext(counts, i);
      SlotArithmetic(counts[i]);
      var fits, next := AddU32(toff, Times32(tslots, 8));
      if !fits {
        CodeBytesMono(counts, i + 1);
        return false, slots, offset, nrecs;
      }
      SumArithmetic(sum, toff, tslots);
      n := n + (counts[i] as nat);
      sum := Wrap32(sum + tslots);
      toff := next;
      i := i + 1;
    }
    assert counts[..i] == counts;
    var eof;
    ok, eof := AddU32(hbase, Times32(sum, 8));
  }

  lemma WrapAdd(n: nat, c: u32)
    ensures Wrap32(Wrap32(n) + c) == Wrap32(n + c)
  {
    var q := n / U32_LIMIT;
    assert n == q * U32_LIMIT + Wrap32(n);
    var x: int := Wrap32(n) as int + c as int;
    assert n + c == q * U32_LIMIT + x;
  }

  // ---- the generator ----

  datatype HdbAdded = Added | TooLong | Overflow | Failed

  lemma RecordRow(base: nat, rs: seq<Record>, r: Record)
    ensures Rows(rs + [r]) == Rows(rs) + RecordBytes(r)
    ensures HdbEntries(base, rs + [r]) == HdbEntries(base, rs) + [Slot(Hash(HdbKind, r.key), Wrap32(base + |Rows(rs)|))]
  {
    hide RecordBytes, Hash, Wrap32;
    RowsLast(rs, r);
    assert (rs + [r])[..|rs|] == rs;
  }

  lemma RowPieces(before: seq<byte>, r: Record)
    requires Short(r)
    ensures before + (Pack24(|r.key|) + Pack24(|r.data|)) + r.key + r.data == before + RecordBytes(r)
  {
    hide Pack24;
    var a, b := Pack24(|r.key|), Pack24(|r.data|);
    assert before + (a + b) + r.key + r.data == before + (a + b + r.key + r.data);
  }

  lemma Short1(rs: seq<Record>, r: Record)
    requires AllShort(rs) && Short(r)
    ensures AllShort(rs + [r])
  {
  }

  class HdbMk {
    var fp: nat
    var rbase: nat
    const index: Index
    const ioq: OutQueue
    /** The comment and the records added so far. */
    ghost var comment: seq<byte>
    ghost var records: seq<Record>

    /** The objects of the generator do not overlap. */
    ghost predicate Apart()
      reads this, index
    {
      && index.kind == HdbKind
      && this !in index.repr && ioq !in index.repr && ioq.buf !in index.repr && ioq.file !in index.repr
    }

    /** The open file holds the bytes s from the comment's offset on, written or waiting. */
    ghost predicate Wrote(s: seq<byte>)
      reads this, ioq, ioq.buf, ioq.file
    {
      ioq.Valid() && ioq.file.base == [] && ioq.file.start == CBASE && ioq.Stream() == s
    }

    ghost predicate Valid()
      reads this, index, index.repr, ioq, ioq.buf, ioq.file
    {
      && Apart()
      && index.Valid() && index.entries == HdbEntries(rbase, records)
      && rbase == CBASE + |comment| && fp == rbase + |Rows(records)| < U32_LIMIT
      && AllShort(records) && Wrote(comment + Rows(records))
    }

    /** hdbmk_start on an empty file, as far as it cannot fail. */
    constructor (bufSize: nat, file: Sink)
      requires 0 < bufSize && file.Valid() && file.content == []
      modifies file
      ensures Valid() && comment == [] && records == [] && ioq.file == file && file.errors == old(file.errors)
      ensures fresh(index.repr) && fresh(ioq) && fresh(ioq.buf)
    {
      hide Index.Valid, Index.Shape;
      ioq := new OutQueue(bufSize, file);
      index := new Index(HdbKind, HDB_NRECS);
      fp, rbase := CBASE, CBASE;
      comment, records := [], [];
      new;
      file.Seek(CBASE);
    }

    /** Put bytes after those already put. */
    method PutAfter(ghost before: seq<byte>, data: seq<byte>) returns (ok: bool)
      requires Apart() && index.Valid() && Wrote(before)
      modifies ioq, ioq.buf, ioq.file
      ensures Apart() && index.Valid() && ioq.Valid()
      ensures ok ==> Wrote(before + data)
      ensures ok <==> ioq.file.errors == old(ioq.file.errors)
    {
      ok := ioq.Put(data);
    }

    /** The comment of hdbmk_start. */
    method Start(text: seq<byte>) returns (res: HdbAdded)
      requires Valid() && comment == [] && records == [] && |text| < U32_LIMIT
      modifies this, ioq, ioq.buf, ioq.file
      ensures res.Added? ==> Valid() && comment == text && records == []
      ensures res.Overflow? <==> CBASE + |text| >= U32_LIMIT
      ensures res.Failed? <==> ioq.file.errors != old(ioq.file.errors)
      ensures !res.TooLong?
    {
      hide HdbEntries, Rows, Index.Valid;
      assert Rows([]) == [] by { RowsLast([], Record([], [])); }
      var fits, up := AddU32(fp, |text|);
      if !fits {
        return HdbAdded.Overflow;
      }
      assert comment + Rows(records) == [] && [] + text == text && text + [] == text;
      var ok := PutAfter([], text);
      if !ok {
        return HdbAdded.Failed;
      }
      NoHdbEntries(rbase, up);
      comment := text;
      rbase, fp := up, up;
      return HdbAdded.Added;
    }

    /** hdbmk_add. */
    method Add(key: seq<byte>, data: seq<byte>) returns (res: HdbAdded)
      requires Valid() && |key| < U32_LIMIT && |data| < U32_LIMIT
      modifies this, index.repr, ioq, ioq.buf, ioq.file
      ensures res.Added? ==> Valid() && records == old(records) + [Record(key, data)] && comment == old(comment)
      ensures res.TooLong? <==> !Short(Record(key, data))
      ensures res.Overflow? <==> Short(Record(key, data)) && old(fp) + 6 + |key| + |data| >= U32_LIMIT
      ensures res.Failed? <==> ioq.file.errors != old(ioq.file.errors)
      ensures res.TooLong? || res.Overflow? ==> Valid() && records == old(records) && comment == old(comment)
      ensures fresh(index.repr - old(index.repr))
    {
      hide HdbEntries, Rows, Pack24, Hash, HashFold, Index.Valid, RecordBytes, AllShort;
      ghost var r := Record(key, data);
      if |key| >= U24_LIMIT || |data| >= U24_LIMIT {
        return TooLong;
      }
      var ok, up := NextOffset(|key|, |data|);
      if !ok {
        return HdbAdded.Overflow;
      }
      ghost var before := comment + Rows(records);
      var head := Pack24(|key|) + Pack24(|data|);
      ok := PutRecord(before, head, key, data);
      if !ok {
        return HdbAdded.Failed;
      }
      RowPieces(before, r);
      var hash := HashPart(HdbKind, 0, key);
      HashOf(HdbKind, key);
      Commit(hash, up, r);
      return HdbAdded.Added;
    }

    /** The three puts of a record. */
    method PutRecord(ghost before: seq<byte>, head: seq<byte>, key: seq<byte>, data: seq<byte>) returns (ok: bool)
      requires Apart() && index.Valid() && Wrote(before)
      modifies ioq, ioq.buf, ioq.file
      ensures Apart() && index.Valid()
      ensures ok ==> Wrote(before + head + key + data)
      ensures ok <==> ioq.file.errors == old(ioq.file.errors)
    {
      hide Index.Valid;
      ok := PutAfter(before, head);
      if !ok {
        return;
      }
      ok := PutAfter(before + head, key);
      if !ok {
        return;
      }
      ok := PutAfter(before + head + key, data);
    }

    /** The offset past a record of these lengths, unless it overflows. */
    method NextOffset(klen: u32, dlen: u32) returns (ok: bool, up: u32)
      requires fp < U32_LIMIT
      ensures ok <==> fp + 6 + klen + dlen < U32_LIMIT
      ensures ok ==> up == fp + 6 + klen + dlen
    {
      ok, up := AddU32(fp, 6);
      if !ok {
        return;
      }
      ok, up := AddU32(up, klen);
      if !ok {
        return;
      }
      ok, up := AddU32(up, dlen);
    }

    /** Count a record whose bytes have been put. */
    method Commit(hash: u32, up: u32, ghost r: Record)
      requires Apart() && index.Valid() && index.entries == HdbEntries(rbase, records)
      requires rbase == CBASE + |comment| && AllShort(records) && Short(r)
      requires fp == rbase + |Rows(records)| && fp + Size(r) == up && hash == Hash(HdbKind, r.key)
      requires Wrote(comment + Rows(records) + RecordBytes(r))
      modifies this, index.repr
      ensures Valid() && records == old(records) + [r] && comment == old(comment)
      ensures ioq.file.errors == old(ioq.file.errors)
      ensures fresh(index.repr - old(index.repr))
    {
      hide HdbEntries, Rows, Hash, RecordBytes, AllShort;
      RecordRow(rbase, records, r);
      ManyRows(records);
      Short1(records, r);
      assert comment + Rows(records) + RecordBytes(r) == comment + (Rows(records) + RecordBytes(r));
      WrapSmall(fp);
      index.Add(Slot(hash, fp));
      fp := up;
      records := records + [r];
    }

    // ---- finishing ----

    /** Subtable i of section H. */
    method WriteTable(i: nat, tbuf: array<byte>, slots: seq<u32>, offset: seq<u32>, adj: u32, ghost before: seq<byte>)
      returns (ok: bool)
      requires Apart() && index.Shape() && index.Unread(i) && i < HDB_TABS && AllUsed(index.entries)
      requires Wrote(before) && tbuf !in index.repr && tbuf != ioq.buf
      requires |slots| == |offset| == HDB_TABS && slots[i] == 2 * |InTab(HdbKind, index.entries, i)| && offset[i] == adj
      requires 8 * (slots[i] as int) <= tbuf.Length
      modifies index.repr, tbuf, ioq, ioq.buf, ioq.file
      ensures ioq.Valid() && Apart() && index.Shape() && index.Unread(i + 1)
      ensures index.entries == old(index.entries) && index.repr == old(index.repr)
      ensures ok ==> Wrote(before + EncSlots(SubTable(HdbKind, index.entries, i)))
      ensures ok <==> ioq.file.errors == old(ioq.file.errors)
    {
      hide EncSlots, SubTable, AllUsed, InTab, Index.Unread;
      var rc := BuildTable(index, i, tbuf, slots, offset, adj);
      ok := ioq.Put(tbuf[..8 * (slots[i] as int)]);
    }

    /** The state between two subtables. */
    ghost predicate Between(i: nat, es: seq<Slot>, objects: set<object>, before: seq<byte>)
      requires i <= HDB_TABS
      reads this, index, index.repr, ioq, ioq.buf, ioq.file
    {
      && Apart() && index.repr == objects && index.entries == es
      && index.Shape() && index.Unread(i) && Wrote(before + EncSlots(Flat(SubTables(HdbKind, es)[..i])))
    }

    /** Section H: the subtables, each built alone in the same buffer. */
    method WriteTables(tbuf: array<byte>, slots: seq<u32>, offset: seq<u32>, ghost es: seq<Slot>,
                       ghost objects: set<object>, ghost before: seq<byte>)
      returns (ok: bool)
      requires Between(0, es, objects, before) && AllUsed(es) && tbuf !in objects && tbuf != ioq.buf
      requires Laid(slots, offset, es)
      requires forall t :: 0 <= t < HDB_TABS ==> 8 * (slots[t] as int) <= tbuf.Length
      modifies index.repr, tbuf, ioq, ioq.buf, ioq.file
      ensures ioq.Valid()
      ensures ok ==> Between(HDB_TABS, es, objects, before)
      ensures ok <==> ioq.file.errors == old(ioq.file.errors)
    {
      hide EncSlots, Flat, SubTables, SubTable, AllUsed, InTab, Index.Shape, Index.Unread, OutQueue.Valid, OutQueue.Stream, Times32, Wrap32;
      var i, sum: u32 := 0, 0;
      FirstSum(es);
      while i < HDB_TABS
        invariant i <= HDB_TABS && Between(i, es, objects, before) && ioq.file.errors == old(ioq.file.errors)
        invariant sum == Wrap32(|Flat(SubTables(HdbKind, es)[..i])|)
      {
        TablesNext(before, es, i);
        NextSum(slots, offset, es, i);
        ok := WriteTable(i, tbuf, slots, offset, Times32(sum, 8), before + EncSlots(Flat(SubTables(HdbKind, es)[..i])));
        if !ok {
          return false;
        }
        sum := Wrap32(sum + slots[i]);
        i := i + 1;
      }
      return true;
    }

    /** Sections I and M. */
    method WriteFront(nrecs: u32, base: u32) returns (ok: bool)
      requires ioq.Valid() && ioq.Stream() == []
      modifies ioq, ioq.buf, ioq.file
      ensures ioq.Valid() && ioq.file.base == old(ioq.file.base) && ioq.file.start == old(ioq.file.start)
      ensures ok ==> ioq.Stream() == Ident() + Pack32(nrecs) + Pack32(base)
      ensures ok <==> ioq.file.errors == old(ioq.file.errors)
    {
      hide Pack32, Ident;
      ok := ioq.Put(Ident());
      if !ok {
        return false;
      }
      assert [] + Ident() == Ident();
      ok := ioq.Put(Pack32(nrecs) + Pack32(base));
      assert Ident() + (Pack32(nrecs) + Pack32(base)) == Ident() + Pack32(nrecs) + Pack32(base);
    }

    /** Section P. */
    method WriteDirectory(hbase: u32, slots: seq<u32>, offset: seq<u32>, ghost counts: seq<u32>, ghost es: seq<Slot>,
                          ghost front: seq<byte>)
      returns (ok: bool)
      requires ioq.Valid() && ioq.Stream() == front && |slots| == |offset| == HDB_TABS
      requires Counted(HdbKind, counts, es) && NoWrap(counts) && Planned(counts, HDB_TABS, slots, offset)
      modifies ioq, ioq.buf, ioq.file
      ensures ioq.Valid() && ioq.file.base == old(ioq.file.base) && ioq.file.start == old(ioq.file.start)
      ensures ok ==> ioq.Stream() == front + Directory(hbase, SubTables(HdbKind, es))
      ensures ok <==> ioq.file.errors == old(ioq.file.errors)
    {
      hide Counted, NoWrap, SubTables, Pack32, Directory, Wrap32, Planned, Ident;
      ghost var tables := SubTables(HdbKind, es);
      assert front + [] == front;
      DirectoryStart(hbase, tables);
      var t := 0;
      while t < HDB_TABS
        invariant 0 <= t <= HDB_TABS
        invariant ioq.Valid() && ioq.file.base == old(ioq.file.base) && ioq.file.start == old(ioq.file.start)
        invariant ioq.Stream() == front + Directory(hbase, tables[..t]) && ioq.file.errors == old(ioq.file.errors)
      {
        DirectoryStep(counts, es, hbase, slots, offset, t, front);
        ok := ioq.Put(Pack32(slots[t]) + Pack32(Wrap32(hbase + offset[t])));
        if !ok {
          return false;
        }
        t := t + 1;
      }
      assert tables[..t] == tables;
      return true;
    }

    /** The header and section P, over the front of the file, once everything else is in it. */
    method WriteHead(slots: seq<u32>, offset: seq<u32>, nrecs: u32, ghost counts: seq<u32>, ghost es: seq<Slot>,
                     ghost before: seq<byte>)
      returns (ok: bool)
      requires Wrote(before) && |slots| == |offset| == HDB_TABS && fp < U32_LIMIT && rbase < U32_LIMIT
      requires Counted(HdbKind, counts, es) && NoWrap(counts) && Planned(counts, HDB_TABS, slots, offset)
      modifies ioq, ioq.buf, ioq.file
      ensures ioq.Valid()
      ensures var head := Ident() + Pack32(nrecs) + Pack32(rbase) + Directory(fp, SubTables(HdbKind, es));
              ok ==> ioq.file.content == Overlay(Overlay([], CBASE, before), 0, head)
      ensures ok <==> ioq.file.errors == old(ioq.file.errors)
    {
      hide Overlay, SubTables, Counted, NoWrap, Planned, Directory, Pack32, Ident;
      ok := ioq.Flush();
      if !ok {
        return false;
      }
      ioq.file.Seek(0);
      assert ioq.Stream() == [];
      ok := WriteFront(nrecs, rbase);
      if !ok {
        return false;
      }
      ok := WriteDirectory(fp, slots, offset, counts, es, Ident() + Pack32(nrecs) + Pack32(rbase));
      if !ok {
        return false;
      }
      ok := ioq.Flush();
    }

    /** hdbmk_finish: on success the file is the database of the comment and the records. It is refused
        exactly when that file would not stay below 2^32 bytes. */
    method Finish() returns (res: Finished)
      requires Valid() && (NoWrap(index.count[..]) || fp + CodeBytes(index.count[..]) >= U32_LIMIT)
      modifies index.repr, ioq, ioq.buf, ioq.file
      ensures res.TooBig? <==> !HdbFits(comment, records)
      ensures res.Done? ==> ioq.file.content == HdbFile(Made(comment, records))
      ensures res.Broken? <==> ioq.file.errors != old(ioq.file.errors)
    {
      hide Rows, HdbEntries, HdbFile, InTab, SubTables, Flat, EncSlots, Directory, Overlay, Laid, NoWrap, CodeBytes, Twice, AllUsed, Counted, Planned, AllShort, Pack32, Wrap32, Index.Unread, Ident;
      ghost var es, counts, body := index.entries, index.count[..], comment + Rows(records);
      CountedHere(index);
      AcceptedRightIff(HdbKind, counts, es, fp);
      CountedSlots(HdbKind, counts, es);
      HdbEntriesUsed(rbase, records);
      var ok, slots, offset, nrecs := HdbPlan(index.count, fp);
      if !ok {
        return TooBig;
      }
      PlannedLaid(counts, es, slots[..], offset[..]);
      ok := WriteSectionH(slots[..], offset[..], es, body);
      if !ok {
        return Broken;
      }
      ok := WriteHead(slots[..], offset[..], nrecs, counts, es, body + EncSlots(Flat(SubTables(HdbKind, es))));
      if !ok {
        return Broken;
      }
      AssembledHdb(Made(comment, records), nrecs);
      return Done;
    }

    /** Section H, after the records. */
    method WriteSectionH(slots: seq<u32>, offset: seq<u32>, ghost es: seq<Slot>, ghost before: seq<byte>) returns (ok: bool)
      requires Apart() && index.Shape() && index.Unread(0) && index.entries == es && Wrote(before) && AllUsed(es)
      requires Laid(slots, offset, es)
      modifies index.repr, ioq, ioq.buf, ioq.file
      ensures ioq.Valid()
      ensures ok ==> Wrote(before + EncSlots(Flat(SubTables(HdbKind, es))))
      ensures ok <==> ioq.file.errors == old(ioq.file.errors)
    {
      hide EncSlots, Flat, SubTables, AllUsed, InTab, Index.Shape, Index.Unread;
      var max := Largest(slots);
      var tbuf := new byte[max * 8](_ => 0);
      NoTablesYet(before, es);
      ok := WriteTables(tbuf, slots, offset, es, index.repr, before);
    }
  }

  lemma NoTablesYet(before: seq<byte>, es: seq<Slot>)
    ensures before + EncSlots(Flat(SubTables(HdbKind, es)[..0])) == before
    ensures SubTables(HdbKind, es)[..HDB_TABS] == SubTables(HdbKind, es)
  {
  }

  /** The subtables lie end to end, each with two slots for every entry. */
  ghost predicate Laid(slots: seq<u32>, offset: seq<u32>, es: seq<Slot>) {
    && |slots| == |offset| == HDB_TABS
    && (forall t :: 0 <= t < HDB_TABS ==> slots[t] == 2 * |InTab(HdbKind, es, t)|)
    && (forall t :: 0 <= t < HDB_TABS ==> offset[t] == 8 * |Flat(SubTables(HdbKind, es)[..t])|)
  }

  lemma PlannedLaid(counts: seq<u32>, es: seq<Slot>, slots: seq<u32>, offset: seq<u32>)
    requires Counted(HdbKind, counts, es) && NoWrap(counts) && Planned(counts, HDB_TABS, slots, offset)
    requires |slots| == |offset| == HDB_TABS
    ensures Laid(slots, offset, es)
  {
    hide Counted, NoWrap, Planned, InTab, SubTables, Flat;
    forall t | 0 <= t < HDB_TABS
      ensures slots[t] == 2 * |InTab(HdbKind, es, t)| && offset[t] == 8 * |Flat(SubTables(HdbKind, es)[..t])|
    {
      PlannedTable(counts, es, slots, offset, t);
    }
  }

  lemma FirstSum(es: seq<Slot>)
    ensures Wrap32(|Flat(SubTables(HdbKind, es)[..0])|) == 0
  {
  }

  /** The running sum of slots, times eight, is the offset of the next subtable. */
  lemma NextSum(slots: seq<u32>, offset: seq<u32>, es: seq<Slot>, i: nat)
    requires Laid(slots, offset, es) && i < HDB_TABS
    ensures var sum := Wrap32(|Flat(SubTables(HdbKind, es)[..i])|);
            && Times32(sum, 8) == offset[i]
            && Wrap32(sum + slots[i]) == Wrap32(|Flat(SubTables(HdbKind, es)[..i + 1])|)
  {
    hide Flat, InTab, Wrap32;
    var parts := SubTables(HdbKind, es);
    assert parts[..i + 1] == parts[..i] + [parts[i]];
    FlatAppend(parts[..i], parts[i]);
    WrapSmall(|Flat(parts[..i])|);
    WrapSmall(8 * |Flat(parts[..i])|);
    assert |parts[i]| == slots[i];
  }

  /** No record has offset 0. */
  lemma {:induction false} HdbEntriesUsed(base: nat, rs: seq<Record>)
    requires 0 < base && base + |Rows(rs)| < U32_LIMIT
    ensures AllUsed(HdbEntries(base, rs))
  {
    hide Hash, RecordBytes;
    if rs != [] {
      var last := |rs| - 1;
      HdbEntriesUsed(base, rs[..last]);
      WrapSmall(base + |Rows(rs[..last])|);
    }
  }

  lemma FrontIsHeader(p: Parts, nrecs: u32)
    requires |p.tables| == HDB_TABS && RecordBase(p) < U32_LIMIT && nrecs == Wrap32(|p.records|)
    ensures Ident() + Pack32(nrecs) + Pack32(RecordBase(p)) + Directory(TableBase(p), p.tables) == Header(p)
  {
    hide Pack32, Directory, Wrap32, Ident, TableBase, RecordBase;
    WrapSmall(RecordBase(p));
  }

  lemma FileInTwo(p: Parts)
    requires |p.tables| == HDB_TABS
    ensures HdbFile(p) == Header(p) + (p.comment + Rows(p.records) + EncSlots(Flat(p.tables)))
  {
    hide Header, Rows, EncSlots, Flat;
    var a, b, c, d := Header(p), p.comment, Rows(p.records), EncSlots(Flat(p.tables));
    assert a + b + c + d == a + (b + c + d);
  }

  lemma AssembledHdb(p: Parts, nrecs: u32)
    requires |p.tables| == HDB_TABS && RecordBase(p) < U32_LIMIT && nrecs == Wrap32(|p.records|)
    ensures var head := Ident() + Pack32(nrecs) + Pack32(RecordBase(p)) + Directory(TableBase(p), p.tables);
            Overlay(Overlay([], CBASE, p.comment + Rows(p.records) + EncSlots(Flat(p.tables))), 0, head) == HdbFile(p)
  {
    hide *;
    FrontIsHeader(p, nrecs);
    FileInTwo(p);
    Assembled(Header(p), p.comment + Rows(p.records) + EncSlots(Flat(p.tables)));
  }

  /** Every subtable has its own list. */
  lemma {:induction false} ListIsTab(es: seq<Slot>, t: nat)
    ensures InList(HdbKind, es, t) == InTab(HdbKind, es, t)
  {
    if es != [] {
      ListIsTab(es[..|es| - 1], t);
    }
  }

  /** Reverse the list of subtable i and load it into a zeroed buffer. */
  method BuildTable(index: Index, i: nat, tbuf: array<byte>, slots: seq<u32>, offset: seq<u32>, adj: u32) returns (rc: int)
    requires index.kind == HdbKind && index.Shape() && index.Unread(i) && i < HDB_TABS
    requires AllUsed(index.entries) && tbuf !in index.repr
    requires |slots| == |offset| == HDB_TABS && slots[i] == 2 * |InTab(HdbKind, index.entries, i)| && offset[i] == adj
    requires 8 * (slots[i] as int) <= tbuf.Length
    modifies index.lists[i].repr, tbuf
    ensures index.Shape() && index.Unread(i + 1) && index.entries == old(index.entries) && index.repr == old(index.repr)
    ensures rc == 0
    ensures tbuf[..8 * (slots[i] as int)] == EncSlots(SubTable(HdbKind, index.entries, i))
  {
    hide EncSlots, AllUsed, InTab, InList, Zeros, Table, Ntab;
    var n: nat := slots[i];
    InTabOnly(index.entries, i);
    InTabUsed(HdbKind, index.entries, i);
    ListIsTab(index.entries, i);
    Zero(tbuf, 8 * n);
    index.ReverseList(i);
    rc := LoadTable(index.lists[i].head, index.lists[i].spine, tbuf, slots, offset, adj, i, n, InTab(HdbKind, index.entries, i));
  }

  lemma TablesNext(before: seq<byte>, es: seq<Slot>, i: nat)
    requires i < HDB_TABS
    ensures var parts := SubTables(HdbKind, es);
            before + EncSlots(Flat(parts[..i])) + EncSlots(SubTable(HdbKind, es, i)) == before + EncSlots(Flat(parts[..i + 1]))
  {
    hide EncSlots, Flat, SubTable;
    var parts := SubTables(HdbKind, es);
    assert parts[..i + 1] == parts[..i] + [parts[i]];
    FlatAppend(parts[..i], parts[i]);
    EncSlotsConcat(Flat(parts[..i]), parts[i]);
  }

  lemma DirectoryStart(hbase: nat, tables: seq<seq<Slot>>)
    ensures Directory(hbase, tables[..0]) == []
  {
  }

  /** The planned numbers of subtable t are its slots and its offset. */
  lemma PlannedTable(counts: seq<u32>, es: seq<Slot>, slots: seq<u32>, offset: seq<u32>, t: nat)
    requires Counted(HdbKind, counts, es) && NoWrap(counts) && Planned(counts, HDB_TABS, slots, offset) && t < HDB_TABS
    ensures slots[t] == 2 * |InTab(HdbKind, es, t)| == |SubTables(HdbKind, es)[t]|
    ensures offset[t] == 8 * |Flat(SubTables(HdbKind, es)[..t])|
  {
    hide InTab, Table, Flat, Twice, CodeBytes, Sum;
    CodeBytesNoWrap(counts, t);
    CountedSum(HdbKind, counts, es, t);
    FlatLength(SubTables(HdbKind, es)[..t], TabSlots(HdbKind, es)[..t]);
  }

  lemma DirectoryStep(counts: seq<u32>, es: seq<Slot>, hbase: nat, slots: seq<u32>, offset: seq<u32>, t: nat, head: seq<byte>)
    requires Counted(HdbKind, counts, es) && NoWrap(counts) && Planned(counts, HDB_TABS, slots, offset) && t < HDB_TABS
    ensures var tables := SubTables(HdbKind, es);
            head + Directory(hbase, tables[..t]) + (Pack32(slots[t]) + Pack32(Wrap32(hbase + offset[t])))
            == head + Directory(hbase, tables[..t + 1])
  {
    hide InTab, SubTable, Flat, Counted, NoWrap, Pack32, Wrap32;
    var tables := SubTables(HdbKind, es);
    PlannedTable(counts, es, slots, offset, t);
    assert tables[..t + 1][..t] == tables[..t];
    WrapSmall(|tables[t]|);
    var a, b, c := Directory(hbase, tables[..t]), Pack32(slots[t]), Pack32(Wrap32(hbase + offset[t]));
    assert head + a + (b + c) == head + (a + b + c);
  }

  lemma NoHdbEntries(a: nat, b: nat)
    ensures HdbEntries(a, []) == HdbEntries(b, [])
  {
  }

  /** Every record takes some room. */
  lemma {:induction false} ManyRows(rs: seq<Record>)
    ensures 6 * |rs| <= |Rows(rs)|
  {
    if rs != [] {
      ManyRows(rs[..|rs| - 1]);
    }
  }
}
