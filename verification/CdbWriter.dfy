/** The database generator of lasagna/cdb: adding records, and finishing the file. */
module CdbWriter {
  import opened Bytes
  import opened SlotTable
  import opened CdbHash
  import opened Layout
  import opened CdbImage
  import opened CdbBuild
  import opened BlockLists
  import opened Ioq

  /** Records in a block of a list. */
  const NRECS: nat := 500

  lemma RecordAppend(rs: seq<Record>, r: Record)
    ensures HBase(rs + [r]) == HBase(rs) + RecSize(r)
    ensures Body(rs + [r]) == Body(rs) + RecBytes(r)
    ensures Entries(rs + [r]) == Entries(rs) + [Slot(Hash(CdbKind, r.key), Wrap32(HBase(rs)))]
  {
    hide RecBytes, Hash;
    assert (rs + [r])[..|rs|] == rs;
    FlatAppend(Chunks(rs), RecBytes(r));
  }

  /** What is counted is what the subtables hold. */
  ghost predicate Counted(kind: Kind, counts: seq<u32>, es: seq<Slot>) {
    |counts| == Tabs(kind) && forall t :: 0 <= t < Tabs(kind) ==> counts[t] == |InTab(kind, es, t)|
  }

  lemma CountedSum(kind: Kind, counts: seq<u32>, es: seq<Slot>, t: nat)
    requires Counted(kind, counts, es) && t <= Tabs(kind)
    ensures Twice(counts[..t]) == Sum(TabSlots(kind, es)[..t])
  {
    hide Twice, Sum, InTab;
    TwiceFrom(counts, 0, TabSlots(kind, es), t);
    assert counts[..0] == [];
    assert Twice([]) == 0 by { CodeBytesZero([]); }
  }

  lemma SlotsBefore(es: seq<Slot>, t: nat)
    requires t <= NTABS
    ensures TabBase(es, t) == Sum(TabSlots(CdbKind, es)[..t])
  {
    hide Sum, Flat, InTab, Table;
    FlatLength(SubTables(CdbKind, es)[..t], TabSlots(CdbKind, es)[..t]);
  }

  lemma CountedSlots(kind: Kind, counts: seq<u32>, es: seq<Slot>)
    requires Counted(kind, counts, es)
    ensures Twice(counts) == 2 * |es|
  {
    hide Twice, Sum, InTab;
    CountedSum(kind, counts, es, Tabs(kind));
    assert counts[..Tabs(kind)] == counts && TabSlots(kind, es)[..Tabs(kind)] == TabSlots(kind, es);
    SlotsSum(kind, es);
  }

  /** The overflow check decides rightly exactly when no subtable has 2^28 records, or the size it
      computes is too big all the same. */
  lemma AcceptedRightIff(kind: Kind, counts: seq<u32>, es: seq<Slot>, hbase: nat)
    requires Counted(kind, counts, es)
    ensures (Accepted(hbase, counts) <==> hbase + 16 * |es| < U32_LIMIT)
            <==> NoWrap(counts) || hbase + CodeBytes(counts) >= U32_LIMIT
  {
    hide Twice, CodeBytes, InTab, Counted;
    CountedSlots(kind, counts, es);
    CodeBytesExact(counts);
  }

  /** The same for a database of records. */
  lemma CheckRightIff(counts: seq<u32>, rs: seq<Record>)
    requires Counted(CdbKind, counts, Entries(rs))
    ensures (Accepted(HBase(rs), counts) <==> Fits(rs))
            <==> NoWrap(counts) || HBase(rs) + CodeBytes(counts) >= U32_LIMIT
  {
    hide CodeBytes, HBase, Entries, Counted, NoWrap;
    AcceptedRightIff(CdbKind, counts, Entries(rs), HBase(rs));
  }

  function Empties(n: nat): (rs: seq<Record>)
    ensures |rs| == n
  {
    seq(n, _ => Record([], []))
  }

  lemma {:induction false} EmptiesSize(n: nat)
    ensures HBase(Empties(n)) == RBASE + 8 * n
  {
    if n > 0 {
      assert Empties(n)[..n - 1] == Empties(n - 1);
      EmptiesSize(n - 1);
    }
  }

  /** All records with an empty key share a subtable. */
  lemma {:induction false} EmptiesTabs(n: nat, t: nat)
    ensures |InTab(CdbKind, Entries(Empties(n)), t)| == if t == Ntab(CdbKind, HASH_INIT) then n else 0
  {
    hide Hash, HBase;
    if n > 0 {
      var es := Entries(Empties(n));
      assert Empties(n)[..n - 1] == Empties(n - 1);
      assert es[..n - 1] == Entries(Empties(n - 1));
      EmptiesTabs(n - 1, t);
      assert Hash(CdbKind, []) == HASH_INIT by { EmptyHash(); }
    }
  }

  lemma EmptyHash()
    ensures Hash(CdbKind, []) == HASH_INIT
  {
  }

  /** 2^28 records with empty key and data: the records take 2 gigabytes, the tables need 4, and the
      check passes. */
  lemma CheckFooled() returns (rs: seq<Record>, counts: seq<u32>)
    ensures |rs| == WRAP_COUNT && forall i :: 0 <= i < |rs| ==> rs[i] == Record([], [])
    ensures Counted(CdbKind, counts, Entries(rs)) && HBase(rs) < U32_LIMIT
    ensures Accepted(HBase(rs), counts) && !Fits(rs)
  {
    hide CodeBytes, HBase, Entries, InTab, Ntab;
    rs := Empties(WRAP_COUNT);
    counts := seq(NTABS, t requires 0 <= t < NTABS => if t == Ntab(CdbKind, HASH_INIT) then WRAP_COUNT else 0);
    EmptiesSize(WRAP_COUNT);
    forall t | 0 <= t < NTABS
      ensures counts[t] == |InTab(CdbKind, Entries(rs), t)|
    {
      EmptiesTabs(WRAP_COUNT, t);
    }
    CodeBytesGone(counts);
  }

  /** The rest is written first, then the head goes in front. */
  lemma Assembled(head: seq<byte>, rest: seq<byte>)
    ensures Overlay(Overlay([], |head|, rest), 0, head) == head + rest
  {
    if rest == [] {
      assert head + rest == head;
    } else {
      assert Overlay([], |head|, rest) == Zeros(|head|) + rest;
      assert (Zeros(|head|) + rest)[|head|..] == rest;
    }
  }

  /** The bytes after l batches. */
  ghost function Batches(before: seq<byte>, es: seq<Slot>, l: nat): seq<byte>
    requires l <= NLISTS
  {
    before + EncSlots(Flat(SubTables(CdbKind, es)[..64 * l]))
  }

  lemma TablesStart(before: seq<byte>, es: seq<Slot>, counts: seq<u32>)
    ensures Batches(before, es, 0) == before
    ensures Batches(before, es, NLISTS) == before + EncSlots(Flat(SubTables(CdbKind, es)))
    ensures Twice(counts[..0]) == 0
  {
    hide SubTables;
    assert SubTables(CdbKind, es)[..0] == [] && SubTables(CdbKind, es)[..256] == SubTables(CdbKind, es) && counts[..0] == [];
    assert before + [] == before;
  }

  lemma TablesStep(before: seq<byte>, es: seq<Slot>, l: nat)
    requires l < NLISTS
    ensures Batches(before, es, l) + EncSlots(Flat(SubTables(CdbKind, es)[64 * l..64 * l + 64])) == Batches(before, es, l + 1)
  {
    hide EncSlots, Flat, SubTables;
    var all := SubTables(CdbKind, es);
    var a, b := all[..64 * l], all[64 * l..64 * l + 64];
    assert all[..64 * l + 64] == a + b;
    FlatConcat(a, b);
    EncSlotsConcat(Flat(a), Flat(b));
    assert before + EncSlots(Flat(a)) + EncSlots(Flat(b)) == before + (EncSlots(Flat(a)) + EncSlots(Flat(b)));
  }

  /** The planned sizes and offsets fit batch l. */
  lemma BatchPlan(counts: seq<u32>, es: seq<Slot>, slots: seq<u32>, offset: seq<u32>, lists: seq<u32>, l: nat, ns: seq<nat>)
    requires Counted(CdbKind, counts, es) && NoWrap(counts) && l < NLISTS
    requires Planned(counts, NTABS, slots, offset) && ListsPlanned(counts, NTABS, lists)
    requires ns == TabSlots(CdbKind, es)[64 * l..64 * l + 64]
    ensures Ready(slots, offset, 8 * Twice(counts[..64 * l]), 64 * l, ns) && Sized(es, 64 * l, ns)
    ensures lists[l] == Sum(ns)
    ensures Twice(counts[..64 * l + 64]) == Twice(counts[..64 * l]) + Sum(ns)
    ensures Twice(counts[..64 * l]) <= Twice(counts)
  {
    hide Planned, Twice, Sum, InTab, NoWrap, Ready, ListSlots;
    PlanReady(counts, slots, offset, l, ns);
    TwiceFrom(counts, 64 * l, ns, 64);
    assert ns[..64] == ns;
    TwiceMono(counts, 64 * l);
  }

  /** The pointer of subtable t, as planned. */
  lemma PointersStep(counts: seq<u32>, es: seq<Slot>, hbase: u32, slots: seq<u32>, offset: seq<u32>, t: nat)
    requires Counted(CdbKind, counts, es) && NoWrap(counts) && t < NTABS && Planned(counts, NTABS, slots, offset)
    ensures Pointers(hbase, SubTables(CdbKind, es)[..t]) + PtrBytes(hbase + offset[t], slots[t])
         == Pointers(hbase, SubTables(CdbKind, es)[..t + 1])
  {
    hide Twice, CodeBytes, Flat, SubTables, InTab, PtrBytes, Sum, Times32;
    var all := SubTables(CdbKind, es);
    assert all[..t + 1][..t] == all[..t];
    CountedSum(CdbKind, counts, es, t);
    SlotsBefore(es, t);
    CodeBytesNoWrap(counts, t);
    SlotsDoubled(counts[t]);
  }

  lemma SlotsDoubled(c: u32)
    requires c < WRAP_COUNT
    ensures Times32(c, 2) == 2 * (c as int)
  {
  }

  datatype Finished = Done | TooBig | Broken

  datatype Added = Added | Overflow | Failed

  /** The (hash, offset) pairs of the records added: four input lists and 256 counters. */
  class Index {
    const kind: Kind
    const lists: seq<BlockList>
    const count: array<u32>
    ghost var entries: seq<Slot>
    ghost var repr: set<object>

    ghost predicate Shape()
      reads this, repr
    {
      && this in repr && |lists| == Lists(kind) && count.Length == Tabs(kind) && count in repr
      && (forall l :: 0 <= l < |lists| ==> lists[l] in repr && lists[l].repr <= repr - {this, count})
      && (forall l, m :: 0 <= l < m < |lists| ==> lists[l].repr !! lists[m].repr)
      && (forall l :: 0 <= l < |lists| ==> lists[l].Valid())
    }

    /** The lists and the counters hold exactly the entries. */
    ghost predicate Valid()
      reads this, repr
    {
      && Shape() && |entries| < U32_LIMIT
      && (forall t :: 0 <= t < count.Length ==> count[t] == |InTab(kind, entries, t)|)
      && (forall l :: 0 <= l < |lists| ==> lists[l].Contents() == InList(kind, entries, l))
    }

    constructor (kind: Kind, room: nat)
      requires 0 < room
      ensures Valid() && entries == [] && fresh(repr) && this.kind == kind
    {
      hide InList, InTab;
      var banks, objects := NewLists(Lists(kind), room);
      this.kind := kind;
      lists := banks;
      count := new u32[Tabs(kind)](_ => 0);
      entries := [];
      repr := {this, count} + objects;
      new;
      NoEntries(kind);
    }

    /** File an entry in the list of its subtable and count it. */
    method Add(e: Slot)
      requires Valid() && |entries| + 1 < U32_LIMIT
      modifies repr
      ensures Valid() && fresh(repr - old(repr))
      ensures entries == old(entries) + [e]
    {
      hide Ntab, ListOf, InList, InTab, Lists, Tabs;
      Filed(kind, entries, e);
      ShapeSizes();
      Push(ListOf(kind, e.hash), e);
      Bump(Ntab(kind, e.hash));
      hide Shape;
      Note(entries + [e]);
    }

    lemma ShapeSizes()
      requires Shape()
      ensures |lists| == Lists(kind) && count.Length == Tabs(kind)
    {
    }

    /** Remember the entries filed. */
    ghost method Note(es: seq<Slot>)
      requires Shape()
      modifies this`entries
      ensures Shape() && entries == es
      ensures forall l :: 0 <= l < |lists| ==> lists[l].Contents() == old(lists[l].Contents())
    {
      entries := es;
    }

    /** Count one more entry of a subtable. */
    method Bump(t: nat)
      requires Shape() && t < count.Length && count[t] + 1 < U32_LIMIT
      modifies count
      ensures Shape() && count[..] == old(count[..])[t := old(count[t]) + 1]
      ensures forall l :: 0 <= l < |lists| ==> lists[l].Contents() == old(lists[l].Contents())
    {
      count[t] := count[t] + 1;
    }

    /** Add to one list; the others stay as they are. */
    method Push(l: nat, e: Slot)
      requires Shape() && l < |lists|
      modifies this`repr, lists[l].repr
      ensures Shape() && fresh(repr - old(repr)) && old(repr) <= repr
      ensures lists[l].Contents() == old(lists[l].Contents()) + [e]
      ensures forall m :: 0 <= m < |lists| && m != l ==> lists[m].Contents() == old(lists[m].Contents())
    {
      hide Lists, Tabs;
      lists[l].Add(e);
      repr := repr + lists[l].repr;
    }

    /** Lists l, l + 1, ... have not been read yet. */
    ghost predicate Unread(l: nat)
      requires Shape()
      reads this, repr
    {
      forall m :: l <= m < |lists| ==> lists[m].Contents() == InList(kind, entries, m)
    }

    /** Restore the order of list l. */
    method ReverseList(l: nat)
      requires Shape() && Unread(l) && l < |lists|
      modifies lists[l].repr
      ensures Shape() && Unread(l + 1) && entries == old(entries) && repr == old(repr)
      ensures Forward(lists[l].spine) == InList(kind, entries, l)
    {
      hide InList, Lists, Tabs;
      lists[l].Reverse();
    }

    /** Restore the order of list l and load its entries into a zeroed buffer: the buffer then holds
        64 of the subtables. */
    method BuildList(l: nat, tbuf: array<byte>, slots: seq<u32>, offset: seq<u32>, adj: u32, ghost ns: seq<nat>)
      returns (rc: int)
      requires Shape() && Unread(l) && kind == CdbKind && l < NLISTS && AllUsed(entries)
      requires tbuf !in repr
      requires |ns| == 64 && Ready(slots, offset, adj, 64 * l, ns) && Sized(entries, 64 * l, ns)
      requires 8 * Sum(ns) <= tbuf.Length && tbuf[..8 * Sum(ns)] == Zeros(8 * Sum(ns))
      modifies lists[l].repr, tbuf
      ensures Shape() && Unread(l + 1) && entries == old(entries) && repr == old(repr)
      ensures rc == 0
      ensures tbuf[..8 * Sum(ns)] == EncSlots(Flat(SubTables(CdbKind, entries)[64 * l..64 * l + 64]))
    {
      hide EncSlots, Flat, SubTables, Sum, Ntab, Nlist, AllUsed, Zeros, Sized, InList, Ready;
      ghost var all := InList(CdbKind, entries, l);
      InListFacts(entries, l);
      SizedList(entries, l, ns);
      ReverseList(l);
      rc := LoadList(lists[l].head, lists[l].spine, tbuf, slots, offset, adj, all, 64 * l, ns);
      BatchSized(entries, l, ns);
    }
  }

  lemma SizedList(es: seq<Slot>, l: nat, ns: seq<nat>)
    requires l < NLISTS && |ns| == 64 && Sized(es, 64 * l, ns)
    ensures Sized(InList(CdbKind, es, l), 64 * l, ns)
  {
    hide InList, InTab;
    forall j | 0 <= j < 64
      ensures ns[j] == 2 * |InTab(CdbKind, InList(CdbKind, es, l), 64 * l + j)|
    {
      InTabInList(es, l, 64 * l + j);
    }
  }

  lemma BatchSized(es: seq<Slot>, l: nat, ns: seq<nat>)
    requires l < NLISTS && |ns| == 64 && Sized(es, 64 * l, ns)
    ensures Batch(InList(CdbKind, es, l), 64 * l, ns) == SubTables(CdbKind, es)[64 * l..64 * l + 64]
  {
    BatchIsSubTables(es, l, ns);
  }

  method NewLists(n: nat, room: nat) returns (lists: seq<BlockList>, ghost objects: set<object>)
    requires 0 < room
    ensures |lists| == n && fresh(objects)
    ensures forall l :: 0 <= l < n ==> lists[l] in objects && lists[l].repr <= objects
    ensures forall l, m :: 0 <= l < m < n ==> lists[l].repr !! lists[m].repr
    ensures forall l :: 0 <= l < n ==> lists[l].Valid() && lists[l].Contents() == [] && lists[l].room == room
  {
    lists, objects := [], {};
    while |lists| < n
      invariant |lists| <= n && fresh(objects)
      invariant forall l :: 0 <= l < |lists| ==> lists[l] in objects && lists[l].repr <= objects
      invariant forall l, m :: 0 <= l < m < |lists| ==> lists[l].repr !! lists[m].repr
      invariant forall l :: 0 <= l < |lists| ==> lists[l].Valid() && lists[l].Contents() == [] && lists[l].room == room
    {
      var one := new BlockList(room);
      lists := lists + [one];
      objects := objects + one.repr;
    }
  }

  lemma NoEntries(kind: Kind)
    ensures forall t :: InTab(kind, [], t) == []
    ensures forall l :: InList(kind, [], l) == []
  {
  }

  /** What one more entry does to the lists and to the subtables. */
  lemma Filed(kind: Kind, es: seq<Slot>, e: Slot)
    ensures |InTab(kind, es, Ntab(kind, e.hash))| <= |es|
    ensures forall m :: InList(kind, es + [e], m) ==
                          if m == ListOf(kind, e.hash) then InList(kind, es, m) + [e] else InList(kind, es, m)
    ensures forall t :: |InTab(kind, es + [e], t)| ==
                          if t == Ntab(kind, e.hash) then |InTab(kind, es, t)| + 1 else |InTab(kind, es, t)|
  {
    hide Ntab, ListOf, InList, InTab;
    InTabLength(kind, es, Ntab(kind, e.hash));
    forall m
      ensures InList(kind, es + [e], m) ==
              if m == ListOf(kind, e.hash) then InList(kind, es, m) + [e] else InList(kind, es, m)
    {
      InListAppend(kind, es, e, m);
    }
    forall t
      ensures |InTab(kind, es + [e], t)| ==
              if t == Ntab(kind, e.hash) then |InTab(kind, es, t)| + 1 else |InTab(kind, es, t)|
    {
      InTabAppend(kind, es, e, t);
    }
  }

  lemma {:induction false} InTabLength(kind: Kind, es: seq<Slot>, t: nat)
    ensures |InTab(kind, es, t)| <= |es|
  {
    if es != [] {
      InTabLength(kind, es[..|es| - 1], t);
    }
  }

  /** Load every entry of a reversed list, block after block. */
  method LoadList(head: Block?, ghost spine: seq<Block>,
                  tbuf: array<byte>, slots: seq<u32>, offset: seq<u32>, adj: u32,
                  ghost all: seq<Slot>, ghost lo: nat, ghost ns: seq<nat>)
    returns (rc: int)
    requires Chain(head, spine) && Forward(spine) == all
    requires Ready(slots, offset, adj, lo, ns) && Sized(all, lo, ns) && AllUsed(all)
    requires forall i :: 0 <= i < |all| ==> lo <= Ntab(CdbKind, all[i].hash) < lo + 64
    requires 8 * Sum(ns) <= tbuf.Length && tbuf[..8 * Sum(ns)] == Zeros(8 * Sum(ns))
    modifies tbuf
    ensures rc == 0
    ensures tbuf[..8 * Sum(ns)] == EncSlots(Flat(Batch(all, lo, ns)))
  {
    hide EncSlots, Flat, Batch, Sum, Ntab, Ready, Sized, AllUsed, Zeros, Forward, Chain;
    BatchEmpty(lo, ns);
    var block := head;
    ghost var i, done := 0, 0;
    assert all[..0] == [] && spine[0..] == spine;
    assert [] + Forward(spine) == Forward(spine);
    while block != null
      invariant 0 <= i <= |spine| && 0 <= done <= |all|
      invariant Chain(block, spine[i..])
      invariant all[..done] + Forward(spine[i..]) == all
      invariant tbuf[..8 * Sum(ns)] == EncSlots(Flat(Batch(all[..done], lo, ns)))
      decreases |spine| - i
    {
      ChainStep(block, spine, i);
      ghost var n := |block.record|;
      NextPiece(all, done, block.record, Forward(spine[i + 1..]));
      rc := LoadBlock(block, tbuf, slots, offset, adj, all, done, lo, ns);
      done := done + n;
      i := i + 1;
      block := block.next;
    }
    ChainEnd(spine[i..]);
    assert all[..done] == all;
    return 0;
  }

  lemma ChainStep(block: Block, spine: seq<Block>, i: nat)
    requires i <= |spine| && Chain(block, spine[i..])
    ensures i < |spine| && Chain(block.next, spine[i + 1..])
    ensures Forward(spine[i..]) == block.record + Forward(spine[i + 1..])
  {
    assert spine[i..][1..] == spine[i + 1..];
  }

  lemma ChainEnd(spine: seq<Block>)
    requires Chain(null, spine)
    ensures Forward(spine) == []
  {
  }

  lemma NextPiece<T>(all: seq<T>, done: nat, piece: seq<T>, rest: seq<T>)
    requires done <= |all| && all[..done] + (piece + rest) == all
    ensures done + |piece| <= |all| && all[done..done + |piece|] == piece
    ensures all[..done + |piece|] + rest == all
  {
    var a := all[..done];
    assert a + (piece + rest) == (a + piece) + rest;
    assert all[..done + |piece|] == a + piece;
  }

  method LoadBlock(block: Block, tbuf: array<byte>, slots: seq<u32>, offset: seq<u32>, adj: u32,
                   ghost all: seq<Slot>, ghost done: nat, ghost lo: nat, ghost ns: seq<nat>)
    returns (rc: int)
    requires Ready(slots, offset, adj, lo, ns) && Sized(all, lo, ns) && AllUsed(all)
    requires forall i :: 0 <= i < |all| ==> lo <= Ntab(CdbKind, all[i].hash) < lo + 64
    requires done + |block.record| <= |all| && all[done..done + |block.record|] == block.record
    requires 8 * Sum(ns) <= tbuf.Length
    requires tbuf[..8 * Sum(ns)] == EncSlots(Flat(Batch(all[..done], lo, ns)))
    modifies tbuf
    ensures rc == 0
    ensures tbuf[..8 * Sum(ns)] == EncSlots(Flat(Batch(all[..done + |block.record|], lo, ns)))
  {
    hide EncSlots, Flat, Batch, Sum, Ntab, Ready, Sized, AllUsed;
    var k := 0;
    while k < |block.record|
      invariant 0 <= k <= |block.record|
      invariant tbuf[..8 * Sum(ns)] == EncSlots(Flat(Batch(all[..done + k], lo, ns)))
    {
      var e := block.record[k];
      assert e == all[done..done + |block.record|][k] == all[done + k];
      rc := LoadOne(tbuf, slots, offset, adj, e, all, done + k, lo, ns);
      k := k + 1;
    }
    return 0;
  }

  /** The generator. */
  class CdbMk {
    var fp: nat
    const index: Index
    const ioq: OutQueue
    /** The records added so far. */
    ghost var records: seq<Record>

    /** The objects of the generator do not overlap. */
    ghost predicate Apart()
      reads this, index
    {
      && index.kind == CdbKind
      && this !in index.repr && ioq !in index.repr && ioq.buf !in index.repr && ioq.file !in index.repr
    }

    /** The open file holds the bytes s from the first record's offset on, written or waiting. */
    ghost predicate Wrote(s: seq<byte>)
      reads this, ioq, ioq.buf, ioq.file
    {
      ioq.Valid() && ioq.file.base == [] && ioq.file.start == RBASE && ioq.Stream() == s
    }

    ghost predicate Valid()
      reads this, index, index.repr, ioq, ioq.buf, ioq.file
    {
      && Apart()
      && index.Valid() && index.entries == Entries(records)
      && fp == HBase(records) < U32_LIMIT
      && Wrote(Body(records))
    }

    /** cdbmk_init on an empty file. */
    constructor (bufSize: nat, file: Sink)
      requires 0 < bufSize && file.Valid() && file.content == []
      modifies file
      ensures Valid() && records == [] && ioq.file == file && file.errors == old(file.errors)
      ensures fresh(index.repr) && fresh(ioq) && fresh(ioq.buf)
    {
      ioq := new OutQueue(bufSize, file);
      index := new Index(CdbKind, NRECS);
      fp := RBASE;
      records := [];
      new;
      hide Index.Valid;
      file.Seek(RBASE);
    }

    method PutRaw(ghost before: seq<byte>, data: seq<byte>) returns (ok: bool)
      requires Wrote(before)
      modifies ioq, ioq.buf, ioq.file
      ensures ioq.Valid()
      ensures ok ==> Wrote(before + data)
      ensures ok <==> ioq.file.errors == old(ioq.file.errors)
    {
      ok := ioq.Put(data);
    }

    /** Put bytes after those already put. */
    method PutAfter(ghost before: seq<byte>, data: seq<byte>) returns (ok: bool)
      requires Apart() && index.Valid() && Wrote(before)
      modifies ioq, ioq.buf, ioq.file
      ensures Apart() && index.Valid()
      ensures ok ==> Wrote(before + data)
      ensures ok <==> ioq.file.errors == old(ioq.file.errors)
    {
      ok := ioq.Put(data);
    }

    /** The offset past a record of these lengths, unless it overflows. */
    method NextOffset(klen: u32, dlen: u32) returns (ok: bool, up: u32)
      requires fp < U32_LIMIT
      ensures ok <==> fp + 8 + klen + dlen < U32_LIMIT
      ensures ok ==> up == fp + 8 + klen + dlen
    {
      ok, up := AddU32(fp, 8);
      if !ok {
        return;
      }
      ok, up := AddU32(up, klen);
      if !ok {
        return;
      }
      ok, up := AddU32(up, dlen);
    }

    /** Count a record whose bytes have been put. */
    method Commit(hash: u32, up: u32, ghost r: Record)
      requires Apart() && index.Valid() && index.entries == Entries(records)
      requires fp == HBase(records) && fp + RecSize(r) == up && hash == Hash(CdbKind, r.key)
      requires Wrote(Body(records) + RecBytes(r))
      modifies this, index.repr
      ensures Valid() && records == old(records) + [r] && ioq.file.errors == old(ioq.file.errors)
      ensures fresh(index.repr - old(index.repr))
    {
      hide HBase, Body, Entries, Hash, RecBytes;
      RecordAppend(records, r);
      WrapSmall(fp);
      index.Add(Slot(hash, fp));
      fp := up;
      records := records + [r];
    }

    /** cdbmk_add. */
    method Add(key: seq<byte>, data: seq<byte>) returns (res: Added)
      requires Valid() && |key| < U32_LIMIT && |data| < U32_LIMIT
      modifies this, index.repr, ioq, ioq.buf, ioq.file
      ensures res.Added? ==> Valid() && records == old(records) + [Record(key, data)]
      ensures res.Overflow? <==> old(fp) + 8 + |key| + |data| >= U32_LIMIT
      ensures res.Overflow? ==> Valid() && records == old(records)
      ensures res.Failed? <==> ioq.file.errors != old(ioq.file.errors)
      ensures fresh(index.repr - old(index.repr))
    {
      hide Body, Pack32, Hash, HBase, Entries, HashFold;
      ghost var r := Record(key, data);
      ghost var before := Body(records);
      var ok, up := NextOffset(|key|, |data|);
      if !ok {
        return Overflow;
      }
      var head := Pack32(|key|) + Pack32(|data|);
      ok := PutAfter(before, head);
      if !ok {
        return Failed;
      }
      ok := PutAfter(before + head, key);
      if !ok {
        return Failed;
      }
      ok := PutAfter(before + head + key, data);
      if !ok {
        return Failed;
      }
      RecordPieces(before, r);
      var hash := HashPart(CdbKind, HASH_INIT, key);
      HashOf(CdbKind, key);
      Commit(hash, up, r);
      return Added;
    }

    /** The reader does not overlap the generator. */
    ghost predicate Foreign(inq: InQueue)
      reads this, index
    {
      && inq !in index.repr && inq.buf !in index.repr && inq.src !in index.repr
      && inq.buf != ioq.buf
    }

    /** No system call has failed since. */
    ghost predicate NoErrors(inq: InQueue, writes: nat, readings: nat)
      reads ioq, ioq.file, inq, inq.src
    {
      ioq.file.errors == writes && inq.src.errors == readings
    }

    /** Copy len bytes of key from the reader to the file, in whatever pieces they come, hashing
        them on the way. */
    method MoveKey(inq: InQueue, len: u32, ghost before: seq<byte>) returns (ok: bool, hash: u32, ghost part: seq<byte>)
      requires Apart() && index.Valid() && Wrote(before) && inq.Valid() && Foreign(inq)
      modifies inq, inq.buf, inq.src, ioq, ioq.buf, ioq.file
      ensures Apart() && index.Valid() && inq.Valid() && Foreign(inq)
      ensures ok ==> Wrote(before + part) && |part| == len && hash == HashFold(CdbKind, HASH_INIT, part)
      ensures ok ==> old(inq.Upcoming()) == part + inq.Upcoming()
      ensures ok <==> NoErrors(inq, old(ioq.file.errors), old(inq.src.errors)) && |old(inq.Upcoming())| >= len
    {
      hide HashFold, Index.Valid, CdbMk.Wrote;
      var left := len;
      hash, part := HASH_INIT, [];
      HashNothing();
      assert before + [] == before && [] + inq.Upcoming() == inq.Upcoming();
      while left > 0
        invariant 0 <= left <= len && |part| + left == len
        invariant Apart() && index.Valid() && inq.Valid() && Foreign(inq)
        invariant Wrote(before + part) && hash == HashFold(CdbKind, HASH_INIT, part)
        invariant old(inq.Upcoming()) == part + inq.Upcoming()
        invariant NoErrors(inq, old(ioq.file.errors), old(inq.src.errors))
      {
        var chunk;
        ok, chunk := Peek(inq, left);
        if !ok {
          return false, hash, part;
        }
        HashAppend(CdbKind, HASH_INIT, part, chunk);
        hash := HashPart(CdbKind, hash, chunk);
        ok := PutAfter(before + part, chunk);
        if !ok {
          return false, hash, part;
        }
        Concat3(before, part, chunk);
        Concat3(part, chunk, inq.Upcoming());
        part := part + chunk;
        left := left - |chunk|;
      }
      return true, hash, part;
    }

    /** Copy len bytes of data from the reader to the file. */
    method MoveData(inq: InQueue, len: u32, ghost before: seq<byte>) returns (ok: bool, ghost part: seq<byte>)
      requires Apart() && index.Valid() && Wrote(before) && inq.Valid() && Foreign(inq)
      modifies inq, inq.buf, inq.src, ioq, ioq.buf, ioq.file
      ensures Apart() && index.Valid() && inq.Valid() && Foreign(inq)
      ensures ok ==> Wrote(before + part) && |part| == len
      ensures ok ==> old(inq.Upcoming()) == part + inq.Upcoming()
      ensures ok <==> NoErrors(inq, old(ioq.file.errors), old(inq.src.errors)) && |old(inq.Upcoming())| >= len
    {
      var left := len;
      part := [];
      assert before + [] == before && [] + inq.Upcoming() == inq.Upcoming();
      while left > 0
        invariant 0 <= left <= len && |part| + left == len
        invariant Apart() && index.Valid() && inq.Valid() && Foreign(inq)
        invariant Wrote(before + part)
        invariant old(inq.Upcoming()) == part + inq.Upcoming()
        invariant NoErrors(inq, old(ioq.file.errors), old(inq.src.errors))
      {
        var chunk;
        ok, chunk := Peek(inq, left);
        if !ok {
          return false, part;
        }
        ok := PutAfter(before + part, chunk);
        if !ok {
          return false, part;
        }
        Concat3(before, part, chunk);
        Concat3(part, chunk, inq.Upcoming());
        part := part + chunk;
        left := left - |chunk|;
      }
      return true, part;
    }

    /** Copy one record from the reader to the file: length header, key, data; the separator between
        key and data stays out of the file. */
    method CopyRecord(inq: InQueue, klen: u32, dlen: u32, sep: seq<byte>, ghost before: seq<byte>)
      returns (ok: bool, hash: u32, ghost r: Record)
      requires Apart() && index.Valid() && Wrote(before) && inq.Valid() && Foreign(inq)
      modifies inq, inq.buf, inq.src, ioq, ioq.buf, ioq.file
      ensures Apart() && index.Valid() && inq.Valid()
      ensures ok ==> Wrote(before + RecBytes(r)) && |r.key| == klen && |r.data| == dlen
      ensures ok ==> hash == Hash(CdbKind, r.key) && old(inq.Upcoming()) == r.key + sep + r.data + inq.Upcoming()
      ensures ok <==> NoErrors(inq, old(ioq.file.errors), old(inq.src.errors))
                      && Delivers(old(inq.Upcoming()), klen, sep, dlen)
    {
      hide Pack32, Hash, HashFold, RecBytes;
      r, hash := Record([], []), 0;
      var head := Pack32(klen) + Pack32(dlen);
      ok := PutAfter(before, head);
      if !ok {
        return;
      }
      ghost var key, data;
      ok, hash, key := MoveKey(inq, klen, before + head);
      if !ok {
        return;
      }
      Delivered(inq.Upcoming(), key, sep, dlen);
      ok := Drain(inq, sep);
      if !ok {
        return;
      }
      ok, data := MoveData(inq, dlen, before + head + key);
      r := Record(key, data);
      if ok {
        Concat4(key, sep, data, inq.Upcoming());
        RecordPieces(before, r);
        HashOf(CdbKind, key);
      }
    }

    /** cdbmk_addioq: the record comes from a reader as key, separator, data. The generator ends up as
        if the record had been added whole, with the reader just past the record. */
    method AddIoq(inq: InQueue, klen: u32, dlen: u32, sep: seq<byte>) returns (res: Added, ghost r: Record)
      requires Valid() && inq.Valid() && Foreign(inq)
      modifies this, index.repr, ioq, ioq.buf, ioq.file, inq, inq.buf, inq.src
      ensures res.Added? ==> Valid() && records == old(records) + [r]
      ensures res.Added? ==> |r.key| == klen && |r.data| == dlen
      ensures res.Added? ==> inq.Valid() && old(inq.Upcoming()) == r.key + sep + r.data + inq.Upcoming()
      ensures res.Overflow? <==> old(fp) + 8 + klen + dlen >= U32_LIMIT
      ensures res.Overflow? ==> Valid() && records == old(records)
      ensures res.Overflow? ==> inq.Valid() && inq.Upcoming() == old(inq.Upcoming())
      ensures res.Added? <==> old(fp) + 8 + klen + dlen < U32_LIMIT
                              && NoErrors(inq, old(ioq.file.errors), old(inq.src.errors))
                              && Delivers(old(inq.Upcoming()), klen, sep, dlen)
    {
      hide Body, Hash, HBase, Entries, RecBytes;
      var ok, up := NextOffset(klen, dlen);
      r := Record([], []);
      if !ok {
        return Overflow, r;
      }
      var hash;
      ok, hash, r := CopyRecord(inq, klen, dlen, sep, Body(records));
      if !ok {
        return Failed, r;
      }
      Commit(hash, up, r);
      return Added, r;
    }

    /** Batch l: zero the buffer, build the 64 subtables of input list l in it, put it. */
    method WriteBatch(l: nat, tbuf: array<byte>, slots: seq<u32>, offset: seq<u32>, size: nat, adj: u32,
                      ghost ns: seq<nat>, ghost before: seq<byte>)
      returns (ok: bool)
      requires Apart() && index.Shape() && index.Unread(l) && l < NLISTS && AllUsed(index.entries)
      requires Wrote(before) && tbuf !in index.repr && tbuf != ioq.buf
      requires |ns| == 64 && Ready(slots, offset, adj, 64 * l, ns) && Sized(index.entries, 64 * l, ns)
      requires size == 8 * Sum(ns) <= tbuf.Length
      modifies index.repr, tbuf, ioq, ioq.buf, ioq.file
      ensures ioq.Valid() && Apart() && index.Shape() && index.Unread(l + 1)
      ensures index.entries == old(index.entries) && index.repr == old(index.repr)
      ensures ok ==> Wrote(before + EncSlots(Flat(SubTables(CdbKind, index.entries)[64 * l..64 * l + 64])))
      ensures ok <==> ioq.file.errors == old(ioq.file.errors)
    {
      hide EncSlots, Flat, SubTables, AllUsed, InTab, InList, Sum, Ready, Sized, Zeros;
      Zero(tbuf, size);
      var rc := index.BuildList(l, tbuf, slots, offset, adj, ns);
      ok := PutRaw(before, tbuf[..size]);
    }

    /** The state between two batches. */
    ghost predicate Between(l: nat, es: seq<Slot>, objects: set<object>, before: seq<byte>)
      requires l <= NLISTS
      reads this, index, index.repr, ioq, ioq.buf, ioq.file
    {
      && Apart() && index.repr == objects && index.entries == es
      && index.Shape() && index.Unread(l) && Wrote(Batches(before, es, l))
    }

    method NextBatch(l: nat, tbuf: array<byte>, slots: seq<u32>, offset: seq<u32>, lists: seq<u32>, sum: nat,
                     ghost counts: seq<u32>, ghost es: seq<Slot>, ghost objects: set<object>, ghost before: seq<byte>)
      returns (ok: bool)
      requires l < NLISTS && Between(l, es, objects, before) && AllUsed(es) && tbuf !in objects && tbuf != ioq.buf
      requires Counted(CdbKind, counts, es) && NoWrap(counts) && 8 * Twice(counts) < U32_LIMIT
      requires Planned(counts, NTABS, slots, offset) && ListsPlanned(counts, NTABS, lists)
      requires 8 * (lists[l] as int) <= tbuf.Length && sum == Twice(counts[..64 * l])
      modifies index.repr, tbuf, ioq, ioq.buf, ioq.file
      ensures ioq.Valid()
      ensures ok ==> Between(l + 1, es, objects, before)
      ensures ok <==> ioq.file.errors == old(ioq.file.errors)
      ensures sum + (lists[l] as nat) == Twice(counts[..64 * l + 64])
    {
      hide EncSlots, Flat, SubTables, Twice, Planned, AllUsed, InTab, InList, NoWrap, Sum, Ready, Sized, TabSlots, Counted, Batches, Index.Shape, Index.Unread;
      ghost var ns := TabSlots(CdbKind, es)[64 * l..64 * l + 64];
      BatchPlan(counts, es, slots, offset, lists, l, ns);
      var n: nat := lists[l];
      ok := WriteBatch(l, tbuf, slots, offset, 8 * n, sum * 8, ns, Batches(before, es, l));
      TablesStep(before, es, l);
    }

    method AllBatches(tbuf: array<byte>, slots: seq<u32>, offset: seq<u32>, lists: seq<u32>,
                      ghost counts: seq<u32>, ghost es: seq<Slot>, ghost objects: set<object>, ghost before: seq<byte>)
      returns (ok: bool)
      requires Between(0, es, objects, before) && AllUsed(es) && tbuf !in objects && tbuf != ioq.buf
      requires Counted(CdbKind, counts, es) && NoWrap(counts) && 8 * Twice(counts) < U32_LIMIT && |counts| == NTABS
      requires Planned(counts, NTABS, slots, offset) && ListsPlanned(counts, NTABS, lists)
      requires |lists| == NLISTS && forall l :: 0 <= l < NLISTS ==> 8 * (lists[l] as int) <= tbuf.Length
      modifies index.repr, tbuf, ioq, ioq.buf, ioq.file
      ensures ioq.Valid()
      ensures ok ==> Between(NLISTS, es, objects, before)
      ensures ok <==> ioq.file.errors == old(ioq.file.errors)
    {
      hide Twice, Planned, ListsPlanned, AllUsed, NoWrap, Counted, Batches, Index.Shape, Index.Unread, CdbMk.Apart, OutQueue.Valid, OutQueue.Stream;
      TablesStart(before, es, counts);
      var sum: nat, l: nat := 0, 0;
      while l < NLISTS
        invariant 0 <= l <= NLISTS
        invariant Between(l, es, objects, before)
        invariant sum == Twice(counts[..64 * l]) && ioq.file.errors == old(ioq.file.errors)
      {
        ok := NextBatch(l, tbuf, slots, offset, lists, sum, counts, es, objects, before);
        if !ok {
          return false;
        }
        var n: nat := lists[l];
        sum := sum + n;
        l := l + 1;
      }
      return true;
    }

    /** Section H: four batches of 64 subtables, each built in the same buffer. */
    method WriteTables(slots: seq<u32>, offset: seq<u32>, lists: seq<u32>, ghost counts: seq<u32>, ghost before: seq<byte>)
      returns (ok: bool)
      requires Apart() && index.Shape() && index.Unread(0) && Wrote(before) && AllUsed(index.entries)
      requires Counted(CdbKind, counts, index.entries) && NoWrap(counts) && 8 * Twice(counts) < U32_LIMIT
      requires |counts| == NTABS && Planned(counts, NTABS, slots, offset) && |lists| == NLISTS && ListsPlanned(counts, NTABS, lists)
      modifies index.repr, ioq, ioq.buf, ioq.file
      ensures ioq.Valid()
      ensures ok ==> Wrote(before + EncSlots(Flat(SubTables(CdbKind, old(index.entries)))))
      ensures ok <==> ioq.file.errors == old(ioq.file.errors)
    {
      hide EncSlots, Flat, SubTables, Twice, Planned, ListsPlanned, AllUsed, NoWrap, Counted, Batches, Index.Shape, Index.Unread;
      ghost var es, objects := index.entries, index.repr;
      var max := Largest(lists);
      var tbuf := new byte[max * 8](_ => 0);
      TablesStart(before, es, counts);
      ok := AllBatches(tbuf, slots, offset, lists, counts, es, objects, before);
    }

    /** Section P: offset and slots of every subtable. */
    method WritePointers(hbase: u32, slots: seq<u32>, offset: seq<u32>, ghost counts: seq<u32>, ghost es: seq<Slot>)
      returns (ok: bool)
      requires ioq.Valid() && ioq.Stream() == []
      requires Counted(CdbKind, counts, es) && NoWrap(counts) && Planned(counts, NTABS, slots, offset)
      modifies ioq, ioq.buf, ioq.file
      ensures ioq.Valid() && ioq.file.base == old(ioq.file.base) && ioq.file.start == old(ioq.file.start)
      ensures ok ==> ioq.Stream() == Pointers(hbase, SubTables(CdbKind, es))
      ensures ok <==> ioq.file.errors == old(ioq.file.errors)
    {
      hide Counted, NoWrap, SubTables, PtrBytes, Pointers;
      var t := 0;
      PointersStart(hbase, SubTables(CdbKind, es));
      while t < NTABS
        invariant 0 <= t <= NTABS
        invariant ioq.Valid() && ioq.file.base == old(ioq.file.base) && ioq.file.start == old(ioq.file.start)
        invariant ioq.Stream() == Pointers(hbase, SubTables(CdbKind, es)[..t]) && ioq.file.errors == old(ioq.file.errors)
      {
        ok := ioq.Put(PtrBytes(hbase + offset[t], slots[t]));
        if !ok {
          return false;
        }
        PointersStep(counts, es, hbase, slots, offset, t);
        t := t + 1;
      }
      assert SubTables(CdbKind, es)[..t] == SubTables(CdbKind, es);
      return true;
    }

    /** cdbmk_finish: on success the file is the database of the records added. It is refused exactly
        when that file would not stay below 2^32 bytes. */
    method Finish() returns (res: Finished)
      requires Valid() && (NoWrap(index.count[..]) || fp + CodeBytes(index.count[..]) >= U32_LIMIT)
      modifies index.repr, ioq, ioq.buf, ioq.file
      ensures res.TooBig? <==> !Fits(records)
      ensures res.Done? ==> ioq.file.content == Image(records)
      ensures res.Broken? <==> ioq.file.errors != old(ioq.file.errors)
    {
      hide Body, Entries, HBase, Image, InTab, InList, SubTables, Flat, EncSlots, Pointers, Overlay, NoWrap, CodeBytes, Twice, AllUsed, Counted, Planned, ListsPlanned;
      ghost var es, counts := index.entries, index.count[..];
      CountedHere(index);
      CheckRightIff(counts, records);
      CountedSlots(CdbKind, counts, es);
      EntriesUsed(records);
      var ok, slots, offset, lists := Plan(index.count, fp);
      if !ok {
        return TooBig;
      }
      ok := WriteTables(slots[..], offset[..], lists[..], counts, Body(records));
      if !ok {
        return Broken;
      }
      ok := ioq.Flush();
      if !ok {
        return Broken;
      }
      ioq.file.Seek(0);
      assert ioq.Stream() == [];
      ok := WritePointers(fp, slots[..], offset[..], counts, es);
      if !ok {
        return Broken;
      }
      ok := ioq.Flush();
      if !ok {
        return Broken;
      }
      AssembledImage(records);
      return Done;
    }
  }

  lemma CountedHere(index: Index)
    requires index.Valid()
    ensures Counted(index.kind, index.count[..], index.entries)
    ensures index.Shape() && index.Unread(0)
  {
  }

  lemma PointersStart(hbase: nat, parts: seq<seq<Slot>>)
    ensures Pointers(hbase, parts[..0]) == []
  {
  }

  lemma AssembledImage(rs: seq<Record>)
    ensures var parts := SubTables(CdbKind, Entries(rs));
            Overlay(Overlay([], RBASE, Body(rs) + EncSlots(Flat(parts))), 0, Pointers(HBase(rs), parts)) == Image(rs)
  {
    hide Body, Entries, HBase, SubTables, Flat, EncSlots, Pointers, Overlay;
    var parts := SubTables(CdbKind, Entries(rs));
    BodySize(rs);
    var head, rest := Pointers(HBase(rs), parts), Body(rs) + EncSlots(Flat(parts));
    Assembled(head, rest);
    assert head + rest == head + Body(rs) + EncSlots(Flat(parts));
  }

  /** Size of the largest input list. */
  method Largest(lists: seq<u32>) returns (max: nat)
    ensures forall l :: 0 <= l < |lists| ==> lists[l] <= max
    ensures max == 0 || exists l :: 0 <= l < |lists| && lists[l] == max
  {
    max := 0;
    for l := 0 to |lists|
      invariant forall m :: 0 <= m < l ==> lists[m] <= max
      invariant max == 0 || exists m :: 0 <= m < l && lists[m] == max
    {
      if max < lists[l] {
        max := lists[l];
      }
    }
  }

  method Zero(a: array<byte>, n: nat)
    requires n <= a.Length
    modifies a
    ensures a[..n] == Zeros(n)
  {
    forall i | 0 <= i < n {
      a[i] := 0;
    }
  }

  lemma Concat4<T>(a: seq<T>, b: seq<T>, c: seq<T>, d: seq<T>)
    ensures a + (b + (c + d)) == a + b + c + d
  {
  }

  /** ioq_feed, ioq_peek and ioq_seek together: the next bytes, at most max of them. */
  method Peek(inq: InQueue, max: nat) returns (ok: bool, chunk: seq<byte>)
    requires inq.Valid() && 0 < max
    modifies inq, inq.buf, inq.src
    ensures inq.Valid()
    ensures ok ==> 0 < |chunk| <= max && old(inq.Upcoming()) == chunk + inq.Upcoming()
    ensures ok <==> inq.src.errors == old(inq.src.errors) && old(inq.Upcoming()) != []
  {
    var r := inq.Feed();
    if r <= 0 {
      return false, [];
    }
    var take := if r > max then max else r;
    chunk := inq.buf[inq.n..inq.n + take];
    assert chunk == inq.Buffered()[..take];
    inq.Seek(take);
    return true, chunk;
  }

  /** The input has a key, the separator and data of these lengths. */
  predicate Delivers(input: seq<byte>, klen: nat, sep: seq<byte>, dlen: nat) {
    klen + |sep| + dlen <= |input| && input[klen..klen + |sep|] == sep
  }

  /** What is left to deliver after the key. */
  lemma Delivered(rest: seq<byte>, key: seq<byte>, sep: seq<byte>, dlen: nat)
    ensures Delivers(key + rest, |key|, sep, dlen) <==> sep <= rest && |rest[|sep|..]| >= dlen
  {
  }

  /** Take the separator from the reader; anything else is a failure. */
  method Drain(inq: InQueue, sep: seq<byte>) returns (ok: bool)
    requires inq.Valid()
    modifies inq, inq.buf, inq.src
    ensures inq.Valid()
    ensures ok ==> old(inq.Upcoming()) == sep + inq.Upcoming()
    ensures ok <==> inq.src.errors == old(inq.src.errors) && sep <= old(inq.Upcoming())
  {
    var i := 0;
    assert sep[..0] + inq.Upcoming() == inq.Upcoming();
    while i < |sep|
      invariant 0 <= i <= |sep| && inq.Valid()
      invariant old(inq.Upcoming()) == sep[..i] + inq.Upcoming() && inq.src.errors == old(inq.src.errors)
    {
      var r, ch := inq.Get(1);
      if r <= 0 || ch[0] != sep[i] {
        return false;
      }
      Concat3(sep[..i], ch, inq.Upcoming());
      assert sep[..i + 1] == sep[..i] + ch;
      i := i + 1;
    }
    assert sep[..i] == sep;
    return true;
  }

  lemma Concat3<T>(a: seq<T>, b: seq<T>, c: seq<T>)
    ensures a + (b + c) == a + b + c
  {
  }

  lemma HashNothing()
    ensures HashFold(CdbKind, HASH_INIT, []) == HASH_INIT
  {
  }

  lemma RecordPieces(before: seq<byte>, r: Record)
    requires |r.key| < U32_LIMIT && |r.data| < U32_LIMIT
    ensures before + (Pack32(|r.key|) + Pack32(|r.data|)) + r.key + r.data == before + RecBytes(r)
  {
    hide Pack32;
    var a, b := Pack32(|r.key|), Pack32(|r.data|);
    assert before + (a + b) + r.key + r.data == before + (a + b + r.key + r.data);
  }
}
