/** The hashes of lasagna/cdb and lasagna/hdb and their incremental form. */
module CdbHash {
  import opened Bytes
  import opened SlotTable

  const HASH_INIT: u32 := 5381

  function HashInit(kind: Kind): u32 {
    match kind
    case CdbKind => HASH_INIT
    case HdbKind => 0
  }

  function XorByte(x: byte, y: byte): byte {
    ((x as bv8) ^ (y as bv8)) as int
  }

  /** Combining a byte (h ^= b) touches the low byte only. */
  function Combine(h: u32, b: byte): u32 {
    WithLowByte(h / 256, XorByte(h % 256, b))
  }

  /** cdb mixes (h += h << 5), then combines; hdb combines, then mixes (h += (h << 2) + (h << 5)). */
  function HashNext(kind: Kind, h: u32, b: byte): u32 {
    match kind
    case CdbKind => Combine(Times32(h, 33), b)
    case HdbKind => Times32(Combine(h, b), 37)
  }

  function WithLowByte(high: nat, low: byte): u32
    requires high < 0x100_0000
  {
    high * 256 + low
  }

  function HashFold(kind: Kind, h: u32, key: seq<byte>): u32 {
    if key == [] then h else
      HashNext(kind, HashFold(kind, h, key[..|key| - 1]), key[|key| - 1])
  }

  function Hash(kind: Kind, key: seq<byte>): u32 {
    HashFold(kind, HashInit(kind), key)
  }

  lemma HashOf(kind: Kind, k: seq<byte>)
    ensures Hash(kind, k) == HashFold(kind, HashInit(kind), k)
  {
  }

  /** Hashing a key in parts is hashing the whole key. */
  lemma {:induction false} HashAppend(kind: Kind, h: u32, a: seq<byte>, b: seq<byte>)
    ensures HashFold(kind, h, a + b) == HashFold(kind, HashFold(kind, h, a), b)
  {
    if b == [] {
      assert a + b == a;
    } else {
      var last := |b| - 1;
      assert (a + b)[..|a + b| - 1] == a + b[..last];
      HashAppend(kind, h, a, b[..last]);
    }
  }

  /** The loop unrolled by four, with its fall-through tail. */
  method HashPart(kind: Kind, h0: u32, key: seq<byte>) returns (h: u32)
    ensures h == HashFold(kind, h0, key)
  {
    hide HashNext;
    h := h0;
    var k := 0;
    while |key| - k > 3
      invariant 0 <= k <= |key|
      invariant h == HashFold(kind, h0, key[..k])
    {
      FoldStep(kind, h0, key, k);
      h := HashNext(kind, h, key[k]);
      FoldStep(kind, h0, key, k + 1);
      h := HashNext(kind, h, key[k + 1]);
      FoldStep(kind, h0, key, k + 2);
      h := HashNext(kind, h, key[k + 2]);
      FoldStep(kind, h0, key, k + 3);
      h := HashNext(kind, h, key[k + 3]);
      k := k + 4;
    }
    var left := |key| - k;
    if left >= 3 {
      FoldStep(kind, h0, key, k);
      h := HashNext(kind, h, key[k]);
      k := k + 1;
    }
    if left >= 2 {
      FoldStep(kind, h0, key, k);
      h := HashNext(kind, h, key[k]);
      k := k + 1;
    }
    if left >= 1 {
      FoldStep(kind, h0, key, k);
      h := HashNext(kind, h, key[k]);
      k := k + 1;
    }
    assert key[..k] == key;
  }

  lemma FoldStep(kind: Kind, h: u32, key: seq<byte>, k: nat)
    requires k < |key|
    ensures HashFold(kind, h, key[..k + 1]) == HashNext(kind, HashFold(kind, h, key[..k]), key[k])
  {
    assert key[..k + 1][..k] == key[..k];
  }
}

/** Sequences laid end to end, and the pointer/body/table layout of a database file for any
    sequence of subtables. */
module Layout {
  import opened Bytes
  import opened SlotTable

  function Flat<T>(parts: seq<seq<T>>): (r: seq<T>) {
    if parts == [] then [] else Flat(parts[..|parts| - 1]) + parts[|parts| - 1]
  }

  lemma FlatAppend<T>(parts: seq<seq<T>>, p: seq<T>)
    ensures Flat(parts + [p]) == Flat(parts) + p
  {
    assert (parts + [p])[..|parts|] == parts;
  }

  /** Part k starts where the parts before it end. */
  lemma {:induction false} FlatAt<T>(parts: seq<seq<T>>, k: nat)
    requires k < |parts|
    ensures |Flat(parts[..k])| + |parts[k]| <= |Flat(parts)|
    ensures Flat(parts)[|Flat(parts[..k])|..|Flat(parts[..k])| + |parts[k]|] == parts[k]
  {
    var last := |parts| - 1;
    var o, n := |Flat(parts[..k])|, |parts[k]|;
    if k < last {
      assert parts[..last][..k] == parts[..k];
      FlatAt(parts[..last], k);
      SliceLeft(Flat(parts[..last]), parts[last], o, o + n);
    } else {
      SliceRight(Flat(parts[..last]), parts[last], 0, n);
    }
  }

  function Sum(ns: seq<nat>): nat {
    if ns == [] then 0 else Sum(ns[..|ns| - 1]) + ns[|ns| - 1]
  }

  lemma {:induction false} FlatLength<T>(parts: seq<seq<T>>, ns: seq<nat>)
    requires |parts| == |ns|
    requires forall i :: 0 <= i < |ns| ==> |parts[i]| == ns[i]
    ensures |Flat(parts)| == Sum(ns)
  {
    if ns != [] {
      var last := |ns| - 1;
      FlatLength(parts[..last], ns[..last]);
    }
  }

  function SlotBytes(s: Slot): (b: seq<byte>)
    ensures |b| == 8
  {
    Pack32(s.hash) + Pack32(s.rpos)
  }

  function EncSlots(ss: seq<Slot>): (b: seq<byte>)
    ensures |b| == 8 * |ss|
  {
    if ss == [] then [] else EncSlots(ss[..|ss| - 1]) + SlotBytes(ss[|ss| - 1])
  }

  lemma {:induction false} EncSlotsAt(ss: seq<Slot>, i: nat)
    requires i < |ss|
    ensures EncSlots(ss)[8 * i..8 * i + 8] == SlotBytes(ss[i])
  {
    var last := |ss| - 1;
    if i < last {
      EncSlotsAt(ss[..last], i);
      SliceLeft(EncSlots(ss[..last]), SlotBytes(ss[last]), 8 * i, 8 * i + 8);
    } else {
      SliceRight(EncSlots(ss[..last]), SlotBytes(ss[last]), 0, 8);
    }
  }

  /** C's arithmetic is 32 bits wide; nothing wraps in a file below 2^32 bytes. */
  function PtrBytes(offset: nat, slots: nat): (b: seq<byte>)
    ensures |b| == 8
  {
    Pack32(Wrap32(offset)) + Pack32(Wrap32(slots))
  }

  /** For each subtable its offset in the file and its number of slots. */
  function Pointers(hbase: nat, parts: seq<seq<Slot>>): (b: seq<byte>)
    ensures |b| == 8 * |parts|
  {
    if parts == [] then [] else
      var last := |parts| - 1;
      Pointers(hbase, parts[..last]) + PtrBytes(hbase + 8 * |Flat(parts[..last])|, |parts[last]|)
  }

  lemma {:induction false} PointersAt(hbase: nat, parts: seq<seq<Slot>>, k: nat)
    requires k < |parts|
    ensures Pointers(hbase, parts)[8 * k..8 * k + 8] == PtrBytes(hbase + 8 * |Flat(parts[..k])|, |parts[k]|)
  {
    hide PtrBytes, Flat;
    var last := |parts| - 1;
    var front := parts[..last];
    var ptr := PtrBytes(hbase + 8 * |Flat(front)|, |parts[last]|);
    if k < last {
      assert front[..k] == parts[..k];
      PointersAt(hbase, front, k);
      SliceLeft(Pointers(hbase, front), ptr, 8 * k, 8 * k + 8);
    } else {
      SliceRight(Pointers(hbase, front), ptr, 0, 8);
    }
  }

  /** Pointers, then the body, then the tables. */
  function File(body: seq<byte>, parts: seq<seq<Slot>>): (b: seq<byte>)
    ensures |b| == 8 * |parts| + |body| + 8 * |Flat(parts)|
  {
    Pointers(8 * |parts| + |body|, parts) + body + EncSlots(Flat(parts))
  }

  lemma FilePointer(body: seq<byte>, parts: seq<seq<Slot>>, k: nat)
    requires k < |parts|
    ensures File(body, parts)[8 * k..8 * k + 8]
         == PtrBytes(8 * |parts| + |body| + 8 * |Flat(parts[..k])|, |parts[k]|)
  {
    hide Pointers, EncSlots, Flat, PtrBytes;
    var hbase := 8 * |parts| + |body|;
    PointersAt(hbase, parts, k);
    SliceLeft(Pointers(hbase, parts), body, 8 * k, 8 * k + 8);
    SliceLeft(Pointers(hbase, parts) + body, EncSlots(Flat(parts)), 8 * k, 8 * k + 8);
  }

  lemma FileBody(body: seq<byte>, parts: seq<seq<Slot>>, lo: nat, hi: nat)
    requires lo <= hi <= |body|
    ensures File(body, parts)[8 * |parts| + lo..8 * |parts| + hi] == body[lo..hi]
  {
    hide Pointers, EncSlots, Flat, PtrBytes;
    var ps := Pointers(8 * |parts| + |body|, parts);
    SliceRight(ps, body, lo, hi);
    SliceLeft(ps + body, EncSlots(Flat(parts)), 8 * |parts| + lo, 8 * |parts| + hi);
  }

  lemma FileSlot(body: seq<byte>, parts: seq<seq<Slot>>, k: nat, i: nat)
    requires k < |parts| && i < |parts[k]|
    ensures |Flat(parts[..k])| + |parts[k]| <= |Flat(parts)|
    ensures var o := 8 * |parts| + |body| + 8 * (|Flat(parts[..k])| + i);
            File(body, parts)[o..o + 8] == SlotBytes(parts[k][i])
  {
    hide Pointers, EncSlots, Flat, SlotBytes;
    FlatAt(parts, k);
    var j, all := |Flat(parts[..k])| + i, Flat(parts);
    assert all[j] == parts[k][i] by {
      assert all[|Flat(parts[..k])|..|Flat(parts[..k])| + |parts[k]|][i] == all[j];
    }
    EncSlotsAt(all, j);
    SliceRight(Pointers(8 * |parts| + |body|, parts) + body, EncSlots(all), 8 * j, 8 * j + 8);
  }
}

/** What a finished constant database file is, as a function of the records added:
    256 pointers, the records in order, then 256 subtables laid end to end. */
module CdbImage {
  import opened Bytes
  import opened SlotTable
  import opened CdbHash
  import opened Layout

  const NTABS: nat := 256
  const RBASE: nat := 2048

  datatype Record = Record(key: seq<byte>, data: seq<byte>)

  function RecSize(r: Record): nat {
    8 + |r.key| + |r.data|
  }

  /** File offset just past the records: where the tables start. */
  function HBase(rs: seq<Record>): (o: nat)
    ensures o >= RBASE + 8 * |rs|
  {
    if rs == [] then RBASE else HBase(rs[..|rs| - 1]) + RecSize(rs[|rs| - 1])
  }

  /** The whole file, tables included, is below 2^32 bytes. */
  predicate Fits(rs: seq<Record>) {
    HBase(rs) + 16 * |rs| < U32_LIMIT
  }

  function RecBytes(r: Record): (b: seq<byte>)
    ensures |b| == RecSize(r)
  {
    Pack32(Wrap32(|r.key|)) + Pack32(Wrap32(|r.data|)) + r.key + r.data
  }

  /** The records as they lie in the file. */
  function Chunks(rs: seq<Record>): (cs: seq<seq<byte>>)
    ensures |cs| == |rs|
  {
    if rs == [] then [] else
      Chunks(rs[..|rs| - 1]) + [RecBytes(rs[|rs| - 1])]
  }

  function Body(rs: seq<Record>): (b: seq<byte>) {
    Flat(Chunks(rs))
  }

  /** One (hash, offset) pair per record, in order. */
  function Entries(rs: seq<Record>): (es: seq<Slot>)
    ensures |es| == |rs|
  {
    if rs == [] then [] else
      var last := |rs| - 1;
      Entries(rs[..last]) + [Slot(Hash(CdbKind, rs[last].key), Wrap32(HBase(rs[..last])))]
  }

  /** Subtables of a file. */
  function Tabs(kind: Kind): nat {
    match kind
    case CdbKind => NTABS
    case HdbKind => 8
  }

  function Ntab(kind: Kind, h: u32): (t: nat)
    ensures t < Tabs(kind)
  {
    match kind
    case CdbKind => h % 256
    case HdbKind => h % 8
  }

  /** The entries of subtable t, in order. */
  function InTab(kind: Kind, es: seq<Slot>, t: nat): (r: seq<Slot>) {
    if es == [] then [] else
      var last := |es| - 1;
      if Ntab(kind, es[last].hash) == t then InTab(kind, es[..last], t) + [es[last]] else InTab(kind, es[..last], t)
  }

  /** Twice as many slots as entries. */
  function SubTable(kind: Kind, es: seq<Slot>, t: nat): (r: seq<Slot>)
    ensures |r| == 2 * |InTab(kind, es, t)|
  {
    Table(kind, InTab(kind, es, t), 2 * |InTab(kind, es, t)|)
  }

  /** The 256 subtables, each built on its own from its entries in order. */
  function SubTables(kind: Kind, es: seq<Slot>): (parts: seq<seq<Slot>>)
    ensures |parts| == Tabs(kind)
    ensures forall t :: 0 <= t < Tabs(kind) ==> parts[t] == SubTable(kind, es, t)
  {
    seq(Tabs(kind), t requires t >= 0 => SubTable(kind, es, t))
  }

  /** The finished file. */
  function Image(rs: seq<Record>): (b: seq<byte>) {
    File(Body(rs), SubTables(CdbKind, Entries(rs)))
  }

  // ---- sizes ----

  lemma {:induction false} BodySize(rs: seq<Record>)
    ensures |Body(rs)| == HBase(rs) - RBASE
  {
    if rs != [] {
      var last := |rs| - 1;
      BodySize(rs[..last]);
      FlatAppend(Chunks(rs[..last]), RecBytes(rs[last]));
    }
  }

  function TabSlots(kind: Kind, es: seq<Slot>): (ns: seq<nat>)
    ensures |ns| == Tabs(kind)
    ensures forall t :: 0 <= t < Tabs(kind) ==> ns[t] == 2 * |InTab(kind, es, t)|
  {
    seq(Tabs(kind), t requires t >= 0 => 2 * |InTab(kind, es, t)|)
  }

  lemma {:induction false} SlotsAppend(kind: Kind, es: seq<Slot>, e: Slot, t: nat)
    requires t <= Tabs(kind)
    ensures Sum(TabSlots(kind, es + [e])[..t]) == Sum(TabSlots(kind, es)[..t]) + (if Ntab(kind, e.hash) < t then 2 else 0)
  {
    if t > 0 {
      SlotsAppend(kind, es, e, t - 1);
      assert TabSlots(kind, es)[..t][..t - 1] == TabSlots(kind, es)[..t - 1];
      assert TabSlots(kind, es + [e])[..t][..t - 1] == TabSlots(kind, es + [e])[..t - 1];
      assert (es + [e])[..|es|] == es;
    }
  }

  lemma {:induction false} SumZero(ns: seq<nat>)
    requires forall i :: 0 <= i < |ns| ==> ns[i] == 0
    ensures Sum(ns) == 0
  {
    if ns != [] {
      SumZero(ns[..|ns| - 1]);
    }
  }

  lemma {:induction false} SlotsSum(kind: Kind, es: seq<Slot>)
    ensures Sum(TabSlots(kind, es)) == 2 * |es|
  {
    assert TabSlots(kind, es)[..Tabs(kind)] == TabSlots(kind, es);
    if es == [] {
      SumZero(TabSlots(kind, es));
    } else {
      var last := |es| - 1;
      SlotsSum(kind, es[..last]);
      SlotsAppend(kind, es[..last], es[last], Tabs(kind));
      assert es[..last] + [es[last]] == es;
      assert TabSlots(kind, es[..last])[..Tabs(kind)] == TabSlots(kind, es[..last]);
    }
  }

  /** The subtables together have two slots for each entry. */
  lemma SlotsTotal(kind: Kind, es: seq<Slot>)
    ensures |Flat(SubTables(kind, es))| == 2 * |es|
  {
    FlatLength(SubTables(kind, es), TabSlots(kind, es));
    SlotsSum(kind, es);
  }

  lemma ImageSize(rs: seq<Record>)
    ensures |Image(rs)| == HBase(rs) + 16 * |rs|
  {
    hide Body, Flat, HBase;
    BodySize(rs);
    SlotsTotal(CdbKind, Entries(rs));
  }

  // ---- no offset is zero ----

  lemma {:induction false} InTabUsed(kind: Kind, es: seq<Slot>, t: nat)
    requires AllUsed(es)
    ensures AllUsed(InTab(kind, es, t))
  {
    if es != [] {
      InTabUsed(kind, es[..|es| - 1], t);
    }
  }

  lemma {:induction false} EntriesUsed(rs: seq<Record>)
    requires HBase(rs) < U32_LIMIT
    ensures AllUsed(Entries(rs))
  {
    if rs != [] {
      EntriesUsed(rs[..|rs| - 1]);
    }
  }

  // ---- where things are in the image ----

  /** Slots before subtable t. */
  ghost function TabBase(es: seq<Slot>, t: nat): nat
    requires t <= NTABS
  {
    |Flat(SubTables(CdbKind, es)[..t])|
  }

  lemma TabBaseBound(es: seq<Slot>, t: nat)
    requires t < NTABS
    ensures TabBase(es, t) + |SubTable(CdbKind, es, t)| <= 2 * |es|
  {
    FlatAt(SubTables(CdbKind, es), t);
    SlotsTotal(CdbKind, es);
  }

  /** The pointer of subtable t, as a reader finds it. */
  lemma ImagePointer(rs: seq<Record>, t: nat)
    requires t < NTABS
    ensures |Image(rs)| >= RBASE
    ensures Image(rs)[8 * t..8 * t + 8]
         == PtrBytes(HBase(rs) + 8 * TabBase(Entries(rs), t), |SubTable(CdbKind, Entries(rs), t)|)
  {
    hide File, Body, Flat, HBase, Entries, SubTable, PtrBytes;
    BodySize(rs);
    FilePointer(Body(rs), SubTables(CdbKind, Entries(rs)), t);
  }

  /** Slot i of subtable t, as a reader finds it. */
  lemma ImageSlot(rs: seq<Record>, t: nat, i: nat)
    requires t < NTABS && i < |SubTable(CdbKind, Entries(rs), t)|
    ensures var o := HBase(rs) + 8 * (TabBase(Entries(rs), t) + i);
            && o + 8 <= |Image(rs)|
            && Image(rs)[o..o + 8] == SlotBytes(SubTable(CdbKind, Entries(rs), t)[i])
  {
    hide File, Body, Flat, HBase, Entries, SubTable, SlotBytes;
    BodySize(rs);
    FileSlot(Body(rs), SubTables(CdbKind, Entries(rs)), t, i);
  }

  lemma {:induction false} ChunksAt(rs: seq<Record>, i: nat)
    requires i < |rs|
    ensures HBase(rs[..i]) + RecSize(rs[i]) <= HBase(rs)
    ensures Chunks(rs)[..i] == Chunks(rs[..i])
    ensures Chunks(rs)[i] == RecBytes(rs[i])
  {
    hide RecBytes;
    var last := |rs| - 1;
    if i < last {
      assert rs[..last][..i] == rs[..i];
      ChunksAt(rs[..last], i);
    }
  }

  /** Record i, as a reader finds it. */
  lemma ImageRecord(rs: seq<Record>, i: nat)
    requires i < |rs|
    ensures var o := HBase(rs[..i]);
            && o + RecSize(rs[i]) <= HBase(rs) < |Image(rs)|
            && Image(rs)[o..o + RecSize(rs[i])] == RecBytes(rs[i])
  {
    hide File, Flat, HBase, RecBytes, Chunks, SubTables, Entries;
    ImageSize(rs);
    BodySize(rs);
    BodySize(rs[..i]);
    ChunksAt(rs, i);
    FlatAt(Chunks(rs), i);
    var o := HBase(rs[..i]) - RBASE;
    FileBody(Body(rs), SubTables(CdbKind, Entries(rs)), o, o + RecSize(rs[i]));
  }
}
