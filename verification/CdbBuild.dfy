/** Building the hash tables of a database: their sizes and offsets in 32-bit arithmetic, and the
    probing load of entries into a byte buffer shared by many subtables. */
module CdbBuild {
  import opened Bytes
  import opened SlotTable
  import opened Layout
  import opened CdbImage

  // ---- slots in a byte buffer ----

  lemma {:induction false} EncSlotsConcat(a: seq<Slot>, b: seq<Slot>)
    ensures EncSlots(a + b) == EncSlots(a) + EncSlots(b)
  {
    hide SlotBytes;
    if b == [] {
      assert a + b == a;
    } else {
      var last := |b| - 1;
      assert (a + b)[..|a| + last] == a + b[..last];
      EncSlotsConcat(a, b[..last]);
    }
  }

  lemma EncSlotsUpdate(ss: seq<Slot>, i: nat, e: Slot)
    requires i < |ss|
    ensures EncSlots(ss[i := e]) == EncSlots(ss)[..8 * i] + SlotBytes(e) + EncSlots(ss)[8 * i + 8..]
  {
    hide SlotBytes;
    var a, b := ss[..i], ss[i + 1..];
    assert ss[i := e] == a + [e] + b && ss == a + [ss[i]] + b;
    EncSlotsConcat(a + [e], b);
    EncSlotsConcat(a, [e]);
    EncSlotsConcat(a + [ss[i]], b);
    EncSlotsConcat(a, [ss[i]]);
    EncSlotsOne(e);
    EncSlotsOne(ss[i]);
    var x, y, z := EncSlots(a), SlotBytes(ss[i]), EncSlots(b);
    Cut(x, y, z);
  }

  lemma EncSlotsOne(e: Slot)
    ensures EncSlots([e]) == SlotBytes(e)
  {
    assert [e][..0] == [];
  }

  lemma Cut<T>(x: seq<T>, y: seq<T>, z: seq<T>)
    ensures (x + y + z)[..|x|] == x
    ensures (x + y + z)[|x| + |y|..] == z
  {
  }

  /** Part of a sequence replaced. */
  function Splice<T>(all: seq<T>, b: nat, part: seq<T>): (r: seq<T>)
    requires b + |part| <= |all|
    ensures |r| == |all|
  {
    all[..b] + part + all[b + |part|..]
  }

  lemma SpliceOne<T>(all: seq<T>, b: nat, n: nat, q: nat, e: T)
    requires b + n <= |all| && q < n
    ensures Splice(all, b, all[b..b + n][q := e]) == all[b + q := e]
  {
  }

  /** Is slot i of the buffer free? */
  method SlotIsFree(tbuf: array<byte>, i: nat, ghost all: seq<Slot>) returns (free: bool)
    requires 8 * |all| <= tbuf.Length && tbuf[..8 * |all|] == EncSlots(all) && i < |all|
    ensures free == Free(all[i])
  {
    hide EncSlots, Unpack32;
    var o := 8 * i;
    SlotInBuffer(tbuf[..8 * |all|], all, i);
    assert tbuf[o + 4..o + 8] == tbuf[..8 * |all|][o + 4..o + 8];
    free := Unpack32(tbuf[o + 4..o + 8]) == 0;
  }

  /** Pack an entry into slot i of the buffer. */
  method StoreSlot(tbuf: array<byte>, i: nat, e: Slot, ghost all: seq<Slot>)
    requires 8 * |all| <= tbuf.Length && tbuf[..8 * |all|] == EncSlots(all) && i < |all|
    modifies tbuf
    ensures tbuf[..8 * |all|] == EncSlots(all[i := e])
  {
    hide EncSlots, SlotBytes;
    var o, bytes := 8 * i, SlotBytes(e);
    forall k | 0 <= k < 8 {
      tbuf[o + k] := bytes[k];
    }
    BufferUpdate(EncSlots(all), tbuf[..8 * |all|], all, i, e);
  }

  /** Load one entry into the subtable of n slots that starts at byte `base` of the buffer: the
      buffer then holds the same tables with the entry inserted in that one. */
  method TbufLoad(ghost kind: Kind, tbuf: array<byte>, base: nat, n: nat, target0: nat, e: Slot, ghost all: seq<Slot>)
    returns (rc: int)
    requires 8 * |all| <= tbuf.Length && tbuf[..8 * |all|] == EncSlots(all)
    requires base % 8 == 0 && base / 8 + n <= |all|
    requires 0 < n && target0 == Target(kind, e.hash, n)
    requires HasFree(all[base / 8..base / 8 + n])
    modifies tbuf
    ensures rc == 0
    ensures tbuf[..8 * |all|]
         == EncSlots(Splice(all, base / 8, Insert(kind, all[base / 8..base / 8 + n], e)))
  {
    hide EncSlots, Insert, Target, Splice;
    if !(target0 < n) {
      return -1;
    }
    var b := base / 8;
    ghost var t := all[b..b + n];
    ghost var land := Landing(kind, t, e);
    LandsUnique(kind, t, e.hash, land);
    var target := target0;
    ghost var d := 0;
    while true
      invariant d <= land && target == Cyc(target0, d, n)
      invariant tbuf[..8 * |all|] == EncSlots(all)
      decreases land - d
    {
      assert t[target] == all[b + target];
      var free := SlotIsFree(tbuf, b + target, all);
      if free {
        assert d == land;
        StoreSlot(tbuf, b + target, e, all);
        SpliceOne(all, b, n, target, e);
        return 0;
      }
      target := target + 1;
      if target == n {
        target := 0;
      }
      d := d + 1;
    }
  }

  lemma SlotInBuffer(buf: seq<byte>, all: seq<Slot>, i: nat)
    requires buf == EncSlots(all) && i < |all|
    ensures Unpack32(buf[8 * i + 4..8 * i + 8]) == all[i].rpos
  {
    hide EncSlots, Unpack32, Pack32;
    EncSlotsAt(all, i);
    SliceSlice(buf, 8 * i, 8 * i + 8, 4, 8);
    assert SlotBytes(all[i])[4..8] == Pack32(all[i].rpos);
    PackUnpack32(all[i].rpos);
  }

  lemma BufferUpdate(was: seq<byte>, now: seq<byte>, all: seq<Slot>, i: nat, e: Slot)
    requires i < |all| && was == EncSlots(all) && |now| == |was|
    requires forall k :: 0 <= k < |was| && !(8 * i <= k < 8 * i + 8) ==> now[k] == was[k]
    requires forall k :: 0 <= k < 8 ==> now[8 * i + k] == SlotBytes(e)[k]
    ensures now == EncSlots(all[i := e])
  {
    hide EncSlots, SlotBytes;
    EncSlotsUpdate(all, i, e);
    assert now[..8 * i] == was[..8 * i];
    assert now[8 * i..8 * i + 8] == SlotBytes(e);
    assert now[8 * i + 8..] == was[8 * i + 8..];
    assert now == now[..8 * i] + now[8 * i..8 * i + 8] + now[8 * i + 8..];
  }

  // ---- a batch of subtables in one buffer ----

  lemma {:induction false} FlatConcat<T>(a: seq<seq<T>>, b: seq<seq<T>>)
    ensures Flat(a + b) == Flat(a) + Flat(b)
  {
    if b == [] {
      assert a + b == a;
    } else {
      var last := |b| - 1;
      assert (a + b)[..|a| + last] == a + b[..last];
      FlatConcat(a, b[..last]);
    }
  }

  lemma FlatOne<T>(p: seq<T>)
    ensures Flat([p]) == p
  {
    assert [p][..0] == [];
  }

  /** Changing one part changes just that stretch. */
  lemma FlatUpdate<T>(parts: seq<seq<T>>, j: nat, p: seq<T>)
    requires j < |parts| && |p| == |parts[j]|
    ensures var o := |Flat(parts[..j])|;
            && o + |p| <= |Flat(parts)|
            && Flat(parts)[o..o + |p|] == parts[j]
            && Flat(parts[j := p]) == Splice(Flat(parts), o, p)
  {
    hide Flat;
    var a, b := parts[..j], parts[j + 1..];
    assert parts == a + [parts[j]] + b && parts[j := p] == a + [p] + b;
    FlatConcat(a + [parts[j]], b);
    FlatConcat(a, [parts[j]]);
    FlatConcat(a + [p], b);
    FlatConcat(a, [p]);
    FlatOne(p);
    FlatOne(parts[j]);
    Cut(Flat(a), parts[j], Flat(b));
    SliceRight(Flat(a), parts[j], 0, |p|);
    SliceLeft(Flat(a) + parts[j], Flat(b), |Flat(a)|, |Flat(a)| + |p|);
  }

  /** Subtables lo, lo + 1, ... of the given sizes, holding the entries of es. */
  function Batch(es: seq<Slot>, lo: nat, ns: seq<nat>): (parts: seq<seq<Slot>>)
    ensures |parts| == |ns|
    ensures forall j :: 0 <= j < |ns| ==> parts[j] == Table(CdbKind, InTab(CdbKind, es, lo + j), ns[j])
  {
    seq(|ns|, j requires 0 <= j < |ns| => Table(CdbKind, InTab(CdbKind, es, lo + j), ns[j]))
  }

  lemma InTabAppend(kind: Kind, es: seq<Slot>, e: Slot, t: nat)
    ensures InTab(kind, es + [e], t) == if Ntab(kind, e.hash) == t then InTab(kind, es, t) + [e] else InTab(kind, es, t)
  {
    assert (es + [e])[..|es|] == es;
  }

  lemma TableAppend(kind: Kind, es: seq<Slot>, e: Slot, n: nat)
    ensures Table(kind, es + [e], n) == Insert(kind, Table(kind, es, n), e)
  {
    assert (es + [e])[..|es|] == es;
  }

  /** One more entry changes its own subtable and no other. */
  lemma BatchAppend(es: seq<Slot>, e: Slot, lo: nat, ns: seq<nat>, j: nat)
    requires j < |ns| && Ntab(CdbKind, e.hash) == lo + j
    ensures Batch(es + [e], lo, ns) == Batch(es, lo, ns)[j := Insert(CdbKind, Batch(es, lo, ns)[j], e)]
  {
    hide Batch, InTab, Table, Insert, Ntab;
    var was, now := Batch(es, lo, ns), Batch(es + [e], lo, ns);
    forall i | 0 <= i < |ns|
      ensures now[i] == if i == j then Insert(CdbKind, was[j], e) else was[i]
    {
      InTabAppend(CdbKind, es, e, lo + i);
      TableAppend(CdbKind, InTab(CdbKind, es, lo + j), e, ns[j]);
    }
  }

  lemma BatchLength(es: seq<Slot>, lo: nat, ns: seq<nat>)
    ensures |Flat(Batch(es, lo, ns))| == Sum(ns)
    ensures forall j :: 0 <= j < |ns| ==> |Flat(Batch(es, lo, ns)[..j])| == Sum(ns[..j])
  {
    hide Batch, Table, InTab;
    FlatLength(Batch(es, lo, ns), ns);
    forall j | 0 <= j < |ns|
      ensures |Flat(Batch(es, lo, ns)[..j])| == Sum(ns[..j])
    {
      FlatLength(Batch(es, lo, ns)[..j], ns[..j]);
    }
  }

  lemma {:induction false} FlatFree(parts: seq<seq<Slot>>)
    requires forall j, i :: 0 <= j < |parts| && 0 <= i < |parts[j]| ==> parts[j][i] == FREE
    ensures forall i :: 0 <= i < |Flat(parts)| ==> Flat(parts)[i] == FREE
  {
    if parts != [] {
      FlatFree(parts[..|parts| - 1]);
    }
  }

  lemma {:induction false} EncFree(ss: seq<Slot>)
    requires forall i :: 0 <= i < |ss| ==> ss[i] == FREE
    ensures EncSlots(ss) == Zeros(8 * |ss|)
  {
    if ss != [] {
      EncFree(ss[..|ss| - 1]);
      assert SlotBytes(FREE) == Zeros(8);
      assert Zeros(8 * |ss|) == Zeros(8 * (|ss| - 1)) + Zeros(8);
    }
  }

  /** A zeroed buffer is a batch with no entries. */
  lemma BatchEmpty(lo: nat, ns: seq<nat>)
    ensures EncSlots(Flat(Batch([], lo, ns))) == Zeros(8 * Sum(ns))
  {
    hide EncSlots, Flat;
    var parts := Batch([], lo, ns);
    FlatFree(parts);
    EncFree(Flat(parts));
    BatchLength([], lo, ns);
  }

  lemma {:induction false} InTabPrefix(kind: Kind, es: seq<Slot>, k: nat, t: nat)
    requires k <= |es|
    ensures |InTab(kind, es[..k], t)| <= |InTab(kind, es, t)|
  {
    if k == |es| {
      assert es[..k] == es;
    } else {
      var last := |es| - 1;
      assert es[..last][..k] == es[..k];
      InTabPrefix(kind, es[..last], k, t);
    }
  }

  /** A subtable twice the size of what will go into it has a free slot for the next entry. */
  lemma RoomForNext(kind: Kind, es: seq<Slot>, k: nat, n: nat)
    requires k < |es| && AllUsed(es)
    requires n == 2 * |InTab(kind, es, Ntab(kind, es[k].hash))|
    ensures 0 < n && HasFree(Table(kind, InTab(kind, es[..k], Ntab(kind, es[k].hash)), n))
  {
    hide Ntab, Table, HasFree;
    var t := Ntab(kind, es[k].hash);
    assert es[..k + 1] == es[..k] + [es[k]];
    InTabAppend(kind, es[..k], es[k], t);
    InTabPrefix(kind, es, k + 1, t);
    InTabUsed(kind, es[..k], t);
    TableUsed(kind, InTab(kind, es[..k], t), n);
    FreeExists(Table(kind, InTab(kind, es[..k], t), n));
  }

  // ---- the four input lists ----

  const NLISTS: nat := 4

  /** The input list a subtable belongs to. */
  function Nlist(t: nat): (l: nat)
    requires t < NTABS
    ensures l < NLISTS && 64 * l <= t < 64 * l + 64
  {
    if t < 128 then (if t < 64 then 0 else 1) else (if t < 192 then 2 else 3)
  }

  /** Input lists of a generator. */
  function Lists(kind: Kind): nat {
    match kind
    case CdbKind => NLISTS
    case HdbKind => Tabs(HdbKind)
  }

  /** The input list of a hash: cdb has one for 64 subtables, hdb one for each. */
  function ListOf(kind: Kind, h: u32): (l: nat)
    ensures l < Lists(kind)
  {
    match kind
    case CdbKind => Nlist(Ntab(CdbKind, h))
    case HdbKind => Ntab(HdbKind, h)
  }

  /** The entries that go to input list l, in order. */
  function InList(kind: Kind, es: seq<Slot>, l: nat): (r: seq<Slot>) {
    if es == [] then [] else
      var last := |es| - 1;
      if ListOf(kind, es[last].hash) == l then InList(kind, es[..last], l) + [es[last]] else InList(kind, es[..last], l)
  }

  lemma InListAppend(kind: Kind, es: seq<Slot>, e: Slot, l: nat)
    ensures InList(kind, es + [e], l) == if ListOf(kind, e.hash) == l then InList(kind, es, l) + [e] else InList(kind, es, l)
  {
    assert (es + [e])[..|es|] == es;
  }

  /** No entry of a subtable is lost to another list. */
  lemma {:induction false} InTabInList(es: seq<Slot>, l: nat, t: nat)
    requires t < NTABS && Nlist(t) == l
    ensures InTab(CdbKind, InList(CdbKind, es, l), t) == InTab(CdbKind, es, t)
  {
    hide Ntab, Nlist;
    if es != [] {
      var last := |es| - 1;
      InTabInList(es[..last], l, t);
      if Nlist(Ntab(CdbKind, es[last].hash)) == l {
        InTabAppend(CdbKind, InList(CdbKind, es[..last], l), es[last], t);
      }
    }
  }

  lemma {:induction false} InListFacts(es: seq<Slot>, l: nat)
    requires AllUsed(es)
    ensures AllUsed(InList(CdbKind, es, l))
    ensures forall i :: 0 <= i < |InList(CdbKind, es, l)| ==> Nlist(Ntab(CdbKind, InList(CdbKind, es, l)[i].hash)) == l
  {
    hide Ntab, Nlist;
    if es != [] {
      InListFacts(es[..|es| - 1], l);
    }
  }

  /** A list's batch, loaded from the list's entries in order, is 64 of the separately built
      subtables. */
  lemma BatchIsSubTables(es: seq<Slot>, l: nat, ns: seq<nat>)
    requires l < NLISTS && |ns| == 64
    requires forall j :: 0 <= j < 64 ==> ns[j] == 2 * |InTab(CdbKind, es, 64 * l + j)|
    ensures Batch(InList(CdbKind, es, l), 64 * l, ns) == SubTables(CdbKind, es)[64 * l..64 * l + 64]
  {
    hide Batch, SubTables, InTab, InList, Table;
    var got, want := Batch(InList(CdbKind, es, l), 64 * l, ns), SubTables(CdbKind, es)[64 * l..64 * l + 64];
    forall j | 0 <= j < 64
      ensures got[j] == want[j]
    {
      InTabInList(es, l, 64 * l + j);
    }
  }

  // ---- sizes and offsets in 32-bit arithmetic ----

  const WRAP_COUNT: nat := 0x1000_0000

  /** Slots for these subtable counts. */
  function Twice(counts: seq<u32>): nat {
    if counts == [] then 0 else
      var c: nat := counts[|counts| - 1];
      Twice(counts[..|counts| - 1]) + 2 * c
  }

  /** Bytes for them as the code computes it: 16 bytes a record, each product cut to 32 bits. */
  function CodeBytes(counts: seq<u32>): nat {
    if counts == [] then 0 else
      CodeBytes(counts[..|counts| - 1]) + 16 * (counts[|counts| - 1] % WRAP_COUNT)
  }

  /** The overflow check of the code. */
  predicate Accepted(hbase: nat, counts: seq<u32>) {
    hbase + CodeBytes(counts) < U32_LIMIT
  }

  predicate NoWrap(counts: seq<u32>) {
    forall i :: 0 <= i < |counts| ==> counts[i] < WRAP_COUNT
  }

  /** The wrapped size is right, or it misses at least 2^32 bytes. */
  lemma {:induction false} CodeBytesExact(counts: seq<u32>)
    ensures CodeBytes(counts) <= 8 * Twice(counts)
    ensures CodeBytes(counts) == 8 * Twice(counts) <==> NoWrap(counts)
    ensures !NoWrap(counts) ==> CodeBytes(counts) + U32_LIMIT <= 8 * Twice(counts)
  {
    if counts != [] {
      var last := |counts| - 1;
      CodeBytesExact(counts[..last]);
      var c: nat := counts[last];
      WrapGap(c);
      assert NoWrap(counts) <==> NoWrap(counts[..last]) && c < WRAP_COUNT;
    }
  }

  lemma WrapGap(c: nat)
    ensures c < WRAP_COUNT ==> c % WRAP_COUNT == c
    ensures c >= WRAP_COUNT ==> 16 * (c % WRAP_COUNT) + U32_LIMIT <= 16 * c
  {
  }

  /** Counters that are multiples of 2^28 disappear. */
  lemma {:induction false} CodeBytesGone(cs: seq<u32>)
    requires forall i :: 0 <= i < |cs| ==> cs[i] == 0 || cs[i] == WRAP_COUNT
    ensures CodeBytes(cs) == 0
  {
    if cs != [] {
      CodeBytesGone(cs[..|cs| - 1]);
    }
  }

  lemma {:induction false} CodeBytesZero(cs: seq<u32>)
    requires forall i :: 0 <= i < |cs| ==> cs[i] == 0
    ensures CodeBytes(cs) == 0 && Twice(cs) == 0
  {
    if cs != [] {
      CodeBytesZero(cs[..|cs| - 1]);
    }
  }

  lemma SlotArithmetic(count: u32)
    ensures Times32(Times32(count, 2), 8) == 16 * (count % WRAP_COUNT)
  {
    var q, r := count / WRAP_COUNT, count % WRAP_COUNT;
    assert count == q * WRAP_COUNT + r;
    assert count * 2 * 8 == q * U32_LIMIT + 16 * r;
    var t := count * 2 / U32_LIMIT;
    assert count * 2 == t * U32_LIMIT + Wrap32(count * 2);
    assert Wrap32(count * 2) * 8 == (q - 8 * t) * U32_LIMIT + 16 * r;
  }

  lemma SumArithmetic(sum: u32, toff: u32, tslots: u32)
    requires Times32(sum, 8) == toff && toff + Times32(tslots, 8) < U32_LIMIT
    ensures Times32(Wrap32(sum + tslots), 8) == toff + Times32(tslots, 8)
  {
    var a, b := sum * 8 / U32_LIMIT, tslots * 8 / U32_LIMIT;
    assert sum * 8 == a * U32_LIMIT + toff;
    assert tslots * 8 == b * U32_LIMIT + Wrap32(tslots * 8);
    var q := (sum + tslots) / U32_LIMIT;
    assert sum + tslots == q * U32_LIMIT + Wrap32(sum + tslots);
    assert Wrap32(sum + tslots) * 8 == (a + b - 8 * q) * U32_LIMIT + (toff + Wrap32(tslots * 8));
  }

  function Clamp(i: nat, lo: nat, hi: nat): nat
    requires lo <= hi
  {
    if i < lo then lo else if hi < i then hi else i
  }

  lemma {:induction false} TwiceMono(counts: seq<u32>, i: nat)
    requires i <= |counts|
    ensures Twice(counts[..i]) <= Twice(counts)
  {
    if i == |counts| {
      assert counts[..i] == counts;
    } else {
      var last := |counts| - 1;
      assert counts[..last][..i] == counts[..i];
      TwiceMono(counts[..last], i);
    }
  }

  /** Slots of input list l among the first i subtables. */
  function ListSlots(counts: seq<u32>, l: nat, i: nat): int
    requires l < NLISTS && |counts| == NTABS && i <= NTABS
  {
    Twice(counts[..Clamp(i, 64 * l, 64 * l + 64)]) - Twice(counts[..64 * l])
  }

  lemma ListSlotsNext(counts: seq<u32>, i: nat, l: nat)
    requires |counts| == NTABS && i < NTABS && l < NLISTS
    ensures ListSlots(counts, l, i + 1) == ListSlots(counts, l, i) + (if Nlist(i) == l then 2 * (counts[i] as int) else 0)
  {
    hide Twice;
    TwiceNext(counts, i);
  }

  lemma ListSlotsBound(counts: seq<u32>, i: nat, l: nat)
    requires |counts| == NTABS && i <= NTABS && l < NLISTS
    ensures 0 <= ListSlots(counts, l, i)
    ensures 64 * l <= i ==> ListSlots(counts, l, i) <= Twice(counts[..i])
    ensures i < 64 * l ==> ListSlots(counts, l, i) == 0
  {
    hide Twice;
    var c := Clamp(i, 64 * l, 64 * l + 64);
    assert counts[..c][..64 * l] == counts[..64 * l];
    TwiceMono(counts[..c], 64 * l);
    if 64 * l <= i {
      assert counts[..i][..c] == counts[..c];
      TwiceMono(counts[..i], c);
    }
  }

  /** Adding the slots of subtable i to its list does not wrap while the offsets do not. */
  lemma ListSlotsAdd(counts: seq<u32>, i: nat)
    requires |counts| == NTABS && i < NTABS && NoWrap(counts)
    requires CodeBytes(counts[..i + 1]) < U32_LIMIT
    ensures Times32(counts[i], 2) == 2 * (counts[i] as int)
    ensures Wrap32(ListSlots(counts, Nlist(i), i) + Times32(counts[i], 2)) == ListSlots(counts, Nlist(i), i + 1)
  {
    hide CodeBytes, Twice, ListSlots;
    CodeBytesExact(counts[..i + 1]);
    ListSlotsNext(counts, i, Nlist(i));
    ListSlotsBound(counts, i + 1, Nlist(i));
    ListSlotsBound(counts, i, Nlist(i));
  }

  lemma TwiceNext(counts: seq<u32>, i: nat)
    requires i < |counts|
    ensures Twice(counts[..i + 1]) == Twice(counts[..i]) + 2 * (counts[i] as int)
    ensures CodeBytes(counts[..i + 1]) == CodeBytes(counts[..i]) + 16 * (counts[i] % WRAP_COUNT)
  {
    assert counts[..i + 1][..i] == counts[..i];
  }

  /** What the first loop of cdbmk_finish has computed for the first i subtables. */
  ghost predicate Planned(counts: seq<u32>, i: nat, slots: seq<u32>, offset: seq<u32>) {
    && |counts| == |slots| == |offset| && i <= |counts|
    && forall k :: 0 <= k < i ==> slots[k] == Times32(counts[k], 2) && offset[k] == CodeBytes(counts[..k])
  }

  ghost predicate ListsPlanned(counts: seq<u32>, i: nat, lists: seq<u32>) {
    && |counts| == NTABS && i <= NTABS && |lists| == NLISTS
    && (NoWrap(counts) ==> forall l :: 0 <= l < NLISTS ==> lists[l] == ListSlots(counts, l, i))
  }

  lemma PlannedStep(counts: seq<u32>, i: nat, slots: seq<u32>, offset: seq<u32>)
    requires i < |counts| && Planned(counts, i, slots, offset) && CodeBytes(counts[..i]) < U32_LIMIT
    ensures Planned(counts, i + 1, slots[i := Times32(counts[i], 2)], offset[i := CodeBytes(counts[..i])])
  {
    hide CodeBytes, Times32;
  }

  lemma PlannedStart(counts: seq<u32>, slots: seq<u32>, offset: seq<u32>)
    requires |counts| == |slots| == |offset|
    ensures Planned(counts, 0, slots, offset)
  {
  }

  lemma ListsStart(counts: seq<u32>, lists: seq<u32>)
    requires |counts| == NTABS && lists == [0, 0, 0, 0]
    ensures ListsPlanned(counts, 0, lists)
  {
    hide Twice;
  }

  lemma ListsStep(counts: seq<u32>, i: nat, lists: seq<u32>)
    requires i < NTABS && ListsPlanned(counts, i, lists) && CodeBytes(counts[..i + 1]) < U32_LIMIT
    ensures ListsPlanned(counts, i + 1, lists[Nlist(i) := Wrap32(lists[Nlist(i)] + Times32(counts[i], 2))])
  {
    hide CodeBytes, ListSlots, Times32, Wrap32;
    if NoWrap(counts) {
      ListSlotsAdd(counts, i);
      forall l | 0 <= l < NLISTS && l != Nlist(i)
        ensures ListSlots(counts, l, i + 1) == ListSlots(counts, l, i)
      {
        ListSlotsNext(counts, i, l);
      }
    }
  }

  /** The first loop of cdbmk_finish: slots and offset of every subtable, slots of every input list,
      and the overflow checks. */
  method Plan(count: array<u32>, hbase: u32)
    returns (ok: bool, slots: array<u32>, offset: array<u32>, lists: array<u32>)
    requires count.Length == NTABS
    ensures fresh(slots) && fresh(offset) && fresh(lists)
    ensures slots.Length == offset.Length == NTABS && lists.Length == NLISTS
    ensures ok <==> Accepted(hbase, count[..])
    ensures ok ==> Planned(count[..], NTABS, slots[..], offset[..])
    ensures ok ==> ListsPlanned(count[..], NTABS, lists[..])
  {
    hide CodeBytes, Wrap32, Times32, ListsPlanned, Planned, Nlist;
    slots := new u32[NTABS](_ => 0);
    offset := new u32[NTABS](_ => 0);
    lists := new u32[NLISTS](_ => 0);
    var sum: u32, toff: u32, i := 0, 0, 0;
    ghost var counts := count[..];
    CodeBytesZero([]);
    assert counts[..0] == [];
    assert Times32(0, 8) == 0 by { TimesZero(); }
    assert lists[..] == [0, 0, 0, 0];
    ListsStart(counts, lists[..]);
    PlannedStart(counts, slots[..], offset[..]);
    while i < NTABS
      invariant 0 <= i <= NTABS && counts == count[..]
      invariant toff == CodeBytes(counts[..i]) && Times32(sum, 8) == toff
      invariant Planned(counts, i, slots[..], offset[..])
      invariant ListsPlanned(counts, i, lists[..])
    {
      var tslots := Times32(count[i], 2);
      PlannedStep(counts, i, slots[..], offset[..]);
      slots[i] := tslots;
      offset[i] := toff;
      ghost var wasLists := lists[..];
      lists[Nlist(i)] := Wrap32(lists[Nlist(i)] + tslots);
      assert lists[..] == wasLists[Nlist(i) := Wrap32(wasLists[Nlist(i)] + tslots)];
      TwiceNext(counts, i);
      SlotArithmetic(counts[i]);
      var fits, next := AddU32(toff, Times32(tslots, 8));
      if !fits {
        CodeBytesMono(counts, i + 1);
        return false, slots, offset, lists;
      }
      SumArithmetic(sum, toff, tslots);
      ListsStep(counts, i, wasLists);
      sum := Wrap32(sum + tslots);
      toff := next;
      i := i + 1;
    }
    assert counts[..i] == counts;
    var eof;
    ok, eof := AddU32(hbase, Times32(sum, 8));
  }

  lemma TimesZero()
    ensures Times32(0, 8) == 0
  {
  }

  lemma {:induction false} CodeBytesMono(counts: seq<u32>, i: nat)
    requires i <= |counts|
    ensures CodeBytes(counts[..i]) <= CodeBytes(counts)
  {
    if i == |counts| {
      assert counts[..i] == counts;
    } else {
      var last := |counts| - 1;
      assert counts[..last][..i] == counts[..i];
      CodeBytesMono(counts[..last], i);
    }
  }

  // ---- loading a list ----

  /** Sizes and offsets of the 64 subtables from lo on, offsets counted from adj. */
  ghost predicate Ready(slots: seq<u32>, offset: seq<u32>, adj: nat, lo: nat, ns: seq<nat>) {
    && |slots| == |offset| == NTABS && |ns| == 64 && lo + 64 <= NTABS
    && forall j :: 0 <= j < 64 ==> slots[lo + j] == ns[j] && offset[lo + j] == adj + 8 * Sum(ns[..j])
  }

  /** The sizes are twice what these entries need. */
  ghost predicate Sized(es: seq<Slot>, lo: nat, ns: seq<nat>) {
    forall j :: 0 <= j < |ns| ==> ns[j] == 2 * |InTab(CdbKind, es, lo + j)|
  }

  lemma {:induction false} TwiceFrom(counts: seq<u32>, lo: nat, ns: seq<nat>, j: nat)
    requires lo + |ns| <= |counts| && j <= |ns|
    requires forall i :: 0 <= i < |ns| ==> ns[i] == 2 * (counts[lo + i] as int)
    ensures Twice(counts[..lo + j]) == Twice(counts[..lo]) + Sum(ns[..j])
  {
    if j > 0 {
      TwiceFrom(counts, lo, ns, j - 1);
      TwiceNext(counts, lo + j - 1);
      assert ns[..j][..j - 1] == ns[..j - 1];
    }
  }

  lemma CodeBytesNoWrap(counts: seq<u32>, i: nat)
    requires i <= |counts| && NoWrap(counts)
    ensures CodeBytes(counts[..i]) == 8 * Twice(counts[..i])
  {
    CodeBytesExact(counts[..i]);
  }

  lemma PlanReady(counts: seq<u32>, slots: seq<u32>, offset: seq<u32>, l: nat, ns: seq<nat>)
    requires |counts| == NTABS && Planned(counts, NTABS, slots, offset) && NoWrap(counts) && l < NLISTS
    requires |ns| == 64 && forall i :: 0 <= i < 64 ==> ns[i] == 2 * (counts[64 * l + i] as int)
    ensures Ready(slots, offset, 8 * Twice(counts[..64 * l]), 64 * l, ns)
    ensures ListSlots(counts, l, NTABS) == Sum(ns)
  {
    hide CodeBytes, Twice, Sum;
    forall j | 0 <= j < 64
      ensures slots[64 * l + j] == ns[j]
      ensures offset[64 * l + j] == 8 * Twice(counts[..64 * l]) + 8 * Sum(ns[..j])
    {
      TwiceFrom(counts, 64 * l, ns, j);
      CodeBytesNoWrap(counts, 64 * l + j);
    }
    TwiceFrom(counts, 64 * l, ns, 64);
    assert ns[..64] == ns;
  }

  /** One entry of a list: find its subtable in the shared buffer and load it there. */
  method LoadOne(tbuf: array<byte>, slots: seq<u32>, offset: seq<u32>, adj: u32, e: Slot,
                 ghost all: seq<Slot>, ghost k: nat, ghost lo: nat, ghost ns: seq<nat>)
    returns (rc: int)
    requires Ready(slots, offset, adj, lo, ns) && Sized(all, lo, ns) && AllUsed(all)
    requires k < |all| && e == all[k] && lo <= Ntab(CdbKind, e.hash) < lo + 64
    requires 8 * Sum(ns) <= tbuf.Length
    requires tbuf[..8 * Sum(ns)] == EncSlots(Flat(Batch(all[..k], lo, ns)))
    modifies tbuf
    ensures rc == 0
    ensures tbuf[..8 * Sum(ns)] == EncSlots(Flat(Batch(all[..k + 1], lo, ns)))
  {
    hide Ntab, EncSlots, Flat, Batch, Sum, HasFree, Insert, InTab, Target, AllUsed;
    var ntab := Ntab(CdbKind, e.hash);
    ghost var j, done := ntab - lo, all[..k];
    ghost var parts := Batch(done, lo, ns);
    assert slots[lo + j] == ns[j] && offset[lo + j] == adj + 8 * Sum(ns[..j]);
    RoomForNext(CdbKind, all, k, ns[j]);
    BatchLength(done, lo, ns);
    FlatUpdate(parts, j, Insert(CdbKind, parts[j], e));
    var tbase := offset[ntab] - adj;
    var tslots := slots[ntab];
    rc := TbufLoad(CdbKind, tbuf, tbase, tslots, Target(CdbKind, e.hash, tslots), e, Flat(parts));
    BatchAppend(done, e, lo, ns, j);
    assert all[..k + 1] == done + [e];
  }
}
