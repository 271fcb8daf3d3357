/** Looking a key up in the bytes of a file, as cdb_find and cdb_findnext do it, on any bytes;
    then what that yields on a finished file. */
module CdbLookup {
  import opened Bytes
  import opened SlotTable
  import opened CdbHash
  import opened Layout
  import opened CdbImage

  datatype Option<T> = None | Some(value: T)

  /** cdb_read on a mapped file: an offset at or past the end fails even for an empty read. */
  function ReadAt(img: seq<byte>, len: nat, off: nat): (r: Option<seq<byte>>)
    ensures r.Some? ==> |r.value| == len
  {
    if off >= |img| || |img| - off < len then None else Some(img[off..off + len])
  }

  datatype Verdict = Broken | Differs | Same(dlen: u32)

  const KBUF: nat := 80

  /** Compare in pieces of 80 bytes. Each piece of the record is compared with the start of the
      search key: the search key is not advanced. */
  function KeyMatch(img: seq<byte>, key: seq<byte>, kpos: u32, left: nat, dlen: u32): (v: Verdict)
    requires left <= |key|
    decreases left
  {
    if left == 0 then Same(dlen) else
      var n := if KBUF > left then left else KBUF;
      match ReadAt(img, n, kpos)
      case None => Broken
      case Some(piece) =>
        if key[..n] != piece then Differs else KeyMatch(img, key, Wrap32(kpos + n), left - n, dlen)
  }

  /** The header of a record: two lengths. */
  function HeadSize(kind: Kind): nat {
    match kind
    case CdbKind => 8
    case HdbKind => 6
  }

  function KeyLength(kind: Kind, head: seq<byte>): u32
    requires |head| == HeadSize(kind)
  {
    match kind
    case CdbKind => Unpack32(head[..4])
    case HdbKind => Unpack24(head[..3])
  }

  function DataLength(kind: Kind, head: seq<byte>): u32
    requires |head| == HeadSize(kind)
  {
    match kind
    case CdbKind => Unpack32(head[4..])
    case HdbKind => Unpack24(head[3..])
  }

  /** Does the record at rpos carry the key? */
  function Check(kind: Kind, img: seq<byte>, key: seq<byte>, rpos: u32): (v: Verdict) {
    match ReadAt(img, HeadSize(kind), rpos)
    case None => Broken
    case Some(head) =>
      if KeyLength(kind, head) != |key| then Differs
      else KeyMatch(img, key, Wrap32(rpos + HeadSize(kind)), |key|, DataLength(kind, head))
  }

  /** A search in progress: the key, its hash, and the subtable the hash selects. */
  datatype Query = Query(kind: Kind, key: seq<byte>, h: u32, tbase: u32, tslots: u32, s0: nat)

  predicate ValidQuery(q: Query) {
    q.s0 < q.tslots
  }

  datatype Probed = Failed | Absent | Found(d: nat, rpos: u32, dlen: u32)

  /** cdb_hash_probe, with the position given as a distance d from the initial target slot. */
  function Probe(img: seq<byte>, q: Query, d: nat): (p: Probed)
    requires ValidQuery(q)
    ensures p.Found? ==> d <= p.d < q.tslots
    decreases q.tslots - d
  {
    if d >= q.tslots then Absent else
      match ReadAt(img, 8, Wrap32(q.tbase + 8 * Cyc(q.s0, d, q.tslots)))
      case None => Failed
      case Some(b) =>
        var slot := Slot(Unpack32(b[..4]), Unpack32(b[4..]));
        if Free(slot) then Absent
        else if slot.hash != q.h then Probe(img, q, d + 1)
        else
          match Check(q.kind, img, q.key, slot.rpos)
          case Broken => Failed
          case Differs => Probe(img, q, d + 1)
          case Same(dlen) => Found(d, slot.rpos, dlen)
  }

  datatype Hit = Hit(rpos: u32, dlen: u32)

  /** The hits of a find continued by findnext until it reports no more, or a failed read. */
  datatype Answer<T> = Wrong | Hits(all: seq<T>)

  function Run(img: seq<byte>, q: Query, d: nat): (a: Answer<Hit>)
    requires ValidQuery(q)
    decreases q.tslots - d
  {
    match Probe(img, q, d)
    case Failed => Wrong
    case Absent => Hits([])
    case Found(d', rpos, dlen) =>
      match Run(img, q, d' + 1)
      case Wrong => Wrong
      case Hits(rest) => Hits([Hit(rpos, dlen)] + rest)
  }

  /** The subtable pointer of a hash, as the file has it. */
  function Pointer(img: seq<byte>, h: u32): (r: Option<(u32, u32)>) {
    match ReadAt(img, 8, 8 * Ntab(CdbKind, h))
    case None => None
    case Some(b) => Some((Unpack32(b[..4]), Unpack32(b[4..])))
  }

  /** The hits of a key in the subtable its hash selects. */
  function HitsIn(kind: Kind, img: seq<byte>, key: seq<byte>, tbase: u32, tslots: u32): (a: Answer<Hit>) {
    if tslots == 0 then Hits([]) else
      Run(img, Query(kind, key, Hash(kind, key), tbase, tslots, Target(kind, Hash(kind, key), tslots)), 0)
  }

  function Lookup(img: seq<byte>, key: seq<byte>): (a: Answer<Hit>) {
    match Pointer(img, Hash(CdbKind, key))
    case None => Wrong
    case Some((tbase, tslots)) => HitsIn(CdbKind, img, key, tbase, tslots)
  }

  /** cdb_get of the whole data of a hit. */
  function Fetch(kind: Kind, img: seq<byte>, klen: nat, hit: Hit): (r: Option<seq<byte>>) {
    ReadAt(img, hit.dlen, Wrap32(hit.rpos + HeadSize(kind) + klen))
  }

  // ---- key comparison ----

  /** What the piecewise comparison takes a key for: its first 80 bytes over and over. */
  function Folded(key: seq<byte>): (f: seq<byte>)
    ensures |f| == |key|
  {
    seq(|key|, i requires 0 <= i < |key| => key[i % KBUF])
  }

  lemma FoldedAt(key: seq<byte>, k: nat, i: nat)
    requires i < KBUF && KBUF * k + i < |key|
    ensures Folded(key)[KBUF * k + i] == key[i]
  {
    assert (KBUF * k + i) % KBUF == i;
  }

  lemma FoldedPiece(key: seq<byte>, k: nat, n: nat)
    requires n <= KBUF && KBUF * k + n <= |key|
    ensures Folded(key)[KBUF * k..KBUF * k + n] == key[..n]
  {
    hide Folded;
    forall i | 0 <= i < n
      ensures Folded(key)[KBUF * k + i] == key[i]
    {
      FoldedAt(key, k, i);
    }
  }

  lemma KeyMatchStep(img: seq<byte>, key: seq<byte>, kpos: nat, left: nat, n: nat, dlen: u32)
    requires kpos + left <= |img| < U32_LIMIT && 0 < left <= |key|
    requires n == if KBUF > left then left else KBUF
    ensures KeyMatch(img, key, kpos, left, dlen)
         == if img[kpos..kpos + n] == key[..n] then KeyMatch(img, key, kpos + n, left - n, dlen)
            else Differs
  {
  }

  lemma {:induction false} KeyMatchFrom(img: seq<byte>, key: seq<byte>, kpos: nat, k: nat, o: nat, dlen: u32)
    requires kpos + |key| <= |img| < U32_LIMIT
    requires o == if KBUF * k < |key| then KBUF * k else |key|
    ensures KeyMatch(img, key, kpos + o, |key| - o, dlen)
         == if img[kpos + o..kpos + |key|] == Folded(key)[o..|key|] then Same(dlen) else Differs
    decreases |key| - o
  {
    hide Folded, KeyMatch;
    if o < |key| {
      var n := if KBUF > |key| - o then |key| - o else KBUF;
      KeyMatchStep(img, key, kpos + o, |key| - o, n, dlen);
      FoldedPiece(key, k, n);
      SplitSlices(img, kpos + o, Folded(key), o, n, |key| - o);
      KeyMatchFrom(img, key, kpos, k + 1, o + n, dlen);
    } else {
      KeyMatchEnd(img, key, kpos + o, dlen);
      assert img[kpos + o..kpos + |key|] == [] == Folded(key)[o..|key|];
    }
  }

  lemma KeyMatchEnd(img: seq<byte>, key: seq<byte>, kpos: u32, dlen: u32)
    ensures KeyMatch(img, key, kpos, 0, dlen) == Same(dlen)
  {
  }

  /** Two slices of length len agree when their first n elements and their remainders do. */
  lemma SplitSlices<T>(a: seq<T>, i: nat, b: seq<T>, j: nat, n: nat, len: nat)
    requires n <= len && i + len <= |a| && j + len <= |b|
    ensures a[i..i + len] == b[j..j + len] <==>
            a[i..i + n] == b[j..j + n] && a[i + n..i + len] == b[j + n..j + len]
  {
    SliceSlice(a, i, i + len, 0, n);
    SliceSlice(b, j, j + len, 0, n);
    SliceSlice(a, i, i + len, n, len);
    SliceSlice(b, j, j + len, n, len);
    EqualBySplit(a[i..i + len], b[j..j + len], n);
  }

  /** A well-placed record passes the check exactly when its key is the folded search key. */
  lemma CheckRecord(img: seq<byte>, key: seq<byte>, r: Record, rpos: nat)
    requires |img| < U32_LIMIT && rpos + RecSize(r) <= |img|
    requires img[rpos..rpos + RecSize(r)] == RecBytes(r)
    requires rpos + 8 + |r.key| < |img|
    ensures Check(CdbKind, img, key, rpos) == if r.key == Folded(key) then Same(|r.data|) else Differs
  {
    hide KeyMatch, Folded, RecBytes, Unpack32, ReadAt;
    RecordParts(img, r, rpos);
    if |r.key| == |key| {
      KeyMatchFrom(img, key, rpos + 8, 0, 0, |r.data|);
      assert Folded(key)[0..|key|] == Folded(key);
    }
  }

  lemma RecordParts(img: seq<byte>, r: Record, rpos: nat)
    requires |img| < U32_LIMIT && rpos + RecSize(r) <= |img|
    requires img[rpos..rpos + RecSize(r)] == RecBytes(r)
    ensures ReadAt(img, 8, rpos).Some?
    ensures Unpack32(ReadAt(img, 8, rpos).value[..4]) == |r.key|
    ensures Unpack32(ReadAt(img, 8, rpos).value[4..]) == |r.data|
    ensures img[rpos + 8..rpos + 8 + |r.key|] == r.key
    ensures img[rpos + 8 + |r.key|..rpos + RecSize(r)] == r.data
  {
    hide Pack32, Unpack32;
    var a, b := Pack32(|r.key|), Pack32(|r.data|);
    var rb := RecBytes(r);
    assert rb == a + b + r.key + r.data;
    var head := img[rpos..rpos + 8];
    assert head == rb[..8];
    assert head[..4] == a && head[4..] == b;
    SliceSlice(img, rpos, rpos + |rb|, 8, 8 + |r.key|);
    SliceSlice(img, rpos, rpos + |rb|, 8 + |r.key|, |rb|);
    assert rb[8..8 + |r.key|] == r.key && rb[8 + |r.key|..] == r.data;
    PackUnpack32(|r.key|);
    PackUnpack32(|r.data|);
  }

  // ---- probing bytes is scanning slots ----

  /** Table t lies in the file at tbase. */
  ghost predicate TableAt(img: seq<byte>, tbase: nat, t: seq<Slot>) {
    && tbase + 8 * |t| <= |img| < U32_LIMIT
    && forall i :: 0 <= i < |t| ==> img[tbase + 8 * i..tbase + 8 * i + 8] == SlotBytes(t[i])
  }

  function HitsOf(kind: Kind, img: seq<byte>, key: seq<byte>, rposs: seq<u32>): (hits: seq<Hit>) {
    if rposs == [] then [] else
      var v := Check(kind, img, key, rposs[0]);
      if v.Same? then [Hit(rposs[0], v.dlen)] + HitsOf(kind, img, key, rposs[1..]) else HitsOf(kind, img, key, rposs[1..])
  }

  ghost predicate Sound(kind: Kind, img: seq<byte>, key: seq<byte>, rposs: seq<u32>) {
    forall i :: 0 <= i < |rposs| ==> !Check(kind, img, key, rposs[i]).Broken?
  }

  lemma SlotRead(img: seq<byte>, tbase: nat, t: seq<Slot>, i: nat)
    requires TableAt(img, tbase, t) && i < |t|
    ensures var r := ReadAt(img, 8, Wrap32(tbase + 8 * i));
            r.Some? && Unpack32(r.value[..4]) == t[i].hash && Unpack32(r.value[4..]) == t[i].rpos
  {
    hide Pack32, Unpack32;
    var b := img[tbase + 8 * i..tbase + 8 * i + 8];
    assert b[..4] == Pack32(t[i].hash) && b[4..] == Pack32(t[i].rpos);
    PackUnpack32(t[i].hash);
    PackUnpack32(t[i].rpos);
  }

  /** One probe step follows one scan step. */
  lemma {:induction false} RunIsScan(img: seq<byte>, q: Query, t: seq<Slot>, d: nat)
    requires ValidQuery(q) && |t| == q.tslots && q.s0 == Target(q.kind, q.h, q.tslots) && d <= |t|
    requires TableAt(img, q.tbase, t)
    requires Sound(q.kind, img, q.key, Scan(q.kind, t, q.h, d))
    ensures Run(img, q, d) == Hits(HitsOf(q.kind, img, q.key, Scan(q.kind, t, q.h, d)))
    decreases |t| - d
  {
    hide Check, ReadAt, Target, Unpack32;
    if d < |t| {
      var i := Cyc(q.s0, d, |t|);
      SlotRead(img, q.tbase, t, i);
      if !Free(t[i]) {
        var rest := Scan(q.kind, t, q.h, d + 1);
        if t[i].hash == q.h {
          assert Scan(q.kind, t, q.h, d)[1..] == rest;
          assert forall k :: 0 <= k < |rest| ==> rest[k] == Scan(q.kind, t, q.h, d)[k + 1];
        } else {
          assert Scan(q.kind, t, q.h, d) == rest;
        }
        RunIsScan(img, q, t, d + 1);
      }
    }
  }

  // ---- a finished file ----

  lemma {:induction false} HitsAppend(kind: Kind, img: seq<byte>, key: seq<byte>, a: seq<u32>, b: seq<u32>)
    ensures HitsOf(kind, img, key, a + b) == HitsOf(kind, img, key, a) + HitsOf(kind, img, key, b)
  {
    hide Check;
    if a == [] {
      assert a + b == b;
    } else {
      assert (a + b)[1..] == a[1..] + b;
      HitsAppend(kind, img, key, a[1..], b);
    }
  }

  lemma {:induction false} WithHashInTab(kind: Kind, es: seq<Slot>, h: u32)
    ensures WithHash(InTab(kind, es, Ntab(kind, h)), h) == WithHash(es, h)
  {
    hide Ntab;
    if es != [] {
      var last := |es| - 1;
      var front := InTab(kind, es[..last], Ntab(kind, h));
      WithHashInTab(kind, es[..last], h);
      if Ntab(kind, es[last].hash) == Ntab(kind, h) {
        assert InTab(kind, es, Ntab(kind, h))[..|front|] == front;
      }
    }
  }

  /** The data of the records with this key, in the order they were added. */
  function DataUnder(rs: seq<Record>, key: seq<byte>): (r: seq<seq<byte>>) {
    if rs == [] then [] else
      var last := |rs| - 1;
      if rs[last].key == key then DataUnder(rs[..last], key) + [rs[last].data] else DataUnder(rs[..last], key)
  }

  /** Where those records are. */
  function HitsUnder(rs: seq<Record>, key: seq<byte>): (r: seq<Hit>) {
    if rs == [] then [] else
      var last := |rs| - 1;
      var front := HitsUnder(rs[..last], key);
      if rs[last].key == key then front + [Hit(Wrap32(HBase(rs[..last])), Wrap32(|rs[last].data|))] else front
  }

  lemma EntriesPrefix(rs: seq<Record>, i: nat)
    requires i < |rs|
    ensures rs[..i + 1][..i] == rs[..i]
    ensures Entries(rs[..i + 1]) == Entries(rs[..i]) + [Slot(Hash(CdbKind, rs[i].key), Wrap32(HBase(rs[..i])))]
  {
    assert rs[..i + 1][..i] == rs[..i];
  }

  lemma WithHashAppend(es: seq<Slot>, e: Slot, h: u32)
    ensures WithHash(es + [e], h) == if e.hash == h then WithHash(es, h) + [e.rpos] else WithHash(es, h)
  {
    assert (es + [e])[..|es|] == es;
  }

  /** Checking record i of a finished file. */
  lemma CheckAdded(rs: seq<Record>, i: nat, key: seq<byte>)
    requires Fits(rs) && i < |rs|
    ensures HBase(rs[..i]) + |rs[i].data| < U32_LIMIT
    ensures Check(CdbKind, Image(rs), key, HBase(rs[..i]))
         == if rs[i].key == Folded(key) then Same(|rs[i].data|) else Differs
  {
    hide Check, Image, Folded, RecBytes;
    ImageSize(rs);
    ImageRecord(rs, i);
    CheckRecord(Image(rs), key, rs[i], HBase(rs[..i]));
  }

  /** The records a probe reaches are those with the key's hash; the check keeps the folded key's. */
  lemma {:induction false} HitsOfEntries(rs: seq<Record>, i: nat, key: seq<byte>)
    requires Fits(rs) && i <= |rs|
    ensures var rposs := WithHash(Entries(rs[..i]), Hash(CdbKind, key));
            && Sound(CdbKind, Image(rs), key, rposs)
            && HitsOf(CdbKind, Image(rs), key, rposs)
               == if Hash(CdbKind, Folded(key)) == Hash(CdbKind, key) then HitsUnder(rs[..i], Folded(key)) else []
    decreases i
  {
    hide *;
    if i == 0 {
      assert rs[..0] == [];
      NothingAdded(Image(rs), key);
    } else {
      var k := i - 1;
      var rpos, was := Wrap32(HBase(rs[..k])), WithHash(Entries(rs[..k]), Hash(CdbKind, key));
      WrapSmall(HBase(rs[..k]));
      WrapSmall(|rs[k].data|);
      HitsOfEntries(rs, k, key);
      EntriesPrefix(rs, k);
      WithHashAppend(Entries(rs[..k]), Slot(Hash(CdbKind, rs[k].key), rpos), Hash(CdbKind, key));
      CheckAdded(rs, k, key);
      HitsUnderStep(rs, k, Folded(key));
      if Hash(CdbKind, rs[k].key) == Hash(CdbKind, key) {
        HitsStep(CdbKind, Image(rs), key, was, rpos);
      }
    }
  }

  lemma NothingAdded(img: seq<byte>, key: seq<byte>)
    ensures WithHash(Entries([]), Hash(CdbKind, key)) == []
    ensures HitsOf(CdbKind, img, key, []) == [] && Sound(CdbKind, img, key, [])
    ensures HitsUnder([], Folded(key)) == []
  {
    hide Hash;
  }

  lemma HitsStep(kind: Kind, img: seq<byte>, key: seq<byte>, rposs: seq<u32>, rpos: u32)
    ensures HitsOf(kind, img, key, rposs + [rpos])
         == var v := Check(kind, img, key, rpos);
            if v.Same? then HitsOf(kind, img, key, rposs) + [Hit(rpos, v.dlen)] else HitsOf(kind, img, key, rposs)
    ensures Sound(kind, img, key, rposs) && !Check(kind, img, key, rpos).Broken? ==> Sound(kind, img, key, rposs + [rpos])
  {
    hide Check;
    HitsAppend(kind, img, key, rposs, [rpos]);
    assert [rpos][1..] == [];
  }

  lemma HitsUnderStep(rs: seq<Record>, i: nat, key: seq<byte>)
    requires i < |rs|
    ensures HitsUnder(rs[..i + 1], key)
         == if rs[i].key == key then HitsUnder(rs[..i], key) + [Hit(Wrap32(HBase(rs[..i])), Wrap32(|rs[i].data|))]
            else HitsUnder(rs[..i], key)
  {
    hide HBase;
    assert rs[..i + 1][..i] == rs[..i];
  }

  lemma ImageTable(rs: seq<Record>, t: nat)
    requires Fits(rs) && t < NTABS
    ensures TableAt(Image(rs), HBase(rs) + 8 * TabBase(Entries(rs), t), SubTable(CdbKind, Entries(rs), t))
  {
    hide Image, SubTable, TabBase, Entries, HBase, SlotBytes;
    var es := Entries(rs);
    var tbase := HBase(rs) + 8 * TabBase(es, t);
    ImageSize(rs);
    TabBaseBound(es, t);
    forall i | 0 <= i < |SubTable(CdbKind, es, t)|
      ensures Image(rs)[tbase + 8 * i..tbase + 8 * i + 8] == SlotBytes(SubTable(CdbKind, es, t)[i])
    {
      ImageSlot(rs, t, i);
    }
  }

  lemma ImagePointerRead(rs: seq<Record>, h: u32)
    requires Fits(rs)
    ensures Pointer(Image(rs), h)
         == Some((HBase(rs) + 8 * TabBase(Entries(rs), Ntab(CdbKind, h)), |SubTable(CdbKind, Entries(rs), Ntab(CdbKind, h))|))
  {
    hide Image, SubTable, TabBase, Entries, HBase, Pack32, Unpack32, Ntab;
    var es, t := Entries(rs), Ntab(CdbKind, h);
    ImageSize(rs);
    TabBaseBound(es, t);
    ImagePointer(rs, t);
    var b := Image(rs)[8 * t..8 * t + 8];
    assert b[..4] == Pack32(HBase(rs) + 8 * TabBase(es, t)) && b[4..] == Pack32(|SubTable(CdbKind, es, t)|);
    PackUnpack32(HBase(rs) + 8 * TabBase(es, t));
    PackUnpack32(|SubTable(CdbKind, es, t)|);
  }

  /** What a lookup hits: the records whose key is the folded key, in the order added. */
  lemma LookupHits(rs: seq<Record>, key: seq<byte>)
    requires Fits(rs)
    ensures Lookup(Image(rs), key)
         == Hits(if Hash(CdbKind, Folded(key)) == Hash(CdbKind, key) then HitsUnder(rs, Folded(key)) else [])
  {
    hide Image, TabBase, Entries, HBase, Hash, Run, Pointer, Folded, HitsOf, Scan, Table, Target, Ntab, TableAt;
    var img, es, h := Image(rs), Entries(rs), Hash(CdbKind, key);
    var t := SubTable(CdbKind, es, Ntab(CdbKind, h));
    var sub := InTab(CdbKind, es, Ntab(CdbKind, h));
    EntriesUsed(rs);
    InTabUsed(CdbKind, es, Ntab(CdbKind, h));
    ScanTable(CdbKind, sub, 2 * |sub|, h);
    WithHashInTab(CdbKind, es, h);
    assert rs[..|rs|] == rs;
    HitsOfEntries(rs, |rs|, key);
    ImagePointerRead(rs, h);
    ImageTable(rs, Ntab(CdbKind, h));
    assert Scan(CdbKind, t, h, 0) == WithHash(es, h);
    if |t| == 0 {
      EmptyScan(t, h);
      NothingAdded(img, key);
    } else {
      RunIsScan(img, Query(CdbKind, key, h, HBase(rs) + 8 * TabBase(es, Ntab(CdbKind, h)), |t|, Target(CdbKind, h, |t|)), t, 0);
    }
  }

  lemma EmptyScan(t: seq<Slot>, h: u32)
    requires t == []
    ensures Scan(CdbKind, t, h, 0) == []
  {
  }

  // ---- the data ----

  function FetchAll(kind: Kind, img: seq<byte>, klen: nat, hits: seq<Hit>): (a: Answer<seq<byte>>) {
    if hits == [] then Hits([]) else
      match (FetchAll(kind, img, klen, hits[..|hits| - 1]), Fetch(kind, img, klen, hits[|hits| - 1]))
      case (Hits(front), Some(data)) => Hits(front + [data])
      case _ => Wrong
  }

  /** The data of a run of hits. */
  function Gathered(kind: Kind, img: seq<byte>, klen: nat, a: Answer<Hit>): (r: Answer<seq<byte>>) {
    match a
    case Wrong => Wrong
    case Hits(hits) => FetchAll(kind, img, klen, hits)
  }

  /** Every answer to a key: find, then findnext until there is no more, getting the data each time. */
  function Answers(img: seq<byte>, key: seq<byte>): (a: Answer<seq<byte>>) {
    Gathered(CdbKind, img, |key|, Lookup(img, key))
  }

  lemma FetchAdded(rs: seq<Record>, i: nat)
    requires Fits(rs) && i < |rs|
    ensures HBase(rs[..i]) + RecSize(rs[i]) < U32_LIMIT
    ensures Fetch(CdbKind, Image(rs), |rs[i].key|, Hit(HBase(rs[..i]), |rs[i].data|)) == Some(rs[i].data)
  {
    hide Image, RecBytes, HBase;
    ImageSize(rs);
    ImageRecord(rs, i);
    RecordParts(Image(rs), rs[i], HBase(rs[..i]));
  }

  lemma DataUnderStep(rs: seq<Record>, i: nat, key: seq<byte>)
    requires i < |rs|
    ensures DataUnder(rs[..i + 1], key)
         == if rs[i].key == key then DataUnder(rs[..i], key) + [rs[i].data] else DataUnder(rs[..i], key)
  {
    assert rs[..i + 1][..i] == rs[..i];
  }

  lemma FetchNext(kind: Kind, img: seq<byte>, klen: nat, taken: seq<Hit>, hit: Hit)
    ensures FetchAll(kind, img, klen, taken + [hit]) ==
            match (FetchAll(kind, img, klen, taken), Fetch(kind, img, klen, hit))
            case (Hits(front), Some(data)) => Hits(front + [data])
            case _ => Wrong
  {
    hide Fetch;
    assert (taken + [hit])[..|taken|] == taken;
  }

  lemma FetchNone(kind: Kind, img: seq<byte>, klen: nat)
    ensures FetchAll(kind, img, klen, []) == Hits([])
  {
  }

  lemma {:induction false} FetchUnder(rs: seq<Record>, i: nat, key: seq<byte>)
    requires Fits(rs) && i <= |rs|
    ensures FetchAll(CdbKind, Image(rs), |key|, HitsUnder(rs[..i], key)) == Hits(DataUnder(rs[..i], key))
    decreases i
  {
    hide Image, Fetch, HBase, HitsUnder, DataUnder, FetchAll, Fits, Wrap32;
    if i == 0 {
      assert rs[..0] == [];
      NothingUnder(key);
      FetchNone(CdbKind, Image(rs), |key|);
    } else {
      var k := i - 1;
      FetchUnder(rs, k, key);
      HitsUnderStep(rs, k, key);
      DataUnderStep(rs, k, key);
      if rs[k].key == key {
        FetchAddedHit(rs, k);
        FetchNext(CdbKind, Image(rs), |key|, HitsUnder(rs[..k], key), Hit(Wrap32(HBase(rs[..k])), Wrap32(|rs[k].data|)));
      }
    }
  }

  lemma NothingUnder(key: seq<byte>)
    ensures HitsUnder([], key) == [] && DataUnder([], key) == []
  {
  }

  lemma FetchAddedHit(rs: seq<Record>, k: nat)
    requires Fits(rs) && k < |rs|
    ensures Fetch(CdbKind, Image(rs), |rs[k].key|, Hit(Wrap32(HBase(rs[..k])), Wrap32(|rs[k].data|))) == Some(rs[k].data)
  {
    hide Image, Fetch, HBase, Wrap32;
    FetchAdded(rs, k);
    WrapSmall(HBase(rs[..k]));
    WrapSmall(|rs[k].data|);
  }

  /** Exactly what a finished file answers for any key. */
  lemma AnswersExact(rs: seq<Record>, key: seq<byte>)
    requires Fits(rs)
    ensures Answers(Image(rs), key)
         == Hits(if Hash(CdbKind, Folded(key)) == Hash(CdbKind, key) then DataUnder(rs, Folded(key)) else [])
  {
    hide Image, Lookup, HitsUnder, DataUnder, Hash, Folded;
    LookupHits(rs, key);
    FetchUnder(rs, |rs|, Folded(key));
    assert rs[..|rs|] == rs;
    assert |Folded(key)| == |key|;
  }

  lemma ShortKeyFolded(key: seq<byte>)
    requires |key| <= KBUF
    ensures Folded(key) == key
  {
  }

  /** Keys of at most 80 bytes: find and findnext yield the data added under the key, duplicates
      included and in the order added, and nothing for a key never added. */
  lemma FindYieldsAdded(rs: seq<Record>, key: seq<byte>)
    requires Fits(rs) && |key| <= KBUF
    ensures Answers(Image(rs), key) == Hits(DataUnder(rs, key))
  {
    hide Image, Answers, DataUnder, Hash, Folded;
    ShortKeyFolded(key);
    AnswersExact(rs, key);
  }

  /** Lookups of a key are right in every file exactly when the key repeats its first 80 bytes. */
  lemma FindRightIff(key: seq<byte>)
    requires Fits([Record(key, [])])
    ensures (forall rs :: Fits(rs) ==> Answers(Image(rs), key) == Hits(DataUnder(rs, key)))
            <==> Folded(key) == key
  {
    hide Image, Answers, Hash, Folded;
    if Folded(key) == key {
      forall rs | Fits(rs)
        ensures Answers(Image(rs), key) == Hits(DataUnder(rs, key))
      {
        AnswersExact(rs, key);
      }
    } else {
      var rs := [Record(key, [])];
      AnswersExact(rs, key);
      assert DataUnder(rs[..0], Folded(key)) == [] && DataUnder(rs[..0], key) == [];
      assert DataUnder(rs, Folded(key)) == [] && DataUnder(rs, key) == [[]];
      assert Answers(Image(rs), key) != Hits(DataUnder(rs, key));
    }
  }

  /** A key that is lost: 80 zero bytes followed by a one. */
  lemma LongKeyLost()
    ensures var key := Zeros(80) + [1];
            Answers(Image([Record(key, [])]), key) == Hits([])
  {
    hide Image, Answers, Hash;
    var key: seq<byte> := Zeros(80) + [1];
    var rs := [Record(key, [])];
    assert HBase(rs[..0]) == RBASE;
    assert HBase(rs) == RBASE + 89;
    AnswersExact(rs, key);
    assert Folded(key)[80] == key[0] == 0;
    assert DataUnder(rs[..0], Folded(key)) == [];
    assert DataUnder(rs, Folded(key)) == [];
  }
}
