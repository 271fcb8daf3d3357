/** One open-addressing subtable of a constant database, as slots rather than bytes.
    Entries go to the first free slot at or cyclically after their target slot. */
module SlotTable {
  import opened Bytes

  datatype Slot = Slot(hash: u32, rpos: u32)

  const FREE := Slot(0, 0)

  predicate Free(s: Slot) {
    s.rpos == 0
  }

  /** The two formats, which place hashes differently. */
  datatype Kind = CdbKind | HdbKind

  /** The bits of an hdb hash shuffled, without those that select the table. */
  function Shuffle(x: bv32): bv32 {
    ((x >> 13) ^ x) >> 3
  }

  /** The bits of a hash that place it in a table. */
  function Home(kind: Kind, h: u32): nat {
    match kind
    case CdbKind => h / 256
    case HdbKind => Shuffle(h as bv32) as nat
  }

  /** Target slot of a hash in a table of n slots. */
  function Target(kind: Kind, h: u32, n: nat): (s: nat)
    requires 0 < n
    ensures s < n
  {
    Home(kind, h) % n
  }

  /** The slot d steps cyclically after s. */
  function Cyc(s: nat, d: nat, n: nat): (p: nat)
    requires s < n && d <= n
    ensures p < n
  {
    if s + d < n then s + d else s + d - n
  }

  /** Steps from s forward to p. */
  function Dist(s: nat, p: nat, n: nat): (d: nat)
    requires s < n && p < n
    ensures d < n && Cyc(s, d, n) == p
  {
    if s <= p then p - s else p + n - s
  }

  /** Distance from s of the first free slot at distance d or more; |t| when there is none. */
  function FreeDist(t: seq<Slot>, s: nat, d: nat): (r: nat)
    requires s < |t| && d <= |t|
    ensures d <= r <= |t|
    decreases |t| - d
  {
    if d == |t| || Free(t[Cyc(s, d, |t|)]) then d else FreeDist(t, s, d + 1)
  }

  /** Load an entry; a full table (see HasFree) stays as it is. */
  function Insert(kind: Kind, t: seq<Slot>, e: Slot): (t': seq<Slot>)
    ensures |t'| == |t|
  {
    if t == [] then t else
      var s := Target(kind, e.hash, |t|);
      var d := FreeDist(t, s, 0);
      if d == |t| then t else t[Cyc(s, d, |t|) := e]
  }

  /** Entries in insertion order, loaded one at a time into n free slots. */
  function Table(kind: Kind, es: seq<Slot>, n: nat): (t: seq<Slot>)
    ensures |t| == n
  {
    if es == [] then seq(n, _ => FREE) else
      Insert(kind, Table(kind, es[..|es| - 1], n), es[|es| - 1])
  }

  /** What a reader probing for hash h sees from distance d on: the record positions of matching
      slots, up to the first free slot or a full turn. */
  function Scan(kind: Kind, t: seq<Slot>, h: u32, d: nat): (r: seq<u32>)
    requires d <= |t|
    decreases |t| - d
  {
    if d == |t| then [] else
      var c := t[Cyc(Target(kind, h, |t|), d, |t|)];
      if Free(c) then [] else
        if c.hash == h then [c.rpos] + Scan(kind, t, h, d + 1) else Scan(kind, t, h, d + 1)
  }

  /** Record positions of the entries with hash h, in order. */
  function WithHash(es: seq<Slot>, h: u32): (r: seq<u32>) {
    if es == [] then [] else
      var last := |es| - 1;
      if es[last].hash == h then WithHash(es[..last], h) + [es[last].rpos] else WithHash(es[..last], h)
  }

  // ---- free slots ----

  ghost predicate HasFree(t: seq<Slot>) {
    exists p :: 0 <= p < |t| && Free(t[p])
  }

  function Used(t: seq<Slot>): (n: nat)
    ensures n <= |t|
  {
    if t == [] then 0 else Used(t[..|t| - 1]) + (if Free(t[|t| - 1]) then 0 else 1)
  }

  ghost predicate AllUsed(es: seq<Slot>) {
    forall i :: 0 <= i < |es| ==> !Free(es[i])
  }

  lemma {:induction false} UsedNone(t: seq<Slot>)
    requires forall p :: 0 <= p < |t| ==> Free(t[p])
    ensures Used(t) == 0
  {
    if t != [] {
      UsedNone(t[..|t| - 1]);
    }
  }

  lemma {:induction false} FreeExists(t: seq<Slot>)
    requires Used(t) < |t|
    ensures HasFree(t)
  {
    if !Free(t[|t| - 1]) {
      FreeExists(t[..|t| - 1]);
      var p :| 0 <= p < |t| - 1 && Free(t[..|t| - 1][p]);
      assert Free(t[p]);
    }
  }

  lemma {:induction false} UsedUpdate(t: seq<Slot>, p: nat, e: Slot)
    requires p < |t| && Free(t[p]) && !Free(e)
    ensures Used(t[p := e]) == Used(t) + 1
  {
    var last := |t| - 1;
    if p == last {
      assert t[p := e][..last] == t[..last];
    } else {
      assert t[p := e][..last] == t[..last][p := e];
      UsedUpdate(t[..last], p, e);
    }
  }

  // ---- landing ----

  lemma {:induction false} FreeDistSpec(t: seq<Slot>, s: nat, d: nat)
    requires s < |t| && d <= |t|
    ensures var r := FreeDist(t, s, d);
            && (r < |t| ==> Free(t[Cyc(s, r, |t|)]))
            && forall k :: d <= k < r ==> !Free(t[Cyc(s, k, |t|)])
    decreases |t| - d
  {
    if d < |t| && !Free(t[Cyc(s, d, |t|)]) {
      FreeDistSpec(t, s, d + 1);
    }
  }

  /** The slot an entry lands in, and the occupied run before it. */
  ghost predicate LandsAt(kind: Kind, t: seq<Slot>, h: u32, d: nat) {
    && d < |t|
    && Free(t[Cyc(Target(kind, h, |t|), d, |t|)])
    && forall k :: 0 <= k < d ==> !Free(t[Cyc(Target(kind, h, |t|), k, |t|)])
  }

  lemma LandsUnique(kind: Kind, t: seq<Slot>, h: u32, d: nat)
    requires LandsAt(kind, t, h, d)
    ensures FreeDist(t, Target(kind, h, |t|), 0) == d
  {
    FreeDistSpec(t, Target(kind, h, |t|), 0);
  }

  lemma Landing(kind: Kind, t: seq<Slot>, e: Slot) returns (d: nat)
    requires HasFree(t)
    ensures LandsAt(kind, t, e.hash, d)
    ensures Insert(kind, t, e) == t[Cyc(Target(kind, e.hash, |t|), d, |t|) := e]
  {
    var s := Target(kind, e.hash, |t|);
    d := FreeDist(t, s, 0);
    FreeDistSpec(t, s, 0);
    var p :| 0 <= p < |t| && Free(t[p]);
    assert Cyc(s, Dist(s, p, |t|), |t|) == p;
  }

  lemma {:induction false} TableUsed(kind: Kind, es: seq<Slot>, n: nat)
    requires |es| <= n && AllUsed(es)
    ensures Used(Table(kind, es, n)) == |es|
  {
    if es == [] {
      UsedNone(Table(kind, es, n));
    } else {
      var last := |es| - 1;
      var t := Table(kind, es[..last], n);
      TableUsed(kind, es[..last], n);
      FreeExists(t);
      var d := Landing(kind, t, es[last]);
      UsedUpdate(t, Cyc(Target(kind, es[last].hash, n), d, n), es[last]);
    }
  }

  // ---- probing ----

  /** Every entry is reachable from its target slot without crossing a free slot. */
  ghost predicate Packed(kind: Kind, t: seq<Slot>) {
    forall p, d :: 0 <= p < |t| && !Free(t[p]) && 0 <= d < Dist(Target(kind, t[p].hash, |t|), p, |t|) ==>
                     !Free(t[Cyc(Target(kind, t[p].hash, |t|), d, |t|)])
  }

  lemma InsertPacked(kind: Kind, t: seq<Slot>, e: Slot)
    requires HasFree(t) && Packed(kind, t) && !Free(e)
    ensures Packed(kind, Insert(kind, t, e))
  {
    var t' := Insert(kind, t, e);
    var d0 := Landing(kind, t, e);
    var q := Cyc(Target(kind, e.hash, |t|), d0, |t|);
    forall p, d | 0 <= p < |t'| && !Free(t'[p]) && 0 <= d < Dist(Target(kind, t'[p].hash, |t'|), p, |t'|)
      ensures !Free(t'[Cyc(Target(kind, t'[p].hash, |t'|), d, |t'|)])
    {
      var c := Cyc(Target(kind, t'[p].hash, |t'|), d, |t'|);
      assert !Free(t[c]) || c == q;
    }
  }

  /** Nothing with hash h lies beyond a free slot, not even after that slot is filled. */
  lemma {:induction false} NoneBeyond(kind: Kind, t: seq<Slot>, e: Slot, h: u32, d0: nat, d: nat)
    requires Packed(kind, t) && d0 < d <= |t|
    requires Free(t[Cyc(Target(kind, h, |t|), d0, |t|)])
    ensures Scan(kind, t[Cyc(Target(kind, h, |t|), d0, |t|) := e], h, d) == []
    decreases |t| - d
  {
    if d < |t| {
      var s := Target(kind, h, |t|);
      var p := Cyc(s, d, |t|);
      assert Dist(s, p, |t|) == d;
      NoneBeyond(kind, t, e, h, d0, d + 1);
    }
  }

  lemma {:induction false} ScanInsert(kind: Kind, t: seq<Slot>, e: Slot, h: u32, d: nat)
    requires HasFree(t) && Packed(kind, t) && !Free(e) && d <= |t|
    requires forall k :: 0 <= k < d ==> !Free(t[Cyc(Target(kind, h, |t|), k, |t|)])
    ensures Scan(kind, Insert(kind, t, e), h, d) == if e.hash == h then Scan(kind, t, h, d) + [e.rpos] else Scan(kind, t, h, d)
    decreases |t| - d
  {
    hide Target, Insert;
    var n, t', s := |t|, Insert(kind, t, e), Target(kind, h, |t|);
    var de := Landing(kind, t, e);
    var q := Cyc(Target(kind, e.hash, n), de, n);
    assert d < n by {
      assert Cyc(s, Dist(s, q, n), n) == q;
    }
    var c := Cyc(s, d, n);
    if !Free(t[c]) {
      ScanInsert(kind, t, e, h, d + 1);
    } else {
      assert LandsAt(kind, t, h, d);
      if e.hash == h {
        LandsUnique(kind, t, h, d);
        LandsUnique(kind, t, h, de);
      }
      if c == q {
        NoneBeyond(kind, t, e, h, d, d + 1);
      }
    }
  }

  lemma {:induction false} TablePacked(kind: Kind, es: seq<Slot>, n: nat)
    requires |es| <= n && AllUsed(es)
    ensures Packed(kind, Table(kind, es, n))
  {
    if es != [] {
      var last := |es| - 1;
      var t := Table(kind, es[..last], n);
      TablePacked(kind, es[..last], n);
      TableUsed(kind, es[..last], n);
      FreeExists(t);
      InsertPacked(kind, t, es[last]);
    }
  }

  /** Every entry loaded is in the table. */
  lemma {:induction false} TableHolds(kind: Kind, es: seq<Slot>, n: nat, i: nat) returns (p: nat)
    requires |es| <= n && AllUsed(es) && i < |es|
    ensures p < n && Table(kind, es, n)[p] == es[i]
  {
    var last := |es| - 1;
    var t := Table(kind, es[..last], n);
    TableUsed(kind, es[..last], n);
    FreeExists(t);
    var d := Landing(kind, t, es[last]);
    if i == last {
      p := Cyc(Target(kind, es[last].hash, n), d, n);
    } else {
      p := TableHolds(kind, es[..last], n, i);
    }
  }

  /** Probing a built table for a hash yields exactly the entries loaded under it, in loading order. */
  lemma {:induction false} ScanTable(kind: Kind, es: seq<Slot>, n: nat, h: u32)
    requires |es| <= n && AllUsed(es)
    ensures Scan(kind, Table(kind, es, n), h, 0) == WithHash(es, h)
  {
    if es != [] {
      var last := |es| - 1;
      var t := Table(kind, es[..last], n);
      ScanTable(kind, es[..last], n, h);
      TablePacked(kind, es[..last], n);
      TableUsed(kind, es[..last], n);
      FreeExists(t);
      ScanInsert(kind, t, es[last], h, 0);
    }
  }
}
