/** Whole uses of a constant database: every answer to a key, and what was added comes back. */
module CdbStore {
  import opened Bytes
  import opened SlotTable
  import opened CdbImage
  import opened CdbBuild
  import opened CdbLookup
  import opened CdbReader
  import opened CdbWriter
  import opened Ioq

  /** Hits already taken, before the ones to come. */
  function Before(taken: seq<Hit>, a: Answer<Hit>): Answer<Hit> {
    match a
    case Wrong => Wrong
    case Hits(rest) => Hits(taken + rest)
  }

  lemma BeforeNext(taken: seq<Hit>, hit: Hit, a: Answer<Hit>)
    ensures Before(taken, Prepend(hit, a)) == Before(taken + [hit], a)
    ensures Before([], a) == a && Before(taken, Hits([])) == Hits(taken)
  {
    if a.Hits? {
      assert taken + ([hit] + a.all) == taken + [hit] + a.all;
    }
  }

  /** A hit that cannot be fetched spoils the whole answer. */
  lemma {:induction false} FetchSpoiled(kind: Kind, img: seq<byte>, klen: nat, hits: seq<Hit>, k: nat)
    requires k <= |hits| && FetchAll(kind, img, klen, hits[..k]).Wrong?
    ensures FetchAll(kind, img, klen, hits).Wrong?
  {
    hide Fetch;
    if k < |hits| {
      var last := |hits| - 1;
      assert hits[..last][..k] == hits[..k];
      FetchSpoiled(kind, img, klen, hits[..last], k);
    } else {
      assert hits[..k] == hits;
    }
  }

  lemma SpoiledGathering(kind: Kind, img: seq<byte>, klen: nat, taken: seq<Hit>, rest: Answer<Hit>)
    requires FetchAll(kind, img, klen, taken).Wrong?
    ensures Gathered(kind, img, klen, Before(taken, rest)) == Wrong
  {
    hide FetchAll;
    if rest.Hits? {
      assert (taken + rest.all)[..|taken|] == taken;
      FetchSpoiled(kind, img, klen, taken + rest.all, |taken|);
    }
  }

  /** The data at the cursor. */
  method Current(c: Cdb) returns (r: Option<seq<byte>>)
    requires c.Positioned()
    ensures r == Fetch(c.kind, c.image, |c.key|, Hit(c.rpos, c.dlen))
  {
    hide ReadAt;
    var buf := new byte[c.dlen](_ => 0);
    var rc := c.Get(buf, c.dlen);
    r := if rc == 0 then Some(buf[..c.dlen]) else None;
  }

  /** After a find: get the data and findnext, until there is no more. */
  method Collect(c: Cdb, first: int, ghost all: Answer<Hit>) returns (ok: bool, out: seq<seq<byte>>)
    requires c.Searching() && (first == 1 || first == 0 || first == -1)
    requires first == 1 ==> c.Positioned() && all == Prepend(Hit(c.rpos, c.dlen), c.Rest())
    requires first == 0 ==> all == Hits([])
    requires first == -1 ==> all == Wrong
    modifies c
    ensures c.Valid() && Gathered(c.kind, c.image, |old(c.key)|, all) == if ok then Hits(out) else Wrong
  {
    hide Fetch, FetchAll, Prepend, Before, Cdb.Rest;
    var kind, img, key := c.kind, c.image, c.key;
    ghost var taken: seq<Hit> := [];
    out := [];
    FetchNone(kind, img, |key|);
    var rc := first;
    if rc == 1 {
      BeforeNext([], Hit(c.rpos, c.dlen), Prepend(Hit(c.rpos, c.dlen), c.Rest()));
    }
    while rc == 1
      invariant c.Searching() && c.key == key && (rc == 1 || rc == 0 || rc == -1)
      invariant FetchAll(kind, img, |key|, taken) == Hits(out)
      invariant rc == 1 ==> c.Positioned() && all == Before(taken, Prepend(Hit(c.rpos, c.dlen), c.Rest()))
      invariant rc == 0 ==> all == Hits(taken)
      invariant rc == -1 ==> all == Wrong
      decreases if rc == 1 then c.tslots - Dist(c.s0, c.sN, c.tslots) else -1
    {
      ghost var hit := Hit(c.rpos, c.dlen);
      ghost var rest := c.Rest();
      BeforeNext(taken, hit, rest);
      FetchNext(kind, img, |key|, taken, hit);
      var data := Current(c);
      if data.None? {
        SpoiledGathering(kind, img, |key|, taken + [hit], rest);
        return false, [];
      }
      taken := taken + [hit];
      out := out + [data.value];
      rc := c.FindNext();
      BeforeEnds(taken);
    }
    ok := rc == 0;
  }

  /** Find, then findnext until there is no more, getting the data each time. */
  method AllData(c: Cdb, key: seq<byte>) returns (ok: bool, out: seq<seq<byte>>)
    requires c.kind == CdbKind && c.Valid() && |key| < U32_LIMIT
    modifies c
    ensures c.Valid() && Answers(c.image, key) == if ok then Hits(out) else Wrong
  {
    hide Gathered, Prepend, Lookup, Cdb.Rest;
    var rc := c.Find(key);
    ok, out := Collect(c, rc, Lookup(c.image, key));
  }

  lemma BeforeEnds(taken: seq<Hit>)
    ensures Before(taken, Hits([])) == Hits(taken) && Before(taken, Wrong) == Wrong
  {
    assert taken + [] == taken;
  }

  /** A database that fits has no subtable near the size at which the check of the writer wraps. */
  lemma FitsNoWrap(counts: seq<u32>, rs: seq<Record>)
    requires Counted(CdbKind, counts, Entries(rs)) && Fits(rs)
    ensures NoWrap(counts)
  {
    hide InTab, Entries, HBase;
    forall t | 0 <= t < |counts|
      ensures counts[t] < WRAP_COUNT
    {
      InTabLength(CdbKind, Entries(rs), t);
    }
  }

  lemma FitsFront(rs: seq<Record>, i: nat)
    requires Fits(rs) && i < |rs|
    ensures HBase(rs[..i]) + 8 + |rs[i].key| + |rs[i].data| < U32_LIMIT
    ensures rs[..i + 1] == rs[..i] + [rs[i]]
    decreases |rs| - i
  {
    assert rs[..i + 1][..i] == rs[..i];
    HBaseMono(rs, i + 1);
  }

  lemma {:induction false} HBaseMono(rs: seq<Record>, i: nat)
    requires i <= |rs|
    ensures HBase(rs[..i]) <= HBase(rs)
  {
    if i < |rs| {
      var last := |rs| - 1;
      assert rs[..last][..i] == rs[..i];
      HBaseMono(rs[..last], i);
    } else {
      assert rs[..i] == rs;
    }
  }

  /** Make a database of records and ask it for a key: unless a write call fails, there is an answer, and
      it is exactly the data of the records with that key, in the order they were added. */
  method StoreAndAsk(bufSize: nat, file: Sink, rs: seq<Record>, key: seq<byte>) returns (r: Option<seq<seq<byte>>>)
    requires 0 < bufSize && file.Valid() && file.content == [] && Fits(rs) && |key| <= KBUF
    modifies file
    ensures r.Some? ==> r.value == DataUnder(rs, key)
    ensures r.None? <==> file.errors != old(file.errors)
  {
    hide HBase, Image, Entries, DataUnder, CdbMk.Valid, Answers, NoWrap, Counted;
    var mk := new CdbMk(bufSize, file);
    var i := 0;
    while i < |rs|
      invariant i <= |rs| && mk.Valid() && mk.records == rs[..i] && mk.ioq.file == file
      invariant fresh(mk.index.repr) && fresh(mk.ioq.buf) && file.errors == old(file.errors)
    {
      FitsFront(rs, i);
      AtEnd(mk);
      var added := mk.Add(rs[i].key, rs[i].data);
      if !added.Added? {
        return None;
      }
      i := i + 1;
    }
    assert rs[..i] == rs;
    Filled(mk, rs);
    var done := mk.Finish();
    if !done.Done? {
      return None;
    }
    ImageSize(rs);
    var c := new Cdb(CdbKind, file.content);
    FindYieldsAdded(rs, key);
    var ok, out := AllData(c, key);
    r := Some(out);
  }

  lemma AtEnd(mk: CdbMk)
    requires mk.Valid()
    ensures mk.fp == HBase(mk.records)
  {
  }

  lemma Filled(mk: CdbMk, rs: seq<Record>)
    requires mk.Valid() && mk.records == rs && Fits(rs)
    ensures NoWrap(mk.index.count[..]) && mk !in mk.index.repr
  {
    hide InTab, Entries, HBase, Body;
    CountedHere(mk.index);
    FitsNoWrap(mk.index.count[..], rs);
  }
}
