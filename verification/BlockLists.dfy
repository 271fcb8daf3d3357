/** The linked lists of record blocks a database generator keeps: blocks are pushed at the head,
    and the list is reversed in place before it is read. */
module BlockLists {
  import opened Bytes
  import opened SlotTable

  class Block {
    var record: seq<Slot>
    var next: Block?

    constructor (next: Block?)
      ensures record == [] && this.next == next
    {
      record := [];
      this.next := next;
    }
  }

  /** head leads through exactly the blocks of spine, in order, to null. */
  ghost predicate Chain(head: Block?, spine: seq<Block>)
    reads spine`next
  {
    if spine == [] then head == null else head == spine[0] && Chain(spine[0].next, spine[1..])
  }

  ghost predicate Distinct(spine: seq<Block>) {
    forall i, j :: 0 <= i < j < |spine| ==> spine[i] != spine[j]
  }

  /** The records read front to back. */
  ghost function Forward(spine: seq<Block>): seq<Slot>
    reads spine`record
  {
    if spine == [] then [] else spine[0].record + Forward(spine[1..])
  }

  /** The records in the order they were added: the last block of a pushed list is the oldest. */
  ghost function Oldest(spine: seq<Block>): seq<Slot>
    reads spine`record
  {
    if spine == [] then [] else Oldest(spine[1..]) + spine[0].record
  }

  lemma {:induction false} OldestLast(spine: seq<Block>, b: Block)
    ensures Oldest(spine + [b]) == b.record + Oldest(spine)
  {
    if spine == [] {
      assert (spine + [b])[1..] == [];
    } else {
      assert (spine + [b])[1..] == spine[1..] + [b];
      OldestLast(spine[1..], b);
      assert b.record + Oldest(spine[1..]) + spine[0].record == b.record + (Oldest(spine[1..]) + spine[0].record);
    }
  }

  /** Turn one link round, from the blocks ahead to the blocks behind. */
  method Turn(k: Block, n: Block?, ghost ahead: seq<Block>, ghost behind: seq<Block>) returns (t: Block?)
    requires Chain(k.next, ahead) && Chain(n, behind)
    requires k !in ahead && k !in behind
    modifies k`next
    ensures Chain(t, ahead) && Chain(k, [k] + behind)
  {
    t := k.next;
    k.next := n;
    assert ([k] + behind)[1..] == behind;
  }

  ghost function Reversed<T>(s: seq<T>): seq<T> {
    if s == [] then [] else [s[|s| - 1]] + Reversed(s[..|s| - 1])
  }

  lemma {:induction false} ReversedMembers<T>(s: seq<T>)
    ensures forall x :: x in Reversed(s) <==> x in s
  {
    if s != [] {
      ReversedMembers(s[..|s| - 1]);
      assert s == s[..|s| - 1] + [s[|s| - 1]];
    }
  }

  lemma {:induction false} ReversedDistinct(spine: seq<Block>)
    requires Distinct(spine)
    ensures Distinct(Reversed(spine))
  {
    if spine != [] {
      var last := |spine| - 1;
      ReversedDistinct(spine[..last]);
      ReversedMembers(spine[..last]);
      assert spine[last] !in Reversed(spine[..last]);
    }
  }

  lemma {:induction false} ForwardReversed(spine: seq<Block>)
    ensures Forward(Reversed(spine)) == Oldest(spine)
  {
    if spine != [] {
      var last := |spine| - 1;
      ForwardReversed(spine[..last]);
      OldestLast(spine[..last], spine[last]);
      assert spine == spine[..last] + [spine[last]];
      assert Reversed(spine)[1..] == Reversed(spine[..last]);
    }
  }

  /** Reverse the links in place. */
  method ListReverse(head: Block?, ghost spine: seq<Block>) returns (n: Block?)
    requires Chain(head, spine) && Distinct(spine)
    modifies spine`next
    ensures Chain(n, Reversed(spine))
  {
    var k := head;
    n := null;
    ghost var i := 0;
    while k != null
      invariant 0 <= i <= |spine|
      invariant Chain(k, spine[i..])
      invariant Chain(n, Reversed(spine[..i]))
      decreases |spine| - i
    {
      ghost var ahead, behind := spine[i + 1..], Reversed(spine[..i]);
      assert spine[i..][1..] == ahead && k == spine[i];
      assert k !in spine[..i];
      ReversedMembers(spine[..i]);
      var t := Turn(k, n, ahead, behind);
      n := k;
      assert spine[..i + 1][..i] == spine[..i];
      i := i + 1;
      k := t;
    }
    assert spine[..i] == spine;
  }

  class BlockList {
    /** How many records a block has room for. */
    const room: nat
    var head: Block?
    ghost var spine: seq<Block>
    ghost var repr: set<object>

    ghost predicate Valid()
      reads this, repr
    {
      && this in repr
      && (forall i :: 0 <= i < |spine| ==> spine[i] in repr)
      && Chain(head, spine) && Distinct(spine)
      && 0 < room && (forall i :: 0 <= i < |spine| ==> |spine[i].record| <= room)
    }

    /** The records in the order they were added. */
    ghost function Contents(): seq<Slot>
      requires Valid()
      reads this, repr
    {
      Oldest(spine)
    }

    constructor (room: nat)
      requires 0 < room
      ensures Valid() && Contents() == [] && fresh(repr) && this.room == room
    {
      this.room := room;
      head := null;
      spine := [];
      repr := {this};
    }

    /** Store one more record, in a new head block when the head block is full. */
    method Add(e: Slot)
      requires Valid()
      modifies repr
      ensures Valid() && fresh(repr - old(repr))
      ensures Contents() == old(Contents()) + [e]
    {
      if head == null || |head.record| >= room {
        var b := new Block(head);
        head := b;
        assert b !in spine;
        spine := [b] + spine;
        repr := repr + {b};
        assert spine[1..] == old(spine);
        assert Oldest(old(spine)) + [] == Oldest(old(spine));
      }
      assert Contents() == old(Contents());
      Append(e);
    }

    /** Store one more record in the head block. */
    method Append(e: Slot)
      requires Valid() && spine != [] && |head.record| < room
      modifies spine`record
      ensures Valid() && Contents() == old(Contents()) + [e]
    {
      ghost var tail := spine[1..];
      assert spine[0] !in tail;
      head.record := head.record + [e];
      assert Oldest(tail) == old(Oldest(tail));
    }

    /** Reverse the list: reading front to back now gives the order of adding. */
    method Reverse()
      requires Valid()
      modifies repr
      ensures Valid() && repr == old(repr) && Forward(spine) == old(Contents())
    {
      hide Reversed, Oldest, Forward, Distinct;
      head := ListReverse(head, spine);
      ForwardReversed(spine);
      ReversedMembers(spine);
      ReversedDistinct(spine);
      ghost var was := spine;
      spine := Reversed(was);
      assert forall i :: 0 <= i < |spine| ==> spine[i] in was;
    }
  }
}
