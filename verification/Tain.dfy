/** Timestamps of lasagna/tain: seconds in 64 bits, nanoseconds below a billion. */
module Tain {
  const U64_LIMIT: int := 0x1_0000_0000_0000_0000
  const BILLION: int := 1_000_000_000

  datatype Stamp = Stamp(sec: nat, nsec: nat)

  /** A timestamp as the clock and the arithmetic deliver it. */
  type Tain = t: Stamp | t.sec < U64_LIMIT && t.nsec < BILLION witness Stamp(0, 0)

  const ZERO: Tain := Stamp(0, 0)
  const ONE_SECOND: Tain := Stamp(1, 0)

  /** Nanoseconds since the epoch. */
  function Nanos(t: Tain): (n: nat) {
    t.sec * BILLION + t.nsec
  }

  function Less(a: Tain, b: Tain): (r: bool)
    ensures r <==> Nanos(a) < Nanos(b)
  {
    if a.sec != b.sec then a.sec < b.sec else a.nsec < b.nsec
  }

  /** Sum with carry; seconds wrap at 2^64. */
  function Plus(a: Tain, b: Tain): (t: Tain) {
    var nsec := a.nsec + b.nsec;
    if nsec > BILLION - 1 then Stamp((a.sec + b.sec + 1) % U64_LIMIT, nsec - BILLION)
    else Stamp((a.sec + b.sec) % U64_LIMIT, nsec)
  }

  /** Difference with borrow; seconds wrap at 2^64. */
  function Minus(a: Tain, b: Tain): (t: Tain) {
    if a.nsec >= b.nsec then Stamp((a.sec - b.sec) % U64_LIMIT, a.nsec - b.nsec)
    else Stamp((a.sec - b.sec - 1) % U64_LIMIT, BILLION + a.nsec - b.nsec)
  }

  function Later(a: Tain, b: Tain): (t: Tain) {
    if Less(a, b) then b else a
  }

  lemma PlusExact(a: Tain, b: Tain)
    ensures Nanos(Plus(a, b)) == (Nanos(a) + Nanos(b)) % (U64_LIMIT * BILLION)
  {
    var limit := U64_LIMIT * BILLION;
    var sum := Nanos(a) + Nanos(b);
    assert 0 <= sum < 2 * limit;
    assert Nanos(Plus(a, b)) == sum || Nanos(Plus(a, b)) == sum - limit;
    assert sum % limit == if sum < limit then sum else sum - limit;
  }

  lemma MinusExact(a: Tain, b: Tain)
    requires Nanos(b) <= Nanos(a)
    ensures Nanos(Minus(a, b)) == Nanos(a) - Nanos(b)
  {
  }

  /** A timestamp variable. */
  class Cell {
    var sec: nat
    var nsec: nat

    constructor (t: Tain)
      ensures Get() == t
    {
      sec, nsec := t.sec, t.nsec;
    }

    ghost predicate Normal()
      reads this
    {
      sec < U64_LIMIT && nsec < BILLION
    }

    ghost function Get(): Stamp
      reads this
    {
      Stamp(sec, nsec)
    }
  }

  /** tain_plus, in place: the result may be either argument, or both. */
  method PlusInto(t: Cell, a: Cell, b: Cell)
    requires a.Normal() && b.Normal()
    modifies t
    ensures t.Get() == Plus(old(a.Get()), old(b.Get()))
  {
    t.sec := (a.sec + b.sec) % U64_LIMIT;
    t.nsec := a.nsec + b.nsec;
    if t.nsec > BILLION - 1 {
      t.nsec := t.nsec - BILLION;
      t.sec := (t.sec + 1) % U64_LIMIT;
    }
  }

  /** tain_minus, in place: the result may be either argument, or both. */
  method MinusInto(t: Cell, a: Cell, b: Cell)
    requires a.Normal() && b.Normal()
    modifies t
    ensures t.Get() == Minus(old(a.Get()), old(b.Get()))
  {
    t.sec := (a.sec - b.sec) % U64_LIMIT;
    if a.nsec >= b.nsec {
      t.nsec := a.nsec - b.nsec;
    } else {
      t.sec := (t.sec - 1) % U64_LIMIT;
      t.nsec := BILLION + a.nsec - b.nsec;
    }
  }

  /** The respawn governor: the earliest next start after one requested at now. */
  function NextOk(now: Tain, whenOk: Tain): (t: Tain) {
    var towait: Tain := if Less(now, whenOk) then Minus(whenOk, now) else ZERO;
    Plus(Plus(now, ONE_SECOND), towait)
  }

  /** The same as the daemon computes it, the result of each sum replacing an argument. */
  method Govern(now: Tain, whenOk: Tain) returns (next: Tain)
    ensures next == NextOk(now, whenOk)
  {
    hide Plus, Minus, Less;
    var n := new Cell(now);
    var ok := new Cell(whenOk);
    var towait := new Cell(ZERO);
    if Less(now, whenOk) {
      MinusInto(towait, ok, n);
    }
    ok.sec, ok.nsec := 1, 0;
    PlusInto(ok, n, ok);
    PlusInto(ok, ok, towait);
    next := Stamp(ok.sec, ok.nsec);
  }

  /** It is one second after the later of the request and the time already granted: the time the
      start takes effect, whatever the clock did since. */
  lemma NextOkExact(now: Tain, whenOk: Tain)
    requires Later(now, whenOk).sec + 1 < U64_LIMIT
    ensures Nanos(NextOk(now, whenOk)) == Nanos(Later(now, whenOk)) + BILLION
  {
    hide Nanos, Plus, Minus;
    NanosBelow(Later(now, whenOk));
    PlusExact(now, ONE_SECOND);
    NanosOne();
    if Less(now, whenOk) {
      MinusExact(whenOk, now);
      PlusExact(Plus(now, ONE_SECOND), Minus(whenOk, now));
    } else {
      PlusExact(Plus(now, ONE_SECOND), ZERO);
    }
  }

  lemma NanosOne()
    ensures Nanos(ONE_SECOND) == BILLION && Nanos(ZERO) == 0
  {
  }

  lemma NanosBelow(t: Tain)
    requires t.sec + 1 < U64_LIMIT
    ensures Nanos(t) + BILLION < U64_LIMIT * BILLION
  {
  }
}
