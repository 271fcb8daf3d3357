/** The hashes as the C code computes them, with shifts and exclusive or on 32-bit words, and that the
    arithmetic of the model is the same. */
module HashBits {
  import opened Bytes
  import opened SlotTable
  import opened CdbHash

  // ---- words and numbers ----

  function Int8(x: bv8): byte {
    x as int
  }

  function Int24(x: bv24): nat {
    x as int
  }

  function Int32(x: bv32): u32 {
    x as int
  }

  function Int64(x: bv64): nat {
    x as int
  }

  lemma Int8Is(x: bv8)
    ensures Int8(x) == x as int
  {
  }

  lemma Int32Is(x: bv32)
    ensures Int32(x) == x as int
  {
  }

  lemma Int64Is(x: bv64)
    ensures Int64(x) == x as int
  {
  }

  /** Two words in a row. */
  function Pair(hi: bv32, lo: bv32): bv64 {
    ((hi as bv64) << 32) | (lo as bv64)
  }

  lemma Halves(hi: bv32, lo: bv32)
    ensures Int64(((hi as bv64) << 32) | (lo as bv64)) == 0x1_0000_0000 * (Int32(hi) as int) + Int32(lo)
  {
  }

  lemma PairInt(hi: bv32, lo: bv32)
    ensures Int64(Pair(hi, lo)) == 0x1_0000_0000 * (Int32(hi) as int) + Int32(lo)
  {
    hide Int64, Int32;
    Halves(hi, lo);
  }

  // ---- h += h << 5 ----

  function Mix33(x: bv32): bv32 {
    x + (x << 5)
  }

  /** The same without losing the carry. */
  function Wide33(x: bv32): bv64 {
    (x as bv64) + ((x as bv64) << 5)
  }

  lemma Wide33Raw(x: bv32)
    ensures ((x as bv64) + ((x as bv64) << 5)) as int == x as int + 32 * (x as int)
  {
  }

  lemma Wide33Int(x: bv32)
    ensures Int64(Wide33(x)) == 33 * (Int32(x) as int)
  {
    hide Int32, Int64;
    Wide33Raw(x);
    Int64Is((x as bv64) + ((x as bv64) << 5));
    Int32Is(x);
  }

  lemma Carry33Raw(x: bv32)
    ensures var w := (x as bv64) + ((x as bv64) << 5);
            Pair((w >> 32) as bv32, x + (x << 5)) == w
  {
  }

  lemma Mix33Is(x: bv32)
    ensures Mix33(x) == x + (x << 5) && Wide33(x) == (x as bv64) + ((x as bv64) << 5)
  {
  }

  lemma Carry33(x: bv32) returns (hi: bv32)
    ensures Wide33(x) == Pair(hi, Mix33(x))
  {
    hide Pair, Mix33, Wide33;
    var w := (x as bv64) + ((x as bv64) << 5);
    hi := (w >> 32) as bv32;
    Carry33Raw(x);
    Mix33Is(x);
  }

  lemma Times33(x: bv32)
    ensures Int32(Mix33(x)) == Times32(Int32(x), 33)
  {
    hide Int32, Int64, Mix33, Wide33, Pair;
    Wide33Int(x);
    var hi := Carry33(x);
    PairInt(hi, Mix33(x));
  }

  // ---- h += (h << 2) + (h << 5) ----

  function Mix37(x: bv32): bv32 {
    x + ((x << 2) + (x << 5))
  }

  function Wide37(x: bv32): bv64 {
    (x as bv64) + ((x as bv64) << 2) + ((x as bv64) << 5)
  }

  lemma Wide37Raw(x: bv32)
    ensures ((x as bv64) + ((x as bv64) << 2) + ((x as bv64) << 5)) as int == x as int + 4 * (x as int) + 32 * (x as int)
  {
  }

  lemma Wide37Int(x: bv32)
    ensures Int64(Wide37(x)) == 37 * (Int32(x) as int)
  {
    hide Int32, Int64;
    Wide37Raw(x);
    Int64Is((x as bv64) + ((x as bv64) << 2) + ((x as bv64) << 5));
    Int32Is(x);
  }

  lemma Carry37Raw(x: bv32)
    ensures var w := (x as bv64) + ((x as bv64) << 2) + ((x as bv64) << 5);
            Pair((w >> 32) as bv32, x + ((x << 2) + (x << 5))) == w
  {
  }

  lemma Mix37Is(x: bv32)
    ensures Mix37(x) == x + ((x << 2) + (x << 5))
    ensures Wide37(x) == (x as bv64) + ((x as bv64) << 2) + ((x as bv64) << 5)
  {
  }

  lemma Carry37(x: bv32) returns (hi: bv32)
    ensures Wide37(x) == Pair(hi, Mix37(x))
  {
    hide Pair, Mix37, Wide37;
    var w := (x as bv64) + ((x as bv64) << 2) + ((x as bv64) << 5);
    hi := (w >> 32) as bv32;
    Carry37Raw(x);
    Mix37Is(x);
  }

  lemma Times37(x: bv32)
    ensures Int32(Mix37(x)) == Times32(Int32(x), 37)
  {
    hide Int32, Int64, Mix37, Wide37, Pair;
    Wide37Int(x);
    var hi := Carry37(x);
    PairInt(hi, Mix37(x));
  }

  // ---- h ^= b ----

  function Join(h: bv24, a: bv8): bv32 {
    ((h as bv32) << 8) | (a as bv32)
  }

  lemma LowByte(h: bv24, a: bv8)
    ensures Int32(((h as bv32) << 8) | (a as bv32)) == 256 * Int24(h) + Int8(a) && Int24(h) < 0x100_0000
  {
  }

  lemma JoinInt(h: bv24, a: bv8)
    ensures Int32(Join(h, a)) == 256 * Int24(h) + Int8(a) && Int24(h) < 0x100_0000
  {
    hide Int32, Int24, Int8;
    LowByte(h, a);
  }

  lemma SplitLow(x: bv32)
    ensures x == Join((x >> 8) as bv24, (x & 255) as bv8)
  {
  }

  lemma XorLow(h: bv24, a: bv8, y: bv8)
    ensures Join(h, a) ^ (y as bv32) == Join(h, a ^ y)
  {
  }

  lemma Back8(x: bv8)
    ensures (x as int) as bv8 == x
  {
  }

  lemma XorInt(a: bv8, y: bv8)
    ensures XorByte(Int8(a), Int8(y)) == Int8(a ^ y)
  {
    hide Int8;
    Int8Is(a);
    Int8Is(y);
    Int8Is(a ^ y);
    Back8(a);
    Back8(y);
  }

  lemma CombineParts(h: bv24, a: bv8, y: bv8)
    ensures Combine(Int32(Join(h, a)), Int8(y)) == Int32(Join(h, a ^ y))
  {
    hide Int32, Int24, Int8, XorByte, Join;
    JoinInt(h, a);
    JoinInt(h, a ^ y);
    XorInt(a, y);
  }

  function Xor(x: bv32, y: bv8): bv32 {
    x ^ (y as bv32)
  }

  lemma XorJoin(h: bv24, a: bv8, y: bv8)
    ensures Xor(Join(h, a), y) == Join(h, a ^ y)
  {
    hide Join;
    XorLow(h, a, y);
  }

  lemma CombineIs(x: bv32, y: bv8)
    ensures Combine(Int32(x), Int8(y)) == Int32(Xor(x, y))
  {
    hide Combine, Int32, Int8, Join, Xor;
    var h, a := (x >> 8) as bv24, (x & 255) as bv8;
    SplitLow(x);
    XorJoin(h, a, y);
    CombineParts(h, a, y);
  }

  // ---- one step and the whole hash ----

  /** One step of either hash: cdb shifts and adds, then combines; hdb combines, then shifts and adds. */
  lemma StepIsBits(h: bv32, b: bv8)
    ensures HashNext(CdbKind, Int32(h), Int8(b)) == Int32(Xor(Mix33(h), b))
    ensures HashNext(HdbKind, Int32(h), Int8(b)) == Int32(Mix37(Xor(h, b)))
  {
    hide Combine, Int32, Int8, Mix33, Mix37, Xor, Times32;
    Times33(h);
    CombineIs(Mix33(h), b);
    CombineIs(h, b);
    Times37(Xor(h, b));
  }

  /** cdb_hash. */
  function CdbWord(key: seq<bv8>): bv32 {
    if key == [] then 5381 else Xor(Mix33(CdbWord(key[..|key| - 1])), key[|key| - 1])
  }

  /** hdb_hash. */
  function HdbWord(key: seq<bv8>): bv32 {
    if key == [] then 0 else Mix37(Xor(HdbWord(key[..|key| - 1]), key[|key| - 1]))
  }

  function Half(n: nat): bv4
    requires n < 16
  {
    n as bv4
  }

  /** A byte from its two halves. */
  function Octet(b: byte): bv8 {
    ((Half(b / 16) as bv8) << 4) | (Half(b % 16) as bv8)
  }

  /** A key in words. */
  function Octets(key: seq<byte>): (r: seq<bv8>)
    ensures |r| == |key|
  {
    seq(|key|, i requires 0 <= i < |key| => Octet(key[i]))
  }

  lemma HalfBack(n: nat)
    requires n < 16
    ensures Half(n) as int == n
  {
  }

  lemma HalvesRaw(hi: bv4, lo: bv4)
    ensures (((hi as bv8) << 4) | (lo as bv8)) as int == 16 * (hi as int) + lo as int
  {
  }

  lemma OctetBack(b: byte)
    ensures Int8(Octet(b)) == b
  {
    hide Int8, Half;
    HalfBack(b / 16);
    HalfBack(b % 16);
    HalvesRaw(Half(b / 16), Half(b % 16));
    Int8Is(((Half(b / 16) as bv8) << 4) | (Half(b % 16) as bv8));
  }

  lemma OctetsLast(key: seq<byte>)
    requires key != []
    ensures Octets(key)[..|key| - 1] == Octets(key[..|key| - 1]) && Octets(key)[|key| - 1] == Octet(key[|key| - 1])
  {
    hide Octet;
  }

  lemma FirstWords()
    ensures HashInit(CdbKind) == Int32(5381) && HashInit(HdbKind) == Int32(0)
  {
  }

  lemma WordNext(key: seq<bv8>)
    requires key != []
    ensures CdbWord(key) == Xor(Mix33(CdbWord(key[..|key| - 1])), key[|key| - 1])
    ensures HdbWord(key) == Mix37(Xor(HdbWord(key[..|key| - 1]), key[|key| - 1]))
  {
    hide Xor, Mix33, Mix37;
  }

  lemma NoWords()
    ensures CdbWord([]) == 5381 && HdbWord([]) == 0
  {
  }

  /** For every key the hash of the model is the hash of the code. */
  lemma {:induction false} HashIsBits(key: seq<byte>)
    ensures Hash(CdbKind, key) == CdbWord(Octets(key)) as int
    ensures Hash(HdbKind, key) == HdbWord(Octets(key)) as int
  {
    hide Int32, HashNext, CdbWord, HdbWord;
    HashIsWords(key);
    Int32Is(CdbWord(Octets(key)));
    Int32Is(HdbWord(Octets(key)));
  }

  lemma {:induction false} HashIsWords(key: seq<byte>)
    ensures Hash(CdbKind, key) == Int32(CdbWord(Octets(key))) && Hash(HdbKind, key) == Int32(HdbWord(Octets(key)))
  {
    hide Int32, Int8, HashNext, CdbWord, HdbWord, Octets, Octet, Xor, Mix33, Mix37;
    if key == [] {
      assert Octets(key) == [];
      NoWords();
      FirstWords();
    } else {
      var last := |key| - 1;
      HashIsWords(key[..last]);
      OctetsLast(key);
      OctetBack(key[last]);
      WordNext(Octets(key));
      StepIsBits(CdbWord(Octets(key[..last])), Octet(key[last]));
      StepIsBits(HdbWord(Octets(key[..last])), Octet(key[last]));
    }
  }

  /** Known values: the key "a". */
  lemma KnownHashes()
    ensures Hash(CdbKind, [97]) == 177604 && Hash(HdbKind, [97]) == 3589
  {
    var key: seq<byte> := [97];
    assert key[..0] == [];
    assert HashFold(CdbKind, 5381, []) == 5381 && HashFold(HdbKind, 0, []) == 0;
    assert XorByte(177573 % 256, 97) == 196;
    assert XorByte(0, 97) == 97;
  }

  // ---- the slot of an hdb hash ----

  lemma Back32(x: bv32)
    ensures (x as int) as bv32 == x
  {
  }

  lemma HdbHome(x: bv32)
    ensures Home(HdbKind, Int32(x)) == Shuffle(x) as int
  {
    hide Int32, Shuffle;
    Int32Is(x);
    Back32(x);
  }
}
