/** Base64: the bit accumulator of lasagna/tx64 against section 4 of RFC 4648, and back. */
module Tx64 {
  import opened Bytes

  type sextet = x: int | 0 <= x < 64

  // ---- section 4 of RFC 4648 ----

  /** Three bytes are four sextets; what is left over is filled up with zero bits. */
  function Sextets(src: seq<byte>): (r: seq<sextet>)
    ensures |r| == |src| / 3 * 4 + (if |src| % 3 == 0 then 0 else |src| % 3 + 1)
  {
    if |src| == 0 then [] else
      var a := src[0] as int;
      if |src| == 1 then [a / 4, a % 4 * 16] else
        var b := src[1] as int;
        if |src| == 2 then [a / 4, a % 4 * 16 + b / 16, b % 16 * 4] else
          var c := src[2] as int;
          [a / 4, a % 4 * 16 + b / 16, b % 16 * 4 + c / 64, c % 64] + Sextets(src[3..])
  }

  /** Characters that fill the last group. */
  function Padding(len: nat): (n: nat) {
    (3 - len % 3) % 3
  }

  function Letters(ss: seq<sextet>, vec: seq<char>): (t: string)
    requires |vec| >= 64
    ensures |t| == |ss|
  {
    seq(|ss|, i requires 0 <= i < |ss| => vec[ss[i]])
  }

  function Encoded(src: seq<byte>, vec: seq<char>, pad: bool): (t: string)
    requires |vec| >= 65
  {
    Letters(Sextets(src), vec) + if pad then seq(Padding(|src|), _ => vec[64]) else []
  }

  /** The size reported for a null destination. */
  function SizeNeeded(len: nat, pad: bool): (n: nat) {
    if pad then (len + 2) / 3 * 4 else len / 3 * 4 + (len % 3 * 4 + 2) / 3
  }

  // ---- sextets by position ----

  /** Byte i, or zero past the end. */
  function ByteAt(src: seq<byte>, i: nat): int {
    if i < |src| then src[i] as int else 0
  }

  /** Sextet k of the bits of the source. */
  function SextetAt(src: seq<byte>, k: nat): (s: sextet) {
    var a, b, c := ByteAt(src, k / 4 * 3), ByteAt(src, k / 4 * 3 + 1), ByteAt(src, k / 4 * 3 + 2);
    if k % 4 == 0 then a / 4
    else if k % 4 == 1 then a % 4 * 16 + b / 16
    else if k % 4 == 2 then b % 16 * 4 + c / 64
    else c % 64
  }

  lemma SextetLater(src: seq<byte>, k: nat)
    requires |src| >= 3 && k >= 4
    ensures SextetAt(src, k) == SextetAt(src[3..], k - 4)
  {
    var i, j := k / 4 * 3, (k - 4) / 4 * 3;
    assert i == j + 3 && k % 4 == (k - 4) % 4;
    assert ByteAt(src, i) == ByteAt(src[3..], j) && ByteAt(src, i + 1) == ByteAt(src[3..], j + 1)
           && ByteAt(src, i + 2) == ByteAt(src[3..], j + 2);
  }

  lemma {:induction false} SextetsByPosition(src: seq<byte>, k: nat)
    requires k < |Sextets(src)|
    ensures Sextets(src)[k] == SextetAt(src, k)
    decreases |src|
  {
    if |src| >= 3 && k >= 4 {
      SextetLater(src, k);
      SextetsByPosition(src[3..], k - 4);
    }
  }

  // ---- the accumulator ----

  function Pow2(n: nat): (r: nat)
    ensures r > 0
  {
    if n == 0 then 1 else 2 * Pow2(n - 1)
  }

  lemma Powers()
    ensures Pow2(0) == 1 && Pow2(2) == 4 && Pow2(4) == 16 && Pow2(6) == 64 && Pow2(8) == 256
  {
    assert Pow2(1) == 2 && Pow2(3) == 8 && Pow2(5) == 32 && Pow2(7) == 128;
  }

  /** The accumulator after byte i: its low bytes are that byte and the one before. */
  ghost predicate Holds(src: seq<byte>, i: nat, temp: nat) {
    i < |src| && temp % 256 == src[i] as int && (i > 0 ==> temp / 256 % 256 == src[i - 1] as int)
  }

  lemma ShiftIn(src: seq<byte>, i: nat, temp: nat)
    requires i < |src| && (i > 0 ==> Holds(src, i - 1, temp))
    ensures Holds(src, i, Wrap32(temp * 256 + (src[i] as int)))
  {
    var x := src[i] as int;
    var t := temp * 256 + x;
    var u := Wrap32(t);
    assert t % 256 == x && t / 256 == temp;
    assert u % 256 == t % 256 && u / 256 % 256 == t / 256 % 256;
  }

  /** The cursors at one emission: position in the source, position in the output, bits at hand. */
  lemma Positions(i: nat, w: nat, bits: nat)
    requires bits + 6 * w == 8 * (i + 1) && 6 < bits <= 14
    ensures (bits == 8 && w % 4 == 0 && i == w / 4 * 3) || (bits == 10 && w % 4 == 1 && i == w / 4 * 3 + 1)
            || (bits == 12 && w % 4 == 2 && i == w / 4 * 3 + 2) || (bits == 14 && w % 4 == 3 && i == w / 4 * 3 + 3)
  {
    var g := w / 4;
    assert w == 4 * g + w % 4;
  }

  lemma EmitRight(src: seq<byte>, i: nat, w: nat, bits: nat, temp: nat)
    requires Holds(src, i, temp) && bits + 6 * w == 8 * (i + 1) && 6 < bits <= 14
    ensures temp / Pow2(bits - 6) % 64 == SextetAt(src, w)
  {
    Positions(i, w, bits);
    Powers();
    hide Pow2;
    LowBits(temp);
  }

  lemma LowBits(t: nat)
    ensures t / 4 % 64 == t % 256 / 4 && t / 16 % 64 == t / 256 % 256 % 4 * 16 + t % 256 / 16
    ensures t / 64 % 64 == t / 256 % 256 % 16 * 4 + t % 256 / 64 && t / 256 % 64 == t / 256 % 256 % 64
  {
    var q, x := t / 256, t % 256;
    SmallMods(q);
    Digits4(q, x);
    Digits16(q, x);
    Digits64(q, x);
  }

  lemma SmallMods(q: nat)
    ensures q % 256 % 4 == q % 4 && q % 256 % 16 == q % 16 && q % 256 % 64 == q % 64
  {
    Mod4(q);
    Mod16(q);
    Mod64(q);
  }

  lemma Residue4(a: nat, r: nat)
    requires r < 4
    ensures (4 * a + r) % 4 == r && (4 * a + r) / 4 == a
  {
  }

  lemma Residue16(a: nat, r: nat)
    requires r < 16
    ensures (16 * a + r) % 16 == r && (16 * a + r) / 16 == a
  {
  }

  lemma Residue64(a: nat, r: nat)
    requires r < 64
    ensures (64 * a + r) % 64 == r && (64 * a + r) / 64 == a
  {
  }

  lemma Mod4(q: nat)
    ensures q % 256 % 4 == q % 4
  {
    var h, y := q / 256, q % 256;
    Residue4(64 * h + y / 4, y % 4);
  }

  lemma Mod16(q: nat)
    ensures q % 256 % 16 == q % 16
  {
    var h, y := q / 256, q % 256;
    Residue16(16 * h + y / 16, y % 16);
  }

  lemma Mod64(q: nat)
    ensures q % 256 % 64 == q % 64
  {
    var h, y := q / 256, q % 256;
    Residue64(4 * h + y / 64, y % 64);
  }

  lemma Digits4(q: nat, x: nat)
    requires x < 256
    ensures (256 * q + x) / 4 % 64 == x / 4
  {
    Residue4(64 * q + x / 4, x % 4);
    Residue64(q, x / 4);
  }

  lemma Digits16(q: nat, x: nat)
    requires x < 256
    ensures (256 * q + x) / 16 % 64 == q % 4 * 16 + x / 16
  {
    Residue16(64 * (q / 4) + 16 * (q % 4) + x / 16, x % 16);
    Residue64(q / 4, 16 * (q % 4) + x / 16);
  }

  lemma Digits64(q: nat, x: nat)
    requires x < 256
    ensures (256 * q + x) / 64 % 64 == q % 16 * 4 + x / 64
  {
    Residue64(64 * (q / 16) + 4 * (q % 16) + x / 64, x % 64);
    Residue64(q / 16, 4 * (q % 16) + x / 64);
  }

  lemma LastRight(src: seq<byte>, w: nat, bits: nat, temp: nat)
    requires src != [] && Holds(src, |src| - 1, temp) && bits + 6 * w == 8 * |src| && 0 < bits <= 6
    ensures Wrap32(temp * Pow2(6 - bits)) % 64 == SextetAt(src, w) && w + 1 == |Sextets(src)|
  {
    var n := |src|;
    var g := w / 4;
    assert w == 4 * g + w % 4;
    assert (bits == 2 && w % 4 == 1 && n == 3 * g + 1) || (bits == 4 && w % 4 == 2 && n == 3 * g + 2)
           || (bits == 6 && w % 4 == 3 && n == 3 * g + 3);
    hide Sextets;
    Powers();
    hide Pow2;
    LastBits(temp);
  }

  lemma LastBits(t: nat)
    ensures Wrap32(t * 16) % 64 == t % 256 % 4 * 16 && Wrap32(t * 4) % 64 == t % 256 % 16 * 4
    ensures Wrap32(t * 1) % 64 == t % 256 % 64
  {
    hide Wrap32;
    WrapLow(t * 16);
    WrapLow(t * 4);
    WrapLow(t * 1);
    Mod4(t);
    Mod16(t);
    Mod64(t);
    Times16(t);
    Times4(t);
  }

  lemma Times16(t: nat)
    ensures t * 16 % 64 == t % 4 * 16
  {
    assert t * 16 == 64 * (t / 4) + t % 4 * 16;
  }

  lemma Times4(t: nat)
    ensures t * 4 % 64 == t % 16 * 4
  {
    assert t * 4 == 64 * (t / 16) + t % 16 * 4;
  }

  lemma WrapLow(x: nat)
    ensures Wrap32(x) % 64 == x % 64
  {
    var a, b := x / U32_LIMIT, x % U32_LIMIT;
    assert x == 64 * (0x400_0000 * a) + b;
  }

  /** The letters of the source, without padding. */
  method Accumulate(dest: array<char>, src: seq<byte>, vec: seq<char>) returns (w: nat)
    requires |vec| >= 64 && |Sextets(src)| <= dest.Length
    modifies dest
    ensures w == |Sextets(src)| && dest[..w] == Letters(Sextets(src), vec)
    ensures dest[w..] == old(dest[w..])
  {
    hide SextetAt, Sextets, Holds, Pow2, Wrap32, Letters;
    w := 0;
    var bits: nat, temp: u32 := 0, 0;
    var i := 0;
    while i < |src|
      invariant i <= |src| && bits + 6 * w == 8 * i && bits <= 6 && (i > 0 ==> bits > 0 && Holds(src, i - 1, temp))
      invariant forall k :: 0 <= k < w ==> dest[k] == vec[SextetAt(src, k)]
      invariant forall k :: w <= k < dest.Length ==> dest[k] == old(dest[k])
    {
      ShiftIn(src, i, temp);
      var t: nat := temp;
      temp := Wrap32(t * 256 + (src[i] as int));
      bits := bits + 8;
      while bits > 6
        invariant i < |src| && bits + 6 * w == 8 * (i + 1) && 0 < bits <= 14 && Holds(src, i, temp)
        invariant forall k :: 0 <= k < w ==> dest[k] == vec[SextetAt(src, k)]
        invariant forall k :: w <= k < dest.Length ==> dest[k] == old(dest[k])
      {
        EmitRight(src, i, w, bits, temp);
        RoomLeft(src, i, w, bits);
        dest[w] := vec[(temp as int) / Pow2(bits - 6) % 64];
        w := w + 1;
        bits := bits - 6;
      }
      i := i + 1;
    }
    if bits > 0 {
      LastRight(src, w, bits, temp);
      dest[w] := vec[Wrap32((temp as int) * Pow2(6 - bits)) % 64];
      w := w + 1;
    }
    Written(src, vec, dest, w);
  }

  /** Fill an incomplete group of four. */
  method Fill(dest: array<char>, w: nat, fill: char) returns (w': nat)
    requires w <= (w + 3) / 4 * 4 <= dest.Length
    modifies dest
    ensures w' == (w + 3) / 4 * 4 && dest[..w'] == old(dest[..w]) + seq(w' - w, _ => fill)
    ensures dest[w'..] == old(dest[w'..])
  {
    ghost var end := (w + 3) / 4 * 4;
    w' := w;
    while w' % 4 != 0
      invariant w <= w' <= end && (w' < end ==> w' % 4 != 0)
      invariant dest[..w] == old(dest[..w])
      invariant forall k :: w <= k < w' ==> dest[k] == fill
      invariant forall k :: w' <= k < dest.Length ==> dest[k] == old(dest[k])
      decreases end - w'
    {
      dest[w'] := fill;
      w' := w' + 1;
    }
  }

  lemma Groups(len: nat, w: nat)
    requires w == len / 3 * 4 + (if len % 3 == 0 then 0 else len % 3 + 1)
    ensures (w + 3) / 4 * 4 == SizeNeeded(len, true) && (w + 3) / 4 * 4 - w == Padding(len)
    ensures w == SizeNeeded(len, false)
  {
    var g, r := len / 3, len % 3;
    if r == 0 {
      Third(g, 0, 2);
      Residue4(g, 3);
    } else if r == 1 {
      Third(g, 1, 0);
      Residue4(g + 1, 1);
    } else {
      Third(g, 1, 1);
      Residue4(g + 1, 2);
    }
  }

  /** Two more than a length, in threes. */
  lemma Third(g: nat, more: nat, r: nat)
    requires r < 3
    ensures (3 * (g + more) + r) / 3 == g + more
  {
  }

  /** The size reported for a null destination is the size written. */
  lemma SizeExact(src: seq<byte>, vec: seq<char>, pad: bool)
    requires |vec| >= 65
    ensures |Encoded(src, vec, pad)| == SizeNeeded(|src|, pad)
  {
    hide SizeNeeded, Padding, Letters;
    Groups(|src|, |Sextets(src)|);
  }

  /** tx64_encode into a destination. */
  method Encode(dest: array<char>, src: seq<byte>, vec: seq<char>, pad: bool) returns (w: nat)
    requires |vec| >= 65 && SizeNeeded(|src|, pad) <= dest.Length
    modifies dest
    ensures w == SizeNeeded(|src|, pad) && dest[..w] == Encoded(src, vec, pad)
    ensures dest[w..] == old(dest[w..])
  {
    hide Letters, SizeNeeded, Padding, Sextets;
    Groups(|src|, |Sextets(src)|);
    w := Accumulate(dest, src, vec);
    assert dest[..w] + [] == dest[..w];
    if !pad {
      return;
    }
    ghost var half, len := dest[..], w;
    w := Fill(dest, w, vec[64]);
    assert half[w..] == half[len..][w - len..] && old(dest[w..]) == old(dest[..])[len..][w - len..];
  }

  /** All sextets have been written. */
  lemma Written(src: seq<byte>, vec: seq<char>, dest: array<char>, w: nat)
    requires |vec| >= 64 && w == |Sextets(src)| <= dest.Length
    requires forall k :: 0 <= k < w ==> dest[k] == vec[SextetAt(src, k)]
    ensures dest[..w] == Letters(Sextets(src), vec)
  {
    hide Sextets, SextetAt;
    forall k | 0 <= k < w
      ensures dest[k] == vec[Sextets(src)[k]]
    {
      SextetsByPosition(src, k);
    }
  }

  lemma RoomLeft(src: seq<byte>, i: nat, w: nat, bits: nat)
    requires i < |src| && bits + 6 * w == 8 * (i + 1) && 6 < bits <= 14
    ensures w < |Sextets(src)|
  {
    Positions(i, w, bits);
  }

  // ---- and back ----

  /** The bytes of a row of sextets, by the same section. */
  function Unsextets(ss: seq<sextet>): (src: seq<int>) {
    if |ss| < 2 then [] else
      var a := (ss[0] as int) * 4 + (ss[1] as int) / 16;
      if |ss| == 2 then [a] else
        var b := (ss[1] as int) % 16 * 16 + (ss[2] as int) / 4;
        if |ss| == 3 then [a, b] else
          [a, b, (ss[2] as int) % 4 * 64 + (ss[3] as int)] + Unsextets(ss[4..])
  }

  lemma Triple(a: int, b: int, c: int)
    requires 0 <= a < 256 && 0 <= b < 256 && 0 <= c < 256
    ensures a / 4 * 4 + (a % 4 * 16 + b / 16) / 16 == a
    ensures (a % 4 * 16 + b / 16) % 16 * 16 + (b % 16 * 4 + c / 64) / 4 == b
    ensures (b % 16 * 4 + c / 64) % 4 * 64 + c % 64 == c
  {
  }

  lemma OneByte(a: int)
    requires 0 <= a < 256
    ensures Unsextets([a / 4, a % 4 * 16]) == [a]
  {
    Triple(a, 0, 0);
  }

  lemma TwoBytes(a: int, b: int)
    requires 0 <= a < 256 && 0 <= b < 256
    ensures Unsextets([a / 4, a % 4 * 16 + b / 16, b % 16 * 4]) == [a, b]
  {
    Triple(a, b, 0);
  }

  /** Fewer than three bytes. */
  lemma ShortRoundTrip(src: seq<byte>)
    requires |src| < 3
    ensures Unsextets(Sextets(src)) == src
  {
    hide Unsextets;
    if |src| == 0 {
      Nothing();
    } else if |src| == 1 {
      OneByte(src[0]);
    } else {
      TwoBytes(src[0], src[1]);
    }
  }

  lemma Nothing()
    ensures Unsextets([]) == []
  {
  }

  function Group(a: int, b: int, c: int): (g: seq<sextet>)
    requires 0 <= a < 256 && 0 <= b < 256 && 0 <= c < 256
    ensures |g| == 4
  {
    [a / 4, a % 4 * 16 + b / 16, b % 16 * 4 + c / 64, c % 64]
  }

  lemma SextetsGroup(src: seq<byte>)
    requires |src| >= 3
    ensures Sextets(src) == Group(src[0], src[1], src[2]) + Sextets(src[3..])
  {
  }

  lemma UnsextetsGroup(a: int, b: int, c: int, rest: seq<sextet>)
    requires 0 <= a < 256 && 0 <= b < 256 && 0 <= c < 256
    ensures Unsextets(Group(a, b, c) + rest) == [a, b, c] + Unsextets(rest)
  {
    Triple(a, b, c);
    assert (Group(a, b, c) + rest)[4..] == rest;
  }

  lemma {:induction false} SextetsRoundTrip(src: seq<byte>)
    ensures Unsextets(Sextets(src)) == src
  {
    hide Sextets, Unsextets, Group;
    if |src| < 3 {
      ShortRoundTrip(src);
    } else {
      SextetsRoundTrip(src[3..]);
      SextetsGroup(src);
      UnsextetsGroup(src[0], src[1], src[2], Sextets(src[3..]));
      assert src == [src[0], src[1], src[2]] + src[3..];
    }
  }

  /** Position of a character in the vector. */
  function Index(vec: seq<char>, c: char): (i: nat)
    ensures i <= |vec|
    ensures i < |vec| ==> vec[i] == c
  {
    if vec == [] then 0 else if vec[0] == c then 0 else 1 + Index(vec[1..], c)
  }

  lemma {:induction false} IndexFound(vec: seq<char>, i: nat)
    requires i < |vec| && forall j, k :: 0 <= j < k < |vec| ==> vec[j] != vec[k]
    ensures Index(vec, vec[i]) == i
  {
    if i > 0 {
      assert vec[0] != vec[i];
      IndexFound(vec[1..], i - 1);
    }
  }

  /** The letters of a text: what is left without padding characters at its end. */
  function Unpadded(t: string, fill: char): (r: string) {
    if t != "" && t[|t| - 1] == fill then Unpadded(t[..|t| - 1], fill) else t
  }

  lemma {:induction false} UnpaddedLetters(t: string, fill: char, n: nat)
    requires fill !in t
    ensures Unpadded(t + seq(n, _ => fill), fill) == t
  {
    var u := t + seq(n, _ => fill);
    if n == 0 {
      assert u == t;
    } else {
      assert u[..|u| - 1] == t + seq(n - 1, _ => fill);
      UnpaddedLetters(t, fill, n - 1);
    }
  }

  /** The sextet of a letter; characters outside the vector do not occur in an encoding. */
  function SextetOf(vec: seq<char>, c: char): sextet {
    if Index(vec, c) < 64 then Index(vec, c) else 0
  }

  function Decoded(t: string, vec: seq<char>): (src: seq<int>)
    requires |vec| == 65
  {
    var letters := Unpadded(t, vec[64]);
    Unsextets(seq(|letters|, i requires 0 <= i < |letters| => SextetOf(vec, letters[i])))
  }

  /** With distinct characters in the vector, decoding an encoding gives back the source, padded or not. */
  lemma EncodedDecodes(src: seq<byte>, vec: seq<char>, pad: bool)
    requires |vec| == 65 && forall j, k :: 0 <= j < k < 65 ==> vec[j] != vec[k]
    ensures Decoded(Encoded(src, vec, pad), vec) == src
  {
    hide Sextets, Unsextets, Index;
    var ss := Sextets(src);
    var letters := Letters(ss, vec);
    assert vec[64] !in letters;
    UnpaddedLetters(letters, vec[64], if pad then Padding(|src|) else 0);
    assert letters + seq(0, _ => vec[64]) == letters && letters + [] == letters;
    assert Unpadded(Encoded(src, vec, pad), vec[64]) == letters;
    forall i | 0 <= i < |ss|
      ensures SextetOf(vec, letters[i]) == ss[i]
    {
      IndexFound(vec, ss[i]);
    }
    assert seq(|letters|, i requires 0 <= i < |letters| => SextetOf(vec, letters[i])) == ss;
    SextetsRoundTrip(src);
  }
}
