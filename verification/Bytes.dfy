/** Bytes and fixed-width unsigned integers, with the little-endian codec of lasagna/upak
    and the overflow-checked addition of lasagna/ufunc. */
module Bytes {
  type byte = x: int | 0 <= x < 256
  type u32 = x: int | 0 <= x < 0x1_0000_0000

  const U32_LIMIT: int := 0x1_0000_0000

  /** C's unsigned 32-bit wrap-around. */
  function Wrap32(x: int): (u: u32) {
    x % U32_LIMIT
  }

  /** 32-bit product. */
  function Times32(u: u32, k: int): (r: u32) {
    Wrap32((u as int) * k)
  }

  lemma WrapSmall(x: nat)
    ensures x < U32_LIMIT ==> Wrap32(x) == x
  {
  }

  /** Least significant byte first. */
  function Pack32(u: u32): (b: seq<byte>)
    ensures |b| == 4
  {
    var u1 := u / 256;
    var u2 := u1 / 256;
    var u3 := u2 / 256;
    [u % 256, u1 % 256, u2 % 256, u3]
  }

  function Unpack32(b: seq<byte>): (u: u32)
    requires |b| == 4
  {
    var b0: int, b1: int, b2: int, b3: int := b[0], b[1], b[2], b[3];
    ((b3 * 256 + b2) * 256 + b1) * 256 + b0
  }

  lemma PackUnpack32(u: u32)
    ensures Unpack32(Pack32(u)) == u
  {
  }

  lemma UnpackPack32(b: seq<byte>)
    requires |b| == 4
    ensures Pack32(Unpack32(b)) == b
  {
    var b0: int, b1: int, b2: int, b3: int := b[0], b[1], b[2], b[3];
    var u := Unpack32(b);
    var u1 := u / 256;
    assert u1 == (b3 * 256 + b2) * 256 + b1;
    var u2 := u1 / 256;
    assert u2 == b3 * 256 + b2;
    assert u2 / 256 == b3;
  }

  /** The unpacked number, byte by byte. */
  lemma LittleEndian32(b: seq<byte>)
    requires |b| == 4
    ensures Unpack32(b) == (b[0] as int) + 0x100 * (b[1] as int) + 0x1_0000 * (b[2] as int) + 0x100_0000 * (b[3] as int)
  {
  }

  const U24_LIMIT: nat := 0x100_0000

  /** Three bytes, least significant first. */
  function Pack24(u: nat): (b: seq<byte>)
    requires u < U24_LIMIT
    ensures |b| == 3
  {
    [u % 256, u / 256 % 256, u / 65536]
  }

  function Unpack24(b: seq<byte>): (u: nat)
    requires |b| == 3
    ensures u < U24_LIMIT
  {
    (b[0] as int) + (b[1] as int) * 256 + (b[2] as int) * 65536
  }

  lemma LittleEndian24(b: seq<byte>)
    requires |b| == 3
    ensures Unpack24(b) == (b[0] as int) + 0x100 * (b[1] as int) + 0x1_0000 * (b[2] as int)
  {
  }

  lemma PackUnpack24(u: nat)
    requires u < U24_LIMIT
    ensures Unpack24(Pack24(u)) == u < U24_LIMIT
  {
    var v := u / 256;
    assert u / 65536 == v / 256;
    assert v == v / 256 * 256 + v % 256;
  }

  function Zeros(n: nat): (b: seq<byte>)
    ensures |b| == n
    ensures forall i :: 0 <= i < n ==> b[i] == 0
  {
    seq(n, _ => 0)
  }

  /** Add with the wrap test of ufunc_u32add: the sum is compared with the addend after wrapping. */
  method AddU32(u: u32, add: u32) returns (ok: bool, sum: u32)
    ensures ok <==> u + add < U32_LIMIT
    ensures sum == if ok then u + add else u
  {
    var wrapped := Wrap32(u + add);
    if wrapped < add {
      return false, u;
    }
    return true, wrapped;
  }

  // ---- slices of concatenations ----

  lemma SliceLeft<T>(a: seq<T>, b: seq<T>, lo: nat, hi: nat)
    requires lo <= hi <= |a|
    ensures (a + b)[lo..hi] == a[lo..hi]
  {
  }

  lemma SliceRight<T>(a: seq<T>, b: seq<T>, lo: nat, hi: nat)
    requires lo <= hi <= |b|
    ensures (a + b)[|a| + lo..|a| + hi] == b[lo..hi]
  {
  }

  lemma SliceSlice<T>(a: seq<T>, lo: nat, hi: nat, i: nat, j: nat)
    requires lo <= hi <= |a| && i <= j <= hi - lo
    ensures a[lo..hi][i..j] == a[lo + i..lo + j]
  {
    forall k | 0 <= k < j - i
      ensures a[lo..hi][i..j][k] == a[lo + i..lo + j][k]
    {
    }
  }

  lemma EqualBySplit<T>(a: seq<T>, b: seq<T>, n: nat)
    requires n <= |a| == |b|
    ensures a == b <==> a[..n] == b[..n] && a[n..] == b[n..]
  {
    if a[..n] == b[..n] && a[n..] == b[n..] {
      assert a == a[..n] + a[n..] && b == b[..n] + b[n..];
    }
  }
}
