/** Little-endian integers and zero padding, as every on-disk format of the repository uses them. */
module Bytes {
  import opened Common

  /** The `k`-byte little-endian image of `n`. */
  function LE(n: nat, k: nat): (b: bytes)
    ensures |b| == k
    decreases n, k
  {
    if k == 0 then [] else [n % 256] + LE(n / 256, k - 1)
  }

  function FromLE(b: bytes): (n: nat)
    decreases b
  {
    if |b| == 0 then 0 else b[0] + 256 * FromLE(b[1..])
  }

  function Pow256(k: nat): (p: nat)
    ensures p > 0
  {
    if k == 0 then 1 else 256 * Pow256(k - 1)
  }

  lemma {:induction false} DecodeEncode(n: nat, k: nat)
    requires n < Pow256(k)
    ensures FromLE(LE(n, k)) == n
    decreases k
  {
    if k > 0 {
      DecodeEncode(n / 256, k - 1);
      assert LE(n, k)[1..] == LE(n / 256, k - 1);
    }
  }

  lemma {:induction false} EncodeDecode(b: bytes)
    ensures FromLE(b) < Pow256(|b|)
    ensures LE(FromLE(b), |b|) == b
    decreases b
  {
    if |b| > 0 {
      EncodeDecode(b[1..]);
      var n := FromLE(b);
      assert n % 256 == b[0] && n / 256 == FromLE(b[1..]);
      assert b == [b[0]] + b[1..];
    }
  }

  lemma Widths()
    ensures Pow256(2) == U16_MAX + 1 && Pow256(4) == U32_MAX + 1 && Pow256(8) == U64_MAX + 1
  {
    assert Pow256(1) == 256;
    assert Pow256(2) == 0x1_0000;
    assert Pow256(3) == 0x100_0000;
    assert Pow256(4) == 0x1_0000_0000;
    assert Pow256(5) == 0x100_0000_0000;
    assert Pow256(6) == 0x1_0000_0000_0000;
    assert Pow256(7) == 0x100_0000_0000_0000;
  }

  // The three widths in use. A value and its image determine each other.

  function U16(x: u16): (b: bytes) ensures |b| == 2 { LE(x, 2) }
  function U32(x: u32): (b: bytes) ensures |b| == 4 { LE(x, 4) }
  function U64(x: u64): (b: bytes) ensures |b| == 8 { LE(x, 8) }

  function GetU16(b: bytes): (x: u16)
    requires |b| == 2
    ensures U16(x) == b
  {
    Widths(); EncodeDecode(b); FromLE(b)
  }

  function GetU32(b: bytes): (x: u32)
    requires |b| == 4
    ensures U32(x) == b
  {
    Widths(); EncodeDecode(b); FromLE(b)
  }

  function GetU64(b: bytes): (x: u64)
    requires |b| == 8
    ensures U64(x) == b
  {
    Widths(); EncodeDecode(b); FromLE(b)
  }

  lemma U16RoundTrip(x: u16)
    ensures GetU16(U16(x)) == x
  {
    Widths(); DecodeEncode(x, 2);
  }

  lemma U32RoundTrip(x: u32)
    ensures GetU32(U32(x)) == x
  {
    Widths(); DecodeEncode(x, 4);
  }

  lemma U64RoundTrip(x: u64)
    ensures GetU64(U64(x)) == x
  {
    Widths(); DecodeEncode(x, 8);
  }

  function Zeros(n: nat): (z: bytes)
    ensures |z| == n && forall i :: 0 <= i < n ==> z[i] == 0
  {
    seq(n, _ => 0)
  }

  predicate AllZero(b: bytes)
  {
    forall i :: 0 <= i < |b| ==> b[i] == 0
  }

  lemma AllZeroIsZeros(b: bytes)
    requires AllZero(b)
    ensures b == Zeros(|b|)
  {}

  /** What follows a prefix. */
  lemma AfterPrefix(p: bytes, x: bytes, b: bytes)
    requires p <= b
    ensures p + x <= b <==> x <= b[|p|..]
  {
    assert b == p + b[|p|..];
    if p + x <= b { assert (p + x)[|p|..] == x; }
  }

  /** Two ways to split the same bytes at the same place. */
  lemma SplitAt(a: bytes, b: bytes, c: bytes, d: bytes)
    requires a + b == c + d && |a| == |c|
    ensures a == c && b == d
  {
    assert a == (a + b)[..|a|] && c == (c + d)[..|c|];
    assert b == (a + b)[|a|..] && d == (c + d)[|c|..];
  }

  lemma Associate(a: bytes, b: bytes, c: bytes)
    ensures (a + b) + c == a + (b + c)
  {}

  /** A prefix has the slices of the whole. */
  lemma PrefixSlice(x: bytes, t: bytes, i: nat, j: nat)
    requires x <= t && i <= j <= |x|
    ensures t[i..j] == x[i..j]
  {}

  /** Padding to the next multiple of eight. */
  function PadLen(n: nat): (p: nat)
    ensures p < 8 && (n + p) % 8 == 0
  {
    (8 - n % 8) % 8
  }

  type Digest = d: bytes | |d| == 32 witness seq(32, _ => 0)

  /** A 32-byte hash; nothing is assumed of it but that it is a function. */
  type Hash = bytes -> Digest

  /** Two byte strings with the same hash. */
  predicate Collides(h: Hash, x: bytes, y: bytes)
  {
    x != y && h(x) == h(y)
  }
}
