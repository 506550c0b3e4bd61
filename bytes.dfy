/** Fixed-width unsigned integers and their little-endian byte encodings. */
module Bytes {

  type u8 = x: int | 0 <= x < 0x100
  type u16 = x: int | 0 <= x < 0x1_0000
  type u32 = x: int | 0 <= x < 0x1_0000_0000
  type u64 = x: int | 0 <= x < 0x1_0000_0000_0000_0000

  const U32_MAX: u32 := 0xFFFF_FFFF

  /** Rust's `x as u32` on a wider unsigned value, and the wrapping result of
      `AtomicU32::fetch_add`: keep the low 32 bits. */
  function Wrap32(x: nat): (r: u32)
    ensures x <= U32_MAX ==> r == x
    ensures r == x % 0x1_0000_0000
  {
    x % 0x1_0000_0000
  }

  function Pow256(n: nat): (p: nat)
    ensures p >= 1
  {
    if n == 0 then 1 else 256 * Pow256(n - 1)
  }

  /** The `n` low-order bytes of `x`, least significant first. */
  function ToLe(x: nat, n: nat): (r: seq<u8>)
    ensures |r| == n
  {
    if n == 0 then [] else [x % 256] + ToLe(x / 256, n - 1)
  }

  /** The number whose little-endian encoding is `b`. */
  function FromLe(b: seq<u8>): (x: nat)
    ensures x < Pow256(|b|)
  {
    if b == [] then 0
    else
      var rest := FromLe(b[1..]);
      assert rest <= Pow256(|b| - 1) - 1;
      assert 256 * rest <= 256 * Pow256(|b| - 1) - 256;
      b[0] + 256 * rest
  }

  /** Decoding an encoding gives the number back when it fits in `n` bytes. */
  lemma {:induction false} FromLeToLe(x: nat, n: nat)
    requires x < Pow256(n)
    ensures FromLe(ToLe(x, n)) == x
  {
    if n > 0 {
      var q := x / 256;
      assert q < Pow256(n - 1) by {
        assert x < 256 * Pow256(n - 1);
      }
      FromLeToLe(q, n - 1);
      var r := ToLe(x, n);
      assert r[0] == x % 256 && r[1..] == ToLe(q, n - 1);
      assert FromLe(r) == x % 256 + 256 * q;
    }
  }

  /** Encoding a decoded byte string gives the bytes back. */
  lemma {:induction false} ToLeFromLe(b: seq<u8>)
    ensures ToLe(FromLe(b), |b|) == b
  {
    if b != [] {
      var rest := FromLe(b[1..]);
      var x := FromLe(b);
      assert x == b[0] + 256 * rest;
      assert x % 256 == b[0] && x / 256 == rest;
      ToLeFromLe(b[1..]);
      assert ToLe(x, |b|) == [b[0]] + b[1..];
    }
  }

  /** `u16::to_le_bytes`. */
  function U16ToLe(x: u16): (r: seq<u8>)
    ensures |r| == 2
  {
    ToLe(x, 2)
  }

  /** `u16::from_le_bytes`. */
  function U16FromLe(b: seq<u8>): (x: u16)
    requires |b| == 2
  {
    FromLe(b)
  }

  /** `u64::to_le_bytes`. */
  function U64ToLe(x: u64): (r: seq<u8>)
    ensures |r| == 8
  {
    ToLe(x, 8)
  }

  /** `u64::from_le_bytes`. */
  function U64FromLe(b: seq<u8>): (x: u64)
    requires |b| == 8
  {
    FromLe(b)
  }

  lemma U16RoundTrip(x: u16)
    ensures U16FromLe(U16ToLe(x)) == x
  {
    FromLeToLe(x, 2);
  }

  lemma U16Inverse(b: seq<u8>)
    requires |b| == 2
    ensures U16ToLe(U16FromLe(b)) == b
  {
    ToLeFromLe(b);
  }

  lemma U64RoundTrip(x: u64)
    ensures U64FromLe(U64ToLe(x)) == x
  {
    FromLeToLe(x, 8);
  }

  lemma U64Inverse(b: seq<u8>)
    requires |b| == 8
    ensures U64ToLe(U64FromLe(b)) == b
  {
    ToLeFromLe(b);
  }

  /** Rust's `dst[at..at + src.len()].copy_from_slice(src)`: overwrite a
      range of `dst` in place and leave every other byte alone. */
  method CopyFromSlice(dst: array<u8>, at: nat, src: seq<u8>)
    requires at + |src| <= dst.Length
    modifies dst
    ensures dst[..] == old(dst[..])[..at] + src + old(dst[..])[at + |src|..]
  {
    for i := 0 to |src|
      invariant forall k :: 0 <= k < at ==> dst[k] == old(dst[k])
      invariant forall k :: 0 <= k < i ==> dst[at + k] == src[k]
      invariant forall k :: at + i <= k < dst.Length ==> dst[k] == old(dst[k])
    {
      dst[at + i] := src[i];
    }
    assert dst[..] == old(dst[..])[..at] + src + old(dst[..])[at + |src|..];
  }
}
