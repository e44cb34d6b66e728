/**
 * Byte strings and the fixed-width machine integers of the searcher:
 * `u8`, `usize`/`u64` and the wrapping addition of `AtomicU64::fetch_add`.
 */
module Bytes {

  /** Rust's `u8`. */
  type byte = x: int | 0 <= x < 256

  /** 2^64: `usize` and `u64` are 64 bits wide on the targets the searcher runs on. */
  const WordModulus: nat := 0x1_0000_0000_0000_0000

  /** Rust's `u64` (and `usize`). */
  type Word = n: nat | n < WordModulus

  /** A 32-byte value: a SHA-256 digest, a chain code, a secp256k1 secret key. */
  type Bytes32 = s: seq<byte> | |s| == 32 witness seq(32, _ => 0)

  /** `fetch_add` on an `AtomicU64` wraps around on overflow. */
  function WrappingAdd(a: Word, b: Word): (r: Word)
    ensures a + b < WordModulus ==> r == a + b && r >= a
    ensures a + b >= WordModulus ==> r == a + b - WordModulus && r < a
  {
    (a + b) % WordModulus
  }

  /**
   * `dst[lo..lo + |src|].copy_from_slice(src)`: overwrites that range of
   * `dst` with `src` and leaves every other byte as it was.
   */
  method CopyFromSlice(dst: array<byte>, lo: nat, src: seq<byte>)
    requires lo + |src| <= dst.Length
    modifies dst
    ensures dst[..] == old(dst[..lo]) + src + old(dst[lo + |src|..])
  {
    var i := 0;
    while i < |src|
      invariant 0 <= i <= |src|
      invariant dst[..lo] == old(dst[..lo])
      invariant dst[lo..lo + i] == src[..i]
      invariant dst[lo + i..] == old(dst[lo + i..])
    {
      dst[lo + i] := src[i];
      i := i + 1;
      assert dst[lo..lo + i] == dst[lo..lo + i - 1] + [dst[lo + i - 1]];
    }
    assert dst[..] == dst[..lo] + dst[lo..lo + |src|] + dst[lo + |src|..];
  }
}
