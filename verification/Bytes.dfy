/** Byte strings and big-endian integers, as `DataView` reads and writes them. */
module Bytes {
  type byte = b: int | 0 <= b < 256

  type Bytes = seq<byte>

  function Pow256(w: nat): (p: nat)
    ensures p >= 1
  {
    if w == 0 then 1 else 256 * Pow256(w - 1)
  }

  /** The bytes of message content in one encrypted chunk. */
  const CHUNK_LEN: nat := 61912

  const MAX_U64: nat := 0xFFFF_FFFF_FFFF_FFFF

  /** `n` in `w` bytes, most significant first. */
  function BE(n: nat, w: nat): (s: Bytes)
    ensures |s| == w
  {
    if w == 0 then [] else BE(n / 256, w - 1) + [n % 256]
  }

  function FromBE(s: Bytes): nat {
    if s == [] then 0 else 256 * FromBE(s[..|s| - 1]) + s[|s| - 1]
  }

  lemma {:induction false} FromBERange(s: Bytes)
    ensures FromBE(s) < Pow256(|s|)
  {
    if s != [] { FromBERange(s[..|s| - 1]); }
  }

  /** Writing and reading back a number that fits. */
  lemma {:induction false} ReadWrite(n: nat, w: nat)
    requires n < Pow256(w)
    ensures FromBE(BE(n, w)) == n
  {
    if w != 0 {
      ReadWrite(n / 256, w - 1);
      assert BE(n, w)[..w - 1] == BE(n / 256, w - 1);
    }
  }

  /** Every byte string is the encoding of the number it reads as. */
  lemma {:induction false} WriteRead(s: Bytes)
    ensures BE(FromBE(s), |s|) == s
  {
    if s != [] {
      WriteRead(s[..|s| - 1]);
      assert s == s[..|s| - 1] + [s[|s| - 1]];
    }
  }

  /** The first byte is the most significant one. */
  lemma {:induction false} FirstIsMost(s: Bytes)
    requires s != []
    ensures FromBE(s) == s[0] * Pow256(|s| - 1) + FromBE(s[1..])
  {
    if |s| > 1 {
      var rest := s[..|s| - 1];
      FirstIsMost(rest);
      assert s[1..][..|s| - 2] == rest[1..];
      MoveFactor(s[0], Pow256(|s| - 2));
    }
  }

  lemma MoveFactor(a: nat, p: nat)
    ensures 256 * (a * p) == a * (256 * p)
  {}

  lemma U64Range()
    ensures Pow256(8) == MAX_U64 + 1
  {
    assert Pow256(4) == 0x1_0000_0000;
  }
}
