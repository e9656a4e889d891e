/**
 * Bit-level vocabulary shared by the decoder and the dispatcher: single
 * bits of a 32-bit word, the BITS(x, hi, lo) field extraction and the
 * SEXT(x, len) sign extension, both as they behave once the result is
 * stored back into a 32-bit `word_t`.
 */
module Bits {

  /** Bit `k` of `w` (bit 0 is the least significant one). */
  function Bit(w: bv32, k: bv5): bool {
    (w >> k) & 1 == 1
  }

  /** The word whose low `n` bits are set and whose other bits are clear. */
  function LowOnes(n: nat): bv32
    requires 1 <= n <= 32
  {
    if n == 32 then 0xFFFF_FFFF else (1 << n) - 1
  }

  /** BITS(x, hi, lo): bits hi..lo of `x`, moved down to bit 0. */
  function Field(x: bv32, hi: nat, lo: nat): bv32
    requires lo <= hi < 32
  {
    (x >> lo) & LowOnes(hi - lo + 1)
  }

  /**
   * SEXT(x, len) truncated to 32 bits: the low `len` bits of `x` read as a
   * signed number. Flipping the sign bit and subtracting its weight copies
   * bit len-1 into every higher bit.
   */
  function Sext(x: bv32, len: nat): bv32
    requires 1 <= len <= 32
  {
    if len == 32 then x
    else
      var sign: bv32 := 1 << (len - 1);
      ((x & LowOnes(len)) ^ sign) - sign
  }

  lemma AndBit(a: bv32, b: bv32, k: bv5)
    ensures Bit(a & b, k) == (Bit(a, k) && Bit(b, k))
  {}

  /** Two words that agree on every bit are equal. */
  lemma Extensionality(a: bv32, b: bv32)
    requires forall k: bv5 :: Bit(a, k) == Bit(b, k)
    ensures a == b
  {
    if a != b {
      var k := Differ(a, b);
    }
  }

  /** Two different words differ in some bit. */
  lemma Differ(a: bv32, b: bv32) returns (k: bv5)
    requires a != b
    ensures Bit(a, k) != Bit(b, k)
  {
    k := LowestSet(a ^ b);
    XorBit(a, b, k);
  }

  lemma XorBit(a: bv32, b: bv32, k: bv5)
    requires Bit(a ^ b, k)
    ensures Bit(a, k) != Bit(b, k)
  {}

  /** The position of the least significant set bit of `d`. */
  function LowestSet(d: bv32): (k: bv5)
    requires d != 0
    ensures Bit(d, k)
  {
    if d & 0xFFFF != 0 then LowestSet16(d) else LowestSet16(d >> 16) + 16
  }

  function LowestSet16(d: bv32): (k: bv5)
    requires d & 0xFFFF != 0
    ensures k < 16 && Bit(d, k)
  {
    if d & 0xFF != 0 then LowestSet8(d) else LowestSet8(d >> 8) + 8
  }

  function LowestSet8(d: bv32): (k: bv5)
    requires d & 0xFF != 0
    ensures k < 8 && Bit(d, k)
  {
    if d & 0xF != 0 then LowestSet4(d) else LowestSet4(d >> 4) + 4
  }

  function LowestSet4(d: bv32): (k: bv5)
    requires d & 0xF != 0
    ensures k < 4 && Bit(d, k)
  {
    if d & 1 != 0 then 0 else if d & 2 != 0 then 1 else if d & 4 != 0 then 2 else 3
  }
}
