/** 64-bit words and the bit helpers of src/Utilities.cpp. */
module Utilities {
  datatype Option<+T> = None | Some(value: T)

  const WORD_MODULUS: int := 0x1_0000_0000_0000_0000

  /** A `uint64_t` as a number.  Bit operations work on its bits. */
  newtype Word = x: int | 0 <= x < 0x1_0000_0000_0000_0000

  function ToBits(x: Word): bv64 { x as bv64 }

  function OfBits(b: bv64): Word { b as Word }

  /** Wrap-around to 64 bits. */
  function Wrap(x: int): Word { (x % WORD_MODULUS) as Word }

  function Add(a: Word, b: Word): Word { Wrap(a as int + b as int) }

  /** The address behind an instruction: `pc + 4`. */
  function Next(pc: Word): Word { Wrap(pc as int + 4) }

  /** The value of `(int64_t)x`. */
  function Signed(x: Word): int {
    if x as int < WORD_MODULUS / 2 then x as int else x as int - WORD_MODULUS
  }

  /** Bits `hi` down to `lo` of `x`. */
  function ExtractBits(x: bv64, hi: bv64, lo: bv64): bv64
    requires lo <= hi < 32 && hi - lo < 31
  {
    (x >> lo) & ((1 << (hi - lo + 1)) - 1)
  }

  /** Sign extension of the low `signBit + 1` bits to 32 bits. */
  function Sext32(imm: bv32, signBit: bv32): bv32
    requires signBit < 31
  {
    if imm & (1 << signBit) != 0 then imm | (0xFFFF_FFFF << (signBit + 1)) else imm
  }

  /** Sign extension of the low `signBit + 1` bits to 64 bits. */
  function Sext64(imm: bv64, signBit: bv64): bv64
    requires signBit < 63
  {
    if imm & (1 << signBit) != 0 then imm | (0xFFFF_FFFF_FFFF_FFFF << (signBit + 1)) else imm
  }

  /** The signed comparison `(int64_t)a < (int64_t)b`. */
  predicate SignedLess(a: bv64, b: bv64) {
    (a ^ 0x8000_0000_0000_0000) < (b ^ 0x8000_0000_0000_0000)
  }

  /** The truncating cast `(uint32_t)x`. */
  function Low32(x: bv64): bv32 {
    (x & 0xFFFF_FFFF) as bv32
  }

  function Pow2(n: nat): (r: nat)
    ensures r > 0
  {
    if n == 0 then 1 else 2 * Pow2(n - 1)
  }

  function Bit(b: bool): nat { if b then 1 else 0 }

  lemma Distribute(k: int, x: int, y: int)
    ensures k * (x + y) == k * x + k * y
  {
  }

  lemma {:induction false} Multiples(d: nat, x: nat, y: nat)
    ensures x < y ==> d * x + d <= d * y
    decreases y
  {
    if x < y {
      assert d * y == d * (y - 1) + d;
      Multiples(d, x, y - 1);
    }
  }
}
