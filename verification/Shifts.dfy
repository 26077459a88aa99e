/** The arithmetic shifts of 64 and of 32 bits, and that they agree on sign-extended operands. */
module Shifts {
  /** The arithmetic shift `(int64_t)x >> n`. */
  function ShiftRightArith64(x: bv64, n: bv64): bv64
    requires n < 64
  {
    if x & 0x8000_0000_0000_0000 != 0 then !((!x) >> n) else x >> n
  }

  /** The arithmetic shift `(int32_t)x >> n`. */
  function ShiftRightArith32(x: bv32, n: bv32): bv32
    requires n < 32
  {
    if x & 0x8000_0000 != 0 then !((!x) >> n) else x >> n
  }

  // The arithmetic shifts, on a negative and on a non-negative operand.  The results are parameters, so that each
  // fact is about one form of an expression.

  predicate Negative(x: bv32) { x & 0x8000_0000 != 0 }

  lemma ShiftsNegative32(x: bv32, n: bv32, r: bv32)
    requires n < 32 && Negative(x) && r == ShiftRightArith32(x, n)
    ensures r == !((!x) >> n)
  {
  }

  lemma ShiftKeepsSign(x: bv32, n: bv32, r: bv32)
    requires n < 32 && r == ShiftRightArith32(x, n)
    ensures Negative(r) <==> Negative(x)
  {
  }

  lemma ShiftsPositive32(x: bv32, n: bv32, r: bv32)
    requires n < 32 && !Negative(x) && r == ShiftRightArith32(x, n)
    ensures r == x >> n
  {
  }

  lemma ShiftsNegative64(x: bv32, n: bv32, y: bv64)
    requires n < 32 && Negative(x)
    requires y == ShiftRightArith64((x as bv64) | 0xFFFF_FFFF_0000_0000, n as bv64)
    ensures y == !((!((x as bv64) | 0xFFFF_FFFF_0000_0000)) >> (n as bv64))
  {
  }

  lemma ShiftsPositive64(x: bv32, n: bv32, y: bv64)
    requires n < 32 && !Negative(x) && y == ShiftRightArith64(x as bv64, n as bv64)
    ensures y == (x as bv64) >> (n as bv64)
  {
  }

  lemma NegativeBits(x: bv32, n: bv32, y: bv64, r: bv32)
    requires n < 32 && y == !((!((x as bv64) | 0xFFFF_FFFF_0000_0000)) >> (n as bv64)) && r == !((!x) >> n)
    ensures y == (r as bv64) | 0xFFFF_FFFF_0000_0000
  {
    hide *;
  }

  lemma PositiveBits(x: bv32, n: bv32, y: bv64, r: bv32)
    requires n < 32 && y == (x as bv64) >> (n as bv64) && r == x >> n
    ensures y == r as bv64
  {
    hide *;
  }

  lemma NegativeShift(x: bv32, n: bv32, y: bv64, r: bv32)
    requires n < 32 && Negative(x)
    requires y == ShiftRightArith64((x as bv64) | 0xFFFF_FFFF_0000_0000, n as bv64) && r == ShiftRightArith32(x, n)
    ensures y == (r as bv64) | 0xFFFF_FFFF_0000_0000
  {
    hide *;
    ShiftsNegative64(x, n, y);
    ShiftsNegative32(x, n, r);
    NegativeBits(x, n, y, r);
  }

  lemma PositiveShift(x: bv32, n: bv32, y: bv64, r: bv32)
    requires n < 32 && !Negative(x)
    requires y == ShiftRightArith64(x as bv64, n as bv64) && r == ShiftRightArith32(x, n)
    ensures y == r as bv64
  {
    hide *;
    ShiftsPositive64(x, n, y);
    ShiftsPositive32(x, n, r);
    PositiveBits(x, n, y, r);
  }
}
