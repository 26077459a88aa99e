/** The numbers that 64-bit words of bits denote: what addition, comparison, complement, shifts and masks do to them.
    The operations have names, so that proofs about numbers need not look at bits. */
module Numbers {
  import opened Utilities
  import opened Shifts

  function Inc(b: bv64): bv64 { b + 1 }
  function Half(b: bv64): bv64 { b >> 1 }
  predicate Odd(b: bv64) { b & 1 != 0 }
  const ONES: bv64 := 0xFFFF_FFFF_FFFF_FFFF

  // ---- one bit at a time -------------------------------------------------------------------------------------

  lemma Joined(h: bv63, l: bv1)
    ensures OfBits(((h as bv64) << 1) | (l as bv64)) as int == 2 * (h as int) + (l as int)
  {
  }

  lemma Widened(h: bv63)
    ensures OfBits(h as bv64) as int == h as int
  {
  }

  lemma BitNumber(l: bv1)
    ensures l as int == if l == 1 then 1 else 0
  {
  }

  lemma Parts(b: bv64, h: bv63, l: bv1)
    requires h == (b >> 1) as bv63 && l == (b & 1) as bv1
    ensures b == ((h as bv64) << 1) | (l as bv64) && Half(b) == h as bv64 && (l == 1 <==> Odd(b))
  {
  }

  lemma PartsNumber(b: bv64, h: bv63, l: bv1)
    requires b == ((h as bv64) << 1) | (l as bv64) && Half(b) == h as bv64 && (l == 1 <==> Odd(b))
    ensures OfBits(b) as int == 2 * (OfBits(Half(b)) as int) + (if Odd(b) then 1 else 0)
  {
    hide *;
    Joined(h, l);
    Widened(h);
    BitNumber(l);
  }

  /** The number is twice the upper bits plus the lowest bit. */
  lemma Halved(b: bv64)
    ensures OfBits(b) as int == 2 * (OfBits(Half(b)) as int) + (if Odd(b) then 1 else 0)
  {
    hide *;
    var h, l := (b >> 1) as bv63, (b & 1) as bv1;
    Parts(b, h, l);
    PartsNumber(b, h, l);
  }

  // ---- the successor -----------------------------------------------------------------------------------------

  lemma IncParts(b: bv64)
    requires b != ONES
    ensures !Odd(b) ==> Half(Inc(b)) == Half(b) && Odd(Inc(b))
    ensures Odd(b) ==> Half(Inc(b)) == Inc(Half(b)) && !Odd(Inc(b)) && Half(b) != ONES
  {
  }

  lemma {:induction false} IncNumber(b: bv64)
    requires b != ONES
    ensures OfBits(Inc(b)) as int == OfBits(b) as int + 1
    decreases OfBits(b) as int
  {
    hide *;
    IncParts(b);
    Halved(b); Halved(Inc(b));
    if Odd(b) { IncNumber(Half(b)); }
  }

  /** Bits that denote the same number are the same. */
  lemma BitsOfNumber(b: bv64)
    ensures ToBits(OfBits(b)) == b
  {
  }

  lemma OnesNumber()
    ensures OfBits(ONES) as int == 0xFFFF_FFFF_FFFF_FFFF
  {
  }

  lemma ZeroNumber()
    ensures OfBits(0) == 0 && ToBits(0) == 0
  {
  }

  /** The bits of a number denote it. */
  lemma {:induction false} NumberOfBits(x: Word)
    ensures OfBits(ToBits(x)) == x
    decreases x
  {
    hide *;
    ZeroNumber();
    if x > 0 {
      var c := ToBits(x - 1);
      NumberOfBits(x - 1);
      OnesNumber();
      IncNumber(c);
      BitsOfNumber(Inc(c));
    }
  }

  /** Bits are the same if the numbers are. */
  lemma SameNumber(a: bv64, b: bv64)
    ensures OfBits(a) == OfBits(b) ==> a == b
  {
    hide *;
    BitsOfNumber(a);
    BitsOfNumber(b);
  }

  // ---- sums and differences ----------------------------------------------------------------------------------

  function Plus(a: bv64, b: bv64): bv64 { a + b }
  function Minus(a: bv64, b: bv64): bv64 { a - b }
  function Not(a: bv64): bv64 { !a }

  function Pred(b: bv64): bv64 { b - 1 }

  lemma PlusDec(a: bv64, b: bv64)
    ensures Inc(Pred(b)) == b && Inc(Plus(a, Pred(b))) == Plus(a, b)
    ensures Plus(a, 0) == a && Inc(ONES) == 0 && (b != 0 ==> Pred(b) != ONES)
  {
  }

  /** Numbers modulo 2^64. */
  function Mod64(x: int): int { x % WORD_MODULUS }

  lemma ModInc(x: int)
    ensures 0 <= Mod64(x) < 0x1_0000_0000_0000_0000
    ensures 0 <= x < 0x1_0000_0000_0000_0000 ==> Mod64(x) == x
    ensures Mod64(x + 1) == if Mod64(x) == 0xFFFF_FFFF_FFFF_FFFF then 0 else Mod64(x) + 1
  {
  }

  /** Sums of bits are sums of numbers modulo 2^64. */
  lemma {:induction false} Sum(a: bv64, b: bv64)
    ensures OfBits(Plus(a, b)) as int == Mod64(OfBits(a) as int + OfBits(b) as int)
    decreases OfBits(b) as int
  {
    hide *;
    PlusDec(a, b);
    ZeroNumber(); OnesNumber();
    SameNumber(b, 0);
    if OfBits(b) == 0 {
      ModInc(OfBits(a) as int);
    } else {
      var c, d := Pred(b), Plus(a, Pred(b));
      IncNumber(c);
      Sum(a, c);
      ModInc(OfBits(a) as int + OfBits(c) as int);
      if d == ONES { } else { IncNumber(d); SameNumber(d, ONES); }
    }
  }

  lemma MinusPlus(a: bv64, b: bv64)
    ensures Plus(Minus(a, b), b) == a && Plus(a, Not(a)) == ONES
  {
  }

  lemma ModOfDifference(x: int, y: int, d: int)
    requires 0 <= x < WORD_MODULUS && 0 <= y < WORD_MODULUS && 0 <= d < WORD_MODULUS && x == Mod64(d + y)
    ensures d == Mod64(x - y)
  {
  }

  lemma Range(b: bv64)
    ensures 0 <= OfBits(b) as int < WORD_MODULUS
  {
  }

  lemma Difference(a: bv64, b: bv64)
    ensures OfBits(Minus(a, b)) as int == Mod64(OfBits(a) as int - OfBits(b) as int)
  {
    hide *;
    var d := Minus(a, b);
    MinusPlus(a, b);
    Sum(d, b);
    Range(a); Range(b); Range(d);
    ModOfDifference(OfBits(a) as int, OfBits(b) as int, OfBits(d) as int);
  }

  lemma Complement(a: bv64)
    ensures OfBits(Not(a)) as int == 0xFFFF_FFFF_FFFF_FFFF - OfBits(a) as int
  {
    hide Plus, Not, OfBits;
    MinusPlus(a, a);
    Sum(a, Not(a));
    OnesNumber();
    Range(a); Range(Not(a));
  }

  // ---- the sign bit ------------------------------------------------------------------------------------------

  predicate Top(b: bv64) { b & 0x8000_0000_0000_0000 != 0 }

  lemma JoinedTop(t: bv1, l: bv63)
    ensures OfBits(((t as bv64) << 63) | (l as bv64)) as int == 0x8000_0000_0000_0000 * (t as int) + (l as int)
    ensures 0 <= l as int < 0x8000_0000_0000_0000
  {
  }

  lemma TopParts(b: bv64, t: bv1, l: bv63)
    requires t == (b >> 63) as bv1 && l == (b & 0x7FFF_FFFF_FFFF_FFFF) as bv63
    ensures b == ((t as bv64) << 63) | (l as bv64) && (t == 1 <==> Top(b))
  {
  }

  /** The sign bit tells the upper half of the numbers. */
  lemma TopNumber(b: bv64)
    ensures Top(b) <==> OfBits(b) as int >= 0x8000_0000_0000_0000
  {
    hide *;
    var t, l := (b >> 63) as bv1, (b & 0x7FFF_FFFF_FFFF_FFFF) as bv63;
    TopParts(b, t, l);
    JoinedTop(t, l);
    BitNumber(t);
  }

  // ---- shifts ------------------------------------------------------------------------------------------------

  function Left(b: bv64, k: bv64): bv64
    requires k < 64
  {
    b << k
  }

  function Right(b: bv64, k: bv64): bv64
    requires k < 64
  {
    b >> k
  }

  /** A shift to the left by `k` multiplies, one to the right divides, by 2 to the `k`. */
  predicate ShiftsBy(b: bv64, k: bv64)
    requires k < 64
  {
    && OfBits(Left(b, k)) as int == Mod64(OfBits(b) as int * Pow2(OfBits(k) as int))
    && OfBits(Right(b, k)) as int == OfBits(b) as int / Pow2(OfBits(k) as int)
  }

  lemma ModProduct(x: int, p: int, q: int)
    ensures Mod64(Mod64(x * p) * q) == Mod64(x * (p * q))
  {
    var y := x * p;
    var m := y / WORD_MODULUS;
    assert y == m * WORD_MODULUS + Mod64(y);
    assert x * (p * q) == y * q;
    assert y * q == (m * q) * WORD_MODULUS + Mod64(y) * q;
    ModAdds(Mod64(y) * q, m * q);
  }

  lemma ModAdds(x: int, n: int)
    ensures Mod64(x + n * WORD_MODULUS) == Mod64(x)
  {
  }

  lemma {:induction false} PowSum(j: nat, k: nat)
    ensures Pow2(j + k) == Pow2(j) * Pow2(k)
  {
    if j > 0 { PowSum(j - 1, k); }
  }

  lemma Divides(x: nat, p: nat, q: nat)
    requires p > 0 && q > 0
    ensures p * q > 0 && x / p / q == x / (p * q)
  {
    var y, z := x / p, x / p / q;
    var r, s := x % p, y % q;
    assert x == p * y + r && y == q * z + s;
    assert x == (p * q) * z + (p * s + r) by { assert p * y == p * (q * z) + p * s; assert p * (q * z) == (p * q) * z; }
    assert p * s + r < p * q by { Multiples(p, s, q); }
    Quotients(p * q, z, p * s + r);
  }

  lemma Quotients(d: nat, z: nat, r: nat)
    requires d > 0 && r < d
    ensures (d * z + r) / d == z
  {
    var q := (d * z + r) / d;
    assert d * q <= d * z + r < d * q + d;
    if q < z { Multiples(d, q, z); }
    if z < q { Multiples(d, z, q); }
  }

  /** Two shifts one after the other. */
  lemma ShiftsAddUp(b: bv64, j: bv64, n: bv64, k: bv64)
    requires j < 64 && n < 64 && k < 64 && ShiftsBy(b, j) && ShiftsBy(Left(b, j), n) && ShiftsBy(Right(b, j), n)
    requires Left(b, k) == Left(Left(b, j), n) && Right(b, k) == Right(Right(b, j), n)
    requires OfBits(k) as int == OfBits(j) as int + OfBits(n) as int
    ensures ShiftsBy(b, k)
  {
    hide Left, Right, OfBits, Pow2, Mod64;
    var x, p, q := OfBits(b) as int, Pow2(OfBits(j) as int), Pow2(OfBits(n) as int);
    PowSum(OfBits(j) as int, OfBits(n) as int);
    ModProduct(x, p, q);
    Divides(x, p, q);
  }

  lemma SmallShifts(b: bv64)
    ensures Left(b, 0) == b && Right(b, 0) == b && Left(b, 1) == Plus(b, b) && Right(b, 1) == Half(b)
  {
  }

  lemma SmallNumbers()
    ensures OfBits(0) == 0 && OfBits(1) == 1 && OfBits(2) == 2 && OfBits(4) == 4 && OfBits(8) == 8
    ensures OfBits(16) == 16 && OfBits(32) == 32
    ensures Pow2(0) == 1 && Pow2(1) == 2
  {
  }

  lemma ShiftByOne(b: bv64)
    ensures ShiftsBy(b, 0) && ShiftsBy(b, 1)
  {
    hide Left, Right, Half, Plus, Odd, OfBits, Pow2;
    SmallShifts(b); SmallNumbers();
    Halved(b);
    Sum(b, b);
    Range(b);
  }

  lemma Bits32(b: bv64, k: bv64)
    requires k < 64 && k & 32 != 0
    ensures b << k == (b << (k & 31)) << 32 && b >> k == (b >> (k & 31)) >> 32
    ensures k & 31 < 32 && k == (k & 31) + 32
  {
    hide *;
  }

  lemma LeftBy32(b: bv64, k: bv64)
    requires k < 64 && k & 32 != 0
    ensures k & 31 < 32 && Left(b, k) == Left(Left(b, k & 31), 32)
  {
    Bits32(b, k);
  }

  lemma RightBy32(b: bv64, k: bv64)
    requires k < 64 && k & 32 != 0
    ensures k == Plus(k & 31, 32) && Right(b, k) == Right(Right(b, k & 31), 32)
  {
    Bits32(b, k);
  }

  lemma Bits16(b: bv64, k: bv64)
    requires k < 32 && k & 16 != 0
    ensures b << k == (b << (k & 15)) << 16 && b >> k == (b >> (k & 15)) >> 16
    ensures k & 15 < 16 && k == (k & 15) + 16
  {
    hide *;
  }

  lemma LeftBy16(b: bv64, k: bv64)
    requires k < 32 && k & 16 != 0
    ensures k & 15 < 16 && Left(b, k) == Left(Left(b, k & 15), 16)
  {
    Bits16(b, k);
  }

  lemma RightBy16(b: bv64, k: bv64)
    requires k < 32 && k & 16 != 0
    ensures k == Plus(k & 15, 16) && Right(b, k) == Right(Right(b, k & 15), 16)
  {
    Bits16(b, k);
  }

  lemma Bits8(b: bv64, k: bv64)
    requires k < 16 && k & 8 != 0
    ensures b << k == (b << (k & 7)) << 8 && b >> k == (b >> (k & 7)) >> 8
    ensures k & 7 < 8 && k == (k & 7) + 8
  {
    hide *;
  }

  lemma LeftBy8(b: bv64, k: bv64)
    requires k < 16 && k & 8 != 0
    ensures k & 7 < 8 && Left(b, k) == Left(Left(b, k & 7), 8)
  {
    Bits8(b, k);
  }

  lemma RightBy8(b: bv64, k: bv64)
    requires k < 16 && k & 8 != 0
    ensures k == Plus(k & 7, 8) && Right(b, k) == Right(Right(b, k & 7), 8)
  {
    Bits8(b, k);
  }

  lemma Bits4(b: bv64, k: bv64)
    requires k < 8 && k & 4 != 0
    ensures b << k == (b << (k & 3)) << 4 && b >> k == (b >> (k & 3)) >> 4
    ensures k & 3 < 4 && k == (k & 3) + 4
  {
    hide *;
  }

  lemma LeftBy4(b: bv64, k: bv64)
    requires k < 8 && k & 4 != 0
    ensures k & 3 < 4 && Left(b, k) == Left(Left(b, k & 3), 4)
  {
    Bits4(b, k);
  }

  lemma RightBy4(b: bv64, k: bv64)
    requires k < 8 && k & 4 != 0
    ensures k == Plus(k & 3, 4) && Right(b, k) == Right(Right(b, k & 3), 4)
  {
    Bits4(b, k);
  }

  lemma Bits2(b: bv64, k: bv64)
    requires k < 4 && k & 2 != 0
    ensures b << k == (b << (k & 1)) << 2 && b >> k == (b >> (k & 1)) >> 2
    ensures k & 1 < 2 && k == (k & 1) + 2
  {
    hide *;
  }

  lemma LeftBy2(b: bv64, k: bv64)
    requires k < 4 && k & 2 != 0
    ensures k & 1 < 2 && Left(b, k) == Left(Left(b, k & 1), 2)
  {
    Bits2(b, k);
  }

  lemma RightBy2(b: bv64, k: bv64)
    requires k < 4 && k & 2 != 0
    ensures k == Plus(k & 1, 2) && Right(b, k) == Right(Right(b, k & 1), 2)
  {
    Bits2(b, k);
  }

  lemma LowerBits(k: bv64)
    ensures k < 64 && k & 32 == 0 ==> k < 32
    ensures k < 32 && k & 16 == 0 ==> k < 16
    ensures k < 16 && k & 8 == 0 ==> k < 8
    ensures k < 8 && k & 4 == 0 ==> k < 4
    ensures k < 4 && k & 2 == 0 ==> k < 2
    ensures k < 2 ==> k == 0 || k == 1
  {
    hide *;
  }

  /** A shift amount is its highest bit `n` and the rest. */
  lemma Split(b: bv64, k: bv64) returns (j: bv64, n: bv64)
    requires k < 64 && k != 0 && k != 1
    ensures n == 2 || n == 4 || n == 8 || n == 16 || n == 32
    ensures j < 64 && k == Plus(j, n)
    ensures Left(b, k) == Left(Left(b, j), n) && Right(b, k) == Right(Right(b, j), n)
  {
    hide *;
    LowerBits(k);
    if k & 32 != 0 { j, n := k & 31, 32; LeftBy32(b, k); RightBy32(b, k); }
    else if k & 16 != 0 { j, n := k & 15, 16; LeftBy16(b, k); RightBy16(b, k); }
    else if k & 8 != 0 { j, n := k & 7, 8; LeftBy8(b, k); RightBy8(b, k); }
    else if k & 4 != 0 { j, n := k & 3, 4; LeftBy4(b, k); RightBy4(b, k); }
    else { j, n := k & 1, 2; LeftBy2(b, k); RightBy2(b, k); }
  }

  lemma LeftTwo(b: bv64)
    ensures Left(b, 2) == Left(Left(b, 1), 1)
  {
  }

  lemma LeftFour(b: bv64)
    ensures Left(b, 4) == Left(Left(b, 2), 2) && Left(b, 8) == Left(Left(b, 4), 4)
  {
  }

  lemma LeftMore(b: bv64)
    ensures Left(b, 16) == Left(Left(b, 8), 8) && Left(b, 32) == Left(Left(b, 16), 16)
  {
  }

  lemma RightTwo(b: bv64)
    ensures Right(b, 2) == Right(Right(b, 1), 1)
  {
  }

  lemma RightFour(b: bv64)
    ensures Right(b, 4) == Right(Right(b, 2), 2) && Right(b, 8) == Right(Right(b, 4), 4)
  {
  }

  lemma RightMore(b: bv64)
    ensures Right(b, 16) == Right(Right(b, 8), 8) && Right(b, 32) == Right(Right(b, 16), 16)
  {
  }

  /** The shifts by powers of two. */
  lemma {:induction false} PowerShift(b: bv64, k: bv64)
    requires k == 1 || k == 2 || k == 4 || k == 8 || k == 16 || k == 32
    ensures ShiftsBy(b, k)
    decreases OfBits(k)
  {
    hide ShiftsBy, Left, Right, OfBits;
    SmallNumbers();
    LeftTwo(b); LeftFour(b); LeftMore(b); RightTwo(b); RightFour(b); RightMore(b);
    if k == 1 {
      ShiftByOne(b);
    } else {
      var j := if k == 2 then 1 else if k == 4 then 2 else if k == 8 then 4 else if k == 16 then 8 else 16;
      PowerShift(b, j); PowerShift(Left(b, j), j); PowerShift(Right(b, j), j);
      ShiftsAddUp(b, j, j, k);
    }
  }

  lemma AmountRange(k: bv64)
    requires k < 64
    ensures OfBits(k) as int < 64
  {
  }

  /** Every shift. */
  lemma {:induction false} Shift(b: bv64, k: bv64)
    requires k < 64
    ensures ShiftsBy(b, k)
    decreases OfBits(k)
  {
    hide ShiftsBy, Left, Right, OfBits, Plus, Mod64;
    SmallNumbers();
    if k == 0 || k == 1 {
      ShiftByOne(b);
    } else {
      var j, n := Split(b, k);
      Sum(j, n);
      AmountRange(j);
      ModInc(OfBits(j) as int + OfBits(n) as int);
      Shift(b, j);
      PowerShift(Left(b, j), n); PowerShift(Right(b, j), n);
      ShiftsAddUp(b, j, n, k);
    }
  }

  // ---- signed numbers ----------------------------------------------------------------------------------------

  /** The two's complement value of `n` in a width whose sign bit weighs `half`. */
  function TwosComplement(n: int, half: nat): int
    requires half > 0
  {
    var low := n % (2 * half);
    if low < half then low else low - 2 * half
  }

  lemma SignedNumber(b: bv64)
    ensures TwosComplement(OfBits(b) as int, 0x8000_0000_0000_0000)
            == OfBits(b) as int - if Top(b) then 0x1_0000_0000_0000_0000 else 0
  {
    hide Top, OfBits;
    TopNumber(b);
    Range(b);
  }

  lemma ArithNegative(b: bv64, k: bv64)
    requires k < 64 && Top(b)
    ensures ShiftRightArith64(b, k) == Not(Right(Not(b), k))
  {
    hide *;
    NotIs(b);
    NegativeForm(b, k);
  }

  lemma NotIs(b: bv64)
    ensures Not(b) == !b
  {
  }

  lemma NegativeForm(b: bv64, k: bv64)
    requires k < 64 && Top(b)
    ensures ShiftRightArith64(b, k) == Not(Right(!b, k))
  {
    hide *;
    var y := ShiftRightArith64(b, k);
    SignedBits(b, k, y);
    NotRight(b, k, y);
  }

  lemma SignedBits(b: bv64, k: bv64, y: bv64)
    requires k < 64 && Top(b) && y == ShiftRightArith64(b, k)
    ensures y == !((!b) >> k)
  {
    hide Not, Right;
  }

  lemma NotRight(b: bv64, k: bv64, y: bv64)
    requires k < 64 && y == !((!b) >> k)
    ensures y == Not(Right(!b, k))
  {
    hide *;
    var c := (!b) >> k;
    NotOfShift(b, k, y, c);
    RightOfNot(b, k, c);
    NotIs(c);
  }

  lemma NotOfShift(b: bv64, k: bv64, y: bv64, c: bv64)
    requires k < 64 && y == !((!b) >> k) && c == (!b) >> k
    ensures y == !c
  {
    hide *;
  }

  lemma RightOfNot(b: bv64, k: bv64, c: bv64)
    requires k < 64 && c == (!b) >> k
    ensures c == Right(!b, k)
  {
  }

  lemma ArithPositive(b: bv64, k: bv64)
    requires k < 64 && !Top(b)
    ensures ShiftRightArith64(b, k) == Right(b, k)
  {
  }

  lemma NegativeQuotient(y: nat, d: nat)
    requires d > 0
    ensures (-1 - y) / d == -1 - y / d
  {
    var q, r := y / d, y % d;
    assert y == d * q + r;
    assert -1 - y == d * (-1 - q) + (d - 1 - r);
    FloorIs(-1 - y, d, -1 - q, d - 1 - r);
  }

  lemma FloorIs(x: int, d: nat, q: int, r: nat)
    requires d > 0 && x == d * q + r && r < d
    ensures x / d == q
  {
    var p := x / d;
    assert d * p <= x < d * p + d;
    Distribute(d, p, q - p); Distribute(d, q, p - q);
    if p < q { Multiples(d, 0, q - p); } else if q < p { Multiples(d, 0, p - q); }
  }

  /** The arithmetic shift divides the signed number and rounds down. */
  lemma ArithShift(b: bv64, k: bv64)
    requires k < 64
    ensures OfBits(ShiftRightArith64(b, k)) as int
            == Mod64(TwosComplement(OfBits(b) as int, 0x8000_0000_0000_0000) / Pow2(OfBits(k) as int))
  {
    hide *;
    var d := Pow2(OfBits(k) as int);
    var y := 0xFFFF_FFFF_FFFF_FFFF - OfBits(b) as int;
    if Top(b) { ArithNegative(b, k); } else { ArithPositive(b, k); }
    SignedNumber(b);
    Complement(b);
    ShiftRightNumber(b, k); ShiftRightNumber(Not(b), k);
    Complement(Right(Not(b), k));
    NegativeQuotient(y, d);
    ModNegative(y / d);
    SmallQuotient(y, d); SmallQuotient(OfBits(b) as int, d);
    ModInc(OfBits(b) as int / d);
  }

  lemma ShiftRightNumber(b: bv64, k: bv64)
    requires k < 64
    ensures OfBits(Right(b, k)) as int == OfBits(b) as int / Pow2(OfBits(k) as int)
  {
    hide Left, Right, OfBits, Mod64;
    Shift(b, k);
  }

  lemma ShiftLeftNumber(b: bv64, k: bv64)
    requires k < 64
    ensures OfBits(Left(b, k)) as int == Mod64(OfBits(b) as int * Pow2(OfBits(k) as int))
  {
    hide Left, Right, OfBits, Mod64;
    Shift(b, k);
  }

  lemma SmallQuotient(y: int, d: nat)
    requires 0 <= y < 0x1_0000_0000_0000_0000 && d > 0
    ensures 0 <= y / d < 0x1_0000_0000_0000_0000
  {
    assert d * (y / d) <= y;
  }

  lemma ModNegative(y: int)
    requires 0 <= y < 0x1_0000_0000_0000_0000
    ensures Mod64(-1 - y) == 0xFFFF_FFFF_FFFF_FFFF - y
  {
  }

  // ---- order -------------------------------------------------------------------------------------------------

  predicate Below(a: bv64, b: bv64) { a < b }

  lemma BelowByTop(a: bv64, b: bv64)
    ensures Below(a, b) <==> if Top(a) == Top(b) then Below(Left(a, 1), Left(b, 1)) else Top(b)
    ensures !Below(a, a)
  {
    hide *;
    LeftOne(a); LeftOne(b);
    BelowBits(a, b);
  }

  lemma LeftOne(a: bv64)
    ensures Left(a, 1) == a << 1
  {
  }

  lemma BelowBits(a: bv64, b: bv64)
    ensures Below(a, b) <==> if Top(a) == Top(b) then Below(a << 1, b << 1) else Top(b)
    ensures !Below(a, a)
  {
  }

  /** Shifting out the sign bit. */
  lemma WithoutTop(a: bv64, n: nat)
    requires n < 64 && OfBits(a) as int % Pow2(n) == 0
    ensures OfBits(Left(a, 1)) as int
            == 2 * OfBits(a) as int - (if Top(a) then 0x1_0000_0000_0000_0000 else 0)
    ensures OfBits(Left(a, 1)) as int % Pow2(n + 1) == 0
  {
    hide OfBits, Left, Top, Pow2, Mod64;
    SmallShifts(a); Sum(a, a); Range(a); TopNumber(a);
    var x := OfBits(a) as int;
    ModTwice(x);
    var q, r := x / Pow2(n), Pow2(63 - n);
    TopPower(n);
    assert Pow2(n + 1) == 2 * Pow2(n) by { PowerStep(n); }
    assert x == q * Pow2(n);
    if Top(a) {
      assert 2 * x - 0x1_0000_0000_0000_0000
          == (q - r) * Pow2(n + 1) by { assert (q - r) * Pow2(n + 1) == 2 * (q * Pow2(n)) - r * Pow2(n + 1); }
      MultipleOf(q - r, Pow2(n + 1));
    } else {
      assert 2 * x == q * Pow2(n + 1);
      MultipleOf(q, Pow2(n + 1));
    }
  }

  lemma ModTwice(x: int)
    requires 0 <= x < 0x1_0000_0000_0000_0000
    ensures Mod64(x + x) == 2 * x - if x >= 0x8000_0000_0000_0000 then 0x1_0000_0000_0000_0000 else 0
  {
  }

  lemma PowerStep(n: nat)
    ensures Pow2(n + 1) == 2 * Pow2(n)
  {
  }

  lemma MultipleOf(q: int, d: nat)
    requires d > 0
    ensures (q * d) % d == 0
  {
    FloorIs(q * d, d, q, 0);
  }

  lemma TopPower(n: nat)
    requires n < 64
    ensures Pow2(63 - n) * Pow2(n + 1) == 0x1_0000_0000_0000_0000
  {
    PowSum(63 - n, n + 1);
    PowSum(32, 32);
    Powers();
  }

  lemma Powers()
    ensures Pow2(5) == 0x20 && Pow2(6) == 0x40 && Pow2(7) == 0x80 && Pow2(8) == 0x100 && Pow2(11) == 0x800
    ensures Pow2(12) == 0x1000 && Pow2(15) == 0x8000 && Pow2(16) == 0x1_0000 && Pow2(20) == 0x10_0000
    ensures Pow2(31) == 0x8000_0000 && Pow2(32) == 0x1_0000_0000 && Pow2(64) == 0x1_0000_0000_0000_0000
  {
    hide Pow2;
    FewPowers();
    PowSum(7, 8); PowSum(8, 8); PowSum(8, 12); PowSum(15, 16); PowSum(16, 16); PowSum(32, 32);
  }

  lemma FewPowers()
    ensures Pow2(5) == 0x20 && Pow2(6) == 0x40 && Pow2(7) == 0x80 && Pow2(8) == 0x100 && Pow2(11) == 0x800
    ensures Pow2(12) == 0x1000
  {
  }

  /** The unsigned order of bits is that of numbers. */
  lemma Order(a: bv64, b: bv64)
    ensures Below(a, b) <==> OfBits(a) < OfBits(b)
  {
    hide Below, OfBits, Pow2;
    assert Pow2(0) == 1 by { PowerZero(); }
    OrderFrom(a, b, 0);
  }

  lemma PowerZero()
    ensures Pow2(0) == 1
  {
  }

  lemma {:induction false} OrderFrom(a: bv64, b: bv64, n: nat)
    requires n <= 64 && OfBits(a) as int % Pow2(n) == 0 && OfBits(b) as int % Pow2(n) == 0
    ensures Below(a, b) <==> OfBits(a) < OfBits(b)
    decreases 64 - n
  {
    hide *;
    BelowByTop(a, b);
    Range(a); Range(b);
    if n == 64 {
      Powers();
      NoMultiple(OfBits(a) as int); NoMultiple(OfBits(b) as int);
      SameNumber(a, b);
      BelowByTop(a, a);
    } else {
      WithoutTop(a, n); WithoutTop(b, n);
      TopNumber(a); TopNumber(b);
      OrderFrom(Left(a, 1), Left(b, 1), n + 1);
    }
  }

  lemma NoMultiple(x: int)
    requires 0 <= x < WORD_MODULUS && x % 0x1_0000_0000_0000_0000 == 0
    ensures x == 0
  {
  }

  // ---- low bits ----------------------------------------------------------------------------------------------

  /** What is left when the bits from `k` on are taken away. */
  lemma LowNumber(b: bv64, k: bv64, v: bv64)
    requires k < 64 && Plus(v, Left(Right(b, k), k)) == b && Right(v, k) == 0
    ensures OfBits(v) as int == OfBits(b) as int % Pow2(OfBits(k) as int)
  {
    hide *;
    var d := Pow2(OfBits(k) as int);
    ShiftRightNumber(b, k); ShiftRightNumber(v, k);
    ShiftLeftNumber(Right(b, k), k);
    ZeroNumber();
    Range(b); Range(v);
    Sum(v, Left(Right(b, k), k));
    SmallIfZero(OfBits(v) as int, d);
    LowRemainder(OfBits(b) as int, OfBits(v) as int, d);
  }

  lemma SmallIfZero(x: int, d: nat)
    requires x >= 0 && d > 0 && x / d == 0
    ensures x < d
  {
  }

  lemma LowRemainder(x: int, v: int, d: nat)
    requires 0 <= x < WORD_MODULUS && 0 <= v < d && v < WORD_MODULUS && x == Mod64(v + Mod64(x / d * d))
    ensures v == x % d
  {
    hide Mod64;
    var y := x / d * d;
    QuotientRemainder(x, d);
    ModInc(y);
    ModOfSum(x, v, y);
  }

  lemma QuotientRemainder(x: int, d: nat)
    requires x >= 0 && d > 0
    ensures 0 <= x / d * d <= x && x % d == x - x / d * d
  {
    assert x == x / d * d + x % d;
  }

  lemma ModOfSum(x: int, v: int, y: int)
    requires 0 <= v < WORD_MODULUS && 0 <= y <= x < WORD_MODULUS && x == Mod64(v + y)
    ensures x == v + y
  {
  }

  /** The masks in use. */
  predicate IsMask(k: bv64, mask: bv64) {
    || (k == 5 && mask == 0x1F) || (k == 6 && mask == 0x3F) || (k == 8 && mask == 0xFF) || (k == 12 && mask == 0xFFF)
    || (k == 16 && mask == 0xFFFF) || (k == 20 && mask == 0xF_FFFF) || (k == 32 && mask == 0xFFFF_FFFF)
  }

  function And(b: bv64, mask: bv64): bv64 { b & mask }

  lemma Mask5(b: bv64)
    ensures Plus(And(b, 0x1F), Left(Right(b, 5), 5)) == b && Right(And(b, 0x1F), 5) == 0
  {
  }

  lemma Mask6(b: bv64)
    ensures Plus(And(b, 0x3F), Left(Right(b, 6), 6)) == b && Right(And(b, 0x3F), 6) == 0
  {
  }

  lemma Mask8(b: bv64)
    ensures Plus(And(b, 0xFF), Left(Right(b, 8), 8)) == b && Right(And(b, 0xFF), 8) == 0
  {
  }

  lemma Mask12(b: bv64)
    ensures Plus(And(b, 0xFFF), Left(Right(b, 12), 12)) == b && Right(And(b, 0xFFF), 12) == 0
  {
  }

  lemma Mask16(b: bv64)
    ensures Plus(And(b, 0xFFFF), Left(Right(b, 16), 16)) == b && Right(And(b, 0xFFFF), 16) == 0
  {
  }

  lemma Mask20(b: bv64)
    ensures Plus(And(b, 0xF_FFFF), Left(Right(b, 20), 20)) == b && Right(And(b, 0xF_FFFF), 20) == 0
  {
  }

  lemma Mask32(b: bv64)
    ensures Plus(And(b, 0xFFFF_FFFF), Left(Right(b, 32), 32)) == b && Right(And(b, 0xFFFF_FFFF), 32) == 0
  {
  }

  lemma MaskCases(k: bv64, mask: bv64)
    requires IsMask(k, mask)
    ensures || (k == 5 && mask == 0x1F) || (k == 6 && mask == 0x3F) || (k == 8 && mask == 0xFF)
            || (k == 12 && mask == 0xFFF) || (k == 16 && mask == 0xFFFF) || (k == 20 && mask == 0xF_FFFF)
            || (k == 32 && mask == 0xFFFF_FFFF)
    ensures k < 64
  {
  }

  lemma Masked(b: bv64, k: bv64, mask: bv64)
    requires IsMask(k, mask)
    ensures k < 64 && Plus(And(b, mask), Left(Right(b, k), k)) == b && Right(And(b, mask), k) == 0
  {
    hide *;
    MaskCases(k, mask);
    Mask5(b); Mask6(b); Mask8(b); Mask12(b); Mask16(b); Mask20(b); Mask32(b);
  }

  /** A mask takes the remainder. */
  lemma Low(b: bv64, k: bv64, mask: bv64)
    requires IsMask(k, mask)
    ensures OfBits(And(b, mask)) as int == OfBits(b) as int % Pow2(OfBits(k) as int)
  {
    hide *;
    var v := And(b, mask);
    Masked(b, k, mask);
    LowNumber(b, k, v);
  }

  // ---- sign extension ----------------------------------------------------------------------------------------

  /** The sign bits in use, what they weigh, and the bits up to them. */
  predicate IsSign(s: bv64, width: bv64, mask: bv64) {
    || (s == 7 && width == 0x100 && mask == 0xFF) || (s == 11 && width == 0x1000 && mask == 0xFFF)
    || (s == 15 && width == 0x1_0000 && mask == 0xFFFF) || (s == 31 && width == 0x1_0000_0000 && mask == 0xFFFF_FFFF)
  }

  lemma SignExtended(x: bv64, s: bv64, width: bv64, mask: bv64)
    requires IsSign(s, width, mask) && And(x, mask) == x
    ensures s < 63 && Sext64(x, s) == if Right(x, s) != 0 then Minus(x, width) else x
  {
  }

  lemma Widths(s: bv64, width: bv64, mask: bv64)
    requires IsSign(s, width, mask)
    ensures s < 63 && IsMask(Inc(s), mask) && OfBits(Inc(s)) as int == OfBits(s) as int + 1
    ensures OfBits(width) as int == 2 * Pow2(OfBits(s) as int) == Pow2(OfBits(Inc(s)) as int)
  {
    hide Pow2;
    Powers();
  }

  /** Sign extension yields the two's complement value. */
  lemma Sext(x: bv64, s: bv64, width: bv64, mask: bv64)
    requires IsSign(s, width, mask) && OfBits(x) < OfBits(width)
    ensures s < 63 && OfBits(Sext64(x, s)) as int == Mod64(TwosComplement(OfBits(x) as int, Pow2(OfBits(s) as int)))
  {
    hide *;
    Widths(s, width, mask);
    Low(x, Inc(s), mask);
    SmallModulus(OfBits(x) as int, OfBits(width) as int);
    SameNumber(And(x, mask), x);
    SignExtended(x, s, width, mask);
    ShiftRightNumber(x, s);
    ZeroNumber();
    SameNumber(Right(x, s), 0);
    Difference(x, width);
    TwosComplementOf(OfBits(x) as int, Pow2(OfBits(s) as int));
    ModInc(OfBits(x) as int);
    Range(x);
  }

  lemma SmallModulus(x: int, d: int)
    requires 0 <= x < d
    ensures x % d == x
  {
  }

  lemma TwosComplementOf(x: int, half: nat)
    requires half > 0 && 0 <= x < 2 * half
    ensures TwosComplement(x, half) == if x / half != 0 then x - 2 * half else x
  {
    SmallModulus(x, 2 * half);
    if x < half { FloorIs(x, half, 0, x); } else { FloorIs(x, half, 1, x - half); }
  }
}
