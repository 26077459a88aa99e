/** What the ALU computes, as numbers: every operation that an instruction word selects, with the fields of the word in
    plain numbers. */
module AluLaws {
  import opened Utilities
  import opened Shifts
  import opened Numbers
  import opened Instructions
  import opened SequentialRun
  import opened IsaLaws

  /** Opcode, funct3 and funct7 of an instruction word. */
  predicate FieldsOf(w: Word, op: int, f3: int, f7: int) {
    w as int % 0x80 == op && w as int / 0x1000 % 8 == f3 && w as int / 0x200_0000 % 0x80 == f7
  }

  /** The signed value of a 64-bit number. */
  function Int64(x: int): int { TwosComplement(x, 0x8000_0000_0000_0000) }

  /** The signed value of the low 32 bits. */
  function Int32(x: int): int { TwosComplement(x, 0x8000_0000) }

  /** Bit `k` of a number. */
  predicate BitOf(x: int, k: nat) { x / Pow2(k) % 2 == 1 }

  /** `r` is the result of the 64-bit operation `f3` on `a` and `b`; `alt` tells SUB from ADD and SRA from SRL. */
  ghost predicate Computes(f3: int, alt: bool, a: int, b: int, r: int) {
    if f3 == 0 then r == Mod64(if alt then a - b else a + b)
    else if f3 == 1 then r == Mod64(a * Pow2(b % 64))
    else if f3 == 2 then r == if Int64(a) < Int64(b) then 1 else 0
    else if f3 == 3 then r == if a < b then 1 else 0
    else if f3 == 4 then forall k: nat :: k < 64 ==> (BitOf(r, k) <==> BitOf(a, k) != BitOf(b, k))
    else if f3 == 5 then r == if alt then Mod64(Int64(a) / Pow2(b % 64)) else a / Pow2(b % 64)
    else if f3 == 6 then forall k: nat :: k < 64 ==> (BitOf(r, k) <==> BitOf(a, k) || BitOf(b, k))
    else forall k: nat :: k < 64 ==> (BitOf(r, k) <==> BitOf(a, k) && BitOf(b, k))
  }

  // ---- the operations on bits --------------------------------------------------------------------------------

  /** Bit `k` of the number is the lowest one after a shift. */
  lemma BitIsOdd(b: bv64, k: bv64)
    requires k < 64
    ensures BitOf(OfBits(b) as int, OfBits(k) as int) <==> Odd(Right(b, k))
  {
    hide OfBits, Right, Odd, Pow2;
    ShiftRightNumber(b, k);
    Halved(Right(b, k));
  }

  /** A bit number as a shift amount. */
  lemma Amount(k: nat) returns (n: bv64)
    requires k < 64
    ensures n < 64 && OfBits(n) as int == k
  {
    hide OfBits, ToBits, Below;
    n := ToBits(k as Word);
    NumberOfBits(k as Word);
    assert OfBits(64) == 64 by { SixtyFour(); }
    Order(n, 64);
    assert n < 64 by { BelowIs(n); }
  }

  lemma SixtyFour()
    ensures OfBits(64) == 64
  {
  }

  lemma BelowIs(n: bv64)
    ensures Below(n, 64) <==> n < 64
  {
  }

  function Xor(a: bv64, b: bv64): bv64 { a ^ b }
  function Or(a: bv64, b: bv64): bv64 { a | b }

  lemma XorBits(a: bv64, b: bv64, k: bv64)
    requires k < 64
    ensures ((a ^ b) >> k) & 1 != 0 <==> ((a >> k) & 1 != 0) != ((b >> k) & 1 != 0)
  {
    hide *;
  }

  lemma OrBits(a: bv64, b: bv64, k: bv64)
    requires k < 64
    ensures ((a | b) >> k) & 1 != 0 <==> ((a >> k) & 1 != 0) || ((b >> k) & 1 != 0)
  {
    hide *;
  }

  lemma XorOdd(a: bv64, b: bv64, k: bv64)
    requires k < 64
    ensures Odd(Right(a ^ b, k)) <==> Odd(Right(a, k)) != Odd(Right(b, k))
  {
    XorBits(a, b, k);
  }

  lemma OrOdd(a: bv64, b: bv64, k: bv64)
    requires k < 64
    ensures Odd(Right(a | b, k)) <==> Odd(Right(a, k)) || Odd(Right(b, k))
  {
    OrBits(a, b, k);
  }

  lemma NamedXor(a: bv64, b: bv64, k: bv64)
    requires k < 64
    ensures Odd(Right(Xor(a, b), k)) <==> Odd(Right(a, k)) != Odd(Right(b, k))
  {
    hide *;
    XorIs(a, b);
    XorOdd(a, b, k);
  }

  lemma NamedOr(a: bv64, b: bv64, k: bv64)
    requires k < 64
    ensures Odd(Right(Or(a, b), k)) <==> Odd(Right(a, k)) || Odd(Right(b, k))
  {
    hide *;
    OrIs(a, b);
    OrOdd(a, b, k);
  }

  lemma XorIs(a: bv64, b: bv64)
    ensures Xor(a, b) == a ^ b
  {
  }

  lemma OrIs(a: bv64, b: bv64)
    ensures Or(a, b) == a | b
  {
  }

  lemma AndIs(a: bv64, b: bv64)
    ensures Xor(a | b, a ^ b) == And(a, b)
  {
  }

  /** Exclusive or, bit by bit. */
  lemma XorNumber(a: bv64, b: bv64, x: int, y: int, r: int)
    requires x == OfBits(a) as int && y == OfBits(b) as int && r == OfBits(Xor(a, b)) as int
    ensures forall k: nat :: k < 64 ==> (BitOf(r, k) <==> BitOf(x, k) != BitOf(y, k))
  {
    hide *;
    var c := Xor(a, b);
    forall k: nat | k < 64
      ensures BitOf(r, k) <==> BitOf(x, k) != BitOf(y, k)
    {
      var n := Amount(k);
      BitIsOdd(a, n); BitIsOdd(b, n); BitIsOdd(c, n);
      NamedXor(a, b, n);
    }
  }

  lemma OrNumber(a: bv64, b: bv64, x: int, y: int, r: int)
    requires x == OfBits(a) as int && y == OfBits(b) as int && r == OfBits(Or(a, b)) as int
    ensures forall k: nat :: k < 64 ==> (BitOf(r, k) <==> BitOf(x, k) || BitOf(y, k))
  {
    hide *;
    var c := Or(a, b);
    forall k: nat | k < 64
      ensures BitOf(r, k) <==> BitOf(x, k) || BitOf(y, k)
    {
      var n := Amount(k);
      BitIsOdd(a, n); BitIsOdd(b, n); BitIsOdd(c, n);
      NamedOr(a, b, n);
    }
  }

  lemma AndNamed(a: bv64, b: bv64, o: bv64, e: bv64)
    requires o == Or(a, b) && e == Xor(a, b)
    ensures Xor(o, e) == And(a, b)
  {
    hide *;
    OrIs(a, b); XorIs(a, b); AndIs(a, b);
  }

  /** And is what or has and exclusive or has not. */
  lemma AndNumber(a: bv64, b: bv64, x: int, y: int, r: int)
    requires x == OfBits(a) as int && y == OfBits(b) as int && r == OfBits(And(a, b)) as int
    ensures forall k: nat :: k < 64 ==> (BitOf(r, k) <==> BitOf(x, k) && BitOf(y, k))
  {
    hide *;
    var o, e := Or(a, b), Xor(a, b);
    AndNamed(a, b, o, e);
    XorNumber(a, b, x, y, OfBits(e) as int);
    OrNumber(a, b, x, y, OfBits(o) as int);
    XorNumber(o, e, OfBits(o) as int, OfBits(e) as int, r);
  }

  // ---- register operations on 64 bits ------------------------------------------------------------------------

  lemma Sums(upper: int, f7: Funct7, a: bv64, b: bv64)
    ensures AluInt(0, 0, upper, a, b) == Some(Plus(a, b)) && AluInt(0, 0x20, upper, a, b) == Some(Minus(a, b))
  {
  }

  lemma MaskIs(b: bv64)
    ensures And(b, 0x3F) == b & 0x3F
  {
  }

  lemma LeftShiftForm(upper: int, f7: Funct7, a: bv64, b: bv64)
    ensures b & 0x3F < 64 && AluInt(1, f7, upper, a, b) == Some(Left(a, b & 0x3F))
  {
  }

  lemma RightShiftForm(f7: Funct7, a: bv64, b: bv64)
    ensures b & 0x3F < 64 && AluInt(5, f7, 0, a, b) == Some(Right(a, b & 0x3F))
    ensures AluInt(5, f7, 0x10, a, b) == Some(ShiftRightArith64(a, b & 0x3F))
  {
    hide ShiftRightArith64;
  }

  lemma Comparisons(upper: int, f7: Funct7, a: bv64, b: bv64)
    ensures AluInt(2, f7, upper, a, b) == Some(Flag(SignedLess(a, b)))
    ensures AluInt(3, f7, upper, a, b) == Some(Flag(Below(a, b)))
  {
    hide SignedLess, Flag;
  }

  lemma SignedOrder(a: bv64, b: bv64)
    ensures SignedLess(a, b) <==> if Top(a) == Top(b) then Below(a, b) else Top(a)
  {
  }

  lemma ExclusiveOr(upper: int, f7: Funct7, a: bv64, b: bv64)
    ensures AluInt(4, f7, upper, a, b) == Some(Xor(a, b))
  {
  }

  lemma InclusiveOr(upper: int, f7: Funct7, a: bv64, b: bv64)
    ensures AluInt(6, f7, upper, a, b) == Some(Or(a, b))
  {
  }

  lemma Conjunction(upper: int, f7: Funct7, a: bv64, b: bv64)
    ensures AluInt(7, f7, upper, a, b) == Some(And(a, b))
  {
  }

  lemma SignedNumbers(a: bv64, b: bv64)
    ensures SignedLess(a, b) <==> Int64(OfBits(a) as int) < Int64(OfBits(b) as int)
  {
    hide *;
    SignedOrder(a, b);
    Order(a, b);
    SignedNumber(a); SignedNumber(b);
    Int64Is(OfBits(a) as int); Int64Is(OfBits(b) as int);
    Range(a); Range(b);
  }

  lemma Int64Is(x: int)
    ensures Int64(x) == TwosComplement(x, 0x8000_0000_0000_0000)
  {
  }

  lemma FlagNumber(c: bool)
    ensures OfBits(Flag(c)) as int == if c then 1 else 0
  {
  }

  lemma ShiftNumbers(f7: Funct7, a: bv64, b: bv64, upper: int)
    ensures var A, n := OfBits(a) as int, OfBits(b) as int % 64;
            var l, r, s := AluInt(1, f7, upper, a, b), AluInt(5, f7, 0, a, b), AluInt(5, f7, 0x10, a, b);
            && l.Some? && OfBits(l.value) as int == Mod64(A * Pow2(n))
            && r.Some? && OfBits(r.value) as int == A / Pow2(n)
            && s.Some? && OfBits(s.value) as int == Mod64(Int64(A) / Pow2(n))
  {
    hide *;
    var k := b & 0x3F;
    LeftShiftForm(upper, f7, a, b); RightShiftForm(f7, a, b);
    MaskIs(b);
    MaskSix();
    Low(b, 6, 0x3F);
    ShiftLeftNumber(a, k); ShiftRightNumber(a, k); ArithShift(a, k);
    Int64Is(OfBits(a) as int);
  }

  lemma MaskSix()
    ensures IsMask(6, 0x3F) && OfBits(6) == 6 && Pow2(6) == 64
  {
    Powers();
  }

  /** The register operations on 64 bits. */
  lemma IntNumbers(f3: Funct3, f7: Funct7, u: int, a: bv64, b: bv64)
    requires (f3 == 0 ==> f7 == 0 || f7 == 0x20) && (f3 == 5 ==> u == 0 || u == 0x10)
    ensures var r := AluInt(f3, f7, u, a, b);
            var alt := if f3 == 0 then f7 == 0x20 else u == 0x10;
            r.Some? && Computes(f3 as int, alt, OfBits(a) as int, OfBits(b) as int, OfBits(r.value) as int)
  {
    hide AluInt, OfBits, Plus, Minus, Xor, Or, And, SignedLess, Below, Flag, Mod64, Pow2, BitOf, Int64;
    if f3 == 0 {
      Sums(u, f7, a, b); Sum(a, b); Difference(a, b);
    } else if f3 == 1 || f3 == 5 {
      ShiftNumbers(f7, a, b, u);
    } else if f3 == 2 || f3 == 3 {
      Comparisons(u, f7, a, b); SignedNumbers(a, b); Order(a, b);
      FlagNumber(SignedLess(a, b)); FlagNumber(Below(a, b));
    } else if f3 == 4 {
      ExclusiveOr(u, f7, a, b);
      XorNumber(a, b, OfBits(a) as int, OfBits(b) as int, OfBits(Xor(a, b)) as int);
    } else if f3 == 6 {
      InclusiveOr(u, f7, a, b);
      OrNumber(a, b, OfBits(a) as int, OfBits(b) as int, OfBits(Or(a, b)) as int);
    } else {
      Conjunction(u, f7, a, b);
      AndNumber(a, b, OfBits(a) as int, OfBits(b) as int, OfBits(And(a, b)) as int);
    }
  }

  /** The legal register operations on 64 bits: ADD and SUB, the two kinds of right shift, whatever funct7 otherwise. */
  predicate LegalRegister(f3: int, f7: int) {
    (f3 == 0 ==> f7 == 0 || f7 == 0x20) && (f3 == 5 ==> f7 / 2 == 0 || f7 / 2 == 0x10)
  }

  predicate Alternative(f3: int, f7: int) { if f3 == 0 then f7 == 0x20 else f7 / 2 == 0x10 }

  /** The shift kinds of the table and of the ALU agree; the word is neither HALT nor NOP. */
  lemma IntDecodes(w: Word, f3: int, f7: int)
    requires FieldsOf(w, 0x33, f3, f7) && LegalRegister(f3, f7)
    ensures var c := DecodeWord(w);
            c.opcode == 0x33 && c.funct3 as int == f3 && c.funct7 as int == f7 && c.doesArith && UpperImm12(w) == f7 / 2
  {
    ShiftKind(w);
  }

  lemma MaskedTwice(f3: int, alt: bool, a: int, b: int, r: int)
    ensures Computes(f3, alt, a, if f3 == 1 || f3 == 5 then b % 64 else b, r) <==> Computes(f3, alt, a, b, r)
  {
    hide Mod64, Pow2, BitOf, Int64;
  }

  /** ADD, SUB, SLL, SLT, SLTU, XOR, SRL, SRA, OR and AND. */
  lemma IntegerOperation(w: Word, pc: Word, a: Word, b: Word, f3: int, f7: int)
    requires FieldsOf(w, 0x33, f3, f7) && LegalRegister(f3, f7)
    ensures Computes(f3, Alternative(f3, f7), a as int, b as int, ArithOf(DecodeWord(w), w, pc, a, b) as int)
  {
    hide Computes, AluInt, AluIntW, AluImm, AluImmW, DecodeWord, OfBits, ToBits, UpperImm12, FieldsOf;
    IntDecodes(w, f3, f7);
    var c := DecodeWord(w);
    var y := ShiftMasked(c, b);
    NumberOfBits(a); NumberOfBits(y);
    IntNumbers(c.funct3, c.funct7, f7 / 2, ToBits(a), ToBits(y));
    MaskedTwice(f3, Alternative(f3, f7), a as int, b as int, ArithOf(c, w, pc, a, b) as int);
  }

  // ---- immediate operations on 64 bits -----------------------------------------------------------------------

  /** The I immediate as an operand. */
  function Immediate(w: Word): int { Mod64(TwosComplement(w as int / 0x10_0000, 0x800)) }

  lemma FieldIs(b: bv64)
    ensures ExtractBits(b, 31, 20) == And(Right(b, 20), 0xFFF)
  {
  }

  lemma TwentyAndTwelve()
    ensures OfBits(20) == 20 && OfBits(12) == 12 && OfBits(11) == 11 && OfBits(0x1000) == 0x1000
    ensures IsMask(12, 0xFFF) && IsSign(11, 0x1000, 0xFFF)
  {
  }

  lemma TwosComplementMod(x: int, half: nat)
    requires half > 0
    ensures TwosComplement(x % (2 * half), half) == TwosComplement(x, half)
  {
    SmallModulus(x % (2 * half), 2 * half);
  }

  /** Decoding the immediate by bits yields that number. */
  lemma ImmediateNumber(w: Word)
    ensures OfBits(ImmediateI(ToBits(w))) as int == Immediate(w)
  {
    hide *;
    var b := ToBits(w);
    var r := Right(b, 20);
    var v := And(r, 0xFFF);
    NumberOfBits(w);
    FieldIs(b);
    ImmediateIs(b);
    TwentyAndTwelve(); Powers();
    ShiftRightNumber(b, 20);
    Low(r, 12, 0xFFF);
    Sext(v, 11, 0x1000, 0xFFF);
    TwosComplementMod(w as int / 0x10_0000, 0x800);
    ImmediateOf(w);
    RemainderBound(OfBits(r) as int, 0x1000);
  }

  lemma RemainderBound(x: int, d: nat)
    requires d > 0
    ensures 0 <= x % d < d
  {
  }

  lemma ImmediateIs(b: bv64)
    ensures ImmediateI(b) == Sext64(ExtractBits(b, 31, 20), 11)
  {
  }

  lemma ImmediateOf(w: Word)
    ensures Immediate(w) == Mod64(TwosComplement(w as int / 0x10_0000, 0x800))
  {
  }

  lemma PlainImmediates(f3: Funct3, u: int, w: bv64, a: bv64)
    requires f3 != 1 && f3 != 5
    ensures AluImm(f3, u, w, a) == AluInt(f3, 0, u, a, ImmediateI(w))
  {
    hide Sext64, SignedLess, Flag;
    ImmediateIs(w);
  }

  lemma ImmediateShiftForm(u: int, w: bv64, a: bv64)
    ensures ExtractBits(w, 31, 20) & 0x3F < 64
    ensures AluImm(1, u, w, a) == Some(Left(a, ExtractBits(w, 31, 20) & 0x3F))
    ensures AluImm(5, 0, w, a) == Some(Right(a, ExtractBits(w, 31, 20) & 0x3F))
    ensures AluImm(5, 0x10, w, a) == Some(ShiftRightArith64(a, ExtractBits(w, 31, 20) & 0x3F))
  {
    hide ShiftRightArith64, ExtractBits;
  }

  lemma ImmediateShifts(u: int, f7: Funct7, w: bv64, a: bv64)
    ensures AluImm(1, u, w, a) == AluInt(1, f7, u, a, ImmediateI(w))
    ensures AluImm(5, 0, w, a) == AluInt(5, f7, 0, a, ImmediateI(w))
    ensures AluImm(5, 0x10, w, a) == AluInt(5, f7, 0x10, a, ImmediateI(w))
  {
    hide *;
    var b := ImmediateI(w);
    LowSix(w);
    ImmediateShiftForm(u, w, a);
    LeftShiftForm(u, f7, a, b); RightShiftForm(f7, a, b);
  }

  /** Sign extension leaves the shift amount alone. */
  lemma LowSix(w: bv64)
    ensures ImmediateI(w) & 0x3F == ExtractBits(w, 31, 20) & 0x3F
  {
  }

  lemma ImmDecodes(w: Word, f3: int, f7: int)
    requires FieldsOf(w, 0x13, f3, f7) && w != 0x13 && (f3 == 5 ==> f7 / 2 == 0 || f7 / 2 == 0x10)
    ensures var c := DecodeWord(w);
            c.opcode == 0x13 && c.funct3 as int == f3 && c.funct7 as int == f7 && c.doesArith && UpperImm12(w) == f7 / 2
  {
    ShiftKind(w);
  }

  /** ADDI, SLLI, SLTI, SLTIU, XORI, SRLI, SRAI, ORI and ANDI: the register operations with the immediate. */
  lemma ImmediateOperation(w: Word, pc: Word, a: Word, b: Word, f3: int, f7: int)
    requires FieldsOf(w, 0x13, f3, f7) && w != 0x13 && (f3 == 5 ==> f7 / 2 == 0 || f7 / 2 == 0x10)
    ensures Computes(f3, f3 == 5 && f7 / 2 == 0x10, a as int, Immediate(w), ArithOf(DecodeWord(w), w, pc, a, b) as int)
  {
    hide AluInt, AluIntW, AluImm, AluImmW, DecodeWord, OfBits, ToBits, UpperImm12, FieldsOf, ImmediateI, Immediate,
      Mod64, Pow2, BitOf, Int64;
    ImmDecodes(w, f3, f7);
    var x, v := ToBits(a), ToBits(w);
    var alt: Funct7 := if f3 == 5 && f7 / 2 == 0x10 then 0x20 else 0;
    NumberOfBits(a);
    ImmediateNumber(w);
    IntNumbers(f3 as Funct3, alt, f7 / 2, x, ImmediateI(v));
    if f3 == 1 || f3 == 5 { ImmediateShifts(f7 / 2, alt, v, x); } else { PlainImmediates(f3 as Funct3, f7 / 2, v, x); }
  }

  // ---- operations on 32 bits ---------------------------------------------------------------------------------

  /** `r` is the result of the 32-bit operation `f3` on the low halves of `a` and `b`, sign-extended. */
  predicate ComputesWord(f3: int, alt: bool, a: int, b: int, r: int) {
    if f3 == 0 then r == Mod64(Int32(if alt then a - b else a + b))
    else if f3 == 1 then r == Mod64(Int32(a * Pow2(b % 32)))
    else r == Mod64(if alt then Int32(a) / Pow2(b % 32) else Int32(a % 0x1_0000_0000 / Pow2(b % 32)))
  }

  lemma WideIs(s: bv64)
    ensures Wide(Low32(s)) == Sext64(And(s, 0xFFFF_FFFF), 31)
  {
  }

  lemma ThirtyTwo()
    ensures OfBits(31) == 31 && OfBits(32) == 32 && OfBits(5) == 5 && OfBits(0x1_0000_0000) == 0x1_0000_0000
    ensures IsMask(32, 0xFFFF_FFFF) && IsMask(5, 0x1F) && IsSign(31, 0x1_0000_0000, 0xFFFF_FFFF)
  {
  }

  /** The sign-extended low half. */
  lemma WideNumber(s: bv64)
    ensures OfBits(Wide(Low32(s))) as int == Mod64(Int32(OfBits(s) as int))
  {
    hide *;
    var v := And(s, 0xFFFF_FFFF);
    WideIs(s);
    ThirtyTwo(); Powers();
    Low(s, 32, 0xFFFF_FFFF);
    Sext(v, 31, 0x1_0000_0000, 0xFFFF_FFFF);
    TwosComplementMod(OfBits(s) as int, 0x8000_0000);
    RemainderBound(OfBits(s) as int, 0x1_0000_0000);
    Int32Is(OfBits(s) as int);
  }

  lemma Int32Is(x: int)
    ensures Int32(x) == TwosComplement(x, 0x8000_0000)
  {
  }

  /** Multiples of 2^64 do not matter for the low half. */
  lemma Int32Mod(x: int)
    ensures Int32(Mod64(x)) == Int32(x) && Int64(Mod64(Int32(x))) == Int32(x)
  {
    var q, r := x / WORD_MODULUS, x % WORD_MODULUS;
    var s, t := r / 0x1_0000_0000, r % 0x1_0000_0000;
    FloorIs(x, 0x1_0000_0000, q * 0x1_0000_0000 + s, t);
  }

  lemma SumForm(u: int, f7: Funct7, a: bv64, b: bv64)
    ensures AluIntW(0, 0, u, Low32(a), Low32(b)) == Some(Wide(Low32(Plus(a, b))))
  {
    hide *;
    var x, y := Low32(a), Low32(b);
    SumOfLow(a, b, x, y);
    WordSum(u, x, y);
    LowSumIs(a, b);
  }

  lemma WordSum(u: int, x: bv32, y: bv32)
    ensures AluIntW(0, 0, u, x, y) == Some(Wide(Sum32(x, y)))
  {
    hide Wide;
  }

  lemma LowSumIs(a: bv64, b: bv64)
    ensures LowSum(a, b) == Low32(Plus(a, b))
  {
    hide Low32;
  }

  lemma DifferenceBits(a: bv64, b: bv64)
    ensures ((a & 0xFFFF_FFFF) as bv32) - ((b & 0xFFFF_FFFF) as bv32) == ((a - b) & 0xFFFF_FFFF) as bv32
  {
    hide *;
  }

  lemma DifferenceOfLow(a: bv64, b: bv64)
    ensures ((a & 0xFFFF_FFFF) as bv32) - ((b & 0xFFFF_FFFF) as bv32) == Low32(Minus(a, b))
  {
    DifferenceBits(a, b);
  }

  lemma DifferenceForm(u: int, a: bv64, b: bv64)
    ensures AluIntW(0, 0x20, u, (a & 0xFFFF_FFFF) as bv32, (b & 0xFFFF_FFFF) as bv32) == Some(Wide(Low32(Minus(a, b))))
  {
    hide Wide, Low32, Minus;
    DifferenceOfLow(a, b);
  }

  lemma Low32Is(a: bv64)
    ensures Low32(a) == (a & 0xFFFF_FFFF) as bv32
  {
  }

  lemma ShiftNames(a: bv64, b: bv64)
    ensures b & 0x1F < 64
    ensures Low32(Left(a, b & 0x1F)) == ((a << (b & 0x1F)) & 0xFFFF_FFFF) as bv32
  {
  }

  lemma RightShiftNames(a: bv64, b: bv64)
    ensures b & 0x1F < 64
    ensures Low32(Right(a & 0xFFFF_FFFF, b & 0x1F)) == (((a & 0xFFFF_FFFF) >> (b & 0x1F)) & 0xFFFF_FFFF) as bv32
  {
  }

  lemma AndIsMask(a: bv64)
    ensures And(a, 0xFFFF_FFFF) == a & 0xFFFF_FFFF && And(a, 0x1F) == a & 0x1F
  {
  }

  lemma WordShiftForms(u: int, f7: Funct7, a: bv64, b: bv64)
    ensures b & 0x1F < 64
    ensures AluIntW(1, f7, u, Low32(a), Low32(b)) == Some(Wide(Low32(Left(a, b & 0x1F))))
    ensures AluIntW(5, f7, 0, Low32(a), Low32(b)) == Some(Wide(Low32(Right(And(a, 0xFFFF_FFFF), b & 0x1F))))
    ensures AluIntW(5, f7, 0x10, Low32(a), Low32(b)) == Some(ShiftRightArith64(Wide(Low32(a)), b & 0x1F))
  {
    hide *;
    Low32Is(a); Low32Is(b); AndIsMask(a);
    ShiftNames(a, b); RightShiftNames(a, b);
    Codes();
    SllW(u, f7, a, b); SrlW(0, f7, a, b); SraW(f7, Low32(a), b);
  }

  lemma Codes()
    ensures FUNCT3_ADD == 0 && FUNCT3_SLL == 1 && FUNCT3_SR == 5 && UPPERIMM_LOGICAL == 0 && UPPERIMM_ARITH == 0x10
  {
  }

  /** The numbers of the shifts on 32 bits. */
  lemma WordShiftNumbers(f7: Funct7, u: int, a: bv64, b: bv64)
    ensures var A, n := OfBits(a) as int, OfBits(b) as int % 32;
            var x, y := Low32(a), Low32(b);
            var l, r, s := AluIntW(1, f7, u, x, y), AluIntW(5, f7, 0, x, y), AluIntW(5, f7, 0x10, x, y);
            && l.Some? && OfBits(l.value) as int == Mod64(Int32(A * Pow2(n)))
            && r.Some? && OfBits(r.value) as int == Mod64(Int32(A % 0x1_0000_0000 / Pow2(n)))
            && s.Some? && OfBits(s.value) as int == Mod64(Int32(A) / Pow2(n))
  {
    hide *;
    var k, m, z := b & 0x1F, And(a, 0xFFFF_FFFF), Wide(Low32(a));
    WordShiftForms(u, f7, a, b);
    AndIsMask(b);
    ThirtyTwo(); Powers();
    Low(b, 5, 0x1F); Low(a, 32, 0xFFFF_FFFF);
    ShiftLeftNumber(a, k); ShiftRightNumber(m, k); ArithShift(z, k);
    WideNumber(Left(a, k)); WideNumber(Right(m, k)); WideNumber(a);
    Int32Mod(OfBits(a) as int * Pow2(OfBits(k) as int));
    Int32Mod(OfBits(a) as int);
    Int64Is(OfBits(z) as int);
  }

  lemma IntWNumbers(f3: Funct3, f7: Funct7, u: int, a: bv64, b: bv64)
    requires f3 == 0 || f3 == 1 || f3 == 5
    requires (f3 == 0 ==> f7 == 0 || f7 == 0x20) && (f3 == 5 ==> u == 0 || u == 0x10)
    ensures var r := AluIntW(f3, f7, u, Low32(a), Low32(b));
            var alt := if f3 == 0 then f7 == 0x20 else u == 0x10;
            r.Some? && ComputesWord(f3 as int, alt, OfBits(a) as int, OfBits(b) as int, OfBits(r.value) as int)
  {
    hide AluIntW, OfBits, Plus, Minus, Mod64, Pow2, Int32, Int64, Low32, Wide;
    if f3 == 0 {
      SumForm(u, f7, a, b); DifferenceForm(u, a, b); Low32Is(a); Low32Is(b);
      Sum(a, b); Difference(a, b);
      WideNumber(Plus(a, b)); WideNumber(Minus(a, b));
      Int32Mod(OfBits(a) as int + OfBits(b) as int); Int32Mod(OfBits(a) as int - OfBits(b) as int);
    } else {
      WordShiftNumbers(f7, u, a, b);
    }
  }

  lemma IntWDecodes(w: Word, f3: int, f7: int)
    requires FieldsOf(w, 0x3B, f3, f7) && (f3 == 1 || ((f3 == 0 || f3 == 5) && (f7 == 0 || f7 == 0x20)))
    ensures var c := DecodeWord(w);
            c.opcode == 0x3B && c.funct3 as int == f3 && c.funct7 as int == f7 && c.doesArith && UpperImm12(w) == f7 / 2
  {
    ShiftKind(w);
  }

  lemma MaskedWord(f3: int, alt: bool, a: int, b: int, r: int)
    ensures ComputesWord(f3, alt, a, if f3 == 1 || f3 == 5 then b % 32 else b, r) <==> ComputesWord(f3, alt, a, b, r)
  {
    hide Mod64, Pow2, Int32;
  }

  /** ADDW, SUBW, SLLW, SRLW and SRAW. */
  lemma WordOperation(w: Word, pc: Word, a: Word, b: Word, f3: int, f7: int)
    requires FieldsOf(w, 0x3B, f3, f7) && (f3 == 1 || ((f3 == 0 || f3 == 5) && (f7 == 0 || f7 == 0x20)))
    ensures ComputesWord(f3, f7 == 0x20, a as int, b as int, ArithOf(DecodeWord(w), w, pc, a, b) as int)
  {
    hide Mod64, Pow2, Int32, AluInt, AluIntW, AluImm, AluImmW, DecodeWord, OfBits, ToBits, UpperImm12, FieldsOf, Low32;
    IntWDecodes(w, f3, f7);
    var c := DecodeWord(w);
    var y := ShiftMasked(c, b);
    NumberOfBits(a); NumberOfBits(y);
    IntWNumbers(c.funct3, c.funct7, f7 / 2, ToBits(a), ToBits(y));
    MaskedWord(f3, f7 == 0x20, a as int, b as int, ArithOf(c, w, pc, a, b) as int);
  }

  lemma ShamtField(w: bv64)
    ensures ExtractBits(w, 24, 20) == ImmediateI(w) & 0x1F && ExtractBits(w, 24, 20) < 32
  {
  }

  lemma LowNames(a: bv64, e: bv64)
    requires e < 32
    ensures LowLeft(a, e) == Low32(Left(a, e)) && LowRight(a, e) == Low32(Right(a & 0xFFFF_FFFF, e))
  {
    hide Low32;
  }

  /** The immediate operations on 32 bits are the register ones. */
  lemma ImmediatesW(f3: Funct3, f7: Funct7, u: int, w: bv64, a: bv64)
    requires f3 == 0 || f3 == 1 || (f3 == 5 && (u == 0 || u == 0x10))
    requires f3 == 0 ==> f7 == 0
    ensures AluImmW(f3, u, w, Low32(a)) == AluIntW(f3, f7, u, Low32(a), Low32(ImmediateI(w)))
  {
    hide *;
    var b, e := ImmediateI(w), ExtractBits(w, 24, 20);
    Codes();
    ShamtField(w);
    LowNames(a, e);
    AndIsMask(a);
    AddIW(u, w, a); SumForm(u, f7, a, b); LowSumIs(a, b);
    SllIW(u, w, a); SrlIW(w, a); SraIW(w, Low32(a));
    WordShiftForms(u, f7, a, b);
  }

  lemma ImmWDecodes(w: Word, f3: int, f7: int)
    requires FieldsOf(w, 0x1B, f3, f7) && (f3 == 0 || f3 == 1 || (f3 == 5 && (f7 == 0 || f7 == 0x20)))
    ensures var c := DecodeWord(w);
            c.opcode == 0x1B && c.funct3 as int == f3 && c.funct7 as int == f7 && c.doesArith && UpperImm12(w) == f7 / 2
  {
    ShiftKind(w);
  }

  /** ADDIW, SLLIW, SRLIW and SRAIW: the register operations with the immediate. */
  lemma ImmediateWordOperation(w: Word, pc: Word, a: Word, b: Word, f3: int, f7: int)
    requires FieldsOf(w, 0x1B, f3, f7) && (f3 == 0 || f3 == 1 || (f3 == 5 && (f7 == 0 || f7 == 0x20)))
    ensures ComputesWord(f3, f3 == 5 && f7 == 0x20, a as int, Immediate(w), ArithOf(DecodeWord(w), w, pc, a, b) as int)
  {
    hide Mod64, Pow2, Int32, AluInt, AluIntW, AluImm, AluImmW, DecodeWord, OfBits, ToBits, UpperImm12, FieldsOf,
      Low32, ImmediateI, Immediate;
    ImmWDecodes(w, f3, f7);
    var x, v := ToBits(a), ToBits(w);
    var alt: Funct7 := if f3 == 5 && f7 == 0x20 then 0x20 else 0;
    NumberOfBits(a);
    ImmediateNumber(w);
    IntWNumbers(f3 as Funct3, alt, f7 / 2, x, ImmediateI(v));
    ImmediatesW(f3 as Funct3, alt, f7 / 2, v, x);
  }

  // ---- upper immediates and links ----------------------------------------------------------------------------

  /** The signed 32-bit number whose upper 20 bits are those of the word. */
  function Upper(w: Word): int { Int32(w as int / 0x1000 % 0x10_0000 * 0x1000) }

  lemma UpperFieldIs(b: bv64)
    ensures ExtractBits(b, 31, 12) == And(Right(b, 12), 0xF_FFFF)
  {
  }

  lemma LeftIs(v: bv64)
    ensures Left(v, 12) == v << 12
  {
  }

  lemma UpperIs(b: bv64)
    ensures UpperImmediate(b) == Sext64(ExtractBits(b, 31, 12) << 12, 31)
  {
  }

  lemma UpperForm(b: bv64)
    ensures UpperImmediate(b) == Sext64(Left(And(Right(b, 12), 0xF_FFFF), 12), 31)
  {
    hide *;
    UpperFieldIs(b);
    UpperIs(b);
    LeftIs(ExtractBits(b, 31, 12));
  }

  lemma UpperNumber(w: Word)
    ensures OfBits(UpperImmediate(ToBits(w))) as int == Mod64(Upper(w))
  {
    hide *;
    var b := ToBits(w);
    var r := Right(b, 12);
    var v := And(r, 0xF_FFFF);
    var x := Left(v, 12);
    NumberOfBits(w);
    UpperForm(b);
    TwentyAndTwelve(); TwentyBits(); ThirtyTwo(); Powers();
    ShiftRightNumber(b, 12);
    Low(r, 20, 0xF_FFFF);
    ShiftLeftNumber(v, 12);
    RemainderBound(OfBits(r) as int, 0x10_0000);
    ModInc(OfBits(v) as int * 0x1000);
    Sext(x, 31, 0x1_0000_0000, 0xFFFF_FFFF);
    Int32Is(OfBits(x) as int);
    UpperOf(w);
  }

  lemma TwentyBits()
    ensures IsMask(20, 0xF_FFFF)
  {
  }

  lemma UpperOf(w: Word)
    ensures Upper(w) == Int32(w as int / 0x1000 % 0x10_0000 * 0x1000)
  {
  }

  lemma UpperDecodes(w: Word)
    ensures var c, op := DecodeWord(w), w as int % 0x80;
            && (op == 0x37 ==> c.opcode == OP_LUI) && (op == 0x17 ==> c.opcode == OP_AUIPC)
            && (op == 0x6F ==> c.opcode == OP_JAL) && (op == 0x67 ==> c.opcode == OP_JALR)
            && (op == 0x37 || op == 0x17 || op == 0x6F || op == 0x67 ==> c.doesArith)
  {
  }

  lemma DisplacedNumber(x: Word, b: bv64)
    ensures Displaced(x, b) as int == Mod64(x as int + OfBits(b) as int)
  {
    hide OfBits;
  }

  lemma NextNumber(pc: Word)
    ensures Next(pc) as int == Mod64(pc as int + 4)
  {
  }

  lemma ModAbsorbs(x: int, y: int)
    ensures Mod64(x + Mod64(y)) == Mod64(x + y)
  {
  }

  lemma UpperSelects(c: Control, w: Word, pc: Word, a: Word, b: Word)
    requires c.doesArith
    ensures var r, upper := ArithOf(c, w, pc, a, b), UpperImmediate(ToBits(w));
            && (c.opcode == OP_LUI ==> r == OfBits(upper))
            && (c.opcode == OP_AUIPC ==> r == Displaced(pc, upper))
            && (c.opcode == OP_JAL || c.opcode == OP_JALR ==> r == Next(pc))
  {
    hide AluInt, AluIntW, AluImm, AluImmW, OfBits, ToBits, UpperImm12, UpperImmediate, Displaced, Next, ShiftMasked;
  }

  /** LUI yields the upper immediate, AUIPC adds it to the PC, JAL and JALR link to the next instruction. */
  lemma UpperAndLinks(w: Word, pc: Word, a: Word, b: Word)
    ensures var op, r := w as int % 0x80, ArithOf(DecodeWord(w), w, pc, a, b) as int;
            && (op == 0x37 ==> r == Mod64(Upper(w)))
            && (op == 0x17 ==> r == Mod64(pc as int + Upper(w)))
            && (op == 0x6F || op == 0x67 ==> r == Mod64(pc as int + 4))
  {
    hide *;
    UpperDecodes(w);
    UpperNumber(w);
    if DecodeWord(w).doesArith { UpperSelects(DecodeWord(w), w, pc, a, b); }
    DisplacedNumber(pc, UpperImmediate(ToBits(w)));
    NextNumber(pc);
    ModAbsorbs(pc as int, Upper(w));
  }
}
