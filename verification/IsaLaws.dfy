/** Laws of decoding and of the ALU, on the bits: immediates against the encodings of section 2.3 of the RISC-V
    Unprivileged ISA (20191213), and the 32-bit operations of its section 5.2. */
module IsaLaws {
  import opened Utilities
  import opened Instructions
  import opened Shifts

  // ---- immediates --------------------------------------------------------------------------------------------

  /** An instruction word is 32 bits wide. */
  predicate IsWord(w: bv64) { w <= 0xFFFF_FFFF }

  /** The signed numbers of 12, 13 and 21 bits: all higher bits equal the sign bit. */
  predicate Signed12(imm: bv64) { imm >> 11 == 0 || imm >> 11 == 0x1F_FFFF_FFFF_FFFF }

  predicate Signed13(imm: bv64) { imm >> 12 == 0 || imm >> 12 == 0xF_FFFF_FFFF_FFFF }

  predicate Signed21(imm: bv64) { imm >> 20 == 0 || imm >> 20 == 0xFFF_FFFF_FFFF }

  /** `w` with its I-type immediate replaced: imm[11:0] in bits 31..20. */
  function EncodeI(w: bv64, imm: bv64): bv64 {
    (w & 0x000F_FFFF) | ((imm & 0xFFF) << 20)
  }

  /** `w` with its S-type immediate replaced: imm[11:5] in bits 31..25, imm[4:0] in bits 11..7. */
  function EncodeS(w: bv64, imm: bv64): bv64 {
    (w & 0x01FF_F07F) | (((imm >> 5) & 0x7F) << 25) | ((imm & 0x1F) << 7)
  }

  /** `w` with its B-type immediate replaced: imm[12|10:5] in bits 31..25, imm[4:1|11] in bits 11..7. */
  function EncodeB(w: bv64, imm: bv64): bv64 {
    (w & 0x01FF_F07F) | (((imm >> 12) & 1) << 31) | (((imm >> 5) & 0x3F) << 25) | (((imm >> 1) & 0xF) << 8)
    | (((imm >> 11) & 1) << 7)
  }

  /** `w` with its J-type immediate replaced: imm[20|10:1|11|19:12] in bits 31..12. */
  function EncodeJ(w: bv64, imm: bv64): bv64 {
    (w & 0xFFF) | (((imm >> 20) & 1) << 31) | (((imm >> 1) & 0x3FF) << 21) | (((imm >> 11) & 1) << 20)
    | (((imm >> 12) & 0xFF) << 12)
  }

  /** The immediate bits of the four formats before sign extension, straight from the word. */
  function IBits(w: bv64): bv64 {
    (w >> 20) & 0xFFF
  }

  function SBits(w: bv64): bv64 {
    (((w >> 25) & 0x7F) << 5) | ((w >> 7) & 0x1F)
  }

  function BBits(w: bv64): bv64 {
    (((w >> 31) & 1) << 12) | (((w >> 25) & 0x3F) << 5) | (((w >> 8) & 0xF) << 1) | (((w >> 7) & 1) << 11)
  }

  function JBits(w: bv64): bv64 {
    (((w >> 31) & 1) << 20) | (((w >> 21) & 0x3FF) << 1) | (((w >> 20) & 1) << 11) | (((w >> 12) & 0xFF) << 12)
  }

  lemma Extend11(v: bv64)
    ensures Sext64(v, 11) == if v & 0x800 != 0 then v | 0xFFFF_FFFF_FFFF_F000 else v
  {
  }

  lemma Extend12(v: bv64)
    ensures Sext64(v, 12) == if v & 0x1000 != 0 then v | 0xFFFF_FFFF_FFFF_E000 else v
  {
  }

  lemma Extend20(v: bv64)
    ensures Sext64(v, 20) == if v & 0x10_0000 != 0 then v | 0xFFFF_FFFF_FFE0_0000 else v
  {
  }

  lemma Extend11Range(v: bv64)
    requires v & 0xFFFF_FFFF_FFFF_F000 == 0
    ensures Signed12(Sext64(v, 11)) && Sext64(v, 11) & 1 == v & 1
  {
    hide Sext64;
    Extend11(v);
  }

  lemma Extend12Range(v: bv64)
    requires v & 0xFFFF_FFFF_FFFF_E000 == 0
    ensures Signed13(Sext64(v, 12)) && Sext64(v, 12) & 1 == v & 1
  {
    hide Sext64;
    Extend12(v);
  }

  lemma Extend20Range(v: bv64)
    requires v & 0xFFFF_FFFF_FFE0_0000 == 0
    ensures Signed21(Sext64(v, 20)) && Sext64(v, 20) & 1 == v & 1
  {
    hide Sext64;
    Extend20(v);
  }

  lemma Restored12(imm: bv64)
    requires Signed12(imm)
    ensures (if (imm & 0xFFF) & 0x800 != 0 then (imm & 0xFFF) | 0xFFFF_FFFF_FFFF_F000 else imm & 0xFFF) == imm
  {
  }

  lemma Restored13(imm: bv64)
    requires Signed13(imm)
    ensures (if (imm & 0x1FFF) & 0x1000 != 0 then (imm & 0x1FFF) | 0xFFFF_FFFF_FFFF_E000 else imm & 0x1FFF) == imm
  {
  }

  lemma Restored21(imm: bv64)
    requires Signed21(imm)
    ensures (if (imm & 0x1F_FFFF) & 0x10_0000 != 0 then (imm & 0x1F_FFFF) | 0xFFFF_FFFF_FFE0_0000 else imm & 0x1F_FFFF)
            == imm
  {
  }

  lemma IForm(w: bv64)
    ensures ImmediateI(w) == Sext64(IBits(w), 11)
  {
    hide Sext64;
  }

  lemma IBitsOfEncoded(w: bv64, imm: bv64)
    ensures IBits(EncodeI(w, imm)) == imm & 0xFFF
  {
  }

  /** The I-type immediate inverts its encoding over the whole range. */
  lemma IDecodesEncoded(w: bv64, imm: bv64)
    requires Signed12(imm)
    ensures ImmediateI(EncodeI(w, imm)) == imm
  {
    hide ImmediateI, Sext64, EncodeI, IBits, Signed12;
    IForm(EncodeI(w, imm));
    IBitsOfEncoded(w, imm);
    Extend11(imm & 0xFFF);
    Restored12(imm);
  }

  lemma IBitsRange(w: bv64)
    ensures IBits(w) & 0xFFFF_FFFF_FFFF_F000 == 0
  {
  }

  /** Encoding looks at the low bits only. */
  lemma EncodeIIgnoresSign(w: bv64, v: bv64)
    ensures EncodeI(w, v | 0xFFFF_FFFF_FFFF_F000) == EncodeI(w, v)
  {
  }

  lemma EncodeIRestores(w: bv64)
    requires IsWord(w)
    ensures EncodeI(w, IBits(w)) == w
  {
  }

  /** Encoding the I-type immediate of a word again restores the word; the immediate is in range. */
  lemma IEncodesDecoded(w: bv64)
    requires IsWord(w)
    ensures EncodeI(w, ImmediateI(w)) == w
    ensures Signed12(ImmediateI(w))
  {
    hide ImmediateI, Sext64, EncodeI, IBits;
    IForm(w);
    IBitsRange(w);
    Extend11(IBits(w));
    Extend11Range(IBits(w));
    EncodeIIgnoresSign(w, IBits(w));
    EncodeIRestores(w);
  }

  lemma SForm(w: bv64)
    ensures ImmediateS(w) == Sext64(SBits(w), 11)
  {
    hide Sext64;
  }

  lemma SBitsOfEncoded(w: bv64, imm: bv64)
    ensures SBits(EncodeS(w, imm)) == imm & 0xFFF
  {
  }

  /** The S-type immediate inverts its encoding over the whole range. */
  lemma SDecodesEncoded(w: bv64, imm: bv64)
    requires Signed12(imm)
    ensures ImmediateS(EncodeS(w, imm)) == imm
  {
    hide ImmediateS, Sext64, EncodeS, SBits, Signed12;
    SForm(EncodeS(w, imm));
    SBitsOfEncoded(w, imm);
    Extend11(imm & 0xFFF);
    Restored12(imm);
  }

  lemma SBitsRange(w: bv64)
    ensures SBits(w) & 0xFFFF_FFFF_FFFF_F000 == 0
  {
  }

  /** Encoding looks at the low bits only. */
  lemma EncodeSIgnoresSign(w: bv64, v: bv64)
    ensures EncodeS(w, v | 0xFFFF_FFFF_FFFF_F000) == EncodeS(w, v)
  {
  }

  lemma EncodeSRestores(w: bv64)
    requires IsWord(w)
    ensures EncodeS(w, SBits(w)) == w
  {
  }

  /** Encoding the S-type immediate of a word again restores the word; the immediate is in range. */
  lemma SEncodesDecoded(w: bv64)
    requires IsWord(w)
    ensures EncodeS(w, ImmediateS(w)) == w
    ensures Signed12(ImmediateS(w))
  {
    hide ImmediateS, Sext64, EncodeS, SBits;
    SForm(w);
    SBitsRange(w);
    Extend11(SBits(w));
    Extend11Range(SBits(w));
    EncodeSIgnoresSign(w, SBits(w));
    EncodeSRestores(w);
  }

  lemma BForm(w: bv64)
    ensures BranchOffset(w) == Sext64(BBits(w), 12)
  {
    hide Sext64;
  }

  lemma BBitsOfEncoded(w: bv64, imm: bv64)
    requires imm & 1 == 0
    ensures BBits(EncodeB(w, imm)) == imm & 0x1FFF
  {
  }

  /** The B-type immediate inverts its encoding over the whole range. */
  lemma BDecodesEncoded(w: bv64, imm: bv64)
    requires Signed13(imm) && imm & 1 == 0
    ensures BranchOffset(EncodeB(w, imm)) == imm
  {
    hide BranchOffset, Sext64, EncodeB, BBits, Signed13;
    BForm(EncodeB(w, imm));
    BBitsOfEncoded(w, imm);
    Extend12(imm & 0x1FFF);
    Restored13(imm);
  }

  lemma BBitsRange(w: bv64)
    ensures BBits(w) & 0xFFFF_FFFF_FFFF_E000 == 0 && BBits(w) & 1 == 0
  {
  }

  /** Encoding looks at the low bits only. */
  lemma EncodeBIgnoresSign(w: bv64, v: bv64)
    ensures EncodeB(w, v | 0xFFFF_FFFF_FFFF_E000) == EncodeB(w, v)
  {
  }

  lemma EncodeBRestores(w: bv64)
    requires IsWord(w)
    ensures EncodeB(w, BBits(w)) == w
  {
  }

  /** Encoding the B-type immediate of a word again restores the word; the immediate is in range. */
  lemma BEncodesDecoded(w: bv64)
    requires IsWord(w)
    ensures EncodeB(w, BranchOffset(w)) == w
    ensures Signed13(BranchOffset(w))
    ensures BranchOffset(w) & 1 == 0
  {
    hide BranchOffset, Sext64, EncodeB, BBits;
    BForm(w);
    BBitsRange(w);
    Extend12(BBits(w));
    Extend12Range(BBits(w));
    EncodeBIgnoresSign(w, BBits(w));
    EncodeBRestores(w);
  }

  lemma JForm(w: bv64)
    ensures JumpOffset(w) == Sext64(JBits(w), 20)
  {
    hide Sext64;
  }

  /** The four fields of a J-type immediate after encoding. */
  lemma JFields(w: bv64, imm: bv64)
    ensures (EncodeJ(w, imm) >> 31) & 1 == (imm >> 20) & 1
    ensures (EncodeJ(w, imm) >> 21) & 0x3FF == (imm >> 1) & 0x3FF
    ensures (EncodeJ(w, imm) >> 20) & 1 == (imm >> 11) & 1
    ensures (EncodeJ(w, imm) >> 12) & 0xFF == (imm >> 12) & 0xFF
  {
  }

  /** The fields make up the low 21 bits of an even immediate. */
  lemma JReassembled(imm: bv64)
    requires imm & 1 == 0
    ensures (((imm >> 20) & 1) << 20) | (((imm >> 1) & 0x3FF) << 1) | (((imm >> 11) & 1) << 11)
            | (((imm >> 12) & 0xFF) << 12) == imm & 0x1F_FFFF
  {
  }

  lemma JBitsOfEncoded(w: bv64, imm: bv64)
    requires imm & 1 == 0
    ensures JBits(EncodeJ(w, imm)) == imm & 0x1F_FFFF
  {
    hide EncodeJ;
    JFields(w, imm);
    JReassembled(imm);
  }

  /** The J-type immediate inverts its encoding over the whole range. */
  lemma JDecodesEncoded(w: bv64, imm: bv64)
    requires Signed21(imm) && imm & 1 == 0
    ensures JumpOffset(EncodeJ(w, imm)) == imm
  {
    hide JumpOffset, Sext64, EncodeJ, JBits, Signed21;
    JForm(EncodeJ(w, imm));
    JBitsOfEncoded(w, imm);
    Extend20(imm & 0x1F_FFFF);
    Restored21(imm);
  }

  lemma JBitsRange(w: bv64)
    ensures JBits(w) & 0xFFFF_FFFF_FFE0_0000 == 0 && JBits(w) & 1 == 0
  {
  }

  /** Encoding looks at the low 21 bits only. */
  lemma EncodeJIgnoresSign(w: bv64, v: bv64)
    ensures EncodeJ(w, v | 0xFFFF_FFFF_FFE0_0000) == EncodeJ(w, v)
  {
  }

  lemma EncodeJRestores(w: bv64)
    requires IsWord(w)
    ensures EncodeJ(w, JBits(w)) == w
  {
  }

  /** Encoding the J-type immediate of a word again restores the word; the immediate is in range. */
  lemma JEncodesDecoded(w: bv64)
    requires IsWord(w)
    ensures EncodeJ(w, JumpOffset(w)) == w
    ensures Signed21(JumpOffset(w))
    ensures JumpOffset(w) & 1 == 0
  {
    hide JumpOffset, Sext64, EncodeJ, JBits;
    JForm(w);
    JBitsRange(w);
    Extend20(JBits(w));
    Extend20Range(JBits(w));
    EncodeJIgnoresSign(w, JBits(w));
    EncodeJRestores(w);
  }

  // ---- the ALU -----------------------------------------------------------------------------------------------

  /** The function codes under which the switches of the ALU have a case. */
  predicate HasCase(op: Opcode, f3: Funct3, f7: Funct7) {
    || (op == OP_INT && LegalInt(f3, f7)) || (op == OP_INTW && LegalIntW(f3, f7))
    || (op == OP_INTIMM && LegalIntImm(f3, f7)) || (op == OP_INTIMMW && LegalIntImmW(f3, f7))
    || op == OP_LUI || op == OP_AUIPC || op == OP_JAL || op == OP_JALR
  }

  lemma ArithHasCase(op: Opcode, f3: Funct3, f7: Funct7)
    requires SignalsOf(op, f3, f7).doesArith
    ensures HasCase(op, f3, f7)
  {
    hide LegalInt, LegalIntW, LegalIntImm, LegalIntImmW, LegalLoad, LegalStore, LegalBranch;
  }

  /** The arithmetic reading of the fields: extracting bits divides and takes the remainder. */
  lemma FieldsAreBits(w: bv64)
    ensures ExtractBits(w, 6, 0) == w % 0x80 && ExtractBits(w, 11, 7) == w / 0x80 % 0x20
    ensures ExtractBits(w, 14, 12) == w / 0x1000 % 8 && ExtractBits(w, 19, 15) == w / 0x8000 % 0x20
    ensures ExtractBits(w, 24, 20) == w / 0x10_0000 % 0x20 && ExtractBits(w, 31, 25) == w / 0x200_0000 % 0x80
    ensures ExtractBits(w, 31, 26) == w / 0x400_0000 % 0x40
  {
  }

  /** The six bits that tell shifts apart are the upper six of the seven that decoding checks. */
  lemma ShiftKind(w: Word)
    ensures UpperImm12(w) == Funct7Of(w) as int / 2
  {
    HalvedField(w as int / 0x200_0000);
    HalvedShift(w as int);
  }

  lemma HalvedField(q: int)
    requires 0 <= q
    ensures q % 0x80 / 2 == q / 2 % 0x40
  {
    var p, r := q / 0x80, q % 0x80;
    assert q == 0x80 * p + r;
    assert q / 2 == 0x40 * p + r / 2;
  }

  lemma HalvedShift(x: int)
    requires 0 <= x
    ensures x / 0x200_0000 / 2 == x / 0x400_0000
  {
  }

  lemma IntIsDefined(f3: Funct3, f7: Funct7, a: bv64, b: bv64)
    requires LegalInt(f3, f7)
    ensures AluInt(f3, f7, f7 as int / 2, a, b).Some?
  {
    hide ShiftRightArith64, SignedLess, Flag;
  }

  lemma IntWIsDefined(f3: Funct3, f7: Funct7, a: bv32, b: bv32)
    requires LegalIntW(f3, f7)
    ensures AluIntW(f3, f7, f7 as int / 2, a, b).Some?
  {
    hide Wide, ShiftRightArith32;
  }

  lemma ImmIsDefined(f3: Funct3, f7: Funct7, w: bv64, a: bv64)
    requires LegalIntImm(f3, f7)
    ensures AluImm(f3, f7 as int / 2, w, a).Some?
  {
    hide ShiftRightArith64, SignedLess, Flag, Sext64, ExtractBits;
  }

  lemma ImmWIsDefined(f3: Funct3, f7: Funct7, w: bv64, a: bv32)
    requires LegalIntImmW(f3, f7)
    ensures AluImmW(f3, f7 as int / 2, w, a).Some?
  {
    hide Wide, ShiftRightArith32, Sext32, ExtractBits, Low32;
  }

  lemma CasesAreDefined(c: Control, w: bv64, a: bv64, b: bv64)
    requires HasCase(c.opcode, c.funct3, c.funct7)
    requires c.opcode != OP_AUIPC && c.opcode != OP_JAL && c.opcode != OP_JALR
    ensures AluBits(c, c.funct7 as int / 2, w, a, b).Some?
  {
    hide AluInt, AluIntW, AluImm, AluImmW, UpperImmediate, Low32, LegalInt, LegalIntW, LegalIntImm, LegalIntImmW;
    if c.opcode == OP_INT { IntIsDefined(c.funct3, c.funct7, a, b); }
    if c.opcode == OP_INTW { IntWIsDefined(c.funct3, c.funct7, Low32(a), Low32(b)); }
    if c.opcode == OP_INTIMM { ImmIsDefined(c.funct3, c.funct7, w, a); }
    if c.opcode == OP_INTIMMW { ImmWIsDefined(c.funct3, c.funct7, w, Low32(a)); }
  }

  /** Every instruction that decoding marks for the ALU has a case in it: its result does not depend on what the
      result field held before. */
  lemma ArithIsDefined(w: Word, pc: Word, a: Word, b: Word, x: Word, y: Word)
    requires DecodeWord(w).doesArith
    ensures Alu(DecodeWord(w), w, pc, a, b, x) == Alu(DecodeWord(w), w, pc, a, b, y)
  {
    hide SignalsOf, HasCase, AluBits, UpperImm12, OpcodeOf, Funct3Of, Funct7Of, RdOf, Rs1Of, Rs2Of, ToBits, OfBits;
    var c := DecodeWord(w);
    ArithHasCase(c.opcode, c.funct3, c.funct7);
    ShiftKind(w);
    if c.opcode != OP_AUIPC && c.opcode != OP_JAL && c.opcode != OP_JALR {
      CasesAreDefined(c, ToBits(w), ToBits(a), ToBits(b));
    }
  }

  lemma WideForm(x: bv32)
    ensures Wide(x) == if x & 0x8000_0000 != 0 then (x as bv64) | 0xFFFF_FFFF_0000_0000 else x as bv64
  {
  }

  lemma AmountForm(b: bv64)
    ensures (((b & 0xFFFF_FFFF) as bv32) & 0x1F) as bv64 == b & 0x1F
  {
    hide *;
  }

  /** ADDW is the sign-extended low half of the 64-bit sum, whatever the upper halves `p` and `q` hold. */
  lemma AddW(upper: int, x: bv32, y: bv32, p: bv32, q: bv32)
    ensures AluIntW(FUNCT3_ADD, FUNCT7_ADD, upper, x, y)
            == Some(Wide(
                 (((((p as bv64) << 32) | (x as bv64)) + (((q as bv64) << 32) | (y as bv64))) & 0xFFFF_FFFF) as bv32))
  {
    hide Wide;
  }

  /** SUBW is the sign-extended low half of the 64-bit difference. */
  lemma SubW(upper: int, x: bv32, y: bv32, p: bv32, q: bv32)
    ensures AluIntW(FUNCT3_ADD, FUNCT7_SUB, upper, x, y)
            == Some(Wide(
                 (((((p as bv64) << 32) | (x as bv64)) - (((q as bv64) << 32) | (y as bv64))) & 0xFFFF_FFFF) as bv32))
  {
    hide Wide;
  }

  lemma ShiftLeftLow(a: bv64, n: bv32)
    requires n < 32
    ensures ((a & 0xFFFF_FFFF) as bv32) << n == ((a << (n as bv64)) & 0xFFFF_FFFF) as bv32
  {
    hide *;
  }

  /** SLLW is the sign-extended low half of SLL by the low five bits of the amount. */
  lemma SllW(upper: int, f7: Funct7, a: bv64, b: bv64)
    ensures AluIntW(FUNCT3_SLL, f7, upper, (a & 0xFFFF_FFFF) as bv32, (b & 0xFFFF_FFFF) as bv32)
            == Some(Wide(((a << (b & 0x1F)) & 0xFFFF_FFFF) as bv32))
  {
    hide Wide;
    AmountForm(b);
    ShiftLeftLow(a, ((b & 0xFFFF_FFFF) as bv32) & 0x1F);
  }

  lemma ShiftRightLow(a: bv64, n: bv32)
    requires n < 32
    ensures ((a & 0xFFFF_FFFF) as bv32) >> n == (((a & 0xFFFF_FFFF) >> (n as bv64)) & 0xFFFF_FFFF) as bv32
  {
    hide *;
  }

  /** SRLW is the sign-extended low half of SRL on the zero-extended operand. */
  lemma SrlW(upper: int, f7: Funct7, a: bv64, b: bv64)
    requires upper == UPPERIMM_LOGICAL
    ensures AluIntW(FUNCT3_SR, f7, upper, (a & 0xFFFF_FFFF) as bv32, (b & 0xFFFF_FFFF) as bv32)
            == Some(Wide((((a & 0xFFFF_FFFF) >> (b & 0x1F)) & 0xFFFF_FFFF) as bv32))
  {
    hide Wide;
    AmountForm(b);
    ShiftRightLow(a, ((b & 0xFFFF_FFFF) as bv32) & 0x1F);
  }

  lemma WideBySign(x: bv32)
    ensures Wide(x) == if Negative(x) then (x as bv64) | 0xFFFF_FFFF_0000_0000 else x as bv64
  {
    hide Wide;
    WideForm(x);
  }

  /** The 32-bit arithmetic shift, sign-extended, is the 64-bit one of the sign-extended operand. */
  lemma ArithShiftWidens(x: bv32, n: bv32)
    requires n < 32
    ensures Wide(ShiftRightArith32(x, n)) == ShiftRightArith64(Wide(x), n as bv64)
  {
    hide *;
    var y, r := ShiftRightArith64(Wide(x), n as bv64), ShiftRightArith32(x, n);
    WideBySign(x);
    WideBySign(r);
    ShiftKeepsSign(x, n, r);
    if Negative(x) { NegativeShift(x, n, y, r); } else { PositiveShift(x, n, y, r); }
  }

  /** SRAW is the 64-bit arithmetic shift of the sign-extended operand by the low five bits of the amount. */
  lemma SraW(f7: Funct7, x: bv32, b: bv64)
    ensures AluIntW(FUNCT3_SR, f7, UPPERIMM_ARITH, x, (b & 0xFFFF_FFFF) as bv32)
            == Some(ShiftRightArith64(Wide(x), b & 0x1F))
  {
    hide Wide, ShiftRightArith32, ShiftRightArith64;
    AmountForm(b);
    ArithShiftWidens(x, ((b & 0xFFFF_FFFF) as bv32) & 0x1F);
  }

  // The immediate forms, against the low halves of 64-bit operations.  The operations are functions of their own, so
  // that proofs which combine these facts need not look at bits.

  function Sum32(x: bv32, y: bv32): bv32 { x + y }

  function Left32(x: bv32, n: bv32): bv32
    requires n < 32
  {
    x << n
  }

  function Right32(x: bv32, n: bv32): bv32
    requires n < 32
  {
    x >> n
  }

  function LowSum(a: bv64, b: bv64): bv32 { Low32(a + b) }

  function LowLeft(a: bv64, n: bv64): bv32
    requires n < 32
  {
    Low32(a << n)
  }

  /** The zero-extended low half, shifted right. */
  function LowRight(a: bv64, n: bv64): bv32
    requires n < 32
  {
    Low32((a & 0xFFFF_FFFF) >> n)
  }

  lemma SumBits(a: bv64, j: bv64, x: bv32, y: bv32)
    requires x == (a & 0xFFFF_FFFF) as bv32 && y == (j & 0xFFFF_FFFF) as bv32
    ensures x + y == ((a + j) & 0xFFFF_FFFF) as bv32
  {
    hide *;
  }

  lemma LeftBits(a: bv64, x: bv32, n: bv32, e: bv64)
    requires n < 32 && e == n as bv64 && x == (a & 0xFFFF_FFFF) as bv32
    ensures x << n == ((a << e) & 0xFFFF_FFFF) as bv32
  {
    hide *;
  }

  lemma SumLow(a: bv64, j: bv64, x: bv32, y: bv32)
    requires x == Low32(a) && y == Low32(j)
    ensures x + y == Low32(a + j)
  {
    SumBits(a, j, x, y);
  }

  lemma SumForms(a: bv64, j: bv64, x: bv32, y: bv32, r: bv32, t: bv32)
    requires r == x + y && t == Low32(a + j)
    ensures Sum32(x, y) == r && LowSum(a, j) == t
  {
    hide Low32;
  }

  lemma SumOfLow(a: bv64, j: bv64, x: bv32, y: bv32)
    requires x == Low32(a) && y == Low32(j)
    ensures Sum32(x, y) == LowSum(a, j)
  {
    hide *;
    var r, t := x + y, Low32(a + j);
    SumLow(a, j, x, y);
    SumForms(a, j, x, y, r, t);
  }

  lemma LeftLow(a: bv64, x: bv32, n: bv32, e: bv64)
    requires n < 32 && e == n as bv64 && x == Low32(a)
    ensures x << n == Low32(a << e)
  {
    LeftBits(a, x, n, e);
  }

  lemma LeftForms(a: bv64, x: bv32, n: bv32, e: bv64, r: bv32, t: bv32)
    requires n < 32 && e < 32 && r == x << n && t == Low32(a << e)
    ensures Left32(x, n) == r && LowLeft(a, e) == t
  {
    hide Low32;
  }

  lemma LeftOfLow(a: bv64, x: bv32, n: bv32, e: bv64)
    requires n < 32 && e == n as bv64 && x == Low32(a)
    ensures Left32(x, n) == LowLeft(a, e)
  {
    hide *;
    var r, t := x << n, Low32(a << e);
    LeftLow(a, x, n, e);
    LeftForms(a, x, n, e, r, t);
  }

  function LowShifted(y: bv64, e: bv64): bv32
    requires e < 32
  {
    Low32(y >> e)
  }

  lemma LowWide(a: bv64, x: bv32)
    requires x == Low32(a)
    ensures x as bv64 == a & 0xFFFF_FFFF
  {
  }

  lemma RightWide(x: bv32, n: bv32)
    requires n < 32
    ensures x >> n == Low32((x as bv64) >> (n as bv64))
  {
  }

  lemma RightForms(x: bv32, n: bv32)
    requires n < 32
    ensures n as bv64 < 32 && Right32(x, n) == LowShifted(x as bv64, n as bv64)
  {
    hide Low32;
    RightWide(x, n);
  }

  lemma LowRightShifts(a: bv64, e: bv64)
    requires e < 32
    ensures LowRight(a, e) == LowShifted(a & 0xFFFF_FFFF, e)
  {
    hide Low32;
  }

  lemma RightOfLow(a: bv64, x: bv32, n: bv32, e: bv64)
    requires n < 32 && e == n as bv64 && x == Low32(a)
    ensures Right32(x, n) == LowRight(a, e)
  {
    hide *;
    RightForms(x, n);
    LowWide(a, x);
    LowRightShifts(a, e);
  }

  lemma SignBitLow(k: bv64)
    ensures (((k & 0xFFFF_FFFF) as bv32) & 0x800 != 0) == (k & 0x800 != 0)
  {
    hide *;
  }

  lemma SignOnesLow(k: bv64)
    ensures ((k & 0xFFFF_FFFF) as bv32) | 0xFFFF_F000 == ((k | 0xFFFF_FFFF_FFFF_F000) & 0xFFFF_FFFF) as bv32
  {
    hide *;
  }

  lemma SignExtendedLow(k: bv64)
    requires k < 0x1000
    ensures Sext32(Low32(k), 11) == Low32(Sext64(k, 11))
  {
    SignBitLow(k);
    if k & 0x800 != 0 { SignOnesLow(k); }
  }

  lemma ImmediateRange(w: bv64)
    ensures ExtractBits(w, 31, 20) < 0x1000
  {
  }

  lemma ImmediateLow(w: bv64)
    ensures Sext32(Low32(ExtractBits(w, 31, 20)), 11) == Low32(ImmediateI(w))
  {
    hide Sext32, Sext64, Low32, ExtractBits;
    ImmediateRange(w);
    SignExtendedLow(ExtractBits(w, 31, 20));
  }

  /** The amount of an immediate shift: bits 24 to 20 of the word. */
  lemma ImmediateAmount(w: bv64, n: bv32)
    requires n == Low32(ExtractBits(w, 31, 20)) & 0x1F
    ensures n < 32 && n as bv64 == ExtractBits(w, 24, 20)
  {
  }

  lemma AddCase(upper: int, w: bv64, x: bv32, y: bv32)
    requires y == Sext32(Low32(ExtractBits(w, 31, 20)), 11)
    ensures AluImmW(FUNCT3_ADD, upper, w, x) == Some(Wide(Sum32(x, y)))
  {
    hide Wide, Sext32, ExtractBits, Low32;
  }

  lemma SllCase(upper: int, w: bv64, x: bv32, n: bv32)
    requires n < 32 && n == Low32(ExtractBits(w, 31, 20)) & 0x1F
    ensures AluImmW(FUNCT3_SLL, upper, w, x) == Some(Wide(Left32(x, n)))
  {
    hide Wide, Sext32, ExtractBits, Low32;
  }

  lemma SrlCase(w: bv64, x: bv32, n: bv32)
    requires n < 32 && n == Low32(ExtractBits(w, 31, 20)) & 0x1F
    ensures AluImmW(FUNCT3_SR, UPPERIMM_LOGICAL, w, x) == Some(Wide(Right32(x, n)))
  {
    hide Wide, Sext32, ExtractBits, Low32;
  }

  /** ADDIW is the sign-extended low half of the 64-bit sum with the I immediate. */
  lemma AddIW(upper: int, w: bv64, a: bv64)
    ensures AluImmW(FUNCT3_ADD, upper, w, Low32(a)) == Some(Wide(LowSum(a, ImmediateI(w))))
  {
    hide *;
    var x, y, j := Low32(a), Sext32(Low32(ExtractBits(w, 31, 20)), 11), ImmediateI(w);
    AddCase(upper, w, x, y);
    ImmediateLow(w);
    SumOfLow(a, j, x, y);
  }

  /** SLLIW is the sign-extended low half of the 64-bit shift by bits 24 to 20 of the word. */
  lemma SllIW(upper: int, w: bv64, a: bv64)
    ensures ExtractBits(w, 24, 20) < 32
    ensures AluImmW(FUNCT3_SLL, upper, w, Low32(a)) == Some(Wide(LowLeft(a, ExtractBits(w, 24, 20))))
  {
    hide *;
    var x, n, e := Low32(a), Low32(ExtractBits(w, 31, 20)) & 0x1F, ExtractBits(w, 24, 20);
    ImmediateAmount(w, n);
    SllCase(upper, w, x, n);
    LeftOfLow(a, x, n, e);
  }

  /** SRLIW is the sign-extended shift of the zero-extended low half by those bits. */
  lemma SrlIW(w: bv64, a: bv64)
    ensures ExtractBits(w, 24, 20) < 32
    ensures AluImmW(FUNCT3_SR, UPPERIMM_LOGICAL, w, Low32(a)) == Some(Wide(LowRight(a, ExtractBits(w, 24, 20))))
  {
    hide *;
    var x, n, e := Low32(a), Low32(ExtractBits(w, 31, 20)) & 0x1F, ExtractBits(w, 24, 20);
    ImmediateAmount(w, n);
    SrlCase(w, x, n);
    RightOfLow(a, x, n, e);
  }

  /** SRAIW is the 64-bit arithmetic shift of the sign-extended operand by those bits. */
  lemma SraIW(w: bv64, x: bv32)
    ensures AluImmW(FUNCT3_SR, UPPERIMM_ARITH, w, x) == Some(ShiftRightArith64(Wide(x), ExtractBits(w, 24, 20)))
  {
    hide Wide, Sext32, ExtractBits, ShiftRightArith32, ShiftRightArith64;
    var n := Low32(ExtractBits(w, 31, 20)) & 0x1F;
    ImmediateAmount(w, n);
    ArithShiftWidens(x, n);
  }
}
