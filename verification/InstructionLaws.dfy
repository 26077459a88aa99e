/** What instruction words mean beyond the ALU, with their fields in plain numbers: which words are legal and what they
    read and write, where they go next, and what they load and store. */
module InstructionLaws {
  import opened Utilities
  import opened Numbers
  import opened Memory
  import opened Instructions
  import opened AluLaws

  // ---- decoding ----------------------------------------------------------------------------------------------

  /** The legal combinations of opcode, funct3 and funct7. */
  predicate LegalWord(op: int, f3: int, f7: int) {
    || (op == 0x33 && LegalRegister(f3, f7))
    || (op == 0x3B && (f3 == 1 || ((f3 == 0 || f3 == 5) && (f7 == 0 || f7 == 0x20))))
    || (op == 0x13 && (f3 == 5 ==> f7 / 2 == 0 || f7 / 2 == 0x10))
    || (op == 0x1B && (f3 == 0 || f3 == 1 || (f3 == 5 && (f7 == 0 || f7 == 0x20))))
    || (op == 0x03 && f3 != 7)
    || (op == 0x23 && f3 <= 3)
    || (op == 0x63 && f3 != 2 && f3 != 3)
    || op == 0x67 || op == 0x6F || op == 0x17 || op == 0x37
  }

  /** The decoder: legal words, what they do, and the registers they name; 0x13 is the NOP, 0xFEEDFEED is HALT. */
  lemma DecodeTable(w: Word, op: int, f3: int, f7: int)
    requires FieldsOf(w, op, f3, f7)
    ensures var c := DecodeWord(w);
            && (c.isNop <==> w == 0x13) && (c.isHalt <==> w == 0xFEED_FEED)
            && (c.isLegal <==> w == 0xFEED_FEED || LegalWord(op, f3, f7))
            && c.opcode as int == op && c.funct3 as int == f3 && c.funct7 as int == f7
            && c.rd as int == w as int / 0x80 % 0x20
            && c.rs1 as int == w as int / 0x8000 % 0x20 && c.rs2 as int == w as int / 0x10_0000 % 0x20
    ensures var c := DecodeWord(w);
            var plain := w != 0x13 && w != 0xFEED_FEED && LegalWord(op, f3, f7);
            && (c.readsMem <==> plain && op == 0x03) && (c.writesMem <==> plain && op == 0x23)
            && (c.doesArith <==> plain && op != 0x03 && op != 0x23 && op != 0x63)
            && (c.writesRd <==> plain && op != 0x23 && op != 0x63)
            && (c.readsRs1 <==> plain && op != 0x37 && op != 0x17 && op != 0x6F)
            && (c.readsRs2 <==> plain && (op == 0x33 || op == 0x3B || op == 0x23 || op == 0x63))
  {
  }

  // ---- the next PC -------------------------------------------------------------------------------------------

  /** The signed order of 64-bit numbers, by sign bit and unsigned order. */
  predicate SignedBelow(a: int, b: int) {
    var half := 0x8000_0000_0000_0000;
    if (a >= half) == (b >= half) then a < b else a >= half
  }

  /** When a conditional branch is taken. */
  predicate Condition(f3: int, a: int, b: int) {
    if f3 == 0 then a == b
    else if f3 == 1 then a != b
    else if f3 == 4 then SignedBelow(a, b)
    else if f3 == 5 then !SignedBelow(a, b)
    else if f3 == 6 then a < b
    else a >= b
  }

  lemma BranchCondition(f3: Funct3, a: Word, b: Word)
    requires f3 != 2 && f3 != 3
    ensures BranchTaken(f3, a, b) <==> Condition(f3 as int, a as int, b as int)
  {
  }

  /** Where each kind of instruction goes: a branch to its offset or to the next instruction, JAL to its offset, JALR to
      the even part of register and immediate, anything else to the next instruction. */
  lemma NextPCTable(w: Word, pc: Word, a: Word, b: Word, op: int, f3: int, f7: int)
    requires FieldsOf(w, op, f3, f7)
    ensures var y := NextPC(DecodeWord(w), w, pc, a, b) as int;
            var target := Mod64(pc as int + OfBits(BranchOffset(ToBits(w))) as int);
            if op == 0x63 && f3 != 2 && f3 != 3 then
              y == if Condition(f3, a as int, b as int) then target else Mod64(pc as int + 4)
            else if op == 0x6F then y == Mod64(pc as int + OfBits(JumpOffset(ToBits(w))) as int)
            else if op == 0x67 then y == Mod64(a as int + Immediate(w)) / 2 * 2
            else op == 0x63 || y == Mod64(pc as int + 4)
  {
    hide DecodeWord, BranchTaken, Condition, BranchOffset, JumpOffset, ImmediateI, ToBits, OfBits, Displaced, Immediate,
      FieldsOf, Mod64;
    var v := ToBits(w);
    DecodeTable(w, op, f3, f7);
    if op == 0x63 && f3 != 2 && f3 != 3 { BranchCondition(f3 as Funct3, a, b); }
    DisplacedNumber(pc, BranchOffset(v)); DisplacedNumber(pc, JumpOffset(v)); DisplacedNumber(a, ImmediateI(v));
    ImmediateNumber(w);
    NextNumber(pc);
    EvenNumber(Displaced(a, ImmediateI(v)));
  }

  lemma EvenNumber(x: Word)
    ensures Even(x) as int == x as int / 2 * 2
  {
  }

  // ---- addresses ---------------------------------------------------------------------------------------------

  /** Loads add the I immediate to the base, stores the S immediate. */
  lemma AddressTable(w: Word, a: Word, kept: Word, op: int, f3: int, f7: int)
    requires FieldsOf(w, op, f3, f7) && ((op == 0x03 && f3 != 7) || (op == 0x23 && f3 <= 3))
    ensures Address(DecodeWord(w), w, a, kept) as int
            == Mod64(a as int + if op == 0x03 then Immediate(w) else OfBits(ImmediateS(ToBits(w))) as int)
  {
    hide DecodeWord, FieldsOf, ImmediateI, ImmediateS, ToBits, OfBits, Displaced, Immediate, Mod64;
    DecodeTable(w, op, f3, f7);
    NotSpecial(w, f3, f7);
    DisplacedNumber(a, ImmediateI(ToBits(w))); DisplacedNumber(a, ImmediateS(ToBits(w)));
    ImmediateNumber(w);
  }

  // ---- loads and stores --------------------------------------------------------------------------------------

  /** The number of bytes that an access moves. */
  function Width(f3: int): (n: nat)
    ensures n == 1 || n == 2 || n == 4 || n == 8
  {
    if f3 == 0 || f3 == 4 then 1 else if f3 == 1 || f3 == 5 then 2 else if f3 == 2 || f3 == 6 then 4 else 8
  }

  /** The little-endian number of the `n` bytes from `at` on. */
  function BytesNumber(s: seq<Byte>, at: nat, n: nat): int
    requires at + n <= |s|
    decreases n
  {
    if n == 0 then 0 else s[at] as int + 0x100 * BytesNumber(s, at + 1, n - 1)
  }

  lemma {:induction false} BytesAreComposed(s: seq<Byte>, at: nat, n: nat)
    requires at + n <= |s|
    ensures BytesNumber(s, at, n) == Compose(s[at..at + n])
    decreases n
  {
    if n > 0 {
      BytesAreComposed(s, at + 1, n - 1);
      assert s[at..at + n][1..] == s[at + 1..at + 1 + (n - 1)];
    }
  }

  /** The value that a load of kind `f3` leaves in its register: signed for LB, LH and LW. */
  function Extended(f3: int, x: int): int {
    if f3 == 0 then Mod64(TwosComplement(x, 0x80))
    else if f3 == 1 then Mod64(TwosComplement(x, 0x8000))
    else if f3 == 2 then Mod64(TwosComplement(x, 0x8000_0000))
    else x
  }

  lemma SignBits()
    ensures IsSign(7, 0x100, 0xFF) && IsSign(15, 0x1_0000, 0xFFFF) && IsSign(31, 0x1_0000_0000, 0xFFFF_FFFF)
    ensures OfBits(7) == 7 && OfBits(15) == 15 && OfBits(31) == 31
    ensures OfBits(0x100) == 0x100 && OfBits(0x1_0000) == 0x1_0000 && OfBits(0x1_0000_0000) == 0x1_0000_0000
  {
  }

  lemma LoadedNumber(f3: Funct3, v: Word)
    requires f3 == 0 ==> v < 0x100
    requires f3 == 1 ==> v < 0x1_0000
    requires f3 == 2 ==> v < 0x1_0000_0000
    ensures LoadedValue(f3, v) as int == Extended(f3 as int, v as int)
  {
    hide ToBits, OfBits, Sext64, IsSign, Mod64, TwosComplement, Pow2;
    NumberOfBits(v);
    SignBits(); Powers();
    var b := ToBits(v);
    if f3 == 0 { Sext(b, 7, 0x100, 0xFF); }
    if f3 == 1 { Sext(b, 15, 0x1_0000, 0xFFFF); }
    if f3 == 2 { Sext(b, 31, 0x1_0000_0000, 0xFFFF_FFFF); }
  }

  lemma WidthOf(f3: Funct3)
    ensures AccessSize(f3) == Width(f3 as int)
    ensures Pow256(1) == 0x100 && Pow256(2) == 0x1_0000 && Pow256(4) == 0x1_0000_0000
            && Pow256(8) == 0x1_0000_0000_0000_0000
  {
  }

  lemma OffsetNumber(mem: Mem, addr: Word)
    ensures Offset(mem, addr) == Mod64(addr as int - mem.start as int)
  {
  }

  /** LB, LH, LW, LD, LBU, LHU and LWU: a load reads its bytes in little-endian order, extends them, and changes
      nothing; it faults exactly when a byte lies outside. */
  lemma LoadTable(w: Word, mem: Mem, addr: Word, data: Word, kept: Word, f3: int, f7: int)
    requires FieldsOf(w, 0x03, f3, f7) && f3 != 7
    ensures var o := MemAccess(mem, DecodeWord(w), addr, data, kept);
            var at := Mod64(addr as int - mem.start as int);
            && o.mem == mem && at >= 0 && (o.fault <==> at + Width(f3) > |mem.bytes|)
            && o.memVal as int == if o.fault then kept as int else Extended(f3, BytesNumber(mem.bytes, at, Width(f3)))
  {
    hide DecodeWord, FieldsOf, LoadedValue, Extended, Compose, Offset, Mod64, Pow256, BytesNumber;
    var c, n, at := DecodeWord(w), Width(f3), Offset(mem, addr);
    DecodeTable(w, 0x03, f3, f7);
    NotSpecial(w, f3, f7);
    WidthOf(c.funct3);
    OffsetNumber(mem, addr);
    if at + n <= |mem.bytes| {
      BytesAreComposed(mem.bytes, at, n);
      var v := Compose(mem.bytes[at..at + n]);
      assert |mem.bytes[at..at + n]| == n;
      LoadedNumber(c.funct3, v as Word);
    }
  }

  /** IF reads the little-endian number of four bytes and faults exactly when one of them lies outside. */
  lemma FetchTable(mem: Mem, pc: Word)
    ensures var at, x := Mod64(pc as int - mem.start as int), SimIF(mem, pc);
            && at >= 0 && x.pc == pc && x.nextPC as int == Mod64(pc as int + 4) && (x.fault <==> at + 4 > |mem.bytes|)
            && x.word as int == if at + 4 <= |mem.bytes| then BytesNumber(mem.bytes, at, 4) else 0
  {
    hide Compose, Offset, Mod64, Pow256, BytesNumber, Next;
    var at := Offset(mem, pc);
    NextNumber(pc);
    WidthOf(FUNCT3_W);
    OffsetNumber(mem, pc);
    if at + 4 <= |mem.bytes| {
      BytesAreComposed(mem.bytes, at, 4);
      assert |mem.bytes[at..at + 4]| == 4;
    }
  }

  lemma NotSpecial(w: Word, f3: int, f7: int)
    requires FieldsOf(w, 0x03, f3, f7) || FieldsOf(w, 0x23, f3, f7)
    ensures w != 0x13 && w != 0xFEED_FEED
  {
  }

  /** SB, SH, SW and SD: a store changes those of its bytes that exist, to the low bytes of the datum; it faults exactly
      when a byte lies outside. */
  lemma StoreTable(w: Word, mem: Mem, addr: Word, data: Word, kept: Word, f3: int, f7: int, i: nat)
    requires FieldsOf(w, 0x23, f3, f7) && f3 <= 3
    ensures var o := MemAccess(mem, DecodeWord(w), addr, data, kept);
            var at := Mod64(addr as int - mem.start as int);
            && o.memVal == kept && (o.fault <==> at + Width(f3) > |mem.bytes|)
            && o.mem.start == mem.start && |o.mem.bytes| == |mem.bytes|
            && (i < |mem.bytes| ==>
                  o.mem.bytes[i] as int
                  == if at <= i < at + Width(f3) then data as int / Pow2(8 * (i - at)) % 0x100 else mem.bytes[i] as int)
  {
    hide DecodeWord, FieldsOf, Store, Offset, Mod64, Pow2;
    var c, n, at := DecodeWord(w), Width(f3), Offset(mem, addr);
    DecodeTable(w, 0x23, f3, f7);
    NotSpecial(w, f3, f7);
    WidthOf(c.funct3);
    OffsetNumber(mem, addr);
    StoredShape(mem, addr, data, n);
    if i < |mem.bytes| { StoredBytes(mem, addr, data, n, i); }
    if at <= i < at + n { ByteNumber(data, i - at); }
  }

  lemma StoredShape(mem: Mem, addr: Word, data: Word, n: nat)
    requires ValidSize(n)
    ensures var m := Store(mem, addr, data, n); m.start == mem.start && |m.bytes| == |mem.bytes|
  {
    hide ByteOf, Offset;
  }

  lemma StoredBytes(mem: Mem, addr: Word, data: Word, n: nat, i: nat)
    requires ValidSize(n) && i < |mem.bytes|
    ensures var m, at := Store(mem, addr, data, n), Offset(mem, addr);
            && |m.bytes| == |mem.bytes|
            && m.bytes[i] == if at <= i < at + n then ByteOf(data as nat, i - at) else mem.bytes[i]
  {
    hide ByteOf, Offset;
  }

  lemma ByteNumber(data: Word, k: nat)
    ensures ByteOf(data as nat, k) as int == data as int / Pow2(8 * k) % 0x100
  {
    hide Pow256, Pow2;
    BytePower(k);
  }

  lemma {:induction false} BytePower(k: nat)
    ensures Pow256(k) == Pow2(8 * k)
  {
    if k > 0 {
      BytePower(k - 1);
      PowSum(8, 8 * (k - 1));
      Powers();
    }
  }
}
