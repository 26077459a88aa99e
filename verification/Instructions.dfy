/** The instruction helpers of src/simulator.cpp as functions on values: decoding, operand collection, next-PC
    resolution, the ALU, address generation and memory access, the five stage functions, and the reference
    `simInstruction` that runs one instruction at a time. */
module Instructions {
  import opened Utilities
  import opened Memory
  import opened Shifts

  newtype Opcode = x: int | 0 <= x < 128
  newtype Funct3 = x: int | 0 <= x < 8
  newtype Funct7 = x: int | 0 <= x < 128
  newtype RegId = x: int | 0 <= x < 32

  const EXCEPTION_HANDLER: Word := 0x8000
  const HALT_WORD: Word := 0xfeedfeed
  const NOP_WORD: Word := 0x0000_0013

  const OP_INT: Opcode := 0x33
  const OP_INTW: Opcode := 0x3B
  const OP_LOAD: Opcode := 0x03
  const OP_INTIMM: Opcode := 0x13
  const OP_INTIMMW: Opcode := 0x1B
  const OP_JALR: Opcode := 0x67
  const OP_STORE: Opcode := 0x23
  const OP_BRANCH: Opcode := 0x63
  const OP_AUIPC: Opcode := 0x17
  const OP_LUI: Opcode := 0x37
  const OP_JAL: Opcode := 0x6F

  const FUNCT3_ADD: Funct3 := 0
  const FUNCT3_SLL: Funct3 := 1
  const FUNCT3_SLT: Funct3 := 2
  const FUNCT3_SLTU: Funct3 := 3
  const FUNCT3_XOR: Funct3 := 4
  const FUNCT3_SR: Funct3 := 5
  const FUNCT3_OR: Funct3 := 6
  const FUNCT3_AND: Funct3 := 7
  const FUNCT3_B: Funct3 := 0
  const FUNCT3_H: Funct3 := 1
  const FUNCT3_W: Funct3 := 2
  const FUNCT3_D: Funct3 := 3
  const FUNCT3_BU: Funct3 := 4
  const FUNCT3_HU: Funct3 := 5
  const FUNCT3_WU: Funct3 := 6
  const FUNCT3_BEQ: Funct3 := 0
  const FUNCT3_BNE: Funct3 := 1
  const FUNCT3_BLT: Funct3 := 4
  const FUNCT3_BGE: Funct3 := 5
  const FUNCT3_BLTU: Funct3 := 6
  const FUNCT3_BGEU: Funct3 := 7

  const FUNCT7_ADD: Funct7 := 0x00
  const FUNCT7_SUB: Funct7 := 0x20
  const FUNCT7_LOGICAL: Funct7 := 0x00
  const FUNCT7_ARITH: Funct7 := 0x20
  const UPPERIMM_LOGICAL: int := 0x00
  const UPPERIMM_ARITH: int := 0x10

  /** The register file; slot 0 exists but is masked by every read. */
  type Regs = s: seq<Word> | |s| == 32 witness seq(32, _ => 0)

  function ReadReg(regs: Regs, r: RegId): Word {
    if r == 0 then 0 else regs[r as int]
  }

  function WriteReg(regs: Regs, r: RegId, v: Word): Regs {
    regs[r as int := v]
  }

  datatype StageStatus = NORMAL | BUBBLE | IDLE | SPECULATIVE | SQUASHED

  /** The fields of `Simulator::Instruction` that decoding fills in. */
  datatype Control = Control(
    isHalt: bool, isLegal: bool, isNop: bool,
    readsMem: bool, writesMem: bool, doesArith: bool, writesRd: bool, readsRs1: bool, readsRs2: bool,
    opcode: Opcode, funct3: Funct3, funct7: Funct7, rd: RegId, rs1: RegId, rs2: RegId)

  /** `Simulator::Instruction`. */
  datatype Instruction = Instruction(
    pc: Word, word: Word, ctl: Control, nextPC: Word,
    op1: Word, op2: Word, arith: Word, addr: Word,
    fault: bool, memVal: Word, id: nat, counted: bool, status: StageStatus)

  const UNDECODED: Control :=
    Control(false, false, false, false, false, false, false, false, false, 0, 0, 0, 0, 0, 0)

  const NO_INSTRUCTION: Instruction :=
    Instruction(0, 0, UNDECODED, 0, 0, 0, 0, 0, false, 0, 0, false, NORMAL)

  /** The value an instruction would write to its destination register. */
  function Result(x: Instruction): Word {
    if x.ctl.readsMem then x.memVal else x.arith
  }

  // ---- simFetch ----------------------------------------------------------------------------------------------

  /** The instruction word at `pc`, or `None` on an access violation. */
  function FetchWord(mem: Mem, pc: Word): Option<Word> {
    match Load(mem, pc, WORD_SIZE)
    case None => None
    case Some(v) => Some((v as int % 0x1_0000_0000) as Word)
  }

  function SimFetch(mem: Mem, pc: Word): Instruction {
    match FetchWord(mem, pc)
    case None => NO_INSTRUCTION.(pc := pc, fault := true)
    case Some(w) => NO_INSTRUCTION.(pc := pc, word := w)
  }

  // ---- simDecode ---------------------------------------------------------------------------------------------

  predicate LegalInt(f3: Funct3, f7: Funct7) {
    || (f3 == FUNCT3_ADD && (f7 == FUNCT7_ADD || f7 == FUNCT7_SUB))
    || f3 == FUNCT3_SLL || f3 == FUNCT3_SLT || f3 == FUNCT3_SLTU || f3 == FUNCT3_XOR
    || (f3 == FUNCT3_SR && (f7 as int / 2 == UPPERIMM_ARITH || f7 as int / 2 == UPPERIMM_LOGICAL))
    || f3 == FUNCT3_OR || f3 == FUNCT3_AND
  }

  predicate LegalIntW(f3: Funct3, f7: Funct7) {
    || (f3 == FUNCT3_ADD && (f7 == FUNCT7_ADD || f7 == FUNCT7_SUB))
    || f3 == FUNCT3_SLL
    || (f3 == FUNCT3_SR && (f7 == FUNCT7_ARITH || f7 == FUNCT7_LOGICAL))
  }

  predicate LegalIntImm(f3: Funct3, f7: Funct7) {
    || f3 == FUNCT3_ADD || f3 == FUNCT3_SLL || f3 == FUNCT3_SLT || f3 == FUNCT3_SLTU || f3 == FUNCT3_XOR
    || (f3 == FUNCT3_SR && (f7 as int / 2 == UPPERIMM_ARITH || f7 as int / 2 == UPPERIMM_LOGICAL))
    || f3 == FUNCT3_OR || f3 == FUNCT3_AND
  }

  predicate LegalIntImmW(f3: Funct3, f7: Funct7) {
    || f3 == FUNCT3_ADD || f3 == FUNCT3_SLL
    || (f3 == FUNCT3_SR && (f7 == FUNCT7_ARITH || f7 == FUNCT7_LOGICAL))
  }

  predicate LegalLoad(f3: Funct3) {
    || f3 == FUNCT3_B || f3 == FUNCT3_H || f3 == FUNCT3_W || f3 == FUNCT3_D
    || f3 == FUNCT3_BU || f3 == FUNCT3_HU || f3 == FUNCT3_WU
  }

  predicate LegalStore(f3: Funct3) {
    f3 == FUNCT3_B || f3 == FUNCT3_H || f3 == FUNCT3_W || f3 == FUNCT3_D
  }

  predicate LegalBranch(f3: Funct3) {
    || f3 == FUNCT3_BEQ || f3 == FUNCT3_BNE || f3 == FUNCT3_BLT
    || f3 == FUNCT3_BGE || f3 == FUNCT3_BLTU || f3 == FUNCT3_BGEU
  }

  /** The control signals of an instruction. */
  datatype Signals = Signals(
    isLegal: bool, readsMem: bool, writesMem: bool, doesArith: bool, writesRd: bool, readsRs1: bool, readsRs2: bool)

  const ILLEGAL: Signals := Signals(false, false, false, false, false, false, false)
  const INERT: Signals := Signals(true, false, false, false, false, false, false)
  const ALU_REGISTERS: Signals := Signals(true, false, false, true, true, true, true)
  const ALU_IMMEDIATE: Signals := Signals(true, false, false, true, true, true, false)
  const ALU_PC: Signals := Signals(true, false, false, true, true, false, false)
  const LOAD: Signals := Signals(true, true, false, false, true, true, false)
  const STORE: Signals := Signals(true, false, true, false, false, true, true)
  const COMPARE: Signals := Signals(true, false, false, false, false, true, true)

  /** The switch over the opcode. */
  function SignalsOf(op: Opcode, f3: Funct3, f7: Funct7): Signals {
    if op == OP_INT then (if LegalInt(f3, f7) then ALU_REGISTERS else ILLEGAL)
    else if op == OP_INTW then (if LegalIntW(f3, f7) then ALU_REGISTERS else ILLEGAL)
    else if op == OP_LOAD then (if LegalLoad(f3) then LOAD else ILLEGAL)
    else if op == OP_INTIMM then (if LegalIntImm(f3, f7) then ALU_IMMEDIATE else ILLEGAL)
    else if op == OP_INTIMMW then (if LegalIntImmW(f3, f7) then ALU_IMMEDIATE else ILLEGAL)
    else if op == OP_JALR then ALU_IMMEDIATE
    else if op == OP_STORE then (if LegalStore(f3) then STORE else ILLEGAL)
    else if op == OP_BRANCH then (if LegalBranch(f3) then COMPARE else ILLEGAL)
    else if op == OP_AUIPC || op == OP_LUI || op == OP_JAL then ALU_PC
    else ILLEGAL
  }

  // The fields of an instruction word as numbers: the shift of `extractBits` divides, its mask takes the remainder.
  function OpcodeOf(w: Word): Opcode { (w as int % 0x80) as Opcode }
  function RdOf(w: Word): RegId { (w as int / 0x80 % 0x20) as RegId }
  function Funct3Of(w: Word): Funct3 { (w as int / 0x1000 % 8) as Funct3 }
  function Rs1Of(w: Word): RegId { (w as int / 0x8000 % 0x20) as RegId }
  function Rs2Of(w: Word): RegId { (w as int / 0x10_0000 % 0x20) as RegId }
  function Funct7Of(w: Word): Funct7 { (w as int / 0x200_0000 % 0x80) as Funct7 }

  /** Bits 31..26, the shift kind. */
  function UpperImm12(w: Word): int { w as int / 0x400_0000 % 0x40 }

  /** The control fields of an instruction word. */
  function DecodeWord(w: Word): Control {
    var s := if w == HALT_WORD || w == NOP_WORD then INERT else SignalsOf(OpcodeOf(w), Funct3Of(w), Funct7Of(w));
    Control(w == HALT_WORD, s.isLegal, w == NOP_WORD,
      s.readsMem, s.writesMem, s.doesArith, s.writesRd, s.readsRs1, s.readsRs2,
      OpcodeOf(w), Funct3Of(w), Funct7Of(w),
      RdOf(w), Rs1Of(w), Rs2Of(w))
  }

  function SimDecode(x: Instruction): Instruction {
    x.(ctl := DecodeWord(x.word))
  }

  /** Instructions whose next PC is not simply the fall-through. */
  predicate IsControlFlow(c: Control) {
    c.opcode == OP_BRANCH || c.opcode == OP_JALR || c.opcode == OP_JAL
  }

  predicate IsLoad(c: Control) {
    c.readsMem && !c.writesMem
  }

  // ---- simOperandCollection ----------------------------------------------------------------------------------

  function SimOperandCollection(x: Instruction, regs: Regs): Instruction {
    x.(op1 := if x.ctl.readsRs1 then ReadReg(regs, x.ctl.rs1) else x.op1,
       op2 := if x.ctl.readsRs2 then ReadReg(regs, x.ctl.rs2) else x.op2)
  }

  // ---- simNextPCResolution -----------------------------------------------------------------------------------

  /** The B-type immediate. */
  function BranchOffset(w: bv64): bv64 {
    var imm5 := ExtractBits(w, 11, 7);
    var imm7 := ExtractBits(w, 31, 25);
    Sext64(
      (ExtractBits(imm7, 6, 6) << 12) |
      (ExtractBits(imm7, 5, 0) << 5) |
      (ExtractBits(imm5, 4, 1) << 1) |
      (ExtractBits(imm5, 0, 0) << 11), 12)
  }

  /** The J-type immediate. */
  function JumpOffset(w: bv64): bv64 {
    var imm20 := ExtractBits(w, 31, 12);
    Sext64(
      (ExtractBits(imm20, 19, 19) << 20) |
      (ExtractBits(imm20, 18, 9) << 1) |
      (ExtractBits(imm20, 8, 8) << 11) |
      (ExtractBits(imm20, 7, 0) << 12), 20)
  }

  /** The I-type immediate. */
  function ImmediateI(w: bv64): bv64 {
    Sext64(ExtractBits(w, 31, 20), 11)
  }

  /** The S-type immediate. */
  function ImmediateS(w: bv64): bv64 {
    Sext64((ExtractBits(w, 31, 25) << 5) | ExtractBits(w, 11, 7), 11)
  }

  predicate BranchTaken(f3: Funct3, a: Word, b: Word) {
    if f3 == FUNCT3_BEQ then a == b
    else if f3 == FUNCT3_BNE then a != b
    else if f3 == FUNCT3_BLT then Signed(a) < Signed(b)
    else if f3 == FUNCT3_BGE then Signed(a) >= Signed(b)
    else if f3 == FUNCT3_BLTU then a < b
    else if f3 == FUNCT3_BGEU then a >= b
    else false
  }

  /** `x + offset` with 64-bit wrap-around. */
  function Displaced(x: Word, offset: bv64): Word { Add(x, OfBits(offset)) }

  /** `x & ~1ULL`. */
  function Even(x: Word): Word { x - x % 2 }

  /** The next PC of an instruction with control fields `c`, word `w` and operands `a`, `b` at `pc`. */
  function NextPC(c: Control, w: Word, pc: Word, a: Word, b: Word): Word {
    if c.opcode == OP_JALR then Even(Displaced(a, ImmediateI(ToBits(w))))
    else if c.opcode == OP_BRANCH then
      (if BranchTaken(c.funct3, a, b) then Displaced(pc, BranchOffset(ToBits(w))) else Next(pc))
    else if c.opcode == OP_JAL then Displaced(pc, JumpOffset(ToBits(w)))
    else Next(pc)
  }

  function SimNextPCResolution(x: Instruction): Instruction {
    x.(nextPC := NextPC(x.ctl, x.word, x.pc, x.op1, x.op2))
  }

  // ---- simArithLogic -----------------------------------------------------------------------------------------

  /** The second ALU operand: register shift amounts are cut to 6 (64-bit) or 5 (32-bit) bits. */
  function ShiftMasked(c: Control, b: Word): Word {
    if c.opcode == OP_INT && (c.funct3 == FUNCT3_SLL || c.funct3 == FUNCT3_SR) then b % 64
    else if c.opcode == OP_INTW && (c.funct3 == FUNCT3_SLL || c.funct3 == FUNCT3_SR) then b % 32
    else b
  }

  function Flag(b: bool): bv64 { if b then 1 else 0 }

  /** A 32-bit result as the 64-bit register value. */
  function Wide(x: bv32): bv64 { Sext64(x as bv64, 31) }

  /** Register-register operations on 64 bits; `None` where the switch has no case. */
  function AluInt(f3: Funct3, f7: Funct7, upper: int, a: bv64, b: bv64): Option<bv64> {
    if f3 == FUNCT3_ADD then
      if f7 == FUNCT7_ADD then Some(a + b) else if f7 == FUNCT7_SUB then Some(a - b) else None
    else if f3 == FUNCT3_SLL then Some(a << (b & 0x3F))
    else if f3 == FUNCT3_SLT then Some(Flag(SignedLess(a, b)))
    else if f3 == FUNCT3_SLTU then Some(Flag(a < b))
    else if f3 == FUNCT3_XOR then Some(a ^ b)
    else if f3 == FUNCT3_SR then
      if upper == UPPERIMM_LOGICAL then Some(a >> (b & 0x3F))
      else if upper == UPPERIMM_ARITH then Some(ShiftRightArith64(a, b & 0x3F)) else None
    else if f3 == FUNCT3_OR then Some(a | b)
    else Some(a & b)
  }

  /** Register-register operations on 32 bits. */
  function AluIntW(f3: Funct3, f7: Funct7, upper: int, a: bv32, b: bv32): Option<bv64> {
    if f3 == FUNCT3_ADD then
      if f7 == FUNCT7_ADD then Some(Wide(a + b)) else if f7 == FUNCT7_SUB then Some(Wide(a - b)) else None
    else if f3 == FUNCT3_SLL then Some(Wide(a << (b & 0x1F)))
    else if f3 == FUNCT3_SR then
      if upper == UPPERIMM_LOGICAL then Some(Wide(a >> (b & 0x1F)))
      else if upper == UPPERIMM_ARITH then Some(Wide(ShiftRightArith32(a, b & 0x1F))) else None
    else None
  }

  /** Register-immediate operations on 64 bits. */
  function AluImm(f3: Funct3, upper: int, w: bv64, a: bv64): Option<bv64> {
    var imm12 := ExtractBits(w, 31, 20);
    if f3 == FUNCT3_ADD then Some(a + Sext64(imm12, 11))
    else if f3 == FUNCT3_SLL then Some(a << (imm12 & 0x3F))
    else if f3 == FUNCT3_SLT then Some(Flag(SignedLess(a, Sext64(imm12, 11))))
    else if f3 == FUNCT3_SLTU then Some(Flag(a < Sext64(imm12, 11)))
    else if f3 == FUNCT3_XOR then Some(a ^ Sext64(imm12, 11))
    else if f3 == FUNCT3_SR then
      if upper == UPPERIMM_LOGICAL then Some(a >> (imm12 & 0x3F))
      else if upper == UPPERIMM_ARITH then Some(ShiftRightArith64(a, imm12 & 0x3F)) else None
    else if f3 == FUNCT3_OR then Some(a | Sext64(imm12, 11))
    else Some(a & Sext64(imm12, 11))
  }

  /** Register-immediate operations on 32 bits. */
  function AluImmW(f3: Funct3, upper: int, w: bv64, a: bv32): Option<bv64> {
    var imm12 := Low32(ExtractBits(w, 31, 20));
    if f3 == FUNCT3_ADD then Some(Wide(a + Sext32(imm12, 11)))
    else if f3 == FUNCT3_SLL then Some(Wide(a << (imm12 & 0x1F)))
    else if f3 == FUNCT3_SR then
      if upper == UPPERIMM_LOGICAL then Some(Wide(a >> (imm12 & 0x1F)))
      else if upper == UPPERIMM_ARITH then Some(Wide(ShiftRightArith32(a, imm12 & 0x1F))) else None
    else None
  }

  /** `sext64(imm20 << 12, 31)`. */
  function UpperImmediate(w: bv64): bv64 {
    Sext64(ExtractBits(w, 31, 12) << 12, 31)
  }

  /** The operations on the bits of the operands; `upper` tells shifts apart. */
  function AluBits(c: Control, upper: int, w: bv64, a: bv64, b: bv64): Option<bv64> {
    if c.opcode == OP_INT then AluInt(c.funct3, c.funct7, upper, a, b)
    else if c.opcode == OP_INTW then AluIntW(c.funct3, c.funct7, upper, Low32(a), Low32(b))
    else if c.opcode == OP_INTIMM then AluImm(c.funct3, upper, w, a)
    else if c.opcode == OP_INTIMMW then AluImmW(c.funct3, upper, w, Low32(a))
    else if c.opcode == OP_LUI then Some(UpperImmediate(w))
    else None
  }

  /** The ALU result; `kept` is what `arithResult` held before and holds still when no case applies. */
  function Alu(c: Control, w: Word, pc: Word, a: Word, b: Word, kept: Word): Word {
    if c.opcode == OP_JALR || c.opcode == OP_JAL then Next(pc)
    else if c.opcode == OP_AUIPC then Displaced(pc, UpperImmediate(ToBits(w)))
    else
      match AluBits(c, UpperImm12(w), ToBits(w), ToBits(a), ToBits(b))
      case None => kept
      case Some(r) => OfBits(r)
  }

  function SimArithLogic(x: Instruction): Instruction {
    x.(op2 := ShiftMasked(x.ctl, x.op2),
       arith := Alu(x.ctl, x.word, x.pc, x.op1, ShiftMasked(x.ctl, x.op2), x.arith))
  }

  // ---- simAddrGen, simMemAccess, simCommit -------------------------------------------------------------------

  function Address(c: Control, w: Word, a: Word, kept: Word): Word {
    if c.readsMem then Displaced(a, ImmediateI(ToBits(w)))
    else if c.writesMem then Displaced(a, ImmediateS(ToBits(w)))
    else kept
  }

  function SimAddrGen(x: Instruction): Instruction {
    x.(addr := Address(x.ctl, x.word, x.op1, x.addr))
  }

  function AccessSize(f3: Funct3): (size: nat)
    ensures ValidSize(size)
  {
    if f3 == FUNCT3_B || f3 == FUNCT3_BU then BYTE_SIZE
    else if f3 == FUNCT3_H || f3 == FUNCT3_HU then HALF_SIZE
    else if f3 == FUNCT3_W || f3 == FUNCT3_WU then WORD_SIZE
    else DOUBLE_SIZE
  }

  /** The register value of a load: signed loads extend the value they read. */
  function LoadedValue(f3: Funct3, v: Word): Word {
    if f3 == FUNCT3_B then OfBits(Sext64(ToBits(v), 7))
    else if f3 == FUNCT3_H then OfBits(Sext64(ToBits(v), 15))
    else if f3 == FUNCT3_W then OfBits(Sext64(ToBits(v), 31))
    else v
  }

  /** What a memory access of an instruction does: the memory after it, whether it faults, the loaded value. */
  datatype AccessOutcome = AccessOutcome(mem: Mem, fault: bool, memVal: Word)

  function MemAccess(mem: Mem, c: Control, addr: Word, data: Word, kept: Word): AccessOutcome {
    var size := AccessSize(c.funct3);
    if c.readsMem then
      match Load(mem, addr, size)
      case None => AccessOutcome(mem, true, kept)
      case Some(v) => AccessOutcome(mem, false, LoadedValue(c.funct3, v))
    else if c.writesMem then
      AccessOutcome(Store(mem, addr, data, size), !InBounds(mem, addr, size), kept)
    else
      AccessOutcome(mem, false, kept)
  }

  function SimMemAccess(x: Instruction, mem: Mem): (Instruction, Mem) {
    var o := MemAccess(mem, x.ctl, x.addr, x.op2, x.memVal);
    (x.(fault := x.fault || o.fault, memVal := o.memVal), o.mem)
  }

  function SimCommit(x: Instruction, regs: Regs): Regs {
    WriteReg(regs, x.ctl.rd, Result(x))
  }

  // ---- the reference simulator -------------------------------------------------------------------------------

  /** The architectural state of the one-instruction-at-a-time simulator. */
  datatype Arch = Arch(regs: Regs, mem: Mem, pc: Word)

  /** `simInstruction`: the instruction record it returns, with dynamic instruction number `n`, and the state
      after it; the driver continues at the record's `nextPC`, which is 0 for HALT and for illegal words. */
  function SimInstruction(a: Arch, n: nat): (Instruction, Arch) {
    var x := SimDecode(SimFetch(a.mem, a.pc)).(id := n);
    if !x.ctl.isLegal || x.ctl.isHalt then
      (x, a.(pc := x.nextPC))
    else
      var y := SimNextPCResolution(SimOperandCollection(x, a.regs));
      var z := if y.ctl.doesArith then SimArithLogic(y) else y;
      var (r, mem) := if z.ctl.readsMem || z.ctl.writesMem then SimMemAccess(SimAddrGen(z), a.mem) else (z, a.mem);
      var regs := if r.ctl.writesRd then SimCommit(r, a.regs) else a.regs;
      (r, Arch(regs, mem, r.nextPC))
  }

  // ---- the pipeline stages -----------------------------------------------------------------------------------

  function SimIF(mem: Mem, pc: Word): Instruction {
    SimFetch(mem, pc).(nextPC := Next(pc), status := NORMAL)
  }

  /** The decode counters of the simulator object. */
  datatype Counters = Counters(din: nat, countDin: bool)

  function SimID(x: Instruction, regs: Regs, n: Counters): (Instruction, Counters) {
    var d := SimDecode(x);
    var counts := !d.ctl.isNop && n.countDin;
    var e := if counts then d.(id := n.din, counted := true) else d;
    var n1 := if counts then n.(din := n.din + 1) else n;
    if !e.ctl.isLegal then
      (e.(nextPC := EXCEPTION_HANDLER, status := NORMAL), n1)
    else
      var n2 := if e.ctl.isHalt then n1.(countDin := false) else n1;
      (SimNextPCResolution(SimOperandCollection(e, regs)).(status := NORMAL), n2)
  }

  function SimEX(x: Instruction): Instruction {
    if !x.ctl.isLegal || x.fault || !x.ctl.doesArith then x.(status := NORMAL)
    else SimArithLogic(x).(status := NORMAL)
  }

  function SimMEM(x: Instruction, mem: Mem): (Instruction, Mem) {
    if !x.ctl.isLegal || x.fault || !(x.ctl.readsMem || x.ctl.writesMem) then (x.(status := NORMAL), mem)
    else
      var (y, mem1) := SimMemAccess(SimAddrGen(x), mem);
      (y.(status := NORMAL), mem1)
  }

  function SimWB(x: Instruction, regs: Regs): (Instruction, Regs) {
    if !x.ctl.isLegal || x.fault then (x.(nextPC := EXCEPTION_HANDLER, status := NORMAL), regs)
    else if x.ctl.isHalt || x.ctl.isNop then (x.(nextPC := Next(x.pc), status := NORMAL), regs)
    else if x.ctl.writesRd && x.ctl.rd != 0 then (x.(status := NORMAL), SimCommit(x, regs))
    else (x.(status := NORMAL), regs)
  }
}
