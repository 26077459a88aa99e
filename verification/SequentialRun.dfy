/** The reference run of src/funct.cpp: `simInstruction` iterated from an initial state, and what is known about
    the instruction at each position of that run. */
module SequentialRun {
  import opened Utilities
  import opened Memory
  import opened Instructions

  /** A course of the reference simulator: the state before each instruction, and the instructions as
      `simInstruction` returns them. */
  datatype Course = Course(state: nat -> Arch, instruction: nat -> Instruction)

  /** Each state and instruction follow from the state before. */
  ghost predicate Follows(a: Course) {
    forall k: nat {:trigger SimInstruction(a.state(k), k)} ::
      SimInstruction(a.state(k), k) == (a.instruction(k), a.state(k + 1))
  }

  function StateFrom(s: Arch, k: nat): Arch {
    if k == 0 then s else SimInstruction(StateFrom(s, k - 1), k - 1).1
  }

  /** From every state there is a course ... */
  function CourseFrom(s: Arch): Course {
    Course((k: nat) => StateFrom(s, k), (k: nat) => SimInstruction(StateFrom(s, k), k).0)
  }

  lemma CourseFollows(s: Arch)
    ensures Follows(CourseFrom(s)) && CourseFrom(s).state(0) == s
  {
    hide SimInstruction;
  }

  /** ... and no other. */
  lemma {:induction false} CourseIsUnique(a: Course, k: nat)
    requires Follows(a)
    ensures a.state(k) == StateFrom(a.state(0), k)
    ensures a.instruction(k) == CourseFrom(a.state(0)).instruction(k)
  {
    hide SimInstruction;
    if k > 0 { CourseIsUnique(a, k - 1); }
    assert SimInstruction(a.state(k), k).0 == a.instruction(k);
  }

  /** The state before instruction number `k`. */
  function SeqAt(a: Course, k: nat): Arch { a.state(k) }

  /** Instruction number `k`. */
  function InstrAt(a: Course, k: nat): Instruction { a.instruction(k) }

  predicate Proceeds(x: Instruction) {
    x.ctl.isLegal && !x.ctl.isHalt && !x.fault
  }

  /** A fault-free run: instructions `0..h` are legal and do not fault, and number `h` is the first HALT. */
  ghost predicate RunsToHalt(a: Course, h: nat) {
    && Follows(a)
    && InstrAt(a, h).ctl.isHalt
    && forall k :: 0 <= k < h ==> Proceeds(InstrAt(a, k))
  }

  /** Instruction number `k` writes register `r` (other than x0). */
  predicate Writes(a: Course, k: nat, r: RegId) {
    InstrAt(a, k).ctl.writesRd && InstrAt(a, k).ctl.rd == r && r != 0
  }

  function Operand1(c: Control, regs: Regs): Word { if c.readsRs1 then ReadReg(regs, c.rs1) else 0 }

  function Operand2(c: Control, regs: Regs): Word { if c.readsRs2 then ReadReg(regs, c.rs2) else 0 }

  /** The ALU result an instruction with these operands leaves. */
  function ArithOf(c: Control, w: Word, pc: Word, a: Word, b: Word): Word {
    if c.doesArith then Alu(c, w, pc, a, ShiftMasked(c, b), 0) else 0
  }

  function AccessOf(mem: Mem, c: Control, w: Word, a: Word, b: Word): AccessOutcome {
    MemAccess(mem, c, Address(c, w, a, 0), b, 0)
  }

  /** What the control fields of a decoded word can look like. */
  predicate WellShaped(c: Control) {
    && (c.isHalt || c.isNop || !c.isLegal ==>
          !c.readsMem && !c.writesMem && !c.doesArith && !c.writesRd && !c.readsRs1 && !c.readsRs2)
    && (c.isHalt || c.isNop ==> c.isLegal && !(c.isHalt && c.isNop) && !IsControlFlow(c))
    && (c.readsMem ==> !c.writesMem && c.writesRd && c.readsRs1 && !c.readsRs2 && !c.doesArith && !IsControlFlow(c))
    && (c.writesMem ==> !c.writesRd && c.readsRs1 && c.readsRs2 && !c.doesArith && !IsControlFlow(c))
    && (c.opcode == OP_BRANCH ==> !c.writesRd && !c.doesArith)
    && (c.isLegal && c.opcode == OP_BRANCH ==> c.readsRs1 && c.readsRs2)
    && (c.isLegal && c.opcode == OP_JALR ==> c.readsRs1)
    && (c.opcode == OP_JAL ==> !c.readsRs1 && !c.readsRs2)
    && (!c.isLegal && IsControlFlow(c) ==> c.opcode == OP_BRANCH && !LegalBranch(c.funct3))
    && (c.writesRd ==> c.readsMem || c.doesArith)
  }

  predicate SignalsShaped(op: Opcode, f3: Funct3, s: Signals) {
    && (!s.isLegal ==> s == ILLEGAL)
    && (s.readsMem ==> s == LOAD && op == OP_LOAD)
    && (s.writesMem ==> s == STORE && op == OP_STORE)
    && (op == OP_BRANCH ==> !s.writesRd && !s.doesArith && (s.isLegal ==> s.readsRs1 && s.readsRs2))
    && (op == OP_BRANCH ==> (s.isLegal <==> LegalBranch(f3)))
    && (op == OP_JALR ==> s.readsRs1 && s.isLegal)
    && (op == OP_JAL ==> s.isLegal)
    && (op == OP_JAL ==> !s.readsRs1 && !s.readsRs2)
    && (s.writesRd ==> s.readsMem || s.doesArith)
  }

  lemma SignalShape(op: Opcode, f3: Funct3, f7: Funct7)
    ensures SignalsShaped(op, f3, SignalsOf(op, f3, f7))
  {
    hide LegalInt, LegalIntW, LegalIntImm, LegalIntImmW, LegalLoad, LegalStore, LegalBranch;
  }

  lemma DecodeShape(w: Word)
    ensures WellShaped(DecodeWord(w))
  {
    hide SignalsOf, OpcodeOf, Funct3Of, Funct7Of, LegalBranch;
    SpecialOpcodes();
    SignalShape(OpcodeOf(w), Funct3Of(w), Funct7Of(w));
  }

  lemma SpecialOpcodes()
    ensures OpcodeOf(HALT_WORD) == 0x6D
    ensures OpcodeOf(NOP_WORD) == OP_INTIMM
    ensures OpcodeOf(0) == 0
  {
  }

  /** An illegal, HALT or NOP word touches nothing; a plain word falls through. */
  lemma FallThrough(c: Control, w: Word, pc: Word, a: Word, b: Word)
    requires !IsControlFlow(c)
    ensures NextPC(c, w, pc, a, b) == Next(pc)
  {
  }

  /** Instructions are numbered in order.  HALT and illegal words change neither registers nor memory, and the driver
      would go on at address 0. */
  lemma StepEnds(s: Arch, n: nat)
    ensures var (x, s') := SimInstruction(s, n);
            x.id == n && (!x.ctl.isLegal || x.ctl.isHalt ==> s' == s.(pc := 0))
  {
    hide FetchWord, DecodeWord, NextPC, Alu, ShiftMasked, MemAccess, Address, ReadReg, WriteReg;
  }

  /** The instruction at position `k` in terms of the state before it. */
  ghost predicate Explains(s: Arch, x: Instruction, s': Arch) {
    var a, b := Operand1(x.ctl, s.regs), Operand2(x.ctl, s.regs);
    && FetchWord(s.mem, s.pc) == Some(x.word) && x.pc == s.pc && x.ctl == DecodeWord(x.word)
    && x.arith == ArithOf(x.ctl, x.word, x.pc, a, b)
    && (if x.ctl.readsMem || x.ctl.writesMem then
          && x.memVal == AccessOf(s.mem, x.ctl, x.word, a, b).memVal
          && !AccessOf(s.mem, x.ctl, x.word, a, b).fault
          && s'.mem == AccessOf(s.mem, x.ctl, x.word, a, b).mem
        else s'.mem == s.mem)
    && s'.regs == (if x.ctl.writesRd then WriteReg(s.regs, x.ctl.rd, Result(x)) else s.regs)
    && (!x.ctl.isHalt ==> s'.pc == NextPC(x.ctl, x.word, x.pc, a, b))
  }

  lemma ExplainStep(s: Arch, n: nat)
    requires var x := SimInstruction(s, n).0; Proceeds(x) || x.ctl.isHalt
    ensures Explains(s, SimInstruction(s, n).0, SimInstruction(s, n).1)
  {
    hide DecodeWord, Alu, ShiftMasked, MemAccess, Address, NextPC, ReadReg, WriteReg, Load;
    var w := FetchWord(s.mem, s.pc);
    DecodeShape(0);
    assert DecodeWord(0).isLegal == false by { IllegalZero(); }
    if w.Some? { DecodeShape(w.value); }
  }

  lemma IllegalZero()
    ensures !DecodeWord(0).isLegal && !DecodeWord(0).isHalt
  {
    hide OpcodeOf;
    SpecialOpcodes();
  }

  /** Every position up to HALT is explained by its predecessor state. */
  lemma Explain(a: Course, h: nat, k: nat)
    requires RunsToHalt(a, h) && k <= h
    ensures Explains(SeqAt(a, k), InstrAt(a, k), SeqAt(a, k + 1))
    ensures WellShaped(InstrAt(a, k).ctl) && InstrAt(a, k).ctl.isLegal
  {
    hide DecodeWord, SimInstruction, Explains;
    if k < h { assert Proceeds(InstrAt(a, k)); }
    ExplainStep(SeqAt(a, k), k);
    DecodeShapeAt(a, k);
  }

  lemma DecodeShapeAt(a: Course, k: nat)
    requires Explains(SeqAt(a, k), InstrAt(a, k), SeqAt(a, k + 1))
    ensures InstrAt(a, k).ctl == DecodeWord(InstrAt(a, k).word)
    ensures WellShaped(InstrAt(a, k).ctl)
    ensures InstrAt(a, k).ctl.isHalt ==> InstrAt(a, k).ctl.isLegal
  {
    hide SimInstruction, DecodeWord;
    DecodeShape(InstrAt(a, k).word);
  }

  lemma ShapeAt(a: Course, h: nat, k: nat)
    requires RunsToHalt(a, h) && k <= h
    ensures WellShaped(InstrAt(a, k).ctl) && InstrAt(a, k).ctl.isLegal
    ensures InstrAt(a, k).ctl.isHalt <==> k == h
  {
    hide DecodeWord, SimInstruction, Explains;
    Explain(a, h, k);
    if k < h { assert Proceeds(InstrAt(a, k)); }
  }

  lemma ReadAfterWrite(regs: Regs, r: RegId, v: Word, q: RegId)
    ensures ReadReg(WriteReg(regs, r, v), q) == if q == r && q != 0 then v else ReadReg(regs, q)
  {
    if q != r { assert q as int != r as int; }
  }

  /** How a register changes over one position of the run. */
  lemma RegisterStep(a: Course, h: nat, k: nat, r: RegId)
    requires RunsToHalt(a, h) && k <= h
    ensures ReadReg(SeqAt(a, k + 1).regs, r) ==
            if Writes(a, k, r) then Result(InstrAt(a, k)) else ReadReg(SeqAt(a, k).regs, r)
  {
    hide SimInstruction, DecodeWord, ReadReg, WriteReg, Alu, ShiftMasked, MemAccess, Address, NextPC, Load;
    Explain(a, h, k);
    var x := InstrAt(a, k);
    ReadAfterWrite(SeqAt(a, k).regs, x.ctl.rd, Result(x), r);
    if r == 0 { X0(SeqAt(a, k + 1).regs); X0(SeqAt(a, k).regs); }
  }

  lemma X0(regs: Regs)
    ensures ReadReg(regs, 0) == 0
  {
  }
}
