/** The second clause of condition (A) cannot be dropped: of two additions to the data register of a store, WB still
    holds the older one when the store is in MEM, and the patch takes its result. */
module StoreOrder {
  import opened Utilities
  import opened Memory
  import opened Instructions
  import opened SequentialRun
  import opened PipelineSpec
  import opened HazardSafety
  import opened StraightLine
  import opened Necessity

  /** `addi x2, x0, imm`. */
  function AddImmediate(word: Word, imm: RegId): Op {
    Op(word, Control(false, true, false, false, false, true, true, true, false, OP_INTIMM, FUNCT3_ADD, 0, 2, 0, imm), 0)
  }

  const ADDI_X2_1: Op := AddImmediate(0x0010_0113, 1)
  const ADDI_X2_2: Op := AddImmediate(0x0020_0113, 2)
  const SB_X2_28: Op := ByteStore(0x0020_0E23, 0, 2, 28)

  lemma AdditionOps()
    ensures Assembled(ADDI_X2_1) && Assembled(ADDI_X2_2)
  {
  }

  lemma AdditionStoreOp()
    ensures Assembled(SB_X2_28) && StoresByte(SB_X2_28, 0, 2, 28)
  {
  }

  /** `o` sets x2 to a constant. */
  predicate Adds(o: Op) {
    && Fit(o) && !o.ctl.isNop && !o.ctl.isHalt && o.ctl.doesArith && Straight(o) && !o.ctl.readsMem && !o.ctl.writesMem
    && o.ctl.readsRs1 && o.ctl.rs1 == 0 && !o.ctl.readsRs2 && o.ctl.writesRd && o.ctl.rd == 2
  }

  lemma AdditionKinds()
    ensures Adds(ADDI_X2_1) && Adds(ADDI_X2_2)
  {
  }

  lemma AddKind(o: Op)
    requires Adds(o)
    ensures Fit(o) && Straight(o) && !o.ctl.isNop && !o.ctl.isHalt && !o.ctl.readsMem && !o.ctl.writesMem
  {
  }

  lemma AdditionResult(pc: Word, b: Word, kept: Word)
    ensures Alu(ADDI_X2_1.ctl, ADDI_X2_1.word, pc, 0, b, kept) == 1
    ensures Alu(ADDI_X2_2.ctl, ADDI_X2_2.word, pc, 0, b, kept) == 2
  {
    hide Sext64;
    SmallImmediates();
  }

  lemma SmallImmediates()
    ensures Sext64(1, 11) == 1 && Sext64(2, 11) == 2
  {
  }

  function TwoAdditions(): seq<Op> { [ADDI_X2_1, ADDI_X2_2, SB_X2_28, HALT, NOP, NOP, NOP, NOP] }

  lemma TwoAdditionsImage()
    ensures var mem := Image(TwoAdditions());
            && mem.start == 0 && |mem.bytes| == 32
            && FetchWord(mem, 0) == Some(ADDI_X2_1.word) && FetchWord(mem, 4) == Some(ADDI_X2_2.word)
            && FetchWord(mem, 8) == Some(SB_X2_28.word) && FetchWord(mem, 12) == Some(HALT.word)
            && FetchWord(mem, 16) == Some(NOP.word) && FetchWord(mem, 20) == Some(NOP.word)
            && FetchWord(mem, 24) == Some(NOP.word)
  {
    hide FetchWord;
    ImageHolds(TwoAdditions());
  }

  /** The first sum, when it is in EX. */
  lemma FirstSum(x: Instruction, regs: Regs)
    requires Executed(x, ADDI_X2_1, regs)
    ensures x.arith == 1
  {
    hide Alu;
    X0(regs);
    var pc, b :| x.arith == Alu(ADDI_X2_1.ctl, ADDI_X2_1.word, pc, x.op1, b, 0);
    AdditionResult(pc, b, 0);
  }

  lemma SumInMEM(m: Machine, pc: Word, mem: Mem, f: Op, d: Op, e: Op, y: Op, w: Op)
    requires Stream(m, pc, mem, f, d, e, y, w) && Adds(y)
    ensures Result(m.memL) == m.memL.arith
  {
    hide Ready;
  }

  /** The patch of a store in EX takes the result in WB. */
  lemma PatchTakesWB(m: Machine, pc: Word, mem: Mem, f: Op, d: Op, e: Op, y: Op, w: Op)
    requires Stream(m, pc, mem, f, d, e, y, w) && Adds(w) && StoresByte(e, 0, 2, 28)
    ensures WithStoreData(m.exL, m.wbL).op2 == Result(m.wbL)
  {
    hide Ready;
  }

  lemma SomeWord(mem: Mem, pc: Word)
    requires mem.start == 0 && pc as int + 4 <= |mem.bytes|
    ensures FetchWord(mem, pc).Some?
  {
    OffsetFromZero(mem, pc);
  }

  /** The store writes the first sum. */
  lemma AdditionRun(t: nat -> Machine, mem: Mem, regs: Regs)
    requires Records(t) && t(0) == Init(mem, regs, OneBlock(0), OneBlock(0)) && mem == Image(TwoAdditions())
    ensures StopsAt(t, 9) && t(9).mem == StoreByte(mem, 28, 1)
  {
    hide *;
    TwoAdditionsImage();
    AdditionOps(); AdditionStoreOp(); AdditionKinds(); SpecialOps(); NextPCs(); IdealCache();
    var p, q, sb, stored := ADDI_X2_1, ADDI_X2_2, SB_X2_28, StoreByte(mem, 28, 1);
    AddKind(p); AddKind(q); StoreKind(sb, 0, 2, 28);
    StoreWaits(sb, q); StoreWaits(HALT, sb);
    OtherWord(mem, 28, 1, 20); OtherWord(mem, 28, 1, 24); StoredByte(mem, 28, 1, 0);
    SomeWord(stored, 28);
    Fill(t, mem, regs, OneBlock(0), p, q, sb);
    FirstSum(t(4).exL, regs);
    FlowQuiet(t, 4, 12, mem, sb, q, p, NOP, NOP, HALT);
    SumInMEM(t(5), 16, mem, HALT, sb, q, p, NOP);
    ZeroOperands(t(5), 16, mem, HALT, sb, q, p, NOP, t(5).regs);
    FlowQuiet(t, 5, 16, mem, HALT, sb, q, p, NOP, NOP);
    PatchTakesWB(t(6), 20, mem, NOP, HALT, sb, q, p);
    AddZero(28);
    FlowAccess(t, 6, 20, mem, NOP, HALT, sb, q, p, NOP, 28, stored);
    FlowQuiet(t, 7, 24, stored, NOP, NOP, HALT, sb, q, NOP);
    FlowQuiet(t, 8, 28, stored, NOP, NOP, NOP, HALT, sb, Op(FetchWord(stored, 28).value, NOP.ctl, 0));
    HaltInWB(t(9), 32, stored, Op(FetchWord(stored, 28).value, NOP.ctl, 0), NOP, NOP, NOP);
    FirstStop(t, 9);
  }

  /** The reference run stores the later sum. */
  lemma TwoAdditionsListing(a: Course)
    requires Follows(a) && SeqAt(a, 0).pc == 0 && SeqAt(a, 0).mem == Image(TwoAdditions())
    ensures var mem := Image(TwoAdditions());
            && InstrAt(a, 0).ctl == ADDI_X2_1.ctl && !InstrAt(a, 0).fault
            && InstrAt(a, 1).ctl == ADDI_X2_2.ctl && !InstrAt(a, 1).fault
            && InstrAt(a, 2).ctl == SB_X2_28.ctl && !InstrAt(a, 2).fault
            && InstrAt(a, 3).ctl == HALT.ctl
            && SeqAt(a, 1).mem == mem && SeqAt(a, 1).pc == 4 && SeqAt(a, 2).mem == mem && SeqAt(a, 2).pc == 8
            && SeqAt(a, 3).mem == StoreByte(mem, 28, 2) && SeqAt(a, 3).pc == 12
  {
    hide Image, FetchWord, StoreByte, TwoAdditions, WriteReg, ReadReg, Follows, Fit, Assembled, Alu, ShiftMasked;
    TwoAdditionsImage();
    AdditionOps(); AdditionStoreOp(); AdditionKinds(); SpecialOps();
    AddKind(ADDI_X2_1); AddKind(ADDI_X2_2); StoreKind(SB_X2_28, 0, 2, 28);
    ReadsZero(a, 0); ReadsZero(a, 1); ReadsZero(a, 2);
    ReferenceStep(a, 0, ADDI_X2_1);
    ReferenceStep(a, 1, ADDI_X2_2);
    AdditionResult(4, ShiftMasked(ADDI_X2_2.ctl, 0), 0);
    ReadAfterWrite(SeqAt(a, 1).regs, 2, 2, 2);
    ReferenceAccess(a, 2, SB_X2_28);
    OtherWord(Image(TwoAdditions()), 28, 2, 12);
    ReferenceStep(a, 3, HALT);
  }

  /** The second clause of condition (A) is needed: the store writes the older of the two sums. */
  lemma StoreOrderNeeded(a: Course, t: nat -> Machine)
    requires Begins(a, t, TwoAdditions(), OneBlock(0))
    ensures RunsToHalt(a, 3) && GoesWrong(a, 3, t, 9)
    ensures !StoreDataSafe(a, 2) && !InstrAt(a, 1).ctl.readsMem && SafeButStoreData(a, 3)
  {
    hide Init, DecodeWord, Image, StoreByte, FetchWord, TwoAdditions, Follows, Records, StopsAt, Fit, Assembled, ByteOf;
    var mem := Image(TwoAdditions());
    AdditionRun(t, mem, SeqAt(a, 0).regs);
    TwoAdditionsListing(a);
    TwoAdditionsImage();
    SpecialOps();
    AssembledWord(NOP);
    OtherWord(mem, 28, 2, 12);
    OtherWord(mem, 28, 2, 16);
    StoredByte(mem, 28, 1, 28);
    StoredByte(mem, 28, 2, 28);
    SmallBytes();
    assert Writes(a, 0, 2) && Writes(a, 1, 2);
  }

  lemma SmallBytes()
    ensures ByteOf(1, 0) == 1 && ByteOf(2, 0) == 2
  {
  }
}
