/** The first clause of condition (B) cannot be dropped: a program in which a store, held in ID behind a load that
    misses, loses the operand that the instruction before the load has written. */
module HeldOperands {
  import opened Utilities
  import opened Memory
  import opened Instructions
  import opened LruCache
  import opened SequentialRun
  import opened PipelineSpec
  import opened HazardSafety
  import opened StraightLine
  import opened Necessity
  import opened StoreOrder

  const SB_X2_9_X1: Op := ByteStore(0x0020_84A3, 1, 2, 9)

  lemma HeldStoreOp()
    ensures Assembled(SB_X2_9_X1) && StoresByte(SB_X2_9_X1, 1, 2, 9)
  {
  }

  /** A program that stores x2 through the byte it has just loaded into x1. */
  function HeldOperand(): seq<Op> { [ADDI_X2_1, LB_X1, SB_X2_9_X1, HALT, NOP, NOP, NOP, NOP] }

  lemma HeldOperandImage()
    ensures var mem := Image(HeldOperand());
            && mem.start == 0 && |mem.bytes| == 32 && mem.bytes[0] == 0x13
            && FetchWord(mem, 0) == Some(ADDI_X2_1.word) && FetchWord(mem, 4) == Some(LB_X1.word)
            && FetchWord(mem, 8) == Some(SB_X2_9_X1.word) && FetchWord(mem, 12) == Some(HALT.word)
            && FetchWord(mem, 16) == Some(NOP.word) && FetchWord(mem, 20) == Some(NOP.word)
            && FetchWord(mem, 24) == Some(NOP.word)
  {
    hide FetchWord;
    ImageHolds(HeldOperand());
  }

  lemma SmallByte()
    ensures LoadedValue(FUNCT3_B, 0x13) == 0x13 && Add(0x13, 9) == 28
  {
    hide Sext64;
    assert Sext64(ToBits(0x13), 7) == 0x13 by { PositiveByte(); }
  }

  lemma PositiveByte()
    ensures Sext64(0x13, 7) == 0x13
  {
  }

  /** The store waits for the load that has just left ID. */
  lemma StoreMustWait(m: Machine, pc: Word, mem: Mem, f: Op, d: Op, e: Op, y: Op, w: Op)
    requires Stream(m, pc, mem, f, d, e, y, w) && StoresByte(d, 1, 2, 9) && LoadsByte(e, 1, 0)
    ensures HazardStall(m)
  {
    hide Warm;
  }

  /** The operands with which the store leaves ID at last. */
  lemma StaleOperand(m: Machine, pc: Word, mem: Mem, f: Op, d: Op, y: Op)
    requires Stream(m, pc, mem, f, d, NOP, y, NOP) && StoresByte(d, 1, 2, 9) && LoadsByte(y, 1, 0)
    ensures StageEX(m).op1 == m.memL.memVal && StageEX(m).op2 == m.idL.op2
  {
    hide StageEX, HazardStall, Warm;
    NoHazard(m, d, NOP);
    ShowsInEX(m, d);
  }

  lemma DecodedDatum(x: Instruction, d: Op, regs: Regs)
    requires ReadsFrom(x, d, regs) && StoresByte(d, 1, 2, 9)
    ensures x.op2 == ReadReg(regs, 2)
  {
  }

  lemma LoadIsNoWriterOf(m: Machine, pc: Word, mem: Mem, f: Op, d: Op, e: Op, y: Op, w: Op)
    requires Stream(m, pc, mem, f, d, e, y, w) && StoresByte(e, 1, 2, 9) && LoadsByte(w, 1, 0)
    ensures WithStoreData(m.exL, m.wbL) == m.exL
  {
    hide Ready;
    NoPatch(m.exL, m.wbL);
  }

  lemma ColdThenWarm()
    ensures var c := Empty(OneBlock(1));
            !Resident(c, 0) && c.config.missLatency == 1 && Resident(Access(c, 0), 28)
                && Access(c, 0).config == c.config
  {
    hide Resident, Access;
    EmptyMisses(OneBlock(1), 0);
    AccessWarms(Empty(OneBlock(1)), 0);
    KeepsConfig(Empty(OneBlock(1)), 0);
  }

  /** The pipeline stores the old x2. */
  lemma HeldRun(t: nat -> Machine, mem: Mem, regs: Regs)
    requires Records(t) && t(0) == Init(mem, regs, OneBlock(0), OneBlock(1)) && mem == Image(HeldOperand())
    ensures StopsAt(t, 11) && t(11).mem == StoreByte(mem, 28, ReadReg(regs, 2))
  {
    hide *;
    HeldOperandImage();
    AdditionOps(); HeldStoreOp(); ByteOps(); ByteKinds(); AdditionKinds(); SpecialOps(); NextPCs(); SmallByte();
    ColdThenWarm();
    var p, lb, sb, v := ADDI_X2_1, LB_X1, SB_X2_9_X1, ReadReg(regs, 2);
    var stored := StoreByte(mem, 28, v);
    AddKind(p); LoadKind(lb, 1, 0); StoreKind(sb, 1, 2, 9);
    StoreWaits(lb, p); StoreWaits(HALT, sb); AddZero(0);
    OtherWord(mem, 28, v, 20); OtherWord(mem, 28, v, 24); StoredByte(mem, 28, v, 0);
    SomeWord(stored, 28);
    Fill(t, mem, regs, OneBlock(1), p, lb, sb);
    FlowQuiet(t, 4, 12, mem, sb, lb, p, NOP, NOP, HALT);
    ZeroOperands(t(4), 12, mem, sb, lb, p, NOP, NOP, regs);
    DecodedDatum(t(5).idL, sb, t(5).regs);
    StoreMustWait(t(5), 16, mem, HALT, sb, lb, p, NOP);
    HoldOverLoad(t, 5, 16, mem, HALT, sb, lb, p, NOP, 0);
    Freeze(t, 6, 16, mem, HALT, sb, NOP, lb, p);
    StaleOperand(t(7), 16, mem, HALT, sb, lb);
    FlowQuiet(t, 7, 16, mem, HALT, sb, NOP, lb, NOP, NOP);
    LoadIsNoWriterOf(t(8), 20, mem, NOP, HALT, sb, NOP, lb);
    FlowAccess(t, 8, 20, mem, NOP, HALT, sb, NOP, lb, NOP, 28, stored);
    FlowQuiet(t, 9, 24, stored, NOP, NOP, HALT, sb, NOP, NOP);
    FlowQuiet(t, 10, 28, stored, NOP, NOP, NOP, HALT, sb, Op(FetchWord(stored, 28).value, NOP.ctl, 0));
    HaltInWB(t(11), 32, stored, Op(FetchWord(stored, 28).value, NOP.ctl, 0), NOP, NOP, NOP);
    FirstStop(t, 11);
  }

  /** The reference run of the addition, the load, the store and HALT. */
  lemma HeldListing(a: Course)
    requires Follows(a) && SeqAt(a, 0).pc == 0 && SeqAt(a, 0).mem == Image(HeldOperand())
    ensures var mem := Image(HeldOperand());
            && InstrAt(a, 0).ctl == ADDI_X2_1.ctl && !InstrAt(a, 0).fault
            && InstrAt(a, 1).ctl == LB_X1.ctl && !InstrAt(a, 1).fault
            && InstrAt(a, 2).ctl == SB_X2_9_X1.ctl && !InstrAt(a, 2).fault
            && InstrAt(a, 3).ctl == HALT.ctl
            && SeqAt(a, 1).mem == mem && SeqAt(a, 1).pc == 4 && SeqAt(a, 2).mem == mem && SeqAt(a, 2).pc == 8
            && SeqAt(a, 3).mem == StoreByte(mem, 28, 1) && SeqAt(a, 3).pc == 12
  {
    hide Image, FetchWord, StoreByte, HeldOperand, WriteReg, ReadReg, Follows, Fit, Assembled, Alu, ShiftMasked,
      LoadedValue, Add;
    HeldOperandImage();
    AdditionOps(); HeldStoreOp(); ByteOps(); ByteKinds(); AdditionKinds(); SpecialOps(); SmallByte(); AddZero(0);
    AddKind(ADDI_X2_1); LoadKind(LB_X1, 1, 0); StoreKind(SB_X2_9_X1, 1, 2, 9);
    ReadsZero(a, 0); ReadsZero(a, 1);
    ReferenceStep(a, 0, ADDI_X2_1);
    AdditionResult(0, ShiftMasked(ADDI_X2_1.ctl, 0), 0);
    ReadAfterWrite(SeqAt(a, 0).regs, 2, 1, 2);
    ReferenceAccess(a, 1, LB_X1);
    ReadAfterWrite(SeqAt(a, 1).regs, 1, 0x13, 1);
    ReadAfterWrite(SeqAt(a, 1).regs, 1, 0x13, 2);
    ReferenceAccess(a, 2, SB_X2_9_X1);
    OtherWord(Image(HeldOperand()), 28, 1, 12);
    ReferenceStep(a, 3, HALT);
  }

  /** The first clause of condition (B) is needed: the store held in ID by the load-use hazard takes the value of x2
      that the addition has overwritten, unless they happen to end in the same byte. */
  lemma HeldOperandNeeded(a: Course, t: nat -> Machine)
    requires Begins(a, t, HeldOperand(), OneBlock(1)) && ByteOf(ReadReg(SeqAt(a, 0).regs, 2) as nat, 0) != 1
    ensures RunsToHalt(a, 3) && GoesWrong(a, 3, t, 11) && !LoadUseSafe(a, 2)
    ensures forall k: nat :: k <= 3 ==> StoreDataSafe(a, k) && BranchOperandSafe(a, k) && CodeStable(a, k)
    ensures HaltShadowSafe(a, 3)
  {
    hide Init, DecodeWord, Image, StoreByte, FetchWord, HeldOperand, Follows, Records, StopsAt, Fit, Assembled, ByteOf,
      ReadReg;
    var mem, v := Image(HeldOperand()), ReadReg(SeqAt(a, 0).regs, 2);
    HeldRun(t, mem, SeqAt(a, 0).regs);
    HeldListing(a);
    HeldOperandImage();
    SpecialOps();
    AssembledWord(NOP);
    OtherWord(mem, 28, 1, 12);
    OtherWord(mem, 28, 1, 16);
    StoredByte(mem, 28, v, 28);
    StoredByte(mem, 28, 1, 28);
    SmallBytes();
    assert Writes(a, 1, 1) && Reads(a, 2, 1) && Reads(a, 2, 2) && Writes(a, 0, 2);
  }
}
