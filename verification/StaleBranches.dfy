/** A load, an instruction and a branch on the loaded register.  If the instruction between them is a load that misses,
    the branch goes wrong: the second clause of condition (B) cannot be dropped.  If it is a NOP, the program meets
    all side conditions. */
module StaleBranches {
  import opened Utilities
  import opened Memory
  import opened Instructions
  import opened LruCache
  import opened SequentialRun
  import opened PipelineSpec
  import opened HazardSafety
  import opened Correspondence
  import opened Refinement
  import opened StraightLine
  import opened Necessity

  // ---- the program -------------------------------------------------------------------------------------------

  const LB_X2_20: Op := ByteLoad(0x0140_0103, 2, 20)

  /** `bne x1, x0, 12`. */
  const BNE_X1_12: Op :=
    Op(0x0000_9663,
      Control(false, true, false, false, false, false, false, true, true, OP_BRANCH, FUNCT3_BNE, 0, 12, 1, 0), 0)

  lemma BranchOps()
    ensures Assembled(LB_X2_20) && LoadsByte(LB_X2_20, 2, 20) && Assembled(BNE_X1_12) && Fit(BNE_X1_12)
    ensures !BNE_X1_12.ctl.readsMem && !BNE_X1_12.ctl.writesMem && !BNE_X1_12.ctl.isNop && !BNE_X1_12.ctl.isHalt
  {
  }

  lemma BranchTarget(a: Word, b: Word)
    ensures NextPC(BNE_X1_12.ctl, BNE_X1_12.word, 8, a, b) == if a != b then 20 else 12
  {
  }

  /** If x1 is zero the first HALT ends the program, else a store and the second one do. */
  function Branching(second: Op): seq<Op> { [LB_X1, second, BNE_X1_12, HALT, NOP, SB_X0_0, HALT, NOP] }

  lemma BranchingImage(second: Op)
    requires second == LB_X2_20 || second == NOP
    ensures var mem := Image(Branching(second));
            && mem.start == 0 && |mem.bytes| == 32 && mem.bytes[0] == 0x83
            && FetchWord(mem, 0) == Some(LB_X1.word) && FetchWord(mem, 4) == Some(second.word)
            && FetchWord(mem, 8) == Some(BNE_X1_12.word) && FetchWord(mem, 12) == Some(HALT.word)
            && FetchWord(mem, 16) == Some(NOP.word) && FetchWord(mem, 20) == Some(SB_X0_0.word)
            && FetchWord(mem, 24) == Some(HALT.word) && FetchWord(mem, 28) == Some(NOP.word)
  {
    hide FetchWord;
    ImageHolds(Branching(second));
  }

  // ---- the reference run -------------------------------------------------------------------------------------

  /** The branch is taken, to the store and the second HALT. */
  lemma BranchingListing(a: Course, second: Op)
    requires second == LB_X2_20 || second == NOP
    requires Follows(a) && SeqAt(a, 0).pc == 0 && SeqAt(a, 0).mem == Image(Branching(second))
    ensures var mem := Image(Branching(second));
            && InstrAt(a, 0).ctl == LB_X1.ctl && !InstrAt(a, 0).fault
            && InstrAt(a, 1).ctl == second.ctl && !InstrAt(a, 1).fault
            && InstrAt(a, 2).ctl == BNE_X1_12.ctl && !InstrAt(a, 2).fault
            && InstrAt(a, 3).ctl == SB_X0_0.ctl && !InstrAt(a, 3).fault
            && InstrAt(a, 4).ctl == HALT.ctl
            && SeqAt(a, 1).mem == mem && SeqAt(a, 1).pc == 4 && SeqAt(a, 2).mem == mem && SeqAt(a, 2).pc == 8
            && SeqAt(a, 3).mem == mem && SeqAt(a, 3).pc == 20
            && SeqAt(a, 4).mem == StoreByte(mem, 0, 0) && SeqAt(a, 4).pc == 24
  {
    hide Image, FetchWord, StoreByte, Branching, WriteReg, ReadReg, LoadedValue, Follows, Fit, Assembled, Add, NextPC,
      LB_X1, LB_X2_20, SB_X0_0;
    BranchingImage(second);
    ByteOps(); ByteKinds(); SpecialOps(); BranchOps(); LoadedByte();
    LoadKind(LB_X1, 1, 0); LoadKind(LB_X2_20, 2, 20); StoreKind(SB_X0_0, 0, 0, 0); AddZero(0); AddZero(20);
    ReadsZero(a, 0); ReadsZero(a, 1); ReadsZero(a, 2); ReadsZero(a, 3);
    ReferenceAccess(a, 0, LB_X1);
    ReadAfterWrite(SeqAt(a, 0).regs, 1, LOADED, 1);
    if second == NOP {
      ReferenceStep(a, 1, NOP);
    } else {
      ReferenceAccess(a, 1, LB_X2_20);
      ReadAfterWrite(SeqAt(a, 1).regs, 2, LoadedValue(FUNCT3_B, SeqAt(a, 1).mem.bytes[20] as Word), 1);
    }
    BranchTarget(ReadReg(SeqAt(a, 2).regs, 1), 0);
    ReferenceStep(a, 2, BNE_X1_12);
    ReferenceAccess(a, 3, SB_X0_0);
    OtherWord(Image(Branching(second)), 0, 0, 24);
    ReferenceStep(a, 4, HALT);
  }

  /** The words behind the store are not changed by it. */
  lemma BranchingFetches(second: Op)
    requires second == LB_X2_20 || second == NOP
    ensures var mem := Image(Branching(second));
            && FetchWord(StoreByte(mem, 0, 0), 24) == FetchWord(mem, 24)
            && FetchWord(mem, 28) == Some(NOP.word) && FetchWord(StoreByte(mem, 0, 0), 28) == Some(NOP.word)
            && !DecodeWord(NOP.word).writesMem
  {
    hide FetchWord, Image, StoreByte, DecodeWord, Assembled;
    BranchingImage(second);
    SpecialOps();
    AssembledWord(NOP);
    OtherWord(Image(Branching(second)), 0, 0, 24);
    OtherWord(Image(Branching(second)), 0, 0, 28);
  }

  /** With a NOP in the middle the program meets all side conditions: a load, a taken branch that depends on it, and
      a store. */
  lemma BranchingIsSafe(a: Course)
    requires Follows(a) && SeqAt(a, 0).pc == 0 && SeqAt(a, 0).mem == Image(Branching(NOP))
    ensures RunsToHalt(a, 4) && HazardSafe(a, 4)
  {
    hide DecodeWord, Image, StoreByte, FetchWord, Branching, Follows;
    BranchingListing(a, NOP);
    BranchingFetches(NOP);
  }

  /** What the main theorem says of it. */
  lemma BranchingRuns(a: Course, i: Geometry, d: Geometry) returns (n: nat)
    requires Follows(a) && SeqAt(a, 0).pc == 0 && SeqAt(a, 0).mem == Image(Branching(NOP))
    ensures var m0 := StartOf(a, i, d);
            FirstHalt(m0, n) && Run(m0, n).mem == StoreByte(Image(Branching(NOP)), 0, 0)
  {
    hide Image, StoreByte, Branching, HazardSafe, RunsToHalt, Run, FirstHalt, Init, Follows;
    BranchingIsSafe(a);
    BranchingListing(a, NOP);
    n := PipelineRefinesReference(a, 4, i, d);
  }

  // ---- the pipeline ------------------------------------------------------------------------------------------

  /** Two blocks of 16 bytes: the loads from 0 and from 20 both miss. */
  const TWO_BLOCKS: Geometry := Config(32, 16, 1, 1)

  lemma BothMiss()
    ensures var c := Empty(TWO_BLOCKS);
            !Resident(c, 0) && !Resident(Access(c, 0), 20) && c.config.missLatency == 1
                && Access(c, 0).config == c.config
  {
    assert Index(TWO_BLOCKS, 0) == 0 && Index(TWO_BLOCKS, 20) == 1 by {
      assert Log2(16) == 4 && Log2(2) == 1;
      assert Pow2(4) == 16 && Pow2(1) == 2;
    }
    hide Index, Tag;
  }

  lemma LoadsApart(d: Op, e: Op, r: RegId, i: Word, q: RegId, j: Word)
    requires LoadsByte(d, r, i) && LoadsByte(e, q, j) && q != 0
    ensures NoLoadUse(d, e)
  {
  }

  lemma BranchReads(x: Instruction, regs: Regs)
    requires ReadsFrom(x, BNE_X1_12, regs) && ReadReg(regs, 1) == 0
    ensures x.op1 == 0 && x.op2 == 0
  {
    X0(regs);
  }

  /** The branch waits for a load of x1 in MEM. */
  lemma BranchMustWait(m: Machine, pc: Word, mem: Mem, f: Op, e: Op, y: Op, w: Op)
    requires Stream(m, pc, mem, f, BNE_X1_12, e, y, w) && LoadsByte(y, 1, 0)
    ensures HazardStall(m)
  {
    hide Warm;
  }

  /** Neither MEM nor WB offers x1 any more: the branch is not taken. */
  lemma BranchFallsThrough(m: Machine, pc: Word, mem: Mem, f: Op, y: Op)
    requires Stream(m, pc, mem, f, BNE_X1_12, NOP, y, NOP) && LoadsByte(y, 2, 20) && m.idL.op1 == 0 && m.idL.op2 == 0
    ensures !HazardStall(m) && !Taken(m)
  {
    hide StageMEM, Warm, Result, BranchOffset, StageWB;
    ShowsInMEM(m, NOP, 0);
    ShowsInWB(m, y);
  }

  /** The pipeline halts at the first HALT and leaves memory alone. */
  lemma BranchRun(t: nat -> Machine, mem: Mem, regs: Regs)
    requires Records(t) && t(0) == Init(mem, regs, OneBlock(0), TWO_BLOCKS) && mem == Image(Branching(LB_X2_20))
    requires ReadReg(regs, 1) == 0
    ensures StopsAt(t, 12) && t(12).mem == mem
  {
    hide *;
    BranchingImage(LB_X2_20);
    ByteOps(); ByteKinds(); BranchOps(); SpecialOps(); NextPCs(); BothMiss(); AddZero(0); AddZero(20);
    var lb, second, bne, sb := LB_X1, LB_X2_20, BNE_X1_12, SB_X0_0;
    LoadKind(lb, 1, 0); LoadKind(second, 2, 20); StoreKind(sb, 0, 0, 0);
    LoadsApart(second, lb, 2, 20, 1, 0);
    Fill(t, mem, regs, TWO_BLOCKS, lb, second, bne);
    FirstZeroRead(t(4).exL, lb, regs);
    ZeroOperands(t(4), 12, mem, bne, second, lb, NOP, NOP, regs);
    FlowAccess(t, 4, 12, mem, bne, second, lb, NOP, NOP, HALT, 0, mem);
    BranchReads(t(5).idL, regs);
    Freeze(t, 5, 16, mem, HALT, bne, second, lb, NOP);
    BranchMustWait(t(6), 16, mem, HALT, second, lb, NOP);
    HoldOverLoad(t, 6, 16, mem, HALT, bne, second, lb, NOP, 20);
    Freeze(t, 7, 16, mem, HALT, bne, NOP, second, lb);
    BranchFallsThrough(t(8), 16, mem, HALT, second);
    FlowQuiet(t, 8, 16, mem, HALT, bne, NOP, second, NOP, NOP);
    FlowQuiet(t, 9, 20, mem, NOP, HALT, bne, NOP, second, sb);
    FlowQuiet(t, 10, 24, mem, sb, NOP, HALT, bne, NOP, HALT);
    FlowQuiet(t, 11, 28, mem, HALT, sb, NOP, HALT, bne, NOP);
    HaltInWB(t(12), 32, mem, NOP, HALT, sb, NOP);
    FirstStop(t, 12);
  }

  /** The second clause of condition (B) is needed: the branch on x1, zero at the start, is resolved with this zero
      although the load two before it has put another value there. */
  lemma BranchOperandNeeded(a: Course, t: nat -> Machine)
    requires Begins(a, t, Branching(LB_X2_20), TWO_BLOCKS) && ReadReg(SeqAt(a, 0).regs, 1) == 0
    ensures RunsToHalt(a, 4) && GoesWrong(a, 4, t, 12) && !BranchOperandSafe(a, 2)
    ensures forall k: nat :: k <= 4 ==> StoreDataSafe(a, k) && LoadUseSafe(a, k) && CodeStable(a, k)
    ensures HaltShadowSafe(a, 4)
  {
    hide Init, DecodeWord, Image, StoreByte, FetchWord, Branching, Follows, Records, StopsAt, Fit, Assembled, ByteOf,
      ReadReg;
    var mem := Image(Branching(LB_X2_20));
    BranchRun(t, mem, SeqAt(a, 0).regs);
    BranchingListing(a, LB_X2_20);
    BranchingFetches(LB_X2_20);
    BranchingImage(LB_X2_20);
    StoredByte(mem, 0, 0, 0);
    ZeroByte();
    assert Writes(a, 0, 1) && Reads(a, 2, 1) && !Writes(a, 1, 1) && TouchesMemory(InstrAt(a, 1).ctl);
  }
}
