/** A run in which the first instruction of the exception handler is decoded twice: an illegal word is decoded in the
    cycle in which a load misses, and the D-stall is one cycle long. */
module HandlerTwice {
  import opened Utilities
  import opened Memory
  import opened MemoryLaws
  import opened Instructions
  import opened LruCache
  import opened SequentialRun
  import opened PipelineSpec
  import opened Correspondence
  import opened Stages
  import opened Fetching
  import opened Preservation
  import opened Ledgers
  import opened ControlFlow
  import opened Liveness
  import opened Traps
  import opened StraightLine
  import opened Necessity
  import opened StoreOrder
  import opened HeldOperands

  /** An illegal word. */
  const ZERO: Op :=
    Op(0, Control(false, false, false, false, false, false, false, false, false, 0, 0, 0, 0, 0, 0), 0)

  /** A load, a NOP and an illegal word at 0, an addition at the handler. */
  function TrapImage(): Mem {
    Mem(0, seq(0x8004, i requires 0 <= i < 0x8004 =>
      if i < 4 then ByteOf(LB_X1.word as nat, i)
      else if i < 8 then ByteOf(NOP.word as nat, i - 4)
      else if i < 12 then ByteOf(0, i - 8)
      else if i >= 0x8000 then ByteOf(ADDI_X2_1.word as nat, i - 0x8000)
      else 0))
  }

  lemma TrapImageHolds()
    ensures var mem := TrapImage();
            && mem.start == 0 && |mem.bytes| == 0x8004
            && FetchWord(mem, 0) == Some(LB_X1.word) && FetchWord(mem, 4) == Some(NOP.word)
            && FetchWord(mem, 8) == Some(ZERO.word) && FetchWord(mem, EXCEPTION_HANDLER) == Some(ADDI_X2_1.word)
  {
    hide FetchWord, ByteOf;
    var mem := TrapImage();
    assert mem.bytes[0..4] == BytesOf(LB_X1.word as nat, 4);
    FetchesOp(mem, 0, LB_X1.word);
    assert mem.bytes[4..8] == BytesOf(NOP.word as nat, 4);
    FetchesOp(mem, 4, NOP.word);
    assert mem.bytes[8..12] == BytesOf(ZERO.word as nat, 4);
    FetchesOp(mem, 8, ZERO.word);
    assert mem.bytes[0x8000..0x8004] == BytesOf(ADDI_X2_1.word as nat, 4);
    FetchesOp(mem, 0x8000, ADDI_X2_1.word);
  }

  /** The illegal word has been fetched, the load is about to miss. */
  ghost predicate AboutToMiss(m: Machine, mem: Mem) {
    && Stream(m, 12, mem, ZERO, NOP, LB_X1, NOP, NOP) && m.exL.op1 == 0 && m.dCache == Empty(OneBlock(1))
  }

  lemma Filled(t: nat -> Machine, mem: Mem, regs: Regs)
    requires Records(t) && t(0) == Init(mem, regs, OneBlock(0), OneBlock(1)) && mem == TrapImage()
    ensures AboutToMiss(t(4), mem)
  {
    hide Cycle, Init, TrapImage, FetchWord, Assembled, Stream, Empty, Executed, Fit, Halted, Records, LB_X1;
    TrapImageHolds();
    ByteOps(); ByteKinds(); SpecialOps();
    LoadKind(LB_X1, 1, 0);
    Fill(t, mem, regs, OneBlock(1), LB_X1, NOP, ZERO);
    FirstZeroRead(t(4).exL, LB_X1, regs);
  }

  /** In that cycle the illegal word is decoded and a D-stall of one cycle starts. */
  lemma DecodedInMiss(m: Machine, mem: Mem)
    requires AboutToMiss(m, mem) && mem.start == 0 && |mem.bytes| == 0x8004
    ensures DecodesIllegal(m) && StageMEM(m).dStallLeft == 1 && StageMEM(m).mem == mem && !StageMEM(m).latch.fault
    ensures Inert(StageEX(m)) && !StageWB(m).trap
  {
    hide StageMEM, StageWB, StageEX, Empty, Warm, Resident, Access, Assembled, LoadedValue, DecodeWord;
    ByteOps(); ByteKinds(); SpecialOps(); ColdThenWarm(); AddZero(0);
    LoadKind(LB_X1, 1, 0);
    ByteAccess(mem, LB_X1, 0, m.exL.addr, WithStoreData(m.exL, m.wbL).op2);
    ShowsInMEM(m, LB_X1, 0);
    ShowsInWB(m, NOP);
    NoHazard(m, NOP, LB_X1);
    ShowsInEX(m, NOP);
    NopNotTaken(m);
    IllegalZero();
  }

  lemma NopNotTaken(m: Machine)
    requires !Live(m.idL)
    ensures !Taken(m)
  {
    hide HazardStall, StageMEM, StageWB;
  }

  /** The cycle after the decode: the squash is pending, and the D-stall uses it up. */
  ghost predicate Stuck(m: Machine, mem: Mem) {
    && Parked(m) && m.squashNextIF && m.dStallLeft == 1 && m.mem == mem && !m.memL.fault && Inert(m.exL)
  }

  lemma StuckAfterMiss(m: Machine, mem: Mem)
    requires Shaped(m) && AboutToMiss(m, mem) && mem.start == 0 && |mem.bytes| == 0x8004
    ensures Stuck(Cycle(m), mem)
  {
    hide Cycle, StageMEM, StageWB, StageEX, DecodesIllegal, AboutToMiss, NewID, Parked, Shaped;
    DecodedInMiss(m, mem);
    AfterIllegalDecode(m);
    CycleLatches(m);
    CycleParts(m);
  }

  /** Then IF holds the first word of the handler, and nothing is squashed. */
  ghost predicate HandlerFetched(m: Machine, mem: Mem) {
    && Parked(m) && !m.squashNextIF && !DStalled(m) && !m.memL.fault && Inert(m.exL) && Live(m.ifL)
    && m.ifL.word == ADDI_X2_1.word
  }

  lemma FetchedInStall(m: Machine, mem: Mem)
    requires Shaped(m) && Stuck(m, mem) && FetchWord(mem, EXCEPTION_HANDLER) == Some(ADDI_X2_1.word)
    ensures HandlerFetched(Cycle(m), mem) && !DecodesNow(m)
  {
    hide Cycle, FetchWord, Shaped, DecodesNow, SimIF;
    ParkedInStall(m);
    FrozenCycle(m);
    FetchIsLive(mem, EXCEPTION_HANDLER);
  }

  /** The first decode of the handler: the addition may leave ID, but the pipeline will fetch it again. */
  lemma HandlerDecoded(m: Machine, mem: Mem)
    requires Shaped(m) && HandlerFetched(m, mem)
    ensures DecodesNow(m) && m.ifL.pc == EXCEPTION_HANDLER
    ensures var m' := Cycle(m);
            && HandlerAgain(m') && m'.idL.ctl == ADDI_X2_1.ctl && !DStalled(m') && !HazardStall(m') && !StageWB(m').trap
  {
    hide Cycle, StageMEM, StageWB, StageEX, DecodeWord, NextPC, ReadReg, Decodes, Taken, HandlerAgain, Parked, Shaped;
    AdditionOps();
    AssembledWord(ADDI_X2_1);
    ParkedDecodes(m);
    NewWBCases(m);
    RaisesAgain(m);
    CycleLatches(m);
    NewIDCases(m);
    MEMStepIdle(m);
    ShapeKept(m);
    NewWBCases(Cycle(m));
    NothingAhead(m);
  }

  /** The illegal word does not get into EX. */
  lemma NothingAhead(m: Machine)
    requires Shaped(m) && Parked(m) && !DStalled(m) && Inert(m.exL)
    ensures !Live(StageEX(m)) && !Live(StageMEM(m).latch) && !StageMEM(m).latch.fault
  {
    hide HazardStall, Shaped;
    MEMStepIdle(m);
  }

  /** The handler's first instruction is decoded in cycle 6 and moves on, and is the next one to be decoded, too. */
  lemma HandlerRunsTwice(t: nat -> Machine, regs: Regs) returns (k: nat)
    requires Records(t) && t(0) == Init(TrapImage(), regs, OneBlock(0), OneBlock(1))
    ensures DecodesNow(t(6)) && t(6).ifL.pc == EXCEPTION_HANDLER && StageEX(t(7)).ctl == ADDI_X2_1.ctl
    ensures k > 7 && DecodesNow(t(k)) && t(k).ifL.pc == EXCEPTION_HANDLER
    ensures forall j: nat :: 6 < j < k ==> !DecodesNow(t(j))
  {
    hide *;
    var mem := TrapImage();
    TrapImageHolds();
    Filled(t, mem, regs);
    SoundAt(t, mem, regs, 4); SoundAt(t, mem, regs, 5); SoundAt(t, mem, regs, 6); SoundAt(t, mem, regs, 7);
    StuckAfterMiss(t(4), mem);
    FetchedInStall(t(5), mem);
    HandlerDecoded(t(6), mem);
    PlainAddition();
    var j := HandlerDecodedTwice(t(7));
    k := 7 + j;
    RecordsRun(t, 7, j);
    forall i: nat | 6 < i < k
      ensures !DecodesNow(t(i))
    {
      RecordsRun(t, 7, i - 7);
    }
  }

  lemma PlainAddition()
    ensures ADDI_X2_1.ctl.isLegal && !IsControlFlow(ADDI_X2_1.ctl)
  {
  }

  lemma SoundAt(t: nat -> Machine, mem: Mem, regs: Regs, n: nat)
    requires Records(t) && t(0) == Init(mem, regs, OneBlock(0), OneBlock(1))
    ensures Shaped(t(n)) && FetchSound(t(n)) && Cycle(t(n)) == t(n + 1)
  {
    hide Cycle, Init, Run, Shaped, FetchSound;
    RecordsRun(t, 0, n);
    EveryStateSound(mem, regs, OneBlock(0), OneBlock(1), n);
  }
}
