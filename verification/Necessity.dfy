/** The side conditions cannot be dropped: for the first clause of (A), for (C) and for (D) a program that violates just
    this one and that the pipeline runs differently from the reference simulator, whatever the initial registers. */
module Necessity {
  import opened Utilities
  import opened Memory
  import opened MemoryLaws
  import opened Instructions
  import opened LruCache
  import opened SequentialRun
  import opened PipelineSpec
  import opened HazardSafety
  import opened Refinement
  import opened StraightLine

  // ---- instructions ------------------------------------------------------------------------------------------

  /** The load of a byte at `offset` (base x0) into register `rd`. */
  function ByteLoad(word: Word, rd: RegId, offset: RegId): Op {
    Op(word,
      Control(false, true, false, true, false, false, true, true, false, OP_LOAD, FUNCT3_B, 0, rd, 0, offset),
      offset as Word)
  }

  /** The store of the low byte of register `data`. */
  function ByteStore(word: Word, base: RegId, data: RegId, offset: RegId): Op {
    Op(word,
      Control(false, true, false, false, true, false, false, true, true, OP_STORE, FUNCT3_B, 0, offset, base, data),
      offset as Word)
  }

  const LB_X1: Op := ByteLoad(0x0000_0083, 1, 0)
  const SB_X0_0: Op := ByteStore(0x0000_0023, 0, 0, 0)
  const SB_X0_5: Op := ByteStore(0x0000_02A3, 0, 0, 5)
  const SB_X0_28: Op := ByteStore(0x0000_0E23, 0, 0, 28)
  const SB_X1_28: Op := ByteStore(0x0010_0E23, 0, 1, 28)

  lemma ByteOps()
    ensures Assembled(LB_X1) && Assembled(SB_X0_0) && Assembled(SB_X1_28)
  {
    hide Assembled;
    LoadOp();
    StoreOps();
  }

  lemma LoadOp()
    ensures Assembled(LB_X1)
  {
  }

  lemma StoreOps()
    ensures Assembled(SB_X0_0) && Assembled(SB_X1_28)
  {
  }

  lemma MoreByteOps()
    ensures Assembled(SB_X0_5) && Assembled(SB_X0_28)
  {
  }

  predicate LoadsByte(o: Op, rd: RegId, offset: Word) {
    && Fit(o) && !o.ctl.isNop && !o.ctl.isHalt && !o.ctl.doesArith && o.ctl.readsMem && !o.ctl.writesMem && Straight(o)
    && o.ctl.funct3 == FUNCT3_B && o.ctl.readsRs1 && o.ctl.rs1 == 0 && o.ctl.writesRd && o.ctl.rd == rd
    && o.offset == offset
  }

  predicate StoresByte(o: Op, base: RegId, data: RegId, offset: Word) {
    && Fit(o) && !o.ctl.isNop && !o.ctl.isHalt && !o.ctl.doesArith && o.ctl.writesMem && !o.ctl.readsMem && Straight(o)
    && o.ctl.funct3 == FUNCT3_B && o.ctl.readsRs1 && o.ctl.rs1 == base && o.ctl.readsRs2 && o.ctl.rs2 == data
    && !o.ctl.writesRd && o.offset == offset
  }

  lemma LoadKind(o: Op, rd: RegId, offset: Word)
    requires LoadsByte(o, rd, offset)
    ensures Fit(o) && Straight(o) && !o.ctl.isNop && !o.ctl.isHalt && !o.ctl.doesArith
    ensures o.ctl.readsMem && !o.ctl.writesMem && o.ctl.rs1 == 0 && o.offset == offset
    ensures TouchesMemory(o.ctl) && o.ctl.funct3 == FUNCT3_B
  {
  }

  lemma StoreKind(o: Op, base: RegId, data: RegId, offset: Word)
    requires StoresByte(o, base, data, offset)
    ensures Fit(o) && Straight(o) && !o.ctl.isNop && !o.ctl.isHalt && !o.ctl.doesArith
    ensures o.ctl.writesMem && !o.ctl.readsMem && !o.ctl.writesRd && o.offset == offset
    ensures TouchesMemory(o.ctl) && o.ctl.funct3 == FUNCT3_B
  {
  }

  lemma ByteKinds()
    ensures LoadsByte(LB_X1, 1, 0) && StoresByte(SB_X0_0, 0, 0, 0) && StoresByte(SB_X0_5, 0, 0, 5)
            && StoresByte(SB_X0_28, 0, 0, 28)
    ensures StoresByte(SB_X1_28, 0, 1, 28)
  {
  }

  lemma StoreWaits(d: Op, e: Op)
    requires !e.ctl.readsMem
    ensures NoLoadUse(d, e)
  {
  }

  /** HALT reaches WB in state `n`, for the first time. */
  ghost predicate StopsAt(t: nat -> Machine, n: nat) {
    Halted(t(n)) && forall j: nat :: j < n ==> !Halted(t(j))
  }

  /** The pipeline halts after `n` cycles, but not with the results of the reference run. */
  ghost predicate GoesWrong(a: Course, h: nat, t: nat -> Machine, n: nat) {
    StopsAt(t, n) && !ShowsResultsOf(a, h, t(n))
  }

  /** A store with zero operands writes a zero byte. */
  lemma ZeroStore(t: nat -> Machine, n: nat, pc: Word, mem: Mem, f: Op, d: Op, e: Op, y: Op, w: Op, next: Op, at: Word,
                  data: RegId)
    requires Records(t) && Stream(t(n), pc, mem, f, d, e, y, w) && pc < 32
    requires Assembled(f) && Fit(f) && Fit(d) && Straight(d) && Assembled(e) && StoresByte(e, 0, data, at) && Fit(y)
             && Fit(w)
    requires t(n).exL.op1 == 0 && t(n).exL.op2 == 0 && (w.ctl.isNop || !w.ctl.writesRd)
    requires mem.start == 0 && at as int < |mem.bytes| && t(n).dCache.config.missLatency == 0
    requires FetchWord(StoreByte(mem, at, 0), pc) == Some(next.word)
    ensures var m, m' := t(n), t(n + 1);
            && Stream(m', Next(pc), StoreByte(mem, at, 0), next, f, d, e, y) && ReadsFrom(m'.idL, f, m'.regs)
            && m'.exL == StageEX(m) && m'.dCache.config == m.dCache.config
    ensures Halted(t(n)) <==> w.ctl.isHalt
  {
    hide StageEX, FetchWord, Result, Next, Assembled, Halted, Shows, ReadsFrom, Access, Resident, StoreByte,
      LoadedValue, WithStoreData, Ready, Straight, WellShaped;
    NoPatch(t(n).exL, t(n).wbL);
    AddZero(at);
    FlowAccess(t, n, pc, mem, f, d, e, y, w, next, at, StoreByte(mem, at, 0));
  }

  lemma IdealCache()
    ensures Empty(OneBlock(0)).config.missLatency == 0
  {
    hide Empty;
  }

  lemma HaltInWB(m: Machine, pc: Word, mem: Mem, f: Op, d: Op, e: Op, y: Op)
    requires Stream(m, pc, mem, f, d, e, y, HALT)
    ensures Halted(m) && m.mem == mem
  {
  }

  /** HALT leaves EX, and nothing follows. */
  lemma HaltEnds(t: nat -> Machine, n: nat, mem: Mem, y: Op, w: Op)
    requires Records(t) && Stream(t(n), 20, mem, NOP, NOP, HALT, y, w) && Fit(y) && Fit(w)
    requires FetchWord(mem, 20) == Some(NOP.word) && FetchWord(mem, 24) == Some(NOP.word)
    requires !w.ctl.isHalt && !y.ctl.isHalt
    ensures Halted(t(n + 2)) && !Halted(t(n + 1)) && !Halted(t(n)) && t(n + 2).mem == mem
  {
    hide *;
    SpecialOps(); NextPCs();
    FlowQuiet(t, n, 20, mem, NOP, NOP, HALT, y, w, NOP);
    FlowQuiet(t, n + 1, 24, mem, NOP, NOP, NOP, HALT, y, NOP);
    HaltInWB(t(n + 2), 28, mem, NOP, NOP, NOP, NOP);
  }

  // ---- (D): HALT with a store behind it ----------------------------------------------------------------------

  function Shadow(): seq<Op> { [HALT, SB_X0_0, NOP, NOP, NOP, NOP, NOP, NOP] }

  lemma ShadowImage()
    ensures var mem := Image(Shadow());
            && mem.start == 0 && |mem.bytes| == 32 && mem.bytes[0] == 0xED
            && FetchWord(mem, 0) == Some(HALT.word) && FetchWord(mem, 4) == Some(SB_X0_0.word)
            && FetchWord(mem, 8) == Some(NOP.word) && FetchWord(mem, 12) == Some(NOP.word)
            && FetchWord(mem, 16) == Some(NOP.word)
  {
    hide FetchWord;
    ImageHolds(Shadow());
  }

  /** The store behind HALT has been done when HALT is in WB. */
  lemma ShadowRun(t: nat -> Machine, mem: Mem, regs: Regs)
    requires Records(t) && t(0) == Init(mem, regs, OneBlock(0), OneBlock(0)) && mem == Image(Shadow())
    ensures StopsAt(t, 6) && t(6).mem == StoreByte(mem, 0, 0)
  {
    hide *;
    ShadowImage();
    ByteOps(); ByteKinds(); SpecialOps(); NextPCs(); IdealCache();
    var sb := SB_X0_0;
    StoreKind(sb, 0, 0, 0);
    StoreWaits(sb, HALT);
    OtherWord(mem, 0, 0, 16);
    Fill(t, mem, regs, OneBlock(0), HALT, sb, NOP);
    FlowQuiet(t, 4, 12, mem, NOP, sb, HALT, NOP, NOP, NOP);
    ZeroOperands(t(4), 12, mem, NOP, sb, HALT, NOP, NOP, regs);
    ZeroStore(t, 5, 16, mem, NOP, NOP, sb, HALT, NOP, NOP, 0, 0);
    HaltInWB(t(6), 20, StoreByte(mem, 0, 0), NOP, NOP, NOP, sb);
    FirstStop(t, 6);
  }

  lemma FirstStop(t: nat -> Machine, n: nat)
    requires Halted(t(n)) && forall j: nat :: j < n ==> !Halted(t(j))
    ensures StopsAt(t, n)
  {
  }

  /** Condition (D) is needed: the reference run leaves memory alone, the pipeline does the store behind HALT. */
  lemma HaltShadowNeeded(a: Course, t: nat -> Machine)
    requires Begins(a, t, Shadow(), OneBlock(0))
    ensures RunsToHalt(a, 0) && GoesWrong(a, 0, t, 6)
    ensures StoreDataSafe(a, 0) && LoadUseSafe(a, 0) && BranchOperandSafe(a, 0) && CodeStable(a, 0)
    ensures !HaltShadowSafe(a, 0)
  {
    hide Init, DecodeWord, Image, StoreByte, FetchWord, Shadow, Follows, Records, StopsAt, Fit, Assembled, ByteOf;
    var mem := Image(Shadow());
    ShadowRun(t, mem, SeqAt(a, 0).regs);
    ShadowImage();
    SpecialOps(); ByteOps();
    ReferenceStep(a, 0, HALT);
    AssembledWord(SB_X0_0);
    StoredByte(mem, 0, 0, 0);
    ZeroByte();
  }

  /** The same program with a NOP for the store meets all conditions. */
  lemma WithoutTheStore(a: Course)
    requires Follows(a) && SeqAt(a, 0).pc == 0 && SeqAt(a, 0).mem == Image(Shadow()[1 := NOP])
    ensures RunsToHalt(a, 0) && HazardSafe(a, 0)
  {
    hide DecodeWord, Image, FetchWord, Follows, Fit, Assembled;
    ImageHolds(Shadow()[1 := NOP]);
    SpecialOps();
    ReferenceStep(a, 0, HALT);
    AssembledWord(NOP);
  }

  lemma AssembledWord(o: Op)
    requires Assembled(o)
    ensures DecodeWord(o.word) == o.ctl
  {
  }

  lemma ZeroByte()
    ensures ByteOf(0, 0) == 0
  {
  }

  // ---- (A): a store of the value just loaded -----------------------------------------------------------------

  function LoadStore(): seq<Op> { [LB_X1, SB_X1_28, HALT, NOP, NOP, NOP, NOP, NOP] }

  lemma LoadStoreImage()
    ensures var mem := Image(LoadStore());
            && mem.start == 0 && |mem.bytes| == 32 && mem.bytes[0] == 0x83
            && FetchWord(mem, 0) == Some(LB_X1.word) && FetchWord(mem, 4) == Some(SB_X1_28.word)
            && FetchWord(mem, 8) == Some(HALT.word) && FetchWord(mem, 12) == Some(NOP.word)
            && FetchWord(mem, 16) == Some(NOP.word) && FetchWord(mem, 20) == Some(NOP.word)
            && FetchWord(mem, 24) == Some(NOP.word)
  {
    hide FetchWord;
    ImageHolds(LoadStore());
  }

  /** A store of a register just loaded does not wait; it takes over the ALU result of the load, zero. */
  lemma StoreBehindLoad(m: Machine, pc: Word, mem: Mem, f: Op, d: Op, e: Op, y: Op, w: Op, regs: Regs, r: RegId,
                        i: Word, j: Word)
    requires StoresByte(d, 0, r, i) && LoadsByte(e, r, j) && r != 0
    requires Stream(m, pc, mem, f, d, e, y, w) && ReadsFrom(m.idL, d, regs) && m.exL.arith == 0
    ensures NoLoadUse(d, e) && StageEX(m).op1 == 0 && StageEX(m).op2 == 0
  {
    hide StageEX, HazardStall, WellShaped, Completed, Warm;
    NoHazard(m, d, e);
    ShowsInEX(m, d);
    X0(regs);
  }

  /** The store writes zero, whatever has been loaded. */
  lemma LoadStoreRun(t: nat -> Machine, mem: Mem, regs: Regs)
    requires Records(t) && t(0) == Init(mem, regs, OneBlock(0), OneBlock(0)) && mem == Image(LoadStore())
    ensures StopsAt(t, 8) && t(8).mem == StoreByte(mem, 28, 0)
  {
    hide *;
    LoadStoreImage();
    ByteOps(); ByteKinds(); SpecialOps(); NextPCs(); IdealCache();
    var lb, sb, stored := LB_X1, SB_X1_28, StoreByte(mem, 28, 0);
    LoadKind(lb, 1, 0); StoreKind(sb, 0, 1, 28);
    OtherWord(mem, 28, 0, 16); OtherWord(mem, 28, 0, 20); OtherWord(mem, 28, 0, 24);
    Fill(t, mem, regs, OneBlock(0), lb, sb, HALT);
    FirstZeroRead(t(4).exL, lb, regs);
    StoreBehindLoad(t(4), 12, mem, HALT, sb, lb, NOP, NOP, regs, 1, 28, 0);
    AddZero(0);
    FlowAccess(t, 4, 12, mem, HALT, sb, lb, NOP, NOP, NOP, 0, mem);
    KeepsConfig(t(4).dCache, 0);
    ZeroStore(t, 5, 16, mem, NOP, HALT, sb, lb, NOP, NOP, 28, 1);
    HaltEnds(t, 6, stored, sb, lb);
    FirstStop(t, 8);
  }

  lemma KeepsConfig(c: Cache, at: Word)
    ensures Access(c, at).config == c.config
  {
    hide Index, Tag;
  }

  /** What the load loads: byte 0 of the program, sign-extended. */
  const LOADED: Word := 0xFFFF_FFFF_FFFF_FF83

  lemma LoadedByte()
    ensures LoadedValue(FUNCT3_B, 0x83) == LOADED
  {
    hide Sext64;
    assert Sext64(ToBits(0x83), 7) == 0xFFFF_FFFF_FFFF_FF83 by { SignedByte(); }
  }

  lemma SignedByte()
    ensures Sext64(0x83, 7) == 0xFFFF_FFFF_FFFF_FF83
  {
  }

  /** The reference run of the load, the store and HALT. */
  lemma LoadStoreListing(a: Course)
    requires Follows(a) && SeqAt(a, 0).pc == 0 && SeqAt(a, 0).mem == Image(LoadStore())
    ensures var mem := Image(LoadStore());
            && InstrAt(a, 0).ctl == LB_X1.ctl && !InstrAt(a, 0).fault
            && InstrAt(a, 1).ctl == SB_X1_28.ctl && !InstrAt(a, 1).fault
            && InstrAt(a, 2).ctl == HALT.ctl
            && SeqAt(a, 1).mem == mem && SeqAt(a, 1).pc == 4
            && SeqAt(a, 2).mem == StoreByte(mem, 28, LOADED) && SeqAt(a, 2).pc == 8
  {
    hide Image, FetchWord, StoreByte, LoadStore, WriteReg, ReadReg, LoadedValue, Follows, Fit, Assembled;
    LoadStoreImage();
    ByteOps(); ByteKinds(); SpecialOps();
    LoadKind(LB_X1, 1, 0); StoreKind(SB_X1_28, 0, 1, 28);
    ReadsZero(a, 0); ReadsZero(a, 1);
    ReferenceAccess(a, 0, LB_X1);
    LoadedByte();
    ReadAfterWrite(SeqAt(a, 0).regs, 1, LOADED, 1);
    ReferenceAccess(a, 1, SB_X1_28);
    OtherWord(Image(LoadStore()), 28, LOADED, 8);
    ReferenceStep(a, 2, HALT);
  }

  lemma ReadsZero(a: Course, k: nat)
    ensures ReadReg(SeqAt(a, k).regs, 0) == 0
  {
    X0(SeqAt(a, k).regs);
  }

  /** The conditions other than (A). */
  ghost predicate SafeButStoreData(a: Course, h: nat) {
    && (forall k: nat :: k <= h ==> LoadUseSafe(a, k) && BranchOperandSafe(a, k) && CodeStable(a, k))
    && HaltShadowSafe(a, h)
  }

  /** The first clause of condition (A) is needed: the store writes zero instead of the byte just loaded. */
  lemma StoreDataNeeded(a: Course, t: nat -> Machine)
    requires Begins(a, t, LoadStore(), OneBlock(0))
    ensures RunsToHalt(a, 2) && GoesWrong(a, 2, t, 8) && !StoreDataSafe(a, 1) && SafeButStoreData(a, 2)
  {
    hide Init, DecodeWord, Image, StoreByte, FetchWord, LoadStore, Follows, Records, StopsAt, Fit, Assembled, ByteOf;
    var mem := Image(LoadStore());
    LoadStoreRun(t, mem, SeqAt(a, 0).regs);
    LoadStoreListing(a);
    LoadStoreImage();
    SpecialOps();
    AssembledWord(NOP);
    OtherWord(mem, 28, LOADED, 8);
    OtherWord(mem, 28, LOADED, 12);
    StoredByte(mem, 28, 0, 28);
    StoredByte(mem, 28, LOADED, 28);
    ZeroByte();
    LowByte();
    assert Writes(a, 0, 1);
  }

  lemma LowByte()
    ensures ByteOf(LOADED as nat, 0) == 0x83
  {
  }

  // ---- (C): a store that patches the next instruction --------------------------------------------------------

  function Patching(): seq<Op> { [SB_X0_5, SB_X0_28, HALT, NOP, NOP, NOP, NOP, NOP] }

  lemma PatchingImage()
    ensures var mem := Image(Patching());
            && mem.start == 0 && |mem.bytes| == 32 && mem.bytes[28] == 0x13
            && FetchWord(mem, 0) == Some(SB_X0_5.word) && FetchWord(mem, 4) == Some(SB_X0_28.word)
            && FetchWord(mem, 8) == Some(HALT.word) && FetchWord(mem, 12) == Some(NOP.word)
            && FetchWord(mem, 16) == Some(NOP.word) && FetchWord(mem, 20) == Some(NOP.word)
            && FetchWord(mem, 24) == Some(NOP.word)
  {
    hide FetchWord;
    ImageHolds(Patching());
  }

  /** The first store leaves the words behind it alone. */
  lemma PatchedTail(mem: Mem)
    requires mem == Image(Patching())
    ensures var m := StoreByte(mem, 5, 0);
            && m.start == 0 && |m.bytes| == 32 && FetchWord(m, 8) == Some(HALT.word)
            && FetchWord(m, 12) == Some(NOP.word)
            && FetchWord(m, 16) == Some(NOP.word) && FetchWord(m, 20) == Some(NOP.word)
            && FetchWord(m, 24) == Some(NOP.word)
  {
    hide *;
    PatchingImage();
    StoredByte(mem, 5, 0, 0);
    OtherWord(mem, 5, 0, 8); OtherWord(mem, 5, 0, 12); OtherWord(mem, 5, 0, 16);
    OtherWord(mem, 5, 0, 20); OtherWord(mem, 5, 0, 24);
  }

  /** The pipeline runs the second store as it was before the first one has patched it. */
  lemma PatchingRun(t: nat -> Machine, mem: Mem, regs: Regs)
    requires Records(t) && t(0) == Init(mem, regs, OneBlock(0), OneBlock(0)) && mem == Image(Patching())
    ensures StopsAt(t, 8) && t(8).mem == StoreByte(StoreByte(mem, 5, 0), 28, 0)
  {
    hide *;
    PatchingImage(); PatchedTail(mem);
    MoreByteOps(); ByteKinds(); SpecialOps(); NextPCs(); IdealCache();
    var s1, s2, mem1 := SB_X0_5, SB_X0_28, StoreByte(mem, 5, 0);
    StoreKind(s1, 0, 0, 5); StoreKind(s2, 0, 0, 28);
    StoreWaits(s2, s1);
    OtherWord(mem1, 28, 0, 16); OtherWord(mem1, 28, 0, 20); OtherWord(mem1, 28, 0, 24);
    Fill(t, mem, regs, OneBlock(0), s1, s2, HALT);
    FirstZeroRead(t(4).exL, s1, regs);
    ZeroOperands(t(4), 12, mem, HALT, s2, s1, NOP, NOP, regs);
    ZeroStore(t, 4, 12, mem, HALT, s2, s1, NOP, NOP, NOP, 5, 0);
    ZeroStore(t, 5, 16, mem1, NOP, HALT, s2, s1, NOP, NOP, 28, 0);
    HaltEnds(t, 6, StoreByte(mem1, 28, 0), s2, s1);
    FirstStop(t, 8);
  }

  /** The first store turns the second one into a store to address 0. */
  lemma PatchedWord(mem: Mem)
    requires mem == Image(Patching())
    ensures FetchWord(StoreByte(mem, 5, 0), 4) == Some(SB_X0_0.word)
  {
    hide FetchWord, ByteOf, StoreByte, Compose;
    var m := StoreByte(mem, 5, 0);
    PatchingImage(); PatchedBytes();
    StoredByte(mem, 5, 0, 4); StoredByte(mem, 5, 0, 5); StoredByte(mem, 5, 0, 6); StoredByte(mem, 5, 0, 7);
    assert m.bytes[4..8] == BytesOf(SB_X0_0.word as nat, 4);
    FetchesOp(m, 4, SB_X0_0.word);
  }

  lemma PatchedBytes()
    ensures ByteOf(0x23, 1) == 0 == ByteOf(0, 0) && ByteOf(0x23, 0) == ByteOf(0xE23, 0)
    ensures ByteOf(0x23, 2) == ByteOf(0xE23, 2) && ByteOf(0x23, 3) == ByteOf(0xE23, 3)
  {
  }

  /** The reference run of the two stores and HALT. */
  lemma PatchingListing(a: Course)
    requires Follows(a) && SeqAt(a, 0).pc == 0 && SeqAt(a, 0).mem == Image(Patching())
    ensures var mem := Image(Patching());
            && InstrAt(a, 0).ctl == SB_X0_5.ctl && !InstrAt(a, 0).fault
            && InstrAt(a, 1).ctl == SB_X0_0.ctl && !InstrAt(a, 1).fault
            && InstrAt(a, 2).ctl == HALT.ctl
            && SeqAt(a, 1).mem == StoreByte(mem, 5, 0) && SeqAt(a, 1).pc == 4
            && SeqAt(a, 2).mem == StoreByte(StoreByte(mem, 5, 0), 0, 0) && SeqAt(a, 2).pc == 8
  {
    hide Image, FetchWord, StoreByte, Patching, WriteReg, ReadReg, Follows, Fit, Assembled;
    var mem := Image(Patching());
    PatchingImage(); PatchedTail(mem); PatchedWord(mem);
    ByteOps(); MoreByteOps(); ByteKinds(); SpecialOps();
    StoreKind(SB_X0_5, 0, 0, 5); StoreKind(SB_X0_0, 0, 0, 0);
    ReadsZero(a, 0); ReadsZero(a, 1);
    ReferenceAccess(a, 0, SB_X0_5);
    ReferenceAccess(a, 1, SB_X0_0);
    OtherWord(StoreByte(mem, 5, 0), 0, 0, 8);
    ReferenceStep(a, 2, HALT);
  }

  /** Condition (C) is needed: the pipeline has fetched the second store before the first one changes it. */
  lemma CodeStableNeeded(a: Course, t: nat -> Machine)
    requires Begins(a, t, Patching(), OneBlock(0))
    ensures RunsToHalt(a, 2) && GoesWrong(a, 2, t, 8) && !CodeStable(a, 1)
    ensures forall k: nat :: k <= 2 ==> StoreDataSafe(a, k) && LoadUseSafe(a, k) && BranchOperandSafe(a, k)
    ensures HaltShadowSafe(a, 2)
  {
    hide Init, DecodeWord, Image, StoreByte, FetchWord, Patching, Follows, Records, StopsAt, Fit, Assembled, ByteOf;
    var mem := Image(Patching());
    var mem1 := StoreByte(mem, 5, 0);
    PatchingRun(t, mem, SeqAt(a, 0).regs);
    PatchingListing(a);
    PatchingImage(); PatchedTail(mem); PatchedWord(mem);
    SpecialOps();
    AssembledWord(NOP);
    OtherWord(mem1, 0, 0, 12);
    StoredByte(mem1, 28, 0, 28); StoredByte(mem1, 0, 0, 28); StoredByte(mem, 5, 0, 28);
    ZeroByte();
  }
}
