/** How programs stream through the pipeline: one instruction a cycle and stage, unless a hazard or a D-stall holds
    them.  The programs that violate the side conditions are run with these steps. */
module StraightLine {
  import opened Utilities
  import opened Memory
  import opened MemoryLaws
  import opened Instructions
  import opened LruCache
  import opened SequentialRun
  import opened PipelineSpec
  import opened HazardSafety
  import opened Correspondence
  import opened Stages
  import opened Fetching
  import opened Preservation

  // ---- straight-line code in a warm cache --------------------------------------------------------------------

  /** One block of 32 bytes; a miss costs `latency` cycles. */
  function OneBlock(latency: nat): (g: Geometry) { Config(32, 32, 1, latency) }

  /** The first 32 bytes are in the cache. */
  ghost predicate Warm(c: Cache) {
    c.config == OneBlock(c.config.missLatency) && forall a: Word :: a < 32 ==> Resident(c, a)
  }

  lemma FirstBlock(latency: nat, a: Word)
    requires a < 32
    ensures Index(OneBlock(latency), a) == 0 && Tag(OneBlock(latency), a) == 0
  {
    assert Log2(32) == 5 && Log2(1) == 0;
    assert Pow2(5) == 32;
  }

  lemma AccessWarms(c: Cache, a: Word)
    requires c.config == OneBlock(c.config.missLatency) && a < 32
    ensures Warm(Access(c, a))
  {
    hide Index, Tag, HitIn;
    var latency := c.config.missLatency;
    AccessMakesResident(c, a);
    FirstBlock(latency, a);
    forall b: Word | b < 32
      ensures Resident(Access(c, a), b)
    {
      FirstBlock(latency, b);
    }
  }

  /** Nothing stalls, traps or redirects. */
  ghost predicate Smooth(m: Machine) {
    && !DStalled(m) && !HazardStall(m) && m.iStallLeft == 0 && !m.squashNextIF && !m.justFinishedIStall
    && m.idL.ctl.isLegal && (IsControlFlow(m.idL.ctl) ==> !Taken(m)) && m.memL.ctl.isLegal && !m.memL.fault
    && (Live(m.ifL) ==> DecodeWord(m.ifL.word).isLegal && m.ifL.word != 0)
  }

  lemma SmoothWB(m: Machine)
    requires Smooth(m)
    ensures !StageWB(m).trap
  {
    hide SimCommit, Taken;
  }

  lemma SmoothID(m: Machine)
    requires Smooth(m)
    ensures !OldIdIllegal(m) && !Taken(m)
    ensures var d := StageID(m, StageWB(m).regs, false);
            && !d.illegal
            && (if Live(m.ifL) then d.latch == SimID(m.ifL, StageWB(m).regs, m.counters).0 else Inert(d.latch))
  {
    hide StageWB, StageMEM, HazardStall, Resident, ReadReg, NextPC, DecodeWord, ResolvedPC;
  }

  lemma SmoothIF(m: Machine, mem: Mem, newID: Instruction, target: Word)
    requires Smooth(m) && Resident(m.iCache, m.pc)
    ensures var f := StageIF(m, mem, newID, false, false, false, target);
            && SameButStatus(f.latch, SimIF(mem, m.pc)) && f.pc == Next(m.pc) && f.iCache == Access(m.iCache, m.pc)
            && f.iStallLeft == 0 && !f.squashNextIF && !f.justFinishedIStall
  {
    hide HazardStall, Resident, Access, FetchWord, DecodeWord, Next, Taken;
  }

  /** A smooth cycle that hits moves every instruction one stage on and fetches the next word. */
  lemma SmoothCycle(m: Machine)
    requires Smooth(m) && Resident(m.iCache, m.pc)
    ensures var m', w, e := Cycle(m), StageWB(m), StageMEM(m);
            && m'.regs == w.regs && m'.mem == e.mem && m'.dStallLeft == e.dStallLeft
            && m'.exL == StageEX(m) && m'.memL == e.latch && m'.wbL == w.latch
            && (if Live(m.ifL) then m'.idL == SimID(m.ifL, w.regs, m.counters).0 else Inert(m'.idL))
            && SameButStatus(m'.ifL, SimIF(e.mem, m.pc)) && m'.pc == Next(m.pc)
            && m'.iStallLeft == 0 && !m'.squashNextIF && !m'.justFinishedIStall && m'.iCache == Access(m.iCache, m.pc)
  {
    hide StageMEM, StageEX, Cycle, SimID, HazardStall, DecodeWord, Resident, Access, StageID, StageIF, Smooth, Taken;
    SmoothWB(m);
    SmoothID(m);
    CycleParts(m);
    CycleFetch(m);
    SmoothIF(m, StageMEM(m).mem, StageID(m, StageWB(m).regs, false).latch, Target(m));
  }

  // ---- stalled cycles ----------------------------------------------------------------------------------------

  /** What IF does while a hazard or a D-stall holds ID: it waits for an I-stall, and in a D-stall it still fetches a
      word that has just arrived.  A pending squash is forgotten. */
  predicate FetchHeld(m: Machine, m': Machine) {
    && m'.iStallLeft == Dec(m.iStallLeft) && m'.iCache == m.iCache && !m'.squashNextIF && !m'.justFinishedIStall
    && (if IStalled(m) then !Live(m'.ifL) && m'.pc == m.pc
        else if DStalled(m) && !Live(m.ifL) then m'.ifL == SimIF(m.mem, m.pc) && m'.pc == Next(m.pc)
        else SameButStatus(m'.ifL, m.ifL) && m'.pc == m.pc)
  }

  /** A hazard cycle: ID stands still, a bubble enters EX. */
  lemma HeldCycle(m: Machine)
    requires HazardStall(m) && m.idL.ctl.isLegal && !StageWB(m).trap
    ensures var m', w, e := Cycle(m), StageWB(m), StageMEM(m);
            && m'.regs == w.regs && m'.mem == e.mem && m'.dStallLeft == e.dStallLeft && m'.dCache == e.dCache
            && m'.idL == m.idL && m'.exL == Nop(BUBBLE) && m'.memL == e.latch && m'.wbL == w.latch
            && FetchHeld(m, m')
  {
    hide StageMEM, StageWB, StageEX, Cycle, HazardStall, BranchDataStall, StageID, StageIF, Nop, FetchHeld;
    NoBranchWhileHeld(m);
    NotStalledTwice(m);
    HeldStages(m);
    CycleParts(m);
    CycleFetch(m);
    HeldIF(m, StageMEM(m).mem, Target(m), Cycle(m));
  }

  lemma NotStalledTwice(m: Machine)
    ensures HazardStall(m) ==> !DStalled(m)
    ensures DStalled(m) ==> !StageWB(m).trap && StageMEM(m).mem == m.mem
  {
    hide LoadUse, BranchWaitsForEX, BranchWaitsForMEM;
  }

  lemma LegalWB(m: Machine)
    requires DStalled(m) || (m.memL.ctl.isLegal && !m.memL.fault)
    ensures !StageWB(m).trap
  {
    hide SimCommit;
  }

  lemma HeldStages(m: Machine)
    requires (DStalled(m) && !OldIdIllegal(m)) || (HazardStall(m) && m.idL.ctl.isLegal)
    ensures !OldIdIllegal(m) && StageID(m, StageWB(m).regs, false) == IdOut(m.idL, m.counters, false)
    ensures !DStalled(m) ==> StageEX(m) == Nop(BUBBLE)
  {
    hide StageWB, HazardStall, BranchDataStall, Nop, Forwarded;
  }

  lemma HeldIF(m: Machine, mem: Mem, target: Word, m': Machine)
    requires DStalled(m) || HazardStall(m)
    requires DStalled(m) ==> mem == m.mem
    requires var f := StageIF(m, mem, m.idL, false, false, false, target);
             && m'.ifL == f.latch && m'.pc == f.pc && m'.iStallLeft == f.iStallLeft && m'.squashNextIF == f.squashNextIF
             && m'.iCache == f.iCache && m'.justFinishedIStall == f.justFinishedIStall
    ensures FetchHeld(m, m')
  {
    hide HazardStall, BranchDataStall, SimIF;
  }

  /** A D-stall cycle: everything older than IF stands still, and WB drops what it held. */
  lemma FrozenCycle(m: Machine)
    requires DStalled(m) && !OldIdIllegal(m)
    ensures var m' := Cycle(m);
            && m'.regs == m.regs && m'.mem == m.mem && m'.dStallLeft == m.dStallLeft - 1 && m'.dCache == m.dCache
            && m'.idL == m.idL && m'.exL == m.exL && m'.memL == m.memL && m'.wbL == Nop(BUBBLE)
            && FetchHeld(m, m')
  {
    hide Cycle, HazardStall, StageID, StageIF, Nop, FetchHeld;
    LegalWB(m);
    NoBranchWhileHeld(m);
    NotStalledTwice(m);
    HeldStages(m);
    CycleParts(m);
    CycleFetch(m);
    HeldIF(m, m.mem, Target(m), Cycle(m));
  }

  // ---- recordings --------------------------------------------------------------------------------------------

  /** A recording of the pipeline, one state a cycle. */
  ghost predicate Records(t: nat -> Machine) {
    forall k: nat {:trigger Cycle(t(k))} :: Cycle(t(k)) == t(k + 1)
  }

  lemma {:induction false} RecordsRun(t: nat -> Machine, j: nat, k: nat)
    requires Records(t)
    ensures Run(t(j), k) == t(j + k)
  {
    hide Cycle;
    if k > 0 {
      RecordsRun(t, j, k - 1);
      RunStep(t(j), k - 1);
      assert Cycle(t(j + k - 1)) == t(j + k);
    } else {
      RunZero(t(j));
    }
  }

  // ---- which instructions are where --------------------------------------------------------------------------

  /** An instruction word, its control fields, and its offset if it accesses memory. */
  datatype Op = Op(word: Word, ctl: Control, offset: Word)

  predicate Assembled(o: Op) {
    && DecodeWord(o.word) == o.ctl
    && (o.ctl.readsMem ==> OfBits(ImmediateI(ToBits(o.word))) == o.offset)
    && (o.ctl.writesMem ==> OfBits(ImmediateS(ToBits(o.word))) == o.offset)
  }

  predicate Fit(o: Op) { o.ctl.isLegal && WellShaped(o.ctl) && o.word != 0 }

  const NOP: Op :=
    Op(NOP_WORD, Control(false, true, true, false, false, false, false, false, false, OP_INTIMM, 0, 0, 0, 0, 0), 0)

  const HALT: Op :=
    Op(HALT_WORD, Control(true, true, false, false, false, false, false, false, false, 0x6D, 7, 0x7F, 29, 27, 14), 0)

  lemma SpecialOps()
    ensures Assembled(NOP) && Fit(NOP) && Straight(NOP) && NOP.ctl.isNop && !NOP.ctl.isHalt
    ensures Assembled(HALT) && Fit(HALT) && Straight(HALT) && !HALT.ctl.isNop && HALT.ctl.isHalt
    ensures !NOP.ctl.readsMem && !NOP.ctl.writesMem && !HALT.ctl.readsMem && !HALT.ctl.writesMem
  {
  }

  /** `x` is the decoded instruction `o`; nothing has been computed for it yet.  A NOP stands for a bubble, too. */
  predicate Shows(x: Instruction, o: Op) {
    if o.ctl.isNop then Inert(x)
    else x.ctl == o.ctl && x.word == o.word && !x.fault && x.memVal == 0 && x.status == NORMAL
  }

  /** `x` is the fetched instruction `o`, or nothing. */
  predicate ShowsFetched(x: Instruction, o: Op) {
    (Live(x) ==> JustFetched(x) && x.word == o.word && !x.fault) && (Live(x) || o.ctl.isNop)
  }

  /** The instructions in IF, ID, EX, MEM and WB. */
  predicate Lineup(m: Machine, f: Op, d: Op, e: Op, y: Op, w: Op) {
    && ShowsFetched(m.ifL, f) && Shows(m.idL, d) && Shows(m.exL, e)
    && (if y.ctl.isNop then Inert(m.memL) else m.memL.ctl == y.ctl && !m.memL.fault)
    && (if w.ctl.isNop then Inert(m.wbL) else m.wbL.ctl == w.ctl)
  }

  /** IF may fetch from a warm cache, and `left` cycles of a D-stall are to go. */
  ghost predicate Ready(m: Machine, pc: Word, left: nat) {
    && m.dStallLeft == left && m.iStallLeft == 0 && !m.squashNextIF && !m.justFinishedIStall
    && Warm(m.iCache) && m.iCache.config == OneBlock(0) && m.pc == pc
  }

  /** `d` in ID does not wait for `e` in EX. */
  predicate NoLoadUse(d: Op, e: Op) {
    e.ctl.readsMem ==>
      && !(d.ctl.readsRs1 && d.ctl.rs1 == e.ctl.rd)
      && !(d.ctl.readsRs2 && d.ctl.rs2 == e.ctl.rd && !d.ctl.writesMem)
  }

  lemma NoHazard(m: Machine, d: Op, e: Op)
    requires Shows(m.idL, d) && Shows(m.exL, e) && NoLoadUse(d, e) && !IsControlFlow(d.ctl)
    ensures !HazardStall(m)
  {
    hide WellShaped;
  }

  lemma FetchedDecodes(x: Instruction, o: Op, regs: Regs, n: Counters)
    requires ShowsFetched(x, o) && Live(x) && Assembled(o) && Fit(o)
    ensures var y := SimID(x, regs, n).0;
            && Shows(y, o)
            && (!o.ctl.isNop ==> y.op1 == Operand1(o.ctl, regs) && y.op2 == Operand2(o.ctl, regs) && y.arith == 0)
  {
    hide DecodeWord, ReadReg, NextPC, ImmediateI, ImmediateS;
  }

  lemma ShowsInEX(m: Machine, d: Op)
    requires !DStalled(m) && !HazardStall(m) && Shows(m.idL, d) && Fit(d)
    ensures Shows(StageEX(m), d)
    ensures !d.ctl.isNop ==>
              && StageEX(m).op1 == (if d.ctl.readsRs1 then IntoEX(m, d.ctl.rs1, m.idL.op1) else m.idL.op1)
              && (d.ctl.doesArith ==>
                    StageEX(m).arith == Alu(d.ctl, d.word, m.idL.pc, StageEX(m).op1, StageEX(m).op2, m.idL.arith))
              && (!d.ctl.doesArith ==>
                    && StageEX(m).op2 == (if d.ctl.readsRs2 then IntoEX(m, d.ctl.rs2, m.idL.op2) else m.idL.op2)
                    && StageEX(m).arith == m.idL.arith)
  {
    hide Forwarded, Alu, ShiftMasked, HazardStall, Completed;
  }

  /** What MEM does to the instruction `e` in EX, with `at` its address. */
  lemma ShowsInMEM(m: Machine, e: Op, at: Word)
    requires !DStalled(m) && Shows(m.exL, e) && Fit(e)
    requires TouchesMemory(e.ctl) ==> Address(e.ctl, e.word, m.exL.op1, m.exL.addr) == at
    ensures var o := StageMEM(m);
            if !TouchesMemory(e.ctl) then
              && o.mem == m.mem && o.dStallLeft == 0 && o.dCache == m.dCache
              && (if e.ctl.isNop then Inert(o.latch)
                  else o.latch.ctl == e.ctl && !o.latch.fault && o.latch.arith == m.exL.arith)
            else
              var t := MemAccess(m.mem, e.ctl, at, WithStoreData(m.exL, m.wbL).op2, 0);
              && o.mem == t.mem && o.latch.ctl == e.ctl && o.latch.fault == t.fault
              && o.latch.memVal == t.memVal && o.latch.arith == m.exL.arith
              && (!t.fault ==> o.dCache == Access(m.dCache, at))
              && (!t.fault ==> o.dStallLeft == if Resident(m.dCache, at) then 0 else m.dCache.config.missLatency)
  {
    hide MemAccess, Address, HazardStall, Access, Resident, WithStoreData;
    WithStoreDataShape(m.exL, m.wbL);
    if e.ctl.isNop { MEMStepIdle(m); }
    else if TouchesMemory(e.ctl) { MEMFields(WithStoreData(m.exL, m.wbL), m.mem); }
  }

  lemma ShowsInWB(m: Machine, y: Op)
    requires !DStalled(m) && Fit(y) && (if y.ctl.isNop then Inert(m.memL) else m.memL.ctl == y.ctl && !m.memL.fault)
    ensures var o := StageWB(m);
            && !o.trap
            && (if y.ctl.isNop then Inert(o.latch) else o.latch.ctl == y.ctl && Result(o.latch) == Result(m.memL))
            && o.regs == (if !y.ctl.isNop && y.ctl.writesRd && y.ctl.rd != 0
                          then WriteReg(m.regs, y.ctl.rd, Result(m.memL)) else m.regs)
  {
    hide WriteReg;
    if !y.ctl.isNop { WBLatch(m.memL, m.regs); }
    WBLatchOfNop(m.memL, m.regs);
  }

  // ---- a step ------------------------------------------------------------------------------------------------

  /** `x` holds the operands that `o` reads from `regs`. */
  predicate ReadsFrom(x: Instruction, o: Op, regs: Regs) {
    !o.ctl.isNop ==> x.op1 == Operand1(o.ctl, regs) && x.op2 == Operand2(o.ctl, regs) && x.arith == 0
  }

  predicate Straight(o: Op) { !IsControlFlow(o.ctl) }

  lemma LineupIsSmooth(m: Machine, pc: Word, f: Op, d: Op, e: Op, y: Op, w: Op)
    requires Ready(m, pc, 0) && pc < 32 && Lineup(m, f, d, e, y, w)
    requires Assembled(f) && Fit(f) && Fit(d) && Fit(y) && Fit(w)
    requires if Straight(d) then NoLoadUse(d, e) else !HazardStall(m) && !Taken(m)
    ensures Smooth(m) && Resident(m.iCache, pc) && (Halted(m) <==> w.ctl.isHalt)
  {
    hide DecodeWord, ImmediateI, ImmediateS, Taken, HazardStall, Resident, NoLoadUse;
    if Straight(d) { NoHazard(m, d, e); }
  }

  lemma WarmAfter(m: Machine, pc: Word)
    requires Warm(m.iCache) && m.iCache.config == OneBlock(0) && pc < 32
    ensures Warm(Access(m.iCache, pc)) && Access(m.iCache, pc).config == OneBlock(0)
  {
    hide Resident, Access;
    AccessWarms(m.iCache, pc);
  }

  lemma EmptyShows(m: Machine, f: Op)
    requires ShowsFetched(m.ifL, f) && !Live(m.ifL)
    ensures forall x: Instruction :: Inert(x) ==> Shows(x, f)
  {
  }

  lemma SmoothStage(m: Machine, d: Op)
    requires Smooth(m) && Shows(m.idL, d) && Fit(d)
    ensures Shows(StageEX(m), d)
  {
    hide StageEX, HazardStall, Taken, Shows;
    ShowsInEX(m, d);
  }

  /** A line-up moves on by one stage, and `next` is fetched. */
  lemma Flow(t: nat -> Machine, n: nat, pc: Word, f: Op, d: Op, e: Op, y: Op, w: Op, next: Op)
    requires Records(t) && Ready(t(n), pc, 0) && pc < 32 && Lineup(t(n), f, d, e, y, w)
    requires Assembled(f) && Fit(f) && Fit(d) && Fit(y) && Fit(w)
    requires if Straight(d) then NoLoadUse(d, e) else !HazardStall(t(n)) && !Taken(t(n))
    requires var o := StageMEM(t(n));
             && FetchWord(o.mem, pc) == Some(next.word)
             && (if e.ctl.isNop then Inert(o.latch) else o.latch.ctl == e.ctl && !o.latch.fault)
    ensures var m, m', s := t(n), t(n + 1), StageMEM(t(n));
            && m'.regs == StageWB(m).regs && m'.mem == s.mem && m'.dCache == s.dCache && m'.memL == s.latch
            && m'.exL == StageEX(m) && m'.wbL == StageWB(m).latch
            && Lineup(m', next, f, d, e, y) && Live(m'.ifL) && Ready(m', Next(pc), s.dStallLeft)
            && (Live(m.ifL) ==> ReadsFrom(m'.idL, f, StageWB(m).regs))
    ensures Halted(t(n)) <==> w.ctl.isHalt
  {
    hide Cycle, StageMEM, StageEX, StageWB, SimID, DecodeWord, WellShaped, FetchWord, SimIF, Operand1, Operand2,
      Result, IntoEX, HazardStall, Warm, Resident, Access, ImmediateI, ImmediateS, Next, Taken, Smooth, NoLoadUse,
      Assembled, Halted, Shows, Straight;
    var m := t(n);
    assert Cycle(m) == t(n + 1);
    LineupIsSmooth(m, pc, f, d, e, y, w);
    SmoothCycle(m);
    WarmAfter(m, pc);
    FetchIsLive(StageMEM(m).mem, pc);
    if Live(m.ifL) { FetchedDecodes(m.ifL, f, StageWB(m).regs, m.counters); }
    else { EmptyShows(m, f); }
    SmoothStage(m, d);
    ShowsInWB(m, y);
    SmoothWB(m);
    CycleParts(m);
  }

  lemma NextPCs()
    ensures Next(0) == 4 && Next(4) == 8 && Next(8) == 12 && Next(12) == 16 && Next(16) == 20 && Next(20) == 24
    ensures Next(24) == 28 && Next(28) == 32
  {
  }

  /** A line-up without a D-stall, over the memory `mem`. */
  ghost predicate Stream(m: Machine, pc: Word, mem: Mem, f: Op, d: Op, e: Op, y: Op, w: Op) {
    Ready(m, pc, 0) && m.mem == mem && Lineup(m, f, d, e, y, w) && Live(m.ifL)
  }

  /** A step without memory access. */
  lemma FlowQuiet(t: nat -> Machine, n: nat, pc: Word, mem: Mem, f: Op, d: Op, e: Op, y: Op, w: Op, next: Op)
    requires Records(t) && Stream(t(n), pc, mem, f, d, e, y, w) && pc < 32
    requires Assembled(f) && Fit(f) && Fit(d) && Fit(e) && Fit(y) && Fit(w)
    requires Straight(d) || (!HazardStall(t(n)) && !Taken(t(n)))
    requires !e.ctl.readsMem && !e.ctl.writesMem && FetchWord(mem, pc) == Some(next.word)
    ensures var m, m' := t(n), t(n + 1);
            && Stream(m', Next(pc), mem, next, f, d, e, y) && ReadsFrom(m'.idL, f, m'.regs)
            && m'.exL == StageEX(m) && m'.dCache == m.dCache && (!e.ctl.isNop ==> m'.memL.arith == m.exL.arith)
            && (if y.ctl.isNop then m'.regs == m.regs else Result(m'.wbL) == Result(m.memL))
    ensures Halted(t(n)) <==> w.ctl.isHalt
  {
    hide StageMEM, StageEX, StageWB, FetchWord, Result, HazardStall, Warm, Next, Taken, Assembled, Halted, Shows, Fit,
      ReadsFrom, Straight;
    ShowsInMEM(t(n), e, 0);
    ShowsInWB(t(n), y);
    Flow(t, n, pc, f, d, e, y, w, next);
  }

  lemma AddZero(x: Word)
    ensures Add(0, x) == x && Add(x, 0) == x
  {
  }

  function StoreByte(mem: Mem, at: Word, data: Word): Mem { Store(mem, at, data, BYTE_SIZE) }

  /** A byte access in bounds. */
  lemma ByteAccess(mem: Mem, o: Op, base: Word, kept: Word, data: Word)
    requires Assembled(o) && Fit(o) && TouchesMemory(o.ctl) && o.ctl.funct3 == FUNCT3_B && mem.start == 0
    requires var at := Add(base, o.offset); at as int < |mem.bytes|
    ensures Address(o.ctl, o.word, base, kept) == Add(base, o.offset)
    ensures MemAccess(mem, o.ctl, Add(base, o.offset), data, 0) ==
            if o.ctl.readsMem then
              AccessOutcome(mem, false, LoadedValue(FUNCT3_B, mem.bytes[Add(base, o.offset)] as Word))
            else
              AccessOutcome(StoreByte(mem, Add(base, o.offset), data), false, 0)
  {
    hide DecodeWord, ImmediateS, ImmediateI, Store, LoadedValue, OfBits, ToBits, WellShaped, Compose;
    var at := Add(base, o.offset);
    OffsetFromZero(mem, at);
    if o.ctl.readsMem { OneByte(mem, at); }
  }

  lemma OffsetFromZero(mem: Mem, address: Word)
    requires mem.start == 0
    ensures Offset(mem, address) == address as int
  {
  }

  lemma OneByte(mem: Mem, at: Word)
    requires mem.start == 0 && at as int < |mem.bytes|
    ensures Load(mem, at, 1) == Some(mem.bytes[at] as Word)
  {
  }

  /** A step in which the byte access of `e` is done in EX; a miss starts a D-stall. */
  lemma FlowAccess(t: nat -> Machine, n: nat, pc: Word, mem: Mem, f: Op, d: Op, e: Op, y: Op, w: Op, next: Op, at: Word,
                   mem': Mem)
    requires Records(t) && Stream(t(n), pc, mem, f, d, e, y, w) && pc < 32
    requires Assembled(f) && Fit(f) && Fit(d) && Assembled(e) && Fit(e) && Fit(y) && Fit(w)
    requires Straight(d) && NoLoadUse(d, e) && TouchesMemory(e.ctl) && e.ctl.funct3 == FUNCT3_B
    requires at == Add(t(n).exL.op1, e.offset) && mem.start == 0 && at as int < |mem.bytes|
    requires mem' == if e.ctl.writesMem then StoreByte(mem, at, WithStoreData(t(n).exL, t(n).wbL).op2) else mem
    requires FetchWord(mem', pc) == Some(next.word)
    ensures var m, m' := t(n), t(n + 1);
            && Ready(m', Next(pc), if Resident(m.dCache, at) then 0 else m.dCache.config.missLatency)
            && m'.mem == mem' && Lineup(m', next, f, d, e, y) && Live(m'.ifL) && ReadsFrom(m'.idL, f, m'.regs)
            && m'.exL == StageEX(m) && m'.dCache == Access(m.dCache, at)
            && (if y.ctl.isNop then m'.regs == m.regs else Result(m'.wbL) == Result(m.memL))
            && (e.ctl.readsMem ==> m'.memL.memVal == LoadedValue(FUNCT3_B, mem.bytes[at] as Word))
            && (Resident(m.dCache, at) || m.dCache.config.missLatency == 0 ==>
                   Stream(m', Next(pc), mem', next, f, d, e, y))
    ensures Halted(t(n)) <==> w.ctl.isHalt
  {
    hide StageMEM, StageEX, StageWB, FetchWord, Result, HazardStall, Warm, Next, Taken, NoLoadUse, Assembled, Halted,
      Shows, ReadsFrom, MemAccess, Address, Access, Resident, Store, WithStoreData, LoadedValue;
    var m := t(n);
    ByteAccess(mem, e, m.exL.op1, m.exL.addr, WithStoreData(m.exL, m.wbL).op2);
    ShowsInMEM(m, e, at);
    ShowsInWB(m, y);
    Flow(t, n, pc, f, d, e, y, w, next);
  }

  /** A hazard holds `d` in ID, while the load of a byte in EX is done. */
  lemma HoldOverLoad(t: nat -> Machine, n: nat, pc: Word, mem: Mem, f: Op, d: Op, e: Op, y: Op, w: Op, at: Word)
    requires Records(t) && Stream(t(n), pc, mem, f, d, e, y, w) && HazardStall(t(n))
    requires Fit(d) && !d.ctl.isNop && Assembled(e) && Fit(e) && Fit(y) && Fit(w)
    requires e.ctl.readsMem && e.ctl.funct3 == FUNCT3_B
    requires at == Add(t(n).exL.op1, e.offset) && mem.start == 0 && at as int < |mem.bytes|
    ensures var m, m' := t(n), t(n + 1);
            && Ready(m', pc, if Resident(m.dCache, at) then 0 else m.dCache.config.missLatency)
            && m'.mem == mem && Lineup(m', f, d, NOP, e, y) && Live(m'.ifL)
            && m'.idL == m.idL && m'.dCache == Access(m.dCache, at)
            && m'.memL.memVal == LoadedValue(FUNCT3_B, mem.bytes[at] as Word)
    ensures Halted(t(n)) <==> w.ctl.isHalt
  {
    hide Cycle, StageMEM, StageEX, StageWB, FetchWord, Result, HazardStall, Warm, Taken, Assembled, MemAccess, Address,
      Access, Resident, WithStoreData, LoadedValue, DecodeWord;
    var m := t(n);
    assert Cycle(m) == t(n + 1);
    ByteAccess(mem, e, m.exL.op1, m.exL.addr, WithStoreData(m.exL, m.wbL).op2);
    ShowsInMEM(m, e, at);
    ShowsInWB(m, y);
    HeldCycle(m);
  }

  /** A cycle of a D-stall. */
  lemma Freeze(t: nat -> Machine, n: nat, pc: Word, mem: Mem, f: Op, d: Op, e: Op, y: Op, w: Op)
    requires Records(t) && Ready(t(n), pc, 1) && t(n).mem == mem && Lineup(t(n), f, d, e, y, w) && Live(t(n).ifL)
    requires Fit(d) && Fit(w)
    ensures var m, m' := t(n), t(n + 1);
            && Stream(m', pc, mem, f, d, e, y, NOP) && m'.idL == m.idL && m'.exL == m.exL && m'.memL == m.memL
            && m'.dCache == m.dCache && m'.regs == m.regs
    ensures Halted(t(n)) <==> w.ctl.isHalt
  {
    hide Cycle, StageMEM, StageEX, StageWB, Warm, HazardStall;
    assert Cycle(t(n)) == t(n + 1);
    FrozenCycle(t(n));
  }

  // ---- operands ----------------------------------------------------------------------------------------------

  /** Operands in x0 are zero, and nothing but the ALU makes an ALU result. */
  lemma ZeroOperands(m: Machine, pc: Word, mem: Mem, f: Op, d: Op, e: Op, y: Op, w: Op, regs: Regs)
    requires Stream(m, pc, mem, f, d, e, y, w) && ReadsFrom(m.idL, d, regs)
    requires Fit(d) && !d.ctl.isNop && !d.ctl.doesArith && Straight(d) && NoLoadUse(d, e)
    ensures var x := StageEX(m); (d.ctl.rs1 == 0 ==> x.op1 == 0) && (d.ctl.rs2 == 0 ==> x.op2 == 0) && x.arith == 0
  {
    hide StageEX, HazardStall, Shows, WellShaped, Completed, NoLoadUse, Warm;
    NoHazard(m, d, e);
    ShowsInEX(m, d);
    X0(regs);
  }

  /** WB patches the data of a store in EX only with a writer of the register. */
  lemma NoPatch(x: Instruction, wb: Instruction)
    requires Inert(wb) || !wb.ctl.writesRd || wb.ctl.rd != x.ctl.rs2
    ensures WithStoreData(x, wb) == x
  {
  }

  // ---- the start of a program --------------------------------------------------------------------------------

  /** The first cycle of every run misses in the instruction cache. */
  lemma FirstCycle(mem: Mem, regs: Regs, d: Geometry)
    ensures var m := Cycle(Init(mem, regs, OneBlock(0), d));
            && Ready(m, 0, 0) && Lineup(m, NOP, NOP, NOP, NOP, NOP) && m.mem == mem && m.regs == regs
            && m.dCache == Empty(d)
    ensures !Halted(Init(mem, regs, OneBlock(0), d))
  {
    hide Access, Resident, Warm, Empty;
    AccessWarms(Empty(OneBlock(0)), 0);
    EmptyMisses(OneBlock(0), 0);
  }

  lemma EmptyMisses(g: Geometry, a: Word)
    ensures !Resident(Empty(g), a)
  {
    hide Index, Tag;
  }

  /** `x` has been executed, and nothing was in flight before it. */
  ghost predicate Executed(x: Instruction, o: Op, regs: Regs) {
    !o.ctl.isNop ==>
      && x.op1 == Operand1(o.ctl, regs)
      && (!o.ctl.doesArith ==> x.op2 == Operand2(o.ctl, regs) && x.arith == 0)
      && (o.ctl.doesArith ==> exists pc, b :: x.arith == Alu(o.ctl, o.word, pc, x.op1, b, 0))
  }

  lemma FirstZeroRead(x: Instruction, o: Op, regs: Regs)
    requires Executed(x, o, regs) && !o.ctl.isNop && !o.ctl.doesArith
    ensures (o.ctl.rs1 == 0 ==> x.op1 == 0) && (o.ctl.rs2 == 0 ==> x.op2 == 0) && x.arith == 0
  {
    X0(regs);
  }

  lemma FirstExecuted(m: Machine, o: Op, regs: Regs)
    requires Shows(m.idL, o) && Fit(o) && ReadsFrom(m.idL, o, regs) && !DStalled(m) && !HazardStall(m)
    requires Inert(m.exL) && Inert(m.memL) && Inert(m.wbL)
    ensures Executed(StageEX(m), o, regs)
  {
    hide StageEX, HazardStall, Alu, Shows, WellShaped, Operand1, Operand2;
    ShowsInEX(m, o);
  }

  /** A program begins in both simulators. */
  ghost predicate Begins(a: Course, t: nat -> Machine, p: seq<Op>, d: Geometry) {
    && Follows(a) && SeqAt(a, 0).pc == 0 && SeqAt(a, 0).mem == Image(p)
    && Records(t) && t(0) == Init(Image(p), SeqAt(a, 0).regs, OneBlock(0), d)
  }

  /** A memory that holds a program from address 0 on. */
  function Image(p: seq<Op>): Mem {
    Mem(0, seq(4 * |p|, i requires 0 <= i < 4 * |p| => ByteOf(p[i / 4].word as nat, i % 4)))
  }

  /** Every program does begin, with any registers. */
  lemma Beginning(regs: Regs, p: seq<Op>, d: Geometry) returns (a: Course, t: nat -> Machine)
    ensures Begins(a, t, p, d) && SeqAt(a, 0).regs == regs
  {
    hide Records, Recording, Init, Image, Follows, CourseFrom;
    var s := Arch(regs, Image(p), 0);
    var m := Init(Image(p), regs, OneBlock(0), d);
    a, t := CourseFrom(s), Recording(m);
    CourseFollows(s);
    RecordingRecords(m);
  }

  function Recording(m: Machine): nat -> Machine { (k: nat) => Run(m, k) }

  lemma RecordingRecords(m: Machine)
    ensures Records(Recording(m)) && Recording(m)(0) == m
  {
    hide Cycle, Run;
    RunZero(m);
    forall k: nat
      ensures Cycle(Run(m, k)) == Run(m, k + 1)
    {
      RunStep(m, k);
    }
  }

  /** The first four cycles: two instructions are in ID and EX. */
  lemma Fill(t: nat -> Machine, mem: Mem, regs: Regs, d: Geometry, p: Op, q: Op, r: Op)
    requires Records(t) && t(0) == Init(mem, regs, OneBlock(0), d)
    requires FetchWord(mem, 0) == Some(p.word) && FetchWord(mem, 4) == Some(q.word) && FetchWord(mem, 8) == Some(r.word)
    requires Assembled(p) && Assembled(q) && Fit(p) && Fit(q) && Straight(p)
    ensures var m := t(4);
            && Stream(m, 12, mem, r, q, p, NOP, NOP) && m.regs == regs && m.dCache == Empty(d)
            && ReadsFrom(m.idL, q, regs) && Executed(m.exL, p, regs)
    ensures forall k: nat :: k < 4 ==> !Halted(t(k))
  {
    hide Cycle, Init, StageMEM, StageEX, StageWB, FetchWord, HazardStall, Warm, Taken, Assembled, Halted, Empty, Result,
      Executed, ReadsFrom, Operand1, Operand2, Lineup, Straight, Fit;
    SpecialOps();
    FirstCycle(mem, regs, d);
    assert Cycle(t(0)) == t(1);
    FirstFetch(t, mem, p);
    FlowQuiet(t, 2, 4, mem, p, NOP, NOP, NOP, NOP, q);
    FlowQuiet(t, 3, 8, mem, q, p, NOP, NOP, NOP, r);
    AloneInID(t(3), q, p);
    FirstExecuted(t(3), p, regs);
  }

  lemma FirstFetch(t: nat -> Machine, mem: Mem, p: Op)
    requires Records(t) && Ready(t(1), 0, 0) && Lineup(t(1), NOP, NOP, NOP, NOP, NOP) && t(1).mem == mem
    requires FetchWord(mem, 0) == Some(p.word)
    ensures Stream(t(2), 4, mem, p, NOP, NOP, NOP, NOP) && t(2).regs == t(1).regs && t(2).dCache == t(1).dCache
    ensures !Halted(t(1))
  {
    hide StageMEM, StageEX, StageWB, FetchWord, HazardStall, Warm, Taken, Assembled, Halted, Shows, Straight;
    SpecialOps();
    ShowsInMEM(t(1), NOP, 0);
    ShowsInWB(t(1), NOP);
    Flow(t, 1, 0, NOP, NOP, NOP, NOP, NOP, p);
  }

  lemma AloneInID(m: Machine, q: Op, p: Op)
    requires Lineup(m, q, p, NOP, NOP, NOP) && Straight(p)
    ensures !HazardStall(m) && Shows(m.idL, p) && Inert(m.exL) && Inert(m.memL) && Inert(m.wbL)
  {
    hide HazardStall;
    NoHazard(m, p, NOP);
  }

  // ---- programs in memory ------------------------------------------------------------------------------------

  /** Eight instruction words. */
  predicate Program(p: seq<Op>) {
    |p| == 8 && forall i :: 0 <= i < 8 ==> p[i].word < 0x1_0000_0000
  }

  lemma ImageHolds(p: seq<Op>)
    requires Program(p)
    ensures Image(p).start == 0 && |Image(p).bytes| == 32
    ensures FetchWord(Image(p), 0) == Some(p[0].word) && FetchWord(Image(p), 4) == Some(p[1].word)
    ensures FetchWord(Image(p), 8) == Some(p[2].word) && FetchWord(Image(p), 12) == Some(p[3].word)
    ensures FetchWord(Image(p), 16) == Some(p[4].word) && FetchWord(Image(p), 20) == Some(p[5].word)
    ensures FetchWord(Image(p), 24) == Some(p[6].word) && FetchWord(Image(p), 28) == Some(p[7].word)
  {
    hide FetchWord, ByteOf;
    forall i: nat | i < 8
      ensures FetchWord(Image(p), (4 * i) as Word) == Some(p[i].word)
    {
      assert Image(p).bytes[4 * i..4 * i + 4] == BytesOf(p[i].word as nat, 4);
      FetchesOp(Image(p), 4 * i, p[i].word);
    }
    assert forall i: nat {:trigger p[i]} :: i < 8 ==> FetchWord(Image(p), (4 * i) as Word) == Some(p[i].word);
  }

  /** A word whose bytes are in memory is fetched. */
  lemma FetchesOp(mem: Mem, at: nat, w: Word)
    requires mem.start == 0 && at + 4 <= |mem.bytes| && at < WORD_MODULUS && w < 0x1_0000_0000
    requires mem.bytes[at..at + 4] == BytesOf(w as nat, 4)
    ensures FetchWord(mem, at as Word) == Some(w)
  {
    hide Compose, ByteOf;
    assert Pow256(4) == 0x1_0000_0000;
    ComposeOfBytes(w as nat, 4);
  }

  /** A store of one byte leaves the words elsewhere alone. */
  lemma OtherWord(mem: Mem, address: Word, data: Word, pc: Word)
    requires mem.start == 0 && (pc as int + 4 <= address as int || address < pc)
    ensures FetchWord(StoreByte(mem, address, data), pc) == FetchWord(mem, pc)
  {
    hide Store, Load, Offset;
    OffsetFromZero(mem, address);
    OffsetFromZero(mem, pc);
    DisjointRead(mem, address, data, 1, pc, 4);
  }

  lemma StoredByte(mem: Mem, address: Word, data: Word, i: nat)
    requires mem.start == 0 && i < |mem.bytes|
    ensures var m := StoreByte(mem, address, data);
            && m.start == 0 && |m.bytes| == |mem.bytes|
            && m.bytes[i] == if i == address as int then ByteOf(data as nat, 0) else mem.bytes[i]
  {
    hide ByteOf, Offset;
    OffsetFromZero(mem, address);
    StoreFootprint(mem, address, data, 1, i);
  }

  // ---- the reference run -------------------------------------------------------------------------------------

  /** Instruction number `k` of the reference run. */
  lemma ReferenceStep(a: Course, k: nat, o: Op)
    requires Follows(a) && FetchWord(SeqAt(a, k).mem, SeqAt(a, k).pc) == Some(o.word) && Assembled(o) && Fit(o)
    ensures var x, s, s' := InstrAt(a, k), SeqAt(a, k), SeqAt(a, k + 1);
            var p, q := Operand1(o.ctl, s.regs), Operand2(o.ctl, s.regs);
            && x.ctl == o.ctl && x.word == o.word
            && (!o.ctl.isHalt ==>
                  && s'.pc == (if IsControlFlow(o.ctl) then NextPC(o.ctl, o.word, s.pc, p, q) else Next(s.pc))
                  && s'.regs == (if o.ctl.writesRd then WriteReg(s.regs, o.ctl.rd, Result(x)) else s.regs)
                  && x.arith == ArithOf(o.ctl, o.word, s.pc, p, q)
                  && (!TouchesMemory(o.ctl) ==> s'.mem == s.mem && !x.fault)
                  && (TouchesMemory(o.ctl) ==>
                        AccessOf(s.mem, o.ctl, o.word, p, q) == AccessOutcome(s'.mem, x.fault, x.memVal)))
  {
    hide DecodeWord, Alu, ShiftMasked, MemAccess, Address, FetchWord, ReadReg, WriteReg, NextPC, ImmediateI, ImmediateS;
    var s := SeqAt(a, k);
    assert SimInstruction(s, k) == (InstrAt(a, k), SeqAt(a, k + 1));
    var p, q := Operand1(o.ctl, s.regs), Operand2(o.ctl, s.regs);
    if !IsControlFlow(o.ctl) { FallThrough(o.ctl, o.word, s.pc, p, q); }
  }

  /** A byte access of the reference run. */
  lemma ReferenceAccess(a: Course, k: nat, o: Op)
    requires Follows(a) && FetchWord(SeqAt(a, k).mem, SeqAt(a, k).pc) == Some(o.word) && Assembled(o) && Fit(o)
    requires TouchesMemory(o.ctl) && o.ctl.funct3 == FUNCT3_B && SeqAt(a, k).mem.start == 0
    requires Add(Operand1(o.ctl, SeqAt(a, k).regs), o.offset) as int < |SeqAt(a, k).mem.bytes|
    ensures var x, s, s' := InstrAt(a, k), SeqAt(a, k), SeqAt(a, k + 1);
            var at := Add(Operand1(o.ctl, s.regs), o.offset);
            && x.ctl == o.ctl && !x.fault && s'.pc == Next(s.pc)
            && (if o.ctl.readsMem then
                  && s'.mem == s.mem
                  && s'.regs == WriteReg(s.regs, o.ctl.rd, LoadedValue(FUNCT3_B, s.mem.bytes[at] as Word))
                else
                  s'.mem == StoreByte(s.mem, at, Operand2(o.ctl, s.regs)) && s'.regs == s.regs)
  {
    hide DecodeWord, MemAccess, Address, FetchWord, ReadReg, WriteReg, LoadedValue, Assembled, Store;
    var s := SeqAt(a, k);
    ByteAccess(s.mem, o, Operand1(o.ctl, s.regs), 0, Operand2(o.ctl, s.regs));
    ReferenceStep(a, k, o);
  }
}
