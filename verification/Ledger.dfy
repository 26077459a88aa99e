/** Invariants of every run of the pipeline, whatever the program does: conservation and order of instructions,
    the hazard bound, and the accounting of the data side. */
module Ledgers {
  import opened Utilities
  import opened Memory
  import opened Instructions
  import opened LruCache
  import opened SequentialRun
  import opened PipelineSpec
  import opened HazardSafety
  import opened Correspondence
  import opened Progress

  // ---- what a latch can hold ---------------------------------------------------------------------------------

  /** The shape of the latches in every reachable state. */
  predicate Shaped(m: Machine) {
    && (m.ifL.fault ==> m.ifL.word == 0)
    && WellShaped(m.idL.ctl) && Calm(m.idL) && TrapsToHandler(m.idL) && (m.idL.fault ==> !m.idL.ctl.isLegal)
    && m.exL.ctl.isLegal && !m.exL.fault && (Live(m.exL) ==> m.exL.status == NORMAL)
    && m.memL.ctl.isLegal && Calm(m.memL)
  }

  /** A NOP does not fault. */
  predicate Calm(x: Instruction) { !Live(x) ==> x.ctl.isLegal && !x.fault }

  /** An illegal word carries the handler as its next PC. */
  predicate TrapsToHandler(x: Instruction) { !x.ctl.isLegal ==> x.nextPC == EXCEPTION_HANDLER }

  /** The new latches before a memory trap squashes them. */
  function NewID(m: Machine): Instruction { StageID(m, StageWB(m).regs, Taken(m)).latch }

  function NewMEM(m: Machine): Instruction { StageMEM(m).latch }

  /** A word is decoded into an instruction that is not a NOP. */
  predicate DecodesLive(m: Machine) { Decodes(m, Taken(m)) && Live(NewID(m)) }

  lemma NopShape(status: StageStatus)
    ensures var x := Nop(status); WellShaped(x.ctl) && !Live(x) && !x.counted && x.ctl.isLegal && !x.fault
  {
  }

  lemma IDShape(x: Instruction, regs: Regs, n: Counters)
    ensures var (y, n') := SimID(x, regs, n);
            && y.ctl == DecodeWord(x.word) && y.word == x.word && y.fault == x.fault && TrapsToHandler(y)
            && (if Live(y) && n.countDin then y.counted && y.id == n.din && n'.din == n.din + 1
                else y.counted == x.counted && n'.din == n.din)
  {
    hide DecodeWord, NextPC, ReadReg;
  }

  /** ID in a cycle. */
  lemma NewIDCases(m: Machine)
    requires Shaped(m)
    ensures WellShaped(NewID(m).ctl) && Calm(NewID(m)) && TrapsToHandler(NewID(m))
    ensures NewID(m).fault ==> !NewID(m).ctl.isLegal
    ensures DStalled(m) || HazardStall(m) ==> NewID(m) == m.idL && !Decodes(m, Taken(m))
    ensures !DStalled(m) && !HazardStall(m) && !Decodes(m, Taken(m)) ==> !Live(NewID(m))
    ensures Decodes(m, Taken(m)) ==>
              !DStalled(m) && !HazardStall(m) && NewID(m) == SimID(m.ifL, StageWB(m).regs, m.counters).0
  {
    hide HazardStall, StageWB, StageMEM, SimID, Nop, Taken, DecodeWord;
    NopShape(SQUASHED); NopShape(BUBBLE); NopShape(IDLE);
    IDShape(m.ifL, StageWB(m).regs, m.counters);
    DecodeShape(m.ifL.word);
    IllegalZero();
    ZeroIsLive();
  }

  lemma DecodesLiveWord(m: Machine)
    ensures Decodes(m, Taken(m)) ==> Live(m.ifL)
  {
    hide Taken, HazardStall;
  }

  lemma ZeroIsLive()
    ensures !DecodeWord(0).isNop
  {
  }

  /** EX in a cycle: the instruction from ID unless it is illegal or held. */
  lemma NewEXCases(m: Machine)
    requires Shaped(m)
    ensures var x := StageEX(m);
            if DStalled(m) then x == m.exL
            else
              && x.ctl.isLegal && !x.fault && (Live(x) ==> x.status == NORMAL)
              && (Live(x) <==> Live(m.idL) && m.idL.ctl.isLegal && !HazardStall(m))
              && (Live(x) ==> x.id == m.idL.id && x.counted == m.idL.counted)
              && (HazardStall(m) ==> x == Nop(BUBBLE))
  {
    hide Forwarded, Alu, ShiftMasked, Nop, HazardStall, Completed;
    NopShape(SQUASHED); NopShape(BUBBLE);
    if HazardStall(m) { HeldIsLegalInstruction(m); }
  }

  lemma HeldIsLegalInstruction(m: Machine)
    requires HazardStall(m) && WellShaped(m.idL.ctl)
    ensures Live(m.idL) && m.idL.ctl.isLegal
  {
  }

  /** MEM in a cycle: the instruction from EX. */
  lemma NewMEMCases(m: Machine)
    requires Shaped(m)
    ensures var x := NewMEM(m);
            if DStalled(m) then x == m.memL
            else
              && x.ctl.isLegal && Calm(x) && (Live(x) <==> Live(m.exL))
              && (Live(x) ==> x.ctl == m.exL.ctl && x.id == m.exL.id && x.counted == m.exL.counted)
  {
    hide MemAccess, Address, Access, Resident, Nop, WithStoreData;
    NopShape(m.exL.status);
    StoreDataKeeps(m.exL, m.wbL);
  }

  lemma StoreDataKeeps(x: Instruction, wb: Instruction)
    ensures var y := WithStoreData(x, wb); y.ctl == x.ctl && y.id == x.id && y.counted == x.counted
  {
  }

  /** WB in a cycle: whether an instruction retires or faults. */
  lemma NewWBCases(m: Machine)
    requires Shaped(m)
    ensures var o := StageWB(m);
            && (o.trap <==> !DStalled(m) && m.memL.fault)
            && o.retired == m.dynRetired + Bit(!DStalled(m) && Live(m.memL) && !m.memL.fault)
  {
    hide SimCommit, WriteReg;
    NopShape(BUBBLE); NopShape(SQUASHED);
  }

  lemma NewIFCases(m: Machine)
    requires Shaped(m)
    ensures Cycle(m).ifL.fault ==> Cycle(m).ifL.word == 0
  {
    hide StageWB, StageMEM, StageEX, StageID, TakesBranch, RedirectPC, OldIdIllegal, Access, Resident, HazardStall,
      BranchDataStall, FetchWord, Next;
  }

  /** A cycle, latch by latch. */
  lemma CycleLatches(m: Machine)
    ensures var m', trap := Cycle(m), StageWB(m).trap;
            && m'.idL == (if trap then Nop(SQUASHED) else NewID(m))
            && m'.exL == (if trap then Nop(SQUASHED) else StageEX(m))
            && m'.memL == (if trap then Nop(SQUASHED) else NewMEM(m))
            && m'.wbL == StageWB(m).latch && m'.dynRetired == StageWB(m).retired
            && m'.counters == StageID(m, StageWB(m).regs, Taken(m)).counters
            && m'.dStallLeft == StageMEM(m).dStallLeft && m'.dCache == StageMEM(m).dCache
            && m'.loadUseStallCount == m.loadUseStallCount + Bit(LoadUseEvent(m))
  {
    hide StageWB, StageMEM, StageEX, StageID, StageIF, TakesBranch, RedirectPC, OldIdIllegal, Nop, LoadUseEvent;
  }

  /** The shape of the latches is kept by every cycle. */
  lemma ShapeKept(m: Machine)
    requires Shaped(m)
    ensures Shaped(Cycle(m))
  {
    hide Cycle, StageWB, StageMEM, StageEX, NewID, NewMEM, Nop, HazardStall;
    CycleLatches(m);
    NopShape(SQUASHED);
    NewIDCases(m); NewEXCases(m); NewMEMCases(m); NewIFCases(m);
  }

  // ---- the ledger of a run -----------------------------------------------------------------------------------

  /** What has happened so far: instructions decoded (not NOPs), dropped as illegal, faulted in MEM and squashed
      by a fault; the greatest number retired so far plus one; data accesses that entered MEM without a fault;
      cycles frozen by a D-stall; hazard holds of the instruction in ID in cycles that are not frozen, the load-use
      events it has raised, whether the first hold was due to raise one; the events of all earlier instructions. */
  datatype Ledger = Ledger(decoded: nat, illegal: nat, faulted: nat, squashed: nat, retiredBelow: nat,
                           accesses: nat, frozen: nat, holds: nat, events: nat, due: bool, raised: nat)

  const NOTHING: Ledger := Ledger(0, 0, 0, 0, 0, 0, 0, 0, 0, false, 0)

  predicate Faults(m: Machine) { !DStalled(m) && Live(m.memL) && m.memL.fault }

  predicate Retires(m: Machine) { !DStalled(m) && Live(m.memL) && !m.memL.fault }

  predicate DropsIllegal(m: Machine) { !DStalled(m) && Live(m.idL) && !m.idL.ctl.isLegal }

  /** A load or store moves from EX into MEM and does not fault. */
  predicate EntersMEM(m: Machine) {
    !DStalled(m) && Live(m.exL) && TouchesMemory(m.exL.ctl) && !NewMEM(m).fault
  }

  /** Instructions that sit in ID, EX or MEM. */
  function InPipeline(x: Instruction, y: Instruction, z: Instruction): nat {
    Bit(Live(x)) + Bit(Live(y)) + Bit(Live(z))
  }

  /** The instruction `x` will write register `r`. */
  predicate WritesReg(x: Instruction, r: RegId) {
    Live(x) && x.ctl.writesRd && x.ctl.rd == r && r != 0
  }

  /** `x` will write a register that the instruction in ID reads. */
  predicate Supplies(m: Machine, x: Instruction) {
    exists r: RegId :: DependsOn(m.idL.ctl, r) && WritesReg(x, r)
  }

  /** Whether a first hold must count as a load-use event: always, unless it holds a branch or JALR.  Then only if the
      youngest supplier is a load, in EX; or in MEM with EX not a bubble. */
  predicate EventDue(m: Machine) {
    || !BranchLike(m.idL)
    || (Supplies(m, m.exL) && IsLoad(m.exL.ctl))
    || (!Supplies(m, m.exL) && Supplies(m, m.memL) && IsLoad(m.memL.ctl) && !(!Live(m.exL) && m.exL.status == BUBBLE))
  }

  function Entry(m: Machine, l: Ledger): Ledger {
    Ledger(
      l.decoded + Bit(DecodesLive(m)),
      l.illegal + Bit(DropsIllegal(m)),
      l.faulted + Bit(Faults(m)),
      l.squashed + (if StageWB(m).trap then InPipeline(NewID(m), StageEX(m), NewMEM(m)) else 0),
      if Retires(m) && m.memL.counted then m.memL.id + 1 else l.retiredBelow,
      l.accesses + Bit(EntersMEM(m)),
      l.frozen + Bit(DStalled(m)),
      if DStalled(m) then l.holds else if HazardStall(m) then l.holds + 1 else 0,
      if DStalled(m) then l.events else if HazardStall(m) then l.events + Bit(LoadUseEvent(m)) else 0,
      if DStalled(m) then l.due else HazardStall(m) && if l.holds == 0 then EventDue(m) else l.due,
      if DStalled(m) || HazardStall(m) then l.raised else l.raised + l.events)
  }

  /** The ledger after `n` cycles. */
  function LedgerAt(m: Machine, n: nat): Ledger {
    if n == 0 then NOTHING else Entry(Run(m, n - 1), LedgerAt(m, n - 1))
  }

  /** Nothing is lost or duplicated: every decoded instruction has retired, was dropped as illegal, has faulted,
      was squashed by a fault, or is in ID, EX or MEM. */
  predicate Conserved(m: Machine, l: Ledger) {
    l.decoded == m.dynRetired + l.illegal + l.faulted + l.squashed + InPipeline(m.idL, m.exL, m.memL)
  }

  lemma ConservedKept(m: Machine, l: Ledger)
    requires Shaped(m) && Conserved(m, l)
    ensures Conserved(Cycle(m), Entry(m, l))
  {
    hide Cycle, StageWB, StageEX, NewID, NewMEM, Nop, HazardStall, Decodes, Taken, WellShaped, EntersMEM;
    CycleLatches(m);
    NopShape(SQUASHED);
    NewIDCases(m); NewEXCases(m); NewMEMCases(m); NewWBCases(m);
    if HazardStall(m) { HeldIsLegalInstruction(m); }
  }

  // ---- order -------------------------------------------------------------------------------------------------

  predicate Numbered(x: Instruction) { Live(x) && x.counted }

  predicate Older(x: Instruction, y: Instruction) {
    Numbered(x) && Numbered(y) ==> x.id < y.id
  }

  predicate Between(low: nat, x: Instruction, high: nat) { Numbered(x) ==> low <= x.id < high }

  /** Dynamic instruction numbers fall strictly from ID to MEM, and everything in flight is younger than
      everything retired: program order is kept, and no instruction is in two latches. */
  predicate InOrder(m: Machine, l: Ledger) {
    && Older(m.memL, m.exL) && Older(m.memL, m.idL) && Older(m.exL, m.idL)
    && Between(l.retiredBelow, m.idL, m.counters.din)
    && Between(l.retiredBelow, m.exL, m.counters.din)
    && Between(l.retiredBelow, m.memL, m.counters.din)
    && l.retiredBelow <= m.counters.din
    && (Live(m.ifL) ==> !m.ifL.counted)
  }

  /** A numbered instruction newly decoded is younger than everything before it. */
  lemma NewIDNumber(m: Machine)
    requires Shaped(m) && (Live(m.ifL) ==> !m.ifL.counted)
    ensures var x, n := NewID(m), StageID(m, StageWB(m).regs, Taken(m)).counters;
            && n.din >= m.counters.din
            && (DStalled(m) || HazardStall(m) ==> x == m.idL)
            && (!DStalled(m) && !HazardStall(m) && Numbered(x) ==> m.counters.din <= x.id < n.din)
  {
    hide StageWB, StageEX, StageMEM, HazardStall, Taken, WellShaped, SimID, StageID, Shaped, NewID, DecodeWord;
    NewIDCases(m);
    CountersMove(m);
    IDShape(m.ifL, StageWB(m).regs, m.counters);
  }

  lemma OrderKept(m: Machine, l: Ledger)
    requires Shaped(m) && InOrder(m, l)
    ensures InOrder(Cycle(m), Entry(m, l))
  {
    hide Cycle, StageWB, StageEX, StageMEM, NewMEM, NewID, Nop, HazardStall, Decodes, Taken, Shaped, EntersMEM, SimID,
      DropsIllegal, InPipeline, StageID, DecodesLive, Faults;
    CycleLatches(m);
    NopShape(SQUASHED); NopShape(BUBBLE);
    NewIDNumber(m);
    NewEXCases(m); NewMEMCases(m);
    NewIFUncounted(m);
  }

  lemma CountersMove(m: Machine)
    ensures var n := StageID(m, StageWB(m).regs, Taken(m)).counters;
            if Decodes(m, Taken(m)) then n == SimID(m.ifL, StageWB(m).regs, m.counters).1 else n == m.counters
  {
    hide StageWB, Taken, HazardStall, SimID;
  }

  lemma NewIFUncounted(m: Machine)
    requires Live(m.ifL) ==> !m.ifL.counted
    ensures Live(Cycle(m).ifL) ==> !Cycle(m).ifL.counted
  {
    hide StageWB, StageMEM, StageEX, StageID, TakesBranch, RedirectPC, OldIdIllegal, Access, Resident, HazardStall,
      BranchDataStall, FetchWord, Next;
  }

  // ---- hazards -----------------------------------------------------------------------------------------------

  /** The instruction in ID may still raise a load-use event. */
  predicate MayRaise(m: Machine) {
    Live(m.idL) && !(m.exL.ctl.isNop && m.exL.status == BUBBLE)
  }

  /** A residency in ID is held in at most two cycles that are not frozen, and raises at most one load-use event
      (none any more once EX holds the bubble of the first hold): there are never more events than instructions
      decoded. */
  predicate HazardsBounded(m: Machine, l: Ledger) {
    && m.loadUseStallCount + Bit(MayRaise(m)) <= l.decoded
    && l.events + Bit(MayRaise(m)) <= 1
    && l.holds <= 2
    && (l.holds >= 1 ==> !Live(m.exL))
    && (l.holds == 2 ==> !Live(m.memL))
  }

  lemma HazardsKept(m: Machine, l: Ledger)
    requires Shaped(m) && HazardsBounded(m, l)
    ensures HazardsBounded(Cycle(m), Entry(m, l))
  {
    hide Cycle, StageWB, StageEX, StageMEM, NewMEM, NewID, Nop, HazardStall, Decodes, Taken, WellShaped, EntersMEM,
      LoadUseEvent, DropsIllegal, InPipeline;
    CycleLatches(m);
    NopShape(SQUASHED);
    BubbleStatus();
    NewIDCases(m); NewEXCases(m); NewMEMCases(m); NewWBCases(m);
    EventCases(m);
    HoldCases(m);
  }

  /** Every residency raises exactly the event that is due in its first hold, and `loadUseStallCount` counts all. */
  predicate HazardsCounted(m: Machine, l: Ledger) {
    && m.loadUseStallCount == l.raised + l.events
    && (l.holds == 0 ==> l.events == 0)
    && (l.holds >= 1 && Live(m.idL) ==>
          && l.events == Bit(l.due) && (!BranchLike(m.idL) ==> l.events == 1)
          && m.exL.ctl.isNop && m.exL.status == BUBBLE)
  }

  lemma CountedKept(m: Machine, l: Ledger)
    requires Shaped(m) && HazardsCounted(m, l)
    ensures HazardsCounted(Cycle(m), Entry(m, l))
  {
    hide Cycle, StageWB, StageEX, StageMEM, NewMEM, NewID, Nop, HazardStall, Decodes, Taken, WellShaped, EntersMEM,
      LoadUseEvent, DropsIllegal, InPipeline, EventDue, BranchLike;
    CycleLatches(m);
    NopShape(SQUASHED);
    BubbleStatus();
    NewIDCases(m);
    HeldEX(m);
    FirstHold(m);
  }

  /** What a hazard leaves in EX. */
  lemma HeldEX(m: Machine)
    requires Shaped(m)
    ensures HazardStall(m) ==> StageEX(m) == Nop(BUBBLE) && !DStalled(m) && Live(m.idL)
    ensures DStalled(m) ==> StageEX(m) == m.exL && !StageWB(m).trap
    ensures Nop(BUBBLE).ctl.isNop
    ensures LoadUseEvent(m) ==> HazardStall(m)
  {
    hide Forwarded, Completed, ALUSource, Alu, ShiftMasked;
    HoldCases(m);
    if HazardStall(m) { HeldIsLegalInstruction(m); }
  }

  /** A first hold raises an event iff it is due; behind a bubble no hold does. */
  lemma FirstHold(m: Machine)
    ensures HazardStall(m) && !(m.exL.ctl.isNop && m.exL.status == BUBBLE) ==> (LoadUseEvent(m) <==> EventDue(m))
    ensures HazardStall(m) && m.exL.ctl.isNop && m.exL.status == BUBBLE ==>
              !LoadUseEvent(m) && BranchLike(m.idL) && !EventDue(m)
    ensures !BranchLike(m.idL) ==> EventDue(m)
  {
  }

  lemma BubbleStatus()
    ensures Nop(BUBBLE).status == BUBBLE
  {
  }

  lemma EventCases(m: Machine)
    ensures LoadUseEvent(m) ==> HazardStall(m) && !DStalled(m) && MayRaise(m)
  {
  }

  lemma HoldCases(m: Machine)
    ensures HazardStall(m) ==> !DStalled(m) && Live(m.idL) && (Live(m.exL) || Live(m.memL))
  {
  }

  // ---- the data side -----------------------------------------------------------------------------------------

  /** Each data access is counted once, however long it stalls, and the frozen cycles so far plus those still to
      come are the misses times the miss latency. */
  predicate DataSideExact(m: Machine, l: Ledger) {
    && m.dCache.hits + m.dCache.misses == l.accesses
    && l.frozen + m.dStallLeft == m.dCache.misses * m.dCache.config.missLatency
  }

  lemma DataSideKept(m: Machine, l: Ledger)
    requires Shaped(m) && DataSideExact(m, l)
    ensures DataSideExact(Cycle(m), Entry(m, l))
  {
    hide Cycle, StageWB, StageEX, StageMEM, NewMEM, NewID, Nop, HazardStall, Decodes, Taken, WellShaped, DropsIllegal,
      InPipeline, EntersMEM;
    CycleLatches(m);
    DataTiming(m);
    AccessOnEntry(m);
    Product(m.dCache.config.missLatency, m.dCache.misses, Cycle(m).dCache.misses - m.dCache.misses);
  }

  lemma Product(latency: nat, x: nat, y: nat)
    ensures x * latency + latency * y == (x + y) * latency
  {
  }

  lemma AccessOnEntry(m: Machine)
    requires Shaped(m)
    ensures var c := StageMEM(m).dCache;
            c.hits + c.misses == m.dCache.hits + m.dCache.misses + Bit(EntersMEM(m))
  {
    hide MemAccess, Address, Resident, Access, WithStoreData, Nop;
    StoreDataKeeps(m.exL, m.wbL);
    NopShape(m.exL.status);
  }

  // ---- every run ---------------------------------------------------------------------------------------------

  predicate Invariant(m: Machine, l: Ledger) {
    && Shaped(m) && Conserved(m, l) && InOrder(m, l) && HazardsBounded(m, l) && HazardsCounted(m, l)
    && DataSideExact(m, l)
  }

  lemma InvariantAtStart(mem: Mem, regs: Regs, i: Geometry, d: Geometry)
    ensures Invariant(Init(mem, regs, i, d), NOTHING)
  {
    hide Empty, Nop, WellShaped;
    NopShape(IDLE);
  }

  /** The invariant holds in every state of every run, faults and hazards included. */
  lemma {:induction false} EveryRun(mem: Mem, regs: Regs, i: Geometry, d: Geometry, n: nat)
    ensures var m := Init(mem, regs, i, d); Invariant(Run(m, n), LedgerAt(m, n))
  {
    hide Init, Cycle, Entry, Shaped, Conserved, InOrder, HazardsBounded, HazardsCounted, DataSideExact;
    var m := Init(mem, regs, i, d);
    if n == 0 {
      InvariantAtStart(mem, regs, i, d);
      assert Run(m, 0) == m;
    } else {
      EveryRun(mem, regs, i, d, n - 1);
      RunStep(m, n - 1);
      var before, l := Run(m, n - 1), LedgerAt(m, n - 1);
      ShapeKept(before); ConservedKept(before, l); OrderKept(before, l); HazardsKept(before, l);
      CountedKept(before, l); DataSideKept(before, l);
    }
  }
}
