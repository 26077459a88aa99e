/** One cycle keeps the correspondence between the pipeline and the reference run. */
module Preservation {
  import opened Utilities
  import opened Memory
  import opened Instructions
  import opened SequentialRun
  import opened PipelineSpec
  import opened HazardSafety
  import opened Correspondence
  import opened Stages
  import opened FrontEnd
  import opened Holding
  import opened Fetching

  /** A cycle without a memory trap, stage by stage, but for the fetch stage. */
  lemma CycleParts(m: Machine)
    requires !StageWB(m).trap
    ensures var m' := Cycle(m);
            var w, e := StageWB(m), StageMEM(m);
            && m'.regs == w.regs && m'.mem == e.mem && m'.dCache == e.dCache && m'.dStallLeft == e.dStallLeft
            && m'.idL == StageID(m, w.regs, Taken(m)).latch && m'.exL == StageEX(m) && m'.memL == e.latch
            && m'.wbL == w.latch && m'.dynRetired == w.retired
  {
    hide StageWB, StageMEM, StageEX, StageID, StageIF, TakesBranch, Resolves, ResolvedPC, OldIdIllegal;
  }

  /** The target of a taken branch. */
  function Target(m: Machine): Word {
    if Resolves(m, false) then ResolvedPC(m, StageMEM(m).latch, StageWB(m).latch) else StageWB(m).nextPC
  }

  /** The fetch stage in a cycle without exceptions. */
  lemma CycleFetch(m: Machine)
    requires !StageWB(m).trap && !OldIdIllegal(m) && !StageID(m, StageWB(m).regs, Taken(m)).illegal
    ensures var m' := Cycle(m);
            var d := StageID(m, StageWB(m).regs, Taken(m));
            var f := StageIF(m, StageMEM(m).mem, d.latch, false, false, Taken(m), Target(m));
            && m'.ifL == f.latch && m'.pc == f.pc && m'.iStallLeft == f.iStallLeft && m'.squashNextIF == f.squashNextIF
            && m'.iCache == f.iCache && m'.justFinishedIStall == f.justFinishedIStall
  {
    hide StageWB, StageMEM, StageEX, StageID, StageIF, TakesBranch, Resolves, ResolvedPC, OldIdIllegal;
  }

  /** WB and MEM of a cycle that moves: the retired and executed prefixes of the run grow. */
  lemma OlderStagesMove(a: Course, h: nat, m: Machine, p: Pos)
    requires RunsToHalt(a, h) && HazardSafe(a, h) && Matches(a, h, m, p) && !DStalled(m) && !HaltLeavesMEM(h, m, p)
    ensures var w, e := StageWB(m), StageMEM(m);
            && !w.trap && SameRegs(w.regs, SeqAt(a, AtEX(p)).regs)
            && (if p.inMEM then Done(w.latch, InstrAt(a, p.w)) else Inert(w.latch))
            && (if p.inEX then Done(e.latch, InstrAt(a, AtEX(p))) else Inert(e.latch))
            && e.mem == SeqAt(a, AtID(p)).mem
            && !w.latch.ctl.isHalt
            && w.retired == NonNops(a, AtEX(p))
            && e.dCache.hits + e.dCache.misses == MemoryOps(a, AtID(p))
            && (!p.inEX ==> e.dStallLeft == 0)
  {
    hide InstrAt, SeqAt, RunsToHalt, HazardSafe, StageWB, StageMEM, Done, ReadyForMEM, Decoded, IFMatches, IDMatches,
      SameRegs, Inert, WellShaped;
    WBStep(a, h, m, p);
    if p.inEX {
      MEMStep(a, h, m, p);
    } else {
      MEMStepIdle(m);
    }
  }

  /** An I-side summary: `f` is right for position `p`. */
  ghost predicate FetchOutcome(a: Course, h: nat, m: Machine, p: Pos) {
    FetchAt(m, ExpectedPC(a, p)) && (Live(m.ifL) ==> FetchedRight(a, h, Upcoming(p), m.ifL))
  }

  /** Fetching in a cycle that neither takes a branch nor decodes. */
  lemma FetchHolds(a: Course, h: nat, m: Machine, p: Pos, p': Pos, f: IfOut, mem: Mem, newID: Instruction, target: Word)
    requires RunsToHalt(a, h) && HazardSafe(a, h) && PosOk(h, p') && !HaltBeyondID(h, p')
    requires FetchOutcome(a, h, m, p) && Upcoming(p') == Upcoming(p) && ExpectedPC(a, p') == ExpectedPC(a, p)
    requires mem == SeqAt(a, AtEX(p')).mem
    requires f == StageIF(m, mem, newID, false, false, false, target) && !Decodes(m, false)
    ensures FetchedAt(f, ExpectedPC(a, p')) && (Live(f.latch) ==> FetchedRight(a, h, Upcoming(p'), f.latch))
  {
    hide InstrAt, SeqAt, RunsToHalt, HazardSafe, StageIF, Decodes, Next, SimIF, DecodeWord;
    var y := ExpectedPC(a, p);
    IFStep(m, mem, newID, false, target, y);
    if Live(f.latch) && SameButStatus(f.latch, SimIF(mem, y)) {
      FetchesRight(a, h, Upcoming(p'), AtEX(p'), y, f.latch);
    }
  }

  /** Fetching in a cycle that takes a branch or decodes: IF works on a new address. */
  lemma FetchMoves(a: Course, h: nat, m: Machine, p': Pos, y: Word, taken: bool, f: IfOut, mem: Mem,
    newID: Instruction, target: Word)
    requires RunsToHalt(a, h) && HazardSafe(a, h) && PosOk(h, p') && !HaltBeyondID(h, p')
    requires FetchAt(m, y) && NextFetch(m, y, taken, target) == ExpectedPC(a, p')
    requires mem == SeqAt(a, AtEX(p')).mem && (taken ==> !DStalled(m) && !HazardStall(m))
    requires f == StageIF(m, mem, newID, false, false, taken, target) && (taken || Decodes(m, taken))
    ensures FetchedAt(f, ExpectedPC(a, p')) && (Live(f.latch) ==> FetchedRight(a, h, Upcoming(p'), f.latch))
  {
    hide InstrAt, SeqAt, RunsToHalt, HazardSafe, StageIF, Decodes, Next, SimIF, DecodeWord, HazardStall;
    IFStep(m, mem, newID, taken, target, y);
    if Live(f.latch) {
      FetchesRight(a, h, Upcoming(p'), AtEX(p'), ExpectedPC(a, p'), f.latch);
    }
  }

  // ---- the three kinds of cycle ------------------------------------------------------------------------------

  lemma StalledOlder(a: Course, h: nat, m: Machine, p: Pos)
    requires Matches(a, h, m, p) && DStalled(m)
    ensures var m', p' := Cycle(m), p.(inWB := false);
            && PosOk(h, p') && StateMatches(a, m', p') && WBMatches(a, m', p') && MEMMatches(a, m', p')
            && EXMatches(a, h, m', p') && CountsMatch(a, m', p') && m'.idL == m.idL && !Halted(m')
  {
    hide InstrAt, SeqAt, SameRegs, Done, ReadyForMEM, Decoded, IFMatches, IDMatches, NonNops, MemoryOps, StageIF,
      TakesBranch, Taken, HazardStall, Cycle;
    CycleParts(m);
  }

  lemma StalledID(a: Course, h: nat, m: Machine, p: Pos, m': Machine)
    requires IDMatches(a, h, m, p) && DStalled(m) && m'.idL == m.idL
    ensures IDMatches(a, h, m', p.(inWB := false))
  {
    hide InstrAt, SeqAt, Decoded, Fresh, Inert;
    if p.inID && Live(m.idL) {
      var x := m.idL;
      if x.ctl.readsRs1 { FreshAfterDStall(a, p, DStalled(m'), x.ctl.rs1, x.op1); }
      if x.ctl.readsRs2 { FreshAfterDStall(a, p, DStalled(m'), x.ctl.rs2, x.op2); }
    }
  }

  /** Nothing illegal sits in ID up to HALT. */
  lemma NothingIllegalInID(a: Course, h: nat, m: Machine, p: Pos)
    requires RunsToHalt(a, h) && PosOk(h, p) && IDMatches(a, h, m, p) && !HaltBeyondID(h, p)
    ensures !OldIdIllegal(m)
  {
    hide InstrAt, SeqAt, RunsToHalt, Fresh;
    if p.inID { ShapeAt(a, h, AtID(p)); }
  }

  lemma HeldFetch(a: Course, h: nat, m: Machine, p: Pos, p': Pos)
    requires RunsToHalt(a, h) && HazardSafe(a, h) && Matches(a, h, m, p) && PosOk(h, p')
    requires DStalled(m) || HazardStall(m)
    requires !StageWB(m).trap && StageMEM(m).mem == SeqAt(a, AtEX(p')).mem
    requires Upcoming(p') == Upcoming(p) && p'.inID == p.inID && AtID(p') == AtID(p)
    ensures IFMatches(a, h, Cycle(m), p')
  {
    hide InstrAt, SeqAt, RunsToHalt, HazardSafe, StageIF, StageWB, StageMEM, Next, DecodeWord, HazardStall,
      TakesBranch, Target, StateMatches, WBMatches, MEMMatches, EXMatches, IDMatches, CountsMatch, Cycle,
      FetchedRight, OldIdIllegal;
    if !HaltBeyondID(h, p) {
      NothingIllegalInID(a, h, m, p);
      NoBranchWhileHeld(m);
      CycleFetch(m);
      FetchHolds(a, h, m, p, p',
        StageIF(m, StageMEM(m).mem, StageID(m, StageWB(m).regs, Taken(m)).latch, false, false, Taken(m), Target(m)),
        StageMEM(m).mem, StageID(m, StageWB(m).regs, Taken(m)).latch, Target(m));
    }
  }

  lemma NoBranchWhileHeld(m: Machine)
    requires DStalled(m) || HazardStall(m)
    ensures !Taken(m) && !Decodes(m, Taken(m))
  {
    hide HazardStall, StageMEM, StageWB;
  }

  /** A cycle in a D-stall. */
  lemma StalledCycle(a: Course, h: nat, m: Machine, p: Pos)
    requires RunsToHalt(a, h) && HazardSafe(a, h) && Matches(a, h, m, p) && DStalled(m)
    ensures Matches(a, h, Cycle(m), NextPos(h, m, p)) && !Halted(Cycle(m))
  {
    hide InstrAt, SeqAt, RunsToHalt, HazardSafe, StateMatches, WBMatches, MEMMatches, EXMatches, CountsMatch,
      Cycle, IFMatches, IDMatches;
    StalledOlder(a, h, m, p);
    StalledID(a, h, m, p, Cycle(m));
    assert StageMEM(m).mem == SeqAt(a, AtEX(p)).mem by { assert StateMatches(a, m, p); StalledMemory(a, m, p); }
    HeldFetch(a, h, m, p, p.(inWB := false));
  }

  lemma StalledMemory(a: Course, m: Machine, p: Pos)
    requires StateMatches(a, m, p) && DStalled(m)
    ensures StageMEM(m).mem == SeqAt(a, AtEX(p)).mem
  {
    hide SeqAt;
  }

  // ---- cycles that move --------------------------------------------------------------------------------------

  /** The older half of the correspondence after a cycle that moves. */
  lemma MovedOlder(a: Course, h: nat, m: Machine, p: Pos, p': Pos)
    requires RunsToHalt(a, h) && HazardSafe(a, h) && Matches(a, h, m, p) && !DStalled(m) && !HaltLeavesMEM(h, m, p)
    requires p'.w == AtEX(p) && p'.inWB == p.inMEM && p'.inMEM == p.inEX
    ensures var m' := Cycle(m);
            && StateMatches(a, m', p') && WBMatches(a, m', p') && MEMMatches(a, m', p') && CountsMatch(a, m', p')
            && !Halted(m')
    ensures !StageWB(m).trap && StageMEM(m).mem == SeqAt(a, AtEX(p')).mem
    ensures SameRegs(StageWB(m).regs, SeqAt(a, p'.w).regs)
  {
    hide InstrAt, SeqAt, RunsToHalt, HazardSafe, Matches, Cycle, StageWB, StageMEM, StageEX, StageID, Done, Inert,
      SameRegs, Taken, NonNops, MemoryOps;
    OlderStagesMove(a, h, m, p);
    CycleParts(m);
  }

  lemma HazardIsLive(m: Machine)
    requires HazardStall(m)
    ensures Live(m.idL)
  {
  }

  lemma InertIsNop(x: Instruction)
    requires Inert(x)
    ensures !Live(x) && !x.ctl.writesMem
  {
  }

  lemma DecodedControl(x: Instruction, i: Instruction)
    requires Decoded(x, i) && Live(x)
    ensures x.ctl == i.ctl
  {
  }

  /** EX after a cycle that moves: a bubble if ID is held, else the instruction from ID. */
  lemma MovedEX(a: Course, h: nat, m: Machine, p: Pos, p': Pos)
    requires RunsToHalt(a, h) && HazardSafe(a, h) && Matches(a, h, m, p) && !DStalled(m) && !HaltLeavesMEM(h, m, p)
    requires p' == NextPos(h, m, p)
    ensures EXMatches(a, h, Cycle(m), p')
  {
    hide InstrAt, SeqAt, RunsToHalt, HazardSafe, Cycle, StageWB, StageMEM, StageEX, StageID, Done, Inert, SameRegs,
      Taken, HazardStall, ReadyForMEM, Decoded, Fresh, IFMatches, Decodes;
    MovedOlder(a, h, m, p, p');
    CycleParts(m);
    if p.inID {
      ShapeAt(a, h, AtID(p));
      if HazardStall(m) { EXStepHazard(a, InstrAt(a, AtID(p)), m); } else { EXStep(a, h, m, p); }
    } else if HaltBeyondID(h, p) {
      EXStepNoStore(m);
    } else {
      InertIsNop(m.idL);
      if HazardStall(m) { HazardIsLive(m); }
      EXStepIdle(m);
    }
  }

  /** ID while a hazard holds it. */
  lemma HeldID(a: Course, h: nat, m: Machine, p: Pos)
    requires RunsToHalt(a, h) && HazardSafe(a, h) && Matches(a, h, m, p) && !DStalled(m) && HazardStall(m)
    requires !HaltLeavesMEM(h, m, p)
    ensures IDMatches(a, h, Cycle(m), NextPos(h, m, p))
  {
    hide InstrAt, SeqAt, RunsToHalt, HazardSafe, Cycle, Decoded, Fresh, HazardStall, Inert, StageWB, StageEX, StageMEM,
      WBMatches, MEMMatches, EXMatches, StateMatches, CountsMatch, IFMatches;
    MovedOlder(a, h, m, p, NextPos(h, m, p));
    CycleParts(m);
    HazardIsLive(m);
    if p.inID {
      var x := m.idL;
      DecodedControl(x, InstrAt(a, AtID(p)));
      if x.ctl.readsRs1 { FreshAfterHold(a, h, m, p, x.ctl.rs1, x.op1); }
      if x.ctl.readsRs2 { FreshAfterHold(a, h, m, p, x.ctl.rs2, x.op2); }
    } else if !HaltBeyondID(h, p) {
      InertIsNop(m.idL);
    }
  }

  /** A cycle in which a hazard holds ID. */
  lemma HazardCycle(a: Course, h: nat, m: Machine, p: Pos)
    requires RunsToHalt(a, h) && HazardSafe(a, h) && Matches(a, h, m, p) && !DStalled(m) && HazardStall(m)
    requires !HaltLeavesMEM(h, m, p)
    ensures Matches(a, h, Cycle(m), NextPos(h, m, p)) && !Halted(Cycle(m))
  {
    hide InstrAt, SeqAt, RunsToHalt, HazardSafe, Cycle, HazardStall, StateMatches, WBMatches, MEMMatches, EXMatches,
      CountsMatch, IFMatches, StageWB, StageMEM, Halted;
    var p' := NextPos(h, m, p);
    MovedOlder(a, h, m, p, p');
    MovedEX(a, h, m, p, p');
    HeldID(a, h, m, p);
    HazardIsLive(m);
    if !p.inID && !HaltBeyondID(h, p) { InertIsNop(m.idL); }
    assert PosOk(h, p');
    if p.inID || HaltBeyondID(h, p) { HeldFetch(a, h, m, p, p'); }
  }

  // ---- cycles in which ID moves on ---------------------------------------------------------------------------

  /** Where the run goes on behind ID, if nothing is taken. */
  lemma ExpectedWhenNotTaken(a: Course, h: nat, m: Machine, p: Pos)
    requires RunsToHalt(a, h) && HazardSafe(a, h) && Matches(a, h, m, p) && !DStalled(m) && !HazardStall(m)
    requires Upcoming(p) <= h
    ensures !OldIdIllegal(m) && !m.squashNextIF
    ensures !Taken(m) ==> ExpectedPC(a, p) == SeqAt(a, Upcoming(p)).pc
    ensures Taken(m) ==> p.inID && Target(m) == SeqAt(a, Upcoming(p)).pc
  {
    hide InstrAt, SeqAt, RunsToHalt, HazardSafe, HazardStall, WBMatches, MEMMatches, EXMatches, CountsMatch, SameRegs,
      FetchedRight, Next, ResolvedPC, Resolves, StageMEM, StageWB, Taken, OldIdIllegal, IDMatches;
    NothingIllegalInID(a, h, m, p);
    if p.inID {
      TakenRight(a, h, m, p);
      WBStep(a, h, m, p);
    } else {
      NothingTakenFromBubble(a, h, m, p);
    }
  }

  lemma NothingTakenFromBubble(a: Course, h: nat, m: Machine, p: Pos)
    requires IDMatches(a, h, m, p) && !p.inID && !HaltBeyondID(h, p)
    ensures !Taken(m)
  {
    hide SeqAt, InstrAt, StageMEM, StageWB, HazardStall;
  }

  /** ID receives the next instruction of the run. */
  lemma DecodedNext(a: Course, h: nat, m: Machine, p: Pos)
    requires RunsToHalt(a, h) && HazardSafe(a, h) && Matches(a, h, m, p) && !DStalled(m) && !HazardStall(m)
    requires Upcoming(p) <= h && Decodes(m, Taken(m)) && !HaltLeavesMEM(h, m, p)
    ensures IDMatches(a, h, Cycle(m), NextPos(h, m, p))
    ensures !StageID(m, StageWB(m).regs, Taken(m)).illegal
  {
    hide InstrAt, SeqAt, RunsToHalt, HazardSafe, HazardStall, StateMatches, WBMatches, MEMMatches, EXMatches,
      CountsMatch, FetchedRight, StageMEM, StageWB, Taken, OldIdIllegal, IDMatches, Cycle, ReadReg, Decoded, SimID,
      SameRegs;
    var p' := NextPos(h, m, p);
    var n := Upcoming(p);
    MovedOlder(a, h, m, p, p');
    CycleParts(m);
    ExpectedWhenNotTaken(a, h, m, p);
    IDStep(a, h, n, m.ifL, StageWB(m).regs, SeqAt(a, p'.w).regs, m.counters);
    DecodedMatches(a, h, Cycle(m), p');
  }

  lemma DecodedMatches(a: Course, h: nat, m: Machine, p: Pos)
    requires p.inID && !p.held && Decoded(m.idL, InstrAt(a, AtID(p)))
    requires m.idL.ctl.readsRs1 ==> m.idL.op1 == ReadReg(SeqAt(a, p.w).regs, m.idL.ctl.rs1)
    requires m.idL.ctl.readsRs2 ==> m.idL.op2 == ReadReg(SeqAt(a, p.w).regs, m.idL.ctl.rs2)
    ensures IDMatches(a, h, m, p)
  {
    hide InstrAt, SeqAt, ReadReg, Decoded;
  }

  /** ID receives a bubble. */
  lemma BubbleInID(a: Course, h: nat, m: Machine, p: Pos)
    requires RunsToHalt(a, h) && HazardSafe(a, h) && Matches(a, h, m, p) && !DStalled(m) && !HazardStall(m)
    requires Upcoming(p) <= h && !Decodes(m, Taken(m)) && !HaltLeavesMEM(h, m, p)
    ensures IDMatches(a, h, Cycle(m), NextPos(h, m, p))
    ensures !StageID(m, StageWB(m).regs, Taken(m)).illegal
  {
    hide InstrAt, SeqAt, RunsToHalt, HazardSafe, HazardStall, StateMatches, WBMatches, MEMMatches, EXMatches,
      CountsMatch, FetchedRight, StageMEM, StageWB, Taken, OldIdIllegal, IFMatches, Cycle, ReadReg, Decoded, SimID,
      SameRegs, Fresh;
    MovedOlder(a, h, m, p, NextPos(h, m, p));
    CycleParts(m);
  }

  /** IF after such a cycle. */
  lemma AdvancedFetch(a: Course, h: nat, m: Machine, p: Pos)
    requires RunsToHalt(a, h) && HazardSafe(a, h) && Matches(a, h, m, p) && !DStalled(m) && !HazardStall(m)
    requires Upcoming(p) <= h && !HaltLeavesMEM(h, m, p)
    ensures IFMatches(a, h, Cycle(m), NextPos(h, m, p))
  {
    hide InstrAt, SeqAt, RunsToHalt, HazardSafe, HazardStall, StateMatches, WBMatches, MEMMatches, EXMatches,
      CountsMatch, FetchedRight, StageMEM, StageWB, Taken, OldIdIllegal, IDMatches, Cycle, StageIF, Target, Next,
      StageID, Decodes;
    var p' := NextPos(h, m, p);
    MovedOlder(a, h, m, p, p');
    ExpectedWhenNotTaken(a, h, m, p);
    if Decodes(m, Taken(m)) { DecodedNext(a, h, m, p); } else { BubbleInID(a, h, m, p); }
    CycleFetch(m);
    var mem := StageMEM(m).mem;
    var newID := StageID(m, StageWB(m).regs, Taken(m)).latch;
    var f := StageIF(m, mem, newID, false, false, Taken(m), Target(m));
    TakenDoesNotDecode(m);
    if Taken(m) || Decodes(m, Taken(m)) {
      FetchMoves(a, h, m, p', ExpectedPC(a, p), Taken(m), f, mem, newID, Target(m));
    } else {
      FetchHolds(a, h, m, p, p', f, mem, newID, Target(m));
    }
  }

  lemma TakenDoesNotDecode(m: Machine)
    ensures Taken(m) ==> !Decodes(m, Taken(m))
  {
    hide Taken, HazardStall;
  }

  /** ID and IF around HALT leaving ID: what follows HALT is no store. */
  lemma HaltMovesOn(a: Course, h: nat, m: Machine, p: Pos)
    requires RunsToHalt(a, h) && HazardSafe(a, h) && Matches(a, h, m, p) && !DStalled(m) && !HazardStall(m)
    requires Upcoming(p) == h + 1 && !HaltLeavesMEM(h, m, p)
    ensures IDMatches(a, h, Cycle(m), NextPos(h, m, p)) && HaltBeyondID(h, NextPos(h, m, p))
  {
    hide InstrAt, SeqAt, RunsToHalt, HazardSafe, HazardStall, StateMatches, WBMatches, MEMMatches, EXMatches,
      CountsMatch, StageMEM, StageWB, Taken, IDMatches, Cycle, NextPC, ReadReg, DecodeWord;
    var p' := NextPos(h, m, p);
    MovedOlder(a, h, m, p, p');
    CycleParts(m);
    if p.inID && Live(m.ifL) { DecodeFields(m.ifL, StageWB(m).regs, m.counters); }
    BehindHalt(a, h, Cycle(m), p');
  }

  lemma BehindHalt(a: Course, h: nat, m: Machine, p: Pos)
    requires HaltBeyondID(h, p) && (p.inEX ==> !m.idL.ctl.writesMem)
    ensures IDMatches(a, h, m, p)
  {
    hide InstrAt, SeqAt;
  }

  lemma AdvanceCycle(a: Course, h: nat, m: Machine, p: Pos)
    requires RunsToHalt(a, h) && HazardSafe(a, h) && Matches(a, h, m, p) && !DStalled(m) && !HazardStall(m)
    requires !HaltLeavesMEM(h, m, p)
    ensures Matches(a, h, Cycle(m), NextPos(h, m, p)) && !Halted(Cycle(m))
  {
    hide InstrAt, SeqAt, RunsToHalt, HazardSafe, HazardStall, StateMatches, WBMatches, MEMMatches, EXMatches,
      CountsMatch, IDMatches, StageMEM, StageWB, Taken, Cycle, Halted, Decodes;
    var p' := NextPos(h, m, p);
    MovedOlder(a, h, m, p, p');
    MovedEX(a, h, m, p, p');
    if Upcoming(p) <= h {
      AdvancedFetch(a, h, m, p);
      if Decodes(m, Taken(m)) { DecodedNext(a, h, m, p); } else { BubbleInID(a, h, m, p); }
    } else {
      HaltMovesOn(a, h, m, p);
    }
  }

  // ---- every cycle -------------------------------------------------------------------------------------------

  /** Every cycle before HALT reaches WB keeps the correspondence. */
  lemma CycleMatches(a: Course, h: nat, m: Machine, p: Pos)
    requires RunsToHalt(a, h) && HazardSafe(a, h) && Matches(a, h, m, p) && !HaltLeavesMEM(h, m, p)
    ensures Matches(a, h, Cycle(m), NextPos(h, m, p)) && !Halted(Cycle(m))
    ensures PosOk(h, NextPos(h, m, p))
  {
    hide InstrAt, SeqAt, RunsToHalt, HazardSafe, HazardStall, Cycle, Halted, NextPos, StateMatches, WBMatches,
      MEMMatches, EXMatches, IDMatches, IFMatches, CountsMatch;
    if DStalled(m) { StalledCycle(a, h, m, p); }
    else if HazardStall(m) { HazardCycle(a, h, m, p); }
    else { AdvanceCycle(a, h, m, p); }
  }

  /** The cycle in which HALT reaches WB leaves registers and memory as the reference run does. */
  lemma HaltCycle(a: Course, h: nat, m: Machine, p: Pos)
    requires RunsToHalt(a, h) && HazardSafe(a, h) && Matches(a, h, m, p) && HaltLeavesMEM(h, m, p)
    ensures var m' := Cycle(m);
            && Halted(m') && SameRegs(m'.regs, SeqAt(a, h).regs) && m'.mem == SeqAt(a, h).mem
            && m'.dynRetired == NonNops(a, h + 1)
  {
    hide InstrAt, SeqAt, RunsToHalt, HazardSafe, HazardStall, Cycle, StageWB, StageMEM, StageEX, StageID, Taken,
      SameRegs, Done, ReadyForMEM, Decoded, IFMatches, FreshOperands, NonNops, MemoryOps, FetchWord, DecodeWord,
      ArithOf, AccessOf, NextPC;
    WBStep(a, h, m, p);
    CycleParts(m);
    MEMStepNoStore(m);
    Explain(a, h, h);
    ShapeAt(a, h, h);
  }
}
