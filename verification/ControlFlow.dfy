/** Program order of decoding in every run, with or without hazards, and what traps do to it. */
module ControlFlow {
  import opened Utilities
  import opened Memory
  import opened Instructions
  import opened LruCache
  import opened SequentialRun
  import opened PipelineSpec
  import opened Correspondence
  import opened Fetching
  import opened Preservation
  import opened Ledgers

  /** No trap and no illegal word in this cycle. */
  predicate Undisturbed(m: Machine) {
    !StageWB(m).trap && !OldIdIllegal(m) && !StageID(m, StageWB(m).regs, Taken(m)).illegal
  }

  /** The PC to be decoded next, if `y` was it unless a control-flow instruction in ID decides otherwise: a branch
      or jump that is resolved in this cycle replaces it. */
  function Resolved(m: Machine, y: Word): Word {
    if Resolves(m, false) then Target(m) else y
  }

  /** The architectural PC of decoding after `n` cycles: it follows resolved control flow and steps over each
      decoded word.  Nothing else of the fetch machinery enters. */
  function DecodePC(m: Machine, n: nat): Word {
    if n == 0 then 0
    else
      var before := Run(m, n - 1);
      var y := Resolved(before, DecodePC(m, n - 1));
      if Decodes(before, Taken(before)) then Next(y) else y
  }

  /** IF works on `y`, and an unresolved control-flow instruction in ID has `y` as its fall-through. */
  predicate OnTrack(m: Machine, y: Word) {
    FetchAt(m, y) && (Live(m.idL) ==> y == Next(m.idL.pc))
  }

  /** A branch that is resolved as not taken leaves IF where it is. */
  lemma NotTakenFallsThrough(m: Machine, y: Word)
    requires OnTrack(m, y) && Undisturbed(m)
    ensures Resolved(m, y) == if Taken(m) then Target(m) else y
  {
    hide StageWB, StageMEM, ResolvedPC, Next, HazardStall, StageID, OldIdIllegal;
  }

  /** One cycle: what is decoded is what control flow asks for, and IF stays on track. */
  lemma TrackKept(m: Machine, y: Word)
    requires Shaped(m) && OnTrack(m, y) && Undisturbed(m)
    ensures Decodes(m, Taken(m)) ==> m.ifL.pc == Resolved(m, y)
    ensures var z := Resolved(m, y); OnTrack(Cycle(m), if Decodes(m, Taken(m)) then Next(z) else z)
  {
    hide StageWB, StageMEM, StageID, StageIF, HazardStall, Cycle, Next, Taken, Target, Resolves, SimIF, OldIdIllegal;
    var newID := StageID(m, StageWB(m).regs, Taken(m)).latch;
    CycleFetch(m);
    CycleParts(m);
    NotTakenFallsThrough(m, y);
    TakenDoesNotDecode(m);
    if DStalled(m) || HazardStall(m) { NoBranchWhileHeld(m); ResolvesNothing(m); }
    IFStep(m, StageMEM(m).mem, newID, Taken(m), Target(m), y);
    DecodedPC(m);
  }

  lemma ResolvesNothing(m: Machine)
    requires DStalled(m) || HazardStall(m)
    ensures !Resolves(m, false)
  {
    hide HazardStall;
  }

  /** The PC of the instruction that ID holds after a cycle. */
  lemma DecodedPC(m: Machine)
    requires Shaped(m)
    ensures var x := StageID(m, StageWB(m).regs, Taken(m)).latch;
            && (Decodes(m, Taken(m)) ==> x.pc == m.ifL.pc)
            && (DStalled(m) || HazardStall(m) ==> x == m.idL)
            && (!DStalled(m) && !HazardStall(m) && !Decodes(m, Taken(m)) ==> !Live(x))
  {
    hide StageWB, StageMEM, HazardStall, Taken, SimID, StageID, NewID, Decodes;
    NewIDCases(m);
    DecodeKeepsPC(m.ifL, StageWB(m).regs, m.counters);
    NewIDIs(m);
  }

  lemma NewIDIs(m: Machine)
    ensures NewID(m) == StageID(m, StageWB(m).regs, Taken(m)).latch
  {
    hide StageID, StageWB, Taken;
  }

  lemma DecodeKeepsPC(x: Instruction, regs: Regs, n: Counters)
    ensures SimID(x, regs, n).0.pc == x.pc
  {
    hide DecodeWord, NextPC, ReadReg;
  }

  /** The decoded-PC chain: up to the first trap or illegal word, at any cache latency and with any hazards, the
      PCs that are decoded start at 0 and each next one is where the previous instruction was resolved to go:
      nothing is skipped, decoded twice or decoded from a wrong path. */
  lemma {:induction false} DecodedChain(mem: Mem, regs: Regs, i: Geometry, d: Geometry, n: nat)
    requires var m := Init(mem, regs, i, d); forall j: nat :: j < n ==> Undisturbed(Run(m, j))
    ensures var m := Init(mem, regs, i, d);
            && OnTrack(Run(m, n), DecodePC(m, n))
            && (forall j: nat :: j < n && Decodes(Run(m, j), Taken(Run(m, j))) ==>
                  Run(m, j).ifL.pc == Resolved(Run(m, j), DecodePC(m, j)))
  {
    hide Init, Cycle, Undisturbed, OnTrack, Decodes, Taken, Resolved, Shaped, LedgerAt, Conserved, InOrder,
      HazardsBounded, HazardsCounted, DataSideExact, Next;
    var m := Init(mem, regs, i, d);
    if n == 0 {
      RunZero(m);
      StartsOnTrack(mem, regs, i, d);
    } else {
      DecodedChain(mem, regs, i, d, n - 1);
      EveryRun(mem, regs, i, d, n - 1);
      RunStep(m, n - 1);
      TrackKept(Run(m, n - 1), DecodePC(m, n - 1));
    }
  }

  lemma StartsOnTrack(mem: Mem, regs: Regs, i: Geometry, d: Geometry)
    ensures OnTrack(Init(mem, regs, i, d), 0)
  {
    hide Empty;
  }

  // ---- what a cycle writes -----------------------------------------------------------------------------------

  /** In every cycle of every run the instruction that leaves MEM writes its register unless it has faulted, and a
      store that leaves EX writes memory, even in the cycle in which the instruction ahead of it traps; nothing else
      is written. */
  lemma CycleWrites(m: Machine)
    requires Shaped(m)
    ensures var x := m.memL;
            Cycle(m).regs == if Retires(m) && x.ctl.writesRd && x.ctl.rd != 0 && !x.ctl.isHalt
                             then WriteReg(m.regs, x.ctl.rd, Result(x)) else m.regs
    ensures var y := WithStoreData(m.exL, m.wbL);
            Cycle(m).mem == if !DStalled(m) && Live(m.exL) && !y.ctl.readsMem && y.ctl.writesMem
                            then Store(m.mem, SimAddrGen(y).addr, y.op2, AccessSize(y.ctl.funct3)) else m.mem
  {
    hide StageEX, StageID, StageIF, TakesBranch, RedirectPC, OldIdIllegal, Access, Resident, LoadUseEvent, Store, Load,
      Displaced, ImmediateI, ImmediateS, WriteReg, AccessSize, NextPC, Forwarded;
  }

  // ---- memory traps ------------------------------------------------------------------------------------------

  /** The pipeline has been redirected to `target`: nothing younger is in ID. */
  predicate Redirected(m: Machine, target: Word) {
    FetchAt(m, target) && !Live(m.idL)
  }

  /** A data fault in MEM writes no register, squashes everything younger, and redirects to the handler. */
  lemma DataFaultTraps(m: Machine)
    requires Shaped(m) && Faults(m)
    ensures var m' := Cycle(m);
            && m'.regs == m.regs && m'.dynRetired == m.dynRetired
            && !Live(m'.idL) && !Live(m'.exL) && !Live(m'.memL) && !Live(m'.wbL)
            && Redirected(m', EXCEPTION_HANDLER)
  {
    hide StageMEM, StageEX, StageID, Taken, Access, Resident, FetchWord, Next, TakesBranch, Resolves, ResolvedPC, Nop;
    NopShape(SQUASHED); NopShape(NORMAL);
    FaultingWB(m);
    FaultingIF(m);
  }

  lemma FaultingWB(m: Machine)
    requires Faults(m)
    ensures StageWB(m) == WbOut(Nop(SQUASHED), m.regs, true, EXCEPTION_HANDLER, m.dynRetired)
  {
  }

  /** In a trap cycle every redirection goes to the handler. */
  lemma FaultingRedirect(m: Machine)
    requires Shaped(m)
    ensures var w := StageWB(m).(trap := true, nextPC := EXCEPTION_HANDLER);
            var d := StageID(m, w.regs, TakesBranch(m, StageMEM(m).latch, w));
            RedirectPC(m, w, StageMEM(m), d) == EXCEPTION_HANDLER
  {
    hide StageWB, StageMEM, HazardStall, SimID, ResolvedPC, DecodeWord, Nop;
    IDShape(m.ifL, StageWB(m).regs, m.counters);
    DecodeShape(m.ifL.word);
    IllegalZero();
  }

  lemma FaultingIF(m: Machine)
    requires Faults(m) && Shaped(m)
    ensures FetchAt(Cycle(m), EXCEPTION_HANDLER)
  {
    hide StageMEM, StageEX, StageWB, Access, Resident, FetchWord, StageID, RedirectPC, TakesBranch, OldIdIllegal, Next;
    FaultingWB(m);
    FaultingRedirect(m);
  }

  /** Until the next decode a redirected pipeline stays redirected. */
  lemma RedirectedDecodes(m: Machine, target: Word)
    requires Shaped(m) && Redirected(m, target) && Undisturbed(m)
    ensures if Decodes(m, Taken(m)) then m.ifL.pc == target else Redirected(Cycle(m), target)
  {
    hide StageWB, StageMEM, StageID, StageIF, HazardStall, Cycle, Next, Taken, Target, SimIF, OldIdIllegal, Decodes;
    TrackKept(m, target);
    NothingResolves(m);
    CycleParts(m);
    DecodedPC(m);
    if DStalled(m) || HazardStall(m) { NoBranchWhileHeld(m); }
  }

  lemma NothingResolves(m: Machine)
    requires !Live(m.idL)
    ensures !Resolves(m, false)
  {
    hide HazardStall;
  }

  // ---- illegal words -----------------------------------------------------------------------------------------

  /** An illegal word is decoded in a cycle that does not trap. */
  predicate DecodesIllegal(m: Machine) {
    !StageWB(m).trap && Decodes(m, Taken(m)) && !NewID(m).ctl.isLegal
  }

  /** An illegal word in ID has raised its exception.  Either the squash is pending, and IF waits at the handler; or a
      D-stall has used the squash up, and IF holds the first word of the handler. */
  predicate Parked(m: Machine) {
    && Live(m.idL) && !m.idL.ctl.isLegal && m.iStallLeft == 0 && !m.justFinishedIStall
    && (if m.squashNextIF then !Live(m.ifL) && m.pc == EXCEPTION_HANDLER
        else Live(m.ifL) && m.ifL.pc == EXCEPTION_HANDLER)
  }

  /** An illegal word raises its exception when it is decoded, unless its cycle starts a D-stall: in the cycle after
      that the older instructions have moved on (or one of them has faulted and squashed the rest), the illegal word is
      dropped, and the pipeline is redirected to the handler. */
  lemma IllegalWordTraps(m: Machine)
    requires Shaped(m) && DecodesIllegal(m) && StageMEM(m).dStallLeft == 0
    ensures var m', m'' := Cycle(m), Cycle(Cycle(m));
            && !Live(m''.exL) && m''.memL == (if StageWB(m').trap then Nop(SQUASHED) else NewMEM(m'))
            && m''.wbL == StageWB(m').latch
            && Redirected(m'', EXCEPTION_HANDLER)
  {
    hide StageMEM, StageWB, StageEX, NewID, NewMEM, HazardStall, Taken, Cycle, Decodes, StageID, Nop, Parked;
    var m' := Cycle(m);
    AfterIllegalDecode(m);
    ShapeKept(m);
    IllegalWordLeaves(m');
  }

  /** A pending squash drops the illegal word in ID. */
  lemma IllegalWordLeaves(m: Machine)
    requires Shaped(m) && Parked(m) && m.squashNextIF && !DStalled(m)
    ensures var m' := Cycle(m);
            && !Live(m'.exL) && m'.memL == (if StageWB(m).trap then Nop(SQUASHED) else NewMEM(m))
            && m'.wbL == StageWB(m).latch
            && Redirected(m', EXCEPTION_HANDLER)
  {
    hide StageMEM, StageWB, StageEX, NewID, NewMEM, HazardStall, Taken, Cycle, Decodes, StageID, Nop;
    CycleLatches(m);
    NopShape(SQUASHED);
    if StageWB(m).trap {
      NewWBCases(m);
      DataFaultTraps(m);
    } else {
      IllegalHasNoHazard(m);
      NewEXCases(m);
      NewIDIs(m);
      SquashedID(m);
      IllegalIsNotTaken(m);
      FetchFromHandler(m);
    }
  }

  /** The state after an illegal word has been decoded. */
  lemma AfterIllegalDecode(m: Machine)
    requires Shaped(m) && DecodesIllegal(m)
    ensures var m' := Cycle(m);
            Parked(m') && m'.idL == NewID(m) && m'.squashNextIF && m'.dStallLeft == StageMEM(m).dStallLeft
  {
    hide StageMEM, StageWB, StageEX, HazardStall, Access, Resident, StageID, TakesBranch;
    CycleLatches(m);
    NewIDCases(m);
    NewIDIs(m);
    DecodedIllegal(m);
  }

  lemma DecodedIllegal(m: Machine)
    requires Shaped(m) && Decodes(m, Taken(m)) && !NewID(m).ctl.isLegal
    ensures StageID(m, StageWB(m).regs, Taken(m)).illegal && NewID(m).nextPC == EXCEPTION_HANDLER && Live(NewID(m))
    ensures !Taken(m) && !IStalled(m) && !DStalled(m)
  {
    hide StageWB, StageMEM, HazardStall, SimID, DecodeWord;
    NewIDCases(m);
    TakenDoesNotDecode(m);
  }

  lemma IllegalHasNoHazard(m: Machine)
    requires !m.idL.ctl.isLegal && WellShaped(m.idL.ctl)
    ensures !HazardStall(m)
  {
  }

  lemma SquashedID(m: Machine)
    requires m.squashNextIF && !DStalled(m) && !HazardStall(m)
    ensures var d := StageID(m, StageWB(m).regs, Taken(m)); !Live(d.latch) && !d.illegal
  {
    hide StageWB, Taken, HazardStall;
  }

  lemma FetchFromHandler(m: Machine)
    requires m.squashNextIF && !DStalled(m) && !HazardStall(m) && !StageWB(m).trap && !Taken(m)
    requires !Live(m.ifL) && m.iStallLeft == 0 && !m.justFinishedIStall
    ensures FetchAt(Cycle(m), m.pc)
  {
    hide StageMEM, StageWB, StageEX, HazardStall, Access, Resident, FetchWord, StageID, Next;
    SquashedID(m);
  }

  lemma IllegalIsNotTaken(m: Machine)
    requires WellShaped(m.idL.ctl) && !m.idL.ctl.isLegal
    ensures !Taken(m)
  {
    hide StageMEM, StageWB, HazardStall, Next, Displaced, Forwarded, Completed;
  }
}
