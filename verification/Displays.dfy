/** What the simulator reports about any run: cycles, decoded instructions, and the statuses of the latches. */
module Displays {
  import opened Utilities
  import opened Memory
  import opened Instructions
  import opened LruCache
  import opened SequentialRun
  import opened PipelineSpec
  import opened Correspondence
  import opened Ledgers
  import opened Liveness

  // ---- counters ----------------------------------------------------------------------------------------------

  /** HALT is decoded in this cycle, whether or not it is squashed later. */
  predicate DecodesHalt(m: Machine) { Decodes(m, Taken(m)) && NewID(m).ctl.isHalt }

  predicate NoHaltYet(m: Machine, n: nat) {
    forall j: nat :: j < n ==> !DecodesHalt(Run(m, j))
  }

  /** The instructions decoded in the first `n` cycles, NOPs aside, up to and including the first HALT. */
  function DecodedToHalt(m: Machine, n: nat): nat {
    if n == 0 then 0 else DecodedToHalt(m, n - 1) + Bit(NoHaltYet(m, n - 1) && DecodesLive(Run(m, n - 1)))
  }

  lemma HaltStopsCounting(m: Machine)
    requires Shaped(m)
    ensures var n := Cycle(m).counters;
            && (n.countDin <==> m.counters.countDin && !DecodesHalt(m))
            && n.din == m.counters.din + Bit(m.counters.countDin && DecodesLive(m))
  {
    hide Cycle, StageWB, StageEX, StageMEM, NewMEM, StageID, SimID, Taken, HazardStall, Nop;
    CycleLatches(m);
    CountersMove(m);
    NewIDCases(m);
    CountedByID(m.ifL, StageWB(m).regs, m.counters);
  }

  lemma CountedByID(x: Instruction, regs: Regs, n: Counters)
    ensures var (y, n') := SimID(x, regs, n);
            && (n'.countDin <==> n.countDin && !y.ctl.isHalt)
            && n'.din == n.din + Bit(n.countDin && Live(y))
  {
    hide DecodeWord, NextPC, ReadReg;
    DecodeShape(x.word);
  }

  /** The counters of every run: one cycle for each iteration; and the instructions decoded until the first HALT. */
  lemma {:induction false} CountersOfRun(mem: Mem, regs: Regs, i: Geometry, d: Geometry, n: nat)
    ensures var m0 := Init(mem, regs, i, d);
            var m := Run(m0, n);
            && m.cycleCount == n && m.counters.din == DecodedToHalt(m0, n)
            && (m.counters.countDin <==> NoHaltYet(m0, n))
    decreases n
  {
    hide Init, Cycle, Shaped, Reachable, DecodesHalt, DecodesLive;
    var m0 := Init(mem, regs, i, d);
    if n == 0 {
      RunZero(m0);
      StartsCounting(mem, regs, i, d);
    } else {
      CountersOfRun(mem, regs, i, d, n - 1);
      EveryStateSound(mem, regs, i, d, n - 1);
      RunStep(m0, n - 1);
      HaltStopsCounting(Run(m0, n - 1));
      CountsCycle(Run(m0, n - 1));
    }
  }

  lemma StartsCounting(mem: Mem, regs: Regs, i: Geometry, d: Geometry)
    ensures var m := Init(mem, regs, i, d);
            m.cycleCount == 0 && m.counters.din == 0 && m.counters.countDin
  {
    hide Empty;
  }

  lemma CountsCycle(m: Machine)
    ensures Cycle(m).cycleCount == m.cycleCount + 1
  {
    hide StageWB, StageMEM, StageEX, StageID, StageIF, TakesBranch, RedirectPC, OldIdIllegal, LoadUseEvent;
  }

  // ---- empty slots -------------------------------------------------------------------------------------------

  /** The status of an empty slot says why it is empty, and moves on with the slot: SQUASHED behind a trap, for a
      dropped illegal word, and behind a taken branch or a pending squash; BUBBLE behind a held instruction, for a
      word that IF does not have, and in WB during a D-stall. */
  lemma EmptySlots(m: Machine)
    requires Shaped(m)
    ensures var m', trap := Cycle(m), StageWB(m).trap;
            && (!Live(m'.wbL) ==>
                  m'.wbL.status == if DStalled(m) then BUBBLE else if trap then SQUASHED else m.memL.status)
            && (!Live(m'.memL) ==>
                  m'.memL.status == if trap then SQUASHED else if DStalled(m) then m.memL.status else m.exL.status)
            && (!Live(m'.exL) ==>
                  m'.exL.status == if trap || DropsIllegal(m) then SQUASHED else if DStalled(m) then m.exL.status
                                   else if HazardStall(m) then BUBBLE else m.idL.status)
            && (!Live(m'.idL) ==>
                  m'.idL.status == if trap then SQUASHED else if DStalled(m) || HazardStall(m) then m.idL.status
                                   else if m.squashNextIF || Taken(m) then SQUASHED
                                   else if IStalled(m) then BUBBLE else if Live(m.ifL) then NORMAL
                                   else if m.ifL.status == IDLE then IDLE else BUBBLE)
  {
    hide Cycle, StageWB, StageEX, NewMEM, NewID, HazardStall, Nop, Taken;
    CycleLatches(m);
    NopStatus(SQUASHED);
    StatusInWB(m); StatusInMEM(m); StatusInEX(m); StatusInID(m);
  }

  lemma NopStatus(status: StageStatus)
    ensures Nop(status).status == status && !Live(Nop(status))
  {
  }

  lemma StatusInWB(m: Machine)
    requires Shaped(m)
    ensures var o := StageWB(m);
            !Live(o.latch) ==>
              o.latch.status == if DStalled(m) then BUBBLE else if o.trap then SQUASHED else m.memL.status
  {
    hide SimCommit, WriteReg;
    NopStatus(BUBBLE); NopStatus(SQUASHED);
  }

  lemma StatusInMEM(m: Machine)
    requires Shaped(m)
    ensures var x := NewMEM(m);
            !Live(x) ==> x.status == if DStalled(m) then m.memL.status else m.exL.status
  {
    hide MemAccess, Address, Access, Resident, Nop, WithStoreData;
    NopStatus(m.exL.status);
    StoreDataKeeps(m.exL, m.wbL);
  }

  lemma StatusInEX(m: Machine)
    requires Shaped(m)
    ensures var x := StageEX(m);
            !Live(x) ==>
              x.status == if DropsIllegal(m) then SQUASHED else if DStalled(m) then m.exL.status
                          else if HazardStall(m) then BUBBLE else m.idL.status
  {
    hide Forwarded, Alu, ShiftMasked, Nop, HazardStall, Completed;
    NopStatus(SQUASHED); NopStatus(BUBBLE);
  }

  lemma StatusInID(m: Machine)
    ensures var x := NewID(m);
            !Live(x) ==>
              x.status == if DStalled(m) || HazardStall(m) then m.idL.status
                          else if m.squashNextIF || Taken(m) then SQUASHED
                          else if IStalled(m) then BUBBLE else if Live(m.ifL) then NORMAL
                          else if m.ifL.status == IDLE then IDLE else BUBBLE
  {
    hide HazardStall, StageWB, StageMEM, Nop, Taken, DecodeWord, NextPC, ReadReg;
    NopStatus(SQUASHED); NopStatus(BUBBLE); NopStatus(IDLE);
  }

  // ---- speculation -------------------------------------------------------------------------------------------

  predicate Unresolved(x: Instruction) { Live(x) && IsControlFlow(x.ctl) }

  /** IF shows a fetched word as speculative only while a branch or jump is in ID; behind a cycle of waiting IF is
      empty. */
  predicate SpeculationSound(m: Machine) {
    && (Live(m.ifL) && m.ifL.status == SPECULATIVE ==> Unresolved(m.idL))
    && (m.justFinishedIStall ==> !Live(m.ifL))
  }

  /** What IF shows: with a word, and while it is empty. */
  lemma StatusInIF(m: Machine, mem: Mem, newID: Instruction, trap: bool, illegal: bool, taken: bool, target: Word)
    requires m.justFinishedIStall ==> !Live(m.ifL)
    ensures var f := StageIF(m, mem, newID, trap, illegal, taken, target);
            && (f.justFinishedIStall ==> !Live(f.latch))
            && (Live(f.latch) ==>
                  f.latch.status ==
                  if trap || taken then NORMAL
                  else if DStalled(m) then (if Live(m.ifL) then m.ifL.status else NORMAL)
                  else if HazardStall(m) then (if BranchDataStall(m) then SPECULATIVE else m.ifL.status)
                  else if Unresolved(newID) && !m.justFinishedIStall then SPECULATIVE else NORMAL)
            && (Live(f.latch) && HazardStall(m) && !trap && !taken ==> Live(m.ifL))
            && (!Live(f.latch) ==>
                  f.latch.status ==
                  if trap || illegal then NORMAL
                  else if taken then IDLE
                  else if HazardStall(m) && !IStalled(m) then
                    (if BranchDataStall(m) then SPECULATIVE else m.ifL.status)
                  else NORMAL)
  {
    hide HazardStall, BranchDataStall, Resident, Access, FetchWord, Next;
    if HazardStall(m) { HazardsAreAwake(m); }
  }

  lemma HazardsAreAwake(m: Machine)
    requires HazardStall(m)
    ensures !DStalled(m)
  {
  }

  /** In every cycle that is not frozen a word in IF is shown as speculative exactly if a branch or jump is in ID. */
  lemma SpeculationShown(m: Machine)
    requires Shaped(m) && FetchSound(m) && SpeculationSound(m)
    ensures var m' := Cycle(m);
            && SpeculationSound(m')
            && (!DStalled(m) && Live(m'.ifL) ==> (m'.ifL.status == SPECULATIVE <==> Unresolved(m'.idL)))
  {
    hide Cycle, StageWB, StageEX, StageMEM, StageIF, NewMEM, NewID, HazardStall, BranchDataStall, Nop, Taken,
      RaisesIllegal, Decodes, FetchSound, IsControlFlow;
    var target := FetchOfCycle(m);
    StatusInIF(m, StageMEM(m).mem, NewID(m), StageWB(m).trap, RaisesIllegal(m), Taken(m), target);
    CycleLatches(m);
    NopStatus(SQUASHED);
    NewIDCases(m);
    DecodesLiveWord(m);
    HeldBranches(m);
    TakenEmptiesID(m);
    if StageWB(m).trap { TrapIsLive(m); }
    if Taken(m) { TakenNeedsLiveID(m); }
  }

  lemma TakenEmptiesID(m: Machine)
    ensures Taken(m) ==> !Live(NewID(m))
  {
    hide StageWB, StageMEM, HazardStall, Taken, Nop;
    TakenNeedsLiveID(m);
    NopStatus(SQUASHED);
  }

  lemma HeldBranches(m: Machine)
    requires WellShaped(m.idL.ctl)
    ensures HazardStall(m) ==> (BranchDataStall(m) <==> Unresolved(m.idL))
  {
  }

  lemma {:induction false} SpeculationInRuns(mem: Mem, regs: Regs, i: Geometry, d: Geometry, n: nat)
    ensures SpeculationSound(Run(Init(mem, regs, i, d), n))
    decreases n
  {
    hide Init, Cycle, Shaped, Reachable, SpeculationSound, FetchSound;
    var m0 := Init(mem, regs, i, d);
    if n == 0 {
      RunZero(m0);
      StartsCertain(mem, regs, i, d);
    } else {
      SpeculationInRuns(mem, regs, i, d, n - 1);
      EveryStateSound(mem, regs, i, d, n - 1);
      SoundIsSound(i, d, Run(m0, n - 1));
      RunStep(m0, n - 1);
      SpeculationShown(Run(m0, n - 1));
    }
  }

  lemma SoundIsSound(i: Geometry, d: Geometry, m: Machine)
    requires Reachable(i, d, m)
    ensures FetchSound(m)
  {
    hide FetchSound;
  }

  lemma StartsCertain(mem: Mem, regs: Regs, i: Geometry, d: Geometry)
    ensures SpeculationSound(Init(mem, regs, i, d))
  {
    hide Empty;
  }
}
