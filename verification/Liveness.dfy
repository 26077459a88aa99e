/** The pipeline never livelocks, whatever the program: in every state of every run a potential, which falls in each
    cycle that decodes nothing, bounds the time to the next decode. */
module Liveness {
  import opened Utilities
  import opened Memory
  import opened Instructions
  import opened LruCache
  import opened PipelineSpec
  import opened Correspondence
  import opened Progress
  import opened Ledgers

  // ---- the fetch stage ---------------------------------------------------------------------------------------

  /** While a miss is outstanding IF is empty and the block it waits for is resident; an illegal word in ID, and
      a deferred squash, have ended any wait; behind a squash IF is empty. */
  predicate FetchSound(m: Machine) {
    && WaitsForResident(m) && (m.iStallLeft > 0 ==> !Live(m.ifL))
    && (Live(m.idL) && !m.idL.ctl.isLegal ==> m.iStallLeft == 0)
    && (m.squashNextIF ==> m.iStallLeft == 0 && !Live(m.ifL))
  }

  /** Every path through the fetch stage. */
  lemma FetchPaths(m: Machine, mem: Mem, newID: Instruction, trap: bool, illegal: bool, taken: bool, target: Word)
    requires FetchSound(m) && (illegal ==> !IStalled(m))
    ensures var f := StageIF(m, mem, newID, trap, illegal, taken, target);
            && OutcomeWaitsForResident(f) && f.iCache.config == m.iCache.config
            && (f.iStallLeft > 0 ==> !Live(f.latch))
            && (illegal && !trap ==> f.iStallLeft == 0)
            && (f.squashNextIF <==> illegal && !trap) && (f.squashNextIF ==> !Live(f.latch))
            && OutcomeWait(f) <= m.iCache.config.missLatency + 3
            && (!trap && !illegal && !taken && (DStalled(m) || HazardStall(m)) ==>
                  OutcomeWait(f) <= FetchWait(m) && f.iStallLeft <= m.iStallLeft)
            && (!trap && !illegal && !taken && !DStalled(m) && !HazardStall(m) && !Live(m.ifL) ==>
                   OutcomeWait(f) < FetchWait(m))
  {
    hide FetchWord, Next, Access, Resident, HazardStall, BranchDataStall, SimIF;
    SimIFIsLive(mem, m.pc);
    SimIFIsLive(mem, target);
    AccessMakesResident(m.iCache, m.pc);
    AccessMakesResident(m.iCache, target);
  }

  /** The exception flag of ID in a cycle. */
  predicate RaisesIllegal(m: Machine) {
    OldIdIllegal(m) || StageID(m, StageWB(m).regs, Taken(m)).illegal
  }

  /** The fetch stage of any cycle. */
  lemma FetchOfCycle(m: Machine) returns (target: Word)
    ensures var m' := Cycle(m);
            var f := StageIF(m, StageMEM(m).mem, NewID(m), StageWB(m).trap, RaisesIllegal(m), Taken(m), target);
            && m'.ifL == f.latch && m'.pc == f.pc && m'.iCache == f.iCache && m'.iStallLeft == f.iStallLeft
            && m'.squashNextIF == f.squashNextIF && m'.justFinishedIStall == f.justFinishedIStall
  {
    hide StageWB, StageMEM, StageEX, StageID, StageIF, TakesBranch, RedirectPC, OldIdIllegal;
    target := RedirectPC(m, StageWB(m), StageMEM(m), StageID(m, StageWB(m).regs, Taken(m)));
  }

  lemma IllegalCases(m: Machine)
    requires Shaped(m) && FetchSound(m)
    ensures RaisesIllegal(m) ==> !IStalled(m)
    ensures RaisesIllegal(m) && !Decodes(m, Taken(m)) ==> OldIdIllegal(m)
    ensures Decodes(m, Taken(m)) && Live(NewID(m)) && !NewID(m).ctl.isLegal ==> RaisesIllegal(m)
    ensures OldIdIllegal(m) ==> Live(m.idL) && !m.idL.ctl.isLegal && !HazardStall(m)
    ensures Live(m.idL) && !m.idL.ctl.isLegal ==> !HazardStall(m)
  {
    hide StageWB, Taken, SimID, WaitsForResident;
    NewIDCases(m);
  }

  lemma TakenNeedsLiveID(m: Machine)
    ensures Taken(m) ==> Live(m.idL) && !DStalled(m) && !HazardStall(m)
  {
    hide StageMEM, StageWB, HazardStall, ResolvedPC, Next;
  }

  /** Fetching stays sound. */
  lemma FetchSoundKept(m: Machine)
    requires Shaped(m) && FetchSound(m)
    ensures FetchSound(Cycle(m)) && Cycle(m).iCache.config == m.iCache.config
  {
    hide Cycle, StageIF, StageMEM, StageWB, NewID, Taken, Decodes, HazardStall, OldIdIllegal, RaisesIllegal, Resident,
      Nop, StageEX, NewMEM;
    var target := FetchOfCycle(m);
    IllegalCases(m);
    FetchPaths(m, StageMEM(m).mem, NewID(m), StageWB(m).trap, RaisesIllegal(m), Taken(m), target);
    CycleLatches(m);
    NewIDCases(m);
    NopShape(SQUASHED);
    TakenNeedsLiveID(m);
  }

  // ---- the potential -----------------------------------------------------------------------------------------

  /** The access that leaves EX in this cycle misses in the data cache. */
  predicate MissesNow(m: Machine) { StageMEM(m).dCache.misses > m.dCache.misses }

  /** Cycles until the next decode, data misses still to come not counted: what is left of a D-stall, the way of
      the instructions in EX and MEM, and the wait of IF, which a taken branch or a fault may start again. */
  function Pending(m: Machine): nat {
    var i := m.iCache.config.missLatency;
    m.dStallLeft + (if Live(m.exL) then 2 else 0) + (if Live(m.memL) then 1 else 0)
    + (if Live(m.idL) then i + 9 else if Live(m.exL) || Live(m.memL) then i + 4 else FetchWait(m))
  }

  /** The D-stall after a cycle; only an instruction that leaves EX can miss. */
  lemma NewDataStall(m: Machine)
    ensures var o := StageMEM(m);
            && o.dCache.config == m.dCache.config
            && o.dCache.misses == m.dCache.misses + Bit(MissesNow(m)) && (MissesNow(m) ==> !DStalled(m) && Live(m.exL))
            && o.dStallLeft ==
               if DStalled(m) then m.dStallLeft - 1 else if MissesNow(m) then m.dCache.config.missLatency else 0
  {
    hide Access, Resident, SimMEM, SimAddrGen, WithStoreData, Load;
    AccessCounts(m.dCache, SimAddrGen(WithStoreData(m.exL, m.wbL)).addr);
  }

  lemma OutcomeIsWait(m: Machine, f: IfOut)
    requires var m' := Cycle(m);
             m'.ifL == f.latch && m'.pc == f.pc && m'.iCache == f.iCache && m'.iStallLeft == f.iStallLeft
    ensures FetchWait(Cycle(m)) == OutcomeWait(f)
  {
    hide Cycle, Resident;
  }

  /** How the wait of IF changes in a cycle. */
  lemma WaitChanges(m: Machine)
    requires Shaped(m) && FetchSound(m)
    ensures FetchWait(Cycle(m)) <= m.iCache.config.missLatency + 3
    ensures !StageWB(m).trap && !Live(m.idL) && !Decodes(m, Taken(m)) ==>
              FetchWait(Cycle(m)) + Bit(!DStalled(m)) <= FetchWait(m)
  {
    hide Cycle, StageIF, StageMEM, StageWB, NewID, Taken, Decodes, HazardStall, OldIdIllegal, RaisesIllegal, Resident,
      FetchWait;
    var target := FetchOfCycle(m);
    var f := StageIF(m, StageMEM(m).mem, NewID(m), StageWB(m).trap, RaisesIllegal(m), Taken(m), target);
    IllegalCases(m);
    FetchPaths(m, StageMEM(m).mem, NewID(m), StageWB(m).trap, RaisesIllegal(m), Taken(m), target);
    TakenNeedsLiveID(m);
    HoldCases(m);
    OutcomeIsWait(m, f);
    if !DStalled(m) && !HazardStall(m) && Live(m.ifL) && !Decodes(m, Taken(m)) { StuckOnlyIf(m); }
  }

  /** Nothing else keeps an instruction in IF from being decoded. */
  lemma StuckOnlyIf(m: Machine)
    requires FetchSound(m) && !Decodes(m, Taken(m)) && !DStalled(m) && !HazardStall(m) && Live(m.ifL)
    ensures Taken(m)
  {
    hide Taken, HazardStall, WaitsForResident;
  }

  lemma TrapIsLive(m: Machine)
    requires Shaped(m) && StageWB(m).trap
    ensures Live(m.memL) && !DStalled(m)
  {
    hide StageWB;
    NewWBCases(m);
  }

  /** A word is decoded in the cycle from `m`. */
  predicate DecodesNow(m: Machine) { Decodes(m, Taken(m)) }

  /** Every cycle takes its time off the potential; only a decode and a data miss add to it. */
  lemma PendingFalls(m: Machine)
    requires Shaped(m) && FetchSound(m)
    ensures var i, d := m.iCache.config.missLatency, m.dCache.config.missLatency;
            Pending(Cycle(m)) + 1
            <= Pending(m) + (if DecodesNow(m) then i + 13 else 0) + (if MissesNow(m) then d else 0)
  {
    hide Cycle, StageMEM, StageWB, NewID, Taken, Decodes, HazardStall, Nop, StageEX, NewMEM, FetchWait;
    CycleLatches(m);
    NewIDCases(m); NewEXCases(m); NewMEMCases(m);
    NewDataStall(m);
    NopShape(SQUASHED); NopShape(BUBBLE);
    HoldCases(m);
    FetchSoundKept(m);
    WaitChanges(m);
    if StageWB(m).trap { TrapIsLive(m); }
  }

  /** The same with the misses of the instructions in flight counted in advance. */
  function TimeToDecode(m: Machine): nat {
    Pending(m) + (if Live(m.exL) then m.dCache.config.missLatency else 0)
    + (if Live(m.idL) then m.dCache.config.missLatency else 0)
  }

  /** Every cycle that decodes nothing brings the next decode nearer. */
  lemma TimeFalls(m: Machine)
    requires Shaped(m) && FetchSound(m) && !DecodesNow(m)
    ensures TimeToDecode(Cycle(m)) < TimeToDecode(m)
  {
    hide Cycle, StageMEM, StageWB, NewID, DecodesNow, HazardStall, Nop, StageEX, NewMEM, Pending;
    PendingFalls(m);
    CycleLatches(m);
    NewDataStall(m);
    SlotsMoveOn(m);
  }

  /** Without a decode nothing new can miss: an instruction in ID or EX stays, moves on, or is dropped. */
  lemma SlotsMoveOn(m: Machine)
    requires Shaped(m) && !DecodesNow(m)
    ensures var m' := Cycle(m);
            Bit(MissesNow(m)) + Bit(Live(m'.exL)) + Bit(Live(m'.idL)) <= Bit(Live(m.exL)) + Bit(Live(m.idL))
    ensures Cycle(m).dCache.config == m.dCache.config
  {
    hide Cycle, StageMEM, StageWB, NewID, Taken, Decodes, HazardStall, Nop, StageEX, NewMEM;
    CycleLatches(m);
    NewIDCases(m); NewEXCases(m);
    NewDataStall(m);
    NopShape(SQUASHED); NopShape(BUBBLE);
    HoldCases(m);
  }

  // ---- every run ---------------------------------------------------------------------------------------------

  /** From a state with sound latches the next decode comes within the potential. */
  lemma {:induction false} NextDecode(m: Machine) returns (k: nat)
    requires Shaped(m) && FetchSound(m)
    ensures k <= TimeToDecode(m) && DecodesNow(Run(m, k))
    ensures forall j: nat :: j < k ==> !DecodesNow(Run(m, j))
    decreases TimeToDecode(m)
  {
    hide Shaped, FetchSound, TimeToDecode, Cycle, DecodesNow;
    RunZero(m);
    if DecodesNow(m) {
      k := 0;
    } else {
      ShapeKept(m);
      FetchSoundKept(m);
      TimeFalls(m);
      var n := NextDecode(Cycle(m));
      k := n + 1;
      forall j: nat | j < k
        ensures !DecodesNow(Run(m, j))
      {
        if j > 0 { assert Run(m, j) == Run(Cycle(m), j - 1); }
      }
    }
  }

  /** What holds in every state of every run. */
  predicate Reachable(i: Geometry, d: Geometry, m: Machine) {
    FetchSound(m) && m.iCache.config == i && m.dCache.config == d && m.dStallLeft <= d.missLatency
  }

  lemma {:induction false} EveryStateSound(mem: Mem, regs: Regs, i: Geometry, d: Geometry, n: nat)
    ensures var m := Run(Init(mem, regs, i, d), n); Shaped(m) && Reachable(i, d, m)
    decreases n
  {
    hide Shaped, FetchSound, Cycle, Init, LedgerAt, Conserved, InOrder, HazardsBounded, HazardsCounted, DataSideExact,
      NewID, NewMEM, StageWB, StageMEM, StageEX;
    var m0 := Init(mem, regs, i, d);
    EveryRun(mem, regs, i, d, n);
    if n == 0 {
      RunZero(m0);
      StartsSound(mem, regs, i, d);
    } else {
      EveryStateSound(mem, regs, i, d, n - 1);
      var before := Run(m0, n - 1);
      RunStep(m0, n - 1);
      FetchSoundKept(before);
      CycleLatches(before);
      NewDataStall(before);
    }
  }

  lemma StartsSound(mem: Mem, regs: Regs, i: Geometry, d: Geometry)
    ensures Reachable(i, d, Init(mem, regs, i, d))
  {
    hide Empty, Resident;
  }

  lemma TimeIsBounded(i: Geometry, d: Geometry, m: Machine)
    requires Reachable(i, d, m)
    ensures TimeToDecode(m) <= i.missLatency + 3 * d.missLatency + 12
  {
    hide FetchWait, Resident;
    WaitBounded(m);
  }

  /** No livelock: after any number of cycles of any run, whatever the program, its faults and its hazards, another
      word is decoded within a time that depends on the two miss latencies only. */
  lemma NeverLivelocks(mem: Mem, regs: Regs, i: Geometry, d: Geometry, n: nat)
    ensures var m0 := Init(mem, regs, i, d);
            exists k: nat :: k <= i.missLatency + 3 * d.missLatency + 12 && DecodesNow(Run(Run(m0, n), k))
  {
    hide Shaped, FetchSound, Cycle, Init, TimeToDecode, Run, DecodesNow;
    var m := Run(Init(mem, regs, i, d), n);
    EveryStateSound(mem, regs, i, d, n);
    TimeIsBounded(i, d, m);
    var k := NextDecode(m);
  }

  /** The words decoded in the first `n` cycles. */
  function DecodesIn(m: Machine, n: nat): nat {
    if n == 0 then 0 else DecodesIn(m, n - 1) + Bit(DecodesNow(Run(m, n - 1)))
  }

  /** Progress of every run: the cycles are bounded by one instruction-cache latency and a constant for each word
      decoded, plus one data-cache latency for each data miss, whatever the program, its faults and its hazards. */
  lemma {:induction false} CyclesAreBounded(mem: Mem, regs: Regs, i: Geometry, d: Geometry, n: nat)
    ensures var m0 := Init(mem, regs, i, d);
            n <= (i.missLatency + 13) * (DecodesIn(m0, n) + 1) + d.missLatency * Run(m0, n).dCache.misses
  {
    hide Init, Cycle, Pending, DecodesNow, MissesNow;
    CyclesArePaidFor(mem, regs, i, d, n);
    var m0 := Init(mem, regs, i, d);
    Distribute(i.missLatency + 13, DecodesIn(m0, n), 1);
  }

  lemma {:induction false} CyclesArePaidFor(mem: Mem, regs: Regs, i: Geometry, d: Geometry, n: nat)
    ensures var m0 := Init(mem, regs, i, d);
            var m := Run(m0, n);
            n + Pending(m)
            <= i.missLatency + 3 + (i.missLatency + 13) * DecodesIn(m0, n) + d.missLatency * m.dCache.misses
    decreases n
  {
    hide Init, Cycle, Pending, DecodesNow, Shaped, FetchSound, StageMEM;
    var m0 := Init(mem, regs, i, d);
    if n == 0 {
      RunZero(m0);
      StartsPending(mem, regs, i, d);
    } else {
      CyclesArePaidFor(mem, regs, i, d, n - 1);
      EveryStateSound(mem, regs, i, d, n - 1);
      var before := Run(m0, n - 1);
      RunStep(m0, n - 1);
      PendingFalls(before);
      MissesGrow(before);
      Distribute(i.missLatency + 13, DecodesIn(m0, n - 1), Bit(DecodesNow(before)));
      Distribute(d.missLatency, before.dCache.misses, Bit(MissesNow(before)));
    }
  }

  lemma MissesGrow(m: Machine)
    ensures Cycle(m).dCache.misses == m.dCache.misses + Bit(MissesNow(m))
  {
    hide Cycle, StageMEM, StageWB, NewID, NewMEM, StageEX;
    CycleLatches(m);
    NewDataStall(m);
  }

  lemma StartsPending(mem: Mem, regs: Regs, i: Geometry, d: Geometry)
    ensures var m := Init(mem, regs, i, d); Pending(m) <= i.missLatency + 3 && m.dCache.misses == 0
  {
    hide Empty, Resident;
  }
}
