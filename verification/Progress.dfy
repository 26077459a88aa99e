/** The pipeline never livelocks: a potential that falls in every cycle bounds the time to HALT. */
module Progress {
  import opened Utilities
  import opened Memory
  import opened Instructions
  import opened LruCache
  import opened SequentialRun
  import opened PipelineSpec
  import opened HazardSafety
  import opened Correspondence
  import opened Stages
  import opened Holding
  import opened Fetching
  import opened Preservation

  /** The cycles IF may still need for its next instruction. */
  function Wait(live: bool, left: nat, resident: bool, latency: nat): nat {
    if live then 0
    else if left > 0 then left + 1
    else if resident then 1
    else latency + 3
  }

  function FetchWait(m: Machine): nat {
    Wait(Live(m.ifL), m.iStallLeft, Resident(m.iCache, m.pc), m.iCache.config.missLatency)
  }

  function OutcomeWait(f: IfOut): nat {
    Wait(Live(f.latch), f.iStallLeft, Resident(f.iCache, f.pc), f.iCache.config.missLatency)
  }

  /** While IF waits for a block that has missed, that block is in the I-cache. */
  predicate WaitsForResident(m: Machine) {
    && (!Live(m.ifL) && (m.iStallLeft > 0 || m.justFinishedIStall) ==> Resident(m.iCache, m.pc))
    && m.iStallLeft <= m.iCache.config.missLatency
  }

  predicate OutcomeWaitsForResident(f: IfOut) {
    && (!Live(f.latch) && (f.iStallLeft > 0 || f.justFinishedIStall) ==> Resident(f.iCache, f.pc))
    && f.iStallLeft <= f.iCache.config.missLatency
  }

  /** Fetch timing: the wait for an instruction shortens in every cycle that is not held, and a new wait is
      bounded by the miss latency; it rests on a missed block being resident when the stall is over. */
  lemma FetchTiming(m: Machine, mem: Mem, newID: Instruction, taken: bool, target: Word, y: Word)
    requires FetchAt(m, y) && WaitsForResident(m) && (taken ==> !DStalled(m) && !HazardStall(m))
    ensures var f := StageIF(m, mem, newID, false, false, taken, target);
            && OutcomeWaitsForResident(f)
            && f.iCache.config == m.iCache.config
            && OutcomeWait(f) <= (if taken || Decodes(m, taken) then m.iCache.config.missLatency + 3 else FetchWait(m))
            && (!taken && !Decodes(m, taken) && !DStalled(m) && !HazardStall(m) ==> OutcomeWait(f) < FetchWait(m))
  {
    hide FetchWord, Next, Access, Resident, HazardStall, BranchDataStall, SimIF;
    FetchIsLive(mem, y);
    FetchIsLive(mem, Next(y));
    FetchIsLive(mem, target);
    AccessMakesResident(m.iCache, m.pc);
    AccessMakesResident(m.iCache, target);
    SimIFIsLive(mem, m.pc);
    SimIFIsLive(mem, target);
  }

  lemma SimIFIsLive(mem: Mem, pc: Word)
    ensures Live(SimIF(mem, pc))
  {
    hide FetchWord, Next;
  }

  /** Every new D-stall is paid for by a miss. */
  lemma DataTiming(m: Machine)
    ensures var o := StageMEM(m);
            && o.dCache.config == m.dCache.config
            && o.dCache.misses >= m.dCache.misses
            && (DStalled(m) ==> o.dStallLeft == m.dStallLeft - 1 && o.dCache.misses == m.dCache.misses)
            && (!DStalled(m) ==> o.dStallLeft == m.dCache.config.missLatency * (o.dCache.misses - m.dCache.misses))
  {
    hide Access, Resident, SimMEM, SimAddrGen, WithStoreData, Load;
    var y := SimAddrGen(WithStoreData(m.exL, m.wbL));
    AccessCounts(m.dCache, y.addr);
  }

  function Cost(each: nat, number: nat): nat { each * number }

  /** What the occupied slots still cost, `latency` being the I-miss latency. */
  function SlotCost(latency: nat, p: Pos): nat {
    (if p.inID then latency + 6 else 0) + (if p.inEX then 2 else 0) + (if p.inMEM then 1 else 0)
  }

  function FetchCost(h: nat, m: Machine, p: Pos): nat {
    if p.inID || HaltBeyondID(h, p) then 0 else FetchWait(m)
  }

  /** Time that is left: per instruction not yet decoded, per occupied slot, for the stalls under way. */
  function Potential(h: nat, m: Machine, p: Pos): nat
    requires PosOk(h, p)
  {
    var latency := m.iCache.config.missLatency;
    Cost(latency + 7, h + 1 - Upcoming(p)) + SlotCost(latency, p) + m.dStallLeft + FetchCost(h, m, p)
  }

  lemma CostStep(each: nat, number: nat)
    requires number > 0
    ensures Cost(each, number) == each + Cost(each, number - 1)
  {
  }

  /** The D-side of a cycle. */
  lemma DataSide(m: Machine)
    requires !StageWB(m).trap
    ensures var m' := Cycle(m);
            && m'.dCache.config == m.dCache.config && m'.dCache.misses >= m.dCache.misses
            && (DStalled(m) ==> m'.dStallLeft == m.dStallLeft - 1 && m'.dCache.misses == m.dCache.misses)
            && (!DStalled(m) ==> m'.dStallLeft == m.dCache.config.missLatency * (m'.dCache.misses - m.dCache.misses))
  {
    hide StageWB, StageMEM, Cycle, StageEX, StageID, Taken;
    CycleParts(m);
    DataTiming(m);
  }

  /** No memory trap in a matching pipeline. */
  lemma NoTrap(a: Course, h: nat, m: Machine, p: Pos)
    requires RunsToHalt(a, h) && Matches(a, h, m, p)
    ensures !StageWB(m).trap
  {
    hide InstrAt, SeqAt, RunsToHalt, SameRegs, WBMatches, EXMatches, IDMatches, IFMatches, CountsMatch, Done, Inert,
      StageWB;
    if !DStalled(m) { WBStep(a, h, m, p); } else { StalledNoTrap(m); }
  }

  lemma StalledNoTrap(m: Machine)
    requires DStalled(m)
    ensures !StageWB(m).trap
  {
  }

  /** The I-side of a cycle before HALT leaves ID. */
  lemma FetchSide(a: Course, h: nat, m: Machine, p: Pos)
    requires RunsToHalt(a, h) && HazardSafe(a, h) && Matches(a, h, m, p) && !HaltLeavesMEM(h, m, p)
    requires WaitsForResident(m) && !HaltBeyondID(h, p) && !HaltBeyondID(h, NextPos(h, m, p))
    ensures var m' := Cycle(m);
            && WaitsForResident(m') && m'.iCache.config == m.iCache.config
            && FetchWait(m') <= (if Taken(m) || Decodes(m, Taken(m)) then m.iCache.config.missLatency + 3
                 else FetchWait(m))
            && (!Taken(m) && !Decodes(m, Taken(m)) && !DStalled(m) && !HazardStall(m) ==> FetchWait(m') < FetchWait(m))
  {
    hide InstrAt, SeqAt, RunsToHalt, HazardSafe, HazardStall, StateMatches, WBMatches, MEMMatches, EXMatches,
      CountsMatch, FetchedRight, StageMEM, StageWB, Taken, OldIdIllegal, IDMatches, Cycle, StageIF, Target, Next,
      StageID, Decodes, Resident;
    NoTrap(a, h, m, p);
    NothingIllegalInID(a, h, m, p);
    if DStalled(m) || HazardStall(m) { NoBranchWhileHeld(m); HeldIsLegal(m); }
    else if Decodes(m, Taken(m)) { DecodedNext(a, h, m, p); } else { BubbleInID(a, h, m, p); }
    CycleFetch(m);
    FetchTiming(m, StageMEM(m).mem, StageID(m, StageWB(m).regs, Taken(m)).latch, Taken(m), Target(m), ExpectedPC(a, p));
  }

  lemma HeldIsLegal(m: Machine)
    requires DStalled(m) || HazardStall(m)
    ensures !StageID(m, StageWB(m).regs, Taken(m)).illegal
  {
    hide StageWB, Taken, HazardStall;
  }

  /** A hazard or an occupied ID slot means that something moves. */
  lemma HazardHasOlder(a: Course, h: nat, m: Machine, p: Pos)
    requires RunsToHalt(a, h) && Matches(a, h, m, p) && HazardStall(m) && !HaltLeavesMEM(h, m, p) && !DStalled(m)
    ensures p.inEX || p.inMEM
  {
    hide InstrAt, SeqAt, RunsToHalt, HazardStall, StateMatches, WBMatches, MEMMatches, EXMatches, CountsMatch,
      IFMatches, Decoded, Inert, Fresh;
    HazardIsLive(m);
    if p.inID { var q := HoldHasReason(a, h, m, p); }
    else if !HaltBeyondID(h, p) { InertIsNop(m.idL); }
  }

  /** The pure arithmetic of one cycle, for the positions `NextPos` can yield. */
  lemma SlotsFall(h: nat, m: Machine, p: Pos, latency: nat)
    requires PosOk(h, p) && PosOk(h, NextPos(h, m, p)) && !HaltLeavesMEM(h, m, p)
    requires HazardStall(m) && !DStalled(m) ==> p.inEX || p.inMEM
    ensures var p' := NextPos(h, m, p);
            var before, after := SlotCost(latency, p), SlotCost(latency, p');
            && (DStalled(m) ==> after == before)
            && (!DStalled(m) && HazardStall(m) ==> after < before)
            && (!DStalled(m) && !HazardStall(m) && !p'.inID ==> after + (if p.inID then latency + 4 else 0) <= before)
            && (!DStalled(m) && !HazardStall(m) && HaltBeyondID(h, p) ==> after < before)
            && (!DStalled(m) && !HazardStall(m) && p'.inID ==> after <= before + (if p.inID then 2 else latency + 6))
  {
    hide HazardStall, Taken, Decodes;
  }

  lemma WaitBounded(m: Machine)
    requires WaitsForResident(m)
    ensures FetchWait(m) <= m.iCache.config.missLatency + 3
  {
    hide Resident;
  }

  /** How the cost of fetching changes in a cycle. */
  lemma FetchCostChange(a: Course, h: nat, m: Machine, p: Pos)
    requires RunsToHalt(a, h) && HazardSafe(a, h) && Matches(a, h, m, p) && !HaltLeavesMEM(h, m, p)
    requires HaltBeyondID(h, p) || WaitsForResident(m)
    ensures var m', p' := Cycle(m), NextPos(h, m, p);
            var before, after := FetchCost(h, m, p), FetchCost(h, m', p');
            && (HaltBeyondID(h, p') || WaitsForResident(m'))
            && (DStalled(m) || HazardStall(m) ==> after <= before)
            && (p'.inID || HaltBeyondID(h, p') ==> after == 0)
            && (!DStalled(m) && !HazardStall(m) && !p'.inID && p.inID ==> after <= m.iCache.config.missLatency + 3)
            && (!DStalled(m) && !HazardStall(m) && !p'.inID && !p.inID && !HaltBeyondID(h, p) ==> after < before)
  {
    hide InstrAt, SeqAt, RunsToHalt, HazardSafe, HazardStall, StateMatches, WBMatches, MEMMatches, EXMatches,
      CountsMatch, IFMatches, IDMatches, StageWB, Taken, Cycle, Decodes, Resident, WaitsForResident, FetchWait,
      DStalled;
    var p' := NextPos(h, m, p);
    if !HaltBeyondID(h, p) { WaitBounded(m); }
    if !HaltBeyondID(h, p) && !HaltBeyondID(h, p') {
      FetchSide(a, h, m, p);
      if DStalled(m) || HazardStall(m) { NoBranchWhileHeld(m); } else { TakenDoesNotDecode(m); }
      if Taken(m) { TakenNeedsID(a, h, m, p); }
    }
  }

  /** The potential falls in every cycle, except that a D-miss adds its latency. */
  lemma PotentialFalls(a: Course, h: nat, m: Machine, p: Pos)
    requires RunsToHalt(a, h) && HazardSafe(a, h) && Matches(a, h, m, p) && !HaltLeavesMEM(h, m, p)
    requires HaltBeyondID(h, p) || WaitsForResident(m)
    requires Matches(a, h, Cycle(m), NextPos(h, m, p))
    ensures var m', p' := Cycle(m), NextPos(h, m, p);
            && m'.iCache.config == m.iCache.config && m'.dCache.config == m.dCache.config
            && m'.dCache.misses >= m.dCache.misses
            && Potential(h, m', p')
               < Potential(h, m, p) + m.dCache.config.missLatency * (m'.dCache.misses - m.dCache.misses)
  {
    hide InstrAt, SeqAt, RunsToHalt, HazardSafe, HazardStall, StateMatches, WBMatches, MEMMatches, EXMatches,
      CountsMatch, IFMatches, IDMatches, StageWB, Taken, Cycle, Decodes, Resident, WaitsForResident, Cost, SlotCost,
      FetchCost, PosOk;
    var p' := NextPos(h, m, p);
    NoTrap(a, h, m, p);
    DataSide(m);
    ICacheConfigKept(m);
    if HazardStall(m) && !DStalled(m) { HazardHasOlder(a, h, m, p); }
    SlotsFall(h, m, p, m.iCache.config.missLatency);
    FetchCostChange(a, h, m, p);
    assert PosOk(h, p) && PosOk(h, p');
    UpcomingMoves(h, m, p);
    if Upcoming(p') > Upcoming(p) {
      CostStep(m.iCache.config.missLatency + 7, h + 1 - Upcoming(p));
    }
  }

  lemma UpcomingMoves(h: nat, m: Machine, p: Pos)
    requires PosOk(h, p)
    ensures var p' := NextPos(h, m, p);
            if !DStalled(m) && !HazardStall(m) && p'.inID then Upcoming(p') == Upcoming(p) + 1
            else Upcoming(p') == Upcoming(p)
  {
    hide HazardStall, Taken, Decodes;
  }

  lemma TakenNeedsID(a: Course, h: nat, m: Machine, p: Pos)
    requires Matches(a, h, m, p) && Taken(m) && !HaltBeyondID(h, p)
    ensures p.inID
  {
    hide InstrAt, SeqAt, StateMatches, WBMatches, MEMMatches, EXMatches, CountsMatch, IFMatches, Taken;
    if !p.inID { NothingTakenFromBubble(a, h, m, p); }
  }

  lemma ICacheConfigKept(m: Machine)
    ensures Cycle(m).iCache.config == m.iCache.config
  {
    hide StageWB, StageMEM, StageEX, StageID, OldIdIllegal, Resident, HazardStall, SimIF, TakesBranch, Resolves,
      ResolvedPC, Access;
  }
}
