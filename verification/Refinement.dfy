/** The main results about whole runs: the pipeline reaches HALT within a bounded number of cycles and leaves
    what the reference run leaves, whatever the caches. */
module Refinement {
  import opened Instructions
  import opened LruCache
  import opened SequentialRun
  import opened PipelineSpec
  import opened HazardSafety
  import opened Correspondence
  import opened Stages
  import opened Preservation
  import opened Progress

  /** After `n` cycles HALT is in WB for the first time. */
  ghost predicate FirstHalt(m: Machine, n: nat) {
    && Halted(Run(m, n))
    && forall j: nat :: j < n ==> !Halted(Run(m, j))
  }

  /** `m` shows the results of the reference run that halts at instruction `h`: registers x1 to x31 (every
      register as reads see it), the whole memory, and one retired instruction per non-NOP, HALT included. */
  ghost predicate ShowsResultsOf(a: Course, h: nat, m: Machine) {
    SameRegs(m.regs, SeqAt(a, h).regs) && m.mem == SeqAt(a, h).mem && m.dynRetired == NonNops(a, h + 1)
  }

  /** The idle pipeline over the memory and registers with which the course begins. */
  function StartOf(a: Course, i: Geometry, d: Geometry): Machine {
    Init(SeqAt(a, 0).mem, SeqAt(a, 0).regs, i, d)
  }

  const START: Pos := Pos(0, false, false, false, false, false)

  lemma NopIsInert(status: StageStatus)
    ensures Inert(Nop(status)) && !Nop(status).ctl.isHalt
  {
  }

  lemma InitState(a: Course, i: Geometry, d: Geometry)
    ensures StateMatches(a, StartOf(a, i, d), START)
  {
    hide InstrAt, SeqAt, ReadReg, Empty, Nop;
  }

  lemma InitCounts(a: Course, i: Geometry, d: Geometry)
    ensures CountsMatch(a, StartOf(a, i, d), START)
  {
    hide InstrAt, SeqAt, Empty, Nop;
  }

  lemma InitFetch(a: Course, h: nat, i: Geometry, d: Geometry)
    requires SeqAt(a, 0).pc == 0
    ensures IFMatches(a, h, StartOf(a, i, d), START)
  {
    hide InstrAt, SeqAt, ReadReg, Empty, FetchedRight;
  }

  lemma InitLatches(a: Course, h: nat, i: Geometry, d: Geometry)
    ensures var m := StartOf(a, i, d);
            && WBMatches(a, m, START) && MEMMatches(a, m, START) && EXMatches(a, h, m, START)
            && IDMatches(a, h, m, START)
            && !Halted(m)
  {
    hide InstrAt, SeqAt, Empty, Inert, Nop, Done, ReadyForMEM, Decoded, Fresh;
    NopIsInert(IDLE);
  }

  /** The idle pipeline stands at the start of the run. */
  lemma InitMatches(a: Course, h: nat, i: Geometry, d: Geometry)
    requires SeqAt(a, 0).pc == 0
    ensures Matches(a, h, StartOf(a, i, d), START)
    ensures !Halted(StartOf(a, i, d))
  {
    hide Init, InstrAt, SeqAt, StateMatches, WBMatches, MEMMatches, EXMatches, IDMatches, IFMatches, CountsMatch,
      Halted;
    InitState(a, i, d);
    InitCounts(a, i, d);
    InitFetch(a, h, i, d);
    InitLatches(a, h, i, d);
  }

  lemma InitTiming(a: Course, i: Geometry, d: Geometry)
    ensures var m := StartOf(a, i, d);
            && WaitsForResident(m) && FetchWait(m) <= i.missLatency + 3 && m.dStallLeft == 0
            && m.iCache.config == i && m.dCache.config == d && m.dCache.misses == 0
  {
    hide Resident, Empty;
  }

  lemma StartPotential(h: nat, m: Machine, p: Pos)
    requires m.dStallLeft == 0
    requires p.w == 0 && !p.inWB && !p.inMEM && !p.inEX && !p.inID && !p.held
    ensures PosOk(h, p)
    ensures Potential(h, m, p) == Cost(m.iCache.config.missLatency + 7, h + 1) + FetchWait(m)
  {
    hide Cost, FetchWait;
  }

  /** New misses come from the instruction in EX. */
  lemma MissesComeFromEX(a: Course, h: nat, m: Machine, p: Pos)
    requires RunsToHalt(a, h) && Matches(a, h, m, p) && !HaltLeavesMEM(h, m, p) && (DStalled(m) || !p.inEX)
    ensures Cycle(m).dCache.misses == m.dCache.misses
  {
    hide InstrAt, SeqAt, RunsToHalt, StateMatches, WBMatches, MEMMatches, IFMatches, IDMatches, CountsMatch, Cycle,
      Inert, StageWB, StageMEM;
    NoTrap(a, h, m, p);
    DataSide(m);
    CycleParts(m);
    if !DStalled(m) { MEMStepIdle(m); }
  }

  /** From a matching state the pipeline halts, with the right results, within the time the potential allows. */
  lemma {:induction false} HaltsFrom(a: Course, h: nat, m: Machine, p: Pos) returns (n: nat)
    requires RunsToHalt(a, h) && HazardSafe(a, h) && PosOk(h, p) && Matches(a, h, m, p) && !Halted(m)
    requires HaltBeyondID(h, p) || WaitsForResident(m)
    ensures n > 0 && FirstHalt(m, n) && ShowsResultsOf(a, h, Run(m, n))
    ensures var end := Run(m, n);
            && end.dCache.misses >= m.dCache.misses
            && n <= Potential(h, m, p) + 1 + m.dCache.config.missLatency * (end.dCache.misses - m.dCache.misses)
    decreases h + 1 - AtEX(p), Potential(h, m, p)
  {
    hide InstrAt, SeqAt, RunsToHalt, HazardSafe, Matches, Cycle, Halted, Potential, ShowsResultsOf, NextPos,
      HaltBeyondID, WaitsForResident, HaltLeavesMEM, Run, FirstHalt, PosOk;
    MatchesPos(a, h, m, p);
    if HaltLeavesMEM(h, m, p) {
      n := 1;
      HaltCycle(a, h, m, p);
      OneCycle(m);
      FinalResults(a, h, m);
      LastMisses(a, h, m, p);
    } else {
      CycleMatches(a, h, m, p);
      FetchCostChange(a, h, m, p);
      PotentialFalls(a, h, m, p);
      InstructionsAdvance(a, h, m, p);
      var m', p' := Cycle(m), NextPos(h, m, p);
      MatchesPos(a, h, m', p');
      var k := HaltsFrom(a, h, m', p');
      n := k + 1;
      OneMore(m, k);
      AddMisses(m.dCache.config.missLatency, Run(m', k).dCache.misses - m'.dCache.misses,
          m'.dCache.misses - m.dCache.misses);
    }
  }

  lemma MatchesPos(a: Course, h: nat, m: Machine, p: Pos)
    requires Matches(a, h, m, p)
    ensures PosOk(h, p) && AtEX(p) <= h + 1
  {
    hide StateMatches, WBMatches, MEMMatches, EXMatches, IDMatches, IFMatches, CountsMatch;
  }

  lemma AddMisses(latency: nat, x: nat, y: nat)
    ensures latency * x + latency * y == latency * (x + y)
  {
  }

  lemma OneCycle(m: Machine)
    requires !Halted(m) && Halted(Cycle(m))
    ensures FirstHalt(m, 1) && Run(m, 1) == Cycle(m)
  {
    hide Cycle, Halted;
    assert Run(Cycle(m), 0) == Cycle(m);
    assert Run(m, 0) == m;
  }

  lemma OneMore(m: Machine, k: nat)
    requires !Halted(m) && FirstHalt(Cycle(m), k)
    ensures FirstHalt(m, k + 1) && Run(m, k + 1) == Run(Cycle(m), k)
  {
    hide Cycle, Halted;
    forall j: nat | j < k + 1
      ensures !Halted(Run(m, j))
    {
      if j > 0 { assert Run(m, j) == Run(Cycle(m), j - 1); }
    }
  }

  lemma FinalResults(a: Course, h: nat, m: Machine)
    requires SameRegs(Cycle(m).regs, SeqAt(a, h).regs) && Cycle(m).mem == SeqAt(a, h).mem
    requires Cycle(m).dynRetired == NonNops(a, h + 1)
    ensures ShowsResultsOf(a, h, Cycle(m))
  {
    hide SeqAt, Cycle, NonNops, SameRegs;
  }

  lemma LastMisses(a: Course, h: nat, m: Machine, p: Pos)
    requires RunsToHalt(a, h) && Matches(a, h, m, p) && PosOk(h, p)
    ensures Cycle(m).dCache.misses >= m.dCache.misses
    ensures 1 <= Potential(h, m, p) + 1 + m.dCache.config.missLatency * (Cycle(m).dCache.misses - m.dCache.misses)
  {
    hide InstrAt, SeqAt, RunsToHalt, Matches, Cycle, Potential;
    NoTrap(a, h, m, p);
    DataSide(m);
  }

  /** Either the instruction in EX gets its memory access done, or the potential falls. */
  lemma InstructionsAdvance(a: Course, h: nat, m: Machine, p: Pos)
    requires RunsToHalt(a, h) && Matches(a, h, m, p) && !HaltLeavesMEM(h, m, p)
    requires PosOk(h, NextPos(h, m, p))
    requires Potential(h, Cycle(m), NextPos(h, m, p)) <
             Potential(h, m, p) + m.dCache.config.missLatency * (Cycle(m).dCache.misses - m.dCache.misses)
    ensures PosOk(h, p)
    ensures AtEX(p) < AtEX(NextPos(h, m, p)) || (AtEX(p) == AtEX(NextPos(h, m, p)) &&
              Potential(h, Cycle(m), NextPos(h, m, p)) < Potential(h, m, p))
  {
    hide InstrAt, SeqAt, RunsToHalt, StateMatches, WBMatches, MEMMatches, EXMatches, IFMatches, IDMatches,
      CountsMatch, Cycle, Potential, HazardStall, Decodes, Taken;
    if DStalled(m) || !p.inEX { MissesComeFromEX(a, h, m, p); }
  }

  // ---- the main results --------------------------------------------------------------------------------------

  /** Total correctness: a fault-free, hazard-safe program that HALTs at instruction `h` of the reference run
      brings the pipeline to HALT under every cache configuration, with the results of the reference run, and
      within a time that is linear in the instructions decoded plus the latency of each data-cache miss. */
  lemma PipelineRefinesReference(a: Course, h: nat, i: Geometry, d: Geometry) returns (n: nat)
    requires SeqAt(a, 0).pc == 0 && RunsToHalt(a, h) && HazardSafe(a, h)
    ensures var end := Run(StartOf(a, i, d), n);
            && n > 0 && FirstHalt(StartOf(a, i, d), n)
            && ShowsResultsOf(a, h, end)
            && n <= (i.missLatency + 7) * (h + 1) + i.missLatency + 4 + d.missLatency * end.dCache.misses
  {
    hide Init, RunsToHalt, HazardSafe, Matches, Run, FirstHalt, ShowsResultsOf, Potential, WaitsForResident, PosOk,
      FetchWait;
    InitMatches(a, h, i, d);
    InitTiming(a, i, d);
    StartPotential(h, StartOf(a, i, d), START);
    n := HaltsFrom(a, h, StartOf(a, i, d), START);
  }

  lemma FirstHaltIsUnique(m: Machine, n: nat, k: nat)
    requires FirstHalt(m, n) && FirstHalt(m, k)
    ensures n == k
  {
    hide Run, Halted;
  }

  /** Any run of the pipeline that is stopped by HALT shows the results of the reference run. */
  lemma ResultsAtHalt(a: Course, h: nat, i: Geometry, d: Geometry, n: nat)
    requires SeqAt(a, 0).pc == 0 && RunsToHalt(a, h) && HazardSafe(a, h)
    requires FirstHalt(StartOf(a, i, d), n)
    ensures ShowsResultsOf(a, h, Run(StartOf(a, i, d), n))
  {
    hide Init, RunsToHalt, HazardSafe, Run, ShowsResultsOf, Halted;
    var k := PipelineRefinesReference(a, h, i, d);
    FirstHaltIsUnique(StartOf(a, i, d), n, k);
  }

  /** Timing independence: caches change when a hazard-safe program halts, not what it leaves. */
  lemma TimingIndependence(a: Course, h: nat, i: Geometry, d: Geometry, n: nat, i': Geometry, d': Geometry, n': nat)
    requires SeqAt(a, 0).pc == 0 && RunsToHalt(a, h) && HazardSafe(a, h)
    requires FirstHalt(StartOf(a, i, d), n) && FirstHalt(StartOf(a, i', d'), n')
    ensures var m, m' := Run(StartOf(a, i, d), n), Run(StartOf(a, i', d'), n');
            SameRegs(m.regs, m'.regs) && m.mem == m'.mem && m.dynRetired == m'.dynRetired
  {
    hide Init, RunsToHalt, HazardSafe, Run, FirstHalt, ReadReg, SeqAt;
    ResultsAtHalt(a, h, i, d, n);
    ResultsAtHalt(a, h, i', d', n');
  }
}
