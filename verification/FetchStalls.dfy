/** The exact timing of instruction fetches: when the instruction cache is accessed, how long a miss keeps IF empty, and
    what the episode adds to the counters of the cache. */
module FetchStalls {
  import opened Utilities
  import opened Memory
  import opened Instructions
  import opened LruCache
  import opened PipelineSpec
  import opened Correspondence
  import opened Ledgers
  import opened Liveness

  /** A trap, an illegal word or a taken branch sends IF elsewhere in this cycle. */
  predicate Redirects(m: Machine) {
    StageWB(m).trap || RaisesIllegal(m) || Taken(m)
  }

  function Accesses(c: Cache): nat { c.hits + c.misses }

  /** IF accesses the instruction cache in this cycle: in every redirection, and otherwise when nothing holds it,
      unless the cycle before was one of pure waiting. */
  predicate AccessesNow(m: Machine) {
    Redirects(m) || (!DStalled(m) && !HazardStall(m) && !IStalled(m) && !m.justFinishedIStall)
  }

  /** When the instruction cache is accessed and where: once at most, at the address IF shows afterwards. */
  lemma FetchesAccess(m: Machine)
    ensures var m' := Cycle(m);
            && m'.iCache == (if AccessesNow(m) then Access(m.iCache, m'.ifL.pc) else m.iCache)
            && Accesses(m'.iCache) == Accesses(m.iCache) + Bit(AccessesNow(m))
  {
    hide Cycle, StageMEM, StageWB, NewID, RaisesIllegal, Taken, HazardStall, BranchDataStall, Resident, Access,
      FetchWord, Nop, Next;
    var target := FetchOfCycle(m);
  }

  // ---- one cycle ---------------------------------------------------------------------------------------------

  /** A fetch that the cache does not serve in this cycle; behind an illegal word nothing waits for the access. */
  predicate MissesFetch(m: Machine) {
    Cycle(m).iCache.misses > m.iCache.misses && (StageWB(m).trap || !RaisesIllegal(m))
  }

  /** A fetch that the cache serves at once. */
  predicate HitsFetch(m: Machine) {
    Cycle(m).iCache.hits > m.iCache.hits && (StageWB(m).trap || !RaisesIllegal(m))
  }

  /** IF is empty and shows that it waits for the word at `pc`, whose block has arrived in the cache, for `left` more
      cycles. */
  predicate Awaits(m: Machine, pc: Word, left: nat) {
    !Live(m.ifL) && m.ifL.pc == pc && m.pc == pc && m.iStallLeft == left && Resident(m.iCache, pc)
  }

  /** A miss starts a wait of the whole latency; a hit ends all waiting. */
  lemma FetchStarts(m: Machine)
    requires FetchSound(m)
    ensures var m' := Cycle(m);
            && (MissesFetch(m) ==>
                  Awaits(m', m'.pc, m.iCache.config.missLatency) && !m'.justFinishedIStall
                  && m'.iCache.misses == m.iCache.misses + 1 && m'.iCache.hits == m.iCache.hits)
            && (HitsFetch(m) ==> Live(m'.ifL) && m'.iStallLeft == 0 && m'.pc == Next(m'.ifL.pc))
            && m'.iCache.config == m.iCache.config
  {
    hide Cycle, StageMEM, StageWB, NewID, RaisesIllegal, Taken, HazardStall, BranchDataStall, Resident, Access,
      FetchWord, Next;
    var target := FetchOfCycle(m);
    AccessCounts(m.iCache, m.pc);
    AccessCounts(m.iCache, target);
    AccessMakesResident(m.iCache, m.pc);
    AccessMakesResident(m.iCache, target);
  }

  /** A cycle of a wait: it goes on while cycles are left or a hazard holds IF; then the word arrives, with a second
      access to the cache unless a D-stall freezes IF or the cycle before has just waited, undisturbed. */
  lemma WaitGoesOn(m: Machine)
    requires Awaits(m, m.pc, m.iStallLeft) && !Redirects(m)
    ensures var m' := Cycle(m);
            if IStalled(m) || HazardStall(m) then
              && Awaits(m', m.pc, Dec(m.iStallLeft)) && m'.iCache == m.iCache
              && m'.justFinishedIStall == (IStalled(m) && !DStalled(m) && !HazardStall(m))
            else
              && Live(m'.ifL) && m'.ifL.pc == m.pc && m'.pc == Next(m.pc) && m'.iStallLeft == 0
              && m'.iCache.misses == m.iCache.misses
              && m'.iCache.hits == m.iCache.hits + Bit(!DStalled(m) && !m.justFinishedIStall)
  {
    hide Cycle, StageMEM, StageWB, NewID, RaisesIllegal, Taken, HazardStall, BranchDataStall, Resident, Access,
      FetchWord, Next;
    var target := FetchOfCycle(m);
    AccessCounts(m.iCache, m.pc);
    HoldsOneThing(m);
  }

  lemma HoldsOneThing(m: Machine)
    ensures HazardStall(m) ==> !DStalled(m)
  {
  }

  // ---- the whole wait ----------------------------------------------------------------------------------------

  /** The results of the cycles in which IF is empty after a miss, if nothing else holds it. */
  function Empties(latency: nat): nat { if latency == 0 then 1 else latency }

  /** The miss of the cycle from `m` is still outstanding after `n` cycles: nothing has redirected IF, and only hazards
      have followed the cycles of the latency. */
  predicate StillOut(m: Machine, n: nat) {
    && MissesFetch(m)
    && (forall j: nat :: 1 <= j < n ==> !Redirects(Run(m, j)))
    && (forall j: nat :: Empties(m.iCache.config.missLatency) <= j < n ==> HazardStall(Run(m, j)))
  }

  /** The cycle after which `n` cycles have passed was one of pure waiting. */
  predicate JustWaited(m: Machine, n: nat) {
    && 2 <= n <= m.iCache.config.missLatency
    && !DStalled(Run(m, n - 1)) && !HazardStall(Run(m, n - 1))
  }

  /** A miss keeps IF empty, waiting for the missed address, for exactly its latency (at least for one cycle), and
      beyond it only while hazards hold IF; D-stalls and hazards do not lengthen the latency.  The cache is not
      accessed. */
  lemma {:induction false} MissKeepsIFEmpty(m: Machine, n: nat)
    requires FetchSound(m) && n >= 1 && StillOut(m, n)
    ensures var m' := Run(m, n);
            var latency := m.iCache.config.missLatency;
            && Awaits(m', Cycle(m).pc, if n <= latency then latency + 1 - n else 0)
            && m'.iCache == Cycle(m).iCache
            && m'.iCache.misses == m.iCache.misses + 1 && m'.iCache.hits == m.iCache.hits
            && m'.justFinishedIStall == JustWaited(m, n)
  {
    hide Cycle, FetchSound, MissesFetch, Redirects, HazardStall, Resident;
    if n == 1 {
      RunZero(Cycle(m));
      FetchStarts(m);
    } else {
      MissKeepsIFEmpty(m, n - 1);
      RunStep(m, n - 1);
      WaitGoesOn(Run(m, n - 1));
    }
  }

  /** The wait ends with the missed word in IF in the first cycle after the latency in which no hazard holds IF.  The
      episode counts one miss; it counts a hit as well unless the wait has ended in a D-stall or right behind a cycle of
      pure waiting, so always when the latency is 0 or 1. */
  lemma MissEnds(m: Machine, n: nat)
    requires FetchSound(m) && n >= Empties(m.iCache.config.missLatency) && StillOut(m, n)
    requires !Redirects(Run(m, n)) && !HazardStall(Run(m, n))
    ensures var m' := Run(m, n + 1);
            && Live(m'.ifL) && m'.ifL.pc == Cycle(m).pc && m'.pc == Next(Cycle(m).pc) && m'.iStallLeft == 0
            && m'.iCache.misses == m.iCache.misses + 1
            && m'.iCache.hits == m.iCache.hits + Bit(!DStalled(Run(m, n)) && !JustWaited(m, n))
  {
    hide Cycle, FetchSound, Redirects, HazardStall, Resident, Next, StageWB, RaisesIllegal, JustWaited;
    MissKeepsIFEmpty(m, n);
    RunStep(m, n);
    WaitGoesOn(Run(m, n));
    FetchStarts(m);
  }

  /** The same when neither a D-stall nor a hazard intervenes: IF is empty for exactly the latency, at least for one
      cycle, and the accesses are one with a latency of two or more, two with a shorter one. */
  lemma MissAlone(m: Machine)
    requires FetchSound(m) && MissesFetch(m)
    requires forall j: nat :: 1 <= j <= Empties(m.iCache.config.missLatency) ==>
               !Redirects(Run(m, j)) && !DStalled(Run(m, j)) && !HazardStall(Run(m, j))
    ensures forall k: nat :: 1 <= k <= Empties(m.iCache.config.missLatency) ==> !Live(Run(m, k).ifL)
    ensures var m' := Run(m, Empties(m.iCache.config.missLatency) + 1);
            && Live(m'.ifL) && m'.ifL.pc == Cycle(m).pc
            && Accesses(m'.iCache) == Accesses(m.iCache) + (if m.iCache.config.missLatency >= 2 then 1 else 2)
  {
    hide Cycle, FetchSound, MissesFetch, Redirects, HazardStall, Resident, Run, DStalled;
    var last := Empties(m.iCache.config.missLatency);
    forall k: nat | 1 <= k <= last
      ensures !Live(Run(m, k).ifL)
    {
      MissKeepsIFEmpty(m, k);
    }
    MissEnds(m, last);
  }

  // ---- the cold start ----------------------------------------------------------------------------------------

  /** Nothing is in the pipeline. */
  predicate Cold(m: Machine) {
    && Shaped(m) && FetchSound(m) && !DStalled(m)
    && !Live(m.ifL) && !Live(m.idL) && !Live(m.exL) && !Live(m.memL)
  }

  lemma ColdIsQuiet(m: Machine)
    requires Cold(m)
    ensures !HazardStall(m) && !Taken(m) && !StageWB(m).trap && !Redirects(m)
  {
    hide StageWB, Taken, Decodes, NewID, FetchSound, RaisesIllegal;
    TakenNeedsLiveID(m);
    IllegalCases(m);
    NewWBCases(m);
    DecodesLiveWord(m);
  }

  /** As long as IF is empty, an empty pipeline stays so. */
  lemma StaysCold(m: Machine)
    requires Cold(m)
    ensures !Live(Cycle(m).ifL) ==> Cold(Cycle(m))
  {
    hide Cycle, StageMEM, StageWB, NewID, Taken, HazardStall, Nop, StageEX, NewMEM, Redirects, FetchSound, Shaped,
      MissesNow;
    ColdIsQuiet(m);
    CycleLatches(m);
    ShapeKept(m); FetchSoundKept(m);
    NewIDCases(m); NewEXCases(m); NewMEMCases(m);
    DecodesLiveWord(m);
    NewDataStall(m);
    NopShape(BUBBLE);
  }

  /** A miss of an empty pipeline. */
  lemma ColdEnds(m: Machine, latency: nat, last: nat)
    requires Cold(m) && MissesFetch(m) && latency == m.iCache.config.missLatency && last == Empties(latency)
    ensures forall k: nat :: k <= last ==> !Live(Run(m, k).ifL)
    ensures var m' := Run(m, last + 1);
            && Live(m'.ifL) && m'.ifL.pc == Cycle(m).pc && m'.pc == Next(Cycle(m).pc)
            && m'.iCache.misses == m.iCache.misses + 1 && m'.iCache.hits == m.iCache.hits + Bit(latency < 2)
  {
    hide Cycle, FetchSound, Shaped, StillOut, MissesFetch, Redirects, HazardStall, DStalled, Run, Next, Live;
    forall k: nat | k <= last
      ensures !Live(Run(m, k).ifL)
    {
      ColdWait(m, k);
    }
    ColdWait(m, last);
    ColdWait(m, last - 1);
    ColdIsQuiet(Run(m, last));
    ColdIsQuiet(Run(m, last - 1));
    MissEnds(m, last);
  }

  /** Every run begins with a miss at address 0: IF shows nothing in the results of the first cycles, one for each cycle
      of the latency and at least one, and the first word of the program right after them. */
  lemma ColdStart(mem: Mem, regs: Regs, i: Geometry, d: Geometry)
    ensures var m := Init(mem, regs, i, d);
            && (forall k: nat :: k <= Empties(i.missLatency) ==> !Live(Run(m, k).ifL))
            && var m' := Run(m, Empties(i.missLatency) + 1);
               && Live(m'.ifL) && m'.ifL.pc == 0 && m'.pc == 4
               && m'.iCache.misses == 1 && m'.iCache.hits == (if i.missLatency >= 2 then 0 else 1)
  {
    hide Cycle, Cold, MissesFetch, Run, Init, Next, Live;
    FirstMiss(mem, regs, i, d);
    ColdEnds(Init(mem, regs, i, d), i.missLatency, Empties(i.missLatency));
  }

  lemma FirstMiss(mem: Mem, regs: Regs, i: Geometry, d: Geometry)
    ensures var m := Init(mem, regs, i, d);
            && Cold(m) && MissesFetch(m) && Cycle(m).pc == 0 && Next(0) == 4
            && m.iCache.config == i && m.iCache.misses == 0 && m.iCache.hits == 0
  {
    hide Cycle, StageMEM, StageWB, NewID, RaisesIllegal, Taken, HazardStall, BranchDataStall, Access, FetchWord, Nop,
      Index, Tag, FetchSound, Shaped;
    var m := Init(mem, regs, i, d);
    StartsCold(mem, regs, i, d);
    ColdIsQuiet(m);
    var target := FetchOfCycle(m);
    AccessCounts(m.iCache, 0);
  }

  lemma StartsCold(mem: Mem, regs: Regs, i: Geometry, d: Geometry)
    ensures Cold(Init(mem, regs, i, d))
  {
    hide Empty;
  }

  /** Until the first word arrives nothing else happens. */
  lemma {:induction false} ColdWait(m: Machine, k: nat)
    requires Cold(m) && MissesFetch(m) && k <= Empties(m.iCache.config.missLatency)
    ensures Cold(Run(m, k)) && !Live(Run(m, k).ifL) && StillOut(m, k)
  {
    hide Cycle, FetchSound, Shaped, Redirects, HazardStall, DStalled, Resident, MissesFetch;
    RunZero(m);
    if k > 0 {
      ColdWait(m, k - 1);
      ColdIsQuiet(Run(m, k - 1));
      RunStep(m, k - 1);
      MissKeepsIFEmpty(m, k);
      StaysCold(Run(m, k - 1));
    }
  }
}
