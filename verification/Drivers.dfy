/** The run loops: `runInstructions` and `runTillHalt` of src/funct.cpp, and `runTillHalt` of src/cycle.cpp. */
module Drivers {
  import opened Utilities
  import opened Instructions
  import opened SequentialRun
  import opened PipelineSpec
  import opened HazardSafety
  import opened Refinement
  import opened LruCache
  import Simulators
  import Pipelines

  /** The functional simulator: `simInstruction` from one PC to the next. */
  class Functional {
    const simulator: Simulators.Simulator
    var PC: Word

    ghost predicate Valid() {
      simulator.Valid()
    }

    ghost function Repr(): set<object> {
      {this, simulator, simulator.registers, simulator.memory.memArr}
    }

    /** `din` instructions of the reference run from `a` have been executed. */
    ghost predicate At(a: Course)
      requires Valid()
      reads Repr()
    {
      simulator.Arch(PC) == SeqAt(a, simulator.din)
    }

    constructor (sim: Simulators.Simulator)
      requires sim.Valid() && sim.din == 0
      ensures Valid() && simulator == sim && PC == 0
      ensures forall a: Course :: SeqAt(a, 0) == sim.Arch(0) ==> At(a)
    {
      simulator := sim;
      PC := 0;
    }

    /** `runInstructions`: it stops behind HALT or an illegal word; 0 means no limit. */
    method RunInstructions(instructions: nat, ghost a: Course) returns (status: Pipelines.Status)
      requires Valid() && Follows(a) && At(a)
               && (instructions == 0 ==> exists k :: k >= simulator.din && Stops(InstrAt(a, k)))
      modifies Repr()
      ensures At(a) && old(simulator.din) < simulator.din
      ensures forall k: nat :: old(simulator.din) <= k < simulator.din - 1 ==> !Stops(InstrAt(a, k))
      ensures status == StatusOf(InstrAt(a, simulator.din - 1))
      ensures instructions > 0 ==> simulator.din <= old(simulator.din) + instructions
      ensures status == Pipelines.SUCCESS ==> simulator.din == old(simulator.din) + instructions
    {
      hide SimInstruction;
      var numInstructions := 0;
      status := Pipelines.SUCCESS;
      ghost var start := simulator.din;
      ghost var end := start + instructions - 1;
      if instructions == 0 { end :| end >= start && Stops(InstrAt(a, end)); }
      while instructions == 0 || numInstructions < instructions
        invariant At(a) && simulator.din == start + numInstructions && start <= end
        invariant numInstructions <= end + 1 - start
        invariant forall k: nat :: start <= k < simulator.din ==> !Stops(InstrAt(a, k))
        decreases end + 1 - start - numInstructions
      {
        ghost var k := simulator.din;
        var inst := simulator.SimInstruction(PC);
        assert inst == InstrAt(a, k);
        numInstructions := numInstructions + 1;
        PC := inst.nextPC;
        assert simulator.Arch(PC) == SeqAt(a, k + 1);
        if inst.ctl.isHalt {
          return Pipelines.HALT;
        }
        if !inst.ctl.isLegal {
          return Pipelines.ERROR;
        }
      }
    }

    /** `runTillHalt`: it ends behind the first HALT or illegal word, whether or not accesses fault before it. */
    method RunTillHalt(ghost a: Course) returns (status: Pipelines.Status)
      requires Valid() && Follows(a) && At(a) && exists k :: k >= simulator.din && Stops(InstrAt(a, k))
      modifies Repr()
      ensures At(a) && old(simulator.din) < simulator.din
      ensures forall k: nat :: old(simulator.din) <= k < simulator.din - 1 ==> !Stops(InstrAt(a, k))
      ensures Stops(InstrAt(a, simulator.din - 1)) && status == StatusOf(InstrAt(a, simulator.din - 1))
      ensures forall h :: old(simulator.din) <= h && RunsToHalt(a, h) ==>
                status == Pipelines.HALT && simulator.din == h + 1
    {
      hide SeqAt, InstrAt, RunsToHalt;
      ghost var start := simulator.din;
      ghost var end :| end >= start && Stops(InstrAt(a, end));
      status := Pipelines.SUCCESS;
      while true
        invariant At(a) && start <= simulator.din <= end
        invariant forall k: nat :: start <= k < simulator.din ==> !Stops(InstrAt(a, k))
        decreases end - simulator.din
      {
        status := RunInstructions(1, a);
        if status == Pipelines.HALT || status == Pipelines.ERROR {
          break;
        }
      }
      forall h | start <= h && RunsToHalt(a, h)
        ensures simulator.din == h + 1 && InstrAt(a, h).ctl.isHalt
      {
        HaltsOnlyAt(a, h);
      }
    }
  }

  /** What ends the functional simulation. */
  predicate Stops(x: Instruction) { x.ctl.isHalt || !x.ctl.isLegal }

  function StatusOf(x: Instruction): Pipelines.Status {
    if x.ctl.isHalt then Pipelines.HALT else if x.ctl.isLegal then Pipelines.SUCCESS else Pipelines.ERROR
  }

  lemma HaltsOnlyAt(a: Course, h: nat)
    requires RunsToHalt(a, h)
    ensures InstrAt(a, h).ctl.isHalt && forall k: nat :: k < h ==> !Stops(InstrAt(a, k))
  {
    hide InstrAt;
    forall k: nat | k < h ensures !Stops(InstrAt(a, k)) { assert Proceeds(InstrAt(a, k)); }
  }

  /** `runTillHalt` of the cycle simulator terminates on a fault-free, hazard-safe program, with the registers,
      the memory and the instruction count of the reference run. */
  method RunTillHalt(p: Pipelines.Pipeline, ghost a: Course, ghost h: nat, ghost i: Geometry, ghost d: Geometry)
      returns (status: Pipelines.Status)
    requires p.Valid() && SeqAt(a, 0).pc == 0 && p.State() == StartOf(a, i, d)
    requires RunsToHalt(a, h) && HazardSafe(a, h)
    modifies p.Repr()
    ensures status == Pipelines.HALT && ShowsResultsOf(a, h, p.State())
  {
    hide RunsToHalt, HazardSafe, ShowsResultsOf, Init, Run, Halted, Cycle;
    ghost var m := p.State();
    ghost var n := PipelineRefinesReference(a, h, i, d);
    ghost var count := 0;
    RunZero(m);
    status := Pipelines.SUCCESS;
    while true
      invariant p.State() == Run(m, count) && count < n
      decreases n - count
    {
      ghost var done;
      status, done := p.RunCycles(1);
      RunZero(Run(m, count));
      RunStep(Run(m, count), 0);
      RunStep(m, count);
      count := count + 1;
      if status == Pipelines.HALT {
        assert count == n by { StopsAtFirstHalt(m, n, count); }
        break;
      }
    }
  }

  lemma StopsAtFirstHalt(m: Machine, n: nat, k: nat)
    requires FirstHalt(m, n) && k <= n && Halted(Run(m, k))
    ensures k == n
  {
    hide Run, Halted;
  }
}
