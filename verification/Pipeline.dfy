/** The simulator loop of src/cycle.cpp: five latches, the PC, stall counters and statistics, updated cycle by
    cycle. */
module Pipelines {
  import opened Utilities
  import opened Memory
  import opened MemoryStores
  import opened Instructions
  import opened PipelineSpec
  import L = LruCache
  import Simulators
  import Caches

  datatype Status = SUCCESS | ERROR | HALT

  class Pipeline {
    const simulator: Simulators.Simulator
    const iCache: Caches.Cache
    const dCache: Caches.Cache
    var ifInst: Instruction
    var idInst: Instruction
    var exInst: Instruction
    var memInst: Instruction
    var wbInst: Instruction
    var PC: Word
    var squashNextIF: bool
    var iStallLeft: nat
    var dStallLeft: nat
    var justFinishedIStall: bool
    var cycleCount: nat
    var dynRetired: nat
    var loadUseStallCount: nat

    ghost predicate Valid() {
      && simulator.Valid() && iCache.Valid() && dCache.Valid()
      && iCache != dCache && iCache.sets != dCache.sets
    }

    /** Everything a cycle may change. */
    ghost function Repr(): set<object> {
      {this, simulator, simulator.registers, simulator.memory.memArr, iCache, iCache.sets, dCache, dCache.sets}
    }

    ghost function State(): Machine
      requires Valid()
      reads Repr()
    {
      Machine(simulator.Regs(), simulator.memory.State(), simulator.Counters(), iCache.State(), dCache.State(),
        ifInst, idInst, exInst, memInst, wbInst,
        PC, squashNextIF, iStallLeft, dStallLeft, justFinishedIStall,
        cycleCount, dynRetired, loadUseStallCount)
    }

    /** `initSimulator`. */
    constructor (iCacheConfig: L.Geometry, dCacheConfig: L.Geometry, mem: MemoryStore)
      requires mem.Valid()
      ensures Valid() && fresh(Repr() - {mem.memArr})
      ensures State() == Init(mem.State(), seq(32, _ => 0), iCacheConfig, dCacheConfig)
    {
      simulator := new Simulators.Simulator(mem);
      iCache := new Caches.Cache(iCacheConfig);
      dCache := new Caches.Cache(dCacheConfig);
      ifInst, idInst, exInst, memInst, wbInst := Nop(IDLE), Nop(IDLE), Nop(IDLE), Nop(IDLE), Nop(IDLE);
      PC, squashNextIF, iStallLeft, dStallLeft, justFinishedIStall := 0, false, 0, 0, false;
      cycleCount, dynRetired, loadUseStallCount := 0, 0, 0;
    }

    /** MEM -> WB: retire the instruction in MEM, or notice that it faulted. */
    method WriteBack(ghost m: Machine, dStallActive: bool) returns (newWB: Instruction, trap: bool, nextPC: Word)
      requires Valid() && dStallActive == DStalled(m) && memInst == m.memL && PC == m.pc
      requires simulator.Regs() == m.regs && dynRetired == m.dynRetired
      modifies simulator.registers, this`dynRetired
      ensures var o := StageWB(m);
              newWB == o.latch && trap == o.trap && nextPC == o.nextPC && simulator.Regs() == o.regs
                  && dynRetired == o.retired
    {
      hide SimWB;
      trap := false;
      nextPC := Next(PC);
      if dStallActive {
        newWB := Nop(BUBBLE);
      } else if !memInst.ctl.isNop && memInst.fault {
        trap := true;
        nextPC := EXCEPTION_HANDLER;
        newWB := Nop(SQUASHED);
      } else {
        newWB := simulator.SimWB(memInst);
        if newWB.ctl.isNop {
          newWB := newWB.(status := memInst.status);
        }
        if !newWB.ctl.isNop && newWB.ctl.isLegal && !newWB.fault {
          dynRetired := dynRetired + 1;
        }
        if !newWB.ctl.isLegal || newWB.fault {
          trap := true;
          nextPC := newWB.nextPC;
        }
      }
    }

    /** EX -> MEM with the data-cache access; a miss starts a D-stall. */
    method AccessMemory(ghost m: Machine, dStallActive: bool) returns (newMEM: Instruction)
      requires Valid() && dStallActive == DStalled(m) && memInst == m.memL && exInst == m.exL && wbInst == m.wbL
      requires simulator.memory.State() == m.mem && dCache.State() == m.dCache && dStallLeft == Dec(m.dStallLeft)
      modifies simulator.memory.memArr, dCache`hits, dCache`misses, dCache`globalLRUCounter, dCache.sets,
          this`dStallLeft
      ensures var o := StageMEM(m);
              newMEM == o.latch && simulator.memory.State() == o.mem && dCache.State() == o.dCache
                  && dStallLeft == o.dStallLeft
    {
      hide SimMEM, SimAddrGen, L.Access, L.Resident;
      if dStallActive {
        newMEM := memInst;
      } else if !exInst.ctl.isNop && exInst.status != SQUASHED {
        var memInput := WithStoreData(exInst, wbInst);
        MEMKeepsControl(memInput, m.mem);
        MEMKeepsControl(SimAddrGen(memInput), m.mem);
        if memInput.ctl.readsMem || memInput.ctl.writesMem {
          memInput := SimAddrGen(memInput);
          newMEM := simulator.SimMEM(memInput);
          if !newMEM.fault && newMEM.ctl.isLegal {
            var dHit := dCache.Access(memInput.addr);
            if !dHit {
              dStallLeft := dCache.config.missLatency;
            }
          }
        } else {
          newMEM := simulator.SimMEM(memInput);
        }
        if newMEM.ctl.isNop {
          newMEM := newMEM.(status := exInst.status);
        }
      } else {
        newMEM := Nop(exInst.status);
      }
    }

    /** IF: fetch, redirect, or wait for the instruction cache. */
    method Fetch(ghost m: Machine, newID: Instruction, trap: bool, illegal: bool, taken: bool, nextPC: Word,
                 dStallActive: bool, iStallActive: bool, hazardStall: bool, branchDataStall: bool)
        returns (newIF: Instruction)
      requires Valid() && dStallActive == DStalled(m) && iStallActive == IStalled(m) && hazardStall == HazardStall(m)
      requires branchDataStall == BranchDataStall(m) && ifInst == m.ifL && PC == m.pc
      requires iCache.State() == m.iCache
               && iStallLeft == (if taken && !trap && !illegal && !m.squashNextIF then 0 else Dec(m.iStallLeft))
      requires justFinishedIStall == m.justFinishedIStall && !squashNextIF
      modifies iCache`hits, iCache`misses, iCache`globalLRUCounter, iCache.sets, this`PC, this`iStallLeft,
          this`squashNextIF,
        this`justFinishedIStall
      ensures var o := StageIF(m, simulator.memory.State(), newID, trap, illegal, taken, nextPC);
              && newIF == o.latch && PC == o.pc && iCache.State() == o.iCache && iStallLeft == o.iStallLeft
              && squashNextIF == o.squashNextIF && justFinishedIStall == o.justFinishedIStall
    {
      hide SimIF, L.Access, L.Resident, HazardStall, BranchDataStall;
      newIF := Nop(IDLE);
      if trap {
        iStallLeft := 0;
        var iHit := iCache.Access(nextPC);
        if !iHit {
          iStallLeft := iCache.config.missLatency;
          newIF := newIF.(pc := nextPC, status := NORMAL);
          PC := nextPC;
        } else {
          newIF := simulator.SimIF(nextPC);
          PC := Next(nextPC);
        }
        justFinishedIStall := false;
      } else if illegal {
        var iHit := iCache.Access(PC);
        newIF := newIF.(pc := PC, status := NORMAL);
        squashNextIF := true;
        PC := nextPC;
        justFinishedIStall := false;
      } else if taken {
        var iHit := iCache.Access(nextPC);
        if !iHit {
          iStallLeft := iCache.config.missLatency;
          newIF := newIF.(pc := nextPC);
          PC := nextPC;
        } else {
          newIF := simulator.SimIF(nextPC);
          PC := Next(nextPC);
        }
        justFinishedIStall := false;
      } else if dStallActive {
        if iStallActive {
          newIF := newIF.(pc := PC, status := NORMAL);
        } else if ifInst.ctl.isNop {
          newIF := simulator.SimIF(PC);
          PC := Next(PC);
        } else {
          newIF := ifInst;
        }
        justFinishedIStall := false;
      } else if hazardStall {
        if iStallActive {
          newIF := newIF.(pc := PC, status := NORMAL);
        } else {
          newIF := ifInst;
          if branchDataStall {
            newIF := newIF.(status := SPECULATIVE);
          }
        }
        justFinishedIStall := false;
      } else if iStallActive {
        newIF := newIF.(pc := PC, status := NORMAL);
        justFinishedIStall := true;
      } else if justFinishedIStall {
        newIF := simulator.SimIF(PC);
        PC := Next(PC);
        justFinishedIStall := false;
      } else {
        var iHit := iCache.Access(PC);
        if !iHit {
          iStallLeft := iCache.config.missLatency;
          newIF := newIF.(pc := PC, status := NORMAL);
        } else {
          newIF := simulator.SimIF(PC);
          PC := Next(PC);
          if !newID.ctl.isNop && IsControlFlow(newID.ctl) {
            newIF := newIF.(status := SPECULATIVE);
          }
        }
        justFinishedIStall := false;
      }
    }

    /** IF -> ID, unless ID is held or squashed. */
    method Decode(ghost m: Machine, hold: bool, squash: bool, taken: bool, iStallActive: bool)
        returns (newID: Instruction, illegal: bool)
      requires Valid() && hold == (DStalled(m) || HazardStall(m)) && squash == m.squashNextIF
               && iStallActive == IStalled(m)
      requires ifInst == m.ifL && idInst == m.idL && simulator.Counters() == m.counters
      modifies simulator`din, simulator`countDin
      ensures var o := StageID(m, simulator.Regs(), taken);
              newID == o.latch && illegal == o.illegal && simulator.Counters() == o.counters
    {
      hide SimID, HazardStall;
      illegal := false;
      if hold {
        newID := idInst;
      } else if squash {
        newID := Nop(SQUASHED);
      } else if taken {
        newID := Nop(SQUASHED);
      } else if iStallActive {
        newID := Nop(BUBBLE);
      } else if ifInst.ctl.isNop {
        newID := Nop(if ifInst.status == IDLE then IDLE else BUBBLE);
      } else {
        newID := simulator.SimID(ifInst);
        illegal := !newID.ctl.isLegal || (newID.word == 0 && !newID.ctl.isNop && !newID.ctl.isHalt);
      }
    }

    /** ID -> EX with forwarding from the instructions in EX, MEM and WB. */
    method Execute(ghost m: Machine, dStallActive: bool, hazardStall: bool) returns (newEX: Instruction)
      requires dStallActive == DStalled(m) && hazardStall == HazardStall(m)
      requires idInst == m.idL && exInst == m.exL && memInst == m.memL && wbInst == m.wbL
      ensures newEX == StageEX(m)
    {
      hide HazardStall, Forward, SimEX;
      if dStallActive {
        newEX := exInst;
      } else if !idInst.ctl.isNop && !idInst.ctl.isLegal {
        newEX := Nop(SQUASHED);
      } else if hazardStall {
        newEX := Nop(BUBBLE);
      } else {
        var exInput := Forward(idInst, ALUSource(exInst), Completed(memInst), Completed(wbInst));
        newEX := SimEX(exInput);
        if newEX.ctl.isNop {
          newEX := newEX.(status := idInst.status);
        }
      }
    }

    /** Resolution of the control-flow instruction in ID with freshly forwarded operands. */
    method Resolve(ghost m: Machine, newMEM: Instruction, newWB: Instruction, dStallActive: bool, advances: bool,
                   idIllegal: bool, trap: bool, ghost w: WbOut)
        returns (resolved: bool, branchTaken: bool, target: Word)
      requires dStallActive == DStalled(m) && advances == (!HazardStall(m) && !DStalled(m))
               && idIllegal == OldIdIllegal(m)
      requires idInst == m.idL && wbInst == m.wbL && w.latch == newWB && w.trap == trap
      ensures resolved == Resolves(m, trap) && branchTaken == TakesBranch(m, newMEM, w)
      ensures resolved ==> target == ResolvedPC(m, newMEM, newWB)
    {
      hide HazardStall, Forward, OldIdIllegal, NextPC;
      var idEval := idInst;
      if !dStallActive && !idInst.ctl.isNop {
        idEval := Forward(idInst, Completed(newMEM), Completed(newWB), Completed(wbInst));
      }
      ForwardKeeps(idInst, Completed(newMEM), Completed(newWB), Completed(wbInst));
      resolved, branchTaken, target := false, false, 0;
      if advances && !idIllegal && !trap && !idInst.ctl.isNop && IsControlFlow(idEval.ctl) {
        resolved := true;
        target := SimNextPCResolution(idEval).nextPC;
        branchTaken := target != Next(idEval.pc);
      }
    }

    /** ID of a cycle: exceptions, branch resolution, decoding, and where to fetch if redirected. */
    method ResolveAndDecode(ghost m: Machine, ghost w: WbOut, ghost e: MemOut, newWB: Instruction, wbMemException: bool,
                            wbNextPC: Word, newMEM: Instruction, applyDeferredSquash: bool, dStallActive: bool,
                            iStallActive: bool, hazardStall: bool)
        returns (newID: Instruction, idIllegalException: bool, branchTaken: bool, nextPC: Word)
      requires Valid() && w.latch == newWB && w.trap == wbMemException && w.nextPC == wbNextPC
               && w.regs == simulator.Regs()
      requires e.latch == newMEM && applyDeferredSquash == m.squashNextIF
      requires dStallActive == DStalled(m) && iStallActive == IStalled(m) && hazardStall == HazardStall(m)
      requires ifInst == m.ifL && idInst == m.idL && wbInst == m.wbL && simulator.Counters() == m.counters
      modifies simulator`din, simulator`countDin
      ensures branchTaken == TakesBranch(m, newMEM, w)
      ensures var d := StageID(m, w.regs, branchTaken);
              && newID == d.latch && simulator.Counters() == d.counters
              && idIllegalException == (OldIdIllegal(m) || d.illegal)
              && nextPC == RedirectPC(m, w, e, d)
    {
      hide StageID, TakesBranch, Resolves, ResolvedPC, HazardStall;
      nextPC := wbNextPC;
      idIllegalException := !applyDeferredSquash && !idInst.ctl.isNop && !idInst.ctl.isLegal;
      if idIllegalException {
        nextPC := idInst.nextPC;
      }
      var resolved, target;
      resolved, branchTaken, target :=
        Resolve(m, newMEM, newWB, dStallActive, !hazardStall && !dStallActive, idIllegalException, wbMemException, w);
      if resolved {
        nextPC := target;
      }
      var illegalDetected;
      newID, illegalDetected := Decode(m, dStallActive || hazardStall, applyDeferredSquash, branchTaken, iStallActive);
      if illegalDetected {
        idIllegalException := true;
        nextPC := newID.nextPC;
      }
    }

    /** ID and IF of a cycle. */
    method FetchAndDecode(ghost m: Machine, ghost w: WbOut, ghost e: MemOut, newWB: Instruction, wbMemException: bool,
                          wbNextPC: Word, newMEM: Instruction, applyDeferredSquash: bool, dStallActive: bool,
                          iStallActive: bool, hazardStall: bool, branchDataStall: bool)
        returns (newIF: Instruction, newID: Instruction)
      requires Valid() && w.latch == newWB && w.trap == wbMemException && w.nextPC == wbNextPC
               && w.regs == simulator.Regs()
      requires e.latch == newMEM && e.mem == simulator.memory.State()
      requires applyDeferredSquash == m.squashNextIF && dStallActive == DStalled(m) && iStallActive == IStalled(m)
      requires hazardStall == HazardStall(m) && branchDataStall == BranchDataStall(m)
      requires ifInst == m.ifL && idInst == m.idL && wbInst == m.wbL && PC == m.pc && iStallLeft == Dec(m.iStallLeft)
      requires simulator.Counters() == m.counters && iCache.State() == m.iCache
      requires justFinishedIStall == m.justFinishedIStall && !squashNextIF
      modifies simulator`din, simulator`countDin
      modifies iCache`hits, iCache`misses, iCache`globalLRUCounter, iCache.sets
      modifies this`PC, this`iStallLeft, this`squashNextIF, this`justFinishedIStall
      ensures var (d, f) := FrontEnd(m, w, e);
              && newID == d.latch && simulator.Counters() == d.counters
              && newIF == f.latch && PC == f.pc && iCache.State() == f.iCache && iStallLeft == f.iStallLeft
              && squashNextIF == f.squashNextIF && justFinishedIStall == f.justFinishedIStall
    {
      hide StageID, StageIF, TakesBranch, RedirectPC, HazardStall, BranchDataStall, OldIdIllegal, Dec;
      var idIllegalException, branchTaken, nextPC;
      newID, idIllegalException, branchTaken, nextPC :=
        ResolveAndDecode(m, w, e, newWB, wbMemException, wbNextPC, newMEM,
          applyDeferredSquash, dStallActive, iStallActive, hazardStall);
      if !applyDeferredSquash && branchTaken && !idIllegalException && !wbMemException {
        iStallLeft := 0;
      }
      newIF := Fetch(m, newID, wbMemException, idIllegalException, branchTaken, nextPC,
        dStallActive, iStallActive, hazardStall, branchDataStall);
    }

    /** All stall counters run down together. */
    method CountDown()
      modifies this`iStallLeft, this`dStallLeft
      ensures iStallLeft == Dec(old(iStallLeft)) && dStallLeft == Dec(old(dStallLeft))
    {
      if iStallLeft > 0 {
        iStallLeft := iStallLeft - 1;
      }
      if dStallLeft > 0 {
        dStallLeft := dStallLeft - 1;
      }
    }

    /** The new latches and the counters of the cycle; a memory trap squashes ID, EX and MEM. */
    method Commit(newIF: Instruction, newID: Instruction, newEX: Instruction, newMEM: Instruction, newWB: Instruction,
                  wbMemException: bool, loadUseEvent: bool)
      modifies this`ifInst, this`idInst, this`exInst, this`memInst, this`wbInst, this`loadUseStallCount, this`cycleCount
      ensures ifInst == newIF && wbInst == newWB
      ensures idInst == (if wbMemException then Nop(SQUASHED) else newID)
      ensures exInst == (if wbMemException then Nop(SQUASHED) else newEX)
      ensures memInst == (if wbMemException then Nop(SQUASHED) else newMEM)
      ensures loadUseStallCount == old(loadUseStallCount) + (if loadUseEvent then 1 else 0)
      ensures cycleCount == old(cycleCount) + 1
    {
      ifInst, idInst, exInst, memInst, wbInst := newIF, newID, newEX, newMEM, newWB;
      if wbMemException {
        idInst, exInst, memInst := Nop(SQUASHED), Nop(SQUASHED), Nop(SQUASHED);
      }
      if loadUseEvent {
        loadUseStallCount := loadUseStallCount + 1;
      }
      cycleCount := cycleCount + 1;
    }

    /** WB, MEM and EX of a cycle. */
    method AdvanceOlder(ghost m: Machine, dStallActive: bool, hazardStall: bool)
        returns (newWB: Instruction, wbMemException: bool, nextPC: Word, newMEM: Instruction, newEX: Instruction)
      requires Valid() && dStallActive == DStalled(m) && hazardStall == HazardStall(m)
      requires idInst == m.idL && exInst == m.exL && memInst == m.memL && wbInst == m.wbL && PC == m.pc
      requires simulator.Regs() == m.regs && simulator.memory.State() == m.mem && dCache.State() == m.dCache
      requires dStallLeft == Dec(m.dStallLeft) && dynRetired == m.dynRetired
      modifies simulator.registers, this`dynRetired
      modifies simulator.memory.memArr, dCache`hits, dCache`misses, dCache`globalLRUCounter, dCache.sets,
          this`dStallLeft
      ensures var w, e := StageWB(m), StageMEM(m);
              && newWB == w.latch && wbMemException == w.trap && nextPC == w.nextPC && simulator.Regs() == w.regs
              && dynRetired == w.retired
              && newMEM == e.latch && simulator.memory.State() == e.mem && dCache.State() == e.dCache
              && dStallLeft == e.dStallLeft
      ensures newEX == StageEX(m)
    {
      hide StageWB, StageMEM, StageEX, HazardStall, Dec;
      newWB, wbMemException, nextPC := WriteBack(m, dStallActive);
      newMEM := AccessMemory(m, dStallActive);
      newEX := Execute(m, dStallActive, hazardStall);
    }

    /** The five stages, oldest first. */
    method AdvanceStages(ghost m: Machine, applyDeferredSquash: bool, dStallActive: bool, iStallActive: bool,
                         hazardStall: bool, branchDataStall: bool)
        returns (newIF: Instruction, newID: Instruction, newEX: Instruction, newMEM: Instruction, newWB: Instruction,
                 wbMemException: bool)
      requires Valid() && dStallActive == DStalled(m) && iStallActive == IStalled(m)
               && applyDeferredSquash == m.squashNextIF
      requires hazardStall == HazardStall(m) && branchDataStall == BranchDataStall(m)
      requires State() == m.(squashNextIF := false, iStallLeft := Dec(m.iStallLeft), dStallLeft := Dec(m.dStallLeft))
      modifies simulator.registers, simulator.memory.memArr, simulator`din, simulator`countDin
      modifies dCache`hits, dCache`misses, dCache`globalLRUCounter, dCache.sets
      modifies iCache`hits, iCache`misses, iCache`globalLRUCounter, iCache.sets
      modifies this`PC, this`iStallLeft, this`dStallLeft, this`squashNextIF, this`justFinishedIStall, this`dynRetired
      ensures var w, e := StageWB(m), StageMEM(m);
              && newWB == w.latch && wbMemException == w.trap && simulator.Regs() == w.regs && dynRetired == w.retired
              && newMEM == e.latch && simulator.memory.State() == e.mem && dCache.State() == e.dCache
              && dStallLeft == e.dStallLeft
      ensures newEX == StageEX(m)
      ensures var (d, f) := FrontEnd(m, StageWB(m), StageMEM(m));
              && newID == d.latch && simulator.Counters() == d.counters
              && newIF == f.latch && PC == f.pc && iCache.State() == f.iCache && iStallLeft == f.iStallLeft
              && squashNextIF == f.squashNextIF && justFinishedIStall == f.justFinishedIStall
    {
      hide StageWB, StageMEM, StageEX, FrontEnd, HazardStall, BranchDataStall, Nop, Dec;
      var nextPC;
      newWB, wbMemException, nextPC, newMEM, newEX := AdvanceOlder(m, dStallActive, hazardStall);
      newIF, newID := FetchAndDecode(m, StageWB(m), StageMEM(m), newWB, wbMemException, nextPC, newMEM,
        applyDeferredSquash, dStallActive, iStallActive, hazardStall, branchDataStall);
    }

    /** Load-use and branch-data hazards of the instruction in ID. */
    method DetectHazards(ghost m: Machine, dStallActive: bool)
        returns (loadUseStall: bool, loadUseEvent: bool, branchDataStall: bool)
      requires dStallActive == DStalled(m) && idInst == m.idL && exInst == m.exL && memInst == m.memL
      ensures loadUseStall == LoadUseStall(m) && branchDataStall == BranchDataStall(m)
              && loadUseEvent == LoadUseEvent(m)
    {
      loadUseStall, loadUseEvent, branchDataStall := false, false, false;
      if !dStallActive {
        if LoadUse(idInst, exInst) {
          loadUseStall := true;
          loadUseEvent := true;
        }
        if BranchWaitsForEX(idInst, exInst) {
          branchDataStall := true;
          if IsLoad(exInst.ctl) {
            loadUseEvent := true;
          }
        }
        if !branchDataStall && BranchWaitsForMEM(idInst, memInst) {
          branchDataStall := true;
          if !(exInst.ctl.isNop && exInst.status == BUBBLE) {
            loadUseEvent := true;
          }
        }
      }
    }

    /** The start of an iteration: the deferred squash is taken over, the stalls run down, hazards are detected. */
    method BeginCycle(ghost m: Machine)
        returns (applyDeferredSquash: bool, dStallActive: bool, iStallActive: bool, hazardStall: bool,
                 branchDataStall: bool, loadUseEvent: bool)
      requires Valid() && State() == m
      modifies this`squashNextIF, this`iStallLeft, this`dStallLeft
      ensures State() == m.(squashNextIF := false, iStallLeft := Dec(m.iStallLeft), dStallLeft := Dec(m.dStallLeft))
      ensures applyDeferredSquash == m.squashNextIF && dStallActive == DStalled(m) && iStallActive == IStalled(m)
      ensures hazardStall == HazardStall(m) && branchDataStall == BranchDataStall(m) && loadUseEvent == LoadUseEvent(m)
    {
      hide LoadUseStall, BranchDataStall, LoadUseEvent, Dec;
      applyDeferredSquash := squashNextIF;
      squashNextIF := false;
      dStallActive := dStallLeft > 0;
      CountDown();
      iStallActive := iStallLeft > 0;
      var loadUseStall;
      loadUseStall, loadUseEvent, branchDataStall := DetectHazards(m, dStallActive);
      hazardStall := loadUseStall || branchDataStall;
    }

    /** One iteration of the loop of `runCycles`. */
    method Step()
      requires Valid()
      modifies Repr()
      ensures State() == Cycle(old(State()))
    {
      hide StageWB, StageMEM, StageEX, FrontEnd, HazardStall, BranchDataStall, LoadUseEvent, Nop, Dec, Cycle,
        DStalled, IStalled;
      ghost var m := State();
      var applyDeferredSquash, dStallActive, iStallActive, hazardStall, branchDataStall, loadUseEvent := BeginCycle(m);
      var newIF, newID, newEX, newMEM, newWB, wbMemException := AdvanceStages(m, applyDeferredSquash, dStallActive,
        iStallActive, hazardStall, branchDataStall);
      Commit(newIF, newID, newEX, newMEM, newWB, wbMemException, loadUseEvent);
      CycleIs(m, State());
    }

    /** `runCycles`: it stops early when HALT reaches WB; 0 means no limit. */
    method RunCycles(cycles: nat) returns (status: Status, ghost done: nat)
      requires Valid() && (cycles == 0 ==> exists n :: n > 0 && Halted(Run(State(), n)))
      modifies Repr()
      ensures State() == Run(old(State()), done) && 0 < done
      ensures forall j: nat :: 0 < j < done ==> !Halted(Run(old(State()), j))
      ensures status == if Halted(State()) then HALT else SUCCESS
      ensures cycles > 0 ==> done <= cycles
      ensures status != HALT ==> done == cycles
    {
      hide Cycle, Halted, Run;
      ghost var m := State();
      ghost var limit := cycles;
      if cycles == 0 { limit :| limit > 0 && Halted(Run(m, limit)); }
      RunZero(m);
      var count := 0;
      done := 0;
      status := SUCCESS;
      while cycles == 0 || count < cycles
        invariant count <= limit && done == count && 0 < limit
        invariant State() == Run(m, count)
        invariant forall j: nat :: 0 < j <= count ==> !Halted(Run(m, j))
        decreases limit - count
      {
        Step();
        RunStep(m, count);
        count := count + 1;
        done := count;
        HaltedIs(State());
        if wbInst.ctl.isHalt { return HALT, done; }
      }
    }
  }

  /** A cycle, field by field. */
  lemma CycleIs(m: Machine, m': Machine)
    requires var w, e := StageWB(m), StageMEM(m);
             var (d, f) := FrontEnd(m, w, e);
             && m'.regs == w.regs && m'.mem == e.mem && m'.counters == d.counters
             && m'.iCache == f.iCache && m'.dCache == e.dCache
             && m'.ifL == f.latch && m'.wbL == w.latch
             && m'.idL == (if w.trap then Nop(SQUASHED) else d.latch)
             && m'.exL == (if w.trap then Nop(SQUASHED) else StageEX(m))
             && m'.memL == (if w.trap then Nop(SQUASHED) else e.latch)
             && m'.pc == f.pc && m'.squashNextIF == f.squashNextIF && m'.iStallLeft == f.iStallLeft
             && m'.dStallLeft == e.dStallLeft && m'.justFinishedIStall == f.justFinishedIStall
             && m'.cycleCount == m.cycleCount + 1 && m'.dynRetired == w.retired
             && m'.loadUseStallCount == m.loadUseStallCount + (if LoadUseEvent(m) then 1 else 0)
    ensures m' == Cycle(m)
  {
    hide StageWB, StageMEM, StageEX, FrontEnd, LoadUseEvent, Nop;
  }

  lemma HaltedIs(m: Machine)
    ensures Halted(m) <==> m.wbL.ctl.isHalt
  {
  }

  lemma ForwardKeeps(x: Instruction, a: Source, b: Source, c: Source)
    ensures Forward(x, a, b, c).ctl == x.ctl && Forward(x, a, b, c).pc == x.pc
  {
    hide Forwarded;
  }

  /** MEM does not change what an instruction is. */
  lemma MEMKeepsControl(x: Instruction, mem: Mem)
    ensures SimMEM(x, mem).0.ctl == x.ctl && SimAddrGen(x).ctl == x.ctl
    ensures !(x.ctl.readsMem || x.ctl.writesMem) ==> SimMEM(x, mem).1 == mem
  {
    hide MemAccess, Address;
  }
}
