/** Operand freshness in every run, hazard-safe or not: an instruction that leaves ID without having been held by a
    hazard, or held only in the cycle before, gets the value of the youngest older writer in flight, or what the
    register file holds if there is none. */
module Freshness {
  import opened Utilities
  import opened Memory
  import opened Instructions
  import opened LruCache
  import opened SequentialRun
  import opened PipelineSpec
  import opened Correspondence
  import opened Ledgers

  /** What the instruction in ID must read from register `r`.  A load in EX has no value yet; its ALU result, which
      is zero, stands for it. */
  function Youngest(m: Machine, r: RegId): Word {
    if WritesReg(m.exL, r) then m.exL.arith
    else if WritesReg(m.memL, r) then Result(m.memL)
    else ReadReg(m.regs, r)
  }

  /** What the instruction in EX must read from register `r`. */
  function YoungestBehindEX(m: Machine, r: RegId): Word {
    if WritesReg(m.memL, r) then Result(m.memL) else ReadReg(m.regs, r)
  }

  // ---- what WB has committed ---------------------------------------------------------------------------------

  predicate NoALUResult(x: Instruction) { x.ctl.readsMem ==> x.arith == 0 }

  /** The latches in every state: NOPs, HALT and illegal words write nothing, and the registers hold what the
      instruction in WB has written. */
  ghost predicate Settled(m: Machine) {
    && (Live(m.ifL) ==> m.ifL.arith == 0) && (Live(m.idL) ==> m.idL.arith == 0)
    && WellShaped(m.exL.ctl) && WellShaped(m.memL.ctl) && WellShaped(m.wbL.ctl)
    && NoALUResult(m.exL) && NoALUResult(m.memL)
    && forall r: RegId :: WritesReg(m.wbL, r) ==> Result(m.wbL) == ReadReg(m.regs, r)
  }

  /** What WB does to a register. */
  lemma CommitInWB(m: Machine, r: RegId)
    requires WellShaped(m.memL.ctl) && m.memL.ctl.isLegal
    ensures var o := StageWB(m);
            var writes := !DStalled(m) && !m.memL.fault && WritesReg(m.memL, r);
            && (WritesReg(o.latch, r) <==> writes)
            && (writes ==> Result(o.latch) == Result(m.memL))
            && ReadReg(o.regs, r) == (if writes then Result(m.memL) else ReadReg(m.regs, r))
            && WellShaped(o.latch.ctl)
  {
    hide ReadReg, WriteReg;
    ReadAfterWrite(m.regs, m.memL.ctl.rd, Result(m.memL), r);
  }

  lemma EXComputes(m: Machine)
    requires Shaped(m) && Settled(m)
    ensures var x := StageEX(m);
            && WellShaped(x.ctl) && NoALUResult(x)
            && (!DStalled(m) && Live(x) ==> x.ctl == m.idL.ctl)
  {
    hide Forwarded, Alu, ShiftMasked, HazardStall, Completed, ALUSource, ReadReg;
  }

  lemma MEMComputes(m: Machine)
    requires Shaped(m) && Settled(m)
    ensures var x := NewMEM(m);
            && WellShaped(x.ctl) && NoALUResult(x)
            && (!DStalled(m) && Live(x) ==> x.ctl == m.exL.ctl && x.arith == m.exL.arith)
  {
    hide MemAccess, Address, Access, Resident, WithStoreData, ReadReg;
    StoreDataKeeps(m.exL, m.wbL);
    StoreDataArith(m.exL, m.wbL);
  }

  lemma StoreDataArith(x: Instruction, wb: Instruction)
    ensures WithStoreData(x, wb).arith == x.arith
  {
  }

  lemma FetchedArith(m: Machine)
    requires Live(m.ifL) ==> m.ifL.arith == 0
    ensures Live(Cycle(m).ifL) ==> Cycle(m).ifL.arith == 0
  {
    hide StageWB, StageMEM, StageEX, StageID, TakesBranch, RedirectPC, OldIdIllegal, Access, Resident, HazardStall,
      BranchDataStall, FetchWord, Next;
  }

  lemma DecodedArith(m: Machine)
    requires Shaped(m) && Settled(m)
    ensures Live(NewID(m)) ==> NewID(m).arith == 0
  {
    hide StageWB, Taken, HazardStall, DecodeWord, NextPC, ReadReg, WellShaped, NoALUResult, Result, Decodes, NewID;
    NewIDCases(m);
    DecodeLeavesArith(m.ifL, StageWB(m).regs, m.counters);
    DecodesLiveWord(m);
  }

  lemma DecodeLeavesArith(x: Instruction, regs: Regs, n: Counters)
    ensures SimID(x, regs, n).0.arith == x.arith
  {
    hide DecodeWord, NextPC, ReadReg;
  }

  /** Settled states stay settled. */
  lemma SettledKept(m: Machine)
    requires Shaped(m) && Settled(m)
    ensures Settled(Cycle(m))
  {
    hide Cycle, StageWB, StageEX, NewMEM, NewID, Nop, WellShaped, ReadReg, Result, WritesReg, NoALUResult;
    CycleLatches(m);
    NopShape(SQUASHED);
    EXComputes(m); MEMComputes(m); FetchedArith(m); DecodedArith(m);
    NopReads();
    SettledRegs(m);
    forall r: RegId
      ensures WritesReg(Cycle(m).wbL, r) ==> Result(Cycle(m).wbL) == ReadReg(Cycle(m).regs, r)
    {
      CommitInWB(m, r);
    }
    CommitInWB(m, 0);
  }

  lemma NopReads()
    ensures NoALUResult(Nop(SQUASHED))
  {
  }

  lemma SettledRegs(m: Machine)
    ensures Cycle(m).regs == StageWB(m).regs
  {
    hide StageWB, StageMEM, StageEX, StageID, StageIF, TakesBranch, RedirectPC, OldIdIllegal, Nop, LoadUseEvent;
  }

  // ---- operands in ID ----------------------------------------------------------------------------------------

  /** `x` holds operand `v` of register `r`. */
  predicate Holds(x: Instruction, r: RegId, v: Word) {
    && Live(x) && x.ctl.isLegal
    && ((x.ctl.readsRs1 && x.ctl.rs1 == r && x.op1 == v) || (x.ctl.readsRs2 && x.ctl.rs2 == r && x.op2 == v))
  }

  /** The operands in ID are those of the register file. */
  ghost predicate UpToDate(m: Machine) {
    forall r: RegId, v: Word :: Holds(m.idL, r, v) ==> v == ReadReg(m.regs, r)
  }

  /** Where they are not, the instruction in WB has just written the register. */
  ghost predicate Recoverable(m: Machine) {
    forall r: RegId, v: Word :: Holds(m.idL, r, v) ==> v == ReadReg(m.regs, r) || WritesReg(m.wbL, r)
  }

  lemma DecodedOperands(x: Instruction, regs: Regs, n: Counters, r: RegId, v: Word)
    requires Holds(SimID(x, regs, n).0, r, v)
    ensures v == ReadReg(regs, r)
  {
    hide DecodeWord, NextPC, ReadReg;
  }

  /** Newly decoded operands are up to date; a D-stall keeps them so. */
  lemma UpToDateKept(m: Machine)
    requires Shaped(m) && Settled(m) && !HazardStall(m) && (DStalled(m) ==> UpToDate(m))
    ensures UpToDate(Cycle(m))
  {
    hide Cycle, StageWB, StageEX, NewMEM, NewID, Nop, WellShaped, ReadReg, Result, WritesReg, NoALUResult,
      HazardStall, Decodes, Taken, SimID;
    CycleLatches(m);
    NopShape(SQUASHED);
    NewIDCases(m);
    SettledRegs(m);
    forall r: RegId, v: Word | Holds(Cycle(m).idL, r, v)
      ensures v == ReadReg(Cycle(m).regs, r)
    {
      CommitInWB(m, r);
      if Decodes(m, Taken(m)) { DecodedOperands(m.ifL, StageWB(m).regs, m.counters, r, v); }
    }
  }

  /** One hold makes operands stale only for a register that WB then holds. */
  lemma RecoverableAfterHold(m: Machine)
    requires Shaped(m) && Settled(m) && HazardStall(m) && UpToDate(m)
    ensures Recoverable(Cycle(m))
  {
    hide Cycle, StageWB, StageEX, NewMEM, NewID, Nop, WellShaped, ReadReg, Result, WritesReg, NoALUResult,
      HazardStall, Decodes, Taken;
    CycleLatches(m);
    NopShape(SQUASHED);
    NewIDCases(m);
    SettledRegs(m);
    forall r: RegId, v: Word | Holds(Cycle(m).idL, r, v)
      ensures v == ReadReg(Cycle(m).regs, r) || WritesReg(Cycle(m).wbL, r)
    {
      CommitInWB(m, r);
      NotStalled(m);
    }
  }

  lemma NotStalled(m: Machine)
    requires HazardStall(m)
    ensures !DStalled(m)
  {
  }

  // ---- forwarding --------------------------------------------------------------------------------------------

  /** EX forwarding hands on the youngest value. */
  lemma EXGetsYoungest(m: Machine, r: RegId, v: Word)
    requires Settled(m) && (v == ReadReg(m.regs, r) || WritesReg(m.wbL, r))
    ensures IntoEX(m, r, v) == Youngest(m, r)
  {
    hide ReadReg, Result;
  }

  /** So does the forwarding for branch resolution, when no hazard holds the branch. */
  lemma BranchGetsYoungest(m: Machine, r: RegId, v: Word)
    requires Shaped(m) && Settled(m) && (v == ReadReg(m.regs, r) || WritesReg(m.wbL, r))
    requires !DStalled(m) && !HazardStall(m) && !StageWB(m).trap && BranchLike(m.idL) && DependsOn(m.idL.ctl, r)
    ensures IntoBranch(m, NewMEM(m), StageWB(m).latch, r, v) == Youngest(m, r) && !WritesReg(m.exL, r)
  {
    hide ReadReg, Result, StageWB, NewMEM;
    MEMComputes(m);
    NewWBCases(m);
    CommitInWB(m, r);
    WBLatchShape(m);
  }

  lemma WBLatchShape(m: Machine)
    requires Shaped(m) && Settled(m)
    ensures WellShaped(StageWB(m).latch.ctl)
  {
    hide StageWB, ReadReg, Result;
    CommitInWB(m, 0);
  }

  // ---- store data --------------------------------------------------------------------------------------------

  /** A store in EX holds what the instruction ahead offered to EX, or what the register file holds. */
  predicate DatumOffered(m: Machine) {
    Live(m.exL) && m.exL.ctl.writesMem ==>
      m.exL.op2 == if WritesReg(m.memL, m.exL.ctl.rs2) then m.memL.arith else ReadReg(m.regs, m.exL.ctl.rs2)
  }

  lemma StoreTakesOperand(m: Machine)
    requires Shaped(m) && !DStalled(m) && Live(StageEX(m)) && StageEX(m).ctl.writesMem
    ensures StageEX(m).op2 == IntoEX(m, m.idL.ctl.rs2, m.idL.op2) && Holds(m.idL, m.idL.ctl.rs2, m.idL.op2)
    ensures StageEX(m).ctl == m.idL.ctl
  {
    hide HazardStall, Forwarded, Completed, ALUSource, Alu, ShiftMasked;
  }

  /** A store that leaves ID with a recoverable operand takes it along, and keeps it through D-stalls. */
  lemma DatumOfferedKept(m: Machine)
    requires Shaped(m) && Settled(m) && (if DStalled(m) then DatumOffered(m) else Recoverable(m))
    ensures DatumOffered(Cycle(m))
  {
    hide Cycle, StageWB, StageEX, NewMEM, NewID, Nop, WellShaped, ReadReg, Result, NoALUResult, HazardStall, Settled,
      IntoEX;
    var m' := Cycle(m);
    CycleLatches(m);
    NopShape(SQUASHED);
    NewEXCases(m); NewMEMCases(m); NewWBCases(m);
    SettledRegs(m);
    if Live(m'.exL) && m'.exL.ctl.writesMem {
      var r := m'.exL.ctl.rs2;
      CommitHere(m, r);
      MEMComputes(m);
      if !DStalled(m) {
        StoreTakesOperand(m);
        EXGetsYoungest(m, r, m.idL.op2);
      }
    }
  }

  lemma CommitHere(m: Machine, r: RegId)
    requires Shaped(m) && Settled(m)
    ensures ReadReg(StageWB(m).regs, r) ==
            if !DStalled(m) && !m.memL.fault && WritesReg(m.memL, r) then Result(m.memL) else ReadReg(m.regs, r)
  {
    hide StageWB, ReadReg, Result;
    CommitInWB(m, r);
  }

  /** The datum with which a store enters MEM is right exactly if the instruction just ahead does not write the
      register; or, if it does and WB holds another writer, both wrote the same value; or, if WB holds none, it is
      not a load, or a load of zero. */
  lemma DatumRightIff(m: Machine)
    requires Settled(m) && DatumOffered(m) && Live(m.exL) && m.exL.ctl.writesMem
    ensures var r := m.exL.ctl.rs2;
            WithStoreData(m.exL, m.wbL).op2 == YoungestBehindEX(m, r) <==>
              if !WritesReg(m.memL, r) then true
              else if WritesReg(m.wbL, r) then Result(m.wbL) == Result(m.memL)
              else !m.memL.ctl.readsMem || m.memL.memVal == 0
  {
    hide ReadReg;
  }

  // ---- when ID is held ---------------------------------------------------------------------------------------

  /** `x` needs register `r` when it leaves ID; the datum of a store is not needed yet. */
  predicate NeedsNow(x: Instruction, r: RegId) {
    Live(x) && ((x.ctl.readsRs1 && x.ctl.rs1 == r) || (x.ctl.readsRs2 && x.ctl.rs2 == r && !x.ctl.writesMem))
  }

  /** A writer of `r` ahead has no result to forward: a load in EX; for a branch or JALR, which is resolved in ID,
      anything in EX and a load in MEM. */
  predicate NotReady(m: Machine, r: RegId) {
    if BranchLike(m.idL) then WritesReg(m.exL, r) || (WritesReg(m.memL, r) && m.memL.ctl.readsMem)
    else WritesReg(m.exL, r) && m.exL.ctl.readsMem
  }

  /** ID is held exactly when an operand is not ready. */
  lemma HeldIffNotReady(m: Machine)
    requires Shaped(m) && Settled(m)
    ensures HazardStall(m) <==> !DStalled(m) && exists r: RegId :: NeedsNow(m.idL, r) && NotReady(m, r)
  {
    hide ReadReg, Result;
    if HazardStall(m) {
      var r := if BranchWaitsForMEM(m.idL, m.memL) then m.memL.ctl.rd else m.exL.ctl.rd;
      assert NeedsNow(m.idL, r) && NotReady(m, r);
    }
  }

  // ---- every run ---------------------------------------------------------------------------------------------

  /** After `n` cycles the instruction in ID has not been held by a hazard, or only in the cycle before. */
  predicate HardlyHeld(m: Machine, n: nat) {
    var holds := LedgerAt(m, n).holds;
    holds == 0 || (n > 0 && holds == 1 && HazardStall(Run(m, n - 1)))
  }

  /** The instruction in EX left ID like that. */
  predicate LeftHardlyHeld(m: Machine, n: nat) {
    n > 0 && if DStalled(Run(m, n - 1)) then LeftHardlyHeld(m, n - 1) else HardlyHeld(m, n - 1)
  }

  /** The invariants behind freshness. */
  ghost predicate FreshAfter(m: Machine, n: nat) {
    && Settled(Run(m, n))
    && (LedgerAt(m, n).holds == 0 ==> UpToDate(Run(m, n)))
    && (HardlyHeld(m, n) ==> Recoverable(Run(m, n)))
    && (LeftHardlyHeld(m, n) ==> DatumOffered(Run(m, n)))
  }

  lemma {:induction false} FreshEveryRun(mem: Mem, regs: Regs, i: Geometry, d: Geometry, n: nat)
    ensures FreshAfter(Init(mem, regs, i, d), n)
    decreases n
  {
    hide Init, Cycle, Shaped, Conserved, InOrder, HazardsBounded, HazardsCounted, DataSideExact, Run, FreshAfter,
      LedgerAt;
    var m0 := Init(mem, regs, i, d);
    if n == 0 {
      StartsFresh(mem, regs, i, d);
    } else {
      FreshEveryRun(mem, regs, i, d, n - 1);
      EveryRun(mem, regs, i, d, n - 1);
      RunStep(m0, n - 1);
      FreshStep(m0, n - 1);
    }
  }

  lemma FreshStep(m0: Machine, n: nat)
    requires FreshAfter(m0, n) && Shaped(Run(m0, n)) && Run(m0, n + 1) == Cycle(Run(m0, n))
    ensures FreshAfter(m0, n + 1)
  {
    hide Cycle, Settled, Shaped, HazardStall, Run, UpToDate, Recoverable, DatumOffered, DStalled;
    var m := Run(m0, n);
    SettledKept(m);
    HoldsMove(m0, n);
    if HazardStall(m) { NotStalled(m); } else if DStalled(m) ==> UpToDate(m) { UpToDateKept(m); }
    if HazardStall(m) && UpToDate(m) { RecoverableAfterHold(m); }
    if UpToDate(Cycle(m)) { UpToDateIsRecoverable(Cycle(m)); }
    if if DStalled(m) then DatumOffered(m) else Recoverable(m) { DatumOfferedKept(m); }
  }

  lemma UpToDateIsRecoverable(m: Machine)
    requires UpToDate(m)
    ensures Recoverable(m)
  {
  }

  lemma HoldsMove(m0: Machine, n: nat)
    ensures var holds := LedgerAt(m0, n).holds;
            LedgerAt(m0, n + 1).holds ==
            if DStalled(Run(m0, n)) then holds else if HazardStall(Run(m0, n)) then holds + 1 else 0
  {
    hide DStalled, HazardStall, Run, StageWB, StageEX, NewID, NewMEM;
  }

  lemma StartsFresh(mem: Mem, regs: Regs, i: Geometry, d: Geometry)
    ensures FreshAfter(Init(mem, regs, i, d), 0)
  {
    hide Init, Settled, UpToDate, Recoverable, DatumOffered, HazardStall;
    IdleIsFresh(mem, regs, i, d);
  }

  lemma IdleIsFresh(mem: Mem, regs: Regs, i: Geometry, d: Geometry)
    ensures var m := Init(mem, regs, i, d);
            Settled(m) && UpToDate(m) && Recoverable(m) && DatumOffered(m)
  {
    hide Empty;
  }

  /** Operand freshness: in every run, an instruction that leaves ID and has not been held by a hazard, or only in the
      cycle before, hands EX the youngest older value for each register it reads; a branch or JALR is resolved with
      it; and the datum of a store that left ID so is right in the cases stated. */
  lemma OperandsAreFresh(mem: Mem, regs: Regs, i: Geometry, d: Geometry, n: nat)
    ensures var m0 := Init(mem, regs, i, d);
            var m := Run(m0, n);
            HardlyHeld(m0, n) && !DStalled(m) && !HazardStall(m) ==>
              forall r: RegId, v: Word :: Holds(m.idL, r, v) ==>
                && IntoEX(m, r, v) == Youngest(m, r)
                && (BranchLike(m.idL) && !StageWB(m).trap ==>
                      IntoBranch(m, NewMEM(m), StageWB(m).latch, r, v) == Youngest(m, r) && !WritesReg(m.exL, r))
    ensures var m0 := Init(mem, regs, i, d);
            var m := Run(m0, n);
            LeftHardlyHeld(m0, n) && Live(m.exL) && m.exL.ctl.writesMem ==>
              var r := m.exL.ctl.rs2;
              WithStoreData(m.exL, m.wbL).op2 == YoungestBehindEX(m, r) <==>
                if !WritesReg(m.memL, r) then true
                else if WritesReg(m.wbL, r) then Result(m.wbL) == Result(m.memL)
                else !m.memL.ctl.readsMem || m.memL.memVal == 0
  {
    hide Init, Cycle, Settled, DatumOffered, Shaped, Conserved, InOrder, HazardsBounded, HazardsCounted,
      DataSideExact, HazardStall, Run, IntoEX, IntoBranch, Youngest, YoungestBehindEX, NewMEM, StageWB, WritesReg,
      Result, LeftHardlyHeld, HardlyHeld, LedgerAt, ReadReg, WithStoreData;
    var m0 := Init(mem, regs, i, d);
    var m := Run(m0, n);
    FreshEveryRun(mem, regs, i, d, n);
    EveryRun(mem, regs, i, d, n);
    if HardlyHeld(m0, n) && !DStalled(m) && !HazardStall(m) {
      forall r: RegId, v: Word | Holds(m.idL, r, v)
        ensures IntoEX(m, r, v) == Youngest(m, r)
        ensures BranchLike(m.idL) && !StageWB(m).trap ==>
                  IntoBranch(m, NewMEM(m), StageWB(m).latch, r, v) == Youngest(m, r) && !WritesReg(m.exL, r)
      {
        EXGetsYoungest(m, r, v);
        if BranchLike(m.idL) && !StageWB(m).trap { BranchGetsYoungest(m, r, v); }
      }
    }
    if LeftHardlyHeld(m0, n) && Live(m.exL) && m.exL.ctl.writesMem { DatumRightIff(m); }
  }

  /** In every state of every run, ID is held exactly when an operand is not ready. */
  lemma HeldInEveryRun(mem: Mem, regs: Regs, i: Geometry, d: Geometry, n: nat)
    ensures var m := Run(Init(mem, regs, i, d), n);
            HazardStall(m) <==> !DStalled(m) && exists r: RegId :: NeedsNow(m.idL, r) && NotReady(m, r)
  {
    hide Init, Settled, Shaped, Conserved, InOrder, HazardsBounded, HazardsCounted, DataSideExact, HazardStall, Run,
      NeedsNow, NotReady, UpToDate, Recoverable, DatumOffered, LedgerAt, HardlyHeld, LeftHardlyHeld;
    FreshEveryRun(mem, regs, i, d, n);
    EveryRun(mem, regs, i, d, n);
    HeldIffNotReady(Run(Init(mem, regs, i, d), n));
  }
}
