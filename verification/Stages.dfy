/** What each stage does to a pipeline that matches the reference run. */
module Stages {
  import opened Utilities
  import opened Memory
  import opened Instructions
  import opened LruCache
  import opened SequentialRun
  import opened PipelineSpec
  import opened HazardSafety
  import opened Correspondence
  import opened Operands

  // ---- WB ----------------------------------------------------------------------------------------------------

  /** WB retires the instruction in MEM: the registers advance by one instruction of the run. */
  lemma WBStep(a: Course, h: nat, m: Machine, p: Pos)
    requires RunsToHalt(a, h) && PosOk(h, p) && !DStalled(m)
    requires SameRegs(m.regs, SeqAt(a, p.w).regs) && MEMMatches(a, m, p) && (p.inMEM ==> p.w <= h)
    ensures var o := StageWB(m);
            && !o.trap
            && SameRegs(o.regs, SeqAt(a, AtEX(p)).regs)
            && (if p.inMEM then Done(o.latch, InstrAt(a, p.w)) else Inert(o.latch))
            && (o.latch.ctl.isHalt <==> p.inMEM && p.w == h)
            && (m.dynRetired == NonNops(a, p.w) ==> o.retired == NonNops(a, AtEX(p)))
  {
    hide InstrAt, SeqAt, RunsToHalt, ReadReg, WriteReg, SameRegs, SimWB;
    WBLatchOfNop(m.memL, m.regs);
    if p.inMEM {
      ShapeAt(a, h, p.w);
      assert NonNops(a, p.w + 1) == NonNops(a, p.w) + Bit(!InstrAt(a, p.w).ctl.isNop);
      CommitsRight(a, h, m.memL, m.regs, p.w);
      WBLatch(m.memL, m.regs);
    }
  }

  lemma WBLatch(x: Instruction, regs: Regs)
    requires WellShaped(x.ctl) && x.ctl.isLegal && !x.fault
    ensures var y := SimWB(x, regs).0;
            y.ctl == x.ctl && !y.fault && y.arith == x.arith && y.memVal == x.memVal
  {
    hide SimCommit;
  }

  lemma WBLatchOfNop(x: Instruction, regs: Regs)
    ensures Inert(x) ==> Inert(SimWB(x, regs).0) && SimWB(x, regs).1 == regs
  {
  }

  lemma CommitsRight(a: Course, h: nat, x: Instruction, regs: Regs, k: nat)
    requires RunsToHalt(a, h) && k <= h && Done(x, InstrAt(a, k)) && WellShaped(InstrAt(a, k).ctl)
    requires SameRegs(regs, SeqAt(a, k).regs)
    ensures SameRegs(SimWB(x, regs).1, SeqAt(a, k + 1).regs)
  {
    hide InstrAt, SeqAt, RunsToHalt, ReadReg, WriteReg;
    var regs' := SimWB(x, regs).1;
    forall q: RegId
      ensures ReadReg(regs', q) == ReadReg(SeqAt(a, k + 1).regs, q)
    {
      RegisterStep(a, h, k, q);
      ReadAfterWrite(regs, x.ctl.rd, Result(x), q);
    }
  }

  // ---- MEM ---------------------------------------------------------------------------------------------------

  /** The store data that MEM uses, after WB->MEM forwarding. */
  lemma StoreDataRight(a: Course, h: nat, m: Machine, p: Pos)
    requires RunsToHalt(a, h) && PosOk(h, p) && p.inEX && AtEX(p) <= h
    requires StoreDataSafe(a, AtEX(p)) && InstrAt(a, AtEX(p)).ctl.writesMem && !InstrAt(a, AtEX(p)).ctl.isNop
    requires WBMatches(a, m, p)
    requires ReadyForMEM(m.exL, InstrAt(a, AtEX(p)), SeqAt(a, AtEX(p))) && WellShaped(InstrAt(a, AtEX(p)).ctl)
    ensures WithStoreData(m.exL, m.wbL).op2 == Operand2(InstrAt(a, AtEX(p)).ctl, SeqAt(a, AtEX(p)).regs)
  {
    hide InstrAt, SeqAt, RunsToHalt, ReadReg;
    var r := m.exL.ctl.rs2;
    if p.inWB {
      ShapeAt(a, h, p.w - 1);
      RegisterStep(a, h, p.w - 1, r);
      if p.inMEM { RegisterStep(a, h, p.w, r); }
    }
  }

  /** MEM performs the memory access of the instruction in EX exactly as the reference run does. */
  lemma MEMStep(a: Course, h: nat, m: Machine, p: Pos)
    requires RunsToHalt(a, h) && HazardSafe(a, h) && PosOk(h, p) && !DStalled(m) && p.inEX && AtEX(p) <= h
    requires StateMatches(a, m, p) && WBMatches(a, m, p) && EXMatches(a, h, m, p)
    ensures var o := StageMEM(m);
            && Done(o.latch, InstrAt(a, AtEX(p)))
            && o.mem == SeqAt(a, AtEX(p) + 1).mem
            && (o.dStallLeft > 0 ==> TouchesMemory(InstrAt(a, AtEX(p)).ctl))
            && o.dCache.hits + o.dCache.misses
                 == m.dCache.hits + m.dCache.misses + Bit(TouchesMemory(InstrAt(a, AtEX(p)).ctl))
  {
    hide InstrAt, SeqAt, RunsToHalt, ReadReg, WriteReg, MemAccess, Address, Resident, Access, Alu, NextPC, DecodeWord,
      SameRegs, Operand1, FetchWord, ShiftMasked, StoreDataSafe, LoadUseSafe, BranchOperandSafe, CodeStable,
      HaltShadowSafe, WithStoreData;
    var e := AtEX(p);
    Explain(a, h, e);
    assert StoreDataSafe(a, e);
    var x := WithStoreData(m.exL, m.wbL);
    WithStoreDataShape(m.exL, m.wbL);
    if InstrAt(a, e).ctl.writesMem { StoreDataRight(a, h, m, p); }
    if !InstrAt(a, e).ctl.isNop && TouchesMemory(InstrAt(a, e).ctl) {
      AccessMatches(a, h, x, m.mem, e);
    }
  }

  lemma WithStoreDataShape(x: Instruction, wb: Instruction)
    ensures WithStoreData(x, wb) == x.(op2 := WithStoreData(x, wb).op2)
    ensures !x.ctl.writesMem ==> WithStoreData(x, wb) == x
  {
  }

  /** MEM of a load or store, field by field. */
  lemma MEMFields(x: Instruction, mem: Mem)
    requires x.ctl.isLegal && !x.fault && TouchesMemory(x.ctl)
    ensures var (z, mem') := SimMEM(SimAddrGen(x), mem);
            var o := MemAccess(mem, x.ctl, Address(x.ctl, x.word, x.op1, x.addr), x.op2, x.memVal);
            && z.ctl == x.ctl && z.arith == x.arith && z.fault == o.fault && z.memVal == o.memVal && mem' == o.mem
  {
    hide MemAccess, ImmediateI, ImmediateS;
  }

  /** The data operand matters to stores only, and the address does not depend on an earlier one. */
  lemma AccessAgrees(mem: Mem, c: Control, w: Word, a: Word, b: Word, b': Word, addr: Word)
    requires TouchesMemory(c) && (c.readsMem ==> !c.writesMem) && (c.writesMem ==> b' == b)
    ensures MemAccess(mem, c, Address(c, w, a, addr), b', 0) == AccessOf(mem, c, w, a, b)
  {
    hide Load, Store, InBounds, ImmediateI, ImmediateS, LoadedValue, AccessSize;
  }

  lemma AccessMatches(a: Course, h: nat, x: Instruction, mem: Mem, e: nat)
    requires RunsToHalt(a, h) && e <= h && mem == SeqAt(a, e).mem
    requires var i := InstrAt(a, e);
             && TouchesMemory(i.ctl) && !i.ctl.isNop && x.ctl == i.ctl && x.word == i.word && !x.fault
             && x.arith == i.arith
             && x.memVal == 0 && x.op1 == Operand1(i.ctl, SeqAt(a, e).regs)
             && (i.ctl.writesMem ==> x.op2 == Operand2(i.ctl, SeqAt(a, e).regs))
    ensures var (z, mem') := SimMEM(SimAddrGen(x), mem);
            Done(z, InstrAt(a, e)) && mem' == SeqAt(a, e + 1).mem && z.ctl == x.ctl && !z.fault
  {
    hide InstrAt, SeqAt, RunsToHalt, SimMEM, SimAddrGen, MemAccess, Address, ArithOf, NextPC, WriteReg,
      DecodeWord, Operand1, Operand2, FetchWord, AccessOf;
    Explain(a, h, e);
    MEMFields(x, mem);
    var i := InstrAt(a, e);
    AccessAgrees(mem, x.ctl, x.word, x.op1, Operand2(i.ctl, SeqAt(a, e).regs), x.op2, x.addr);
  }

  /** An empty EX, or anything but a store behind HALT, leaves memory alone. */
  lemma MEMStepIdle(m: Machine)
    requires !DStalled(m) && Inert(m.exL)
    ensures var o := StageMEM(m); Inert(o.latch) && o.mem == m.mem && o.dStallLeft == 0 && o.dCache == m.dCache
  {
  }

  lemma MEMStepNoStore(m: Machine)
    requires !m.exL.ctl.writesMem
    ensures StageMEM(m).mem == m.mem
  {
    hide Load, Store, InBounds, Address, Access, Resident;
  }

  // ---- EX ----------------------------------------------------------------------------------------------------

  /** EX computes for the instruction leaving ID what the reference run computes. */
  lemma EXStep(a: Course, h: nat, m: Machine, p: Pos)
    requires RunsToHalt(a, h) && HazardSafe(a, h) && PosOk(h, p) && !DStalled(m) && !HazardStall(m) && p.inID
    requires WBMatches(a, m, p) && MEMMatches(a, m, p) && EXMatches(a, h, m, p) && IDMatches(a, h, m, p)
    ensures ReadyForMEM(StageEX(m), InstrAt(a, AtID(p)), SeqAt(a, AtID(p)))
  {
    hide InstrAt, SeqAt, RunsToHalt, ReadReg, WriteReg, Alu, ShiftMasked, HazardStall, HazardSafe, Forwarded, NextPC,
      DecodeWord, FetchWord, MemAccess, Address, Fresh, Done;
    var d := AtID(p);
    Explain(a, h, d);
    var x := m.idL;
    if Live(x) {
      if x.ctl.readsRs1 { OperandForEX(a, h, m, p, x.ctl.rs1, x.op1); }
      if x.ctl.readsRs2 { OperandForEX(a, h, m, p, x.ctl.rs2, x.op2); }
    }
  }

  lemma EXStepIdle(m: Machine)
    requires !DStalled(m) && Inert(m.idL)
    ensures Inert(StageEX(m))
  {
    hide Forwarded;
  }

  lemma EXStepHazard(a: Course, i: Instruction, m: Machine)
    requires !DStalled(m) && HazardStall(m) && Decoded(m.idL, i) && i.ctl.isLegal
    ensures Inert(StageEX(m))
  {
    hide Forwarded, HazardStall;
  }

  lemma EXKeepsControl(x: Instruction)
    ensures SimEX(x).ctl == x.ctl
  {
    hide Alu, ShiftMasked;
  }

  lemma EXStepNoStore(m: Machine)
    requires !DStalled(m) && !m.idL.ctl.writesMem
    ensures !StageEX(m).ctl.writesMem
  {
    hide Forwarded, HazardStall, SimEX, Completed;
    EXKeepsControl(Forward(m.idL, ALUSource(m.exL), Completed(m.memL), Completed(m.wbL)));
  }
}
