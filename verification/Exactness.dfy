/** Exactly when an operand is right: for a pipeline whose older instructions match the reference run, the operand
    that forwarding yields is the one the reference run reads if and only if the stated condition holds. */
module Exactness {
  import opened Utilities
  import opened Instructions
  import opened LruCache
  import opened SequentialRun
  import opened PipelineSpec
  import opened Correspondence
  import opened HazardSafety
  import opened Operands
  import opened Stages
  import opened FrontEnd

  /** The operand `v` held in ID for register `r` is what the register file of the retired prefix holds. */
  predicate Current(a: Course, p: Pos, r: RegId, v: Word) { v == ReadReg(SeqAt(a, p.w).regs, r) }

  /** Forwarding is right iff some instruction in EX, MEM or WB supplies the register or the held value is still
      current: a held operand whose writer has left the pipeline is lost. */
  lemma ForwardedRightIff(a: Course, h: nat, p: Pos, r: RegId, v: Word, x: Source, y: Source, z: Source)
    requires RunsToHalt(a, h) && AtID(p) <= h && (p.inWB ==> p.w > 0)
    requires StandsFor(a, x, p.inEX, AtEX(p), r)
    requires StandsFor(a, y, p.inMEM, p.w, r)
    requires StandsFor(a, z, p.inWB, if p.inWB then p.w - 1 else 0, r)
    ensures Forwarded(r, v, x, y, z) == ReadReg(SeqAt(a, AtID(p)).regs, r) <==> Supplied(a, p, r) || Current(a, p, r, v)
  {
    hide InstrAt, Result, SeqAt, Writes, RunsToHalt, ReadReg, Forwarded, StandsFor;
    ForwardedIsYoungest(a, p, r, v, x, y, z, if p.inWB then p.w - 1 else 0);
    ValueAtID(a, h, p, r);
  }

  /** An operand on its way from ID to EX, if no load in EX writes its register. */
  lemma OperandIntoEXRightIff(a: Course, h: nat, m: Machine, p: Pos, r: RegId, v: Word)
    requires RunsToHalt(a, h) && PosOk(h, p) && AtID(p) <= h
    requires WBMatches(a, m, p) && MEMMatches(a, m, p) && EXMatches(a, h, m, p) && (!p.inEX ==> !HaltBeyondID(h, p))
    requires !(p.inEX && Writes(a, AtEX(p), r) && InstrAt(a, AtEX(p)).ctl.readsMem)
    ensures IntoEX(m, r, v) == ReadReg(SeqAt(a, AtID(p)).regs, r)
            <==> Supplied(a, p, r) || Current(a, p, r, v)
  {
    hide InstrAt, SeqAt, Forwarded, StandsFor, ReadyForMEM, Completed, ALUSource, RunsToHalt, Done, WellShaped, Writes,
      Inert, Supplied, Current;
    if p.inEX { ShapeAt(a, h, AtEX(p)); }
    if p.inMEM { ShapeAt(a, h, p.w); }
    if p.inWB { ShapeAt(a, h, p.w - 1); }
    EXStandsFor(a, m, p, r);
    CompletedStandsFor(a, m.memL, p.inMEM, p.w, r);
    CompletedStandsFor(a, m.wbL, p.inWB, if p.inWB then p.w - 1 else 0, r);
    ForwardedRightIff(a, h, p, r, v, ALUSource(m.exL), Completed(m.memL), Completed(m.wbL));
  }

  /** Behind a load that writes the register, the operand is zero: it is right iff the loaded value is zero.  Only
      store data gets here, as everything else waits. */
  lemma OperandBehindLoadRightIff(a: Course, h: nat, m: Machine, p: Pos, r: RegId, v: Word)
    requires RunsToHalt(a, h) && PosOk(h, p) && AtID(p) <= h && p.inEX && EXMatches(a, h, m, p)
    requires Writes(a, AtEX(p), r) && InstrAt(a, AtEX(p)).ctl.readsMem
    ensures IntoEX(m, r, v) == 0
    ensures IntoEX(m, r, v) == ReadReg(SeqAt(a, AtID(p)).regs, r)
            <==> InstrAt(a, AtEX(p)).memVal == 0
  {
    hide InstrAt, SeqAt, RunsToHalt, DecodeWord, ReadReg, Completed, AccessOf, Alu;
    ShapeAt(a, h, AtEX(p));
    Explain(a, h, AtEX(p));
    RegisterStep(a, h, AtEX(p), r);
  }

  /** The operand with which a branch or JALR is resolved: the hazard detection has kept writers out of EX, so that
      an instruction in MEM or WB must supply the register, or the held value must still be current. */
  lemma BranchOperandRightIff(a: Course, h: nat, m: Machine, p: Pos, r: RegId, v: Word)
    requires RunsToHalt(a, h) && PosOk(h, p) && p.inID && AtID(p) <= h && !DStalled(m) && !HazardStall(m)
    requires StateMatches(a, m, p) && WBMatches(a, m, p) && MEMMatches(a, m, p) && EXMatches(a, h, m, p)
    requires BranchLike(m.idL) && m.idL.ctl == InstrAt(a, AtID(p)).ctl && Reads(a, AtID(p), r)
    ensures !(p.inEX && Writes(a, AtEX(p), r))
    ensures IntoBranch(m, StageMEM(m).latch, StageWB(m).latch, r, v) == ReadReg(SeqAt(a, AtID(p)).regs, r)
            <==> Supplied(a, p, r) || Current(a, p, r, v)
  {
    hide InstrAt, SeqAt, Forwarded, StandsFor, HazardStall, ReadyForMEM, Completed, RunsToHalt, Done, WellShaped,
      Writes, Inert, Supplied, Current, StageMEM, StageWB, SameRegs;
    var newMEM, newWB := StageMEM(m).latch, StageWB(m).latch;
    if p.inEX { ShapeAt(a, h, AtEX(p)); NoWriterInEX(a, h, m, p, r); }
    if p.inMEM { ShapeAt(a, h, p.w); }
    if p.inWB { ShapeAt(a, h, p.w - 1); }
    SuppliesNothing(a, h, m, p, r);
    WBStep(a, h, m, p);
    CompletedStandsFor(a, newWB, p.inMEM, p.w, r);
    CompletedStandsFor(a, m.wbL, p.inWB, if p.inWB then p.w - 1 else 0, r);
    ForwardedRightIff(a, h, p, r, v, Completed(newMEM), Completed(newWB), Completed(m.wbL));
  }

  /** What leaves EX without writing `r` does not offer it. */
  lemma SuppliesNothing(a: Course, h: nat, m: Machine, p: Pos, r: RegId)
    requires !DStalled(m) && EXMatches(a, h, m, p) && !HaltBeyondID(h, p)
    requires p.inEX ==> WellShaped(InstrAt(a, AtEX(p)).ctl) && !Writes(a, AtEX(p), r)
    ensures StandsFor(a, Completed(StageMEM(m).latch), p.inEX, AtEX(p), r)
  {
    hide InstrAt, SeqAt, MemAccess, Address, Access, Resident, WithStoreData;
    WithStoreDataShape(m.exL, m.wbL);
    if Inert(m.exL) { MEMStepIdle(m); }
  }

  /** A store takes its data operand from EX forwarding. */
  lemma StoreLeavesID(m: Machine)
    requires !DStalled(m) && !HazardStall(m) && Live(m.idL) && m.idL.ctl.isLegal && m.idL.ctl.writesMem
             && WellShaped(m.idL.ctl)
    ensures StageEX(m).ctl == m.idL.ctl && StageEX(m).op2 == IntoEX(m, m.idL.ctl.rs2, m.idL.op2)
  {
    hide HazardStall, Forwarded, Completed, ALUSource;
  }

  /** The datum that a store leaving ID will write.  `wb` is what WB holds when the store enters MEM: the
      instruction two ahead, or the bubble that a D-stall in between leaves there.  If it is an instruction that
      writes the data register, the datum is right iff the instruction in between does not write the register or
      writes the same value.  Otherwise, behind a load of the register it is right iff the loaded value is zero, and
      in all other cases iff an older instruction in flight supplies the register or the operand held in ID is
      current. */
  lemma StoreDatumRightIff(a: Course, h: nat, m: Machine, p: Pos, wb: Instruction)
    requires RunsToHalt(a, h) && PosOk(h, p) && p.inID && AtID(p) <= h && !DStalled(m) && !HazardStall(m)
    requires StateMatches(a, m, p) && WBMatches(a, m, p) && MEMMatches(a, m, p) && EXMatches(a, h, m, p)
    requires Live(m.idL) && m.idL.ctl == InstrAt(a, AtID(p)).ctl && m.idL.ctl.writesMem
    requires wb == StageWB(m).latch || Inert(wb)
    ensures var r := m.idL.ctl.rs2;
            WithStoreData(StageEX(m), wb).op2 == ReadReg(SeqAt(a, AtID(p)).regs, r) <==>
              if p.inMEM && Writes(a, p.w, r) && Live(wb) then
                !(p.inEX && Writes(a, AtEX(p), r)) || Result(InstrAt(a, AtEX(p))) == Result(InstrAt(a, p.w))
              else if p.inEX && Writes(a, AtEX(p), r) && InstrAt(a, AtEX(p)).ctl.readsMem then
                InstrAt(a, AtEX(p)).memVal == 0
              else
                Supplied(a, p, r) || Current(a, p, r, m.idL.op2)
  {
    hide InstrAt, SeqAt, RunsToHalt, ReadReg, HazardStall, StageWB, StageEX, IntoEX, Supplied, Current, WBMatches,
      EXMatches, ReadyForMEM, SameRegs, Result;
    var r := m.idL.ctl.rs2;
    ShapeAt(a, h, AtID(p));
    StoreLeavesID(m);
    WBStep(a, h, m, p);
    if p.inMEM { ShapeAt(a, h, p.w); }
    ValueAtID(a, h, p, r);
    WrittenBack(a, p, wb, r);
    if p.inEX && Writes(a, AtEX(p), r) && InstrAt(a, AtEX(p)).ctl.readsMem {
      OperandBehindLoadRightIff(a, h, m, p, r, m.idL.op2);
    } else {
      OperandIntoEXRightIff(a, h, m, p, r, m.idL.op2);
    }
  }

  /** WB patches store data exactly if it holds a writer of the register. */
  lemma WrittenBack(a: Course, p: Pos, wb: Instruction, r: RegId)
    requires Inert(wb) || (p.inMEM && WellShaped(InstrAt(a, p.w).ctl) && Done(wb, InstrAt(a, p.w)))
    ensures Live(wb) && wb.ctl.writesRd && wb.ctl.rd == r && r != 0 <==> p.inMEM && Writes(a, p.w, r) && Live(wb)
    ensures p.inMEM && Writes(a, p.w, r) && Live(wb) ==> Result(wb) == Result(InstrAt(a, p.w))
  {
    hide InstrAt;
  }
}
