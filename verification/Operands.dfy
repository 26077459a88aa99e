/** Operand freshness: forwarding hands every instruction the value of the youngest older writer. */
module Operands {
  import opened Utilities
  import opened Instructions
  import opened SequentialRun
  import opened PipelineSpec
  import opened HazardSafety
  import opened Correspondence

  /** As far as register `r` goes, `s` stands for instruction `i` of the run if `present`, else for nothing. */
  predicate StandsFor(a: Course, s: Source, present: bool, i: nat, r: RegId) {
    && (s.writesRd ==> !s.isNop)
    && ((s.writesRd && s.rd == r && r != 0) <==> (present && Writes(a, i, r)))
    && (present && Writes(a, i, r) ==> s.value == Result(InstrAt(a, i)))
  }

  /** The three patches pick the youngest supplier. */
  lemma ForwardedIsYoungest(a: Course, p: Pos, r: RegId, v: Word, x: Source, y: Source, z: Source, last: nat)
    requires StandsFor(a, x, p.inEX, AtEX(p), r)
    requires StandsFor(a, y, p.inMEM, p.w, r)
    requires StandsFor(a, z, p.inWB, last, r)
    ensures Forwarded(r, v, x, y, z) ==
            if p.inEX && Writes(a, AtEX(p), r) then Result(InstrAt(a, AtEX(p)))
            else if p.inMEM && Writes(a, p.w, r) then Result(InstrAt(a, p.w))
            else if p.inWB && Writes(a, last, r) then Result(InstrAt(a, last))
            else v
  {
    hide InstrAt, Result;
  }

  /** The value of `r` before the instruction in ID, in terms of the older instructions in the pipeline. */
  lemma ValueAtID(a: Course, h: nat, p: Pos, r: RegId)
    requires RunsToHalt(a, h) && AtID(p) <= h && (p.inWB ==> p.w > 0)
    ensures ReadReg(SeqAt(a, AtID(p)).regs, r) ==
            if p.inEX && Writes(a, AtEX(p), r) then Result(InstrAt(a, AtEX(p)))
            else if p.inMEM && Writes(a, p.w, r) then Result(InstrAt(a, p.w))
            else ReadReg(SeqAt(a, p.w).regs, r)
    ensures p.inWB && Writes(a, p.w - 1, r) ==> ReadReg(SeqAt(a, p.w).regs, r) == Result(InstrAt(a, p.w - 1))
  {
    hide InstrAt, Result, SeqAt, Writes, RunsToHalt, ReadReg;
    if p.inWB { RegisterStep(a, h, p.w - 1, r); }
    if p.inMEM { RegisterStep(a, h, p.w, r); }
    if p.inEX { RegisterStep(a, h, AtEX(p), r); }
  }

  /** A fresh operand is forwarded into the value that the reference run reads. */
  lemma ForwardedIsRight(a: Course, h: nat, m: Machine, p: Pos, r: RegId, v: Word, x: Source, y: Source, z: Source)
    requires RunsToHalt(a, h) && AtID(p) <= h && (p.inWB ==> p.w > 0)
    requires !DStalled(m) && Fresh(a, false, p, r, v)
    requires StandsFor(a, x, p.inEX, AtEX(p), r)
    requires StandsFor(a, y, p.inMEM, p.w, r)
    requires StandsFor(a, z, p.inWB, if p.inWB then p.w - 1 else 0, r)
    ensures Forwarded(r, v, x, y, z) == ReadReg(SeqAt(a, AtID(p)).regs, r)
  {
    hide InstrAt, Result, SeqAt, Writes, RunsToHalt, ReadReg, Forwarded, StandsFor;
    ForwardedIsYoungest(a, p, r, v, x, y, z, if p.inWB then p.w - 1 else 0);
    ValueAtID(a, h, p, r);
  }

  /** A latch with a completed instruction stands for it. */
  lemma CompletedStandsFor(a: Course, x: Instruction, present: bool, i: nat, r: RegId)
    requires if present then Done(x, InstrAt(a, i)) && WellShaped(InstrAt(a, i).ctl) else Inert(x)
    ensures StandsFor(a, Completed(x), present, i, r)
  {
    hide InstrAt;
  }

  /** The EX latch as the EX forwarding sees it: right for every register that no load in EX writes. */
  lemma EXStandsFor(a: Course, m: Machine, p: Pos, r: RegId)
    requires if p.inEX
             then ReadyForMEM(m.exL, InstrAt(a, AtEX(p)), SeqAt(a, AtEX(p))) && WellShaped(InstrAt(a, AtEX(p)).ctl)
             else Inert(m.exL)
    requires !(p.inEX && Writes(a, AtEX(p), r) && InstrAt(a, AtEX(p)).ctl.readsMem)
    ensures StandsFor(a, ALUSource(m.exL), p.inEX, AtEX(p), r)
  {
    hide InstrAt, SeqAt;
  }

  /** Without a hazard, the instruction in ID does not need the result of a load in EX, except as store data. */
  lemma NoLoadInEX(a: Course, h: nat, m: Machine, p: Pos, r: RegId)
    requires p.inEX && p.inID && AtID(p) <= h
    requires ReadyForMEM(m.exL, InstrAt(a, AtEX(p)), SeqAt(a, AtEX(p))) && WellShaped(InstrAt(a, AtEX(p)).ctl)
    requires Live(m.idL) && m.idL.ctl == InstrAt(a, AtID(p)).ctl && Reads(a, AtID(p), r)
    requires !DStalled(m) && !HazardStall(m)
    requires StoreDataSafe(a, AtID(p)) && WellShaped(InstrAt(a, AtID(p)).ctl)
    ensures !(Writes(a, AtEX(p), r) && InstrAt(a, AtEX(p)).ctl.readsMem)
  {
    hide InstrAt, SeqAt;
    assert AtID(p) - 1 == AtEX(p);
  }

  /** The operand of the instruction leaving ID, as EX receives it. */
  lemma OperandForEX(a: Course, h: nat, m: Machine, p: Pos, r: RegId, v: Word)
    requires RunsToHalt(a, h) && HazardSafe(a, h) && PosOk(h, p) && p.inID
    requires !DStalled(m) && !HazardStall(m)
    requires WBMatches(a, m, p) && MEMMatches(a, m, p) && EXMatches(a, h, m, p)
    requires Live(m.idL) && m.idL.ctl == InstrAt(a, AtID(p)).ctl && Reads(a, AtID(p), r) && Fresh(a, false, p, r, v)
    ensures IntoEX(m, r, v) == ReadReg(SeqAt(a, AtID(p)).regs, r)
  {
    hide InstrAt, SeqAt, Forwarded, StandsFor, ALUSource, ReadyForMEM, HazardStall, StoreDataSafe, LoadUseSafe,
      BranchOperandSafe, CodeStable, Fresh, Completed, RunsToHalt, Done, WellShaped, HaltShadowSafe, Writes, Reads,
      Inert;
    ShapeAt(a, h, AtID(p));
    assert StoreDataSafe(a, AtID(p));
    if p.inEX { ShapeAt(a, h, AtEX(p)); NoLoadInEX(a, h, m, p, r); }
    if p.inMEM { ShapeAt(a, h, p.w); }
    if p.inWB { ShapeAt(a, h, p.w - 1); }
    EXStandsFor(a, m, p, r);
    CompletedStandsFor(a, m.memL, p.inMEM, p.w, r);
    CompletedStandsFor(a, m.wbL, p.inWB, if p.inWB then p.w - 1 else 0, r);
    ForwardedIsRight(a, h, m, p, r, v, ALUSource(m.exL), Completed(m.memL), Completed(m.wbL));
  }
}
