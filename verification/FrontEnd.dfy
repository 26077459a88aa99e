/** Branch resolution, decoding and fetching in a pipeline that matches the reference run. */
module FrontEnd {
  import opened Utilities
  import opened Instructions
  import opened SequentialRun
  import opened PipelineSpec
  import opened HazardSafety
  import opened Correspondence
  import opened Operands
  import opened Stages

  // ---- branch resolution -------------------------------------------------------------------------------------

  /** A register that a branch in ID reads is not being written in EX, nor by a load in MEM. */
  lemma NoWriterInEX(a: Course, h: nat, m: Machine, p: Pos, r: RegId)
    requires p.inEX && p.inID
    requires ReadyForMEM(m.exL, InstrAt(a, AtEX(p)), SeqAt(a, AtEX(p))) && WellShaped(InstrAt(a, AtEX(p)).ctl)
    requires BranchLike(m.idL) && DependsOn(m.idL.ctl, r)
    requires !DStalled(m) && !HazardStall(m)
    ensures !Writes(a, AtEX(p), r)
  {
    hide InstrAt, SeqAt;
  }

  /** The operand with which a branch or JALR is resolved. */
  lemma OperandForBranch(a: Course, h: nat, m: Machine, p: Pos, r: RegId, v: Word)
    requires RunsToHalt(a, h) && HazardSafe(a, h) && PosOk(h, p) && p.inID
    requires !DStalled(m) && !HazardStall(m)
    requires StateMatches(a, m, p) && WBMatches(a, m, p) && MEMMatches(a, m, p) && EXMatches(a, h, m, p)
    requires BranchLike(m.idL) && m.idL.ctl == InstrAt(a, AtID(p)).ctl && Reads(a, AtID(p), r)
             && Fresh(a, false, p, r, v)
    ensures IntoBranch(m, StageMEM(m).latch, StageWB(m).latch, r, v) == ReadReg(SeqAt(a, AtID(p)).regs, r)
  {
    hide InstrAt, SeqAt, Forwarded, StandsFor, HazardStall, HazardSafe, Fresh, Completed, RunsToHalt, Done, WellShaped,
      Writes, Inert, StageMEM, StageWB, ReadyForMEM, SameRegs;
    ShapeAt(a, h, AtID(p));
    if p.inEX { ShapeAt(a, h, AtEX(p)); NoWriterInEX(a, h, m, p, r); MEMStep(a, h, m, p); } else { MEMStepIdle(m); }
    if p.inMEM { ShapeAt(a, h, p.w); }
    if p.inWB { ShapeAt(a, h, p.w - 1); }
    WBStep(a, h, m, p);
    CompletedStandsFor(a, StageMEM(m).latch, p.inEX, AtEX(p), r);
    CompletedStandsFor(a, StageWB(m).latch, p.inMEM, p.w, r);
    CompletedStandsFor(a, m.wbL, p.inWB, if p.inWB then p.w - 1 else 0, r);
    ForwardedIsRight(a, h, m, p, r, v, Completed(StageMEM(m).latch), Completed(StageWB(m).latch), Completed(m.wbL));
  }

  /** The PC behind instruction `k`: HALT falls through in the pipeline. */
  function Successor(a: Course, h: nat, k: nat): Word {
    if k == h then Next(SeqAt(a, k).pc) else SeqAt(a, k + 1).pc
  }

  /** The next PC depends on the operands of branches and JALR only. */
  lemma NextPCAgrees(c: Control, w: Word, pc: Word, a: Word, b: Word, a': Word, b': Word)
    requires c.opcode == OP_BRANCH ==> a == a' && b == b'
    requires c.opcode == OP_JALR ==> a == a'
    ensures NextPC(c, w, pc, a, b) == NextPC(c, w, pc, a', b')
  {
    hide Displaced, Next, BranchOffset, JumpOffset, ImmediateI, Even, BranchTaken;
  }

  /** Control flow resolved in ID goes where the reference run goes. */
  lemma ResolvesRight(a: Course, h: nat, m: Machine, p: Pos)
    requires RunsToHalt(a, h) && HazardSafe(a, h) && PosOk(h, p) && p.inID
    requires !DStalled(m) && !HazardStall(m)
    requires StateMatches(a, m, p) && WBMatches(a, m, p) && MEMMatches(a, m, p) && EXMatches(a, h, m, p)
    requires IDMatches(a, h, m, p) && Live(m.idL)
    ensures ResolvedPC(m, StageMEM(m).latch, StageWB(m).latch) == Successor(a, h, AtID(p))
  {
    hide InstrAt, SeqAt, RunsToHalt, HazardSafe, NextPC, HazardStall, StageMEM, StageWB, Forwarded, Completed,
      DecodeWord, ArithOf, AccessOf, WriteReg, ReadReg, FetchWord, Fresh, Next, Done, ReadyForMEM, SameRegs,
      StateMatches, WBMatches, MEMMatches, EXMatches;
    var d := AtID(p);
    Explain(a, h, d);
    ShapeAt(a, h, d);
    var c := m.idL.ctl;
    if BranchLike(m.idL) {
      if c.readsRs1 { OperandForBranch(a, h, m, p, c.rs1, m.idL.op1); }
      if c.readsRs2 { OperandForBranch(a, h, m, p, c.rs2, m.idL.op2); }
    }
    var x := BranchOperands(m, StageMEM(m).latch, StageWB(m).latch);
    var s := SeqAt(a, d);
    NextPCAgrees(c, m.idL.word, m.idL.pc, x.op1, x.op2, Operand1(c, s.regs), Operand2(c, s.regs));
    if d == h { FallThrough(c, m.idL.word, m.idL.pc, x.op1, x.op2); }
  }

  /** Whether the branch in ID is taken. */
  lemma TakenRight(a: Course, h: nat, m: Machine, p: Pos)
    requires RunsToHalt(a, h) && HazardSafe(a, h) && PosOk(h, p) && p.inID
    requires !DStalled(m) && !HazardStall(m) && !m.squashNextIF
    requires StateMatches(a, m, p) && WBMatches(a, m, p) && MEMMatches(a, m, p) && EXMatches(a, h, m, p)
    requires IDMatches(a, h, m, p)
    ensures !OldIdIllegal(m)
    ensures Taken(m) <==> Successor(a, h, AtID(p)) != Next(SeqAt(a, AtID(p)).pc)
    ensures Taken(m) ==>
              Resolves(m, false) && ResolvedPC(m, StageMEM(m).latch, StageWB(m).latch) == Successor(a, h, AtID(p))
  {
    hide InstrAt, SeqAt, RunsToHalt, HazardSafe, NextPC, HazardStall, StageMEM, StageWB, Forwarded, Completed,
      DecodeWord, ArithOf, AccessOf, WriteReg, ReadReg, FetchWord, Fresh, Next, Done, ReadyForMEM, SameRegs,
      ResolvedPC;
    var d := AtID(p);
    WBStep(a, h, m, p);
    Explain(a, h, d);
    ShapeAt(a, h, d);
    if Live(m.idL) { ResolvesRight(a, h, m, p); }
    if !IsControlFlow(InstrAt(a, d).ctl) {
      var s := SeqAt(a, d);
      FallThrough(InstrAt(a, d).ctl, InstrAt(a, d).word, s.pc, Operand1(InstrAt(a, d).ctl, s.regs),
          Operand2(InstrAt(a, d).ctl, s.regs));
    }
  }
}
