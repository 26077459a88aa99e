/** An instruction held in ID keeps operands that forwarding can still make right. */
module Holding {
  import opened Utilities
  import opened Instructions
  import opened SequentialRun
  import opened PipelineSpec
  import opened HazardSafety
  import opened Correspondence
  import opened Stages

  lemma FreshAfterDStall(a: Course, p: Pos, stalled: bool, r: RegId, v: Word)
    requires Fresh(a, true, p, r, v)
    ensures Fresh(a, stalled, p.(inWB := false), r, v)
  {
    hide SeqAt, InstrAt, ReadReg;
  }

  /** What the hazard detection has seen when it holds an instruction, in terms of the run. */
  ghost predicate HoldReason(a: Course, p: Pos, q: RegId) {
    && Reads(a, AtID(p), q)
    && (|| (p.inEX && Writes(a, AtEX(p), q))
        || (p.inMEM && Writes(a, p.w, q) && InstrAt(a, p.w).ctl.readsMem
             && NeedsEarlyOperands(InstrAt(a, AtID(p)).ctl)))
  }

  lemma HoldHasReason(a: Course, h: nat, m: Machine, p: Pos) returns (q: RegId)
    requires PosOk(h, p) && p.inID && HazardStall(m) && RunsToHalt(a, h)
    requires MEMMatches(a, m, p) && EXMatches(a, h, m, p) && Decoded(m.idL, InstrAt(a, AtID(p)))
    ensures HoldReason(a, p, q)
  {
    hide InstrAt, SeqAt, RunsToHalt;
    if p.inEX { ShapeAt(a, h, AtEX(p)); }
    if p.inMEM { ShapeAt(a, h, p.w); }
    if LoadUse(m.idL, m.exL) || BranchWaitsForEX(m.idL, m.exL) {
      q := m.exL.ctl.rd;
    } else {
      q := m.memL.ctl.rd;
    }
  }

  /** The position after a hazard hold. */
  function Held(p: Pos): Pos {
    Pos(AtEX(p), p.inMEM, p.inEX, false, true, true)
  }

  /** The first hold. */
  lemma FreshAfterFirstHold(a: Course, h: nat, p: Pos, stalled: bool, q: RegId, r: RegId, v: Word)
    requires RunsToHalt(a, h) && HazardSafe(a, h) && PosOk(h, p) && p.inID && !p.held
    requires HoldReason(a, p, q) && Reads(a, AtID(p), r)
    requires stalled ==> p.inEX && TouchesMemory(InstrAt(a, AtEX(p)).ctl)
    requires Fresh(a, false, p, r, v)
    ensures Fresh(a, stalled, Held(p), r, v)
  {
    hide InstrAt, SeqAt, RunsToHalt, ReadReg, Writes, Reads, NeedsEarlyOperands, CodeStable, HaltShadowSafe,
      StoreDataSafe;
    var d := AtID(p);
    assert LoadUseSafe(a, d) && BranchOperandSafe(a, d);
    if p.inMEM {
      RegisterStep(a, h, p.w, r);
      if stalled && Writes(a, p.w, r) {
        ShapeAt(a, h, AtEX(p));
        WritesOne(a, p.w);
        WritesOne(a, AtEX(p));
        assert AtEX(p) == d - 1 && p.w == d - 2;
      }
    }
  }

  /** An instruction writes one register only, and stores write none. */
  lemma WritesOne(a: Course, k: nat)
    ensures forall q, r :: Writes(a, k, q) && Writes(a, k, r) ==> q == r
    ensures WellShaped(InstrAt(a, k).ctl) && TouchesMemory(InstrAt(a, k).ctl) ==>
              forall q :: Writes(a, k, q) ==> InstrAt(a, k).ctl.readsMem
  {
    hide InstrAt;
  }

  /** The second hold: a branch whose load has moved from EX to MEM. */
  lemma FreshAfterSecondHold(a: Course, h: nat, p: Pos, q: RegId, r: RegId, v: Word)
    requires RunsToHalt(a, h) && HazardSafe(a, h) && PosOk(h, p) && p.held
    requires HoldReason(a, p, q) && Reads(a, AtID(p), r)
    requires Fresh(a, false, p, r, v)
    ensures Fresh(a, false, Held(p), r, v)
  {
    hide InstrAt, SeqAt, RunsToHalt, ReadReg, Writes, Reads, NeedsEarlyOperands, CodeStable, HaltShadowSafe,
      StoreDataSafe;
    var d := AtID(p);
    assert LoadUseSafe(a, d);
    RegisterStep(a, h, p.w, r);
    WritesOne(a, p.w);
  }

  lemma FreshAfterHold(a: Course, h: nat, m: Machine, p: Pos, r: RegId, v: Word)
    requires RunsToHalt(a, h) && HazardSafe(a, h) && PosOk(h, p) && p.inID && HazardStall(m) && !DStalled(m)
    requires StateMatches(a, m, p) && WBMatches(a, m, p) && MEMMatches(a, m, p) && EXMatches(a, h, m, p)
    requires Decoded(m.idL, InstrAt(a, AtID(p))) && Reads(a, AtID(p), r) && Fresh(a, false, p, r, v)
    ensures Fresh(a, StageMEM(m).dStallLeft > 0, Held(p), r, v)
  {
    hide InstrAt, SeqAt, RunsToHalt, HazardSafe, Reads, HoldReason, StageMEM, Fresh, Done, ReadyForMEM, HazardStall,
      WBMatches, MEMMatches, StateMatches, Decoded;
    var q := HoldHasReason(a, h, m, p);
    if p.inEX { MEMStep(a, h, m, p); } else { MEMStepIdle(m); }
    if p.held { FreshAfterSecondHold(a, h, p, q, r, v); }
    else { FreshAfterFirstHold(a, h, p, StageMEM(m).dStallLeft > 0, q, r, v); }
  }
}
