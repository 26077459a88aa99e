/** The relation between a state of the pipeline and a position of the reference run. */
module Correspondence {
  import opened Utilities
  import opened Instructions
  import opened SequentialRun
  import opened PipelineSpec
  import opened HazardSafety

  /** Which instructions of the run are where: `w` have been retired; WB, MEM, EX and ID hold the last retired
      instruction and the next ones in order, each slot only if its flag is set.  `held`: the instruction in ID
      has been held there by a hazard since it was decoded. */
  datatype Pos = Pos(w: nat, inWB: bool, inMEM: bool, inEX: bool, inID: bool, held: bool)

  /** The instruction that is in EX, or will be the next to get there. */
  function AtEX(p: Pos): nat { p.w + Bit(p.inMEM) }

  function AtID(p: Pos): nat { AtEX(p) + Bit(p.inEX) }

  /** The next instruction to be decoded. */
  function Upcoming(p: Pos): nat { AtID(p) + Bit(p.inID) }

  /** HALT has left ID: everything in IF, ID and behind HALT is of no consequence. */
  predicate HaltBeyondID(h: nat, p: Pos) { Upcoming(p) == h + 1 && !p.inID }

  /** HALT is in MEM and leaves it in this cycle. */
  predicate HaltLeavesMEM(h: nat, m: Machine, p: Pos) { p.inMEM && p.w == h && !DStalled(m) }

  ghost predicate SameRegs(r: Regs, s: Regs) {
    forall q: RegId :: ReadReg(r, q) == ReadReg(s, q)
  }

  /** A latch that cannot affect anything. */
  predicate Inert(x: Instruction) {
    x.ctl.isNop && WellShaped(x.ctl) && !x.fault
  }

  /** `x` holds instruction `i` of the run with its final results. */
  predicate Done(x: Instruction, i: Instruction) {
    if i.ctl.isNop then Inert(x)
    else x.ctl == i.ctl && !x.fault && x.arith == i.arith && (i.ctl.readsMem ==> x.memVal == i.memVal)
  }

  /** `x` holds instruction `i`, executed in state `s`, as it must be when it enters MEM. */
  predicate ReadyForMEM(x: Instruction, i: Instruction, s: Arch) {
    if i.ctl.isNop then Inert(x)
    else
      && x.ctl == i.ctl && x.word == i.word && !x.fault && x.status == NORMAL && x.arith == i.arith && x.memVal == 0
      && (TouchesMemory(i.ctl) ==> x.op1 == Operand1(i.ctl, s.regs))
      && (i.ctl.writesMem ==> x.op2 == Operand2(i.ctl, s.regs))
  }

  /** `x` holds the decoded instruction `i`; nothing is said about operands that it reads from registers. */
  predicate Decoded(x: Instruction, i: Instruction) {
    if i.ctl.isNop then Inert(x)
    else
      && x.ctl == i.ctl && x.word == i.word && x.pc == i.pc && !x.fault && x.arith == 0 && x.memVal == 0
      && (!i.ctl.readsRs1 ==> x.op1 == 0) && (!i.ctl.readsRs2 ==> x.op2 == 0)
  }

  /** A younger instruction in EX or MEM will supply register `r`. */
  predicate InFlight(a: Course, p: Pos, r: RegId) {
    (p.inEX && Writes(a, AtEX(p), r)) || (p.inMEM && Writes(a, p.w, r))
  }

  /** Forwarding from EX, MEM or WB will supply register `r`. */
  predicate Supplied(a: Course, p: Pos, r: RegId) {
    InFlight(a, p, r) || (p.inWB && p.w > 0 && Writes(a, p.w - 1, r))
  }

  /** The operand `v` that ID holds for register `r` can still be made right by forwarding.  In a D-stall
      (`stalled`) WB will hold a bubble when the stall is over. */
  predicate Fresh(a: Course, stalled: bool, p: Pos, r: RegId, v: Word) {
    var current := v == ReadReg(SeqAt(a, p.w).regs, r);
    if !p.held then current
    else if stalled then current || InFlight(a, p, r)
    else current || Supplied(a, p, r)
  }

  predicate FreshOperands(a: Course, stalled: bool, p: Pos, x: Instruction) {
    && (x.ctl.readsRs1 ==> Fresh(a, stalled, p, x.ctl.rs1, x.op1))
    && (x.ctl.readsRs2 ==> Fresh(a, stalled, p, x.ctl.rs2, x.op2))
  }

  // ---- the parts of the invariant ----------------------------------------------------------------------------

  ghost predicate StateMatches(a: Course, m: Machine, p: Pos) {
    SameRegs(m.regs, SeqAt(a, p.w).regs) && m.mem == SeqAt(a, AtEX(p)).mem
  }

  predicate WBMatches(a: Course, m: Machine, p: Pos) {
    if p.inWB && p.w > 0 then Done(m.wbL, InstrAt(a, p.w - 1)) else Inert(m.wbL)
  }

  predicate MEMMatches(a: Course, m: Machine, p: Pos) {
    if p.inMEM then Done(m.memL, InstrAt(a, p.w)) else Inert(m.memL)
  }

  predicate EXMatches(a: Course, h: nat, m: Machine, p: Pos) {
    if p.inEX then ReadyForMEM(m.exL, InstrAt(a, AtEX(p)), SeqAt(a, AtEX(p)))
    else if HaltBeyondID(h, p) then !m.exL.ctl.writesMem
    else Inert(m.exL)
  }

  predicate IDMatches(a: Course, h: nat, m: Machine, p: Pos) {
    if p.inID then Decoded(m.idL, InstrAt(a, AtID(p))) && (Live(m.idL) ==> FreshOperands(a, DStalled(m), p, m.idL))
    else if HaltBeyondID(h, p) then p.inEX ==> !m.idL.ctl.writesMem
    else Inert(m.idL)
  }

  /** The PC that IF fetches or has fetched: the fall-through of ID, or where the run goes on. */
  function ExpectedPC(a: Course, p: Pos): Word {
    if p.inID then Next(SeqAt(a, AtID(p)).pc) else SeqAt(a, Upcoming(p)).pc
  }

  /** IF and PC stand at address `y`: either nothing has been fetched, or the word at `y` has. */
  predicate FetchAt(m: Machine, y: Word) {
    && (m.ifL.ctl.isNop ==> m.pc == y)
    && (!m.ifL.ctl.isNop ==> m.ifL.pc == y && m.pc == Next(y))
    && (m.iStallLeft > 0 ==> m.ifL.ctl.isNop)
    && !m.squashNextIF
  }

  /** A fetched, not yet decoded instruction. */
  predicate JustFetched(x: Instruction) {
    x.ctl == UNDECODED && x.op1 == 0 && x.op2 == 0 && x.arith == 0 && x.memVal == 0
  }

  /** What `x`, fetched while number `n` is the next to be decoded, must contain. */
  ghost predicate FetchedRight(a: Course, h: nat, n: nat, x: Instruction) {
    && JustFetched(x)
    && (n <= h && x.pc == SeqAt(a, n).pc ==> x.word == InstrAt(a, n).word && !x.fault)
    && (n == h + 1 ==> !DecodeWord(x.word).writesMem)
  }

  ghost predicate IFMatches(a: Course, h: nat, m: Machine, p: Pos) {
    !HaltBeyondID(h, p) ==>
      && FetchAt(m, ExpectedPC(a, p))
      && (!m.ifL.ctl.isNop ==> FetchedRight(a, h, Upcoming(p), m.ifL))
  }

  predicate PosOk(h: nat, p: Pos) {
    && p.w <= h && Upcoming(p) <= h + 1
    && (p.inWB ==> p.w > 0)
    && (p.held ==> p.inID && !p.inEX)
  }

  /** The number of the first `k` instructions that are not NOPs. */
  function NonNops(a: Course, k: nat): nat {
    if k == 0 then 0 else NonNops(a, k - 1) + Bit(!InstrAt(a, k - 1).ctl.isNop)
  }

  /** The number of loads and stores among the first `k` instructions. */
  function MemoryOps(a: Course, k: nat): nat {
    if k == 0 then 0 else MemoryOps(a, k - 1) + Bit(TouchesMemory(InstrAt(a, k - 1).ctl))
  }

  /** Retired instructions are counted once, and so is each data-cache access. */
  predicate CountsMatch(a: Course, m: Machine, p: Pos) {
    && m.dynRetired == NonNops(a, p.w)
    && m.dCache.hits + m.dCache.misses == MemoryOps(a, AtEX(p))
  }

  ghost predicate Matches(a: Course, h: nat, m: Machine, p: Pos) {
    && PosOk(h, p)
    && StateMatches(a, m, p)
    && WBMatches(a, m, p)
    && MEMMatches(a, m, p)
    && EXMatches(a, h, m, p)
    && IDMatches(a, h, m, p)
    && IFMatches(a, h, m, p)
    && CountsMatch(a, m, p)
  }

  /** Where the instructions are one cycle later. */
  function NextPos(h: nat, m: Machine, p: Pos): Pos {
    if DStalled(m) then p.(inWB := false)
    else if HazardStall(m) then Pos(AtEX(p), p.inMEM, p.inEX, false, p.inID, p.inID)
    else Pos(AtEX(p), p.inMEM, p.inEX, p.inID, Upcoming(p) <= h && Decodes(m, Taken(m)), false)
  }

  /** A branch is resolved as taken in this cycle. */
  predicate Taken(m: Machine) {
    TakesBranch(m, StageMEM(m).latch, StageWB(m))
  }
}
