/** One iteration of the loop of `runCycles` (src/cycle.cpp) as a function on the state of the pipeline. */
module PipelineSpec {
  import opened Utilities
  import opened Memory
  import opened Instructions
  import opened LruCache

  /** A micro-architectural NOP with a given stage status. */
  function Nop(status: StageStatus): Instruction {
    NO_INSTRUCTION.(word := NOP_WORD, ctl := UNDECODED.(isLegal := true, isNop := true), status := status)
  }

  /** The state that survives from one cycle to the next. */
  datatype Machine = Machine(
    regs: Regs, mem: Mem, counters: Counters, iCache: Cache, dCache: Cache,
    ifL: Instruction, idL: Instruction, exL: Instruction, memL: Instruction, wbL: Instruction,
    pc: Word, squashNextIF: bool, iStallLeft: nat, dStallLeft: nat, justFinishedIStall: bool,
    cycleCount: nat, dynRetired: nat, loadUseStallCount: nat)

  /** `initSimulator`: an idle pipeline over an initial memory. */
  function Init(mem: Mem, regs: Regs, i: Geometry, d: Geometry): Machine {
    Machine(regs, mem, Counters(0, true), Empty(i), Empty(d),
      Nop(IDLE), Nop(IDLE), Nop(IDLE), Nop(IDLE), Nop(IDLE),
      0, false, 0, 0, false, 0, 0, 0)
  }

  predicate DStalled(m: Machine) { m.dStallLeft > 0 }

  function Dec(n: nat): nat { if n > 0 then n - 1 else 0 }

  /** The I-stall is judged after this cycle's decrement, the D-stall before it. */
  predicate IStalled(m: Machine) { Dec(m.iStallLeft) > 0 }

  // ---- WB ----------------------------------------------------------------------------------------------------

  datatype WbOut = WbOut(latch: Instruction, regs: Regs, trap: bool, nextPC: Word, retired: nat)

  function StageWB(m: Machine): WbOut {
    if DStalled(m) then WbOut(Nop(BUBBLE), m.regs, false, Next(m.pc), m.dynRetired)
    else if !m.memL.ctl.isNop && m.memL.fault then
      WbOut(Nop(SQUASHED), m.regs, true, EXCEPTION_HANDLER, m.dynRetired)
    else
      var (x, regs) := SimWB(m.memL, m.regs);
      var latch := if x.ctl.isNop then x.(status := m.memL.status) else x;
      var retired := if !latch.ctl.isNop && latch.ctl.isLegal && !latch.fault then m.dynRetired + 1 else m.dynRetired;
      var trap := !latch.ctl.isLegal || latch.fault;
      WbOut(latch, regs, trap, if trap then latch.nextPC else Next(m.pc), retired)
  }

  // ---- hazard detection --------------------------------------------------------------------------------------

  predicate Live(x: Instruction) { !x.ctl.isNop }

  /** `c` names `r` as one of its sources. */
  predicate DependsOn(c: Control, r: RegId) {
    (c.readsRs1 && c.rs1 == r) || (c.readsRs2 && c.rs2 == r)
  }

  predicate BranchLike(x: Instruction) {
    Live(x) && (x.ctl.opcode == OP_BRANCH || x.ctl.opcode == OP_JALR)
  }

  predicate LoadUse(id: Instruction, ex: Instruction) {
    && Live(ex) && IsLoad(ex.ctl) && ex.ctl.rd != 0 && Live(id) && !BranchLike(id)
    && ((id.ctl.readsRs1 && id.ctl.rs1 == ex.ctl.rd)
        || (id.ctl.readsRs2 && id.ctl.rs2 == ex.ctl.rd && !id.ctl.writesMem))
  }

  predicate BranchWaitsForEX(id: Instruction, ex: Instruction) {
    BranchLike(id) && Live(ex) && ex.ctl.rd != 0 && ex.ctl.writesRd && DependsOn(id.ctl, ex.ctl.rd)
  }

  predicate BranchWaitsForMEM(id: Instruction, mem: Instruction) {
    && BranchLike(id) && Live(mem) && mem.ctl.rd != 0 && mem.ctl.writesRd && IsLoad(mem.ctl)
    && DependsOn(id.ctl, mem.ctl.rd)
  }

  predicate BranchDataStall(m: Machine) {
    !DStalled(m) && (BranchWaitsForEX(m.idL, m.exL) || BranchWaitsForMEM(m.idL, m.memL))
  }

  predicate LoadUseStall(m: Machine) { !DStalled(m) && LoadUse(m.idL, m.exL) }

  predicate HazardStall(m: Machine) { LoadUseStall(m) || BranchDataStall(m) }

  /** Whether this cycle counts a load-use event. */
  predicate LoadUseEvent(m: Machine) {
    && !DStalled(m)
    && (|| LoadUse(m.idL, m.exL)
        || (BranchWaitsForEX(m.idL, m.exL) && IsLoad(m.exL.ctl))
        || (!BranchWaitsForEX(m.idL, m.exL) && BranchWaitsForMEM(m.idL, m.memL)
            && !(m.exL.ctl.isNop && m.exL.status == BUBBLE)))
  }

  // ---- forwarding --------------------------------------------------------------------------------------------

  /** An older instruction as the forwarding logic sees it: whether it is a NOP, and what it writes where. */
  datatype Source = Source(isNop: bool, writesRd: bool, rd: RegId, value: Word)

  function Completed(x: Instruction): Source {
    Source(x.ctl.isNop, x.ctl.writesRd, x.ctl.rd, Result(x))
  }

  /** The instruction in EX: it offers its ALU result, even if it is a load. */
  function ALUSource(x: Instruction): Source {
    Source(x.ctl.isNop, x.ctl.writesRd, x.ctl.rd, x.arith)
  }

  predicate Offers(s: Source, r: RegId) {
    !s.isNop && s.writesRd && s.rd != 0 && r == s.rd
  }

  predicate Hides(younger: Source, older: Source) {
    younger.writesRd && younger.rd == older.rd
  }

  /** The operand `v` read earlier from register `r`, patched from `a`, `b` and `c`, youngest first. */
  function Forwarded(r: RegId, v: Word, a: Source, b: Source, c: Source): Word {
    var v1 := if Offers(a, r) then a.value else v;
    var v2 := if Offers(b, r) && !Hides(a, b) then b.value else v1;
    if Offers(c, r) && !Hides(a, c) && !Hides(b, c) then c.value else v2
  }

  function Forward(x: Instruction, a: Source, b: Source, c: Source): Instruction {
    x.(op1 := if x.ctl.readsRs1 then Forwarded(x.ctl.rs1, x.op1, a, b, c) else x.op1,
       op2 := if x.ctl.readsRs2 then Forwarded(x.ctl.rs2, x.op2, a, b, c) else x.op2)
  }

  /** The operand that EX receives for register `r`, if ID holds `v` for it. */
  function IntoEX(m: Machine, r: RegId, v: Word): Word {
    Forwarded(r, v, ALUSource(m.exL), Completed(m.memL), Completed(m.wbL))
  }

  /** The operand with which a branch is resolved, from what has just reached MEM and WB and what leaves WB. */
  function IntoBranch(m: Machine, newMEM: Instruction, newWB: Instruction, r: RegId, v: Word): Word {
    Forwarded(r, v, Completed(newMEM), Completed(newWB), Completed(m.wbL))
  }

  // ---- MEM ---------------------------------------------------------------------------------------------------

  /** WB->MEM forwarding of store data. */
  function WithStoreData(ex: Instruction, wb: Instruction): Instruction {
    if ex.ctl.writesMem && !wb.ctl.isNop && wb.ctl.writesRd && wb.ctl.rd == ex.ctl.rs2 && wb.ctl.rd != 0 then
      ex.(op2 := Result(wb))
    else ex
  }

  datatype MemOut = MemOut(latch: Instruction, mem: Mem, dCache: Cache, dStallLeft: nat)

  function StageMEM(m: Machine): MemOut {
    var left := Dec(m.dStallLeft);
    if DStalled(m) then MemOut(m.memL, m.mem, m.dCache, left)
    else if Live(m.exL) && m.exL.status != SQUASHED then
      var x := WithStoreData(m.exL, m.wbL);
      if x.ctl.readsMem || x.ctl.writesMem then
        var y := SimAddrGen(x);
        var (z, mem) := SimMEM(y, m.mem);
        if !z.fault && z.ctl.isLegal then
          MemOut(z, mem, Access(m.dCache, y.addr),
            if Resident(m.dCache, y.addr) then left else m.dCache.config.missLatency)
        else
          MemOut(z, mem, m.dCache, left)
      else
        MemOut(SimMEM(x, m.mem).0, m.mem, m.dCache, left)
    else MemOut(Nop(m.exL.status), m.mem, m.dCache, left)
  }

  // ---- EX ----------------------------------------------------------------------------------------------------

  function StageEX(m: Machine): Instruction {
    if DStalled(m) then m.exL
    else if Live(m.idL) && !m.idL.ctl.isLegal then Nop(SQUASHED)
    else if HazardStall(m) then Nop(BUBBLE)
    else
      var x := Forward(m.idL, ALUSource(m.exL), Completed(m.memL), Completed(m.wbL));
      var y := SimEX(x);
      if y.ctl.isNop then y.(status := m.idL.status) else y
  }

  // ---- ID ----------------------------------------------------------------------------------------------------

  /** The instruction in ID with the operands branch resolution uses. */
  function BranchOperands(m: Machine, newMEM: Instruction, newWB: Instruction): Instruction {
    if !DStalled(m) && Live(m.idL) then Forward(m.idL, Completed(newMEM), Completed(newWB), Completed(m.wbL))
    else m.idL
  }

  /** The old ID instruction raises the illegal-instruction exception (unless a squash is already pending). */
  predicate OldIdIllegal(m: Machine) {
    !m.squashNextIF && Live(m.idL) && !m.idL.ctl.isLegal
  }

  /** The control-flow instruction in ID is resolved in this cycle. */
  predicate Resolves(m: Machine, trap: bool) {
    && !HazardStall(m) && !DStalled(m) && !OldIdIllegal(m) && !trap && Live(m.idL)
    && IsControlFlow(m.idL.ctl)
  }

  /** The next PC that the resolution of the ID instruction yields. */
  function ResolvedPC(m: Machine, newMEM: Instruction, newWB: Instruction): Word {
    SimNextPCResolution(BranchOperands(m, newMEM, newWB)).nextPC
  }

  predicate TakesBranch(m: Machine, newMEM: Instruction, w: WbOut) {
    Resolves(m, w.trap) && ResolvedPC(m, newMEM, w.latch) != Next(m.idL.pc)
  }

  /** A new instruction moves from IF into ID and is decoded. */
  predicate Decodes(m: Machine, taken: bool) {
    && !DStalled(m) && !HazardStall(m) && !m.squashNextIF && !taken && !IStalled(m) && !m.ifL.ctl.isNop
  }

  datatype IdOut = IdOut(latch: Instruction, counters: Counters, illegal: bool)

  /** `taken`: a branch was resolved as taken in this cycle. */
  function StageID(m: Machine, regs: Regs, taken: bool): IdOut {
    if DStalled(m) || HazardStall(m) then IdOut(m.idL, m.counters, false)
    else if m.squashNextIF || taken then IdOut(Nop(SQUASHED), m.counters, false)
    else if IStalled(m) then IdOut(Nop(BUBBLE), m.counters, false)
    else if m.ifL.ctl.isNop then IdOut(Nop(if m.ifL.status == IDLE then IDLE else BUBBLE), m.counters, false)
    else
      var (x, n) := SimID(m.ifL, regs, m.counters);
      IdOut(x, n, !x.ctl.isLegal || (x.word == 0 && !x.ctl.isNop && !x.ctl.isHalt))
  }

  // ---- IF ----------------------------------------------------------------------------------------------------

  datatype IfOut = IfOut(latch: Instruction, pc: Word, iCache: Cache, iStallLeft: nat,
                         squashNextIF: bool, justFinishedIStall: bool)

  /** An empty IF latch that shows the address it waits for. */
  function Waiting(pc: Word, status: StageStatus): Instruction {
    Nop(status).(pc := pc)
  }

  /** A redirected fetch; `left` is what a hit leaves of the I-stall of the old path. */
  function Redirect(m: Machine, mem: Mem, target: Word, status: StageStatus, left: nat): IfOut {
    if Resident(m.iCache, target) then
      IfOut(SimIF(mem, target), Next(target), Access(m.iCache, target), left, false, false)
    else
      IfOut(Waiting(target, status), target, Access(m.iCache, target), m.iCache.config.missLatency, false, false)
  }

  function SequentialFetch(m: Machine, mem: Mem, newID: Instruction): IfOut {
    if Resident(m.iCache, m.pc) then
      var x := SimIF(mem, m.pc);
      IfOut(if Live(newID) && IsControlFlow(newID.ctl) then x.(status := SPECULATIVE) else x,
        Next(m.pc), Access(m.iCache, m.pc), Dec(m.iStallLeft), false, false)
    else
      IfOut(Waiting(m.pc, NORMAL), m.pc, Access(m.iCache, m.pc), m.iCache.config.missLatency, false, false)
  }

  /** `mem` is the memory after the MEM stage, `nextPC` the target of the trap or of the taken branch. */
  function StageIF(m: Machine, mem: Mem, newID: Instruction, trap: bool, illegal: bool, taken: bool,
    nextPC: Word): IfOut {
    var left := Dec(m.iStallLeft);
    if trap then Redirect(m, mem, nextPC, NORMAL, 0)
    else if illegal then
      IfOut(Waiting(m.pc, NORMAL), nextPC, Access(m.iCache, m.pc), left, true, false)
    else if taken then Redirect(m, mem, nextPC, IDLE, if m.squashNextIF then left else 0)
    else if DStalled(m) then
      if IStalled(m) then IfOut(Waiting(m.pc, NORMAL), m.pc, m.iCache, left, false, false)
      else if m.ifL.ctl.isNop then IfOut(SimIF(mem, m.pc), Next(m.pc), m.iCache, left, false, false)
      else IfOut(m.ifL, m.pc, m.iCache, left, false, false)
    else if HazardStall(m) then
      if IStalled(m) then IfOut(Waiting(m.pc, NORMAL), m.pc, m.iCache, left, false, false)
      else
        IfOut(if BranchDataStall(m) then m.ifL.(status := SPECULATIVE) else m.ifL, m.pc, m.iCache, left, false, false)
    else if IStalled(m) then IfOut(Waiting(m.pc, NORMAL), m.pc, m.iCache, left, false, true)
    else if m.justFinishedIStall then IfOut(SimIF(mem, m.pc), Next(m.pc), m.iCache, left, false, false)
    else SequentialFetch(m, mem, newID)
  }

  // ---- the whole cycle ---------------------------------------------------------------------------------------

  /** The redirection target of the cycle: a newly decoded illegal word, a resolved branch, an illegal word in ID
      and a memory trap override the fall-through in this order. */
  function RedirectPC(m: Machine, w: WbOut, e: MemOut, d: IdOut): Word {
    if d.illegal then d.latch.nextPC
    else if Resolves(m, w.trap) then ResolvedPC(m, e.latch, w.latch)
    else if OldIdIllegal(m) then m.idL.nextPC
    else w.nextPC
  }

  /** ID and IF, after WB (`w`) and MEM (`e`). */
  function FrontEnd(m: Machine, w: WbOut, e: MemOut): (IdOut, IfOut) {
    var taken := TakesBranch(m, e.latch, w);
    var d := StageID(m, w.regs, taken);
    (d, StageIF(m, e.mem, d.latch, w.trap, OldIdIllegal(m) || d.illegal, taken, RedirectPC(m, w, e, d)))
  }

  function Cycle(m: Machine): Machine {
    var w := StageWB(m);
    var e := StageMEM(m);
    var (d, f) := FrontEnd(m, w, e);
    Machine(w.regs, e.mem, d.counters, f.iCache, e.dCache,
      f.latch,
      if w.trap then Nop(SQUASHED) else d.latch,
      if w.trap then Nop(SQUASHED) else StageEX(m),
      if w.trap then Nop(SQUASHED) else e.latch,
      w.latch,
      f.pc, f.squashNextIF, f.iStallLeft, e.dStallLeft, f.justFinishedIStall,
      m.cycleCount + 1, w.retired, m.loadUseStallCount + (if LoadUseEvent(m) then 1 else 0))
  }

  /** The status `runCycles` stops on: HALT has reached WB. */
  predicate Halted(m: Machine) { m.wbL.ctl.isHalt }

  function Run(m: Machine, cycles: nat): Machine
    decreases cycles
  {
    if cycles == 0 then m else Run(Cycle(m), cycles - 1)
  }

  lemma RunZero(m: Machine)
    ensures Run(m, 0) == m
  {
  }

  /** One more cycle at the end of a run. */
  lemma {:induction false} RunStep(m: Machine, n: nat)
    ensures Run(m, n + 1) == Cycle(Run(m, n))
    decreases n
  {
    hide Cycle;
    if n > 0 { RunStep(Cycle(m), n - 1); }
    else { assert Run(Cycle(m), 0) == Cycle(m); }
  }
}
