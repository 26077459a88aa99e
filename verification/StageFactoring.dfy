/** The five stage functions, one after the other on an empty pipeline, do what the reference simulator does. */
module StageFactoring {
  import opened Utilities
  import opened Memory
  import opened Instructions
  import opened SequentialRun
  import opened HazardSafety
  import opened Correspondence
  import opened Stages

  /** What one instruction leaves: registers, memory, and the next PC as WB shows it. */
  datatype Outcome = Outcome(regs: Regs, mem: Mem, nextPC: Word, resolvedPC: Word)

  /** An instruction on its own: IF, ID, EX, MEM, WB. */
  function Staged(a: Arch, n: Counters): Outcome {
    var d := SimID(SimIF(a.mem, a.pc), a.regs, n).0;
    var (m, mem) := SimMEM(SimEX(d), a.mem);
    var (w, regs) := SimWB(m, a.regs);
    Outcome(regs, mem, w.nextPC, d.nextPC)
  }

  lemma FetchedFor(a: Arch, n: nat)
    requires Proceeds(SimInstruction(a, n).0)
    ensures var x := SimIF(a.mem, a.pc);
            && FetchWord(a.mem, a.pc) == Some(SimInstruction(a, n).0.word)
            && x.word == SimInstruction(a, n).0.word && !x.fault && x.pc == a.pc && JustFetched(x)
  {
    hide DecodeWord, NextPC, Alu, ShiftMasked, MemAccess, Address, FetchWord, ReadReg, WriteReg, Next;
    ExplainStep(a, n);
  }

  /** ID and EX compute the reference operands, next PC and ALU result. */
  lemma ThroughEX(a: Arch, n: nat, c: Counters)
    requires Proceeds(SimInstruction(a, n).0)
    ensures var (x, s) := SimInstruction(a, n);
            var d := SimID(SimIF(a.mem, a.pc), a.regs, c).0;
            var e := SimEX(d);
            && d.nextPC == s.pc && e.nextPC == d.nextPC && e.ctl == x.ctl && e.word == x.word && e.pc == a.pc
            && !e.fault
            && e.arith == x.arith && e.memVal == 0 && e.op1 == Operand1(x.ctl, a.regs)
            && (!x.ctl.doesArith ==> e.op2 == Operand2(x.ctl, a.regs))
  {
    hide DecodeWord, SimInstruction, NextPC, Alu, ShiftMasked, AccessOf, FetchWord, ReadReg, WriteReg, Next, SimIF;
    ExplainStep(a, n);
    FetchedFor(a, n);
    DecodeShape(SimInstruction(a, n).0.word);
  }

  /** An illegal or faulted instruction has no effect in EX, MEM and WB, and goes to the handler. */
  lemma NoEffect(x: Instruction, mem: Mem, regs: Regs)
    requires !x.ctl.isLegal || x.fault
    ensures SimEX(x) == x.(status := NORMAL) && SimMEM(x, mem) == (x.(status := NORMAL), mem)
    ensures SimWB(x, regs) == (x.(nextPC := 0x8000, status := NORMAL), regs)
  {
  }

  /** Computing the address of an access a second time does not change it. */
  lemma AddressIsIdempotent(x: Instruction)
    ensures SimAddrGen(SimAddrGen(x)) == SimAddrGen(x)
  {
    hide Displaced, ImmediateI, ImmediateS;
  }

  /** MEM does the memory access of the reference simulator. */
  lemma ThroughMEM(a: Arch, n: nat, e: Instruction)
    requires var x := SimInstruction(a, n).0;
             && Proceeds(x) && WellShaped(x.ctl) && e.ctl == x.ctl && e.word == x.word && !e.fault
             && e.arith == x.arith && e.memVal == 0 && e.op1 == Operand1(x.ctl, a.regs)
             && (!x.ctl.doesArith ==> e.op2 == Operand2(x.ctl, a.regs))
    ensures var (x, s) := SimInstruction(a, n);
            var (m, mem) := SimMEM(e, a.mem);
            && mem == s.mem && m.ctl == x.ctl && !m.fault && m.nextPC == e.nextPC && m.pc == e.pc
            && (x.ctl.writesRd ==> Result(m) == Result(x))
  {
    hide DecodeWord, SimInstruction, NextPC, FetchWord, ReadReg, WriteReg, Next, MemAccess, Address, ArithOf,
      Operand1, Operand2;
    ExplainStep(a, n);
    var c := e.ctl;
    if TouchesMemory(c) { AccessAgrees(a.mem, c, e.word, e.op1, Operand2(c, a.regs), e.op2, e.addr); }
  }

  /** WB writes the register of the reference simulator, x0 apart. */
  lemma ThroughWB(a: Arch, n: nat, m: Instruction)
    requires var x := SimInstruction(a, n).0;
             Proceeds(x) && WellShaped(x.ctl) && m.ctl == x.ctl && !m.fault
                 && (x.ctl.writesRd ==> Result(m) == Result(x))
    ensures var (x, s) := SimInstruction(a, n);
            var (w, regs) := SimWB(m, a.regs);
            SameRegs(regs, s.regs) && (!x.ctl.isNop ==> w.nextPC == m.nextPC)
                && (x.ctl.isNop ==> w.nextPC == Next(m.pc))
  {
    hide DecodeWord, SimInstruction, NextPC, FetchWord, ReadReg, WriteReg, Next, ArithOf, AccessOf, Result;
    ExplainStep(a, n);
    var (x, s) := SimInstruction(a, n);
    forall q: RegId
      ensures ReadReg(SimWB(m, a.regs).1, q) == ReadReg(s.regs, q)
    {
      ReadAfterWrite(a.regs, x.ctl.rd, Result(x), q);
    }
  }

  /** Stage factoring: for every legal, non-faulting instruction other than HALT, the stages have the effect of
      the reference simulator on x1 to x31, memory and the PC. */
  lemma StagesFactorInstruction(a: Arch, n: nat, c: Counters)
    requires Proceeds(SimInstruction(a, n).0)
    ensures var s, o := SimInstruction(a, n).1, Staged(a, c);
            SameRegs(o.regs, s.regs) && o.mem == s.mem && o.resolvedPC == s.pc && o.nextPC == s.pc
  {
    hide DecodeWord, SimInstruction, NextPC, FetchWord, ReadReg, WriteReg, Next, SimIF, SimID, SimEX, SimMEM, SimWB,
      SameRegs, ArithOf, AccessOf, Result;
    var (x, s) := SimInstruction(a, n);
    var e := SimEX(SimID(SimIF(a.mem, a.pc), a.regs, c).0);
    ExplainStep(a, n);
    ThroughEX(a, n, c);
    DecodeShape(x.word);
    ThroughMEM(a, n, e);
    ThroughWB(a, n, SimMEM(e, a.mem).0);
    if x.ctl.isNop { FallThrough(x.ctl, x.word, x.pc, Operand1(x.ctl, a.regs), Operand2(x.ctl, a.regs)); }
  }
}
