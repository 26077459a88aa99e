/** The fetch stage: no instruction is skipped, fetched twice for decoding, or kept from a wrong path. */
module Fetching {
  import opened Utilities
  import opened Memory
  import opened Instructions
  import opened LruCache
  import opened SequentialRun
  import opened PipelineSpec
  import opened HazardSafety
  import opened Correspondence

  /** `FetchAt` for the outcome of the fetch stage. */
  predicate FetchedAt(f: IfOut, y: Word) {
    && (f.latch.ctl.isNop ==> f.pc == y)
    && (!f.latch.ctl.isNop ==> f.latch.pc == y && f.pc == Next(y))
    && (f.iStallLeft > 0 ==> f.latch.ctl.isNop)
    && !f.squashNextIF
  }

  /** Equal but for the status shown. */
  predicate SameButStatus(x: Instruction, y: Instruction) {
    x.pc == y.pc && x.word == y.word && x.ctl == y.ctl && x.op1 == y.op1 && x.op2 == y.op2 && x.arith == y.arith
    && x.fault == y.fault && x.memVal == y.memVal
  }

  /** The address IF works on after a cycle without exceptions, if it stood at `y` before. */
  function NextFetch(m: Machine, y: Word, taken: bool, target: Word): Word {
    if taken then target
    else if Decodes(m, taken) then Next(y)
    else y
  }

  /** One cycle of the fetch stage.  A live latch afterwards was fetched in this cycle or was there before and
      has not moved on. */
  lemma IFStep(m: Machine, mem: Mem, newID: Instruction, taken: bool, target: Word, y: Word)
    requires FetchAt(m, y) && (taken ==> !DStalled(m) && !HazardStall(m))
    ensures var f := StageIF(m, mem, newID, false, false, taken, target);
            var z := NextFetch(m, y, taken, target);
            && FetchedAt(f, z)
            && (Live(f.latch) ==>
                  || SameButStatus(f.latch, SimIF(mem, z))
                  || (z == y && !taken && !Decodes(m, taken) && Live(m.ifL) && SameButStatus(f.latch, m.ifL)))
  {
    hide FetchWord, Next, Access, Resident, HazardStall, BranchDataStall;
    FetchIsLive(mem, y);
    FetchIsLive(mem, Next(y));
    FetchIsLive(mem, target);
  }

  lemma FetchIsLive(mem: Mem, pc: Word)
    ensures var x := SimIF(mem, pc); x.pc == pc && JustFetched(x)
    ensures var x := SimIF(mem, pc);
            match FetchWord(mem, pc) case None => x.fault && x.word == 0 case Some(w) => !x.fault && x.word == w
  {
    hide FetchWord, Next;
  }

  /** The word fetched for instruction `n` while `j` instructions have accessed memory. */
  lemma FetchesRight(a: Course, h: nat, n: nat, j: nat, pc: Word, x: Instruction)
    requires RunsToHalt(a, h) && HazardSafe(a, h) && j <= n <= j + 2 && n <= h + 1 && j <= h
    requires n == h + 1 ==> pc == Next(SeqAt(a, h).pc)
    requires SameButStatus(x, SimIF(SeqAt(a, j).mem, pc))
    ensures FetchedRight(a, h, n, x)
  {
    hide SeqAt, InstrAt, RunsToHalt, FetchWord, Next, DecodeWord, StoreDataSafe, LoadUseSafe, BranchOperandSafe,
      ArithOf, AccessOf, WriteReg, NextPC, SimIF;
    FetchIsLive(SeqAt(a, j).mem, pc);
    if n <= h {
      assert CodeStable(a, n);
      Explain(a, h, n);
    } else {
      assert FetchesNoStore(SeqAt(a, j).mem, Next(SeqAt(a, h).pc));
      ZeroIsNoStore();
    }
  }

  lemma ZeroIsNoStore()
    ensures !DecodeWord(0).writesMem
  {
    hide DecodeWord;
    IllegalZero();
    DecodeShape(0);
  }

  // ---- decoding ----------------------------------------------------------------------------------------------

  /** Decoding the right word yields the instruction of the run, with the operands of the registers as they are. */
  lemma IDStep(a: Course, h: nat, n: nat, x: Instruction, regs: Regs, s: Regs, c: Counters)
    requires RunsToHalt(a, h) && n <= h && FetchedRight(a, h, n, x) && x.pc == SeqAt(a, n).pc && SameRegs(regs, s)
    ensures var y := SimID(x, regs, c).0;
            && Decoded(y, InstrAt(a, n)) && y.ctl.isLegal && y.word != 0
            && (y.ctl.readsRs1 ==> y.op1 == ReadReg(s, y.ctl.rs1))
            && (y.ctl.readsRs2 ==> y.op2 == ReadReg(s, y.ctl.rs2))
  {
    hide SeqAt, InstrAt, RunsToHalt, DecodeWord, NextPC, ReadReg, ArithOf, AccessOf, WriteReg, FetchWord;
    Explain(a, h, n);
    ShapeAt(a, h, n);
    IllegalZero();
    DecodeFields(x, regs, c);
  }

  lemma DecodeFields(x: Instruction, regs: Regs, c: Counters)
    requires JustFetched(x)
    ensures var y := SimID(x, regs, c).0;
            && y.ctl == DecodeWord(x.word) && y.word == x.word && y.pc == x.pc && y.fault == x.fault
            && y.arith == 0 && y.memVal == 0
            && (y.ctl.isLegal ==>
                  && y.op1 == (if y.ctl.readsRs1 then ReadReg(regs, y.ctl.rs1) else 0)
                  && y.op2 == (if y.ctl.readsRs2 then ReadReg(regs, y.ctl.rs2) else 0))
  {
    hide DecodeWord, NextPC, ReadReg;
  }
}
