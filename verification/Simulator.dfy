/** `Simulator` of src/simulator.cpp: register file, memory and decode counters, updated by the stage methods. */
module Simulators {
  import opened Utilities
  import opened Memory
  import opened MemoryStores
  import I = Instructions

  class Simulator {
    const registers: array<Word>
    const memory: MemoryStore
    var din: nat
    var countDin: bool

    ghost predicate Valid() {
      registers.Length == 32 && memory.Valid() && registers as object != memory.memArr
    }

    ghost function Regs(): I.Regs
      requires registers.Length == 32
      reads registers
    {
      registers[..]
    }

    ghost function Counters(): I.Counters
      reads this
    {
      I.Counters(din, countDin)
    }

    constructor (mem: MemoryStore)
      requires mem.Valid()
      ensures Valid() && memory == mem && fresh(registers)
      ensures Regs() == seq(32, _ => 0) && Counters() == I.Counters(0, true)
    {
      registers := new Word[32](_ => 0);
      memory := mem;
      din, countDin := 0, true;
    }

    method SimFetch(pc: Word) returns (x: I.Instruction)
      requires Valid()
      ensures x == I.SimFetch(memory.State(), pc)
    {
      var ret, instruction := memory.GetMemValue(pc, WORD_SIZE);
      if ret != 0 {
        x := I.NO_INSTRUCTION.(pc := pc, fault := true);
      } else {
        x := I.NO_INSTRUCTION.(pc := pc, word := (instruction as int % 0x1_0000_0000) as Word);
      }
    }

    /** Reads mask x0, whatever its slot holds. */
    method SimOperandCollection(x: I.Instruction) returns (y: I.Instruction)
      requires Valid()
      ensures y == I.SimOperandCollection(x, Regs())
    {
      y := x;
      if x.ctl.readsRs1 {
        y := y.(op1 := if x.ctl.rs1 == 0 then 0 else registers[x.ctl.rs1 as int]);
      }
      if x.ctl.readsRs2 {
        y := y.(op2 := if x.ctl.rs2 == 0 then 0 else registers[x.ctl.rs2 as int]);
      }
    }

    method SimMemAccess(x: I.Instruction) returns (y: I.Instruction)
      requires Valid()
      modifies memory.memArr
      ensures (y, memory.State()) == I.SimMemAccess(x, old(memory.State()))
    {
      var size := I.AccessSize(x.ctl.funct3);
      y := x;
      if x.ctl.readsMem {
        var ret, value := memory.GetMemValue(x.addr, size);
        if ret != 0 {
          y := x.(fault := true);
        } else {
          y := x.(memVal := I.LoadedValue(x.ctl.funct3, value));
        }
      } else if x.ctl.writesMem {
        var ret := memory.SetMemValue(x.addr, x.op2, size);
        if ret != 0 {
          y := x.(fault := true);
        }
      }
    }

    method SimCommit(x: I.Instruction)
      requires Valid()
      modifies registers
      ensures Regs() == I.SimCommit(x, old(Regs()))
    {
      registers[x.ctl.rd as int] := if x.ctl.readsMem then x.memVal else x.arith;
    }

    method SimIF(pc: Word) returns (x: I.Instruction)
      requires Valid()
      ensures x == I.SimIF(memory.State(), pc)
    {
      x := SimFetch(pc);
      x := x.(nextPC := Next(pc), status := I.NORMAL);
    }

    method SimID(x: I.Instruction) returns (y: I.Instruction)
      requires Valid()
      modifies this`din, this`countDin
      ensures (y, Counters()) == I.SimID(x, Regs(), old(Counters()))
    {
      hide I.DecodeWord, I.NextPC, I.ReadReg;
      y := I.SimDecode(x);
      if !y.ctl.isNop && countDin {
        y := y.(id := din, counted := true);
        din := din + 1;
      }
      if !y.ctl.isLegal {
        y := y.(nextPC := I.EXCEPTION_HANDLER, status := I.NORMAL);
        return;
      }
      if y.ctl.isHalt {
        countDin := false;
      }
      y := SimOperandCollection(y);
      y := I.SimNextPCResolution(y).(status := I.NORMAL);
    }

    method SimMEM(x: I.Instruction) returns (y: I.Instruction)
      requires Valid()
      modifies memory.memArr
      ensures (y, memory.State()) == I.SimMEM(x, old(memory.State()))
    {
      hide I.MemAccess, I.Address;
      y := x;
      if x.ctl.isLegal && !x.fault && (x.ctl.readsMem || x.ctl.writesMem) {
        y := I.SimAddrGen(y);
        y := SimMemAccess(y);
      }
      y := y.(status := I.NORMAL);
    }

    method SimWB(x: I.Instruction) returns (y: I.Instruction)
      requires Valid()
      modifies registers
      ensures (y, Regs()) == I.SimWB(x, old(Regs()))
    {
      hide I.SimCommit;
      if !x.ctl.isLegal || x.fault {
        return x.(nextPC := I.EXCEPTION_HANDLER, status := I.NORMAL);
      }
      if x.ctl.isHalt || x.ctl.isNop {
        return x.(nextPC := Next(x.pc), status := I.NORMAL);
      }
      if x.ctl.writesRd && x.ctl.rd != 0 {
        SimCommit(x);
      }
      y := x.(status := I.NORMAL);
    }

    /** The architectural state of the reference simulator at `pc`. */
    ghost function Arch(pc: Word): I.Arch
      requires Valid()
      reads registers, memory.memArr
    {
      I.Arch(Regs(), memory.State(), pc)
    }

    /** One whole instruction. */
    method SimInstruction(pc: Word) returns (x: I.Instruction)
      requires Valid()
      modifies this`din, registers, memory.memArr
      ensures (x, Arch(x.nextPC)) == I.SimInstruction(old(Arch(pc)), old(din))
      ensures din == old(din) + 1
    {
      hide I.DecodeWord, I.NextPC, I.SimArithLogic, I.SimMemAccess, I.SimAddrGen, I.SimCommit, I.ReadReg, I.FetchWord;
      x := SimFetch(pc);
      x := I.SimDecode(x);
      x := x.(id := din);
      din := din + 1;
      if !x.ctl.isLegal || x.ctl.isHalt {
        return;
      }
      x := SimOperandCollection(x);
      x := I.SimNextPCResolution(x);
      if x.ctl.doesArith {
        x := I.SimArithLogic(x);
      }
      if x.ctl.readsMem || x.ctl.writesMem {
        x := I.SimAddrGen(x);
        x := SimMemAccess(x);
      }
      if x.ctl.writesRd {
        SimCommit(x);
      }
    }
  }
}
