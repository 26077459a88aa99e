/** The side conditions under which the pipeline runs a program as the reference simulator does. */
module HazardSafety {
  import opened Utilities
  import opened Memory
  import opened Instructions
  import opened SequentialRun
  import opened PipelineSpec

  /** Instruction number `k` reads register `r`. */
  predicate Reads(a: Course, k: nat, r: RegId) {
    DependsOn(InstrAt(a, k).ctl, r)
  }

  predicate TouchesMemory(c: Control) { c.readsMem || c.writesMem }

  predicate NeedsEarlyOperands(c: Control) { c.opcode == OP_BRANCH || c.opcode == OP_JALR }

  /** (A) The data register of a store is written neither by an immediately preceding load nor by both of the
      two preceding instructions: WB->MEM forwarding looks two instructions back only. */
  ghost predicate StoreDataSafe(a: Course, k: nat) {
    var x := InstrAt(a, k).ctl;
    x.writesMem ==>
      && !(k >= 1 && InstrAt(a, k - 1).ctl.readsMem && Writes(a, k - 1, x.rs2))
      && !(k >= 2 && Writes(a, k - 1, x.rs2) && Writes(a, k - 2, x.rs2))
  }

  /** (B1) An instruction that reads the result of the load just before it has no other source written by the
      instruction before that load: the held instruction keeps the operands it read at decode. */
  ghost predicate LoadUseSafe(a: Course, k: nat) {
    k >= 2 && InstrAt(a, k - 1).ctl.readsMem ==>
      forall q, r :: Writes(a, k - 1, q) && Reads(a, k, q) && Reads(a, k, r) && r != q ==> !Writes(a, k - 2, r)
  }

  /** (B2) If a branch or JALR reads the result of the load two before it, the instruction between them does not
      access memory: a D-miss of that instruction would drop the loaded value from WB. */
  ghost predicate BranchOperandSafe(a: Course, k: nat) {
    k >= 2 && InstrAt(a, k - 2).ctl.readsMem && NeedsEarlyOperands(InstrAt(a, k).ctl) ==>
      forall q :: Writes(a, k - 2, q) && Reads(a, k, q) && !Writes(a, k - 1, q) ==>
            !TouchesMemory(InstrAt(a, k - 1).ctl)
  }

  /** (C) Neither of the two preceding instructions overwrites the word of instruction `k`. */
  ghost predicate CodeStable(a: Course, k: nat) {
    forall j: nat :: j <= k <= j + 2 ==>
      FetchWord(SeqAt(a, j).mem, SeqAt(a, k).pc) == FetchWord(SeqAt(a, k).mem, SeqAt(a, k).pc)
  }

  predicate FetchesNoStore(mem: Mem, pc: Word) {
    match FetchWord(mem, pc)
    case None => true
    case Some(w) => !DecodeWord(w).writesMem
  }

  /** (D) The word behind HALT is not a store: MEM runs in the same iteration in which HALT reaches WB. */
  ghost predicate HaltShadowSafe(a: Course, h: nat) {
    forall j: nat :: j <= h <= j + 1 ==> FetchesNoStore(SeqAt(a, j).mem, Next(SeqAt(a, h).pc))
  }

  ghost predicate HazardSafe(a: Course, h: nat) {
    && (forall k: nat :: k <= h ==>
          StoreDataSafe(a, k) && LoadUseSafe(a, k) && BranchOperandSafe(a, k) && CodeStable(a, k))
    && HaltShadowSafe(a, h)
  }
}
