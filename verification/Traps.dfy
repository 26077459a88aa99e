/** What faults and illegal words lead to: no effect of the faulting or any younger instruction, and the exception
    handler as the next instruction decoded, within a bounded time. */
module Traps {
  import opened Utilities
  import opened Instructions
  import opened LruCache
  import opened SequentialRun
  import opened PipelineSpec
  import opened Correspondence
  import opened Fetching
  import opened Preservation
  import opened Ledgers
  import opened ControlFlow
  import opened Liveness

  /** The first word of the handler is the next one to be decoded. */
  predicate HandlerAhead(m: Machine) { Redirected(m, EXCEPTION_HANDLER) || Parked(m) }

  /** Whatever is still in flight may fault, but this leads to the handler, too. */
  lemma StaysAhead(m: Machine)
    requires Shaped(m) && HandlerAhead(m) && !DecodesNow(m)
    ensures HandlerAhead(Cycle(m))
  {
    hide StageWB, StageMEM, StageEX, Taken, Cycle, HazardStall, Parked, DecodesNow;
    if Redirected(m, EXCEPTION_HANDLER) { StaysRedirected(m); }
    else if DStalled(m) { ParkedInStall(m); }
    else if m.squashNextIF { IllegalWordLeaves(m); }
    else { ParkedDecodes(m); assert false; }
  }

  lemma StaysRedirected(m: Machine)
    requires Shaped(m) && Redirected(m, EXCEPTION_HANDLER) && !DecodesNow(m)
    ensures Redirected(Cycle(m), EXCEPTION_HANDLER)
  {
    hide StageWB, StageMEM, StageEX, Taken, Cycle, HazardStall;
    NewWBCases(m);
    if StageWB(m).trap {
      DataFaultTraps(m);
    } else {
      QuietID(m);
      RedirectedDecodes(m, EXCEPTION_HANDLER);
    }
  }

  /** A D-stall uses up the pending squash, and the exception is raised again in its next cycle. */
  lemma ParkedInStall(m: Machine)
    requires Shaped(m) && Parked(m) && DStalled(m)
    ensures var m' := Cycle(m);
            && Parked(m') && m'.squashNextIF == !m.squashNextIF && m'.dStallLeft == m.dStallLeft - 1
    ensures !DecodesNow(m)
  {
    hide StageEX, Access, Resident, HazardStall, FetchWord, Next, Taken, WellShaped;
    FetchIsLive(m.mem, m.pc);
    NewIDCases(m);
  }

  /** With the squash used up, the first word of the handler is decoded as soon as the D-stall is over. */
  lemma ParkedDecodes(m: Machine)
    requires Shaped(m) && Parked(m) && !DStalled(m) && !m.squashNextIF
    ensures DecodesNow(m) && m.ifL.pc == EXCEPTION_HANDLER
  {
    hide HazardStall, Taken;
    IllegalHasNoHazard(m);
    IllegalIsNotTaken(m);
  }

  lemma QuietID(m: Machine)
    requires !Live(m.idL) && !Decodes(m, Taken(m))
    ensures !OldIdIllegal(m) && !StageID(m, StageWB(m).regs, Taken(m)).illegal
  {
    hide StageWB, Taken, HazardStall;
  }

  /** A redirected pipeline decodes the first instruction of the handler next. */
  lemma {:induction false} HandlerIsNext(m: Machine, k: nat)
    requires Shaped(m) && HandlerAhead(m)
    requires DecodesNow(Run(m, k)) && forall j: nat :: j < k ==> !DecodesNow(Run(m, j))
    ensures Run(m, k).ifL.pc == EXCEPTION_HANDLER
    decreases k
  {
    hide Shaped, HandlerAhead, DecodesNow, Cycle;
    RunZero(m);
    if k == 0 {
      DecodesFetched(m);
    } else {
      assert !DecodesNow(Run(m, 0));
      StaysAhead(m);
      ShapeKept(m);
      forall j: nat | j < k - 1
        ensures !DecodesNow(Run(Cycle(m), j))
      {
        assert Run(m, j + 1) == Run(Cycle(m), j);
      }
      HandlerIsNext(Cycle(m), k - 1);
    }
  }

  lemma DecodesFetched(m: Machine)
    requires Shaped(m) && HandlerAhead(m) && DecodesNow(m)
    ensures m.ifL.pc == EXCEPTION_HANDLER
  {
    hide Taken, HazardStall;
  }

  /** ID, EX and MEM are empty. */
  predicate Drained(m: Machine) { !Live(m.idL) && !Live(m.exL) && !Live(m.memL) }

  lemma StaysDrained(m: Machine)
    requires Shaped(m) && Drained(m) && !DecodesNow(m)
    ensures Drained(Cycle(m)) && Cycle(m).regs == m.regs && Cycle(m).mem == m.mem && Cycle(m).dynRetired == m.dynRetired
  {
    hide StageWB, StageMEM, StageEX, Taken, Cycle, HazardStall, NewID, NewMEM, Decodes;
    NewWBCases(m); NewIDCases(m); NewEXCases(m); NewMEMCases(m);
    HoldCases(m);
    CycleLatches(m);
    EmptyStages(m);
    CycleParts(m);
  }

  lemma EmptyStages(m: Machine)
    requires Shaped(m) && Drained(m)
    ensures StageWB(m).regs == m.regs && StageMEM(m).mem == m.mem
  {
  }

  lemma {:induction false} RunDrained(m: Machine, k: nat)
    requires Shaped(m) && Drained(m) && forall j: nat :: j < k ==> !DecodesNow(Run(m, j))
    ensures Run(m, k).regs == m.regs && Run(m, k).mem == m.mem && Run(m, k).dynRetired == m.dynRetired
    decreases k
  {
    hide Shaped, Drained, DecodesNow, Cycle;
    RunZero(m);
    if k > 0 {
      assert !DecodesNow(Run(m, 0));
      StaysDrained(m);
      ShapeKept(m);
      forall j: nat | j < k - 1
        ensures !DecodesNow(Run(Cycle(m), j))
      {
        assert Run(m, j + 1) == Run(Cycle(m), j);
      }
      RunDrained(Cycle(m), k - 1);
    }
  }

  /** A data fault: from the state in which the faulting instruction is in MEM, no register is written and nothing
      retires any more until the first instruction of the handler is decoded; this takes a bounded time. */
  lemma DataFaultReachesHandler(m: Machine) returns (k: nat)
    requires Shaped(m) && FetchSound(m) && Faults(m)
    ensures k <= TimeToDecode(Cycle(m)) && DecodesNow(Run(Cycle(m), k))
    ensures forall j: nat :: j < k ==> !DecodesNow(Run(Cycle(m), j))
    ensures Run(Cycle(m), k).ifL.pc == EXCEPTION_HANDLER
    ensures Run(Cycle(m), k).regs == m.regs && Run(Cycle(m), k).dynRetired == m.dynRetired
    ensures Run(Cycle(m), k).mem == Cycle(m).mem
  {
    hide Shaped, FetchSound, TimeToDecode, Cycle, DecodesNow, Run, Redirected;
    DataFaultTraps(m);
    ShapeKept(m);
    FetchSoundKept(m);
    k := NextDecode(Cycle(m));
    HandlerIsNext(Cycle(m), k);
    RunDrained(Cycle(m), k);
  }

  /** An illegal word: the next instruction decoded is the first one of the handler, in bounded time, even if an older
      instruction faults meanwhile, and whether or not a D-stall holds the illegal word in ID. */
  lemma IllegalWordReachesHandler(m: Machine) returns (k: nat)
    requires Shaped(m) && FetchSound(m) && DecodesIllegal(m)
    ensures k <= TimeToDecode(Cycle(m)) && DecodesNow(Run(Cycle(m), k))
    ensures forall j: nat :: j < k ==> !DecodesNow(Run(Cycle(m), j))
    ensures Run(Cycle(m), k).ifL.pc == EXCEPTION_HANDLER
  {
    hide Shaped, FetchSound, TimeToDecode, Cycle, DecodesNow, Run, Parked, Redirected, DecodesIllegal;
    AfterIllegalDecode(m);
    ShapeKept(m);
    FetchSoundKept(m);
    k := NextDecode(Cycle(m));
    HandlerIsNext(Cycle(m), k);
  }

  /** The squash alternates through a D-stall. */
  lemma {:induction false} StallParity(m: Machine)
    requires Shaped(m) && Parked(m)
    ensures var end := Run(m, m.dStallLeft);
            && Shaped(end) && Parked(end) && !DStalled(end)
            && (end.squashNextIF <==> (m.squashNextIF <==> m.dStallLeft % 2 == 0))
    ensures forall j: nat :: j < m.dStallLeft ==> !DecodesNow(Run(m, j))
    decreases m.dStallLeft
  {
    hide Shaped, Parked, DecodesNow, Cycle;
    RunZero(m);
    if m.dStallLeft > 0 {
      ParkedInStall(m);
      ShapeKept(m);
      StallParity(Cycle(m));
      forall j: nat | j < m.dStallLeft
        ensures !DecodesNow(Run(m, j))
      {
        if j > 0 { assert Run(m, j) == Run(Cycle(m), j - 1); }
      }
    }
  }

  /** An illegal word whose cycle starts a D-stall of `d` cycles: if `d` is even the word is dropped when the stall is
      over, without a decode; if it is odd, the first word of the handler is decoded in that very cycle, and IF is
      redirected to it once more. */
  lemma IllegalWordInStall(m: Machine)
    requires Shaped(m) && DecodesIllegal(m)
    ensures var d := StageMEM(m).dStallLeft;
            var end := Run(Cycle(m), d);
            && (forall j: nat :: j < d ==> !DecodesNow(Run(Cycle(m), j)))
            && (DecodesNow(end) <==> d % 2 == 1)
            && (d % 2 == 0 ==> Redirected(Cycle(end), EXCEPTION_HANDLER))
            && (d % 2 == 1 && !StageWB(end).trap ==> HandlerAgain(Cycle(end)))
  {
    hide Shaped, Cycle, Run, Redirected, DecodesIllegal, StageMEM, StageWB, HandlerAgain, DecodesNow, DStalled;
    AfterIllegalDecode(m);
    ShapeKept(m);
    StallParity(Cycle(m));
    var end := Run(Cycle(m), StageMEM(m).dStallLeft);
    if end.squashNextIF {
      IllegalWordLeaves(end);
      SquashDecodesNothing(end);
    } else {
      ParkedDecodes(end);
      if !StageWB(end).trap { RaisesAgain(end); }
    }
  }

  lemma SquashDecodesNothing(m: Machine)
    requires m.squashNextIF
    ensures !DecodesNow(m)
  {
    hide Taken, HazardStall;
  }

  /** ID holds the first word of the handler, while a squash is pending and IF waits at the same address. */
  predicate HandlerAgain(m: Machine) {
    && m.squashNextIF && !Live(m.ifL) && m.iStallLeft == 0 && !m.justFinishedIStall && m.pc == EXCEPTION_HANDLER
    && m.idL.pc == EXCEPTION_HANDLER
  }

  lemma RaisesAgain(m: Machine)
    requires Shaped(m) && Parked(m) && !DStalled(m) && !m.squashNextIF && !StageWB(m).trap
    ensures HandlerAgain(Cycle(m))
  {
    hide StageMEM, StageEX, StageWB, Access, Resident, FetchWord, StageID, TakesBranch, Next, HazardStall;
    ParkedDecodes(m);
    NewIDCases(m);
    NewIDIs(m);
    DecodedPC(m);
    CycleLatches(m);
    IllegalNext(m);
  }

  /** Both the illegal word in ID and one that is just decoded lead to the handler. */
  lemma IllegalNext(m: Machine)
    requires Shaped(m) && Parked(m) && !DStalled(m) && !m.squashNextIF
    ensures OldIdIllegal(m) && !Resolves(m, StageWB(m).trap) && !Taken(m)
    ensures var d := StageID(m, StageWB(m).regs, Taken(m));
            RedirectPC(m, StageWB(m), StageMEM(m), d) == EXCEPTION_HANDLER
  {
    hide StageMEM, StageWB, HazardStall, ResolvedPC, SimID, Nop;
    IllegalIsNotTaken(m);
    IDShape(m.ifL, StageWB(m).regs, m.counters);
    DecodeShape(m.ifL.word);
    IllegalZero();
  }

  /** So the first instruction of the handler, if it is legal, no branch, and moves on, is executed twice. */
  lemma HandlerDecodedTwice(m: Machine) returns (k: nat)
    requires Shaped(m) && FetchSound(m) && HandlerAgain(m) && m.idL.ctl.isLegal && !IsControlFlow(m.idL.ctl)
    requires !DStalled(m) && !HazardStall(m) && !StageWB(m).trap
    ensures StageEX(m).ctl == m.idL.ctl
    ensures k > 0 && DecodesNow(Run(m, k)) && (forall j: nat :: j < k ==> !DecodesNow(Run(m, j)))
    ensures Run(m, k).ifL.pc == EXCEPTION_HANDLER
  {
    hide Shaped, FetchSound, Cycle, DecodesNow, Run, StageEX, StageWB, HazardStall;
    SquashDecodesNothing(m);
    PlainIsNotTaken(m);
    FetchFromHandler(m);
    SquashedID(m);
    CycleLatches(m);
    NewIDIs(m);
    PassesEX(m);
    ShapeKept(m);
    FetchSoundKept(m);
    var j := NextDecode(Cycle(m));
    HandlerIsNext(Cycle(m), j);
    k := j + 1;
    RunZero(m);
    forall i: nat | i < k
      ensures !DecodesNow(Run(m, i))
    {
      if i > 0 { RunFirst(m, i); }
    }
    RunFirst(m, k);
  }

  lemma RunFirst(m: Machine, k: nat)
    requires k > 0
    ensures Run(m, k) == Run(Cycle(m), k - 1)
  {
    hide Cycle;
  }

  lemma PlainIsNotTaken(m: Machine)
    requires !IsControlFlow(m.idL.ctl)
    ensures !Taken(m)
  {
    hide StageMEM, StageWB, HazardStall;
  }

  lemma PassesEX(m: Machine)
    requires !DStalled(m) && !HazardStall(m) && m.idL.ctl.isLegal
    ensures StageEX(m).ctl == m.idL.ctl
  {
    hide HazardStall, Forwarded, Completed, ALUSource, Alu, ShiftMasked;
  }
}
