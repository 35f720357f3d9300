/** When each slot is in each stage, what a slice costs and why it ends. */
module PipelineSchedule {
  import opened Words
  import opened Isa
  import opened Pipeline
  import opened PipelineRefinement

  /** How many of `slots` slots a stage has seen after `ticks` of its own ticks. */
  function Passed(slots: nat, ticks: int): nat {
    if ticks < 0 then 0 else if ticks > slots then slots else ticks
  }

  function StageCount(s: St): nat {
    var c, f := s.counter, |s.data|;
    f + Passed(f, c - 1) + Passed(f, c - 2) + Passed(f, c - 3) + Passed(f, c - 4)
  }

  /** The slice has produced a print request that blocks the process. */
  predicate HasBlocked(s: St, s0: St) {
    s.printLock && |s.out| > |s0.out|
  }

  /** Counters, process state and reason for draining, relative to the start `s0` of the slice. */
  predicate Ledger(s: St, s0: St) {
    && Shape(s)
    && s.printLock == s0.printLock && s.quantum == s0.quantum && s0.out <= s.out
    && |s.data| <= MaxSlots(s.quantum)
    && s.cycles == s0.cycles + s.counter
    && s.stages == s0.stages + StageCount(s)
    && s.state == (if HasBlocked(s, s0) then Blocked else s0.state)
    && (s.counterForEnd == 5 ==> !HasBlocked(s, s0))
    && (s.counterForEnd < 5 ==> s.endProgram || |s.data| >= s.quantum || HasBlocked(s, s0))
  }

  /** Stage with lag 4, 3, 2, 1 behind IF runs in a tick exactly when its slot exists: each fetched slot passes ID, EX,
      MEM and WB once each, in that order, one tick apart. */
  lemma StageGuards(s: St)
    requires Shape(s) && s.counterForEnd > 0
    ensures s.counter >= 4 && s.counterForEnd >= 1 <==> 0 <= s.counter - 4 < |s.data|
    ensures s.counter >= 3 && s.counterForEnd >= 2 <==> 0 <= s.counter - 3 < |s.data|
    ensures s.counter >= 2 && s.counterForEnd >= 3 <==> 0 <= s.counter - 2 < |s.data|
    ensures s.counter >= 1 && s.counterForEnd >= 4 <==> 0 <= s.counter - 1 < |s.data|
  {
  }

  function Ran(s: St, lag: nat): nat {
    if 0 <= s.counter - lag < |s.data| then 1 else 0
  }

  lemma WbCost(s: St)
    requires Shape(s) && s.counterForEnd > 0
    ensures var r := WbPhase(s); Shape(r) && r == s.(mem := r.mem, stages := s.stages + Ran(s, 4))
  {
  }

  lemma MemCost(s: St)
    requires Shape(s) && s.counterForEnd > 0
    ensures var r := MemPhase(s); Shape(r) && r == s.(regs := r.regs, stages := s.stages + Ran(s, 3))
  {
  }

  lemma ExCost(s: St)
    requires Shape(s) && s.counterForEnd > 0
    ensures var r := ExPhase(s);
            var printed := s.printLock && |r.out| > |s.out|;
            && SameClock(s, r) && |r.data| == |s.data| && r.endProgram == s.endProgram
            && s.out <= r.out && r.stages == s.stages + Ran(s, 2)
            && r.state == (if printed then Blocked else s.state)
            && r.endExecution == (s.endExecution || printed)
  {
  }

  /** `r` is `s` after WB, MEM and EX, as far as counters and state are concerned. */
  predicate BackCost(s: St, r: St) {
    var printed := s.printLock && |r.out| > |s.out|;
    && SameClock(s, r) && |r.data| == |s.data| && r.endProgram == s.endProgram
    && s.out <= r.out && r.stages == s.stages + Ran(s, 4) + Ran(s, 3) + Ran(s, 2)
    && r.state == (if printed then Blocked else s.state)
    && r.endExecution == (s.endExecution || printed)
  }

  lemma BackCosts(s: St)
    requires Shape(s) && s.counterForEnd > 0
    ensures BackCost(s, ExPhase(MemPhase(WbPhase(s))))
  {
    WbCost(s);
    MemCost(WbPhase(s));
    ExCost(MemPhase(WbPhase(s)));
  }

  /** `y` is `r` after ID, IF and the clocking. */
  predicate FrontCost(r: St, y: St) {
    && y.out == r.out && y.state == r.state && y.printLock == r.printLock && y.quantum == r.quantum
    && y.cycles == r.cycles + 1 && y.counter == r.counter + 1
    && y.stages == r.stages + (if r.counter >= 1 && r.counterForEnd >= 4 then 1 else 0)
                   + (if r.counterForEnd == 5 then 1 else 0)
    && |y.data| == |r.data| + (if r.counterForEnd == 5 then 1 else 0)
    && y.endExecution == (r.endExecution || r.clock + 1 >= r.quantum || y.endProgram)
    && y.counterForEnd == (if y.endExecution then r.counterForEnd - 1 else r.counterForEnd)
    && (r.endProgram ==> y.endProgram)
  }

  lemma IdCost(r: St)
    requires r.counter >= 1 && r.counterForEnd >= 4 ==> r.counter <= |r.data|
    ensures var x := IdPhase(r);
            && x == r.(data := x.data, pc := x.pc,
                       stages := r.stages + if r.counter >= 1 && r.counterForEnd >= 4 then 1 else 0)
            && |x.data| == |r.data|
  {
  }

  lemma IfCost(r: St, x: St)
    requires x == r.(data := x.data, pc := x.pc, stages := x.stages) && |x.data| == |r.data|
    requires x.stages == r.stages + if r.counter >= 1 && r.counterForEnd >= 4 then 1 else 0
    ensures FrontCost(r, Advance(IfPhase(x)))
  {
  }

  /** What the stages of a tick add to the count. */
  lemma CountStep(s: St, r: St, y: St)
    requires Shape(s) && s.counterForEnd > 0 && BackCost(s, r) && FrontCost(r, y)
    ensures y.stages - s.stages == StageCount(y) - StageCount(s)
  {
    StageGuards(s);
  }

  lemma LedgerStep(s: St, s0: St, r: St, y: St)
    requires Ledger(s, s0) && s.counterForEnd > 0 && BackCost(s, r) && FrontCost(r, y) && Shape(y)
    ensures Ledger(y, s0)
  {
    hide StageCount;
    CountStep(s, r, y);
  }

  lemma TickLedger(s: St, s0: St)
    requires Ledger(s, s0) && s.counterForEnd > 0
    ensures Ledger(Tick(s), s0)
  {
    var r := ExPhase(MemPhase(WbPhase(s)));
    BackCosts(s);
    IdCost(r);
    IfCost(r, IdPhase(r));
    LedgerStep(s, s0, r, Tick(s));
  }

  lemma {:induction false} RunLedger(s: St, s0: St)
    requires Ledger(s, s0)
    ensures Ledger(Run(s), s0) && Run(s).counterForEnd == 0
    decreases s.counterForEnd, s.quantum - s.clock
  {
    if s.counterForEnd > 0 {
      TickLedger(s, s0);
      RunLedger(Tick(s), s0);
    }
  }

  /** A tick that fetches leaves MAR at the address of the word in IR, and PC behind it unless that word ends the
      program. */
  lemma FetchAddressed(s: St)
    requires Shape(s) && s.counterForEnd == 5
    ensures var r := Tick(s);
            && r.ir == Load(r.mem, r.mar) && (r.endProgram <==> StopWord(r.ir, r.mar))
            && r.pc == if r.endProgram then r.mar else ToWord(r.mar + 4)
  {
    hide WbPhase, MemPhase, ExPhase, IdPhase, StopWord;
  }

  /** A slice of F fetches, no more than its quantum unless that is below one, costs F + 4 cycles and 5 F stage
      invocations, and it stops fetching only because the program
      ended, the quantum was used up or a print request blocked the process. */
  lemma SliceCost(s: St)
    requires Fresh(s)
    ensures var r := Slice(s);
            var f := |r.data|;
            && 1 <= f <= MaxSlots(s.quantum) && r.cycles == s.cycles + f + 4 && r.stages == s.stages + 5 * f
            && s.out <= r.out
            && (r.endProgram || f >= s.quantum || HasBlocked(r, s))
            && r.state == (if r.endProgram then Finished else if HasBlocked(r, s) then Blocked else s.state)
  {
    RunLedger(s, s);
  }
}
