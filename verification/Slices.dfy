/** Whole executions of a process as successive time slices. */
module Slices {
  import opened Words
  import opened Isa
  import opened Pipeline
  import opened PipelineRefinement
  import opened PipelineSchedule
  import opened ControlUnit

  // ---------------------------------------------------------------------------------------------------------------
  // Programs
  // ---------------------------------------------------------------------------------------------------------------

  /** The next instruction jumps over a stop word to a place that is none. */
  predicate JumpsOverStop(q: Arch) {
    var f := ToWord(q.pc + 4);
    !AtStop(q) && Jumps(q) && StopWord(Load(q.mem, f), f) && !AtStop(Step(q))
  }

  /** Every store of the sequential run is one the pipeline performs as written. */
  ghost predicate StoresSafe(q0: Arch) {
    forall k: nat :: Disciplined(SeqRun(q0, k))
  }

  /** The sequential run never jumps over a stop word. */
  ghost predicate JumpsSafe(q0: Arch) {
    forall k: nat :: !JumpsOverStop(SeqRun(q0, k))
  }

  // ---------------------------------------------------------------------------------------------------------------
  // Sequential runs
  // ---------------------------------------------------------------------------------------------------------------

  lemma {:induction false} SeqRunStopped(q: Arch, n: nat)
    requires AtStop(q)
    ensures SeqRun(q, n) == q
  {
    hide Step;
    if n > 0 {
      SeqRunStopped(q, n - 1);
    }
  }

  lemma {:induction false} SeqRunAdds(q: Arch, a: nat, b: nat)
    ensures SeqRun(SeqRun(q, a), b) == SeqRun(q, a + b)
  {
    hide Step, AtStop;
    if b > 0 {
      SeqRunAdds(q, a, b - 1);
    }
  }

  /** The final state of a run does not depend on how many steps too many are taken. */
  lemma StopIsUnique(q: Arch, a: nat, b: nat)
    requires AtStop(SeqRun(q, a)) && AtStop(SeqRun(q, b))
    ensures SeqRun(q, a) == SeqRun(q, b)
  {
    hide Step, AtStop;
    if a <= b {
      SeqRunAdds(q, a, b - a);
      SeqRunStopped(SeqRun(q, a), b - a);
    } else {
      SeqRunAdds(q, b, a - b);
      SeqRunStopped(SeqRun(q, b), a - b);
    }
  }

  /** Safety of a run is safety of its remainder. */
  lemma SafeLater(q0: Arch, n: nat)
    requires StoresSafe(q0)
    ensures StoresSafe(SeqRun(q0, n))
  {
    hide Disciplined;
    forall k: nat
      ensures Disciplined(SeqRun(SeqRun(q0, n), k))
    {
      SeqRunAdds(q0, n, k);
    }
  }

  // ---------------------------------------------------------------------------------------------------------------
  // Slices
  // ---------------------------------------------------------------------------------------------------------------

  /** A dispatch: a new control unit with the given quantum runs the process. */
  function Dispatch(s: St, quantum: int): St {
    Slice(Restart(s.(quantum := quantum, state := Running)))
  }

  /** Dispatches with the given quanta until the process is finished. */
  function Dispatches(s: St, quanta: seq<int>): St
    decreases |quanta|
  {
    if quanta == [] || s.state == Finished then s else Dispatches(Dispatch(s, quanta[0]), quanta[1..])
  }

  lemma {:induction false} DispatchesOneMore(s: St, quanta: seq<int>, quantum: int)
    requires Dispatches(s, quanta).state != Finished
    ensures Dispatches(s, quanta + [quantum]) == Dispatch(Dispatches(s, quanta), quantum)
    decreases |quanta|
  {
    hide Dispatch;
    if quanta == [] {
      assert (quanta + [quantum])[1..] == [];
      assert Dispatches(s, [quantum]) == Dispatches(Dispatch(s, quantum), []);
    } else {
      DispatchesOneMore(Dispatch(s, quanta[0]), quanta[1..], quantum);
      assert (quanta + [quantum])[1..] == quanta[1..] + [quantum];
    }
  }

  /** The run is over after `n` steps, or the last of them jumped over a stop word. */
  predicate EndsAfter(q0: Arch, n: nat) {
    AtStop(SeqRun(q0, n)) || (n > 0 && JumpsOverStop(SeqRun(q0, n - 1)))
  }

  lemma EndSeenEnds(q0: Arch, n: nat)
    requires EndSeen(q0, n)
    ensures EndsAfter(q0, n)
  {
    hide StopWord, Step, Jumps;
  }

  /** One dispatch: it retires `n` instructions, no more than its quantum allows and at least one unless the process
      finishes, which happens only at a stop word or after a jump over one. */
  lemma DispatchRefines(s: St, quantum: int) returns (n: nat)
    requires DisciplinedRun(ArchOf(s), MaxSlots(quantum))
    ensures var r := Dispatch(s, quantum);
            && ArchOf(r) == SeqRun(ArchOf(s), n) && n <= MaxSlots(quantum) && Retires(ArchOf(s), n)
            && (r.state == Finished ==> EndsAfter(ArchOf(s), n))
            && (r.state != Finished ==> n >= 1)
  {
    hide Step, AtStop, Run, DisciplinedRun, Jumps, StopWord, EndSeen, EndsAfter;
    var s0 := Restart(s.(quantum := quantum, state := Running));
    n := SliceRefines(s0);
    SliceCost(s0);
    if Slice(s0).endProgram {
      EndSeenEnds(ArchOf(s), n);
    }
  }

  lemma {:induction false} EndsLater(q0: Arch, a: nat, b: nat)
    requires EndsAfter(SeqRun(q0, a), b)
    ensures EndsAfter(q0, a + b)
  {
    hide SeqRun, AtStop, JumpsOverStop;
    SeqRunAdds(q0, a, b);
    if b > 0 {
      SeqRunAdds(q0, a, b - 1);
    }
  }

  lemma {:induction false} RetiresLater(q0: Arch, a: nat, b: nat)
    requires Retires(q0, a) && Retires(SeqRun(q0, a), b)
    ensures Retires(q0, a + b)
  {
    hide Step, AtStop;
    if b > 0 {
      SeqRunAdds(q0, a, b - 1);
    }
  }

  /** Whatever the quanta, a sequence of dispatches is some number of sequential steps. */
  lemma {:induction false} DispatchesRefine(s: St, quanta: seq<int>) returns (n: nat)
    requires StoresSafe(ArchOf(s)) && s.state != Finished
    ensures var r := Dispatches(s, quanta);
            && ArchOf(r) == SeqRun(ArchOf(s), n) && Retires(ArchOf(s), n)
            && (r.state == Finished ==> EndsAfter(ArchOf(s), n))
            && (r.state != Finished ==> n >= |quanta|)
    decreases |quanta|
  {
    hide Step, AtStop, Dispatch, Disciplined, EndsAfter, Retires;
    if quanta == [] {
      n := 0;
      assert Retires(ArchOf(s), 0) by { NothingRetired(ArchOf(s)); }
    } else {
      var q0, s1 := ArchOf(s), Dispatch(s, quanta[0]);
      var n1 := DispatchRefines(s, quanta[0]);
      if s1.state == Finished {
        n := n1;
      } else {
        SafeLater(q0, n1);
        var n2 := DispatchesRefine(s1, quanta[1..]);
        n := n1 + n2;
        SeqRunAdds(q0, n1, n2);
        RetiresLater(q0, n1, n2);
        if Dispatches(s1, quanta[1..]).state == Finished {
          EndsLater(q0, n1, n2);
        }
      }
    }
  }

  lemma NothingRetired(q0: Arch)
    ensures Retires(q0, 0)
  {
  }

  lemma EndIsStop(q0: Arch, n: nat)
    requires JumpsSafe(q0) && EndsAfter(q0, n)
    ensures AtStop(SeqRun(q0, n))
  {
    hide AtStop, JumpsOverStop, SeqRun;
  }

  /** If the sequential run stores safely and never jumps over a stop word, a process that is finished is in the final
      state of that run. */
  lemma FinishesInSequence(s: St, quanta: seq<int>) returns (n: nat)
    requires StoresSafe(ArchOf(s)) && JumpsSafe(ArchOf(s)) && s.state != Finished
    requires Dispatches(s, quanta).state == Finished
    ensures AtStop(SeqRun(ArchOf(s), n)) && ArchOf(Dispatches(s, quanta)) == SeqRun(ArchOf(s), n)
  {
    hide Step, AtStop, Dispatch, Disciplined, JumpsOverStop, EndsAfter;
    n := DispatchesRefine(s, quanta);
    EndIsStop(ArchOf(s), n);
  }

  /** Quantum independence: if the sequential run stores safely and never jumps over a stop word, any two ways of
      slicing the process to completion leave the same registers, memory, PC and printed values. */
  lemma QuantumIndependence(s: St, quanta1: seq<int>, quanta2: seq<int>)
    requires StoresSafe(ArchOf(s)) && JumpsSafe(ArchOf(s)) && s.state != Finished
    requires Dispatches(s, quanta1).state == Finished && Dispatches(s, quanta2).state == Finished
    ensures ArchOf(Dispatches(s, quanta1)) == ArchOf(Dispatches(s, quanta2))
  {
    hide StoresSafe, JumpsSafe, SeqRun, AtStop, Dispatches;
    var n1 := FinishesInSequence(s, quanta1);
    var n2 := FinishesInSequence(s, quanta2);
    StopIsUnique(ArchOf(s), n1, n2);
  }

  /** Under the same conditions a program that stops after at most `n` sequential steps is finished by any `n + 1`
      dispatches, in the sequential final state. */
  lemma DispatchesFinish(s: St, quanta: seq<int>, n: nat)
    requires StoresSafe(ArchOf(s)) && JumpsSafe(ArchOf(s)) && s.state != Finished
    requires AtStop(SeqRun(ArchOf(s), n)) && |quanta| > n
    ensures Dispatches(s, quanta).state == Finished
    ensures ArchOf(Dispatches(s, quanta)) == SeqRun(ArchOf(s), n)
  {
    hide Step, AtStop, Dispatch, Disciplined, JumpsOverStop, EndsAfter;
    var q0 := ArchOf(s);
    var k := DispatchesRefine(s, quanta);
    if k > n {
      SeqRunAdds(q0, n, k - 1 - n);
      SeqRunStopped(SeqRun(q0, n), k - 1 - n);
      assert false;
    }
    EndIsStop(q0, k);
    StopIsUnique(q0, k, n);
  }

  // ---------------------------------------------------------------------------------------------------------------
  // A condition on the program text
  // ---------------------------------------------------------------------------------------------------------------

  predicate IsJump(i: Instr) {
    IsBranch(i.op) || i.op.J?
  }

  /** `i` may write register `r` in EX. */
  predicate ExWrites(i: Instr, r: Reg) {
    r != 0 && HazardDest(i) == Some(r) && !i.op.Lw?
  }

  /** What can be read off the text, word by word: control stays within `code`, no store hits `code`, no instruction
      directly after `sw rt` writes `rt` in EX, and no stop word directly follows a branch or jump. */
  ghost predicate WellFormedAt(mem: Mem, code: set<Word>, a: Word) {
    var i := DecodeWord(Load(mem, a));
    var next := ToWord(a + 4);
    !StopWord(Load(mem, a), a) ==>
      && next in code
      && (IsJump(i) ==> ToWord(i.imm) in code && !StopWord(Load(mem, next), next))
      && (i.op.Sw? ==> i.addr !in code && !ExWrites(DecodeWord(Load(mem, next)), i.rt))
  }

  ghost predicate WellFormed(mem: Mem, code: set<Word>) {
    forall a | a in code :: WellFormedAt(mem, code, a)
  }

  ghost predicate SameCode(m: Mem, m0: Mem, code: set<Word>) {
    forall a | a in code :: Load(m, a) == Load(m0, a)
  }

  ghost predicate InCode(q: Arch, m0: Mem, code: set<Word>) {
    SameCode(q.mem, m0, code) && q.pc in code
  }

  lemma TakenIsJump(i: Instr, regs: Regs)
    ensures Taken(i, regs) ==> IsJump(i)
  {
  }

  lemma WellFormedStep(q: Arch, m0: Mem, code: set<Word>)
    requires WellFormed(m0, code) && InCode(q, m0, code) && !AtStop(q)
    ensures InCode(Step(q), m0, code) && ToWord(q.pc + 4) in code
    ensures Current(q).op.Sw? ==> Current(q).addr !in code
  {
    hide DecodeWord, Exec, StopWord, ExRegs, MemRegs, ExWrites, Taken, IsJump;
    assert WellFormedAt(m0, code, q.pc);
    TakenIsJump(Current(q), q.regs);
    ExecIsStages(Current(q), q);
  }

  lemma NothingJumpedOver(q: Arch, m0: Mem, code: set<Word>)
    requires WellFormed(m0, code) && InCode(q, m0, code)
    ensures !JumpsOverStop(q)
  {
    hide DecodeWord, StopWord, Step, Taken, IsJump;
    TakenIsJump(Current(q), q.regs);
    assert WellFormedAt(m0, code, q.pc);
  }

  lemma {:induction false} WellFormedRun(q: Arch, m0: Mem, code: set<Word>, n: nat)
    requires WellFormed(m0, code) && InCode(q, m0, code)
    ensures InCode(SeqRun(q, n), m0, code)
  {
    hide Step, AtStop, InCode, WellFormed;
    if n > 0 {
      WellFormedRun(q, m0, code, n - 1);
      if !AtStop(SeqRun(q, n - 1)) {
        WellFormedStep(SeqRun(q, n - 1), m0, code);
      }
    }
  }

  lemma WellFormedSpares(q: Arch, m0: Mem, code: set<Word>)
    requires WellFormed(m0, code) && InCode(q, m0, code)
    ensures SparesFetches(q)
  {
    hide WellFormed, Step, Current, AtStop, InCode, JumpsOverStop;
    if !AtStop(q) && Current(q).op.Sw? {
      var q1 := Step(q);
      WellFormedStep(q, m0, code);
      AwayFromCode(Current(q).addr, q1, m0, code);
      if !AtStop(q1) {
        WellFormedStep(q1, m0, code);
        AwayFromCode(Current(q).addr, Step(q1), m0, code);
      }
    }
  }

  lemma AwayFromCode(a: Word, q: Arch, m0: Mem, code: set<Word>)
    requires WellFormed(m0, code) && InCode(q, m0, code) && a !in code
    ensures Away(a, q)
  {
    hide WellFormed, Step, AtStop, SameCode, JumpsOverStop;
    if !AtStop(q) {
      WellFormedStep(q, m0, code);
    }
  }

  lemma UnwrittenInEx(i: Instr, r: Reg, regs: Regs)
    requires !ExWrites(i, r)
    ensures ExRegs(i, regs)[r] == regs[r]
  {
  }

  lemma WellFormedKeeps(q: Arch, m0: Mem, code: set<Word>)
    requires WellFormed(m0, code) && InCode(q, m0, code)
    ensures KeepsStored(q)
  {
    if !AtStop(q) && Current(q).op.Sw? {
      assert WellFormedAt(m0, code, q.pc);
      ExecIsStages(Current(q), q);
      WellFormedStep(q, m0, code);
      var q1 := Step(q);
      hide DecodeWord, Exec, StopWord, ExWrites, ExRegs, Step;
      assert q1.pc == ToWord(q.pc + 4) && Load(q1.mem, q1.pc) == Load(m0, q1.pc);
      UnwrittenInEx(Current(q1), Current(q).rt, q1.regs);
    }
  }

  /** A well-formed text is safe from every state it can start in. */
  lemma WellFormedIsSafe(q0: Arch, code: set<Word>)
    requires WellFormed(q0.mem, code) && q0.pc in code
    ensures StoresSafe(q0) && JumpsSafe(q0)
  {
    hide WellFormed, Step, AtStop, InCode, SparesFetches, KeepsStored;
    assert InCode(q0, q0.mem, code) by { StartsInCode(q0, code); }
    forall k: nat
      ensures Disciplined(SeqRun(q0, k)) && !JumpsOverStop(SeqRun(q0, k))
    {
      WellFormedRun(q0, q0.mem, code, k);
      WellFormedSpares(SeqRun(q0, k), q0.mem, code);
      WellFormedKeeps(SeqRun(q0, k), q0.mem, code);
      NothingJumpedOver(SeqRun(q0, k), q0.mem, code);
    }
  }

  lemma StartsInCode(q0: Arch, code: set<Word>)
    requires q0.pc in code
    ensures InCode(q0, q0.mem, code)
  {
  }
}
