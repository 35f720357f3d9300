/** Which programs the pipeline runs faithfully under every slicing: the exact conditions. */
module SlicingLimits {
  import opened Words
  import opened Isa
  import opened Pipeline
  import opened PipelineRefinement
  import opened PipelineLimits
  import opened ControlUnit
  import opened Slices

  /** `n` dispatches of quantum one. */
  function Ones(n: nat): (quanta: seq<int>)
    ensures |quanta| == n
  {
    seq(n, i => 1)
  }

  /** A dispatch of quantum one executes one instruction and does not end the process before its stop word. */
  lemma DispatchOne(s: St)
    requires !AtStop(ArchOf(s)) && Disciplined(ArchOf(s))
    ensures Dispatch(s, 1).state != Finished && ArchOf(Dispatch(s, 1)) == Step(ArchOf(s))
  {
    hide AtStop, Step, Disciplined, Run, EndsAfter;
    var q := ArchOf(s);
    var s0 := Restart(s.(quantum := 1, state := Running));
    assert SeqRun(q, 0) == q;
    var n := DispatchRefines(s, 1);
    OneSlotSlice(s0);
    PipelineSchedule.SliceCost(s0);
    assert n == 1;
    assert SeqRun(q, 1) == Step(q);
  }

  /** Dispatches of quantum one follow the sequential run as long as its stores are safe. */
  lemma {:induction false} DispatchOnes(s: St, k: nat)
    requires s.state != Finished && !AtStop(SeqRun(ArchOf(s), k)) && DisciplinedRun(ArchOf(s), k)
    ensures var t := Dispatches(s, Ones(k)); t.state != Finished && ArchOf(t) == SeqRun(ArchOf(s), k)
    decreases k
  {
    hide AtStop, Step, Disciplined, Dispatch;
    if k > 0 {
      var q, t := ArchOf(s), Dispatch(s, 1);
      assert SeqRun(q, 0) == q && SeqRun(q, 1) == if AtStop(q) then q else Step(q);
      if AtStop(q) {
        SeqRunStopped(q, k);
        assert false;
      }
      DispatchOne(s);
      forall j: nat | j < k - 1
        ensures Disciplined(SeqRun(Step(q), j))
      {
        SeqRunAdds(q, 1, j);
      }
      SeqRunAdds(q, 1, k - 1);
      DispatchOnes(t, k - 1);
      assert Ones(k)[1..] == Ones(k - 1);
    }
  }

  // ---------------------------------------------------------------------------------------------------------------
  // Finishing at the stop word only
  // ---------------------------------------------------------------------------------------------------------------

  /** However the process is sliced, it is finished at its stop word only. */
  ghost predicate FinishesAtStopOnly(s: St) {
    forall quanta: seq<int> :: Dispatches(s, quanta).state == Finished ==> AtStop(ArchOf(Dispatches(s, quanta)))
  }

  /** A jump over a stop word finishes a process that is sliced up to it one instruction at a time. */
  lemma JumpOverStopReached(s: St, k: nat)
    requires s.state != Finished && StoresSafe(ArchOf(s)) && JumpsOverStop(SeqRun(ArchOf(s), k))
    ensures var r := Dispatches(s, Ones(k) + [2]); r.state == Finished && !AtStop(ArchOf(r))
  {
    hide AtStop, Step, Disciplined, Dispatches, SeqRun, StopWord, Jumps, DecodeWord;
    DispatchOnes(s, k);
    var t := Dispatches(s, Ones(k));
    DispatchesOneMore(s, Ones(k), 2);
    var s0 := Restart(t.(quantum := 2, state := Running));
    PrintDoesNotJump(ArchOf(t));
    JumpOverStopFinishes(s0);
  }

  /** The exact condition, given safe stores: a process is finished at its stop word only, however it is sliced, if and
      only if its sequential run never jumps over a stop word to a place that is none. */
  lemma FinishesAtStopExactly(s: St)
    requires s.state != Finished && StoresSafe(ArchOf(s))
    ensures FinishesAtStopOnly(s) <==> JumpsSafe(ArchOf(s))
  {
    hide AtStop, Step, Disciplined, Dispatches, SeqRun, JumpsOverStop, EndsAfter;
    if JumpsSafe(ArchOf(s)) {
      forall quanta: seq<int> | Dispatches(s, quanta).state == Finished
        ensures AtStop(ArchOf(Dispatches(s, quanta)))
      {
        var n := DispatchesRefine(s, quanta);
        EndIsStop(ArchOf(s), n);
      }
    } else {
      var k: nat :| JumpsOverStop(SeqRun(ArchOf(s), k));
      JumpOverStopReached(s, k);
    }
  }

  // ---------------------------------------------------------------------------------------------------------------
  // Executing sequentially
  // ---------------------------------------------------------------------------------------------------------------

  /** The dispatch executes some instructions in sequence, no more than its quantum. */
  ghost predicate RunsInSequence(t: St, quantum: int) {
    exists n: nat :: n <= MaxSlots(quantum) && ArchOf(Dispatch(t, quantum)) == SeqRun(ArchOf(t), n)
  }

  /** However the process is sliced, every dispatch does. */
  ghost predicate AlwaysInSequence(s: St) {
    forall quanta: seq<int>, quantum: int ::
      Dispatches(s, quanta).state != Finished ==> RunsInSequence(Dispatches(s, quanta), quantum)
  }

  /** A slice of quantum two runs the store and the instruction behind it. */
  lemma StoreSliceOf(t: St)
    requires SparesFetches(ArchOf(t)) && !KeepsStored(ArchOf(t))
    ensures var s0 := Restart(t.(quantum := 2, state := Running));
            var q := ArchOf(t);
            && StoreSlice(s0) && ArchOf(s0) == q && !AtStop(q) && Step(q).pc == ToWord(q.pc + 4)
            && ExRegs(DecodeWord(SecondWord(q)), q.regs)[Current(q).rt] != q.regs[Current(q).rt]
  {
    var q := ArchOf(t);
    hide DecodeWord, StopWord, ExRegs;
    StoreStep(q);
  }

  /** Two words on, but not the state after two steps. */
  lemma NoneOfThree(q: Arch, r: Arch, n: nat)
    requires n <= 2 && !AtStop(q) && Step(q).pc == ToWord(q.pc + 4) && r.pc == ToWord(ToWord(q.pc + 4) + 4)
    requires r.regs != SeqRun(q, 2).regs || r.mem != SeqRun(q, 2).mem
    ensures r != SeqRun(q, n)
  {
    hide Step, AtStop, SeqRun;
    SeqRunFirst(q);
  }

  lemma LateStoreMisses(t: St)
    requires SparesFetches(ArchOf(t)) && !KeepsStored(ArchOf(t))
    ensures var q, r := ArchOf(t), ArchOf(Dispatch(t, 2));
            && (r.regs != SeqRun(q, 2).regs || r.mem != SeqRun(q, 2).mem)
            && r.pc == ToWord(ToWord(q.pc + 4) + 4)
  {
    hide DecodeWord, StopWord, Exec, ExRegs, Slice, SeqRun, StoreSlice, SparesFetches, KeepsStored, Step, AtStop,
      Current;
    var s0 := Restart(t.(quantum := 2, state := Running));
    StoreSliceOf(t);
    StorePairExactly(s0);
    LateStorePc(s0);
  }

  /** A dispatch of quantum two that starts with a store whose register the next instruction changes in EX is the work
      of no number of instructions up to two. */
  lemma LateStoreOutOfSequence(t: St)
    requires SparesFetches(ArchOf(t)) && !KeepsStored(ArchOf(t))
    ensures !RunsInSequence(t, 2)
  {
    hide Dispatch, AtStop, Step, SeqRun, KeepsStored, SparesFetches, Current, StoreSlice, ExRegs, DecodeWord;
    LateStoreMisses(t);
    StoreSliceOf(t);
    forall n: nat | n <= MaxSlots(2)
      ensures ArchOf(Dispatch(t, 2)) != SeqRun(ArchOf(t), n)
    {
      NoneOfThree(ArchOf(t), ArchOf(Dispatch(t, 2)), n);
    }
  }

  lemma SeqRunFirst(q: Arch)
    ensures SeqRun(q, 0) == q && SeqRun(q, 1) == if AtStop(q) then q else Step(q)
  {
    hide Step, AtStop;
  }

  /** The program counter has moved on by two words. */
  lemma LateStorePc(s: St)
    requires StoreSlice(s)
    requires var r := Current(ArchOf(s)).rt; ExRegs(DecodeWord(SecondWord(ArchOf(s))), s.regs)[r] != s.regs[r]
    ensures Slice(s).pc == ToWord(ToWord(s.pc + 4) + 4)
  {
    hide Run, DecodeWord, StopWord;
    var q := ArchOf(s);
    StoreIsFollowed(q);
    TwoSlotSlice(s);
    assert SecondSlot(q) == DecodeWord(SecondWord(q));
  }

  /** The first state of a run whose store is unsafe. */
  lemma {:induction false} FirstUnsafe(q0: Arch, k: nat) returns (j: nat)
    requires !Disciplined(SeqRun(q0, k))
    ensures !Disciplined(SeqRun(q0, j)) && DisciplinedRun(q0, j)
  {
    hide Disciplined, SeqRun;
    if i: nat :| i < k && !Disciplined(SeqRun(q0, i)) {
      j := FirstUnsafe(q0, i);
    } else {
      j := k;
    }
  }

  lemma UnsafeReached(s: St, k: nat)
    requires s.state != Finished && SparesFetches(SeqRun(ArchOf(s), k)) && !KeepsStored(SeqRun(ArchOf(s), k))
    requires DisciplinedRun(ArchOf(s), k)
    ensures !AlwaysInSequence(s)
  {
    hide Step, Disciplined, Dispatches, Dispatch, SeqRun, RunsInSequence, SparesFetches;
    assert !AtStop(SeqRun(ArchOf(s), k));
    hide KeepsStored, AtStop;
    DispatchOnes(s, k);
    LateStoreOutOfSequence(Dispatches(s, Ones(k)));
  }

  /** The exact condition for stores, for programs whose stores spare the words about to be fetched: however the process
      is sliced, every dispatch executes instructions in sequence, if and only if the sequential run never changes a
      stored register in EX of the instruction directly behind the store. */
  lemma StoresInSequenceExactly(s: St)
    requires s.state != Finished && forall k: nat :: SparesFetches(SeqRun(ArchOf(s), k))
    ensures AlwaysInSequence(s) <==> forall k: nat :: KeepsStored(SeqRun(ArchOf(s), k))
  {
    hide AtStop, Step, SparesFetches, KeepsStored, Dispatches, Dispatch, SeqRun, EndsAfter, Retires;
    var q0 := ArchOf(s);
    if forall k: nat :: KeepsStored(SeqRun(q0, k)) {
      forall quanta: seq<int>, quantum: int | Dispatches(s, quanta).state != Finished
        ensures RunsInSequence(Dispatches(s, quanta), quantum)
      {
        var m := DispatchesRefine(s, quanta);
        SafeLater(q0, m);
        var n := DispatchRefines(Dispatches(s, quanta), quantum);
      }
    } else {
      var k: nat :| !KeepsStored(SeqRun(q0, k));
      var j := FirstUnsafe(q0, k);
      UnsafeReached(s, j);
    }
  }
}
