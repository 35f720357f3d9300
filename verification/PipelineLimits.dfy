/** Where the pipeline and sequential execution part: the exact conditions, on slices of two slots and on jumps over a
    stop word. */
module PipelineLimits {
  import opened Words
  import opened Isa
  import opened Pipeline
  import opened PipelineRefinement
  import opened PipelineSchedule

  // ---------------------------------------------------------------------------------------------------------------
  // Hazards
  // ---------------------------------------------------------------------------------------------------------------

  /** None of the first `n` slots reads a register either of the two slots before it writes. */
  predicate HazardFree(data: seq<Instr>, n: int) {
    forall k | 0 <= k < |data| && k < n :: !Conflict(At(data, k - 1), data[k]) && !Conflict(At(data, k - 2), data[k])
  }

  lemma OneSlotMore(data: seq<Instr>, data': seq<Instr>, n: nat)
    requires HazardFree(data, n) && n < |data| <= |data'|
    requires forall k | 0 <= k < n :: data'[k] == data[k]
    requires !Conflict(At(data, n - 1), data'[n]) && !Conflict(At(data, n - 2), data'[n])
    ensures HazardFree(data', n + 1)
  {
    hide Conflict;
    forall k | 0 <= k < n
      ensures !Conflict(At(data', k - 1), data'[k]) && !Conflict(At(data', k - 2), data'[k])
    {
      assert At(data', k - 1) == At(data, k - 1) && At(data', k - 2) == At(data, k - 2);
    }
  }

  /** ID leaves a slot that depends on neither of the two before it. */
  lemma DecodedSlot(r: St, x: St, i: Instr)
    requires AfterId(r, x, i)
    ensures var k := r.counter - 1;
            && |x.data| == |r.data| && (forall j | 0 <= j < |r.data| && j != k :: x.data[j] == r.data[j])
            && !Conflict(At(r.data, k - 1), x.data[k]) && !Conflict(At(r.data, k - 2), x.data[k])
  {
  }

  lemma HazardTick(s: St, r: St, x: St, y: St)
    requires Ticked(s, r, x, y) && HazardFree(s.data, Decided(s))
    ensures HazardFree(y.data, Decided(y))
  {
    hide DecodeWord, Load, ExRegs, MemRegs, WbMem, Taken, Conflict, HazardFree;
    if s.counterForEnd >= 4 && s.counter >= 1 {
      var k := s.counter - 1;
      hide AfterId;
      DecodedSlot(r, x, DecodeWord(r.ir));
      assert At(r.data, k - 1) == At(s.data, k - 1) && At(r.data, k - 2) == At(s.data, k - 2);
      OneSlotMore(s.data, y.data, k);
    } else if s.counter == 0 {
      NoSlotYet(y.data);
    } else {
      assert y.data == s.data;
    }
  }

  lemma NoSlotYet(data: seq<Instr>)
    ensures HazardFree(data, 0)
  {
  }

  /** The slice after at most `n` ticks. */
  function Ticks(s: St, n: nat): (r: St)
    requires Shape(s)
    ensures Shape(r)
    decreases n
  {
    if n == 0 || s.counterForEnd <= 0 then s else Ticks(Tick(s), n - 1)
  }

  /** The hazard invariant, at every tick of every slice: no slot that has been through ID reads a register that
      either of the two slots before it writes. */
  lemma {:induction false} HazardFreeSlice(s: St, n: nat)
    requires Shape(s) && HazardFree(s.data, Decided(s))
    ensures HazardFree(Ticks(s, n).data, Decided(Ticks(s, n)))
    decreases n
  {
    hide Stages, Advance, HazardFree;
    if n > 0 && s.counterForEnd > 0 {
      var r, x := TickPhases(s);
      HazardTick(s, r, x, Tick(s));
      HazardFreeSlice(Tick(s), n - 1);
    }
  }

  // ---------------------------------------------------------------------------------------------------------------
  // Slices of two slots, in closed form
  // ---------------------------------------------------------------------------------------------------------------

  /** The word fetched into the second slot. */
  function SecondWord(q: Arch): Word {
    Load(q.mem, ToWord(q.pc + 4))
  }

  /** What ID makes of the second slot. */
  function SecondSlot(q: Arch): Instr {
    var i1 := DecodeWord(SecondWord(q));
    if Jumps(q) then NOP
    else if Conflict(Current(q), i1) then i1.(op := Bubble)
    else i1
  }

  /** The slice fetches exactly two slots, the first of which is not a print. */
  predicate FetchesTwo(s: St) {
    var q := ArchOf(s);
    && Fresh(s) && !AtStop(q) && !Current(q).op.Print?
    && (s.quantum == 2 || (s.quantum > 2 && StopWord(SecondWord(q), ToWord(q.pc + 4))))
  }

  predicate SameState(s: St, r: St) {
    r.regs == s.regs && r.mem == s.mem && r.out == s.out
  }

  lemma Tick0(s: St, y: St)
    requires FetchesTwo(s) && y == Tick(s)
    ensures y.counter == 1 && y.counterForEnd == 5 && y.data == [NOP] && SameState(s, y) && y.quantum == s.quantum
    ensures y.ir == Load(s.mem, s.pc) && y.pc == ToWord(s.pc + 4) && !y.endProgram
  {
  }

  lemma Tick1(s: St, s1: St, r: St, x: St, y: St)
    requires FetchesTwo(s) && Ticked(s1, r, x, y)
    requires s1.counter == 1 && s1.counterForEnd == 5 && s1.data == [NOP] && SameState(s, s1) && s1.quantum == s.quantum
    requires s1.ir == Load(s.mem, s.pc) && s1.pc == ToWord(s.pc + 4) && !s1.endProgram
    ensures var q := ArchOf(s);
            var f := ToWord(q.pc + 4);
            && y.counterForEnd == 4
            && y.counter == 2 && y.data == [Current(q), NOP] && SameState(s, y)
            && y.ir == SecondWord(q) && y.pc == (if StopWord(y.ir, f) then f else ToWord(f + 4))
            && y.endProgram == StopWord(y.ir, f)
  {
    hide StopWord, DecodeWord;
    assert Conflict(NOP, DecodeWord(r.ir)) == false;
  }

  /** EX of the first slot, ID of the second. */
  lemma Tick2(q: Arch, i0: Instr, w1: Word, s2: St, r: St, x: St, y: St)
    requires Ticked(s2, r, x, y) && s2.counter == 2 && s2.counterForEnd == 4 && s2.data == [i0, NOP]
    requires s2.regs == q.regs && s2.mem == q.mem && s2.out == q.out && !i0.op.Print?
    requires var f := ToWord(q.pc + 4);
             && s2.ir == w1 && s2.pc == (if StopWord(w1, f) then f else ToWord(f + 4))
             && s2.endProgram == StopWord(w1, f)
    ensures var i1 := DecodeWord(w1);
            var f := ToWord(q.pc + 4);
            var jumps, stalls := Taken(i0, q.regs), Conflict(i0, i1);
            && y.counter == 3 && y.counterForEnd == 3
            && y.data == [i0, if jumps then NOP else if stalls then i1.(op := Bubble) else i1]
            && y.regs == ExRegs(i0, q.regs) && y.mem == q.mem && y.out == q.out
            && y.pc == (if jumps then ToWord(i0.imm)
                        else if stalls then ToWord(s2.pc - 4)
                        else s2.pc)
            && y.endProgram == s2.endProgram
  {
    assert DecodeWord(0) == NOP;
    hide StopWord, DecodeWord;
  }

  /** The drain of two slots. */
  lemma Tick3(i0: Instr, d1: Instr, s3: St, r: St, x: St, y: St)
    requires Ticked(s3, r, x, y) && s3.counter == 3 && s3.counterForEnd == 3 && s3.data == [i0, d1]
    ensures y.counter == 4 && y.counterForEnd == 2 && y.data == s3.data && y.mem == s3.mem
    ensures y.regs == ExRegs(d1, MemRegs(i0, s3.regs, s3.mem))
    ensures !d1.op.Print? ==> y.out == s3.out
    ensures !IsBranch(d1.op) && !d1.op.J? ==> y.pc == s3.pc
    ensures y.endProgram == s3.endProgram
  {
  }

  lemma Tick4(i0: Instr, d1: Instr, s4: St, r: St, x: St, y: St)
    requires Ticked(s4, r, x, y) && s4.counter == 4 && s4.counterForEnd == 2 && s4.data == [i0, d1]
    ensures y.counter == 5 && y.counterForEnd == 1 && y.data == s4.data
    ensures y.mem == WbMem(i0, s4.regs, s4.mem) && y.regs == MemRegs(d1, s4.regs, y.mem)
    ensures y.out == s4.out && y.pc == s4.pc && y.endProgram == s4.endProgram
  {
    assert !Taken(NOP, r.regs);
  }

  lemma Tick5(i0: Instr, d1: Instr, s5: St, r: St, x: St, y: St)
    requires Ticked(s5, r, x, y) && s5.counter == 5 && s5.counterForEnd == 1 && s5.data == [i0, d1]
    ensures y.counterForEnd == 0 && y.mem == WbMem(d1, s5.regs, s5.mem) && y.regs == s5.regs
    ensures y.out == s5.out && y.pc == s5.pc && y.endProgram == s5.endProgram
  {
    assert !Taken(NOP, r.regs);
  }

  /** Registers and memory after a slice of the slots `i0` and `d1`. The store of the first slot sees the registers the
      second slot has already written in EX. */
  function TwoSlotRegs(i0: Instr, d1: Instr, q: Arch): Regs {
    var regs := ExRegs(d1, MemRegs(i0, ExRegs(i0, q.regs), q.mem));
    MemRegs(d1, regs, WbMem(i0, regs, q.mem))
  }
  function TwoSlotMem(i0: Instr, d1: Instr, q: Arch): Mem {
    var regs := ExRegs(d1, MemRegs(i0, ExRegs(i0, q.regs), q.mem));
    WbMem(d1, TwoSlotRegs(i0, d1, q), WbMem(i0, regs, q.mem))
  }

  lemma RunOnce(s: St)
    requires Shape(s) && s.counterForEnd > 0
    ensures Run(s) == Run(Tick(s))
  {
    hide Tick;
  }

  /** The program counter after fetching the word `w` at `f`. */
  function AfterFetch(w: Word, f: Word): Word {
    if StopWord(w, f) then f else ToWord(f + 4)
  }

  lemma TwoSlotSlice(s: St)
    requires FetchesTwo(s)
    ensures var q, r := ArchOf(s), Slice(s);
            var i0, d1 := Current(q), SecondSlot(q);
            && r.regs == TwoSlotRegs(i0, d1, q) && r.mem == TwoSlotMem(i0, d1, q)
            && r.endProgram == StopWord(SecondWord(q), ToWord(q.pc + 4))
            && (Jumps(q) ==> r.out == q.out && r.pc == ToWord(i0.imm))
            && (!Jumps(q) && !IsBranch(d1.op) && !d1.op.J? && !Conflict(i0, DecodeWord(SecondWord(q))) ==>
                  r.pc == AfterFetch(SecondWord(q), ToWord(q.pc + 4)))
  {
    hide Tick, Current, DecodeWord, ExRegs, MemRegs, WbMem, Taken, Conflict, Ticked, StopWord;
    var q := ArchOf(s);
    var i0, d1 := Current(q), SecondSlot(q);
    var s1 := Tick(s);
    RunOnce(s);
    Tick0(s, s1);
    var r1, x1 := TickPhases(s1);
    var s2 := Tick(s1);
    RunOnce(s1);
    Tick1(s, s1, r1, x1, s2);
    var r2, x2 := TickPhases(s2);
    var s3 := Tick(s2);
    RunOnce(s2);
    Tick2(q, i0, SecondWord(q), s2, r2, x2, s3);
    assert s3.data == [i0, d1];
    var r3, x3 := TickPhases(s3);
    var s4 := Tick(s3);
    RunOnce(s3);
    Tick3(i0, d1, s3, r3, x3, s4);
    var r4, x4 := TickPhases(s4);
    var s5 := Tick(s4);
    RunOnce(s4);
    Tick4(i0, d1, s4, r4, x4, s5);
    var r5, x5 := TickPhases(s5);
    var s6 := Tick(s5);
    RunOnce(s5);
    Tick5(i0, d1, s5, r5, x5, s6);
  }

  // ---------------------------------------------------------------------------------------------------------------
  // A jump over a stop word
  // ---------------------------------------------------------------------------------------------------------------

  /** Fetch sees the stop word behind a taken branch before the branch executes: with any quantum above one the process
      is finished although the branch was executed and the program has not stopped. */
  lemma JumpOverStopFinishes(s: St)
    requires FetchesTwo(s) && Jumps(ArchOf(s)) && StopWord(SecondWord(ArchOf(s)), ToWord(s.pc + 4))
    ensures Slice(s).state == Finished && ArchOf(Slice(s)) == Step(ArchOf(s))
  {
    hide Run, DecodeWord, StopWord, Exec;
    var q := ArchOf(s);
    TwoSlotSlice(s);
    ExecIsStages(Current(q), q);
  }

  /** With a quantum of one the stop word is not fetched: the branch executes and the process is not finished. So a
      slice that starts with a jump over a stop word finishes the process exactly when its quantum exceeds one. */
  lemma JumpOverStopExactly(s: St)
    requires Fresh(s) && s.state != Finished && !AtStop(ArchOf(s)) && Jumps(ArchOf(s))
    requires StopWord(SecondWord(ArchOf(s)), ToWord(s.pc + 4))
    ensures Slice(s).state == Finished <==> s.quantum > 1
  {
    hide Tick, DecodeWord, StopWord, Taken, Ledger;
    if s.quantum > 1 {
      assert !Current(ArchOf(s)).op.Print? by { PrintDoesNotJump(ArchOf(s)); }
      JumpOverStopFinishes(s);
    } else {
      OneSlotSlice(s);
      SliceCost(s);
    }
  }

  lemma PrintDoesNotJump(q: Arch)
    requires Jumps(q)
    ensures !Current(q).op.Print?
  {
    hide DecodeWord;
  }

  /** A slice of quantum one fetches a single slot and ends the program only on a stop word. */
  lemma OneSlotSlice(s: St)
    requires Fresh(s) && s.quantum <= 1 && !AtStop(ArchOf(s))
    ensures !Slice(s).endProgram
  {
    var y := Tick(s);
    assert !y.endProgram && y.counterForEnd == 4;
    hide Tick, StopWord, AtStop;
    RunOnce(s);
    DrainKeepsEnd(y);
  }

  lemma {:induction false} DrainKeepsEnd(s: St)
    requires Shape(s) && s.counterForEnd < 5
    ensures Run(s).endProgram == s.endProgram
    decreases s.counterForEnd
  {
    hide Tick;
    if s.counterForEnd > 0 {
      var r, x := TickPhases(s);
      DrainTickKeepsEnd(s, r, x, Tick(s));
      DrainKeepsEnd(Tick(s));
    }
  }

  lemma DrainTickKeepsEnd(s: St, r: St, x: St, y: St)
    requires Ticked(s, r, x, y) && s.counterForEnd < 5
    ensures y.endProgram == s.endProgram
  {
    hide DecodeWord, Conflict, ExRegs, MemRegs, WbMem, Taken, StopWord;
  }

  // ---------------------------------------------------------------------------------------------------------------
  // A store and the instruction behind it
  // ---------------------------------------------------------------------------------------------------------------

  /** A slice that runs a store and one further word. */
  predicate StoreSlice(s: St) {
    var q := ArchOf(s);
    && FetchesTwo(s) && s.quantum == 2 && Current(q).op.Sw? && !StopWord(SecondWord(q), ToWord(q.pc + 4))
  }

  lemma StoreStep(q: Arch)
    requires Current(q).op.Sw?
    ensures Step(q) == q.(mem := q.mem[Current(q).addr := q.regs[Current(q).rt]], pc := ToWord(q.pc + 4))
  {
    hide DecodeWord;
  }

  /** The exact condition on the word behind a store: registers and memory end up as if the two words had been executed
      one after the other if and only if EX of the second leaves the stored register unchanged. */
  lemma LateStoreExactly(s: St)
    requires StoreSlice(s)
    ensures var q, r := ArchOf(s), Slice(s);
            var i1 := DecodeWord(SecondWord(q));
            var two := Exec(i1, Step(q));
            (r.regs == two.regs && r.mem == two.mem) <==>
            ExRegs(i1, q.regs)[Current(q).rt] == q.regs[Current(q).rt]
  {
    var q := ArchOf(s);
    var i0, i1 := Current(q), DecodeWord(SecondWord(q));
    assert SecondSlot(q) == i1;
    TwoSlotSlice(s);
    StoreStep(q);
    ExecIsStages(i1, Step(q));
    hide Run, DecodeWord, StopWord, Exec, Step, Current;
    LateStoreMemory(i0, i1, q, Step(q), Exec(i1, Step(q)));
  }

  lemma LateStoreMemory(i0: Instr, i1: Instr, q: Arch, q1: Arch, two: Arch)
    requires i0.op.Sw? && q1.regs == q.regs && q1.mem == q.mem[i0.addr := q.regs[i0.rt]]
    requires AllStages(i1, q1, two)
    ensures TwoSlotRegs(i0, i1, q) == two.regs && TwoSlotMem(i0, i1, q) == two.mem
            <==> ExRegs(i1, q.regs)[i0.rt] == q.regs[i0.rt]
  {
    hide Taken;
    var late, due := ExRegs(i1, q.regs)[i0.rt], q.regs[i0.rt];
    if late != due {
      assert !i1.op.Sw?;
      assert TwoSlotMem(i0, i1, q)[i0.addr] == late && two.mem[i0.addr] == due;
    }
  }

  /** A late store that goes wrong is never made good by a store into the next word: `v` is the register value due. */
  lemma LateDiffers(i0: Instr, i1: Instr, q: Arch, two: Arch, v: Word)
    requires i0.op.Sw? && v == q.regs[i0.rt] && ExRegs(i1, q.regs)[i0.rt] != v && (i1.op.Li? ==> i1.addr < 0x1_0000)
    requires var q1 := q.(mem := q.mem[i0.addr := v]);
             (two.regs == q1.regs && two.mem == q1.mem)
             || exists pc, out :: AllStages(DecodeWord(v), Arch(q.regs, q1.mem, pc, out), two)
    ensures TwoSlotRegs(i0, i1, q) != two.regs || TwoSlotMem(i0, i1, q) != two.mem
  {
    hide Taken;
    var late := ExRegs(i1, q.regs)[i0.rt];
    assert !i1.op.Sw?;
    assert TwoSlotMem(i0, i1, q)[i0.addr] == late;
    if DecodeWord(v).op.Sw? {
      StoreWordIsLarge(v);
      assert TwoSlotRegs(i0, i1, q)[i0.rt] != v;
    }
    hide DecodeWord;
  }

  lemma ImmediateIsSmall(w: Word)
    requires DecodeWord(w).op.Li?
    ensures DecodeWord(w).addr < 0x1_0000
  {
  }

  lemma StoreWordIsLarge(w: Word)
    requires DecodeWord(w).op.Sw?
    ensures w >= 0xAC00_0000
  {
  }

  /** The same for the two steps of the sequential machine, when the store hits the word behind it. */
  lemma LateIntoCodeDiffers(q: Arch)
    requires Current(q).op.Sw? && !AtStop(q) && Current(q).addr == ToWord(q.pc + 4)
    requires ExRegs(DecodeWord(SecondWord(q)), q.regs)[Current(q).rt] != q.regs[Current(q).rt]
    ensures var i0, i1, two := Current(q), DecodeWord(SecondWord(q)), SeqRun(q, 2);
            TwoSlotRegs(i0, i1, q) != two.regs || TwoSlotMem(i0, i1, q) != two.mem
  {
    var i0, i1 := Current(q), DecodeWord(SecondWord(q));
    StoreStep(q);
    var q1 := Step(q);
    assert SeqRun(q, 1) == q1;
    assert SeqRun(q, 2) == if AtStop(q1) then q1 else Step(q1);
    assert Load(q1.mem, q1.pc) == q.regs[i0.rt];
    ExecIsStages(Current(q1), q1);
    if i1.op.Li? {
      ImmediateIsSmall(SecondWord(q));
    }
    hide DecodeWord, StopWord, Exec, ExRegs, MemRegs, WbMem, TwoSlotRegs, TwoSlotMem, SeqRun, AtStop;
    LateDiffers(i0, i1, q, SeqRun(q, 2), q.regs[i0.rt]);
  }

  /** With the store away from the next word, the word fetched is the word in memory. */
  lemma SecondStep(q: Arch)
    requires Current(q).op.Sw? && !AtStop(q) && Current(q).addr != ToWord(q.pc + 4)
    requires !StopWord(SecondWord(q), ToWord(q.pc + 4))
    ensures SeqRun(q, 2) == Exec(DecodeWord(SecondWord(q)), Step(q))
  {
    hide DecodeWord, StopWord, Exec;
    StoreStep(q);
    assert SeqRun(q, 1) == Step(q);
  }

  /** The exact condition for two slots against two sequential steps, the store hitting the word behind it or not: EX
      of the word fetched leaves the stored register unchanged, and that word has the effect of the word in memory
      after the store. */
  lemma StorePairExactly(s: St)
    requires StoreSlice(s)
    ensures var q, r, two := ArchOf(s), Slice(s), SeqRun(ArchOf(s), 2);
            var i1 := DecodeWord(SecondWord(q));
            var one := Exec(i1, Step(q));
            (r.regs == two.regs && r.mem == two.mem) <==>
            ExRegs(i1, q.regs)[Current(q).rt] == q.regs[Current(q).rt] && one.regs == two.regs && one.mem == two.mem
  {
    var q := ArchOf(s);
    hide AtStop, DecodeWord, StopWord, Exec, ExRegs, SeqRun, Run, TwoSlotRegs, TwoSlotMem, Step;
    LateStoreExactly(s);
    StoreIsFollowed(q);
    TwoSlotSlice(s);
    if Current(q).addr == ToWord(q.pc + 4) {
      if ExRegs(DecodeWord(SecondWord(q)), q.regs)[Current(q).rt] != q.regs[Current(q).rt] {
        LateIntoCodeDiffers(q);
      }
    } else {
      SecondStep(q);
    }
  }

  lemma StoreIsFollowed(q: Arch)
    requires Current(q).op.Sw?
    ensures SecondSlot(q) == DecodeWord(SecondWord(q))
  {
  }

  // ---------------------------------------------------------------------------------------------------------------
  // Concrete programs
  // ---------------------------------------------------------------------------------------------------------------

  function Start(mem: Mem, quantum: int): St {
    St(seq(32, i => 0), mem, 0, 0, 0, [], [], 0, 5, 0, false, false, quantum, true, Ready, 0, 0)
  }

  /** `j 0; end` loops forever, yet its first slice of quantum 20 reports it finished. */
  lemma LoopReportedFinished()
    ensures var s := Start(map[0 := 0x0800_0000, 4 := END_SENTINEL], 20);
            && Slice(s).state == Finished
            && Step(ArchOf(s)) == ArchOf(s) && !AtStop(ArchOf(s))
  {
    var s := Start(map[0 := 0x0800_0000, 4 := END_SENTINEL], 20);
    var q := ArchOf(s);
    assert Current(q) == Instr(J, 0, 0, 0, 0, 0);
    assert SecondWord(q) == END_SENTINEL;
    hide Run, DecodeWord;
    JumpOverStopFinishes(s);
  }

  const STORE_INTO_CODE: Mem := map[0 := 0xAC00_0004, 4 := 0x2008_0007]

  lemma StoreIntoCodeInSequence(q: Arch)
    requires q.mem == STORE_INTO_CODE && q.pc == 0 && q.regs[0] == 0
    ensures SeqRun(q, 2).regs == q.regs
  {
    assert Current(q) == Instr(Sw, 0, 0, 0, 4, 4);
    hide DecodeWord;
    StoreStep(q);
    assert DecodeWord(0) == NOP by { ZeroIsNop(); }
    assert SeqRun(q, 1) == Step(q);
    assert Step(q).pc == 4;
    assert Load(Step(q).mem, 4) == q.regs[0];
    assert q.regs[0] == 0 ==> Current(Step(q)) == NOP;
  }

  lemma AddiExec(q: Arch)
    requires q.regs[0] == 0
    ensures Exec(Instr(Addi, 0, 8, 0, 7, 7), q).regs[8] == 7
  {
  }

  lemma ZeroIsNop()
    ensures DecodeWord(0) == NOP
  {
  }

  /** `sw $zero, 4; addi $t0, $zero, 7` at 0: the store replaces the second word by 0, a no-op, but the slice still runs
      the `addi` it has fetched. */
  lemma StoreIntoCodeMissed()
    ensures var s := Start(STORE_INTO_CODE, 2);
            Slice(s).regs != SeqRun(ArchOf(s), 2).regs || Slice(s).mem != SeqRun(ArchOf(s), 2).mem
  {
    hide Slice, SeqRun, DecodeWord, ExRegs, Exec, Step, StopWord, AtStop, Current;
    var s := Start(STORE_INTO_CODE, 2);
    var q := ArchOf(s);
    StoreIntoCodeDecodes(q);
    StoreIntoCodeInSequence(q);
    SteppedRegs(q);
    AddiExec(Step(q));
    StorePairExactly(s);
  }

  lemma StoreIntoCodeDecodes(q: Arch)
    requires q.mem == STORE_INTO_CODE && q.pc == 0
    ensures !AtStop(q) && Current(q) == Instr(Sw, 0, 0, 0, 4, 4)
    ensures !StopWord(SecondWord(q), 4) && DecodeWord(SecondWord(q)) == Instr(Addi, 0, 8, 0, 7, 7)
  {
  }

  lemma SteppedRegs(q: Arch)
    requires Current(q).op.Sw?
    ensures Step(q).regs == q.regs
  {
    StoreStep(q);
  }

  /** `sw $t0, 100; addi $t0, $zero, 7` does not end where two sequential steps do: it stores the new $t0. */
  lemma StoreSeesNextResult()
    ensures var s := Start(map[0 := 0xAC08_0064, 4 := 0x2008_0007], 2);
            Slice(s).regs != SeqRun(ArchOf(s), 2).regs || Slice(s).mem != SeqRun(ArchOf(s), 2).mem
  {
    var s := Start(map[0 := 0xAC08_0064, 4 := 0x2008_0007], 2);
    var q := ArchOf(s);
    var i1 := Instr(Addi, 0, 8, 0, 7, 7);
    assert Current(q) == Instr(Sw, 0, 8, 0, 100, 100) && DecodeWord(SecondWord(q)) == i1;
    assert ExRegs(i1, q.regs)[8] == 7;
    hide Slice, SeqRun, DecodeWord, ExRegs;
    StorePairExactly(s);
  }
}
