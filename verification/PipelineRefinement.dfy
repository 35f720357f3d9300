/** A time slice of the pipeline leaves the process where sequential execution would. */
module PipelineRefinement {
  import opened Words
  import opened Alu
  import opened Isa
  import opened Pipeline

  /** Slots without any effect: bubbles, squashed slots and no-ops. */
  predicate Inert(i: Instr) {
    i.op.Nop? || i.op.Bubble? || i.op.End? || i.op.Jal? || i.op.Andi?
  }

  /** The next instruction at `q` is a taken branch or a jump. */
  predicate Jumps(q: Arch) {
    Taken(Current(q), q.regs)
  }

  /** A word that is not fetched at `q`, nor behind the instruction there. */
  predicate Away(a: Word, q: Arch) {
    a != q.pc && (!AtStop(q) ==> a != ToWord(q.pc + 4))
  }

  /** The slot behind `d` may issue the instruction at `q`: `d` neither jumps there nor makes it wait. */
  predicate MayIssue(d: Instr, q: Arch, jumped: bool) {
    !jumped && !AtStop(q) && !Conflict(d, Current(q))
  }

  /** A word that is not fetched at `q`, nor behind the instruction there unless that waits for `d` or `d` jumps to
      it. */
  predicate AwayBehind(a: Word, d: Instr, q: Arch, jumped: bool) {
    a != q.pc && (MayIssue(d, q, jumped) ==> a != ToWord(q.pc + 4))
  }

  /** A word that is not fetched at `q` and at the state after it. */
  predicate AwayNext(a: Word, q: Arch) {
    Away(a, q) && (!AtStop(q) ==> AwayBehind(a, Current(q), Step(q), Jumps(q)))
  }

  /** A store at `q` does not hit a word that one of the next three slots fetches: WB of a slot runs before IF of the
      fourth slot behind it. The third is the target's own when the instruction behind the store jumps, and fetches no
      new word when the one after that waits for it. */
  predicate SparesFetches(q: Arch) {
    !AtStop(q) && Current(q).op.Sw? ==> AwayNext(Current(q).addr, Step(q))
  }

  /** EX of the next instruction leaves a register stored at `q` as it is: the store reads it only in WB. */
  predicate KeepsStored(q: Arch) {
    var q1 := Step(q);
    !AtStop(q) && Current(q).op.Sw? && !AtStop(q1) ==>
      ExRegs(Current(q1), q1.regs)[Current(q).rt] == q1.regs[Current(q).rt]
  }

  /** What a program must respect at `q` for the pipeline to agree with `Step`. */
  predicate Disciplined(q: Arch) {
    SparesFetches(q) && KeepsStored(q)
  }

  /** The first `n` instructions respect it. */
  ghost predicate DisciplinedRun(q: Arch, n: nat) {
    forall k: nat | k < n :: Disciplined(SeqRun(q, k))
  }

  /** Slots the slice may fetch. */
  function MaxSlots(quantum: int): (n: nat)
    ensures n >= 1
  {
    if quantum < 1 then 1 else quantum
  }

  // ---------------------------------------------------------------------------------------------------------------
  // Instructions as the composition of their stages
  // ---------------------------------------------------------------------------------------------------------------

  lemma BranchDecision(op: Op, a: Word, b: Word)
    requires IsBranch(op)
    ensures Result(AluOf(op), a, b) == 1 <==>
            match op
            case Beq => a == b
            case Bne => a != b
            case Bgt => Signed(a) > Signed(b)
            case _ => Signed(a) < Signed(b)
  {
  }

  /** `q'` is `q` after EX, MEM and WB of `i`, one directly after the other. */
  predicate AllStages(i: Instr, q: Arch, q': Arch) {
    var regs := MemRegs(i, ExRegs(i, q.regs), q.mem);
    && q'.regs == regs
    && q'.mem == WbMem(i, regs, q.mem)
    && q'.out == (if i.op.Print? then q.out + [Signed(q.regs[i.rt])] else q.out)
    && q'.pc == (if Taken(i, q.regs) then ToWord(i.imm) else ToWord(q.pc + 4))
  }

  /** The reference semantics of an instruction is the composition of its stages. */
  lemma ExecIsStages(i: Instr, q: Arch)
    ensures AllStages(i, q, Exec(i, q))
  {
    if IsBranch(i.op) {
      BranchDecision(i.op, q.regs[i.rs], q.regs[i.rt]);
    } else if i.op.Li? && i.rt != 0 {
      assert q.regs[i.rt := ToWord(i.imm)][i.rt := i.addr] == q.regs[i.rt := i.addr];
    }
  }

  /** EX of a slot and WB of the slot before it commute if the former leaves the stored register as it is. */
  lemma StoreCommutes(m: Instr, d: Instr, regs: Regs, mem: Mem)
    requires m.op.Sw? ==> ExRegs(d, regs)[m.rt] == regs[m.rt]
    ensures WbMem(m, ExRegs(d, regs), mem) == WbMem(m, regs, mem)
  {
  }

  // ---------------------------------------------------------------------------------------------------------------
  // The invariant
  // ---------------------------------------------------------------------------------------------------------------

  /** Registers and memory once the slots past EX have completed. */
  function FlushRegs(s: St): Regs {
    MemRegs(At(s.data, s.counter - 3), s.regs, WbMem(At(s.data, s.counter - 4), s.regs, s.mem))
  }
  function FlushMem(s: St): Mem {
    WbMem(At(s.data, s.counter - 3), FlushRegs(s), WbMem(At(s.data, s.counter - 4), s.regs, s.mem))
  }

  predicate SparesNext(i: Instr, q: Arch) {
    i.op.Sw? ==> AwayNext(i.addr, q)
  }

  /** Address of the word held in IR. */
  function FetchAddr(q: Arch, live: bool): Word {
    if live then ToWord(q.pc + 4) else q.pc
  }

  /** The front end: PC, IR and the end-of-program flag against the next sequential instruction. */
  predicate Front(s: St, q: Arch, live: bool) {
    if s.counter == 0 then s.pc == q.pc && !live
    else if s.counterForEnd >= 4 then
      var f := FetchAddr(q, live);
      && s.pc == (if StopWord(s.ir, f) then f else ToWord(f + 4))
      && (s.endProgram <==> StopWord(s.ir, f))
      && s.ir == Load(q.mem, f)
    else if s.counterForEnd == 3 then s.pc == FetchAddr(q, live)
    else s.pc == q.pc
  }

  /** The sequential state `n` instructions after `q0` was reached by a jump over a stop word. */
  predicate JumpedOverStop(q0: Arch, n: nat) {
    n > 0 &&
    var p := SeqRun(q0, n - 1);
    var f := ToWord(p.pc + 4);
    !AtStop(p) && Jumps(p) && StopWord(Load(p.mem, f), f)
  }

  predicate EndSeen(q0: Arch, n: nat) {
    AtStop(SeqRun(q0, n)) || JumpedOverStop(q0, n)
  }

  /** Slots that have been through ID. */
  function Decided(s: St): int {
    if s.counterForEnd >= 4 then (if s.counter == 0 then 0 else s.counter - 1) else |s.data|
  }

  function Issued(n: nat, gap: nat): nat {
    if gap == 0 then n + 1 else n
  }

  /** EX of `d` does not change what the store in `m` is going to store. */
  predicate LeavesStored(m: Instr, d: Instr, regs: Regs) {
    m.op.Sw? ==> ExRegs(d, regs)[m.rt] == regs[m.rt]
  }

  /** Back end before a tick: slots past EX complete to `q`, and the slot to execute belongs to `q` or is inert. */
  predicate BackInv(s: St, q: Arch, d: Instr, live: bool) {
    && Shape(s)
    && FlushRegs(s) == q.regs && FlushMem(s) == q.mem && s.out == q.out
    && At(s.data, s.counter - 2) == d
    && (if live then LeavesStored(At(s.data, s.counter - 3), d, q.regs) else Inert(d))
  }

  /** The invariant without its counts. */
  predicate CoreInv(s: St, q: Arch, gap: nat) {
    var d := At(s.data, s.counter - 2);
    && BackInv(s, q, d, gap == 0) && Front(s, q, gap == 0)
    && (gap == 0 ==> !AtStop(q) && d == Current(q))
    && (gap == 2 && s.counterForEnd >= 4 ==> Inert(At(s.data, s.counter - 3)))
    && SparesNext(At(s.data, s.counter - 3), q)
  }

  /** Slot counts: `n` instructions executed, `gap` slots lost since the last issue. */
  predicate Counts(s: St, n: nat, gap: nat) {
    && Issued(n, gap) <= Decided(s)
    && |s.data| <= MaxSlots(s.quantum)
    && (if s.counterForEnd >= 4
        then gap <= 2 && Decided(s) <= 3 * Issued(n, gap) + gap - 2
        else Decided(s) <= 3 * Issued(n, gap) + if s.endProgram then 1 else 0)
    && (s.counterForEnd <= 2 || (s.counterForEnd == 3 && s.endProgram) ==> gap > 0)
  }

  /** The slice started at `q0`; `n` instructions have passed EX; `gap` slots were lost since the last issue. */
  predicate Inv(s: St, q0: Arch, n: nat, gap: nat) {
    && CoreInv(s, SeqRun(q0, n), gap)
    && (s.counterForEnd <= 3 && s.endProgram ==> EndSeen(q0, n))
    && Counts(s, n, gap)
  }

  // ---------------------------------------------------------------------------------------------------------------
  // One tick
  // ---------------------------------------------------------------------------------------------------------------

  predicate SameFront(s: St, r: St) {
    r.pc == s.pc && r.ir == s.ir && r.data == s.data && r.out == s.out
  }

  lemma WbEffect(s: St)
    requires Shape(s) && s.counterForEnd > 0
    ensures var r := WbPhase(s);
            Shape(r) && SameFront(s, r) && r.regs == s.regs && r.mem == WbMem(At(s.data, s.counter - 4), s.regs, s.mem)
  {
  }

  lemma MemEffect(s: St)
    requires Shape(s) && s.counterForEnd > 0
    ensures var r := MemPhase(s);
            Shape(r) && SameFront(s, r) && r.mem == s.mem && r.regs == MemRegs(At(s.data, s.counter - 3), s.regs, s.mem)
  {
  }

  lemma ExecuteEffect(s: St, k: nat)
    requires k < |s.data|
    ensures var r := Execute(s, k);
            var d := s.data[k];
            && r.mem == s.mem && r.regs == ExRegs(d, s.regs)
            && r.out == (if d.op.Print? then s.out + [Signed(s.regs[d.rt])] else s.out)
            && r.pc == (if Taken(d, s.regs) then ToWord(d.imm) else s.pc)
            && r.ir == (if Taken(d, s.regs) then 0 else s.ir)
            && |r.data| == |s.data|
            && (forall k | 0 <= k < |s.data| && k != s.counter - 1 :: r.data[k] == s.data[k])
            && r.endProgram == s.endProgram
  {
  }

  lemma NopInEx(regs: Regs)
    ensures ExRegs(NOP, regs) == regs && !Taken(NOP, regs)
  {
  }

  lemma ExEffect(s: St)
    requires Shape(s) && s.counterForEnd > 0
    ensures var r := ExPhase(s);
            var d := At(s.data, s.counter - 2);
            && r.mem == s.mem && r.regs == ExRegs(d, s.regs)
            && r.out == (if d.op.Print? then s.out + [Signed(s.regs[d.rt])] else s.out)
            && r.pc == (if Taken(d, s.regs) then ToWord(d.imm) else s.pc)
            && r.ir == (if Taken(d, s.regs) then 0 else s.ir)
            && |r.data| == |s.data|
            && (forall k | 0 <= k < |s.data| && k != s.counter - 1 :: r.data[k] == s.data[k])
            && r.endProgram == s.endProgram
  {
    hide Execute, ExRegs, Taken;
    NopInEx(s.regs);
    if s.counter >= 2 && s.counterForEnd >= 3 {
      ExecuteEffect(s, s.counter - 2);
    }
  }

  /** `r` is `s` after WB, MEM and EX of one tick, wherever the tick falls in the slice. */
  predicate AfterEx(s: St, r: St) {
    var w, m, d := At(s.data, s.counter - 4), At(s.data, s.counter - 3), At(s.data, s.counter - 2);
    var regs := MemRegs(m, s.regs, r.mem);
    && SameClock(s, r)
    && r.mem == WbMem(w, s.regs, s.mem)
    && r.regs == ExRegs(d, regs)
    && r.out == (if d.op.Print? then s.out + [Signed(regs[d.rt])] else s.out)
    && r.pc == (if Taken(d, regs) then ToWord(d.imm) else s.pc)
    && r.ir == (if Taken(d, regs) then 0 else s.ir)
    && |r.data| == |s.data|
    && (forall k | 0 <= k < |s.data| && k != s.counter - 1 :: r.data[k] == s.data[k])
    && r.endProgram == s.endProgram
  }

  lemma BackEnd(s: St)
    requires Shape(s) && s.counterForEnd > 0
    ensures AfterEx(s, ExPhase(MemPhase(WbPhase(s))))
  {
    var s1 := WbPhase(s);
    WbEffect(s);
    var s2 := MemPhase(s1);
    MemEffect(s1);
    ExEffect(s2);
  }

  /** EX advances the sequential state by one instruction exactly when it holds an issued slot. */
  lemma ExecuteStep(s: St, q: Arch, q': Arch, d: Instr, live: bool, r: St)
    requires BackInv(s, q, d, live) && s.counterForEnd > 0
    requires AfterEx(s, r)
    requires if live then AllStages(d, q, q') else q' == q
    ensures var m := At(s.data, s.counter - 3);
            && MemRegs(d, r.regs, WbMem(m, r.regs, r.mem)) == q'.regs
            && WbMem(d, q'.regs, WbMem(m, r.regs, r.mem)) == q'.mem
            && r.out == q'.out
    ensures if Taken(d, q.regs) then live && r.pc == q'.pc && r.ir == 0
            else r.pc == s.pc && r.ir == s.ir && q'.pc == FetchAddr(q, live)
  {
    StoreCommutes(At(s.data, s.counter - 3), d, q.regs, r.mem);
  }

  /** `x` is `r` after ID of the instruction `i`. */
  predicate AfterId(r: St, x: St, i: Instr) {
    r.counter >= 1 && r.counter <= |r.data| &&
    var stall := Conflict(At(r.data, r.counter - 2), i) || Conflict(At(r.data, r.counter - 3), i);
    && x == r.(data := x.data, pc := x.pc, stages := x.stages)
    && x.data == r.data[r.counter - 1 := if stall then i.(op := Bubble) else i]
    && x.pc == (if stall then ToWord(r.pc - 4) else r.pc)
  }

  lemma IdEffect(r: St)
    requires r.counter >= 1 && r.counterForEnd >= 4 && r.counter <= |r.data|
    ensures AfterId(r, IdPhase(r), DecodeWord(r.ir))
  {
  }

  /** `y` is `x` after IF (when the slice still fetches) and the clocking. */
  predicate AfterIf(x: St, y: St) {
    var w := Load(x.mem, x.pc);
    && y.regs == x.regs && y.mem == x.mem && y.out == x.out && y.counter == x.counter + 1 && y.quantum == x.quantum
    && y.data == (if x.counterForEnd == 5 then x.data + [NOP] else x.data)
    && (y.counterForEnd == x.counterForEnd || y.counterForEnd == x.counterForEnd - 1)
    && (if x.counterForEnd == 5
        then y.ir == w && y.pc == (if StopWord(w, x.pc) then x.pc else ToWord(x.pc + 4))
             && y.endProgram == (x.endProgram || StopWord(w, x.pc))
        else y.pc == x.pc && y.endProgram == x.endProgram)
  }

  lemma IfEffect(x: St)
    ensures AfterIf(x, Advance(IfPhase(x)))
  {
  }

  /** `y` is `s` one tick later, with `r` after EX and `x` after ID. */
  predicate Ticked(s: St, r: St, x: St, y: St) {
    && Shape(s) && Shape(y) && s.counterForEnd > 0
    && AfterEx(s, r)
    && (if s.counterForEnd >= 4 && s.counter >= 1 then AfterId(r, x, DecodeWord(r.ir)) else x == r)
    && AfterIf(x, y)
    && (s.counterForEnd < 5 ==> y.counterForEnd == s.counterForEnd - 1)
  }

  lemma TickPhases(s: St) returns (r: St, x: St)
    requires Shape(s) && s.counterForEnd > 0
    ensures Ticked(s, r, x, Tick(s))
  {
    BackEnd(s);
    r := ExPhase(MemPhase(WbPhase(s)));
    x := IdPhase(r);
    if s.counterForEnd >= 4 && s.counter >= 1 {
      IdEffect(r);
    }
    IfEffect(x);
  }

  /** Outcome of ID: the next sequential instruction is issued, or the slot is lost and PC points to it again. */
  predicate Outcome(x: St, q': Arch, slot: Instr, live: bool) {
    if live then !AtStop(q') && slot == Current(q') && x.pc == ToWord(q'.pc + 4)
    else Inert(slot) && x.pc == q'.pc
  }

  predicate Harmless(i: Instr) {
    Inert(i) && HazardReads(i) == {}
  }

  lemma LostSlot(w: Word, pc: Word)
    requires w == 0 || StopWord(w, pc)
    ensures Harmless(DecodeWord(w))
  {
    assert Identify(END_SENTINEL) == End;
    assert Identify(0) == Nop;
  }

  lemma IssueOrStall(r: St, x: St, i: Instr, d: Instr, m: Instr, gap: nat, lost: bool, pc': Word) returns (gap': nat)
    requires AfterId(r, x, i)
    requires d == At(r.data, r.counter - 2) && m == At(r.data, r.counter - 3)
    requires gap <= 2 && (gap >= 1 ==> Inert(d)) && (gap == 2 ==> Inert(m))
    requires if lost then Harmless(i) && r.pc == pc' else r.pc == ToWord(pc' + 4)
    ensures if gap' == 0 then !lost && x.data[r.counter - 1] == i && x.pc == ToWord(pc' + 4)
            else gap' == gap + 1 && Inert(x.data[r.counter - 1]) && x.pc == pc'
    ensures (gap' == 3 ==> lost) && (gap' == 0 ==> !Conflict(d, i))
  {
    gap' := if lost || Conflict(d, i) || Conflict(m, i) then gap + 1 else 0;
  }

  lemma DecideStep(r: St, x: St, q': Arch, d: Instr, m: Instr, gap: nat, taken: bool) returns (gap': nat)
    requires AfterId(r, x, DecodeWord(r.ir))
    requires d == At(r.data, r.counter - 2) && m == At(r.data, r.counter - 3)
    requires gap <= 2 && (gap >= 1 ==> Inert(d)) && (gap == 2 ==> Inert(m))
    requires if taken then gap == 0 && r.pc == q'.pc && r.ir == 0
             else r.ir == Load(q'.mem, q'.pc) && r.pc == (if AtStop(q') then q'.pc else ToWord(q'.pc + 4))
    ensures Outcome(x, q', x.data[r.counter - 1], gap' == 0)
    ensures gap' == 0 || gap' == gap + 1
    ensures gap' == 3 ==> AtStop(q') && !taken
    ensures taken ==> gap' == 1
    ensures gap' == 0 ==> MayIssue(d, q', taken)
  {
    var lost := taken || AtStop(q');
    if lost {
      LostSlot(r.ir, q'.pc);
    }
    gap' := IssueOrStall(r, x, DecodeWord(r.ir), d, m, gap, lost, q'.pc);
  }

  /** Registers, memory and output after EX, MEM and WB of the slots still in flight. */
  predicate Pending(m: Instr, d: Instr, r: St, q': Arch) {
    && MemRegs(d, r.regs, WbMem(m, r.regs, r.mem)) == q'.regs
    && WbMem(d, q'.regs, WbMem(m, r.regs, r.mem)) == q'.mem
    && r.out == q'.out
  }

  /** The back-end half of the invariant for the next tick. */
  lemma NextBack(r: St, y: St, q': Arch, m: Instr, d: Instr, i: Instr, live': bool)
    requires Pending(m, d, r, q')
    requires Shape(y) && y.regs == r.regs && y.mem == r.mem && y.out == r.out
    requires At(y.data, y.counter - 2) == i && At(y.data, y.counter - 3) == d && At(y.data, y.counter - 4) == m
    requires if live' then LeavesStored(d, i, q'.regs) else Inert(i)
    ensures BackInv(y, q', i, live')
  {
  }

  /** What IF reads next is in memory as the sequential machine has it. */
  predicate FetchesCurrent(mem: Mem, q': Arch, issues: bool) {
    var f := ToWord(q'.pc + 4);
    Load(mem, q'.pc) == Load(q'.mem, q'.pc) && (issues ==> Load(mem, f) == Load(q'.mem, f))
  }

  predicate SparesHere(i: Instr, q: Arch) {
    i.op.Sw? ==> Away(i.addr, q)
  }

  /** The store in MEM spares what the next slot fetches. */
  predicate SparesBehind(m: Instr, d: Instr, q': Arch, jumped: bool) {
    m.op.Sw? ==> AwayBehind(m.addr, d, q', jumped)
  }

  lemma NothingMissed(m: Instr, d: Instr, r: St, q': Arch, jumped: bool)
    requires Pending(m, d, r, q') && SparesBehind(m, d, q', jumped) && SparesHere(d, q')
    ensures FetchesCurrent(r.mem, q', MayIssue(d, q', jumped))
  {
    hide AtStop, Conflict;
  }

  lemma OwnStoreSpared(d: Instr, q: Arch, q': Arch)
    requires AllStages(d, q, q') && SparesHere(d, q')
    ensures Load(q'.mem, q'.pc) == Load(q.mem, q'.pc)
  {
    hide AtStop;
  }

  /** The executed slot's effect, and what becomes of the front end. */
  lemma TickExecutes(s: St, q: Arch, q': Arch, d: Instr, live: bool, r: St)
    requires BackInv(s, q, d, live) && s.counterForEnd > 0
    requires AfterEx(s, r)
    requires if live then AllStages(d, q, q') else q' == q
    ensures Pending(At(s.data, s.counter - 3), d, r, q')
    ensures if Taken(d, q.regs) then live && r.pc == q'.pc && r.ir == 0
            else r.pc == s.pc && r.ir == s.ir && q'.pc == FetchAddr(q, live)
  {
    ExecuteStep(s, q, q', d, live, r);
  }

  /** Drain ticks after the last ID: the slots complete and PC stays. */
  lemma LateTick(s: St, q: Arch, q': Arch, d: Instr, live: bool, r: St, x: St, y: St)
    requires BackInv(s, q, d, live) && 0 < s.counterForEnd <= 3 && Front(s, q, live)
    requires s.counterForEnd <= 2 ==> !live
    requires Ticked(s, r, x, y)
    requires if live then AllStages(d, q, q') else q' == q
    ensures BackInv(y, q', At(y.data, y.counter - 2), false) && Front(y, q', false)
    ensures At(y.data, y.counter - 3) == d
  {
    TickExecutes(s, q, q', d, live, r);
    NextBack(r, y, q', At(s.data, s.counter - 3), d, NOP, false);
  }

  /** The first tick only fetches. */
  lemma FirstTick(s: St, q: Arch, r: St, x: St, y: St)
    requires BackInv(s, q, NOP, false) && s.counterForEnd >= 4 && s.counter == 0 && Front(s, q, false)
    requires Ticked(s, r, x, y)
    ensures BackInv(y, q, NOP, false) && Front(y, q, false)
    ensures At(y.data, y.counter - 2) == At(y.data, y.counter - 3) == NOP
  {
    TickExecutes(s, q, q, NOP, false, r);
    NextBack(r, y, q, NOP, NOP, NOP, false);
  }

  /** Why the program is seen to end: at a stop word, or at a stop word the last instruction jumps over. */
  predicate EndCause(q: Arch, q': Arch, taken: bool) {
    var f := ToWord(q.pc + 4);
    AtStop(q') || (taken && StopWord(Load(q.mem, f), f))
  }

  /** What ID sees: the next sequential word, or nothing after a taken branch. */
  lemma WordInId(s: St, q: Arch, q': Arch, r: St, live: bool, taken: bool)
    requires s.counterForEnd >= 4 && s.counter >= 1 && Front(s, q, live)
    requires if taken then live && r.pc == q'.pc && r.ir == 0
             else r.pc == s.pc && r.ir == s.ir && q'.pc == FetchAddr(q, live)
    requires Load(q'.mem, q'.pc) == Load(q.mem, q'.pc)
    ensures !taken ==> r.ir == Load(q'.mem, q'.pc) && r.pc == if AtStop(q') then q'.pc else ToWord(q'.pc + 4)
    ensures s.endProgram ==> EndCause(q, q', taken)
    ensures !taken && AtStop(q') ==> s.endProgram
  {
  }

  /** The front end after a tick with a slot in ID. */
  lemma NextFront(x: St, y: St, q': Arch, slot: Instr, live': bool)
    requires Outcome(x, q', slot, live') && AfterIf(x, y)
    requires 4 <= x.counterForEnd <= 5 && x.counter >= 1 && Shape(y)
    requires x.counterForEnd == 5 ==> !x.endProgram
    requires x.counterForEnd == 4 ==> y.counterForEnd == 3
    requires FetchesCurrent(x.mem, q', live')
    ensures Front(y, q', live')
  {
  }

  /** ID and IF of a tick: the front end moves on to `q'`. */
  lemma MidFront(r: St, x: St, y: St, q': Arch, m: Instr, d: Instr, gap: nat, taken: bool) returns (gap': nat)
    requires 4 <= r.counterForEnd <= 5 && r.counter >= 1 && Shape(y)
    requires AfterId(r, x, DecodeWord(r.ir)) && AfterIf(x, y)
    requires r.counter == |r.data| && d == At(r.data, r.counter - 2) && m == At(r.data, r.counter - 3)
    requires r.counterForEnd == 5 ==> !r.endProgram
    requires r.counterForEnd == 4 ==> y.counterForEnd == 3
    requires gap <= 2 && (gap >= 1 ==> Inert(d)) && (gap == 2 ==> Inert(m))
    requires if taken then gap == 0 && r.pc == q'.pc && r.ir == 0
             else r.ir == Load(q'.mem, q'.pc) && r.pc == (if AtStop(q') then q'.pc else ToWord(q'.pc + 4))
    requires Pending(m, d, r, q')
    requires FetchesCurrent(r.mem, q', MayIssue(d, q', taken))
    requires !AtStop(q') ==> LeavesStored(d, Current(q'), q'.regs)
    ensures var i := At(y.data, y.counter - 2);
            && BackInv(y, q', i, gap' == 0) && Front(y, q', gap' == 0)
            && (gap' == 0 ==> !AtStop(q') && i == Current(q'))
            && At(y.data, y.counter - 3) == d
    ensures gap' == 0 || gap' == gap + 1
    ensures (gap' == 3 ==> AtStop(q') && !taken) && (AtStop(q') || taken ==> gap' > 0)
  {
    gap' := DecideStep(r, x, q', d, m, gap, taken);
    var slot := x.data[r.counter - 1];
    NextFront(x, y, q', slot, gap' == 0);
    NextBack(r, y, q', m, d, slot, gap' == 0);
  }

  /** A tick with a slot in ID. */
  lemma MidTick(s: St, q: Arch, q': Arch, d: Instr, gap: nat, r: St, x: St, y: St) returns (gap': nat)
    requires BackInv(s, q, d, gap == 0) && s.counterForEnd >= 4 && s.counter >= 1 && Front(s, q, gap == 0)
    requires Ticked(s, r, x, y)
    requires gap <= 2 && (gap == 2 ==> Inert(At(s.data, s.counter - 3)))
    requires if gap == 0 then AllStages(d, q, q') else q' == q
    requires SparesBehind(At(s.data, s.counter - 3), d, q', gap == 0 && Taken(d, q.regs)) && SparesHere(d, q')
    requires gap == 0 && !AtStop(q') ==> LeavesStored(d, Current(q'), q'.regs)
    ensures var i := At(y.data, y.counter - 2);
            && BackInv(y, q', i, gap' == 0) && Front(y, q', gap' == 0)
            && (gap' == 0 ==> !AtStop(q') && i == Current(q'))
            && At(y.data, y.counter - 3) == d
    ensures gap' == 0 || gap' == gap + 1
    ensures (gap' == 3 ==> s.endProgram) && (s.endProgram ==> gap' > 0)
    ensures s.endProgram ==> EndCause(q, q', gap == 0 && Taken(d, q.regs))
  {
    TickExecutes(s, q, q', d, gap == 0, r);
    var taken := Taken(d, q.regs);
    hide BackInv, AllStages, LeavesStored, Pending, Taken, StopWord, DecodeWord, Step, Conflict, ExRegs, MemRegs, WbMem,
      MayIssue, SparesBehind, Inert;
    NothingMissed(At(s.data, s.counter - 3), d, r, q', taken);
    if gap == 0 {
      OwnStoreSpared(d, q, q');
    }
    WordInId(s, q, q', r, gap == 0, taken);
    gap' := MidFront(r, x, y, q', At(s.data, s.counter - 3), d, gap, taken);
  }

  // ---------------------------------------------------------------------------------------------------------------
  // The invariant over the slice
  // ---------------------------------------------------------------------------------------------------------------

  /** Counting over a tick. */
  lemma TickCounts(s: St, n: nat, gap: nat, gap': nat, r: St, x: St, y: St)
    requires Ticked(s, r, x, y) && Counts(s, n, gap)
    requires if s.counterForEnd <= 3 then gap' == 3
             else if s.counter == 0 then gap' == gap
             else (gap' == 0 || gap' == gap + 1) && (gap' == 3 ==> s.endProgram) && (s.endProgram ==> gap' > 0)
    ensures Counts(y, Issued(n, gap), gap')
  {
  }

  /** The sequential machine across a tick, as far as the pipeline depends on it. */
  predicate Advances(q: Arch, q': Arch, live: bool) {
    if live
    then
      && q' == Step(q) && AllStages(Current(q), q, q') && SparesNext(Current(q), q')
      && (!AtStop(q') ==> LeavesStored(Current(q), Current(q'), q'.regs))
    else q' == q
  }

  lemma SequentialStep(q0: Arch, n: nat, gap: nat)
    requires gap == 0 ==> !AtStop(SeqRun(q0, n)) && Disciplined(SeqRun(q0, n))
    ensures Advances(SeqRun(q0, n), SeqRun(q0, Issued(n, gap)), gap == 0)
  {
    var q := SeqRun(q0, n);
    if gap == 0 {
      assert SeqRun(q0, Issued(n, gap)) == Step(q);
      ExecIsStages(Current(q), q);
    }
  }

  /** The stores in flight spare what is fetched next. */
  lemma InFlightSpares(m: Instr, d: Instr, q: Arch, q': Arch, live: bool)
    requires SparesNext(m, q) && Advances(q, q', live)
    requires if live then !AtStop(q) && d == Current(q) else Inert(d)
    ensures SparesBehind(m, d, q', live && Jumps(q)) && SparesHere(d, q') && SparesNext(d, q')
  {
    hide Step, AtStop, AllStages, Conflict;
  }

  /** The parts of the invariant after a tick. */
  lemma NextCore(y: St, q': Arch, d: Instr, gap': nat)
    requires BackInv(y, q', At(y.data, y.counter - 2), gap' == 0) && Front(y, q', gap' == 0)
    requires gap' == 0 ==> !AtStop(q') && At(y.data, y.counter - 2) == Current(q')
    requires At(y.data, y.counter - 3) == d && SparesNext(d, q')
    requires gap' == 2 && y.counterForEnd >= 4 ==> Inert(d)
    ensures CoreInv(y, q', gap')
  {
    hide BackInv, Front, AtStop, Current, SparesNext, Inert;
  }

  lemma TickCore(s: St, q: Arch, q': Arch, gap: nat, r: St, x: St, y: St) returns (gap': nat)
    requires CoreInv(s, q, gap) && Ticked(s, r, x, y) && Advances(q, q', gap == 0)
    requires (s.counterForEnd >= 4 ==> gap <= 2) && (s.counterForEnd <= 2 || s.counter == 0 ==> gap > 0)
    ensures CoreInv(y, q', gap')
    ensures if s.counterForEnd <= 3 then gap' == 3
            else if s.counter == 0 then gap' == gap
            else (gap' == 0 || gap' == gap + 1) && (gap' == 3 ==> s.endProgram) && (s.endProgram ==> gap' > 0)
    ensures s.counterForEnd >= 4 && s.counter > 0 && s.endProgram ==> EndCause(q, q', gap == 0 && Jumps(q))
  {
    var d := At(s.data, s.counter - 2);
    assert gap > 0 ==> Inert(d);
    hide BackInv, Front, SparesNext, SparesHere, SparesBehind, LeavesStored, AllStages, Step, AtStop, Current, Taken,
      AfterEx, AfterIf, AfterId, EndCause, Inert;
    InFlightSpares(At(s.data, s.counter - 3), d, q, q', gap == 0);
    if s.counterForEnd <= 3 {
      LateTick(s, q, q', d, gap == 0, r, x, y);
      gap' := 3;
    } else if s.counter == 0 {
      FirstTick(s, q, r, x, y);
      gap' := gap;
    } else {
      gap' := MidTick(s, q, q', d, gap, r, x, y);
    }
    hide CoreInv, Ticked, Advances;
    NextCore(y, q', d, gap');
  }

  /** A jump over a stop word, seen from the state after it. */
  lemma EndCauseOfRun(q0: Arch, n: nat, gap: nat)
    requires gap == 0 ==> !AtStop(SeqRun(q0, n))
    requires EndCause(SeqRun(q0, n), SeqRun(q0, Issued(n, gap)), gap == 0 && Jumps(SeqRun(q0, n)))
    ensures EndSeen(q0, Issued(n, gap))
  {
    hide Step, Jumps, AtStop, StopWord, Current;
  }

  lemma TickInv(s: St, q0: Arch, n: nat, gap: nat, r: St, x: St, y: St) returns (gap': nat)
    requires Inv(s, q0, n, gap) && Ticked(s, r, x, y)
    requires Advances(SeqRun(q0, n), SeqRun(q0, Issued(n, gap)), gap == 0)
    ensures Inv(y, q0, Issued(n, gap), gap')
  {
    var n' := Issued(n, gap);
    gap' := TickCore(s, SeqRun(q0, n), SeqRun(q0, n'), gap, r, x, y);
    assert y.counterForEnd <= 3 && y.endProgram ==> EndSeen(q0, n') by {
      if y.counterForEnd == 3 && s.counterForEnd == 4 && y.endProgram {
        EndCauseOfRun(q0, n, gap);
      }
    }
    TickCounts(s, n, gap, gap', r, x, y);
  }

  /** A control unit about to run a slice (the state `Core` sets up). */
  predicate Fresh(s: St) {
    && s.counterForEnd == 5 && s.counter == 0 && s.clock == 0 && s.data == []
    && !s.endProgram && !s.endExecution
  }

  function ArchOf(s: St): Arch {
    Arch(s.regs, s.mem, s.pc, s.out)
  }

  /** None of the first `n` sequential steps is at a stop word. */
  predicate Retires(q0: Arch, n: nat) {
    n > 0 ==> !AtStop(SeqRun(q0, n - 1))
  }

  lemma NextRetires(q0: Arch, n: nat, gap: nat)
    requires Retires(q0, n) && (gap == 0 ==> !AtStop(SeqRun(q0, n)))
    ensures Retires(q0, Issued(n, gap))
  {
    hide Step, AtStop;
  }

  lemma IssuedInSlice(s: St, n: nat, gap: nat)
    requires Counts(s, n, gap) && Shape(s)
    ensures gap == 0 ==> n < MaxSlots(s.quantum)
  {
  }

  lemma TickKeeps(s: St, q0: Arch, n: nat, gap: nat) returns (gap': nat)
    requires Inv(s, q0, n, gap) && s.counterForEnd > 0 && Retires(q0, n)
    requires DisciplinedRun(q0, MaxSlots(s.quantum))
    ensures Inv(Tick(s), q0, Issued(n, gap), gap') && Retires(q0, Issued(n, gap))
    ensures Tick(s).quantum == s.quantum
  {
    var r, x := TickPhases(s);
    assert gap == 0 ==> Disciplined(SeqRun(q0, n)) by { IssuedInSlice(s, n, gap); }
    SequentialStep(q0, n, gap);
    gap' := TickInv(s, q0, n, gap, r, x, Tick(s));
    NextRetires(q0, n, gap);
  }

  lemma {:induction false} RunInv(s: St, q0: Arch, n: nat, gap: nat) returns (n': nat, gap': nat)
    requires Inv(s, q0, n, gap) && Retires(q0, n)
    requires DisciplinedRun(q0, MaxSlots(s.quantum))
    ensures Inv(Run(s), q0, n', gap') && Run(s).counterForEnd == 0 && Run(s).quantum == s.quantum
    ensures Retires(q0, n')
    decreases s.counterForEnd, s.quantum - s.clock
  {
    if s.counterForEnd <= 0 {
      n', gap' := n, gap;
    } else {
      var gap1 := TickKeeps(s, q0, n, gap);
      n', gap' := RunInv(Tick(s), q0, Issued(n, gap), gap1);
    }
  }

  lemma InitialInv(s: St, q0: Arch)
    requires Fresh(s) && q0 == ArchOf(s)
    ensures CoreInv(s, q0, 2) && Counts(s, 0, 2)
  {
  }

  lemma FinalState(r: St, q: Arch, n: nat, gap: nat)
    requires CoreInv(r, q, gap) && Counts(r, n, gap) && r.counterForEnd == 0
    ensures ArchOf(r) == q
    ensures n <= |r.data| <= MaxSlots(r.quantum)
    ensures 1 <= |r.data| <= 3 * n + if r.endProgram then 1 else 0
  {
  }

  /** Main result: a slice retires some number `n` of instructions and leaves registers, memory, PC and printed values
      exactly as `n` sequential steps do, for every quantum. */
  lemma SliceRefines(s: St) returns (n: nat)
    requires Fresh(s) && DisciplinedRun(ArchOf(s), MaxSlots(s.quantum))
    ensures ArchOf(Slice(s)) == SeqRun(ArchOf(s), n)
    ensures Retires(ArchOf(s), n)
    ensures n <= |Slice(s).data| <= MaxSlots(s.quantum)
    ensures 1 <= |Slice(s).data| <= 3 * n + if Slice(s).endProgram then 1 else 0
    ensures Slice(s).endProgram ==> EndSeen(ArchOf(s), n)
  {
    var q0 := ArchOf(s);
    InitialInv(s, q0);
    assert SeqRun(q0, 0) == q0;
    var gap;
    n, gap := RunInv(s, q0, 0, 2);
    FinalState(Run(s), SeqRun(q0, n), n, gap);
  }
}
