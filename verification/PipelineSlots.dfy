/** What a time slice does to every program, without any condition on it: the pipeline equals a machine that runs its
    slots one after the other. */
module PipelineSlots {
  import opened Words
  import opened Isa
  import opened Pipeline
  import opened PipelineRefinement

  // ---------------------------------------------------------------------------------------------------------------
  // One slot at a time
  // ---------------------------------------------------------------------------------------------------------------

  /** Registers, memory and output after EX and MEM of the first `n` slots; a store takes effect only after EX of the
      slot behind it. */
  function Lane(start: Arch, data: seq<Instr>, n: int): Arch
    decreases if n < 0 then 0 else n
  {
    if n <= 0 then start
    else
      var p, i := Lane(start, data, n - 1), At(data, n - 1);
      var regs := ExRegs(i, p.regs);
      var mem := WbMem(At(data, n - 2), regs, p.mem);
      p.(regs := MemRegs(i, regs, mem), mem := mem,
         out := if i.op.Print? then p.out + [Signed(p.regs[i.rt])] else p.out)
  }

  /** Slot `k` redirects the program counter. */
  predicate Redirects(start: Arch, data: seq<Instr>, k: int) {
    Taken(At(data, k), Lane(start, data, k).regs)
  }

  /** The word slot `k` fetches at `pc`: of the stores of its slice it sees those of the slots up to `k - 4`. */
  function WordAt(start: Arch, data: seq<Instr>, k: nat, pc: Word): Word {
    Load(Lane(start, data, k - 2).mem, pc)
  }

  /** Where slot `k` fetches. */
  function FetchPc(start: Arch, data: seq<Instr>, k: nat): Word
    decreases k, 0
  {
    if k == 0 then start.pc else NextPc(start, data, At(data, k - 1), k - 1)
  }

  /** Where the slot behind slot `k` fetches when that became `i`: at the target of a jump in the slot before, again at
      the same place when it was held up, else behind it; nothing is fetched behind a stop word. */
  function NextPc(start: Arch, data: seq<Instr>, i: Instr, k: nat): Word
    decreases k, 1
  {
    var pc := FetchPc(start, data, k);
    if Redirects(start, data, k - 1) then ToWord(At(data, k - 1).imm)
    else if i.op.Bubble? || StopWord(WordAt(start, data, k, pc), pc) then pc
    else ToWord(pc + 4)
  }

  /** What becomes of slot `k`: nothing behind a taken branch, a bubble after a slot that writes what it reads, else the
      word it fetched. */
  function SlotAt(start: Arch, data: seq<Instr>, k: nat): Instr {
    if Redirects(start, data, k - 1) then DecodeWord(0)
    else
      var i := DecodeWord(WordAt(start, data, k, FetchPc(start, data, k)));
      if Conflict(At(data, k - 1), i) || Conflict(At(data, k - 2), i) then i.(op := Bubble) else i
  }

  /** The first `n` slots. */
  function Slots(start: Arch, n: nat): (data: seq<Instr>)
    ensures |data| == n
  {
    if n == 0 then [] else var data := Slots(start, n - 1); data + [SlotAt(start, data, n - 1)]
  }

  /** The slots agree up to `n`. */
  ghost predicate SameSlots(d: seq<Instr>, e: seq<Instr>, n: int) {
    forall k | 0 <= k < n :: At(d, k) == At(e, k)
  }

  lemma SameAt(d: seq<Instr>, e: seq<Instr>, n: int, k: int)
    requires SameSlots(d, e, n) && k < n
    ensures At(d, k) == At(e, k)
  {
  }

  lemma {:induction false} SameLane(start: Arch, d: seq<Instr>, e: seq<Instr>, n: int)
    requires SameSlots(d, e, n)
    ensures Lane(start, d, n) == Lane(start, e, n)
    decreases if n < 0 then 0 else n
  {
    hide ExRegs, MemRegs, WbMem, At;
    if n > 0 {
      SameLane(start, d, e, n - 1);
      SameAt(d, e, n, n - 1);
      SameAt(d, e, n, n - 2);
    }
  }

  lemma {:induction false} SameFetchPc(start: Arch, d: seq<Instr>, e: seq<Instr>, k: nat)
    requires SameSlots(d, e, k)
    ensures FetchPc(start, d, k) == FetchPc(start, e, k)
  {
    hide At, StopWord, Taken, Lane;
    if k > 0 {
      SameFetchPc(start, d, e, k - 1);
      SameAt(d, e, k, k - 1);
      SameAt(d, e, k, k - 2);
      SameLane(start, d, e, k - 2);
      SameLane(start, d, e, k - 3);
    }
  }

  lemma SameSlotAt(start: Arch, d: seq<Instr>, e: seq<Instr>, k: nat)
    requires SameSlots(d, e, k)
    ensures SlotAt(start, d, k) == SlotAt(start, e, k)
  {
    hide DecodeWord, Conflict, Taken, Lane, FetchPc, At;
    SameAt(d, e, k, k - 1);
    SameAt(d, e, k, k - 2);
    SameLane(start, d, e, k - 1);
    SameLane(start, d, e, k - 2);
    SameFetchPc(start, d, e, k);
  }

  // ---------------------------------------------------------------------------------------------------------------
  // The invariant
  // ---------------------------------------------------------------------------------------------------------------

  /** Slots that have been through ID. */
  function Settled(s: St): int {
    if s.counterForEnd >= 4 then s.counter - 1 else |s.data|
  }

  /** Every slot up to `n` is what the slots before it make of it. */
  ghost predicate Follows(start: Arch, data: seq<Instr>, n: int) {
    forall k | 0 <= k < n && k < |data| :: data[k] == SlotAt(start, data, k)
  }

  /** WB of the fourth slot behind and MEM of the third are still to come. */
  predicate LaneInv(s: St, p: Arch) {
    && p.mem == WbMem(At(s.data, s.counter - 4), s.regs, s.mem)
    && p.regs == MemRegs(At(s.data, s.counter - 3), s.regs, p.mem)
    && p.out == s.out
  }

  /** Slot `k` fetched a stop word. */
  predicate StopsAt(start: Arch, data: seq<Instr>, k: nat) {
    var pc := FetchPc(start, data, k);
    StopWord(WordAt(start, data, k, pc), pc)
  }

  /** The program counter after the last slot. */
  function FinalPc(start: Arch, data: seq<Instr>): Word {
    var n := |data|;
    if Redirects(start, data, n - 1) then ToWord(At(data, n - 1).imm) else FetchPc(start, data, n)
  }

  /** Program counter, IR and end of program. */
  predicate FrontInv(s: St, start: Arch) {
    if s.counter == 0 then s.pc == start.pc
    else if s.counterForEnd >= 4 then
      var k := s.counter - 1;
      var pc := FetchPc(start, s.data, k);
      && s.ir == WordAt(start, s.data, k, pc)
      && s.pc == (if StopWord(s.ir, pc) then pc else ToWord(pc + 4))
      && (s.endProgram <==> StopWord(s.ir, pc))
    else
      && s.pc == (if s.counterForEnd == 3 then FetchPc(start, s.data, |s.data|) else FinalPc(start, s.data))
      && |s.data| >= 1 && (s.endProgram <==> StopsAt(start, s.data, |s.data| - 1))
  }

  ghost predicate SlotInv(s: St, start: Arch) {
    && Shape(s) && Follows(start, s.data, Settled(s))
    && LaneInv(s, Lane(start, s.data, s.counter - 2)) && FrontInv(s, start)
  }

  // ---------------------------------------------------------------------------------------------------------------
  // One tick
  // ---------------------------------------------------------------------------------------------------------------

  /** WB, MEM and EX of a tick run one slot more. */
  lemma LaneStep(s: St, start: Arch, r: St, y: St)
    requires LaneInv(s, Lane(start, s.data, s.counter - 2)) && AfterEx(s, r)
    requires y.regs == r.regs && y.mem == r.mem && y.out == r.out && y.counter == s.counter + 1
    requires SameSlots(s.data, y.data, s.counter - 1)
    ensures LaneInv(y, Lane(start, y.data, y.counter - 2))
  {
    var n := s.counter - 1;
    SameLane(start, s.data, y.data, n - 1);
    assert At(s.data, n - 1) == At(y.data, n - 1) && At(s.data, n - 2) == At(y.data, n - 2);
  }

  lemma FollowsOn(start: Arch, d: seq<Instr>, e: seq<Instr>, n: int)
    requires Follows(start, d, n) && SameSlots(d, e, n) && n <= |d| <= |e|
    ensures Follows(start, e, n)
  {
    hide SlotAt;
    forall k | 0 <= k < n
      ensures e[k] == SlotAt(start, e, k)
    {
      SameSlotAt(start, d, e, k);
      assert At(d, k) == At(e, k);
    }
  }

  lemma DecodesNoBubble(w: Word)
    ensures !DecodeWord(w).op.Bubble?
  {
  }

  /** ID settles a slot and leaves the program counter where the next one fetches. */
  lemma IdStep(s: St, start: Arch, r: St, x: St)
    requires Shape(s) && s.counterForEnd >= 4 && s.counter >= 1 && FrontInv(s, start)
    requires LaneInv(s, Lane(start, s.data, s.counter - 2))
    requires AfterEx(s, r) && AfterId(r, x, DecodeWord(r.ir))
    ensures var k := s.counter - 1;
            && SameSlots(s.data, x.data, k) && |x.data| == |s.data| && x.data[k] == SlotAt(start, s.data, k)
            && x.pc == NextPc(start, s.data, x.data[k], k)
  {
    var k := s.counter - 1;
    hide DecodeWord, Conflict, Taken, Lane, FetchPc, ExRegs, MemRegs, WbMem, StopWord;
    if Redirects(start, s.data, k - 1) {
      LostSlot(0, 0);
      NoConflict(At(s.data, k - 1), At(s.data, k - 2), DecodeWord(0));
    } else {
      StopNeverWaits(s.ir, FetchPc(start, s.data, k), At(s.data, k - 1), At(s.data, k - 2));
      DecodesNoBubble(s.ir);
    }
  }

  lemma NoConflict(d: Instr, m: Instr, i: Instr)
    requires Harmless(i)
    ensures !Conflict(d, i) && !Conflict(m, i)
  {
  }

  lemma StopNeverWaits(w: Word, pc: Word, d: Instr, m: Instr)
    ensures StopWord(w, pc) ==> !Conflict(d, DecodeWord(w)) && !Conflict(m, DecodeWord(w))
  {
    hide DecodeWord, StopWord, Conflict;
    if StopWord(w, pc) {
      LostSlot(w, pc);
      NoConflict(d, m, DecodeWord(w));
    }
  }

  lemma SameNextPc(start: Arch, d: seq<Instr>, e: seq<Instr>, i: Instr, k: nat)
    requires SameSlots(d, e, k)
    ensures NextPc(start, d, i, k) == NextPc(start, e, i, k)
  {
    hide At, StopWord, Taken, Lane, FetchPc;
    SameFetchPc(start, d, e, k);
    SameAt(d, e, k, k - 1);
    SameLane(start, d, e, k - 1);
    SameLane(start, d, e, k - 2);
  }

  /** The slots of the next tick, and where it fetches. */
  predicate FrontStep(s: St, start: Arch, x: St, y: St) {
    s.counter >= 1 && var k := s.counter - 1;
    && k < |x.data| == |s.data| <= |y.data| && x.data[k] == SlotAt(start, s.data, k)
    && x.pc == NextPc(start, s.data, x.data[k], k)
    && y.data[..|x.data|] == x.data
  }

  lemma SlotsStep(s: St, start: Arch, x: St, y: St)
    requires Shape(s) && s.counterForEnd >= 4 && FrontStep(s, start, x, y)
    requires Follows(start, s.data, s.counter - 1) && SameSlots(s.data, x.data, s.counter - 1)
    ensures Follows(start, y.data, s.counter) && SameSlots(s.data, y.data, s.counter - 1)
    ensures x.pc == FetchPc(start, y.data, s.counter)
    ensures FetchPc(start, y.data, s.counter - 1) == FetchPc(start, s.data, s.counter - 1)
  {
    hide SlotAt, NextPc, FetchPc;
    var k := s.counter - 1;
    assert forall j | 0 <= j < |x.data| :: y.data[j] == x.data[j];
    FollowsOn(start, s.data, y.data, k);
    SameSlotAt(start, s.data, y.data, k);
    SameNextPc(start, s.data, y.data, x.data[k], k);
    SameFetchPc(start, s.data, y.data, k);
    FetchAfter(start, y.data, k);
  }

  lemma FetchAfter(start: Arch, data: seq<Instr>, k: nat)
    requires k < |data|
    ensures FetchPc(start, data, k + 1) == NextPc(start, data, data[k], k)
  {
  }

  /** Program counter and IR after a tick with a slot in ID. */
  lemma MidFrontInv(s: St, start: Arch, x: St, y: St)
    requires Shape(s) && Shape(y) && s.counterForEnd >= 4 && s.counter >= 1 && AfterIf(x, y)
    requires x.counter == s.counter == |x.data| && x.counterForEnd == s.counterForEnd && x.endProgram == s.endProgram
    requires s.counterForEnd == 4 ==> y.counterForEnd == 3
    requires x.mem == Lane(start, y.data, s.counter - 2).mem && x.pc == FetchPc(start, y.data, s.counter)
    requires s.endProgram <==> StopsAt(start, y.data, s.counter - 1)
    ensures FrontInv(y, start)
  {
    hide FetchPc, Lane, StopWord;
  }

  /** A tick with a slot in ID. */
  lemma MidSlots(s: St, start: Arch, r: St, x: St, y: St)
    requires SlotInv(s, start) && Ticked(s, r, x, y) && s.counterForEnd >= 4 && s.counter >= 1
    ensures SlotInv(y, start)
  {
    var k := s.counter - 1;
    hide SlotAt, NextPc, FetchPc, Lane, DecodeWord, ExRegs, MemRegs, WbMem, StopWord, Taken, Conflict;
    IdStep(s, start, r, x);
    SlotsStep(s, start, x, y);
    LaneStep(s, start, r, y);
    SameLane(start, s.data, y.data, k - 1);
    SameLane(start, s.data, y.data, k - 2);
    hide LaneInv, Follows, FrontStep;
    MidFrontInv(s, start, x, y);
  }

  /** The first tick only fetches. */
  lemma FirstSlots(s: St, start: Arch, r: St, x: St, y: St)
    requires SlotInv(s, start) && Ticked(s, r, x, y) && s.counter == 0
    ensures SlotInv(y, start)
  {
    hide SlotAt, DecodeWord, StopWord, Conflict;
    LaneStep(s, start, r, y);
    assert Lane(start, y.data, -2) == start == Lane(start, s.data, -2);
  }

  /** The pipeline drains. */
  lemma LateSlots(s: St, start: Arch, r: St, x: St, y: St)
    requires SlotInv(s, start) && Ticked(s, r, x, y) && s.counterForEnd <= 3
    ensures SlotInv(y, start)
  {
    hide SlotAt, NextPc, FetchPc, Lane, DecodeWord, ExRegs, MemRegs, WbMem, StopWord, Conflict;
    assert y.data == s.data;
    LaneStep(s, start, r, y);
  }

  lemma TickSlots(s: St, start: Arch)
    requires SlotInv(s, start) && s.counterForEnd > 0
    ensures SlotInv(Tick(s), start)
  {
    hide LaneInv, FrontInv, Follows, Lane, Tick, AfterEx, AfterId, AfterIf;
    var r, x := TickPhases(s);
    if s.counter == 0 {
      FirstSlots(s, start, r, x, Tick(s));
    } else if s.counterForEnd >= 4 {
      MidSlots(s, start, r, x, Tick(s));
    } else {
      LateSlots(s, start, r, x, Tick(s));
    }
  }

  lemma {:induction false} RunSlots(s: St, start: Arch)
    requires SlotInv(s, start)
    ensures SlotInv(Run(s), start) && Run(s).counterForEnd == 0
    decreases s.counterForEnd, s.quantum - s.clock
  {
    hide SlotInv, Tick;
    assert Shape(s) by { SlotShape(s, start); }
    if s.counterForEnd > 0 {
      TickSlots(s, start);
      RunSlots(Tick(s), start);
    }
  }

  lemma SlotShape(s: St, start: Arch)
    requires SlotInv(s, start)
    ensures Shape(s)
  {
    hide LaneInv, FrontInv, Follows, Lane;
  }

  // ---------------------------------------------------------------------------------------------------------------
  // The whole slice
  // ---------------------------------------------------------------------------------------------------------------

  lemma StartsSlots(s: St)
    requires Fresh(s)
    ensures SlotInv(s, ArchOf(s))
  {
  }

  lemma {:induction false} FollowsIsSlots(start: Arch, data: seq<Instr>, n: nat)
    requires Follows(start, data, n) && n <= |data|
    ensures Slots(start, n) == data[..n]
  {
    hide SlotAt;
    if n > 0 {
      FollowsIsSlots(start, data, n - 1);
      SameSlotAt(start, data, data[..n - 1], n - 1);
      assert data[..n] == data[..n - 1] + [data[n - 1]];
    }
  }

  lemma Drained(r: St, start: Arch)
    requires SlotInv(r, start) && r.counterForEnd == 0
    ensures ArchOf(r) == Lane(start, r.data, |r.data| + 1).(pc := r.pc)
    ensures r.pc == FinalPc(start, r.data) && Follows(start, r.data, |r.data|)
    ensures |r.data| >= 1 && (r.endProgram <==> StopsAt(start, r.data, |r.data| - 1))
  {
    hide SlotAt, FinalPc, FetchPc;
    var n := |r.data|;
    assert At(r.data, n) == At(r.data, n + 1) == NOP;
    assert Lane(start, r.data, n + 2) == Lane(start, r.data, n + 1);
  }

  /** What a slice does, whatever the program: the slots are what each makes of the words fetched before it, every word
      from memory as the stores of the fourth slot before it and earlier ones have left it; registers, memory and output
      are those after running these slots one by one, with stores one EX late; and the program is ended exactly when the
      last slot fetched a stop word. */
  lemma SliceIsSlots(s: St)
    requires Fresh(s)
    ensures var r, start := Slice(s), ArchOf(s);
            && |r.data| >= 1 && r.data == Slots(start, |r.data|)
            && ArchOf(r) == Lane(start, r.data, |r.data| + 1).(pc := FinalPc(start, r.data))
            && (r.endProgram <==> StopsAt(start, r.data, |r.data| - 1))
  {
    hide SlotInv, FinalPc, StopsAt, Lane, Slots, Follows;
    var start := ArchOf(s);
    StartsSlots(s);
    RunSlots(s, start);
    Drained(Run(s), start);
    FollowsIsSlots(start, Run(s).data, |Run(s).data|);
    assert Run(s).data[..|Run(s).data|] == Run(s).data;
  }

  /** The first four slots run the words memory held when the slice began, whatever it stores. */
  lemma FirstFourWords(start: Arch, data: seq<Instr>, k: nat, pc: Word)
    requires k <= 3
    ensures WordAt(start, data, k, pc) == Load(start.mem, pc)
  {
    if k == 3 {
      assert Lane(start, data, 0) == start && At(data, -1) == NOP;
      assert Lane(start, data, 1).mem == start.mem;
    }
  }

  /** The first `n` slots executed one by one. */
  function ExecSlots(start: Arch, data: seq<Instr>, n: nat): Arch
    requires n <= |data|
  {
    if n == 0 then start else Exec(data[n - 1], ExecSlots(start, data, n - 1))
  }

  /** No slot changes in EX what the store directly before it stores. */
  ghost predicate StoresOnTime(start: Arch, data: seq<Instr>) {
    forall k | 0 < k < |data| :: LeavesStored(data[k - 1], data[k], ExecSlots(start, data, k).regs)
  }

  lemma {:induction false} LaneInOrder(start: Arch, data: seq<Instr>, n: nat)
    requires StoresOnTime(start, data) && n <= |data|
    ensures var p, q := Lane(start, data, n), ExecSlots(start, data, n);
            p.regs == q.regs && WbMem(At(data, n - 1), p.regs, p.mem) == q.mem && p.out == q.out
  {
    if n > 0 {
      LaneInOrder(start, data, n - 1);
      var q := ExecSlots(start, data, n - 1);
      ExecIsStages(data[n - 1], q);
      hide Exec, ExRegs, MemRegs, Taken;
      assert n > 1 ==> LeavesStored(data[n - 2], data[n - 1], q.regs);
    }
  }

  /** A slice whose stores are on time executes its slots in order, even when it stores into its own code. */
  lemma SliceExecutesSlots(s: St)
    requires Fresh(s) && StoresOnTime(ArchOf(s), Slice(s).data)
    ensures var r := Slice(s);
            var q := ExecSlots(ArchOf(s), r.data, |r.data|);
            r.regs == q.regs && r.mem == q.mem && r.out == q.out
  {
    hide FinalPc, StopsAt, Slots, ExecSlots, StoresOnTime, Slice, Lane, WbMem;
    SliceIsSlots(s);
    LaneInOrder(ArchOf(s), Slice(s).data, |Slice(s).data|);
    LastStore(ArchOf(s), Slice(s).data);
  }

  lemma LastStore(start: Arch, data: seq<Instr>)
    ensures var p, n := Lane(start, data, |data|), |data|;
            Lane(start, data, n + 1) == p.(mem := WbMem(At(data, n - 1), p.regs, p.mem))
  {
    assert At(data, |data|) == NOP;
  }

  // ---------------------------------------------------------------------------------------------------------------
  // Progress
  // ---------------------------------------------------------------------------------------------------------------

  /** Slot `k` takes the word it fetched on to EX: it is neither squashed nor held up. */
  predicate Issues(start: Arch, data: seq<Instr>, k: nat) {
    !Redirects(start, data, k - 1) && !At(data, k).op.Bubble?
  }

  /** How many of the first `n` slots do. */
  function IssuedSlots(start: Arch, data: seq<Instr>, n: nat): nat {
    if n == 0 then 0 else IssuedSlots(start, data, n - 1) + if Issues(start, data, n - 1) then 1 else 0
  }

  /** A lost slot redirects nothing and holds up nobody. */
  lemma LostIsIdle(start: Arch, data: seq<Instr>, k: nat)
    requires Follows(start, data, k + 1) && k < |data| && !Issues(start, data, k)
    ensures !Redirects(start, data, k) && HazardDest(At(data, k)).None?
  {
    hide FetchPc, Lane, WordAt;
    LostSlot(0, 0);
    assert Identify(0) == Nop;
  }

  /** A slot behind two that change nothing for it issues. */
  lemma FreeSlotIssues(start: Arch, data: seq<Instr>, k: nat)
    requires Follows(start, data, k + 1) && k < |data| && !Redirects(start, data, k - 1)
    requires HazardDest(At(data, k - 1)).None? && HazardDest(At(data, k - 2)).None?
    ensures Issues(start, data, k)
  {
    hide FetchPc, Lane, WordAt, DecodeWord, Taken;
    DecodesNoBubble(WordAt(start, data, k, FetchPc(start, data, k)));
  }

  lemma FirstSlotIssues(start: Arch, data: seq<Instr>)
    requires Follows(start, data, 1) && data != []
    ensures Issues(start, data, 0)
  {
    FreeSlotIssues(start, data, 0);
  }

  /** Of three slots in a row at least one issues. */
  lemma OneOfThreeIssues(start: Arch, data: seq<Instr>, k: nat)
    requires Follows(start, data, k + 3) && k + 3 <= |data|
    ensures Issues(start, data, k) || Issues(start, data, k + 1) || Issues(start, data, k + 2)
  {
    hide Issues, Redirects, HazardDest, SlotAt;
    if !Issues(start, data, k) && !Issues(start, data, k + 1) {
      LostIsIdle(start, data, k);
      LostIsIdle(start, data, k + 1);
      FreeSlotIssues(start, data, k + 2);
    }
  }

  lemma {:induction false} ThirdIssues(start: Arch, data: seq<Instr>, n: nat)
    requires Follows(start, data, n) && n <= |data|
    ensures n <= 3 * IssuedSlots(start, data, n)
  {
    hide Issues, SlotAt;
    if n >= 3 {
      ThirdIssues(start, data, n - 3);
      OneOfThreeIssues(start, data, n - 3);
      assert IssuedSlots(start, data, n - 1) >= IssuedSlots(start, data, n - 2) >= IssuedSlots(start, data, n - 3);
    } else if n > 0 {
      FirstSlotIssues(start, data);
    }
  }

  lemma {:induction false} SlotsFollow(start: Arch, n: nat)
    ensures Follows(start, Slots(start, n), n)
  {
    hide SlotAt;
    if n > 0 {
      SlotsFollow(start, n - 1);
      FollowsOn(start, Slots(start, n - 1), Slots(start, n), n - 1);
      SameSlotAt(start, Slots(start, n - 1), Slots(start, n), n - 1);
    }
  }

  /** Progress for every program: the first slot issues, of any three in a row one does, and so at least every third. */
  lemma SlotsIssue(start: Arch, n: nat)
    ensures var data := Slots(start, n);
            && (n > 0 ==> Issues(start, data, 0)) && n <= 3 * IssuedSlots(start, data, n)
            && forall k | 0 <= k < n - 2 ::
                 Issues(start, data, k) || Issues(start, data, k + 1) || Issues(start, data, k + 2)
  {
    hide Issues, IssuedSlots, SlotAt, Slots;
    var data := Slots(start, n);
    SlotsFollow(start, n);
    ThirdIssues(start, data, n);
    if n > 0 {
      FirstSlotIssues(start, data);
    }
    forall k | 0 <= k < n - 2
      ensures Issues(start, data, k) || Issues(start, data, k + 1) || Issues(start, data, k + 2)
    {
      OneOfThreeIssues(start, data, k);
    }
  }

  /** So it is in every slice. */
  lemma SliceIssues(s: St)
    requires Fresh(s)
    ensures var start, data := ArchOf(s), Slice(s).data;
            && data != [] && Issues(start, data, 0) && |data| <= 3 * IssuedSlots(start, data, |data|)
            && forall k | 0 <= k < |data| - 2 ::
                 Issues(start, data, k) || Issues(start, data, k + 1) || Issues(start, data, k + 2)
  {
    hide FinalPc, StopsAt, Issues, IssuedSlots, Slots, Slice, Lane;
    SliceIsSlots(s);
    SlotsIssue(ArchOf(s), |Slice(s).data|);
  }
}
