/** The hazard unit against the effects of the instructions: the registers an instruction needs and those it writes. */
module HazardLaws {
  import opened Words
  import opened Alu
  import opened Isa
  import opened Pipeline
  import opened PipelineRefinement
  import opened PipelineSlots

  // ---------------------------------------------------------------------------------------------------------------
  // Writing and reading, by effect
  // ---------------------------------------------------------------------------------------------------------------

  /** Some execution changes the register. */
  ghost predicate Writes(i: Instr, k: Reg) {
    exists q: Arch :: Exec(i, q).regs[k] != q.regs[k]
  }

  function With(q: Arch, r: Reg, v: Word): Arch {
    q.(regs := q.regs[r := v])
  }

  /** The results of two executions differ by more than the value of a register `r` that neither has written. */
  predicate Apart(e: Arch, e': Arch, r: Reg, written: bool) {
    e'.pc != e.pc || e'.mem != e.mem || e'.out != e.out ||
    exists k: Reg :: (k != r || written) && e'.regs[k] != e.regs[k]
  }

  /** In some state a different value of the register leads to another result. */
  ghost predicate Needs(i: Instr, r: Reg) {
    exists q: Arch, v: Word :: Apart(Exec(i, q), Exec(i, With(q, r, v)), r, Writes(i, r))
  }

  /** Adding nothing to a register in place. */
  predicate CopiesItself(i: Instr, k: Reg) {
    (i.op.Addi? || i.op.Addiu?) && k == i.rs == i.rt != 0 && ToWord(i.imm) == 0
  }

  /** The hazard unit waits for a register it names although no result depends on it: the ignored base of `lw` and `sw`,
      a branch that compares a register with itself, a register subtracted from itself, 0 added in place, and operations
      whose result goes to $zero. */
  predicate WaitsInVain(i: Instr, r: Reg) {
    match i.op
    case Lw => r == i.rs
    case Sw => r == i.rs && r != i.rt
    case Sub => r in {i.rs, i.rt} && (i.rs == i.rt || i.rd == 0)
    case Add => r in {i.rs, i.rt} && i.rd == 0
    case Mult => r in {i.rs, i.rt} && i.rd == 0
    case Div => r in {i.rs, i.rt} && i.rd == 0
    case Addi => r == i.rs && (i.rt == 0 || CopiesItself(i, r))
    case Addiu => r == i.rs && (i.rt == 0 || CopiesItself(i, r))
    case Slti => r == i.rs && i.rt == 0
    case Beq => r == i.rs == i.rt
    case Bne => r == i.rs == i.rt
    case Bgt => r == i.rs == i.rt
    case Blt => r == i.rs == i.rt
    case _ => false
  }

  // ---------------------------------------------------------------------------------------------------------------
  // Writing
  // ---------------------------------------------------------------------------------------------------------------

  /** A state in which all registers hold the same word. */
  function Uniform(v: Word): Arch {
    Arch(seq(32, k => v), map[], 0, [])
  }

  lemma NamedIsWritten(i: Instr, k: Reg)
    requires HazardDest(i) == Some(k) && k != 0 && !CopiesItself(i, k)
    ensures Writes(i, k)
  {
    var q := match i.op
      case Add => Uniform(1)
      case Sub => Uniform(1)
      case Mult => Uniform(2)
      case Div => Uniform(2)
      case Addi => With(Uniform(0), k, if i.rs == k || ToWord(i.imm) != 0 then 0 else 1)
      case Addiu => With(Uniform(0), k, if i.rs == k || ToWord(i.imm) != 0 then 0 else 1)
      case Slti => Uniform(5)
      case Lui => Uniform(if ToWord(i.addr * 0x1_0000) == 0 then 1 else 0)
      case Li => Uniform(if i.addr == 0 then 1 else 0)
      case _ => Uniform(1);
    assert Exec(i, q).regs[k] != q.regs[k];
  }

  lemma WrittenIsNamed(i: Instr, k: Reg)
    requires Writes(i, k)
    ensures HazardDest(i) == Some(k) && k != 0
  {
  }

  lemma CopyWritesNothing(i: Instr, k: Reg)
    requires CopiesItself(i, k)
    ensures !Writes(i, k)
  {
    forall q: Arch
      ensures Exec(i, q).regs[k] == q.regs[k]
    {
      AddingNothing(q.regs[k], i.imm);
    }
  }

  lemma AddingNothing(a: Word, imm: int)
    requires ToWord(imm) == 0
    ensures Result(ALU_ADD, a, ToWord(imm)) == a
  {
  }

  /** The destination the hazard unit sees is exactly the register the instruction can change, or one that it copies to
      itself. */
  lemma HazardDestExactly(i: Instr, k: Reg)
    ensures HazardDest(i) == Some(k) && k != 0 <==> Writes(i, k) || CopiesItself(i, k)
    ensures !(Writes(i, k) && CopiesItself(i, k))
  {
    if CopiesItself(i, k) {
      CopyWritesNothing(i, k);
    } else if HazardDest(i) == Some(k) && k != 0 {
      NamedIsWritten(i, k);
    }
    if Writes(i, k) {
      WrittenIsNamed(i, k);
    }
  }

  // ---------------------------------------------------------------------------------------------------------------
  // Reading
  // ---------------------------------------------------------------------------------------------------------------

  /** A state in which, and a value with which, the register makes a difference. */
  function Witness(i: Instr, r: Reg): (Arch, Word) {
    var elsewhere := if ToWord(i.imm) == 4 then 4 else 0;
    match i.op
    case Mult => (Uniform(1), 2)
    case Div => (Uniform(1), 0)
    case Slti => (Uniform(0x8000_0000), 0x7FFF_FFFF)
    case Bgt => (Uniform(0).(pc := elsewhere), if r == i.rs then 1 else 0xFFFF_FFFF)
    case Blt => (Uniform(0).(pc := elsewhere), if r == i.rs then 0xFFFF_FFFF else 1)
    case _ => (Uniform(0).(pc := elsewhere), 1)
  }

  /** A result register that differs. */
  lemma ResultDiffers(i: Instr, r: Reg, d: Reg)
    requires HazardDest(i) == Some(d) && d != 0 && !CopiesItself(i, d)
    requires var (q, v) := Witness(i, r); Exec(i, With(q, r, v)).regs[d] != Exec(i, q).regs[d]
    ensures Needs(i, r)
  {
    HazardDestExactly(i, d);
    hide Exec;
    var (q, v) := Witness(i, r);
    assert Apart(Exec(i, q), Exec(i, With(q, r, v)), r, Writes(i, r));
  }

  lemma ArithmeticNeeds(i: Instr, r: Reg)
    requires IsRType(i.op) && r != 0 && r in HazardReads(i) && !WaitsInVain(i, r)
    ensures Needs(i, r)
  {
    var (q, v) := Witness(i, r);
    var a, b, c, d := q.regs[i.rs], q.regs[i.rt], With(q, r, v).regs[i.rs], With(q, r, v).regs[i.rt];
    assert Result(AluOf(i.op), a, b) != Result(AluOf(i.op), c, d);
    hide Result;
    ResultDiffers(i, r, i.rd);
  }

  lemma ImmediateNeeds(i: Instr, r: Reg)
    requires i.op in {Addi, Addiu, Slti} && r != 0 && r in HazardReads(i) && !WaitsInVain(i, r)
    requires -0x8000 <= i.imm < 0x8000
    ensures Needs(i, r)
  {
    ResultDiffers(i, r, i.rt);
  }

  lemma BranchNeeds(i: Instr, r: Reg)
    requires IsBranch(i.op) && r != 0 && r in HazardReads(i) && !WaitsInVain(i, r)
    ensures Needs(i, r)
  {
    var (q, v) := Witness(i, r);
    assert ToWord(q.pc + 4) != ToWord(i.imm);
    assert Exec(i, With(q, r, v)).pc != Exec(i, q).pc;
    hide Exec;
    assert Apart(Exec(i, q), Exec(i, With(q, r, v)), r, Writes(i, r));
  }

  lemma OutputNeeds(i: Instr, r: Reg)
    requires i.op in {Sw, Print} && r == i.rt != 0
    ensures Needs(i, r)
  {
    var (q, v) := Witness(i, r);
    var e, e' := Exec(i, q), Exec(i, With(q, r, v));
    if i.op.Sw? {
      assert Load(e.mem, i.addr) != Load(e'.mem, i.addr);
    } else {
      assert e.out[0] != e'.out[0];
    }
    hide Exec;
    assert Apart(e, e', r, Writes(i, r));
  }

  lemma NamedIsNeeded(i: Instr, r: Reg)
    requires r != 0 && r in HazardReads(i) && !WaitsInVain(i, r) && -0x8000 <= i.imm < 0x8000
    ensures Needs(i, r)
  {
    hide Needs;
    if IsRType(i.op) {
      ArithmeticNeeds(i, r);
    } else if IsBranch(i.op) {
      BranchNeeds(i, r);
    } else if i.op in {Addi, Addiu, Slti} {
      ImmediateNeeds(i, r);
    } else {
      OutputNeeds(i, r);
    }
  }

  /** Executions with different values of an unnamed register do not come apart. */
  lemma UnnamedMatters(i: Instr, r: Reg, q: Arch, v: Word)
    requires r != 0 && r !in HazardReads(i)
    ensures !Apart(Exec(i, q), Exec(i, With(q, r, v)), r, HazardDest(i) == Some(r))
  {
    hide Result, Signed, ToWord;
  }

  lemma NeededIsNamed(i: Instr, r: Reg)
    requires r != 0 && Needs(i, r)
    ensures r in HazardReads(i) && !WaitsInVain(i, r)
  {
    hide Exec, HazardReads, HazardDest, WaitsInVain;
    HazardDestExactly(i, r);
    var q: Arch, v: Word :| Apart(Exec(i, q), Exec(i, With(q, r, v)), r, Writes(i, r));
    if r !in HazardReads(i) {
      UnnamedMatters(i, r, q, v);
    } else if WaitsInVain(i, r) {
      VainMatters(i, r, q, v);
    }
  }

  lemma VainMatters(i: Instr, r: Reg, q: Arch, v: Word)
    requires r != 0 && WaitsInVain(i, r)
    ensures !Apart(Exec(i, q), Exec(i, With(q, r, v)), r, Writes(i, r))
  {
    HazardDestExactly(i, r);
    hide Writes;
    if CopiesItself(i, r) {
      AddingNothing(q.regs[r], i.imm);
      AddingNothing(v, i.imm);
    }
  }

  /** The hazard unit names exactly the registers an instruction needs, besides those it waits for in vain. */
  lemma HazardReadsExactly(i: Instr, r: Reg)
    requires r != 0 && -0x8000 <= i.imm < 0x8000
    ensures r in HazardReads(i) <==> Needs(i, r) || WaitsInVain(i, r)
    ensures !(Needs(i, r) && WaitsInVain(i, r))
  {
    hide Needs;
    if Needs(i, r) {
      NeededIsNamed(i, r);
    } else if r in HazardReads(i) && !WaitsInVain(i, r) {
      NamedIsNeeded(i, r);
    }
  }

  // ---------------------------------------------------------------------------------------------------------------
  // Slots
  // ---------------------------------------------------------------------------------------------------------------

  /** The slot's instruction sets the register, if only to what it held. */
  ghost predicate Sets(i: Instr, r: Reg) {
    Writes(i, r) || CopiesItself(i, r)
  }

  /** An instruction waits for a register that `earlier` sets. */
  ghost predicate WaitsFor(earlier: Instr, i: Instr, r: Reg) {
    r != 0 && Sets(earlier, r) && (Needs(i, r) || WaitsInVain(i, r))
  }

  ghost predicate Waits(earlier: Instr, i: Instr) {
    exists r: Reg :: WaitsFor(earlier, i, r)
  }

  lemma ConflictExactly(earlier: Instr, i: Instr)
    requires -0x8000 <= i.imm < 0x8000
    ensures Conflict(earlier, i) <==> Waits(earlier, i)
  {
    hide HazardDest, HazardReads, Writes, Needs, WaitsInVain, CopiesItself;
    var dest := HazardDest(earlier);
    if Conflict(earlier, i) {
      HazardDestExactly(earlier, dest.value);
      HazardReadsExactly(i, dest.value);
      assert WaitsFor(earlier, i, dest.value);
    }
    if r: Reg :| WaitsFor(earlier, i, r) {
      HazardDestExactly(earlier, r);
      HazardReadsExactly(i, r);
    }
  }

  /** Where an immediate is wider, nothing is read. */
  lemma JumpsWaitForNothing(earlier: Instr, i: Instr)
    requires i.op.J?
    ensures !Conflict(earlier, i) && !Waits(earlier, i)
  {
    hide Writes, CopiesItself;
    forall r: Reg | r != 0
      ensures !Needs(i, r)
    {
      hide Needs;
      if Needs(i, r) {
        NeededIsNamed(i, r);
      }
    }
  }

  lemma DecodedConflictExactly(earlier: Instr, w: Word)
    ensures Conflict(earlier, DecodeWord(w)) <==> Waits(earlier, DecodeWord(w))
  {
    var i := DecodeWord(w);
    assert i.op.J? || -0x8000 <= i.imm < 0x8000;
    hide DecodeWord, Conflict, Waits;
    if i.op.J? {
      JumpsWaitForNothing(earlier, i);
    } else {
      ConflictExactly(earlier, i);
    }
  }

  /** Bubbles are exact: in every slice a slot becomes a bubble if and only if it is not squashed and its instruction
      needs a register that one of the two slots before it sets, or waits for one in vain. */
  lemma BubblesExactly(s: St, k: nat)
    requires Fresh(s) && k < |Slice(s).data|
    ensures var start, data := ArchOf(s), Slice(s).data;
            var i := DecodeWord(WordAt(start, data, k, FetchPc(start, data, k)));
            data[k].op.Bubble? <==>
              !Redirects(start, data, k - 1) && (Waits(At(data, k - 1), i) || Waits(At(data, k - 2), i))
  {
    hide Slots, Lane, FinalPc, StopsAt, Slice, FetchPc, Follows, Waits, Redirects, WordAt, DecodeWord,
      Conflict;
    var start, data := ArchOf(s), Slice(s).data;
    SliceIsSlots(s);
    SlotsFollow(start, |data|);
    SlotIs(start, data, k);
    var w := WordAt(start, data, k, FetchPc(start, data, k));
    DecodesNoBubble(w);
    DecodesNoBubble(0);
    DecodedConflictExactly(At(data, k - 1), w);
    DecodedConflictExactly(At(data, k - 2), w);
  }

  lemma SlotIs(start: Arch, data: seq<Instr>, k: nat)
    requires Follows(start, data, |data|) && k < |data|
    ensures data[k] == SlotAt(start, data, k)
  {
    hide SlotAt;
  }
}
