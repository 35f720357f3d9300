/** What the instruction words mean: laws of decoding and of the effects of instructions. */
module IsaLaws {
  import opened Words
  import opened Alu
  import opened AluLaws
  import opened Isa

  // ---------------------------------------------------------------------------------------------------------------
  // Instruction words
  // ---------------------------------------------------------------------------------------------------------------

  /** The fields of a word make up the word, each in its range: so they are its bits. */
  lemma FieldsMakeWord(w: Word)
    ensures w == Opcode(w) * 0x400_0000 + Rs(w) * 0x20_0000 + Rt(w) * 0x1_0000 + Imm16(w)
    ensures w == Opcode(w) * 0x400_0000 + Imm26(w) && Imm26(w) < 0x400_0000
    ensures exists shamt: nat :: shamt < 32 && Imm16(w) == Rd(w) * 0x800 + shamt * 64 + Funct(w)
    ensures 0 <= Opcode(w) < 64 && 0 <= Funct(w) < 64 && Imm16(w) < 0x1_0000
  {
    HighFields(w);
    MiddleFields(w);
    hide Opcode, Rs, Rt, Imm16;
  }

  lemma HighFields(w: Word)
    ensures w == Opcode(w) * 0x400_0000 + Rs(w) * 0x20_0000 + Rt(w) * 0x1_0000 + Imm16(w)
    ensures 0 <= Opcode(w) < 64 && 0 <= Funct(w) < 64 && Imm16(w) < 0x1_0000
  {
    var a, b, c: int := w / 0x1_0000, w / 0x20_0000, w / 0x400_0000;
    assert b == a / 32 && c == b / 32;
    assert w == a * 0x1_0000 + w % 0x1_0000 && a == b * 32 + a % 32 && b == c * 32 + b % 32;
  }

  lemma MiddleFields(w: Word)
    ensures exists shamt: nat :: shamt < 32 && Imm16(w) == Rd(w) * 0x800 + shamt * 64 + Funct(w)
  {
    var high, low: int := w / 0x1_0000, w % 0x1_0000;
    assert w == high * 0x1_0000 + low;
    ParametersOf(high, low);
    var shamt: nat := low % 0x800 / 64;
    assert Imm16(w) == Rd(w) * 0x800 + shamt * 64 + Funct(w);
  }

  lemma ParametersOf(high: int, low: int)
    requires 0 <= low < 0x1_0000
    ensures (high * 0x1_0000 + low) / 0x800 % 32 == low / 0x800 && (high * 0x1_0000 + low) % 64 == low % 64
    ensures low == low / 0x800 * 0x800 + low % 0x800 / 64 * 64 + low % 64
  {
    var d, r := low / 0x800, low % 0x800;
    assert (high * 0x1_0000 + low) / 0x800 == high * 32 + d;
  }

  /** Opcode of an operation, and its function code where the opcode is 0. */
  function CodeOf(op: Op): (code: (int, int))
    requires !op.Nop? && !op.Bubble?
  {
    match op
    case Add => (0, 0x20)
    case Sub => (0, 0x22)
    case Mult => (0, 0x18)
    case Div => (0, 0x1A)
    case Blt => (0x01, 0)
    case J => (0x02, 0)
    case Jal => (0x03, 0)
    case Beq => (0x04, 0)
    case Bne => (0x05, 0)
    case Bgt => (0x07, 0)
    case Addi => (0x08, 0)
    case Addiu => (0x09, 0)
    case Slti => (0x0A, 0)
    case Andi => (0x0C, 0)
    case Li => (0x0E, 0)
    case Lui => (0x0F, 0)
    case Print => (0x10, 0)
    case Lw => (0x23, 0)
    case Sw => (0x2B, 0)
    case End => (0x3F, 0)
  }

  /** A word denotes an operation exactly when it has its code, and no word denotes a bubble; so a word with none of the
      codes is a no-op. */
  lemma IdentifiesExactly(w: Word, op: Op)
    requires !op.Nop?
    ensures Identify(w) == op <==>
              !op.Bubble? && Opcode(w) == CodeOf(op).0 && (CodeOf(op).0 == 0 ==> Funct(w) == CodeOf(op).1)
  {
  }

  /** Sign extension keeps the lower sixteen bits and gives a signed 16-bit number. */
  lemma SignExtension(v: Word)
    requires v < 0x1_0000
    ensures -0x8000 <= SignExtend16(v) < 0x8000 && SignExtend16(v) % 0x1_0000 == v
  {
  }

  /** Decoding loses nothing an operation uses: the word can be put together again from the instruction, and the signed
      immediate is the 16 bits of the unsigned one. */
  lemma DecodeLosesNothing(w: Word)
    ensures var i := DecodeWord(w);
            && i.op == Identify(w)
            && (i.op in {Add, Sub, Mult, Div} ==>
                  exists shamt: nat :: shamt < 32 &&
                    w == i.rs * 0x20_0000 + i.rt * 0x1_0000 + i.rd * 0x800 + shamt * 64 + CodeOf(i.op).1)
            && (i.op in {Addi, Addiu, Slti, Lui, Li, Lw, Sw, Beq, Bne, Bgt, Blt} ==>
                  && w == CodeOf(i.op).0 * 0x400_0000 + i.rs * 0x20_0000 + i.rt * 0x1_0000 + i.addr
                  && i.addr < 0x1_0000 && -0x8000 <= i.imm < 0x8000 && i.imm % 0x1_0000 == i.addr)
            && (i.op.J? ==> w == CodeOf(i.op).0 * 0x400_0000 + i.addr && i.imm == i.addr < 0x400_0000)
            && (i.op.Print? ==>
                  exists rs: Reg :: w == CodeOf(i.op).0 * 0x400_0000 + rs * 0x20_0000 + i.rt * 0x1_0000 + i.addr)
  {
    FieldsMakeWord(w);
    hide Opcode, Rs, Rt, Rd, Funct, Imm16, Imm26;
    SignExtension(Imm16(w));
    hide SignExtend16;
    var i := DecodeWord(w);
    if !i.op.Nop? {
      IdentifiesExactly(w, i.op);
    }
    hide Identify;
  }

  // ---------------------------------------------------------------------------------------------------------------
  // Effects
  // ---------------------------------------------------------------------------------------------------------------

  /** The register an instruction names for its result. */
  function Destination(i: Instr): Option<Reg> {
    if i.op in {Add, Sub, Mult, Div} then Some(i.rd)
    else if i.op in {Addi, Addiu, Slti, Lui, Li, Lw} then Some(i.rt)
    else None
  }

  /** An instruction changes no register but its destination, and never $zero; only `sw` changes memory, and only the
      word at its address; only `print` prints; only a branch or a jump goes elsewhere than to the next word. */
  lemma EffectIsLocal(i: Instr, q: Arch)
    ensures var r := Exec(i, q);
            && (forall k: Reg | Some(k) != Destination(i) || k == 0 :: r.regs[k] == q.regs[k])
            && (i.op != Sw ==> r.mem == q.mem)
            && (forall a: Word | a != i.addr :: Load(r.mem, a) == Load(q.mem, a))
            && (i.op != Print ==> r.out == q.out)
            && (i.op !in {Beq, Bne, Bgt, Blt, J} ==> r.pc == ToWord(q.pc + 4))
            && (r.pc == ToWord(q.pc + 4) || r.pc == ToWord(i.imm))
  {
  }

  /** $zero keeps its value in every run. */
  lemma {:induction false} ZeroStays(q: Arch, n: nat)
    ensures SeqRun(q, n).regs[0] == q.regs[0]
  {
    hide Exec, DecodeWord, AtStop;
    if n > 0 {
      ZeroStays(q, n - 1);
      var p := SeqRun(q, n - 1);
      if !AtStop(p) {
        EffectIsLocal(Current(p), p);
      }
    }
  }

  /** What was stored is loaded from the same address. */
  lemma LoadAfterStore(a: Word, rs: Reg, rt: Reg, base: Reg, to: Reg, imm: int, q: Arch)
    requires to != 0
    ensures var r := Exec(Instr(Lw, base, to, 0, a, imm), Exec(Instr(Sw, rs, rt, 0, a, imm), q));
            r.regs[to] == q.regs[rt]
  {
  }

  /** `lui` and `addi` set a register to any 32-bit number given by its halves, the lower one signed. */
  lemma LoadsHalves(rs: Reg, rt: Reg, high: Word, upper: int, low: Word, imm: int, q: Arch)
    requires rt != 0 && high < 0x1_0000 && -0x8000 <= imm < 0x8000
    ensures var r := Exec(Instr(Addi, rt, rt, 0, low, imm), Exec(Instr(Lui, rs, rt, 0, high, upper), q));
            r.regs[rt] == ToWord(high * 0x1_0000 + imm)
  {
    ReducedFirst(high * 0x1_0000, imm);
    SmallWord(imm);
    hide ToWord, Signed;
  }

  /** `li` loads its immediate as an unsigned 16-bit number. */
  lemma LoadsUnsigned(w: Word, q: Arch)
    requires Identify(w).Li? && Rt(w) != 0
    ensures var i := DecodeWord(w);
            Exec(i, q).regs[i.rt] < 0x1_0000 && Exec(i, q).regs[i.rt] == i.imm % 0x1_0000
  {
    hide Opcode, Rs, Rt, Identify;
    SignExtension(Imm16(w));
  }

  lemma SmallWord(imm: int)
    requires -0x8000 <= imm < 0x8000
    ensures Signed(ToWord(imm)) == imm
  {
  }

  /** The immediate operations are their three-register counterparts, with the immediate as second operand; `slti`
      compares like `blt`. */
  lemma ImmediateIsOperand(rs: Reg, rt: Reg, addr: Word, imm: int, q: Arch)
    requires -0x8000 <= imm < 0x8000 && rt != 0
    ensures var a, b := q.regs[rs], ToWord(imm);
            && Exec(Instr(Addi, rs, rt, 0, addr, imm), q).regs[rt] == Result(ALU_ADD, a, b)
            && Exec(Instr(Addiu, rs, rt, 0, addr, imm), q).regs[rt] == Result(ALU_ADD, a, b)
            && Exec(Instr(Slti, rs, rt, 0, addr, imm), q).regs[rt] == Result(ALU_BLT, a, b)
  {
    SmallWord(imm);
    hide ToWord, Signed;
    assert Exact(ALU_BLT, Signed(q.regs[rs]), imm) in {0, 1};
    assert ToWord(0) == 0 && ToWord(1) == 1 by {
      ZeroOne();
    }
  }

  lemma ZeroOne()
    ensures ToWord(0) == 0 && ToWord(1) == 1
  {
  }

  /** The branches compare like the arithmetic unit, and `print` prints the signed value of its register. */
  lemma BranchesCompare(i: Instr, q: Arch)
    requires ToWord(i.imm) != ToWord(q.pc + 4)
    ensures var taken, a, b := Exec(i, q).pc == ToWord(i.imm), q.regs[i.rs], q.regs[i.rt];
            && (i.op.Beq? ==> (taken <==> Result(ALU_BEQ, a, b) == 1))
            && (i.op.Bne? ==> (taken <==> Result(ALU_BEQ, a, b) == 0))
            && (i.op.Blt? ==> (taken <==> Result(ALU_BLT, a, b) == 1))
            && (i.op.Bgt? ==> (taken <==> Result(ALU_BLT, b, a) == 1))
            && (i.op.J? ==> taken)
            && (i.op.Print? ==>
                  var out := Exec(i, q).out;
                  |out| == |q.out| + 1 && out[..|q.out|] == q.out && out[|q.out|] == Signed(b))
  {
  }

  // ---------------------------------------------------------------------------------------------------------------
  // Running into empty memory
  // ---------------------------------------------------------------------------------------------------------------

  /** A process on empty memory stops at the first word above address 10000, and nowhere before. */
  lemma {:induction false} EmptyMemoryStops(q: Arch, n: nat)
    requires q.mem == map[] && q.pc == 0 && n <= 2501
    ensures SeqRun(q, n) == q.(pc := 4 * n)
    ensures AtStop(SeqRun(q, n)) <==> n == 2501
  {
    hide DecodeWord, Exec;
    if n > 0 {
      EmptyMemoryStops(q, n - 1);
      NoOpWord();
      NoOpStep(q.(pc := 4 * (n - 1)));
    }
  }

  lemma NoOpStep(q: Arch)
    requires q.pc < 0x10000
    ensures Exec(NOP, q) == q.(pc := q.pc + 4)
  {
  }

  lemma NoOpWord()
    ensures DecodeWord(0) == NOP
  {
    assert Identify(0) == Nop;
  }
}
