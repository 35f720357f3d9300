/** The instruction set as one instruction at a time: the reference the pipeline is compared with. */
module Isa {
  import opened Words
  import opened Alu

  datatype Op =
    | Add | Sub | Mult | Div
    | Addi | Addiu | Slti | Lui | Li
    | Lw | Sw
    | Beq | Bne | Bgt | Blt | J
    | Print | End | Jal | Andi
    | Nop | Bubble

  /** A decoded instruction; `addr` is the zero-extended and `imm` the sign-extended immediate. */
  datatype Instr = Instr(op: Op, rs: Reg, rt: Reg, rd: Reg, addr: Word, imm: int)

  const NOP: Instr := Instr(Nop, 0, 0, 0, 0, 0)

  const END_SENTINEL: Word := 0xFC00_0000

  function Opcode(w: Word): int { w / 0x400_0000 }
  function Rs(w: Word): Reg { w / 0x20_0000 % 32 }
  function Rt(w: Word): Reg { w / 0x1_0000 % 32 }
  function Rd(w: Word): Reg { w / 0x800 % 32 }
  function Funct(w: Word): int { w % 64 }
  function Imm16(w: Word): Word { w % 0x1_0000 }
  function Imm26(w: Word): Word { w % 0x400_0000 }

  function SignExtend16(v: Word): int
    requires v < 0x1_0000
  {
    if v >= 0x8000 then v - 0x1_0000 else v
  }

  /** The operation a word denotes; unknown words are no-ops. */
  function Identify(w: Word): Op {
    var opcode := Opcode(w);
    if opcode == 0x00 then
      var funct := Funct(w);
      if funct == 0x20 then Add
      else if funct == 0x22 then Sub
      else if funct == 0x18 then Mult
      else if funct == 0x1A then Div
      else Nop
    else if opcode == 0x02 then J
    else if opcode == 0x03 then Jal
    else if opcode == 0x04 then Beq
    else if opcode == 0x05 then Bne
    else if opcode == 0x08 then Addi
    else if opcode == 0x09 then Addiu
    else if opcode == 0x0F then Lui
    else if opcode == 0x0C then Andi
    else if opcode == 0x0A then Slti
    else if opcode == 0x23 then Lw
    else if opcode == 0x2B then Sw
    else if opcode == 0x0E then Li
    else if opcode == 0x10 then Print
    else if opcode == 0x3F then End
    else if opcode == 0x07 then Bgt
    else if opcode == 0x01 then Blt
    else Nop
  }

  predicate IsRType(op: Op) { op.Add? || op.Sub? || op.Mult? || op.Div? }
  predicate IsBranch(op: Op) { op.Beq? || op.Bne? || op.Bgt? || op.Blt? }
  predicate IsIType(op: Op) {
    op.Addi? || op.Addiu? || op.Slti? || op.Lui? || op.Li? || op.Lw? || op.Sw? || IsBranch(op)
  }

  /** Operation and operand fields of a word. */
  function DecodeWord(w: Word): Instr {
    var op := Identify(w);
    if IsRType(op) then Instr(op, Rs(w), Rt(w), Rd(w), 0, 0)
    else if IsIType(op) then Instr(op, Rs(w), Rt(w), 0, Imm16(w), SignExtend16(Imm16(w)))
    else if op.J? then Instr(op, 0, 0, 0, Imm26(w), Imm26(w))
    else if op.Print? then Instr(op, 0, Rt(w), 0, Imm16(w), SignExtend16(Imm16(w)))
    else Instr(op, 0, 0, 0, 0, 0)
  }

  function AluOf(op: Op): AluOp
    requires IsRType(op) || IsBranch(op)
  {
    match op
    case Add => ALU_ADD
    case Sub => ALU_SUB
    case Mult => ALU_MUL
    case Div => ALU_DIV
    case Beq => ALU_BEQ
    case Bne => ALU_BNE
    case Blt => ALU_BLT
    case _ => ALU_BGT
  }

  /** What a program can observe of a process: registers, memory, program counter and printed values. */
  datatype Arch = Arch(regs: Regs, mem: Mem, pc: Word, out: seq<int>)

  /** A word that stops fetching at address `pc`: END, or an empty word beyond address 10000. */
  predicate StopWord(w: Word, pc: Word) {
    w == END_SENTINEL || (w == 0 && pc > 10000)
  }

  predicate AtStop(q: Arch) {
    StopWord(Load(q.mem, q.pc), q.pc)
  }

  /** The instruction about to execute. */
  function Current(q: Arch): Instr {
    DecodeWord(Load(q.mem, q.pc))
  }

  /** Effect of an instruction. */
  function Exec(i: Instr, q: Arch): Arch {
    var next := ToWord(q.pc + 4);
    var a, b := q.regs[i.rs], q.regs[i.rt];
    match i.op
    case Add => q.(regs := Put(q.regs, i.rd, Result(ALU_ADD, a, b)), pc := next)
    case Sub => q.(regs := Put(q.regs, i.rd, Result(ALU_SUB, a, b)), pc := next)
    case Mult => q.(regs := Put(q.regs, i.rd, Result(ALU_MUL, a, b)), pc := next)
    case Div => q.(regs := Put(q.regs, i.rd, Result(ALU_DIV, a, b)), pc := next)
    case Addi => q.(regs := Put(q.regs, i.rt, Result(ALU_ADD, a, ToWord(i.imm))), pc := next)
    case Addiu => q.(regs := Put(q.regs, i.rt, Result(ALU_ADD, a, ToWord(i.imm))), pc := next)
    case Slti => q.(regs := Put(q.regs, i.rt, if Signed(a) < i.imm then 1 else 0), pc := next)
    case Lui => q.(regs := Put(q.regs, i.rt, ToWord(i.addr * 0x1_0000)), pc := next)
    case Li => q.(regs := Put(q.regs, i.rt, i.addr), pc := next)
    case Lw => q.(regs := Put(q.regs, i.rt, Load(q.mem, i.addr)), pc := next)
    case Sw => q.(mem := q.mem[i.addr := b], pc := next)
    case Beq => q.(pc := if a == b then ToWord(i.imm) else next)
    case Bne => q.(pc := if a != b then ToWord(i.imm) else next)
    case Bgt => q.(pc := if Signed(a) > Signed(b) then ToWord(i.imm) else next)
    case Blt => q.(pc := if Signed(a) < Signed(b) then ToWord(i.imm) else next)
    case J => q.(pc := ToWord(i.imm))
    case Print => q.(out := q.out + [Signed(b)], pc := next)
    case _ => q.(pc := next)
  }

  /** Execution of the current instruction. */
  function Step(q: Arch): Arch {
    Exec(Current(q), q)
  }

  /** `n` instructions, or fewer when a stop word is reached. */
  function SeqRun(q: Arch, n: nat): Arch {
    if n == 0 then q
    else var p := SeqRun(q, n - 1); if AtStop(p) then p else Step(p)
  }
}
