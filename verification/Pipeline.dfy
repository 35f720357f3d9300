/** One time slice of the five-stage pipeline (src/cpu/CONTROL_UNIT.cpp) as functions on its whole state. */
module Pipeline {
  import opened Words
  import opened Alu
  import opened Isa

  datatype ProcState = Ready | Running | Blocked | Finished

  /** Registers and memory of the process together with the control unit's variables. */
  datatype St = St(
    regs: Regs, mem: Mem, pc: Word, ir: Word, mar: Word, out: seq<int>,
    data: seq<Instr>, counter: nat, counterForEnd: int, clock: nat,
    endProgram: bool, endExecution: bool,
    quantum: int, printLock: bool, state: ProcState,
    cycles: nat, stages: nat)

  /** Register written according to the hazard unit. */
  function HazardDest(i: Instr): Option<Reg> {
    if IsRType(i.op) then Some(i.rd)
    else if i.op.Addi? || i.op.Addiu? || i.op.Lw? || i.op.Li? || i.op.Lui? || i.op.Slti? then Some(i.rt)
    else None
  }

  /** Registers read according to the hazard unit. */
  function HazardReads(i: Instr): set<Reg> {
    if IsRType(i.op) || IsBranch(i.op) || i.op.Sw? then {i.rs, i.rt}
    else if i.op.Addi? || i.op.Addiu? || i.op.Lw? || i.op.Slti? then {i.rs}
    else if i.op.Print? then {i.rt}
    else {}
  }

  predicate Conflict(earlier: Instr, i: Instr) {
    var dest := HazardDest(earlier);
    dest.Some? && dest.value != 0 && dest.value in HazardReads(i)
  }

  /** The slot at an index of the slot vector; a no-op where there is none. */
  function At(data: seq<Instr>, k: int): Instr {
    if 0 <= k < |data| then data[k] else NOP
  }

  /** Registers after the EX stage. */
  function ExRegs(i: Instr, regs: Regs): Regs {
    if IsRType(i.op) then Put(regs, i.rd, Result(AluOf(i.op), regs[i.rs], regs[i.rt]))
    else if i.op.Addi? || i.op.Addiu? then Put(regs, i.rt, Result(ALU_ADD, regs[i.rs], ToWord(i.imm)))
    else if i.op.Slti? then Put(regs, i.rt, if Signed(regs[i.rs]) < i.imm then 1 else 0)
    else if i.op.Lui? then Put(regs, i.rt, ToWord(i.addr * 0x1_0000))
    else if i.op.Li? then Put(regs, i.rt, ToWord(i.imm))
    else regs
  }

  /** Whether the EX stage redirects the program counter. */
  predicate Taken(i: Instr, regs: Regs) {
    i.op.J? || (IsBranch(i.op) && Result(AluOf(i.op), regs[i.rs], regs[i.rt]) == 1)
  }

  /** Registers after the MEM stage. */
  function MemRegs(i: Instr, regs: Regs, mem: Mem): Regs {
    if i.op.Lw? then Put(regs, i.rt, Load(mem, i.addr))
    else if i.op.Li? then Put(regs, i.rt, i.addr)
    else regs
  }

  /** Memory after the WB stage. */
  function WbMem(i: Instr, regs: Regs, mem: Mem): Mem {
    if i.op.Sw? then mem[i.addr := regs[i.rt]] else mem
  }

  function WriteBack(s: St, k: nat): St
    requires k < |s.data|
  {
    s.(mem := WbMem(s.data[k], s.regs, s.mem), stages := s.stages + 1)
  }

  function MemoryAccess(s: St, k: nat): St
    requires k < |s.data|
  {
    s.(regs := MemRegs(s.data[k], s.regs, s.mem), stages := s.stages + 1)
  }

  /** Immediate and arithmetic operations write their register in EX. */
  predicate WritesInEx(op: Op) {
    IsRType(op) || op.Addi? || op.Addiu? || op.Slti? || op.Lui? || op.Li?
  }

  function Redirect(s: St, i: Instr): St {
    s.(pc := ToWord(i.imm), ir := 0,
       data := if 0 <= s.counter - 1 < |s.data| then s.data[s.counter - 1 := s.data[s.counter - 1].(op := Bubble)]
               else s.data)
  }

  /** A taken branch or a jump moves PC, clears IR and squashes the slot fetched behind it. */
  function ExecuteLoop(s: St, i: Instr): St {
    if Taken(i, s.regs) then Redirect(s, i) else s
  }

  /** A print request; with the print lock it blocks the process and ends the slice. */
  function ExecutePrint(s: St, i: Instr): St {
    var s1 := s.(out := s.out + [Signed(s.regs[i.rt])]);
    if s.printLock then s1.(state := Blocked, endExecution := true) else s1
  }

  function Execute(s: St, k: nat): St
    requires k < |s.data|
  {
    var i := s.data[k];
    var s1 := s.(stages := s.stages + 1);
    if WritesInEx(i.op) then s1.(regs := ExRegs(i, s1.regs))
    else if IsBranch(i.op) || i.op.J? then ExecuteLoop(s1, i)
    else if i.op.Print? then ExecutePrint(s1, i)
    else s1
  }

  function Decode(s: St, k: nat): St
    requires k < |s.data|
  {
    var i := DecodeWord(s.ir);
    if Conflict(At(s.data, k - 1), i) || Conflict(At(s.data, k - 2), i) then
      s.(data := s.data[k := i.(op := Bubble)], pc := ToWord(s.pc - 4), stages := s.stages + 1)
    else
      s.(data := s.data[k := i], stages := s.stages + 1)
  }

  function Fetch(s: St): St {
    Fetched(s, Load(s.mem, s.pc))
  }

  /** The state after fetching the word `w`. */
  function Fetched(s: St, w: Word): St {
    var s1 := s.(mar := s.pc, ir := w, stages := s.stages + 1);
    if StopWord(w, s.pc) then s1.(endProgram := true) else s1.(pc := ToWord(s.pc + 4))
  }

  /** The clocking of a tick: counters advance and, once the slice must end, the drain counts down. */
  function Advance(s: St): St {
    var stop := s.endExecution || s.clock + 1 >= s.quantum || s.endProgram;
    s.(counter := s.counter + 1, clock := s.clock + 1, cycles := s.cycles + 1,
       endExecution := stop, counterForEnd := if stop then s.counterForEnd - 1 else s.counterForEnd)
  }

  /** Sizes and flags at the top of the loop. */
  predicate Shape(s: St) {
    && 0 <= s.counterForEnd <= 5
    && s.clock == s.counter
    && (s.counterForEnd == 5 ==>
          |s.data| == s.counter && !s.endExecution && !s.endProgram && (s.counter > 0 ==> s.counter < s.quantum))
    && (s.counterForEnd < 5 ==>
          s.endExecution && |s.data| == s.counter - (4 - s.counterForEnd) && |s.data| >= 1)
  }

  /** What the five stages leave alone besides registers, memory and slots. */
  predicate SameClock(s: St, r: St) {
    && r.counter == s.counter && r.clock == s.clock && r.counterForEnd == s.counterForEnd
    && r.quantum == s.quantum && r.cycles == s.cycles && r.printLock == s.printLock
  }

  function WbPhase(s: St): (r: St)
    requires Shape(s)
    ensures SameClock(s, r) && |r.data| == |s.data| && r.endProgram == s.endProgram && r.endExecution == s.endExecution
  {
    if s.counter >= 4 && s.counterForEnd >= 1 then WriteBack(s, s.counter - 4) else s
  }

  function MemPhase(s: St): (r: St)
    requires Shape(s)
    ensures SameClock(s, r) && |r.data| == |s.data| && r.endProgram == s.endProgram && r.endExecution == s.endExecution
  {
    if s.counter >= 3 && s.counterForEnd >= 2 then MemoryAccess(s, s.counter - 3) else s
  }

  function ExPhase(s: St): (r: St)
    requires Shape(s)
    ensures SameClock(s, r) && |r.data| == |s.data| && r.endProgram == s.endProgram
    ensures s.endExecution ==> r.endExecution
  {
    if s.counter >= 2 && s.counterForEnd >= 3 then Execute(s, s.counter - 2) else s
  }

  function IdPhase(s: St): (r: St)
    requires s.counter >= 1 && s.counterForEnd >= 4 ==> s.counter <= |s.data|
    ensures SameClock(s, r) && |r.data| == |s.data| && r.endProgram == s.endProgram && r.endExecution == s.endExecution
  {
    if s.counter >= 1 && s.counterForEnd >= 4 then Decode(s, s.counter - 1) else s
  }

  function IfPhase(s: St): (r: St)
    ensures SameClock(s, r) && r.endExecution == s.endExecution
    ensures s.counterForEnd == 5 ==> |r.data| == |s.data| + 1
    ensures s.counterForEnd != 5 ==> r == s
  {
    if s.counterForEnd == 5 then Fetch(s.(data := s.data + [NOP])) else s
  }

  /** The five stages of a tick, in their order. */
  function Stages(s: St): (r: St)
    requires Shape(s)
    ensures SameClock(s, r) && (s.endExecution ==> r.endExecution)
    ensures |r.data| == if s.counterForEnd == 5 then |s.data| + 1 else |s.data|
  {
    var s1 := WbPhase(s);
    var s2 := MemPhase(s1);
    var s3 := ExPhase(s2);
    var s4 := IdPhase(s3);
    IfPhase(s4)
  }

  /** One clock tick: WB, MEM, EX, ID, IF, then the clocking. */
  function Tick(s: St): (r: St)
    requires Shape(s) && s.counterForEnd > 0
    ensures Shape(r)
    ensures r.counterForEnd < s.counterForEnd
            || (r.counterForEnd == s.counterForEnd == 5 && r.clock == s.clock + 1 < s.quantum && r.quantum == s.quantum)
  {
    Advance(Stages(s))
  }

  /** The loop of a time slice. */
  function Run(s: St): St
    requires Shape(s)
    decreases s.counterForEnd, s.quantum - s.clock
  {
    if s.counterForEnd <= 0 then s else Run(Tick(s))
  }

  /** A whole time slice. */
  function Slice(s: St): St
    requires Shape(s)
  {
    var r := Run(s);
    if r.endProgram then r.(state := Finished) else r
  }
}
