/** The control unit and its clock loop, updating the process state in place (src/cpu/CONTROL_UNIT.cpp). */
module ControlUnit {
  import opened Words
  import opened Alu
  import opened Isa
  import opened Pipeline

  class ControlUnit {
    // process: register bank, flat memory, print requests, scheduling state and counters
    var regs: Regs
    var mem: Mem
    var pc: Word
    var ir: Word
    var mar: Word
    var out: seq<int>
    var state: ProcState
    var quantum: int
    var printLock: bool
    var cycles: nat
    var stages: nat
    // control unit: slot vector and clocking
    var data: seq<Instr>
    var counter: nat
    var counterForEnd: int
    var clock: nat
    var endProgram: bool
    var endExecution: bool

    constructor (regs: Regs, mem: Mem, pc: Word, quantum: int, printLock: bool)
      ensures View() == St(regs, mem, pc, 0, 0, [], [], 0, 5, 0, false, false, quantum, printLock, Ready, 0, 0)
    {
      this.regs, this.mem, this.pc, this.quantum, this.printLock := regs, mem, pc, quantum, printLock;
      ir, mar, out, state, cycles, stages := 0, 0, [], Ready, 0, 0;
      data, counter, counterForEnd, clock, endProgram, endExecution := [], 0, 5, 0, false, false;
    }

    function View(): St
      reads this
    {
      St(regs, mem, pc, ir, mar, out, data, counter, counterForEnd, clock, endProgram, endExecution,
         quantum, printLock, state, cycles, stages)
    }

    method WriteRegister(r: Reg, v: Word)
      modifies this`regs
      ensures regs == Put(old(regs), r, v)
    {
      if r != 0 {
        regs := regs[r := v];
      }
    }

    method AccountStage()
      modifies this`stages
      ensures View() == old(View()).(stages := old(View()).stages + 1)
    {
      stages := stages + 1;
    }

    method ReadIr()
      modifies this`mar, this`ir
      ensures var s := old(View());
              View() == s.(mar := s.pc, ir := Load(s.mem, s.pc))
    {
      mar := pc;
      ir := Load(mem, mar);
    }

    method EndProgram()
      modifies this`endProgram
      ensures View() == old(View()).(endProgram := true)
    {
      endProgram := true;
    }

    method NextPc()
      modifies this`pc
      ensures View() == old(View()).(pc := ToWord(old(View()).pc + 4))
    {
      pc := ToWord(pc + 4);
    }

    method Fetch()
      modifies this
      ensures View() == Pipeline.Fetch(old(View()))
    {
      AccountStage();
      ReadIr();
      if ir == 0 && pc > 10000 {
        EndProgram();
        return;
      }
      if ir == END_SENTINEL {
        EndProgram();
        return;
      }
      NextPc();
    }

    /** Slot `k` becomes a bubble and PC goes back to the instruction that must wait. */
    method Stall(k: nat)
      requires k < |data|
      modifies this`data, this`pc
      ensures var s := old(View());
              View() == s.(data := s.data[k := s.data[k].(op := Bubble)], pc := ToWord(s.pc - 4))
    {
      data := data[k := data[k].(op := Bubble)];
      pc := ToWord(pc - 4);
    }

    /** Decodes IR into slot `k`, or turns the slot into a bubble when one of the two slots before it writes a register
        the instruction reads. */
    method Decode(k: nat)
      requires k < |data|
      modifies this
      ensures View() == Pipeline.Decode(old(View()), k)
    {
      AccountStage();
      var i := DecodeWord(ir);
      data := data[k := i];
      if k >= 1 && Conflict(data[k - 1], i) {
        Stall(k);
        return;
      }
      if k >= 2 && Conflict(data[k - 2], i) {
        Stall(k);
      }
    }

    method ExecuteImmediate(i: Instr)
      requires i.op.Addi? || i.op.Addiu? || i.op.Slti? || i.op.Lui? || i.op.Li?
      modifies this`regs
      ensures View() == old(View()).(regs := ExRegs(i, old(regs)))
    {
      if i.op.Addi? || i.op.Addiu? {
        var alu := new ALU(ALU_ADD, regs[i.rs], ToWord(i.imm));
        alu.Calculate();
        WriteRegister(i.rt, ToWord(alu.result));
      } else if i.op.Slti? {
        WriteRegister(i.rt, if Signed(regs[i.rs]) < i.imm then 1 else 0);
      } else if i.op.Lui? {
        WriteRegister(i.rt, ToWord(i.addr * 0x1_0000));
      } else {
        WriteRegister(i.rt, ToWord(i.imm));
      }
    }

    method ExecuteArithmetic(i: Instr)
      requires IsRType(i.op)
      modifies this`regs
      ensures View() == old(View()).(regs := ExRegs(i, old(regs)))
    {
      var alu := new ALU(AluOf(i.op), regs[i.rs], regs[i.rt]);
      alu.Calculate();
      WriteRegister(i.rd, ToWord(alu.result));
    }

    method ExecutePrint(i: Instr)
      modifies this`out, this`state, this`endExecution
      ensures View() == Pipeline.ExecutePrint(old(View()), i)
    {
      out := out + [Signed(regs[i.rt])];
      if printLock {
        state := Blocked;
        endExecution := true;
      }
    }

    method Redirect(i: Instr)
      modifies this`pc, this`ir, this`data
      ensures View() == Pipeline.Redirect(old(View()), i)
    {
      pc := ToWord(i.imm);
      if counter >= 1 && counter - 1 < |data| {
        data := data[counter - 1 := data[counter - 1].(op := Bubble)];
      }
      ir := 0;
    }

    /** Branches and jumps: when taken, PC moves to the target and the slot fetched behind is squashed. */
    method ExecuteLoop(i: Instr)
      requires IsBranch(i.op) || i.op.J?
      modifies this`pc, this`ir, this`data
      ensures View() == Pipeline.ExecuteLoop(old(View()), i)
    {
      var jump := i.op.J?;
      if !jump {
        var alu := new ALU(AluOf(i.op), regs[i.rs], regs[i.rt]);
        alu.Calculate();
        jump := alu.result == 1;
      }
      if jump {
        Redirect(i);
      }
    }

    method Execute(k: nat)
      requires k < |data|
      modifies this
      ensures View() == Pipeline.Execute(old(View()), k)
    {
      AccountStage();
      var i := data[k];
      if i.op.Addi? || i.op.Addiu? || i.op.Slti? || i.op.Lui? || i.op.Li? {
        ExecuteImmediate(i);
      } else if IsRType(i.op) {
        ExecuteArithmetic(i);
      } else if IsBranch(i.op) || i.op.J? {
        ExecuteLoop(i);
      } else if i.op.Print? {
        ExecutePrint(i);
      }
    }

    method MemoryAccess(k: nat)
      requires k < |data|
      modifies this
      ensures View() == Pipeline.MemoryAccess(old(View()), k)
    {
      AccountStage();
      var i := data[k];
      if i.op.Lw? {
        WriteRegister(i.rt, Load(mem, i.addr));
      } else if i.op.Li? {
        WriteRegister(i.rt, i.addr);
      }
    }

    method WriteBack(k: nat)
      requires k < |data|
      modifies this
      ensures View() == Pipeline.WriteBack(old(View()), k)
    {
      AccountStage();
      var i := data[k];
      if i.op.Sw? {
        mem := mem[i.addr := regs[i.rt]];
      }
    }

    method WbPhase()
      requires Shape(View()) && counterForEnd > 0
      modifies this
      ensures View() == Pipeline.WbPhase(old(View()))
    {
      if counter >= 4 && counterForEnd >= 1 {
        WriteBack(counter - 4);
      }
    }

    method MemPhase()
      requires Shape(View()) && counterForEnd > 0
      modifies this
      ensures View() == Pipeline.MemPhase(old(View()))
    {
      if counter >= 3 && counterForEnd >= 2 {
        MemoryAccess(counter - 3);
      }
    }

    method ExPhase()
      requires Shape(View()) && counterForEnd > 0
      modifies this
      ensures View() == Pipeline.ExPhase(old(View()))
    {
      if counter >= 2 && counterForEnd >= 3 {
        Execute(counter - 2);
      }
    }

    method IdPhase()
      requires counter >= 1 && counterForEnd >= 4 ==> counter <= |data|
      modifies this
      ensures View() == Pipeline.IdPhase(old(View()))
    {
      if counter >= 1 && counterForEnd >= 4 {
        Decode(counter - 1);
      }
    }

    method IfPhase()
      modifies this
      ensures View() == Pipeline.IfPhase(old(View()))
    {
      if counterForEnd == 5 {
        data := data + [NOP];
        Fetch();
      }
    }

    method CountTick()
      modifies this`counter, this`clock, this`cycles
      ensures var s := old(View());
              View() == s.(counter := s.counter + 1, clock := s.clock + 1, cycles := s.cycles + 1)
    {
      counter := counter + 1;
      clock := clock + 1;
      cycles := cycles + 1;
    }

    method Advance()
      modifies this
      ensures View() == Pipeline.Advance(old(View()))
    {
      CountTick();
      if clock >= quantum || endProgram {
        endExecution := true;
      }
      if endExecution {
        counterForEnd := counterForEnd - 1;
      }
    }

    /** One round of the clock loop. */
    method ClockTick()
      requires Shape(View()) && counterForEnd > 0
      modifies this
      ensures View() == Tick(old(View()))
    {
      WbPhase();
      MemPhase();
      ExPhase();
      IdPhase();
      IfPhase();
      Advance();
    }

    /** A round seen from the slice: the same slice remains to be run. */
    method Round(ghost start: St)
      requires Shape(View()) && counterForEnd > 0
      requires Shape(start) && Run(View()) == Run(start)
      modifies this
      ensures Shape(View()) && Run(View()) == Run(start)
      ensures counterForEnd < old(counterForEnd)
              || (counterForEnd == old(counterForEnd) && clock == old(clock) + 1 < quantum == old(quantum))
    {
      ClockTick();
    }

    method ClockLoop()
      requires Shape(View())
      modifies this
      ensures View() == Run(old(View()))
    {
      ghost var start := View();
      while counterForEnd > 0
        invariant Shape(View()) && Run(View()) == Run(start)
        decreases counterForEnd, quantum - clock
      {
        Round(start);
      }
    }

    method ResetSlots()
      modifies this`data, this`counter, this`clock
      ensures View() == old(View()).(data := [], counter := 0, clock := 0)
    {
      data, counter, clock := [], 0, 0;
    }

    method ResetFlags()
      modifies this`counterForEnd, this`endProgram, this`endExecution
      ensures View() == old(View()).(counterForEnd := 5, endProgram := false, endExecution := false)
    {
      counterForEnd, endProgram, endExecution := 5, false, false;
    }

    /** One time slice. */
    method Core()
      modifies this
      ensures View() == Slice(Restart(old(View())))
    {
      ResetSlots();
      ResetFlags();
      ClockLoop();
      if endProgram {
        state := Finished;
      }
    }
  }

  /** A new control unit for the next slice of the same process. */
  function Restart(s: St): (r: St)
    ensures Shape(r)
  {
    s.(data := [], counter := 0, counterForEnd := 5, clock := 0, endProgram := false, endExecution := false)
  }
}
