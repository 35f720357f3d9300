/** Slices on the shared memory manager: however the accesses of the cores interleave, every process runs as on a flat
    memory of its own. */
module SharedMemory {
  import opened Words
  import opened Isa
  import opened Pipeline
  import opened PipelineRefinement
  import opened ControlUnit
  import opened Slices
  import opened Paging
  import opened PagingProofs
  import opened FlatMemory

  // ---------------------------------------------------------------------------------------------------------------
  // A slice stage by stage
  // ---------------------------------------------------------------------------------------------------------------

  /** Where a process stands in the current tick of its slice; Idle between slices. */
  datatype Point = InWb | InMem | InEx | InId | InIf | InClock | Idle

  function NextPoint(at: Point): Point {
    match at
    case InWb => InMem
    case InMem => InEx
    case InEx => InId
    case InId => InIf
    case InIf => InClock
    case _ => InWb
  }

  predicate CanAct(s: St, at: Point) {
    match at
    case InWb => Shape(s) && s.counterForEnd > 0
    case InMem => Shape(s) && s.counterForEnd > 0
    case InEx => Shape(s) && s.counterForEnd > 0
    case InId => s.counter >= 1 && s.counterForEnd >= 4 ==> s.counter <= |s.data|
    case _ => true
  }

  /** One stage of the tick, with the memory in the state. */
  function Act(s: St, at: Point): St
    requires CanAct(s, at)
  {
    match at
    case InWb => WbPhase(s)
    case InMem => MemPhase(s)
    case InEx => ExPhase(s)
    case InId => IdPhase(s)
    case InIf => IfPhase(s)
    case InClock => Advance(s)
    case Idle => s
  }

  /** What a stage wants of the memory. */
  datatype Request = Nothing | Read(addr: Word) | Store(addr: Word, word: Word)

  function Asks(s: St, at: Point): Request {
    var w, m := At(s.data, s.counter - 4), At(s.data, s.counter - 3);
    if at.InWb? && s.counter >= 4 && s.counterForEnd >= 1 && w.op.Sw? then Store(w.addr, s.regs[w.rt])
    else if at.InMem? && s.counter >= 3 && s.counterForEnd >= 2 && m.op.Lw? then Read(m.addr)
    else if at.InIf? && s.counterForEnd == 5 then Read(s.pc)
    else Nothing
  }

  function Erased(s: St): St {
    s.(mem := map[])
  }

  /** The stage with the reply of the memory in place of a memory. */
  function ActOn(s: St, at: Point, reply: Word): (r: St)
    requires CanAct(s, at)
    ensures r.mem == map[]
  {
    var mem: Mem := match Asks(s, at) case Read(a) => map[a := reply] case _ => map[];
    Erased(Act(s.(mem := mem), at))
  }

  /** `r` is the outcome of the stage on a memory that answers its request and takes its store. */
  predicate ByRequest(s: St, at: Point, r: St)
    requires CanAct(s, at) && CanAct(Erased(s), at)
  {
    match Asks(s, at)
    case Nothing => r == ActOn(Erased(s), at, 0).(mem := s.mem)
    case Read(a) => r == ActOn(Erased(s), at, Load(s.mem, a)).(mem := s.mem)
    case Store(a, w) => r == ActOn(Erased(s), at, 0).(mem := s.mem[a := w])
  }

  lemma WbByRequest(s: St)
    requires CanAct(s, InWb)
    ensures ByRequest(s, InWb, WbPhase(s))
  {
  }

  lemma MemByRequest(s: St)
    requires CanAct(s, InMem)
    ensures ByRequest(s, InMem, MemPhase(s))
  {
  }

  lemma ExecuteAlone(s: St, k: nat, mem: Mem)
    requires k < |s.data|
    ensures Execute(s.(mem := mem), k) == Execute(s, k).(mem := mem)
  {
    var s1, i := s.(stages := s.stages + 1), s.data[k];
    ExecutesAs(s, k);
    ExecutesAs(s.(mem := mem), k);
    hide Execute, ExRegs, WritesInEx, ExecuteLoop, ExecutePrint;
    assert s1.(mem := mem) == s.(mem := mem).(stages := s.stages + 1);
    if !WritesInEx(i.op) {
      LoopAlone(s1, i, mem);
      PrintAlone(s1, i, mem);
    }
  }

  lemma ExecutesAs(s: St, k: nat)
    requires k < |s.data|
    ensures var i, s1 := s.data[k], s.(stages := s.stages + 1);
            Execute(s, k)
            == if WritesInEx(i.op) then s1.(regs := ExRegs(i, s.regs))
               else if IsBranch(i.op) || i.op.J? then ExecuteLoop(s1, i)
               else if i.op.Print? then ExecutePrint(s1, i)
               else s1
  {
    hide ExRegs, WritesInEx, ExecuteLoop, ExecutePrint;
  }

  lemma LoopAlone(s: St, i: Instr, mem: Mem)
    ensures ExecuteLoop(s.(mem := mem), i) == ExecuteLoop(s, i).(mem := mem)
  {
    hide Taken;
  }

  lemma PrintAlone(s: St, i: Instr, mem: Mem)
    ensures ExecutePrint(s.(mem := mem), i) == ExecutePrint(s, i).(mem := mem)
  {
  }

  lemma ExByRequest(s: St)
    requires CanAct(s, InEx)
    ensures ByRequest(s, InEx, ExPhase(s))
  {
    hide Execute;
    if s.counter >= 2 && s.counterForEnd >= 3 {
      ExecuteAlone(s, s.counter - 2, map[]);
      ExecuteAlone(s, s.counter - 2, s.mem);
    }
  }

  lemma IdByRequest(s: St)
    requires CanAct(s, InId)
    ensures ByRequest(s, InId, IdPhase(s))
  {
    hide Decode;
    if s.counter >= 1 && s.counterForEnd >= 4 {
      DecodeAlone(s, s.counter - 1, map[]);
      DecodeAlone(s, s.counter - 1, s.mem);
    }
  }

  lemma DecodeAlone(s: St, k: nat, mem: Mem)
    requires k < |s.data|
    ensures Decode(s.(mem := mem), k) == Decode(s, k).(mem := mem)
  {
    hide DecodeWord, Conflict;
  }

  lemma IfByRequest(s: St)
    ensures ByRequest(s, InIf, IfPhase(s))
  {
    if s.counterForEnd == 5 {
      var v, t := Load(s.mem, s.pc), s.(data := s.data + [NOP]);
      assert Load(map[s.pc := v], s.pc) == v;
      hide Load, Fetched;
      FetchedAlone(t, v, map[s.pc := v]);
      FetchedAlone(t, v, map[]);
      FetchedAlone(t, v, s.mem);
    }
  }

  lemma FetchedAlone(s: St, w: Word, mem: Mem)
    ensures Fetched(s.(mem := mem), w) == Fetched(s, w).(mem := mem)
  {
    hide StopWord;
  }

  /** A stage depends on the memory through its request only. */
  lemma ActByRequest(s: St, at: Point)
    requires CanAct(s, at)
    ensures CanAct(Erased(s), at) && Asks(Erased(s), at) == Asks(s, at)
    ensures ByRequest(s, at, Act(s, at))
  {
    match at
    case InWb => WbByRequest(s);
    case InMem => MemByRequest(s);
    case InEx => ExByRequest(s);
    case InId => IdByRequest(s);
    case InIf => IfByRequest(s);
    case _ =>
  }

  // ---------------------------------------------------------------------------------------------------------------
  // A process on a memory of its own
  // ---------------------------------------------------------------------------------------------------------------

  /** A process with its own flat memory: the state at the start of the current tick and the point reached in it.
      History: the state before its first slice and the quanta of the slices begun. */
  datatype Private = Private(tick: St, at: Point, origin: St, quanta: seq<int>)

  predicate Ready(p: Private) {
    p.at.Idle? || (Shape(p.tick) && p.tick.counterForEnd > 0)
  }

  /** The state at the point reached. */
  function Seen(p: Private): St
    requires Ready(p)
  {
    match p.at
    case InWb => p.tick
    case InMem => WbPhase(p.tick)
    case InEx => MemPhase(WbPhase(p.tick))
    case InId => ExPhase(MemPhase(WbPhase(p.tick)))
    case InIf => IdPhase(ExPhase(MemPhase(WbPhase(p.tick))))
    case InClock => Stages(p.tick)
    case Idle => p.tick
  }

  /** A slice whose pipeline has drained. */
  function Ended(s: St): St {
    if s.endProgram then s.(state := Finished) else s
  }

  /** The next stage. */
  function GoPrivate(p: Private): Private
    requires Ready(p)
  {
    match p.at
    case Idle => p
    case InClock =>
      var t := Tick(p.tick);
      if t.counterForEnd <= 0 then p.(tick := Ended(t), at := Idle) else p.(tick := t, at := InWb)
    case _ => p.(at := NextPoint(p.at))
  }

  /** A dispatch, unless the process is in a slice or finished. */
  function BeginPrivate(p: Private, quantum: int): Private {
    if p.at.Idle? && p.tick.state != Finished then
      p.(tick := Restart(p.tick.(quantum := quantum, state := Running)), at := InWb, quanta := p.quanta + [quantum])
    else p
  }

  /** A word of the program, before the first slice. */
  function LoadPrivate(p: Private, a: Word, w: Word): Private {
    if p.at.Idle? && p.quanta == [] then
      var s := p.tick.(mem := p.tick.mem[a := w]);
      p.(tick := s, origin := s)
    else p
  }

  /** The state the process is in between slices, or in which the current slice will end. */
  function Goal(p: Private): St
    requires Ready(p)
  {
    if p.at.Idle? then p.tick else Ended(Run(p.tick))
  }

  /** It is where its dispatches take it from its origin. */
  predicate OnCourse(p: Private) {
    && Ready(p) && Goal(p) == Dispatches(p.origin, p.quanta)
    && (p.quanta == [] ==> p.at.Idle? && p.tick == p.origin)
  }

  lemma SeenActs(p: Private)
    requires Ready(p) && !p.at.Idle?
    ensures CanAct(Seen(p), p.at)
    ensures if p.at.InClock? then Act(Seen(p), p.at) == Tick(p.tick) else Seen(GoPrivate(p)) == Act(Seen(p), p.at)
  {
    hide WriteBack, MemoryAccess, Execute, Decode, Pipeline.Fetch;
  }

  lemma GoKeepsCourse(p: Private)
    requires OnCourse(p)
    ensures OnCourse(GoPrivate(p))
  {
    hide Tick, Dispatches, Stages;
    if p.at.InClock? {
      assert Run(p.tick) == Run(Tick(p.tick));
      assert Tick(p.tick).counterForEnd <= 0 ==> Run(Tick(p.tick)) == Tick(p.tick);
    }
  }

  lemma BeginKeepsCourse(p: Private, quantum: int)
    requires OnCourse(p)
    ensures OnCourse(BeginPrivate(p, quantum))
  {
    hide Run, Dispatches;
    if p.at.Idle? && p.tick.state != Finished {
      DispatchesOneMore(p.origin, p.quanta, quantum);
    }
  }

  lemma LoadKeepsCourse(p: Private, a: Word, w: Word)
    requires OnCourse(p)
    ensures OnCourse(LoadPrivate(p, a, w))
  {
    hide Run;
  }

  // ---------------------------------------------------------------------------------------------------------------
  // Flat memory and shared memory
  // ---------------------------------------------------------------------------------------------------------------

  function KeyOf(pid: int, a: Word): Key {
    Key(pid, PageOf(a))
  }

  /** The pages of the process hold the words of its flat memory, and no page is mapped without such a word. */
  ghost predicate Holds(m: Mmu, pid: int, mem: Mem) {
    && (forall a | a in mem ::
          a % 4 == 0 && IsMapped(m, KeyOf(pid, a)) && Content(m, KeyOf(pid, a))[a % 32 / 4] == mem[a])
    && (forall k | IsMapped(m, k) && k.pid == pid :: exists a :: a in mem && KeyOf(pid, a) == k)
  }

  /** The word was written, or no word of its page was: words left over in a page are not read. */
  ghost predicate Defined(mem: Mem, a: Word) {
    a in mem || forall b | b in mem :: PageOf(b) != PageOf(a)
  }

  /** Offset of an aligned address in its page. */
  function OffsetIn(a: Word): Offset
    requires a % 4 == 0
  {
    OffsetOf(a)
  }

  /** What a request may not run into. */
  ghost predicate RequestOk(m: Mmu, pid: int, mem: Mem, r: Request)
    requires Mapped(m)
  {
    match r
    case Nothing => true
    case Read(a) => a % 4 == 0 && Undisturbed(m, KeyOf(pid, a), false) && Defined(mem, a)
    case Store(a, w) =>
      a % 4 == 0 && Undisturbed(m, KeyOf(pid, a), true) && !LosesWrite(m, KeyOf(pid, a), OffsetIn(a), w)
  }

  /** Everything that is held stays held. */
  ghost predicate KeepsHolding(m: Mmu, r: Mmu, pid: int, mem: Mem) {
    Holds(m, pid, mem) ==> Holds(r, pid, mem)
  }

  lemma SamePagesHold(m: Mmu, r: Mmu, pid: int, mem: Mem)
    requires Holds(m, pid, mem) && KeepsContents(m, r) && forall k :: IsMapped(r, k) <==> IsMapped(m, k)
    ensures Holds(r, pid, mem)
  {
    hide Content, IsMapped;
    forall a | a in mem
      ensures Content(r, KeyOf(pid, a))[a % 32 / 4] == mem[a]
    {
      assert IsMapped(m, KeyOf(pid, a));
    }
  }

  /** A read of the shared memory replies like the flat memory and disturbs nobody. */
  lemma ReadAgrees(m: Mmu, pid: int, mem: Mem, a: Word)
    requires Sound(m) && Mapped(m) && Holds(m, pid, mem) && RequestOk(m, pid, mem, Read(a))
    ensures var (r, v) := Paging.Read(m, KeyOf(pid, a), OffsetOf(a));
            && v == Load(mem, a) && Sound(r) && Mapped(r)
            && forall pid', mem' :: KeepsHolding(m, r, pid', mem')
  {
    hide Sound, Mapped, Undisturbed, Paging.Read, Content, IsMapped;
    var k := KeyOf(pid, a);
    ReadStep(m, k, OffsetIn(a));
    var r := Paging.Read(m, k, OffsetIn(a)).0;
    forall pid', mem' | Holds(m, pid', mem')
      ensures Holds(r, pid', mem')
    {
      SamePagesHold(m, r, pid', mem');
    }
    if a !in mem {
      PageUnmapped(m, pid, mem, a);
    }
  }

  lemma PageUnmapped(m: Mmu, pid: int, mem: Mem, a: Word)
    requires Holds(m, pid, mem) && Defined(mem, a) && a !in mem
    ensures !IsMapped(m, KeyOf(pid, a))
  {
    hide Content, IsMapped;
    assert forall b | b in mem :: KeyOf(pid, b) != KeyOf(pid, a);
  }

  /** One word of page `k` was written, and the page mapped if it was not; nothing else changed. */
  ghost predicate WordWritten(m: Mmu, r: Mmu, k: Key, i: nat, w: Word) {
    && i < PAGE_WORDS
    && (forall l :: IsMapped(r, l) <==> IsMapped(m, l) || l == k)
    && Content(r, k)[i] == w
    && (IsMapped(m, k) ==> Content(r, k) == Content(m, k)[i := w])
    && (forall l | IsMapped(m, l) && l != k :: Content(r, l) == Content(m, l))
  }

  /** A store reaches the shared memory like the flat memory, and the other processes do not notice. */
  lemma StoreAgrees(m: Mmu, pid: int, mem: Mem, a: Word, w: Word)
    requires Sound(m) && Mapped(m) && Holds(m, pid, mem) && RequestOk(m, pid, mem, Store(a, w))
    ensures var r := Paging.Write(m, KeyOf(pid, a), OffsetOf(a), w);
            && Holds(r, pid, mem[a := w]) && Sound(r) && Mapped(r)
            && forall pid', mem' | pid' != pid :: KeepsHolding(m, r, pid', mem')
  {
    hide Sound, Mapped, Undisturbed, LosesWrite, Paging.Write, Content, IsMapped;
    var k := KeyOf(pid, a);
    WriteStep(m, k, OffsetIn(a), w);
    var r := Paging.Write(m, k, OffsetIn(a), w);
    assert WordWritten(m, r, k, a % 32 / 4, w);
    hide WordWritten, Holds;
    StoreHolds(m, r, pid, mem, a, w);
    forall pid', mem' | pid' != pid && Holds(m, pid', mem')
      ensures Holds(r, pid', mem')
    {
      OthersHold(m, r, k, a % 32 / 4, w, pid', mem');
    }
  }

  lemma StoreHoldsWords(m: Mmu, r: Mmu, pid: int, mem: Mem, a: Word, w: Word, b: Word)
    requires Holds(m, pid, mem) && a % 4 == 0 && b in mem && b != a
    requires WordWritten(m, r, KeyOf(pid, a), a % 32 / 4, w)
    ensures b % 4 == 0 && IsMapped(r, KeyOf(pid, b)) && Content(r, KeyOf(pid, b))[b % 32 / 4] == mem[b]
  {
    hide Content, IsMapped;
    assert IsMapped(m, KeyOf(pid, b));
    if KeyOf(pid, b) == KeyOf(pid, a) {
      OtherWordOfPage(a, b);
    }
  }

  lemma OtherWordOfPage(a: Word, b: Word)
    requires a % 4 == 0 && b % 4 == 0 && PageOf(a) == PageOf(b) && a != b
    ensures a % 32 / 4 != b % 32 / 4
  {
    WordPlace(a);
    WordPlace(b);
  }

  lemma WordPlace(a: Word)
    requires a % 4 == 0
    ensures a == 32 * PageOf(a) + 4 * (a % 32 / 4)
  {
    var q, r := a / 32, a % 32;
    assert a == 32 * q + r;
    assert r % 4 == 0;
  }

  lemma StoreHolds(m: Mmu, r: Mmu, pid: int, mem: Mem, a: Word, w: Word)
    requires Holds(m, pid, mem) && a % 4 == 0 && WordWritten(m, r, KeyOf(pid, a), a % 32 / 4, w)
    ensures Holds(r, pid, mem[a := w])
  {
    var k, mem' := KeyOf(pid, a), mem[a := w];
    forall b | b in mem'
      ensures b % 4 == 0 && IsMapped(r, KeyOf(pid, b)) && Content(r, KeyOf(pid, b))[b % 32 / 4] == mem'[b]
    {
      if b != a {
        StoreHoldsWords(m, r, pid, mem, a, w, b);
      }
    }
    hide Content, IsMapped;
    forall l | IsMapped(r, l) && l.pid == pid
      ensures exists b :: b in mem' && KeyOf(pid, b) == l
    {
      StoreHoldsPage(m, pid, mem, a, w, l);
    }
  }

  lemma StoreHoldsPage(m: Mmu, pid: int, mem: Mem, a: Word, w: Word, l: Key)
    requires Holds(m, pid, mem) && l.pid == pid && (IsMapped(m, l) || l == KeyOf(pid, a))
    ensures exists b :: b in mem[a := w] && KeyOf(pid, b) == l
  {
    hide Content, IsMapped;
    if l == KeyOf(pid, a) {
      assert a in mem[a := w];
    } else {
      var b :| b in mem && KeyOf(pid, b) == l;
      assert b in mem[a := w];
    }
  }

  lemma OthersHold(m: Mmu, r: Mmu, k: Key, i: nat, w: Word, pid: int, mem: Mem)
    requires Holds(m, pid, mem) && k.pid != pid && WordWritten(m, r, k, i, w)
    ensures Holds(r, pid, mem)
  {
    hide Content, IsMapped;
    forall b | b in mem
      ensures IsMapped(r, KeyOf(pid, b)) && Content(r, KeyOf(pid, b))[b % 32 / 4] == mem[b]
    {
      assert IsMapped(m, KeyOf(pid, b)) && KeyOf(pid, b) != k;
    }
  }

  // ---------------------------------------------------------------------------------------------------------------
  // Processes on the shared memory manager
  // ---------------------------------------------------------------------------------------------------------------

  /** A process without memory of its own. */
  datatype Proc = Proc(s: St, at: Point)

  datatype System = System(m: Mmu, procs: map<int, Proc>)

  /** A stage of a process, a dispatch, or a word of a program being loaded. */
  datatype Event = Go(pid: int) | Begin(pid: int, quantum: int) | LoadWord(pid: int, addr: Word, word: Word)

  function Served(p: Proc, reply: Word): Proc
    requires CanAct(p.s, p.at)
  {
    var s := ActOn(p.s, p.at, reply);
    if p.at.Idle? then p
    else if !p.at.InClock? then Proc(s, NextPoint(p.at))
    else if s.counterForEnd <= 0 then Proc(Ended(s), Idle)
    else Proc(s, InWb)
  }

  /** Answering a request with the memory manager. */
  function Answer(m: Mmu, pid: int, r: Request): (Mmu, Word)
    requires Mapped(m)
  {
    match r
    case Nothing => (m, 0)
    case Read(a) => Paging.Read(m, KeyOf(pid, a), OffsetOf(a))
    case Store(a, w) => (Paging.Write(m, KeyOf(pid, a), OffsetOf(a), w), 0)
  }

  /** A served stage is the stage on the flat memory. */
  lemma ServedLikeActed(p: Private, reply: Word)
    requires Ready(p) && !p.at.Idle? && CanAct(Seen(p), p.at)
    requires match Asks(Seen(p), p.at) case Read(a) => reply == Load(Seen(p).mem, a) case _ => reply == 0
    ensures CanAct(Erased(Seen(p)), p.at) && Asks(Erased(Seen(p)), p.at) == Asks(Seen(p), p.at)
    ensures var r := Act(Seen(p), p.at);
            && ActOn(Erased(Seen(p)), p.at, reply) == Erased(r)
            && r.mem == match Asks(Seen(p), p.at) case Store(a, w) => Seen(p).mem[a := w] case _ => Seen(p).mem
  {
    hide Seen, Act, ActOn, Asks, CanAct;
    ActByRequest(Seen(p), p.at);
  }

  /** The process on the shared memory and the one on its own are at the same point of the same slice. */
  ghost predicate InStep(m: Mmu, pid: int, p: Proc, q: Private) {
    && OnCourse(q) && p.at == q.at && p.s == Erased(Seen(q)) && Holds(m, pid, Seen(q).mem)
  }

  /** What the next point of the private process is. */
  lemma PrivateNext(q: Private)
    requires Ready(q) && !q.at.Idle?
    ensures CanAct(Seen(q), q.at)
    ensures var q', r := GoPrivate(q), Act(Seen(q), q.at);
            && Ready(q') && Seen(q') == (if q'.at.Idle? then Ended(r) else r)
            && q'.at == (if !q.at.InClock? then NextPoint(q.at) else if r.counterForEnd <= 0 then Idle else InWb)
  {
    SeenActs(q);
    hide Act, Tick, WbPhase, MemPhase, ExPhase, IdPhase, Stages;
  }

  lemma GoInStep(q: Private, p: Proc, reply: Word)
    requires Ready(q) && p.at == q.at && p.s == Erased(Seen(q))
    requires !q.at.Idle? ==> CanAct(Seen(q), q.at)
    requires match Asks(Seen(q), q.at) case Read(a) => reply == Load(Seen(q).mem, a) case _ => reply == 0
    ensures CanAct(p.s, p.at)
    ensures var p', q' := Served(p, reply), GoPrivate(q);
            && Ready(q') && p'.at == q'.at && p'.s == Erased(Seen(q'))
            && Seen(q').mem == (if q.at.Idle? then Seen(q).mem
                                else match Asks(Seen(q), q.at)
                                     case Store(a, w) => Seen(q).mem[a := w]
                                     case _ => Seen(q).mem)
  {
    if !q.at.Idle? {
      hide Act, ActOn, Asks, Seen, Ready, CanAct, GoPrivate;
      ServedLikeActed(q, reply);
      PrivateNext(q);
    }
  }

  // ---------------------------------------------------------------------------------------------------------------
  // Runs
  // ---------------------------------------------------------------------------------------------------------------

  function BeginProc(p: Proc, quantum: int): Proc {
    if p.at.Idle? && p.s.state != Finished then
      Proc(Restart(p.s.(quantum := quantum, state := Running)), InWb)
    else p
  }

  function SharedNext(sys: System, e: Event): System {
    if e.pid !in sys.procs || !Mapped(sys.m) then sys
    else
      var p := sys.procs[e.pid];
      match e
      case Go(pid) =>
        if !CanAct(p.s, p.at) then sys
        else
          var (m, reply) := Answer(sys.m, pid, Asks(p.s, p.at));
          System(m, sys.procs[pid := Served(p, reply)])
      case Begin(pid, quantum) => sys.(procs := sys.procs[pid := BeginProc(p, quantum)])
      case LoadWord(pid, a, w) => sys.(m := Answer(sys.m, pid, Store(a, w)).0)
  }

  /** The same event for processes with memories of their own. */
  function PrivateNextOf(privates: map<int, Private>, e: Event): map<int, Private> {
    if e.pid !in privates || !Ready(privates[e.pid]) then privates
    else
      var q := privates[e.pid];
      privates[e.pid := match e
                        case Go(_) => GoPrivate(q)
                        case Begin(_, quantum) => BeginPrivate(q, quantum)
                        case LoadWord(_, a, w) => LoadPrivate(q, a, w)]
  }

  /** The shared memory is sound, and every process is in step with one on a memory of its own. */
  ghost predicate Synchronous(sys: System, privates: map<int, Private>) {
    && Sound(sys.m) && Mapped(sys.m) && sys.procs.Keys == privates.Keys
    && forall pid | pid in privates :: InStep(sys.m, pid, sys.procs[pid], privates[pid])
  }

  /** The event makes no request the memory manager does not serve flatly; programs are loaded before their first
      slice. */
  ghost predicate EventOk(sys: System, privates: map<int, Private>, e: Event) {
    e.pid in privates && Ready(privates[e.pid]) && Mapped(sys.m) ==>
      var q := privates[e.pid];
      match e
      case Go(pid) => RequestOk(sys.m, pid, Seen(q).mem, Asks(Seen(q), q.at))
      case Begin(_, _) => true
      case LoadWord(pid, a, w) => q.at.Idle? && q.quanta == [] && RequestOk(sys.m, pid, Seen(q).mem, Store(a, w))
  }

  /** The other processes stay in step when the memory keeps what it holds of them. */
  lemma OthersInStep(sys: System, privates: map<int, Private>, r: System, rest: map<int, Private>, pid: int)
    requires Synchronous(sys, privates) && pid in privates
    requires pid in r.procs && pid in rest && Sound(r.m) && Mapped(r.m)
    requires r.procs == sys.procs[pid := r.procs[pid]] && rest == privates[pid := rest[pid]]
    requires forall pid', mem | pid' != pid :: KeepsHolding(sys.m, r.m, pid', mem)
    requires InStep(r.m, pid, r.procs[pid], rest[pid])
    ensures Synchronous(r, rest)
  {
    hide Sound, Mapped, Holds, Goal, Seen;
    forall pid' | pid' in rest && pid' != pid
      ensures InStep(r.m, pid', r.procs[pid'], rest[pid'])
    {
      assert InStep(sys.m, pid', sys.procs[pid'], privates[pid']);
      assert KeepsHolding(sys.m, r.m, pid', Seen(privates[pid']).mem);
    }
  }

  /** What the memory manager makes of an admissible request. */
  lemma AnswerAgrees(m: Mmu, pid: int, mem: Mem, r: Request)
    requires Sound(m) && Mapped(m) && Holds(m, pid, mem) && RequestOk(m, pid, mem, r)
    ensures var (m', reply) := Answer(m, pid, r);
            && Sound(m') && Mapped(m')
            && reply == (match r case Read(a) => Load(mem, a) case _ => 0)
            && Holds(m', pid, match r case Store(a, w) => mem[a := w] case _ => mem)
            && forall pid', mem' | pid' != pid :: KeepsHolding(m, m', pid', mem')
  {
    hide Sound, Mapped, Holds, Paging.Read, Paging.Write;
    match r
    case Nothing =>
    case Read(a) =>
      ReadAgrees(m, pid, mem, a);
      assert KeepsHolding(m, Answer(m, pid, r).0, pid, mem);
    case Store(a, w) => StoreAgrees(m, pid, mem, a, w);
  }

  lemma IdleAsksNothing(s: St)
    ensures Asks(s, Idle) == Nothing
  {
  }

  lemma GoSynchronous(sys: System, privates: map<int, Private>, pid: int)
    requires Synchronous(sys, privates) && pid in privates && EventOk(sys, privates, Go(pid))
    ensures Synchronous(SharedNext(sys, Go(pid)), PrivateNextOf(privates, Go(pid)))
  {
    hide Sound, Mapped, Holds, Asks, Seen, Served, Answer, GoPrivate, RequestOk, Act, CanAct, Goal;
    var p, q := sys.procs[pid], privates[pid];
    assert InStep(sys.m, pid, p, q);
    assert CanAct(Seen(q), q.at) by { PointCanAct(q); }
    AnswerAgrees(sys.m, pid, Seen(q).mem, Asks(Seen(q), q.at));
    ErasedAsks(Seen(q), q.at);
    GoInStep(q, p, Answer(sys.m, pid, Asks(p.s, p.at)).1);
    if q.at.Idle? {
      IdleAsksNothing(Seen(q));
    }
    GoKeepsCourse(q);
    hide OnCourse;
    OthersInStep(sys, privates, SharedNext(sys, Go(pid)), PrivateNextOf(privates, Go(pid)), pid);
  }

  lemma PointCanAct(q: Private)
    requires Ready(q)
    ensures CanAct(Seen(q), q.at)
  {
    if !q.at.Idle? {
      SeenActs(q);
    }
  }

  lemma ErasedAsks(s: St, at: Point)
    ensures Asks(Erased(s), at) == Asks(s, at)
  {
  }

  lemma BeginSynchronous(sys: System, privates: map<int, Private>, pid: int, quantum: int)
    requires Synchronous(sys, privates) && pid in privates
    ensures Synchronous(SharedNext(sys, Begin(pid, quantum)), PrivateNextOf(privates, Begin(pid, quantum)))
  {
    hide Sound, Mapped, Holds, Goal;
    var p, q := sys.procs[pid], privates[pid];
    assert InStep(sys.m, pid, p, q);
    BeginKeepsCourse(q, quantum);
    hide OnCourse;
    var e := Begin(pid, quantum);
    OthersInStep(sys, privates, SharedNext(sys, e), PrivateNextOf(privates, e), pid);
  }

  lemma LoadSynchronous(sys: System, privates: map<int, Private>, pid: int, a: Word, w: Word)
    requires Synchronous(sys, privates) && pid in privates && EventOk(sys, privates, LoadWord(pid, a, w))
    ensures Synchronous(SharedNext(sys, LoadWord(pid, a, w)), PrivateNextOf(privates, LoadWord(pid, a, w)))
  {
    hide Sound, Mapped, Holds, Answer, RequestOk, Goal;
    var p, q := sys.procs[pid], privates[pid];
    assert InStep(sys.m, pid, p, q);
    AnswerAgrees(sys.m, pid, Seen(q).mem, Store(a, w));
    LoadKeepsCourse(q, a, w);
    hide OnCourse;
    var r := SharedNext(sys, LoadWord(pid, a, w));
    assert r.procs == sys.procs[pid := r.procs[pid]];
    OthersInStep(sys, privates, r, PrivateNextOf(privates, LoadWord(pid, a, w)), pid);
  }

  lemma EventSynchronous(sys: System, privates: map<int, Private>, e: Event)
    requires Synchronous(sys, privates) && EventOk(sys, privates, e)
    ensures Synchronous(SharedNext(sys, e), PrivateNextOf(privates, e))
  {
    if e.pid in privates {
      hide Synchronous, SharedNext, PrivateNextOf, EventOk;
      match e
      case Go(pid) => GoSynchronous(sys, privates, pid);
      case Begin(pid, quantum) => BeginSynchronous(sys, privates, pid, quantum);
      case LoadWord(pid, a, w) => LoadSynchronous(sys, privates, pid, a, w);
    } else {
      hide Sound, Mapped, InStep;
    }
  }

  function SharedAfter(sys: System, es: seq<Event>): System {
    if es == [] then sys else SharedNext(SharedAfter(sys, es[..|es| - 1]), es[|es| - 1])
  }

  function PrivatesAfter(privates: map<int, Private>, es: seq<Event>): map<int, Private> {
    if es == [] then privates else PrivateNextOf(PrivatesAfter(privates, es[..|es| - 1]), es[|es| - 1])
  }

  /** Every event of the run is admissible when its turn comes. */
  ghost predicate RunOk(sys: System, privates: map<int, Private>, es: seq<Event>) {
    es == [] ||
    var before := es[..|es| - 1];
    && RunOk(sys, privates, before)
    && EventOk(SharedAfter(sys, before), PrivatesAfter(privates, before), es[|es| - 1])
  }

  lemma {:induction false} RunSynchronous(sys: System, privates: map<int, Private>, es: seq<Event>)
    requires Synchronous(sys, privates) && RunOk(sys, privates, es)
    ensures Synchronous(SharedAfter(sys, es), PrivatesAfter(privates, es))
  {
    hide Synchronous, EventOk, SharedNext, PrivateNextOf;
    if es != [] {
      var before := es[..|es| - 1];
      RunSynchronous(sys, privates, before);
      EventSynchronous(SharedAfter(sys, before), PrivatesAfter(privates, before), es[|es| - 1]);
    }
  }

  /** The process ran as if it had been alone: it is idle with the registers, program counter, printed values and
      counters that its dispatches lead to on a flat memory of its own, and the shared memory holds that memory for
      it. */
  ghost predicate RanAlone(sys: System, pid: int, start: St, quanta: seq<int>) {
    var s := Dispatches(start, quanta);
    pid in sys.procs && sys.procs[pid] == Proc(Erased(s), Idle) && Holds(sys.m, pid, s.mem)
  }

  /** The composition of pipeline and shared memory: however stages of slices, dispatches and loading of all processes
      interleave, over any run whose requests are admissible every process that is between slices ran as if alone. */
  lemma SharedRunsAlone(sys: System, privates: map<int, Private>, es: seq<Event>, pid: int)
    requires Synchronous(sys, privates) && RunOk(sys, privates, es)
    requires pid in SharedAfter(sys, es).procs && SharedAfter(sys, es).procs[pid].at.Idle?
    ensures pid in PrivatesAfter(privates, es)
    ensures var q := PrivatesAfter(privates, es)[pid]; RanAlone(SharedAfter(sys, es), pid, q.origin, q.quanta)
  {
    hide RunOk, SharedAfter, PrivatesAfter, Sound, Mapped, Holds, Dispatches;
    RunSynchronous(sys, privates, es);
    assert InStep(SharedAfter(sys, es).m, pid, SharedAfter(sys, es).procs[pid], PrivatesAfter(privates, es)[pid]);
  }

  /** The process has the registers, program counter and printed values of `e`, and the shared memory holds for it every
      word of the memory of `e` and no page without one. */
  ghost predicate EndedAs(m: Mmu, pid: int, s: St, e: Arch) {
    s.regs == e.regs && s.pc == e.pc && s.out == e.out && Holds(m, pid, e.mem)
  }

  /** A faithful program that is finished in an admissible run, whatever other processes there are, is in the final
      state of its sequential run, and the shared memory holds the memory of that state for it. */
  lemma SharedEndsInSequence(sys: System, privates: map<int, Private>, es: seq<Event>, pid: int) returns (n: nat)
    requires Synchronous(sys, privates) && RunOk(sys, privates, es)
    requires pid in SharedAfter(sys, es).procs && pid in PrivatesAfter(privates, es)
    requires var p := SharedAfter(sys, es).procs[pid]; p.at.Idle? && p.s.state == Finished
    requires var start := PrivatesAfter(privates, es)[pid].origin;
             start.state != Finished && StoresSafe(ArchOf(start)) && JumpsSafe(ArchOf(start))
    ensures var e := SeqRun(ArchOf(PrivatesAfter(privates, es)[pid].origin), n);
            AtStop(e) && EndedAs(SharedAfter(sys, es).m, pid, SharedAfter(sys, es).procs[pid].s, e)
  {
    hide RunOk, SharedAfter, PrivatesAfter, Synchronous, Holds, Dispatches, StoresSafe, JumpsSafe, SeqRun, AtStop;
    SharedRunsAlone(sys, privates, es, pid);
    var q := PrivatesAfter(privates, es)[pid];
    n := FinishesInSequence(q.origin, q.quanta);
  }

  /** Two shared memories that hold the same memory for a process have the same pages of it mapped, with the same word
      at every address of that memory. */
  lemma HeldWordsAgree(m1: Mmu, m2: Mmu, pid: int, mem: Mem)
    requires Holds(m1, pid, mem) && Holds(m2, pid, mem)
    ensures forall k: Key | k.pid == pid :: IsMapped(m1, k) <==> IsMapped(m2, k)
    ensures forall a | a in mem ::
              && IsMapped(m1, KeyOf(pid, a)) && IsMapped(m2, KeyOf(pid, a))
              && Content(m1, KeyOf(pid, a))[a % 32 / 4] == Content(m2, KeyOf(pid, a))[a % 32 / 4] == mem[a]
  {
    hide Content, IsMapped;
    forall k: Key | k.pid == pid
      ensures IsMapped(m1, k) <==> IsMapped(m2, k)
    {
      PageIsHeld(m1, pid, mem, k);
      PageIsHeld(m2, pid, mem, k);
    }
  }

  lemma PageIsHeld(m: Mmu, pid: int, mem: Mem, k: Key)
    requires Holds(m, pid, mem) && k.pid == pid
    ensures IsMapped(m, k) <==> exists a :: a in mem && KeyOf(pid, a) == k
  {
    hide Content, IsMapped;
  }

  /** Schedule independence on the shared memory: in any two admissible runs, with whatever other processes, quanta and
      interleavings, a process loaded with the same faithful program that is finished in both is in the final state of
      its sequential run in both: the same registers, program counter and printed values, and every word of the memory
      of that state in the shared memory. */
  lemma SharedScheduleIndependence(sys1: System, privates1: map<int, Private>, es1: seq<Event>,
                                   sys2: System, privates2: map<int, Private>, es2: seq<Event>, pid: int)
    returns (n: nat)
    requires Synchronous(sys1, privates1) && RunOk(sys1, privates1, es1)
    requires Synchronous(sys2, privates2) && RunOk(sys2, privates2, es2)
    requires pid in SharedAfter(sys1, es1).procs && pid in SharedAfter(sys2, es2).procs
    requires var p1, p2 := SharedAfter(sys1, es1).procs[pid], SharedAfter(sys2, es2).procs[pid];
             p1.at.Idle? && p2.at.Idle? && p1.s.state == Finished == p2.s.state
    requires pid in PrivatesAfter(privates1, es1) && pid in PrivatesAfter(privates2, es2)
    requires var start := PrivatesAfter(privates1, es1)[pid].origin;
             && start == PrivatesAfter(privates2, es2)[pid].origin && start.state != Finished
             && StoresSafe(ArchOf(start)) && JumpsSafe(ArchOf(start))
    ensures var start := PrivatesAfter(privates1, es1)[pid].origin;
            var r1, r2 := SharedAfter(sys1, es1), SharedAfter(sys2, es2);
            var e := SeqRun(ArchOf(start), n);
            AtStop(e) && EndedAs(r1.m, pid, r1.procs[pid].s, e) && EndedAs(r2.m, pid, r2.procs[pid].s, e)
  {
    hide RunOk, SharedAfter, PrivatesAfter, Synchronous, EndedAs, StoresSafe, JumpsSafe, SeqRun, AtStop;
    n := SharedEndsInSequence(sys1, privates1, es1, pid);
    var n2 := SharedEndsInSequence(sys2, privates2, es2, pid);
    StopIsUnique(ArchOf(PrivatesAfter(privates1, es1)[pid].origin), n, n2);
  }

  /** Processes before their programs are loaded. */
  predicate Unloaded(privates: map<int, Private>) {
    forall pid | pid in privates ::
      var q := privates[pid]; q.at.Idle? && q.quanta == [] && q.origin == q.tick && q.tick.mem == map[]
  }

  /** These processes on the memory as constructed. */
  function StartOf(ramBytes: nat, diskWords: nat, privates: map<int, Private>): System {
    System(Initial(ramBytes, diskWords), map pid | pid in privates :: Proc(Erased(privates[pid].tick), Idle))
  }

  /** They are synchronous. */
  lemma StartSynchronous(ramBytes: nat, diskWords: nat, privates: map<int, Private>)
    requires 32 <= ramBytes < 4128 && Unloaded(privates)
    ensures Synchronous(StartOf(ramBytes, diskWords, privates), privates)
  {
    InitialIsSound(ramBytes, diskWords);
  }
}
