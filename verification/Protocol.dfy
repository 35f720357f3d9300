/** The multicore simulation as atomic steps, one per lock region or stretch of private work: cores (`coreWorker`),
    the IO worker (`ioWorker`) and the IO manager's loop (src/main.cpp, src/IO/IOManager.cpp). */
module Protocol {
  import opened Pipeline
  import opened Slices
  import opened ReadyQueue
  import opened IoService

  /** History: where a process is. A process in transit is registered for IO but not yet on the blocked list. */
  datatype Place = Queued | OnCore(core: nat) | Transit(core: nat) | Parked | Done

  /** What the steps know of a process control block; `place` and `slices`, the number of slices run, are history
      variables. */
  datatype Pcb = Pcb(status: ProcState, st: St, cpuTime: nat, finishTime: nat, place: Place, slices: nat)

  /** Where a core stands in its loop. */
  datatype Core =
    | AtCheck | AtHasProcesses | AtGet
    | Took(job: Job) | Sliced(job: Job) | Registered(job: Job)
    | Exited

  /** Where the IO worker stands; it holds the lock of the blocked list while scanning it. Between Added and the next
      scan the process at the position is already in the ready queue and not yet erased. */
  datatype Worker = Checking | Scanning(at: nat) | Moved(at: nat) | Stopped

  /** The whole system. History variables: `front`, the length of the part of the ready queue pushed to its front since
      the queue was last sorted, `started`, the processes dispatched so far by first dispatch, `last`, the process
      dispatched last, and `done`, the finished processes. */
  datatype Sys = Sys(
    policy: Policy, quantum: int, procs: seq<Job>, pcbs: map<Job, Pcb>,
    queue: seq<Job>, cores: seq<Core>, clock: seq<nat>, busy: seq<nat>,
    blocked: seq<Job>, worker: Worker, io: Io, finished: nat,
    front: nat, started: seq<Job>, last: seq<Job>, done: seq<Job>)

  /** One step of one thread. `queue` is the order in which the ready queue comes out of an insertion. */
  datatype Label =
    | CoreChecks(core: nat) | CoreAsks(core: nat) | CoreGets(core: nat) | CoreRuns(core: nat)
    | CoreRegisters(core: nat) | CoreParks(core: nat) | CoreFinishes(core: nat)
    | CorePreempts(core: nat, queue: seq<Job>) | CorePushes(core: nat)
    | WorkerChecks | WorkerSkips | WorkerMoves(queue: seq<Job>) | WorkerErases | WorkerEnds
    | IoSteps(printerAsks: bool, diskAsks: bool)

  predicate HasJob(c: Core) {
    c.Took? || c.Sliced? || c.Registered?
  }

  predicate LockHeld(w: Worker) {
    w.Scanning? || w.Moved?
  }

  /** The blocked list without the entry about to be erased. */
  function ParkedJobs(s: Sys): seq<Job> {
    if s.worker.Moved? && s.worker.at < |s.blocked| then s.blocked[..s.worker.at] + s.blocked[s.worker.at + 1..]
    else s.blocked
  }

  /** A core has run a slice and goes by the status it left. */
  predicate IsSliced(s: Sys, c: nat) {
    c < |s.cores| && s.cores[c].Sliced? && s.cores[c].job in s.pcbs
  }

  function StatusAt(s: Sys, c: nat): ProcState
    requires IsSliced(s, c)
  {
    s.pcbs[s.cores[c].job].status
  }

  /** When a thread can take a step. */
  ghost predicate Enabled(s: Sys, l: Label) {
    match l
    case CoreChecks(c) => c < |s.cores| && s.cores[c].AtCheck?
    case CoreAsks(c) => c < |s.cores| && s.cores[c].AtHasProcesses?
    case CoreGets(c) => c < |s.cores| && s.cores[c].AtGet? && (s.queue != [] ==> s.queue[0] in s.pcbs)
    case CoreRuns(c) =>
      c < |s.cores| == |s.clock| == |s.busy| && s.cores[c].Took? && s.cores[c].job in s.pcbs
    case CoreRegisters(c) => IsSliced(s, c) && StatusAt(s, c) == Blocked
    case CoreFinishes(c) => IsSliced(s, c) && StatusAt(s, c) == Finished && c < |s.clock|
    case CorePreempts(c, q) =>
      && IsSliced(s, c) && StatusAt(s, c) !in {Blocked, Finished} && Preemptive(s.policy)
      && Added(s.policy, s.queue, s.cores[c].job, q)
    case CorePushes(c) => IsSliced(s, c) && StatusAt(s, c) !in {Blocked, Finished} && !Preemptive(s.policy)
    case CoreParks(c) =>
      c < |s.cores| && s.cores[c].Registered? && s.cores[c].job in s.pcbs && !LockHeld(s.worker)
    case WorkerChecks => s.worker.Checking?
    case WorkerSkips =>
      && s.worker.Scanning? && s.worker.at < |s.blocked|
      && s.blocked[s.worker.at] in s.pcbs && s.pcbs[s.blocked[s.worker.at]].status != Ready
    case WorkerMoves(q) =>
      && s.worker.Scanning? && s.worker.at < |s.blocked|
      && s.blocked[s.worker.at] in s.pcbs && s.pcbs[s.blocked[s.worker.at]].status == Ready
      && Added(s.policy, s.queue, s.blocked[s.worker.at], q)
    case WorkerErases => s.worker.Moved? && s.worker.at < |s.blocked|
    case WorkerEnds => s.worker.Scanning? && s.worker.at == |s.blocked|
    case IoSteps(_, _) => s.io.phase.Serving? ==> s.io.phase.request.job in s.pcbs
  }

  function Move(s: Sys, j: Job, status: ProcState, place: Place): map<Job, Pcb>
    requires j in s.pcbs
  {
    s.pcbs[j := s.pcbs[j].(status := status, place := place)]
  }

  /** Effect of a slice on the control block of the process. */
  function RunSlice(p: Pcb, quantum: int): Pcb {
    var r := Dispatch(p.st, quantum);
    var used := if r.cycles > p.st.cycles then r.cycles - p.st.cycles else 0;
    p.(status := r.state, st := r, cpuTime := p.cpuTime + used, slices := p.slices + 1)
  }

  function Used(p: Pcb, quantum: int): nat {
    RunSlice(p, quantum).cpuTime - p.cpuTime
  }

  function AfterChecks(s: Sys, c: nat): Sys
    requires c < |s.cores|
  {
    s.(cores := s.cores[c := if s.finished < |s.procs| then AtGet else AtHasProcesses])
  }

  function AfterAsks(s: Sys, c: nat): Sys
    requires c < |s.cores|
  {
    s.(cores := s.cores[c := if s.queue != [] then AtGet else Exited])
  }

  function AfterGets(s: Sys, c: nat): Sys
    requires c < |s.cores| && (s.queue != [] ==> s.queue[0] in s.pcbs)
  {
    if s.queue == [] then s.(cores := s.cores[c := AtCheck])
    else
      var j := s.queue[0];
      s.(queue := s.queue[1..], cores := s.cores[c := Took(j)], pcbs := Move(s, j, s.pcbs[j].status, OnCore(c)),
         front := Front(s.policy, s.front, Event.Got(j)),
         started := if j in s.started then s.started else s.started + [j], last := [j])
  }

  function AfterRuns(s: Sys, c: nat): Sys
    requires c < |s.cores| == |s.clock| == |s.busy| && s.cores[c].Took? && s.cores[c].job in s.pcbs
  {
    var j := s.cores[c].job;
    var used := Used(s.pcbs[j], s.quantum);
    s.(cores := s.cores[c := Sliced(j)], pcbs := s.pcbs[j := RunSlice(s.pcbs[j], s.quantum)],
       clock := s.clock[c := s.clock[c] + used], busy := s.busy[c := s.busy[c] + used])
  }

  function AfterRegisters(s: Sys, c: nat): Sys
    requires c < |s.cores| && s.cores[c].Sliced? && s.cores[c].job in s.pcbs
  {
    var j := s.cores[c].job;
    s.(cores := s.cores[c := Registered(j)], pcbs := Move(s, j, s.pcbs[j].status, Transit(c)),
       io := IoStep(s.io, Registration(j)))
  }

  function AfterParks(s: Sys, c: nat): Sys
    requires c < |s.cores| && s.cores[c].Registered? && s.cores[c].job in s.pcbs
  {
    var j := s.cores[c].job;
    s.(cores := s.cores[c := AtCheck], pcbs := Move(s, j, s.pcbs[j].status, Parked), blocked := s.blocked + [j])
  }

  function AfterFinishes(s: Sys, c: nat): Sys
    requires c < |s.cores| && s.cores[c].Sliced? && s.cores[c].job in s.pcbs && c < |s.clock|
  {
    var j := s.cores[c].job;
    s.(cores := s.cores[c := AtCheck],
       pcbs := s.pcbs[j := s.pcbs[j].(finishTime := s.clock[c], place := Done)],
       finished := s.finished + 1, done := s.done + [j])
  }

  function AfterPreempts(s: Sys, c: nat, q: seq<Job>): Sys
    requires c < |s.cores| && s.cores[c].Sliced? && s.cores[c].job in s.pcbs
  {
    var j := s.cores[c].job;
    s.(cores := s.cores[c := AtCheck], pcbs := Move(s, j, Ready, Queued), queue := q,
       front := Front(s.policy, s.front, Add(j)))
  }

  function AfterPushes(s: Sys, c: nat): Sys
    requires c < |s.cores| && s.cores[c].Sliced? && s.cores[c].job in s.pcbs
  {
    var j := s.cores[c].job;
    s.(cores := s.cores[c := AtCheck], pcbs := Move(s, j, Running, Queued), queue := [j] + s.queue,
       front := Front(s.policy, s.front, Push(j)))
  }

  function AfterMoves(s: Sys, q: seq<Job>): Sys
    requires s.worker.Scanning? && s.worker.at < |s.blocked| && s.blocked[s.worker.at] in s.pcbs
  {
    var j := s.blocked[s.worker.at];
    s.(worker := Moved(s.worker.at), pcbs := Move(s, j, Ready, Queued), queue := q,
       front := Front(s.policy, s.front, Add(j)))
  }

  function AfterErases(s: Sys): Sys
    requires s.worker.Moved? && s.worker.at < |s.blocked|
  {
    s.(blocked := ParkedJobs(s), worker := Scanning(s.worker.at))
  }

  function AfterIo(s: Sys, printerAsks: bool, diskAsks: bool): Sys
    requires s.io.phase.Serving? ==> s.io.phase.request.job in s.pcbs
  {
    var s1 := s.(io := IoStep(s.io, Manager(printerAsks, diskAsks)));
    if s.io.phase.Serving? then
      var j := s.io.phase.request.job;
      s1.(pcbs := Move(s, j, Ready, s.pcbs[j].place))
    else s1
  }

  /** The state after a step; a step that is not enabled does nothing. */
  ghost function Next(s: Sys, l: Label): Sys {
    if !Enabled(s, l) then s
    else
      match l
      case CoreChecks(c) => AfterChecks(s, c)
      case CoreAsks(c) => AfterAsks(s, c)
      case CoreGets(c) => AfterGets(s, c)
      case CoreRuns(c) => AfterRuns(s, c)
      case CoreRegisters(c) => AfterRegisters(s, c)
      case CoreParks(c) => AfterParks(s, c)
      case CoreFinishes(c) => AfterFinishes(s, c)
      case CorePreempts(c, q) => AfterPreempts(s, c, q)
      case CorePushes(c) => AfterPushes(s, c)
      case WorkerChecks => s.(worker := if s.finished < |s.procs| then Scanning(0) else Stopped)
      case WorkerSkips => s.(worker := Scanning(s.worker.at + 1))
      case WorkerMoves(q) => AfterMoves(s, q)
      case WorkerErases => AfterErases(s)
      case WorkerEnds => s.(worker := Checking)
      case IoSteps(printerAsks, diskAsks) => AfterIo(s, printerAsks, diskAsks)
  }

  ghost function After(s: Sys, ls: seq<Label>): Sys {
    if ls == [] then s else Next(After(s, ls[..|ls| - 1]), ls[|ls| - 1])
  }

  /** The system when its threads start: every process is in the ready queue, in arrival order or sorted. */
  ghost predicate Initial(s: Sys) {
    && (forall i, j | 0 <= i < j < |s.procs| :: s.procs[i] != s.procs[j])
    && (forall j :: j in s.pcbs <==> j in s.procs)
    && (forall j | j in s.pcbs ::
          s.pcbs[j] == Pcb(Ready, s.pcbs[j].st, 0, 0, Queued, 0) && s.pcbs[j].st.state != Finished)
    && (if Sorts(s.policy) then multiset(s.queue) == multiset(s.procs) && Sorted(s.policy, s.queue)
        else s.queue == s.procs)
    && (forall c | 0 <= c < |s.cores| :: s.cores[c] == AtCheck && c < |s.clock| && s.clock[c] == 0)
    && |s.cores| == |s.clock| && s.clock == s.busy
    && s.blocked == [] && s.worker == Checking && s.io == IDLE_IO && s.finished == 0
    && s.front == 0 && s.started == s.last == s.done == []
  }
}
