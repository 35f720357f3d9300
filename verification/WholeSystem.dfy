/** The whole system: the cores run their slices stage by stage on the one memory manager they share, while scheduler,
    IO worker and IO manager go on as in Protocol. */
module WholeSystem {
  import opened Words
  import opened Isa
  import opened Pipeline
  import opened PipelineRefinement
  import opened Slices
  import opened ReadyQueue
  import opened Protocol
  import opened ProtocolPlaces
  import opened ProtocolStatus
  import opened ProtocolQueue
  import opened ProtocolExecution
  import opened ProtocolResults
  import Shared = SharedMemory

  // ---------------------------------------------------------------------------------------------------------------
  // Control blocks without memory
  // ---------------------------------------------------------------------------------------------------------------

  function ErasedPcb(p: Pcb): Pcb {
    p.(st := Shared.Erased(p.st))
  }

  function ErasedPcbs(pcbs: map<Job, Pcb>): map<Job, Pcb> {
    map j | j in pcbs :: ErasedPcb(pcbs[j])
  }

  function ErasedSys(s: Sys): Sys {
    s.(pcbs := ErasedPcbs(s.pcbs))
  }

  lemma ErasedUpdate(pcbs: map<Job, Pcb>, j: Job, p: Pcb)
    ensures ErasedPcbs(pcbs[j := p]) == ErasedPcbs(pcbs)[j := ErasedPcb(p)]
  {
  }

  lemma ErasedAt(pcbs: map<Job, Pcb>, j: Job)
    requires j in pcbs
    ensures j in ErasedPcbs(pcbs) && ErasedPcbs(pcbs)[j] == ErasedPcb(pcbs[j])
    ensures ErasedPcbs(pcbs)[j].status == pcbs[j].status && ErasedPcbs(pcbs)[j].place == pcbs[j].place
  {
  }

  lemma ErasedMove(s: Sys, j: Job, status: ProcState, place: Place)
    requires j in s.pcbs
    ensures Move(ErasedSys(s), j, status, place) == ErasedPcbs(Move(s, j, status, place))
  {
    ErasedUpdate(s.pcbs, j, s.pcbs[j].(status := status, place := place));
  }

  lemma FinishErased(s: Sys, j: Job, now: nat)
    requires j in s.pcbs
    ensures var e := ErasedPcbs(s.pcbs);
            j in e && e[j := e[j].(finishTime := now, place := Done)]
                      == ErasedPcbs(s.pcbs[j := s.pcbs[j].(finishTime := now, place := Done)])
  {
    ErasedUpdate(s.pcbs, j, s.pcbs[j].(finishTime := now, place := Done));
  }

  lemma ErasedEnabled(s: Sys, l: Label)
    ensures Enabled(ErasedSys(s), l) <==> Enabled(s, l)
  {
    hide Added;
  }

  /** Moving a process does not look at what it computes. */
  lemma ErasedMoves(s: Sys, l: Label)
    requires Enabled(s, l) && Enabled(ErasedSys(s), l)
    requires l.CoreGets? || l.CoreRegisters? || l.CoreParks? || l.CorePreempts? || l.CorePushes? || l.WorkerMoves?
    ensures Next(ErasedSys(s), l) == ErasedSys(Next(s, l))
  {
    hide ErasedPcbs, Move, IoService.IoStep, Added, ReadyQueue.Front, ErasedPcb;
    match l
    case CoreGets(c) =>
      if s.queue != [] {
        ErasedAt(s.pcbs, s.queue[0]);
        ErasedMove(s, s.queue[0], s.pcbs[s.queue[0]].status, OnCore(c));
      }
    case CoreRegisters(c) =>
      ErasedAt(s.pcbs, s.cores[c].job);
      ErasedMove(s, s.cores[c].job, s.pcbs[s.cores[c].job].status, Transit(c));
    case CoreParks(c) =>
      ErasedAt(s.pcbs, s.cores[c].job);
      ErasedMove(s, s.cores[c].job, s.pcbs[s.cores[c].job].status, Parked);
    case CorePreempts(c, _) => ErasedMove(s, s.cores[c].job, ProcState.Ready, Queued);
    case CorePushes(c) => ErasedMove(s, s.cores[c].job, Running, Queued);
    case WorkerMoves(_) => ErasedMove(s, s.blocked[s.worker.at], ProcState.Ready, Queued);
  }

  /** The steps of the protocol other than slices do not look at what the processes compute. */
  lemma ErasedNext(s: Sys, l: Label)
    requires !l.CoreRuns?
    ensures Next(ErasedSys(s), l) == ErasedSys(Next(s, l))
  {
    ErasedEnabled(s, l);
    assert ParkedJobs(ErasedSys(s)) == ParkedJobs(s);
    hide ErasedPcbs, Move, IoService.IoStep, ParkedJobs, Added, ReadyQueue.Front, ErasedPcb, AfterGets, AfterRegisters,
      AfterParks, AfterPreempts, AfterPushes, AfterMoves;
    if Enabled(s, l) {
      match l
      case CoreFinishes(c) => FinishErased(s, s.cores[c].job, s.clock[c]);
      case IoSteps(_, _) =>
        if s.io.phase.Serving? {
          var j := s.io.phase.request.job;
          ErasedAt(s.pcbs, j);
          ErasedMove(s, j, ProcState.Ready, s.pcbs[j].place);
        }
      case CoreGets(_) => ErasedMoves(s, l);
      case CoreRegisters(_) => ErasedMoves(s, l);
      case CoreParks(_) => ErasedMoves(s, l);
      case CorePreempts(_, _) => ErasedMoves(s, l);
      case CorePushes(_) => ErasedMoves(s, l);
      case WorkerMoves(_) => ErasedMoves(s, l);
      case _ =>
    }
  }

  // ---------------------------------------------------------------------------------------------------------------
  // Steps
  // ---------------------------------------------------------------------------------------------------------------

  /** Scheduler, cores, IO worker and IO manager, with control blocks as of the last slice, and the processes on the
      shared memory. */
  datatype Whole = Whole(sys: Sys, shared: Shared.System)

  /** A step of the protocol other than a slice, or, on a core that has taken a process, the start of its slice or the
      next stage of it. */
  datatype Act = Control(step: Label) | Begins(core: nat) | Stage(core: nat)

  /** The core has a process to run. */
  predicate Executing(w: Whole, c: nat) {
    && c < |w.sys.cores| == |w.sys.clock| == |w.sys.busy| && w.sys.cores[c].Took? && w.sys.cores[c].job in w.sys.pcbs
    && w.sys.cores[c].job.pid in w.shared.procs
  }

  /** What the act does to the processes. */
  function EventOf(w: Whole, a: Act): Option<Shared.Event> {
    match a
    case Begins(c) =>
      if Executing(w, c) && w.shared.procs[w.sys.cores[c].job.pid].at.Idle?
      then Some(Shared.Begin(w.sys.cores[c].job.pid, w.sys.quantum)) else None
    case Stage(c) =>
      if Executing(w, c) && !w.shared.procs[w.sys.cores[c].job.pid].at.Idle?
      then Some(Shared.Go(w.sys.cores[c].job.pid)) else None
    case Control(_) => None
  }

  /** A slice is over and has left the process in the state `r`. */
  function AfterSlice(s: Sys, c: nat, r: St): Sys
    requires c < |s.cores| == |s.clock| == |s.busy| && s.cores[c].Took? && s.cores[c].job in s.pcbs
  {
    var j := s.cores[c].job;
    var p := s.pcbs[j];
    var used := if r.cycles > p.st.cycles then r.cycles - p.st.cycles else 0;
    s.(cores := s.cores[c := Sliced(j)],
       pcbs := s.pcbs[j := p.(status := r.state, st := r, cpuTime := p.cpuTime + used, slices := p.slices + 1)],
       clock := s.clock[c := s.clock[c] + used], busy := s.busy[c := s.busy[c] + used])
  }

  ghost function WholeNext(w: Whole, a: Act): Whole {
    match EventOf(w, a)
    case None => if a.Control? && !a.step.CoreRuns? then w.(sys := Next(w.sys, a.step)) else w
    case Some(e) =>
      var shared := Shared.SharedNext(w.shared, e);
      if a.Stage? && e.pid in shared.procs && shared.procs[e.pid].at.Idle?
      then Whole(AfterSlice(w.sys, a.core, shared.procs[e.pid].s), shared)
      else w.(shared := shared)
  }

  /** The processes with memories of their own along the way. */
  function PrivatesNext(w: Whole, privates: map<int, Shared.Private>, a: Act): map<int, Shared.Private> {
    match EventOf(w, a)
    case None => privates
    case Some(e) => Shared.PrivateNextOf(privates, e)
  }

  // ---------------------------------------------------------------------------------------------------------------
  // The simulation
  // ---------------------------------------------------------------------------------------------------------------

  /** Between slices the process on its own is where the protocol has it; in a slice it is on a core, on its way to
      where the protocol's slice will take it. */
  predicate Matches(s: Sys, j: Job, q: Shared.Private)
    requires j in s.pcbs && Shared.Ready(q)
  {
    if q.at.Idle? then q.tick == s.pcbs[j].st
    else
      && s.pcbs[j].place.OnCore? && s.pcbs[j].place.core < |s.cores| && s.cores[s.pcbs[j].place.core] == Took(j)
      && Shared.Goal(q) == Dispatch(s.pcbs[j].st, s.quantum)
  }

  ghost predicate Pids(s: Sys, privates: map<int, Shared.Private>) {
    && (forall j | j in s.pcbs :: j.pid in privates)
    && (forall j, k | j in s.pcbs && k in s.pcbs && j.pid == k.pid :: j == k)
  }

  /** What holds of every process of a simulation. */
  ghost predicate AllMatch(s: Sys, privates: map<int, Shared.Private>) {
    Pids(s, privates) && forall j | j in s.pcbs :: Shared.Ready(privates[j.pid]) && Matches(s, j, privates[j.pid])
  }

  /** The whole system does what the protocol does with private memories. */
  ghost predicate Simulates(w: Whole, s: Sys, privates: map<int, Shared.Private>) {
    w.sys == ErasedSys(s) && Shared.Synchronous(w.shared, privates) && AllMatch(s, privates)
  }

  lemma TookStays(s: Sys, l: Label, c: nat)
    requires c < |s.cores| && s.cores[c].Took? && !l.CoreRuns?
    ensures |Next(s, l).cores| == |s.cores| && Next(s, l).cores[c] == s.cores[c]
  {
    hide IoService.IoStep, ParkedJobs, Added;
  }

  lemma HeldIsThere(s: Sys, c: nat)
    requires Orderly(s) && c < |s.cores| && s.cores[c].Took?
    ensures Is(s.pcbs, s.cores[c].job, OnCore(c))
  {
    hide Lists, Statuses;
  }

  /** A step of the protocol other than a slice leaves a process where it matches. */
  lemma StillMatches(s: Sys, l: Label, j: Job, q: Shared.Private)
    requires Orderly(s) && !l.CoreRuns? && j in s.pcbs && Shared.Ready(q) && Matches(s, j, q)
    ensures j in Next(s, l).pcbs && Matches(Next(s, l), j, q)
  {
    hide Orderly, Next, Shared.Goal, Dispatch;
    OtherStepWork(s, l);
    if !q.at.Idle? {
      var c := s.pcbs[j].place.core;
      TookStays(s, l, c);
      StepKeepsOrderly(s, l);
      HeldIsThere(Next(s, l), c);
    }
  }

  lemma ControlSimulates(w: Whole, s: Sys, privates: map<int, Shared.Private>, l: Label)
    requires Simulates(w, s, privates) && Orderly(s) && !l.CoreRuns?
    ensures Simulates(w.(sys := Next(w.sys, l)), Next(s, l), privates)
  {
    hide Orderly, Next, Matches, Shared.Synchronous;
    ErasedNext(s, l);
    OtherStepWork(s, l);
    forall j | j in Next(s, l).pcbs
      ensures Matches(Next(s, l), j, privates[j.pid])
    {
      StillMatches(s, l, j, privates[j.pid]);
    }
  }

  /** The process a core is about to run is not finished. */
  lemma TakenCanRun(s: Sys, s0: Sys, c: nat)
    requires Good(s, s0) && c < |s.cores| && s.cores[c].Took?
    ensures s.cores[c].job in s.pcbs && s.pcbs[s.cores[c].job].st.state != Finished
    ensures s.pcbs[s.cores[c].job].place == OnCore(c)
  {
    hide Orderly, QueueOk, Counted, TimeOk, Dispatches, Charged;
    TakenIsNotFinished(s, c);
    HeldIsThere(s, c);
    assert Ran(s.pcbs[s.cores[c].job], s0.pcbs[s.cores[c].job].st, s.quantum);
  }

  lemma BegunMatches(s: Sys, j: Job, q: Shared.Private)
    requires j in s.pcbs && q.at.Idle? && q.tick == s.pcbs[j].st && q.tick.state != Finished
    requires s.pcbs[j].place.OnCore? && s.pcbs[j].place.core < |s.cores| && s.cores[s.pcbs[j].place.core] == Took(j)
    ensures var q' := Shared.BeginPrivate(q, s.quantum); Shared.Ready(q') && Matches(s, j, q')
  {
    hide Run;
  }

  /** One process moves on. */
  lemma OneMatches(s: Sys, privates: map<int, Shared.Private>, j: Job, q: Shared.Private)
    requires AllMatch(s, privates) && j in s.pcbs && Shared.Ready(q) && Matches(s, j, q)
    ensures AllMatch(s, privates[j.pid := q])
  {
    hide Matches, Shared.Ready;
  }

  lemma MatchOf(s: Sys, privates: map<int, Shared.Private>, j: Job)
    requires AllMatch(s, privates) && j in s.pcbs
    ensures j.pid in privates && Shared.Ready(privates[j.pid]) && Matches(s, j, privates[j.pid])
  {
    hide Matches, Shared.Ready;
  }

  lemma BeginOf(privates: map<int, Shared.Private>, pid: int, quantum: int)
    requires pid in privates && Shared.Ready(privates[pid])
    ensures Shared.PrivateNextOf(privates, Shared.Begin(pid, quantum))
            == privates[pid := Shared.BeginPrivate(privates[pid], quantum)]
  {
    hide Shared.BeginPrivate, Shared.Ready;
  }

  lemma ErasedExecuting(w: Whole, s: Sys, c: nat)
    requires w.sys == ErasedSys(s) && Executing(w, c)
    ensures Enabled(s, CoreRuns(c)) && s.cores[c].job in s.pcbs
    ensures w.sys.cores == s.cores && w.sys.quantum == s.quantum
  {
  }

  lemma BeginNext(w: Whole, c: nat)
    requires EventOf(w, Begins(c)).Some?
    ensures var j, e := w.sys.cores[c].job, EventOf(w, Begins(c)).value;
            && Executing(w, c) && e == Shared.Begin(j.pid, w.sys.quantum) && w.shared.procs[j.pid].at.Idle?
            && WholeNext(w, Begins(c)) == w.(shared := Shared.SharedNext(w.shared, e))
  {
    hide Shared.SharedNext;
  }

  lemma BeginSimulates(w: Whole, s: Sys, s0: Sys, privates: map<int, Shared.Private>, c: nat)
    requires Simulates(w, s, privates) && Good(s, s0) && EventOf(w, Begins(c)).Some?
    ensures Simulates(WholeNext(w, Begins(c)), s, PrivatesNext(w, privates, Begins(c)))
  {
    BeginNext(w, c);
    ErasedExecuting(w, s, c);
    var j := s.cores[c].job;
    hide AllMatch, Good, Matches, ErasedPcbs, ErasedSys, Executing, WholeNext, Shared.SharedNext, Shared.BeginPrivate,
      Shared.Goal, Shared.Seen, Shared.Synchronous, Shared.Ready, Shared.PrivateNextOf, Enabled;
    MatchOf(s, privates, j);
    var q := privates[j.pid];
    Shared.BeginSynchronous(w.shared, privates, j.pid, s.quantum);
    TakenCanRun(s, s0, c);
    ProcIsPrivate(w.shared, privates, j.pid);
    MatchesIdle(s, j, q);
    BegunMatches(s, j, q);
    OneMatches(s, privates, j, Shared.BeginPrivate(q, s.quantum));
    BeginOf(privates, j.pid, s.quantum);
  }

  lemma MatchesIdle(s: Sys, j: Job, q: Shared.Private)
    requires j in s.pcbs && Shared.Ready(q) && Matches(s, j, q) && q.at.Idle?
    ensures q.tick == s.pcbs[j].st
  {
  }

  lemma ProcIsPrivate(shared: Shared.System, privates: map<int, Shared.Private>, pid: int)
    requires Shared.Synchronous(shared, privates) && pid in privates
    ensures pid in shared.procs && Shared.Ready(privates[pid])
    ensures var p, q := shared.procs[pid], privates[pid]; p.at == q.at && p.s == Shared.Erased(Shared.Seen(q))
    ensures var q := privates[pid]; Shared.Holds(shared.m, pid, Shared.Seen(q).mem)
  {
    hide Shared.Holds, Shared.Goal, Shared.Seen;
    assert Shared.InStep(shared.m, pid, shared.procs[pid], privates[pid]);
  }

  // ---------------------------------------------------------------------------------------------------------------
  // Stages of a slice
  // ---------------------------------------------------------------------------------------------------------------

  lemma GoOf(privates: map<int, Shared.Private>, pid: int)
    requires pid in privates && Shared.Ready(privates[pid])
    ensures Shared.PrivateNextOf(privates, Shared.Go(pid)) == privates[pid := Shared.GoPrivate(privates[pid])]
  {
    hide Shared.GoPrivate, Shared.Ready;
  }

  /** A stage keeps the slice on its way; when it was the last one, the process is where the slice leads. */
  lemma GoneMatches(s: Sys, j: Job, q: Shared.Private)
    requires j in s.pcbs && Shared.OnCourse(q) && Matches(s, j, q) && !q.at.Idle?
    ensures var q' := Shared.GoPrivate(q);
            && Shared.Ready(q')
            && if q'.at.Idle? then q'.tick == Shared.Seen(q') == Dispatch(s.pcbs[j].st, s.quantum)
               else Matches(s, j, q')
  {
    hide Dispatch, Dispatches, Tick, Run;
    Shared.GoKeepsCourse(q);
  }

  lemma CourseOf(shared: Shared.System, privates: map<int, Shared.Private>, pid: int)
    requires Shared.Synchronous(shared, privates) && pid in privates
    ensures Shared.OnCourse(privates[pid])
  {
    hide Shared.OnCourse, Shared.Holds, Shared.Seen;
    assert Shared.InStep(shared.m, pid, shared.procs[pid], privates[pid]);
  }

  /** A slice on control blocks without memory. */
  lemma ErasedSlice(s: Sys, c: nat)
    requires Enabled(s, CoreRuns(c))
    ensures Enabled(ErasedSys(s), CoreRuns(c))
    ensures var r := Dispatch(s.pcbs[s.cores[c].job].st, s.quantum);
            AfterSlice(ErasedSys(s), c, Shared.Erased(r)) == ErasedSys(Next(s, CoreRuns(c)))
  {
    hide Dispatch;
    var j := s.cores[c].job;
    ErasedUpdate(s.pcbs, j, RunSlice(s.pcbs[j], s.quantum));
  }

  /** The slice of the protocol leaves the other processes where they match. */
  lemma OthersMatch(s: Sys, c: nat, k: Job, q: Shared.Private)
    requires Enabled(s, CoreRuns(c)) && k in s.pcbs && k != s.cores[c].job && Shared.Ready(q) && Matches(s, k, q)
    ensures k in Next(s, CoreRuns(c)).pcbs && Matches(Next(s, CoreRuns(c)), k, q)
  {
    hide Dispatch, Shared.Goal;
  }

  lemma SliceMatches(s: Sys, privates: map<int, Shared.Private>, c: nat, q: Shared.Private)
    requires AllMatch(s, privates) && Enabled(s, CoreRuns(c)) && Shared.Ready(q) && q.at.Idle?
    requires q.tick == Dispatch(s.pcbs[s.cores[c].job].st, s.quantum)
    ensures AllMatch(Next(s, CoreRuns(c)), privates[s.cores[c].job.pid := q])
  {
    hide Dispatch, Shared.Ready;
    var j, r := s.cores[c].job, Next(s, CoreRuns(c));
    var privates' := privates[j.pid := q];
    assert r.pcbs.Keys == s.pcbs.Keys && r.pcbs[j].st == q.tick;
    hide Next, Matches;
    forall k | k in r.pcbs
      ensures k.pid in privates' && Shared.Ready(privates'[k.pid]) && Matches(r, k, privates'[k.pid])
    {
      if k == j {
        IdleMatches(r, j, q);
      } else {
        OthersMatch(s, c, k, privates[k.pid]);
      }
    }
  }

  lemma IdleMatches(s: Sys, j: Job, q: Shared.Private)
    requires j in s.pcbs && Shared.Ready(q) && q.at.Idle? && q.tick == s.pcbs[j].st
    ensures Matches(s, j, q)
  {
  }

  /** The shared system after a stage of the process `pid`. */
  lemma StageInStep(shared: Shared.System, privates: map<int, Shared.Private>, pid: int)
    requires Shared.Synchronous(shared, privates) && pid in privates
    requires Shared.EventOk(shared, privates, Shared.Go(pid))
    ensures Shared.OnCourse(privates[pid])
    ensures var r, q' := Shared.SharedNext(shared, Shared.Go(pid)), Shared.GoPrivate(privates[pid]);
            && Shared.Synchronous(r, privates[pid := q']) && pid in r.procs && Shared.Ready(q')
            && r.procs[pid].at == q'.at && r.procs[pid].s == Shared.Erased(Shared.Seen(q'))
  {
    hide Shared.SharedNext, Shared.GoPrivate, Shared.Synchronous, Shared.Seen, Shared.EventOk, Shared.Goal,
      Dispatches;
    CourseOf(shared, privates, pid);
    Shared.EventSynchronous(shared, privates, Shared.Go(pid));
    GoOf(privates, pid);
    ProcIsPrivate(Shared.SharedNext(shared, Shared.Go(pid)), privates[pid := Shared.GoPrivate(privates[pid])], pid);
  }

  lemma StageNext(w: Whole, c: nat)
    requires EventOf(w, Stage(c)).Some?
    ensures var j, e := w.sys.cores[c].job, EventOf(w, Stage(c)).value;
            var r := Shared.SharedNext(w.shared, e);
            && Executing(w, c) && e == Shared.Go(j.pid) && !w.shared.procs[j.pid].at.Idle?
            && (j.pid in r.procs ==>
                  WholeNext(w, Stage(c)) == if r.procs[j.pid].at.Idle?
                                            then Whole(AfterSlice(w.sys, c, r.procs[j.pid].s), r) else w.(shared := r))
  {
    hide Shared.SharedNext, AfterSlice;
  }

  /** A stage of a slice; with the last one the protocol does the slice. */
  lemma StageSimulates(w: Whole, s: Sys, privates: map<int, Shared.Private>, c: nat) returns (l: Option<Label>)
    requires Simulates(w, s, privates) && EventOf(w, Stage(c)).Some?
    requires Shared.EventOk(w.shared, privates, EventOf(w, Stage(c)).value)
    ensures Simulates(WholeNext(w, Stage(c)), if l.Some? then Next(s, l.value) else s,
                      PrivatesNext(w, privates, Stage(c)))
    ensures w.sys.cores[c].job.pid in privates && Shared.Ready(privates[w.sys.cores[c].job.pid])
    ensures l == if Shared.GoPrivate(privates[w.sys.cores[c].job.pid]).at.Idle? then Some(CoreRuns(c)) else None
    ensures PrivatesNext(w, privates, Stage(c))
            == privates[w.sys.cores[c].job.pid := Shared.GoPrivate(privates[w.sys.cores[c].job.pid])]
  {
    StageNext(w, c);
    ErasedExecuting(w, s, c);
    var j := s.cores[c].job;
    hide ErasedPcbs, ErasedSys, Dispatch, Matches, AllMatch, AfterSlice, Executing, WholeNext, Shared.SharedNext,
      Shared.GoPrivate, Shared.Goal, Shared.Seen, Shared.Synchronous, Shared.Ready, Shared.OnCourse, Shared.EventOk,
      Next, Enabled, Shared.PrivateNextOf;
    MatchOf(s, privates, j);
    var q := privates[j.pid];
    var q' := Shared.GoPrivate(q);
    ProcIsPrivate(w.shared, privates, j.pid);
    StageInStep(w.shared, privates, j.pid);
    GoOf(privates, j.pid);
    GoneMatches(s, j, q);
    if q'.at.Idle? {
      l := Some(CoreRuns(c));
      ErasedSlice(s, c);
      SliceMatches(s, privates, c, q');
    } else {
      l := None;
      OneMatches(s, privates, j, q');
    }
  }

  // ---------------------------------------------------------------------------------------------------------------
  // Runs
  // ---------------------------------------------------------------------------------------------------------------

  ghost function WholeAfter(w: Whole, acts: seq<Act>): Whole {
    if acts == [] then w else WholeNext(WholeAfter(w, acts[..|acts| - 1]), acts[|acts| - 1])
  }

  ghost function Alone(w: Whole, privates: map<int, Shared.Private>, acts: seq<Act>): map<int, Shared.Private> {
    if acts == [] then privates
    else
      var before := acts[..|acts| - 1];
      PrivatesNext(WholeAfter(w, before), Alone(w, privates, before), acts[|acts| - 1])
  }

  /** The act makes no request that the shared memory does not serve flatly. */
  ghost predicate Allowed(w: Whole, privates: map<int, Shared.Private>, a: Act) {
    EventOf(w, a).Some? ==> Shared.EventOk(w.shared, privates, EventOf(w, a).value)
  }

  ghost predicate AllowedRun(w: Whole, privates: map<int, Shared.Private>, acts: seq<Act>) {
    acts == [] ||
    var before := acts[..|acts| - 1];
    && AllowedRun(w, privates, before)
    && Allowed(WholeAfter(w, before), Alone(w, privates, before), acts[|acts| - 1])
  }

  /** The system when its threads start: programs are loaded, and nobody has run yet. */
  ghost predicate Starts(w: Whole, s: Sys, privates: map<int, Shared.Private>) {
    && Initial(s) && w.sys == ErasedSys(s) && Shared.Synchronous(w.shared, privates) && Pids(s, privates)
    && forall j | j in s.pcbs :: privates[j.pid].at.Idle? && privates[j.pid].tick == s.pcbs[j].st
  }

  lemma NoEventNext(w: Whole, privates: map<int, Shared.Private>, a: Act)
    requires EventOf(w, a).None?
    ensures PrivatesNext(w, privates, a) == privates
    ensures WholeNext(w, a) == if a.Control? && !a.step.CoreRuns? then w.(sys := Next(w.sys, a.step)) else w
  {
    hide Next, EventOf;
  }

  lemma GoodIsOrderly(s: Sys, s0: Sys)
    requires Good(s, s0)
    ensures Orderly(s)
  {
    hide Orderly, QueueOk, Counted, TimeOk, Executes;
  }

  lemma ControlHasNoEvent(w: Whole, a: Act)
    requires EventOf(w, a).Some?
    ensures !a.Control?
  {
  }

  lemma ActSimulates(w: Whole, s: Sys, s0: Sys, privates: map<int, Shared.Private>, a: Act) returns (l: Option<Label>)
    requires Simulates(w, s, privates) && Good(s, s0) && Allowed(w, privates, a)
    ensures Simulates(WholeNext(w, a), if l.Some? then Next(s, l.value) else s, PrivatesNext(w, privates, a))
  {
    l := None;
    hide EventOf, WholeNext, PrivatesNext, Simulates, Good, Next, Orderly, Shared.EventOk;
    if EventOf(w, a).Some? {
      ControlHasNoEvent(w, a);
      if a.Begins? {
        BeginSimulates(w, s, s0, privates, a.core);
      } else {
        l := StageSimulates(w, s, privates, a.core);
      }
    } else {
      NoEventNext(w, privates, a);
      if a.Control? && !a.step.CoreRuns? {
        GoodIsOrderly(s, s0);
        ControlSimulates(w, s, privates, a.step);
        l := Some(a.step);
      }
    }
  }

  lemma StartSimulates(w: Whole, s: Sys, privates: map<int, Shared.Private>)
    requires Starts(w, s, privates)
    ensures Simulates(w, s, privates)
  {
    hide Initial, Shared.Synchronous, ErasedSys;
  }

  /** Every run of the whole system whose requests are allowed is a run of the protocol on private memories: some run
      of the protocol ends with the same queue, cores, clocks, lists, statuses, charges and states of the processes,
      and the shared memory holds their memories. So everything shown of the protocol holds of the whole system. */
  lemma {:induction false} WholeRunIsProtocolRun(w0: Whole, s0: Sys, privates: map<int, Shared.Private>, acts: seq<Act>)
    returns (ls: seq<Label>)
    requires Starts(w0, s0, privates) && AllowedRun(w0, privates, acts)
    ensures Simulates(WholeAfter(w0, acts), After(s0, ls), Alone(w0, privates, acts))
  {
    hide Simulates, Allowed, WholeNext, PrivatesNext, Next, Good;
    ls := [];
    if acts == [] {
      StartSimulates(w0, s0, privates);
    } else {
      var before, a := acts[..|acts| - 1], acts[|acts| - 1];
      ls := WholeRunIsProtocolRun(w0, s0, privates, before);
      var s := After(s0, ls);
      assert Initial(s0);
      hide Initial;
      EveryRunGood(s0, ls);
      var l := ActSimulates(WholeAfter(w0, before), s, s0, Alone(w0, privates, before), a);
      if l.Some? {
        assert (ls + [l.value])[..|ls|] == ls;
        ls := ls + [l.value];
      }
    }
  }

  /** The process, as the whole system has it, when it is not on a core. */
  lemma HeldBetweenSlices(w: Whole, s: Sys, privates: map<int, Shared.Private>, j: Job)
    requires Simulates(w, s, privates) && j in s.pcbs && !s.pcbs[j].place.OnCore?
    ensures j in w.sys.pcbs && w.sys.pcbs[j].st == Shared.Erased(s.pcbs[j].st)
    ensures Shared.Holds(w.shared.m, j.pid, s.pcbs[j].st.mem)
  {
    hide AllMatch, Shared.Synchronous, Shared.Holds, Shared.Goal, Dispatch;
    MatchOf(s, privates, j);
    ProcIsPrivate(w.shared, privates, j.pid);
  }

  lemma DoneIsElsewhere(s0: Sys, ls: seq<Label>, j: Job)
    requires Initial(s0) && j in After(s0, ls).done
    ensures var s := After(s0, ls); j in s.pcbs && j in s0.procs && s.pcbs[j].place == Done
  {
    hide After, Initial, QueueOk, TimeOk, Counted, Statuses, CoresHold;
    EveryRunGood(s0, ls);
    var s := After(s0, ls);
    assert j in multiset(s.done);
    assert Is(s.pcbs, j, Done);
    hide Executes, Lists;
    assert s.procs == s0.procs by {
      SameProcs(s0, ls);
    }
  }

  lemma SameProcs(s0: Sys, ls: seq<Label>)
    requires Initial(s0)
    ensures After(s0, ls).procs == s0.procs
  {
    hide After, Initial, QueueOk, TimeOk, Counted, Orderly, Ran, Charged;
    EveryRunGood(s0, ls);
  }

  /** A faithful program that finishes in an allowed run, whatever else runs, is in the final state of its sequential
      run, and the shared memory holds every word of that state for it. */
  lemma WholeEndsInSequence(w: Whole, s: Sys, privates: map<int, Shared.Private>, acts: seq<Act>, j: Job)
    returns (n: nat)
    requires Starts(w, s, privates) && AllowedRun(w, privates, acts)
    requires j in s.procs && j in s.pcbs && Faithful(s.pcbs[j].st) && j in WholeAfter(w, acts).sys.done
    ensures j in WholeAfter(w, acts).sys.pcbs
    ensures var r, e := WholeAfter(w, acts), SeqRun(ArchOf(s.pcbs[j].st), n);
            AtStop(e) && Shared.EndedAs(r.shared.m, j.pid, r.sys.pcbs[j].st, e)
  {
    hide WholeAfter, AllowedRun, Alone, After, Faithful, Shared.Holds, Shared.Synchronous, AllMatch, SeqRun, AtStop;
    var ls := WholeRunIsProtocolRun(w, s, privates, acts);
    assert Initial(s);
    hide Starts, Initial;
    assert WholeAfter(w, acts).sys.done == After(s, ls).done;
    DoneIsElsewhere(s, ls, j);
    HeldBetweenSlices(WholeAfter(w, acts), After(s, ls), Alone(w, privates, acts), j);
    n := EndsInSequence(s, ls, j);
  }

  /** Schedule independence of the whole system: a faithful program that finishes is in the final state of its
      sequential run in every allowed run, with its registers, PC, printed values and every word of its memory in the
      shared memory, under every policy, quantum, number of cores, arrival order, set of competing processes, device
      behaviour and interleaving of steps and pipeline stages. */
  lemma WholeScheduleIndependence(w1: Whole, s1: Sys, privates1: map<int, Shared.Private>, acts1: seq<Act>,
                                  w2: Whole, s2: Sys, privates2: map<int, Shared.Private>, acts2: seq<Act>, j: Job)
    returns (n: nat)
    requires Starts(w1, s1, privates1) && AllowedRun(w1, privates1, acts1)
    requires Starts(w2, s2, privates2) && AllowedRun(w2, privates2, acts2)
    requires j in s1.procs && j in s2.procs && j in s1.pcbs && j in s2.pcbs
    requires s1.pcbs[j].st == s2.pcbs[j].st && Faithful(s1.pcbs[j].st)
    requires j in WholeAfter(w1, acts1).sys.done && j in WholeAfter(w2, acts2).sys.done
    ensures j in WholeAfter(w1, acts1).sys.pcbs && j in WholeAfter(w2, acts2).sys.pcbs
    ensures var r1, r2, e := WholeAfter(w1, acts1), WholeAfter(w2, acts2), SeqRun(ArchOf(s1.pcbs[j].st), n);
            && AtStop(e)
            && Shared.EndedAs(r1.shared.m, j.pid, r1.sys.pcbs[j].st, e)
            && Shared.EndedAs(r2.shared.m, j.pid, r2.sys.pcbs[j].st, e)
  {
    hide WholeAfter, AllowedRun, Starts, Faithful, Shared.EndedAs, SeqRun, AtStop;
    n := WholeEndsInSequence(w1, s1, privates1, acts1, j);
    var n2 := WholeEndsInSequence(w2, s2, privates2, acts2, j);
    StopIsUnique(ArchOf(s1.pcbs[j].st), n, n2);
  }
}
