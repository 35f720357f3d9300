/** Order in the ready queue over whole runs of the system, under each policy. */
module ProtocolQueue {
  import opened ReadyQueue
  import opened IoService
  import opened Protocol
  import opened ProtocolPlaces

  /** How many cores have a process. */
  function Held(cores: seq<Core>): (n: nat)
    ensures n <= |cores|
  {
    if cores == [] then 0 else Held(cores[..|cores| - 1]) + if HasJob(cores[|cores| - 1]) then 1 else 0
  }

  lemma {:induction false} HeldUpdate(cores: seq<Core>, c: nat, core: Core)
    requires c < |cores|
    ensures Held(cores[c := core])
            == Held(cores) - (if HasJob(cores[c]) then 1 else 0) + (if HasJob(core) then 1 else 0)
  {
    var n := |cores| - 1;
    if c < n {
      HeldUpdate(cores[..n], c, core);
      assert cores[c := core][..n] == cores[..n][c := core];
    } else {
      assert cores[c := core][..n] == cores[..n];
    }
  }

  lemma HeldNotAll(cores: seq<Core>, c: nat)
    requires c < |cores| && !HasJob(cores[c])
    ensures Held(cores) < |cores|
  {
    HeldUpdate(cores, c, Took(Job(0, 0, 0)));
  }

  /** The part pushed to the front and the processes on cores never outnumber the cores, and the rest of the queue is
      sorted. */
  ghost predicate QueueShape(s: Sys) {
    && SortedBehind(s.policy, s.queue, s.front)
    && s.front + Held(s.cores) <= |s.cores|
    && (Preemptive(s.policy) ==> s.front == 0)
  }

  /** Behind the pushed part the queue continues with the processes never dispatched, in arrival order, and then has
      only processes dispatched before. */
  ghost predicate Lined(queue: seq<Job>, procs: seq<Job>, started: seq<Job>, front: nat) {
    && started <= procs
    && var n := |procs| - |started|;
    && front + n <= |queue| && queue[front..front + n] == procs[|started|..]
    && forall i | 0 <= i < |queue| && !(front <= i < front + n) :: queue[i] in started
  }

  /** First dispatches have happened in arrival order. */
  ghost predicate ArrivalOrder(s: Sys) {
    && Lined(s.queue, s.procs, s.started, s.front)
    && (forall j | j in s.pcbs && s.pcbs[j].place != Queued :: j in s.started)
  }

  /** With a single core, a process pushed back is the one dispatched last, and it is next. */
  ghost predicate SingleCore(s: Sys) {
    |s.cores| == 1 ==>
      && (HasJob(s.cores[0]) ==> s.last == [s.cores[0].job])
      && (s.front > 0 ==> s.queue != [] && s.last == [s.queue[0]])
  }

  ghost predicate QueueOk(s: Sys) {
    QueueShape(s) && (!Sorts(s.policy) ==> ArrivalOrder(s)) && SingleCore(s)
  }

  // ---------------------------------------------------------------------------------------------------------------
  // Steps
  // ---------------------------------------------------------------------------------------------------------------

  /** Steps that leave the queue alone. */
  lemma SameQueue(s: Sys, r: Sys, c: nat, core: Core)
    requires Places(s) && QueueOk(s) && c < |s.cores| && r.cores == s.cores[c := core]
    requires HasJob(core) ==> HasJob(s.cores[c]) && core.job == s.cores[c].job
    requires r.policy == s.policy && r.procs == s.procs && r.queue == s.queue
    requires r.front == s.front && r.started == s.started && r.last == s.last && r.pcbs.Keys == s.pcbs.Keys
    requires forall j | j in s.pcbs :: r.pcbs[j].place == Queued <==> s.pcbs[j].place == Queued
    ensures QueueOk(r)
  {
    hide Places, SortedBehind, Held;
    HeldUpdate(s.cores, c, core);
  }

  /** A process never dispatched is taken. */
  lemma FirstDispatch(queue: seq<Job>, procs: seq<Job>, started: seq<Job>)
    requires Lined(queue, procs, started, 0) && |started| < |procs|
    ensures queue != [] && queue[0] == procs[|started|]
    ensures Lined(queue[1..], procs, started + [queue[0]], 0)
  {
    var n := |procs| - |started|;
    assert queue[0] == queue[0..n][0];
    var started' := started + [queue[0]];
    assert started' == procs[..|started'|];
    assert queue[1..][0..n - 1] == queue[0..n][1..];
    forall i | n - 1 <= i < |queue[1..]|
      ensures queue[1..][i] in started'
    {
      assert queue[1..][i] == queue[i + 1];
    }
  }

  /** A process dispatched before is taken. */
  lemma LaterDispatch(queue: seq<Job>, procs: seq<Job>, started: seq<Job>, front: nat)
    requires Lined(queue, procs, started, front) && queue != [] && (front > 0 || |started| == |procs|)
    ensures queue[0] in started
    ensures Lined(queue[1..], procs, started, if front > 0 then front - 1 else 0)
  {
    var n := |procs| - |started|;
    var front' := if front > 0 then front - 1 else 0;
    assert queue[1..][front'..front' + n] == queue[front..front + n];
    forall i | 0 <= i < |queue[1..]| && !(front' <= i < front' + n)
      ensures queue[1..][i] in started
    {
      assert queue[1..][i] == queue[i + 1];
    }
  }

  lemma GetKeepsArrivalOrder(s: Sys, r: Sys)
    requires Known(s) && ArrivalOrder(s) && s.queue != [] && !Sorts(s.policy)
    requires var j := s.queue[0];
             && r.queue == s.queue[1..] && r.procs == s.procs && r.front == Front(s.policy, s.front, Event.Got(j))
             && r.started == (if j in s.started then s.started else s.started + [j])
             && OnlyAt(s.pcbs, r.pcbs, j)
    ensures ArrivalOrder(r)
  {
    var n := |s.started|;
    if s.front == 0 && n < |s.procs| {
      FirstDispatch(s.queue, s.procs, s.started);
      hide Lined;
      assert s.procs[n] !in s.procs[..n];
    } else {
      LaterDispatch(s.queue, s.procs, s.started, s.front);
      hide Lined;
    }
  }

  lemma GetsKeepsQueue(s: Sys, c: nat)
    requires Places(s) && QueueOk(s) && Enabled(s, CoreGets(c))
    ensures QueueOk(AfterGets(s, c))
  {
    hide Lists, CoresHold, Held, Sorted;
    var r := AfterGets(s, c);
    if s.queue == [] {
      SameQueue(s, r, c, AtCheck);
    } else {
      var j := s.queue[0];
      HeldNotAll(s.cores, c);
      HeldUpdate(s.cores, c, Took(j));
      StaysSortedBehind(s.policy, s.queue, Event.Got(j), r.queue, s.front);
      hide SortedBehind;
      if !Sorts(s.policy) {
        GetKeepsArrivalOrder(s, r);
      }
    }
  }

  /** A process dispatched before joins the queue at its end. */
  lemma AddKeepsArrivalOrder(s: Sys, r: Sys, j: Job)
    requires ArrivalOrder(s) && !Sorts(s.policy) && j in s.started
    requires r.queue == s.queue + [j] && r.procs == s.procs && r.front == s.front && r.started == s.started
    requires OnlyAt(s.pcbs, r.pcbs, j)
    ensures ArrivalOrder(r)
  {
    var n := |s.procs| - |s.started|;
    assert r.queue[s.front..s.front + n] == s.queue[s.front..s.front + n];
  }

  lemma PreemptsKeepsQueue(s: Sys, c: nat, q: seq<Job>)
    requires Places(s) && QueueOk(s) && Enabled(s, CorePreempts(c, q))
    ensures QueueOk(AfterPreempts(s, c, q))
  {
    hide Lists, Held, Sorted;
    var j, r := s.cores[c].job, AfterPreempts(s, c, q);
    assert s.pcbs[j].place == OnCore(c);
    HeldUpdate(s.cores, c, AtCheck);
    StaysSortedBehind(s.policy, s.queue, Add(j), q, s.front);
    hide SortedBehind, CoresHold;
    AddKeepsArrivalOrder(s, r, j);
  }

  lemma MovesKeepsQueue(s: Sys, q: seq<Job>)
    requires Places(s) && QueueOk(s) && Enabled(s, WorkerMoves(q))
    ensures QueueOk(AfterMoves(s, q))
  {
    var j, r := s.blocked[s.worker.at], AfterMoves(s, q);
    ListedIs(s.blocked, s.pcbs, Parked, s.worker.at);
    hide Lists, Held, Sorted, CoresHold;
    StaysSortedBehind(s.policy, s.queue, Add(j), q, s.front);
    hide SortedBehind;
    if !Sorts(s.policy) {
      AddKeepsArrivalOrder(s, r, j);
    }
  }

  /** A process dispatched before goes to the front. */
  lemma PushKeepsArrivalOrder(s: Sys, r: Sys, j: Job)
    requires ArrivalOrder(s) && j in s.started
    requires r.queue == [j] + s.queue && r.procs == s.procs && r.front == s.front + 1 && r.started == s.started
    requires OnlyAt(s.pcbs, r.pcbs, j)
    ensures ArrivalOrder(r)
  {
    var n := |s.procs| - |s.started|;
    assert r.queue[r.front..r.front + n] == s.queue[s.front..s.front + n];
    forall i | 0 <= i < |r.queue| && !(r.front <= i < r.front + n)
      ensures r.queue[i] in r.started
    {
      assert i > 0 ==> r.queue[i] == s.queue[i - 1];
    }
  }

  lemma PushesKeepsQueue(s: Sys, c: nat)
    requires Places(s) && QueueOk(s) && Enabled(s, CorePushes(c))
    ensures QueueOk(AfterPushes(s, c))
  {
    hide Lists, Held, Sorted;
    var j, r := s.cores[c].job, AfterPushes(s, c);
    assert s.pcbs[j].place == OnCore(c);
    HeldUpdate(s.cores, c, AtCheck);
    StaysSortedBehind(s.policy, s.queue, Push(j), r.queue, s.front);
    hide SortedBehind, CoresHold;
    if !Sorts(s.policy) {
      PushKeepsArrivalOrder(s, r, j);
    }
  }

  /** Steps of a core that leave the queue alone. */
  lemma CoreStepKeepsQueue(s: Sys, l: Label)
    requires Places(s) && QueueOk(s) && Enabled(s, l)
    requires l.CoreChecks? || l.CoreAsks? || l.CoreRuns? || l.CoreRegisters? || l.CoreParks? || l.CoreFinishes?
    ensures QueueOk(Next(s, l))
  {
    hide Lists, QueueOk, Used, RunSlice, IoStep;
    var c, r := l.core, Next(s, l);
    if l.CoreRuns? {
      RunKeepsPlace(s.pcbs[s.cores[c].job], s.quantum);
    }
    SameQueue(s, r, c, r.cores[c]);
  }

  lemma RunKeepsPlace(p: Pcb, quantum: int)
    ensures RunSlice(p, quantum).place == p.place
  {
    hide Slices.Dispatch;
  }

  /** Steps of the IO side that leave the queue alone. */
  lemma OtherStepKeepsQueue(s: Sys, l: Label)
    requires QueueOk(s) && Enabled(s, l)
    requires l.WorkerChecks? || l.WorkerSkips? || l.WorkerErases? || l.WorkerEnds? || l.IoSteps?
    ensures QueueOk(Next(s, l))
  {
    hide SortedBehind, Held, Lined, IoStep, ParkedJobs;
  }

  lemma StepKeepsQueue(s: Sys, l: Label)
    requires Places(s) && QueueOk(s)
    ensures QueueOk(Next(s, l))
  {
    if Enabled(s, l) {
      hide Places, QueueOk, AfterChecks, AfterAsks, AfterGets, AfterRuns, AfterRegisters, AfterParks, AfterFinishes,
        AfterPreempts, AfterPushes, AfterMoves, AfterErases, AfterIo;
      match l
      case CoreGets(c) => GetsKeepsQueue(s, c);
      case CorePreempts(c, q) => PreemptsKeepsQueue(s, c, q);
      case CorePushes(c) => PushesKeepsQueue(s, c);
      case WorkerMoves(q) => MovesKeepsQueue(s, q);
      case CoreChecks(_) => CoreStepKeepsQueue(s, l);
      case CoreAsks(_) => CoreStepKeepsQueue(s, l);
      case CoreRuns(_) => CoreStepKeepsQueue(s, l);
      case CoreRegisters(_) => CoreStepKeepsQueue(s, l);
      case CoreParks(_) => CoreStepKeepsQueue(s, l);
      case CoreFinishes(_) => CoreStepKeepsQueue(s, l);
      case _ => OtherStepKeepsQueue(s, l);
    }
  }

  lemma {:induction false} NoneHeld(cores: seq<Core>)
    requires forall c | 0 <= c < |cores| :: !HasJob(cores[c])
    ensures Held(cores) == 0
  {
    if cores != [] {
      NoneHeld(cores[..|cores| - 1]);
    }
  }

  lemma InitialQueue(s: Sys)
    requires Initial(s)
    ensures QueueOk(s)
  {
    NoneHeld(s.cores);
    assert s.queue[0..] == s.queue;
    assert s.queue[0..|s.queue|] == s.queue && s.procs[0..] == s.procs;
  }
}
