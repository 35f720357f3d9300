/** What holds in every run of the multicore simulation: any policy, any number of cores, any interleaving. */
module ProtocolResults {
  import opened Words
  import opened Isa
  import opened Pipeline
  import opened PipelineRefinement
  import opened Slices
  import opened ReadyQueue
  import opened IoService
  import opened Protocol
  import opened ProtocolPlaces
  import opened ProtocolStatus
  import opened ProtocolQueue
  import opened ProtocolExecution

  ghost predicate Good(s: Sys, s0: Sys) {
    Orderly(s) && QueueOk(s) && Counted(s) && TimeOk(s) && Executes(s, s0)
  }

  lemma StepGood(s: Sys, s0: Sys, l: Label)
    requires Good(s, s0)
    ensures Good(Next(s, l), s0)
  {
    hide Orderly, QueueOk, Counted, TimeOk, Executes, Next;
    StepKeepsOrderly(s, l);
    assert Places(s) by { OrderlyPlaces(s); }
    StepKeepsQueue(s, l);
    StepCounted(s, l);
    StepTimeOk(s, l);
    StepExecutes(s, s0, l);
  }

  lemma OrderlyPlaces(s: Sys)
    requires Orderly(s)
    ensures Places(s) && Statuses(s)
  {
    hide Places, Statuses;
  }

  lemma {:induction false} EveryRunGood(s0: Sys, ls: seq<Label>)
    requires Initial(s0)
    ensures Good(After(s0, ls), s0)
  {
    hide Good, Next;
    if ls == [] {
      InitialOrderly(s0);
      InitialQueue(s0);
      InitialExecution(s0);
      assert Good(s0, s0) by {
        GoodInitially(s0);
      }
    } else {
      EveryRunGood(s0, ls[..|ls| - 1]);
      StepGood(After(s0, ls[..|ls| - 1]), s0, ls[|ls| - 1]);
    }
  }

  lemma GoodInitially(s: Sys)
    requires Initial(s)
    ensures Good(s, s)
  {
    InitialOrderly(s);
    InitialQueue(s);
    InitialExecution(s);
    hide Orderly, QueueOk, Counted, TimeOk, Executes;
  }

  // ---------------------------------------------------------------------------------------------------------------
  // Places
  // ---------------------------------------------------------------------------------------------------------------

  /** The cores that have a process. */
  function CoresWith(s: Sys, j: Job): set<nat> {
    set c: nat | c < |s.cores| && HasJob(s.cores[c]) && s.cores[c].job == j
  }

  lemma CoresWithPlace(s: Sys, j: Job)
    requires Places(s) && j in s.procs
    ensures var p := s.pcbs[j].place;
            CoresWith(s, j) == if p.OnCore? || p.Transit? then {p.core} else {}
  {
    hide Lists;
    var p := s.pcbs[j].place;
    forall c | c in CoresWith(s, j)
      ensures (p.OnCore? || p.Transit?) && p.core == c
    {
      assert Is(s.pcbs, s.cores[c].job, if s.cores[c].Registered? then Transit(c) else OnCore(c));
    }
  }

  /** In every interleaving each process is in exactly one place, once: the ready queue, one core, the blocked list (not
      counting an entry about to be erased) or among the finished. */
  lemma ExactlyOnePlace(s0: Sys, ls: seq<Label>, j: Job)
    requires Initial(s0) && j in s0.procs
    ensures var s := After(s0, ls);
            multiset(s.queue)[j] + |CoresWith(s, j)| + multiset(ParkedJobs(s))[j] + multiset(s.done)[j] == 1
  {
    hide After, QueueOk, Counted, TimeOk, Statuses;
    EveryRunGood(s0, ls);
    var s := After(s0, ls);
    CoresWithPlace(s, j);
    hide CoresWith, CoresHold;
    assert multiset(s.queue)[j] == if Is(s.pcbs, j, Queued) then 1 else 0;
    assert multiset(ParkedJobs(s))[j] == if Is(s.pcbs, j, Parked) then 1 else 0;
    assert multiset(s.done)[j] == if Is(s.pcbs, j, Done) then 1 else 0;
  }

  /** The IO manager holds a process at most once and exactly while it is blocked; a process that was registered for
      IO and is not held any more is Ready, so that a completion is not lost even if it comes before the process
      reaches the blocked list. */
  lemma IoHoldsTheBlocked(s0: Sys, ls: seq<Label>, j: Job)
    requires Initial(s0) && j in s0.procs
    ensures var s := After(s0, ls);
            && j in s.pcbs && multiset(InIo(s.io))[j] <= 1
            && (j in InIo(s.io) <==> AwaitsIo(s.pcbs[j]))
            && (j in ParkedJobs(s) || (exists c | 0 <= c < |s.cores| :: s.cores[c] == Registered(j)) ==>
                  j in InIo(s.io) || s.pcbs[j].status == Ready)
            && s.io.completed + InService(s.io) + s.io.waiting == s.io.registered
  {
    hide After, QueueOk, Counted, TimeOk;
    EveryRunGood(s0, ls);
    var s := After(s0, ls);
    OrderlyPlaces(s);
    hide Executes;
    assert j in InIo(s.io) <==> j in multiset(InIo(s.io));
    assert multiset(InIo(s.io))[j] == if j in s.pcbs && AwaitsIo(s.pcbs[j]) then 1 else 0;
    hide IoHolds, InIo;
    assert StatusFits(s.pcbs[j], s.policy, s.cores);
    if j in ParkedJobs(s) {
      assert multiset(ParkedJobs(s))[j] >= 1;
    } else if c :| 0 <= c < |s.cores| && s.cores[c] == Registered(j) {
      assert Is(s.pcbs, j, Transit(c));
    }
  }

  lemma SubBag<T>(a: multiset<T>, b: multiset<T>)
    requires a <= b && |a| >= |b|
    ensures a == b
  {
    assert b == a + (b - a);
  }

  lemma DoneBag(s: Sys)
    requires Places(s)
    ensures multiset(s.done) <= multiset(s.procs)
  {
    forall j
      ensures multiset(s.done)[j] <= multiset(s.procs)[j]
    {
      assert j in multiset(s.procs) <==> j in s.procs;
    }
  }

  predicate SomeThreadStopped(s: Sys) {
    s.worker.Stopped? || exists c | 0 <= c < |s.cores| :: s.cores[c].Exited?
  }

  ghost predicate FinishedOnce(s: Sys, j: Job) {
    j in s.pcbs && s.pcbs[j].status == Finished && multiset(s.done)[j] == 1
  }

  lemma AllDoneWhenStopped(s: Sys)
    requires Orderly(s) && Counted(s)
    ensures s.finished == |s.done| <= |s.procs|
    ensures SomeThreadStopped(s) ==> multiset(s.done) == multiset(s.procs)
  {
    DoneBag(s);
    hide Orderly;
    var a, b := multiset(s.done), multiset(s.procs);
    assert b == a + (b - a);
    assert |a| == |s.done| && |b| == |s.procs|;
    if SomeThreadStopped(s) {
      SubBag(a, b);
    }
  }

  /** Each process is counted once when it is finished, and a core or the IO worker stops only when all are: then the
      finished processes are all the processes, and none is anywhere else. */
  lemma StopsWhenAllFinished(s0: Sys, ls: seq<Label>)
    requires Initial(s0)
    ensures var s := After(s0, ls);
            && s.finished == |s.done| <= |s0.procs|
            && (forall j | j in s.done :: FinishedOnce(s, j))
            && (SomeThreadStopped(s) ==>
                  && multiset(s.done) == multiset(s0.procs) && s.queue == []
                  && forall j | j in s0.procs :: FinishedOnce(s, j))
  {
    hide After, QueueOk, TimeOk, Orderly, Counted, Ran, Charged, FinishedOnce, SomeThreadStopped, Initial;
    EveryRunGood(s0, ls);
    var s := After(s0, ls);
    AllDoneWhenStopped(s);
    forall j | j in s.done
      ensures FinishedOnce(s, j)
    {
      DoneIsFinished(s, j);
    }
    if SomeThreadStopped(s) {
      AllDone(s);
    }
  }

  lemma DoneIsFinished(s: Sys, j: Job)
    requires Orderly(s) && j in s.done
    ensures FinishedOnce(s, j)
  {
    hide IoHolds, InOrder, CoresHold;
    assert j in multiset(s.done);
    assert Is(s.pcbs, j, Done);
    assert StatusFits(s.pcbs[j], s.policy, s.cores);
  }

  lemma AllDone(s: Sys)
    requires Orderly(s) && multiset(s.done) == multiset(s.procs)
    ensures s.queue == [] && forall j | j in s.procs :: FinishedOnce(s, j)
  {
    hide IoHolds, InOrder, CoresHold;
    forall j | j in s.procs
      ensures FinishedOnce(s, j) && s.pcbs[j].place == Done
    {
      assert j in multiset(s.done);
      DoneIsFinished(s, j);
      assert Is(s.pcbs, j, Done);
    }
    if s.queue != [] {
      ListedIs(s.queue, s.pcbs, Queued, 0);
    }
  }

  // ---------------------------------------------------------------------------------------------------------------
  // Results of the programs
  // ---------------------------------------------------------------------------------------------------------------

  lemma RanInRun(s0: Sys, ls: seq<Label>, j: Job)
    requires Initial(s0) && j in s0.procs
    ensures var s := After(s0, ls);
            && j in s0.pcbs && j in s.pcbs && s.quantum == s0.quantum
            && Ran(s.pcbs[j], s0.pcbs[j].st, s0.quantum) && s0.pcbs[j].st.state != Finished
  {
    hide After, QueueOk, TimeOk, Counted, Orderly, Ran, Charged;
    EveryRunGood(s0, ls);
  }

  /** A program the pipeline runs faithfully: its sequential run stores safely and never jumps over a stop word. */
  ghost predicate Faithful(start: St) {
    StoresSafe(ArchOf(start)) && JumpsSafe(ArchOf(start))
  }

  /** A faithful program that finishes is in the final state of its sequential run. */
  lemma EndsInSequence(s0: Sys, ls: seq<Label>, j: Job) returns (n: nat)
    requires Initial(s0) && j in s0.procs && j in s0.pcbs && Faithful(s0.pcbs[j].st)
    requires j in After(s0, ls).done
    ensures j in After(s0, ls).pcbs
    ensures var e := SeqRun(ArchOf(s0.pcbs[j].st), n); AtStop(e) && ArchOf(After(s0, ls).pcbs[j].st) == e
  {
    hide After, Initial, StoresSafe, JumpsSafe, Dispatches, Repeat, SeqRun, AtStop;
    RanInRun(s0, ls, j);
    FinishedIfDone(s0, ls, j);
    n := FinishesInSequence(s0.pcbs[j].st, Repeat(s0.quantum, After(s0, ls).pcbs[j].slices));
  }

  /** Schedule independence: a faithful program that finishes leaves the same registers, memory, PC and printed values
      in every run, under every policy, quantum, number of cores, arrival order, set of competing processes, device
      behaviour and interleaving, provided that its memory is its own: the slices of Protocol run on a private flat
      memory. That the shared memory manager provides one, and when, is what SharedMemory shows. */
  lemma ScheduleIndependence(s1: Sys, ls1: seq<Label>, s2: Sys, ls2: seq<Label>, j: Job)
    requires Initial(s1) && Initial(s2) && j in s1.procs && j in s2.procs && s1.pcbs[j].st == s2.pcbs[j].st
    requires Faithful(s1.pcbs[j].st)
    requires j in After(s1, ls1).done && j in After(s2, ls2).done
    ensures j in After(s1, ls1).pcbs && j in After(s2, ls2).pcbs
    ensures ArchOf(After(s1, ls1).pcbs[j].st) == ArchOf(After(s2, ls2).pcbs[j].st)
  {
    hide After, Initial, Faithful, SeqRun, AtStop;
    RanInRun(s1, ls1, j);
    RanInRun(s2, ls2, j);
    var n1 := EndsInSequence(s1, ls1, j);
    var n2 := EndsInSequence(s2, ls2, j);
    StopIsUnique(ArchOf(s1.pcbs[j].st), n1, n2);
  }

  lemma FinishedIfDone(s0: Sys, ls: seq<Label>, j: Job)
    requires Initial(s0) && j in After(s0, ls).done
    ensures var s := After(s0, ls); j in s.pcbs && s.pcbs[j].status == Finished
  {
    hide After, Initial, QueueOk, TimeOk, Counted, Orderly, Executes;
    EveryRunGood(s0, ls);
    DoneIsFinished(After(s0, ls), j);
  }

  /** Progress: a faithful program that stops after `n` sequential steps is given at most `n + 1` slices, in any run. */
  lemma SlicesBounded(s0: Sys, ls: seq<Label>, j: Job, n: nat)
    requires Initial(s0) && j in s0.procs && j in s0.pcbs
    requires Faithful(s0.pcbs[j].st) && AtStop(SeqRun(ArchOf(s0.pcbs[j].st), n))
    ensures var s := After(s0, ls); j in s.pcbs && s.pcbs[j].slices <= n + 1
  {
    hide After, Initial, StoresSafe, JumpsSafe, Dispatches, Repeat, AtStop, SeqRun;
    RanInRun(s0, ls, j);
    var k := After(s0, ls).pcbs[j].slices;
    if k > n + 1 {
      DispatchesFinish(s0.pcbs[j].st, Repeat(s0.quantum, k - 1), n);
    }
  }

  function SliceCounts(procs: seq<Job>, pcbs: map<Job, Pcb>): (counts: seq<nat>)
    requires forall j | j in procs :: j in pcbs
    ensures |counts| == |procs| && forall i | 0 <= i < |procs| :: counts[i] == pcbs[procs[i]].slices
  {
    seq<nat>(|procs|, i requires 0 <= i < |procs| => pcbs[procs[i]].slices)
  }

  lemma {:induction false} TotalMonotone(a: seq<nat>, b: seq<nat>)
    requires |a| == |b| && forall i | 0 <= i < |a| :: a[i] <= b[i]
    ensures Total(a) <= Total(b)
  {
    if a != [] {
      TotalMonotone(a[..|a| - 1], b[..|b| - 1]);
    }
  }

  /** All slices of a run together are no more than all instructions of the programs, their stop words included:
      `steps[i]` is the number of sequential steps of the i-th program. */
  lemma AllSlicesBounded(s0: Sys, ls: seq<Label>, steps: seq<nat>)
    requires Initial(s0) && |steps| == |s0.procs|
    requires forall i | 0 <= i < |s0.procs| ::
               && s0.procs[i] in s0.pcbs && steps[i] >= 1
               && var start := s0.pcbs[s0.procs[i]].st;
               Faithful(start) && AtStop(SeqRun(ArchOf(start), steps[i] - 1))
    ensures var s := After(s0, ls);
            && (forall j | j in s0.procs :: j in s.pcbs)
            && Total(SliceCounts(s0.procs, s.pcbs)) <= Total(steps)
  {
    hide After, Initial, Faithful, AtStop, SeqRun, Total;
    var s := After(s0, ls);
    forall i | 0 <= i < |s0.procs|
      ensures s0.procs[i] in s.pcbs && s.pcbs[s0.procs[i]].slices <= steps[i]
    {
      SlicesBounded(s0, ls, s0.procs[i], steps[i] - 1);
    }
    TotalMonotone(SliceCounts(s0.procs, s.pcbs), steps);
  }

  // ---------------------------------------------------------------------------------------------------------------
  // Time and order
  // ---------------------------------------------------------------------------------------------------------------

  /** In every run the processes together were charged exactly the time the cores were busy, each core's clock shows its
      busy time, and each process was charged the cycles of its own pipeline. */
  lemma TimeConserved(s0: Sys, ls: seq<Label>)
    requires Initial(s0)
    ensures var s := After(s0, ls);
            && (forall j | j in s0.procs :: j in s.pcbs && j in s0.pcbs && Charged(s.pcbs[j], s0.pcbs[j].st))
            && Total(CpuTimes(s0.procs, s.pcbs)) == Total(s.busy) && s.clock == s.busy
  {
    hide After, QueueOk, Counted, Orderly, Ran, Charged;
    EveryRunGood(s0, ls);
  }

  /** In every run, interrupted processes at the front of the queue and processes on cores never outnumber the cores,
      and the rest of the queue is sorted; under FCFS and RR first dispatches happen in arrival order; with a single
      core an interrupted process is the one dispatched last, and it is next. */
  lemma QueueInRun(s0: Sys, ls: seq<Label>)
    requires Initial(s0)
    ensures var s := After(s0, ls);
            && s.front + Held(s.cores) <= |s.cores| && SortedBehind(s.policy, s.queue, s.front)
            && (s.policy == RR ==> s.front == 0)
            && (s.policy in {FCFS, RR} ==> s.started <= s0.procs)
            && (|s.cores| == 1 && s.front > 0 ==> s.queue != [] && s.last == [s.queue[0]])
  {
    hide After, TimeOk, Counted, Orderly, Held, SortedBehind;
    EveryRunGood(s0, ls);
    hide Ran, Charged;
  }

  /** The step, among those taken, in which a process last reached the blocked list. */
  ghost function LastPark(s0: Sys, ls: seq<Label>, j: Job): (n: int)
    ensures n < |ls|
  {
    if ls == [] then -1
    else
      var n, l := |ls| - 1, ls[|ls| - 1];
      var s := After(s0, ls[..n]);
      if l.CoreParks? && Enabled(s, l) && s.cores[l.core].job == j then n else LastPark(s0, ls[..n], j)
  }

  ghost predicate InParkingOrder(s0: Sys, ls: seq<Label>, q: seq<Job>) {
    forall i, k | 0 <= i < k < |q| :: LastPark(s0, ls, q[i]) < LastPark(s0, ls, q[k])
  }

  /** What a step does to the blocked list. */
  lemma {:induction false} BlockedStep(s: Sys, l: Label)
    requires Places(s)
    ensures var r := Next(s, l);
            if l.CoreParks? && Enabled(s, l) then
              r.blocked == s.blocked + [s.cores[l.core].job] && s.cores[l.core].job !in s.blocked
            else
              r.blocked == s.blocked
              || (s.worker.Moved? && s.worker.at < |s.blocked|
                  && r.blocked == s.blocked[..s.worker.at] + s.blocked[s.worker.at + 1..])
  {
    hide IoStep, RunSlice, Used;
    if l.CoreParks? && Enabled(s, l) {
      var j := s.cores[l.core].job;
      assert Is(s.pcbs, j, Transit(l.core));
      assert multiset(ParkedJobs(s))[j] == 0;
    }
  }

  /** In every run the IO worker finds the processes on the blocked list in the order in which they got there. */
  lemma {:induction false} BlockedInOrder(s0: Sys, ls: seq<Label>)
    requires Initial(s0)
    ensures InParkingOrder(s0, ls, After(s0, ls).blocked)
  {
    if ls != [] {
      var n := |ls| - 1;
      var s := After(s0, ls[..n]);
      BlockedInOrder(s0, ls[..n]);
      assert Places(s) by { PlacesInRun(s0, ls[..n]); }
      BlockedStep(s, ls[n]);
      hide Places, Enabled, Next;
    }
  }

  lemma PlacesInRun(s0: Sys, ls: seq<Label>)
    requires Initial(s0)
    ensures Places(After(s0, ls)) && Orderly(After(s0, ls)) && TimeOk(After(s0, ls))
  {
    hide After, QueueOk, Counted, Orderly, TimeOk, Executes;
    EveryRunGood(s0, ls);
    OrderlyPlaces(After(s0, ls));
  }

  /** The core whose step it is. */
  function CoreOf(l: Label): Option<nat> {
    match l
    case CoreChecks(c) => Some(c)
    case CoreAsks(c) => Some(c)
    case CoreGets(c) => Some(c)
    case CoreRuns(c) => Some(c)
    case CoreRegisters(c) => Some(c)
    case CoreParks(c) => Some(c)
    case CoreFinishes(c) => Some(c)
    case CorePreempts(c, _) => Some(c)
    case CorePushes(c) => Some(c)
    case _ => None
  }

  /** A step of a core changes the control block of its own process only, or of the one it takes. */
  lemma {:induction false} DoneStaysByCore(s: Sys, l: Label, j: Job)
    requires Places(s) && Is(s.pcbs, j, Done) && Enabled(s, l) && CoreOf(l).Some?
    ensures var r := Next(s, l); Is(r.pcbs, j, Done) && r.pcbs[j] == s.pcbs[j]
  {
    hide IoStep, RunSlice, Used, Added;
    if l.CoreGets? && s.queue != [] {
      ListedIs(s.queue, s.pcbs, Queued, 0);
    }
    hide Lists;
    var c := l.core;
    if HasJob(s.cores[c]) {
      assert Is(s.pcbs, s.cores[c].job, if s.cores[c].Registered? then Transit(c) else OnCore(c));
    }
  }

  /** The processes the IO side has in hand are not finished. */
  lemma {:induction false} NotInHand(s: Sys, j: Job)
    requires Orderly(s) && Is(s.pcbs, j, Done)
    ensures s.worker.Scanning? && s.worker.at < |s.blocked| ==> s.blocked[s.worker.at] != j
    ensures s.io.phase.Serving? ==> s.io.phase.request.job != j
  {
    hide CoresHold, InOrder, StatusFits;
    if s.worker.Scanning? && s.worker.at < |s.blocked| {
      ListedIs(s.blocked, s.pcbs, Parked, s.worker.at);
    }
    if s.io.phase.Serving? {
      assert multiset(InIo(s.io))[s.io.phase.request.job] > 0;
    }
  }

  lemma {:induction false} DoneStays(s: Sys, l: Label, j: Job)
    requires Orderly(s) && Is(s.pcbs, j, Done)
    ensures var r := Next(s, l); Is(r.pcbs, j, Done) && r.pcbs[j] == s.pcbs[j]
  {
    if Enabled(s, l) {
      hide Orderly, IoStep, Added, AfterChecks, AfterAsks, AfterGets, AfterRuns, AfterRegisters, AfterParks,
        AfterFinishes, AfterPreempts, AfterPushes;
      NotInHand(s, j);
      if CoreOf(l).Some? {
        DoneStaysByCore(s, l, j) by { OrderlyPlaces(s); }
      }
    }
  }

  lemma {:induction false} DoneStaysInRun(s0: Sys, ls: seq<Label>, later: seq<Label>, j: Job)
    requires Initial(s0) && Is(After(s0, ls).pcbs, j, Done)
    ensures var s, r := After(s0, ls), After(s0, ls + later); Is(r.pcbs, j, Done) && r.pcbs[j] == s.pcbs[j]
  {
    hide Orderly, Next;
    if later == [] {
      assert ls + later == ls;
    } else {
      var n := |later| - 1;
      DoneStaysInRun(s0, ls, later[..n], j);
      PlacesInRun(s0, ls + later[..n]);
      DoneStays(After(s0, ls + later[..n]), later[n], j);
      assert (ls + later)[..|ls + later| - 1] == ls + later[..n];
    }
  }

  lemma {:induction false} FinishStep(s: Sys, c: nat)
    requires Enabled(s, CoreFinishes(c))
    ensures var j, r := s.cores[c].job, Next(s, CoreFinishes(c));
            Is(r.pcbs, j, Done) && r.pcbs[j].status == Finished && r.pcbs[j].finishTime == s.clock[c]
  {
  }

  /** The finish time of a process is the time the core that finished it had been busy until then, and nothing that
      happens later changes it. */
  lemma FinishTimeKept(s0: Sys, ls: seq<Label>, c: nat, later: seq<Label>)
    requires Initial(s0) && Enabled(After(s0, ls), CoreFinishes(c))
    ensures var s, r := After(s0, ls), After(s0, ls + [CoreFinishes(c)] + later);
            var j := s.cores[c].job;
            && c < |s.busy| && j in r.pcbs && r.pcbs[j].status == Finished && r.pcbs[j].finishTime == s.busy[c]
  {
    var s, done := After(s0, ls), ls + [CoreFinishes(c)];
    PlacesInRun(s0, ls);
    FinishStep(s, c);
    hide Next;
    assert done[..|done| - 1] == ls;
    DoneStaysInRun(s0, done, later, s.cores[c].job);
  }

  // ---------------------------------------------------------------------------------------------------------------
  // Nobody gets stuck
  // ---------------------------------------------------------------------------------------------------------------

  /** In every run each core can take a step of its own unless it has stopped or waits for the lock of the blocked list,
      which the worker then holds and can proceed with. */
  lemma CoresCanStep(s0: Sys, ls: seq<Label>, c: nat) returns (l: Label)
    requires Initial(s0) && c < |After(s0, ls).cores| && !After(s0, ls).cores[c].Exited?
    ensures var s := After(s0, ls);
            && Enabled(s, l)
            && (CoreOf(l) == Some(c)
                || (s.cores[c].Registered? && LockHeld(s.worker)
                    && (l.WorkerSkips? || l.WorkerMoves? || l.WorkerErases? || l.WorkerEnds?)))
  {
    hide After, QueueOk, TimeOk, Counted, Executes;
    EveryRunGood(s0, ls);
    var s := After(s0, ls);
    OrderlyPlaces(s);
    if s.cores[c].Registered? && LockHeld(s.worker) {
      l := WorkerCanStep(s);
    } else {
      l := CoreCanStep(s, c);
    }
  }

  lemma CoreCanStep(s: Sys, c: nat) returns (l: Label)
    requires Orderly(s) && c < |s.cores| && !s.cores[c].Exited? && !(s.cores[c].Registered? && LockHeld(s.worker))
    ensures Enabled(s, l) && CoreOf(l) == Some(c)
  {
    hide IoHolds, InOrder, Added;
    match s.cores[c]
    case AtCheck => l := CoreChecks(c);
    case AtHasProcesses => l := CoreAsks(c);
    case AtGet =>
      if s.queue != [] {
        ListedIs(s.queue, s.pcbs, Queued, 0);
      }
      l := CoreGets(c);
    case Took(_) => l := CoreRuns(c);
    case Registered(_) => l := CoreParks(c);
    case Sliced(j) =>
      var status := s.pcbs[j].status;
      if status == Blocked {
        l := CoreRegisters(c);
      } else if status == Finished {
        l := CoreFinishes(c);
      } else if Preemptive(s.policy) {
        var q := CanAdd(s.policy, s.queue, j);
        l := CorePreempts(c, q);
      } else {
        l := CorePushes(c);
      }
  }

  lemma WorkerCanStep(s: Sys) returns (l: Label)
    requires Places(s) && LockHeld(s.worker)
    ensures Enabled(s, l) && (l.WorkerSkips? || l.WorkerMoves? || l.WorkerErases? || l.WorkerEnds?)
  {
    hide CoresHold, Added, Lists;
    if s.worker.Moved? {
      l := WorkerErases;
    } else if s.worker.at == |s.blocked| {
      l := WorkerEnds;
    } else {
      ListedIs(s.blocked, s.pcbs, Parked, s.worker.at);
      var j := s.blocked[s.worker.at];
      if s.pcbs[j].status == Ready {
        var q := CanAdd(s.policy, s.queue, j);
        l := WorkerMoves(q);
      } else {
        l := WorkerSkips;
      }
    }
  }

  // ---------------------------------------------------------------------------------------------------------------
  // Interrupted processes
  // ---------------------------------------------------------------------------------------------------------------

  /** Where an interrupted process goes, by the policy's name: behind all others under round robin, and in front of them
      under the three other policies. */
  lemma {:induction false} InterruptedReturns(s: Sys, c: nat, l: Label)
    requires IsSliced(s, c) && StatusAt(s, c) != Blocked && StatusAt(s, c) != Finished
    requires Enabled(s, l) && CoreOf(l) == Some(c)
    ensures var j, r := s.cores[c].job, Next(s, l);
            && r.cores == s.cores[c := AtCheck] && j in r.pcbs && r.pcbs[j].place == Queued
            && (s.policy == RR ==> r.queue == s.queue + [j] && r.pcbs[j].status == Ready)
            && (s.policy != RR ==> r.queue == [j] + s.queue && r.pcbs[j].status == Running)
  {
  }

  /** A process at the front of the queue of a single core that is looking for work. */
  predicate IsNext(s: Sys, j: Job) {
    |s.cores| == 1 && s.cores[0] in {AtCheck, AtHasProcesses, AtGet} && s.queue != [] && s.queue[0] == j
  }

  /** Steps that take nothing from the queue and do not sort it. */
  predicate LeavesFront(policy: Policy, l: Label) {
    !l.CoreGets? && (policy == FCFS || !l.WorkerMoves?)
  }

  lemma {:induction false} StaysNextByStep(s: Sys, l: Label, j: Job)
    requires IsNext(s, j) && LeavesFront(s.policy, l)
    ensures IsNext(Next(s, l), j) && Next(s, l).policy == s.policy
  {
    hide IoStep, ParkedJobs;
  }

  lemma {:induction false} StaysNext(s: Sys, ls: seq<Label>, j: Job)
    requires IsNext(s, j) && forall l | l in ls :: LeavesFront(s.policy, l)
    ensures IsNext(After(s, ls), j) && After(s, ls).policy == s.policy
  {
    hide IsNext, LeavesFront, Next;
    if ls != [] {
      StaysNext(s, ls[..|ls| - 1], j);
      StaysNextByStep(After(s, ls[..|ls| - 1]), ls[|ls| - 1], j);
    }
  }

  /** Without round robin a single core goes on with the process it was interrupted in, whatever the threads do before
      it takes the next process; under SJN and Priority this holds until a completed IO has the queue sorted again. */
  lemma {:induction false} InterruptedGoesOn(s: Sys, l: Label, ls: seq<Label>)
    requires |s.cores| == 1 && IsSliced(s, 0) && StatusAt(s, 0) != Blocked && StatusAt(s, 0) != Finished
    requires Enabled(s, l) && CoreOf(l) == Some(0) && s.policy != RR
    requires forall k | k in ls :: !k.CoreGets? && (s.policy == FCFS || !k.WorkerMoves?)
    ensures var r := After(Next(s, l), ls);
            Enabled(r, CoreGets(0)) ==> Next(r, CoreGets(0)).cores == [Took(s.cores[0].job)]
  {
    var j, s1 := s.cores[0].job, Next(s, l);
    InterruptedReturns(s, 0, l);
    assert s1.policy == s.policy;
    assert forall k | k in ls :: LeavesFront(s1.policy, k);
    StaysNext(s1, ls, j);
    var r := After(s1, ls);
    hide After;
    if Enabled(r, CoreGets(0)) {
      assert r.cores == [AtGet];
      assert Next(r, CoreGets(0)) == AfterGets(r, 0);
    }
  }
}
