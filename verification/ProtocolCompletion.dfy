/** Every run can be completed, and no run moves processes about for ever. */
module ProtocolCompletion {
  import opened Pipeline
  import opened PipelineRefinement
  import opened Isa
  import opened ReadyQueue
  import opened IoService
  import opened Protocol
  import opened ProtocolPlaces
  import opened ProtocolStatus
  import opened ProtocolQueue
  import opened ProtocolExecution
  import opened ProtocolResults

  // ---------------------------------------------------------------------------------------------------------------
  // Work left
  // ---------------------------------------------------------------------------------------------------------------

  /** How far a process is from its next place on a core, on its way round by the IO manager. */
  function Stage(p: Pcb): nat {
    match p.place
    case Queued => 4
    case OnCore(_) => 3
    case Transit(_) => if p.status == Blocked then 8 else 7
    case Parked => if p.status == Blocked then 6 else 5
    case Done => 0
  }

  /** Work left of a process that gets at most `limit` slices. */
  function Weight(p: Pcb, limit: nat): nat {
    if p.place.Done? then 0 else 10 * (if p.slices <= limit then limit - p.slices else 0) + Stage(p)
  }

  function WeightOf(pcbs: map<Job, Pcb>, limits: map<Job, nat>, j: Job): nat {
    if j in pcbs && j in limits then Weight(pcbs[j], limits[j]) else 0
  }

  function Weights(procs: seq<Job>, pcbs: map<Job, Pcb>, limits: map<Job, nat>): (ws: seq<nat>)
    ensures |ws| == |procs| && forall i | 0 <= i < |procs| :: ws[i] == WeightOf(pcbs, limits, procs[i])
  {
    seq<nat>(|procs|, i requires 0 <= i < |procs| => WeightOf(pcbs, limits, procs[i]))
  }

  /** A core that ran a slice has yet to put the process away. */
  function CoreWeight(c: Core): nat {
    if c.Sliced? then 6 else 0
  }

  function CoreWeights(cores: seq<Core>): (ws: seq<nat>)
    ensures |ws| == |cores| && forall c | 0 <= c < |cores| :: ws[c] == CoreWeight(cores[c])
  {
    seq<nat>(|cores|, c requires 0 <= c < |cores| => CoreWeight(cores[c]))
  }

  function Work(s: Sys, limits: map<Job, nat>): nat {
    Total(Weights(s.procs, s.pcbs, limits)) + Total(CoreWeights(s.cores))
  }

  /** The step takes a process on: to another place, through a slice, or to the end of its IO operation. */
  ghost predicate Moves(s: Sys, l: Label) {
    Enabled(s, l) &&
    match l
    case CoreGets(_) => s.queue != []
    case IoSteps(_, _) => s.io.phase.Serving?
    case WorkerMoves(_) => true
    case _ => l.CoreRuns? || l.CoreRegisters? || l.CoreParks? || l.CoreFinishes? || l.CorePreempts? || l.CorePushes?
  }

  lemma WeightsChange(procs: seq<Job>, pcbs: map<Job, Pcb>, pcbs': map<Job, Pcb>, limits: map<Job, nat>, j: Job)
    requires forall k :: k in pcbs <==> k in procs
    requires forall i, k | 0 <= i < k < |procs| :: procs[i] != procs[k]
    requires OnlyAt(pcbs, pcbs', j)
    ensures Total(Weights(procs, pcbs', limits))
            == Total(Weights(procs, pcbs, limits)) - WeightOf(pcbs, limits, j) + WeightOf(pcbs', limits, j)
  {
    hide Total, Weights, WeightOf;
    var i :| 0 <= i < |procs| && procs[i] == j;
    var ws := Weights(procs, pcbs, limits);
    forall k | 0 <= k < |procs| && k != i
      ensures WeightOf(pcbs', limits, procs[k]) == WeightOf(pcbs, limits, procs[k])
    {
      SameWeight(pcbs, pcbs', limits, j, procs[k]);
    }
    assert Weights(procs, pcbs', limits) == ws[i := WeightOf(pcbs', limits, j)];
    TotalUpdate(ws, i, WeightOf(pcbs', limits, j));
  }

  lemma SameWeight(pcbs: map<Job, Pcb>, pcbs': map<Job, Pcb>, limits: map<Job, nat>, j: Job, k: Job)
    requires OnlyAt(pcbs, pcbs', j) && k in pcbs && k != j
    ensures WeightOf(pcbs', limits, k) == WeightOf(pcbs, limits, k)
  {
  }

  lemma CoreWeightsChange(cores: seq<Core>, c: nat, core: Core)
    requires c < |cores|
    ensures Total(CoreWeights(cores[c := core])) == Total(CoreWeights(cores)) - CoreWeight(cores[c]) + CoreWeight(core)
  {
    hide Total;
    var ws := CoreWeights(cores);
    assert CoreWeights(cores[c := core]) == ws[c := CoreWeight(core)];
    TotalUpdate(ws, c, CoreWeight(core));
  }

  /** Process `j` and core `c` change, and together they get lighter. */
  lemma Lighter(s: Sys, r: Sys, limits: map<Job, nat>, j: Job, c: nat, core: Core)
    requires Known(s) && r.procs == s.procs && OnlyAt(s.pcbs, r.pcbs, j) && j in limits
    requires c < |s.cores| && r.cores == s.cores[c := core]
    requires Weight(r.pcbs[j], limits[j]) + CoreWeight(core) < Weight(s.pcbs[j], limits[j]) + CoreWeight(s.cores[c])
    ensures Work(r, limits) < Work(s, limits)
  {
    hide Total, Weights, CoreWeights, Weight;
    WeightsChange(s.procs, s.pcbs, r.pcbs, limits, j);
    CoreWeightsChange(s.cores, c, core);
  }

  /** Process `j` alone gets lighter. */
  lemma LighterAlone(s: Sys, r: Sys, limits: map<Job, nat>, j: Job)
    requires Known(s) && r.procs == s.procs && OnlyAt(s.pcbs, r.pcbs, j) && j in limits && r.cores == s.cores
    requires Weight(r.pcbs[j], limits[j]) < Weight(s.pcbs[j], limits[j])
    ensures Work(r, limits) < Work(s, limits)
  {
    hide Total, Weights, CoreWeights, Weight;
    WeightsChange(s.procs, s.pcbs, r.pcbs, limits, j);
  }

  /** The processes get no more slices than the limits allow. */
  ghost predicate Within(s: Sys, limits: map<Job, nat>) {
    forall j | j in s.pcbs :: j in limits && s.pcbs[j].slices <= limits[j]
  }

  lemma RunsLighter(s: Sys, limits: map<Job, nat>, c: nat)
    requires Orderly(s) && Enabled(s, CoreRuns(c)) && Within(s, limits) && Within(AfterRuns(s, c), limits)
    ensures Work(AfterRuns(s, c), limits) < Work(s, limits)
  {
    hide Lists, Statuses, RunSlice, Used, Work;
    var j, r := s.cores[c].job, AfterRuns(s, c);
    RunSliceCounts(s.pcbs[j], s.quantum);
    assert s.pcbs[j].place == OnCore(c);
    Lighter(s, r, limits, j, c, Sliced(j));
  }

  lemma RunSliceCounts(p: Pcb, quantum: int)
    ensures RunSlice(p, quantum).place == p.place && RunSlice(p, quantum).slices == p.slices + 1
  {
    hide Slices.Dispatch;
  }

  lemma HeldOnCore(s: Sys, c: nat)
    requires Orderly(s) && IsSliced(s, c)
    ensures s.pcbs[s.cores[c].job].place == OnCore(c)
  {
    hide Lists, Statuses;
  }

  /** A core puts its process away. */
  lemma PutsAwayLighter(s: Sys, limits: map<Job, nat>, l: Label)
    requires Orderly(s) && Enabled(s, l) && Within(s, limits)
    requires l.CoreRegisters? || l.CoreFinishes? || l.CorePreempts? || l.CorePushes?
    ensures Work(Next(s, l), limits) < Work(s, limits)
  {
    hide Orderly, Work, IoStep, Added;
    HeldOnCore(s, l.core);
    OrderlyKnown(s);
    var j := s.cores[l.core].job;
    match l
    case CoreRegisters(c) =>
      PutAway(s, AfterRegisters(s, c), limits, c, Registered(j));
    case CoreFinishes(c) =>
      PutAway(s, AfterFinishes(s, c), limits, c, AtCheck);
    case CorePreempts(c, q) =>
      PutAway(s, AfterPreempts(s, c, q), limits, c, AtCheck);
    case CorePushes(c) =>
      PutAway(s, AfterPushes(s, c), limits, c, AtCheck);
  }

  lemma PutAway(s: Sys, r: Sys, limits: map<Job, nat>, c: nat, core: Core)
    requires Known(s) && IsSliced(s, c) && s.pcbs[s.cores[c].job].place == OnCore(c) && Within(s, limits)
    requires r.procs == s.procs && r.cores == s.cores[c := core] && !core.Sliced?
    requires var j := s.cores[c].job;
             && OnlyAt(s.pcbs, r.pcbs, j) && r.pcbs[j].slices == s.pcbs[j].slices && !r.pcbs[j].place.OnCore?
    ensures Work(r, limits) < Work(s, limits)
  {
    hide Work;
    Lighter(s, r, limits, s.cores[c].job, c, core);
  }

  lemma ParksLighter(s: Sys, limits: map<Job, nat>, c: nat)
    requires Orderly(s) && Enabled(s, CoreParks(c)) && Within(s, limits)
    ensures Work(AfterParks(s, c), limits) < Work(s, limits)
  {
    hide Lists, Statuses, Work;
    var j := s.cores[c].job;
    assert s.pcbs[j].place == Transit(c);
    Lighter(s, AfterParks(s, c), limits, j, c, AtCheck);
  }

  lemma OrderlyKnown(s: Sys)
    requires Orderly(s)
    ensures Known(s)
  {
    hide Lists, Statuses, CoresHold;
  }

  lemma ScannedIsParked(s: Sys)
    requires Orderly(s) && s.worker.Scanning? && s.worker.at < |s.blocked|
    ensures Is(s.pcbs, s.blocked[s.worker.at], Parked)
  {
    hide Statuses, CoresHold;
    ListedIs(s.blocked, s.pcbs, Parked, s.worker.at);
  }

  lemma GetsLighter(s: Sys, limits: map<Job, nat>, c: nat)
    requires Orderly(s) && Enabled(s, CoreGets(c)) && s.queue != [] && Within(s, limits)
    ensures Work(AfterGets(s, c), limits) < Work(s, limits)
  {
    HeadIsQueued(s);
    OrderlyKnown(s);
    hide Orderly, Work, StatusFits;
    Lighter(s, AfterGets(s, c), limits, s.queue[0], c, Took(s.queue[0]));
  }

  lemma WakesLighter(s: Sys, limits: map<Job, nat>, q: seq<Job>)
    requires Orderly(s) && Enabled(s, WorkerMoves(q)) && Within(s, limits)
    ensures Work(AfterMoves(s, q), limits) < Work(s, limits)
  {
    ScannedIsParked(s);
    OrderlyKnown(s);
    hide Orderly, Work, Added;
    LighterAlone(s, AfterMoves(s, q), limits, s.blocked[s.worker.at]);
  }

  lemma IoLighter(s: Sys, limits: map<Job, nat>, printerAsks: bool, diskAsks: bool)
    requires Orderly(s) && Enabled(s, IoSteps(printerAsks, diskAsks)) && s.io.phase.Serving? && Within(s, limits)
    ensures Work(AfterIo(s, printerAsks, diskAsks), limits) < Work(s, limits)
  {
    var j, r := s.io.phase.request.job, AfterIo(s, printerAsks, diskAsks);
    OrderlyKnown(s);
    assert j in s.pcbs && AwaitsIo(s.pcbs[j]) by {
      ServedAwaits(s, j);
    }
    hide Orderly, Work, IoStep, InIo, Enabled;
    WokenLighter(s, r, limits, j);
  }

  /** An IO operation completes. */
  lemma WokenLighter(s: Sys, r: Sys, limits: map<Job, nat>, j: Job)
    requires Known(s) && Within(s, limits) && j in s.pcbs && AwaitsIo(s.pcbs[j])
    requires r.procs == s.procs && r.cores == s.cores && r.pcbs == Move(s, j, Ready, s.pcbs[j].place)
    ensures Work(r, limits) < Work(s, limits)
  {
    hide Work;
    LighterAlone(s, r, limits, j);
  }

  /** Steps that take no process on change no work. */
  lemma QuietSameWork(s: Sys, limits: map<Job, nat>, l: Label)
    requires !Moves(s, l)
    ensures Work(Next(s, l), limits) == Work(s, limits)
  {
    hide Total, Weights, Added, ParkedJobs;
    var r := Next(s, l);
    if Enabled(s, l) && (l.CoreChecks? || l.CoreAsks? || l.CoreGets?) {
      assert r.pcbs == s.pcbs;
      CoreWeightsChange(s.cores, l.core, r.cores[l.core]);
    }
  }

  /** Every step that takes a process on leaves less work. */
  lemma MovesLighter(s: Sys, limits: map<Job, nat>, l: Label)
    requires Orderly(s) && Moves(s, l) && Within(s, limits) && Within(Next(s, l), limits)
    ensures Work(Next(s, l), limits) < Work(s, limits)
  {
    hide Orderly, Within, Work, AfterGets, AfterRuns, AfterRegisters, AfterParks, AfterFinishes, AfterPreempts,
      AfterPushes, AfterMoves, AfterIo;
    match l
    case CoreGets(c) => GetsLighter(s, limits, c);
    case CoreRuns(c) => RunsLighter(s, limits, c);
    case CoreParks(c) => ParksLighter(s, limits, c);
    case WorkerMoves(q) => WakesLighter(s, limits, q);
    case IoSteps(printerAsks, diskAsks) => IoLighter(s, limits, printerAsks, diskAsks);
    case _ => PutsAwayLighter(s, limits, l);
  }

  // ---------------------------------------------------------------------------------------------------------------
  // No run moves processes about for ever
  // ---------------------------------------------------------------------------------------------------------------

  /** Faithful programs that stop: `limits` are their sequential instructions, stop words included. */
  ghost predicate Stopping(s0: Sys, limits: map<Job, nat>) {
    forall j | j in s0.procs ::
      && j in s0.pcbs && j in limits && limits[j] >= 1
      && Faithful(s0.pcbs[j].st) && AtStop(SeqRun(ArchOf(s0.pcbs[j].st), limits[j] - 1))
  }

  lemma InitiallyKnown(s0: Sys, j: Job)
    requires Initial(s0) && j in s0.pcbs
    ensures j in s0.procs
  {
  }

  lemma RunWithin(s0: Sys, ls: seq<Label>, limits: map<Job, nat>)
    requires Initial(s0) && Stopping(s0, limits)
    ensures Good(After(s0, ls), s0) && Within(After(s0, ls), limits)
  {
    hide After, Initial, Faithful, AtStop, SeqRun, Orderly, QueueOk, Counted, TimeOk, Ran, Charged;
    EveryRunGood(s0, ls);
    var s := After(s0, ls);
    forall j | j in s.pcbs
      ensures j in limits && s.pcbs[j].slices <= limits[j]
    {
      InitiallyKnown(s0, j);
      SlicesBounded(s0, ls, j, limits[j] - 1);
    }
  }

  /** How many steps of the run take a process on. */
  ghost function MoveCount(s0: Sys, ls: seq<Label>): nat {
    if ls == [] then 0
    else
      var before := ls[..|ls| - 1];
      MoveCount(s0, before) + if Moves(After(s0, before), ls[|ls| - 1]) then 1 else 0
  }

  lemma {:induction false} MovesUseWork(s0: Sys, ls: seq<Label>, limits: map<Job, nat>)
    requires Initial(s0) && Stopping(s0, limits)
    ensures MoveCount(s0, ls) + Work(After(s0, ls), limits) <= Work(s0, limits)
  {
    hide Initial, Stopping, Moves, Work, Next, Orderly, QueueOk, Counted, TimeOk, Executes, Within;
    if ls != [] {
      var before, l := ls[..|ls| - 1], ls[|ls| - 1];
      MovesUseWork(s0, before, limits);
      RunWithin(s0, before, limits);
      RunWithin(s0, ls, limits);
      if Moves(After(s0, before), l) {
        MovesLighter(After(s0, before), limits, l);
      } else {
        QuietSameWork(After(s0, before), limits, l);
      }
    }
  }

  /** The work at the start: ten steps for each instruction and four for the first place in the queue. */
  function StartWork(procs: seq<Job>, limits: map<Job, nat>): (ws: seq<nat>)
    requires forall j | j in procs :: j in limits
    ensures |ws| == |procs| && forall i | 0 <= i < |procs| :: ws[i] == 10 * limits[procs[i]] + 4
  {
    seq<nat>(|procs|, i requires 0 <= i < |procs| => 10 * limits[procs[i]] + 4)
  }

  lemma InitialWork(s0: Sys, limits: map<Job, nat>)
    requires Initial(s0) && forall j | j in s0.procs :: j in limits
    ensures Work(s0, limits) == Total(StartWork(s0.procs, limits))
  {
    hide Total;
    assert Weights(s0.procs, s0.pcbs, limits) == StartWork(s0.procs, limits);
    AllZero(CoreWeights(s0.cores));
  }

  /** No run moves processes about for ever: with faithful programs that stop, in every interleaving under every policy
      the steps that take a process on - to another place, through a slice or to the end of its IO - are at most ten
      times the sequential instructions of all programs and four more for each. */
  lemma MovesBounded(s0: Sys, ls: seq<Label>, limits: map<Job, nat>)
    requires Initial(s0) && Stopping(s0, limits)
    ensures MoveCount(s0, ls) <= Total(StartWork(s0.procs, limits))
  {
    hide Initial, Faithful, AtStop, MoveCount, Work, Total;
    MovesUseWork(s0, ls, limits);
    InitialWork(s0, limits);
  }

  // ---------------------------------------------------------------------------------------------------------------
  // Waiting for a step that takes a process on
  // ---------------------------------------------------------------------------------------------------------------

  /** From `at` on the blocked list has a process that may run again. */
  ghost predicate ReadyFrom(s: Sys, at: nat) {
    exists i :: at <= i < |s.blocked| && s.blocked[i] in s.pcbs && s.pcbs[s.blocked[i]].status == Ready
  }

  /** Steps of the worker to the next process it moves, or to the end of its scan. */
  ghost function WorkerDistance(s: Sys): nat {
    var n := |s.blocked|;
    match s.worker
    case Stopped => 0
    case Checking => n + 2
    case Scanning(at) => (if at <= n then n - at else 0) + 1 + if ReadyFrom(s, at) then 0 else n + 3
    case Moved(_) => 2 * n + 6
  }

  /** Steps of the IO manager to the end of an operation, when the printer asks. */
  function IoDistance(io: Io): nat {
    match io.phase
    case Serving(_) => 0
    case Holding(_) => 2
    case Top => 4
    case Taking => if io.requests != [] then 1 else 5
    case Selecting => if io.printer || io.disk then 3 else 6
  }

  /** Steps the first core needs before it asks for a process. */
  function FirstCoreDistance(cores: seq<Core>): nat {
    if cores != [] && cores[0].AtCheck? then 1 else 0
  }

  ghost function Distance(s: Sys): nat {
    WorkerDistance(s) + IoDistance(s.io) + FirstCoreDistance(s.cores)
  }

  lemma IoComesCloser(io: Io)
    requires InOrder(io) && InIo(io) != [] && !io.phase.Serving?
    ensures IoDistance(IoStep(io, Manager(true, false))) < IoDistance(io)
  {
  }

  lemma ReadyFromNext(s: Sys, at: nat)
    requires at < |s.blocked| && s.blocked[at] in s.pcbs && s.pcbs[s.blocked[at]].status != Ready
    ensures ReadyFrom(s, at) <==> ReadyFrom(s, at + 1)
  {
  }

  /** While the worker holds its lock it can take a step that moves a process or brings it closer to the end of its
      scan. */
  lemma WorkerComesCloser(s: Sys) returns (l: Label)
    requires Places(s) && LockHeld(s.worker)
    ensures Enabled(s, l) && (Moves(s, l) || (Distance(Next(s, l)) < Distance(s) && Next(s, l).finished == s.finished))
  {
    l := WorkerCanStep(s);
    hide Places, Added;
    if l.WorkerSkips? {
      ReadyFromNext(s, s.worker.at);
      SameReady(s, Next(s, l), s.worker.at + 1);
    }
  }

  lemma SameReady(s: Sys, r: Sys, at: nat)
    requires r.blocked == s.blocked && r.pcbs == s.pcbs
    ensures ReadyFrom(r, at) <==> ReadyFrom(s, at)
  {
  }

  /** The step takes a process on or brings such a step closer. */
  ghost predicate Helps(s: Sys, l: Label) {
    Enabled(s, l) && (Moves(s, l) || (Distance(Next(s, l)) < Distance(s) && Next(s, l).finished == s.finished))
  }

  /** A core with a process. */
  lemma BusyCoreHelps(s: Sys, c: nat) returns (l: Label)
    requires Orderly(s) && c < |s.cores| && HasJob(s.cores[c])
    ensures Helps(s, l)
  {
    hide Orderly, Distance, Next;
    if s.cores[c].Registered? && LockHeld(s.worker) {
      OrderlyPlaces(s);
      l := WorkerComesCloser(s);
    } else {
      l := CoreCanStep(s, c);
    }
  }

  /** No core has a process, but the ready queue does. */
  lemma QueueHelps(s: Sys) returns (l: Label)
    requires Orderly(s) && Counted(s) && s.finished < |s.procs| && s.queue != []
    requires s.cores != [] && forall c | 0 <= c < |s.cores| :: !HasJob(s.cores[c])
    ensures Helps(s, l)
  {
    HeadIsQueued(s);
    hide Orderly, StatusFits;
    if s.cores[0].AtGet? {
      l := CoreGets(0);
    } else {
      assert s.cores[0].AtCheck?;
      l := CoreChecks(0);
      SameReady(s, Next(s, l), if s.worker.Scanning? then s.worker.at else 0);
    }
  }

  /** A process on the blocked list may run again. */
  lemma WorkerHelps(s: Sys) returns (l: Label)
    requires Orderly(s) && Counted(s) && s.finished < |s.procs| && ReadyFrom(s, 0)
    ensures Helps(s, l)
  {
    hide Statuses;
    if LockHeld(s.worker) {
      hide Places, Distance, Next;
      l := WorkerComesCloser(s);
    } else {
      assert s.worker.Checking?;
      l := WorkerChecks;
      SameReady(s, Next(s, l), 0);
    }
  }

  lemma IoInOrder(s: Sys)
    requires Orderly(s)
    ensures InOrder(s.io) && (s.io.phase.Serving? ==> s.io.phase.request.job in s.pcbs)
  {
    hide Places, InOrder;
    if s.io.phase.Serving? {
      ServedAwaits(s, s.io.phase.request.job);
    }
  }

  /** Only the IO manager moves. */
  lemma IoDistanceCounts(s: Sys, io: IoService.Io)
    requires IoDistance(io) < IoDistance(s.io)
    ensures Distance(s.(io := io)) < Distance(s)
  {
    hide IoDistance, FirstCoreDistance;
    SameReady(s, s.(io := io), if s.worker.Scanning? then s.worker.at else 0);
  }

  /** All processes that are left wait for the IO manager. */
  lemma IoHelps(s: Sys) returns (l: Label)
    requires Orderly(s) && InIo(s.io) != []
    ensures Helps(s, l)
  {
    l := IoSteps(true, false);
    hide Orderly, InIo, InOrder, IoStep, IoDistance, Distance;
    IoInOrder(s);
    if !s.io.phase.Serving? {
      IoComesCloser(s.io);
      IoDistanceCounts(s, IoStep(s.io, Manager(true, false)));
    }
  }

  lemma AllDoneCount(s: Sys)
    requires Places(s) && forall j | j in s.procs :: s.pcbs[j].place.Done?
    ensures |s.procs| <= |s.done|
  {
    hide CoresHold;
    DistinctOnce(s.procs);
    forall j
      ensures multiset(s.procs)[j] <= multiset(s.done)[j]
    {
      assert j in multiset(s.procs) <==> j in s.procs;
      assert j in s.procs ==> Is(s.pcbs, j, Done);
    }
    BagSize(multiset(s.procs), multiset(s.done));
    assert |multiset(s.procs)| == |s.procs| && |multiset(s.done)| == |s.done|;
  }

  lemma SomeoneLeft(s: Sys) returns (j: Job)
    requires Places(s) && |s.done| < |s.procs|
    ensures j in s.pcbs && !s.pcbs[j].place.Done?
  {
    hide CoresHold, Lists;
    if forall j | j in s.procs :: s.pcbs[j].place.Done? {
      AllDoneCount(s);
    }
    j :| j in s.procs && !s.pcbs[j].place.Done?;
  }

  lemma BagSize<T>(a: multiset<T>, b: multiset<T>)
    requires a <= b
    ensures |a| <= |b|
  {
    assert b == a + (b - a);
  }

  /** A process that is nowhere else is on the blocked list, Ready there or held by the IO manager. */
  lemma LeftIsParked(s: Sys, j: Job)
    requires Orderly(s) && j in s.pcbs && !s.pcbs[j].place.Done? && s.queue == []
    requires forall c | 0 <= c < |s.cores| :: !HasJob(s.cores[c])
    ensures ReadyFrom(s, 0) || InIo(s.io) != []
  {
    assert !Is(s.pcbs, j, Queued);
    assert Is(s.pcbs, j, Parked);
    assert multiset(ParkedJobs(s))[j] == 1;
    assert StatusFits(s.pcbs[j], s.policy, s.cores);
    if s.pcbs[j].status == Ready {
      assert j in ParkedJobs(s);
      hide Lists, IoHolds, CoresHold;
      ParkedAreBlocked(s, j);
    } else {
      assert multiset(InIo(s.io))[j] == 1;
      assert j in InIo(s.io);
    }
  }

  lemma ParkedAreBlocked(s: Sys, j: Job)
    requires j in ParkedJobs(s) && j in s.pcbs && s.pcbs[j].status == Ready
    ensures ReadyFrom(s, 0)
  {
    assert j in s.blocked;
    var i :| 0 <= i < |s.blocked| && s.blocked[i] == j;
  }

  /** As long as a process is left, some thread can help. */
  lemma SomeoneHelps(s: Sys) returns (l: Label)
    requires Orderly(s) && Counted(s) && s.cores != [] && s.finished < |s.procs|
    ensures Helps(s, l)
  {
    hide Orderly, Helps;
    if c :| 0 <= c < |s.cores| && HasJob(s.cores[c]) {
      l := BusyCoreHelps(s, c);
    } else if s.queue != [] {
      l := QueueHelps(s);
    } else {
      OrderlyPlaces(s);
      var j := SomeoneLeft(s);
      LeftIsParked(s, j);
      if ReadyFrom(s, 0) {
        l := WorkerHelps(s);
      } else {
        l := IoHelps(s);
      }
    }
  }

  // ---------------------------------------------------------------------------------------------------------------
  // Stopping the threads
  // ---------------------------------------------------------------------------------------------------------------

  /** Steps of a core to its end when all processes are finished. */
  function StepsToExit(c: Core): nat {
    match c
    case AtGet => 3
    case AtCheck => 2
    case AtHasProcesses => 1
    case _ => 0
  }

  function ExitDistances(cores: seq<Core>): (ds: seq<nat>)
    ensures |ds| == |cores| && forall c | 0 <= c < |cores| :: ds[c] == StepsToExit(cores[c])
  {
    seq<nat>(|cores|, c requires 0 <= c < |cores| => StepsToExit(cores[c]))
  }

  /** Steps of the worker to its end; its list is empty by then, except for the entry it is about to erase. */
  function WorkerExitDistance(w: Worker): nat {
    match w
    case Stopped => 0
    case Checking => 1
    case Scanning(_) => 2
    case Moved(_) => 3
  }

  function ExitDistance(s: Sys): nat {
    Total(ExitDistances(s.cores)) + WorkerExitDistance(s.worker)
  }

  predicate AllStopped(s: Sys) {
    s.worker.Stopped? && forall c | 0 <= c < |s.cores| :: s.cores[c].Exited?
  }

  /** All processes are finished. */
  ghost predicate AllFinished(s: Sys) {
    && s.finished == |s.procs| && s.queue == [] && ParkedJobs(s) == []
    && forall c | 0 <= c < |s.cores| :: !HasJob(s.cores[c])
  }

  lemma FinishedIsAll(s: Sys)
    requires Orderly(s) && Counted(s) && s.finished >= |s.procs|
    ensures AllFinished(s)
  {
    AllDoneWhenStopped(s);
    EqualBags(s);
    hide IoHolds, InOrder;
    forall j | j in s.pcbs
      ensures s.pcbs[j].place == Done
    {
      assert j in s.procs;
      assert j in multiset(s.done);
      assert Is(s.pcbs, j, Done);
    }
    if s.queue != [] {
      ListedIs(s.queue, s.pcbs, Queued, 0);
    }
    if ParkedJobs(s) != [] {
      ListedIs(ParkedJobs(s), s.pcbs, Parked, 0);
    }
  }

  lemma EqualBags(s: Sys)
    requires Places(s) && |s.done| >= |s.procs|
    ensures multiset(s.done) == multiset(s.procs)
  {
    DoneBag(s);
    hide Places;
    assert |multiset(s.procs)| == |s.procs| && |multiset(s.done)| == |s.done|;
    SubBag(multiset(s.done), multiset(s.procs));
  }

  lemma ExitChange(cores: seq<Core>, c: nat, core: Core)
    requires c < |cores|
    ensures Total(ExitDistances(cores[c := core]))
            == Total(ExitDistances(cores)) - StepsToExit(cores[c]) + StepsToExit(core)
  {
    hide Total;
    var ds := ExitDistances(cores);
    assert ExitDistances(cores[c := core]) == ds[c := StepsToExit(core)];
    TotalUpdate(ds, c, StepsToExit(core));
  }

  /** The step brings a thread closer to its end. */
  ghost predicate Stops(s: Sys, l: Label) {
    !Moves(s, l) && AllFinished(Next(s, l)) && ExitDistance(Next(s, l)) < ExitDistance(s)
  }

  lemma CoreStops(s: Sys, c: nat) returns (l: Label)
    requires AllFinished(s) && c < |s.cores| && !s.cores[c].Exited?
    ensures Stops(s, l)
  {
    l := match s.cores[c] case AtCheck => CoreChecks(c) case AtHasProcesses => CoreAsks(c) case _ => CoreGets(c);
    assert !HasJob(s.cores[c]);
    var core := match s.cores[c] case AtCheck => AtHasProcesses case AtHasProcesses => Exited case _ => AtCheck;
    assert Next(s, l) == s.(cores := s.cores[c := core]);
    hide Next, Total;
    ExitChange(s.cores, c, core);
    assert ParkedJobs(Next(s, l)) == ParkedJobs(s);
  }

  lemma WorkerStops(s: Sys) returns (l: Label)
    requires AllFinished(s) && WorkerOk(s) && !s.worker.Stopped?
    ensures Stops(s, l)
  {
    hide Total;
    match s.worker
    case Checking => l := WorkerChecks;
    case Scanning(_) => l := WorkerEnds;
    case Moved(_) => l := WorkerErases;
  }

  // ---------------------------------------------------------------------------------------------------------------
  // Completion
  // ---------------------------------------------------------------------------------------------------------------

  /** A useful step wherever a run has come to: it leaves less work, or it brings the next such step or the end of a
      thread closer. */
  lemma UsefulStep(s: Sys) returns (l: Label)
    requires Orderly(s) && Counted(s) && !AllStopped(s) && (s.procs != [] ==> s.cores != [])
    ensures if s.finished < |s.procs| then Helps(s, l) else Stops(s, l)
  {
    if s.finished < |s.procs| {
      hide Orderly, Counted, Helps;
      l := SomeoneHelps(s);
    } else {
      FinishedIsAll(s);
      assert WorkerOk(s) by {
        hide Lists, CoresHold, Statuses;
      }
      hide Orderly, Counted, Stops, AllFinished, WorkerOk;
      if c :| 0 <= c < |s.cores| && !s.cores[c].Exited? {
        l := CoreStops(s, c);
      } else {
        l := WorkerStops(s);
      }
    }
  }

  lemma SameCores(s: Sys, l: Label)
    ensures |Next(s, l).cores| == |s.cores|
  {
    hide IoStep, Added, Used, RunSlice, ParkedJobs;
  }

  lemma {:induction false} CoresInRun(s0: Sys, ls: seq<Label>)
    ensures |After(s0, ls).cores| == |s0.cores|
  {
    hide Next;
    if ls != [] {
      CoresInRun(s0, ls[..|ls| - 1]);
      SameCores(After(s0, ls[..|ls| - 1]), ls[|ls| - 1]);
    }
  }

  /** Distance to the next step that takes a process on, or to the end of the threads. */
  ghost function ToGo(s: Sys): nat {
    if s.finished < |s.procs| then Distance(s) else ExitDistance(s)
  }

  /** A useful step leaves less work, or as much and less to go. */
  lemma UsefulStepHelps(s: Sys, s0: Sys, limits: map<Job, nat>, l: Label)
    requires Good(s, s0) && Within(s, limits) && Good(Next(s, l), s0) && Within(Next(s, l), limits)
    requires if s.finished < |s.procs| then Helps(s, l) else Stops(s, l)
    ensures var r := Next(s, l);
            Work(r, limits) < Work(s, limits) || (Work(r, limits) == Work(s, limits) && ToGo(r) < ToGo(s))
  {
    hide Orderly, QueueOk, Counted, TimeOk, Ran, Charged, Within, Work, Moves, Next, Distance, ExitDistance;
    if Moves(s, l) {
      MovesLighter(s, limits, l);
    } else {
      QuietSameWork(s, limits, l);
    }
  }

  lemma StoppedAllDone(s: Sys)
    requires Orderly(s) && Counted(s) && AllStopped(s)
    ensures multiset(s.done) == multiset(s.procs)
  {
    hide Orderly, Counted;
    AllDoneWhenStopped(s);
  }

  /** Every run can be completed: with faithful programs that stop, whatever has happened so far under whatever policy,
      some continuation finishes all processes and stops all cores and the IO worker. */
  lemma {:induction false} EveryRunCanBeCompleted(s0: Sys, ls: seq<Label>, limits: map<Job, nat>)
    returns (more: seq<Label>)
    requires Initial(s0) && Stopping(s0, limits) && (s0.procs != [] ==> s0.cores != [])
    ensures var s := After(s0, ls + more); AllStopped(s) && multiset(s.done) == multiset(s0.procs)
    decreases Work(After(s0, ls), limits), ToGo(After(s0, ls))
  {
    hide Stopping, Work, ToGo, Next, Orderly, QueueOk, Counted, TimeOk, Within, Helps, Stops, AllStopped, Initial;
    var s := After(s0, ls);
    RunWithin(s0, ls, limits);
    CoresInRun(s0, ls);
    assert s.procs == s0.procs;
    if AllStopped(s) {
      more := [];
      assert ls + more == ls;
      StoppedAllDone(s);
    } else {
      var l := UsefulStep(s);
      assert (ls + [l])[..|ls|] == ls && After(s0, ls + [l]) == Next(s, l);
      RunWithin(s0, ls + [l], limits);
      UsefulStepHelps(s, s0, limits, l);
      var rest := EveryRunCanBeCompleted(s0, ls + [l], limits);
      more := [l] + rest;
      assert ls + more == ls + [l] + rest;
    }
  }
}
