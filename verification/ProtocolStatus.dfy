/** The status of a process fits its place, and the IO manager holds exactly the blocked ones. */
module ProtocolStatus {
  import opened Pipeline
  import opened PipelineSchedule
  import opened ControlUnit
  import opened ReadyQueue
  import opened IoService
  import opened Protocol
  import opened ProtocolPlaces

  /** The process waits for the IO manager. */
  predicate AwaitsIo(p: Pcb) {
    (p.place.Transit? || p.place.Parked?) && p.status == Blocked
  }

  /** The jobs the IO manager holds. */
  function InIo(io: Io): seq<Job> {
    InService(io) + io.waiting
  }

  ghost predicate IoHolds(held: seq<Job>, pcbs: map<Job, Pcb>) {
    forall j :: multiset(held)[j] == if j in pcbs && AwaitsIo(pcbs[j]) then 1 else 0
  }

  /** Only a policy without preemption leaves a queued process Running. */
  predicate StatusFits(p: Pcb, policy: Policy, cores: seq<Core>) {
    match p.place
    case Queued => p.status == Ready || (p.status == Running && !Preemptive(policy))
    case Transit(_) => p.status in {Blocked, Ready}
    case Parked => p.status in {Blocked, Ready}
    case Done => p.status == Finished
    case OnCore(c) =>
      c < |cores| &&
      if cores[c].Sliced? then p.status in {Running, Blocked, Finished} else p.status in {Ready, Running}
  }

  ghost predicate Statuses(s: Sys) {
    && (forall j | j in s.pcbs :: StatusFits(s.pcbs[j], s.policy, s.cores))
    && IoHolds(InIo(s.io), s.pcbs)
    && InOrder(s.io)
  }

  ghost predicate Orderly(s: Sys) {
    Places(s) && Statuses(s)
  }

  // ---------------------------------------------------------------------------------------------------------------
  // One process changes
  // ---------------------------------------------------------------------------------------------------------------

  lemma HoldsChange(held: seq<Job>, held': seq<Job>, pcbs: map<Job, Pcb>, pcbs': map<Job, Pcb>, j: Job)
    requires IoHolds(held, pcbs) && OnlyAt(pcbs, pcbs', j)
    requires if AwaitsIo(pcbs'[j]) && !AwaitsIo(pcbs[j]) then multiset(held') == multiset(held) + multiset{j}
             else if AwaitsIo(pcbs[j]) && !AwaitsIo(pcbs'[j]) then multiset(held) == multiset(held') + multiset{j}
             else multiset(held') == multiset(held)
    ensures IoHolds(held', pcbs')
  {
    forall k
      ensures multiset(held')[k] == if k in pcbs' && AwaitsIo(pcbs'[k]) then 1 else 0
    {
      assert multiset(held)[k] == if k in pcbs && AwaitsIo(pcbs[k]) then 1 else 0;
    }
  }

  /** A core and the process on it change; all other processes fit as before. */
  lemma FitsElsewhere(s: Sys, r: Sys, c: nat, j: Job)
    requires Orderly(s) && c < |s.cores| == |r.cores| && r.policy == s.policy && r.cores == s.cores[c := r.cores[c]]
    requires OnlyAt(s.pcbs, r.pcbs, j) && (HasJob(s.cores[c]) ==> s.cores[c].job == j)
    requires StatusFits(r.pcbs[j], r.policy, r.cores)
    ensures forall k | k in r.pcbs :: StatusFits(r.pcbs[k], r.policy, r.cores)
  {
    hide Lists;
    forall k | k in r.pcbs && k != j
      ensures StatusFits(r.pcbs[k], r.policy, r.cores)
    {
      assert StatusFits(s.pcbs[k], s.policy, s.cores);
      if s.pcbs[k].place.OnCore? {
        assert s.pcbs[k].place.core != c;
      }
    }
  }

  lemma IdleCoreStatuses(s: Sys, c: nat, core: Core)
    requires Orderly(s) && c < |s.cores| && !HasJob(s.cores[c]) && !HasJob(core)
    ensures Statuses(s.(cores := s.cores[c := core]))
  {
    hide Lists, IoHolds, InOrder;
    var r := s.(cores := s.cores[c := core]);
    forall k | k in r.pcbs
      ensures StatusFits(r.pcbs[k], r.policy, r.cores)
    {
      assert StatusFits(s.pcbs[k], s.policy, s.cores);
      if s.pcbs[k].place.OnCore? {
        assert s.pcbs[k].place.core != c;
      }
    }
  }

  // ---------------------------------------------------------------------------------------------------------------
  // Steps
  // ---------------------------------------------------------------------------------------------------------------

  lemma HeadIsQueued(s: Sys)
    requires Orderly(s) && s.queue != []
    ensures Is(s.pcbs, s.queue[0], Queued) && StatusFits(s.pcbs[s.queue[0]], s.policy, s.cores)
  {
    ListedIs(s.queue, s.pcbs, Queued, 0);
  }

  lemma GetsKeepsStatuses(s: Sys, c: nat)
    requires Orderly(s) && Enabled(s, CoreGets(c))
    ensures Statuses(AfterGets(s, c))
  {
    hide Places, InOrder, InIo, IoHolds;
    if s.queue == [] {
      IdleCoreStatuses(s, c, AtCheck);
    } else {
      var j, r := s.queue[0], AfterGets(s, c);
      HeadIsQueued(s);
      HoldsChange(InIo(s.io), InIo(r.io), s.pcbs, r.pcbs, j);
      hide Orderly;
      FitsElsewhere(s, r, c, j);
    }
  }

  /** A slice leaves the process Running, Blocked or Finished. */
  lemma SliceStatus(p: Pcb, quantum: int)
    ensures var r := RunSlice(p, quantum);
            && r.status in {Running, Blocked, Finished} && r.place == p.place
            && r.cpuTime >= p.cpuTime + 5 && r.status == r.st.state
            && r.cpuTime - p.cpuTime == r.st.cycles - p.st.cycles
  {
    hide Slice;
    SliceCost(Restart(p.st.(quantum := quantum, state := Running)));
  }

  lemma RunsKeepsStatuses(s: Sys, c: nat)
    requires Orderly(s) && Enabled(s, CoreRuns(c))
    ensures Statuses(AfterRuns(s, c))
  {
    var j, r := s.cores[c].job, AfterRuns(s, c);
    SliceStatus(s.pcbs[j], s.quantum);
    hide RunSlice, Used;
    assert s.pcbs[j].place == OnCore(c);
    HoldsChange(InIo(s.io), InIo(r.io), s.pcbs, r.pcbs, j);
    hide Lists, IoHolds, InOrder, Orderly;
    FitsElsewhere(s, r, c, j);
  }

  lemma RegistrationJoins(io: Io, j: Job)
    requires InOrder(io)
    ensures var r := IoStep(io, Registration(j)); InOrder(r) && multiset(InIo(r)) == multiset(InIo(io)) + multiset{j}
  {
    StepKeepsOrder(io, Registration(j));
    assert InIo(IoStep(io, Registration(j))) == InIo(io) + [j];
  }

  lemma RegistersKeepsStatuses(s: Sys, c: nat)
    requires Orderly(s) && Enabled(s, CoreRegisters(c))
    ensures Statuses(AfterRegisters(s, c))
  {
    hide Lists, InOrder, IoStep, InIo, IoHolds;
    var j, r := s.cores[c].job, AfterRegisters(s, c);
    assert InOrder(s.io);
    RegistrationJoins(s.io, j);
    assert s.pcbs[j].place == OnCore(c);
    HoldsChange(InIo(s.io), InIo(r.io), s.pcbs, r.pcbs, j);
    hide Orderly;
    FitsElsewhere(s, r, c, j);
  }

  /** A core gives its process away; the IO manager is not concerned. */
  lemma LeavesKeepsStatuses(s: Sys, c: nat, r: Sys)
    requires Orderly(s) && c < |s.cores| == |r.cores| && HasJob(s.cores[c]) && !HasJob(r.cores[c])
    requires r.policy == s.policy && r.cores == s.cores[c := r.cores[c]] && r.io == s.io
    requires var j := s.cores[c].job;
             && OnlyAt(s.pcbs, r.pcbs, j) && !r.pcbs[j].place.OnCore?
             && StatusFits(r.pcbs[j], r.policy, r.cores) && (AwaitsIo(r.pcbs[j]) <==> AwaitsIo(s.pcbs[j]))
    ensures Statuses(r)
  {
    var j := s.cores[c].job;
    HoldsChange(InIo(s.io), InIo(r.io), s.pcbs, r.pcbs, j);
    hide Lists, IoHolds, InOrder, Orderly;
    FitsElsewhere(s, r, c, j);
  }

  lemma ParksKeepsStatuses(s: Sys, c: nat)
    requires Orderly(s) && Enabled(s, CoreParks(c))
    ensures Statuses(AfterParks(s, c))
  {
    hide Lists, IoHolds, InOrder;
    var j := s.cores[c].job;
    assert s.pcbs[j].place == Transit(c);
    assert StatusFits(s.pcbs[j], s.policy, s.cores);
    LeavesKeepsStatuses(s, c, AfterParks(s, c));
  }

  lemma FinishesKeepsStatuses(s: Sys, c: nat)
    requires Orderly(s) && Enabled(s, CoreFinishes(c))
    ensures Statuses(AfterFinishes(s, c))
  {
    hide Lists, IoHolds, InOrder;
    LeavesKeepsStatuses(s, c, AfterFinishes(s, c));
  }

  lemma PreemptsKeepsStatuses(s: Sys, c: nat, q: seq<Job>)
    requires Orderly(s) && Enabled(s, CorePreempts(c, q))
    ensures Statuses(AfterPreempts(s, c, q))
  {
    hide Lists, IoHolds, InOrder, Added;
    LeavesKeepsStatuses(s, c, AfterPreempts(s, c, q));
  }

  lemma PushesKeepsStatuses(s: Sys, c: nat)
    requires Orderly(s) && Enabled(s, CorePushes(c))
    ensures Statuses(AfterPushes(s, c))
  {
    hide Lists, IoHolds, InOrder;
    LeavesKeepsStatuses(s, c, AfterPushes(s, c));
  }

  /** A process away from the cores changes. */
  lemma FitsBesides(s: Sys, r: Sys, j: Job)
    requires Statuses(s) && r.policy == s.policy && r.cores == s.cores && OnlyAt(s.pcbs, r.pcbs, j)
    requires StatusFits(r.pcbs[j], r.policy, r.cores)
    ensures forall k | k in r.pcbs :: StatusFits(r.pcbs[k], r.policy, r.cores)
  {
    hide IoHolds, InOrder;
    forall k | k in r.pcbs && k != j
      ensures StatusFits(r.pcbs[k], r.policy, r.cores)
    {
      assert StatusFits(s.pcbs[k], s.policy, s.cores);
    }
  }

  lemma MovesKeepsStatuses(s: Sys, q: seq<Job>)
    requires Orderly(s) && Enabled(s, WorkerMoves(q))
    ensures Statuses(AfterMoves(s, q))
  {
    hide Added, InOrder;
    var j, r := s.blocked[s.worker.at], AfterMoves(s, q);
    HoldsChange(InIo(s.io), InIo(r.io), s.pcbs, r.pcbs, j);
    hide IoHolds, Lists, Orderly;
    FitsBesides(s, r, j);
  }

  /** Only the completion changes what the IO manager holds. */
  lemma IoHoldsAfter(io: Io, e: IoEvent)
    requires InOrder(io) && e.Manager?
    ensures var io' := IoStep(io, e);
            if io.phase.Serving? then InIo(io) == [io.phase.request.job] + InIo(io') else InIo(io') == InIo(io)
  {
    var io' := IoStep(io, e);
    if io.phase.Selecting? && io'.phase.Holding? {
      assert io.waiting == [io.waiting[0]] + io.waiting[1..];
    }
  }

  lemma ServedAwaits(s: Sys, j: Job)
    requires IoHolds(InIo(s.io), s.pcbs) && s.io.phase.Serving? && s.io.phase.request.job == j
    ensures j in s.pcbs && AwaitsIo(s.pcbs[j])
  {
    assert InIo(s.io)[0] == j;
    assert j in multiset(InIo(s.io));
  }

  /** The process served becomes Ready where it is. */
  lemma CompletesKeepsStatuses(s: Sys, r: Sys, j: Job)
    requires Statuses(s) && InOrder(r.io) && r.policy == s.policy && r.cores == s.cores
    requires j in s.pcbs && AwaitsIo(s.pcbs[j]) && r.pcbs == Move(s, j, Ready, s.pcbs[j].place)
    requires multiset(InIo(s.io)) == multiset(InIo(r.io)) + multiset{j}
    ensures Statuses(r)
  {
    hide InIo, InOrder, IoHolds;
    HoldsChange(InIo(s.io), InIo(r.io), s.pcbs, r.pcbs, j);
    FitsBesides(s, r, j);
  }

  lemma IoKeepsStatuses(s: Sys, printerAsks: bool, diskAsks: bool)
    requires Orderly(s) && Enabled(s, IoSteps(printerAsks, diskAsks))
    ensures Statuses(AfterIo(s, printerAsks, diskAsks))
  {
    hide IoStep, InIo, InOrder, Places, IoHolds;
    var e := Manager(printerAsks, diskAsks);
    StepKeepsOrder(s.io, e);
    IoHoldsAfter(s.io, e);
    if s.io.phase.Serving? {
      var j := s.io.phase.request.job;
      ServedAwaits(s, j);
      hide StatusFits;
      CompletesKeepsStatuses(s, AfterIo(s, printerAsks, diskAsks), j);
    }
  }

  lemma QuietKeepsStatuses(s: Sys, l: Label)
    requires Orderly(s) && Enabled(s, l)
    requires l.CoreChecks? || l.CoreAsks? || l.WorkerChecks? || l.WorkerSkips? || l.WorkerErases? || l.WorkerEnds?
    ensures Statuses(Next(s, l))
  {
    hide Lists, CoresHold, IoHolds, InOrder;
    match l
    case CoreChecks(c) => IdleCoreStatuses(s, c, if s.finished < |s.procs| then AtGet else AtHasProcesses);
    case CoreAsks(c) => IdleCoreStatuses(s, c, if s.queue != [] then AtGet else Exited);
    case _ =>
  }

  lemma StepKeepsOrderly(s: Sys, l: Label)
    requires Orderly(s)
    ensures Orderly(Next(s, l))
  {
    StepKeepsPlaces(s, l);
    if Enabled(s, l) {
      hide Places, Statuses, AfterChecks, AfterAsks, AfterGets, AfterRuns, AfterRegisters, AfterParks, AfterFinishes,
        AfterPreempts, AfterPushes, AfterMoves, AfterErases, AfterIo;
      match l
      case CoreGets(c) => GetsKeepsStatuses(s, c);
      case CoreRuns(c) => RunsKeepsStatuses(s, c);
      case CoreRegisters(c) => RegistersKeepsStatuses(s, c);
      case CoreParks(c) => ParksKeepsStatuses(s, c);
      case CoreFinishes(c) => FinishesKeepsStatuses(s, c);
      case CorePreempts(c, q) => PreemptsKeepsStatuses(s, c, q);
      case CorePushes(c) => PushesKeepsStatuses(s, c);
      case WorkerMoves(q) => MovesKeepsStatuses(s, q);
      case IoSteps(printerAsks, diskAsks) => IoKeepsStatuses(s, printerAsks, diskAsks);
      case _ => QuietKeepsStatuses(s, l);
    }
  }

  lemma InitialOrderly(s: Sys)
    requires Initial(s)
    ensures Orderly(s)
  {
    InitialPlaces(s);
  }
}
