/** Every process is in exactly one place, in every interleaving. */
module ProtocolPlaces {
  import opened Slices
  import opened ReadyQueue
  import opened IoService
  import opened Protocol

  ghost predicate Is(pcbs: map<Job, Pcb>, j: Job, place: Place) {
    j in pcbs && pcbs[j].place == place
  }

  /** The list holds the processes of a place, each once. */
  ghost predicate Lists(q: seq<Job>, pcbs: map<Job, Pcb>, place: Place) {
    forall j :: multiset(q)[j] == if Is(pcbs, j, place) then 1 else 0
  }

  /** Cores hold the processes that are there. */
  ghost predicate CoresHold(cores: seq<Core>, pcbs: map<Job, Pcb>) {
    && (forall c | 0 <= c < |cores| && HasJob(cores[c]) ::
          Is(pcbs, cores[c].job, if cores[c].Registered? then Transit(c) else OnCore(c)))
    && (forall j | j in pcbs && (pcbs[j].place.OnCore? || pcbs[j].place.Transit?) ::
          var c := pcbs[j].place.core;
          c < |cores| && HasJob(cores[c]) && cores[c].job == j && (cores[c].Registered? <==> pcbs[j].place.Transit?))
  }

  ghost predicate Known(s: Sys) {
    && (forall i, j | 0 <= i < j < |s.procs| :: s.procs[i] != s.procs[j])
    && (forall j :: j in s.pcbs <==> j in s.procs)
    && |s.cores| == |s.clock| == |s.busy|
  }

  ghost predicate WorkerOk(s: Sys) {
    match s.worker
    case Scanning(i) => i <= |s.blocked|
    case Moved(i) => i < |s.blocked|
    case _ => true
  }

  ghost predicate Places(s: Sys) {
    && Known(s) && WorkerOk(s)
    && Lists(s.queue, s.pcbs, Queued)
    && Lists(ParkedJobs(s), s.pcbs, Parked)
    && Lists(s.done, s.pcbs, Done)
    && CoresHold(s.cores, s.pcbs)
  }

  // ---------------------------------------------------------------------------------------------------------------
  // Moving one process
  // ---------------------------------------------------------------------------------------------------------------

  /** `pcbs'` differs from `pcbs` in the control block of `j` only. */
  ghost predicate OnlyAt(pcbs: map<Job, Pcb>, pcbs': map<Job, Pcb>, j: Job) {
    j in pcbs && pcbs'.Keys == pcbs.Keys && forall k | k in pcbs && k != j :: pcbs'[k] == pcbs[k]
  }

  lemma ListGains(q: seq<Job>, q': seq<Job>, pcbs: map<Job, Pcb>, pcbs': map<Job, Pcb>, j: Job, place: Place)
    requires Lists(q, pcbs, place) && OnlyAt(pcbs, pcbs', j) && pcbs[j].place != place && pcbs'[j].place == place
    requires multiset(q') == multiset(q) + multiset{j}
    ensures Lists(q', pcbs', place)
  {
    assert multiset(q)[j] == 0;
  }

  lemma ListLoses(q: seq<Job>, q': seq<Job>, pcbs: map<Job, Pcb>, pcbs': map<Job, Pcb>, j: Job, place: Place)
    requires Lists(q, pcbs, place) && OnlyAt(pcbs, pcbs', j) && pcbs[j].place == place && pcbs'[j].place != place
    requires multiset(q) == multiset(q') + multiset{j}
    ensures Lists(q', pcbs', place)
  {
    assert forall k :: multiset(q)[k] == multiset(q')[k] + multiset{j}[k];
  }

  lemma ListStays(q: seq<Job>, pcbs: map<Job, Pcb>, pcbs': map<Job, Pcb>, j: Job, place: Place)
    requires Lists(q, pcbs, place) && OnlyAt(pcbs, pcbs', j) && (pcbs[j].place == place <==> pcbs'[j].place == place)
    ensures Lists(q, pcbs', place)
  {
    forall k
      ensures Is(pcbs', k, place) <==> Is(pcbs, k, place)
    {
    }
  }

  /** A core changes hands: process `j` comes to core `c`, leaves it or stays there. */
  lemma CoreMoves(cores: seq<Core>, pcbs: map<Job, Pcb>, pcbs': map<Job, Pcb>, c: nat, core: Core, j: Job)
    requires CoresHold(cores, pcbs) && OnlyAt(pcbs, pcbs', j) && c < |cores|
    requires HasJob(cores[c]) ==> cores[c].job == j
    requires !HasJob(cores[c]) ==> !pcbs[j].place.OnCore? && !pcbs[j].place.Transit?
    requires if HasJob(core)
             then core.job == j && pcbs'[j].place == (if core.Registered? then Transit(c) else OnCore(c))
             else !pcbs'[j].place.OnCore? && !pcbs'[j].place.Transit?
    ensures CoresHold(cores[c := core], pcbs')
  {
    var cores' := cores[c := core];
    forall d | 0 <= d < |cores'| && HasJob(cores'[d])
      ensures Is(pcbs', cores'[d].job, if cores'[d].Registered? then Transit(d) else OnCore(d))
    {
      if d != c {
        assert cores[d].job != j;
      }
    }
  }

  lemma CoresStay(cores: seq<Core>, pcbs: map<Job, Pcb>, pcbs': map<Job, Pcb>, j: Job)
    requires CoresHold(cores, pcbs) && OnlyAt(pcbs, pcbs', j)
    requires pcbs[j].place == pcbs'[j].place
             || (pcbs[j].place in {Queued, Parked, Done} && pcbs'[j].place in {Queued, Parked, Done})
    ensures CoresHold(cores, pcbs')
  {
  }

  lemma AddedBag(policy: Policy, q: seq<Job>, j: Job, r: seq<Job>)
    requires Added(policy, q, j, r)
    ensures multiset(r) == multiset(q) + multiset{j}
  {
  }

  /** Where a process was found tells its place. */
  lemma ListedIs(q: seq<Job>, pcbs: map<Job, Pcb>, place: Place, i: nat)
    requires Lists(q, pcbs, place) && i < |q|
    ensures Is(pcbs, q[i], place)
  {
    assert q[i] in multiset(q);
  }

  // ---------------------------------------------------------------------------------------------------------------
  // Steps
  // ---------------------------------------------------------------------------------------------------------------

  lemma IdleCoreMoves(s: Sys, c: nat, core: Core)
    requires Places(s) && c < |s.cores| && !HasJob(s.cores[c]) && !HasJob(core)
    ensures Places(s.(cores := s.cores[c := core]))
  {
    hide Lists;
  }

  lemma GetsKeepsPlaces(s: Sys, c: nat)
    requires Places(s) && Enabled(s, CoreGets(c))
    ensures Places(AfterGets(s, c))
  {
    if s.queue == [] {
      hide Lists, CoresHold;
      IdleCoreMoves(s, c, AtCheck);
    } else {
      var j, r := s.queue[0], AfterGets(s, c);
      assert s.queue == [j] + s.queue[1..];
      ListedIs(s.queue, s.pcbs, Queued, 0);
      assert ParkedJobs(r) == ParkedJobs(s);
      hide Lists, CoresHold;
      ListLoses(s.queue, r.queue, s.pcbs, r.pcbs, j, Queued);
      ListStays(ParkedJobs(s), s.pcbs, r.pcbs, j, Parked);
      ListStays(s.done, s.pcbs, r.pcbs, j, Done);
      hide Lists, CoresHold;
      CoreMoves(s.cores, s.pcbs, r.pcbs, c, Took(j), j);
    }
  }

  lemma RunsKeepsPlaces(s: Sys, c: nat)
    requires Places(s) && Enabled(s, CoreRuns(c))
    ensures Places(AfterRuns(s, c))
  {
    hide Dispatch, Used;
    var j, r := s.cores[c].job, AfterRuns(s, c);
    assert r.pcbs[j].place == s.pcbs[j].place == OnCore(c);
    StaysListed(s, r, j);
    hide Lists, CoresHold;
    CoreMoves(s.cores, s.pcbs, r.pcbs, c, Sliced(j), j);
  }

  lemma RegistersKeepsPlaces(s: Sys, c: nat)
    requires Places(s) && Enabled(s, CoreRegisters(c))
    ensures Places(AfterRegisters(s, c))
  {
    hide IoStep;
    var j, r := s.cores[c].job, AfterRegisters(s, c);
    assert s.pcbs[j].place == OnCore(c);
    StaysListed(s, r, j);
    hide Lists, CoresHold;
    CoreMoves(s.cores, s.pcbs, r.pcbs, c, Registered(j), j);
  }

  lemma ParksKeepsPlaces(s: Sys, c: nat)
    requires Places(s) && Enabled(s, CoreParks(c))
    ensures Places(AfterParks(s, c))
  {
    var j, r := s.cores[c].job, AfterParks(s, c);
    assert s.pcbs[j].place == Transit(c);
    ListGains(s.blocked, r.blocked, s.pcbs, r.pcbs, j, Parked);
    ListStays(s.queue, s.pcbs, r.pcbs, j, Queued);
    ListStays(s.done, s.pcbs, r.pcbs, j, Done);
    hide Lists, CoresHold;
    CoreMoves(s.cores, s.pcbs, r.pcbs, c, AtCheck, j);
  }

  lemma FinishesKeepsPlaces(s: Sys, c: nat)
    requires Places(s) && Enabled(s, CoreFinishes(c))
    ensures Places(AfterFinishes(s, c))
  {
    var j, r := s.cores[c].job, AfterFinishes(s, c);
    assert s.pcbs[j].place == OnCore(c);
    assert ParkedJobs(r) == ParkedJobs(s);
    ListGains(s.done, r.done, s.pcbs, r.pcbs, j, Done);
    ListStays(s.queue, s.pcbs, r.pcbs, j, Queued);
    ListStays(ParkedJobs(s), s.pcbs, r.pcbs, j, Parked);
    hide Lists, CoresHold;
    CoreMoves(s.cores, s.pcbs, r.pcbs, c, AtCheck, j);
  }

  /** A process goes back from a core to the ready queue. */
  lemma RequeuesKeepsPlaces(s: Sys, c: nat, r: Sys)
    requires Places(s) && IsSliced(s, c) && multiset(r.queue) == multiset(s.queue) + multiset{s.cores[c].job}
    requires var j := s.cores[c].job;
             && OnlyAt(s.pcbs, r.pcbs, j) && r.pcbs[j].place == Queued
             && r == s.(cores := s.cores[c := AtCheck], pcbs := r.pcbs, queue := r.queue, front := r.front)
    ensures Places(r)
  {
    var j := s.cores[c].job;
    assert s.pcbs[j].place == OnCore(c);
    assert ParkedJobs(r) == ParkedJobs(s);
    ListGains(s.queue, r.queue, s.pcbs, r.pcbs, j, Queued);
    ListStays(ParkedJobs(s), s.pcbs, r.pcbs, j, Parked);
    ListStays(s.done, s.pcbs, r.pcbs, j, Done);
    hide Lists, CoresHold;
    CoreMoves(s.cores, s.pcbs, r.pcbs, c, AtCheck, j);
  }

  lemma PreemptsKeepsPlaces(s: Sys, c: nat, q: seq<Job>)
    requires Places(s) && Enabled(s, CorePreempts(c, q))
    ensures Places(AfterPreempts(s, c, q))
  {
    hide Places;
    AddedBag(s.policy, s.queue, s.cores[c].job, q);
    RequeuesKeepsPlaces(s, c, AfterPreempts(s, c, q));
  }

  lemma PushesKeepsPlaces(s: Sys, c: nat)
    requires Places(s) && Enabled(s, CorePushes(c))
    ensures Places(AfterPushes(s, c))
  {
    hide Places;
    RequeuesKeepsPlaces(s, c, AfterPushes(s, c));
  }

  /** The entry at the worker's position goes to the ready queue first and leaves the blocked list after. */
  lemma MovesKeepsPlaces(s: Sys, q: seq<Job>)
    requires Places(s) && Enabled(s, WorkerMoves(q))
    ensures Places(AfterMoves(s, q))
  {
    var i, r := s.worker.at, AfterMoves(s, q);
    var j := s.blocked[i];
    ListedIs(s.blocked, s.pcbs, Parked, i);
    AddedBag(s.policy, s.queue, j, q);
    assert s.blocked == s.blocked[..i] + [j] + s.blocked[i + 1..];
    ListGains(s.queue, r.queue, s.pcbs, r.pcbs, j, Queued);
    ListLoses(s.blocked, ParkedJobs(r), s.pcbs, r.pcbs, j, Parked);
    ListStays(s.done, s.pcbs, r.pcbs, j, Done);
    CoresStay(s.cores, s.pcbs, r.pcbs, j);
  }

  lemma StaysListed(s: Sys, r: Sys, j: Job)
    requires Places(s) && OnlyAt(s.pcbs, r.pcbs, j)
    requires s.pcbs[j].place == r.pcbs[j].place || s.pcbs[j].place !in {Queued, Parked, Done}
    requires s.pcbs[j].place == r.pcbs[j].place || r.pcbs[j].place !in {Queued, Parked, Done}
    requires r.queue == s.queue && r.blocked == s.blocked && r.worker == s.worker && r.done == s.done
    ensures Lists(r.queue, r.pcbs, Queued) && Lists(ParkedJobs(r), r.pcbs, Parked) && Lists(r.done, r.pcbs, Done)
  {
    ListStays(s.queue, s.pcbs, r.pcbs, j, Queued);
    ListStays(ParkedJobs(s), s.pcbs, r.pcbs, j, Parked);
    ListStays(s.done, s.pcbs, r.pcbs, j, Done);
  }

  lemma IoKeepsPlaces(s: Sys, printerAsks: bool, diskAsks: bool)
    requires Places(s) && Enabled(s, IoSteps(printerAsks, diskAsks))
    ensures Places(AfterIo(s, printerAsks, diskAsks))
  {
    hide IoStep;
    if s.io.phase.Serving? {
      var j, r := s.io.phase.request.job, AfterIo(s, printerAsks, diskAsks);
      StaysListed(s, r, j);
      CoresStay(s.cores, s.pcbs, r.pcbs, j);
    }
  }

  /** Steps that move no process. */
  lemma QuietKeepsPlaces(s: Sys, l: Label)
    requires Places(s) && Enabled(s, l)
    requires l.CoreChecks? || l.CoreAsks? || l.WorkerChecks? || l.WorkerSkips? || l.WorkerErases? || l.WorkerEnds?
    ensures Places(Next(s, l))
  {
    hide Lists, CoresHold;
    match l
    case CoreChecks(c) => IdleCoreMoves(s, c, if s.finished < |s.procs| then AtGet else AtHasProcesses);
    case CoreAsks(c) => IdleCoreMoves(s, c, if s.queue != [] then AtGet else Exited);
    case _ =>
  }

  lemma StepKeepsPlaces(s: Sys, l: Label)
    requires Places(s)
    ensures Places(Next(s, l))
  {
    if Enabled(s, l) {
      hide Places, AfterChecks, AfterAsks, AfterGets, AfterRuns, AfterRegisters, AfterParks, AfterFinishes,
        AfterPreempts, AfterPushes, AfterMoves, AfterErases, AfterIo;
      match l
      case CoreGets(c) => GetsKeepsPlaces(s, c);
      case CoreRuns(c) => RunsKeepsPlaces(s, c);
      case CoreRegisters(c) => RegistersKeepsPlaces(s, c);
      case CoreParks(c) => ParksKeepsPlaces(s, c);
      case CoreFinishes(c) => FinishesKeepsPlaces(s, c);
      case CorePreempts(c, q) => PreemptsKeepsPlaces(s, c, q);
      case CorePushes(c) => PushesKeepsPlaces(s, c);
      case WorkerMoves(q) => MovesKeepsPlaces(s, q);
      case IoSteps(printerAsks, diskAsks) => IoKeepsPlaces(s, printerAsks, diskAsks);
      case _ => QuietKeepsPlaces(s, l);
    }
  }

  lemma InitialPlaces(s: Sys)
    requires Initial(s)
    ensures Places(s)
  {
    DistinctOnce(s.procs);
    InitialLists(s.queue, s.procs, s.pcbs);
  }

  lemma InitialLists(q: seq<Job>, procs: seq<Job>, pcbs: map<Job, Pcb>)
    requires multiset(q) == multiset(procs) && forall j :: multiset(procs)[j] <= 1
    requires forall j :: j in pcbs <==> j in procs
    requires forall j | j in pcbs :: pcbs[j].place == Queued
    ensures Lists(q, pcbs, Queued) && Lists([], pcbs, Parked) && Lists([], pcbs, Done)
  {
    forall j
      ensures multiset(q)[j] == if j in procs then 1 else 0
    {
      assert j in procs <==> j in multiset(procs);
    }
  }

  lemma {:induction false} DistinctOnce(q: seq<Job>)
    requires forall i, j | 0 <= i < j < |q| :: q[i] != q[j]
    ensures forall j :: multiset(q)[j] <= 1
  {
    if q != [] {
      DistinctOnce(q[1..]);
      assert q == [q[0]] + q[1..];
      assert q[0] !in q[1..];
    }
  }
}
