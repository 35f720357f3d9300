/** Processes that fit into RAM together run as if alone: the condition is about each process on its own. */
module SharedFootprint {
  import opened Words
  import opened CacheSpec
  import opened Isa
  import Pipeline
  import opened PipelineRefinement
  import opened Slices
  import opened Paging
  import opened FlatMemory
  import opened Footprint
  import opened SharedMemory

  /** An aligned request within `keys` that reads no word left over in a page and stores no 0xFFFFFFFF. */
  ghost predicate RequestFits(pid: int, mem: Mem, r: Request, keys: set<Key>) {
    match r
    case Nothing => true
    case Read(a) => a % 4 == 0 && KeyOf(pid, a) in keys && Defined(mem, a)
    case Store(a, w) => a % 4 == 0 && KeyOf(pid, a) in keys && w != MISS
  }

  /** The event makes such a request; programs are loaded before their first slice. */
  ghost predicate EventFits(privates: map<int, Private>, e: Event, keys: set<Key>) {
    e.pid in privates && Ready(privates[e.pid]) ==>
      var q := privates[e.pid];
      match e
      case Go(pid) => RequestFits(pid, Seen(q).mem, Asks(Seen(q), q.at), keys)
      case Begin(_, _) => true
      case LoadWord(pid, a, w) => q.at.Idle? && q.quanta == [] && RequestFits(pid, Seen(q).mem, Store(a, w), keys)
  }

  /** Every event does, on the memories the processes have of their own. */
  ghost predicate RunFits(privates: map<int, Private>, es: seq<Event>, keys: set<Key>) {
    es == [] ||
    var before := es[..|es| - 1];
    RunFits(privates, before, keys) && EventFits(PrivatesAfter(privates, before), es[|es| - 1], keys)
  }

  lemma RequestServed(m: Mmu, pid: int, mem: Mem, r: Request, keys: set<Key>)
    requires Mapped(m) && Fits(m, keys) && RequestFits(pid, mem, r, keys)
    ensures RequestOk(m, pid, mem, r) && Fits(Answer(m, pid, r).0, keys)
  {
    hide Mapped, Fits, Undisturbed, LosesWrite, Paging.Read, Paging.Write;
    match r
    case Nothing =>
    case Read(a) => FitStep(m, keys, Rd(KeyOf(pid, a), OffsetIn(a)));
    case Store(a, w) => FitStep(m, keys, Wr(KeyOf(pid, a), OffsetIn(a), w));
  }

  lemma EventServed(sys: System, privates: map<int, Private>, e: Event, keys: set<Key>)
    requires Synchronous(sys, privates) && Fits(sys.m, keys) && EventFits(privates, e, keys)
    ensures EventOk(sys, privates, e) && Fits(SharedNext(sys, e).m, keys)
  {
    hide Mapped, Fits, RequestOk, RequestFits, Answer, Served, Asks, Seen, Holds, Goal, Sound;
    if e.pid in privates {
      var q := privates[e.pid];
      assert InStep(sys.m, e.pid, sys.procs[e.pid], q);
      match e
      case Go(pid) =>
        ErasedAsks(Seen(q), q.at);
        RequestServed(sys.m, pid, Seen(q).mem, Asks(Seen(q), q.at), keys);
      case Begin(_, _) =>
      case LoadWord(pid, a, w) => RequestServed(sys.m, pid, Seen(q).mem, Store(a, w), keys);
    }
  }

  lemma {:induction false} RunServed(sys: System, privates: map<int, Private>, es: seq<Event>, keys: set<Key>)
    requires Synchronous(sys, privates) && Fits(sys.m, keys) && RunFits(privates, es, keys)
    ensures RunOk(sys, privates, es) && Fits(SharedAfter(sys, es).m, keys)
  {
    hide Synchronous, EventOk, EventFits, SharedNext, PrivateNextOf, Fits;
    if es != [] {
      var before := es[..|es| - 1];
      RunServed(sys, privates, before, keys);
      RunSynchronous(sys, privates, before);
      EventServed(SharedAfter(sys, before), PrivatesAfter(privates, before), es[|es| - 1], keys);
    }
  }

  /** A machine as constructed, processes before their programs are loaded, and what happens from there on. */
  datatype Setup = Setup(ramBytes: nat, diskWords: nat, privates: map<int, Private>, events: seq<Event>)

  function Start(x: Setup): System {
    StartOf(x.ramBytes, x.diskWords, x.privates)
  }

  function Final(x: Setup): System {
    SharedAfter(Start(x), x.events)
  }

  function Alone(x: Setup): map<int, Private> {
    PrivatesAfter(x.privates, x.events)
  }

  /** There is a frame for every page the processes touch, and each of them, on a memory of its own, makes aligned
      requests, reads no word left over in a page and stores no 0xFFFFFFFF. */
  ghost predicate FitsTogether(x: Setup) {
    && 32 <= x.ramBytes < 4128 && Unloaded(x.privates)
    && exists keys :: |keys| <= x.ramBytes / PAGE_SIZE && RunFits(x.privates, x.events, keys)
  }

  lemma FittingRunOk(x: Setup)
    requires FitsTogether(x)
    ensures Synchronous(Start(x), x.privates) && RunOk(Start(x), x.privates, x.events)
  {
    hide RunOk, RunFits, SharedAfter, PrivatesAfter, Synchronous, Unloaded;
    var keys :| |keys| <= x.ramBytes / PAGE_SIZE && RunFits(x.privates, x.events, keys);
    StartSynchronous(x.ramBytes, x.diskWords, x.privates);
    InitialFits(x.ramBytes, x.diskWords, keys);
    RunServed(Start(x), x.privates, x.events, keys);
  }

  /** Processes whose pages all fit into RAM run as if alone, in every interleaving of their stages, dispatches and
      loading. */
  lemma FittingRunsAlone(x: Setup, pid: int)
    requires FitsTogether(x) && pid in Final(x).procs && Final(x).procs[pid].at.Idle?
    ensures pid in Alone(x) && RanAlone(Final(x), pid, Alone(x)[pid].origin, Alone(x)[pid].quanta)
  {
    hide RunOk, FitsTogether, SharedAfter, PrivatesAfter, RanAlone, Synchronous, StartOf;
    FittingRunOk(x);
    SharedRunsAlone(Start(x), x.privates, x.events, pid);
  }

  /** Schedule independence for processes that fit: in any two such runs, with whatever other processes, quanta and
      interleavings, the same faithful program finishes in the final state of its sequential run, the words of memory
      included. */
  lemma FittingScheduleIndependence(x: Setup, y: Setup, pid: int) returns (n: nat)
    requires FitsTogether(x) && FitsTogether(y)
    requires pid in Final(x).procs && pid in Final(y).procs && pid in Alone(x) && pid in Alone(y)
    requires var p, q := Final(x).procs[pid], Final(y).procs[pid];
             p.at.Idle? && q.at.Idle? && p.s.state == Pipeline.Finished == q.s.state
    requires var start := Alone(x)[pid].origin;
             && start == Alone(y)[pid].origin && start.state != Pipeline.Finished
             && StoresSafe(ArchOf(start)) && JumpsSafe(ArchOf(start))
    ensures var e := SeqRun(ArchOf(Alone(x)[pid].origin), n);
            && AtStop(e)
            && EndedAs(Final(x).m, pid, Final(x).procs[pid].s, e) && EndedAs(Final(y).m, pid, Final(y).procs[pid].s, e)
  {
    hide RunOk, FitsTogether, SharedAfter, PrivatesAfter, Synchronous, StartOf, EndedAs, StoresSafe, JumpsSafe, SeqRun,
      AtStop;
    FittingRunOk(x);
    FittingRunOk(y);
    n := SharedScheduleIndependence(Start(x), x.privates, x.events, Start(y), y.privates, y.events, pid);
  }
}
