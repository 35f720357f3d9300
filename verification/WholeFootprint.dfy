/** The whole system with processes that fit into RAM together: all that is asked of a process is asked of it alone. */
module WholeFootprint {
  import opened Isa
  import opened PipelineRefinement
  import opened ReadyQueue
  import opened Paging
  import opened Footprint
  import opened SharedFootprint
  import opened Protocol
  import opened ProtocolExecution
  import opened ProtocolResults
  import opened WholeSystem
  import Shared = SharedMemory

  // ---------------------------------------------------------------------------------------------------------------
  // A process alone
  // ---------------------------------------------------------------------------------------------------------------

  /** The process alone after `n` stages and dispatches of the given quantum. */
  function Solo(q: Shared.Private, quantum: int, n: nat): Shared.Private {
    if n == 0 then q
    else
      var p := Solo(q, quantum, n - 1);
      if p.at.Idle? then Shared.BeginPrivate(p, quantum) else if Shared.Ready(p) then Shared.GoPrivate(p) else p
  }

  /** Alone, the process makes only aligned requests within `keys`, reads no word left over in a page and stores no
      0xFFFFFFFF. */
  ghost predicate SoloFits(pid: int, q: Shared.Private, quantum: int, keys: set<Key>) {
    forall n: nat | Shared.Ready(Solo(q, quantum, n)) ::
      var p := Solo(q, quantum, n);
      RequestFits(pid, Shared.Seen(p).mem, Shared.Asks(Shared.Seen(p), p.at), keys)
  }

  /** There is a frame for every page the processes touch. */
  ghost predicate AllFit(w: Whole, s: Sys, privates: map<int, Shared.Private>, keys: set<Key>) {
    && Starts(w, s, privates) && Fits(w.shared.m, keys)
    && forall pid | pid in privates :: SoloFits(pid, privates[pid], s.quantum, keys)
  }

  ghost predicate OnSoloWay(pid: int, p: Shared.Private, q: Shared.Private, quantum: int) {
    exists n: nat :: p == Solo(q, quantum, n)
  }

  /** Where the processes are in a run of the whole system, each is in its run alone. */
  ghost predicate AllSolo(now: map<int, Shared.Private>, privates: map<int, Shared.Private>, quantum: int) {
    now.Keys == privates.Keys && forall pid | pid in now :: OnSoloWay(pid, now[pid], privates[pid], quantum)
  }

  lemma SoloMoves(q: Shared.Private, p: Shared.Private, pid: int, quantum: int)
    requires OnSoloWay(pid, p, q, quantum)
    ensures p.at.Idle? ==> OnSoloWay(pid, Shared.BeginPrivate(p, quantum), q, quantum)
    ensures !p.at.Idle? && Shared.Ready(p) ==> OnSoloWay(pid, Shared.GoPrivate(p), q, quantum)
  {
    hide Shared.BeginPrivate, Shared.GoPrivate, Shared.Ready;
    var n: nat :| p == Solo(q, quantum, n);
    var next := Solo(q, quantum, n + 1);
    assert OnSoloWay(pid, next, q, quantum);
  }

  lemma SoloRequestFits(pid: int, p: Shared.Private, q: Shared.Private, quantum: int, keys: set<Key>)
    requires OnSoloWay(pid, p, q, quantum) && SoloFits(pid, q, quantum, keys) && Shared.Ready(p)
    ensures RequestFits(pid, Shared.Seen(p).mem, Shared.Asks(Shared.Seen(p), p.at), keys)
  {
    hide Solo, RequestFits, Shared.Seen, Shared.Asks, Shared.Ready;
    var n: nat :| p == Solo(q, quantum, n);
  }

  // ---------------------------------------------------------------------------------------------------------------
  // Runs of the whole system
  // ---------------------------------------------------------------------------------------------------------------

  /** What an act wants of a process. */
  lemma EventIs(w: Whole, a: Act)
    requires EventOf(w, a).Some?
    ensures var e := EventOf(w, a).value;
            && e.pid in w.shared.procs && WholeNext(w, a).shared == Shared.SharedNext(w.shared, e)
            && e == if w.shared.procs[e.pid].at.Idle? then Shared.Begin(e.pid, w.sys.quantum) else Shared.Go(e.pid)
  {
    hide Shared.SharedNext, AfterSlice;
  }

  lemma ActFits(w: Whole, now: map<int, Shared.Private>, privates: map<int, Shared.Private>, quantum: int, a: Act,
                keys: set<Key>)
    requires Shared.Synchronous(w.shared, now) && Fits(w.shared.m, keys) && AllSolo(now, privates, quantum)
    requires forall pid | pid in privates :: SoloFits(pid, privates[pid], quantum, keys)
    requires w.sys.quantum == quantum
    ensures Allowed(w, now, a) && Fits(WholeNext(w, a).shared.m, keys)
    ensures AllSolo(PrivatesNext(w, now, a), privates, quantum)
  {
    hide Fits, EventOf, WholeNext, OnSoloWay, SoloFits, RequestFits, Shared.Synchronous, Shared.EventOk,
      Shared.SharedNext, Shared.Seen, Shared.Asks, Shared.Ready, Shared.BeginPrivate, Shared.GoPrivate;
    if EventOf(w, a).None? {
      NoEventNext(w, now, a);
    } else {
      EventIs(w, a);
      var e := EventOf(w, a).value;
      assert e.pid in now by { KeysAgree(w.shared, now); }
      ProcIsPrivate(w.shared, now, e.pid);
      SoloRequestFits(e.pid, now[e.pid], privates[e.pid], quantum, keys);
      EventServed(w.shared, now, e, keys);
      SoloMoves(privates[e.pid], now[e.pid], e.pid, quantum);
    }
  }

  lemma KeysAgree(shared: Shared.System, privates: map<int, Shared.Private>)
    requires Shared.Synchronous(shared, privates)
    ensures shared.procs.Keys == privates.Keys
  {
    hide Shared.InStep;
  }

  lemma SameQuantum(w: Whole, s0: Sys, ls: seq<Label>)
    requires Initial(s0) && w.sys == ErasedSys(After(s0, ls))
    ensures w.sys.quantum == s0.quantum
  {
    hide After, Initial, ProtocolStatus.Orderly, ProtocolQueue.QueueOk, Counted, TimeOk, Ran, Charged, ErasedPcbs;
    EveryRunGood(s0, ls);
  }

  /** Processes that fit make only requests that the shared memory serves flatly, in every run of the whole system. */
  lemma {:induction false} FittingRunAllowed(w0: Whole, s0: Sys, privates: map<int, Shared.Private>, acts: seq<Act>,
                                             keys: set<Key>)
    requires AllFit(w0, s0, privates, keys)
    ensures AllowedRun(w0, privates, acts) && Fits(WholeAfter(w0, acts).shared.m, keys)
    ensures AllSolo(WholeSystem.Alone(w0, privates, acts), privates, s0.quantum)
  {
    hide Fits, SoloFits, OnSoloWay, WholeNext, PrivatesNext, Allowed, AllMatch, After, Shared.Synchronous, ErasedSys;
    assert Initial(s0);
    hide Starts, Initial;
    if acts == [] {
      StartsSolo(privates, s0.quantum);
    } else {
      var before := acts[..|acts| - 1];
      FittingRunAllowed(w0, s0, privates, before, keys);
      var ls := WholeRunIsProtocolRun(w0, s0, privates, before);
      SameQuantum(WholeAfter(w0, before), s0, ls);
      var now := WholeSystem.Alone(w0, privates, before);
      ActFits(WholeAfter(w0, before), now, privates, s0.quantum, acts[|acts| - 1], keys);
    }
  }

  lemma StartsSolo(privates: map<int, Shared.Private>, quantum: int)
    ensures AllSolo(privates, privates, quantum)
  {
    forall pid | pid in privates
      ensures OnSoloWay(pid, privates[pid], privates[pid], quantum)
    {
      assert privates[pid] == Solo(privates[pid], quantum, 0);
    }
  }

  // ---------------------------------------------------------------------------------------------------------------
  // Loading
  // ---------------------------------------------------------------------------------------------------------------

  predicate NotBegun(privates: map<int, Shared.Private>) {
    forall pid | pid in privates :: privates[pid].at.Idle? && privates[pid].quanta == []
  }

  lemma LoadKeepsIdle(privates: map<int, Shared.Private>, e: Shared.Event)
    requires NotBegun(privates) && e.LoadWord?
    ensures NotBegun(Shared.PrivateNextOf(privates, e))
  {
  }

  lemma {:induction false} LoadedIdle(privates: map<int, Shared.Private>, es: seq<Shared.Event>)
    requires NotBegun(privates) && forall e | e in es :: e.LoadWord?
    ensures NotBegun(Shared.PrivatesAfter(privates, es))
  {
    hide Shared.PrivateNextOf, NotBegun;
    if es != [] {
      var n := |es| - 1;
      LoadedIdle(privates, es[..n]);
      LoadKeepsIdle(Shared.PrivatesAfter(privates, es[..n]), es[n]);
    }
  }

  /** A machine as constructed into which programs that fit have been loaded is one on which runs start. */
  lemma LoadedStarts(x: Setup, s: Sys, keys: set<Key>)
    requires 32 <= x.ramBytes < 4128 && |keys| <= x.ramBytes / PAGE_SIZE
    requires Shared.Unloaded(x.privates) && RunFits(x.privates, x.events, keys)
    requires forall e | e in x.events :: e.LoadWord?
    requires Initial(s) && Pids(s, SharedFootprint.Alone(x))
    requires forall j | j in s.pcbs :: s.pcbs[j].st == SharedFootprint.Alone(x)[j.pid].tick
    ensures Starts(Whole(ErasedSys(s), Final(x)), s, SharedFootprint.Alone(x)) && Fits(Final(x).m, keys)
  {
    LoadedIdle(x.privates, x.events);
    hide Initial, RunFits, Fits, Shared.RunOk, Shared.SharedAfter, Shared.PrivatesAfter, Shared.Synchronous,
      Shared.Unloaded, ErasedSys;
    Shared.StartSynchronous(x.ramBytes, x.diskWords, x.privates);
    InitialFits(x.ramBytes, x.diskWords, keys);
    RunServed(Start(x), x.privates, x.events, keys);
    Shared.RunSynchronous(Start(x), x.privates, x.events);
  }

  // ---------------------------------------------------------------------------------------------------------------
  // Results
  // ---------------------------------------------------------------------------------------------------------------

  /** Schedule independence of the whole system for processes that fit: whatever the policy, quantum, number of cores,
      competing processes, devices and interleaving of steps and stages, the same faithful program finishes in the
      final state of its sequential run, the words of memory included. Nothing is asked of the runs. */
  lemma FittingWholeIndependence(w1: Whole, s1: Sys, privates1: map<int, Shared.Private>, acts1: seq<Act>,
                                 w2: Whole, s2: Sys, privates2: map<int, Shared.Private>, acts2: seq<Act>,
                                 keys1: set<Key>, keys2: set<Key>, j: Job)
    returns (n: nat)
    requires AllFit(w1, s1, privates1, keys1) && AllFit(w2, s2, privates2, keys2)
    requires j in s1.procs && j in s2.procs && j in s1.pcbs && j in s2.pcbs
    requires s1.pcbs[j].st == s2.pcbs[j].st && Faithful(s1.pcbs[j].st)
    requires j in WholeAfter(w1, acts1).sys.done && j in WholeAfter(w2, acts2).sys.done
    ensures j in WholeAfter(w1, acts1).sys.pcbs && j in WholeAfter(w2, acts2).sys.pcbs
    ensures var r1, r2, e := WholeAfter(w1, acts1), WholeAfter(w2, acts2), SeqRun(ArchOf(s1.pcbs[j].st), n);
            && AtStop(e)
            && Shared.EndedAs(r1.shared.m, j.pid, r1.sys.pcbs[j].st, e)
            && Shared.EndedAs(r2.shared.m, j.pid, r2.sys.pcbs[j].st, e)
  {
    hide Starts, Fits, SoloFits, WholeAfter, AllowedRun, WholeSystem.Alone, AllSolo, Faithful, Shared.EndedAs, SeqRun,
      AtStop;
    FittingRunAllowed(w1, s1, privates1, acts1, keys1);
    FittingRunAllowed(w2, s2, privates2, acts2, keys2);
    n := WholeScheduleIndependence(w1, s1, privates1, acts1, w2, s2, privates2, acts2, j);
  }
}
