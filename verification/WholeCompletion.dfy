/** Every run of the whole system with processes that fit into RAM can be completed. */
module WholeCompletion {
  import opened Pipeline
  import opened ReadyQueue
  import opened Paging
  import opened Protocol
  import opened ProtocolStatus
  import opened ProtocolExecution
  import opened ProtocolResults
  import opened ProtocolCompletion
  import opened WholeSystem
  import opened WholeFootprint
  import Shared = SharedMemory

  // ---------------------------------------------------------------------------------------------------------------
  // The rest of a slice
  // ---------------------------------------------------------------------------------------------------------------

  function PointsLeft(at: Shared.Point): nat {
    match at
    case InWb => 6
    case InMem => 5
    case InEx => 4
    case InId => 3
    case InIf => 2
    case InClock => 1
    case Idle => 0
  }

  /** A stage ends the slice or brings its end closer. */
  lemma GoComesCloser(q: Shared.Private)
    requires Shared.Ready(q) && !q.at.Idle?
    ensures var q' := Shared.GoPrivate(q);
            || q'.at.Idle?
            || (q'.tick.counterForEnd < q.tick.counterForEnd && q.tick.counterForEnd > 0)
            || (q'.tick.counterForEnd == q.tick.counterForEnd
                && q.tick.quantum - q.tick.clock > q'.tick.quantum - q'.tick.clock > 0)
            || (q'.tick == q.tick && PointsLeft(q'.at) < PointsLeft(q.at))
  {
    hide Tick;
  }

  /** Core `c` has taken the process and can run its slice. */
  predicate Takes(s: Sys, c: nat, j: Job) {
    c < |s.cores| == |s.clock| == |s.busy| && s.cores[c] == Took(j) && j in s.pcbs
  }

  /** The core has the process in the whole system, too. */
  lemma SliceRuns(w: Whole, s: Sys, privates: map<int, Shared.Private>, c: nat, j: Job)
    requires Simulates(w, s, privates) && Takes(s, c, j)
    ensures j.pid in privates && Shared.Ready(privates[j.pid]) && c < |w.sys.cores| && w.sys.cores[c] == Took(j)
    ensures if privates[j.pid].at.Idle? then EventOf(w, Begins(c)).Some? else EventOf(w, Stage(c)).Some?
  {
    hide Matches, Shared.Ready, Shared.Synchronous, Shared.Seen;
    MatchOf(s, privates, j);
    ProcIsPrivate(w.shared, privates, j.pid);
  }

  /** How a run goes on by one act. */
  lemma OneMore(w0: Whole, privates: map<int, Shared.Private>, acts: seq<Act>, a: Act)
    ensures WholeAfter(w0, acts + [a]) == WholeNext(WholeAfter(w0, acts), a)
    ensures Alone(w0, privates, acts + [a]) == PrivatesNext(WholeAfter(w0, acts), Alone(w0, privates, acts), a)
    ensures AllowedRun(w0, privates, acts + [a]) ==> Allowed(WholeAfter(w0, acts), Alone(w0, privates, acts), a)
  {
    hide WholeNext, PrivatesNext, Allowed;
    assert (acts + [a])[..|acts|] == acts;
  }

  /** A run has come to where `s` is the protocol's state and core `c` is in a slice of the process, which is at `q`. */
  ghost predicate InSlice(w0: Whole, s0: Sys, privates: map<int, Shared.Private>, acts: seq<Act>, s: Sys, c: nat,
                          j: Job, q: Shared.Private)
  {
    && Takes(s, c, j) && !q.at.Idle? && Shared.Ready(q)
    && j.pid in Alone(w0, privates, acts) && Alone(w0, privates, acts)[j.pid] == q
    && Good(s, s0) && Simulates(WholeAfter(w0, acts), s, Alone(w0, privates, acts))
  }

  lemma NextAllowed(w0: Whole, s0: Sys, privates: map<int, Shared.Private>, acts: seq<Act>, a: Act, keys: set<Key>)
    requires AllFit(w0, s0, privates, keys)
    ensures Allowed(WholeAfter(w0, acts), Alone(w0, privates, acts), a)
  {
    hide AllFit, WholeAfter, Alone, AllowedRun, Allowed, AllSolo, Footprint.Fits, WholeNext, PrivatesNext;
    FittingRunAllowed(w0, s0, privates, acts + [a], keys);
    OneMore(w0, privates, acts, a);
  }

  /** One stage from anywhere in a slice. */
  lemma StageOnce(w: Whole, s: Sys, now: map<int, Shared.Private>, c: nat, j: Job, q: Shared.Private)
    requires Simulates(w, s, now) && Takes(s, c, j) && Allowed(w, now, Stage(c))
    requires j.pid in now && now[j.pid] == q && !q.at.Idle? && Shared.Ready(q)
    ensures var q', now' := Shared.GoPrivate(q), PrivatesNext(w, now, Stage(c));
            && j.pid in now' && now'[j.pid] == q' && Shared.Ready(q')
            && Simulates(WholeNext(w, Stage(c)), if q'.at.Idle? then Next(s, CoreRuns(c)) else s, now')
  {
    hide Simulates, Takes, WholeNext, PrivatesNext, Next, EventOf, Shared.EventOk, Shared.GoPrivate, Shared.Ready;
    SliceRuns(w, s, now, c, j);
    var l := StageSimulates(w, s, now, c);
    SliceReady(q);
  }

  lemma SliceReady(q: Shared.Private)
    requires Shared.Ready(q)
    ensures Shared.Ready(Shared.GoPrivate(q))
  {
    hide Tick;
  }

  /** The next stage of the slice. */
  lemma StageOn(w0: Whole, s0: Sys, privates: map<int, Shared.Private>, acts: seq<Act>, s: Sys, c: nat, j: Job,
                q: Shared.Private, keys: set<Key>)
    requires AllFit(w0, s0, privates, keys) && InSlice(w0, s0, privates, acts, s, c, j, q) && Shared.Ready(q)
    ensures var acts', q' := acts + [Stage(c)], Shared.GoPrivate(q);
            if q'.at.Idle?
            then Simulates(WholeAfter(w0, acts'), Next(s, CoreRuns(c)), Alone(w0, privates, acts'))
            else InSlice(w0, s0, privates, acts', s, c, j, q')
  {
    hide AllFit, Good, Simulates, Takes, WholeAfter, Alone, AllowedRun, Allowed, WholeNext, PrivatesNext, Next,
      Shared.GoPrivate, Shared.Ready;
    NextAllowed(w0, s0, privates, acts, Stage(c), keys);
    OneMore(w0, privates, acts, Stage(c));
    StageOnce(WholeAfter(w0, acts), s, Alone(w0, privates, acts), c, j, q);
  }

  lemma InSliceReady(w0: Whole, s0: Sys, privates: map<int, Shared.Private>, acts: seq<Act>, s: Sys, c: nat, j: Job,
                     q: Shared.Private)
    requires InSlice(w0, s0, privates, acts, s, c, j, q)
    ensures Shared.Ready(q) && !q.at.Idle?
  {
    hide Good, Takes, Simulates, WholeAfter, Alone, Shared.Ready;
  }

  /** A slice that has begun can be finished. */
  lemma {:induction false} SliceCanFinish(w0: Whole, s0: Sys, privates: map<int, Shared.Private>, acts: seq<Act>,
                                          s: Sys, c: nat, j: Job, q: Shared.Private, keys: set<Key>)
    returns (more: seq<Act>)
    requires AllFit(w0, s0, privates, keys) && InSlice(w0, s0, privates, acts, s, c, j, q)
    ensures Simulates(WholeAfter(w0, acts + more), Next(s, CoreRuns(c)), Alone(w0, privates, acts + more))
    decreases q.tick.counterForEnd, q.tick.quantum - q.tick.clock, PointsLeft(q.at)
  {
    hide AllFit, InSlice, Simulates, Next, Shared.GoPrivate, Shared.Ready, WholeAfter, Alone;
    InSliceReady(w0, s0, privates, acts, s, c, j, q);
    StageOn(w0, s0, privates, acts, s, c, j, q, keys);
    GoComesCloser(q);
    more := [Stage(c)];
    var q' := Shared.GoPrivate(q);
    if !q'.at.Idle? {
      var rest := SliceCanFinish(w0, s0, privates, acts + [Stage(c)], s, c, j, q', keys);
      more := [Stage(c)] + rest;
      assert acts + more == acts + [Stage(c)] + rest;
    }
  }

  // ---------------------------------------------------------------------------------------------------------------
  // Following the protocol
  // ---------------------------------------------------------------------------------------------------------------

  /** The run has come to where `s` is the protocol's state. */
  ghost predicate Reaches(w0: Whole, privates: map<int, Shared.Private>, acts: seq<Act>, s: Sys) {
    Simulates(WholeAfter(w0, acts), s, Alone(w0, privates, acts))
  }

  lemma ControlAt(w0: Whole, s0: Sys, privates: map<int, Shared.Private>, acts: seq<Act>, s: Sys, l: Label)
    requires Reaches(w0, privates, acts, s) && Good(s, s0) && !l.CoreRuns?
    ensures Reaches(w0, privates, acts + [Control(l)], Next(s, l))
  {
    hide Simulates, WholeAfter, Alone, Good, Next, EventOf, WholeNext, PrivatesNext, AllowedRun, Allowed, Orderly;
    OneMore(w0, privates, acts, Control(l));
    GoodIsOrderly(s, s0);
    ControlSimulates(WholeAfter(w0, acts), s, Alone(w0, privates, acts), l);
    assert EventOf(WholeAfter(w0, acts), Control(l)).None? by { NoEventOfControl(WholeAfter(w0, acts), l); }
    NoEventNext(WholeAfter(w0, acts), Alone(w0, privates, acts), Control(l));
  }

  lemma NoEventOfControl(w: Whole, l: Label)
    ensures EventOf(w, Control(l)).None?
  {
  }

  /** A process of which a slice begins. */
  lemma BegunInSlice(w: Whole, s: Sys, s0: Sys, now: map<int, Shared.Private>, c: nat, j: Job)
    requires Simulates(w, s, now) && Good(s, s0) && Takes(s, c, j) && j.pid in now && now[j.pid].at.Idle?
    ensures EventOf(w, Begins(c)).Some? && Simulates(WholeNext(w, Begins(c)), s, PrivatesNext(w, now, Begins(c)))
    ensures var now' := PrivatesNext(w, now, Begins(c));
            j.pid in now' && !now'[j.pid].at.Idle? && Shared.Ready(now'[j.pid])
  {
    hide Good, Simulates, AllMatch, Matches, WholeNext, PrivatesNext, Takes, Shared.Ready, Shared.Synchronous,
      Shared.Seen, EventOf, Enabled;
    SliceRuns(w, s, now, c, j);
    BeginSimulates(w, s, s0, now, c);
    SliceRuns(WholeNext(w, Begins(c)), s, PrivatesNext(w, now, Begins(c)), c, j);
    BeginIs(w, s, s0, now, c, j);
  }

  lemma BeginIs(w: Whole, s: Sys, s0: Sys, now: map<int, Shared.Private>, c: nat, j: Job)
    requires Simulates(w, s, now) && Good(s, s0) && Takes(s, c, j) && EventOf(w, Begins(c)).Some? && j.pid in now
    ensures j.pid in PrivatesNext(w, now, Begins(c)) && !PrivatesNext(w, now, Begins(c))[j.pid].at.Idle?
  {
    hide Good, Matches, Shared.Ready, Shared.Synchronous, Shared.Seen, EventOf, WholeNext;
    BeginNext(w, c);
    ErasedExecuting(w, s, c);
    TakenCanRun(s, s0, c);
    MatchOf(s, now, j);
    ProcIsPrivate(w.shared, now, j.pid);
    MatchesIdle(s, j, now[j.pid]);
  }

  /** A slice of the protocol, from its start or from where it is. */
  lemma SliceAt(w0: Whole, s0: Sys, privates: map<int, Shared.Private>, acts: seq<Act>, s: Sys, c: nat, j: Job,
                keys: set<Key>)
    returns (more: seq<Act>)
    requires AllFit(w0, s0, privates, keys) && Reaches(w0, privates, acts, s) && Good(s, s0) && Takes(s, c, j)
    ensures Reaches(w0, privates, acts + more, Next(s, CoreRuns(c)))
  {
    hide AllFit, Simulates, WholeAfter, Alone, Good, Next, EventOf, WholeNext, PrivatesNext, AllowedRun, Allowed, Takes,
      Shared.Ready;
    var w, now := WholeAfter(w0, acts), Alone(w0, privates, acts);
    SliceRuns(w, s, now, c, j);
    if now[j.pid].at.Idle? {
      OneMore(w0, privates, acts, Begins(c));
      BegunInSlice(w, s, s0, now, c, j);
      var q := Alone(w0, privates, acts + [Begins(c)])[j.pid];
      var rest := SliceCanFinish(w0, s0, privates, acts + [Begins(c)], s, c, j, q, keys);
      more := [Begins(c)] + rest;
      assert acts + more == acts + [Begins(c)] + rest;
    } else {
      more := SliceCanFinish(w0, s0, privates, acts, s, c, j, now[j.pid], keys);
    }
  }

  lemma EnabledTakes(s: Sys, c: nat) returns (j: Job)
    requires Enabled(s, CoreRuns(c))
    ensures Takes(s, c, j)
  {
    j := s.cores[c].job;
  }

  /** The whole system can do what the protocol does. */
  lemma LabelAt(w0: Whole, s0: Sys, privates: map<int, Shared.Private>, acts: seq<Act>, s: Sys, l: Label,
                keys: set<Key>)
    returns (more: seq<Act>)
    requires AllFit(w0, s0, privates, keys) && Reaches(w0, privates, acts, s) && Good(s, s0)
    ensures Reaches(w0, privates, acts + more, Next(s, l))
  {
    hide AllFit, Reaches, Good, Next, Enabled;
    if !l.CoreRuns? {
      more := [Control(l)];
      ControlAt(w0, s0, privates, acts, s, l);
    } else {
      NextRuns(s, l.core);
      if Enabled(s, l) {
        var j := EnabledTakes(s, l.core);
        more := SliceAt(w0, s0, privates, acts, s, l.core, j, keys);
      } else {
        more := [];
        assert acts + more == acts;
      }
    }
  }

  lemma {:induction false} LabelsAt(w0: Whole, s0: Sys, privates: map<int, Shared.Private>, acts: seq<Act>,
                                    ls: seq<Label>, more: seq<Label>, keys: set<Key>)
    returns (rest: seq<Act>)
    requires AllFit(w0, s0, privates, keys) && Reaches(w0, privates, acts, After(s0, ls)) && Initial(s0)
    ensures Reaches(w0, privates, acts + rest, After(s0, ls + more))
  {
    hide AllFit, Reaches, Good, Next, Initial;
    if more == [] {
      rest := [];
      assert ls + more == ls && acts + rest == acts;
    } else {
      var n := |more| - 1;
      var first := LabelsAt(w0, s0, privates, acts, ls, more[..n], keys);
      var ls' := ls + more[..n];
      EveryRunGood(s0, ls');
      var last := LabelAt(w0, s0, privates, acts + first, After(s0, ls'), more[n], keys);
      rest := first + last;
      assert acts + rest == acts + first + last;
      assert (ls + more)[..|ls + more| - 1] == ls' && (ls + more)[|ls + more| - 1] == more[n];
    }
  }

  /** Every run of the whole system can be completed: with faithful programs that stop and fit into RAM together,
      whatever has happened so far under whatever policy, some continuation finishes all processes and stops all cores
      and the IO worker. */
  lemma WholeRunCanBeCompleted(w0: Whole, s0: Sys, privates: map<int, Shared.Private>, acts: seq<Act>, keys: set<Key>,
                               limits: map<Job, nat>)
    returns (more: seq<Act>)
    requires AllFit(w0, s0, privates, keys) && Stopping(s0, limits) && (s0.procs != [] ==> s0.cores != [])
    ensures var r := WholeAfter(w0, acts + more).sys; AllStopped(r) && multiset(r.done) == multiset(s0.procs)
  {
    hide Footprint.Fits, SoloFits, Stopping, WholeAfter, Alone, AllowedRun, AllSolo, After, Initial, AllMatch,
      Shared.Synchronous;
    FittingRunAllowed(w0, s0, privates, acts, keys);
    var ls := WholeRunIsProtocolRun(w0, s0, privates, acts);
    assert Initial(s0);
    var labels := EveryRunCanBeCompleted(s0, ls, limits);
    more := LabelsAt(w0, s0, privates, acts, ls, labels, keys);
  }
}
