/** What the cores compute, count and charge over whole runs of the system. */
module ProtocolExecution {
  import opened Pipeline
  import opened Slices
  import opened ReadyQueue
  import opened IoService
  import opened Protocol
  import opened ProtocolPlaces
  import opened ProtocolStatus

  // ---------------------------------------------------------------------------------------------------------------
  // Each process runs its own slices
  // ---------------------------------------------------------------------------------------------------------------

  function Repeat(quantum: int, n: nat): (quanta: seq<int>)
    ensures |quanta| == n
  {
    seq(n, i => quantum)
  }

  /** The process is where as many slices as it was given take it from its start, none of them after its end. */
  ghost predicate Ran(p: Pcb, start: St, quantum: int) {
    && p.st == Dispatches(start, Repeat(quantum, p.slices))
    && (p.slices > 0 ==> Dispatches(start, Repeat(quantum, p.slices - 1)).state != Finished)
    && (p.status == Finished <==> p.st.state == Finished)
  }

  lemma SliceRan(p: Pcb, start: St, quantum: int)
    requires Ran(p, start, quantum) && p.status != Finished
    ensures Ran(RunSlice(p, quantum), start, quantum)
  {
    SliceStatus(p, quantum);
    hide Dispatch;
    DispatchesOneMore(start, Repeat(quantum, p.slices), quantum);
    assert Repeat(quantum, p.slices) + [quantum] == Repeat(quantum, p.slices + 1);
  }

  /** Finished processes are counted, and threads stop only when all are. */
  ghost predicate Counted(s: Sys) {
    && s.finished == |s.done|
    && (forall c | 0 <= c < |s.cores| && (s.cores[c].AtHasProcesses? || s.cores[c].Exited?) :: s.finished >= |s.procs|)
    && (s.worker.Stopped? ==> s.finished >= |s.procs|)
  }

  /** The cycles a process was charged are the cycles of its pipeline. */
  predicate Charged(p: Pcb, start: St) {
    p.cpuTime == p.st.cycles - start.cycles
  }

  /** The same system, with every process on its way from its start. */
  ghost predicate Executes(s: Sys, s0: Sys) {
    && s.procs == s0.procs && s.quantum == s0.quantum && s.policy == s0.policy && s.pcbs.Keys == s0.pcbs.Keys
    && (forall j | j in s.pcbs :: Ran(s.pcbs[j], s0.pcbs[j].st, s.quantum) && Charged(s.pcbs[j], s0.pcbs[j].st))
  }

  /** A step that is not a slice changes status and place at most, and finishes nothing. */
  ghost predicate SameWork(p: Pcb, r: Pcb) {
    r.st == p.st && r.slices == p.slices && r.cpuTime == p.cpuTime && (r.status == Finished <==> p.status == Finished)
  }

  ghost predicate WorkUntouched(s: Sys, r: Sys) {
    && r.procs == s.procs && r.quantum == s.quantum && r.policy == s.policy && r.clock == s.clock && r.busy == s.busy
    && r.pcbs.Keys == s.pcbs.Keys && forall j | j in s.pcbs :: SameWork(s.pcbs[j], r.pcbs[j])
  }

  lemma ServedIsNotFinished(s: Sys)
    requires Orderly(s) && s.io.phase.Serving?
    ensures s.io.phase.request.job in s.pcbs && s.pcbs[s.io.phase.request.job].status == Blocked
  {
    ServedAwaits(s, s.io.phase.request.job);
  }

  lemma TakenIsNotFinished(s: Sys, c: nat)
    requires Orderly(s) && c < |s.cores| && s.cores[c].Took?
    ensures s.cores[c].job in s.pcbs && s.pcbs[s.cores[c].job].status != Finished
  {
    hide Lists, IoHolds, InOrder;
    var j := s.cores[c].job;
    assert Is(s.pcbs, j, OnCore(c));
    assert StatusFits(s.pcbs[j], s.policy, s.cores);
  }

  lemma OneMoves(s: Sys, r: Sys, j: Job)
    requires r.procs == s.procs && r.quantum == s.quantum && r.policy == s.policy
    requires r.clock == s.clock && r.busy == s.busy
    requires OnlyAt(s.pcbs, r.pcbs, j) && SameWork(s.pcbs[j], r.pcbs[j])
    ensures WorkUntouched(s, r)
  {
  }

  lemma NoneMoves(s: Sys, r: Sys)
    requires r.procs == s.procs && r.quantum == s.quantum && r.policy == s.policy
    requires r.clock == s.clock && r.busy == s.busy
    requires r.pcbs == s.pcbs
    ensures WorkUntouched(s, r)
  {
  }

  lemma OtherStepWork(s: Sys, l: Label)
    requires Orderly(s) && !l.CoreRuns?
    ensures WorkUntouched(s, Next(s, l))
  {
    hide WorkUntouched, Orderly, IoStep, RunSlice, ParkedJobs, Added;
    var r := Next(s, l);
    if !Enabled(s, l) {
      NoneMoves(s, r);
    } else {
      match l
      case CoreRegisters(c) => OneMoves(s, r, s.cores[c].job);
      case CoreParks(c) => OneMoves(s, r, s.cores[c].job);
      case CoreFinishes(c) => OneMoves(s, r, s.cores[c].job);
      case CorePreempts(c, _) => OneMoves(s, r, s.cores[c].job);
      case CorePushes(c) => OneMoves(s, r, s.cores[c].job);
      case WorkerMoves(_) => OneMoves(s, r, s.blocked[s.worker.at]);
      case CoreGets(_) => GetWork(s, l.core);
      case IoSteps(printerAsks, diskAsks) => IoWork(s, printerAsks, diskAsks);
      case _ => NoneMoves(s, r);
    }
  }

  lemma GetWork(s: Sys, c: nat)
    requires Enabled(s, CoreGets(c))
    ensures WorkUntouched(s, AfterGets(s, c))
  {
    hide WorkUntouched;
    if s.queue == [] {
      NoneMoves(s, AfterGets(s, c));
    } else {
      OneMoves(s, AfterGets(s, c), s.queue[0]);
    }
  }

  lemma IoWork(s: Sys, printerAsks: bool, diskAsks: bool)
    requires Orderly(s) && Enabled(s, IoSteps(printerAsks, diskAsks))
    ensures WorkUntouched(s, AfterIo(s, printerAsks, diskAsks))
  {
    hide WorkUntouched, IoStep, Orderly;
    var r := AfterIo(s, printerAsks, diskAsks);
    if s.io.phase.Serving? {
      ServedIsNotFinished(s);
      OneMoves(s, r, s.io.phase.request.job);
    } else {
      NoneMoves(s, r);
    }
  }

  /** The step of a core that runs a slice. */
  lemma NextRuns(s: Sys, c: nat)
    ensures Next(s, CoreRuns(c)) == if Enabled(s, CoreRuns(c)) then AfterRuns(s, c) else s
  {
  }

  lemma SliceExecutes(p: Pcb, start: St, quantum: int)
    requires Ran(p, start, quantum) && Charged(p, start) && p.status != Finished
    ensures Ran(RunSlice(p, quantum), start, quantum) && Charged(RunSlice(p, quantum), start)
  {
    SliceRan(p, start, quantum);
    SliceStatus(p, quantum);
    hide Ran, Dispatch;
  }

  lemma RunsExecutes(s: Sys, s0: Sys, c: nat)
    requires Orderly(s) && Executes(s, s0) && Enabled(s, CoreRuns(c))
    ensures Executes(AfterRuns(s, c), s0)
  {
    hide Orderly, RunSlice, Used, Ran, Charged;
    RunsFields(s, c);
    hide AfterRuns;
    TakenIsNotFinished(s, c);
    var j := s.cores[c].job;
    SliceExecutes(s.pcbs[j], s0.pcbs[j].st, s.quantum);
  }

  lemma OtherExecutes(s: Sys, r: Sys, s0: Sys)
    requires Executes(s, s0) && WorkUntouched(s, r)
    ensures Executes(r, s0)
  {
    hide Ran, Charged, SameWork;
    forall j | j in r.pcbs
      ensures Ran(r.pcbs[j], s0.pcbs[j].st, r.quantum) && Charged(r.pcbs[j], s0.pcbs[j].st)
    {
      SameWorkRan(s.pcbs[j], r.pcbs[j], s0.pcbs[j].st, s.quantum);
    }
  }

  lemma SameWorkRan(p: Pcb, r: Pcb, start: St, quantum: int)
    requires Ran(p, start, quantum) && Charged(p, start) && SameWork(p, r)
    ensures Ran(r, start, quantum) && Charged(r, start)
  {
    hide Repeat, Dispatches;
  }

  lemma StepExecutes(s: Sys, s0: Sys, l: Label)
    requires Orderly(s) && Executes(s, s0)
    ensures Executes(Next(s, l), s0)
  {
    hide Next, AfterRuns, Executes, Orderly, WorkUntouched;
    if !l.CoreRuns? {
      OtherStepWork(s, l);
      OtherExecutes(s, Next(s, l), s0);
    } else {
      NextRuns(s, l.core);
      if Enabled(s, l) {
        RunsExecutes(s, s0, l.core);
      }
    }
  }

  lemma StepCounted(s: Sys, l: Label)
    requires Counted(s)
    ensures Counted(Next(s, l)) && Next(s, l).finished >= s.finished
  {
    hide IoStep, RunSlice, Used, ParkedJobs, Added;
  }

  // ---------------------------------------------------------------------------------------------------------------
  // Time is conserved
  // ---------------------------------------------------------------------------------------------------------------

  function Total(times: seq<nat>): nat {
    if times == [] then 0 else Total(times[..|times| - 1]) + times[|times| - 1]
  }

  lemma {:induction false} TotalUpdate(times: seq<nat>, i: nat, t: nat)
    requires i < |times|
    ensures Total(times[i := t]) == Total(times) - times[i] + t
  {
    var n := |times| - 1;
    if i < n {
      TotalUpdate(times[..n], i, t);
      assert times[i := t][..n] == times[..n][i := t];
    } else {
      assert times[i := t][..n] == times[..n];
    }
  }

  /** CPU times of the processes, in arrival order. */
  function CpuTimes(procs: seq<Job>, pcbs: map<Job, Pcb>): (times: seq<nat>)
    requires forall j | j in procs :: j in pcbs
    ensures |times| == |procs| && forall i | 0 <= i < |procs| :: times[i] == pcbs[procs[i]].cpuTime
  {
    seq<nat>(|procs|, i requires 0 <= i < |procs| => pcbs[procs[i]].cpuTime)
  }

  /** What the processes were charged is what the cores were busy, and a core's clock is its busy time. */
  ghost predicate TimeOk(s: Sys) {
    && Known(s) && s.clock == s.busy
    && Total(CpuTimes(s.procs, s.pcbs)) == Total(s.busy)
  }

  /** One process and one core are charged the same. */
  lemma ChargeOne(procs: seq<Job>, pcbs: map<Job, Pcb>, pcbs': map<Job, Pcb>, busy: seq<nat>, j: Job, c: nat, used: nat)
    requires forall k :: k in pcbs <==> k in procs
    requires forall i, k | 0 <= i < k < |procs| :: procs[i] != procs[k]
    requires OnlyAt(pcbs, pcbs', j) && pcbs'[j].cpuTime == pcbs[j].cpuTime + used && c < |busy|
    requires Total(CpuTimes(procs, pcbs)) == Total(busy)
    ensures Total(CpuTimes(procs, pcbs')) == Total(busy[c := busy[c] + used])
  {
    hide Total, CpuTimes;
    var i :| 0 <= i < |procs| && procs[i] == j;
    var times := CpuTimes(procs, pcbs);
    assert CpuTimes(procs, pcbs') == times[i := times[i] + used];
    TotalUpdate(times, i, times[i] + used);
    TotalUpdate(busy, c, busy[c] + used);
  }

  lemma UsedIsCharged(p: Pcb, quantum: int)
    ensures RunSlice(p, quantum).cpuTime == p.cpuTime + Used(p, quantum)
  {
    hide Dispatch;
  }

  /** A slice touches the control block of its process only. */
  lemma RunsFields(s: Sys, c: nat)
    requires Enabled(s, CoreRuns(c))
    ensures var j, r := s.cores[c].job, AfterRuns(s, c);
            && OnlyAt(s.pcbs, r.pcbs, j) && r.pcbs[j] == RunSlice(s.pcbs[j], s.quantum)
            && r.procs == s.procs && r.quantum == s.quantum && r.policy == s.policy
            && r.busy == s.busy[c := s.busy[c] + Used(s.pcbs[j], s.quantum)]
            && r.clock == s.clock[c := s.clock[c] + Used(s.pcbs[j], s.quantum)] && |r.cores| == |s.cores|
  {
    hide RunSlice, Used;
  }

  lemma RunsTimeOk(s: Sys, c: nat)
    requires TimeOk(s) && Enabled(s, CoreRuns(c))
    ensures TimeOk(AfterRuns(s, c))
  {
    hide RunSlice, Used, Total, CpuTimes;
    RunsFields(s, c);
    var j, r := s.cores[c].job, AfterRuns(s, c);
    hide AfterRuns;
    UsedIsCharged(s.pcbs[j], s.quantum);
    ChargeOne(s.procs, s.pcbs, r.pcbs, s.busy, j, c, Used(s.pcbs[j], s.quantum));
  }

  /** No other step charges anything. */
  lemma OtherTimeOk(s: Sys, r: Sys)
    requires TimeOk(s) && Known(r) && WorkUntouched(s, r)
    ensures TimeOk(r)
  {
    assert CpuTimes(r.procs, r.pcbs) == CpuTimes(s.procs, s.pcbs);
  }

  lemma StepTimeOk(s: Sys, l: Label)
    requires Orderly(s) && TimeOk(s)
    ensures TimeOk(Next(s, l))
  {
    if !l.CoreRuns? {
      StepKeepsPlaces(s, l);
      OtherStepWork(s, l);
      hide Next, TimeOk, Orderly, WorkUntouched, Lists, CoresHold;
      OtherTimeOk(s, Next(s, l));
    } else {
      NextRuns(s, l.core);
      hide Next, AfterRuns, TimeOk, Orderly;
      if Enabled(s, l) {
        RunsTimeOk(s, l.core);
      }
    }
  }

  // ---------------------------------------------------------------------------------------------------------------
  // Start
  // ---------------------------------------------------------------------------------------------------------------

  lemma AllZero(times: seq<nat>)
    requires forall i | 0 <= i < |times| :: times[i] == 0
    ensures Total(times) == 0
  {
    if times != [] {
      AllZero(times[..|times| - 1]);
    }
  }

  lemma InitialExecution(s: Sys)
    requires Initial(s)
    ensures Executes(s, s) && Counted(s) && TimeOk(s)
  {
    AllZero(CpuTimes(s.procs, s.pcbs));
    AllZero(s.busy);
  }
}
