/** The scheduler, updated in place (src/cpu/Scheduler.cpp). */
module Scheduler {
  import opened Pipeline
  import opened ProcessControl
  import opened ReadyQueue

  class Scheduler {
    var readyQueue: seq<Process>
    var policy: Policy
    const timeSlice: int

    constructor (policy: Policy, timeSlice: int)
      ensures this.policy == policy && this.timeSlice == timeSlice && readyQueue == []
    {
      this.policy, this.timeSlice, readyQueue := policy, timeSlice, [];
    }

    function Jobs(): seq<Job>
      reads this
    {
      JobsOf(readyQueue)
    }

    method IsPreemptive() returns (r: bool)
      ensures r <==> policy == RR
    {
      r := policy == RR;
    }

    method HasProcesses() returns (r: bool)
      ensures r <==> Jobs() != []
    {
      r := readyQueue != [];
    }

    /** Sorts the queue by rank; nothing is promised about jobs of equal rank. */
    method SortQueue()
      modifies this`readyQueue
      ensures Sorted(policy, Jobs())
      ensures multiset(readyQueue) == multiset(old(readyQueue)) && multiset(Jobs()) == multiset(old(Jobs()))
      ensures !Sorts(policy) ==> readyQueue == old(readyQueue)
    {
      if !Sorts(policy) {
        return;
      }
      var sorted: seq<Process> := [];
      for i := 0 to |readyQueue|
        invariant readyQueue == old(readyQueue)
        invariant multiset(sorted) == multiset(readyQueue[..i])
        invariant Sorted(policy, JobsOf(sorted)) && multiset(JobsOf(sorted)) == multiset(JobsOf(readyQueue[..i]))
      {
        var p := readyQueue[i];
        var k := 0;
        while k < |sorted| && NoLater(policy, sorted[k].job, p.job)
          invariant k <= |sorted| && forall j | 0 <= j < k :: NoLater(policy, sorted[j].job, p.job)
        {
          k := k + 1;
        }
        Inserted(policy, sorted, k, p);
        assert readyQueue[..i + 1] == readyQueue[..i] + [p];
        assert JobsOf(readyQueue[..i + 1]) == JobsOf(readyQueue[..i]) + [p.job];
        sorted := sorted[..k] + [p] + sorted[k..];
      }
      assert readyQueue[..|readyQueue|] == readyQueue;
      readyQueue := sorted;
    }

    method AddProcess(process: Process, now: Time)
      modifies this`readyQueue, process`state, process`lastReadyIn
      ensures process.state == Ready && process.lastReadyIn == now
      ensures Added(policy, old(Jobs()), process.job, Jobs())
      ensures multiset(readyQueue) == multiset(old(readyQueue) + [process])
    {
      process.state := Ready;
      process.lastReadyIn := now;
      readyQueue := readyQueue + [process];
      assert JobsOf(readyQueue) == old(Jobs()) + [process.job];
      if Sorts(policy) {
        SortQueue();
      }
    }

    method GetNextProcess(now: Time) returns (next: Process?)
      modifies this`readyQueue, readyQueue
      ensures old(Jobs()) == [] ==> next == null && readyQueue == []
      ensures old(Jobs()) != [] ==>
        && next == old(readyQueue[0]) && readyQueue == old(readyQueue[1..])
        && QueueStep(policy, old(Jobs()), Got(next.job), Jobs())
        && next.waitingTime == (old(readyQueue[0].waitingTime) + now - old(readyQueue[0].lastReadyIn))
                               % 0x1_0000_0000_0000_0000
        && next.firstStartTime == (if old(readyQueue[0].firstStartTime) == 0 then now
                                   else old(readyQueue[0].firstStartTime))
        && next.state == old(readyQueue[0].state) && next.lastReadyIn == old(readyQueue[0].lastReadyIn)
      ensures forall p | p in old(readyQueue) && p != next :: unchanged(p)
    {
      if readyQueue == [] {
        return null;
      }
      next := readyQueue[0];
      readyQueue := readyQueue[1..];
      assert JobsOf(readyQueue) == old(Jobs())[1..];
      next.waitingTime := (next.waitingTime + now - next.lastReadyIn) % 0x1_0000_0000_0000_0000;
      if next.firstStartTime == 0 {
        next.firstStartTime := now;
      }
    }

    method PushFront(process: Process)
      modifies this`readyQueue
      ensures readyQueue == [process] + old(readyQueue)
      ensures QueueStep(policy, old(Jobs()), Push(process.job), Jobs())
    {
      readyQueue := [process] + readyQueue;
      assert JobsOf(readyQueue) == [process.job] + old(Jobs());
    }

    /** Switches policy; the queue is sorted at once when the new policy needs it. */
    method SetPolicy(newPolicy: Policy)
      modifies this`policy, this`readyQueue
      ensures policy == newPolicy && multiset(readyQueue) == multiset(old(readyQueue))
      ensures if Sorts(newPolicy) then Sorted(newPolicy, Jobs()) else readyQueue == old(readyQueue)
    {
      policy := newPolicy;
      if Sorts(policy) {
        SortQueue();
      }
    }
  }

  /** Inserting behind the last process of no worse rank keeps the order. */
  lemma Inserted(policy: Policy, ps: seq<Process>, k: nat, p: Process)
    requires Sorted(policy, JobsOf(ps)) && k <= |ps| && Sorts(policy)
    requires forall j | 0 <= j < k :: NoLater(policy, ps[j].job, p.job)
    requires k < |ps| ==> !NoLater(policy, ps[k].job, p.job)
    ensures Sorted(policy, JobsOf(ps[..k] + [p] + ps[k..]))
    ensures multiset(ps[..k] + [p] + ps[k..]) == multiset(ps) + multiset{p}
    ensures multiset(JobsOf(ps[..k] + [p] + ps[k..])) == multiset(JobsOf(ps)) + multiset{p.job}
  {
    hide Sorted;
    InsertedOrder(policy, JobsOf(ps), k, p.job);
    InsertedBag(ps, k, p);
    InsertedBag(JobsOf(ps), k, p.job);
    assert JobsOf(ps[..k] + [p] + ps[k..]) == JobsOf(ps)[..k] + [p.job] + JobsOf(ps)[k..];
  }
}
