/** The process control block that scheduler, IO manager and memory manager update in place (src/cpu/PCB.hpp). */
module ProcessControl {
  import opened Accounting
  import opened Pipeline
  import opened ReadyQueue

  /** Unsigned 64-bit times. */
  type Time = t: int | 0 <= t < 0x1_0000_0000_0000_0000

  /** Identity, priority and burst time are the job; `counters` are the memory counters. */
  class Process {
    const job: Job
    const weights: Weights
    var state: ProcState
    var lastReadyIn: Time
    var waitingTime: Time
    var firstStartTime: Time
    var ioCycles: nat
    var counters: Counters

    constructor (job: Job, weights: Weights)
      ensures this.job == job && this.weights == weights && state == Ready
      ensures lastReadyIn == waitingTime == firstStartTime == 0 && ioCycles == 1 && counters == NO_ACCESSES
    {
      this.job, this.weights, state := job, weights, Ready;
      lastReadyIn, waitingTime, firstStartTime, ioCycles, counters := 0, 0, 0, 1, NO_ACCESSES;
    }
  }

  function JobsOf(ps: seq<Process>): (jobs: seq<Job>)
    ensures |jobs| == |ps| && forall i | 0 <= i < |ps| :: jobs[i] == ps[i].job
  {
    seq<Job>(|ps|, i requires 0 <= i < |ps| => ps[i].job)
  }
}
