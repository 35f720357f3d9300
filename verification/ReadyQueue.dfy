/** The ready queue as a value, under each scheduling policy (src/cpu/Scheduler.cpp). */
module ReadyQueue {

  datatype Policy = FCFS | SJN | RR | Priority

  /** What the scheduler knows of a process; process ids are unique. */
  datatype Job = Job(pid: int, priority: int, burst: int)

  /** Policies that keep the queue sorted. */
  predicate Sorts(policy: Policy) {
    policy.SJN? || policy.Priority?
  }

  /** Policies under which a process that used up its slice goes to the end of the queue. */
  predicate Preemptive(policy: Policy) {
    policy.RR?
  }

  /** `a` may stand before `b`. */
  predicate NoLater(policy: Policy, a: Job, b: Job) {
    match policy
    case Priority => a.priority >= b.priority
    case SJN => a.burst <= b.burst
    case _ => true
  }

  ghost predicate Sorted(policy: Policy, q: seq<Job>) {
    forall i, j | 0 <= i < j < |q| :: NoLater(policy, q[i], q[j])
  }

  /** Adding a job: at the end, or into some sorted order; jobs of equal rank may change places. */
  ghost predicate Added(policy: Policy, q: seq<Job>, j: Job, r: seq<Job>) {
    if Sorts(policy) then multiset(r) == multiset(q + [j]) && Sorted(policy, r) else r == q + [j]
  }

  // ---------------------------------------------------------------------------------------------------------------
  // Runs
  // ---------------------------------------------------------------------------------------------------------------

  datatype Event = Add(job: Job) | Got(job: Job) | Push(job: Job)

  ghost predicate QueueStep(policy: Policy, q: seq<Job>, e: Event, r: seq<Job>) {
    match e
    case Add(j) => Added(policy, q, j, r)
    case Got(j) => q != [] && j == q[0] && r == q[1..]
    case Push(j) => r == [j] + q
  }

  /** The queue goes through `qs` while the events `es` happen. */
  ghost predicate QueueRun(policy: Policy, qs: seq<seq<Job>>, es: seq<Event>) {
    && |qs| == |es| + 1
    && forall i | 0 <= i < |es| :: QueueStep(policy, qs[i], es[i], qs[i + 1])
  }

  /** The jobs the events of a kind are about, in order. */
  function Adds(es: seq<Event>): seq<Job> {
    if es == [] then [] else Adds(es[..|es| - 1]) + AddOf(es[|es| - 1])
  }

  function Gets(es: seq<Event>): seq<Job> {
    if es == [] then [] else Gets(es[..|es| - 1]) + GotOf(es[|es| - 1])
  }

  function Pushes(es: seq<Event>): seq<Job> {
    if es == [] then [] else Pushes(es[..|es| - 1]) + PushOf(es[|es| - 1])
  }

  function AddOf(e: Event): seq<Job> { if e.Add? then [e.job] else [] }
  function GotOf(e: Event): seq<Job> { if e.Got? then [e.job] else [] }
  function PushOf(e: Event): seq<Job> { if e.Push? then [e.job] else [] }

  lemma ShorterRun(policy: Policy, qs: seq<seq<Job>>, es: seq<Event>)
    requires QueueRun(policy, qs, es) && es != []
    ensures var n := |es| - 1;
            && QueueRun(policy, qs[..n + 1], es[..n]) && qs[..n + 1][n] == qs[n]
            && QueueStep(policy, qs[n], es[n], qs[n + 1])
  {
  }

  lemma JobsConservedByStep(policy: Policy, q: seq<Job>, e: Event, r: seq<Job>)
    requires QueueStep(policy, q, e, r)
    ensures multiset(GotOf(e)) + multiset(r) == multiset(q) + multiset(AddOf(e)) + multiset(PushOf(e))
  {
    if e.Got? {
      assert q == [q[0]] + q[1..];
    }
  }

  lemma SumsChain<T>(g: multiset<T>, q: multiset<T>, q0: multiset<T>, a: multiset<T>, p: multiset<T>,
                     g': multiset<T>, r: multiset<T>, a': multiset<T>, p': multiset<T>)
    requires g + q == q0 + a + p && g' + r == q + a' + p'
    ensures (g + g') + r == q0 + (a + a') + (p + p')
  {
    forall x: T
      ensures ((g + g') + r)[x] == (q0 + (a + a') + (p + p'))[x]
    {
      assert (g + q)[x] == (q0 + a + p)[x] && (g' + r)[x] == (q + a' + p')[x];
    }
  }

  /** Nothing is lost or invented under any policy: what was served and what still waits is what was there and what was
      added or pushed to the front. */
  lemma {:induction false} JobsConserved(policy: Policy, qs: seq<seq<Job>>, es: seq<Event>)
    requires QueueRun(policy, qs, es)
    ensures multiset(Gets(es)) + multiset(qs[|es|])
            == multiset(qs[0]) + multiset(Adds(es)) + multiset(Pushes(es))
  {
    hide QueueStep, GotOf, AddOf, PushOf;
    if es != [] {
      var n := |es| - 1;
      ShorterRun(policy, qs, es);
      hide QueueRun;
      JobsConserved(policy, qs[..n + 1], es[..n]);
      JobsConservedByStep(policy, qs[n], es[n], qs[n + 1]);
      SumsChain(multiset(Gets(es[..n])), multiset(qs[n]), multiset(qs[0]), multiset(Adds(es[..n])),
                multiset(Pushes(es[..n])), multiset(GotOf(es[n])), multiset(qs[n + 1]), multiset(AddOf(es[n])),
                multiset(PushOf(es[n])));
    }
  }

  lemma FirstInFirstOutStep(policy: Policy, q: seq<Job>, e: Event, r: seq<Job>)
    requires QueueStep(policy, q, e, r) && !Sorts(policy) && !e.Push?
    ensures GotOf(e) + r == q + AddOf(e)
  {
  }

  /** First in, first out: under FCFS and RR, without pushes to the front, jobs are served in queue order. */
  lemma {:induction false} FirstInFirstOut(policy: Policy, qs: seq<seq<Job>>, es: seq<Event>)
    requires QueueRun(policy, qs, es) && (policy == FCFS || policy == RR) && forall e | e in es :: !e.Push?
    ensures Gets(es) + qs[|es|] == qs[0] + Adds(es)
  {
    hide QueueStep, GotOf, AddOf;
    if es != [] {
      var n := |es| - 1;
      ShorterRun(policy, qs, es);
      hide QueueRun;
      var g, a := Gets(es[..n]), Adds(es[..n]);
      FirstInFirstOut(policy, qs[..n + 1], es[..n]);
      FirstInFirstOutStep(policy, qs[n], es[n], qs[n + 1]);
      assert (g + GotOf(es[n])) + qs[n + 1] == g + (GotOf(es[n]) + qs[n + 1]);
      assert g + (qs[n] + AddOf(es[n])) == (g + qs[n]) + AddOf(es[n]);
      assert (qs[0] + a) + AddOf(es[n]) == qs[0] + (a + AddOf(es[n]));
    }
  }

  /** Bounded bypass: the job at index `k` is the (k+1)-th job served, and until then it has moved up by exactly the
      number of jobs served. */
  lemma BoundedBypass(policy: Policy, qs: seq<seq<Job>>, es: seq<Event>, k: nat)
    requires QueueRun(policy, qs, es) && (policy == FCFS || policy == RR) && (forall e | e in es :: !e.Push?)
    requires k < |qs[0]|
    ensures var served := Gets(es);
            if k < |served| then served[k] == qs[0][k]
            else k - |served| < |qs[|es|]| && qs[|es|][k - |served|] == qs[0][k]
  {
    FirstInFirstOut(policy, qs, es);
    assert qs[0][k] == (qs[0] + Adds(es))[k];
  }

  // ---------------------------------------------------------------------------------------------------------------
  // Sorted queues
  // ---------------------------------------------------------------------------------------------------------------

  /** Length of the part at the front that was pushed there since the queue was last sorted. */
  function Front(policy: Policy, k: nat, e: Event): nat {
    match e
    case Add(_) => if Sorts(policy) then 0 else k
    case Got(_) => if k > 0 then k - 1 else 0
    case Push(_) => k + 1
  }

  function FrontAfter(policy: Policy, k: nat, es: seq<Event>): nat {
    if es == [] then k else Front(policy, FrontAfter(policy, k, es[..|es| - 1]), es[|es| - 1])
  }

  ghost predicate SortedBehind(policy: Policy, q: seq<Job>, k: nat) {
    k <= |q| && Sorted(policy, q[k..])
  }

  lemma StaysSortedBehind(policy: Policy, q: seq<Job>, e: Event, r: seq<Job>, k: nat)
    requires QueueStep(policy, q, e, r) && SortedBehind(policy, q, k)
    ensures SortedBehind(policy, r, Front(policy, k, e))
  {
    match e
    case Add(j) =>
      if Sorts(policy) {
        assert r[0..] == r;
      }
    case Got(_) =>
      if k > 0 {
        assert r[k - 1..] == q[k..];
      } else {
        assert q[0..] == q;
      }
    case Push(j) =>
      assert r[k + 1..] == q[k..];
  }

  /** In any run, everything behind the pushed part stays sorted. */
  lemma {:induction false} RunStaysSortedBehind(policy: Policy, qs: seq<seq<Job>>, es: seq<Event>, k: nat)
    requires QueueRun(policy, qs, es) && SortedBehind(policy, qs[0], k)
    ensures SortedBehind(policy, qs[|es|], FrontAfter(policy, k, es))
  {
    if es != [] {
      var n := |es| - 1;
      ShorterRun(policy, qs, es);
      RunStaysSortedBehind(policy, qs[..n + 1], es[..n], k);
      StaysSortedBehind(policy, qs[n], es[n], qs[n + 1], FrontAfter(policy, k, es[..n]));
    }
  }

  /** With nothing pushed, the job served is the best of all that wait: the one of the highest priority under Priority,
      the one of the shortest burst under SJN. */
  lemma ServesBest(policy: Policy, q: seq<Job>, e: Event, r: seq<Job>, j: Job)
    requires QueueStep(policy, q, e, r) && e.Got? && SortedBehind(policy, q, 0) && j in r
    ensures policy == Priority ==> e.job.priority >= j.priority
    ensures policy == SJN ==> e.job.burst <= j.burst
  {
    var i :| 0 <= i < |r| && r[i] == j;
    assert q[0..] == q && q[i + 1] == j;
  }

  /** A job can always be added. */
  lemma CanAdd(policy: Policy, q: seq<Job>, j: Job) returns (r: seq<Job>)
    ensures Added(policy, q, j, r)
  {
    r := q + [j];
    if Sorts(policy) {
      r := SomeOrder(policy, r);
    }
  }

  lemma {:induction false} SomeOrder(policy: Policy, q: seq<Job>) returns (r: seq<Job>)
    requires Sorts(policy)
    ensures multiset(r) == multiset(q) && Sorted(policy, r)
  {
    if q == [] {
      r := [];
    } else {
      var rest := SomeOrder(policy, q[1..]);
      assert q == [q[0]] + q[1..];
      var k := 0;
      while k < |rest| && NoLater(policy, rest[k], q[0])
        invariant 0 <= k <= |rest| && forall i | 0 <= i < k :: NoLater(policy, rest[i], q[0])
      {
        k := k + 1;
      }
      InsertedOrder(policy, rest, k, q[0]);
      InsertedBag(rest, k, q[0]);
      r := rest[..k] + [q[0]] + rest[k..];
    }
  }

  /** Inserting behind the last job of no worse rank keeps the order. */
  lemma InsertedOrder(policy: Policy, q: seq<Job>, k: nat, j: Job)
    requires Sorted(policy, q) && k <= |q| && Sorts(policy)
    requires forall i | 0 <= i < k :: NoLater(policy, q[i], j)
    requires k < |q| ==> !NoLater(policy, q[k], j)
    ensures Sorted(policy, q[..k] + [j] + q[k..])
  {
    var r := q[..k] + [j] + q[k..];
    forall i, l | 0 <= i < l < |r|
      ensures NoLater(policy, r[i], r[l])
    {
      if l > k {
        assert r[l] == q[l - 1];
        assert i < k ==> NoLater(policy, q[i], q[l - 1]);
        assert k < i ==> NoLater(policy, q[i - 1], q[l - 1]);
        assert k < l - 1 ==> NoLater(policy, q[k], q[l - 1]);
      } else {
        assert i < k;
        assert l < k ==> NoLater(policy, q[i], q[l]);
      }
    }
  }

  lemma InsertedBag<T>(s: seq<T>, k: nat, x: T)
    requires k <= |s|
    ensures multiset(s[..k] + [x] + s[k..]) == multiset(s) + multiset{x}
  {
    assert s == s[..k] + s[k..];
  }
}
