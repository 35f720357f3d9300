/** Memory access counters of a process (src/cpu/PCB.hpp) and the laws they obey over any run. */
module Accounting {
  import opened Words
  import opened CacheSpec
  import opened Paging
  import opened FlatMemory

  /** Cycles charged for one access to each store. */
  datatype Weights = Weights(cache: nat, primary: nat, secondary: nat)

  /** `unmapped` is a history variable: accesses that found no page. */
  datatype Counters = Counters(
    total: nat, readOps: nat, writeOps: nat, primary: nat, secondary: nat, cache: nat, cycles: nat,
    hits: nat, misses: nat, unmapped: nat)

  const NO_ACCESSES: Counters := Counters(0, 0, 0, 0, 0, 0, 0, 0, 0, 0)

  /** Where an access ends up. */
  datatype Service = Unmapped | Served(hit: bool, primary: bool)

  /** How the memory manager serves an access, given the state before it. */
  function ServiceOf(m: Mmu, k: Key, offset: nat, isWrite: bool): Service
    requires Mapped(m) && offset < PAGE_SIZE
  {
    TranslateMapped(m, k, isWrite);
    var m1 := Translate(m, k, isWrite);
    var a := Physical(m1, k, offset);
    if a == ACCESS_ERROR then Unmapped else ServedAt(m1, a)
  }

  function ServedAt(m: Mmu, a: Word): Service {
    Served(Lookup(m.cache, a) != MISS, a < m.limit)
  }

  /** Counting the operation itself, before its address is translated. */
  function Begin(c: Counters, isWrite: bool): Counters {
    if isWrite then c.(total := c.total + 1, writeOps := c.writeOps + 1)
    else c.(total := c.total + 1, readOps := c.readOps + 1)
  }

  /** A hit costs a cache access, a miss an access to the store behind. */
  function ChargeRead(c: Counters, w: Weights, s: Service): Counters {
    match s
    case Unmapped => c.(unmapped := c.unmapped + 1)
    case Served(true, _) => c.(cache := c.cache + 1, cycles := c.cycles + w.cache, hits := c.hits + 1)
    case Served(false, true) =>
      c.(primary := c.primary + 1, cycles := c.cycles + w.primary, misses := c.misses + 1)
    case Served(false, false) =>
      c.(secondary := c.secondary + 1, cycles := c.cycles + w.secondary, misses := c.misses + 1)
  }

  /** A write always costs a cache access, and one to RAM when it goes there; one to the disk is not counted. */
  function ChargeWrite(c: Counters, w: Weights, s: Service): Counters {
    match s
    case Unmapped => c.(unmapped := c.unmapped + 1)
    case Served(hit, primary) =>
      var c1 := if primary then c.(primary := c.primary + 1, cycles := c.cycles + w.primary) else c;
      var c2 := if hit then c1.(hits := c1.hits + 1) else c1.(misses := c1.misses + 1);
      c2.(cache := c2.cache + 1, cycles := c2.cycles + w.cache)
  }

  function CountRead(c: Counters, w: Weights, s: Service): Counters {
    ChargeRead(Begin(c, false), w, s)
  }

  function CountWrite(c: Counters, w: Weights, s: Service): Counters {
    ChargeWrite(Begin(c, true), w, s)
  }

  /** Cycles are the weighted accesses, every access is a hit, a miss or finds no page, a write reaches both cache and
      RAM, and the disk is never accessed on behalf of a process. */
  predicate Balanced(c: Counters, w: Weights) {
    && c.cycles == w.cache * c.cache + w.primary * c.primary + w.secondary * c.secondary
    && c.total == c.readOps + c.writeOps == c.hits + c.misses + c.unmapped
    && c.secondary == 0
    && c.cache + c.primary == c.hits + c.misses + c.writeOps
  }

  lemma OneMore(w: nat, n: nat)
    ensures w * (n + 1) == w * n + w
  {
  }

  lemma ReadKeepsBalance(c: Counters, w: Weights, s: Service)
    requires Balanced(c, w) && (s.Served? ==> s.primary)
    ensures Balanced(CountRead(c, w, s), w)
  {
    OneMore(w.cache, c.cache);
    OneMore(w.primary, c.primary);
  }

  lemma WriteKeepsBalance(c: Counters, w: Weights, s: Service)
    requires Balanced(c, w) && s.Served? && s.primary
    ensures Balanced(CountWrite(c, w, s), w)
  {
    OneMore(w.cache, c.cache);
    OneMore(w.primary, c.primary);
  }

  /** Every translated address lies in RAM, and a write always finds a page. */
  lemma NeverSecondary(m: Mmu, k: Key, offset: nat, isWrite: bool)
    requires Mapped(m) && offset < PAGE_SIZE
    ensures var s := ServiceOf(m, k, offset, isWrite);
            && (s.Served? ==> s.primary)
            && (s.Unmapped? <==> !isWrite && k !in m.pages && k !in m.swap)
  {
    TranslateMapped(m, k, isWrite);
    var m1 := Translate(m, k, isWrite);
    assert k in m1.pages <==> isWrite || k in m.pages || k in m.swap by {
      hide Blit, PageWords;
    }
    hide Translate;
  }

  /** Counters of one process after an access; those of other processes do not touch them. */
  function Count(c: Counters, w: Weights, m: Mmu, op: Op, pid: int): Counters
    requires Mapped(m)
  {
    if op.key.pid != pid then c
    else if op.Wr? then CountWrite(c, w, ServiceOf(m, op.key, op.offset, true))
    else CountRead(c, w, ServiceOf(m, op.key, op.offset, false))
  }

  function CountRun(c: Counters, w: Weights, m: Mmu, ops: seq<Op>, pid: int): Counters
    requires Mapped(m)
    decreases |ops|
  {
    if ops == [] then c
    else
      PerformMapped(m, ops[0]);
      CountRun(Count(c, w, m, ops[0], pid), w, Perform(m, ops[0]).0, ops[1..], pid)
  }

  /** The books balance for every process after any run of accesses by any processes, whatever is evicted or
      reloaded. */
  lemma {:induction false} BalancedRun(c: Counters, w: Weights, m: Mmu, ops: seq<Op>, pid: int)
    requires Mapped(m) && Balanced(c, w)
    ensures Balanced(CountRun(c, w, m, ops, pid), w)
    decreases |ops|
  {
    hide Balanced, Perform, CountRead, CountWrite, Mapped, ServiceOf;
    if ops != [] {
      var op := ops[0];
      if op.key.pid == pid {
        NeverSecondary(m, op.key, op.offset, op.Wr?);
        if op.Wr? {
          WriteKeepsBalance(c, w, ServiceOf(m, op.key, op.offset, true));
        } else {
          ReadKeepsBalance(c, w, ServiceOf(m, op.key, op.offset, false));
        }
      }
      PerformMapped(m, op);
      BalancedRun(Count(c, w, m, op, pid), w, Perform(m, op).0, ops[1..], pid);
    }
  }

  // ---------------------------------------------------------------------------------------------------------------
  // What was counted
  // ---------------------------------------------------------------------------------------------------------------

  /** Accesses of a process by what they found: a cached word, none, or, for a read, no page. */
  datatype Tally = Tally(readHits: nat, readMisses: nat, unmapped: nat, writeHits: nat, writeMisses: nat)

  const NOTHING: Tally := Tally(0, 0, 0, 0, 0)

  function Sum(a: Tally, b: Tally): Tally {
    Tally(a.readHits + b.readHits, a.readMisses + b.readMisses, a.unmapped + b.unmapped,
          a.writeHits + b.writeHits, a.writeMisses + b.writeMisses)
  }

  /** The address is cached, with a word other than the one that reads as a miss. */
  predicate IsCached(m: Mmu, a: Word) {
    a in m.cache.lines && m.cache.lines[a].data != 0xFFFF_FFFF
  }

  /** What an access finds, once its page has been given a frame. */
  function TallyOf(m: Mmu, op: Op, pid: int): Tally
    requires Mapped(m)
  {
    TranslateMapped(m, op.key, op.Wr?);
    var m1 := Translate(m, op.key, op.Wr?);
    if op.key.pid != pid then NOTHING
    else if op.key !in m1.pages then NOTHING.(unmapped := 1)
    else
      var cached := IsCached(m1, m1.pages[op.key] * PAGE_SIZE + op.offset);
      if op.Rd? then (if cached then NOTHING.(readHits := 1) else NOTHING.(readMisses := 1))
      else (if cached then NOTHING.(writeHits := 1) else NOTHING.(writeMisses := 1))
  }

  function TallyRun(m: Mmu, ops: seq<Op>, pid: int): Tally
    requires Mapped(m)
    decreases |ops|
  {
    if ops == [] then NOTHING
    else
      PerformMapped(m, ops[0]);
      Sum(TallyOf(m, ops[0], pid), TallyRun(Perform(m, ops[0]).0, ops[1..], pid))
  }

  /** The counters of such accesses: a read costs the cache when it hits and RAM when it misses, a write costs both.
      What they cost in cycles is left at 0 here. */
  function Book(t: Tally): Counters {
    match t
    case Tally(rh, rm, u, wh, wm) =>
      Counters(rh + rm + u + wh + wm, rh + rm + u, wh + wm, rm + wh + wm, 0, rh + wh + wm, 0, rh + wh, rm + wm, u)
  }

  /** One set of counters on top of another, apart from the cycles. */
  function Plus(c: Counters, d: Counters): Counters {
    Counters(c.total + d.total, c.readOps + d.readOps, c.writeOps + d.writeOps, c.primary + d.primary,
             c.secondary + d.secondary, c.cache + d.cache, 0, c.hits + d.hits, c.misses + d.misses,
             c.unmapped + d.unmapped)
  }

  lemma {:induction false} BooksAdd(c: Counters, s: Tally, t: Tally)
    ensures Plus(Plus(c, Book(s)), Book(t)) == Plus(c, Book(Sum(s, t)))
  {
  }

  lemma {:induction false} BookOne(t: Tally)
    ensures t == NOTHING ==> Book(t) == NO_ACCESSES
    ensures t == NOTHING.(readHits := 1) ==> Book(t) == Counters(1, 1, 0, 0, 0, 1, 0, 1, 0, 0)
    ensures t == NOTHING.(readMisses := 1) ==> Book(t) == Counters(1, 1, 0, 1, 0, 0, 0, 0, 1, 0)
    ensures t == NOTHING.(unmapped := 1) ==> Book(t) == Counters(1, 1, 0, 0, 0, 0, 0, 0, 0, 1)
    ensures t == NOTHING.(writeHits := 1) ==> Book(t) == Counters(1, 0, 1, 1, 0, 1, 0, 1, 0, 0)
    ensures t == NOTHING.(writeMisses := 1) ==> Book(t) == Counters(1, 0, 1, 1, 0, 1, 0, 0, 1, 0)
  {
  }

  lemma {:induction false} CountOne(c: Counters, w: Weights, m: Mmu, op: Op, pid: int)
    requires Mapped(m)
    ensures Count(c, w, m, op, pid).(cycles := 0) == Plus(c, Book(TallyOf(m, op, pid)))
  {
    hide Book, Translate;
    BookOne(TallyOf(m, op, pid));
    NeverSecondary(m, op.key, op.offset, op.Wr?);
    TranslateMapped(m, op.key, op.Wr?);
  }

  /** After any run of accesses by any processes every counter of a process is what its reads and writes found. */
  lemma {:induction false} CountExactly(c: Counters, w: Weights, m: Mmu, ops: seq<Op>, pid: int)
    requires Mapped(m)
    ensures CountRun(c, w, m, ops, pid).(cycles := 0) == Plus(c, Book(TallyRun(m, ops, pid)))
    decreases |ops|
  {
    hide Perform, Mapped, TallyOf, Count, Book;
    if ops == [] {
      BookOne(NOTHING);
    } else {
      PerformMapped(m, ops[0]);
      var m1 := Perform(m, ops[0]).0;
      var s, t := TallyOf(m, ops[0], pid), TallyRun(m1, ops[1..], pid);
      CountOne(c, w, m, ops[0], pid);
      CountExactly(Count(c, w, m, ops[0], pid), w, m1, ops[1..], pid);
      BooksAdd(c, s, t);
    }
  }

  /** The books are exact: a read costs the cache when it hits and RAM when it misses, a write costs both, an access
      that finds no page costs neither, and the cycles are the weighted costs. */
  lemma {:induction false} BookedRun(w: Weights, m: Mmu, ops: seq<Op>, pid: int)
    requires Mapped(m)
    ensures var c, t := CountRun(NO_ACCESSES, w, m, ops, pid), TallyRun(m, ops, pid);
            && c.readOps == t.readHits + t.readMisses + t.unmapped
            && c.writeOps == t.writeHits + t.writeMisses
            && c.hits == t.readHits + t.writeHits
            && c.misses == t.readMisses + t.writeMisses
            && c.unmapped == t.unmapped
            && c.cache == t.readHits + c.writeOps
            && c.primary == t.readMisses + c.writeOps
            && c.cycles == w.cache * c.cache + w.primary * c.primary
  {
    hide CountRun, TallyRun;
    CountExactly(NO_ACCESSES, w, m, ops, pid);
    BalancedRun(NO_ACCESSES, w, m, ops, pid);
  }
}
