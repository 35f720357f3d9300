/** The FIFO laws of the cache over runs of the memory manager. */
module CacheRuns {
  import opened CacheSpec
  import opened Paging
  import opened Coherence
  import opened FlatMemory

  /** What an access of a process asks of the cache: nothing when it finds no page. */
  function CacheAccess(m: Mmu, op: Op): seq<Access>
    requires Mapped(m)
  {
    TranslateMapped(m, op.key, op.Wr?);
    var m1 := Translate(m, op.key, op.Wr?);
    var a := Physical(m1, op.key, op.offset);
    if a == ACCESS_ERROR then []
    else [Access(a, if op.Wr? then op.word else Backing(m1, a), op.Wr?)]
  }

  /** What a run asks of the cache. */
  function CacheAccessesOf(m: Mmu, ops: seq<Op>): seq<Access>
    requires Mapped(m)
    decreases |ops|
  {
    if ops == [] then []
    else
      PerformMapped(m, ops[0]);
      CacheAccess(m, ops[0]) + CacheAccessesOf(Perform(m, ops[0]).0, ops[1..])
  }

  lemma TranslateLeavesCache(m: Mmu, k: Key, isWrite: bool)
    requires Sized(m)
    ensures Translate(m, k, isWrite).cache == m.cache
  {
  }

  lemma PerformedCache(m: Mmu, op: Op)
    requires Mapped(m)
    ensures Perform(m, op).0.cache == After(m.cache, CacheAccess(m, op))
  {
    hide Translate, ReadPhysical, WritePhysical, Apply;
    TranslateMapped(m, op.key, op.Wr?);
    TranslateLeavesCache(m, op.key, op.Wr?);
    var m1 := Translate(m, op.key, op.Wr?);
    var a := Physical(m1, op.key, op.offset);
    CacheAccesses(m1, a, if op.Wr? then op.word else 0);
    var xs := CacheAccess(m, op);
    if a != ACCESS_ERROR {
      assert xs[..0] == [];
    }
  }

  lemma {:induction false} AfterSplit(c: Cache, xs: seq<Access>, ys: seq<Access>)
    ensures After(After(c, xs), ys) == After(c, xs + ys)
  {
    hide Apply;
    if ys == [] {
      assert xs + ys == xs;
    } else {
      var n := |ys| - 1;
      AfterSplit(c, xs, ys[..n]);
      assert (xs + ys)[..|xs| + n] == xs + ys[..n];
    }
  }

  /** The cache after a run is the cache after the accesses of the run. */
  lemma {:induction false} ServedCache(m: Mmu, ops: seq<Op>)
    requires Mapped(m)
    ensures Serve(m, ops).0.cache == After(m.cache, CacheAccessesOf(m, ops))
    decreases |ops|
  {
    hide Perform, CacheAccess, Mapped;
    if ops != [] {
      PerformMapped(m, ops[0]);
      PerformedCache(m, ops[0]);
      var m1 := Perform(m, ops[0]).0;
      ServedCache(m1, ops[1..]);
      AfterSplit(m.cache, CacheAccess(m, ops[0]), CacheAccessesOf(m1, ops[1..]));
    }
  }

  /** No access of the run puts 0xFFFFFFFF into the cache. */
  ghost predicate NeverCachesMiss(m: Mmu, ops: seq<Op>)
    requires Mapped(m)
  {
    forall x | x in CacheAccessesOf(m, ops) :: x.data != MISS
  }

  /** In every run from the constructed memory that never caches 0xFFFFFFFF, the queue lists the cached addresses once
      each in insertion order, and there are never more than 16. */
  lemma RunKeepsCacheOrder(ramBytes: nat, diskWords: nat, ops: seq<Op>)
    requires Mapped(Initial(ramBytes, diskWords)) && NeverCachesMiss(Initial(ramBytes, diskWords), ops)
    ensures FifoOrder(Serve(Initial(ramBytes, diskWords), ops).0.cache)
  {
    hide FifoOrder, Mapped;
    var m := Initial(ramBytes, diskWords);
    ServedCache(m, ops);
    OrderFromEmpty(CacheAccessesOf(m, ops));
  }

  /** From any moment of such a run on, the line at place `p` of the queue stays while the cache fills up and through
      the next `p` insertions, and no longer. */
  lemma RunEvictsInOrder(m: Mmu, ops: seq<Op>, p: nat)
    requires Mapped(m) && FifoOrder(m.cache) && NoMissWord(m.cache) && NeverCachesMiss(m, ops) && p < |m.cache.fifo|
    ensures var c, r := m.cache, Serve(m, ops).0.cache;
            var n, room := Insertions(c, CacheAccessesOf(m, ops)), CAPACITY - |c.fifo|;
            && FifoOrder(r) && NoMissWord(r)
            && (n <= room + p ==> c.fifo[p] in r.lines) && (n == room + p + 1 ==> c.fifo[p] !in r.lines)
  {
    hide FifoOrder, Mapped, NoMissWord;
    ServedCache(m, ops);
    EvictionTime(m.cache, CacheAccessesOf(m, ops), p);
  }
}
