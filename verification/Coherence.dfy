/** The cache agrees with RAM, and reads return what was written. */
module Coherence {
  import opened Words
  import opened CacheSpec
  import opened Paging

  /** Every line is the RAM word of an aligned address in a frame in use. */
  ghost predicate Coherent(m: Mmu)
    requires Sized(m)
  {
    forall a | a in m.cache.lines ::
      a % 4 == 0 && a / 32 < m.frames && m.used[a / 32] && m.cache.lines[a].data == ReadWord(m.ram, a / 4)
  }

  predicate CacheAddress(m: Mmu, a: Word)
    requires Sized(m)
  {
    a % 4 == 0 && a / 32 < m.frames && m.used[a / 32]
  }

  /** Writing back a line that agrees with RAM changes nothing. */
  lemma CleanWriteBack(m: Mmu)
    requires Sized(m) && Coherent(m)
    ensures var p := WriteBack(m.cache); p.Some? ==> WriteToFile(m, p.value.0, p.value.1) == m
  {
  }

  /** What a read or write of the memory manager does to the cache is one access in the sense of the FIFO laws. */
  lemma CacheAccesses(m: Mmu, a: Word, w: Word)
    ensures ReadPhysical(m, a).0.cache == Apply(m.cache, Access(a, Backing(m, a), false))
    ensures WritePhysical(m, a, w).cache == Apply(m.cache, Access(a, w, true))
  {
    hide CacheSpec.Put, WriteWord;
  }

  lemma PutCoherent(m: Mmu, a: Word)
    requires Sized(m) && Coherent(m) && CacheAddress(m, a)
    ensures var r := CachePut(m, a, ReadWord(m.ram, a / 4));
            && r == m.(cache := r.cache) && Coherent(r)
  {
    CleanWriteBack(m);
  }

  /** A read returns the RAM word and changes nothing but the cache. */
  lemma ReadPhysicalCoherent(m: Mmu, a: Word)
    requires Sized(m) && Coherent(m) && CacheAddress(m, a)
    ensures var (r, w) := ReadPhysical(m, a);
            && w == ReadWord(m.ram, a / 4)
            && r == m.(cache := r.cache) && Coherent(r)
  {
    hide WriteToFile;
    var m1 := m.(cache := Get(m.cache, a));
    assert Coherent(m1);
    PutCoherent(m1, a);
  }

  lemma WordIndex(m: Mmu, a: Word)
    requires Sized(m) && CacheAddress(m, a)
    ensures a < m.limit && 0 <= a / 4 < |m.ram|
  {
  }

  /** Coherent except possibly at the line of `a`, whose RAM word is `w`. */
  ghost predicate CoherentBut(m: Mmu, a: Word, w: Word)
    requires Sized(m)
  {
    && CacheAddress(m, a) && ReadWord(m.ram, a / 4) == w
    && forall b | b in m.cache.lines ::
         CacheAddress(m, b) && (b != a ==> m.cache.lines[b].data == ReadWord(m.ram, b / 4))
  }

  lemma RamWritten(m: Mmu, a: Word, w: Word)
    requires Sized(m) && Coherent(m) && CacheAddress(m, a)
    ensures var r := WriteToFile(m, a, w); r == m.(ram := m.ram[a / 4 := w]) && CoherentBut(r, a, w)
  {
    WordIndex(m, a);
  }

  lemma WriteHit(m: Mmu, a: Word, w: Word)
    requires Sized(m) && CoherentBut(m, a, w) && a in m.cache.lines
    ensures var c := Update(Get(m.cache, a), a, w); Coherent(m.(cache := c))
  {
  }

  /** The write is undone by the write-back it causes: it replaces 0xFFFFFFFF held by the dirty line that the full cache
      throws out. */
  predicate WrittenOver(c: Cache, a: Word, w: Word) {
    w != MISS && WriteBack(c) == Some((a, MISS))
  }

  lemma WriteMiss(m: Mmu, a: Word, w: Word)
    requires Sized(m) && CoherentBut(m, a, w) && Lookup(m.cache, a) == MISS && !WrittenOver(m.cache, a, w)
    ensures var r := CachePut(m, a, w);
            r == m.(cache := r.cache) && Coherent(r)
  {
    var p := WriteBack(m.cache);
    if p.Some? {
      WordIndex(m, p.value.0);
      assert WriteToFile(m, p.value.0, p.value.1) == m;
    }
  }

  /** A written word that is not undone reaches RAM and the cache, and nothing else changes. */
  lemma WritePhysicalCoherent(m: Mmu, a: Word, w: Word)
    requires Sized(m) && Coherent(m) && CacheAddress(m, a) && !WrittenOver(m.cache, a, w)
    ensures var r := WritePhysical(m, a, w);
            && r == m.(cache := r.cache, ram := r.ram)
            && a / 4 < |m.ram| && r.ram == m.ram[a / 4 := w]
            && Coherent(r)
  {
    WordIndex(m, a);
    RamWritten(m, a, w);
    var m1 := WriteToFile(m, a, w);
    hide Coherent, WriteToFile, CachePut, Update;
    if Lookup(m1.cache, a) != MISS {
      WriteHit(m1, a, w);
    } else {
      var m2 := m1.(cache := Get(m1.cache, a));
      assert CoherentBut(m2, a, w);
      WriteMiss(m2, a, w);
    }
  }

  /** The exact condition for a write to reach RAM. It is lost exactly when it replaces 0xFFFFFFFF held by a dirty line
      that the full cache throws out to make room for the new one: the line is taken for a miss, and its write-back
      overwrites the word just written. */
  lemma WriteReachesRamExactly(m: Mmu, a: Word, w: Word)
    requires Sized(m) && Coherent(m) && CacheAddress(m, a)
    ensures ReadWord(WritePhysical(m, a, w).ram, a / 4) == w
            <==> !WrittenOver(m.cache, a, w)
  {
    WordIndex(m, a);
    RamWritten(m, a, w);
    var m1 := WriteToFile(m, a, w);
    var p := WriteBack(m.cache);
    if Lookup(m.cache, a) == MISS && p.Some? {
      var (v, d) := p.value;
      WordIndex(m, v);
      assert WriteToFile(m1, v, d).ram == m1.ram[v / 4 := d];
    }
  }
}
