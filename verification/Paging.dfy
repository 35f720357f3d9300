/** Virtual memory as a value: frames, swap and L1 (src/memory/MemoryManager.cpp), with RAM and disk as bounded
    arrays of words (src/memory/MAIN_MEMORY.cpp, src/memory/SECONDARY_MEMORY.cpp). */
module Paging {
  import opened Words
  import opened CacheSpec

  const PAGE_SIZE: nat := 32
  const PAGE_WORDS: nat := 8
  const ACCESS_ERROR: Word := 0xFFFF_FFFF

  /** A virtual page of a process; process ids are unique. */
  datatype Key = Key(pid: int, page: nat)

  /** The memory manager. `pages` holds the page tables of all processes; `loads` is a history variable: the pages that
      were given a frame, in order. */
  datatype Mmu = Mmu(
    ram: seq<Word>, disk: seq<Word>, limit: nat, frames: nat,
    used: seq<bool>, owner: seq<Option<Key>>, pages: map<Key, nat>, swap: map<Key, Word>,
    nextSwap: Word, victim: nat, cache: Cache, loads: seq<Key>)

  // ---------------------------------------------------------------------------------------------------------------
  // Bounded word stores
  // ---------------------------------------------------------------------------------------------------------------

  /** Reading beyond the end gives the error word; writing there does nothing. */
  function ReadWord(store: seq<Word>, i: int): Word {
    if 0 <= i < |store| then store[i] else ACCESS_ERROR
  }

  function WriteWord(store: seq<Word>, i: int, w: Word): (r: seq<Word>)
    ensures |r| == |store|
  {
    if 0 <= i < |store| then store[i := w] else store
  }

  /** The eight words at `base`. */
  function PageWords(store: seq<Word>, base: int): (r: seq<Word>)
    ensures |r| == PAGE_WORDS
    ensures forall i | 0 <= i < PAGE_WORDS :: r[i] == ReadWord(store, base + i)
  {
    seq<Word>(PAGE_WORDS, i requires 0 <= i < PAGE_WORDS => ReadWord(store, base + i))
  }

  /** `store` with the words from `base` on replaced by `words`, as far as they fit. */
  function Blit(store: seq<Word>, base: int, words: seq<Word>): (r: seq<Word>)
    ensures |r| == |store|
    ensures forall j | 0 <= j < |store| ::
              r[j] == if base <= j < base + |words| then words[j - base] else store[j]
  {
    seq<Word>(|store|, j requires 0 <= j < |store| => if base <= j < base + |words| then words[j - base] else store[j])
  }

  // ---------------------------------------------------------------------------------------------------------------
  // Frames and swap
  // ---------------------------------------------------------------------------------------------------------------

  /** Sizes the constructor establishes. */
  predicate Sized(m: Mmu) {
    && m.frames >= 1 && |m.used| == |m.owner| == m.frames && m.victim < m.frames
    && m.frames * PAGE_WORDS <= |m.ram| && m.frames * PAGE_SIZE <= m.limit <= 0x1_0000
  }

  /** Frees the frame under the FIFO pointer, saving its page to the next swap slot. */
  function SwapOut(m: Mmu): Mmu
    requires Sized(m)
  {
    var v := m.victim;
    var m1 := m.(victim := (v + 1) % m.frames);
    match m.owner[v]
    case None => m1
    case Some(k) =>
      m1.(disk := Blit(m.disk, m.nextSwap, PageWords(m.ram, v * PAGE_WORDS)),
          nextSwap := ToWord(m.nextSwap + PAGE_WORDS),
          swap := m.swap[k := m.nextSwap],
          pages := m.pages - {k})
  }

  /** Loads a page from the disk into a frame. */
  function SwapIn(m: Mmu, f: nat, k: Key, diskAddr: Word): Mmu {
    m.(ram := Blit(m.ram, f * PAGE_WORDS, PageWords(m.disk, diskAddr)), swap := m.swap - {k})
  }

  /** The first free frame; the number of frames when none is free. */
  function FirstFree(used: seq<bool>): (f: nat)
    ensures f <= |used| && (f < |used| ==> !used[f])
    ensures forall i | 0 <= i < f :: used[i]
  {
    if used == [] || !used[0] then 0
    else
      var f := FirstFree(used[1..]);
      assert forall i | 1 <= i < f + 1 :: used[i] == used[1..][i - 1];
      f + 1
  }

  /** The frame an allocation takes. */
  function TargetFrame(m: Mmu): (f: nat)
    requires Sized(m)
    ensures f < m.frames
  {
    var f := FirstFree(m.used);
    if f < m.frames then f else m.victim
  }

  function AllocateFrame(m: Mmu, k: Key): Mmu
    requires Sized(m)
  {
    var f := TargetFrame(m);
    var m1 := if FirstFree(m.used) < m.frames then m.(used := m.used[f := true]) else SwapOut(m);
    m1.(owner := m1.owner[f := Some(k)], loads := m.loads + [k])
  }

  /** Gives the page a frame if it is swapped out, or if it is new and written to. */
  function Translate(m: Mmu, k: Key, isWrite: bool): Mmu
    requires Sized(m)
  {
    if k in m.pages then m
    else if k in m.swap then
      var f := TargetFrame(m);
      var m1 := SwapIn(AllocateFrame(m, k), f, k, m.swap[k]);
      m1.(pages := m1.pages[k := f])
    else if isWrite then
      var f := TargetFrame(m);
      var m1 := AllocateFrame(m, k);
      m1.(pages := m1.pages[k := f])
    else m
  }

  /** Physical byte address of a byte of a page, in the state after translation. */
  function Physical(m: Mmu, k: Key, offset: nat): Word
    requires offset < PAGE_SIZE && (k in m.pages ==> m.pages[k] < m.frames) && Sized(m)
  {
    if k in m.pages then m.pages[k] * PAGE_SIZE + offset else ACCESS_ERROR
  }

  function PageOf(a: Word): nat { a / PAGE_SIZE }
  function OffsetOf(a: Word): nat { a % PAGE_SIZE }

  // ---------------------------------------------------------------------------------------------------------------
  // Reads and writes
  // ---------------------------------------------------------------------------------------------------------------

  /** Write-back of a dirty line to the store its address belongs to. */
  function WriteToFile(m: Mmu, a: Word, w: Word): Mmu {
    if a < m.limit then m.(ram := WriteWord(m.ram, a / 4, w))
    else m.(disk := WriteWord(m.disk, (a - m.limit) / 4, w))
  }

  /** `Cache::put`: the victim is written back first when dirty. */
  function CachePut(m: Mmu, a: Word, w: Word): Mmu {
    var m1 := match WriteBack(m.cache) case Some(p) => WriteToFile(m, p.0, p.1) case None => m;
    m1.(cache := CacheSpec.Put(m.cache, a, w))
  }

  /** The word behind a physical address. */
  function Backing(m: Mmu, a: Word): Word {
    if a < m.limit then ReadWord(m.ram, a / 4) else ReadWord(m.disk, (a - m.limit) / 4)
  }

  function ReadPhysical(m: Mmu, a: Word): (Mmu, Word) {
    var m1 := m.(cache := Get(m.cache, a));
    if Lookup(m.cache, a) != MISS then (m1, Lookup(m.cache, a))
    else (CachePut(m1, a, Backing(m1, a)), Backing(m1, a))
  }

  function WritePhysical(m: Mmu, a: Word, w: Word): Mmu {
    var m1 := WriteToFile(m, a, w);
    var m2 := m1.(cache := Get(m1.cache, a));
    if Lookup(m1.cache, a) != MISS then m2.(cache := Update(m2.cache, a, w)) else CachePut(m2, a, w)
  }

  /** Page table entries lead to existing frames. */
  predicate Mapped(m: Mmu) {
    && Sized(m)
    && forall k | k in m.pages :: m.pages[k] < m.frames
  }

  lemma TranslateMapped(m: Mmu, k: Key, isWrite: bool)
    requires Mapped(m)
    ensures Mapped(Translate(m, k, isWrite))
  {
    hide Blit, PageWords, FirstFree;
  }

  /** Reading a word; an address without a page reads as 0. */
  function Read(m: Mmu, k: Key, offset: nat): (Mmu, Word)
    requires Mapped(m) && offset < PAGE_SIZE
  {
    TranslateMapped(m, k, false);
    var m1 := Translate(m, k, false);
    var a := Physical(m1, k, offset);
    if a == ACCESS_ERROR then (m1, 0) else ReadPhysical(m1, a)
  }

  function Write(m: Mmu, k: Key, offset: nat, w: Word): Mmu
    requires Mapped(m) && offset < PAGE_SIZE
  {
    TranslateMapped(m, k, true);
    var m1 := Translate(m, k, true);
    var a := Physical(m1, k, offset);
    if a == ACCESS_ERROR then m1 else WritePhysical(m1, a, w)
  }
}
