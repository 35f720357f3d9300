/** The memory manager as a flat memory: over any run, a read returns the last word written at that address. */
module FlatMemory {
  import opened Words
  import opened CacheSpec
  import opened Paging
  import opened PagingProofs
  import opened Coherence

  // ---------------------------------------------------------------------------------------------------------------
  // Coherence across a translation
  // ---------------------------------------------------------------------------------------------------------------

  /** The page comes back from disk into the frame of a victim. */
  predicate Reloads(m: Mmu, k: Key)
    requires Sized(m)
  {
    k !in m.pages && k in m.swap && Full(m)
  }

  function WordInPage(a: Word): nat {
    a % 32 / 4
  }

  /** Every cached line of the victim's frame already holds the word that is loaded there. */
  ghost predicate LinesMatchLoad(m: Mmu, k: Key)
    requires k in m.swap
  {
    forall a | a in m.cache.lines && a / 32 == m.victim ::
      m.cache.lines[a].data == ReadWord(m.disk, m.swap[k] + WordInPage(a))
  }

  /** RAM, frames in use and cache after an allocating translation. */
  lemma AllocationEffect(m: Mmu, k: Key)
    requires Inv(m) && k !in m.pages
    ensures var r, f := Translate(m, k, true), TargetFrame(m);
            && r.cache == m.cache && r.used == m.used[f := true]
            && r.ram == (if k in m.swap then Blit(m.ram, f * PAGE_WORDS, PageWords(m.disk, m.swap[k])) else m.ram)
            && (Full(m) ==> f == m.victim && m.used[f]) && (!Full(m) ==> !m.used[f])
            && r.frames == m.frames && |r.ram| == |m.ram|
  {
    hide Blit, PageWords;
    FreedFrames(m);
    if k in m.swap {
      AllocateIsFreeThenLoad(m, k);
      if Full(m) {
        BlitElsewhere(m.disk, m.nextSwap, PageWords(m.ram, m.victim * PAGE_WORDS), m.swap[k]);
      }
    } else {
      AllocateIsFreeThenFill(m, k);
    }
  }

  lemma LoadedWord(m: Mmu, f: nat, slot: int, a: Word)
    requires Sized(m) && f < m.frames && a % 4 == 0 && a / 32 < m.frames
    ensures var ram := Blit(m.ram, f * PAGE_WORDS, PageWords(m.disk, slot));
            ReadWord(ram, a / 4)
            == if a / 32 == f then ReadWord(m.disk, slot + WordInPage(a)) else ReadWord(m.ram, a / 4)
  {
    var i := WordInPage(a);
    assert a / 4 == a / 32 * 8 + i;
    assert PageWords(m.disk, slot)[i] == ReadWord(m.disk, slot + i);
  }

  /** Coherence once the words from `slot` have been loaded into frame `f`. */
  lemma CoherentAfterLoad(m: Mmu, r: Mmu, f: nat, slot: int)
    requires Sized(m) && Sized(r) && Coherent(m) && f < m.frames == r.frames
    requires r.cache == m.cache && r.used == m.used[f := true]
    requires r.ram == Blit(m.ram, f * PAGE_WORDS, PageWords(m.disk, slot))
    ensures Coherent(r) <==> forall a | a in m.cache.lines && a / 32 == f ::
                               m.cache.lines[a].data == ReadWord(m.disk, slot + WordInPage(a))
  {
    hide Blit, PageWords;
    forall a | a in m.cache.lines
      ensures ReadWord(r.ram, a / 4)
              == if a / 32 == f then ReadWord(m.disk, slot + WordInPage(a)) else m.cache.lines[a].data
    {
      LoadedWord(m, f, slot, a);
    }
  }

  /** No line belongs to a frame that is not in use. */
  lemma FreeFrameNotCached(m: Mmu, f: nat)
    requires Sized(m) && Coherent(m) && f < m.frames && !m.used[f]
    ensures forall a | a in m.cache.lines :: a / 32 != f
  {
  }

  lemma MoreFrames(m: Mmu, r: Mmu, f: nat)
    requires Sized(m) && Sized(r) && Coherent(m) && f < m.frames == r.frames
    requires r.cache == m.cache && r.used == m.used[f := true] && r.ram == m.ram
    ensures Coherent(r)
  {
  }

  lemma LoadCoherentExactly(m: Mmu, k: Key, r: Mmu, f: nat)
    requires Inv(m) && Coherent(m) && k in m.swap && Sized(r)
    requires f < m.frames == r.frames && r.cache == m.cache && r.used == m.used[f := true]
    requires r.ram == Blit(m.ram, f * PAGE_WORDS, PageWords(m.disk, m.swap[k]))
    requires if Full(m) then f == m.victim else !m.used[f]
    ensures Coherent(r) <==> (Full(m) ==> LinesMatchLoad(m, k))
  {
    hide Blit, PageWords, Coherent, ReadWord, FramesOk, SwapOk;
    CoherentAfterLoad(m, r, f, m.swap[k]);
    if !Full(m) {
      FreeFrameNotCached(m, f);
    }
  }

  /** The exact condition for the cache to stay coherent, with room on the disk or not: nothing but a reload can break
      it, and a reload does unless every cached line of the victim's frame happens to match. */
  lemma TranslateCoherentExactly(m: Mmu, k: Key, isWrite: bool)
    requires Inv(m) && Coherent(m)
    ensures Sized(Translate(m, k, isWrite))
    ensures Coherent(Translate(m, k, isWrite)) <==> (Reloads(m, k) ==> LinesMatchLoad(m, k))
  {
    TablesStayInverse(m, k, isWrite);
    if k !in m.pages && (k in m.swap || isWrite) {
      var r, f := Translate(m, k, isWrite), TargetFrame(m);
      assert r == Translate(m, k, true);
      hide Translate, Blit, PageWords, TargetFrame, FramesOk, SwapOk, ReadWord, Coherent, LinesMatchLoad;
      AllocationEffect(m, k);
      if k in m.swap {
        LoadCoherentExactly(m, k, r, f);
      } else {
        MoreFrames(m, r, f);
      }
    }
  }

  // ---------------------------------------------------------------------------------------------------------------
  // Single reads and writes
  // ---------------------------------------------------------------------------------------------------------------

  /** Byte offset of a word within its page. */
  type Offset = o: nat | o < 32 && o % 4 == 0

  ghost predicate Sound(m: Mmu) {
    Inv(m) && Coherent(m)
  }

  /** What an access may not run into: a disk that does not take the victim's words, or a reload under stale cache
      lines. */
  ghost predicate Undisturbed(m: Mmu, k: Key, isWrite: bool)
    requires Sized(m)
  {
    && (Evicts(m, k, isWrite) ==> NoWrap(m) && Saves(m))
    && (Reloads(m, k) ==> LinesMatchLoad(m, k))
  }

  /** Physical address a write goes to. */
  function WriteAddress(m: Mmu, k: Key, o: Offset): Word
    requires Mapped(m)
  {
    (if k in m.pages then m.pages[k] else TargetFrame(m)) * PAGE_SIZE + o
  }

  /** The write is undone by the write-back of the line it replaces. */
  predicate LosesWrite(m: Mmu, k: Key, o: Offset, w: Word)
    requires Mapped(m)
  {
    WrittenOver(m.cache, WriteAddress(m, k, o), w)
  }

  lemma TranslateSound(m: Mmu, k: Key, isWrite: bool)
    requires Sound(m) && Undisturbed(m, k, isWrite)
    ensures var r := Translate(m, k, isWrite);
            && Transparent(m, k, isWrite, r) && Sound(r)
            && (k in r.pages ==> r.pages[k] < r.frames && r.used[r.pages[k]])
  {
    hide Translate, Coherent, LinesMatchLoad, Saves;
    Transparency(m, k, isWrite);
    TranslateCoherentExactly(m, k, isWrite);
  }

  lemma TranslateKeepsLines(m: Mmu, k: Key, isWrite: bool)
    requires Inv(m)
    ensures Translate(m, k, isWrite).cache == m.cache
  {
    if k !in m.pages && (k in m.swap || isWrite) {
      AllocationEffect(m, k);
    }
  }

  /** Words in the stores and the cache at most. */
  predicate OnlyWords(m: Mmu, r: Mmu) {
    r == m.(cache := r.cache, ram := r.ram, disk := r.disk) && |r.ram| == |m.ram| && |r.disk| == |m.disk|
  }

  /** Reading and writing move no page. */
  lemma AccessMovesNothing(m: Mmu, a: Word, w: Word)
    ensures OnlyWords(m, ReadPhysical(m, a).0) && OnlyWords(m, WritePhysical(m, a, w))
  {
    hide CacheSpec.Put, WriteWord;
  }

  /** Replacing the cache leaves the pages alone. */
  lemma CacheOnly(m: Mmu, r: Mmu)
    requires Inv(m) && r == m.(cache := r.cache)
    ensures Inv(r) && KeepsContents(m, r) && forall k :: IsMapped(r, k) <==> IsMapped(m, k)
  {
  }

  lemma FrameAddress(m: Mmu, k: Key, o: Offset)
    requires Sized(m) && k in m.pages && m.pages[k] < m.frames && m.used[m.pages[k]]
    ensures var a := Physical(m, k, o);
            && CacheAddress(m, a) && a != ACCESS_ERROR
            && a / 4 == m.pages[k] * PAGE_WORDS + o / 4
            && ReadWord(m.ram, a / 4) == Content(m, k)[o / 4]
  {
  }

  /** A read returns the word of the page, or 0 when the page was never written, and changes no page. */
  lemma ReadStep(m: Mmu, k: Key, o: Offset)
    requires Sound(m) && Undisturbed(m, k, false) && Mapped(m)
    ensures var (r, w) := Read(m, k, o);
            && Sound(r) && Mapped(r) && KeepsContents(m, r)
            && (forall l :: IsMapped(r, l) <==> IsMapped(m, l))
            && w == if IsMapped(m, k) then Content(m, k)[o / 4] else 0
  {
    hide Translate, Coherent, Content, FramesOk, SwapOk, Undisturbed, ReadPhysical;
    var m1 := Translate(m, k, false);
    TranslateSound(m, k, false);
    TranslateMapped(m, k, false);
    if k in m1.pages {
      var a := Physical(m1, k, o);
      FrameAddress(m1, k, o);
      ReadPhysicalCoherent(m1, a);
      CacheOnly(m1, ReadPhysical(m1, a).0);
      KeepsTransitively(m, m1, ReadPhysical(m1, a).0);
    }
  }

  /** The page words after one word of RAM changed. */
  lemma OneWordWritten(store: seq<Word>, f: nat, i: nat, w: Word, g: nat)
    requires i < PAGE_WORDS && (f + 1) * PAGE_WORDS <= |store|
    ensures PageWords(store[f * PAGE_WORDS + i := w], g * PAGE_WORDS)
            == if g == f then PageWords(store, g * PAGE_WORDS)[i := w] else PageWords(store, g * PAGE_WORDS)
  {
  }

  /** A store into the frame of `k` changes one word of that page and nothing else. */
  lemma StoreInFrame(m: Mmu, r: Mmu, k: Key, i: nat, w: Word)
    requires Inv(m) && k in m.pages && i < PAGE_WORDS
    requires m.pages[k] * PAGE_WORDS + i < |m.ram|
    requires r == m.(cache := r.cache, ram := m.ram[m.pages[k] * PAGE_WORDS + i := w])
    ensures Inv(r) && forall l :: IsMapped(r, l) <==> IsMapped(m, l)
    ensures Content(r, k) == Content(m, k)[i := w]
    ensures forall l | IsMapped(m, l) && l != k :: Content(r, l) == Content(m, l)
  {
    hide PageWords;
    var f := m.pages[k];
    forall l | IsMapped(m, l)
      ensures Content(r, l) == if l == k then Content(m, l)[i := w] else Content(m, l)
    {
      if l in m.pages {
        assert l != k ==> m.pages[l] != f;
        OneWordWritten(m.ram, f, i, w, m.pages[l]);
      }
    }
  }

  lemma WriteAddressIs(m: Mmu, k: Key, o: Offset)
    requires Inv(m) && Mapped(m)
    ensures var r := Translate(m, k, true);
            && r.cache == m.cache && k in r.pages && Sized(r) && r.pages[k] < r.frames
            && Physical(r, k, o) == WriteAddress(m, k, o)
  {
    hide Blit, PageWords;
    TranslateKeepsLines(m, k, true);
  }

  /** A write puts the word into the page, mapping it if necessary, and changes no other word of a mapped page. */
  lemma WriteStep(m: Mmu, k: Key, o: Offset, w: Word)
    requires Sound(m) && Undisturbed(m, k, true) && Mapped(m) && !LosesWrite(m, k, o, w)
    ensures var r := Write(m, k, o, w);
            && Sound(r) && Mapped(r)
            && (forall l :: IsMapped(r, l) <==> IsMapped(m, l) || l == k)
            && Content(r, k)[o / 4] == w
            && (IsMapped(m, k) ==> Content(r, k) == Content(m, k)[o / 4 := w])
            && (forall l | IsMapped(m, l) && l != k :: Content(r, l) == Content(m, l))
  {
    hide Translate, Coherent, Content, FramesOk, SwapOk, Undisturbed, WritePhysical, PageWords;
    var m1 := Translate(m, k, true);
    TranslateSound(m, k, true);
    TranslateMapped(m, k, true);
    var a := Physical(m1, k, o);
    FrameAddress(m1, k, o);
    assert a == WriteAddress(m, k, o) && m1.cache == m.cache by { WriteAddressIs(m, k, o); }
    WritePhysicalCoherent(m1, a, w);
    StoreInFrame(m1, WritePhysical(m1, a, w), k, o / 4, w);
  }

  /** The exact condition for a write to reach its page. */
  lemma WriteKeptExactly(m: Mmu, k: Key, o: Offset, w: Word)
    requires Sound(m) && Undisturbed(m, k, true) && Mapped(m)
    ensures var r := Write(m, k, o, w);
            IsMapped(r, k) && (Content(r, k)[o / 4] == w <==> !LosesWrite(m, k, o, w))
  {
    hide Translate, Coherent, FramesOk, SwapOk, Undisturbed, WritePhysical, PageWords, WrittenOver;
    var m1 := Translate(m, k, true);
    TranslateSound(m, k, true);
    TranslateMapped(m, k, true);
    WriteAddressIs(m, k, o);
    FrameAddress(m1, k, o);
    var a := Physical(m1, k, o);
    AccessMovesNothing(m1, a, w);
    WriteReachesRamExactly(m1, a, w);
    FrameAddress(WritePhysical(m1, a, w), k, o);
  }

  /** What the unwritten words of a page are: the first write to a page changes one word of what its frame held before,
      whosever it was. */
  lemma FreshPageHoldsOldWords(m: Mmu, k: Key, o: Offset, w: Word)
    requires Sound(m) && Undisturbed(m, k, true) && Mapped(m) && !LosesWrite(m, k, o, w) && !IsMapped(m, k)
    ensures var r := Write(m, k, o, w);
            && k in r.pages && r.pages[k] == TargetFrame(m)
            && Content(r, k) == PageWords(m.ram, TargetFrame(m) * PAGE_WORDS)[o / 4 := w]
  {
    var m1 := Translate(m, k, true);
    assert k in m1.pages && m1.pages[k] == TargetFrame(m);
    AllocationEffect(m, k);
    hide Translate, Coherent, FramesOk, SwapOk, Undisturbed, WritePhysical, PageWords;
    TranslateSound(m, k, true);
    TranslateMapped(m, k, true);
    var a := Physical(m1, k, o);
    FrameAddress(m1, k, o);
    assert a == WriteAddress(m, k, o) && m1.cache == m.cache by { WriteAddressIs(m, k, o); }
    WritePhysicalCoherent(m1, a, w);
    StoreInFrame(m1, WritePhysical(m1, a, w), k, o / 4, w);
  }

  // ---------------------------------------------------------------------------------------------------------------
  // Runs
  // ---------------------------------------------------------------------------------------------------------------

  /** An access of some process to an aligned word. */
  datatype Op = Rd(key: Key, offset: Offset) | Wr(key: Key, offset: Offset, word: Word)

  /** The words written so far, by page and word index. */
  type Flat = map<(Key, nat), Word>

  function Perform(m: Mmu, op: Op): (Mmu, Word)
    requires Mapped(m)
  {
    match op
    case Rd(k, o) => Read(m, k, o)
    case Wr(k, o, w) => (Write(m, k, o, w), 0)
  }

  /** The access does not disturb memory, and a write is not undone. */
  ghost predicate Admissible(m: Mmu, op: Op)
    requires Mapped(m)
  {
    Undisturbed(m, op.key, op.Wr?) && (op.Wr? ==> !LosesWrite(m, op.key, op.offset, op.word))
  }

  /** `flat` records the words written, and a page is mapped exactly when one of its words was written. */
  ghost predicate Represents(m: Mmu, flat: Flat) {
    && (forall k, i | (k, i) in flat :: i < PAGE_WORDS && IsMapped(m, k) && Content(m, k)[i] == flat[(k, i)])
    && (forall k | IsMapped(m, k) :: exists i :: (k, i) in flat)
  }

  function Record(flat: Flat, op: Op): Flat {
    match op
    case Rd(_, _) => flat
    case Wr(k, o, w) => flat[(k, o / 4) := w]
  }

  /** A reply of the flat memory: the last word written there, or 0 on a page without any written word. */
  ghost predicate FlatReply(flat: Flat, op: Op, reply: Word) {
    op.Rd? ==>
      && ((op.key, op.offset / 4) in flat ==> reply == flat[(op.key, op.offset / 4)])
      && ((forall i :: (op.key, i) !in flat) ==> reply == 0)
  }

  /** One access in agreement with the flat memory. */
  lemma FlatStep(m: Mmu, op: Op, flat: Flat)
    requires Sound(m) && Mapped(m) && Represents(m, flat) && Admissible(m, op)
    ensures var (r, w) := Perform(m, op);
            && Sound(r) && Mapped(r) && Represents(r, Record(flat, op)) && FlatReply(flat, op, w)
  {
    hide Sound, Read, Write, Content, Mapped, Undisturbed, IsMapped;
    match op {
      case Rd(k, o) =>
        ReadStep(m, k, o);
      case Wr(k, o, w) =>
        WriteStep(m, k, o, w);
        var r := Write(m, k, o, w);
        var flat' := Record(flat, op);
        forall l, i | (l, i) in flat'
          ensures i < PAGE_WORDS && IsMapped(r, l) && Content(r, l)[i] == flat'[(l, i)]
        {
        }
        forall l | IsMapped(r, l)
          ensures exists i :: (l, i) in flat'
        {
          if l == k {
            assert (l, o / 4) in flat';
          } else {
            var i :| (l, i) in flat;
            assert (l, i) in flat';
          }
        }
    }
  }

  function Serve(m: Mmu, ops: seq<Op>): (Mmu, seq<Word>)
    requires Mapped(m)
    decreases |ops|
  {
    if ops == [] then (m, [])
    else
      PerformMapped(m, ops[0]);
      var (m1, w) := Perform(m, ops[0]);
      var (m2, ws) := Serve(m1, ops[1..]);
      (m2, [w] + ws)
  }

  lemma PerformMapped(m: Mmu, op: Op)
    requires Mapped(m)
    ensures Mapped(Perform(m, op).0)
  {
    hide Translate, ReadPhysical, WritePhysical;
    TranslateMapped(m, op.key, op.Wr?);
    var m1 := Translate(m, op.key, op.Wr?);
    AccessMovesNothing(m1, Physical(m1, op.key, op.offset), if op.Wr? then op.word else 0);
  }

  /** Every access of the run is admissible when its turn comes. */
  ghost predicate AdmissibleRun(m: Mmu, ops: seq<Op>)
    requires Mapped(m)
    decreases |ops|
  {
    ops == [] ||
    (Admissible(m, ops[0]) && (PerformMapped(m, ops[0]); AdmissibleRun(Perform(m, ops[0]).0, ops[1..])))
  }

  /** The replies are those of a flat memory that starts with the words of `flat`. */
  ghost predicate FlatReplies(flat: Flat, ops: seq<Op>, replies: seq<Word>)
    decreases |ops|
  {
    |replies| == |ops| &&
    (ops == [] || (FlatReply(flat, ops[0], replies[0]) && FlatReplies(Record(flat, ops[0]), ops[1..], replies[1..])))
  }

  /** Memory is flat: over any admissible run of reads and writes by any processes, every read of a written word returns
      the word written last, and reads of pages without a written word return 0. In the end every cached line is the RAM
      word behind it, and tables and slots are in order. */
  lemma {:induction false} FlatRun(m: Mmu, ops: seq<Op>, flat: Flat)
    requires Sound(m) && Mapped(m) && Represents(m, flat) && AdmissibleRun(m, ops)
    ensures FlatReplies(flat, ops, Serve(m, ops).1) && Sound(Serve(m, ops).0)
    decreases |ops|
  {
    hide Sound, Mapped, Represents, Perform, Admissible, FlatReply, Record;
    if ops != [] {
      FlatStep(m, ops[0], flat);
      FlatRun(Perform(m, ops[0]).0, ops[1..], Record(flat, ops[0]));
      var (m1, w) := Perform(m, ops[0]);
      var ws := Serve(m1, ops[1..]).1;
      assert ([w] + ws)[1..] == ws;
    }
  }

  type PageData = words: seq<Word> | |words| == PAGE_WORDS witness [0, 0, 0, 0, 0, 0, 0, 0]

  /** The words of every page that was written, those left over from its frame included. */
  type Pages = map<Key, PageData>

  ghost predicate HoldsPages(m: Mmu, pages: Pages) {
    forall k :: (k in pages <==> IsMapped(m, k)) && (k in pages ==> pages[k] == Content(m, k))
  }

  /** A write changes one word of its page; a page written for the first time starts with the words of the frame it is
      given. */
  function RecordPage(m: Mmu, pages: Pages, op: Op): Pages
    requires Mapped(m)
  {
    match op
    case Rd(_, _) => pages
    case Wr(k, o, w) =>
      var words: PageData := if k in pages then pages[k] else PageWords(m.ram, TargetFrame(m) * PAGE_WORDS);
      pages[k := words[o / 4 := w]]
  }

  /** The word of the page, or 0 when the page was never written. */
  function PageReply(pages: Pages, op: Op): Word {
    if op.Rd? && op.key in pages then pages[op.key][op.offset / 4] else 0
  }

  /** The pages after a run and the replies they give during it. */
  function ServePages(m: Mmu, pages: Pages, ops: seq<Op>): (Pages, seq<Word>)
    requires Mapped(m)
    decreases |ops|
  {
    if ops == [] then (pages, [])
    else
      PerformMapped(m, ops[0]);
      var (after, ws) := ServePages(Perform(m, ops[0]).0, RecordPage(m, pages, ops[0]), ops[1..]);
      (after, [PageReply(pages, ops[0])] + ws)
  }

  lemma PagedStep(m: Mmu, op: Op, pages: Pages)
    requires Sound(m) && Mapped(m) && HoldsPages(m, pages) && Admissible(m, op)
    ensures var (r, w) := Perform(m, op);
            Sound(r) && Mapped(r) && HoldsPages(r, RecordPage(m, pages, op)) && w == PageReply(pages, op)
  {
    hide Sound, Read, Write, Content, Mapped, Undisturbed, IsMapped, LosesWrite, PageWords, TargetFrame;
    match op {
      case Rd(k, o) =>
        ReadStep(m, k, o);
      case Wr(k, o, w) =>
        WriteStep(m, k, o, w);
        if k !in pages {
          FreshPageHoldsOldWords(m, k, o, w);
        }
    }
  }

  /** Every reply of an admissible run, and every word of every page after it: reads of a written page return its word,
      be it written or left over in the frame the page was given, and reads of other pages return 0. */
  lemma {:induction false} PagedRun(m: Mmu, ops: seq<Op>, pages: Pages)
    requires Sound(m) && Mapped(m) && HoldsPages(m, pages) && AdmissibleRun(m, ops)
    ensures Serve(m, ops).1 == ServePages(m, pages, ops).1
    ensures HoldsPages(Serve(m, ops).0, ServePages(m, pages, ops).0)
    decreases |ops|
  {
    hide Sound, Mapped, HoldsPages, Perform, Admissible, PageReply, RecordPage;
    if ops != [] {
      PagedStep(m, ops[0], pages);
      PerformMapped(m, ops[0]);
      PagedRun(Perform(m, ops[0]).0, ops[1..], RecordPage(m, pages, ops[0]));
    }
  }

  /** The memory manager as constructed: words of RAM and disk hold the error word. */
  function Initial(ramBytes: nat, diskWords: nat): Mmu {
    var frames := ramBytes / PAGE_SIZE;
    var ramWords := if ramBytes > 1024 then 1024 else ramBytes;
    var disk := if diskWords > 8192 then 8192 else diskWords;
    Mmu(seq(ramWords, i => ACCESS_ERROR), seq(disk, i => ACCESS_ERROR), ramBytes, frames,
        seq(frames, i => false), seq(frames, i => None), map[], map[], 0, 0, EMPTY, [])
  }

  /** The constructed memory is sound exactly when it has a frame and all its frames lie in RAM. */
  lemma InitialIsSound(ramBytes: nat, diskWords: nat)
    ensures var m := Initial(ramBytes, diskWords);
            (Sound(m) <==> 32 <= ramBytes < 4128) && (Sound(m) ==> Mapped(m) && Represents(m, map[]))
  {
  }

  // ---------------------------------------------------------------------------------------------------------------
  // What a reload under cached lines does
  // ---------------------------------------------------------------------------------------------------------------

  lemma ReloadEffect(m: Mmu, k: Key)
    requires Inv(m) && Reloads(m, k)
    ensures var r := Translate(m, k, false);
            && Sized(r) && r.cache == m.cache && k in r.pages && r.pages[k] == m.victim < r.frames && r.used[m.victim]
            && Content(r, k) == Content(m, k)
  {
    hide Blit, PageWords, Content;
    TablesStayInverse(m, k, false);
    AllocationEffect(m, k);
    AllocateIsFreeThenLoad(m, k);
    SwappedSurvives(m, k, false, k);
  }

  lemma ReadPhysicalReply(m: Mmu, a: Word)
    requires a < m.limit
    ensures ReadPhysical(m, a).1 == if Lookup(m.cache, a) != MISS then Lookup(m.cache, a) else ReadWord(m.ram, a / 4)
  {
  }

  /** The exact condition for reading a page that comes back from disk into a victim's frame, room or not: the reply
      is the page's word unless a line cached for the old page at that place holds another word. */
  lemma ReloadedReadExactly(m: Mmu, k: Key, o: Offset)
    requires Inv(m) && Mapped(m) && Reloads(m, k)
    ensures var a := m.victim * PAGE_SIZE + o;
            Read(m, k, o).1 == Content(m, k)[o / 4]
            <==> Lookup(m.cache, a) == MISS || Lookup(m.cache, a) == Content(m, k)[o / 4]
  {
    hide Translate, Content, FramesOk, SwapOk, ReadPhysical, Reloads;
    var r := Translate(m, k, false);
    TranslateMapped(m, k, false);
    ReloadEffect(m, k);
    FrameAddress(r, k, o);
    ReadPhysicalReply(r, Physical(r, k, o));
  }
}
