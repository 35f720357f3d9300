/** Paging is invisible: whatever is moved between RAM and disk, every mapped page keeps its words. */
module PagingProofs {
  import opened Words
  import opened Paging

  predicate IsMapped(m: Mmu, k: Key) {
    k in m.pages || k in m.swap
  }

  /** The eight words of a mapped page, wherever it is. */
  function Content(m: Mmu, k: Key): (words: seq<Word>)
    requires IsMapped(m, k)
    ensures |words| == PAGE_WORDS
  {
    if k in m.pages then PageWords(m.ram, m.pages[k] * PAGE_WORDS) else PageWords(m.disk, m.swap[k])
  }

  /** RAM below the limit and the disk above it are one store: a word written to an existing place is read back there,
      and no other aligned address changes. */
  lemma {:induction false} StoresSideBySide(m: Mmu, a: Word, w: Word, b: Word)
    requires a % 4 == 0 && b % 4 == 0
    ensures var r := WriteToFile(m, a, w);
            && (a < (if a < m.limit then 4 * |m.ram| else m.limit + 4 * |m.disk|) ==> Backing(r, a) == w)
            && (a != b ==> Backing(r, b) == Backing(m, b))
  {
    var i, j := a - m.limit, b - m.limit;
    assert i / 4 == j / 4 ==> (i - j) % 4 == 0;
  }

  /** Frame table and page tables are inverse to each other. */
  ghost predicate FramesOk(m: Mmu) {
    && |m.used| == |m.owner| == m.frames
    && (forall f | 0 <= f < m.frames :: m.used[f] <==> m.owner[f].Some?)
    && (forall f | 0 <= f < m.frames && m.owner[f].Some? ::
          m.owner[f].value in m.pages && m.pages[m.owner[f].value] == f)
    && (forall k | k in m.pages :: m.pages[k] < m.frames && m.owner[m.pages[k]] == Some(k))
  }

  /** Swapped pages have no frame and slots of their own below the swap pointer, on the disk or beyond its end. */
  ghost predicate SwapOk(m: Mmu) {
    && |m.disk| < 0x1000_0000
    && (forall k | k in m.swap :: k !in m.pages && m.swap[k] + PAGE_WORDS <= m.nextSwap)
    && (forall k, l | k in m.swap && l in m.swap && k != l ::
          m.swap[k] + PAGE_WORDS <= m.swap[l] || m.swap[l] + PAGE_WORDS <= m.swap[k])
  }

  ghost predicate Inv(m: Mmu) {
    Sized(m) && FramesOk(m) && SwapOk(m)
  }

  predicate Full(m: Mmu)
    requires Sized(m)
  {
    FirstFree(m.used) == m.frames
  }

  /** The next swap slot fits on the disk. */
  predicate Room(m: Mmu) {
    m.nextSwap + PAGE_WORDS <= |m.disk|
  }

  /** The swap pointer, a 32-bit word, does not wrap around to slots given away before. */
  predicate NoWrap(m: Mmu) {
    m.nextSwap + PAGE_WORDS < 0x1_0000_0000
  }

  /** The words of the victim that do not fit on the disk are the word that reads beyond its end return. */
  predicate Saves(m: Mmu)
    requires Sized(m)
  {
    forall i | 0 <= i < PAGE_WORDS ::
      m.nextSwap + i < |m.disk| || PageWords(m.ram, m.victim * PAGE_WORDS)[i] == ACCESS_ERROR
  }

  lemma RoomSaves(m: Mmu)
    requires Inv(m) && Room(m)
    ensures Saves(m) && NoWrap(m)
  {
  }

  /** Everything mapped in `m` is mapped in `r` with the same words. */
  ghost predicate KeepsContents(m: Mmu, r: Mmu) {
    forall k | IsMapped(m, k) :: IsMapped(r, k) && Content(r, k) == Content(m, k)
  }

  // ---------------------------------------------------------------------------------------------------------------
  // Word stores
  // ---------------------------------------------------------------------------------------------------------------

  lemma BlitElsewhere(store: seq<Word>, base: int, words: seq<Word>, b: int)
    requires b + PAGE_WORDS <= base || base + |words| <= b
    ensures PageWords(Blit(store, base, words), b) == PageWords(store, b)
  {
  }

  lemma BlitThere(store: seq<Word>, base: int, words: seq<Word>)
    requires 0 <= base && base + PAGE_WORDS <= |store| && |words| == PAGE_WORDS
    ensures PageWords(Blit(store, base, words), base) == words
  {
  }

  /** Words written at `base` are read back exactly when those beyond the end are the error word. */
  lemma CutOff(store: seq<Word>, base: nat, words: seq<Word>)
    requires |words| == PAGE_WORDS
    ensures PageWords(Blit(store, base, words), base) == words
            <==> forall i | 0 <= i < PAGE_WORDS :: base + i < |store| || words[i] == ACCESS_ERROR
  {
    var r := PageWords(Blit(store, base, words), base);
    assert forall i | 0 <= i < PAGE_WORDS :: r[i] == if base + i < |store| then words[i] else ACCESS_ERROR;
  }

  // ---------------------------------------------------------------------------------------------------------------
  // Making a frame free
  // ---------------------------------------------------------------------------------------------------------------

  /** `m` with a free frame: the victim's page is saved when no frame is free. */
  function Freed(m: Mmu): Mmu
    requires Sized(m)
  {
    if Full(m) then
      var r := SwapOut(m);
      r.(used := r.used[m.victim := false], owner := r.owner[m.victim := None])
    else m
  }

  /** The frame and page tables do not depend on what the stores, the swap table and the cache hold. When no frame is
      free the victim's frame has an owner. */
  lemma FreedFrames(m: Mmu)
    requires Sized(m) && FramesOk(m)
    ensures Sized(Freed(m)) && FramesOk(Freed(m)) && Freed(m).frames == m.frames && !Freed(m).used[TargetFrame(m)]
    ensures Full(m) ==> m.owner[m.victim].Some?
  {
    hide Blit, PageWords;
    if Full(m) {
      assert m.used[m.victim];
    }
  }

  /** Saving the victim moves one page from its table to the swap table and leaves all others where they are. */
  lemma FreedKeeps(m: Mmu)
    requires Inv(m)
    ensures forall k :: IsMapped(m, k) <==> IsMapped(Freed(m), k)
    ensures forall k | k in m.swap :: k in Freed(m).swap && Freed(m).swap[k] == m.swap[k]
    ensures forall k | k !in m.pages :: k !in Freed(m).pages
  {
    hide Blit, PageWords;
    if Full(m) {
      FreedFrames(m);
    }
  }

  lemma FreedInv(m: Mmu)
    requires Inv(m) && (Full(m) ==> NoWrap(m))
    ensures Inv(Freed(m))
  {
    hide Blit, PageWords;
    FreedFrames(m);
  }

  /** Saving the victim keeps the words of every page if and only if the disk takes them. */
  lemma FreedContents(m: Mmu)
    requires Inv(m)
    ensures KeepsContents(m, Freed(m)) <==> (Full(m) ==> Saves(m))
  {
    FreedKeeps(m);
    if Full(m) {
      FreedFrames(m);
      var kv, r := m.owner[m.victim].value, Freed(m);
      var words := PageWords(m.ram, m.victim * PAGE_WORDS);
      CutOff(m.disk, m.nextSwap, words);
      hide PageWords, Blit;
      assert IsMapped(m, kv) && Content(m, kv) == words && Content(r, kv) == PageWords(r.disk, m.nextSwap);
      forall k | IsMapped(m, k) && k != kv
        ensures Content(r, k) == Content(m, k)
      {
        if k in m.swap {
          BlitElsewhere(m.disk, m.nextSwap, words, m.swap[k]);
        }
      }
    }
  }

  // ---------------------------------------------------------------------------------------------------------------
  // Giving a frame to a page
  // ---------------------------------------------------------------------------------------------------------------

  function Fill(m: Mmu, f: nat, k: Key): Mmu
    requires Sized(m) && f < m.frames
  {
    m.(used := m.used[f := true], owner := m.owner[f := Some(k)], pages := m.pages[k := f], loads := m.loads + [k])
  }

  lemma FillFrames(m: Mmu, f: nat, k: Key)
    requires Sized(m) && FramesOk(m) && f < m.frames && !m.used[f] && k !in m.pages
    ensures Sized(Fill(m, f, k)) && FramesOk(Fill(m, f, k))
  {
  }

  /** A new page takes a free frame: every other page keeps its words. */
  lemma FillNew(m: Mmu, f: nat, k: Key)
    requires Inv(m) && f < m.frames && !m.used[f] && !IsMapped(m, k)
    ensures Inv(Fill(m, f, k)) && KeepsContents(m, Fill(m, f, k))
    ensures forall l :: IsMapped(Fill(m, f, k), l) <==> IsMapped(m, l) || l == k
    ensures Fill(m, f, k).ram == m.ram && k in Fill(m, f, k).pages
  {
    hide PageWords;
    FillFrames(m, f, k);
  }

  /** A swapped page comes back into a free frame with its words; every other page keeps its own. */
  lemma FillSwapped(m: Mmu, f: nat, k: Key)
    requires Inv(m) && f < m.frames && !m.used[f] && k in m.swap
    ensures var r := Fill(SwapIn(m, f, k, m.swap[k]), f, k);
            && Inv(r) && KeepsContents(m, r) && k in r.pages
            && (forall l :: IsMapped(r, l) <==> IsMapped(m, l))
  {
    var m1 := SwapIn(m, f, k, m.swap[k]);
    var words := PageWords(m.disk, m.swap[k]);
    var r := Fill(m1, f, k);
    hide PageWords, Blit;
    FillFrames(m1, f, k);
    forall l | IsMapped(m, l)
      ensures Content(r, l) == Content(m, l)
    {
      if l == k {
        BlitThere(m.ram, f * PAGE_WORDS, words);
      } else if l in m.pages {
        BlitElsewhere(m.ram, f * PAGE_WORDS, words, m.pages[l] * PAGE_WORDS);
      }
    }
  }

  // ---------------------------------------------------------------------------------------------------------------
  // Address translation
  // ---------------------------------------------------------------------------------------------------------------

  /** The translation finds no free frame and must save a page first. */
  predicate Evicts(m: Mmu, k: Key, isWrite: bool)
    requires Sized(m)
  {
    k !in m.pages && (k in m.swap || isWrite) && Full(m)
  }

  /** Allocation is: free a frame if needed, then fill it. */
  lemma AllocateIsFreeThenFill(m: Mmu, k: Key)
    requires Sized(m) && FramesOk(m)
    ensures var f := TargetFrame(m);
            AllocateFrame(m, k).(pages := AllocateFrame(m, k).pages[k := f]) == Fill(Freed(m), f, k)
  {
    hide Blit, PageWords;
    if Full(m) {
      FreedFrames(m);
      var f := m.victim;
      assert m.used[f := false][f := true] == m.used;
      assert m.owner[f := None][f := Some(k)] == m.owner[f := Some(k)];
    }
  }

  /** Every translation keeps the frame and page tables inverse to each other, room on the disk or not. */
  lemma TablesStayInverse(m: Mmu, k: Key, isWrite: bool)
    requires Sized(m) && FramesOk(m)
    ensures Sized(Translate(m, k, isWrite)) && FramesOk(Translate(m, k, isWrite))
  {
    if k !in m.pages && (k in m.swap || isWrite) {
      hide Blit, PageWords;
      var f, r := TargetFrame(m), Translate(m, k, isWrite);
      FreedFrames(m);
      AllocateIsFreeThenFill(m, k);
      FillFrames(Freed(m), f, k);
      assert r == Fill(Freed(m), f, k).(ram := r.ram, swap := r.swap);
    }
  }

  /** Saving the victim does not disturb the slot a page is loaded from. */
  lemma AllocateIsFreeThenLoad(m: Mmu, k: Key)
    requires Inv(m) && k in m.swap
    ensures var f := TargetFrame(m);
            && k in Freed(m).swap && Freed(m).swap[k] == m.swap[k]
            && Translate(m, k, true) == Fill(SwapIn(Freed(m), f, k, m.swap[k]), f, k)
            && Translate(m, k, false) == Translate(m, k, true)
  {
    FreedKeeps(m);
    AllocateIsFreeThenFill(m, k);
  }

  /** What a translation does to the tables. */
  ghost predicate Tidy(m: Mmu, k: Key, isWrite: bool, r: Mmu) {
    && Inv(r)
    && (forall l :: IsMapped(r, l) <==> IsMapped(m, l) || (isWrite && l == k))
    && (k in r.pages <==> IsMapped(m, k) || isWrite)
  }

  /** What a translation promises. */
  ghost predicate Transparent(m: Mmu, k: Key, isWrite: bool, r: Mmu) {
    Tidy(m, k, isWrite, r) && KeepsContents(m, r)
  }

  lemma KeepsTransitively(m: Mmu, m1: Mmu, m2: Mmu)
    requires KeepsContents(m, m1) && KeepsContents(m1, m2)
    ensures KeepsContents(m, m2)
  {
  }

  lemma LoadIsTidy(m: Mmu, k: Key, isWrite: bool)
    requires Inv(m) && (Full(m) ==> NoWrap(m)) && k !in m.pages && k in m.swap
    ensures Tidy(m, k, isWrite, Translate(m, k, isWrite)) && KeepsContents(Freed(m), Translate(m, k, isWrite))
  {
    hide Blit, PageWords, Content, SwapIn, Fill, Freed, FramesOk, SwapOk, KeepsContents, AllocateFrame;
    var f := TargetFrame(m);
    FreedInv(m);
    FreedFrames(m);
    FreedKeeps(m);
    AllocateIsFreeThenLoad(m, k);
    FillSwapped(Freed(m), f, k);
  }

  lemma NewIsTidy(m: Mmu, k: Key)
    requires Inv(m) && (Full(m) ==> NoWrap(m)) && !IsMapped(m, k)
    ensures Tidy(m, k, true, Translate(m, k, true)) && KeepsContents(Freed(m), Translate(m, k, true))
  {
    hide Blit, PageWords, Content, Fill, Freed, FramesOk, SwapOk, KeepsContents, AllocateFrame;
    var f := TargetFrame(m);
    FreedInv(m);
    FreedFrames(m);
    FreedKeeps(m);
    AllocateIsFreeThenFill(m, k);
    FillNew(Freed(m), f, k);
  }

  /** Every translation, with room on the disk or not, keeps the tables in order and the slots disjoint, maps nothing
      but the page it is asked for, and leaves that page in RAM unless it reports an error. */
  lemma TranslationIsTidy(m: Mmu, k: Key, isWrite: bool)
    requires Inv(m) && (Evicts(m, k, isWrite) ==> NoWrap(m))
    ensures Tidy(m, k, isWrite, Translate(m, k, isWrite))
    ensures !Full(m) ==> KeepsContents(m, Translate(m, k, isWrite))
  {
    hide Blit, PageWords, Content, SwapIn, FramesOk, SwapOk, AllocateFrame;
    if k !in m.pages && k in m.swap {
      LoadIsTidy(m, k, isWrite);
    } else if k !in m.pages && isWrite {
      NewIsTidy(m, k);
    }
  }

  // ---------------------------------------------------------------------------------------------------------------
  // A full disk
  // ---------------------------------------------------------------------------------------------------------------

  /** Tables and stores after a translation that evicts, room on the disk or not. */
  lemma EvictionEffect(m: Mmu, k: Key, isWrite: bool)
    requires Inv(m) && Evicts(m, k, isWrite)
    ensures m.owner[m.victim].Some?
    ensures var r, kv := Translate(m, k, isWrite), m.owner[m.victim].value;
            && kv in m.pages && m.pages[kv] == m.victim
            && r.disk == Blit(m.disk, m.nextSwap, PageWords(m.ram, m.victim * PAGE_WORDS))
            && r.ram == (if k in m.swap then Blit(m.ram, m.victim * PAGE_WORDS, PageWords(r.disk, m.swap[k]))
                         else m.ram)
            && r.pages == (m.pages - {kv})[k := m.victim]
            && r.swap == (if k in m.swap then m.swap[kv := m.nextSwap] - {k} else m.swap[kv := m.nextSwap])
  {
    hide Blit, PageWords;
    FreedFrames(m);
  }

  lemma SwappedSurvives(m: Mmu, k: Key, isWrite: bool, l: Key)
    requires Inv(m) && Evicts(m, k, isWrite) && l in m.swap
    ensures var r := Translate(m, k, isWrite); IsMapped(r, l) && Content(r, l) == Content(m, l)
  {
    EvictionEffect(m, k, isWrite);
    var out := PageWords(m.ram, m.victim * PAGE_WORDS);
    var r := Translate(m, k, isWrite);
    hide Translate, Blit, PageWords, Evicts;
    BlitElsewhere(m.disk, m.nextSwap, out, m.swap[l]);
    if l == k {
      BlitThere(m.ram, m.victim * PAGE_WORDS, PageWords(r.disk, m.swap[k]));
    }
  }

  lemma ResidentSurvives(m: Mmu, k: Key, isWrite: bool, l: Key)
    requires Inv(m) && Evicts(m, k, isWrite) && l in m.pages && Some(l) != m.owner[m.victim]
    ensures var r := Translate(m, k, isWrite); IsMapped(r, l) && Content(r, l) == Content(m, l)
  {
    assert m.owner[m.pages[l]] == Some(l) && k !in m.pages;
    hide Translate, Blit, PageWords, Evicts, FramesOk, SwapOk;
    EvictionEffect(m, k, isWrite);
    var r := Translate(m, k, isWrite);
    assert l in r.pages && r.pages[l] == m.pages[l] != m.victim;
    if k in m.swap {
      BlitElsewhere(m.ram, m.victim * PAGE_WORDS, PageWords(r.disk, m.swap[k]), m.pages[l] * PAGE_WORDS);
    }
  }

  /** The exact condition for an eviction to lose nothing, room or not: the words of the victim that do not fit on the
      disk must be the word that reads beyond its end return. Every other page survives in any case. */
  lemma EvictionKeepsExactly(m: Mmu, k: Key, isWrite: bool)
    requires Inv(m) && Evicts(m, k, isWrite)
    ensures KeepsContents(m, Translate(m, k, isWrite)) <==> Saves(m)
  {
    EvictionEffect(m, k, isWrite);
    var r, kv := Translate(m, k, isWrite), m.owner[m.victim].value;
    CutOff(m.disk, m.nextSwap, PageWords(m.ram, m.victim * PAGE_WORDS));
    hide Translate, Blit, PageWords, FramesOk, SwapOk, Evicts;
    assert Content(m, kv) == PageWords(m.ram, m.victim * PAGE_WORDS);
    assert Content(r, kv) == PageWords(r.disk, m.nextSwap);
    hide Content;
    assert IsMapped(m, kv) && IsMapped(r, kv);
    forall l | IsMapped(m, l) && l != kv
      ensures IsMapped(r, l) && Content(r, l) == Content(m, l)
    {
      if l in m.swap {
        SwappedSurvives(m, k, isWrite, l);
      } else {
        ResidentSurvives(m, k, isWrite, l);
      }
    }
  }

  /** Paging transparency: a translation keeps tables and slots in order, and it keeps the words of every mapped page if
      and only if it evicts no page or the disk takes what the victim's page needs. */
  lemma Transparency(m: Mmu, k: Key, isWrite: bool)
    requires Inv(m) && (Evicts(m, k, isWrite) ==> NoWrap(m))
    ensures var r := Translate(m, k, isWrite);
            && Tidy(m, k, isWrite, r)
            && (KeepsContents(m, r) <==> (Evicts(m, k, isWrite) ==> Saves(m)))
  {
    TranslationIsTidy(m, k, isWrite);
    if Evicts(m, k, isWrite) {
      EvictionKeepsExactly(m, k, isWrite);
    } else if Full(m) {
      assert Translate(m, k, isWrite) == m;
    }
  }
}
