/** Processes whose pages all fit into RAM: nothing is ever evicted, so the conditions of the flat memory can be checked
    before the run. */
module Footprint {
  import opened Words
  import opened CacheSpec
  import opened Paging
  import opened PagingProofs
  import opened Coherence
  import opened FlatMemory

  /** The access stays within `keys` and does not store 0xFFFFFFFF. */
  predicate Within(op: Op, keys: set<Key>) {
    op.key in keys && (op.Wr? ==> op.word != MISS)
  }

  /** No line that will be written back holds 0xFFFFFFFF. */
  ghost predicate NoDirtyMiss(c: Cache) {
    forall a | a in c.lines :: c.lines[a].dirty ==> c.lines[a].data != MISS
  }

  /** Only pages of `keys` are mapped, all of them in RAM, and there is a frame for every one. */
  ghost predicate Fits(m: Mmu, keys: set<Key>) {
    && Sized(m) && FramesOk(m) && m.swap == map[] && NoDirtyMiss(m.cache)
    && m.pages.Keys <= keys && |keys| <= m.frames
  }

  /** Different owners are at most as many as the keys they are taken from. */
  lemma {:induction false} DifferentOwners(owner: seq<Option<Key>>, keys: set<Key>)
    requires forall f | 0 <= f < |owner| :: owner[f].Some? && owner[f].value in keys
    requires forall f, g | 0 <= f < g < |owner| :: owner[f] != owner[g]
    ensures |owner| <= |keys|
  {
    if owner != [] {
      var n := |owner| - 1;
      DifferentOwners(owner[..n], keys - {owner[n].value});
    }
  }

  /** A page without a frame finds one free. */
  lemma FindsFreeFrame(m: Mmu, keys: set<Key>, k: Key)
    requires Fits(m, keys) && k in keys && k !in m.pages
    ensures !Full(m)
  {
    if Full(m) {
      DifferentOwners(m.owner, keys - {k});
    }
  }

  lemma AccessKeepsClean(m: Mmu, a: Word, w: Word)
    requires NoDirtyMiss(m.cache)
    ensures NoDirtyMiss(ReadPhysical(m, a).0.cache) && (w != MISS ==> NoDirtyMiss(WritePhysical(m, a, w).cache))
  {
    CacheAccesses(m, a, w);
    ApplyKeepsClean(m.cache, Access(a, Backing(m, a), false));
    ApplyKeepsClean(m.cache, Access(a, w, true));
  }

  lemma ApplyKeepsClean(c: Cache, x: Access)
    requires NoDirtyMiss(c)
    ensures (x.isWrite ==> x.data != MISS) ==> NoDirtyMiss(Apply(c, x))
  {
  }

  lemma TranslateFits(m: Mmu, keys: set<Key>, k: Key, isWrite: bool)
    requires Fits(m, keys) && k in keys
    ensures Fits(Translate(m, k, isWrite), keys)
    ensures !Evicts(m, k, isWrite) && !Reloads(m, k)
  {
    hide Blit, PageWords, FramesOk;
    TablesStayInverse(m, k, isWrite);
    if k !in m.pages && isWrite {
      FindsFreeFrame(m, keys, k);
    }
  }

  /** An access within the keys is admissible and leaves everything fitting. */
  lemma FitStep(m: Mmu, keys: set<Key>, op: Op)
    requires Mapped(m) && Fits(m, keys) && Within(op, keys)
    ensures Admissible(m, op) && Fits(Perform(m, op).0, keys)
  {
    hide Translate, ReadPhysical, WritePhysical, FramesOk, Saves, LinesMatchLoad;
    TranslateFits(m, keys, op.key, op.Wr?);
    TranslateMapped(m, op.key, op.Wr?);
    var m1, w := Translate(m, op.key, op.Wr?), if op.Wr? then op.word else 0;
    var a := Physical(m1, op.key, op.offset);
    AccessMovesNothing(m1, a, w);
    AccessKeepsClean(m1, a, w);
    if a != ACCESS_ERROR {
      WordsFit(m1, Perform(m, op).0, keys);
    }
  }

  lemma WordsFit(m: Mmu, r: Mmu, keys: set<Key>)
    requires Fits(m, keys) && OnlyWords(m, r) && NoDirtyMiss(r.cache)
    ensures Fits(r, keys)
  {
  }

  /** Every run within the keys is admissible. */
  lemma {:induction false} FitRun(m: Mmu, keys: set<Key>, ops: seq<Op>)
    requires Mapped(m) && Fits(m, keys) && forall op | op in ops :: Within(op, keys)
    ensures AdmissibleRun(m, ops)
    decreases |ops|
  {
    hide Mapped, Fits, Admissible, Perform, Within;
    if ops != [] {
      PerformMapped(m, ops[0]);
      FitStep(m, keys, ops[0]);
      FitRun(Perform(m, ops[0]).0, keys, ops[1..]);
    }
  }

  lemma InitialFits(ramBytes: nat, diskWords: nat, keys: set<Key>)
    requires 32 <= ramBytes < 4128 && |keys| <= ramBytes / PAGE_SIZE
    ensures Mapped(Initial(ramBytes, diskWords)) && Fits(Initial(ramBytes, diskWords), keys)
  {
  }

  // ---------------------------------------------------------------------------------------------------------------
  // Words that were never written
  // ---------------------------------------------------------------------------------------------------------------

  /** Outside the frames in use RAM holds the words it was constructed with. */
  ghost predicate Untouched(m: Mmu)
    requires Sized(m)
  {
    forall i | 0 <= i < |m.ram| && (i / 8 >= m.frames || !m.used[i / 8]) :: m.ram[i] == 0xFFFF_FFFF
  }

  const ERROR_WORDS: PageData := seq(PAGE_WORDS, i => 0xFFFF_FFFF)

  ghost predicate Touched(flat: Flat, k: Key) {
    exists i :: (k, i) in flat
  }

  /** The word of a touched page: the last one written there, or the word RAM was constructed with. */
  function WordOf(flat: Flat, k: Key, i: nat): Word {
    if (k, i) in flat then flat[(k, i)] else 0xFFFF_FFFF
  }

  ghost function ReplyOf(flat: Flat, op: Op): Word {
    if op.Rd? && Touched(flat, op.key) then WordOf(flat, op.key, op.offset / 4) else 0
  }

  ghost function RepliesOf(flat: Flat, ops: seq<Op>): seq<Word>
    decreases |ops|
  {
    if ops == [] then [] else [ReplyOf(flat, ops[0])] + RepliesOf(Record(flat, ops[0]), ops[1..])
  }

  /** Exactly the touched pages are mapped, with these words. */
  ghost predicate HoldsWords(m: Mmu, flat: Flat) {
    forall k :: HoldsPage(m, flat, k)
  }

  ghost predicate HoldsPage(m: Mmu, flat: Flat, k: Key) {
    && (IsMapped(m, k) <==> Touched(flat, k))
    && (IsMapped(m, k) ==> forall i: nat | i < PAGE_WORDS :: Content(m, k)[i] == WordOf(flat, k, i))
  }

  lemma UntouchedFrame(m: Mmu, keys: set<Key>, k: Key)
    requires Fits(m, keys) && Untouched(m) && k in keys && k !in m.pages
    ensures PageWords(m.ram, TargetFrame(m) * PAGE_WORDS) == ERROR_WORDS
  {
    hide FramesOk, NoDirtyMiss;
    FindsFreeFrame(m, keys, k);
    var f := TargetFrame(m);
    assert forall i | f * PAGE_WORDS <= i < (f + 1) * PAGE_WORDS :: m.ram[i] == 0xFFFF_FFFF;
  }

  lemma TranslateUntouched(m: Mmu, keys: set<Key>, k: Key, isWrite: bool)
    requires Fits(m, keys) && Sound(m) && Untouched(m) && k in keys
    ensures var r := Translate(m, k, isWrite); r.ram == m.ram && Sized(r) && Untouched(r)
  {
    hide FramesOk, NoDirtyMiss, Coherent, PageWords, Blit;
    if k !in m.pages && isWrite {
      AllocationEffect(m, k);
    }
  }

  /** A store into a frame in use. */
  lemma StoreUntouched(m: Mmu, r: Mmu, a: Word, w: Word)
    requires Sized(m) && Untouched(m) && CacheAddress(m, a) && a / 4 < |m.ram|
    requires r == m.(cache := r.cache, ram := r.ram) && (r.ram == m.ram || r.ram == m.ram[a / 4 := w])
    ensures Sized(r) && Untouched(r)
  {
    assert a / 4 / 8 == a / 32;
  }

  lemma ReadUntouched(m: Mmu, keys: set<Key>, k: Key, o: Offset)
    requires Mapped(m) && Fits(m, keys) && Sound(m) && Untouched(m) && k in keys && Undisturbed(m, k, false)
    ensures var r := Read(m, k, o).0; Sized(r) && Untouched(r)
  {
    var m1 := Translate(m, k, false);
    TranslateUntouched(m, keys, k, false);
    hide Translate, Coherent, Content, FramesOk, SwapOk, ReadPhysical, Fits, Undisturbed, Untouched;
    TranslateSound(m, k, false);
    TranslateMapped(m, k, false);
    if k in m1.pages {
      var a := Physical(m1, k, o);
      FrameAddress(m1, k, o);
      ReadPhysicalCoherent(m1, a);
      WordIndex(m1, a);
      StoreUntouched(m1, ReadPhysical(m1, a).0, a, 0);
    }
  }

  lemma WriteUntouched(m: Mmu, keys: set<Key>, k: Key, o: Offset, w: Word)
    requires Mapped(m) && Fits(m, keys) && Sound(m) && Untouched(m) && k in keys
    requires Undisturbed(m, k, true) && !LosesWrite(m, k, o, w)
    ensures var r := Write(m, k, o, w); Sized(r) && Untouched(r)
  {
    var m1 := Translate(m, k, true);
    TranslateUntouched(m, keys, k, true);
    WriteAddressIs(m, k, o);
    hide Translate, Coherent, Content, FramesOk, SwapOk, WritePhysical, Fits, Undisturbed, Untouched;
    TranslateSound(m, k, true);
    TranslateMapped(m, k, true);
    var a := Physical(m1, k, o);
    FrameAddress(m1, k, o);
    WritePhysicalCoherent(m1, a, w);
    StoreUntouched(m1, WritePhysical(m1, a, w), a, w);
  }

  lemma FitRead(m: Mmu, k: Key, o: Offset, flat: Flat)
    requires Mapped(m) && Sound(m) && Undisturbed(m, k, false) && HoldsWords(m, flat)
    ensures var (r, w) := Read(m, k, o);
            Sound(r) && Mapped(r) && HoldsWords(r, flat) && w == ReplyOf(flat, Rd(k, o))
  {
    hide Sound, Read, Content, Mapped, Undisturbed, IsMapped, Touched;
    ReadStep(m, k, o);
    assert HoldsPage(m, flat, k);
    forall l
      ensures HoldsPage(Read(m, k, o).0, flat, l)
    {
      assert HoldsPage(m, flat, l);
    }
  }

  lemma OneWordHeld(m: Mmu, r: Mmu, flat: Flat, k: Key, o: nat, w: Word)
    requires HoldsPage(m, flat, k) && IsMapped(r, k) && o < PAGE_WORDS
    requires Content(r, k) == (if IsMapped(m, k) then Content(m, k) else ERROR_WORDS)[o := w]
    ensures HoldsPage(r, flat[(k, o) := w], k)
  {
    hide Content, IsMapped;
    RecordTouches(flat, k, o, w);
    assert (k, o) in flat[(k, o) := w];
  }

  /** The page after a write to it. */
  lemma FitWrite(m: Mmu, keys: set<Key>, k: Key, o: Offset, w: Word, flat: Flat)
    requires Mapped(m) && Fits(m, keys) && Sound(m) && Untouched(m) && k in keys && HoldsPage(m, flat, k)
    requires Undisturbed(m, k, true) && !LosesWrite(m, k, o, w)
    ensures HoldsPage(Write(m, k, o, w), flat[(k, o / 4) := w], k)
  {
    if !IsMapped(m, k) {
      UntouchedFrame(m, keys, k);
      FreshPageHoldsOldWords(m, k, o, w);
    }
    hide Fits, Sound, Write, Content, Mapped, Undisturbed, LosesWrite, PageWords, TargetFrame, Untouched, HoldsPage;
    WriteStep(m, k, o, w);
    OneWordHeld(m, Write(m, k, o, w), flat, k, o / 4, w);
  }

  /** The other pages. */
  lemma FitOther(m: Mmu, k: Key, o: Offset, w: Word, flat: Flat, l: Key)
    requires Mapped(m) && Sound(m) && Undisturbed(m, k, true) && !LosesWrite(m, k, o, w)
    requires HoldsPage(m, flat, l) && l != k
    ensures HoldsPage(Write(m, k, o, w), flat[(k, o / 4) := w], l)
  {
    hide Sound, Write, Content, Mapped, Undisturbed, IsMapped, LosesWrite, Touched;
    RecordTouches(flat, k, o / 4, w);
    WriteStep(m, k, o, w);
  }

  lemma RecordTouches(flat: Flat, k: Key, i: nat, w: Word)
    ensures forall l :: Touched(flat[(k, i) := w], l) <==> l == k || Touched(flat, l)
    ensures !Touched(flat, k) ==> forall j :: (k, j) !in flat
  {
    var flat' := flat[(k, i) := w];
    assert (k, i) in flat';
    forall l | Touched(flat, l)
      ensures Touched(flat', l)
    {
      var j :| (l, j) in flat;
      assert (l, j) in flat';
    }
  }

  lemma FitReply(m: Mmu, keys: set<Key>, op: Op, flat: Flat)
    requires Mapped(m) && Fits(m, keys) && Sound(m) && Untouched(m) && Within(op, keys) && Admissible(m, op)
    requires HoldsWords(m, flat)
    ensures var (r, w) := Perform(m, op);
            && Sound(r) && Mapped(r) && Untouched(r) && HoldsWords(r, Record(flat, op)) && w == ReplyOf(flat, op)
  {
    hide Mapped, Fits, Sound, Untouched, HoldsPage, Undisturbed, LosesWrite, Read, Write;
    match op {
      case Rd(k, o) =>
        ReadUntouched(m, keys, k, o);
        FitRead(m, k, o, flat);
      case Wr(k, o, w) =>
        WriteUntouched(m, keys, k, o, w);
        FitWrite(m, keys, k, o, w, flat);
        var r, flat' := Write(m, k, o, w), Record(flat, op);
        assert Sound(r) && Mapped(r) by { WriteStep(m, k, o, w); }
        forall l
          ensures HoldsPage(r, flat', l)
        {
          if l != k {
            FitOther(m, k, o, w, flat, l);
          }
        }
    }
  }

  /** The exact replies of a run within the keys. */
  lemma {:induction false} FitReplies(m: Mmu, keys: set<Key>, ops: seq<Op>, flat: Flat)
    requires Mapped(m) && Fits(m, keys) && Sound(m) && Untouched(m) && HoldsWords(m, flat)
    requires forall op | op in ops :: Within(op, keys)
    ensures Serve(m, ops).1 == RepliesOf(flat, ops)
    decreases |ops|
  {
    hide Mapped, Fits, Sound, Untouched, HoldsWords, Admissible, Perform, Within, Record, ReplyOf;
    if ops != [] {
      FitStep(m, keys, ops[0]);
      FitReply(m, keys, ops[0], flat);
      FitReplies(Perform(m, ops[0]).0, keys, ops[1..], Record(flat, ops[0]));
    }
  }

  lemma InitialUntouched(ramBytes: nat, diskWords: nat)
    requires 32 <= ramBytes < 4128
    ensures var m := Initial(ramBytes, diskWords); Sized(m) && Untouched(m) && HoldsWords(m, map[])
  {
  }

  /** Memory is flat for processes that fit into it: in every run from the constructed memory that touches no more pages
      than there are frames and stores no 0xFFFFFFFF, reads return the word written last at that address, 0 on a page
      without any, and 0xFFFFFFFF at the other addresses. */
  lemma FlatWhenFitting(ramBytes: nat, diskWords: nat, keys: set<Key>, ops: seq<Op>)
    requires 32 <= ramBytes < 4128 && |keys| <= ramBytes / PAGE_SIZE
    requires forall op | op in ops :: Within(op, keys)
    ensures var m := Initial(ramBytes, diskWords);
            && Mapped(m) && FlatReplies(map[], ops, Serve(m, ops).1) && Sound(Serve(m, ops).0)
            && Serve(m, ops).1 == RepliesOf(map[], ops)
  {
    hide Within;
    var m := Initial(ramBytes, diskWords);
    InitialIsSound(ramBytes, diskWords);
    InitialFits(ramBytes, diskWords, keys);
    InitialUntouched(ramBytes, diskWords);
    hide Initial, Sound, Untouched, HoldsPage;
    FitRun(m, keys, ops);
    FlatRun(m, ops, map[]);
    FitReplies(m, keys, ops, map[]);
  }
}
