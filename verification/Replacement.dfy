/** Page replacement: frames are taken in rotation, so the victim is the page resident longest. */
module Replacement {
  import opened Words
  import opened Paging
  import opened PagingProofs
  import opened FlatMemory

  /** Place of the `t`-th load among `n` frames taken in rotation. */
  function Place(t: nat, n: nat): (p: nat)
    requires n >= 1
    ensures p < n
  {
    if t == 0 then 0 else if Place(t - 1, n) + 1 == n then 0 else Place(t - 1, n) + 1
  }

  lemma SmallMod(x: nat, n: nat)
    requires 1 <= n && x <= n
    ensures x % n == if x == n then 0 else x
  {
  }

  /** Place after `d` further loads, up to a whole rotation. */
  lemma {:induction false} PlaceLater(t: nat, d: nat, n: nat)
    requires 1 <= n && d <= n
    ensures Place(t + d, n) == if Place(t, n) + d < n then Place(t, n) + d else Place(t, n) + d - n
  {
    if d > 0 {
      PlaceLater(t, d - 1, n);
    }
  }

  lemma {:induction false} PlaceSmall(t: nat, n: nat)
    requires t < n
    ensures Place(t, n) == t
  {
    if t > 0 {
      PlaceSmall(t - 1, n);
    }
  }

  /** The load history and the frame table: frames are filled in order, then reused in rotation, and the pages of the
      last `frames` loads, all different, sit in their frames. */
  ghost predicate FifoOk(m: Mmu) {
    var n, t := m.frames, |m.loads|;
    && Sized(m)
    && (forall f | 0 <= f < n :: m.used[f] <==> f < t)
    && m.victim == (if t < n then 0 else Place(t, n))
    && (forall j | 0 <= j < t && t <= j + n :: m.owner[Place(j, n)] == Some(m.loads[j]))
    && (forall i, j | 0 <= i < j < t && j <= i + n :: m.loads[i] != m.loads[j])
  }

  /** Frame table, page tables and load history agree: nothing here depends on the disk, the cache or the words
      stored. */
  ghost predicate TablesOk(m: Mmu) {
    Sized(m) && FramesOk(m) && FifoOk(m)
  }

  /** The pages in RAM are exactly those of the last `frames` loads. */
  lemma ResidentPages(m: Mmu, k: Key)
    requires TablesOk(m)
    ensures k in m.pages <==> exists j :: 0 <= j < |m.loads| <= j + m.frames && m.loads[j] == k
  {
    var n, t := m.frames, |m.loads|;
    if k in m.pages {
      var f := m.pages[k];
      assert m.used[f];
      if t <= n {
        PlaceSmall(f, n);
        assert m.loads[f] == k;
      } else {
        var j := LoadOfFrame(t, n, f);
        assert m.loads[j] == k;
      }
    }
    if j :| 0 <= j < t <= j + n && m.loads[j] == k {
      assert m.owner[Place(j, n)] == Some(k);
    }
  }

  /** Among the last `n` loads, one is at each place. */
  lemma LoadOfFrame(t: nat, n: nat, f: nat) returns (j: nat)
    requires 1 <= n <= t && f < n
    ensures j < t <= j + n && Place(j, n) == f
  {
    var p := Place(t - n, n);
    var d := if f >= p then f - p else f + n - p;
    PlaceLater(t - n, d, n);
    j := t - n + d;
  }

  /** When no frame is free, the page to be saved is the one loaded longest ago among the resident ones. */
  lemma VictimIsOldest(m: Mmu)
    requires TablesOk(m) && Full(m)
    ensures |m.loads| >= m.frames && m.owner[m.victim] == Some(m.loads[|m.loads| - m.frames])
  {
    var n, t := m.frames, |m.loads|;
    assert m.used[n - 1];
    PlaceLater(t - n, n, n);
  }

  /** The frame of the next load, and the pointer after it. */
  lemma NextFrame(m: Mmu)
    requires TablesOk(m)
    ensures TargetFrame(m) == Place(|m.loads|, m.frames)
    ensures Full(m) <==> |m.loads| >= m.frames
  {
    var n, t := m.frames, |m.loads|;
    var f := FirstFree(m.used);
    if t < n {
      PlaceSmall(t, n);
      assert !m.used[t];
    } else {
      assert f == n;
    }
  }

  /** Tables, pointer and history after an allocating translation. */
  lemma AllocationTables(m: Mmu, k: Key, isWrite: bool)
    requires Sized(m) && FramesOk(m) && k !in m.pages && (k in m.swap || isWrite)
    ensures var r, f := Translate(m, k, isWrite), TargetFrame(m);
            && r.frames == m.frames && r.loads == m.loads + [k]
            && r.used == m.used[f := true] && r.owner == m.owner[f := Some(k)]
            && r.victim == (if Full(m) then (m.victim + 1) % m.frames else m.victim)
  {
    hide Blit, PageWords, FirstFree;
    FreedFrames(m);
  }

  lemma OwnersRotate(owner: seq<Option<Key>>, loads: seq<Key>, n: nat, k: Key)
    requires |owner| == n >= 1
    requires forall j | 0 <= j < |loads| && |loads| <= j + n :: owner[Place(j, n)] == Some(loads[j])
    ensures var owner', loads' := owner[Place(|loads|, n) := Some(k)], loads + [k];
            forall j | 0 <= j < |loads'| && |loads'| <= j + n :: owner'[Place(j, n)] == Some(loads'[j])
  {
    var t := |loads|;
    forall j | 0 <= j < t && t + 1 <= j + n
      ensures Place(j, n) != Place(t, n)
    {
      PlaceLater(j, t - j, n);
    }
  }

  lemma PointerRotates(t: nat, n: nat, v: nat)
    requires n >= 1 && v == if t < n then 0 else Place(t, n)
    ensures (if t >= n then (v + 1) % n else v) == if t + 1 < n then 0 else Place(t + 1, n)
  {
    SmallMod(v + 1, n);
    if t + 1 == n {
      PlaceLater(0, n, n);
    }
  }

  lemma UsedGrows(used: seq<bool>, used': seq<bool>, t: nat, n: nat)
    requires |used| == n >= 1 && used' == used[Place(t, n) := true]
    requires forall f | 0 <= f < n :: used[f] <==> f < t
    ensures forall f | 0 <= f < n :: used'[f] <==> f < t + 1
  {
    if t < n {
      PlaceSmall(t, n);
    }
  }

  lemma LoadsDiffer(loads: seq<Key>, n: nat, k: Key)
    requires forall i, j | 0 <= i < j < |loads| && j <= i + n :: loads[i] != loads[j]
    requires forall j | 0 <= j < |loads| <= j + n :: loads[j] != k
    ensures var loads' := loads + [k];
            forall i, j | 0 <= i < j < |loads'| && j <= i + n :: loads'[i] != loads'[j]
  {
  }

  /** One load more keeps the rotation. */
  lemma FifoNext(m: Mmu, r: Mmu, k: Key)
    requires FifoOk(m) && Sized(r) && r.frames == m.frames && r.loads == m.loads + [k]
    requires var f := Place(|m.loads|, m.frames);
             r.used == m.used[f := true] && r.owner == m.owner[f := Some(k)]
    requires r.victim == if |m.loads| >= m.frames then (m.victim + 1) % m.frames else m.victim
    requires forall j | 0 <= j < |m.loads| <= j + m.frames :: m.loads[j] != k
    ensures FifoOk(r)
  {
    hide Place;
    OwnersRotate(m.owner, m.loads, m.frames, k);
    PointerRotates(|m.loads|, m.frames, m.victim);
    UsedGrows(m.used, r.used, |m.loads|, m.frames);
    LoadsDiffer(m.loads, m.frames, k);
  }

  /** Every translation keeps the tables and the rotation. */
  lemma FifoStep(m: Mmu, k: Key, isWrite: bool)
    requires TablesOk(m)
    ensures TablesOk(Translate(m, k, isWrite))
  {
    TablesStayInverse(m, k, isWrite);
    if k !in m.pages && (k in m.swap || isWrite) {
      AllocationTables(m, k, isWrite);
      NextFrame(m);
      NotRecentlyLoaded(m, k);
      hide Translate, Place, Full, TargetFrame, FifoOk, FramesOk, SwapOk;
      FifoNext(m, Translate(m, k, isWrite), k);
    }
  }

  lemma NotRecentlyLoaded(m: Mmu, k: Key)
    requires TablesOk(m) && k !in m.pages
    ensures forall j | 0 <= j < |m.loads| <= j + m.frames :: m.loads[j] != k
  {
    ResidentPages(m, k);
  }

  /** How long a load keeps its page in RAM: through the next `frames - 1` loads, and no longer. */
  lemma ResidenceTime(m: Mmu, j: nat)
    requires TablesOk(m) && j < |m.loads|
    ensures |m.loads| <= j + m.frames ==> m.loads[j] in m.pages
    ensures |m.loads| == j + m.frames + 1 ==> m.loads[j] !in m.pages
  {
    ResidentPages(m, m.loads[j]);
  }

  /** The constructed memory is in order exactly when it has a frame and all its frames lie in RAM, which never has more
      than 1024 words. */
  lemma InitialRotation(ramBytes: nat, diskWords: nat)
    ensures TablesOk(Initial(ramBytes, diskWords)) <==> 32 <= ramBytes < 4128
  {
  }

  lemma OnlyWordsKeepTables(m: Mmu, r: Mmu)
    requires TablesOk(m) && OnlyWords(m, r)
    ensures TablesOk(r)
  {
    hide Place;
  }

  lemma PerformKeepsTables(m: Mmu, op: Op)
    requires Mapped(m) && TablesOk(m)
    ensures TablesOk(Perform(m, op).0)
  {
    hide Translate, TablesOk, ReadPhysical, WritePhysical;
    FifoStep(m, op.key, op.Wr?);
    TranslateMapped(m, op.key, op.Wr?);
    var m1 := Translate(m, op.key, op.Wr?);
    var a := Physical(m1, op.key, op.offset);
    AccessMovesNothing(m1, a, if op.Wr? then op.word else 0);
    hide OnlyWords;
    if a != ACCESS_ERROR {
      OnlyWordsKeepTables(m1, Perform(m, op).0);
    }
  }

  /** Over any run of reads and writes the tables stay inverse to each other and the frames are used in rotation: so the
      laws above, on the victim and on how long a page stays, hold at every moment of every run. */
  lemma {:induction false} RunKeepsTables(m: Mmu, ops: seq<Op>)
    requires Mapped(m) && TablesOk(m)
    ensures TablesOk(Serve(m, ops).0)
    decreases |ops|
  {
    hide TablesOk, Perform, Mapped;
    if ops != [] {
      PerformMapped(m, ops[0]);
      PerformKeepsTables(m, ops[0]);
      RunKeepsTables(Perform(m, ops[0]).0, ops[1..]);
    }
  }

  // ---------------------------------------------------------------------------------------------------------------
  // Slots over runs
  // ---------------------------------------------------------------------------------------------------------------

  lemma SlotsGrow(m: Mmu, k: Key, isWrite: bool)
    requires Inv(m) && NoWrap(m)
    ensures Translate(m, k, isWrite).nextSwap <= m.nextSwap + PAGE_WORDS
  {
    hide Blit, PageWords, Inv, FirstFree;
  }

  lemma OnlyWordsKeepInv(m: Mmu, r: Mmu)
    requires Inv(m) && OnlyWords(m, r)
    ensures Inv(r)
  {
  }

  lemma PerformKeepsInv(m: Mmu, op: Op)
    requires Mapped(m) && Inv(m) && NoWrap(m)
    ensures var r := Perform(m, op).0; Inv(r) && r.nextSwap <= m.nextSwap + PAGE_WORDS
  {
    hide Translate, Inv, ReadPhysical, WritePhysical, Content;
    TranslationIsTidy(m, op.key, op.Wr?);
    SlotsGrow(m, op.key, op.Wr?);
    TranslateMapped(m, op.key, op.Wr?);
    var m1 := Translate(m, op.key, op.Wr?);
    var a := Physical(m1, op.key, op.offset);
    AccessMovesNothing(m1, a, if op.Wr? then op.word else 0);
    if a != ACCESS_ERROR {
      OnlyWordsKeepInv(m1, Perform(m, op).0);
    }
  }

  /** Over any run of reads and writes, with room on the disk or not, every page is in a frame of its own or in a slot
      of its own and never in both, until the 32-bit swap pointer wraps around, which takes one eviction for every
      eight words of its range. */
  lemma {:induction false} RunKeepsSlots(m: Mmu, ops: seq<Op>)
    requires Mapped(m) && Inv(m) && m.nextSwap + PAGE_WORDS * |ops| < 0x1_0000_0000
    ensures var r := Serve(m, ops).0; Inv(r) && r.nextSwap <= m.nextSwap + PAGE_WORDS * |ops|
    decreases |ops|
  {
    hide Inv, Perform, Mapped;
    if ops != [] {
      PerformMapped(m, ops[0]);
      PerformKeepsInv(m, ops[0]);
      RunKeepsSlots(Perform(m, ops[0]).0, ops[1..]);
    }
  }

  /** In every run from the constructed memory. */
  lemma SlotsFromInitial(ramBytes: nat, diskWords: nat, ops: seq<Op>)
    requires 32 <= ramBytes < 4128 && |ops| < 0x2000_0000
    ensures Mapped(Initial(ramBytes, diskWords)) && Inv(Serve(Initial(ramBytes, diskWords), ops).0)
  {
    InitialIsSound(ramBytes, diskWords);
    RunKeepsSlots(Initial(ramBytes, diskWords), ops);
  }
}
