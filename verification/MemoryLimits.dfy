/** Runs from the constructed memory in which it is not flat: one for each way the code falls short. */
module MemoryLimits {
  import opened Words
  import opened CacheSpec
  import opened Paging
  import opened PagingProofs
  import opened FlatMemory

  const A: Key := Key(1, 0)
  const B: Key := Key(2, 0)

  // ---------------------------------------------------------------------------------------------------------------
  // One frame, two pages
  // ---------------------------------------------------------------------------------------------------------------

  lemma WriteOnMiss(m: Mmu, a: Word, w: Word)
    requires a < m.limit && a / 4 < |m.ram| && a !in m.cache.lines && |m.cache.lines| < CAPACITY
    ensures WritePhysical(m, a, w)
            == m.(ram := m.ram[a / 4 := w],
                  cache := Cache(m.cache.lines[a := Line(w, false)], m.cache.fifo + [a],
                                 m.cache.hits, m.cache.misses + 1))
  {
  }

  lemma WriteOnHit(m: Mmu, a: Word, w: Word)
    requires a < m.limit && a / 4 < |m.ram| && a in m.cache.lines && m.cache.lines[a].data != MISS
    ensures WritePhysical(m, a, w)
            == m.(ram := m.ram[a / 4 := w],
                  cache := Cache(m.cache.lines[a := Line(w, true)], m.cache.fifo, m.cache.hits + 1, m.cache.misses))
  {
  }

  /** A memory of one frame after A's first word was set to 1. */
  function OnePage(disk: nat): Mmu {
    var m := Initial(32, disk);
    m.(used := [true], owner := [Some(A)], pages := map[A := 0], loads := [A], ram := m.ram[0 := 1],
       cache := Cache(map[0 := Line(1, false)], [0], 0, 1))
  }

  lemma FirstWrite(disk: nat)
    ensures Mapped(Initial(32, disk)) && Mapped(OnePage(disk))
    ensures Perform(Initial(32, disk), Wr(A, 0, 1)) == (OnePage(disk), 0)
  {
    var m := Initial(32, disk);
    assert m.used == [false] && m.owner == [None];
    assert FirstFree(m.used) == 0;
    var m1 := Translate(m, A, true);
    assert m1 == m.(used := [true], owner := [Some(A)], pages := map[A := 0], loads := [A]);
    hide Translate, WritePhysical;
    WriteOnMiss(m1, 0, 1);
    assert Cache(map[][0 := Line(1, false)], [] + [0], 0, 1) == OnePage(disk).cache;
    assert WritePhysical(m1, 0, 1) == OnePage(disk);
  }

  /** The same memory after B's first word was set to 2: A is on the disk, as far as it fits, and the line of its word
      now holds B's. */
  function TwoPages(disk: nat): Mmu {
    var m := OnePage(disk);
    m.(disk := Blit(m.disk, 0, PageWords(m.ram, 0)), nextSwap := 8, swap := map[A := 0],
       owner := [Some(B)], pages := map[B := 0], loads := [A, B], ram := m.ram[0 := 2],
       cache := Cache(map[0 := Line(2, true)], [0], 1, 1))
  }

  lemma SecondWrite(disk: nat)
    ensures Mapped(OnePage(disk)) && Mapped(TwoPages(disk))
    ensures Perform(OnePage(disk), Wr(B, 0, 2)) == (TwoPages(disk), 0)
  {
    hide Blit, PageWords;
    var m := OnePage(disk);
    assert FirstFree(m.used) == 1;
    var m1 := Translate(m, B, true);
    assert map[A := 0] - {A} == map[];
    assert m1 == m.(disk := m1.disk, nextSwap := 8, swap := map[A := 0], owner := [Some(B)], pages := map[B := 0],
                    loads := [A, B]);
    assert m1.disk == Blit(m.disk, 0, PageWords(m.ram, 0));
    hide Translate, WritePhysical;
    WriteOnHit(m1, 0, 2);
    assert Cache(m1.cache.lines[0 := Line(2, true)], [0], 1, 1) == TwoPages(disk).cache;
    assert WritePhysical(m1, 0, 2) == TwoPages(disk);
  }

  /** A full disk: with no room to save it, A's word is lost. */
  lemma FullDiskLosesPage()
    ensures var m := TwoPages(0);
            && Mapped(Initial(32, 0)) && Serve(Initial(32, 0), [Wr(A, 0, 1), Wr(B, 0, 2)]) == (m, [0, 0])
            && IsMapped(m, A) && Content(m, A)[0] == ACCESS_ERROR
  {
    TwoWrites(0);
    var m := TwoPages(0);
    assert Content(m, A)[0] == ReadWord(m.disk, 0);
  }

  lemma TwoWrites(disk: nat)
    ensures Mapped(Initial(32, disk)) && Mapped(OnePage(disk)) && Mapped(TwoPages(disk))
    ensures Serve(Initial(32, disk), [Wr(A, 0, 1), Wr(B, 0, 2)]) == (TwoPages(disk), [0, 0])
  {
    hide Perform, Initial, OnePage, TwoPages, Mapped;
    FirstWrite(disk);
    SecondWrite(disk);
    ServeTwo(Initial(32, disk), OnePage(disk), TwoPages(disk), Wr(A, 0, 1), Wr(B, 0, 2));
  }

  lemma ServeFirst(m: Mmu, ops: seq<Op>)
    requires Mapped(m) && ops != []
    ensures Mapped(Perform(m, ops[0]).0)
    ensures var rest := Serve(Perform(m, ops[0]).0, ops[1..]);
            Serve(m, ops) == (rest.0, [Perform(m, ops[0]).1] + rest.1)
  {
    hide Perform, Mapped;
    PerformMapped(m, ops[0]);
  }

  lemma ServeTwo(m: Mmu, m1: Mmu, m2: Mmu, x: Op, y: Op)
    requires Mapped(m) && Mapped(m1) && Perform(m, x) == (m1, 0) && Perform(m1, y) == (m2, 0)
    ensures Serve(m, [x, y]) == (m2, [0, 0])
  {
    hide Perform, Mapped;
    PerformMapped(m1, y);
    ServeFirst(m1, [y]);
    ServeFirst(m, [x, y]);
    assert [x, y][0] == x && [x, y][1..] == [y] && [y][1..] == [];
    assert Serve(m2, []) == (m2, []);
    var r1, r := Serve(m1, [y]), Serve(m, [x, y]);
    assert r1.0 == m2 && r1.1 == [0];
    assert r.0 == m2;
    assert r.1 == [0, 0];
  }

  lemma ReadOnHit(m: Mmu, a: Word)
    requires a in m.cache.lines && m.cache.lines[a].data != MISS
    ensures ReadPhysical(m, a).1 == m.cache.lines[a].data
  {
  }

  /** A stale line: A comes back from the disk into the frame of B, and reading its word returns B's. */
  lemma StaleLineRead()
    ensures var m := TwoPages(64);
            && Mapped(Initial(32, 64)) && Mapped(m)
            && Serve(Initial(32, 64), [Wr(A, 0, 1), Wr(B, 0, 2)]) == (m, [0, 0])
            && Content(m, A)[0] == 1 && Perform(m, Rd(A, 0)).1 == 2
  {
    TwoWrites(64);
    SavedWord();
    ReloadReply(TwoPages(64));
  }

  lemma SavedWord()
    ensures Content(TwoPages(64), A)[0] == 1
  {
    var m := OnePage(64);
    var words := PageWords(m.ram, 0);
    assert words[0] == m.ram[0] == 1;
    hide PageWords;
    BlitThere(m.disk, 0, words);
  }

  lemma ReloadReply(m: Mmu)
    requires m == TwoPages(64)
    ensures Mapped(m) && Perform(m, Rd(A, 0)).1 == 2
  {
    hide Blit, PageWords;
    assert FirstFree(m.used) == 1;
    var m1 := Translate(m, A, false);
    assert A in m1.pages && m1.pages[A] == 0 && m1.cache == m.cache;
    hide Translate, ReadPhysical;
    ReadOnHit(m1, 0);
  }

  // ---------------------------------------------------------------------------------------------------------------
  // A lost write
  // ---------------------------------------------------------------------------------------------------------------

  /** The `i`-th word of A's first two pages. */
  function WordOp(i: nat, w: Word): Op
    requires i < 16
  {
    Wr(Key(1, i / 8), i % 8 * 4, w)
  }

  /** Setting the first `n` words of two pages to 7. */
  function FillOps(n: nat): seq<Op>
    requires n <= 16
  {
    if n == 0 then [] else FillOps(n - 1) + [WordOp(n - 1, 7)]
  }

  function FilledRam(n: nat): (ram: seq<Word>)
    requires n <= 16
    ensures |ram| == 64
  {
    if n == 0 then seq(64, i => ACCESS_ERROR) else FilledRam(n - 1)[n - 1 := 7]
  }

  function FilledLines(n: nat): (lines: map<Word, Line>)
    requires n <= 16
    ensures |lines| == n
    ensures forall a: Word :: a in lines <==> a % 4 == 0 && a < 4 * n
    ensures forall a | a in lines :: lines[a] == Line(7, false)
  {
    if n == 0 then
      var none: map<Word, Line> := map[];
      assert |none| == 0;
      none
    else
      var lines := FilledLines(n - 1);
      var lines' := lines[4 * (n - 1) := Line(7, false)];
      assert lines'.Keys == lines.Keys + {4 * (n - 1)};
      lines'
  }

  function FilledFifo(n: nat): (fifo: seq<Word>)
    requires n <= 16
    ensures |fifo| == n && (n > 0 ==> fifo[0] == 0)
  {
    if n == 0 then [] else FilledFifo(n - 1) + [4 * (n - 1)]
  }

  /** The memory of two frames after these writes. */
  function Filled(n: nat): Mmu
    requires n <= 16
  {
    var keys := if n == 0 then [] else if n <= 8 then [Key(1, 0)] else [Key(1, 0), Key(1, 1)];
    Initial(64, 0).(
      used := [n > 0, n > 8],
      owner := [if n > 0 then Some(Key(1, 0)) else None, if n > 8 then Some(Key(1, 1)) else None],
      pages := if n == 0 then map[] else if n <= 8 then map[Key(1, 0) := 0] else map[Key(1, 0) := 0, Key(1, 1) := 1],
      loads := keys, ram := FilledRam(n), cache := Cache(FilledLines(n), FilledFifo(n), 0, n))
  }

  lemma FilledMapped(n: nat)
    requires n <= 16
    ensures Mapped(Filled(n))
  {
  }

  /** The page of the next word has a frame after translation. */
  lemma FilledTranslate(n: nat)
    requires n < 16
    ensures Sized(Filled(n))
    ensures var m1 := Translate(Filled(n), Key(1, n / 8), true);
            m1 == Filled(n).(used := Filled(n + 1).used, owner := Filled(n + 1).owner, pages := Filled(n + 1).pages,
                             loads := Filled(n + 1).loads)
  {
    hide FilledRam, FilledLines, FilledFifo;
    var m := Filled(n);
    if n == 0 {
      assert FirstFree(m.used) == 0;
    } else if n == 8 {
      assert m.used[1..] == [false] && FirstFree([false]) == 0;
      assert FirstFree(m.used) == 1;
    } else {
      assert Key(1, n / 8) in m.pages;
    }
  }

  lemma FillStep(n: nat)
    requires n < 16
    ensures Mapped(Filled(n)) && Perform(Filled(n), WordOp(n, 7)) == (Filled(n + 1), 0)
  {
    FilledMapped(n);
    FilledTranslate(n);
    var m, k, o := Filled(n), Key(1, n / 8), n % 8 * 4;
    var m1 := Translate(m, k, true);
    TranslateMapped(m, k, true);
    assert Physical(m1, k, o) == 4 * n;
    hide Translate, WritePhysical;
    WriteOnMiss(m1, 4 * n, 7);
    assert WritePhysical(m1, 4 * n, 7) == Filled(n + 1);
  }

  lemma {:induction false} ServeMore(m: Mmu, ops: seq<Op>, x: Op)
    requires Mapped(m) && Mapped(Serve(m, ops).0)
    ensures Serve(m, ops + [x]).0 == Perform(Serve(m, ops).0, x).0
    decreases |ops|
  {
    hide Perform, Mapped;
    if ops == [] {
      assert [x][1..] == [] && [] + [x] == [x];
      PerformMapped(m, x);
      assert Serve(Perform(m, x).0, []).0 == Perform(m, x).0;
    } else {
      PerformMapped(m, ops[0]);
      ServeMore(Perform(m, ops[0]).0, ops[1..], x);
      assert (ops + [x])[1..] == ops[1..] + [x] && (ops + [x])[0] == ops[0];
    }
  }

  lemma {:induction false} FillRun(n: nat)
    requires n <= 16
    ensures Mapped(Initial(64, 0)) && Serve(Initial(64, 0), FillOps(n)).0 == Filled(n)
  {
    FilledMapped(n);
    assert Initial(64, 0).used == [false, false] && Initial(64, 0).owner == [None, None];
    assert Filled(0) == Initial(64, 0);
    FilledMapped(0);
    hide Perform, Filled, Initial, Mapped, WordOp;
    if n > 0 {
      FillRun(n - 1);
      FillStep(n - 1);
      ServeMore(Initial(64, 0), FillOps(n - 1), WordOp(n - 1, 7));
    }
  }

  /** The full cache with 0xFFFFFFFF in the dirty line that is thrown out next. */
  function Poisoned(): Mmu {
    var m := Filled(16);
    m.(ram := m.ram[0 := MISS],
       cache := Cache(m.cache.lines[0 := Line(MISS, true)], m.cache.fifo, 1, 16))
  }

  lemma Poisoning()
    ensures Mapped(Filled(16)) && Mapped(Poisoned()) && Perform(Filled(16), WordOp(0, MISS)) == (Poisoned(), 0)
  {
    FilledMapped(16);
    var m := Filled(16);
    hide FilledRam, FilledFifo, WritePhysical;
    assert Translate(m, Key(1, 0), true) == m && Physical(m, Key(1, 0), 0) == 0;
    WriteOnHit(m, 0, MISS);
  }

  lemma OverwrittenOnMiss(m: Mmu, a: Word, w: Word)
    requires a < m.limit && a / 4 < |m.ram| && WriteBack(m.cache) == Some((a, MISS))
    ensures WritePhysical(m, a, w).ram == m.ram[a / 4 := MISS] && OnlyWords(m, WritePhysical(m, a, w))
  {
    AccessMovesNothing(m, a, w);
  }

  lemma PoisonedWrite()
    ensures Mapped(Poisoned())
    ensures var r := Perform(Poisoned(), WordOp(0, 5)).0; IsMapped(r, Key(1, 0)) && Content(r, Key(1, 0))[0] == MISS
  {
    hide FilledRam, WritePhysical, Initial;
    Poisoning();
    var m := Poisoned();
    assert Translate(m, Key(1, 0), true) == m && Physical(m, Key(1, 0), 0) == 0;
    OverwrittenOnMiss(m, 0, 5);
  }

  /** A lost write: after sixteen words, 0xFFFFFFFF and then 5 are written to the first one, and it holds 0xFFFFFFFF. */
  lemma WriteLost()
    ensures var ops := FillOps(16) + [WordOp(0, MISS)] + [WordOp(0, 5)];
            && Mapped(Initial(64, 0))
            && var m := Serve(Initial(64, 0), ops).0;
            IsMapped(m, Key(1, 0)) && Content(m, Key(1, 0))[0] == MISS
  {
    hide Perform, Serve, FillOps, Initial, Filled, Poisoned, WordOp, Mapped, Content, IsMapped;
    FillRun(16);
    Poisoning();
    PoisonedWrite();
    var m0 := Initial(64, 0);
    ServeMore(m0, FillOps(16), WordOp(0, MISS));
    ServeMore(m0, FillOps(16) + [WordOp(0, MISS)], WordOp(0, 5));
  }
}
