/** The L1 cache as a value: fully associative, FIFO replacement, write-back of dirty lines (src/memory/cache.cpp). */
module CacheSpec {
  import opened Words

  const CAPACITY: nat := 16

  /** Returned for a miss; also an ordinary data word. */
  const MISS: Word := 0xFFFF_FFFF

  datatype Line = Line(data: Word, dirty: bool)

  /** Cached lines by physical byte address, and the order in which addresses were inserted. */
  datatype Cache = Cache(lines: map<Word, Line>, fifo: seq<Word>, hits: nat, misses: nat)

  /** The word `get` returns. */
  function Lookup(c: Cache, a: Word): Word {
    if a in c.lines then c.lines[a].data else MISS
  }

  function Get(c: Cache, a: Word): Cache {
    if a in c.lines then c.(hits := c.hits + 1) else c.(misses := c.misses + 1)
  }

  /** The line an insertion throws out, if any. */
  function Victim(c: Cache): Option<Word> {
    if |c.lines| >= CAPACITY && c.fifo != [] then Some(c.fifo[0]) else None
  }

  /** A dirty victim, with the data to be written back. */
  function WriteBack(c: Cache): Option<(Word, Word)> {
    match Victim(c)
    case Some(v) => if v in c.lines && c.lines[v].dirty then Some((v, c.lines[v].data)) else None
    case None => None
  }

  function Evict(c: Cache): Cache {
    match Victim(c)
    case Some(v) => c.(lines := c.lines - {v}, fifo := c.fifo[1..])
    case None => c
  }

  function Put(c: Cache, a: Word, data: Word): Cache {
    var e := Evict(c);
    e.(lines := e.lines[a := Line(data, false)], fifo := e.fifo + [a])
  }

  function Update(c: Cache, a: Word, data: Word): Cache {
    if a in c.lines then c.(lines := c.lines[a := Line(data, true)]) else c
  }

  // ---------------------------------------------------------------------------------------------------------------
  // FIFO structure
  // ---------------------------------------------------------------------------------------------------------------

  ghost predicate Distinct(s: seq<Word>) {
    forall i, j | 0 <= i < j < |s| :: s[i] != s[j]
  }

  /** The queue lists the cached addresses once each. */
  ghost predicate FifoOrder(c: Cache) {
    && Distinct(c.fifo)
    && (forall a :: a in c.fifo <==> a in c.lines)
    && |c.fifo| == |c.lines| <= CAPACITY
  }

  lemma DropFirst(s: seq<Word>)
    requires Distinct(s) && s != []
    ensures Distinct(s[1..])
    ensures forall a :: a in s[1..] <==> a in s && a != s[0]
  {
    forall a | a in s && a != s[0]
      ensures a in s[1..]
    {
      var i :| 0 <= i < |s| && s[i] == a;
      assert s[1..][i - 1] == a;
    }
  }

  lemma OneLineLess(lines: map<Word, Line>, v: Word)
    requires v in lines
    ensures |lines - {v}| == |lines| - 1
  {
    var r := lines - {v};
    assert r.Keys == lines.Keys - {v};
    assert |r.Keys| == |lines.Keys| - 1;
  }

  lemma EvictKeepsOrder(c: Cache)
    requires FifoOrder(c)
    ensures var e := Evict(c);
            && FifoOrder(e) && |e.lines| < CAPACITY
            && e.fifo == (if |c.fifo| == CAPACITY then c.fifo[1..] else c.fifo)
            && e.lines.Keys <= c.lines.Keys
  {
    hide Distinct;
    if |c.fifo| == CAPACITY {
      var v := c.fifo[0];
      DropFirst(c.fifo);
      assert v in c.fifo;
      OneLineLess(c.lines, v);
      assert Evict(c) == c.(lines := c.lines - {v}, fifo := c.fifo[1..]);
    }
  }

  lemma AppendKeepsOrder(e: Cache, a: Word, data: Word)
    requires FifoOrder(e) && |e.lines| < CAPACITY && a !in e.lines
    ensures FifoOrder(e.(lines := e.lines[a := Line(data, false)], fifo := e.fifo + [a]))
  {
    var lines := e.lines[a := Line(data, false)];
    assert a !in e.fifo;
    assert lines.Keys == e.lines.Keys + {a};
    assert |lines.Keys| == |e.lines.Keys| + 1;
  }

  /** Inserting an address that is not cached keeps the structure: the queue moves on by one place. */
  lemma PutKeepsOrder(c: Cache, a: Word, data: Word)
    requires FifoOrder(c) && a !in c.lines
    ensures var r := Put(c, a, data);
            && FifoOrder(r)
            && r.fifo == (if |c.fifo| == CAPACITY then c.fifo[1..] else c.fifo) + [a]
  {
    hide FifoOrder;
    EvictKeepsOrder(c);
    AppendKeepsOrder(Evict(c), a, data);
  }

  /** A read or a write as the memory manager presents it to the cache. */
  datatype Access = Access(addr: Word, data: Word, isWrite: bool)

  /** Look up; on a miss insert, on a written hit update. */
  function Apply(c: Cache, x: Access): Cache {
    var g := Get(c, x.addr);
    if Lookup(c, x.addr) == MISS then Put(g, x.addr, x.data)
    else if x.isWrite then Update(g, x.addr, x.data)
    else g
  }

  function After(c: Cache, xs: seq<Access>): Cache {
    if xs == [] then c else Apply(After(c, xs[..|xs| - 1]), xs[|xs| - 1])
  }

  /** How many of the accesses insert a line. */
  function Insertions(c: Cache, xs: seq<Access>): nat {
    if xs == [] then 0
    else
      var n := |xs| - 1;
      Insertions(c, xs[..n]) + if Lookup(After(c, xs[..n]), xs[n].addr) == MISS then 1 else 0
  }

  /** How many of the accesses find their address in the cache. */
  function Found(c: Cache, xs: seq<Access>): (n: nat)
    ensures n <= |xs|
  {
    if xs == [] then 0
    else
      var n := |xs| - 1;
      Found(c, xs[..n]) + if xs[n].addr in After(c, xs[..n]).lines then 1 else 0
  }

  /** The cache counts a hit for an access that finds its address, even if the line holds the word that reads as a miss,
      and a miss for any other. */
  lemma {:induction false} CountsFound(c: Cache, xs: seq<Access>)
    ensures After(c, xs).hits == c.hits + Found(c, xs) && After(c, xs).misses == c.misses + |xs| - Found(c, xs)
  {
    hide Lookup, WriteBack;
    if xs != [] {
      CountsFound(c, xs[..|xs| - 1]);
    }
  }

  /** No line holds the word that reads as a miss. */
  ghost predicate NoMissWord(c: Cache) {
    forall a | a in c.lines :: c.lines[a].data != MISS
  }

  lemma ApplyKeepsOrder(c: Cache, x: Access)
    requires FifoOrder(c) && NoMissWord(c) && x.data != MISS
    ensures var r := Apply(c, x);
            && FifoOrder(r) && NoMissWord(r)
            && r.fifo == (if Lookup(c, x.addr) != MISS then c.fifo
                          else (if |c.fifo| == CAPACITY then c.fifo[1..] else c.fifo) + [x.addr])
            && (Lookup(c, x.addr) == MISS ==> x.addr !in c.fifo)
  {
    var g := Get(c, x.addr);
    if Lookup(c, x.addr) == MISS {
      PutKeepsOrder(g, x.addr, x.data);
    } else if x.isWrite {
      assert Update(g, x.addr, x.data).lines.Keys == c.lines.Keys;
    }
  }

  /** Where the line at place `p` of the queue of `c` is after `n` insertions: it stays while the cache fills up and
      through the next `p` insertions, and is thrown out by the one after. */
  ghost predicate AfterInsertions(c: Cache, r: Cache, n: nat, p: nat)
    requires p < |c.fifo|
  {
    var room := CAPACITY - |c.fifo|;
    && |r.fifo| == (if n <= room then |c.fifo| + n else CAPACITY)
    && (n <= room ==> r.fifo[p] == c.fifo[p] && c.fifo[p] in r.lines)
    && (room < n <= room + p ==> r.fifo[p - (n - room)] == c.fifo[p] && c.fifo[p] in r.lines)
    && (n == room + p + 1 ==> c.fifo[p] !in r.lines)
  }

  lemma InsertionMovesOn(c: Cache, d: Cache, r: Cache, a: Word, n: nat, p: nat)
    requires p < |c.fifo| <= CAPACITY && AfterInsertions(c, d, n, p) && FifoOrder(d) && FifoOrder(r)
    requires r.fifo == (if |d.fifo| == CAPACITY then d.fifo[1..] else d.fifo) + [a] && a !in d.fifo
    ensures AfterInsertions(c, r, n + 1, p)
  {
    if |d.fifo| == CAPACITY {
      ShiftedOut(d, r, a);
    }
    hide Distinct;
    if n + 1 <= CAPACITY - |c.fifo| + p {
      assert c.fifo[p] in r.fifo;
    }
  }

  /** FIFO replacement over any run of accesses, however often a line is hit in between. */
  lemma {:induction false} EvictionTime(c: Cache, xs: seq<Access>, p: nat)
    requires FifoOrder(c) && NoMissWord(c) && p < |c.fifo|
    requires forall x | x in xs :: x.data != MISS
    ensures var r := After(c, xs);
            FifoOrder(r) && NoMissWord(r) && AfterInsertions(c, r, Insertions(c, xs), p)
  {
    hide Apply, NoMissWord, Distinct, AfterInsertions;
    if xs != [] {
      var ys, x := xs[..|xs| - 1], xs[|xs| - 1];
      EvictionTime(c, ys, p);
      var d := After(c, ys);
      ApplyKeepsOrder(d, x);
      hide FifoOrder;
      if Lookup(d, x.addr) == MISS {
        InsertionMovesOn(c, d, Apply(d, x), x.addr, Insertions(c, ys), p) by { assert FifoOrder(c); }
      } else {
        SameQueue(c, d, Apply(d, x), Insertions(c, ys), p);
      }
    } else {
      NoInsertion(c, p);
    }
  }

  lemma NoInsertion(c: Cache, p: nat)
    requires FifoOrder(c) && p < |c.fifo|
    ensures AfterInsertions(c, c, 0, p)
  {
    assert c.fifo[p] in c.fifo;
  }

  lemma SameQueue(c: Cache, d: Cache, r: Cache, n: nat, p: nat)
    requires p < |c.fifo| && AfterInsertions(c, d, n, p) && FifoOrder(d) && FifoOrder(r) && r.fifo == d.fifo
    ensures AfterInsertions(c, r, n, p)
  {
    hide Distinct;
    assert forall a :: a in r.lines <==> a in d.lines;
  }

  /** A line is thrown out exactly at the 16th insertion after its own. */
  lemma SixteenthInsertion(c: Cache, x: Access, xs: seq<Access>)
    requires FifoOrder(c) && NoMissWord(c) && Lookup(c, x.addr) == MISS && x.data != MISS
    requires forall y | y in xs :: y.data != MISS
    ensures var d := Apply(c, x);
            var r, n := After(d, xs), Insertions(d, xs);
            (n <= 15 ==> x.addr in r.lines) && (n == 16 ==> x.addr !in r.lines)
  {
    hide Apply, NoMissWord, Distinct, Lookup;
    ApplyKeepsOrder(c, x);
    var d := Apply(c, x);
    EvictionTime(d, xs, |d.fifo| - 1);
  }

  const EMPTY: Cache := Cache(map[], [], 0, 0)

  /** The structure holds in every run from the empty cache. */
  lemma {:induction false} OrderFromEmpty(xs: seq<Access>)
    requires forall x | x in xs :: x.data != MISS
    ensures FifoOrder(After(EMPTY, xs)) && NoMissWord(After(EMPTY, xs))
  {
    if xs != [] {
      OrderFromEmpty(xs[..|xs| - 1]);
      ApplyKeepsOrder(After(EMPTY, xs[..|xs| - 1]), xs[|xs| - 1]);
    }
  }

  lemma ShiftedOut(d: Cache, r: Cache, a: Word)
    requires FifoOrder(d) && FifoOrder(r) && d.fifo != [] && r.fifo == d.fifo[1..] + [a] && a !in d.fifo
    ensures d.fifo[0] !in r.lines
  {
    DropFirst(d.fifo);
  }
}
