/** The memory manager and its cache, updated in place (src/memory/MemoryManager.cpp, src/memory/cache.cpp). */
module MemoryManager {
  import opened Words
  import opened CacheSpec
  import opened Paging
  import opened Accounting
  import opened FlatMemory
  import opened ProcessControl

  class L1Cache {
    var lines: map<Word, Line>
    var fifo: seq<Word>
    var hits: nat
    var misses: nat

    constructor ()
      ensures View() == Cache(map[], [], 0, 0)
    {
      lines, fifo, hits, misses := map[], [], 0, 0;
    }

    function View(): Cache
      reads this
    {
      Cache(lines, fifo, hits, misses)
    }

    method Get(a: Word) returns (data: Word)
      modifies this`hits, this`misses
      ensures data == Lookup(old(View()), a) && View() == CacheSpec.Get(old(View()), a)
    {
      if a in lines {
        hits := hits + 1;
        return lines[a].data;
      }
      misses := misses + 1;
      return MISS;
    }

    /** FIFO choice of the address to replace. */
    method AddressToReplace() returns (a: Option<Word>)
      modifies this`fifo
      ensures a == (if old(fifo) == [] then None else Some(old(fifo)[0]))
      ensures fifo == if old(fifo) == [] then [] else old(fifo)[1..]
    {
      if fifo == [] {
        return None;
      }
      a := Some(fifo[0]);
      fifo := fifo[1..];
    }

    /** Throws a line out when the cache is full, after writing it back if it is dirty. */
    method MakeRoom(memory: MemoryManager)
      requires memory.ram != memory.disk
      modifies this`lines, this`fifo, memory.ram, memory.disk
      ensures View() == Evict(old(View()))
      ensures (memory.ram[..], memory.disk[..])
              == match WriteBack(old(View()))
                 case Some(p) => memory.Stored(old(memory.ram[..]), old(memory.disk[..]), p.0, p.1)
                 case None => (old(memory.ram[..]), old(memory.disk[..]))
    {
      if |lines| >= CAPACITY {
        var victim := AddressToReplace();
        if victim.Some? {
          var v := victim.value;
          if v in lines && lines[v].dirty {
            memory.WriteToFile(v, lines[v].data);
          }
          lines := lines - {v};
        }
      }
    }

    method Put(a: Word, data: Word, memory: MemoryManager)
      requires memory.ram != memory.disk
      modifies this`lines, this`fifo, memory.ram, memory.disk
      ensures View() == CacheSpec.Put(old(View()), a, data)
      ensures (memory.ram[..], memory.disk[..])
              == match WriteBack(old(View()))
                 case Some(p) => memory.Stored(old(memory.ram[..]), old(memory.disk[..]), p.0, p.1)
                 case None => (old(memory.ram[..]), old(memory.disk[..]))
    {
      MakeRoom(memory);
      lines := lines[a := Line(data, false)];
      fifo := fifo + [a];
    }

    method Update(a: Word, data: Word)
      modifies this`lines
      ensures View() == CacheSpec.Update(old(View()), a, data)
    {
      if a !in lines {
        return;
      }
      lines := lines[a := Line(data, true)];
    }
  }

  class MemoryManager {
    const limit: nat
    const frames: nat
    const ram: array<Word>
    const disk: array<Word>
    const cache: L1Cache
    var used: seq<bool>
    var owner: seq<Option<Key>>
    var pages: map<Key, nat>
    var swap: map<Key, Word>
    var nextSwap: Word
    var victim: nat
    ghost var loads: seq<Key>

    ghost function View(): Mmu
      reads this, ram, disk, cache
    {
      Mmu(ram[..], disk[..], limit, frames, used, owner, pages, swap, nextSwap, victim, cache.View(), loads)
    }

    ghost predicate Valid()
      reads this, ram, disk, cache
    {
      ram != disk && Mapped(View())
    }

    /** RAM and disk after a write-back. */
    ghost function Stored(ramWords: seq<Word>, diskWords: seq<Word>, a: Word, w: Word): (seq<Word>, seq<Word>) {
      if a < limit then (WriteWord(ramWords, a / 4, w), diskWords)
      else (ramWords, WriteWord(diskWords, (a - limit) / 4, w))
    }

    method ReadMain(i: nat) returns (w: Word)
      ensures w == ReadWord(ram[..], i)
    {
      if i < ram.Length {
        return ram[i];
      }
      return ACCESS_ERROR;
    }

    method WriteMain(i: nat, w: Word)
      modifies ram
      ensures ram[..] == WriteWord(old(ram[..]), i, w)
    {
      if i < ram.Length {
        ram[i] := w;
      }
    }

    /** The disk is searched from its start for the address. */
    method ReadDisk(address: nat) returns (w: Word)
      ensures w == ReadWord(disk[..], address)
    {
      if address < disk.Length {
        var i := 0;
        while i < disk.Length
          invariant i <= address
        {
          if i == address {
            return disk[i];
          }
          i := i + 1;
        }
      }
      return ACCESS_ERROR;
    }

    method WriteDisk(address: nat, w: Word)
      modifies disk
      ensures disk[..] == WriteWord(old(disk[..]), address, w)
    {
      if address < disk.Length {
        var i := 0;
        while i < disk.Length
          invariant i <= address && disk[..] == old(disk[..])
        {
          if i == address {
            disk[i] := w;
            return;
          }
          i := i + 1;
        }
      }
    }

    method WriteToFile(a: Word, w: Word)
      requires ram != disk
      modifies ram, disk
      ensures (ram[..], disk[..]) == Stored(old(ram[..]), old(disk[..]), a, w)
    {
      if a < limit {
        WriteMain(a / 4, w);
      } else {
        WriteDisk((a - limit) / 4, w);
      }
    }

    /** An empty memory: every word of RAM and disk holds the error word. */
    constructor (ramBytes: nat, diskWords: nat)
      ensures View() == Initial(ramBytes, diskWords)
      ensures ram != disk && fresh(ram) && fresh(disk) && fresh(cache)
      ensures limit == ramBytes && frames == ramBytes / 32
      ensures ram.Length == (if ramBytes < 1024 then ramBytes else 1024)
      ensures disk.Length == (if diskWords < 8192 then diskWords else 8192)
      ensures (forall w | w in ram[..] :: w == 0xFFFF_FFFF) && forall w | w in disk[..] :: w == 0xFFFF_FFFF
    {
      limit := ramBytes;
      frames := ramBytes / PAGE_SIZE;
      ram := new Word[if ramBytes > 1024 then 1024 else ramBytes](i => ACCESS_ERROR);
      disk := new Word[if diskWords > 8192 then 8192 else diskWords](i => ACCESS_ERROR);
      cache := new L1Cache();
      used := seq(ramBytes / PAGE_SIZE, i => false);
      owner := seq(ramBytes / PAGE_SIZE, i => None);
      pages, swap, nextSwap, victim, loads := map[], map[], 0, 0, [];
    }

    /** Eight words from RAM to the disk. */
    method CopyOut(ramBase: nat, diskAddress: nat)
      requires ram != disk
      modifies disk
      ensures disk[..] == Blit(old(disk[..]), diskAddress, PageWords(ram[..], ramBase))
    {
      ghost var words := PageWords(ram[..], ramBase);
      BlitNothing(disk[..], diskAddress);
      for i := 0 to PAGE_WORDS
        invariant disk[..] == Blit(old(disk[..]), diskAddress, words[..i])
      {
        var data := ReadMain(ramBase + i);
        WriteDisk(diskAddress + i, data);
        BlitNext(old(disk[..]), diskAddress, words, i);
      }
      assert words[..PAGE_WORDS] == words;
    }

    /** Eight words from the disk to RAM. */
    method CopyIn(diskAddress: nat, ramBase: nat)
      requires ram != disk
      modifies ram
      ensures ram[..] == Blit(old(ram[..]), ramBase, PageWords(disk[..], diskAddress))
    {
      ghost var words := PageWords(disk[..], diskAddress);
      BlitNothing(ram[..], ramBase);
      for i := 0 to PAGE_WORDS
        invariant ram[..] == Blit(old(ram[..]), ramBase, words[..i])
      {
        var data := ReadDisk(diskAddress + i);
        WriteMain(ramBase + i, data);
        BlitNext(old(ram[..]), ramBase, words, i);
      }
      assert words[..PAGE_WORDS] == words;
    }

    method SwapOut() returns (index: nat)
      requires Valid()
      modifies this`victim, this`nextSwap, this`swap, this`pages, disk
      ensures index == old(victim) && View() == Paging.SwapOut(old(View()))
    {
      index := victim;
      victim := (victim + 1) % frames;
      if owner[index] == None {
        return;
      }
      var page := owner[index].value;
      var diskAddress := nextSwap;
      nextSwap := ToWord(nextSwap + PAGE_WORDS);
      CopyOut(index * PAGE_WORDS, diskAddress);
      swap, pages := swap[page := diskAddress], pages - {page};
    }

    method SwapIn(frame: nat, page: Key, diskAddress: Word)
      requires ram != disk
      modifies this`swap, ram
      ensures View() == Paging.SwapIn(old(View()), frame, page, diskAddress)
    {
      CopyIn(diskAddress, frame * PAGE_WORDS);
      swap := swap - {page};
    }

    /** The first free frame if there is one, else the victim's. */
    method AllocateFrame(page: Key) returns (frame: nat)
      requires Valid()
      modifies this`used, this`owner, this`victim, this`nextSwap, this`swap, this`pages, this`loads, disk
      ensures frame == TargetFrame(old(View())) && View() == Paging.AllocateFrame(old(View()), page)
    {
      var i := 0;
      while i < |used|
        invariant i <= |used| && forall j | 0 <= j < i :: used[j]
        invariant View() == old(View())
      {
        if !used[i] {
          used, owner, loads := used[i := true], owner[i := Some(page)], loads + [page];
          return i;
        }
        i := i + 1;
      }
      frame := SwapOut();
      owner, loads := owner[frame := Some(page)], loads + [page];
    }

    method Translate(address: Word, pid: int, isWrite: bool) returns (physical: Word)
      requires Valid()
      modifies this`used, this`owner, this`victim, this`nextSwap, this`swap, this`pages, this`loads, ram, disk
      ensures View() == Paging.Translate(old(View()), Key(pid, PageOf(address)), isWrite) && Valid()
      ensures physical == Physical(View(), Key(pid, PageOf(address)), OffsetOf(address))
    {
      var page, offset := Key(pid, PageOf(address)), OffsetOf(address);
      TranslateMapped(View(), page, isWrite);
      if page in pages {
        return pages[page] * PAGE_SIZE + offset;
      }
      if page in swap {
        var diskAddress := swap[page];
        var frame := AllocateFrame(page);
        SwapIn(frame, page, diskAddress);
        pages := pages[page := frame];
        return frame * PAGE_SIZE + offset;
      }
      if isWrite {
        var frame := AllocateFrame(page);
        pages := pages[page := frame];
        return frame * PAGE_SIZE + offset;
      }
      return ACCESS_ERROR;
    }

    /** Reads through the cache, charging the process. */
    method ReadPhysical(physical: Word, process: Process) returns (data: Word)
      requires Valid()
      modifies ram, disk, cache, process`counters
      ensures View() == Paging.ReadPhysical(old(View()), physical).0
      ensures data == Paging.ReadPhysical(old(View()), physical).1
      ensures process.counters == ChargeRead(old(process.counters), process.weights, ServedAt(old(View()), physical))
    {
      data := cache.Get(physical);
      if data != MISS {
        process.counters := ChargeRead(process.counters, process.weights, Served(true, physical < limit));
        return;
      }
      if physical < limit {
        data := ReadMain(physical / 4);
      } else {
        data := ReadDisk((physical - limit) / 4);
      }
      process.counters := ChargeRead(process.counters, process.weights, Served(false, physical < limit));
      cache.Put(physical, data, this);
    }

    method Read(address: Word, process: Process) returns (data: Word)
      requires Valid()
      modifies this, ram, disk, cache, process`counters
      ensures (View(), data) == Paging.Read(old(View()), Key(process.job.pid, PageOf(address)), OffsetOf(address))
      ensures var page := Key(process.job.pid, PageOf(address));
              process.counters == CountRead(old(process.counters), process.weights,
                                            ServiceOf(old(View()), page, OffsetOf(address), false))
      ensures Valid()
    {
      process.counters := Begin(process.counters, false);
      var physical := Translate(address, process.job.pid, false);
      if physical == ACCESS_ERROR {
        process.counters := ChargeRead(process.counters, process.weights, Unmapped);
        return 0;
      }
      data := ReadPhysical(physical, process);
    }

    /** Brings the cache up to date with a word that was written; tells whether it held the address. */
    method WriteCache(physical: Word, data: Word) returns (hit: bool)
      requires Valid()
      modifies ram, disk, cache
      ensures var m := old(View());
              && hit == (Lookup(m.cache, physical) != MISS)
              && var m1 := m.(cache := Get(m.cache, physical));
                 View() == if hit then m1.(cache := Update(m1.cache, physical, data)) else CachePut(m1, physical, data)
    {
      var check := cache.Get(physical);
      hit := check != MISS;
      if hit {
        cache.Update(physical, data);
      } else {
        cache.Put(physical, data, this);
      }
    }

    /** Writes to the store behind and to the cache, charging the process. */
    method WritePhysical(physical: Word, data: Word, process: Process)
      requires Valid()
      modifies ram, disk, cache, process`counters
      ensures View() == Paging.WritePhysical(old(View()), physical, data)
      ensures process.counters == ChargeWrite(old(process.counters), process.weights, ServedAt(old(View()), physical))
    {
      WriteToFile(physical, data);
      assert View() == Paging.WriteToFile(old(View()), physical, data);
      var hit := WriteCache(physical, data);
      process.counters := ChargeWrite(process.counters, process.weights, Served(hit, physical < limit));
    }

    method Write(address: Word, data: Word, process: Process)
      requires Valid()
      modifies this, ram, disk, cache, process`counters
      ensures View() == Paging.Write(old(View()), Key(process.job.pid, PageOf(address)), OffsetOf(address), data)
      ensures var page := Key(process.job.pid, PageOf(address));
              process.counters == CountWrite(old(process.counters), process.weights,
                                             ServiceOf(old(View()), page, OffsetOf(address), true))
      ensures Valid()
    {
      process.counters := Begin(process.counters, true);
      var physical := Translate(address, process.job.pid, true);
      if physical == ACCESS_ERROR {
        process.counters := ChargeWrite(process.counters, process.weights, Unmapped);
        return;
      }
      WritePhysical(physical, data, process);
    }
  }

  lemma BlitNothing(store: seq<Word>, base: int)
    ensures Blit(store, base, []) == store
  {
  }

  /** One more word of a copy. */
  lemma BlitNext(store: seq<Word>, base: nat, words: seq<Word>, i: nat)
    requires i < |words|
    ensures WriteWord(Blit(store, base, words[..i]), base + i, words[i]) == Blit(store, base, words[..i + 1])
  {
    var s, r := Blit(store, base, words[..i]), Blit(store, base, words[..i + 1]);
    forall j | 0 <= j < |store|
      ensures WriteWord(s, base + i, words[i])[j] == r[j]
    {
    }
  }
}
