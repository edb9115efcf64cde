/** Memory pools (`src/mpool.c`): an allocator that keeps its lists in the free memory it manages,
    with pools that fall back on other pools. */
module Mpool {
  import opened Arithmetic
  import opened Collections
  import opened PoolLists

  /** The entry that the word at address `a` belongs to. */
  function EntryOf(a: int, size: nat): int
    requires size > 0
  {
    a - a % size
  }

  /** Words of entries that are not free have not changed. */
  ghost predicate KeepsUsed(m': Ram, m: Ram, free: multiset<int>, size: nat)
    requires size > 0
  {
    forall u {:trigger Unfold(u)} :: Unfold(u) ==> SameUsed(m', m, free, size)
  }

  ghost predicate SameUsed(m': Ram, m: Ram, free: multiset<int>, size: nat)
    requires size > 0
  {
    forall a: int :: EntryOf(a, size) !in free ==> Read(m', a) == Read(m, a)
  }

  lemma HeaderEntry(x: int, size: nat)
    requires size >= 16 && Aligned(x, size)
    ensures EntryOf(x, size) == x && EntryOf(x + 8, size) == x
  {
    AlignedIs(x, size);
    assert x == (x / size) * size;
    DivModUnique(x + 8, size, x / size, 8);
  }

  lemma HeadersKeepUsed(m': Ram, m: Ram, xs: set<int>, free: multiset<int>, size: nat)
    requires size >= 16 && WritesHeaders(m', m, xs) && forall x :: x in xs ==> Aligned(x, size) && x in free
    ensures KeepsUsed(m', m, free, size)
  {
    forall a: int | EntryOf(a, size) !in free
      ensures Read(m', a) == Read(m, a)
    {
      if a in xs {
        HeaderEntry(a, size);
      } else if a - 8 in xs {
        HeaderEntry(a - 8, size);
      }
    }
    assert SameUsed(m', m, free, size);
  }

  /** All pools of one entry size, the memory they manage, and what is in their lists. `free` are
      the free entries of all pools. */
  datatype Heap = Heap(size: nat, ram: Ram, pools: seq<Pool>, lists: seq<Lists>, free: multiset<int>)

  /** The lists of the pools are linked in memory as `lists` says, except maybe those of pool
      `skip`; free entries are aligned and none is in the lists twice; and fallbacks are older
      pools. */
  ghost predicate Linked(h: Heap, skip: int) {
    h.size >= 16 && |h.lists| == |h.pools| && forall k {:trigger Unfold(k)} :: Unfold(k) ==> LinkedLists(h, skip)
  }

  ghost predicate LinkedLists(h: Heap, skip: int)
    requires h.size >= 16 && |h.lists| == |h.pools|
  {
    && (forall i :: 0 <= i < |h.pools| ==> WfLists(h.lists[i], h.size))
    && (forall i :: 0 <= i < |h.pools| && i != skip ==> RepPool(h.ram, h.pools[i], h.lists[i]))
    && (forall i :: 0 <= i < |h.pools| && h.pools[i].fallback.Fallback? ==> h.pools[i].fallback.pool < i)
    && NoDup(h.free) && h.free == Total(h.lists, h.size)
  }

  /** The fallbacks are the same. */
  ghost predicate SameLinks(ps': seq<Pool>, ps: seq<Pool>) {
    |ps'| == |ps| && forall i :: 0 <= i < |ps| ==> ps'[i].fallback == ps[i].fallback
  }

  // ---- Changes of one pool ----

  /** The entries are each in pool `p` or in no pool. */
  ghost predicate InPoolOrNone(h: Heap, p: nat, xs: set<int>)
    requires h.size > 0 && p < |h.lists|
  {
    forall x :: x in xs ==> Aligned(x, h.size) && (x in Stack(h.lists[p], h.size) || x !in h.free)
  }

  /** Pool `i` does not see a change of the headers of entries of another pool, or of none. */
  lemma OtherPool(h: Heap, m': Ram, p: nat, xs: set<int>, i: nat)
    requires h.size >= 16 && |h.pools| == |h.lists| && i < |h.pools| && p < |h.pools| && i != p
    requires WfLists(h.lists[i], h.size) && RepPool(h.ram, h.pools[i], h.lists[i])
    requires NoDup(h.free) && h.free == Total(h.lists, h.size) && WritesHeaders(m', h.ram, xs) && InPoolOrNone(h, p, xs)
    ensures RepPool(m', h.pools[i], h.lists[i])
  {
    forall x | x in xs
      ensures x !in Stack(h.lists[i], h.size)
    {
      if x in Stack(h.lists[p], h.size) {
        InOnePool(h.lists, p, i, h.size, x);
      } else {
        NotInTotal(h.lists, i, h.size, x);
      }
    }
    PoolFrame(h.ram, m', h.pools[i], h.lists[i], xs, h.size);
  }

  /** The heap after pool `p` changed. */
  ghost function Set(h: Heap, m: Ram, p: nat, pool: Pool, l: Lists, free: multiset<int>): Heap
    requires p < |h.pools| == |h.lists|
  {
    h.(ram := m, pools := h.pools[p := pool], lists := h.lists[p := l], free := free)
  }

  /** A change of one pool that writes headers of entries, each in that pool or in none. */
  lemma ChangePool(h: Heap, m': Ram, skip: int, p: nat, pool: Pool, l: Lists, free: multiset<int>, xs: set<int>)
    requires Linked(h, skip) && p < |h.pools| && WritesHeaders(m', h.ram, xs) && InPoolOrNone(h, p, xs)
    requires (p != skip ==> RepPool(m', pool, l)) && WfLists(l, h.size) && pool.fallback == h.pools[p].fallback
    requires NoDup(free) && free == Total(h.lists[p := l], h.size)
    ensures Linked(Set(h, m', p, pool, l, free), skip)
  {
    assert Unfold(0);
    var g := Set(h, m', p, pool, l, free);
    forall i | 0 <= i < |h.pools|
      ensures WfLists(g.lists[i], g.size) && (g.pools[i].fallback.Fallback? ==> g.pools[i].fallback.pool < i)
      ensures i != skip ==> RepPool(g.ram, g.pools[i], g.lists[i])
    {
      if i != p {
        assert g.lists[i] == h.lists[i] && g.pools[i] == h.pools[i];
        if i != skip {
          OtherPool(h, m', p, xs, i);
        }
      }
    }
    assert LinkedLists(g, skip);
  }

  lemma NoDupPart(t': multiset<int>, t: multiset<int>)
    requires NoDup(t) && t' <= t
    ensures NoDup(t')
  {
    forall q
      ensures t'[q] <= 1
    {
      assert t[q] <= 1;
    }
  }

  /** What is known about one pool. */
  lemma PoolRep(h: Heap, skip: int, p: nat)
    requires Linked(h, skip) && p < |h.pools|
    ensures WfLists(h.lists[p], h.size) && (p != skip ==> RepPool(h.ram, h.pools[p], h.lists[p]))
    ensures h.pools[p].fallback.Fallback? ==> h.pools[p].fallback.pool < p
  {
    assert Unfold(0);
  }

  lemma PoolFacts(h: Heap, skip: int, p: nat)
    requires Linked(h, skip) && p < |h.pools|
    ensures WfLists(h.lists[p], h.size) && (p != skip ==> RepPool(h.ram, h.pools[p], h.lists[p]))
    ensures NoDup(multiset(Stack(h.lists[p], h.size))) && multiset(Stack(h.lists[p], h.size)) <= h.free
  {
    assert Unfold(0);
    forall q
      ensures multiset(Stack(h.lists[p], h.size))[q] <= h.free[q] <= 1
    {
      SumBound(Stacks(h.lists, h.size), p, q);
    }
  }

  /** Entries are added to the free entries, or taken from them, through pool `p`. */
  lemma Grows(h: Heap, skip: int, p: nat, l: Lists, xs: multiset<int>)
    requires Linked(h, skip) && p < |h.pools| && multiset(Stack(l, h.size)) == multiset(Stack(h.lists[p], h.size)) + xs
    ensures h.free + xs == Total(h.lists[p := l], h.size)
  {
    assert Unfold(0);
    TotalChange(h.lists, p, l, h.size, xs);
  }

  lemma Shrinks(h: Heap, skip: int, p: nat, l: Lists, xs: multiset<int>)
    requires Linked(h, skip) && p < |h.pools| && multiset(Stack(l, h.size)) + xs == multiset(Stack(h.lists[p], h.size))
    ensures h.free - xs == Total(h.lists[p := l], h.size) && NoDup(h.free - xs) && xs <= h.free
  {
    assert Unfold(0);
    TotalChange(h.lists, p, l, h.size, xs);
    NoDupPart(h.free - xs, h.free);
  }

  // ---- Freeing an entry ----

  ghost function Pushed(l: Lists, x: int): Lists {
    Lists([x] + l.entries, l.chunks)
  }

  lemma PushRep(m: Ram, p: Pool, l: Lists, size: nat, x: int)
    requires size >= 16 && WfLists(l, size) && RepPool(m, p, l) && WfEntry(x, size) && x !in Stack(l, size)
    ensures RepPool(m[x := p.entryList], p.(entryList := x), Pushed(l, x)) && WfLists(Pushed(l, x), size)
  {
    var m' := m[x := p.entryList];
    PoolFrame(m, m', p, l, {x}, size);
    EntriesPush(m', p.entryList, l.entries, x);
  }

  lemma PutEntry(h: Heap, skip: int, p: nat, x: int)
    requires Linked(h, skip) && p < |h.pools| && p != skip && WfEntry(x, h.size) && x !in h.free
    ensures Linked(Set(h, h.ram[x := h.pools[p].entryList], p, h.pools[p].(entryList := x), Pushed(h.lists[p], x),
                       h.free + multiset{x}), skip)
    ensures Stack(Pushed(h.lists[p], x), h.size) == [x] + Stack(h.lists[p], h.size)
  {
    var pool, l := h.pools[p], h.lists[p];
    PoolFacts(h, skip, p);
    assert x !in multiset(Stack(l, h.size));
    PushRep(h.ram, pool, l, h.size, x);
    StackPush(l, x, h.size);
    Grows(h, skip, p, Pushed(l, x), multiset{x});
    FreeNoDup(h, skip);
    ChangePool(h, h.ram[x := pool.entryList], skip, p, pool.(entryList := x), Pushed(l, x), h.free + multiset{x}, {x});
  }

  // ---- Adding a chunk ----

  /** `align_down`: the greatest multiple of `size` that is not above `a`. */
  function AlignDown(a: nat, size: nat): nat
    requires size > 0
  {
    if a < size then 0 else size + AlignDown(a - size, size)
  }

  /** `align_up`: the least multiple of `size` that is not below `a`. */
  function AlignUp(a: nat, size: nat): nat
    requires size > 0
  {
    AlignDown(a + size - 1, size)
  }

  lemma {:induction false} AlignDownBounds(a: nat, size: nat)
    requires size > 0
    ensures Aligned(AlignDown(a, size), size) && AlignDown(a, size) <= a < AlignDown(a, size) + size
  {
    if a < size {
      AlignedIs(0, size);
    } else {
      AlignDownBounds(a - size, size);
      AlignedNext(AlignDown(a - size, size), size);
    }
  }

  lemma AlignBounds(a: nat, size: nat)
    requires size > 0
    ensures Aligned(AlignDown(a, size), size) && AlignDown(a, size) <= a < AlignDown(a, size) + size
    ensures Aligned(AlignUp(a, size), size) && a <= AlignUp(a, size) < a + size
  {
    AlignDownBounds(a, size);
    AlignDownBounds(a + size - 1, size);
  }

  lemma MulPositive(a: nat, b: nat)
    requires a > 0 && b > 0
    ensures a * b > 0
  {
  }

  ghost function WithChunk(l: Lists, c: Chunk): Lists {
    Lists(l.entries, [c] + l.chunks)
  }

  lemma ChunkRep(m: Ram, m': Ram, p: Pool, l: Lists, c: Chunk, size: nat)
    requires size >= 16 && WfLists(l, size) && RepPool(m, p, l) && WfChunk(c, size) && c.begin !in Stack(l, size)
    requires m' == m[c.begin + 8 := c.end][c.begin := p.chunkList]
    ensures RepPool(m', p.(chunkList := c.begin), WithChunk(l, c)) && WfLists(WithChunk(l, c), size)
    ensures WritesHeaders(m', m, {c.begin})
  {
    PoolFrame(m, m', p, l, {c.begin}, size);
    ChunksPush(m', p.chunkList, l.chunks, c);
  }

  lemma NoDupSum(a: multiset<int>, b: multiset<int>)
    requires NoDup(a) && NoDup(b) && forall x :: x in b ==> x !in a
    ensures NoDup(a + b)
  {
  }

  lemma PutChunk(h: Heap, m': Ram, skip: int, p: nat, c: Chunk)
    requires Linked(h, skip) && p < |h.pools| && p != skip && WfChunk(c, h.size)
    requires forall x :: x in Run(c.begin, c.end, h.size) ==> x !in h.free
    requires m' == h.ram[c.begin + 8 := c.end][c.begin := h.pools[p].chunkList]
    ensures WritesHeaders(m', h.ram, {c.begin})
    ensures Linked(Set(h, m', p, h.pools[p].(chunkList := c.begin), WithChunk(h.lists[p], c),
                       h.free + multiset(Run(c.begin, c.end, h.size))), skip)
  {
    var pool, l, r := h.pools[p], h.lists[p], Run(c.begin, c.end, h.size);
    PoolFacts(h, skip, p);
    RunHead(c.begin, c.end, h.size);
    assert c.begin !in multiset(Stack(l, h.size));
    ChunkRep(h.ram, m', pool, l, c, h.size);
    StackChunk(l.entries, c, l.chunks, h.size);
    Grows(h, skip, p, WithChunk(l, c), multiset(r));
    RunNoDup(c.begin, c.end, h.size);
    FreeNoDup(h, skip);
    NoDupSum(h.free, multiset(r));
    ChangePool(h, m', skip, p, pool.(chunkList := c.begin), WithChunk(l, c), h.free + multiset(r), {c.begin});
  }

  lemma FreeNoDup(h: Heap, skip: int)
    requires Linked(h, skip)
    ensures NoDup(h.free)
  {
    assert Unfold(0);
  }

  // ---- Allocating an entry ----

  /** The heap after the first entry `ret` of pool `p` was handed out. */
  ghost predicate Took(g: Heap, h: Heap, p: nat, ret: int) {
    Linked(g, -1) && ret != 0 && g.size == h.size >= 16
      && forall k {:trigger Unfold(k)} :: Unfold(k) ==> TookFirst(g, h, p, ret)
  }

  ghost predicate TookFirst(g: Heap, h: Heap, p: nat, ret: int)
    requires g.size == h.size >= 16
  {
    && ret in h.free && g.free == h.free - multiset{ret}
    && p < |h.lists| && |g.lists| == |h.lists| && g.lists == h.lists[p := g.lists[p]]
    && Stack(h.lists[p], h.size) == [ret] + Stack(g.lists[p], h.size)
    && KeepsUsed(g.ram, h.ram, g.free, h.size)
  }

  /** From the free list. */
  lemma TakeEntry(h: Heap, p: nat)
    requires Linked(h, -1) && p < |h.pools| && h.pools[p].entryList != 0
    ensures h.lists[p].entries != []
    ensures var x := h.pools[p].entryList;
            Took(Set(h, h.ram, p, h.pools[p].(entryList := Read(h.ram, x)),
                     Lists(h.lists[p].entries[1..], h.lists[p].chunks),
                     h.free - multiset{x}), h, p, x)
  {
    var pool, l, x := h.pools[p], h.lists[p], h.pools[p].entryList;
    PoolRep(h, -1, p);
    EntriesPop(h.ram, x, l.entries);
    StackPop(l, h.size);
    var l' := Lists(l.entries[1..], l.chunks);
    TakesFirst(h, p, l', x);
    ChangePool(h, h.ram, -1, p, pool.(entryList := Read(h.ram, x)), l', h.free - multiset{x}, {});
  }

  lemma TakesFirst(h: Heap, p: nat, l: Lists, x: int)
    requires Linked(h, -1) && p < |h.pools| && Stack(h.lists[p], h.size) == [x] + Stack(l, h.size)
    ensures h.free - multiset{x} == Total(h.lists[p := l], h.size) && NoDup(h.free - multiset{x}) && x in h.free
    ensures x in Stack(h.lists[p], h.size)
  {
    Shrinks(h, -1, p, l, multiset{x});
  }

  /** The lists after the first entry of the first chunk was taken. */
  ghost function AfterFirst(l: Lists, size: nat): Lists
    requires l.chunks != []
  {
    Lists([], Tail(l.chunks[0], size) + l.chunks[1..])
  }

  /** The pool's free list is empty and its chunk list is not. */
  lemma FirstChunk(h: Heap, p: nat)
    requires Linked(h, -1) && p < |h.pools| && h.pools[p].entryList == 0 && h.pools[p].chunkList != 0
    ensures var l, x := h.lists[p], h.pools[p].chunkList;
            && l.entries == [] && l.chunks != [] && x == l.chunks[0].begin && Read(h.ram, x + 8) == l.chunks[0].end
            && Aligned(x, h.size) && x in Stack(l, h.size) && x in h.free
            && Stack(l, h.size) == [x] + Stack(AfterFirst(l, h.size), h.size)
            && h.free - multiset{x} == Total(h.lists[p := AfterFirst(l, h.size)], h.size) && NoDup(h.free - multiset{x})
  {
    PoolRep(h, -1, p);
    var l := h.lists[p];
    ChunksPop(h.ram, h.pools[p].chunkList, l.chunks);
    StackTail(l.chunks, h.size);
    TakesFirst(h, p, AfterFirst(l, h.size), h.pools[p].chunkList);
  }

  /** The only entry of the first chunk. */
  lemma TakeLast(h: Heap, p: nat)
    requires Linked(h, -1) && p < |h.pools| && h.pools[p].entryList == 0 && h.pools[p].chunkList != 0
    requires h.pools[p].chunkList + h.size >= Read(h.ram, h.pools[p].chunkList + 8)
    ensures h.lists[p].chunks != []
    ensures var x := h.pools[p].chunkList;
            Took(Set(h, h.ram, p, h.pools[p].(chunkList := Read(h.ram, x)), AfterFirst(h.lists[p], h.size),
                     h.free - multiset{x}), h, p, x)
  {
    var pool, l, x := h.pools[p], h.lists[p], h.pools[p].chunkList;
    FirstChunk(h, p);
    LastRep(h, p);
    ChangePool(h, h.ram, -1, p, pool.(chunkList := Read(h.ram, x)), AfterFirst(l, h.size), h.free - multiset{x}, {});
  }

  lemma LastRep(h: Heap, p: nat)
    requires Linked(h, -1) && p < |h.pools| && h.lists[p].entries == [] && h.lists[p].chunks != []
    requires h.lists[p].chunks[0].begin + h.size >= h.lists[p].chunks[0].end
    ensures var pool, l := h.pools[p], AfterFirst(h.lists[p], h.size);
            RepPool(h.ram, pool.(chunkList := Read(h.ram, pool.chunkList)), l) && WfLists(l, h.size)
  {
    PoolRep(h, -1, p);
    ChunksPop(h.ram, h.pools[p].chunkList, h.lists[p].chunks);
    assert AfterFirst(h.lists[p], h.size) == Lists([], h.lists[p].chunks[1..]);
  }

  lemma RunNext(b: int, e: int, size: nat)
    requires size > 0 && b + size < e
    ensures b + size in Run(b, e, size)
  {
    assert Run(b + size, e, size)[0] == b + size;
  }

  lemma PartsApart(s: seq<int>, a: seq<int>, b: seq<int>, x: int, y: int)
    requires s == a + b && NoDup(multiset(s)) && x in a && y in b
    ensures x != y
  {
    assert x in multiset(a) && y in multiset(b);
    assert multiset(s)[x] <= 1;
  }

  lemma HeadsApart(s: seq<int>, a: seq<int>, rest: seq<Chunk>, size: nat, x: int)
    requires size > 0 && s == a + ChunkEntries(rest, size) && NoDup(multiset(s)) && x in a
    requires forall k :: 0 <= k < |rest| ==> rest[k].begin < rest[k].end
    ensures forall k :: 0 <= k < |rest| ==> rest[k].begin != x
  {
    forall k | 0 <= k < |rest|
      ensures rest[k].begin != x
    {
      ChunkHeadIn(rest, k, size);
      PartsApart(s, a, ChunkEntries(rest, size), x, rest[k].begin);
    }
  }

  lemma FirstRun(l: Lists, size: nat, x: int) returns (a: seq<int>)
    requires size > 0 && l.entries == [] && l.chunks != [] && x == l.chunks[0].begin + size < l.chunks[0].end
    ensures Stack(l, size) == a + ChunkEntries(l.chunks[1..], size) && x in a
  {
    a := Run(l.chunks[0].begin, l.chunks[0].end, size);
    RunNext(l.chunks[0].begin, l.chunks[0].end, size);
  }

  /** The next entry of the first chunk heads no block. */
  lemma NextApart(l: Lists, size: nat, x: int)
    requires size >= 16 && WfLists(l, size) && l.entries == [] && l.chunks != [] && NoDup(multiset(Stack(l, size)))
    requires x == l.chunks[0].begin + size < l.chunks[0].end
    ensures Aligned(x, size) && x in Stack(l, size) && Outside(Lists([], l.chunks[1..]), x)
  {
    AlignedNext(l.chunks[0].begin, size);
    var a := FirstRun(l, size, x);
    HeadsApart(Stack(l, size), a, l.chunks[1..], size, x);
  }

  /** The first chunk gives up its first entry, and its header moves to the next. */
  lemma TailRep(m: Ram, m': Ram, p: Pool, l: Lists, size: nat, x: int)
    requires size >= 16 && WfLists(l, size) && RepPool(m, p, l) && l.entries == [] && l.chunks != []
    requires x == p.chunkList + size < l.chunks[0].end && Aligned(x, size) && Outside(Lists([], l.chunks[1..]), x)
    requires m' == m[x := Read(m, p.chunkList)][x + 8 := Read(m, p.chunkList + 8)]
    ensures RepPool(m', p.(chunkList := x), AfterFirst(l, size)) && WfLists(AfterFirst(l, size), size)
  {
    var c, rest := l.chunks[0], l.chunks[1..];
    ChunksPop(m, p.chunkList, l.chunks);
    ListsFrame(m, m', 0, Read(m, c.begin), Lists([], rest), {x}, size);
    ChunksPush(m', Read(m, c.begin), rest, Chunk(x, c.end));
  }

  /** The first of several entries of the first chunk. */
  lemma TakeNext(h: Heap, m': Ram, p: nat, y: int)
    requires Linked(h, -1) && p < |h.pools| && h.pools[p].entryList == 0 && h.pools[p].chunkList != 0
    requires y == h.pools[p].chunkList + h.size < Read(h.ram, h.pools[p].chunkList + 8)
    requires m' == h.ram[y := Read(h.ram, h.pools[p].chunkList)][y + 8 := Read(h.ram, h.pools[p].chunkList + 8)]
    ensures h.lists[p].chunks != []
    ensures var x := h.pools[p].chunkList;
            Took(Set(h, m', p, h.pools[p].(chunkList := y), AfterFirst(h.lists[p], h.size), h.free - multiset{x}), h,
                 p, x)
  {
    var x := h.pools[p].chunkList;
    FirstChunk(h, p);
    NextRep(h, m', p, y);
    ChangePool(h, m', -1, p, h.pools[p].(chunkList := y), AfterFirst(h.lists[p], h.size), h.free - multiset{x}, {y});
    HeadersKeepUsed(m', h.ram, {y}, h.free - multiset{x}, h.size);
  }

  lemma NextRep(h: Heap, m': Ram, p: nat, y: int)
    requires Linked(h, -1) && p < |h.pools| && h.pools[p].entryList == 0 && h.pools[p].chunkList != 0
    requires y == h.pools[p].chunkList + h.size < Read(h.ram, h.pools[p].chunkList + 8)
    requires m' == h.ram[y := Read(h.ram, h.pools[p].chunkList)][y + 8 := Read(h.ram, h.pools[p].chunkList + 8)]
    ensures h.lists[p].chunks != [] && Aligned(y, h.size) && y in Stack(h.lists[p], h.size)
    ensures y in h.free - multiset{h.pools[p].chunkList}
    ensures RepPool(m', h.pools[p].(chunkList := y), AfterFirst(h.lists[p], h.size))
    ensures WfLists(AfterFirst(h.lists[p], h.size), h.size)
    ensures WritesHeaders(m', h.ram, {y})
  {
    var pool, l := h.pools[p], h.lists[p];
    PoolFacts(h, -1, p);
    ChunksPop(h.ram, pool.chunkList, l.chunks);
    NextApart(l, h.size, y);
    TailRep(h.ram, m', pool, l, h.size, y);
    assert y in multiset(Stack(l, h.size));
  }

  lemma NothingFree(h: Heap, p: nat)
    requires Linked(h, -1) && p < |h.pools| && h.pools[p].entryList == 0 && h.pools[p].chunkList == 0
    ensures Stack(h.lists[p], h.size) == []
  {
    PoolRep(h, -1, p);
  }

  // ---- Allocating contiguous entries ----

  lemma {:induction false} RunIn(cs: seq<Chunk>, j: nat, size: nat, x: int)
    requires size > 0 && j < |cs| && x in Run(cs[j].begin, cs[j].end, size)
    ensures x in ChunkEntries(cs, size)
  {
    if j > 0 {
      RunIn(cs[1..], j - 1, size, x);
    }
  }

  lemma NoDupTail(s: seq<int>, a: seq<int>, b: seq<int>)
    requires s == a + b && NoDup(multiset(s))
    ensures NoDup(multiset(b))
  {
    forall q
      ensures multiset(b)[q] <= 1
    {
      assert multiset(s)[q] <= 1;
    }
  }

  /** An entry of chunk `j` does not head another chunk. */
  lemma {:induction false} HeadApart(cs: seq<Chunk>, i: nat, j: nat, size: nat, x: int)
    requires size > 0 && i < |cs| && j < |cs| && i != j && NoDup(multiset(ChunkEntries(cs, size)))
    requires cs[i].begin < cs[i].end && x in Run(cs[j].begin, cs[j].end, size)
    ensures cs[i].begin != x
  {
    var s, a, b := ChunkEntries(cs, size), Run(cs[0].begin, cs[0].end, size), ChunkEntries(cs[1..], size);
    if i == 0 {
      RunIn(cs[1..], j - 1, size, x);
      RunHead(cs[0].begin, cs[0].end, size);
      PartsApart(s, a, b, cs[0].begin, x);
    } else if j == 0 {
      ChunkHeadIn(cs[1..], i - 1, size);
      PartsApart(s, a, b, x, cs[i].begin);
    } else {
      NoDupTail(s, a, b);
      HeadApart(cs[1..], i - 1, j - 1, size, x);
    }
  }

  /** The entries whose headers change when part of chunk `k` is taken. */
  function Touched(cs: seq<Chunk>, k: nat, start: int, stop: int): set<int>
    requires k < |cs|
  {
    (if cs[k].begin < start then {cs[k].begin} else {}) + (if stop < cs[k].end then {stop} else {})
    + (if k > 0 then {cs[k - 1].begin} else {})
  }

  /** The part from `start` to `stop` of chunk `c` can be taken. */
  ghost predicate PartOf(c: Chunk, start: int, stop: int, size: nat)
    requires size > 0
  {
    WfChunk(c, size) && Aligned(start, size) && Aligned(stop, size) && c.begin <= start < stop <= c.end
  }

  lemma RunMember(b: int, x: int, e: int, size: nat)
    requires size > 0 && Aligned(b, size) && Aligned(x, size) && b <= x < e
    ensures x in Run(b, e, size)
  {
    RunSplit(b, x, e, size);
    RunHead(x, e, size);
  }

  /** Which chunk a touched entry belongs to. */
  lemma TouchedIn(cs: seq<Chunk>, k: nat, start: int, stop: int, size: nat, x: int)
    requires size > 0 && k < |cs| && PartOf(cs[k], start, stop, size) && x in Touched(cs, k, start, stop)
    requires (forall i :: 0 <= i < |cs| ==> WfChunk(cs[i], size)) && NoDup(multiset(ChunkEntries(cs, size)))
    ensures Aligned(x, size) && !(start <= x < stop)
    ensures x in Run(cs[k].begin, cs[k].end, size)
            || (k > 0 && x == cs[k - 1].begin && x in Run(cs[k - 1].begin, cs[k - 1].end, size))
    ensures x in ChunkEntries(cs, size)
  {
    if k > 0 && x == cs[k - 1].begin {
      RunHead(x, cs[k - 1].end, size);
      RunIn(cs, k - 1, size, x);
      if start <= x < stop {
        RunMember(cs[k].begin, x, cs[k].end, size);
        HeadApart(cs, k - 1, k, size, x);
      }
    } else {
      RunMember(cs[k].begin, x, cs[k].end, size);
      RunIn(cs, k, size, x);
    }
  }

  /** The headers after the part from `start` to `stop` of chunk `k` was taken. */
  ghost predicate CarvedRam(m': Ram, m: Ram, cs: seq<Chunk>, k: nat, start: int, stop: int)
    requires k < |cs|
  {
    var c, next := cs[k], ChunkAt(cs, k + 1);
    && WritesHeaders(m', m, Touched(cs, k, start, stop))
    && (k > 0 ==> Read(m', cs[k - 1].begin) == ChunkAt(Carve(c, start, stop) + cs[k + 1..], 0)
                  && Read(m', cs[k - 1].begin + 8) == Read(m, cs[k - 1].begin + 8))
    && (stop < c.end ==> Read(m', stop) == next && Read(m', stop + 8) == c.end)
    && (c.begin < start ==>
          Read(m', c.begin) == (if stop < c.end then stop else next) && Read(m', c.begin + 8) == start)
  }

  lemma OtherChunkKept(m': Ram, m: Ram, cs: seq<Chunk>, k: nat, start: int, stop: int, size: nat, i: nat)
    requires size >= 16 && k < |cs| && PartOf(cs[k], start, stop, size) && CarvedRam(m', m, cs, k, start, stop)
    requires (forall i :: 0 <= i < |cs| ==> WfChunk(cs[i], size)) && NoDup(multiset(ChunkEntries(cs, size)))
    requires i < |cs| && i != k
    ensures HeaderStays(m', m, cs, k, i)
  {
    if i + 1 != k {
      var xs := Touched(cs, k, start, stop);
      forall x | x in xs
        ensures Aligned(x, size) && x != cs[i].begin
      {
        TouchedIn(cs, k, start, stop, size, x);
        HeadApart(cs, i, if x in Run(cs[k].begin, cs[k].end, size) then k else k - 1, size, x);
      }
      HeaderKept(m, m', cs[i].begin, xs, size);
    }
  }

  /** The chunk list pointer of the pool afterwards. */
  function CarvedHead(head: int, cs: seq<Chunk>, k: nat, start: int, stop: int): int
    requires k < |cs|
  {
    if k == 0 then ChunkAt(Carve(cs[k], start, stop) + cs[k + 1..], 0) else head
  }

  lemma CarvedChunks(m': Ram, m: Ram, head: int, cs: seq<Chunk>, k: nat, start: int, stop: int, size: nat)
    requires size >= 16 && k < |cs| && PartOf(cs[k], start, stop, size) && CarvedRam(m', m, cs, k, start, stop)
    requires RepChunks(m, head, cs)
    requires (forall i :: 0 <= i < |cs| ==> WfChunk(cs[i], size)) && NoDup(multiset(ChunkEntries(cs, size)))
    ensures RepChunks(m', CarvedHead(head, cs, k, start, stop), Carved(cs, k, start, stop))
  {
    forall i | 0 <= i < |cs| && i != k
      ensures HeaderStays(m', m, cs, k, i)
    {
      OtherChunkKept(m', m, cs, k, start, stop, size, i);
    }
    CarveLinks(m', cs[k], start, stop, ChunkAt(cs, k + 1));
    SpliceRep(m, m', head, cs, k, Carve(cs[k], start, stop), CarvedHead(head, cs, k, start, stop));
  }

  lemma CarvedEntryList(m': Ram, m: Ram, head: int, l: Lists, k: nat, start: int, stop: int, size: nat)
    requires size >= 16 && WfLists(l, size) && k < |l.chunks| && PartOf(l.chunks[k], start, stop, size)
    requires CarvedRam(m', m, l.chunks, k, start, stop) && NoDup(multiset(Stack(l, size)))
    requires RepEntries(m, head, l.entries)
    ensures RepEntries(m', head, l.entries)
  {
    NoDupTail(Stack(l, size), l.entries, ChunkEntries(l.chunks, size));
    var xs := Touched(l.chunks, k, start, stop);
    forall i | 0 <= i < |l.entries|
      ensures EntryLink(m', l.entries, i)
    {
      assert EntryLink(m, l.entries, i);
      forall x | x in xs
        ensures Aligned(x, size) && x != l.entries[i]
      {
        TouchedIn(l.chunks, k, start, stop, size, x);
        PartsApart(Stack(l, size), l.entries, ChunkEntries(l.chunks, size), l.entries[i], x);
      }
      HeaderKept(m, m', l.entries[i], xs, size);
    }
  }

  ghost function CarvedLists(l: Lists, k: nat, start: int, stop: int): Lists
    requires k < |l.chunks|
  {
    Lists(l.entries, Carved(l.chunks, k, start, stop))
  }

  lemma CarvedWf(l: Lists, k: nat, start: int, stop: int, size: nat)
    requires size > 0 && WfLists(l, size) && k < |l.chunks| && PartOf(l.chunks[k], start, stop, size)
    ensures WfLists(CarvedLists(l, k, start, stop), size)
  {
  }

  lemma CarvedStack(l: Lists, k: nat, start: int, stop: int, size: nat)
    requires size > 0 && k < |l.chunks| && PartOf(l.chunks[k], start, stop, size)
    ensures multiset(Stack(CarvedLists(l, k, start, stop), size)) + multiset(Run(start, stop, size))
            == multiset(Stack(l, size))
  {
    CarvedEntries(l.chunks, k, start, stop, size);
    AddFront(l.entries, ChunkEntries(Carved(l.chunks, k, start, stop), size), Run(start, stop, size),
             ChunkEntries(l.chunks, size));
  }

  lemma AddFront(es: seq<int>, a: seq<int>, r: seq<int>, b: seq<int>)
    requires multiset(a) + multiset(r) == multiset(b)
    ensures multiset(es + a) + multiset(r) == multiset(es + b)
  {
    assert multiset(es + a) == multiset(es) + multiset(a);
    assert multiset(es) + multiset(a) + multiset(r) == multiset(es) + (multiset(a) + multiset(r));
  }

  /** Taking part of a chunk. */
  lemma TakePart(h: Heap, m': Ram, p: nat, k: nat, start: int, stop: int)
    requires Linked(h, -1) && p < |h.pools| && k < |h.lists[p].chunks|
    requires PartOf(h.lists[p].chunks[k], start, stop, h.size)
    requires CarvedRam(m', h.ram, h.lists[p].chunks, k, start, stop)
    ensures var l, pool := h.lists[p], h.pools[p];
            var free := h.free - multiset(Run(start, stop, h.size));
            && Linked(Set(h, m', p, pool.(chunkList := CarvedHead(pool.chunkList, l.chunks, k, start, stop)),
                          CarvedLists(l, k, start, stop), free), -1)
            && free + multiset(Run(start, stop, h.size)) == h.free && KeepsUsed(m', h.ram, free, h.size)
  {
    var l, pool := h.lists[p], h.pools[p];
    var free := h.free - multiset(Run(start, stop, h.size));
    PoolFacts(h, -1, p);
    NoDupTail(Stack(l, h.size), l.entries, ChunkEntries(l.chunks, h.size));
    CarvedChunks(m', h.ram, pool.chunkList, l.chunks, k, start, stop, h.size);
    CarvedEntryList(m', h.ram, pool.entryList, l, k, start, stop, h.size);
    CarvedWf(l, k, start, stop, h.size);
    CarvedStack(l, k, start, stop, h.size);
    Shrinks(h, -1, p, CarvedLists(l, k, start, stop), multiset(Run(start, stop, h.size)));
    var xs := Touched(l.chunks, k, start, stop);
    forall x | x in xs
      ensures Aligned(x, h.size) && x in Stack(l, h.size) && x in free
    {
      TouchedFree(h, p, k, start, stop, x);
    }
    ChangePool(h, m', -1, p, pool.(chunkList := CarvedHead(pool.chunkList, l.chunks, k, start, stop)),
               CarvedLists(l, k, start, stop), free, xs);
    HeadersKeepUsed(m', h.ram, xs, free, h.size);
  }

  lemma TouchedFree(h: Heap, p: nat, k: nat, start: int, stop: int, x: int)
    requires Linked(h, -1) && p < |h.pools| && k < |h.lists[p].chunks|
    requires PartOf(h.lists[p].chunks[k], start, stop, h.size)
    requires x in Touched(h.lists[p].chunks, k, start, stop)
    ensures Aligned(x, h.size) && x in Stack(h.lists[p], h.size) && x in h.free - multiset(Run(start, stop, h.size))
  {
    var l := h.lists[p];
    PoolFacts(h, -1, p);
    NoDupTail(Stack(l, h.size), l.entries, ChunkEntries(l.chunks, h.size));
    TouchedIn(l.chunks, k, start, stop, h.size, x);
    assert x in multiset(Stack(l, h.size));
    if x in Run(start, stop, h.size) {
      RunBounds(start, stop, h.size, x);
    }
  }

  /** Where the pointer to a chunk is stored: in the pool, or in the header of another chunk. */
  datatype Prev = ListHead | NextOf(chunk: int)

  /** The addresses written are those of different headers. */
  lemma PrevApart(cs: seq<Chunk>, k: nat, start: int, stop: int, size: nat)
    requires size >= 16 && 0 < k < |cs| && PartOf(cs[k], start, stop, size)
    requires (forall i :: 0 <= i < |cs| ==> WfChunk(cs[i], size)) && NoDup(multiset(ChunkEntries(cs, size)))
    ensures var q, b := cs[k - 1].begin, cs[k].begin;
            && q != b && q != b + 8 && q + 8 != b && q + 8 != b + 8
            && (stop < cs[k].end ==> q != stop && q != stop + 8 && q + 8 != stop && q + 8 != stop + 8)
  {
    var q, c := cs[k - 1].begin, cs[k];
    RunHead(c.begin, c.end, size);
    HeadApart(cs, k - 1, k, size, c.begin);
    HeadersApart(q, c.begin, size);
    if stop < c.end {
      RunMember(c.begin, stop, c.end, size);
      HeadApart(cs, k - 1, k, size, stop);
      HeadersApart(q, stop, size);
    }
  }

  lemma SplitApart(c: Chunk, start: int, stop: int, size: nat)
    requires size >= 16 && PartOf(c, start, stop, size)
    ensures var b := c.begin;
            b != stop && b != stop + 8 && b + 8 != stop && b + 8 != stop + 8
  {
    HeadersApart(c.begin, stop, size);
  }

  /** The memory and the pool's chunk list pointer after the writes of the allocation, in order. */
  function CarveWrites(m: Ram, head: int, prev: Prev, chunk: int, start: int, stop: int, size: nat): (Ram, int) {
    var next, limit := Read(m, chunk), Read(m, chunk + 8);
    var link := if stop == limit then next else stop;
    var m1 := if stop == limit then m else m[stop := next][stop + 8 := limit];
    var (m2, head2) := WritePrev(m1, head, prev, link);
    if start - chunk >= size then
      var (m3, head3) := WritePrev(m2[chunk := link], head2, prev, chunk);
      (m3[chunk + 8 := start], head3)
    else
      (m2, head2)
  }

  function WritePrev(m: Ram, head: int, prev: Prev, link: int): (Ram, int) {
    match prev
    case ListHead => (m, link)
    case NextOf(q) => (m[q := link], head)
  }

  /** Two header addresses have no word in common. */
  predicate Separate(a: int, b: int) {
    a != b && a != b + 8 && a + 8 != b
  }

  lemma CarveReads(m: Ram, head: int, prev: Prev, b: int, start: int, stop: int, size: nat, next: int, limit: int)
    requires next == Read(m, b) && limit == Read(m, b + 8) && stop <= limit && size > 0
             && (start == b || b + size <= start)
    requires Separate(b, stop)
             && (prev.NextOf? ==> Separate(prev.chunk, b) && (stop < limit ==> Separate(prev.chunk, stop)))
    ensures var (m', head') := CarveWrites(m, head, prev, b, start, stop, size);
            var link := if b < start then b else if stop < limit then stop else next;
            && (stop < limit ==> Read(m', stop) == next && Read(m', stop + 8) == limit)
            && (b < start ==> Read(m', b) == (if stop < limit then stop else next) && Read(m', b + 8) == start)
            && (if prev.NextOf? then Read(m', prev.chunk) == link
                && Read(m', prev.chunk + 8) == Read(m, prev.chunk + 8) && head' == head
                else head' == link)
  {
  }

  lemma CarveFrame(m: Ram, head: int, prev: Prev, b: int, start: int, stop: int, size: nat, a: int)
    requires stop <= Read(m, b + 8) && size > 0 && (start == b || b + size <= start)
    requires b < start ==> a != b && a != b + 8
    requires stop < Read(m, b + 8) ==> a != stop && a != stop + 8
    requires prev.NextOf? ==> a != prev.chunk
    ensures Read(CarveWrites(m, head, prev, b, start, stop, size).0, a) == Read(m, a)
  {
  }

  lemma CarveFirst(cs: seq<Chunk>, k: nat, start: int, stop: int)
    requires k < |cs| && cs[k].begin <= start
    ensures ChunkAt(Carve(cs[k], start, stop) + cs[k + 1..], 0) ==
            if cs[k].begin < start then cs[k].begin else if stop < cs[k].end then stop else ChunkAt(cs, k + 1)
  {
  }

  lemma CarveWritesRight(m: Ram, head: int, prev: Prev, cs: seq<Chunk>, k: nat, start: int, stop: int, size: nat)
    requires size >= 16 && k < |cs| && PartOf(cs[k], start, stop, size) && RepChunks(m, head, cs)
    requires (forall i :: 0 <= i < |cs| ==> WfChunk(cs[i], size)) && NoDup(multiset(ChunkEntries(cs, size)))
    requires prev == if k == 0 then ListHead else NextOf(cs[k - 1].begin)
    ensures var (m', head') := CarveWrites(m, head, prev, cs[k].begin, start, stop, size);
            CarvedRam(m', m, cs, k, start, stop) && head' == CarvedHead(head, cs, k, start, stop)
  {
    var c := cs[k];
    SplitApart(c, start, stop, size);
    if k > 0 {
      PrevApart(cs, k, start, stop, size);
    }
    if c.begin < start {
      NextMultiple(c.begin, start, size);
    }
    CarveFirst(cs, k, start, stop);
    assert ChunkLink(m, cs, k);
    CarveReads(m, head, prev, c.begin, start, stop, size, ChunkAt(cs, k + 1), c.end);
    var m' := CarveWrites(m, head, prev, c.begin, start, stop, size).0;
    forall a: int | !InHeaders(a, Touched(cs, k, start, stop))
      ensures Read(m', a) == Read(m, a)
    {
      CarveFrame(m, head, prev, c.begin, start, stop, size, a);
    }
  }

  /** Chunk `c` has room for `length` bytes from the first multiple of `unit` on. */
  predicate Fits(c: Chunk, length: nat, unit: nat)
    requires unit > 0
  {
    c.begin >= 0 && AlignUp(c.begin, unit) + length <= c.end
  }

  /** A chunk has room exactly when `length` bytes from some multiple of `unit` on are inside it. */
  lemma FitsIff(c: Chunk, length: nat, unit: nat)
    requires unit > 0 && c.begin >= 0
    ensures Fits(c, length, unit) <==> exists a: nat :: Aligned(a, unit) && c.begin <= a && a + length <= c.end
  {
    AlignBounds(c.begin, unit);
    forall a: nat | Aligned(a, unit) && c.begin <= a
      ensures AlignUp(c.begin, unit) <= a
    {
      if a < AlignUp(c.begin, unit) {
        NextMultiple(a, AlignUp(c.begin, unit), unit);
      }
    }
  }

  lemma AlignedTrans(a: nat, unit: nat, size: nat)
    requires unit > 0 && size > 0 && Aligned(a, unit) && Aligned(unit, size)
    ensures Aligned(a, size)
  {
    AlignedIs(a, unit);
    AlignedIs(unit, size);
    var q, r := a / unit, unit / size;
    assert a == q * (r * size) == (q * r) * size;
    MultipleMod(q * r, size);
    AlignedIs(a, size);
  }

  lemma AlignedSum(a: nat, b: nat, size: nat)
    requires size > 0 && Aligned(a, size) && Aligned(b, size)
    ensures Aligned(a + b, size)
  {
    AlignedIs(a, size);
    AlignedIs(b, size);
    assert a + b == (a / size + b / size) * size;
    MultipleMod(a / size + b / size, size);
    AlignedIs(a + b, size);
  }

  lemma AlignedProduct(n: nat, size: nat)
    requires size > 0
    ensures Aligned(n * size, size) && (n > 0 ==> n * size > 0)
  {
    MultipleMod(n, size);
    AlignedIs(n * size, size);
    if n > 0 {
      MulPositive(n, size);
    }
  }

  /** The memory the allocation takes from a chunk with enough room. */
  lemma FitsPart(c: Chunk, length: nat, unit: nat, size: nat, start: int)
    requires unit > 0 && size > 0 && length > 0 && Aligned(unit, size) && Aligned(length, size) && WfChunk(c, size)
    requires Fits(c, length, unit)
    requires start == AlignUp(c.begin, unit)
    ensures PartOf(c, start, start + length, size) && Aligned(start, unit)
  {
    AlignBounds(c.begin, unit);
    AlignedTrans(start, unit, size);
    AlignedSum(start, length, size);
  }

  // ---- New pools, and pools that end ----

  const EMPTY: Lists := Lists([], [])

  lemma EmptyStack(size: nat)
    requires size > 0
    ensures Stack(EMPTY, size) == [] && WfLists(EMPTY, size)
  {
  }

  /** A new pool is added; it has the lists `l` that no other pool has. */
  ghost function Append(h: Heap, pool: Pool, l: Lists): Heap {
    h.(pools := h.pools + [pool], lists := h.lists + [l])
  }

  lemma AddPool(h: Heap, pool: Pool, l: Lists, free: multiset<int>)
    requires Linked(h, -1) && RepPool(h.ram, pool, l) && WfLists(l, h.size)
    requires pool.fallback.Fallback? ==> pool.fallback.pool < |h.pools|
    requires free == h.free + multiset(Stack(l, h.size)) && NoDup(free)
    ensures Linked(Append(h, pool, l).(free := free), -1)
  {
    assert Unfold(0);
    var g := Append(h, pool, l).(free := free);
    forall i | 0 <= i < |g.pools|
      ensures WfLists(g.lists[i], g.size) && (g.pools[i].fallback.Fallback? ==> g.pools[i].fallback.pool < i)
      ensures RepPool(g.ram, g.pools[i], g.lists[i])
    {
      if i < |h.pools| {
        assert g.lists[i] == h.lists[i] && g.pools[i] == h.pools[i];
      }
    }
    TotalSnoc(h.lists, l, h.size);
    assert LinkedLists(g, -1);
  }

  /** A pool whose lists were taken away. */
  lemma ClearPool(h: Heap, skip: int, p: nat)
    requires Linked(h, skip) && p < |h.pools| && (skip == -1 || (skip == p && h.lists[p] == EMPTY))
    ensures Linked(Set(h, h.ram, p, Pool(0, 0, NoFallback), EMPTY, h.free - multiset(Stack(h.lists[p], h.size))), -1)
  {
    EmptyStack(h.size);
    Shrinks(h, skip, p, EMPTY, multiset(Stack(h.lists[p], h.size)));
    var free := h.free - multiset(Stack(h.lists[p], h.size));
    var g := Set(h, h.ram, p, Pool(0, 0, NoFallback), EMPTY, free);
    assert Unfold(0);
    forall i | 0 <= i < |g.pools|
      ensures WfLists(g.lists[i], g.size) && (g.pools[i].fallback.Fallback? ==> g.pools[i].fallback.pool < i)
      ensures RepPool(g.ram, g.pools[i], g.lists[i])
    {
      if i != p {
        assert g.lists[i] == h.lists[i] && g.pools[i] == h.pools[i];
      }
    }
    assert LinkedLists(g, -1);
  }

  /** The lists of pool `from` are moved to a new pool. */
  lemma MovePool(h: Heap, from: nat)
    requires Linked(h, -1) && from < |h.pools|
    ensures Linked(Heap(h.size, h.ram, h.pools[from := Pool(0, 0, NoFallback)] + [h.pools[from]],
                        h.lists[from := EMPTY] + [h.lists[from]], h.free), -1)
  {
    var s := multiset(Stack(h.lists[from], h.size));
    PoolFacts(h, -1, from);
    PoolRep(h, -1, from);
    FreeNoDup(h, -1);
    ClearPool(h, -1, from);
    var g := Set(h, h.ram, from, Pool(0, 0, NoFallback), EMPTY, h.free - s);
    assert h.free - s + s == h.free;
    AddPool(g, h.pools[from], h.lists[from], h.free);
  }

  /** Entry or chunk at the front of the lists of pool `p` is detached, while the pool is ending. */
  lemma Detach(h: Heap, p: nat, l: Lists, xs: multiset<int>)
    requires Linked(h, p) && p < |h.pools| && WfLists(l, h.size)
    requires multiset(Stack(l, h.size)) + xs == multiset(Stack(h.lists[p], h.size))
    ensures Linked(Set(h, h.ram, p, h.pools[p], l, h.free - xs), p) && xs <= h.free && h.free - xs + xs == h.free
    ensures forall x :: x in xs ==> x !in h.free - xs
  {
    Shrinks(h, p, p, l, xs);
    ChangePool(h, h.ram, p, p, h.pools[p], l, h.free - xs, {});
    FreeNoDup(h, p);
    forall x | x in xs
      ensures x !in h.free - xs
    {
      assert h.free[x] <= 1;
    }
  }

  lemma Weaken(h: Heap, p: nat)
    requires Linked(h, -1)
    ensures Linked(h, p)
  {
    assert Unfold(0);
    assert LinkedLists(h, p);
  }

  lemma KeepsUsedTrans(m2: Ram, m1: Ram, m: Ram, free: multiset<int>, size: nat)
    requires size > 0 && KeepsUsed(m1, m, free, size) && KeepsUsed(m2, m1, free, size)
    ensures KeepsUsed(m2, m, free, size)
  {
    assert Unfold(0);
    forall a: int | EntryOf(a, size) !in free
      ensures Read(m2, a) == Read(m, a)
    {
      assert Read(m1, a) == Read(m, a);
    }
    assert SameUsed(m2, m, free, size);
  }

  /** Lists of pool `p`, which is ending, that are linked from local variables. */
  ghost predicate Detached(h: Heap, p: nat, entry: int, chunk: int) {
    p < |h.pools| && Linked(h, p) && RepPool(h.ram, Pool(entry, chunk, NoFallback), h.lists[p])
  }

  ghost predicate OthersKept(ls': seq<Lists>, ls: seq<Lists>, p: nat, q: nat) {
    |ls'| == |ls| && forall i :: 0 <= i < |ls| && i != p && i != q ==> ls'[i] == ls[i]
  }

  lemma FirstEntry(h: Heap, p: nat, entry: int, chunk: int)
    requires Detached(h, p, entry, chunk) && entry != 0
    ensures h.lists[p].entries != [] && h.lists[p].entries[0] == entry && WfEntry(entry, h.size)
    ensures var l := Lists(h.lists[p].entries[1..], h.lists[p].chunks);
            && WfLists(l, h.size) && RepPool(h.ram, Pool(Read(h.ram, entry), chunk, NoFallback), l)
            && multiset(Stack(l, h.size)) + multiset{entry} == multiset(Stack(h.lists[p], h.size))
  {
    PoolRep(h, p, p);
    EntriesPop(h.ram, entry, h.lists[p].entries);
    StackPop(h.lists[p], h.size);
  }

  /** The first entry of pool `p`, which is ending, is taken off its list. */
  lemma MoveEntry(h: Heap, p: nat, entry: int, chunk: int)
    requires Detached(h, p, entry, chunk) && entry != 0
    ensures h.lists[p].entries != [] && h.lists[p].entries[0] == entry && WfEntry(entry, h.size)
    ensures var l := Lists(h.lists[p].entries[1..], h.lists[p].chunks);
            var g := Set(h, h.ram, p, h.pools[p], l, h.free - multiset{entry});
            Detached(g, p, Read(h.ram, entry), chunk) && entry !in g.free && entry in h.free
              && g.free + multiset{entry} == h.free
  {
    FirstEntry(h, p, entry, chunk);
    Detach(h, p, Lists(h.lists[p].entries[1..], h.lists[p].chunks), multiset{entry});
  }

  lemma AlignedFixed(a: nat, size: nat)
    requires size > 0 && Aligned(a, size)
    ensures AlignUp(a, size) == a && AlignDown(a, size) == a
  {
    AlignBounds(a, size);
    if AlignDown(a, size) < a {
      NextMultiple(AlignDown(a, size), a, size);
    }
    if a < AlignUp(a, size) {
      NextMultiple(a, AlignUp(a, size), size);
    }
  }

  lemma FirstChunkOf(h: Heap, p: nat, chunk: int)
    requires Detached(h, p, 0, chunk) && chunk != 0
    ensures h.lists[p].chunks != [] && h.lists[p].chunks[0] == Chunk(chunk, Read(h.ram, chunk + 8))
    ensures WfChunk(h.lists[p].chunks[0], h.size)
    ensures var l := Lists(h.lists[p].entries, h.lists[p].chunks[1..]);
            && WfLists(l, h.size) && RepPool(h.ram, Pool(0, Read(h.ram, chunk), NoFallback), l)
            && multiset(Stack(l, h.size)) + multiset(Run(chunk, Read(h.ram, chunk + 8), h.size))
              == multiset(Stack(h.lists[p], h.size))
  {
    PoolRep(h, p, p);
    var cs := h.lists[p].chunks;
    ChunksPop(h.ram, chunk, cs);
    StackChunk(h.lists[p].entries, cs[0], cs[1..], h.size);
    assert [cs[0]] + cs[1..] == cs;
  }

  /** The first chunk of pool `p`, which is ending, is taken off its list. */
  lemma MoveChunk(h: Heap, p: nat, chunk: int)
    requires Detached(h, p, 0, chunk) && chunk != 0
    ensures h.lists[p].chunks != [] && h.lists[p].chunks[0] == Chunk(chunk, Read(h.ram, chunk + 8))
    ensures WfChunk(h.lists[p].chunks[0], h.size)
    ensures var c := h.lists[p].chunks[0];
            var xs := multiset(Run(c.begin, c.end, h.size));
            var g := Set(h, h.ram, p, h.pools[p], Lists(h.lists[p].entries, h.lists[p].chunks[1..]), h.free - xs);
            && Detached(g, p, 0, Read(h.ram, chunk)) && g.free + xs == h.free && chunk in h.free && chunk !in g.free
            && forall x :: x in Run(c.begin, c.end, h.size) ==> x !in g.free
  {
    FirstChunkOf(h, p, chunk);
    var c := h.lists[p].chunks[0];
    var r := Run(c.begin, c.end, h.size);
    Detach(h, p, Lists(h.lists[p].entries, h.lists[p].chunks[1..]), multiset(r));
    RunHead(c.begin, c.end, h.size);
    assert forall x :: x in r ==> x in multiset(r);
  }

  lemma NoChunks(h: Heap, p: nat)
    requires Detached(h, p, 0, 0)
    ensures h.lists[p] == EMPTY
  {
    PoolRep(h, p, p);
  }

  lemma NoEntries(h: Heap, p: nat, chunk: int)
    requires Detached(h, p, 0, chunk)
    ensures h.lists[p].entries == []
  {
    PoolRep(h, p, p);
  }

  /** The lists of the ending pool are not affected. */
  lemma DetachedFrame(h: Heap, g: Heap, p: nat, entry: int, chunk: int, x: int)
    requires Detached(h, p, entry, chunk) && Linked(g, p) && g.size == h.size && |g.pools| == |h.pools|
    requires g.lists[p] == h.lists[p]
    requires WritesHeaders(g.ram, h.ram, {x}) && Aligned(x, h.size) && x !in h.free
    ensures Detached(g, p, entry, chunk)
  {
    PoolFacts(h, p, p);
    assert x !in multiset(Stack(h.lists[p], h.size));
    PoolFrame(h.ram, g.ram, Pool(entry, chunk, NoFallback), h.lists[p], {x}, h.size);
  }

  /** `length` bytes from `start` on were taken out of chunk `k` of pool `p`, the first chunk with
      room for them. */
  ghost predicate Carries(g: Heap, h: Heap, p: nat, k: nat, length: nat, unit: nat, start: int) {
    Linked(g, -1) && g.size == h.size
      && forall u {:trigger Unfold(u)} :: Unfold(u) ==> FirstFit(g, h, p, k, length, unit, start)
  }

  ghost predicate FirstFit(g: Heap, h: Heap, p: nat, k: nat, length: nat, unit: nat, start: int) {
    && h.size > 0 && unit > 0 && p < |h.lists| && k < |h.lists[p].chunks|
    && g.lists == h.lists[p := CarvedLists(h.lists[p], k, start, start + length)]
    && Fits(h.lists[p].chunks[k], length, unit)
    && (forall j :: 0 <= j < k ==> !Fits(h.lists[p].chunks[j], length, unit))
    && start > 0 && start == AlignUp(h.lists[p].chunks[k].begin, unit) && Aligned(start, unit)
    && g.free + multiset(Run(start, start + length, h.size)) == h.free && KeepsUsed(g.ram, h.ram, g.free, h.size)
  }

  /** The writes that take the part from `start` to `stop` of a chunk lead to `m'` and `head'`. */
  ghost predicate CarveDone(m': Ram, head': int, m: Ram, head: int, prev: Prev, chunk: int, start: int, stop: int,
                            size: nat) {
    forall u {:trigger Unfold(u)} :: Unfold(u) ==> (m', head') == CarveWrites(m, head, prev, chunk, start, stop, size)
  }

  lemma CarvePart(h: Heap, p: nat, prev: Prev, k: nat, start: int, stop: int, m: Ram, head: int)
    requires Linked(h, -1) && p < |h.pools| && k < |h.lists[p].chunks|
    requires PartOf(h.lists[p].chunks[k], start, stop, h.size)
    requires prev == if k == 0 then ListHead else NextOf(h.lists[p].chunks[k - 1].begin)
    requires CarveDone(m, head, h.ram, h.pools[p].chunkList, prev, h.lists[p].chunks[k].begin, start, stop, h.size)
    ensures CarvedRam(m, h.ram, h.lists[p].chunks, k, start, stop)
    ensures head == CarvedHead(h.pools[p].chunkList, h.lists[p].chunks, k, start, stop)
  {
    var l := h.lists[p];
    PoolFacts(h, -1, p);
    NoDupTail(Stack(l, h.size), l.entries, ChunkEntries(l.chunks, h.size));
    CarveWritesRight(h.ram, h.pools[p].chunkList, prev, l.chunks, k, start, stop, h.size);
    assert Unfold(0);
  }

  lemma CarveFit(h: Heap, p: nat, prev: Prev, k: nat, length: nat, unit: nat, start: int, m: Ram, head: int)
    requires Linked(h, -1) && p < |h.pools| && k < |h.lists[p].chunks| && length > 0 && unit > 0
    requires Aligned(length, h.size) && Aligned(unit, h.size)
    requires Fits(h.lists[p].chunks[k], length, unit)
             && forall j :: 0 <= j < k ==> !Fits(h.lists[p].chunks[j], length, unit)
    requires start == AlignUp(h.lists[p].chunks[k].begin, unit)
    requires prev == if k == 0 then ListHead else NextOf(h.lists[p].chunks[k - 1].begin)
    requires CarveDone(m, head, h.ram, h.pools[p].chunkList, prev, h.lists[p].chunks[k].begin, start, start + length,
                       h.size)
    ensures Carries(Set(h, m, p, h.pools[p].(chunkList := head), CarvedLists(h.lists[p], k, start, start + length),
                        h.free - multiset(Run(start, start + length, h.size))), h, p, k, length, unit, start)
  {
    PoolRep(h, -1, p);
    FitsPart(h.lists[p].chunks[k], length, unit, h.size, start);
    var g := Set(h, m, p, h.pools[p].(chunkList := head), CarvedLists(h.lists[p], k, start, start + length),
                 h.free - multiset(Run(start, start + length, h.size)));
    CarveTake(h, g, p, prev, k, start, start + length, m, head);
    assert FirstFit(g, h, p, k, length, unit, start);
  }

  lemma CarveTake(h: Heap, g: Heap, p: nat, prev: Prev, k: nat, start: int, stop: int, m: Ram, head: int)
    requires Linked(h, -1) && p < |h.pools| && k < |h.lists[p].chunks|
    requires PartOf(h.lists[p].chunks[k], start, stop, h.size)
    requires prev == if k == 0 then ListHead else NextOf(h.lists[p].chunks[k - 1].begin)
    requires CarveDone(m, head, h.ram, h.pools[p].chunkList, prev, h.lists[p].chunks[k].begin, start, stop, h.size)
    requires g == Set(h, m, p, h.pools[p].(chunkList := head), CarvedLists(h.lists[p], k, start, stop),
                      h.free - multiset(Run(start, stop, h.size)))
    ensures Linked(g, -1) && g.free + multiset(Run(start, stop, h.size)) == h.free
    ensures KeepsUsed(g.ram, h.ram, g.free, h.size)
  {
    CarvePart(h, p, prev, k, start, stop, m, head);
    TakePart(h, m, p, k, start, stop);
  }

  /** The `length` bytes from `start` on, at a multiple of `unit`, are not free any more. */
  ghost predicate TookRun(g: Heap, h: Heap, length: nat, unit: nat, start: int) {
    && g.size == h.size > 0 && unit > 0 && start > 0 && Aligned(start, unit)
    && g.free + multiset(Run(start, start + length, h.size)) == h.free && KeepsUsed(g.ram, h.ram, g.free, h.size)
  }

  lemma CarriesFacts(g: Heap, h: Heap, p: nat, k: nat, length: nat, unit: nat, start: int)
    requires Carries(g, h, p, k, length, unit, start)
    ensures TookRun(g, h, length, unit, start)
  {
    assert Unfold(0);
  }

  ghost predicate NoneFits(cs: seq<Chunk>, length: nat, unit: nat)
    requires unit > 0
  {
    forall j :: 0 <= j < |cs| ==> !Fits(cs[j], length, unit)
  }

  /** No chunk of the pool or its fallbacks has room. */
  ghost predicate NoRoom(h: Heap, p: nat, length: nat, unit: nat)
    requires unit > 0 && p < |h.lists| == |h.pools|
  {
    && NoneFits(h.lists[p].chunks, length, unit)
    && (h.pools[p].fallback.Fallback? && h.pools[p].fallback.pool < p ==>
          NoRoom(h, h.pools[p].fallback.pool, length, unit))
  }

  /** Pools from `p` on down to `q` have no room, if `q` and its fallbacks have none. */
  ghost predicate NoRoomTo(h: Heap, p: nat, q: nat, length: nat, unit: nat)
    requires unit > 0 && p < |h.lists| == |h.pools| && q < |h.lists|
  {
    forall u {:trigger Unfold(u)} :: Unfold(u) ==> (NoRoom(h, q, length, unit) ==> NoRoom(h, p, length, unit))
  }

  lemma NoRoomStep(h: Heap, p: nat, q: nat, length: nat, unit: nat)
    requires unit > 0 && p < |h.lists| == |h.pools| && q < |h.lists| && NoRoomTo(h, p, q, length, unit)
    requires NoneFits(h.lists[q].chunks, length, unit)
    ensures h.pools[q].fallback.NoFallback? ==> NoRoom(h, p, length, unit)
    ensures h.pools[q].fallback.Fallback? && h.pools[q].fallback.pool < q ==>
              NoRoomTo(h, p, h.pools[q].fallback.pool, length, unit)
  {
    assert Unfold(0);
  }

  // ---- Chains of pools ----

  /** The free entries a pool can hand out: its own, then those of its fallbacks. */
  ghost function Chain(h: Heap, p: nat): seq<int>
    requires h.size > 0 && p < |h.lists| == |h.pools|
  {
    Stack(h.lists[p], h.size) +
    match h.pools[p].fallback
    case NoFallback => []
    case Fallback(q) => if q < p then Chain(h, q) else []
  }

  /** The pools from `p` down to `q` exclusive have nothing. */
  ghost predicate EmptyTo(h: Heap, p: nat, q: nat)
    requires h.size > 0 && p < |h.lists| == |h.pools|
  {
    p == q || (Stack(h.lists[p], h.size) == [] && h.pools[p].fallback.Fallback? && h.pools[p].fallback.pool < p
               && EmptyTo(h, h.pools[p].fallback.pool, q))
  }

  lemma {:induction false} EmptyChain(h: Heap, p: nat, q: nat)
    requires h.size > 0 && p < |h.lists| == |h.pools| && EmptyTo(h, p, q)
    ensures q <= p && Chain(h, p) == Chain(h, q)
    ensures Stack(h.lists[q], h.size) == [] && h.pools[q].fallback.Fallback? && h.pools[q].fallback.pool < q ==>
              EmptyTo(h, p, h.pools[q].fallback.pool)
  {
    if p != q {
      EmptyChain(h, h.pools[p].fallback.pool, q);
    }
  }

  /** The fallbacks of the pools up to `p` are the same. */
  ghost predicate SameLinksTo(g: Heap, h: Heap, p: nat) {
    |h.lists| == |h.pools| && |g.lists| == |g.pools| && p < |h.lists| && p < |g.lists| && g.size == h.size > 0
    && forall i :: 0 <= i <= p ==> g.pools[i].fallback == h.pools[i].fallback
  }

  /** Putting something in front of a pool's entries is putting it in front of the chain. */
  lemma ChainPush(g: Heap, h: Heap, p: nat, xs: seq<int>)
    requires SameLinksTo(g, h, p) && forall i :: 0 <= i < p ==> g.lists[i] == h.lists[i]
    requires g.lists[p] == Lists(xs + h.lists[p].entries, h.lists[p].chunks)
    ensures Chain(g, p) == xs + Chain(h, p)
  {
    if h.pools[p].fallback.Fallback? && h.pools[p].fallback.pool < p {
      ChainBelow(g, h, h.pools[p].fallback.pool);
    }
  }

  /** Chains depend on older pools only. */
  lemma {:induction false} ChainBelow(g: Heap, h: Heap, p: nat)
    requires SameLinksTo(g, h, p) && forall i :: 0 <= i <= p ==> g.lists[i] == h.lists[i]
    ensures Chain(g, p) == Chain(h, p)
  {
    if h.pools[p].fallback.Fallback? && h.pools[p].fallback.pool < p {
      ChainBelow(g, h, h.pools[p].fallback.pool);
    }
  }

  /** Taking the first entry of the first pool that has one is taking the first of the chain. */
  lemma {:induction false} ChainPop(g: Heap, h: Heap, p: nat, q: nat, ret: int)
    requires g.size == h.size > 0 && p < |h.lists| == |h.pools| && EmptyTo(h, p, q) && SameLinks(g.pools, h.pools)
    requires q < |h.lists| == |g.lists| && g.lists == h.lists[q := g.lists[q]]
    requires Stack(h.lists[q], h.size) == [ret] + Stack(g.lists[q], h.size)
    ensures Chain(h, p) == [ret] + Chain(g, p)
  {
    if p == q {
      if h.pools[p].fallback.Fallback? && h.pools[p].fallback.pool < p {
        ChainBelow(g, h, h.pools[p].fallback.pool);
      }
    } else {
      EmptyChain(h, p, q);
      EmptyChain(h, h.pools[p].fallback.pool, q);
      ChainPop(g, h, h.pools[p].fallback.pool, q, ret);
    }
  }

  /** Pools of entries of one size. Pools are named by the order in which they were initialised. */
  class Pools {
    const size: nat
    var ram: Ram
    var pools: seq<Pool>
    ghost var lists: seq<Lists>
    ghost var free: multiset<int>

    ghost function AsHeap(): Heap
      reads this
    {
      Heap(size, ram, pools, lists, free)
    }

    ghost predicate Valid()
      reads this
    {
      Linked(AsHeap(), -1)
    }

    /** Memory without pools. An entry has room for the header of a chunk. */
    constructor (size: nat)
      requires size >= 16
      ensures Valid() && this.size == size && pools == [] && free == multiset{}
    {
      this.size := size;
      ram, pools, lists, free := map[], [], [], multiset{};
      new;
      assert LinkedLists(AsHeap(), -1);
    }

    /** Assigns the memory and the lists of pool `p`. */
    method Store(m: Ram, p: nat, pool: Pool, ghost l: Lists, ghost f: multiset<int>)
      requires p < |pools| == |lists|
      modifies `ram, `pools, `lists, `free
      ensures AsHeap() == Set(old(AsHeap()), m, p, pool, l, f)
    {
      ram := m;
      pools := pools[p := pool];
      lists := lists[p := l];
      free := f;
    }

    /** `mpool_free`. */
    method Free(p: nat, x: int, ghost skip: int)
      requires Linked(AsHeap(), skip) && p < |pools| && p != skip && WfEntry(x, size) && x !in free
      modifies `ram, `pools, `lists, `free
      ensures Linked(AsHeap(), skip) && WritesHeaders(ram, old(ram), {x})
      ensures AsHeap()
              == Set(old(AsHeap()), ram, p, old(pools)[p].(entryList := x), Pushed(old(lists)[p], x),
                     old(free) + multiset{x})
      ensures Chain(AsHeap(), p) == [x] + old(Chain(AsHeap(), p))
    {
      PutEntry(AsHeap(), skip, p, x);
      Store(ram[x := pools[p].entryList], p, pools[p].(entryList := x), Pushed(lists[p], x), free + multiset{x});
      ChainPush(AsHeap(), old(AsHeap()), p, [x]);
    }

    /** `mpool_add_chunk`. The caller gives up the memory from `begin` on. */
    method AddChunk(p: nat, begin: nat, length: nat, ghost skip: int) returns (ok: bool)
      requires Linked(AsHeap(), skip) && p < |pools| && p != skip && begin > 0
      requires forall x :: x in Run(AlignUp(begin, size), AlignDown(begin + length, size), size) ==> x !in free
      modifies `ram, `pools, `lists, `free
      ensures ok <==> AlignUp(begin, size) < AlignDown(begin + length, size)
      ensures Linked(AsHeap(), skip) && WritesHeaders(ram, old(ram), {AlignUp(begin, size)})
      ensures !ok ==> AsHeap() == old(AsHeap())
      ensures ok ==> var c := Chunk(AlignUp(begin, size), AlignDown(begin + length, size));
                     AsHeap() == Set(old(AsHeap()), ram, p, old(pools)[p].(chunkList := c.begin),
                                     WithChunk(old(lists)[p], c),
                                     old(free) + multiset(Run(c.begin, c.end, size)))
    {
      var newBegin := AlignUp(begin, size);
      var newEnd := AlignDown(begin + length, size);
      AlignBounds(begin, size);
      AlignBounds(begin + length, size);
      if newBegin < newEnd {
        NextMultiple(newBegin, newEnd, size);
      }
      if newBegin >= newEnd || newEnd - newBegin < size {
        return false;
      }
      var m' := ram[newBegin + 8 := newEnd][newBegin := pools[p].chunkList];
      PutChunk(AsHeap(), m', skip, p, Chunk(newBegin, newEnd));
      Store(m', p, pools[p].(chunkList := newBegin), WithChunk(lists[p], Chunk(newBegin, newEnd)),
            free + multiset(Run(newBegin, newEnd, size)));
      return true;
    }

    /** A chunk that is aligned is added as it is. */
    method AddAligned(p: nat, begin: int, length: int, ghost c: Chunk, ghost skip: int)
      requires Linked(AsHeap(), skip) && p < |pools| && p != skip && WfChunk(c, size) && begin == c.begin
      requires length == c.end - c.begin
      requires forall x :: x in Run(c.begin, c.end, size) ==> x !in free
      modifies `ram, `pools, `lists, `free
      ensures Linked(AsHeap(), skip) && WritesHeaders(ram, old(ram), {c.begin})
      ensures AsHeap() == Set(old(AsHeap()), ram, p, old(pools)[p].(chunkList := c.begin), WithChunk(old(lists)[p], c),
                              old(free) + multiset(Run(c.begin, c.end, size)))
    {
      AlignedFixed(c.begin, size);
      AlignedFixed(c.end, size);
      var added := AddChunk(p, begin, length, skip);
    }

    /** `mpool_alloc_no_fallback`. Null is zero. */
    method AllocNoFallback(p: nat) returns (ret: int)
      requires Valid() && p < |pools|
      modifies `ram, `pools, `lists, `free
      ensures Valid() && SameLinks(pools, old(pools))
      ensures ret == 0 ==> Stack(lists[p], size) == [] && AsHeap() == old(AsHeap())
      ensures ret != 0 ==> Took(AsHeap(), old(AsHeap()), p, ret)
    {
      var pool := pools[p];
      if pool.entryList != 0 {
        ret := pool.entryList;
        TakeEntry(AsHeap(), p);
        Store(ram, p, pool.(entryList := Read(ram, ret)), Lists(lists[p].entries[1..], lists[p].chunks),
              free - multiset{ret});
      } else if pool.chunkList == 0 {
        NothingFree(AsHeap(), p);
        ret := 0;
      } else {
        ret := pool.chunkList;
        var newChunk := ret + size;
        if newChunk >= Read(ram, ret + 8) {
          TakeLast(AsHeap(), p);
          Store(ram, p, pool.(chunkList := Read(ram, ret)), AfterFirst(lists[p], size), free - multiset{ret});
        } else {
          var m' := ram[newChunk := Read(ram, ret)][newChunk + 8 := Read(ram, ret + 8)];
          TakeNext(AsHeap(), m', p, newChunk);
          Store(m', p, pool.(chunkList := newChunk), AfterFirst(lists[p], size), free - multiset{ret});
        }
      }
    }

    /** `mpool_alloc`. */
    method Alloc(p: nat) returns (ret: int)
      requires Valid() && p < |pools|
      modifies `ram, `pools, `lists, `free
      ensures Valid() && SameLinks(pools, old(pools))
      ensures ret == 0 ==> Chain(AsHeap(), p) == [] && AsHeap() == old(AsHeap())
      ensures ret != 0 ==> old(Chain(AsHeap(), p)) == [ret] + Chain(AsHeap(), p)
      ensures ret != 0 ==> ret in old(free) && free == old(free) - multiset{ret} && KeepsUsed(ram, old(ram), free, size)
    {
      var q: nat := p;
      while true
        invariant AsHeap() == old(AsHeap()) && q < |pools| && EmptyTo(AsHeap(), p, q)
        decreases q
      {
        PoolRep(AsHeap(), -1, q);
        EmptyChain(AsHeap(), p, q);
        ghost var h := AsHeap();
        ret := AllocNoFallback(q);
        if ret != 0 {
          assert Unfold(0);
          ChainPop(AsHeap(), h, p, q, ret);
          return;
        }
        if pools[q].fallback.NoFallback? {
          return;
        }
        q := pools[q].fallback.pool;
      }
    }

    /** `mpool_alloc_contiguous_no_fallback`. Takes `count` entries from the first chunk that has
        room for them at an address aligned to `align` entries. `k` is that chunk. */
    method AllocContiguousNoFallback(p: nat, count: nat, align: nat) returns (ret: int, ghost k: nat)
      requires Valid() && p < |pools| && count > 0 && align > 0
      modifies `ram, `pools, `lists, `free
      ensures Valid() && SameLinks(pools, old(pools)) && align * size > 0
      ensures ret == 0 ==> AsHeap() == old(AsHeap()) && NoneFits(lists[p].chunks, count * size, align * size)
      ensures ret != 0 ==> Carries(AsHeap(), old(AsHeap()), p, k, count * size, align * size, ret)
    {
      AlignedProduct(align, size);
      AlignedProduct(count, size);
      ret, k := TakeFirstFit(p, count * size, align * size);
    }

    /** In bytes. */
    method TakeFirstFit(p: nat, length: nat, unit: nat) returns (ret: int, ghost k: nat)
      requires Valid() && p < |pools| && length > 0 && unit > 0 && Aligned(length, size) && Aligned(unit, size)
      modifies `ram, `pools, `lists, `free
      ensures Valid() && SameLinks(pools, old(pools))
      ensures ret == 0 ==> AsHeap() == old(AsHeap()) && NoneFits(lists[p].chunks, length, unit)
      ensures ret != 0 ==> Carries(AsHeap(), old(AsHeap()), p, k, length, unit, ret)
    {
      var prev, chunk;
      prev, chunk, ret, k := FindFit(p, length, unit);
      if ret != 0 {
        CarveOut(p, prev, chunk, ret, ret + length, k, length, unit);
      }
    }

    /** Finds the first chunk in which `length` bytes fit at a multiple of `unit`, and the link that
        leads to it. `ret` is zero if there is none. */
    method FindFit(p: nat, length: nat, unit: nat) returns (prev: Prev, chunk: int, ret: int, ghost k: nat)
      requires Valid() && p < |pools| && length > 0 && unit > 0
      ensures ret == 0 ==> NoneFits(lists[p].chunks, length, unit)
      ensures ret != 0 ==>
                k < |lists[p].chunks| && chunk == lists[p].chunks[k].begin && chunk >= 0 && ret == AlignUp(chunk, unit)
      ensures ret != 0 ==> Fits(lists[p].chunks[k], length, unit)
      ensures ret != 0 ==> forall j :: 0 <= j < k ==> !Fits(lists[p].chunks[j], length, unit)
      ensures ret != 0 ==> prev == if k == 0 then ListHead else NextOf(lists[p].chunks[k - 1].begin)
    {
      ghost var cs := lists[p].chunks;
      PoolRep(AsHeap(), -1, p);
      prev := ListHead;
      chunk := pools[p].chunkList;
      k := 0;
      while chunk != 0
        invariant k <= |cs| && chunk == ChunkAt(cs, k)
        invariant prev == if k == 0 then ListHead else NextOf(cs[k - 1].begin)
        invariant forall j :: 0 <= j < k ==> !Fits(cs[j], length, unit)
        decreases |cs| - k
      {
        assert WfChunk(cs[k], size) && ChunkLink(ram, cs, k);
        var start := AlignUp(chunk, unit);
        AlignBounds(chunk, unit);
        if start + length <= Read(ram, chunk + 8) {
          return prev, chunk, start, k;
        }
        prev := NextOf(chunk);
        chunk := Read(ram, chunk);
        k := k + 1;
      }
      ret := 0;
    }

    /** Takes the memory from `start` to `newChunk` out of chunk `k`. */
    method CarveOut(p: nat, prev: Prev, chunk: int, start: int, newChunk: int, ghost k: nat, ghost length: nat,
                    ghost unit: nat)
      requires Valid() && p < |pools| && length > 0 && unit > 0 && Aligned(length, size) && Aligned(unit, size)
      requires k < |lists[p].chunks| && chunk == lists[p].chunks[k].begin
      requires Fits(lists[p].chunks[k], length, unit)
               && forall j :: 0 <= j < k ==> !Fits(lists[p].chunks[j], length, unit)
      requires chunk >= 0 && start == AlignUp(chunk, unit) && newChunk == start + length
      requires prev == if k == 0 then ListHead else NextOf(lists[p].chunks[k - 1].begin)
      modifies `ram, `pools, `lists, `free
      ensures SameLinks(pools, old(pools)) && Carries(AsHeap(), old(AsHeap()), p, k, length, unit, start)
    {
      var m, head := Unlink(p, prev, chunk, start, newChunk);
      CarveFit(AsHeap(), p, prev, k, length, unit, start, m, head);
      Store(m, p, pools[p].(chunkList := head), CarvedLists(lists[p], k, start, newChunk),
            free - multiset(Run(start, newChunk, size)));
    }

    /** Cuts the bytes from `start` to `newChunk` out of a chunk: what is left of it on either side
        stays linked. */
    method Unlink(p: nat, prev: Prev, chunk: int, start: int, newChunk: int) returns (m: Ram, head: int)
      requires p < |pools|
      ensures CarveDone(m, head, ram, pools[p].chunkList, prev, chunk, start, newChunk, size)
    {
      m, head := ram, pools[p].chunkList;
      var link := Read(m, chunk);
      if newChunk != Read(ram, chunk + 8) {
        m := m[newChunk := Read(ram, chunk)][newChunk + 8 := Read(ram, chunk + 8)];
        link := newChunk;
      }
      m, head := SetPrev(m, head, prev, link);
      if start - chunk >= size {
        m := m[chunk := link];
        m, head := SetPrev(m, head, prev, chunk);
        m := m[chunk + 8 := start];
      }
    }

    static method SetPrev(m: Ram, head: int, prev: Prev, link: int) returns (m': Ram, head': int)
      ensures (m', head') == WritePrev(m, head, prev, link)
    {
      match prev {
        case ListHead => return m, link;
        case NextOf(q) => return m[q := link], head;
      }
    }

    /** `mpool_alloc_contiguous`. */
    method AllocContiguous(p: nat, count: nat, align: nat) returns (ret: int)
      requires Valid() && p < |pools| && count > 0 && align > 0
      modifies `ram, `pools, `lists, `free
      ensures Valid() && SameLinks(pools, old(pools)) && align * size > 0
      ensures ret == 0 ==> AsHeap() == old(AsHeap()) && NoRoom(AsHeap(), p, count * size, align * size)
      ensures ret != 0 ==> TookRun(AsHeap(), old(AsHeap()), count * size, align * size, ret)
    {
      AlignedProduct(align, size);
      AlignedProduct(count, size);
      ret := AllocBytes(p, count * size, align * size);
    }

    /** In bytes. */
    method AllocBytes(p: nat, length: nat, unit: nat) returns (ret: int)
      requires Valid() && p < |pools| && length > 0 && unit > 0 && Aligned(length, size) && Aligned(unit, size)
      modifies `ram, `pools, `lists, `free
      ensures Valid() && SameLinks(pools, old(pools))
      ensures ret == 0 ==> AsHeap() == old(AsHeap()) && NoRoom(AsHeap(), p, length, unit)
      ensures ret != 0 ==> TookRun(AsHeap(), old(AsHeap()), length, unit, ret)
    {
      var q: nat := p;
      while true
        invariant AsHeap() == old(AsHeap()) && q < |pools| && NoRoomTo(AsHeap(), p, q, length, unit)
        decreases q
      {
        PoolRep(AsHeap(), -1, q);
        ghost var k;
        ret, k := TakeFirstFit(q, length, unit);
        if ret != 0 {
          CarriesFacts(AsHeap(), old(AsHeap()), q, k, length, unit, ret);
          return;
        }
        NoRoomStep(AsHeap(), p, q, length, unit);
        if pools[q].fallback.NoFallback? {
          return;
        }
        q := pools[q].fallback.pool;
      }
    }

    /** `mpool_init`. */
    method Init() returns (p: nat)
      requires Valid()
      modifies `pools, `lists
      ensures Valid() && p == |old(pools)| && pools == old(pools) + [Pool(0, 0, NoFallback)]
      ensures lists == old(lists) + [EMPTY]
    {
      EmptyStack(size);
      assert free == free + multiset(Stack(EMPTY, size));
      FreeNoDup(AsHeap(), -1);
      AddPool(AsHeap(), Pool(0, 0, NoFallback), EMPTY, free);
      p := |pools|;
      pools := pools + [Pool(0, 0, NoFallback)];
      lists := lists + [EMPTY];
    }

    /** `mpool_init_with_fallback`: the new pool can hand out what the fallback can. */
    method InitWithFallback(fallback: nat) returns (p: nat)
      requires Valid() && fallback < |pools|
      modifies `pools, `lists
      ensures Valid() && p == |old(pools)| && pools == old(pools) + [Pool(0, 0, Fallback(fallback))]
      ensures lists == old(lists) + [EMPTY]
      ensures Chain(AsHeap(), p) == old(Chain(AsHeap(), fallback))
    {
      EmptyStack(size);
      assert free == free + multiset(Stack(EMPTY, size));
      FreeNoDup(AsHeap(), -1);
      AddPool(AsHeap(), Pool(0, 0, Fallback(fallback)), EMPTY, free);
      p := |pools|;
      pools := pools + [Pool(0, 0, Fallback(fallback))];
      lists := lists + [EMPTY];
      ChainBelow(AsHeap(), old(AsHeap()), fallback);
    }

    /** `mpool_init_from`: the new pool takes over everything `from` has. */
    method InitFrom(from: nat) returns (p: nat)
      requires Valid() && from < |pools|
      modifies `pools, `lists
      ensures Valid() && p == |old(pools)|
      ensures pools == old(pools)[from := Pool(0, 0, NoFallback)] + [old(pools)[from]]
      ensures lists == old(lists)[from := EMPTY] + [old(lists)[from]]
    {
      MovePool(AsHeap(), from);
      p := |pools|;
      var pool := pools[from];
      ghost var l := lists[from];
      pools := pools[from := Pool(0, 0, NoFallback)] + [pool];
      lists := lists[from := EMPTY] + [l];
    }

    /** What a step of ending pool `p` keeps: the free entries as a whole, used memory, and
        everything about pools other than the fallback. */
    twostate predicate Moving(p: nat, fallback: nat)
      reads this
    {
      && size > 0 && |pools| == |old(pools)| && |lists| == |old(lists)| && fallback < p < |pools| && p < |lists|
      && (forall i :: 0 <= i < |pools| && i != fallback ==> pools[i] == old(pools)[i])
      && pools[fallback].fallback == old(pools)[fallback].fallback && OthersKept(lists, old(lists), p, fallback)
      && free == old(free) && KeepsUsed(ram, old(ram), free, size)
    }

    /** The first loop of `mpool_fini`. */
    method FiniEntries(p: nat, fallback: nat)
      requires p < |pools| && Detached(AsHeap(), p, pools[p].entryList, pools[p].chunkList) && fallback < p
      modifies `ram, `pools, `lists, `free
      ensures Moving(p, fallback) && Detached(AsHeap(), p, 0, pools[p].chunkList)
      ensures lists[p] == Lists([], old(lists)[p].chunks)
      ensures lists[fallback]
              == Lists(Reversed(old(lists)[p].entries) + old(lists)[fallback].entries, old(lists)[fallback].chunks)
    {
      ghost var es, fs := lists[p].entries, lists[fallback];
      var entry := pools[p].entryList;
      ghost var k := 0;
      while entry != 0
        invariant k <= |es| && Moving(p, fallback) && Detached(AsHeap(), p, entry, pools[p].chunkList)
        invariant lists[p] == Lists(es[k..], old(lists)[p].chunks)
        invariant lists[fallback] == Lists(Reversed(es[..k]) + fs.entries, fs.chunks)
        decreases |es| - k
      {
        var ptr := entry;
        entry := Read(ram, entry);
        ghost var m := ram;
        FiniEntry(p, fallback, ptr, entry);
        KeepsUsedTrans(ram, m, old(ram), free, size);
        ReversedStep(es, k, fs.entries);
        k := k + 1;
      }
      NoEntries(AsHeap(), p, pools[p].chunkList);
      assert es[..k] == es;
    }

    /** Moves one entry of an ending pool. */
    method FiniEntry(p: nat, fallback: nat, ptr: int, ghost next: int)
      requires p < |pools| && Detached(AsHeap(), p, ptr, pools[p].chunkList) && fallback < p && ptr != 0
      requires next == Read(ram, ptr)
      modifies `ram, `pools, `lists, `free
      ensures Moving(p, fallback) && Detached(AsHeap(), p, next, pools[p].chunkList)
      ensures old(lists)[p].entries != [] && old(lists)[p].entries[0] == ptr
      ensures lists[p] == Lists(old(lists)[p].entries[1..], old(lists)[p].chunks)
      ensures lists[fallback] == Pushed(old(lists)[fallback], ptr)
    {
      MoveEntry(AsHeap(), p, ptr, pools[p].chunkList);
      Store(ram, p, pools[p], Lists(lists[p].entries[1..], lists[p].chunks), free - multiset{ptr});
      ghost var h := AsHeap();
      Free(fallback, ptr, p);
      DetachedFrame(h, AsHeap(), p, next, pools[p].chunkList, ptr);
      HeadersKeepUsed(ram, h.ram, {ptr}, free, size);
    }

    /** The second loop of `mpool_fini`. */
    method FiniChunks(p: nat, fallback: nat)
      requires p < |pools| && Detached(AsHeap(), p, 0, pools[p].chunkList) && fallback < p
      modifies `ram, `pools, `lists, `free
      ensures Moving(p, fallback) && Detached(AsHeap(), p, 0, 0) && lists[p] == EMPTY
      ensures lists[fallback]
              == Lists(old(lists)[fallback].entries, Reversed(old(lists)[p].chunks) + old(lists)[fallback].chunks)
    {
      ghost var cs, fs := lists[p].chunks, lists[fallback];
      NoEntries(AsHeap(), p, pools[p].chunkList);
      var chunk := pools[p].chunkList;
      ghost var k := 0;
      while chunk != 0
        invariant k <= |cs| && Moving(p, fallback) && Detached(AsHeap(), p, 0, chunk)
        invariant lists[p] == Lists([], cs[k..]) && lists[fallback] == Lists(fs.entries, Reversed(cs[..k]) + fs.chunks)
        decreases |cs| - k
      {
        var ptr := chunk;
        var length := Read(ram, chunk + 8) - chunk;
        chunk := Read(ram, chunk);
        ghost var m := ram;
        FiniChunk(p, fallback, ptr, length, chunk);
        KeepsUsedTrans(ram, m, old(ram), free, size);
        ReversedStep(cs, k, fs.chunks);
        k := k + 1;
      }
      NoChunks(AsHeap(), p);
      assert cs[..k] == cs;
    }

    /** Moves one chunk of an ending pool. */
    method FiniChunk(p: nat, fallback: nat, ptr: int, length: int, ghost next: int)
      requires p < |pools| && Detached(AsHeap(), p, 0, ptr) && fallback < p && ptr != 0
      requires next == Read(ram, ptr) && length == Read(ram, ptr + 8) - ptr
      modifies `ram, `pools, `lists, `free
      ensures Moving(p, fallback) && Detached(AsHeap(), p, 0, next)
      ensures old(lists)[p].chunks != [] && lists[p] == Lists(old(lists)[p].entries, old(lists)[p].chunks[1..])
      ensures lists[fallback] == WithChunk(old(lists)[fallback], old(lists)[p].chunks[0])
    {
      MoveChunk(AsHeap(), p, ptr);
      ghost var c := lists[p].chunks[0];
      Store(ram, p, pools[p], Lists(lists[p].entries, lists[p].chunks[1..]),
            free - multiset(Run(c.begin, c.end, size)));
      ghost var h := AsHeap();
      AddAligned(fallback, ptr, length, c, p);
      DetachedFrame(h, AsHeap(), p, 0, next, ptr);
      HeadersKeepUsed(ram, h.ram, {ptr}, free, size);
    }

    /** `mpool_fini`. All free memory of the pool goes to its fallback. */
    method Fini(p: nat)
      requires Valid() && p < |pools|
      modifies `ram, `pools, `lists, `free
      ensures Valid() && free == old(free) && KeepsUsed(ram, old(ram), free, size)
      ensures old(pools)[p].fallback.NoFallback? ==> AsHeap() == old(AsHeap())
      ensures old(pools)[p].fallback.Fallback? ==>
                var q := old(pools)[p].fallback.pool;
                && q < p < |pools| == |old(pools)| && p < |lists|
                && pools[p] == Pool(0, 0, NoFallback) && lists[p] == EMPTY && OthersKept(lists, old(lists), p, q)
                && lists[q] == Lists(Reversed(old(lists)[p].entries) + old(lists)[q].entries,
                                     Reversed(old(lists)[p].chunks) + old(lists)[q].chunks)
                && (old(lists)[p].chunks == [] ==>
                    Chain(AsHeap(), q) == Reversed(old(lists)[p].entries) + old(Chain(AsHeap(), q)))
    {
      if pools[p].fallback.NoFallback? {
        return;
      }
      PoolRep(AsHeap(), -1, p);
      Weaken(AsHeap(), p);
      var fallback := pools[p].fallback.pool;
      FiniEntries(p, fallback);
      ghost var m := ram;
      FiniChunks(p, fallback);
      KeepsUsedTrans(ram, m, old(ram), free, size);
      ClearPool(AsHeap(), p, p);
      EmptyStack(size);
      assert free - multiset(Stack(EMPTY, size)) == free;
      Store(ram, p, Pool(0, 0, NoFallback), EMPTY, free);
      if old(lists)[p].chunks == [] {
        FiniChain(AsHeap(), old(AsHeap()), p, fallback);
      }
    }
  }

  lemma FiniChain(g: Heap, h: Heap, p: nat, q: nat)
    requires g.size == h.size > 0 && q < p < |h.lists| == |h.pools| == |g.lists| == |g.pools|
    requires OthersKept(g.lists, h.lists, p, q)
    requires forall i :: 0 <= i < p ==> g.pools[i].fallback == h.pools[i].fallback
    requires g.lists[q] == Lists(Reversed(h.lists[p].entries) + h.lists[q].entries, h.lists[q].chunks)
    ensures Chain(g, q) == Reversed(h.lists[p].entries) + Chain(h, q)
  {
    ChainPush(g, h, q, Reversed(h.lists[p].entries));
  }
}
