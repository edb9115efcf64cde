/** Page tables changed in place (`src/mm.c`): the same walks as in MapLevel and Defrag, on rows of
    entries in memory, in the steps another CPU's TLB can observe. */
module Mm {
  import opened Arithmetic
  import opened Collections
  import opened PageTree
  import opened MapLevel
  import opened Defrag
  import opened IdentityMap
  import opened TableMemory
  import opened Tlb

  predicate IsPresent(v: Pte) {
    v != AbsentPte
  }

  /** `arch_mm_pte_attrs`. */
  function PteAttrs(v: Pte): Attrs {
    match v
    case AbsentPte => ABSENT_ATTRS
    case BlockPte(a) => a
    case TablePte(_) => TABLE_ATTRS
  }

  /** The first `i` entries do not stand in the way of merging the table. */
  ghost predicate MatchUpTo(es: seq<Entry>, i: nat)
    requires 0 < i <= |es|
  {
    forall k :: 1 <= k < i ==> MatchesFirst(es, k)
  }

  lemma MatchStep(es: seq<Entry>, fs: seq<Entry>, i: nat)
    requires 0 < i < |fs| == |es| && forall k :: 0 <= k < i ==> fs[k] == es[k]
    ensures MatchUpTo(fs, i + 1) <==> MatchUpTo(es, i) && MatchesFirst(fs, i)
  {
    assert forall k :: 1 <= k < i ==> MatchesFirst(fs, k) == MatchesFirst(es, k);
  }

  // ---- Walks by address ----

  /** `mm_index`. The root tables count as one table of `n` entries. */
  function Index(addr: nat, n: nat, s: nat): nat
    requires n > 0 && s > 0
  {
    (addr / s) % n
  }

  /** `mm_level_end`, for a table that spans `span` pages. */
  function LevelEnd(addr: nat, span: nat): nat
    requires span > 0
  {
    (addr / span + 1) * span
  }

  /** `mm_start_of_next_block`. */
  function StartOfNextBlock(addr: nat, s: nat): nat
    requires s > 0
  {
    (addr + s) / s * s
  }

  lemma MulPositive(n: nat, s: nat)
    requires n > 0 && s > 0
    ensures n * s > 0
  {
  }

  lemma IndexIsOffset(base: nat, begin: nat, n: nat, s: nat)
    requires n > 0 && s > 0 && n * s > 0 && base % (n * s) == 0 && base <= begin < base + n * s
    ensures Index(begin, n, s) == (begin - base) / s < n && LevelEnd(begin, n * s) == base + n * s
    ensures (begin - base) / s * s <= begin - base
  {
    var q := base / (n * s);
    var i, r := (begin - base) / s, (begin - base) % s;
    assert base == q * (n * s);
    DivModUnique(begin, n * s, q, begin - base);
    IndexInBounds(begin - base, n, s);
    assert begin == (q * n + i) * s + r by {
      assert q * (n * s) == (q * n) * s;
    }
    DivModUnique(begin, s, q * n + i, r);
    DivModUnique(q * n + i, n, q, i);
  }

  lemma NextBlock(base: nat, b: nat, j: nat, s: nat)
    requires s > 0 && base % s == 0 && base + j * s <= b < base + j * s + s
    ensures StartOfNextBlock(b, s) == base + (j + 1) * s
    ensures b % s == 0 <==> b == base + j * s
  {
    var q := base / s;
    assert base == q * s;
    assert b == (q + j) * s + (b - base - j * s);
    DivModUnique(b, s, q + j, b - base - j * s);
    assert b + s == (q + j + 1) * s + (b - base - j * s);
    DivModUnique(b + s, s, q + j + 1, b - base - j * s);
  }

  /** The entry that starts at a multiple of its size, below a table that does. */
  lemma AlignedBelow(base: nat, j: nat, n: nat, s: nat)
    requires n > 0 && s > 0 && n * s > 0 && base % (n * s) == 0
    ensures base % s == 0 && (base + j * s) % s == 0
  {
    var q := base / (n * s);
    assert base == (q * n) * s + 0 by {
      assert q * (n * s) == (q * n) * s;
    }
    DivModUnique(base, s, q * n, 0);
    assert base + j * s == (q * n + j) * s + 0;
    DivModUnique(base + j * s, s, q * n + j, 0);
  }

  /** Entries outside the range are passed over. */
  lemma {:induction false} SkipTo(es: seq<Entry>, j: nat, k: nat, level: nat, lo: nat, hi: nat, op: Op, commit: bool,
                                  pool: Pool)
    requires WfAll(es, level) && WfOp(op) && j <= k <= |es|
    requires forall i: nat :: j <= i < k ==> !Hit(i, level, lo, hi)
    ensures MapTable(es, j, level, lo, hi, op, commit, pool) == MapTable(es, k, level, lo, hi, op, commit, pool)
    decreases k - j
  {
    if j < k {
      SkipTo(es, j + 1, k, level, lo, hi, op, commit, pool);
    }
  }

  /** Mapping from entry `j` on leads to `r`. */
  ghost predicate MapsTo(es: seq<Entry>, j: nat, level: nat, lo: nat, hi: nat, op: Op, commit: bool, pool: Pool,
                         r: TableResult) {
    forall k {:trigger Unfold(k)} :: Unfold(k) ==>
      WfAll(es, level) && WfOp(op) && j <= |es| && r == MapTable(es, j, level, lo, hi, op, commit, pool)
  }

  /** Defragmenting from entry `j` on leads to `t`. */
  ghost predicate DefragsTo(es: seq<Entry>, j: nat, level: nat, pool: Pool, t: DefraggedTable) {
    forall k {:trigger Unfold(k)} :: Unfold(k) ==> WfAll(es, level) && j <= |es| && t == DefragTable(es, j, level, pool)
  }

  /** The walk starts at the entry that the range starts in. */
  lemma StartWalk(es: seq<Entry>, j: nat, level: nat, lo: nat, hi: nat, op: Op, commit: bool, pool: Pool,
                  r: TableResult)
    requires WfAll(es, level) && WfOp(op) && j <= |es| && j * Size(level) <= lo
    requires r == MapTable(es, 0, level, lo, hi, op, commit, pool)
    ensures MapsTo(es, j, level, lo, hi, op, commit, pool, r)
  {
    forall i: nat | i < j
      ensures !Hit(i, level, lo, hi)
    {
      MulStep(i, j, Size(level));
    }
    SkipTo(es, 0, j, level, lo, hi, op, commit, pool);
  }

  /** One entry of the walk. */
  lemma StepWalk(es: seq<Entry>, j: nat, level: nat, lo: nat, hi: nat, op: Op, commit: bool, pool: Pool, r: TableResult,
                 from: nat, to: nat, x: EntryResult)
    requires MapsTo(es, j, level, lo, hi, op, commit, pool, r) && j < |es| && Hit(j, level, lo, hi)
    requires Wf(es[j], level) && WfOp(op)
    requires from == ClipLo(lo, j, Size(level)) && to == ClipHi(hi, j, Size(level))
    requires x == MapEntry(es[j], level, from, to, op, commit, pool)
    ensures if x.ok then MapsTo(es[j := x.entry], j + 1, level, lo, hi, op, commit, x.pool, r)
            else r == TableResult(false, es[j := x.entry], x.pool)
  {
    assert Unfold(0);
  }

  /** The walk ends when the range ends. */
  lemma EndWalk(es: seq<Entry>, j: nat, level: nat, lo: nat, hi: nat, op: Op, commit: bool, pool: Pool, r: TableResult)
    requires MapsTo(es, j, level, lo, hi, op, commit, pool, r) && (hi <= j * Size(level) || hi <= lo)
    ensures r == TableResult(true, es, pool)
  {
    assert Unfold(0);
    forall i: nat | j <= i < |es|
      ensures !Hit(i, level, lo, hi)
    {
      assert j * Size(level) <= i * Size(level);
    }
    SkipTo(es, j, |es|, level, lo, hi, op, commit, pool);
  }

  lemma StepDefrag(es: seq<Entry>, j: nat, level: nat, pool: Pool, t: DefraggedTable, d: Defragged)
    requires DefragsTo(es, j, level, pool, t) && j < |es| && Wf(es[j], level) && d == DefragEntry(es[j], level, pool)
    ensures DefragsTo(es[j := d.entry], j + 1, level, d.pool, t)
  {
    assert Unfold(0);
  }

  lemma FreeEntriesStep(es: seq<Entry>, i: nat, pool: Pool)
    requires i < |es|
    ensures FreeEntries(es[i..], pool) == FreeEntries(es[i + 1..], FreeEntry(es[i], pool))
  {
    assert es[i..][0] == es[i] && es[i..][1..] == es[i + 1..];
  }

  /** The walk is at address `b` in entry `j` of a table that starts at `base`; the range starts at
      `begin`. */
  ghost predicate WalkAt(base: nat, begin: nat, b: nat, j: nat, s: nat)
    requires s > 0
  {
    (b == begin && begin >= base && j == (begin - base) / s) || (b == base + j * s && begin < b)
  }

  lemma ClipAt(base: nat, begin: nat, b: nat, j: nat, level: nat, n: nat, hi: nat)
    requires base <= begin && WalkAt(base, begin, b, j, Size(level)) && b < base + hi && hi <= n * Size(level)
    ensures j < n && base + j * Size(level) <= b < base + j * Size(level) + Size(level)
    ensures ClipLo(begin - base, j, Size(level)) == b - (base + j * Size(level))
    ensures Hit(j, level, begin - base, hi)
  {
    var s := Size(level);
    if b == begin && j == (begin - base) / s {
      IndexInBounds(begin - base, n, s);
    } else {
      SmallerFactor(j, n, s);
    }
  }

  /** Where one round of the walk starts and where the next one will. */
  lemma RoundAt(base: nat, begin: nat, b: nat, j: nat, level: nat, n: nat, hi: nat)
    requires base <= begin && WalkAt(base, begin, b, j, Size(level)) && b < base + hi && hi <= n * Size(level)
    requires base % Size(level) == 0
    ensures j < n && base + j * Size(level) <= b < base + j * Size(level) + Size(level)
    ensures Hit(j, level, begin - base, hi)
    ensures ClipLo(begin - base, j, Size(level)) == b - (base + j * Size(level))
    ensures ClipHi(hi, j, Size(level)) == Min(Size(level), base + hi - (base + j * Size(level)))
    ensures b < StartOfNextBlock(b, Size(level))
    ensures WalkAt(base, begin, StartOfNextBlock(b, Size(level)), j + 1, Size(level))
  {
    ClipAt(base, begin, b, j, level, n, hi);
    NextBlock(base, b, j, Size(level));
  }

  lemma SmallerFactor(j: nat, n: nat, s: nat)
    requires j * s < n * s
    ensures j < n
  {
  }

  /** One VM's page table, the memory that holds it and the page pool. The root tables are
      consecutive and treated as one table. */
  class PageTables {
    const root: Page
    const level: nat
    /** Whether changes are followed by TLB invalidations (`mm_stage2_invalidate`). Before that
        is enabled, no TLB is in use. */
    const invalidating: bool
    var mem: Memory
    var pool: Pool
    ghost var tree: seq<Entry>
    ghost var tlb: iset<Cached>

    /** `mm_ptable_init`, with the root tables taken from memory that is not in the pool. */
    constructor (root: Page, level: nat, invalidating: bool, tables: nat, memory: Memory, pool: Pool)
      requires root !in pool && NoDup(multiset(pool)) && forall p :: p in pool ==> p in memory && |memory[p]| == ENTRIES
      ensures Ready() && this.root == root && this.level == level && this.pool == pool
      ensures |tree| == tables * ENTRIES && forall i :: 0 <= i < |tree| ==> tree[i] == Absent
    {
      this.root, this.level, this.invalidating, this.pool := root, level, invalidating, pool;
      var n := tables * ENTRIES;
      var row := [];
      for i := 0 to n
        invariant |row| == i && forall k :: 0 <= k < i ==> row[k] == AbsentPte
      {
        row := row + [AbsentPte];
      }
      mem := memory[root := row];
      tree := seq(n, _ => Absent);
      tlb := iset{};
      new;
      PagesOfLeaves(tree);
      assert RepTable(mem, root, tree);
      forall q
        ensures Times(q, root, tree, pool, multiset{}) <= 1
      {
        assert multiset(pool)[q] <= 1 && (q == root ==> multiset(pool)[q] == 0);
      }
      assert Heap(multiset{}) && Clean();
    }

    ghost predicate Live(c: Cached)
      reads this
    {
      LiveTable(root, tree, level, 0, c)
    }

    /** Memory represents the tree, and every page is in one place only: the tree, the pool or
        among the pages `held` by the call in progress. */
    ghost predicate Heap(held: multiset<Page>)
      reads this
    {
      && RepTable(mem, root, tree) && WfAll(tree, level)
      && Apart(root, tree, pool, held)
      && (forall p :: p in pool ==> p in mem && |mem[p]| == ENTRIES)
    }

    /** At every moment: what a TLB has cached for a slot is the valid entry the slot holds now,
        if it holds one, and leads neither from nor to a page in the pool. */
    ghost predicate Safe()
      reads this
    {
      forall c :: c in tlb ==> SafeFor(c)
    }

    ghost predicate SafeFor(c: Cached)
      reads this
    {
      && c.page in mem && c.index < |mem[c.page]|
      && (IsValid(mem[c.page][c.index]) ==> mem[c.page][c.index] == c.pte)
      && c.page !in pool && (c.pte.TablePte? ==> c.pte.page !in pool)
    }

    /** Nothing is cached that a walk does not reach any more. */
    ghost predicate Clean()
      reads this
    {
      (forall c :: c in tlb ==> Live(c)) && (!invalidating ==> tlb == iset{})
    }

    ghost function Cacheable(): iset<Cached>
      reads this
    {
      iset c: Cached | invalidating && Live(c)
    }

    lemma LiveIsSafe(held: multiset<Page>, c: Cached)
      requires Heap(held) && Live(c)
      ensures c.page in mem && c.index < |mem[c.page]| && mem[c.page][c.index] == c.pte && IsValid(c.pte)
      ensures c.page in multiset{root} + PagesAll(tree) && (c.pte.TablePte? ==> c.pte.page in PagesAll(tree))
      ensures c.page !in pool && (c.pte.TablePte? ==> c.pte.page !in pool)
    {
      LiveInMemory(mem, root, tree, level, 0, c);
      LivePages(root, tree, level, 0, c);
      ApartPage(root, tree, pool, held, c.page);
      if c.pte.TablePte? {
        ApartPage(root, tree, pool, held, c.pte.page);
      }
    }

    lemma CleanIsSafe(held: multiset<Page>)
      requires Heap(held) && Clean()
      ensures Safe()
    {
      forall c | c in tlb
        ensures SafeFor(c)
      {
        LiveIsSafe(held, c);
      }
    }

    // ---- The steps ----

    /** Stores an entry in slot `j` of the table at `path`. A valid entry may only be stored when
        no other value is cached for the slot. */
    method WriteSlot(page: Page, j: nat, v: Pte, ghost path: seq<nat>, ghost e: Entry, ghost held: multiset<Page>,
                     ghost held': multiset<Page>)
      requires Heap(held) && Safe()
      requires IsPath(tree, path) && page == SubPage(root, tree, path) && j < |Sub(tree, path)|
      requires v == PteOf(e) && Rep(mem, v, e) && |path| <= level && Wf(e, level - |path|)
      requires held' + Pages(e) == held + Pages(Sub(tree, path)[j])
      requires IsValid(v) ==> forall c :: c in tlb && c.page == page && c.index == j ==> c.pte == v
      modifies `mem, `tree, `tlb
      ensures page in old(mem) && j < |old(mem)[page]| && mem == old(mem)[page := old(mem)[page][j := v]]
      ensures tree == PutEntry(old(tree), path, j, e) && tlb == old(tlb) + Cacheable()
      ensures Heap(held') && Safe()
    {
      SlotHeap(held, held', page, j, path, e);
      mem := mem[page := mem[page][j := v]];
      tree := PutEntry(tree, path, j, e);
      tlb := tlb + Cacheable();
      assert Heap(held');
      forall c | c in tlb
        ensures SafeFor(c)
      {
        if c in old(tlb) {
          assert old(SafeFor(c));
        } else {
          LiveIsSafe(held', c);
        }
      }
    }

    lemma SlotHeap(held: multiset<Page>, held': multiset<Page>, page: Page, j: nat, path: seq<nat>, e: Entry)
      requires Heap(held)
      requires IsPath(tree, path) && page == SubPage(root, tree, path) && j < |Sub(tree, path)|
      requires Rep(mem, PteOf(e), e) && |path| <= level && Wf(e, level - |path|)
      requires held' + Pages(e) == held + Pages(Sub(tree, path)[j])
      ensures page in mem && j < |mem[page]| && page !in pool
      ensures RepTable(mem[page := mem[page][j := PteOf(e)]], root, PutEntry(tree, path, j, e))
      ensures WfAll(PutEntry(tree, path, j, e), level)
      ensures Apart(root, PutEntry(tree, path, j, e), pool, held')
    {
      ApartWrite(root, tree, path, j, e, pool, held, held');
      ApartTree(root, tree, pool, held);
      ApartTree(root, PutEntry(tree, path, j, e), pool, held');
      WriteRep(mem, root, tree, path, page, j, e);
      PutWf(tree, path, level, Sub(tree, path)[j := e]);
      SubPages(root, tree, path);
      ApartPage(root, tree, pool, held, page);
    }

    /** `mm_invalidate_tlb`. */
    method Invalidate(begin: nat, end: nat, ghost held: multiset<Page>)
      requires Heap(held) && Safe()
      modifies `tlb
      ensures tlb == (iset c | c in old(tlb) && !Overlaps(c, begin, end)) + Cacheable()
      ensures Heap(held) && Safe()
    {
      tlb := (iset c | c in tlb && !Overlaps(c, begin, end)) + Cacheable();
      forall c | c in tlb && c !in old(tlb)
        ensures SafeFor(c)
      {
        LiveIsSafe(held, c);
      }
    }

    /** Puts a page that nothing cached leads from or to in the pool. The pool writes its headers
        into the page. */
    method Free(p: Page, ghost rest: multiset<Page>)
      requires Heap(rest + multiset{p}) && Safe() && p in mem && |mem[p]| == ENTRIES
      requires forall c :: c in tlb ==> c.page != p && c.pte != TablePte(p)
      modifies `mem, `pool
      ensures pool == [p] + old(pool) && mem.Keys == old(mem.Keys)
      ensures forall q :: q in mem && q != p ==> mem[q] == old(mem)[q]
      ensures Heap(rest) && Safe()
    {
      var junk: seq<Pte> := *;
      var row := if |junk| == ENTRIES then junk else mem[p];
      FreeHeap(p, row, rest);
      mem := mem[p := row];
      pool := [p] + pool;
      forall c | c in tlb
        ensures SafeFor(c)
      {
        assert old(SafeFor(c));
      }
    }

    lemma FreeHeap(p: Page, row: seq<Pte>, rest: multiset<Page>)
      requires Heap(rest + multiset{p})
      ensures RepTable(mem[p := row], root, tree) && Apart(root, tree, [p] + pool, rest)
    {
      ApartFree(root, tree, pool, rest, p);
      ApartPage(root, tree, pool, rest + multiset{p}, p);
      RepTableFrame(mem, mem[p := row], root, tree);
    }

    /** Takes a page from the pool. */
    method Alloc(ghost held: multiset<Page>) returns (ok: bool, p: Page)
      requires Heap(held) && Safe()
      modifies `pool
      ensures ok <==> old(pool) != []
      ensures !ok ==> pool == old(pool)
      ensures ok ==> p == old(pool)[0] && pool == old(pool)[1..]
      ensures ok ==> p in mem && |mem[p]| == ENTRIES && Heap(held + multiset{p})
      ensures Safe()
    {
      if pool == [] {
        return false, 0;
      }
      ok, p := true, pool[0];
      ApartAlloc(root, tree, pool, held);
      pool := pool[1..];
    }

    // ---- The walks ----

    /** A page held by the call is out of the reach of walks, and of the TLB. */
    lemma HeldUncached(held: multiset<Page>, p: Page)
      requires Heap(held) && Clean() && p in held
      ensures forall c :: c in tlb ==> c.page != p && c.pte != TablePte(p)
    {
      ApartPage(root, tree, pool, held, p);
      forall c | c in tlb
        ensures c.page != p && c.pte != TablePte(p)
      {
        LiveIsSafe(held, c);
      }
    }

    ghost predicate Freeing(held: multiset<Page>)
      reads this
    {
      forall k {:trigger Unfold(k)} :: Unfold(k) ==> Heap(held) && Clean()
    }

    lemma FreeingOnce(held: multiset<Page>, p: Page)
      requires Freeing(held)
      ensures held[p] <= 1
    {
      assert Unfold(0);
      ApartTree(root, tree, pool, held);
    }

    /** `mm_free_page_pte`. */
    method FreePagePte(v: Pte, lvl: nat, ghost e: Entry, ghost rest: multiset<Page>)
      requires Heap(rest + Pages(e)) && Clean() && Rep(mem, v, e) && Wf(e, lvl)
      modifies `mem, `pool
      ensures pool == FreeEntry(e, old(pool)) && mem.Keys == old(mem.Keys)
      ensures forall q :: q in mem && q !in Pages(e) ==> mem[q] == old(mem)[q]
      ensures Heap(rest) && Clean()
      decreases lvl, 1
    {
      if !v.TablePte? {
        assert rest + Pages(e) == rest;
        return;
      }
      var p := v.page;
      ghost var held := rest + multiset{p};
      assert rest + Pages(e) == held + PagesAll(e.entries);
      FreeSubtables(p, lvl - 1, e.entries, held);
      assert Unfold(0);
      HeldUncached(held, p);
      CleanIsSafe(held);
      Free(p, rest);
    }

    /** Frees everything below the table in page `p`. */
    method FreeSubtables(p: Page, lvl: nat, ghost es: seq<Entry>, ghost rest: multiset<Page>)
      requires Freeing(rest + PagesAll(es)) && RepTable(mem, p, es) && WfAll(es, lvl) && |es| == ENTRIES && p in rest
      modifies `mem, `pool
      ensures pool == FreeEntries(es, old(pool)) && mem.Keys == old(mem.Keys)
      ensures forall q :: q in mem && q !in PagesAll(es) ==> mem[q] == old(mem)[q]
      ensures Freeing(rest) && p !in PagesAll(es)
      decreases lvl, 3
    {
      ghost var row := mem[p];
      assert es[0..] == es;
      FreeingOnce(rest + PagesAll(es), p);
      for i := 0 to ENTRIES
        invariant Freeing(rest + PagesAll(es[i..])) && mem.Keys == old(mem.Keys) && mem[p] == row
        invariant RestRep(mem, row, es, i) && FreeEntries(es[i..], pool) == FreeEntries(es, old(pool))
        invariant forall q :: q in mem && q !in PagesAll(es) ==> mem[q] == old(mem)[q]
      {
        FreeEntriesStep(es, i, pool);
        PagesEntry(es, i);
        FreeNext(p, i, lvl, es, row, rest);
      }
      assert es[ENTRIES..] == [];
      assert rest + PagesAll(es[ENTRIES..]) == rest;
    }

    /** Frees what is below entry `i` of the table in page `p`. */
    method FreeNext(p: Page, i: nat, lvl: nat, ghost es: seq<Entry>, ghost row: seq<Pte>, ghost rest: multiset<Page>)
      requires i < |es| == |row| && Wf(es[i], lvl) && RestRep(mem, row, es, i) && p in mem && mem[p] == row && p in rest
      requires Freeing(rest + PagesAll(es[i..]))
      modifies `mem, `pool
      ensures pool == FreeEntry(es[i], old(pool)) && mem.Keys == old(mem.Keys) && mem[p] == row
      ensures forall q :: q in mem && q !in Pages(es[i]) ==> mem[q] == old(mem)[q]
      ensures Freeing(rest + PagesAll(es[i + 1..])) && RestRep(mem, row, es, i + 1)
      decreases lvl, 2
    {
      assert Unfold(0);
      ApartTree(root, tree, pool, rest + PagesAll(es[i..]));
      FirstApart(es, i, rest);
      FreePagePte(mem[p][i], lvl, es[i], rest + PagesAll(es[i + 1..]));
      RestFrame(old(mem), mem, row, es, i + 1, Pages(es[i]));
    }

    /** `begin` is where entry `j` of the table at `path` starts or, if it is no table, somewhere
        in its pages. */
    ghost predicate InEntry(begin: nat, path: seq<nat>, j: nat)
      reads this
      requires IsPath(tree, path) && |path| <= level && j < |Sub(tree, path)|
    {
      var lvl := level - |path|;
      var lo := Pos(BaseOf(0, level, path), j, lvl);
      begin == lo || (!Sub(tree, path)[j].Table? && lo <= begin < lo + Size(lvl))
    }

    /** The slot of entry `j` of the table at `path`. */
    ghost predicate Slot(page: Page, j: nat, lvl: nat, path: seq<nat>)
      reads this
    {
      IsPath(tree, path) && |path| <= level && lvl == level - |path| && page == SubPage(root, tree, path)
        && j < |Sub(tree, path)|
    }

    lemma SlotValue(held: multiset<Page>, page: Page, j: nat, lvl: nat, path: seq<nat>)
      requires Heap(held) && Slot(page, j, lvl, path)
      ensures page in mem && |mem[page]| == |Sub(tree, path)| && Rep(mem, mem[page][j], Sub(tree, path)[j])
      ensures Wf(Sub(tree, path)[j], lvl) && page !in Pages(Sub(tree, path)[j]) && page !in pool
    {
      RepSub(mem, root, tree, path);
      PutWf(tree, path, level, Sub(tree, path));
      ApartTree(root, tree, pool, held);
      SubApart(root, tree, path, j);
      SubPages(root, tree, path);
      ApartPage(root, tree, pool, held, page);
    }

    /** The break of a break-before-make sequence: afterwards the slot is invalid and nothing that
        was at or below it is cached. */
    method BreakEntry(begin: nat, page: Page, j: nat, lvl: nat, ghost path: seq<nat>, ghost held: multiset<Page>)
      requires Heap(held) && Clean() && invalidating && Slot(page, j, lvl, path) && InEntry(begin, path, j)
      modifies `mem, `tree, `tlb
      ensures tree == PutEntry(old(tree), path, j, Absent)
      ensures page in old(mem) && j < |old(mem)[page]| && mem == old(mem)[page := old(mem)[page][j := AbsentPte]]
      ensures Heap(held + Pages(Sub(old(tree), path)[j])) && Clean()
    {
      ghost var d := Sub(tree, path)[j];
      ghost var held' := held + Pages(d);
      SlotValue(held, page, j, lvl, path);
      CleanIsSafe(held);
      WriteSlot(page, j, AbsentPte, path, Absent, held, held');
      Invalidate(begin, begin + Size(lvl), held');
      forall c | c in tlb
        ensures Live(c)
      {
        if c in old(tlb) {
          assert old(Live(c));
          LiveUnwrite(root, old(tree), level, path, j, Absent, c);
          if !Live(c) {
            InvalidationHits(page, j, d, lvl, Pos(BaseOf(0, level, path), j, lvl), begin, c);
          }
        }
      }
    }

    /** Stores an entry in an invalid slot. */
    method MakeEntry(page: Page, j: nat, v: Pte, lvl: nat, ghost path: seq<nat>, ghost e: Entry,
                     ghost held: multiset<Page>, ghost held': multiset<Page>)
      requires Heap(held) && Clean() && Slot(page, j, lvl, path)
               && (invalidating ==> !IsValid(PteOf(Sub(tree, path)[j])))
      requires v == PteOf(e) && Rep(mem, v, e) && Wf(e, lvl)
      requires held' + Pages(e) == held + Pages(Sub(tree, path)[j])
      modifies `mem, `tree, `tlb
      ensures tree == PutEntry(old(tree), path, j, e)
      ensures page in old(mem) && j < |old(mem)[page]| && mem == old(mem)[page := old(mem)[page][j := v]]
      ensures Heap(held') && Clean()
    {
      ghost var d := Sub(tree, path)[j];
      SlotValue(held, page, j, lvl, path);
      CleanIsSafe(held);
      forall c | c in tlb
        ensures c.page != page || c.index != j
      {
        LiveIsSafe(held, c);
      }
      WriteSlot(page, j, v, path, e, held, held');
      forall c | c in tlb
        ensures Live(c)
      {
        if c in old(tlb) {
          assert old(Live(c));
          LiveUnwrite(root, old(tree), level, path, j, e, c);
          NotLive(page, j, d, lvl, Pos(BaseOf(0, level, path), j, lvl), c);
        }
      }
    }

    /** Break-before-make. */
    method BreakAndMake(begin: nat, page: Page, j: nat, v: Pte, lvl: nat, ghost path: seq<nat>, ghost e: Entry,
                        ghost held: multiset<Page>, ghost held': multiset<Page>)
      requires Heap(held) && Clean() && invalidating && Slot(page, j, lvl, path) && InEntry(begin, path, j)
      requires v == PteOf(e) && Rep(mem, v, e) && Wf(e, lvl) && Pages(e) <= held
      requires held' + Pages(e) == held + Pages(Sub(tree, path)[j])
      modifies `mem, `tree, `tlb
      ensures tree == PutEntry(old(tree), path, j, e)
      ensures mem.Keys == old(mem.Keys) && forall q :: q in mem && q != page ==> mem[q] == old(mem)[q]
      ensures Heap(held') && Clean()
    {
      ghost var d := Sub(tree, path)[j];
      ApartSlot(held, page, j, lvl, path, e);
      BreakEntry(begin, page, j, lvl, path, held);
      PutTwice(root, old(tree), path, j, Absent, e);
      RepFrame(old(mem), mem, v, e);
      MakeEntry(page, j, v, lvl, path, e, held + Pages(d), held');
    }

    /** Break-before-make if needed. */
    method SwapEntry(begin: nat, page: Page, j: nat, v: Pte, lvl: nat, ghost path: seq<nat>, ghost e: Entry,
                     ghost rest: multiset<Page>)
      requires Heap(rest + Pages(e)) && Clean() && Slot(page, j, lvl, path) && InEntry(begin, path, j)
      requires v == PteOf(e) && Rep(mem, v, e) && Wf(e, lvl)
      modifies `mem, `tree, `tlb
      ensures tree == PutEntry(old(tree), path, j, e)
      ensures mem.Keys == old(mem.Keys) && forall q :: q in mem && q != page ==> mem[q] == old(mem)[q]
      ensures Heap(rest + Pages(Sub(old(tree), path)[j])) && Clean()
    {
      ghost var held, held' := rest + Pages(e), rest + Pages(Sub(tree, path)[j]);
      SlotValue(held, page, j, lvl, path);
      Reorder(rest, Pages(e), Pages(Sub(tree, path)[j]));
      if invalidating && IsValid(mem[page][j]) {
        BreakAndMake(begin, page, j, v, lvl, path, e, held, held');
      } else {
        MakeEntry(page, j, v, lvl, path, e, held, held');
      }
    }

    /** `mm_replace_entry`. */
    method ReplaceEntry(begin: nat, page: Page, j: nat, v: Pte, lvl: nat, ghost path: seq<nat>, ghost e: Entry,
                        ghost rest: multiset<Page>)
      requires Heap(rest + Pages(e)) && Clean() && Slot(page, j, lvl, path) && InEntry(begin, path, j)
      requires v == PteOf(e) && Rep(mem, v, e) && Wf(e, lvl)
      modifies `mem, `tree, `tlb, `pool
      ensures tree == PutEntry(old(tree), path, j, e) && pool == FreeEntry(Sub(old(tree), path)[j], old(pool))
      ensures mem.Keys == old(mem.Keys) && Heap(rest) && Clean()
    {
      ghost var d := Sub(tree, path)[j];
      SlotValue(rest + Pages(e), page, j, lvl, path);
      var was := mem[page][j];
      SwapEntry(begin, page, j, v, lvl, path, e, rest);
      RepFrame(old(mem), mem, was, d);
      FreePagePte(was, lvl, d, rest);
    }

    lemma ApartSlot(held: multiset<Page>, page: Page, j: nat, lvl: nat, path: seq<nat>, e: Entry)
      requires Heap(held) && Slot(page, j, lvl, path) && Pages(e) <= held
      ensures page !in Pages(e)
    {
      SubPages(root, tree, path);
      ApartPage(root, tree, pool, held, page);
    }

    /** The state between calls. Its parts are only looked at where a proof says `Unfold`. */
    ghost predicate Valid()
      reads this
    {
      forall k {:trigger Unfold(k)} :: Unfold(k) ==> Heap(multiset{}) && Clean()
    }

    lemma SlotOf(page: Page, j: nat, lvl: nat, path: seq<nat>)
      requires Valid() && Slot(page, j, lvl, path)
      ensures page in mem && |mem[page]| == |Sub(tree, path)| && mem[page][j] == PteOf(Sub(tree, path)[j])
      ensures Wf(Sub(tree, path)[j], lvl)
    {
      assert Unfold(0);
      SlotValue(multiset{}, page, j, lvl, path);
    }

    lemma RowOf(page: Page, lvl: nat, path: seq<nat>)
      requires Valid() && IsPath(tree, path) && |path| <= level && lvl == level - |path|
      requires page == SubPage(root, tree, path)
      ensures page in mem && |mem[page]| == |Sub(tree, path)| && WfAll(Sub(tree, path), lvl)
    {
      assert Unfold(0);
      RepSub(mem, root, tree, path);
      PutWf(tree, path, level, Sub(tree, path));
    }

    /** Fills a new table, which nothing refers to yet, with copies of one entry. */
    method InitTable(p: Page, v: Pte, ghost e: Entry)
      requires Heap(multiset{p}) && Clean() && p in mem && |mem[p]| == ENTRIES && v == PteOf(e) && !e.Table?
      modifies `mem
      ensures Heap(multiset{p}) && Clean() && mem.Keys == old(mem.Keys)
      ensures RepTable(mem, p, SplitLeaf(e))
      ensures forall q :: q in mem && q != p ==> mem[q] == old(mem)[q]
    {
      ApartPage(root, tree, pool, multiset{p}, p);
      HeldUncached(multiset{p}, p);
      CleanIsSafe(multiset{p});
      for i := 0 to ENTRIES
        invariant mem.Keys == old(mem.Keys) && |mem[p]| == ENTRIES && Safe()
        invariant forall k :: 0 <= k < i ==> mem[p][k] == v
        invariant forall q :: q in mem && q != p ==> mem[q] == old(mem)[q]
      {
        label write:
        mem := mem[p := mem[p][i := v]];
        forall c | c in tlb
          ensures SafeFor(c)
        {
          assert old@write(SafeFor(c));
        }
      }
      RepTableFrame(old(mem), mem, root, tree);
    }

    /** The entry that an entry of a new table gets so that the table stands for the same pages as
        entry `v`. */
    function Template(v: Pte): Pte {
      if v.BlockPte? then v else AbsentPte
    }

    /** `mm_populate_table_pte`. */
    method Populate(begin: nat, page: Page, j: nat, lvl: nat, ghost path: seq<nat>) returns (ok: bool, table: Page)
      requires Valid() && Slot(page, j, lvl, path) && lvl > 0
      requires Pos(BaseOf(0, level, path), j, lvl) <= begin < Pos(BaseOf(0, level, path), j, lvl) + Size(lvl)
      modifies `mem, `tree, `tlb, `pool
      ensures Valid() && mem.Keys == old(mem.Keys)
      ensures var d := Sub(old(tree), path)[j];
              if d.Table? then ok && table == d.page && tree == old(tree) && pool == old(pool)
              else if old(pool) == [] then !ok && tree == old(tree) && pool == []
              else ok && table == old(pool)[0] && pool == old(pool)[1..]
                   && tree == PutEntry(old(tree), path, j, Table(table, SplitLeaf(d)))
    {
      ghost var d := Sub(tree, path)[j];
      assert Unfold(0);
      SlotValue(multiset{}, page, j, lvl, path);
      var v := mem[page][j];
      if v.TablePte? {
        return true, v.page;
      }
      CleanIsSafe(multiset{});
      ok, table := Alloc(multiset{});
      if !ok {
        return;
      }
      assert multiset{} + multiset{table} == multiset{table};
      InitTable(table, Template(v), d);
      ghost var e := Table(table, SplitLeaf(d));
      PagesOfLeaves(SplitLeaf(d));
      assert multiset{} + Pages(e) == multiset{table};
      ReplaceEntry(begin, page, j, TablePte(table), lvl, path, e, multiset{});
    }

    /** The range from `begin` to `end` has pages of entry `j` of the table at `path`. */
    ghost predicate Hits(begin: nat, end: nat, path: seq<nat>, j: nat, lvl: nat) {
      var lo := Pos(BaseOf(0, level, path), j, lvl);
      lo <= begin < lo + Size(lvl) && begin < end
    }

    /** What the walk makes of entry `d` of the table at `path`. */
    ghost function Mapped(d: Entry, begin: nat, end: nat, op: Op, j: nat, lvl: nat, commit: bool, path: seq<nat>,
                          pool: Pool): EntryResult
      requires Wf(d, lvl) && WfOp(op) && Hits(begin, end, path, j, lvl)
    {
      var lo := Pos(BaseOf(0, level, path), j, lvl);
      MapEntry(d, lvl, begin - lo, Min(Size(lvl), end - lo), op, commit, pool)
    }

    /** The part of the walk that deals with one entry. */
    method MapSlot(begin: nat, end: nat, op: Op, page: Page, j: nat, lvl: nat, commit: bool, ghost path: seq<nat>,
                   ghost r: EntryResult)
      returns (ok: bool)
      requires Valid() && Slot(page, j, lvl, path) && WfOp(op) && BaseOf(0, level, path) % Size(lvl) == 0
      requires Hits(begin, end, path, j, lvl) && Wf(Sub(tree, path)[j], lvl)
      requires r == Mapped(Sub(tree, path)[j], begin, end, op, j, lvl, commit, path, pool)
      modifies `mem, `tree, `tlb, `pool
      ensures Valid() && mem.Keys == old(mem.Keys)
      ensures tree == PutEntry(old(tree), path, j, r.entry) && pool == r.pool && ok == r.ok
      decreases lvl, 2
    {
      SlotOf(page, j, lvl, path);
      NextBlock(BaseOf(0, level, path), begin, j, Size(lvl));
      if mem[page][j] == PteOf(Leaf(op)) {
        PutSameEntry(tree, path, j);
        ok := true;
      } else if end - begin >= Size(lvl) && LeafAllowed(lvl, op) && begin % Size(lvl) == 0 {
        MapWhole(begin, op, page, j, lvl, commit, path);
        ok := true;
      } else {
        ok := MapBelow(begin, end, op, page, j, lvl, commit, path, r);
      }
    }

    /** Maps or unmaps an entry that is entirely in the range. */
    method MapWhole(begin: nat, op: Op, page: Page, j: nat, lvl: nat, commit: bool, ghost path: seq<nat>)
      requires Valid() && Slot(page, j, lvl, path) && WfOp(op) && LeafAllowed(lvl, op)
      requires begin == Pos(BaseOf(0, level, path), j, lvl)
      modifies `mem, `tree, `tlb, `pool
      ensures Valid() && mem.Keys == old(mem.Keys)
      ensures var d := Sub(old(tree), path)[j];
              if commit then tree == PutEntry(old(tree), path, j, Leaf(op)) && pool == FreeEntry(d, old(pool))
              else tree == PutEntry(old(tree), path, j, d) && pool == old(pool)
    {
      if commit {
        assert Unfold(0);
        assert multiset{} + Pages(Leaf(op)) == multiset{};
        ReplaceEntry(begin, page, j, PteOf(Leaf(op)), lvl, path, Leaf(op), multiset{});
      } else {
        PutSameEntry(tree, path, j);
      }
    }

    /** Gets or makes the table below an entry and maps there. */
    method MapBelow(begin: nat, end: nat, op: Op, page: Page, j: nat, lvl: nat, commit: bool, ghost path: seq<nat>,
                    ghost r: EntryResult)
      returns (ok: bool)
      requires Valid() && Slot(page, j, lvl, path) && WfOp(op) && BaseOf(0, level, path) % Size(lvl) == 0
      requires Hits(begin, end, path, j, lvl) && lvl > 0 && Wf(Sub(tree, path)[j], lvl)
      requires Sub(tree, path)[j] != Leaf(op)
      requires begin != Pos(BaseOf(0, level, path), j, lvl) || end - begin < Size(lvl) || !LeafAllowed(lvl, op)
      requires r == Mapped(Sub(tree, path)[j], begin, end, op, j, lvl, commit, path, pool)
      modifies `mem, `tree, `tlb, `pool
      ensures Valid() && mem.Keys == old(mem.Keys)
      ensures tree == PutEntry(old(tree), path, j, r.entry) && pool == r.pool && ok == r.ok
      decreases lvl, 1
    {
      ghost var d := Sub(tree, path)[j];
      PutSameEntry(tree, path, j);
      var table;
      ok, table := Populate(begin, page, j, lvl, path);
      if ok {
        ghost var es := if d.Table? then d.entries else SplitLeaf(d);
        PutTwice(root, old(tree), path, j, Table(table, es), r.entry);
        ok := MapTableBelow(begin, end, op, page, j, lvl, table, es, commit, path);
      }
    }

    /** Maps in the table below an entry. */
    method MapTableBelow(begin: nat, end: nat, op: Op, page: Page, j: nat, lvl: nat, table: Page,
                         ghost es: seq<Entry>, commit: bool, ghost path: seq<nat>)
      returns (ok: bool)
      requires Valid() && Slot(page, j, lvl, path) && WfOp(op) && BaseOf(0, level, path) % Size(lvl) == 0
      requires Hits(begin, end, path, j, lvl) && lvl > 0 && Sub(tree, path)[j] == Table(table, es)
      modifies `mem, `tree, `tlb, `pool
      ensures Valid() && mem.Keys == old(mem.Keys) && WfAll(es, lvl - 1)
      ensures var lo := Pos(BaseOf(0, level, path), j, lvl);
              var r := MapTable(es, 0, lvl - 1, begin - lo, Min(Size(lvl), end - lo), op, commit, old(pool));
              tree == PutEntry(old(tree), path, j, Table(table, r.entries)) && pool == r.pool && ok == r.ok
      decreases lvl, 0
    {
      ghost var lo := Pos(BaseOf(0, level, path), j, lvl);
      SlotOf(page, j, lvl, path);
      PathDown(root, tree, path, j, 0, level);
      AlignedBelow(BaseOf(0, level, path), j, 1, Size(lvl));
      ghost var r := MapTable(es, 0, lvl - 1, begin - lo, Min(Size(lvl), end - lo), op, commit, pool);
      PutDown(tree, path, j, r.entries);
      ok := MapRange(begin, end, op, table, lvl - 1, commit, path + [j], lo, ENTRIES, r);
    }

    /** The table at `path`, of `n` entries, starts at `base`. */
    ghost predicate TableOf(page: Page, lvl: nat, path: seq<nat>, base: nat, n: nat)
      reads this
    {
      && IsPath(tree, path) && |path| <= level && lvl == level - |path| && page == SubPage(root, tree, path)
      && base == BaseOf(0, level, path) && n == |Sub(tree, path)| && WfAll(Sub(tree, path), lvl)
    }

    /** `mm_map_level`. */
    method MapRange(begin: nat, end: nat, op: Op, page: Page, lvl: nat, commit: bool, ghost path: seq<nat>,
                    ghost base: nat, ghost n: nat, ghost r: TableResult)
      returns (ok: bool)
      requires Valid() && WfOp(op) && TableOf(page, lvl, path, base, n)
      requires n > 0 && Span(n, lvl) > 0 && base % Span(n, lvl) == 0 && base <= begin < base + Span(n, lvl)
      requires r == MapTable(Sub(tree, path), 0, lvl, begin - base, Max(0, Min(Span(n, lvl), end - base)), op,
                             commit, pool)
      modifies `mem, `tree, `tlb, `pool
      ensures Valid() && mem.Keys == old(mem.Keys)
      ensures tree == Put(old(tree), path, r.entries) && pool == r.pool && ok == r.ok
      decreases lvl, 5
    {
      ghost var lo := begin - base;
      ghost var hi: nat := Max(0, Min(Span(n, lvl), end - base));
      var s := Size(lvl);
      RowOf(page, lvl, path);
      IndexIsOffset(base, begin, n, s);
      AlignedBelow(base, 0, n, s);
      StartWalk(Sub(tree, path), lo / s, lvl, lo, hi, op, commit, pool, r);
      PutSame(tree, path);
      var last: nat := Min(end, LevelEnd(begin, |mem[page]| * s));
      var b: nat, j: nat := begin, Index(begin, |mem[page]|, s);
      while b < last
        invariant Valid() && mem.Keys == old(mem.Keys) && TableOf(page, lvl, path, base, n)
        invariant tree == Put(old(tree), path, Sub(tree, path)) && j <= n && WalkAt(base, begin, b, j, s)
        invariant MapsTo(Sub(tree, path), j, lvl, lo, hi, op, commit, pool, r)
        decreases last - b
      {
        ok := MapRound(begin, b, last, op, page, j, lvl, commit, path, base, n, old(tree), hi, r);
        if !ok {
          return;
        }
        b, j := StartOfNextBlock(b, s), j + 1;
      }
      EndWalk(Sub(tree, path), j, lvl, lo, hi, op, commit, pool, r);
      ok := true;
    }

    /** One round of the loop. */
    method MapRound(ghost begin: nat, b: nat, last: nat, op: Op, page: Page, j: nat, lvl: nat, commit: bool,
                    ghost path: seq<nat>,
                    ghost base: nat, ghost n: nat, ghost first: seq<Entry>, ghost hi: nat, ghost r: TableResult)
      returns (ok: bool)
      requires Valid() && WfOp(op) && TableOf(page, lvl, path, base, n) && base % Size(lvl) == 0
      requires base <= begin && WalkAt(base, begin, b, j, Size(lvl)) && b < last == base + hi && hi <= n * Size(lvl)
      requires j <= n
      requires IsPath(first, path) && tree == Put(first, path, Sub(tree, path))
      requires MapsTo(Sub(tree, path), j, lvl, begin - base, hi, op, commit, pool, r)
      modifies `mem, `tree, `tlb, `pool
      ensures Valid() && mem.Keys == old(mem.Keys) && TableOf(page, lvl, path, base, n)
      ensures tree == Put(first, path, Sub(tree, path)) && j < n
      ensures b < StartOfNextBlock(b, Size(lvl))
      ensures WalkAt(base, begin, StartOfNextBlock(b, Size(lvl)), j + 1, Size(lvl))
      ensures if ok then MapsTo(Sub(tree, path), j + 1, lvl, begin - base, hi, op, commit, pool, r)
              else r == TableResult(false, Sub(tree, path), pool)
      decreases lvl, 4
    {
      RoundAt(base, begin, b, j, lvl, n, hi);
      ghost var from: nat, to: nat := b - (base + j * Size(lvl)), Min(Size(lvl), last - (base + j * Size(lvl)));
      ghost var x := MapEntry(Sub(tree, path)[j], lvl, from, to, op, commit, pool);
      StepWalk(Sub(tree, path), j, lvl, begin - base, hi, op, commit, pool, r, from, to, x);
      ok := MapNext(b, last, op, page, j, lvl, commit, path, base, n, first, from, to, x);
    }

    method MapNext(b: nat, last: nat, op: Op, page: Page, j: nat, lvl: nat, commit: bool, ghost path: seq<nat>,
                   ghost base: nat,
                   ghost n: nat, ghost first: seq<Entry>, ghost from: nat, ghost to: nat, ghost x: EntryResult)
      returns (ok: bool)
      requires Valid() && WfOp(op) && TableOf(page, lvl, path, base, n) && base % Size(lvl) == 0
      requires j < n && base + j * Size(lvl) <= b < base + j * Size(lvl) + Size(lvl) && b < last
      requires IsPath(first, path) && tree == Put(first, path, Sub(tree, path))
      requires from == b - (base + j * Size(lvl)) && to == Min(Size(lvl), last - (base + j * Size(lvl)))
      requires x == MapEntry(Sub(tree, path)[j], lvl, from, to, op, commit, pool)
      modifies `mem, `tree, `tlb, `pool
      ensures Valid() && mem.Keys == old(mem.Keys) && TableOf(page, lvl, path, base, n)
      ensures tree == Put(first, path, Sub(tree, path))
      ensures Sub(tree, path) == Sub(old(tree), path)[j := x.entry] && pool == x.pool && ok == x.ok
      decreases lvl, 3
    {
      ghost var es := tree;
      ok := MapSlot(b, last, op, page, j, lvl, commit, path, x);
      WalkOn(first, es, path, j, x.entry);
      RowOf(page, lvl, path);
    }

    lemma WalkOn(first: seq<Entry>, es: seq<Entry>, path: seq<nat>, j: nat, e: Entry)
      requires IsPath(first, path) && IsPath(es, path) && es == Put(first, path, Sub(es, path)) && j < |Sub(es, path)|
      ensures var ts := PutEntry(es, path, j, e);
              && IsPath(ts, path) && Sub(ts, path) == Sub(es, path)[j := e]
              && SubPage(root, ts, path) == SubPage(root, es, path)
              && ts == Put(first, path, Sub(es, path)[j := e])
    {
      PutSub(root, es, path, Sub(es, path)[j := e]);
      PutPut(first, path, Sub(es, path), Sub(es, path)[j := e]);
    }

    // ---- Defragmentation ----

    /** `mm_ptable_defrag_entry`, for entry `j` of the table at `path`. */
    method DefragSlot(begin: nat, page: Page, j: nat, lvl: nat, ghost path: seq<nat>)
      requires Valid() && Slot(page, j, lvl, path) && begin == Pos(BaseOf(0, level, path), j, lvl)
      modifies `mem, `tree, `tlb, `pool
      ensures Valid() && mem.Keys == old(mem.Keys) && Wf(Sub(old(tree), path)[j], lvl)
      ensures var d := DefragEntry(Sub(old(tree), path)[j], lvl, old(pool));
              tree == PutEntry(old(tree), path, j, d.entry) && pool == d.pool
      decreases lvl, 0
    {
      ghost var e := Sub(tree, path)[j];
      SlotOf(page, j, lvl, path);
      var v := mem[page][j];
      if !v.TablePte? {
        PutSameEntry(tree, path, j);
        return;
      }
      ghost var t := DefragTable(e.entries, 0, lvl - 1, pool);
      PathDown(root, tree, path, j, 0, level);
      PutDown(tree, path, j, t.entries);
      PutTwice(root, tree, path, j, Table(e.page, t.entries), Merge(Table(e.page, t.entries), lvl));
      var mergeable := DefragEntries(begin, v.page, lvl - 1, path + [j], e.entries, t);
      if mergeable {
        MergeSlot(begin, page, j, v.page, lvl, path, t.entries);
      }
    }

    /** Defragments the entries of a table, and says whether one entry could replace it. */
    method DefragEntries(begin: nat, page: Page, lvl: nat, ghost path: seq<nat>, ghost es: seq<Entry>,
                         ghost t: DefraggedTable)
      returns (mergeable: bool)
      requires Valid() && TableOf(page, lvl, path, begin, ENTRIES) && es == Sub(tree, path)
      requires t == DefragTable(es, 0, lvl, pool)
      modifies `mem, `tree, `tlb, `pool
      ensures Valid() && mem.Keys == old(mem.Keys)
      ensures tree == Put(old(tree), path, t.entries) && pool == t.pool && mergeable == Mergeable(t.entries)
      decreases lvl, 3
    {
      PutSame(tree, path);
      ghost var e := DefragNext(begin, page, 0, lvl, path, ENTRIES, tree, t);
      SlotOf(page, 0, lvl, path);
      var basePresent := IsPresent(mem[page][0]);
      var baseAttrs := PteAttrs(mem[page][0]);
      mergeable := true;
      for i := 1 to ENTRIES
        invariant Valid() && mem.Keys == old(mem.Keys) && TableOf(page, lvl, path, begin, ENTRIES)
        invariant tree == Put(old(tree), path, Sub(tree, path)) && DefragsTo(Sub(tree, path), i, lvl, pool, t)
        invariant basePresent == Present(Sub(tree, path)[0]) && baseAttrs == EntryAttrs(Sub(tree, path)[0])
        invariant mergeable == MatchUpTo(Sub(tree, path), i)
      {
        ghost var before := Sub(tree, path);
        var matches := DefragAndCompare(begin + i * Size(lvl), page, i, lvl, path, old(tree), t, basePresent,
                                        baseAttrs);
        MatchStep(before, Sub(tree, path), i);
        mergeable := mergeable && matches;
      }
      assert Unfold(0);
    }

    /** Defragments an entry of a table and compares it with the first. */
    method DefragAndCompare(begin: nat, page: Page, i: nat, lvl: nat, ghost path: seq<nat>, ghost first: seq<Entry>,
                            ghost t: DefraggedTable, basePresent: bool, baseAttrs: Attrs)
      returns (matches: bool)
      requires Valid() && TableOf(page, lvl, path, BaseOf(0, level, path), ENTRIES) && 0 < i < ENTRIES
      requires begin == Pos(BaseOf(0, level, path), i, lvl) && DefragsTo(Sub(tree, path), i, lvl, pool, t)
      requires IsPath(first, path) && tree == Put(first, path, Sub(tree, path))
      requires basePresent == Present(Sub(tree, path)[0]) && baseAttrs == EntryAttrs(Sub(tree, path)[0])
      modifies `mem, `tree, `tlb, `pool
      ensures Valid() && mem.Keys == old(mem.Keys) && TableOf(page, lvl, path, BaseOf(0, level, path), ENTRIES)
      ensures tree == Put(first, path, Sub(tree, path)) && DefragsTo(Sub(tree, path), i + 1, lvl, pool, t)
      ensures Sub(tree, path)[0] == Sub(old(tree), path)[0] && matches == MatchesFirst(Sub(tree, path), i)
      ensures forall k :: 0 <= k < i ==> Sub(tree, path)[k] == Sub(old(tree), path)[k]
      decreases lvl, 2
    {
      ghost var e := DefragNext(begin, page, i, lvl, path, ENTRIES, first, t);
      SlotOf(page, i, lvl, path);
      var present := IsPresent(mem[page][i]);
      matches := true;
      if present != basePresent {
        matches := false;
      } else if present && !mem[page][i].BlockPte? {
        matches := false;
      } else if present && PteAttrs(mem[page][i]) != baseAttrs {
        matches := false;
      }
    }

    /** One entry of a table. */
    method DefragNext(begin: nat, page: Page, j: nat, lvl: nat, ghost path: seq<nat>, ghost n: nat,
                      ghost first: seq<Entry>, ghost t: DefraggedTable)
      returns (ghost e: Entry)
      requires Valid() && IsPath(tree, path) && TableOf(page, lvl, path, BaseOf(0, level, path), n) && j < n
      requires begin == Pos(BaseOf(0, level, path), j, lvl) && DefragsTo(Sub(tree, path), j, lvl, pool, t)
      requires IsPath(first, path) && tree == Put(first, path, Sub(tree, path))
      modifies `mem, `tree, `tlb, `pool
      ensures Valid() && mem.Keys == old(mem.Keys) && TableOf(page, lvl, path, BaseOf(0, level, path), n)
      ensures tree == Put(first, path, Sub(tree, path)) && DefragsTo(Sub(tree, path), j + 1, lvl, pool, t)
      ensures Sub(tree, path) == Sub(old(tree), path)[j := e]
      decreases lvl, 1
    {
      ghost var es := tree;
      ghost var d := DefragEntry(Sub(tree, path)[j], lvl, pool);
      StepDefrag(Sub(tree, path), j, lvl, pool, t, d);
      DefragSlot(begin, page, j, lvl, path);
      WalkOn(first, es, path, j, d.entry);
      e := d.entry;
    }

    /** `mm_merge_table_pte`, and the replacement of the table by what it gives. */
    method MergeSlot(begin: nat, page: Page, j: nat, table: Page, lvl: nat, ghost path: seq<nat>, ghost es: seq<Entry>)
      requires Valid() && Slot(page, j, lvl, path) && begin == Pos(BaseOf(0, level, path), j, lvl)
      requires Sub(tree, path)[j] == Table(table, es) && lvl > 0 && |es| == ENTRIES && Mergeable(es)
      modifies `mem, `tree, `tlb, `pool
      ensures Valid() && mem.Keys == old(mem.Keys)
      ensures var e := Table(table, es);
              if Merge(e, lvl) == e then tree == old(tree) && pool == old(pool)
              else tree == PutEntry(old(tree), path, j, Merge(e, lvl)) && pool == FreeEntry(e, old(pool))
    {
      assert Unfold(0);
      SlotValue(multiset{}, page, j, lvl, path);
      assert Rep(mem, mem[table][0], es[0]);
      var row := mem[table];
      var v: Pte;
      if !IsPresent(row[0]) {
        v := AbsentPte;
      } else if !BlockAllowed(lvl) {
        v := mem[page][j];
      } else {
        v := BlockPte(PteAttrs(row[0]));
      }
      if v != mem[page][j] {
        ghost var e := Merge(Table(table, es), lvl);
        assert MatchesFirst(es, 1) && Wf(es[1], lvl - 1);
        assert multiset{} + Pages(e) == multiset{};
        ReplaceEntry(begin, page, j, v, lvl, path, e, multiset{});
      }
    }

    // ---- The interface ----

    /** The state between calls, for callers. */
    ghost predicate Ready()
      reads this
    {
      Valid() && WfAll(tree, level)
    }

    /** The page table as a value. */
    ghost function AsTable(): Ptable
      reads this
    {
      Ptable(level, tree)
    }

    /** `mm_map_root`. */
    method MapRoot(begin: nat, end: nat, op: Op, commit: bool, ghost r: TableResult) returns (ok: bool)
      requires Ready() && WfOp(op) && end <= Span(|tree|, level)
      requires r == MapTable(tree, 0, level, begin, end, op, commit, pool)
      modifies `mem, `tree, `tlb, `pool
      ensures Ready() && mem.Keys == old(mem.Keys)
      ensures tree == r.entries && pool == r.pool && ok == r.ok
    {
      if begin < end {
        ok := MapRange(begin, end, op, root, level, commit, [], 0, |tree|, r);
      } else {
        EndWalk(tree, 0, level, begin, end, op, commit, pool, r);
        ok := true;
      }
    }

    /** `mm_ptable_identity_map`. */
    method Apply(paBegin: nat, paEnd: nat, op: Op, commit: bool) returns (ok: bool)
      requires Ready() && WfOp(op)
      modifies `mem, `tree, `tlb, `pool
      ensures Ready() && mem.Keys == old(mem.Keys)
      ensures MapResult(ok, AsTable(), pool) == MapIdentity(old(AsTable()), paBegin, paEnd, op, commit, old(pool))
    {
      RowOf(root, level, []);
      var tableEnd := |mem[root]| * Size(level);
      var end := RoundUpToPage(paEnd) / PAGE_SIZE;
      var begin := ClearPa(paBegin) / PAGE_SIZE;
      if end > tableEnd {
        end := tableEnd;
      }
      ok := MapRoot(begin, end, op, commit, MapTable(tree, 0, level, begin, end, op, commit, pool));
    }

    /** `mm_ptable_identity_update`. The assertion is the check in the commit. */
    method Update(paBegin: nat, paEnd: nat, op: Op) returns (ok: bool)
      requires Ready() && WfOp(op)
      modifies `mem, `tree, `tlb, `pool
      ensures Ready() && mem.Keys == old(mem.Keys)
      ensures MapResult(ok, AsTable(), pool) == IdentityUpdate(old(AsTable()), paBegin, paEnd, op, old(pool))
      ensures ValidTable(old(AsTable())) && ValidTable(AsTable())
      ensures if ok then Updated(AsTable(), old(AsTable()), BeginPage(paBegin), EndPage(old(AsTable()), paEnd), Val(op))
              else SameSpace(AsTable(), old(AsTable()))
      ensures ok && paEnd < ADDRESS_SPACE ==> UpdatedBytes(AsTable(), old(AsTable()), paBegin, paEnd, Val(op))
    {
      RowOf(root, level, []);
      UpdateIsAtomic(AsTable(), paBegin, paEnd, op, pool);
      if paEnd < ADDRESS_SPACE {
        UpdateCoversBytes(AsTable(), paBegin, paEnd, op, pool);
      }
      ok := Apply(paBegin, paEnd, op, false);
      if ok {
        var committed := Apply(paBegin, paEnd, op, true);
        assert committed;
      }
    }

    /** `mm_ptable_defrag`. */
    method Defragment()
      requires Ready()
      modifies `mem, `tree, `tlb, `pool
      ensures Ready() && mem.Keys == old(mem.Keys)
      ensures var d := DefragTable(old(tree), 0, level, old(pool));
              tree == d.entries && pool == d.pool
    {
      RowOf(root, level, []);
      ghost var t := DefragTable(tree, 0, level, pool);
      var begin := 0;
      for j := 0 to |mem[root]|
        invariant Ready() && mem.Keys == old(mem.Keys) && |tree| == |old(tree)| && |mem[root]| == |tree|
        invariant begin == j * Size(level) && DefragsTo(tree, j, level, pool, t)
      {
        RowOf(root, level, []);
        ghost var e := DefragNext(begin, root, j, level, [], |tree|, tree, t);
        RowOf(root, level, []);
        begin := begin + Size(level);
      }
      assert Unfold(0);
    }
  }

  /** What `mm_alloc_page_tables` may answer: the first page of the pool if one table is wanted, and
      otherwise consecutive pages of it; or nothing. */
  ghost predicate TablesFrom(pool: Pool, tables: nat, taken: seq<Page>, rest: Pool) {
    if tables == 1 then
      if pool == [] then taken == [] else taken == [pool[0]] && rest == pool[1..]
    else
      taken != [] ==>
        && |taken| == tables && multiset(taken) + multiset(rest) == multiset(pool)
        && forall i :: 0 <= i < |taken| ==> taken[i] == taken[0] + i
  }

  lemma TakenIsGone(pool: Pool, tables: nat, taken: seq<Page>, rest: Pool)
    requires NoDup(multiset(pool)) && TablesFrom(pool, tables, taken, rest) && taken != []
    ensures taken[0] !in rest && NoDup(multiset(rest)) && forall p :: p in rest ==> p in pool
  {
    if tables == 1 {
      assert pool == [pool[0]] + pool[1..];
      assert multiset(pool) == multiset{pool[0]} + multiset(rest);
    }
    assert taken[0] in multiset(taken);
    forall p
      ensures multiset(rest)[p] <= multiset(pool)[p] <= 1
    {
    }
    assert multiset(taken)[taken[0]] + multiset(rest)[taken[0]] <= 1;
    forall p | p in rest
      ensures p in pool
    {
      assert p in multiset(rest) && p in multiset(pool);
    }
  }

  /** `mm_ptable_init`: fails exactly if there is no memory for the root tables. */
  method InitPtable(level: nat, invalidating: bool, tables: nat, memory: Memory, pool: Pool, taken: seq<Page>,
                    rest: Pool)
    returns (t: PageTables?)
    requires NoDup(multiset(pool)) && forall p :: p in pool ==> p in memory && |memory[p]| == ENTRIES
    requires TablesFrom(pool, tables, taken, rest)
    ensures t == null <==> taken == []
    ensures t != null ==> fresh(t) && t.Ready() && t.root == taken[0] && t.level == level && t.pool == rest
    ensures t != null ==> |t.tree| == tables * ENTRIES && forall i :: 0 <= i < |t.tree| ==> t.tree[i] == Absent
  {
    if taken == [] {
      return null;
    }
    TakenIsGone(pool, tables, taken, rest);
    t := new PageTables(taken[0], level, invalidating, tables, memory, rest);
  }
}
