/** The recursive walk that maps or unmaps a range (`mm_map_level`, `mm_populate_table_pte`,
    `mm_replace_entry`, `mm_free_page_pte`), on trees.

    The page pool is a stack of pages: an allocation takes the first page, a free puts the page
    in front. Module Mpool shows that a pool with its fallbacks behaves like that. */
module MapLevel {
  import opened Arithmetic
  import opened Collections
  import opened PageTree

  type Pool = seq<Page>

  /** What the walk does to the pages in range: remove the mapping, or map them with `attrs`. */
  datatype Op = Unmap | Map(attrs: Attrs)

  datatype EntryResult = EntryResult(ok: bool, entry: Entry, pool: Pool)
  datatype TableResult = TableResult(ok: bool, entries: seq<Entry>, pool: Pool)

  predicate WfOp(op: Op) {
    op.Map? ==> IsBlockAttrs(op.attrs)
  }

  /** The entry the operation writes, and the attributes a page has afterwards. */
  function Leaf(op: Op): Entry {
    if op.Unmap? then Absent else Block(op.attrs)
  }

  function Val(op: Op): Attrs {
    EntryAttrs(Leaf(op))
  }

  /** One entry at `level` can hold the operation's result for all its pages. */
  predicate LeafAllowed(level: nat, op: Op) {
    op.Unmap? || BlockAllowed(level)
  }

  /** Frees the tables below an entry, subtables first. */
  function FreeEntry(e: Entry, pool: Pool): Pool
    decreases e, 0
  {
    match e
    case Absent => pool
    case Block(_) => pool
    case Table(p, es) => [p] + FreeEntries(es, pool)
  }

  function FreeEntries(es: seq<Entry>, pool: Pool): Pool
    decreases es, 1
  {
    if es == [] then pool else FreeEntries(es[1..], FreeEntry(es[0], pool))
  }

  /** The entries of a table that stands for the same pages as the leaf `e`. */
  function SplitLeaf(e: Entry): seq<Entry>
    requires !e.Table?
  {
    seq(ENTRIES, _ => e)
  }

  function MapEntry(e: Entry, level: nat, lo: nat, hi: nat, op: Op, commit: bool, pool: Pool): (r: EntryResult)
    requires Wf(e, level) && WfOp(op) && lo < hi <= Size(level)
    ensures Wf(r.entry, level)
    decreases level, 0, 0
  {
    if e == Leaf(op) then
      EntryResult(true, e, pool)
    else if lo == 0 && hi == Size(level) && LeafAllowed(level, op) then
      if commit then EntryResult(true, Leaf(op), FreeEntry(e, pool)) else EntryResult(true, e, pool)
    else if e.Table? then
      var r := MapTable(e.entries, 0, level - 1, lo, hi, op, commit, pool);
      EntryResult(r.ok, Table(e.page, r.entries), r.pool)
    else if pool == [] then
      EntryResult(false, e, pool)
    else
      var r := MapTable(SplitLeaf(e), 0, level - 1, lo, hi, op, commit, pool[1..]);
      EntryResult(r.ok, Table(pool[0], r.entries), r.pool)
  }

  /** Entry `j` has pages in the range. */
  predicate Hit(j: nat, level: nat, lo: nat, hi: nat) {
    ClipLo(lo, j, Size(level)) < ClipHi(hi, j, Size(level))
  }

  /** Walks the entries from index `j` on; those outside the range are left alone. */
  function MapTable(es: seq<Entry>, j: nat, level: nat, lo: nat, hi: nat, op: Op, commit: bool,
                    pool: Pool): (r: TableResult)
    requires WfAll(es, level) && WfOp(op) && j <= |es|
    ensures WfAll(r.entries, level) && |r.entries| == |es|
    decreases level, 1, |es| - j
  {
    if j == |es| then
      TableResult(true, es, pool)
    else if !Hit(j, level, lo, hi) then
      MapTable(es, j + 1, level, lo, hi, op, commit, pool)
    else
      var r := MapEntry(es[j], level, ClipLo(lo, j, Size(level)), ClipHi(hi, j, Size(level)), op, commit, pool);
      if r.ok then MapTable(es[j := r.entry], j + 1, level, lo, hi, op, commit, r.pool)
      else TableResult(false, es[j := r.entry], r.pool)
  }

  // ---- The walk refines an update of the flat map ----

  /** The flat map after the operation: `Val(op)` on the range if it was committed. */
  function After(before: Attrs, off: nat, lo: int, hi: int, op: Op, commit: bool): Attrs {
    if commit && lo <= off < hi then Val(op) else before
  }

  lemma {:induction false} MapEntryFlat(e: Entry, level: nat, lo: nat, hi: nat, op: Op, commit: bool, pool: Pool,
                                        r: EntryResult, off: nat)
    requires Wf(e, level) && WfOp(op) && lo < hi <= Size(level) && off < Size(level)
    requires r == MapEntry(e, level, lo, hi, op, commit, pool) && (r.ok || !commit)
    ensures At(r.entry, level, off) == After(At(e, level, off), off, lo, hi, op, commit)
    decreases level, 0, 0
  {
    if e != Leaf(op) && !(lo == 0 && hi == Size(level) && LeafAllowed(level, op)) {
      if e.Table? {
        var t := MapTable(e.entries, 0, level - 1, lo, hi, op, commit, pool);
        MapTableFlat(e.entries, level - 1, lo, hi, op, commit, pool, t, off);
      } else if pool != [] {
        SplitFlat(e, level, lo, hi, op, commit, pool, off);
      }
    }
  }

  /** The case of a block or absent entry that is first populated with a table of its parts. */
  lemma {:induction false} SplitFlat(e: Entry, level: nat, lo: nat, hi: nat, op: Op, commit: bool, pool: Pool, off: nat)
    requires Wf(e, level) && WfOp(op) && !e.Table? && level > 0 && pool != [] && off < Size(level)
    requires MapTable(SplitLeaf(e), 0, level - 1, lo, hi, op, commit, pool[1..]).ok || !commit
    ensures var t := MapTable(SplitLeaf(e), 0, level - 1, lo, hi, op, commit, pool[1..]);
            At(Table(pool[0], t.entries), level, off) == After(At(e, level, off), off, lo, hi, op, commit)
    decreases level - 1, 3, 0
  {
    IndexInBounds(off, ENTRIES, Size(level - 1));
    var t := MapTable(SplitLeaf(e), 0, level - 1, lo, hi, op, commit, pool[1..]);
    MapTableFlat(SplitLeaf(e), level - 1, lo, hi, op, commit, pool[1..], t, off);
  }

  /** Entry `k` of the result, at offset `q`. */
  lemma {:induction false} MapTableEntryFlat(es: seq<Entry>, j: nat, level: nat, lo: nat, hi: nat, op: Op, commit: bool,
                                             pool: Pool, r: TableResult, k: nat, q: nat)
    requires WfAll(es, level) && WfOp(op) && j <= |es| && k < |es| && q < Size(level)
    requires r == MapTable(es, j, level, lo, hi, op, commit, pool) && (r.ok || !commit)
    ensures At(r.entries[k], level, q) ==
            if j <= k then
              After(At(es[k], level, q), q, ClipLo(lo, k, Size(level)), ClipHi(hi, k, Size(level)), op, commit)
            else At(es[k], level, q)
    decreases level, 1, |es| - j
  {
    if j < |es| {
      if !Hit(j, level, lo, hi) {
        MapTableEntryFlat(es, j + 1, level, lo, hi, op, commit, pool, r, k, q);
      } else {
        var x := MapEntry(es[j], level, ClipLo(lo, j, Size(level)), ClipHi(hi, j, Size(level)), op, commit, pool);
        if j == k {
          MapEntryFlat(es[j], level, ClipLo(lo, j, Size(level)), ClipHi(hi, j, Size(level)), op, commit, pool, x, q);
        }
        if x.ok {
          MapTableEntryFlat(es[j := x.entry], j + 1, level, lo, hi, op, commit, x.pool, r, k, q);
        }
      }
    }
  }

  lemma {:induction false} MapTableFlat(es: seq<Entry>, level: nat, lo: nat, hi: nat, op: Op, commit: bool, pool: Pool,
                                        r: TableResult, off: nat)
    requires WfAll(es, level) && WfOp(op) && off < Span(|es|, level)
    requires r == MapTable(es, 0, level, lo, hi, op, commit, pool) && (r.ok || !commit)
    ensures TableAt(r.entries, level, off) == After(TableAt(es, level, off), off, lo, hi, op, commit)
    decreases level, 2, 0
  {
    IndexInBounds(off, |es|, Size(level));
    ClipOffset(lo, hi, off, Size(level));
    MapTableEntryFlat(es, 0, level, lo, hi, op, commit, pool, r, off / Size(level), off % Size(level));
  }

  // ---- The walk conserves pages ----

  lemma {:induction false} FreeEntryConserves(e: Entry, pool: Pool)
    ensures multiset(FreeEntry(e, pool)) == Pages(e) + multiset(pool)
    decreases e, 0
  {
    if e.Table? {
      FreeEntriesConserves(e.entries, pool);
    }
  }

  lemma {:induction false} FreeEntriesConserves(es: seq<Entry>, pool: Pool)
    ensures multiset(FreeEntries(es, pool)) == PagesAll(es) + multiset(pool)
    decreases es, 1
  {
    if es != [] {
      FreeEntryConserves(es[0], pool);
      FreeEntriesConserves(es[1..], FreeEntry(es[0], pool));
    }
  }

  lemma PopConserves(pool: Pool)
    requires pool != []
    ensures multiset(pool) == multiset{pool[0]} + multiset(pool[1..])
  {
    assert pool == [pool[0]] + pool[1..];
  }

  lemma {:induction false} MapEntryConserves(e: Entry, level: nat, lo: nat, hi: nat, op: Op, commit: bool, pool: Pool,
                                             r: EntryResult)
    requires Wf(e, level) && WfOp(op) && lo < hi <= Size(level)
    requires r == MapEntry(e, level, lo, hi, op, commit, pool)
    ensures Pages(r.entry) + multiset(r.pool) == Pages(e) + multiset(pool)
    decreases level, 0, 0
  {
    if e == Leaf(op) || (lo == 0 && hi == Size(level) && LeafAllowed(level, op)) {
      assert r == EntryResult(true, e, pool) || r == EntryResult(true, Leaf(op), FreeEntry(e, pool));
      FreeEntryConserves(e, pool);
    } else if e.Table? {
      DescendConserves(e.page, e.entries, level - 1, lo, hi, op, commit, pool);
    } else if pool == [] {
      assert r == EntryResult(false, e, pool);
    } else {
      PopulateConserves(e, level, lo, hi, op, commit, pool);
    }
  }

  lemma {:induction false} DescendConserves(p: Page, es: seq<Entry>, level: nat, lo: nat, hi: nat, op: Op,
                                            commit: bool, pool: Pool)
    requires WfAll(es, level) && WfOp(op)
    ensures var t := MapTable(es, 0, level, lo, hi, op, commit, pool);
            Pages(Table(p, t.entries)) + multiset(t.pool) == Pages(Table(p, es)) + multiset(pool)
    decreases level, 2, 0
  {
    var t := MapTable(es, 0, level, lo, hi, op, commit, pool);
    MapTableConserves(es, 0, level, lo, hi, op, commit, pool, t);
    AddBoth(multiset{p}, PagesAll(t.entries), multiset(t.pool), PagesAll(es), multiset(pool));
  }

  lemma {:induction false} PopulateConserves(e: Entry, level: nat, lo: nat, hi: nat, op: Op, commit: bool, pool: Pool)
    requires Wf(e, level) && WfOp(op) && !e.Table? && level > 0 && pool != []
    ensures var t := MapTable(SplitLeaf(e), 0, level - 1, lo, hi, op, commit, pool[1..]);
            Pages(Table(pool[0], t.entries)) + multiset(t.pool) == Pages(e) + multiset(pool)
    decreases level - 1, 2, 0
  {
    var leaves := SplitLeaf(e);
    var t := MapTable(leaves, 0, level - 1, lo, hi, op, commit, pool[1..]);
    MapTableConserves(leaves, 0, level - 1, lo, hi, op, commit, pool[1..], t);
    PagesOfLeaves(leaves);
    AddBoth(multiset{pool[0]}, PagesAll(t.entries), multiset(t.pool), PagesAll(leaves), multiset(pool[1..]));
    PopConserves(pool);
  }

  lemma {:induction false} MapTableConserves(es: seq<Entry>, j: nat, level: nat, lo: nat, hi: nat, op: Op, commit: bool,
                                             pool: Pool, r: TableResult)
    requires WfAll(es, level) && WfOp(op) && j <= |es|
    requires r == MapTable(es, j, level, lo, hi, op, commit, pool)
    ensures PagesAll(r.entries) + multiset(r.pool) == PagesAll(es) + multiset(pool)
    decreases level, 1, |es| - j
  {
    if j < |es| {
      if !Hit(j, level, lo, hi) {
        MapTableConserves(es, j + 1, level, lo, hi, op, commit, pool, r);
      } else {
        var x := MapEntry(es[j], level, ClipLo(lo, j, Size(level)), ClipHi(hi, j, Size(level)), op, commit, pool);
        MapEntryConserves(es[j], level, ClipLo(lo, j, Size(level)), ClipHi(hi, j, Size(level)), op, commit, pool, x);
        StepConserves(es, j, x.entry, x.pool, pool);
        if x.ok {
          MapTableConserves(es[j := x.entry], j + 1, level, lo, hi, op, commit, x.pool, r);
        }
      }
    }
  }

  lemma StepConserves(es: seq<Entry>, j: nat, e: Entry, after: Pool, before: Pool)
    requires j < |es| && Pages(e) + multiset(after) == Pages(es[j]) + multiset(before)
    ensures PagesAll(es[j := e]) + multiset(after) == PagesAll(es) + multiset(before)
  {
    PagesUpdate(es, j, e);
    Swap(PagesAll(es[j := e]), Pages(es[j]), PagesAll(es), Pages(e), multiset(after), multiset(before));
  }

  lemma Swap(a: multiset<Page>, x: multiset<Page>, b: multiset<Page>, y: multiset<Page>, q: multiset<Page>,
             p: multiset<Page>)
    requires a + x == b + y
    requires y + q == x + p
    ensures a + q == b + p
  {
    forall t: Page
      ensures (a + q)[t] == (b + p)[t]
    {
      assert (a + x)[t] == (b + y)[t];
      assert (y + q)[t] == (x + p)[t];
    }
  }
}
