/** Defragmentation (`mm_ptable_defrag`, `mm_ptable_defrag_entry`, `mm_merge_table_pte`). */
module Defrag {
  import opened Arithmetic
  import opened Collections
  import opened PageTree
  import opened MapLevel
  import opened PrepareCommit

  datatype Defragged = Defragged(entry: Entry, pool: Pool)
  datatype DefraggedTable = DefraggedTable(entries: seq<Entry>, pool: Pool)

  predicate Present(e: Entry) {
    e != Absent
  }

  /** The test of entry `i` against the first entry: both absent, or entry `i` is a block whose
      attributes equal the attribute bits of the first entry, whatever that is. */
  predicate MatchesFirst(es: seq<Entry>, i: nat)
    requires |es| > 0 && i < |es|
  {
    && Present(es[i]) == Present(es[0])
    && (Present(es[i]) ==> es[i].Block? && es[i].attrs == EntryAttrs(es[0]))
  }

  predicate Mergeable(es: seq<Entry>)
    requires |es| == ENTRIES
  {
    forall i :: 1 <= i < |es| ==> MatchesFirst(es, i)
  }

  /** The entry that replaces a mergeable table, or the table if blocks are not allowed. */
  function Merge(table: Entry, level: nat): Entry
    requires table.Table? && |table.entries| == ENTRIES
  {
    if !Present(table.entries[0]) then Absent
    else if !BlockAllowed(level) then table
    else Block(EntryAttrs(table.entries[0]))
  }

  function DefragEntry(e: Entry, level: nat, pool: Pool): (r: Defragged)
    requires Wf(e, level)
    ensures Wf(r.entry, level)
    decreases level, 0, 0
  {
    if !e.Table? then
      Defragged(e, pool)
    else
      var t := DefragTable(e.entries, 0, level - 1, pool);
      var table := Table(e.page, t.entries);
      if Mergeable(t.entries) && Merge(table, level) != table then
        assert MatchesFirst(t.entries, 1) && Wf(t.entries[1], level - 1);
        Defragged(Merge(table, level), FreeEntry(table, t.pool))
      else
        Defragged(table, t.pool)
  }

  function DefragTable(es: seq<Entry>, j: nat, level: nat, pool: Pool): (r: DefraggedTable)
    requires WfAll(es, level) && j <= |es|
    ensures WfAll(r.entries, level) && |r.entries| == |es|
    decreases level, 1, |es| - j
  {
    if j == |es| then
      DefraggedTable(es, pool)
    else
      var r := DefragEntry(es[j], level, pool);
      DefragTable(es[j := r.entry], j + 1, level, r.pool)
  }

  // ---- Canonical trees ----

  /** No table that a leaf could replace. */
  ghost predicate Canonical(e: Entry, level: nat)
    requires Wf(e, level)
  {
    e.Table? ==>
      && CanonicalAll(e.entries, level - 1)
      && (exists i :: 0 <= i < ENTRIES && e.entries[i] != Absent)
      && (BlockAllowed(level) ==>
            exists i :: 0 <= i < ENTRIES && !(e.entries[i].Block? && e.entries[i] == e.entries[0]))
  }

  ghost predicate CanonicalAll(es: seq<Entry>, level: nat)
    requires WfAll(es, level)
  {
    forall i :: 0 <= i < |es| ==> Canonical(es[i], level)
  }

  /** Equal up to the pages that hold the tables. */
  ghost predicate SameShape(e: Entry, f: Entry) {
    match (e, f)
    case (Absent, Absent) => true
    case (Block(a), Block(b)) => a == b
    case (Table(_, es), Table(_, fs)) => |es| == |fs| && forall i :: 0 <= i < |es| ==> SameShape(es[i], fs[i])
    case _ => false
  }

  ghost predicate SameShapeAll(es: seq<Entry>, fs: seq<Entry>) {
    |es| == |fs| && forall i :: 0 <= i < |es| ==> SameShape(es[i], fs[i])
  }

  ghost predicate SamePages(e: Entry, f: Entry, level: nat)
    requires Wf(e, level) && Wf(f, level)
  {
    forall off: nat :: off < Size(level) ==> At(e, level, off) == At(f, level, off)
  }

  /** A canonical entry all of whose pages have the same attributes as a leaf is that leaf. */
  lemma {:induction false} CanonicalLeaf(e: Entry, level: nat, leaf: Entry)
    requires Wf(e, level) && Canonical(e, level) && !leaf.Table? && Wf(leaf, level)
    requires SamePages(e, leaf, level)
    ensures e == leaf
    decreases level
  {
    assert At(e, level, 0) == At(leaf, level, 0);
    if e.Table? {
      var below := level - 1;
      forall i | 0 <= i < ENTRIES
        ensures e.entries[i] == leaf
      {
        forall q: nat | q < Size(below)
          ensures At(e.entries[i], below, q) == At(leaf, below, q)
        {
          TableAtEntry(e.entries, below, i, q);
          assert At(e, level, i * Size(below) + q) == At(leaf, level, i * Size(below) + q);
        }
        CanonicalLeaf(e.entries[i], below, leaf);
      }
      assert false;
    }
  }

  /** Canonical trees are determined by the flat map they stand for. */
  lemma {:induction false} CanonicalUnique(e: Entry, f: Entry, level: nat)
    requires Wf(e, level) && Wf(f, level) && Canonical(e, level) && Canonical(f, level)
    requires SamePages(e, f, level)
    ensures SameShape(e, f)
    decreases level
  {
    if !f.Table? {
      CanonicalLeaf(e, level, f);
    } else if !e.Table? {
      assert SamePages(f, e, level);
      CanonicalLeaf(f, level, e);
    } else {
      var below := level - 1;
      forall i | 0 <= i < ENTRIES
        ensures SameShape(e.entries[i], f.entries[i])
      {
        SamePagesBelow(e, f, level, i);
        CanonicalUnique(e.entries[i], f.entries[i], below);
      }
    }
  }

  lemma SamePagesBelow(e: Entry, f: Entry, level: nat, i: nat)
    requires Wf(e, level) && Wf(f, level) && e.Table? && f.Table? && SamePages(e, f, level) && i < ENTRIES
    ensures SamePages(e.entries[i], f.entries[i], level - 1)
  {
    var below := level - 1;
    forall q: nat | q < Size(below)
      ensures At(e.entries[i], below, q) == At(f.entries[i], below, q)
    {
      TableAtEntry(e.entries, below, i, q);
      TableAtEntry(f.entries, below, i, q);
      assert At(e, level, i * Size(below) + q) == At(f, level, i * Size(below) + q);
    }
  }

  // ---- Defragmenting makes trees canonical, keeps the flat map and never allocates ----

  lemma {:induction false} DefragEntryCanonical(e: Entry, level: nat, pool: Pool, r: Defragged)
    requires Wf(e, level) && r == DefragEntry(e, level, pool)
    ensures Canonical(r.entry, level)
    decreases level, 0, 0
  {
    if e.Table? {
      var t := DefragTable(e.entries, 0, level - 1, pool);
      DefragTableCanonical(e.entries, 0, level - 1, pool, t);
      if r.entry.Table? {
        MergeCanonical(r.entry, level);
      }
    }
  }

  lemma MergeCanonical(table: Entry, level: nat)
    requires table.Table? && Wf(table, level) && CanonicalAll(table.entries, level - 1)
    requires !(Mergeable(table.entries) && Merge(table, level) != table)
    ensures Canonical(table, level)
  {
    var es := table.entries;
    if !Mergeable(es) {
      var i :| 1 <= i < |es| && !MatchesFirst(es, i);
      assert es[i] != Absent || es[0] != Absent;
      assert !(es[i].Block? && es[i] == es[0]);
    } else {
      assert es[0] != Absent && !BlockAllowed(level);
    }
  }

  lemma {:induction false} DefragTableCanonical(es: seq<Entry>, j: nat, level: nat, pool: Pool, r: DefraggedTable)
    requires WfAll(es, level) && j <= |es| && r == DefragTable(es, j, level, pool)
    requires forall i :: 0 <= i < j ==> Canonical(es[i], level)
    ensures CanonicalAll(r.entries, level)
    decreases level, 1, |es| - j
  {
    if j < |es| {
      var x := DefragEntry(es[j], level, pool);
      DefragEntryCanonical(es[j], level, pool, x);
      DefragTableCanonical(es[j := x.entry], j + 1, level, x.pool, r);
    }
  }

  lemma {:induction false} DefragEntryFlat(e: Entry, level: nat, pool: Pool, r: Defragged, off: nat)
    requires Wf(e, level) && r == DefragEntry(e, level, pool) && off < Size(level)
    ensures At(r.entry, level, off) == At(e, level, off)
    decreases level, 0, 0
  {
    if e.Table? {
      var t := DefragTable(e.entries, 0, level - 1, pool);
      var i, q := off / Size(level - 1), off % Size(level - 1);
      IndexInBounds(off, ENTRIES, Size(level - 1));
      DefragTableFlat(e.entries, 0, level - 1, pool, t, i, q);
      if Mergeable(t.entries) {
        MergeFlat(Table(e.page, t.entries), level, i, q);
      }
    }
  }

  lemma MergeFlat(table: Entry, level: nat, i: nat, q: nat)
    requires table.Table? && Wf(table, level) && Mergeable(table.entries) && i < ENTRIES && q < Size(level - 1)
    ensures Merge(table, level) != table ==> At(table.entries[i], level - 1, q) == EntryAttrs(Merge(table, level))
  {
    assert MatchesFirst(table.entries, 1);
    if i > 0 {
      assert MatchesFirst(table.entries, i);
    }
  }

  lemma {:induction false} DefragTableFlat(es: seq<Entry>, j: nat, level: nat, pool: Pool, r: DefraggedTable, i: nat,
                                           q: nat)
    requires WfAll(es, level) && j <= |es| && r == DefragTable(es, j, level, pool) && i < |es| && q < Size(level)
    ensures At(r.entries[i], level, q) == At(es[i], level, q)
    decreases level, 1, |es| - j
  {
    if j < |es| {
      var x := DefragEntry(es[j], level, pool);
      if i == j {
        DefragEntryFlat(es[j], level, pool, x, q);
      }
      DefragTableFlat(es[j := x.entry], j + 1, level, x.pool, r, i, q);
    }
  }

  lemma {:induction false} DefragEntryConserves(e: Entry, level: nat, pool: Pool, r: Defragged)
    requires Wf(e, level) && r == DefragEntry(e, level, pool)
    ensures Pages(r.entry) + multiset(r.pool) == Pages(e) + multiset(pool)
    decreases level, 0, 0
  {
    if e.Table? {
      var t := DefragTable(e.entries, 0, level - 1, pool);
      var table := Table(e.page, t.entries);
      DefragTableConserves(e.entries, 0, level - 1, pool, t);
      AddBoth(multiset{e.page}, PagesAll(t.entries), multiset(t.pool), PagesAll(e.entries), multiset(pool));
      assert Pages(table) + multiset(t.pool) == Pages(e) + multiset(pool);
      FreeEntryConserves(table, t.pool);
    }
  }

  lemma {:induction false} DefragTableConserves(es: seq<Entry>, j: nat, level: nat, pool: Pool, r: DefraggedTable)
    requires WfAll(es, level) && j <= |es| && r == DefragTable(es, j, level, pool)
    ensures PagesAll(r.entries) + multiset(r.pool) == PagesAll(es) + multiset(pool)
    decreases level, 1, |es| - j
  {
    if j < |es| {
      var x := DefragEntry(es[j], level, pool);
      DefragEntryConserves(es[j], level, pool, x);
      PagesUpdate(es, j, x.entry);
      Swap(PagesAll(es[j := x.entry]), Pages(es[j]), PagesAll(es), Pages(x.entry), multiset(x.pool), multiset(pool));
      DefragTableConserves(es[j := x.entry], j + 1, level, x.pool, r);
    }
  }

  lemma {:induction false} DefragEntryPushes(e: Entry, level: nat, pool: Pool, r: Defragged)
    requires Wf(e, level) && r == DefragEntry(e, level, pool)
    ensures Pushed(r.pool, pool)
    decreases level, 0, 0
  {
    if e.Table? {
      var t := DefragTable(e.entries, 0, level - 1, pool);
      var table := Table(e.page, t.entries);
      DefragTablePushes(e.entries, 0, level - 1, pool, t);
      FreePushes(table, t.pool);
      PushedTrans(FreeEntry(table, t.pool), t.pool, pool);
    }
  }

  lemma {:induction false} DefragTablePushes(es: seq<Entry>, j: nat, level: nat, pool: Pool, r: DefraggedTable)
    requires WfAll(es, level) && j <= |es| && r == DefragTable(es, j, level, pool)
    ensures Pushed(r.pool, pool)
    decreases level, 1, |es| - j
  {
    if j < |es| {
      var x := DefragEntry(es[j], level, pool);
      DefragEntryPushes(es[j], level, pool, x);
      DefragTablePushes(es[j := x.entry], j + 1, level, x.pool, r);
      PushedTrans(r.pool, x.pool, pool);
    }
  }

  /** A canonical tree is left as it is. */
  lemma {:induction false} DefragEntryIdempotent(e: Entry, level: nat, pool: Pool)
    requires Wf(e, level) && Canonical(e, level)
    ensures DefragEntry(e, level, pool) == Defragged(e, pool)
    decreases level, 0, 0
  {
    if e.Table? {
      DefragTableIdempotent(e.entries, 0, level - 1, pool);
      CanonicalNotMerged(e, level);
    }
  }

  lemma CanonicalNotMerged(table: Entry, level: nat)
    requires table.Table? && Wf(table, level) && Canonical(table, level)
    ensures !(Mergeable(table.entries) && Merge(table, level) != table)
  {
    var es := table.entries;
    if es[0] == Absent {
      var i :| 0 <= i < ENTRIES && es[i] != Absent;
      assert !MatchesFirst(es, i);
    } else if es[0].Table? {
      assert Wf(es[1], level - 1) && !MatchesFirst(es, 1);
    } else if BlockAllowed(level) {
      var i :| 0 <= i < ENTRIES && !(es[i].Block? && es[i] == es[0]);
      assert !MatchesFirst(es, i);
    }
  }

  lemma {:induction false} DefragTableIdempotent(es: seq<Entry>, j: nat, level: nat, pool: Pool)
    requires WfAll(es, level) && j <= |es| && CanonicalAll(es, level)
    ensures DefragTable(es, j, level, pool) == DefraggedTable(es, pool)
    decreases level, 1, |es| - j
  {
    if j < |es| {
      DefragEntryIdempotent(es[j], level, pool);
      assert es[j := es[j]] == es;
      DefragTableIdempotent(es, j + 1, level, pool);
    }
  }

  // ---- Whole page tables ----

  /** Defragmenting keeps the flat map, gives pages back but never takes one, loses none, and
      a second pass changes nothing. */
  lemma DefragRoot(root: seq<Entry>, level: nat, pool: Pool)
    requires WfAll(root, level)
    ensures var d := DefragTable(root, 0, level, pool);
            && SameFlat(d.entries, root, level)
            && CanonicalAll(d.entries, level)
            && Pushed(d.pool, pool)
            && PagesAll(d.entries) + multiset(d.pool) == PagesAll(root) + multiset(pool)
            && DefragTable(d.entries, 0, level, d.pool) == d
  {
    var d := DefragTable(root, 0, level, pool);
    forall i, q: nat | 0 <= i < |root| && q < Size(level)
      ensures At(d.entries[i], level, q) == At(root[i], level, q)
    {
      DefragTableFlat(root, 0, level, pool, d, i, q);
    }
    SameFlatFromEntries(d.entries, root, level);
    DefragTableCanonical(root, 0, level, pool, d);
    DefragTableConserves(root, 0, level, pool, d);
    DefragTablePushes(root, 0, level, pool, d);
    DefragTableIdempotent(d.entries, 0, level, d.pool);
  }

  /** Two page tables with the same flat map have the same shape once defragmented. */
  lemma DefragCanonical(root: seq<Entry>, other: seq<Entry>, level: nat, pool: Pool, otherPool: Pool)
    requires SameFlat(root, other, level)
    ensures SameShapeAll(DefragTable(root, 0, level, pool).entries, DefragTable(other, 0, level, otherPool).entries)
  {
    var d := DefragTable(root, 0, level, pool);
    var f := DefragTable(other, 0, level, otherPool);
    DefragRoot(root, level, pool);
    DefragRoot(other, level, otherPool);
    forall i | 0 <= i < |root|
      ensures SameShape(d.entries[i], f.entries[i])
    {
      forall q: nat | q < Size(level)
        ensures At(d.entries[i], level, q) == At(f.entries[i], level, q)
      {
        SameFlatEntry(d.entries, root, level, i, q);
        SameFlatEntry(f.entries, other, level, i, q);
        SameFlatEntry(root, other, level, i, q);
      }
      CanonicalUnique(d.entries[i], f.entries[i], level);
    }
  }
}
