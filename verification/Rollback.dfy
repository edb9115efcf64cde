/** A committed change of uniformly mapped ranges can be undone with the pages it freed
    (`ffa_send_check_update`, `ffa_relinquish_check_update`). */
module Rollback {
  import opened Arithmetic
  import opened PageTree
  import opened MapLevel
  import opened PrepareCommit

  /** Every table of `e` sits at a position where `f` has a table too. */
  ghost predicate Within(e: Entry, f: Entry) {
    e.Table? ==>
      && f.Table? && |e.entries| == |f.entries|
      && forall i :: 0 <= i < |e.entries| ==> Within(e.entries[i], f.entries[i])
  }

  ghost predicate WithinAll(es: seq<Entry>, fs: seq<Entry>) {
    |es| == |fs| && forall i :: 0 <= i < |es| ==> Within(es[i], fs[i])
  }

  lemma {:induction false} WithinSelf(e: Entry)
    ensures Within(e, e)
  {
    if e.Table? {
      forall i | 0 <= i < |e.entries|
        ensures Within(e.entries[i], e.entries[i])
      {
        WithinSelf(e.entries[i]);
      }
    }
  }

  lemma {:induction false} CommitWithin(e': Entry, e: Entry, f: Entry, op: Op)
    requires CommitOf(e', e, op) && Within(e, f)
    ensures Within(e', f)
    decreases e
  {
    if e' != e && e'.Table? {
      forall i | 0 <= i < |e'.entries|
        ensures Within(e'.entries[i], f.entries[i])
      {
        CommitWithin(e'.entries[i], e.entries[i], f.entries[i], op);
      }
    }
  }

  lemma {:induction false} WithinCount(e: Entry, f: Entry)
    requires Within(e, f)
    ensures |Pages(e)| <= |Pages(f)|
    decreases e, 0
  {
    if e.Table? {
      WithinCountAll(e.entries, f.entries, 0);
    }
  }

  /** The tables missing from `es` include those missing from its entry `i`. */
  lemma {:induction false} WithinCountAll(es: seq<Entry>, fs: seq<Entry>, i: nat)
    requires WithinAll(es, fs)
    ensures |PagesAll(es)| <= |PagesAll(fs)|
    ensures i < |es| ==> |PagesAll(es)| + |Pages(fs[i])| <= |PagesAll(fs)| + |Pages(es[i])|
    decreases es, 1
  {
    if es != [] {
      WithinCount(es[0], fs[0]);
      WithinCountAll(es[1..], fs[1..], if i == 0 then 0 else i - 1);
    }
  }

  // ---- Rolling back ----

  /** No page in the part of the range below `f` has the attributes `Val(op)`. */
  ghost predicate Avoids(f: Entry, level: nat, lo: nat, hi: nat, op: Op)
    requires Wf(f, level)
  {
    forall off: nat :: lo <= off < hi && off < Size(level) ==> At(f, level, off) != Val(op)
  }

  ghost predicate AvoidsTable(fs: seq<Entry>, level: nat, lo: nat, hi: nat, op: Op)
    requires WfAll(fs, level)
  {
    forall off: nat :: lo <= off < hi && off < Span(|fs|, level) ==> TableAt(fs, level, off) != Val(op)
  }

  lemma AvoidsEntry(fs: seq<Entry>, level: nat, lo: nat, hi: nat, op: Op, k: nat)
    requires WfAll(fs, level) && AvoidsTable(fs, level, lo, hi, op) && k < |fs| && Hit(k, level, lo, hi)
    ensures Avoids(fs[k], level, ClipLo(lo, k, Size(level)), ClipHi(hi, k, Size(level)), op)
  {
    var s := Size(level);
    forall q: nat | ClipLo(lo, k, s) <= q < ClipHi(hi, k, s)
      ensures At(fs[k], level, q) != Val(op)
    {
      TableAtEntry(fs, level, k, q);
    }
  }

  lemma AvoidsBelow(f: Entry, level: nat, lo: nat, hi: nat, op: Op)
    requires Wf(f, level) && Avoids(f, level, lo, hi, op) && f.Table?
    ensures AvoidsTable(f.entries, level - 1, lo, hi, op)
  {
    var below := level - 1;
    forall off: nat | lo <= off < hi && off < Span(|f.entries|, below)
      ensures TableAt(f.entries, below, off) != Val(op)
    {
      assert At(f, level, off) != Val(op);
    }
  }

  /** Where the rollback has to rebuild a table, the prepared tree had one: a leaf there would
      already have held what the forward operation writes. */
  lemma PreparedIsTable(f: Entry, level: nat, lo: nat, hi: nat, fwd: Op, back: Op)
    requires Wf(f, level) && WfOp(fwd) && WfOp(back) && lo < hi <= Size(level)
    requires ReadyEntry(f, level, lo, hi, fwd) && Avoids(f, level, lo, hi, fwd)
    requires !(lo == 0 && hi == Size(level) && LeafAllowed(level, back))
    ensures f.Table? && ReadyTable(f.entries, 0, level - 1, lo, hi, fwd)
    ensures AvoidsTable(f.entries, level - 1, lo, hi, fwd)
  {
    assert At(f, level, lo) != Val(fwd);
    AvoidsBelow(f, level, lo, hi, fwd);
    if lo == 0 && hi == Size(level) && LeafAllowed(level, fwd) {
      UnmapReady(f.entries, level - 1, hi, fwd);
    }
  }

  lemma UnmapReady(es: seq<Entry>, level: nat, hi: nat, op: Op)
    requires WfAll(es, level) && op.Unmap? && hi == Span(|es|, level)
    ensures ReadyTable(es, 0, level, 0, hi, op)
  {
    forall k | 0 <= k < |es| && Hit(k, level, 0, hi)
      ensures ReadyEntry(es[k], level, ClipLo(0, k, Size(level)), ClipHi(hi, k, Size(level)), op)
    {
      MulStep(k, |es|, Size(level));
    }
  }

  /** `f` is the prepared entry, `e` any later state of it whose tables `f` had. With enough
      pages to rebuild `f`'s tables the rollback succeeds and stays within `f`. */
  lemma {:induction false} RollbackEntry(e: Entry, f: Entry, level: nat, lo: nat, hi: nat, fwd: Op, back: Op,
                                         pool: Pool, r: EntryResult)
    requires Wf(e, level) && Wf(f, level) && Within(e, f)
    requires WfOp(fwd) && WfOp(back) && lo < hi <= Size(level)
    requires ReadyEntry(f, level, lo, hi, fwd) && Avoids(f, level, lo, hi, fwd)
    requires |pool| + |Pages(e)| >= |Pages(f)|
    requires r == MapEntry(e, level, lo, hi, back, true, pool)
    ensures r.ok && Within(r.entry, f)
    decreases level, 0, 0
  {
    if e != Leaf(back) && !(lo == 0 && hi == Size(level) && LeafAllowed(level, back)) {
      PreparedIsTable(f, level, lo, hi, fwd, back);
      if e.Table? {
        RollbackDescend(e, f, level, lo, hi, fwd, back, pool);
      } else {
        RollbackPopulate(e, f, level, lo, hi, fwd, back, pool);
      }
    }
  }

  lemma {:induction false} RollbackDescend(e: Entry, f: Entry, level: nat, lo: nat, hi: nat, fwd: Op, back: Op,
                                           pool: Pool)
    requires level > 0 && Wf(e, level) && Wf(f, level) && e.Table? && Within(e, f)
    requires WfOp(fwd) && WfOp(back) && lo < hi <= Size(level)
    requires ReadyTable(f.entries, 0, level - 1, lo, hi, fwd) && AvoidsTable(f.entries, level - 1, lo, hi, fwd)
    requires |pool| + |Pages(e)| >= |Pages(f)|
    ensures var t := MapTable(e.entries, 0, level - 1, lo, hi, back, true, pool);
            t.ok && Within(Table(e.page, t.entries), f)
    decreases level - 1, 3, 0
  {
    assert |Pages(e)| == 1 + |PagesAll(e.entries)| && |Pages(f)| == 1 + |PagesAll(f.entries)|;
    var t := MapTable(e.entries, 0, level - 1, lo, hi, back, true, pool);
    RollbackTable(e.entries, f.entries, 0, level - 1, lo, hi, fwd, back, pool, t);
  }

  lemma {:induction false} RollbackPopulate(e: Entry, f: Entry, level: nat, lo: nat, hi: nat, fwd: Op, back: Op,
                                            pool: Pool)
    requires level > 0 && Wf(e, level) && Wf(f, level) && !e.Table? && f.Table?
    requires WfOp(fwd) && WfOp(back) && lo < hi <= Size(level)
    requires ReadyTable(f.entries, 0, level - 1, lo, hi, fwd) && AvoidsTable(f.entries, level - 1, lo, hi, fwd)
    requires |pool| >= |Pages(f)|
    ensures pool != []
    ensures var t := MapTable(SplitLeaf(e), 0, level - 1, lo, hi, back, true, pool[1..]);
            t.ok && WithinAll(t.entries, f.entries)
    decreases level - 1, 3, 0
  {
    var leaves := SplitLeaf(e);
    PagesOfLeaves(leaves);
    assert |Pages(f)| == 1 + |PagesAll(f.entries)|;
    var t := MapTable(leaves, 0, level - 1, lo, hi, back, true, pool[1..]);
    RollbackTable(leaves, f.entries, 0, level - 1, lo, hi, fwd, back, pool[1..], t);
  }

  lemma {:induction false} RollbackTable(es: seq<Entry>, fs: seq<Entry>, j: nat, level: nat, lo: nat, hi: nat,
                                         fwd: Op, back: Op, pool: Pool, r: TableResult)
    requires WfAll(es, level) && WfAll(fs, level) && WithinAll(es, fs) && j <= |es|
    requires WfOp(fwd) && WfOp(back)
    requires ReadyTable(fs, 0, level, lo, hi, fwd) && AvoidsTable(fs, level, lo, hi, fwd)
    requires |pool| + |PagesAll(es)| >= |PagesAll(fs)|
    requires r == MapTable(es, j, level, lo, hi, back, true, pool)
    ensures r.ok && WithinAll(r.entries, fs)
    decreases level, 2, |es| - j
  {
    if j < |es| {
      if !Hit(j, level, lo, hi) {
        RollbackTable(es, fs, j + 1, level, lo, hi, fwd, back, pool, r);
      } else {
        var x := RollbackStep(es, fs, j, level, lo, hi, fwd, back, pool);
        RollbackTable(es[j := x.entry], fs, j + 1, level, lo, hi, fwd, back, x.pool, r);
      }
    }
  }

  lemma {:induction false} RollbackStep(es: seq<Entry>, fs: seq<Entry>, j: nat, level: nat, lo: nat, hi: nat, fwd: Op,
                                        back: Op, pool: Pool) returns (x: EntryResult)
    requires WfAll(es, level) && WfAll(fs, level) && WithinAll(es, fs) && j < |es| && Hit(j, level, lo, hi)
    requires WfOp(fwd) && WfOp(back)
    requires ReadyTable(fs, 0, level, lo, hi, fwd) && AvoidsTable(fs, level, lo, hi, fwd)
    requires |pool| + |PagesAll(es)| >= |PagesAll(fs)|
    ensures x == MapEntry(es[j], level, ClipLo(lo, j, Size(level)), ClipHi(hi, j, Size(level)), back, true, pool)
    ensures x.ok && WithinAll(es[j := x.entry], fs)
    ensures |x.pool| + |PagesAll(es[j := x.entry])| >= |PagesAll(fs)|
    decreases level, 1, 0
  {
    var l, h := ClipLo(lo, j, Size(level)), ClipHi(hi, j, Size(level));
    x := MapEntry(es[j], level, l, h, back, true, pool);
    AvoidsEntry(fs, level, lo, hi, fwd, j);
    WithinCountAll(es, fs, j);
    RollbackEntry(es[j], fs[j], level, l, h, fwd, back, pool, x);
    MapEntryConserves(es[j], level, l, h, back, true, pool, x);
    PagesUpdate(es, j, x.entry);
    CountStep(es, j, x, pool);
    WithinUpdate(es, fs, j, x.entry);
  }

  lemma WithinUpdate(es: seq<Entry>, fs: seq<Entry>, j: nat, e: Entry)
    requires WithinAll(es, fs) && j < |es| && Within(e, fs[j])
    ensures WithinAll(es[j := e], fs)
  {
  }

  lemma CountStep(es: seq<Entry>, j: nat, x: EntryResult, pool: Pool)
    requires j < |es|
    requires Pages(x.entry) + multiset(x.pool) == Pages(es[j]) + multiset(pool)
    requires PagesAll(es[j := x.entry]) + Pages(es[j]) == PagesAll(es) + Pages(x.entry)
    ensures |x.pool| + |PagesAll(es[j := x.entry])| == |pool| + |PagesAll(es)|
  {
    assert |Pages(x.entry) + multiset(x.pool)| == |Pages(es[j]) + multiset(pool)|;
    assert |PagesAll(es[j := x.entry]) + Pages(es[j])| == |PagesAll(es) + Pages(x.entry)|;
  }

  // ---- Lists of ranges ----

  ghost predicate AvoidsAll(fs: seq<Entry>, level: nat, ranges: seq<Range>, op: Op)
    requires WfAll(fs, level)
  {
    forall k :: 0 <= k < |ranges| ==> AvoidsTable(fs, level, ranges[k].lo, ranges[k].hi, op)
  }

  /** Every page of the ranges has the attributes `Val(op)`. */
  ghost predicate UniformAll(fs: seq<Entry>, level: nat, ranges: seq<Range>, op: Op)
    requires WfAll(fs, level)
  {
    forall off: nat :: off < Span(|fs|, level) && InRanges(off, ranges) ==> TableAt(fs, level, off) == Val(op)
  }

  /** The flat map of `gs` is that of `fs` with the ranges overwritten. */
  ghost predicate Overwritten(gs: seq<Entry>, fs: seq<Entry>, level: nat, ranges: seq<Range>, op: Op)
    requires WfAll(fs, level) && WfAll(gs, level)
  {
    |gs| == |fs| && forall off: nat :: off < Span(|fs|, level) ==>
      TableAt(gs, level, off) == if InRanges(off, ranges) then Val(op) else TableAt(fs, level, off)
  }

  lemma {:induction false} RollbackAll(es: seq<Entry>, fs: seq<Entry>, level: nat, ranges: seq<Range>, fwd: Op,
                                       back: Op, pool: Pool, r: TableResult)
    requires WfAll(es, level) && WfAll(fs, level) && WithinAll(es, fs)
    requires WfOp(fwd) && WfOp(back)
    requires ReadyAll(fs, level, ranges, fwd) && AvoidsAll(fs, level, ranges, fwd)
    requires |pool| + |PagesAll(es)| >= |PagesAll(fs)|
    requires r == MapAll(es, level, ranges, back, true, pool)
    ensures r.ok
    decreases |ranges|
  {
    if ranges != [] {
      var lo, hi := ranges[0].lo, ranges[0].hi;
      var t := MapTable(es, 0, level, lo, hi, back, true, pool);
      RollbackTable(es, fs, 0, level, lo, hi, fwd, back, pool, t);
      MapTableConserves(es, 0, level, lo, hi, back, true, pool, t);
      assert |PagesAll(t.entries) + multiset(t.pool)| == |PagesAll(es) + multiset(pool)|;
      RollbackAll(t.entries, fs, level, ranges[1..], fwd, back, t.pool, r);
    }
  }

  lemma {:induction false} CommitAllWithin(es: seq<Entry>, fs: seq<Entry>, level: nat, ranges: seq<Range>, op: Op,
                                           pool: Pool, r: TableResult)
    requires WfAll(es, level) && WfOp(op) && ReadyAll(es, level, ranges, op) && WithinAll(es, fs)
    requires r == MapAll(es, level, ranges, op, true, pool)
    ensures WithinAll(r.entries, fs)
    decreases |ranges|
  {
    if ranges != [] {
      var lo, hi := ranges[0].lo, ranges[0].hi;
      var t := MapTable(es, 0, level, lo, hi, op, true, pool);
      CommitReadyTable(es, 0, level, lo, hi, op, pool, t);
      forall i | 0 <= i < |es|
        ensures Within(t.entries[i], fs[i])
      {
        CommitWithin(t.entries[i], es[i], fs[i], op);
      }
      forall k | 0 <= k < |ranges[1..]|
        ensures ReadyTable(t.entries, 0, level, ranges[1..][k].lo, ranges[1..][k].hi, op)
      {
        CommitKeepsReadyTable(t.entries, es, level, ranges[k + 1].lo, ranges[k + 1].hi, op);
      }
      CommitAllWithin(t.entries, fs, level, ranges[1..], op, t.pool, r);
    }
  }

  /** Once a list of ranges has been prepared for `fwd`, none of whose pages held `Val(fwd)`,
      committing `fwd` into an empty local pool and then committing `back` from that pool alone
      succeeds, and leaves `Val(back)` on the ranges. */
  lemma RollbackSettles(fs: seq<Entry>, level: nat, ranges: seq<Range>, fwd: Op, back: Op)
    requires WfAll(fs, level) && WfOp(fwd) && WfOp(back)
    requires ReadyAll(fs, level, ranges, fwd) && (fwd == back || AvoidsAll(fs, level, ranges, fwd))
    ensures var c := MapAll(fs, level, ranges, fwd, true, []);
            var b := MapAll(c.entries, level, ranges, back, true, c.pool);
            c.ok && b.ok && Overwritten(b.entries, fs, level, ranges, back)
  {
    var c := MapAll(fs, level, ranges, fwd, true, []);
    var b := MapAll(c.entries, level, ranges, back, true, c.pool);
    CommitAllReady(fs, level, ranges, fwd, [], ranges, c);
    if fwd == back {
      CommitAllReady(c.entries, level, ranges, back, c.pool, [], b);
    } else {
      forall i | 0 <= i < |fs|
        ensures Within(fs[i], fs[i])
      {
        WithinSelf(fs[i]);
      }
      CommitAllWithin(fs, fs, level, ranges, fwd, [], c);
      MapAllConserves(fs, level, ranges, fwd, true, [], c);
      assert |PagesAll(c.entries) + multiset(c.pool)| == |PagesAll(fs)|;
      RollbackAll(c.entries, fs, level, ranges, fwd, back, c.pool, b);
    }
    forall off: nat | off < Span(|fs|, level)
      ensures TableAt(b.entries, level, off) == if InRanges(off, ranges) then Val(back) else TableAt(fs, level, off)
    {
      MapAllFlat(fs, level, ranges, fwd, true, [], c, off);
      MapAllFlat(c.entries, level, ranges, back, true, c.pool, b, off);
    }
  }

  /** In particular, ranges that all held `Val(back)` are restored. */
  lemma RollbackRestores(fs: seq<Entry>, level: nat, ranges: seq<Range>, fwd: Op, back: Op)
    requires WfAll(fs, level) && WfOp(fwd) && WfOp(back)
    requires ReadyAll(fs, level, ranges, fwd) && UniformAll(fs, level, ranges, back)
    ensures var c := MapAll(fs, level, ranges, fwd, true, []);
            var b := MapAll(c.entries, level, ranges, back, true, c.pool);
            c.ok && b.ok && SameFlat(b.entries, fs, level)
  {
    UniformAvoids(fs, level, ranges, fwd, back);
    RollbackSettles(fs, level, ranges, fwd, back);
  }

  lemma UniformAvoids(fs: seq<Entry>, level: nat, ranges: seq<Range>, fwd: Op, back: Op)
    requires WfAll(fs, level) && WfOp(fwd) && WfOp(back) && UniformAll(fs, level, ranges, back)
    ensures fwd == back || AvoidsAll(fs, level, ranges, fwd)
  {
    if Val(fwd) == Val(back) {
      assert fwd == back;
    } else {
      forall k, off: nat | 0 <= k < |ranges| && ranges[k].lo <= off < ranges[k].hi && off < Span(|fs|, level)
        ensures TableAt(fs, level, off) != Val(fwd)
      {
        assert InRanges(off, ranges);
      }
    }
  }

  // ---- A local pool in front of its fallback ----

  lemma {:induction false} FreeFrame(e: Entry, p: Pool, q: Pool)
    ensures FreeEntry(e, p + q) == FreeEntry(e, p) + q
    decreases e, 0
  {
    if e.Table? {
      FreeAllFrame(e.entries, p, q);
    }
  }

  lemma {:induction false} FreeAllFrame(es: seq<Entry>, p: Pool, q: Pool)
    ensures FreeEntries(es, p + q) == FreeEntries(es, p) + q
    decreases es, 1
  {
    if es != [] {
      FreeFrame(es[0], p, q);
      FreeAllFrame(es[1..], FreeEntry(es[0], p), q);
    }
  }

  /** An operation that succeeds with the local pool `p` alone does the same, and leaves the
      fallback `q` alone, when `p` is backed by `q`. */
  lemma {:induction false} MapEntryFrame(e: Entry, level: nat, lo: nat, hi: nat, op: Op, commit: bool, p: Pool,
                                         q: Pool, r: EntryResult)
    requires Wf(e, level) && WfOp(op) && lo < hi <= Size(level)
    requires r == MapEntry(e, level, lo, hi, op, commit, p) && r.ok
    ensures MapEntry(e, level, lo, hi, op, commit, p + q) == EntryResult(true, r.entry, r.pool + q)
    decreases level, 0, 0
  {
    if e == Leaf(op) || (lo == 0 && hi == Size(level) && LeafAllowed(level, op)) {
      FreeFrame(e, p, q);
    } else if e.Table? {
      var t := MapTable(e.entries, 0, level - 1, lo, hi, op, commit, p);
      MapTableFrame(e.entries, 0, level - 1, lo, hi, op, commit, p, q, t);
    } else {
      PopulateFrame(e, level, lo, hi, op, commit, p, q);
    }
  }

  lemma {:induction false} PopulateFrame(e: Entry, level: nat, lo: nat, hi: nat, op: Op, commit: bool, p: Pool, q: Pool)
    requires Wf(e, level) && WfOp(op) && !e.Table? && level > 0 && p != []
    ensures var t := MapTable(SplitLeaf(e), 0, level - 1, lo, hi, op, commit, p[1..]);
            t.ok ==>
              MapTable(SplitLeaf(e), 0, level - 1, lo, hi, op, commit, (p + q)[1..])
              == TableResult(true, t.entries, t.pool + q)
    decreases level - 1, 2, 0
  {
    var t := MapTable(SplitLeaf(e), 0, level - 1, lo, hi, op, commit, p[1..]);
    if t.ok {
      MapTableFrame(SplitLeaf(e), 0, level - 1, lo, hi, op, commit, p[1..], q, t);
      assert (p + q)[1..] == p[1..] + q;
    }
  }

  lemma {:induction false} MapTableFrame(es: seq<Entry>, j: nat, level: nat, lo: nat, hi: nat, op: Op, commit: bool,
                                         p: Pool, q: Pool, r: TableResult)
    requires WfAll(es, level) && WfOp(op) && j <= |es|
    requires r == MapTable(es, j, level, lo, hi, op, commit, p) && r.ok
    ensures MapTable(es, j, level, lo, hi, op, commit, p + q) == TableResult(true, r.entries, r.pool + q)
    decreases level, 1, |es| - j
  {
    if j < |es| {
      if !Hit(j, level, lo, hi) {
        MapTableFrame(es, j + 1, level, lo, hi, op, commit, p, q, r);
      } else {
        var l, h := ClipLo(lo, j, Size(level)), ClipHi(hi, j, Size(level));
        var x := MapEntry(es[j], level, l, h, op, commit, p);
        MapEntryFrame(es[j], level, l, h, op, commit, p, q, x);
        MapTableFrame(es[j := x.entry], j + 1, level, lo, hi, op, commit, x.pool, q, r);
      }
    }
  }

  lemma {:induction false} MapAllFrame(es: seq<Entry>, level: nat, ranges: seq<Range>, op: Op, commit: bool, p: Pool,
                                       q: Pool, r: TableResult)
    requires WfAll(es, level) && WfOp(op) && r == MapAll(es, level, ranges, op, commit, p) && r.ok
    ensures MapAll(es, level, ranges, op, commit, p + q) == TableResult(true, r.entries, r.pool + q)
    decreases |ranges|
  {
    if ranges != [] {
      var t := MapTable(es, 0, level, ranges[0].lo, ranges[0].hi, op, commit, p);
      MapTableFrame(es, 0, level, ranges[0].lo, ranges[0].hi, op, commit, p, q, t);
      MapAllFrame(t.entries, level, ranges[1..], op, commit, t.pool, q, r);
    }
  }

  /** The same with the local pool backed by the shared pool `q`: neither commit takes a page of
      `q`, and no page is lost. */
  lemma RollbackWithFallback(fs: seq<Entry>, level: nat, ranges: seq<Range>, fwd: Op, back: Op, q: Pool)
    requires WfAll(fs, level) && WfOp(fwd) && WfOp(back)
    requires ReadyAll(fs, level, ranges, fwd) && (fwd == back || AvoidsAll(fs, level, ranges, fwd))
    ensures var c := MapAll(fs, level, ranges, fwd, true, q);
            var b := MapAll(c.entries, level, ranges, back, true, c.pool);
            && c.ok && b.ok && Pushed(c.pool, q) && Pushed(b.pool, q) && Overwritten(b.entries, fs, level, ranges, back)
            && PagesAll(b.entries) + multiset(b.pool) == PagesAll(fs) + multiset(q)
  {
    RollbackSettles(fs, level, ranges, fwd, back);
    var c0 := MapAll(fs, level, ranges, fwd, true, []);
    var b0 := MapAll(c0.entries, level, ranges, back, true, c0.pool);
    MapAllFrame(fs, level, ranges, fwd, true, [], q, c0);
    assert [] + q == q;
    MapAllFrame(c0.entries, level, ranges, back, true, c0.pool, q, b0);
    var c := MapAll(fs, level, ranges, fwd, true, q);
    var b := MapAll(c.entries, level, ranges, back, true, c.pool);
    MapAllConserves(fs, level, ranges, fwd, true, q, c);
    MapAllConserves(c.entries, level, ranges, back, true, c.pool, b);
  }
}
