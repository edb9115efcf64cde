/** Why committing prepared ranges cannot fail, and why a commit can be rolled back with the
    pages it freed (`mm_ptable_identity_prepare`, `mm_ptable_identity_commit`,
    `ffa_region_group_identity_map` and the rollbacks in `ffa_memory.c`). */
module PrepareCommit {
  import opened PageTree
  import opened MapLevel

  datatype Range = Range(lo: nat, hi: nat)

  // ---- Ready: the commit of a range finds every table it needs ----

  ghost predicate ReadyEntry(e: Entry, level: nat, lo: nat, hi: nat, op: Op)
    requires Wf(e, level)
    decreases level, 0
  {
    || e == Leaf(op)
    || (lo == 0 && hi == Size(level) && LeafAllowed(level, op))
    || (e.Table? && ReadyTable(e.entries, 0, level - 1, lo, hi, op))
  }

  /** The entries from index `j` on are ready for their part of the range. */
  ghost predicate ReadyTable(es: seq<Entry>, j: nat, level: nat, lo: nat, hi: nat, op: Op)
    requires WfAll(es, level)
    decreases level, 1
  {
    forall k :: j <= k < |es| && Hit(k, level, lo, hi) ==>
      ReadyEntry(es[k], level, ClipLo(lo, k, Size(level)), ClipHi(hi, k, Size(level)), op)
  }

  lemma ReadyViaTable(e: Entry, level: nat, lo: nat, hi: nat, op: Op)
    requires e.Table? && Wf(e, level)
    ensures ReadyTable(e.entries, 0, level - 1, lo, hi, op) ==> ReadyEntry(e, level, lo, hi, op)
  {
  }

  lemma ReadyStep(es: seq<Entry>, j: nat, level: nat, lo: nat, hi: nat, op: Op, e: Entry)
    requires WfAll(es, level) && Wf(e, level) && j < |es| && ReadyTable(es, j, level, lo, hi, op)
    ensures ReadyTable(es[j := e], j + 1, level, lo, hi, op)
    ensures Hit(j, level, lo, hi) ==>
              ReadyEntry(es[j], level, ClipLo(lo, j, Size(level)), ClipHi(hi, j, Size(level)), op)
  {
  }

  /** `e'` is `e` with some leaves replaced by tables that stand for the same pages. */
  ghost predicate SplitOf(e': Entry, e: Entry) {
    || e' == e
    || (&& e'.Table?
        && if e.Table? then
             && e'.page == e.page && |e'.entries| == |e.entries|
             && forall i :: 0 <= i < |e.entries| ==> SplitOf(e'.entries[i], e.entries[i])
           else
             forall i :: 0 <= i < |e'.entries| ==> SplitOf(e'.entries[i], e))
  }

  /** `e'` is `e` with some entries replaced by the operation's leaf. */
  ghost predicate CommitOf(e': Entry, e: Entry, op: Op) {
    || e' == e
    || e' == Leaf(op)
    || (&& e.Table? && e'.Table? && e'.page == e.page && |e'.entries| == |e.entries|
        && forall i :: 0 <= i < |e.entries| ==> CommitOf(e'.entries[i], e.entries[i], op))
  }

  ghost predicate SplitOfAll(es': seq<Entry>, es: seq<Entry>) {
    |es'| == |es| && forall i :: 0 <= i < |es| ==> SplitOf(es'[i], es[i])
  }

  ghost predicate CommitOfAll(es': seq<Entry>, es: seq<Entry>, op: Op) {
    |es'| == |es| && forall i :: 0 <= i < |es| ==> CommitOf(es'[i], es[i], op)
  }

  lemma {:induction false} SplitKeepsReady(e': Entry, e: Entry, level: nat, lo: nat, hi: nat, op: Op)
    requires Wf(e, level) && Wf(e', level) && SplitOf(e', e) && ReadyEntry(e, level, lo, hi, op)
    ensures ReadyEntry(e', level, lo, hi, op)
    decreases level
  {
    if e' != e && !(lo == 0 && hi == Size(level) && LeafAllowed(level, op)) {
      var s := Size(level - 1);
      forall j | 0 <= j < |e'.entries| && Hit(j, level - 1, lo, hi)
        ensures ReadyEntry(e'.entries[j], level - 1, ClipLo(lo, j, s), ClipHi(hi, j, s), op)
      {
        if e.Table? {
          SplitKeepsReady(e'.entries[j], e.entries[j], level - 1, ClipLo(lo, j, s), ClipHi(hi, j, s), op);
        } else {
          SplitKeepsReady(e'.entries[j], e, level - 1, ClipLo(lo, j, s), ClipHi(hi, j, s), op);
        }
      }
    }
  }

  lemma {:induction false} CommitKeepsReady(e': Entry, e: Entry, level: nat, lo: nat, hi: nat, op: Op)
    requires Wf(e, level) && Wf(e', level) && CommitOf(e', e, op) && ReadyEntry(e, level, lo, hi, op)
    ensures ReadyEntry(e', level, lo, hi, op)
    decreases level
  {
    if e' != e && e' != Leaf(op) && !(lo == 0 && hi == Size(level) && LeafAllowed(level, op)) {
      var s := Size(level - 1);
      forall j | 0 <= j < |e'.entries| && Hit(j, level - 1, lo, hi)
        ensures ReadyEntry(e'.entries[j], level - 1, ClipLo(lo, j, s), ClipHi(hi, j, s), op)
      {
        CommitKeepsReady(e'.entries[j], e.entries[j], level - 1, ClipLo(lo, j, s), ClipHi(hi, j, s), op);
      }
    }
  }

  /** `p` is `q` with pages pushed in front: nothing was allocated from `q`. */
  ghost predicate Pushed(p: Pool, q: Pool) {
    |q| <= |p| && p[|p| - |q|..] == q
  }

  lemma PushedTrans(p: Pool, q: Pool, r: Pool)
    requires Pushed(p, q) && Pushed(q, r)
    ensures Pushed(p, r)
  {
    assert p[|p| - |r|..] == p[|p| - |q|..][|q| - |r|..];
  }

  lemma {:induction false} FreePushes(e: Entry, pool: Pool)
    ensures Pushed(FreeEntry(e, pool), pool)
    decreases e, 0
  {
    if e.Table? {
      FreeAllPushes(e.entries, pool);
      assert FreeEntry(e, pool)[1..] == FreeEntries(e.entries, pool);
      PushedTrans(FreeEntry(e, pool), FreeEntries(e.entries, pool), pool);
    }
  }

  lemma {:induction false} FreeAllPushes(es: seq<Entry>, pool: Pool)
    ensures Pushed(FreeEntries(es, pool), pool)
    decreases es, 1
  {
    if es != [] {
      FreePushes(es[0], pool);
      FreeAllPushes(es[1..], FreeEntry(es[0], pool));
      PushedTrans(FreeEntries(es, pool), FreeEntry(es[0], pool), pool);
    }
  }

  // ---- A commit of a ready range allocates nothing and succeeds ----

  lemma {:induction false} CommitReadyEntry(e: Entry, level: nat, lo: nat, hi: nat, op: Op, pool: Pool, r: EntryResult)
    requires Wf(e, level) && WfOp(op) && lo < hi <= Size(level)
    requires ReadyEntry(e, level, lo, hi, op) && r == MapEntry(e, level, lo, hi, op, true, pool)
    ensures r.ok && CommitOf(r.entry, e, op)
    decreases level, 0, 0
  {
    if e != Leaf(op) && !(lo == 0 && hi == Size(level) && LeafAllowed(level, op)) {
      var t := MapTable(e.entries, 0, level - 1, lo, hi, op, true, pool);
      CommitReadyTable(e.entries, 0, level - 1, lo, hi, op, pool, t);
    }
  }

  lemma {:induction false} CommitReadyTable(es: seq<Entry>, j: nat, level: nat, lo: nat, hi: nat, op: Op, pool: Pool,
                                            r: TableResult)
    requires WfAll(es, level) && WfOp(op) && j <= |es|
    requires ReadyTable(es, j, level, lo, hi, op) && r == MapTable(es, j, level, lo, hi, op, true, pool)
    ensures r.ok && CommitOfAll(r.entries, es, op)
    ensures forall k :: 0 <= k < j ==> r.entries[k] == es[k]
    decreases level, 1, |es| - j
  {
    if j < |es| {
      ReadyStep(es, j, level, lo, hi, op, es[j]);
      if !Hit(j, level, lo, hi) {
        assert es[j := es[j]] == es;
        CommitReadyTable(es, j + 1, level, lo, hi, op, pool, r);
      } else {
        var x := MapEntry(es[j], level, ClipLo(lo, j, Size(level)), ClipHi(hi, j, Size(level)), op, true, pool);
        CommitReadyEntry(es[j], level, ClipLo(lo, j, Size(level)), ClipHi(hi, j, Size(level)), op, pool, x);
        ReadyStep(es, j, level, lo, hi, op, x.entry);
        CommitReadyTable(es[j := x.entry], j + 1, level, lo, hi, op, x.pool, r);
        CommitOfStep(r.entries, es, j, x.entry, op);
      }
    }
  }

  lemma {:induction false} CommitPushesEntry(e: Entry, level: nat, lo: nat, hi: nat, op: Op, pool: Pool, r: EntryResult)
    requires Wf(e, level) && WfOp(op) && lo < hi <= Size(level)
    requires ReadyEntry(e, level, lo, hi, op) && r == MapEntry(e, level, lo, hi, op, true, pool)
    ensures Pushed(r.pool, pool)
    decreases level, 0, 0
  {
    if e == Leaf(op) {
    } else if lo == 0 && hi == Size(level) && LeafAllowed(level, op) {
      FreePushes(e, pool);
    } else {
      var t := MapTable(e.entries, 0, level - 1, lo, hi, op, true, pool);
      CommitPushesTable(e.entries, 0, level - 1, lo, hi, op, pool, t);
    }
  }

  lemma {:induction false} CommitPushesTable(es: seq<Entry>, j: nat, level: nat, lo: nat, hi: nat, op: Op,
                                             pool: Pool, r: TableResult)
    requires WfAll(es, level) && WfOp(op) && j <= |es|
    requires ReadyTable(es, j, level, lo, hi, op) && r == MapTable(es, j, level, lo, hi, op, true, pool)
    ensures Pushed(r.pool, pool)
    decreases level, 1, |es| - j
  {
    if j < |es| {
      ReadyStep(es, j, level, lo, hi, op, es[j]);
      if !Hit(j, level, lo, hi) {
        assert es[j := es[j]] == es;
        CommitPushesTable(es, j + 1, level, lo, hi, op, pool, r);
      } else {
        var x := MapEntry(es[j], level, ClipLo(lo, j, Size(level)), ClipHi(hi, j, Size(level)), op, true, pool);
        CommitReadyEntry(es[j], level, ClipLo(lo, j, Size(level)), ClipHi(hi, j, Size(level)), op, pool, x);
        CommitPushesEntry(es[j], level, ClipLo(lo, j, Size(level)), ClipHi(hi, j, Size(level)), op, pool, x);
        ReadyStep(es, j, level, lo, hi, op, x.entry);
        CommitPushesTable(es[j := x.entry], j + 1, level, lo, hi, op, x.pool, r);
        PushedTrans(r.pool, x.pool, pool);
      }
    }
  }

  lemma CommitOfStep(es': seq<Entry>, es: seq<Entry>, j: nat, e: Entry, op: Op)
    requires j < |es| && CommitOfAll(es', es[j := e], op) && es'[j] == e && CommitOf(e, es[j], op)
    ensures CommitOfAll(es', es, op)
  {
    forall k | 0 <= k < |es|
      ensures CommitOf(es'[k], es[k], op)
    {
      assert CommitOf(es'[k], es[j := e][k], op);
    }
  }

  // ---- A successful prepare makes its range ready ----

  lemma {:induction false} PrepareEntry(e: Entry, level: nat, lo: nat, hi: nat, op: Op, pool: Pool, r: EntryResult)
    requires Wf(e, level) && WfOp(op) && lo < hi <= Size(level)
    requires r == MapEntry(e, level, lo, hi, op, false, pool)
    ensures SplitOf(r.entry, e) && (r.ok ==> ReadyEntry(r.entry, level, lo, hi, op))
    decreases level, 0, 0
  {
    if e == Leaf(op) || (lo == 0 && hi == Size(level) && LeafAllowed(level, op)) {
      assert r.entry == e;
    } else if e.Table? {
      var t := MapTable(e.entries, 0, level - 1, lo, hi, op, false, pool);
      PrepareTable(e.entries, 0, level - 1, lo, hi, op, pool, t);
      ReadyViaTable(r.entry, level, lo, hi, op);
    } else if pool != [] {
      PreparePopulate(e, level, lo, hi, op, pool);
    }
  }

  lemma {:induction false} PreparePopulate(e: Entry, level: nat, lo: nat, hi: nat, op: Op, pool: Pool)
    requires Wf(e, level) && WfOp(op) && lo < hi <= Size(level) && level > 0 && !e.Table? && pool != []
    ensures var t := MapTable(SplitLeaf(e), 0, level - 1, lo, hi, op, false, pool[1..]);
            var e' := Table(pool[0], t.entries);
            SplitOf(e', e) && (t.ok ==> ReadyEntry(e', level, lo, hi, op))
    decreases level - 1, 2, 0
  {
    var t := MapTable(SplitLeaf(e), 0, level - 1, lo, hi, op, false, pool[1..]);
    PrepareTable(SplitLeaf(e), 0, level - 1, lo, hi, op, pool[1..], t);
    ReadyViaTable(Table(pool[0], t.entries), level, lo, hi, op);
  }

  lemma {:induction false} PrepareTable(es: seq<Entry>, j: nat, level: nat, lo: nat, hi: nat, op: Op, pool: Pool,
                                        r: TableResult)
    requires WfAll(es, level) && WfOp(op) && j <= |es|
    requires r == MapTable(es, j, level, lo, hi, op, false, pool)
    ensures SplitOfAll(r.entries, es) && (r.ok ==> ReadyTable(r.entries, j, level, lo, hi, op))
    ensures r.entries[..j] == es[..j]
    decreases level, 1, |es| - j
  {
    if j < |es| {
      if !Hit(j, level, lo, hi) {
        PrepareTable(es, j + 1, level, lo, hi, op, pool, r);
        assert r.entries[..j] == r.entries[..j + 1][..j];
      } else {
        var x := MapEntry(es[j], level, ClipLo(lo, j, Size(level)), ClipHi(hi, j, Size(level)), op, false, pool);
        PrepareEntry(es[j], level, ClipLo(lo, j, Size(level)), ClipHi(hi, j, Size(level)), op, pool, x);
        if x.ok {
          PrepareTable(es[j := x.entry], j + 1, level, lo, hi, op, x.pool, r);
          assert r.entries[j] == r.entries[..j + 1][j];
          assert r.entries[..j] == r.entries[..j + 1][..j];
        }
      }
    }
  }

  // ---- Lists of ranges ----

  /** Maps the ranges in order and stops at the first that fails. */
  function MapAll(es: seq<Entry>, level: nat, ranges: seq<Range>, op: Op, commit: bool, pool: Pool): (r: TableResult)
    requires WfAll(es, level) && WfOp(op)
    ensures WfAll(r.entries, level) && |r.entries| == |es|
    decreases |ranges|
  {
    if ranges == [] then
      TableResult(true, es, pool)
    else
      var r := MapTable(es, 0, level, ranges[0].lo, ranges[0].hi, op, commit, pool);
      if r.ok then MapAll(r.entries, level, ranges[1..], op, commit, r.pool) else r
  }

  ghost predicate InRanges(off: nat, ranges: seq<Range>) {
    exists k :: 0 <= k < |ranges| && ranges[k].lo <= off < ranges[k].hi
  }

  ghost predicate ReadyAll(es: seq<Entry>, level: nat, ranges: seq<Range>, op: Op)
    requires WfAll(es, level)
  {
    forall k :: 0 <= k < |ranges| ==> ReadyTable(es, 0, level, ranges[k].lo, ranges[k].hi, op)
  }

  lemma SplitKeepsReadyTable(es': seq<Entry>, es: seq<Entry>, level: nat, lo: nat, hi: nat, op: Op)
    requires WfAll(es, level) && WfAll(es', level) && SplitOfAll(es', es) && ReadyTable(es, 0, level, lo, hi, op)
    ensures ReadyTable(es', 0, level, lo, hi, op)
  {
    forall k | 0 <= k < |es'| && Hit(k, level, lo, hi)
      ensures ReadyEntry(es'[k], level, ClipLo(lo, k, Size(level)), ClipHi(hi, k, Size(level)), op)
    {
      SplitKeepsReady(es'[k], es[k], level, ClipLo(lo, k, Size(level)), ClipHi(hi, k, Size(level)), op);
    }
  }

  lemma CommitKeepsReadyTable(es': seq<Entry>, es: seq<Entry>, level: nat, lo: nat, hi: nat, op: Op)
    requires WfAll(es, level) && WfAll(es', level) && CommitOfAll(es', es, op) && ReadyTable(es, 0, level, lo, hi, op)
    ensures ReadyTable(es', 0, level, lo, hi, op)
  {
    forall k | 0 <= k < |es'| && Hit(k, level, lo, hi)
      ensures ReadyEntry(es'[k], level, ClipLo(lo, k, Size(level)), ClipHi(hi, k, Size(level)), op)
    {
      CommitKeepsReady(es'[k], es[k], level, ClipLo(lo, k, Size(level)), ClipHi(hi, k, Size(level)), op);
    }
  }

  /** Preparing a list of ranges, overlapping or not: whatever was ready stays ready, and if no
      prepare failed the whole list is ready. */
  lemma {:induction false} PrepareAllReady(es: seq<Entry>, level: nat, ranges: seq<Range>, op: Op, pool: Pool,
                                           others: seq<Range>, r: TableResult)
    requires WfAll(es, level) && WfOp(op) && ReadyAll(es, level, others, op)
    requires r == MapAll(es, level, ranges, op, false, pool)
    ensures ReadyAll(r.entries, level, others, op) && (r.ok ==> ReadyAll(r.entries, level, ranges, op))
    decreases |ranges|
  {
    if ranges != [] {
      var t := MapTable(es, 0, level, ranges[0].lo, ranges[0].hi, op, false, pool);
      PrepareTable(es, 0, level, ranges[0].lo, ranges[0].hi, op, pool, t);
      forall k | 0 <= k < |others|
        ensures ReadyTable(t.entries, 0, level, others[k].lo, others[k].hi, op)
      {
        SplitKeepsReadyTable(t.entries, es, level, others[k].lo, others[k].hi, op);
      }
      if t.ok {
        var more := [ranges[0]] + others;
        PrepareAllReady(t.entries, level, ranges[1..], op, t.pool, more, r);
        assert forall k :: 0 <= k < |others| ==> others[k] == more[k + 1];
        if r.ok {
          forall k | 0 <= k < |ranges|
            ensures ReadyTable(r.entries, 0, level, ranges[k].lo, ranges[k].hi, op)
          {
            assert if k == 0 then ranges[k] == more[0] else ranges[k] == ranges[1..][k - 1];
          }
        }
      }
    }
  }

  /** Committing ranges that are ready succeeds, allocates nothing, and leaves them ready. */
  lemma {:induction false} CommitAllReady(es: seq<Entry>, level: nat, ranges: seq<Range>, op: Op, pool: Pool,
                                          others: seq<Range>, r: TableResult)
    requires WfAll(es, level) && WfOp(op) && ReadyAll(es, level, ranges, op) && ReadyAll(es, level, others, op)
    requires r == MapAll(es, level, ranges, op, true, pool)
    ensures r.ok && Pushed(r.pool, pool) && ReadyAll(r.entries, level, others, op)
    decreases |ranges|
  {
    if ranges != [] {
      var t := MapTable(es, 0, level, ranges[0].lo, ranges[0].hi, op, true, pool);
      CommitReadyTable(es, 0, level, ranges[0].lo, ranges[0].hi, op, pool, t);
      CommitPushesTable(es, 0, level, ranges[0].lo, ranges[0].hi, op, pool, t);
      forall k | 0 <= k < |others|
        ensures ReadyTable(t.entries, 0, level, others[k].lo, others[k].hi, op)
      {
        CommitKeepsReadyTable(t.entries, es, level, others[k].lo, others[k].hi, op);
      }
      forall k | 0 <= k < |ranges[1..]|
        ensures ReadyTable(t.entries, 0, level, ranges[1..][k].lo, ranges[1..][k].hi, op)
      {
        CommitKeepsReadyTable(t.entries, es, level, ranges[k + 1].lo, ranges[k + 1].hi, op);
      }
      CommitAllReady(t.entries, level, ranges[1..], op, t.pool, others, r);
      PushedTrans(r.pool, t.pool, pool);
    }
  }

  /** The flat map after a list of ranges: `Val(op)` on their union if they were committed. */
  lemma {:induction false} MapAllFlat(es: seq<Entry>, level: nat, ranges: seq<Range>, op: Op, commit: bool, pool: Pool,
                                      r: TableResult, off: nat)
    requires WfAll(es, level) && WfOp(op) && off < Span(|es|, level)
    requires r == MapAll(es, level, ranges, op, commit, pool) && (r.ok || !commit)
    ensures TableAt(r.entries, level, off) ==
            if commit && InRanges(off, ranges) then Val(op) else TableAt(es, level, off)
    decreases |ranges|
  {
    if ranges != [] {
      var t := MapTable(es, 0, level, ranges[0].lo, ranges[0].hi, op, commit, pool);
      MapTableFlat(es, level, ranges[0].lo, ranges[0].hi, op, commit, pool, t, off);
      if t.ok {
        MapAllFlat(t.entries, level, ranges[1..], op, commit, t.pool, r, off);
      }
      InRangesTail(off, ranges);
    }
  }

  lemma InRangesTail(off: nat, ranges: seq<Range>)
    requires ranges != []
    ensures InRanges(off, ranges) <==> ranges[0].lo <= off < ranges[0].hi || InRanges(off, ranges[1..])
  {
    if InRanges(off, ranges) && !(ranges[0].lo <= off < ranges[0].hi) {
      var k :| 0 <= k < |ranges| && ranges[k].lo <= off < ranges[k].hi;
      assert ranges[1..][k - 1] == ranges[k];
    }
    if InRanges(off, ranges[1..]) {
      var k :| 0 <= k < |ranges[1..]| && ranges[1..][k].lo <= off < ranges[1..][k].hi;
      assert ranges[1..][k] == ranges[k + 1];
    }
  }

  lemma {:induction false} MapAllConserves(es: seq<Entry>, level: nat, ranges: seq<Range>, op: Op, commit: bool,
                                           pool: Pool, r: TableResult)
    requires WfAll(es, level) && WfOp(op) && r == MapAll(es, level, ranges, op, commit, pool)
    ensures PagesAll(r.entries) + multiset(r.pool) == PagesAll(es) + multiset(pool)
    decreases |ranges|
  {
    if ranges != [] {
      var t := MapTable(es, 0, level, ranges[0].lo, ranges[0].hi, op, commit, pool);
      MapTableConserves(es, 0, level, ranges[0].lo, ranges[0].hi, op, commit, pool, t);
      if t.ok {
        MapAllConserves(t.entries, level, ranges[1..], op, commit, t.pool, r);
      }
    }
  }

  /** Preparing any list of ranges with one operation never changes the flat map, and when every
      prepare succeeds the commits of the same list, in order, all succeed without taking a page
      from the pool and set exactly the pages of the ranges. */
  lemma PrepareThenCommit(es: seq<Entry>, level: nat, ranges: seq<Range>, op: Op, pool: Pool, commitPool: Pool)
    requires WfAll(es, level) && WfOp(op)
    ensures var p := MapAll(es, level, ranges, op, false, pool);
            && SameFlat(p.entries, es, level)
            && (p.ok ==>
                  var c := MapAll(p.entries, level, ranges, op, true, commitPool);
                  && c.ok && Pushed(c.pool, commitPool)
                  && forall off: nat :: off < Span(|es|, level) ==>
                       TableAt(c.entries, level, off)
                         == if InRanges(off, ranges) then Val(op) else TableAt(es, level, off))
  {
    var p := MapAll(es, level, ranges, op, false, pool);
    forall off: nat | off < Span(|es|, level)
      ensures TableAt(p.entries, level, off) == TableAt(es, level, off)
    {
      MapAllFlat(es, level, ranges, op, false, pool, p, off);
    }
    if p.ok {
      PrepareAllReady(es, level, ranges, op, pool, [], p);
      var c := MapAll(p.entries, level, ranges, op, true, commitPool);
      CommitAllReady(p.entries, level, ranges, op, commitPool, [], c);
      forall off: nat | off < Span(|es|, level)
        ensures TableAt(c.entries, level, off) == if InRanges(off, ranges) then Val(op) else TableAt(es, level, off)
      {
        MapAllFlat(p.entries, level, ranges, op, true, commitPool, c, off);
      }
    }
  }
}
