/** Memory regions given as lists of constituents, and the page-table updates that the memory
    sharing calls make for them (`ffa_region_group_identity_map`, and the second halves of
    `ffa_send_check_update`, `ffa_retrieve_check_update` and `ffa_relinquish_check_update`). */
module Region {
  import opened Arithmetic
  import opened Collections
  import opened PageTree
  import opened MapLevel
  import opened PrepareCommit
  import opened Rollback
  import opened Defrag
  import opened IdentityMap

  datatype Constituent = Constituent(address: nat, pageCount: nat)


  /** The size in bytes is computed in 32 bits. */
  function Bytes(c: Constituent): nat {
    (c.pageCount * PAGE_SIZE) % TWO32
  }

  function End(c: Constituent): nat {
    (c.address + Bytes(c)) % ADDRESS_SPACE
  }

  /** The pages a page-table operation on `c` touches. */
  function RangeOf(t: Ptable, c: Constituent): Range {
    Range(BeginPage(c.address), EndPage(t, End(c)))
  }

  function RangesOf(t: Ptable, cs: seq<Constituent>): seq<Range> {
    seq(|cs|, i requires 0 <= i < |cs| => RangeOf(t, cs[i]))
  }

  /** Both ends are below the physical address limit `2^pa_range`. */
  predicate InPaRange(c: Constituent, limit: nat) {
    c.address < limit && End(c) < limit
  }

  /** `ffa_region_group_identity_map` over the constituents of all fragments. */
  function RegionMap(t: Ptable, cs: seq<Constituent>, op: Op, commit: bool, pool: Pool, limit: nat): (r: MapResult)
    requires ValidTable(t) && WfOp(op)
    ensures ValidTable(r.table) && r.table.level == t.level && |r.table.root| == |t.root|
    decreases |cs|
  {
    if cs == [] then
      MapResult(true, t, pool)
    else if !InPaRange(cs[0], limit) then
      MapResult(false, t, pool)
    else
      var r := MapIdentity(t, cs[0].address, End(cs[0]), op, commit, pool);
      if r.ok then RegionMap(r.table, cs[1..], op, commit, r.pool, limit) else r
  }

  predicate AllInPaRange(cs: seq<Constituent>, limit: nat) {
    forall i :: 0 <= i < |cs| ==> InPaRange(cs[i], limit)
  }

  ghost predicate InRegion(p: nat, t: Ptable, cs: seq<Constituent>) {
    InRanges(p, RangesOf(t, cs))
  }

  /** `u` is `t` with the pages of the region set to attributes `a`. */
  ghost predicate RegionUpdated(u: Ptable, t: Ptable, cs: seq<Constituent>, a: Attrs)
    requires ValidTable(t) && ValidTable(u)
  {
    && u.level == t.level && |u.root| == |t.root|
    && forall p: nat :: p < SpaceEnd(t) ==> Lookup(u, p) == if InRegion(p, t, cs) then a else Lookup(t, p)
  }

  function AsResult(t: Ptable, r: TableResult): MapResult {
    MapResult(r.ok, t.(root := r.entries), r.pool)
  }

  /** Inside the physical address range the loop is the walk of the list of ranges. */
  lemma {:induction false} RegionMapIsMapAll(t: Ptable, cs: seq<Constituent>, op: Op, commit: bool, pool: Pool,
                                             limit: nat)
    requires ValidTable(t) && WfOp(op) && AllInPaRange(cs, limit)
    ensures RegionMap(t, cs, op, commit, pool, limit) ==
            AsResult(t, MapAll(t.root, t.level, RangesOf(t, cs), op, commit, pool))
    decreases |cs|
  {
    if cs != [] {
      var r := MapIdentity(t, cs[0].address, End(cs[0]), op, commit, pool);
      assert RangesOf(t, cs)[0] == RangeOf(t, cs[0]);
      if r.ok {
        RegionMapIsMapAll(r.table, cs[1..], op, commit, r.pool, limit);
        RangesTail(t, r.table, cs);
      }
    }
  }

  lemma RangesTail(t: Ptable, u: Ptable, cs: seq<Constituent>)
    requires cs != [] && u.level == t.level && |u.root| == |t.root|
    ensures RangesOf(u, cs[1..]) == RangesOf(t, cs)[1..]
  {
  }

  /** Preparing a region never changes the address space and loses no page; it succeeds only
      inside the physical address range. */
  lemma {:induction false} RegionPrepare(t: Ptable, cs: seq<Constituent>, op: Op, pool: Pool, limit: nat, r: MapResult)
    requires ValidTable(t) && WfOp(op) && r == RegionMap(t, cs, op, false, pool, limit)
    ensures SameSpace(r.table, t)
    ensures PagesAll(r.table.root) + multiset(r.pool) == PagesAll(t.root) + multiset(pool)
    ensures r.ok ==> AllInPaRange(cs, limit)
    decreases |cs|
  {
    if cs != [] && InPaRange(cs[0], limit) {
      var x := MapIdentity(t, cs[0].address, End(cs[0]), op, false, pool);
      PrepareOne(t, cs[0].address, End(cs[0]), op, pool, x);
      if x.ok {
        RegionPrepare(x.table, cs[1..], op, x.pool, limit, r);
        SameSpaceTrans(r.table, x.table, t);
        assert r.ok ==> forall i :: 1 <= i < |cs| ==> cs[i] == cs[1..][i - 1];
      }
    }
  }

  lemma PrepareOne(t: Ptable, begin: nat, end: nat, op: Op, pool: Pool, x: MapResult)
    requires ValidTable(t) && WfOp(op) && x == MapIdentity(t, begin, end, op, false, pool)
    ensures SameSpace(x.table, t) && PagesAll(x.table.root) + multiset(x.pool) == PagesAll(t.root) + multiset(pool)
  {
    var lo, hi := BeginPage(begin), EndPage(t, end);
    var m := MapTable(t.root, 0, t.level, lo, hi, op, false, pool);
    MapTableConserves(t.root, 0, t.level, lo, hi, op, false, pool, m);
    forall p: nat | p < SpaceEnd(t)
      ensures TableAt(x.table.root, t.level, p) == TableAt(t.root, t.level, p)
    {
      MapTableFlat(t.root, t.level, lo, hi, op, false, pool, m, p);
    }
  }

  // ---- The updates behind the calls ----

  /** `mpool_fini` of a local pool whose memory is all on its free list: the pages go to the
      front of the fallback one by one. `stack` is the local pool in front of a fallback that
      had `n` pages. */
  function FinishLocal(stack: Pool, n: nat): Pool {
    if |stack| < n then stack else Reversed(stack[..|stack| - n]) + stack[|stack| - n..]
  }

  lemma FinishConserves(stack: Pool, n: nat)
    ensures multiset(FinishLocal(stack, n)) == multiset(stack)
  {
    if |stack| >= n {
      ReversedConserves(stack[..|stack| - n]);
      assert stack == stack[..|stack| - n] + stack[|stack| - n..];
    }
  }

  function Tidy(ok: bool, t: Ptable, pool: Pool): (r: MapResult)
    requires ValidTable(t)
    ensures ValidTable(r.table) && r.table.level == t.level && |r.table.root| == |t.root|
  {
    var d := DefragTable(t.root, 0, t.level, pool);
    MapResult(ok, t.(root := d.entries), d.pool)
  }

  /** Takes a region away from a VM or restricts it: prepare from the pool, commit into a local
      pool, and if clearing the memory fails roll back from the local pool. `back` is the
      operation that restores the old mode. */
  function ShrinkUpdate(t: Ptable, cs: seq<Constituent>, op: Op, back: Op, clearFails: bool, pool: Pool,
                        limit: nat): (r: MapResult)
    requires ValidTable(t) && WfOp(op) && WfOp(back)
    ensures ValidTable(r.table) && r.table.level == t.level && |r.table.root| == |t.root|
  {
    var p := RegionMap(t, cs, op, false, pool, limit);
    if !p.ok then
      Tidy(false, p.table, p.pool)
    else
      var c := RegionMap(p.table, cs, op, true, p.pool, limit);
      if !clearFails then
        Tidy(true, c.table, FinishLocal(c.pool, |p.pool|))
      else
        var b := RegionMap(c.table, cs, back, true, c.pool, limit);
        Tidy(false, b.table, FinishLocal(b.pool, |p.pool|))
  }

  /** Gives a region to a VM: prepare, then clear the memory if asked to, then commit. */
  function GrowUpdate(t: Ptable, cs: seq<Constituent>, op: Op, clearFails: bool, pool: Pool, limit: nat): (r: MapResult)
    requires ValidTable(t) && WfOp(op)
    ensures ValidTable(r.table) && r.table.level == t.level && |r.table.root| == |t.root|
  {
    var p := RegionMap(t, cs, op, false, pool, limit);
    if !p.ok || clearFails then
      Tidy(false, p.table, p.pool)
    else
      var c := RegionMap(p.table, cs, op, true, p.pool, limit);
      Tidy(true, c.table, c.pool)
  }

  /** What both updates promise: on success exactly the pages of the region changed, on failure
      none did; no page is lost; and the table is left defragmented. */
  ghost predicate UpdateSpec(r: MapResult, t: Ptable, cs: seq<Constituent>, op: Op, pool: Pool)
    requires ValidTable(t) && ValidTable(r.table)
  {
    && (if r.ok then RegionUpdated(r.table, t, cs, Val(op)) else SameSpace(r.table, t))
    && PagesAll(r.table.root) + multiset(r.pool) == PagesAll(t.root) + multiset(pool)
    && CanonicalAll(r.table.root, r.table.level)
  }

  lemma TidySpec(ok: bool, t: Ptable, pool: Pool)
    requires ValidTable(t)
    ensures var r := Tidy(ok, t, pool);
            && SameSpace(r.table, t) && CanonicalAll(r.table.root, r.table.level)
            && PagesAll(r.table.root) + multiset(r.pool) == PagesAll(t.root) + multiset(pool)
  {
    DefragRoot(t.root, t.level, pool);
  }

  /** After a successful prepare the commit succeeds and takes no page. */
  lemma PreparedCommit(t: Ptable, cs: seq<Constituent>, op: Op, pool: Pool, limit: nat)
    requires ValidTable(t) && WfOp(op)
    ensures var p := RegionMap(t, cs, op, false, pool, limit);
            p.ok ==>
              var c := RegionMap(p.table, cs, op, true, p.pool, limit);
              && c.ok && Pushed(c.pool, p.pool) && RegionUpdated(c.table, t, cs, Val(op))
              && PagesAll(c.table.root) + multiset(c.pool) == PagesAll(t.root) + multiset(pool)
  {
    var p := RegionMap(t, cs, op, false, pool, limit);
    RegionPrepare(t, cs, op, pool, limit, p);
    if p.ok {
      var ranges := RangesOf(t, cs);
      RegionMapIsMapAll(t, cs, op, false, pool, limit);
      RegionMapIsMapAll(p.table, cs, op, true, p.pool, limit);
      assert RangesOf(p.table, cs) == ranges;
      PrepareThenCommit(t.root, t.level, ranges, op, pool, p.pool);
      var c := MapAll(p.table.root, t.level, ranges, op, true, p.pool);
      MapAllConserves(p.table.root, t.level, ranges, op, true, p.pool, c);
    }
  }

  lemma GrowUpdateSpec(t: Ptable, cs: seq<Constituent>, op: Op, clearFails: bool, pool: Pool, limit: nat)
    requires ValidTable(t) && WfOp(op)
    ensures UpdateSpec(GrowUpdate(t, cs, op, clearFails, pool, limit), t, cs, op, pool)
    ensures GrowUpdate(t, cs, op, clearFails, pool, limit).ok ==> !clearFails
  {
    var p := RegionMap(t, cs, op, false, pool, limit);
    RegionPrepare(t, cs, op, pool, limit, p);
    if !p.ok || clearFails {
      TidySpec(false, p.table, p.pool);
      SameSpaceTrans(Tidy(false, p.table, p.pool).table, p.table, t);
    } else {
      PreparedCommit(t, cs, op, pool, limit);
      var c := RegionMap(p.table, cs, op, true, p.pool, limit);
      TidySpec(true, c.table, c.pool);
      UpdatedTrans(Tidy(true, c.table, c.pool).table, c.table, t, cs, Val(op));
    }
  }

  lemma SameSpaceTrans(u: Ptable, v: Ptable, t: Ptable)
    requires SameSpace(u, v) && SameSpace(v, t)
    ensures SameSpace(u, t)
  {
    forall p: nat | p < SpaceEnd(t)
      ensures TableAt(u.root, t.level, p) == TableAt(t.root, t.level, p)
    {
      assert TableAt(u.root, t.level, p) == TableAt(v.root, t.level, p);
    }
  }

  lemma UpdatedTrans(u: Ptable, v: Ptable, t: Ptable, cs: seq<Constituent>, a: Attrs)
    requires ValidTable(t) && ValidTable(u) && ValidTable(v) && SameSpace(u, v) && RegionUpdated(v, t, cs, a)
    ensures RegionUpdated(u, t, cs, a)
  {
    forall p: nat | p < SpaceEnd(t)
      ensures Lookup(u, p) == if InRegion(p, t, cs) then a else Lookup(t, p)
    {
      assert TableAt(u.root, v.level, p) == TableAt(v.root, v.level, p);
      assert Lookup(v, p) == if InRegion(p, t, cs) then a else Lookup(t, p);
    }
  }

  /** All pages of the region have the attributes that `back` writes. */
  ghost predicate RegionHolds(t: Ptable, cs: seq<Constituent>, back: Op)
    requires ValidTable(t)
  {
    forall p: nat :: p < SpaceEnd(t) && InRegion(p, t, cs) ==> Lookup(t, p) == Val(back)
  }

  /** No page of the region has the attributes that `op` writes. */
  ghost predicate RegionAvoids(t: Ptable, cs: seq<Constituent>, op: Op)
    requires ValidTable(t)
  {
    forall p: nat :: p < SpaceEnd(t) && InRegion(p, t, cs) ==> Lookup(t, p) != Val(op)
  }

  /** Rolling back a committed change of a region, no page of which held what was committed,
      succeeds with the pages in the local pool and puts the whole region in the old mode. */
  lemma RollbackSpec(t: Ptable, cs: seq<Constituent>, op: Op, back: Op, pool: Pool, limit: nat, p: MapResult)
    requires ValidTable(t) && WfOp(op) && WfOp(back) && (op == back || RegionAvoids(t, cs, op))
    requires p == RegionMap(t, cs, op, false, pool, limit) && p.ok
    ensures var c := RegionMap(p.table, cs, op, true, p.pool, limit);
            var b := RegionMap(c.table, cs, back, true, c.pool, limit);
            && c.ok && b.ok && Pushed(b.pool, p.pool) && RegionUpdated(b.table, t, cs, Val(back))
            && PagesAll(b.table.root) + multiset(b.pool) == PagesAll(t.root) + multiset(pool)
  {
    RegionPrepare(t, cs, op, pool, limit, p);
    var ranges := RangesOf(t, cs);
    assert RangesOf(p.table, cs) == ranges;
    PreparedReady(t, cs, op, pool, limit, p);
    if op != back {
      StillAvoids(t, p.table, cs, op);
    }
    RollbackWithFallback(p.table.root, t.level, ranges, op, back, p.pool);
    RegionMapIsMapAll(p.table, cs, op, true, p.pool, limit);
    var c := RegionMap(p.table, cs, op, true, p.pool, limit);
    assert RangesOf(c.table, cs) == ranges;
    RegionMapIsMapAll(c.table, cs, back, true, c.pool, limit);
    var b := RegionMap(c.table, cs, back, true, c.pool, limit);
    OverwrittenRegion(t, p.table, b.table, cs, back);
  }

  lemma OverwrittenRegion(t: Ptable, u: Ptable, v: Ptable, cs: seq<Constituent>, op: Op)
    requires ValidTable(t) && ValidTable(u) && ValidTable(v) && SameSpace(u, t) && v.level == t.level
    requires Overwritten(v.root, u.root, t.level, RangesOf(t, cs), op)
    ensures RegionUpdated(v, t, cs, Val(op))
  {
    forall p: nat | p < SpaceEnd(t)
      ensures Lookup(v, p) == if InRegion(p, t, cs) then Val(op) else Lookup(t, p)
    {
      assert TableAt(u.root, t.level, p) == TableAt(t.root, t.level, p);
    }
  }

  lemma PreparedReady(t: Ptable, cs: seq<Constituent>, op: Op, pool: Pool, limit: nat, p: MapResult)
    requires ValidTable(t) && WfOp(op) && AllInPaRange(cs, limit)
    requires p == RegionMap(t, cs, op, false, pool, limit) && p.ok
    ensures ReadyAll(p.table.root, t.level, RangesOf(t, cs), op)
  {
    RegionMapIsMapAll(t, cs, op, false, pool, limit);
    var m := MapAll(t.root, t.level, RangesOf(t, cs), op, false, pool);
    PrepareAllReady(t.root, t.level, RangesOf(t, cs), op, pool, [], m);
  }

  lemma StillAvoids(t: Ptable, u: Ptable, cs: seq<Constituent>, op: Op)
    requires ValidTable(t) && ValidTable(u) && SameSpace(u, t) && RegionAvoids(t, cs, op)
    ensures AvoidsAll(u.root, t.level, RangesOf(t, cs), op)
  {
    var ranges := RangesOf(t, cs);
    forall k, off: nat | 0 <= k < |ranges| && ranges[k].lo <= off < ranges[k].hi && off < Span(|u.root|, t.level)
      ensures TableAt(u.root, t.level, off) != Val(op)
    {
      assert InRegion(off, t, cs);
      assert Lookup(t, off) != Val(op);
    }
  }

  lemma HoldsAvoids(t: Ptable, cs: seq<Constituent>, op: Op, back: Op)
    requires ValidTable(t) && WfOp(op) && WfOp(back) && RegionHolds(t, cs, back)
    ensures op == back || RegionAvoids(t, cs, op)
  {
    if Val(op) == Val(back) {
      assert op == back;
    }
  }

  /** What taking a region away promises: as `UpdateSpec`, except that a failure may leave the
      whole region in the mode that `back` writes. */
  ghost predicate ShrinkSpec(r: MapResult, t: Ptable, cs: seq<Constituent>, op: Op, back: Op, pool: Pool)
    requires ValidTable(t) && ValidTable(r.table)
  {
    && (if r.ok then RegionUpdated(r.table, t, cs, Val(op))
        else SameSpace(r.table, t) || RegionUpdated(r.table, t, cs, Val(back)))
    && PagesAll(r.table.root) + multiset(r.pool) == PagesAll(t.root) + multiset(pool)
    && CanonicalAll(r.table.root, r.table.level)
  }

  lemma ShrinkUpdateSettles(t: Ptable, cs: seq<Constituent>, op: Op, back: Op, clearFails: bool, pool: Pool, limit: nat)
    requires ValidTable(t) && WfOp(op) && WfOp(back) && (op == back || RegionAvoids(t, cs, op))
    ensures ShrinkSpec(ShrinkUpdate(t, cs, op, back, clearFails, pool, limit), t, cs, op, back, pool)
    ensures ShrinkUpdate(t, cs, op, back, clearFails, pool, limit).ok ==> !clearFails
  {
    var p := RegionMap(t, cs, op, false, pool, limit);
    RegionPrepare(t, cs, op, pool, limit, p);
    if !p.ok {
      TidySpec(false, p.table, p.pool);
      SameSpaceTrans(Tidy(false, p.table, p.pool).table, p.table, t);
    } else {
      var c := RegionMap(p.table, cs, op, true, p.pool, limit);
      if !clearFails {
        PreparedCommit(t, cs, op, pool, limit);
        FinishConserves(c.pool, |p.pool|);
        TidySpec(true, c.table, FinishLocal(c.pool, |p.pool|));
        UpdatedTrans(Tidy(true, c.table, FinishLocal(c.pool, |p.pool|)).table, c.table, t, cs, Val(op));
      } else {
        RollbackSpec(t, cs, op, back, pool, limit, p);
        var b := RegionMap(c.table, cs, back, true, c.pool, limit);
        FinishConserves(b.pool, |p.pool|);
        TidySpec(false, b.table, FinishLocal(b.pool, |p.pool|));
        UpdatedTrans(Tidy(false, b.table, FinishLocal(b.pool, |p.pool|)).table, b.table, t, cs, Val(back));
      }
    }
  }

  /** The rollback needs a page that is not there. The code asserts that this does not happen. */
  predicate RollbackFails(t: Ptable, cs: seq<Constituent>, op: Op, back: Op, pool: Pool, limit: nat)
    requires ValidTable(t) && WfOp(op) && WfOp(back)
  {
    var p := RegionMap(t, cs, op, false, pool, limit);
    var c := RegionMap(p.table, cs, op, true, p.pool, limit);
    p.ok && !RegionMap(c.table, cs, back, true, c.pool, limit).ok
  }

  /** A block that is in the new mode already, of which the region has one page, and a block in the old
      mode, all of which it has. */
  function HalfDone(a: Attrs, b: Attrs): Ptable {
    Ptable(1, [Block(a), Block(b)])
  }

  const ONE_AND_ALL := [Constituent(0, 1), Constituent(0x20_0000, ENTRIES)]

  lemma TwoBlocks(t: Ptable)
    requires t.level == 1 && |t.root| == 2
    ensures Size(0) == 1 && Size(1) == ENTRIES && SpaceEnd(t) == 2 * ENTRIES
    ensures End(ONE_AND_ALL[0]) == 0x1000 && End(ONE_AND_ALL[1]) == 0x40_0000
    ensures BeginPage(0) == 0 && EndPage(t, 0x1000) == 1
    ensures BeginPage(0x20_0000) == ENTRIES && EndPage(t, 0x40_0000) == 2 * ENTRIES
  {
    assert Size(1) == ENTRIES * Size(0);
  }

  lemma MapsFirst(es: seq<Entry>, op: Op, commit: bool, pool: Pool)
    requires WfAll(es, 1) && WfOp(op) && |es| == 2 && Size(1) == ENTRIES
    ensures var x := MapEntry(es[0], 1, 0, 1, op, commit, pool);
            MapTable(es, 0, 1, 0, 1, op, commit, pool) == TableResult(x.ok, es[0 := x.entry], x.pool)
  {
    var x := MapEntry(es[0], 1, 0, 1, op, commit, pool);
    assert Hit(0, 1, 0, 1) && ClipLo(0, 0, Size(1)) == 0 && ClipHi(1, 0, Size(1)) == 1;
    if x.ok {
      var fs := es[0 := x.entry];
      assert !Hit(1, 1, 0, 1);
      assert MapTable(fs, 1, 1, 0, 1, op, commit, x.pool) == MapTable(fs, 2, 1, 0, 1, op, commit, x.pool);
    }
  }

  lemma MapsSecond(es: seq<Entry>, op: Op, commit: bool, pool: Pool)
    requires WfAll(es, 1) && WfOp(op) && |es| == 2 && Size(1) == ENTRIES
    ensures var x := MapEntry(es[1], 1, 0, ENTRIES, op, commit, pool);
            MapTable(es, 0, 1, ENTRIES, 2 * ENTRIES, op, commit, pool) == TableResult(x.ok, es[1 := x.entry], x.pool)
  {
    var x := MapEntry(es[1], 1, 0, ENTRIES, op, commit, pool);
    assert !Hit(0, 1, ENTRIES, 2 * ENTRIES);
    assert Hit(1, 1, ENTRIES, 2 * ENTRIES);
    assert ClipLo(ENTRIES, 1, Size(1)) == 0 && ClipHi(2 * ENTRIES, 1, Size(1)) == ENTRIES;
    if x.ok {
      assert MapTable(es[1 := x.entry], 2, 1, ENTRIES, 2 * ENTRIES, op, commit, x.pool).ok;
    }
  }

  lemma TwoConstituentsMap(t: Ptable, c: Constituent, d: Constituent, op: Op, commit: bool, pool: Pool, limit: nat)
    requires ValidTable(t) && WfOp(op) && InPaRange(c, limit) && InPaRange(d, limit)
    ensures var x := MapIdentity(t, c.address, End(c), op, commit, pool);
            RegionMap(t, [c, d], op, commit, pool, limit)
            == if x.ok then MapIdentity(x.table, d.address, End(d), op, commit, x.pool) else x
  {
    assert [c, d][1..] == [d] && [d][1..] == [];
    var x := MapIdentity(t, c.address, End(c), op, commit, pool);
    if x.ok {
      var y := MapIdentity(x.table, d.address, End(d), op, commit, x.pool);
      assert RegionMap(x.table, [d], op, commit, x.pool, limit) == y;
    }
  }

  /** The walk over both constituents. */
  lemma MapsBoth(t: Ptable, op: Op, commit: bool, pool: Pool, limit: nat, c: Constituent, d: Constituent)
    requires ValidTable(t) && WfOp(op) && t.level == 1 && |t.root| == 2 && limit > 0x40_0000
    requires c == ONE_AND_ALL[0] && d == ONE_AND_ALL[1]
    ensures Size(1) == ENTRIES
    ensures var x := MapEntry(t.root[0], 1, 0, 1, op, commit, pool);
            var r := RegionMap(t, [c, d], op, commit, pool, limit);
            if !x.ok then !r.ok
            else
              var y := MapEntry(t.root[1], 1, 0, ENTRIES, op, commit, x.pool);
              r == MapResult(y.ok, t.(root := [x.entry, y.entry]), y.pool)
  {
    TwoBlocks(t);
    TwoConstituentsMap(t, c, d, op, commit, pool, limit);
    MapsFirst(t.root, op, commit, pool);
    var x := MapEntry(t.root[0], 1, 0, 1, op, commit, pool);
    if x.ok {
      var u := t.(root := t.root[0 := x.entry]);
      TwoBlocks(u);
      MapsSecond(u.root, op, commit, x.pool);
      var y := MapEntry(t.root[1], 1, 0, ENTRIES, op, commit, x.pool);
      assert t.root[0 := x.entry][1 := y.entry] == [x.entry, y.entry];
    }
  }

  /** The first page needs no table on the way there and one on the way back. */
  lemma RollbackCanFail(a: Attrs, b: Attrs, limit: nat)
    requires IsBlockAttrs(a) && IsBlockAttrs(b) && a != b && limit > 0x40_0000
    ensures ValidTable(HalfDone(a, b)) && RegionMap(HalfDone(a, b), ONE_AND_ALL, Map(a), false, [], limit).ok
    ensures RollbackFails(HalfDone(a, b), ONE_AND_ALL, Map(a), Map(b), [], limit)
  {
    var t, u := HalfDone(a, b), HalfDone(a, a);
    var c, d := ONE_AND_ALL[0], ONE_AND_ALL[1];
    assert ONE_AND_ALL == [c, d];
    MapsBoth(t, Map(a), false, [], limit, c, d);
    MapsBoth(t, Map(a), true, [], limit, c, d);
    MapsBoth(u, Map(b), true, [], limit, c, d);
    assert t.(root := [Block(a), Block(b)]) == t && t.(root := [Block(a), Block(a)]) == u;
  }

  /** A commit that succeeds has set the region, prepared or not. */
  lemma CommitSets(t: Ptable, cs: seq<Constituent>, op: Op, pool: Pool, limit: nat)
    requires ValidTable(t) && WfOp(op) && AllInPaRange(cs, limit)
    ensures var c := RegionMap(t, cs, op, true, pool, limit);
            c.ok ==> RegionUpdated(c.table, t, cs, Val(op))
  {
    var c := RegionMap(t, cs, op, true, pool, limit);
    RegionMapIsMapAll(t, cs, op, true, pool, limit);
    if c.ok {
      forall p: nat | p < SpaceEnd(t)
        ensures Lookup(c.table, p) == if InRegion(p, t, cs) then Val(op) else Lookup(t, p)
      {
        MapAllFlat(t.root, t.level, RangesOf(t, cs), op, true, pool,
                   MapAll(t.root, t.level, RangesOf(t, cs), op, true, pool), p);
      }
    }
  }

  lemma UpdatedTwice(u: Ptable, v: Ptable, t: Ptable, cs: seq<Constituent>, a: Attrs, b: Attrs)
    requires ValidTable(t) && ValidTable(u) && ValidTable(v) && RegionUpdated(v, t, cs, a) && RegionUpdated(u, v, cs, b)
    ensures RegionUpdated(u, t, cs, b)
  {
    assert RangesOf(v, cs) == RangesOf(t, cs);
    forall p: nat | p < SpaceEnd(t)
      ensures Lookup(u, p) == if InRegion(p, t, cs) then b else Lookup(t, p)
    {
      assert Lookup(v, p) == if InRegion(p, t, cs) then a else Lookup(t, p);
      assert Lookup(u, p) == if InRegion(p, v, cs) then b else Lookup(v, p);
    }
  }

  /** What a rollback that does not fail leaves: the whole region in the mode that `back` writes,
      whatever modes it was in before. */
  lemma RolledBack(t: Ptable, cs: seq<Constituent>, op: Op, back: Op, pool: Pool, limit: nat)
    requires ValidTable(t) && WfOp(op) && WfOp(back) && RegionMap(t, cs, op, false, pool, limit).ok
    requires !RollbackFails(t, cs, op, back, pool, limit)
    ensures var r := ShrinkUpdate(t, cs, op, back, true, pool, limit);
            !r.ok && RegionUpdated(r.table, t, cs, Val(back)) && CanonicalAll(r.table.root, r.table.level)
  {
    var p := RegionMap(t, cs, op, false, pool, limit);
    RegionPrepare(t, cs, op, pool, limit, p);
    PreparedCommit(t, cs, op, pool, limit);
    var c := RegionMap(p.table, cs, op, true, p.pool, limit);
    CommitSets(c.table, cs, back, c.pool, limit);
    var b := RegionMap(c.table, cs, back, true, c.pool, limit);
    UpdatedTwice(b.table, c.table, t, cs, Val(op), Val(back));
    TidySpec(false, b.table, FinishLocal(b.pool, |p.pool|));
    UpdatedTrans(Tidy(false, b.table, FinishLocal(b.pool, |p.pool|)).table, b.table, t, cs, Val(back));
  }

  /** A region that was in the old mode throughout is restored by a failure. */
  lemma ShrinkUpdateSpec(t: Ptable, cs: seq<Constituent>, op: Op, back: Op, clearFails: bool, pool: Pool, limit: nat)
    requires ValidTable(t) && WfOp(op) && WfOp(back) && RegionHolds(t, cs, back)
    ensures UpdateSpec(ShrinkUpdate(t, cs, op, back, clearFails, pool, limit), t, cs, op, pool)
    ensures ShrinkUpdate(t, cs, op, back, clearFails, pool, limit).ok ==> !clearFails
  {
    HoldsAvoids(t, cs, op, back);
    ShrinkUpdateSettles(t, cs, op, back, clearFails, pool, limit);
    var r := ShrinkUpdate(t, cs, op, back, clearFails, pool, limit);
    if RegionUpdated(r.table, t, cs, Val(back)) {
      UpdatedToSame(t, r.table, cs, back);
    }
  }

  lemma UpdatedToSame(t: Ptable, u: Ptable, cs: seq<Constituent>, back: Op)
    requires ValidTable(t) && ValidTable(u) && RegionHolds(t, cs, back) && RegionUpdated(u, t, cs, Val(back))
    ensures SameSpace(u, t)
  {
    forall p: nat | p < SpaceEnd(t)
      ensures TableAt(u.root, t.level, p) == TableAt(t.root, t.level, p)
    {
      assert Lookup(u, p) == if InRegion(p, t, cs) then Val(back) else Lookup(t, p);
    }
  }
}
