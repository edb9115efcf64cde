/** How many pages preparing a range takes (`mm_ptable_identity_prepare`): the fewest that any preparation
    can do with, and at most two for every level where blocks are allowed. */
module PrepareNeeds {
  import opened Arithmetic
  import opened PageTree
  import opened MapLevel
  import opened PrepareCommit
  import opened IdentityMap
  import opened Region

  /** The commit needs no table below this entry. */
  predicate Settled(e: Entry, level: nat, lo: nat, hi: nat, op: Op) {
    e == Leaf(op) || (lo == 0 && hi == Size(level) && LeafAllowed(level, op))
  }

  /** The tables that are missing below an entry, and in a table from index `j` on. */
  function NeedEntry(e: Entry, level: nat, lo: nat, hi: nat, op: Op): nat
    requires Wf(e, level) && lo < hi <= Size(level)
    decreases level, 0, 0
  {
    if Settled(e, level, lo, hi, op) then 0
    else if e.Table? then NeedTable(e.entries, 0, level - 1, lo, hi, op)
    else 1 + NeedTable(SplitLeaf(e), 0, level - 1, lo, hi, op)
  }

  function NeedTable(es: seq<Entry>, j: nat, level: nat, lo: nat, hi: nat, op: Op): nat
    requires WfAll(es, level) && j <= |es|
    decreases level, 1, |es| - j
  {
    if j == |es| then 0
    else
      (if Hit(j, level, lo, hi)
       then NeedEntry(es[j], level, ClipLo(lo, j, Size(level)), ClipHi(hi, j, Size(level)), op) else 0)
      + NeedTable(es, j + 1, level, lo, hi, op)
  }

  lemma {:induction false} NeedOfRest(es: seq<Entry>, fs: seq<Entry>, j: nat, level: nat, lo: nat, hi: nat, op: Op)
    requires WfAll(es, level) && WfAll(fs, level) && |es| == |fs| && j <= |es| && es[j..] == fs[j..]
    ensures NeedTable(es, j, level, lo, hi, op) == NeedTable(fs, j, level, lo, hi, op)
    decreases |es| - j
  {
    if j < |es| {
      assert es[j] == es[j..][0] == fs[j..][0] == fs[j];
      assert es[j + 1..] == es[j..][1..] == fs[j..][1..] == fs[j + 1..];
      NeedOfRest(es, fs, j + 1, level, lo, hi, op);
    }
  }

  // ---- A prepare takes what is missing, off the top of the pool ----

  predicate Takes(ok: bool, after: Pool, pool: Pool, need: nat) {
    (ok <==> need <= |pool|) && (ok ==> after == pool[need..])
  }

  lemma {:induction false} PrepareEntryTakes(e: Entry, level: nat, lo: nat, hi: nat, op: Op, pool: Pool, r: EntryResult)
    requires Wf(e, level) && WfOp(op) && lo < hi <= Size(level)
    requires r == MapEntry(e, level, lo, hi, op, false, pool)
    ensures Takes(r.ok, r.pool, pool, NeedEntry(e, level, lo, hi, op))
    decreases level, 0, 0
  {
    if Settled(e, level, lo, hi, op) {
      assert r == EntryResult(true, e, pool);
    } else if e.Table? {
      var t := MapTable(e.entries, 0, level - 1, lo, hi, op, false, pool);
      PrepareTableTakes(e.entries, 0, level - 1, lo, hi, op, pool, t);
      NeedBelow(e, level, lo, hi, op);
      assert r == EntryResult(t.ok, Table(e.page, t.entries), t.pool);
    } else if pool != [] {
      PopulateTakes(SplitLeaf(e), level - 1, lo, hi, op, pool);
      NeedBelow(e, level, lo, hi, op);
    }
  }

  lemma NeedBelow(e: Entry, level: nat, lo: nat, hi: nat, op: Op)
    requires Wf(e, level) && lo < hi <= Size(level) && !Settled(e, level, lo, hi, op)
    ensures level > 0
    ensures NeedEntry(e, level, lo, hi, op) ==
            if e.Table? then NeedTable(e.entries, 0, level - 1, lo, hi, op)
            else 1 + NeedTable(SplitLeaf(e), 0, level - 1, lo, hi, op)
  {
  }

  lemma {:induction false} PopulateTakes(es: seq<Entry>, level: nat, lo: nat, hi: nat, op: Op, pool: Pool)
    requires WfAll(es, level) && WfOp(op) && pool != []
    ensures var t := MapTable(es, 0, level, lo, hi, op, false, pool[1..]);
            Takes(t.ok, t.pool, pool, 1 + NeedTable(es, 0, level, lo, hi, op))
    decreases level, 2, 0
  {
    var t := MapTable(es, 0, level, lo, hi, op, false, pool[1..]);
    PrepareTableTakes(es, 0, level, lo, hi, op, pool[1..], t);
    TakesMore(true, pool[1..], t.ok, t.pool, pool, 1, NeedTable(es, 0, level, lo, hi, op));
  }

  lemma TakesMore(ok: bool, mid: Pool, ok': bool, after: Pool, pool: Pool, m: nat, n: nat)
    requires Takes(ok, mid, pool, m) && (if ok then Takes(ok', after, mid, n) else !ok')
    ensures Takes(ok', after, pool, m + n)
  {
    if ok && ok' {
      assert pool[m..][n..] == pool[m + n..];
    }
  }

  lemma {:induction false} PrepareTableTakes(es: seq<Entry>, j: nat, level: nat, lo: nat, hi: nat, op: Op, pool: Pool,
                                             r: TableResult)
    requires WfAll(es, level) && WfOp(op) && j <= |es|
    requires r == MapTable(es, j, level, lo, hi, op, false, pool)
    ensures Takes(r.ok, r.pool, pool, NeedTable(es, j, level, lo, hi, op))
    decreases level, 1, |es| - j
  {
    if j < |es| {
      if !Hit(j, level, lo, hi) {
        PrepareTableTakes(es, j + 1, level, lo, hi, op, pool, r);
      } else {
        var l, h := ClipLo(lo, j, Size(level)), ClipHi(hi, j, Size(level));
        var x := MapEntry(es[j], level, l, h, op, false, pool);
        PrepareEntryTakes(es[j], level, l, h, op, pool, x);
        if x.ok {
          PrepareTableTakes(es[j := x.entry], j + 1, level, lo, hi, op, x.pool, r);
          assert es[j := x.entry][j + 1..] == es[j + 1..];
          NeedOfRest(es[j := x.entry], es, j + 1, level, lo, hi, op);
        }
        TakesMore(x.ok, x.pool, r.ok, r.pool, pool, NeedEntry(es[j], level, l, h, op),
                  NeedTable(es, j + 1, level, lo, hi, op));
      }
    }
  }

  // ---- No preparation can do with less ----

  function Tables(e: Entry): nat {
    if e.Table? then 1 + TablesFrom(e.entries, 0) else 0
  }

  function TablesFrom(es: seq<Entry>, j: nat): nat
    requires j <= |es|
    decreases es, |es| - j
  {
    if j == |es| then 0 else Tables(es[j]) + TablesFrom(es, j + 1)
  }

  lemma {:induction false} SplitGrows(e': Entry, e: Entry)
    requires SplitOf(e', e)
    ensures Tables(e) <= Tables(e')
    decreases e'
  {
    if e' != e && e.Table? {
      SplitGrowsFrom(e'.entries, e.entries, 0);
    }
  }

  lemma {:induction false} SplitGrowsFrom(es': seq<Entry>, es: seq<Entry>, j: nat)
    requires SplitOfAll(es', es) && j <= |es|
    ensures TablesFrom(es, j) <= TablesFrom(es', j)
    decreases es', |es| - j
  {
    if j < |es| {
      SplitGrows(es'[j], es[j]);
      SplitGrowsFrom(es', es, j + 1);
    }
  }

  /** Whatever tables are put below an entry so that a commit of the range is ready, there are at least
      as many as the prepare takes. */
  lemma {:induction false} NeedIsLeast(e': Entry, e: Entry, level: nat, lo: nat, hi: nat, op: Op)
    requires Wf(e, level) && Wf(e', level) && lo < hi <= Size(level)
    requires SplitOf(e', e) && ReadyEntry(e', level, lo, hi, op)
    ensures Tables(e) + NeedEntry(e, level, lo, hi, op) <= Tables(e')
    decreases level, 1, 0
  {
    if Settled(e, level, lo, hi, op) {
      SplitGrows(e', e);
    } else {
      var es := if e.Table? then e.entries else SplitLeaf(e);
      NeedBelow(e, level, lo, hi, op);
      ReadyBelow(e', e, level, lo, hi, op, es);
      NeedIsLeastFrom(e'.entries, es, 0, level - 1, lo, hi, op);
      TablesBelow(e', e, es);
    }
  }

  lemma ReadyBelow(e': Entry, e: Entry, level: nat, lo: nat, hi: nat, op: Op, es: seq<Entry>)
    requires Wf(e, level) && Wf(e', level) && level > 0 && !Settled(e, level, lo, hi, op)
    requires SplitOf(e', e) && ReadyEntry(e', level, lo, hi, op)
    requires es == if e.Table? then e.entries else SplitLeaf(e)
    ensures e'.Table? && SplitOfAll(e'.entries, es) && ReadyTable(e'.entries, 0, level - 1, lo, hi, op)
    ensures WfAll(es, level - 1) && WfAll(e'.entries, level - 1)
  {
  }

  lemma TablesBelow(e': Entry, e: Entry, es: seq<Entry>)
    requires e'.Table? && es == if e.Table? then e.entries else SplitLeaf(e)
    ensures Tables(e') == 1 + TablesFrom(e'.entries, 0)
    ensures Tables(e) <= TablesFrom(es, 0) + if e.Table? then 1 else 0
  {
  }

  lemma {:induction false} NeedIsLeastFrom(es': seq<Entry>, es: seq<Entry>, j: nat, level: nat, lo: nat, hi: nat,
                                           op: Op)
    requires WfAll(es, level) && WfAll(es', level) && j <= |es|
    requires SplitOfAll(es', es) && ReadyTable(es', j, level, lo, hi, op)
    ensures TablesFrom(es, j) + NeedTable(es, j, level, lo, hi, op) <= TablesFrom(es', j)
    decreases level, 2, |es| - j
  {
    if j < |es| {
      if Hit(j, level, lo, hi) {
        NeedIsLeast(es'[j], es[j], level, ClipLo(lo, j, Size(level)), ClipHi(hi, j, Size(level)), op);
      } else {
        SplitGrows(es'[j], es[j]);
      }
      NeedIsLeastFrom(es', es, j + 1, level, lo, hi, op);
    }
  }

  // ---- Two tables for every level ----

  /** One table for every level at an end of the range that is inside an entry, and none otherwise. */
  function EndCost(inside: bool, level: nat): nat {
    if inside then level else 0
  }

  /** End `x` of the range falls inside entry `j` of a table, or a later one. */
  predicate InsideFrom(x: nat, j: nat, s: nat)
    requires s > 0
  {
    x % s != 0 && j <= x / s
  }

  lemma {:induction false} EntryCost(e: Entry, level: nat, lo: nat, hi: nat, op: Op)
    requires Wf(e, level) && lo < hi <= Size(level) && LeafAllowed(level, op)
    ensures NeedEntry(e, level, lo, hi, op) <= EndCost(lo > 0, level) + EndCost(hi < Size(level), level)
    decreases level, 0, 0
  {
    if level > 0 && !(lo == 0 && hi == Size(level)) {
      var es, s := if e.Table? then e.entries else SplitLeaf(e), Size(level - 1);
      TableCost(es, 0, level - 1, lo, hi, op);
      assert 0 % s == 0;
      assert Size(level) % s == 0 by {
        DivModUnique(Size(level), s, ENTRIES, 0);
      }
    }
  }

  lemma {:induction false} TableCost(es: seq<Entry>, j: nat, level: nat, lo: nat, hi: nat, op: Op)
    requires WfAll(es, level) && j <= |es| && LeafAllowed(level, op)
    ensures NeedTable(es, j, level, lo, hi, op) <=
            EndCost(InsideFrom(lo, j, Size(level)), level) + EndCost(InsideFrom(hi, j, Size(level)), level)
    decreases level, 1, |es| - j
  {
    if j < |es| {
      TableCost(es, j + 1, level, lo, hi, op);
      if Hit(j, level, lo, hi) {
        EntryCost(es[j], level, ClipLo(lo, j, Size(level)), ClipHi(hi, j, Size(level)), op);
        EndInEntry(lo, hi, j, Size(level));
      }
    }
  }

  lemma EndInEntry(lo: nat, hi: nat, j: nat, s: nat)
    requires s > 0 && ClipLo(lo, j, s) < ClipHi(hi, j, s)
    ensures ClipLo(lo, j, s) > 0 ==> InsideFrom(lo, j, s) && !InsideFrom(lo, j + 1, s)
    ensures ClipHi(hi, j, s) < s ==> InsideFrom(hi, j, s) && !InsideFrom(hi, j + 1, s)
  {
    if ClipLo(lo, j, s) > 0 {
      DivModUnique(lo, s, j, lo - j * s);
    }
    if ClipHi(hi, j, s) < s {
      DivModUnique(hi, s, j, hi - j * s);
    }
  }

  // ---- Updates ----

  function Need(t: Ptable, begin: nat, end: nat, op: Op): nat
    requires ValidTable(t)
  {
    NeedTable(t.root, 0, t.level, BeginPage(begin), EndPage(t, end), op)
  }

  /** An update succeeds exactly when the pool has as many pages as tables are missing. That is never more
      than two for every level where memory is unmapped or the root's entries can be blocks, and none if the
      range is made of whole entries of the root. */
  lemma UpdateNeeds(t: Ptable, begin: nat, end: nat, op: Op, pool: Pool)
    requires ValidTable(t) && WfOp(op)
    ensures IdentityUpdate(t, begin, end, op, pool).ok <==> Need(t, begin, end, op) <= |pool|
    ensures op.Unmap? || t.level <= 2 ==> Need(t, begin, end, op) <= 2 * t.level
    ensures var lo, hi, s := BeginPage(begin), EndPage(t, end), Size(t.level);
            (op.Unmap? || t.level <= 2) && lo % s == 0 && hi % s == 0 ==> Need(t, begin, end, op) == 0
  {
    UpdateIsAtomic(t, begin, end, op, pool);
    var lo, hi := BeginPage(begin), EndPage(t, end);
    PrepareTableTakes(t.root, 0, t.level, lo, hi, op, pool, MapTable(t.root, 0, t.level, lo, hi, op, false, pool));
    if LeafAllowed(t.level, op) {
      TableCost(t.root, 0, t.level, lo, hi, op);
    }
  }

  predicate BelowLimit(cs: seq<Constituent>, limit: nat) {
    forall i :: 0 <= i < |cs| ==> cs[i].address < limit && End(cs[i]) < limit
  }

  /** Preparing a region fails if an end of a constituent is not below the physical address limit, and
      otherwise succeeds if there are two pages for every level and constituent. */
  lemma RegionNeeds(t: Ptable, cs: seq<Constituent>, op: Op, pool: Pool, limit: nat, r: MapResult)
    requires ValidTable(t) && WfOp(op) && (op.Unmap? || t.level <= 2)
    requires r == RegionMap(t, cs, op, false, pool, limit)
    ensures !BelowLimit(cs, limit) ==> !r.ok
    ensures BelowLimit(cs, limit) && |cs| * (2 * t.level) <= |pool| ==> r.ok
  {
    RegionPrepare(t, cs, op, pool, limit, r);
    if BelowLimit(cs, limit) && |cs| * (2 * t.level) <= |pool| {
      RegionSucceeds(t, cs, op, pool, limit, 2 * t.level);
    }
  }

  lemma {:induction false} RegionSucceeds(t: Ptable, cs: seq<Constituent>, op: Op, pool: Pool, limit: nat, each: nat)
    requires ValidTable(t) && WfOp(op) && (op.Unmap? || t.level <= 2) && each == 2 * t.level
    requires BelowLimit(cs, limit) && |cs| * each <= |pool|
    ensures RegionMap(t, cs, op, false, pool, limit).ok
    decreases |cs|
  {
    if cs != [] {
      var x := MapIdentity(t, cs[0].address, End(cs[0]), op, false, pool);
      PrepareBound(t, cs[0].address, End(cs[0]), op, pool, x);
      MulNext(|cs|, each);
      BelowRest(cs, limit);
      RegionSucceeds(x.table, cs[1..], op, x.pool, limit, each);
    }
  }

  lemma MulNext(n: nat, each: nat)
    requires n > 0
    ensures n * each == (n - 1) * each + each && (n - 1) * each >= 0
  {
  }

  lemma BelowRest(cs: seq<Constituent>, limit: nat)
    requires cs != [] && BelowLimit(cs, limit)
    ensures BelowLimit(cs[1..], limit) && InPaRange(cs[0], limit)
  {
  }

  lemma PrepareBound(t: Ptable, begin: nat, end: nat, op: Op, pool: Pool, x: MapResult)
    requires ValidTable(t) && WfOp(op) && (op.Unmap? || t.level <= 2)
    requires x == MapIdentity(t, begin, end, op, false, pool)
    ensures x.table.level == t.level
    ensures if x.ok then |x.pool| >= |pool| - 2 * t.level else |pool| < 2 * t.level
  {
    var lo, hi := BeginPage(begin), EndPage(t, end);
    PrepareTableTakes(t.root, 0, t.level, lo, hi, op, pool, MapTable(t.root, 0, t.level, lo, hi, op, false, pool));
    TableCost(t.root, 0, t.level, lo, hi, op);
  }

  /** Any way of putting tables into the page table so that the commit cannot fail takes as many. */
  lemma UpdateNeedsLeast(t: Ptable, begin: nat, end: nat, op: Op, u: seq<Entry>)
    requires ValidTable(t) && WfAll(u, t.level) && SplitOfAll(u, t.root)
    requires ReadyTable(u, 0, t.level, BeginPage(begin), EndPage(t, end), op)
    ensures TablesFrom(t.root, 0) + Need(t, begin, end, op) <= TablesFrom(u, 0)
  {
    NeedIsLeastFrom(u, t.root, 0, t.level, BeginPage(begin), EndPage(t, end), op);
  }
}
