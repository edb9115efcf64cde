/** What a TLB can hold. It may at any moment cache any valid entry that a table walk can reach,
    also entries that refer to tables, and keeps them until an invalidation of a range that
    overlaps the pages they translate. */
module Tlb {
  import opened Arithmetic
  import opened PageTree
  import opened TableMemory

  /** The slot an entry was read from, its value then, and the pages it translates. */
  datatype Cached = Cached(page: Page, index: nat, pte: Pte, lo: nat, size: nat)

  function Pos(base: nat, k: nat, level: nat): nat {
    base + k * Size(level)
  }

  /** `c` is the valid entry `e` or one below it. */
  ghost predicate LiveEntry(page: Page, k: nat, e: Entry, level: nat, lo: nat, c: Cached)
    decreases e, 0
  {
    || (IsValid(PteOf(e)) && c == Cached(page, k, PteOf(e), lo, Size(level)))
    || (e.Table? && level > 0 && LiveTable(e.page, e.entries, level - 1, lo, c))
  }

  /** A walk that starts at the table reaches `c`. */
  ghost predicate LiveTable(page: Page, es: seq<Entry>, level: nat, base: nat, c: Cached)
    decreases es, 1
  {
    exists k :: 0 <= k < |es| && LiveEntry(page, k, es[k], level, Pos(base, k, level), c)
  }

  predicate Overlaps(c: Cached, lo: nat, hi: nat) {
    c.lo < hi && lo < c.lo + c.size
  }

  /** What is at or below an entry translates pages of that entry only. */
  lemma {:induction false} LiveRange(page: Page, k: nat, e: Entry, level: nat, lo: nat, c: Cached)
    requires Wf(e, level) && LiveEntry(page, k, e, level, lo, c)
    ensures lo <= c.lo && c.lo + c.size <= lo + Size(level) && c.size > 0
    decreases level
  {
    if !(IsValid(PteOf(e)) && c == Cached(page, k, PteOf(e), lo, Size(level))) {
      var es, below := e.entries, level - 1;
      var j :| 0 <= j < |es| && LiveEntry(e.page, j, es[j], below, Pos(lo, j, below), c);
      LiveRange(e.page, j, es[j], below, Pos(lo, j, below), c);
      MulStep(j, ENTRIES, Size(below));
    }
  }

  /** Cached entries that are reachable lie in pages of the tree and lead to pages of the tree. */
  lemma {:induction false} LivePages(page: Page, es: seq<Entry>, level: nat, base: nat, c: Cached)
    requires LiveTable(page, es, level, base, c)
    ensures c.page == page || c.page in PagesAll(es)
    ensures c.pte.TablePte? ==> c.pte.page in PagesAll(es)
    decreases es
  {
    var k :| 0 <= k < |es| && LiveEntry(page, k, es[k], level, Pos(base, k, level), c);
    var e := es[k];
    PagesEntry(es, k);
    if !(IsValid(PteOf(e)) && c == Cached(page, k, PteOf(e), Pos(base, k, level), Size(level))) {
      LivePages(e.page, e.entries, level - 1, Pos(base, k, level), c);
      assert c.page in Pages(e);
      assert c.pte.TablePte? ==> c.pte.page in Pages(e);
    } else if e.Table? {
      assert e.page in Pages(e);
    }
  }

  /** What is reachable is in memory now. */
  lemma {:induction false} LiveInMemory(m: Memory, page: Page, es: seq<Entry>, level: nat, base: nat, c: Cached)
    requires RepTable(m, page, es) && LiveTable(page, es, level, base, c)
    ensures c.page in m && c.index < |m[c.page]| && m[c.page][c.index] == c.pte && IsValid(c.pte)
    decreases es
  {
    var k :| 0 <= k < |es| && LiveEntry(page, k, es[k], level, Pos(base, k, level), c);
    var e := es[k];
    assert Rep(m, m[page][k], e);
    if !(IsValid(PteOf(e)) && c == Cached(page, k, PteOf(e), Pos(base, k, level), Size(level))) {
      LiveInMemory(m, e.page, e.entries, level - 1, Pos(base, k, level), c);
    }
  }

  /** What a walk from the table at `path` reaches, a walk from the root reaches. */
  lemma {:induction false} LiveSub(page: Page, es: seq<Entry>, level: nat, base: nat, path: seq<nat>, c: Cached)
    requires IsPath(es, path) && |path| <= level
    requires LiveTable(SubPage(page, es, path), Sub(es, path), level - |path|, BaseOf(base, level, path), c)
    ensures LiveTable(page, es, level, base, c)
    decreases |path|
  {
    if path != [] {
      var e := es[path[0]];
      LiveSub(e.page, e.entries, level - 1, Pos(base, path[0], level), path[1..], c);
      assert LiveEntry(page, path[0], e, level, Pos(base, path[0], level), c);
    }
  }

  /** What is reachable after the table at `path` was replaced was reachable before or is
      reachable from that table. */
  lemma {:induction false} LivePut(page: Page, es: seq<Entry>, level: nat, base: nat, path: seq<nat>, fs: seq<Entry>,
                                   c: Cached)
    requires IsPath(es, path) && |path| <= level && LiveTable(page, Put(es, path, fs), level, base, c)
    ensures LiveTable(page, es, level, base, c) ||
            LiveTable(SubPage(page, es, path), fs, level - |path|, BaseOf(base, level, path), c)
    decreases |path|
  {
    if path != [] {
      var i, e := path[0], es[path[0]];
      var gs := Put(e.entries, path[1..], fs);
      var ts := es[i := Table(e.page, gs)];
      var k :| 0 <= k < |ts| && LiveEntry(page, k, ts[k], level, Pos(base, k, level), c);
      if k != i || c == Cached(page, i, TablePte(e.page), Pos(base, i, level), Size(level)) {
        assert LiveEntry(page, k, es[k], level, Pos(base, k, level), c);
      } else {
        LivePut(e.page, e.entries, level - 1, Pos(base, i, level), path[1..], fs, c);
        if LiveTable(e.page, e.entries, level - 1, Pos(base, i, level), c) {
          assert LiveEntry(page, i, e, level, Pos(base, i, level), c);
        }
      }
    }
  }

  /** Writing one slot: what is reachable afterwards was reachable before, or is at or below the
      new entry. */
  lemma LiveWrite(page: Page, es: seq<Entry>, level: nat, path: seq<nat>, j: nat, e: Entry, c: Cached)
    requires IsPath(es, path) && |path| <= level && j < |Sub(es, path)|
    requires LiveTable(page, Put(es, path, Sub(es, path)[j := e]), level, 0, c)
    ensures LiveTable(page, es, level, 0, c) ||
            LiveEntry(SubPage(page, es, path), j, e, level - |path|, Pos(BaseOf(0, level, path), j, level - |path|), c)
  {
    var before := Sub(es, path);
    var fs := before[j := e];
    var p, l, b := SubPage(page, es, path), level - |path|, BaseOf(0, level, path);
    LivePut(page, es, level, 0, path, fs, c);
    if LiveTable(p, fs, l, b, c) {
      var k :| 0 <= k < |fs| && LiveEntry(p, k, fs[k], l, Pos(b, k, l), c);
      if k != j {
        assert LiveEntry(p, k, before[k], l, Pos(b, k, l), c);
        LiveSub(page, es, level, 0, path, c);
      }
    }
  }

  /** And conversely: what was reachable before is reachable afterwards, or was at or below the
      old entry. */
  lemma LiveUnwrite(page: Page, es: seq<Entry>, level: nat, path: seq<nat>, j: nat, e: Entry, c: Cached)
    requires IsPath(es, path) && |path| <= level && j < |Sub(es, path)| && LiveTable(page, es, level, 0, c)
    ensures LiveTable(page, PutEntry(es, path, j, e), level, 0, c) ||
            LiveEntry(SubPage(page, es, path), j, Sub(es, path)[j], level - |path|,
                      Pos(BaseOf(0, level, path), j, level - |path|), c)
  {
    var before := Sub(es, path);
    var ts := PutEntry(es, path, j, e);
    PutSub(page, es, path, before[j := e]);
    PutPut(es, path, before[j := e], before);
    PutSame(es, path);
    assert before[j := e][j := before[j]] == before;
    LiveWrite(page, ts, level, path, j, before[j], c);
  }

  /** A slot without a valid entry has nothing at or below it. */
  lemma NotLive(page: Page, j: nat, e: Entry, level: nat, lo: nat, c: Cached)
    requires !IsValid(PteOf(e))
    ensures !LiveEntry(page, j, e, level, lo, c)
  {
  }

  /** An invalidation that starts where the entry starts, or somewhere in a leaf, hits all that
      is at or below it. */
  lemma InvalidationHits(page: Page, j: nat, e: Entry, level: nat, lo: nat, begin: nat, c: Cached)
    requires Wf(e, level) && LiveEntry(page, j, e, level, lo, c)
    requires begin == lo || (!e.Table? && lo <= begin < lo + Size(level))
    ensures Overlaps(c, begin, begin + Size(level))
  {
    LiveRange(page, j, e, level, lo, c);
  }
}
