/** Page tables as they lie in memory: rows of entries in pages that refer to each other, the tree
    they represent, and the entries a TLB can get to see. */
module TableMemory {
  import opened Collections
  import opened PageTree

  datatype Pte = AbsentPte | BlockPte(attrs: Attrs) | TablePte(page: Page)

  /** The contents of every page, as a table. */
  type Memory = map<Page, seq<Pte>>

  function PteOf(e: Entry): Pte {
    match e
    case Absent => AbsentPte
    case Block(a) => BlockPte(a)
    case Table(p, _) => TablePte(p)
  }

  /** Bit 0 of an entry. A block can be present without being valid. */
  predicate IsValid(v: Pte) {
    match v
    case AbsentPte => false
    case BlockPte(a) => a % 2 == 1
    case TablePte(_) => true
  }

  // ---- Representation ----

  ghost predicate Rep(m: Memory, v: Pte, e: Entry)
    decreases e, 0
  {
    v == PteOf(e) && (e.Table? ==> RepTable(m, e.page, e.entries))
  }

  ghost predicate RepTable(m: Memory, page: Page, es: seq<Entry>)
    decreases es, 1
  {
    page in m && |m[page]| == |es| && forall i :: 0 <= i < |es| ==> Rep(m, m[page][i], es[i])
  }

  ghost predicate Agree(m': Memory, m: Memory, pages: multiset<Page>) {
    forall q :: q in pages && q in m ==> q in m' && m'[q] == m[q]
  }

  /** A tree is represented as long as its own pages do not change. */
  lemma {:induction false} RepFrame(m: Memory, m': Memory, v: Pte, e: Entry)
    requires Rep(m, v, e) && Agree(m', m, Pages(e))
    ensures Rep(m', v, e)
    decreases e, 0
  {
    if e.Table? {
      RepTableFrame(m, m', e.page, e.entries);
    }
  }

  lemma {:induction false} RepTableFrame(m: Memory, m': Memory, page: Page, es: seq<Entry>)
    requires RepTable(m, page, es) && Agree(m', m, multiset{page} + PagesAll(es))
    ensures RepTable(m', page, es)
    decreases es, 1
  {
    assert page in multiset{page} + PagesAll(es);
    forall i | 0 <= i < |es|
      ensures Rep(m', m'[page][i], es[i])
    {
      PagesEntry(es, i);
      RepFrame(m, m', m[page][i], es[i]);
    }
  }

  // ---- Positions in a tree ----

  /** A path names a table by the indices of the entries that lead to it. */
  ghost predicate IsPath(es: seq<Entry>, path: seq<nat>)
    decreases |path|
  {
    path == [] || (path[0] < |es| && es[path[0]].Table? && IsPath(es[path[0]].entries, path[1..]))
  }

  ghost function Sub(es: seq<Entry>, path: seq<nat>): seq<Entry>
    requires IsPath(es, path)
    decreases |path|
  {
    if path == [] then es else Sub(es[path[0]].entries, path[1..])
  }

  ghost function SubPage(page: Page, es: seq<Entry>, path: seq<nat>): Page
    requires IsPath(es, path)
    decreases |path|
  {
    if path == [] then page else SubPage(es[path[0]].page, es[path[0]].entries, path[1..])
  }

  /** The first page the table at `path` covers. */
  ghost function BaseOf(base: nat, level: nat, path: seq<nat>): nat
    decreases |path|
  {
    if path == [] then base
    else BaseOf(base + path[0] * Size(level), if level == 0 then 0 else level - 1, path[1..])
  }

  /** Replaces the entries of the table at `path`. */
  ghost function Put(es: seq<Entry>, path: seq<nat>, fs: seq<Entry>): seq<Entry>
    requires IsPath(es, path)
    decreases |path|
  {
    if path == [] then fs
    else
      var e := es[path[0]];
      es[path[0] := Table(e.page, Put(e.entries, path[1..], fs))]
  }

  lemma {:induction false} PutSub(page: Page, es: seq<Entry>, path: seq<nat>, fs: seq<Entry>)
    requires IsPath(es, path)
    ensures IsPath(Put(es, path, fs), path) && Sub(Put(es, path, fs), path) == fs
    ensures SubPage(page, Put(es, path, fs), path) == SubPage(page, es, path)
    decreases |path|
  {
    if path != [] {
      PutSub(es[path[0]].page, es[path[0]].entries, path[1..], fs);
    }
  }

  lemma {:induction false} PutPut(es: seq<Entry>, path: seq<nat>, fs: seq<Entry>, gs: seq<Entry>)
    requires IsPath(es, path)
    ensures IsPath(Put(es, path, fs), path) && Put(Put(es, path, fs), path, gs) == Put(es, path, gs)
    decreases |path|
  {
    if path != [] {
      PutPut(es[path[0]].entries, path[1..], fs, gs);
    }
  }

  lemma {:induction false} PutSame(es: seq<Entry>, path: seq<nat>)
    requires IsPath(es, path)
    ensures Put(es, path, Sub(es, path)) == es
    decreases |path|
  {
    if path != [] {
      PutSame(es[path[0]].entries, path[1..]);
    }
  }

  /** Going one level further down. */
  lemma {:induction false} PathDown(page: Page, es: seq<Entry>, path: seq<nat>, j: nat, base: nat, level: nat)
    requires IsPath(es, path) && j < |Sub(es, path)| && Sub(es, path)[j].Table? && |path| < level
    ensures IsPath(es, path + [j]) && Sub(es, path + [j]) == Sub(es, path)[j].entries
    ensures SubPage(page, es, path + [j]) == Sub(es, path)[j].page
    ensures BaseOf(base, level, path + [j]) == BaseOf(base, level, path) + j * Size(level - |path|)
    decreases |path|
  {
    if path != [] {
      assert (path + [j])[1..] == path[1..] + [j];
      PathDown(es[path[0]].page, es[path[0]].entries, path[1..], j, base + path[0] * Size(level), level - 1);
    }
  }

  lemma {:induction false} PutDown(es: seq<Entry>, path: seq<nat>, j: nat, fs: seq<Entry>)
    requires IsPath(es, path) && j < |Sub(es, path)| && Sub(es, path)[j].Table? && IsPath(es, path + [j])
    ensures Put(es, path + [j], fs) == Put(es, path, Sub(es, path)[j := Table(Sub(es, path)[j].page, fs)])
    decreases |path|
  {
    if path != [] {
      assert (path + [j])[1..] == path[1..] + [j];
      PutDown(es[path[0]].entries, path[1..], j, fs);
    } else {
      assert (path + [j])[1..] == [];
    }
  }

  lemma {:induction false} PutWf(es: seq<Entry>, path: seq<nat>, level: nat, fs: seq<Entry>)
    requires IsPath(es, path) && WfAll(es, level)
    ensures |path| <= level && WfAll(Sub(es, path), level - |path|)
    ensures path != [] ==> |Sub(es, path)| == ENTRIES
    ensures |fs| == |Sub(es, path)| && WfAll(fs, level - |path|) ==>
              WfAll(Put(es, path, fs), level) && |Put(es, path, fs)| == |es|
    decreases |path|
  {
    if path != [] {
      PutWf(es[path[0]].entries, path[1..], level - 1, fs);
    }
  }

  lemma {:induction false} PutPages(es: seq<Entry>, path: seq<nat>, fs: seq<Entry>)
    requires IsPath(es, path)
    ensures PagesAll(Put(es, path, fs)) + PagesAll(Sub(es, path)) == PagesAll(es) + PagesAll(fs)
    decreases |path|
  {
    if path != [] {
      var i, e := path[0], es[path[0]];
      var gs := Put(e.entries, path[1..], fs);
      PutPages(e.entries, path[1..], fs);
      PagesUpdate(es, i, Table(e.page, gs));
      Exchange(PagesAll(Put(es, path, fs)), PagesAll(es), multiset{e.page}, PagesAll(gs), PagesAll(e.entries),
               PagesAll(Sub(es, path)), PagesAll(fs));
    }
  }

  lemma Exchange(x': multiset<Page>, x: multiset<Page>, p: multiset<Page>, g: multiset<Page>, e: multiset<Page>,
                 s: multiset<Page>, f: multiset<Page>)
    requires x' + (p + e) == x + (p + g) && g + s == e + f
    ensures x' + s == x + f
  {
    forall q: Page
      ensures (x' + s)[q] == (x + f)[q]
    {
      assert (x' + (p + e))[q] == (x + (p + g))[q] && (g + s)[q] == (e + f)[q];
    }
  }

  /** The pages of the table at `path` are among the pages of the tree. */
  lemma {:induction false} SubPages(page: Page, es: seq<Entry>, path: seq<nat>)
    requires IsPath(es, path)
    ensures multiset{SubPage(page, es, path)} + PagesAll(Sub(es, path)) <= multiset{page} + PagesAll(es)
    ensures path != [] ==> multiset{SubPage(page, es, path)} + PagesAll(Sub(es, path)) <= PagesAll(es)
    decreases |path|
  {
    if path != [] {
      var e := es[path[0]];
      SubPages(e.page, e.entries, path[1..]);
      PagesEntry(es, path[0]);
    }
  }

  /** `m'` differs from `m` on the given pages at most in page `p`. */
  ghost predicate AgreeBut(m': Memory, m: Memory, pages: multiset<Page>, p: Page) {
    forall q :: q in pages && q in m && q != p ==> q in m' && m'[q] == m[q]
  }

  lemma SiblingsFrame(m: Memory, m': Memory, page: Page, es: seq<Entry>, i: nat, p: Page)
    requires RepTable(m, page, es) && i < |es| && NoDup(multiset{page} + PagesAll(es)) && p in Pages(es[i])
    requires AgreeBut(m', m, multiset{page} + PagesAll(es), p)
    ensures page in m' && m'[page] == m[page]
    ensures forall k :: 0 <= k < |es| && k != i ==> Rep(m', m[page][k], es[k])
  {
    SiblingPages(page, es, i);
    PagesEntry(es, i);
    assert page != p;
    forall k | 0 <= k < |es| && k != i
      ensures Rep(m', m[page][k], es[k])
    {
      PagesEntry(es, k);
      assert Rep(m, m[page][k], es[k]);
      RepFrame(m, m', m[page][k], es[k]);
    }
  }

  /** Writing a new row into the page of the table at `path` changes that table only. */
  lemma {:induction false} RepPut(m: Memory, m': Memory, page: Page, es: seq<Entry>, path: seq<nat>, p: Page,
                                  fs: seq<Entry>)
    requires RepTable(m, page, es) && IsPath(es, path) && NoDup(multiset{page} + PagesAll(es))
    requires p == SubPage(page, es, path) && RepTable(m', p, fs)
    requires AgreeBut(m', m, multiset{page} + PagesAll(es), p)
    ensures RepTable(m', page, Put(es, path, fs))
    decreases |path|
  {
    if path != [] {
      var i, e := path[0], es[path[0]];
      SubPages(e.page, e.entries, path[1..]);
      PagesEntry(es, i);
      SiblingsFrame(m, m', page, es, i, p);
      assert Rep(m, m[page][i], e);
      SiblingPages(page, es, i);
      RepPut(m, m', e.page, e.entries, path[1..], p, fs);
      RepEntries(m', page, es, i, Table(e.page, Put(e.entries, path[1..], fs)));
    }
  }

  lemma RepEntries(m: Memory, page: Page, es: seq<Entry>, i: nat, e: Entry)
    requires page in m && |m[page]| == |es| && i < |es| && Rep(m, m[page][i], e)
    requires forall k :: 0 <= k < |es| && k != i ==> Rep(m, m[page][k], es[k])
    ensures RepTable(m, page, es[i := e])
  {
  }

  /** In a tree without duplicate pages, what is below entry `i` is neither the table itself nor
      below another entry. */
  lemma SiblingPages(page: Page, es: seq<Entry>, i: nat)
    requires i < |es| && NoDup(multiset{page} + PagesAll(es))
    ensures NoDup(Pages(es[i])) && page !in PagesAll(es)
    ensures forall k, q :: 0 <= k < |es| && k != i && q in Pages(es[i]) ==> q !in Pages(es[k])
  {
    PagesEntry(es, i);
    assert (multiset{page} + PagesAll(es))[page] <= 1;
    forall q
      ensures Pages(es[i])[q] <= 1
    {
      assert (multiset{page} + PagesAll(es))[q] <= 1;
    }
    forall k, q | 0 <= k < |es| && k != i && q in Pages(es[i])
      ensures q !in Pages(es[k])
    {
      PagesUpdate(es, i, Absent);
      PagesEntry(es[i := Absent], k);
      assert (multiset{page} + PagesAll(es))[q] <= 1;
      assert (PagesAll(es[i := Absent]) + Pages(es[i]))[q] == (PagesAll(es) + Pages(Absent))[q];
    }
  }

  /** The table at `path` is represented. */
  lemma {:induction false} RepSub(m: Memory, page: Page, es: seq<Entry>, path: seq<nat>)
    requires RepTable(m, page, es) && IsPath(es, path)
    ensures RepTable(m, SubPage(page, es, path), Sub(es, path))
    decreases |path|
  {
    if path != [] {
      assert Rep(m, m[page][path[0]], es[path[0]]);
      RepSub(m, es[path[0]].page, es[path[0]].entries, path[1..]);
    }
  }

  /** The tree with entry `j` of the table at `path` replaced. */
  ghost function PutEntry(es: seq<Entry>, path: seq<nat>, j: nat, e: Entry): seq<Entry>
    requires IsPath(es, path) && j < |Sub(es, path)|
  {
    Put(es, path, Sub(es, path)[j := e])
  }

  lemma PutEntryPages(es: seq<Entry>, path: seq<nat>, j: nat, e: Entry)
    requires IsPath(es, path) && j < |Sub(es, path)|
    ensures PagesAll(PutEntry(es, path, j, e)) + Pages(Sub(es, path)[j]) == PagesAll(es) + Pages(e)
  {
    var fs := Sub(es, path);
    PutPages(es, path, fs[j := e]);
    PagesUpdate(fs, j, e);
    Cancel(PagesAll(PutEntry(es, path, j, e)), PagesAll(es), PagesAll(fs), PagesAll(fs[j := e]), Pages(fs[j]),
           Pages(e));
  }

  lemma Cancel(x': multiset<Page>, x: multiset<Page>, f: multiset<Page>, g: multiset<Page>, a: multiset<Page>,
               b: multiset<Page>)
    requires x' + f == x + g && g + a == f + b
    ensures x' + a == x + b
  {
    forall q: Page
      ensures (x' + a)[q] == (x + b)[q]
    {
      assert (x' + f)[q] == (x + g)[q] && (g + a)[q] == (f + b)[q];
    }
  }

  lemma NoDupSubset(a: multiset<Page>, b: multiset<Page>)
    requires a <= b && NoDup(b)
    ensures NoDup(a)
  {
    forall q
      ensures a[q] <= 1
    {
      assert b[q] <= 1;
    }
  }

  /** Writing one slot of the table at `path`, in memory and in the tree. */
  lemma WriteRep(m: Memory, page: Page, es: seq<Entry>, path: seq<nat>, p: Page, j: nat, e: Entry)
    requires RepTable(m, page, es) && IsPath(es, path) && p == SubPage(page, es, path) && j < |Sub(es, path)|
    requires Rep(m, PteOf(e), e) && NoDup(multiset{page} + PagesAll(es))
    requires NoDup(multiset{page} + PagesAll(PutEntry(es, path, j, e)))
    ensures p in m && j < |m[p]| && RepTable(m[p := m[p][j := PteOf(e)]], page, PutEntry(es, path, j, e))
  {
    var fs := Sub(es, path)[j := e];
    RepSub(m, page, es, path);
    var m' := m[p := m[p][j := PteOf(e)]];
    PutSub(page, es, path, fs);
    SubPages(page, PutEntry(es, path, j, e), path);
    NoDupSubset(multiset{p} + PagesAll(fs), multiset{page} + PagesAll(PutEntry(es, path, j, e)));
    RowRep(m, m', p, Sub(es, path), j, e);
    RepPut(m, m', page, es, path, p, fs);
  }

  lemma RowRep(m: Memory, m': Memory, p: Page, es: seq<Entry>, j: nat, e: Entry)
    requires RepTable(m, p, es) && j < |es| && Rep(m, PteOf(e), e) && m' == m[p := m[p][j := PteOf(e)]]
    requires NoDup(multiset{p} + PagesAll(es[j := e]))
    ensures RepTable(m', p, es[j := e])
  {
    var fs := es[j := e];
    SiblingPages(p, fs, j);
    forall k | 0 <= k < |fs|
      ensures Rep(m', m'[p][k], fs[k])
    {
      PagesEntry(fs, k);
      RepFrame(m, m', m'[p][k], fs[k]);
    }
  }

  /** How often a page occurs among the root, the tables of a tree, a pool and the pages held. */
  ghost function Times(q: Page, root: Page, es: seq<Entry>, pool: seq<Page>, held: multiset<Page>): nat {
    (if q == root then 1 else 0) + PagesAll(es)[q] + multiset(pool)[q] + held[q]
  }

  /** Every page is in at most one of these places, and there once. */
  ghost predicate Apart(root: Page, es: seq<Entry>, pool: seq<Page>, held: multiset<Page>) {
    forall q :: Times(q, root, es, pool, held) <= 1
  }

  lemma ApartTree(root: Page, es: seq<Entry>, pool: seq<Page>, held: multiset<Page>)
    requires Apart(root, es, pool, held)
    ensures NoDup(multiset{root} + PagesAll(es)) && NoDup(held)
  {
    forall q
      ensures (multiset{root} + PagesAll(es))[q] <= 1 && held[q] <= 1
    {
      assert Times(q, root, es, pool, held) <= 1;
    }
  }

  /** A page of the tree is not in the pool and not held. */
  lemma ApartPage(root: Page, es: seq<Entry>, pool: seq<Page>, held: multiset<Page>, q: Page)
    requires Apart(root, es, pool, held)
    ensures q in multiset{root} + PagesAll(es) ==> q !in pool && q !in held
    ensures q in held ==> q !in pool && q !in multiset{root} + PagesAll(es)
  {
    assert Times(q, root, es, pool, held) <= 1;
    assert q in pool ==> q in multiset(pool);
  }

  /** Writing one slot: pages that leave the tree are held, and pages held enter the tree. */
  lemma ApartWrite(root: Page, es: seq<Entry>, path: seq<nat>, j: nat, e: Entry, pool: seq<Page>, held: multiset<Page>,
                   held': multiset<Page>)
    requires Apart(root, es, pool, held) && IsPath(es, path) && j < |Sub(es, path)|
    requires held' + Pages(e) == held + Pages(Sub(es, path)[j])
    ensures Apart(root, PutEntry(es, path, j, e), pool, held')
  {
    var fs := PutEntry(es, path, j, e);
    PutEntryPages(es, path, j, e);
    forall q
      ensures Times(q, root, fs, pool, held') <= 1
    {
      assert Times(q, root, es, pool, held) <= 1;
      assert (PagesAll(fs) + Pages(Sub(es, path)[j]))[q] == (PagesAll(es) + Pages(e))[q];
      assert (held' + Pages(e))[q] == (held + Pages(Sub(es, path)[j]))[q];
    }
  }

  lemma ApartFree(root: Page, es: seq<Entry>, pool: seq<Page>, rest: multiset<Page>, p: Page)
    requires Apart(root, es, pool, rest + multiset{p})
    ensures Apart(root, es, [p] + pool, rest)
  {
    forall q
      ensures Times(q, root, es, [p] + pool, rest) <= 1
    {
      assert Times(q, root, es, pool, rest + multiset{p}) <= 1;
    }
  }

  lemma ApartAlloc(root: Page, es: seq<Entry>, pool: seq<Page>, held: multiset<Page>)
    requires Apart(root, es, pool, held) && pool != []
    ensures Apart(root, es, pool[1..], held + multiset{pool[0]})
  {
    assert pool == [pool[0]] + pool[1..];
    forall q
      ensures Times(q, root, es, pool[1..], held + multiset{pool[0]}) <= 1
    {
      assert Times(q, root, es, pool, held) <= 1;
    }
  }

  lemma Reorder(a: multiset<Page>, b: multiset<Page>, c: multiset<Page>)
    ensures a + (b + c) == (a + c) + b
  {
  }

  /** Below the first of some entries without duplicate pages there is nothing of the others. */
  lemma FirstApart(es: seq<Entry>, i: nat, rest: multiset<Page>)
    requires i < |es| && NoDup(rest + PagesAll(es[i..]))
    ensures rest + PagesAll(es[i..]) == (rest + PagesAll(es[i + 1..])) + Pages(es[i])
    ensures forall q :: q in Pages(es[i]) ==> q !in PagesAll(es[i + 1..]) && q !in rest
  {
    assert es[i..][0] == es[i] && es[i..][1..] == es[i + 1..];
    Reorder(rest, Pages(es[i]), PagesAll(es[i + 1..]));
    forall q | q in Pages(es[i])
      ensures q !in PagesAll(es[i + 1..]) && q !in rest
    {
      assert (rest + PagesAll(es[i..]))[q] <= 1;
    }
  }

  /** The entries from `i` on are represented. */
  ghost predicate RestRep(m: Memory, row: seq<Pte>, es: seq<Entry>, i: nat) {
    |row| == |es| && forall k :: i <= k < |es| ==> Rep(m, row[k], es[k])
  }

  /** The rest of a table is represented when pages outside it changed. */
  lemma RestFrame(m: Memory, m': Memory, row: seq<Pte>, es: seq<Entry>, i: nat, gone: multiset<Page>)
    requires RestRep(m, row, es, i) && i <= |es|
    requires forall q :: q in gone ==> q !in PagesAll(es[i..])
    requires forall q :: q in m && q !in gone ==> q in m' && m'[q] == m[q]
    ensures RestRep(m', row, es, i)
  {
    forall k | i <= k < |es|
      ensures Rep(m', row[k], es[k])
    {
      PagesEntry(es[i..], k - i);
      RepFrame(m, m', row[k], es[k]);
    }
  }

  /** Replacing an entry twice is replacing it once. */
  lemma PutTwice(page: Page, es: seq<Entry>, path: seq<nat>, j: nat, a: Entry, e: Entry)
    requires IsPath(es, path) && j < |Sub(es, path)|
    ensures var ts := PutEntry(es, path, j, a);
            && IsPath(ts, path) && Sub(ts, path) == Sub(es, path)[j := a]
            && SubPage(page, ts, path) == SubPage(page, es, path)
            && PutEntry(ts, path, j, e) == PutEntry(es, path, j, e)
  {
    var fs := Sub(es, path)[j := a];
    PutSub(page, es, path, fs);
    PutPut(es, path, fs, fs[j := e]);
    assert fs[j := e] == Sub(es, path)[j := e];
  }

  lemma PutSameEntry(es: seq<Entry>, path: seq<nat>, j: nat)
    requires IsPath(es, path) && j < |Sub(es, path)|
    ensures PutEntry(es, path, j, Sub(es, path)[j]) == es
  {
    PutSame(es, path);
    assert Sub(es, path)[j := Sub(es, path)[j]] == Sub(es, path);
  }

  /** The page of a table is not below the table. */
  lemma SubApart(root: Page, es: seq<Entry>, path: seq<nat>, j: nat)
    requires IsPath(es, path) && j < |Sub(es, path)| && NoDup(multiset{root} + PagesAll(es))
    ensures SubPage(root, es, path) !in Pages(Sub(es, path)[j])
  {
    var page, fs := SubPage(root, es, path), Sub(es, path);
    SubPages(root, es, path);
    NoDupSubset(multiset{page} + PagesAll(fs), multiset{root} + PagesAll(es));
    SiblingPages(page, fs, j);
    PagesEntry(fs, j);
  }
}
