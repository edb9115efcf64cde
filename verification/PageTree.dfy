/** Page tables as trees, and the flat map from page numbers to attributes they stand for.

    Addresses inside the tables are page numbers. An entry at level `l` covers `Size(l)`
    consecutive pages, and positions below an entry are offsets from its first page: the tables
    hold identity mappings only, so a block's address is its position and is not stored. */
module PageTree {
  import opened Arithmetic
  import opened Collections

  /** The physical page that holds a table. */
  type Page = int

  /** The attribute bits of an entry, as `arch_mm_pte_attrs` returns them. */
  type Attrs = nat

  const ENTRIES: nat := 512
  const ABSENT_ATTRS: Attrs := 0
  const TABLE_ATTRS: Attrs := 1

  datatype Entry =
    | Absent
    | Block(attrs: Attrs)
    | Table(page: Page, entries: seq<Entry>)

  /** What the architecture promises of a block's attributes: they differ from the attribute
      bits of an absent entry and from those of a table entry. */
  predicate IsBlockAttrs(a: Attrs) {
    a != ABSENT_ATTRS && a != TABLE_ATTRS
  }

  predicate BlockAllowed(level: nat) {
    level <= 2
  }

  /** The number of pages one entry at `level` covers. */
  function Size(level: nat): (s: nat)
    ensures s > 0
  {
    if level == 0 then 1 else ENTRIES * Size(level - 1)
  }

  /** The part of the range start and end that falls into entry `j` of a table whose entries
      cover `s` pages each, as offsets into that entry. */
  function ClipLo(lo: int, j: int, s: nat): int {
    Max(0, lo - j * s)
  }

  function ClipHi(hi: int, j: int, s: nat): int {
    Min(s, hi - j * s)
  }

  /** An offset is in the range when its offset into its entry is in the entry's part of it. */
  lemma ClipOffset(lo: int, hi: int, off: nat, s: nat)
    requires s > 0
    ensures lo <= off < hi <==> ClipLo(lo, off / s, s) <= off % s < ClipHi(hi, off / s, s)
  {
    assert off == (off / s) * s + off % s;
  }

  predicate Wf(e: Entry, level: nat) {
    match e
    case Absent => true
    case Block(a) => BlockAllowed(level) && IsBlockAttrs(a)
    case Table(_, es) => level > 0 && |es| == ENTRIES && forall i :: 0 <= i < |es| ==> Wf(es[i], level - 1)
  }

  predicate WfAll(es: seq<Entry>, level: nat) {
    forall i :: 0 <= i < |es| ==> Wf(es[i], level)
  }

  function EntryAttrs(e: Entry): Attrs {
    match e
    case Absent => ABSENT_ATTRS
    case Block(a) => a
    case Table(_, _) => TABLE_ATTRS
  }

  /** The number of pages a table of `n` entries at `level` covers. */
  function Span(n: nat, level: nat): nat {
    n * Size(level)
  }

  /** The attributes of the page at offset `off` below entry `e`. */
  function At(e: Entry, level: nat, off: nat): Attrs
    requires Wf(e, level) && off < Size(level)
    decreases level, 0
  {
    match e
    case Absent => ABSENT_ATTRS
    case Block(a) => a
    case Table(_, es) => TableAt(es, level - 1, off)
  }

  /** The attributes of the page at offset `off` in a table. */
  function TableAt(es: seq<Entry>, level: nat, off: nat): Attrs
    requires WfAll(es, level) && off < Span(|es|, level)
    decreases level, 1
  {
    IndexInBounds(off, |es|, Size(level));
    At(es[off / Size(level)], level, off % Size(level))
  }

  /** Two tables of the same length stand for the same flat map. */
  ghost predicate SameFlat(es: seq<Entry>, fs: seq<Entry>, level: nat) {
    && |es| == |fs| && WfAll(es, level) && WfAll(fs, level)
    && forall off: nat :: off < Span(|es|, level) ==> TableAt(es, level, off) == TableAt(fs, level, off)
  }

  /** The page at offset `r` of entry `i` is the page at offset `i * Size + r` of the table. */
  lemma TableAtEntry(es: seq<Entry>, level: nat, i: nat, r: nat)
    requires WfAll(es, level) && i < |es| && r < Size(level)
    ensures i * Size(level) + r < Span(|es|, level)
    ensures TableAt(es, level, i * Size(level) + r) == At(es[i], level, r)
  {
    MulStep(i, |es|, Size(level));
    DivModUnique(i * Size(level) + r, Size(level), i, r);
  }

  /** Flat equality can be read off entry by entry. */
  lemma SameFlatEntry(es: seq<Entry>, fs: seq<Entry>, level: nat, i: nat, r: nat)
    requires SameFlat(es, fs, level) && i < |es| && r < Size(level)
    ensures At(es[i], level, r) == At(fs[i], level, r)
  {
    TableAtEntry(es, level, i, r);
    TableAtEntry(fs, level, i, r);
  }

  /** Flat equality can be established entry by entry. */
  lemma SameFlatFromEntries(es: seq<Entry>, fs: seq<Entry>, level: nat)
    requires |es| == |fs| && WfAll(es, level) && WfAll(fs, level)
    requires forall i, r: nat :: 0 <= i < |es| && r < Size(level) ==> At(es[i], level, r) == At(fs[i], level, r)
    ensures SameFlat(es, fs, level)
  {
    forall off: nat | off < Span(|es|, level)
      ensures TableAt(es, level, off) == TableAt(fs, level, off)
    {
      IndexInBounds(off, |es|, Size(level));
    }
  }

  /** The table pages below an entry, with multiplicity. */
  function Pages(e: Entry): multiset<Page>
    decreases e, 0
  {
    match e
    case Absent => multiset{}
    case Block(_) => multiset{}
    case Table(p, es) => multiset{p} + PagesAll(es)
  }

  function PagesAll(es: seq<Entry>): multiset<Page>
    decreases es, 1
  {
    if es == [] then multiset{} else Pages(es[0]) + PagesAll(es[1..])
  }

  /** Replacing one entry changes the pages of a table by that entry's pages. */
  lemma {:induction false} PagesUpdate(es: seq<Entry>, i: nat, e: Entry)
    requires i < |es|
    ensures PagesAll(es[i := e]) + Pages(es[i]) == PagesAll(es) + Pages(e)
  {
    var fs := es[i := e];
    if i == 0 {
      assert fs[1..] == es[1..];
    } else {
      var rest := es[1..];
      assert fs[1..] == rest[i - 1 := e];
      PagesUpdate(rest, i - 1, e);
      assert rest[i - 1] == es[i];
      AddBoth(Pages(es[0]), PagesAll(rest[i - 1 := e]), Pages(es[i]), PagesAll(rest), Pages(e));
    }
  }

  lemma {:induction false} PagesEntry(es: seq<Entry>, i: nat)
    requires i < |es|
    ensures Pages(es[i]) <= PagesAll(es)
  {
    if i > 0 {
      assert es[i] == es[1..][i - 1];
      PagesEntry(es[1..], i - 1);
    }
  }

  lemma {:induction false} PagesOfLeaves(es: seq<Entry>)
    requires forall i :: 0 <= i < |es| ==> !es[i].Table?
    ensures PagesAll(es) == multiset{}
  {
    if es != [] {
      PagesOfLeaves(es[1..]);
    }
  }
}
