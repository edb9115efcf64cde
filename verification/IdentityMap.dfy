/** Page-table operations on byte addresses (`mm_ptable_identity_map`, `_prepare`, `_commit`,
    `_update`) and the query for uniform attributes (`mm_get_attrs`). */
module IdentityMap {
  import opened Arithmetic
  import opened PageTree
  import opened MapLevel
  import opened PrepareCommit
  import opened Defrag

  const PAGE_SIZE: nat := 4096
  const ADDRESS_SPACE: nat := 0x1_0000_0000_0000_0000
  const PA_SPACE: nat := 0x1_0000_0000_0000

  /** A page table: `root` holds the entries of all root tables, which are contiguous. */
  datatype Ptable = Ptable(level: nat, root: seq<Entry>)
  datatype MapResult = MapResult(ok: bool, table: Ptable, pool: Pool)

  predicate ValidTable(t: Ptable) {
    WfAll(t.root, t.level)
  }

  /** The first page number that the table cannot translate. */
  function SpaceEnd(t: Ptable): nat {
    Span(|t.root|, t.level)
  }

  function RoundDownToPage(a: nat): nat {
    a - a % PAGE_SIZE
  }

  /** Addition of addresses wraps at 64 bits. */
  function RoundUpToPage(a: nat): nat {
    RoundDownToPage((a + PAGE_SIZE - 1) % ADDRESS_SPACE)
  }

  /** `arch_mm_clear_pa`: keeps bits 12 to 47. */
  function ClearPa(a: nat): nat {
    RoundDownToPage(a % PA_SPACE)
  }

  function BeginPage(begin: nat): nat {
    ClearPa(begin) / PAGE_SIZE
  }

  function EndPage(t: Ptable, end: nat): nat {
    Min(RoundUpToPage(end) / PAGE_SIZE, SpaceEnd(t))
  }

  function PageOf(a: nat): nat {
    a / PAGE_SIZE
  }

  ghost predicate HasByte(begin: nat, end: nat, p: nat) {
    exists a: nat :: begin <= a < end && PageOf(a) == p
  }

  /** Page `p` holds a byte of the range. A range without bytes that lies inside one page rounds to that
      page, and an end in the last page of the address space rounds to zero, which leaves no pages. */
  ghost predicate Holds(begin: nat, end: nat, p: nat) {
    && end <= ADDRESS_SPACE - PAGE_SIZE
    && if begin < end then HasByte(begin, end, p)
       else PageOf(begin) == p && PageOf(end) == p && end % PAGE_SIZE != 0
  }

  /** Rounding the begin down and the end up gives the pages that hold a byte of the range. */
  lemma RoundedRange(begin: nat, end: nat, p: nat)
    requires end < ADDRESS_SPACE
    ensures RoundDownToPage(begin) / PAGE_SIZE <= p < RoundUpToPage(end) / PAGE_SIZE <==> Holds(begin, end, p)
  {
    var lo, hi := RoundDownToPage(begin) / PAGE_SIZE, RoundUpToPage(end) / PAGE_SIZE;
    assert lo == PageOf(begin);
    if begin < end <= ADDRESS_SPACE - PAGE_SIZE {
      assert hi == PageOf(end - 1) + 1;
      if lo <= p < hi {
        var a := Max(begin, p * PAGE_SIZE);
        assert begin <= a < end && PageOf(a) == p;
      }
    }
  }

  /** The rounded range is exactly the pages that hold a byte, unless the end is in the last page of the
      address space, or there are no bytes and begin and end are inside the same page. */
  lemma RoundingExactIff(begin: nat, end: nat)
    requires end < ADDRESS_SPACE
    ensures (forall p: nat :: Holds(begin, end, p) <==> HasByte(begin, end, p)) <==>
            if begin < end then end <= ADDRESS_SPACE - PAGE_SIZE
            else end > ADDRESS_SPACE - PAGE_SIZE || end % PAGE_SIZE == 0 || PageOf(begin) != PageOf(end)
  {
    if begin < end {
      assert HasByte(begin, end, PageOf(begin));
    } else {
      assert forall p: nat :: !HasByte(begin, end, p);
      assert forall p: nat :: Holds(begin, end, p) ==> p == PageOf(begin);
      assert Holds(begin, end, PageOf(begin)) <==>
             end <= ADDRESS_SPACE - PAGE_SIZE && end % PAGE_SIZE != 0 && PageOf(begin) == PageOf(end);
    }
  }

  /** The attributes of page `p` in the address space `t` describes. */
  function Lookup(t: Ptable, p: nat): Attrs
    requires ValidTable(t) && p < SpaceEnd(t)
  {
    TableAt(t.root, t.level, p)
  }

  ghost predicate SameSpace(t: Ptable, u: Ptable) {
    t.level == u.level && SameFlat(t.root, u.root, t.level)
  }

  /** `u` differs from `t` exactly on the pages from `lo` to `hi`, which now have attributes `a`. */
  ghost predicate Updated(u: Ptable, t: Ptable, lo: nat, hi: nat, a: Attrs)
    requires ValidTable(t) && ValidTable(u)
  {
    && u.level == t.level && |u.root| == |t.root|
    && forall p: nat :: p < SpaceEnd(t) ==> Lookup(u, p) == if lo <= p < hi then a else Lookup(t, p)
  }

  /** The same in byte addresses, of which the first is cut to the bits that the tables hold. */
  ghost predicate UpdatedBytes(u: Ptable, t: Ptable, begin: nat, end: nat, a: Attrs)
    requires ValidTable(t) && ValidTable(u)
  {
    && u.level == t.level && |u.root| == |t.root|
    && forall p: nat :: p < SpaceEnd(t) ==>
         Lookup(u, p) == if Holds(begin % PA_SPACE, end, p) then a else Lookup(t, p)
  }

  lemma InBytes(u: Ptable, t: Ptable, begin: nat, end: nat, a: Attrs)
    requires ValidTable(t) && ValidTable(u) && end < ADDRESS_SPACE
    requires Updated(u, t, BeginPage(begin), EndPage(t, end), a)
    ensures UpdatedBytes(u, t, begin, end, a)
  {
    forall p: nat | p < SpaceEnd(t)
      ensures Lookup(u, p) == if Holds(begin % PA_SPACE, end, p) then a else Lookup(t, p)
    {
      RoundedRange(begin % PA_SPACE, end, p);
    }
  }

  function MapIdentity(t: Ptable, begin: nat, end: nat, op: Op, commit: bool, pool: Pool): (r: MapResult)
    requires ValidTable(t) && WfOp(op)
    ensures ValidTable(r.table)
  {
    var r := MapTable(t.root, 0, t.level, BeginPage(begin), EndPage(t, end), op, commit, pool);
    MapResult(r.ok, t.(root := r.entries), r.pool)
  }

  function IdentityUpdate(t: Ptable, begin: nat, end: nat, op: Op, pool: Pool): (r: MapResult)
    requires ValidTable(t) && WfOp(op)
    ensures ValidTable(r.table)
  {
    var p := MapIdentity(t, begin, end, op, false, pool);
    if p.ok then MapIdentity(p.table, begin, end, op, true, p.pool) else p
  }

  /** In byte addresses: a successful update gives the new attributes to exactly the pages that hold a
      byte of the range. */
  lemma UpdateCoversBytes(t: Ptable, begin: nat, end: nat, op: Op, pool: Pool)
    requires ValidTable(t) && WfOp(op) && end < ADDRESS_SPACE
    ensures var r := IdentityUpdate(t, begin, end, op, pool);
            if r.ok then UpdatedBytes(r.table, t, begin, end, Val(op)) else SameSpace(r.table, t)
  {
    UpdateIsAtomic(t, begin, end, op, pool);
    var r := IdentityUpdate(t, begin, end, op, pool);
    if r.ok {
      InBytes(r.table, t, begin, end, Val(op));
    }
  }

  /** A range without bytes still changes a page if it begins and ends inside the same one. */
  lemma EmptyRangeMaps(t: Ptable, a: nat, op: Op, pool: Pool)
    requires ValidTable(t) && WfOp(op) && a < PA_SPACE && PageOf(a) < SpaceEnd(t)
    ensures var r := IdentityUpdate(t, a, a, op, pool);
            r.ok ==> Updated(r.table, t, PageOf(a), PageOf(a) + if a % PAGE_SIZE == 0 then 0 else 1, Val(op))
  {
    UpdateIsAtomic(t, a, a, op, pool);
    RoundedInside(a);
  }

  lemma RoundedInside(a: nat)
    requires a < PA_SPACE
    ensures BeginPage(a) == PageOf(a)
    ensures RoundUpToPage(a) / PAGE_SIZE == PageOf(a) + if a % PAGE_SIZE == 0 then 0 else 1
  {
  }

  /** An update either succeeds and changes the address space on exactly the rounded range, or
      fails and changes it nowhere. It fails only for lack of pages while preparing: once the
      prepare succeeds the commit does. Every page is still in the tables or in the pool. */
  lemma UpdateIsAtomic(t: Ptable, begin: nat, end: nat, op: Op, pool: Pool)
    requires ValidTable(t) && WfOp(op)
    ensures var r := IdentityUpdate(t, begin, end, op, pool);
            && (if r.ok then Updated(r.table, t, BeginPage(begin), EndPage(t, end), Val(op)) else SameSpace(r.table, t))
            && r.ok == MapIdentity(t, begin, end, op, false, pool).ok
            && PagesAll(r.table.root) + multiset(r.pool) == PagesAll(t.root) + multiset(pool)
  {
    var lo, hi := BeginPage(begin), EndPage(t, end);
    var ranges := [Range(lo, hi)];
    var p := MapTable(t.root, 0, t.level, lo, hi, op, false, pool);
    MapTableConserves(t.root, 0, t.level, lo, hi, op, false, pool, p);
    SingleRange(t.root, t.level, lo, hi, op, false, pool);
    PrepareThenCommit(t.root, t.level, ranges, op, pool, p.pool);
    if p.ok {
      SingleRange(p.entries, t.level, lo, hi, op, true, p.pool);
      var c := MapTable(p.entries, 0, t.level, lo, hi, op, true, p.pool);
      MapTableConserves(p.entries, 0, t.level, lo, hi, op, true, p.pool, c);
      forall q: nat | q < SpaceEnd(t)
        ensures TableAt(c.entries, t.level, q) == if lo <= q < hi then Val(op) else TableAt(t.root, t.level, q)
      {
        InRangesTail(q, ranges);
      }
    }
  }

  lemma SingleRange(es: seq<Entry>, level: nat, lo: nat, hi: nat, op: Op, commit: bool, pool: Pool)
    requires WfAll(es, level) && WfOp(op)
    ensures MapAll(es, level, [Range(lo, hi)], op, commit, pool) == MapTable(es, 0, level, lo, hi, op, commit, pool)
  {
    var r := MapTable(es, 0, level, lo, hi, op, commit, pool);
    assert [Range(lo, hi)][1..] == [];
  }

  /** Changing a range and changing it back, with a defragmentation in between, restores the
      address space. */
  lemma ChangeAndBackFlat(t: Ptable, begin: nat, end: nat, there: Op, back: Op, pool: Pool)
    requires ValidTable(t) && WfOp(there) && WfOp(back)
    requires forall p: nat :: BeginPage(begin) <= p < EndPage(t, end) ==> Lookup(t, p) == Val(back)
    ensures var u := IdentityUpdate(t, begin, end, there, pool);
            var d := DefragTable(u.table.root, 0, t.level, u.pool);
            var v := IdentityUpdate(Ptable(t.level, d.entries), begin, end, back, d.pool);
            u.ok && v.ok ==> SameFlat(v.table.root, t.root, t.level)
  {
    var u := IdentityUpdate(t, begin, end, there, pool);
    UpdateIsAtomic(t, begin, end, there, pool);
    var d := DefragTable(u.table.root, 0, t.level, u.pool);
    DefragRoot(u.table.root, t.level, u.pool);
    var w := Ptable(t.level, d.entries);
    var v := IdentityUpdate(w, begin, end, back, d.pool);
    UpdateIsAtomic(w, begin, end, back, d.pool);
    if u.ok && v.ok {
      assert EndPage(w, end) == EndPage(t, end);
      UpdatedBack(t, u.table, w, v.table, BeginPage(begin), EndPage(t, end), Val(there), Val(back));
    }
  }

  lemma UpdatedBack(t: Ptable, u: Ptable, w: Ptable, v: Ptable, lo: nat, hi: nat, a: Attrs, b: Attrs)
    requires ValidTable(t) && ValidTable(u) && ValidTable(w) && ValidTable(v)
    requires Updated(u, t, lo, hi, a) && SameSpace(w, u) && Updated(v, w, lo, hi, b)
    requires forall p: nat :: lo <= p < hi && p < SpaceEnd(t) ==> Lookup(t, p) == b
    ensures SameSpace(v, t)
  {
    forall p: nat | p < SpaceEnd(t)
      ensures TableAt(v.root, t.level, p) == TableAt(t.root, t.level, p)
    {
      UpdatedAt(v, w, lo, hi, b, p);
      UpdatedAt(u, t, lo, hi, a, p);
      assert TableAt(w.root, t.level, p) == TableAt(u.root, t.level, p);
      assert lo <= p < hi ==> Lookup(t, p) == b;
    }
  }

  lemma UpdatedAt(u: Ptable, t: Ptable, lo: nat, hi: nat, a: Attrs, p: nat)
    requires ValidTable(t) && ValidTable(u) && Updated(u, t, lo, hi, a) && p < SpaceEnd(t)
    ensures p < SpaceEnd(u)
    ensures TableAt(u.root, t.level, p) == if lo <= p < hi then a else TableAt(t.root, t.level, p)
  {
    assert Lookup(u, p) == if lo <= p < hi then a else Lookup(t, p);
  }

  /** With another defragmentation at the end it restores the shape of a table that was
      defragmented before. */
  lemma ChangeAndBack(t: Ptable, begin: nat, end: nat, there: Op, back: Op, pool: Pool)
    requires ValidTable(t) && CanonicalAll(t.root, t.level) && WfOp(there) && WfOp(back)
    requires forall p: nat :: BeginPage(begin) <= p < EndPage(t, end) ==> Lookup(t, p) == Val(back)
    ensures var u := IdentityUpdate(t, begin, end, there, pool);
            var d := DefragTable(u.table.root, 0, t.level, u.pool);
            var v := IdentityUpdate(Ptable(t.level, d.entries), begin, end, back, d.pool);
            u.ok && v.ok ==> SameShapeAll(DefragTable(v.table.root, 0, t.level, v.pool).entries, t.root)
  {
    ChangeAndBackFlat(t, begin, end, there, back, pool);
    var u := IdentityUpdate(t, begin, end, there, pool);
    var d := DefragTable(u.table.root, 0, t.level, u.pool);
    var v := IdentityUpdate(Ptable(t.level, d.entries), begin, end, back, d.pool);
    if u.ok && v.ok {
      DefragCanonical(v.table.root, t.root, t.level, v.pool, pool);
      DefragTableIdempotent(t.root, 0, t.level, pool);
    }
  }

  // ---- Uniform attributes of a range ----

  /** The pages of a table from offset `lo` on and before `hi` all have attributes `a`. */
  ghost predicate AllAt(es: seq<Entry>, level: nat, lo: int, hi: int, a: Attrs)
    requires WfAll(es, level)
  {
    forall off: nat :: lo <= off < hi && off < Span(|es|, level) ==> TableAt(es, level, off) == a
  }

  ghost predicate EntryAllAt(e: Entry, level: nat, lo: int, hi: int, a: Attrs)
    requires Wf(e, level)
  {
    forall q: nat :: lo <= q < hi && q < Size(level) ==> At(e, level, q) == a
  }

  /** What holds of all pages in a range holds of those in entry `i`. */
  lemma AllAtThenEntry(es: seq<Entry>, level: nat, i: nat, lo: int, hi: int, a: Attrs)
    requires WfAll(es, level) && i < |es| && AllAt(es, level, lo, hi, a)
    ensures EntryAllAt(es[i], level, lo - i * Size(level), hi - i * Size(level), a)
  {
    forall q: nat | lo - i * Size(level) <= q < hi - i * Size(level) && q < Size(level)
      ensures At(es[i], level, q) == a
    {
      TableAtEntry(es, level, i, q);
    }
  }

  /** A range that is uniform up to entry `i` and inside entry `i` is uniform up to its end. */
  lemma EntryThenAllAt(es: seq<Entry>, level: nat, i: nat, lo: nat, b: nat, hi: int, a: Attrs)
    requires WfAll(es, level) && i < |es| && AllAt(es, level, lo, b, a)
    requires i * Size(level) <= b && EntryAllAt(es[i], level, b - i * Size(level), hi - i * Size(level), a)
    ensures AllAt(es, level, lo, Min(hi, i * Size(level) + Size(level)), a)
  {
    var base := i * Size(level);
    forall off: nat | lo <= off < Min(hi, base + Size(level)) && off < Span(|es|, level)
      ensures TableAt(es, level, off) == a
    {
      if b <= off {
        TableAtEntry(es, level, i, off - base);
      }
    }
  }

  lemma AllAtBelow(e: Entry, level: nat, lo: int, hi: int, a: Attrs)
    requires e.Table? && Wf(e, level)
    ensures AllAt(e.entries, level - 1, lo, hi, a) <==> EntryAllAt(e, level, lo, hi, a)
  {
    var below := level - 1;
    if EntryAllAt(e, level, lo, hi, a) {
      forall q: nat | lo <= q < hi && q < Span(|e.entries|, below)
        ensures TableAt(e.entries, below, q) == a
      {
        assert At(e, level, q) == a;
      }
    }
    if AllAt(e.entries, below, lo, hi, a) {
      forall q: nat | lo <= q < hi && q < Size(level)
        ensures At(e, level, q) == a
      {
        assert TableAt(e.entries, below, q) == a;
      }
    }
  }

  /** `mm_ptable_get_attrs_level`. True if the pages from `begin` to the smaller of `end` and
      the end of the table all have the same attributes (those in `attrs` if `got`), and there
      is such a page or attributes were known before. */
  method GetAttrsLevel(es: seq<Entry>, level: nat, begin: nat, end: nat, got: bool, attrs: Attrs)
    returns (ok: bool, out: Attrs)
    requires WfAll(es, level)
    ensures ok <==>
            && (got || begin < Min(end, Span(|es|, level)))
            && AllAt(es, level, begin, end, if got then attrs else TableAt(es, level, begin))
    ensures ok ==> out == if got then attrs else TableAt(es, level, begin)
    decreases level, 2
  {
    var s := Size(level);
    var stop := Min(end, Span(|es|, level));
    var b := begin;
    var have := got;
    out := attrs;
    while b < stop
      invariant begin <= b
      invariant have == (got || b > begin)
      invariant b > begin ==> begin < stop
      invariant have ==> out == if got then attrs else TableAt(es, level, begin)
      invariant have ==> AllAt(es, level, begin, Min(end, b), out)
    {
      var i := b / s;
      ok, out, b := GetAttrsStep(es, level, i, begin, b, end, have, out);
      if !ok {
        return;
      }
      have := true;
    }
    ok := have;
    if have {
      AllAtStop(es, level, begin, b, end, out);
    }
  }

  lemma AllAtStop(es: seq<Entry>, level: nat, lo: nat, b: nat, hi: nat, a: Attrs)
    requires WfAll(es, level) && AllAt(es, level, lo, Min(hi, b), a) && b >= Min(hi, Span(|es|, level))
    ensures AllAt(es, level, lo, hi, a)
  {
  }

  /** One turn of the loop: the part of the range in entry `i`, which `b` falls into. */
  method GetAttrsStep(es: seq<Entry>, level: nat, i: nat, begin: nat, b: nat, end: nat, got: bool, attrs: Attrs)
    returns (ok: bool, out: Attrs, next: nat)
    requires WfAll(es, level) && b < end && b < Span(|es|, level) && i == b / Size(level)
    requires begin <= b && (got || b == begin) && (got ==> AllAt(es, level, begin, b, attrs))
    ensures next > b
    ensures ok ==> out == (if got then attrs else TableAt(es, level, b)) && AllAt(es, level, begin, Min(end, next), out)
    ensures !ok ==> !AllAt(es, level, begin, end, if got then attrs else TableAt(es, level, b))
    decreases level, 1
  {
    IndexInBounds(b, |es|, Size(level));
    var base := i * Size(level);
    next := base + Size(level);
    ghost var a := if got then attrs else TableAt(es, level, b);
    assert a == if got then attrs else At(es[i], level, b - base) by {
      TableAtEntry(es, level, i, b - base);
    }
    ok, out := GetAttrsEntry(es[i], level, b - base, end - base, got, attrs);
    if ok {
      EntryThenAllAt(es, level, i, begin, b, end, a);
    } else {
      NotAllAt(es, level, i, begin, b, end, a);
    }
  }

  lemma NotAllAt(es: seq<Entry>, level: nat, i: nat, lo: nat, b: nat, hi: nat, a: Attrs)
    requires WfAll(es, level) && i < |es| && lo <= b && i * Size(level) <= b
    requires !EntryAllAt(es[i], level, b - i * Size(level), hi - i * Size(level), a)
    ensures !AllAt(es, level, lo, hi, a)
  {
    if AllAt(es, level, lo, hi, a) {
      AllAtThenEntry(es, level, i, lo, hi, a);
      assert false;
    }
  }

  /** The same for the pages of one entry. */
  method GetAttrsEntry(e: Entry, level: nat, begin: nat, end: nat, got: bool, attrs: Attrs)
    returns (ok: bool, out: Attrs)
    requires Wf(e, level) && begin < end && begin < Size(level)
    ensures ok <==> EntryAllAt(e, level, begin, end, if got then attrs else At(e, level, begin))
    ensures ok ==> out == if got then attrs else At(e, level, begin)
    decreases level, 0
  {
    if e.Table? {
      AllAtBelow(e, level, begin, end, if got then attrs else At(e, level, begin));
      ok, out := GetAttrsLevel(e.entries, level - 1, begin, end, got, attrs);
    } else if !got {
      ok, out := true, EntryAttrs(e);
    } else {
      assert At(e, level, begin) == EntryAttrs(e);
      ok, out := EntryAttrs(e) == attrs, attrs;
    }
  }

  /** `mm_get_attrs`: true with value `attrs` exactly when the rounded range is not empty, ends
      within the address space, and all its pages have attributes `attrs`. */
  method GetAttrs(t: Ptable, begin: nat, end: nat) returns (ok: bool, attrs: Attrs)
    requires ValidTable(t)
    ensures ok ==> UniformRange(t, RoundDownToPage(begin) / PAGE_SIZE, RoundUpToPage(end) / PAGE_SIZE, attrs)
    ensures !ok ==> forall a :: !UniformRange(t, RoundDownToPage(begin) / PAGE_SIZE, RoundUpToPage(end) / PAGE_SIZE, a)
    ensures end < ADDRESS_SPACE ==>
              if ok then UniformBytes(t, begin, end, attrs) else forall a :: !UniformBytes(t, begin, end, a)
  {
    UniformInBytes(t, begin, end);
    var b, e := RoundDownToPage(begin) / PAGE_SIZE, RoundUpToPage(end) / PAGE_SIZE;
    if e > SpaceEnd(t) {
      return false, 0;
    }
    NotUniform(t, b, e);
    ok, attrs := GetAttrsLevel(t.root, t.level, b, e, false, 0);
    assert ok ==> forall p: nat :: b <= p < e ==> Lookup(t, p) == TableAt(t.root, t.level, p);
  }

  /** If the pages do not all have the attributes of the first, the range is not uniform. */
  lemma NotUniform(t: Ptable, b: nat, e: nat)
    requires ValidTable(t) && e <= SpaceEnd(t)
    ensures !(b < e && AllAt(t.root, t.level, b, e, Lookup(t, b))) ==> forall a :: !UniformRange(t, b, e, a)
  {
    if a :| UniformRange(t, b, e, a) {
      assert Lookup(t, b) == a;
      assert forall p: nat :: b <= p < e ==> Lookup(t, p) == TableAt(t.root, t.level, p);
    }
  }

  /** There are pages that hold a byte of the range, and all of them have attributes `a`. */
  ghost predicate UniformBytes(t: Ptable, begin: nat, end: nat, a: Attrs)
    requires ValidTable(t)
  {
    && (exists p: nat :: Holds(begin, end, p))
    && forall p: nat :: Holds(begin, end, p) ==> p < SpaceEnd(t) && Lookup(t, p) == a
  }

  lemma UniformInBytes(t: Ptable, begin: nat, end: nat)
    requires ValidTable(t)
    ensures end < ADDRESS_SPACE ==>
              forall a :: UniformBytes(t, begin, end, a) <==>
                UniformRange(t, RoundDownToPage(begin) / PAGE_SIZE, RoundUpToPage(end) / PAGE_SIZE, a)
  {
    if end < ADDRESS_SPACE {
      var lo, hi := RoundDownToPage(begin) / PAGE_SIZE, RoundUpToPage(end) / PAGE_SIZE;
      forall p: nat
        ensures lo <= p < hi <==> Holds(begin, end, p)
      {
        RoundedRange(begin, end, p);
      }
      assert lo < hi ==> Holds(begin, end, lo) && Holds(begin, end, hi - 1);
    }
  }

  ghost predicate UniformRange(t: Ptable, lo: nat, hi: nat, a: Attrs)
    requires ValidTable(t)
  {
    lo < hi <= SpaceEnd(t) && forall p: nat :: lo <= p < hi ==> Lookup(t, p) == a
  }
}
