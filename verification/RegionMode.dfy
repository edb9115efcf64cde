/** The mode of a memory region in a VM's page table (`constituents_get_mode`). */
module RegionMode {
  import opened Arithmetic
  import opened PageTree
  import opened IdentityMap
  import opened Stage2Pte
  import opened Region

  datatype Error = InvalidParameters | Denied | NoMemory
  datatype ModeResult = Found(mode: Mode) | Failed(error: Error)

  /** The pages of a constituent with page-aligned ends. */
  function FirstPage(c: Constituent): nat {
    c.address / PAGE_SIZE
  }

  function EndPageOf(c: Constituent): nat {
    End(c) / PAGE_SIZE
  }

  predicate PageAligned(c: Constituent) {
    c.address % PAGE_SIZE == 0 && End(c) % PAGE_SIZE == 0
  }

  /** What a constituent stands for: `pageCount` pages from its address on, for fewer than 2^20 pages that
      do not wrap around the address space. */
  lemma ConstituentPages(c: Constituent)
    requires c.address % PAGE_SIZE == 0 && c.pageCount < TWO32 / PAGE_SIZE
    requires c.address + c.pageCount * PAGE_SIZE < ADDRESS_SPACE
    ensures PageAligned(c) && FirstPage(c) == PageOf(c.address) && EndPageOf(c) == PageOf(c.address) + c.pageCount
  {
  }

  /** A count of 2^20 pages or more loses its high bits. */
  lemma ConstituentWraps(c: Constituent)
    requires c.address % PAGE_SIZE == 0 && c.address + TWO32 <= ADDRESS_SPACE
    ensures PageAligned(c) && EndPageOf(c) == FirstPage(c) + c.pageCount % (TWO32 / PAGE_SIZE)
  {
    var n := TWO32 / PAGE_SIZE;
    assert c.pageCount * PAGE_SIZE == (c.pageCount / n) * TWO32 + (c.pageCount % n) * PAGE_SIZE;
    assert Bytes(c) == (c.pageCount % n) * PAGE_SIZE;
  }

  predicate Uniform(t: Ptable, c: Constituent)
    requires ValidTable(t)
  {
    && FirstPage(c) < EndPageOf(c) <= SpaceEnd(t)
    && forall p :: FirstPage(c) <= p < EndPageOf(c) ==> Lookup(t, p) == Lookup(t, FirstPage(c))
  }

  function ConstituentMode(t: Ptable, c: Constituent): ModeResult
    requires ValidTable(t)
  {
    if !PageAligned(c) then Failed(InvalidParameters)
    else if !Uniform(t, c) then Failed(Denied)
    else Found(ModeOf(Lookup(t, FirstPage(c))))
  }

  /** The answers for the constituents of a fragment, one by one. */
  function Answers(t: Ptable, cs: seq<Constituent>): seq<ModeResult>
    requires ValidTable(t)
  {
    seq(|cs|, i requires 0 <= i < |cs| => ConstituentMode(t, cs[i]))
  }

  /** The loop over one fragment. In the first fragment each constituent's mode replaces the one
      found before; in later fragments it must equal it. */
  function Scan(ms: seq<ModeResult>, first: bool, orig: Mode): ModeResult {
    if ms == [] then
      Found(orig)
    else if ms[0].Failed? then
      ms[0]
    else if first then
      Scan(ms[1..], first, ms[0].mode)
    else if ms[0].mode != orig then
      Failed(Denied)
    else
      Scan(ms[1..], first, orig)
  }

  function LaterFragmentsMode(t: Ptable, fragments: seq<seq<Constituent>>, orig: Mode): ModeResult
    requires ValidTable(t)
  {
    if fragments == [] then
      Found(orig)
    else
      var m := Scan(Answers(t, fragments[0]), false, orig);
      if m.Failed? then m else LaterFragmentsMode(t, fragments[1..], orig)
  }

  function RegionModeOf(t: Ptable, fragments: seq<seq<Constituent>>): ModeResult
    requires ValidTable(t)
  {
    if fragments == [] || fragments[0] == [] then
      Failed(InvalidParameters)
    else
      var m := Scan(Answers(t, fragments[0]), true, ABSENT_MODE);
      if m.Failed? then m else LaterFragmentsMode(t, fragments[1..], m.mode)
  }

  // ---- What a successful answer says ----

  ghost predicate All(ms: seq<ModeResult>, m: Mode) {
    forall i :: 0 <= i < |ms| ==> ms[i] == Found(m)
  }

  /** All constituents can be read and have mode `m`. */
  ghost predicate AllMode(t: Ptable, fragments: seq<seq<Constituent>>, m: Mode)
    requires ValidTable(t)
  {
    forall i :: 0 <= i < |fragments| ==> All(Answers(t, fragments[i]), m)
  }

  /** The constituents of one fragment get the same answer. */
  ghost predicate OneMode(t: Ptable, cs: seq<Constituent>)
    requires ValidTable(t)
  {
    forall i, j :: 0 <= i < |cs| && 0 <= j < |cs| ==> Answers(t, cs)[i] == Answers(t, cs)[j]
  }

  lemma {:induction false} ScanLater(ms: seq<ModeResult>, orig: Mode)
    ensures Scan(ms, false, orig).Found? <==> All(ms, orig)
    ensures Scan(ms, false, orig).Found? ==> Scan(ms, false, orig).mode == orig
  {
    if ms != [] {
      ScanLater(ms[1..], orig);
      assert forall i :: 1 <= i < |ms| ==> ms[i] == ms[1..][i - 1];
      assert forall i :: 0 <= i < |ms[1..]| ==> ms[1..][i] == ms[i + 1];
    }
  }

  lemma {:induction false} ScanFirst(ms: seq<ModeResult>, orig: Mode)
    requires ms != []
    ensures Scan(ms, true, orig).Found? <==> forall i :: 0 <= i < |ms| ==> ms[i].Found?
    ensures Scan(ms, true, orig).Found? ==> Scan(ms, true, orig) == ms[|ms| - 1]
  {
    if |ms| > 1 {
      var rest := ms[1..];
      assert forall i :: 0 <= i < |rest| ==> rest[i] == ms[i + 1];
      assert forall i :: 1 <= i < |ms| ==> ms[i] == rest[i - 1];
      if ms[0].Found? {
        ScanFirst(rest, ms[0].mode);
      }
    } else {
      assert ms[1..] == [];
    }
  }

  lemma {:induction false} LaterFragments(t: Ptable, fragments: seq<seq<Constituent>>, orig: Mode)
    requires ValidTable(t)
    ensures LaterFragmentsMode(t, fragments, orig).Found? <==> AllMode(t, fragments, orig)
    ensures var r := LaterFragmentsMode(t, fragments, orig); r.Found? ==> r.mode == orig
  {
    if fragments != [] {
      ScanLater(Answers(t, fragments[0]), orig);
      LaterFragments(t, fragments[1..], orig);
      assert forall i :: 1 <= i < |fragments| ==> fragments[i] == fragments[1..][i - 1];
      assert forall i :: 0 <= i < |fragments[1..]| ==> fragments[1..][i] == fragments[i + 1];
    }
  }

  /** When the query succeeds with mode `m`, the whole region is in mode `m` if and only if the
      constituents of the first fragment agree among themselves. */
  lemma RegionModeIsUniform(t: Ptable, fragments: seq<seq<Constituent>>)
    requires ValidTable(t) && RegionModeOf(t, fragments).Found?
    ensures AllMode(t, fragments, RegionModeOf(t, fragments).mode) <==> OneMode(t, fragments[0])
  {
    var m := RegionModeOf(t, fragments).mode;
    var ms := Answers(t, fragments[0]);
    ScanFirst(ms, ABSENT_MODE);
    LaterFragments(t, fragments[1..], Scan(ms, true, ABSENT_MODE).mode);
    assert forall i :: 1 <= i < |fragments| ==> fragments[i] == fragments[1..][i - 1];
    if AllMode(t, fragments, m) {
      assert All(ms, m);
    }
    if OneMode(t, fragments[0]) {
      assert All(ms, m);
    }
  }

  /** A query that succeeds with `m` has read every constituent, and only those of the first
      fragment can be in another mode. */
  lemma RegionModeParts(t: Ptable, fragments: seq<seq<Constituent>>, m: Mode)
    requires ValidTable(t) && RegionModeOf(t, fragments) == Found(m)
    ensures fragments != [] && fragments[0] != [] && AllMode(t, fragments[1..], m)
    ensures forall i :: 0 <= i < |fragments[0]| ==> Answers(t, fragments[0])[i].Found?
  {
    var ms := Answers(t, fragments[0]);
    ScanFirst(ms, ABSENT_MODE);
    LaterFragments(t, fragments[1..], Scan(ms, true, ABSENT_MODE).mode);
  }

  /** The query succeeds with `m` on every region that is in mode `m`. */
  lemma UniformRegionMode(t: Ptable, fragments: seq<seq<Constituent>>, m: Mode)
    requires ValidTable(t) && fragments != [] && fragments[0] != [] && AllMode(t, fragments, m)
    ensures RegionModeOf(t, fragments) == Found(m)
  {
    assert All(Answers(t, fragments[0]), m);
    ScanFirst(Answers(t, fragments[0]), ABSENT_MODE);
    LaterFragments(t, fragments[1..], m);
    assert forall i :: 0 <= i < |fragments[1..]| ==> fragments[1..][i] == fragments[i + 1];
  }

  /** With a first fragment of two pages in different modes the query answers the second one. */
  lemma MixedFirstFragment()
    ensures var own := Mode(true, true, true, false, false, false, false);
            var lent := own.(invalid := true);
            var t := Ptable(0, [Block(AttrsOf(lent)), Block(AttrsOf(own))]);
            var fragments := [[Constituent(0, 1), Constituent(4096, 1)]];
            && ValidTable(t)
            && RegionModeOf(t, fragments) == Found(own)
            && ModeOf(Lookup(t, 0)) == lent
  {
    var own := Mode(true, true, true, false, false, false, false);
    var lent := own.(invalid := true);
    ModeOfAttrsOf(own);
    ModeOfAttrsOf(lent);
    var t := Ptable(0, [Block(AttrsOf(lent)), Block(AttrsOf(own))]);
    assert Lookup(t, 0) == AttrsOf(lent) && Lookup(t, 1) == AttrsOf(own);
    TwoPages(t);
  }

  lemma TwoPages(t: Ptable)
    requires ValidTable(t) && 1 < SpaceEnd(t)
    ensures RegionModeOf(t, [[Constituent(0, 1), Constituent(4096, 1)]]) == Found(ModeOf(Lookup(t, 1)))
  {
    var c, d := Constituent(0, 1), Constituent(4096, 1);
    assert PageAligned(c) && FirstPage(c) == 0 && EndPageOf(c) == 1;
    assert PageAligned(d) && FirstPage(d) == 1 && EndPageOf(d) == 2;
    OnePage(t, c, 0);
    OnePage(t, d, 1);
    TwoConstituents(t, c, d, ModeOf(Lookup(t, 0)), ModeOf(Lookup(t, 1)));
  }

  /** Of two constituents in the only fragment, the mode of the second is what is found. */
  lemma TwoConstituents(t: Ptable, c: Constituent, d: Constituent, m: Mode, n: Mode)
    requires ValidTable(t) && ConstituentMode(t, c) == Found(m) && ConstituentMode(t, d) == Found(n)
    ensures RegionModeOf(t, [[c, d]]) == Found(n)
  {
    ScanFirst(Answers(t, [c, d]), ABSENT_MODE);
    assert [[c, d]][1..] == [];
  }

  lemma OnePage(t: Ptable, c: Constituent, p: nat)
    requires ValidTable(t) && p < SpaceEnd(t) && PageAligned(c) && FirstPage(c) == p && EndPageOf(c) == p + 1
    ensures ConstituentMode(t, c) == Found(ModeOf(Lookup(t, p)))
  {
  }

  // ---- The loops ----

  /** `constituents_get_mode`. */
  method GetRegionMode(t: Ptable, fragments: seq<seq<Constituent>>) returns (r: ModeResult)
    requires ValidTable(t)
    ensures r == RegionModeOf(t, fragments)
  {
    if fragments == [] || fragments[0] == [] {
      return Failed(InvalidParameters);
    }
    var orig := ABSENT_MODE;
    for i := 0 to |fragments|
      invariant RegionModeOf(t, fragments) ==
                if i == 0 then
                  (var m := Scan(Answers(t, fragments[0]), true, orig);
                   if m.Failed? then m else LaterFragmentsMode(t, fragments[1..], m.mode))
                else LaterFragmentsMode(t, fragments[i..], orig)
    {
      if i > 0 {
        assert fragments[i..][0] == fragments[i] && fragments[i..][1..] == fragments[i + 1..];
      }
      var m := GetFragmentMode(t, fragments[i], i == 0, orig);
      if m.Failed? {
        return m;
      }
      orig := m.mode;
    }
    return Found(orig);
  }

  /** The inner loop, over the constituents of one fragment. */
  method GetFragmentMode(t: Ptable, fragment: seq<Constituent>, first: bool, start: Mode) returns (r: ModeResult)
    requires ValidTable(t)
    ensures r == Scan(Answers(t, fragment), first, start)
    ensures r.Found? && !first ==> r.mode == start
  {
    ghost var ms := Answers(t, fragment);
    var orig := start;
    for j := 0 to |fragment|
      invariant !first ==> orig == start
      invariant Scan(ms, first, start) == Scan(ms[j..], first, orig)
    {
      assert ms[j..][0] == ms[j] && ms[j..][1..] == ms[j + 1..];
      var m := GetConstituentMode(t, fragment[j]);
      if m.Failed? {
        return m;
      }
      if first {
        orig := m.mode;
      } else if m.mode != orig {
        return Failed(Denied);
      }
    }
    return Found(orig);
  }

  method GetConstituentMode(t: Ptable, c: Constituent) returns (m: ModeResult)
    requires ValidTable(t)
    ensures m == ConstituentMode(t, c)
  {
    if !PageAligned(c) {
      return Failed(InvalidParameters);
    }
    var ok, attrs := GetAttrs(t, c.address, End(c));
    GetAttrsUniform(t, c, ok, attrs);
    m := if ok then Found(ModeOf(attrs)) else Failed(Denied);
  }

  lemma AlignedPages(c: Constituent)
    requires PageAligned(c)
    ensures RoundDownToPage(c.address) / PAGE_SIZE == FirstPage(c)
    ensures RoundUpToPage(End(c)) / PAGE_SIZE == EndPageOf(c)
  {
  }

  lemma GetAttrsUniform(t: Ptable, c: Constituent, ok: bool, attrs: Attrs)
    requires ValidTable(t) && PageAligned(c)
    requires ok ==> UniformRange(t, RoundDownToPage(c.address) / PAGE_SIZE, RoundUpToPage(End(c)) / PAGE_SIZE, attrs)
    requires !ok ==>
             forall a :: !UniformRange(t, RoundDownToPage(c.address) / PAGE_SIZE, RoundUpToPage(End(c)) / PAGE_SIZE, a)
    ensures ok == Uniform(t, c) && (ok ==> attrs == Lookup(t, FirstPage(c)))
  {
    AlignedPages(c);
    if Uniform(t, c) {
      assert UniformRange(t, FirstPage(c), EndPageOf(c), Lookup(t, FirstPage(c)));
    }
  }
}
