/** Who owns and who can reach a page, over every run of the memory sharing calls. */
module FfaOwnership {
  import opened PageTree
  import opened MapLevel
  import opened IdentityMap
  import opened Stage2Pte
  import opened PrepareCommit
  import opened Region
  import opened RegionMode
  import opened Ownership
  import opened FfaMemory

  // ---- The invariant ----

  /** All stage-2 tables have the same geometry and translate at most 48-bit addresses. */
  ghost predicate Geometry(s: State) {
    && ValidVms(s)
    && forall u, v :: 0 <= u < |s.vms| && 0 <= v < |s.vms| ==>
         s.vms[u].level == s.vms[v].level && |s.vms[u].root| == |s.vms[v].root|
  }

  ghost predicate SmallSpace(s: State) {
    forall v :: 0 <= v < |s.vms| ==> SpaceEnd(s.vms[v]) * PAGE_SIZE <= PA_SPACE
  }

  /** The number of pages of physical address space. */
  ghost function NumPages(s: State): nat {
    if s.vms == [] then 0 else SpaceEnd(s.vms[0])
  }

  /** Every page's attributes are those of its mode. */
  ghost predicate Moded(t: Ptable)
    requires ValidTable(t)
  {
    forall p: nat :: p < SpaceEnd(t) ==> AttrsOf(ModeOf(Lookup(t, p))) == Lookup(t, p)
  }

  ghost predicate AllModed(s: State)
    requires ValidVms(s)
  {
    forall v :: 0 <= v < |s.vms| ==> Moded(s.vms[v])
  }

  ghost predicate Tables(s: State) {
    Geometry(s) && SmallSpace(s) && AllModed(s)
  }

  /** The mode of page `p` in VM `v`. */
  ghost function ModeAt(s: State, v: nat, p: nat): Mode {
    if ValidVms(s) && v < |s.vms| && p < SpaceEnd(s.vms[v]) then ModeOf(Lookup(s.vms[v], p)) else ABSENT_MODE
  }

  /** Page `p` belongs to one of the constituents. */
  ghost predicate InPages(cs: seq<Constituent>, p: nat) {
    exists i :: 0 <= i < |cs| && FirstPage(cs[i]) <= p < EndPageOf(cs[i])
  }

  ghost predicate ValidRegion(cs: seq<Constituent>, n: nat) {
    forall i :: 0 <= i < |cs| ==> PageAligned(cs[i]) && FirstPage(cs[i]) < EndPageOf(cs[i]) <= n
  }

  ghost function PagesOf(cs: seq<Constituent>, n: nat): set<nat> {
    set p: nat | p < n && InPages(cs, p)
  }

  /** The share has taken effect on the sender and, if it is a donation, not on the receiver. */
  predicate Active(sh: Share) {
    sh.Share? && sh.complete && !(sh.func == Donate && sh.retrieved > 0)
  }

  ghost function ClaimOf(sh: Share, n: nat): Claim {
    if Active(sh) then
      Claim(sh.func, sh.desc.sender, sh.desc.receiver, sh.origMode, sh.retrieved > 0, PagesOf(Flat(sh.fragments), n))
    else
      Idle
  }

  /** The memory of all VMs and the claims on it, as the ownership protocol sees them. */
  ghost function ViewOf(s: State): View {
    View(|s.vms|, NumPages(s), (v: nat, p: nat) => ModeAt(s, v, p),
         seq(|s.shares|, h requires 0 <= h < |s.shares| => ClaimOf(s.shares[h], NumPages(s))))
  }

  ghost predicate ShareInv(sh: Share, vms: nat, n: nat) {
    sh.Share? ==>
      && sh.desc.sender < vms && sh.desc.receiver < vms && sh.desc.sender != sh.desc.receiver
      && ValidPermissions(sh.desc.permissions)
      && 1 <= |sh.fragments| <= MAX_FRAGMENTS && |sh.pages| == |sh.fragments|
      && sh.retrieved <= |sh.fragments|
      && (!sh.complete ==> sh.retrieved == 0)
      && (sh.complete ==>
            && sh.fragments[0] != [] && ValidRegion(Flat(sh.fragments), n)
            && StateClear(sh.origMode) && !sh.origMode.d
            && PermissionsWithin(PermissionsToMode(sh.desc.permissions, sh.origMode), sh.origMode))
      && (sh.func == Donate || sh.desc.permissions.data != DataUnspecified)
      && (sh.func == Donate ==> sh.retrieved < |sh.fragments|)
  }

  ghost predicate SharesInv(s: State) {
    && |s.shares| == MAX_MEM_SHARES
    && forall h :: 0 <= h < |s.shares| ==> ShareInv(s.shares[h], |s.vms|, NumPages(s))
  }

  ghost predicate StateInv(s: State) {
    Tables(s) && SharesInv(s) && Inv(ViewOf(s))
  }

  // ---- Regions as pages ----

  /** For constituents that passed the checks, the pages a page-table operation touches are the
      pages of the constituents. */
  lemma RegionPages(t: Ptable, cs: seq<Constituent>, p: nat)
    requires ValidRegion(cs, SpaceEnd(t)) && SpaceEnd(t) * PAGE_SIZE <= PA_SPACE
    ensures InRegion(p, t, cs) <==> InPages(cs, p)
  {
    var rs := RangesOf(t, cs);
    forall i | 0 <= i < |cs|
      ensures rs[i].lo == FirstPage(cs[i]) && rs[i].hi == EndPageOf(cs[i])
    {
      ConstituentRange(t, cs[i]);
    }
    if InRegion(p, t, cs) {
      var k :| 0 <= k < |rs| && rs[k].lo <= p < rs[k].hi;
      assert FirstPage(cs[k]) <= p < EndPageOf(cs[k]);
    }
    if InPages(cs, p) {
      var k :| 0 <= k < |cs| && FirstPage(cs[k]) <= p < EndPageOf(cs[k]);
      assert rs[k].lo <= p < rs[k].hi;
    }
  }

  lemma ConstituentRange(t: Ptable, c: Constituent)
    requires PageAligned(c) && FirstPage(c) < EndPageOf(c) <= SpaceEnd(t) && SpaceEnd(t) * PAGE_SIZE <= PA_SPACE
    ensures RangeOf(t, c) == Range(FirstPage(c), EndPageOf(c))
  {
    assert c.address < PA_SPACE;
    AlignedPages(c);
  }

  // ---- Updates of one VM's memory ----

  lemma TablesUpdate(s: State, s': State, v: VmId, t: Ptable)
    requires Tables(s) && v < |s.vms| && ValidTable(t) && Moded(t)
    requires t.level == s.vms[v].level && |t.root| == |s.vms[v].root|
    requires s'.vms == s.vms[v := t]
    ensures Tables(s') && NumPages(s') == NumPages(s)
  {
    forall u | 0 <= u < |s.vms|
      ensures SpaceEnd(s'.vms[u]) == SpaceEnd(s.vms[u]) && ValidTable(s'.vms[u]) && Moded(s'.vms[u])
    {
    }
  }

  /** The effect of an update on the modes of one VM's pages. */
  lemma UpdateModes(t: Ptable, cs: seq<Constituent>, m: Mode, r: MapResult, pool: Pool, p: nat)
    requires ValidTable(t) && Moded(t) && SpaceEnd(t) * PAGE_SIZE <= PA_SPACE && p < SpaceEnd(t)
    requires ValidTable(r.table) && UpdateSpec(r, t, cs, OpOf(m), pool) && ValidRegion(cs, SpaceEnd(t))
    ensures p < SpaceEnd(r.table)
    ensures ModeOf(Lookup(r.table, p)) == if r.ok && InPages(cs, p) then Stored(m) else ModeOf(Lookup(t, p))
    ensures AttrsOf(ModeOf(Lookup(r.table, p))) == Lookup(r.table, p)
  {
    ModeOfAttrsOf(m);
    RegionPages(t, cs, p);
    assert AttrsOf(ModeOf(Lookup(t, p))) == Lookup(t, p);
    if r.ok {
      assert Lookup(r.table, p) == if InRegion(p, t, cs) then AttrsOf(m) else Lookup(t, p);
    } else {
      assert TableAt(r.table.root, t.level, p) == TableAt(t.root, t.level, p);
    }
  }

  lemma UpdateTables(s: State, s': State, v: VmId, cs: seq<Constituent>, m: Mode, r: MapResult)
    requires Tables(s) && v < |s.vms| && ValidTable(r.table)
    requires UpdateSpec(r, s.vms[v], cs, OpOf(m), s.pool) && ValidRegion(cs, NumPages(s))
    requires s'.vms == s.vms[v := r.table]
    ensures Tables(s') && NumPages(s') == NumPages(s)
  {
    assert SpaceEnd(s.vms[v]) == NumPages(s);
    forall p: nat | p < SpaceEnd(r.table)
      ensures AttrsOf(ModeOf(Lookup(r.table, p))) == Lookup(r.table, p)
    {
      UpdateModes(s.vms[v], cs, m, r, s.pool, p);
    }
    TablesUpdate(s, s', v, r.table);
  }

  /** An update that succeeds changes the VM's memory on the region and nowhere else; one that
      fails changes nothing. */
  lemma UpdateMemory(s: State, s': State, v: VmId, cs: seq<Constituent>, m: Mode, r: MapResult)
    requires Tables(s) && v < |s.vms| && ValidTable(r.table)
    requires UpdateSpec(r, s.vms[v], cs, OpOf(m), s.pool)
    requires ValidRegion(cs, NumPages(s))
    requires s'.vms == s.vms[v := r.table] && |s'.shares| == |s.shares|
    ensures Tables(s') && NumPages(s') == NumPages(s)
    ensures if r.ok then Changed(ViewOf(s'), ViewOf(s), v, PagesOf(cs, NumPages(s)), Stored(m))
            else Unchanged(ViewOf(s'), ViewOf(s))
  {
    UpdateTables(s, s', v, cs, m, r);
    forall u: nat, p: nat | u < |s.vms| && p < NumPages(s)
      ensures ModeAt(s', u, p) == if r.ok && u == v && InPages(cs, p) then Stored(m) else ModeAt(s, u, p)
    {
      UpdateModes(s.vms[v], cs, m, r, s.pool, p);
    }
  }

  // ---- Regions and their modes ----

  lemma {:induction false} FlatModes(t: Ptable, fragments: seq<seq<Constituent>>, m: Mode)
    requires ValidTable(t)
    ensures AllMode(t, fragments, m) <==> All(Answers(t, Flat(fragments)), m)
  {
    if fragments != [] {
      FlatModes(t, fragments[1..], m);
      AllModeSplit(t, fragments, m);
      var f, rest := fragments[0], Flat(fragments[1..]);
      AnswersConcat(t, f, rest);
      AllSplit(Answers(t, f), Answers(t, rest), m);
    }
  }

  lemma AnswersConcat(t: Ptable, f: seq<Constituent>, g: seq<Constituent>)
    requires ValidTable(t)
    ensures Answers(t, f + g) == Answers(t, f) + Answers(t, g)
  {
    var a, b := Answers(t, f + g), Answers(t, f) + Answers(t, g);
    forall i | 0 <= i < |f| + |g|
      ensures a[i] == b[i]
    {
      assert (f + g)[i] == if i < |f| then f[i] else g[i - |f|];
    }
  }

  lemma AllModeSplit(t: Ptable, fragments: seq<seq<Constituent>>, m: Mode)
    requires ValidTable(t) && fragments != []
    ensures AllMode(t, fragments, m) <==> All(Answers(t, fragments[0]), m) && AllMode(t, fragments[1..], m)
  {
    assert forall i :: 1 <= i < |fragments| ==> fragments[i] == fragments[1..][i - 1];
    assert forall i :: 0 <= i < |fragments[1..]| ==> fragments[1..][i] == fragments[i + 1];
  }

  lemma AllSplit(a: seq<ModeResult>, b: seq<ModeResult>, m: Mode)
    ensures All(a + b, m) <==> All(a, m) && All(b, m)
  {
    if All(a + b, m) {
      assert forall i :: 0 <= i < |a| ==> a[i] == (a + b)[i];
      assert forall i :: 0 <= i < |b| ==> b[i] == (a + b)[|a| + i];
    }
  }

  lemma ConstituentFacts(t: Ptable, c: Constituent, m: Mode)
    requires ValidTable(t) && ConstituentMode(t, c) == Found(m)
    ensures PageAligned(c) && FirstPage(c) < EndPageOf(c) <= SpaceEnd(t)
    ensures forall p :: FirstPage(c) <= p < EndPageOf(c) ==> ModeOf(Lookup(t, p)) == m
  {
  }

  /** A region whose constituents all have mode `m` is valid and its pages are in mode `m`. */
  lemma ModesToPages(t: Ptable, fragments: seq<seq<Constituent>>, m: Mode)
    requires ValidTable(t) && AllMode(t, fragments, m)
    ensures ValidRegion(Flat(fragments), SpaceEnd(t))
    ensures forall p: nat :: InPages(Flat(fragments), p) ==> p < SpaceEnd(t) && ModeOf(Lookup(t, p)) == m
  {
    FlatModes(t, fragments, m);
    var cs := Flat(fragments);
    forall i | 0 <= i < |cs|
      ensures PageAligned(cs[i]) && FirstPage(cs[i]) < EndPageOf(cs[i]) <= SpaceEnd(t)
      ensures forall p :: FirstPage(cs[i]) <= p < EndPageOf(cs[i]) ==> ModeOf(Lookup(t, p)) == m
    {
      assert Answers(t, cs)[i] == Found(m);
      ConstituentFacts(t, cs[i], m);
    }
  }

  /** And conversely: the query of a valid region all of whose pages are in mode `m` finds `m`. */
  lemma PagesToMode(t: Ptable, fragments: seq<seq<Constituent>>, m: Mode)
    requires ValidTable(t) && Moded(t) && fragments != [] && fragments[0] != []
    requires ValidRegion(Flat(fragments), SpaceEnd(t))
    requires forall p: nat :: p < SpaceEnd(t) && InPages(Flat(fragments), p) ==> ModeOf(Lookup(t, p)) == m
    ensures RegionModeOf(t, fragments) == Found(m) && AllMode(t, fragments, m)
  {
    var cs := Flat(fragments);
    forall i | 0 <= i < |cs|
      ensures Answers(t, cs)[i] == Found(m)
    {
      forall p | FirstPage(cs[i]) <= p < EndPageOf(cs[i])
        ensures Lookup(t, p) == AttrsOf(m)
      {
        assert InPages(cs, p);
        assert AttrsOf(ModeOf(Lookup(t, p))) == Lookup(t, p);
      }
    }
    FlatModes(t, fragments, m);
    UniformRegionMode(t, fragments, m);
  }

  /** The rollback operation of a region in mode `m` restores what the region holds. */
  lemma PagesToHolds(t: Ptable, cs: seq<Constituent>, m: Mode)
    requires ValidTable(t) && Moded(t) && ValidRegion(cs, SpaceEnd(t)) && SpaceEnd(t) * PAGE_SIZE <= PA_SPACE
    requires forall p: nat :: p < SpaceEnd(t) && InPages(cs, p) ==> ModeOf(Lookup(t, p)) == m
    ensures RegionHolds(t, cs, OpOf(m))
  {
    forall p: nat | p < SpaceEnd(t) && InRegion(p, t, cs)
      ensures Lookup(t, p) == Val(OpOf(m))
    {
      RegionPages(t, cs, p);
      assert AttrsOf(ModeOf(Lookup(t, p))) == Lookup(t, p);
    }
  }

  // ---- Every call follows the ownership protocol ----

  /** A step of the protocol on the claim of share `h`. */
  ghost predicate Follows(s': State, s: State, h: nat) {
    Tables(s') && SharesInv(s') && NumPages(s') == NumPages(s) && NextAt(ViewOf(s'), ViewOf(s), h)
  }

  /** Only share `h` changed. */
  predicate OnlyShare(s': State, s: State, h: nat) {
    && |s'.shares| == |s.shares| && h < |s.shares|
    && forall g :: 0 <= g < |s.shares| && g != h ==> s'.shares[g] == s.shares[g]
  }

  /** A call that changes no memory and keeps what the share claims is a step in place. */
  lemma KeepClaim(s: State, s': State, h: nat)
    requires StateInv(s) && Tables(s') && Unchanged(ViewOf(s'), ViewOf(s)) && OnlyShare(s', s, h)
    requires ClaimOf(s'.shares[h], NumPages(s)) == ClaimOf(s.shares[h], NumPages(s))
    requires ShareInv(s'.shares[h], |s.vms|, NumPages(s))
    ensures Follows(s', s, h) && Idles(ViewOf(s'), ViewOf(s))
  {
    assert NumPages(s') == NumPages(s);
    assert ViewOf(s').claims == ViewOf(s).claims;
  }

  lemma SameMemory(s: State, s': State)
    requires Tables(s) && s'.vms == s.vms && |s'.shares| == |s.shares|
    ensures Tables(s') && NumPages(s') == NumPages(s) && Unchanged(ViewOf(s'), ViewOf(s))
  {
    assert forall u: nat, p: nat :: ModeAt(s', u, p) == ModeAt(s, u, p);
  }

  lemma OnlyShareOnlyClaim(s: State, s': State, h: nat)
    requires OnlyShare(s', s, h) && NumPages(s') == NumPages(s)
    ensures OnlyClaim(ViewOf(s'), ViewOf(s), h)
    ensures ViewOf(s').claims[h] == ClaimOf(s'.shares[h], NumPages(s))
    ensures ViewOf(s).claims[h] == ClaimOf(s.shares[h], NumPages(s))
  {
  }

  lemma SharesUpdate(s: State, s': State, h: nat)
    requires SharesInv(s) && OnlyShare(s', s, h) && |s'.vms| == |s.vms| && NumPages(s') == NumPages(s)
    requires ShareInv(s'.shares[h], |s.vms|, NumPages(s))
    ensures SharesInv(s')
  {
  }

  /** What a successful query of a region in one mode gives the page-table update. */
  lemma RegionFacts(s: State, v: VmId, fragments: seq<seq<Constituent>>, m: Mode)
    requires Tables(s) && v < |s.vms| && AllMode(s.vms[v], fragments, m)
    ensures ValidRegion(Flat(fragments), NumPages(s))
    ensures RegionHolds(s.vms[v], Flat(fragments), OpOf(m))
    ensures forall p: nat :: p in PagesOf(Flat(fragments), NumPages(s)) ==> ModeAt(s, v, p) == m
  {
    assert SpaceEnd(s.vms[v]) == NumPages(s);
    ModesToPages(s.vms[v], fragments, m);
    PagesToHolds(s.vms[v], Flat(fragments), m);
  }

  /** The VM owns the pages of the constituents exclusively. */
  ghost predicate OwnedPages(t: Ptable, cs: seq<Constituent>)
    requires ValidTable(t)
  {
    forall p: nat :: p < SpaceEnd(t) && InPages(cs, p) ==> StateClear(ModeOf(Lookup(t, p)))
  }

  /** If the call changes the page table of its sender, the sender owns the memory of the first
      fragment exclusively. The code makes sure of it for the last constituent of the first
      fragment, and for all of the later fragments (see RegionMode). */
  ghost predicate SendsOwned(s: State, caller: VmId, c: Call)
    requires ValidVms(s) && caller < |s.vms|
  {
    Completes(s, caller, c) && Commits(StoreLast(s, caller, c), HandleOf(s, c)) ==>
      OwnedPages(s.vms[caller], StoreLast(s, caller, c).shares[HandleOf(s, c)].fragments[0])
  }

  lemma InPagesSplit(f: seq<Constituent>, g: seq<Constituent>, p: nat)
    ensures InPages(f + g, p) <==> InPages(f, p) || InPages(g, p)
  {
    if i :| 0 <= i < |f| && FirstPage(f[i]) <= p < EndPageOf(f[i]) {
      assert (f + g)[i] == f[i];
    }
    if i :| 0 <= i < |g| && FirstPage(g[i]) <= p < EndPageOf(g[i]) {
      assert (f + g)[|f| + i] == g[i];
    }
  }

  /** A region that is accepted for sending is valid, whatever the modes in its first fragment. */
  lemma FoundRegion(t: Ptable, fragments: seq<seq<Constituent>>, m: Mode)
    requires ValidTable(t) && RegionModeOf(t, fragments) == Found(m)
    ensures fragments != [] && fragments[0] != [] && ValidRegion(Flat(fragments), SpaceEnd(t))
    ensures forall p: nat :: InPages(Flat(fragments), p) ==>
              p < SpaceEnd(t) && (InPages(fragments[0], p) || ModeOf(Lookup(t, p)) == m)
  {
    RegionModeParts(t, fragments, m);
    ModesToPages(t, fragments[1..], m);
    var f, rest := fragments[0], Flat(fragments[1..]);
    forall i | 0 <= i < |f|
      ensures PageAligned(f[i]) && FirstPage(f[i]) < EndPageOf(f[i]) <= SpaceEnd(t)
    {
      assert Answers(t, f)[i].Found?;
      ConstituentFacts(t, f[i], Answers(t, f)[i].mode);
    }
    forall p: nat | InPages(Flat(fragments), p)
      ensures p < SpaceEnd(t) && (InPages(f, p) || ModeOf(Lookup(t, p)) == m)
    {
      InPagesSplit(f, rest, p);
    }
  }

  /** What the update has to know of a region that the sender owns. */
  lemma OwnedRegion(s: State, v: VmId, fragments: seq<seq<Constituent>>, func: ShareFunc, m: Mode)
    requires Tables(s) && v < |s.vms| && RegionModeOf(s.vms[v], fragments) == Found(m) && StateClear(m)
    requires OwnedPages(s.vms[v], fragments[0])
    ensures ValidRegion(Flat(fragments), NumPages(s))
    ensures RegionAvoids(s.vms[v], Flat(fragments), OpOf(SentMode(func, m)))
    ensures OwnsRegion(ViewOf(s), v, PagesOf(Flat(fragments), NumPages(s)))
  {
    var t, cs := s.vms[v], Flat(fragments);
    assert SpaceEnd(t) == NumPages(s);
    FoundRegion(t, fragments, m);
    OwnedAvoids(t, cs, func, m);
    forall p | p in PagesOf(cs, NumPages(s))
      ensures StateClear(ModeAt(s, v, p))
    {
    }
  }

  lemma OwnedAvoids(t: Ptable, cs: seq<Constituent>, func: ShareFunc, m: Mode)
    requires ValidTable(t) && ValidRegion(cs, SpaceEnd(t)) && SpaceEnd(t) * PAGE_SIZE <= PA_SPACE && OwnedPages(t, cs)
    ensures RegionAvoids(t, cs, OpOf(SentMode(func, m)))
  {
    ModeOfAttrsOf(SentMode(func, m));
    forall p: nat | p < SpaceEnd(t) && InRegion(p, t, cs)
      ensures Lookup(t, p) != Val(OpOf(SentMode(func, m)))
    {
      RegionPages(t, cs, p);
    }
  }

  lemma GrantedMemory(s: State, s': State, h: nat, m: Mode)
    requires StateInv(s) && IsLive(s, h) && !s.shares[h].complete && StateClear(m) && !m.d
    requires s.shares[h].fragments[0] != []
    requires PermissionsWithin(PermissionsToMode(s.shares[h].desc.permissions, m), m)
    requires Tables(s') && NumPages(s') == NumPages(s)
    requires s'.shares == s.shares[h := s.shares[h].(complete := true, origMode := m)]
    requires ValidRegion(Flat(s.shares[h].fragments), NumPages(s))
    requires OwnsRegion(ViewOf(s), s.shares[h].desc.sender, PagesOf(Flat(s.shares[h].fragments), NumPages(s)))
    requires Changed(ViewOf(s'), ViewOf(s), s.shares[h].desc.sender, PagesOf(Flat(s.shares[h].fragments), NumPages(s)),
                     Stored(SentMode(s.shares[h].func, m)))
    ensures Follows(s', s, h)
  {
    OnlyShareOnlyClaim(s, s', h);
    SharesUpdate(s, s', h);
    assert Granted(ViewOf(s'), ViewOf(s), h, ClaimOf(s'.shares[h], NumPages(s)));
  }

  /** The memory of a share is taken from the sender, or the sender keeps it. */
  lemma GrantRegion(s: State, s': State, h: nat, m: Mode, fails: bool, r: MapResult)
    requires StateInv(s) && IsLive(s, h) && !s.shares[h].complete && StateClear(m) && !m.d
    requires PermissionsWithin(PermissionsToMode(s.shares[h].desc.permissions, m), m)
    requires RegionModeOf(s.vms[s.shares[h].desc.sender], s.shares[h].fragments) == Found(m)
    requires OwnedPages(s.vms[s.shares[h].desc.sender], s.shares[h].fragments[0])
    requires r == ShrinkUpdate(s.vms[s.shares[h].desc.sender], Flat(s.shares[h].fragments),
                               OpOf(SentMode(s.shares[h].func, m)),
                               OpOf(m), fails, s.pool, s.limit)
    requires s'.vms == s.vms[s.shares[h].desc.sender := r.table]
    requires s'.shares == s.shares[h := if r.ok then s.shares[h].(complete := true, origMode := m) else Unallocated]
    ensures Follows(s', s, h)
  {
    var sh := s.shares[h];
    var v := sh.desc.sender;
    var cs := Flat(sh.fragments);
    var next := SentMode(sh.func, m);
    FoundRegion(s.vms[v], sh.fragments, m);
    OwnedRegion(s, v, sh.fragments, sh.func, m);
    ShrinkUpdateSettles(s.vms[v], cs, OpOf(next), OpOf(m), fails, s.pool, s.limit);
    if r.ok {
      UpdateMemory(s, s', v, cs, next, r);
      GrantedMemory(s, s', h, m);
    } else if SameSpace(r.table, s.vms[v]) {
      UpdateMemory(s, s', v, cs, next, r);
      KeepClaim(s, s', h);
    } else {
      SettledMemory(s, s', h, v, cs, m, MapResult(true, r.table, r.pool));
    }
  }

  lemma SettledMemory(s: State, s': State, h: nat, v: VmId, cs: seq<Constituent>, m: Mode, r: MapResult)
    requires StateInv(s) && h < |s.shares| && !Active(s.shares[h]) && v < |s.vms| && StateClear(m)
    requires ValidTable(r.table)
    requires ValidRegion(cs, NumPages(s)) && OwnsRegion(ViewOf(s), v, PagesOf(cs, NumPages(s)))
    requires r.ok && UpdateSpec(r, s.vms[v], cs, OpOf(m), s.pool)
    requires s'.vms == s.vms[v := r.table] && s'.shares == s.shares[h := Unallocated]
    ensures Follows(s', s, h)
  {
    UpdateMemory(s, s', v, cs, m, r);
    SharesUpdate(s, s', h);
    assert ViewOf(s').claims == ViewOf(s).claims;
    assert Settled(ViewOf(s'), ViewOf(s), h, v, PagesOf(cs, NumPages(s)), m);
  }

  /** Preparing ran out of memory. */
  lemma NothingPrepared(s: State, s': State, h: nat, op: Op, back: Op, fails: bool, r: MapResult)
    requires StateInv(s) && IsLive(s, h) && !s.shares[h].complete && WfOp(op) && WfOp(back)
    requires !RegionMap(s.vms[s.shares[h].desc.sender], Flat(s.shares[h].fragments), op, false, s.pool, s.limit).ok
    requires r == ShrinkUpdate(s.vms[s.shares[h].desc.sender], Flat(s.shares[h].fragments), op, back, fails, s.pool,
                               s.limit)
    requires s'.vms == s.vms[s.shares[h].desc.sender := r.table] && s'.shares == s.shares[h := Unallocated]
    ensures !r.ok && Follows(s', s, h)
  {
    var v, cs := s.shares[h].desc.sender, Flat(s.shares[h].fragments);
    var p := RegionMap(s.vms[v], cs, op, false, s.pool, s.limit);
    RegionPrepare(s.vms[v], cs, op, s.pool, s.limit, p);
    TidySpec(false, p.table, p.pool);
    SameSpaceTrans(r.table, p.table, s.vms[v]);
    UpdateMemory(s, s', v, [], ABSENT_MODE, r);
    KeepClaim(s, s', h);
  }

  lemma SendCompleteFollows(s: State, h: nat, clearFails: bool)
    requires StateInv(s) && IsLive(s, h) && !s.shares[h].complete
    requires Commits(s, h) ==> OwnedPages(s.vms[s.shares[h].desc.sender], s.shares[h].fragments[0])
    ensures Follows(SendComplete(s, h, clearFails).state, s, h)
  {
    var sh := s.shares[h];
    var t := s.vms[sh.desc.sender];
    var s' := SendComplete(s, h, clearFails).state;
    var tr := SendCheck(t, sh);
    if tr.Refused? {
      SameMemory(s, s');
      KeepClaim(s, s', h);
    } else {
      var fails := sh.desc.clear && clearFails;
      var r := ShrinkUpdate(t, Flat(sh.fragments), OpOf(tr.next), OpOf(tr.orig), fails, s.pool, s.limit);
      if Commits(s, h) {
        GrantRegion(s, s', h, tr.orig, fails, r);
      } else {
        NothingPrepared(s, s', h, OpOf(tr.next), OpOf(tr.orig), fails, r);
      }
    }
  }

  lemma IdlesThenNext(w: View, w1: View, w2: View, h: nat)
    requires Idles(w1, w) && NextAt(w2, w1, h)
    ensures NextAt(w2, w, h)
  {
    if Idles(w2, w1) {
      assert Idles(w2, w);
    } else if v, region, m :| Settled(w2, w1, h, v, region, m) {
      assert Settled(w2, w, h, v, region, m);
    } else if c :| Granted(w2, w1, h, c) {
      assert Granted(w2, w, h, c);
    } else if m :| Taken(w2, w1, h, m) {
      assert Taken(w2, w, h, m);
    } else if GivenBack(w2, w1, h) {
      assert GivenBack(w2, w, h);
    } else {
      assert Ended(w2, w, h);
    }
  }

  /** A share that claims nothing is stored, and then maybe completed. */
  lemma StoreThenComplete(s: State, s1: State, h: nat, clearFails: bool)
    requires StateInv(s) && s1.vms == s.vms && OnlyShare(s1, s, h)
    requires !Active(s.shares[h]) && s1.shares[h].Share? && !s1.shares[h].complete
    requires ShareInv(s1.shares[h], |s.vms|, NumPages(s))
    ensures Follows(s1, s, h)
    ensures (Commits(s1, h) ==> OwnedPages(s1.vms[s1.shares[h].desc.sender], s1.shares[h].fragments[0])) ==>
              Follows(SendComplete(s1, h, clearFails).state, s, h)
  {
    SameMemory(s, s1);
    KeepClaim(s, s1, h);
    NextKeepsInv(ViewOf(s), ViewOf(s1), h);
    if Commits(s1, h) ==> OwnedPages(s1.vms[s1.shares[h].desc.sender], s1.shares[h].fragments[0]) {
      SendCompleteFollows(s1, h, clearFails);
      IdlesThenNext(ViewOf(s), ViewOf(s1), ViewOf(SendComplete(s1, h, clearFails).state), h);
    }
  }

  lemma NoStep(s: State, h: nat)
    requires StateInv(s)
    ensures Follows(s, s, h)
  {
    assert Idles(ViewOf(s), ViewOf(s));
  }

  /** The state in which the last fragment has just been stored. */
  ghost predicate StoredLast(s: State, s1: State, h: nat) {
    && StateInv(s) && s1.vms == s.vms && OnlyShare(s1, s, h) && !Active(s.shares[h])
    && s1.shares[h].Share? && !s1.shares[h].complete && ShareInv(s1.shares[h], |s.vms|, NumPages(s))
  }

  lemma StoresLast(s: State, caller: VmId, c: Call, s1: State, h: nat)
    requires StateInv(s) && caller < |s.vms| && Completes(s, caller, c)
    requires s1 == StoreLast(s, caller, c) && h == HandleOf(s, c)
    ensures StoredLast(s, s1, h)
  {
    if c.CallSendFragment? {
      assert ShareInv(s.shares[h], |s.vms|, NumPages(s));
    }
  }

  lemma CompletingFollows(s: State, caller: VmId, c: Call, s1: State, h: nat)
    requires StateInv(s) && caller < |s.vms| && ValidShares(s) && Completes(s, caller, c)
    requires s1 == StoreLast(s, caller, c) && h == HandleOf(s, c)
    requires Commits(s1, h) ==> OwnedPages(s.vms[caller], s1.shares[h].fragments[0])
    ensures Follows(Step(s, caller, c).state, s, h)
  {
    StoresLast(s, caller, c, s1, h);
    StepCompletes(s, caller, c, s1, h);
    StoreThenComplete(s, s1, h, c.clearFails);
  }

  lemma SendFollows(s: State, caller: VmId, c: Call)
    requires StateInv(s) && caller < |s.vms| && ValidShares(s) && c.CallSend? && !Completes(s, caller, c)
    ensures Follows(Step(s, caller, c).state, s, FirstFree(s.shares))
  {
    var h := FirstFree(s.shares);
    NoStep(s, h);
    if Step(s, caller, c).state != s && h < |s.shares| && s.pool != [] {
      var sh := Share(c.func, StoredDescriptor(c.func, c.desc), [c.fragment], [s.pool[0]], false, ABSENT_MODE, 0);
      var s1 := s.(shares := s.shares[h := sh], pool := s.pool[1..]);
      StoreThenComplete(s, s1, h, c.clearFails);
    }
  }

  lemma SendFragmentFollows(s: State, caller: VmId, c: Call)
    requires StateInv(s) && caller < |s.vms| && ValidShares(s) && c.CallSendFragment? && !Completes(s, caller, c)
    ensures Follows(Step(s, caller, c).state, s, c.handle)
  {
    var h := c.handle;
    NoStep(s, h);
    if IsLive(s, h) && !s.shares[h].complete && s.pool != [] && s.shares[h].desc.sender == caller {
      var sh := s.shares[h];
      if |sh.fragments| == MAX_FRAGMENTS {
        var s1 := FreeShare(s.(pool := s.pool[1..]), h);
        var s2 := s1.(pool := [s.pool[0]] + s1.pool);
        SameMemory(s, s2);
        KeepClaim(s, s2, h);
      } else {
        var sh' := sh.(fragments := sh.fragments + [c.fragment], pages := sh.pages + [s.pool[0]]);
        var s1 := s.(pool := s.pool[1..], shares := s.shares[h := sh']);
        StoreThenComplete(s, s1, h, c.clearFails);
      }
    }
  }

  // ---- What the invariant says about the region of a completed share ----

  /** The claim of an active share. */
  lemma ShareClaim(s: State, h: nat)
    requires StateInv(s) && IsLive(s, h) && Active(s.shares[h])
    ensures var c := ViewOf(s).claims[h];
            && c == ClaimOf(s.shares[h], NumPages(s)) && c.Claim? && ClaimInv(ViewOf(s), c)
            && forall p :: p in c.region ==> p < NumPages(s) && Covers(ViewOf(s), h, p)
  {
    assert ViewOf(s).claims[h] == ClaimOf(s.shares[h], NumPages(s));
  }

  /** If the pages of a valid region are all in mode `m` in VM `v`, the query finds it. */
  lemma RegionModeAt(s: State, v: VmId, fragments: seq<seq<Constituent>>, m: Mode)
    requires Tables(s) && v < |s.vms| && fragments != [] && fragments[0] != []
    requires ValidRegion(Flat(fragments), NumPages(s))
    requires forall p :: p in PagesOf(Flat(fragments), NumPages(s)) ==> ModeAt(s, v, p) == m
    ensures RegionModeOf(s.vms[v], fragments) == Found(m)
    ensures AllMode(s.vms[v], fragments, m)
  {
    var t := s.vms[v];
    assert SpaceEnd(t) == NumPages(s);
    forall p: nat | p < SpaceEnd(t) && InPages(Flat(fragments), p)
      ensures ModeOf(Lookup(t, p)) == m
    {
      assert p in PagesOf(Flat(fragments), NumPages(s));
    }
    PagesToMode(t, fragments, m);
  }

  /** A region that passed the checks has a page. */
  lemma RegionNotEmpty(fragments: seq<seq<Constituent>>, n: nat) returns (p: nat)
    requires fragments != [] && fragments[0] != [] && ValidRegion(Flat(fragments), n)
    ensures p in PagesOf(Flat(fragments), n)
  {
    var cs := Flat(fragments);
    assert cs[0] == fragments[0][0];
    p := FirstPage(cs[0]);
    assert InPages(cs, p);
  }

  /** An unmapped page has the mode of an absent entry. */
  lemma UnmappedIsAbsent(s: State, v: VmId, p: nat)
    requires Tables(s) && v < |s.vms| && p < NumPages(s) && Unmapped(ModeAt(s, v, p))
    ensures ModeAt(s, v, p) == ABSENT_MODE
  {
    var t := s.vms[v];
    assert SpaceEnd(t) == NumPages(s);
    assert AttrsOf(ModeOf(Lookup(t, p))) == Lookup(t, p);
    ModeOfAttrsOf(ModeOf(Lookup(t, p)));
  }

  /** The modes of a page in the region of an active share. */
  lemma RegionPage(s: State, h: nat, v: VmId, p: nat)
    requires StateInv(s) && IsLive(s, h) && Active(s.shares[h]) && v < |s.vms|
    requires p in PagesOf(Flat(s.shares[h].fragments), NumPages(s))
    ensures Fits(ClaimOf(s.shares[h], NumPages(s)), v, ModeAt(s, v, p))
  {
    ShareClaim(s, h);
    var w := ViewOf(s);
    CoveredPage(w, h, p);
    assert w.mode(v, p) == ModeAt(s, v, p);
  }

  /** Until it is retrieved, the receiver has nothing to do with the region: the check of a
      retrieve never fails on the receiver's modes. */
  lemma ReceiverRegion(s: State, h: nat)
    requires StateInv(s) && IsLive(s, h) && s.shares[h].complete && s.shares[h].retrieved == 0
    ensures RegionModeOf(s.vms[s.shares[h].desc.receiver], s.shares[h].fragments) == Found(ABSENT_MODE)
  {
    var sh := s.shares[h];
    forall p | p in PagesOf(Flat(sh.fragments), NumPages(s))
      ensures ModeAt(s, sh.desc.receiver, p) == ABSENT_MODE
    {
      RegionPage(s, h, sh.desc.receiver, p);
      UnmappedIsAbsent(s, sh.desc.receiver, p);
    }
    RegionModeAt(s, sh.desc.receiver, sh.fragments, ABSENT_MODE);
  }

  /** The sender has the whole region in the mode the send left it in. In particular a state bit
      is set, so the assertion in the reclaim's check holds. */
  lemma SenderRegion(s: State, h: nat)
    requires StateInv(s) && IsLive(s, h) && Active(s.shares[h])
    ensures var sh := s.shares[h];
            var m := Stored(SentMode(sh.func, sh.origMode));
            && RegionModeOf(s.vms[sh.desc.sender], sh.fragments) == Found(m)
            && (m.invalid || m.unowned || m.shared)
  {
    var sh := s.shares[h];
    var m := Stored(SentMode(sh.func, sh.origMode));
    forall p | p in PagesOf(Flat(sh.fragments), NumPages(s))
      ensures ModeAt(s, sh.desc.sender, p) == m
    {
      RegionPage(s, h, sh.desc.sender, p);
      if sh.func == Donate {
        UnmappedIsAbsent(s, sh.desc.sender, p);
      }
    }
    RegionModeAt(s, sh.desc.sender, sh.fragments, m);
  }

  lemma BorrowedMode(s: State, h: nat) returns (m: Mode)
    requires StateInv(s) && IsLive(s, h) && Active(s.shares[h]) && s.shares[h].retrieved > 0
    ensures forall p :: p in PagesOf(Flat(s.shares[h].fragments), NumPages(s)) ==>
            ModeAt(s, s.shares[h].desc.receiver, p) == m
    ensures !m.invalid && m.unowned && !m.d
  {
    var v := s.shares[h].desc.receiver;
    var p0 := RegionNotEmpty(s.shares[h].fragments, NumPages(s));
    RegionPage(s, h, v, p0);
    m := ModeAt(s, v, p0);
    ShareClaim(s, h);
    forall p | p in PagesOf(Flat(s.shares[h].fragments), NumPages(s))
      ensures ModeAt(s, v, p) == m
    {
      assert ViewOf(s).mode(v, p) == ViewOf(s).mode(v, p0);
    }
  }

  /** After it is retrieved, the receiver has the whole region in one borrowed mode: the check of
      a relinquish never fails on the receiver's modes. */
  lemma BorrowerRegion(s: State, h: nat) returns (m: Mode)
    requires StateInv(s) && IsLive(s, h) && Active(s.shares[h]) && s.shares[h].retrieved > 0
    ensures AllMode(s.vms[s.shares[h].desc.receiver], s.shares[h].fragments, m)
    ensures RegionModeOf(s.vms[s.shares[h].desc.receiver], s.shares[h].fragments) == Found(m)
    ensures !m.invalid && m.unowned && !m.d
  {
    m := BorrowedMode(s, h);
    RegionModeAt(s, s.shares[h].desc.receiver, s.shares[h].fragments, m);
  }

  // ---- The other calls ----

  /** The share after the memory was given to the receiver. */
  function TakenShare(sh: Share): Share
    requires sh.Share?
  {
    if sh.func == Donate && |sh.fragments| == 1 then Unallocated else sh.(retrieved := 1)
  }

  lemma TakenMemory(s: State, s': State, h: nat, p: Mode)
    requires StateInv(s) && IsLive(s, h) && s.shares[h].complete && s.shares[h].retrieved == 0 && StateClear(p) && !p.d
    requires s.shares[h].func == Donate || DataWithin(p, s.shares[h].origMode)
    requires Tables(s') && NumPages(s') == NumPages(s) && s'.shares == s.shares[h := TakenShare(s.shares[h])]
    requires Changed(ViewOf(s'), ViewOf(s), s.shares[h].desc.receiver,
                     PagesOf(Flat(s.shares[h].fragments), NumPages(s)),
                     Stored(RetrievedMode(s.shares[h].func, p)))
    ensures Follows(s', s, h)
  {
    OnlyShareOnlyClaim(s, s', h);
    SharesUpdate(s, s', h);
    assert Taken(ViewOf(s'), ViewOf(s), h, p);
  }

  /** The memory of a share is given to the receiver. */
  lemma TakeRegion(s: State, s': State, h: nat, p: Mode, next: Mode, r: MapResult)
    requires StateInv(s) && IsLive(s, h) && s.shares[h].complete && s.shares[h].retrieved == 0
    requires StateClear(p) && !p.d && next == RetrievedMode(s.shares[h].func, p)
    requires s.shares[h].func == Donate || DataWithin(p, s.shares[h].origMode)
    requires r == GrowUpdate(s.vms[s.shares[h].desc.receiver], Flat(s.shares[h].fragments), OpOf(next), false,
                             s.pool, s.limit)
    requires s'.vms == s.vms[s.shares[h].desc.receiver := r.table]
    requires s'.shares == if r.ok then s.shares[h := TakenShare(s.shares[h])] else s.shares
    ensures Follows(s', s, h)
  {
    var sh := s.shares[h];
    var v := sh.desc.receiver;
    var cs := Flat(sh.fragments);
    GrowUpdateSpec(s.vms[v], cs, OpOf(next), false, s.pool, s.limit);
    UpdateMemory(s, s', v, cs, next, r);
    if r.ok {
      TakenMemory(s, s', h, p);
    } else {
      KeepClaim(s, s', h);
    }
  }

  /** What a receiver of lent or shared memory is granted is within what the owner had. */
  lemma AccessWithin(s: State, caller: VmId, q: Request)
    requires StateInv(s) && RetrieveAccess(s, caller, q).Access? && s.shares[q.handle].func != Donate
    ensures DataWithin(RetrieveAccess(s, caller, q).mode, s.shares[q.handle].origMode)
  {
    assert ShareInv(s.shares[q.handle], |s.vms|, NumPages(s));
  }

  /** What a retrieve call does: nothing, or one update of the receiver's table. */
  lemma RetrieveShape(s: State, caller: VmId, q: Request, s': State, a: Access)
    requires ValidVms(s) && ValidShares(s) && caller < |s.vms|
    requires s' == Retrieve(s, caller, q).state && a == RetrieveAccess(s, caller, q)
    ensures s' == s ||
            (a.Access? &&
             var sh := s.shares[q.handle];
             var r := GrowUpdate(s.vms[caller], Flat(sh.fragments), OpOf(RetrievedMode(sh.func, a.mode)), false,
                                 s.pool, s.limit);
             && (r.ok ==> sh.fragments != [] ==> s'.shares == s.shares[q.handle := TakenShare(sh)])
             && (!r.ok ==> s'.shares == s.shares) && s'.vms == s.vms[caller := r.table])
  {
  }

  lemma RetrieveFollows(s: State, caller: VmId, q: Request)
    requires StateInv(s) && caller < |s.vms|
    ensures Follows(Retrieve(s, caller, q).state, s, q.handle)
  {
    NoStep(s, q.handle);
    InvShares(s);
    var s', a := Retrieve(s, caller, q).state, RetrieveAccess(s, caller, q);
    RetrieveShape(s, caller, q, s', a);
    if s' != s {
      RetrieveTakes(s, caller, q, s', a);
    }
  }

  lemma RetrieveTakes(s: State, caller: VmId, q: Request, s': State, a: Access)
    requires StateInv(s) && caller < |s.vms| && a == RetrieveAccess(s, caller, q) && a.Access?
    requires var sh := s.shares[q.handle];
             var r := GrowUpdate(s.vms[caller], Flat(sh.fragments), OpOf(RetrievedMode(sh.func, a.mode)), false,
                                 s.pool, s.limit);
             && (r.ok ==> sh.fragments != [] ==> s'.shares == s.shares[q.handle := TakenShare(sh)])
             && (!r.ok ==> s'.shares == s.shares) && s'.vms == s.vms[caller := r.table]
    ensures Follows(s', s, q.handle)
  {
    var sh := s.shares[q.handle];
    var next := RetrievedMode(sh.func, a.mode);
    assert ShareInv(sh, |s.vms|, NumPages(s));
    if sh.func != Donate {
      AccessWithin(s, caller, q);
    }
    TakeRegion(s, s', q.handle, a.mode, next,
               GrowUpdate(s.vms[caller], Flat(sh.fragments), OpOf(next), false, s.pool, s.limit));
  }

  lemma RetrieveFragmentFollows(s: State, caller: VmId, h: nat, offset: nat)
    requires StateInv(s)
    ensures Follows(RetrieveFragment(s, caller, h, offset).state, s, h)
  {
    NoStep(s, h);
    var s' := RetrieveFragment(s, caller, h, offset).state;
    if s' != s {
      SameMemory(s, s');
      KeepClaim(s, s', h);
    }
  }

  lemma ReturnedMemory(s: State, s': State, h: nat)
    requires StateInv(s) && IsLive(s, h) && Active(s.shares[h]) && s.shares[h].retrieved > 0
    requires Tables(s') && NumPages(s') == NumPages(s) && s'.shares == s.shares[h := s.shares[h].(retrieved := 0)]
    requires Changed(ViewOf(s'), ViewOf(s), s.shares[h].desc.receiver,
                     PagesOf(Flat(s.shares[h].fragments), NumPages(s)), ABSENT_MODE)
    ensures Follows(s', s, h)
  {
    OnlyShareOnlyClaim(s, s', h);
    SharesUpdate(s, s', h);
    assert GivenBack(ViewOf(s'), ViewOf(s), h);
  }

  /** The borrowed memory of a share is taken from the receiver. */
  lemma ReturnRegion(s: State, s': State, h: nat, m: Mode, next: Mode, fails: bool, r: MapResult)
    requires StateInv(s) && IsLive(s, h) && Active(s.shares[h]) && s.shares[h].retrieved > 0 && Unmapped(next)
    requires AllMode(s.vms[s.shares[h].desc.receiver], s.shares[h].fragments, m)
    requires r == ShrinkUpdate(s.vms[s.shares[h].desc.receiver], Flat(s.shares[h].fragments), OpOf(next), OpOf(m),
                               fails,
                               s.pool, s.limit)
    requires s'.vms == s.vms[s.shares[h].desc.receiver := r.table]
    requires s'.shares == if r.ok then s.shares[h := s.shares[h].(retrieved := 0)] else s.shares
    ensures Follows(s', s, h)
  {
    var sh := s.shares[h];
    var v := sh.desc.receiver;
    var cs := Flat(sh.fragments);
    RegionFacts(s, v, sh.fragments, m);
    ShrinkUpdateSpec(s.vms[v], cs, OpOf(next), OpOf(m), fails, s.pool, s.limit);
    UpdateMemory(s, s', v, cs, next, r);
    if r.ok {
      ReturnedMemory(s, s', h);
    } else {
      KeepClaim(s, s', h);
    }
  }

  lemma RelinquishFollows(s: State, caller: VmId, h: nat, clear: bool, clearFails: bool)
    requires StateInv(s) && caller < |s.vms|
    ensures Follows(Relinquish(s, caller, h, clear, clearFails).state, s, h)
  {
    NoStep(s, h);
    var s' := Relinquish(s, caller, h, clear, clearFails).state;
    if s' != s {
      var sh := s.shares[h];
      var m := BorrowerRegion(s, h);
      var tr := RelinquishTransition(s.vms[caller], sh.fragments);
      var fails := clear && clearFails;
      var r := ShrinkUpdate(s.vms[caller], Flat(sh.fragments), OpOf(tr.next), OpOf(tr.orig), fails, s.pool, s.limit);
      ReturnRegion(s, s', h, m, tr.next, fails, r);
    }
  }

  /** The memory of a share is given back to the sender. */
  lemma EndRegion(s: State, s': State, h: nat, fails: bool, r: MapResult)
    requires StateInv(s) && IsLive(s, h) && s.shares[h].complete && s.shares[h].retrieved == 0
    requires r == GrowUpdate(s.vms[s.shares[h].desc.sender], Flat(s.shares[h].fragments), OpOf(s.shares[h].origMode),
                             fails,
                             s.pool, s.limit)
    requires s'.vms == s.vms[s.shares[h].desc.sender := r.table]
    requires s'.shares == if r.ok then s.shares[h := Unallocated] else s.shares
    ensures Follows(s', s, h)
  {
    var sh := s.shares[h];
    var v := sh.desc.sender;
    var cs := Flat(sh.fragments);
    GrowUpdateSpec(s.vms[v], cs, OpOf(sh.origMode), fails, s.pool, s.limit);
    UpdateMemory(s, s', v, cs, sh.origMode, r);
    if r.ok {
      OnlyShareOnlyClaim(s, s', h);
      SharesUpdate(s, s', h);
      assert Ended(ViewOf(s'), ViewOf(s), h);
    } else {
      KeepClaim(s, s', h);
    }
  }

  lemma ReclaimFollows(s: State, caller: VmId, h: nat, clear: bool, clearFails: bool)
    requires StateInv(s) && caller < |s.vms|
    ensures Follows(Reclaim(s, caller, h, clear, clearFails).state, s, h)
  {
    NoStep(s, h);
    var s' := Reclaim(s, caller, h, clear, clearFails).state;
    if s' != s {
      var sh := s.shares[h];
      var fails := clear && clearFails;
      var r := GrowUpdate(s.vms[caller], Flat(sh.fragments), OpOf(sh.origMode), fails, s.pool, s.limit);
      EndRegion(s, s', h, fails, r);
    }
  }

  // ---- Runs ----

  lemma FollowsKeepsInv(s: State, s': State, h: nat)
    requires StateInv(s) && Follows(s', s, h)
    ensures StateInv(s')
  {
    NextKeepsInv(ViewOf(s), ViewOf(s'), h);
  }

  lemma InvShares(s: State)
    requires StateInv(s)
    ensures ValidVms(s) && ValidShares(s)
  {
  }

  /** Every call keeps the invariant and is a step of the ownership protocol. */
  lemma StepFollows(s: State, caller: VmId, c: Call)
    requires StateInv(s) && caller < |s.vms| && ValidShares(s) && SendsOwned(s, caller, c)
    ensures Follows(Step(s, caller, c).state, s, HandleOf(s, c))
  {
    if Completes(s, caller, c) {
      CompletingFollows(s, caller, c, StoreLast(s, caller, c), HandleOf(s, c));
      return;
    }
    match c {
      case CallSend(_, _, _, _) => SendFollows(s, caller, c);
      case CallSendFragment(_, _, _) => SendFragmentFollows(s, caller, c);
      case CallRetrieve(q) => RetrieveFollows(s, caller, q);
      case CallRetrieveFragment(h, offset) => RetrieveFragmentFollows(s, caller, h, offset);
      case CallRelinquish(h, clear, clearFails) => RelinquishFollows(s, caller, h, clear, clearFails);
      case CallReclaim(h, clear, clearFails) => ReclaimFollows(s, caller, h, clear, clearFails);
    }
  }
}
