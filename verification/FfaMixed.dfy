/** Sends of memory that is not all the sender's. The code compares modes only from the second
    fragment on, so such a send can be accepted. Here is exactly when one breaks the ownership
    protocol, and a run in which it does. */
module FfaMixed {
  import opened PageTree
  import opened MapLevel
  import opened IdentityMap
  import opened Stage2Pte
  import opened Region
  import opened RegionMode
  import opened Ownership
  import opened FfaMemory
  import opened FfaOwnership
  import opened FfaPages
  import opened FfaRuns

  // ---- Exactly when a send keeps the invariant ----

  /** A successful update has changed the region, whatever was there before. */
  lemma ShrinkOk(t: Ptable, cs: seq<Constituent>, op: Op, back: Op, clearFails: bool, pool: Pool, limit: nat,
                 r: MapResult)
    requires ValidTable(t) && WfOp(op) && WfOp(back)
    requires r == ShrinkUpdate(t, cs, op, back, clearFails, pool, limit) && r.ok
    ensures UpdateSpec(r, t, cs, op, pool)
  {
    var p := RegionMap(t, cs, op, false, pool, limit);
    var c := RegionMap(p.table, cs, op, true, p.pool, limit);
    PreparedCommit(t, cs, op, pool, limit);
    FinishConserves(c.pool, |p.pool|);
    TidySpec(true, c.table, FinishLocal(c.pool, |p.pool|));
    UpdatedTrans(Tidy(true, c.table, FinishLocal(c.pool, |p.pool|)).table, c.table, t, cs, Val(op));
  }

  /** A send that commits without a failing clear is answered with its handle. */
  lemma CommitSends(s: State, h: nat, clearFails: bool, o: Outcome)
    requires Commits(s, h) && !(s.shares[h].desc.clear && clearFails) && o == SendComplete(s, h, clearFails)
    ensures o.status == Sent(h) && |o.state.shares| == |s.shares|
    ensures o.state.shares[h]
            == s.shares[h].(complete := true, origMode := SendCheck(s.vms[s.shares[h].desc.sender], s.shares[h]).orig)
  {
  }

  /** It puts a claim on the region, whosever it was. */
  lemma CompleteClaims(s: State, h: nat, clearFails: bool, o: Outcome)
    requires StateInv(s) && IsLive(s, h) && !s.shares[h].complete && Commits(s, h)
    requires !(s.shares[h].desc.clear && clearFails) && o == SendComplete(s, h, clearFails)
    ensures Tables(o.state) && SharesInv(o.state) && NumPages(o.state) == NumPages(s)
    ensures Claimed(ViewOf(o.state), ViewOf(s), h, ClaimOf(o.state.shares[h], NumPages(s)))
    ensures o.state.shares[h].func == s.shares[h].func && Active(o.state.shares[h])
    ensures ClaimOf(o.state.shares[h], NumPages(s)).region == PagesOf(Flat(s.shares[h].fragments), NumPages(s))
    ensures ClaimOf(o.state.shares[h], NumPages(s)).sender == s.shares[h].desc.sender
  {
    CommitSends(s, h, clearFails, o);
    var sh := s.shares[h];
    var v, cs := sh.desc.sender, Flat(sh.fragments);
    var tr := SendCheck(s.vms[v], sh);
    FoundRegion(s.vms[v], sh.fragments, tr.orig);
    var r := ShrinkUpdate(s.vms[v], cs, OpOf(tr.next), OpOf(tr.orig), false, s.pool, s.limit);
    ShrinkOk(s.vms[v], cs, OpOf(tr.next), OpOf(tr.orig), false, s.pool, s.limit, r);
    ClaimedMemory(s, o.state, h, tr.orig, r);
  }

  lemma ClaimedMemory(s: State, s': State, h: nat, m: Mode, r: MapResult)
    requires StateInv(s) && IsLive(s, h) && !s.shares[h].complete && StateClear(m) && !m.d
    requires s.shares[h].fragments[0] != []
    requires PermissionsWithin(PermissionsToMode(s.shares[h].desc.permissions, m), m)
    requires ValidRegion(Flat(s.shares[h].fragments), NumPages(s)) && ValidTable(r.table) && r.ok
    requires UpdateSpec(r, s.vms[s.shares[h].desc.sender], Flat(s.shares[h].fragments),
                        OpOf(SentMode(s.shares[h].func, m)), s.pool)
    requires s'.vms == s.vms[s.shares[h].desc.sender := r.table]
    requires s'.shares == s.shares[h := s.shares[h].(complete := true, origMode := m)]
    ensures Tables(s') && SharesInv(s') && NumPages(s') == NumPages(s)
    ensures Claimed(ViewOf(s'), ViewOf(s), h, ClaimOf(s'.shares[h], NumPages(s)))
  {
    UpdateMemory(s, s', s.shares[h].desc.sender, Flat(s.shares[h].fragments), SentMode(s.shares[h].func, m), r);
    OnlyShareOnlyClaim(s, s', h);
    SharesUpdate(s, s', h);
  }

  /** If clearing fails and the rollback does not, the whole region is the sender's. */
  lemma CompleteSeizes(s: State, h: nat, o: Outcome)
    requires StateInv(s) && IsLive(s, h) && !s.shares[h].complete && Commits(s, h) && s.shares[h].desc.clear
    requires !RollbackPanics(s, h, true) && o == SendComplete(s, h, true)
    ensures Tables(o.state) && SharesInv(o.state) && NumPages(o.state) == NumPages(s) && o.status == Error(NoMemory)
    ensures var sh := s.shares[h];
            Seized(ViewOf(o.state), ViewOf(s), sh.desc.sender, PagesOf(Flat(sh.fragments), NumPages(s)),
                   SendCheck(s.vms[sh.desc.sender], sh).orig)
  {
    var sh := s.shares[h];
    var v, cs := sh.desc.sender, Flat(sh.fragments);
    var tr := SendCheck(s.vms[v], sh);
    FoundRegion(s.vms[v], sh.fragments, tr.orig);
    var r := ShrinkUpdate(s.vms[v], cs, OpOf(tr.next), OpOf(tr.orig), true, s.pool, s.limit);
    RolledBack(s.vms[v], cs, OpOf(tr.next), OpOf(tr.orig), s.pool, s.limit);
    ShrinkConserves(s.vms[v], cs, OpOf(tr.next), OpOf(tr.orig), true, s.pool, s.limit, r);
    SeizedMemory(s, o.state, h, tr.orig, MapResult(true, r.table, r.pool));
  }

  lemma SeizedMemory(s: State, s': State, h: nat, m: Mode, r: MapResult)
    requires StateInv(s) && IsLive(s, h) && !s.shares[h].complete && StateClear(m)
    requires ValidRegion(Flat(s.shares[h].fragments), NumPages(s)) && ValidTable(r.table) && r.ok
    requires UpdateSpec(r, s.vms[s.shares[h].desc.sender], Flat(s.shares[h].fragments), OpOf(m), s.pool)
    requires s'.vms == s.vms[s.shares[h].desc.sender := r.table] && s'.shares == s.shares[h := Unallocated]
    ensures Tables(s') && SharesInv(s') && NumPages(s') == NumPages(s)
    ensures Seized(ViewOf(s'), ViewOf(s), s.shares[h].desc.sender, PagesOf(Flat(s.shares[h].fragments), NumPages(s)), m)
  {
    UpdateMemory(s, s', s.shares[h].desc.sender, Flat(s.shares[h].fragments), m, r);
    SharesUpdate(s, s', h);
    assert ViewOf(s').claims == ViewOf(s).claims;
  }

  /** Owning the region is owning its first fragment; the code has checked the rest. */
  lemma OwnsIff(s: State, v: VmId, fragments: seq<seq<Constituent>>, m: Mode)
    requires Tables(s) && v < |s.vms| && RegionModeOf(s.vms[v], fragments) == Found(m) && StateClear(m)
    ensures fragments != []
    ensures OwnsRegion(ViewOf(s), v, PagesOf(Flat(fragments), NumPages(s))) <==> OwnedPages(s.vms[v], fragments[0])
  {
    var t, n := s.vms[v], NumPages(s);
    assert SpaceEnd(t) == n;
    FoundRegion(t, fragments, m);
    if OwnsRegion(ViewOf(s), v, PagesOf(Flat(fragments), n)) {
      forall p: nat | p < SpaceEnd(t) && InPages(fragments[0], p)
        ensures StateClear(ModeOf(Lookup(t, p)))
      {
        InPagesSplit(fragments[0], Flat(fragments[1..]), p);
        assert p in PagesOf(Flat(fragments), n);
        assert StateClear(ViewOf(s).mode(v, p));
      }
    }
    if OwnedPages(t, fragments[0]) {
      OwnedRegion(s, v, fragments, Lend, m);
    }
  }

  /** If the sender owns the memory, the rollback does not fail. */
  lemma OwnedNeverPanics(s: State, h: nat, clearFails: bool)
    requires StateInv(s) && Commits(s, h) && OwnedPages(s.vms[s.shares[h].desc.sender], s.shares[h].fragments[0])
    ensures !RollbackPanics(s, h, clearFails)
  {
    var sh := s.shares[h];
    var t, cs := s.vms[sh.desc.sender], Flat(sh.fragments);
    var tr := SendCheck(t, sh);
    OwnedRegion(s, sh.desc.sender, sh.fragments, sh.func, tr.orig);
    RollbackSpec(t, cs, OpOf(tr.next), OpOf(tr.orig), s.pool, s.limit,
                 RegionMap(t, cs, OpOf(tr.next), false, s.pool, s.limit));
  }

  /** The ownership invariant holds in `s'`, and every page that is accounted for there was so in `s`. */
  ghost predicate KeepsOwners(s': State, s: State) {
    StateInv(s') && NoNewAccounts(ViewOf(s'), ViewOf(s))
  }

  lemma CompleteKeepsIff(s: State, h: nat, clearFails: bool, o: Outcome)
    requires StateInv(s) && IsLive(s, h) && !s.shares[h].complete && Commits(s, h)
    requires o == SendComplete(s, h, clearFails)
    ensures !RollbackPanics(s, h, clearFails) && KeepsOwners(o.state, s) <==>
            OwnedPages(s.vms[s.shares[h].desc.sender], s.shares[h].fragments[0])
  {
    var sh := s.shares[h];
    var v, m := sh.desc.sender, SendCheck(s.vms[sh.desc.sender], sh).orig;
    OwnsIff(s, v, sh.fragments, m);
    if sh.desc.clear && clearFails {
      if RollbackPanics(s, h, clearFails) {
        if OwnedPages(s.vms[v], sh.fragments[0]) {
          OwnedNeverPanics(s, h, clearFails);
        }
      } else {
        CompleteSeizes(s, h, o);
        assert ViewOf(s).claims[h] == Idle;
        SeizeKeepsIff(ViewOf(s), ViewOf(o.state), h, v, PagesOf(Flat(sh.fragments), NumPages(s)), m);
      }
    } else {
      CompleteClaims(s, h, clearFails, o);
      ClaimKeepsIff(ViewOf(s), ViewOf(o.state), h, ClaimOf(o.state.shares[h], NumPages(s)));
    }
  }

  // ---- The same for the calls ----

  lemma StoredKeeps(s: State, s1: State, h: nat)
    requires StoredLast(s, s1, h)
    ensures StateInv(s1) && ValidShares(s1) && Idles(ViewOf(s1), ViewOf(s)) && NumPages(s1) == NumPages(s)
  {
    SameMemory(s, s1);
    KeepClaim(s, s1, h);
    NextKeepsInv(ViewOf(s), ViewOf(s1), h);
    InvShares(s1);
  }

  lemma SameAccounts(w: View, w1: View, w2: View)
    requires Inv(w) && Idles(w1, w) && w2.pages == w.pages
    ensures NoNewAccounts(w2, w1) <==> NoNewAccounts(w2, w)
  {
    forall p: nat | p < w.pages
      ensures Accounted(w1, p) <==> Accounted(w, p)
    {
      assert NextAt(w1, w, 0);
      NextKeepsAccounts(w, w1, 0, p);
    }
  }

  lemma StoredKeepsIff(s: State, s1: State, h: nat, clearFails: bool, o: Outcome)
    requires StoredLast(s, s1, h) && Commits(s1, h) && o == SendComplete(s1, h, clearFails)
    ensures !RollbackPanics(s1, h, clearFails) && KeepsOwners(o.state, s) <==>
            OwnedPages(s.vms[s1.shares[h].desc.sender], s1.shares[h].fragments[0])
  {
    StoredKeeps(s, s1, h);
    CompleteKeepsIff(s1, h, clearFails, o);
    if StateInv(o.state) {
      CompletePages(s1, h, clearFails, o);
      SameAccounts(ViewOf(s), ViewOf(s1), ViewOf(o.state));
    }
  }

  lemma CompletePages(s: State, h: nat, clearFails: bool, o: Outcome)
    requires Commits(s, h) && o == SendComplete(s, h, clearFails)
    ensures NumPages(o.state) == NumPages(s)
  {
  }

  lemma FollowsKeepsOwners(s: State, s': State, h: nat)
    requires StateInv(s) && Follows(s', s, h)
    ensures KeepsOwners(s', s)
  {
    FollowsKeepsInv(s, s', h);
    forall p: nat | p < NumPages(s) && Accounted(ViewOf(s'), p)
      ensures Accounted(ViewOf(s), p)
    {
      NextKeepsAccounts(ViewOf(s), ViewOf(s'), h, p);
    }
  }

  /** Every call of every VM, accepted or not and whatever its answer, fails no assertion on the
      rollback, keeps the ownership invariant and makes no page somebody's that was nobody's, if and
      only if it does not change a page table, or its sender owns all of the memory exclusively. */
  lemma CallKeepsIff(s: State, caller: VmId, c: Call, o: Outcome)
    requires StateInv(s) && caller < |s.vms| && ValidShares(s) && o == Step(s, caller, c)
    ensures !SendPanics(s, caller, c) && KeepsOwners(o.state, s) <==> SendsOwned(s, caller, c)
  {
    if Completes(s, caller, c) {
      CompletingKeepsIff(s, caller, c, o, StoreLast(s, caller, c), HandleOf(s, c));
    } else {
      StepFollows(s, caller, c);
      FollowsKeepsOwners(s, o.state, HandleOf(s, c));
    }
  }

  lemma CompletingKeepsIff(s: State, caller: VmId, c: Call, o: Outcome, s1: State, h: nat)
    requires StateInv(s) && caller < |s.vms| && ValidShares(s) && o == Step(s, caller, c) && Completes(s, caller, c)
    requires s1 == StoreLast(s, caller, c) && h == HandleOf(s, c)
    ensures !RollbackPanics(s1, h, c.clearFails) && KeepsOwners(o.state, s) <==>
            (Commits(s1, h) ==> OwnedPages(s.vms[caller], s1.shares[h].fragments[0]))
  {
    StoresLast(s, caller, c, s1, h);
    StepCompletes(s, caller, c, s1, h);
    if Commits(s1, h) {
      StoredKeepsIff(s, s1, h, c.clearFails, o);
    } else {
      CompletingFollows(s, caller, c, s1, h);
      FollowsKeepsOwners(s, o.state, h);
    }
  }

  /** A page of another VM, in a region that is lent or shared or that could not be cleared, gets a
      second owner. */
  lemma SecondOwner(s: State, caller: VmId, c: Call, o: Outcome, s1: State, h: nat, v: VmId, p: nat)
    requires StateInv(s) && caller < |s.vms| && ValidShares(s) && o == Step(s, caller, c) && Completes(s, caller, c)
    requires s1 == StoreLast(s, caller, c) && h == HandleOf(s, c) && Commits(s1, h)
    requires !RollbackPanics(s1, h, c.clearFails)
    requires s1.shares[h].func != Donate || (s1.shares[h].desc.clear && c.clearFails)
    requires v < |s.vms| && v != caller && Owns(ModeAt(s, v, p)) && p < NumPages(s)
    requires p in PagesOf(Flat(s1.shares[h].fragments), NumPages(s))
    ensures Owns(ModeAt(o.state, caller, p)) && Owns(ModeAt(o.state, v, p))
  {
    StoresLast(s, caller, c, s1, h);
    StepCompletes(s, caller, c, s1, h);
    StoredKeeps(s, s1, h);
    OwnersAfter(s1, h, c.clearFails, o, v, p);
    assert ModeAt(s1, v, p) == ModeAt(s, v, p);
  }

  lemma OwnersAfter(s: State, h: nat, clearFails: bool, o: Outcome, v: VmId, p: nat)
    requires StateInv(s) && IsLive(s, h) && !s.shares[h].complete && Commits(s, h) && !RollbackPanics(s, h, clearFails)
    requires s.shares[h].func != Donate || (s.shares[h].desc.clear && clearFails)
    requires o == SendComplete(s, h, clearFails) && v < |s.vms| && v != s.shares[h].desc.sender
    requires p in PagesOf(Flat(s.shares[h].fragments), NumPages(s))
    ensures Owns(ModeAt(o.state, s.shares[h].desc.sender, p)) && ModeAt(o.state, v, p) == ModeAt(s, v, p)
  {
    var w, w', u := ViewOf(s), ViewOf(o.state), s.shares[h].desc.sender;
    if s.shares[h].desc.clear && clearFails {
      CompleteSeizes(s, h, o);
    } else {
      CompleteClaims(s, h, clearFails, o);
    }
    assert w'.mode(v, p) == w.mode(v, p) && Owns(w'.mode(u, p));
    assert w'.mode(v, p) == ModeAt(o.state, v, p) && w'.mode(u, p) == ModeAt(o.state, u, p)
           && w.mode(v, p) == ModeAt(s, v, p);
  }

  /** A send that the checks refuse is answered with an error and touches no page table. Whoever owns
      the memory, runs go on after it. */
  lemma RefusedSend(s: State, caller: VmId, c: Call)
    requires StateInv(s) && caller < |s.vms| && ValidShares(s)
    requires Completes(s, caller, c) ==>
               var s1 := StoreLast(s, caller, c);
               SendCheck(s1.vms[caller], s1.shares[HandleOf(s, c)]).Refused?
    ensures Enabled(s, Event(caller, c))
    ensures Completes(s, caller, c) ==> Step(s, caller, c).status.Error? && Step(s, caller, c).state.vms == s.vms
  {
    if Completes(s, caller, c) {
      StepCompletes(s, caller, c, StoreLast(s, caller, c), HandleOf(s, c));
    }
  }

  // ---- A run that ends with two owners ----

  /** Memory that a VM owns alone and can write to. */
  predicate OwnMode(m: Mode) {
    StateClear(m) && !m.d && m.r && m.w
  }

  const OWN := Mode(true, true, true, false, false, false, false)

  /** Two pages, of which VM 0 owns the second and VM 1 the first. `a` are the attributes of memory
      that a VM owns. */
  function TwoVms(a: Attrs): State {
    State([Ptable(0, [Absent, Block(a)]), Ptable(0, [Block(a), Absent])], seq(MAX_MEM_SHARES, _ => Unallocated), [7],
          0x1_0000_0000)
  }

  /** VM 0 lends both pages to VM 1, to be cleared first. */
  function LendBoth(clearFails: bool): Call {
    CallSend(Lend,
             Descriptor(0, 1, Permissions(ReadWrite, InstructionUnspecified), true, false, 0, CONSTITUENTS_OFFSET, 2),
             [Constituent(0, 1), Constituent(4096, 1)], clearFails)
  }

  ghost predicate OwnAttrs(a: Attrs, m: Mode) {
    OwnMode(m) && IsBlockAttrs(a) && ModeOf(a) == m && AttrsOf(m) == a && ModeOf(ABSENT_ATTRS) == ABSENT_MODE
      && AttrsOf(ABSENT_MODE) == ABSENT_ATTRS
  }

  lemma OwnedAttrs(m: Mode) returns (a: Attrs)
    requires OwnMode(m)
    ensures OwnAttrs(a, m)
  {
    a := AttrsOf(m);
    ModeOfAttrsOf(m);
    ModeOfAttrsOf(ABSENT_MODE);
  }

  lemma SmallLookup(t: Ptable, p: nat)
    requires ValidTable(t) && t.level == 0 && p < |t.root|
    ensures SpaceEnd(t) == |t.root| && p < SpaceEnd(t) && Lookup(t, p) == EntryAttrs(t.root[p])
  {
  }

  lemma TwoVmsModes(a: Attrs, m: Mode, v: nat, p: nat)
    requires OwnAttrs(a, m) && v < 2 && p < 2
    ensures ValidVms(TwoVms(a)) && NumPages(TwoVms(a)) == 2
            && ModeAt(TwoVms(a), v, p) == if v != p then m else ABSENT_MODE
    ensures p < SpaceEnd(TwoVms(a).vms[v]) && AttrsOf(ModeAt(TwoVms(a), v, p)) == Lookup(TwoVms(a).vms[v], p)
  {
    SmallLookup(TwoVms(a).vms[v], p);
    SmallLookup(TwoVms(a).vms[0], 0);
  }

  lemma TwoVmsTables(a: Attrs, m: Mode)
    requires OwnAttrs(a, m)
    ensures Tables(TwoVms(a))
  {
    var s := TwoVms(a);
    TwoVmsModes(a, m, 0, 0);
    forall v | 0 <= v < 2
      ensures SpaceEnd(s.vms[v]) == 2 && Moded(s.vms[v])
    {
      SmallLookup(s.vms[v], 0);
      forall p: nat | p < SpaceEnd(s.vms[v])
        ensures AttrsOf(ModeOf(Lookup(s.vms[v], p))) == Lookup(s.vms[v], p)
      {
        TwoVmsModes(a, m, v, p);
      }
    }
  }

  lemma TwoVmsInitial(a: Attrs, m: Mode)
    requires OwnAttrs(a, m)
    ensures Initial(TwoVms(a))
  {
    TwoVmsTables(a, m);
    TwoVmsModes(a, m, 0, 0);
    forall v: nat, p: nat | v < 2 && p < 2
      ensures ModeAt(TwoVms(a), v, p) == if v != p then m else ABSENT_MODE
    {
      TwoVmsModes(a, m, v, p);
    }
  }

  /** At level 0 every entry is a single page, and no walk needs a table. */
  lemma {:induction false} Level0Ok(es: seq<Entry>, j: nat, lo: nat, hi: nat, op: Op, commit: bool, pool: Pool)
    requires WfAll(es, 0) && WfOp(op) && j <= |es|
    ensures MapTable(es, j, 0, lo, hi, op, commit, pool).ok
    decreases |es| - j
  {
    if j < |es| {
      if Hit(j, 0, lo, hi) {
        var r := MapEntry(es[j], 0, ClipLo(lo, j, Size(0)), ClipHi(hi, j, Size(0)), op, commit, pool);
        Level0Ok(es[j := r.entry], j + 1, lo, hi, op, commit, r.pool);
      } else {
        Level0Ok(es, j + 1, lo, hi, op, commit, pool);
      }
    }
  }

  lemma {:induction false} Level0Maps(t: Ptable, cs: seq<Constituent>, op: Op, commit: bool, pool: Pool, limit: nat)
    requires ValidTable(t) && t.level == 0 && WfOp(op) && AllInPaRange(cs, limit)
    ensures RegionMap(t, cs, op, commit, pool, limit).ok
    decreases |cs|
  {
    if cs != [] {
      Level0Ok(t.root, 0, BeginPage(cs[0].address), EndPage(t, End(cs[0])), op, commit, pool);
      var r := MapIdentity(t, cs[0].address, End(cs[0]), op, commit, pool);
      Level0Maps(r.table, cs[1..], op, commit, r.pool, limit);
    }
  }

  predicate FitsOneMessage(d: Descriptor, fragment: seq<Constituent>) {
    d.offset + CONSTITUENT_SIZE * |fragment| <= HF_MAILBOX_SIZE
  }

  /** What it takes for VM 0 to lend memory in one call. */
  ghost predicate Lends(s: State, c: Call, m: Mode) {
    && ValidVms(s) && ValidShares(s) && |s.vms| == 2 && s.vms[0].level == 0 && s.pool != []
    && FirstFree(s.shares) == 0 < |s.shares|
    && c.CallSend? && c.func == Lend && Flat([c.fragment]) == c.fragment && |c.fragment| == c.desc.count
    && AllInPaRange(c.fragment, s.limit) && FitsOneMessage(c.desc, c.fragment) && c.desc.offset == CONSTITUENTS_OFFSET
    && c.desc.sender == 0 && c.desc.receiver == 1 && !c.desc.otherFlags
    && SendPermissionsValid(Lend, c.desc.permissions)
    && SendTransition(s.vms[0], Lend, c.desc.permissions, [c.fragment]) == Allowed(m, SentMode(Lend, m))
  }

  lemma LendsCommits(s: State, c: Call, m: Mode, s1: State)
    requires Lends(s, c, m) && Completes(s, 0, c) && s1 == StoreLast(s, 0, c)
    ensures Commits(s1, 0) && !RollbackPanics(s1, 0, c.clearFails) && s1.shares[0].func == Lend
    ensures s1.shares[0].fragments == [c.fragment] && s1.shares[0].desc == c.desc && s1.shares[0].retrieved == 0
    ensures SendCheck(s1.vms[0], s1.shares[0]) == Allowed(m, SentMode(Lend, m))
  {
    var t, cs, op := s.vms[0], c.fragment, OpOf(SentMode(Lend, m));
    assert WordAligned(CONSTITUENTS_OFFSET);
    Level0Maps(t, cs, op, false, s1.pool, s.limit);
    var p := RegionMap(t, cs, op, false, s1.pool, s.limit);
    var q := RegionMap(p.table, cs, op, true, p.pool, s.limit);
    Level0Maps(q.table, cs, OpOf(m), true, q.pool, s.limit);
  }

  lemma LendsCompletes(s: State, c: Call, m: Mode)
    requires Lends(s, c, m)
    ensures Completes(s, 0, c) && HandleOf(s, c) == 0
  {
  }

  predicate SentShare(sh: Share, func: ShareFunc, d: Descriptor, m: Mode) {
    sh.Share? && sh.func == func && sh.desc == d && sh.complete && sh.origMode == m && sh.retrieved == 0
  }

  /** The answer, and the share if nothing fails. */
  lemma LendsSends(s: State, c: Call, m: Mode, o: Outcome)
    requires Lends(s, c, m) && o == Step(s, 0, c)
    ensures if c.desc.clear && c.clearFails then o.status.Error?
            else o.status == Sent(0) && IsLive(o.state, 0) && SentShare(o.state.shares[0], Lend, c.desc, m)
  {
    LendsCompletes(s, c, m);
    var s1 := StoreLast(s, 0, c);
    LendsCommits(s, c, m, s1);
    StepCompletes(s, 0, c, s1, 0);
    if c.desc.clear && c.clearFails {
      CommitFails(s1, 0, o);
    } else {
      CommitSends(s1, 0, c.clearFails, o);
    }
  }

  lemma CommitFails(s: State, h: nat, o: Outcome)
    requires Commits(s, h) && s.shares[h].desc.clear && o == SendComplete(s, h, true)
    ensures o.status == Error(NoMemory)
  {
  }

  lemma TwoVmsTransition(a: Attrs, m: Mode, p: Permissions)
    requires OwnAttrs(a, m) && p == Permissions(ReadWrite, InstructionUnspecified)
    ensures ValidVms(TwoVms(a))
    ensures SendTransition(TwoVms(a).vms[0], Lend, p, [LendBoth(false).fragment]) == Allowed(m, SentMode(Lend, m))
  {
    TwoVmsModes(a, m, 0, 1);
    TwoPages(TwoVms(a).vms[0]);
  }

  lemma LendBothFacts(clearFails: bool)
    ensures var c := LendBoth(clearFails);
            && AllInPaRange(c.fragment, 0x1_0000_0000) && InPages(c.fragment, 0) && FitsOneMessage(c.desc, c.fragment)
            && Flat([c.fragment]) == c.fragment && |c.fragment| == c.desc.count
            && SendPermissionsValid(Lend, c.desc.permissions)
  {
    var c := LendBoth(clearFails);
    assert [c.fragment][1..] == [];
    assert FirstPage(c.fragment[0]) == 0 && EndPageOf(c.fragment[0]) == 1;
  }

  lemma LendsBoth(a: Attrs, m: Mode, s: State, clearFails: bool)
    requires OwnAttrs(a, m) && s == TwoVms(a)
    ensures Lends(s, LendBoth(clearFails), m)
  {
    TwoVmsTransition(a, m, LendBoth(clearFails).desc.permissions);
    LendBothFacts(clearFails);
  }

  ghost predicate TwoOwners(s: State, p: nat) {
    Owns(ModeAt(s, 0, p)) && Owns(ModeAt(s, 1, p))
  }

  /** From the start of the system, one call gives the first page two owners. */
  ghost predicate Breaks(s: State, clearFails: bool) {
    && Initial(s) && |s.vms| == 2 && ValidShares(s)
    && var o := Step(s, 0, LendBoth(clearFails));
       TwoOwners(o.state, 0) && if clearFails then o.status.Error? else o.status.Sent?
  }

  /** The second page is VM 0's own, and the first is not looked at again. After that one call the
      first page has two owners, if the memory could be cleared and the send succeeds, and also if it
      could not and the send is answered with an error. */
  lemma LendingBothBreaks(clearFails: bool)
    ensures exists s: State :: Breaks(s, clearFails)
  {
    var a := OwnedAttrs(OWN);
    var s := TwoVms(a);
    TwoVmsInitial(a, OWN);
    InitialInv(s);
    InvShares(s);
    LendBothOwns(a, OWN, s, clearFails, Step(s, 0, LendBoth(clearFails)));
    assert Breaks(s, clearFails);
  }

  lemma LendBothOwns(a: Attrs, m: Mode, s: State, clearFails: bool, o: Outcome)
    requires OwnAttrs(a, m) && s == TwoVms(a) && StateInv(s) && ValidShares(s) && o == Step(s, 0, LendBoth(clearFails))
    ensures TwoOwners(o.state, 0) && if clearFails then o.status.Error? else o.status.Sent?
  {
    LendsBoth(a, m, s, clearFails);
    LendBothFacts(clearFails);
    LendsSends(s, LendBoth(clearFails), m, o);
    TwoVmsModes(a, m, 1, 0);
    BothOwn(s, LendBoth(clearFails), m, o);
  }

  lemma BothOwn(s: State, c: Call, m: Mode, o: Outcome)
    requires StateInv(s) && NumPages(s) == 2 && Lends(s, c, m) && InPages(c.fragment, 0) && o == Step(s, 0, c)
    requires Owns(ModeAt(s, 1, 0))
    ensures TwoOwners(o.state, 0)
  {
    LendsCompletes(s, c, m);
    var s1 := StoreLast(s, 0, c);
    LendsCommits(s, c, m, s1);
    SecondOwner(s, 0, c, o, s1, 0, 1, 0);
  }
}
