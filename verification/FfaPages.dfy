/** What every memory sharing call does to the pages of the hypervisor: none is lost and none is
    freed twice, on any path through any call; only the share the call is about changes; and page
    tables stay defragmented. */
module FfaPages {
  import opened Collections
  import opened PageTree
  import opened MapLevel
  import opened Defrag
  import opened IdentityMap
  import opened Region
  import opened Ownership
  import opened FfaMemory

  /** The pages a share state holds: those of the descriptor and the fragments. */
  function Held(sh: Share): multiset<Page> {
    if sh.Share? then multiset(sh.pages) else multiset{}
  }

  function TablePages(s: State): seq<multiset<Page>> {
    seq(|s.vms|, v requires 0 <= v < |s.vms| => PagesAll(s.vms[v].root))
  }

  function SharePages(s: State): seq<multiset<Page>> {
    seq(|s.shares|, h requires 0 <= h < |s.shares| => Held(s.shares[h]))
  }

  /** All pages there are: free ones, page tables below the roots, and those of share states. */
  function Total(s: State): multiset<Page> {
    multiset(s.pool) + Sum(TablePages(s)) + Sum(SharePages(s))
  }

  ghost predicate Defragmented(t: Ptable) {
    ValidTable(t) && CanonicalAll(t.root, t.level)
  }

  /** What a call about share `h` keeps. */
  ghost predicate Keeping(s': State, s: State, h: nat) {
    && Total(s') == Total(s) && ValidVms(s') && ValidShares(s')
    && |s'.shares| == |s.shares| && |s'.vms| == |s.vms|
    && (forall g :: 0 <= g < |s.shares| && g != h ==> s'.shares[g] == s.shares[g])
    && (forall v :: 0 <= v < |s.vms| ==> StaysTidy(s'.vms[v], s.vms[v]))
  }

  /** The geometry of a page table does not change, and it stays defragmented. */
  ghost predicate StaysTidy(t': Ptable, t: Ptable) {
    t'.level == t.level && |t'.root| == |t.root| && (Defragmented(t) ==> Defragmented(t'))
  }

  lemma KeepingTrans(s: State, s1: State, s2: State, h: nat)
    requires Keeping(s1, s, h) && Keeping(s2, s1, h)
    ensures Keeping(s2, s, h)
  {
  }

  // ---- The two kinds of change ----

  lemma TableTotal(s: State, s': State, v: VmId, t: Ptable)
    requires v < |s.vms| && s'.vms == s.vms[v := t] && s'.shares == s.shares
    requires PagesAll(t.root) + multiset(s'.pool) == PagesAll(s.vms[v].root) + multiset(s.pool)
    ensures Total(s') == Total(s)
  {
    var ms := TablePages(s);
    assert TablePages(s') == ms[v := PagesAll(t.root)];
    assert SharePages(s') == SharePages(s);
    SumUpdate(ms, v, PagesAll(t.root));
    Balance(multiset(s.pool), multiset(s'.pool), PagesAll(s.vms[v].root), PagesAll(t.root), Sum(ms),
            Sum(TablePages(s')));
  }

  /** Pages move between the pool and one page table. */
  lemma TableChange(s: State, s': State, v: VmId, t: Ptable, h: nat)
    requires ValidVms(s) && ValidShares(s) && v < |s.vms| && Defragmented(t) && StaysTidy(t, s.vms[v])
    requires s'.vms == s.vms[v := t] && s'.shares == s.shares
    requires PagesAll(t.root) + multiset(s'.pool) == PagesAll(s.vms[v].root) + multiset(s.pool)
    ensures Keeping(s', s, h)
  {
    TableTotal(s, s', v, t);
  }

  lemma ShareTotal(s: State, s': State, h: nat, sh: Share)
    requires h < |s.shares| && s'.vms == s.vms && s'.shares == s.shares[h := sh]
    requires Held(sh) + multiset(s'.pool) == Held(s.shares[h]) + multiset(s.pool)
    ensures Total(s') == Total(s)
  {
    var ms := SharePages(s);
    assert SharePages(s') == ms[h := Held(sh)];
    assert TablePages(s') == TablePages(s);
    SumUpdate(ms, h, Held(sh));
    Balance(multiset(s.pool), multiset(s'.pool), Held(s.shares[h]), Held(sh), Sum(ms), Sum(SharePages(s')));
    assert Total(s') == multiset(s'.pool) + Sum(SharePages(s')) + Sum(TablePages(s));
  }

  /** Pages move between the pool and one share. */
  lemma ShareChange(s: State, s': State, h: nat, sh: Share)
    requires ValidVms(s) && ValidShares(s) && h < |s.shares| && s'.vms == s.vms && s'.shares == s.shares[h := sh]
    requires Held(sh) + multiset(s'.pool) == Held(s.shares[h]) + multiset(s.pool)
    requires sh.Share? ==>
               sh.desc.sender < |s.vms| && sh.desc.receiver < |s.vms| && ValidPermissions(sh.desc.permissions)
    ensures Keeping(s', s, h)
  {
    ShareTotal(s, s', h, sh);
    forall g | 0 <= g < |s'.shares| && s'.shares[g].Share?
      ensures && s'.shares[g].desc.sender < |s'.vms| && s'.shares[g].desc.receiver < |s'.vms|
              && ValidPermissions(s'.shares[g].desc.permissions)
    {
      if g != h {
        assert s'.shares[g] == s.shares[g];
      }
    }
    forall v | 0 <= v < |s.vms|
      ensures ValidTable(s'.vms[v]) && StaysTidy(s'.vms[v], s.vms[v])
    {
      assert s'.vms[v] == s.vms[v];
    }
  }

  lemma Same(s: State, h: nat)
    requires ValidVms(s) && ValidShares(s)
    ensures Keeping(s, s, h)
  {
  }

  lemma FreeKeeps(s: State, h: nat)
    requires ValidVms(s) && ValidShares(s) && IsLive(s, h)
    ensures Keeping(FreeShare(s, h), s, h)
  {
    ReversedConserves(s.shares[h].pages);
    ShareChange(s, FreeShare(s, h), h, Unallocated);
  }

  // ---- Updates lose no page, whether they succeed or not ----

  lemma {:induction false} RegionMapConserves(t: Ptable, cs: seq<Constituent>, op: Op, commit: bool, pool: Pool,
                                              limit: nat, r: MapResult)
    requires ValidTable(t) && WfOp(op) && r == RegionMap(t, cs, op, commit, pool, limit)
    ensures PagesAll(r.table.root) + multiset(r.pool) == PagesAll(t.root) + multiset(pool)
    decreases |cs|
  {
    if cs != [] && InPaRange(cs[0], limit) {
      var x := MapIdentity(t, cs[0].address, End(cs[0]), op, commit, pool);
      var lo, hi := BeginPage(cs[0].address), EndPage(t, End(cs[0]));
      MapTableConserves(t.root, 0, t.level, lo, hi, op, commit, pool,
                        MapTable(t.root, 0, t.level, lo, hi, op, commit, pool));
      if x.ok {
        RegionMapConserves(x.table, cs[1..], op, commit, x.pool, limit, r);
      }
    }
  }

  lemma GrowConserves(t: Ptable, cs: seq<Constituent>, op: Op, clearFails: bool, pool: Pool, limit: nat, r: MapResult)
    requires ValidTable(t) && WfOp(op) && r == GrowUpdate(t, cs, op, clearFails, pool, limit)
    ensures PagesAll(r.table.root) + multiset(r.pool) == PagesAll(t.root) + multiset(pool) && Defragmented(r.table)
  {
    var p := RegionMap(t, cs, op, false, pool, limit);
    RegionMapConserves(t, cs, op, false, pool, limit, p);
    if !p.ok || clearFails {
      TidySpec(false, p.table, p.pool);
    } else {
      var c := RegionMap(p.table, cs, op, true, p.pool, limit);
      RegionMapConserves(p.table, cs, op, true, p.pool, limit, c);
      TidySpec(true, c.table, c.pool);
    }
  }

  lemma ShrinkConserves(t: Ptable, cs: seq<Constituent>, op: Op, back: Op, clearFails: bool, pool: Pool, limit: nat,
                        r: MapResult)
    requires ValidTable(t) && WfOp(op) && WfOp(back) && r == ShrinkUpdate(t, cs, op, back, clearFails, pool, limit)
    ensures PagesAll(r.table.root) + multiset(r.pool) == PagesAll(t.root) + multiset(pool) && Defragmented(r.table)
  {
    var p := RegionMap(t, cs, op, false, pool, limit);
    RegionMapConserves(t, cs, op, false, pool, limit, p);
    if !p.ok {
      TidySpec(false, p.table, p.pool);
    } else {
      var c := RegionMap(p.table, cs, op, true, p.pool, limit);
      RegionMapConserves(p.table, cs, op, true, p.pool, limit, c);
      if !clearFails {
        FinishConserves(c.pool, |p.pool|);
        TidySpec(true, c.table, FinishLocal(c.pool, |p.pool|));
      } else {
        var b := RegionMap(c.table, cs, back, true, c.pool, limit);
        RegionMapConserves(c.table, cs, back, true, c.pool, limit, b);
        FinishConserves(b.pool, |p.pool|);
        TidySpec(false, b.table, FinishLocal(b.pool, |p.pool|));
      }
    }
  }

  // ---- Every call ----

  lemma SendCompleteKeeps(s: State, h: nat, clearFails: bool)
    requires ValidVms(s) && ValidShares(s) && IsLive(s, h)
    ensures Keeping(SendComplete(s, h, clearFails).state, s, h)
  {
    var sh := s.shares[h];
    var v := sh.desc.sender;
    var tr := SendCheck(s.vms[v], sh);
    if tr.Refused? {
      FreeKeeps(s, h);
    } else {
      var fails := sh.desc.clear && clearFails;
      var r := ShrinkUpdate(s.vms[v], Flat(sh.fragments), OpOf(tr.next), OpOf(tr.orig), fails, s.pool, s.limit);
      ShrinkConserves(s.vms[v], Flat(sh.fragments), OpOf(tr.next), OpOf(tr.orig), fails, s.pool, s.limit, r);
      var s1 := s.(vms := s.vms[v := r.table], pool := r.pool);
      TableChange(s, s1, v, r.table, h);
      var s2 := SendComplete(s, h, clearFails).state;
      if r.ok {
        ShareChange(s1, s2, h, sh.(complete := true, origMode := tr.orig));
      } else {
        FreeKeeps(s1, h);
      }
      KeepingTrans(s, s1, s2, h);
    }
  }

  lemma SendKeeps(s: State, caller: VmId, func: ShareFunc, d: Descriptor, fragment: seq<Constituent>, clearFails: bool)
    requires ValidVms(s) && ValidShares(s) && caller < |s.vms|
    ensures Keeping(Send(s, caller, func, d, fragment, clearFails).state, s, FirstFree(s.shares))
  {
    var h := FirstFree(s.shares);
    var s' := Send(s, caller, func, d, fragment, clearFails).state;
    Same(s, h);
    if s' != s {
      var sh := Share(func, StoredDescriptor(func, d), [fragment], [s.pool[0]], false, Stage2Pte.ABSENT_MODE, 0);
      var s1 := s.(shares := s.shares[h := sh], pool := s.pool[1..]);
      PopConserves(s.pool);
      ShareChange(s, s1, h, sh);
      if |fragment| == d.count {
        SendCompleteKeeps(s1, h, clearFails);
        KeepingTrans(s, s1, s', h);
      }
    }
  }

  lemma SendFragmentKeeps(s: State, caller: VmId, h: nat, fragment: seq<Constituent>, clearFails: bool)
    requires ValidVms(s) && ValidShares(s) && caller < |s.vms|
    ensures Keeping(SendFragment(s, caller, h, fragment, clearFails).state, s, h)
  {
    var s' := SendFragment(s, caller, h, fragment, clearFails).state;
    Same(s, h);
    if s' != s {
      var sh := s.shares[h];
      PopConserves(s.pool);
      if |sh.fragments| == MAX_FRAGMENTS {
        ReversedConserves(sh.pages);
        ShareChange(s, s', h, Unallocated);
      } else {
        var sh' := sh.(fragments := sh.fragments + [fragment], pages := sh.pages + [s.pool[0]]);
        var s1 := s.(pool := s.pool[1..], shares := s.shares[h := sh']);
        ShareChange(s, s1, h, sh');
        if |Flat(sh'.fragments)| == sh.desc.count {
          SendCompleteKeeps(s1, h, clearFails);
          KeepingTrans(s, s1, s', h);
        }
      }
    }
  }

  lemma AfterRetrievingKeeps(s: State, s1: State, h: nat)
    requires Keeping(s1, s, h) && IsLive(s1, h)
    ensures Keeping(AfterRetrieving(s1, h), s, h)
  {
    if AfterRetrieving(s1, h) != s1 {
      FreeKeeps(s1, h);
      KeepingTrans(s, s1, FreeShare(s1, h), h);
    }
  }

  lemma TakeKeeps(s: State, s1: State, caller: VmId, h: nat, op: Op, r: MapResult)
    requires ValidVms(s) && ValidShares(s) && caller < |s.vms| && IsLive(s, h) && WfOp(op)
    requires r == GrowUpdate(s.vms[caller], Flat(s.shares[h].fragments), op, false, s.pool, s.limit)
    requires s1 == s.(vms := s.vms[caller := r.table], pool := r.pool)
    ensures Keeping(s1, s, h)
    ensures Keeping(AfterRetrieving(s1.(shares := s1.shares[h := s.shares[h].(retrieved := 1)]), h), s, h)
  {
    var sh := s.shares[h];
    GrowConserves(s.vms[caller], Flat(sh.fragments), op, false, s.pool, s.limit, r);
    TableChange(s, s1, caller, r.table, h);
    var s2 := s1.(shares := s1.shares[h := sh.(retrieved := 1)]);
    ShareChange(s1, s2, h, sh.(retrieved := 1));
    KeepingTrans(s, s1, s2, h);
    AfterRetrievingKeeps(s, s2, h);
  }

  lemma RetrieveKeeps(s: State, caller: VmId, q: Request, o: Outcome)
    requires ValidVms(s) && ValidShares(s) && caller < |s.vms| && o == Retrieve(s, caller, q)
    ensures Keeping(o.state, s, q.handle)
  {
    var h := q.handle;
    var a := RetrieveAccess(s, caller, q);
    if a.NoAccess? || RetrieveCheck(s.vms[caller], s.shares[h], a.mode).Refused? {
      Same(s, h);
    } else {
      var sh := s.shares[h];
      var op := OpOf(RetrievedMode(sh.func, a.mode));
      var r := GrowUpdate(s.vms[caller], Flat(sh.fragments), op, false, s.pool, s.limit);
      var s1 := s.(vms := s.vms[caller := r.table], pool := r.pool);
      TakeKeeps(s, s1, caller, h, op, r);
      if r.ok {
        assert o.state == AfterRetrieving(s1.(shares := s1.shares[h := sh.(retrieved := 1)]), h);
      } else {
        assert o.state == s1;
      }
    }
  }

  lemma RetrieveFragmentKeeps(s: State, caller: VmId, h: nat, offset: nat, o: Outcome)
    requires ValidVms(s) && ValidShares(s) && o == RetrieveFragment(s, caller, h, offset)
    ensures Keeping(o.state, s, h)
  {
    Same(s, h);
    if o.status.Received? {
      var sh := s.shares[h];
      var s1 := s.(shares := s.shares[h := sh.(retrieved := sh.retrieved + 1)]);
      ShareChange(s, s1, h, sh.(retrieved := sh.retrieved + 1));
      AfterRetrievingKeeps(s, s1, h);
      assert o.state == AfterRetrieving(s1, h);
    } else {
      assert o.state == s;
    }
  }

  lemma RelinquishKeeps(s: State, caller: VmId, h: nat, clear: bool, clearFails: bool)
    requires ValidVms(s) && ValidShares(s) && caller < |s.vms|
    ensures Keeping(Relinquish(s, caller, h, clear, clearFails).state, s, h)
  {
    var s' := Relinquish(s, caller, h, clear, clearFails).state;
    Same(s, h);
    if s' != s {
      var sh := s.shares[h];
      var t := s.vms[caller];
      var tr := RelinquishTransition(t, sh.fragments);
      var fails := clear && clearFails;
      var r := ShrinkUpdate(t, Flat(sh.fragments), OpOf(tr.next), OpOf(tr.orig), fails, s.pool, s.limit);
      ShrinkConserves(t, Flat(sh.fragments), OpOf(tr.next), OpOf(tr.orig), fails, s.pool, s.limit, r);
      var s1 := s.(vms := s.vms[caller := r.table], pool := r.pool);
      TableChange(s, s1, caller, r.table, h);
      if r.ok {
        ShareChange(s1, s', h, sh.(retrieved := 0));
        KeepingTrans(s, s1, s', h);
      }
    }
  }

  lemma ReclaimKeeps(s: State, caller: VmId, h: nat, clear: bool, clearFails: bool)
    requires ValidVms(s) && ValidShares(s) && caller < |s.vms|
    ensures Keeping(Reclaim(s, caller, h, clear, clearFails).state, s, h)
  {
    Same(s, h);
    if IsLive(s, h) {
      var sh := s.shares[h];
      var fails := clear && clearFails;
      var r := GrowUpdate(s.vms[caller], Flat(sh.fragments), OpOf(sh.origMode), fails, s.pool, s.limit);
      GrowConserves(s.vms[caller], Flat(sh.fragments), OpOf(sh.origMode), fails, s.pool, s.limit, r);
      GrownKeeps(s, s.(vms := s.vms[caller := r.table], pool := r.pool), caller, h, r);
      ReclaimShape(s, caller, h, clear, clearFails, r);
    }
  }

  lemma ReclaimShape(s: State, caller: VmId, h: nat, clear: bool, clearFails: bool, r: MapResult)
    requires ValidVms(s) && ValidShares(s) && caller < |s.vms| && IsLive(s, h)
    requires r == GrowUpdate(s.vms[caller], Flat(s.shares[h].fragments), OpOf(s.shares[h].origMode),
                             clear && clearFails,
                             s.pool, s.limit)
    ensures var s' := Reclaim(s, caller, h, clear, clearFails).state;
            var s1 := s.(vms := s.vms[caller := r.table], pool := r.pool);
            s' == s || s' == s1 || s' == FreeShare(s1, h)
  {
  }

  lemma GrownKeeps(s: State, s1: State, v: VmId, h: nat, r: MapResult)
    requires ValidVms(s) && ValidShares(s) && v < |s.vms| && IsLive(s, h) && ValidTable(r.table)
    requires r.table.level == s.vms[v].level && |r.table.root| == |s.vms[v].root|
    requires PagesAll(r.table.root) + multiset(r.pool) == PagesAll(s.vms[v].root) + multiset(s.pool)
    requires Defragmented(r.table)
    requires s1 == s.(vms := s.vms[v := r.table], pool := r.pool)
    ensures Keeping(s1, s, h) && Keeping(FreeShare(s1, h), s, h)
  {
    TableChange(s, s1, v, r.table, h);
    FreeKeeps(s1, h);
    KeepingTrans(s, s1, FreeShare(s1, h), h);
  }

  /** No call on any path loses a page, frees one twice, or changes a share it is not about. */
  lemma StepKeeps(s: State, caller: VmId, c: Call)
    requires ValidVms(s) && ValidShares(s) && caller < |s.vms|
    ensures Keeping(Step(s, caller, c).state, s, HandleOf(s, c))
  {
    match c {
      case CallSend(func, d, fragment, clearFails) => SendKeeps(s, caller, func, d, fragment, clearFails);
      case CallSendFragment(h, fragment, clearFails) => SendFragmentKeeps(s, caller, h, fragment, clearFails);
      case CallRetrieve(q) => RetrieveKeeps(s, caller, q, Retrieve(s, caller, q));
      case CallRetrieveFragment(h, offset) =>
        RetrieveFragmentKeeps(s, caller, h, offset, RetrieveFragment(s, caller, h, offset));
      case CallRelinquish(h, clear, clearFails) => RelinquishKeeps(s, caller, h, clear, clearFails);
      case CallReclaim(h, clear, clearFails) => ReclaimKeeps(s, caller, h, clear, clearFails);
    }
  }

  // ---- Runs ----

  datatype Event = Event(caller: VmId, call: Call)

  /** The state after any sequence of calls by VMs. */
  ghost function RunAll(s: State, events: seq<Event>): (s': State)
    requires ValidVms(s) && ValidShares(s) && forall e :: e in events ==> e.caller < |s.vms|
    ensures ValidVms(s') && ValidShares(s') && Total(s') == Total(s)
    decreases |events|
  {
    if events == [] then s
    else
      StepKeeps(s, events[0].caller, events[0].call);
      RunAll(Step(s, events[0].caller, events[0].call).state, events[1..])
  }

  /** Where a page can be. */
  datatype Place = Free | InTable(vm: nat) | InShare(handle: nat)

  function Count(s: State, place: Place, p: Page): nat {
    match place
    case Free => multiset(s.pool)[p]
    case InTable(v) => if v < |s.vms| then PagesAll(s.vms[v].root)[p] else 0
    case InShare(h) => if h < |s.shares| then Held(s.shares[h])[p] else 0
  }

  /** Two places together hold no more of a page than there is. */
  lemma TwoPlaces(s: State, a: Place, b: Place, p: Page)
    requires a != b
    ensures Count(s, a, p) + Count(s, b, p) <= Total(s)[p]
  {
    PlaceBound(s, a, p);
    PlaceBound(s, b, p);
    if a.InTable? && b.InTable? && a.vm < |s.vms| && b.vm < |s.vms| {
      SumPair(TablePages(s), if a.vm < b.vm then a.vm else b.vm, if a.vm < b.vm then b.vm else a.vm, p);
    } else if a.InShare? && b.InShare? && a.handle < |s.shares| && b.handle < |s.shares| {
      SumPair(SharePages(s), if a.handle < b.handle then a.handle else b.handle,
              if a.handle < b.handle then b.handle else a.handle, p);
    }
  }

  lemma PlaceBound(s: State, a: Place, p: Page)
    ensures a.InTable? ==> Count(s, a, p) <= Sum(TablePages(s))[p]
    ensures a.InShare? ==> Count(s, a, p) <= Sum(SharePages(s))[p]
  {
    if a.InTable? && a.vm < |s.vms| {
      SumBound(TablePages(s), a.vm, p);
    } else if a.InShare? && a.handle < |s.shares| {
      SumBound(SharePages(s), a.handle, p);
    }
  }

  lemma SomePlace(s: State, p: Page) returns (a: Place)
    requires Total(s)[p] > 0
    ensures Count(s, a, p) > 0
  {
    if multiset(s.pool)[p] > 0 {
      a := Free;
    } else if Sum(TablePages(s))[p] > 0 {
      var v := SumHas(TablePages(s), p);
      a := InTable(v);
    } else {
      var h := SumHas(SharePages(s), p);
      a := InShare(h);
    }
  }

  /** The page is in one place, once, and nowhere else. */
  ghost predicate InOnePlace(s: State, p: Page) {
    exists a :: Count(s, a, p) == 1 && forall b :: b != a ==> Count(s, b, p) == 0
  }

  /** After any sequence of calls there are the same pages as before, and a page that was there
      once is in exactly one place. */
  lemma PagesAreConserved(s: State, events: seq<Event>, p: Page)
    requires ValidVms(s) && ValidShares(s) && forall e :: e in events ==> e.caller < |s.vms|
    requires Total(s)[p] == 1
    ensures InOnePlace(RunAll(s, events), p)
  {
    OnePlace(RunAll(s, events), p);
  }

  lemma OnePlace(s: State, p: Page)
    requires Total(s)[p] == 1
    ensures InOnePlace(s, p)
  {
    var a := SomePlace(s, p);
    var other := if a == Free then InTable(0) else Free;
    TwoPlaces(s, a, other, p);
    forall b | b != a
      ensures Count(s, b, p) == 0
    {
      TwoPlaces(s, a, b, p);
    }
  }
}
