/** Exactly when each memory sharing call succeeds, and what it does to memory when it does. The
    conditions are written out in terms of the share state, the request and the modes of the memory. */
module FfaAnswers {
  import opened MapLevel
  import opened IdentityMap
  import opened Stage2Pte
  import opened Region
  import opened RegionMode
  import opened Ownership
  import opened FfaMemory
  import opened FfaOwnership
  import opened FfaMixed

  /** The memory of all VMs is as in `s`, except that the pages of the constituents are in mode `m` in
      VM `v`. */
  ghost predicate Becomes(s': State, s: State, v: VmId, cs: seq<Constituent>, m: Mode) {
    |s'.vms| == |s.vms| && NumPages(s') == NumPages(s) && forall u: nat, p: nat :: u < |s.vms| && p < NumPages(s) ==>
      ModeAt(s', u, p) == if u == v && InPages(cs, p) then m else ModeAt(s, u, p)
  }

  ghost predicate SameModes(s': State, s: State) {
    |s'.vms| == |s.vms| && NumPages(s') == NumPages(s)
    && forall u: nat, p: nat :: u < |s.vms| && p < NumPages(s) ==> ModeAt(s', u, p) == ModeAt(s, u, p)
  }

  /** An update of one VM's table, in modes. */
  lemma UpdateBecomes(s: State, s': State, v: VmId, cs: seq<Constituent>, m: Mode, r: MapResult)
    requires Tables(s) && v < |s.vms| && ValidTable(r.table) && UpdateSpec(r, s.vms[v], cs, OpOf(m), s.pool)
    requires ValidRegion(cs, NumPages(s)) && s'.vms == s.vms[v := r.table] && |s'.shares| == |s.shares|
    ensures if r.ok then Becomes(s', s, v, cs, Stored(m)) else SameModes(s', s)
  {
    UpdateMemory(s, s', v, cs, m, r);
    if r.ok {
      ViewBecomes(s, s', v, cs, Stored(m));
    } else {
      ViewSame(s, s');
    }
  }

  lemma ViewSame(s: State, s': State)
    requires NumPages(s') == NumPages(s) && Unchanged(ViewOf(s'), ViewOf(s))
    ensures SameModes(s', s)
  {
    forall u: nat, p: nat | u < |s.vms| && p < NumPages(s)
      ensures ModeAt(s', u, p) == ModeAt(s, u, p)
    {
      assert ViewOf(s').mode(u, p) == ModeAt(s', u, p) && ViewOf(s).mode(u, p) == ModeAt(s, u, p);
    }
  }

  lemma ViewBecomes(s: State, s': State, v: VmId, cs: seq<Constituent>, m: Mode)
    requires NumPages(s') == NumPages(s) && Changed(ViewOf(s'), ViewOf(s), v, PagesOf(cs, NumPages(s)), m)
    ensures Becomes(s', s, v, cs, m)
  {
    forall u: nat, p: nat | u < |s.vms| && p < NumPages(s)
      ensures ModeAt(s', u, p) == if u == v && InPages(cs, p) then m else ModeAt(s, u, p)
    {
      assert ViewOf(s').mode(u, p) == ModeAt(s', u, p) && ViewOf(s).mode(u, p) == ModeAt(s, u, p);
      assert p in PagesOf(cs, NumPages(s)) <==> InPages(cs, p);
    }
  }

  lemma GrowOk(t: Ptable, cs: seq<Constituent>, op: Op, clearFails: bool, pool: Pool, limit: nat)
    requires ValidTable(t) && WfOp(op)
    ensures GrowUpdate(t, cs, op, clearFails, pool, limit).ok <==>
            RegionMap(t, cs, op, false, pool, limit).ok && !clearFails
  {
  }

  lemma ShrinkOkIff(t: Ptable, cs: seq<Constituent>, op: Op, back: Op, clearFails: bool, pool: Pool, limit: nat)
    requires ValidTable(t) && WfOp(op) && WfOp(back)
    ensures ShrinkUpdate(t, cs, op, back, clearFails, pool, limit).ok <==>
            RegionMap(t, cs, op, false, pool, limit).ok && !clearFails
  {
  }

  // ---- Retrieve ----

  /** The receiver may write, and execute: neither side has ruled it out. */
  predicate Writes(sh: Share, wanted: Permissions)
    requires sh.Share?
  {
    sh.desc.permissions.data != ReadOnly && wanted.data != ReadOnly
  }

  predicate Executes(sh: Share, wanted: Permissions)
    requires sh.Share?
  {
    sh.desc.permissions.instruction != NotExecutable && wanted.instruction != NotExecutable
  }

  /** What a retrieve request has to be for the share: for the receiver, of the same transaction, not for
      more access than was sent, and with clearing only where it was announced and can be done. */
  predicate Accepts(sh: Share, caller: VmId, q: Request)
    requires sh.Share?
  {
    && sh.complete && sh.retrieved == 0
    && sh.desc.receiver == caller && q.receiver == caller && q.sender == sh.desc.sender && q.tag == sh.desc.tag
    && (q.func.Expected? ==> q.func.func == sh.func) && q.flagsValid
    && (sh.func == ShareMemory ==> !q.clear && !q.clearRelinquish)
    && (q.clear ==> sh.desc.clear && Writes(sh, q.permissions))
    && q.permissions.data != DataReserved && q.permissions.instruction != InstructionReserved
    && !(q.permissions.data == ReadWrite && sh.desc.permissions.data == ReadOnly)
    && !(q.permissions.instruction == Executable && sh.desc.permissions.instruction == NotExecutable)
  }

  /** The mode in which the receiver gets the memory. */
  function GivenMode(sh: Share, wanted: Permissions): Mode
    requires sh.Share?
  {
    Mode(true, Writes(sh, wanted), Executes(sh, wanted), false, false, sh.func != Donate, sh.func == ShareMemory)
  }

  /** Exactly which requests are given access, and which access. */
  lemma AccessExact(s: State, caller: VmId, q: Request)
    requires IsLive(s, q.handle) && ValidPermissions(s.shares[q.handle].desc.permissions)
    ensures var sh, a := s.shares[q.handle], RetrieveAccess(s, caller, q);
            && (a.Access? <==> Accepts(sh, caller, q))
            && (a.Access? ==> a.mode.r && (a.mode.w <==> Writes(sh, q.permissions))
                              && (a.mode.x <==> Executes(sh, q.permissions))
                              && RetrievedMode(sh.func, a.mode) == GivenMode(sh, q.permissions))
  {
  }

  /** There is memory for the tables that giving the region takes. */
  predicate HasRoom(s: State, v: VmId, sh: Share, m: Mode)
    requires ValidVms(s) && v < |s.vms| && sh.Share?
  {
    RegionMap(s.vms[v], Flat(sh.fragments), OpOf(m), false, s.pool, s.limit).ok
  }

  /** A retrieve succeeds exactly when the request is acceptable and there is memory for page tables.
      Then every page of the region is readable in the receiver, writable and executable exactly if
      neither side ruled it out, and nothing else changes. Otherwise no memory changes. */
  ghost predicate Retrieves(s: State, caller: VmId, q: Request, s': State, status: Status)
    requires ValidVms(s) && caller < |s.vms|
  {
    && (status.Received? <==>
        && IsLive(s, q.handle) && Accepts(s.shares[q.handle], caller, q)
        && s.shares[q.handle].desc.offset % 8 == 0
        && HasRoom(s, caller, s.shares[q.handle], GivenMode(s.shares[q.handle], q.permissions)))
    && if status.Received? then
         var sh := s.shares[q.handle];
         && Becomes(s', s, caller, Flat(sh.fragments), GivenMode(sh, q.permissions))
         && sh.fragments != [] && status == Received(sh.fragments[0])
         && s'.shares == s.shares[q.handle := if sh.func == Donate && |sh.fragments| == 1 then Unallocated
                                              else sh.(retrieved := 1)]
       else
         status.Error? && SameModes(s', s) && s'.shares == s.shares
  }

  lemma RetrieveAnswers(s: State, caller: VmId, q: Request, o: Outcome)
    requires StateInv(s) && caller < |s.vms| && ValidShares(s) && o == Retrieve(s, caller, q)
    ensures Retrieves(s, caller, q, o.state, o.status)
  {
    if IsLive(s, q.handle) {
      var sh := s.shares[q.handle];
      assert ShareInv(sh, |s.vms|, NumPages(s));
      AccessExact(s, caller, q);
      if Accepts(sh, caller, q) && WordAligned(sh.desc.offset) {
        RetrieveGives(s, caller, q, o, GivenMode(sh, q.permissions));
      }
    }
  }

  lemma RetrieveGives(s: State, caller: VmId, q: Request, o: Outcome, m: Mode)
    requires StateInv(s) && caller < |s.vms| && ValidShares(s) && o == Retrieve(s, caller, q) && IsLive(s, q.handle)
    requires Accepts(s.shares[q.handle], caller, q) && WordAligned(s.shares[q.handle].desc.offset)
    requires m == GivenMode(s.shares[q.handle], q.permissions)
    ensures Retrieves(s, caller, q, o.state, o.status)
  {
    var h := q.handle;
    var sh, cs := s.shares[h], Flat(s.shares[h].fragments);
    assert ShareInv(sh, |s.vms|, NumPages(s));
    AccessExact(s, caller, q);
    ReceiverRegion(s, h);
    var r := GrowUpdate(s.vms[caller], cs, OpOf(m), false, s.pool, s.limit);
    GrowOk(s.vms[caller], cs, OpOf(m), false, s.pool, s.limit);
    GrowUpdateSpec(s.vms[caller], cs, OpOf(m), false, s.pool, s.limit);
    RetrieveIs(s, caller, q, o, m, r);
    UpdateBecomes(s, o.state, caller, cs, m, r);
  }

  lemma RetrieveIs(s: State, caller: VmId, q: Request, o: Outcome, m: Mode, r: MapResult)
    requires ValidVms(s) && ValidShares(s) && caller < |s.vms| && IsLive(s, q.handle) && o == Retrieve(s, caller, q)
    requires WordAligned(s.shares[q.handle].desc.offset) && s.shares[q.handle].fragments != []
    requires RegionModeOf(s.vms[caller], s.shares[q.handle].fragments) == Found(ABSENT_MODE)
    requires var a := RetrieveAccess(s, caller, q); a.Access? && RetrievedMode(s.shares[q.handle].func, a.mode) == m
    requires r == GrowUpdate(s.vms[caller], Flat(s.shares[q.handle].fragments), OpOf(m), false, s.pool, s.limit)
    ensures o.state.vms == s.vms[caller := r.table] && |o.state.shares| == |s.shares|
    ensures if r.ok then
              var sh := s.shares[q.handle];
              && o.status == Received(sh.fragments[0])
              && o.state.shares == s.shares[q.handle := if sh.func == Donate && |sh.fragments| == 1 then Unallocated
                                                        else sh.(retrieved := 1)]
            else
              o.status == Error(NoMemory) && o.state.shares == s.shares
  {
  }

  /** A further fragment is handed out exactly when it is the next one, is asked for at its offset, and the
      first one was handed out. */
  lemma RetrieveMoreAnswers(s: State, caller: VmId, h: nat, offset: nat, o: Outcome)
    requires o == RetrieveFragment(s, caller, h, offset)
    ensures o.status.Received? <==>
            && IsLive(s, h) && s.shares[h].complete && s.shares[h].desc.receiver == caller
            && 0 < s.shares[h].retrieved < |s.shares[h].fragments|
            && offset == s.shares[h].desc.offset + 16 * |Flat(s.shares[h].fragments[..s.shares[h].retrieved])|
    ensures if o.status.Received? then
              var sh := s.shares[h];
              && o.status == Received(sh.fragments[sh.retrieved]) && o.state.vms == s.vms
              && o.state.shares ==
                 s.shares[h := if sh.func == Donate && |sh.fragments| == sh.retrieved + 1 then Unallocated
                               else sh.(retrieved := sh.retrieved + 1)]
            else
              o.status.Error? && o.state == s
  {
  }

  // ---- Relinquish ----

  predicate Relinquishes(sh: Share, caller: VmId, clear: bool)
    requires sh.Share?
  {
    && sh.complete && sh.desc.receiver == caller && sh.retrieved == |sh.fragments|
    && !(clear && sh.func == ShareMemory)
  }

  /** A relinquish succeeds exactly when the caller is the receiver and has retrieved all of the region,
      does not ask for shared memory to be cleared, clearing does not fail, and there is memory for page
      tables. Then the region is gone from the receiver and can be retrieved again. */
  ghost predicate Returns(s: State, caller: VmId, h: nat, clear: bool, clearFails: bool, s': State, status: Status)
    requires ValidVms(s) && caller < |s.vms|
  {
    && (status == Completed <==>
        && IsLive(s, h) && Relinquishes(s.shares[h], caller, clear) && !(clear && clearFails)
        && HasRoom(s, caller, s.shares[h], ABSENT_MODE))
    && if status == Completed then
         && Becomes(s', s, caller, Flat(s.shares[h].fragments), ABSENT_MODE)
         && s'.shares == s.shares[h := s.shares[h].(retrieved := 0)]
       else
         status.Error? && SameModes(s', s) && s'.shares == s.shares
  }

  lemma RelinquishAnswers(s: State, caller: VmId, h: nat, clear: bool, clearFails: bool, o: Outcome)
    requires StateInv(s) && caller < |s.vms| && ValidShares(s) && o == Relinquish(s, caller, h, clear, clearFails)
    ensures Returns(s, caller, h, clear, clearFails, o.state, o.status)
  {
    if IsLive(s, h) && Relinquishes(s.shares[h], caller, clear) {
      var sh, cs := s.shares[h], Flat(s.shares[h].fragments);
      assert ShareInv(sh, |s.vms|, NumPages(s));
      var m := BorrowerRegion(s, h);
      var next := m.(invalid := true, unowned := true, shared := false);
      assert OpOf(next) == Unmap == OpOf(ABSENT_MODE);
      RegionFacts(s, caller, sh.fragments, m);
      var fails := clear && clearFails;
      var r := ShrinkUpdate(s.vms[caller], cs, OpOf(next), OpOf(m), fails, s.pool, s.limit);
      ShrinkOkIff(s.vms[caller], cs, OpOf(next), OpOf(m), fails, s.pool, s.limit);
      ShrinkUpdateSpec(s.vms[caller], cs, OpOf(next), OpOf(m), fails, s.pool, s.limit);
      RelinquishIs(s, caller, h, clear, clearFails, o, m, r);
      UpdateBecomes(s, o.state, caller, cs, ABSENT_MODE, r);
    }
  }

  lemma RelinquishIs(s: State, caller: VmId, h: nat, clear: bool, clearFails: bool, o: Outcome, m: Mode, r: MapResult)
    requires ValidVms(s) && caller < |s.vms| && IsLive(s, h) && o == Relinquish(s, caller, h, clear, clearFails)
    requires Relinquishes(s.shares[h], caller, clear) && !m.d && !m.invalid && m.unowned
    requires RegionModeOf(s.vms[caller], s.shares[h].fragments) == Found(m)
    requires r == ShrinkUpdate(s.vms[caller], Flat(s.shares[h].fragments),
                               OpOf(m.(invalid := true, unowned := true, shared := false)), OpOf(m),
                               clear && clearFails, s.pool, s.limit)
    ensures o.state.vms == s.vms[caller := r.table]
    ensures if r.ok then o.status == Completed && o.state.shares == s.shares[h := s.shares[h].(retrieved := 0)]
            else o.status == Error(NoMemory) && o.state.shares == s.shares
  {
  }

  // ---- Reclaim ----

  predicate Reclaims(sh: Share, caller: VmId)
    requires sh.Share?
  {
    sh.complete && sh.desc.sender == caller && sh.retrieved == 0 && sh.desc.offset % 8 == 0
  }

  /** A reclaim succeeds exactly when the caller is the sender, nobody has the memory, clearing does not
      fail, and there is memory for page tables. Then the region is in the mode that the send found, and
      the share state is free. */
  ghost predicate TakesBack(s: State, caller: VmId, h: nat, clear: bool, clearFails: bool, s': State, status: Status)
    requires ValidVms(s) && caller < |s.vms|
  {
    && (status == Completed <==>
        && IsLive(s, h) && Reclaims(s.shares[h], caller) && !(clear && clearFails)
        && HasRoom(s, caller, s.shares[h], s.shares[h].origMode))
    && if status == Completed then
         && Becomes(s', s, caller, Flat(s.shares[h].fragments), s.shares[h].origMode)
         && s'.shares == s.shares[h := Unallocated]
       else
         status.Error? && SameModes(s', s) && s'.shares == s.shares
  }

  lemma ReclaimAnswers(s: State, caller: VmId, h: nat, clear: bool, clearFails: bool, o: Outcome)
    requires StateInv(s) && caller < |s.vms| && ValidShares(s) && o == Reclaim(s, caller, h, clear, clearFails)
    ensures TakesBack(s, caller, h, clear, clearFails, o.state, o.status)
  {
    if IsLive(s, h) && Reclaims(s.shares[h], caller) {
      var sh, cs := s.shares[h], Flat(s.shares[h].fragments);
      assert ShareInv(sh, |s.vms|, NumPages(s));
      SenderRegion(s, h);
      var fails := clear && clearFails;
      var r := GrowUpdate(s.vms[caller], cs, OpOf(sh.origMode), fails, s.pool, s.limit);
      GrowOk(s.vms[caller], cs, OpOf(sh.origMode), fails, s.pool, s.limit);
      GrowUpdateSpec(s.vms[caller], cs, OpOf(sh.origMode), fails, s.pool, s.limit);
      ReclaimIs(s, caller, h, clear, clearFails, o, r);
      UpdateBecomes(s, o.state, caller, cs, sh.origMode, r);
    }
  }

  lemma ReclaimIs(s: State, caller: VmId, h: nat, clear: bool, clearFails: bool, o: Outcome, r: MapResult)
    requires ValidVms(s) && caller < |s.vms| && IsLive(s, h) && o == Reclaim(s, caller, h, clear, clearFails)
    requires Reclaims(s.shares[h], caller) && RegionModeOf(s.vms[caller], s.shares[h].fragments).Found?
    requires r == GrowUpdate(s.vms[caller], Flat(s.shares[h].fragments), OpOf(s.shares[h].origMode),
                             clear && clearFails, s.pool, s.limit)
    ensures o.state.vms == s.vms[caller := r.table]
    ensures if r.ok then o.status == Completed && o.state.shares == s.shares[h := Unallocated]
            else o.status == Error(NoMemory) && o.state.shares == s.shares
  {
  }

  // ---- Send ----

  /** The access that the permissions name is within that of mode `m`. */
  predicate NamesNoMore(p: Permissions, m: Mode) {
    && (p.data == ReadOnly || p.data == ReadWrite ==> m.r) && (p.data == ReadWrite ==> m.w)
    && (p.instruction == Executable ==> m.x)
  }

  /** The memory can be sent: normal memory that belongs to the sender alone, with no more access than the
      sender has. */
  predicate CanSend(sh: Share, m: Mode)
    requires sh.Share?
  {
    sh.desc.offset % 8 == 0 && !m.invalid && !m.unowned && !m.shared && !m.d && NamesNoMore(sh.desc.permissions, m)
  }

  function AfterSending(func: ShareFunc, m: Mode): Mode {
    match func
    case Donate => ABSENT_MODE
    case Lend => m.(invalid := true)
    case ShareMemory => m.(shared := true)
  }

  /** For memory in one mode, exactly which sends pass the checks. */
  lemma SendCheckIff(t: Ptable, sh: Share, m: Mode)
    requires ValidTable(t) && sh.Share? && ValidPermissions(sh.desc.permissions)
    requires sh.fragments != [] && sh.fragments[0] != [] && AllMode(t, sh.fragments, m)
    ensures SendCheck(t, sh).Allowed? <==> CanSend(sh, m)
    ensures SendCheck(t, sh).Allowed? ==>
              SendCheck(t, sh).orig == m && Stored(SendCheck(t, sh).next) == AfterSending(sh.func, m)
  {
    UniformRegionMode(t, sh.fragments, m);
    SendCheckOf(t, sh, m);
  }

  lemma SendCheckOf(t: Ptable, sh: Share, m: Mode)
    requires ValidTable(t) && sh.Share? && ValidPermissions(sh.desc.permissions)
    requires RegionModeOf(t, sh.fragments) == Found(m)
    ensures SendCheck(t, sh).Allowed? <==> CanSend(sh, m)
    ensures SendCheck(t, sh).Allowed? ==>
              SendCheck(t, sh).orig == m && Stored(SendCheck(t, sh).next) == AfterSending(sh.func, m)
  {
  }

  /** The call passes the checks on the descriptor, and more fragments are to come. */
  predicate StoresMore(s: State, caller: VmId, c: Call) {
    match c
    case CallSend(func, d, fragment, _) =>
      && |fragment| < d.count && d.offset + CONSTITUENT_SIZE * |fragment| <= HF_MAILBOX_SIZE && s.pool != []
      && d.sender == caller && !(func == ShareMemory && d.clear) && !d.otherFlags
      && d.receiver < |s.vms| && d.receiver != caller && d.offset >= CONSTITUENTS_OFFSET
      && SendPermissionsValid(func, d.permissions) && FirstFree(s.shares) < |s.shares|
    case CallSendFragment(h, fragment, _) =>
      && 1 <= |fragment| <= MAX_FRAGMENT_CONSTITUENTS && s.pool != []
      && IsLive(s, h) && s.shares[h].desc.sender == caller && !s.shares[h].complete
      && |s.shares[h].fragments| != MAX_FRAGMENTS
      && |Flat(s.shares[h].fragments + [fragment])| != s.shares[h].desc.count
    case _ => false
  }

  /** The permissions a sender may name: how the receiver may access the data if it is not a donation, and
      nothing about execution. */
  lemma SentPermissions(func: ShareFunc, p: Permissions)
    ensures SendPermissionsValid(func, p) <==>
            && p.instruction == InstructionUnspecified
            && p.data in (if func == Donate then {DataUnspecified} else {ReadOnly, ReadWrite})
  {
  }

  lemma SendKinds(s: State, caller: VmId, c: Call, o: Outcome)
    requires ValidVms(s) && ValidShares(s) && caller < |s.vms| && c.CallSend? && o == Step(s, caller, c)
    ensures StoresMore(s, caller, c) ==> o.status.NextFragment?
    ensures !StoresMore(s, caller, c) && !Completes(s, caller, c) ==> o.status.Error? && o.state == s
  {
  }

  lemma SendFragmentKinds(s: State, caller: VmId, c: Call, o: Outcome)
    requires ValidVms(s) && ValidShares(s) && caller < |s.vms| && c.CallSendFragment? && o == Step(s, caller, c)
    ensures StoresMore(s, caller, c) ==> o.status.NextFragment?
    ensures !StoresMore(s, caller, c) && !Completes(s, caller, c) ==> o.status.Error? && o.state.vms == s.vms
  {
  }

  lemma CompleteKinds(s: State, h: nat, clearFails: bool, o: Outcome)
    requires ValidVms(s) && ValidShares(s) && IsLive(s, h) && o == SendComplete(s, h, clearFails)
    ensures o.status == Sent(h) <==> Commits(s, h) && !(s.shares[h].desc.clear && clearFails)
    ensures o.status.Sent? || o.status.Error?
  {
  }

  /** A send is done exactly when its last fragment passes the checks on the descriptor, the region passes
      those on its modes, there is memory for page tables, and clearing does not fail; the sender is asked
      for another fragment exactly when there are more to come; and anything else is an error. */
  lemma SendAnswers(s: State, caller: VmId, c: Call, o: Outcome)
    requires ValidVms(s) && ValidShares(s) && caller < |s.vms| && o == Step(s, caller, c)
    requires c.CallSend? || c.CallSendFragment?
    ensures o.status.Sent? <==>
            && Completes(s, caller, c) && Commits(StoreLast(s, caller, c), HandleOf(s, c))
            && !(StoreLast(s, caller, c).shares[HandleOf(s, c)].desc.clear && c.clearFails)
    ensures o.status.NextFragment? <==> StoresMore(s, caller, c)
    ensures o.status.Sent? || o.status.NextFragment? || o.status.Error?
  {
    if Completes(s, caller, c) {
      var s1, h := StoreLast(s, caller, c), HandleOf(s, c);
      StepCompletes(s, caller, c, s1, h);
      CompleteKinds(s1, h, c.clearFails, o);
    } else if c.CallSend? {
      SendKinds(s, caller, c, o);
    } else {
      SendFragmentKinds(s, caller, c, o);
    }
  }

  /** What a send that is done has done to memory in one mode. */
  lemma SentBecomes(s: State, caller: VmId, c: Call, o: Outcome, s1: State, h: nat, m: Mode)
    requires StateInv(s) && ValidShares(s) && caller < |s.vms| && o == Step(s, caller, c) && o.status.Sent?
    requires c.CallSend? || c.CallSendFragment?
    requires Completes(s, caller, c) ==> s1 == StoreLast(s, caller, c) && h == HandleOf(s, c)
    requires Completes(s, caller, c) ==>
               s1.shares[h].fragments[0] != [] && AllMode(s.vms[caller], s1.shares[h].fragments, m)
    ensures Completes(s, caller, c) && CanSend(s1.shares[h], m)
    ensures Becomes(o.state, s, caller, Flat(s1.shares[h].fragments), AfterSending(s1.shares[h].func, m))
    ensures o.status == Sent(h) && IsLive(o.state, h) && o.state.shares[h].origMode == m
  {
    SendAnswers(s, caller, c, o);
    StoresLast(s, caller, c, s1, h);
    StepCompletes(s, caller, c, s1, h);
    StoredKeeps(s, s1, h);
    SendCheckIff(s1.vms[caller], s1.shares[h], m);
    CompleteBecomes(s1, h, c.clearFails, o, m);
    SameBefore(s, s1, o.state, caller, Flat(s1.shares[h].fragments), AfterSending(s1.shares[h].func, m));
  }

  lemma SameBefore(s: State, s1: State, s': State, v: VmId, cs: seq<Constituent>, m: Mode)
    requires s1.vms == s.vms && Becomes(s', s1, v, cs, m)
    ensures Becomes(s', s, v, cs, m)
  {
    assert forall u: nat, p: nat :: ModeAt(s1, u, p) == ModeAt(s, u, p);
  }

  lemma CompleteBecomes(s: State, h: nat, clearFails: bool, o: Outcome, m: Mode)
    requires StateInv(s) && ValidShares(s) && IsLive(s, h) && o == SendComplete(s, h, clearFails)
    requires Commits(s, h) && !(s.shares[h].desc.clear && clearFails)
    requires SendCheck(s.vms[s.shares[h].desc.sender], s.shares[h]).orig == m
    ensures Becomes(o.state, s, s.shares[h].desc.sender, Flat(s.shares[h].fragments), AfterSending(s.shares[h].func, m))
    ensures IsLive(o.state, h) && o.state.shares[h].origMode == m
  {
    CommitSends(s, h, clearFails, o);
    var sh := s.shares[h];
    var v, cs, next := sh.desc.sender, Flat(sh.fragments), SentMode(sh.func, m);
    var r := ShrinkUpdate(s.vms[v], cs, OpOf(next), OpOf(m), false, s.pool, s.limit);
    CommitFinds(s, h, m);
    CompleteIs(s, h, clearFails, o, m, r);
    ShrinkOk(s.vms[v], cs, OpOf(next), OpOf(m), false, s.pool, s.limit, r);
    UpdateBecomes(s, o.state, v, cs, next, r);
  }

  lemma CompleteIs(s: State, h: nat, clearFails: bool, o: Outcome, m: Mode, r: MapResult)
    requires ValidVms(s) && ValidShares(s) && IsLive(s, h) && o == SendComplete(s, h, clearFails)
    requires Commits(s, h) && !(s.shares[h].desc.clear && clearFails)
    requires SendCheck(s.vms[s.shares[h].desc.sender], s.shares[h]).orig == m
    requires var sh := s.shares[h];
             r == ShrinkUpdate(s.vms[sh.desc.sender], Flat(sh.fragments), OpOf(SentMode(sh.func, m)), OpOf(m), false,
                               s.pool, s.limit)
    ensures r.ok && o.state.vms == s.vms[s.shares[h].desc.sender := r.table]
  {
  }

  lemma CommitFinds(s: State, h: nat, m: Mode)
    requires ValidVms(s) && ValidShares(s) && IsLive(s, h) && Commits(s, h)
    requires SendCheck(s.vms[s.shares[h].desc.sender], s.shares[h]).orig == m
    ensures Stored(SentMode(s.shares[h].func, m)) == AfterSending(s.shares[h].func, m)
    ensures ValidRegion(Flat(s.shares[h].fragments), SpaceEnd(s.vms[s.shares[h].desc.sender]))
  {
    var t, sh := s.vms[s.shares[h].desc.sender], s.shares[h];
    SendCheckFound(t, sh, m);
    FoundRegion(t, sh.fragments, m);
  }

  lemma SendCheckFound(t: Ptable, sh: Share, m: Mode)
    requires ValidTable(t) && sh.Share? && ValidPermissions(sh.desc.permissions)
    requires SendCheck(t, sh).Allowed? && SendCheck(t, sh).orig == m
    ensures RegionModeOf(t, sh.fragments) == Found(m) && Stored(SentMode(sh.func, m)) == AfterSending(sh.func, m)
  {
  }
}
