/** The memory sharing calls as the code makes them: loops over the share-state table, over
    fragments and over constituents, updating the tables, the share states and the page pool in
    place. Every method is proved against the function of the same call in `FfaMemory`. */
module FfaCalls {
  import opened Collections
  import opened PageTree
  import opened MapLevel
  import opened IdentityMap
  import opened Stage2Pte
  import opened Region
  import opened RegionMode
  import opened Ownership
  import opened FfaMemory
  import opened FfaOwnership
  import opened FfaMixed
  import opened FfaAnswers

  // ---- Page-table updates of a region ----

  /** The inner loop of `ffa_region_group_identity_map`. */
  method MapFragment(t: Ptable, cs: seq<Constituent>, op: Op, commit: bool, pool: Pool, limit: nat)
    returns (r: MapResult)
    requires ValidTable(t) && WfOp(op)
    ensures r == RegionMap(t, cs, op, commit, pool, limit)
  {
    r := MapResult(true, t, pool);
    for i := 0 to |cs|
      invariant r.ok && ValidTable(r.table)
      invariant RegionMap(t, cs, op, commit, pool, limit) == RegionMap(r.table, cs[i..], op, commit, r.pool, limit)
    {
      assert cs[i..][0] == cs[i] && cs[i..][1..] == cs[i + 1..];
      if !InPaRange(cs[i], limit) {
        return MapResult(false, r.table, r.pool);
      }
      r := MapIdentity(r.table, cs[i].address, End(cs[i]), op, commit, r.pool);
      if !r.ok {
        return;
      }
    }
  }

  /** `ffa_region_group_identity_map`. */
  method MapFragments(t: Ptable, fragments: seq<seq<Constituent>>, op: Op, commit: bool, pool: Pool, limit: nat)
    returns (r: MapResult)
    requires ValidTable(t) && WfOp(op)
    ensures r == RegionMap(t, Flat(fragments), op, commit, pool, limit)
  {
    r := MapResult(true, t, pool);
    for i := 0 to |fragments|
      invariant r.ok && ValidTable(r.table)
      invariant RegionMap(t, Flat(fragments), op, commit, pool, limit)
                == RegionMap(r.table, Flat(fragments[i..]), op, commit, r.pool, limit)
    {
      assert fragments[i..][0] == fragments[i] && fragments[i..][1..] == fragments[i + 1..];
      RegionMapConcat(r.table, fragments[i], Flat(fragments[i + 1..]), op, commit, r.pool, limit);
      r := MapFragment(r.table, fragments[i], op, commit, r.pool, limit);
      if !r.ok {
        return;
      }
    }
  }

  lemma {:induction false} RegionMapConcat(t: Ptable, a: seq<Constituent>, b: seq<Constituent>, op: Op, commit: bool,
                                           pool: Pool, limit: nat)
    requires ValidTable(t) && WfOp(op)
    ensures var x := RegionMap(t, a, op, commit, pool, limit);
            RegionMap(t, a + b, op, commit, pool, limit)
              == if x.ok then RegionMap(x.table, b, op, commit, x.pool, limit) else x
    decreases |a|
  {
    if a == [] {
      assert a + b == b;
    } else {
      assert (a + b)[0] == a[0] && (a + b)[1..] == a[1..] + b;
      var x := MapIdentity(t, a[0].address, End(a[0]), op, commit, pool);
      if InPaRange(a[0], limit) && x.ok {
        RegionMapConcat(x.table, a[1..], b, op, commit, x.pool, limit);
      }
    }
  }

  /** `mpool_fini` of the local pool: its pages go back one by one. */
  method Finish(stack: Pool, n: nat) returns (pool: Pool)
    ensures pool == FinishLocal(stack, n)
  {
    if |stack| < n {
      return stack;
    }
    var local, rest := stack[..|stack| - n], stack[|stack| - n..];
    pool := rest;
    for i := 0 to |local|
      invariant pool == Reversed(local[..i]) + rest
    {
      ReversedStep(local, i, rest);
      pool := [local[i]] + pool;
    }
    assert local[..|local|] == local;
  }

  /** The second half of `ffa_send_check_update` and `ffa_relinquish_check_update`. The CHECK on the
      commit cannot fail; `checked` is the outcome of the one on the rollback. */
  method Shrink(t: Ptable, fragments: seq<seq<Constituent>>, op: Op, back: Op, clearFails: bool, pool: Pool, limit: nat)
    returns (r: MapResult, checked: bool)
    requires ValidTable(t) && WfOp(op) && WfOp(back)
    ensures r == ShrinkUpdate(t, Flat(fragments), op, back, clearFails, pool, limit)
    ensures checked <==> !(clearFails && RollbackFails(t, Flat(fragments), op, back, pool, limit))
  {
    PreparedCommit(t, Flat(fragments), op, pool, limit);
    var p := MapFragments(t, fragments, op, false, pool, limit);
    if !p.ok {
      return Tidy(false, p.table, p.pool), true;
    }
    var c := MapFragments(p.table, fragments, op, true, p.pool, limit);
    assert c.ok;
    if clearFails {
      c := MapFragments(c.table, fragments, back, true, c.pool, limit);
    }
    var left := Finish(c.pool, |p.pool|);
    return Tidy(!clearFails, c.table, left), c.ok;
  }

  /** The second half of `ffa_retrieve_check_update`, which is also `ffa_memory_reclaim`'s. */
  method Grow(t: Ptable, fragments: seq<seq<Constituent>>, op: Op, clearFails: bool, pool: Pool, limit: nat)
    returns (r: MapResult)
    requires ValidTable(t) && WfOp(op)
    ensures r == GrowUpdate(t, Flat(fragments), op, clearFails, pool, limit)
  {
    PreparedCommit(t, Flat(fragments), op, pool, limit);
    var p := MapFragments(t, fragments, op, false, pool, limit);
    if !p.ok || clearFails {
      return Tidy(false, p.table, p.pool);
    }
    var c := MapFragments(p.table, fragments, op, true, p.pool, limit);
    assert c.ok;
    return Tidy(true, c.table, c.pool);
  }

  /** A first fragment that passes the checks is stored, and the send completed if it is the only one. */
  lemma SendStores(s: State, caller: VmId, c: Call, h: nat, sh: Share, s1: State)
    requires ValidVms(s) && caller < |s.vms| && c.CallSend? && s.pool != [] && h == FirstFree(s.shares) < |s.shares|
    requires |c.fragment| <= c.desc.count && c.desc.offset + CONSTITUENT_SIZE * |c.fragment| <= HF_MAILBOX_SIZE
    requires c.desc.sender == caller && !(c.func == ShareMemory && c.desc.clear) && !c.desc.otherFlags
    requires c.desc.receiver < |s.vms| && c.desc.receiver != caller && c.desc.offset >= CONSTITUENTS_OFFSET
    requires SendPermissionsValid(c.func, c.desc.permissions)
    requires sh == Share(c.func, StoredDescriptor(c.func, c.desc), [c.fragment], [s.pool[0]], false, ABSENT_MODE, 0)
    requires s1 == s.(shares := s.shares[h := sh], pool := s.pool[1..])
    ensures ValidVms(s1) && IsLive(s1, h) && s1.shares[h].desc.sender < |s1.vms|
    ensures ValidPermissions(s1.shares[h].desc.permissions)
    ensures Send(s, caller, c.func, c.desc, c.fragment, c.clearFails) ==
            if |c.fragment| == c.desc.count then SendComplete(s1, h, c.clearFails)
            else Outcome(s1, NextFragment(h, NextOffset(sh)))
    ensures SendPanics(s, caller, c) <==> |c.fragment| == c.desc.count && RollbackPanics(s1, h, c.clearFails)
  {
  }

  // ---- The share states and the calls ----

  class MemorySharing {
    var vms: seq<Ptable>
    const shares: array<Share>
    var pool: Pool
    const limit: nat

    ghost function Now(): State
      reads this, shares
    {
      State(vms, shares[..], pool, limit)
    }

    ghost predicate Valid()
      reads this, shares
    {
      ValidVms(Now()) && ValidShares(Now())
    }

    /** No share state is in use. */
    constructor (vms: seq<Ptable>, pool: Pool, limit: nat)
      requires forall v :: 0 <= v < |vms| ==> ValidTable(vms[v])
      ensures Valid() && Now() == State(vms, seq(MAX_MEM_SHARES, _ => Unallocated), pool, limit) && fresh(shares)
    {
      this.vms, this.pool, this.limit := vms, pool, limit;
      shares := new Share[MAX_MEM_SHARES](_ => Unallocated);
      new;
      assert shares[..] == seq(MAX_MEM_SHARES, _ => Unallocated);
    }

    /** The loop of `allocate_share_state`. */
    method FindFree() returns (h: nat)
      ensures h == FirstFree(shares[..])
    {
      h := 0;
      while h < shares.Length && shares[h].Share?
        invariant h <= shares.Length && forall k :: 0 <= k < h ==> shares[k].Share?
      {
        h := h + 1;
      }
      FreeIsFirst(shares[..], h);
    }

    /** `share_state_free`. */
    method FreeShareState(h: nat)
      requires h < shares.Length && shares[h].Share?
      modifies this`pool, shares
      ensures Now() == FreeShare(old(Now()), h)
    {
      var pages := shares[h].pages;
      ghost var rest := pool;
      shares[h] := Unallocated;
      for i := 0 to |pages|
        invariant pool == Reversed(pages[..i]) + rest && shares[..] == old(shares[..])[h := Unallocated]
      {
        ReversedStep(pages, i, rest);
        pool := [pages[i]] + pool;
      }
      assert pages[..|pages|] == pages;
    }

    /** `share_state_sending_complete` and `share_state_next_fragment_offset` count the same constituents. */
    method CountConstituents(fragments: seq<seq<Constituent>>, upTo: nat) returns (n: nat)
      requires upTo <= |fragments|
      ensures n == |Flat(fragments[..upTo])|
    {
      n := 0;
      for i := 0 to upTo
        invariant n == |Flat(fragments[..i])|
      {
        assert fragments[..i + 1] == fragments[..i] + [fragments[i]];
        FlatSnoc(fragments[..i], fragments[i]);
        n := n + |fragments[i]|;
      }
    }

    /** `ffa_memory_send_complete`. */
    method CompleteSend(h: nat, clearFails: bool) returns (status: Status, checked: bool)
      requires Valid() && h < shares.Length && shares[h].Share?
      modifies this`vms, this`pool, shares
      ensures var o := SendComplete(old(Now()), h, clearFails); Now() == o.state && status == o.status
      ensures checked <==> !RollbackPanics(old(Now()), h, clearFails)
    {
      var sh := shares[h];
      var v := sh.desc.sender;
      assert IsLive(Now(), h) && ValidPermissions(sh.desc.permissions);
      if !WordAligned(sh.desc.offset) {
        FreeShareState(h);
        return Error(InvalidParameters), true;
      }
      var m := GetRegionMode(vms[v], sh.fragments);
      if m.Failed? || m.mode.d || !StateClear(m.mode)
         || !PermissionsWithin(PermissionsToMode(sh.desc.permissions, m.mode), m.mode) {
        FreeShareState(h);
        return Error(if m.Failed? then m.error else Denied), true;
      }
      var op := OpOf(SentMode(sh.func, m.mode));
      var r;
      r, checked := Shrink(vms[v], sh.fragments, op, OpOf(m.mode), sh.desc.clear && clearFails, pool, limit);
      vms, pool := vms[v := r.table], r.pool;
      if !r.ok {
        FreeShareState(h);
        return Error(NoMemory), checked;
      }
      shares[h] := sh.(complete := true, origMode := m.mode);
      assert shares[..] == old(shares[..])[h := sh.(complete := true, origMode := m.mode)];
      return Sent(h), checked;
    }

    /** `api_ffa_mem_send` and `ffa_memory_send`: the descriptor's page is taken before the checks
        and put back when one of them fails. */
    method SendMemory(caller: VmId, func: ShareFunc, d: Descriptor, fragment: seq<Constituent>, clearFails: bool)
      returns (status: Status, checked: bool)
      requires Valid() && caller < |vms|
      modifies this`vms, this`pool, shares
      ensures var o := Send(old(Now()), caller, func, d, fragment, clearFails); Now() == o.state && status == o.status
      ensures checked <==> !SendPanics(old(Now()), caller, CallSend(func, d, fragment, clearFails))
    {
      ghost var was := Now();
      if |fragment| > d.count || d.offset + CONSTITUENT_SIZE * |fragment| > HF_MAILBOX_SIZE {
        return Error(InvalidParameters), true;
      }
      if pool == [] {
        return Error(NoMemory), true;
      }
      var page := pool[0];
      pool := pool[1..];
      var error := CheckSend(caller, func, d);
      var h := FindFree();
      if error.NoAccess? || h == shares.Length {
        pool := [page] + pool;
        return Error(if error.NoAccess? then error.error else NoMemory), true;
      }
      ghost var sh := Share(func, StoredDescriptor(func, d), [fragment], [page], false, ABSENT_MODE, 0);
      SendStores(was, caller, CallSend(func, d, fragment, clearFails), h, sh,
                 was.(shares := was.shares[h := sh], pool := was.pool[1..]));
      status, checked := StoreFirst(func, d, fragment, page, h, clearFails);
    }

    /** The first fragment is stored, and the send completed if it is the only one. */
    method StoreFirst(func: ShareFunc, d: Descriptor, fragment: seq<Constituent>, page: Page, h: nat, clearFails: bool)
      returns (status: Status, checked: bool)
      requires Valid() && h < shares.Length && d.sender < |vms| && d.receiver < |vms| && ValidPermissions(d.permissions)
      modifies this`vms, this`pool, shares
      ensures var sh := Share(func, StoredDescriptor(func, d), [fragment], [page], false, ABSENT_MODE, 0);
              var s1 := old(Now()).(shares := old(Now()).shares[h := sh]);
              ValidVms(s1) && ValidShares(s1) &&
              if |fragment| == d.count then
                var o := SendComplete(s1, h, clearFails);
                Now() == o.state && status == o.status && (checked <==> !RollbackPanics(s1, h, clearFails))
              else
                Now() == s1 && status == NextFragment(h, NextOffset(sh)) && checked
    {
      shares[h] := Share(func, StoredDescriptor(func, d), [fragment], [page], false, ABSENT_MODE, 0);
      assert shares[..] == old(shares[..])[h := shares[h]];
      if |fragment| == d.count {
        status, checked := CompleteSend(h, clearFails);
      } else {
        var n := CountConstituents([fragment], 1);
        assert [fragment][..1] == [fragment];
        status, checked := NextFragment(h, d.offset + CONSTITUENT_SIZE * n), true;
      }
    }

    /** The checks of `api_ffa_mem_send` and `ffa_memory_send_validate`, in their order. */
    method CheckSend(caller: VmId, func: ShareFunc, d: Descriptor) returns (a: Access)
      ensures a == if d.sender != caller then NoAccess(Denied)
                   else if (func == ShareMemory && d.clear) || d.otherFlags || d.receiver >= |vms|
                           || d.receiver == caller
                           || d.offset < CONSTITUENTS_OFFSET || !SendPermissionsValid(func, d.permissions)
                   then NoAccess(InvalidParameters) else Access(ABSENT_MODE)
    {
      if d.sender != caller {
        return NoAccess(Denied);
      }
      if (func == ShareMemory && d.clear) || d.otherFlags {
        return NoAccess(InvalidParameters);
      }
      if d.receiver >= |vms| || d.receiver == caller {
        return NoAccess(InvalidParameters);
      }
      if d.offset < CONSTITUENTS_OFFSET || !SendPermissionsValid(func, d.permissions) {
        return NoAccess(InvalidParameters);
      }
      return Access(ABSENT_MODE);
    }

    /** `api_ffa_mem_frag_tx` and `ffa_memory_send_continue`. */
    method SendMoreMemory(caller: VmId, h: nat, fragment: seq<Constituent>, clearFails: bool)
      returns (status: Status, checked: bool)
      requires Valid() && caller < |vms|
      modifies this`vms, this`pool, shares
      ensures var o := SendFragment(old(Now()), caller, h, fragment, clearFails); Now() == o.state && status == o.status
      ensures checked <==> !SendPanics(old(Now()), caller, CallSendFragment(h, fragment, clearFails))
    {
      ghost var was := Now();
      if fragment == [] || |fragment| > MAX_FRAGMENT_CONSTITUENTS {
        return Error(InvalidParameters), true;
      }
      if pool == [] {
        return Error(NoMemory), true;
      }
      var page := pool[0];
      pool := pool[1..];
      if !(h < shares.Length && shares[h].Share?) || shares[h].desc.sender != caller || shares[h].complete {
        pool := [page] + pool;
        return Error(InvalidParameters), true;
      }
      if |shares[h].fragments| == MAX_FRAGMENTS {
        FreeShareState(h);
        pool := [page] + pool;
        return Error(NoMemory), true;
      }
      assert IsLive(Now(), h);
      var sh := shares[h].(fragments := shares[h].fragments + [fragment], pages := shares[h].pages + [page]);
      shares[h] := sh;
      assert shares[..] == old(shares[..])[h := sh];
      var n := CountConstituents(sh.fragments, |sh.fragments|);
      assert sh.fragments[..|sh.fragments|] == sh.fragments;
      if n == sh.desc.count {
        assert Now() == StoreLast(was, caller, CallSendFragment(h, fragment, clearFails));
        status, checked := CompleteSend(h, clearFails);
      } else {
        status, checked := NextFragment(h, sh.desc.offset + CONSTITUENT_SIZE * n), true;
      }
    }

    /** `ffa_memory_retrieve_complete`. */
    method CompleteRetrieve(h: nat)
      requires h < shares.Length && shares[h].Share?
      modifies this`pool, shares
      ensures Now() == AfterRetrieving(old(Now()), h)
    {
      if shares[h].retrieved == |shares[h].fragments| && shares[h].func == Donate {
        FreeShareState(h);
      }
    }

    /** `ffa_memory_retrieve`. */
    method RetrieveMemory(caller: VmId, q: Request) returns (status: Status)
      requires Valid() && caller < |vms|
      modifies this`vms, this`pool, shares
      ensures var o := Retrieve(old(Now()), caller, q); Now() == o.state && status == o.status
      ensures StateInv(old(Now())) ==> Retrieves(old(Now()), caller, q, Now(), status)
    {
      ghost var o := Retrieve(Now(), caller, q);
      if StateInv(Now()) {
        RetrieveAnswers(Now(), caller, q, o);
      }
      var a := RetrieveAccess(State(vms, shares[..], pool, limit), caller, q);
      if a.NoAccess? {
        return Error(a.error);
      }
      var sh := shares[q.handle];
      if !WordAligned(sh.desc.offset) {
        return Error(InvalidParameters);
      }
      var m := GetRegionMode(vms[caller], sh.fragments);
      if m.Failed? || !Unmapped(m.mode) {
        return Error(if m.Failed? then m.error else Denied);
      }
      var r := Grow(vms[caller], sh.fragments, OpOf(RetrievedMode(sh.func, a.mode)), false, pool, limit);
      vms, pool := vms[caller := r.table], r.pool;
      if !r.ok {
        return Error(NoMemory);
      }
      shares[q.handle] := sh.(retrieved := 1);
      assert shares[..] == old(shares[..])[q.handle := sh.(retrieved := 1)];
      CompleteRetrieve(q.handle);
      return Received(if sh.fragments == [] then [] else sh.fragments[0]);
    }

    /** `ffa_memory_retrieve_continue`. */
    method RetrieveMoreMemory(caller: VmId, h: nat, offset: nat) returns (status: Status)
      requires Valid() && caller < |vms|
      modifies this`pool, shares
      ensures var o := RetrieveFragment(old(Now()), caller, h, offset); Now() == o.state && status == o.status
    {
      if !(h < shares.Length && shares[h].Share?) || shares[h].desc.receiver != caller || !shares[h].complete {
        return Error(InvalidParameters);
      }
      var sh := shares[h];
      if sh.retrieved == 0 || sh.retrieved >= |sh.fragments| {
        return Error(InvalidParameters);
      }
      var n := CountConstituents(sh.fragments, sh.retrieved);
      if offset != sh.desc.offset + CONSTITUENT_SIZE * n {
        return Error(InvalidParameters);
      }
      shares[h] := sh.(retrieved := sh.retrieved + 1);
      assert shares[..] == old(shares[..])[h := sh.(retrieved := sh.retrieved + 1)];
      CompleteRetrieve(h);
      return Received(sh.fragments[sh.retrieved]);
    }

    /** `ffa_memory_relinquish`. */
    method RelinquishMemory(caller: VmId, h: nat, clear: bool, clearFails: bool) returns (status: Status, checked: bool)
      requires Valid() && caller < |vms|
      modifies this`vms, this`pool, shares
      ensures var o := Relinquish(old(Now()), caller, h, clear, clearFails); Now() == o.state && status == o.status
      ensures StateInv(old(Now())) ==> Returns(old(Now()), caller, h, clear, clearFails, Now(), status)
      ensures StateInv(old(Now())) ==> checked
    {
      ghost var was := Now();
      if StateInv(was) {
        RelinquishAnswers(was, caller, h, clear, clearFails, Relinquish(was, caller, h, clear, clearFails));
      }
      if !(h < shares.Length && shares[h].Share?) || !shares[h].complete || shares[h].desc.receiver != caller {
        return Error(InvalidParameters), true;
      }
      var sh := shares[h];
      if sh.retrieved != |sh.fragments| || (clear && sh.func == ShareMemory) {
        return Error(InvalidParameters), true;
      }
      var m := GetRegionMode(vms[caller], sh.fragments);
      if m.Failed? || m.mode.d || m.mode.invalid || !m.mode.unowned {
        return Error(if m.Failed? then m.error else Denied), true;
      }
      var next := OpOf(m.mode.(invalid := true, unowned := true, shared := false));
      var r;
      r, checked := Shrink(vms[caller], sh.fragments, next, OpOf(m.mode), clear && clearFails, pool, limit);
      BorrowedRollsBack(was, h, m.mode, next);
      vms, pool := vms[caller := r.table], r.pool;
      if !r.ok {
        return Error(NoMemory), checked;
      }
      shares[h] := sh.(retrieved := 0);
      assert shares[..] == old(shares[..])[h := sh.(retrieved := 0)];
      return Completed, checked;
    }

    /** `ffa_memory_reclaim`. */
    method ReclaimMemory(caller: VmId, h: nat, clear: bool, clearFails: bool) returns (status: Status)
      requires Valid() && caller < |vms|
      modifies this`vms, this`pool, shares
      ensures var o := Reclaim(old(Now()), caller, h, clear, clearFails); Now() == o.state && status == o.status
      ensures StateInv(old(Now())) ==> TakesBack(old(Now()), caller, h, clear, clearFails, Now(), status)
    {
      ghost var o := Reclaim(Now(), caller, h, clear, clearFails);
      if StateInv(Now()) {
        ReclaimAnswers(Now(), caller, h, clear, clearFails, o);
      }
      if !(h < shares.Length && shares[h].Share?) || shares[h].desc.sender != caller || !shares[h].complete {
        return Error(InvalidParameters);
      }
      var sh := shares[h];
      if sh.retrieved != 0 {
        return Error(Denied);
      }
      if !WordAligned(sh.desc.offset) {
        return Error(InvalidParameters);
      }
      var m := GetRegionMode(vms[caller], sh.fragments);
      if m.Failed? {
        return Error(m.error);
      }
      var r := Grow(vms[caller], sh.fragments, OpOf(sh.origMode), clear && clearFails, pool, limit);
      vms, pool := vms[caller := r.table], r.pool;
      if !r.ok {
        return Error(NoMemory);
      }
      FreeShareState(h);
      return Completed;
    }

    /** Any of the calls: the state and the answer are those of the model, which stays well-formed.
        A CHECK fails exactly in the sends that the model says; in the states that runs reach, none
        fails. */
    method Handle(caller: VmId, c: Call) returns (status: Status, checked: bool)
      requires Valid() && caller < |vms|
      modifies this`vms, this`pool, shares
      ensures Valid() && Now() == Step(old(Now()), caller, c).state && status == Step(old(Now()), caller, c).status
      ensures c.CallSend? || c.CallSendFragment? ==> (checked <==> !SendPanics(old(Now()), caller, c))
      ensures StateInv(old(Now())) && SendsOwned(old(Now()), caller, c) ==> checked
    {
      StepValid(Now(), caller, c);
      if StateInv(Now()) {
        CallKeepsIff(Now(), caller, c, Step(Now(), caller, c));
      }
      checked := true;
      match c
      case CallSend(func, d, fragment, clearFails) =>
        status, checked := SendMemory(caller, func, d, fragment, clearFails);
      case CallSendFragment(h, fragment, clearFails) =>
        status, checked := SendMoreMemory(caller, h, fragment, clearFails);
      case CallRetrieve(q) => status := RetrieveMemory(caller, q);
      case CallRetrieveFragment(h, offset) => status := RetrieveMoreMemory(caller, h, offset);
      case CallRelinquish(h, clear, clearFails) => status, checked := RelinquishMemory(caller, h, clear, clearFails);
      case CallReclaim(h, clear, clearFails) => status := ReclaimMemory(caller, h, clear, clearFails);
    }
  }

  /** Borrowed memory is in one mode throughout, so none of it is in the mode it is given back in, and
      giving it back can be undone. */
  lemma BorrowedRollsBack(s: State, h: nat, m: Mode, next: Op)
    requires ValidVms(s) && ValidShares(s) && IsLive(s, h) && s.shares[h].complete
    requires s.shares[h].retrieved == |s.shares[h].fragments|
    requires RegionModeOf(s.vms[s.shares[h].desc.receiver], s.shares[h].fragments) == Found(m) && WfOp(next)
    ensures var t, cs := s.vms[s.shares[h].desc.receiver], Flat(s.shares[h].fragments);
            StateInv(s) ==> !RollbackFails(t, cs, next, OpOf(m), s.pool, s.limit)
  {
    if StateInv(s) {
      assert ShareInv(s.shares[h], |s.vms|, NumPages(s));
      var t, cs := s.vms[s.shares[h].desc.receiver], Flat(s.shares[h].fragments);
      var n := BorrowerRegion(s, h);
      RegionFacts(s, s.shares[h].desc.receiver, s.shares[h].fragments, n);
      HoldsAvoids(t, cs, next, OpOf(n));
      var p := RegionMap(t, cs, next, false, s.pool, s.limit);
      if p.ok {
        RollbackSpec(t, cs, next, OpOf(m), s.pool, s.limit, p);
      }
    }
  }

  lemma StepValid(s: State, caller: VmId, c: Call)
    requires ValidVms(s) && ValidShares(s) && caller < |s.vms|
    ensures ValidVms(Step(s, caller, c).state) && ValidShares(Step(s, caller, c).state)
  {
    FfaPages.StepKeeps(s, caller, c);
  }

  lemma {:induction false} FreeIsFirst(shares: seq<Share>, h: nat)
    requires h <= |shares| && (h < |shares| ==> shares[h].Unallocated?) && forall k :: 0 <= k < h ==> shares[k].Share?
    ensures h == FirstFree(shares)
  {
    if h > 0 {
      FreeIsFirst(shares[1..], h - 1);
    }
  }
}
