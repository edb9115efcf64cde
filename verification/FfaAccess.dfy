/** What access a receiver gets, compared with the access the sender had. The check of a send bounds
    the permissions the sender names; what it leaves open is granted by the retrieve. */
module FfaAccess {
  import opened PageTree
  import opened IdentityMap
  import opened Stage2Pte
  import opened Region
  import opened RegionMode
  import opened Ownership
  import opened FfaMemory
  import opened FfaPages
  import opened FfaRuns
  import opened FfaMixed

  /** The permissions recorded with a share are those of a send that was accepted, and once it is
      complete they are within the access the sender had. */
  predicate AsSent(sh: Share) {
    sh.Share? ==>
      && (sh.func == Donate <==> sh.desc.permissions.data == DataUnspecified) && ValidPermissions(sh.desc.permissions)
      && (sh.desc.permissions.instruction == if sh.func == ShareMemory then NotExecutable else InstructionUnspecified)
      && (sh.complete ==> PermissionsWithin(PermissionsToMode(sh.desc.permissions, sh.origMode), sh.origMode))
  }

  predicate AllAsSent(s: State) {
    forall h :: 0 <= h < |s.shares| ==> AsSent(s.shares[h])
  }

  lemma SendAsSent(s: State, caller: VmId, func: ShareFunc, d: Descriptor, fragment: seq<Constituent>, clearFails: bool)
    requires ValidVms(s) && caller < |s.vms| && AllAsSent(s)
    ensures AllAsSent(Send(s, caller, func, d, fragment, clearFails).state)
  {
  }

  lemma SendFragmentAsSent(s: State, caller: VmId, h: nat, fragment: seq<Constituent>, clearFails: bool)
    requires ValidVms(s) && ValidShares(s) && caller < |s.vms| && AllAsSent(s)
    ensures AllAsSent(SendFragment(s, caller, h, fragment, clearFails).state)
  {
    assert IsLive(s, h) ==> AsSent(s.shares[h]);
  }

  lemma RetrieveAsSent(s: State, caller: VmId, q: Request)
    requires ValidVms(s) && ValidShares(s) && caller < |s.vms| && AllAsSent(s)
    ensures AllAsSent(Retrieve(s, caller, q).state)
  {
    assert IsLive(s, q.handle) ==> AsSent(s.shares[q.handle]);
  }

  lemma StepAsSent(s: State, caller: VmId, c: Call)
    requires ValidVms(s) && ValidShares(s) && caller < |s.vms| && AllAsSent(s)
    ensures AllAsSent(Step(s, caller, c).state)
  {
    match c
    case CallSend(func, d, fragment, clearFails) => SendAsSent(s, caller, func, d, fragment, clearFails);
    case CallSendFragment(h, fragment, clearFails) => SendFragmentAsSent(s, caller, h, fragment, clearFails);
    case CallRetrieve(q) => RetrieveAsSent(s, caller, q);
    case CallRetrieveFragment(h, _) => assert IsLive(s, h) ==> AsSent(s.shares[h]);
    case CallRelinquish(h, _, _) => assert IsLive(s, h) ==> AsSent(s.shares[h]);
    case CallReclaim(h, _, _) => assert IsLive(s, h) ==> AsSent(s.shares[h]);
  }

  lemma {:induction false} RunAsSent(s: State, events: seq<Event>)
    requires ValidVms(s) && ValidShares(s) && AllAsSent(s) && forall e :: e in events ==> e.caller < |s.vms|
    ensures AllAsSent(RunAll(s, events))
    decreases |events|
  {
    if events != [] {
      StepAsSent(s, events[0].caller, events[0].call);
      StepKeeps(s, events[0].caller, events[0].call);
      RunAsSent(Step(s, events[0].caller, events[0].call).state, events[1..]);
    }
  }

  /** The sender had the access that a retrieve of everything that was not ruled out gives. */
  predicate Covered(func: ShareFunc, wanted: Permissions, orig: Mode) {
    && (func == Donate ==> orig.r && (wanted.data != ReadOnly ==> orig.w))
    && (func != ShareMemory && wanted.instruction != NotExecutable ==> orig.x)
  }

  lemma GrantIff(sh: Share, wanted: Permissions)
    requires sh.Share? && sh.complete && AsSent(sh)
    requires ValidPermissions(GrantedPermissions(sh.desc.permissions, wanted))
    ensures PermissionsWithin(PermissionsToMode(GrantedPermissions(sh.desc.permissions, wanted), sh.origMode),
                              sh.origMode)
       <==> Covered(sh.func, wanted, sh.origMode)
  {
  }

  /** Whatever calls were made since the start, a request that is accepted gives the receiver no access the
      sender did not have exactly when the sender had what was left open: to donated memory, read
      access, and write access unless only read access is requested; to donated or lent memory,
      execute access unless the request rules it out. */
  lemma AccessIff(s: State, events: seq<Event>, caller: VmId, q: Request)
    requires ValidVms(s) && (forall h :: 0 <= h < |s.shares| ==> s.shares[h] == Unallocated)
    requires forall e :: e in events ==> e.caller < |s.vms|
    ensures var s' := RunAll(s, events);
            var a := RetrieveAccess(s', caller, q);
            a.Access? ==>
              var sh := s'.shares[q.handle];
              PermissionsWithin(a.mode, sh.origMode) <==> Covered(sh.func, q.permissions, sh.origMode)
  {
    RunAsSent(s, events);
    AccessAt(RunAll(s, events), caller, q);
  }

  lemma AccessAt(s: State, caller: VmId, q: Request)
    requires AllAsSent(s)
    ensures var a := RetrieveAccess(s, caller, q);
            a.Access? ==>
              var sh := s.shares[q.handle];
              PermissionsWithin(a.mode, sh.origMode) <==> Covered(sh.func, q.permissions, sh.origMode)
  {
    if RetrieveAccess(s, caller, q).Access? {
      assert AsSent(s.shares[q.handle]);
      GrantIff(s.shares[q.handle], q.permissions);
    }
  }

  // ---- Lent memory on which the receiver gets more, and not more ----

  const DATA := Mode(true, true, false, false, false, false, false)

  /** VM 0 lends its page, without a word about execution. */
  function LendOwn(): Call {
    CallSend(Lend,
             Descriptor(0, 1, Permissions(ReadWrite, InstructionUnspecified), false, false, 0, CONSTITUENTS_OFFSET, 1),
             [Constituent(4096, 1)], false)
  }

  function Wanted(i: InstructionAccess): Request {
    Request(0, 0, 1, 0, Unspecified, Permissions(DataUnspecified, i), false, false, true)
  }

  lemma OneConstituent(t: Ptable)
    requires ValidTable(t) && 1 < SpaceEnd(t)
    ensures RegionModeOf(t, [[Constituent(4096, 1)]]) == Found(ModeOf(Lookup(t, 1)))
  {
    var d := Constituent(4096, 1);
    assert PageAligned(d) && FirstPage(d) == 1 && EndPageOf(d) == 2;
    OnePage(t, d, 1);
    OnlyConstituent(t, d, ModeOf(Lookup(t, 1)));
  }

  lemma OnlyConstituent(t: Ptable, c: Constituent, m: Mode)
    requires ValidTable(t) && ConstituentMode(t, c) == Found(m)
    ensures RegionModeOf(t, [[c]]) == Found(m)
  {
    ScanFirst(Answers(t, [c]), ABSENT_MODE);
    assert [[c]][1..] == [];
  }

  lemma LendOwnSends(a: Attrs, m: Mode, s: State)
    requires OwnAttrs(a, m) && s == TwoVms(a)
    ensures ValidVms(s) && ValidShares(s)
    ensures var o := Step(s, 0, LendOwn());
            o.status == Sent(0) && IsLive(o.state, 0) && SentShare(o.state.shares[0], Lend, LendOwn().desc, m)
  {
    var c := LendOwn();
    TwoVmsModes(a, m, 0, 1);
    OneConstituent(s.vms[0]);
    assert [c.fragment][1..] == [];
    assert FirstFree(s.shares) == 0;
    LendsSends(s, c, m, Step(s, 0, c));
  }

  ghost predicate MayExecute(s: State, i: InstructionAccess) {
    && Initial(s) && |s.vms| == 2 && ValidShares(s) && Step(s, 0, LendOwn()).status.Sent?
    && var s1 := Step(s, 0, LendOwn()).state;
       var b := RetrieveAccess(s1, 1, Wanted(i));
       b.Access? && !s1.shares[0].origMode.x && (b.mode.x <==> i == InstructionUnspecified)
  }

  /** After a VM has lent memory that it cannot execute, the receiver may execute it if it does not
      say that it will not, and may not if it does. */
  lemma ReceiverMayExecute(i: InstructionAccess)
    requires i == InstructionUnspecified || i == NotExecutable
    ensures exists s: State :: MayExecute(s, i)
  {
    var a := OwnedAttrs(DATA);
    var s := TwoVms(a);
    TwoVmsInitial(a, DATA);
    LendOwnSends(a, DATA, s);
    WantedAccess(Step(s, 0, LendOwn()).state, i);
    assert MayExecute(s, i);
  }

  lemma WantedAccess(s: State, i: InstructionAccess)
    requires IsLive(s, 0) && SentShare(s.shares[0], Lend, LendOwn().desc, DATA)
    requires i == InstructionUnspecified || i == NotExecutable
    ensures var b := RetrieveAccess(s, 1, Wanted(i));
            b.Access? && !s.shares[0].origMode.x && (b.mode.x <==> i == InstructionUnspecified)
  {
  }
}
