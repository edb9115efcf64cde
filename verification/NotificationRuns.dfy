/**
  * Every run of the notification calls: what the two counters of src/vm.c count, which of its CHECKs
  * can fail, and who set each pending bit.
  */
module NotificationRuns {
  import opened Arithmetic
  import opened Notifications
  import opened NotificationInfo

  datatype Event =
    | Bindings(isBind: bool, sender: int, fromVm: bool, r: int, perVcpu: bool, n: Bitmap, valid: bool, known: bool)
    | SetPending(sender: int, fromVm: bool, r: int, perVcpu: bool, vcpu: int, n: Bitmap, valid: bool)
    | SetFramework(r: int, n: Bitmap)
    | GetPending(r: int, vcpu: int, cpu: int, sp: bool, vm: bool, framework: bool, valid: bool)
    | InfoGet(isPrimary: bool, before: seq<Group>)

  /** The arguments are of their types; the groups the other world reports first are a legal report. */
  predicate IsEvent(ev: Event) {
    match ev
    case Bindings(_, _, _, _, _, n, _, _) => IsBitmap(n)
    case SetPending(_, _, _, _, vcpu, n, _) => IsBitmap(n) && 0 <= vcpu
    case SetFramework(_, n) => IsBitmap(n)
    case GetPending(_, vcpu, _, _, _, _, _) => 0 <= vcpu
    case InfoGet(_, before) => Size(before) <= FFA_NOTIFICATIONS_INFO_GET_MAX_IDS && GroupsFit(before)
  }

  predicate SetAccepted(w: World, ev: Event)
    requires Valid(w) && IsEvent(ev) && ev.SetPending?
  {
    SetStatus(w, ev.sender, ev.fromVm, ev.r, ev.perVcpu, ev.vcpu, ev.n, ev.valid) == Success
  }

  function SlotOf(ev: Event): Slot
    requires ev.SetPending?
  {
    SetSlot(ev.fromVm, ev.perVcpu, ev.vcpu)
  }

  predicate GetAccepted(w: World, ev: Event)
    requires ev.GetPending?
  {
    GetStatus(w, ev.r, ev.vcpu, ev.cpu, ev.valid) == Success
  }

  function Taken(ev: Event): seq<Slot>
    requires ev.GetPending?
  {
    GetSlots(ev.vcpu, ev.sp, ev.vm, ev.framework)
  }

  /** The call as if its CHECKs held. */
  function Step(w: World, ev: Event): World
    requires Valid(w) && IsEvent(ev)
  {
    match ev
    case Bindings(isBind, sender, fromVm, r, perVcpu, n, valid, known) =>
      UpdateBindings(w, isBind, sender, fromVm, r, perVcpu, n, valid, known)
    case SetPending(_, _, r, _, _, n, _) =>
      if SetAccepted(w, ev) then SetState(w, r, SlotOf(ev), n) else w
    case SetFramework(r, n) =>
      if 0 <= r < |w.vms| then SetState(w, r, Framework, n) else w
    case GetPending(r, _, _, _, _, _, _) =>
      if GetAccepted(w, ev) then TakeAll(w, r, Taken(ev)) else w
    case InfoGet(isPrimary, before) =>
      if isPrimary && Size(before) < FFA_NOTIFICATIONS_INFO_GET_MAX_IDS
      then InfoVms(w, before, 0, FFA_NOTIFICATIONS_INFO_GET_MAX_IDS).w else w
  }

  predicate In32Bits(w: World) {
    0 <= w.pendingCount <= UINT32_MAX && 0 <= w.retrievedCount <= UINT32_MAX
  }

  /** Some CHECK of the call fails. The one on the vCPU ID is made for global notifications too. */
  predicate Panics(w: World, ev: Event)
    requires Valid(w) && IsEvent(ev)
  {
    || (ev.SetPending? && SetAccepted(w, ev) && ev.vcpu >= MaxCpus(w.vms[ev.r]))
    || !In32Bits(Step(w, ev))
  }

  // ---- Validity, and what a step leaves alone ----

  /** The same VMs with the same bindings. */
  ghost predicate SameBindings(w: World, v: World) {
    forall k {:trigger Unfold(k)} :: Unfold(k) ==>
      && |v.vms| == |w.vms|
      && forall r :: 0 <= r < |w.vms| ==> SameVm(w.vms[r], v.vms[r])
  }

  predicate SameVm(a: Vm, b: Vm) {
    && b.vcpuCount == a.vcpuCount && MaxCpus(b) == MaxCpus(a)
    && b.fromVm.senders == a.fromVm.senders && b.fromVm.perVcpu == a.fromVm.perVcpu
    && b.fromSp.senders == a.fromSp.senders && b.fromSp.perVcpu == a.fromSp.perVcpu
  }

  lemma StoreKeeps(w: World, r: int, slot: Slot, s: State)
    requires Valid(w) && SlotIn(w, r, slot) && IsBitmap(s.pending)
    ensures Valid(Store(w, r, slot, s)) && SameBindings(w, Store(w, r, slot, s))
  {
    var v := Store(w, r, slot, s);
    assert ValidVm(w.vms[r]);
    assert ValidVm(v.vms[r]) && SameVm(w.vms[r], v.vms[r]);
    forall q | 0 <= q < |v.vms|
      ensures ValidVm(v.vms[q])
    {
      assert ValidVm(w.vms[q]);
    }
  }

  lemma SameBindingsTrans(u: World, v: World, w: World)
    requires SameBindings(u, v) && SameBindings(v, w)
    ensures SameBindings(u, w)
  {
    assert Unfold(0);
  }

  // ---- The counters ----

  /** Reported bits are pending, and there is nothing in the slots of vCPUs the VM does not have. */
  ghost predicate Orderly(w: World) {
    forall k {:trigger Unfold(k)} :: Unfold(k) ==>
      forall r, t :: SlotIn(w, r, t) ==> SlotOrderly(w, r, t)
  }

  predicate SlotOrderly(w: World, r: int, t: Slot)
    requires SlotIn(w, r, t)
  {
    At(w, r, t).retrieved <= At(w, r, t).pending
      && (t.PerVcpu? && t.vcpu >= w.vms[r].vcpuCount ==> At(w, r, t).pending == {})
  }

  /** `excess` counts the times a bit was set that was pending already. */
  ghost predicate Counted(w: World, excess: int) {
    && Valid(w) && Orderly(w) && excess >= 0
    && w.retrievedCount == Total(w.vms, Seen) && w.pendingCount == Total(w.vms, Set) + excess
  }

  lemma StoreOrderly(w: World, r: int, slot: Slot, s: State)
    requires Valid(w) && Orderly(w) && SlotIn(w, r, slot) && s.retrieved <= s.pending
    requires slot.PerVcpu? && slot.vcpu >= w.vms[r].vcpuCount ==> s.pending == {}
    ensures Orderly(Store(w, r, slot, s))
  {
    var v := Store(w, r, slot, s);
    forall q, t | SlotIn(v, q, t)
      ensures SlotOrderly(v, q, t)
    {
      assert Unfold(0);
      assert SlotIn(w, q, t) && SlotOrderly(w, q, t);
    }
  }

  lemma OrderlyAt(w: World, r: int, t: Slot)
    requires Orderly(w) && SlotIn(w, r, t)
    ensures SlotOrderly(w, r, t)
  {
    assert Unfold(0);
  }

  lemma PendingIsBitmap(w: World, r: int, t: Slot)
    requires Valid(w) && SlotIn(w, r, t)
    ensures IsBitmap(At(w, r, t).pending)
  {
    assert ValidVm(w.vms[r]);
  }

  lemma SameOrder(w: World, v: World)
    requires Orderly(w) && v.vms == w.vms
    ensures Orderly(v)
  {
    forall r, t | SlotIn(v, r, t)
      ensures SlotOrderly(v, r, t)
    {
      OrderlyAt(w, r, t);
    }
  }

  lemma SetCounted(w: World, r: int, slot: Slot, n: Bitmap, excess: int)
    requires Counted(w, excess) && SlotIn(w, r, slot) && IsBitmap(n)
             && (slot.PerVcpu? ==> slot.vcpu < w.vms[r].vcpuCount)
    ensures Counted(SetState(w, r, slot, n), excess + |n * At(w, r, slot).pending|)
    ensures SameBindings(w, SetState(w, r, slot, n))
  {
    var s := At(w, r, slot);
    var s' := s.(pending := s.pending + n);
    OrderlyAt(w, r, slot);
    PendingIsBitmap(w, r, slot);
    StoreKeeps(w, r, slot, s');
    StoreOrderly(w, r, slot, s');
    SameOrder(Store(w, r, slot, s'), SetState(w, r, slot, n));
    TotalUpdate(w.vms, r, slot, s', Set);
    TotalUpdate(w.vms, r, slot, s', Seen);
    assert s.pending * n == n * s.pending;
    assert |s.pending + n| + |s.pending * n| == |s.pending| + |n|;
  }

  lemma TakeCounted(w: World, r: int, slot: Slot, excess: int)
    requires Counted(w, excess) && SlotIn(w, r, slot)
    ensures Counted(TakeState(w, r, slot), excess) && SameBindings(w, TakeState(w, r, slot))
  {
    var s := At(w, r, slot);
    OrderlyAt(w, r, slot);
    StoreKeeps(w, r, slot, State({}, {}));
    StoreOrderly(w, r, slot, State({}, {}));
    SameOrder(Store(w, r, slot, State({}, {})), TakeState(w, r, slot));
    TotalUpdate(w.vms, r, slot, State({}, {}), Set);
    TotalUpdate(w.vms, r, slot, State({}, {}), Seen);
    assert s.pending * s.retrieved == s.retrieved;
  }

  lemma MarkCounted(w: World, r: int, slot: Slot, excess: int)
    requires Counted(w, excess) && SlotIn(w, r, slot)
    ensures Counted(MarkState(w, r, slot), excess) && SameBindings(w, MarkState(w, r, slot))
  {
    var s := At(w, r, slot);
    var s' := s.(retrieved := s.retrieved + (s.pending - s.retrieved));
    OrderlyAt(w, r, slot);
    PendingIsBitmap(w, r, slot);
    StoreKeeps(w, r, slot, s');
    StoreOrderly(w, r, slot, s');
    SameOrder(Store(w, r, slot, s'), MarkState(w, r, slot));
    TotalUpdate(w.vms, r, slot, s', Set);
    TotalUpdate(w.vms, r, slot, s', Seen);
  }

  lemma {:induction false} TakeAllCounted(w: World, r: int, slots: seq<Slot>, excess: int, v: World)
    requires Counted(w, excess) && (forall k :: 0 <= k < |slots| ==> SlotIn(w, r, slots[k]))
             && v == TakeAll(w, r, slots)
    ensures Counted(v, excess) && SameBindings(w, v)
    ensures v.pendingCount <= w.pendingCount && v.retrievedCount <= w.retrievedCount
    decreases |slots|
  {
    if slots != [] {
      var x := TakeState(w, r, slots[0]);
      TakeCounted(w, r, slots[0], excess);
      assert forall k :: 0 <= k < |slots[1..]| ==> SlotIn(x, r, slots[1..][k]) by {
        assert Unfold(0);
      }
      TakeAllCounted(x, r, slots[1..], excess, v);
      SameBindingsTrans(w, x, v);
    }
  }

  /** What every step of INFO_GET keeps: the invariant, the bindings, and what is pending. */
  ghost predicate OnlyTells(w: World, v: World, excess: int) {
    Counted(v, excess) && SameBindings(w, v) && SamePending(w, v) && v.pendingCount == w.pendingCount
  }

  ghost predicate SamePending(w: World, v: World) {
    forall k {:trigger Unfold(k)} :: Unfold(k) ==>
      && (forall r, t :: SlotIn(v, r, t) <==> SlotIn(w, r, t))
      && (forall r, t :: SlotIn(w, r, t) && SlotIn(v, r, t) ==> At(v, r, t).pending == At(w, r, t).pending)
  }

  lemma TellsTrans(u: World, v: World, w: World, excess: int)
    requires OnlyTells(u, v, excess) && OnlyTells(v, w, excess)
    ensures OnlyTells(u, w, excess)
  {
    SameBindingsTrans(u, v, w);
    assert SamePending(u, w) by {
      assert Unfold(0);
    }
  }

  lemma InfoSlotTells(i: Info, r: int, slot: Slot, max: nat, excess: int)
    requires Counted(i.w, excess) && SlotIn(i.w, r, slot) && (i.phase == Inserting ==> i.report != [])
    ensures OnlyTells(i.w, InfoSlot(i, r, slot, max).w, excess)
  {
    var j := InfoSlot(i, r, slot, max);
    MarkCounted(i.w, r, slot, excess);
    MarkSame(i.w, r, slot);
    assert j.w == i.w || j.w == MarkState(i.w, r, slot);
    StandSame(i.w);
  }

  lemma MarkSame(w: World, r: int, slot: Slot)
    requires SlotIn(w, r, slot)
    ensures SamePending(w, MarkState(w, r, slot))
  {
    assert Unfold(0);
  }

  lemma StandSame(w: World)
    ensures SamePending(w, w) && SameBindings(w, w)
  {
  }

  lemma {:induction false} InfoAllTells(i: Info, r: int, slots: seq<Slot>, max: nat, excess: int, j: Info)
    requires Counted(i.w, excess) && forall k :: 0 <= k < |slots| ==> SlotIn(i.w, r, slots[k])
    requires (i.phase == Inserting ==> i.report != []) && j == InfoAll(i, r, slots, max)
    ensures OnlyTells(i.w, j.w, excess)
    decreases |slots|
  {
    if slots != [] {
      var x := InfoSlot(i, r, slots[0], max);
      InfoSlotTells(i, r, slots[0], max, excess);
      InfoAllTells(x, r, slots[1..], max, excess, j);
      TellsTrans(i.w, x.w, j.w, excess);
    }
  }

  lemma {:induction false} InfoVmsTells(w: World, report: seq<Group>, r: int, max: nat, excess: int, j: Info)
    requires Counted(w, excess) && 0 <= r <= |w.vms| && Size(report) <= max && GroupsFit(report)
    requires j == InfoVms(w, report, r, max)
    ensures OnlyTells(w, j.w, excess)
    decreases |w.vms| - r
  {
    if r < |w.vms| {
      var x := InfoVm(w, report, r, max);
      InfoVmMeans(w, report, r, max, x);
      SameVms(w, x.w, r);
      SlotsThere(w, r);
      InfoAllTells(Info(w, report, Init), r, InfoSlots(w.vms[r]), max, excess, x);
      if x.phase != Full {
        InfoVmsTells(x.w, x.report, r + 1, max, excess, j);
        TellsTrans(w, x.w, j.w, excess);
      }
    }
  }

  /** `v` is `w` with one source's bindings changed. */
  predicate Rebinds(w: World, v: World, r: int, fromVm: bool, s: Source) {
    && 0 <= r < |w.vms| && v == w.(vms := w.vms[r := PutSource(w.vms[r], fromVm, s)])
    && s.vcpus == SourceOf(w.vms[r], fromVm).vcpus && s.global == SourceOf(w.vms[r], fromVm).global
    && |s.senders| == MAX_FFA_NOTIFICATIONS && IsBitmap(s.perVcpu)
  }

  lemma RebindsAt(w: World, v: World, r: int, fromVm: bool, s: Source, q: int, t: Slot)
    requires Rebinds(w, v, r, fromVm, s)
    ensures SlotIn(v, q, t) <==> SlotIn(w, q, t)
    ensures SlotIn(w, q, t) ==> At(v, q, t) == At(w, q, t) && v.vms[q].vcpuCount == w.vms[q].vcpuCount
  {
  }

  lemma RebindsCounted(w: World, v: World, r: int, fromVm: bool, s: Source, excess: int)
    requires Counted(w, excess) && Rebinds(w, v, r, fromVm, s)
    ensures Counted(v, excess) && SamePending(w, v)
  {
    assert ValidVm(w.vms[r]) && ValidVm(v.vms[r]);
    TotalRebound(w.vms, r, v.vms[r], Set);
    TotalRebound(w.vms, r, v.vms[r], Seen);
    forall q | 0 <= q < |v.vms|
      ensures ValidVm(v.vms[q])
    {
      assert ValidVm(w.vms[q]);
    }
    forall q, t
      ensures SlotIn(v, q, t) <==> SlotIn(w, q, t)
      ensures SlotIn(w, q, t) ==> At(v, q, t) == At(w, q, t) && SlotOrderly(v, q, t)
    {
      RebindsAt(w, v, r, fromVm, s, q, t);
      if SlotIn(w, q, t) {
        OrderlyAt(w, q, t);
      }
    }
  }

  /** The bindings a call leaves. */
  function NewSource(w: World, ev: Event): Source
    requires ev.Bindings? && 0 <= ev.r < |w.vms|
  {
    Rebound(SourceOf(w.vms[ev.r], ev.fromVm), if ev.isBind then ev.sender else HF_INVALID_VM_ID, ev.n,
            ev.perVcpu && ev.isBind)
  }

  predicate BindingAccepted(w: World, ev: Event)
    requires Valid(w) && IsEvent(ev) && ev.Bindings?
  {
    BindingStatus(w, ev.isBind, ev.sender, ev.fromVm, ev.r, ev.n, ev.valid, ev.known) == Success
  }

  lemma StepRebinds(w: World, ev: Event)
    requires Valid(w) && IsEvent(ev) && ev.Bindings? && BindingAccepted(w, ev)
    ensures Rebinds(w, Step(w, ev), ev.r, ev.fromVm, NewSource(w, ev))
  {
    assert ValidVm(w.vms[ev.r]);
  }

  lemma BindingsCounted(w: World, ev: Event, excess: int)
    requires Counted(w, excess) && IsEvent(ev) && ev.Bindings?
    ensures Counted(Step(w, ev), excess) && SamePending(w, Step(w, ev))
  {
    if BindingAccepted(w, ev) {
      StepRebinds(w, ev);
      RebindsCounted(w, Step(w, ev), ev.r, ev.fromVm, NewSource(w, ev), excess);
    } else {
      assert SamePending(w, w);
    }
  }

  // ---- Every call keeps the count ----

  /** The bits the call sets that are pending already. */
  function Again(w: World, ev: Event): nat
    requires Valid(w) && IsEvent(ev)
  {
    if ev.SetPending? && SetAccepted(w, ev) then |ev.n * At(w, ev.r, SlotOf(ev)).pending|
    else if ev.SetFramework? && 0 <= ev.r < |w.vms| then |ev.n * w.vms[ev.r].framework.pending|
    else 0
  }

  lemma StepCounted(w: World, ev: Event, excess: int)
    requires Counted(w, excess) && IsEvent(ev) && !Panics(w, ev)
    ensures Counted(Step(w, ev), excess + Again(w, ev))
  {
    match ev
    case Bindings(_, _, _, _, _, _, _, _) => BindingsCounted(w, ev, excess);
    case SetPending(_, _, r, _, _, n, _) =>
      if SetAccepted(w, ev) {
        SetCounted(w, r, SlotOf(ev), n, excess);
      }
    case SetFramework(r, n) =>
      if 0 <= r < |w.vms| {
        SetCounted(w, r, Framework, n, excess);
      }
    case GetPending(r, _, _, _, _, _, _) =>
      if GetAccepted(w, ev) {
        TakenThere(w, ev);
        TakeAllCounted(w, r, Taken(ev), excess, Step(w, ev));
      }
    case InfoGet(_, before) =>
      if Size(before) < FFA_NOTIFICATIONS_INFO_GET_MAX_IDS {
        InfoVmsTells(w, before, 0, FFA_NOTIFICATIONS_INFO_GET_MAX_IDS, excess,
                     InfoVms(w, before, 0, FFA_NOTIFICATIONS_INFO_GET_MAX_IDS));
      }
  }

  lemma TakenThere(w: World, ev: Event)
    requires Valid(w) && IsEvent(ev) && ev.GetPending? && GetAccepted(w, ev)
    ensures forall k :: 0 <= k < |Taken(ev)| ==> SlotIn(w, ev.r, Taken(ev)[k])
  {
    assert ValidVm(w.vms[ev.r]);
  }

  // ---- The CHECKs ----

  /** Taking and reporting never trip a CHECK: no counter can go below zero, or past the 32 bits. */
  lemma NeverPanics(w: World, ev: Event, excess: int)
    requires Counted(w, excess) && In32Bits(w) && IsEvent(ev) && !ev.SetPending? && !ev.SetFramework?
    ensures !Panics(w, ev)
  {
    match ev
    case Bindings(_, _, _, _, _, _, _, _) =>
    case GetPending(r, _, _, _, _, _, _) =>
      if GetAccepted(w, ev) {
        TakenThere(w, ev);
        TakeAllCounted(w, r, Taken(ev), excess, Step(w, ev));
      }
    case InfoGet(isPrimary, before) =>
      if isPrimary && Size(before) < FFA_NOTIFICATIONS_INFO_GET_MAX_IDS {
        InfoVmsTells(w, before, 0, FFA_NOTIFICATIONS_INFO_GET_MAX_IDS, excess,
                     InfoVms(w, before, 0, FFA_NOTIFICATIONS_INFO_GET_MAX_IDS));
        SeenBelowSet(Step(w, ev), excess);
      }
  }

  /** Setting trips one exactly when the count would overflow, or a global call carries a stray vCPU ID. */
  lemma SetPanics(w: World, ev: Event, excess: int)
    requires Counted(w, excess) && In32Bits(w) && IsEvent(ev) && ev.SetPending?
    ensures Panics(w, ev) <==>
            SetAccepted(w, ev) && (ev.vcpu >= MaxCpus(w.vms[ev.r]) || w.pendingCount + |ev.n| > UINT32_MAX)
  {
  }

  // ---- More pending ----

  lemma {:induction false} CountOrder(ss: seq<State>)
    requires forall i :: 0 <= i < |ss| ==> ss[i].retrieved <= ss[i].pending
    ensures Count(ss, Seen) <= Count(ss, Set)
    ensures Count(ss, Seen) < Count(ss, Set) <==> exists i :: 0 <= i < |ss| && Unreported(ss[i])
  {
    if ss != [] {
      CountOrder(ss[1..]);
      var s := ss[0];
      assert |s.pending - s.retrieved| == |s.pending| - |s.pending * s.retrieved|
             && s.pending * s.retrieved == s.retrieved;
      assert Unreported(s) <==> s.pending - s.retrieved != {};
      if i :| 0 <= i < |ss[1..]| && Unreported(ss[1..][i]) {
        assert Unreported(ss[i + 1]);
      }
      if i :| 0 <= i < |ss| && Unreported(ss[i]) {
        assert i == 0 || ss[i] == ss[1..][i - 1];
      }
    }
  }

  /** The slot whose state is at index `i` of `States`. */
  function SlotAt(vm: Vm, i: nat): Slot
    requires i < |States(vm)|
  {
    var n := |vm.fromSp.vcpus|;
    if i == 0 then Framework
    else if i == 1 then Global(false)
    else if i < 2 + n then PerVcpu(false, i - 2)
    else if i == 2 + n then Global(true)
    else PerVcpu(true, i - 3 - n)
  }

  lemma SlotAtIs(vm: Vm, i: nat)
    requires i < |States(vm)|
    ensures HasSlot(vm, SlotAt(vm, i)) && Get(vm, SlotAt(vm, i)) == States(vm)[i] && IndexOf(vm, SlotAt(vm, i)) == i
  {
  }

  lemma {:induction false} TotalOrder(w: World, n: nat)
    requires Orderly(w) && n <= |w.vms|
    ensures Total(w.vms[n..], Seen) <= Total(w.vms[n..], Set)
    ensures Total(w.vms[n..], Seen) < Total(w.vms[n..], Set) <==> exists r :: n <= r < |w.vms| && HasMore(w, r)
    decreases |w.vms| - n
  {
    if n < |w.vms| {
      assert w.vms[n..][1..] == w.vms[n + 1..];
      TotalOrder(w, n + 1);
      VmOrder(w, n);
    }
  }

  lemma VmOrder(w: World, r: nat)
    requires Orderly(w) && r < |w.vms|
    ensures Count(States(w.vms[r]), Seen) <= Count(States(w.vms[r]), Set)
    ensures Count(States(w.vms[r]), Seen) < Count(States(w.vms[r]), Set) <==> HasMore(w, r)
  {
    var vm, ss := w.vms[r], States(w.vms[r]);
    forall i | 0 <= i < |ss|
      ensures ss[i].retrieved <= ss[i].pending && (Unreported(ss[i]) ==> Waiting(w, r, SlotAt(vm, i)))
    {
      SlotAtIs(vm, i);
      OrderlyAt(w, r, SlotAt(vm, i));
    }
    CountOrder(ss);
    forall t | Waiting(w, r, t)
      ensures exists i :: 0 <= i < |ss| && Unreported(ss[i])
    {
      StatesUpdate(vm, t, Get(vm, t));
      assert Unreported(ss[IndexOf(vm, t)]);
    }
  }

  lemma SeenBelowSet(w: World, excess: int)
    requires Counted(w, excess)
    ensures 0 <= w.retrievedCount <= w.pendingCount
  {
    assert w.vms[0..] == w.vms;
    TotalOrder(w, 0);
  }

  /** The more-pending flag: set exactly when something is unreported, or a pending bit was ever set again. */
  lemma MorePendingIff(w: World, excess: int)
    requires Counted(w, excess)
    ensures w.pendingCount > w.retrievedCount <==> excess > 0 || exists r :: 0 <= r < |w.vms| && HasMore(w, r)
  {
    assert w.vms[0..] == w.vms;
    TotalOrder(w, 0);
  }

  // ---- Runs ----

  /** Nothing pending and nothing bound, as after vm_init. */
  ghost predicate Initial(w: World) {
    && Valid(w) && w.pendingCount == 0 && w.retrievedCount == 0
    && (forall r, t :: SlotIn(w, r, t) ==> At(w, r, t) == State({}, {}))
    && (forall r, d, b :: 0 <= r < |w.vms| && 0 <= b < MAX_FFA_NOTIFICATIONS ==> Bound(w, r, d, b) == HF_INVALID_VM_ID)
  }

  datatype Config = Config(id: int, vcpuCount: nat, enabled: bool)

  function FreshSource(maxCpus: nat): Source {
    Source(seq(MAX_FFA_NOTIFICATIONS, _ => HF_INVALID_VM_ID), {}, seq(maxCpus, _ => State({}, {})), State({}, {}))
  }

  /** A VM that has just been initialised. */
  function FreshVm(c: Config, maxCpus: nat): Vm {
    Vm(c.id, c.vcpuCount, c.enabled, FreshSource(maxCpus), FreshSource(maxCpus), State({}, {}))
  }

  function Fresh(configs: seq<Config>, maxCpus: nat): World {
    World(seq(|configs|, r requires 0 <= r < |configs| => FreshVm(configs[r], maxCpus)), 0, 0)
  }

  lemma FreshIsInitial(configs: seq<Config>, maxCpus: nat)
    requires forall r :: 0 <= r < |configs| ==> configs[r].vcpuCount <= maxCpus
    ensures Initial(Fresh(configs, maxCpus))
  {
    var w := Fresh(configs, maxCpus);
    forall r | 0 <= r < |w.vms|
      ensures ValidVm(w.vms[r])
    {
      assert w.vms[r] == FreshVm(configs[r], maxCpus);
    }
  }

  /** The sender that bit `b` of a receiver is bound to. */
  function Bound(w: World, r: int, fromVm: bool, b: int): int
    requires 0 <= r < |w.vms|
  {
    var s := SourceOf(w.vms[r], fromVm).senders;
    if 0 <= b < |s| then s[b] else HF_INVALID_VM_ID
  }

  function After(w: World, evs: seq<Event>): World {
    if evs == [] then w
    else
      var v, ev := After(w, evs[..|evs| - 1]), evs[|evs| - 1];
      if Valid(v) && IsEvent(ev) then Step(v, ev) else v
  }

  /** Calls one after the other, none of which panics. */
  predicate IsRun(w: World, evs: seq<Event>) {
    evs == [] ||
    (var v, ev := After(w, evs[..|evs| - 1]), evs[|evs| - 1];
     IsRun(w, evs[..|evs| - 1]) && IsEvent(ev) && (Valid(v) ==> !Panics(v, ev)))
  }

  /** How often in the run a bit was set that was pending already. */
  function Excess(w: World, evs: seq<Event>): nat {
    if evs == [] then 0
    else
      var v, ev := After(w, evs[..|evs| - 1]), evs[|evs| - 1];
      Excess(w, evs[..|evs| - 1]) + if Valid(v) && IsEvent(ev) then Again(v, ev) else 0
  }

  lemma {:induction false} EmptyTotal(vms: seq<Vm>, k: Tally)
    requires forall r :: 0 <= r < |vms| ==> EmptyStates(States(vms[r]))
    ensures Total(vms, k) == 0
  {
    if vms != [] {
      EmptyCount(States(vms[0]), k);
      EmptyTotal(vms[1..], k);
    }
  }

  predicate EmptyStates(ss: seq<State>) {
    forall i :: 0 <= i < |ss| ==> ss[i] == State({}, {})
  }

  lemma {:induction false} EmptyCount(ss: seq<State>, k: Tally)
    requires EmptyStates(ss)
    ensures Count(ss, k) == 0
  {
    if ss != [] {
      EmptyCount(ss[1..], k);
    }
  }

  lemma InitialCounted(w: World)
    requires Initial(w)
    ensures Counted(w, 0)
  {
    forall r | 0 <= r < |w.vms|
      ensures EmptyStates(States(w.vms[r]))
    {
      forall i | 0 <= i < |States(w.vms[r])|
        ensures States(w.vms[r])[i] == State({}, {})
      {
        SlotAtIs(w.vms[r], i);
        assert SlotIn(w, r, SlotAt(w.vms[r], i));
      }
    }
    EmptyTotal(w.vms, Set);
    EmptyTotal(w.vms, Seen);
  }

  /**
    * Over every run: reported bits are pending, the retrieved counter is their exact number, and the
    * pending counter exceeds the number of pending bits by exactly the bits that were set again.
    */
  lemma {:induction false} CountersOfRun(w: World, evs: seq<Event>)
    requires Initial(w) && IsRun(w, evs)
    ensures Counted(After(w, evs), Excess(w, evs)) && In32Bits(After(w, evs))
    decreases |evs|
  {
    if evs == [] {
      InitialCounted(w);
    } else {
      var evs' := evs[..|evs| - 1];
      CountersOfRun(w, evs');
      StepCounted(After(w, evs'), evs[|evs| - 1], Excess(w, evs'));
    }
  }

  /** The scheduler is told that more is pending exactly when it is, until a pending bit is set again. */
  lemma FlagOfRun(w: World, evs: seq<Event>)
    requires Initial(w) && IsRun(w, evs)
    ensures var v := After(w, evs);
            v.pendingCount > v.retrievedCount <==> Excess(w, evs) > 0 || exists r :: 0 <= r < |v.vms| && HasMore(v, r)
  {
    CountersOfRun(w, evs);
    MorePendingIff(After(w, evs), Excess(w, evs));
  }

  lemma {:induction false} ExcessGrows(w: World, evs: seq<Event>, more: seq<Event>)
    ensures Excess(w, evs) <= Excess(w, evs + more)
    decreases |more|
  {
    if more == [] {
      assert evs + more == evs;
    } else {
      var n := |more| - 1;
      ExcessGrows(w, evs, more[..n]);
      assert evs + more == evs + more[..n] + [more[n]];
      ExcessNext(w, evs + more[..n], more[n]);
    }
  }

  lemma ExcessNext(w: World, evs: seq<Event>, ev: Event)
    ensures Excess(w, evs) <= Excess(w, evs + [ev])
  {
    assert (evs + [ev])[..|evs|] == evs;
  }

  /** Once a pending bit was set again, the scheduler is told forever that more is pending. */
  lemma FlagStays(w: World, evs: seq<Event>, more: seq<Event>)
    requires Initial(w) && IsRun(w, evs + more) && Excess(w, evs) > 0
    ensures After(w, evs + more).pendingCount > After(w, evs + more).retrievedCount
  {
    ExcessGrows(w, evs, more);
    FlagOfRun(w, evs + more);
  }

  // ---- Who set what ----

  /** The senders that have set the bit in the slot since the receiver last got it. */
  function Setters(w: World, evs: seq<Event>, r: int, slot: Slot, b: int): set<int> {
    if evs == [] then {}
    else
      var v, ev := After(w, evs[..|evs| - 1]), evs[|evs| - 1];
      var before := Setters(w, evs[..|evs| - 1], r, slot, b);
      if Valid(v) && IsEvent(ev) then SettersStep(v, ev, r, slot, b, before) else before
  }

  function SettersStep(w: World, ev: Event, r: int, slot: Slot, b: int, setters: set<int>): set<int>
    requires Valid(w) && IsEvent(ev)
  {
    if ev.SetPending? && SetAccepted(w, ev) && ev.r == r && SlotOf(ev) == slot && b in ev.n then setters + {ev.sender}
    else if ev.GetPending? && GetAccepted(w, ev) && ev.r == r && slot in Taken(ev) then {}
    else setters
  }

  /** A pending bit is bound, was set by the bound sender and nobody else, and is in the slot of its kind. */
  predicate BitInv(w: World, setters: set<int>, r: int, slot: Slot, b: int)
    requires SlotIn(w, r, slot) && !slot.Framework?
  {
    && (b in At(w, r, slot).pending <==> setters != {})
    && (b in At(w, r, slot).pending ==>
        && setters == {Bound(w, r, slot.fromVm, b)} && Bound(w, r, slot.fromVm, b) != HF_INVALID_VM_ID
        && (b in SourceOf(w.vms[r], slot.fromVm).perVcpu <==> slot.PerVcpu?))
  }

  lemma {:induction false} TakeAllAt(w: World, r: int, slots: seq<Slot>, q: int, t: Slot)
    requires (forall k :: 0 <= k < |slots| ==> SlotIn(w, r, slots[k])) && SlotIn(w, q, t)
    ensures SlotIn(TakeAll(w, r, slots), q, t)
    ensures At(TakeAll(w, r, slots), q, t) == if q == r && t in slots then State({}, {}) else At(w, q, t)
    decreases |slots|
  {
    if slots != [] {
      assert Unfold(0);
      var x := TakeState(w, r, slots[0]);
      TakeAllAt(x, r, slots[1..], q, t);
      assert t in slots <==> t == slots[0] || t in slots[1..];
    }
  }

  lemma SameBound(w: World, v: World, r: int, fromVm: bool, b: int)
    requires SameBindings(w, v) && 0 <= r < |w.vms|
    ensures |v.vms| == |w.vms| && Bound(v, r, fromVm, b) == Bound(w, r, fromVm, b)
    ensures SourceOf(v.vms[r], fromVm).perVcpu == SourceOf(w.vms[r], fromVm).perVcpu
  {
    assert Unfold(0);
    assert SameVm(w.vms[r], v.vms[r]);
  }

  lemma BindingsBit(w: World, ev: Event, r: int, slot: Slot, b: int, setters: set<int>)
    requires Valid(w) && IsEvent(ev) && ev.Bindings? && SlotIn(w, r, slot) && !slot.Framework?
    requires BitInv(w, setters, r, slot, b)
    ensures SlotIn(Step(w, ev), r, slot) && BitInv(Step(w, ev), setters, r, slot, b)
  {
    if BindingAccepted(w, ev) {
      StepRebinds(w, ev);
      RebindsAt(w, Step(w, ev), ev.r, ev.fromVm, NewSource(w, ev), r, slot);
      if r == ev.r && slot.fromVm == ev.fromVm && b in ev.n {
        assert !AnyPending(SourceOf(w.vms[r], slot.fromVm), ev.n);
        assert b !in At(w, r, slot).pending * ev.n;
      }
    }
  }

  lemma SetAt(w: World, r: int, slot: Slot, n: Bitmap, q: int, t: Slot, v: World)
    requires SlotIn(w, r, slot) && SlotIn(w, q, t) && v == SetState(w, r, slot, n)
    ensures SlotIn(v, q, t)
    ensures At(v, q, t).pending == if q == r && t == slot then At(w, q, t).pending + n else At(w, q, t).pending
  {
    assert Unfold(0);
  }

  lemma KindOf(s: Source, n: Bitmap, perVcpu: bool, b: int)
    requires KindMatches(s, n, perVcpu) && b in n
    ensures b in s.perVcpu <==> perVcpu
  {
    assert b in s.perVcpu * n <==> b in s.perVcpu;
  }

  lemma SetBit(w: World, ev: Event, excess: int, r: int, slot: Slot, b: int, setters: set<int>, v: World)
    requires Counted(w, excess) && IsEvent(ev) && ev.SetPending? && SetAccepted(w, ev) && ev.sender != HF_INVALID_VM_ID
    requires SlotIn(w, r, slot) && !slot.Framework? && BitInv(w, setters, r, slot, b) && v == Step(w, ev)
    ensures SlotIn(v, r, slot)
    ensures BitInv(v, if ev.r == r && SlotOf(ev) == slot && b in ev.n then setters + {ev.sender} else setters, r,
                   slot, b)
  {
    assert ValidVm(w.vms[ev.r]);
    SetAt(w, ev.r, SlotOf(ev), ev.n, r, slot, v);
    SetCounted(w, ev.r, SlotOf(ev), ev.n, excess);
    SameBound(w, v, r, slot.fromVm, b);
    if ev.r == r && SlotOf(ev) == slot && b in ev.n {
      assert Bound(w, r, slot.fromVm, b) == ev.sender;
      KindOf(SourceOf(w.vms[r], slot.fromVm), ev.n, ev.perVcpu, b);
    }
  }

  lemma SetFrameworkBit(w: World, ev: Event, excess: int, r: int, slot: Slot, b: int, setters: set<int>)
    requires Counted(w, excess) && IsEvent(ev) && ev.SetFramework?
    requires SlotIn(w, r, slot) && !slot.Framework? && BitInv(w, setters, r, slot, b)
    ensures SlotIn(Step(w, ev), r, slot) && BitInv(Step(w, ev), setters, r, slot, b)
  {
    if 0 <= ev.r < |w.vms| {
      SetAt(w, ev.r, Framework, ev.n, r, slot, Step(w, ev));
      SetCounted(w, ev.r, Framework, ev.n, excess);
      SameBound(w, Step(w, ev), r, slot.fromVm, b);
    }
  }

  lemma GetBit(w: World, ev: Event, excess: int, r: int, slot: Slot, b: int, setters: set<int>, v: World)
    requires Counted(w, excess) && IsEvent(ev) && ev.GetPending? && GetAccepted(w, ev) && v == Step(w, ev)
    requires SlotIn(w, r, slot) && !slot.Framework? && BitInv(w, setters, r, slot, b)
    ensures SlotIn(v, r, slot)
    ensures BitInv(v, if ev.r == r && slot in Taken(ev) then {} else setters, r, slot, b)
  {
    TakenThere(w, ev);
    TakeAllAt(w, ev.r, Taken(ev), r, slot);
    TakeAllCounted(w, ev.r, Taken(ev), excess, v);
    SameBound(w, v, r, slot.fromVm, b);
  }

  lemma InfoGetBit(w: World, ev: Event, excess: int, r: int, slot: Slot, b: int, setters: set<int>)
    requires Counted(w, excess) && IsEvent(ev) && ev.InfoGet?
    requires SlotIn(w, r, slot) && !slot.Framework? && BitInv(w, setters, r, slot, b)
    ensures SlotIn(Step(w, ev), r, slot) && BitInv(Step(w, ev), setters, r, slot, b)
  {
    var v, max := Step(w, ev), FFA_NOTIFICATIONS_INFO_GET_MAX_IDS;
    if ev.isPrimary && Size(ev.before) < max {
      InfoVmsTells(w, ev.before, 0, max, excess, InfoVms(w, ev.before, 0, max));
      SamePendingAt(w, v, r, slot);
      SameBound(w, v, r, slot.fromVm, b);
    }
  }

  lemma SamePendingAt(w: World, v: World, r: int, slot: Slot)
    requires SamePending(w, v) && SlotIn(w, r, slot)
    ensures SlotIn(v, r, slot) && At(v, r, slot).pending == At(w, r, slot).pending
  {
    assert Unfold(0);
  }

  /** The platform lets no call through that is made in the name of nobody. */
  predicate ValidSenders(evs: seq<Event>) {
    forall k :: 0 <= k < |evs| && evs[k].SetPending? ==> evs[k].sender != HF_INVALID_VM_ID
  }

  /** Over every run, every bit of every partition slot. */
  lemma {:induction false} BitOfRun(w: World, evs: seq<Event>, r: int, slot: Slot, b: int)
    requires Initial(w) && IsRun(w, evs) && ValidSenders(evs) && SlotIn(w, r, slot) && !slot.Framework?
    ensures SlotIn(After(w, evs), r, slot)
    ensures BitInv(After(w, evs), Setters(w, evs, r, slot, b), r, slot, b)
    decreases |evs|
  {
    if evs != [] {
      var evs', ev := evs[..|evs| - 1], evs[|evs| - 1];
      var v, excess, setters := After(w, evs'), Excess(w, evs'), Setters(w, evs', r, slot, b);
      BitOfRun(w, evs', r, slot, b);
      CountersOfRun(w, evs');
      StepBit(v, ev, excess, r, slot, b, setters);
      assert After(w, evs) == Step(v, ev);
      assert Setters(w, evs, r, slot, b) == SettersStep(v, ev, r, slot, b, setters);
    }
  }

  lemma StepBit(w: World, ev: Event, excess: int, r: int, slot: Slot, b: int, setters: set<int>)
    requires Counted(w, excess) && IsEvent(ev) && (ev.SetPending? ==> ev.sender != HF_INVALID_VM_ID)
    requires SlotIn(w, r, slot) && !slot.Framework? && BitInv(w, setters, r, slot, b)
    ensures SlotIn(Step(w, ev), r, slot)
    ensures BitInv(Step(w, ev), SettersStep(w, ev, r, slot, b, setters), r, slot, b)
  {
    match ev
    case Bindings(_, _, _, _, _, _, _, _) => BindingsBit(w, ev, r, slot, b, setters);
    case SetPending(_, _, _, _, _, _, _) =>
      if SetAccepted(w, ev) {
        SetBit(w, ev, excess, r, slot, b, setters, Step(w, ev));
      }
    case SetFramework(_, _) => SetFrameworkBit(w, ev, excess, r, slot, b, setters);
    case GetPending(_, _, _, _, _, _, _) =>
      if GetAccepted(w, ev) {
        GetBit(w, ev, excess, r, slot, b, setters, Step(w, ev));
      }
    case InfoGet(_, _) => InfoGetBit(w, ev, excess, r, slot, b, setters);
  }

  /** Were such a call let through, it could set any notifications that nobody is bound to. */
  lemma NobodySetsUnbound(w: World, ev: Event)
    requires Valid(w) && IsEvent(ev) && ev.SetPending? && ev.sender == HF_INVALID_VM_ID
    requires ev.valid && ev.n != {} && 0 <= ev.r < |w.vms| && w.vms[ev.r].enabled && !ev.perVcpu
    requires forall b :: b in ev.n ==> Bound(w, ev.r, ev.fromVm, b) == HF_INVALID_VM_ID
    requires SourceOf(w.vms[ev.r], ev.fromVm).perVcpu * ev.n == {}
    ensures SetAccepted(w, ev) && ev.n <= At(Step(w, ev), ev.r, Global(ev.fromVm)).pending
  {
    assert ValidVm(w.vms[ev.r]);
    forall b | b in ev.n
      ensures SourceOf(w.vms[ev.r], ev.fromVm).senders[b] == ev.sender
    {
      assert Bound(w, ev.r, ev.fromVm, b) == HF_INVALID_VM_ID;
    }
    SetAt(w, ev.r, SlotOf(ev), ev.n, ev.r, SlotOf(ev), Step(w, ev));
  }
}
