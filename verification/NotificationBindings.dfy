/**
  * Exactly when binding, unbinding, setting and getting notifications is accepted, and what each does
  * then (src/api.c, src/vm.c), in terms of who is bound to which notification and what is pending.
  */
module NotificationBindings {
  import opened Arithmetic
  import opened Notifications
  import opened NotificationInfo
  import opened NotificationRuns

  predicate IsPerVcpu(w: World, r: int, fromVm: bool, b: int)
    requires 0 <= r < |w.vms|
  {
    b in SourceOf(w.vms[r], fromVm).perVcpu
  }

  /** Notification `b` from that world is pending for the receiver, on some vCPU or globally. */
  ghost predicate IsPending(w: World, r: int, fromVm: bool, b: int) {
    exists t :: SlotIn(w, r, t) && !t.Framework? && t.fromVm == fromVm && b in At(w, r, t).pending
  }

  ghost predicate SameSlots(v: World, w: World) {
    && |v.vms| == |w.vms| && v.pendingCount == w.pendingCount && v.retrievedCount == w.retrievedCount
    && (forall q, t :: SlotIn(v, q, t) <==> SlotIn(w, q, t))
    && forall q, t :: SlotIn(w, q, t) && SlotIn(v, q, t) ==> At(v, q, t) == At(w, q, t)
  }

  ghost predicate SameBinding(v: World, w: World, q: int, d: bool, b: int)
    requires |v.vms| == |w.vms| && 0 <= q < |w.vms|
  {
    Bound(v, q, d, b) == Bound(w, q, d, b) && IsPerVcpu(v, q, d, b) == IsPerVcpu(w, q, d, b)
  }

  // ---- Bind and unbind ----

  /** The call is made by who may make it, for a receiver that has notifications, about notifications that
      are all bound to the sender, or all unbound, and none of them pending. */
  ghost predicate MayRebind(w: World, ev: Event)
    requires ev.Bindings?
  {
    && ev.valid && ev.n != {} && 0 <= ev.r < |w.vms| && w.vms[ev.r].enabled && (ev.isBind ==> ev.known)
    && forall b :: b in ev.n ==>
         && Bound(w, ev.r, ev.fromVm, b) == (if ev.isBind then HF_INVALID_VM_ID else ev.sender)
         && !IsPending(w, ev.r, ev.fromVm, b)
  }

  /** On exactly the notifications of the call: bound to the sender in the kind that was asked for, or to
      nobody. Nothing pending has changed. */
  ghost predicate Rebinding(v: World, w: World, ev: Event)
    requires ev.Bindings?
  {
    && SameSlots(v, w)
    && forall q, d, b :: 0 <= q < |w.vms| && 0 <= b < MAX_FFA_NOTIFICATIONS ==>
         if q == ev.r && d == ev.fromVm && b in ev.n then
           if ev.isBind then Bound(v, q, d, b) == ev.sender && IsPerVcpu(v, q, d, b) == ev.perVcpu
           else Bound(v, q, d, b) == HF_INVALID_VM_ID && !IsPerVcpu(v, q, d, b)
         else SameBinding(v, w, q, d, b)
  }

  ghost predicate RebindMeans(w: World, ev: Event, v: World, status: Status)
    requires ev.Bindings?
  {
    && (status == Success <==> MayRebind(w, ev))
    && (status == NotSupported <==> ev.valid && ev.n != {} && 0 <= ev.r < |w.vms| && !w.vms[ev.r].enabled)
    && (status == InvalidParameters <==>
        !ev.valid || ev.n == {} || (0 <= ev.r < |w.vms| && w.vms[ev.r].enabled && ev.isBind && !ev.known))
    && if status == Success then Rebinding(v, w, ev) else v == w
  }

  lemma AnyPendingIff(w: World, r: int, fromVm: bool, n: Bitmap)
    requires Valid(w) && 0 <= r < |w.vms|
    ensures AnyPending(SourceOf(w.vms[r], fromVm), n) <==> exists b :: b in n && IsPending(w, r, fromVm, b)
  {
    var s := SourceOf(w.vms[r], fromVm);
    if b :| b in n && IsPending(w, r, fromVm, b) {
      var t :| SlotIn(w, r, t) && !t.Framework? && t.fromVm == fromVm && b in At(w, r, t).pending;
      assert b in At(w, r, t).pending * n;
    }
    if s.global.pending * n != {} {
      SomeIn(s.global.pending, n, w, r, Global(fromVm));
    }
    if i :| 0 <= i < |s.vcpus| && s.vcpus[i].pending * n != {} {
      SomeIn(s.vcpus[i].pending, n, w, r, PerVcpu(fromVm, i));
    }
  }

  lemma SomeIn(p: Bitmap, n: Bitmap, w: World, r: int, t: Slot)
    requires p * n != {} && SlotIn(w, r, t) && !t.Framework? && At(w, r, t).pending == p
    ensures exists b :: b in n && IsPending(w, r, t.fromVm, b)
  {
    assert (forall b: int :: b !in p * n) ==> p * n == {};
    var b :| b in p * n;
    assert b in n && IsPending(w, r, t.fromVm, b);
  }

  lemma BoundToIff(w: World, r: int, fromVm: bool, sender: int, n: Bitmap)
    requires Valid(w) && 0 <= r < |w.vms| && IsBitmap(n)
    ensures |SourceOf(w.vms[r], fromVm).senders| == MAX_FFA_NOTIFICATIONS
    ensures BoundTo(SourceOf(w.vms[r], fromVm), sender, n) <==> forall b :: b in n ==> Bound(w, r, fromVm, b) == sender
  {
    assert ValidVm(w.vms[r]);
  }

  /** Bind and unbind. */
  lemma RebindIff(w: World, ev: Event)
    requires Valid(w) && IsEvent(ev) && ev.Bindings?
    ensures RebindMeans(w, ev, Step(w, ev),
                        BindingStatus(w, ev.isBind, ev.sender, ev.fromVm, ev.r, ev.n, ev.valid, ev.known))
  {
    if 0 <= ev.r < |w.vms| {
      BoundToIff(w, ev.r, ev.fromVm, if ev.isBind then HF_INVALID_VM_ID else ev.sender, ev.n);
      AnyPendingIff(w, ev.r, ev.fromVm, ev.n);
    }
    if BindingAccepted(w, ev) {
      RebindDoes(w, ev);
    }
  }

  lemma RebindDoes(w: World, ev: Event)
    requires Valid(w) && IsEvent(ev) && ev.Bindings? && BindingAccepted(w, ev)
    ensures Rebinding(Step(w, ev), w, ev)
  {
    var v := Step(w, ev);
    StepRebinds(w, ev);
    assert ValidVm(w.vms[ev.r]);
    forall q, t
      ensures SlotIn(v, q, t) <==> SlotIn(w, q, t)
      ensures SlotIn(w, q, t) && SlotIn(v, q, t) ==> At(v, q, t) == At(w, q, t)
    {
      RebindsAt(w, v, ev.r, ev.fromVm, NewSource(w, ev), q, t);
    }
  }

  // ---- Who is bound, over every run ----

  /** The sender of the last call that was accepted about the notification, if that was a bind. */
  function LastBound(w: World, evs: seq<Event>, r: int, fromVm: bool, b: int): int {
    if evs == [] then HF_INVALID_VM_ID
    else
      var v, ev := After(w, evs[..|evs| - 1]), evs[|evs| - 1];
      if Valid(v) && IsEvent(ev) && About(ev, r, fromVm, b) && BindingAccepted(v, ev)
      then if ev.isBind then ev.sender else HF_INVALID_VM_ID
      else LastBound(w, evs[..|evs| - 1], r, fromVm, b)
  }

  predicate About(ev: Event, r: int, fromVm: bool, b: int) {
    ev.Bindings? && ev.r == r && ev.fromVm == fromVm && b in ev.n
  }

  lemma StepSameBindings(w: World, ev: Event, excess: int, v: World)
    requires Counted(w, excess) && IsEvent(ev) && !Panics(w, ev) && !ev.Bindings? && v == Step(w, ev)
    ensures SameBindings(w, v)
  {
    if v == w {
      StandSame(w);
    } else {
      match ev
      case SetPending(_, _, r, _, _, n, _) => SetCounted(w, r, SlotOf(ev), n, excess);
      case SetFramework(r, n) => SetCounted(w, r, Framework, n, excess);
      case GetPending(r, _, _, _, _, _, _) =>
        TakenThere(w, ev);
        TakeAllCounted(w, r, Taken(ev), excess, v);
      case InfoGet(_, before) =>
        var max := FFA_NOTIFICATIONS_INFO_GET_MAX_IDS;
        InfoVmsTells(w, before, 0, max, excess, InfoVms(w, before, 0, max));
    }
  }

  lemma {:induction false} VmsOfRun(w: World, evs: seq<Event>)
    requires Initial(w) && IsRun(w, evs)
    ensures |After(w, evs).vms| == |w.vms|
    decreases |evs|
  {
    if evs != [] {
      var before, ev := evs[..|evs| - 1], evs[|evs| - 1];
      VmsOfRun(w, before);
      CountersOfRun(w, before);
      if !ev.Bindings? {
        StepSameBindings(After(w, before), ev, Excess(w, before), After(w, evs));
        assert Unfold(0);
      }
    }
  }

  /** Over every run a notification is bound to the sender of the last accepted bind, until an unbind. */
  lemma {:induction false} BoundOfRun(w: World, evs: seq<Event>, r: int, fromVm: bool, b: int)
    requires Initial(w) && IsRun(w, evs) && 0 <= r < |w.vms| && 0 <= b < MAX_FFA_NOTIFICATIONS
    ensures |After(w, evs).vms| == |w.vms| && Bound(After(w, evs), r, fromVm, b) == LastBound(w, evs, r, fromVm, b)
    decreases |evs|
  {
    if evs != [] {
      var before, ev := evs[..|evs| - 1], evs[|evs| - 1];
      BoundOfRun(w, before, r, fromVm, b);
      CountersOfRun(w, before);
      var v := After(w, before);
      if ev.Bindings? {
        RebindIff(v, ev);
        RebindAt(Step(v, ev), v, ev, r, fromVm, b);
      } else {
        StepSameBindings(v, ev, Excess(w, before), After(w, evs));
        SameBound(v, After(w, evs), r, fromVm, b);
      }
    }
  }

  lemma RebindAt(v: World, w: World, ev: Event, r: int, fromVm: bool, b: int)
    requires Valid(w) && IsEvent(ev) && ev.Bindings? && 0 <= r < |w.vms| && 0 <= b < MAX_FFA_NOTIFICATIONS
    requires RebindMeans(w, ev, v, BindingStatus(w, ev.isBind, ev.sender, ev.fromVm, ev.r, ev.n, ev.valid, ev.known))
    ensures |v.vms| == |w.vms|
    ensures Bound(v, r, fromVm, b) ==
            if About(ev, r, fromVm, b) && BindingAccepted(w, ev)
            then if ev.isBind then ev.sender else HF_INVALID_VM_ID
            else Bound(w, r, fromVm, b)
  {
  }

  lemma {:induction false} UnboundStays(w: World, evs: seq<Event>, more: seq<Event>, r: int, fromVm: bool, b: int)
    requires LastBound(w, evs, r, fromVm, b) == HF_INVALID_VM_ID
    requires forall k :: 0 <= k < |more| && About(more[k], r, fromVm, b) ==> !more[k].isBind
    ensures LastBound(w, evs + more, r, fromVm, b) == HF_INVALID_VM_ID
    decreases |more|
  {
    if more == [] {
      assert evs + more == evs;
    } else {
      var n := |more| - 1;
      UnboundStays(w, evs, more[..n], r, fromVm, b);
      assert evs + more == evs + more[..n] + [more[n]];
      LastBoundNext(w, evs + more[..n], more[n], r, fromVm, b);
    }
  }

  lemma LastBoundNext(w: World, evs: seq<Event>, ev: Event, r: int, fromVm: bool, b: int)
    ensures var v := After(w, evs);
            LastBound(w, evs + [ev], r, fromVm, b) ==
            if Valid(v) && IsEvent(ev) && About(ev, r, fromVm, b) && BindingAccepted(v, ev)
            then if ev.isBind then ev.sender else HF_INVALID_VM_ID
            else LastBound(w, evs, r, fromVm, b)
  {
    assert (evs + [ev])[..|evs|] == evs;
  }

  lemma {:induction false} RunPrefix(w: World, evs: seq<Event>, more: seq<Event>)
    requires IsRun(w, evs + more)
    ensures IsRun(w, evs)
    decreases |more|
  {
    if more == [] {
      assert evs + more == evs;
    } else {
      var n := |more| - 1;
      assert evs + more == evs + more[..n] + [more[n]];
      LastCall(w, evs + more[..n], more[n]);
      RunPrefix(w, evs, more[..n]);
    }
  }

  /** After an accepted unbind no set of those notifications is accepted from a valid sender, whatever is
      called in between, until they are bound again. */
  lemma UnboundRefusesSets(w: World, evs: seq<Event>, unbind: Event, more: seq<Event>, call: Event, b: int)
    requires Initial(w) && IsRun(w, evs + [unbind] + more)
    requires unbind.Bindings? && !unbind.isBind && b in unbind.n && MayRebind(After(w, evs), unbind)
    requires forall k :: 0 <= k < |more| && About(more[k], unbind.r, unbind.fromVm, b) ==> !more[k].isBind
    requires IsEvent(call) && call.SetPending? && b in call.n && call.sender != HF_INVALID_VM_ID
    requires call.r == unbind.r && call.fromVm == unbind.fromVm
    ensures var v := After(w, evs + [unbind] + more);
            Valid(v) && !SetAccepted(v, call)
  {
    var all, r, d := evs + [unbind] + more, unbind.r, unbind.fromVm;
    Unbinds(w, evs, unbind, more, b);
    CountersOfRun(w, all);
    BoundOfRun(w, all, r, d, b);
    BoundToIff(After(w, all), r, d, call.sender, call.n);
  }

  lemma Unbinds(w: World, evs: seq<Event>, unbind: Event, more: seq<Event>, b: int)
    requires Initial(w) && IsRun(w, evs + [unbind] + more)
    requires unbind.Bindings? && !unbind.isBind && b in unbind.n && MayRebind(After(w, evs), unbind)
    requires forall k :: 0 <= k < |more| && About(more[k], unbind.r, unbind.fromVm, b) ==> !more[k].isBind
    ensures 0 <= unbind.r < |w.vms| && 0 <= b < MAX_FFA_NOTIFICATIONS
    ensures LastBound(w, evs + [unbind] + more, unbind.r, unbind.fromVm, b) == HF_INVALID_VM_ID
  {
    RunPrefix(w, evs + [unbind], more);
    UnbindsOnce(w, evs, unbind, b);
    UnboundStays(w, evs + [unbind], more, unbind.r, unbind.fromVm, b);
  }

  lemma UnbindsOnce(w: World, evs: seq<Event>, unbind: Event, b: int)
    requires Initial(w) && IsRun(w, evs + [unbind])
    requires unbind.Bindings? && !unbind.isBind && b in unbind.n && MayRebind(After(w, evs), unbind)
    ensures 0 <= unbind.r < |w.vms| && 0 <= b < MAX_FFA_NOTIFICATIONS
    ensures LastBound(w, evs + [unbind], unbind.r, unbind.fromVm, b) == HF_INVALID_VM_ID
  {
    LastCall(w, evs, unbind);
    CountersOfRun(w, evs);
    VmsOfRun(w, evs);
    RebindIff(After(w, evs), unbind);
    LastBoundNext(w, evs, unbind, unbind.r, unbind.fromVm, b);
  }

  lemma LastCall(w: World, evs: seq<Event>, ev: Event)
    requires IsRun(w, evs + [ev])
    ensures IsRun(w, evs) && IsEvent(ev)
  {
    assert (evs + [ev])[..|evs|] == evs;
  }

  // ---- Set ----

  /** Every notification of the call is bound to the sender in that kind, and the vCPU exists. */
  ghost predicate MaySet(w: World, ev: Event)
    requires ev.SetPending?
  {
    && ev.valid && ev.n != {} && 0 <= ev.r < |w.vms| && w.vms[ev.r].enabled
    && (forall b :: b in ev.n ==>
          Bound(w, ev.r, ev.fromVm, b) == ev.sender && IsPerVcpu(w, ev.r, ev.fromVm, b) == ev.perVcpu)
    && (ev.perVcpu ==> ev.vcpu < w.vms[ev.r].vcpuCount)
  }

  /** The notifications are added to what is pending on that vCPU, or globally, and nothing else changes. */
  ghost predicate Adds(v: World, w: World, ev: Event)
    requires ev.SetPending?
  {
    && |v.vms| == |w.vms| && (forall q, t :: SlotIn(v, q, t) <==> SlotIn(w, q, t))
    && forall q, t :: SlotIn(w, q, t) && SlotIn(v, q, t) ==>
         && At(v, q, t).retrieved == At(w, q, t).retrieved
         && At(v, q, t).pending ==
            if q == ev.r && t == (if ev.perVcpu then PerVcpu(ev.fromVm, ev.vcpu) else Global(ev.fromVm))
            then At(w, q, t).pending + ev.n else At(w, q, t).pending
  }

  ghost predicate SetMeans(w: World, ev: Event, v: World, accepted: bool)
    requires ev.SetPending?
  {
    (accepted <==> MaySet(w, ev)) && if accepted then Adds(v, w, ev) else v == w
  }

  lemma SetIff(w: World, ev: Event)
    requires Valid(w) && IsEvent(ev) && ev.SetPending?
    ensures SetMeans(w, ev, Step(w, ev), SetAccepted(w, ev))
  {
    if 0 <= ev.r < |w.vms| {
      BoundToIff(w, ev.r, ev.fromVm, ev.sender, ev.n);
      KindIff(w, ev.r, ev.fromVm, ev.n, ev.perVcpu);
      assert ValidVm(w.vms[ev.r]);
    }
    if SetAccepted(w, ev) {
      assert Unfold(0);
    }
  }

  lemma KindIff(w: World, r: int, fromVm: bool, n: Bitmap, perVcpu: bool)
    requires 0 <= r < |w.vms|
    ensures KindMatches(SourceOf(w.vms[r], fromVm), n, perVcpu) <==>
            forall b :: b in n ==> IsPerVcpu(w, r, fromVm, b) == perVcpu
  {
    var p := SourceOf(w.vms[r], fromVm).perVcpu;
    assert p * n == {} <==> forall b :: b in n ==> b !in p by {
      assert (forall b: int :: b !in p * n) ==> p * n == {};
      assert forall b :: b in n && b in p ==> b in p * n;
    }
    if forall b :: b in n ==> b in p {
      assert n == n * p;
    }
  }

  // ---- Get ----

  /** A get is for a vCPU that exists, and for the current one unless there is only one. */
  predicate MayGet(w: World, ev: Event)
    requires ev.GetPending?
  {
    && ev.valid && 0 <= ev.r < |w.vms|
    && ev.vcpu < w.vms[ev.r].vcpuCount && (w.vms[ev.r].vcpuCount == 1 || ev.cpu == ev.vcpu)
  }

  /** The call asks for what is pending in this slot. */
  predicate Asks(ev: Event, t: Slot)
    requires ev.GetPending?
  {
    match t
    case Framework => ev.framework
    case Global(d) => if d then ev.vm else ev.sp
    case PerVcpu(d, i) => i == ev.vcpu && if d then ev.vm else ev.sp
  }

  ghost predicate Removes(v: World, w: World, ev: Event)
    requires ev.GetPending?
  {
    forall q, t :: SlotIn(w, q, t) ==>
      SlotIn(v, q, t) && At(v, q, t) == if q == ev.r && Asks(ev, t) then State({}, {}) else At(w, q, t)
  }

  ghost predicate GetMeans(w: World, ev: Event, v: World, accepted: bool)
    requires ev.GetPending?
  {
    (accepted <==> MayGet(w, ev)) && if accepted then Removes(v, w, ev) else v == w
  }

  lemma GetIff(w: World, ev: Event)
    requires Valid(w) && IsEvent(ev) && ev.GetPending?
    ensures GetMeans(w, ev, Step(w, ev), GetAccepted(w, ev))
  {
    if GetAccepted(w, ev) {
      TakenThere(w, ev);
      forall q, t | SlotIn(w, q, t)
        ensures SlotIn(Step(w, ev), q, t)
        ensures At(Step(w, ev), q, t) == if q == ev.r && Asks(ev, t) then State({}, {}) else At(w, q, t)
      {
        TakeAllAt(w, ev.r, Taken(ev), q, t);
        AskedIsTaken(ev, t);
      }
    }
  }

  lemma AskedIsTaken(ev: Event, t: Slot)
    requires ev.GetPending?
    ensures t in Taken(ev) <==> Asks(ev, t)
  {
    var a, b := PartitionSlots(ev.sp, false, ev.vcpu), PartitionSlots(ev.vm, true, ev.vcpu);
    var c := if ev.framework then [Framework] else [];
    assert Taken(ev) == a + b + c;
    assert t in Taken(ev) <==> t in a || t in b || t in c;
  }
}
