/**
  * FFA_NOTIFICATION_INFO_GET (src/vm.c, src/api.c): the list of receivers with pending notifications
  * that the primary scheduler has not been told about. The list is made of groups: a VM ID followed
  * by up to three of its vCPU IDs.
  */
module NotificationInfo {
  import opened Arithmetic
  import opened Notifications

  const FFA_NOTIFICATIONS_INFO_GET_MAX_IDS := 20
  const MAX_GROUP := 3

  datatype Phase = Init | Inserting | StartingNew | Full

  datatype Group = Group(vm: int, vcpus: seq<int>)

  /** A list being built: the system as marked so far, the groups so far, and the builder's phase. */
  datatype Info = Info(w: World, report: seq<Group>, phase: Phase)

  /** How many IDs the groups take. */
  function Size(report: seq<Group>): nat {
    if report == [] then 0 else Size(report[..|report| - 1]) + 1 + |report[|report| - 1].vcpus|
  }

  function Extended(report: seq<Group>, vcpu: int): seq<Group>
    requires report != []
  {
    var last := report[|report| - 1];
    report[|report| - 1 := last.(vcpus := last.vcpus + [vcpu])]
  }

  datatype Inserted = Inserted(report: seq<Group>, phase: Phase)

  /** The report with a slot of VM `id` in it; `Full` if there is no room, when the report stays. */
  function Insert(report: seq<Group>, phase: Phase, id: int, slot: Slot, max: nat): Inserted
    requires phase == Inserting ==> report != []
  {
    if Size(report) == max then Inserted(report, Full)
    else if phase == Inserting then
      if slot.PerVcpu? then
        var after := Extended(report, slot.vcpu);
        Inserted(after, if |after[|after| - 1].vcpus| == MAX_GROUP then StartingNew else Inserting)
      else Inserted(report, Inserting)
    else if slot.PerVcpu? && max - Size(report) < 2 then Inserted(report, Full)
    else Inserted(report + [Group(id, if slot.PerVcpu? then [slot.vcpu] else [])], Inserting)
  }

  /** vm_notifications_state_info_get. */
  function InfoSlot(i: Info, r: int, slot: Slot, max: nat): (j: Info)
    requires SlotIn(i.w, r, slot) && (i.phase == Inserting ==> i.report != [])
    ensures forall t :: SlotIn(i.w, r, t) ==> SlotIn(j.w, r, t)
  {
    assert Unfold(0);
    if i.phase == Full || !Unreported(At(i.w, r, slot)) then i
    else
      var x := Insert(i.report, i.phase, i.w.vms[r].id, slot, max);
      Info(if x.phase == Full then i.w else MarkState(i.w, r, slot), x.report, x.phase)
  }

  function VcpuSlots(fromVm: bool, n: nat): (s: seq<Slot>)
    ensures forall t :: t in s <==> t.PerVcpu? && t.fromVm == fromVm && 0 <= t.vcpu < n
  {
    if n == 0 then [] else VcpuSlots(fromVm, n - 1) + [PerVcpu(fromVm, n - 1)]
  }

  /** The slots of a VM in the order they are reported: framework, from SPs, from VMs. */
  function InfoSlots(vm: Vm): seq<Slot>
    requires vm.vcpuCount >= 0
  {
    [Framework, Global(false)] + VcpuSlots(false, vm.vcpuCount) + [Global(true)] + VcpuSlots(true, vm.vcpuCount)
  }

  // ---- What holds while one VM is reported ----

  /** INFO_GET has told the scheduler about bits of this slot that it had not been told about before. */
  predicate Marked(w0: World, w: World, r: int, slot: Slot)
    requires SlotIn(w0, r, slot) && SlotIn(w, r, slot)
  {
    At(w, r, slot).retrieved != At(w0, r, slot).retrieved
  }

  /** Some group from `start` on names the VM, and the vCPU if the slot is one's. */
  predicate Named(report: seq<Group>, start: int, id: int, slot: Slot) {
    exists g :: start <= g < |report| && 0 <= g && GroupNames(report[g], id, slot)
  }

  predicate GroupNames(g: Group, id: int, slot: Slot) {
    g.vm == id && (slot.PerVcpu? ==> slot.vcpu in g.vcpus)
  }

  /** The group was not made up: the VM and every vCPU in it have newly reported bits. */
  ghost predicate Justified(w0: World, w: World, r: int, g: Group) {
    && 0 <= r < |w0.vms| && g.vm == w0.vms[r].id
    && (exists t :: MarkedIn(w0, w, r, t))
    && forall v :: v in g.vcpus ==> MarkedIn(w0, w, r, PerVcpu(true, v)) || MarkedIn(w0, w, r, PerVcpu(false, v))
  }

  predicate MarkedIn(w0: World, w: World, r: int, slot: Slot) {
    SlotIn(w0, r, slot) && SlotIn(w, r, slot) && Marked(w0, w, r, slot)
  }

  /** Only `retrieved` of the VMs from `lo` to `hi` has moved, and where it has the whole of `pending` is in it now. */
  ghost predicate Marks(w0: World, w: World, lo: int, hi: int) {
    forall k {:trigger Unfold(k)} :: Unfold(k) ==>
      && |w.vms| == |w0.vms|
      && (forall q, t :: SlotIn(w, q, t) <==> SlotIn(w0, q, t))
      && (forall q, t :: SlotIn(w0, q, t) && SlotIn(w, q, t) ==> MarkOf(At(w, q, t), At(w0, q, t), lo <= q < hi))
      && (forall q :: 0 <= q < |w.vms| ==> w.vms[q].id == w0.vms[q].id && w.vms[q].vcpuCount == w0.vms[q].vcpuCount)
  }

  predicate MarkOf(s: State, s0: State, allowed: bool) {
    s == s0 || (allowed && Unreported(s0) && s == State(s0.pending, s0.retrieved + s0.pending))
  }

  predicate GroupsFit(report: seq<Group>) {
    forall g :: 0 <= g < |report| ==> |report[g].vcpus| <= MAX_GROUP
  }

  predicate PhaseFits(report: seq<Group>, start: nat, phase: Phase) {
    && start <= |report|
    && (phase == Init ==> |report| == start)
    && (phase == Inserting ==> |report| > start && |report[|report| - 1].vcpus| < MAX_GROUP)
  }

  /** Every newly reported slot is named by the groups from `start` on. */
  ghost predicate AllNamed(w0: World, w: World, report: seq<Group>, start: nat) {
    forall k {:trigger Unfold(k)} :: Unfold(k) ==>
      forall q, t :: MarkedIn(w0, w, q, t) ==> Named(report, start, w0.vms[q].id, t)
  }

  ghost predicate AllJustified(w0: World, w: World, report: seq<Group>, start: nat) {
    forall k {:trigger Unfold(k)} :: Unfold(k) ==>
      forall g :: start <= g < |report| ==> JustifiedBySome(w0, w, report[g])
  }

  ghost predicate JustifiedBySome(w0: World, w: World, g: Group) {
    exists q :: Justified(w0, w, q, g)
  }

  /** The group at the end belongs to VM `r`, unless none has been started. */
  predicate LastIs(w: World, r: int, report: seq<Group>, phase: Phase) {
    phase == Inserting ==> report != [] && 0 <= r < |w.vms| && report[|report| - 1].vm == w.vms[r].id
  }

  predicate Fits(before: seq<Group>, report: seq<Group>, max: nat) {
    Size(report) <= max && GroupsFit(report) && before <= report
  }

  ghost predicate InfoInv(w0: World, before: seq<Group>, i: Info, r: int, max: nat) {
    && Marks(w0, i.w, r, r + 1) && Fits(before, i.report, max)
    && PhaseFits(i.report, |before|, i.phase) && LastIs(i.w, r, i.report, i.phase)
    && AllNamed(w0, i.w, i.report, |before|) && AllJustified(w0, i.w, i.report, |before|)
  }

  lemma MarkStep(w0: World, w: World, r: int, slot: Slot, v: World)
    requires Marks(w0, w, r, r + 1) && SlotIn(w, r, slot) && Unreported(At(w, r, slot)) && v == MarkState(w, r, slot)
    ensures Marks(w0, v, r, r + 1) && v.vms[r].id == w.vms[r].id
  {
    assert Unfold(0);
  }

  lemma MarkedStep(w0: World, w: World, r: int, slot: Slot, v: World, q: int, t: Slot)
    requires Marks(w0, w, r, r + 1) && SlotIn(w, r, slot) && Unreported(At(w, r, slot)) && v == MarkState(w, r, slot)
    ensures MarkedIn(w0, v, q, t) <==> (q == r && t == slot) || MarkedIn(w0, w, q, t)
    ensures 0 <= r < |w0.vms| && w.vms[r].id == w0.vms[r].id
  {
    assert Unfold(0);
    assert SlotIn(w, q, t) <==> SlotIn(w0, q, t);
    assert SlotIn(v, q, t) <==> SlotIn(w, q, t);
  }

  lemma SizeExtended(report: seq<Group>, vcpu: int)
    requires report != []
    ensures Size(Extended(report, vcpu)) == Size(report) + 1
  {
    assert Extended(report, vcpu)[..|report| - 1] == report[..|report| - 1];
  }

  lemma SizeSnoc(report: seq<Group>, g: Group)
    ensures Size(report + [g]) == Size(report) + 1 + |g.vcpus|
  {
    assert (report + [g])[..|report|] == report;
  }

  lemma FitsSnoc(before: seq<Group>, report: seq<Group>, g: Group, max: nat)
    requires Fits(before, report, max) && |g.vcpus| <= MAX_GROUP && Size(report) + 1 + |g.vcpus| <= max
    ensures Fits(before, report + [g], max) && Grew(report, report + [g])
  {
    SizeSnoc(report, g);
  }

  /** Groups only ever grow and are only ever added. */
  ghost predicate Grew(report: seq<Group>, after: seq<Group>) {
    && |report| <= |after|
    && forall g :: 0 <= g < |report| ==> report[g].vm == after[g].vm && report[g].vcpus <= after[g].vcpus
  }

  lemma NamedGrows(report: seq<Group>, after: seq<Group>, start: nat, id: int, t: Slot)
    requires Grew(report, after) && start <= |report|
    requires Named(report, start, id, t) || Named(after, |report|, id, t)
    ensures Named(after, start, id, t)
  {
    if Named(report, start, id, t) {
      var k :| start <= k < |report| && 0 <= k && GroupNames(report[k], id, t);
      assert GroupNames(after[k], id, t);
    }
  }

  lemma NamedStep(w0: World, w: World, r: int, slot: Slot, v: World, report: seq<Group>, after: seq<Group>, start: nat)
    requires Marks(w0, w, r, r + 1) && SlotIn(w, r, slot) && Unreported(At(w, r, slot)) && v == MarkState(w, r, slot)
    requires AllNamed(w0, w, report, start) && Grew(report, after) && start <= |report|
    requires Named(after, start, w.vms[r].id, slot)
    ensures AllNamed(w0, v, after, start)
  {
    forall q, t | MarkedIn(w0, v, q, t)
      ensures Named(after, start, w0.vms[q].id, t)
    {
      MarkedStep(w0, w, r, slot, v, q, t);
      if q != r || t != slot {
        assert Unfold(0);
        NamedGrows(report, after, start, w0.vms[q].id, t);
      }
    }
  }

  lemma JustifiedStays(w0: World, w: World, r: int, slot: Slot, v: World, g: Group)
    requires Marks(w0, w, r, r + 1) && SlotIn(w, r, slot) && Unreported(At(w, r, slot)) && v == MarkState(w, r, slot)
    requires JustifiedBySome(w0, w, g)
    ensures JustifiedBySome(w0, v, g)
  {
    var q :| Justified(w0, w, q, g);
    forall t | MarkedIn(w0, w, q, t)
      ensures MarkedIn(w0, v, q, t)
    {
      MarkedStep(w0, w, r, slot, v, q, t);
    }
    var t :| MarkedIn(w0, w, q, t);
    assert MarkedIn(w0, v, q, t);
    assert Justified(w0, v, q, g);
  }

  lemma JustifiedStep(w0: World, w: World, r: int, slot: Slot, v: World, report: seq<Group>, after: seq<Group>,
                      start: nat)
    requires Marks(w0, w, r, r + 1) && SlotIn(w, r, slot) && Unreported(At(w, r, slot)) && v == MarkState(w, r, slot)
    requires AllJustified(w0, w, report, start) && |report| <= |after|
    requires forall g :: start <= g < |after| ==>
               (g < |report| && after[g] == report[g]) || JustifiedBySome(w0, v, after[g])
    ensures AllJustified(w0, v, after, start)
  {
    forall g | start <= g < |after|
      ensures JustifiedBySome(w0, v, after[g])
    {
      if g < |report| && after[g] == report[g] {
        assert Unfold(0);
        JustifiedStays(w0, w, r, slot, v, report[g]);
      }
    }
  }

  /** A vCPU's slot joins the last group. */
  lemma StepExtending(w0: World, before: seq<Group>, i: Info, r: int, slot: Slot, max: nat, j: Info)
    requires InfoInv(w0, before, i, r, max) && SlotIn(i.w, r, slot) && Unreported(At(i.w, r, slot)) && slot.PerVcpu?
    requires i.phase == Inserting && Size(i.report) < max && j == InfoSlot(i, r, slot, max)
    ensures InfoInv(w0, before, j, r, max)
  {
    var last := |i.report| - 1;
    var was, now := i.report[last], j.report[last];
    MarkStep(w0, i.w, r, slot, j.w);
    SizeExtended(i.report, slot.vcpu);
    assert now == Group(was.vm, was.vcpus + [slot.vcpu]);
    assert was.vcpus <= now.vcpus;
    assert Grew(i.report, j.report);
    assert GroupNames(now, i.w.vms[r].id, slot);
    NamedStep(w0, i.w, r, slot, j.w, i.report, j.report, |before|);
    ExtendedJustified(w0, i.w, r, slot, j.w, i.report, |before|);
    JustifiedStep(w0, i.w, r, slot, j.w, i.report, j.report, |before|);
    assert before <= j.report;
  }

  lemma ExtendedJustified(w0: World, w: World, r: int, slot: Slot, v: World, report: seq<Group>, start: nat)
    requires Marks(w0, w, r, r + 1) && SlotIn(w, r, slot) && Unreported(At(w, r, slot)) && v == MarkState(w, r, slot)
    requires slot.PerVcpu? && start < |report| && report[|report| - 1].vm == w.vms[r].id
    requires AllJustified(w0, w, report, start)
    ensures JustifiedBySome(w0, v, Extended(report, slot.vcpu)[|report| - 1])
  {
    var was, now := report[|report| - 1], Extended(report, slot.vcpu)[|report| - 1];
    assert JustifiedBySome(w0, w, was) by {
      assert Unfold(0);
    }
    var q :| Justified(w0, w, q, was);
    forall u | u in was.vcpus
      ensures MarkedIn(w0, v, r, PerVcpu(true, u)) || MarkedIn(w0, v, r, PerVcpu(false, u))
    {
      OnlyHere(w0, w, r, q, PerVcpu(true, u));
      OnlyHere(w0, w, r, q, PerVcpu(false, u));
      MarkedStep(w0, w, r, slot, v, r, PerVcpu(true, u));
      MarkedStep(w0, w, r, slot, v, r, PerVcpu(false, u));
    }
    MarkedStep(w0, w, r, slot, v, r, slot);
    assert Justified(w0, v, r, now);
  }

  lemma OnlyHere(w0: World, w: World, r: int, q: int, t: Slot)
    requires Marks(w0, w, r, r + 1)
    ensures MarkedIn(w0, w, q, t) ==> q == r
  {
    assert Unfold(0);
  }

  /** Another slot of the VM needs no new ID. */
  lemma StepCovered(w0: World, before: seq<Group>, i: Info, r: int, slot: Slot, max: nat, j: Info)
    requires InfoInv(w0, before, i, r, max) && SlotIn(i.w, r, slot) && Unreported(At(i.w, r, slot)) && !slot.PerVcpu?
    requires i.phase == Inserting && Size(i.report) < max && j == InfoSlot(i, r, slot, max)
    ensures InfoInv(w0, before, j, r, max)
  {
    MarkStep(w0, i.w, r, slot, j.w);
    assert GroupNames(i.report[|i.report| - 1], i.w.vms[r].id, slot);
    NamedStep(w0, i.w, r, slot, j.w, i.report, j.report, |before|);
    JustifiedStep(w0, i.w, r, slot, j.w, i.report, j.report, |before|);
  }

  /** A slot that starts a group. */
  lemma StepStarting(w0: World, before: seq<Group>, i: Info, r: int, slot: Slot, max: nat, j: Info)
    requires InfoInv(w0, before, i, r, max) && SlotIn(i.w, r, slot) && Unreported(At(i.w, r, slot))
    requires (i.phase == Init || i.phase == StartingNew) && Size(i.report) < max && j == InfoSlot(i, r, slot, max)
    requires j.phase != Full
    ensures InfoInv(w0, before, j, r, max)
  {
    var g := Group(i.w.vms[r].id, if slot.PerVcpu? then [slot.vcpu] else []);
    assert j == Info(MarkState(i.w, r, slot), i.report + [g], Inserting);
    assert Size(i.report) + 1 + |g.vcpus| <= max;
    FitsSnoc(before, i.report, g, max);
    AddGroup(w0, i.w, i.report, |before|, r, slot, g, j.w);
  }

  lemma AddGroup(w0: World, w: World, report: seq<Group>, start: nat, r: int, slot: Slot, g: Group, v: World)
    requires Marks(w0, w, r, r + 1) && SlotIn(w, r, slot) && Unreported(At(w, r, slot)) && v == MarkState(w, r, slot)
    requires AllNamed(w0, w, report, start) && AllJustified(w0, w, report, start) && start <= |report|
    requires g == Group(w.vms[r].id, if slot.PerVcpu? then [slot.vcpu] else []) && Grew(report, report + [g])
    ensures Marks(w0, v, r, r + 1) && v.vms[r].id == w.vms[r].id
    ensures AllNamed(w0, v, report + [g], start) && AllJustified(w0, v, report + [g], start)
  {
    var after := report + [g];
    MarkStep(w0, w, r, slot, v);
    assert GroupNames(after[|report|], w.vms[r].id, slot);
    NamedStep(w0, w, r, slot, v, report, after, start);
    MarkedStep(w0, w, r, slot, v, r, slot);
    assert Justified(w0, v, r, g);
    JustifiedStep(w0, w, r, slot, v, report, after, start);
  }

  lemma InfoSlotKeeps(w0: World, before: seq<Group>, i: Info, r: int, slot: Slot, max: nat, j: Info)
    requires InfoInv(w0, before, i, r, max) && SlotIn(i.w, r, slot) && j == InfoSlot(i, r, slot, max)
    ensures InfoInv(w0, before, j, r, max)
    ensures j.phase == Full ==> i.phase == Full || Unreported(At(j.w, r, slot))
    ensures j.phase != Full ==> i.phase != Full && !Unreported(At(j.w, r, slot))
  {
    if i.phase != Full && Unreported(At(i.w, r, slot)) && Size(i.report) < max {
      if i.phase == Inserting && slot.PerVcpu? {
        StepExtending(w0, before, i, r, slot, max, j);
      } else if i.phase == Inserting {
        StepCovered(w0, before, i, r, slot, max, j);
      } else if j.phase != Full {
        StepStarting(w0, before, i, r, slot, max, j);
      }
    }
  }

  // ---- All the slots of one VM ----

  function InfoAll(i: Info, r: int, slots: seq<Slot>, max: nat): Info
    requires forall k :: 0 <= k < |slots| ==> SlotIn(i.w, r, slots[k])
    requires i.phase == Inserting ==> i.report != []
    decreases |slots|
  {
    if slots == [] then i else InfoAll(InfoSlot(i, r, slots[0], max), r, slots[1..], max)
  }

  lemma {:induction false} InfoAllKeeps(w0: World, before: seq<Group>, i: Info, r: int, slots: seq<Slot>, max: nat,
                                        j: Info)
    requires InfoInv(w0, before, i, r, max) && forall k :: 0 <= k < |slots| ==> SlotIn(i.w, r, slots[k])
    requires j == InfoAll(i, r, slots, max)
    ensures InfoInv(w0, before, j, r, max)
    decreases |slots|
  {
    if slots != [] {
      var x := InfoSlot(i, r, slots[0], max);
      InfoSlotKeeps(w0, before, i, r, slots[0], max, x);
      InfoAllKeeps(w0, before, x, r, slots[1..], max, j);
    }
  }

  /** Every slot has the same bits pending, and at least the same bits reported. */
  ghost predicate Grown(w: World, v: World, r: int) {
    && (forall t :: SlotIn(w, r, t) ==> SlotIn(v, r, t))
    && (forall t :: SlotIn(w, r, t) && SlotIn(v, r, t) ==>
        At(v, r, t).pending == At(w, r, t).pending && At(w, r, t).retrieved <= At(v, r, t).retrieved)
  }

  lemma {:induction false} InfoAllGrows(i: Info, r: int, slots: seq<Slot>, max: nat, j: Info)
    requires forall k :: 0 <= k < |slots| ==> SlotIn(i.w, r, slots[k])
    requires i.phase == Inserting ==> i.report != []
    requires j == InfoAll(i, r, slots, max)
    ensures Grown(i.w, j.w, r) && (i.phase == Full ==> j == i)
    decreases |slots|
  {
    if slots != [] {
      InfoAllGrows(InfoSlot(i, r, slots[0], max), r, slots[1..], max, j);
    }
  }

  /** The builder ends up full exactly when some slot it was given still has unreported bits. */
  lemma {:induction false} FullIff(i: Info, r: int, slots: seq<Slot>, max: nat, j: Info)
    requires forall k :: 0 <= k < |slots| ==> SlotIn(i.w, r, slots[k])
    requires i.phase == Inserting ==> i.report != []
    requires j == InfoAll(i, r, slots, max) && i.phase != Full
    ensures forall t :: t in slots ==> SlotIn(j.w, r, t)
    ensures j.phase == Full <==> exists t :: t in slots && Unreported(At(j.w, r, t))
    decreases |slots|
  {
    InfoAllGrows(i, r, slots, max, j);
    if slots != [] {
      var x := InfoSlot(i, r, slots[0], max);
      InfoAllGrows(x, r, slots[1..], max, j);
      assert x.phase == Full ==> Unreported(At(x.w, r, slots[0]));
      assert x.phase != Full ==> !Unreported(At(x.w, r, slots[0]));
      assert forall t :: t in slots <==> t == slots[0] || t in slots[1..];
      if x.phase != Full {
        FullIff(x, r, slots[1..], max, j);
      }
    }
  }

  /** vm_notifications_info_get: phase `Full` is its result `true`. */
  function InfoVm(w: World, report: seq<Group>, r: int, max: nat): Info
    requires Valid(w) && 0 <= r < |w.vms|
  {
    SlotsThere(w, r);
    InfoAll(Info(w, report, Init), r, InfoSlots(w.vms[r]), max)
  }

  lemma SlotsThere(w: World, r: int)
    requires Valid(w) && 0 <= r < |w.vms|
    ensures forall t :: t in InfoSlots(w.vms[r]) <==> SlotIn(w, r, t) && (t.PerVcpu? ==> t.vcpu < w.vms[r].vcpuCount)
    ensures forall k :: 0 <= k < |InfoSlots(w.vms[r])| ==> SlotIn(w, r, InfoSlots(w.vms[r])[k])
  {
    assert ValidVm(w.vms[r]);
    forall k | 0 <= k < |InfoSlots(w.vms[r])|
      ensures SlotIn(w, r, InfoSlots(w.vms[r])[k])
    {
      assert InfoSlots(w.vms[r])[k] in InfoSlots(w.vms[r]);
    }
  }

  lemma MarkValid(w: World, r: int, slot: Slot)
    requires Valid(w) && SlotIn(w, r, slot)
    ensures Valid(MarkState(w, r, slot))
  {
    assert ValidVm(w.vms[r]);
    assert IsBitmap(At(w, r, slot).pending);
    var v := MarkState(w, r, slot);
    forall q | 0 <= q < |v.vms|
      ensures ValidVm(v.vms[q])
    {
      assert ValidVm(w.vms[q]);
    }
  }

  lemma {:induction false} InfoAllValid(i: Info, r: int, slots: seq<Slot>, max: nat)
    requires Valid(i.w) && forall k :: 0 <= k < |slots| ==> SlotIn(i.w, r, slots[k])
    requires i.phase == Inserting ==> i.report != []
    ensures Valid(InfoAll(i, r, slots, max).w)
    decreases |slots|
  {
    if slots != [] {
      MarkValid(i.w, r, slots[0]);
      InfoAllValid(InfoSlot(i, r, slots[0], max), r, slots[1..], max);
    }
  }

  /** Everything about the report on one VM. */
  lemma InfoVmMeans(w: World, report: seq<Group>, r: int, max: nat, i: Info)
    requires Valid(w) && 0 <= r < |w.vms| && i == InfoVm(w, report, r, max)
    requires Size(report) <= max && GroupsFit(report)
    ensures InfoInv(w, report, i, r, max) && Valid(i.w)
    ensures i.phase == Full <==> HasMore(i.w, r)
  {
    SlotsThere(w, r);
    var slots, start := InfoSlots(w.vms[r]), Info(w, report, Init);
    assert InfoInv(w, report, start, r, max) by {
      assert Marks(w, w, r, r + 1);
    }
    InfoAllKeeps(w, report, start, r, slots, max, i);
    InfoAllValid(start, r, slots, max);
    FullIff(start, r, slots, max, i);
    WaitingIn(w, i.w, r);
  }

  lemma WaitingIn(w: World, v: World, r: int)
    requires Valid(w) && 0 <= r < |w.vms| && Marks(w, v, r, r + 1)
    ensures forall t :: Waiting(v, r, t) <==> t in InfoSlots(w.vms[r]) && SlotIn(v, r, t) && Unreported(At(v, r, t))
  {
    assert Unfold(0);
    SlotsThere(w, r);
  }

  /** VM `r` has a pending bit that the scheduler has not been told about. */
  ghost predicate HasMore(w: World, r: int) {
    exists t :: Waiting(w, r, t)
  }

  predicate Waiting(w: World, r: int, t: Slot) {
    SlotIn(w, r, t) && (t.PerVcpu? ==> t.vcpu < w.vms[r].vcpuCount) && Unreported(At(w, r, t))
  }

  // ---- The whole call ----

  /** The loop over the VMs, which ends when the list is full. */
  function InfoVms(w: World, report: seq<Group>, r: int, max: nat): Info
    requires Valid(w) && 0 <= r <= |w.vms| && Size(report) <= max && GroupsFit(report)
    decreases |w.vms| - r
  {
    if r == |w.vms| then Info(w, report, Init)
    else
      var i := InfoVm(w, report, r, max);
      InfoVmMeans(w, report, r, max, i);
      SameVms(w, i.w, r);
      if i.phase == Full then i else InfoVms(i.w, i.report, r + 1, max)
  }

  lemma SameVms(w: World, v: World, r: int)
    requires Marks(w, v, r, r + 1)
    ensures |v.vms| == |w.vms|
  {
    assert Unfold(0);
  }

  /** The report so far, when the VMs below `r` have been dealt with. */
  ghost predicate ReportInv(w0: World, before: seq<Group>, w: World, report: seq<Group>, r: int, max: nat) {
    && Marks(w0, w, 0, r) && Fits(before, report, max)
    && AllNamed(w0, w, report, |before|) && AllJustified(w0, w, report, |before|)
  }

  lemma MarksTrans(w0: World, w: World, v: World, r: int)
    requires Marks(w0, w, 0, r) && Marks(w, v, r, r + 1) && 0 <= r
    ensures Marks(w0, v, 0, r + 1)
  {
    assert Unfold(0);
  }

  lemma MarkedTrans(w0: World, w: World, v: World, r: int, q: int, t: Slot)
    requires Marks(w0, w, 0, r) && Marks(w, v, r, r + 1) && 0 <= r
    ensures MarkedIn(w0, v, q, t) <==> MarkedIn(w0, w, q, t) || MarkedIn(w, v, q, t)
    ensures MarkedIn(w, v, q, t) ==> q == r && w.vms[q].id == w0.vms[q].id
  {
    assert Unfold(0);
    assert SlotIn(w, q, t) <==> SlotIn(w0, q, t);
    assert SlotIn(v, q, t) <==> SlotIn(w, q, t);
  }

  lemma NamedTrans(w0: World, w: World, v: World, r: int, report: seq<Group>, after: seq<Group>, start: nat)
    requires Marks(w0, w, 0, r) && Marks(w, v, r, r + 1) && 0 <= r && start <= |report| && report <= after
    requires AllNamed(w0, w, report, start) && AllNamed(w, v, after, |report|)
    ensures AllNamed(w0, v, after, start)
  {
    forall q, t | MarkedIn(w0, v, q, t)
      ensures Named(after, start, w0.vms[q].id, t)
    {
      MarkedTrans(w0, w, v, r, q, t);
      assert Unfold(0);
      NamedGrows(report, after, start, w0.vms[q].id, t);
    }
  }

  lemma JustifiedLater(w0: World, w: World, v: World, r: int, q: int, g: Group)
    requires Marks(w0, w, 0, r) && Marks(w, v, r, r + 1) && 0 <= r && Justified(w0, w, q, g)
    ensures Justified(w0, v, q, g)
  {
    forall t | MarkedIn(w0, w, q, t)
      ensures MarkedIn(w0, v, q, t)
    {
      MarkedTrans(w0, w, v, r, q, t);
    }
    var t :| MarkedIn(w0, w, q, t);
    assert MarkedIn(w0, v, q, t);
  }

  lemma JustifiedEarlier(w0: World, w: World, v: World, r: int, q: int, g: Group)
    requires Marks(w0, w, 0, r) && Marks(w, v, r, r + 1) && 0 <= r && Justified(w, v, q, g)
    ensures Justified(w0, v, q, g)
  {
    forall t | MarkedIn(w, v, q, t)
      ensures MarkedIn(w0, v, q, t) && w.vms[q].id == w0.vms[q].id
    {
      MarkedTrans(w0, w, v, r, q, t);
    }
    var t :| MarkedIn(w, v, q, t);
    assert MarkedIn(w0, v, q, t);
  }

  lemma AllJustifiedTrans(w0: World, w: World, v: World, r: int, report: seq<Group>, after: seq<Group>, start: nat)
    requires Marks(w0, w, 0, r) && Marks(w, v, r, r + 1) && 0 <= r && start <= |report| && report <= after
    requires AllJustified(w0, w, report, start) && AllJustified(w, v, after, |report|)
    ensures AllJustified(w0, v, after, start)
  {
    forall g | start <= g < |after|
      ensures JustifiedBySome(w0, v, after[g])
    {
      assert Unfold(0);
      if g < |report| {
        var q :| Justified(w0, w, q, report[g]);
        JustifiedLater(w0, w, v, r, q, report[g]);
      } else {
        var q :| Justified(w, v, q, after[g]);
        JustifiedEarlier(w0, w, v, r, q, after[g]);
      }
    }
  }

  lemma ReportStep(w0: World, before: seq<Group>, w: World, report: seq<Group>, r: int, max: nat, i: Info)
    requires ReportInv(w0, before, w, report, r, max) && 0 <= r && InfoInv(w, report, i, r, max)
    ensures ReportInv(w0, before, i.w, i.report, r + 1, max)
  {
    MarksTrans(w0, w, i.w, r);
    NamedTrans(w0, w, i.w, r, report, i.report, |before|);
    AllJustifiedTrans(w0, w, i.w, r, report, i.report, |before|);
  }

  /** VMs below `r` have nothing unreported. */
  ghost predicate NoneBelow(w: World, r: int) {
    forall q :: 0 <= q < r ==> !HasMore(w, q)
  }

  lemma StaysNone(w: World, v: World, r: int)
    requires Marks(w, v, r, r + 1) && NoneBelow(w, r) && !HasMore(v, r)
    ensures NoneBelow(v, r + 1)
  {
    forall q | 0 <= q < r
      ensures !HasMore(v, q)
    {
      assert !HasMore(w, q);
      forall t | Waiting(v, q, t)
        ensures Waiting(w, q, t)
      {
        WaitingSame(w, v, r, q, t);
      }
    }
  }

  lemma WaitingSame(w: World, v: World, r: int, q: int, t: Slot)
    requires Marks(w, v, r, r + 1) && q != r
    ensures Waiting(v, q, t) <==> Waiting(w, q, t)
  {
    assert Unfold(0);
    assert SlotIn(v, q, t) <==> SlotIn(w, q, t);
  }

  lemma InfoVmsStep(w0: World, before: seq<Group>, w: World, report: seq<Group>, r: int, max: nat, i: Info)
    requires Valid(w) && 0 <= r < |w.vms| && ReportInv(w0, before, w, report, r, max) && NoneBelow(w, r)
    requires i == InfoVm(w, report, r, max)
    ensures ReportInv(w0, before, i.w, i.report, r + 1, max) && Valid(i.w) && |i.w.vms| == |w.vms|
    ensures if i.phase == Full then HasMore(i.w, r) else NoneBelow(i.w, r + 1)
  {
    InfoVmMeans(w, report, r, max, i);
    ReportStep(w0, before, w, report, r, max, i);
    SameVms(w, i.w, r);
    if i.phase != Full {
      StaysNone(w, i.w, r);
    }
  }

  lemma {:induction false} InfoVmsMeans(w0: World, before: seq<Group>, w: World, report: seq<Group>, r: int,
                                        max: nat, i: Info)
    requires Valid(w) && 0 <= r <= |w.vms| && ReportInv(w0, before, w, report, r, max) && NoneBelow(w, r)
    requires i == InfoVms(w, report, r, max)
    ensures ReportInv(w0, before, i.w, i.report, |w.vms|, max) && Valid(i.w)
    ensures i.phase == Full <==> exists q :: HasMore(i.w, q)
    decreases |w.vms| - r
  {
    if r < |w.vms| {
      var x := InfoVm(w, report, r, max);
      InfoVmsStep(w0, before, w, report, r, max, x);
      if x.phase == Full {
        MarksMore(w0, x.w, r + 1, |w.vms|);
        assert HasMore(i.w, r);
      } else {
        InfoVmsMeans(w0, before, x.w, x.report, r + 1, max, i);
      }
    } else {
      AllBelow(w, r);
    }
  }

  lemma AllBelow(w: World, r: int)
    requires NoneBelow(w, r) && |w.vms| <= r
    ensures forall q :: !HasMore(w, q)
  {
    forall q
      ensures !HasMore(w, q)
    {
      assert forall t :: Waiting(w, q, t) ==> 0 <= q < r;
    }
  }

  lemma MarksMore(w0: World, w: World, r: int, n: int)
    requires Marks(w0, w, 0, r) && r <= n
    ensures Marks(w0, w, 0, n)
  {
    assert Unfold(0);
  }

  /**
    * The whole call: the report fits and extends what was there, whatever is newly marked as reported
    * is named in it and nothing else is, and the list is full exactly when something was left out.
    */
  lemma InfoGetMeans(w: World, before: seq<Group>, max: nat, i: Info)
    requires Valid(w) && Size(before) <= max && GroupsFit(before) && i == InfoVms(w, before, 0, max)
    ensures Size(i.report) <= max && GroupsFit(i.report) && before <= i.report
    ensures forall r, t :: MarkedIn(w, i.w, r, t) ==> Named(i.report, |before|, w.vms[r].id, t)
    ensures forall g :: |before| <= g < |i.report| ==> JustifiedBySome(w, i.w, i.report[g])
    ensures i.phase == Full <==> exists r :: HasMore(i.w, r)
  {
    assert ReportInv(w, before, w, before, 0, max);
    InfoVmsMeans(w, before, w, before, 0, max, i);
    assert Unfold(0);
  }
}
