/**
  * The lists of FFA_NOTIFICATION_INFO_GET exactly (src/vm.c): the groups that are made for one VM and the
  * vCPUs in them.
  */
module NotificationLists {
  import opened Arithmetic
  import opened Notifications
  import opened NotificationInfo

  /** The vCPUs in the groups from `start` on, one after the other. */
  function Listed(report: seq<Group>, start: nat): seq<int> {
    if |report| <= start then [] else Listed(report[..|report| - 1], start) + report[|report| - 1].vcpus
  }

  /** The vCPUs among the slots with notifications that are reported in `w` and were not in `w0`. */
  function Newly(w0: World, w: World, r: int, slots: seq<Slot>): seq<int> {
    if slots == [] then []
    else
      (if slots[0].PerVcpu? && MarkedIn(w0, w, r, slots[0]) then [slots[0].vcpu] else []) + Newly(w0, w, r, slots[1..])
  }

  /** The groups from `start` on are for one VM, and a group is only started when the last one is full. */
  predicate Packed(report: seq<Group>, start: nat, id: int, phase: Phase) {
    && start <= |report| && (phase == Init ==> |report| == start)
    && (phase == Inserting ==> |report| > start && |report[|report| - 1].vcpus| < MAX_GROUP)
    && (phase == StartingNew ==> |report| > start && |report[|report| - 1].vcpus| == MAX_GROUP)
    && (forall g :: start <= g < |report| ==> report[g].vm == id)
    && forall g :: start <= g < |report| - 1 ==> |report[g].vcpus| == MAX_GROUP
  }

  lemma ListedExtended(report: seq<Group>, vcpu: int, start: nat)
    requires start < |report|
    ensures Listed(Extended(report, vcpu), start) == Listed(report, start) + [vcpu]
  {
    assert Extended(report, vcpu)[..|report| - 1] == report[..|report| - 1];
    var a, last := Listed(report[..|report| - 1], start), report[|report| - 1].vcpus;
    assert a + (last + [vcpu]) == (a + last) + [vcpu];
  }

  lemma ListedSnoc(report: seq<Group>, g: Group, start: nat)
    requires start <= |report|
    ensures Listed(report + [g], start) == Listed(report, start) + g.vcpus
  {
    assert (report + [g])[..|report|] == report;
  }

  // ---- One slot ----

  lemma InsertPacked(report: seq<Group>, phase: Phase, id: int, slot: Slot, max: nat, start: nat, x: Inserted)
    requires Packed(report, start, id, phase) && phase != Full && x == Insert(report, phase, id, slot, max)
    ensures Packed(x.report, start, id, x.phase) && x.report[..start] == report[..start]
    ensures Listed(x.report, start) ==
            Listed(report, start) + if slot.PerVcpu? && x.phase != Full then [slot.vcpu] else []
  {
    if x.report == report {
      assert Listed(report, start) + [] == Listed(report, start);
    } else if phase == Inserting {
      ExtendPacked(report, slot.vcpu, start, id, x.report, x.phase);
    } else {
      StartPacked(report, phase, start, Group(id, if slot.PerVcpu? then [slot.vcpu] else []), x.report);
    }
  }

  lemma ExtendPacked(report: seq<Group>, vcpu: int, start: nat, id: int, after: seq<Group>, phase: Phase)
    requires Packed(report, start, id, Inserting) && after == Extended(report, vcpu)
    requires phase == if |after[|after| - 1].vcpus| == MAX_GROUP then StartingNew else Inserting
    ensures Packed(after, start, id, phase) && after[..start] == report[..start]
    ensures Listed(after, start) == Listed(report, start) + [vcpu]
  {
    ListedExtended(report, vcpu, start);
  }

  lemma StartPacked(report: seq<Group>, phase: Phase, start: nat, g: Group, after: seq<Group>)
    requires Packed(report, start, g.vm, phase) && (phase == Init || phase == StartingNew) && |g.vcpus| < MAX_GROUP
    requires after == report + [g]
    ensures Packed(after, start, g.vm, Inserting) && after[..start] == report[..start]
    ensures Listed(after, start) == Listed(report, start) + g.vcpus
  {
    ListedSnoc(report, g, start);
  }

  lemma SlotPacked(i: Info, r: int, slot: Slot, max: nat, start: nat, j: Info)
    requires SlotIn(i.w, r, slot) && Packed(i.report, start, i.w.vms[r].id, i.phase) && j == InfoSlot(i, r, slot, max)
    ensures SlotIn(j.w, r, slot) && Packed(j.report, start, i.w.vms[r].id, j.phase) && j.w.vms[r].id == i.w.vms[r].id
    ensures i.report[..start] == j.report[..start]
    ensures Listed(j.report, start) ==
            Listed(i.report, start) + if slot.PerVcpu? && MarkedIn(i.w, j.w, r, slot) then [slot.vcpu] else []
  {
    SlotMarks(i, r, slot, max, j);
    if i.phase != Full && Unreported(At(i.w, r, slot)) {
      InsertPacked(i.report, i.phase, i.w.vms[r].id, slot, max, start,
                   Insert(i.report, i.phase, i.w.vms[r].id, slot, max));
    }
  }

  lemma SlotMarks(i: Info, r: int, slot: Slot, max: nat, j: Info)
    requires SlotIn(i.w, r, slot) && (i.phase == Inserting ==> i.report != []) && j == InfoSlot(i, r, slot, max)
    ensures MarkedIn(i.w, j.w, r, slot) <==> i.phase != Full && j.phase != Full && Unreported(At(i.w, r, slot))
  {
    assert Unfold(0);
  }

  // ---- All slots ----

  lemma {:induction false} AllLeaveAlone(i: Info, r: int, slots: seq<Slot>, max: nat, j: Info, t: Slot)
    requires forall k :: 0 <= k < |slots| ==> SlotIn(i.w, r, slots[k])
    requires (i.phase == Inserting ==> i.report != []) && j == InfoAll(i, r, slots, max)
    requires t !in slots && SlotIn(i.w, r, t)
    ensures SlotIn(j.w, r, t) && At(j.w, r, t) == At(i.w, r, t)
    decreases |slots|
  {
    if slots != [] {
      SlotLeavesAlone(i, r, slots[0], max, t);
      AllLeaveAlone(InfoSlot(i, r, slots[0], max), r, slots[1..], max, j, t);
    }
  }

  lemma SlotLeavesAlone(i: Info, r: int, slot: Slot, max: nat, t: Slot)
    requires SlotIn(i.w, r, slot) && (i.phase == Inserting ==> i.report != []) && SlotIn(i.w, r, t) && t != slot
    ensures SlotIn(InfoSlot(i, r, slot, max).w, r, t) && At(InfoSlot(i, r, slot, max).w, r, t) == At(i.w, r, t)
  {
    assert Unfold(0);
  }

  predicate Distinct(slots: seq<Slot>) {
    forall a, b :: 0 <= a < b < |slots| ==> slots[a] != slots[b]
  }

  lemma {:induction false} NewlySame(u: World, w0: World, w: World, r: int, slots: seq<Slot>)
    requires forall t :: t in slots ==> (MarkedIn(u, w, r, t) <==> MarkedIn(w0, w, r, t))
    ensures Newly(u, w, r, slots) == Newly(w0, w, r, slots)
  {
    if slots != [] {
      assert slots[0] in slots && forall t :: t in slots[1..] ==> t in slots;
      NewlySame(u, w0, w, r, slots[1..]);
    }
  }

  lemma {:induction false} AllPacked(i: Info, r: int, slots: seq<Slot>, max: nat, start: nat, j: Info)
    requires Distinct(slots) && (forall k :: 0 <= k < |slots| ==> SlotIn(i.w, r, slots[k])) && 0 <= r < |i.w.vms|
    requires Packed(i.report, start, i.w.vms[r].id, i.phase) && j == InfoAll(i, r, slots, max)
    ensures Packed(j.report, start, i.w.vms[r].id, j.phase) && j.report[..start] == i.report[..start]
    ensures Listed(j.report, start) == Listed(i.report, start) + Newly(i.w, j.w, r, slots)
    decreases |slots|
  {
    if slots == [] {
      assert Listed(i.report, start) + [] == Listed(i.report, start);
    } else {
      var x, rest := InfoSlot(i, r, slots[0], max), slots[1..];
      SlotPacked(i, r, slots[0], max, start, x);
      AllPacked(x, r, rest, max, start, j);
      assert slots[0] !in rest;
      AllLeaveAlone(x, r, rest, max, j, slots[0]);
      forall t | t in rest
        ensures MarkedIn(i.w, j.w, r, t) <==> MarkedIn(x.w, j.w, r, t)
      {
        SlotLeavesAlone(i, r, slots[0], max, t);
      }
      NewlySame(i.w, x.w, j.w, r, rest);
      assert MarkedIn(i.w, j.w, r, slots[0]) <==> MarkedIn(i.w, x.w, r, slots[0]);
      Appended(Listed(i.report, start), if slots[0].PerVcpu? && MarkedIn(i.w, x.w, r, slots[0])
                                        then [slots[0].vcpu] else [], Newly(x.w, j.w, r, rest));
    }
  }

  lemma Appended(a: seq<int>, b: seq<int>, c: seq<int>)
    ensures (a + b) + c == a + (b + c)
  {
  }

  lemma {:induction false} VcpuSlotsDistinct(fromVm: bool, n: nat)
    ensures Distinct(VcpuSlots(fromVm, n))
  {
    if n > 0 {
      VcpuSlotsDistinct(fromVm, n - 1);
      assert PerVcpu(fromVm, n - 1) !in VcpuSlots(fromVm, n - 1);
    }
  }

  lemma InfoSlotsDistinct(vm: Vm)
    requires vm.vcpuCount >= 0
    ensures Distinct(InfoSlots(vm))
  {
    var a, b := VcpuSlots(false, vm.vcpuCount), VcpuSlots(true, vm.vcpuCount);
    VcpuSlotsDistinct(false, vm.vcpuCount);
    VcpuSlotsDistinct(true, vm.vcpuCount);
    assert forall k :: 0 <= k < |a| ==> a[k] in a;
    assert forall k :: 0 <= k < |b| ==> b[k] in b;
  }

  /** What one VM adds to the list: groups with its ID, of which all but the last name three vCPUs. They
      name the vCPUs that have something new to report, once for each slot and in the order of the slots. */
  lemma VmListed(w: World, report: seq<Group>, r: int, max: nat, i: Info)
    requires Valid(w) && 0 <= r < |w.vms| && i == InfoVm(w, report, r, max)
    ensures report <= i.report
    ensures forall g :: |report| <= g < |i.report| ==> i.report[g].vm == w.vms[r].id
    ensures forall g :: |report| <= g < |i.report| - 1 ==> |i.report[g].vcpus| == 3
    ensures w.vms[r].vcpuCount >= 0 && Listed(i.report, |report|) == Newly(w, i.w, r, InfoSlots(w.vms[r]))
  {
    SlotsThere(w, r);
    assert ValidVm(w.vms[r]);
    InfoSlotsDistinct(w.vms[r]);
    AllPacked(Info(w, report, Init), r, InfoSlots(w.vms[r]), max, |report|, i);
    assert i.report[..|report|] == report;
  }
}
