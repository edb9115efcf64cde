/**
  * The notification calls as the code makes them (src/vm.c, src/api.c): loops over bits, vCPUs and
  * VMs that update the receivers, the counters and the ID buffers in place. Every method is proved
  * against the step of the model; a CHECK that cannot fail is an assertion here.
  */
module NotificationCalls {
  import opened Arithmetic
  import opened Collections
  import opened Notifications
  import opened NotificationInfo
  import opened NotificationReturn
  import opened NotificationRuns
  import opened NotificationBindings

  function Below(s: Bitmap, i: int): Bitmap {
    set b | b in s && b < i
  }

  lemma BelowStep(s: Bitmap, i: int)
    ensures |Below(s, i + 1)| == |Below(s, i)| + if i in s then 1 else 0
  {
    if i in s {
      assert Below(s, i + 1) == Below(s, i) + {i};
    } else {
      assert Below(s, i + 1) == Below(s, i);
    }
  }

  function Moved(counter: int, inc: int, n: int): int {
    if inc > 0 then counter + n else counter - n
  }

  /** vm_notifications_global_state_count_update: bit by bit, with a CHECK before every change. */
  method CountBits(bitmap: Bitmap, counter: int, inc: int) returns (ok: bool, c: int)
    requires IsBitmap(bitmap) && 0 <= counter <= UINT32_MAX && (inc == 1 || inc == -1)
    ensures ok <==> 0 <= Moved(counter, inc, |bitmap|) <= UINT32_MAX
    ensures ok ==> c == Moved(counter, inc, |bitmap|)
  {
    c := counter;
    assert Below(bitmap, 0) == {};
    for i := 0 to MAX_FFA_NOTIFICATIONS
      invariant c == Moved(counter, inc, |Below(bitmap, i)|) && 0 <= c <= UINT32_MAX
    {
      BelowStep(bitmap, i);
      if i in bitmap {
        if !((inc > 0 && c < UINT32_MAX) || (inc < 0 && c > 0)) {
          SubsetSize(Below(bitmap, i + 1), bitmap);
          return false, c;
        }
        c := c + inc;
      }
    }
    assert Below(bitmap, MAX_FFA_NOTIFICATIONS) == bitmap;
    return true, c;
  }

  /** vm_are_notifications_pending. */
  method ArePending(s: Source, n: Bitmap) returns (pending: bool)
    ensures pending <==> AnyPending(s, n)
  {
    for i := 0 to |s.vcpus|
      invariant forall k :: 0 <= k < i ==> s.vcpus[k].pending * n == {}
    {
      if s.vcpus[i].pending * n != {} {
        return true;
      }
    }
    return s.global.pending * n != {};
  }

  /** vm_notifications_validate_bound_sender. */
  method ValidateBoundSender(s: Source, sender: int, n: Bitmap) returns (ok: bool)
    requires |s.senders| == MAX_FFA_NOTIFICATIONS && IsBitmap(n)
    ensures ok <==> BoundTo(s, sender, n)
  {
    for i := 0 to MAX_FFA_NOTIFICATIONS
      invariant forall b :: b in n && b < i ==> s.senders[b] == sender
    {
      if i in n && s.senders[i] != sender {
        return false;
      }
    }
    return true;
  }

  /** The loop of vm_notifications_update_bindings. */
  method Rebind(s: Source, sender: int, n: Bitmap, perVcpu: bool) returns (t: Source)
    requires |s.senders| == MAX_FFA_NOTIFICATIONS && IsBitmap(n)
    ensures t == Rebound(s, sender, n, perVcpu)
  {
    var senders := s.senders;
    for i := 0 to MAX_FFA_NOTIFICATIONS
      invariant |senders| == |s.senders|
      invariant forall b :: 0 <= b < |senders| ==> senders[b] == if b < i && b in n then sender else s.senders[b]
    {
      if i in n {
        senders := senders[i := sender];
      }
    }
    t := s.(senders := senders, perVcpu := if perVcpu then s.perVcpu + n else s.perVcpu - n);
    assert t.senders == Rebound(s, sender, n, perVcpu).senders;
  }

  /** The buffers an INFO_GET call fills: the IDs, and the number of vCPU IDs in each group. */
  class IdList {
    const ids: array<int>
    const sizes: array<int>
    var idsCount: int
    var listsCount: int

    ghost predicate Holds(report: seq<Group>)
      reads this, ids, sizes
    {
      && ids.Length == sizes.Length && ids != sizes && 0 <= idsCount <= ids.Length && 0 <= listsCount <= sizes.Length
      && ids[..idsCount] == Ids(report) && sizes[..listsCount] == Sizes(report)
      && forall k :: listsCount <= k < sizes.Length ==> sizes[k] == 0
    }

    constructor (max: nat)
      ensures Holds([]) && ids.Length == max && fresh(ids) && fresh(sizes)
    {
      ids := new int[max];
      sizes := new int[max](_ => 0);
      idsCount := 0;
      listsCount := 0;
    }

    /** A VM ID, and a vCPU ID of it if there is one, that start a group. */
    method Start(vm: int, perVcpu: bool, vcpu: int, ghost report: seq<Group>)
      requires Holds(report) && Size(report) + (if perVcpu then 2 else 1) <= ids.Length
      modifies this, ids, sizes
      ensures Holds(report + [Group(vm, if perVcpu then [vcpu] else [])])
    {
      IdsSize(report);
      GroupsBound(report);
      IdsSnoc(report, Group(vm, if perVcpu then [vcpu] else []));
      ids[idsCount] := vm;
      idsCount := idsCount + 1;
      if perVcpu {
        ids[idsCount] := vcpu;
        idsCount := idsCount + 1;
        sizes[listsCount] := sizes[listsCount] + 1;
      }
      listsCount := listsCount + 1;
    }

    /** The state machine that decides what is inserted. */
    method Add(phase: Phase, vm: int, slot: Slot, ghost report: seq<Group>) returns (next: Phase)
      requires Holds(report) && (phase == Inserting ==> report != []) && Size(report) <= ids.Length
      modifies this, ids, sizes
      ensures Holds(Insert(report, phase, vm, slot, ids.Length).report)
      ensures next == Insert(report, phase, vm, slot, ids.Length).phase
    {
      IdsSize(report);
      if idsCount == ids.Length {
        return Full;
      }
      if phase == Inserting {
        next := Inserting;
        if slot.PerVcpu? {
          var size := Extend(slot.vcpu, report);
          if size == MAX_GROUP {
            next := StartingNew;
          }
        }
      } else {
        if slot.PerVcpu? && ids.Length - idsCount < 2 {
          return Full;
        }
        Start(vm, slot.PerVcpu?, if slot.PerVcpu? then slot.vcpu else 0, report);
        next := Inserting;
      }
    }

    /** api_ffa_notification_info_get_success_return: the second register. `undefined` stands for what
        becomes of a size that is shifted out of its 32 bits. */
    method SuccessReturn(more: bool, undefined: nat, ghost report: seq<Group>) returns (x2: int)
      requires Holds(report) && Size(report) <= FFA_NOTIFICATIONS_INFO_GET_MAX_IDS && GroupsFit(report)
      ensures Returned(x2, more, report)
    {
      GroupsBound(report);
      ghost var all := Sizes(report);
      var low := (if more then 1 else 0) + 128 * (listsCount % 32);
      ghost var start := low;
      var shift, lost := 4096, false;
      for i := 0 to listsCount
        invariant low == start + 4096 * Pack(Low(all[..i])) && (i <= 10 ==> shift == 4096 * Power4(i))
        invariant lost <==> Lost(all[..i])
      {
        assert sizes[i] == sizes[..listsCount][i] == all[i];
        RegisterStep(all, i, low, start, shift);
        LostStep(all, i);
        if i < 10 {
          low := low + sizes[i] % 4 * shift;
          shift := shift * 4;
        } else if sizes[i] % 4 != 0 {
          lost := true;
        }
      }
      assert all[..listsCount] == all;
      if lost {
        LostIsTail(report);
        return undefined % TWO32;
      }
      LowIsReturned(low, more, report);
      return low;
    }

    /** Another vCPU ID for the last group. */
    method Extend(vcpu: int, ghost report: seq<Group>) returns (size: int)
      requires Holds(report) && report != [] && Size(report) < ids.Length
      modifies this, ids, sizes
      ensures Holds(Extended(report, vcpu)) && size == |report[|report| - 1].vcpus| + 1
    {
      IdsSize(report);
      IdsExtended(report, vcpu);
      ids[idsCount] := vcpu;
      idsCount := idsCount + 1;
      sizes[listsCount - 1] := sizes[listsCount - 1] + 1;
      return sizes[listsCount - 1];
    }
  }

  lemma IdsExtended(report: seq<Group>, vcpu: int)
    requires report != []
    ensures Ids(Extended(report, vcpu)) == Ids(report) + [vcpu]
    ensures Sizes(Extended(report, vcpu)) == Sizes(report)[|report| - 1 := |report[|report| - 1].vcpus| + 1]
  {
    var rest, last := report[..|report| - 1], report[|report| - 1];
    assert Extended(report, vcpu)[..|report| - 1] == rest;
    assert Ids(rest) + [last.vm] + (last.vcpus + [vcpu]) == Ids(rest) + [last.vm] + last.vcpus + [vcpu];
  }

  class Notifier {
    var vms: seq<Vm>
    var pendingCount: int
    var retrievedCount: int
    ghost var excess: int

    ghost function Now(): World
      reads this
    {
      World(vms, pendingCount, retrievedCount)
    }

    ghost predicate Ready()
      reads this
    {
      Counted(Now(), excess) && In32Bits(Now())
    }

    /** The receivers after their initialisation. */
    constructor (configs: seq<Config>, maxCpus: nat)
      requires forall r :: 0 <= r < |configs| ==> configs[r].vcpuCount <= maxCpus
      ensures Ready() && excess == 0 && Now() == Fresh(configs, maxCpus) && Initial(Now())
    {
      FreshIsInitial(configs, maxCpus);
      InitialCounted(Fresh(configs, maxCpus));
      vms := Fresh(configs, maxCpus).vms;
      pendingCount, retrievedCount, excess := 0, 0, 0;
    }

    /** FFA_NOTIFICATION_BIND and FFA_NOTIFICATION_UNBIND. */
    method UpdateBindings(isBind: bool, sender: int, fromVm: bool, r: int, perVcpu: bool, n: Bitmap, valid: bool,
                          known: bool)
      returns (status: Status)
      requires Ready() && IsBitmap(n)
      modifies this
      ensures Ready() && excess == old(excess)
      ensures status == BindingStatus(old(Now()), isBind, sender, fromVm, r, n, valid, known)
      ensures Now() == Step(old(Now()), Bindings(isBind, sender, fromVm, r, perVcpu, n, valid, known))
      ensures RebindMeans(old(Now()), Bindings(isBind, sender, fromVm, r, perVcpu, n, valid, known), Now(), status)
    {
      ghost var ev := Bindings(isBind, sender, fromVm, r, perVcpu, n, valid, known);
      RebindIff(Now(), ev);
      BindingsCounted(Now(), ev, excess);
      if !valid || n == {} {
        return InvalidParameters;
      }
      if !(0 <= r < |vms|) {
        return Denied;
      }
      assert ValidVm(vms[r]);
      if !vms[r].enabled {
        return NotSupported;
      }
      if isBind && !known {
        return InvalidParameters;
      }
      var bound := ValidateBoundSender(SourceOf(vms[r], fromVm), if isBind then HF_INVALID_VM_ID else sender, n);
      if !bound {
        return Denied;
      }
      var pending := ArePending(SourceOf(vms[r], fromVm), n);
      if pending {
        return Denied;
      }
      var s := Rebind(SourceOf(vms[r], fromVm), if isBind then sender else HF_INVALID_VM_ID, n, perVcpu && isBind);
      vms := vms[r := PutSource(vms[r], fromVm, s)];
      return Success;
    }

    /** FFA_NOTIFICATION_SET. A failed CHECK is the one way it does not return. */
    method SetNotifications(sender: int, fromVm: bool, r: int, perVcpu: bool, vcpu: int, n: Bitmap, valid: bool)
      returns (status: Status, panicked: bool)
      requires Ready() && IsBitmap(n) && 0 <= vcpu
      modifies this
      ensures panicked <==> Panics(old(Now()), SetPending(sender, fromVm, r, perVcpu, vcpu, n, valid))
      ensures !panicked ==> status == SetStatus(old(Now()), sender, fromVm, r, perVcpu, vcpu, n, valid)
      ensures !panicked ==> Ready() && Now() == Step(old(Now()), SetPending(sender, fromVm, r, perVcpu, vcpu, n, valid))
      ensures !panicked ==>
              excess == old(excess) + Again(old(Now()), SetPending(sender, fromVm, r, perVcpu, vcpu, n, valid))
      ensures !panicked ==>
              SetMeans(old(Now()), SetPending(sender, fromVm, r, perVcpu, vcpu, n, valid), Now(), status == Success)
    {
      SetIff(Now(), SetPending(sender, fromVm, r, perVcpu, vcpu, n, valid));
      if !valid || n == {} || !(0 <= r < |vms|) {
        return InvalidParameters, false;
      }
      assert ValidVm(vms[r]);
      if !vms[r].enabled {
        return Denied, false;
      }
      var bound := ValidateBoundSender(SourceOf(vms[r], fromVm), sender, n);
      if !bound || !KindMatches(SourceOf(vms[r], fromVm), n, perVcpu) {
        return Denied, false;
      }
      if perVcpu && vcpu >= vms[r].vcpuCount {
        return InvalidParameters, false;
      }
      if vcpu >= MaxCpus(vms[r]) {
        return Success, true;
      }
      panicked := SetSlotPending(r, SetSlot(fromVm, perVcpu, vcpu), n);
      return Success, panicked;
    }

    /** vm_notifications_state_set. */
    method SetSlotPending(r: int, slot: Slot, n: Bitmap) returns (panicked: bool)
      requires Ready() && SlotIn(Now(), r, slot) && IsBitmap(n) && (slot.PerVcpu? ==> slot.vcpu < vms[r].vcpuCount)
      modifies this
      ensures panicked <==> !In32Bits(SetState(old(Now()), r, slot, n))
      ensures !panicked ==> Ready() && Now() == SetState(old(Now()), r, slot, n)
      ensures !panicked ==> excess == old(excess) + |n * At(old(Now()), r, slot).pending|
    {
      SetCounted(Now(), r, slot, n, excess);
      var s := Get(vms[r], slot);
      vms := vms[r := Put(vms[r], slot, s.(pending := s.pending + n))];
      var ok, c := CountBits(n, pendingCount, 1);
      if !ok {
        return true;
      }
      pendingCount := c;
      excess := excess + |n * s.pending|;
      return false;
    }

    /** vm_notifications_state_get_pending: neither CHECK can fail. */
    method TakePending(r: int, slot: Slot) returns (bits: Bitmap)
      requires Ready() && SlotIn(Now(), r, slot)
      modifies this
      ensures Ready() && excess == old(excess)
      ensures Now() == TakeState(old(Now()), r, slot) && bits == At(old(Now()), r, slot).pending
    {
      TakeCounted(Now(), r, slot, excess);
      SeenBelowSet(TakeState(Now(), r, slot), excess);
      PendingIsBitmap(Now(), r, slot);
      OrderlyAt(Now(), r, slot);
      var s := Get(vms[r], slot);
      var ok, c := CountBits(s.pending, pendingCount, -1);
      assert ok;
      pendingCount := c;
      var both := s.pending * s.retrieved;
      if both != {} {
        ok, c := CountBits(both, retrievedCount, -1);
        assert ok;
        retrievedCount := c;
      }
      vms := vms[r := Put(vms[r], slot, State({}, {}))];
      return s.pending;
    }

    /** FFA_NOTIFICATION_GET, where the platform gets what SPs and the framework sent by the same means. */
    method GetNotifications(r: int, vcpu: int, cpu: int, sp: bool, vm: bool, framework: bool, valid: bool)
      returns (status: Status, fromSp: Bitmap, fromVm: Bitmap, fromFramework: Bitmap)
      requires Ready() && 0 <= vcpu
      modifies this
      ensures Ready() && excess == old(excess)
      ensures status == GetStatus(old(Now()), r, vcpu, cpu, valid)
      ensures Now() == Step(old(Now()), GetPending(r, vcpu, cpu, sp, vm, framework, valid))
      ensures status == Success ==>
                && fromSp == Gettable(old(Now()), r, sp, false, vcpu)
                && fromVm == Gettable(old(Now()), r, vm, true, vcpu)
                && fromFramework == (if framework then old(vms)[r].framework.pending else {})
      ensures GetMeans(old(Now()), GetPending(r, vcpu, cpu, sp, vm, framework, valid), Now(), status == Success)
    {
      GetIff(Now(), GetPending(r, vcpu, cpu, sp, vm, framework, valid));
      if !valid || !(0 <= r < |vms|) || vms[r].vcpuCount <= vcpu || (vms[r].vcpuCount != 1 && cpu != vcpu) {
        return InvalidParameters, {}, {}, {};
      }
      assert ValidVm(vms[r]);
      fromSp, fromVm, fromFramework := GetAll(r, vcpu, sp, vm, framework);
      status := Success;
    }

    method GetAll(r: int, vcpu: int, sp: bool, vm: bool, framework: bool)
      returns (fromSp: Bitmap, fromVm: Bitmap, fromFramework: Bitmap)
      requires Ready() && SlotIn(Now(), r, PerVcpu(false, vcpu)) && SlotIn(Now(), r, PerVcpu(true, vcpu))
      modifies this
      ensures Ready() && excess == old(excess)
      ensures Now() == TakeAll(old(Now()), r, GetSlots(vcpu, sp, vm, framework))
      ensures fromSp == Gettable(old(Now()), r, sp, false, vcpu) && fromVm == Gettable(old(Now()), r, vm, true, vcpu)
      ensures fromFramework == if framework then old(vms)[r].framework.pending else {}
    {
      ghost var was := Now();
      ghost var a, b := PartitionSlots(sp, false, vcpu), PartitionSlots(vm, true, vcpu);
      fromSp := GetPartition(r, sp, false, vcpu);
      GetLater(was, r, a, b, vm, vcpu);
      fromVm := GetPartition(r, vm, true, vcpu);
      FrameworkLast(was, r, a + b, framework);
      fromFramework := {};
      if framework {
        fromFramework := TakePending(r, Framework);
      }
    }

    /** vm_notifications_partition_get_pending, if it is wanted. */
    method GetPartition(r: int, wanted: bool, fromVm: bool, vcpu: int) returns (bits: Bitmap)
      requires Ready() && SlotIn(Now(), r, PerVcpu(fromVm, vcpu))
      modifies this
      ensures Ready() && excess == old(excess)
      ensures Now() == TakeAll(old(Now()), r, PartitionSlots(wanted, fromVm, vcpu))
      ensures bits == Gettable(old(Now()), r, wanted, fromVm, vcpu)
    {
      if !wanted {
        return {};
      }
      ghost var was := Now();
      bits := TakePending(r, Global(fromVm));
      TakenAt(was, r, Global(fromVm), PerVcpu(fromVm, vcpu));
      var more := TakePending(r, PerVcpu(fromVm, vcpu));
      bits := bits + more;
      TakeAllConcat(was, r, [Global(fromVm)], [PerVcpu(fromVm, vcpu)]);
    }

    /** The slots in `done` have been dealt with, from `w0` and the report `before` on. */
    ghost predicate Building(list: IdList, r: int, phase: Phase, w0: World, before: seq<Group>, done: seq<Slot>)
      reads this, list, list.ids, list.sizes
    {
      forall k {:trigger Open(k)} :: Open(k) ==>
        && Ready() && SlotsIn(w0, r, done)
        && var j := InfoAll(Info(w0, before, Init), r, done, list.ids.Length);
        && Now() == j.w && phase == j.phase && list.Holds(j.report) && InfoInv(w0, before, j, r, list.ids.Length)
    }

    /** vm_notifications_state_info_get. The CHECK on the retrieved count cannot fail. */
    method StateInfoGet(list: IdList, r: int, slot: Slot, phase: Phase, ghost w0: World, ghost before: seq<Group>,
                        ghost done: seq<Slot>)
      returns (next: Phase)
      requires Building(list, r, phase, w0, before, done) && SlotIn(w0, r, slot)
      modifies this, list, list.ids, list.sizes
      ensures Building(list, r, next, w0, before, done + [slot]) && excess == old(excess)
    {
      assert Open(0);
      ghost var max := list.ids.Length;
      ghost var i := InfoAll(Info(w0, before, Init), r, done, max);
      SlotStays(w0, i.w, r, slot);
      InfoSlotKeeps(w0, before, i, r, slot, max, InfoSlot(i, r, slot, max));
      InfoAllSnoc(Info(w0, before, Init), r, done, slot, max);
      next := phase;
      if phase != Full && Unreported(Get(vms[r], slot)) {
        next := list.Add(phase, vms[r].id, slot, i.report);
        if next != Full {
          MarkRetrieved(r, slot);
        }
      }
    }

    method MarkRetrieved(r: int, slot: Slot)
      requires Ready() && SlotIn(Now(), r, slot)
      modifies this
      ensures Ready() && excess == old(excess) && Now() == MarkState(old(Now()), r, slot)
    {
      MarkCounted(Now(), r, slot, excess);
      SeenBelowSet(MarkState(Now(), r, slot), excess);
      PendingIsBitmap(Now(), r, slot);
      var s := Get(vms[r], slot);
      var ok, c := CountBits(s.pending - s.retrieved, retrievedCount, 1);
      assert ok;
      vms := vms[r := Put(vms[r], slot, s.(retrieved := s.retrieved + (s.pending - s.retrieved)))];
      retrievedCount := c;
    }

    /** vm_notifications_info_get_pending: the global slot, then those of the vCPUs the VM has. */
    method InfoGetPending(list: IdList, r: int, fromVm: bool, phase: Phase,
                          ghost w0: World, ghost before: seq<Group>, ghost done: seq<Slot>)
      returns (next: Phase)
      requires Building(list, r, phase, w0, before, done) && Valid(w0) && 0 <= r < |w0.vms|
      modifies this, list, list.ids, list.sizes
      ensures Building(list, r, next, w0, before, done + SourceSlots(w0.vms[r], fromVm)) && excess == old(excess)
    {
      SameCount(list, r, phase, w0, before, done);
      var n := vms[r].vcpuCount;
      next := StateInfoGet(list, r, Global(fromVm), phase, w0, before, done);
      ghost var so := done + [Global(fromVm)];
      JoinNone(so, fromVm);
      for k := 0 to n
        invariant excess == old(excess)
        invariant Building(list, r, next, w0, before, so + VcpuSlots(fromVm, k))
      {
        VcpuThere(w0, r, fromVm, k);
        JoinVcpu(so, fromVm, k);
        next := StateInfoGet(list, r, PerVcpu(fromVm, k), next, w0, before, so + VcpuSlots(fromVm, k));
      }
      JoinSource(done, w0.vms[r], fromVm);
    }

    lemma SameCount(list: IdList, r: int, phase: Phase, w0: World, before: seq<Group>, done: seq<Slot>)
      requires Building(list, r, phase, w0, before, done) && 0 <= r < |w0.vms| && Valid(w0)
      ensures r < |vms| && vms[r].vcpuCount == w0.vms[r].vcpuCount >= 0
    {
      assert ValidVm(w0.vms[r]);
      assert Open(0) && Unfold(0);
    }

    /** vm_notifications_info_get. */
    method InfoGetVm(list: IdList, r: int, ghost report: seq<Group>) returns (full: bool)
      requires Ready() && 0 <= r < |vms| && list.Holds(report) && GroupsFit(report)
      modifies this, list, list.ids, list.sizes
      ensures Size(report) <= list.ids.Length && Ready() && excess == old(excess)
      ensures var j := InfoVm(old(Now()), report, r, list.ids.Length);
              Now() == j.w && (full <==> j.phase == Full) && list.Holds(j.report)
    {
      ghost var w0 := Now();
      IdsSize(report);
      StartBuilding(w0, report, r, list.ids.Length);
      var phase := StateInfoGet(list, r, Framework, Init, w0, report, []);
      phase := InfoGetPending(list, r, false, phase, w0, report, [] + [Framework]);
      phase := InfoGetPending(list, r, true, phase, w0, report, [] + [Framework] + SourceSlots(w0.vms[r], false));
      JoinAll(w0.vms[r]);
      full := phase == Full;
      assert Open(0);
    }

    /** The loop of api_ffa_notification_info_get over the VMs, on a list that is not full. */
    method InfoGetAll(list: IdList, ghost report: seq<Group>) returns (full: bool)
      requires Ready() && list.Holds(report) && GroupsFit(report) && Size(report) < list.ids.Length
      modifies this, list, list.ids, list.sizes
      ensures Ready() && excess == old(excess)
      ensures var j := InfoVms(old(Now()), report, 0, list.ids.Length);
              Now() == j.w && (full <==> j.phase == Full) && list.Holds(j.report)
    {
      ghost var w0, now, max := Now(), report, list.ids.Length;
      full := false;
      var r := 0;
      while r < |vms| && !full
        invariant Ready() && excess == old(excess) && 0 <= r <= |vms|
        invariant list.Holds(now) && GroupsFit(now) && Size(now) <= max
        invariant InfoVms(w0, report, 0, max) == if full then Info(Now(), now, Full) else InfoVms(Now(), now, r, max)
        decreases |vms| - r + if full then 0 else 1
      {
        ghost var was, j := Now(), InfoVm(Now(), now, r, max);
        InfoVmMeans(was, now, r, max, j);
        SameVms(was, j.w, r);
        full := InfoGetVm(list, r, now);
        now := j.report;
        if !full {
          r := r + 1;
        }
      }
    }

    /** FFA_NOTIFICATION_INFO_GET, on a list that holds what the other world had to report. */
    method GetInfo(isPrimary: bool, list: IdList, undefined: nat, ghost before: seq<Group>)
      returns (status: Status, noData: bool, x2: int)
      requires Ready() && list.Holds(before) && GroupsFit(before)
      requires list.ids.Length == FFA_NOTIFICATIONS_INFO_GET_MAX_IDS
      modifies this, list, list.ids, list.sizes
      ensures Ready() && excess == old(excess) && Size(before) <= FFA_NOTIFICATIONS_INFO_GET_MAX_IDS
      ensures Now() == Step(old(Now()), InfoGet(isPrimary, before))
      ensures status == if isPrimary then Success else NotSupported
      ensures isPrimary ==> list.Holds(Report(old(Now()), before)) && (noData <==> Report(old(Now()), before) == [])
      ensures isPrimary && !noData ==>
                var more := excess > 0 || exists r :: 0 <= r < |vms| && HasMore(Now(), r);
                Returned(x2, more, Report(old(Now()), before))
    {
      IdsSize(before);
      if !isPrimary {
        return NotSupported, false, 0;
      }
      ReportFits(Now(), before);
      ghost var report := Report(Now(), before);
      if list.idsCount != list.ids.Length {
        var _ := InfoGetAll(list, before);
      }
      MorePendingIff(Now(), excess);
      if list.idsCount == 0 {
        return Success, true, 0;
      }
      x2 := list.SuccessReturn(pendingCount > retrievedCount, undefined, report);
      return Success, false, x2;
    }
  }

  lemma ReportFits(w: World, before: seq<Group>)
    requires Valid(w) && Size(before) <= FFA_NOTIFICATIONS_INFO_GET_MAX_IDS && GroupsFit(before)
    ensures var report := Report(w, before);
            && Size(report) <= FFA_NOTIFICATIONS_INFO_GET_MAX_IDS && GroupsFit(report)
            && |Ids(report)| == Size(report) && (Size(report) == 0 <==> report == [])
  {
    InfoGetMeans(w, before, FFA_NOTIFICATIONS_INFO_GET_MAX_IDS,
                 InfoVms(w, before, 0, FFA_NOTIFICATIONS_INFO_GET_MAX_IDS));
    IdsSize(Report(w, before));
    GroupsBound(Report(w, before));
  }

  /** What a receiver running on a vCPU can get from one world. */
  function Gettable(w: World, r: int, wanted: bool, fromVm: bool, vcpu: int): Bitmap
    requires SlotIn(w, r, PerVcpu(fromVm, vcpu))
  {
    if wanted then At(w, r, Global(fromVm)).pending + At(w, r, PerVcpu(fromVm, vcpu)).pending else {}
  }

  lemma GetLater(w: World, r: int, a: seq<Slot>, b: seq<Slot>, wanted: bool, vcpu: int)
    requires SlotIn(w, r, PerVcpu(true, vcpu)) && forall k :: 0 <= k < |a| ==> SlotIn(w, r, a[k])
    requires b == PartitionSlots(wanted, true, vcpu) && PerVcpu(true, vcpu) !in a && Global(true) !in a
    ensures var v := TakeAll(w, r, a);
            && SlotIn(v, r, PerVcpu(true, vcpu))
            && Gettable(v, r, wanted, true, vcpu) == Gettable(w, r, wanted, true, vcpu)
            && TakeAll(w, r, a + b) == TakeAll(v, r, b)
  {
    TakeAllConcat(w, r, a, b);
    LeftAlone(w, r, a, Global(true));
    LeftAlone(w, r, a, PerVcpu(true, vcpu));
  }

  lemma {:induction false} TakeAllConcat(w: World, r: int, a: seq<Slot>, b: seq<Slot>)
    requires forall k :: 0 <= k < |a| ==> SlotIn(w, r, a[k])
    requires forall k :: 0 <= k < |b| ==> SlotIn(w, r, b[k])
    ensures forall k :: 0 <= k < |b| ==> SlotIn(TakeAll(w, r, a), r, b[k])
    ensures TakeAll(w, r, a + b) == TakeAll(TakeAll(w, r, a), r, b)
    decreases |a|
  {
    if a == [] {
      assert a + b == b;
    } else {
      assert Unfold(0);
      assert (a + b)[1..] == a[1..] + b;
      TakeAllConcat(TakeState(w, r, a[0]), r, a[1..], b);
    }
  }

  lemma FrameworkLast(w: World, r: int, slots: seq<Slot>, framework: bool)
    requires (forall k :: 0 <= k < |slots| ==> SlotIn(w, r, slots[k])) && SlotIn(w, r, Framework) && Framework !in slots
    ensures var v := TakeAll(w, r, slots);
            && SlotIn(v, r, Framework) && At(v, r, Framework) == At(w, r, Framework)
            && (forall k :: 0 <= k < |slots + [Framework]| ==> SlotIn(w, r, (slots + [Framework])[k]))
            && TakeAll(w, r, slots + if framework then [Framework] else [])
              == if framework then TakeState(v, r, Framework) else v
  {
    LeftAlone(w, r, slots, Framework);
    TakeAllConcat(w, r, slots, [Framework]);
    assert slots + [] == slots;
  }

  lemma LeftAlone(w: World, r: int, slots: seq<Slot>, t: Slot)
    requires (forall k :: 0 <= k < |slots| ==> SlotIn(w, r, slots[k])) && SlotIn(w, r, t) && t !in slots
    ensures SlotIn(TakeAll(w, r, slots), r, t) && At(TakeAll(w, r, slots), r, t) == At(w, r, t)
  {
    TakeAllAt(w, r, slots, r, t);
  }

  lemma TakenAt(w: World, r: int, slot: Slot, t: Slot)
    requires SlotIn(w, r, slot) && SlotIn(w, r, t) && t != slot
    ensures SlotIn(TakeState(w, r, slot), r, t) && At(TakeState(w, r, slot), r, t) == At(w, r, t)
  {
    assert Unfold(0);
  }

  /** What the primary is told. */
  function Report(w: World, before: seq<Group>): seq<Group>
    requires Valid(w) && Size(before) <= FFA_NOTIFICATIONS_INFO_GET_MAX_IDS && GroupsFit(before)
  {
    if Size(before) == FFA_NOTIFICATIONS_INFO_GET_MAX_IDS then before
    else InfoVms(w, before, 0, FFA_NOTIFICATIONS_INFO_GET_MAX_IDS).report
  }

  // ---- Folding over slots ----

  function SourceSlots(vm: Vm, fromVm: bool): seq<Slot>
    requires vm.vcpuCount >= 0
  {
    [Global(fromVm)] + VcpuSlots(fromVm, vm.vcpuCount)
  }

  predicate SlotsIn(w: World, r: int, slots: seq<Slot>) {
    forall k :: 0 <= k < |slots| ==> SlotIn(w, r, slots[k])
  }

  lemma VcpuThere(w: World, r: int, fromVm: bool, k: int)
    requires Valid(w) && 0 <= r < |w.vms| && 0 <= k < w.vms[r].vcpuCount
    ensures SlotIn(w, r, PerVcpu(fromVm, k))
  {
    assert ValidVm(w.vms[r]);
  }

  lemma JoinNone(so: seq<Slot>, fromVm: bool)
    ensures so + VcpuSlots(fromVm, 0) == so
  {
  }

  lemma JoinVcpu(so: seq<Slot>, fromVm: bool, k: nat)
    ensures so + VcpuSlots(fromVm, k) + [PerVcpu(fromVm, k)] == so + VcpuSlots(fromVm, k + 1)
  {
  }

  lemma JoinSource(done: seq<Slot>, vm: Vm, fromVm: bool)
    requires vm.vcpuCount >= 0
    ensures done + [Global(fromVm)] + VcpuSlots(fromVm, vm.vcpuCount) == done + SourceSlots(vm, fromVm)
  {
  }

  lemma JoinAll(vm: Vm)
    requires vm.vcpuCount >= 0
    ensures [] + [Framework] + SourceSlots(vm, false) + SourceSlots(vm, true) == InfoSlots(vm)
  {
  }

  lemma SlotStays(w0: World, w: World, r: int, slot: Slot)
    requires Marks(w0, w, r, r + 1) && SlotIn(w0, r, slot)
    ensures SlotIn(w, r, slot)
  {
    assert Unfold(0);
  }

  lemma StartBuilding(w: World, report: seq<Group>, r: int, max: nat)
    requires Valid(w) && 0 <= r < |w.vms| && Size(report) <= max && GroupsFit(report)
    ensures InfoInv(w, report, Info(w, report, Init), r, max) && w.vms[r].vcpuCount >= 0
  {
    assert ValidVm(w.vms[r]);
    assert Marks(w, w, r, r + 1);
  }

  lemma {:induction false} InfoAllSnoc(i: Info, r: int, slots: seq<Slot>, slot: Slot, max: nat)
    requires SlotsIn(i.w, r, slots) && SlotIn(i.w, r, slot) && (i.phase == Inserting ==> i.report != [])
    ensures SlotsIn(i.w, r, slots + [slot])
    ensures var j := InfoAll(i, r, slots, max);
            && SlotIn(j.w, r, slot) && (j.phase == Inserting ==> j.report != [])
            && InfoAll(i, r, slots + [slot], max) == InfoSlot(j, r, slot, max)
    decreases |slots|
  {
    if slots == [] {
      assert [] + [slot] == [slot];
      assert [slot][1..] == [];
    } else {
      assert (slots + [slot])[1..] == slots[1..] + [slot];
      InfoAllSnoc(InfoSlot(i, r, slots[0], max), r, slots[1..], slot, max);
    }
  }
}
