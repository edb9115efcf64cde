/**
  * FF-A notifications (inc/hf/vm.h, src/vm.c): the state of every receiver, the two counters shared
  * by the whole system, and the calls that change them. A bitmap is the set of its bit numbers.
  *
  * The counters are kept as unbounded integers here: within one call each of them only moves one
  * way, so the CHECKs of the source on every single increment and decrement all hold exactly when
  * the values at the end of the call fit in 32 bits. `Panics` says so, and the methods that
  * count step by step are proved to agree with it.
  */
module Notifications {
  import opened Arithmetic

  const MAX_FFA_NOTIFICATIONS := 64
  const UINT32_MAX := 0xffff_ffff
  const HF_INVALID_VM_ID := 0x7fff

  type Bitmap = set<int>

  predicate IsBitmap(n: Bitmap) {
    forall b :: b in n ==> 0 <= b < MAX_FFA_NOTIFICATIONS
  }

  datatype State = State(pending: Bitmap, retrieved: Bitmap)

  /** Notifications from one world: who is bound to each bit, which bits are per-vCPU, and what is pending. */
  datatype Source = Source(senders: seq<int>, perVcpu: Bitmap, vcpus: seq<State>, global: State)

  datatype Vm = Vm(id: int, vcpuCount: int, enabled: bool, fromVm: Source, fromSp: Source, framework: State)

  datatype World = World(vms: seq<Vm>, pendingCount: int, retrievedCount: int)

  /** One `notifications_state` of a receiver. */
  datatype Slot = Framework | Global(fromVm: bool) | PerVcpu(fromVm: bool, vcpu: int)

  function SourceOf(vm: Vm, fromVm: bool): Source {
    if fromVm then vm.fromVm else vm.fromSp
  }

  predicate ValidSource(s: Source, cpus: int) {
    && |s.senders| == MAX_FFA_NOTIFICATIONS && |s.vcpus| == cpus && IsBitmap(s.perVcpu)
    && IsBitmap(s.global.pending) && forall i :: 0 <= i < cpus ==> IsBitmap(s.vcpus[i].pending)
  }

  /** MAX_CPUS: the length of the per-vCPU arrays. */
  function MaxCpus(vm: Vm): nat {
    |vm.fromVm.vcpus|
  }

  predicate ValidVm(vm: Vm) {
    && ValidSource(vm.fromVm, MaxCpus(vm)) && ValidSource(vm.fromSp, MaxCpus(vm))
    && 0 <= vm.vcpuCount <= MaxCpus(vm) && IsBitmap(vm.framework.pending)
  }

  predicate Valid(w: World) {
    forall r :: 0 <= r < |w.vms| ==> ValidVm(w.vms[r])
  }

  predicate HasSlot(vm: Vm, slot: Slot) {
    slot.PerVcpu? ==> 0 <= slot.vcpu < |SourceOf(vm, slot.fromVm).vcpus|
  }

  function Get(vm: Vm, slot: Slot): State
    requires HasSlot(vm, slot)
  {
    match slot
    case Framework => vm.framework
    case Global(d) => SourceOf(vm, d).global
    case PerVcpu(d, i) => SourceOf(vm, d).vcpus[i]
  }

  function PutSource(vm: Vm, fromVm: bool, s: Source): Vm {
    if fromVm then vm.(fromVm := s) else vm.(fromSp := s)
  }

  function Put(vm: Vm, slot: Slot, s: State): (r: Vm)
    requires HasSlot(vm, slot)
    ensures forall t :: HasSlot(vm, t) <==> HasSlot(r, t)
    ensures forall t :: HasSlot(vm, t) ==> Get(r, t) == if t == slot then s else Get(vm, t)
  {
    match slot
    case Framework => vm.(framework := s)
    case Global(d) => PutSource(vm, d, SourceOf(vm, d).(global := s))
    case PerVcpu(d, i) => PutSource(vm, d, SourceOf(vm, d).(vcpus := SourceOf(vm, d).vcpus[i := s]))
  }

  predicate SlotIn(w: World, r: int, slot: Slot) {
    0 <= r < |w.vms| && HasSlot(w.vms[r], slot)
  }

  function At(w: World, r: int, slot: Slot): State
    requires SlotIn(w, r, slot)
  {
    Get(w.vms[r], slot)
  }

  /** Every slot of `v` is as in `w`, but for one that is now `s`. */
  ghost predicate Stored(v: World, w: World, r: int, slot: Slot, s: State) {
    forall k {:trigger Unfold(k)} :: Unfold(k) ==>
      && SlotIn(w, r, slot) && |v.vms| == |w.vms|
      && (forall q, t :: SlotIn(v, q, t) <==> SlotIn(w, q, t))
      && (forall q,
          t :: SlotIn(w, q, t) && SlotIn(v, q, t) ==> At(v, q, t) == if q == r && t == slot then s else At(w, q, t))
  }

  function Store(w: World, r: int, slot: Slot, s: State): (v: World)
    requires SlotIn(w, r, slot)
    ensures Stored(v, w, r, slot, s)
  {
    w.(vms := w.vms[r := Put(w.vms[r], slot, s)])
  }

  // ---- One slot: setting, getting, and marking as retrieved ----

  /** vm_notifications_state_set: the count grows by every bit, pending before or not. */
  function SetState(w: World, r: int, slot: Slot, n: Bitmap): (v: World)
    requires SlotIn(w, r, slot)
    ensures Stored(v, w, r, slot, State(At(w, r, slot).pending + n, At(w, r, slot).retrieved))
  {
    var s := At(w, r, slot);
    Store(w, r, slot, s.(pending := s.pending + n)).(pendingCount := w.pendingCount + |n|)
  }

  /** vm_notifications_state_get_pending, apart from the bitmap it returns. */
  function TakeState(w: World, r: int, slot: Slot): (v: World)
    requires SlotIn(w, r, slot)
    ensures Stored(v, w, r, slot, State({}, {}))
  {
    var s := At(w, r, slot);
    Store(w, r, slot, State({}, {})).(
      pendingCount := w.pendingCount - |s.pending|,
      retrievedCount := w.retrievedCount - |s.pending * s.retrieved|)
  }

  /** What INFO_GET does to a slot it can report. */
  function MarkState(w: World, r: int, slot: Slot): (v: World)
    requires SlotIn(w, r, slot)
    ensures Stored(v, w, r, slot, State(At(w, r, slot).pending, At(w, r, slot).retrieved + At(w, r, slot).pending))
  {
    var s := At(w, r, slot);
    Store(w, r, slot, s.(retrieved := s.retrieved + (s.pending - s.retrieved))).(
      retrievedCount := w.retrievedCount + |s.pending - s.retrieved|)
  }

  predicate Unreported(s: State) {
    !(s.pending <= s.retrieved)
  }

  // ---- FFA_NOTIFICATION_BIND and _UNBIND ----

  datatype Status = Success | InvalidParameters | Denied | NotSupported

  predicate BoundTo(s: Source, sender: int, n: Bitmap)
    requires |s.senders| == MAX_FFA_NOTIFICATIONS && IsBitmap(n)
  {
    forall b :: b in n ==> s.senders[b] == sender
  }

  predicate AnyPending(s: Source, n: Bitmap) {
    s.global.pending * n != {} || exists i :: 0 <= i < |s.vcpus| && s.vcpus[i].pending * n != {}
  }

  function Rebound(s: Source, sender: int, n: Bitmap, perVcpu: bool): (t: Source)
    ensures t.vcpus == s.vcpus && t.global == s.global && |t.senders| == |s.senders|
    ensures forall b :: 0 <= b < |s.senders| ==> t.senders[b] == if b in n then sender else s.senders[b]
    ensures forall b :: b in t.perVcpu <==> if b in n then perVcpu else b in s.perVcpu
  {
    s.(senders := seq(|s.senders|, b requires 0 <= b < |s.senders| => if b in n then sender else s.senders[b]),
       perVcpu := if perVcpu then s.perVcpu + n else s.perVcpu - n)
  }

  /**
    * `valid` stands for the platform's check of who is calling for whom, `known` for the sender
    * belonging to the other world or existing, and `fromVm` for the sender being a VM.
    */
  function BindingStatus(w: World, isBind: bool, sender: int, fromVm: bool, r: int, n: Bitmap, valid: bool,
                         known: bool): Status
    requires Valid(w) && IsBitmap(n)
  {
    if !valid || n == {} then InvalidParameters
    else if !(0 <= r < |w.vms|) then Denied
    else if !w.vms[r].enabled then NotSupported
    else if isBind && !known then InvalidParameters
    else if !BoundTo(SourceOf(w.vms[r], fromVm), if isBind then HF_INVALID_VM_ID else sender, n) then Denied
    else if AnyPending(SourceOf(w.vms[r], fromVm), n) then Denied
    else Success
  }

  function UpdateBindings(w: World, isBind: bool, sender: int, fromVm: bool, r: int, perVcpu: bool, n: Bitmap,
                          valid: bool, known: bool): World
    requires Valid(w) && IsBitmap(n)
  {
    if BindingStatus(w, isBind, sender, fromVm, r, n, valid, known) != Success then w
    else
      var s := Rebound(SourceOf(w.vms[r], fromVm), if isBind then sender else HF_INVALID_VM_ID, n, perVcpu && isBind);
      w.(vms := w.vms[r := PutSource(w.vms[r], fromVm, s)])
  }

  // ---- FFA_NOTIFICATION_SET ----

  predicate KindMatches(s: Source, n: Bitmap, perVcpu: bool) {
    if perVcpu then n <= s.perVcpu else s.perVcpu * n == {}
  }

  function SetStatus(w: World, sender: int, fromVm: bool, r: int, perVcpu: bool, vcpu: int, n: Bitmap,
                     valid: bool): Status
    requires Valid(w) && IsBitmap(n)
  {
    if !valid || n == {} || !(0 <= r < |w.vms|) then InvalidParameters
    else if !w.vms[r].enabled then Denied
    else if !BoundTo(SourceOf(w.vms[r], fromVm), sender, n)
            || !KindMatches(SourceOf(w.vms[r], fromVm), n, perVcpu) then Denied
    else if perVcpu && vcpu >= w.vms[r].vcpuCount then InvalidParameters
    else Success
  }

  function SetSlot(fromVm: bool, perVcpu: bool, vcpu: int): Slot {
    if perVcpu then PerVcpu(fromVm, vcpu) else Global(fromVm)
  }

  // ---- FFA_NOTIFICATION_GET ----

  function GetStatus(w: World, r: int, vcpu: int, cpu: int, valid: bool): Status {
    if !valid || !(0 <= r < |w.vms|) then InvalidParameters
    else if w.vms[r].vcpuCount <= vcpu || (w.vms[r].vcpuCount != 1 && cpu != vcpu) then InvalidParameters
    else Success
  }

  /** The slots a call gets, in the order it gets them. */
  function GetSlots(vcpu: int, sp: bool, vm: bool, framework: bool): seq<Slot> {
    PartitionSlots(sp, false, vcpu) + PartitionSlots(vm, true, vcpu) + if framework then [Framework] else []
  }

  function PartitionSlots(wanted: bool, fromVm: bool, vcpu: int): seq<Slot> {
    if wanted then [Global(fromVm), PerVcpu(fromVm, vcpu)] else []
  }

  function TakeAll(w: World, r: int, slots: seq<Slot>): World
    requires forall k :: 0 <= k < |slots| ==> SlotIn(w, r, slots[k])
    decreases |slots|
  {
    assert Unfold(0);
    if slots == [] then w else TakeAll(TakeState(w, r, slots[0]), r, slots[1..])
  }

  // ---- What the counters count ----

  datatype Tally = Set | Seen

  function Weight(s: State, k: Tally): nat {
    if k == Set then |s.pending| else |s.retrieved|
  }

  function Count(ss: seq<State>, k: Tally): nat {
    if ss == [] then 0 else Weight(ss[0], k) + Count(ss[1..], k)
  }

  function States(vm: Vm): seq<State> {
    [vm.framework, vm.fromSp.global] + vm.fromSp.vcpus + [vm.fromVm.global] + vm.fromVm.vcpus
  }

  function IndexOf(vm: Vm, slot: Slot): nat
    requires HasSlot(vm, slot)
  {
    match slot
    case Framework => 0
    case Global(d) => if d then 2 + |vm.fromSp.vcpus| else 1
    case PerVcpu(d, i) => if d then 3 + |vm.fromSp.vcpus| + i else 2 + i
  }

  function Total(vms: seq<Vm>, k: Tally): nat {
    if vms == [] then 0 else Count(States(vms[0]), k) + Total(vms[1..], k)
  }

  lemma {:induction false} CountUpdate(ss: seq<State>, i: nat, s: State, k: Tally)
    requires i < |ss|
    ensures Count(ss[i := s], k) + Weight(ss[i], k) == Count(ss, k) + Weight(s, k)
  {
    if i == 0 {
      assert ss[i := s][1..] == ss[1..];
    } else {
      assert ss[i := s][1..] == ss[1..][i - 1 := s];
      CountUpdate(ss[1..], i - 1, s, k);
    }
  }

  lemma StatesUpdate(vm: Vm, slot: Slot, s: State)
    requires HasSlot(vm, slot)
    ensures IndexOf(vm, slot) < |States(vm)| && States(vm)[IndexOf(vm, slot)] == Get(vm, slot)
    ensures States(Put(vm, slot, s)) == States(vm)[IndexOf(vm, slot) := s]
  {
    var i, before, after := IndexOf(vm, slot), States(vm), States(Put(vm, slot, s));
    assert |after| == |before|;
    forall j | 0 <= j < |before|
      ensures after[j] == before[i := s][j]
    {
    }
  }

  lemma {:induction false} TotalUpdate(vms: seq<Vm>, r: nat, slot: Slot, s: State, k: Tally)
    requires r < |vms| && HasSlot(vms[r], slot)
    ensures Total(vms[r := Put(vms[r], slot, s)], k) + Weight(Get(vms[r], slot), k) == Total(vms, k) + Weight(s, k)
  {
    var us := vms[r := Put(vms[r], slot, s)];
    if r == 0 {
      assert us[1..] == vms[1..];
      StatesUpdate(vms[0], slot, s);
      CountUpdate(States(vms[0]), IndexOf(vms[0], slot), s, k);
    } else {
      assert us[1..] == vms[1..][r - 1 := Put(vms[r], slot, s)];
      TotalUpdate(vms[1..], r - 1, slot, s, k);
    }
  }

  /** Bindings are not counted. */
  lemma {:induction false} TotalRebound(vms: seq<Vm>, r: nat, vm: Vm, k: Tally)
    requires r < |vms| && States(vm) == States(vms[r])
    ensures Total(vms[r := vm], k) == Total(vms, k)
  {
    if r == 0 {
      assert vms[r := vm][1..] == vms[1..];
    } else {
      assert vms[r := vm][1..] == vms[1..][r - 1 := vm];
      TotalRebound(vms[1..], r - 1, vm, k);
    }
  }
}
