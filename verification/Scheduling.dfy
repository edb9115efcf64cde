/**
  * vCPU scheduling across physical CPUs in the normal world (src/api.c, inc/hf/vcpu.h). Every
  * physical CPU runs its own primary vCPU, which uses FFA_RUN and direct requests to run vCPUs of
  * secondary VMs. A step is what one physical CPU does between two points where another one can
  * get in between: a critical section under a vCPU's lock, taking a VM's lock, entering the hypervisor.
  */
module Scheduling {
  import opened Arithmetic

  const HF_INVALID_VM_ID := 0x7fff
  const PRIMARY := 0

  datatype RunState = Off | Running | Waiting | Blocked | Preempted | BlockedInterrupt | Aborted

  /** `cpu` is the physical CPU it was last run on, `origin` the VM whose direct request it serves. */
  datatype Vcpu = Vcpu(state: RunState, regsAvailable: bool, cpu: int, bootstrapped: bool, origin: int)

  datatype Id = Id(vm: int, index: int)

  /** Where a physical CPU is. */
  datatype Pc =
    | Guest(v: Id)                              // in the vCPU's own code
    | RunLock(v: Id)                            // FFA_RUN: about to lock the vCPU
    | RunLockVm(v: Id)                          // the lock was dropped again to lock the VM first
    | RunRelock(v: Id)                          // the VM is locked, about to lock the vCPU again
    | RunDecide(v: Id, vmLocked: bool)          // the vCPU is locked
    | Leaving(v: Id, state: RunState)           // about to switch back to the primary
    | Saving(from: Id, to: Id)                  // the next vCPU is chosen, the registers not saved yet

  datatype System = System(
    vcpus: map<Id, Vcpu>,
    pcs: seq<Pc>,
    vcpuLocks: map<Id, int>,                    // held locks, with the physical CPU that holds each
    vmLocks: map<int, int>,
    counts: seq<int>,                           // the number of vCPUs of every VM
    el0: set<int>)                              // the VMs that are EL0 partitions

  /** What a step depends on beyond the state: devices, mailboxes, the guest's own decisions. */
  datatype Event =
    | CallRun(v: Id)                            // the primary calls FFA_RUN
    | LockFirst                                 // the first critical section of api_vcpu_prepare_run
    | LockVm
    | LockAgain
    | Decide(aborting: bool, wake: bool)        // `wake`: a message, an interrupt or a timer lets it run
    | Request(vm: int, allowed: bool, aborting: bool) // the primary sends a direct request
    | Respond                                   // the secondary answers it
    | Leave(state: RunState)                    // the secondary is preempted, waits, yields, aborts...
    | SwitchBack                                // api_switch_to_vm
    | Saved                                     // api_regs_state_saved

  predicate NeedsVmLock(state: RunState, el0: bool) {
    state == Waiting || (!el0 && (state == BlockedInterrupt || state == Blocked || state == Preempted))
  }

  predicate Exists(s: System, v: Id) {
    0 <= v.vm < |s.counts| && 0 <= v.index < s.counts[v.vm]
  }

  /** The primary has a vCPU for every physical CPU, and `vcpus` holds exactly the vCPUs there are. */
  ghost predicate Wf(s: System) {
    && |s.counts| > 0 && s.counts[PRIMARY] == |s.pcs|
    && (forall v :: v in s.vcpus <==> Exists(s, v))
    && forall p :: 0 <= p < |s.pcs| ==> PcWf(s, p)
  }

  function Own(p: int): Id {
    Id(PRIMARY, p)
  }

  predicate Secondary(s: System, v: Id) {
    v.vm != PRIMARY && Exists(s, v)
  }

  /** Physical CPU `p` is only ever in its own primary vCPU or in a secondary one. */
  predicate PcWf(s: System, p: int)
    requires 0 <= p < |s.pcs|
  {
    match s.pcs[p]
    case Guest(v) => v == Own(p) || Secondary(s, v)
    case RunLock(v) => Secondary(s, v)
    case RunLockVm(v) => Secondary(s, v)
    case RunRelock(v) => Secondary(s, v)
    case RunDecide(v, _) => Secondary(s, v)
    case Leaving(v, state) => Secondary(s, v) && state != Running
    case Saving(a, b) => (a == Own(p) && Secondary(s, b)) || (b == Own(p) && Secondary(s, a))
  }

  /** api_ffa_get_vm_vcpu: the only vCPU, or the one of the same index as the physical CPU. */
  function VmVcpu(s: System, vm: int, cpu: int): Id {
    if 0 <= vm < |s.counts| && s.counts[vm] == 1 then Id(vm, 0) else Id(vm, cpu)
  }

  // ---- The steps ----

  function Goto(s: System, p: int, pc: Pc): System
    requires 0 <= p < |s.pcs|
  {
    s.(pcs := s.pcs[p := pc])
  }

  /** Leaves the critical sections of FFA_RUN with the vCPU as given. */
  function Unlock(s: System, p: int, v: Id, vmLocked: bool, c: Vcpu, pc: Pc): System
    requires 0 <= p < |s.pcs|
  {
    Goto(s, p, pc).(vcpus := s.vcpus[v := c], vcpuLocks := s.vcpuLocks - {v},
                    vmLocks := if vmLocked then s.vmLocks - {v.vm} else s.vmLocks)
  }

  /** The rest of api_vcpu_prepare_run. */
  function DecideStep(s: System, p: int, v: Id, vmLocked: bool, aborting: bool, wake: bool): System
    requires 0 <= p < |s.pcs| && v in s.vcpus
  {
    var c := s.vcpus[v];
    if c.state == Running || !c.regsAvailable then Unlock(s, p, v, vmLocked, c, Guest(Own(p)))
    else if aborting then Unlock(s, p, v, vmLocked, c.(state := Aborted), Guest(Own(p)))
    else
      var run := match c.state
        case Off => false
        case Running => false
        case Aborted => false
        case Waiting => !c.bootstrapped || wake
        case BlockedInterrupt => wake
        case Blocked => true
        case Preempted => true;
      if !run then Unlock(s, p, v, vmLocked, c, Guest(Own(p)))
      else Unlock(s, p, v, vmLocked,
                  Vcpu(Running, false, p, c.bootstrapped || c.state == Waiting, c.origin), Saving(Own(p), v))
  }

  /** api_ffa_msg_send_direct_req by the primary, under the locks of the VM and of both vCPUs. */
  function RequestStep(s: System, p: int, r: Id, aborting: bool): System
    requires 0 <= p < |s.pcs| && r in s.vcpus && Own(p) in s.vcpus
  {
    var c := s.vcpus[r];
    if c.origin != HF_INVALID_VM_ID || c.state == Running || !c.regsAvailable then s
    else if aborting then s.(vcpus := s.vcpus[r := c.(state := Aborted)])
    else if c.state != Waiting then s
    else
      var own := s.vcpus[Own(p)];
      Goto(s, p, Saving(Own(p), r)).(
        vcpus := s.vcpus[r := c.(state := Running, regsAvailable := false, cpu := own.cpu, origin := PRIMARY)]
                        [Own(p) := own.(state := Blocked)])
  }

  /** One step of physical CPU `p`; a step that its place does not allow changes nothing. */
  function Step(s: System, p: int, ev: Event): System
    requires 0 <= p < |s.pcs|
  {
    match s.pcs[p]
    case Guest(v) =>
      if v == Own(p) then
        match ev
        case CallRun(w) => if Secondary(s, w) then Goto(s, p, RunLock(w)) else s
        case Request(vm, allowed, aborting) =>
          if !allowed || vm == PRIMARY || v !in s.vcpus then s
          else
            var r := VmVcpu(s, vm, s.vcpus[v].cpu);
            if r in s.vcpus && vm !in s.vmLocks && r !in s.vcpuLocks && v !in s.vcpuLocks
            then RequestStep(s, p, r, aborting) else s
        case _ => s
      else if v !in s.vcpus || v in s.vcpuLocks then s
      else
        (match ev
         case Respond =>
           if s.vcpus[v].origin != PRIMARY then s
           else Goto(s, p, Leaving(v, Waiting)).(vcpus := s.vcpus[v := s.vcpus[v].(origin := HF_INVALID_VM_ID)])
         case Leave(state) => if state == Running then s else Goto(s, p, Leaving(v, state))
         case _ => s)
    case RunLock(v) =>
      if ev != LockFirst || v !in s.vcpus || v in s.vcpuLocks then s
      else if NeedsVmLock(s.vcpus[v].state, v.vm in s.el0) then Goto(s, p, RunLockVm(v))
      else Goto(s, p, RunDecide(v, false)).(vcpuLocks := s.vcpuLocks[v := p])
    case RunLockVm(v) =>
      if ev != LockVm || v.vm in s.vmLocks then s
      else Goto(s, p, RunRelock(v)).(vmLocks := s.vmLocks[v.vm := p])
    case RunRelock(v) =>
      if ev != LockAgain || v in s.vcpuLocks then s
      else Goto(s, p, RunDecide(v, true)).(vcpuLocks := s.vcpuLocks[v := p])
    case RunDecide(v, vmLocked) =>
      if !ev.Decide? || v !in s.vcpus then s else DecideStep(s, p, v, vmLocked, ev.aborting, ev.wake)
    case Leaving(v, state) =>
      if ev != SwitchBack || v !in s.vcpus || v in s.vcpuLocks then s
      else
        Goto(s, p, Saving(v, VmVcpu(s, PRIMARY, s.vcpus[v].cpu))).(vcpus := s.vcpus[v := s.vcpus[v].(state := state)])
    case Saving(from, to) =>
      if ev != Saved || from !in s.vcpus || from in s.vcpuLocks then s
      else Goto(s, p, Guest(to)).(vcpus := s.vcpus[from := s.vcpus[from].(regsAvailable := true)])
  }

  // ---- What every step keeps ----

  /** The vCPU's registers are on physical CPU `p`: from the decision to run it until they are saved. */
  predicate Loaded(s: System, p: int, v: Id) {
    0 <= p < |s.pcs| &&
    match s.pcs[p]
    case Guest(w) => v == w
    case RunLock(_) => v == Own(p)
    case RunLockVm(_) => v == Own(p)
    case RunRelock(_) => v == Own(p)
    case RunDecide(_, _) => v == Own(p)
    case Leaving(w, _) => v == w
    case Saving(from, to) => v == from || v == to
  }

  /** The vCPU still has its place on `p`; only `Saving` has given it up. */
  predicate Runs(s: System, p: int, v: Id) {
    Loaded(s, p, v) && !(s.pcs[p].Saving? && s.pcs[p].from == v)
  }

  predicate LocksHeld(s: System, p: int)
    requires 0 <= p < |s.pcs|
  {
    match s.pcs[p]
    case RunRelock(v) => v.vm in s.vmLocks && s.vmLocks[v.vm] == p
    case RunDecide(v, vmLocked) =>
      && v in s.vcpuLocks && s.vcpuLocks[v] == p
      && (vmLocked ==> v.vm in s.vmLocks && s.vmLocks[v.vm] == p)
      && (!vmLocked ==> v in s.vcpus && !NeedsVmLock(s.vcpus[v].state, v.vm in s.el0))
    case _ => true
  }

  /** A held lock is held by a physical CPU that is where the lock is needed. */
  predicate VcpuLockJustified(s: System, v: Id)
    requires v in s.vcpuLocks
  {
    var p := s.vcpuLocks[v];
    0 <= p < |s.pcs| && s.pcs[p].RunDecide? && s.pcs[p].v == v
  }

  predicate VmLockJustified(s: System, vm: int)
    requires vm in s.vmLocks
  {
    var p := s.vmLocks[vm];
    0 <= p < |s.pcs|
      && ((s.pcs[p].RunRelock? && s.pcs[p].v.vm == vm)
          || (s.pcs[p].RunDecide? && s.pcs[p].v.vm == vm && s.pcs[p].vmLocked))
  }

  /** A secondary vCPU's registers are unavailable exactly while they are on the physical CPU it names. */
  predicate Tracked(s: System, v: Id)
    requires v in s.vcpus
  {
    && (!s.vcpus[v].regsAvailable ==> Loaded(s, s.vcpus[v].cpu, v))
    && (s.vcpus[v].state == Running ==> Runs(s, s.vcpus[v].cpu, v) && !s.vcpus[v].regsAvailable)
  }

  predicate LoadedRight(s: System, p: int, v: Id)
    requires v in s.vcpus
  {
    Loaded(s, p, v) ==>
      !s.vcpus[v].regsAvailable && s.vcpus[v].cpu == p && (Runs(s, p, v) ==> s.vcpus[v].state == Running)
  }

  ghost predicate Inv(s: System) {
    forall k {:trigger Unfold(k)} :: Unfold(k) ==>
      && Wf(s)
      && (forall p :: 0 <= p < |s.pcs| ==> LocksHeld(s, p))
      && (forall v :: v in s.vcpuLocks ==> VcpuLockJustified(s, v))
      && (forall vm :: vm in s.vmLocks ==> VmLockJustified(s, vm))
      && (forall p :: 0 <= p < |s.pcs| ==> Own(p) in s.vcpus && s.vcpus[Own(p)].cpu == p)
      && (forall v :: Secondary(s, v) && v in s.vcpus ==> Tracked(s, v))
      && (forall p, v :: Secondary(s, v) && v in s.vcpus ==> LoadedRight(s, p, v))
  }

  /** A step of `p` that touches no secondary vCPU but `v`. */
  ghost predicate Touches(s: System, t: System, p: int, v: Id) {
    && 0 <= p < |s.pcs| && t.counts == s.counts && t.el0 == s.el0 && t.vcpus.Keys == s.vcpus.Keys && |t.pcs| == |s.pcs|
    && (forall q :: 0 <= q < |s.pcs| && q != p ==> t.pcs[q] == s.pcs[q])
    && (forall w :: w in s.vcpus && w.vm != PRIMARY && w != v ==> t.vcpus[w] == s.vcpus[w])
    && (forall w :: w in s.vcpus && w.vm == PRIMARY ==> t.vcpus[w].cpu == s.vcpus[w].cpu)
    && forall w: Id :: w.vm != PRIMARY && w != v ==>
         (Loaded(t, p, w) <==> Loaded(s, p, w)) && (Runs(t, p, w) <==> Runs(s, p, w))
  }

  /** The locks of other physical CPUs stay, and those of `p` are where they should be. */
  ghost predicate LocksFit(s: System, t: System, p: int) {
    && (forall w :: w in s.vcpuLocks && s.vcpuLocks[w] != p ==> w in t.vcpuLocks && t.vcpuLocks[w] == s.vcpuLocks[w])
    && (forall w :: w in t.vcpuLocks ==>
        (w in s.vcpuLocks && t.vcpuLocks[w] == s.vcpuLocks[w] != p) || (t.vcpuLocks[w] == p && VcpuLockJustified(t, w)))
    && (forall m :: m in s.vmLocks && s.vmLocks[m] != p ==> m in t.vmLocks && t.vmLocks[m] == s.vmLocks[m])
    && (forall m :: m in t.vmLocks ==>
        (m in s.vmLocks && t.vmLocks[m] == s.vmLocks[m] != p) || (t.vmLocks[m] == p && VmLockJustified(t, m)))
  }

  /** What has to be shown of the vCPU that a step touches. */
  predicate TouchedRight(s: System, t: System, p: int, v: Id)
    requires v in s.vcpus && v in t.vcpus
  {
    && (Loaded(s, p, v) || s.vcpus[v].regsAvailable || t.vcpus[v] == s.vcpus[v])
    && (v in s.vcpuLocks && s.vcpuLocks[v] != p ==> t.vcpus[v].state == s.vcpus[v].state)
  }

  lemma OtherLocks(s: System, t: System, p: int, v: Id, q: int)
    requires Inv(s) && Touches(s, t, p, v) && LocksFit(s, t, p) && Secondary(s, v) && v in s.vcpus
    requires TouchedRight(s, t, p, v)
    requires 0 <= q < |s.pcs| && q != p
    ensures LocksHeld(t, q) && PcWf(t, q)
  {
    assert Unfold(0);
    assert LocksHeld(s, q) && PcWf(s, q);
  }

  lemma OtherVcpu(s: System, t: System, p: int, v: Id, w: Id)
    requires Inv(s) && Touches(s, t, p, v) && Secondary(s, w) && w in s.vcpus && w != v
    ensures Tracked(t, w) && forall q :: LoadedRight(t, q, w)
  {
    assert Unfold(0);
    assert Tracked(s, w);
    forall q
      ensures LoadedRight(t, q, w) && (Loaded(t, q, w) <==> Loaded(s, q, w)) && (Runs(t, q, w) <==> Runs(s, q, w))
    {
      assert LoadedRight(s, q, w);
    }
  }

  lemma ElsewhereNot(s: System, t: System, p: int, v: Id, q: int)
    requires Inv(s) && Touches(s, t, p, v) && Secondary(s, v) && v in s.vcpus && TouchedRight(s, t, p, v)
    requires LoadedRight(t, p, v)
    ensures LoadedRight(t, q, v)
  {
    assert Unfold(0);
    assert LoadedRight(s, p, v) && LoadedRight(s, q, v);
    if q != p {
      assert Loaded(t, q, v) <==> Loaded(s, q, v);
      assert Runs(t, q, v) <==> Runs(s, q, v);
    }
  }

  lemma Keeps(s: System, t: System, p: int, v: Id)
    requires Inv(s) && Touches(s, t, p, v) && LocksFit(s, t, p) && Secondary(s, v) && v in s.vcpus
    requires TouchedRight(s, t, p, v)
    requires PcWf(t, p) && LocksHeld(t, p) && Tracked(t, v) && LoadedRight(t, p, v)
    ensures Inv(t)
  {
    assert Unfold(0);
    forall q | 0 <= q < |t.pcs|
      ensures LocksHeld(t, q) && PcWf(t, q)
    {
      if q != p {
        OtherLocks(s, t, p, v, q);
      }
    }
    forall w | Secondary(t, w) && w in t.vcpus
      ensures Tracked(t, w) && forall q :: LoadedRight(t, q, w)
    {
      if w == v {
        forall q
          ensures LoadedRight(t, q, v)
        {
          ElsewhereNot(s, t, p, v, q);
        }
      } else {
        OtherVcpu(s, t, p, v, w);
      }
    }
    OtherJustified(s, t, p, v);
  }

  lemma OtherJustified(s: System, t: System, p: int, v: Id)
    requires Inv(s) && Touches(s, t, p, v) && LocksFit(s, t, p)
    ensures forall w :: w in t.vcpuLocks ==> VcpuLockJustified(t, w)
    ensures forall m :: m in t.vmLocks ==> VmLockJustified(t, m)
  {
    assert Unfold(0);
    forall w | w in t.vcpuLocks
      ensures VcpuLockJustified(t, w)
    {
      if t.vcpuLocks[w] != p {
        assert VcpuLockJustified(s, w);
      }
    }
    forall m | m in t.vmLocks
      ensures VmLockJustified(t, m)
    {
      if t.vmLocks[m] != p {
        assert VmLockJustified(s, m);
      }
    }
  }

  // ---- Step by step ----

  /** Facts about `p` and a secondary vCPU that the proofs below start from. */
  lemma Here(s: System, p: int, v: Id)
    requires Inv(s) && 0 <= p < |s.pcs| && Secondary(s, v)
    ensures v in s.vcpus && s.counts[PRIMARY] == |s.pcs| && LocksHeld(s, p) && Tracked(s, v) && LoadedRight(s, p, v)
    ensures Own(p) in s.vcpus && s.vcpus[Own(p)].cpu == p
    ensures v in s.vcpuLocks ==> VcpuLockJustified(s, v)
    ensures v.vm in s.vmLocks ==> VmLockJustified(s, v.vm)
  {
    assert Unfold(0);
  }

  lemma AtPc(s: System, p: int)
    requires Inv(s) && 0 <= p < |s.pcs|
    ensures PcWf(s, p) && |s.counts| > 0
  {
    assert Unfold(0);
  }

  /** `p` holds no lock but where it should. */
  lemma NoLocks(s: System, p: int)
    requires Inv(s) && 0 <= p < |s.pcs|
    ensures !s.pcs[p].RunDecide? ==> forall w :: w in s.vcpuLocks ==> s.vcpuLocks[w] != p
    ensures !s.pcs[p].RunDecide? && !s.pcs[p].RunRelock? ==> forall m :: m in s.vmLocks ==> s.vmLocks[m] != p
    ensures s.pcs[p].RunDecide? ==> forall w :: w in s.vcpuLocks && s.vcpuLocks[w] == p ==> w == s.pcs[p].v
    ensures s.pcs[p].RunDecide? && !s.pcs[p].vmLocked ==> forall m :: m in s.vmLocks ==> s.vmLocks[m] != p
    ensures s.pcs[p].RunDecide? || s.pcs[p].RunRelock? ==>
              forall m :: m in s.vmLocks && s.vmLocks[m] == p ==> m == s.pcs[p].v.vm
  {
    assert Unfold(0);
    forall w | w in s.vcpuLocks
      ensures VcpuLockJustified(s, w)
    {
    }
    forall m | m in s.vmLocks
      ensures VmLockJustified(s, m)
    {
    }
  }

  lemma CallRunKeeps(s: System, p: int, v: Id)
    requires Inv(s) && 0 <= p < |s.pcs| && s.pcs[p] == Guest(Own(p)) && Secondary(s, v)
    ensures Inv(Goto(s, p, RunLock(v)))
  {
    Here(s, p, v);
    NoLocks(s, p);
    Keeps(s, Goto(s, p, RunLock(v)), p, v);
  }

  lemma LockFirstKeeps(s: System, p: int)
    requires Inv(s) && 0 <= p < |s.pcs| && s.pcs[p].RunLock?
    ensures Inv(Step(s, p, LockFirst))
  {
    var v, t := s.pcs[p].v, Step(s, p, LockFirst);
    AtPc(s, p);
    Here(s, p, v);
    NoLocks(s, p);
    if t != s {
      Keeps(s, t, p, v);
    }
  }

  lemma LockVmKeeps(s: System, p: int)
    requires Inv(s) && 0 <= p < |s.pcs| && s.pcs[p].RunLockVm?
    ensures Inv(Step(s, p, LockVm))
  {
    var v, t := s.pcs[p].v, Step(s, p, LockVm);
    AtPc(s, p);
    Here(s, p, v);
    NoLocks(s, p);
    if t != s {
      Keeps(s, t, p, v);
    }
  }

  lemma LockAgainKeeps(s: System, p: int)
    requires Inv(s) && 0 <= p < |s.pcs| && s.pcs[p].RunRelock?
    ensures Inv(Step(s, p, LockAgain))
  {
    var v, t := s.pcs[p].v, Step(s, p, LockAgain);
    AtPc(s, p);
    Here(s, p, v);
    NoLocks(s, p);
    if t != s {
      Keeps(s, t, p, v);
    }
  }

  /** Where FFA_RUN can end: back in the primary, or switching to a vCPU that nobody has. */
  lemma UnlockKeeps(s: System, p: int, c: Vcpu, pc: Pc)
    requires Inv(s) && 0 <= p < |s.pcs| && s.pcs[p].RunDecide?
    requires var v := s.pcs[p].v;
             v in s.vcpus && (
             || (pc == Guest(Own(p)) && c == s.vcpus[v])
             || (pc == Guest(Own(p)) && s.vcpus[v].regsAvailable && s.vcpus[v].state != Running
                 && c == s.vcpus[v].(state := Aborted))
             || (pc == Saving(Own(p), v) && s.vcpus[v].regsAvailable && c.state == Running && !c.regsAvailable
                 && c.cpu == p))
    ensures Inv(Unlock(s, p, s.pcs[p].v, s.pcs[p].vmLocked, c, pc))
  {
    var v := s.pcs[p].v;
    AtPc(s, p);
    Here(s, p, v);
    NoLocks(s, p);
    Keeps(s, Unlock(s, p, v, s.pcs[p].vmLocked, c, pc), p, v);
  }

  lemma DecideKeeps(s: System, p: int, ev: Event)
    requires Inv(s) && 0 <= p < |s.pcs| && s.pcs[p].RunDecide? && ev.Decide?
    ensures Inv(Step(s, p, ev))
  {
    var v, vmLocked, t := s.pcs[p].v, s.pcs[p].vmLocked, Step(s, p, ev);
    AtPc(s, p);
    Here(s, p, v);
    var c, next := s.vcpus[v], t.vcpus[v];
    assert t == Unlock(s, p, v, vmLocked, next, t.pcs[p]);
    UnlockKeeps(s, p, next, t.pcs[p]);
  }

  lemma Known(s: System, v: Id)
    requires Inv(s) && v in s.vcpus && v.vm != PRIMARY
    ensures Secondary(s, v)
  {
    assert Unfold(0);
  }

  lemma RequestKeeps(s: System, p: int, ev: Event)
    requires Inv(s) && 0 <= p < |s.pcs| && s.pcs[p] == Guest(Own(p)) && ev.Request?
    ensures Inv(Step(s, p, ev))
  {
    var t := Step(s, p, ev);
    if t != s {
      var r := VmVcpu(s, ev.vm, s.vcpus[Own(p)].cpu);
      Known(s, r);
      Here(s, p, r);
      NoLocks(s, p);
      Keeps(s, t, p, r);
    }
  }

  lemma RespondKeeps(s: System, p: int, ev: Event)
    requires Inv(s) && 0 <= p < |s.pcs| && s.pcs[p].Guest? && s.pcs[p] != Guest(Own(p)) && (ev.Respond? || ev.Leave?)
    ensures Inv(Step(s, p, ev))
  {
    var v, t := s.pcs[p].v, Step(s, p, ev);
    AtPc(s, p);
    Here(s, p, v);
    NoLocks(s, p);
    if t != s {
      Keeps(s, t, p, v);
    }
  }

  lemma SwitchBackKeeps(s: System, p: int)
    requires Inv(s) && 0 <= p < |s.pcs| && s.pcs[p].Leaving?
    ensures Inv(Step(s, p, SwitchBack))
  {
    var v, t := s.pcs[p].v, Step(s, p, SwitchBack);
    AtPc(s, p);
    Here(s, p, v);
    NoLocks(s, p);
    if t != s {
      Keeps(s, t, p, v);
    }
  }

  lemma SavedKeeps(s: System, p: int)
    requires Inv(s) && 0 <= p < |s.pcs| && s.pcs[p].Saving?
    ensures Inv(Step(s, p, Saved))
  {
    var v, t := if s.pcs[p].from == Own(p) then s.pcs[p].to else s.pcs[p].from, Step(s, p, Saved);
    AtPc(s, p);
    Here(s, p, v);
    NoLocks(s, p);
    if t != s {
      Keeps(s, t, p, v);
    }
  }

  lemma StepKeeps(s: System, p: int, ev: Event)
    requires Inv(s) && 0 <= p < |s.pcs|
    ensures Inv(Step(s, p, ev)) && |Step(s, p, ev).pcs| == |s.pcs|
  {
    if Step(s, p, ev) != s {
      match s.pcs[p]
      case Guest(v) =>
        if v != Own(p) {
          RespondKeeps(s, p, ev);
        } else if ev.CallRun? {
          CallRunKeeps(s, p, ev.v);
        } else {
          RequestKeeps(s, p, ev);
        }
      case RunLock(_) => LockFirstKeeps(s, p);
      case RunLockVm(_) => LockVmKeeps(s, p);
      case RunRelock(_) => LockAgainKeeps(s, p);
      case RunDecide(_, _) => DecideKeeps(s, p, ev);
      case Leaving(_, _) => SwitchBackKeeps(s, p);
      case Saving(_, _) => SavedKeeps(s, p);
    }
  }

  // ---- Every interleaving ----

  datatype Move = Move(p: int, ev: Event)

  /** Every physical CPU is in its primary vCPU, and no secondary vCPU runs. */
  ghost predicate Initial(s: System) {
    && Wf(s) && s.vcpuLocks == map[] && s.vmLocks == map[]
    && (forall p :: 0 <= p < |s.pcs| ==> s.pcs[p] == Guest(Own(p)) && Own(p) in s.vcpus && s.vcpus[Own(p)].cpu == p)
    && (forall v :: Secondary(s, v) && v in s.vcpus ==> s.vcpus[v].regsAvailable && s.vcpus[v].state != Running)
  }

  /** The moves one after the other, each by any physical CPU. */
  function After(s: System, run: seq<Move>): System {
    if run == [] then s
    else
      var t, m := After(s, run[..|run| - 1]), run[|run| - 1];
      if 0 <= m.p < |t.pcs| then Step(t, m.p, m.ev) else t
  }

  lemma {:induction false} RunKeeps(s: System, run: seq<Move>)
    requires Initial(s)
    ensures Inv(After(s, run))
    decreases |run|
  {
    if run != [] {
      var t, m := After(s, run[..|run| - 1]), run[|run| - 1];
      RunKeeps(s, run[..|run| - 1]);
      if 0 <= m.p < |t.pcs| {
        StepKeeps(t, m.p, m.ev);
      }
    }
  }

  /** A secondary vCPU is loaded on at most one physical CPU, and its registers are available exactly when on none. */
  lemma RunsOnOne(s: System, run: seq<Move>, v: Id, p: int, q: int)
    requires Initial(s) && Secondary(After(s, run), v)
    ensures Loaded(After(s, run), p, v) && Loaded(After(s, run), q, v) ==> p == q
    ensures v in After(s, run).vcpus
    ensures Loaded(After(s, run), p, v) ==> !After(s, run).vcpus[v].regsAvailable && After(s, run).vcpus[v].cpu == p
    ensures !After(s, run).vcpus[v].regsAvailable ==> Loaded(After(s, run), After(s, run).vcpus[v].cpu, v)
  {
    RunKeeps(s, run);
    assert Unfold(0);
    assert LoadedRight(After(s, run), p, v) && LoadedRight(After(s, run), q, v);
  }

  /** Whatever happened while the vCPU was unlocked, FFA_RUN finds it waiting only with its VM locked, and
      blocked or preempted only with its VM locked or an EL0 partition. */
  lemma WaitingWithVmLocked(s: System, run: seq<Move>, p: int)
    requires Initial(s) && 0 <= p < |After(s, run).pcs| && After(s, run).pcs[p].RunDecide?
    ensures var t := After(s, run);
            var v := t.pcs[p].v;
            && v in t.vcpus && v in t.vcpuLocks && t.vcpuLocks[v] == p
            && (t.vcpus[v].state == Waiting ==> t.pcs[p].vmLocked && v.vm in t.vmLocks && t.vmLocks[v.vm] == p)
            && (t.vcpus[v].state in {Blocked, BlockedInterrupt, Preempted} ==> t.pcs[p].vmLocked || v.vm in t.el0)
  {
    RunKeeps(s, run);
    assert Unfold(0);
    assert LocksHeld(After(s, run), p) && PcWf(After(s, run), p);
  }

  /** A vCPU that gives up its physical CPU gives it back to the primary vCPU it belongs to. */
  lemma SwitchesHome(s: System, run: seq<Move>, p: int)
    requires Initial(s) && 0 <= p < |After(s, run).pcs| && After(s, run).pcs[p].Leaving?
    ensures var t := After(s, run);
            var v := t.pcs[p].v;
            v in t.vcpus && t.vcpus[v].state == Running && VmVcpu(t, PRIMARY, t.vcpus[v].cpu) == Own(p)
              && Own(p) in t.vcpus
  {
    RunKeeps(s, run);
    var t := After(s, run);
    AtPc(t, p);
    Here(t, p, t.pcs[p].v);
  }
}
