/** What FFA_RUN, a direct request and giving up the physical CPU come to, in every reachable state
    (src/api.c). */
module SchedulingChoices {
  import opened Arithmetic
  import opened Scheduling

  lemma AfterMove(s: System, run: seq<Move>, p: int, ev: Event)
    ensures var t := After(s, run);
            After(s, run + [Move(p, ev)]) == if 0 <= p < |t.pcs| then Step(t, p, ev) else t
  {
    assert (run + [Move(p, ev)])[..|run|] == run;
  }

  // ---- FFA_RUN ----

  /** A vCPU can be run: its registers are saved, its VM lives, and it has something to do. */
  predicate Runnable(c: Vcpu, aborting: bool, wake: bool) {
    && c.regsAvailable && !aborting
    && (|| c.state == Blocked || c.state == Preempted || (c.state == BlockedInterrupt && wake)
        || (c.state == Waiting && (wake || !c.bootstrapped)))
  }

  /** What FFA_RUN leaves of the vCPU. */
  function Decided(c: Vcpu, p: int, aborting: bool, wake: bool): Vcpu {
    if Runnable(c, aborting, wake) then
      c.(state := Running, regsAvailable := false, cpu := p, bootstrapped := c.bootstrapped || c.state == Waiting)
    else if aborting && c.regsAvailable then c.(state := Aborted)
    else c
  }

  lemma DecideOnce(t: System, p: int, v: Id, vmLocked: bool, aborting: bool, wake: bool)
    requires 0 <= p < |t.pcs| && t.pcs[p] == RunDecide(v, vmLocked) && v in t.vcpus
    requires t.vcpus[v].regsAvailable ==> t.vcpus[v].state != Running
    ensures Step(t, p, Decide(aborting, wake)) ==
            t.(pcs := t.pcs[p := if Runnable(t.vcpus[v], aborting, wake) then Saving(Own(p), v) else Guest(Own(p))],
               vcpus := t.vcpus[v := Decided(t.vcpus[v], p, aborting, wake)], vcpuLocks := t.vcpuLocks - {v},
               vmLocks := if vmLocked then t.vmLocks - {v.vm} else t.vmLocks)
  {
  }

  /** FFA_RUN switches to the vCPU exactly when it can be run, and otherwise goes back to the primary; it
      leaves the vCPU as it was, or aborted. Its locks are released, and nothing else changes. */
  lemma DecideIff(s: System, run: seq<Move>, p: int, v: Id, aborting: bool, wake: bool, t: System, u: System)
    requires Initial(s) && t == After(s, run) && u == After(s, run + [Move(p, Decide(aborting, wake))])
    requires 0 <= p < |t.pcs| && t.pcs[p].RunDecide? && v == t.pcs[p].v
    ensures v in t.vcpus && |u.pcs| == |t.pcs|
    ensures u.pcs[p] == Saving(Own(p), v) <==> Runnable(t.vcpus[v], aborting, wake)
    ensures u.pcs[p] == Saving(Own(p), v) || u.pcs[p] == Guest(Own(p))
    ensures u == t.(pcs := t.pcs[p := u.pcs[p]], vcpus := t.vcpus[v := Decided(t.vcpus[v], p, aborting, wake)],
                    vcpuLocks := t.vcpuLocks - {v},
                    vmLocks := if t.pcs[p].vmLocked then t.vmLocks - {v.vm} else t.vmLocks)
  {
    RunKeeps(s, run);
    AtPc(t, p);
    Here(t, p, v);
    AfterMove(s, run, p, Decide(aborting, wake));
    DecideOnce(t, p, v, t.pcs[p].vmLocked, aborting, wake);
  }

  // ---- Direct requests ----

  /** The receiver of a direct request on physical CPU `p`: the VM's only vCPU, or the one of that index. */
  function Receiver(s: System, vm: int, p: int): Id {
    Id(vm, if 0 <= vm < |s.counts| && s.counts[vm] == 1 then 0 else p)
  }

  /** The locks that a direct request takes are free, and it may be made. */
  predicate Reaches(s: System, p: int, ev: Event)
    requires ev.Request?
  {
    && ev.allowed && Secondary(s, Receiver(s, ev.vm, p))
    && ev.vm !in s.vmLocks && Receiver(s, ev.vm, p) !in s.vcpuLocks && Own(p) !in s.vcpuLocks
  }

  predicate Idle(c: Vcpu) {
    c.origin == HF_INVALID_VM_ID && c.state != Running && c.regsAvailable
  }

  /** A direct request switches to the receiver exactly when it is waiting, with its registers saved, for no
      other request, in a VM that lives. Then the sender is blocked until the response. */
  lemma RequestIff(s: System, run: seq<Move>, p: int, ev: Event)
    requires Initial(s) && 0 <= p < |After(s, run).pcs| && After(s, run).pcs[p] == Guest(Own(p)) && ev.Request?
    ensures var t, u := After(s, run), After(s, run + [Move(p, ev)]);
            var r := Receiver(t, ev.vm, p);
            && Own(p) in t.vcpus && (Reaches(t, p, ev) ==> r in t.vcpus)
            && (u.pcs[p] == Saving(Own(p), r) <==>
                Reaches(t, p, ev) && Idle(t.vcpus[r]) && !ev.aborting && t.vcpus[r].state == Waiting)
            && u ==
               if u.pcs[p] == Saving(Own(p), r) then
                 t.(pcs := t.pcs[p := Saving(Own(p), r)],
                    vcpus := t.vcpus[r := Vcpu(Running, false, p, t.vcpus[r].bootstrapped, PRIMARY)]
                                    [Own(p) := t.vcpus[Own(p)].(state := Blocked)])
               else if Reaches(t, p, ev) && Idle(t.vcpus[r]) && ev.aborting then
                 t.(vcpus := t.vcpus[r := t.vcpus[r].(state := Aborted)])
               else t
  {
    var t := After(s, run);
    var r := Receiver(t, ev.vm, p);
    RunKeeps(s, run);
    AfterMove(s, run, p, ev);
    Home(t, p);
    if r in t.vcpus && r.vm != PRIMARY {
      Known(t, r);
    }
    if Secondary(t, r) {
      Here(t, p, r);
    }
  }

  lemma Home(s: System, p: int)
    requires Inv(s) && 0 <= p < |s.pcs|
    ensures Own(p) in s.vcpus && s.vcpus[Own(p)].cpu == p
  {
    assert Unfold(0);
  }

  // ---- Giving up the physical CPU ----


  /** `t` with `p` back in its primary vCPU and `v` stopped. */
  function Left(t: System, p: int, v: Id, state: RunState, responds: bool): System
    requires 0 <= p < |t.pcs| && v in t.vcpus
  {
    var c := t.vcpus[v].(state := state, regsAvailable := true);
    t.(pcs := t.pcs[p := Guest(Own(p))], vcpus := t.vcpus[v := if responds then c.(origin := HF_INVALID_VM_ID) else c])
  }

  /** A vCPU that stops is left in the state it stops in, with its registers saved, and the physical CPU is
      back in the primary. */
  lemma LeavesAs(s: System, run: seq<Move>, p: int, v: Id, state: RunState, first: Event, t: System)
    requires Initial(s) && t == After(s, run) && 0 <= p < |t.pcs| && t.pcs[p] == Guest(v) && v != Own(p)
    requires v in t.vcpus && v !in t.vcpuLocks && Stops(t.vcpus[v], state, first)
    ensures After(s, run + [Move(p, first)] + [Move(p, SwitchBack)] + [Move(p, Saved)])
            == Left(t, p, v, state, first.Respond?)
  {
    RunKeeps(s, run);
    AtPc(t, p);
    Here(t, p, v);
    assert Loaded(t, p, v);
    var run1 := run + [Move(p, first)];
    AfterMove(s, run, p, first);
    StopStep(t, p, v, state, first);
    var run2, t1 := run1 + [Move(p, SwitchBack)], After(s, run1);
    AfterMove(s, run1, p, SwitchBack);
    BackStep(t1, p, v, state);
    AfterMove(s, run2, p, Saved);
    SaveStep(After(s, run2), p, v);
  }

  /** The call is a response to a direct request, or one that stops the vCPU in another way. */
  predicate Stops(c: Vcpu, state: RunState, first: Event) {
    if first.Respond? then c.origin == PRIMARY && state == Waiting else first == Leave(state) && state != Running
  }

  lemma StopStep(t: System, p: int, v: Id, state: RunState, first: Event)
    requires 0 <= p < |t.pcs| && t.pcs[p] == Guest(v) && v != Own(p) && v in t.vcpus && v !in t.vcpuLocks
    requires Stops(t.vcpus[v], state, first)
    ensures Step(t, p, first) ==
            t.(pcs := t.pcs[p := Leaving(v, state)],
               vcpus := t.vcpus[v := if first.Respond? then t.vcpus[v].(origin := HF_INVALID_VM_ID) else t.vcpus[v]])
  {
  }

  lemma BackStep(t: System, p: int, v: Id, state: RunState)
    requires 0 <= p < |t.pcs| && t.pcs[p] == Leaving(v, state) && v in t.vcpus && v !in t.vcpuLocks
    requires t.vcpus[v].cpu == p && |t.counts| > 0 && t.counts[PRIMARY] == |t.pcs|
    ensures Step(t, p, SwitchBack) ==
            t.(pcs := t.pcs[p := Saving(v, Own(p))], vcpus := t.vcpus[v := t.vcpus[v].(state := state)])
  {
  }

  lemma SaveStep(t: System, p: int, v: Id)
    requires 0 <= p < |t.pcs| && t.pcs[p] == Saving(v, Own(p)) && v in t.vcpus && v !in t.vcpuLocks
    ensures Step(t, p, Saved) ==
            t.(pcs := t.pcs[p := Guest(Own(p))], vcpus := t.vcpus[v := t.vcpus[v].(regsAvailable := true)])
  {
  }

  // ---- vCPUs that are off ----

  predicate Dead(s: System, v: Id) {
    v in s.vcpus && (s.vcpus[v].state == Off || s.vcpus[v].state == Aborted) && s.vcpus[v].regsAvailable
  }

  lemma StaysDead(s: System, p: int, ev: Event, v: Id)
    requires Inv(s) && 0 <= p < |s.pcs| && Secondary(s, v) && Dead(s, v)
    ensures Dead(Step(s, p, ev), v) && Step(s, p, ev).counts == s.counts
  {
    AtPc(s, p);
    Here(s, p, v);
    Home(s, p);
    assert !Loaded(s, p, v);
  }

  /** Whatever the physical CPUs do, a secondary vCPU that is off or aborted and on none of them is never
      run again. */
  lemma NeverRunAgain(s: System, run: seq<Move>, more: seq<Move>, v: Id, p: int, t: System, u: System)
    requires Initial(s) && t == After(s, run) && u == After(s, run + more) && Secondary(t, v) && v in t.vcpus
    requires (t.vcpus[v].state == Off || t.vcpus[v].state == Aborted) && forall q :: !Loaded(t, q, v)
    ensures v in u.vcpus && !Loaded(u, p, v) && (u.vcpus[v].state == Off || u.vcpus[v].state == Aborted)
  {
    RunsOnOne(s, run, v, p, p);
    DeadForever(s, run, more, v, p);
  }

  lemma {:induction false} DeadForever(s: System, run: seq<Move>, more: seq<Move>, v: Id, p: int)
    requires Initial(s) && Secondary(After(s, run), v) && Dead(After(s, run), v)
    ensures Secondary(After(s, run + more), v) && Dead(After(s, run + more), v) && !Loaded(After(s, run + more), p, v)
    decreases |more|
  {
    if more == [] {
      assert run + more == run;
    } else {
      var before, m := run + more[..|more| - 1], more[|more| - 1];
      DeadForever(s, run, more[..|more| - 1], v, p);
      assert run + more == before + [m];
      AfterMove(s, before, m.p, m.ev);
      RunKeeps(s, before);
      if 0 <= m.p < |After(s, before).pcs| {
        StaysDead(After(s, before), m.p, m.ev, v);
      }
    }
    RunsOnOne(s, run + more, v, p, p);
  }
}
