/**
  * Runs from the start of the system to the calls in which FF-A notifications (src/api.c, src/vm.c)
  * do not do what they promise.
  */
module NotificationWitnesses {
  import opened Notifications
  import opened NotificationInfo
  import opened NotificationReturn
  import opened NotificationRuns

  const MAX_CPUS := 8
  const VMS := 11

  function VmOf(r: nat): Vm {
    FreshVm(Config(r + 1, 1, true), MAX_CPUS)
  }

  function Start(): World {
    Fresh(seq(VMS, r requires 0 <= r => Config(r + 1, 1, true)), MAX_CPUS)
  }

  // ---- A report that the register cannot carry ----

  function Woken(r: nat): Vm {
    VmOf(r).(framework := State({0}, {}))
  }

  /** The first `n` VMs have a framework notification. */
  function SomeWoken(n: nat): World {
    World(seq(VMS, r requires 0 <= r => if r < n then Woken(r) else VmOf(r)), n, 0)
  }

  function Wakes(n: nat): seq<Event> {
    seq(n, r => SetFramework(r, {0}))
  }

  lemma {:induction false} WokenRun(n: nat)
    requires n < VMS
    ensures IsRun(Start(), Wakes(n)) && After(Start(), Wakes(n)) == SomeWoken(n) && Valid(SomeWoken(n))
  {
    StartIsInitial();
    if n == 0 {
      assert SomeWoken(0) == Start();
    } else {
      WokenRun(n - 1);
      WokenStep(n - 1);
      assert Wakes(n)[..n - 1] == Wakes(n - 1);
    }
  }

  lemma StartIsInitial()
    ensures Initial(Start())
  {
    FreshIsInitial(seq(VMS, r requires 0 <= r => Config(r + 1, 1, true)), MAX_CPUS);
  }

  lemma WokenStep(n: nat)
    requires n < VMS && Valid(SomeWoken(n))
    ensures var w, ev := SomeWoken(n), SetFramework(n, {0});
            IsEvent(ev) && Step(w, ev) == SomeWoken(n + 1) && !Panics(w, ev) && Valid(SomeWoken(n + 1))
  {
    var w := SomeWoken(n);
    var v := Step(w, SetFramework(n, {0}));
    assert State({} + {0}, {}) == State({0}, {});
    assert v.vms == SomeWoken(n + 1).vms;
    forall r | 0 <= r < VMS
      ensures ValidVm(v.vms[r])
    {
      assert ValidVm(w.vms[r]);
    }
  }

  function Bind(): Event {
    Bindings(true, 1, true, 10, true, {0}, true, true)
  }

  function Signal(): Event {
    SetPending(1, true, 10, true, 0, {0}, true)
  }

  /** The first ten VMs have a framework notification, and the only vCPU of the eleventh has one
      from the first. */
  function Everyone(): seq<Event> {
    Wakes(10) + [Bind(), Signal()]
  }

  function Bound10(): Vm {
    PutSource(VmOf(10), true, Rebound(VmOf(10).fromVm, 1, {0}, true))
  }

  lemma BindStep(w: World, v: World)
    requires w == SomeWoken(10) && Valid(w) && v == Step(w, Bind())
    ensures v == w.(vms := w.vms[10 := Bound10()]) && Valid(v) && !Panics(w, Bind())
  {
    assert w.vms[10] == VmOf(10);
    assert ValidVm(w.vms[10]);
    assert BindingStatus(w, true, 1, true, 10, {0}, true, true) == Success;
    forall r | 0 <= r < |v.vms|
      ensures ValidVm(v.vms[r])
    {
      assert ValidVm(w.vms[r]);
    }
  }

  function Signalled10(): Vm {
    Put(Bound10(), PerVcpu(true, 0), State({0}, {}))
  }

  lemma SignalStep(w: World, v: World)
    requires |w.vms| == VMS && w.vms[10] == Bound10() && Valid(w) && w.pendingCount == 10 && w.retrievedCount == 0
    requires v == Step(w, Signal())
    ensures v == World(w.vms[10 := Signalled10()], 11, 0) && Valid(v) && !Panics(w, Signal())
  {
    assert SetAccepted(w, Signal());
    assert State({} + {0}, {}) == State({0}, {});
    forall r | 0 <= r < |v.vms|
      ensures ValidVm(v.vms[r])
    {
      assert ValidVm(w.vms[r]);
    }
  }

  function Loud(): World {
    World(SomeWoken(10).vms[10 := Signalled10()], 11, 0)
  }

  lemma EveryoneRun()
    ensures IsRun(Start(), Everyone()) && After(Start(), Everyone()) == Loud() && Valid(Loud())
  {
    var all := Everyone();
    WokenRun(10);
    assert all[..10] == Wakes(10) && all[..11][..10] == Wakes(10);
    var w := SomeWoken(10);
    BindStep(w, Step(w, Bind()));
    assert After(Start(), all[..11]) == Step(w, Bind()) && IsRun(Start(), all[..11]);
    SignalStep(Step(w, Bind()), Step(Step(w, Bind()), Signal()));
  }

  lemma LoudWaiting(r: nat, t: Slot)
    requires r < VMS
    ensures Waiting(Loud(), r, t) <==> t == if r < 10 then Framework else PerVcpu(true, 0)
  {
    var w := Loud();
    if r < 10 {
      assert w.vms[r] == Woken(r);
    } else {
      assert w.vms[r] == Signalled10();
    }
  }

  /** Twelve calls after the system has started, the scheduler cannot be told: of eleven groups, the
      last one lists a vCPU, and no value of the register says so. */
  lemma EleventhListIsLost()
    ensures Initial(Start()) && IsRun(Start(), Everyone()) && Valid(After(Start(), Everyone()))
    ensures var report := InfoVms(After(Start(), Everyone()), [], 0, FFA_NOTIFICATIONS_INFO_GET_MAX_IDS).report;
            && |report| == 11 && !TailEmpty(report)
            && forall x, more :: Returned(x, more, report) ==>
                 x != X2(more, Sizes(report)) && Decode(Ids(report), ReadSizes(x)) != report
  {
    StartIsInitial();
    EveryoneRun();
    forall r, t | 0 <= r < VMS
      ensures Waiting(Loud(), r, t) <==> t == if r < 10 then Framework else PerVcpu(true, 0)
    {
      LoudWaiting(r, t);
    }
    EleventhVmOverflows(Loud());
    var report := InfoVms(Loud(), [], 0, FFA_NOTIFICATIONS_INFO_GET_MAX_IDS).report;
    forall x, more | Returned(x, more, report)
      ensures x != X2(more, Sizes(report)) && Decode(Ids(report), ReadSizes(x)) != report
    {
      RegisterIff(x, more, report);
      ReportIsReadIff(x, more, report);
    }
  }

  // ---- A call that panics ----

  function BindGlobal(): Event {
    Bindings(true, 2, true, 0, false, {0}, true, true)
  }

  /** A notification that is not per-vCPU, with a vCPU ID that no VM has. */
  function BadVcpu(): Event {
    SetPending(2, true, 0, false, MAX_CPUS, {0}, true)
  }

  /** After one binding, a call that is accepted makes the hypervisor panic. */
  lemma GlobalSetPanics()
    ensures Initial(Start()) && IsRun(Start(), [BindGlobal()])
    ensures var w := After(Start(), [BindGlobal()]);
            Valid(w) && IsEvent(BadVcpu()) && SetAccepted(w, BadVcpu()) && Panics(w, BadVcpu())
  {
    StartIsInitial();
    var w := Start();
    var v := Step(w, BindGlobal());
    assert w.vms[0] == VmOf(0);
    assert ValidVm(w.vms[0]);
    assert BindingStatus(w, true, 2, true, 0, {0}, true, true) == Success;
    forall r | 0 <= r < |v.vms|
      ensures ValidVm(v.vms[r])
    {
      assert ValidVm(w.vms[r]);
    }
    assert [BindGlobal()][..0] == [];
    assert After(w, [BindGlobal()]) == v;
    assert SetAccepted(v, BadVcpu());
  }

  // ---- A notification that is set twice ----

  function Bound0(): Vm {
    PutSource(VmOf(0), true, Rebound(VmOf(0).fromVm, 2, {0}, false))
  }

  function Pending0(): Vm {
    Put(Bound0(), Global(true), State({0}, {}))
  }

  /** The first VM is `vm`, the others have done nothing. */
  function With(vm: Vm, pending: int): World {
    World(Start().vms[0 := vm], pending, 0)
  }

  function SetOnce(): Event {
    SetPending(2, true, 0, false, 0, {0}, true)
  }

  function GetIt(): Event {
    GetPending(0, 0, 0, false, true, false, true)
  }

  function SetTwice(): seq<Event> {
    [BindGlobal(), SetOnce(), SetOnce(), GetIt()]
  }

  lemma WithValid(vm: Vm, pending: int)
    requires ValidVm(vm)
    ensures Valid(With(vm, pending))
  {
    StartIsInitial();
    forall r | 0 <= r < VMS
      ensures ValidVm(With(vm, pending).vms[r])
    {
      assert ValidVm(Start().vms[r]);
    }
  }

  lemma BoundIsValid()
    ensures ValidVm(Bound0()) && ValidVm(Pending0())
    ensures Bound0().fromVm.global == State({}, {}) && Bound0().fromVm.vcpus[0] == State({}, {})
  {
  }

  lemma BindFirst()
    ensures Valid(Start()) && Step(Start(), BindGlobal()) == With(Bound0(), 0) && !Panics(Start(), BindGlobal())
  {
    StartIsInitial();
    var w := Start();
    assert w.vms[0] == VmOf(0);
    assert ValidVm(w.vms[0]);
    assert BindingStatus(w, true, 2, true, 0, {0}, true, true) == Success;
  }

  lemma SetIt(vm: Vm, n: int)
    requires (vm == Bound0() && n == 0) || (vm == Pending0() && n == 1)
    ensures Valid(With(vm, n)) && Step(With(vm, n), SetOnce()) == With(Pending0(), n + 1)
    ensures !Panics(With(vm, n), SetOnce()) && Again(With(vm, n), SetOnce()) == n
  {
    BoundIsValid();
    WithValid(vm, n);
    var w := With(vm, n);
    assert w.vms[0] == vm;
    assert SetAccepted(w, SetOnce());
    assert {0} + {0} == {0} && {} + {0} == {0};
    assert {0} * {0} == {0} && {0} * {} == {};
    assert Put(vm, Global(true), State({0}, {})) == Pending0();
    assert w.vms[0 := Pending0()] == With(Pending0(), n + 1).vms;
  }

  lemma GetsIt()
    ensures Valid(With(Pending0(), 2)) && Step(With(Pending0(), 2), GetIt()) == With(Bound0(), 1)
    ensures !Panics(With(Pending0(), 2), GetIt())
  {
    BoundIsValid();
    WithValid(Pending0(), 2);
    var w := With(Pending0(), 2);
    assert w.vms[0] == Pending0();
    assert GetAccepted(w, GetIt());
    assert Taken(GetIt()) == [Global(true), PerVcpu(true, 0)];
    var v := TakeState(w, 0, Global(true));
    assert v.vms[0] == Bound0();
    assert v == With(Bound0(), 1);
    var u := TakeState(v, 0, PerVcpu(true, 0));
    assert u.vms[0].fromVm.vcpus == Bound0().fromVm.vcpus;
    assert u == With(Bound0(), 1);
    assert [Global(true), PerVcpu(true, 0)][1..] == [PerVcpu(true, 0)] && [PerVcpu(true, 0)][1..] == [];
    assert TakeAll(w, 0, Taken(GetIt())) == u;
  }

  lemma RunSnoc(w: World, evs: seq<Event>, ev: Event, v: World)
    requires IsRun(w, evs) && v == After(w, evs) && Valid(v) && IsEvent(ev) && !Panics(v, ev)
    ensures IsRun(w, evs + [ev]) && After(w, evs + [ev]) == Step(v, ev)
    ensures Excess(w, evs + [ev]) == Excess(w, evs) + Again(v, ev)
  {
    assert (evs + [ev])[..|evs|] == evs;
  }

  lemma TwiceRun()
    ensures IsRun(Start(), SetTwice()) && After(Start(), SetTwice()) == With(Bound0(), 1)
    ensures Excess(Start(), SetTwice()) == 1
  {
    BindFirst();
    RunSnoc(Start(), [], BindGlobal(), Start());
    SetIt(Bound0(), 0);
    RunSnoc(Start(), [] + [BindGlobal()], SetOnce(), With(Bound0(), 0));
    SetIt(Pending0(), 1);
    RunSnoc(Start(), [] + [BindGlobal()] + [SetOnce()], SetOnce(), With(Pending0(), 1));
    GetsIt();
    RunSnoc(Start(), [] + [BindGlobal()] + [SetOnce()] + [SetOnce()], GetIt(), With(Pending0(), 2));
    assert [] + [BindGlobal()] + [SetOnce()] + [SetOnce()] + [GetIt()] == SetTwice();
  }

  /** Bound, set, set again and got: nothing is pending, but the scheduler is told that more is, then
      and after whatever calls come next. */
  lemma SetTwiceIsToldForever(more: seq<Event>)
    ensures Initial(Start()) && IsRun(Start(), SetTwice()) && Excess(Start(), SetTwice()) == 1
    ensures var w := After(Start(), SetTwice());
            w.pendingCount > w.retrievedCount && forall r, t :: SlotIn(w, r, t) ==> At(w, r, t).pending == {}
    ensures IsRun(Start(), SetTwice() + more) ==>
              After(Start(), SetTwice() + more).pendingCount > After(Start(), SetTwice() + more).retrievedCount
  {
    StartIsInitial();
    TwiceRun();
    NothingPending();
    if IsRun(Start(), SetTwice() + more) {
      FlagStays(Start(), SetTwice(), more);
    }
  }

  lemma NothingPending()
    ensures var w := With(Bound0(), 1); forall r, t :: SlotIn(w, r, t) ==> At(w, r, t).pending == {}
  {
    StartIsInitial();
    var w := With(Bound0(), 1);
    forall r, t | SlotIn(w, r, t)
      ensures At(w, r, t).pending == {}
    {
      assert r != 0 ==> SlotIn(Start(), r, t) && At(Start(), r, t) == State({}, {});
    }
  }
}
