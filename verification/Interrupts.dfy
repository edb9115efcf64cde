/**
  * Virtual interrupts of one vCPU (src/api.c, inc/hf/vcpu.h): which are enabled, which are pending,
  * which are FIQs, and the two counters of enabled and pending ones, kept in 32 bits.
  */
module Interrupts {
  import opened Arithmetic
  import opened Collections

  const HF_INVALID_INTID := 0xffff_ffff

  datatype Ints = Ints(enabled: set<int>, pending: set<int>, fiq: set<int>, irqCount: int, fiqCount: int)

  datatype Event = Enable(intid: int, enable: bool, isFiq: bool) | Inject(intid: int) | GetNext

  function Deliverable(s: Ints): set<int> {
    s.enabled * s.pending
  }

  /** The counters, one up or down on the side that the interrupt's type says now. */
  function Counted(s: Ints, intid: int, d: int): Ints {
    if intid in s.fiq then s.(fiqCount := Wrapped(s.fiqCount + d)) else s.(irqCount := Wrapped(s.irqCount + d))
  }

  function Wrapped(x: int): int {
    x % TWO32
  }

  function Member(s: set<int>, x: int, yes: bool): set<int> {
    if yes then s + {x} else s - {x}
  }

  /** api_interrupt_enable: the type is set after the count. */
  function EnableStep(s: Ints, intid: int, enable: bool, isFiq: bool): Ints {
    var counted :=
      if intid in s.pending && enable != (intid in s.enabled) then Counted(s, intid, if enable then 1 else -1) else s;
    counted.(enabled := Member(s.enabled, intid, enable), fiq := Member(s.fiq, intid, enable && isFiq))
  }

  /** api_interrupt_inject_locked, apart from waking the vCPU. */
  function InjectStep(s: Ints, intid: int): Ints {
    var counted := if intid in s.enabled && intid !in s.pending then Counted(s, intid, 1) else s;
    counted.(pending := s.pending + {intid})
  }

  ghost predicate IsLeast(x: int, s: set<int>) {
    x in s && forall y :: y in s ==> x <= y
  }

  lemma {:induction false} HasLeast(s: set<int>)
    requires s != {}
    ensures exists x :: IsLeast(x, s)
  {
    assert (forall x: int :: x !in s) ==> s == {};
    var x: int :| x in s;
    var rest := s - {x};
    assert forall z :: z in s <==> z == x || z in rest;
    if rest == {} {
      assert IsLeast(x, s);
    } else {
      HasLeast(rest);
      var y :| IsLeast(y, rest);
      var z := if x <= y then x else y;
      assert IsLeast(z, s);
    }
  }

  ghost function Least(s: set<int>): (x: int)
    requires s != {}
    ensures IsLeast(x, s)
  {
    HasLeast(s);
    var x :| IsLeast(x, s);
    x
  }

  /** api_interrupt_get, apart from the ID it returns. */
  ghost function GetStep(s: Ints): Ints {
    if Deliverable(s) == {} then s
    else
      var first := Least(Deliverable(s));
      Counted(s.(pending := s.pending - {first}), first, -1)
  }

  ghost function Step(s: Ints, ev: Event): Ints {
    match ev
    case Enable(intid, enable, isFiq) => EnableStep(s, intid, enable, isFiq)
    case Inject(intid) => InjectStep(s, intid)
    case GetNext => GetStep(s)
  }

  // ---- What the counters count ----

  /**
    * Enabling a pending interrupt with another type leaves it counted under the old one. `drift` is
    * how many are counted as IRQs that are FIQs, less those counted as FIQs that are IRQs.
    */
  ghost predicate CountInv(s: Ints, drift: int) {
    && Congruent(s.irqCount, |Deliverable(s) - s.fiq| + drift)
    && Congruent(s.fiqCount, |Deliverable(s) * s.fiq| - drift)
  }

  /** The 32-bit value `c` of the number `x`. */
  ghost predicate Congruent(c: int, x: int) {
    forall k {:trigger Unfold(k)} :: Unfold(k) ==> c == Wrapped(x)
  }

  lemma CongruentAdd(c: int, x: int, d: int)
    requires Congruent(c, x)
    ensures Congruent(Wrapped(c + d), x + d)
  {
    assert Unfold(0);
  }

  function DriftOf(s: Ints, ev: Event): int {
    if !(ev.Enable? && ev.enable && ev.intid in s.pending) || (ev.intid in s.fiq) == ev.isFiq then 0
    else if ev.isFiq then 1
    else -1
  }

  lemma SizeMember(s: set<int>, x: int)
    ensures |s + {x}| == |s| + if x in s then 0 else 1
    ensures |s - {x}| == |s| - if x in s then 1 else 0
  {
    if x in s {
      assert s + {x} == s;
      assert s == (s - {x}) + {x};
    } else {
      assert s - {x} == s;
    }
  }

  /** Two sets that differ in one element at most. */
  lemma SizeChange(a: set<int>, b: set<int>, x: int)
    requires a - {x} == b - {x}
    ensures |b| == |a| + (if x in b then 1 else 0) - if x in a then 1 else 0
  {
    SizeMember(a, x);
    SizeMember(b, x);
  }

  /** The two counters move with the sizes of what they count. */
  lemma Moves(s: Ints, t: Ints, x: int, drift: int, next: int)
    requires CountInv(s, drift)
    requires Deliverable(s) - s.fiq - {x} == Deliverable(t) - t.fiq - {x}
    requires Deliverable(s) * s.fiq - {x} == Deliverable(t) * t.fiq - {x}
    requires var di := Has(Deliverable(t) - t.fiq, x) - Has(Deliverable(s) - s.fiq, x) + next - drift;
             (t.irqCount == s.irqCount && di == 0) || t.irqCount == Wrapped(s.irqCount + di)
    requires var df := Has(Deliverable(t) * t.fiq, x) - Has(Deliverable(s) * s.fiq, x) - next + drift;
             (t.fiqCount == s.fiqCount && df == 0) || t.fiqCount == Wrapped(s.fiqCount + df)
    ensures CountInv(t, next)
  {
    SizeChange(Deliverable(s) - s.fiq, Deliverable(t) - t.fiq, x);
    SizeChange(Deliverable(s) * s.fiq, Deliverable(t) * t.fiq, x);
    var di := Has(Deliverable(t) - t.fiq, x) - Has(Deliverable(s) - s.fiq, x) + next - drift;
    var df := Has(Deliverable(t) * t.fiq, x) - Has(Deliverable(s) * s.fiq, x) - next + drift;
    CongruentAdd(s.irqCount, |Deliverable(s) - s.fiq| + drift, di);
    CongruentAdd(s.fiqCount, |Deliverable(s) * s.fiq| - drift, df);
  }

  function Has(s: set<int>, x: int): int {
    if x in s then 1 else 0
  }

  lemma EnableCounts(s: Ints, ev: Event, drift: int)
    requires CountInv(s, drift) && ev.Enable?
    ensures CountInv(Step(s, ev), drift + DriftOf(s, ev))
  {
    var x, t := ev.intid, EnableStep(s, ev.intid, ev.enable, ev.isFiq);
    assert Deliverable(s) - s.fiq - {x} == Deliverable(t) - t.fiq - {x};
    assert Deliverable(s) * s.fiq - {x} == Deliverable(t) * t.fiq - {x};
    Moves(s, t, x, drift, drift + DriftOf(s, ev));
  }

  lemma InjectCounts(s: Ints, x: int, drift: int)
    requires CountInv(s, drift)
    ensures CountInv(InjectStep(s, x), drift)
  {
    var t := InjectStep(s, x);
    assert Deliverable(s) - s.fiq - {x} == Deliverable(t) - t.fiq - {x};
    assert Deliverable(s) * s.fiq - {x} == Deliverable(t) * t.fiq - {x};
    Moves(s, t, x, drift, drift);
  }

  lemma GetCounts(s: Ints, drift: int)
    requires CountInv(s, drift) && Deliverable(s) != {}
    ensures CountInv(GetStep(s), drift)
  {
    var x, t := Least(Deliverable(s)), GetStep(s);
    assert Deliverable(s) - s.fiq - {x} == Deliverable(t) - t.fiq - {x};
    assert Deliverable(s) * s.fiq - {x} == Deliverable(t) * t.fiq - {x};
    Moves(s, t, x, drift, drift);
  }

  lemma StepCounts(s: Ints, ev: Event, drift: int)
    requires CountInv(s, drift)
    ensures CountInv(Step(s, ev), drift + DriftOf(s, ev))
  {
    match ev
    case Enable(_, _, _) => EnableCounts(s, ev, drift);
    case Inject(intid) => InjectCounts(s, intid, drift);
    case GetNext =>
      if Deliverable(s) != {} {
        GetCounts(s, drift);
      }
  }

  // ---- Runs ----

  predicate Initial(s: Ints) {
    s == Ints({}, {}, {}, 0, 0)
  }

  ghost function After(s: Ints, evs: seq<Event>): Ints {
    if evs == [] then s else Step(After(s, evs[..|evs| - 1]), evs[|evs| - 1])
  }

  ghost function Drift(s: Ints, evs: seq<Event>): int {
    if evs == [] then 0
    else Drift(s, evs[..|evs| - 1]) + DriftOf(After(s, evs[..|evs| - 1]), evs[|evs| - 1])
  }

  lemma {:induction false} RunCounts(s: Ints, evs: seq<Event>)
    requires Initial(s)
    ensures CountInv(After(s, evs), Drift(s, evs))
    decreases |evs|
  {
    if evs == [] {
      assert Deliverable(s) == {};
    } else {
      RunCounts(s, evs[..|evs| - 1]);
      StepCounts(After(s, evs[..|evs| - 1]), evs[|evs| - 1], Drift(s, evs[..|evs| - 1]));
    }
  }

  predicate SumExact(t: Ints) {
    Wrapped(t.irqCount + t.fiqCount) == Wrapped(|Deliverable(t)|)
  }

  /** Over every run the sum of the counters, modulo 2^32, is the number of enabled and pending interrupts... */
  lemma SumIsExact(s: Ints, evs: seq<Event>)
    requires Initial(s)
    ensures SumExact(After(s, evs))
  {
    RunCounts(s, evs);
    SumOfCounts(After(s, evs), Drift(s, evs));
  }

  lemma SumOfCounts(t: Ints, drift: int)
    requires CountInv(t, drift)
    ensures SumExact(t)
  {
    SplitSize(t);
    SumWraps(t.irqCount, |Deliverable(t) - t.fiq| + drift, t.fiqCount, |Deliverable(t) * t.fiq| - drift);
  }

  lemma SumWraps(a: int, x: int, b: int, y: int)
    requires Congruent(a, x) && Congruent(b, y)
    ensures Wrapped(a + b) == Wrapped(x + y)
  {
    assert Unfold(0);
  }

  lemma SplitSize(t: Ints)
    ensures |Deliverable(t) - t.fiq| + |Deliverable(t) * t.fiq| == |Deliverable(t)|
  {
    assert Deliverable(t) == (Deliverable(t) - t.fiq) + Deliverable(t) * t.fiq;
  }

  predicate EachExact(t: Ints) {
    t.irqCount == Wrapped(|Deliverable(t) - t.fiq|) && t.fiqCount == Wrapped(|Deliverable(t) * t.fiq|)
  }

  /** ...and each counter is right on its own exactly when the changes of type cancel out, as when there are none. */
  lemma EachIsExactIff(s: Ints, evs: seq<Event>)
    requires Initial(s)
    ensures EachExact(After(s, evs)) <==> Wrapped(Drift(s, evs)) == 0
  {
    RunCounts(s, evs);
    EachExactIff(After(s, evs), Drift(s, evs));
  }

  lemma EachExactIff(t: Ints, drift: int)
    requires CountInv(t, drift)
    ensures EachExact(t) <==> Wrapped(drift) == 0
  {
    ExactIff(t.irqCount, |Deliverable(t) - t.fiq|, drift);
    ExactIff(t.fiqCount, |Deliverable(t) * t.fiq|, -drift);
  }

  lemma ExactIff(c: int, n: int, d: int)
    requires Congruent(c, n + d)
    ensures c == Wrapped(n) <==> Wrapped(d) == 0
    ensures Wrapped(d) == 0 <==> Wrapped(-d) == 0
  {
    assert Unfold(0);
  }

  /** For one call: the counters stay right exactly when it does not enable a pending interrupt with
      another type. */
  lemma StaysExactIff(s: Ints, ev: Event)
    requires EachExact(s)
    ensures EachExact(Step(s, ev)) <==> DriftOf(s, ev) == 0
  {
    ExactIsCounted(s);
    StepCounts(s, ev, 0);
    EachExactIff(Step(s, ev), DriftOf(s, ev));
  }

  lemma ExactIsCounted(s: Ints)
    requires EachExact(s)
    ensures CountInv(s, 0)
  {
  }

  /** A pending interrupt that is enabled as an FIQ after it came in is counted as an IRQ. */
  lemma TypeChangeMiscounts()
    ensures var t := After(Ints({}, {}, {}, 0, 0), [Inject(3), Enable(3, true, true)]);
            t.irqCount == 1 && t.fiqCount == 0 && Deliverable(t) == {3} == t.fiq
  {
    var s := Ints({}, {}, {}, 0, 0);
    var evs := [Inject(3), Enable(3, true, true)];
    assert evs[..1] == [Inject(3)] && [Inject(3)][..0] == [];
    assert After(s, evs[..1]) == Step(After(s, []), Inject(3));
    assert After(s, evs[..1]).pending == {3};
  }

  // ---- Draining ----

  /** What repeated calls of api_interrupt_get return when nothing else happens. */
  ghost function Drained(s: Ints): seq<int>
    decreases |Deliverable(s)|
  {
    if Deliverable(s) == {} then []
    else
      GetTakesOne(s);
      [Least(Deliverable(s))] + Drained(GetStep(s))
  }

  lemma GetTakesOne(s: Ints)
    requires Deliverable(s) != {}
    ensures Deliverable(GetStep(s)) == Deliverable(s) - {Least(Deliverable(s))}
    ensures |Deliverable(GetStep(s))| == |Deliverable(s)| - 1
  {
    assert Deliverable(GetStep(s)) == Deliverable(s) - {Least(Deliverable(s))};
    SizeMember(Deliverable(s), Least(Deliverable(s)));
  }

  /** Everything deliverable comes out, once, in increasing order. */
  lemma DrainsInOrder(s: Ints)
    ensures |Drained(s)| == |Deliverable(s)|
    ensures forall x :: x in Drained(s) <==> x in Deliverable(s)
    ensures forall i, j :: 0 <= i < j < |Drained(s)| ==> Drained(s)[i] < Drained(s)[j]
  {
    DrainsAll(s, Drained(s));
    DrainsUp(s, Drained(s));
  }

  lemma {:induction false} DrainsAll(s: Ints, out: seq<int>)
    requires out == Drained(s)
    ensures |out| == |Deliverable(s)| && forall x :: x in out <==> x in Deliverable(s)
    decreases |Deliverable(s)|
  {
    if Deliverable(s) != {} {
      GetTakesOne(s);
      var rest := Drained(GetStep(s));
      DrainsAll(GetStep(s), rest);
      assert out == [Least(Deliverable(s))] + rest;
    }
  }

  lemma {:induction false} DrainsUp(s: Ints, out: seq<int>)
    requires out == Drained(s)
    ensures forall i, j :: 0 <= i < j < |out| ==> out[i] < out[j]
    decreases |Deliverable(s)|
  {
    if Deliverable(s) != {} {
      GetTakesOne(s);
      var first, rest := Least(Deliverable(s)), Drained(GetStep(s));
      DrainsAll(GetStep(s), rest);
      DrainsUp(GetStep(s), rest);
      forall j | 0 <= j < |rest|
        ensures first < rest[j]
      {
        assert rest[j] in rest;
      }
      assert out == [first] + rest;
    }
  }

  /** After an injection, the count the code tests is one exactly when this interrupt is the only deliverable one. */
  lemma InjectWakesFirst(s: Ints, intid: int, drift: int)
    requires CountInv(s, drift) && intid in s.enabled && intid !in s.pending && |Deliverable(s)| + 1 < TWO32
    ensures var t := InjectStep(s, intid);
            Wrapped(t.irqCount + t.fiqCount) == 1 <==> Deliverable(s) == {}
  {
    var t := InjectStep(s, intid);
    StepCounts(s, Inject(intid), drift);
    SumOfCounts(t, drift);
    assert Deliverable(t) == Deliverable(s) + {intid};
    SizeMember(Deliverable(s), intid);
  }

  // ---- The calls, on words of bits ----

  const INTERRUPT_REGISTER_BITS := 32

  /** A 32-bit word of a bitmap, as the set of its bits. */
  type Word = set<int>

  ghost predicate IsWords(words: seq<Word>) {
    forall i, b :: 0 <= i < |words| && b in words[i] ==> 0 <= b < INTERRUPT_REGISTER_BITS
  }

  ghost function Members(words: seq<Word>): set<int> {
    set id | 0 <= id < INTERRUPT_REGISTER_BITS * |words|
      && id % INTERRUPT_REGISTER_BITS in words[id / INTERRUPT_REGISTER_BITS]
  }

  lemma NoMembers(words: seq<Word>)
    requires forall i :: 0 <= i < |words| ==> words[i] == {}
    ensures IsWords(words) && Members(words) == {}
  {
  }

  lemma MembersUpdate(words: seq<Word>, id: int, yes: bool)
    requires IsWords(words) && 0 <= id < INTERRUPT_REGISTER_BITS * |words|
    ensures var i, b := id / INTERRUPT_REGISTER_BITS, id % INTERRUPT_REGISTER_BITS;
            var after := words[i := Member(words[i], b, yes)];
            Members(after) == Member(Members(words), id, yes) && IsWords(after)
  {
    var i, b := id / INTERRUPT_REGISTER_BITS, id % INTERRUPT_REGISTER_BITS;
    var after := words[i := Member(words[i], b, yes)];
    forall x
      ensures x in Members(after) <==> x in Member(Members(words), id, yes)
    {
      assert x / INTERRUPT_REGISTER_BITS == i && x % INTERRUPT_REGISTER_BITS == b ==> x == id;
    }
  }

  method GetValue(bitmap: array<Word>, id: int) returns (yes: bool)
    requires 0 <= id < INTERRUPT_REGISTER_BITS * bitmap.Length
    ensures yes <==> id in Members(bitmap[..])
  {
    return id % INTERRUPT_REGISTER_BITS in bitmap[id / INTERRUPT_REGISTER_BITS];
  }

  method PutValue(bitmap: array<Word>, id: int, yes: bool)
    requires 0 <= id < INTERRUPT_REGISTER_BITS * bitmap.Length && IsWords(bitmap[..])
    modifies bitmap
    ensures Members(bitmap[..]) == Member(old(Members(bitmap[..])), id, yes) && IsWords(bitmap[..])
  {
    var i, b := id / INTERRUPT_REGISTER_BITS, id % INTERRUPT_REGISTER_BITS;
    MembersUpdate(bitmap[..], id, yes);
    bitmap[i] := Member(bitmap[i], b, yes);
    assert bitmap[..] == old(bitmap[..])[i := Member(old(bitmap[..])[i], b, yes)];
  }

  /** Count of trailing zeroes: the lowest bit that is set. */
  method Ctz(w: Word) returns (b: int)
    requires w != {} && forall c :: c in w ==> 0 <= c < INTERRUPT_REGISTER_BITS
    ensures b in w && forall c :: c in w ==> b <= c
  {
    b := 0;
    while b !in w
      invariant 0 <= b && forall c :: c in w ==> b <= c
      decreases INTERRUPT_REGISTER_BITS - b
    {
      assert (forall c: int :: c !in w) ==> w == {};
      b := b + 1;
    }
  }

  class VcpuInterrupts {
    const enabled: array<Word>
    const pending: array<Word>
    const fiq: array<Word>
    var irqCount: int
    var fiqCount: int

    ghost predicate Valid()
      reads this, enabled, pending, fiq
    {
      && enabled != pending && pending != fiq && enabled != fiq && enabled.Length == pending.Length == fiq.Length
      && IsWords(enabled[..]) && IsWords(pending[..]) && IsWords(fiq[..])
    }

    ghost function Now(): Ints
      reads this, enabled, pending, fiq
    {
      Ints(Members(enabled[..]), Members(pending[..]), Members(fiq[..]), irqCount, fiqCount)
    }

    /** Nothing enabled and nothing pending, in registers for 32 interrupts each. */
    constructor (registers: nat)
      ensures Valid() && Initial(Now()) && enabled.Length == registers
      ensures fresh(enabled) && fresh(pending) && fresh(fiq)
    {
      enabled := new Word[registers](_ => {});
      pending := new Word[registers](_ => {});
      fiq := new Word[registers](_ => {});
      irqCount, fiqCount := 0, 0;
      new;
      NoMembers(enabled[..]);
      NoMembers(pending[..]);
      NoMembers(fiq[..]);
    }

    predicate Known(intid: int) {
      0 <= intid < INTERRUPT_REGISTER_BITS * enabled.Length
    }

    method Count(intid: int, d: int)
      requires Valid() && Known(intid)
      modifies this
      ensures Now() == Counted(old(Now()), intid, d)
    {
      var isFiq := GetValue(fiq, intid);
      if isFiq {
        fiqCount := Wrapped(fiqCount + d);
      } else {
        irqCount := Wrapped(irqCount + d);
      }
    }

    /** api_interrupt_enable. */
    method EnableInterrupt(intid: int, enable: bool, isFiq: bool) returns (ret: int)
      requires Valid() && 0 <= intid
      modifies this, enabled, fiq
      ensures Valid() && ret == (if Known(intid) then 0 else -1)
      ensures Now() == if Known(intid) then Step(old(Now()), Enable(intid, enable, isFiq)) else old(Now())
      ensures Now().pending == old(Now()).pending
      ensures Known(intid) ==>
              forall x ::
                && (x in Now().enabled <==> if x == intid then enable else x in old(Now()).enabled)
                && (x in Now().fiq <==> if x == intid then enable && isFiq else x in old(Now()).fiq)
    {
      if !Known(intid) {
        return -1;
      }
      var wasPending := GetValue(pending, intid);
      var wasEnabled := GetValue(enabled, intid);
      if wasPending && wasEnabled != enable {
        Count(intid, if enable then 1 else -1);
      }
      PutValue(enabled, intid, enable);
      PutValue(fiq, intid, enable && isFiq);
      return 0;
    }

    /** api_interrupt_inject_locked: `wake` when the target now has its first interrupt to take. */
    method InjectInterrupt(intid: int, ghost drift: int) returns (wake: bool)
      requires Valid() && Known(intid) && CountInv(Now(), drift) && INTERRUPT_REGISTER_BITS * enabled.Length < TWO32
      modifies this, pending
      ensures Valid() && Now() == Step(old(Now()), Inject(intid)) && CountInv(Now(), drift)
      ensures Now().pending == old(Now()).pending + {intid} && Now().enabled == old(Now()).enabled
      ensures wake <==> intid in Deliverable(Now()) && Deliverable(old(Now())) == {}
    {
      ghost var was := Now();
      wake := false;
      var wasPending := GetValue(pending, intid);
      var isEnabled := GetValue(enabled, intid);
      if isEnabled && !wasPending {
        Count(intid, 1);
        wake := IsFirst(was, intid, drift);
      }
      PutValue(pending, intid, true);
      InjectCounts(was, intid, drift);
      WakeMeans(was, intid);
    }

    /** vcpu_interrupt_count_get returns one. */
    method IsFirst(ghost was: Ints, intid: int, ghost drift: int) returns (first: bool)
      requires CountInv(was, drift) && intid in was.enabled && intid !in was.pending && was.enabled == Now().enabled
      requires INTERRUPT_REGISTER_BITS * enabled.Length < TWO32
      requires irqCount == InjectStep(was, intid).irqCount && fiqCount == InjectStep(was, intid).fiqCount
      ensures first <==> Deliverable(was) == {}
    {
      FewDeliverable(was, intid, INTERRUPT_REGISTER_BITS * enabled.Length);
      InjectWakesFirst(was, intid, drift);
      return Wrapped(irqCount + fiqCount) == 1;
    }

    /** api_interrupt_get: the first word with something to take, and the lowest bit in it. */
    method GetInterrupt() returns (first: int)
      requires Valid()
      modifies this, pending
      ensures Valid() && Now() == Step(old(Now()), GetNext)
      ensures first == if Deliverable(old(Now())) == {} then HF_INVALID_INTID else Least(Deliverable(old(Now())))
      ensures Now().enabled == old(Now()).enabled && Now().fiq == old(Now()).fiq
      ensures Deliverable(old(Now())) != {} ==> Now().pending == old(Now()).pending - {first}
    {
      for i := 0 to enabled.Length
        invariant Valid() && Now() == old(Now())
        invariant forall j :: 0 <= j < i ==> enabled[j] * pending[j] == {}
      {
        var both := enabled[i] * pending[i];
        if both != {} {
          var b := Ctz(both);
          first := i * INTERRUPT_REGISTER_BITS + b;
          FirstIsLeast(enabled[..], pending[..], i, b);
          PutValue(pending, first, false);
          Count(first, -1);
          return;
        }
      }
      NothingFound(enabled[..], pending[..]);
      return HF_INVALID_INTID;
    }
  }

  lemma FirstIsLeast(enabled: seq<Word>, pending: seq<Word>, i: int, b: int)
    requires IsWords(enabled) && |enabled| == |pending| && 0 <= i < |enabled|
    requires b in enabled[i] * pending[i] && forall c :: c in enabled[i] * pending[i] ==> b <= c
    requires forall j :: 0 <= j < i ==> enabled[j] * pending[j] == {}
    ensures var all := Members(enabled) * Members(pending);
            var first := i * INTERRUPT_REGISTER_BITS + b;
            0 <= first < INTERRUPT_REGISTER_BITS * |enabled| && all != {} && first == Least(all)
  {
    var all := Members(enabled) * Members(pending);
    var first := i * INTERRUPT_REGISTER_BITS + b;
    assert first / INTERRUPT_REGISTER_BITS == i && first % INTERRUPT_REGISTER_BITS == b;
    assert first in all;
    forall y | y in all
      ensures first <= y
    {
      var j, c := y / INTERRUPT_REGISTER_BITS, y % INTERRUPT_REGISTER_BITS;
      assert c in enabled[j] * pending[j];
    }
  }

  lemma NothingFound(enabled: seq<Word>, pending: seq<Word>)
    requires |enabled| == |pending| && forall j :: 0 <= j < |enabled| ==> enabled[j] * pending[j] == {}
    ensures Members(enabled) * Members(pending) == {}
  {
    forall y | y in Members(enabled)
      ensures y !in Members(pending)
    {
      var j, c := y / INTERRUPT_REGISTER_BITS, y % INTERRUPT_REGISTER_BITS;
      assert c !in enabled[j] * pending[j];
    }
  }

  lemma WakeMeans(s: Ints, intid: int)
    ensures intid in Deliverable(InjectStep(s, intid)) && Deliverable(s) == {} ==>
              intid in s.enabled && intid !in s.pending
    ensures intid in s.enabled ==> intid in Deliverable(InjectStep(s, intid))
  {
    assert intid in s.enabled && intid in s.pending ==> intid in Deliverable(s);
  }

  lemma FewDeliverable(s: Ints, intid: int, n: nat)
    requires intid in s.enabled && intid !in s.pending && forall x :: x in s.enabled ==> 0 <= x < n
    ensures |Deliverable(s)| < n
  {
    SizeBelow(s.enabled, n);
    SizeMember(s.enabled, intid);
    SubsetSize(Deliverable(s), s.enabled - {intid});
  }

  lemma {:induction false} SizeBelow(s: set<int>, n: nat)
    requires forall x :: x in s ==> 0 <= x < n
    ensures |s| <= n
  {
    if n == 0 {
      assert (forall x: int :: x !in s) ==> s == {};
    } else {
      SizeBelow(s - {n - 1}, n - 1);
      SizeMember(s, n - 1);
    }
  }
}
