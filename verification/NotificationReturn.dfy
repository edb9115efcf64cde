/**
  * What FFA_NOTIFICATION_INFO_GET returns (src/api.c, inc/vmapi/hf/ffa.h): the IDs of the groups one
  * after the other, and a register with the more-pending flag, the number of groups and the number
  * of vCPU IDs in each. Shifts of disjoint fields are written as sums of multiples.
  */
module NotificationReturn {
  import opened Arithmetic
  import opened Notifications
  import opened NotificationInfo


  function Ids(report: seq<Group>): seq<int> {
    if report == [] then []
    else Ids(report[..|report| - 1]) + [report[|report| - 1].vm] + report[|report| - 1].vcpus
  }

  function Sizes(report: seq<Group>): (s: seq<int>)
    ensures |s| == |report| && forall g :: 0 <= g < |report| ==> s[g] == |report[g].vcpus|
  {
    if report == [] then [] else Sizes(report[..|report| - 1]) + [|report[|report| - 1].vcpus|]
  }

  /** How the scheduler reads the two back. */
  function Decode(ids: seq<int>, sizes: seq<int>): seq<Group> {
    if sizes == [] then []
    else if !(0 <= sizes[0] < |ids|) then []
    else [Group(ids[0], ids[1..1 + sizes[0]])] + Decode(ids[1 + sizes[0]..], sizes[1..])
  }

  lemma {:induction false} IdsSize(report: seq<Group>)
    ensures |Ids(report)| == Size(report)
  {
    if report != [] {
      IdsSize(report[..|report| - 1]);
    }
  }

  lemma IdsSnoc(report: seq<Group>, g: Group)
    ensures Ids(report + [g]) == Ids(report) + [g.vm] + g.vcpus && Sizes(report + [g]) == Sizes(report) + [|g.vcpus|]
  {
    assert (report + [g])[..|report|] == report;
  }

  lemma Reassociated(a: seq<int>, b: seq<int>, c: seq<int>, d: seq<int>)
    ensures a + b + c + d == a + (b + c + d)
  {
  }

  lemma {:induction false} IdsCons(g: Group, rest: seq<Group>)
    ensures Ids([g] + rest) == [g.vm] + g.vcpus + Ids(rest)
  {
    var front := [g.vm] + g.vcpus;
    if rest == [] {
      assert [g] + rest == [] + [g];
      IdsSnoc([], g);
      assert Ids([g] + rest) == front;
    } else {
      var init, last := rest[..|rest| - 1], rest[|rest| - 1];
      IdsCons(g, init);
      var all := [g] + rest;
      assert all[..|all| - 1] == [g] + init && all[|all| - 1] == last;
      Reassociated(front, Ids(init), [last.vm], last.vcpus);
    }
  }

  lemma SizesCons(g: Group, rest: seq<Group>)
    ensures Sizes([g] + rest) == [|g.vcpus|] + Sizes(rest)
  {
  }

  lemma {:induction false} DecodeReads(report: seq<Group>)
    ensures Decode(Ids(report), Sizes(report)) == report
    decreases |report|
  {
    if report != [] {
      var g, rest := report[0], report[1..];
      assert report == [g] + rest;
      IdsCons(g, rest);
      SizesCons(g, rest);
      var ids, sizes := Ids(report), Sizes(report);
      assert ids[1..1 + sizes[0]] == g.vcpus;
      assert ids[1 + sizes[0]..] == Ids(rest);
      assert sizes[1..] == Sizes(rest);
      DecodeReads(rest);
    }
  }

  // ---- The register ----

  function Pack(sizes: seq<int>): int {
    if sizes == [] then 0 else sizes[0] + 4 * Pack(sizes[1..])
  }

  /** Two bits of `v`, `i` pairs up. */
  function Pair(v: int, i: nat): int
    decreases i
  {
    if i == 0 then v % 4 else Pair(v / 4, i - 1)
  }

  /** The register that section 17.7.1 of FF-A v1.1 Beta0 asks for: 64 bits, with a field for the
      size of every list. */
  function X2(more: bool, sizes: seq<int>): int {
    (if more then 1 else 0) + 128 * |sizes| + 4096 * Pack(sizes)
  }

  /** The lists whose size fields lie below bit 32. */
  function Low(sizes: seq<int>): seq<int> {
    if |sizes| <= 10 then sizes else sizes[..10]
  }

  /** What the code may return: the fields are computed in 32 bits, and from the eleventh list on a
      value is shifted by 32 or more. As long as these lists are empty, nothing is lost; otherwise C
      leaves open which 32-bit value it is. */
  ghost predicate Returned(x: int, more: bool, report: seq<Group>) {
    0 <= x < TWO32 && (TailEmpty(report) ==> x == X2(more, Sizes(report)))
  }

  lemma {:induction false} PackSnoc(sizes: seq<int>, size: int)
    ensures Pack(sizes + [size]) == Pack(sizes) + size * Power4(|sizes|)
  {
    if sizes == [] {
      assert [size][1..] == [];
    } else {
      PackSnoc(sizes[1..], size);
      assert (sizes + [size])[1..] == sizes[1..] + [size];
      assert size * (4 * Power4(|sizes| - 1)) == 4 * (size * Power4(|sizes| - 1));
    }
  }

  /** One more list. */
  lemma RegisterStep(sizes: seq<int>, i: nat, x: int, start: int, shift: int)
    requires i < |sizes| && 0 <= sizes[i] <= MAX_GROUP
    requires x == start + 4096 * Pack(Low(sizes[..i])) && (i < 10 ==> shift == 4096 * Power4(i))
    ensures i < 10 ==>
              x + sizes[i] % 4 * shift == start + 4096 * Pack(Low(sizes[..i + 1])) && shift * 4 == 4096 * Power4(i + 1)
    ensures i >= 10 ==> x == start + 4096 * Pack(Low(sizes[..i + 1]))
  {
    if i < 10 {
      PackSnoc(sizes[..i], sizes[i]);
      assert sizes[..i + 1] == sizes[..i] + [sizes[i]];
      assert sizes[i] % 4 == sizes[i];
      assert sizes[i] * (4096 * Power4(i)) == 4096 * (sizes[i] * Power4(i));
    } else {
      assert Low(sizes[..i]) == sizes[..10] == Low(sizes[..i + 1]);
    }
  }

  predicate Small(sizes: seq<int>) {
    forall i :: 0 <= i < |sizes| ==> 0 <= sizes[i] <= MAX_GROUP
  }

  lemma {:induction false} PairOfPack(sizes: seq<int>, i: nat)
    requires Small(sizes)
    ensures Pair(Pack(sizes), i) == (if i < |sizes| then sizes[i] else 0) && Pack(sizes) >= 0
    decreases i
  {
    if sizes == [] {
      if i > 0 {
        PairOfPack([], i - 1);
      }
    } else {
      var rest := Pack(sizes[1..]);
      assert Pack(sizes) == sizes[0] + 4 * rest;
      PackNonNegative(sizes[1..]);
      DivModUnique(Pack(sizes), 4, rest, sizes[0]);
      if i > 0 {
        PairOfPack(sizes[1..], i - 1);
      }
    }
  }

  lemma {:induction false} PackNonNegative(sizes: seq<int>)
    requires Small(sizes)
    ensures Pack(sizes) >= 0
  {
    if sizes != [] {
      PackNonNegative(sizes[1..]);
    }
  }

  lemma Fields(low: int, count: int, pack: int)
    requires 0 <= low <= 1 && 0 <= count < 32 && pack >= 0
    ensures var x := low + 128 * count + 4096 * pack; x % 2 == low && x / 128 % 32 == count && x / 4096 == pack
  {
    var x := low + 128 * count + 4096 * pack;
    assert x == 2 * (64 * count + 2048 * pack) + low;
    assert x / 128 == count + 32 * pack;
  }

  lemma {:induction false} GroupsBound(report: seq<Group>)
    ensures |report| <= Size(report)
  {
    if report != [] {
      GroupsBound(report[..|report| - 1]);
    }
  }

  // ---- The width of the register ----

  /** The groups past the tenth list no vCPU. */
  predicate TailEmpty(report: seq<Group>) {
    forall g :: 10 <= g < |report| ==> report[g].vcpus == []
  }

  lemma {:induction false} PackWidth(sizes: seq<int>, n: nat)
    requires Small(sizes)
    ensures Pack(sizes) < Power4(n) <==> forall i :: n <= i < |sizes| ==> sizes[i] == 0
  {
    PackNonNegative(sizes);
    if sizes == [] {
      assert Power4(n) >= 1;
    } else if n == 0 {
      PackWidth(sizes[1..], 0);
      PackNonNegative(sizes[1..]);
      assert forall i :: 1 <= i < |sizes| ==> sizes[i] == sizes[1..][i - 1];
      assert (forall i :: 0 <= i < |sizes| ==> sizes[i] == 0) <==>
             sizes[0] == 0 && forall i :: 0 <= i < |sizes[1..]| ==> sizes[1..][i] == 0;
    } else {
      PackWidth(sizes[1..], n - 1);
      assert forall i :: 1 <= i < |sizes| ==> sizes[i] == sizes[1..][i - 1];
      assert (forall i :: n <= i < |sizes| ==> sizes[i] == 0) <==>
             forall i :: n - 1 <= i < |sizes[1..]| ==> sizes[1..][i] == 0;
    }
  }

  function Power4(n: nat): (p: int)
    ensures p >= 1
  {
    if n == 0 then 1 else 4 * Power4(n - 1)
  }

  lemma TenFields()
    ensures Power4(10) == 0x10_0000
  {
    assert Power4(5) == 1024;
    assert Power4(10) == 4 * 4 * 4 * 4 * 4 * Power4(5);
  }

  lemma {:induction false} PackSame(sizes: seq<int>, low: seq<int>)
    requires Small(sizes) && Small(low) && |low| <= |sizes|
    requires forall i :: 0 <= i < |sizes| ==> sizes[i] == if i < |low| then low[i] else 0
    ensures Pack(sizes) == Pack(low)
  {
    if sizes != [] {
      if low == [] {
        PackSame(sizes[1..], []);
      } else {
        PackSame(sizes[1..], low[1..]);
      }
    }
  }

  /** The register that is asked for fits in 32 bits exactly when no group past the tenth lists a
      vCPU, and so whatever is returned is that register exactly then. */
  lemma RegisterIff(x: int, more: bool, report: seq<Group>)
    requires Size(report) <= FFA_NOTIFICATIONS_INFO_GET_MAX_IDS && GroupsFit(report) && Returned(x, more, report)
    ensures X2(more, Sizes(report)) < TWO32 <==> TailEmpty(report)
    ensures x == X2(more, Sizes(report)) <==> TailEmpty(report)
  {
    X2Fits(more, report);
  }

  lemma X2Fits(more: bool, report: seq<Group>)
    requires Size(report) <= FFA_NOTIFICATIONS_INFO_GET_MAX_IDS && GroupsFit(report)
    ensures 0 <= X2(more, Sizes(report)) && (X2(more, Sizes(report)) < TWO32 <==> TailEmpty(report))
  {
    var sizes := Sizes(report);
    GroupsBound(report);
    PackWidth(sizes, 10);
    PackNonNegative(sizes);
    TenFields();
    assert X2(more, sizes) < TWO32 <==> Pack(sizes) < 0x10_0000;
    assert TailEmpty(report) <==> forall i :: 10 <= i < |sizes| ==> sizes[i] == 0;
  }

  /** A list past the tenth is not empty. */
  predicate Lost(sizes: seq<int>) {
    exists k :: 10 <= k < |sizes| && sizes[k] != 0
  }

  lemma LostStep(sizes: seq<int>, i: nat)
    requires i < |sizes|
    ensures Lost(sizes[..i + 1]) <==> Lost(sizes[..i]) || (i >= 10 && sizes[i] != 0)
  {
    if k :| 10 <= k < i && sizes[..i][k] != 0 {
      assert sizes[..i + 1][k] != 0;
    }
    if i >= 10 && sizes[i] != 0 {
      assert sizes[..i + 1][i] != 0;
    }
  }

  lemma LowIsAll(sizes: seq<int>)
    requires Small(sizes) && !Lost(sizes)
    ensures Pack(Low(sizes)) == Pack(sizes)
  {
    forall i | 0 <= i < |sizes|
      ensures sizes[i] == if i < |Low(sizes)| then Low(sizes)[i] else 0
    {
    }
    PackSame(sizes, Low(sizes));
  }

  lemma LostIsTail(report: seq<Group>)
    requires Lost(Sizes(report))
    ensures !TailEmpty(report)
  {
  }

  /** What the fields below bit 32 add up to is the register if those above are empty. */
  lemma LowIsReturned(x: int, more: bool, report: seq<Group>)
    requires Size(report) <= FFA_NOTIFICATIONS_INFO_GET_MAX_IDS && GroupsFit(report) && !Lost(Sizes(report))
    requires x == (if more then 1 else 0) + 128 * (|report| % 32) + 4096 * Pack(Low(Sizes(report)))
    ensures Returned(x, more, report)
  {
    GroupsBound(report);
    NotLost(report);
    X2Fits(more, report);
    LowIsAll(Sizes(report));
    SmallMod(|report|);
  }

  lemma SmallMod(n: nat)
    requires n < 32
    ensures n % 32 == n
  {
  }

  lemma NotLost(report: seq<Group>)
    requires GroupsFit(report) && !Lost(Sizes(report))
    ensures TailEmpty(report) && Small(Sizes(report))
  {
    forall g | 10 <= g < |report|
      ensures report[g].vcpus == []
    {
      assert Sizes(report)[g] == 0;
    }
  }

  // ---- Reading the register ----

  /** What the scheduler reads: the flag, the number of lists and their sizes. */
  predicate ReadMore(x: int) {
    x % 2 == 1
  }

  function ReadSizes(x: int): seq<int> {
    seq(x / 128 % 32, i requires i >= 0 => Pair(x / 4096, i))
  }

  /** If no group past the tenth lists a vCPU, the flag, the number of lists and the size of every
      list can be read from the register. */
  lemma RegisterReads(x: int, more: bool, report: seq<Group>)
    requires Size(report) <= FFA_NOTIFICATIONS_INFO_GET_MAX_IDS && GroupsFit(report) && Returned(x, more, report)
    requires TailEmpty(report)
    ensures (ReadMore(x) <==> more) && ReadSizes(x) == Sizes(report)
  {
    var sizes := Sizes(report);
    GroupsBound(report);
    PackNonNegative(sizes);
    Fields(if more then 1 else 0, |sizes|, Pack(sizes));
    forall i | 0 <= i < |report|
      ensures ReadSizes(x)[i] == sizes[i]
    {
      PairOfPack(sizes, i);
    }
  }

  /** Whatever the register, 32 bits have no room for the eleventh list. */
  lemma NoEleventh(x: int, i: nat)
    requires 0 <= x < TWO32 && i >= 10
    ensures Pair(x / 4096, i) == 0
  {
    TenFields();
    PairIsZero(x / 4096, i, 10);
  }

  lemma {:induction false} PairIsZero(v: int, i: nat, n: nat)
    requires 0 <= v < Power4(n) && n <= i
    ensures Pair(v, i) == 0
    decreases i
  {
    if n == 0 {
      if i > 0 {
        PairIsZero(v / 4, i - 1, 0);
      }
    } else {
      PairIsZero(v / 4, i - 1, n - 1);
    }
  }

  lemma {:induction false} DecodedSizes(ids: seq<int>, sizes: seq<int>, g: nat)
    requires g < |Decode(ids, sizes)| <= |sizes|
    ensures |Decode(ids, sizes)[g].vcpus| == sizes[g]
  {
    if g > 0 {
      DecodedLength(ids[1 + sizes[0]..], sizes[1..]);
      DecodedSizes(ids[1 + sizes[0]..], sizes[1..], g - 1);
    }
  }

  /** Whatever is returned: the scheduler gets back the report that was made exactly when no group
      past the tenth lists a vCPU. */
  lemma ReportIsReadIff(x: int, more: bool, report: seq<Group>)
    requires Size(report) <= FFA_NOTIFICATIONS_INFO_GET_MAX_IDS && GroupsFit(report) && Returned(x, more, report)
    ensures Decode(Ids(report), ReadSizes(x)) == report <==> TailEmpty(report)
  {
    if TailEmpty(report) {
      RegisterReads(x, more, report);
      DecodeReads(report);
    } else if Decode(Ids(report), ReadSizes(x)) == report {
      var g :| 10 <= g < |report| && report[g].vcpus != [];
      DecodedLength(Ids(report), ReadSizes(x));
      DecodedSizes(Ids(report), ReadSizes(x), g);
      NoEleventh(x, g);
    }
  }

  lemma {:induction false} DecodedLength(ids: seq<int>, sizes: seq<int>)
    ensures |Decode(ids, sizes)| <= |sizes|
  {
    if sizes != [] && 0 <= sizes[0] < |ids| {
      DecodedLength(ids[1 + sizes[0]..], sizes[1..]);
    }
  }

  /** `slot` is the one thing VM `r` has to report. */
  ghost predicate OnlyWaiting(w: World, r: int, slot: Slot) {
    forall t :: Waiting(w, r, t) <==> t == slot
  }

  lemma {:induction false} Idle(i: Info, r: int, slots: seq<Slot>, max: nat)
    requires i.phase == Inserting ==> i.report != []
    requires forall k :: 0 <= k < |slots| ==> SlotIn(i.w, r, slots[k]) && !Unreported(At(i.w, r, slots[k]))
    ensures InfoAll(i, r, slots, max) == i
    decreases |slots|
  {
    if slots != [] {
      Idle(i, r, slots[1..], max);
    }
  }

  lemma {:induction false} OneSlot(i: Info, r: int, slots: seq<Slot>, slot: Slot, max: nat)
    requires slot in slots && i.phase == Init
    requires forall k :: 0 <= k < |slots| ==>
               SlotIn(i.w, r, slots[k]) && (Unreported(At(i.w, r, slots[k])) <==> slots[k] == slot)
    ensures SlotIn(i.w, r, slot) && InfoAll(i, r, slots, max).report == InfoSlot(i, r, slot, max).report
    ensures InfoSlot(i, r, slot, max).phase != Full ==> InfoAll(i, r, slots, max) == InfoSlot(i, r, slot, max)
    decreases |slots|
  {
    var x := InfoSlot(i, r, slots[0], max);
    if slots[0] == slot {
      assert Unfold(0);
      if x.phase == Full {
        InfoAllGrows(x, r, slots[1..], max, InfoAll(x, r, slots[1..], max));
      } else {
        Idle(x, r, slots[1..], max);
      }
    } else {
      OneSlot(i, r, slots[1..], slot, max);
    }
  }

  function GroupOf(w: World, r: int, slot: Slot): Group
    requires 0 <= r < |w.vms|
  {
    Group(w.vms[r].id, if slot.PerVcpu? then [slot.vcpu] else [])
  }

  lemma WaitingSlots(w: World, r: int, slot: Slot, slots: seq<Slot>)
    requires Valid(w) && 0 <= r < |w.vms| && w.vms[r].vcpuCount >= 0 && slots == InfoSlots(w.vms[r])
    requires OnlyWaiting(w, r, slot)
    ensures slot in slots
    ensures forall k :: 0 <= k < |slots| ==>
              SlotIn(w, r, slots[k]) && (Unreported(At(w, r, slots[k])) <==> slots[k] == slot)
  {
    assert Waiting(w, r, slot);
    SlotsThere(w, r);
    forall k | 0 <= k < |slots|
      ensures SlotIn(w, r, slots[k]) && (Unreported(At(w, r, slots[k])) <==> slots[k] == slot)
    {
      assert slots[k] in slots;
      assert Waiting(w, r, slots[k]) <==> slots[k] == slot;
    }
  }

  lemma SlotReported(w: World, report: seq<Group>, r: int, slot: Slot, max: nat)
    requires SlotIn(w, r, slot) && Unreported(At(w, r, slot)) && Size(report) + 1 + |GroupOf(w, r, slot).vcpus| <= max
    ensures var i := InfoSlot(Info(w, report, Init), r, slot, max);
            i.report == report + [GroupOf(w, r, slot)] && i.phase != Full
  {
  }

  lemma OneSlotVm(w: World, report: seq<Group>, r: int, slot: Slot, max: nat, i: Info)
    requires Valid(w) && 0 <= r < |w.vms| && OnlyWaiting(w, r, slot) && i == InfoVm(w, report, r, max)
    requires Size(report) + 1 + |GroupOf(w, r, slot).vcpus| <= max
    ensures i.report == report + [GroupOf(w, r, slot)] && i.phase != Full
  {
    var slots := InfoSlots(w.vms[r]);
    WaitingSlots(w, r, slot, slots);
    OneSlot(Info(w, report, Init), r, slots, slot, max);
    SlotReported(w, report, r, slot, max);
  }

  /** The IDs that the one group of each VM from `r` on takes. */
  function Need(slots: seq<Slot>, r: nat): nat
    requires r <= |slots|
    decreases |slots| - r
  {
    if r == |slots| then 0 else (if slots[r].PerVcpu? then 2 else 1) + Need(slots, r + 1)
  }

  /** One VM with one thing to report gets a group, and the others still have theirs to report. */
  lemma OneStep(w: World, report: seq<Group>, r: nat, slots: seq<Slot>, max: nat, i: Info)
    requires Valid(w) && r < |w.vms| == |slots| && Size(report) + Need(slots, r) <= max && GroupsFit(report)
    requires i == InfoVm(w, report, r, max) && forall p :: r <= p < |slots| ==> OnlyWaiting(w, p, slots[p])
    ensures Valid(i.w) && |i.w.vms| == |w.vms| && i.phase != Full && Marks(w, i.w, r, r + 1)
    ensures i.report == report + [GroupOf(w, r, slots[r])] && GroupsFit(i.report)
    ensures Size(i.report) + Need(slots, r + 1) <= max
    ensures forall p :: r + 1 <= p < |slots| ==> OnlyWaiting(i.w, p, slots[p])
  {
    OneSlotVm(w, report, r, slots[r], max, i);
    SizeSnoc(report, GroupOf(w, r, slots[r]));
    InfoVmMeans(w, report, r, max, i);
    SameVms(w, i.w, r);
    forall p | r + 1 <= p < |slots|
      ensures OnlyWaiting(i.w, p, slots[p])
    {
      OnlyWaitingStays(w, i.w, r, p, slots[p]);
    }
  }

  /** If every VM has one thing to report and there is room, each gets a group of its own. */
  lemma {:induction false} OneEach(w: World, report: seq<Group>, r: nat, slots: seq<Slot>, max: nat, q: nat)
    requires Valid(w) && r <= q < |w.vms| == |slots| && Size(report) + Need(slots, r) <= max && GroupsFit(report)
    requires forall p :: r <= p < |slots| ==> OnlyWaiting(w, p, slots[p])
    ensures var after := InfoVms(w, report, r, max).report;
            && report <= after && |after| == |report| + |slots| - r
            && after[|report| + q - r] == GroupOf(w, q, slots[q])
    decreases |slots| - r
  {
    var i := InfoVm(w, report, r, max);
    OneStep(w, report, r, slots, max, i);
    if r + 1 == |slots| {
      assert InfoVms(w, report, r, max).report == i.report;
    } else {
      var p := if q == r then r + 1 else q;
      SameId(w, i.w, r, p);
      OneEach(i.w, i.report, r + 1, slots, max, p);
    }
  }

  lemma SameId(w: World, v: World, r: int, q: int)
    requires Marks(w, v, r, r + 1) && 0 <= q < |w.vms|
    ensures |v.vms| == |w.vms| && v.vms[q].id == w.vms[q].id
  {
    assert Unfold(0);
  }

  lemma OnlyWaitingStays(w: World, v: World, r: int, p: int, slot: Slot)
    requires Marks(w, v, r, r + 1) && p != r && OnlyWaiting(w, p, slot)
    ensures OnlyWaiting(v, p, slot)
  {
    forall t
      ensures Waiting(v, p, t) <==> t == slot
    {
      WaitingSame(w, v, r, p, t);
    }
  }

  lemma {:induction false} NeedOfFrameworks(slots: seq<Slot>, r: nat, n: nat)
    requires r <= n <= |slots| && forall k :: r <= k < n ==> slots[k] == Framework
    ensures Need(slots, r) == n - r + Need(slots, n)
    decreases n - r
  {
    if r < n {
      NeedOfFrameworks(slots, r + 1, n);
    }
  }

  /** Eleven VMs are enough for a report, of twelve IDs, that the register cannot carry. */
  lemma EleventhVmOverflows(w: World)
    requires Valid(w) && |w.vms| == 11 && OnlyWaiting(w, 10, PerVcpu(true, 0))
    requires forall r :: 0 <= r < 10 ==> OnlyWaiting(w, r, Framework)
    ensures var i := InfoVms(w, [], 0, FFA_NOTIFICATIONS_INFO_GET_MAX_IDS);
            |i.report| == 11 && Size(i.report) <= FFA_NOTIFICATIONS_INFO_GET_MAX_IDS && GroupsFit(i.report)
              && !TailEmpty(i.report)
  {
    var slots := seq(11, r => if r < 10 then Framework else PerVcpu(true, 0));
    var max := FFA_NOTIFICATIONS_INFO_GET_MAX_IDS;
    NeedOfFrameworks(slots, 0, 10);
    assert Need(slots, 10) == 2;
    OneEach(w, [], 0, slots, max, 10);
    var i := InfoVms(w, [], 0, max);
    assert i.report[10].vcpus == [0];
    assert ReportInv(w, [], w, [], 0, max);
    InfoVmsMeans(w, [], w, [], 0, max, i);
  }
}
