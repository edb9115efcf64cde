/** Whole runs of calls to the memory pools (`src/mpool.c`), and of writes to allocated memory by
    those that hold it. */
module MpoolRuns {
  import opened Arithmetic
  import opened Collections
  import opened PoolLists
  import opened Mpool

  datatype Call =
    | Init
    | InitWithFallback(fallback: nat)
    | InitFrom(from: nat)
    | Fini(pool: nat)
    | AddChunk(pool: nat, begin: nat, length: nat)
    | Alloc(pool: nat)
    | AllocContiguous(pool: nat, count: nat, align: nat)
    | Free(pool: nat, entry: int)
    | Write(address: int, value: int)

  /** The pools, and the entries that callers hold. */
  datatype Snapshot = Snapshot(heap: Heap, used: multiset<int>)

  /** All entries the pools know of. */
  ghost function Managed(s: Snapshot): multiset<int> {
    s.heap.free + s.used
  }

  /** No entry is both free and held, or held twice. */
  ghost predicate Account(s: Snapshot) {
    Linked(s.heap, -1) && NoDup(Managed(s)) && forall x :: x in Managed(s) ==> WfEntry(x, s.heap.size)
  }

  /** The entries that the caller gives to a pool. */
  ghost function Given(call: Call, size: nat): multiset<int>
    requires size > 0
  {
    match call
    case AddChunk(_, begin, length) => multiset(Run(AlignUp(begin, size), AlignDown(begin + length, size), size))
    case Free(_, x) => multiset{x}
    case _ => multiset{}
  }

  ghost predicate NotFree(xs: multiset<int>, free: multiset<int>) {
    forall x :: x in xs ==> x !in free
  }

  /** What the source demands of callers: pools exist, memory that is given to a pool is not in one
      already, and only memory that is held is freed or written to. */
  ghost predicate Legal(s: Snapshot, call: Call)
    requires s.heap.size > 0
  {
    var n := |s.heap.pools|;
    match call
    case Init => true
    case InitWithFallback(q) => q < n
    case InitFrom(q) => q < n
    case Fini(p) => p < n
    case AddChunk(p, begin, _) => p < n && begin > 0 && NotFree(Given(call, s.heap.size), s.heap.free)
    case Alloc(p) => p < n
    case AllocContiguous(p, count, align) => p < n && count > 0 && align > 0
    case Free(p, x) => p < n && x in s.used
    case Write(a, _) => EntryOf(a, s.heap.size) in s.used
  }

  /** A word after a call, if its entry is held. */
  function Written(call: Call, a: int, word: int): int {
    if call.Write? && call.address == a then call.value else word
  }

  /** The words of the entries `kept` are as they were, except for what the call wrote. */
  ghost predicate KeepsWords(m': Ram, m: Ram, call: Call, kept: multiset<int>, size: nat)
    requires size > 0
  {
    forall u {:trigger Unfold(u)} :: Unfold(u) ==> SameWords(m', m, call, kept, size)
  }

  ghost predicate SameWords(m': Ram, m: Ram, call: Call, kept: multiset<int>, size: nat)
    requires size > 0
  {
    forall a: int :: EntryOf(a, size) in kept ==> Read(m', a) == Written(call, a, Read(m, a))
  }

  /** What a call does. Entries move between the pools and the holders, and none is lost; memory
      that was not managed before joins; and what is held and not given up stays as it is. */
  ghost predicate Performed(s': Snapshot, s: Snapshot, call: Call) {
    && Account(s) && Account(s') && s'.heap.size == s.heap.size && Legal(s, call)
    && Managed(s') == Managed(s) + (Given(call, s.heap.size) - s.used)
    && s.used - Given(call, s.heap.size) <= s'.used
    && KeepsWords(s'.heap.ram, s.heap.ram, call, s.used - Given(call, s.heap.size), s.heap.size)
  }

  // ---- Single calls ----

  /** What is not free is kept by what keeps everything that is not free. */
  lemma UsedIsKept(m': Ram, m: Ram, call: Call, free: multiset<int>, kept: multiset<int>, size: nat)
    requires size > 0 && KeepsUsed(m', m, free, size) && !call.Write? && forall x :: x in kept ==> x !in free
    ensures KeepsWords(m', m, call, kept, size)
  {
    assert Unfold(0);
    assert SameWords(m', m, call, kept, size);
  }

  lemma SameRam(m: Ram, free: multiset<int>, size: nat)
    requires size > 0
    ensures KeepsUsed(m, m, free, size)
  {
    assert SameUsed(m, m, free, size);
  }

  lemma HeldIsNotFree(s: Snapshot, kept: multiset<int>)
    requires NoDup(Managed(s)) && kept <= s.used
    ensures forall x :: x in kept ==> x !in s.heap.free
  {
    forall x | x in kept
      ensures x !in s.heap.free
    {
      assert Managed(s)[x] <= 1;
    }
  }

  /** Calls in which nothing is given to the pools. */
  lemma HandsOut(s': Snapshot, s: Snapshot, call: Call)
    requires Account(s) && Linked(s'.heap, -1) && s'.heap.size == s.heap.size && Legal(s, call) && !call.Write?
    requires Given(call, s.heap.size) == multiset{} && Managed(s') == Managed(s) && s.used <= s'.used
    requires KeepsUsed(s'.heap.ram, s.heap.ram, s'.heap.free, s.heap.size)
    ensures Performed(s', s, call)
  {
    assert s.used - multiset{} == s.used;
    HeldIsNotFree(s', s.used);
    UsedIsKept(s'.heap.ram, s.heap.ram, call, s'.heap.free, s.used, s.heap.size);
  }

  /** Calls in which the entries `xs` are given to the pools. */
  lemma TakesBack(s': Snapshot, s: Snapshot, call: Call, xs: multiset<int>)
    requires Account(s) && Linked(s'.heap, -1) && s'.heap.size == s.heap.size && Legal(s, call) && !call.Write?
    requires xs == Given(call, s.heap.size) && NoDup(xs) && NotFree(xs, s.heap.free)
    requires forall x :: x in xs ==> WfEntry(x, s.heap.size)
    requires s'.heap.free == s.heap.free + xs && s'.used == s.used - xs
    requires KeepsUsed(s'.heap.ram, s.heap.ram, s'.heap.free, s.heap.size)
    ensures Performed(s', s, call)
  {
    assert Managed(s') == Managed(s) + (xs - s.used);
    forall x
      ensures Managed(s')[x] <= 1
    {
      assert Managed(s)[x] <= 1;
    }
    HeldIsNotFree(s', s'.used);
    UsedIsKept(s'.heap.ram, s.heap.ram, call, s'.heap.free, s'.used, s.heap.size);
  }

  /** The entries of a chunk that is added. */
  lemma ChunkGiven(begin: nat, length: nat, size: nat, free: multiset<int>)
    requires size > 0 && begin > 0
    ensures var r := Run(AlignUp(begin, size), AlignDown(begin + length, size), size);
            && NoDup(multiset(r)) && (forall x :: x in multiset(r) ==> WfEntry(x, size))
            && (AlignUp(begin, size) >= AlignDown(begin + length, size) ==> r == [])
            && (NotFree(multiset(r), free) ==> forall x :: x in r ==> x !in free)
  {
    var b, e := AlignUp(begin, size), AlignDown(begin + length, size);
    assert forall x :: x in Run(b, e, size) ==> x in multiset(Run(b, e, size));
    AlignBounds(begin, size);
    AlignBounds(begin + length, size);
    RunNoDup(b, e, size);
    forall x | x in Run(b, e, size)
      ensures WfEntry(x, size)
    {
      RunBounds(b, e, size, x);
      RunAligned(b, e, size, x);
    }
  }

  lemma ChunkHeader(m': Ram, m: Ram, begin: nat, length: nat, free: multiset<int>, size: nat)
    requires size >= 16 && begin > 0 && AlignUp(begin, size) < AlignDown(begin + length, size)
    requires WritesHeaders(m', m, {AlignUp(begin, size)})
    requires multiset(Run(AlignUp(begin, size), AlignDown(begin + length, size), size)) <= free
    ensures KeepsUsed(m', m, free, size)
  {
    var r := Run(AlignUp(begin, size), AlignDown(begin + length, size), size);
    AlignBounds(begin, size);
    RunHead(AlignUp(begin, size), AlignDown(begin + length, size), size);
    assert AlignUp(begin, size) in multiset(r);
    HeadersKeepUsed(m', m, {AlignUp(begin, size)}, free, size);
  }

  lemma OneHandedOut(s': Snapshot, s: Snapshot, x: int)
    requires x in s.heap.free && s'.heap.free == s.heap.free - multiset{x} && s'.used == s.used + multiset{x}
    ensures Managed(s') == Managed(s)
  {
  }

  lemma RunHandedOut(s': Snapshot, s: Snapshot, start: int, length: nat, unit: nat)
    requires TookRun(s'.heap, s.heap, length, unit, start)
    requires s'.used == s.used + multiset(Run(start, start + length, s.heap.size))
    ensures Managed(s') == Managed(s) && KeepsUsed(s'.heap.ram, s.heap.ram, s'.heap.free, s.heap.size)
  {
  }

  /** Every header of a free entry or chunk is a word of a free entry. */
  lemma HeadersAreFree(h: Heap, i: nat, x: int)
    requires Linked(h, -1) && i < |h.pools| && x in Stack(h.lists[i], h.size) && Aligned(x, h.size)
    ensures x in h.free && EntryOf(x, h.size) == x && EntryOf(x + 8, h.size) == x
  {
    PoolFacts(h, -1, i);
    assert x in multiset(Stack(h.lists[i], h.size));
    HeaderEntry(x, h.size);
  }

  /** Writes to memory that is not free leave the lists alone. */
  lemma WriteKeepsPool(h: Heap, m: Ram, a: int, i: nat)
    requires Linked(h, -1) && i < |h.pools| && EntryOf(a, h.size) !in h.free
    requires forall b: int :: b != a ==> Read(m, b) == Read(h.ram, b)
    ensures RepPool(m, h.pools[i], h.lists[i])
  {
    var l := h.lists[i];
    PoolRep(h, -1, i);
    forall k | 0 <= k < |l.entries|
      ensures EntryLink(m, l.entries, k)
    {
      InStack(l, h.size, l.entries[k]);
      HeadersAreFree(h, i, l.entries[k]);
      assert EntryLink(h.ram, l.entries, k);
    }
    forall k | 0 <= k < |l.chunks|
      ensures ChunkLink(m, l.chunks, k)
    {
      InStack(l, h.size, l.chunks[k].begin);
      HeadersAreFree(h, i, l.chunks[k].begin);
      assert ChunkLink(h.ram, l.chunks, k);
    }
  }

  lemma InStack(l: Lists, size: nat, x: int)
    requires size > 0 && WfLists(l, size) && !Outside(l, x)
    ensures x in Stack(l, size)
  {
    if x !in Stack(l, size) {
      NotInStack(l, size, x);
    }
  }

  lemma WriteKeepsLinked(h: Heap, a: int, v: int)
    requires Linked(h, -1) && EntryOf(a, h.size) !in h.free
    ensures Linked(h.(ram := h.ram[a := v]), -1)
  {
    var m := h.ram[a := v];
    forall i | 0 <= i < |h.pools|
      ensures RepPool(m, h.pools[i], h.lists[i])
    {
      WriteKeepsPool(h, m, a, i);
    }
    assert Unfold(0);
    assert LinkedLists(h.(ram := m), -1);
  }

  // ---- Calls, as a holder of memory makes them ----

  class Holder {
    const heap: Pools
    ghost var used: multiset<int>

    ghost function Now(): Snapshot
      reads this, heap
    {
      Snapshot(heap.AsHeap(), used)
    }

    constructor (size: nat)
      requires size >= 16
      ensures Account(Now()) && Managed(Now()) == multiset{} && fresh(heap)
    {
      heap := new Pools(size);
      used := multiset{};
    }

    /** Nothing changes hands. */
    method Manage(call: Call)
      requires Account(Now()) && Legal(Now(), call)
      requires call.Init? || call.InitWithFallback? || call.InitFrom? || call.Fini?
      modifies heap
      ensures Performed(Now(), old(Now()), call)
    {
      SameRam(heap.ram, heap.free, heap.size);
      match call {
        case Init => var p := heap.Init();
        case InitWithFallback(q) => var p := heap.InitWithFallback(q);
        case InitFrom(q) => var p := heap.InitFrom(q);
        case Fini(p) => heap.Fini(p);
        case _ =>
      }
      HandsOut(Now(), old(Now()), call);
    }

    method Allocate(p: nat) returns (ret: int)
      requires Account(Now()) && Legal(Now(), Alloc(p))
      modifies this`used, heap
      ensures Performed(Now(), old(Now()), Alloc(p))
    {
      SameRam(heap.ram, heap.free, heap.size);
      ret := heap.Alloc(p);
      if ret != 0 {
        used := used + multiset{ret};
        OneHandedOut(Now(), old(Now()), ret);
      }
      HandsOut(Now(), old(Now()), Alloc(p));
    }

    method AllocateRun(p: nat, count: nat, align: nat) returns (ret: int)
      requires Account(Now()) && Legal(Now(), AllocContiguous(p, count, align))
      modifies this`used, heap
      ensures Performed(Now(), old(Now()), AllocContiguous(p, count, align))
    {
      SameRam(heap.ram, heap.free, heap.size);
      ret := heap.AllocContiguous(p, count, align);
      if ret != 0 {
        ghost var length := count * heap.size;
        used := used + multiset(Run(ret, ret + length, heap.size));
        RunHandedOut(Now(), old(Now()), ret, length, align * heap.size);
      }
      HandsOut(Now(), old(Now()), AllocContiguous(p, count, align));
    }

    /** Memory is given for the first time, or several entries are returned at once. */
    method Give(p: nat, begin: nat, length: nat)
      requires Account(Now()) && Legal(Now(), AddChunk(p, begin, length))
      modifies this`used, heap
      ensures Performed(Now(), old(Now()), AddChunk(p, begin, length))
    {
      ghost var xs := Given(AddChunk(p, begin, length), heap.size);
      ChunkGiven(begin, length, heap.size, heap.free);
      SameRam(heap.ram, heap.free, heap.size);
      var ok := heap.AddChunk(p, begin, length, -1);
      used := used - xs;
      if ok {
        ChunkHeader(heap.ram, old(heap.ram), begin, length, heap.free, heap.size);
      }
      TakesBack(Now(), old(Now()), AddChunk(p, begin, length), xs);
    }

    method Return(p: nat, x: int)
      requires Account(Now()) && Legal(Now(), Free(p, x))
      modifies this`used, heap
      ensures Performed(Now(), old(Now()), Free(p, x))
    {
      HeldIsNotFree(Now(), used);
      heap.Free(p, x, -1);
      HeadersKeepUsed(heap.ram, old(heap.ram), {x}, heap.free, heap.size);
      used := used - multiset{x};
      TakesBack(Now(), old(Now()), Free(p, x), multiset{x});
    }

    /** A holder writes to its memory. */
    method Use(call: Call)
      requires Account(Now()) && Legal(Now(), call) && call.Write?
      modifies heap
      ensures Performed(Now(), old(Now()), call)
    {
      HeldIsNotFree(Now(), used);
      WriteKeepsLinked(heap.AsHeap(), call.address, call.value);
      heap.ram := heap.ram[call.address := call.value];
      assert used - multiset{} == used;
      assert SameWords(heap.ram, old(heap.ram), call, used, heap.size);
    }

    method Perform(call: Call)
      requires Account(Now()) && Legal(Now(), call)
      modifies this`used, heap
      ensures Performed(Now(), old(Now()), call)
    {
      match call {
        case Alloc(p) => var ret := Allocate(p);
        case AllocContiguous(p, count, align) => var ret := AllocateRun(p, count, align);
        case AddChunk(p, begin, length) => Give(p, begin, length);
        case Free(p, x) => Return(p, x);
        case Write(_, _) => Use(call);
        case _ => Manage(call);
      }
    }
  }

  // ---- Runs ----

  ghost predicate IsStep(states: seq<Snapshot>, calls: seq<Call>, i: nat)
    requires |states| == |calls| + 1 && i < |calls|
  {
    Performed(states[i + 1], states[i], calls[i])
  }

  /** Calls one after the other, each legal when it is made. */
  ghost predicate IsRun(states: seq<Snapshot>, calls: seq<Call>) {
    |states| == |calls| + 1 && Account(states[0]) && forall i :: 0 <= i < |calls| ==> IsStep(states, calls, i)
  }

  ghost function Last(states: seq<Snapshot>): Snapshot
    requires states != []
  {
    states[|states| - 1]
  }

  /** What is left of the held entries `used` when those that the calls give up are gone. */
  ghost function Kept(used: multiset<int>, calls: seq<Call>, size: nat): multiset<int>
    requires size > 0
  {
    if calls == [] then used
    else Kept(used, calls[..|calls| - 1], size) - Given(calls[|calls| - 1], size)
  }

  /** The last value written at `a`, or the value at the start. */
  ghost function LastWord(calls: seq<Call>, a: int, word: int): int {
    if calls == [] then word else Written(calls[|calls| - 1], a, LastWord(calls[..|calls| - 1], a, word))
  }

  /** The memory that was added in the run and that the pools did not know before. */
  ghost function Brought(states: seq<Snapshot>, calls: seq<Call>, size: nat): multiset<int>
    requires |states| == |calls| + 1 && size > 0
  {
    if calls == [] then multiset{}
    else
      var n := |calls| - 1;
      Brought(states[..n + 1], calls[..n], size) + (Given(calls[n], size) - states[n].used)
  }

  lemma RunTo(states: seq<Snapshot>, calls: seq<Call>, k: nat)
    requires IsRun(states, calls) && k < |calls|
    ensures IsRun(states[..k + 1], calls[..k]) && IsStep(states, calls, k)
  {
    var t, c := states[..k + 1], calls[..k];
    forall i | 0 <= i < |c|
      ensures IsStep(t, c, i)
    {
      assert IsStep(states, calls, i);
    }
  }

  lemma RunPrefix(states: seq<Snapshot>, calls: seq<Call>)
    requires IsRun(states, calls) && calls != []
    ensures IsRun(states[..|calls|], calls[..|calls| - 1]) && IsStep(states, calls, |calls| - 1)
    ensures Last(states[..|calls|]) == states[|calls| - 1]
  {
    RunTo(states, calls, |calls| - 1);
  }

  /** In any run, the free entries and the held ones together are those there were at the start and
      those that were added: none is lost, and none is free and held or held twice. Without chunks that
      are added, they are the same. */
  lemma {:induction false} EntriesAreConserved(states: seq<Snapshot>, calls: seq<Call>)
    requires IsRun(states, calls)
    ensures Account(Last(states)) && Last(states).heap.size == states[0].heap.size
    ensures Managed(Last(states)) == Managed(states[0]) + Brought(states, calls, states[0].heap.size)
    ensures (forall i :: 0 <= i < |calls| ==> !calls[i].AddChunk?) ==> Managed(Last(states)) == Managed(states[0])
  {
    if calls != [] {
      var n := |calls| - 1;
      RunPrefix(states, calls);
      EntriesAreConserved(states[..n + 1], calls[..n]);
      if !calls[n].AddChunk? {
        NothingBrought(states[n + 1], states[n], calls[n]);
      }
    }
  }

  /** Only a chunk that is added can bring memory that the pools did not know. */
  lemma NothingBrought(s': Snapshot, s: Snapshot, call: Call)
    requires Performed(s', s, call) && !call.AddChunk?
    ensures Managed(s') == Managed(s)
  {
  }

  /** Memory that is held and not given up stays with its holder and behaves as memory: whatever
      calls are made, a word is what was last written to it. */
  lemma {:induction false} HeldMemoryIsStable(states: seq<Snapshot>, calls: seq<Call>, a: int)
    requires IsRun(states, calls)
    ensures var size := states[0].heap.size;
            var kept := Kept(states[0].used, calls, size);
            && kept <= Last(states).used
            && (EntryOf(a, size) in kept ==>
                  Read(Last(states).heap.ram, a) == LastWord(calls, a, Read(states[0].heap.ram, a)))
  {
    if calls != [] {
      var n := |calls| - 1;
      RunPrefix(states, calls);
      EntriesAreConserved(states[..n + 1], calls[..n]);
      HeldMemoryIsStable(states[..n + 1], calls[..n], a);
      HeldStep(states[n + 1], states[n], calls[n], Kept(states[0].used, calls[..n], states[0].heap.size), a);
    }
  }

  lemma HeldStep(s': Snapshot, s: Snapshot, call: Call, kept: multiset<int>, a: int)
    requires Performed(s', s, call) && kept <= s.used
    ensures kept - Given(call, s.heap.size) <= s'.used
    ensures EntryOf(a, s.heap.size) in kept - Given(call, s.heap.size) ==>
              Read(s'.heap.ram, a) == Written(call, a, Read(s.heap.ram, a))
  {
    assert Unfold(0);
    assert kept - Given(call, s.heap.size) <= s.used - Given(call, s.heap.size);
  }

  ghost predicate GivenUp(calls: seq<Call>, x: int, size: nat)
    requires size > 0
  {
    exists k :: 0 <= k < |calls| && x in Given(calls[k], size)
  }

  lemma {:induction false} KeptUnlessGiven(used: multiset<int>, calls: seq<Call>, x: int, size: nat)
    requires size > 0 && x in used && !GivenUp(calls, x, size)
    ensures x in Kept(used, calls, size)
  {
    if calls != [] {
      var n := |calls| - 1;
      assert x !in Given(calls[n], size);
      KeptUnlessGiven(used, calls[..n], x, size);
    }
  }

  /** An entry that is held is not handed out before it was given back. */
  lemma HandedOutOnce(states: seq<Snapshot>, calls: seq<Call>, x: int, k: nat)
    requires IsRun(states, calls) && k < |calls| && x in states[0].used && states[k + 1].used[x] > states[k].used[x]
    ensures GivenUp(calls[..k], x, states[0].heap.size)
  {
    RunTo(states, calls, k);
    assert Managed(states[k + 1])[x] <= 1;
    if !GivenUp(calls[..k], x, states[0].heap.size) {
      HeldMemoryIsStable(states[..k + 1], calls[..k], x);
      KeptUnlessGiven(states[0].used, calls[..k], x, states[0].heap.size);
    }
  }
}
