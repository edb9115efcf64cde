/** Memory regions sent and received in fragments: the builders of `vmlib/ffa.c`, how the sender
    splits a list of constituents with them, and that the receiver gets the same list back. */
module FfaFragments {
  import opened Arithmetic
  import opened Stage2Pte
  import opened Region
  import opened Ownership
  import opened FfaMemory
  import opened FfaPages

  const MAX_FIRST: nat := (HF_MAILBOX_SIZE - CONSTITUENTS_OFFSET) / CONSTITUENT_SIZE

  // ---- Splitting a list ----

  /** The list cut into pieces of `n`, but for the last. */
  function Chunks(cs: seq<Constituent>, n: nat): seq<seq<Constituent>>
    requires n > 0
    decreases |cs|
  {
    if cs == [] then [] else [cs[..Min(n, |cs|)]] + Chunks(cs[Min(n, |cs|)..], n)
  }

  /** What the builders make of a list: as much as fits behind the headers, then full messages. */
  function Fragments(cs: seq<Constituent>): seq<seq<Constituent>> {
    [cs[..Min(MAX_FIRST, |cs|)]] + Chunks(cs[Min(MAX_FIRST, |cs|)..], MAX_FRAGMENT_CONSTITUENTS)
  }

  lemma {:induction false} FlatCons(f: seq<Constituent>, fs: seq<seq<Constituent>>)
    ensures Flat([f] + fs) == f + Flat(fs)
  {
    assert ([f] + fs)[1..] == fs;
  }

  lemma {:induction false} ChunksJoin(cs: seq<Constituent>, n: nat)
    requires n > 0
    ensures Flat(Chunks(cs, n)) == cs
    ensures forall k :: 0 <= k < |Chunks(cs, n)| ==> 1 <= |Chunks(cs, n)[k]| <= n
    ensures forall m: nat :: |Chunks(cs, n)| <= m <==> |cs| <= m * n
    decreases |cs|
  {
    if cs != [] {
      var k := Min(n, |cs|);
      ChunksJoin(cs[k..], n);
      FlatCons(cs[..k], Chunks(cs[k..], n));
      forall m: nat
        ensures |Chunks(cs, n)| <= m <==> |cs| <= m * n
      {
        ChunkCount(|cs|, n, m, |Chunks(cs[k..], n)|);
      }
    } else {
      forall m: nat
        ensures 0 <= m * n
      {
      }
    }
  }

  lemma ChunkCount(len: nat, n: nat, m: nat, rest: nat)
    requires n > 0 && len > 0 && forall j: nat :: rest <= j <==> len - Min(n, len) <= j * n
    ensures 1 + rest <= m <==> len <= m * n
  {
    if m > 0 {
      assert rest <= m - 1 <==> len - Min(n, len) <= (m - 1) * n;
      assert (m - 1) * n == m * n - n;
      assert (m - 1) * n >= 0;
    }
  }

  /** The pieces make up the list, every one fits its message, and none but the first can be empty. */
  lemma FragmentsJoin(cs: seq<Constituent>)
    ensures Flat(Fragments(cs)) == cs
    ensures |Fragments(cs)[0]| <= MAX_FIRST
    ensures forall k :: 1 <= k < |Fragments(cs)| ==> 1 <= |Fragments(cs)[k]| <= MAX_FRAGMENT_CONSTITUENTS
  {
    var n := Min(MAX_FIRST, |cs|);
    ChunksJoin(cs[n..], MAX_FRAGMENT_CONSTITUENTS);
    FlatCons(cs[..n], Chunks(cs[n..], MAX_FRAGMENT_CONSTITUENTS));
  }

  /** The share state's table holds 20 fragments: lists of up to 5116 constituents. */
  lemma FragmentsFitTable(cs: seq<Constituent>)
    ensures |Fragments(cs)| <= MAX_FRAGMENTS <==> |cs| <= 5116
  {
    var n := Min(MAX_FIRST, |cs|);
    ChunksJoin(cs[n..], MAX_FRAGMENT_CONSTITUENTS);
    assert |Chunks(cs[n..], MAX_FRAGMENT_CONSTITUENTS)| <= 19 <==> |cs[n..]| <= 19 * MAX_FRAGMENT_CONSTITUENTS;
  }

  // ---- The builders ----

  function PageCount(cs: seq<Constituent>): nat {
    if cs == [] then 0 else PageCount(cs[..|cs| - 1]) + cs[|cs| - 1].pageCount
  }

  /** Copies as many constituents as `room` holds. */
  method Copy(buffer: array<Constituent>, room: nat, cs: seq<Constituent>) returns (n: nat)
    requires room <= buffer.Length
    modifies buffer
    ensures n == Min(room, |cs|) && buffer[..n] == cs[..n]
  {
    n := |cs|;
    if n > room {
      n := room;
    }
    for i := 0 to n
      invariant buffer[..i] == cs[..i]
    {
      buffer[i] := cs[i];
    }
  }

  /**
    * `ffa_memory_region_init_constituents` for one receiver: the first fragment. All of the list is
    * counted, what does not fit is left for later. Lengths are 32-bit.
    */
  method InitConstituents(buffer: array<Constituent>, maxSize: nat, cs: seq<Constituent>)
    returns (pages: int, totalLength: int, fragmentLength: int, remaining: int)
    requires CONSTITUENTS_OFFSET <= maxSize <= CONSTITUENTS_OFFSET + CONSTITUENT_SIZE * buffer.Length
    modifies buffer
    ensures var n := Min((maxSize - CONSTITUENTS_OFFSET) / CONSTITUENT_SIZE, |cs|);
            && buffer[..n] == cs[..n] && remaining == |cs| - n
            && fragmentLength == (CONSTITUENTS_OFFSET + CONSTITUENT_SIZE * n) % TWO32
            && (maxSize < TWO32 ==> fragmentLength <= maxSize)
    ensures pages == PageCount(cs) % TWO32
    ensures totalLength == (CONSTITUENTS_OFFSET + CONSTITUENT_SIZE * |cs|) % TWO32
  {
    var n := Copy(buffer, (maxSize - CONSTITUENTS_OFFSET) / CONSTITUENT_SIZE, cs);
    pages := 0;
    for i := 0 to |cs|
      invariant pages == PageCount(cs[..i]) % TWO32
    {
      assert cs[..i + 1][..i] == cs[..i];
      pages := (pages + cs[i].pageCount) % TWO32;
    }
    assert cs[..|cs|] == cs;
    totalLength := (CONSTITUENTS_OFFSET + CONSTITUENT_SIZE * |cs|) % TWO32;
    fragmentLength := (CONSTITUENTS_OFFSET + CONSTITUENT_SIZE * n) % TWO32;
    remaining := |cs| - n;
  }

  /** `ffa_memory_fragment_init`: a further fragment, which has no headers. */
  method FragmentInit(buffer: array<Constituent>, maxSize: nat, cs: seq<Constituent>)
    returns (fragmentLength: int, remaining: int)
    requires maxSize <= CONSTITUENT_SIZE * buffer.Length
    modifies buffer
    ensures var n := Min(maxSize / CONSTITUENT_SIZE, |cs|);
            && buffer[..n] == cs[..n] && remaining == |cs| - n && fragmentLength == CONSTITUENT_SIZE * n % TWO32
  {
    var n := Copy(buffer, maxSize / CONSTITUENT_SIZE, cs);
    return CONSTITUENT_SIZE * n % TWO32, |cs| - n;
  }

  method FirstMessage(buffer: array<Constituent>, cs: seq<Constituent>)
    returns (piece: seq<Constituent>, totalLength: int, fragmentLength: int, remaining: nat)
    requires buffer.Length == MAX_FRAGMENT_CONSTITUENTS && CONSTITUENTS_OFFSET + CONSTITUENT_SIZE * |cs| < TWO32
    modifies buffer
    ensures piece == cs[..Min(MAX_FIRST, |cs|)] && remaining == |cs| - |piece|
    ensures totalLength == CONSTITUENTS_OFFSET + CONSTITUENT_SIZE * |cs|
    ensures fragmentLength == CONSTITUENTS_OFFSET + CONSTITUENT_SIZE * |piece|
  {
    var pages, rest;
    pages, totalLength, fragmentLength, rest := InitConstituents(buffer, HF_MAILBOX_SIZE, cs);
    remaining := rest;
    piece := buffer[..|cs| - remaining];
  }

  method NextMessage(buffer: array<Constituent>, cs: seq<Constituent>)
    returns (piece: seq<Constituent>, fragmentLength: int, remaining: nat)
    requires buffer.Length == MAX_FRAGMENT_CONSTITUENTS && CONSTITUENT_SIZE * |cs| < TWO32
    modifies buffer
    ensures piece == cs[..Min(MAX_FRAGMENT_CONSTITUENTS, |cs|)] && remaining == |cs| - |piece|
    ensures fragmentLength == CONSTITUENT_SIZE * |piece|
  {
    var rest;
    fragmentLength, rest := FragmentInit(buffer, HF_MAILBOX_SIZE, cs);
    remaining := rest;
    piece := buffer[..|cs| - remaining];
  }

  lemma NextChunk(cs: seq<Constituent>, at: nat, piece: seq<Constituent>, fs: seq<seq<Constituent>>)
    requires at < |cs| && piece == cs[at..][..Min(MAX_FRAGMENT_CONSTITUENTS, |cs| - at)]
    ensures fs + Chunks(cs[at..], MAX_FRAGMENT_CONSTITUENTS)
         == fs + [piece] + Chunks(cs[at + |piece|..], MAX_FRAGMENT_CONSTITUENTS)
  {
    assert cs[at..][|piece|..] == cs[at + |piece|..];
    assert fs + ([piece] + Chunks(cs[at + |piece|..], MAX_FRAGMENT_CONSTITUENTS))
        == fs + [piece] + Chunks(cs[at + |piece|..], MAX_FRAGMENT_CONSTITUENTS);
  }

  /**
    * The loop of a sender (`test/vmapi/common/ffa.c`): the first fragment behind the headers, then
    * one fragment after the other until nothing remains. `fs` are the contents of the messages.
    */
  method SplitList(cs: seq<Constituent>) returns (fs: seq<seq<Constituent>>, sentLength: int, totalLength: int)
    requires CONSTITUENTS_OFFSET + CONSTITUENT_SIZE * |cs| < TWO32
    ensures fs == Fragments(cs) && sentLength == totalLength == CONSTITUENTS_OFFSET + CONSTITUENT_SIZE * |cs|
  {
    var nothing := Constituent(0, 0);
    var buffer := new Constituent[MAX_FRAGMENT_CONSTITUENTS](_ => nothing);
    var piece, fragmentLength;
    var remaining: nat;
    piece, totalLength, sentLength, remaining := FirstMessage(buffer, cs);
    fs := [piece];
    while remaining != 0
      invariant remaining <= |cs|
      invariant Fragments(cs) == fs + Chunks(cs[|cs| - remaining..], MAX_FRAGMENT_CONSTITUENTS)
      invariant sentLength == CONSTITUENTS_OFFSET + CONSTITUENT_SIZE * (|cs| - remaining)
      decreases remaining
    {
      ghost var at := |cs| - remaining;
      piece, fragmentLength, remaining := NextMessage(buffer, cs[|cs| - remaining..]);
      NextChunk(cs, at, piece, fs);
      fs := fs + [piece];
      sentLength := sentLength + fragmentLength;
    }
    assert cs[|cs|..] == [];
  }

  /** `ffa_retrieved_memory_region_init`: the response to a retrieve request, which has to hold all it is given. */
  method RetrievedInit(buffer: array<Constituent>, maxSize: nat, fragment: seq<Constituent>)
    returns (ok: bool, fragmentLength: int)
    requires maxSize <= CONSTITUENTS_OFFSET + CONSTITUENT_SIZE * buffer.Length
    modifies buffer
    ensures ok <==> FitsResponse(fragment, maxSize)
    ensures ok ==> |fragment| <= buffer.Length && buffer[..|fragment|] == fragment
    ensures ok ==> fragmentLength == CONSTITUENTS_OFFSET + CONSTITUENT_SIZE * |fragment|
  {
    if CONSTITUENTS_OFFSET + CONSTITUENT_SIZE * |fragment| > maxSize {
      return false, 0;
    }
    var n := Copy(buffer, |fragment|, fragment);
    return true, CONSTITUENTS_OFFSET + CONSTITUENT_SIZE * n;
  }

  predicate FitsResponse(fragment: seq<Constituent>, maxSize: nat) {
    CONSTITUENTS_OFFSET + CONSTITUENT_SIZE * |fragment| <= maxSize
  }

  // ---- Over every run, what was taken in fits what goes out ----

  predicate ShareFits(sh: Share) {
    sh.Share? ==>
      && 1 <= |sh.fragments| <= MAX_FRAGMENTS && sh.desc.offset >= CONSTITUENTS_OFFSET
      && FitsResponse(sh.fragments[0], HF_MAILBOX_SIZE)
      && forall k :: 1 <= k < |sh.fragments| ==> 1 <= |sh.fragments[k]| <= MAX_FRAGMENT_CONSTITUENTS
  }

  predicate SharesFit(shares: seq<Share>) {
    forall h :: 0 <= h < |shares| ==> ShareFits(shares[h])
  }

  lemma CompleteFits(s: State, h: nat, clearFails: bool)
    requires ValidVms(s) && IsLive(s, h) && s.shares[h].desc.sender < |s.vms|
    requires ValidPermissions(s.shares[h].desc.permissions)
    requires SharesFit(s.shares)
    ensures SharesFit(SendComplete(s, h, clearFails).state.shares)
  {
    assert ShareFits(s.shares[h]);
  }

  lemma SendFits(s: State, caller: VmId, func: ShareFunc, d: Descriptor, fragment: seq<Constituent>, clearFails: bool)
    requires ValidVms(s) && caller < |s.vms| && SharesFit(s.shares)
    ensures SharesFit(Send(s, caller, func, d, fragment, clearFails).state.shares)
  {
    var h := FirstFree(s.shares);
    if s.pool != [] && h < |s.shares| {
      var sh := Share(func, StoredDescriptor(func, d), [fragment], [s.pool[0]], false, ABSENT_MODE, 0);
      var s1 := s.(shares := s.shares[h := sh], pool := s.pool[1..]);
      if d.sender < |s.vms| && ShareFits(sh) && ValidPermissions(sh.desc.permissions) {
        CompleteFits(s1, h, clearFails);
      }
    }
  }

  lemma SendFragmentFits(s: State, caller: VmId, h: nat, fragment: seq<Constituent>, clearFails: bool)
    requires ValidVms(s) && ValidShares(s) && caller < |s.vms| && SharesFit(s.shares)
    ensures SharesFit(SendFragment(s, caller, h, fragment, clearFails).state.shares)
  {
    if s.pool != [] && IsLive(s, h) {
      var sh := s.shares[h];
      assert ShareFits(sh);
      var sh' := sh.(fragments := sh.fragments + [fragment], pages := sh.pages + [s.pool[0]]);
      var s1 := s.(pool := s.pool[1..], shares := s.shares[h := sh']);
      if ShareFits(sh') {
        CompleteFits(s1, h, clearFails);
      }
    }
  }

  lemma StepFits(s: State, caller: VmId, c: Call)
    requires ValidVms(s) && ValidShares(s) && caller < |s.vms| && SharesFit(s.shares)
    ensures SharesFit(Step(s, caller, c).state.shares)
  {
    match c
    case CallSend(func, d, fragment, clearFails) => SendFits(s, caller, func, d, fragment, clearFails);
    case CallSendFragment(h, fragment, clearFails) => SendFragmentFits(s, caller, h, fragment, clearFails);
    case CallRetrieve(q) => RetrieveFits(s, caller, q);
    case CallRetrieveFragment(h, offset) => RetrieveFragmentFits(s, caller, h, offset);
    case CallRelinquish(h, clear, clearFails) => RelinquishFits(s, caller, h, clear, clearFails);
    case CallReclaim(h, clear, clearFails) => ReclaimFits(s, caller, h, clear, clearFails);
  }

  lemma RetrieveFits(s: State, caller: VmId, q: Request)
    requires ValidVms(s) && ValidShares(s) && caller < |s.vms| && SharesFit(s.shares)
    ensures var r := Retrieve(s, caller, q);
            && SharesFit(r.state.shares)
            && (r.status.Received? ==> FitsResponse(r.status.constituents, HF_MAILBOX_SIZE))
  {
    assert IsLive(s, q.handle) ==> ShareFits(s.shares[q.handle]);
  }

  lemma RetrieveFragmentFits(s: State, caller: VmId, h: nat, offset: nat)
    requires SharesFit(s.shares)
    ensures var r := RetrieveFragment(s, caller, h, offset);
            && SharesFit(r.state.shares)
            && (r.status.Received? ==> |r.status.constituents| <= MAX_FRAGMENT_CONSTITUENTS)
  {
    assert IsLive(s, h) ==> ShareFits(s.shares[h]);
  }

  lemma RelinquishFits(s: State, caller: VmId, h: nat, clear: bool, clearFails: bool)
    requires ValidVms(s) && caller < |s.vms| && SharesFit(s.shares)
    ensures SharesFit(Relinquish(s, caller, h, clear, clearFails).state.shares)
  {
    assert IsLive(s, h) ==> ShareFits(s.shares[h]);
  }

  lemma ReclaimFits(s: State, caller: VmId, h: nat, clear: bool, clearFails: bool)
    requires ValidVms(s) && caller < |s.vms| && SharesFit(s.shares)
    ensures SharesFit(Reclaim(s, caller, h, clear, clearFails).state.shares)
  {
    assert IsLive(s, h) ==> ShareFits(s.shares[h]);
  }

  lemma {:induction false} RunFits(s: State, events: seq<Event>)
    requires ValidVms(s) && ValidShares(s) && SharesFit(s.shares) && forall e :: e in events ==> e.caller < |s.vms|
    ensures SharesFit(RunAll(s, events).shares)
    decreases |events|
  {
    if events != [] {
      StepFits(s, events[0].caller, events[0].call);
      StepKeeps(s, events[0].caller, events[0].call);
      RunFits(Step(s, events[0].caller, events[0].call).state, events[1..]);
    }
  }

  /**
    * Whatever was sent before, in whatever pieces: a fragment that a receiver is given fits its
    * mailbox, so neither CHECK on the builders' results can fail.
    */
  lemma ResponsesFit(s: State, events: seq<Event>, caller: VmId, c: Call)
    requires ValidVms(s) && ValidShares(s) && SharesFit(s.shares) && forall e :: e in events ==> e.caller < |s.vms|
    requires caller < |RunAll(s, events).vms|
    ensures var r := Step(RunAll(s, events), caller, c).status;
            && (c.CallRetrieve? && r.Received? ==> FitsResponse(r.constituents, HF_MAILBOX_SIZE))
            && (c.CallRetrieveFragment? && r.Received? ==> |r.constituents| <= MAX_FRAGMENT_CONSTITUENTS)
  {
    RunFits(s, events);
    if c.CallRetrieve? {
      RetrieveFits(RunAll(s, events), caller, c.request);
    } else if c.CallRetrieveFragment? {
      RetrieveFragmentFits(RunAll(s, events), caller, c.handle, c.offset);
    }
  }
}
