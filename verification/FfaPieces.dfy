/** A memory region sent in pieces and retrieved in pieces, while all VMs go on making calls: the
    receiver gets the list of constituents that the sender split. */
module FfaPieces {
  import opened Arithmetic
  import opened Stage2Pte
  import opened Region
  import opened RegionMode
  import opened Ownership
  import opened FfaMemory
  import opened FfaOwnership
  import opened FfaPages
  import opened FfaFragments

  // ---- Calls in between ----

  /** The call is about another share, or its caller is neither the sender nor the receiver of this one. */
  predicate Elsewhere(s: State, e: Event, h: nat)
    requires IsLive(s, h)
  {
    HandleOf(s, e.call) != h || (e.caller != s.shares[h].desc.sender && e.caller != s.shares[h].desc.receiver)
  }

  /** All calls of the run are elsewhere, and lead from `s` to `s'`. */
  ghost predicate Between(s': State, s: State, events: seq<Event>, h: nat)
    decreases |events|
  {
    if events == [] then s' == s
    else
      && ValidVms(s) && ValidShares(s) && IsLive(s, h) && events[0].caller < |s.vms| && Elsewhere(s, events[0], h)
      && Between(s', Step(s, events[0].caller, events[0].call).state, events[1..], h)
  }

  /** Share `h` is as it was, in a state in which calls can be made. */
  ghost predicate Undisturbed(s': State, s: State, h: nat) {
    && ValidVms(s') && ValidShares(s') && |s'.vms| == |s.vms| && IsLive(s, h) && IsLive(s', h)
    && s'.shares[h] == s.shares[h]
  }

  lemma ElsewhereKeeps(s: State, caller: VmId, c: Call, h: nat)
    requires ValidVms(s) && ValidShares(s) && IsLive(s, h) && caller < |s.vms| && Elsewhere(s, Event(caller, c), h)
    ensures Undisturbed(Step(s, caller, c).state, s, h)
  {
    StepKeeps(s, caller, c);
  }

  lemma {:induction false} BetweenKeeps(s': State, s: State, events: seq<Event>, h: nat)
    requires ValidVms(s) && ValidShares(s) && IsLive(s, h) && Between(s', s, events, h)
    ensures Undisturbed(s', s, h)
    decreases |events|
  {
    if events != [] {
      ElsewhereKeeps(s, events[0].caller, events[0].call, h);
      BetweenKeeps(s', Step(s, events[0].caller, events[0].call).state, events[1..], h);
    }
  }

  /** Call `c` of VM `caller` in state `s` has the outcome `o`. */
  ghost predicate Called(s: State, caller: VmId, c: Call, o: Outcome) {
    forall k {:trigger Unfold(k)} :: Unfold(k) ==>
      ValidVms(s) && ValidShares(s) && caller < |s.vms| && o == Step(s, caller, c)
  }

  /** A call of the sender or the receiver, and the calls of all VMs that come after it. */
  datatype Turn = Turn(before: State, outcome: Outcome, events: seq<Event>)

  ghost predicate Follow(next: State, turn: Turn, h: nat) {
    forall k {:trigger Unfold(k)} :: Unfold(k) ==> Between(next, turn.outcome.state, turn.events, h)
  }

  // ---- Sending ----

  /** The sender's calls: the first piece with the headers, then the others to the handle it was given. */
  ghost predicate Sending(caller: VmId, func: ShareFunc, d: Descriptor, fs: seq<seq<Constituent>>, clearFails: bool,
                          turns: seq<Turn>) {
    && 1 <= |turns| == |fs| && Called(turns[0].before, caller, CallSend(func, d, fs[0], clearFails), turns[0].outcome)
    && forall k :: 1 <= k < |turns| ==> SendsNext(caller, fs[k], clearFails, turns, k)
  }

  ghost predicate SendsNext(caller: VmId, fragment: seq<Constituent>, clearFails: bool, turns: seq<Turn>, k: nat)
    requires 1 <= k < |turns|
  {
    var h := FirstFree(turns[0].before.shares);
    && Follow(turns[k].before, turns[k - 1], h)
    && Called(turns[k].before, caller, CallSendFragment(h, fragment, clearFails), turns[k].outcome)
  }

  /** What the checks of the first call ask for, and a share state. */
  predicate Sendable(s: State, caller: VmId, func: ShareFunc, d: Descriptor) {
    && ValidVms(s) && ValidShares(s) && caller < |s.vms| && d.sender == caller && d.receiver < |s.vms|
    && d.receiver != caller
    && !d.otherFlags && !(func == ShareMemory && d.clear) && SendPermissionsValid(func, d.permissions)
    && d.offset == CONSTITUENTS_OFFSET && FirstFree(s.shares) < |s.shares|
  }

  predicate Pieces(fs: seq<seq<Constituent>>, d: Descriptor) {
    && fs != [] && d.count == |Flat(fs)| && FitsResponse(fs[0], HF_MAILBOX_SIZE)
    && forall k :: 1 <= k < |fs| ==> 1 <= |fs[k]| <= MAX_FRAGMENT_CONSTITUENTS
  }

  /** Every call finds a page for its fragment. */
  predicate HasPages(turns: seq<Turn>) {
    forall k :: 0 <= k < |turns| ==> turns[k].before.pool != []
  }

  /** Share `h` has taken in the pieces `got`, and waits for more. */
  predicate Holds(s: State, caller: VmId, h: nat, func: ShareFunc, d: Descriptor, got: seq<seq<Constituent>>) {
    && ValidVms(s) && ValidShares(s) && caller < |s.vms| && IsLive(s, h)
    && var sh := s.shares[h];
       sh.func == func && sh.desc == StoredDescriptor(func, d) && sh.fragments == got && !sh.complete
         && sh.retrieved == 0
  }

  /** The share state that the receiver has got `k` fragments of. */
  predicate Delivered(s: State, h: nat, fs: seq<seq<Constituent>>, receiver: VmId, k: nat) {
    && IsLive(s, h) && s.shares[h].complete && s.shares[h].fragments == fs && s.shares[h].desc.receiver == receiver
    && s.shares[h].desc.offset == CONSTITUENTS_OFFSET && s.shares[h].retrieved == k
  }

  /** What is known after the first `k` pieces: if there are more, page tables have not been touched
      and the offset asked for is what has been sent so far. */
  predicate Taken(o: Outcome, before: State, caller: VmId, h: nat, func: ShareFunc, d: Descriptor,
                  fs: seq<seq<Constituent>>, k: nat)
    requires k <= |fs|
  {
    if k < |fs| then
      && o.status == NextFragment(h, CONSTITUENTS_OFFSET + CONSTITUENT_SIZE * |Flat(fs[..k])|)
      && o.state.vms == before.vms && Holds(o.state, caller, h, func, d, fs[..k])
    else
      !o.status.NextFragment? && (o.status.Sent? ==> o.status == Sent(h) && Delivered(o.state, h, fs, d.receiver, 0))
  }

  lemma {:induction false} FlatGrows(fs: seq<seq<Constituent>>, k: nat)
    requires k < |fs|
    ensures Flat(fs[..k + 1]) == Flat(fs[..k]) + fs[k] && |Flat(fs[..k])| + |fs[k]| <= |Flat(fs)|
    ensures k + 1 < |fs| && (forall j :: 1 <= j < |fs| ==> fs[j] != []) ==> |Flat(fs[..k + 1])| < |Flat(fs)|
    decreases |fs| - k
  {
    assert fs[..k + 1] == fs[..k] + [fs[k]];
    FlatSnoc(fs[..k], fs[k]);
    if k + 1 < |fs| {
      FlatGrows(fs, k + 1);
    } else {
      assert fs[..k + 1] == fs;
    }
  }

  /** The last piece is in. */
  lemma CompleteTakes(s: State, caller: VmId, h: nat, func: ShareFunc, d: Descriptor, fs: seq<seq<Constituent>>,
                      clearFails: bool)
    requires Holds(s, caller, h, func, d, fs) && d.offset == CONSTITUENTS_OFFSET
    ensures var o := SendComplete(s, h, clearFails);
            !o.status.NextFragment?
              && (o.status.Sent? ==> o.status == Sent(h) && Delivered(o.state, h, fs, d.receiver, 0))
  {
  }

  lemma FirstTaken(s: State, caller: VmId, func: ShareFunc, d: Descriptor, fs: seq<seq<Constituent>>,
                   clearFails: bool, o: Outcome)
    requires Sendable(s, caller, func, d) && Pieces(fs, d) && s.pool != []
    requires Called(s, caller, CallSend(func, d, fs[0], clearFails), o)
    ensures Taken(o, s, caller, FirstFree(s.shares), func, d, fs, 1)
  {
    var h := FirstFree(s.shares);
    var t := s.(shares := s.shares[h := Share(func, StoredDescriptor(func, d), [fs[0]], [s.pool[0]], false,
                                              ABSENT_MODE, 0)],
                pool := s.pool[1..]);
    assert Unfold(0);
    FlatGrows(fs, 0);
    assert fs[..0] == [] && fs[..1] == [fs[0]];
    assert |fs| == 1 ==> fs[..1] == fs;
    assert Holds(t, caller, h, func, d, fs[..1]);
    if |fs| == 1 {
      CompleteTakes(t, caller, h, func, d, fs, clearFails);
    }
  }

  lemma NextTaken(s: State, caller: VmId, h: nat, func: ShareFunc, d: Descriptor, fs: seq<seq<Constituent>>,
                  clearFails: bool, k: nat, o: Outcome)
    requires 1 <= k < |fs| && k < MAX_FRAGMENTS && Pieces(fs, d) && Holds(s, caller, h, func, d, fs[..k])
    requires s.pool != []
    requires d.offset == CONSTITUENTS_OFFSET && d.sender == caller
    requires Called(s, caller, CallSendFragment(h, fs[k], clearFails), o)
    ensures Taken(o, s, caller, h, func, d, fs, k + 1)
  {
    var sh := s.shares[h];
    var t := s.(pool := s.pool[1..],
                shares := s.shares[h := sh.(fragments := sh.fragments + [fs[k]], pages := sh.pages + [s.pool[0]])]);
    assert Unfold(0);
    FlatGrows(fs, k);
    assert fs[..k + 1] == fs[..k] + [fs[k]];
    assert k + 1 == |fs| ==> fs[..k + 1] == fs;
    assert Holds(t, caller, h, func, d, fs[..k + 1]);
    if k + 1 == |fs| {
      CompleteTakes(t, caller, h, func, d, fs, clearFails);
    }
  }

  lemma HoldsStill(s': State, turn: Turn, caller: VmId, h: nat, func: ShareFunc, d: Descriptor,
                   got: seq<seq<Constituent>>)
    requires Follow(s', turn, h) && Holds(turn.outcome.state, caller, h, func, d, got)
    ensures Holds(s', caller, h, func, d, got)
  {
    assert Unfold(0);
    BetweenKeeps(s', turn.outcome.state, turn.events, h);
  }

  lemma {:induction false} SentSoFar(caller: VmId, func: ShareFunc, d: Descriptor, fs: seq<seq<Constituent>>,
                                     clearFails: bool, turns: seq<Turn>, k: nat)
    requires Sending(caller, func, d, fs, clearFails, turns) && k < |turns| && k < MAX_FRAGMENTS
    requires Sendable(turns[0].before, caller, func, d) && Pieces(fs, d) && HasPages(turns)
    ensures Taken(turns[k].outcome, turns[k].before, caller, FirstFree(turns[0].before.shares), func, d, fs, k + 1)
    decreases k
  {
    var h := FirstFree(turns[0].before.shares);
    if k == 0 {
      FirstTaken(turns[0].before, caller, func, d, fs, clearFails, turns[0].outcome);
    } else {
      SentSoFar(caller, func, d, fs, clearFails, turns, k - 1);
      assert SendsNext(caller, fs[k], clearFails, turns, k);
      HoldsStill(turns[k].before, turns[k - 1], caller, h, func, d, fs[..k]);
      NextTaken(turns[k].before, caller, h, func, d, fs, clearFails, k, turns[k].outcome);
    }
  }

  /** The share state has no room for a 21st piece: it is given up, and with it what was sent. */
  lemma OneTooMany(caller: VmId, func: ShareFunc, d: Descriptor, fs: seq<seq<Constituent>>, clearFails: bool,
                   turns: seq<Turn>)
    requires Sending(caller, func, d, fs, clearFails, turns) && |fs| > MAX_FRAGMENTS
    requires Sendable(turns[0].before, caller, func, d) && Pieces(fs, d) && HasPages(turns)
    ensures var o := turns[MAX_FRAGMENTS].outcome;
            o.status == Error(NoMemory) && !IsLive(o.state, FirstFree(turns[0].before.shares))
  {
    var k, h := MAX_FRAGMENTS, FirstFree(turns[0].before.shares);
    SentSoFar(caller, func, d, fs, clearFails, turns, k - 1);
    assert SendsNext(caller, fs[k], clearFails, turns, k);
    HoldsStill(turns[k].before, turns[k - 1], caller, h, func, d, fs[..k]);
    Refused(turns[k].before, caller, h, fs[k], clearFails, turns[k].outcome);
  }

  lemma Refused(s: State, caller: VmId, h: nat, fragment: seq<Constituent>, clearFails: bool, o: Outcome)
    requires Called(s, caller, CallSendFragment(h, fragment, clearFails), o)
    requires 1 <= |fragment| <= MAX_FRAGMENT_CONSTITUENTS
    requires s.pool != [] && IsLive(s, h) && s.shares[h].desc.sender == caller && !s.shares[h].complete
    requires |s.shares[h].fragments| == MAX_FRAGMENTS
    ensures o.status == Error(NoMemory) && !IsLive(o.state, h)
  {
    assert Unfold(0);
  }

  lemma CalledIsValid(s: State, caller: VmId, c: Call, o: Outcome)
    requires Called(s, caller, c, o)
    ensures ValidVms(o.state) && ValidShares(o.state)
  {
    assert Unfold(0);
    StepKeeps(s, caller, c);
  }

  lemma LastIsValid(caller: VmId, func: ShareFunc, d: Descriptor, fs: seq<seq<Constituent>>, clearFails: bool,
                    turns: seq<Turn>)
    requires Sending(caller, func, d, fs, clearFails, turns)
    ensures var s := turns[|turns| - 1].outcome.state; ValidVms(s) && ValidShares(s)
  {
    var k, h := |turns| - 1, FirstFree(turns[0].before.shares);
    if k == 0 {
      CalledIsValid(turns[0].before, caller, CallSend(func, d, fs[0], clearFails), turns[0].outcome);
    } else {
      assert SendsNext(caller, fs[k], clearFails, turns, k);
      CalledIsValid(turns[k].before, caller, CallSendFragment(h, fs[k], clearFails), turns[k].outcome);
    }
  }

  // ---- Receiving ----

  /** All the constituents received. */
  function Got(turns: seq<Turn>): seq<Constituent> {
    if turns == [] then []
    else
      var o := turns[|turns| - 1].outcome;
      Got(turns[..|turns| - 1]) + if o.status.Received? then o.status.constituents else []
  }

  /** The receiver's calls: the request, then the other fragments, each asked for at the offset it has got to. */
  ghost predicate Receiving(caller: VmId, q: Request, turns: seq<Turn>) {
    && turns != [] && Called(turns[0].before, caller, CallRetrieve(q), turns[0].outcome)
    && forall k :: 1 <= k < |turns| ==> ReceivesNext(caller, q.handle, turns, k)
  }

  ghost predicate ReceivesNext(caller: VmId, h: nat, turns: seq<Turn>, k: nat)
    requires 1 <= k < |turns|
  {
    && Follow(turns[k].before, turns[k - 1], h)
    && Called(turns[k].before, caller,
              CallRetrieveFragment(h, CONSTITUENTS_OFFSET + CONSTITUENT_SIZE * |Got(turns[..k])|), turns[k].outcome)
  }

  lemma FirstDelivered(s: State, caller: VmId, q: Request, fs: seq<seq<Constituent>>, o: Outcome)
    requires fs != [] && Delivered(s, q.handle, fs, caller, 0) && Called(s, caller, CallRetrieve(q), o)
    requires o.status.Received?
    ensures o.status.constituents == fs[0]
    ensures |fs| > 1 ==> Delivered(o.state, q.handle, fs, caller, 1) && ValidVms(o.state) && ValidShares(o.state)
  {
    CalledIsValid(s, caller, CallRetrieve(q), o);
    assert Unfold(0);
  }

  lemma NextDelivered(s: State, caller: VmId, h: nat, fs: seq<seq<Constituent>>, n: nat, o: Outcome)
    requires 1 <= n < |fs| && Delivered(s, h, fs, caller, n)
    requires Called(s, caller, CallRetrieveFragment(h, CONSTITUENTS_OFFSET + CONSTITUENT_SIZE * |Flat(fs[..n])|), o)
    ensures o.status == Received(fs[n])
    ensures n + 1 < |fs| ==> Delivered(o.state, h, fs, caller, n + 1) && ValidVms(o.state) && ValidShares(o.state)
  {
    CalledIsValid(s, caller, CallRetrieveFragment(h, CONSTITUENTS_OFFSET + CONSTITUENT_SIZE * |Flat(fs[..n])|), o);
    assert Unfold(0);
  }

  lemma DeliveredStill(s': State, turn: Turn, h: nat, fs: seq<seq<Constituent>>, receiver: VmId, n: nat)
    requires Follow(s', turn, h) && Delivered(turn.outcome.state, h, fs, receiver, n)
    requires ValidVms(turn.outcome.state) && ValidShares(turn.outcome.state)
    ensures Delivered(s', h, fs, receiver, n)
  {
    assert Unfold(0);
    BetweenKeeps(s', turn.outcome.state, turn.events, h);
  }

  ghost predicate Waits(s: State, h: nat, fs: seq<seq<Constituent>>, receiver: VmId, k: nat) {
    k < |fs| ==> Delivered(s, h, fs, receiver, k) && ValidVms(s) && ValidShares(s)
  }

  lemma ReceivedNext(caller: VmId, h: nat, fs: seq<seq<Constituent>>, turns: seq<Turn>, n: nat)
    requires 1 <= n < |turns| <= |fs| && ReceivesNext(caller, h, turns, n) && Got(turns[..n]) == Flat(fs[..n])
    requires Waits(turns[n - 1].outcome.state, h, fs, caller, n)
    ensures turns[n].outcome.status == Received(fs[n]) && Waits(turns[n].outcome.state, h, fs, caller, n + 1)
  {
    DeliveredStill(turns[n].before, turns[n - 1], h, fs, caller, n);
    NextDelivered(turns[n].before, caller, h, fs, n, turns[n].outcome);
  }

  lemma GotNext(fs: seq<seq<Constituent>>, turns: seq<Turn>, n: nat)
    requires n < |turns| <= |fs| && turns[n].outcome.status == Received(fs[n]) && Got(turns[..n]) == Flat(fs[..n])
    ensures Got(turns[..n + 1]) == Flat(fs[..n + 1])
  {
    FlatGrows(fs, n);
    assert turns[..n + 1][..n] == turns[..n];
  }

  lemma {:induction false} ReceivedSoFar(caller: VmId, q: Request, fs: seq<seq<Constituent>>, turns: seq<Turn>, n: nat)
    requires Receiving(caller, q, turns) && Delivered(turns[0].before, q.handle, fs, caller, 0)
    requires turns[0].outcome.status.Received?
    requires n < |turns| <= |fs|
    ensures turns[n].outcome.status == Received(fs[n]) && Got(turns[..n + 1]) == Flat(fs[..n + 1])
    ensures Waits(turns[n].outcome.state, q.handle, fs, caller, n + 1)
    decreases n
  {
    if n == 0 {
      assert fs[..0] == [];
      FirstDelivered(turns[0].before, caller, q, fs, turns[0].outcome);
    } else {
      ReceivedSoFar(caller, q, fs, turns, n - 1);
      assert ReceivesNext(caller, q.handle, turns, n);
      ReceivedNext(caller, q.handle, fs, turns, n);
    }
    GotNext(fs, turns, n);
  }

  // ---- Both ----

  ghost predicate Trip(caller: VmId, func: ShareFunc, d: Descriptor, fs: seq<seq<Constituent>>, clearFails: bool,
                       sends: seq<Turn>, q: Request, receipts: seq<Turn>) {
    && Sending(caller, func, d, fs, clearFails, sends) && Receiving(d.receiver, q, receipts) && |receipts| == |fs|
    && Sendable(sends[0].before, caller, func, d) && HasPages(sends)
    && Follow(receipts[0].before, sends[|sends| - 1], FirstFree(sends[0].before.shares))
  }

  /**
    * Any list of constituents that the builders can split, while any VM makes any calls about other
    * shares, and VMs that are neither sender nor receiver make any calls at all: no call but the last
    * one of the sender touches a page table, the offsets asked for are what has been sent, and a
    * receiver that can retrieve the region gets the same list back.
    */
  lemma PiecesRoundTrip(caller: VmId, func: ShareFunc, d: Descriptor, cs: seq<Constituent>, clearFails: bool,
                        sends: seq<Turn>, q: Request, receipts: seq<Turn>)
    requires Trip(caller, func, d, Fragments(cs), clearFails, sends, q, receipts) && d.count == |cs|
    requires |Fragments(cs)| <= MAX_FRAGMENTS
    ensures forall k :: 0 <= k < |sends| - 1 ==>
              && sends[k].outcome.status == NextFragment(FirstFree(sends[0].before.shares),
                                                         CONSTITUENTS_OFFSET
                                                           + CONSTITUENT_SIZE * |Flat(Fragments(cs)[..k + 1])|)
              && sends[k].outcome.state.vms == sends[k].before.vms
    ensures !sends[|sends| - 1].outcome.status.NextFragment?
    ensures sends[|sends| - 1].outcome.status == Sent(q.handle) && receipts[0].outcome.status.Received? ==>
              Got(receipts) == cs
  {
    FragmentsJoin(cs);
    PiecesSent(caller, func, d, Fragments(cs), clearFails, sends, q, receipts);
    PiecesReceived(caller, func, d, Fragments(cs), clearFails, sends, q, receipts);
  }

  lemma PiecesSent(caller: VmId, func: ShareFunc, d: Descriptor, fs: seq<seq<Constituent>>, clearFails: bool,
                   sends: seq<Turn>, q: Request, receipts: seq<Turn>)
    requires Trip(caller, func, d, fs, clearFails, sends, q, receipts) && Pieces(fs, d) && |fs| <= MAX_FRAGMENTS
    ensures forall k :: 0 <= k < |sends| - 1 ==>
              && sends[k].outcome.status == NextFragment(FirstFree(sends[0].before.shares),
                                                         CONSTITUENTS_OFFSET + CONSTITUENT_SIZE * |Flat(fs[..k + 1])|)
              && sends[k].outcome.state.vms == sends[k].before.vms
    ensures !sends[|sends| - 1].outcome.status.NextFragment?
  {
    forall k | 0 <= k < |sends|
      ensures Taken(sends[k].outcome, sends[k].before, caller, FirstFree(sends[0].before.shares), func, d, fs, k + 1)
    {
      SentSoFar(caller, func, d, fs, clearFails, sends, k);
    }
  }

  lemma PiecesReceived(caller: VmId, func: ShareFunc, d: Descriptor, fs: seq<seq<Constituent>>, clearFails: bool,
                       sends: seq<Turn>, q: Request, receipts: seq<Turn>)
    requires Trip(caller, func, d, fs, clearFails, sends, q, receipts) && Pieces(fs, d) && |fs| <= MAX_FRAGMENTS
    ensures sends[|sends| - 1].outcome.status == Sent(q.handle) && receipts[0].outcome.status.Received? ==>
              Got(receipts) == Flat(fs)
  {
    var last := sends[|sends| - 1];
    if last.outcome.status == Sent(q.handle) && receipts[0].outcome.status.Received? {
      LastDelivered(caller, func, d, fs, clearFails, sends);
      DeliveredStill(receipts[0].before, last, q.handle, fs, d.receiver, 0);
      AllReceived(d.receiver, q, fs, receipts);
    }
  }

  lemma LastDelivered(caller: VmId, func: ShareFunc, d: Descriptor, fs: seq<seq<Constituent>>, clearFails: bool,
                      turns: seq<Turn>)
    requires Sending(caller, func, d, fs, clearFails, turns) && |fs| <= MAX_FRAGMENTS
    requires Sendable(turns[0].before, caller, func, d) && Pieces(fs, d) && HasPages(turns)
    requires turns[|turns| - 1].outcome.status.Sent?
    ensures var o, h := turns[|turns| - 1].outcome, FirstFree(turns[0].before.shares);
            o.status == Sent(h) && Delivered(o.state, h, fs, d.receiver, 0) && ValidVms(o.state) && ValidShares(o.state)
  {
    SentSoFar(caller, func, d, fs, clearFails, turns, |turns| - 1);
    LastIsValid(caller, func, d, fs, clearFails, turns);
  }

  lemma AllReceived(caller: VmId, q: Request, fs: seq<seq<Constituent>>, turns: seq<Turn>)
    requires Receiving(caller, q, turns) && Delivered(turns[0].before, q.handle, fs, caller, 0)
    requires turns[0].outcome.status.Received?
    requires |turns| == |fs|
    ensures Got(turns) == Flat(fs)
  {
    ReceivedSoFar(caller, q, fs, turns, |fs| - 1);
    assert fs[..|fs|] == fs && turns[..|turns|] == turns;
  }
}
