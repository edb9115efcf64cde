/** Runs of the memory sharing calls: what holds in every state that can be reached, and what
    lending or sharing memory and taking it back restores. */
module FfaRuns {
  import opened Stage2Pte
  import opened Ownership
  import opened FfaMemory
  import opened FfaOwnership
  import opened FfaPages

  /** The event can happen in `s`: the caller is a VM, and if the call gets as far as taking memory
      from the caller, the caller owns it. Attempts that the code refuses can always happen. */
  ghost predicate Enabled(s: State, e: Event)
    requires StateInv(s)
  {
    e.caller < |s.vms| && SendsOwned(s, e.caller, e.call)
  }

  ghost function StateAfter(s: State, e: Event): (s': State)
    requires StateInv(s) && Enabled(s, e)
    ensures StateInv(s') && Follows(s', s, HandleOf(s, e.call)) && |s'.vms| == |s.vms|
  {
    StepFollows(s, e.caller, e.call);
    var s' := Step(s, e.caller, e.call).state;
    FollowsKeepsInv(s, s', HandleOf(s, e.call));
    s'
  }

  ghost predicate IsRun(s: State, events: seq<Event>)
    requires StateInv(s)
    decreases |events|
  {
    events == [] || (Enabled(s, events[0]) && IsRun(StateAfter(s, events[0]), events[1..]))
  }

  ghost function RunFrom(s: State, events: seq<Event>): (s': State)
    requires StateInv(s) && IsRun(s, events)
    ensures StateInv(s') && |s'.vms| == |s.vms| && NumPages(s') == NumPages(s)
    decreases |events|
  {
    if events == [] then s else RunFrom(StateAfter(s, events[0]), events[1..])
  }

  // ---- Safety in every reachable state ----

  /** Before any call: no memory has been sent, and a page that some VM owns is exclusive to it. */
  ghost predicate Initial(s: State) {
    && Tables(s) && |s.shares| == MAX_MEM_SHARES
    && (forall h :: 0 <= h < |s.shares| ==> s.shares[h] == Unallocated)
    && forall u: nat, v: nat, p: nat :: u < |s.vms| && v < |s.vms| && p < NumPages(s) && Owns(ModeAt(s, u, p)) ==>
         StateClear(ModeAt(s, u, p)) && (v != u ==> Unmapped(ModeAt(s, v, p)))
  }

  lemma InitialPage(s: State, p: nat)
    requires Initial(s) && p < NumPages(s)
    ensures PageInv(ViewOf(s), p)
  {
    var w := ViewOf(s);
    assert forall h :: 0 <= h < |w.claims| ==> w.claims[h] == Idle;
    forall u: nat, v: nat | u < w.vms && v < w.vms && !w.mode(u, p).unowned
      ensures StateClear(w.mode(u, p)) && (v != u ==> Unmapped(w.mode(v, p)))
    {
      assert Owns(ModeAt(s, u, p));
    }
  }

  lemma InitialInv(s: State)
    requires Initial(s)
    ensures StateInv(s)
  {
    var w := ViewOf(s);
    assert forall h :: 0 <= h < |w.claims| ==> w.claims[h] == Idle;
    forall p: nat | p < w.pages
      ensures PageInv(w, p)
    {
      InitialPage(s, p);
    }
  }

  /** At most one VM owns the page. */
  ghost predicate OneOwner(s: State, p: nat) {
    forall u: nat, v: nat :: u < |s.vms| && v < |s.vms| && Owns(ModeAt(s, u, p)) && Owns(ModeAt(s, v, p)) ==> u == v
  }

  /** If its owner cannot reach the page, at most one VM can, with no more data access. */
  ghost predicate LentOnce(s: State, p: nat) {
    forall o: nat, u: nat, v: nat ::
      o < |s.vms| && u < |s.vms| && v < |s.vms| && Owns(ModeAt(s, o, p)) && !Reaches(ModeAt(s, o, p))
      && Reaches(ModeAt(s, u, p)) && Reaches(ModeAt(s, v, p)) ==>
        u == v && u != o && DataWithin(ModeAt(s, u, p), ModeAt(s, o, p))
  }

  /** If its owner can reach it and shares it, at most one other VM can reach it, with no more
      data access; if the owner does not share it, no other VM can. */
  ghost predicate SharedOnce(s: State, p: nat) {
    forall o: nat, u: nat, v: nat ::
      o < |s.vms| && u < |s.vms| && v < |s.vms| && Owns(ModeAt(s, o, p)) && Reaches(ModeAt(s, o, p))
      && u != o && v != o && Reaches(ModeAt(s, u, p)) && Reaches(ModeAt(s, v, p)) ==>
        u == v && ModeAt(s, o, p).shared && ModeAt(s, u, p).shared && DataWithin(ModeAt(s, u, p), ModeAt(s, o, p))
  }

  /** Share `h` is a donation of the page that has not been retrieved. */
  ghost predicate Donating(s: State, h: nat, p: nat) {
    IsLive(s, h) && s.shares[h].func == Donate && s.shares[h].complete && s.shares[h].retrieved == 0
    && p in PagesOf(Flat(s.shares[h].fragments), NumPages(s))
  }

  /** The page has no owner exactly if one donation of it waits to be retrieved. */
  ghost predicate OwnerlessIffDonated(s: State, p: nat) {
    (forall v: nat :: v < |s.vms| ==> !Owns(ModeAt(s, v, p))) <==>
    (exists h: nat :: Donating(s, h, p) && forall g: nat :: Donating(s, g, p) ==> g == h)
  }

  lemma InvOneOwner(s: State, p: nat)
    requires StateInv(s) && p < NumPages(s)
    ensures OneOwner(s, p)
  {
    var w := ViewOf(s);
    forall u: nat, v: nat | u < |s.vms| && v < |s.vms| && Owns(ModeAt(s, u, p)) && Owns(ModeAt(s, v, p))
      ensures u == v
    {
      assert w.mode(u, p) == ModeAt(s, u, p) && w.mode(v, p) == ModeAt(s, v, p);
      SingleOwner(w, p, u, v);
    }
  }

  lemma InvLentOnce(s: State, p: nat)
    requires StateInv(s) && p < NumPages(s)
    ensures LentOnce(s, p)
  {
    var w := ViewOf(s);
    forall o: nat, u: nat, v: nat |
      o < |s.vms| && u < |s.vms| && v < |s.vms| && Owns(ModeAt(s, o, p)) && !Reaches(ModeAt(s, o, p))
      && Reaches(ModeAt(s, u, p)) && Reaches(ModeAt(s, v, p))
      ensures u == v && u != o && DataWithin(ModeAt(s, u, p), ModeAt(s, o, p))
    {
      assert w.mode(o, p) == ModeAt(s, o, p) && w.mode(u, p) == ModeAt(s, u, p) && w.mode(v, p) == ModeAt(s, v, p);
      LentToOne(w, p, o, u, v);
    }
  }

  lemma InvSharedOnce(s: State, p: nat)
    requires StateInv(s) && p < NumPages(s)
    ensures SharedOnce(s, p)
  {
    var w := ViewOf(s);
    forall o: nat, u: nat, v: nat |
      o < |s.vms| && u < |s.vms| && v < |s.vms| && Owns(ModeAt(s, o, p)) && Reaches(ModeAt(s, o, p))
      && u != o && v != o && Reaches(ModeAt(s, u, p)) && Reaches(ModeAt(s, v, p))
      ensures u == v && ModeAt(s, o, p).shared && ModeAt(s, u, p).shared && DataWithin(ModeAt(s, u, p), ModeAt(s, o, p))
    {
      assert w.mode(o, p) == ModeAt(s, o, p) && w.mode(u, p) == ModeAt(s, u, p) && w.mode(v, p) == ModeAt(s, v, p);
      if ModeAt(s, o, p).shared {
        SharedWithOne(w, p, o, u, v);
      } else {
        OwnedByOne(w, p, o, u);
        assert false;
      }
    }
  }

  lemma DonatingIsClaim(s: State, h: nat, p: nat)
    ensures Donating(s, h, p) <==> Covers(ViewOf(s), h, p) && ViewOf(s).claims[h].func == Donate
  {
    if h < |s.shares| {
      assert ViewOf(s).claims[h] == ClaimOf(s.shares[h], NumPages(s));
    }
  }

  lemma InvOwnerless(s: State, p: nat)
    requires StateInv(s) && p < NumPages(s) && Accounted(ViewOf(s), p)
    ensures OwnerlessIffDonated(s, p)
  {
    var w := ViewOf(s);
    OwnerlessIsDonated(w, p);
    assert forall v: nat :: w.mode(v, p) == ModeAt(s, v, p);
    forall h: nat
      ensures Donating(s, h, p) <==> Covers(w, h, p) && w.claims[h].func == Donate
    {
      DonatingIsClaim(s, h, p);
    }
    if h: nat :| Donating(s, h, p) {
      CoveredPage(w, h, p);
    }
  }

  lemma {:induction false} RunAccounts(s: State, events: seq<Event>, p: nat)
    requires StateInv(s) && IsRun(s, events) && p < NumPages(s)
    ensures Accounted(ViewOf(RunFrom(s, events)), p) <==> Accounted(ViewOf(s), p)
    decreases |events|
  {
    if events != [] {
      var s1 := StateAfter(s, events[0]);
      NextKeepsAccounts(ViewOf(s), ViewOf(s1), HandleOf(s, events[0].call), p);
      RunAccounts(s1, events[1..], p);
    }
  }

  /** The calls can be made one after the other, from before any call on. */
  ghost predicate RunsFrom(s: State, events: seq<Event>) {
    Initial(s) && (InitialInv(s); IsRun(s, events))
  }

  ghost function Reached(s: State, events: seq<Event>): State
    requires RunsFrom(s, events)
  {
    InitialInv(s);
    RunFrom(s, events)
  }

  /** In every state a run can reach, every page has at most one owner, lent memory is reachable
      by at most one VM, shared memory by its owner and at most one other VM, and a page that had
      an owner in the beginning has none exactly while one donation of it waits. */
  lemma Safety(s: State, events: seq<Event>, p: nat)
    requires RunsFrom(s, events) && p < NumPages(s)
    ensures var s' := Reached(s, events);
            && OneOwner(s', p) && LentOnce(s', p) && SharedOnce(s', p)
            && ((exists v: nat :: v < |s.vms| && Owns(ModeAt(s, v, p))) ==> OwnerlessIffDonated(s', p))
  {
    InitialInv(s);
    var s' := RunFrom(s, events);
    InvOneOwner(s', p);
    InvLentOnce(s', p);
    InvSharedOnce(s', p);
    if v: nat :| v < |s.vms| && Owns(ModeAt(s, v, p)) {
      assert Owns(ViewOf(s).mode(v, p));
      RunAccounts(s, events, p);
      InvOwnerless(s', p);
    }
  }
}
