/** Lending or sharing memory and taking it back leaves everything as it was: the memory of all
    VMs, the shape of their page tables and the share states. */
module FfaRoundTrip {
  import opened PageTree
  import opened Defrag
  import opened IdentityMap
  import opened Stage2Pte
  import opened Region
  import opened RegionMode
  import opened Ownership
  import opened FfaMemory
  import opened FfaOwnership
  import opened FfaPages
  import opened FfaRuns

  // ---- In the ownership protocol ----

  /** On the pages of claim `h`, `w` is as `w1` was when the memory had just been sent, except
      that the receiver may have borrowed them. */
  ghost predicate Lent(w: View, w1: View, h: nat) {
    && w.vms == w1.vms && w.pages == w1.pages && |w.claims| == |w1.claims| && h < |w.claims|
    && w1.claims[h].Claim? && w.claims[h].Claim? && w.claims[h] == w1.claims[h].(taken := w.claims[h].taken)
    && forall u: nat, p :: u < w.vms && p in w1.claims[h].region ==>
         w.mode(u, p) == w1.mode(u, p) || (u == w1.claims[h].receiver && w.claims[h].taken)
  }

  /** A step on another claim does not touch the pages of claim `h`. */
  lemma OtherStep(w: View, w': View, g: nat, h: nat, u: VmId, p: nat)
    requires Inv(w) && NextAt(w', w, g) && g != h && Covers(w, h, p) && u < w.vms && p < w.pages
    ensures w'.vms == w.vms && w'.pages == w.pages && w'.mode(u, p) == w.mode(u, p)
    ensures |w'.claims| == |w.claims| && w'.claims[h] == w.claims[h]
  {
    if !Idles(w', w) {
      if c :| Granted(w', w, g, c) {
        if p in c.region {
          OwnedPage(w, c.sender, p);
          assert false;
        }
      } else if v, region, m :| Settled(w', w, g, v, region, m) {
        if p in region {
          OwnedPage(w, v, p);
          assert false;
        }
      } else {
        RegionIsFree(w, g, w.claims[g].region);
      }
    }
  }

  lemma LentStep(w1: View, w: View, w': View, g: nat, h: nat)
    requires Inv(w) && Lent(w, w1, h) && NextAt(w', w, g) && w1.claims[h].func != Donate
    requires |w'.claims| == |w.claims| && w'.claims[h].Claim?
    requires forall p :: p in w1.claims[h].region ==> p < w.pages && w1.mode(w1.claims[h].receiver, p) == ABSENT_MODE
    ensures Lent(w', w1, h)
  {
    if g != h {
      forall u: nat, p | u < w.vms && p in w1.claims[h].region
        ensures w'.mode(u, p) == w.mode(u, p)
      {
        assert Covers(w, h, p);
        OtherStep(w, w', g, h, u, p);
      }
    }
  }

  /** Pages outside the region of claim `h` are not touched by steps on it. */
  lemma StepOutside(w: View, w': View, h: nat, u: VmId, p: nat)
    requires NextAt(w', w, h) && h < |w.claims| && w.claims[h].Claim? && u < w.vms && p < w.pages
    requires p !in w.claims[h].region
    ensures w'.mode(u, p) == w.mode(u, p)
  {
  }

  // ---- In runs of calls ----

  /** Share `h` stays in effect all along the run. */
  ghost predicate Keeps(s: State, events: seq<Event>, h: nat)
    requires StateInv(s) && IsRun(s, events)
    decreases |events|
  {
    IsLive(s, h) && Active(s.shares[h]) && (events == [] || Keeps(StateAfter(s, events[0]), events[1..], h))
  }

  /** All calls of the run are about share `h`. */
  ghost predicate OnlyAbout(s: State, events: seq<Event>, h: nat)
    requires StateInv(s) && IsRun(s, events)
    decreases |events|
  {
    events == [] || (HandleOf(s, events[0].call) == h && OnlyAbout(StateAfter(s, events[0]), events[1..], h))
  }

  lemma {:induction false} LentRun(w1: View, s: State, events: seq<Event>, h: nat)
    requires StateInv(s) && IsRun(s, events) && Keeps(s, events, h)
    requires Lent(ViewOf(s), w1, h) && w1.claims[h].func != Donate
    requires forall p :: p in w1.claims[h].region ==> p < w1.pages && w1.mode(w1.claims[h].receiver, p) == ABSENT_MODE
    ensures Lent(ViewOf(RunFrom(s, events)), w1, h)
    decreases |events|
  {
    if events != [] {
      var s' := StateAfter(s, events[0]);
      assert ViewOf(s').claims[h] == ClaimOf(s'.shares[h], NumPages(s'));
      LentStep(w1, ViewOf(s), ViewOf(s'), HandleOf(s, events[0].call), h);
      LentRun(w1, s', events[1..], h);
    }
  }

  lemma SameRegion(s: State, s': State, h: nat)
    requires Follows(s', s, h) && IsLive(s, h) && Active(s.shares[h]) && IsLive(s', h) && Active(s'.shares[h])
    ensures PagesOf(Flat(s'.shares[h].fragments), NumPages(s)) == PagesOf(Flat(s.shares[h].fragments), NumPages(s))
  {
    var w, w' := ViewOf(s), ViewOf(s');
    assert w.claims[h] == ClaimOf(s.shares[h], NumPages(s)) && w'.claims[h] == ClaimOf(s'.shares[h], NumPages(s));
  }

  lemma OutsideStep(s: State, s': State, h: nat, u: VmId, p: nat)
    requires Follows(s', s, h) && IsLive(s, h) && Active(s.shares[h])
    requires u < |s.vms| && p < NumPages(s) && p !in PagesOf(Flat(s.shares[h].fragments), NumPages(s))
    ensures ModeAt(s', u, p) == ModeAt(s, u, p)
  {
    var w, w' := ViewOf(s), ViewOf(s');
    assert w.claims[h] == ClaimOf(s.shares[h], NumPages(s));
    StepOutside(w, w', h, u, p);
    assert w'.mode(u, p) == ModeAt(s', u, p) && w.mode(u, p) == ModeAt(s, u, p);
  }

  lemma {:induction false} OutsideRun(s: State, events: seq<Event>, h: nat, u: VmId, p: nat)
    requires StateInv(s) && IsRun(s, events) && Keeps(s, events, h) && OnlyAbout(s, events, h)
    requires u < |s.vms| && p < NumPages(s) && p !in PagesOf(Flat(s.shares[h].fragments), NumPages(s))
    ensures ModeAt(RunFrom(s, events), u, p) == ModeAt(s, u, p)
    decreases |events|
  {
    if events != [] {
      var s' := StateAfter(s, events[0]);
      OutsideStep(s, s', h, u, p);
      SameRegion(s, s', h);
      OutsideRun(s', events[1..], h, u, p);
    }
  }

  /** What calls about share `h` alone keep. */
  ghost predicate Framed(s': State, s: State, h: nat) {
    && |s'.vms| == |s.vms| && |s'.shares| == |s.shares|
    && (forall g :: 0 <= g < |s.shares| && g != h ==> s'.shares[g] == s.shares[g])
    && (forall v :: 0 <= v < |s.vms| ==> StaysTidy(s'.vms[v], s.vms[v]))
  }

  lemma FramedStep(s: State, e: Event)
    requires StateInv(s) && Enabled(s, e)
    ensures Framed(StateAfter(s, e), s, HandleOf(s, e.call))
  {
    InvShares(s);
    StepKeeps(s, e.caller, e.call);
  }

  lemma {:induction false} FramedRun(s: State, events: seq<Event>, h: nat)
    requires StateInv(s) && IsRun(s, events) && OnlyAbout(s, events, h)
    ensures Framed(RunFrom(s, events), s, h)
    decreases |events|
  {
    if events != [] {
      FramedStep(s, events[0]);
      FramedRun(StateAfter(s, events[0]), events[1..], h);
    }
  }

  lemma FramedTrip(s: State, first: Event, events: seq<Event>, last: Event, h: nat)
    requires StateInv(s) && Enabled(s, first) && HandleOf(s, first.call) == h
    requires IsRun(StateAfter(s, first), events) && OnlyAbout(StateAfter(s, first), events, h)
    requires Enabled(RunFrom(StateAfter(s, first), events), last)
    requires HandleOf(RunFrom(StateAfter(s, first), events), last.call) == h
    ensures Framed(StateAfter(RunFrom(StateAfter(s, first), events), last), s, h)
  {
    var s1 := StateAfter(s, first);
    FramedStep(s, first);
    FramedRun(s1, events, h);
    FramedStep(RunFrom(s1, events), last);
  }

  // ---- The round trip ----

  /** A send of share `h` completes: the memory is taken from the sender. */
  lemma SendGrants(s: State, s': State, h: nat)
    requires StateInv(s) && StateInv(s') && Follows(s', s, h) && IsLive(s', h) && Active(s'.shares[h])
    requires h < |s.shares| && !Active(s.shares[h])
    ensures Granted(ViewOf(s'), ViewOf(s), h, ClaimOf(s'.shares[h], NumPages(s)))
  {
    var w, w' := ViewOf(s), ViewOf(s');
    assert w.claims[h] == ClaimOf(s.shares[h], NumPages(s)) && w'.claims[h] == ClaimOf(s'.shares[h], NumPages(s));
    assert w.claims[h] == Idle && w'.claims[h].Claim?;
  }

  /** A share that is not a donation ends: the memory is given back to the sender. */
  lemma ReclaimEnds(s: State, s': State, h: nat)
    requires StateInv(s) && StateInv(s') && Follows(s', s, h) && IsLive(s, h) && Active(s.shares[h])
    requires s.shares[h].func != Donate
    requires |s'.shares| == |s.shares| && s'.shares[h] == Unallocated
    ensures Ended(ViewOf(s'), ViewOf(s), h)
  {
    var w, w' := ViewOf(s), ViewOf(s');
    assert w.claims[h] == ClaimOf(s.shares[h], NumPages(s)) && w'.claims[h] == ClaimOf(s'.shares[h], NumPages(s));
    assert w'.claims[h] == Idle && w.claims[h].Claim?;
  }

  /** Before the send, and until it retrieves, the receiver has nothing on the pages sent. */
  lemma ReceiverAbsent(s: State, h: nat, p: nat)
    requires StateInv(s) && IsLive(s, h) && s.shares[h].complete && s.shares[h].retrieved == 0
    requires p in PagesOf(Flat(s.shares[h].fragments), NumPages(s))
    ensures ModeAt(s, s.shares[h].desc.receiver, p) == ABSENT_MODE
  {
    RegionPage(s, h, s.shares[h].desc.receiver, p);
    UnmappedIsAbsent(s, s.shares[h].desc.receiver, p);
  }

  /** `s0` to `s1` is a send that completes, and the share is then not given up in the run from
      `s1` to `s2`. */
  ghost predicate LendAndUse(s0: State, s1: State, events: seq<Event>, h: nat) {
    && StateInv(s0) && StateInv(s1) && Follows(s1, s0, h) && h < |s0.shares| && !Active(s0.shares[h])
    && IsLive(s1, h) && s1.shares[h].func != Donate && s1.shares[h].retrieved == 0
    && IsRun(s1, events) && Keeps(s1, events, h)
  }

  lemma LentDuringUse(s0: State, s1: State, events: seq<Event>, h: nat)
    requires LendAndUse(s0, s1, events, h)
    ensures Lent(ViewOf(RunFrom(s1, events)), ViewOf(s1), h)
    ensures ViewOf(s1).claims[h] == ClaimOf(s1.shares[h], NumPages(s1))
  {
    var w1 := ViewOf(s1);
    assert w1.claims[h] == ClaimOf(s1.shares[h], NumPages(s1));
    forall p | p in w1.claims[h].region
      ensures p < w1.pages && w1.mode(w1.claims[h].receiver, p) == ABSENT_MODE
    {
      ReceiverAbsent(s1, h, p);
    }
    LentRun(w1, s1, events, h);
  }

  /** On the pages of the share, reclaiming restores what every other VM had before the send, and
      puts the sender's memory in the mode the send recorded, whatever the receiver and other VMs
      did with this and other shares in between. */
  lemma RegionRestored(s0: State, s1: State, events: seq<Event>, s3: State, h: nat, u: VmId, p: nat)
    requires LendAndUse(s0, s1, events, h)
    requires StateInv(s3) && Follows(s3, RunFrom(s1, events), h) && |s3.shares| == |s1.shares|
    requires s3.shares[h] == Unallocated
    requires u < |s0.vms| && p in PagesOf(Flat(s1.shares[h].fragments), NumPages(s0))
    ensures ModeAt(s3, u, p) == if u == s1.shares[h].desc.sender then s1.shares[h].origMode else ModeAt(s0, u, p)
  {
    var s2 := RunFrom(s1, events);
    LentDuringUse(s0, s1, events, h);
    SendGrants(s0, s1, h);
    KeepsLast(s1, events, h);
    LentShare(s1, s2, h);
    ReclaimEnds(s2, s3, h);
    RestoredView(ViewOf(s0), ViewOf(s1), ViewOf(s2), ViewOf(s3), h, u, p);
  }

  lemma RestoredView(w0: View, w1: View, w2: View, w3: View, h: nat, u: VmId, p: nat)
    requires h < |w1.claims| && Granted(w1, w0, h, w1.claims[h]) && Lent(w2, w1, h) && Ended(w3, w2, h)
    requires u < w0.vms && p < w0.pages && p in w1.claims[h].region
    ensures w3.mode(u, p) == if u == w1.claims[h].sender then w1.claims[h].orig else w0.mode(u, p)
  {
  }

  lemma {:induction false} KeepsLast(s: State, events: seq<Event>, h: nat)
    requires StateInv(s) && IsRun(s, events) && Keeps(s, events, h)
    ensures IsLive(RunFrom(s, events), h) && Active(RunFrom(s, events).shares[h])
    decreases |events|
  {
    if events != [] {
      KeepsLast(StateAfter(s, events[0]), events[1..], h);
    }
  }

  lemma LentShare(s1: State, s2: State, h: nat)
    requires IsLive(s1, h) && IsLive(s2, h) && Active(s1.shares[h]) && Active(s2.shares[h])
    requires Lent(ViewOf(s2), ViewOf(s1), h)
    ensures s2.shares[h].func == s1.shares[h].func
  {
    assert ViewOf(s1).claims[h] == ClaimOf(s1.shares[h], NumPages(s1));
    assert ViewOf(s2).claims[h] == ClaimOf(s2.shares[h], NumPages(s2));
  }

  lemma CompletedSend(s: State, h: nat, clearFails: bool, g: nat, o: Outcome)
    requires ValidVms(s) && ValidShares(s) && IsLive(s, h) && s.shares[h].retrieved == 0
    requires o == SendComplete(s, h, clearFails) && o.status == Sent(g)
    ensures g == h && IsLive(o.state, h) && o.state.shares[h].complete && o.state.shares[h].retrieved == 0
    ensures Recorded(s, o.state.shares[h])
  {
  }

  /** The share records the mode that the query of the sender's memory found. */
  predicate Recorded(s: State, sh: Share) {
    sh.Share? && ValidVms(s) && sh.desc.sender < |s.vms|
      && RegionModeOf(s.vms[sh.desc.sender], sh.fragments) == Found(sh.origMode)
  }

  lemma SendMeans(s: State, caller: VmId, func: ShareFunc, d: Descriptor, fragment: seq<Constituent>,
                  clearFails: bool, h: nat, o: Outcome)
    requires StateInv(s) && caller < |s.vms| && o == Send(s, caller, func, d, fragment, clearFails)
    requires o.status == Sent(h)
    ensures FirstFree(s.shares) == h && h < |s.shares|
    ensures IsLive(o.state, h) && o.state.shares[h].complete && o.state.shares[h].retrieved == 0
    ensures Recorded(s, o.state.shares[h])
  {
    var g := FirstFree(s.shares);
    var sh := Share(func, StoredDescriptor(func, d), [fragment], [s.pool[0]], false, ABSENT_MODE, 0);
    CompletedSend(s.(shares := s.shares[g := sh], pool := s.pool[1..]), g, clearFails, h, o);
  }

  lemma SendFragmentMeans(s: State, caller: VmId, g: nat, fragment: seq<Constituent>, clearFails: bool, h: nat,
                          o: Outcome)
    requires StateInv(s) && caller < |s.vms| && ValidShares(s)
    requires o == SendFragment(s, caller, g, fragment, clearFails) && o.status == Sent(h)
    ensures g == h && h < |s.shares| && !Active(s.shares[h])
    ensures IsLive(o.state, h) && o.state.shares[h].complete && o.state.shares[h].retrieved == 0
    ensures Recorded(s, o.state.shares[h])
  {
    var sh := s.shares[g];
    var sh' := sh.(fragments := sh.fragments + [fragment], pages := sh.pages + [s.pool[0]]);
    CompletedSend(s.(pool := s.pool[1..], shares := s.shares[g := sh']), g, clearFails, h, o);
  }

  /** What a call that reports a completed send has done to the share. */
  lemma SentMeans(s: State, caller: VmId, c: Call, h: nat, o: Outcome)
    requires StateInv(s) && caller < |s.vms| && ValidShares(s) && o == Step(s, caller, c) && o.status == Sent(h)
    ensures HandleOf(s, c) == h && h < |s.shares| && !Active(s.shares[h])
    ensures IsLive(o.state, h) && Active(o.state.shares[h]) && o.state.shares[h].retrieved == 0
    ensures Recorded(s, o.state.shares[h])
  {
    match c {
      case CallSend(func, d, fragment, clearFails) => SendMeans(s, caller, func, d, fragment, clearFails, h, o);
      case CallSendFragment(g, fragment, clearFails) => SendFragmentMeans(s, caller, g, fragment, clearFails, h, o);
      case _ =>
    }
  }

  lemma ReclaimedMeans(s: State, caller: VmId, h: nat, clear: bool, clearFails: bool, o: Outcome)
    requires ValidVms(s) && caller < |s.vms| && o == Reclaim(s, caller, h, clear, clearFails) && o.status == Completed
    ensures |o.state.shares| == |s.shares| && h < |s.shares| && o.state.shares[h] == Unallocated
  {
  }

  /** Equal modes everywhere mean equal attributes everywhere. */
  lemma SameModesSameSpace(s: State, s': State, v: VmId)
    requires Tables(s) && Tables(s') && |s'.vms| == |s.vms| && v < |s.vms| && s'.vms[v].level == s.vms[v].level
    requires |s'.vms[v].root| == |s.vms[v].root|
    requires forall p: nat :: p < NumPages(s) ==> ModeAt(s', v, p) == ModeAt(s, v, p)
    ensures SameSpace(s'.vms[v], s.vms[v])
  {
    var t, t' := s.vms[v], s'.vms[v];
    assert SpaceEnd(t) == NumPages(s);
    forall p: nat | p < SpaceEnd(t)
      ensures TableAt(t'.root, t.level, p) == TableAt(t.root, t.level, p)
    {
      assert ModeAt(s', v, p) == ModeAt(s, v, p);
      assert AttrsOf(ModeOf(Lookup(t, p))) == Lookup(t, p);
      assert AttrsOf(ModeOf(Lookup(t', p))) == Lookup(t', p);
    }
  }

  lemma SameSpaceSameShape(t: Ptable, t': Ptable)
    requires Defragmented(t) && Defragmented(t') && SameSpace(t', t)
    ensures SameShapeAll(t'.root, t.root)
  {
    DefragCanonical(t'.root, t.root, t.level, [], []);
    DefragTableIdempotent(t.root, 0, t.level, []);
    DefragTableIdempotent(t'.root, 0, t.level, []);
  }

  /** Pages outside the share, if no call in between is about another share. */
  lemma OutsideRestored(s0: State, s1: State, events: seq<Event>, s3: State, h: nat, u: VmId, p: nat)
    requires LendAndUse(s0, s1, events, h) && OnlyAbout(s1, events, h)
    requires StateInv(s3) && Follows(s3, RunFrom(s1, events), h)
    requires u < |s0.vms| && p < NumPages(s0) && p !in PagesOf(Flat(s1.shares[h].fragments), NumPages(s0))
    ensures ModeAt(s3, u, p) == ModeAt(s0, u, p)
  {
    var s2 := RunFrom(s1, events);
    SendGrants(s0, s1, h);
    var c := ClaimOf(s1.shares[h], NumPages(s0));
    assert ViewOf(s1).mode(u, p) == ViewOf(s0).mode(u, p);
    OutsideRun(s1, events, h, u, p);
    LentDuringUse(s0, s1, events, h);
    KeepsLast(s1, events, h);
    assert ViewOf(s2).claims[h] == ClaimOf(s2.shares[h], NumPages(s2));
    OutsideStep(s2, s3, h, u, p);
  }

  /** Before the send all memory of the share was in the mode the send recorded. */
  ghost predicate WasUniform(s0: State, sh: Share)
    requires sh.Share?
  {
    forall p: nat :: p in PagesOf(Flat(sh.fragments), NumPages(s0)) ==> ModeAt(s0, sh.desc.sender, p) == sh.origMode
  }

  /** That is so if and only if the constituents of the first fragment were in the same mode. */
  lemma UniformIff(s0: State, sh: Share)
    requires Tables(s0) && Recorded(s0, sh)
    ensures WasUniform(s0, sh) <==> OneMode(s0.vms[sh.desc.sender], sh.fragments[0])
  {
    var t, fs, m := s0.vms[sh.desc.sender], sh.fragments, sh.origMode;
    assert SpaceEnd(t) == NumPages(s0);
    RegionModeIsUniform(t, fs);
    FoundRegion(t, fs, m);
    if AllMode(t, fs, m) {
      ModesToPages(t, fs, m);
    }
    if WasUniform(s0, sh) {
      forall p: nat | p < SpaceEnd(t) && InPages(Flat(fs), p)
        ensures ModeOf(Lookup(t, p)) == m
      {
        assert p in PagesOf(Flat(fs), NumPages(s0));
        assert ModeAt(s0, sh.desc.sender, p) == m;
      }
      PagesToMode(t, fs, m);
    }
  }

  /** Every VM has on the pages of the share what it had before. */
  ghost predicate RegionAsBefore(s3: State, s0: State, sh: Share)
    requires sh.Share?
  {
    forall u: nat, p: nat :: u < |s0.vms| && p in PagesOf(Flat(sh.fragments), NumPages(s0)) ==>
      ModeAt(s3, u, p) == ModeAt(s0, u, p)
  }

  /** Every VM has the address space it had before. */
  ghost predicate SpacesAsBefore(s3: State, s0: State)
    requires ValidVms(s0) && ValidVms(s3)
  {
    |s3.vms| == |s0.vms| && forall v :: 0 <= v < |s0.vms| ==> SameSpace(s3.vms[v], s0.vms[v])
  }

  lemma AsBeforeIff(s0: State, s1: State, events: seq<Event>, s3: State, h: nat)
    requires LendAndUse(s0, s1, events, h) && Recorded(s0, s1.shares[h])
    requires StateInv(s3) && Follows(s3, RunFrom(s1, events), h) && |s3.shares| == |s1.shares|
    requires s3.shares[h] == Unallocated
    ensures RegionAsBefore(s3, s0, s1.shares[h]) <==> WasUniform(s0, s1.shares[h])
  {
    var sh := s1.shares[h];
    forall u: nat, p: nat | u < |s0.vms| && p in PagesOf(Flat(sh.fragments), NumPages(s0))
      ensures ModeAt(s3, u, p) == if u == sh.desc.sender then sh.origMode else ModeAt(s0, u, p)
    {
      RegionRestored(s0, s1, events, s3, h, u, p);
    }
    if RegionAsBefore(s3, s0, sh) {
      forall p: nat | p in PagesOf(Flat(sh.fragments), NumPages(s0))
        ensures ModeAt(s0, sh.desc.sender, p) == sh.origMode
      {
        assert ModeAt(s3, sh.desc.sender, p) == ModeAt(s0, sh.desc.sender, p);
      }
    }
  }

  /** Memory is lent or shared, retrieved and relinquished any number of times, and reclaimed.
      Then the share state is free again, and on the pages of the share all VMs have what they
      had before, if and only if the first fragment sent was in one mode. If in between no call
      was about another share, then under the same condition the whole address space of every VM
      is as before and page tables that were defragmented have the same shape as before, and all
      other share states are untouched. */
  lemma RoundTrip(s0: State, send: Event, s1: State, events: seq<Event>, s2: State, reclaim: Event, s3: State, h: nat)
    requires StateInv(s0) && Enabled(s0, send) && ValidShares(s0) && s1 == StateAfter(s0, send)
    requires Step(s0, send.caller, send.call).status == Sent(h) && IsLive(s1, h) && s1.shares[h].func != Donate
    requires IsRun(s1, events) && Keeps(s1, events, h) && s2 == RunFrom(s1, events)
    requires Enabled(s2, reclaim) && reclaim.call.CallReclaim? && reclaim.call.handle == h
    requires s3 == StateAfter(s2, reclaim)
    requires ValidShares(s2) && Step(s2, reclaim.caller, reclaim.call).status == Completed
    ensures h < |s3.shares| && s3.shares[h] == Unallocated && |s3.vms| == |s0.vms| && |s3.shares| == |s0.shares|
    ensures s1.shares[h].desc.sender < |s0.vms| && s1.shares[h].fragments != []
    ensures RegionAsBefore(s3, s0, s1.shares[h])
            <==> OneMode(s0.vms[s1.shares[h].desc.sender], s1.shares[h].fragments[0])
    ensures OnlyAbout(s1, events, h) ==>
              && (forall g :: 0 <= g < |s0.shares| && g != h ==> s3.shares[g] == s0.shares[g])
              && (SpacesAsBefore(s3, s0) <==> OneMode(s0.vms[s1.shares[h].desc.sender], s1.shares[h].fragments[0]))
              && (SpacesAsBefore(s3, s0) ==>
                    forall v :: 0 <= v < |s0.vms| && Defragmented(s0.vms[v]) ==>
                      SameShapeAll(s3.vms[v].root, s0.vms[v].root))
  {
    SentMeans(s0, send.caller, send.call, h, Step(s0, send.caller, send.call));
    ReclaimedMeans(s2, reclaim.caller, h, reclaim.call.clear, reclaim.call.clearFails,
                   Step(s2, reclaim.caller, reclaim.call));
    UniformIff(s0, s1.shares[h]);
    AsBeforeIff(s0, s1, events, s3, h);
    if OnlyAbout(s1, events, h) {
      FramedTrip(s0, send, events, reclaim, h);
      SpacesIff(s0, s1, events, s3, h);
    }
  }

  lemma SpacesIff(s0: State, s1: State, events: seq<Event>, s3: State, h: nat)
    requires LendAndUse(s0, s1, events, h) && OnlyAbout(s1, events, h)
    requires StateInv(s3) && Follows(s3, RunFrom(s1, events), h) && |s3.shares| == |s1.shares|
    requires s3.shares[h] == Unallocated
    requires Framed(s3, s0, h)
    ensures SpacesAsBefore(s3, s0) <==> RegionAsBefore(s3, s0, s1.shares[h])
    ensures SpacesAsBefore(s3, s0) ==>
              forall v :: 0 <= v < |s0.vms| && Defragmented(s0.vms[v]) ==> SameShapeAll(s3.vms[v].root, s0.vms[v].root)
  {
    if RegionAsBefore(s3, s0, s1.shares[h]) {
      forall v | 0 <= v < |s0.vms|
        ensures SameSpace(s3.vms[v], s0.vms[v])
      {
        VmRestored(s0, s1, events, s3, h, v);
      }
    }
    if SpacesAsBefore(s3, s0) {
      forall v: nat, p: nat | v < |s0.vms| && p < NumPages(s0)
        ensures ModeAt(s3, v, p) == ModeAt(s0, v, p)
      {
        SameSpaceSameMode(s0, s3, v, p);
      }
      forall v | 0 <= v < |s0.vms| && Defragmented(s0.vms[v])
        ensures SameShapeAll(s3.vms[v].root, s0.vms[v].root)
      {
        SameSpaceSameShape(s0.vms[v], s3.vms[v]);
      }
    }
  }

  lemma SameSpaceSameMode(s0: State, s3: State, v: VmId, p: nat)
    requires Tables(s0) && Tables(s3) && v < |s0.vms| == |s3.vms| && SameSpace(s3.vms[v], s0.vms[v]) && p < NumPages(s0)
    ensures ModeAt(s3, v, p) == ModeAt(s0, v, p)
  {
    assert SpaceEnd(s0.vms[v]) == NumPages(s0);
    assert TableAt(s3.vms[v].root, s0.vms[v].level, p) == TableAt(s0.vms[v].root, s0.vms[v].level, p);
  }

  lemma VmRestored(s0: State, s1: State, events: seq<Event>, s3: State, h: nat, v: VmId)
    requires LendAndUse(s0, s1, events, h) && OnlyAbout(s1, events, h) && RegionAsBefore(s3, s0, s1.shares[h])
    requires StateInv(s3) && Follows(s3, RunFrom(s1, events), h) && |s3.shares| == |s1.shares|
    requires s3.shares[h] == Unallocated
    requires v < |s0.vms| && |s3.vms| == |s0.vms| && StaysTidy(s3.vms[v], s0.vms[v])
    ensures SameSpace(s3.vms[v], s0.vms[v])
  {
    forall p: nat | p < NumPages(s0)
      ensures ModeAt(s3, v, p) == ModeAt(s0, v, p)
    {
      if p !in PagesOf(Flat(s1.shares[h].fragments), NumPages(s0)) {
        OutsideRestored(s0, s1, events, s3, h, v, p);
      }
    }
    SameModesSameSpace(s0, s3, v);
  }
}
