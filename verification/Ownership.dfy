/** The ownership states of memory (`inc/hf/mm.h`) as a protocol on its own: which VM owns a page,
    which VMs can reach it, and how sending, retrieving, relinquishing and reclaiming move it
    between them. The memory sharing calls are shown to follow this protocol in FfaOwnership. */
module Ownership {
  import opened Stage2Pte

  type VmId = nat
  datatype ShareFunc = Donate | Lend | ShareMemory

  /** What a completed send that has not run its course says about a set of pages. */
  datatype Claim =
    | Idle
    | Claim(func: ShareFunc, sender: VmId, receiver: VmId, orig: Mode, taken: bool, region: set<nat>)

  /** The mode of every page in every VM, and the claims on them. */
  datatype View = View(vms: nat, pages: nat, mode: (nat, nat) -> Mode, claims: seq<Claim>)

  /** The memory is in the VM's address space, owned by it and exclusive to it. */
  predicate StateClear(m: Mode) {
    !m.invalid && !m.unowned && !m.shared
  }

  /** The sender's mode once the memory is sent. */
  function SentMode(func: ShareFunc, orig: Mode): Mode {
    match func
    case Donate => orig.(invalid := true, unowned := true, shared := false)
    case Lend => orig.(invalid := true, unowned := false, shared := false)
    case ShareMemory => orig.(invalid := false, unowned := false, shared := true)
  }

  /** The receiver's mode once it has retrieved the memory with permissions `p`. */
  function RetrievedMode(func: ShareFunc, p: Mode): Mode {
    match func
    case Donate => p
    case Lend => p.(unowned := true)
    case ShareMemory => p.(unowned := true, shared := true)
  }

  /** The mode memory is found in after it was put in mode `m`. */
  function Stored(m: Mode): Mode {
    if Unmapped(m) then ABSENT_MODE else m
  }

  ghost predicate Covers(w: View, h: nat, p: nat) {
    h < |w.claims| && w.claims[h].Claim? && p in w.claims[h].region
  }

  ghost predicate Uncovered(w: View, p: nat) {
    forall h: nat :: !Covers(w, h, p)
  }

  /** The data access of mode `m` is within that of mode `d`. */
  predicate DataWithin(m: Mode, d: Mode) {
    (m.r ==> d.r) && (m.w ==> d.w)
  }

  /** The mode of a claimed page in VM `v`: the owner of lent memory cannot reach it, the owner of
      shared memory can, the receiver has borrowed it once it was retrieved, with no more data
      access than the owner had,
        and no other VM has anything to do with it. A donated page is with nobody until it is retrieved. */
  predicate Fits(c: Claim, v: VmId, m: Mode)
    requires c.Claim?
  {
    if v == c.sender && c.func != Donate then
      m == SentMode(c.func, c.orig)
    else if v == c.receiver && c.taken then
      !m.invalid && m.unowned && !m.d && m.shared == (c.func == ShareMemory) && DataWithin(m, c.orig)
    else
      Unmapped(m)
  }

  ghost predicate ClaimInv(w: View, c: Claim) {
    c.Claim? ==>
      && c.sender < w.vms && c.receiver < w.vms && c.sender != c.receiver
      && StateClear(c.orig) && !c.orig.d
      && (c.func == Donate ==> !c.taken)
      && (forall p :: p in c.region ==> p < w.pages)
      && (c.taken ==> OneModeIn(w, c.receiver, c.region))
  }

  /** All pages of the region are in the same mode in VM `v`. */
  ghost predicate OneModeIn(w: View, v: VmId, region: set<nat>) {
    forall p, q :: p in region && q in region ==> w.mode(v, p) == w.mode(v, q)
  }

  /** No VM but the owner has anything to do with the page. */
  ghost predicate Exclusive(w: View, p: nat) {
    forall u: nat, v: nat :: u < w.vms && v < w.vms && !w.mode(u, p).unowned ==>
      StateClear(w.mode(u, p)) && (v != u ==> Unmapped(w.mode(v, p)))
  }

  ghost predicate PageInv(w: View, p: nat) {
    && (forall g: nat, h: nat :: Covers(w, g, p) && Covers(w, h, p) ==> g == h)
    && (forall h: nat, v: nat :: Covers(w, h, p) && v < w.vms ==> Fits(w.claims[h], v, w.mode(v, p)))
    && (Uncovered(w, p) ==> Exclusive(w, p))
  }

  ghost predicate Inv(w: View) {
    && (forall h :: 0 <= h < |w.claims| ==> ClaimInv(w, w.claims[h]))
    && (forall p: nat :: p < w.pages ==> PageInv(w, p))
  }

  // ---- What the invariant says about owners and access ----

  predicate Owns(m: Mode) {
    !m.unowned
  }

  predicate Reaches(m: Mode) {
    !m.invalid
  }

  lemma CoveredPage(w: View, h: nat, p: nat)
    requires Inv(w) && p < w.pages && Covers(w, h, p)
    ensures ClaimInv(w, w.claims[h])
    ensures forall g: nat :: Covers(w, g, p) ==> g == h
    ensures forall v: nat :: v < w.vms ==> Fits(w.claims[h], v, w.mode(v, p))
  {
    assert PageInv(w, p);
  }

  /** A page has at most one owner. */
  lemma SingleOwner(w: View, p: nat, u: VmId, v: VmId)
    requires Inv(w) && p < w.pages && u < w.vms && v < w.vms
    requires Owns(w.mode(u, p)) && Owns(w.mode(v, p))
    ensures u == v
  {
    assert PageInv(w, p);
    if !Uncovered(w, p) {
      var h: nat :| Covers(w, h, p);
      CoveredPage(w, h, p);
    }
  }

  /** A page whose owner has lent it is reachable by at most one VM, which has borrowed it
      with no more data access than the owner has. */
  lemma LentToOne(w: View, p: nat, owner: VmId, u: VmId, v: VmId)
    requires Inv(w) && p < w.pages && owner < w.vms && u < w.vms && v < w.vms
    requires Owns(w.mode(owner, p)) && !Reaches(w.mode(owner, p))
    requires Reaches(w.mode(u, p)) && Reaches(w.mode(v, p))
    ensures u == v && u != owner && !Owns(w.mode(u, p)) && DataWithin(w.mode(u, p), w.mode(owner, p))
  {
    assert PageInv(w, p);
    assert !Exclusive(w, p);
    var h: nat :| Covers(w, h, p);
    CoveredPage(w, h, p);
  }

  /** A page whose owner has shared it is reachable by the owner and at most one other VM, which
      does not own it and knows that it is shared. */
  lemma SharedWithOne(w: View, p: nat, owner: VmId, u: VmId, v: VmId)
    requires Inv(w) && p < w.pages && owner < w.vms && u < w.vms && v < w.vms
    requires Owns(w.mode(owner, p)) && w.mode(owner, p).shared
    requires u != owner && v != owner && Reaches(w.mode(u, p)) && Reaches(w.mode(v, p))
    ensures u == v && !Owns(w.mode(u, p)) && w.mode(u, p).shared
    ensures DataWithin(w.mode(u, p), w.mode(owner, p)) && Reaches(w.mode(owner, p))
  {
    assert PageInv(w, p);
    assert !Exclusive(w, p);
    var h: nat :| Covers(w, h, p);
    CoveredPage(w, h, p);
  }

  /** A page its owner has to itself is reachable by no other VM. */
  lemma OwnedByOne(w: View, p: nat, owner: VmId, v: VmId)
    requires Inv(w) && p < w.pages && owner < w.vms && v < w.vms && v != owner
    requires StateClear(w.mode(owner, p))
    ensures Uncovered(w, p) && Unmapped(w.mode(v, p))
  {
    OwnedPage(w, owner, p);
  }

  /** The page has an owner, or a donation of it waits to be retrieved. */
  ghost predicate Accounted(w: View, p: nat) {
    || (exists v: nat :: v < w.vms && Owns(w.mode(v, p)))
    || (exists h: nat :: Covers(w, h, p) && w.claims[h].func == Donate)
  }

  /** Among the accounted pages, those without an owner are covered by exactly one donation that
      has not been retrieved, and those with an owner by none. */
  lemma OwnerlessIsDonated(w: View, p: nat)
    requires Inv(w) && p < w.pages && Accounted(w, p)
    ensures (forall v: nat :: v < w.vms ==> !Owns(w.mode(v, p))) <==>
            (exists h: nat ::
               && Covers(w, h, p) && w.claims[h].func == Donate
               && forall g: nat :: Covers(w, g, p) ==> g == h)
  {
    if h: nat :| Covers(w, h, p) && w.claims[h].func == Donate {
      CoveredPage(w, h, p);
    }
  }

  // ---- Transitions ----

  /** Pages of `region` are now in mode `m` in VM `v`; all other modes are as before. */
  ghost predicate Changed(w': View, w: View, v: VmId, region: set<nat>, m: Mode) {
    && w'.vms == w.vms && w'.pages == w.pages && |w'.claims| == |w.claims|
    && forall u: nat, p: nat :: u < w.vms && p < w.pages ==>
         w'.mode(u, p) == if u == v && p in region then m else w.mode(u, p)
  }

  ghost predicate Unchanged(w': View, w: View) {
    && w'.vms == w.vms && w'.pages == w.pages && |w'.claims| == |w.claims|
    && forall u: nat, p: nat :: u < w.vms && p < w.pages ==> w'.mode(u, p) == w.mode(u, p)
  }

  ghost predicate OnlyClaim(w': View, w: View, h: nat) {
    && |w'.claims| == |w.claims| && h < |w.claims|
    && forall g :: 0 <= g < |w.claims| && g != h ==> w'.claims[g] == w.claims[g]
  }

  /** The VM owns all pages of the region exclusively. */
  ghost predicate OwnsRegion(w: View, v: VmId, region: set<nat>) {
    forall p :: p in region ==> p < w.pages && StateClear(w.mode(v, p))
  }

  /** A send completes: exclusively owned memory of the sender leaves that state. */
  ghost predicate Granted(w': View, w: View, h: nat, c: Claim) {
    && c.Claim? && ClaimInv(w, c) && !c.taken && OnlyClaim(w', w, h)
    && w.claims[h] == Idle && w'.claims[h] == c && OwnsRegion(w, c.sender, c.region)
    && Changed(w', w, c.sender, c.region, Stored(SentMode(c.func, c.orig)))
  }

  /** A send fails after all: the sender keeps its memory, in one mode. */
  ghost predicate Settled(w': View, w: View, h: nat, v: VmId, region: set<nat>, m: Mode) {
    && v < w.vms && StateClear(m) && OwnsRegion(w, v, region) && w'.claims == w.claims
    && h < |w.claims| && w.claims[h] == Idle
    && Changed(w', w, v, region, m)
  }

  /** The receiver retrieves the memory; a donation is over then. */
  ghost predicate Taken(w': View, w: View, h: nat, m: Mode) {
    && OnlyClaim(w', w, h) && w.claims[h].Claim? && !w.claims[h].taken && StateClear(m) && !m.d
    && (w.claims[h].func == Donate || DataWithin(m, w.claims[h].orig))
    && w'.claims[h] == (if w.claims[h].func == Donate then Idle else w.claims[h].(taken := true))
    && Changed(w', w, w.claims[h].receiver, w.claims[h].region, RetrievedMode(w.claims[h].func, m))
  }

  /** The receiver gives borrowed memory back. */
  ghost predicate GivenBack(w': View, w: View, h: nat) {
    && OnlyClaim(w', w, h) && w.claims[h].Claim? && w.claims[h].taken
    && w'.claims[h] == w.claims[h].(taken := false)
    && Changed(w', w, w.claims[h].receiver, w.claims[h].region, ABSENT_MODE)
  }

  /** The sender takes memory back that nobody has retrieved. */
  ghost predicate Ended(w': View, w: View, h: nat) {
    && OnlyClaim(w', w, h) && w.claims[h].Claim? && !w.claims[h].taken
    && w'.claims[h] == Idle
    && Changed(w', w, w.claims[h].sender, w.claims[h].region, w.claims[h].orig)
  }

  ghost predicate Idles(w': View, w: View) {
    Unchanged(w', w) && w'.claims == w.claims
  }

  /** One step of the protocol that changes no claim but `h`. */
  ghost predicate NextAt(w': View, w: View, h: nat) {
    || Idles(w', w)
    || (exists v, region, m :: Settled(w', w, h, v, region, m))
    || (exists c :: Granted(w', w, h, c))
    || (exists m :: Taken(w', w, h, m))
    || GivenBack(w', w, h)
    || Ended(w', w, h)
  }

  /** A page in an exclusively owned state is under no claim, and no other VM has it. */
  lemma OwnedPage(w: View, v: VmId, p: nat)
    requires Inv(w) && p < w.pages && v < w.vms && StateClear(w.mode(v, p))
    ensures Uncovered(w, p)
    ensures forall u: nat :: u < w.vms && u != v ==> Unmapped(w.mode(u, p))
  {
    assert PageInv(w, p);
    forall g: nat
      ensures !Covers(w, g, p)
    {
      if Covers(w, g, p) {
        CoveredPage(w, g, p);
        assert false;
      }
    }
  }

  /** Pages outside the region of the claim that changed stay as they were. */
  lemma OtherPage(w: View, w': View, h: nat, v: VmId, region: set<nat>, m: Mode, p: nat)
    requires Inv(w) && Changed(w', w, v, region, m) && OnlyClaim(w', w, h)
    requires w.claims[h].Claim? ==> w.claims[h].region == region
    requires w'.claims[h].Claim? ==> w'.claims[h].region == region
    requires p < w.pages && p !in region
    ensures PageInv(w', p)
  {
    assert PageInv(w, p);
    assert forall g: nat :: Covers(w', g, p) <==> Covers(w, g, p);
    forall g: nat, u: nat | Covers(w', g, p) && u < w'.vms
      ensures Fits(w'.claims[g], u, w'.mode(u, p))
    {
      assert Fits(w.claims[g], u, w.mode(u, p));
    }
    if Uncovered(w', p) {
      assert Exclusive(w, p);
    }
  }

  lemma GrantedPage(w: View, w': View, h: nat, c: Claim, p: nat)
    requires Inv(w) && Granted(w', w, h, c) && p in c.region
    ensures PageInv(w', p)
  {
    OwnedPage(w, c.sender, p);
    forall g: nat | Covers(w', g, p)
      ensures g == h
    {
      assert !Covers(w, g, p);
    }
    assert Covers(w', h, p);
  }

  lemma TakenPage(w: View, w': View, h: nat, m: Mode, p: nat)
    requires Inv(w) && Taken(w', w, h, m) && p in w.claims[h].region
    ensures PageInv(w', p)
  {
    assert ClaimInv(w, w.claims[h]) && Covers(w, h, p);
    CoveredPage(w, h, p);
    assert forall g: nat :: Covers(w', g, p) ==> Covers(w, g, p);
    if w.claims[h].func != Donate {
      assert Covers(w', h, p);
    }
  }

  lemma GivenBackPage(w: View, w': View, h: nat, p: nat)
    requires Inv(w) && GivenBack(w', w, h) && p in w.claims[h].region
    ensures PageInv(w', p)
  {
    assert ClaimInv(w, w.claims[h]) && Covers(w, h, p);
    CoveredPage(w, h, p);
    assert forall g: nat :: Covers(w', g, p) ==> Covers(w, g, p);
    assert Covers(w', h, p);
  }

  lemma EndedPage(w: View, w': View, h: nat, p: nat)
    requires Inv(w) && Ended(w', w, h) && p in w.claims[h].region
    ensures PageInv(w', p)
  {
    assert ClaimInv(w, w.claims[h]) && Covers(w, h, p);
    CoveredPage(w, h, p);
    assert forall g: nat :: Covers(w', g, p) ==> Covers(w, g, p);
    assert Uncovered(w', p);
  }

  /** The claims that did not change are as valid as before: their pages are other pages. */
  lemma OtherClaims(w: View, w': View, h: nat, v: VmId, region: set<nat>, m: Mode)
    requires Inv(w) && Changed(w', w, v, region, m) && OnlyClaim(w', w, h)
    requires forall g: nat, p :: g < |w.claims| && g != h && p in region ==> !Covers(w, g, p)
    requires ClaimInv(w', w'.claims[h])
    ensures forall g :: 0 <= g < |w'.claims| ==> ClaimInv(w', w'.claims[g])
  {
    forall g | 0 <= g < |w'.claims| && g != h
      ensures ClaimInv(w', w'.claims[g])
    {
      var c := w.claims[g];
      assert ClaimInv(w, c);
      if c.Claim? {
        assert forall p :: p in c.region ==> Covers(w, g, p);
        assert forall p :: p in c.region ==> w'.mode(c.receiver, p) == w.mode(c.receiver, p);
      }
    }
  }

  lemma RegionIsFree(w: View, h: nat, region: set<nat>)
    requires Inv(w) && h < |w.claims| && w.claims[h].Claim? && region == w.claims[h].region
    ensures ClaimInv(w, w.claims[h])
    ensures forall g: nat, p :: g < |w.claims| && g != h && p in region ==> !Covers(w, g, p)
  {
    assert ClaimInv(w, w.claims[h]);
    forall g: nat, p | g < |w.claims| && g != h && p in region
      ensures !Covers(w, g, p)
    {
      assert Covers(w, h, p) && PageInv(w, p);
    }
  }

  lemma IdlesKeepsInv(w: View, w': View)
    requires Inv(w) && Idles(w', w)
    ensures Inv(w')
  {
    forall h | 0 <= h < |w'.claims|
      ensures ClaimInv(w', w'.claims[h])
    {
      assert ClaimInv(w, w.claims[h]);
    }
    forall p: nat | p < w'.pages
      ensures PageInv(w', p)
    {
      IdlePage(w, w', p);
    }
  }

  lemma GrantedKeepsInv(w: View, w': View, h: nat, c: Claim)
    requires Inv(w) && Granted(w', w, h, c)
    ensures Inv(w')
  {
    var m := Stored(SentMode(c.func, c.orig));
    forall g: nat, p | g < |w.claims| && g != h && p in c.region
      ensures !Covers(w, g, p)
    {
      OwnedPage(w, c.sender, p);
    }
    OtherClaims(w, w', h, c.sender, c.region, m);
    forall p: nat | p < w'.pages
      ensures PageInv(w', p)
    {
      if p in c.region {
        GrantedPage(w, w', h, c, p);
      } else {
        OtherPage(w, w', h, c.sender, c.region, m, p);
      }
    }
  }

  lemma TakenKeepsInv(w: View, w': View, h: nat, m: Mode)
    requires Inv(w) && Taken(w', w, h, m)
    ensures Inv(w')
  {
    var c := w.claims[h];
    RegionIsFree(w, h, c.region);
    OtherClaims(w, w', h, c.receiver, c.region, RetrievedMode(c.func, m));
    forall p: nat | p < w'.pages
      ensures PageInv(w', p)
    {
      if p in c.region {
        TakenPage(w, w', h, m, p);
      } else {
        OtherPage(w, w', h, c.receiver, c.region, RetrievedMode(c.func, m), p);
      }
    }
  }

  lemma GivenBackKeepsInv(w: View, w': View, h: nat)
    requires Inv(w) && GivenBack(w', w, h)
    ensures Inv(w')
  {
    var c := w.claims[h];
    RegionIsFree(w, h, c.region);
    OtherClaims(w, w', h, c.receiver, c.region, ABSENT_MODE);
    forall p: nat | p < w'.pages
      ensures PageInv(w', p)
    {
      if p in c.region {
        GivenBackPage(w, w', h, p);
      } else {
        OtherPage(w, w', h, c.receiver, c.region, ABSENT_MODE, p);
      }
    }
  }

  lemma EndedKeepsInv(w: View, w': View, h: nat)
    requires Inv(w) && Ended(w', w, h)
    ensures Inv(w')
  {
    var c := w.claims[h];
    RegionIsFree(w, h, c.region);
    OtherClaims(w, w', h, c.sender, c.region, c.orig);
    forall p: nat | p < w'.pages
      ensures PageInv(w', p)
    {
      if p in c.region {
        EndedPage(w, w', h, p);
      } else {
        OtherPage(w, w', h, c.sender, c.region, c.orig, p);
      }
    }
  }

  lemma SettledPage(w: View, w': View, h: nat, v: VmId, region: set<nat>, m: Mode, p: nat)
    requires Inv(w) && Settled(w', w, h, v, region, m) && p < w.pages
    ensures PageInv(w', p)
  {
    assert PageInv(w, p);
    assert forall g: nat :: Covers(w', g, p) <==> Covers(w, g, p);
    if p in region {
      OwnedPage(w, v, p);
      assert Uncovered(w', p);
    } else {
      assert Uncovered(w, p) ==> Exclusive(w, p);
    }
  }

  lemma SettledClaim(w: View, w': View, h: nat, v: VmId, region: set<nat>, m: Mode, g: nat)
    requires Inv(w) && Settled(w', w, h, v, region, m) && g < |w.claims|
    ensures ClaimInv(w', w'.claims[g])
  {
    var c := w.claims[g];
    assert ClaimInv(w, c);
    if c.Claim? {
      forall p | p in c.region
        ensures w'.mode(c.receiver, p) == w.mode(c.receiver, p)
      {
        assert Covers(w, g, p);
        if p in region {
          OwnedPage(w, v, p);
          assert false;
        }
      }
    }
  }

  lemma SettledKeepsInv(w: View, w': View, h: nat, v: VmId, region: set<nat>, m: Mode)
    requires Inv(w) && Settled(w', w, h, v, region, m)
    ensures Inv(w')
  {
    forall g | 0 <= g < |w'.claims|
      ensures ClaimInv(w', w'.claims[g])
    {
      SettledClaim(w, w', h, v, region, m, g);
    }
    forall p: nat | p < w'.pages
      ensures PageInv(w', p)
    {
      SettledPage(w, w', h, v, region, m, p);
    }
  }

  /** Every step keeps the invariant. */
  lemma NextKeepsInv(w: View, w': View, h: nat)
    requires Inv(w) && NextAt(w', w, h)
    ensures Inv(w')
  {
    if Idles(w', w) {
      IdlesKeepsInv(w, w');
    } else if v, region, m :| Settled(w', w, h, v, region, m) {
      SettledKeepsInv(w, w', h, v, region, m);
    } else if c :| Granted(w', w, h, c) {
      GrantedKeepsInv(w, w', h, c);
    } else if m :| Taken(w', w, h, m) {
      TakenKeepsInv(w, w', h, m);
    } else if GivenBack(w', w, h) {
      GivenBackKeepsInv(w, w', h);
    } else {
      EndedKeepsInv(w, w', h);
    }
  }

  lemma IdlePage(w: View, w': View, p: nat)
    requires Inv(w) && Idles(w', w) && p < w.pages
    ensures PageInv(w', p)
  {
    assert PageInv(w, p);
    assert forall g: nat :: Covers(w', g, p) <==> Covers(w, g, p);
    assert Uncovered(w, p) ==> Exclusive(w, p);
  }

  /** A page with the given claim on it, or with the given owner, is accounted for. */
  lemma AccountedBy(w: View, p: nat, h: nat, v: VmId)
    requires (Covers(w, h, p) && w.claims[h].func == Donate) || (v < w.vms && Owns(w.mode(v, p)))
    ensures Accounted(w, p)
  {
  }

  lemma AccountsOutside(w: View, w': View, h: nat, v: VmId, region: set<nat>, m: Mode, p: nat)
    requires Changed(w', w, v, region, m) && OnlyClaim(w', w, h) && p < w.pages && p !in region
    requires w.claims[h].Claim? ==> w.claims[h].region == region
    requires w'.claims[h].Claim? ==> w'.claims[h].region == region
    ensures Accounted(w', p) <==> Accounted(w, p)
  {
    assert forall g: nat :: Covers(w', g, p) <==> Covers(w, g, p);
    assert forall g: nat :: Covers(w, g, p) ==> w'.claims[g] == w.claims[g];
    assert forall u: nat :: u < w.vms ==> w'.mode(u, p) == w.mode(u, p);
  }

  lemma ClaimedIsAccounted(w: View, h: nat, p: nat)
    requires Inv(w) && p < w.pages && Covers(w, h, p)
    ensures Accounted(w, p)
  {
    CoveredPage(w, h, p);
    AccountedBy(w, p, h, w.claims[h].sender);
  }

  /** No step makes a page appear or disappear: whether it is accounted for does not change. */
  lemma NextKeepsAccounts(w: View, w': View, h: nat, p: nat)
    requires Inv(w) && NextAt(w', w, h) && p < w.pages
    ensures Accounted(w', p) <==> Accounted(w, p)
  {
    NextKeepsInv(w, w', h);
    if Idles(w', w) {
      assert forall g: nat :: Covers(w', g, p) <==> Covers(w, g, p);
      assert forall u: nat :: u < w.vms ==> w'.mode(u, p) == w.mode(u, p);
    } else if v, region, m :| Settled(w', w, h, v, region, m) {
      assert forall g: nat :: Covers(w', g, p) <==> Covers(w, g, p);
      if p in region {
        AccountedBy(w, p, h, v);
        AccountedBy(w', p, h, v);
      } else {
        assert forall u: nat :: u < w.vms ==> w'.mode(u, p) == w.mode(u, p);
      }
    } else if c :| Granted(w', w, h, c) {
      if p in c.region {
        AccountedBy(w, p, h, c.sender);
        ClaimedIsAccounted(w', h, p);
      } else {
        AccountsOutside(w, w', h, c.sender, c.region, Stored(SentMode(c.func, c.orig)), p);
      }
    } else if m :| Taken(w', w, h, m) {
      var c := w.claims[h];
      if p in c.region {
        ClaimedIsAccounted(w, h, p);
        CoveredPage(w, h, p);
        AccountedBy(w', p, h, if c.func == Donate then c.receiver else c.sender);
      } else {
        AccountsOutside(w, w', h, c.receiver, c.region, RetrievedMode(c.func, m), p);
      }
    } else if GivenBack(w', w, h) {
      var c := w.claims[h];
      if p in c.region {
        ClaimedIsAccounted(w, h, p);
        ClaimedIsAccounted(w', h, p);
      } else {
        AccountsOutside(w, w', h, c.receiver, c.region, ABSENT_MODE, p);
      }
    } else {
      var c := w.claims[h];
      if p in c.region {
        ClaimedIsAccounted(w, h, p);
        CoveredPage(w, h, p);
        AccountedBy(w', p, h, c.sender);
      } else {
        AccountsOutside(w, w', h, c.sender, c.region, c.orig, p);
      }
    }
  }

  // ---- Exactly when a send keeps the invariant ----

  /** No page is accounted for that was not before. */
  ghost predicate NoNewAccounts(w': View, w: View) {
    forall p: nat :: p < w.pages && Accounted(w', p) ==> Accounted(w, p)
  }

  /** A claim on memory of the sender appears, whatever that memory was. */
  ghost predicate Claimed(w': View, w: View, h: nat, c: Claim) {
    && c.Claim? && ClaimInv(w, c) && !c.taken && OnlyClaim(w', w, h) && w.claims[h] == Idle && w'.claims[h] == c
    && Changed(w', w, c.sender, c.region, Stored(SentMode(c.func, c.orig)))
  }

  /** It keeps the invariant, and makes nothing out of nowhere, if and only if the sender owned
      all of the memory exclusively. */
  lemma ClaimKeepsIff(w: View, w': View, h: nat, c: Claim)
    requires Inv(w) && Claimed(w', w, h, c)
    ensures Inv(w') && NoNewAccounts(w', w) <==> OwnsRegion(w, c.sender, c.region)
  {
    if OwnsRegion(w, c.sender, c.region) {
      assert Granted(w', w, h, c);
      GrantedKeepsInv(w, w', h, c);
      forall p: nat | p < w.pages && Accounted(w', p)
        ensures Accounted(w, p)
      {
        NextKeepsAccounts(w, w', h, p);
      }
    }
    if Inv(w') && NoNewAccounts(w', w) {
      forall p | p in c.region
        ensures p < w.pages && StateClear(w.mode(c.sender, p))
      {
        ClaimedWasOwned(w, w', h, c, p);
      }
    }
  }

  lemma ClaimedWasOwned(w: View, w': View, h: nat, c: Claim, p: nat)
    requires Inv(w) && Claimed(w', w, h, c) && Inv(w') && NoNewAccounts(w', w) && p in c.region
    ensures p < w.pages && StateClear(w.mode(c.sender, p))
  {
    assert Covers(w', h, p);
    CoveredPage(w', h, p);
    ClaimedIsAccounted(w', h, p);
    forall g: nat
      ensures !Covers(w, g, p)
    {
      assert Covers(w, g, p) ==> g != h && Covers(w', g, p);
    }
    forall v: nat | v < w.vms && v != c.sender
      ensures Unmapped(w.mode(v, p))
    {
      assert Fits(c, v, w'.mode(v, p));
    }
    assert Accounted(w, p);
    var v: nat :| v < w.vms && Owns(w.mode(v, p));
    assert PageInv(w, p) && Exclusive(w, p);
  }

  /** The memory is in an exclusive mode in VM `v` now, whatever it was. */
  ghost predicate Seized(w': View, w: View, v: VmId, region: set<nat>, m: Mode) {
    && v < w.vms && StateClear(m) && w'.claims == w.claims && Changed(w', w, v, region, m)
    && forall p :: p in region ==> p < w.pages
  }

  /** That keeps the invariant, and makes nothing out of nowhere, if and only if the VM owned all of
      the memory exclusively before. */
  lemma SeizeKeepsIff(w: View, w': View, h: nat, v: VmId, region: set<nat>, m: Mode)
    requires Inv(w) && Seized(w', w, v, region, m) && h < |w.claims| && w.claims[h] == Idle
    ensures Inv(w') && NoNewAccounts(w', w) <==> OwnsRegion(w, v, region)
  {
    if OwnsRegion(w, v, region) {
      assert Settled(w', w, h, v, region, m);
      SettledKeepsInv(w, w', h, v, region, m);
      forall p: nat | p < w.pages && Accounted(w', p)
        ensures Accounted(w, p)
      {
        NextKeepsAccounts(w, w', h, p);
      }
    }
    if Inv(w') && NoNewAccounts(w', w) {
      forall p | p in region
        ensures p < w.pages && StateClear(w.mode(v, p))
      {
        SeizedWasOwned(w, w', v, region, m, p);
      }
    }
  }

  lemma SeizedWasOwned(w: View, w': View, v: VmId, region: set<nat>, m: Mode, p: nat)
    requires Inv(w) && Seized(w', w, v, region, m) && Inv(w') && NoNewAccounts(w', w) && p in region
    ensures p < w.pages && StateClear(w.mode(v, p))
  {
    OwnedPage(w', v, p);
    assert Owns(w'.mode(v, p));
    assert Accounted(w', p) && Accounted(w, p);
    assert forall g: nat :: Covers(w, g, p) <==> Covers(w', g, p);
    var u: nat :| u < w.vms && Owns(w.mode(u, p));
    assert u != v ==> Unmapped(w'.mode(u, p));
    assert PageInv(w, p) && Exclusive(w, p);
  }
}
