/** The FF-A memory sharing calls between VMs (`ffa_memory.c` and its callers in `api.c`):
    donate, lend and share in one or more fragments, retrieve, relinquish and reclaim, each as a
    function from the state before the call to the state after it.

    Memory is sent to one receiver. Calls hold the share-state lock from lookup to return and so
    are atomic. Whether clearing memory fails is a parameter of the calls that clear. */
module FfaMemory {
  import opened Collections
  import opened PageTree
  import opened MapLevel
  import opened IdentityMap
  import opened Stage2Pte
  import opened Region
  import opened RegionMode
  import opened Ownership

  const MAX_MEM_SHARES: nat := 100
  const MAX_FRAGMENTS: nat := 20
  const CONSTITUENT_SIZE: nat := 16
  const HF_MAILBOX_SIZE: nat := 4096
  const MAX_FRAGMENT_CONSTITUENTS: nat := HF_MAILBOX_SIZE / CONSTITUENT_SIZE

  /** Where the constituents start behind the smallest headers: the region's 32 bytes, one
      receiver's 16 and the composite's 16. */
  const CONSTITUENTS_OFFSET: nat := 32 + 16 + 16

  datatype DataAccess = DataUnspecified | ReadOnly | ReadWrite | DataReserved
  datatype InstructionAccess = InstructionUnspecified | NotExecutable | Executable | InstructionReserved
  datatype Permissions = Permissions(data: DataAccess, instruction: InstructionAccess)

  /** A memory region descriptor. `offset` is where the constituents start in the message, and
      `count` how many of them all fragments have together. */
  datatype Descriptor = Descriptor(sender: VmId, receiver: VmId, permissions: Permissions, clear: bool,
                                   otherFlags: bool, tag: nat, offset: nat, count: nat)

  /** A retrieve request. `flagsValid` says that the bits that must be zero are. */
  datatype Request = Request(handle: nat, sender: VmId, receiver: VmId, tag: nat, func: MaybeFunc,
                             permissions: Permissions, clear: bool, clearRelinquish: bool, flagsValid: bool)
  datatype MaybeFunc = Unspecified | Expected(func: ShareFunc)

  /** A share state. The first page holds the descriptor and the first fragment, the others one
      fragment each. */
  datatype Share =
    | Unallocated
    | Share(func: ShareFunc, desc: Descriptor, fragments: seq<seq<Constituent>>, pages: seq<Page>,
            complete: bool, origMode: Mode, retrieved: nat)

  /** `limit` is the first physical address beyond the supported range. */
  datatype State = State(vms: seq<Ptable>, shares: seq<Share>, pool: Pool, limit: nat)

  datatype Status =
    | Sent(handle: nat)
    | NextFragment(handle: nat, offset: nat)
    | Received(constituents: seq<Constituent>)
    | Completed
    | Error(error: RegionMode.Error)

  datatype Outcome = Outcome(state: State, status: Status)

  function Flat(fragments: seq<seq<Constituent>>): seq<Constituent> {
    if fragments == [] then [] else fragments[0] + Flat(fragments[1..])
  }

  lemma {:induction false} FlatSnoc(fs: seq<seq<Constituent>>, f: seq<Constituent>)
    ensures Flat(fs + [f]) == Flat(fs) + f
  {
    if fs == [] {
      assert fs + [f] == [f];
      assert [f][1..] == [];
    } else {
      assert (fs + [f])[1..] == fs[1..] + [f];
      FlatSnoc(fs[1..], f);
    }
  }

  /** The page-table operation that puts memory in mode `m` (`mm_mode_to_flags`). */
  function OpOf(m: Mode): (op: Op)
    ensures WfOp(op) && Val(op) == AttrsOf(m)
  {
    ModeOfAttrsOf(m);
    if Unmapped(m) then Unmap else Map(AttrsOf(m))
  }

  // ---- Modes and permissions ----

  /** `ffa_memory_permissions_to_mode`; reserved values have been refused before. */
  function PermissionsToMode(p: Permissions, d: Mode): Mode
    requires p.data != DataReserved && p.instruction != InstructionReserved
  {
    Mode(
      p.data == ReadOnly || p.data == ReadWrite || (p.data == DataUnspecified && d.r),
      p.data == ReadWrite || (p.data == DataUnspecified && d.w),
      p.instruction == Executable || (p.instruction == InstructionUnspecified && d.x),
      false, false, false, false)
  }

  predicate PermissionsWithin(m: Mode, d: Mode) {
    (m.r ==> d.r) && (m.w ==> d.w) && (m.x ==> d.x)
  }

  datatype Transition = Allowed(orig: Mode, next: Mode) | Refused(error: RegionMode.Error)

  predicate ValidPermissions(p: Permissions) {
    p.data != DataReserved && p.instruction != InstructionReserved
  }

  function SendTransition(t: Ptable, func: ShareFunc, p: Permissions, fragments: seq<seq<Constituent>>): Transition
    requires ValidTable(t) && ValidPermissions(p)
  {
    var m := RegionModeOf(t, fragments);
    if m.Failed? then Refused(m.error)
    else if m.mode.d || !StateClear(m.mode) then Refused(Denied)
    else if !PermissionsWithin(PermissionsToMode(p, m.mode), m.mode) then Refused(Denied)
    else Allowed(m.mode, SentMode(func, m.mode))
  }

  function RelinquishTransition(t: Ptable, fragments: seq<seq<Constituent>>): Transition
    requires ValidTable(t)
  {
    var m := RegionModeOf(t, fragments);
    if m.Failed? then Refused(m.error)
    else if m.mode.d || m.mode.invalid || !m.mode.unowned then Refused(Denied)
    else Allowed(m.mode, m.mode.(invalid := true, unowned := true, shared := false))
  }

  function RetrieveTransition(t: Ptable, func: ShareFunc, p: Mode, fragments: seq<seq<Constituent>>): Transition
    requires ValidTable(t)
  {
    var m := RegionModeOf(t, fragments);
    if m.Failed? then Refused(m.error)
    else if !Unmapped(m.mode) then Refused(Denied)
    else Allowed(m.mode, RetrievedMode(func, p))
  }

  /** For a reclaim the code asserts that the mode found has a state bit set. */
  function ReclaimTransition(t: Ptable, orig: Mode, fragments: seq<seq<Constituent>>): Transition
    requires ValidTable(t)
  {
    var m := RegionModeOf(t, fragments);
    if m.Failed? then Refused(m.error) else Allowed(m.mode, orig)
  }

  /** The constituents behind `offset` can be read as 64-bit values: fragments are stored from the
      start of a page on, the first one with its headers. */
  predicate WordAligned(offset: nat) {
    offset % 8 == 0
  }

  /** The checks of `ffa_send_check_update`. */
  function SendCheck(t: Ptable, sh: Share): Transition
    requires ValidTable(t) && sh.Share? && ValidPermissions(sh.desc.permissions)
  {
    if !WordAligned(sh.desc.offset) then Refused(InvalidParameters)
    else SendTransition(t, sh.func, sh.desc.permissions, sh.fragments)
  }

  /** The checks of `ffa_retrieve_check_update` for a retrieve, and for a reclaim. */
  function RetrieveCheck(t: Ptable, sh: Share, p: Mode): Transition
    requires ValidTable(t) && sh.Share?
  {
    if !WordAligned(sh.desc.offset) then Refused(InvalidParameters) else RetrieveTransition(t, sh.func, p, sh.fragments)
  }

  function ReclaimCheck(t: Ptable, sh: Share): Transition
    requires ValidTable(t) && sh.Share?
  {
    if !WordAligned(sh.desc.offset) then Refused(InvalidParameters) else ReclaimTransition(t, sh.origMode, sh.fragments)
  }

  /** `ffa_memory_retrieve_is_memory_access_valid`: the permissions the receiver gets, or none. */
  function GrantedData(sent: DataAccess, wanted: DataAccess): DataAccess {
    if (sent == DataUnspecified || sent == ReadWrite) && (wanted == DataUnspecified || wanted == ReadWrite) then
      ReadWrite
    else if sent != DataReserved && (wanted == DataUnspecified || wanted == ReadOnly) then ReadOnly
    else DataReserved
  }

  function GrantedInstruction(sent: InstructionAccess, wanted: InstructionAccess): InstructionAccess {
    if (sent == InstructionUnspecified || sent == Executable)
       && (wanted == InstructionUnspecified || wanted == Executable)
    then Executable
    else if sent != InstructionReserved && (wanted == InstructionUnspecified || wanted == NotExecutable) then
      NotExecutable
    else InstructionReserved
  }

  function GrantedPermissions(sent: Permissions, wanted: Permissions): Permissions {
    Permissions(GrantedData(sent.data, wanted.data), GrantedInstruction(sent.instruction, wanted.instruction))
  }

  // ---- Share states ----

  /** `allocate_share_state` takes the first unallocated entry. */
  function FirstFree(shares: seq<Share>): (i: nat)
    ensures i <= |shares| && (i < |shares| ==> shares[i].Unallocated?)
    ensures forall k :: 0 <= k < i ==> shares[k].Share?
  {
    if shares == [] then 0
    else if shares[0].Unallocated? then 0
    else
      var i := FirstFree(shares[1..]);
      assert forall k :: 1 <= k < i + 1 ==> shares[k] == shares[1..][k - 1];
      i + 1
  }

  /** `get_share_state`: handles are indices into the table. */
  predicate IsLive(s: State, h: nat) {
    h < |s.shares| && s.shares[h].Share?
  }

  /** `share_state_free`: the descriptor's page goes to the pool first. */
  function FreeShare(s: State, h: nat): State
    requires IsLive(s, h)
  {
    s.(shares := s.shares[h := Unallocated], pool := Reversed(s.shares[h].pages) + s.pool)
  }

  function NextOffset(sh: Share): nat
    requires sh.Share?
  {
    sh.desc.offset + CONSTITUENT_SIZE * |Flat(sh.fragments)|
  }

  predicate ValidVms(s: State) {
    forall v :: 0 <= v < |s.vms| ==> ValidTable(s.vms[v])
  }

  /** `ffa_memory_send_complete` and `ffa_send_check_update`. */
  function SendComplete(s: State, h: nat, clearFails: bool): Outcome
    requires ValidVms(s) && IsLive(s, h) && s.shares[h].desc.sender < |s.vms|
    requires ValidPermissions(s.shares[h].desc.permissions)
  {
    var sh := s.shares[h];
    var v := sh.desc.sender;
    var tr := SendCheck(s.vms[v], sh);
    if tr.Refused? then
      Outcome(FreeShare(s, h), Error(tr.error))
    else
      var r := ShrinkUpdate(s.vms[v], Flat(sh.fragments), OpOf(tr.next), OpOf(tr.orig), sh.desc.clear && clearFails,
                            s.pool, s.limit);
      var s1 := s.(vms := s.vms[v := r.table], pool := r.pool);
      if r.ok then
        Outcome(s1.(shares := s1.shares[h := sh.(complete := true, origMode := tr.orig)]), Sent(h))
      else
        Outcome(FreeShare(s1, h), Error(NoMemory))
  }

  /** `ffa_memory_send_validate`: the descriptor to store, or an error. */
  predicate SendPermissionsValid(func: ShareFunc, p: Permissions) {
    && ValidPermissions(p)
    && p.instruction == InstructionUnspecified
    && (func == Donate <==> p.data == DataUnspecified)
  }

  function StoredDescriptor(func: ShareFunc, d: Descriptor): Descriptor {
    if func == ShareMemory then d.(permissions := d.permissions.(instruction := NotExecutable)) else d
  }

  /** `api_ffa_mem_send` and `ffa_memory_send`. A call that is refused puts the page it took for
      the descriptor back and so leaves the state as it was. */
  function Send(s: State, caller: VmId, func: ShareFunc, d: Descriptor, fragment: seq<Constituent>,
                clearFails: bool): Outcome
    requires ValidVms(s) && caller < |s.vms|
  {
    if |fragment| > d.count || d.offset + CONSTITUENT_SIZE * |fragment| > HF_MAILBOX_SIZE then
      Outcome(s, Error(InvalidParameters))
    else if s.pool == [] then Outcome(s, Error(NoMemory))
    else if d.sender != caller then Outcome(s, Error(Denied))
    else if (func == ShareMemory && d.clear) || d.otherFlags then Outcome(s, Error(InvalidParameters))
    else if d.receiver >= |s.vms| || d.receiver == caller then Outcome(s, Error(InvalidParameters))
    else if d.offset < CONSTITUENTS_OFFSET then Outcome(s, Error(InvalidParameters))
    else if !SendPermissionsValid(func, d.permissions) then Outcome(s, Error(InvalidParameters))
    else
      var h := FirstFree(s.shares);
      if h == |s.shares| then Outcome(s, Error(NoMemory))
      else
        var sh := Share(func, StoredDescriptor(func, d), [fragment], [s.pool[0]], false, ABSENT_MODE, 0);
        var s1 := s.(shares := s.shares[h := sh], pool := s.pool[1..]);
        if |fragment| == d.count then SendComplete(s1, h, clearFails)
        else Outcome(s1, NextFragment(h, NextOffset(sh)))
  }

  /** The share states a call may have to complete are well-formed. */
  predicate ValidShares(s: State) {
    forall h :: 0 <= h < |s.shares| && s.shares[h].Share? ==>
      s.shares[h].desc.sender < |s.vms| && s.shares[h].desc.receiver < |s.vms|
        && ValidPermissions(s.shares[h].desc.permissions)
  }

  /** `api_ffa_mem_frag_tx` and `ffa_memory_send_continue`. */
  function SendFragment(s: State, caller: VmId, h: nat, fragment: seq<Constituent>, clearFails: bool): Outcome
    requires ValidVms(s) && ValidShares(s) && caller < |s.vms|
  {
    if fragment == [] || |fragment| > MAX_FRAGMENT_CONSTITUENTS then Outcome(s, Error(InvalidParameters))
    else if s.pool == [] then Outcome(s, Error(NoMemory))
    else if !IsLive(s, h) || s.shares[h].desc.sender != caller || s.shares[h].complete then
      Outcome(s, Error(InvalidParameters))
    else
      var sh := s.shares[h];
      var s0 := s.(pool := s.pool[1..]);
      if |sh.fragments| == MAX_FRAGMENTS then
        var s1 := FreeShare(s0, h);
        Outcome(s1.(pool := [s.pool[0]] + s1.pool), Error(NoMemory))
      else
        var sh' := sh.(fragments := sh.fragments + [fragment], pages := sh.pages + [s.pool[0]]);
        var s1 := s0.(shares := s0.shares[h := sh']);
        if |Flat(sh'.fragments)| == sh.desc.count then SendComplete(s1, h, clearFails)
        else Outcome(s1, NextFragment(h, NextOffset(sh')))
  }

  /** `ffa_memory_retrieve_complete`: a donated region's share state is not needed any more. */
  function AfterRetrieving(s: State, h: nat): State
    requires IsLive(s, h)
  {
    if s.shares[h].retrieved == |s.shares[h].fragments| && s.shares[h].func == Donate then FreeShare(s, h) else s
  }

  datatype Access = Access(mode: Mode) | NoAccess(error: RegionMode.Error)

  /** `ffa_memory_retrieve_validate` and the checks of the requested permissions: the access the
      receiver gets. */
  function RetrieveAccess(s: State, caller: VmId, q: Request): (a: Access)
    ensures a.Access? ==>
              && IsLive(s, q.handle) && s.shares[q.handle].complete && s.shares[q.handle].retrieved == 0
              && s.shares[q.handle].desc.receiver == caller && StateClear(a.mode) && !a.mode.d
  {
    if !IsLive(s, q.handle) || !s.shares[q.handle].complete then NoAccess(InvalidParameters)
    else
      var sh := s.shares[q.handle];
      if sh.desc.receiver != caller || q.receiver != caller then NoAccess(InvalidParameters)
      else if sh.retrieved != 0 then NoAccess(Denied)
      else if q.func.Expected? && q.func.func != sh.func then NoAccess(InvalidParameters)
      else if q.sender != sh.desc.sender then NoAccess(Denied)
      else if q.tag != sh.desc.tag || !q.flagsValid then NoAccess(InvalidParameters)
      else if sh.func == ShareMemory && (q.clear || q.clearRelinquish) then NoAccess(InvalidParameters)
      else if q.clear && !sh.desc.clear then NoAccess(Denied)
      else
        var p := GrantedPermissions(sh.desc.permissions, q.permissions);
        if !ValidPermissions(p) then NoAccess(Denied)
        else if p.data == ReadOnly && q.clear then NoAccess(Denied)
        else Access(PermissionsToMode(p, sh.origMode))
  }

  /** `ffa_memory_retrieve` and `ffa_retrieve_check_update`. */
  function Retrieve(s: State, caller: VmId, q: Request): Outcome
    requires ValidVms(s) && ValidShares(s) && caller < |s.vms|
  {
    var a := RetrieveAccess(s, caller, q);
    if a.NoAccess? then Outcome(s, Error(a.error))
    else
      var sh := s.shares[q.handle];
      var t := s.vms[caller];
      var tr := RetrieveCheck(t, sh, a.mode);
      if tr.Refused? then Outcome(s, Error(tr.error))
      else
        var r := GrowUpdate(t, Flat(sh.fragments), OpOf(tr.next), false, s.pool, s.limit);
        var s1 := s.(vms := s.vms[caller := r.table], pool := r.pool);
        if !r.ok then Outcome(s1, Error(NoMemory))
        else
          var s2 := s1.(shares := s1.shares[q.handle := sh.(retrieved := 1)]);
          Outcome(AfterRetrieving(s2, q.handle), Received(if sh.fragments == [] then [] else sh.fragments[0]))
  }

  /** `ffa_memory_retrieve_continue`. */
  function RetrieveFragment(s: State, caller: VmId, h: nat, offset: nat): Outcome {
    if !IsLive(s, h) then Outcome(s, Error(InvalidParameters))
    else
      var sh := s.shares[h];
      if sh.desc.receiver != caller || !sh.complete then Outcome(s, Error(InvalidParameters))
      else if sh.retrieved == 0 || sh.retrieved >= |sh.fragments| then Outcome(s, Error(InvalidParameters))
      else if offset != sh.desc.offset + CONSTITUENT_SIZE * |Flat(sh.fragments[..sh.retrieved])| then
        Outcome(s, Error(InvalidParameters))
      else
        var s1 := s.(shares := s.shares[h := sh.(retrieved := sh.retrieved + 1)]);
        Outcome(AfterRetrieving(s1, h), Received(sh.fragments[sh.retrieved]))
  }

  /** `ffa_memory_relinquish` and `ffa_relinquish_check_update`. */
  function Relinquish(s: State, caller: VmId, h: nat, clear: bool, clearFails: bool): Outcome
    requires ValidVms(s) && caller < |s.vms|
  {
    if !IsLive(s, h) || !s.shares[h].complete || s.shares[h].desc.receiver != caller then
      Outcome(s, Error(InvalidParameters))
    else
      var sh := s.shares[h];
      if sh.retrieved != |sh.fragments| || (clear && sh.func == ShareMemory) then Outcome(s, Error(InvalidParameters))
      else
        var t := s.vms[caller];
        var tr := RelinquishTransition(t, sh.fragments);
        if tr.Refused? then Outcome(s, Error(tr.error))
        else
          var r := ShrinkUpdate(t, Flat(sh.fragments), OpOf(tr.next), OpOf(tr.orig), clear && clearFails, s.pool,
                                s.limit);
          var s1 := s.(vms := s.vms[caller := r.table], pool := r.pool);
          if r.ok then Outcome(s1.(shares := s1.shares[h := sh.(retrieved := 0)]), Completed)
          else Outcome(s1, Error(NoMemory))
  }

  /** `ffa_memory_reclaim`. */
  function Reclaim(s: State, caller: VmId, h: nat, clear: bool, clearFails: bool): Outcome
    requires ValidVms(s) && caller < |s.vms|
  {
    if !IsLive(s, h) || s.shares[h].desc.sender != caller || !s.shares[h].complete then
      Outcome(s, Error(InvalidParameters))
    else
      var sh := s.shares[h];
      if sh.retrieved != 0 then Outcome(s, Error(Denied))
      else
        var t := s.vms[caller];
        var tr := ReclaimCheck(t, sh);
        if tr.Refused? then Outcome(s, Error(tr.error))
        else
          var r := GrowUpdate(t, Flat(sh.fragments), OpOf(tr.next), clear && clearFails, s.pool, s.limit);
          var s1 := s.(vms := s.vms[caller := r.table], pool := r.pool);
          if r.ok then Outcome(FreeShare(s1, h), Completed) else Outcome(s1, Error(NoMemory))
  }

  // ---- Calls ----

  datatype Call =
    | CallSend(func: ShareFunc, desc: Descriptor, fragment: seq<Constituent>, clearFails: bool)
    | CallSendFragment(handle: nat, fragment: seq<Constituent>, clearFails: bool)
    | CallRetrieve(request: Request)
    | CallRetrieveFragment(handle: nat, offset: nat)
    | CallRelinquish(handle: nat, clear: bool, clearFails: bool)
    | CallReclaim(handle: nat, clear: bool, clearFails: bool)

  function Step(s: State, caller: VmId, c: Call): Outcome
    requires ValidVms(s) && ValidShares(s) && caller < |s.vms|
  {
    match c
    case CallSend(func, d, fragment, clearFails) => Send(s, caller, func, d, fragment, clearFails)
    case CallSendFragment(h, fragment, clearFails) => SendFragment(s, caller, h, fragment, clearFails)
    case CallRetrieve(q) => Retrieve(s, caller, q)
    case CallRetrieveFragment(h, offset) => RetrieveFragment(s, caller, h, offset)
    case CallRelinquish(h, clear, clearFails) => Relinquish(s, caller, h, clear, clearFails)
    case CallReclaim(h, clear, clearFails) => Reclaim(s, caller, h, clear, clearFails)
  }

  /** The share a call is about. */
  function HandleOf(s: State, c: Call): nat {
    match c
    case CallSend(_, _, _, _) => FirstFree(s.shares)
    case CallSendFragment(h, _, _) => h
    case CallRetrieve(q) => q.handle
    case CallRetrieveFragment(h, _) => h
    case CallRelinquish(h, _, _) => h
    case CallReclaim(h, _, _) => h
  }

  // ---- The call that completes a send ----

  /** The call passes all checks on the descriptor, and its fragment is the last one. */
  predicate Completes(s: State, caller: VmId, c: Call) {
    match c
    case CallSend(func, d, fragment, _) =>
      && |fragment| == d.count && d.offset + CONSTITUENT_SIZE * |fragment| <= HF_MAILBOX_SIZE && s.pool != []
      && d.sender == caller && !(func == ShareMemory && d.clear) && !d.otherFlags
      && d.receiver < |s.vms| && d.receiver != caller && d.offset >= CONSTITUENTS_OFFSET
      && SendPermissionsValid(func, d.permissions) && FirstFree(s.shares) < |s.shares|
    case CallSendFragment(h, fragment, _) =>
      && 1 <= |fragment| <= MAX_FRAGMENT_CONSTITUENTS && s.pool != []
      && IsLive(s, h) && s.shares[h].desc.sender == caller && !s.shares[h].complete
      && |s.shares[h].fragments| != MAX_FRAGMENTS
      && |Flat(s.shares[h].fragments + [fragment])| == s.shares[h].desc.count
    case _ => false
  }

  /** The state in which that fragment has just been stored. */
  function StoreLast(s: State, caller: VmId, c: Call): State
    requires Completes(s, caller, c)
  {
    var h := HandleOf(s, c);
    var sh :=
      if c.CallSend? then
        Share(c.func, StoredDescriptor(c.func, c.desc), [c.fragment], [s.pool[0]], false, ABSENT_MODE, 0)
      else
        s.shares[h].(fragments := s.shares[h].fragments + [c.fragment], pages := s.shares[h].pages + [s.pool[0]]);
    s.(pool := s.pool[1..], shares := s.shares[h := sh])
  }

  /** Completing share `h` gets as far as changing the sender's page table: the checks pass, and
      preparing the change does not run out of memory. */
  predicate Commits(s: State, h: nat) {
    && ValidVms(s) && IsLive(s, h) && s.shares[h].desc.sender < |s.vms|
    && ValidPermissions(s.shares[h].desc.permissions)
    && var sh := s.shares[h];
       var t := s.vms[sh.desc.sender];
       var tr := SendCheck(t, sh);
       tr.Allowed? && RegionMap(t, Flat(sh.fragments), OpOf(tr.next), false, s.pool, s.limit).ok
  }

  /** Clearing the memory fails, and putting it back as well: an assertion of the code fails. */
  predicate RollbackPanics(s: State, h: nat, clearFails: bool) {
    && Commits(s, h) && s.shares[h].desc.clear && clearFails
    && var sh := s.shares[h];
       var t := s.vms[sh.desc.sender];
       var tr := SendCheck(t, sh);
       RollbackFails(t, Flat(sh.fragments), OpOf(tr.next), OpOf(tr.orig), s.pool, s.limit)
  }

  predicate SendPanics(s: State, caller: VmId, c: Call) {
    Completes(s, caller, c) && RollbackPanics(StoreLast(s, caller, c), HandleOf(s, c), c.clearFails)
  }

  lemma CompletesAtOnce(s: State, caller: VmId, c: Call, s1: State)
    requires ValidVms(s) && ValidShares(s) && caller < |s.vms| && c.CallSend? && Completes(s, caller, c)
    requires s1 == StoreLast(s, caller, c)
    ensures ValidVms(s1) && ValidShares(s1) && IsLive(s1, FirstFree(s.shares))
    ensures s1.shares[FirstFree(s.shares)].desc.sender == caller
    ensures Step(s, caller, c) == SendComplete(s1, FirstFree(s.shares), c.clearFails)
  {
    assert s1.vms == s.vms;
  }

  lemma CompletesLast(s: State, caller: VmId, c: Call, s1: State)
    requires ValidVms(s) && ValidShares(s) && caller < |s.vms| && c.CallSendFragment? && Completes(s, caller, c)
    requires s1 == StoreLast(s, caller, c)
    ensures ValidVms(s1) && ValidShares(s1) && IsLive(s1, c.handle) && s1.shares[c.handle].desc.sender == caller
    ensures Step(s, caller, c) == SendComplete(s1, c.handle, c.clearFails)
  {
    assert s1.vms == s.vms;
  }

  /** A call that completes a send stores the last fragment and then completes it. */
  lemma StepCompletes(s: State, caller: VmId, c: Call, s1: State, h: nat)
    requires ValidVms(s) && ValidShares(s) && caller < |s.vms| && Completes(s, caller, c)
    requires s1 == StoreLast(s, caller, c) && h == HandleOf(s, c)
    ensures ValidVms(s1) && ValidShares(s1) && IsLive(s1, h) && s1.shares[h].desc.sender == caller
    ensures !s1.shares[h].complete
    ensures Step(s, caller, c) == SendComplete(s1, h, c.clearFails)
  {
    if c.CallSend? {
      CompletesAtOnce(s, caller, c, s1);
    } else {
      CompletesLast(s, caller, c, s1);
    }
  }
}
