# Hafnium in Dafny

Hafnium is a hypervisor that isolates virtual machines by giving each its own stage-2 page table, and
lets them share memory through the FF-A protocol. This project models the code that the isolation
rests on and proves what that code promises:

- **Page tables** (`src/mm.c`, `src/arch/aarch64/mm.c`). `PageTree`, `MapLevel`, `PrepareCommit`,
  `Rollback`, `Defrag`, `IdentityMap` and `PrepareNeeds` are the tree, the operations on it and the flat
  map from pages to attributes that it stands for. `TableMemory`, `Tlb` and `Mm` are the same operations in
  place, on rows of entries in pages of memory, next to a TLB that may cache any valid entry at any
  moment. `Stage2Pte` and `PteEncoding` are the 64-bit words.
- **The page pool** (`src/mpool.c`). `PoolLists`, `Mpool` and `MpoolRuns`: lists whose headers lie in
  the free memory itself, and every run of calls on pools that fall back on each other. `PagePool`
  shows that these pools are the stacks of pages that the other models allocate from.
- **Memory sharing** (`src/ffa_memory.c`, `src/api.c`, `vmlib/ffa.c`). `Ownership` is the protocol by
  which pages change hands. `Region`, `RegionMode` and `FfaMemory` are the calls as functions of the
  page tables, the share states and the page pool; `FfaCalls` is the same code in place. `FfaOwnership`
  proves that every call is a step of the protocol, and `FfaAnswers` exactly what each call does; `FfaRuns`, `FfaPages`, `FfaRoundTrip`,
  `FfaMixed`, `FfaAccess`, `FfaFragments` and `FfaPieces` hold the results over whole runs.
- **Notifications** (`src/vm.c`, `src/api.c`). `Notifications`, `NotificationInfo`,
  `NotificationReturn`, `NotificationRuns`, `NotificationBindings` and `NotificationLists` are the
  state, the calls and all their runs, `NotificationCalls` is the code in place, `NotificationWitnesses` holds concrete runs.
- **Virtual interrupts, vCPU scheduling and the SMMU command queue**: `Interrupts`, `InterruptRuns`,
  `Scheduling`, `SchedulingChoices` and `SmmuQueue`.

Code that updates memory in place is modelled by classes and loops that are proved against functions
on values; the theorems are about those functions. Physical memory inside a page table is counted in
pages, and byte addresses appear where the code rounds them. A predicate that is written
`forall k {:trigger Unfold(k)} :: Unfold(k) ==> P` means `P`, and keeps the solver from looking inside
until `Unfold(0)` is mentioned.

## Model

| member | source | states |
|---|---|---|
| `IdentityMap.UpdateIsAtomic` | src/mm.c:724-776 | For every page table, range and operation: if an identity update succeeds, the attributes of exactly the pages of the rounded range are the new ones; if it fails, no page has changed; it succeeds exactly when its prepare pass does; and the pages of the tree and of the pool together are the same before and after. |
| `IdentityMap.UpdateCoversBytes` | src/mm.c:648-680 | In byte addresses, for every 64-bit range: a successful update gives the new attributes to exactly the pages that hold a byte of the range and changes no other. A range without bytes changes the page that it begins and ends inside of, if there is one, and an end in the last page of the address space changes nothing. |
| `IdentityMap.RoundingExactIff` | src/mm.c:63-77 | The rounded range is the pages that hold a byte of the range exactly if it has bytes and does not end in the last page of the address space, or has none and does not begin and end inside one page. |
| `IdentityMap.EmptyRangeMaps` | src/mm.c:63-77 | An update of an empty range at an address that is not the start of a page changes the page of that address, and at the start of a page it changes none. |
| `PrepareNeeds.UpdateNeeds` | src/mm.c:724-776 | An update succeeds exactly when the pool has as many pages as tables are missing; that is at most two for every level where blocks are allowed or memory is unmapped, and none for a range of whole entries. |
| `PrepareNeeds.UpdateNeedsLeast` | src/mm.c:419-488 | Every page table that is the old one with more tables in it, and in which the commit finds all it needs, has at least as many new tables as the prepare makes. |
| `PrepareCommit.PrepareThenCommit` | src/mm.c:715-752 | Preparing any list of ranges, overlapping or not, changes no page even when it runs out of memory; and if all prepares succeed, committing them in order cannot fail, takes no page from any pool, and sets exactly the union of the ranges. |
| `Rollback.RollbackSettles` | src/ffa_memory.c:942-990 | If a list of ranges has been prepared and none of its pages had the new attributes, committing it from an empty local pool and then committing the way back from what the first commit freed both succeed, and put every page of the ranges in the old mode. |
| `Rollback.RollbackRestores` | src/ffa_memory.c:942-990 | Where all pages of the ranges had one mode before, that rollback restores the flat map of the whole table. |
| `Rollback.RollbackWithFallback` | src/mpool.c:95-140 | The same with the local pool backed by the shared one: neither commit takes a page of the shared pool, and no page is lost. |
| `Defrag.DefragRoot` | src/mm.c:937-962 | For every tree: defragmenting keeps the flat map, only returns pages and loses none, gives a canonical tree, and changes nothing when repeated. |
| `Defrag.DefragCanonical` | src/mm.c:824-931 | Two trees with the same flat map have the same shape after defragmenting, whatever they looked like before. |
| `IdentityMap.ChangeAndBack` | src/mm.c:764-962 | On a defragmented table, changing a range that had one value and changing it back, each followed by defragmenting, restores the shape of the tree, if both updates succeed. |
| `IdentityMap.GetAttrs` | src/mm.c:1026-1058 | True with value `attrs` exactly when some page holds a byte of the range and every page that does is in the address space and has the attributes `attrs`; false exactly when there is no such value. |
| `Mm.PageTables.constructor` | src/mm.c:225-237 | A root of absent entries represents the empty address space, with nothing cached. |
| `Mm.InitPtable` | src/mm.c:212-239 | Fails exactly when the pool has no memory for the root tables, and otherwise leaves a table of absent entries and the rest of the pool. |
| `Mm.PageTables.Apply` | src/mm.c:648-680 | The walk over rows of entries in memory does what the walk of the tree does: same tree, same pool, same answer; every slot is written break-before-make, and every state in between is safe for a TLB that may cache any valid entry at any moment. |
| `Mm.PageTables.MapRange` | src/mm.c:419-488 | The recursive walk of one table, address by address, is the walk of its entries in the tree. |
| `Mm.PageTables.Populate` | src/mm.c:299-350 | A table in place of a block or absent entry maps the same pages, is complete before it can be reached, and takes the first page of the pool; without one nothing changes. |
| `Mm.PageTables.ReplaceEntry` | src/mm.c:269-291 | A valid entry is broken and invalidated before another one is stored, so no cached entry disagrees with a valid one; the tables below the old entry go to the pool. |
| `Mm.PageTables.FreePagePte` | src/mm.c:180-197 | Every page below an entry is freed once, in the order of the tree, and only pages that no cached entry leads to or from are freed. |
| `Mm.PageTables.Update` | src/mm.c:764-776 | In memory as in the tree: all pages that hold a byte of the range get the new attributes and no others, or nothing changes; the assertion on the commit cannot fail. |
| `Mm.PageTables.Defragment` | src/mm.c:858-962 | Defragmenting in place gives the tree and the pool that `Defrag` computes, in steps that are safe for a TLB. |
| `Stage2Pte.ModeRoundTrip` | src/arch/aarch64/mm.c:588-694 | Stage-2 attributes give back the mode they were made from, lie in the attribute bits, and always have the access flag. |
| `Stage2Pte.AccessBits` | src/arch/aarch64/mm.c:588-658 | By bit number, at every level: bit 0 is set exactly for valid memory, bit 1 for pages, bits 6 and 7 for read and write access, bit 54 for memory that may not be executed, bit 10 always and bit 53 never. |
| `Stage2Pte.TypeBits` | src/arch/aarch64/mm.c:588-658 | By bit number: memory type, shareability, and the two software bits for owned and exclusive memory. |
| `PteEncoding.ReadsBack` | src/arch/aarch64/mm.c:153-280 | At every level, a word written for an absent, block or table entry is taken for just that, and gives back its attributes and address. |
| `PteEncoding.StoresOne` | src/arch/aarch64/mm.c:153-186 | No word stands for two entries of the page-table model. |
| `PteEncoding.ModeIsStored` | src/arch/aarch64/mm.c:588-658 | Memory mapped in a mode has the word of the entry that the model gives it. |
| `PteEncoding.MergeIsStored` | src/arch/aarch64/mm.c:735-763 | The attributes that the code combines when it merges a table into a block are those of the first entry, as the model says. |
| `PteEncoding.SplitIsStored` | src/mm.c:299-350 | Each word of the table that replaces a block stands for an entry with the attributes of the block. |
| `Region.PreparedCommit` | src/ffa_memory.c:737-780 | If preparing a region succeeds, committing it succeeds, takes no page, and changes exactly the pages of its constituents. |
| `PrepareNeeds.RegionNeeds` | src/ffa_memory.c:737-780 | Preparing a region fails if a constituent begins or ends at or above the physical address limit, and otherwise succeeds with two pages for every level and constituent. |
| `RegionMode.ConstituentPages` | src/ffa_memory.c:467-468 | A page-aligned constituent of fewer than 2^20 pages that does not wrap around stands for that many pages from its address on. |
| `RegionMode.ConstituentWraps` | src/ffa_memory.c:467-468 | A larger page count stands for its remainder modulo 2^20. |
| `RegionMode.GetRegionMode` | src/ffa_memory.c:448-504 | The loops over fragments and constituents find what `RegionModeOf` finds. |
| `RegionMode.UniformRegionMode` | src/ffa_memory.c:448-504 | A region that is in one mode throughout is found to be in that mode. |
| `RegionMode.RegionModeIsUniform` | src/ffa_memory.c:486-491 | A region for which the query answers a mode is in that mode throughout if and only if the constituents of its first fragment are all in one mode. |
| `RegionMode.MixedFirstFragment` | src/ffa_memory.c:486-491 | A first fragment of a lent page and an own page is answered with the mode of the second. |
| `FfaRuns.Safety` | src/ffa_memory.c:520-2968 | Over every run of sends, retrieves, relinquishes and reclaims in any number of fragments by any number of VMs, one receiver each, with every attempt that the code refuses included, as long as a send that gets as far as changing its sender's page table names, in its first fragment, memory that the sender owns exclusively (`FfaMixed.CallKeepsIff` proves that exactly the other calls break the invariant): every page has at most one owner; one that its owner has lent is reachable by at most one VM, with no more data access; one that its owner shares by at most one other; and a page that had an owner at the start has none exactly while one donation of it waits to be retrieved. |
| `FfaOwnership.StepFollows` | src/ffa_memory.c:520-1348 | Every call, accepted or refused, with the real page tables and page pool, keeps the invariant and is a step of the ownership protocol, under the condition of `Safety` on a send that changes a page table. |
| `Ownership.NextKeepsInv` | inc/hf/mm.h:33-60 | Every step of the ownership protocol keeps its invariant over all pages, VMs and claims. |
| `Ownership.NextKeepsAccounts` | inc/hf/mm.h:33-60 | No step makes a page appear or disappear: whether a page has an owner or a donation waiting does not change. |
| `Ownership.SeizeKeepsIff` | inc/hf/mm.h:33-60 | Putting a set of pages in an exclusive mode of one VM keeps the invariant and brings no page into existence if and only if that VM owned all of them exclusively. |
| `Region.RolledBack` | src/ffa_memory.c:975-990 | A rollback that does not run out of pages puts the whole region in the old mode, whatever modes it was in. |
| `Region.RollbackCanFail` | src/ffa_memory.c:977-986 | A region with one page of a block that is in the new mode already: from an empty pool the change is prepared and committed, and the way back needs a table that is not there. |
| `FfaMixed.CallKeepsIff` | src/ffa_memory.c:899-1004 | Any call of any VM in any state with the invariant, whatever its answer: no assertion on a rollback fails, the ownership invariant is kept and no page comes into existence, if and only if the call does not get as far as changing a sender's page table, or the sender owned every page of the first fragment exclusively; the code itself makes sure of the other fragments. |
| `FfaMixed.RefusedSend` | src/ffa_memory.c:520-594 | A send that the checks refuse is answered with an error, touches no page table, and can be part of any run, whoever owns the memory. |
| `FfaMixed.SecondOwner` | src/ffa_memory.c:899-1004 | A page of another VM in a region that is lent or shared, or that cannot be cleared and is rolled back, has two owners afterwards. |
| `FfaMixed.LendingBothBreaks` | src/ffa_memory.c:486-491 | From a start with two VMs and two pages, one lend of both pages gives the first page two owners: the send succeeds if the memory can be cleared, and is answered with an error, with the same effect on ownership, if it cannot. |
| `FfaOwnership.ReceiverRegion` | src/ffa_memory.c:654-717 | Until it is retrieved, a region is absent throughout in its receiver, so a retrieve is never refused because of the receiver's modes. |
| `FfaOwnership.SenderRegion` | src/ffa_memory.c:654-717 | While it is shared, a region is throughout in the mode that the send left it in, so the assertion in the check of a reclaim holds. |
| `FfaOwnership.BorrowerRegion` | src/ffa_memory.c:596-638 | Once it is retrieved, a region is in one borrowed mode throughout in its receiver, so a relinquish is not refused because of its modes. |
| `FfaAccess.AccessIff` | src/ffa_memory.c:2256-2328 | Whatever calls were made since the start: a retrieve that is accepted gives no access that the sender did not have if and only if the sender had what both sides left open (read and, unless only reading is requested, write access to donated memory; execute access to memory that is not shared, unless the request rules it out). |
| `FfaAccess.ReceiverMayExecute` | src/ffa_memory.c:2256-2328 | After a VM has lent a page that it cannot execute, a receiver that leaves instruction access open is given execute access, and one that rules it out is not. |
| `FfaAnswers.AccessExact` | src/ffa_memory.c:2256-2328 | A request about a share is given access exactly when it comes from the receiver, names the same transaction, asks for no reserved value, not for write access to read-only memory nor for execute access to memory that may not be executed, and for clearing only where that was announced and the memory is writable; then the memory is readable, and writable and executable exactly if neither side ruled it out. |
| `FfaAnswers.RetrieveAnswers` | src/ffa_memory.c:2446-2682 | In every state with the invariant: a retrieve succeeds exactly for such a request with room for page tables; then every page of the region has exactly that access in the receiver, no other page of any VM changes, and the first fragment is returned; otherwise no memory and no share changes. |
| `FfaAnswers.RetrieveMoreAnswers` | src/ffa_memory.c:2684-2795 | Exactly when a further fragment is handed out, and which. |
| `FfaAnswers.RelinquishAnswers` | src/ffa_memory.c:2797-2897 | In every state with the invariant: exactly when a relinquish succeeds; then the region is gone from the receiver, no other page of any VM changes, and it can be retrieved again; otherwise nothing changes. |
| `FfaAnswers.ReclaimAnswers` | src/ffa_memory.c:2904-2968 | In every state with the invariant: exactly when a reclaim succeeds; then the region is in the sender in the mode that the send found, no other page of any VM changes, and the share state is free; otherwise nothing changes. |
| `FfaAnswers.SendCheckIff` | src/ffa_memory.c:520-594 | Memory in one mode can be sent exactly if it is normal memory that belongs to the sender alone and the permissions that are named are within the mode. |
| `FfaAnswers.SentPermissions` | src/ffa_memory.c:1512-1566 | A sender names a data access exactly if it is not a donation, and never an instruction access. |
| `FfaAnswers.SendAnswers` | src/ffa_memory.c:1729-2023 | Exactly when a send is done, when it waits for another fragment, and that it is an error otherwise. |
| `FfaAnswers.SentBecomes` | src/ffa_memory.c:899-1004 | After a send of memory in one mode the region is absent, invalid or shared in the sender, by the kind of send, and no other page of any VM has changed; the mode is kept for the reclaim. |
| `FfaPages.PagesAreConserved` | src/ffa_memory.c:139-273 | After any sequence of calls by any VMs, on every success and error path, a page that was in one place is in one place: the pool, one page table, or one share state; none is lost and none is freed twice. |
| `FfaPages.StepKeeps` | src/ffa_memory.c:1316-2023 | Every call keeps the multiset of all pages, touches no share state but the one it is about, and leaves defragmented tables defragmented. |
| `FfaRoundTrip.RoundTrip` | src/ffa_memory.c:1316-2968 | Memory is lent or shared, retrieved and relinquished any number of times among any other calls of a run of `Safety`, refused ones included, and reclaimed: then the share state is free, every VM has its old access to the region if and only if the constituents of the first fragment were in one mode before, and, if no other share was involved, the address spaces of all VMs are as before under the same condition, with defragmented tables in their old shape. |
| `FfaFragments.InitConstituents` | vmlib/ffa.c:87-157 | The first fragment holds as many constituents as fit behind the headers; pages and lengths are those of the whole list and of the fragment, in 32 bits; the rest is what remains. |
| `FfaFragments.FragmentInit` | vmlib/ffa.c:384-411 | A further fragment holds as many of the remaining constituents as fit. |
| `FfaFragments.RetrievedInit` | vmlib/ffa.c:314-382 | True exactly when the fragment fits the response, which then holds it. |
| `FfaFragments.SplitList` | test/vmapi/common/ffa.c:67-123 | A sender's loop over the builders emits exactly the fragments of the model, and what it has sent adds up to the total length. |
| `FfaFragments.FragmentsJoin` | vmlib/ffa.c:87-157 | The fragments of any list, put together, are the list; each fits its message, and none but the first can be empty. |
| `FfaFragments.FragmentsFitTable` | src/ffa_memory.c:1967-2023 | A list needs at most 20 fragments, the room of a share state, if and only if it has at most 5116 constituents. |
| `FfaFragments.ResponsesFit` | src/ffa_memory.c:2647-2784 | Whatever was sent in whatever pieces, a fragment handed to a receiver fits its mailbox, so the assertions on the builders' answers hold. |
| `FfaPieces.PiecesRoundTrip` | src/ffa_memory.c:1967-2784 | A list sent in the fragments of the builders and retrieved in fragments, while any VM makes any calls about other shares and uninvolved VMs make any calls: no call of the sender but its last touches a page table, each asks for the offset sent so far, and the receiver gets the same list. |
| `FfaPieces.OneTooMany` | src/ffa_memory.c:1967-2023 | A 21st fragment is refused for lack of room, and the share state is given up. |
| `FfaCalls.MemorySharing.constructor` | src/ffa_memory.c:53-113 | The table of share states starts out empty. |
| `FfaCalls.MemorySharing.Handle` | src/api.c:2729-3201 | Every call, with its loops over the share-state table, fragments and constituents, has the state and the answer of the model and keeps it well-formed; a CHECK on the rollback of a send fails exactly when the model says so, and none fails in the runs of `Safety`. The share-state table is updated in place, page tables and the pool are values here. |
| `FfaCalls.MemorySharing.SendMemory` | src/ffa_memory.c:1729-1800 | The first fragment: all checks in their order, the page for the descriptor taken before and put back on every refusal. |
| `FfaCalls.MemorySharing.SendMoreMemory` | src/ffa_memory.c:1967-2023 | A further fragment: stored, refused, or the last one, after which the send completes. |
| `FfaCalls.MemorySharing.CompleteSend` | src/ffa_memory.c:1316-1348 | The checks, alignment of the constituents included, and the page-table update of a complete region; on failure the share state is freed; the CHECK on the rollback fails exactly when the model says so. |
| `FfaCalls.MemorySharing.RetrieveMemory` | src/ffa_memory.c:2446-2682 | The code in place does what `RetrieveAnswers` says: exactly which requests succeed, and with exactly which access to exactly the pages of the region. |
| `FfaCalls.MemorySharing.RetrieveMoreMemory` | src/ffa_memory.c:2684-2795 | The next fragment, if it is asked for at the right offset. |
| `FfaCalls.MemorySharing.RelinquishMemory` | src/ffa_memory.c:2797-2897 | The code in place does what `RelinquishAnswers` says; its CHECK cannot fail in a state with the invariant. |
| `FfaCalls.MemorySharing.ReclaimMemory` | src/ffa_memory.c:2904-2968 | The code in place does what `ReclaimAnswers` says. |
| `FfaCalls.MemorySharing.FreeShareState` | src/ffa_memory.c:250-273 | The pages of a share state go back to the pool one by one, that of the descriptor first. |
| `FfaCalls.Shrink` | src/ffa_memory.c:938-1003 | Taking a region away with a local pool and rolling back when clearing fails is the update of the model, and the CHECK on the rollback fails exactly when the rollback needs a page that is not there. |
| `Mpool.Pools.constructor` | src/mpool.c:15-22 | Memory without pools satisfies the invariant: lists linked through headers in free memory, nothing listed twice, fallbacks older than the pools that use them. |
| `Mpool.Pools.Init` | src/mpool.c:62-69 | A new pool is empty, and the others are as before. |
| `Mpool.Pools.InitFrom` | src/mpool.c:76-89 | The new pool takes over the lists and the fallback of the old one, which is left empty. |
| `Mpool.Pools.InitWithFallback` | src/mpool.c:95-99 | The new pool can hand out what its fallback can, in the same order. |
| `Mpool.Pools.Fini` | src/mpool.c:105-140 | All entries and chunks go to the fallback, in reversed order in front of its own; no free memory is lost and none that is in use is written to. |
| `Mpool.Pools.AddChunk` | src/mpool.c:151-175 | The memory is rounded to entries; if there is at least one, all of them become free and only the header of the new chunk is written; otherwise nothing happens. |
| `Mpool.Pools.AllocNoFallback` | src/mpool.c:181-219 | The first entry of the pool's lists is taken, or the pool has none. |
| `Mpool.Pools.Alloc` | src/mpool.c:225-238 | The first entry of the chain of pools is handed out and no other, or the whole chain is empty; no word of memory in use changes. |
| `Mpool.Pools.Free` | src/mpool.c:246-255 | The entry becomes the next one that is handed out, and only its header is written. |
| `Mpool.Pools.AllocContiguousNoFallback` | src/mpool.c:262-321 | The run is taken, aligned, from the first chunk that has room for it, what is left on both sides stays linked; or no chunk has room. |
| `Mpool.FitsIff` | src/mpool.c:276-292 | The test of a chunk is true exactly when the run fits into it from some aligned address on. |
| `Mpool.Pools.AllocContiguous` | src/mpool.c:335-348 | An aligned run of free entries is handed out and no other entry, or no chunk of the chain has room for it. |
| `MpoolRuns.Holder.Perform` | src/mpool.c:62-348 | Any call, or a write of a holder to its memory, moves entries between the pools and the holders and neither loses nor duplicates any. |
| `MpoolRuns.EntriesAreConserved` | src/mpool.c:62-348 | Over every run of calls and writes, free and held entries together are those of the start and those added since, and exactly those of the start if no chunk is added; none is both free and held, or held twice. |
| `MpoolRuns.HeldMemoryIsStable` | src/mpool.c:151-348 | Over every run, memory that is held and not given up stays with its holder, and every word of it is what was last written to it. |
| `MpoolRuns.HandedOutOnce` | src/mpool.c:181-348 | If a call of a run hands out an entry that was held at its start, an earlier call of the run gave it back. |
| `PagePool.Take` | src/mpool.c:225-238 | Allocating from a pool in memory takes the top of the stack of pages that the other models use, and fails exactly when it is empty. |
| `PagePool.Give` | src/mpool.c:246-255 | Freeing puts a page on top of that stack. |
| `PagePool.Local` | src/mpool.c:95-99 | A local pool is the stack of its fallback, which is unchanged. |
| `PagePool.Finish` | src/mpool.c:105-140 | Ending a local pool that was only given pages turns over those on top, as `Region.FinishLocal` does. |
| `Scheduling.RunKeeps` | src/api.c:710-936 | In every interleaving of FFA_RUN, direct requests, switches back and register saves on any number of physical CPUs, at the grain of lock operations, the scheduling invariant holds. |
| `Scheduling.RunsOnOne` | src/api.c:552-557 | In every interleaving a secondary vCPU is loaded on at most one physical CPU, and its registers are unavailable exactly while it is loaded on the one it names. |
| `Scheduling.WaitingWithVmLocked` | src/api.c:710-936 | When FFA_RUN decides about a waiting vCPU, it holds the lock of its VM, whatever happened while the vCPU was unlocked to take both locks in order; and about a blocked or preempted one, unless it is of an EL0 partition. |
| `Scheduling.SwitchesHome` | src/api.c:104-123 | A vCPU that gives up its physical CPU gives it back to the primary vCPU that belongs to it. |
| `SchedulingChoices.DecideIff` | src/api.c:710-936 | In every interleaving FFA_RUN switches to the vCPU exactly if its registers are saved, its VM is not aborting, and it is blocked or preempted, or blocked on an interrupt or waiting and woken, or waiting for the first time. Otherwise it returns to the primary and the vCPU is unchanged or aborted. The locks are released and nothing else changes. |
| `SchedulingChoices.RequestIff` | src/api.c:2443-2593 | In every interleaving a direct request switches to the receiver exactly if the locks are free, no request is ongoing, its registers are saved, its VM is not aborting and it is waiting; then the sender is blocked and the receiver runs on this physical CPU for it. Otherwise nothing changes but an aborting receiver. |
| `SchedulingChoices.LeavesAs` | src/api.c:104-123 | In every interleaving a secondary vCPU that stops is left in the state it stops in with its registers saved, the physical CPU is back in the primary, and a response ends the direct request. |
| `SchedulingChoices.NeverRunAgain` | src/api.c:785-790 | A secondary vCPU that is off or aborted and on no physical CPU stays so and is not loaded in any continuation of the run. |
| `Interrupts.SumIsExact` | inc/hf/vcpu.h:215-287 | Over every run of enable, disable, inject and get, the two counters add up, modulo 2^32, to the number of interrupts that are enabled and pending. |
| `Interrupts.EachIsExactIff` | src/api.c:2109-2148 | After a run, each counter is right on its own if and only if the changes of type of pending interrupts cancel out. |
| `Interrupts.StaysExactIff` | src/api.c:2109-2148 | Counters that are right stay right over a call if and only if it does not enable a pending interrupt with another type. |
| `Interrupts.TypeChangeMiscounts` | src/api.c:2109-2148 | An interrupt that is injected and then enabled as an FIQ is counted as an IRQ. |
| `Interrupts.DrainsInOrder` | src/api.c:2155-2192 | Repeated gets deliver everything that is enabled and pending, once each, in increasing order. |
| `InterruptRuns.RunTold` | src/api.c:2109-2192 | Over every run, from the calls alone: an interrupt is enabled, and an FIQ, exactly if the last call that enabled or disabled it said so; and it is pending exactly if it was injected and no get returned it since. |
| `InterruptRuns.GetReturns` | src/api.c:2155-2192 | After every run a get returns the least interrupt that the calls so far left enabled and pending, and takes that one only. |
| `Interrupts.InjectWakesFirst` | src/api.c:592-636 | After an injection that counts, the count the code compares with one is one exactly when nothing else is to be delivered. |
| `Interrupts.VcpuInterrupts.constructor` | inc/hf/vcpu.h:43-58 | Nothing is enabled or pending, and both counters are zero. |
| `Interrupts.VcpuInterrupts.EnableInterrupt` | src/api.c:2109-2148 | Afterwards the interrupt is enabled exactly if that was asked for, and an FIQ exactly if both were; all other interrupts and what is pending are as before, the counters as the model has them; unknown interrupts are refused. |
| `Interrupts.VcpuInterrupts.InjectInterrupt` | src/api.c:592-636 | The target is to be woken exactly when this is the first interrupt it has to take. |
| `Interrupts.VcpuInterrupts.GetInterrupt` | src/api.c:2155-2192 | The search word by word and the lowest bit set give the least interrupt that is enabled and pending, or none. |
| `NotificationRuns.CountersOfRun` | src/vm.c:517-599 | Over every run in which no CHECK fails: bits reported to the scheduler are pending, the retrieved counter is their exact number, and the pending counter is the number of pending bits and of the times one was set that was pending already. |
| `NotificationRuns.NeverPanics` | src/vm.c:517-538 | No CHECK on a counter can fail in bind, unbind, get and info-get. |
| `NotificationRuns.SetPanics` | src/vm.c:694-710 | A set makes a CHECK fail exactly when it is accepted and the pending counter would overflow, or its vCPU ID is not below MAX_CPUS, even if the notification is not per-vCPU. |
| `NotificationRuns.MorePendingIff` | src/vm.c:589-599 | The more-pending test is true exactly when something is pending that has not been reported, or a pending bit was ever set again. |
| `NotificationRuns.FlagOfRun` | src/vm.c:589-599 | The same of every state a run can reach. |
| `NotificationRuns.FlagStays` | src/vm.c:589-599 | Once a pending bit was set again, the test is true after every continuation of the run. |
| `NotificationRuns.BitOfRun` | src/vm.c:616-774 | Over every run with valid senders, a partition notification is pending exactly when someone has set it since it was last got; then that was only the sender it is bound to, it is bound, and it is in the global or per-vCPU state according to its binding. |
| `NotificationRuns.NobodySetsUnbound` | src/vm.c:657-673 | Notifications that nobody is bound to would be accepted from the reserved ID that marks them as unbound, so the claim above needs the platform's check of the sender. |
| `NotificationBindings.RebindIff` | src/api.c:3277-3363 | A bind succeeds exactly if the caller and the sender are valid, the receiver has notifications enabled, and every notification of a non-empty set is unbound and pending nowhere; an unbind exactly if every one is bound to that sender and pending nowhere. Then exactly those are bound to the sender in the kind that was asked for, or to nobody; nothing pending changes. |
| `NotificationBindings.BoundOfRun` | src/vm.c:616-673 | Over every run a notification is bound to the sender of the last accepted bind about it, unless an unbind came later. |
| `NotificationBindings.UnboundRefusesSets` | src/api.c:3277-3450 | In every run, after an accepted unbind and any calls but a new bind of the notification, no set of it is accepted from a valid sender. |
| `NotificationBindings.SetIff` | src/api.c:3365-3450 | A set is accepted exactly if every notification of a non-empty set is bound to the sender in that kind and the vCPU exists; then they are pending on that vCPU or globally, and nothing else changes. |
| `NotificationBindings.GetIff` | src/api.c:3468-3571 | A get is accepted exactly for a vCPU that exists and is the current one or the only one; then exactly the slots that it asks for are empty. |
| `NotificationInfo.InfoGetMeans` | src/vm.c:805-949 | For any number of VMs and any report of the other world to start with: the list fits, groups have at most three vCPUs, everything newly marked as reported is named in it and everything named has been marked, and it is full exactly when something is left out. |
| `NotificationLists.VmListed` | src/vm.c:805-949 | What one VM adds to the list: groups with its ID, all but the last with three vCPUs, that name exactly the vCPUs with something new to report, once for each slot and in order. |
| `NotificationReturn.DecodeReads` | src/api.c:3577-3610 | The IDs and the sizes of the groups give back the report. |
| `NotificationReturn.RegisterIff` | src/api.c:3604-3607 | Whatever 32-bit value is returned, it is the register that section 17.7.1 of FF-A v1.1 Beta0 asks for if and only if no group past the tenth lists a vCPU, which is also when that register fits in 32 bits. |
| `NotificationReturn.RegisterReads` | inc/vmapi/hf/ffa.h:708-727 | If no group past the tenth lists a vCPU, the flag, the number of lists and the size of every list are read from the register. |
| `NotificationReturn.ReportIsReadIff` | inc/vmapi/hf/ffa.h:708-727 | Whatever 32-bit value is returned, the scheduler reads the report that was made if and only if no group past the tenth lists a vCPU. |
| `NotificationWitnesses.EleventhListIsLost` | src/api.c:3604-3607 | Twelve calls after the start of a system of eleven VMs, a report of eleven groups is misread, whatever 32-bit value is returned. |
| `NotificationWitnesses.SetTwiceIsToldForever` | src/vm.c:687-692 | After bind, set, set and get nothing is pending, but the more-pending test is true, then and after every continuation of the run. |
| `NotificationWitnesses.GlobalSetPanics` | src/vm.c:694-710 | One binding after the start, a set that is accepted makes a CHECK fail. |
| `NotificationCalls.Notifier.constructor` | src/vm.c:443-448 | After initialisation nothing is pending and nothing is bound. |
| `NotificationCalls.Notifier.UpdateBindings` | src/api.c:3277-3363 | The code in place, with its loops over bits and vCPUs, does what `RebindIff` says. |
| `NotificationCalls.Notifier.SetNotifications` | src/api.c:3365-3450 | A set in place does what `SetIff` says, and fails a CHECK exactly when `SetPanics` says so. |
| `NotificationCalls.Notifier.GetNotifications` | src/api.c:3468-3571 | A get returns what was pending for the receiver on that vCPU, and does what `GetIff` says. |
| `NotificationCalls.Notifier.GetInfo` | src/api.c:3612-3682 | The list and the answer of info-get are those of the model, the register is one that the code may return for it, with the more-pending flag as `MorePendingIff` says. |
| `NotificationCalls.Notifier.StateInfoGet` | src/vm.c:805-882 | One slot: the state machine over the ID buffers and the marking as reported; the CHECK on the counter cannot fail. |
| `NotificationCalls.IdList.SuccessReturn` | src/api.c:3577-3610 | The loop over the lists computes the register that is asked for, unless a list past the tenth is not empty and its size is shifted out of 32 bits. |
| `NotificationCalls.CountBits` | src/vm.c:517-538 | Counting bit by bit with a CHECK each is adding the number of bits, if the result fits in 32 bits; otherwise a CHECK fails. |
| `SmmuQueue.EmptySlotsIsRoom` | src/arch/aarch64/arm_smmuv3/arm_smmuv3.c:663-693 | For every size and every producer count at most one lap ahead of the consumer count, the free slots computed from indices and wrap bits are the size less the difference. |
| `SmmuQueue.CaughtUpIff` | src/arch/aarch64/arm_smmuv3/arm_smmuv3.c:866-869 | Indices and wrap bits are equal exactly when the counts are. |
| `SmmuQueue.CommandQueue.constructor` | src/arch/aarch64/arm_smmuv3/arm_smmuv3.c:663-693 | Nothing has been issued and nothing taken. |
| `SmmuQueue.CommandQueue.Issue` | src/arch/aarch64/arm_smmuv3/arm_smmuv3.c:781-843 | While the SMMU may take commands at any access: the command is appended to those issued, or the queue was full. |
| `SmmuQueue.CommandQueue.Push` | src/arch/aarch64/arm_smmuv3/arm_smmuv3.c:695-708 | No command that is still to be taken is overwritten. |
| `SmmuQueue.CommandQueue.ReadMeetsWrite` | src/arch/aarch64/arm_smmuv3/arm_smmuv3.c:845-883 | When it succeeds the SMMU has taken every command in order; when it fails some command was outstanding at every poll. |
| `SmmuQueue.CommandQueue.Synchronize` | src/arch/aarch64/arm_smmuv3/arm_smmuv3.c:885-914 | When it succeeds, all commands and the synchronisation have been taken in the order they were issued. |

## Findings

Where the code does not do what its documentation or its design promises, the model follows the code.
Each case has a lemma with a concrete input or run and a theorem that says exactly when the promise
holds.

- **A first fragment in mixed modes** (`src/ffa_memory.c:486-491`). The query for the mode of a region
  compares constituents only from the second fragment on; in the first one the last constituent
  decides. `RegionMode.MixedFirstFragment` is such a region and `RegionMode.RegionModeIsUniform` says
  when the answer is right. For the protocol, `FfaMixed.LendingBothBreaks` is a single call after
  which a page has two owners; it does so both when it succeeds and when clearing the memory fails and
  the rollback gives the whole region to the sender. `FfaMixed.CallKeepsIff` says of every call that it
  keeps ownership sound if and only if it changes no sender's page table or the sender owns all of the
  first fragment exclusively. This is the hypothesis on calls in `FfaRuns.Safety`; it leaves out no
  attempt that the code refuses (`FfaMixed.RefusedSend`). With such a region the rollback may even need
  a page that nobody has, which the comment at `src/ffa_memory.c:978-982` rules out:
  `Region.RollbackCanFail` is a case, and `Rollback.RollbackSettles` says that there is none if no page
  of the region is in the new mode beforehand, as when the sender owns it. `FfaRoundTrip.RoundTrip` says that a reclaim
  restores a region if and only if its first fragment was in one mode.
- **A stray vCPU ID** (`src/vm.c:694-710`). Setting a notification that is not per-vCPU does not
  compare the vCPU ID with the number of vCPUs, but the CHECK against MAX_CPUS is made all the same.
  `NotificationWitnesses.GlobalSetPanics` is a call that panics, `NotificationRuns.SetPanics` says
  exactly which do.
- **The size fields of INFO_GET** (`src/api.c:3604-3607`). Every field is shifted as a 32-bit value,
  by 32 or more from the eleventh list on, which C leaves undefined; no 32-bit value can carry those
  fields. `NotificationReturn.Returned` says what the code may return: the register that is asked for
  if those lists are empty, and otherwise any 32-bit value. `NotificationReturn.RegisterIff` and
  `NotificationReturn.ReportIsReadIff` say of every such value when nothing is lost, and
  `NotificationWitnesses.EleventhListIsLost` is a run after which something is.
- **The type of a pending interrupt** (`src/api.c:2109-2148`). Enabling an interrupt counts it by its
  old type and then stores the new one. `Interrupts.TypeChangeMiscounts` is a run after which both
  counters are wrong, `Interrupts.StaysExactIff` says which calls make them wrong,
  `Interrupts.EachIsExactIff` after which runs they are right, and `Interrupts.SumIsExact` that their
  sum always is.
- **Setting a pending notification again** (`src/vm.c:687-692`). The pending counter grows by every bit
  that is set, pending before or not, and shrinks by what is got. `NotificationRuns.CountersOfRun` and
  `NotificationRuns.FlagOfRun` say what the counter and the more-pending flag mean after that;
  `NotificationWitnesses.SetTwiceIsToldForever` is a run of four calls after which nothing is pending
  and the flag stays set for good.
- **Ranges that are not page-aligned** (`src/mm.c:63-77`). Begin and end are rounded outwards each on its
  own, so a range without bytes inside a page changes that page: `IdentityMap.EmptyRangeMaps`.
  `IdentityMap.RoundingExactIff` says exactly for which ranges the pages that change are those that hold a
  byte of the range, and `IdentityMap.UpdateCoversBytes` which pages change for the others.
- **Large constituents** (`src/ffa_memory.c:467-468`). The size in bytes is computed in 32 bits:
  `RegionMode.ConstituentPages` says what a constituent of fewer than 2^20 pages stands for, and
  `RegionMode.ConstituentWraps` what a larger one does.
- **Access that nobody mentioned** (`src/ffa_memory.c:2256-2328`). What sender and receiver leave open
  is granted, whether or not the sender had it. `FfaAccess.AccessIff` says when the receiver gets no
  more than the sender had, and `FfaAccess.ReceiverMayExecute` has a case of each kind.

## Left out

- FfaRuns.Safety: leaves out exactly the calls in which a sender's page table is changed although the sender does not own its first fragment exclusively, because the code does not check it and each such call breaks ownership (`FfaMixed.CallKeepsIff`).
- FfaRuns.Safety: bounds data access but not execute access of borrowers; `FfaAccess.AccessIff` says exactly when both are bounded.
- Rollback.RollbackSettles: is sufficient for the rollback to succeed from what the commit freed, not necessary; with pages in the new mode it depends on the shape of the tables and on what is left in the shared pool.
- Memory is sent to one receiver; relinquish, reclaim and further fragments look only at the first receiver of a descriptor.
- Forwarding to the TEE and handles of the other world: handles are indices into the share-state table.
- EL0 partitions and stage-1 tables, whose attributes do not determine the mode.
- Memory-type attributes of regions and mailbox states; a call that a mailbox state forbids does not happen.
- Clearing memory is an operation that may fail; its contents are not modelled.
- Calls about memory are atomic: the code holds the share-state lock from lookup to return.
- Bytes after the last whole constituent of a fragment.
- FfaAnswers.SendAnswers: says what the checks of the descriptor are and names the check of the region, which `SendCheckIff` states exactly for memory in one mode; `RegionMode.RegionModeIsUniform` says what the code finds of other memory.
- PrepareNeeds.RegionNeeds: is sufficient and not exact for regions of several constituents, where tables made for one can serve the next.
- Mm.PageTables.Apply: the concatenated root tables are one row of entries; the outer loop over them is a walk of that row.
- Mm.InitPtable: takes the answer of the allocator for several root tables as a parameter, because the pool of this module is a stack of single pages.
- FfaCalls.MemorySharing.Handle: page tables and the pool are values that its methods replace; they change in place in `Mm` and `Mpool`, and `PagePool` relates the stack to the pools.
- PteEncoding.ReadsBack: does not relate bit 0 of a word to the parity of the attributes, which is how the TLB model tells valid blocks.
- `mm_map_level_one_page`, `mm_map_va_at_pa` and the printing of page tables, which do not follow the identity map.
- Mpool.Pools.AllocContiguous: asks for at least one entry and a positive alignment; the code has no answer for others.
- Mpool.Pools.AddChunk: asks for memory that does not start at the null address; entries are at least as large as a chunk's header.
- Pool locks: calls on pools are atomic, and all pools have entries of one size.
- Scheduling.RunKeeps: the steps between lock operations are a state machine on values rather than code in place; timers, mailboxes and the assembly that saves registers are single steps, and direct requests come from the primary.
- The bodies of `plat_ffa_*`: their answers are parameters of the calls.
- NotificationRuns.BitOfRun: takes it from the platform's checks that senders have valid IDs.
- The NPI and SRI signals of notifications.
- Interrupts.VcpuInterrupts.InjectInterrupt: says when the target is to be woken, not how.
- SmmuQueue.CommandQueue.ReadMeetsWrite: other parts of the SMMU driver (initialisation, stream tables, event queue) would add only register accesses.
- System-register emulation, GIC, timers, manifest, boot and loading.
