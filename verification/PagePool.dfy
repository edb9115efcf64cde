/** The page pool as the models of page tables and memory sharing see it (a stack of pages, with the
    local pools of an update on top of the shared one) is what pools in memory provide: the entries
    that a pool and its fallbacks can hand out, in order. Pages are named by their addresses. */
module PagePool {
  import opened Collections
  import opened PoolLists
  import opened Mpool
  import opened Region

  /** What the pool can hand out, first to last. */
  ghost function StackOf(heap: Pools, p: nat): seq<int>
    requires heap.Valid() && p < |heap.pools|
    reads heap
  {
    Chain(heap.AsHeap(), p)
  }

  /** Allocating takes the page on top. */
  method Take(heap: Pools, p: nat) returns (ok: bool, page: int)
    requires heap.Valid() && p < |heap.pools|
    modifies heap
    ensures heap.Valid() && |heap.pools| == |old(heap.pools)|
    ensures ok <==> old(StackOf(heap, p)) != []
    ensures StackOf(heap, p) == if ok then old(StackOf(heap, p))[1..] else []
    ensures ok ==> page == old(StackOf(heap, p))[0]
  {
    page := heap.Alloc(p);
    ok := page != 0;
  }

  /** Freeing puts a page on top. */
  method Give(heap: Pools, p: nat, page: int)
    requires heap.Valid() && p < |heap.pools| && WfEntry(page, heap.size) && page !in heap.free
    modifies heap
    ensures heap.Valid() && |heap.pools| == |old(heap.pools)| && StackOf(heap, p) == [page] + old(StackOf(heap, p))
  {
    heap.Free(p, page, -1);
  }

  /** A local pool starts out as what is below it. */
  method Local(heap: Pools, p: nat) returns (q: nat)
    requires heap.Valid() && p < |heap.pools|
    modifies heap
    ensures heap.Valid() && p < q < |heap.pools| && heap.pools[q].fallback == Fallback(p) && heap.lists[q].chunks == []
    ensures StackOf(heap, q) == old(StackOf(heap, p)) == StackOf(heap, p)
  {
    q := heap.InitWithFallback(p);
    ChainBelow(heap.AsHeap(), old(heap.AsHeap()), p);
  }

  /** Ending a local pool that was only given pages turns over those on top of what was below it. */
  method Finish(heap: Pools, q: nat, p: nat)
    requires heap.Valid() && q < |heap.pools| && heap.pools[q].fallback == Fallback(p) && heap.lists[q].chunks == []
    requires p < q
    modifies heap
    ensures heap.Valid() && p < |heap.pools|
    ensures StackOf(heap, p) == FinishLocal(old(StackOf(heap, q)), old(|StackOf(heap, p)|))
  {
    ghost var below, top := StackOf(heap, p), heap.lists[q].entries;
    assert StackOf(heap, q) == top + below;
    TurnedOver(top, below);
    heap.Fini(q);
  }

  lemma TurnedOver(top: seq<int>, below: seq<int>)
    ensures FinishLocal(top + below, |below|) == Reversed(top) + below
  {
    assert (top + below)[..|top|] == top && (top + below)[|top|..] == below;
  }
}
