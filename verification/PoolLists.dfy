/** The lists of a memory pool (`src/mpool.c`): free entries, and chunks of consecutive free entries,
    linked by headers that are stored in the free memory itself. */
module PoolLists {
  import opened Arithmetic
  import opened Collections

  /** Eight-byte words by address. */
  type Ram = map<int, int>

  function Read(m: Ram, a: int): int {
    if a in m then m[a] else 0
  }

  datatype Chunk = Chunk(begin: int, end: int)

  /** The free entries and chunks of a pool, in list order. */
  datatype Lists = Lists(entries: seq<int>, chunks: seq<Chunk>)

  // ---- Free entries as a stack ----

  /** The addresses of the entries between `b` and `e`. */
  function Run(b: int, e: int, size: nat): seq<int>
    requires size > 0
    decreases if b < e then e - b else 0
  {
    if b < e then [b] + Run(b + size, e, size) else []
  }

  function ChunkEntries(cs: seq<Chunk>, size: nat): seq<int>
    requires size > 0
  {
    if cs == [] then [] else Run(cs[0].begin, cs[0].end, size) + ChunkEntries(cs[1..], size)
  }

  /** All free entries of a pool, in the order in which they are handed out. */
  function Stack(l: Lists, size: nat): seq<int>
    requires size > 0
  {
    l.entries + ChunkEntries(l.chunks, size)
  }

  function Stacks(ls: seq<Lists>, size: nat): seq<multiset<int>>
    requires size > 0
  {
    seq(|ls|, i requires 0 <= i < |ls| => multiset(Stack(ls[i], size)))
  }

  /** All free entries of all pools. */
  function Total(ls: seq<Lists>, size: nat): multiset<int>
    requires size > 0
  {
    Sum(Stacks(ls, size))
  }

  ghost predicate WfEntry(x: int, size: nat)
    requires size > 0
  {
    x > 0 && Aligned(x, size)
  }

  ghost predicate WfChunk(c: Chunk, size: nat)
    requires size > 0
  {
    0 < c.begin < c.end && Aligned(c.begin, size) && Aligned(c.end, size)
  }

  ghost predicate WfLists(l: Lists, size: nat)
    requires size > 0
  {
    && (forall k :: 0 <= k < |l.entries| ==> WfEntry(l.entries[k], size))
    && (forall k :: 0 <= k < |l.chunks| ==> WfChunk(l.chunks[k], size))
  }

  // ---- Headers ----

  function EntryAt(es: seq<int>, k: nat): int {
    if k < |es| then es[k] else 0
  }

  function ChunkAt(cs: seq<Chunk>, k: nat): int {
    if k < |cs| then cs[k].begin else 0
  }

  /** The header of entry `k` leads to the next entry. */
  ghost predicate EntryLink(m: Ram, es: seq<int>, k: nat)
    requires k < |es|
  {
    Read(m, es[k]) == EntryAt(es, k + 1)
  }

  ghost predicate RepEntries(m: Ram, head: int, es: seq<int>) {
    head == EntryAt(es, 0) && forall k :: 0 <= k < |es| ==> EntryLink(m, es, k)
  }

  /** The header of chunk `k` leads to the next chunk, and says where the chunk ends. */
  ghost predicate ChunkLink(m: Ram, cs: seq<Chunk>, k: nat)
    requires k < |cs|
  {
    Read(m, cs[k].begin) == ChunkAt(cs, k + 1) && Read(m, cs[k].begin + 8) == cs[k].end
  }

  ghost predicate RepChunks(m: Ram, head: int, cs: seq<Chunk>) {
    head == ChunkAt(cs, 0) && forall k :: 0 <= k < |cs| ==> ChunkLink(m, cs, k)
  }

  /** The word at address `a` is in the header of one of the entries. */
  predicate InHeaders(a: int, xs: set<int>) {
    a in xs || a - 8 in xs
  }

  /** `m'` differs from `m` at most in the headers of the entries `xs`. */
  ghost predicate WritesHeaders(m': Ram, m: Ram, xs: set<int>) {
    forall a: int :: !InHeaders(a, xs) ==> Read(m', a) == Read(m, a)
  }

  ghost predicate Outside(l: Lists, p: int) {
    (forall k :: 0 <= k < |l.entries| ==> l.entries[k] != p)
      && (forall k :: 0 <= k < |l.chunks| ==> l.chunks[k].begin != p)
  }

  lemma HeadersApart(a: int, b: int, size: nat)
    requires size >= 16 && Aligned(a, size) && Aligned(b, size) && a != b
    ensures a + 8 != b && a != b + 8
  {
    AlignedIs(a, size);
    AlignedIs(b, size);
    var d := b / size - a / size;
    assert d * size == b - a;
    if b - a < size && a - b < size {
      SmallMultiple(d, size);
    }
  }

  /** Lists are not affected by a change of the headers of entries that head none of their blocks. */
  lemma ListsFrame(m: Ram, m': Ram, entryHead: int, chunkHead: int, l: Lists, xs: set<int>, size: nat)
    requires size >= 16 && WfLists(l, size) && RepEntries(m, entryHead, l.entries) && RepChunks(m, chunkHead, l.chunks)
    requires WritesHeaders(m', m, xs) && forall x :: x in xs ==> Aligned(x, size) && Outside(l, x)
    ensures RepEntries(m', entryHead, l.entries) && RepChunks(m', chunkHead, l.chunks)
  {
    forall k | 0 <= k < |l.entries|
      ensures EntryLink(m', l.entries, k)
    {
      assert EntryLink(m, l.entries, k);
      HeaderKept(m, m', l.entries[k], xs, size);
    }
    forall k | 0 <= k < |l.chunks|
      ensures ChunkLink(m', l.chunks, k)
    {
      assert ChunkLink(m, l.chunks, k);
      HeaderKept(m, m', l.chunks[k].begin, xs, size);
    }
  }

  lemma HeaderKept(m: Ram, m': Ram, a: int, xs: set<int>, size: nat)
    requires size >= 16 && Aligned(a, size) && WritesHeaders(m', m, xs)
    requires forall x :: x in xs ==> Aligned(x, size) && x != a
    ensures Read(m', a) == Read(m, a) && Read(m', a + 8) == Read(m, a + 8)
  {
    if a - 8 in xs {
      HeadersApart(a, a - 8, size);
    }
    if a + 8 in xs {
      HeadersApart(a, a + 8, size);
    }
  }

  // ---- Stacks and totals ----

  lemma {:induction false} RunHead(b: int, e: int, size: nat)
    requires size > 0 && b < e
    ensures b in Run(b, e, size)
  {
  }

  lemma {:induction false} ChunkHeadIn(cs: seq<Chunk>, k: nat, size: nat)
    requires size > 0 && k < |cs| && cs[k].begin < cs[k].end
    ensures cs[k].begin in ChunkEntries(cs, size)
  {
    if k > 0 {
      ChunkHeadIn(cs[1..], k - 1, size);
    }
  }

  /** What is in no stack heads no block. */
  lemma NotInStack(l: Lists, size: nat, p: int)
    requires size > 0 && WfLists(l, size) && p !in Stack(l, size)
    ensures Outside(l, p)
  {
    forall k | 0 <= k < |l.chunks|
      ensures l.chunks[k].begin != p
    {
      ChunkHeadIn(l.chunks, k, size);
    }
  }

  lemma TotalUpdate(ls: seq<Lists>, i: nat, l: Lists, size: nat)
    requires size > 0 && i < |ls|
    ensures Total(ls[i := l], size) + multiset(Stack(ls[i], size)) == Total(ls, size) + multiset(Stack(l, size))
  {
    assert Stacks(ls[i := l], size) == Stacks(ls, size)[i := multiset(Stack(l, size))];
    SumUpdate(Stacks(ls, size), i, multiset(Stack(l, size)));
  }

  /** A free entry of pool `i` is in no other pool. */
  lemma InOnePool(ls: seq<Lists>, i: nat, j: nat, size: nat, p: int)
    requires size > 0 && i < |ls| && j < |ls| && i != j && NoDup(Total(ls, size)) && p in Stack(ls[i], size)
    ensures p !in Stack(ls[j], size)
  {
    SumPair(Stacks(ls, size), if i < j then i else j, if i < j then j else i, p);
    assert p in multiset(Stack(ls[i], size));
  }

  lemma NotInTotal(ls: seq<Lists>, i: nat, size: nat, p: int)
    requires size > 0 && i < |ls| && p !in Total(ls, size)
    ensures p !in Stack(ls[i], size)
  {
    SumBound(Stacks(ls, size), i, p);
    assert Stacks(ls, size)[i] == multiset(Stack(ls[i], size));
  }

  /** Entries leave the pools through pool `i`, or enter them there. */
  lemma TotalChange(ls: seq<Lists>, i: nat, l: Lists, size: nat, ps: multiset<int>)
    requires size > 0 && i < |ls|
    ensures multiset(Stack(l, size)) == multiset(Stack(ls[i], size)) + ps ==>
            Total(ls[i := l], size) == Total(ls, size) + ps
    ensures multiset(Stack(l, size)) + ps == multiset(Stack(ls[i], size)) ==>
            Total(ls[i := l], size) + ps == Total(ls, size)
  {
    TotalUpdate(ls, i, l, size);
    var a, b, t, t' := multiset(Stack(ls[i], size)), multiset(Stack(l, size)), Total(ls, size), Total(ls[i := l], size);
    if b == a + ps {
      CancelRight(t', t + ps, a);
    }
    if b + ps == a {
      CancelRight(t' + ps, t, b);
    }
  }

  lemma CancelRight(x: multiset<int>, y: multiset<int>, a: multiset<int>)
    requires x + a == y + a
    ensures x == y
  {
    forall q
      ensures x[q] == y[q]
    {
      assert (x + a)[q] == (y + a)[q];
    }
  }

  // ---- Pools ----

  datatype Link = NoFallback | Fallback(pool: nat)

  /** `struct mpool`. Null pointers are zero. */
  datatype Pool = Pool(entryList: int, chunkList: int, fallback: Link)

  ghost predicate RepPool(m: Ram, p: Pool, l: Lists) {
    RepEntries(m, p.entryList, l.entries) && RepChunks(m, p.chunkList, l.chunks)
  }

  /** A change of the headers of entries is not seen by pools that do not have the entries. */
  lemma PoolFrame(m: Ram, m': Ram, p: Pool, l: Lists, xs: set<int>, size: nat)
    requires size >= 16 && WfLists(l, size) && RepPool(m, p, l) && WritesHeaders(m', m, xs)
    requires forall x :: x in xs ==> Aligned(x, size) && x !in Stack(l, size)
    ensures RepPool(m', p, l)
  {
    forall x | x in xs
      ensures Outside(l, x)
    {
      NotInStack(l, size, x);
    }
    ListsFrame(m, m', p.entryList, p.chunkList, l, xs, size);
  }

  // ---- Changes of one pool's lists ----

  lemma EntriesPush(m: Ram, head: int, es: seq<int>, x: int)
    requires RepEntries(m, head, es) && Read(m, x) == head
    ensures RepEntries(m, x, [x] + es)
  {
    var fs := [x] + es;
    forall k | 0 <= k < |fs|
      ensures EntryLink(m, fs, k)
    {
      if k > 0 {
        assert EntryLink(m, es, k - 1);
        assert fs[k] == es[k - 1] && EntryAt(fs, k + 1) == EntryAt(es, k);
      }
    }
  }

  lemma EntriesPop(m: Ram, head: int, es: seq<int>)
    requires RepEntries(m, head, es) && es != []
    ensures RepEntries(m, Read(m, head), es[1..]) && head == es[0]
  {
    var fs := es[1..];
    assert EntryLink(m, es, 0);
    forall k | 0 <= k < |fs|
      ensures EntryLink(m, fs, k)
    {
      assert EntryLink(m, es, k + 1);
      assert fs[k] == es[k + 1] && EntryAt(fs, k + 1) == EntryAt(es, k + 2);
    }
  }

  lemma ChunksPush(m: Ram, head: int, cs: seq<Chunk>, c: Chunk)
    requires RepChunks(m, head, cs) && Read(m, c.begin) == head && Read(m, c.begin + 8) == c.end
    ensures RepChunks(m, c.begin, [c] + cs)
  {
    var ds := [c] + cs;
    forall k | 0 <= k < |ds|
      ensures ChunkLink(m, ds, k)
    {
      if k > 0 {
        assert ChunkLink(m, cs, k - 1);
        assert ds[k] == cs[k - 1] && ChunkAt(ds, k + 1) == ChunkAt(cs, k);
      }
    }
  }

  lemma ChunksPop(m: Ram, head: int, cs: seq<Chunk>)
    requires RepChunks(m, head, cs) && cs != []
    ensures RepChunks(m, Read(m, head), cs[1..]) && Read(m, head + 8) == cs[0].end && head == cs[0].begin
  {
    var ds := cs[1..];
    assert ChunkLink(m, cs, 0);
    forall k | 0 <= k < |ds|
      ensures ChunkLink(m, ds, k)
    {
      assert ChunkLink(m, cs, k + 1);
      assert ds[k] == cs[k + 1] && ChunkAt(ds, k + 1) == ChunkAt(cs, k + 2);
    }
  }

  lemma StackPush(l: Lists, x: int, size: nat)
    requires size > 0
    ensures Stack(Lists([x] + l.entries, l.chunks), size) == [x] + Stack(l, size)
  {
  }

  lemma StackPop(l: Lists, size: nat)
    requires size > 0 && l.entries != []
    ensures Stack(l, size) == [l.entries[0]] + Stack(Lists(l.entries[1..], l.chunks), size)
  {
    assert l.entries == [l.entries[0]] + l.entries[1..];
  }

  lemma StackChunk(es: seq<int>, c: Chunk, cs: seq<Chunk>, size: nat)
    requires size > 0
    ensures multiset(Stack(Lists(es, [c] + cs), size))
            == multiset(Stack(Lists(es, cs), size)) + multiset(Run(c.begin, c.end, size))
  {
    assert ([c] + cs)[1..] == cs;
    var r, rest := Run(c.begin, c.end, size), ChunkEntries(cs, size);
    assert ChunkEntries([c] + cs, size) == r + rest;
  }

  lemma AlignedNext(a: int, size: nat)
    requires size > 0 && Aligned(a, size)
    ensures Aligned(a + size, size)
  {
    AlignedIs(a, size);
    AlignedIs(a + size, size);
    assert a + size == (a / size + 1) * size;
    MultipleMod(a / size + 1, size);
  }

  /** A chunk without its first entry. */
  function Tail(c: Chunk, size: nat): seq<Chunk> {
    if c.begin + size >= c.end then [] else [Chunk(c.begin + size, c.end)]
  }

  lemma StackTail(cs: seq<Chunk>, size: nat)
    requires size > 0 && cs != [] && cs[0].begin < cs[0].end
    ensures Stack(Lists([], cs), size) == [cs[0].begin] + Stack(Lists([], Tail(cs[0], size) + cs[1..]), size)
  {
    var c, t := cs[0], Tail(cs[0], size);
    var r := Run(c.begin + size, c.end, size);
    if t == [] {
      assert t + cs[1..] == cs[1..];
    } else {
      assert (t + cs[1..])[1..] == cs[1..];
    }
    assert [c.begin] + r + ChunkEntries(cs[1..], size) == [c.begin] + (r + ChunkEntries(cs[1..], size));
  }

  lemma {:induction false} RunBounds(b: int, e: int, size: nat, x: int)
    requires size > 0 && x in Run(b, e, size)
    ensures b <= x < e
    decreases e - b
  {
    if x != b {
      assert x in Run(b + size, e, size);
      RunBounds(b + size, e, size, x);
    }
  }

  lemma {:induction false} RunNoDup(b: int, e: int, size: nat)
    requires size > 0
    ensures NoDup(multiset(Run(b, e, size)))
    decreases if b < e then e - b else 0
  {
    if b < e {
      var rest := Run(b + size, e, size);
      RunNoDup(b + size, e, size);
      if b in rest {
        RunBounds(b + size, e, size, b);
      }
      assert multiset(Run(b, e, size)) == multiset{b} + multiset(rest);
    }
  }

  lemma {:induction false} RunAligned(b: int, e: int, size: nat, x: int)
    requires size > 0 && x in Run(b, e, size) && Aligned(b, size)
    ensures Aligned(x, size)
    decreases e - b
  {
    if x != b {
      assert x in Run(b + size, e, size);
      AlignedNext(b, size);
      RunAligned(b + size, e, size, x);
    }
  }

  lemma TotalSnoc(ls: seq<Lists>, l: Lists, size: nat)
    requires size > 0
    ensures Total(ls + [l], size) == Total(ls, size) + multiset(Stack(l, size))
  {
    assert Stacks(ls + [l], size) == Stacks(ls, size) + [multiset(Stack(l, size))];
    SumSnoc(Stacks(ls, size), multiset(Stack(l, size)));
  }

  // ---- Carving memory out of a chunk ----

  /** What is left of a chunk when the part from `start` to `stop` is taken. */
  function Carve(c: Chunk, start: int, stop: int): seq<Chunk> {
    Piece(c.begin, start) + Piece(stop, c.end)
  }

  function Piece(b: int, e: int): seq<Chunk> {
    if b < e then [Chunk(b, e)] else []
  }

  function Carved(cs: seq<Chunk>, k: nat, start: int, stop: int): seq<Chunk>
    requires k < |cs|
  {
    cs[..k] + Carve(cs[k], start, stop) + cs[k + 1..]
  }

  lemma {:induction false} ChunkParts(cs: seq<Chunk>, ds: seq<Chunk>, size: nat)
    requires size > 0
    ensures ChunkEntries(cs + ds, size) == ChunkEntries(cs, size) + ChunkEntries(ds, size)
  {
    if cs == [] {
      assert cs + ds == ds;
    } else {
      assert (cs + ds)[1..] == cs[1..] + ds;
      ChunkParts(cs[1..], ds, size);
    }
  }

  lemma {:induction false} RunSplit(b: int, mid: int, e: int, size: nat)
    requires size > 0 && b <= mid <= e && Aligned(b, size) && Aligned(mid, size)
    ensures Run(b, e, size) == Run(b, mid, size) + Run(mid, e, size)
    decreases mid - b
  {
    if b < mid {
      NextMultiple(b, mid, size);
      AlignedNext(b, size);
      RunSplit(b + size, mid, e, size);
    }
  }

  lemma NextMultiple(b: int, e: int, size: nat)
    requires size > 0 && Aligned(b, size) && Aligned(e, size) && b < e
    ensures b + size <= e
  {
    AlignedIs(b, size);
    AlignedIs(e, size);
    var d := e / size - b / size;
    assert d * size == e - b;
    if e - b < size {
      SmallMultiple(d, size);
      assert false;
    }
  }

  lemma CarveEntries(c: Chunk, start: int, stop: int, size: nat)
    requires size > 0 && WfChunk(c, size) && Aligned(start, size) && Aligned(stop, size)
    requires c.begin <= start <= stop <= c.end
    ensures multiset(ChunkEntries(Carve(c, start, stop), size)) + multiset(Run(start, stop, size))
            == multiset(Run(c.begin, c.end, size))
  {
    RunSplit(c.begin, start, c.end, size);
    RunSplit(start, stop, c.end, size);
    PieceEntries(c.begin, start, size);
    PieceEntries(stop, c.end, size);
    ChunkParts(Piece(c.begin, start), Piece(stop, c.end), size);
    Remove(Run(c.begin, start, size), Run(start, stop, size), Run(stop, c.end, size));
  }

  lemma PieceEntries(b: int, e: int, size: nat)
    requires size > 0
    ensures ChunkEntries(Piece(b, e), size) == Run(b, e, size)
  {
  }

  lemma Remove(a: seq<int>, b: seq<int>, c: seq<int>)
    ensures multiset(a + c) + multiset(b) == multiset(a + (b + c))
  {
  }

  lemma CarvedEntries(cs: seq<Chunk>, k: nat, start: int, stop: int, size: nat)
    requires size > 0 && k < |cs| && WfChunk(cs[k], size) && Aligned(start, size) && Aligned(stop, size)
    requires cs[k].begin <= start <= stop <= cs[k].end
    ensures multiset(ChunkEntries(Carved(cs, k, start, stop), size)) + multiset(Run(start, stop, size))
            == multiset(ChunkEntries(cs, size))
  {
    var pre, c, post := cs[..k], cs[k], cs[k + 1..];
    var mid := Carve(c, start, stop);
    assert cs == pre + ([c] + post);
    assert ([c] + post)[1..] == post;
    ChunkParts(pre, [c] + post, size);
    ChunkParts(pre + mid, post, size);
    ChunkParts(pre, mid, size);
    CarveEntries(c, start, stop, size);
  }

  /** Chunk `i` of `mid` is linked to the next, or if it is the last to `next`. */
  ghost predicate MidLink(m: Ram, mid: seq<Chunk>, next: int, i: nat)
    requires i < |mid|
  {
    && Read(m, mid[i].begin) == (if i + 1 < |mid| then mid[i + 1].begin else next)
    && Read(m, mid[i].begin + 8) == mid[i].end
  }

  ghost predicate LinkedTo(m: Ram, mid: seq<Chunk>, next: int) {
    forall i :: 0 <= i < |mid| ==> MidLink(m, mid, next, i)
  }

  /** The header of chunk `i` is as it was, except for the link of the chunk before chunk `k`. */
  ghost predicate HeaderStays(m': Ram, m: Ram, cs: seq<Chunk>, k: nat, i: nat)
    requires i < |cs|
  {
    Read(m', cs[i].begin + 8) == Read(m, cs[i].begin + 8)
      && (i + 1 != k ==> Read(m', cs[i].begin) == Read(m, cs[i].begin))
  }

  /** Replacing chunk `k` of a chunk list by the chunks `mid`. */
  lemma SpliceRep(m: Ram, m': Ram, head: int, cs: seq<Chunk>, k: nat, mid: seq<Chunk>, head': int)
    requires RepChunks(m, head, cs) && k < |cs| && LinkedTo(m', mid, ChunkAt(cs, k + 1))
    requires forall i :: 0 <= i < |cs| && i != k ==> HeaderStays(m', m, cs, k, i)
    requires if k == 0 then head' == ChunkAt(mid + cs[k + 1..], 0)
             else head' == head && Read(m', cs[k - 1].begin) == ChunkAt(mid + cs[k + 1..], 0)
    ensures RepChunks(m', head', cs[..k] + mid + cs[k + 1..])
  {
    var ds := cs[..k] + mid + cs[k + 1..];
    assert ds == cs[..k] + (mid + cs[k + 1..]);
    forall i | 0 <= i < |ds|
      ensures ChunkLink(m', ds, i)
    {
      if i < k {
        SpliceBefore(cs, mid, k, i);
        assert ChunkLink(m, cs, i) && HeaderStays(m', m, cs, k, i);
      } else if i < k + |mid| {
        SpliceMid(cs, mid, k, i);
        assert MidLink(m', mid, ChunkAt(cs, k + 1), i - k);
      } else {
        SpliceAfter(cs, mid, k, i);
        assert ChunkLink(m, cs, i - |mid| + 1) && HeaderStays(m', m, cs, k, i - |mid| + 1);
      }
    }
  }

  lemma CarveLinks(m: Ram, c: Chunk, start: int, stop: int, next: int)
    requires stop < c.end ==> Read(m, stop) == next && Read(m, stop + 8) == c.end
    requires c.begin < start ==>
               Read(m, c.begin) == (if stop < c.end then stop else next) && Read(m, c.begin + 8) == start
    ensures LinkedTo(m, Carve(c, start, stop), next)
  {
  }

  lemma SpliceBefore(cs: seq<Chunk>, mid: seq<Chunk>, k: nat, i: nat)
    requires i < k < |cs|
    ensures var ds := cs[..k] + mid + cs[k + 1..];
            ds[i] == cs[i] && ChunkAt(ds, i + 1) == if i + 1 < k then cs[i + 1].begin else ChunkAt(mid + cs[k + 1..], 0)
  {
  }

  lemma SpliceMid(cs: seq<Chunk>, mid: seq<Chunk>, k: nat, i: nat)
    requires k < |cs| && k <= i < k + |mid|
    ensures var ds := cs[..k] + mid + cs[k + 1..];
            ds[i] == mid[i - k]
              && ChunkAt(ds, i + 1) == if i + 1 < k + |mid| then mid[i + 1 - k].begin else ChunkAt(cs, k + 1)
  {
  }

  lemma SpliceAfter(cs: seq<Chunk>, mid: seq<Chunk>, k: nat, i: nat)
    requires k < |cs| && k + |mid| <= i < |cs| - 1 + |mid|
    ensures var ds := cs[..k] + mid + cs[k + 1..];
            ds[i] == cs[i - |mid| + 1] && ChunkAt(ds, i + 1) == ChunkAt(cs, i - |mid| + 2)
  {
  }
}
