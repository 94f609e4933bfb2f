/** First-fit allocation and boundary-tag release (lib/src/memory/memoryAlloc.c). */
module Allocator {
  import opened Basics
  import opened HeapBlocks
  import opened Heap
  import opened Joining

  const UINT32_LIMIT := 0x1_0000_0000
  const UINT16_LIMIT := 0x1_0000

  /** A block of that size is large enough to be a block at all, and has room for the request. */
  predicate HasRoom(blockSize: int, size: nat) {
    blockSize >= MIN_BLOCK_SIZE && blockSize - HEADER_SIZE >= size
  }

  /** The block size for a request, computed in 32-bit unsigned arithmetic: the least that has room, or, when
      the sum wraps around, the least there is. */
  function RequiredSize(size: nat): (required: int)
    ensures size + HEADER_SIZE < UINT32_LIMIT ==> HasRoom(required, size) && forall n :: HasRoom(n, size) ==> required <= n
    ensures size < UINT32_LIMIT <= size + HEADER_SIZE ==> required == MIN_BLOCK_SIZE
  {
    var sum := (size + HEADER_SIZE) % UINT32_LIMIT;
    if sum < MIN_BLOCK_SIZE then MIN_BLOCK_SIZE else sum
  }

  /** Block k is free, large enough, and no member of the free list before it is large enough. */
  ghost predicate FirstFit(bs: seq<Block>, free: seq<int>, k: nat, required: int)
    requires k < |bs|
  {
    && bs[k].kind.Free? && bs[k].size >= required
    && exists j :: 0 <= j < |free| && free[j] == bs[k].addr
         && forall i :: 0 <= i < |bs| && bs[i].addr in free[..j] ==> bs[i].size < required
  }

  // ---------- the headers after block k has been split ----------

  /** The header writes of the splitting branch: the allocated block starts at q, inside block k. */
  function SplitWrites(hs: Headers, bs: seq<Block>, k: nat, q: int, header: Header): Headers
    requires k < |bs| && bs[k].addr in hs && (k + 1 < |bs| ==> bs[k + 1].addr in hs)
  {
    var moved := if k + 1 < |bs| then hs[bs[k + 1].addr := MovedNeighbour(hs[bs[k + 1].addr], q)] else hs;
    moved[q := header][bs[k].addr := hs[bs[k].addr].(size := q - bs[k].addr)]
  }

  /** What the allocating branches write into the header of the new block. */
  ghost predicate NewHeaderLinked(header: Header, left: int, right: int) {
    if header.kind.NonCollectible? then header.back == Previous(left) && header.forward == NextContiguous(right)
    else header.forward.Indices?
  }

  lemma SplitHeaderAt(hs: Headers, bs: seq<Block>, k: nat, header: Header, start: int, end: int, i: nat)
    requires Tiled(bs, start, end) && NoAdjacentFree(bs) && Represents(hs, bs)
    requires k < |bs| && bs[k].kind.Free? && bs[k].addr in hs && (k + 1 < |bs| ==> bs[k + 1].addr in hs)
    requires MIN_BLOCK_SIZE <= header.size <= bs[k].size - MIN_BLOCK_SIZE && i < |bs| && i != k
    ensures var q := bs[k].End() - header.size;
            && HeaderAt(SplitWrites(hs, bs, k, q, header), Allocated(bs, k, header.size, header.kind), if i < k then i else i + 1)
            && (!bs[i].kind.Free? ==> UntouchedAt(hs, SplitWrites(hs, bs, k, q, header), bs, i))
            && bs[i].addr != q
  {
    assert HeaderAt(hs, bs, i);
    Apart(bs, start, end, i);
    Apart(bs, start, end, k);
    var after := Allocated(bs, k, header.size, header.kind);
    if i == k + 1 {
      assert !TouchingFree(bs, k);
    } else if i > k {
      assert after[i] == bs[i - 1];
    }
    assert i + 1 < |bs| ==> after[if i < k then i + 1 else i + 2].addr == bs[i + 1].addr;
  }

  lemma SplitRepresents(hs: Headers, bs: seq<Block>, k: nat, header: Header, start: int, end: int)
    requires Tiled(bs, start, end) && NoAdjacentFree(bs) && Represents(hs, bs)
    requires k < |bs| && bs[k].kind.Free? && bs[k].addr in hs && (k + 1 < |bs| ==> bs[k + 1].addr in hs)
    requires MIN_BLOCK_SIZE <= header.size <= bs[k].size - MIN_BLOCK_SIZE
    requires !header.kind.Free? && NewHeaderLinked(header, bs[k].addr, Right(bs, k))
    ensures var q := bs[k].End() - header.size;
            && Represents(SplitWrites(hs, bs, k, q, header), Allocated(bs, k, header.size, header.kind))
            && AllocatedUntouched(hs, SplitWrites(hs, bs, k, q, header), bs)
  {
    var q := bs[k].End() - header.size;
    var hs', after := SplitWrites(hs, bs, k, q, header), Allocated(bs, k, header.size, header.kind);
    assert HeaderAt(hs, bs, k);
    forall i | 0 <= i < |after| ensures HeaderAt(hs', after, i) {
      if i < k || i > k + 1 {
        SplitHeaderAt(hs, bs, k, header, start, end, if i < k then i else i - 1);
      }
    }
    forall i | 0 <= i < |bs| && !bs[i].kind.Free? ensures UntouchedAt(hs, hs', bs, i) {
      SplitHeaderAt(hs, bs, k, header, start, end, i);
    }
  }

  lemma SplitListsFree(bs: seq<Block>, s: seq<int>, k: nat, required: int, kind: Kind)
    requires k < |bs| && bs[k].kind.Free? && !kind.Free? && ListsFree(bs, s)
    requires MIN_BLOCK_SIZE <= required <= bs[k].size - MIN_BLOCK_SIZE
    ensures ListsFree(Allocated(bs, k, required, kind), s)
  {
    var after := Allocated(bs, k, required, kind);
    forall a | a in s ensures IsFreeBlock(after, a) {
      var i :| 0 <= i < |bs| && bs[i].addr == a && bs[i].kind.Free?;
      assert after[if i <= k then i else i + 1].addr == a;
    }
    forall i | 0 <= i < |after| ensures ListedAt(after, s, i) {
      assert ListedAt(bs, s, if i <= k then i else i - 1);
    }
  }

  lemma SplitList(hs: Headers, bs: seq<Block>, k: nat, header: Header, head: int, s: seq<int>, start: int, end: int)
    requires Tiled(bs, start, end) && NoAdjacentFree(bs) && Represents(hs, bs)
    requires IsList(hs, head, s) && forall a :: a in s ==> IsFreeBlock(bs, a)
    requires k < |bs| && bs[k].kind.Free? && bs[k].addr in hs && (k + 1 < |bs| ==> bs[k + 1].addr in hs)
    requires MIN_BLOCK_SIZE <= header.size <= bs[k].size - MIN_BLOCK_SIZE
    ensures IsList(SplitWrites(hs, bs, k, bs[k].End() - header.size, header), head, s)
  {
    var hs' := SplitWrites(hs, bs, k, bs[k].End() - header.size, header);
    forall a | a in s ensures a in hs' && (a in hs ==> hs'[a].forward == hs[a].forward && hs'[a].previousFree == hs[a].previousFree) {
      var i :| 0 <= i < |bs| && bs[i].addr == a && bs[i].kind.Free?;
      assert HeaderAt(hs, bs, i);
      Apart(bs, start, end, k);
      if i != k {
        SplitHeaderAt(hs, bs, k, header, start, end, i);
      }
    }
    SameList(hs, hs', head, s);
  }

  lemma SplitHolds(hs: Headers, bs: seq<Block>, k: nat, header: Header, head: int, s: seq<int>,
                   released: int, freed: seq<int>, start: int, end: int)
    requires TwoLists(start, end, hs, head, bs, s, released, freed)
    requires k < |bs| && bs[k].kind.Free? && bs[k].addr in hs && (k + 1 < |bs| ==> bs[k + 1].addr in hs)
    requires MIN_BLOCK_SIZE <= header.size <= bs[k].size - MIN_BLOCK_SIZE
    requires !header.kind.Free? && NewHeaderLinked(header, bs[k].addr, Right(bs, k))
    ensures var q := bs[k].End() - header.size;
            var hs' := SplitWrites(hs, bs, k, q, header);
            && TwoLists(start, end, hs', head, Allocated(bs, k, header.size, header.kind), s, released, freed)
            && AllocatedUntouched(hs, hs', bs)
            && q in hs' && hs'[q] == header
  {
    AllocatedTiled(bs, k, header.size, header.kind, start, end);
    AllocatedNoAdjacentFree(bs, k, header.size, header.kind);
    SplitRepresents(hs, bs, k, header, start, end);
    SplitList(hs, bs, k, header, head, s, start, end);
    SplitList(hs, bs, k, header, released, freed, start, end);
    SplitListsFree(bs, s + freed, k, header.size, header.kind);
  }

  // ---------- the headers after block k has been taken whole ----------

  lemma WholeHeaderAt(hs: Headers, mid: Headers, bs: seq<Block>, k: nat, header: Header, s: seq<int>, start: int, end: int, i: nat)
    requires Tiled(bs, start, end) && Represents(hs, bs) && ListsFree(bs, s) && OnlyLinksDiffer(hs, mid, s)
    requires k < |bs| && bs[k].kind.Free? && i < |bs| && i != k
    ensures HeaderAt(mid[bs[k].addr := header], bs[k := bs[k].(kind := header.kind)], i)
    ensures !bs[i].kind.Free? ==> UntouchedAt(hs, mid[bs[k].addr := header], bs, i)
  {
    assert HeaderAt(hs, bs, i);
    Apart(bs, start, end, i);
    if !bs[i].kind.Free? {
      NotListed(bs, s, start, end, i);
    }
  }

  lemma WholeListsFree(bs: seq<Block>, s: seq<int>, k: nat, j: nat, kind: Kind, start: int, end: int)
    requires Tiled(bs, start, end) && ListsFree(bs, s)
    requires k < |bs| && j < |s| && s[j] == bs[k].addr && !kind.Free?
    ensures ListsFree(bs[k := bs[k].(kind := kind)], s[..j] + s[j + 1..])
  {
    var after, t := bs[k := bs[k].(kind := kind)], s[..j] + s[j + 1..];
    Apart(bs, start, end, k);
    forall a | a in t ensures IsFreeBlock(after, a) {
      assert a in s && a != s[j];
      var i :| 0 <= i < |bs| && bs[i].addr == a && bs[i].kind.Free?;
      assert after[i] == bs[i];
    }
    forall i | 0 <= i < |after| ensures ListedAt(after, t, i) {
      assert ListedAt(bs, s, i);
    }
  }

  /** The headers when block k has been taken whole, and its list writes are done. */
  lemma WholeRepresents(hs: Headers, mid: Headers, bs: seq<Block>, k: nat, header: Header, s: seq<int>, start: int, end: int)
    requires Tiled(bs, start, end) && NoAdjacentFree(bs) && Represents(hs, bs) && ListsFree(bs, s)
    requires k < |bs| && bs[k].kind.Free? && !header.kind.Free?
    requires bs[k].addr in hs && header == hs[bs[k].addr].(kind := header.kind, forward := header.forward)
    requires NewHeaderLinked(header, Left(bs, k), Right(bs, k)) && OnlyLinksDiffer(hs, mid, s)
    ensures var after := bs[k := bs[k].(kind := header.kind)];
            Tiled(after, start, end) && NoAdjacentFree(after) && Represents(mid[bs[k].addr := header], after)
    ensures AllocatedUntouched(hs, mid[bs[k].addr := header], bs)
  {
    var hs', after := mid[bs[k].addr := header], bs[k := bs[k].(kind := header.kind)];
    assert HeaderAt(hs, bs, k);
    Apart(bs, start, end, k);
    ReplacedTiled(bs, k, [after[k]], start, end);
    assert after == bs[..k] + [after[k]] + bs[k + 1..];
    forall i | 0 <= i < |bs| - 1 ensures !TouchingFree(after, i) {
      assert !TouchingFree(bs, i);
    }
    forall i | 0 <= i < |bs|
      ensures HeaderAt(hs', after, i) && (!bs[i].kind.Free? ==> UntouchedAt(hs, hs', bs, i))
    {
      if i != k {
        WholeHeaderAt(hs, mid, bs, k, header, s, start, end, i);
      }
    }
  }

  /** A list without block k, once the header of that block has been written. */
  lemma WholeList(mid: Headers, head: int, p: int, header: Header, s: seq<int>)
    requires IsList(mid, head, s) && p !in s
    ensures IsList(mid[p := header], head, s)
  {
    ListKnown(mid, head, s);
    SameList(mid, mid[p := header], head, s);
  }

  lemma WholeHolds(hs: Headers, bs: seq<Block>, k: nat, header: Header, head: int, s: seq<int>, j: nat,
                   released: int, freed: seq<int>, start: int, end: int)
    requires TwoLists(start, end, hs, head, bs, s, released, freed) && Known(hs, s)
    requires k < |bs| && bs[k].kind.Free? && !header.kind.Free? && j < |s| && s[j] == bs[k].addr
    requires bs[k].addr in hs && header == hs[bs[k].addr].(kind := header.kind, forward := header.forward)
    requires NewHeaderLinked(header, Left(bs, k), Right(bs, k))
    ensures var hs', rest := UnlinkedHeaders(hs, s, j)[bs[k].addr := header], s[..j] + s[j + 1..];
            && TwoLists(start, end, hs', if j == 0 then Successor(s, 0) else head, bs[k := bs[k].(kind := header.kind)],
                        rest, released, freed)
            && AllocatedUntouched(hs, hs', bs)
  {
    var p, mid, rest := bs[k].addr, UnlinkedHeaders(hs, s, j), s[..j] + s[j + 1..];
    DistinctParts(s, freed);
    UnlinkedList(hs, head, s, j);
    DisjointList(hs, mid, released, s, freed);
    WholeRepresents(hs, mid, bs, k, header, s + freed, start, end);
    var all := s + freed;
    assert all[j] == p && all[..j] + all[j + 1..] == rest + freed;
    WholeListsFree(bs, all, k, j, header.kind, start, end);
    WholeList(mid, if j == 0 then Successor(s, 0) else head, p, header, rest);
    WholeList(mid, released, p, header, freed);
  }

  // ---------- what an allocation writes ----------

  /** A freshly allocated header: uncoloured, and a collectible one knows its field count. */
  ghost predicate NewHeader(h: Header, kind: Kind, contained: nat) {
    h.kind == kind && !h.grey && !h.black && (kind.Collectible() ==> h.forward.Indices? && h.forward.contained == contained)
  }

  /** Free block k can be allocated from. */
  ghost predicate Grantable(hs: Headers, bs: seq<Block>, s: seq<int>, k: nat, required: int) {
    && k < |bs| && MIN_BLOCK_SIZE <= required <= bs[k].size && bs[k].kind.Free?
    && bs[k].addr in hs && (k + 1 < |bs| ==> bs[k + 1].addr in hs) && Known(hs, s) && bs[k].addr in s
  }

  predicate Splits(bs: seq<Block>, k: nat, required: int)
    requires k < |bs|
  {
    bs[k].size - required >= MIN_BLOCK_SIZE
  }

  /** Where the allocated block starts. */
  function GrantedAt(bs: seq<Block>, k: nat, required: int): int
    requires k < |bs|
  {
    if Splits(bs, k, required) then bs[k].End() - required else bs[k].addr
  }

  /** All the writes of an allocation whose new block gets the given header: the free block is split, or
      leaves the free list. */
  ghost function GrantedHeaders(hs: Headers, bs: seq<Block>, s: seq<int>, k: nat, required: int, header: Header): Headers
    requires Grantable(hs, bs, s, k, required)
  {
    if Splits(bs, k, required) then SplitWrites(hs, bs, k, bs[k].End() - required, header)
    else UnlinkedHeaders(hs, s, PlaceOf(s, bs[k].addr))[bs[k].addr := header]
  }

  ghost function GrantedList(bs: seq<Block>, s: seq<int>, k: nat, required: int): seq<int>
    requires k < |bs| && bs[k].addr in s
  {
    var j := PlaceOf(s, bs[k].addr);
    if Splits(bs, k, required) then s else s[..j] + s[j + 1..]
  }

  /** The header of the new block, which is linked with its neighbours. The memory of a new header may hold
      anything, except for the words that are written. */
  ghost predicate GrantedHeader(hs: Headers, bs: seq<Block>, k: nat, required: int, kind: Kind, contained: nat, header: Header)
    requires k < |bs| && bs[k].addr in hs
  {
    && NewHeader(header, kind, contained)
    && if Splits(bs, k, required) then header.size == required && NewHeaderLinked(header, bs[k].addr, Right(bs, k))
       else header == hs[bs[k].addr].(kind := kind, forward := header.forward) && NewHeaderLinked(header, Left(bs, k), Right(bs, k))
  }

  /** hs', head' and s' are what an allocation from block k makes of the heap. */
  ghost predicate Granted(hs: Headers, bs: seq<Block>, s: seq<int>, k: nat, required: int, kind: Kind, contained: nat,
                          hs': Headers, head': int, s': seq<int>) {
    && Grantable(hs, bs, s, k, required) && GrantedAt(bs, k, required) in hs'
    && var header := hs'[GrantedAt(bs, k, required)];
       && GrantedHeader(hs, bs, k, required, kind, contained, header)
       && hs' == GrantedHeaders(hs, bs, s, k, required, header)
       && s' == GrantedList(bs, s, k, required) && head' == Front(s')
  }

  lemma GrantableHeap(hs: Headers, head: int, bs: seq<Block>, s: seq<int>, k: nat, required: int)
    requires Represents(hs, bs) && IsList(hs, head, s)
    requires k < |bs| && bs[k].kind.Free? && bs[k].addr in s && MIN_BLOCK_SIZE <= required <= bs[k].size
    ensures Grantable(hs, bs, s, k, required)
  {
    ListKnown(hs, head, s);
    assert HeaderAt(hs, bs, k);
    assert k + 1 < |bs| ==> HeaderAt(hs, bs, k + 1);
  }

  /** An allocation leaves the heap well formed, with the new block in it and every allocated block as it was. */
  lemma GrantedHolds(hs: Headers, head: int, bs: seq<Block>, s: seq<int>, k: nat, required: int, kind: Kind, contained: nat,
                     hs': Headers, head': int, s': seq<int>, released: int, freed: seq<int>, start: int, end: int)
    requires TwoLists(start, end, hs, head, bs, s, released, freed) && !kind.Free?
    requires Granted(hs, bs, s, k, required, kind, contained, hs', head', s')
    ensures TwoLists(start, end, hs', head', Allocated(bs, k, required, kind), s', released, freed)
    ensures AllocatedUntouched(hs, hs', bs)
  {
    var header := hs'[GrantedAt(bs, k, required)];
    if Splits(bs, k, required) {
      SplitHolds(hs, bs, k, header, head, s, released, freed, start, end);
    } else {
      WholeHolds(hs, bs, k, header, head, s, PlaceOf(s, bs[k].addr), released, freed, start, end);
    }
  }

  // ---------- allocateBlock ----------

  /** The branch of allocateBlock that carves the allocation out of the end of free block p. */
  method SplitBlock(h: Heap, p: int, required: int, kind: Kind, contained: nat, ghost k: nat,
                    ghost released: int, ghost freed: seq<int>)
    returns (q: int)
    requires h.Holds(released, freed) && !kind.Free?
    requires k < |h.blocks| && h.blocks[k].addr == p && h.blocks[k].kind.Free? && p in h.free
    requires MIN_BLOCK_SIZE <= required <= h.blocks[k].size - MIN_BLOCK_SIZE
    modifies h`headers, h`blocks
    ensures h.Holds(released, freed)
    ensures h.blocks == Allocated(old(h.blocks), k, required, kind)
    ensures q == old(h.blocks[k].End()) - required && q in h.headers
    ensures NewHeader(h.headers[q], kind, contained)
    ensures Granted(old(h.headers), old(h.blocks), h.free, k, required, kind, contained, h.headers, h.freeList, h.free)
    ensures AllocatedUntouched(old(h.headers), h.headers, old(h.blocks))
  {
    ghost var hs, bs := h.headers, h.blocks;
    Apart(bs, h.start, h.end, k);
    assert HeaderAt(hs, bs, k);
    assert k + 1 < |bs| ==> HeaderAt(hs, bs, k + 1);
    var blockSize := h.headers[p].size;
    var extraSize := blockSize - required;
    q := p + extraSize;
    var next := q + required;
    // the memory at q may hold anything, except for the words written here
    var header: Header := *;
    if kind.NonCollectible? {
      header := header.(back := Previous(p), forward := NextContiguous(if next < h.end then next else NULL));
    } else {
      var currentIndex: nat := *;
      header := header.(forward := Indices(currentIndex, contained));
    }
    if next < h.end && h.headers[next].kind.NonCollectible? {
      h.headers := SetPrevious(h.headers, next, q);
    }
    header := header.(size := required, kind := kind, grey := false, black := false);
    h.headers := h.headers[q := header];
    h.headers := SetSizeAndSetFree(h.headers, p, extraSize);

    assert h.headers == SplitWrites(hs, bs, k, q, header);
    GrantableHeap(hs, h.freeList, bs, h.free, k, required);
    GrantedHolds(hs, h.freeList, bs, h.free, k, required, kind, contained, h.headers, h.freeList, h.free,
                 released, freed, h.start, h.end);
    h.blocks := Allocated(bs, k, required, kind);
  }

  lemma WholeGranted(hs: Headers, bs: seq<Block>, s: seq<int>, k: nat, j: nat, required: int, kind: Kind, contained: nat, header: Header)
    requires Grantable(hs, bs, s, k, required) && !Splits(bs, k, required) && j == PlaceOf(s, bs[k].addr)
    requires GrantedHeader(hs, bs, k, required, kind, contained, header)
    ensures var rest := s[..j] + s[j + 1..];
            Granted(hs, bs, s, k, required, kind, contained, UnlinkedHeaders(hs, s, j)[bs[k].addr := header], Front(rest), rest)
  {
  }

  /** The branch of allocateBlock that takes free block p, member j of the free list, as a whole. */
  method TakeWhole(h: Heap, p: int, previous: int, kind: Kind, contained: nat, ghost k: nat, ghost j: nat, ghost required: int,
                   ghost released: int, ghost freed: seq<int>)
    requires h.Holds(released, freed) && !kind.Free?
    requires k < |h.blocks| && h.blocks[k].addr == p && h.blocks[k].kind.Free?
    requires j < |h.free| && h.free[j] == p && previous == Predecessor(h.free, j)
    requires MIN_BLOCK_SIZE <= required <= h.blocks[k].size < required + MIN_BLOCK_SIZE
    modifies h`headers, h`freeList, h`blocks, h`free
    ensures h.Holds(released, freed)
    ensures h.blocks == old(h.blocks)[k := old(h.blocks[k]).(kind := kind)]
    ensures p in h.headers && NewHeader(h.headers[p], kind, contained)
    ensures Granted(old(h.headers), old(h.blocks), old(h.free), k, required, kind, contained, h.headers, h.freeList, h.free)
    ensures h.free == old(h.free)[..j] + old(h.free)[j + 1..]
    ensures AllocatedUntouched(old(h.headers), h.headers, old(h.blocks))
  {
    ghost var hs, head, bs, s := h.headers, h.freeList, h.blocks, h.free;
    Apart(bs, h.start, h.end, k);
    GrantableHeap(hs, head, bs, s, k, required);
    DistinctParts(s, freed);
    assert HeaderAt(hs, bs, k) && NodeAt(hs, s, j) && j == PlaceOf(s, p);
    var blockSize := h.headers[p].size;
    h.Unlink(previous, h.headers[p].forward.free, head, s, j);
    var header := h.headers[p];
    if kind.NonCollectible? {
      // a free block knows its left neighbour, so only the right one is missing
      var neighbour := p + blockSize;
      header := header.(forward := NextContiguous(if neighbour >= h.end then NULL else neighbour));
    } else {
      var currentIndex: nat := *;
      header := header.(forward := Indices(currentIndex, contained));
    }
    header := header.(kind := kind);
    h.headers := h.headers[p := header];
    h.blocks := bs[k := bs[k].(kind := kind)];
    h.free := s[..j] + s[j + 1..];
    WholeGranted(hs, bs, s, k, j, required, kind, contained, header);
    GrantedHolds(hs, head, bs, s, k, required, kind, contained, h.headers, h.freeList, h.free, released, freed, h.start, h.end);
  }

  /** A block that is split keeps its place in the free list, one that is taken whole leaves it; all others
      stay in their order. */
  ghost predicate OrderKept(bs: seq<Block>, s: seq<int>, s': seq<int>, k: nat, required: int)
    requires k < |bs|
  {
    if bs[k].size - required >= MIN_BLOCK_SIZE then s' == s
    else exists j :: 0 <= j < |s| && s[j] == bs[k].addr && s' == s[..j] + s[j + 1..]
  }

  /** Takes a block of the required size from free block p, member j of the free list. */
  method TakeFrom(h: Heap, p: int, previous: int, required: int, kind: Kind, contained: nat, ghost k: nat, ghost j: nat,
                  ghost released: int, ghost freed: seq<int>)
    returns (q: int)
    requires h.Holds(released, freed) && !kind.Free?
    requires k < |h.blocks| && h.blocks[k].addr == p && h.blocks[k].kind.Free?
    requires j < |h.free| && h.free[j] == p && previous == Predecessor(h.free, j) && MIN_BLOCK_SIZE <= required <= h.blocks[k].size
    modifies h`headers, h`freeList, h`blocks, h`free
    ensures h.Holds(released, freed) && h.blocks == Allocated(old(h.blocks), k, required, kind)
    ensures q == h.blocks[AllocatedIndex(old(h.blocks), k, required)].addr && q in h.headers && NewHeader(h.headers[q], kind, contained)
    ensures Granted(old(h.headers), old(h.blocks), old(h.free), k, required, kind, contained, h.headers, h.freeList, h.free)
    ensures OrderKept(old(h.blocks), old(h.free), h.free, k, required)
    ensures AllocatedUntouched(old(h.headers), h.headers, old(h.blocks))
  {
    assert HeaderAt(h.headers, h.blocks, k);
    var blockSize := h.headers[p].size;
    if blockSize - required >= MIN_BLOCK_SIZE {
      q := SplitBlock(h, p, required, kind, contained, k, released, freed);
    } else {
      TakeWhole(h, p, previous, kind, contained, k, j, required, released, freed);
      q := p;
    }
  }

  /** Free block i is on the free list, and large enough. */
  ghost predicate FitsAt(bs: seq<Block>, freed: seq<int>, i: nat, required: int)
    requires i < |bs|
  {
    bs[i].kind.Free? && bs[i].addr !in freed && bs[i].size >= required
  }

  ghost predicate HasFit(bs: seq<Block>, freed: seq<int>, required: int) {
    exists i :: 0 <= i < |bs| && FitsAt(bs, freed, i, required)
  }

  /** Some block of the free list has room for the request. */
  ghost predicate AnyRoom(bs: seq<Block>, freed: seq<int>, size: nat) {
    exists i :: 0 <= i < |bs| && bs[i].kind.Free? && bs[i].addr !in freed && HasRoom(bs[i].size, size)
  }

  lemma FitIsRoom(bs: seq<Block>, freed: seq<int>, size: nat)
    requires size + HEADER_SIZE < UINT32_LIMIT
    ensures HasFit(bs, freed, RequiredSize(size)) <==> AnyRoom(bs, freed, size)
  {
    if HasFit(bs, freed, RequiredSize(size)) {
      var i :| 0 <= i < |bs| && FitsAt(bs, freed, i, RequiredSize(size));
      assert HasRoom(bs[i].size, size);
    }
    if i :| 0 <= i < |bs| && bs[i].kind.Free? && bs[i].addr !in freed && HasRoom(bs[i].size, size) {
      assert FitsAt(bs, freed, i, RequiredSize(size));
    }
  }

  /** Takes a block of at least size payload bytes from the first free block that is large enough. Blocks
      that a collection has released, and not yet spliced into the free list, do not take part. */
  method AllocateBlock(h: Heap, size: nat, kind: Kind, contained: nat, locationByteOffset: int,
                       ghost released: int, ghost freed: seq<int>)
    returns (ok: bool, location: int, ghost k: nat)
    requires h.Holds(released, freed) && size < UINT32_LIMIT && contained < UINT16_LIMIT && !kind.Free?
    modifies h
    ensures h.Holds(released, freed)
    ensures ok <==> HasFit(old(h.blocks), freed, RequiredSize(size))
    ensures size + HEADER_SIZE < UINT32_LIMIT ==> (ok <==> AnyRoom(old(h.blocks), freed, size))
    ensures !ok ==> location == NULL && unchanged(h)
    ensures ok ==> k < |old(h.blocks)| && FirstFit(old(h.blocks), old(h.free), k, RequiredSize(size))
    ensures ok ==> h.blocks == Allocated(old(h.blocks), k, RequiredSize(size), kind)
    ensures ok ==> Granted(old(h.headers), old(h.blocks), old(h.free), k, RequiredSize(size), kind, contained, h.headers, h.freeList, h.free)
    ensures ok ==> var q := h.blocks[AllocatedIndex(old(h.blocks), k, RequiredSize(size))].addr;
                   location == q + HEADER_SIZE + locationByteOffset && q in h.headers && NewHeader(h.headers[q], kind, contained)
    ensures ok ==> OrderKept(old(h.blocks), old(h.free), h.free, k, RequiredSize(size))
    ensures ok ==> AllocatedUntouched(old(h.headers), h.headers, old(h.blocks))
  {
    var current := h.freeList;
    var previous := NULL;
    var requiredSize := (size + HEADER_SIZE) % UINT32_LIMIT;
    if requiredSize < MIN_BLOCK_SIZE {
      requiredSize := MIN_BLOCK_SIZE;
    }
    ghost var j := 0;
    k := 0;
    while current != NULL
      invariant j <= |h.free| && unchanged(h)
      invariant current == if j < |h.free| then h.free[j] else NULL
      invariant previous == if j == 0 then NULL else h.free[j - 1]
      invariant forall i :: 0 <= i < j ==> TooSmall(h.headers, h.free, i, requiredSize)
      decreases |h.free| - j
    {
      assert NodeAt(h.headers, h.free, j);
      var blockSize := h.headers[current].size;
      if blockSize >= requiredSize {
        k := FreeIndex(h, j, released, freed);
        FirstFitFound(h, k, j, size, released, freed);
        var q := TakeFrom(h, current, previous, requiredSize, kind, contained, k, j, released, freed);
        ok, location := true, q + HEADER_SIZE + locationByteOffset;
        return;
      }
      previous := current;
      current := h.headers[previous].forward.free;
      j := j + 1;
    }
    assert j < |h.free| ==> NodeAt(h.headers, h.free, j);
    NoFit(h, size, released, freed);
    ok, location := false, NULL;
  }

  ghost predicate TooSmall(hs: Headers, s: seq<int>, i: nat, required: int)
    requires i < |s|
  {
    s[i] in hs && hs[s[i]].size < required
  }

  lemma FreeIndex(h: Heap, j: nat, released: int, freed: seq<int>) returns (k: nat)
    requires h.Holds(released, freed) && j < |h.free|
    ensures k < |h.blocks| && h.blocks[k].addr == h.free[j] && h.blocks[k].kind.Free?
    ensures HeaderAt(h.headers, h.blocks, k) && FitsAt(h.blocks, freed, k, h.blocks[k].size)
  {
    DistinctParts(h.free, freed);
    assert h.free[j] in h.free + freed && IsFreeBlock(h.blocks, h.free[j]);
    k :| k < |h.blocks| && h.blocks[k].addr == h.free[j] && h.blocks[k].kind.Free?;
  }

  lemma FirstFitFound(h: Heap, k: nat, j: nat, size: nat, released: int, freed: seq<int>)
    requires h.Holds(released, freed) && k < |h.blocks| && j < |h.free| && h.free[j] == h.blocks[k].addr
    requires FitsAt(h.blocks, freed, k, RequiredSize(size))
    requires forall i :: 0 <= i < j ==> TooSmall(h.headers, h.free, i, RequiredSize(size))
    ensures FirstFit(h.blocks, h.free, k, RequiredSize(size)) && HasFit(h.blocks, freed, RequiredSize(size))
    ensures size + HEADER_SIZE < UINT32_LIMIT ==> AnyRoom(h.blocks, freed, size)
  {
    var required := RequiredSize(size);
    if size + HEADER_SIZE < UINT32_LIMIT {
      FitIsRoom(h.blocks, freed, size);
    }
    forall i | 0 <= i < |h.blocks| && h.blocks[i].addr in h.free[..j] ensures h.blocks[i].size < required {
      var m :| 0 <= m < j && h.free[m] == h.blocks[i].addr;
      assert TooSmall(h.headers, h.free, m, required) && HeaderAt(h.headers, h.blocks, i);
    }
  }

  lemma NoFit(h: Heap, size: nat, released: int, freed: seq<int>)
    requires h.Holds(released, freed)
    requires forall i :: 0 <= i < |h.free| ==> TooSmall(h.headers, h.free, i, RequiredSize(size))
    ensures !HasFit(h.blocks, freed, RequiredSize(size))
    ensures size + HEADER_SIZE < UINT32_LIMIT ==> !AnyRoom(h.blocks, freed, size)
  {
    var required := RequiredSize(size);
    if size + HEADER_SIZE < UINT32_LIMIT {
      FitIsRoom(h.blocks, freed, size);
    }
    forall i | 0 <= i < |h.blocks| ensures !FitsAt(h.blocks, freed, i, required) {
      assert ListedAt(h.blocks, h.free + freed, i) && HeaderAt(h.headers, h.blocks, i);
      if h.blocks[i].kind.Free? && h.blocks[i].addr !in freed {
        var m :| 0 <= m < |h.free| && h.free[m] == h.blocks[i].addr;
        assert TooSmall(h.headers, h.free, m, required);
      }
    }
  }

  /** No more is taken from the free block than is required, unless what would be left could not be a block. */
  lemma LeastTaken(bs: seq<Block>, k: nat, required: int, kind: Kind, n: int)
    requires k < |bs| && MIN_BLOCK_SIZE <= required <= bs[k].size
    ensures var taken := Allocated(bs, k, required, kind)[AllocatedIndex(bs, k, required)];
            && required <= taken.size <= bs[k].size && (taken.size == bs[k].size || bs[k].size - taken.size >= MIN_BLOCK_SIZE)
            && (required <= n <= bs[k].size && (n == bs[k].size || bs[k].size - n >= MIN_BLOCK_SIZE) ==> taken.size <= n)
  {
  }

  /** A granted block has room for the request, unless adding the header wrapped around in 32 bits:
      then it is smaller than what was asked for. */
  lemma PayloadFits(bs: seq<Block>, k: nat, size: nat, kind: Kind, start: int, end: int)
    requires Tiled(bs, start, end) && end - start < SIZE_LIMIT
    requires k < |bs| && size < UINT32_LIMIT && bs[k].size >= RequiredSize(size)
    ensures RequiredSize(size) >= MIN_BLOCK_SIZE
    ensures var taken := Allocated(bs, k, RequiredSize(size), kind)[AllocatedIndex(bs, k, RequiredSize(size))];
            taken.size - HEADER_SIZE >= size <==> size + HEADER_SIZE < UINT32_LIMIT
  {
    Apart(bs, start, end, k);
  }

  /** A request of 0xFFFF_FFF8 bytes in a heap of 200: it is granted, with 4 bytes behind the header. */
  method WrappedRequest() returns (h: Heap, ok: bool, location: int)
    ensures h.Valid() && ok && location == 1196
    ensures h.blocks == [Block(1000, 184, Free), Block(1184, 16, NonCollectible)]
  {
    h := new Heap.Initialize(1000, 200);
    ghost var k: nat;
    NoneReleased(h);
    assert FitsAt(h.blocks, [], 0, RequiredSize(0xFFFF_FFF8));
    ok, location, k := AllocateBlock(h, 0xFFFF_FFF8, NonCollectible, 0, 0, NULL, []);
    NoneReleased(h);
  }

  /** The granted block overlaps none of the blocks that were there, but the free one it is carved from. */
  lemma GrantedApart(bs: seq<Block>, k: nat, required: int, kind: Kind, start: int, end: int)
    requires Tiled(bs, start, end) && k < |bs| && MIN_BLOCK_SIZE <= required <= bs[k].size
    ensures var taken := Allocated(bs, k, required, kind)[AllocatedIndex(bs, k, required)];
            && taken.kind == kind && bs[k].addr <= taken.addr && taken.End() == bs[k].End()
            && forall i :: 0 <= i < |bs| && i != k ==>
                 bs[i] in Allocated(bs, k, required, kind) && (bs[i].End() <= taken.addr || taken.End() <= bs[i].addr)
  {
    var after := Allocated(bs, k, required, kind);
    forall i | 0 <= i < |bs| && i != k ensures bs[i] in after && (bs[i].End() <= bs[k].addr || bs[k].End() <= bs[i].addr) {
      if i < k {
        TiledPair(bs, start, end, i, k);
        assert after[i] == bs[i];
      } else {
        TiledPair(bs, start, end, k, i);
        assert after[i + AllocatedIndex(bs, k, required) - k] == bs[i];
      }
    }
  }
}
