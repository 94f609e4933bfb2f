/** The sweep phase (lib/src/memory/garbageCollect.c): one walk over the heap that turns every maximal
    run of white and free blocks into one free block. Blocks it frees go to a second list, which the
    caller splices into the free list. */
module Sweeper {
  import opened Basics
  import opened HeapBlocks
  import opened Heap
  import opened Joining

  /** The black bits of collectible blocks agree with the set black. */
  ghost predicate ColourAt(hs: Headers, bs: seq<Block>, black: set<int>, i: nat)
    requires i < |bs|
  {
    bs[i].kind.Collectible() ==> bs[i].addr in hs && (hs[bs[i].addr].black <==> bs[i].addr in black)
  }

  ghost predicate Coloured(hs: Headers, bs: seq<Block>, black: set<int>) {
    forall i :: 0 <= i < |bs| ==> ColourAt(hs, bs, black, i)
  }

  /** The walk has arrived at block i: no white block is left of it, and all released blocks are. */
  ghost predicate Arrived(bs: seq<Block>, freed: seq<int>, black: set<int>, i: nat) {
    && i < |bs|
    && (forall m :: 0 <= m < i ==> !White(bs[m], black))
    && (forall a :: a in freed ==> a < bs[i].addr)
  }

  /** Free blocks strictly between lo and hi have left the free list, and nothing else has. */
  ghost predicate Swallowed(bs: seq<Block>, free: seq<int>, free': seq<int>, lo: nat, hi: nat)
    requires lo < hi <= |bs|
  {
    && (forall a :: a in free' ==> a in free)
    && (forall m :: lo < m < hi ==> bs[m].addr !in free')
    && (forall m :: 0 <= m < |bs| && !(lo < m < hi) && bs[m].addr in free ==> bs[m].addr in free')
  }

  ghost predicate Within(s: seq<int>, t: seq<int>) {
    forall a :: a in s ==> a in t
  }

  /** In t the entry x never stands behind the entry y. */
  ghost predicate NotBehind(t: seq<int>, x: int, y: int) {
    forall a, b :: 0 <= a < |t| && 0 <= b < |t| && t[a] == x && t[b] == y ==> a < b
  }

  /** s is t without some of its entries, in the order they had. */
  ghost predicate Thinned(s: seq<int>, t: seq<int>) {
    Within(s, t) && forall i, j :: 0 <= i < j < |s| ==> NotBehind(t, s[i], s[j])
  }

  lemma ThinnedSame(s: seq<int>)
    requires Distinct(s)
    ensures Thinned(s, s)
  {
  }

  lemma ThinnedOne(s: seq<int>, m: nat)
    requires Distinct(s) && m < |s|
    ensures Thinned(s[..m] + s[m + 1..], s)
  {
    var t := s[..m] + s[m + 1..];
    forall i, j | 0 <= i < j < |t| ensures NotBehind(s, t[i], t[j]) {
      assert t[i] == s[if i < m then i else i + 1] && t[j] == s[if j < m then j else j + 1];
    }
  }

  lemma ThinnedTwice(s: seq<int>, t: seq<int>, u: seq<int>)
    requires Thinned(s, t) && Thinned(t, u)
    ensures Thinned(s, u)
  {
    forall i, j | 0 <= i < j < |s| ensures NotBehind(u, s[i], s[j]) {
      assert s[i] in s && s[j] in s && s[i] in t && s[j] in t;
      var a :| 0 <= a < |t| && t[a] == s[i];
      var b :| 0 <= b < |t| && t[b] == s[j];
      assert NotBehind(t, s[i], s[j]) && a < b && NotBehind(u, t[a], t[b]);
    }
  }

  /** The blocks that were released last come first. */
  ghost predicate Descending(freed: seq<int>) {
    forall i, j :: 0 <= i < j < |freed| ==> freed[i] > freed[j]
  }

  lemma DistinctWithout(s: seq<int>, t: seq<int>, j: nat)
    requires Distinct(s + t) && j < |s|
    ensures Distinct(s) && Distinct((s[..j] + s[j + 1..]) + t)
    ensures forall a :: a in s[..j] + s[j + 1..] <==> a in s && a != s[j]
  {
    var u := s + t;
    forall i, m | 0 <= i < m < |s| ensures s[i] != s[m] {
      assert u[i] == s[i] && u[m] == s[m];
    }
    var w := (s[..j] + s[j + 1..]) + t;
    assert w == u[..j] + u[j + 1..];
  }

  /** One free block more has been swallowed: block j, member m of what is left of the free list. */
  lemma SwallowedOne(hs: Headers, before: Headers, hs': Headers, bs: seq<Block>, free0: seq<int>, free: seq<int>,
                     released: int, freed: seq<int>, m: nat, i: nat, j: nat)
    requires m < |free| && i < j < |bs| && free[m] == bs[j].addr && Distinct(free + freed) && Swallowed(bs, free0, free, i, j)
    requires OnlyLinksDiffer(hs, before, free0) && OnlyLinksDiffer(before, hs', free) && IsList(before, released, freed)
    requires forall x :: 0 <= x < |bs| && x != j ==> bs[x].addr != bs[j].addr
    ensures var rest := free[..m] + free[m + 1..];
            && OnlyLinksDiffer(hs, hs', free0) && IsList(hs', released, freed)
            && Distinct(rest + freed) && Swallowed(bs, free0, rest, i, j + 1)
  {
    DistinctWithout(free, freed, m);
    DistinctParts(free, freed);
    DisjointList(before, hs', released, free, freed);
    OnlyLinksDifferTransitive(hs, before, hs', free0, free);
  }

  /** Takes free block j, which starts at n, off the free list. */
  method SwallowFree(h: Heap, n: int, released: int, ghost hs: Headers, ghost free0: seq<int>, ghost freed: seq<int>,
                     ghost black: set<int>, ghost i: nat, ghost j: nat)
    requires Tiled(h.blocks, h.start, h.end) && ListsFree(h.blocks, free0 + freed) && Arrived(h.blocks, freed, black, i)
    requires i < j < |h.blocks| && h.blocks[j].addr == n && h.blocks[j].kind.Free?
    requires OnlyLinksDiffer(hs, h.headers, free0) && Swallowed(h.blocks, free0, h.free, i, j)
    requires IsList(h.headers, h.freeList, h.free) && IsList(h.headers, released, freed) && Distinct(h.free + freed)
    modifies h`headers, h`freeList, h`free
    ensures OnlyLinksDiffer(hs, h.headers, free0) && Swallowed(h.blocks, free0, h.free, i, j + 1)
    ensures IsList(h.headers, h.freeList, h.free) && IsList(h.headers, released, freed) && Distinct(h.free + freed)
    ensures n in old(h.headers) && n in h.headers && h.headers[n].size == old(h.headers)[n].size
    ensures Thinned(h.free, old(h.free))
  {
    ghost var m := SwallowedIndex(h.blocks, free0, h.free, freed, black, i, j, h.start, h.end);
    assert NodeAt(h.headers, h.free, m);
    ghost var before, free := h.headers, h.free;
    assert forall x, y :: 0 <= x < y < |free| ==> (free + freed)[x] == free[x] && (free + freed)[y] == free[y];
    Apart(h.blocks, h.start, h.end, j);
    h.Unlink(h.headers[n].previousFree, h.headers[n].forward.free, h.freeList, free, m);
    h.free := free[..m] + free[m + 1..];
    ThinnedOne(free, m);
    SwallowedOne(hs, before, h.headers, h.blocks, free0, free, released, freed, m, i, j);
  }

  /** Walks over the white and free blocks from block i on, and takes the free ones off the free list. */
  method Swallow(h: Heap, first: int, released: int, ghost freed: seq<int>, ghost black: set<int>, ghost i: nat)
    returns (n: int, ghost j: nat)
    requires TwoLists(h.start, h.end, h.headers, h.freeList, h.blocks, h.free, released, freed)
    requires Arrived(h.blocks, freed, black, i) && Coloured(h.headers, h.blocks, black)
    requires first == h.blocks[i].End()
    modifies h`headers, h`freeList, h`free
    ensures i < j <= |h.blocks| && n == Boundary(h.blocks, j, h.end)
    ensures forall m :: i < m < j ==> !Referenced(h.blocks[m], black)
    ensures j < |h.blocks| ==> Referenced(h.blocks[j], black)
    ensures OnlyLinksDiffer(old(h.headers), h.headers, old(h.free))
    ensures IsList(h.headers, h.freeList, h.free) && IsList(h.headers, released, freed) && Distinct(h.free + freed)
    ensures Swallowed(h.blocks, old(h.free), h.free, i, j) && Thinned(h.free, old(h.free))
  {
    ghost var hs, bs := h.headers, h.blocks;
    DistinctParts(h.free, freed);
    ThinnedSame(h.free);
    n, j := first, i + 1;
    Apart(bs, h.start, h.end, i);
    assert j < |bs| ==> HeaderAt(hs, bs, j);
    while n < h.end && !(h.headers[n].kind.NonCollectible? || h.headers[n].black)
      invariant i < j <= |bs| && n == Boundary(bs, j, h.end)
      invariant j == |bs| <==> n >= h.end
      invariant forall m :: i < m < j ==> !Referenced(bs[m], black)
      invariant OnlyLinksDiffer(hs, h.headers, old(h.free))
      invariant IsList(h.headers, h.freeList, h.free) && IsList(h.headers, released, freed) && Distinct(h.free + freed)
      invariant Swallowed(bs, old(h.free), h.free, i, j) && Thinned(h.free, old(h.free))
      invariant n < h.end ==> n in h.headers
      decreases |bs| - j
    {
      assert HeaderAt(hs, bs, j) && ColourAt(hs, bs, black, j);
      Apart(bs, h.start, h.end, j);
      if h.headers[n].kind.Free? {
        ghost var free := h.free;
        SwallowFree(h, n, released, hs, old(h.free), freed, black, i, j);
        ThinnedTwice(h.free, free, old(h.free));
      } else {
        NotListed(bs, old(h.free) + freed, h.start, h.end, j);
      }
      n := n + h.headers[n].size;
      j := j + 1;
      assert j < |bs| ==> HeaderAt(hs, bs, j);
    }
    if j < |bs| {
      assert HeaderAt(hs, bs, j) && ColourAt(hs, bs, black, j);
    }
  }

  /** A free block that the run has reached is still on the free list. */
  lemma SwallowedIndex(bs: seq<Block>, free: seq<int>, free': seq<int>, freed: seq<int>, black: set<int>, i: nat, j: nat, start: int, end: int)
    returns (m: nat)
    requires Tiled(bs, start, end) && ListsFree(bs, free + freed) && Arrived(bs, freed, black, i)
    requires i < j < |bs| && bs[j].kind.Free? && Swallowed(bs, free, free', i, j)
    ensures m < |free'| && free'[m] == bs[j].addr
  {
    assert ListedAt(bs, free + freed, j);
    TiledOrdered(bs, start, end);
    assert bs[j].addr !in freed;
    m :| m < |free'| && free'[m] == bs[j].addr;
  }

  // ---------- joining the run ----------

  lemma RunColoured(hs: Headers, hs': Headers, bs: seq<Block>, black: set<int>, lo: nat, hi: nat)
    requires lo < hi <= |bs| && Coloured(hs, bs, black)
    requires forall m :: 0 <= m < |bs| && !(lo <= m < hi) && !bs[m].kind.Free? ==> UntouchedAt(hs, hs', bs, m)
    ensures Coloured(hs', Joined(bs, lo, hi), black)
  {
    var joined := Joined(bs, lo, hi);
    forall m | 0 <= m < |joined| ensures ColourAt(hs', joined, black, m) {
      if m != lo {
        var was := if m < lo then m else m - lo - 1 + hi;
        assert joined[m] == bs[was] && ColourAt(hs, bs, black, was);
        assert !bs[was].kind.Free? ==> UntouchedAt(hs, hs', bs, was);
      }
    }
  }

  /** Referenced blocks of the heap before the sweep are still there, untouched. */
  ghost predicate Kept(hs: Headers, bs: seq<Block>, hs': Headers, bs': seq<Block>, black: set<int>) {
    forall b :: b in bs && Referenced(b, black) ==> b in bs' && Untouched(hs, hs', b)
  }

  lemma KeptJoined(hs0: Headers, bs0: seq<Block>, hs: Headers, hs': Headers, bs: seq<Block>, black: set<int>, lo: nat, hi: nat)
    requires Kept(hs0, bs0, hs, bs, black) && lo < hi <= |bs|
    requires forall m :: lo <= m < hi ==> !Referenced(bs[m], black)
    requires forall m :: 0 <= m < |bs| && !(lo <= m < hi) && !bs[m].kind.Free? ==> UntouchedAt(hs, hs', bs, m)
    ensures Kept(hs0, bs0, hs', Joined(bs, lo, hi), black)
  {
    var joined := Joined(bs, lo, hi);
    forall b | b in bs0 && Referenced(b, black) ensures b in joined && Untouched(hs0, hs', b) {
      var m :| 0 <= m < |bs| && bs[m] == b;
      assert joined[if m < lo then m else m - hi + lo + 1] == b;
      assert UntouchedAt(hs, hs', bs, m);
    }
  }

  /** What every step of the sweep keeps, compared with the headers hs0 and blocks bs0 at its start. */
  ghost predicate Progress(start: int, end: int, hs: Headers, head: int, bs: seq<Block>, free: seq<int>,
                           released: int, last: int, freed: seq<int>, black: set<int>, hs0: Headers, bs0: seq<Block>) {
    && TwoLists(start, end, hs, head, bs, free, released, freed)
    && Coloured(hs, bs, black)
    && Swept(bs, black) == Swept(bs0, black)
    && Kept(hs0, bs0, hs, bs, black) && hs.Keys == hs0.Keys
    && (freed != [] ==> last == freed[|freed| - 1])
  }

  /** Block i is white, and the unreferenced blocks from there up to block j are off the free list. */
  ghost predicate RunFound(hs: Headers, mid: Headers, head: int, bs: seq<Block>, free: seq<int>, free': seq<int>,
                           released: int, freed: seq<int>, black: set<int>, i: nat, j: nat) {
    && i < j <= |bs| && White(bs[i], black)
    && (forall m :: i < m < j ==> !Referenced(bs[m], black))
    && (j < |bs| ==> Referenced(bs[j], black))
    && Arrived(bs, freed, black, i) && OnlyLinksDiffer(hs, mid, free)
    && IsList(mid, head, free') && IsList(mid, released, freed) && Distinct(free' + freed)
    && Swallowed(bs, free, free', i, j)
  }

  lemma RunProgress(start: int, end: int, hs: Headers, head0: int, mid: Headers, head: int, bs: seq<Block>,
                    free: seq<int>, free': seq<int>, released: int, last: int, freed: seq<int>,
                    released': int, last': int, freed': seq<int>, black: set<int>,
                    hs0: Headers, bs0: seq<Block>, lo: nat, hi: nat)
    requires Progress(start, end, hs, head0, bs, free, released, last, freed, black, hs0, bs0)
    requires JoinReady(hs, mid, bs, free + freed, lo, hi)
    requires IsList(mid, head, free') && IsList(mid, released', freed')
    requires JoinedMembers(bs, free + freed, free' + freed', lo, hi)
    requires forall m :: lo <= m < hi ==> !Referenced(bs[m], black)
    requires freed' != [] ==> last' == freed'[|freed'| - 1]
    ensures Progress(start, end, JoinWrites(mid, bs, lo, hi), head, Joined(bs, lo, hi), free',
                     released', last', freed', black, hs0, bs0)
  {
    JoinFinished(hs, mid, head, bs, free, freed, free', released', freed', lo, hi, start, end);
    RunColoured(hs, JoinWrites(mid, bs, lo, hi), bs, black, lo, hi);
    SweptJoined(bs, black, lo, hi, start, end);
    KeptJoined(hs0, bs0, hs, JoinWrites(mid, bs, lo, hi), bs, black, lo, hi);
  }

  // ---------- growing the free block left of the run ----------

  lemma GrowPreviousReady(hs: Headers, mid: Headers, head: int, bs: seq<Block>, free: seq<int>, free': seq<int>, released: int,
                          freed: seq<int>, black: set<int>, i: nat, j: nat, start: int, end: int)
    requires Tiled(bs, start, end) && NoAdjacentFree(bs) && Represents(hs, bs) && ListsFree(bs, free + freed)
    requires RunFound(hs, mid, head, bs, free, free', released, freed, black, i, j)
    requires i > 0 && bs[i - 1].kind.Free?
    ensures JoinReady(hs, mid, bs, free + freed, i - 1, j)
    ensures JoinedMembers(bs, free + freed, free' + freed, i - 1, j)
    ensures mid[bs[i - 1].addr].size == bs[i - 1].size && bs[i - 1].End() == bs[i].addr
    ensures bs[j - 1].End() == Boundary(bs, j, end) && (j < |bs| <==> bs[j - 1].End() < end)
    ensures j < |bs| ==> bs[j].addr != bs[i - 1].addr
  {
    assert HeaderAt(hs, bs, i - 1) && ListedAt(bs, free + freed, i - 1);
    Apart(bs, start, end, i - 1);
    Apart(bs, start, end, j - 1);
    NotListed(bs, free + freed, start, end, i);
    if i > 1 {
      assert !TouchingFree(bs, i - 2);
    }
    if j < |bs| {
      assert HeaderAt(hs, bs, j);
    }
    RunOffLists(bs, free, free', freed, i, j, start, end);
  }

  lemma RunOffLists(bs: seq<Block>, free: seq<int>, free': seq<int>, freed: seq<int>, i: nat, j: nat, start: int, end: int)
    requires Tiled(bs, start, end) && i < j <= |bs| && Swallowed(bs, free, free', i, j) && bs[i].addr !in free + freed
    requires forall a :: a in freed ==> a < bs[i].addr
    ensures forall m :: i - 1 < m < j ==> bs[m].addr !in free' + freed
  {
    forall m | i - 1 < m < j ensures bs[m].addr !in free' + freed {
      TiledOrdered(bs, start, end);
      assert bs[m].addr >= bs[i].addr;
    }
  }

  /** The run and the free block left of it become one block. */
  method GrowPrevious(h: Heap, previous: int, size: int, n: int, released: int, last: int,
                      ghost freed: seq<int>, ghost black: set<int>, ghost i: nat, ghost j: nat,
                      ghost hs: Headers, ghost head0: int, ghost free: seq<int>, ghost hs0: Headers, ghost bs0: seq<Block>)
    requires Progress(h.start, h.end, hs, head0, h.blocks, free, released, last, freed, black, hs0, bs0)
    requires RunFound(hs, h.headers, h.freeList, h.blocks, free, h.free, released, freed, black, i, j)
    requires i > 0 && h.blocks[i - 1].kind.Free? && previous == h.blocks[i - 1].addr
    requires n == Boundary(h.blocks, j, h.end) && size == n - h.blocks[i].addr
    modifies h`headers, h`blocks
    ensures h.blocks == Joined(old(h.blocks), i - 1, j)
    ensures Progress(h.start, h.end, h.headers, h.freeList, h.blocks, h.free, released, last, freed, black, hs0, bs0)
  {
    ghost var mid, bs := h.headers, h.blocks;
    GrowPreviousReady(hs, mid, h.freeList, bs, free, h.free, released, freed, black, i, j, h.start, h.end);
    RunProgress(h.start, h.end, hs, head0, mid, h.freeList, bs, free, h.free, released, last, freed,
                released, last, freed, black, hs0, bs0, i - 1, j);
    FinishJoin(h, previous, h.headers[previous].size + size, n, j);
    h.blocks := Joined(bs, i - 1, j);
  }

  // ---------- releasing the run as a block of its own ----------

  /** The writes that put block p at the front of the list of released blocks. */
  function ReleaseWrites(hs: Headers, p: int, previous: int, released: int): Headers
    requires p in hs && (released != NULL ==> released in hs)
  {
    var pushed := hs[p := hs[p].(forward := NextFree(released), previousFree := NULL, back := Previous(previous))];
    if released == NULL then pushed else SetPreviousFree(pushed, released, p)
  }

  lemma ReleasedLists(hs: Headers, head: int, free: seq<int>, released: int, freed: seq<int>, p: int, previous: int)
    requires IsList(hs, head, free) && IsList(hs, released, freed) && Distinct(free + freed)
    requires p in hs && p != NULL && p !in free && p !in freed && (released != NULL ==> released in hs)
    ensures IsList(ReleaseWrites(hs, p, previous, released), head, free)
    ensures IsList(ReleaseWrites(hs, p, previous, released), p, [p] + freed)
  {
    var hs', t := ReleaseWrites(hs, p, previous, released), [p] + freed;
    forall i | 0 <= i < |t| ensures NodeAt(hs', t, i) {
      if i > 0 {
        assert NodeAt(hs, freed, i - 1);
        assert (free + freed)[|free| + i - 1] == t[i];
        assert i > 1 ==> (free + freed)[|free|] == freed[0];
      } else if freed != [] {
        assert NodeAt(hs, freed, 0);
      }
    }
    forall i | 0 <= i < |free| ensures NodeAt(hs', free, i) {
      assert NodeAt(hs, free, i);
      assert (free + freed)[i] == free[i];
      assert freed != [] ==> (free + freed)[|free|] == freed[0];
    }
  }

  lemma InsertedDistinct(s: seq<int>, t: seq<int>, p: int)
    requires Distinct(s + t) && p !in s && p !in t
    ensures Distinct(s + ([p] + t))
  {
    var u, w := s + t, s + ([p] + t);
    forall i, j | 0 <= i < j < |w| ensures w[i] != w[j] {
      assert w[i] == if i < |s| then u[i] else if i == |s| then p else u[i - 1];
      assert w[j] == if j < |s| then u[j] else if j == |s| then p else u[j - 1];
      assert p !in u;
    }
  }

  lemma ReleaseRunReady(hs: Headers, mid: Headers, head: int, bs: seq<Block>, free: seq<int>, free': seq<int>, released: int,
                        freed: seq<int>, black: set<int>, i: nat, j: nat, start: int, end: int)
    requires 0 < start && Tiled(bs, start, end) && NoAdjacentFree(bs) && Represents(hs, bs) && ListsFree(bs, free + freed)
    requires RunFound(hs, mid, head, bs, free, free', released, freed, black, i, j)
    requires i > 0 ==> !bs[i - 1].kind.Free?
    ensures bs[i].addr in mid && bs[i].addr != NULL && bs[i].addr !in free' && bs[i].addr !in freed
    ensures released != NULL ==> released in freed && released in mid && released < bs[i].addr
    ensures bs[j - 1].End() == Boundary(bs, j, end) && (j < |bs| <==> bs[j - 1].End() < end)
    ensures j < |bs| ==> bs[i].addr < bs[j].addr && bs[j].addr in mid
  {
    assert HeaderAt(hs, bs, i);
    Apart(bs, start, end, i);
    Apart(bs, start, end, j - 1);
    NotListed(bs, free + freed, start, end, i);
    if j < |bs| {
      assert HeaderAt(hs, bs, j);
      TiledOrdered(bs, start, end);
    }
    if released != NULL {
      assert NodeAt(mid, freed, 0) && freed[0] in freed;
    }
  }

  lemma ReleaseJoinReady(hs: Headers, mid: Headers, bs: seq<Block>, free: seq<int>, released: int,
                         freed: seq<int>, i: nat, j: nat)
    requires Represents(hs, bs) && ListsFree(bs, free + freed) && OnlyLinksDiffer(hs, mid, free)
    requires i < j <= |bs| && (i > 0 ==> !bs[i - 1].kind.Free?) && (j < |bs| ==> !bs[j].kind.Free? && bs[j].addr in mid)
    requires bs[i].addr in mid && (released != NULL ==> released in freed && released in mid && released != bs[i].addr)
    ensures JoinReady(hs, ReleaseWrites(mid, bs[i].addr, Left(bs, i), released), bs, free + freed, i, j)
  {
    assert released in freed ==> released in free + freed;
    assert forall a :: a in free ==> a in free + freed;
  }

  lemma ReleasedMembers(bs: seq<Block>, free: seq<int>, free': seq<int>, freed: seq<int>, black: set<int>,
                        i: nat, j: nat, start: int, end: int)
    requires Tiled(bs, start, end) && ListsFree(bs, free + freed) && i < j <= |bs| && Arrived(bs, freed, black, i)
    requires Swallowed(bs, free, free', i, j) && Distinct(free' + freed) && !bs[i].kind.Free?
    ensures JoinedMembers(bs, free + freed, free' + ([bs[i].addr] + freed), i, j)
  {
    NotListed(bs, free + freed, start, end, i);
    InsertedDistinct(free', freed, bs[i].addr);
    TiledOrdered(bs, start, end);
  }

  /** The run becomes a block of its own, at the front of the list of released blocks. */
  method ReleaseRun(h: Heap, p: int, previous: int, n: int, released: int, last: int,
                    ghost freed: seq<int>, ghost black: set<int>, ghost i: nat, ghost j: nat,
                    ghost hs: Headers, ghost head0: int, ghost free: seq<int>, ghost hs0: Headers, ghost bs0: seq<Block>)
    returns (last': int)
    requires Progress(h.start, h.end, hs, head0, h.blocks, free, released, last, freed, black, hs0, bs0)
    requires RunFound(hs, h.headers, h.freeList, h.blocks, free, h.free, released, freed, black, i, j)
    requires (i > 0 ==> !h.blocks[i - 1].kind.Free?) && previous == Left(h.blocks, i)
    requires p == h.blocks[i].addr && n == Boundary(h.blocks, j, h.end)
    modifies h`headers, h`blocks
    ensures h.blocks == Joined(old(h.blocks), i, j)
    ensures Progress(h.start, h.end, h.headers, h.freeList, h.blocks, h.free, p, last', [p] + freed, black, hs0, bs0)
  {
    ghost var mid, bs := h.headers, h.blocks;
    assert freed != [] ==> NodeAt(mid, freed, 0);
    last' := if released != NULL then last else p;
    ReleaseRunReady(hs, mid, h.freeList, bs, free, h.free, released, freed, black, i, j, h.start, h.end);
    ReleaseJoinReady(hs, mid, bs, free, released, freed, i, j);
    ReleasedMembers(bs, free, h.free, freed, black, i, j, h.start, h.end);
    ReleasedLists(mid, h.freeList, h.free, released, freed, p, previous);
    ghost var mid' := ReleaseWrites(mid, p, previous, released);
    RunProgress(h.start, h.end, hs, head0, mid', h.freeList, bs, free, h.free, released, last, freed,
                p, last', [p] + freed, black, hs0, bs0, i, j);
    ReleaseBlock(h, p, previous, n, released, i, j);
    h.blocks := Joined(bs, i, j);
  }

  /** The writes for a block of its own: its size and right neighbour, and its place on the list. */
  method ReleaseBlock(h: Heap, p: int, previous: int, n: int, released: int, ghost i: nat, ghost j: nat)
    requires i < j <= |h.blocks| && p == h.blocks[i].addr && p in h.headers && (released != NULL ==> released in h.headers && released < p)
    requires j < |h.blocks| ==> p < h.blocks[j].addr && h.blocks[j].addr in h.headers
    requires n == Boundary(h.blocks, j, h.end) == h.blocks[j - 1].End() && (j < |h.blocks| <==> n < h.end)
    modifies h`headers
    ensures h.headers == JoinWrites(ReleaseWrites(old(h.headers), p, previous, released), h.blocks, i, j)
  {
    ghost var mid := h.headers;
    FinishJoin(h, p, n - p, n, j);
    assert h.headers == JoinWrites(mid, h.blocks, i, j);
    PushReleased(h, p, previous, released, mid, i, j);
  }

  /** Adds the block to the list of released blocks. */
  method PushReleased(h: Heap, p: int, previous: int, released: int, ghost mid: Headers, ghost i: nat, ghost j: nat)
    requires i < j <= |h.blocks| && p == h.blocks[i].addr && p in mid && (released != NULL ==> released in mid && released < p)
    requires j < |h.blocks| ==> p < h.blocks[j].addr && h.blocks[j].addr in mid
    requires h.headers == JoinWrites(mid, h.blocks, i, j)
    modifies h`headers
    ensures h.headers == JoinWrites(ReleaseWrites(mid, p, previous, released), h.blocks, i, j)
  {
    h.headers := SetNextFree(h.headers, p, released);
    h.headers := SetPrevious(h.headers, p, previous);
    h.headers := SetPreviousFree(h.headers, p, NULL);
    if released != NULL {
      h.headers := SetPreviousFree(h.headers, released, p);
    }
  }

  // ---------- the walk ----------

  /** One maximal run has become one free block, block lo; the block after it, if any, is referenced. */
  ghost predicate RunDone(bs: seq<Block>, freed: seq<int>, black: set<int>, lo: nat, n: int, end: int) {
    && lo < |bs| && bs[lo].kind.Free? && n == Boundary(bs, lo + 1, end)
    && (lo + 1 < |bs| ==> Referenced(bs[lo + 1], black))
    && (forall m :: 0 <= m < lo ==> !White(bs[m], black))
    && (forall a :: a in freed ==> a <= bs[lo].addr)
  }

  lemma JoinedRunDone(bs: seq<Block>, freed: seq<int>, freed': seq<int>, black: set<int>, i: nat, lo: nat, j: nat, start: int, end: int)
    requires Tiled(bs, start, end) && lo <= i < j <= |bs| && i <= lo + 1 && Arrived(bs, freed, black, i)
    requires j < |bs| ==> Referenced(bs[j], black)
    requires freed' == if lo == i then [bs[i].addr] + freed else freed
    requires lo < i ==> forall a :: a in freed ==> a <= bs[lo].addr
    ensures RunDone(Joined(bs, lo, j), freed', black, lo, Boundary(bs, j, end), end)
  {
    var joined := Joined(bs, lo, j);
    assert forall m :: 0 <= m < lo ==> joined[m] == bs[m];
    assert j < |bs| ==> joined[lo + 1] == bs[j];
  }

  /** A released block left of block i starts no later than block i - 1. */
  lemma FreedBound(bs: seq<Block>, free: seq<int>, freed: seq<int>, black: set<int>, i: nat, start: int, end: int)
    requires Tiled(bs, start, end) && ListsFree(bs, free + freed) && Arrived(bs, freed, black, i) && i > 0
    ensures forall a :: a in freed ==> a <= bs[i - 1].addr
  {
    forall a | a in freed ensures a <= bs[i - 1].addr {
      assert a in free + freed && IsFreeBlock(bs, a);
      var m :| 0 <= m < |bs| && bs[m].addr == a && bs[m].kind.Free?;
      TiledOrdered(bs, start, end);
    }
  }

  /** Frees the run of unreferenced blocks that starts with the white block i. */
  method SweepRun(h: Heap, p: int, previous: int, released: int, last: int, ghost freed: seq<int>, ghost black: set<int>,
                  ghost i: nat, ghost hs0: Headers, ghost bs0: seq<Block>, ghost free0: seq<int>)
    returns (n: int, released': int, last': int, ghost freed': seq<int>, ghost lo: nat)
    requires Progress(h.start, h.end, h.headers, h.freeList, h.blocks, h.free, released, last, freed, black, hs0, bs0)
    requires Arrived(h.blocks, freed, black, i) && White(h.blocks[i], black)
    requires p == h.blocks[i].addr && previous == Left(h.blocks, i) && Thinned(h.free, free0)
    modifies h`headers, h`freeList, h`free, h`blocks
    ensures Progress(h.start, h.end, h.headers, h.freeList, h.blocks, h.free, released', last', freed', black, hs0, bs0)
    ensures RunDone(h.blocks, freed', black, lo, n, h.end) && Thinned(h.free, free0)
    ensures Descending(freed) ==> Descending(freed')
    ensures |h.blocks| - lo <= |old(h.blocks)| - i
  {
    ghost var hs, head0, bs, free := h.headers, h.freeList, h.blocks, h.free;
    assert HeaderAt(hs, bs, i);
    assert i > 0 ==> HeaderAt(hs, bs, i - 1);
    Apart(bs, h.start, h.end, i);
    if i > 0 {
      Apart(bs, h.start, h.end, i - 1);
      FreedBound(bs, free, freed, black, i, h.start, h.end);
    }
    var previousIsFree := previous != NULL && h.headers[previous].kind.Free?;
    ghost var j: nat;
    n, j := Swallow(h, p + h.headers[p].size, released, freed, black, i);
    ThinnedTwice(h.free, free, free0);
    released', last', freed' := released, last, freed;
    if previousIsFree {
      lo := i - 1;
      JoinedRunDone(bs, freed, freed, black, i, lo, j, h.start, h.end);
      GrowPrevious(h, previous, n - p, n, released, last, freed, black, i, j, hs, head0, free, hs0, bs0);
    } else {
      lo := i;
      freed' := [p] + freed;
      assert forall m :: 0 <= m < |freed| ==> freed[m] in freed;
      JoinedRunDone(bs, freed, freed', black, i, lo, j, h.start, h.end);
      last' := ReleaseRun(h, p, previous, n, released, last, freed, black, i, j, hs, head0, free, hs0, bs0);
      released' := p;
    }
  }

  /** Frees every white block, and returns the list of blocks that were not free before. */
  method Sweep(h: Heap, ghost black: set<int>) returns (released: int, last: int, ghost freed: seq<int>)
    requires h.Valid() && Coloured(h.headers, h.blocks, black)
    modifies h
    ensures TwoLists(h.start, h.end, h.headers, h.freeList, h.blocks, h.free, released, freed)
    ensures (freed != [] ==> last == freed[|freed| - 1]) && Thinned(h.free, old(h.free)) && Descending(freed)
    ensures h.blocks == Swept(old(h.blocks), black)
    ensures Kept(old(h.headers), old(h.blocks), h.headers, h.blocks, black) && h.headers.Keys == old(h.headers).Keys
  {
    ghost var hs0, bs0, free0 := h.headers, h.blocks, h.free;
    released, freed, last := NULL, [], NULL;
    var p, previous := h.start, NULL;
    ghost var i: nat := 0;
    StartSweep(h, black);
    ThinnedSame(free0);
    while true
      invariant Progress(h.start, h.end, h.headers, h.freeList, h.blocks, h.free, released, last, freed, black, hs0, bs0)
      invariant Arrived(h.blocks, freed, black, i) && Thinned(h.free, free0) && Descending(freed)
      invariant p == h.blocks[i].addr && previous == Left(h.blocks, i)
      decreases |h.blocks| - i
    {
      AtBlock(h, released, last, freed, black, hs0, bs0, i);
      var header := h.headers[p];
      if header.kind.NonCollectible? || (header.kind.Collectible() && header.black) || (header.kind.Free? && !header.black) {
        previous := p;
        p := p + header.size;
        if p >= h.end {
          break;
        }
        i := i + 1;
      } else {
        var n: int;
        ghost var lo: nat;
        n, released, last, freed, lo := SweepRun(h, p, previous, released, last, freed, black, i, hs0, bs0, free0);
        NextAfterRun(h, released, last, freed, black, hs0, bs0, lo, n);
        if n >= h.end {
          break;
        }
        p := n + h.headers[n].size;
        if p >= h.end {
          break;
        }
        previous := n;
        i := lo + 2;
      }
    }
    SweptFixpoint(h.blocks, black);
  }

  /** What the walk reads in the header of block i, and where the next block is. */
  lemma AtBlock(h: Heap, released: int, last: int, freed: seq<int>, black: set<int>, hs0: Headers, bs0: seq<Block>, i: nat)
    requires Progress(h.start, h.end, h.headers, h.freeList, h.blocks, h.free, released, last, freed, black, hs0, bs0)
    requires Arrived(h.blocks, freed, black, i)
    ensures var b, p := h.blocks[i], h.blocks[i].addr;
            && p in h.headers && h.headers[p].size == b.size && h.headers[p].kind == b.kind
            && (b.kind.Collectible() ==> (h.headers[p].black <==> !White(b, black))) && (b.kind.Free? ==> !h.headers[p].black)
            && p + b.size == Boundary(h.blocks, i + 1, h.end) && (p + b.size < h.end <==> i + 1 < |h.blocks|)
            && (!White(b, black) && i + 1 < |h.blocks| ==> Arrived(h.blocks, freed, black, i + 1))
            && (!White(b, black) && i + 1 >= |h.blocks| ==> forall c :: c in h.blocks ==> !White(c, black))
  {
    assert HeaderAt(h.headers, h.blocks, i) && ColourAt(h.headers, h.blocks, black, i);
    Apart(h.blocks, h.start, h.end, i);
  }

  lemma StartSweep(h: Heap, black: set<int>)
    requires h.Valid() && Coloured(h.headers, h.blocks, black)
    ensures Progress(h.start, h.end, h.headers, h.freeList, h.blocks, h.free, NULL, NULL, [], black, h.headers, h.blocks)
    ensures h.blocks != [] && h.blocks[0].addr == h.start
  {
    assert h.free + [] == h.free;
    forall b | b in h.blocks ensures Untouched(h.headers, h.headers, b) {
      var i :| 0 <= i < |h.blocks| && h.blocks[i] == b;
      assert HeaderAt(h.headers, h.blocks, i);
    }
  }

  lemma NextAfterRun(h: Heap, released: int, last: int, freed: seq<int>, black: set<int>, hs0: Headers, bs0: seq<Block>, lo: nat, n: int)
    requires Progress(h.start, h.end, h.headers, h.freeList, h.blocks, h.free, released, last, freed, black, hs0, bs0)
    requires RunDone(h.blocks, freed, black, lo, n, h.end)
    ensures n < h.end <==> lo + 1 < |h.blocks|
    ensures n < h.end ==> n == h.blocks[lo + 1].addr && n in h.headers
    ensures n < h.end ==> n + h.headers[n].size == Boundary(h.blocks, lo + 2, h.end)
    ensures n < h.end ==> (n + h.headers[n].size < h.end <==> lo + 2 < |h.blocks|)
    ensures lo + 2 < |h.blocks| ==> Arrived(h.blocks, freed, black, lo + 2)
    ensures lo + 2 >= |h.blocks| ==> forall b :: b in h.blocks ==> !White(b, black)
  {
    Apart(h.blocks, h.start, h.end, lo);
    if lo + 1 < |h.blocks| {
      Apart(h.blocks, h.start, h.end, lo + 1);
      assert HeaderAt(h.headers, h.blocks, lo + 1);
    }
  }
}
