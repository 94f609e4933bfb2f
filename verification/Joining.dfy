/** What joining a run of blocks into one free block does to the headers. Both memoryFree and the
    sweep end in such a join. */
module Joining {
  import opened Basics
  import opened HeapBlocks
  import opened Heap

  /** A header whose left neighbour now starts at q: only a non-collectible block records that. */
  function MovedNeighbour(h: Header, q: int): Header {
    if h.kind.NonCollectible? then h.(back := Previous(q)) else h
  }

  /** The last two writes of a join that ends before block hi: block hi learns where its left neighbour
      starts, and the joined block at q takes its size. */
  function JoinWritesAt(hs: Headers, bs: seq<Block>, hi: nat, q: int, size: int): Headers
    requires hi <= |bs| && q in hs && (hi < |bs| ==> bs[hi].addr in hs)
    ensures JoinWritesAt(hs, bs, hi, q, size).Keys == hs.Keys
  {
    var moved := if hi < |bs| then hs[bs[hi].addr := MovedNeighbour(hs[bs[hi].addr], q)] else hs;
    SetSizeAndSetFree(moved, q, size)
  }

  /** The same for a join of blocks lo up to hi, not including hi. */
  function JoinWrites(hs: Headers, bs: seq<Block>, lo: nat, hi: nat): Headers
    requires lo < hi <= |bs| && bs[lo].addr in hs && (hi < |bs| ==> bs[hi].addr in hs)
  {
    JoinWritesAt(hs, bs, hi, bs[lo].addr, bs[hi - 1].End() - bs[lo].addr)
  }

  /** The writes that end a join: they are the same wherever the code joins blocks. */
  method FinishJoin(h: Heap, p: int, size: int, neighbour: int, ghost hi: nat)
    requires hi <= |h.blocks| && neighbour == Boundary(h.blocks, hi, h.end) && (hi < |h.blocks| <==> neighbour < h.end)
    requires p in h.headers && (hi < |h.blocks| ==> neighbour in h.headers)
    modifies h`headers
    ensures h.headers == JoinWritesAt(old(h.headers), h.blocks, hi, p, size)
  {
    // only a permanent neighbour records where the block on its left begins
    if neighbour < h.end && h.headers[neighbour].kind.NonCollectible? {
      h.headers := SetPrevious(h.headers, neighbour, p);
    }
    h.headers := SetSizeAndSetFree(h.headers, p, size);
  }

  /** Only list links inside the members of s, and the header of p, may differ between hs and mid. */
  ghost predicate OnlyLinksDifferBut(hs: Headers, mid: Headers, s: seq<int>, p: int) {
    && mid.Keys == hs.Keys
    && (forall a :: a in hs && a !in s && a != p ==> mid[a] == hs[a])
    && (forall a :: a in hs && a in s && a != p ==>
         mid[a] == hs[a].(forward := mid[a].forward, previousFree := mid[a].previousFree))
  }

  /** Everything a join starts from: the list writes are done, and touched no block outside the free
      list except the front block of the run. */
  ghost predicate JoinReady(hs: Headers, mid: Headers, bs: seq<Block>, s: seq<int>, lo: nat, hi: nat) {
    && lo < hi <= |bs| && Represents(hs, bs) && ListsFree(bs, s)
    && OnlyLinksDifferBut(hs, mid, s, bs[lo].addr)
    && bs[lo].addr in mid && mid[bs[lo].addr].back == Previous(Left(bs, lo))
    && (lo > 0 ==> !bs[lo - 1].kind.Free?) && (hi < |bs| ==> !bs[hi].kind.Free? && bs[hi].addr in mid)
  }

  lemma JoinedHeaderAt(hs: Headers, mid: Headers, bs: seq<Block>, s: seq<int>,
                       lo: nat, hi: nat, start: int, end: int, i: nat)
    requires Tiled(bs, start, end) && JoinReady(hs, mid, bs, s, lo, hi)
    requires i < |bs| && !(lo <= i < hi)
    ensures HeaderAt(JoinWrites(mid, bs, lo, hi), Joined(bs, lo, hi), if i < lo then i else i - hi + lo + 1)
  {
    assert HeaderAt(hs, bs, i);
    Apart(bs, start, end, i);
    Apart(bs, start, end, lo);
    var joined := Joined(bs, lo, hi);
    assert i >= hi ==> joined[i - hi + lo + 1] == bs[i];
    assert i + 1 < |bs| ==> joined[if i < lo then i + 1 else i - hi + lo + 2].addr == bs[i + 1].addr;
    assert i > hi ==> joined[i - hi + lo] == bs[i - 1];
    if !bs[i].kind.Free? {
      NotListed(bs, s, start, end, i);
    }
  }

  lemma JoinedUntouchedAt(hs: Headers, mid: Headers, bs: seq<Block>, s: seq<int>,
                          lo: nat, hi: nat, start: int, end: int, i: nat)
    requires Tiled(bs, start, end) && JoinReady(hs, mid, bs, s, lo, hi)
    requires i < |bs| && !(lo <= i < hi) && !bs[i].kind.Free?
    ensures UntouchedAt(hs, JoinWrites(mid, bs, lo, hi), bs, i)
  {
    assert HeaderAt(hs, bs, i);
    Apart(bs, start, end, i);
    Apart(bs, start, end, lo);
    NotListed(bs, s, start, end, i);
  }

  lemma JoinedRepresents(hs: Headers, mid: Headers, bs: seq<Block>, s: seq<int>,
                         lo: nat, hi: nat, start: int, end: int)
    requires Tiled(bs, start, end) && end < start + SIZE_LIMIT && JoinReady(hs, mid, bs, s, lo, hi)
    ensures Represents(JoinWrites(mid, bs, lo, hi), Joined(bs, lo, hi))
    ensures forall i :: 0 <= i < |bs| && !(lo <= i < hi) && !bs[i].kind.Free? ==> UntouchedAt(hs, JoinWrites(mid, bs, lo, hi), bs, i)
  {
    var joined := Joined(bs, lo, hi);
    Apart(bs, start, end, lo);
    TiledBounds(bs, start, end, hi - 1);
    TiledOrdered(bs, start, end);
    forall i | 0 <= i < |joined| ensures HeaderAt(JoinWrites(mid, bs, lo, hi), joined, i) {
      if i != lo {
        JoinedHeaderAt(hs, mid, bs, s, lo, hi, start, end, if i < lo then i else i - lo - 1 + hi);
      }
    }
    forall i | 0 <= i < |bs| && !(lo <= i < hi) && !bs[i].kind.Free?
      ensures UntouchedAt(hs, JoinWrites(mid, bs, lo, hi), bs, i)
    {
      JoinedUntouchedAt(hs, mid, bs, s, lo, hi, start, end, i);
    }
  }

  /** The members of the free list after the join: the free blocks outside the run, and the joined block. */
  ghost predicate JoinedMembers(bs: seq<Block>, s: seq<int>, s': seq<int>, lo: nat, hi: nat)
    requires lo < hi <= |bs|
  {
    && Distinct(s') && bs[lo].addr in s'
    && (forall a :: a in s' ==> a == bs[lo].addr || a in s)
    && (forall i :: lo < i < hi ==> bs[i].addr !in s')
    && (forall i :: 0 <= i < |bs| && !(lo <= i < hi) && bs[i].addr in s ==> bs[i].addr in s')
  }

  lemma JoinedListsFree(bs: seq<Block>, s: seq<int>, s': seq<int>, lo: nat, hi: nat)
    requires lo < hi <= |bs| && ListsFree(bs, s) && JoinedMembers(bs, s, s', lo, hi)
    ensures ListsFree(Joined(bs, lo, hi), s')
  {
    var joined := Joined(bs, lo, hi);
    forall a | a in s' ensures IsFreeBlock(joined, a) {
      if a == bs[lo].addr {
        assert joined[lo].addr == a;
      } else {
        var i :| 0 <= i < |bs| && bs[i].addr == a && bs[i].kind.Free?;
        assert joined[if i < lo then i else i - hi + lo + 1] == bs[i];
      }
    }
    forall i | 0 <= i < |joined| ensures ListedAt(joined, s', i) {
      if i != lo {
        assert ListedAt(bs, s, if i < lo then i else i - lo - 1 + hi);
      }
    }
  }

  lemma JoinedList(hs: Headers, mid: Headers, head: int, bs: seq<Block>, s: seq<int>, s': seq<int>,
                   lo: nat, hi: nat)
    requires JoinReady(hs, mid, bs, s, lo, hi) && IsList(mid, head, s')
    ensures IsList(JoinWrites(mid, bs, lo, hi), head, s')
  {
    forall a | a in s' ensures a in mid {
      var i :| 0 <= i < |s'| && s'[i] == a;
      assert NodeAt(mid, s', i);
    }
    SameList(mid, JoinWrites(mid, bs, lo, hi), head, s');
  }

  /** The heap after the join is well formed, and no allocated block outside the run was touched. */
  lemma JoinFinished(hs: Headers, mid: Headers, head: int, bs: seq<Block>, free: seq<int>, freed: seq<int>,
                    free': seq<int>, released': int, freed': seq<int>, lo: nat, hi: nat, start: int, end: int)
    requires 0 < start < end < start + SIZE_LIMIT && Tiled(bs, start, end) && NoAdjacentFree(bs)
    requires JoinReady(hs, mid, bs, free + freed, lo, hi)
    requires IsList(mid, head, free') && IsList(mid, released', freed')
    requires JoinedMembers(bs, free + freed, free' + freed', lo, hi)
    ensures TwoLists(start, end, JoinWrites(mid, bs, lo, hi), head, Joined(bs, lo, hi), free', released', freed')
    ensures forall m :: 0 <= m < |bs| && !(lo <= m < hi) && !bs[m].kind.Free? ==> UntouchedAt(hs, JoinWrites(mid, bs, lo, hi), bs, m)
  {
    JoinedTiled(bs, lo, hi, start, end);
    JoinedNoAdjacentFree(bs, lo, hi);
    JoinedRepresents(hs, mid, bs, free + freed, lo, hi, start, end);
    JoinedListsFree(bs, free + freed, free' + freed', lo, hi);
    JoinedList(hs, mid, head, bs, free + freed, free', lo, hi);
    JoinedList(hs, mid, released', bs, free + freed, freed', lo, hi);
  }
}
