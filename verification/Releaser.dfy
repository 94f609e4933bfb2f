/** Release with boundary tags (memoryFree, lib/src/memory/memoryAlloc.c). The words that lead to the two
    neighbours are read before the heap monitor is entered, and used inside: what the join does with a word
    that is out of date is part of the model. */
module Releaser {
  import opened Basics
  import opened HeapBlocks
  import opened Heap
  import opened Joining
  import opened Allocator

  // ---------- what the locked part writes ----------

  /** The word that was read leads to a header that says free. */
  predicate LeadsToFree(hs: Headers, previous: int) {
    previous != NULL && previous in hs && hs[previous].kind.Free?
  }

  /** Every member of the two lists, each once. */
  function All(l: Lists): seq<int> {
    l.free + l.freed
  }

  /** The heap is one in which block k can be freed. */
  ghost predicate Lockable(hs: Headers, bs: seq<Block>, l: Lists, k: nat) {
    && k < |bs| && bs[k].addr in hs && Known(hs, l.free) && Known(hs, l.freed)
    && (RightFree(bs, k) ==> bs[k + 1].addr in l.free || bs[k + 1].addr in l.freed)
    && (RunEnd(bs, k) < |bs| ==> bs[RunEnd(bs, k)].addr in hs)
  }

  lemma LockableHeap(hs: Headers, bs: seq<Block>, l: Lists, k: nat)
    requires Represents(hs, bs) && IsList(hs, l.head, l.free) && IsList(hs, l.released, l.freed) && ListsFree(bs, All(l))
    requires k < |bs|
    ensures Lockable(hs, bs, l, k)
  {
    ListKnown(hs, l.head, l.free);
    ListKnown(hs, l.released, l.freed);
    assert HeaderAt(hs, bs, k);
    assert RightFree(bs, k) ==> ListedAt(bs, All(l), k + 1);
    assert RunEnd(bs, k) < |bs| ==> HeaderAt(hs, bs, RunEnd(bs, k));
  }

  /** The list that the free right neighbour is on. */
  ghost function ListOf(l: Lists, next: int): seq<int> {
    if next in l.free then l.free else l.freed
  }

  /** The writes to the lists. A free right neighbour leaves its list, or is replaced by the block; a block
      with no neighbour to join is pushed in front of the free list. */
  ghost function LockedLinks(hs: Headers, bs: seq<Block>, l: Lists, k: nat, previous: int): Headers
    requires Lockable(hs, bs, l, k)
    ensures LockedLinks(hs, bs, l, k, previous).Keys == hs.Keys
  {
    if RightFree(bs, k) then
      var t := ListOf(l, bs[k + 1].addr);
      var j := PlaceOf(t, bs[k + 1].addr);
      if LeadsToFree(hs, previous) then UnlinkedHeaders(hs, t, j) else ReplacedHeaders(hs, t, j, bs[k].addr)
    else if LeadsToFree(hs, previous) then hs
    else PushedHeaders(hs, l.free, bs[k].addr)
  }

  /** The lists after them. The code takes a block without a list member before it for the head of the free
      list, whichever list it is on. */
  ghost function LockedLists(hs: Headers, bs: seq<Block>, l: Lists, k: nat, previous: int): Lists
    requires Lockable(hs, bs, l, k)
  {
    var p, left := bs[k].addr, LeadsToFree(hs, previous);
    if RightFree(bs, k) then
      var t := ListOf(l, bs[k + 1].addr);
      var j := PlaceOf(t, bs[k + 1].addr);
      var t' := if left then t[..j] + t[j + 1..] else t[j := p];
      var head := if j > 0 then l.head else if left then Successor(t, 0) else p;
      if bs[k + 1].addr in l.free then l.(head := head, free := t') else l.(head := head, freed := t')
    else if left then l
    else l.(head := p, free := [p] + l.free)
  }

  /** All the writes of the locked part, when previous was read as the left neighbour of block k: the
      block is added to the one that previous leads to if that one says free. */
  ghost function LockedHeaders(hs: Headers, bs: seq<Block>, l: Lists, k: nat, previous: int): Headers
    requires Lockable(hs, bs, l, k)
  {
    var hi, left := RunEnd(bs, k), LeadsToFree(hs, previous);
    JoinWritesAt(LockedLinks(hs, bs, l, k, previous), bs, hi, if left then previous else bs[k].addr,
                 (if left then hs[previous].size else 0) + bs[hi - 1].End() - bs[k].addr)
  }

  // ---------- when it is right ----------

  /** The word is still right, or makes no difference because neither the block it leads to nor the left
      neighbour is free. */
  predicate WordSafe(hs: Headers, bs: seq<Block>, k: nat, previous: int)
    requires k < |bs|
  {
    previous == Left(bs, k) || (!LeadsToFree(hs, previous) && !LeftFree(bs, k))
  }

  /** The right neighbour is neither the first nor the last of the blocks that a collection has released
      and not yet spliced into the free list. */
  predicate NeighbourSafe(bs: seq<Block>, l: Lists, k: nat)
    requires k < |bs|
  {
    RightFree(bs, k) ==> bs[k + 1].addr != l.released && (l.freed != [] ==> bs[k + 1].addr != l.last)
  }

  /** Every allocated block except block k is untouched. */
  ghost predicate OthersUntouched(hs: Headers, hs': Headers, bs: seq<Block>, k: nat) {
    forall i :: 0 <= i < |bs| && i != k && !bs[i].kind.Free? ==> UntouchedAt(hs, hs', bs, i)
  }

  /** The heap after the locked part is well formed, with block k free and joined with its free neighbours. */
  ghost predicate LockedWell(start: int, end: int, hs: Headers, bs: seq<Block>, l: Lists, k: nat, previous: int)
    requires Lockable(hs, bs, l, k)
  {
    InOrder(start, end, LockedHeaders(hs, bs, l, k, previous), Released(bs, k), LockedLists(hs, bs, l, k, previous))
  }

  ghost predicate OneOut(s: seq<int>, s': seq<int>, a: int) {
    exists j :: 0 <= j < |s| && s[j] == a && s' == s[..j] + s[j + 1..]
  }

  ghost predicate OneReplaced(s: seq<int>, s': seq<int>, a: int, p: int) {
    exists j :: 0 <= j < |s| && s[j] == a && s' == s[j := p]
  }

  /** What the locked part does to the order of the lists: a free right neighbour is taken out of its list
      or replaced there, a block with no neighbour to join goes to the front, and nothing else moves. */
  ghost predicate ListsAfter(hs: Headers, bs: seq<Block>, l: Lists, k: nat, previous: int, l': Lists)
    requires k < |bs|
  {
    var p, left := bs[k].addr, LeadsToFree(hs, previous);
    && l'.released == l.released && l'.last == l.last
    && if RightFree(bs, k) then
         var next := bs[k + 1].addr;
         if next in l.free then l'.freed == l.freed && if left then OneOut(l.free, l'.free, next) else OneReplaced(l.free, l'.free, next, p)
         else l'.free == l.free && if left then OneOut(l.freed, l'.freed, next) else OneReplaced(l.freed, l'.freed, next, p)
       else l'.freed == l.freed && l'.free == if left then l.free else [p] + l.free
  }

  lemma LockedOrder(hs: Headers, bs: seq<Block>, l: Lists, k: nat, previous: int)
    requires Lockable(hs, bs, l, k)
    ensures ListsAfter(hs, bs, l, k, previous, LockedLists(hs, bs, l, k, previous))
  {
    if RightFree(bs, k) {
      var t := ListOf(l, bs[k + 1].addr);
      var j := PlaceOf(t, bs[k + 1].addr);
      assert t[j] == bs[k + 1].addr;
    }
  }

  /** What a word that is out of date does: the block it leads to grows, whatever it is, and the right
      neighbour is told that it begins there. */
  lemma StaleWrites(hs: Headers, bs: seq<Block>, l: Lists, k: nat, previous: int)
    requires Lockable(hs, bs, l, k) && LeadsToFree(hs, previous)
    ensures var hs', hi := LockedHeaders(hs, bs, l, k, previous), RunEnd(bs, k);
            && previous in hs' && hs'[previous].kind.Free? && hs'[previous].size == (hs[previous].size + bs[hi - 1].End() - bs[k].addr) % SIZE_LIMIT
            && (hi < |bs| && bs[hi].addr != previous && hs[bs[hi].addr].kind.NonCollectible? ==> hs'[bs[hi].addr].back == Previous(previous))
  {
    LinksKeep(hs, bs, l, k, previous, previous);
    if RunEnd(bs, k) < |bs| {
      LinksKeep(hs, bs, l, k, previous, bs[RunEnd(bs, k)].addr);
    }
  }

  // ---------- the lists ----------

  /** Both lists are right in the headers mid, with the collecting thread's pointers at the ends of its list. */
  ghost predicate TwoApart(mid: Headers, l: Lists) {
    && IsList(mid, l.head, l.free) && IsList(mid, l.released, l.freed) && Distinct(All(l))
    && (l.freed != [] ==> l.last == l.freed[|l.freed| - 1])
  }

  /** After the list writes both lists are right, and nothing but list members and block k has changed. */
  ghost predicate ListsDone(hs: Headers, bs: seq<Block>, l: Lists, k: nat, previous: int)
    requires Lockable(hs, bs, l, k)
  {
    && TwoApart(LockedLinks(hs, bs, l, k, previous), LockedLists(hs, bs, l, k, previous))
    && OnlyLinksDiffer(hs, LockedLinks(hs, bs, l, k, previous), All(l) + [bs[k].addr])
  }

  /** Where the right neighbour is among all list members. */
  lemma NextPlace(l: Lists, next: int) returns (j: nat, place: nat)
    requires (next in l.free || next in l.freed) && Distinct(All(l))
    ensures var t := ListOf(l, next); j < |t| && j == PlaceOf(t, next) && t[j] == next
    ensures place < |All(l)| && All(l)[place] == next
    ensures place == if next in l.free then j else |l.free| + j
    ensures Distinct(ListOf(l, next))
  {
    DistinctParts(l.free, l.freed);
    j := PlaceOf(ListOf(l, next), next);
    place := if next in l.free then j else |l.free| + j;
  }

  lemma DistinctWithout(s: seq<int>, j: nat)
    requires Distinct(s) && j < |s|
    ensures Distinct(s[..j] + s[j + 1..])
  {
  }

  lemma WiderLinks(hs: Headers, mid: Headers, s: seq<int>, l: Lists, p: int)
    requires OnlyLinksDiffer(hs, mid, s) && (s == l.free || s == l.freed)
    ensures OnlyLinksDiffer(hs, mid, All(l)) && OnlyLinksDiffer(hs, mid, All(l) + [p])
  {
  }

  lemma FreeUnlinked(hs: Headers, l: Lists, j: nat)
    requires TwoApart(hs, l) && Known(hs, l.free) && j < |l.free|
    ensures var mid, l' := UnlinkedHeaders(hs, l.free, j), l.(head := if j == 0 then Successor(l.free, 0) else l.head, free := l.free[..j] + l.free[j + 1..]);
            && TwoApart(mid, l') && All(l') == All(l)[..j] + All(l)[j + 1..] && OnlyLinksDiffer(hs, mid, l.free)
  {
    DistinctParts(l.free, l.freed);
    UnlinkedList(hs, l.head, l.free, j);
    DisjointList(hs, UnlinkedHeaders(hs, l.free, j), l.released, l.free, l.freed);
    DistinctWithout(All(l), j);
    assert l.free[..j] + l.free[j + 1..] + l.freed == All(l)[..j] + All(l)[j + 1..];
  }

  lemma ReleasedUnlinked(hs: Headers, l: Lists, j: nat, place: nat)
    requires TwoApart(hs, l) && Known(hs, l.freed) && 0 < j < |l.freed| - 1 && place == |l.free| + j
    ensures var mid, l' := UnlinkedHeaders(hs, l.freed, j), l.(freed := l.freed[..j] + l.freed[j + 1..]);
            && TwoApart(mid, l') && All(l') == All(l)[..place] + All(l)[place + 1..] && OnlyLinksDiffer(hs, mid, l.freed)
  {
    DistinctParts(l.free, l.freed);
    UnlinkedList(hs, l.released, l.freed, j);
    DisjointList(hs, UnlinkedHeaders(hs, l.freed, j), l.head, l.freed, l.free);
    DistinctWithout(All(l), place);
    assert l.free + (l.freed[..j] + l.freed[j + 1..]) == All(l)[..place] + All(l)[place + 1..];
  }

  lemma RightUnlinked(hs: Headers, bs: seq<Block>, l: Lists, k: nat, previous: int) returns (place: nat)
    requires TwoApart(hs, l) && Lockable(hs, bs, l, k) && NeighbourSafe(bs, l, k)
    requires RightFree(bs, k) && LeadsToFree(hs, previous)
    ensures ListsDone(hs, bs, l, k, previous)
    ensures place < |All(l)| && All(l)[place] == bs[k + 1].addr
    ensures All(LockedLists(hs, bs, l, k, previous)) == All(l)[..place] + All(l)[place + 1..]
    ensures OnlyLinksDiffer(hs, LockedLinks(hs, bs, l, k, previous), All(l))
  {
    var j: nat;
    j, place := NextPlace(l, bs[k + 1].addr);
    if bs[k + 1].addr in l.free {
      FreeUnlinked(hs, l, place);
      WiderLinks(hs, UnlinkedHeaders(hs, l.free, j), l.free, l, bs[k].addr);
    } else {
      assert 0 < j < |l.freed| - 1;
      ReleasedUnlinked(hs, l, j, place);
      WiderLinks(hs, UnlinkedHeaders(hs, l.freed, j), l.freed, l, bs[k].addr);
    }
  }

  lemma FreeReplaced(hs: Headers, l: Lists, j: nat, p: int)
    requires TwoApart(hs, l) && Known(hs, l.free) && j < |l.free| && p !in All(l) && p != NULL && p in hs
    ensures var mid, l' := ReplacedHeaders(hs, l.free, j, p), l.(head := if j == 0 then p else l.head, free := l.free[j := p]);
            && TwoApart(mid, l') && All(l') == All(l)[j := p] && OnlyLinksDiffer(hs, mid, l.free + [p])
  {
    DistinctParts(l.free, l.freed);
    ReplacedList(hs, l.head, l.free, j, p);
    DisjointList(hs, ReplacedHeaders(hs, l.free, j, p), l.released, l.free + [p], l.freed);
    ReplacedMembers(All(l), j, p);
    assert l.free[j := p] + l.freed == All(l)[j := p];
  }

  lemma ReleasedReplaced(hs: Headers, l: Lists, j: nat, p: int)
    requires TwoApart(hs, l) && Known(hs, l.freed) && 0 < j < |l.freed| - 1 && p !in All(l) && p != NULL && p in hs
    ensures var mid, l' := ReplacedHeaders(hs, l.freed, j, p), l.(freed := l.freed[j := p]);
            && TwoApart(mid, l') && All(l') == All(l)[|l.free| + j := p] && OnlyLinksDiffer(hs, mid, l.freed + [p])
  {
    DistinctParts(l.free, l.freed);
    ReplacedList(hs, l.released, l.freed, j, p);
    DisjointList(hs, ReplacedHeaders(hs, l.freed, j, p), l.head, l.freed + [p], l.free);
    ReplacedMembers(All(l), |l.free| + j, p);
    assert l.free + l.freed[j := p] == All(l)[|l.free| + j := p];
  }

  lemma RightReplaced(hs: Headers, bs: seq<Block>, l: Lists, k: nat, previous: int) returns (place: nat)
    requires TwoApart(hs, l) && Lockable(hs, bs, l, k) && NeighbourSafe(bs, l, k)
    requires RightFree(bs, k) && !LeadsToFree(hs, previous) && bs[k].addr !in All(l) && bs[k].addr != NULL
    ensures ListsDone(hs, bs, l, k, previous)
    ensures place < |All(l)| && All(l)[place] == bs[k + 1].addr
    ensures All(LockedLists(hs, bs, l, k, previous)) == All(l)[place := bs[k].addr]
  {
    var j: nat;
    j, place := NextPlace(l, bs[k + 1].addr);
    if bs[k + 1].addr in l.free {
      FreeReplaced(hs, l, j, bs[k].addr);
    } else {
      assert 0 < j < |l.freed| - 1;
      ReleasedReplaced(hs, l, j, bs[k].addr);
    }
  }

  lemma FreePushed(hs: Headers, l: Lists, p: int)
    requires TwoApart(hs, l) && Known(hs, l.free) && p !in All(l) && p != NULL && p in hs
    ensures var mid, l' := PushedHeaders(hs, l.free, p), l.(head := p, free := [p] + l.free);
            && TwoApart(mid, l') && All(l') == [p] + All(l) && OnlyLinksDiffer(hs, mid, l.free + [p])
  {
    DistinctParts(l.free, l.freed);
    PushedList(hs, l.head, l.free, p);
    DisjointList(hs, PushedHeaders(hs, l.free, p), l.released, l.free + [p], l.freed);
    assert [p] + l.free + l.freed == [p] + All(l);
    PushedDistinct(All(l), p);
  }

  lemma PushedDistinct(s: seq<int>, p: int)
    requires Distinct(s) && p !in s
    ensures Distinct([p] + s)
  {
    var t := [p] + s;
    forall i, j | 0 <= i < j < |t| ensures t[i] != t[j] {
      assert t[j] == s[j - 1];
    }
  }

  lemma AlonePushed(hs: Headers, bs: seq<Block>, l: Lists, k: nat, previous: int)
    requires TwoApart(hs, l) && Lockable(hs, bs, l, k)
    requires !RightFree(bs, k) && !LeadsToFree(hs, previous) && bs[k].addr !in All(l) && bs[k].addr != NULL
    ensures ListsDone(hs, bs, l, k, previous)
    ensures All(LockedLists(hs, bs, l, k, previous)) == [bs[k].addr] + All(l)
  {
    FreePushed(hs, l, bs[k].addr);
  }

  // ---------- the join ----------

  /** The list writes are done right, and the join starts at the true left neighbour if that is free. */
  ghost predicate ReadyToFinish(hs: Headers, bs: seq<Block>, l: Lists, k: nat, previous: int)
    requires Lockable(hs, bs, l, k)
  {
    && ListsDone(hs, bs, l, k, previous)
    && JoinReady(hs, LockedLinks(hs, bs, l, k, previous), bs, All(l), RunStart(bs, k), RunEnd(bs, k))
    && JoinedMembers(bs, All(l), All(LockedLists(hs, bs, l, k, previous)), RunStart(bs, k), RunEnd(bs, k))
    && (LeadsToFree(hs, previous) <==> LeftFree(bs, k))
    && (LeftFree(bs, k) ==> previous == bs[k - 1].addr && hs[previous].size == bs[k].addr - previous)
  }

  lemma Finished(hs: Headers, bs: seq<Block>, l: Lists, k: nat, previous: int, start: int, end: int)
    requires 0 < start < end < start + SIZE_LIMIT && Tiled(bs, start, end) && NoAdjacentFree(bs)
    requires Lockable(hs, bs, l, k) && ReadyToFinish(hs, bs, l, k, previous)
    ensures LockedWell(start, end, hs, bs, l, k, previous)
    ensures OthersUntouched(hs, LockedHeaders(hs, bs, l, k, previous), bs, k)
  {
    var mid, l' := LockedLinks(hs, bs, l, k, previous), LockedLists(hs, bs, l, k, previous);
    FinishedWrites(hs, bs, l, k, previous);
    JoinFinished(hs, mid, l'.head, bs, l.free, l.freed, l'.free, l'.released, l'.freed, RunStart(bs, k), RunEnd(bs, k), start, end);
    OthersOutside(hs, JoinWrites(mid, bs, RunStart(bs, k), RunEnd(bs, k)), bs, k);
  }

  /** All of the run but block k is free. */
  lemma OthersOutside(hs: Headers, hs': Headers, bs: seq<Block>, k: nat)
    requires k < |bs|
    requires forall i :: 0 <= i < |bs| && !(RunStart(bs, k) <= i < RunEnd(bs, k)) && !bs[i].kind.Free? ==> UntouchedAt(hs, hs', bs, i)
    ensures OthersUntouched(hs, hs', bs, k)
  {
  }

  lemma FinishedWrites(hs: Headers, bs: seq<Block>, l: Lists, k: nat, previous: int)
    requires Lockable(hs, bs, l, k) && ReadyToFinish(hs, bs, l, k, previous)
    ensures LockedHeaders(hs, bs, l, k, previous) == JoinWrites(LockedLinks(hs, bs, l, k, previous), bs, RunStart(bs, k), RunEnd(bs, k))
  {
  }

  // ---------- both neighbours are free ----------

  lemma JoinThreeReady(hs: Headers, mid: Headers, bs: seq<Block>, s: seq<int>, j: nat, k: nat, start: int, end: int)
    requires Tiled(bs, start, end) && NoAdjacentFree(bs) && Represents(hs, bs) && ListsFree(bs, s)
    requires 0 < k < |bs| - 1 && j < |s| && s[j] == bs[k + 1].addr
    requires bs[k - 1].kind.Free? && bs[k].kind.NonCollectible? && bs[k + 1].kind.Free?
    requires OnlyLinksDiffer(hs, mid, s)
    ensures JoinReady(hs, mid, bs, s, k - 1, k + 2)
    ensures JoinedMembers(bs, s, s[..j] + s[j + 1..], k - 1, k + 2)
    ensures bs[k - 1].End() == bs[k].addr && hs[bs[k - 1].addr].size == bs[k - 1].size
  {
    assert HeaderAt(hs, bs, k - 1) && HeaderAt(hs, bs, k) && HeaderAt(hs, bs, k + 1);
    Apart(bs, start, end, k - 1);
    Apart(bs, start, end, k);
    Apart(bs, start, end, k + 1);
    NotListed(bs, s, start, end, k);
    assert ListedAt(bs, s, k - 1);
    if k + 2 < |bs| {
      assert !TouchingFree(bs, k + 1) && HeaderAt(hs, bs, k + 2);
    }
    if k > 1 {
      assert !TouchingFree(bs, k - 2);
    }
  }

  lemma ThreeLocked(hs: Headers, bs: seq<Block>, l: Lists, k: nat, start: int, end: int)
    requires InOrder(start, end, hs, bs, l) && Lockable(hs, bs, l, k) && bs[k].kind.NonCollectible? && NeighbourSafe(bs, l, k)
    requires LeftFree(bs, k) && RightFree(bs, k) && LeadsToFree(hs, Left(bs, k))
    ensures ReadyToFinish(hs, bs, l, k, Left(bs, k))
  {
    var place := RightUnlinked(hs, bs, l, k, Left(bs, k));
    JoinThreeReady(hs, LockedLinks(hs, bs, l, k, Left(bs, k)), bs, All(l), place, k, start, end);
  }

  // ---------- only the right neighbour is free ----------

  lemma JoinNextReady(hs: Headers, mid: Headers, bs: seq<Block>, s: seq<int>, j: nat, k: nat, start: int, end: int)
    requires Tiled(bs, start, end) && NoAdjacentFree(bs) && Represents(hs, bs) && ListsFree(bs, s)
    requires k < |bs| - 1 && j < |s| && s[j] == bs[k + 1].addr
    requires bs[k].kind.NonCollectible? && bs[k + 1].kind.Free? && !LeftFree(bs, k)
    requires OnlyLinksDiffer(hs, mid, s + [bs[k].addr]) && Distinct(s[j := bs[k].addr])
    requires forall a :: a in s[j := bs[k].addr] <==> a == bs[k].addr || (a in s && a != s[j])
    ensures JoinReady(hs, mid, bs, s, k, k + 2)
    ensures JoinedMembers(bs, s, s[j := bs[k].addr], k, k + 2)
  {
    assert HeaderAt(hs, bs, k) && HeaderAt(hs, bs, k + 1);
    Apart(bs, start, end, k);
    Apart(bs, start, end, k + 1);
    NotListed(bs, s, start, end, k);
    if k + 2 < |bs| {
      assert !TouchingFree(bs, k + 1) && HeaderAt(hs, bs, k + 2);
    }
  }

  lemma NextLocked(hs: Headers, bs: seq<Block>, l: Lists, k: nat, previous: int, start: int, end: int)
    requires InOrder(start, end, hs, bs, l) && Lockable(hs, bs, l, k) && bs[k].kind.NonCollectible? && NeighbourSafe(bs, l, k)
    requires !LeftFree(bs, k) && RightFree(bs, k) && !LeadsToFree(hs, previous)
    ensures ReadyToFinish(hs, bs, l, k, previous)
  {
    NotListed(bs, All(l), start, end, k);
    Apart(bs, start, end, k);
    var place := RightReplaced(hs, bs, l, k, previous);
    ReplacedMembers(All(l), place, bs[k].addr);
    JoinNextReady(hs, LockedLinks(hs, bs, l, k, previous), bs, All(l), place, k, start, end);
  }

  // ---------- only the left neighbour is free ----------

  lemma JoinPreviousReady(hs: Headers, bs: seq<Block>, s: seq<int>, k: nat, start: int, end: int)
    requires 0 < start && Tiled(bs, start, end) && NoAdjacentFree(bs) && Represents(hs, bs) && ListsFree(bs, s)
    requires k < |bs| && LeftFree(bs, k) && bs[k].kind.NonCollectible? && !RightFree(bs, k)
    ensures JoinReady(hs, hs, bs, s, k - 1, k + 1)
    ensures JoinedMembers(bs, s, s, k - 1, k + 1)
    ensures bs[k - 1].End() == bs[k].addr && hs[bs[k - 1].addr].size == bs[k - 1].size
  {
    assert HeaderAt(hs, bs, k - 1) && HeaderAt(hs, bs, k) && ListedAt(bs, s, k - 1);
    Apart(bs, start, end, k - 1);
    Apart(bs, start, end, k);
    NotListed(bs, s, start, end, k);
    if k + 1 < |bs| {
      assert HeaderAt(hs, bs, k + 1);
    }
    if k > 1 {
      assert !TouchingFree(bs, k - 2);
    }
  }

  lemma PreviousLocked(hs: Headers, bs: seq<Block>, l: Lists, k: nat, start: int, end: int)
    requires InOrder(start, end, hs, bs, l) && Lockable(hs, bs, l, k) && bs[k].kind.NonCollectible?
    requires LeftFree(bs, k) && !RightFree(bs, k) && LeadsToFree(hs, Left(bs, k))
    ensures ReadyToFinish(hs, bs, l, k, Left(bs, k))
  {
    JoinPreviousReady(hs, bs, All(l), k, start, end);
  }

  // ---------- no neighbour is free ----------

  lemma PushedReady(hs: Headers, mid: Headers, bs: seq<Block>, s: seq<int>, k: nat, p: int)
    requires Represents(hs, bs) && ListsFree(bs, s) && k < |bs| && p == bs[k].addr && p in hs && p !in s
    requires hs[p].back == Previous(Left(bs, k)) && !LeftFree(bs, k) && !RightFree(bs, k)
    requires k + 1 < |bs| ==> bs[k + 1].addr in hs
    requires OnlyLinksDiffer(hs, mid, s + [p])
    ensures JoinReady(hs, mid, bs, s, k, k + 1)
    ensures JoinedMembers(bs, s, [p] + s, k, k + 1)
  {
    PushedDistinct(s, p);
  }

  lemma AloneLocked(hs: Headers, bs: seq<Block>, l: Lists, k: nat, previous: int, start: int, end: int)
    requires InOrder(start, end, hs, bs, l) && Lockable(hs, bs, l, k) && bs[k].kind.NonCollectible?
    requires !LeftFree(bs, k) && !RightFree(bs, k) && !LeadsToFree(hs, previous)
    ensures ReadyToFinish(hs, bs, l, k, previous)
  {
    assert HeaderAt(hs, bs, k);
    NotListed(bs, All(l), start, end, k);
    Apart(bs, start, end, k);
    AlonePushed(hs, bs, l, k, previous);
    PushedReady(hs, LockedLinks(hs, bs, l, k, previous), bs, All(l), k, bs[k].addr);
  }

  // ---------- exactly when a release is right ----------

  /** The neighbour pointers of a non-collectible block lead to the headers of its neighbours. */
  lemma NeighbourHeaders(hs: Headers, bs: seq<Block>, k: nat, start: int, end: int)
    requires 0 < start && Tiled(bs, start, end) && Represents(hs, bs) && k < |bs| && bs[k].kind.NonCollectible?
    ensures bs[k].addr in hs && hs[bs[k].addr].forward == NextContiguous(Right(bs, k))
    ensures hs[bs[k].addr].back == Previous(Left(bs, k))
    ensures Left(bs, k) != NULL <==> k > 0
    ensures k > 0 ==> Left(bs, k) in hs && hs[Left(bs, k)].kind == bs[k - 1].kind
    ensures Right(bs, k) != NULL <==> k + 1 < |bs|
    ensures k + 1 < |bs| ==> Right(bs, k) in hs && hs[Right(bs, k)].kind == bs[k + 1].kind
    ensures Left(bs, k) != bs[k].addr
  {
    assert HeaderAt(hs, bs, k);
    Apart(bs, start, end, k);
    if k > 0 {
      assert HeaderAt(hs, bs, k - 1);
      Apart(bs, start, end, k - 1);
    }
    if k + 1 < |bs| {
      assert HeaderAt(hs, bs, k + 1);
      Apart(bs, start, end, k + 1);
    }
  }

  lemma SafeRelease(hs: Headers, bs: seq<Block>, l: Lists, k: nat, previous: int, start: int, end: int)
    requires InOrder(start, end, hs, bs, l) && Lockable(hs, bs, l, k) && bs[k].kind.NonCollectible?
    requires WordSafe(hs, bs, k, previous) && NeighbourSafe(bs, l, k)
    ensures LockedWell(start, end, hs, bs, l, k, previous)
    ensures OthersUntouched(hs, LockedHeaders(hs, bs, l, k, previous), bs, k)
  {
    NeighbourHeaders(hs, bs, k, start, end);
    if LeftFree(bs, k) {
      if RightFree(bs, k) {
        ThreeLocked(hs, bs, l, k, start, end);
      } else {
        PreviousLocked(hs, bs, l, k, start, end);
      }
    } else if RightFree(bs, k) {
      NextLocked(hs, bs, l, k, previous, start, end);
    } else {
      AloneLocked(hs, bs, l, k, previous, start, end);
    }
    Finished(hs, bs, l, k, previous, start, end);
  }

  /** The writes to the lists change no size and no kind. */
  lemma LinksKeep(hs: Headers, bs: seq<Block>, l: Lists, k: nat, previous: int, a: int)
    requires Lockable(hs, bs, l, k) && a in hs
    ensures var mid := LockedLinks(hs, bs, l, k, previous); a in mid && mid[a].size == hs[a].size && mid[a].kind == hs[a].kind
  {
  }

  /** A left neighbour that the word does not lead to does not grow. */
  lemma LeftStays(hs: Headers, bs: seq<Block>, l: Lists, k: nat, previous: int, start: int, end: int)
    requires Tiled(bs, start, end) && Represents(hs, bs) && Lockable(hs, bs, l, k)
    requires LeftFree(bs, k) && previous != bs[k - 1].addr
    ensures !HeaderAt(LockedHeaders(hs, bs, l, k, previous), Released(bs, k), k - 1)
  {
    assert HeaderAt(hs, bs, k - 1);
    Apart(bs, start, end, k - 1);
    Apart(bs, start, end, k);
    Apart(bs, start, end, RunEnd(bs, k) - 1);
    LinksKeep(hs, bs, l, k, previous, bs[k - 1].addr);
  }

  /** A block that is added to some other free block does not become free itself. */
  lemma BlockStays(hs: Headers, bs: seq<Block>, l: Lists, k: nat, previous: int, start: int, end: int)
    requires Tiled(bs, start, end) && Represents(hs, bs) && Lockable(hs, bs, l, k) && bs[k].kind.NonCollectible?
    requires !LeftFree(bs, k) && LeadsToFree(hs, previous) && previous != bs[k].addr
    ensures !HeaderAt(LockedHeaders(hs, bs, l, k, previous), Released(bs, k), k)
  {
    assert HeaderAt(hs, bs, k);
    Apart(bs, start, end, k);
    LinksKeep(hs, bs, l, k, previous, bs[k].addr);
  }

  /** With a word that is not safe, the left neighbour does not grow or block k does not become free. */
  lemma UnsafeWord(hs: Headers, bs: seq<Block>, l: Lists, k: nat, previous: int, start: int, end: int)
    requires Tiled(bs, start, end) && Represents(hs, bs) && Lockable(hs, bs, l, k) && bs[k].kind.NonCollectible?
    requires previous != bs[k].addr && !WordSafe(hs, bs, k, previous)
    ensures !Represents(LockedHeaders(hs, bs, l, k, previous), Released(bs, k))
  {
    if LeftFree(bs, k) {
      LeftStays(hs, bs, l, k, previous, start, end);
    } else {
      BlockStays(hs, bs, l, k, previous, start, end);
    }
  }

  /** The right neighbour is no block any more, so it cannot be the first or the last of a list. */
  lemma UnsafeNeighbour(bs: seq<Block>, l: Lists, k: nat, l': Lists, start: int, end: int)
    requires Tiled(bs, start, end) && k < |bs| && RightFree(bs, k)
    requires l'.released == Front(l'.freed) && (l'.freed != [] ==> l'.last == l'.freed[|l'.freed| - 1])
    requires l'.released == l.released && l'.last == l.last && l.released != NULL
    requires !NeighbourSafe(bs, l, k)
    ensures !ListsFree(Released(bs, k), All(l'))
  {
    var next, after := bs[k + 1].addr, Released(bs, k);
    forall i | 0 <= i < |after| ensures after[i].addr != next {
      Apart(bs, start, end, k + 1);
      var lo, hi := RunStart(bs, k), RunEnd(bs, k);
      assert i > lo ==> after[i] == bs[i - lo - 1 + hi];
    }
    assert l'.freed[0] in All(l') && l'.freed[|l'.freed| - 1] in All(l');
  }

  /** Nothing else puts the lists in order after the locked part. */
  lemma UnsafeRelease(hs: Headers, bs: seq<Block>, l: Lists, k: nat, previous: int, l': Lists, start: int, end: int)
    requires InOrder(start, end, hs, bs, l) && Lockable(hs, bs, l, k) && bs[k].kind.NonCollectible? && previous != bs[k].addr
    requires !(WordSafe(hs, bs, k, previous) && NeighbourSafe(bs, l, k)) && l'.released == l.released && l'.last == l.last
    ensures !InOrder(start, end, LockedHeaders(hs, bs, l, k, previous), Released(bs, k), l')
  {
    if !WordSafe(hs, bs, k, previous) {
      UnsafeWord(hs, bs, l, k, previous, start, end);
    } else if IsList(LockedHeaders(hs, bs, l, k, previous), l'.released, l'.freed) && (l'.freed != [] ==> l'.last == l'.freed[|l'.freed| - 1]) {
      ReleasedNotNull(hs, bs, l, k, start, end);
      UnsafeNeighbour(bs, l, k, l', start, end);
    }
  }

  lemma ReleasedNotNull(hs: Headers, bs: seq<Block>, l: Lists, k: nat, start: int, end: int)
    requires 0 < start && Tiled(bs, start, end) && IsList(hs, l.released, l.freed) && k < |bs| && !NeighbourSafe(bs, l, k)
    ensures l.released != NULL
  {
    Apart(bs, start, end, k + 1);
    if l.freed != [] {
      assert NodeAt(hs, l.freed, 0);
    }
  }

  /** A release frees the block, joins it with its free neighbours and leaves the heap in order exactly if
      the word that was read as its left neighbour is safe when the heap monitor has been entered, and the
      right neighbour is no end of a list that a collection is about to splice. */
  lemma ReleaseIff(hs: Headers, bs: seq<Block>, l: Lists, k: nat, previous: int, start: int, end: int)
    requires InOrder(start, end, hs, bs, l) && k < |bs| && bs[k].kind.NonCollectible? && previous != bs[k].addr
    ensures Lockable(hs, bs, l, k)
    ensures WordSafe(hs, bs, k, previous) && NeighbourSafe(bs, l, k) ==>
              LockedWell(start, end, hs, bs, l, k, previous) && OthersUntouched(hs, LockedHeaders(hs, bs, l, k, previous), bs, k)
    ensures !(WordSafe(hs, bs, k, previous) && NeighbourSafe(bs, l, k)) ==>
              forall l': Lists :: l'.released == l.released && l'.last == l.last ==>
                !InOrder(start, end, LockedHeaders(hs, bs, l, k, previous), Released(bs, k), l')
  {
    LockableHeap(hs, bs, l, k);
    if WordSafe(hs, bs, k, previous) && NeighbourSafe(bs, l, k) {
      SafeRelease(hs, bs, l, k, previous, start, end);
    } else {
      forall l': Lists | l'.released == l.released && l'.last == l.last
        ensures !InOrder(start, end, LockedHeaders(hs, bs, l, k, previous), Released(bs, k), l')
      {
        UnsafeRelease(hs, bs, l, k, previous, l', start, end);
      }
    }
  }

  // ---------- memoryFree ----------

  /** hs' and l' are what the locked part makes of the heap. */
  ghost predicate Locked(hs: Headers, bs: seq<Block>, l: Lists, k: nat, previous: int, hs': Headers, l': Lists) {
    Lockable(hs, bs, l, k) && hs' == LockedHeaders(hs, bs, l, k, previous) && l' == LockedLists(hs, bs, l, k, previous)
  }

  /** ReleaseIff for a heap that the locked part has left. */
  lemma LockedIff(hs: Headers, bs: seq<Block>, l: Lists, k: nat, previous: int, hs': Headers, l': Lists, start: int, end: int)
    requires InOrder(start, end, hs, bs, l) && k < |bs| && bs[k].kind.NonCollectible? && previous != bs[k].addr
    requires Locked(hs, bs, l, k, previous, hs', l')
    ensures InOrder(start, end, hs', Released(bs, k), l') <==> WordSafe(hs, bs, k, previous) && NeighbourSafe(bs, l, k)
    ensures InOrder(start, end, hs', Released(bs, k), l') ==> OthersUntouched(hs, hs', bs, k)
  {
    ReleaseIff(hs, bs, l, k, previous, start, end);
  }

  /** Where the free right neighbour stands in its list, and what its header says. */
  lemma NextMember(start: int, end: int, hs: Headers, bs: seq<Block>, l: Lists, k: nat) returns (head: int, j: nat)
    requires InOrder(start, end, hs, bs, l) && k < |bs| && RightFree(bs, k) && bs[k].kind.NonCollectible?
    ensures Lockable(hs, bs, l, k)
    ensures var t := ListOf(l, bs[k + 1].addr);
            && IsList(hs, head, t) && Distinct(t) && j < |t| && j == PlaceOf(t, bs[k + 1].addr) && NodeAt(hs, t, j)
            && bs[k].addr !in t
    ensures bs[k].addr != NULL && hs[bs[k].addr].size == bs[k].size
    ensures bs[k].End() == bs[k + 1].addr && bs[k + 1].addr in hs && hs[bs[k + 1].addr].size == bs[k + 1].size
    ensures bs[k + 1].End() == Boundary(bs, k + 2, end)
    ensures k + 2 < |bs| <==> bs[k + 1].End() < end
  {
    LockableHeap(hs, bs, l, k);
    DistinctParts(l.free, l.freed);
    head := if bs[k + 1].addr in l.free then l.head else l.released;
    j := PlaceOf(ListOf(l, bs[k + 1].addr), bs[k + 1].addr);
    assert HeaderAt(hs, bs, k) && HeaderAt(hs, bs, k + 1);
    Apart(bs, start, end, k);
    Apart(bs, start, end, k + 1);
    NotListed(bs, All(l), start, end, k);
  }

  /** The list t that the right neighbour is on has become t', or the free list has. */
  ghost function Relisted(l: Lists, next: int, head: int, t': seq<int>): Lists {
    if next in l.free then l.(head := head, free := t') else l.(head := head, freed := t')
  }

  /** The block that was read as the left neighbour and the right neighbour both say free: the three
      blocks become one, and next leaves its list. */
  method JoinThree(h: Heap, previous: int, p: int, next: int, ghost k: nat, ghost released: int, ghost last: int, ghost freed: seq<int>)
    returns (ghost freed': seq<int>)
    requires InOrder(h.start, h.end, h.headers, h.blocks, h.ListsWith(released, last, freed))
    requires k + 1 < |h.blocks| && h.blocks[k].addr == p && h.blocks[k + 1].addr == next
    requires h.blocks[k].kind.NonCollectible? && h.blocks[k + 1].kind.Free?
    requires LeadsToFree(h.headers, previous) && previous != p
    modifies h
    ensures Locked(old(h.headers), old(h.blocks), old(h.ListsWith(released, last, freed)), k, previous,
                   h.headers, h.ListsWith(released, last, freed'))
    ensures h.blocks == Released(old(h.blocks), k)
    ensures k > 0 && previous == old(h.blocks[k - 1].addr) && NeighbourSafe(old(h.blocks), old(h.ListsWith(released, last, freed)), k) ==>
              && InOrder(h.start, h.end, h.headers, h.blocks, h.ListsWith(released, last, freed'))
              && h.blocks == Joined(old(h.blocks), k - 1, k + 2)
              && OthersUntouched(old(h.headers), h.headers, old(h.blocks), k)
  {
    ghost var hs, bs, l := h.headers, h.blocks, h.ListsWith(released, last, freed);
    ghost var head, j := NextMember(h.start, h.end, hs, bs, l, k);
    ghost var t := ListOf(l, next);
    NeighbourHeaders(hs, bs, k, h.start, h.end);
    h.Unlink(h.headers[next].previousFree, h.headers[next].forward.free, head, t, j);
    FinishJoin(h, previous, h.headers[previous].size + h.headers[p].size + h.headers[next].size,
               next + h.headers[next].size, k + 2);
    ghost var l' := Relisted(l, next, h.freeList, t[..j] + t[j + 1..]);
    ThreeWrites(hs, bs, l, k, previous, j, h.headers, l');
    LockedIff(hs, bs, l, k, previous, h.headers, l', h.start, h.end);
    h.free, freed', h.blocks := l'.free, l'.freed, Released(bs, k);
  }

  lemma ThreeWrites(hs: Headers, bs: seq<Block>, l: Lists, k: nat, previous: int, j: nat, hs': Headers, l': Lists)
    requires Lockable(hs, bs, l, k) && RightFree(bs, k) && LeadsToFree(hs, previous)
    requires j == PlaceOf(ListOf(l, bs[k + 1].addr), bs[k + 1].addr) && bs[k].End() == bs[k + 1].addr
    requires var t := ListOf(l, bs[k + 1].addr);
             && hs' == JoinWritesAt(UnlinkedHeaders(hs, t, j), bs, k + 2, previous, hs[previous].size + bs[k].size + bs[k + 1].size)
             && l' == Relisted(l, bs[k + 1].addr, if j == 0 then Successor(t, 0) else l.head, t[..j] + t[j + 1..])
    ensures Locked(hs, bs, l, k, previous, hs', l')
  {
  }

  /** Only the right neighbour says free: the joined block takes its place in its list. */
  method JoinNext(h: Heap, p: int, next: int, ghost k: nat, ghost previous: int, ghost released: int, ghost last: int, ghost freed: seq<int>)
    returns (ghost freed': seq<int>)
    requires InOrder(h.start, h.end, h.headers, h.blocks, h.ListsWith(released, last, freed))
    requires k + 1 < |h.blocks| && h.blocks[k].addr == p && h.blocks[k + 1].addr == next
    requires h.blocks[k].kind.NonCollectible? && h.blocks[k + 1].kind.Free?
    requires !LeadsToFree(h.headers, previous) && previous != p
    modifies h
    ensures Locked(old(h.headers), old(h.blocks), old(h.ListsWith(released, last, freed)), k, previous,
                   h.headers, h.ListsWith(released, last, freed'))
    ensures h.blocks == Released(old(h.blocks), k)
    ensures !LeftFree(old(h.blocks), k) && NeighbourSafe(old(h.blocks), old(h.ListsWith(released, last, freed)), k) ==>
              && InOrder(h.start, h.end, h.headers, h.blocks, h.ListsWith(released, last, freed'))
              && h.blocks == Joined(old(h.blocks), k, k + 2)
              && OthersUntouched(old(h.headers), h.headers, old(h.blocks), k)
  {
    ghost var hs, bs, l := h.headers, h.blocks, h.ListsWith(released, last, freed);
    ghost var head, j := NextMember(h.start, h.end, hs, bs, l, k);
    ghost var t := ListOf(l, next);
    h.Replace(p, h.headers[next].previousFree, h.headers[next].forward.free, head, t, j);
    FinishJoin(h, p, h.headers[p].size + h.headers[next].size, next + h.headers[next].size, k + 2);
    ghost var l' := Relisted(l, next, h.freeList, t[j := p]);
    NextWrites(hs, bs, l, k, previous, j, h.headers, l');
    LockedIff(hs, bs, l, k, previous, h.headers, l', h.start, h.end);
    h.free, freed', h.blocks := l'.free, l'.freed, Released(bs, k);
  }

  lemma NextWrites(hs: Headers, bs: seq<Block>, l: Lists, k: nat, previous: int, j: nat, hs': Headers, l': Lists)
    requires Lockable(hs, bs, l, k) && RightFree(bs, k) && !LeadsToFree(hs, previous)
    requires j == PlaceOf(ListOf(l, bs[k + 1].addr), bs[k + 1].addr) && bs[k].End() == bs[k + 1].addr
    requires var t, p := ListOf(l, bs[k + 1].addr), bs[k].addr;
             && hs' == JoinWritesAt(ReplacedHeaders(hs, t, j, p), bs, k + 2, p, bs[k].size + bs[k + 1].size)
             && l' == Relisted(l, bs[k + 1].addr, if j == 0 then p else l.head, t[j := p])
    ensures Locked(hs, bs, l, k, previous, hs', l')
  {
  }

  /** Only the block that was read as the left neighbour says free: it grows, and the lists stay as they
      are. */
  method JoinPrevious(h: Heap, previous: int, p: int, next: int, ghost k: nat, ghost released: int, ghost last: int, ghost freed: seq<int>)
    requires InOrder(h.start, h.end, h.headers, h.blocks, h.ListsWith(released, last, freed))
    requires k < |h.blocks| && h.blocks[k].addr == p && next == Right(h.blocks, k)
    requires h.blocks[k].kind.NonCollectible? && !RightFree(h.blocks, k)
    requires LeadsToFree(h.headers, previous) && previous != p
    modifies h
    ensures Locked(old(h.headers), old(h.blocks), old(h.ListsWith(released, last, freed)), k, previous,
                   h.headers, h.ListsWith(released, last, freed))
    ensures h.blocks == Released(old(h.blocks), k) && h.free == old(h.free)
    ensures k > 0 && previous == old(h.blocks[k - 1].addr) ==>
              && InOrder(h.start, h.end, h.headers, h.blocks, h.ListsWith(released, last, freed))
              && h.blocks == Joined(old(h.blocks), k - 1, k + 1)
              && OthersUntouched(old(h.headers), h.headers, old(h.blocks), k)
  {
    ghost var hs, bs, l := h.headers, h.blocks, h.ListsWith(released, last, freed);
    NeighbourHeaders(hs, bs, k, h.start, h.end);
    LockableHeap(hs, bs, l, k);
    assert HeaderAt(hs, bs, k);
    if next != NULL && h.headers[next].kind.NonCollectible? {
      h.headers := SetPrevious(h.headers, next, previous);
    }
    h.headers := SetSizeAndSetFree(h.headers, previous, h.headers[previous].size + h.headers[p].size);
    h.blocks := Released(bs, k);
    assert h.headers == LockedHeaders(hs, bs, l, k, previous);
    LockedIff(hs, bs, l, k, previous, h.headers, l, h.start, h.end);
  }

  /** Neither says free: the block becomes the front of the free list. */
  method PushAlone(h: Heap, p: int, ghost k: nat, ghost previous: int, ghost released: int, ghost last: int, ghost freed: seq<int>)
    requires InOrder(h.start, h.end, h.headers, h.blocks, h.ListsWith(released, last, freed))
    requires k < |h.blocks| && h.blocks[k].addr == p && h.blocks[k].kind.NonCollectible?
    requires !RightFree(h.blocks, k) && !LeadsToFree(h.headers, previous) && previous != p
    modifies h
    ensures Locked(old(h.headers), old(h.blocks), old(h.ListsWith(released, last, freed)), k, previous,
                   h.headers, h.ListsWith(released, last, freed))
    ensures h.blocks == Released(old(h.blocks), k) && h.free == [p] + old(h.free)
    ensures !LeftFree(old(h.blocks), k) ==>
              && InOrder(h.start, h.end, h.headers, h.blocks, h.ListsWith(released, last, freed))
              && h.blocks == Joined(old(h.blocks), k, k + 1)
              && OthersUntouched(old(h.headers), h.headers, old(h.blocks), k)
  {
    ghost var hs, bs, l := h.headers, h.blocks, h.ListsWith(released, last, freed);
    PushAloneReady(hs, bs, All(l), k, h.start, h.end);
    DistinctParts(l.free, freed);
    LockableHeap(hs, bs, l, k);
    h.Push(p, l.free);
    h.headers := h.headers[p := h.headers[p].(kind := Free, grey := false, black := false)];
    h.free, h.blocks := [p] + l.free, Released(bs, k);
    AloneWrites(hs, bs, l, k, previous, h.headers);
    LockedIff(hs, bs, l, k, previous, h.headers, h.ListsWith(released, last, freed), h.start, h.end);
  }

  lemma PushAloneReady(hs: Headers, bs: seq<Block>, s: seq<int>, k: nat, start: int, end: int)
    requires 0 < start < end < start + SIZE_LIMIT && Tiled(bs, start, end) && Represents(hs, bs) && ListsFree(bs, s)
    requires k < |bs| && bs[k].kind.NonCollectible?
    ensures bs[k].addr !in s && bs[k].addr != NULL && bs[k].addr in hs
    ensures hs[bs[k].addr].size == (bs[k].End() - bs[k].addr) % SIZE_LIMIT
    ensures k + 1 < |bs| ==> bs[k + 1].addr in hs && bs[k + 1].addr != bs[k].addr
    ensures k + 1 < |bs| ==> MovedNeighbour(hs[bs[k + 1].addr], bs[k].addr) == hs[bs[k + 1].addr]
  {
    assert HeaderAt(hs, bs, k);
    Apart(bs, start, end, k);
    NotListed(bs, s, start, end, k);
    if k + 1 < |bs| {
      assert HeaderAt(hs, bs, k + 1);
    }
  }

  /** The code leaves the size and the right neighbour alone, because they are right already. */
  lemma AloneWrites(hs: Headers, bs: seq<Block>, l: Lists, k: nat, previous: int, hs': Headers)
    requires Lockable(hs, bs, l, k) && !RightFree(bs, k) && !LeadsToFree(hs, previous)
    requires hs[bs[k].addr].size == bs[k].size % SIZE_LIMIT && bs[k].addr !in l.free
    requires k + 1 < |bs| ==> bs[k + 1].addr != bs[k].addr && MovedNeighbour(hs[bs[k + 1].addr], bs[k].addr) == hs[bs[k + 1].addr]
    requires var mid := PushedHeaders(hs, l.free, bs[k].addr);
             hs' == mid[bs[k].addr := mid[bs[k].addr].(kind := Free, grey := false, black := false)]
    ensures hs' == LockedHeaders(hs, bs, l, k, previous)
  {
    var p, mid := bs[k].addr, PushedHeaders(hs, l.free, bs[k].addr);
    if k + 1 < |bs| {
      var next := bs[k + 1].addr;
      assert mid[next] == hs[next].(forward := mid[next].forward, previousFree := mid[next].previousFree);
      assert mid[next := MovedNeighbour(mid[next], p)] == mid;
    }
  }

  /** The locked part of memoryFree, for the words that were read as the neighbours of block k. */
  method FreeLocked(h: Heap, p: int, previous: int, next: int, ghost k: nat, ghost released: int, ghost last: int, ghost freed: seq<int>)
    returns (ghost freed': seq<int>)
    requires InOrder(h.start, h.end, h.headers, h.blocks, h.ListsWith(released, last, freed))
    requires k < |h.blocks| && h.blocks[k].addr == p && h.blocks[k].kind.NonCollectible?
    requires previous != p && (previous != NULL ==> previous in h.headers) && next == Right(h.blocks, k)
    modifies h
    ensures Locked(old(h.headers), old(h.blocks), old(h.ListsWith(released, last, freed)), k, previous,
                   h.headers, h.ListsWith(released, last, freed'))
    ensures h.blocks == Released(old(h.blocks), k)
    ensures InOrder(h.start, h.end, h.headers, h.blocks, h.ListsWith(released, last, freed')) <==>
              WordSafe(old(h.headers), old(h.blocks), k, previous)
              && NeighbourSafe(old(h.blocks), old(h.ListsWith(released, last, freed)), k)
    ensures InOrder(h.start, h.end, h.headers, h.blocks, h.ListsWith(released, last, freed')) ==>
              OthersUntouched(old(h.headers), h.headers, old(h.blocks), k)
  {
    ghost var hs, bs, l := h.headers, h.blocks, h.ListsWith(released, last, freed);
    NeighbourHeaders(hs, bs, k, h.start, h.end);
    freed' := freed;
    if previous != NULL && h.headers[previous].kind.Free? {
      if next != NULL && h.headers[next].kind.Free? {
        freed' := JoinThree(h, previous, p, next, k, released, last, freed);
      } else {
        JoinPrevious(h, previous, p, next, k, released, last, freed);
      }
    } else if next != NULL && h.headers[next].kind.Free? {
      freed' := JoinNext(h, p, next, k, previous, released, last, freed);
    } else {
      PushAlone(h, p, k, previous, released, last, freed);
    }
    LockedIff(hs, bs, l, k, previous, h.headers, h.ListsWith(released, last, freed'), h.start, h.end);
  }

  /** The words that are read before the heap monitor is entered: those of the true neighbours. */
  method ReadNeighbours(h: Heap, mem: int, ghost k: nat) returns (previous: int, next: int)
    requires 0 < h.start && Tiled(h.blocks, h.start, h.end) && Represents(h.headers, h.blocks) && k < |h.blocks|
    requires h.blocks[k].addr == mem - HEADER_SIZE && h.blocks[k].kind.NonCollectible?
    ensures previous == Left(h.blocks, k) && next == Right(h.blocks, k)
    ensures previous != mem - HEADER_SIZE && (previous != NULL ==> previous in h.headers)
  {
    NeighbourHeaders(h.headers, h.blocks, k, h.start, h.end);
    next := h.headers[mem - HEADER_SIZE].forward.block;
    previous := h.headers[mem - HEADER_SIZE].back.block;
  }

  /** Frees the non-collectible block k, whose contents start at mem, and joins it with the free
      blocks beside it, when no other thread gets in between and no collection is about to splice. */
  method MemoryFree(h: Heap, mem: int, ghost k: nat)
    requires h.Valid() && k < |h.blocks|
    requires h.blocks[k].addr == mem - HEADER_SIZE && h.blocks[k].kind.NonCollectible?
    modifies h
    ensures h.Valid()
    ensures h.blocks == Released(old(h.blocks), k)
    ensures ListsAfter(old(h.headers), old(h.blocks), old(h.ListsWith(NULL, NULL, [])), k, Left(old(h.blocks), k), h.ListsWith(NULL, NULL, []))
    ensures OthersUntouched(old(h.headers), h.headers, old(h.blocks), k)
  {
    NoneReleased(h);
    Apart(h.blocks, h.start, h.end, k);
    var previous, next := ReadNeighbours(h, mem, k);
    LockableHeap(h.headers, h.blocks, h.ListsWith(NULL, NULL, []), k);
    LockedOrder(h.headers, h.blocks, h.ListsWith(NULL, NULL, []), k, previous);
    ghost var freed := FreeLocked(h, mem - HEADER_SIZE, previous, next, k, NULL, NULL, []);
    assert freed == [];
    NoneReleased(h);
  }

  /** Allocating a non-collectible block and freeing it at once leaves every extent and status as it was. */
  method AllocateThenFree(h: Heap, size: nat) returns (ok: bool)
    requires h.Valid() && size < UINT32_LIMIT
    modifies h
    ensures h.Valid() && h.blocks == old(h.blocks)
  {
    var location: int;
    ghost var k: nat;
    NoneReleased(h);
    ok, location, k := AllocateBlock(h, size, NonCollectible, 0, 0, NULL, []);
    NoneReleased(h);
    if ok {
      MemoryFree(h, location, AllocatedIndex(old(h.blocks), k, RequiredSize(size)));
      AllocateReleaseRoundTrip(old(h.blocks), k, RequiredSize(size), NonCollectible, h.start, h.end);
    }
  }
}
