/** The heap as the machine sees it: a header at the start of every block, and a doubly linked
    free list that lives inside the headers of the free blocks. */
module Heap {
  import opened Basics
  import opened HeapBlocks

  // Block sizes have 24 bits in a block key.
  const SIZE_LIMIT := 0x100_0000

  /** The two unions of a block header. A member may be read only if it was the one last written. */
  datatype Back = Previous(block: int) | Containing(suspended: int)
  datatype Forward = NextFree(free: int) | NextContiguous(block: int) | Indices(current: nat, contained: nat)

  /** A block header: the block key (size, allocation bits, collector bits), the two unions, and the
      word behind the header, which is the backward link of a free block and the first word of the
      contents of an allocated one. */
  datatype Header = Header(size: int, kind: Kind, grey: bool, black: bool,
                           back: Back, forward: Forward, previousFree: int)

  type Headers = map<int, Header>

  // ---------- writes to single header words ----------

  function SetNextFree(hs: Headers, p: int, next: int): Headers
    requires p in hs
  {
    hs[p := hs[p].(forward := NextFree(next))]
  }

  function SetPreviousFree(hs: Headers, p: int, previous: int): Headers
    requires p in hs
  {
    hs[p := hs[p].(previousFree := previous)]
  }

  function SetPrevious(hs: Headers, p: int, previous: int): Headers
    requires p in hs
  {
    hs[p := hs[p].(back := Previous(previous))]
  }

  function SetSizeAndSetFree(hs: Headers, p: int, size: int): Headers
    requires p in hs
  {
    hs[p := hs[p].(size := size % SIZE_LIMIT, kind := Free, grey := false, black := false)]
  }

  // ---------- what the headers mean ----------

  /** Block i has a header that says what the block is, and whose words mean what the kind of the
      block makes them mean. */
  ghost predicate HeaderAt(hs: Headers, bs: seq<Block>, i: nat)
    requires i < |bs|
  {
    && bs[i].addr in hs
    && var h := hs[bs[i].addr];
       && h.size == bs[i].size && h.kind == bs[i].kind
       && match bs[i].kind
          case Free => h.back == Previous(Left(bs, i)) && !h.grey && !h.black
          case NonCollectible => h.back == Previous(Left(bs, i)) && h.forward == NextContiguous(Right(bs, i))
          case _ => h.forward.Indices?
  }

  ghost predicate Represents(hs: Headers, bs: seq<Block>) {
    forall i :: 0 <= i < |bs| ==> HeaderAt(hs, bs, i)
  }

  function Successor(s: seq<int>, i: nat): int
    requires i < |s|
  {
    if i + 1 == |s| then NULL else s[i + 1]
  }

  function Predecessor(s: seq<int>, i: nat): int
    requires i < |s|
  {
    if i == 0 then NULL else s[i - 1]
  }

  ghost predicate NodeAt(hs: Headers, s: seq<int>, i: nat)
    requires i < |s|
  {
    && s[i] != NULL && s[i] in hs
    && hs[s[i]].forward == NextFree(Successor(s, i))
    && hs[s[i]].previousFree == Predecessor(s, i)
  }

  function Front(s: seq<int>): int {
    if s == [] then NULL else s[0]
  }

  /** head is the front of a doubly linked list through the headers, whose members are s in order. */
  ghost predicate IsList(hs: Headers, head: int, s: seq<int>) {
    && head == Front(s)
    && forall i :: 0 <= i < |s| ==> NodeAt(hs, s, i)
  }

  ghost predicate IsFreeBlock(bs: seq<Block>, a: int) {
    exists i :: 0 <= i < |bs| && bs[i].addr == a && bs[i].kind.Free?
  }

  ghost predicate ListedAt(bs: seq<Block>, s: seq<int>, i: nat)
    requires i < |bs|
  {
    bs[i].kind.Free? ==> bs[i].addr in s
  }

  /** s holds the addresses of the free blocks, each once. */
  ghost predicate ListsFree(bs: seq<Block>, s: seq<int>) {
    && Distinct(s)
    && (forall a :: a in s ==> IsFreeBlock(bs, a))
    && (forall i :: 0 <= i < |bs| ==> ListedAt(bs, s, i))
  }

  /** Only list links inside the members of s may differ between hs and hs'. */
  ghost predicate OnlyLinksDiffer(hs: Headers, hs': Headers, s: seq<int>) {
    && hs'.Keys == hs.Keys
    && (forall a :: a in hs && a !in s ==> hs'[a] == hs[a])
    && (forall a :: a in hs && a in s ==>
         hs'[a] == hs[a].(forward := hs'[a].forward, previousFree := hs'[a].previousFree))
  }

  /** An allocated block keeps its header and contents, except that the back word of a
      non-collectible block may follow a changed left neighbour. */
  ghost predicate Untouched(hs: Headers, hs': Headers, b: Block) {
    && b.addr in hs && b.addr in hs'
    && hs'[b.addr] == hs[b.addr].(back := hs'[b.addr].back)
    && (b.kind.Collectible() ==> hs'[b.addr].back == hs[b.addr].back)
  }

  ghost predicate UntouchedAt(hs: Headers, hs': Headers, bs: seq<Block>, i: nat)
    requires i < |bs|
  {
    Untouched(hs, hs', bs[i])
  }

  ghost predicate AllocatedUntouched(hs: Headers, hs': Headers, bs: seq<Block>) {
    forall i :: 0 <= i < |bs| && !bs[i].kind.Free? ==> UntouchedAt(hs, hs', bs, i)
  }

  /** The blocks tile the heap, every neighbour pointer is right, no two free blocks touch, and the
      free list holds exactly the free blocks. */
  ghost predicate WellFormed(start: int, end: int, hs: Headers, head: int, bs: seq<Block>, s: seq<int>) {
    && 0 < start < end < start + SIZE_LIMIT
    && Tiled(bs, start, end) && NoAdjacentFree(bs) && Represents(hs, bs)
    && IsList(hs, head, s) && ListsFree(bs, s)
  }

  /** The same for a heap whose free blocks are on two lists: the free list, and the list of the blocks that
      a collection has released and not yet spliced into it. */
  ghost predicate TwoLists(start: int, end: int, hs: Headers, head: int, bs: seq<Block>, free: seq<int>,
                           released: int, freed: seq<int>) {
    && 0 < start < end < start + SIZE_LIMIT
    && Tiled(bs, start, end) && NoAdjacentFree(bs) && Represents(hs, bs)
    && IsList(hs, head, free) && IsList(hs, released, freed) && ListsFree(bs, free + freed)
  }

  /** The two lists: the free list with its head, and the released blocks with the two pointers that the
      collecting thread keeps to the first and the last of them. */
  datatype Lists = Lists(head: int, free: seq<int>, released: int, last: int, freed: seq<int>)

  ghost predicate InOrder(start: int, end: int, hs: Headers, bs: seq<Block>, l: Lists) {
    && TwoLists(start, end, hs, l.head, bs, l.free, l.released, l.freed)
    && (l.freed != [] ==> l.last == l.freed[|l.freed| - 1])
  }

  lemma OneList(start: int, end: int, hs: Headers, head: int, bs: seq<Block>, free: seq<int>)
    ensures WellFormed(start, end, hs, head, bs, free) <==> TwoLists(start, end, hs, head, bs, free, NULL, [])
  {
    assert free + [] == free;
  }

  class Heap {
    const start: int
    const end: int
    var headers: Headers
    var freeList: int
    ghost var blocks: seq<Block>
    ghost var free: seq<int>

    ghost predicate Valid()
      reads this
    {
      WellFormed(start, end, headers, freeList, blocks, free)
    }

    /** The heap with a list of released blocks beside the free list. */
    ghost predicate Holds(released: int, freed: seq<int>)
      reads this
    {
      TwoLists(start, end, headers, freeList, blocks, free, released, freed)
    }

    ghost function ListsWith(released: int, last: int, freed: seq<int>): Lists
      reads this
    {
      Lists(freeList, free, released, last, freed)
    }

    constructor Initialize(heap: int, heapSize: int)
      requires 0 < heap && MIN_BLOCK_SIZE <= heapSize < SIZE_LIMIT
      ensures Valid() && start == heap && end == heap + heapSize
      ensures blocks == [Block(heap, heapSize, Free)] && free == [heap]
    {
      start, end := heap, heap + heapSize;
      freeList := heap;
      headers := map[heap := Header(heapSize, Free, false, false, Previous(NULL), NextFree(NULL), NULL)];
      blocks, free := [Block(heap, heapSize, Free)], [heap];
      new;
      assert blocks[1..] == [];
    }

    /** Takes member j out of list s by joining the members before and after it. A list without a member
        before it is taken to be the free list. */
    method Unlink(previous: int, next: int, ghost head: int, ghost s: seq<int>, ghost j: nat)
      requires IsList(headers, head, s) && Distinct(s) && j < |s|
      requires previous == Predecessor(s, j) && next == Successor(s, j)
      modifies this`headers, this`freeList
      ensures Known(old(headers), s) && headers == UnlinkedHeaders(old(headers), s, j)
      ensures freeList == if j == 0 then next else old(freeList)
      ensures IsList(headers, if j == 0 then next else head, s[..j] + s[j + 1..])
      ensures OnlyLinksDiffer(old(headers), headers, s)
      ensures s[j] in old(headers) && headers[s[j]] == old(headers)[s[j]]
    {
      ListKnown(headers, head, s);
      assert NodeAt(headers, s, j);
      assert j > 0 ==> NodeAt(headers, s, j - 1);
      assert j + 1 < |s| ==> NodeAt(headers, s, j + 1);
      if previous != NULL {
        headers := SetNextFree(headers, previous, next);
      } else {
        freeList := next;
      }
      if next != NULL {
        headers := SetPreviousFree(headers, next, previous);
      }
      UnlinkedList(old(headers), head, s, j);
    }

    /** Puts p into list s in the place of member j. A list without a member before it is taken to be the
        free list. */
    method Replace(p: int, previous: int, next: int, ghost head: int, ghost s: seq<int>, ghost j: nat)
      requires IsList(headers, head, s) && Distinct(s) && j < |s| && p !in s && p != NULL && p in headers
      requires previous == Predecessor(s, j) && next == Successor(s, j)
      modifies this`headers, this`freeList
      ensures Known(old(headers), s) && headers == ReplacedHeaders(old(headers), s, j, p)
      ensures freeList == if j == 0 then p else old(freeList)
      ensures IsList(headers, if j == 0 then p else head, s[j := p]) && Distinct(s[j := p])
      ensures OnlyLinksDiffer(old(headers), headers, s + [p])
    {
      ListKnown(headers, head, s);
      assert NodeAt(headers, s, j);
      assert j > 0 ==> NodeAt(headers, s, j - 1);
      assert j + 1 < |s| ==> NodeAt(headers, s, j + 1);
      if previous != NULL {
        headers := SetNextFree(headers, previous, p);
      } else {
        freeList := p;
      }
      headers := SetPreviousFree(headers, p, previous);
      if next != NULL {
        headers := SetPreviousFree(headers, next, p);
      }
      headers := SetNextFree(headers, p, next);
      ReplacedList(old(headers), head, s, j, p);
    }

    /** Makes p the front member of the free list s. */
    method Push(p: int, ghost s: seq<int>)
      requires IsList(headers, freeList, s) && Distinct(s) && p !in s && p != NULL && p in headers
      modifies this`headers, this`freeList
      ensures Known(old(headers), s) && headers == PushedHeaders(old(headers), s, p)
      ensures IsList(headers, freeList, [p] + s) && Distinct([p] + s)
      ensures OnlyLinksDiffer(old(headers), headers, s + [p])
    {
      ListKnown(headers, freeList, s);
      assert s != [] ==> NodeAt(headers, s, 0);
      headers := SetNextFree(headers, p, freeList);
      headers := SetPreviousFree(headers, p, NULL);
      if freeList != NULL {
        headers := SetPreviousFree(headers, freeList, p);
      }
      PushedList(old(headers), freeList, s, p);
      freeList := p;
    }
  }

  /** Every member of s has a header. */
  ghost predicate Known(hs: Headers, s: seq<int>) {
    forall i :: 0 <= i < |s| ==> s[i] in hs
  }

  lemma ListKnown(hs: Headers, head: int, s: seq<int>)
    requires IsList(hs, head, s)
    ensures Known(hs, s) && forall a :: a in s ==> a in hs
  {
    forall i | 0 <= i < |s| ensures s[i] in hs {
      assert NodeAt(hs, s, i);
    }
  }

  /** Where a stands in the list. */
  ghost function PlaceOf(s: seq<int>, a: int): nat
    requires a in s
    ensures PlaceOf(s, a) < |s| && s[PlaceOf(s, a)] == a
  {
    var j :| 0 <= j < |s| && s[j] == a;
    j
  }

  lemma NoneReleased(h: Heap)
    ensures h.Valid() <==> h.Holds(NULL, [])
  {
    OneList(h.start, h.end, h.headers, h.freeList, h.blocks, h.free);
  }

  /** The writes that take member j out of the list. */
  function UnlinkedHeaders(hs: Headers, s: seq<int>, j: nat): Headers
    requires j < |s| && (j > 0 ==> s[j - 1] in hs) && (j + 1 < |s| ==> s[j + 1] in hs)
    ensures UnlinkedHeaders(hs, s, j).Keys == hs.Keys
  {
    var joined := if j == 0 then hs else SetNextFree(hs, s[j - 1], Successor(s, j));
    if j + 1 == |s| then joined else SetPreviousFree(joined, s[j + 1], Predecessor(s, j))
  }

  /** The list without member j, once its neighbours have been joined. */
  lemma UnlinkedList(hs: Headers, head: int, s: seq<int>, j: nat)
    requires IsList(hs, head, s) && Distinct(s) && j < |s|
    requires (j > 0 ==> s[j - 1] in hs) && (j + 1 < |s| ==> s[j + 1] in hs)
    ensures IsList(UnlinkedHeaders(hs, s, j), if j == 0 then Successor(s, 0) else head, s[..j] + s[j + 1..])
    ensures OnlyLinksDiffer(hs, UnlinkedHeaders(hs, s, j), s)
    ensures s[j] in hs && UnlinkedHeaders(hs, s, j)[s[j]] == hs[s[j]]
  {
    assert NodeAt(hs, s, j);
    var t := s[..j] + s[j + 1..];
    forall i | 0 <= i < |t| ensures NodeAt(UnlinkedHeaders(hs, s, j), t, i) {
      UnlinkedNode(hs, s, j, if i < j then i else i + 1);
    }
  }

  lemma UnlinkedNode(hs: Headers, s: seq<int>, j: nat, i: nat)
    requires j < |s| && i < |s| && i != j && Distinct(s)
    requires forall m :: 0 <= m < |s| ==> NodeAt(hs, s, m)
    requires (j > 0 ==> s[j - 1] in hs) && (j + 1 < |s| ==> s[j + 1] in hs)
    ensures NodeAt(UnlinkedHeaders(hs, s, j), s[..j] + s[j + 1..], if i < j then i else i - 1)
  {
    assert NodeAt(hs, s, i);
    assert j > 0 && s[j - 1] == s[i] ==> i == j - 1;
    assert j + 1 < |s| && s[j + 1] == s[i] ==> i == j + 1;
  }

  /** The writes that put p in the place of member j. */
  function ReplacedHeaders(hs: Headers, s: seq<int>, j: nat, p: int): Headers
    requires j < |s| && p in hs && (j > 0 ==> s[j - 1] in hs) && (j + 1 < |s| ==> s[j + 1] in hs)
    ensures ReplacedHeaders(hs, s, j, p).Keys == hs.Keys
  {
    var before := if j == 0 then hs else SetNextFree(hs, s[j - 1], p);
    var placed := SetPreviousFree(before, p, Predecessor(s, j));
    var after := if j + 1 == |s| then placed else SetPreviousFree(placed, s[j + 1], p);
    SetNextFree(after, p, Successor(s, j))
  }

  lemma ReplacedMembers(s: seq<int>, j: nat, p: int)
    requires j < |s| && Distinct(s) && p !in s
    ensures Distinct(s[j := p]) && forall a :: a in s[j := p] <==> a == p || (a in s && a != s[j])
  {
    var t := s[j := p];
    forall a ensures a in t <==> a == p || (a in s && a != s[j]) {
      if a in t {
        var i :| 0 <= i < |t| && t[i] == a;
      } else if a in s {
        var i :| 0 <= i < |s| && s[i] == a;
        assert t[i] == if i == j then p else a;
      }
      assert t[j] == p;
    }
  }

  lemma ReplacedNode(hs: Headers, s: seq<int>, j: nat, p: int, i: nat)
    requires j < |s| && i < |s| && Distinct(s) && p !in s && p != NULL && p in hs
    requires forall m :: 0 <= m < |s| ==> NodeAt(hs, s, m)
    requires (j > 0 ==> s[j - 1] in hs) && (j + 1 < |s| ==> s[j + 1] in hs)
    ensures NodeAt(ReplacedHeaders(hs, s, j, p), s[j := p], i)
  {
    assert NodeAt(hs, s, i);
    assert j > 0 && s[j - 1] == s[i] ==> i == j - 1;
    assert j + 1 < |s| && s[j + 1] == s[i] ==> i == j + 1;
  }

  /** The list with p in the place of member j. */
  lemma ReplacedList(hs: Headers, head: int, s: seq<int>, j: nat, p: int)
    requires IsList(hs, head, s) && j < |s| && Distinct(s) && p !in s && p != NULL && p in hs
    requires (j > 0 ==> s[j - 1] in hs) && (j + 1 < |s| ==> s[j + 1] in hs)
    ensures IsList(ReplacedHeaders(hs, s, j, p), if j == 0 then p else head, s[j := p])
    ensures OnlyLinksDiffer(hs, ReplacedHeaders(hs, s, j, p), s + [p])
    ensures Distinct(s[j := p]) && forall a :: a in s[j := p] <==> a == p || (a in s && a != s[j])
  {
    var t := s[j := p];
    forall i | 0 <= i < |s| ensures NodeAt(ReplacedHeaders(hs, s, j, p), t, i) {
      ReplacedNode(hs, s, j, p, i);
    }
    ReplacedMembers(s, j, p);
  }

  lemma OnlyLinksDifferTransitive(hs: Headers, hs1: Headers, hs2: Headers, s: seq<int>, s1: seq<int>)
    requires OnlyLinksDiffer(hs, hs1, s) && OnlyLinksDiffer(hs1, hs2, s1) && forall a :: a in s1 ==> a in s
    ensures OnlyLinksDiffer(hs, hs2, s)
  {
  }

  /** No member of one list is a member of the other. */
  lemma DistinctParts(s: seq<int>, t: seq<int>)
    requires Distinct(s + t)
    ensures Distinct(s) && Distinct(t) && forall a :: a in s ==> a !in t
  {
    var u := s + t;
    assert forall i :: 0 <= i < |s| ==> u[i] == s[i];
    assert forall i :: 0 <= i < |t| ==> u[|s| + i] == t[i];
  }

  /** A list is unaffected by link writes elsewhere. */
  lemma DisjointList(hs: Headers, hs': Headers, head: int, s: seq<int>, t: seq<int>)
    requires IsList(hs, head, t) && OnlyLinksDiffer(hs, hs', s) && forall a :: a in t ==> a !in s
    ensures IsList(hs', head, t)
  {
    forall i | 0 <= i < |t| ensures NodeAt(hs', t, i) {
      assert NodeAt(hs, t, i) && t[i] in t;
    }
  }

  /** The same list in other headers. */
  lemma SameList(hs: Headers, hs': Headers, head: int, s: seq<int>)
    requires IsList(hs, head, s)
    requires forall a :: a in s ==> a in hs' && (a in hs ==> hs'[a].forward == hs[a].forward && hs'[a].previousFree == hs[a].previousFree)
    ensures IsList(hs', head, s)
  {
    forall i | 0 <= i < |s| ensures NodeAt(hs', s, i) {
      assert NodeAt(hs, s, i) && s[i] in s;
    }
  }

  /** The writes that make p the front member. */
  function PushedHeaders(hs: Headers, s: seq<int>, p: int): Headers
    requires p in hs && (s != [] ==> s[0] in hs)
    ensures PushedHeaders(hs, s, p).Keys == hs.Keys
  {
    var placed := SetPreviousFree(SetNextFree(hs, p, Front(s)), p, NULL);
    if s == [] then placed else SetPreviousFree(placed, s[0], p)
  }

  /** A list with a new front member p. */
  lemma PushedList(hs: Headers, head: int, s: seq<int>, p: int)
    requires IsList(hs, head, s) && Distinct(s) && p !in s && p != NULL && p in hs && (s != [] ==> s[0] in hs)
    ensures IsList(PushedHeaders(hs, s, p), p, [p] + s) && Distinct([p] + s)
    ensures OnlyLinksDiffer(hs, PushedHeaders(hs, s, p), s + [p])
  {
    var t, hs' := [p] + s, PushedHeaders(hs, s, p);
    forall i | 0 <= i < |t| ensures NodeAt(hs', t, i) {
      if i > 0 {
        assert NodeAt(hs, s, i - 1);
      }
    }
  }

  /** An allocated block is not a member of the free list. */
  lemma NotListed(bs: seq<Block>, s: seq<int>, start: int, end: int, i: nat)
    requires Tiled(bs, start, end) && ListsFree(bs, s) && i < |bs| && !bs[i].kind.Free?
    ensures bs[i].addr !in s
  {
    Apart(bs, start, end, i);
  }
}
