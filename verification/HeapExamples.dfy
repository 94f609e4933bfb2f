/** Two histories of a fresh heap after which it is not well formed any more. */
module HeapExamples {
  import opened Basics
  import opened HeapBlocks
  import opened Heap
  import opened Joining
  import opened Allocator
  import opened Releaser
  import opened ObjectGraph
  import opened Carrying
  import opened Collector
  import opened HeapRuns

  ghost predicate FreshAt1000(s: Snapshot) {
    Fresh(s) && s.start == 1000 && s.end == 1200
  }

  // ---------- a release that an allocation comes between ----------

  /** Block B at 1148 is reserved; a thread starts to free it and reads 1000 as its left neighbour; block N
      at 1116 is reserved in between; the thread goes on. */
  function Interrupted(): seq<Request> {
    [Reserve(40, NonCollectible), Begins(1, 1160), Reserve(20, NonCollectible), Ends(1)]
  }

  /** An allocation that splits the only free block, block 0. */
  lemma SplitsFirst(s: Snapshot, size: nat, kind: Kind, s': Snapshot)
    requires Good(s) && Enabled(s, Reserve(size, kind)) && Stepped(s, Reserve(size, kind), s')
    requires s.blocks != [] && s.blocks[0].kind.Free? && s.lists.freed == [] && size < 1000
    requires forall i :: 0 < i < |s.blocks| ==> !s.blocks[i].kind.Free?
    requires RequiredSize(size) + MIN_BLOCK_SIZE <= s.blocks[0].size
    ensures Granted(s.headers, s.blocks, s.lists.free, 0, RequiredSize(size), kind, 0, s'.headers, s'.lists.head, s'.lists.free)
    ensures s'.blocks == Allocated(s.blocks, 0, RequiredSize(size), kind)
    ensures s'.lists == s.lists && s'.releasing == s.releasing && s'.graph == s.graph && s'.collecting == s.collecting
  {
    assert FitsAt(s.blocks, s.lists.freed, 0, RequiredSize(size));
    var k :| GrantedIn(s, s', k, RequiredSize(size), kind, 0);
    assert k == 0;
  }

  /** The heap between two requests of the examples: no object, and no collection under way. */
  ghost predicate Idle(s: Snapshot, blocks: seq<Block>, releasing: map<int, Reading>) {
    Good(s) && s.blocks == blocks && s.releasing == releasing && s.graph == map[] && s.lists.freed == [] && !s.collecting
  }

  lemma FreshIdle(s: Snapshot)
    requires FreshAt1000(s)
    ensures Idle(s, [Block(1000, 200, Free)], map[])
  {
    FreshGood(s);
  }

  lemma FirstReserved(s: Snapshot, s': Snapshot)
    requires Idle(s, [Block(1000, 200, Free)], map[]) && Stepped(s, Reserve(40, NonCollectible), s')
    ensures Idle(s', [Block(1000, 148, Free), Block(1148, 52, NonCollectible)], map[])
  {
    SplitsFirst(s, 40, NonCollectible, s');
    StepGood(s, Reserve(40, NonCollectible), s');
  }

  lemma ReadAt1148(s: Snapshot, s': Snapshot)
    requires Idle(s, [Block(1000, 148, Free), Block(1148, 52, NonCollectible)], map[]) && Stepped(s, Begins(1, 1160), s')
    ensures Enabled(s, Begins(1, 1160)) && Idle(s', s.blocks, map[1 := Reading(1160, 1000, NULL)])
  {
    var k: nat :| BegunIn(s, s', k, 1, 1160);
    assert k == 1;
    StepGood(s, Begins(1, 1160), s');
  }

  lemma SecondReserved(s: Snapshot, s': Snapshot)
    requires Idle(s, [Block(1000, 148, Free), Block(1148, 52, NonCollectible)], map[1 := Reading(1160, 1000, NULL)])
    requires Stepped(s, Reserve(20, NonCollectible), s')
    ensures Idle(s', [Block(1000, 116, Free), Block(1116, 32, NonCollectible), Block(1148, 52, NonCollectible)], s.releasing)
  {
    SplitsFirst(s, 20, NonCollectible, s');
    StepGood(s, Reserve(20, NonCollectible), s');
  }

  /** The locked part adds block B to the block at 1000, over the reserved block between them. */
  lemma JoinedOver(s: Snapshot, s': Snapshot)
    requires Idle(s, [Block(1000, 116, Free), Block(1116, 32, NonCollectible), Block(1148, 52, NonCollectible)], map[1 := Reading(1160, 1000, NULL)])
    requires Stepped(s, Ends(1), s')
    ensures Enabled(s, Ends(1)) && !Good(s')
    ensures 1000 in s'.headers && s'.headers[1000].kind.Free? && s'.headers[1000].size == 168
    ensures 1116 in s'.headers && s'.headers[1116].kind.NonCollectible? && s'.headers[1116].size == 32
  {
    var k: nat :| EndedIn(s, s', k, 1);
    assert k == 2 && IsBlockOf(s.blocks, 2, 1160);
    assert HeaderAt(s.headers, s.blocks, 0) && HeaderAt(s.headers, s.blocks, 1);
    assert LeadsToFree(s.headers, 1000) && !RightFree(s.blocks, 2);
    assert !WordSafe(s.headers, s.blocks, 2, 1000);
    StepGood(s, Ends(1), s');
  }

  /** After this history the free block at 1000 reaches up to 1168 and so overlaps block N, which is
      reserved and lies from 1116 to 1148. */
  lemma InterruptedRelease(run: seq<Snapshot>)
    requires IsHistory(run, Interrupted()) && FreshAt1000(run[0])
    ensures Good(run[3]) && !Good(run[4])
    ensures 1000 in run[4].headers && run[4].headers[1000].kind.Free? && run[4].headers[1000].size == 168
    ensures 1116 in run[4].headers && run[4].headers[1116].kind.NonCollectible? && run[4].headers[1116].size == 32
  {
    var requests := Interrupted();
    assert StepAt(run, requests, 0) && StepAt(run, requests, 1) && StepAt(run, requests, 2) && StepAt(run, requests, 3);
    FreshIdle(run[0]);
    FirstReserved(run[0], run[1]);
    ReadAt1148(run[1], run[2]);
    SecondReserved(run[2], run[3]);
    JoinedOver(run[3], run[4]);
  }

  // ---------- a release while a collection is about to splice ----------

  /** Block A at 1148 is garbage, and block B takes all the rest. A collection sweeps, and before it has
      spliced what it released, B is freed. */
  function Unspliced(): seq<Request> {
    [Reserve(40, Plain), Reserve(136, NonCollectible), Sweeps([], []), Begins(1, 1012), Ends(1)]
  }

  lemma GarbageReserved(s: Snapshot, s': Snapshot)
    requires Idle(s, [Block(1000, 200, Free)], map[]) && Stepped(s, Reserve(40, Plain), s')
    ensures Idle(s', [Block(1000, 148, Free), Block(1148, 52, Plain)], map[])
  {
    SplitsFirst(s, 40, Plain, s');
    StepGood(s, Reserve(40, Plain), s');
  }

  lemma RestReserved(s: Snapshot, s': Snapshot)
    requires Idle(s, [Block(1000, 148, Free), Block(1148, 52, Plain)], map[]) && Stepped(s, Reserve(136, NonCollectible), s')
    ensures Idle(s', [Block(1000, 148, NonCollectible), Block(1148, 52, Plain)], map[])
  {
    assert FitsAt(s.blocks, s.lists.freed, 0, RequiredSize(136));
    var k :| GrantedIn(s, s', k, RequiredSize(136), NonCollectible, 0);
    assert k == 0;
    StepGood(s, Reserve(136, NonCollectible), s');
  }

  /** Without objects, roots and pinned blocks nothing is marked, and nothing can be uncovered. */
  lemma NothingMarked(s: Snapshot)
    requires s.graph == map[]
    ensures MarkedBlocks(s.graph, [], [], s.blocks) == {} && Covered(s.graph, s.blocks, [], [])
  {
    forall a ensures !Marked(s.graph, [], [], a) {
      assert RootBlocks(s.graph, []) == {};
    }
  }

  lemma NotFree(bs: seq<Block>, l: Lists, a: int)
    requires ListsFree(bs, l.free + l.freed) && forall i :: 0 <= i < |bs| ==> !bs[i].kind.Free?
    ensures a !in l.free
  {
    assert a in l.free ==> a in l.free + l.freed && IsFreeBlock(bs, a);
  }

  lemma NoneFree(bs: seq<Block>, l: Lists, free': seq<int>)
    requires ListsFree(bs, l.free + l.freed) && forall i :: 0 <= i < |bs| ==> !bs[i].kind.Free?
    requires forall a :: a in free' ==> a in l.free
    ensures free' == []
  {
    if free' != [] {
      var a := free'[0];
      assert a in free';
      NotFree(bs, l, a);
    }
  }

  lemma OneFree(bs: seq<Block>, free: seq<int>, k: nat)
    requires ListsFree(bs, free) && k < |bs| && forall i :: 0 <= i < |bs| ==> (bs[i].kind.Free? <==> i == k)
    ensures free != [] && free[0] == bs[k].addr
  {
    assert ListedAt(bs, free, k);
    assert IsFreeBlock(bs, free[0]);
  }

  /** The sweep releases block A, the only block that is free then. */
  lemma GarbageSwept(s: Snapshot, s': Snapshot)
    requires Idle(s, [Block(1000, 148, NonCollectible), Block(1148, 52, Plain)], map[]) && Stepped(s, Sweeps([], []), s')
    ensures Enabled(s, Sweeps([], [])) && Good(s') && s'.blocks == [Block(1000, 148, NonCollectible), Block(1148, 52, Free)]
    ensures s'.lists.released == 1148 && s'.releasing == map[] && s'.graph == map[]
  {
    NothingMarked(s);
    assert s.blocks[1..] == [Block(1148, 52, Plain)] && s.blocks[1..][1..] == [];
    assert Swept(s.blocks[1..], {}) == [Block(1148, 52, Free)];
    assert Swept(s.blocks, {}) == [Block(1000, 148, NonCollectible), Block(1148, 52, Free)];
    StepGood(s, Sweeps([], []), s');
    NoneFree(s.blocks, s.lists, s'.lists.free);
    assert s'.lists.free + s'.lists.freed == s'.lists.freed;
    OneFree(s'.blocks, s'.lists.freed, 1);
  }

  lemma ReadAt1000(s: Snapshot, s': Snapshot)
    requires Good(s) && s.blocks == [Block(1000, 148, NonCollectible), Block(1148, 52, Free)] && s.releasing == map[]
    requires Stepped(s, Begins(1, 1012), s')
    ensures Enabled(s, Begins(1, 1012)) && Good(s') && s' == s.(releasing := map[1 := Reading(1012, NULL, 1148)])
  {
    var k: nat :| BegunIn(s, s', k, 1, 1012);
    assert k == 0;
    StepGood(s, Begins(1, 1012), s');
  }

  /** Block B takes in block A, which the collecting thread has in hand. */
  lemma JoinedReleased(s: Snapshot, s': Snapshot)
    requires Good(s) && s.blocks == [Block(1000, 148, NonCollectible), Block(1148, 52, Free)] && s.graph == map[]
    requires s.releasing == map[1 := Reading(1012, NULL, 1148)] && s.lists.released == 1148 && Stepped(s, Ends(1), s')
    ensures Enabled(s, Ends(1)) && !Good(s') && s'.lists.released == 1148
    ensures 1000 in s'.headers && s'.headers[1000].kind.Free? && s'.headers[1000].size == 200
  {
    var k: nat :| EndedIn(s, s', k, 1);
    assert k == 0 && IsBlockOf(s.blocks, 0, 1012);
    assert HeaderAt(s.headers, s.blocks, 0) && HeaderAt(s.headers, s.blocks, 1);
    assert RightFree(s.blocks, 0) && !NeighbourSafe(s.blocks, s.lists, 0);
    StepGood(s, Ends(1), s');
  }

  /** After this history all of the heap is one free block, and the collecting thread is about to splice
      a block in the middle of it into the free list. */
  lemma ReleaseBeforeSplice(run: seq<Snapshot>)
    requires IsHistory(run, Unspliced()) && FreshAt1000(run[0])
    ensures Good(run[4]) && !Good(run[5]) && run[5].collecting && run[5].lists.released == 1148
    ensures 1000 in run[5].headers && run[5].headers[1000].kind.Free? && run[5].headers[1000].size == 200
  {
    var requests := Unspliced();
    assert StepAt(run, requests, 0) && StepAt(run, requests, 1) && StepAt(run, requests, 2);
    assert StepAt(run, requests, 3) && StepAt(run, requests, 4);
    FreshIdle(run[0]);
    GarbageReserved(run[0], run[1]);
    RestReserved(run[1], run[2]);
    GarbageSwept(run[2], run[3]);
    ReadAt1000(run[3], run[4]);
    JoinedReleased(run[4], run[5]);
  }

  // ---------- the histories happen ----------

  lemma Longer(run: seq<Snapshot>, requests: seq<Request>, r: Request, s': Snapshot)
    requires IsHistory(run, requests) && Enabled(run[|run| - 1], r) && Stepped(run[|run| - 1], r, s')
    ensures IsHistory(run + [s'], requests + [r])
  {
    var run', requests' := run + [s'], requests + [r];
    forall i | 0 <= i < |requests'| ensures StepAt(run', requests', i) {
      if i < |requests| {
        assert StepAt(run, requests, i) && run'[i] == run[i] && run'[i + 1] == run[i + 1] && requests'[i] == requests[i];
      } else {
        assert run'[i] == run[|run| - 1] && run'[i + 1] == s' && requests'[i] == r;
      }
    }
  }

  /** Carries out one request more in a heap without objects. */
  method Go(h: Heap, w: Window, ghost freed: seq<int>, r: Request, ghost run: seq<Snapshot>, ghost requests: seq<Request>)
    returns (w': Window, ghost freed': seq<int>, ghost run': seq<Snapshot>, ghost s': Snapshot)
    requires IsHistory(run, requests) && run[|run| - 1] == Taken(h, map[], w, freed)
    requires Good(Taken(h, map[], w, freed)) && Enabled(Taken(h, map[], w, freed), r) && !r.New?
    modifies h
    ensures Stepped(old(Taken(h, map[], w, freed)), r, s') && s' == Taken(h, map[], w', freed')
    ensures IsHistory(run', requests + [r]) && run' == run + [s']
  {
    ghost var g: Graph := map[];
    g, w', freed' := Perform(h, map[], w, freed, r);
    assert g == map[];
    s' := Taken(h, g, w', freed');
    Longer(run, requests, r, s');
    run' := run + [s'];
  }

  /** The first half of the history: block B is reserved, and its neighbour words are read. */
  method BothReserved() returns (h: Heap, w: Window, ghost run: seq<Snapshot>, ghost s: Snapshot)
    ensures fresh(h) && |run| == 3 && FreshAt1000(run[0]) && run[2] == s == Taken(h, map[], w, [])
    ensures Idle(s, [Block(1000, 148, Free), Block(1148, 52, NonCollectible)], map[1 := Reading(1160, 1000, NULL)])
    ensures IsHistory(run, Interrupted()[..2])
  {
    h := new Heap.Initialize(1000, 200);
    w := Window(false, NULL, NULL, map[]);
    ghost var freed: seq<int> := [];
    ghost var s0, s1 := Taken(h, map[], w, freed), *;
    FreshIdle(s0);
    run := [s0];
    w, freed, run, s1 := Go(h, w, freed, Reserve(40, NonCollectible), run, []);
    FirstReserved(s0, s1);
    assert IsBlockOf(s1.blocks, 1, 1160);
    w, freed, run, s := Go(h, w, freed, Begins(1, 1160), run, [Reserve(40, NonCollectible)]);
    ReadAt1148(s1, s);
    assert Interrupted()[..2] == [Reserve(40, NonCollectible)] + [Begins(1, 1160)];
  }

  /** Block N is reserved before the thread goes on. */
  method Overtaken() returns (h: Heap, w: Window, ghost run: seq<Snapshot>, ghost s: Snapshot)
    ensures fresh(h) && |run| == 4 && FreshAt1000(run[0]) && run[3] == s == Taken(h, map[], w, [])
    ensures Good(s) && Enabled(s, Ends(1)) && IsHistory(run, Interrupted()[..3])
  {
    ghost var freed: seq<int>, s2: Snapshot;
    h, w, run, s2 := BothReserved();
    w, freed, run, s := Go(h, w, [], Reserve(20, NonCollectible), run, Interrupted()[..2]);
    SecondReserved(s2, s);
    assert Interrupted()[..3] == Interrupted()[..2] + [Reserve(20, NonCollectible)];
  }

  method InterruptedHappens() returns (ghost run: seq<Snapshot>)
    ensures IsHistory(run, Interrupted()) && FreshAt1000(run[0])
  {
    var h: Heap, w: Window;
    ghost var freed: seq<int>, s: Snapshot;
    h, w, run, s := Overtaken();
    w, freed, run, s := Go(h, w, [], Ends(1), run, Interrupted()[..3]);
    assert Interrupted() == Interrupted()[..3] + [Ends(1)];
  }

  method GarbageThere() returns (h: Heap, w: Window, ghost run: seq<Snapshot>, ghost s: Snapshot)
    ensures fresh(h) && |run| == 2 && FreshAt1000(run[0]) && run[1] == s == Taken(h, map[], w, [])
    ensures Idle(s, [Block(1000, 148, Free), Block(1148, 52, Plain)], map[]) && IsHistory(run, Unspliced()[..1])
  {
    h := new Heap.Initialize(1000, 200);
    w := Window(false, NULL, NULL, map[]);
    ghost var freed: seq<int>, s0 := [], Taken(h, map[], w, []);
    FreshIdle(s0);
    w, freed, run, s := Go(h, w, [], Reserve(40, Plain), [s0], []);
    GarbageReserved(s0, s);
    assert Unspliced()[..1] == [] + [Reserve(40, Plain)];
  }

  /** All of the heap is reserved. */
  method AllReserved() returns (h: Heap, w: Window, ghost run: seq<Snapshot>, ghost s: Snapshot)
    ensures fresh(h) && |run| == 3 && FreshAt1000(run[0]) && run[2] == s == Taken(h, map[], w, [])
    ensures Idle(s, [Block(1000, 148, NonCollectible), Block(1148, 52, Plain)], map[])
    ensures IsHistory(run, Unspliced()[..2])
  {
    ghost var freed: seq<int>, s1: Snapshot;
    h, w, run, s1 := GarbageThere();
    w, freed, run, s := Go(h, w, [], Reserve(136, NonCollectible), run, Unspliced()[..1]);
    RestReserved(s1, s);
    assert Unspliced()[..2] == Unspliced()[..1] + [Reserve(136, NonCollectible)];
  }

  /** A collection has swept. */
  method Collected() returns (h: Heap, w: Window, ghost freed: seq<int>, ghost run: seq<Snapshot>, ghost s: Snapshot)
    ensures fresh(h) && |run| == 4 && FreshAt1000(run[0]) && run[3] == s == Taken(h, map[], w, freed)
    ensures Good(s) && s.blocks == [Block(1000, 148, NonCollectible), Block(1148, 52, Free)] && s.lists.released == 1148
    ensures s.releasing == map[] && IsHistory(run, Unspliced()[..3])
  {
    ghost var s2: Snapshot;
    h, w, run, s2 := AllReserved();
    NothingMarked(s2);
    w, freed, run, s := Go(h, w, [], Sweeps([], []), run, Unspliced()[..2]);
    GarbageSwept(s2, s);
    assert Unspliced()[..3] == Unspliced()[..2] + [Sweeps([], [])];
  }

  /** A thread has started to free block B. */
  method Started() returns (h: Heap, w: Window, ghost freed: seq<int>, ghost run: seq<Snapshot>, ghost s: Snapshot)
    ensures fresh(h) && |run| == 5 && FreshAt1000(run[0]) && run[4] == s == Taken(h, map[], w, freed)
    ensures Good(s) && Enabled(s, Ends(1)) && IsHistory(run, Unspliced()[..4])
  {
    ghost var s3: Snapshot;
    h, w, freed, run, s3 := Collected();
    assert IsBlockOf(s3.blocks, 0, 1012);
    w, freed, run, s := Go(h, w, freed, Begins(1, 1012), run, Unspliced()[..3]);
    ReadAt1000(s3, s);
    assert Unspliced()[..4] == Unspliced()[..3] + [Begins(1, 1012)];
  }

  method UnsplicedHappens() returns (ghost run: seq<Snapshot>)
    ensures IsHistory(run, Unspliced()) && FreshAt1000(run[0])
  {
    var h: Heap, w: Window;
    ghost var freed: seq<int>, s: Snapshot;
    h, w, freed, run, s := Started();
    w, freed, run, s := Go(h, w, freed, Ends(1), run, Unspliced()[..4]);
    assert Unspliced() == Unspliced()[..4] + [Ends(1)];
  }
}
