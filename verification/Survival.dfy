/** What a collection means for the objects of the program: when everything reachable survives. */
module Survival {
  import opened Basics
  import opened HeapBlocks
  import opened Heap
  import opened ObjectGraph
  import opened Collector

  /** Where the program can start from: the objects it refers to directly, and the pinned blocks. */
  ghost function Origins(g: Graph, roots: seq<int>, pinned: seq<int>): set<int>
    requires forall o :: o in roots ==> o in g
  {
    RootBlocks(g, roots) + Elements(pinned)
  }

  /** Nothing survives without being reachable. */
  lemma MarkedIsReachable(g: Graph, roots: seq<int>, pinned: seq<int>, p: int)
    requires (forall o :: o in roots ==> o in g) && Marked(g, roots, pinned, p)
    ensures Reachable(g, Origins(g, roots, pinned), p)
  {
    if p in pinned {
      ReachableRoot(g, Origins(g, roots, pinned), {}, p);
    } else {
      var path :| IsPath(g, path, Unscanned(g, roots, pinned)) && path[0] in RootBlocks(g, roots) && path[|path| - 1] == p;
      assert IsPath(g, path, {});
    }
  }

  /** The unscanned pinned blocks refer only to what is marked anyway. */
  ghost predicate PinnedCovered(g: Graph, roots: seq<int>, pinned: seq<int>)
    requires forall o :: o in roots ==> o in g
  {
    forall u, c :: u in Unscanned(g, roots, pinned) && Edge(g, u, c) ==> Marked(g, roots, pinned, c)
  }

  lemma MarkedStep(g: Graph, roots: seq<int>, pinned: seq<int>, b: int, c: int)
    requires (forall o :: o in roots ==> o in g) && PinnedCovered(g, roots, pinned)
    requires Marked(g, roots, pinned, b) && Edge(g, b, c)
    ensures Marked(g, roots, pinned, c)
  {
    if b !in Unscanned(g, roots, pinned) {
      ScannedStep(g, roots, pinned, b, c);
    }
  }

  lemma {:induction false} PathIsMarked(g: Graph, roots: seq<int>, pinned: seq<int>, path: seq<int>)
    requires (forall o :: o in roots ==> o in g) && PinnedCovered(g, roots, pinned)
    requires IsPath(g, path, {}) && path[0] in Origins(g, roots, pinned)
    ensures Marked(g, roots, pinned, path[|path| - 1])
  {
    var n := |path| - 1;
    if n == 0 {
      if path[0] !in pinned {
        ReachableRoot(g, RootBlocks(g, roots), Unscanned(g, roots, pinned), path[0]);
      }
    } else {
      var before := path[..n];
      forall i | 0 <= i < |before| - 1 ensures Step(g, before, i) {
        assert Step(g, path, i);
      }
      PathIsMarked(g, roots, pinned, before);
      assert before[|before| - 1] == path[n - 1] && Step(g, path, n - 1) && Edge(g, path[n - 1], path[n]);
      MarkedStep(g, roots, pinned, path[n - 1], path[n]);
    }
  }

  /** A collection keeps everything reachable exactly if the unscanned pinned blocks refer to nothing
      that is reachable through them alone. */
  lemma CollectionIsSafe(g: Graph, roots: seq<int>, pinned: seq<int>)
    requires forall o :: o in roots ==> o in g
    ensures (forall p :: Reachable(g, Origins(g, roots, pinned), p) ==> Marked(g, roots, pinned, p))
            <==> PinnedCovered(g, roots, pinned)
  {
    var origins := Origins(g, roots, pinned);
    if PinnedCovered(g, roots, pinned) {
      forall p | Reachable(g, origins, p) ensures Marked(g, roots, pinned, p) {
        var path :| IsPath(g, path, {}) && path[0] in origins && path[|path| - 1] == p;
        PathIsMarked(g, roots, pinned, path);
      }
    }
    if forall p :: Reachable(g, origins, p) ==> Marked(g, roots, pinned, p) {
      forall u, c | u in Unscanned(g, roots, pinned) && Edge(g, u, c) ensures Marked(g, roots, pinned, c) {
        ReachableRoot(g, origins, {}, u);
        ReachableStep(g, origins, {}, u, c);
      }
    }
  }

  /** With pinned blocks that refer to nothing, as thread structures and monitors do, exactly the
      reachable blocks are marked. */
  lemma LeavesPinned(g: Graph, roots: seq<int>, pinned: seq<int>, p: int)
    requires (forall o :: o in roots ==> o in g) && forall u, c :: u in pinned ==> !Edge(g, u, c)
    ensures Marked(g, roots, pinned, p) <==> Reachable(g, Origins(g, roots, pinned), p)
  {
    CollectionIsSafe(g, roots, pinned);
    if Marked(g, roots, pinned, p) {
      MarkedIsReachable(g, roots, pinned, p);
    }
  }

  /** If the survivors are covered, everything reachable, and everything permanent, survives. */
  lemma ReachableSurvives(g: Graph, hs: Headers, bs: seq<Block>, roots: seq<int>, pinned: seq<int>, start: int, end: int, i: nat)
    requires RootsKnown(hs, bs, g, roots, pinned) && Represents(hs, bs) && Tiled(bs, start, end)
    requires Covered(g, bs, roots, pinned) && i < |bs| && !bs[i].kind.Free?
    requires Reachable(g, Origins(g, roots, pinned), bs[i].addr) || IsPermanent(bs, bs[i].addr)
    ensures bs[i].addr in Survivors(g, bs, roots, pinned) && Referenced(bs[i], MarkedBlocks(g, roots, pinned, bs))
  {
    var a, survivors := bs[i].addr, Survivors(g, bs, roots, pinned);
    Apart(bs, start, end, i);
    if IsPermanent(bs, a) {
      MarkedSurvives(g, bs, roots, pinned, i);
    } else {
      OriginsSurvive(g, hs, bs, roots, pinned);
      CoveredIsClosed(g, hs, bs, roots, pinned);
      var path :| IsPath(g, path, {}) && path[0] in Origins(g, roots, pinned) && path[|path| - 1] == a;
      ReachableInClosed(g, Origins(g, roots, pinned), {}, survivors, path);
    }
  }

  lemma OriginsSurvive(g: Graph, hs: Headers, bs: seq<Block>, roots: seq<int>, pinned: seq<int>)
    requires RootsKnown(hs, bs, g, roots, pinned) && Represents(hs, bs)
    ensures Origins(g, roots, pinned) <= Survivors(g, bs, roots, pinned)
  {
    forall a | a in Origins(g, roots, pinned) ensures a in Survivors(g, bs, roots, pinned) {
      if a !in pinned {
        var o :| o in roots && BlockOf(g, o) == a;
        assert ObjectHosted(g, hs, o) && IsBlock(bs, BlockOf(g, o));
        if a !in Unscanned(g, roots, pinned) {
          ReachableRoot(g, RootBlocks(g, roots), Unscanned(g, roots, pinned), a);
        }
      }
      var i :| 0 <= i < |bs| && bs[i].addr == a;
      assert HeaderAt(hs, bs, i);
      MarkedSurvives(g, bs, roots, pinned, i);
    }
  }

  /** A heap without free space: a pending throwable with one field, and the message that the field
      refers to. */
  function ThrowableHeap(): (hs: Headers) {
    map[100 := Header(100, ObjectWithFields, false, false, Previous(NULL), Indices(0, 1), NULL),
        200 := Header(100, Plain, false, false, Previous(NULL), Indices(0, 0), NULL)]
  }

  function ThrowableBlocks(): (bs: seq<Block>) {
    [Block(100, 100, ObjectWithFields), Block(200, 100, Plain)]
  }

  function ThrowableGraph(): (g: Graph) {
    map[116 := Object(Instance, [212], NULL), 212 := Object(Instance, [], NULL)]
  }

  lemma ThrowableWellFormed()
    ensures WellFormed(100, 300, ThrowableHeap(), NULL, ThrowableBlocks(), [])
    ensures RootsKnown(ThrowableHeap(), ThrowableBlocks(), ThrowableGraph(), [], [100])
  {
    var hs, bs, g := ThrowableHeap(), ThrowableBlocks(), ThrowableGraph();
    assert Tiled(bs[1..][1..], 300, 300) && bs[1..][0] == bs[1];
    assert HeaderAt(hs, bs, 0) && HeaderAt(hs, bs, 1);
    assert bs[0].addr == 100 && bs[1].addr == 200;
    assert ObjectHosted(g, hs, 116) && ObjectHosted(g, hs, 212);
    assert IsBlock(bs, 100) && IsBlock(bs, 200);
    assert BlockHostsAt(g, hs, bs, 0) && BlockHostsAt(g, hs, bs, 1);
  }

  /** A pending throwable is pinned without being scanned: the object in its only field is reachable, and
      is not marked. The collection that may run in this heap leaves the field dangling. */
  lemma PendingThrowableLosesItsField()
    ensures var hs, bs, g := ThrowableHeap(), ThrowableBlocks(), ThrowableGraph();
            && WellFormed(100, 300, hs, NULL, bs, []) && RootsKnown(hs, bs, g, [], [100])
            && BlockOf(g, 212) == 200 && Reachable(g, Origins(g, [], [100]), 200)
            && !Marked(g, [], [100], 200) && !Covered(g, bs, [], [100])
  {
    var hs, bs, g := ThrowableHeap(), ThrowableBlocks(), ThrowableGraph();
    ThrowableWellFormed();
    ReachableRoot(g, Origins(g, [], [100]), {}, 100);
    assert FieldRefers(g, 116, 0, 200) && Refers(g, 116, 200);
    ReachableStep(g, Origins(g, [], [100]), {}, 100, 200);
    assert RootBlocks(g, []) == {};
    assert 100 in Unscanned(g, [], [100]) && Edge(g, 100, 200);
    if 200 in Survivors(g, bs, [], [100]) {
      SurvivorKnown(g, bs, [], [100], 200);
    }
  }
}
