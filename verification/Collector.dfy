/** One whole garbage collection (lib/src/memory/garbageCollect.c, jvm/src/object/allocate.c):
    whiten, colour the roots, mark, sweep, and splice the released blocks into the free list. */
module Collector {
  import opened Basics
  import opened HeapBlocks
  import opened Heap
  import opened ObjectGraph
  import opened Marker
  import opened Sweeper
  import opened Allocator
  import opened Carrying

  // ---------- whiten ----------

  ghost predicate WhiteAt(hs0: Headers, hs: Headers, bs: seq<Block>, i: nat)
    requires i < |bs|
  {
    var a := bs[i].addr;
    a in hs0 && a in hs && hs[a] == hs0[a].(grey := false, black := false)
  }

  ghost predicate AllWhite(hs0: Headers, hs: Headers, bs: seq<Block>) {
    forall i :: 0 <= i < |bs| ==> WhiteAt(hs0, hs, bs, i)
  }

  ghost predicate Recoloured(hs0: Headers, hs: Headers) {
    && hs.Keys == hs0.Keys
    && forall p :: p in hs0 ==> RecolouredAt(hs0, hs, p)
  }

  /** The header of p has the same meaning and another colour; a free block keeps its colour too. */
  ghost predicate RecolouredAt(hs0: Headers, hs: Headers, p: int) {
    && p in hs0 && p in hs && hs[p] == hs0[p].(grey := hs[p].grey, black := hs[p].black)
    && (hs0[p].kind.Free? && !hs0[p].grey && !hs0[p].black ==> hs[p] == hs0[p])
  }

  lemma RecolouredWellFormed(start: int, end: int, hs0: Headers, hs: Headers, head: int, bs: seq<Block>, s: seq<int>)
    requires WellFormed(start, end, hs0, head, bs, s) && Recoloured(hs0, hs)
    ensures WellFormed(start, end, hs, head, bs, s)
  {
    forall i | 0 <= i < |bs| ensures HeaderAt(hs, bs, i) {
      assert HeaderAt(hs0, bs, i) && RecolouredAt(hs0, hs, bs[i].addr);
    }
    forall a | a in s ensures a in hs && hs[a] == hs0[a] {
      var i :| 0 <= i < |bs| && bs[i].addr == a && bs[i].kind.Free?;
      assert HeaderAt(hs0, bs, i) && RecolouredAt(hs0, hs, a);
    }
    SameList(hs0, hs, head, s);
  }

  lemma RecolouredHosted(g: Graph, hs0: Headers, hs: Headers)
    requires Hosted(g, hs0) && Recoloured(hs0, hs)
    ensures Hosted(g, hs)
  {
    forall o | o in g ensures ObjectHosted(g, hs, o) {
      assert ObjectHosted(g, hs0, o) && RecolouredAt(hs0, hs, BlockOf(g, o));
      if g[o].monitor != NULL {
        assert RecolouredAt(hs0, hs, BlockOfMonitor(g[o].monitor));
      }
    }
  }

  lemma RecolouredFits(g: Graph, hs0: Headers, hs: Headers, bs: seq<Block>)
    requires Fits(g, hs0, bs) && Recoloured(hs0, hs)
    ensures Fits(g, hs, bs)
  {
    RecolouredHosted(g, hs0, hs);
    forall i | 0 <= i < |bs| ensures BlockHostsAt(g, hs, bs, i) {
      assert BlockHostsAt(g, hs0, bs, i);
      if bs[i].addr in hs {
        assert RecolouredAt(hs0, hs, bs[i].addr);
      }
    }
  }

  /** Makes every block white. */
  method Whiten(h: Heap)
    requires h.Valid()
    modifies h`headers
    ensures Recoloured(old(h.headers), h.headers)
    ensures AllWhite(old(h.headers), h.headers, h.blocks)
  {
    ghost var hs0, bs := h.headers, h.blocks;
    var p := h.start;
    ghost var i := 0;
    assert bs != [];
    while p < h.end
      invariant i <= |bs| && p == Boundary(bs, i, h.end) && (i < |bs| <==> p < h.end)
      invariant Recoloured(hs0, h.headers)
      invariant forall m :: 0 <= m < i ==> WhiteAt(hs0, h.headers, bs, m)
      decreases |bs| - i
    {
      assert HeaderAt(hs0, bs, i) && RecolouredAt(hs0, h.headers, p);
      Apart(bs, h.start, h.end, i);
      ghost var hs := h.headers;
      h.headers := h.headers[p := h.headers[p].(grey := false, black := false)];
      forall q | q in hs0 ensures RecolouredAt(hs0, h.headers, q) {
        assert RecolouredAt(hs0, hs, q);
      }
      forall m | 0 <= m < i + 1 ensures WhiteAt(hs0, h.headers, bs, m) {
        assert m < i ==> WhiteAt(hs0, hs, bs, m);
      }
      p := p + h.headers[p].size;
      i := i + 1;
    }
  }

  // ---------- colouring the roots ----------

  /** An object that has nothing to follow: no references at all, or a single one that is NULL. */
  predicate Bare(g: Graph, o: int)
    requires o in g
  {
    g[o].fields == [] || g[o].fields == [NULL]
  }

  lemma BareIs(g: Graph, o: int)
    requires o in g
    ensures Bare(g, o) <==> |g[o].fields| <= 1 && forall i :: 0 <= i < |g[o].fields| ==> g[o].fields[i] == NULL
  {
  }

  /** Colours one root: black, with its monitor, if it has nothing to follow, else grey. */
  method ScanObject(h: Heap, g: Graph, o: int)
    requires Hosted(g, h.headers) && o in g
    modifies h`headers
    ensures Recoloured(old(h.headers), h.headers)
    ensures h.headers == ScannedRoot(old(h.headers), g, o)
    ensures BlockOf(g, o) in h.headers
    ensures if |g[o].fields| <= 1 && forall i :: 0 <= i < |g[o].fields| ==> g[o].fields[i] == NULL
            then h.headers[BlockOf(g, o)].black else h.headers[BlockOf(g, o)].grey
  {
    BareIs(g, o);
    assert ObjectHosted(g, h.headers, o);
    if !g[o].shape.Instance? {
      if g[o].shape.PrimitiveArray? {
        h.headers := SetObjectMonitorBlack(h.headers, g, o);
        h.headers := SetBlack(h.headers, o - HEADER_SIZE);
      } else {
        var objectFieldCount := |g[o].fields|;
        if objectFieldCount == 0 {
          h.headers := SetObjectMonitorBlack(h.headers, g, o);
          h.headers := SetBlack(h.headers, o - HEADER_SIZE);
        } else if objectFieldCount == 1 && g[o].fields[0] == NULL {
          h.headers := SetObjectMonitorBlack(h.headers, g, o);
          h.headers := SetBlack(h.headers, o - HEADER_SIZE);
        } else {
          h.headers := SetGrey(h.headers, o - HEADER_SIZE);
        }
      }
    } else {
      var objectFieldCount := |g[o].fields|;
      if objectFieldCount == 0 {
        h.headers := SetObjectMonitorBlack(h.headers, g, o);
        h.headers := SetBlack(h.headers, o - HEADER_SIZE);
      } else if objectFieldCount == 1 && g[o].fields[0] == NULL {
        h.headers := SetObjectMonitorBlack(h.headers, g, o);
        h.headers := SetBlack(h.headers, o - FIELD_SIZE * 1 - HEADER_SIZE);
      } else {
        h.headers := SetGrey(h.headers, o - FIELD_SIZE * objectFieldCount - HEADER_SIZE);
      }
    }
    forall p | p in old(h.headers) ensures RecolouredAt(old(h.headers), h.headers, p) {
    }
  }

  ghost function ScannedRoot(hs: Headers, g: Graph, o: int): Headers
    requires Hosted(g, hs) && o in g
  {
    assert ObjectHosted(g, hs, o);
    if Bare(g, o) then SetBlack(SetObjectMonitorBlack(hs, g, o), BlockOf(g, o)) else SetGrey(hs, BlockOf(g, o))
  }

  ghost function GreyRoots(g: Graph, roots: seq<int>): set<int>
    requires forall o :: o in roots ==> o in g
  {
    if roots == [] then {}
    else
      var o := roots[|roots| - 1];
      GreyRoots(g, roots[..|roots| - 1]) + if Bare(g, o) then {} else {BlockOf(g, o)}
  }

  ghost function BlackRoots(g: Graph, roots: seq<int>): set<int>
    requires forall o :: o in roots ==> o in g
  {
    if roots == [] then {}
    else
      var o := roots[|roots| - 1];
      BlackRoots(g, roots[..|roots| - 1])
      + (if Bare(g, o) then {BlockOf(g, o)} else {})
      + (if Bare(g, o) && g[o].monitor != NULL then {BlockOfMonitor(g[o].monitor)} else {})
  }

  ghost predicate ColourIs(hs: Headers, bs: seq<Block>, greys: set<int>, blacks: set<int>, i: nat)
    requires i < |bs|
  {
    bs[i].addr in hs && (hs[bs[i].addr].grey <==> bs[i].addr in greys) && (hs[bs[i].addr].black <==> bs[i].addr in blacks)
  }

  ghost predicate ColoursAre(hs: Headers, bs: seq<Block>, greys: set<int>, blacks: set<int>) {
    forall i :: 0 <= i < |bs| ==> ColourIs(hs, bs, greys, blacks, i)
  }

  /** Colours the roots, and blackens the pinned blocks without looking into them: thread structures,
      monitors of frames and waits, and pending throwables. */
  method MarkRoots(h: Heap, g: Graph, roots: seq<int>, pinned: seq<int>)
    requires h.Valid() && Hosted(g, h.headers) && ColoursAre(h.headers, h.blocks, {}, {})
    requires forall o :: o in roots ==> o in g
    requires forall p :: p in pinned ==> p in h.headers && !h.headers[p].kind.Free?
    modifies h`headers
    ensures Recoloured(old(h.headers), h.headers)
    ensures ColoursAre(h.headers, h.blocks, GreyRoots(g, roots), BlackRoots(g, roots) + Elements(pinned))
  {
    ghost var hs0, bs := h.headers, h.blocks;
    var k := 0;
    while k < |roots|
      invariant k <= |roots| && Recoloured(hs0, h.headers) && Hosted(g, h.headers)
      invariant ColoursAre(h.headers, bs, GreyRoots(g, roots[..k]), BlackRoots(g, roots[..k]))
    {
      ghost var hs := h.headers;
      ScanObject(h, g, roots[k]);
      RecolouredTransitive(hs0, hs, h.headers);
      RecolouredHosted(g, hs, h.headers);
      ScannedColours(hs, g, bs, roots, k);
      k := k + 1;
    }
    assert roots[..k] == roots;
    PinBlocks(h, pinned, hs0, GreyRoots(g, roots), BlackRoots(g, roots));
  }

  method PinBlocks(h: Heap, pinned: seq<int>, ghost hs0: Headers, ghost greys: set<int>, ghost blacks: set<int>)
    requires Recoloured(hs0, h.headers) && ColoursAre(h.headers, h.blocks, greys, blacks)
    requires forall p :: p in pinned ==> p in hs0 && !hs0[p].kind.Free?
    modifies h`headers
    ensures Recoloured(hs0, h.headers)
    ensures ColoursAre(h.headers, h.blocks, greys, blacks + Elements(pinned))
  {
    ghost var bs := h.blocks;
    var k := 0;
    assert blacks + Elements(pinned[..k]) == blacks;
    while k < |pinned|
      invariant k <= |pinned| && Recoloured(hs0, h.headers)
      invariant ColoursAre(h.headers, bs, greys, blacks + Elements(pinned[..k]))
    {
      ghost var hs := h.headers;
      assert RecolouredAt(hs0, hs, pinned[k]);
      h.headers := SetBlack(h.headers, pinned[k]);
      RecolouredTransitive(hs0, hs, h.headers);
      ghost var before, after := blacks + Elements(pinned[..k]), blacks + Elements(pinned[..k + 1]);
      assert after == before + {pinned[k]};
      forall i | 0 <= i < |bs| ensures ColourIs(h.headers, bs, greys, after, i) {
        assert ColourIs(hs, bs, greys, before, i);
      }
      k := k + 1;
    }
    assert pinned[..k] == pinned;
  }

  function Elements(s: seq<int>): set<int> {
    set a | a in s
  }

  lemma RecolouredTransitive(hs0: Headers, hs: Headers, hs': Headers)
    requires Recoloured(hs0, hs) && hs'.Keys == hs.Keys
    requires forall p :: p in hs ==> hs'[p] == hs[p].(grey := hs'[p].grey, black := hs'[p].black)
                                     && (hs[p].kind.Free? ==> hs'[p] == hs[p])
    ensures Recoloured(hs0, hs')
  {
    forall p | p in hs0 ensures RecolouredAt(hs0, hs', p) {
      assert RecolouredAt(hs0, hs, p);
    }
  }

  lemma ScannedColours(hs: Headers, g: Graph, bs: seq<Block>, roots: seq<int>, k: nat)
    requires Hosted(g, hs) && k < |roots| && forall o :: o in roots ==> o in g
    requires ColoursAre(hs, bs, GreyRoots(g, roots[..k]), BlackRoots(g, roots[..k]))
    ensures ColoursAre(ScannedRoot(hs, g, roots[k]), bs, GreyRoots(g, roots[..k + 1]), BlackRoots(g, roots[..k + 1]))
  {
    var done := roots[..k + 1];
    assert done[..k] == roots[..k] && done[k] == roots[k];
    assert ObjectHosted(g, hs, roots[k]);
    forall i | 0 <= i < |bs|
      ensures ColourIs(ScannedRoot(hs, g, roots[k]), bs, GreyRoots(g, done), BlackRoots(g, done), i)
    {
      assert ColourIs(hs, bs, GreyRoots(g, roots[..k]), BlackRoots(g, roots[..k]), i);
    }
  }

  // ---------- what is black after marking ----------

  ghost function RootBlocks(g: Graph, roots: seq<int>): set<int>
    requires forall o :: o in roots ==> o in g
  {
    set o | o in roots :: BlockOf(g, o)
  }

  /** The pinned blocks whose references nobody follows: all but those of bare root objects. */
  ghost function Unscanned(g: Graph, roots: seq<int>, pinned: seq<int>): set<int>
    requires forall o :: o in roots ==> o in g
  {
    set p | p in pinned && !(exists o :: o in roots && Bare(g, o) && BlockOf(g, o) == p)
  }

  /** The blocks that one marking blackens: the pinned ones, and those reachable from a root on a path
      that does not pass through an unscanned pinned block. */
  ghost predicate Marked(g: Graph, roots: seq<int>, pinned: seq<int>, p: int)
    requires forall o :: o in roots ==> o in g
  {
    p in pinned || ReachableAvoiding(g, RootBlocks(g, roots), Unscanned(g, roots, pinned), p)
  }

  lemma {:induction false} GreyRootsMembers(g: Graph, roots: seq<int>)
    requires forall o :: o in roots ==> o in g
    ensures forall p :: p in GreyRoots(g, roots) <==> exists o :: o in roots && !Bare(g, o) && BlockOf(g, o) == p
  {
    if roots != [] {
      var n := |roots| - 1;
      GreyRootsMembers(g, roots[..n]);
      forall p ensures p in GreyRoots(g, roots) <==> exists o :: o in roots && !Bare(g, o) && BlockOf(g, o) == p {
        assert forall o :: o in roots <==> o in roots[..n] || o == roots[n];
      }
    }
  }

  ghost predicate BlackBecause(g: Graph, o: int, p: int)
    requires o in g
  {
    Bare(g, o) && (BlockOf(g, o) == p || (g[o].monitor != NULL && BlockOfMonitor(g[o].monitor) == p))
  }

  lemma {:induction false} BlackRootsMembers(g: Graph, roots: seq<int>)
    requires forall o :: o in roots ==> o in g
    ensures forall p :: p in BlackRoots(g, roots) <==> exists o :: o in roots && BlackBecause(g, o, p)
  {
    if roots != [] {
      var n := |roots| - 1;
      BlackRootsMembers(g, roots[..n]);
      forall p ensures p in BlackRoots(g, roots) <==> exists o :: o in roots && BlackBecause(g, o, p) {
        assert forall o :: o in roots <==> o in roots[..n] || o == roots[n];
      }
    }
  }

  /** Whatever is black after the roots are coloured is marked. */
  lemma ColouredIsMarked(g: Graph, hs: Headers, roots: seq<int>, pinned: seq<int>, p: int)
    requires Hosted(g, hs) && forall o :: o in roots ==> o in g
    requires p in BlackRoots(g, roots) + Elements(pinned)
    ensures Marked(g, roots, pinned, p)
  {
    BlackRootsMembers(g, roots);
    if p !in pinned {
      var o :| o in roots && BlackBecause(g, o, p);
      var b, rs, us := BlockOf(g, o), RootBlocks(g, roots), Unscanned(g, roots, pinned);
      assert b in rs && b !in us;
      ReachableRoot(g, rs, us, b);
      if b != p {
        assert Refers(g, o, p) && Edge(g, b, p);
        ReachableStep(g, rs, us, b, p);
      }
    }
  }

  /** A path from a grey root that avoids the coloured blocks is one from a root that avoids the unscanned ones. */
  lemma GreyPathIsMarked(g: Graph, roots: seq<int>, pinned: seq<int>, greys: set<int>, blacks: set<int>, p: int)
    requires forall o :: o in roots ==> o in g
    requires greys <= RootBlocks(g, roots)
    requires Unscanned(g, roots, pinned) <= blacks
    requires ReachableAvoiding(g, greys, blacks, p)
    ensures Marked(g, roots, pinned, p)
  {
    var path :| IsPath(g, path, blacks) && path[0] in greys && path[|path| - 1] == p;
    var us := Unscanned(g, roots, pinned);
    forall i | 0 <= i < |path| ensures path[i] !in us {
      assert path[i] !in blacks;
    }
    assert IsPath(g, path, us);
  }

  /** Everything marked is coloured already or reachable from a grey root. */
  lemma MarkedIsColoured(g: Graph, hs: Headers, roots: seq<int>, pinned: seq<int>, greys: set<int>, blacks: set<int>, p: int)
    requires Hosted(g, hs) && (forall o :: o in roots ==> o in g) && Marked(g, roots, pinned, p)
    requires greys == GreyRoots(g, roots) && blacks == BlackRoots(g, roots) + Elements(pinned)
    ensures p in blacks || ReachableAvoiding(g, greys, blacks, p)
  {
    GreyRootsMembers(g, roots);
    BlackRootsMembers(g, roots);
    if p !in pinned {
      var us := Unscanned(g, roots, pinned);
      var path :| IsPath(g, path, us) && path[0] in RootBlocks(g, roots) && path[|path| - 1] == p;
      MarkedPathIsColoured(g, hs, roots, pinned, greys, blacks, path);
    }
  }

  lemma {:induction false} MarkedPathIsColoured(g: Graph, hs: Headers, roots: seq<int>, pinned: seq<int>,
                                                greys: set<int>, blacks: set<int>, path: seq<int>)
    requires Hosted(g, hs) && (forall o :: o in roots ==> o in g)
    requires IsPath(g, path, Unscanned(g, roots, pinned)) && path[0] in RootBlocks(g, roots)
    requires forall p :: p in greys <==> exists o :: o in roots && !Bare(g, o) && BlockOf(g, o) == p
    requires forall p :: p in blacks <==> p in pinned || exists o :: o in roots && BlackBecause(g, o, p)
    ensures path[|path| - 1] in blacks || ReachableAvoiding(g, greys, blacks, path[|path| - 1])
  {
    var n := |path| - 1;
    var c := path[n];
    if n == 0 {
      var o :| o in roots && BlockOf(g, o) == c;
      assert Bare(g, o) ==> BlackBecause(g, o, c);
      if c !in blacks {
        ReachableRoot(g, greys, blacks, c);
      }
    } else {
      var b, before := path[n - 1], path[..n];
      forall i | 0 <= i < |before| - 1 ensures Step(g, before, i) {
        assert Step(g, path, i);
      }
      MarkedPathIsColoured(g, hs, roots, pinned, greys, blacks, before);
      assert before[|before| - 1] == b && Step(g, path, n - 1) && Edge(g, b, c);
      if c !in blacks {
        if b in blacks {
          ColouredHasNoChildren(g, hs, roots, pinned, blacks, b, c);
        }
        ReachableStep(g, greys, blacks, b, c);
      }
    }
  }

  /** A block coloured black by a root scan refers only to blocks that are coloured black as well. */
  lemma ColouredHasNoChildren(g: Graph, hs: Headers, roots: seq<int>, pinned: seq<int>, blacks: set<int>, b: int, c: int)
    requires Hosted(g, hs) && (forall o :: o in roots ==> o in g)
    requires b in blacks && b !in Unscanned(g, roots, pinned) && Edge(g, b, c)
    requires forall p :: p in blacks <==> p in pinned || exists o :: o in roots && BlackBecause(g, o, p)
    ensures c in blacks
  {
    var o :| o in g && BlockOf(g, o) == b && Refers(g, o, c);
    assert ObjectHosted(g, hs, o);
    var r :| r in roots && BlackBecause(g, r, b);
    assert ObjectHosted(g, hs, r);
    if BlockOf(g, r) == b {
      OneObject(g, hs, o, r);
      assert BlackBecause(g, r, c);
    }
  }

  // ---------- the mark function ----------

  /** A block keeps its size, kind and contents; only the words the marker uses may differ. */
  ghost predicate ContentsKept(hs0: Headers, hs: Headers, p: int) {
    && p in hs0 && p in hs
    && hs[p].size == hs0[p].size && hs[p].kind == hs0[p].kind && hs[p].previousFree == hs0[p].previousFree
    && (hs0[p].kind.NonCollectible? ==> hs[p].forward == hs0[p].forward)
    && (hs0[p].kind.Collectible() && hs0[p].forward.Indices? ==>
         hs[p].forward.Indices? && hs[p].forward.contained == hs0[p].forward.contained)
  }

  lemma RootColours(g: Graph, hs: Headers, bs: seq<Block>, roots: seq<int>, pinned: seq<int>)
    requires Represents(hs, bs) && Hosted(g, hs) && InBlocks(g, bs)
    requires (forall o :: o in roots ==> o in g) && (forall p :: p in pinned ==> IsBlock(bs, p))
    requires ColoursAre(hs, bs, GreyRoots(g, roots), BlackRoots(g, roots) + Elements(pinned))
    ensures Greys(hs, bs) == GreyRoots(g, roots)
    ensures Blacks(hs, bs) == BlackRoots(g, roots) + Elements(pinned)
    ensures forall i :: 0 <= i < |bs| ==> GreyAt(g, hs, bs, i)
  {
    var greys, blacks := GreyRoots(g, roots), BlackRoots(g, roots) + Elements(pinned);
    GreyRootsMembers(g, roots);
    BlackRootsMembers(g, roots);
    forall p | p in greys ensures p in Greys(hs, bs) {
      var o :| o in roots && !Bare(g, o) && BlockOf(g, o) == p;
      assert ObjectHosted(g, hs, o) && IsBlock(bs, p);
      var i :| 0 <= i < |bs| && bs[i].addr == p;
      assert HeaderAt(hs, bs, i) && ColourIs(hs, bs, greys, blacks, i);
    }
    forall p | p in blacks ensures p in Blacks(hs, bs) {
      if p !in pinned {
        var o :| o in roots && BlackBecause(g, o, p);
        assert o in g && IsBlock(bs, BlockOf(g, o));
      }
      var i :| 0 <= i < |bs| && bs[i].addr == p;
      assert ColourIs(hs, bs, greys, blacks, i);
    }
    forall p | p in Greys(hs, bs) ensures p in greys {
      var i :| 0 <= i < |bs| && bs[i].addr in hs && bs[i].kind.Collectible() && hs[bs[i].addr].grey && p == bs[i].addr;
      assert ColourIs(hs, bs, greys, blacks, i);
    }
    forall p | p in Blacks(hs, bs) ensures p in blacks {
      var i :| 0 <= i < |bs| && bs[i].addr in hs && hs[bs[i].addr].black && p == bs[i].addr;
      assert ColourIs(hs, bs, greys, blacks, i);
    }
    forall i | 0 <= i < |bs| ensures GreyAt(g, hs, bs, i) {
      assert HeaderAt(hs, bs, i) && ColourIs(hs, bs, greys, blacks, i);
      if bs[i].addr in greys {
        var o :| o in roots && !Bare(g, o) && BlockOf(g, o) == bs[i].addr;
        assert ObjectHosted(g, hs, o);
      }
    }
  }

  /** A block is black after the coloured heap has been scanned exactly if it is marked. */
  lemma BlackIsMarked(g: Graph, hs: Headers, roots: seq<int>, pinned: seq<int>, p: int)
    requires Hosted(g, hs) && forall o :: o in roots ==> o in g
    ensures var greys, blacks := GreyRoots(g, roots), BlackRoots(g, roots) + Elements(pinned);
            p in blacks || ReachableAvoiding(g, greys, blacks, p) <==> Marked(g, roots, pinned, p)
  {
    var greys, blacks := GreyRoots(g, roots), BlackRoots(g, roots) + Elements(pinned);
    if p in blacks {
      ColouredIsMarked(g, hs, roots, pinned, p);
    } else if ReachableAvoiding(g, greys, blacks, p) {
      GreyRootsMembers(g, roots);
      assert Unscanned(g, roots, pinned) <= blacks;
      forall b | b in greys ensures b in RootBlocks(g, roots) {
        var o :| o in roots && !Bare(g, o) && BlockOf(g, o) == b;
      }
      GreyPathIsMarked(g, roots, pinned, greys, blacks, p);
    } else if Marked(g, roots, pinned, p) {
      MarkedIsColoured(g, hs, roots, pinned, greys, blacks, p);
    }
  }

  ghost predicate MarkedAt(g: Graph, hs: Headers, bs: seq<Block>, roots: seq<int>, pinned: seq<int>, i: nat)
    requires i < |bs| && forall o :: o in roots ==> o in g
  {
    bs[i].addr in hs && (hs[bs[i].addr].black <==> Marked(g, roots, pinned, bs[i].addr))
  }

  /** Whitens the heap, colours the roots and marks: a block ends up black exactly if it is marked. */
  method JavaMarkFunction(h: Heap, g: Graph, roots: seq<int>, pinned: seq<int>)
    requires h.Valid() && RootsKnown(h.headers, h.blocks, g, roots, pinned)
    modifies h`headers
    ensures h.Valid()
    ensures h.headers.Keys == old(h.headers).Keys
    ensures forall p :: p in old(h.headers) ==> ContentsKept(old(h.headers), h.headers, p)
    ensures forall i :: 0 <= i < |h.blocks| ==> MarkedAt(g, h.headers, h.blocks, roots, pinned, i)
  {
    ghost var hs0, bs := h.headers, h.blocks;
    Whiten(h);
    ghost var hs1 := h.headers;
    RecolouredWellFormed(h.start, h.end, hs0, hs1, h.freeList, bs, h.free);
    RecolouredFits(g, hs0, hs1, bs);
    forall i | 0 <= i < |bs| ensures ColourIs(hs1, bs, {}, {}, i) {
      assert WhiteAt(hs0, hs1, bs, i);
    }
    forall p | p in pinned ensures p in hs1 && !hs1[p].kind.Free? {
      assert RecolouredAt(hs0, hs1, p);
    }
    MarkRoots(h, g, roots, pinned);
    ghost var hs2 := h.headers;
    RecolouredWellFormed(h.start, h.end, hs1, hs2, h.freeList, bs, h.free);
    RecolouredFits(g, hs1, hs2, bs);
    RootColours(g, hs2, bs, roots, pinned);
    MarkChildren(h, g);
    forall p | p in hs0 ensures ContentsKept(hs0, h.headers, p) {
      assert RecolouredAt(hs0, hs1, p) && RecolouredAt(hs1, hs2, p) && MarkOnlyAt(hs2, h.headers, p);
    }
    forall i | 0 <= i < |bs| ensures MarkedAt(g, h.headers, bs, roots, pinned, i) {
      assert HeaderAt(h.headers, bs, i);
      assert ColourIs(hs2, bs, GreyRoots(g, roots), BlackRoots(g, roots) + Elements(pinned), i);
      BlackIsMarked(g, hs2, roots, pinned, bs[i].addr);
    }
  }

  // ---------- addToFreeList ----------

  /** The writes that link the last released block with the head of the free list. */
  function SplicedHeaders(hs: Headers, head: int, last: int): Headers
    requires last in hs && (head != NULL ==> head in hs)
    ensures SplicedHeaders(hs, head, last).Keys == hs.Keys
  {
    var linked := SetNextFree(hs, last, head);
    if head == NULL then linked else SetPreviousFree(linked, head, last)
  }

  lemma SplicedNode(hs: Headers, freed: seq<int>, free: seq<int>, i: nat)
    requires freed != [] && Distinct(free + freed) && i < |freed| + |free|
    requires forall m :: 0 <= m < |freed| ==> NodeAt(hs, freed, m)
    requires forall m :: 0 <= m < |free| ==> NodeAt(hs, free, m)
    requires freed[|freed| - 1] in hs && (free != [] ==> free[0] in hs && free[0] != NULL)
    ensures NodeAt(SplicedHeaders(hs, Front(free), freed[|freed| - 1]), freed + free, i)
  {
    var s, n, t := freed + free, |freed|, free + freed;
    assert forall m :: 0 <= m < |free| ==> t[m] == free[m];
    assert forall m :: 0 <= m < n ==> t[|free| + m] == freed[m];
    if i < n {
      assert NodeAt(hs, freed, i) && s[i] == freed[i] && t[|free| + i] == s[i];
      assert t[|free| + n - 1] == freed[n - 1];
      assert free != [] ==> t[0] == free[0];
      assert i == n - 1 || s[i] != freed[n - 1];
    } else {
      assert NodeAt(hs, free, i - n) && s[i] == free[i - n] && t[i - n] == s[i];
      assert t[|free| + n - 1] == freed[n - 1];
      assert i == n || s[i] != free[0];
    }
  }

  /** Splices the released blocks in front of the free list. */
  method AddToFreeList(h: Heap, released: int, last: int, ghost freed: seq<int>)
    requires TwoLists(h.start, h.end, h.headers, h.freeList, h.blocks, h.free, released, freed)
    requires freed != [] && last == freed[|freed| - 1]
    modifies h`headers, h`freeList, h`free
    ensures h.Valid() && h.free == freed + old(h.free)
    ensures last in old(h.headers) && (old(h.freeList) != NULL ==> old(h.freeList) in old(h.headers))
    ensures h.headers == SplicedHeaders(old(h.headers), old(h.freeList), last)
    ensures OnlyLinksDiffer(old(h.headers), h.headers, freed + old(h.free))
  {
    ghost var free := h.free;
    SplicedLinked(h.start, h.end, h.headers, h.blocks, h.ListsWith(released, last, freed));
    h.headers := SetNextFree(h.headers, last, h.freeList);
    if h.freeList != NULL {
      h.headers := SetPreviousFree(h.headers, h.freeList, last);
    }
    h.freeList := released;
    h.free := freed + free;
  }

  /** The spliced list takes in all free blocks. */
  lemma SplicedLinked(start: int, end: int, hs: Headers, bs: seq<Block>, l: Lists)
    requires InOrder(start, end, hs, bs, l) && l.freed != []
    ensures l.last in hs && (l.head != NULL ==> l.head in hs)
    ensures WellFormed(start, end, SplicedHeaders(hs, l.head, l.last), l.released, bs, l.freed + l.free)
    ensures OnlyLinksDiffer(hs, SplicedHeaders(hs, l.head, l.last), l.freed + l.free)
  {
    var s := l.freed + l.free;
    ListKnown(hs, l.head, l.free);
    ListKnown(hs, l.released, l.freed);
    assert l.free != [] ==> NodeAt(hs, l.free, 0);
    assert s[|l.freed| - 1] == l.last;
    forall i | 0 <= i < |s| ensures NodeAt(SplicedHeaders(hs, l.head, l.last), s, i) {
      SplicedNode(hs, l.freed, l.free, i);
    }
    SplicedValid(start, end, hs, SplicedHeaders(hs, l.head, l.last), l.released, bs, l.free, l.freed);
  }

  lemma SplicedValid(start: int, end: int, hs: Headers, hs': Headers, released: int, bs: seq<Block>, free: seq<int>, freed: seq<int>)
    requires 0 < start < end < start + SIZE_LIMIT && Tiled(bs, start, end) && NoAdjacentFree(bs) && Represents(hs, bs)
    requires ListsFree(bs, free + freed) && IsList(hs', released, freed + free)
    requires OnlyLinksDiffer(hs, hs', freed + free)
    ensures WellFormed(start, end, hs', released, bs, freed + free)
  {
    var s, t := freed + free, free + freed;
    forall i, j | 0 <= i < j < |s| ensures s[i] != s[j] {
      assert s[i] == t[if i < |freed| then |free| + i else i - |freed|];
      assert s[j] == t[if j < |freed| then |free| + j else j - |freed|];
    }
    forall i | 0 <= i < |bs| ensures ListedAt(bs, s, i) {
      assert ListedAt(bs, t, i);
    }
    forall i | 0 <= i < |bs| ensures HeaderAt(hs', bs, i) {
      assert HeaderAt(hs, bs, i);
      if !bs[i].kind.Free? {
        NotListed(bs, t, start, end, i);
      }
    }
  }

  // ---------- getTotalAvailableMemory ----------

  function SizeSum(hs: Headers, s: seq<int>): int
    requires forall i :: 0 <= i < |s| ==> s[i] in hs
  {
    if s == [] then 0
    else
      SizeSum(hs, s[..|s| - 1]) + hs[s[|s| - 1]].size
  }

  lemma {:induction false} SizeSumWithout(hs: Headers, s: seq<int>, j: nat)
    requires j < |s| && forall i :: 0 <= i < |s| ==> s[i] in hs
    ensures SizeSum(hs, s) == SizeSum(hs, s[..j] + s[j + 1..]) + hs[s[j]].size
  {
    var n, t := |s| - 1, s[..j] + s[j + 1..];
    if j < n {
      SizeSumWithout(hs, s[..n], j);
      assert t[..|t| - 1] == s[..n][..j] + s[..n][j + 1..];
    } else {
      assert t == s[..n];
    }
  }

  /** The sizes on the free list add up to the bytes of the free blocks. */
  lemma {:induction false} FreeListBytes(hs: Headers, bs: seq<Block>, s: seq<int>, start: int, end: int)
    requires Tiled(bs, start, end) && ListsFree(bs, s)
    requires forall i :: 0 <= i < |bs| ==> bs[i].addr in hs && hs[bs[i].addr].size == bs[i].size
    requires forall i :: 0 <= i < |s| ==> s[i] in hs
    ensures SizeSum(hs, s) == FreeBytes(bs)
  {
    if bs == [] {
      NoneListed(bs, s);
    } else {
      var rest := bs[1..];
      Apart(bs, start, end, 0);
      if bs[0].kind.Free? {
        assert ListedAt(bs, s, 0);
        var j :| 0 <= j < |s| && s[j] == bs[0].addr;
        var t := s[..j] + s[j + 1..];
        SizeSumWithout(hs, s, j);
        RestListed(bs, s, t);
        FreeListBytes(hs, rest, t, bs[0].End(), end);
      } else {
        NotListed(bs, s, start, end, 0);
        RestListed(bs, s, s);
        FreeListBytes(hs, rest, s, bs[0].End(), end);
      }
    }
  }

  lemma NoneListed(bs: seq<Block>, s: seq<int>)
    requires bs == [] && ListsFree(bs, s)
    ensures s == []
  {
    if s != [] {
      ListedIsFree(bs, s, 0);
    }
  }

  lemma ListedIsFree(bs: seq<Block>, s: seq<int>, j: nat)
    requires ListsFree(bs, s) && j < |s|
    ensures IsFreeBlock(bs, s[j])
  {
    assert s[j] in s;
  }

  lemma RestListed(bs: seq<Block>, s: seq<int>, t: seq<int>)
    requires bs != [] && ListsFree(bs, s) && forall i :: 0 < i < |bs| ==> bs[i].addr != bs[0].addr
    requires if bs[0].kind.Free? then exists j :: 0 <= j < |s| && s[j] == bs[0].addr && t == s[..j] + s[j + 1..]
             else t == s && bs[0].addr !in s
    ensures ListsFree(bs[1..], t)
  {
    var rest := bs[1..];
    forall a | a in t ensures IsFreeBlock(rest, a) {
      assert a in s && a != bs[0].addr;
      var i :| 0 <= i < |bs| && bs[i].addr == a && bs[i].kind.Free?;
      assert rest[i - 1] == bs[i];
    }
    forall i | 0 <= i < |rest| ensures ListedAt(rest, t, i) {
      assert ListedAt(bs, s, i + 1);
    }
  }

  /** The sum of the sizes on the free list: exactly the bytes of the free blocks. */
  method GetTotalAvailableMemory(h: Heap) returns (total: int)
    requires h.Valid()
    ensures total == FreeBytes(h.blocks) == h.end - h.start - TakenBytes(h.blocks)
  {
    BytesAddUp(h.blocks, h.start, h.end);
    var available := h.freeList;
    total := 0;
    ghost var j := 0;
    FreeListKnown(h);
    while available != NULL
      invariant j <= |h.free| && available == if j < |h.free| then h.free[j] else NULL
      invariant total == SizeSum(h.headers, h.free[..j])
      decreases |h.free| - j
    {
      assert NodeAt(h.headers, h.free, j) && h.free[..j + 1][..j] == h.free[..j];
      total := total + h.headers[available].size;
      available := h.headers[available].forward.free;
      j := j + 1;
    }
    assert h.free[..j] == h.free;
    FreeListBytes(h.headers, h.blocks, h.free, h.start, h.end);
  }

  lemma FreeListKnown(h: Heap)
    requires h.Valid()
    ensures forall i :: 0 <= i < |h.free| ==> h.free[i] in h.headers && h.free[i] != NULL
    ensures forall i :: 0 <= i < |h.blocks| ==> h.blocks[i].addr in h.headers && h.headers[h.blocks[i].addr].size == h.blocks[i].size
  {
    forall i | 0 <= i < |h.free| ensures h.free[i] in h.headers && h.free[i] != NULL {
      assert NodeAt(h.headers, h.free, i);
    }
    forall i | 0 <= i < |h.blocks|
      ensures h.blocks[i].addr in h.headers && h.headers[h.blocks[i].addr].size == h.blocks[i].size
    {
      assert HeaderAt(h.headers, h.blocks, i);
    }
  }

  // ---------- a whole collection ----------

  ghost function MarkedBlocks(g: Graph, roots: seq<int>, pinned: seq<int>, bs: seq<Block>): set<int>
    requires forall o :: o in roots ==> o in g
  {
    set i | 0 <= i < |bs| && Marked(g, roots, pinned, bs[i].addr) :: bs[i].addr
  }

  lemma MarkedColours(g: Graph, hs: Headers, bs: seq<Block>, roots: seq<int>, pinned: seq<int>)
    requires forall o :: o in roots ==> o in g
    requires forall i :: 0 <= i < |bs| ==> MarkedAt(g, hs, bs, roots, pinned, i)
    ensures Coloured(hs, bs, MarkedBlocks(g, roots, pinned, bs))
  {
    var marked := MarkedBlocks(g, roots, pinned, bs);
    forall i | 0 <= i < |bs| ensures ColourAt(hs, bs, marked, i) {
      assert MarkedAt(g, hs, bs, roots, pinned, i);
    }
  }

  /** A root or pinned object, as the mark function takes them. */
  ghost predicate RootsKnown(hs: Headers, bs: seq<Block>, g: Graph, roots: seq<int>, pinned: seq<int>) {
    && Fits(g, hs, bs)
    && (forall o :: o in roots ==> o in g)
    && (forall p :: p in pinned ==> p in hs && !hs[p].kind.Free? && IsBlock(bs, p))
  }

  ghost predicate SurvivorsKept(hs: Headers, bs: seq<Block>, hs': Headers, bs': seq<Block>, black: set<int>) {
    forall b :: b in bs && Referenced(b, black) ==> b in bs' && ContentsKept(hs, hs', b.addr)
  }

  lemma SurvivorsThroughSweep(hs0: Headers, hs1: Headers, hs2: Headers, bs: seq<Block>, bs': seq<Block>, black: set<int>)
    requires forall p :: p in hs0 ==> ContentsKept(hs0, hs1, p)
    requires Kept(hs1, bs, hs2, bs', black) && forall b :: b in bs ==> b.addr in hs0
    ensures SurvivorsKept(hs0, bs, hs2, bs', black)
  {
    forall b | b in bs && Referenced(b, black) ensures b in bs' && ContentsKept(hs0, hs2, b.addr) {
      assert ContentsKept(hs0, hs1, b.addr) && Untouched(hs1, hs2, b);
    }
  }

  lemma SurvivorsThroughSplice(hs0: Headers, hs2: Headers, hs3: Headers, bs: seq<Block>, bs': seq<Block>, black: set<int>,
                               s: seq<int>, start: int, end: int)
    requires SurvivorsKept(hs0, bs, hs2, bs', black) && OnlyLinksDiffer(hs2, hs3, s)
    requires Tiled(bs', start, end) && ListsFree(bs', s)
    ensures SurvivorsKept(hs0, bs, hs3, bs', black)
  {
    forall b | b in bs && Referenced(b, black) ensures b in bs' && ContentsKept(hs0, hs3, b.addr) {
      var i :| 0 <= i < |bs'| && bs'[i] == b;
      NotListed(bs', s, start, end, i);
    }
  }

  // ---------- the objects after a collection ----------

  /** The blocks that a collection leaves alone: the marked ones and the permanent ones. */
  ghost function Survivors(g: Graph, bs: seq<Block>, roots: seq<int>, pinned: seq<int>): set<int>
    requires forall o :: o in roots ==> o in g
  {
    var black := MarkedBlocks(g, roots, pinned, bs);
    set i | 0 <= i < |bs| && Referenced(bs[i], black) :: bs[i].addr
  }

  ghost predicate IsPermanent(bs: seq<Block>, a: int) {
    exists i :: 0 <= i < |bs| && bs[i].addr == a && bs[i].kind.NonCollectible?
  }

  /** The blocks that survive without being scanned refer to survivors only. */
  ghost predicate Covered(g: Graph, bs: seq<Block>, roots: seq<int>, pinned: seq<int>)
    requires forall o :: o in roots ==> o in g
  {
    forall u, c :: (u in Unscanned(g, roots, pinned) || IsPermanent(bs, u)) && Edge(g, u, c) ==>
                     c in Survivors(g, bs, roots, pinned)
  }

  /** What a scanned block refers to is marked with it. */
  lemma ScannedStep(g: Graph, roots: seq<int>, pinned: seq<int>, b: int, c: int)
    requires (forall o :: o in roots ==> o in g) && Marked(g, roots, pinned, b) && b !in Unscanned(g, roots, pinned)
    requires Edge(g, b, c)
    ensures Marked(g, roots, pinned, c)
  {
    var us := Unscanned(g, roots, pinned);
    if c !in pinned {
      if b in pinned {
        var o :| o in roots && Bare(g, o) && BlockOf(g, o) == b;
        assert b in RootBlocks(g, roots);
        ReachableRoot(g, RootBlocks(g, roots), us, b);
      }
      ReachableStep(g, RootBlocks(g, roots), us, b, c);
    }
  }

  lemma MarkedSurvives(g: Graph, bs: seq<Block>, roots: seq<int>, pinned: seq<int>, i: nat)
    requires (forall o :: o in roots ==> o in g) && i < |bs| && !bs[i].kind.Free?
    requires Marked(g, roots, pinned, bs[i].addr) || bs[i].kind.NonCollectible?
    ensures bs[i].addr in Survivors(g, bs, roots, pinned)
  {
    if !bs[i].kind.NonCollectible? {
      assert bs[i].addr in MarkedBlocks(g, roots, pinned, bs);
    }
    assert Referenced(bs[i], MarkedBlocks(g, roots, pinned, bs));
  }

  lemma SurvivorKnown(g: Graph, bs: seq<Block>, roots: seq<int>, pinned: seq<int>, a: int)
    requires (forall o :: o in roots ==> o in g) && a in Survivors(g, bs, roots, pinned)
    ensures IsPermanent(bs, a) || Marked(g, roots, pinned, a)
  {
    var i :| 0 <= i < |bs| && Referenced(bs[i], MarkedBlocks(g, roots, pinned, bs)) && bs[i].addr == a;
  }

  lemma ReferredIsAllocated(g: Graph, hs: Headers, bs: seq<Block>, b: int, c: int) returns (i: nat)
    requires Fits(g, hs, bs) && Represents(hs, bs) && Edge(g, b, c)
    ensures i < |bs| && bs[i].addr == c && !bs[i].kind.Free?
  {
    var o :| o in g && BlockOf(g, o) == b && Refers(g, o, c);
    if k :| 0 <= k < |g[o].fields| && FieldRefers(g, o, k, c) {
      assert BlockOf(g, g[o].fields[k]) == c;
    }
    i := HostIsAllocated(g, hs, bs, c);
  }

  /** Nothing that survives refers to anything that is released, exactly if the blocks that survive
      unscanned do not. */
  lemma CoveredIsClosed(g: Graph, hs: Headers, bs: seq<Block>, roots: seq<int>, pinned: seq<int>)
    requires RootsKnown(hs, bs, g, roots, pinned) && Represents(hs, bs)
    ensures Covered(g, bs, roots, pinned) <==> ClosedUnder(g, Survivors(g, bs, roots, pinned))
  {
    var survivors, us := Survivors(g, bs, roots, pinned), Unscanned(g, roots, pinned);
    forall u | u in us || IsPermanent(bs, u) ensures u in survivors {
      if u in us {
        var i :| 0 <= i < |bs| && bs[i].addr == u;
        assert HeaderAt(hs, bs, i);
        MarkedSurvives(g, bs, roots, pinned, i);
      } else {
        var i :| 0 <= i < |bs| && bs[i].addr == u && bs[i].kind.NonCollectible?;
        MarkedSurvives(g, bs, roots, pinned, i);
      }
    }
    forall b, c | b in survivors && Edge(g, b, c) && b !in us && !IsPermanent(bs, b) ensures c in survivors {
      SurvivorKnown(g, bs, roots, pinned, b);
      ScannedStep(g, roots, pinned, b, c);
      var i := ReferredIsAllocated(g, hs, bs, b, c);
      MarkedSurvives(g, bs, roots, pinned, i);
    }
  }

  lemma SurvivorsCarried(g: Graph, hs: Headers, bs: seq<Block>, hs': Headers, bs': seq<Block>,
                         roots: seq<int>, pinned: seq<int>, start: int, end: int)
    requires (forall o :: o in roots ==> o in g) && Tiled(bs, start, end)
    requires var black := MarkedBlocks(g, roots, pinned, bs);
             bs' == Swept(bs, black) && SurvivorsKept(hs, bs, hs', bs', black)
    ensures Carried(hs, bs, hs', bs', Survivors(g, bs, roots, pinned)) && OldOrAdded(bs, bs', {})
  {
    var black, survivors := MarkedBlocks(g, roots, pinned, bs), Survivors(g, bs, roots, pinned);
    SweptTiled(bs, black, start, end);
    forall i | 0 <= i < |bs| ensures CarriedAt(hs, bs, hs', bs', survivors, i) {
      if !bs[i].kind.Free? && bs[i].addr in survivors {
        var k :| 0 <= k < |bs| && Referenced(bs[k], black) && bs[k].addr == bs[i].addr;
        Apart(bs, start, end, i);
        assert k == i && bs[i] in bs && ContentsKept(hs, hs', bs[i].addr);
      }
    }
    forall j | 0 <= j < |bs'| && !bs'[j].kind.Free? ensures bs'[j] in bs && bs'[j].addr in survivors {
      SweptKeepsReferenced(bs, black, bs'[j]);
      var i :| 0 <= i < |bs| && bs[i] == bs'[j];
    }
  }

  /** The surviving objects fit the collected heap exactly if the survivors are covered. */
  lemma SurvivorsFit(g: Graph, hs: Headers, bs: seq<Block>, hs': Headers, bs': seq<Block>,
                     roots: seq<int>, pinned: seq<int>, start: int, end: int)
    requires RootsKnown(hs, bs, g, roots, pinned) && Represents(hs, bs) && Represents(hs', bs') && Tiled(bs, start, end)
    requires var black := MarkedBlocks(g, roots, pinned, bs);
             bs' == Swept(bs, black) && SurvivorsKept(hs, bs, hs', bs', black)
    ensures Fits(Restricted(g, Survivors(g, bs, roots, pinned)), hs', bs') <==> Covered(g, bs, roots, pinned)
  {
    SurvivorsCarried(g, hs, bs, hs', bs', roots, pinned, start, end);
    RestrictedFits(g, hs, bs, hs', bs', Survivors(g, bs, roots, pinned));
    CoveredIsClosed(g, hs, bs, roots, pinned);
  }

  /** The part of a collection for which all other threads are stopped: marks and sweeps, and returns the
      list of what it has released. Everything that is marked or not collectible keeps its place, size and
      contents; everything else becomes free. The surviving objects fit the heap, exactly if what survives
      unscanned refers to survivors only. */
  method RunGarbageCollection(h: Heap, g: Graph, roots: seq<int>, pinned: seq<int>)
    returns (released: int, last: int, ghost freed: seq<int>)
    requires h.Valid() && RootsKnown(h.headers, h.blocks, g, roots, pinned)
    modifies h
    ensures InOrder(h.start, h.end, h.headers, h.blocks, h.ListsWith(released, last, freed))
    ensures h.headers.Keys == old(h.headers).Keys && Thinned(h.free, old(h.free)) && Descending(freed)
    ensures h.blocks == Swept(old(h.blocks), MarkedBlocks(g, roots, pinned, old(h.blocks)))
    ensures SurvivorsKept(old(h.headers), old(h.blocks), h.headers, h.blocks, MarkedBlocks(g, roots, pinned, old(h.blocks)))
    ensures FreeBytes(h.blocks) == FreeBytes(old(h.blocks)) + WhiteBytes(old(h.blocks), MarkedBlocks(g, roots, pinned, old(h.blocks)))
    ensures Fits(Restricted(g, Survivors(g, old(h.blocks), roots, pinned)), h.headers, h.blocks)
            <==> Covered(g, old(h.blocks), roots, pinned)
  {
    ghost var hs0, bs0 := h.headers, h.blocks;
    ghost var black := MarkedBlocks(g, roots, pinned, bs0);
    JavaMarkFunction(h, g, roots, pinned);
    ghost var hs1 := h.headers;
    MarkedColours(g, hs1, bs0, roots, pinned);
    released, last, freed := Sweep(h, black);
    BlocksInHeaders(hs0, bs0);
    SurvivorsThroughSweep(hs0, hs1, h.headers, bs0, h.blocks, black);
    SweptFreeBytes(bs0, black);
    SurvivorsFit(g, hs0, bs0, h.headers, h.blocks, roots, pinned, h.start, h.end);
  }

  ghost predicate Spliced(hs: Headers, l: Lists, hs': Headers) {
    if l.released == NULL then hs' == hs
    else l.last in hs && (l.head != NULL ==> l.head in hs) && hs' == SplicedHeaders(hs, l.head, l.last)
  }

  /** The part of a collection that takes the heap monitor: splices what was released into the free list. */
  method Splice(h: Heap, released: int, last: int, ghost freed: seq<int>)
    requires InOrder(h.start, h.end, h.headers, h.blocks, h.ListsWith(released, last, freed))
    modifies h`headers, h`freeList, h`free
    ensures h.Valid() && h.free == freed + old(h.free)
    ensures Spliced(old(h.headers), old(h.ListsWith(released, last, freed)), h.headers)
    ensures OnlyLinksDiffer(old(h.headers), h.headers, freed + old(h.free))
  {
    ReleasedKnown(h.headers, released, freed);
    if released != NULL {
      AddToFreeList(h, released, last, freed);
    } else {
      assert h.free + freed == h.free && freed + h.free == h.free;
    }
  }

  /** A collection without any other thread between its two parts: the heap can be used and collected
      again, exactly if what survives unscanned refers to survivors only. */
  method GarbageCollect(h: Heap, g: Graph, roots: seq<int>, pinned: seq<int>)
    requires h.Valid() && RootsKnown(h.headers, h.blocks, g, roots, pinned)
    modifies h
    ensures h.Valid() && h.headers.Keys == old(h.headers).Keys
    ensures exists freed, rest :: h.free == freed + rest && Descending(freed) && Thinned(rest, old(h.free))
    ensures h.blocks == Swept(old(h.blocks), MarkedBlocks(g, roots, pinned, old(h.blocks)))
    ensures SurvivorsKept(old(h.headers), old(h.blocks), h.headers, h.blocks, MarkedBlocks(g, roots, pinned, old(h.blocks)))
    ensures FreeBytes(h.blocks) == FreeBytes(old(h.blocks)) + WhiteBytes(old(h.blocks), MarkedBlocks(g, roots, pinned, old(h.blocks)))
    ensures Fits(Restricted(g, Survivors(g, old(h.blocks), roots, pinned)), h.headers, h.blocks)
            <==> Covered(g, old(h.blocks), roots, pinned)
  {
    ghost var hs0, bs0 := h.headers, h.blocks;
    ghost var freed: seq<int>;
    var released, last: int;
    released, last, freed := RunGarbageCollection(h, g, roots, pinned);
    ghost var hs, free := h.headers, h.free;
    Splice(h, released, last, freed);
    SurvivorsThroughSplice(hs0, hs, h.headers, bs0, h.blocks, MarkedBlocks(g, roots, pinned, bs0), freed + free, h.start, h.end);
    SurvivorsFit(g, hs0, bs0, h.headers, h.blocks, roots, pinned, h.start, h.end);
  }

  lemma BlocksInHeaders(hs: Headers, bs: seq<Block>)
    requires Represents(hs, bs)
    ensures forall b :: b in bs ==> b.addr in hs
  {
    forall b | b in bs ensures b.addr in hs {
      var i :| 0 <= i < |bs| && bs[i] == b;
      assert HeaderAt(hs, bs, i);
    }
  }

  lemma ReleasedKnown(hs: Headers, released: int, freed: seq<int>)
    requires IsList(hs, released, freed)
    ensures released == NULL <==> freed == []
  {
    if freed != [] {
      assert NodeAt(hs, freed, 0);
    }
  }

  /** Allocates, and collects garbage once if no free block is large enough at first. Block k of the heap
      as it was, or as the collection left it, is the one that the allocation comes from. */
  method MemoryAlloc(h: Heap, g: Graph, roots: seq<int>, pinned: seq<int>, numBytes: nat) returns (ok: bool, mem: int, ghost k: nat)
    requires h.Valid() && RootsKnown(h.headers, h.blocks, g, roots, pinned) && numBytes < UINT32_LIMIT
    modifies h
    ensures h.Valid()
    ensures var swept := Swept(old(h.blocks), MarkedBlocks(g, roots, pinned, old(h.blocks)));
            && (ok <==> HasFit(old(h.blocks), [], RequiredSize(numBytes)) || HasFit(swept, [], RequiredSize(numBytes)))
            && (!ok ==> mem == NULL && h.blocks == swept)
            && (ok ==> TakenFrom(if HasFit(old(h.blocks), [], RequiredSize(numBytes)) then old(h.blocks) else swept,
                               h.blocks, k, RequiredSize(numBytes), mem))
    ensures if HasFit(old(h.blocks), [], RequiredSize(numBytes)) then Fits(g, h.headers, h.blocks)
            else Covered(g, old(h.blocks), roots, pinned) ==>
                   Fits(Restricted(g, Survivors(g, old(h.blocks), roots, pinned)), h.headers, h.blocks)
  {
    ghost var hs, bs := h.headers, h.blocks;
    NoneReleased(h);
    ok, mem, k := AllocateBlock(h, numBytes, NonCollectible, 0, 0, NULL, []);
    NoneReleased(h);
    if ok {
      AllocatedFits(g, hs, bs, h.headers, h.blocks, k, RequiredSize(numBytes), NonCollectible);
    } else {
      GarbageCollect(h, g, roots, pinned);
      hs, bs := h.headers, h.blocks;
      ghost var survivors := Restricted(g, Survivors(g, old(h.blocks), roots, pinned));
      NoneReleased(h);
      ok, mem, k := AllocateBlock(h, numBytes, NonCollectible, 0, 0, NULL, []);
      NoneReleased(h);
      if ok && Fits(survivors, hs, bs) {
        AllocatedFits(survivors, hs, bs, h.headers, h.blocks, k, RequiredSize(numBytes), NonCollectible);
      }
    }
  }

  /** The contents of the granted block start at mem. */
  ghost predicate TakenFrom(bs: seq<Block>, bs': seq<Block>, k: nat, required: int, mem: int) {
    && k < |bs| && bs[k].kind.Free? && MIN_BLOCK_SIZE <= required <= bs[k].size
    && bs' == Allocated(bs, k, required, NonCollectible)
    && mem == bs'[AllocatedIndex(bs, k, required)].addr + HEADER_SIZE
  }
}
