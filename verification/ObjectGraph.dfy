/** The objects of the Java heap as the marker sees them, and reachability between their blocks. */
module ObjectGraph {
  import opened Basics
  import opened HeapBlocks
  import opened Heap

  const FIELD_SIZE := 4
  const FIELD_COUNT_LIMIT := 0x1_0000

  datatype Shape = Instance | ReferenceArray | PrimitiveArray

  /** The references an object holds, and its monitor, which is a pointer to the contents of a block. */
  datatype Object = Object(shape: Shape, fields: seq<int>, monitor: int)

  /** The objects by object pointer. */
  type Graph = map<int, Object>

  /** The block of an object: the object fields of an instance lie between the block header and the
      object pointer, an array pointer follows the block header directly. */
  function BlockOf(g: Graph, o: int): int
    requires o in g
  {
    if g[o].shape.Instance? then o - FIELD_SIZE * |g[o].fields| - HEADER_SIZE else o - HEADER_SIZE
  }

  function BlockOfMonitor(monitor: int): int {
    monitor - HEADER_SIZE
  }

  /** The object pointer of a block with object fields, computed from its header alone. */
  function ObjectIn(p: int, h: Header): int
    requires h.forward.Indices?
  {
    if h.kind.ObjectWithFields? then p + HEADER_SIZE + FIELD_SIZE * h.forward.contained else p + HEADER_SIZE
  }

  /** Object o lies in a block of the right kind that is large enough for its references, and whose
      header knows how many there are.
      Permanent objects hold no references, and a monitor is not an object. */
  ghost predicate ObjectHosted(g: Graph, hs: Headers, o: int)
    requires o in g
  {
    var b := BlockOf(g, o);
    && b != NULL && b in hs && |g[o].fields| < FIELD_COUNT_LIMIT && HEADER_SIZE + FIELD_SIZE * |g[o].fields| <= hs[b].size
    && (g[o].shape.PrimitiveArray? ==> g[o].fields == [])
    && (match hs[b].kind
        case Free => false
        case NonCollectible => g[o].fields == []
        case Plain => g[o].fields == []
        case ObjectWithFields => g[o].shape.Instance? && g[o].fields != [] && hs[b].forward.Indices? && hs[b].forward.contained == |g[o].fields|
        case ObjectArray => g[o].shape.ReferenceArray? && g[o].fields != [] && hs[b].forward.Indices? && hs[b].forward.contained == |g[o].fields|)
    && (forall i :: 0 <= i < |g[o].fields| ==> g[o].fields[i] == NULL || g[o].fields[i] in g)
    && (g[o].monitor != NULL ==>
         && g[o].monitor !in g && BlockOfMonitor(g[o].monitor) in hs
         && (hs[BlockOfMonitor(g[o].monitor)].kind.Plain? || hs[BlockOfMonitor(g[o].monitor)].kind.NonCollectible?))
  }

  ghost predicate BlockHosts(g: Graph, hs: Headers, p: int)
    requires p in hs
  {
    (hs[p].kind.ObjectWithFields? || hs[p].kind.ObjectArray?) && hs[p].forward.Indices? ==>
      ObjectIn(p, hs[p]) in g && BlockOf(g, ObjectIn(p, hs[p])) == p
  }

  ghost predicate Hosted(g: Graph, hs: Headers) {
    NULL !in g && forall o :: o in g ==> ObjectHosted(g, hs, o)
  }

  ghost predicate IsBlock(bs: seq<Block>, a: int) {
    exists i :: 0 <= i < |bs| && bs[i].addr == a
  }

  /** The objects and their monitors lie in blocks of the heap. */
  ghost predicate InBlocks(g: Graph, bs: seq<Block>) {
    forall o :: o in g ==> IsBlock(bs, BlockOf(g, o)) && (g[o].monitor != NULL ==> IsBlock(bs, BlockOfMonitor(g[o].monitor)))
  }

  ghost predicate BlockHostsAt(g: Graph, hs: Headers, bs: seq<Block>, i: nat)
    requires i < |bs|
  {
    bs[i].addr in hs ==> BlockHosts(g, hs, bs[i].addr)
  }

  /** The objects and the blocks of the heap fit together. Headers that earlier joins have left inside
      other blocks do not matter. */
  ghost predicate Fits(g: Graph, hs: Headers, bs: seq<Block>) {
    Hosted(g, hs) && InBlocks(g, bs) && forall i :: 0 <= i < |bs| ==> BlockHostsAt(g, hs, bs, i)
  }

  /** A block holds at most one object. */
  lemma OneObject(g: Graph, hs: Headers, o: int, o': int)
    requires Hosted(g, hs) && o in g && o' in g && BlockOf(g, o) == BlockOf(g, o')
    ensures o == o'
  {
    assert ObjectHosted(g, hs, o) && ObjectHosted(g, hs, o');
  }

  // ---------- reachability ----------

  /** Field i of object o refers to an object in block c. */
  ghost predicate FieldRefers(g: Graph, o: int, i: nat, c: int)
    requires o in g && i < |g[o].fields|
  {
    g[o].fields[i] != NULL && g[o].fields[i] in g && BlockOf(g, g[o].fields[i]) == c
  }

  ghost predicate Refers(g: Graph, o: int, c: int)
    requires o in g
  {
    || (exists i :: 0 <= i < |g[o].fields| && FieldRefers(g, o, i, c))
    || (g[o].monitor != NULL && BlockOfMonitor(g[o].monitor) == c)
  }

  ghost predicate Edge(g: Graph, b: int, c: int) {
    exists o :: o in g && BlockOf(g, o) == b && Refers(g, o, c)
  }

  /** A path from block to block along object fields and monitors that avoids a set of blocks. */
  ghost predicate IsPath(g: Graph, p: seq<int>, avoid: set<int>) {
    && p != []
    && (forall i :: 0 <= i < |p| ==> p[i] !in avoid)
    && (forall i :: 0 <= i < |p| - 1 ==> Step(g, p, i))
  }

  ghost predicate Step(g: Graph, p: seq<int>, i: nat)
    requires i + 1 < |p|
  {
    Edge(g, p[i], p[i + 1])
  }

  ghost predicate ReachableAvoiding(g: Graph, roots: set<int>, avoid: set<int>, b: int) {
    exists p :: IsPath(g, p, avoid) && p[0] in roots && p[|p| - 1] == b
  }

  ghost predicate Reachable(g: Graph, roots: set<int>, b: int) {
    ReachableAvoiding(g, roots, {}, b)
  }

  lemma ReachableRoot(g: Graph, roots: set<int>, avoid: set<int>, b: int)
    requires b in roots && b !in avoid
    ensures ReachableAvoiding(g, roots, avoid, b)
  {
    assert IsPath(g, [b], avoid);
  }

  lemma ReachableStep(g: Graph, roots: set<int>, avoid: set<int>, b: int, c: int)
    requires ReachableAvoiding(g, roots, avoid, b) && Edge(g, b, c) && c !in avoid
    ensures ReachableAvoiding(g, roots, avoid, c)
  {
    var p :| IsPath(g, p, avoid) && p[0] in roots && p[|p| - 1] == b;
    var q := p + [c];
    forall i | 0 <= i < |q| - 1 ensures Step(g, q, i) {
      if i < |p| - 1 {
        assert Step(g, p, i);
      }
    }
    assert IsPath(g, q, avoid);
  }

  /** A set that holds the roots and is closed under edges holds everything reachable. */
  lemma {:induction false} ReachableInClosed(g: Graph, roots: set<int>, avoid: set<int>, closed: set<int>, p: seq<int>)
    requires IsPath(g, p, avoid) && p[0] in roots
    requires forall b :: b in roots && b !in avoid ==> b in closed
    requires forall b, c :: b in closed && b !in avoid && c !in avoid && Edge(g, b, c) ==> c in closed
    ensures p[|p| - 1] in closed
  {
    if |p| > 1 {
      var q := p[..|p| - 1];
      forall i | 0 <= i < |q| - 1 ensures Step(g, q, i) {
        assert Step(g, p, i);
      }
      ReachableInClosed(g, roots, avoid, closed, q);
      assert q[|q| - 1] == p[|p| - 2] && p[|p| - 1] !in avoid;
      assert Step(g, p, |p| - 2) && Edge(g, p[|p| - 2], p[|p| - 1]);
    }
  }
}
