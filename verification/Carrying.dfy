/** When the objects of the heap still fit it after some of its blocks have gone. Allocation, release
    and collection are all instances. */
module Carrying {
  import opened Basics
  import opened HeapBlocks
  import opened Heap
  import opened ObjectGraph

  /** The objects whose blocks are kept. */
  ghost function Restricted(g: Graph, kept: set<int>): Graph {
    map o | o in g && BlockOf(g, o) in kept :: g[o]
  }

  /** A kept block refers to kept blocks only. */
  ghost predicate ClosedUnder(g: Graph, kept: set<int>) {
    forall b, c :: b in kept && Edge(g, b, c) ==> c in kept
  }

  /** The header of a says the same about the objects of its block. */
  ghost predicate SameHost(hs: Headers, hs': Headers, a: int) {
    && a in hs && a in hs' && hs'[a].size == hs[a].size && hs'[a].kind == hs[a].kind
    && (hs[a].kind.Collectible() && hs[a].forward.Indices? ==>
         hs'[a].forward.Indices? && hs'[a].forward.contained == hs[a].forward.contained)
  }

  ghost predicate CarriedAt(hs: Headers, bs: seq<Block>, hs': Headers, bs': seq<Block>, kept: set<int>, i: nat)
    requires i < |bs|
  {
    !bs[i].kind.Free? && bs[i].addr in kept ==> IsBlock(bs', bs[i].addr) && SameHost(hs, hs', bs[i].addr)
  }

  /** The kept allocated blocks are blocks again, and every allocated block is a kept one. */
  ghost predicate Carried(hs: Headers, bs: seq<Block>, hs': Headers, bs': seq<Block>, kept: set<int>) {
    && (forall i :: 0 <= i < |bs| ==> CarriedAt(hs, bs, hs', bs', kept, i))
    && (forall i :: 0 <= i < |bs'| && !bs'[i].kind.Free? ==> bs'[i].addr in kept)
  }

  /** The blocks of an object and of its monitor are allocated blocks of the heap. */
  lemma HostIsAllocated(g: Graph, hs: Headers, bs: seq<Block>, a: int) returns (i: nat)
    requires Hosted(g, hs) && InBlocks(g, bs) && Represents(hs, bs)
    requires exists o :: o in g && (BlockOf(g, o) == a || (g[o].monitor != NULL && BlockOfMonitor(g[o].monitor) == a))
    ensures i < |bs| && bs[i].addr == a && !bs[i].kind.Free?
  {
    var o :| o in g && (BlockOf(g, o) == a || (g[o].monitor != NULL && BlockOfMonitor(g[o].monitor) == a));
    assert ObjectHosted(g, hs, o) && IsBlock(bs, a);
    i :| i < |bs| && bs[i].addr == a;
    assert HeaderAt(hs, bs, i);
  }

  lemma KeptEdge(g: Graph, hs: Headers, bs: seq<Block>, kept: set<int>, o: int, c: int)
    requires ClosedUnder(g, kept) && o in g && BlockOf(g, o) in kept && Refers(g, o, c)
    ensures c in kept
  {
    assert Edge(g, BlockOf(g, o), c);
  }

  lemma CarriedHost(g: Graph, hs: Headers, bs: seq<Block>, hs': Headers, bs': seq<Block>, kept: set<int>, a: int)
    requires Hosted(g, hs) && InBlocks(g, bs) && Represents(hs, bs) && Carried(hs, bs, hs', bs', kept) && a in kept
    requires exists o :: o in g && (BlockOf(g, o) == a || (g[o].monitor != NULL && BlockOfMonitor(g[o].monitor) == a))
    ensures IsBlock(bs', a) && SameHost(hs, hs', a)
  {
    var i := HostIsAllocated(g, hs, bs, a);
    assert CarriedAt(hs, bs, hs', bs', kept, i);
  }

  lemma CarriedHosted(g: Graph, hs: Headers, bs: seq<Block>, hs': Headers, bs': seq<Block>, kept: set<int>, o: int)
    requires Hosted(g, hs) && InBlocks(g, bs) && Represents(hs, bs) && Carried(hs, bs, hs', bs', kept)
    requires ClosedUnder(g, kept) && o in g && BlockOf(g, o) in kept
    ensures ObjectHosted(Restricted(g, kept), hs', o)
    ensures IsBlock(bs', BlockOf(g, o)) && (g[o].monitor != NULL ==> IsBlock(bs', BlockOfMonitor(g[o].monitor)))
  {
    var r := Restricted(g, kept);
    assert ObjectHosted(g, hs, o);
    CarriedHost(g, hs, bs, hs', bs', kept, BlockOf(g, o));
    if g[o].monitor != NULL {
      var m := BlockOfMonitor(g[o].monitor);
      KeptEdge(g, hs, bs, kept, o, m);
      CarriedHost(g, hs, bs, hs', bs', kept, m);
    }
    forall i | 0 <= i < |g[o].fields| ensures g[o].fields[i] == NULL || g[o].fields[i] in r {
      if g[o].fields[i] != NULL {
        var c := BlockOf(g, g[o].fields[i]);
        assert FieldRefers(g, o, i, c);
        KeptEdge(g, hs, bs, kept, o, c);
      }
    }
  }

  /** Nothing kept may refer to anything that is not kept, for then it would dangle. */
  lemma FittingIsClosed(g: Graph, hs: Headers, bs: seq<Block>, hs': Headers, bs': seq<Block>, kept: set<int>)
    requires Hosted(g, hs) && Represents(hs', bs') && Carried(hs, bs, hs', bs', kept)
    requires var r := Restricted(g, kept); Hosted(r, hs') && InBlocks(r, bs')
    ensures ClosedUnder(g, kept)
  {
    var r := Restricted(g, kept);
    forall b, c | b in kept && Edge(g, b, c) ensures c in kept {
      var o :| o in g && BlockOf(g, o) == b && Refers(g, o, c);
      assert ObjectHosted(r, hs', o) && r[o] == g[o];
      if i :| 0 <= i < |g[o].fields| && FieldRefers(g, o, i, c) {
        assert g[o].fields[i] in r;
      } else {
        var i := HostIsAllocated(r, hs', bs', c);
      }
    }
  }

  /** The objects in the kept blocks are hosted again exactly if no kept block refers to one that is
      not kept. */
  lemma RestrictedHosted(g: Graph, hs: Headers, bs: seq<Block>, hs': Headers, bs': seq<Block>, kept: set<int>)
    requires Hosted(g, hs) && InBlocks(g, bs) && Represents(hs, bs) && Represents(hs', bs')
    requires Carried(hs, bs, hs', bs', kept)
    ensures Hosted(Restricted(g, kept), hs') && InBlocks(Restricted(g, kept), bs') <==> ClosedUnder(g, kept)
  {
    var r := Restricted(g, kept);
    if ClosedUnder(g, kept) {
      forall o | o in r
        ensures ObjectHosted(r, hs', o) && IsBlock(bs', BlockOf(r, o))
        ensures r[o].monitor != NULL ==> IsBlock(bs', BlockOfMonitor(r[o].monitor))
      {
        CarriedHosted(g, hs, bs, hs', bs', kept, o);
      }
    } else if Hosted(r, hs') && InBlocks(r, bs') {
      FittingIsClosed(g, hs, bs, hs', bs', kept);
    }
  }

  /** A kept block with object fields still has its object. */
  lemma CarriedBlockHosts(g: Graph, hs: Headers, bs: seq<Block>, hs': Headers, bs': seq<Block>, kept: set<int>, i: nat, j: nat)
    requires Represents(hs, bs) && i < |bs| && j < |bs'| && bs'[j] == bs[i] && bs[i].addr in kept
    requires BlockHostsAt(g, hs, bs, i) && !bs[i].kind.Free? && CarriedAt(hs, bs, hs', bs', kept, i)
    ensures BlockHostsAt(Restricted(g, kept), hs', bs', j)
  {
    assert HeaderAt(hs, bs, i);
  }

  /** Every allocated block was there before, unless it lies at one of the given addresses. */
  ghost predicate OldOrAdded(bs: seq<Block>, bs': seq<Block>, added: set<int>) {
    forall j :: 0 <= j < |bs'| && !bs'[j].kind.Free? && bs'[j].addr !in added ==> bs'[j] in bs
  }

  lemma RestrictedHosts(g: Graph, hs: Headers, bs: seq<Block>, hs': Headers, bs': seq<Block>, kept: set<int>, added: set<int>)
    requires Fits(g, hs, bs) && Represents(hs, bs) && Represents(hs', bs')
    requires Carried(hs, bs, hs', bs', kept) && OldOrAdded(bs, bs', added)
    ensures forall j :: 0 <= j < |bs'| && bs'[j].addr !in added ==> BlockHostsAt(Restricted(g, kept), hs', bs', j)
  {
    forall j | 0 <= j < |bs'| && bs'[j].addr !in added ensures BlockHostsAt(Restricted(g, kept), hs', bs', j) {
      assert HeaderAt(hs', bs', j);
      if !bs'[j].kind.Free? {
        var i :| 0 <= i < |bs| && bs[i] == bs'[j];
        assert CarriedAt(hs, bs, hs', bs', kept, i) && BlockHostsAt(g, hs, bs, i);
        CarriedBlockHosts(g, hs, bs, hs', bs', kept, i, j);
      }
    }
  }

  /** After blocks have gone, the objects in the others fit the heap exactly if none of them refers to
      what has gone. */
  lemma RestrictedFits(g: Graph, hs: Headers, bs: seq<Block>, hs': Headers, bs': seq<Block>, kept: set<int>)
    requires Fits(g, hs, bs) && Represents(hs, bs) && Represents(hs', bs')
    requires Carried(hs, bs, hs', bs', kept) && OldOrAdded(bs, bs', {})
    ensures Fits(Restricted(g, kept), hs', bs') <==> ClosedUnder(g, kept)
  {
    RestrictedHosted(g, hs, bs, hs', bs', kept);
    RestrictedHosts(g, hs, bs, hs', bs', kept, {});
  }

  // ---------- allocation ----------

  ghost function Occupied(bs: seq<Block>): set<int> {
    set i | 0 <= i < |bs| && !bs[i].kind.Free? :: bs[i].addr
  }

  /** bs' and hs' are the heap after an allocation from block k. */
  ghost predicate AllocatedFrom(hs: Headers, bs: seq<Block>, hs': Headers, bs': seq<Block>, k: nat, required: int, kind: Kind) {
    && k < |bs| && MIN_BLOCK_SIZE <= required <= bs[k].size && bs[k].kind.Free? && !kind.Free?
    && bs' == Allocated(bs, k, required, kind) && AllocatedUntouched(hs, hs', bs)
  }

  lemma AllocatedAt(bs: seq<Block>, k: nat, required: int, kind: Kind, i: nat)
    requires k < |bs| && MIN_BLOCK_SIZE <= required <= bs[k].size && i < |bs| && i != k
    ensures bs[i] in Allocated(bs, k, required, kind)
  {
    assert Allocated(bs, k, required, kind)[if i < k then i else i + AllocatedIndex(bs, k, required) - k] == bs[i];
  }

  lemma AllocatedCarried(hs: Headers, bs: seq<Block>, hs': Headers, bs': seq<Block>, k: nat, required: int, kind: Kind)
    requires AllocatedFrom(hs, bs, hs', bs', k, required, kind) && Represents(hs, bs)
    ensures Carried(hs, bs, hs', bs', Occupied(bs'))
    ensures OldOrAdded(bs, bs', {bs'[AllocatedIndex(bs, k, required)].addr})
  {
    var n := AllocatedIndex(bs, k, required);
    forall i | 0 <= i < |bs| ensures CarriedAt(hs, bs, hs', bs', Occupied(bs'), i) {
      if !bs[i].kind.Free? {
        AllocatedAt(bs, k, required, kind, i);
        assert HeaderAt(hs, bs, i) && UntouchedAt(hs, hs', bs, i);
      }
    }
    forall j | 0 <= j < |bs'| && !bs'[j].kind.Free? && j != n ensures bs'[j] in bs {
      assert j > n ==> bs'[j] == bs[j - n + k];
    }
  }

  /** An allocation leaves every object where it is. */
  lemma AllocatedHosts(g: Graph, hs: Headers, bs: seq<Block>, hs': Headers, bs': seq<Block>, k: nat, required: int, kind: Kind)
    requires AllocatedFrom(hs, bs, hs', bs', k, required, kind) && Represents(hs, bs) && Represents(hs', bs')
    requires Fits(g, hs, bs)
    ensures Hosted(g, hs') && InBlocks(g, bs')
    ensures var q := bs'[AllocatedIndex(bs, k, required)].addr;
            forall j :: 0 <= j < |bs'| && bs'[j].addr != q ==> BlockHostsAt(g, hs', bs', j)
  {
    var kept, q := Occupied(bs'), bs'[AllocatedIndex(bs, k, required)].addr;
    AllocatedCarried(hs, bs, hs', bs', k, required, kind);
    forall a | exists o :: o in g && (BlockOf(g, o) == a || (g[o].monitor != NULL && BlockOfMonitor(g[o].monitor) == a))
      ensures a in kept
    {
      var i := HostIsAllocated(g, hs, bs, a);
      AllocatedAt(bs, k, required, kind, i);
    }
    AllTargetsKept(g, kept);
    RestrictedHosted(g, hs, bs, hs', bs', kept);
    RestrictedHosts(g, hs, bs, hs', bs', kept, {q});
  }

  lemma AllTargetsKept(g: Graph, kept: set<int>)
    requires forall o :: o in g ==> BlockOf(g, o) in kept && (g[o].monitor != NULL ==> BlockOfMonitor(g[o].monitor) in kept)
    ensures ClosedUnder(g, kept) && Restricted(g, kept) == g
  {
    forall b, c | b in kept && Edge(g, b, c) ensures c in kept {
      var o :| o in g && BlockOf(g, o) == b && Refers(g, o, c);
    }
  }

  /** An allocation without an object keeps the heap fitting. */
  lemma AllocatedFits(g: Graph, hs: Headers, bs: seq<Block>, hs': Headers, bs': seq<Block>, k: nat, required: int, kind: Kind)
    requires AllocatedFrom(hs, bs, hs', bs', k, required, kind) && Represents(hs, bs) && Represents(hs', bs')
    requires Fits(g, hs, bs) && (kind.NonCollectible? || kind.Plain?)
    ensures Fits(g, hs', bs')
  {
    AllocatedHosts(g, hs, bs, hs', bs', k, required, kind);
    assert HeaderAt(hs', bs', AllocatedIndex(bs, k, required));
    forall j | 0 <= j < |bs'| ensures BlockHostsAt(g, hs', bs', j) {
    }
  }

  /** A new object: all its references are NULL, and it has no monitor. */
  function NewObject(shape: Shape, count: nat): Object {
    Object(shape, seq(count, _ => NULL), NULL)
  }

  /** The kind of block that a new object is put in, as the allocating functions choose it. */
  function KindFor(shape: Shape, count: nat, permanent: bool): Kind {
    if permanent then NonCollectible
    else if count == 0 then Plain
    else if shape.Instance? then ObjectWithFields
    else ObjectArray
  }

  /** Every object that is not permanent can be collected, and its references are followed if it has any. */
  lemma NewObjectIs(shape: Shape, count: nat, permanent: bool)
    ensures var kind := KindFor(shape, count, permanent);
            && (kind.Collectible() <==> !permanent) && !kind.Free?
            && (kind.ObjectWithFields? || kind.ObjectArray? <==> !permanent && count > 0)
            && (kind.ObjectWithFields? ==> shape.Instance?) && (kind.ObjectArray? ==> !shape.Instance?)
    ensures var o := NewObject(shape, count);
            o.shape == shape && |o.fields| == count && o.monitor == NULL && forall i :: 0 <= i < count ==> o.fields[i] == NULL
  {
  }

  function FieldBytes(shape: Shape, count: nat): nat {
    if shape.Instance? then FIELD_SIZE * count else 0
  }

  /** Block i of the tiled heap holds pointer p between its header and its end. */
  ghost predicate Holds(bs: seq<Block>, i: nat, p: int)
    requires i < |bs|
  {
    bs[i].addr < p <= bs[i].End()
  }

  lemma HeldOnce(bs: seq<Block>, start: int, end: int, i: nat, j: nat, p: int)
    requires Tiled(bs, start, end) && i < |bs| && j < |bs| && Holds(bs, i, p) && Holds(bs, j, p)
    ensures i == j
  {
    if i < j {
      TiledPair(bs, start, end, i, j);
    } else if j < i {
      TiledPair(bs, start, end, j, i);
    }
  }

  /** Every object pointer and every monitor lies in its own block. */
  lemma PointerHeld(g: Graph, hs: Headers, bs: seq<Block>, start: int, end: int, o: int, p: int) returns (i: nat)
    requires Hosted(g, hs) && InBlocks(g, bs) && Represents(hs, bs) && Tiled(bs, start, end)
    requires o in g && (p == o || (g[o].monitor != NULL && p == g[o].monitor))
    ensures i < |bs| && Holds(bs, i, p) && bs[i].addr == if p == o then BlockOf(g, o) else BlockOfMonitor(g[o].monitor)
  {
    assert ObjectHosted(g, hs, o);
    i := HostIsAllocated(g, hs, bs, if p == o then BlockOf(g, o) else BlockOfMonitor(g[o].monitor));
    assert HeaderAt(hs, bs, i);
    TiledBounds(bs, start, end, i);
  }

  /** No object and no monitor lies in block a. */
  ghost predicate Vacant(g: Graph, a: int) {
    forall o :: o in g ==> BlockOf(g, o) != a && (g[o].monitor != NULL ==> BlockOfMonitor(g[o].monitor) != a)
  }

  /** Block n is allocated for an object at o that is not in the graph yet. */
  ghost predicate ReadyFor(hs: Headers, bs: seq<Block>, n: nat, o: int, shape: Shape, count: nat, permanent: bool) {
    && n < |bs| && bs[n].addr in hs && count < FIELD_COUNT_LIMIT
    && (permanent || shape.PrimitiveArray? ==> count == 0)
    && bs[n].kind == KindFor(shape, count, permanent)
    && (count > 0 ==> hs[bs[n].addr].forward.Indices? && hs[bs[n].addr].forward.contained == count)
    && o == bs[n].addr + HEADER_SIZE + FieldBytes(shape, count) && HEADER_SIZE + FIELD_SIZE * count <= bs[n].size
  }

  lemma PlacedApart(g: Graph, hs: Headers, bs: seq<Block>, start: int, end: int, n: nat, o: int)
    requires Hosted(g, hs) && InBlocks(g, bs) && Represents(hs, bs) && Tiled(bs, start, end)
    requires n < |bs| && Holds(bs, n, o) && Vacant(g, bs[n].addr)
    ensures o !in g && forall o' :: o' in g ==> g[o'].monitor != o || o == NULL
  {
    if o in g {
      var i := PointerHeld(g, hs, bs, start, end, o, o);
      HeldOnce(bs, start, end, i, n, o);
    }
    forall o' | o' in g && o != NULL ensures g[o'].monitor != o {
      if g[o'].monitor == o {
        assert ObjectHosted(g, hs, o');
        var i := PointerHeld(g, hs, bs, start, end, o', o);
        HeldOnce(bs, start, end, i, n, o);
      }
    }
  }

  /** A new object fits into the block that was allocated for it. */
  lemma PlacedFits(g: Graph, hs: Headers, bs: seq<Block>, start: int, end: int,
                   n: nat, o: int, shape: Shape, count: nat, permanent: bool)
    requires Hosted(g, hs) && InBlocks(g, bs) && Represents(hs, bs) && Tiled(bs, start, end) && 0 < start
    requires ReadyFor(hs, bs, n, o, shape, count, permanent) && Vacant(g, bs[n].addr)
    requires forall j :: 0 <= j < |bs| && bs[j].addr != bs[n].addr ==> BlockHostsAt(g, hs, bs, j)
    ensures o !in g && Fits(g[o := NewObject(shape, count)], hs, bs)
  {
    var g' := g[o := NewObject(shape, count)];
    TiledBounds(bs, start, end, n);
    PlacedApart(g, hs, bs, start, end, n, o);
    assert HeaderAt(hs, bs, n) && BlockOf(g', o) == bs[n].addr;
    forall o' | o' in g' ensures ObjectHosted(g', hs, o') {
      assert o' in g ==> ObjectHosted(g, hs, o');
    }
    forall o' | o' in g'
      ensures IsBlock(bs, BlockOf(g', o')) && (g'[o'].monitor != NULL ==> IsBlock(bs, BlockOfMonitor(g'[o'].monitor)))
    {
      assert o' in g ==> IsBlock(bs, BlockOf(g, o'));
    }
    forall j | 0 <= j < |bs| ensures BlockHostsAt(g', hs, bs, j) {
      assert bs[j].addr != bs[n].addr ==> BlockHostsAt(g, hs, bs, j);
    }
  }

  lemma AllocatedVacant(g: Graph, hs: Headers, bs: seq<Block>, k: nat, required: int, kind: Kind, start: int, end: int)
    requires Hosted(g, hs) && InBlocks(g, bs) && Represents(hs, bs) && Tiled(bs, start, end)
    requires k < |bs| && bs[k].kind.Free? && MIN_BLOCK_SIZE <= required <= bs[k].size
    ensures Vacant(g, Allocated(bs, k, required, kind)[AllocatedIndex(bs, k, required)].addr)
  {
    var q := Allocated(bs, k, required, kind)[AllocatedIndex(bs, k, required)].addr;
    Apart(bs, start, end, k);
    forall o | o in g ensures BlockOf(g, o) != q && (g[o].monitor != NULL ==> BlockOfMonitor(g[o].monitor) != q) {
      if BlockOf(g, o) == q || (g[o].monitor != NULL && BlockOfMonitor(g[o].monitor) == q) {
        var i := HostIsAllocated(g, hs, bs, q);
      }
    }
  }

  /** Allocating a block for an object and putting the object there keeps the heap fitting. */
  lemma ObjectFits(g: Graph, hs: Headers, bs: seq<Block>, hs': Headers, bs': seq<Block>, k: nat, required: int,
                   start: int, end: int, o: int, shape: Shape, count: nat, permanent: bool)
    requires AllocatedFrom(hs, bs, hs', bs', k, required, KindFor(shape, count, permanent))
    requires Represents(hs, bs) && Represents(hs', bs') && Tiled(bs, start, end) && Tiled(bs', start, end) && 0 < start
    requires Fits(g, hs, bs) && ReadyFor(hs', bs', AllocatedIndex(bs, k, required), o, shape, count, permanent)
    ensures o !in g && Fits(g[o := NewObject(shape, count)], hs', bs')
  {
    var kind := KindFor(shape, count, permanent);
    AllocatedHosts(g, hs, bs, hs', bs', k, required, kind);
    AllocatedVacant(g, hs, bs, k, required, kind, start, end);
    PlacedFits(g, hs', bs', start, end, AllocatedIndex(bs, k, required), o, shape, count, permanent);
  }

  // ---------- release ----------

  lemma ReleasedWas(bs: seq<Block>, k: nat, j: nat)
    requires k < |bs| && j < |Released(bs, k)| && j != RunStart(bs, k)
    ensures var i := if j < RunStart(bs, k) then j else j - RunStart(bs, k) - 1 + RunEnd(bs, k);
            i < |bs| && i != k && Released(bs, k)[j] == bs[i]
  {
  }

  lemma ReleasedHas(bs: seq<Block>, k: nat, i: nat)
    requires k < |bs| && i < |bs| && (i < RunStart(bs, k) || i >= RunEnd(bs, k))
    ensures bs[i] in Released(bs, k)
  {
    assert Released(bs, k)[if i < RunStart(bs, k) then i else i - RunEnd(bs, k) + RunStart(bs, k) + 1] == bs[i];
  }

  lemma ReleasedMembers(bs: seq<Block>, k: nat, b: Block)
    requires k < |bs| && !bs[k].kind.Free? && !b.kind.Free?
    ensures b in Released(bs, k) ==> exists i :: 0 <= i < |bs| && i != k && bs[i] == b
    ensures (exists i :: 0 <= i < |bs| && i != k && bs[i] == b) ==> b in Released(bs, k)
  {
    if b in Released(bs, k) {
      var j :| 0 <= j < |Released(bs, k)| && Released(bs, k)[j] == b;
      assert Released(bs, k)[RunStart(bs, k)].kind.Free?;
      ReleasedWas(bs, k, j);
    }
    if i :| 0 <= i < |bs| && i != k && bs[i] == b {
      ReleasedHas(bs, k, i);
    }
  }

  lemma ReleasedCarried(hs: Headers, bs: seq<Block>, hs': Headers, bs': seq<Block>, k: nat, start: int, end: int)
    requires Tiled(bs, start, end) && Represents(hs, bs) && k < |bs| && !bs[k].kind.Free? && bs' == Released(bs, k)
    requires forall i :: 0 <= i < |bs| && i != k && !bs[i].kind.Free? ==> UntouchedAt(hs, hs', bs, i)
    ensures Carried(hs, bs, hs', bs', Occupied(bs) - {bs[k].addr}) && OldOrAdded(bs, bs', {})
  {
    var kept := Occupied(bs) - {bs[k].addr};
    forall i | 0 <= i < |bs| ensures CarriedAt(hs, bs, hs', bs', kept, i) {
      if !bs[i].kind.Free? && i != k {
        ReleasedMembers(bs, k, bs[i]);
        assert HeaderAt(hs, bs, i) && UntouchedAt(hs, hs', bs, i);
      }
    }
    Apart(bs, start, end, k);
    forall j | 0 <= j < |bs'| && !bs'[j].kind.Free? ensures bs'[j] in bs && bs'[j].addr in kept {
      ReleasedMembers(bs, k, bs'[j]);
    }
  }

  /** After a block has been freed, the objects still fit the heap exactly if none of them, and no
      monitor, was in it. */
  lemma ReleasedFits(g: Graph, hs: Headers, bs: seq<Block>, hs': Headers, bs': seq<Block>, k: nat, start: int, end: int)
    requires Fits(g, hs, bs) && Tiled(bs, start, end) && Represents(hs, bs) && Represents(hs', bs')
    requires k < |bs| && !bs[k].kind.Free? && bs' == Released(bs, k)
    requires forall i :: 0 <= i < |bs| && i != k && !bs[i].kind.Free? ==> UntouchedAt(hs, hs', bs, i)
    ensures Fits(g, hs', bs') <==> Vacant(g, bs[k].addr)
  {
    var a, kept := bs[k].addr, Occupied(bs) - {bs[k].addr};
    ReleasedCarried(hs, bs, hs', bs', k, start, end);
    if Vacant(g, a) {
      forall o | o in g ensures BlockOf(g, o) in kept && (g[o].monitor != NULL ==> BlockOfMonitor(g[o].monitor) in kept) {
        var i := HostIsAllocated(g, hs, bs, BlockOf(g, o));
        if g[o].monitor != NULL {
          i := HostIsAllocated(g, hs, bs, BlockOfMonitor(g[o].monitor));
        }
      }
      AllTargetsKept(g, kept);
      RestrictedFits(g, hs, bs, hs', bs', kept);
    } else if Fits(g, hs', bs') {
      var o :| o in g && (BlockOf(g, o) == a || (g[o].monitor != NULL && BlockOfMonitor(g[o].monitor) == a));
      var j := HostIsAllocated(g, hs', bs', a);
    }
  }
}
