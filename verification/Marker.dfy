/** The stackless marker (jvm/src/object/allocate.c). The path from the object being scanned back to
    the grey object the scan started from is kept in the headers of the blocks on the path. */
module Marker {
  import opened Basics
  import opened HeapBlocks
  import opened Heap
  import opened ObjectGraph

  function SetBlack(hs: Headers, p: int): Headers
    requires p in hs
  {
    hs[p := hs[p].(black := true)]
  }

  function SetGrey(hs: Headers, p: int): Headers
    requires p in hs
  {
    hs[p := hs[p].(grey := true)]
  }

  /** Blackens the block of the monitor of object o, if o has one. */
  function SetObjectMonitorBlack(hs: Headers, g: Graph, o: int): Headers
    requires o in g && (g[o].monitor != NULL ==> BlockOfMonitor(g[o].monitor) in hs)
  {
    if g[o].monitor != NULL then SetBlack(hs, BlockOfMonitor(g[o].monitor)) else hs
  }

  // ---------- what marking may change ----------

  /** Marking only blackens, and only uses the pointer words of collectible blocks. */
  ghost predicate MarkOnlyAt(hs0: Headers, hs: Headers, p: int) {
    && p in hs0 && p in hs
    && hs[p] == hs0[p].(black := hs[p].black, back := hs[p].back, forward := hs[p].forward)
    && (hs0[p].black ==> hs[p].black)
    && (hs0[p].kind.Free? ==> hs[p] == hs0[p])
    && (hs0[p].kind.NonCollectible? ==> hs[p].back == hs0[p].back && hs[p].forward == hs0[p].forward)
    && (hs0[p].kind.Collectible() && hs0[p].forward.Indices? ==>
         hs[p].forward.Indices? && hs[p].forward.contained == hs0[p].forward.contained)
  }

  ghost predicate MarkOnly(hs0: Headers, hs: Headers) {
    hs.Keys == hs0.Keys && forall p :: p in hs0 ==> MarkOnlyAt(hs0, hs, p)
  }

  // ---------- how far an object has been scanned ----------

  ghost predicate FieldBlack(g: Graph, hs: Headers, o: int, i: nat)
    requires o in g && i < |g[o].fields|
  {
    var f := g[o].fields[i];
    f == NULL || (f in g && BlockOf(g, f) in hs && hs[BlockOf(g, f)].black)
  }

  ghost predicate MonitorBlack(g: Graph, hs: Headers, o: int)
    requires o in g
  {
    g[o].monitor == NULL || (BlockOfMonitor(g[o].monitor) in hs && hs[BlockOfMonitor(g[o].monitor)].black)
  }

  /** The monitor and the first n fields of o are null or black. */
  ghost predicate Scanned(g: Graph, hs: Headers, o: int, n: nat)
    requires o in g && n <= |g[o].fields|
  {
    MonitorBlack(g, hs, o) && forall i :: 0 <= i < n ==> FieldBlack(g, hs, o, i)
  }

  ghost predicate Finished(g: Graph, hs: Headers, o: int)
    requires o in g
  {
    Scanned(g, hs, o, |g[o].fields|)
  }

  // ---------- the path ----------

  /** The local variables of the marker while it scans one object: what a recursive marker would keep
      in a stack frame. */
  datatype Frame = Frame(block: int, obj: int, isObjectArray: bool, index: nat, count: nat)

  ghost predicate FrameAt(g: Graph, hs0: Headers, hs: Headers, f: Frame) {
    && f.block in hs0 && f.block in hs && f.obj in g && BlockOf(g, f.obj) == f.block
    && f.isObjectArray == g[f.obj].shape.ReferenceArray?
    && (hs0[f.block].kind.ObjectWithFields? || hs0[f.block].kind.ObjectArray?)
    && f.index <= f.count == |g[f.obj].fields|
    && hs[f.block].black && !hs0[f.block].black
    && Scanned(g, hs, f.obj, f.index)
  }

  /** Frame k is suspended, and its block header holds all that is needed to resume it. */
  ghost predicate SuspendedAt(g: Graph, hs0: Headers, hs: Headers, stack: seq<Frame>, k: nat)
    requires k < |stack|
  {
    && FrameAt(g, hs0, hs, stack[k])
    && hs[stack[k].block].forward == Indices(stack[k].index, stack[k].count)
    && hs[stack[k].block].back == Containing(Below(stack, k))
  }

  /** The block of the frame under frame k. */
  function Below(stack: seq<Frame>, k: nat): int
    requires k <= |stack|
  {
    if k == 0 then NULL else stack[k - 1].block
  }

  /** The block the scan started from: the end of the path. */
  function Bottom(stack: seq<Frame>, top: int): int {
    if stack == [] then top else stack[0].block
  }

  ghost predicate OnStack(stack: seq<Frame>, b: int) {
    exists k :: 0 <= k < |stack| && stack[k].block == b
  }

  ghost predicate DistinctBlocks(stack: seq<Frame>, top: int) {
    && (forall j, k :: 0 <= j < k < |stack| ==> stack[j].block != stack[k].block)
    && !OnStack(stack, top)
  }

  /** A block that was blackened by the marker and has left the path has only black children. */
  ghost predicate DoneAt(g: Graph, hs0: Headers, hs: Headers, stack: seq<Frame>, top: int, o: int)
    requires o in g
  {
    var b := BlockOf(g, o);
    b in hs0 && b in hs && hs[b].black && !hs0[b].black && b != top && !OnStack(stack, b) ==> Finished(g, hs, o)
  }

  /** limit is closed under the references of the objects that the marker scans. */
  ghost predicate LimitAt(g: Graph, hs0: Headers, limit: set<int>, o: int)
    requires o in g
  {
    var b := BlockOf(g, o);
    b in limit && b in hs0 && !hs0[b].black ==>
      && (forall i :: 0 <= i < |g[o].fields| && g[o].fields[i] != NULL && g[o].fields[i] in g ==> BlockOf(g, g[o].fields[i]) in limit)
      && (g[o].monitor != NULL ==> BlockOfMonitor(g[o].monitor) in limit)
  }

  ghost predicate Limit(g: Graph, hs0: Headers, limit: set<int>) {
    forall o :: o in g ==> LimitAt(g, hs0, limit, o)
  }

  ghost predicate BlackWithin(hs: Headers, limit: set<int>) {
    forall p :: p in hs && hs[p].black ==> p in limit
  }

  /** The state of the marker between two fields, except that object skip may be unfinished. */
  ghost predicate PathExcept(g: Graph, hs0: Headers, hs: Headers, limit: set<int>, stack: seq<Frame>, top: Frame, skip: int) {
    && MarkOnly(hs0, hs) && BlackWithin(hs, limit)
    && FrameAt(g, hs0, hs, top) && hs[top.block].back == Containing(Below(stack, |stack|))
    && (forall k :: 0 <= k < |stack| ==> SuspendedAt(g, hs0, hs, stack, k))
    && DistinctBlocks(stack, top.block)
    && (forall o :: o in g && o != skip ==> DoneAt(g, hs0, hs, stack, top.block, o))
  }

  /** The state of the marker between two fields: the headers hold exactly the suspended frames, every
      frame is scanned up to its index, and every other block the marker blackened is finished. */
  ghost predicate Path(g: Graph, hs0: Headers, hs: Headers, limit: set<int>, stack: seq<Frame>, top: Frame) {
    PathExcept(g, hs0, hs, limit, stack, top, NULL)
  }

  // ---------- blackening ----------

  /** hs' is hs with more black, and nothing else changed. */
  ghost predicate Blacker(hs: Headers, hs': Headers) {
    && hs'.Keys == hs.Keys
    && forall p :: p in hs ==> hs'[p] == hs[p].(black := hs'[p].black) && (hs[p].black ==> hs'[p].black)
  }

  ghost predicate BlackGrows(hs: Headers, hs': Headers) {
    hs'.Keys == hs.Keys && forall p :: p in hs && hs[p].black ==> hs'[p].black
  }

  lemma StillScanned(g: Graph, hs: Headers, hs': Headers, o: int, n: nat)
    requires BlackGrows(hs, hs') && o in g && n <= |g[o].fields| && Scanned(g, hs, o, n)
    ensures Scanned(g, hs', o, n)
  {
    forall i | 0 <= i < n ensures FieldBlack(g, hs', o, i) {
      assert FieldBlack(g, hs, o, i);
    }
  }

  /** Blackening a child and its monitor keeps the path; only the child itself may be unfinished. */
  lemma BlackenChild(g: Graph, hs0: Headers, hs: Headers, hs': Headers, limit: set<int>, stack: seq<Frame>, top: Frame, child: int)
    requires Path(g, hs0, hs, limit, stack, top) && Hosted(g, hs0) && Limit(g, hs0, limit)
    requires child in g && BlockOf(g, child) in hs && BlockOf(g, child) in limit && !hs[BlockOf(g, child)].black
    requires Blacker(hs, hs')
    requires forall p :: p in hs && hs'[p].black && !hs[p].black ==> p == BlockOf(g, child) || (g[child].monitor != NULL && p == BlockOfMonitor(g[child].monitor))
    ensures PathExcept(g, hs0, hs', limit, stack, top, child)
  {
    var c := BlockOf(g, child);
    assert ObjectHosted(g, hs0, child) && LimitAt(g, hs0, limit, child);
    assert MarkOnlyAt(hs0, hs, c);
    forall p | p in hs0 ensures MarkOnlyAt(hs0, hs', p) {
      BlackenedAt(g, hs0, hs, hs', child, p);
    }
    StillScanned(g, hs, hs', top.obj, top.index);
    forall k | 0 <= k < |stack| ensures SuspendedAt(g, hs0, hs', stack, k) {
      assert SuspendedAt(g, hs0, hs, stack, k);
      StillScanned(g, hs, hs', stack[k].obj, stack[k].index);
    }
    forall o | o in g && o != child ensures DoneAt(g, hs0, hs', stack, top.block, o) {
      BlackenedDone(g, hs0, hs, hs', stack, top.block, child, o);
    }
  }

  lemma BlackenedAt(g: Graph, hs0: Headers, hs: Headers, hs': Headers, child: int, p: int)
    requires MarkOnly(hs0, hs) && Hosted(g, hs0) && Blacker(hs, hs') && child in g && p in hs0
    requires forall q :: q in hs && hs'[q].black && !hs[q].black ==> q == BlockOf(g, child) || (g[child].monitor != NULL && q == BlockOfMonitor(g[child].monitor))
    ensures MarkOnlyAt(hs0, hs', p)
  {
    assert MarkOnlyAt(hs0, hs, p) && ObjectHosted(g, hs0, child);
  }

  lemma BlackenedDone(g: Graph, hs0: Headers, hs: Headers, hs': Headers, stack: seq<Frame>, top: int, child: int, o: int)
    requires Hosted(g, hs0) && Blacker(hs, hs') && child in g && o in g && o != child && hs.Keys == hs0.Keys
    requires forall q :: q in hs && hs'[q].black && !hs[q].black ==> q == BlockOf(g, child) || (g[child].monitor != NULL && q == BlockOfMonitor(g[child].monitor))
    requires DoneAt(g, hs0, hs, stack, top, o)
    ensures DoneAt(g, hs0, hs', stack, top, o)
  {
    var b := BlockOf(g, o);
    assert ObjectHosted(g, hs0, child) && ObjectHosted(g, hs0, o);
    if b == BlockOf(g, child) {
      OneObject(g, hs0, o, child);
    }
    if hs[b].black && Finished(g, hs, o) {
      StillScanned(g, hs, hs', o, |g[o].fields|);
    }
  }

  // ---------- the steps between fields ----------

  /** The next field is null or black. */
  lemma SkipField(g: Graph, hs0: Headers, hs: Headers, limit: set<int>, stack: seq<Frame>, top: Frame)
    requires Path(g, hs0, hs, limit, stack, top) && top.index < top.count
    requires FieldBlack(g, hs, top.obj, top.index)
    ensures Path(g, hs0, hs, limit, stack, top.(index := top.index + 1))
  {
    forall o | o in g && o != NULL ensures DoneAt(g, hs0, hs, stack, top.block, o) {
    }
    forall i | 0 <= i < top.index + 1 ensures FieldBlack(g, hs, top.obj, i) {
    }
  }

  /** The child has no references left to follow. */
  lemma LeafChild(g: Graph, hs0: Headers, hs: Headers, limit: set<int>, stack: seq<Frame>, top: Frame, child: int)
    requires PathExcept(g, hs0, hs, limit, stack, top, child) && child in g && Finished(g, hs, child)
    ensures Path(g, hs0, hs, limit, stack, top)
  {
    forall o | o in g && o != NULL ensures DoneAt(g, hs0, hs, stack, top.block, o) {
    }
  }

  /** The header writes that suspend the object being scanned and turn to a child in block c. */
  function PushWrites(hs: Headers, c: int, top: int, index: nat): Headers
    requires c in hs && top in hs && hs[top].forward.Indices?
  {
    var linked := hs[c := hs[c].(back := Containing(top))];
    linked[top := linked[top].(forward := Indices(index, hs[top].forward.contained))]
  }

  lemma PushChild(g: Graph, hs0: Headers, hs: Headers, limit: set<int>, stack: seq<Frame>, top: Frame, child: Frame)
    requires Hosted(g, hs0) && child.obj in g && PathExcept(g, hs0, hs, limit, stack, top, child.obj)
    requires top.block in hs && hs[top.block].forward.Indices? && hs[top.block].forward.contained == top.count
    requires FrameAt(g, hs0, hs, child) && child.index == 0 && child.block != top.block && !OnStack(stack, child.block)
    requires top.index < top.count && FieldBlack(g, hs, top.obj, top.index)
    ensures Path(g, hs0, PushWrites(hs, child.block, top.block, top.index + 1), limit, stack + [top.(index := top.index + 1)], child)
  {
    var hs', stack' := PushWrites(hs, child.block, top.block, top.index + 1), stack + [top.(index := top.index + 1)];
    assert BlackGrows(hs, hs') && BlackGrows(hs', hs);
    forall p | p in hs0 ensures MarkOnlyAt(hs0, hs', p) {
      assert MarkOnlyAt(hs0, hs, p);
    }
    StillScanned(g, hs, hs', child.obj, 0);
    StillScanned(g, hs, hs', top.obj, top.index);
    assert FieldBlack(g, hs', top.obj, top.index);
    forall k | 0 <= k < |stack'| ensures SuspendedAt(g, hs0, hs', stack', k) {
      if k < |stack| {
        assert SuspendedAt(g, hs0, hs, stack, k);
        StillScanned(g, hs, hs', stack[k].obj, stack[k].index);
        assert stack[k].block != child.block && stack[k].block != top.block;
      }
    }
    assert DistinctBlocks(stack', child.block) by {
      forall k | 0 <= k < |stack| ensures stack[k].block != top.block && stack[k].block != child.block {
      }
    }
    forall o | o in g && o != NULL ensures DoneAt(g, hs0, hs', stack', child.block, o) {
      PushDone(g, hs0, hs, hs', stack, top, child, o);
    }
  }

  lemma PushDone(g: Graph, hs0: Headers, hs: Headers, hs': Headers, stack: seq<Frame>, top: Frame, child: Frame, o: int)
    requires o in g && child.obj in g && BlockOf(g, child.obj) == child.block
    requires o != child.obj ==> DoneAt(g, hs0, hs, stack, top.block, o)
    requires BlackGrows(hs, hs') && BlackGrows(hs', hs)
    ensures DoneAt(g, hs0, hs', stack + [top.(index := top.index + 1)], child.block, o)
  {
    var stack', b := stack + [top.(index := top.index + 1)], BlockOf(g, o);
    assert stack'[|stack|].block == top.block;
    assert forall k :: 0 <= k < |stack| ==> stack'[k] == stack[k];
    if !OnStack(stack', b) {
      assert !OnStack(stack, b) && b != top.block;
      if Finished(g, hs, o) {
        StillScanned(g, hs, hs', o, |g[o].fields|);
      }
    }
  }

  /** All fields of the object are done: the marker goes back to the object that contains it, and finds
      in the headers exactly the frame that it suspended there. */
  lemma PopFrame(g: Graph, hs0: Headers, hs: Headers, limit: set<int>, stack: seq<Frame>, top: Frame)
    requires Hosted(g, hs0) && Path(g, hs0, hs, limit, stack, top) && top.index == top.count && stack != []
    ensures Path(g, hs0, hs, limit, stack[..|stack| - 1], stack[|stack| - 1])
    ensures var back := stack[|stack| - 1];
            && hs[top.block].back == Containing(back.block)
            && back.block in hs && hs[back.block].forward == Indices(back.index, back.count)
            && back.isObjectArray == hs[back.block].kind.ObjectArray?
            && back.isObjectArray != hs[back.block].kind.ObjectWithFields?
            && back.obj == ObjectIn(back.block, hs[back.block])
  {
    var n := |stack| - 1;
    var below, back := stack[..n], stack[n];
    assert SuspendedAt(g, hs0, hs, stack, n);
    assert MarkOnlyAt(hs0, hs, back.block) && ObjectHosted(g, hs0, back.obj);
    forall k | 0 <= k < n ensures SuspendedAt(g, hs0, hs, below, k) {
      assert SuspendedAt(g, hs0, hs, stack, k);
    }
    forall o | o in g && o != NULL ensures DoneAt(g, hs0, hs, below, back.block, o) {
      assert DoneAt(g, hs0, hs, stack, top.block, o);
      if BlockOf(g, o) == top.block {
        OneObject(g, hs0, o, top.obj);
      }
      assert forall k :: 0 <= k < n ==> below[k] == stack[k];
      assert OnStack(stack, BlockOf(g, o)) ==> BlockOf(g, o) == back.block || OnStack(below, BlockOf(g, o));
    }
  }

  // ---------- markChildren ----------

  ghost function Whites(hs: Headers): set<int> {
    set p | p in hs && !hs[p].black
  }

  lemma FewerWhites(hs: Headers, hs': Headers)
    requires hs'.Keys == hs.Keys
    ensures BlackGrows(hs, hs') <==> Whites(hs') <= Whites(hs)
  {
    if Whites(hs') <= Whites(hs) {
      forall p | p in hs && hs[p].black ensures hs'[p].black {
        assert p !in Whites(hs);
      }
    }
    if BlackGrows(hs, hs') {
      forall p | p in Whites(hs') ensures p in Whites(hs) {
      }
    }
  }

  /** The object of a field, and how many references in it still have to be followed: an array or object
      whose only reference is NULL has none. */
  method ChildOf(g: Graph, f: int) returns (block: int, count: nat, isObjectArray: bool)
    requires f in g && (g[f].shape.PrimitiveArray? ==> g[f].fields == [])
    ensures block == BlockOf(g, f) && isObjectArray == !g[f].shape.Instance?
    ensures count == if g[f].fields == [NULL] then 0 else |g[f].fields|
  {
    isObjectArray := g[f].shape.ReferenceArray? || g[f].shape.PrimitiveArray?;
    if isObjectArray {
      block := f - HEADER_SIZE;
      if g[f].shape.PrimitiveArray? {
        count := 0;
      } else {
        count := |g[f].fields|;
        if count == 1 && g[f].fields[0] == NULL {
          count := 0;
        }
      }
    } else {
      count := |g[f].fields|;
      block := f - FIELD_SIZE * count - HEADER_SIZE;
      if count == 1 && g[f].fields[0] == NULL {
        count := 0;
      }
    }
  }

  /** Everything that holds before the marker looks at a field. */
  ghost predicate Marking(h: Heap, g: Graph, hs0: Headers, limit: set<int>, stack: seq<Frame>, top: Frame)
    reads h
  {
    Hosted(g, hs0) && Limit(g, hs0, limit) && Path(g, hs0, h.headers, limit, stack, top)
  }

  /** What is known about the object in the field that the top frame points to. */
  lemma FieldKnown(g: Graph, hs0: Headers, hs: Headers, limit: set<int>, stack: seq<Frame>, top: Frame)
    requires Hosted(g, hs0) && Limit(g, hs0, limit) && Path(g, hs0, hs, limit, stack, top) && top.index < top.count
    ensures NULL !in g && hs[top.block].forward.Indices? && hs[top.block].forward.contained == top.count
    ensures var f := g[top.obj].fields[top.index];
            f != NULL ==>
              && f in g && BlockOf(g, f) in limit && BlockOf(g, f) in hs && BlockOf(g, f) in hs0
              && (!hs[BlockOf(g, f)].black ==> !hs0[BlockOf(g, f)].black)
              && (g[f].shape.PrimitiveArray? ==> g[f].fields == [])
              && (g[f].fields != [] ==> hs0[BlockOf(g, f)].kind.ObjectWithFields? || hs0[BlockOf(g, f)].kind.ObjectArray?)
              && (g[f].fields != [] ==> g[f].shape.ReferenceArray? == !g[f].shape.Instance?)
              && (g[f].monitor != NULL ==> BlockOfMonitor(g[f].monitor) in hs)
  {
    assert ObjectHosted(g, hs0, top.obj) && LimitAt(g, hs0, limit, top.obj) && MarkOnlyAt(hs0, hs, top.block);
    var f := g[top.obj].fields[top.index];
    if f != NULL {
      assert ObjectHosted(g, hs0, f) && MarkOnlyAt(hs0, hs, BlockOf(g, f));
    }
  }

  /** Blackens the object f, which was not black, and its monitor. */
  method BlackenObject(h: Heap, g: Graph, f: int, block: int,
                       ghost hs0: Headers, ghost limit: set<int>, ghost stack: seq<Frame>, ghost top: Frame)
    requires Marking(h, g, hs0, limit, stack, top)
    requires f in g && block == BlockOf(g, f) && block in h.headers && block in limit && !h.headers[block].black
    requires g[f].monitor != NULL ==> BlockOfMonitor(g[f].monitor) in h.headers
    modifies h`headers
    ensures PathExcept(g, hs0, h.headers, limit, stack, top, f)
    ensures block in h.headers && h.headers[block].black && MonitorBlack(g, h.headers, f)
    ensures Whites(h.headers) < Whites(old(h.headers))
    ensures h.headers.Keys == old(h.headers.Keys) && forall p :: p in h.headers ==> h.headers[p].forward == old(h.headers)[p].forward
  {
    ghost var hs := h.headers;
    h.headers := SetBlack(h.headers, block);
    h.headers := SetObjectMonitorBlack(h.headers, g, f);
    BlackenChild(g, hs0, hs, h.headers, limit, stack, top, f);
    assert block in Whites(hs) && block !in Whites(h.headers);
  }

  /** Looks at the field that the top frame points to. Returns the frame to go on with. */
  method MarkField(h: Heap, g: Graph, pCurrentBlock: int, pObject: int, isObjectArray: bool, index: nat, count: nat,
                   ghost hs0: Headers, ghost limit: set<int>, ghost stack: seq<Frame>)
    returns (pCurrentBlock': int, pObject': int, isObjectArray': bool, index': nat, count': nat, ghost stack': seq<Frame>)
    requires Marking(h, g, hs0, limit, stack, Frame(pCurrentBlock, pObject, isObjectArray, index, count)) && index < count
    modifies h`headers
    ensures Marking(h, g, hs0, limit, stack', Frame(pCurrentBlock', pObject', isObjectArray', index', count'))
    ensures Whites(h.headers) < Whites(old(h.headers))
         || (Whites(h.headers) == Whites(old(h.headers)) && stack' == stack && count' - index' == count - index - 1)
    ensures Bottom(stack', pCurrentBlock') == Bottom(stack, pCurrentBlock)
  {
    ghost var top := Frame(pCurrentBlock, pObject, isObjectArray, index, count);
    FieldKnown(g, hs0, h.headers, limit, stack, top);
    // the two macros that locate the field differ, but both read reference number index of the object
    var pFieldObject := g[pObject].fields[index];
    pCurrentBlock', pObject', isObjectArray', index', count', stack' := pCurrentBlock, pObject, isObjectArray, index + 1, count, stack;
    if pFieldObject != NULL {
      var pFieldBlock, containedObjectCount, isFieldObjectArray := ChildOf(g, pFieldObject);
      if !h.headers[pFieldBlock].black {
        ChildNotOnPath(g, hs0, h.headers, limit, stack, top, pFieldBlock);
        BlackenObject(h, g, pFieldObject, pFieldBlock, hs0, limit, stack, top);
        assert FieldBlack(g, h.headers, pObject, index);
        if containedObjectCount != 0 {
          pCurrentBlock', pObject', isObjectArray', index', count' := pFieldBlock, pFieldObject, isFieldObjectArray, 0, containedObjectCount;
          stack' := Suspend(h, g, pCurrentBlock, pFieldBlock, index + 1, hs0, limit, stack, top,
                            Frame(pFieldBlock, pFieldObject, isFieldObjectArray, 0, containedObjectCount));
          return;
        }
        LeafFinished(g, h.headers, pFieldObject);
        LeafChild(g, hs0, h.headers, limit, stack, top, pFieldObject);
      }
    }
    SkipField(g, hs0, h.headers, limit, stack, top);
  }

  lemma LeafFinished(g: Graph, hs: Headers, f: int)
    requires f in g && MonitorBlack(g, hs, f) && (g[f].fields == [] || g[f].fields == [NULL])
    ensures Finished(g, hs, f)
  {
    forall i | 0 <= i < |g[f].fields| ensures FieldBlack(g, hs, f, i) {
    }
  }

  /** Jumps down into the child: the path back is written into the headers. */
  method Suspend(h: Heap, g: Graph, pCurrentBlock: int, pFieldBlock: int, index: nat,
                 ghost hs0: Headers, ghost limit: set<int>, ghost stack: seq<Frame>, ghost top: Frame, ghost child: Frame)
    returns (ghost stack': seq<Frame>)
    requires Hosted(g, hs0) && Limit(g, hs0, limit) && child.obj in g
    requires PathExcept(g, hs0, h.headers, limit, stack, top, child.obj)
    requires pCurrentBlock == top.block && pFieldBlock == child.block && index == top.index + 1
    requires top.block in h.headers && h.headers[top.block].forward.Indices? && h.headers[top.block].forward.contained == top.count
    requires FrameAt(g, hs0, h.headers, child) && child.index == 0 && child.block != top.block && !OnStack(stack, child.block)
    requires top.index < top.count && FieldBlack(g, h.headers, top.obj, top.index)
    modifies h`headers
    ensures Path(g, hs0, h.headers, limit, stack', child)
    ensures Whites(h.headers) == Whites(old(h.headers))
    ensures Bottom(stack', child.block) == Bottom(stack, top.block)
  {
    PushChild(g, hs0, h.headers, limit, stack, top, child);
    h.headers := h.headers[pFieldBlock := h.headers[pFieldBlock].(back := Containing(pCurrentBlock))];
    h.headers := h.headers[pCurrentBlock := h.headers[pCurrentBlock].(forward := Indices(index, h.headers[pCurrentBlock].forward.contained))];
    stack' := stack + [top.(index := index)];
  }

  /** A block that is not black is not on the path. */
  lemma ChildNotOnPath(g: Graph, hs0: Headers, hs: Headers, limit: set<int>, stack: seq<Frame>, top: Frame, c: int)
    requires Path(g, hs0, hs, limit, stack, top) && c in hs && !hs[c].black
    ensures c != top.block && !OnStack(stack, c)
  {
    forall k | 0 <= k < |stack| ensures stack[k].block != c {
      assert SuspendedAt(g, hs0, hs, stack, k);
    }
  }

  // ---------- scanning from one grey block ----------

  /** No scan is in progress: whatever the marker has blackened is finished. */
  ghost predicate SettledAt(g: Graph, hs0: Headers, hs: Headers, o: int)
    requires o in g
  {
    var b := BlockOf(g, o);
    b in hs0 && b in hs && hs[b].black && !hs0[b].black ==> Finished(g, hs, o)
  }

  ghost predicate Settled(g: Graph, hs0: Headers, hs: Headers, limit: set<int>) {
    MarkOnly(hs0, hs) && BlackWithin(hs, limit) && forall o :: o in g ==> SettledAt(g, hs0, hs, o)
  }

  lemma StartScan(g: Graph, hs0: Headers, hs: Headers, hs': Headers, limit: set<int>, start: Frame)
    requires Hosted(g, hs0) && Limit(g, hs0, limit) && Settled(g, hs0, hs, limit)
    requires start.block in hs && !hs[start.block].black && start.block in limit && start.index == 0
    requires start.obj in g && BlockOf(g, start.obj) == start.block && start.count == |g[start.obj].fields|
    requires start.isObjectArray == g[start.obj].shape.ReferenceArray?
    requires hs[start.block].kind.ObjectWithFields? || hs[start.block].kind.ObjectArray?
    requires Blacker(hs, hs') && hs'[start.block].black && MonitorBlack(g, hs', start.obj)
    requires forall p :: p in hs && hs'[p].black && !hs[p].black ==> p == start.block || (g[start.obj].monitor != NULL && p == BlockOfMonitor(g[start.obj].monitor))
    ensures Path(g, hs0, hs'[start.block := hs'[start.block].(back := Containing(NULL))], limit, [], start)
  {
    var p, hs1 := start.block, hs'[start.block := hs'[start.block].(back := Containing(NULL))];
    assert ObjectHosted(g, hs0, start.obj) && LimitAt(g, hs0, limit, start.obj) && MarkOnlyAt(hs0, hs, p);
    forall q | q in hs0 ensures MarkOnlyAt(hs0, hs1, q) {
      BlackenedAt(g, hs0, hs, hs', start.obj, q);
    }
    assert BlackGrows(hs', hs1) && BlackGrows(hs1, hs');
    StillScanned(g, hs', hs1, start.obj, 0);
    forall o | o in g && o != NULL ensures DoneAt(g, hs0, hs1, [], p, o) {
      assert SettledAt(g, hs0, hs, o);
      if o != start.obj {
        BlackenedDone(g, hs0, hs, hs', [], p, start.obj, o);
        if Finished(g, hs', o) {
          StillScanned(g, hs', hs1, o, |g[o].fields|);
        }
      }
    }
  }

  lemma EndScan(g: Graph, hs0: Headers, hs: Headers, limit: set<int>, top: Frame)
    requires Hosted(g, hs0) && Path(g, hs0, hs, limit, [], top) && top.index == top.count
    ensures Settled(g, hs0, hs, limit)
  {
    forall o | o in g ensures SettledAt(g, hs0, hs, o) {
      assert DoneAt(g, hs0, hs, [], top.block, o);
      if BlockOf(g, o) == top.block {
        OneObject(g, hs0, o, top.obj);
      }
    }
  }

  /** Blackens everything reachable from the grey block p that is not black yet. */
  method MarkFrom(h: Heap, g: Graph, p: int, ghost hs0: Headers, ghost limit: set<int>)
    requires Hosted(g, hs0) && Limit(g, hs0, limit) && Settled(g, hs0, h.headers, limit)
    requires p in h.headers && !h.headers[p].black && p in limit
    requires p in hs0 && hs0[p].forward.Indices? && BlockHosts(g, hs0, p)
    requires h.headers[p].kind.ObjectWithFields? || h.headers[p].kind.ObjectArray?
    modifies h`headers
    ensures Settled(g, hs0, h.headers, limit) && p in h.headers && h.headers[p].black
    ensures BlackGrows(old(h.headers), h.headers)
  {
    assert MarkOnlyAt(hs0, h.headers, p);
    var isObjectArray := h.headers[p].kind.ObjectArray?;
    var pObject := ObjectIn(p, h.headers[p]);
    assert pObject == ObjectIn(p, hs0[p]);
    assert ObjectHosted(g, hs0, pObject);
    ghost var hs := h.headers;
    h.headers := SetBlack(h.headers, p);
    h.headers := SetObjectMonitorBlack(h.headers, g, pObject);
    ghost var blackened := h.headers;
    h.headers := h.headers[p := h.headers[p].(back := Containing(NULL))];
    var fieldCounter := 0;
    var fieldCount := h.headers[p].forward.contained;
    StartScan(g, hs0, hs, blackened, limit, Frame(p, pObject, isObjectArray, 0, fieldCount));
    Scan(h, g, p, pObject, isObjectArray, fieldCount, hs, hs0, limit);
  }

  /** The marking loop: looks at fields, descends into children and climbs back until the path is empty. */
  method Scan(h: Heap, g: Graph, p: int, object0: int, isObjectArray0: bool, count0: nat,
              ghost hs: Headers, ghost hs0: Headers, ghost limit: set<int>)
    requires Marking(h, g, hs0, limit, [], Frame(p, object0, isObjectArray0, 0, count0)) && count0 > 0
    requires MarkOnly(hs0, hs) && BlackGrows(hs, h.headers)
    modifies h`headers
    ensures Settled(g, hs0, h.headers, limit) && p in h.headers && h.headers[p].black
    ensures BlackGrows(hs, h.headers)
  {
    FewerWhites(hs, h.headers);
    var pCurrentBlock, pObject, isObjectArray, fieldCounter, fieldCount := p, object0, isObjectArray0, 0, count0;
    ghost var stack: seq<Frame> := [];
    // the scan starts behind the check of the field counter: the block is known to have a field
    var markFirstField := true;
    while true
      invariant Marking(h, g, hs0, limit, stack, Frame(pCurrentBlock, pObject, isObjectArray, fieldCounter, fieldCount))
      invariant markFirstField ==> fieldCounter < fieldCount
      invariant Bottom(stack, pCurrentBlock) == p
      invariant Whites(h.headers) <= Whites(hs) && h.headers.Keys == hs.Keys
      decreases Whites(h.headers), |stack|, fieldCount - fieldCounter
    {
      ghost var top := Frame(pCurrentBlock, pObject, isObjectArray, fieldCounter, fieldCount);
      if markFirstField || fieldCounter < fieldCount {
        markFirstField := false;
        pCurrentBlock, pObject, isObjectArray, fieldCounter, fieldCount, stack :=
          MarkField(h, g, pCurrentBlock, pObject, isObjectArray, fieldCounter, fieldCount, hs0, limit, stack);
      } else if h.headers[pCurrentBlock].back.suspended != NULL {
        BelowKnown(g, hs0, h.headers, limit, stack, top);
        PopFrame(g, hs0, h.headers, limit, stack, top);
        pCurrentBlock := h.headers[pCurrentBlock].back.suspended;
        fieldCounter := h.headers[pCurrentBlock].forward.current;
        fieldCount := h.headers[pCurrentBlock].forward.contained;
        if h.headers[pCurrentBlock].kind.ObjectWithFields? {
          isObjectArray := false;
          pObject := pCurrentBlock + HEADER_SIZE + FIELD_SIZE * h.headers[pCurrentBlock].forward.contained;
        } else if h.headers[pCurrentBlock].kind.ObjectArray? {
          isObjectArray := true;
          pObject := pCurrentBlock + HEADER_SIZE;
        }
        stack := stack[..|stack| - 1];
      } else {
        BelowKnown(g, hs0, h.headers, limit, stack, top);
        EndScan(g, hs0, h.headers, limit, top);
        FewerWhites(hs, h.headers);
        break;
      }
    }
  }

  /** The containing block in the header tells whether a frame is suspended. */
  lemma BelowKnown(g: Graph, hs0: Headers, hs: Headers, limit: set<int>, stack: seq<Frame>, top: Frame)
    requires Hosted(g, hs0) && Path(g, hs0, hs, limit, stack, top)
    ensures hs[top.block].back == Containing(NULL) <==> stack == []
  {
    if stack != [] {
      assert SuspendedAt(g, hs0, hs, stack, |stack| - 1) && ObjectHosted(g, hs0, stack[|stack| - 1].obj);
    }
  }

  // ---------- the scan of the whole heap ----------

  /** The grey blocks that the marker has to scan. */
  ghost function Greys(hs: Headers, bs: seq<Block>): set<int> {
    set i | 0 <= i < |bs| && bs[i].addr in hs && bs[i].kind.Collectible() && hs[bs[i].addr].grey :: bs[i].addr
  }

  ghost function Blacks(hs: Headers, bs: seq<Block>): set<int> {
    set i | 0 <= i < |bs| && bs[i].addr in hs && hs[bs[i].addr].black :: bs[i].addr
  }

  /** A greyed block without object fields is a simple object. */
  ghost predicate GreyAt(g: Graph, hs: Headers, bs: seq<Block>, i: nat)
    requires i < |bs|
  {
    bs[i].kind.Plain? && bs[i].addr in hs && hs[bs[i].addr].grey ==>
      bs[i].addr + HEADER_SIZE in g && BlockOf(g, bs[i].addr + HEADER_SIZE) == bs[i].addr
  }

  ghost predicate ScannedTo(hs: Headers, bs: seq<Block>, n: nat)
    requires n <= |bs|
  {
    forall i :: 0 <= i < n ==> GreyIsBlack(hs, bs, i)
  }

  ghost predicate GreyIsBlack(hs: Headers, bs: seq<Block>, i: nat)
    requires i < |bs|
  {
    bs[i].kind.Collectible() && bs[i].addr in hs && hs[bs[i].addr].grey ==> hs[bs[i].addr].black
  }

  lemma ScannedStays(hs: Headers, hs': Headers, bs: seq<Block>, n: nat)
    requires n <= |bs| && ScannedTo(hs, bs, n) && BlackGrows(hs, hs')
    requires forall p :: p in hs ==> hs'[p].grey == hs[p].grey
    ensures ScannedTo(hs', bs, n)
  {
    forall i | 0 <= i < n ensures GreyIsBlack(hs', bs, i) {
      assert GreyIsBlack(hs, bs, i);
    }
  }

  /** Scans the heap for grey blocks and blackens everything reachable from them. */
  method ScanHeap(h: Heap, g: Graph, ghost limit: set<int>)
    requires h.Valid() && Fits(g, h.headers, h.blocks) && Limit(g, h.headers, limit)
    requires BlackWithin(h.headers, limit) && Greys(h.headers, h.blocks) <= limit
    requires forall i :: 0 <= i < |h.blocks| ==> GreyAt(g, h.headers, h.blocks, i)
    modifies h`headers
    ensures Settled(g, old(h.headers), h.headers, limit)
    ensures ScannedTo(h.headers, h.blocks, |h.blocks|)
  {
    ghost var hs0, bs := h.headers, h.blocks;
    var pBlock := h.start;
    ghost var i := 0;
    StartScanHeap(h, g, limit);
    while true
      invariant i < |bs| && pBlock == bs[i].addr
      invariant Settled(g, hs0, h.headers, limit) && ScannedTo(h.headers, bs, i)
      decreases |bs| - i
    {
      assert HeaderAt(hs0, bs, i) && MarkOnlyAt(hs0, h.headers, pBlock) && GreyAt(g, hs0, bs, i) && BlockHostsAt(g, hs0, bs, i);
      Apart(bs, h.start, h.end, i);
      ghost var hs := h.headers;
      var header := h.headers[pBlock];
      if header.grey && !header.black {
        if header.kind.Plain? {
          MarkSimple(h, g, pBlock, hs0, limit, i);
        } else if header.kind.ObjectArray? || header.kind.ObjectWithFields? {
          assert pBlock in Greys(hs0, bs);
          MarkFrom(h, g, pBlock, hs0, limit);
        }
      }
      SameGrey(hs0, hs, h.headers);
      ScannedStays(hs, h.headers, bs, i);
      pBlock := pBlock + h.headers[pBlock].size;
      i := i + 1;
      if pBlock >= h.end {
        break;
      }
    }
  }

  lemma StartScanHeap(h: Heap, g: Graph, limit: set<int>)
    requires h.Valid() && BlackWithin(h.headers, limit)
    ensures h.blocks != [] && h.blocks[0].addr == h.start
    ensures Settled(g, h.headers, h.headers, limit)
  {
  }

  lemma SameGrey(hs0: Headers, hs: Headers, hs': Headers)
    requires MarkOnly(hs0, hs) && MarkOnly(hs0, hs')
    ensures forall p :: p in hs ==> p in hs' && hs'[p].grey == hs[p].grey && hs'[p].size == hs[p].size
  {
    forall p | p in hs ensures p in hs' && hs'[p].grey == hs[p].grey && hs'[p].size == hs[p].size {
      assert MarkOnlyAt(hs0, hs, p) && MarkOnlyAt(hs0, hs', p);
    }
  }

  /** A grey object without object fields: only the object and its monitor become black. */
  method MarkSimple(h: Heap, g: Graph, p: int, ghost hs0: Headers, ghost limit: set<int>, ghost i: nat)
    requires Hosted(g, hs0) && Limit(g, hs0, limit) && Settled(g, hs0, h.headers, limit)
    requires i < |h.blocks| && h.blocks[i].addr == p && h.blocks[i].kind.Plain? && p in h.headers && !h.headers[p].black
    requires p in hs0 && hs0[p].kind.Plain? && hs0[p].grey && p in limit
    requires p + HEADER_SIZE in g && BlockOf(g, p + HEADER_SIZE) == p
    modifies h`headers
    ensures Settled(g, hs0, h.headers, limit) && p in h.headers && h.headers[p].black
    ensures BlackGrows(old(h.headers), h.headers)
  {
    ghost var hs := h.headers;
    var pObject := p + HEADER_SIZE;
    assert ObjectHosted(g, hs0, pObject) && LimitAt(g, hs0, limit, pObject) && MarkOnlyAt(hs0, hs, p);
    h.headers := SetObjectMonitorBlack(h.headers, g, pObject);
    h.headers := SetBlack(h.headers, p);
    forall q | q in hs0 ensures MarkOnlyAt(hs0, h.headers, q) {
      BlackenedAt(g, hs0, hs, h.headers, pObject, q);
    }
    forall o | o in g ensures SettledAt(g, hs0, h.headers, o) {
      SimpleSettled(g, hs0, hs, h.headers, pObject, o);
    }
  }

  lemma SimpleSettled(g: Graph, hs0: Headers, hs: Headers, hs': Headers, pObject: int, o: int)
    requires Hosted(g, hs0) && Blacker(hs, hs') && hs.Keys == hs0.Keys && pObject in g && o in g
    requires forall q :: q in hs && hs'[q].black && !hs[q].black ==> q == BlockOf(g, pObject) || (g[pObject].monitor != NULL && q == BlockOfMonitor(g[pObject].monitor))
    requires g[pObject].fields == [] && MonitorBlack(g, hs', pObject)
    requires SettledAt(g, hs0, hs, o)
    ensures SettledAt(g, hs0, hs', o)
  {
    if o != pObject {
      BlackenedDone(g, hs0, hs, hs', [], NULL, pObject, o);
      assert ObjectHosted(g, hs0, o);
    }
  }

  // ---------- exactly the reachable blocks ----------

  /** The blocks that may become black: those that were, and those reachable from a grey block on a
      path that avoids the blocks that were black to begin with. */
  ghost function MarkLimit(g: Graph, hs0: Headers, bs: seq<Block>): set<int> {
    set p | p in hs0 && (hs0[p].black || ReachableAvoiding(g, Greys(hs0, bs), Blacks(hs0, bs), p))
  }

  lemma MarkLimitClosed(g: Graph, hs0: Headers, bs: seq<Block>)
    requires Hosted(g, hs0)
    ensures Limit(g, hs0, MarkLimit(g, hs0, bs))
    ensures BlackWithin(hs0, MarkLimit(g, hs0, bs)) && Greys(hs0, bs) <= MarkLimit(g, hs0, bs)
  {
    forall p | p in Greys(hs0, bs) ensures p in MarkLimit(g, hs0, bs) {
      if !hs0[p].black {
        ReachableRoot(g, Greys(hs0, bs), Blacks(hs0, bs), p);
      }
    }
    forall o | o in g ensures LimitAt(g, hs0, MarkLimit(g, hs0, bs), o) {
      MarkLimitAt(g, hs0, bs, o);
    }
  }

  lemma MarkLimitAt(g: Graph, hs0: Headers, bs: seq<Block>, o: int)
    requires Hosted(g, hs0) && o in g
    ensures LimitAt(g, hs0, MarkLimit(g, hs0, bs), o)
  {
    var b := BlockOf(g, o);
    assert ObjectHosted(g, hs0, o);
    if b in MarkLimit(g, hs0, bs) && !hs0[b].black {
      forall i | 0 <= i < |g[o].fields| && g[o].fields[i] != NULL && g[o].fields[i] in g
        ensures BlockOf(g, g[o].fields[i]) in MarkLimit(g, hs0, bs)
      {
        var c := BlockOf(g, g[o].fields[i]);
        assert ObjectHosted(g, hs0, g[o].fields[i]) && FieldRefers(g, o, i, c);
        if !hs0[c].black {
          ReachableStep(g, Greys(hs0, bs), Blacks(hs0, bs), b, c);
        }
      }
      if g[o].monitor != NULL {
        var c := BlockOfMonitor(g[o].monitor);
        assert Refers(g, o, c);
        if !hs0[c].black {
          ReachableStep(g, Greys(hs0, bs), Blacks(hs0, bs), b, c);
        }
      }
    }
  }

  /** A settled, fully scanned heap has blackened everything that is reachable. */
  lemma SettledReachesAll(g: Graph, hs0: Headers, hs: Headers, bs: seq<Block>, p: int)
    requires Hosted(g, hs0) && InBlocks(g, bs) && Settled(g, hs0, hs, MarkLimit(g, hs0, bs)) && ScannedTo(hs, bs, |bs|)
    requires ReachableAvoiding(g, Greys(hs0, bs), Blacks(hs0, bs), p)
    ensures p in hs && hs[p].black
  {
    var closed := set q | q in hs && hs[q].black;
    forall b | b in Greys(hs0, bs) ensures b in closed {
      var i :| 0 <= i < |bs| && bs[i].addr in hs0 && bs[i].kind.Collectible() && hs0[bs[i].addr].grey && b == bs[i].addr;
      assert GreyIsBlack(hs, bs, i) && MarkOnlyAt(hs0, hs, b);
    }
    forall b, c | b in closed && b !in Blacks(hs0, bs) && c !in Blacks(hs0, bs) && Edge(g, b, c) ensures c in closed {
      var o :| o in g && BlockOf(g, o) == b && Refers(g, o, c);
      assert SettledAt(g, hs0, hs, o) && MarkOnlyAt(hs0, hs, b) && IsBlock(bs, b);
      if i :| 0 <= i < |g[o].fields| && FieldRefers(g, o, i, c) {
        assert FieldBlack(g, hs, o, i);
      }
    }
    var path :| IsPath(g, path, Blacks(hs0, bs)) && path[0] in Greys(hs0, bs) && path[|path| - 1] == p;
    ReachableInClosed(g, Greys(hs0, bs), Blacks(hs0, bs), closed, path);
  }

  /** Blackens exactly what is reachable from a grey block without passing through a block that was
      black before; headers change only in the ways marking may change them. */
  method MarkChildren(h: Heap, g: Graph)
    requires h.Valid() && Fits(g, h.headers, h.blocks)
    requires forall i :: 0 <= i < |h.blocks| ==> GreyAt(g, h.headers, h.blocks, i)
    modifies h`headers
    ensures h.Valid() && MarkOnly(old(h.headers), h.headers)
    ensures forall p :: p in h.headers ==>
              (h.headers[p].black <==>
                old(h.headers)[p].black || ReachableAvoiding(g, Greys(old(h.headers), h.blocks), Blacks(old(h.headers), h.blocks), p))
  {
    ghost var hs0 := h.headers;
    ghost var limit := MarkLimit(g, hs0, h.blocks);
    MarkLimitClosed(g, hs0, h.blocks);
    ScanHeap(h, g, limit);
    MarkedWellFormed(h.start, h.end, hs0, h.headers, h.freeList, h.blocks, h.free);
    forall p | p in h.headers
      ensures h.headers[p].black <==> hs0[p].black || ReachableAvoiding(g, Greys(hs0, h.blocks), Blacks(hs0, h.blocks), p)
    {
      assert MarkOnlyAt(hs0, h.headers, p);
      if ReachableAvoiding(g, Greys(hs0, h.blocks), Blacks(hs0, h.blocks), p) {
        SettledReachesAll(g, hs0, h.headers, h.blocks, p);
      }
    }
  }

  /** Marking keeps the heap well formed. */
  lemma MarkedWellFormed(start: int, end: int, hs0: Headers, hs: Headers, head: int, bs: seq<Block>, s: seq<int>)
    requires WellFormed(start, end, hs0, head, bs, s) && MarkOnly(hs0, hs)
    ensures WellFormed(start, end, hs, head, bs, s)
  {
    forall i | 0 <= i < |bs| ensures HeaderAt(hs, bs, i) {
      assert HeaderAt(hs0, bs, i) && MarkOnlyAt(hs0, hs, bs[i].addr);
    }
    forall a | a in s ensures a in hs && hs[a] == hs0[a] {
      var i :| 0 <= i < |bs| && bs[i].addr == a && bs[i].kind.Free?;
      assert HeaderAt(hs0, bs, i) && MarkOnlyAt(hs0, hs, a);
    }
    SameList(hs0, hs, head, s);
  }
}
