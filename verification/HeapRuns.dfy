/** Whole histories of the heap: reservations, new objects, stores, releases and collections, in any
    order and number. Between the two halves of a release, and between the two halves of a collection,
    other threads may do anything. It is proved exactly when the heap stays well formed and keeps fitting
    its objects, and that then whatever the program can reach stays where it is. */
module HeapRuns {
  import opened Basics
  import opened HeapBlocks
  import opened Heap
  import opened Allocator
  import opened Releaser
  import opened ObjectGraph
  import opened Carrying
  import opened Collector
  import opened Survival

  /** What a thread inside memoryFree has read before it enters the heap monitor. */
  datatype Reading = Reading(mem: int, previous: int, next: int)

  /** What threads in the middle of an operation remember: whether one has swept and not yet spliced, and
      where its list of released blocks begins and ends; and what the releasing threads have read. */
  datatype Window = Window(collecting: bool, released: int, last: int, releasing: map<int, Reading>)

  /** The heap at one moment, with the objects in it. */
  datatype Snapshot = Snapshot(start: int, end: int, headers: Headers, blocks: seq<Block>, lists: Lists,
                               collecting: bool, releasing: map<int, Reading>, graph: Graph)

  ghost function Taken(h: Heap, g: Graph, w: Window, freed: seq<int>): Snapshot
    reads h
  {
    Snapshot(h.start, h.end, h.headers, h.blocks, h.ListsWith(w.released, w.last, freed), w.collecting, w.releasing, g)
  }

  datatype Request =
    | Reserve(size: nat, kind: Kind)                                              // memoryAlloc, and the monitors
    | New(shape: Shape, count: nat, byteSize: nat, permanent: bool)               // an object or array
    | Store(o: int, field: nat, value: int)                                       // a write to a reference field
    | StoreMonitor(o: int, monitor: int)
    | Fill(at: int, header: Header)                                               // a write to anything else
    | Begins(thread: int, mem: int)                                               // memoryFree, up to the heap monitor
    | Ends(thread: int)                                                           // memoryFree, inside the heap monitor
    | Sweeps(roots: seq<int>, pinned: seq<int>)                                   // a collection, threads stopped
    | Splices                                                                     // a collection, inside the heap monitor

  // ---------- the state ----------

  /** Block k is the one that is being released, and its right neighbour is the one that was read. */
  ghost predicate Awaits(s: Snapshot, k: nat, r: Reading)
    requires k < |s.blocks|
  {
    && s.blocks[k].addr == r.mem - HEADER_SIZE && s.blocks[k].kind.NonCollectible?
    && r.next == (if s.blocks[k].End() < s.end then s.blocks[k].End() else NULL)
  }

  ghost predicate ReadingAt(s: Snapshot, thread: int)
    requires thread in s.releasing
  {
    var r := s.releasing[thread];
    && (exists k :: 0 <= k < |s.blocks| && Awaits(s, k, r))
    && r.previous != r.mem - HEADER_SIZE && (r.previous != NULL ==> r.previous in s.headers)
  }

  /** Every thread inside memoryFree has a block of its own. */
  ghost predicate ReadingsKnown(s: Snapshot) {
    && (forall thread :: thread in s.releasing ==> ReadingAt(s, thread))
    && (forall one, other :: one in s.releasing && other in s.releasing && one != other ==> s.releasing[one].mem != s.releasing[other].mem)
  }

  /** The heap is well formed and fits its objects, and no thread has anything in hand that is not right. */
  ghost predicate Good(s: Snapshot) {
    && InOrder(s.start, s.end, s.headers, s.blocks, s.lists) && Fits(s.graph, s.headers, s.blocks)
    && ReadingsKnown(s) && (!s.collecting ==> s.lists.freed == [])
  }

  /** Block k is the reservation whose contents start at mem. */
  ghost predicate IsBlockOf(bs: seq<Block>, k: nat, mem: int) {
    k < |bs| && bs[k].addr == mem - HEADER_SIZE && bs[k].kind.NonCollectible?
  }

  ghost predicate IsMonitorBlock(bs: seq<Block>, a: int) {
    exists k :: 0 <= k < |bs| && bs[k].addr == a && (bs[k].kind.NonCollectible? || bs[k].kind.Plain?)
  }

  /** Address a lies behind the header of an allocated block. */
  ghost predicate InContents(bs: seq<Block>, a: int) {
    exists k :: 0 <= k < |bs| && !bs[k].kind.Free? && bs[k].addr < a < bs[k].End()
  }

  /** What each request demands of the program. */
  ghost predicate Enabled(s: Snapshot, r: Request) {
    match r
    case Reserve(size, kind) => size < UINT32_LIMIT && (kind.NonCollectible? || kind.Plain?)
    case New(shape, count, byteSize, permanent) =>
      && FIELD_SIZE * count <= byteSize < UINT32_LIMIT - HEADER_SIZE && count < UINT16_LIMIT
      && (permanent || shape.PrimitiveArray? ==> count == 0)
    case Store(o, field, value) =>
      o in s.graph && field < |s.graph[o].fields| && (value == NULL || value in s.graph)
    case StoreMonitor(o, monitor) =>
      o in s.graph && (monitor == NULL || (monitor !in s.graph && IsMonitorBlock(s.blocks, BlockOfMonitor(monitor))))
    case Fill(at, header) => InContents(s.blocks, at)
    case Begins(thread, mem) =>
      && thread !in s.releasing && (exists k: nat :: IsBlockOf(s.blocks, k, mem))
      && forall other :: other in s.releasing ==> s.releasing[other].mem != mem
    case Ends(thread) => thread in s.releasing && Vacant(s.graph, s.releasing[thread].mem - HEADER_SIZE)
    case Sweeps(roots, pinned) => !s.collecting && RootsKnown(s.headers, s.blocks, s.graph, roots, pinned)
    case Splices => s.collecting
  }

  // ---------- the steps ----------

  /** The blocks of s' follow from those of s by an allocation. */
  ghost predicate GrantedIn(s: Snapshot, s': Snapshot, k: nat, required: int, kind: Kind, contained: nat) {
    && k < |s.blocks| && FirstFit(s.blocks, s.lists.free, k, required) && s.lists.last == s'.lists.last
    && s'.lists.released == s.lists.released && s'.lists.freed == s.lists.freed
    && s'.collecting == s.collecting && s'.releasing == s.releasing
    && Granted(s.headers, s.blocks, s.lists.free, k, required, kind, contained, s'.headers, s'.lists.head, s'.lists.free)
    && s'.blocks == Allocated(s.blocks, k, required, kind)
  }

  /** The object pointer of an object allocated in block q. */
  function NewPointer(q: int, shape: Shape, count: nat): int {
    q + HEADER_SIZE + FieldBytes(shape, count)
  }

  ghost predicate NewIn(s: Snapshot, s': Snapshot, k: nat, shape: Shape, count: nat, byteSize: nat, permanent: bool) {
    && GrantedIn(s, s', k, RequiredSize(byteSize), KindFor(shape, count, permanent), count)
    && var q := s'.blocks[AllocatedIndex(s.blocks, k, RequiredSize(byteSize))].addr;
       s'.graph == s.graph[NewPointer(q, shape, count) := NewObject(shape, count)]
  }

  ghost predicate BegunIn(s: Snapshot, s': Snapshot, k: nat, thread: int, mem: int) {
    && IsBlockOf(s.blocks, k, mem)
    && s' == s.(releasing := s.releasing[thread := Reading(mem, Left(s.blocks, k), Right(s.blocks, k))])
  }

  ghost predicate EndedIn(s: Snapshot, s': Snapshot, k: nat, thread: int) {
    && thread in s.releasing && IsBlockOf(s.blocks, k, s.releasing[thread].mem)
    && Locked(s.headers, s.blocks, s.lists, k, s.releasing[thread].previous, s'.headers, s'.lists)
    && s'.blocks == Released(s.blocks, k) && s'.releasing == s.releasing - {thread}
    && s'.graph == s.graph && s'.collecting == s.collecting
  }

  ghost predicate SweptIn(s: Snapshot, s': Snapshot, roots: seq<int>, pinned: seq<int>) {
    && (forall o :: o in roots ==> o in s.graph)
    && InOrder(s'.start, s'.end, s'.headers, s'.blocks, s'.lists) && s'.headers.Keys == s.headers.Keys
    && (forall a :: a in s'.lists.free ==> a in s.lists.free)
    && s'.graph == Restricted(s.graph, Survivors(s.graph, s.blocks, roots, pinned))
    && s'.blocks == Swept(s.blocks, MarkedBlocks(s.graph, roots, pinned, s.blocks))
    && SurvivorsKept(s.headers, s.blocks, s'.headers, s'.blocks, MarkedBlocks(s.graph, roots, pinned, s.blocks))
    && s'.collecting && s'.releasing == s.releasing
  }

  ghost predicate SplicedIn(s: Snapshot, s': Snapshot) {
    && Spliced(s.headers, s.lists, s'.headers)
    && s' == s.(headers := s'.headers, lists := s'.lists, collecting := false)
    && var l := s.lists; s'.lists == Lists(if l.released == NULL then l.head else l.released, l.freed + l.free, NULL, NULL, [])
  }

  /** The effect of a request. */
  ghost predicate Stepped(s: Snapshot, r: Request, s': Snapshot) {
    && s'.start == s.start && s'.end == s.end
    && match r
       case Reserve(size, kind) =>
         if HasFit(s.blocks, s.lists.freed, RequiredSize(size)) then
           s'.graph == s.graph && exists k :: GrantedIn(s, s', k, RequiredSize(size), kind, 0)
         else s' == s
       case New(shape, count, byteSize, permanent) =>
         if HasFit(s.blocks, s.lists.freed, RequiredSize(byteSize)) then
           exists k :: NewIn(s, s', k, shape, count, byteSize, permanent)
         else s' == s
       case Store(o, field, value) =>
         && o in s.graph && field < |s.graph[o].fields|
         && s' == s.(graph := s.graph[o := s.graph[o].(fields := s.graph[o].fields[field := value])])
       case StoreMonitor(o, monitor) =>
         o in s.graph && s' == s.(graph := s.graph[o := s.graph[o].(monitor := monitor)])
       case Fill(at, header) => s' == s.(headers := s.headers[at := header])
       case Begins(thread, mem) => exists k: nat :: BegunIn(s, s', k, thread, mem)
       case Ends(thread) => exists k: nat :: EndedIn(s, s', k, thread)
       case Sweeps(roots, pinned) => SweptIn(s, s', roots, pinned)
       case Splices => SplicedIn(s, s')
  }

  // ---------- the methods take these steps ----------

  lemma NoCollection(h: Heap, w: Window, freed: seq<int>, g: Graph)
    requires Good(Taken(h, g, w, freed)) && !w.collecting
    ensures h.Valid() && freed == []
  {
    OneList(h.start, h.end, h.headers, h.freeList, h.blocks, h.free);
  }

  /** The block of a thread inside memoryFree. */
  lemma ReleasingBlock(s: Snapshot, thread: int) returns (k: nat)
    requires Good(s) && thread in s.releasing
    ensures k < |s.blocks| && Awaits(s, k, s.releasing[thread]) && s.releasing[thread].next == Right(s.blocks, k)
    ensures IsBlockOf(s.blocks, k, s.releasing[thread].mem)
  {
    assert ReadingAt(s, thread);
    k :| 0 <= k < |s.blocks| && Awaits(s, k, s.releasing[thread]);
    Apart(s.blocks, s.start, s.end, k);
  }

  /** An allocation in the heap at this moment. */
  method Allocate(h: Heap, g: Graph, w: Window, ghost freed: seq<int>, size: nat, kind: Kind, contained: nat, locationByteOffset: int)
    returns (ok: bool, location: int, ghost k: nat)
    requires Good(Taken(h, g, w, freed)) && size < UINT32_LIMIT && contained < UINT16_LIMIT && !kind.Free?
    modifies h
    ensures ok <==> HasFit(old(h.blocks), freed, RequiredSize(size))
    ensures !ok ==> Taken(h, g, w, freed) == old(Taken(h, g, w, freed))
    ensures ok ==> GrantedIn(old(Taken(h, g, w, freed)), Taken(h, g, w, freed), k, RequiredSize(size), kind, contained)
    ensures ok ==> location == h.blocks[AllocatedIndex(old(h.blocks), k, RequiredSize(size))].addr + HEADER_SIZE + locationByteOffset
  {
    ok, location, k := AllocateBlock(h, size, kind, contained, locationByteOffset, w.released, freed);
  }

  method ReserveBlock(h: Heap, g: Graph, w: Window, ghost freed: seq<int>, size: nat, kind: Kind)
    requires Good(Taken(h, g, w, freed)) && Enabled(Taken(h, g, w, freed), Reserve(size, kind))
    modifies h
    ensures Stepped(old(Taken(h, g, w, freed)), Reserve(size, kind), Taken(h, g, w, freed))
  {
    var ok: bool;
    var location: int;
    ghost var k: nat;
    ok, location, k := Allocate(h, g, w, freed, size, kind, 0, 0);
  }

  method Create(h: Heap, g: Graph, w: Window, ghost freed: seq<int>, shape: Shape, count: nat, byteSize: nat, permanent: bool)
    returns (ghost g': Graph)
    requires Good(Taken(h, g, w, freed)) && Enabled(Taken(h, g, w, freed), New(shape, count, byteSize, permanent))
    modifies h
    ensures Stepped(old(Taken(h, g, w, freed)), New(shape, count, byteSize, permanent), Taken(h, g', w, freed))
  {
    ghost var s := Taken(h, g, w, freed);
    var ok: bool;
    var location: int;
    ghost var k: nat;
    ok, location, k := Allocate(h, g, w, freed, byteSize, KindFor(shape, count, permanent), count, FieldBytes(shape, count));
    g' := g;
    if ok {
      g' := g[location := NewObject(shape, count)];
      NewStepped(s, Taken(h, g, w, freed), k, shape, count, byteSize, permanent, location);
    }
  }

  /** The step of an allocation, with the new object in the block. */
  lemma NewStepped(s: Snapshot, s1: Snapshot, k: nat, shape: Shape, count: nat, byteSize: nat, permanent: bool, location: int)
    requires GrantedIn(s, s1, k, RequiredSize(byteSize), KindFor(shape, count, permanent), count)
    requires HasFit(s.blocks, s.lists.freed, RequiredSize(byteSize)) && s1.graph == s.graph && s1.start == s.start && s1.end == s.end
    requires location == NewPointer(s1.blocks[AllocatedIndex(s.blocks, k, RequiredSize(byteSize))].addr, shape, count)
    ensures Stepped(s, New(shape, count, byteSize, permanent), s1.(graph := s.graph[location := NewObject(shape, count)]))
  {
    assert NewIn(s, s1.(graph := s.graph[location := NewObject(shape, count)]), k, shape, count, byteSize, permanent);
  }

  /** memoryFree before the heap monitor, and inside. */
  method Release(h: Heap, g: Graph, w: Window, ghost freed: seq<int>, r: Request) returns (w': Window, ghost freed': seq<int>)
    requires Good(Taken(h, g, w, freed)) && Enabled(Taken(h, g, w, freed), r) && (r.Begins? || r.Ends?)
    modifies h
    ensures Stepped(old(Taken(h, g, w, freed)), r, Taken(h, g, w', freed'))
  {
    ghost var s := Taken(h, g, w, freed);
    ghost var k: nat;
    match r
    case Begins(thread, mem) =>
      k :| IsBlockOf(h.blocks, k, mem);
      var previous, next := ReadNeighbours(h, mem, k);
      w', freed' := w.(releasing := w.releasing[thread := Reading(mem, previous, next)]), freed;
      assert BegunIn(s, Taken(h, g, w', freed'), k, thread, mem);
    case Ends(thread) =>
      var read := w.releasing[thread];
      k := ReleasingBlock(s, thread);
      assert ReadingAt(s, thread);
      freed' := FreeLocked(h, read.mem - HEADER_SIZE, read.previous, read.next, k, w.released, w.last, freed);
      w' := w.(releasing := w.releasing - {thread});
      assert EndedIn(s, Taken(h, g, w', freed'), k, thread);
  }

  /** A collection with all other threads stopped, and its end inside the heap monitor. */
  method Collect(h: Heap, g: Graph, w: Window, ghost freed: seq<int>, r: Request)
    returns (ghost g': Graph, w': Window, ghost freed': seq<int>)
    requires Good(Taken(h, g, w, freed)) && Enabled(Taken(h, g, w, freed), r) && (r.Sweeps? || r.Splices?)
    modifies h
    ensures Stepped(old(Taken(h, g, w, freed)), r, Taken(h, g', w', freed'))
  {
    ghost var s := Taken(h, g, w, freed);
    match r
    case Sweeps(roots, pinned) =>
      NoCollection(h, w, freed, g);
      g' := Restricted(g, Survivors(g, h.blocks, roots, pinned));
      var released, last;
      released, last, freed' := RunGarbageCollection(h, g, roots, pinned);
      w' := Window(true, released, last, w.releasing);
      assert SweptIn(s, Taken(h, g', w', freed'), roots, pinned);
    case Splices =>
      ReleasedKnown(h.headers, w.released, freed);
      Splice(h, w.released, w.last, freed);
      assert freed == [] ==> freed + s.lists.free == s.lists.free;
      g', w', freed' := g, Window(false, NULL, NULL, w.releasing), [];
      assert SplicedIn(s, Taken(h, g', w', freed'));
  }

  /** Carries out one request with the operations of the allocator and the collector. */
  method Perform(h: Heap, g: Graph, w: Window, ghost freed: seq<int>, r: Request)
    returns (ghost g': Graph, w': Window, ghost freed': seq<int>)
    requires Good(Taken(h, g, w, freed)) && Enabled(Taken(h, g, w, freed), r)
    modifies h
    ensures Stepped(old(Taken(h, g, w, freed)), r, Taken(h, g', w', freed'))
  {
    g', w', freed' := g, w, freed;
    match r
    case Reserve(size, kind) =>
      ReserveBlock(h, g, w, freed, size, kind);
    case New(shape, count, byteSize, permanent) =>
      g' := Create(h, g, w, freed, shape, count, byteSize, permanent);
    case Store(o, field, value) =>
      g' := g[o := g[o].(fields := g[o].fields[field := value])];
    case StoreMonitor(o, monitor) =>
      g' := g[o := g[o].(monitor := monitor)];
    case Fill(at, header) =>
      h.headers := h.headers[at := header];
    case Begins(_, _) =>
      w', freed' := Release(h, g, w, freed, r);
    case Ends(_) =>
      w', freed' := Release(h, g, w, freed, r);
    case Sweeps(_, _) =>
      g', w', freed' := Collect(h, g, w, freed, r);
    case Splices =>
      g', w', freed' := Collect(h, g, w, freed, r);
  }

  // ---------- what threads have read stays known ----------

  /** What threads have read is still known when all reservations but one are still there. */
  lemma ReadingsStay(s: Snapshot, s': Snapshot, gone: set<int>)
    requires ReadingsKnown(s) && s'.end == s.end && s.headers.Keys <= s'.headers.Keys
    requires forall thread :: thread in s'.releasing ==>
               thread in s.releasing && s'.releasing[thread] == s.releasing[thread] && s.releasing[thread].mem - HEADER_SIZE !in gone
    requires forall i :: 0 <= i < |s.blocks| && s.blocks[i].kind.NonCollectible? && s.blocks[i].addr !in gone ==> s.blocks[i] in s'.blocks
    ensures ReadingsKnown(s')
  {
    forall thread | thread in s'.releasing ensures ReadingAt(s', thread) {
      assert ReadingAt(s, thread);
      var r := s.releasing[thread];
      var k :| 0 <= k < |s.blocks| && Awaits(s, k, r);
      assert s.blocks[k] in s'.blocks;
      var k' :| 0 <= k' < |s'.blocks| && s'.blocks[k'] == s.blocks[k];
      assert Awaits(s', k', r);
    }
  }

  // ---------- what every step does to a heap that is right ----------

  lemma GrantedGood(s: Snapshot, s': Snapshot, k: nat, required: int, kind: Kind, contained: nat)
    requires Good(s) && GrantedIn(s, s', k, required, kind, contained) && !kind.Free? && s'.start == s.start && s'.end == s.end
    ensures InOrder(s'.start, s'.end, s'.headers, s'.blocks, s'.lists) && ReadingsKnown(s')
    ensures AllocatedFrom(s.headers, s.blocks, s'.headers, s'.blocks, k, required, kind)
    ensures GrantedAt(s.blocks, k, required) == s'.blocks[AllocatedIndex(s.blocks, k, required)].addr
  {
    GrantedHolds(s.headers, s.lists.head, s.blocks, s.lists.free, k, required, kind, contained,
                 s'.headers, s'.lists.head, s'.lists.free, s.lists.released, s.lists.freed, s.start, s.end);
    forall i | 0 <= i < |s.blocks| && s.blocks[i].kind.NonCollectible? ensures s.blocks[i] in s'.blocks {
      AllocatedAt(s.blocks, k, required, kind, i);
    }
    GrantedKeys(s, s', k, required, kind, contained);
    ReadingsStay(s, s', {});
  }

  lemma GrantedKeys(s: Snapshot, s': Snapshot, k: nat, required: int, kind: Kind, contained: nat)
    requires GrantedIn(s, s', k, required, kind, contained)
    ensures s.headers.Keys <= s'.headers.Keys
  {
  }

  lemma ReserveGood(s: Snapshot, size: nat, kind: Kind, s': Snapshot)
    requires Good(s) && Enabled(s, Reserve(size, kind)) && Stepped(s, Reserve(size, kind), s')
    ensures Good(s')
  {
    if HasFit(s.blocks, s.lists.freed, RequiredSize(size)) {
      var k :| GrantedIn(s, s', k, RequiredSize(size), kind, 0);
      GrantedGood(s, s', k, RequiredSize(size), kind, 0);
      AllocatedFits(s.graph, s.headers, s.blocks, s'.headers, s'.blocks, k, RequiredSize(size), kind);
    }
  }

  lemma NewIsReady(s: Snapshot, s': Snapshot, k: nat, shape: Shape, count: nat, byteSize: nat, permanent: bool)
    requires Good(s) && Enabled(s, New(shape, count, byteSize, permanent)) && s'.start == s.start && s'.end == s.end
    requires NewIn(s, s', k, shape, count, byteSize, permanent)
    ensures var n := AllocatedIndex(s.blocks, k, RequiredSize(byteSize));
            ReadyFor(s'.headers, s'.blocks, n, NewPointer(s'.blocks[n].addr, shape, count), shape, count, permanent)
  {
    var kind, required := KindFor(shape, count, permanent), RequiredSize(byteSize);
    var n := AllocatedIndex(s.blocks, k, required);
    GrantedGood(s, s', k, required, kind, count);
    PayloadFits(s.blocks, k, byteSize, kind, s.start, s.end);
    assert s'.blocks[n] == Allocated(s.blocks, k, required, kind)[n] && s'.blocks[n].kind == kind;
    assert s'.blocks[n].size - HEADER_SIZE >= byteSize;
  }

  lemma NewGood(s: Snapshot, shape: Shape, count: nat, byteSize: nat, permanent: bool, s': Snapshot)
    requires Good(s) && Enabled(s, New(shape, count, byteSize, permanent)) && Stepped(s, New(shape, count, byteSize, permanent), s')
    ensures Good(s')
    ensures forall o :: o in s.graph ==> o in s'.graph && s'.graph[o] == s.graph[o]
  {
    if HasFit(s.blocks, s.lists.freed, RequiredSize(byteSize)) {
      var k :| NewIn(s, s', k, shape, count, byteSize, permanent);
      GrantedGood(s, s', k, RequiredSize(byteSize), KindFor(shape, count, permanent), count);
      NewIsReady(s, s', k, shape, count, byteSize, permanent);
      var n := AllocatedIndex(s.blocks, k, RequiredSize(byteSize));
      ObjectFits(s.graph, s.headers, s.blocks, s'.headers, s'.blocks, k, RequiredSize(byteSize), s.start, s.end,
                 NewPointer(s'.blocks[n].addr, shape, count), shape, count, permanent);
    }
  }

  /** Writing a reference or a monitor into an object leaves every object in its block. */
  lemma WrittenFits(g: Graph, hs: Headers, bs: seq<Block>, o: int, written: Object)
    requires Fits(g, hs, bs) && Represents(hs, bs) && o in g
    requires written.shape == g[o].shape && |written.fields| == |g[o].fields|
    requires forall i :: 0 <= i < |written.fields| ==> written.fields[i] == NULL || written.fields[i] in g
    requires written.monitor != NULL ==> written.monitor !in g && IsMonitorBlock(bs, BlockOfMonitor(written.monitor))
    ensures Fits(g[o := written], hs, bs)
  {
    var g' := g[o := written];
    forall p | p in g' ensures ObjectHosted(g', hs, p) && BlockOf(g', p) == BlockOf(g, p) {
      assert ObjectHosted(g, hs, p);
      if p == o && written.monitor != NULL {
        var k :| 0 <= k < |bs| && bs[k].addr == BlockOfMonitor(written.monitor) && (bs[k].kind.NonCollectible? || bs[k].kind.Plain?);
        assert HeaderAt(hs, bs, k);
      }
    }
    forall p | p in g' ensures IsBlock(bs, BlockOf(g', p)) && (g'[p].monitor != NULL ==> IsBlock(bs, BlockOfMonitor(g'[p].monitor))) {
      assert IsBlock(bs, BlockOf(g, p));
    }
    forall i | 0 <= i < |bs| ensures BlockHostsAt(g', hs, bs, i) {
      assert BlockHostsAt(g, hs, bs, i);
    }
  }

  lemma StoreGood(s: Snapshot, o: int, field: nat, value: int, s': Snapshot)
    requires Good(s) && Enabled(s, Store(o, field, value)) && Stepped(s, Store(o, field, value), s')
    ensures Good(s')
  {
    assert ObjectHosted(s.graph, s.headers, o);
    if s.graph[o].monitor != NULL {
      var k := HostIsAllocated(s.graph, s.headers, s.blocks, BlockOfMonitor(s.graph[o].monitor));
      assert HeaderAt(s.headers, s.blocks, k);
    }
    WrittenFits(s.graph, s.headers, s.blocks, o, s'.graph[o]);
    ReadingsStay(s, s', {});
  }

  lemma StoreMonitorGood(s: Snapshot, o: int, monitor: int, s': Snapshot)
    requires Good(s) && Enabled(s, StoreMonitor(o, monitor)) && Stepped(s, StoreMonitor(o, monitor), s')
    ensures Good(s')
  {
    assert ObjectHosted(s.graph, s.headers, o);
    WrittenFits(s.graph, s.headers, s.blocks, o, s'.graph[o]);
    ReadingsStay(s, s', {});
  }

  /** What the program writes behind the headers of its blocks may look like a header, but is none. */
  lemma FillGood(s: Snapshot, at: int, header: Header, s': Snapshot)
    requires Good(s) && Enabled(s, Fill(at, header)) && Stepped(s, Fill(at, header), s')
    ensures Good(s')
  {
    var k :| 0 <= k < |s.blocks| && !s.blocks[k].kind.Free? && s.blocks[k].addr < at < s.blocks[k].End();
    TiledOrdered(s.blocks, s.start, s.end);
    assert forall i :: 0 <= i < |s.blocks| ==> s.blocks[i].addr != at;
    FilledInOrder(s, at, header);
    FilledFits(s.graph, s.headers, s.blocks, at, header);
    ReadingsStay(s, s', {});
  }

  lemma FilledInOrder(s: Snapshot, at: int, header: Header)
    requires InOrder(s.start, s.end, s.headers, s.blocks, s.lists)
    requires forall i :: 0 <= i < |s.blocks| ==> s.blocks[i].addr != at
    ensures InOrder(s.start, s.end, s.headers[at := header], s.blocks, s.lists)
  {
    var hs' := s.headers[at := header];
    forall i | 0 <= i < |s.blocks| ensures HeaderAt(hs', s.blocks, i) {
      assert HeaderAt(s.headers, s.blocks, i);
    }
    ListKnown(s.headers, s.lists.head, s.lists.free);
    ListKnown(s.headers, s.lists.released, s.lists.freed);
    forall a | a in s.lists.free + s.lists.freed ensures a != at {
      assert IsFreeBlock(s.blocks, a);
    }
    assert forall a :: a in s.lists.free || a in s.lists.freed ==> a in s.lists.free + s.lists.freed;
    SameList(s.headers, hs', s.lists.head, s.lists.free);
    SameList(s.headers, hs', s.lists.released, s.lists.freed);
  }

  lemma FilledFits(g: Graph, hs: Headers, bs: seq<Block>, at: int, header: Header)
    requires Fits(g, hs, bs) && forall i :: 0 <= i < |bs| ==> bs[i].addr != at
    ensures Fits(g, hs[at := header], bs)
  {
    var hs' := hs[at := header];
    forall o | o in g ensures ObjectHosted(g, hs', o) {
      assert ObjectHosted(g, hs, o) && IsBlock(bs, BlockOf(g, o));
    }
    forall i | 0 <= i < |bs| ensures BlockHostsAt(g, hs', bs, i) {
      assert BlockHostsAt(g, hs, bs, i);
    }
  }

  lemma BeginsGood(s: Snapshot, thread: int, mem: int, s': Snapshot)
    requires Good(s) && Enabled(s, Begins(thread, mem)) && Stepped(s, Begins(thread, mem), s')
    ensures Good(s')
  {
    var k: nat :| BegunIn(s, s', k, thread, mem);
    NeighbourHeaders(s.headers, s.blocks, k, s.start, s.end);
    Apart(s.blocks, s.start, s.end, k);
    assert Awaits(s', k, s'.releasing[thread]);
    forall other | other in s'.releasing ensures ReadingAt(s', other) {
      if other != thread {
        assert ReadingAt(s, other);
        var i :| 0 <= i < |s.blocks| && Awaits(s, i, s.releasing[other]);
        assert Awaits(s', i, s'.releasing[other]);
      }
    }
  }

  /** The word that the thread has read is safe, and its right neighbour is no end of a released list. */
  ghost predicate EndsSafely(s: Snapshot, thread: int) {
    && thread in s.releasing
    && forall k: nat :: IsBlockOf(s.blocks, k, s.releasing[thread].mem) ==>
         WordSafe(s.headers, s.blocks, k, s.releasing[thread].previous) && NeighbourSafe(s.blocks, s.lists, k)
  }

  lemma BlockOfOnce(bs: seq<Block>, start: int, end: int, k: nat, k': nat, mem: int)
    requires Tiled(bs, start, end) && IsBlockOf(bs, k, mem) && IsBlockOf(bs, k', mem)
    ensures k == k'
  {
    Apart(bs, start, end, k);
  }

  lemma EndsSafelyAt(s: Snapshot, k: nat, thread: int)
    requires Tiled(s.blocks, s.start, s.end) && thread in s.releasing && IsBlockOf(s.blocks, k, s.releasing[thread].mem)
    ensures EndsSafely(s, thread) <==>
              WordSafe(s.headers, s.blocks, k, s.releasing[thread].previous) && NeighbourSafe(s.blocks, s.lists, k)
  {
    forall k': nat | IsBlockOf(s.blocks, k', s.releasing[thread].mem) ensures k' == k {
      BlockOfOnce(s.blocks, s.start, s.end, k, k', s.releasing[thread].mem);
    }
  }

  lemma EndedOrder(s: Snapshot, s': Snapshot, k: nat, thread: int)
    requires Good(s) && EndedIn(s, s', k, thread) && s'.start == s.start && s'.end == s.end
    ensures InOrder(s'.start, s'.end, s'.headers, s'.blocks, s'.lists) <==> EndsSafely(s, thread)
    ensures EndsSafely(s, thread) ==> OthersUntouched(s.headers, s'.headers, s.blocks, k)
  {
    assert ReadingAt(s, thread);
    LockedIff(s.headers, s.blocks, s.lists, k, s.releasing[thread].previous, s'.headers, s'.lists, s.start, s.end);
    EndsSafelyAt(s, k, thread);
  }

  lemma LockedRest(s: Snapshot, s': Snapshot, k: nat, thread: int)
    requires EndedIn(s, s', k, thread)
    ensures s'.headers.Keys == s.headers.Keys && (s.lists.freed == [] ==> s'.lists.freed == [])
  {
  }

  lemma EndsGood(s: Snapshot, thread: int, s': Snapshot)
    requires Good(s) && Enabled(s, Ends(thread)) && Stepped(s, Ends(thread), s')
    ensures Good(s') <==> EndsSafely(s, thread)
  {
    var k: nat :| EndedIn(s, s', k, thread);
    EndedOrder(s, s', k, thread);
    if EndsSafely(s, thread) {
      ReleasedFits(s.graph, s.headers, s.blocks, s'.headers, s'.blocks, k, s.start, s.end);
      LockedRest(s, s', k, thread);
      EndsReadings(s, s', k, thread);
    }
  }

  lemma EndsReadings(s: Snapshot, s': Snapshot, k: nat, thread: int)
    requires ReadingsKnown(s) && EndedIn(s, s', k, thread) && s'.end == s.end && s.headers.Keys <= s'.headers.Keys
    ensures ReadingsKnown(s')
  {
    forall i | 0 <= i < |s.blocks| && s.blocks[i].kind.NonCollectible? && s.blocks[i].addr !in {s.blocks[k].addr}
      ensures s.blocks[i] in s'.blocks
    {
      ReleasedMembers(s.blocks, k, s.blocks[i]);
    }
    ReadingsStay(s, s', {s.blocks[k].addr});
  }

  /** A collection leaves the objects fitting exactly if its survivors are covered. */
  lemma SweepsGood(s: Snapshot, roots: seq<int>, pinned: seq<int>, s': Snapshot)
    requires Good(s) && Enabled(s, Sweeps(roots, pinned)) && Stepped(s, Sweeps(roots, pinned), s')
    ensures Good(s') <==> Covered(s.graph, s.blocks, roots, pinned)
  {
    SurvivorsFit(s.graph, s.headers, s.blocks, s'.headers, s'.blocks, roots, pinned, s.start, s.end);
    SweepsReadings(s, roots, pinned, s');
  }

  lemma SweepsReadings(s: Snapshot, roots: seq<int>, pinned: seq<int>, s': Snapshot)
    requires ReadingsKnown(s) && SweptIn(s, s', roots, pinned) && s'.end == s.end
    ensures ReadingsKnown(s')
  {
    var black := MarkedBlocks(s.graph, roots, pinned, s.blocks);
    forall i | 0 <= i < |s.blocks| && s.blocks[i].kind.NonCollectible? ensures s.blocks[i] in s'.blocks {
      assert s.blocks[i] in s.blocks && Referenced(s.blocks[i], black);
    }
    ReadingsStay(s, s', {});
  }

  lemma SplicedKeeps(s: Snapshot, s': Snapshot)
    requires Good(s) && SplicedIn(s, s')
    ensures WellFormed(s.start, s.end, s'.headers, s'.lists.head, s.blocks, s'.lists.free)
    ensures OnlyLinksDiffer(s.headers, s'.headers, s.lists.freed + s.lists.free)
    ensures forall i :: 0 <= i < |s.blocks| && !s.blocks[i].kind.Free? ==> UntouchedAt(s.headers, s'.headers, s.blocks, i)
  {
    var l := s.lists;
    ReleasedKnown(s.headers, l.released, l.freed);
    if l.freed == [] {
      assert s'.lists.free == l.free && s'.headers == s.headers;
      OneList(s.start, s.end, s.headers, l.head, s.blocks, l.free);
    } else {
      SplicedLinked(s.start, s.end, s.headers, s.blocks, l);
    }
    LinksUntouched(s.headers, s'.headers, s.blocks, l, s.start, s.end);
  }

  lemma LinksUntouched(hs: Headers, hs': Headers, bs: seq<Block>, l: Lists, start: int, end: int)
    requires Tiled(bs, start, end) && Represents(hs, bs) && ListsFree(bs, l.free + l.freed) && OnlyLinksDiffer(hs, hs', l.freed + l.free)
    ensures forall i :: 0 <= i < |bs| && !bs[i].kind.Free? ==> UntouchedAt(hs, hs', bs, i)
  {
    forall i | 0 <= i < |bs| && !bs[i].kind.Free? ensures UntouchedAt(hs, hs', bs, i) {
      assert HeaderAt(hs, bs, i);
      NotListed(bs, l.free + l.freed, start, end, i);
    }
  }

  lemma SplicesGood(s: Snapshot, s': Snapshot)
    requires Good(s) && Stepped(s, Splices, s')
    ensures Good(s')
  {
    SplicedKeeps(s, s');
    OneList(s.start, s.end, s'.headers, s'.lists.head, s.blocks, s'.lists.free);
    RelinkedFits(s.graph, s.headers, s'.headers, s.blocks);
    ReadingsStay(s, s', {});
  }

  /** The objects fit the heap as long as the headers of their blocks are the same. */
  lemma RelinkedFits(g: Graph, hs: Headers, hs': Headers, bs: seq<Block>)
    requires Fits(g, hs, bs) && Represents(hs, bs) && Represents(hs', bs)
    requires forall i :: 0 <= i < |bs| && !bs[i].kind.Free? ==> UntouchedAt(hs, hs', bs, i)
    ensures Fits(g, hs', bs)
  {
    var kept := Occupied(bs);
    forall i | 0 <= i < |bs| ensures CarriedAt(hs, bs, hs', bs, kept, i) {
      assert HeaderAt(hs, bs, i);
      assert !bs[i].kind.Free? ==> UntouchedAt(hs, hs', bs, i);
    }
    forall o | o in g ensures BlockOf(g, o) in kept && (g[o].monitor != NULL ==> BlockOfMonitor(g[o].monitor) in kept) {
      var i := HostIsAllocated(g, hs, bs, BlockOf(g, o));
      if g[o].monitor != NULL {
        i := HostIsAllocated(g, hs, bs, BlockOfMonitor(g[o].monitor));
      }
    }
    AllTargetsKept(g, kept);
    RestrictedFits(g, hs, bs, hs', bs, kept);
  }

  /** The condition on the state before a step: a release ends with words that are safe, and a collection
      finds its survivors covered. */
  ghost predicate KeepsGood(s: Snapshot, r: Request) {
    match r
    case Ends(thread) => EndsSafely(s, thread)
    case Sweeps(roots, pinned) => (forall o :: o in roots ==> o in s.graph) && Covered(s.graph, s.blocks, roots, pinned)
    case _ => true
  }

  /** A step leaves the heap right exactly if it meets the condition. */
  lemma StepGood(s: Snapshot, r: Request, s': Snapshot)
    requires Good(s) && Enabled(s, r) && Stepped(s, r, s')
    ensures Good(s') <==> KeepsGood(s, r)
  {
    match r
    case Reserve(size, kind) => ReserveGood(s, size, kind, s');
    case New(shape, count, byteSize, permanent) => NewGood(s, shape, count, byteSize, permanent, s');
    case Store(o, field, value) => StoreGood(s, o, field, value, s');
    case StoreMonitor(o, monitor) => StoreMonitorGood(s, o, monitor, s');
    case Fill(at, header) => FillGood(s, at, header, s');
    case Begins(thread, mem) => BeginsGood(s, thread, mem, s');
    case Ends(thread) => EndsGood(s, thread, s');
    case Sweeps(roots, pinned) => SweepsGood(s, roots, pinned, s');
    case Splices => SplicesGood(s, s');
  }

  // ---------- whole histories ----------

  ghost predicate StepAt(run: seq<Snapshot>, requests: seq<Request>, i: nat)
    requires i < |requests| && |run| == |requests| + 1
  {
    Enabled(run[i], requests[i]) && Stepped(run[i], requests[i], run[i + 1])
  }

  ghost predicate IsHistory(run: seq<Snapshot>, requests: seq<Request>) {
    |run| == |requests| + 1 && forall i :: 0 <= i < |requests| ==> StepAt(run, requests, i)
  }

  /** The heap as it is set up: one free block and no object, and no thread in the middle of anything. */
  ghost predicate Fresh(s: Snapshot) {
    && WellFormed(s.start, s.end, s.headers, s.lists.head, s.blocks, s.lists.free)
    && s.blocks == [Block(s.start, s.end - s.start, Free)] && s.graph == map[]
    && s.lists == Lists(s.start, [s.start], NULL, NULL, []) && !s.collecting && s.releasing == map[]
  }

  lemma FreshGood(s: Snapshot)
    requires Fresh(s)
    ensures Good(s)
  {
    OneList(s.start, s.end, s.headers, s.lists.head, s.blocks, s.lists.free);
    assert HeaderAt(s.headers, s.blocks, 0);
  }

  ghost predicate KeepsGoodAt(run: seq<Snapshot>, requests: seq<Request>, i: nat)
    requires i < |requests| && |run| == |requests| + 1
  {
    KeepsGood(run[i], requests[i])
  }

  lemma {:induction false} HistoryGood(run: seq<Snapshot>, requests: seq<Request>, n: nat)
    requires IsHistory(run, requests) && Good(run[0]) && n < |run|
    requires forall i :: 0 <= i < n ==> KeepsGoodAt(run, requests, i)
    ensures Good(run[n])
  {
    if n > 0 {
      HistoryGood(run, requests, n - 1);
      assert StepAt(run, requests, n - 1) && KeepsGoodAt(run, requests, n - 1);
      StepGood(run[n - 1], requests[n - 1], run[n]);
    }
  }

  /** Throughout a history the heap is well formed and fits its objects, so that every operation can be
      carried out again, exactly if every release and every collection in it meets its condition. */
  lemma EveryHistoryGood(run: seq<Snapshot>, requests: seq<Request>)
    requires IsHistory(run, requests) && Fresh(run[0])
    ensures (forall n :: 0 <= n < |run| ==> Good(run[n])) <==> (forall i :: 0 <= i < |requests| ==> KeepsGoodAt(run, requests, i))
  {
    FreshGood(run[0]);
    if forall i :: 0 <= i < |requests| ==> KeepsGoodAt(run, requests, i) {
      forall n | 0 <= n < |run| ensures Good(run[n]) {
        HistoryGood(run, requests, n);
      }
    }
    if forall n :: 0 <= n < |run| ==> Good(run[n]) {
      forall i | 0 <= i < |requests| ensures KeepsGoodAt(run, requests, i) {
        assert StepAt(run, requests, i) && Good(run[i]) && Good(run[i + 1]);
        StepGood(run[i], requests[i], run[i + 1]);
      }
    }
  }

  // ---------- operations that nothing comes between ----------

  /** Whatever comes at i: a release that ends there began in the step before, while no collection was
      under way. */
  ghost predicate AtOnce(run: seq<Snapshot>, requests: seq<Request>, i: nat)
    requires i < |requests| && |run| == |requests| + 1
  {
    requests[i].Ends? ==> i > 0 && !run[i - 1].collecting && requests[i - 1].Begins? && requests[i - 1].thread == requests[i].thread
  }

  /** A word that has just been read is right. */
  lemma JustRead(s: Snapshot, thread: int, mem: int, s': Snapshot)
    requires Good(s) && Enabled(s, Begins(thread, mem)) && Stepped(s, Begins(thread, mem), s') && !s.collecting
    ensures EndsSafely(s', thread)
  {
    var k: nat :| BegunIn(s, s', k, thread, mem);
    EndsSafelyAt(s', k, thread);
    if RightFree(s.blocks, k) {
      TiledBounds(s.blocks, s.start, s.end, k + 1);
    }
  }

  lemma AtOnceKeeps(run: seq<Snapshot>, requests: seq<Request>, i: nat)
    requires IsHistory(run, requests) && i < |requests| && Good(run[i]) && (i > 0 ==> Good(run[i - 1]))
    requires AtOnce(run, requests, i) && (requests[i].Sweeps? ==> KeepsGoodAt(run, requests, i))
    ensures KeepsGood(run[i], requests[i])
  {
    if requests[i].Ends? {
      assert StepAt(run, requests, i - 1);
      JustRead(run[i - 1], requests[i - 1].thread, requests[i - 1].mem, run[i]);
    }
  }

  lemma {:induction false} AtOnceGood(run: seq<Snapshot>, requests: seq<Request>, n: nat)
    requires IsHistory(run, requests) && Fresh(run[0]) && n < |run|
    requires forall i :: 0 <= i < |requests| ==> AtOnce(run, requests, i) && (requests[i].Sweeps? ==> KeepsGoodAt(run, requests, i))
    ensures Good(run[n]) && (n > 0 ==> Good(run[n - 1]))
  {
    if n == 0 {
      FreshGood(run[0]);
    } else {
      AtOnceGood(run, requests, n - 1);
      assert StepAt(run, requests, n - 1);
      AtOnceKeeps(run, requests, n - 1);
      StepGood(run[n - 1], requests[n - 1], run[n]);
    }
  }

  /** When no other thread comes between the two parts of a release or of a collection, only collections
      have a condition to meet. */
  lemma UninterruptedGood(run: seq<Snapshot>, requests: seq<Request>)
    requires IsHistory(run, requests) && Fresh(run[0])
    requires forall i :: 0 <= i < |requests| ==> AtOnce(run, requests, i) && (requests[i].Sweeps? ==> KeepsGoodAt(run, requests, i))
    ensures forall n :: 0 <= n < |run| ==> Good(run[n])
  {
    forall n | 0 <= n < |run| ensures Good(run[n]) {
      AtOnceGood(run, requests, n);
    }
  }

  // ---------- what lives on ----------

  /** The program still has a use for the block at a: it does not free it, and can reach it, or has made
      it permanent, when a collection comes. */
  ghost predicate InUse(s: Snapshot, r: Request, a: int) {
    match r
    case Ends(thread) => thread in s.releasing && s.releasing[thread].mem - HEADER_SIZE != a
    case Sweeps(roots, pinned) =>
      (forall o :: o in roots ==> o in s.graph) && (Reachable(s.graph, Origins(s.graph, roots, pinned), a) || IsPermanent(s.blocks, a))
    case _ => true
  }

  /** Block b is where it was, with the size, the kind and the number of references it had. */
  ghost predicate StillThere(s: Snapshot, s': Snapshot, b: Block) {
    b in s'.blocks && SameHost(s.headers, s'.headers, b.addr)
  }

  /** The objects in b still hold what they held, except where the request writes to them. */
  ghost predicate ObjectsKept(g: Graph, g': Graph, a: int, written: set<int>) {
    forall o :: o in g && BlockOf(g, o) == a ==>
      && o in g' && g'[o].shape == g[o].shape && |g'[o].fields| == |g[o].fields|
      && (o !in written ==> g'[o] == g[o])
  }

  function Written(r: Request): set<int> {
    match r
    case Store(o, _, _) => {o}
    case StoreMonitor(o, _) => {o}
    case _ => {}
  }

  lemma GrantedKeeps(s: Snapshot, s': Snapshot, k: nat, required: int, kind: Kind, contained: nat, b: Block)
    requires Good(s) && GrantedIn(s, s', k, required, kind, contained) && !kind.Free? && s'.start == s.start && s'.end == s.end
    requires b in s.blocks && !b.kind.Free?
    ensures StillThere(s, s', b)
  {
    var i :| 0 <= i < |s.blocks| && s.blocks[i] == b;
    GrantedGood(s, s', k, required, kind, contained);
    AllocatedAt(s.blocks, k, required, kind, i);
    assert HeaderAt(s.headers, s.blocks, i) && UntouchedAt(s.headers, s'.headers, s.blocks, i);
  }

  lemma EndsKeeps(s: Snapshot, s': Snapshot, k: nat, thread: int, b: Block)
    requires Good(s) && EndedIn(s, s', k, thread) && s'.start == s.start && s'.end == s.end && EndsSafely(s, thread)
    requires b in s.blocks && !b.kind.Free? && b.addr != s.releasing[thread].mem - HEADER_SIZE
    ensures StillThere(s, s', b)
  {
    var i :| 0 <= i < |s.blocks| && s.blocks[i] == b;
    EndedOrder(s, s', k, thread);
    ReleasedMembers(s.blocks, k, b);
    assert HeaderAt(s.headers, s.blocks, i) && UntouchedAt(s.headers, s'.headers, s.blocks, i);
  }

  lemma SweepsKeeps(s: Snapshot, roots: seq<int>, pinned: seq<int>, s': Snapshot, b: Block)
    requires Good(s) && Enabled(s, Sweeps(roots, pinned)) && Stepped(s, Sweeps(roots, pinned), s') && KeepsGood(s, Sweeps(roots, pinned))
    requires b in s.blocks && !b.kind.Free? && InUse(s, Sweeps(roots, pinned), b.addr)
    ensures StillThere(s, s', b) && ObjectsKept(s.graph, s'.graph, b.addr, {})
  {
    var i :| 0 <= i < |s.blocks| && s.blocks[i] == b;
    var black := MarkedBlocks(s.graph, roots, pinned, s.blocks);
    ReachableSurvives(s.graph, s.headers, s.blocks, roots, pinned, s.start, s.end, i);
    assert Referenced(b, black) && ContentsKept(s.headers, s'.headers, b.addr);
    assert HeaderAt(s.headers, s.blocks, i);
  }

  lemma SplicesKeeps(s: Snapshot, s': Snapshot, b: Block)
    requires Good(s) && SplicedIn(s, s') && b in s.blocks && !b.kind.Free?
    ensures StillThere(s, s', b)
  {
    var i :| 0 <= i < |s.blocks| && s.blocks[i] == b;
    SplicedKeeps(s, s');
    assert HeaderAt(s.headers, s.blocks, i) && UntouchedAt(s.headers, s'.headers, s.blocks, i);
  }

  lemma FillKeeps(s: Snapshot, at: int, header: Header, s': Snapshot, b: Block)
    requires Good(s) && Enabled(s, Fill(at, header)) && Stepped(s, Fill(at, header), s') && b in s.blocks && !b.kind.Free?
    ensures StillThere(s, s', b)
  {
    var i :| 0 <= i < |s.blocks| && s.blocks[i] == b;
    var k :| 0 <= k < |s.blocks| && !s.blocks[k].kind.Free? && s.blocks[k].addr < at < s.blocks[k].End();
    TiledOrdered(s.blocks, s.start, s.end);
    assert HeaderAt(s.headers, s.blocks, i) && at != b.addr;
  }

  lemma ReserveKeeps(s: Snapshot, size: nat, kind: Kind, s': Snapshot, b: Block)
    requires Good(s) && Enabled(s, Reserve(size, kind)) && Stepped(s, Reserve(size, kind), s') && b in s.blocks && !b.kind.Free?
    ensures StillThere(s, s', b)
  {
    if HasFit(s.blocks, s.lists.freed, RequiredSize(size)) {
      var k :| GrantedIn(s, s', k, RequiredSize(size), kind, 0);
      GrantedKeeps(s, s', k, RequiredSize(size), kind, 0, b);
    } else {
      BlockHasHeader(s, b);
    }
  }

  lemma NewKeeps(s: Snapshot, shape: Shape, count: nat, byteSize: nat, permanent: bool, s': Snapshot, b: Block)
    requires Good(s) && Enabled(s, New(shape, count, byteSize, permanent)) && Stepped(s, New(shape, count, byteSize, permanent), s')
    requires b in s.blocks && !b.kind.Free?
    ensures StillThere(s, s', b) && ObjectsKept(s.graph, s'.graph, b.addr, {})
  {
    NewGood(s, shape, count, byteSize, permanent, s');
    if HasFit(s.blocks, s.lists.freed, RequiredSize(byteSize)) {
      var k :| NewIn(s, s', k, shape, count, byteSize, permanent);
      GrantedKeeps(s, s', k, RequiredSize(byteSize), KindFor(shape, count, permanent), count, b);
    } else {
      BlockHasHeader(s, b);
    }
  }

  lemma BlockHasHeader(s: Snapshot, b: Block)
    requires Represents(s.headers, s.blocks) && b in s.blocks
    ensures b.addr in s.headers
  {
    var i :| 0 <= i < |s.blocks| && s.blocks[i] == b;
    assert HeaderAt(s.headers, s.blocks, i);
  }

  lemma StepKeeps(s: Snapshot, r: Request, s': Snapshot, b: Block)
    requires Good(s) && Enabled(s, r) && Stepped(s, r, s') && KeepsGood(s, r) && b in s.blocks && !b.kind.Free? && InUse(s, r, b.addr)
    ensures StillThere(s, s', b) && ObjectsKept(s.graph, s'.graph, b.addr, Written(r))
  {
    match r
    case Reserve(size, kind) => ReserveKeeps(s, size, kind, s', b);
    case New(shape, count, byteSize, permanent) => NewKeeps(s, shape, count, byteSize, permanent, s', b);
    case Store(o, field, value) => BlockHasHeader(s, b);
    case StoreMonitor(o, monitor) => BlockHasHeader(s, b);
    case Fill(at, header) => FillKeeps(s, at, header, s', b);
    case Begins(thread, mem) => BlockHasHeader(s, b);
    case Ends(thread) =>
      var k: nat :| EndedIn(s, s', k, thread);
      EndsKeeps(s, s', k, thread, b);
    case Sweeps(roots, pinned) => SweepsKeeps(s, roots, pinned, s', b);
    case Splices => SplicesKeeps(s, s', b);
  }

  ghost predicate InUseAt(run: seq<Snapshot>, requests: seq<Request>, a: int, i: nat)
    requires i < |requests| && |run| == |requests| + 1
  {
    InUse(run[i], requests[i], a)
  }

  function WrittenBefore(requests: seq<Request>, n: nat): set<int>
    requires n <= |requests|
  {
    set i, o | 0 <= i < n && o in Written(requests[i]) :: o
  }

  /** A block that the program goes on using stays where it is, as long as the history lasts, and its
      object keeps every reference that the program does not overwrite. */
  lemma {:induction false} LivesOn(run: seq<Snapshot>, requests: seq<Request>, b: Block, n: nat)
    requires IsHistory(run, requests) && Good(run[0]) && n < |run|
    requires b in run[0].blocks && !b.kind.Free?
    requires forall i :: 0 <= i < n ==> InUseAt(run, requests, b.addr, i) && KeepsGoodAt(run, requests, i)
    ensures StillThere(run[0], run[n], b)
    ensures ObjectsKept(run[0].graph, run[n].graph, b.addr, WrittenBefore(requests, n))
  {
    if n == 0 {
      var i :| 0 <= i < |run[0].blocks| && run[0].blocks[i] == b;
      assert HeaderAt(run[0].headers, run[0].blocks, i);
    } else {
      LivesOn(run, requests, b, n - 1);
      HistoryGood(run, requests, n - 1);
      assert StepAt(run, requests, n - 1) && InUseAt(run, requests, b.addr, n - 1) && KeepsGoodAt(run, requests, n - 1);
      StepKeeps(run[n - 1], requests[n - 1], run[n], b);
      KeptTogether(run[0].graph, run[n - 1].graph, run[n].graph, b.addr, requests, n - 1);
    }
  }

  lemma KeptTogether(g0: Graph, g: Graph, g': Graph, a: int, requests: seq<Request>, n: nat)
    requires n < |requests| && ObjectsKept(g0, g, a, WrittenBefore(requests, n)) && ObjectsKept(g, g', a, Written(requests[n]))
    ensures ObjectsKept(g0, g', a, WrittenBefore(requests, n + 1))
  {
    forall o | o in g0 && BlockOf(g0, o) == a
      ensures o in g' && g'[o].shape == g0[o].shape && |g'[o].fields| == |g0[o].fields|
      ensures o !in WrittenBefore(requests, n + 1) ==> g'[o] == g0[o]
    {
      assert BlockOf(g, o) == a;
    }
  }
}
