/** The heap as a reader sees it: a row of blocks, each with an address, a size and a kind.

    The operations of the allocator and of the collector are first described here, on such rows;
    the modules that work on block headers are proved to follow these descriptions. */
module HeapBlocks {
  import opened Basics

  // sizeof(blockHeader) and sizeof(freeListBlockHeader) with 32-bit pointers
  const HEADER_SIZE := 12
  const MIN_BLOCK_SIZE := 16

  /** What the three allocation bits of a block key say. */
  datatype Kind = Free | NonCollectible | Plain | ObjectWithFields | ObjectArray
  {
    predicate Collectible() {
      Plain? || ObjectWithFields? || ObjectArray?
    }
  }

  datatype Block = Block(addr: int, size: int, kind: Kind)
  {
    function End(): int {
      addr + size
    }
  }

  /** The blocks cover [start, end) with no gap and no overlap. */
  ghost predicate Tiled(bs: seq<Block>, start: int, end: int) {
    if bs == [] then start == end
    else bs[0].addr == start && bs[0].size >= MIN_BLOCK_SIZE && Tiled(bs[1..], bs[0].End(), end)
  }

  predicate TouchingFree(bs: seq<Block>, i: nat)
    requires i + 1 < |bs|
  {
    bs[i].kind.Free? && bs[i + 1].kind.Free?
  }

  ghost predicate NoAdjacentFree(bs: seq<Block>) {
    forall i :: 0 <= i < |bs| - 1 ==> !TouchingFree(bs, i)
  }

  /** The address that follows the first i blocks. */
  function Boundary(bs: seq<Block>, i: nat, end: int): int
    requires i <= |bs|
  {
    if i < |bs| then bs[i].addr else end
  }

  /** The address of the block left of block i, or NULL. */
  function Left(bs: seq<Block>, i: nat): int
    requires i < |bs|
  {
    if i == 0 then NULL else bs[i - 1].addr
  }

  /** The address of the block right of block i, or NULL. */
  function Right(bs: seq<Block>, i: nat): int
    requires i < |bs|
  {
    if i + 1 == |bs| then NULL else bs[i + 1].addr
  }

  /** The sum of the sizes of the free blocks. */
  function FreeBytes(bs: seq<Block>): int {
    if bs == [] then 0 else (if bs[0].kind.Free? then bs[0].size else 0) + FreeBytes(bs[1..])
  }

  /** The sum of the sizes of the other blocks. */
  function TakenBytes(bs: seq<Block>): int {
    if bs == [] then 0 else (if bs[0].kind.Free? then 0 else bs[0].size) + TakenBytes(bs[1..])
  }

  /** No byte of the heap is lost. */
  lemma {:induction false} BytesAddUp(bs: seq<Block>, start: int, end: int)
    requires Tiled(bs, start, end)
    ensures FreeBytes(bs) + TakenBytes(bs) == end - start
  {
    if bs != [] {
      BytesAddUp(bs[1..], bs[0].End(), end);
    }
  }

  lemma {:induction false} TiledSplit(bs: seq<Block>, k: nat, start: int, end: int)
    requires Tiled(bs, start, end) && k <= |bs|
    ensures Tiled(bs[..k], start, Boundary(bs, k, end))
    ensures Tiled(bs[k..], Boundary(bs, k, end), end)
  {
    if k > 0 {
      TiledSplit(bs[1..], k - 1, bs[0].End(), end);
      assert bs[..k][1..] == bs[1..][..k - 1];
      assert bs[k..] == bs[1..][k - 1..];
    } else if bs != [] {
      assert bs[k..] == bs;
    }
  }

  lemma {:induction false} TiledConcat(xs: seq<Block>, ys: seq<Block>, start: int, middle: int, end: int)
    requires Tiled(xs, start, middle) && Tiled(ys, middle, end)
    ensures Tiled(xs + ys, start, end)
  {
    if xs == [] {
      assert xs + ys == ys;
    } else {
      TiledConcat(xs[1..], ys, xs[0].End(), middle, end);
      assert (xs + ys)[1..] == xs[1..] + ys;
    }
  }

  lemma {:induction false} TiledBounds(bs: seq<Block>, start: int, end: int, i: nat)
    requires Tiled(bs, start, end) && i < |bs|
    ensures start <= bs[i].addr && bs[i].size >= MIN_BLOCK_SIZE && bs[i].End() == Boundary(bs, i + 1, end) <= end
  {
    TiledSplit(bs, i, start, end);
    TiledSplit(bs, i + 1, start, end);
    TiledForward(bs[..i], start, bs[i].addr);
    TiledForward(bs[i + 1..], Boundary(bs, i + 1, end), end);
    assert bs[i..][1..] == bs[i + 1..];
  }

  lemma {:induction false} TiledForward(bs: seq<Block>, start: int, end: int)
    requires Tiled(bs, start, end)
    ensures start <= end
  {
    if bs != [] {
      TiledForward(bs[1..], bs[0].End(), end);
    }
  }

  lemma TiledPair(bs: seq<Block>, start: int, end: int, i: nat, j: nat)
    requires Tiled(bs, start, end) && i < j < |bs|
    ensures bs[i].End() <= bs[j].addr && bs[i].addr < bs[j].addr
  {
    TiledBounds(bs, start, end, i);
    TiledSplit(bs, i + 1, start, end);
    TiledBounds(bs[i + 1..], bs[i].End(), end, j - i - 1);
    assert bs[i + 1..][j - i - 1] == bs[j];
  }

  /** The blocks lie in the heap in ascending order. */
  lemma TiledOrdered(bs: seq<Block>, start: int, end: int)
    requires Tiled(bs, start, end)
    ensures forall i, j :: 0 <= i < j < |bs| ==> bs[i].End() <= bs[j].addr && bs[i].addr < bs[j].addr
  {
    forall i, j | 0 <= i < j < |bs| ensures bs[i].End() <= bs[j].addr && bs[i].addr < bs[j].addr {
      TiledPair(bs, start, end, i, j);
    }
  }

  /** Where block k lies, and that it overlaps no other block. */
  lemma Apart(bs: seq<Block>, start: int, end: int, k: nat)
    requires Tiled(bs, start, end) && k < |bs|
    ensures start <= bs[k].addr && bs[k].size >= MIN_BLOCK_SIZE && bs[k].End() == Boundary(bs, k + 1, end) <= end
    ensures k + 1 < |bs| <==> bs[k].End() < end
    ensures forall i :: 0 <= i < |bs| && i != k ==> bs[i].addr < bs[k].addr || bs[k].End() <= bs[i].addr
  {
    TiledBounds(bs, start, end, k);
    if k + 1 < |bs| {
      TiledBounds(bs, start, end, k + 1);
    }
    forall i | 0 <= i < |bs| && i != k ensures bs[i].addr < bs[k].addr || bs[k].End() <= bs[i].addr {
      if i < k {
        TiledPair(bs, start, end, i, k);
      } else {
        TiledPair(bs, start, end, k, i);
      }
    }
  }

  // ---------- replacing a run of blocks by one block ----------

  /** Blocks k up to m, not including m, become one free block. */
  function Joined(bs: seq<Block>, k: nat, m: nat): seq<Block>
    requires k < m <= |bs|
  {
    bs[..k] + [Block(bs[k].addr, bs[m - 1].End() - bs[k].addr, Free)] + bs[m..]
  }

  lemma JoinedTiled(bs: seq<Block>, k: nat, m: nat, start: int, end: int)
    requires Tiled(bs, start, end) && k < m <= |bs|
    ensures Tiled(Joined(bs, k, m), start, end)
    ensures bs[m - 1].End() == Boundary(bs, m, end)
  {
    TiledBounds(bs, start, end, k);
    TiledBounds(bs, start, end, m - 1);
    TiledSplit(bs, k, start, end);
    TiledSplit(bs, m, start, end);
    if k < m - 1 {
      TiledPair(bs, start, end, k, m - 1);
    }
    var joined := Block(bs[k].addr, bs[m - 1].End() - bs[k].addr, Free);
    TiledSingle(joined);
    TiledConcat(bs[..k], [joined], start, joined.addr, joined.End());
    TiledConcat(bs[..k] + [joined], bs[m..], start, joined.End(), end);
  }

  lemma TiledSingle(b: Block)
    requires b.size >= MIN_BLOCK_SIZE
    ensures Tiled([b], b.addr, b.End())
  {
    assert [b][1..] == [];
  }

  // ---------- allocation and release ----------

  /** Takes block k for an allocation: the tail of the block when enough is left over, else all of it. */
  function Allocated(bs: seq<Block>, k: nat, required: int, kind: Kind): seq<Block>
    requires k < |bs| && MIN_BLOCK_SIZE <= required <= bs[k].size
  {
    var extra := bs[k].size - required;
    if extra >= MIN_BLOCK_SIZE then
      bs[..k] + [Block(bs[k].addr, extra, Free), Block(bs[k].addr + extra, required, kind)] + bs[k + 1..]
    else
      bs[k := bs[k].(kind := kind)]
  }

  /** The index of the allocated block after Allocated. */
  function AllocatedIndex(bs: seq<Block>, k: nat, required: int): nat
    requires k < |bs| && MIN_BLOCK_SIZE <= required <= bs[k].size
  {
    if bs[k].size - required >= MIN_BLOCK_SIZE then k + 1 else k
  }

  predicate LeftFree(bs: seq<Block>, k: nat)
    requires k < |bs|
  {
    k > 0 && bs[k - 1].kind.Free?
  }

  predicate RightFree(bs: seq<Block>, k: nat)
    requires k < |bs|
  {
    k + 1 < |bs| && bs[k + 1].kind.Free?
  }

  /** The first block of the run that releasing block k joins, and the one behind the run. */
  function RunStart(bs: seq<Block>, k: nat): nat
    requires k < |bs|
  {
    if LeftFree(bs, k) then k - 1 else k
  }

  function RunEnd(bs: seq<Block>, k: nat): nat
    requires k < |bs|
  {
    if RightFree(bs, k) then k + 2 else k + 1
  }

  /** Frees block k and joins it with the free blocks beside it. */
  function Released(bs: seq<Block>, k: nat): seq<Block>
    requires k < |bs|
  {
    Joined(bs, RunStart(bs, k), RunEnd(bs, k))
  }

  lemma ReplacedTiled(bs: seq<Block>, k: nat, middle: seq<Block>, start: int, end: int)
    requires Tiled(bs, start, end) && k < |bs|
    requires Tiled(middle, bs[k].addr, bs[k].End())
    ensures Tiled(bs[..k] + middle + bs[k + 1..], start, end)
  {
    TiledBounds(bs, start, end, k);
    TiledSplit(bs, k, start, end);
    TiledSplit(bs, k + 1, start, end);
    TiledConcat(bs[..k], middle, start, bs[k].addr, bs[k].End());
    TiledConcat(bs[..k] + middle, bs[k + 1..], start, bs[k].End(), end);
  }

  lemma AllocatedTiled(bs: seq<Block>, k: nat, required: int, kind: Kind, start: int, end: int)
    requires Tiled(bs, start, end)
    requires k < |bs| && MIN_BLOCK_SIZE <= required <= bs[k].size
    ensures Tiled(Allocated(bs, k, required, kind), start, end)
  {
    var extra := bs[k].size - required;
    if extra >= MIN_BLOCK_SIZE {
      var rest, taken := Block(bs[k].addr, extra, Free), Block(bs[k].addr + extra, required, kind);
      TiledConcat([rest], [taken], rest.addr, taken.addr, taken.End());
      ReplacedTiled(bs, k, [rest] + [taken], start, end);
      assert [rest] + [taken] == [rest, taken];
    } else {
      var taken := bs[k].(kind := kind);
      ReplacedTiled(bs, k, [taken], start, end);
      assert Allocated(bs, k, required, kind) == bs[..k] + [taken] + bs[k + 1..];
    }
  }

  lemma AllocatedNoAdjacentFree(bs: seq<Block>, k: nat, required: int, kind: Kind)
    requires NoAdjacentFree(bs)
    requires k < |bs| && MIN_BLOCK_SIZE <= required <= bs[k].size
    requires bs[k].kind.Free? && !kind.Free?
    ensures NoAdjacentFree(Allocated(bs, k, required, kind))
  {
    var taken := Allocated(bs, k, required, kind);
    if bs[k].size - required >= MIN_BLOCK_SIZE {
      forall i | 0 <= i < |taken| - 1 ensures !TouchingFree(taken, i) {
        if i < k {
          assert !TouchingFree(bs, i);
        } else if i > k {
          assert taken[i + 1] == bs[i];
          assert !TouchingFree(bs, i - 1);
        }
      }
    } else {
      forall i | 0 <= i < |taken| - 1 ensures !TouchingFree(taken, i) {
        assert !TouchingFree(bs, i);
      }
    }
  }

  lemma ReleasedTiled(bs: seq<Block>, k: nat, start: int, end: int)
    requires Tiled(bs, start, end) && NoAdjacentFree(bs) && k < |bs|
    ensures Tiled(Released(bs, k), start, end)
    ensures NoAdjacentFree(Released(bs, k))
  {
    var lo := if k > 0 && bs[k - 1].kind.Free? then k - 1 else k;
    var hi := if k + 1 < |bs| && bs[k + 1].kind.Free? then k + 2 else k + 1;
    JoinedTiled(bs, lo, hi, start, end);
    if k > 1 { assert !TouchingFree(bs, k - 2); }
    if k + 2 < |bs| { assert !TouchingFree(bs, k + 1); }
    JoinedNoAdjacentFree(bs, lo, hi);
  }

  lemma JoinedNoAdjacentFree(bs: seq<Block>, lo: nat, hi: nat)
    requires lo < hi <= |bs| && NoAdjacentFree(bs)
    requires lo > 0 ==> !bs[lo - 1].kind.Free?
    requires hi < |bs| ==> !bs[hi].kind.Free?
    ensures NoAdjacentFree(Joined(bs, lo, hi))
  {
    var joined := Joined(bs, lo, hi);
    forall i | 0 <= i < |joined| - 1 ensures !TouchingFree(joined, i) {
      if i < lo {
        assert !TouchingFree(bs, i);
      } else if i > lo {
        assert joined[i] == bs[i - lo - 1 + hi] && joined[i + 1] == bs[i - lo + hi];
        assert !TouchingFree(bs, i - lo - 1 + hi);
      }
    }
  }

  /** Freeing what was just allocated restores every extent and every status, whether the free block
      had been split or taken whole. */
  lemma AllocateReleaseRoundTrip(bs: seq<Block>, k: nat, required: int, kind: Kind, start: int, end: int)
    requires Tiled(bs, start, end) && NoAdjacentFree(bs)
    requires k < |bs| && MIN_BLOCK_SIZE <= required <= bs[k].size
    requires bs[k].kind.Free? && !kind.Free?
    ensures Released(Allocated(bs, k, required, kind), AllocatedIndex(bs, k, required)) == bs
  {
    var taken := Allocated(bs, k, required, kind);
    if k > 0 { assert !TouchingFree(bs, k - 1); }
    if k + 1 < |bs| { assert !TouchingFree(bs, k); }
    if bs[k].size - required >= MIN_BLOCK_SIZE {
      JoinSplit(bs, k, required, kind);
      assert k + 2 < |taken| ==> taken[k + 2] == bs[k + 1];
    } else {
      assert Joined(taken, k, k + 1) == bs;
    }
  }

  lemma JoinSplit(bs: seq<Block>, k: nat, required: int, kind: Kind)
    requires k < |bs| && MIN_BLOCK_SIZE <= required <= bs[k].size - MIN_BLOCK_SIZE && bs[k].kind.Free?
    ensures Joined(Allocated(bs, k, required, kind), k, k + 2) == bs
  {
    var taken := Allocated(bs, k, required, kind);
    assert taken[k + 2..] == bs[k + 1..];
    assert taken[..k] == bs[..k];
    assert bs == bs[..k] + [bs[k]] + bs[k + 1..];
  }

  // ---------- sweeping ----------

  /** A block that the sweep leaves alone: not collectible, or collectible and black. */
  predicate Referenced(b: Block, black: set<int>) {
    b.kind.NonCollectible? || (b.kind.Collectible() && b.addr in black)
  }

  /** A collectible block that the marker did not reach. */
  predicate White(b: Block, black: set<int>) {
    b.kind.Collectible() && b.addr !in black
  }

  function WhiteBytes(bs: seq<Block>, black: set<int>): int {
    if bs == [] then 0 else (if White(bs[0], black) then bs[0].size else 0) + WhiteBytes(bs[1..], black)
  }

  /** A free block f in front of the blocks rest: it absorbs a free block that follows it. */
  function Absorb(f: Block, rest: seq<Block>): seq<Block> {
    if rest != [] && rest[0].kind.Free? then [Block(f.addr, f.size + rest[0].size, Free)] + rest[1..]
    else [Block(f.addr, f.size, Free)] + rest
  }

  /** The heap after a sweep: every maximal run of white and free blocks is one free block. */
  function Swept(bs: seq<Block>, black: set<int>): seq<Block> {
    if bs == [] then []
    else
      var rest := Swept(bs[1..], black);
      if Referenced(bs[0], black) then [bs[0]] + rest else Absorb(bs[0], rest)
  }

  lemma {:induction false} SweptTiled(bs: seq<Block>, black: set<int>, start: int, end: int)
    requires Tiled(bs, start, end)
    ensures Tiled(Swept(bs, black), start, end)
    ensures NoAdjacentFree(Swept(bs, black))
    ensures bs != [] ==> Swept(bs, black) != [] && Swept(bs, black)[0].kind.Free? == !Referenced(bs[0], black)
    ensures forall b :: b in Swept(bs, black) && !b.kind.Free? ==> Referenced(b, black)
  {
    if bs != [] {
      SweptTiled(bs[1..], black, bs[0].End(), end);
      var swept, rest := Swept(bs, black), Swept(bs[1..], black);
      forall i | 0 <= i < |swept| - 1 ensures !TouchingFree(swept, i) {
        assert |swept| == |rest| ==> (i > 0 ==> !TouchingFree(rest, i)) && (0 < |rest| - 1 ==> !TouchingFree(rest, 0));
        assert |swept| == |rest| + 1 ==> i > 0 ==> !TouchingFree(rest, i - 1);
      }
    }
  }

  /** No referenced block moves, grows, shrinks or changes kind, and none appears. */
  lemma {:induction false} SweptKeepsReferenced(bs: seq<Block>, black: set<int>, b: Block)
    requires Referenced(b, black)
    ensures b in bs <==> b in Swept(bs, black)
  {
    if bs != [] {
      SweptKeepsReferenced(bs[1..], black, b);
    }
  }

  /** Everything that is not referenced ends up inside a free block. */
  lemma {:induction false} SweptCoversReleased(bs: seq<Block>, black: set<int>, start: int, end: int, b: Block)
    requires Tiled(bs, start, end) && b in bs && !Referenced(b, black)
    ensures exists f :: f in Swept(bs, black) && f.kind.Free? && f.addr <= b.addr && b.End() <= f.End()
  {
    var s := Swept(bs, black);
    var rest := Swept(bs[1..], black);
    assert Tiled(bs[1..], bs[0].End(), end);
    SweptTiled(bs[1..], black, bs[0].End(), end);
    if b == bs[0] {
      assert s[0] in s;
    } else {
      SweptCoversReleased(bs[1..], black, bs[0].End(), end, b);
      var f :| f in rest && f.kind.Free? && f.addr <= b.addr && b.End() <= f.End();
      if f == rest[0] {
        assert s[0] in s;
        assert Referenced(bs[0], black) ==> s[1] == f;
      } else {
        assert f in rest[1..];
        assert f in s;
      }
    }
  }

  /** The free bytes grow by exactly the bytes of the white blocks. */
  lemma {:induction false} SweptFreeBytes(bs: seq<Block>, black: set<int>)
    ensures FreeBytes(Swept(bs, black)) == FreeBytes(bs) + WhiteBytes(bs, black)
  {
    if bs != [] {
      SweptFreeBytes(bs[1..], black);
      var s := Swept(bs, black);
      var rest := Swept(bs[1..], black);
      if Referenced(bs[0], black) {
        assert s[1..] == rest;
      } else if rest != [] && rest[0].kind.Free? {
        assert s[1..] == rest[1..];
      } else {
        assert s[1..] == rest;
      }
    }
  }

  /** A heap with no white block and no two free neighbours is already swept. */
  lemma {:induction false} SweptFixpoint(bs: seq<Block>, black: set<int>)
    requires NoAdjacentFree(bs)
    requires forall b :: b in bs ==> !White(b, black)
    ensures Swept(bs, black) == bs
  {
    if bs != [] {
      forall i | 0 <= i < |bs[1..]| - 1 ensures !TouchingFree(bs[1..], i) {
        assert !TouchingFree(bs, i + 1);
      }
      SweptFixpoint(bs[1..], black);
      if |bs| > 1 {
        assert !TouchingFree(bs, 0);
      }
      assert bs[0] in bs;
    }
  }

  /** Joining a run of unreferenced blocks early does not change where the sweep ends. */
  lemma {:induction false} SweptJoined(bs: seq<Block>, black: set<int>, k: nat, m: nat, start: int, end: int)
    requires Tiled(bs, start, end) && k < m <= |bs|
    requires forall i :: k <= i < m ==> !Referenced(bs[i], black)
    ensures Swept(Joined(bs, k, m), black) == Swept(bs, black)
    decreases m, 1
  {
    if k > 0 {
      SweptJoined(bs[1..], black, k - 1, m - 1, bs[0].End(), end);
      assert Joined(bs, k, m)[1..] == Joined(bs[1..], k - 1, m - 1);
    } else if m == 1 {
      assert Joined(bs, k, m)[1..] == bs[1..];
    } else {
      SweptJoinedFront(bs, black, m, start, end);
    }
  }

  lemma {:induction false} SweptJoinedFront(bs: seq<Block>, black: set<int>, m: nat, start: int, end: int)
    requires Tiled(bs, start, end) && 1 < m <= |bs|
    requires forall i :: 0 <= i < m ==> !Referenced(bs[i], black)
    ensures Swept(Joined(bs, 0, m), black) == Swept(bs, black)
    decreases m, 0
  {
    var tail, after := bs[1..], Swept(bs[m..], black);
    SweptJoined(tail, black, 0, m - 1, bs[0].End(), end);
    assert Joined(tail, 0, m - 1)[1..] == bs[m..];
    assert Joined(bs, 0, m)[1..] == bs[m..];
    AbsorbTwice(bs[0], Joined(tail, 0, m - 1)[0], after);
  }

  lemma AbsorbTwice(b: Block, c: Block, rest: seq<Block>)
    ensures Absorb(b, Absorb(c, rest)) == Absorb(Block(b.addr, b.size + c.size, Free), rest)
  {
  }
}
