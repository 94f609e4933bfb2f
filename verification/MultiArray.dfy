/** Construction of multi-dimensional arrays (jvm/src/object/instantiate.c): breadth first, with the work
    list threaded through element 0 of the arrays that are still to be filled. */
module MultiArray {
  import opened Basics

  const MAX_LENGTH := 65535

  datatype Class = ArrayOf(element: Class) | Primitive | Reference

  predicate IsPrimitiveArray(c: Class) {
    c.ArrayOf? && c.element.Primitive?
  }

  function Depth(c: Class): nat {
    if c.ArrayOf? then 1 + Depth(c.element) else 0
  }

  /** isObjectArray tells the collector whether the elements are references. A reference is an address. */
  datatype JavaArray = JavaArray(class_: Class, isObjectArray: bool, elements: seq<int>)

  datatype Outcome = Success | OutOfMemory | VirtualMachineError | WildRead

  type Arrays = map<int, JavaArray>

  function Zeros(n: nat): (z: seq<int>)
    ensures |z| == n && forall i :: 0 <= i < n ==> z[i] == NULL
  {
    seq(n, _ => NULL)
  }

  function Fresh(c: Class, length: nat): JavaArray {
    JavaArray(c, !IsPrimitiveArray(c), Zeros(length))
  }

  // ---------- the three states of an array ----------

  /** The allocator hands out the addresses of supply one by one. Array i of the level that starts at
      start is as it was allocated. */
  ghost predicate BlankAt(m: Arrays, supply: seq<int>, c: Class, length: nat, x: nat) {
    x < |supply| && supply[x] in m && m[supply[x]] == Fresh(c, length)
  }

  /** Element 0 leads to the array of the level that was created before this one, or to none. */
  ghost predicate ThreadedAt(m: Arrays, supply: seq<int>, c: Class, length: nat, start: nat, x: nat)
    requires length > 0
  {
    && start <= x < |supply| && supply[x] in m
    && m[supply[x]] == Fresh(c, length).(elements := Zeros(length)[0 := if x == start then NULL else supply[x - 1]])
  }

  ghost predicate Supply(supply: seq<int>) {
    && (forall i :: 0 <= i < |supply| ==> supply[i] != NULL)
    && (forall i, j :: 0 <= i < j < |supply| ==> supply[i] != supply[j])
  }

  // ---------- the levels ----------

  /** How many arrays there are in level k. */
  function Size(lengths: seq<nat>, k: nat): nat
    requires k <= |lengths|
  {
    if k == 0 then 1 else Size(lengths, k - 1) * lengths[k - 1]
  }

  /** How many arrays there are in the levels above level k. */
  function Start(lengths: seq<nat>, k: nat): nat
    requires k <= |lengths| + 1
  {
    if k == 0 then 0 else Start(lengths, k - 1) + Size(lengths, k - 1)
  }

  function ClassAt(c: Class, k: nat): Class {
    if k == 0 then c else var above := ClassAt(c, k - 1); if above.ArrayOf? then above.element else above
  }

  /** Building stops at the last dimension, or at the first zero dimension. */
  function LastLevel(lengths: seq<nat>): (k: nat)
    requires lengths != []
    ensures k < |lengths| && (k == |lengths| - 1 || lengths[k] == 0)
    ensures forall j :: 0 <= j < k ==> lengths[j] > 0
  {
    if |lengths| == 1 || lengths[0] == 0 then 0 else 1 + LastLevel(lengths[1..])
  }

  /** Of the n arrays of a level, the one created last is filled first: where the elements of array i are. */
  function Base(next: nat, n: nat, length: nat, i: nat): nat
    requires i < n
  {
    next + (n - 1 - i) * length
  }

  /** The elements of array i are consecutive arrays of the next level. */
  ghost predicate FilledAt(m: Arrays, supply: seq<int>, c: Class, length: nat, start: nat, n: nat, i: nat)
    requires i < n
  {
    var x, first := start + i, Base(start + n, n, length, i);
    && x < |supply| && first + length <= |supply| && supply[x] in m
    && m[supply[x]] == JavaArray(c, !IsPrimitiveArray(c), supply[first..first + length])
  }

  ghost predicate Filled(m: Arrays, supply: seq<int>, c: Class, length: nat, start: nat, n: nat) {
    forall i :: 0 <= i < n ==> FilledAt(m, supply, c, length, start, n, i)
  }

  ghost predicate Blank(m: Arrays, supply: seq<int>, c: Class, length: nat, start: nat, end: nat) {
    forall x :: start <= x < end ==> BlankAt(m, supply, c, length, x)
  }

  ghost predicate Threaded(m: Arrays, supply: seq<int>, c: Class, length: nat, start: nat, end: nat)
    requires length > 0
  {
    forall x :: start <= x < end ==> ThreadedAt(m, supply, c, length, start, x)
  }

  /** A level that has not been filled: threaded if it is going to be. */
  ghost predicate Waiting(m: Arrays, supply: seq<int>, c: Class, length: nat, threading: bool, start: nat, end: nat) {
    if threading then length > 0 && Threaded(m, supply, c, length, start, end) else Blank(m, supply, c, length, start, end)
  }

  ghost predicate Same(m: Arrays, m': Arrays, a: int) {
    a in m ==> a in m' && m'[a] == m[a]
  }

  lemma OneMore(m: Arrays, m': Arrays, supply: seq<int>, c: Class, length: nat, threading: bool, start: nat, end: nat)
    requires Waiting(m, supply, c, length, threading, start, end) && start <= end < |supply|
    requires forall x :: start <= x < end ==> Same(m, m', supply[x])
    requires if threading then ThreadedAt(m', supply, c, length, start, end) else BlankAt(m', supply, c, length, end)
    ensures Waiting(m', supply, c, length, threading, start, end + 1)
  {
    if threading {
      forall x | start <= x < end ensures ThreadedAt(m', supply, c, length, start, x) {
        assert ThreadedAt(m, supply, c, length, start, x) && Same(m, m', supply[x]);
      }
    } else {
      forall x | start <= x < end ensures BlankAt(m', supply, c, length, x) {
        assert BlankAt(m, supply, c, length, x) && Same(m, m', supply[x]);
      }
    }
  }

  ghost predicate LevelFilled(m: Arrays, supply: seq<int>, base: nat, c: Class, lengths: seq<nat>, k: nat)
    requires k < |lengths|
  {
    Filled(m, supply, ClassAt(c, k), lengths[k], base + Start(lengths, k), Size(lengths, k))
  }

  /** The levels above the last one are filled, and the last one is blank. */
  ghost predicate Built(m: Arrays, supply: seq<int>, base: nat, c: Class, lengths: seq<nat>)
    requires lengths != []
  {
    var last := LastLevel(lengths);
    && (forall k :: 0 <= k < last ==> LevelFilled(m, supply, base, c, lengths, k))
    && Blank(m, supply, ClassAt(c, last), lengths[last], base + Start(lengths, last), base + Start(lengths, last + 1))
  }

  // ---------- the outcome ----------

  /** What comes of creating n arrays of length lengths[0], and then all that goes into them, when room
      arrays can be allocated. */
  function Expected(n: nat, lengths: seq<nat>, room: nat): (r: Outcome)
    requires lengths != []
    ensures !r.WildRead?
    decreases |lengths|
  {
    if n == 0 then Success
    else if lengths[0] > MAX_LENGTH then VirtualMachineError
    else if room < n then OutOfMemory
    else if |lengths| == 1 || lengths[0] == 0 then Success
    else Expected(n * lengths[0], lengths[1..], room - n)
  }

  lemma Rows(p: nat, n: nat, length: nat)
    requires p < n
    ensures p * length + length == (p + 1) * length <= n * length
  {
  }

  class ArrayHeap {
    var arrays: Arrays
    var used: nat
    const supply: seq<int>

    /** What is left of the supply are fresh addresses. */
    ghost predicate Valid()
      reads this
    {
      Supply(supply) && used <= |supply| && forall x :: used <= x < |supply| ==> supply[x] !in arrays
    }

    /** instantiateArrayGeneric: arrays of more than 65535 elements are not supported. */
    method InstantiateArray(c: Class, length: nat, isObjectArray: bool) returns (r: Outcome, a: int)
      requires Valid()
      modifies this
      ensures Valid()
      ensures r == if length > MAX_LENGTH then VirtualMachineError else if old(used) == |supply| then OutOfMemory else Success
      ensures r.Success? ==> old(used) < |supply| && a == supply[old(used)] && used == old(used) + 1
                             && arrays == old(arrays)[a := JavaArray(c, isObjectArray, Zeros(length))]
      ensures !r.Success? ==> used == old(used) && arrays == old(arrays)
    {
      if length > MAX_LENGTH {
        return VirtualMachineError, NULL;
      }
      if used == |supply| {
        return OutOfMemory, NULL;
      }
      a := supply[used];
      used := used + 1;
      arrays := arrays[a := JavaArray(c, isObjectArray, Zeros(length))];
      r := Success;
    }

    /** Element j of array a becomes a new array, threaded to the one before it if it is to be filled
        itself. */
    method FillElement(a: int, j: nat, c: Class, length: nat, threading: bool, previous: int) returns (r: Outcome, e: int)
      requires Valid() && a in arrays && j < |arrays[a].elements| && (forall x :: used <= x < |supply| ==> supply[x] != a)
      requires threading ==> length > 0 && !IsPrimitiveArray(c)
      modifies this
      ensures Valid()
      ensures r == if length > MAX_LENGTH then VirtualMachineError else if old(used) == |supply| then OutOfMemory else Success
      ensures !r.Success? ==> used == old(used) && arrays == old(arrays)
      ensures r.Success? ==> used == old(used) + 1 && e == supply[old(used)]
                             && arrays == Linked(old(arrays), a, j, e, c, length, threading, previous)
    {
      r, e := InstantiateArray(c, length, threading || !IsPrimitiveArray(c));
      if !r.Success? {
        return;
      }
      arrays := arrays[a := arrays[a].(elements := arrays[a].elements[j := e])];
      if threading {
        arrays := arrays[e := arrays[e].(elements := arrays[e].elements[0 := previous])];
      }
      assert arrays == Linked(old(arrays), a, j, e, c, length, threading, previous);
    }

    method FillNextElement(a: int, j: nat, c: Class, length: nat, threading: bool, previous: int,
                           ghost m: Arrays, ghost first: nat, ghost next: nat) returns (r: Outcome, last: int)
      requires Valid() && next <= used == first + j && PartlyFilled(m, arrays, supply, a, first, j) && j < |m[a].elements|
      requires threading ==> length > 0 && !IsPrimitiveArray(c) && previous == if used == next then NULL else supply[used - 1]
      requires Waiting(arrays, supply, c, length, threading, next, used)
      requires forall x :: next <= x < |supply| ==> supply[x] != a
      modifies this
      ensures Valid()
      ensures r == if length > MAX_LENGTH then VirtualMachineError else if old(used) == |supply| then OutOfMemory else Success
      ensures !r.Success? ==> arrays == old(arrays)
      ensures r.Success? ==>
                && used == old(used) + 1 && PartlyFilled(m, arrays, supply, a, first, j + 1)
                && Waiting(arrays, supply, c, length, threading, next, used)
                && (threading ==> last == supply[used - 1])
    {
      ghost var before := arrays;
      r, last := FillElement(a, j, c, length, threading, previous);
      if r.Success? {
        LinkedStep(before, supply, a, j, c, length, threading, previous, next, used - 1);
        PartlyStep(m, before, supply, a, first, j, c, length, threading, previous);
      }
    }

    /** The innermost loop: every element of array a. */
    method FillArray(a: int, c: Class, length: nat, threading: bool, previous: int, ghost next: nat)
      returns (r: Outcome, last: int)
      requires Valid() && a in arrays && next <= used
      requires threading ==> length > 0 && !IsPrimitiveArray(c) && previous == if used == next then NULL else supply[used - 1]
      requires Waiting(arrays, supply, c, length, threading, next, used)
      requires forall x :: next <= x < |supply| ==> supply[x] != a
      modifies this
      ensures Valid()
      ensures var n := |old(arrays)[a].elements|;
              r == if n == 0 then Success else if length > MAX_LENGTH then VirtualMachineError
                   else if |supply| - old(used) < n then OutOfMemory else Success
      ensures r.Success? ==>
                && used == old(used) + |old(arrays)[a].elements|
                && a in arrays && arrays[a] == old(arrays)[a].(elements := supply[old(used)..used])
                && (threading ==> last == if used == next then NULL else supply[used - 1])
                && Waiting(arrays, supply, c, length, threading, next, used)
      ensures forall b :: b in old(arrays) && b != a ==> Same(old(arrays), arrays, b)
    {
      last := previous;
      var j, n := 0, |arrays[a].elements|;
      ghost var first := used;
      while j < n
        invariant Valid() && 0 <= j <= n && used == first + j
        invariant PartlyFilled(old(arrays), arrays, supply, a, first, j)
        invariant threading ==> last == if used == next then NULL else supply[used - 1]
        invariant j > 0 ==> length <= MAX_LENGTH
        invariant Waiting(arrays, supply, c, length, threading, next, used)
      {
        r, last := FillNextElement(a, j, c, length, threading, last, old(arrays), first, next);
        if !r.Success? {
          return;
        }
        j := j + 1;
      }
      assert arrays[a].elements == arrays[a].elements[..n];
      r := Success;
    }

    /** One turn of the middle loop: the array that is p places before the last one created. */
    method FillNextArray(current: int, element: Class, elementLength: nat, threading: bool, previous: int, ghost c: Class,
                         ghost length: nat, ghost start: nat, ghost n: nat, ghost p: nat) returns (r: Outcome, last: int)
      requires Valid() && p < n && length > 0 && c == ArrayOf(element)
      requires LevelPart(arrays, supply, c, length, start, n, p, elementLength, threading, used)
      requires current == supply[start + (n - 1 - p)]
      requires threading ==> elementLength > 0 && !IsPrimitiveArray(element) && previous == if used == start + n then NULL else supply[used - 1]
      modifies this
      ensures Valid()
      ensures r == if elementLength > MAX_LENGTH then VirtualMachineError else if |supply| - old(used) < length then OutOfMemory else Success
      ensures r.Success? ==>
                && used == old(used) + length && LevelPart(arrays, supply, c, length, start, n, p + 1, elementLength, threading, used)
                && (threading ==> last == supply[used - 1])
      ensures forall b :: b in old(arrays) && b != current ==> Same(old(arrays), arrays, b)
    {
      ghost var before := arrays;
      Rows(p, n, length);
      assert ThreadedAt(arrays, supply, c, length, start, start + (n - 1 - p));
      r, last := FillArray(current, element, elementLength, threading, previous, start + n);
      if r.Success? {
        OneFilled(before, arrays, supply, c, length, start, n, p, used - length);
      }
    }

    /** The middle loop: the arrays of one level, from the one created last along the thread. */
    method FillLevel(latest: int, element: Class, elementLength: nat, threading: bool,
                     ghost c: Class, ghost length: nat, ghost start: nat, ghost n: nat) returns (r: Outcome, last: int)
      requires Valid() && n > 0 && length > 0 && used == start + n && latest == supply[used - 1]
      requires c == ArrayOf(element) && Threaded(arrays, supply, c, length, start, used)
      requires threading ==> elementLength > 0 && !IsPrimitiveArray(element)
      modifies this
      ensures Valid()
      ensures r == if elementLength > MAX_LENGTH then VirtualMachineError
                   else if |supply| - old(used) < n * length then OutOfMemory else Success
      ensures r.Success? ==>
                && used == old(used) + n * length && Filled(arrays, supply, c, length, start, n)
                && Waiting(arrays, supply, element, elementLength, threading, old(used), used)
                && (threading ==> last == supply[used - 1])
      ensures forall b :: b in old(arrays) && b !in supply[start..old(used)] ==> Same(old(arrays), arrays, b)
    {
      ghost var p, next := 0, used;
      var current := latest;
      last := NULL;
      while current != NULL
        invariant Valid() && p <= n && LevelPart(arrays, supply, c, length, start, n, p, elementLength, threading, used)
        invariant current == if p < n then supply[start + (n - 1 - p)] else NULL
        invariant threading ==> last == if used == next then NULL else supply[used - 1]
        invariant p > 0 ==> elementLength <= MAX_LENGTH
        invariant forall b :: b in old(arrays) && b !in supply[start..next] ==> Same(old(arrays), arrays, b)
        decreases n - p
      {
        Rows(p, n, length);
        assert ThreadedAt(arrays, supply, c, length, start, start + (n - 1 - p));
        assert current in supply[start..next];
        var following := arrays[current].elements[0];
        r, last := FillNextArray(current, element, elementLength, threading, last, c, length, start, n, p);
        if !r.Success? {
          return;
        }
        current := following;
        p := p + 1;
      }
      r := Success;
    }

    /** One pass of the outer loop: the arrays of level k - 1 are filled, those of level k created. */
    method FillNextLevel(current: int, k: nat, element: Class, lengths: seq<nat>, threading: bool, ghost base: nat, ghost c: Class)
      returns (r: Outcome, last: int)
      requires Valid() && 1 <= k < |lengths| && AtLevel(arrays, supply, base, c, lengths, k, used) && current == supply[used - 1]
      requires ClassAt(c, k - 1) == ArrayOf(element) && (threading ==> !IsPrimitiveArray(element))
      requires k <= LastLevel(lengths) && threading == !(k == |lengths| - 1 || lengths[k] == 0)
      modifies this
      ensures Valid()
      ensures r == if lengths[k] > MAX_LENGTH then VirtualMachineError
                   else if |supply| - old(used) < Size(lengths, k) then OutOfMemory else Success
      ensures r.Success? ==>
                && used == base + Start(lengths, k + 1)
                && if threading then AtLevel(arrays, supply, base, c, lengths, k + 1, used) && last == supply[used - 1]
                   else Built(arrays, supply, base, c, lengths)
      ensures KeptBut(old(arrays), arrays, supply, base)
    {
      ghost var before, filled := arrays, used;
      ghost var start, n := base + Start(lengths, k - 1), Size(lengths, k - 1);
      r, last := FillLevel(current, element, lengths[k], threading, ArrayOf(element), lengths[k - 1], start, n);
      Positive(n, lengths[k - 1]);
      if r.Success? {
        LevelDone(before, arrays, supply, base, c, lengths, k, filled);
        assert !threading ==> k == LastLevel(lengths);
      }
      SubRange(supply, base, start, filled);
    }

    /** instantiateMultiArrayGeneric, after the first array has been created. */
    method FillLevels(root: int, c: Class, lengths: seq<nat>, ghost base: nat) returns (r: Outcome)
      requires Valid() && |lengths| > 1 && lengths[0] > 0 && Depth(c) >= |lengths|
      requires used == base + 1 && root == supply[base] && BlankAt(arrays, supply, c, lengths[0], base)
      modifies this
      ensures Valid()
      ensures r == Expected(lengths[0], lengths[1..], |supply| - old(used))
      ensures r.Success? ==> used == base + Start(lengths, LastLevel(lengths) + 1) && Built(arrays, supply, base, c, lengths)
      ensures KeptBut(old(arrays), arrays, supply, base)
    {
      var k, current := 1, root;
      var element := c.element;
      ghost var outcome := Expected(lengths[0], lengths[1..], |supply| - used);
      FirstLevel(arrays, supply, base, c, lengths);
      while true
        invariant Valid() && 1 <= k < |lengths| && k <= LastLevel(lengths)
        invariant AtLevel(arrays, supply, base, c, lengths, k, used) && current == supply[used - 1]
        invariant ClassAt(c, k - 1) == ArrayOf(element) && Depth(element) >= |lengths| - k
        invariant outcome == Expected(Size(lengths, k), lengths[k..], |supply| - used)
        invariant KeptBut(old(arrays), arrays, supply, base)
        decreases |lengths| - k
      {
        ghost var before, room := arrays, |supply| - used;
        var threading := !(k == |lengths| - 1 || lengths[k] == 0);
        AtLevelSize(arrays, supply, base, c, lengths, k, used);
        ExpectedStep(lengths, k, room);
        var last: int;
        r, last := FillNextLevel(current, k, element, lengths, threading, base, c);
        KeptStep(old(arrays), before, arrays, supply, base);
        if !r.Success? || !threading {
          return;
        }
        current, element, k := last, element.element, k + 1;
      }
    }

    /** instantiateMultiArrayGeneric. When the first length is zero and there are more dimensions, the
        first read of the outer loop is of an element that the array does not have. */
    method InstantiateMultiArray(c: Class, lengths: seq<nat>) returns (r: Outcome, a: int)
      requires Valid() && lengths != [] && Depth(c) >= |lengths|
      modifies this
      ensures Valid()
      ensures r.WildRead? <==> |lengths| > 1 && lengths[0] == 0 && old(used) < |supply|
      ensures !r.WildRead? ==> r == Expected(1, lengths, |supply| - old(used))
      ensures r.Success? ==>
                && old(used) < |supply| && a == supply[old(used)]
                && used == old(used) + Start(lengths, LastLevel(lengths) + 1) && Built(arrays, supply, old(used), c, lengths)
      ensures KeptBut(old(arrays), arrays, supply, old(used))
    {
      ghost var base := used;
      r, a := InstantiateArray(c, lengths[0], !IsPrimitiveArray(c));
      if !r.Success? || |lengths| == 1 {
        return;
      }
      if lengths[0] == 0 {
        return WildRead, a;
      }
      ghost var before := arrays;
      r := FillLevels(a, c, lengths, base);
      KeptStep(old(arrays), before, arrays, supply, base);
    }
  }

  /** Level k and those below it can be built if and only if every dimension that is built is supported
      and there is room for as many arrays as these levels have. */
  lemma {:induction false} ExpectedSuccess(lengths: seq<nat>, k: nat, room: nat)
    requires lengths != [] && k <= LastLevel(lengths) && Size(lengths, k) > 0
    ensures Expected(Size(lengths, k), lengths[k..], room).Success? <==>
              (forall j :: k <= j <= LastLevel(lengths) ==> lengths[j] <= MAX_LENGTH)
              && Start(lengths, LastLevel(lengths) + 1) - Start(lengths, k) <= room
    decreases LastLevel(lengths) - k
  {
    ExpectedStep(lengths, k, room);
    if k < LastLevel(lengths) {
      StartsGrow(lengths, k + 1, LastLevel(lengths) + 1);
      Positive(Size(lengths, k), lengths[k]);
      if lengths[k] <= MAX_LENGTH && Size(lengths, k) <= room {
        ExpectedSuccess(lengths, k + 1, room - Size(lengths, k));
      }
    }
  }

  /** An array is built if and only if every dimension up to the first zero one is at most 65535 and the
      arrays of all levels can be allocated. */
  lemma WhenBuilt(lengths: seq<nat>, room: nat)
    requires lengths != []
    ensures Expected(1, lengths, room).Success? <==>
              (forall j :: 0 <= j <= LastLevel(lengths) ==> lengths[j] <= MAX_LENGTH)
              && Start(lengths, LastLevel(lengths) + 1) <= room
  {
    assert lengths[0..] == lengths;
    ExpectedSuccess(lengths, 0, room);
  }

  lemma {:induction false} ExpectedError(lengths: seq<nat>, k: nat, room: nat)
    requires lengths != [] && k <= LastLevel(lengths) && Size(lengths, k) > 0
    ensures Expected(Size(lengths, k), lengths[k..], room).VirtualMachineError? <==>
              exists j :: k <= j <= LastLevel(lengths) && FirstTooLong(lengths, k, j) && Start(lengths, j) - Start(lengths, k) <= room
    decreases LastLevel(lengths) - k
  {
    ExpectedStep(lengths, k, room);
    if lengths[k] > MAX_LENGTH {
      assert FirstTooLong(lengths, k, k);
    } else {
      forall j | k < j <= LastLevel(lengths) ensures FirstTooLong(lengths, k, j) <==> FirstTooLong(lengths, k + 1, j) {
      }
      if k < LastLevel(lengths) {
        Positive(Size(lengths, k), lengths[k]);
        forall j | k + 1 <= j <= LastLevel(lengths) ensures Start(lengths, k + 1) <= Start(lengths, j) {
          StartsGrow(lengths, k + 1, j);
        }
        if Size(lengths, k) <= room {
          ExpectedError(lengths, k + 1, room - Size(lengths, k));
        }
      }
    }
  }

  /** From level k on, level j is the first whose arrays are too long. */
  ghost predicate FirstTooLong(lengths: seq<nat>, k: nat, j: nat) {
    k <= j < |lengths| && lengths[j] > MAX_LENGTH && forall i :: k <= i < j ==> lengths[i] <= MAX_LENGTH
  }

  /** The length is reported as unsupported if and only if the levels above the first one that is too long
      could all be allocated; otherwise memory runs out first. */
  lemma WhenUnsupported(lengths: seq<nat>, room: nat)
    requires lengths != []
    ensures Expected(1, lengths, room).VirtualMachineError? <==>
              exists j :: 0 <= j <= LastLevel(lengths) && FirstTooLong(lengths, 0, j) && Start(lengths, j) <= room
  {
    assert lengths[0..] == lengths;
    ExpectedError(lengths, 0, room);
  }

  // ---------- the tree that has been built ----------

  /** The array that the multianewarray instruction asks for, with everything in it. */
  ghost predicate Complete(m: Arrays, a: int, c: Class, lengths: seq<nat>)
    requires lengths != []
    decreases |lengths|
  {
    && a in m && m[a].class_ == c && (m[a].isObjectArray <==> !(c.ArrayOf? && c.element.Primitive?)) && |m[a].elements| == lengths[0]
    && if |lengths| == 1 then m[a].elements == Zeros(lengths[0])
       else c.ArrayOf? && forall j :: 0 <= j < lengths[0] ==> m[a].elements[j] != NULL && Complete(m, m[a].elements[j], c.element, lengths[1..])
  }

  /** A class has n dimensions if and only if one can go n times from an array to its elements. */
  lemma DepthIs(c: Class, n: nat)
    ensures Depth(c) >= n <==> forall k :: 0 <= k < n ==> ClassAt(c, k).ArrayOf?
  {
    if Depth(c) >= n {
      forall k | 0 <= k < n ensures ClassAt(c, k).ArrayOf? {
        ClassDepth(c, k);
      }
    } else {
      DepthEnds(c);
    }
  }

  lemma DepthEnds(c: Class)
    ensures !ClassAt(c, Depth(c)).ArrayOf?
  {
    if Depth(c) > 0 {
      ClassDepth(c, Depth(c) - 1);
      EndDepth(ClassAt(c, Depth(c)));
    }
  }

  lemma EndDepth(c: Class)
    ensures c.ArrayOf? <==> Depth(c) > 0
  {
  }

  lemma ClassDepth(c: Class, k: nat)
    requires k < Depth(c)
    ensures ClassAt(c, k).ArrayOf? && ClassAt(c, k + 1) == ClassAt(c, k).element && Depth(ClassAt(c, k)) == Depth(c) - k
  {
    if k > 0 {
      ClassDepth(c, k - 1);
    }
  }

  /** Where element j of array i of level k is in the supply. */
  function ElementIndex(base: nat, lengths: seq<nat>, k: nat, i: nat, j: nat): nat
    requires k < |lengths| && i < Size(lengths, k)
  {
    Base(base + Start(lengths, k + 1), Size(lengths, k), lengths[k], i) + j
  }

  lemma ElementIndexBounds(base: nat, lengths: seq<nat>, k: nat, i: nat, j: nat)
    requires k < |lengths| && i < Size(lengths, k) && j < lengths[k]
    ensures base + Start(lengths, k + 1) <= ElementIndex(base, lengths, k, i, j)
    ensures ElementIndex(base, lengths, k, i, j) < base + Start(lengths, k + 1) + Size(lengths, k + 1)
  {
    Rows(Size(lengths, k) - 1 - i, Size(lengths, k), lengths[k]);
  }

  lemma ElementAt(m: Arrays, supply: seq<int>, base: nat, c: Class, lengths: seq<nat>, k: nat, i: nat, j: nat)
    requires lengths != [] && Built(m, supply, base, c, lengths) && k < LastLevel(lengths) && i < Size(lengths, k) && j < lengths[k]
    ensures var x, e := base + Start(lengths, k) + i, ElementIndex(base, lengths, k, i, j);
            && x < |supply| && supply[x] in m && |m[supply[x]].elements| == lengths[k]
            && base + Start(lengths, k + 1) <= e < base + Start(lengths, k + 2) && e < |supply|
            && m[supply[x]].elements[j] == supply[e]
  {
    assert LevelFilled(m, supply, base, c, lengths, k);
    ElementIndexBounds(base, lengths, k, i, j);
    FilledElement(m, supply, ClassAt(c, k), lengths[k], base + Start(lengths, k), Size(lengths, k), i, j);
  }

  lemma FilledElement(m: Arrays, supply: seq<int>, c: Class, length: nat, start: nat, n: nat, i: nat, j: nat)
    requires Filled(m, supply, c, length, start, n) && i < n && j < length
    ensures var x, e := start + i, Base(start + n, n, length, i) + j;
            && x < |supply| && supply[x] in m && |m[supply[x]].elements| == length && e < |supply|
            && m[supply[x]].elements[j] == supply[e]
  {
    assert FilledAt(m, supply, c, length, start, n, i);
  }

  /** Every array of a level that has been built is complete, down to the last dimension. */
  lemma {:induction false} LevelComplete(m: Arrays, supply: seq<int>, base: nat, c: Class, lengths: seq<nat>, k: nat, i: nat)
    requires lengths != [] && Supply(supply) && Built(m, supply, base, c, lengths) && Depth(c) >= |lengths|
    requires k <= LastLevel(lengths) && i < Size(lengths, k)
    ensures base + Start(lengths, k) + i < |supply|
    ensures Complete(m, supply[base + Start(lengths, k) + i], ClassAt(c, k), lengths[k..])
    decreases LastLevel(lengths) - k
  {
    var x, here := base + Start(lengths, k) + i, lengths[k..];
    if k == LastLevel(lengths) {
      assert BlankAt(m, supply, ClassAt(c, k), lengths[k], x);
      ClassDepth(c, k);
    } else {
      assert LevelFilled(m, supply, base, c, lengths, k);
      assert FilledAt(m, supply, ClassAt(c, k), lengths[k], base + Start(lengths, k), Size(lengths, k), i);
      ClassDepth(c, k);
      var elements := m[supply[x]].elements;
      assert here[1..] == lengths[k + 1..];
      forall j | 0 <= j < lengths[k] ensures elements[j] != NULL && Complete(m, elements[j], ClassAt(c, k).element, here[1..]) {
        ElementAt(m, supply, base, c, lengths, k, i, j);
        LevelComplete(m, supply, base, c, lengths, k + 1, ElementIndex(base, lengths, k, i, j) - base - Start(lengths, k + 1));
      }
    }
  }

  /** The array that is returned holds, level by level, non-null arrays of the next length and class, and
      zeros in the last dimension; no threading link is left in an element 0. */
  lemma BuiltIsComplete(m: Arrays, supply: seq<int>, base: nat, c: Class, lengths: seq<nat>)
    requires lengths != [] && Supply(supply) && Built(m, supply, base, c, lengths) && Depth(c) >= |lengths|
    ensures base < |supply| && Complete(m, supply[base], c, lengths)
  {
    LevelComplete(m, supply, base, c, lengths, 0, 0);
    assert lengths[0..] == lengths;
  }

  lemma SameRow(p: nat, j: nat, q: nat, i: nat, length: nat)
    requires j < length && i < length && p * length + j == q * length + i
    ensures p == q && j == i
  {
    if p < q {
      Rows(p, q, length);
    } else if q < p {
      Rows(q, p, length);
    }
  }

  /** No array is an element twice, in the same array or in another one, of the same level or not. */
  lemma NoSharing(m: Arrays, supply: seq<int>, base: nat, c: Class, lengths: seq<nat>, k: nat, i: nat, j: nat, k': nat, i': nat, j': nat)
    requires lengths != [] && Supply(supply) && Built(m, supply, base, c, lengths) && k <= k' < LastLevel(lengths)
    requires i < Size(lengths, k) && j < lengths[k] && i' < Size(lengths, k') && j' < lengths[k'] && (k, i, j) != (k', i', j')
    ensures var x, y := base + Start(lengths, k) + i, base + Start(lengths, k') + i';
            && x < |supply| && y < |supply| && supply[x] in m && supply[y] in m
            && |m[supply[x]].elements| == lengths[k] && |m[supply[y]].elements| == lengths[k']
            && m[supply[x]].elements[j] != m[supply[y]].elements[j']
  {
    ElementAt(m, supply, base, c, lengths, k, i, j);
    ElementAt(m, supply, base, c, lengths, k', i', j');
    if k < k' {
      StartsGrow(lengths, k + 2, k' + 1);
    } else if ElementIndex(base, lengths, k, i, j) == ElementIndex(base, lengths, k, i', j') {
      SameRow(Size(lengths, k) - 1 - i, j, Size(lengths, k) - 1 - i', j', lengths[k]);
    }
  }

  lemma FirstLevel(m: Arrays, supply: seq<int>, base: nat, c: Class, lengths: seq<nat>)
    requires lengths != [] && lengths[0] > 0 && BlankAt(m, supply, c, lengths[0], base) && c.ArrayOf?
    ensures AtLevel(m, supply, base, c, lengths, 1, base + 1) && Size(lengths, 1) == lengths[0] && ClassAt(c, 0) == c
  {
    assert ThreadedAt(m, supply, c, lengths[0], base, base);
  }

  /** Only the arrays at supply[base..] may differ. */
  ghost predicate KeptBut(m: Arrays, m': Arrays, supply: seq<int>, base: nat)
    requires base <= |supply|
  {
    forall b :: b in m && b !in supply[base..] ==> Same(m, m', b)
  }

  lemma KeptStep(m: Arrays, m1: Arrays, m': Arrays, supply: seq<int>, base: nat)
    requires base <= |supply| && KeptBut(m, m1, supply, base) && KeptBut(m1, m', supply, base)
    ensures KeptBut(m, m', supply, base)
  {
    forall b | b in m && b !in supply[base..] ensures Same(m, m', b) {
      assert Same(m, m1, b);
    }
  }

  lemma AtLevelSize(m: Arrays, supply: seq<int>, base: nat, c: Class, lengths: seq<nat>, k: nat, used: nat)
    requires 1 <= k <= |lengths| && AtLevel(m, supply, base, c, lengths, k, used)
    ensures Size(lengths, k) > 0
  {
    Positive(Size(lengths, k - 1), lengths[k - 1]);
  }

  lemma SubRange(supply: seq<int>, base: nat, start: nat, end: nat)
    requires base <= start <= end <= |supply|
    ensures forall b :: b in supply[start..end] ==> b in supply[base..]
  {
    forall b | b in supply[start..end] ensures b in supply[base..] {
      var i :| 0 <= i < |supply[start..end]| && supply[start..end][i] == b;
      assert supply[base..][start - base + i] == b;
    }
  }

  lemma ExpectedStep(lengths: seq<nat>, k: nat, room: nat)
    requires k < |lengths| && Size(lengths, k) > 0
    ensures var n := Size(lengths, k);
            Expected(n, lengths[k..], room) ==
              if lengths[k] > MAX_LENGTH then VirtualMachineError
              else if room < n then OutOfMemory
              else if k == |lengths| - 1 || lengths[k] == 0 then Success
              else Expected(Size(lengths, k + 1), lengths[k + 1..], room - n)
  {
    assert lengths[k..][0] == lengths[k] && lengths[k..][1..] == lengths[k + 1..];
  }

  lemma Positive(a: nat, b: nat)
    requires a > 0 && b > 0
    ensures a * b > 0
  {
  }

  /** Filling level k - 1 leaves the levels above it filled. */
  lemma LevelDone(m: Arrays, m': Arrays, supply: seq<int>, base: nat, c: Class, lengths: seq<nat>, k: nat, used: nat)
    requires Supply(supply) && 1 <= k <= |lengths| && AtLevel(m, supply, base, c, lengths, k, used) && used <= |supply|
    requires Filled(m', supply, ClassAt(c, k - 1), lengths[k - 1], base + Start(lengths, k - 1), Size(lengths, k - 1))
    requires forall b :: b in m && b !in supply[base + Start(lengths, k - 1)..used] ==> Same(m, m', b)
    ensures forall j :: 0 <= j < k ==> LevelFilled(m', supply, base, c, lengths, j)
  {
    var start := base + Start(lengths, k - 1);
    forall j: nat | j < k - 1 ensures LevelFilled(m', supply, base, c, lengths, j) {
      assert LevelFilled(m, supply, base, c, lengths, j);
      StartsGrow(lengths, j + 1, k - 1);
      var first, n := base + Start(lengths, j), Size(lengths, j);
      forall i: nat | i < n ensures FilledAt(m', supply, ClassAt(c, j), lengths[j], first, n, i) {
        assert FilledAt(m, supply, ClassAt(c, j), lengths[j], first, n, i);
        assert supply[first + i] !in supply[start..used] && Same(m, m', supply[first + i]);
      }
    }
    assert LevelFilled(m', supply, base, c, lengths, k - 1);
  }

  lemma {:induction false} StartsGrow(lengths: seq<nat>, j: nat, k: nat)
    requires j <= k <= |lengths| + 1
    ensures Start(lengths, j) <= Start(lengths, k)
  {
    if j < k {
      StartsGrow(lengths, j, k - 1);
    }
  }

  /** Level k - 1 is threaded, and the levels above it are filled. */
  ghost predicate AtLevel(m: Arrays, supply: seq<int>, base: nat, c: Class, lengths: seq<nat>, k: nat, used: nat)
    requires 1 <= k <= |lengths|
  {
    && used == base + Start(lengths, k) && Size(lengths, k - 1) > 0 && lengths[k - 1] > 0
    && Threaded(m, supply, ClassAt(c, k - 1), lengths[k - 1], base + Start(lengths, k - 1), used)
    && forall j :: 0 <= j < k - 1 ==> LevelFilled(m, supply, base, c, lengths, j)
  }

  // ---------- one level ----------

  /** The last p of n arrays have been filled. */
  ghost predicate FilledFrom(m: Arrays, supply: seq<int>, c: Class, length: nat, start: nat, n: nat, p: nat) {
    forall i :: 0 <= i < n && n - p <= i ==> FilledAt(m, supply, c, length, start, n, i)
  }

  /** The last p of the n arrays from start on have been filled with arrays that wait, the others are still
      threaded. */
  ghost predicate LevelPart(m: Arrays, supply: seq<int>, c: Class, length: nat, start: nat, n: nat, p: nat,
                            elementLength: nat, threading: bool, used: nat)
    requires length > 0 && c.ArrayOf? && p <= n
  {
    && used == start + n + p * length
    && Threaded(m, supply, c, length, start, start + n - p) && FilledFrom(m, supply, c, length, start, n, p)
    && Waiting(m, supply, c.element, elementLength, threading, start + n, used)
  }

  lemma KeepThreaded(m: Arrays, m': Arrays, supply: seq<int>, c: Class, length: nat, start: nat, end: nat)
    requires length > 0 && Threaded(m, supply, c, length, start, end) && end <= |supply|
    requires forall x :: start <= x < end ==> Same(m, m', supply[x])
    ensures Threaded(m', supply, c, length, start, end)
  {
    forall x | start <= x < end ensures ThreadedAt(m', supply, c, length, start, x) {
      assert ThreadedAt(m, supply, c, length, start, x) && Same(m, m', supply[x]);
    }
  }

  lemma KeepFilled(m: Arrays, m': Arrays, supply: seq<int>, c: Class, length: nat, start: nat, n: nat, p: nat)
    requires FilledFrom(m, supply, c, length, start, n, p) && start + n <= |supply| && p <= n
    requires forall x :: start + n - p <= x < start + n ==> Same(m, m', supply[x])
    ensures FilledFrom(m', supply, c, length, start, n, p)
  {
    forall i: nat | n - p <= i < n ensures FilledAt(m', supply, c, length, start, n, i) {
      assert FilledAt(m, supply, c, length, start, n, i) && Same(m, m', supply[start + i]);
    }
  }

  /** After array n - 1 - p has been filled from the supply at used. */
  lemma OneFilled(m: Arrays, m': Arrays, supply: seq<int>, c: Class, length: nat, start: nat, n: nat, p: nat, used: nat)
    requires Supply(supply) && length > 0 && p < n && start + n <= used && used == start + n + p * length && used + length <= |supply|
    requires Threaded(m, supply, c, length, start, start + n - p) && FilledFrom(m, supply, c, length, start, n, p)
    requires forall x :: start <= x < start + n && x != start + n - 1 - p ==> Same(m, m', supply[x])
    requires var a := supply[start + n - 1 - p]; a in m && a in m' && m'[a] == m[a].(elements := supply[used..used + length])
    ensures Threaded(m', supply, c, length, start, start + n - (p + 1)) && FilledFrom(m', supply, c, length, start, n, p + 1)
  {
    KeepThreaded(m, m', supply, c, length, start, start + n - (p + 1));
    KeepFilled(m, m', supply, c, length, start, n, p);
    assert ThreadedAt(m, supply, c, length, start, start + n - 1 - p);
    assert FilledAt(m', supply, c, length, start, n, n - 1 - p);
  }

  /** Array e is new and becomes element j of array a. */
  function Linked(m: Arrays, a: int, j: nat, e: int, c: Class, length: nat, threading: bool, previous: int): Arrays
    requires a in m && j < |m[a].elements| && (threading ==> length > 0)
  {
    var child := if threading then Fresh(c, length).(elements := Zeros(length)[0 := previous]) else Fresh(c, length);
    m[a := m[a].(elements := m[a].elements[j := e])][e := child]
  }

  lemma LinkedStep(m: Arrays, supply: seq<int>, a: int, j: nat, c: Class, length: nat, threading: bool, previous: int, next: nat, used: nat)
    requires Supply(supply) && a in m && j < |m[a].elements| && next <= used < |supply|
    requires threading ==> length > 0 && previous == if used == next then NULL else supply[used - 1]
    requires Waiting(m, supply, c, length, threading, next, used) && forall x :: next <= x < |supply| ==> supply[x] != a
    ensures Waiting(Linked(m, a, j, supply[used], c, length, threading, previous), supply, c, length, threading, next, used + 1)
  {
    OneMore(m, Linked(m, a, j, supply[used], c, length, threading, previous), supply, c, length, threading, next, used);
  }

  /** The first j elements of array a have been replaced; no other array that was there has changed. */
  ghost predicate PartlyFilled(m: Arrays, m': Arrays, supply: seq<int>, a: int, first: nat, j: nat) {
    && a in m && a in m' && j <= |m[a].elements| && |m'[a].elements| == |m[a].elements| && first + j <= |supply|
    && m'[a] == m[a].(elements := m'[a].elements) && m'[a].elements[..j] == supply[first..first + j]
    && forall b :: b in m && b != a ==> Same(m, m', b)
  }

  lemma PartlyStep(m: Arrays, m1: Arrays, supply: seq<int>, a: int, first: nat, j: nat, c: Class, length: nat, threading: bool, previous: int)
    requires PartlyFilled(m, m1, supply, a, first, j) && j < |m[a].elements| && (threading ==> length > 0)
    requires first + j < |supply| && supply[first + j] !in m1
    ensures PartlyFilled(m, Linked(m1, a, j, supply[first + j], c, length, threading, previous), supply, a, first, j + 1)
  {
    var e := supply[first + j];
    var m' := Linked(m1, a, j, e, c, length, threading, previous);
    assert m'[a].elements[..j + 1] == m1[a].elements[..j] + [e];
    forall b | b in m && b != a ensures Same(m, m', b) {
      assert Same(m, m1, b);
    }
  }
}
