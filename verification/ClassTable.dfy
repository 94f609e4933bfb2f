/** The open-addressed class table (jvm/src/class/table.c): linear probing, first without a lock, then
    resumed inside a critical region from the slot that the first probe found free. */
module ClassTable {

  /** used stands for any status but inexistent. */
  datatype Slot = Slot(used: bool, key: nat)
  type Slots = seq<Slot>

  function HashIndex(key: nat, size: nat): (h: nat)
    requires size > 0
    ensures h < size
  {
    key % size
  }

  /** A key starts at its remainder. */
  lemma HashIndexIs(key: nat, size: nat)
    requires size > 0
    ensures exists rows: nat :: key == rows * size + HashIndex(key, size)
  {
    assert key == (key / size) * size + HashIndex(key, size);
  }

  function Following(size: nat, i: nat): (j: nat)
    requires i < size
    ensures j < size
  {
    if i + 1 == size then 0 else i + 1
  }

  /** The source writes the same step as a remainder. */
  lemma FollowingWraps(size: nat, i: nat)
    requires i < size
    ensures Following(size, i) == (i + 1) % size
  {
  }

  /** How far a probe that starts at one slot has to go to reach another one. */
  function Distance(size: nat, from: nat, to: nat): nat
    requires from < size && to < size
  {
    if from <= to then to - from else size - from + to
  }

  ghost predicate Holds(table: Slots, key: nat, i: nat) {
    i < |table| && table[i].used && table[i].key == key
  }

  ghost predicate Contains(table: Slots, key: nat) {
    exists i :: Holds(table, key, i)
  }

  ghost predicate OtherAt(table: Slots, key: nat, i: nat) {
    i < |table| ==> table[i].used && table[i].key != key
  }

  /** A probe for the key passes every slot from one to just before another. */
  ghost predicate Passed(table: Slots, key: nat, from: nat, to: nat)
    requires from < |table| && to < |table|
  {
    forall i :: 0 <= i < |table| && Distance(|table|, from, i) < Distance(|table|, from, to) ==> OtherAt(table, key, i)
  }

  /** A probe for the key in slot i gets to slot i. */
  ghost predicate FoundAt(table: Slots, i: nat)
    requires i < |table|
  {
    table[i].used ==> Passed(table, table[i].key, HashIndex(table[i].key, |table|), i)
  }

  ghost predicate TableOk(table: Slots) {
    forall i :: 0 <= i < |table| ==> FoundAt(table, i)
  }

  /** No key is in two slots. */
  lemma NoKeyTwice(table: Slots, key: nat, i: nat, j: nat)
    requires TableOk(table) && Holds(table, key, i) && Holds(table, key, j)
    ensures i == j
  {
    var h := HashIndex(key, |table|);
    assert FoundAt(table, i) && FoundAt(table, j);
    assert Distance(|table|, h, i) < Distance(|table|, h, j) ==> OtherAt(table, key, i);
    assert Distance(|table|, h, j) < Distance(|table|, h, i) ==> OtherAt(table, key, j);
  }

  /** A probe from the start of the key's chain that ends at a free slot has not missed the key. */
  lemma FreeMeansAbsent(table: Slots, key: nat, i: nat)
    requires TableOk(table) && i < |table| && !table[i].used && Passed(table, key, HashIndex(key, |table|), i)
    ensures !Contains(table, key)
  {
    var h := HashIndex(key, |table|);
    forall j: nat | j < |table| ensures !Holds(table, key, j) {
      assert FoundAt(table, j);
      assert Distance(|table|, h, j) < Distance(|table|, h, i) ==> OtherAt(table, key, j);
      assert Holds(table, key, j) && Distance(|table|, h, i) < Distance(|table|, h, j) ==> OtherAt(table, key, i);
    }
  }

  lemma PassedOne(table: Slots, key: nat, from: nat, i: nat)
    requires from < |table| && i < |table| && Passed(table, key, from, i) && OtherAt(table, key, i)
    ensures Following(|table|, i) != from ==> Passed(table, key, from, Following(|table|, i))
    ensures Following(|table|, i) == from ==> forall j :: 0 <= j < |table| ==> OtherAt(table, key, j)
  {
    forall j | 0 <= j < |table| && (Following(|table|, i) == from || Distance(|table|, from, j) < Distance(|table|, from, Following(|table|, i)))
      ensures OtherAt(table, key, j)
    {
      assert j == i || Distance(|table|, from, j) < Distance(|table|, from, i);
    }
  }

  /** A probe that was resumed at slot from, and before that had come from h: together they have passed
      all from h on, unless the slot it is at has been passed already. */
  lemma PassedBoth(table: Slots, key: nat, h: nat, from: nat, i: nat)
    requires h < |table| && from < |table| && i < |table| && !table[i].used
    requires Passed(table, key, h, from) && Passed(table, key, from, i)
    ensures Passed(table, key, h, i)
  {
    assert Distance(|table|, h, i) < Distance(|table|, h, from) ==> OtherAt(table, key, i);
    forall j | 0 <= j < |table| && Distance(|table|, h, j) < Distance(|table|, h, i) ensures OtherAt(table, key, j) {
      assert Distance(|table|, h, j) < Distance(|table|, h, from) || Distance(|table|, from, j) < Distance(|table|, from, i);
    }
  }

  /** Slots that are used stay as they are. */
  ghost predicate Grown(table: Slots, table': Slots) {
    |table'| == |table| && forall i :: 0 <= i < |table| && table[i].used ==> table'[i] == table[i]
  }

  lemma PassedGrown(table: Slots, table': Slots, key: nat, from: nat, to: nat)
    requires Grown(table, table') && from < |table| && to < |table| && Passed(table, key, from, to)
    ensures Passed(table', key, from, to)
  {
    forall i | 0 <= i < |table'| && Distance(|table'|, from, i) < Distance(|table'|, from, to) ensures OtherAt(table', key, i) {
      assert OtherAt(table, key, i);
    }
  }

  lemma InsertedOk(table: Slots, key: nat, i: nat)
    requires TableOk(table) && i < |table| && !table[i].used && Passed(table, key, HashIndex(key, |table|), i)
    ensures TableOk(table[i := Slot(true, key)])
  {
    var table' := table[i := Slot(true, key)];
    FreeMeansAbsent(table, key, i);
    forall j | 0 <= j < |table'| ensures FoundAt(table', j) {
      if j == i {
        PassedGrown(table, table', key, HashIndex(key, |table|), i);
      } else if table[j].used {
        assert FoundAt(table, j);
        PassedGrown(table, table', table[j].key, HashIndex(table[j].key, |table|), j);
      }
    }
  }

  // ---------- the operations, undisturbed ----------

  datatype Code = Success | TableFull | NoClassDefFound

  function Used(table: Slots): nat {
    if table == [] then 0 else (if table[0].used then 1 else 0) + Used(table[1..])
  }

  lemma {:induction false} UsedOneMore(table: Slots, i: nat, key: nat)
    requires i < |table| && !table[i].used
    ensures Used(table[i := Slot(true, key)]) == Used(table) + 1
  {
    var table' := table[i := Slot(true, key)];
    if i == 0 {
      assert table'[1..] == table[1..];
    } else {
      UsedOneMore(table[1..], i - 1, key);
      assert table'[1..] == table[1..][i - 1 := Slot(true, key)];
    }
  }

  class Table {
    const slots: array<Slot>
    var count: nat

    ghost predicate Valid()
      reads this, slots
    {
      slots.Length > 0 && TableOk(slots[..]) && count == Used(slots[..])
    }

    constructor (size: nat)
      requires size > 0
      ensures Valid() && fresh(slots) && slots.Length == size && count == 0
      ensures forall key :: !Contains(slots[..], key)
    {
      slots := new Slot[size](_ => Slot(false, 0));
      count := 0;
      new;
      NothingUsed(slots[..]);
    }

    /** classIsInTableGeneric. */
    method ClassIsInTable(key: nat) returns (found: bool, slot: nat)
      requires Valid()
      ensures found <==> Contains(slots[..], key)
      ensures found ==> Holds(slots[..], key, slot)
    {
      var hashed := HashIndex(key, slots.Length);
      var current := hashed;
      slot := hashed;
      while slots[slot].used
        invariant slot == current < slots.Length && Passed(slots[..], key, hashed, current)
        decreases slots.Length - Distance(slots.Length, hashed, current)
      {
        if slots[slot].key == key {
          assert Holds(slots[..], key, slot);
          return true, slot;
        }
        PassedOne(slots[..], key, hashed, current);
        FollowingWraps(slots.Length, current);
        current := (current + 1) % slots.Length;
        if current == hashed {
          NowhereElse(slots[..], key);
          return false, slot;
        }
        slot := current;
      }
      FreeMeansAbsent(slots[..], key, current);
      found := false;
    }

    /** findClassTableIndex: probes from slot start until it is back at slot hashed. */
    method FindClassTableIndex(key: nat, start: nat) returns (code: Code, index: nat)
      requires slots.Length > 0 && start < slots.Length
      ensures code.Success? ==> Holds(slots[..], key, index)
      ensures code.TableFull? ==> forall i :: 0 <= i < slots.Length ==> OtherAt(slots[..], key, i)
      ensures code.NoClassDefFound? ==> index < slots.Length && !slots[index].used && Passed(slots[..], key, start, index)
      ensures !slots[start].used ==> code.NoClassDefFound? && index == start
    {
      index := start;
      while slots[index].used
        invariant index < slots.Length && Passed(slots[..], key, start, index)
        decreases slots.Length - Distance(slots.Length, start, index)
      {
        if slots[index].key == key {
          return Success, index;
        }
        PassedOne(slots[..], key, start, index);
        FollowingWraps(slots.Length, index);
        index := (index + 1) % slots.Length;
        if index == start {
          return TableFull, index;
        }
      }
      code := NoClassDefFound;
    }

    /** getClassInTableGeneric, when no other thread runs in between: finds the key or reserves a slot. */
    method GetClassInTable(key: nat) returns (code: Code, index: nat)
      requires Valid()
      modifies this, slots
      ensures Valid() && !code.NoClassDefFound?
      ensures code.Success? ==> Holds(slots[..], key, index)
      ensures if code.Success? && !Contains(old(slots[..]), key)
              then index < slots.Length && !old(slots[..])[index].used && slots[..] == old(slots[..])[index := Slot(true, key)]
              else slots[..] == old(slots[..])
      ensures code.TableFull? <==> forall i :: 0 <= i < slots.Length ==> OtherAt(old(slots[..]), key, i)
      ensures forall k :: Contains(slots[..], k) <==> Contains(old(slots[..]), k) || (code.Success? && k == key)
    {
      var hashed := HashIndex(key, slots.Length);
      code, index := FindClassTableIndex(key, hashed);
      assert !code.TableFull? ==> !OtherAt(slots[..], key, index);
      if code.NoClassDefFound? {
        code, index := FindClassTableIndex(key, index);
        InsertedOk(slots[..], key, index);
        FreeMeansAbsent(slots[..], key, index);
        UsedOneMore(slots[..], index, key);
        InsertedContains(slots[..], key, index);
        slots[index] := Slot(true, key);
        count := count + 1;
        assert slots[..] == old(slots[..])[index := Slot(true, key)];
        code := Success;
      }
    }
  }

  lemma InsertedContains(table: Slots, key: nat, i: nat)
    requires i < |table| && !table[i].used
    ensures forall k :: Contains(table[i := Slot(true, key)], k) <==> Contains(table, k) || k == key
  {
    var table' := table[i := Slot(true, key)];
    forall k ensures Contains(table', k) <==> Contains(table, k) || k == key {
      if Contains(table, k) {
        var j :| Holds(table, k, j);
        assert Holds(table', k, j);
      }
      assert Holds(table', key, i);
      if Contains(table', k) && k != key {
        var j :| Holds(table', k, j);
        assert Holds(table, k, j);
      }
    }
  }

  lemma NowhereElse(table: Slots, key: nat)
    requires forall i :: 0 <= i < |table| ==> OtherAt(table, key, i)
    ensures !Contains(table, key)
  {
    forall i: nat | i < |table| ensures !Holds(table, key, i) {
      assert OtherAt(table, key, i);
    }
  }

  lemma {:induction false} NothingUsed(table: Slots)
    requires forall i :: 0 <= i < |table| ==> !table[i].used
    ensures Used(table) == 0
  {
    if table != [] {
      NothingUsed(table[1..]);
    }
  }
}
