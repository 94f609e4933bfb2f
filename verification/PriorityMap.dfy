/** The two-level bitmap that finds the highest priority with a runnable thread
    (lib/src/thread/schedule.h, the macros around priorityMatrix and priorityRows). */
module PriorityMap {
  import opened SchedulerState

  /** 1 << i, for a bit of a byte. */
  function Mask(i: nat): bv8 {
    if i == 0 then 1 else if i == 1 then 2 else if i == 2 then 4 else if i == 3 then 8
    else if i == 4 then 16 else if i == 5 then 32 else if i == 6 then 64 else if i == 7 then 128 else 0
  }

  lemma MaskIs(i: nat)
    requires i < 8
    ensures Mask(i) == (1 as bv8) << i
  {
  }

  predicate Bit(b: bv8, i: nat) {
    b & Mask(i) != 0
  }

  lemma SetBits(b: bv8, i: nat, j: nat)
    requires i < 8 && j < 8
    ensures Bit(b | Mask(i), j) <==> Bit(b, j) || i == j
    ensures Bit(b & !Mask(i), j) <==> Bit(b, j) && i != j
    ensures b | Mask(i) != 0
  {
  }

  lemma AnyBit(b: bv8, i: nat)
    requires i < 8 && Bit(b, i)
    ensures b != 0
  {
  }

  /** highestBitMap: entry b is the number of the highest bit of b, and 0 for 0. */
  function HighestBit(b: bv8): (n: nat)
    ensures n < 8
    ensures b != 0 ==> Bit(b, n)
    ensures forall i: nat :: n < i < 8 ==> !Bit(b, i)
  {
    if b < 2 then 0 else if b < 4 then 1 else if b < 8 then 2 else if b < 16 then 3
    else if b < 32 then 4 else if b < 64 then 5 else if b < 128 then 6 else 7
  }

  datatype Bits = Bits(rows: bv8, matrix: seq<bv8>)

  function AddToPriorityMap(bits: Bits, priority: nat): Bits
    requires priority < PRIORITIES && |bits.matrix| == 8
  {
    Bits(bits.rows | Mask(priority / 8), bits.matrix[priority / 8 := bits.matrix[priority / 8] | Mask(priority % 8)])
  }

  /** removePriority: the macro guards only the first of the two statements it expands to. */
  function RemovePriority(bits: Bits, priority: nat, empty: bool): Bits
    requires priority < PRIORITIES && |bits.matrix| == 8
  {
    var row := if empty then bits.matrix[priority / 8] & !Mask(priority % 8) else bits.matrix[priority / 8];
    Bits(if row == 0 then bits.rows & !Mask(priority / 8) else bits.rows, bits.matrix[priority / 8 := row])
  }

  function GetHighestPriority(bits: Bits): nat
    requires |bits.matrix| == 8
  {
    HighestBit(bits.rows) * 8 + HighestBit(bits.matrix[HighestBit(bits.rows)])
  }

  // ---------- what the bits mean ----------

  ghost predicate BitAt(bits: Bits, ready: set<nat>, p: nat)
    requires |bits.matrix| == 8
  {
    p < PRIORITIES ==> (Bit(bits.matrix[p / 8], p % 8) <==> p in ready)
  }

  ghost predicate RowAt(bits: Bits, r: nat)
    requires |bits.matrix| == 8
  {
    r < 8 ==> (Bit(bits.rows, r) <==> bits.matrix[r] != 0)
  }

  /** A bit is set if and only if its priority is ready, and a row bit if and only if its row has a bit. */
  ghost predicate Marks(bits: Bits, ready: set<nat>) {
    |bits.matrix| == 8 && (forall p :: BitAt(bits, ready, p)) && (forall r :: RowAt(bits, r))
  }

  const NO_BITS := Bits(0, [0, 0, 0, 0, 0, 0, 0, 0])

  lemma NothingMarked()
    ensures Marks(NO_BITS, {})
  {
  }

  lemma AddBit(bits: Bits, ready: set<nat>, priority: nat, p: nat)
    requires Marks(bits, ready) && priority < PRIORITIES && p < PRIORITIES
    ensures BitAt(AddToPriorityMap(bits, priority), ready + {priority}, p)
  {
    assert BitAt(bits, ready, p);
    SetBits(bits.matrix[priority / 8], priority % 8, p % 8);
  }

  lemma AddRow(bits: Bits, ready: set<nat>, priority: nat, r: nat)
    requires Marks(bits, ready) && priority < PRIORITIES && r < 8
    ensures RowAt(AddToPriorityMap(bits, priority), r)
  {
    assert RowAt(bits, r);
    SetBits(bits.rows, priority / 8, r);
    SetBits(bits.matrix[priority / 8], priority % 8, 0);
  }

  lemma AddMarks(bits: Bits, ready: set<nat>, priority: nat)
    requires Marks(bits, ready) && priority < PRIORITIES
    ensures Marks(AddToPriorityMap(bits, priority), ready + {priority})
  {
    forall p: nat | p < PRIORITIES ensures BitAt(AddToPriorityMap(bits, priority), ready + {priority}, p) {
      AddBit(bits, ready, priority, p);
    }
    forall r: nat | r < 8 ensures RowAt(AddToPriorityMap(bits, priority), r) {
      AddRow(bits, ready, priority, r);
    }
  }

  lemma RemoveBit(bits: Bits, ready: set<nat>, priority: nat, empty: bool, p: nat)
    requires Marks(bits, ready) && priority < PRIORITIES && p < PRIORITIES
    ensures BitAt(RemovePriority(bits, priority, empty), if empty then ready - {priority} else ready, p)
  {
    assert BitAt(bits, ready, p);
    SetBits(bits.matrix[priority / 8], priority % 8, p % 8);
  }

  lemma RemoveRow(bits: Bits, ready: set<nat>, priority: nat, empty: bool, r: nat)
    requires Marks(bits, ready) && priority < PRIORITIES && r < 8
    ensures RowAt(RemovePriority(bits, priority, empty), r)
  {
    assert RowAt(bits, r);
    SetBits(bits.rows, priority / 8, r);
  }

  lemma RemoveMarks(bits: Bits, ready: set<nat>, priority: nat, empty: bool)
    requires Marks(bits, ready) && priority < PRIORITIES
    ensures Marks(RemovePriority(bits, priority, empty), if empty then ready - {priority} else ready)
  {
    var after, left := RemovePriority(bits, priority, empty), if empty then ready - {priority} else ready;
    forall p: nat | p < PRIORITIES ensures BitAt(after, left, p) {
      RemoveBit(bits, ready, priority, empty, p);
    }
    forall r: nat | r < 8 ensures RowAt(after, r) {
      RemoveRow(bits, ready, priority, empty, r);
    }
  }

  /** The two table lookups find the highest ready priority. */
  lemma HighestMarked(bits: Bits, ready: set<nat>, p: nat)
    requires Marks(bits, ready) && p in ready && p < PRIORITIES
    ensures p <= GetHighestPriority(bits) < PRIORITIES && GetHighestPriority(bits) in ready
  {
    var row := HighestBit(bits.rows);
    var high := GetHighestPriority(bits);
    assert BitAt(bits, ready, p) && RowAt(bits, p / 8) && RowAt(bits, row);
    AnyBit(bits.matrix[p / 8], p % 8);
    AnyBit(bits.rows, p / 8);
    assert p / 8 <= row;
    assert high / 8 == row && high % 8 == HighestBit(bits.matrix[row]);
    assert BitAt(bits, ready, high);
    if p / 8 == row {
      assert p % 8 <= high % 8;
    }
  }

  // ---------- the bitmap and the running lists ----------

  /** The priorities with a runnable thread. */
  ghost function Ready(lists: map<Place, seq<int>>): set<nat> {
    set p: nat | p < PRIORITIES && Running(p) in lists && lists[Running(p)] != []
  }

  /** getHighestPriority is the highest priority with a runnable thread. */
  lemma HighestReady(s: State, bits: Bits)
    requires Marks(bits, Ready(s.lists)) && Ready(s.lists) != {}
    ensures GetHighestPriority(bits) == HighestUpTo(s, PRIORITIES - 1)
  {
    var p :| p in Ready(s.lists);
    HighestMarked(bits, Ready(s.lists), p);
    var high, top := HighestUpTo(s, PRIORITIES - 1), GetHighestPriority(bits);
    assert top in Ready(s.lists);
    if high != top {
      assert high < top ==> List(s, Running(top)) == [];
      assert List(s, Running(high)) != [] ==> high in Ready(s.lists);
      if high in Ready(s.lists) {
        HighestMarked(bits, Ready(s.lists), high);
      }
    }
  }
}
