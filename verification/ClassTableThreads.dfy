/** Threads that use the class table at the same time (jvm/src/class/table.c): the first probe holds no
    lock, the second one and the insertion run in a critical region. Every read and write of a slot is a
    step of its own. */
module ClassTableThreads {
  import opened ClassTable

  const NO_THREAD := 0

  /** What a thread does next. A probe for a key is at slot index and ends when it is back at slot start;
      insert tells getClassInTableGeneric from classIsInTableGeneric. */
  datatype Local =
    | Idle
    | ReadsStatus(key: nat, index: nat, start: nat, locked: bool, insert: bool)
    | ReadsKey(key: nat, index: nat, start: nat, locked: bool, insert: bool)
    | EntersCritical(key: nat, index: nat)
    | WritesKey(key: nat, index: nat)
    | WritesStatus(key: nat, index: nat)
    | Counts(key: nat, index: nat)
    | Finds(key: nat, index: nat)
    | Misses(key: nat)
    | FindsFull(key: nat)

  datatype System = System(table: Slots, count: nat, locals: map<int, Local>, lock: int)

  function LocalOf(s: System, t: int): Local {
    if t in s.locals then s.locals[t] else Idle
  }

  function Becomes(s: System, t: int, local: Local): System {
    s.(locals := s.locals[t := local])
  }

  /** The thread is done, and leaves the critical region if it is in it. */
  function Ends(s: System, t: int, local: Local): System {
    s.(locals := s.locals[t := local], lock := if s.lock == t then NO_THREAD else s.lock)
  }

  predicate Resting(local: Local) {
    local.Idle? || local.Finds? || local.Misses? || local.FindsFull?
  }

  /** A thread that has nothing else to do looks for a key. */
  function Call(s: System, t: int, key: nat, insert: bool): System
    requires |s.table| > 0
  {
    if !Resting(LocalOf(s, t)) then s
    else var h := HashIndex(key, |s.table|); Becomes(s, t, ReadsStatus(key, h, h, false, insert))
  }

  /** The next step of thread t. */
  function Step(s: System, t: int): System {
    match LocalOf(s, t)
    case ReadsStatus(key, index, start, locked, insert) =>
      if index < |s.table| && s.table[index].used then Becomes(s, t, ReadsKey(key, index, start, locked, insert))
      else if !insert then Ends(s, t, Misses(key))
      else if locked then Becomes(s, t, WritesKey(key, index))
      else Becomes(s, t, EntersCritical(key, index))
    case ReadsKey(key, index, start, locked, insert) =>
      if index >= |s.table| then s
      else if s.table[index].key == key then Ends(s, t, Finds(key, index))
      else
        var following := Following(|s.table|, index);
        if following != start then Becomes(s, t, ReadsStatus(key, following, start, locked, insert))
        else if insert then Ends(s, t, FindsFull(key))
        else Ends(s, t, Misses(key))
    case EntersCritical(key, index) =>
      if s.lock != NO_THREAD then s else Becomes(s, t, ReadsStatus(key, index, index, true, true)).(lock := t)
    case WritesKey(key, index) =>
      if index >= |s.table| then s
      else Becomes(s, t, WritesStatus(key, index)).(table := s.table[index := s.table[index].(key := key)])
    case WritesStatus(key, index) =>
      if index >= |s.table| then s
      else Becomes(s, t, Counts(key, index)).(table := s.table[index := s.table[index].(used := true)])
    case Counts(key, index) => Ends(s, t, Finds(key, index)).(count := s.count + 1)
    case _ => s
  }

  // ---------- what holds of every thread ----------

  ghost predicate Probes(s: System, t: int, key: nat, index: nat, start: nat, locked: bool, insert: bool) {
    && index < |s.table| && start < |s.table|
    && Passed(s.table, key, HashIndex(key, |s.table|), start) && Passed(s.table, key, start, index)
    && (locked ==> insert) && (locked <==> s.lock == t) && (!locked ==> start == HashIndex(key, |s.table|))
  }

  ghost predicate Writes(s: System, t: int, key: nat, index: nat) {
    && s.lock == t && index < |s.table| && !s.table[index].used
    && Passed(s.table, key, HashIndex(key, |s.table|), index)
  }

  ghost predicate LocalOk(s: System, t: int) {
    t != NO_THREAD ==>
      match LocalOf(s, t)
      case ReadsStatus(key, index, start, locked, insert) => Probes(s, t, key, index, start, locked, insert)
      case ReadsKey(key, index, start, locked, insert) => Probes(s, t, key, index, start, locked, insert) && s.table[index].used
      case EntersCritical(key, index) =>
        index < |s.table| && Passed(s.table, key, HashIndex(key, |s.table|), index) && s.lock != t
      case WritesKey(key, index) => Writes(s, t, key, index)
      case WritesStatus(key, index) => Writes(s, t, key, index) && s.table[index].key == key
      case Counts(key, index) => s.lock == t && Holds(s.table, key, index)
      case Finds(key, index) => Holds(s.table, key, index) && s.lock != t
      case FindsFull(key) => (forall i :: 0 <= i < |s.table| ==> OtherAt(s.table, key, i)) && s.lock != t
      case Misses(_) => s.lock != t
      case Idle => s.lock != t
  }

  /** A slot that is used, and not counted yet. */
  function Uncounted(s: System): nat {
    if s.lock != NO_THREAD && LocalOf(s, s.lock).Counts? then 1 else 0
  }

  /** The table is in order, and its counter says how many slots are used, but for the one that the thread
      in the critical region is about to count. */
  ghost predicate Inv(s: System) {
    |s.table| > 0 && TableOk(s.table) && Used(s.table) == s.count + Uncounted(s) && forall t :: LocalOk(s, t)
  }

  /** The steps of other threads only add keys in slots that this thread does not count on. */
  lemma OtherLocal(s: System, s': System, t: int, u: int)
    requires LocalOk(s, u) && t != u && Grown(s.table, s'.table) && |s.table| > 0
    requires forall x :: x != t ==> LocalOf(s', x) == LocalOf(s, x)
    requires s'.lock == s.lock || (s.lock == t && s'.lock == NO_THREAD) || (s.lock == NO_THREAD && s'.lock == t)
    requires s.lock != t ==> s'.table == s.table
    ensures LocalOk(s', u)
  {
    var l := LocalOf(s, u);
    if u != NO_THREAD {
      match l
      case ReadsStatus(key, index, start, locked, insert) =>
        PassedGrown(s.table, s'.table, key, HashIndex(key, |s.table|), start);
        PassedGrown(s.table, s'.table, key, start, index);
      case ReadsKey(key, index, start, locked, insert) =>
        PassedGrown(s.table, s'.table, key, HashIndex(key, |s.table|), start);
        PassedGrown(s.table, s'.table, key, start, index);
      case EntersCritical(key, index) =>
        PassedGrown(s.table, s'.table, key, HashIndex(key, |s.table|), index);
      case FindsFull(key) =>
        forall i | 0 <= i < |s'.table| ensures OtherAt(s'.table, key, i) {
          assert OtherAt(s.table, key, i);
        }
      case _ =>
    }
  }

  lemma OwnStep(s: System, t: int)
    requires Inv(s) && t != NO_THREAD
    ensures LocalOk(Step(s, t), t)
  {
    assert LocalOk(s, t);
    match LocalOf(s, t)
    case ReadsStatus(key, index, start, locked, insert) =>
      if !s.table[index].used {
        PassedBoth(s.table, key, HashIndex(key, |s.table|), start, index);
      }
    case ReadsKey(key, index, start, locked, insert) =>
      if s.table[index].key != key {
        PassedOne(s.table, key, start, index);
      }
    case WritesKey(key, index) =>
      PassedGrown(s.table, Step(s, t).table, key, HashIndex(key, |s.table|), index);
    case WritesStatus(key, index) =>
      assert Holds(Step(s, t).table, key, index);
    case _ =>
  }

  lemma CountStep(s: System, t: int)
    requires Inv(s) && t != NO_THREAD
    ensures Used(Step(s, t).table) == Step(s, t).count + Uncounted(Step(s, t))
  {
    assert LocalOk(s, t);
    match LocalOf(s, t)
    case WritesKey(key, index) => SameUsed(s.table, index, key);
    case WritesStatus(key, index) =>
      UsedOneMore(s.table, index, key);
      assert s.table[index].(used := true) == Slot(true, key);
    case _ =>
  }

  lemma {:induction false} SameUsed(table: Slots, i: nat, key: nat)
    requires i < |table|
    ensures Used(table[i := table[i].(key := key)]) == Used(table)
  {
    var table' := table[i := table[i].(key := key)];
    if i == 0 {
      assert table'[1..] == table[1..];
    } else {
      SameUsed(table[1..], i - 1, key);
      assert table'[1..] == table[1..][i - 1 := table[1..][i - 1].(key := key)];
    }
  }

  lemma TableStep(s: System, t: int)
    requires Inv(s) && t != NO_THREAD
    ensures TableOk(Step(s, t).table) && Grown(s.table, Step(s, t).table)
  {
    assert LocalOk(s, t);
    match LocalOf(s, t)
    case WritesKey(key, index) => KeyWritten(s.table, index, key);
    case WritesStatus(key, index) =>
      InsertedOk(s.table, key, index);
      assert s.table[index].(used := true) == Slot(true, key);
    case _ =>
  }

  lemma KeyWritten(table: Slots, i: nat, key: nat)
    requires TableOk(table) && i < |table| && !table[i].used
    ensures TableOk(table[i := table[i].(key := key)]) && Grown(table, table[i := table[i].(key := key)])
  {
    var table' := table[i := table[i].(key := key)];
    forall j | 0 <= j < |table'| ensures FoundAt(table', j) {
      assert FoundAt(table, j);
      if table[j].used {
        PassedGrown(table, table', table[j].key, HashIndex(table[j].key, |table|), j);
      }
    }
  }

  /** Every step of every thread keeps the table in order, and removes nothing from it. */
  lemma StepInv(s: System, t: int)
    requires Inv(s) && t != NO_THREAD
    ensures Inv(Step(s, t)) && Grown(s.table, Step(s, t).table)
  {
    TableStep(s, t);
    CountStep(s, t);
    assert LocalOk(s, t);
    forall u ensures LocalOk(Step(s, t), u) {
      if u == t {
        OwnStep(s, t);
      } else {
        assert LocalOk(s, u);
        OtherLocal(s, Step(s, t), t, u);
      }
    }
  }

  lemma CallInv(s: System, t: int, key: nat, insert: bool)
    requires Inv(s) && t != NO_THREAD
    ensures Inv(Call(s, t, key, insert)) && Call(s, t, key, insert).table == s.table
  {
    var s' := Call(s, t, key, insert);
    assert LocalOk(s, t);
    forall u ensures LocalOk(s', u) {
      assert LocalOk(s, u);
    }
  }

  // ---------- whole runs ----------

  datatype Event = Calls(thread: int, key: nat, insert: bool) | Steps(thread: int)

  function Next(s: System, e: Event): System
    requires |s.table| > 0
  {
    match e
    case Calls(t, key, insert) => Call(s, t, key, insert)
    case Steps(t) => Step(s, t)
  }

  lemma NextInv(s: System, e: Event)
    requires Inv(s) && e.thread != NO_THREAD
    ensures Inv(Next(s, e)) && Grown(s.table, Next(s, e).table)
  {
    match e
    case Calls(t, key, insert) => CallInv(s, t, key, insert);
    case Steps(t) => StepInv(s, t);
  }

  ghost predicate IsRun(ss: seq<System>, es: seq<Event>) {
    && |ss| == |es| + 1
    && (forall i :: 0 <= i < |ss| ==> |ss[i].table| > 0)
    && (forall i :: 0 <= i < |es| ==> es[i].thread != NO_THREAD && ss[i + 1] == Next(ss[i], es[i]))
  }

  lemma {:induction false} RunInv(ss: seq<System>, es: seq<Event>, i: nat, j: nat)
    requires IsRun(ss, es) && Inv(ss[0]) && i <= j < |ss|
    ensures Inv(ss[i]) && Inv(ss[j]) && Grown(ss[i].table, ss[j].table)
    decreases j, i
  {
    if i < j {
      RunInv(ss, es, i, j - 1);
      assert ss[j] == Next(ss[j - 1], es[j - 1]);
      NextInv(ss[j - 1], es[j - 1]);
    } else if j > 0 {
      RunInv(ss, es, j - 1, j - 1);
      assert ss[j] == Next(ss[j - 1], es[j - 1]);
      NextInv(ss[j - 1], es[j - 1]);
    }
  }

  lemma InitialInv(size: nat)
    requires size > 0
    ensures Inv(System(seq(size, _ => Slot(false, 0)), 0, map[], NO_THREAD))
  {
    var s := System(seq(size, _ => Slot(false, 0)), 0, map[], NO_THREAD);
    NothingUsed(s.table);
    assert forall i :: 0 <= i < |s.table| ==> FoundAt(s.table, i);
    assert forall t :: LocalOk(s, t);
  }

  /** In every run, whatever the threads do between the probe and the resumed probe: no key is ever in two
      slots, and a key that is in the table stays in its slot. */
  lemma OneSlotPerKey(ss: seq<System>, es: seq<Event>, i: nat, j: nat, key: nat, x: nat, y: nat)
    requires IsRun(ss, es) && Inv(ss[0]) && i <= j < |ss|
    requires Holds(ss[i].table, key, x) && Holds(ss[j].table, key, y)
    ensures x == y && Holds(ss[j].table, key, x)
  {
    RunInv(ss, es, i, j);
    assert ss[j].table[x] == ss[i].table[x];
    NoKeyTwice(ss[j].table, key, x, y);
  }

  /** A search that misses its key does so at a moment when the key is not in the table. */
  lemma MissesWhenAbsent(s: System, t: int)
    requires Inv(s) && t != NO_THREAD && !LocalOf(s, t).Misses? && LocalOf(Step(s, t), t).Misses?
    ensures !Contains(s.table, LocalOf(Step(s, t), t).key)
  {
    assert LocalOk(s, t);
    match LocalOf(s, t)
    case ReadsStatus(key, index, start, locked, insert) =>
      PassedBoth(s.table, key, HashIndex(key, |s.table|), start, index);
      FreeMeansAbsent(s.table, key, index);
    case ReadsKey(key, index, start, locked, insert) =>
      PassedOne(s.table, key, start, index);
      NowhereElse(s.table, key);
    case _ =>
  }

  /** So a search for a key that is in the table never misses it, as long as the search lasts. */
  lemma NeverMissed(ss: seq<System>, es: seq<Event>, i: nat, j: nat, key: nat, t: int)
    requires IsRun(ss, es) && Inv(ss[0]) && i <= j < |es| && Contains(ss[i].table, key)
    requires es[j] == Steps(t) && !LocalOf(ss[j], t).Misses?
    ensures LocalOf(ss[j + 1], t) != Misses(key)
  {
    RunInv(ss, es, i, j);
    var x :| Holds(ss[i].table, key, x);
    assert Holds(ss[j].table, key, x);
    assert ss[j + 1] == Step(ss[j], t);
    if LocalOf(ss[j + 1], t).Misses? {
      MissesWhenAbsent(ss[j], t);
    }
  }

  // ---------- every call ends, and with its key in the table ----------

  /** In the middle of a call that inserts the key if it is missing. */
  predicate Inserting(local: Local, key: nat) {
    match local
    case ReadsStatus(k, _, _, _, insert) => k == key && insert
    case ReadsKey(k, _, _, _, insert) => k == key && insert
    case EntersCritical(k, _) => k == key
    case WritesKey(k, _) => k == key
    case WritesStatus(k, _) => k == key
    case Counts(k, _) => k == key
    case _ => false
  }

  /** What an inserting call may end with: its key in a slot, or a table full of other keys. */
  ghost predicate Inserted(s: System, t: int, key: nat) {
    match LocalOf(s, t)
    case Finds(k, index) => k == key && Holds(s.table, key, index)
    case FindsFull(k) => k == key && forall i :: 0 <= i < |s.table| ==> OtherAt(s.table, key, i)
    case _ => false
  }

  lemma InsertingStep(s: System, t: int, key: nat)
    requires Inv(s) && t != NO_THREAD && Inserting(LocalOf(s, t), key)
    ensures Inserting(LocalOf(Step(s, t), t), key) || Inserted(Step(s, t), t, key)
  {
    StepInv(s, t);
    assert LocalOk(s, t) && LocalOk(Step(s, t), t);
  }

  /** From the call at i on, thread t goes on with it or has ended it, until at j. */
  ghost predicate InCall(ss: seq<System>, t: int, i: nat, j: nat) {
    i < j < |ss| && Resting(LocalOf(ss[i], t)) && forall m :: i < m < j ==> !Resting(LocalOf(ss[m], t))
  }

  /** In every run an inserting call goes on until its key is in the table, by its own hand or another
      thread's, or until every slot holds another key. */
  lemma {:induction false} InsertingCall(ss: seq<System>, es: seq<Event>, t: int, key: nat, i: nat, j: nat)
    requires IsRun(ss, es) && Inv(ss[0]) && InCall(ss, t, i, j) && es[i] == Calls(t, key, true)
    ensures Inserting(LocalOf(ss[j], t), key) || Inserted(ss[j], t, key)
    decreases j
  {
    assert ss[j] == Next(ss[j - 1], es[j - 1]);
    if i + 1 < j {
      InsertingCall(ss, es, t, key, i, j - 1);
      RunInv(ss, es, 0, j - 1);
      if es[j - 1] == Steps(t) {
        InsertingStep(ss[j - 1], t, key);
      }
    }
  }

  /** How many steps a thread still takes at most, waiting for the critical region not counted. A probe
      takes two steps a slot. */
  function Left(size: nat, local: Local): nat {
    match local
    case ReadsStatus(_, index, start, locked, insert) => Ahead(size, index, start) + 1 + Later(size, locked, insert)
    case ReadsKey(_, index, start, locked, insert) => Ahead(size, index, start) + Later(size, locked, insert)
    case EntersCritical(_, _) => 2 * size + 4
    case WritesKey(_, _) => 3
    case WritesStatus(_, _) => 2
    case Counts(_, _) => 1
    case _ => 0
  }

  /** What follows a probe: the writes, or the resumed probe before them. */
  function Later(size: nat, locked: bool, insert: bool): nat {
    if locked then 3 else if insert then 2 * size + 4 else 0
  }

  /** Twice the slots that the probe has before it, less one. */
  function Ahead(size: nat, index: nat, start: nat): nat {
    if index < size && start < size then 2 * (size - Distance(size, start, index)) - 1 else 0
  }

  const PER_SLOT := 4
  const PER_CALL := 4

  /** The thread waits for another one to leave the critical region. */
  predicate Waits(s: System, t: int) {
    LocalOf(s, t).EntersCritical? && s.lock != NO_THREAD
  }

  lemma StepLeft(s: System, t: int)
    requires Inv(s) && t != NO_THREAD && !Resting(LocalOf(s, t)) && !Waits(s, t)
    ensures Left(|s.table|, LocalOf(Step(s, t), t)) < Left(|s.table|, LocalOf(s, t))
  {
    assert LocalOk(s, t);
  }

  lemma CallLeft(s: System, t: int, key: nat, insert: bool)
    requires |s.table| > 0 && Resting(LocalOf(s, t))
    ensures Left(|s.table|, LocalOf(Call(s, t, key, insert), t)) <= PER_SLOT * |s.table| + PER_CALL
  {
  }

  /** The steps from i up to j that thread t takes without waiting. */
  function Taken(ss: seq<System>, es: seq<Event>, t: int, i: nat, j: nat): nat
    requires i <= j <= |es| && |ss| == |es| + 1
    decreases j
  {
    if i == j then 0
    else Taken(ss, es, t, i, j - 1) + if es[j - 1] == Steps(t) && !Waits(ss[j - 1], t) then 1 else 0
  }

  /** The steps that thread t has taken since i, and those that it still takes at most. */
  function Budget(ss: seq<System>, es: seq<Event>, t: int, i: nat, j: nat): nat
    requires i <= j <= |es| && |ss| == |es| + 1
  {
    Taken(ss, es, t, i, j) + Left(|ss[0].table|, LocalOf(ss[j], t))
  }

  lemma BudgetStep(ss: seq<System>, es: seq<Event>, t: int, i: nat, j: nat)
    requires IsRun(ss, es) && i <= j < |es| && Inv(ss[0]) && t != NO_THREAD && !Resting(LocalOf(ss[j], t))
    ensures Budget(ss, es, t, i, j + 1) <= Budget(ss, es, t, i, j)
  {
    SizeKept(ss, es, j);
    assert ss[j + 1] == Next(ss[j], es[j]);
    NextLeft(ss[j], es[j], t);
  }

  lemma {:induction false} BudgetFalls(ss: seq<System>, es: seq<Event>, t: int, i: nat, j: nat)
    requires IsRun(ss, es) && Inv(ss[0]) && InCall(ss, t, i, j) && t != NO_THREAD
    ensures Budget(ss, es, t, i, j) <= Budget(ss, es, t, i, i + 1)
    decreases j
  {
    if i + 1 < j {
      var before := j - 1;
      ShorterCall(ss, t, i, j);
      BudgetFalls(ss, es, t, i, before);
      BudgetStep(ss, es, t, i, before);
    }
  }

  /** Whatever the other threads do, a call ends after at most four steps for each slot, and four more, but
      for the time that it waits for another thread to leave the critical region. */
  lemma CallEnds(ss: seq<System>, es: seq<Event>, t: int, key: nat, insert: bool, i: nat, j: nat)
    requires IsRun(ss, es) && Inv(ss[0]) && InCall(ss, t, i, j) && es[i] == Calls(t, key, insert)
    ensures Taken(ss, es, t, i, j) + Left(|ss[0].table|, LocalOf(ss[j], t)) <= PER_SLOT * |ss[0].table| + PER_CALL
  {
    BudgetStart(ss, es, t, key, insert, i);
    BudgetFalls(ss, es, t, i, j);
  }

  lemma ShorterCall(ss: seq<System>, t: int, i: nat, j: nat)
    requires InCall(ss, t, i, j) && i + 1 < j
    ensures InCall(ss, t, i, j - 1) && !Resting(LocalOf(ss[j - 1], t))
  {
  }

  lemma BudgetStart(ss: seq<System>, es: seq<Event>, t: int, key: nat, insert: bool, i: nat)
    requires IsRun(ss, es) && i < |es| && Resting(LocalOf(ss[i], t)) && es[i] == Calls(t, key, insert) && Inv(ss[0])
    ensures Budget(ss, es, t, i, i + 1) <= PER_SLOT * |ss[0].table| + PER_CALL
  {
    SizeKept(ss, es, i);
    assert ss[i + 1] == Next(ss[i], es[i]) && Taken(ss, es, t, i, i) == 0;
    CallLeft(ss[i], t, key, insert);
  }

  lemma SizeKept(ss: seq<System>, es: seq<Event>, j: nat)
    requires IsRun(ss, es) && Inv(ss[0]) && j < |ss|
    ensures Inv(ss[j]) && |ss[j].table| == |ss[0].table|
  {
    RunInv(ss, es, 0, j);
  }

  /** What any step leaves thread t to do, when it is in the middle of a call. */
  lemma NextLeft(s: System, e: Event, t: int)
    requires Inv(s) && t != NO_THREAD && !Resting(LocalOf(s, t))
    ensures Left(|s.table|, LocalOf(Next(s, e), t)) + (if e == Steps(t) && !Waits(s, t) then 1 else 0) <= Left(|s.table|, LocalOf(s, t))
  {
    if e == Steps(t) && !Waits(s, t) {
      StepLeft(s, t);
    }
  }

  /** The critical region is held only by threads that do not wait: one that holds it leaves it after
      finitely many steps of its own. */
  lemma HolderMoves(s: System)
    requires Inv(s) && s.lock != NO_THREAD
    ensures !Resting(LocalOf(s, s.lock)) && !Waits(s, s.lock)
  {
    assert LocalOk(s, s.lock);
  }

  // ---------- a call that runs alone ----------

  /** n steps of thread t. */
  function Alone(s: System, t: int, n: nat): System
    decreases n
  {
    if n == 0 then s else Alone(Step(s, t), t, n - 1)
  }

  /** What the table is, compared with the one that the call has found, at each stage of a call. */
  ghost predicate Stage(table: Slots, s: System, local: Local, key: nat, insert: bool) {
    match local
    case ReadsStatus(k, _, _, _, adds) => k == key && adds == insert && s.table == table
    case ReadsKey(k, _, _, _, adds) => k == key && adds == insert && s.table == table
    case EntersCritical(k, _) => k == key && insert && s.table == table
    case WritesKey(k, _) => k == key && insert && s.table == table
    case WritesStatus(k, i) => k == key && insert && i < |table| && !table[i].used && !Contains(table, key) && s.table == table[i := table[i].(key := key)]
    case Counts(k, i) => k == key && insert && i < |table| && !table[i].used && !Contains(table, key) && s.table == table[i := Slot(true, key)]
    case Finds(k, i) =>
      && k == key && Holds(s.table, key, i)
      && if Contains(table, key) then s.table == table
         else insert && i < |table| && !table[i].used && s.table == table[i := Slot(true, key)]
    case FindsFull(k) => k == key && insert && s.table == table && forall i :: 0 <= i < |table| ==> OtherAt(table, key, i)
    case Misses(k) => k == key && !insert && s.table == table && !Contains(table, key)
    case Idle => false
  }

  lemma StageStep(table: Slots, s: System, t: int, key: nat, insert: bool)
    requires Inv(s) && t != NO_THREAD && !Resting(LocalOf(s, t)) && Stage(table, s, LocalOf(s, t), key, insert)
    ensures Stage(table, Step(s, t), LocalOf(Step(s, t), t), key, insert)
  {
    StepInv(s, t);
    assert LocalOk(s, t) && LocalOk(Step(s, t), t);
    match LocalOf(s, t)
    case ReadsStatus(k, index, start, locked, adds) =>
      if LocalOf(Step(s, t), t).Misses? {
        MissesWhenAbsent(s, t);
      }
    case ReadsKey(k, index, start, locked, adds) =>
      if LocalOf(Step(s, t), t).Misses? {
        MissesWhenAbsent(s, t);
      }
      assert s.table[index].key == key ==> Holds(s.table, key, index);
    case WritesKey(k, index) => FreeMeansAbsent(s.table, key, index);
    case WritesStatus(k, index) => assert Step(s, t).table == table[index := Slot(true, key)];
    case _ =>
  }

  /** The critical region is free, or the thread itself is in it. */
  predicate Undisturbed(s: System, t: int) {
    s.lock == NO_THREAD || s.lock == t
  }

  lemma {:induction false} AloneEnds(table: Slots, s: System, t: int, key: nat, insert: bool, n: nat)
    requires Inv(s) && t != NO_THREAD && Undisturbed(s, t) && Stage(table, s, LocalOf(s, t), key, insert)
    requires n >= Left(|s.table|, LocalOf(s, t))
    ensures var s' := Alone(s, t, n); Inv(s') && s'.lock == NO_THREAD && Resting(LocalOf(s', t)) && Stage(table, s', LocalOf(s', t), key, insert)
    decreases n
  {
    assert LocalOk(s, t);
    if Resting(LocalOf(s, t)) {
      RestingStays(s, t, n);
    } else {
      NotWaiting(s, t);
      StepLeft(s, t);
      StepInv(s, t);
      StageStep(table, s, t, key, insert);
      AloneEnds(table, Step(s, t), t, key, insert, n - 1);
    }
  }

  lemma NotWaiting(s: System, t: int)
    requires Inv(s) && t != NO_THREAD && Undisturbed(s, t)
    ensures !Waits(s, t) && Undisturbed(Step(s, t), t)
  {
    assert LocalOk(s, t);
  }

  lemma {:induction false} RestingStays(s: System, t: int, n: nat)
    requires Resting(LocalOf(s, t))
    ensures Alone(s, t, n) == s
    decreases n
  {
    if n > 0 {
      RestingStays(s, t, n - 1);
    }
  }

  /** A call that no other thread disturbs ends within that many steps. An inserting one ends with its key in
      the table: where it was, or in a slot that was free and is now used and counted, with nothing else
      changed; or it reports a full table, and then every slot holds another key. Any other call tells
      whether the key is in the table. */
  lemma CallAlone(s: System, t: int, key: nat, insert: bool)
    requires Inv(s) && t != NO_THREAD && s.lock == NO_THREAD && Resting(LocalOf(s, t))
    ensures var s' := Alone(Call(s, t, key, insert), t, PER_SLOT * |s.table| + PER_CALL);
            && Inv(s') && s'.lock == NO_THREAD && Resting(LocalOf(s', t)) && Stage(s.table, s', LocalOf(s', t), key, insert)
            && s'.count == Used(s'.table)
  {
    var s1 := Call(s, t, key, insert);
    CallInv(s, t, key, insert);
    CallLeft(s, t, key, insert);
    AloneEnds(s.table, s1, t, key, insert, PER_SLOT * |s.table| + PER_CALL);
  }
}
