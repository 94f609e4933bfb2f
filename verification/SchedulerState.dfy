/** The scheduler as a state machine: where every thread is, who owns which monitor, and which timers
    run. The operations of the scheduler are functions on this state. */
module SchedulerState {
  import opened Basics
  import opened LinkedLists

  const PRIORITIES := 64

  /** The lists a thread can be on. */
  datatype Place =
    | Running(priority: nat)
    | Sleeping
    | AsleepOn(monitor: int)
    | BlockedOn(monitor: int)
    | Joining(thread: int)
    | Pending(semaphore: int)

  datatype ThreadState = NotStarted | Active | Finished

  datatype Status =
    | AsleepTimedOut
    | AsleepOnMonitor
    | AsleepTimedOutOnMonitor
    | BlockedOnMonitor
    | BlockedOnThreadDeath
    | BlockedOnSemaphore
    | StatusRunning

  datatype Thread = Thread(state: ThreadState, status: Status, priority: nat, waitMonitor: int, waitDepth: nat)

  datatype Monitor = Monitor(owner: int, depth: nat)

  datatype Callback = MonitorWaitExpired | ThreadSleepExpired
  datatype Timer = Timer(thread: int, callback: Callback, time: int)

  /** place says for every active thread which list it is on; the lists say the same, in order. */
  datatype State = State(
    lists: map<Place, seq<int>>,
    place: map<int, Place>,
    threads: map<int, Thread>,
    monitors: map<int, Monitor>,
    counters: map<int, int>,
    timers: seq<Timer>,
    current: int,
    idle: int)

  function ThreadOf(s: State, t: int): Thread {
    if t in s.threads then s.threads[t] else Thread(NotStarted, AsleepTimedOut, 0, NULL, 0)
  }

  function List(s: State, p: Place): seq<int> {
    if p in s.lists then s.lists[p] else []
  }

  // ---------- moving one thread ----------

  function Without(l: seq<int>, t: int): seq<int> {
    if l == [] then [] else if l[0] == t then l[1..] else [l[0]] + Without(l[1..], t)
  }

  lemma FrontWithout(l: seq<int>, t: int)
    requires l != [] && l[0] == t
    ensures Without(l, t) == l[1..]
  {
  }

  lemma {:induction false} WithoutAbsent(l: seq<int>, t: int)
    ensures t !in l ==> Without(l, t) == l
  {
    if l != [] {
      WithoutAbsent(l[1..], t);
      assert l == [l[0]] + l[1..];
    }
  }

  lemma {:induction false} WithoutMembers(l: seq<int>, t: int)
    requires Distinct(l)
    ensures Distinct(Without(l, t))
    ensures forall x :: x in Without(l, t) <==> x in l && x != t
    ensures |Without(l, t)| == |l| - (if t in l then 1 else 0)
    ensures l != [] && l[0] != t ==> Without(l, t) != [] && Without(l, t)[0] == l[0]
  {
    if l != [] && l[0] != t {
      WithoutMembers(l[1..], t);
      assert l == [l[0]] + l[1..];
      assert l[0] !in l[1..];
      DistinctCons(l[0], Without(l[1..], t));
    }
  }

  lemma DistinctCons(a: int, l: seq<int>)
    requires Distinct(l) && a !in l
    ensures Distinct([a] + l)
  {
  }

  function Took(s: State, t: int): State {
    if t in s.place then
      s.(lists := s.lists[s.place[t] := Without(List(s, s.place[t]), t)], place := s.place - {t})
    else s
  }

  function PutAt(s: State, t: int, p: Place, slot: nat): State
    requires slot <= |List(s, p)|
  {
    s.(lists := s.lists[p := Inserted(List(s, p), slot, t)], place := s.place[t := p])
  }

  /** Thread t leaves its list, if it is on one, and goes to the end of list p with new data. */
  function Moved(s: State, t: int, p: Place, data: Thread): State {
    var off := Took(s, t);
    PutAt(off, t, p, |List(off, p)|).(threads := s.threads[t := data])
  }

  function PrioritiesOf(s: State, l: seq<int>): (ks: seq<int>)
    ensures |ks| == |l|
  {
    seq(|l|, i requires 0 <= i < |l| => if l[i] in s.threads then s.threads[l[i]].priority else 0)
  }

  /** The same, but t goes where its priority puts it. */
  function MovedSorted(s: State, t: int, p: Place, data: Thread): State {
    var off := Took(s, t);
    PutAt(off, t, p, SortedPosition(PrioritiesOf(s, List(off, p)), data.priority, ByPriority)).(threads := s.threads[t := data])
  }

  // ---------- every thread is on exactly one list ----------

  ghost predicate ListOk(s: State, p: Place)
    requires p in s.lists
  {
    Distinct(s.lists[p]) && forall t :: t in s.lists[p] ==> t in s.place && s.place[t] == p
  }

  ghost predicate SitsAt(s: State, t: int)
    requires t in s.place
  {
    t in List(s, s.place[t])
  }

  ghost predicate Placed(s: State) {
    && (forall p :: p in s.lists ==> ListOk(s, p))
    && (forall t :: t in s.place ==> SitsAt(s, t))
  }

  /** What place and status of a thread say about each other. A notified thread keeps the status it had
      while it was asleep. */
  predicate StatusOk(d: Thread, p: Place) {
    && d.state.Active? && d.priority < PRIORITIES
    && match p
       case Running(priority) => d.status.StatusRunning? && d.priority == priority && d.waitMonitor == NULL
       case Sleeping => d.status.AsleepTimedOut? && d.waitMonitor == NULL
       case AsleepOn(m) => (d.status.AsleepOnMonitor? || d.status.AsleepTimedOutOnMonitor?) && d.waitMonitor == m != NULL && d.waitDepth > 0
       case BlockedOn(m) =>
         && (d.status.BlockedOnMonitor? || d.status.AsleepOnMonitor? || d.status.AsleepTimedOutOnMonitor?)
         && (d.waitMonitor == NULL || (d.waitMonitor == m && d.waitDepth > 0))
       case Joining(_) => d.status.BlockedOnThreadDeath? && d.waitMonitor == NULL
       case Pending(_) => d.status.BlockedOnSemaphore? && d.waitMonitor == NULL
  }

  ghost predicate ThreadAt(s: State, t: int)
    requires t in s.threads
  {
    && t != NULL
    && (s.threads[t].state.Active? <==> t in s.place)
    && (t in s.place ==> StatusOk(s.threads[t], s.place[t]))
    && (s.threads[t].state.NotStarted? ==> s.threads[t].waitMonitor == NULL)
  }

  ghost predicate Statuses(s: State) {
    && s.place.Keys <= s.threads.Keys
    && forall t :: t in s.threads ==> ThreadAt(s, t)
  }

  lemma TookPlaced(s: State, t: int)
    requires Placed(s)
    ensures Placed(Took(s, t)) && t !in Took(s, t).place
    ensures forall p :: List(Took(s, t), p) == if t in s.place && p == s.place[t] then Without(List(s, p), t) else List(s, p)
  {
    if t in s.place {
      var s', q := Took(s, t), s.place[t];
      assert SitsAt(s, t) && ListOk(s, q);
      WithoutMembers(s.lists[q], t);
      forall p | p in s'.lists ensures ListOk(s', p) {
        assert p in s.lists ==> ListOk(s, p);
      }
      forall x | x in s'.place ensures SitsAt(s', x) {
        assert SitsAt(s, x);
      }
    }
  }

  lemma PutPlaced(s: State, t: int, p: Place, slot: nat)
    requires Placed(s) && t !in s.place && slot <= |List(s, p)|
    ensures Placed(PutAt(s, t, p, slot))
  {
    var s', l := PutAt(s, t, p, slot), List(s, p);
    assert p in s.lists ==> ListOk(s, p);
    var l' := Inserted(l, slot, t);
    assert t !in l;
    forall x ensures x in l' <==> x in l || x == t {
      InsertedMember(l, slot, t, x);
    }
    InsertedDistinct(l, slot, t);
    forall q | q in s'.lists ensures ListOk(s', q) {
      assert q in s.lists ==> ListOk(s, q);
    }
    forall x | x in s'.place ensures SitsAt(s', x) {
      assert x in s.place ==> SitsAt(s, x);
    }
  }

  lemma InsertedMember(l: seq<int>, slot: nat, t: int, x: int)
    requires slot <= |l|
    ensures x in Inserted(l, slot, t) <==> x in l || x == t
  {
    assert l == l[..slot] + l[slot..];
  }

  /** The lists and the places of the threads are the same. */
  lemma SamePlaced(s: State, s': State)
    requires Placed(s) && s'.lists == s.lists && s'.place == s.place
    ensures Placed(s')
  {
    forall p | p in s'.lists ensures ListOk(s', p) {
      assert ListOk(s, p);
    }
    forall t | t in s'.place ensures SitsAt(s', t) {
      assert SitsAt(s, t);
    }
  }

  // ---------- the effect of a move ----------

  /** A move keeps every thread on exactly one list, with a status that fits it. */
  lemma MovedPlaced(s: State, t: int, p: Place, data: Thread)
    requires Placed(s) && Statuses(s) && t in s.threads && StatusOk(data, p)
    ensures Placed(Moved(s, t, p, data)) && Statuses(Moved(s, t, p, data))
    ensures Moved(s, t, p, data).place == s.place[t := p]
  {
    var off, s' := Took(s, t), Moved(s, t, p, data);
    TookPlaced(s, t);
    PutPlaced(off, t, p, |List(off, p)|);
    SamePlaced(PutAt(off, t, p, |List(off, p)|), s');
    MovedStatuses(s, s', t, p, data);
  }

  lemma MovedSortedPlaced(s: State, t: int, p: Place, data: Thread)
    requires Placed(s) && Statuses(s) && t in s.threads && StatusOk(data, p)
    ensures Placed(MovedSorted(s, t, p, data)) && Statuses(MovedSorted(s, t, p, data))
    ensures MovedSorted(s, t, p, data).place == s.place[t := p]
  {
    var off, s' := Took(s, t), MovedSorted(s, t, p, data);
    var slot := SortedPosition(PrioritiesOf(s, List(off, p)), data.priority, ByPriority);
    TookPlaced(s, t);
    PutPlaced(off, t, p, slot);
    SamePlaced(PutAt(off, t, p, slot), s');
    MovedStatuses(s, s', t, p, data);
  }

  lemma MovedStatuses(s: State, s': State, t: int, p: Place, data: Thread)
    requires Statuses(s) && t in s.threads && StatusOk(data, p)
    requires s'.threads == s.threads[t := data] && s'.place == s.place[t := p]
    ensures Statuses(s')
  {
    forall x | x in s'.threads ensures ThreadAt(s', x) {
      assert ThreadAt(s, x);
    }
  }

  /** List q once t is off the list it was on. */
  function LeftOver(s: State, t: int, q: Place): seq<int> {
    if t in s.place && q == s.place[t] then Without(List(s, q), t) else List(s, q)
  }

  /** What a move does to the lists: t leaves the one it was on and ends the one it goes to. */
  lemma MovedLists(s: State, t: int, p: Place, data: Thread)
    requires Placed(s)
    ensures forall q :: List(Moved(s, t, p, data), q) == LeftOver(s, t, q) + if q == p then [t] else []
  {
    TookPlaced(s, t);
  }

  /** Which thread is on which list. */
  lemma Member(s: State, t: int, p: Place)
    requires Placed(s)
    ensures t in List(s, p) <==> t in s.place && s.place[t] == p
    ensures Distinct(List(s, p))
  {
    if p in s.lists {
      assert ListOk(s, p);
    }
    if t in s.place {
      assert SitsAt(s, t);
    }
  }

  // ---------- monitors ----------

  function MonitorOf(s: State, m: int): Monitor {
    if m in s.monitors then s.monitors[m] else Monitor(NULL, 0)
  }

  /** An unowned monitor blocks nobody; an owner has entered and is not waiting for its own monitor. */
  ghost predicate MonitorAt(s: State, m: int) {
    var owner := MonitorOf(s, m).owner;
    && (owner == NULL ==> List(s, BlockedOn(m)) == [])
    && (owner != NULL ==>
         && MonitorOf(s, m).depth > 0
         && owner in s.place && s.place[owner] != BlockedOn(m) && s.place[owner] != AsleepOn(m))
  }

  ghost predicate MonitorsExcept(s: State, ex: int) {
    forall m :: m != ex ==> MonitorAt(s, m)
  }

  ghost predicate Monitors(s: State) {
    forall m :: MonitorAt(s, m)
  }

  /** How deep thread t is inside monitor m, whether it owns the monitor or has given it up to wait. */
  function Depth(s: State, m: int, t: int): nat {
    if t != NULL && MonitorOf(s, m).owner == t then MonitorOf(s, m).depth
    else if t in s.threads && m != NULL && s.threads[t].waitMonitor == m then s.threads[t].waitDepth
    else 0
  }

  lemma MovedMonitor(s: State, t: int, p: Place, data: Thread, m: int)
    requires Placed(s) && MonitorAt(s, m)
    requires p == BlockedOn(m) ==> MonitorOf(s, m).owner != NULL && MonitorOf(s, m).owner != t
    requires p == AsleepOn(m) ==> MonitorOf(s, m).owner != t
    ensures MonitorAt(Moved(s, t, p, data), m)
  {
    MovedLists(s, t, p, data);
    Member(s, t, BlockedOn(m));
    var q := BlockedOn(m);
    if List(s, q) == [] {
      assert LeftOver(s, t, q) == [];
    }
  }

  // ---------- semaphores ----------

  function CounterOf(s: State, x: int): int {
    if x in s.counters then s.counters[x] else 0
  }

  ghost predicate SemaphoreAt(s: State, x: int) {
    |List(s, Pending(x))| == if CounterOf(s, x) < 0 then -CounterOf(s, x) else 0
  }

  ghost predicate Semaphores(s: State) {
    forall x :: SemaphoreAt(s, x)
  }

  lemma MovedSemaphore(s: State, t: int, p: Place, data: Thread, x: int)
    requires Placed(s) && SemaphoreAt(s, x) && p != Pending(x) && (t in s.place ==> s.place[t] != Pending(x))
    ensures SemaphoreAt(Moved(s, t, p, data), x)
  {
    MovedLists(s, t, p, data);
  }

  // ---------- timers ----------

  function TimesOf(timers: seq<Timer>): (ks: seq<int>)
    ensures |ks| == |timers|
  {
    seq(|timers|, i requires 0 <= i < |timers| => timers[i].time)
  }

  /** The queue with one more timer: ordered by time, first in first out among equal times. */
  function WithTimer(timers: seq<Timer>, timer: Timer): seq<Timer> {
    Inserted(timers, SortedPosition(TimesOf(timers), timer.time, ByTime), timer)
  }

  function WithoutTimer(timers: seq<Timer>, t: int): seq<Timer> {
    if timers == [] then [] else if timers[0].thread == t then timers[1..] else [timers[0]] + WithoutTimer(timers[1..], t)
  }

  /** Thread t is asleep with a time-out. */
  predicate Timed(s: State, t: int) {
    t in s.place && t in s.threads &&
    (s.place[t].Sleeping? || (s.place[t].AsleepOn? && s.threads[t].status.AsleepTimedOutOnMonitor?))
  }

  ghost predicate TimerAt(s: State, i: nat)
    requires i < |s.timers|
  {
    var timer := s.timers[i];
    && Timed(s, timer.thread)
    && (timer.callback.ThreadSleepExpired? <==> s.place[timer.thread].Sleeping?)
  }

  ghost predicate HasTimer(timers: seq<Timer>, t: int) {
    exists i :: 0 <= i < |timers| && timers[i].thread == t
  }

  ghost predicate TimerOrder(timers: seq<Timer>) {
    forall i, j :: 0 <= i < j < |timers| ==> timers[i].time <= timers[j].time && timers[i].thread != timers[j].thread
  }

  /** The timer queue is in order of time and holds exactly the threads that sleep with a time-out. */
  ghost predicate Timers(s: State) {
    && TimerOrder(s.timers)
    && (forall i :: 0 <= i < |s.timers| ==> TimerAt(s, i))
    && (forall t :: Timed(s, t) ==> HasTimer(s.timers, t))
  }

  /** A timer goes behind exactly those that are due no later. */
  lemma TimerSlot(timers: seq<Timer>, time: int) returns (slot: nat)
    requires TimerOrder(timers)
    ensures slot == SortedPosition(TimesOf(timers), time, ByTime) <= |timers|
    ensures forall i :: 0 <= i < |timers| ==> (i < slot <==> timers[i].time <= time)
  {
    var ks := TimesOf(timers);
    slot := SortedPosition(ks, time, ByTime);
    SortedInsertion(ks, time, ByTime);
    forall i | 0 <= i < |timers| ensures i < slot <==> timers[i].time <= time {
      assert ks[i] == timers[i].time;
    }
  }

  lemma WithTimerMembers(timers: seq<Timer>, timer: Timer)
    requires TimerOrder(timers) && !HasTimer(timers, timer.thread)
    ensures TimerOrder(WithTimer(timers, timer))
    ensures forall t :: HasTimer(WithTimer(timers, timer), t) <==> HasTimer(timers, t) || t == timer.thread
  {
    var slot := TimerSlot(timers, timer.time);
    var after := WithTimer(timers, timer);
    forall i, j | 0 <= i < j < |after| ensures after[i].time <= after[j].time && after[i].thread != after[j].thread {
      assert after[i] == if i == slot then timer else timers[if i < slot then i else i - 1];
      assert after[j] == if j == slot then timer else timers[if j < slot then j else j - 1];
    }
    forall t ensures HasTimer(after, t) <==> HasTimer(timers, t) || t == timer.thread {
      TimerMember(timers, slot, timer, t);
    }
  }

  lemma TimerMember(timers: seq<Timer>, slot: nat, timer: Timer, t: int)
    requires slot <= |timers|
    ensures HasTimer(Inserted(timers, slot, timer), t) <==> HasTimer(timers, t) || t == timer.thread
  {
    var after := Inserted(timers, slot, timer);
    if HasTimer(timers, t) {
      var i :| 0 <= i < |timers| && timers[i].thread == t;
      assert after[if i < slot then i else i + 1].thread == t;
    }
    assert after[slot] == timer;
  }

  /** At most one timer, at place k, is taken off. */
  lemma {:induction false} WithoutTimerIs(timers: seq<Timer>, t: int) returns (k: nat)
    ensures k <= |timers| && forall i :: 0 <= i < k ==> timers[i].thread != t
    ensures k == |timers| ==> WithoutTimer(timers, t) == timers
    ensures k < |timers| ==> timers[k].thread == t && WithoutTimer(timers, t) == Removed(timers, k)
  {
    if timers == [] || timers[0].thread == t {
      k := 0;
    } else {
      var rest := timers[1..];
      k := WithoutTimerIs(rest, t);
      assert timers == [timers[0]] + rest;
      k := k + 1;
    }
  }

  lemma RemovedTimer(timers: seq<Timer>, k: nat)
    requires TimerOrder(timers) && k < |timers|
    ensures TimerOrder(Removed(timers, k))
    ensures forall x :: HasTimer(timers, x) && x != timers[k].thread ==> HasTimer(Removed(timers, k), x)
  {
    var after := Removed(timers, k);
    forall i, j | 0 <= i < j < |after| ensures after[i].time <= after[j].time && after[i].thread != after[j].thread {
      assert after[i] == timers[if i < k then i else i + 1] && after[j] == timers[if j < k then j else j + 1];
    }
    forall x | HasTimer(timers, x) && x != timers[k].thread ensures HasTimer(after, x) {
      var i :| 0 <= i < |timers| && timers[i].thread == x;
      assert after[if i < k then i else i - 1].thread == x;
    }
  }

  lemma WithoutTimerMembers(timers: seq<Timer>, t: int)
    requires TimerOrder(timers)
    ensures TimerOrder(WithoutTimer(timers, t))
    ensures forall i :: 0 <= i < |WithoutTimer(timers, t)| ==> WithoutTimer(timers, t)[i] in timers && WithoutTimer(timers, t)[i].thread != t
    ensures forall x :: HasTimer(timers, x) && x != t ==> HasTimer(WithoutTimer(timers, t), x)
  {
    var k := WithoutTimerIs(timers, t);
    var after := WithoutTimer(timers, t);
    if k < |timers| {
      RemovedTimer(timers, k);
      forall i | 0 <= i < |after| ensures after[i] in timers && after[i].thread != t {
        assert after[i] == timers[if i < k then i else i + 1];
      }
    }
  }

  /** Only thread t differs between s and s'. */
  ghost predicate OnlyThread(s: State, s': State, t: int) {
    && (forall x :: x != t ==> (x in s'.place <==> x in s.place) && (x in s.place ==> s'.place[x] == s.place[x]))
    && (forall x :: x != t ==> (x in s'.threads <==> x in s.threads) && (x in s.threads ==> s'.threads[x] == s.threads[x]))
  }

  /** A thread that neither was nor is asleep with a time-out. */
  lemma TimersKept(s: State, s': State, t: int)
    requires Timers(s) && OnlyThread(s, s', t) && s'.timers == s.timers && !Timed(s, t) && !Timed(s', t)
    ensures Timers(s')
  {
    forall i | 0 <= i < |s'.timers| ensures TimerAt(s', i) {
      assert TimerAt(s, i);
    }
    forall x | Timed(s', x) ensures HasTimer(s'.timers, x) {
      assert Timed(s, x);
    }
  }

  lemma HasTimerTimed(s: State, t: int)
    requires Timers(s) && HasTimer(s.timers, t)
    ensures Timed(s, t)
  {
    var i :| 0 <= i < |s.timers| && s.timers[i].thread == t;
    assert TimerAt(s, i);
  }

  /** A thread that falls asleep with a time-out. */
  lemma TimersAdded(s: State, s': State, timer: Timer)
    requires Timers(s) && OnlyThread(s, s', timer.thread) && s'.timers == WithTimer(s.timers, timer)
    requires !Timed(s, timer.thread) && Timed(s', timer.thread)
    requires timer.callback.ThreadSleepExpired? <==> s'.place[timer.thread].Sleeping?
    ensures Timers(s')
  {
    if HasTimer(s.timers, timer.thread) {
      HasTimerTimed(s, timer.thread);
    }
    WithTimerMembers(s.timers, timer);
    var slot := SortedPosition(TimesOf(s.timers), timer.time, ByTime);
    forall i | 0 <= i < |s'.timers| ensures TimerAt(s', i) {
      assert s'.timers[i] == if i == slot then timer else s.timers[if i < slot then i else i - 1];
      if i != slot {
        assert TimerAt(s, if i < slot then i else i - 1);
      }
    }
    forall x | Timed(s', x) ensures HasTimer(s'.timers, x) {
      if x != timer.thread {
        assert Timed(s, x);
      }
    }
  }

  /** A thread that is woken before or when its time-out expires. */
  lemma TimersRemoved(s: State, s': State, t: int)
    requires Timers(s) && OnlyThread(s, s', t) && s'.timers == WithoutTimer(s.timers, t) && !Timed(s', t)
    ensures Timers(s')
  {
    WithoutTimerMembers(s.timers, t);
    forall i | 0 <= i < |s'.timers| ensures TimerAt(s', i) {
      var j :| 0 <= j < |s.timers| && s.timers[j] == s'.timers[i];
      assert TimerAt(s, j);
    }
    forall x | Timed(s', x) ensures HasTimer(s'.timers, x) {
      assert x != t && Timed(s, x);
    }
  }

  // ---------- the highest priority thread ----------

  /** The highest priority up to p with a runnable thread, or 0. */
  function HighestUpTo(s: State, p: nat): (high: nat)
    ensures high <= p
    ensures List(s, Running(high)) != [] || high == 0
    ensures forall q: nat :: high < q <= p ==> List(s, Running(q)) == []
  {
    if p == 0 || List(s, Running(p)) != [] then p else HighestUpTo(s, p - 1)
  }

  /** The thread at the front of the highest non-empty running list. */
  function HighestThread(s: State): int {
    var l := List(s, Running(HighestUpTo(s, PRIORITIES - 1)));
    if l == [] then NULL else l[0]
  }

  ghost predicate IdleReady(s: State) {
    s.idle in s.place && s.place[s.idle].Running?
  }

  /** The current thread is at the front of the running list of its priority. */
  ghost predicate CurrentInFront(s: State) {
    && s.current in s.place && s.current in s.threads
    && s.place[s.current] == Running(s.threads[s.current].priority)
    && List(s, s.place[s.current]) != [] && List(s, s.place[s.current])[0] == s.current
  }

  /** Everything that holds whatever thread is current. */
  ghost predicate Consistent(s: State) {
    Placed(s) && Statuses(s) && Monitors(s) && Semaphores(s) && Timers(s) && IdleReady(s)
  }

  ghost predicate Inv(s: State) {
    Consistent(s) && CurrentInFront(s)
  }

  lemma HighestKnown(s: State)
    requires Placed(s) && Statuses(s) && IdleReady(s)
    ensures var t := HighestThread(s);
            && t in s.place && t in s.threads && t != NULL
            && s.place[t] == Running(HighestUpTo(s, PRIORITIES - 1)) == Running(s.threads[t].priority)
            && List(s, s.place[t]) != [] && List(s, s.place[t])[0] == t
  {
    var high := HighestUpTo(s, PRIORITIES - 1);
    var l := List(s, Running(high));
    assert ThreadAt(s, s.idle) && SitsAt(s, s.idle);
    assert l != [];
    Member(s, l[0], Running(high));
    assert l[0] in l && ThreadAt(s, l[0]);
  }
}
