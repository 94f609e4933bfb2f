/** The critical-region functions of the scheduler (lib/src/thread/schedule.c, schedule.h,
    contextSwitch.h, timer.c) as functions from state to state. */
module SchedulerOps {
  import opened Basics
  import opened LinkedLists
  import opened SchedulerState

  // ---------- context switches ----------

  function Rotated(s: State, p: Place): State {
    if List(s, p) == [] then s else s.(lists := s.lists[p := List(s, p)[1..] + [List(s, p)[0]]])
  }

  /** generatedContextSwitch: the current thread has left the running lists. */
  function Generated(s: State): State {
    s.(current := HighestThread(s))
  }

  /** conditionalContextSwitch: another thread may have become the highest. */
  function Conditional(s: State): State {
    var high := HighestThread(s);
    if high == s.current || s.current !in s.threads then s
    else Rotated(s, Running(s.threads[s.current].priority)).(current := high)
  }

  /** After the operation, the thread that runs is the one at the front of the highest non-empty list. */
  ghost predicate RunsHighest(s: State) {
    Inv(s) && s.current == HighestThread(s)
  }

  lemma GeneratedRuns(s: State)
    requires Consistent(s)
    ensures RunsHighest(Generated(s))
  {
    HighestKnown(s);
    SameState(s, Generated(s));
  }

  /** Nothing but the current thread differs. */
  lemma SameState(s: State, s': State)
    requires Consistent(s) && s' == s.(current := s'.current)
    ensures Consistent(s')
    ensures HighestUpTo(s', PRIORITIES - 1) == HighestUpTo(s, PRIORITIES - 1)
    ensures HighestThread(s') == HighestThread(s)
  {
    forall p | p in s'.lists ensures ListOk(s', p) { assert ListOk(s, p); }
    forall t | t in s'.place ensures SitsAt(s', t) { assert SitsAt(s, t); }
    forall t | t in s'.threads ensures ThreadAt(s', t) { assert ThreadAt(s, t); }
    forall m ensures MonitorAt(s', m) { assert MonitorAt(s, m); }
    forall x ensures SemaphoreAt(s', x) { assert SemaphoreAt(s, x); }
    forall i | 0 <= i < |s'.timers| ensures TimerAt(s', i) { assert TimerAt(s, i); }
    forall t | Timed(s', t) ensures HasTimer(s'.timers, t) { assert Timed(s, t); }
    SameHighest(s, s', PRIORITIES - 1);
  }

  lemma {:induction false} SameHighest(s: State, s': State, p: nat)
    requires forall q: nat :: q <= p ==> (List(s', Running(q)) == [] <==> List(s, Running(q)) == [])
    ensures HighestUpTo(s', p) == HighestUpTo(s, p)
  {
    if p > 0 && List(s, Running(p)) == [] {
      SameHighest(s, s', p - 1);
    }
  }

  lemma RotatedPlaced(s: State, priority: nat)
    requires Placed(s) && Statuses(s)
    ensures Placed(Rotated(s, Running(priority))) && Statuses(Rotated(s, Running(priority)))
  {
    var s', l := Rotated(s, Running(priority)), List(s, Running(priority));
    if l != [] {
      RotatedMembers(l);
      forall q | q in s'.lists ensures ListOk(s', q) { assert ListOk(s, q); }
      forall t | t in s'.place ensures SitsAt(s', t) { assert SitsAt(s, t); }
      forall t | t in s'.threads ensures ThreadAt(s', t) { assert ThreadAt(s, t); }
    }
  }

  lemma RotatedRest(s: State, priority: nat)
    requires Monitors(s) && Semaphores(s) && Timers(s)
    ensures var s' := Rotated(s, Running(priority)); Monitors(s') && Semaphores(s') && Timers(s')
    ensures forall q :: q != Running(priority) ==> List(Rotated(s, Running(priority)), q) == List(s, q)
  {
    var s' := Rotated(s, Running(priority));
    forall m ensures MonitorAt(s', m) { assert MonitorAt(s, m); }
    forall x ensures SemaphoreAt(s', x) { assert SemaphoreAt(s, x); }
    forall i | 0 <= i < |s'.timers| ensures TimerAt(s', i) { assert TimerAt(s, i); }
    forall t | Timed(s', t) ensures HasTimer(s'.timers, t) { assert Timed(s, t); }
  }

  /** A running list turns: everybody stays on the list. */
  lemma RotatedConsistent(s: State, priority: nat)
    requires Consistent(s)
    ensures Consistent(Rotated(s, Running(priority)))
    ensures HighestUpTo(Rotated(s, Running(priority)), PRIORITIES - 1) == HighestUpTo(s, PRIORITIES - 1)
    ensures forall q :: q != Running(priority) ==> List(Rotated(s, Running(priority)), q) == List(s, q)
  {
    RotatedPlaced(s, priority);
    RotatedRest(s, priority);
    SameHighest(s, Rotated(s, Running(priority)), PRIORITIES - 1);
  }

  lemma RotatedMembers(l: seq<int>)
    requires l != []
    ensures forall t :: t in l[1..] + [l[0]] <==> t in l
    ensures Distinct(l) ==> Distinct(l[1..] + [l[0]])
  {
    assert l == [l[0]] + l[1..];
  }

  lemma ConditionalRuns(s: State)
    requires Inv(s)
    ensures RunsHighest(Conditional(s))
  {
    var high := HighestThread(s);
    HighestKnown(s);
    if high != s.current {
      var priority := s.threads[s.current].priority;
      var s' := Rotated(s, Running(priority));
      RotatedConsistent(s, priority);
      HighestKnown(s');
      assert s.place[high] != Running(priority);
      SameState(s', Conditional(s));
    }
  }

  // ---------- moves ----------

  /** All parts of Consistent but the timers and one monitor. */
  ghost predicate ConsistentBut(s: State, ex: int) {
    Placed(s) && Statuses(s) && MonitorsExcept(s, ex) && Semaphores(s) && IdleReady(s)
  }

  /** A thread may go to the blocked list of a monitor only if another thread owns it, and its owner may
      not fall asleep on it. */
  ghost predicate MayMove(s: State, t: int, p: Place, data: Thread, ex: int) {
    && t in s.threads && StatusOk(data, p) && !p.Pending? && (t in s.place ==> !s.place[t].Pending?)
    && (p.BlockedOn? && p.monitor != ex ==> MonitorOf(s, p.monitor).owner != NULL && MonitorOf(s, p.monitor).owner != t)
    && (p.AsleepOn? && p.monitor != ex ==> MonitorOf(s, p.monitor).owner != t)
    && (t == s.idle ==> p.Running?)
  }

  lemma MovedMost(s: State, t: int, p: Place, data: Thread, ex: int)
    requires ConsistentBut(s, ex) && MayMove(s, t, p, data, ex)
    ensures ConsistentBut(Moved(s, t, p, data), ex)
    ensures OnlyThread(s, Moved(s, t, p, data), t)
    ensures Moved(s, t, p, data).place == s.place[t := p]
  {
    MovedPlaced(s, t, p, data);
    forall m | m != ex ensures MonitorAt(Moved(s, t, p, data), m) {
      assert MonitorAt(s, m);
      MovedMonitor(s, t, p, data, m);
    }
    forall x ensures SemaphoreAt(Moved(s, t, p, data), x) {
      assert SemaphoreAt(s, x);
      MovedSemaphore(s, t, p, data, x);
    }
  }

  /** A move of a thread that neither was nor will be asleep with a time-out. */
  lemma MovedConsistent(s: State, t: int, p: Place, data: Thread)
    requires Consistent(s) && MayMove(s, t, p, data, NULL) && MonitorAt(s, NULL)
    requires p != BlockedOn(NULL) && p != AsleepOn(NULL)
    requires !Timed(s, t) && !p.Sleeping? && !(p.AsleepOn? && data.status.AsleepTimedOutOnMonitor?)
    ensures Consistent(Moved(s, t, p, data))
  {
    MovedMost(s, t, p, data, NULL);
    MovedMonitor(s, t, p, data, NULL);
    TimersKept(s, Moved(s, t, p, data), t);
  }

  lemma MovedFront(s: State, t: int, p: Place, data: Thread)
    requires Placed(s) && CurrentInFront(s) && t != s.current
    ensures CurrentInFront(Moved(s, t, p, data))
  {
    MovedLists(s, t, p, data);
    var q := s.place[s.current];
    Member(s, t, q);
    WithoutMembers(List(s, q), t);
  }

  /** The thread becomes runnable again, as the last of its priority. */
  function Woken(s: State, t: int): State {
    Moved(s, t, Running(ThreadOf(s, t).priority), ThreadOf(s, t).(status := StatusRunning))
  }

  // ---------- monitors ----------

  /** releaseBlockedThread: the first blocked thread becomes the owner, at the depth it waited at. */
  function Released(s: State, m: int): State {
    var l := List(s, BlockedOn(m));
    if l == [] then s.(monitors := s.monitors[m := MonitorOf(s, m).(owner := NULL)])
    else
      var t, d := l[0], ThreadOf(s, l[0]);
      Moved(s.(monitors := s.monitors[m := Monitor(t, if d.waitMonitor != NULL then d.waitDepth else 1)]),
            t, Running(d.priority), d.(waitMonitor := NULL, status := StatusRunning))
  }

  /** Only the entry of monitor m differs. */
  lemma OnlyMonitor(s: State, s': State, m: int)
    requires ConsistentBut(s, m) && s' == s.(monitors := s'.monitors)
    requires forall n :: n != m ==> MonitorOf(s', n) == MonitorOf(s, n)
    ensures ConsistentBut(s', m) && (Timers(s) ==> Timers(s')) && (CurrentInFront(s) ==> CurrentInFront(s'))
    ensures MonitorAt(s', m) ==> Monitors(s')
  {
    forall p | p in s'.lists ensures ListOk(s', p) { assert ListOk(s, p); }
    forall t | t in s'.place ensures SitsAt(s', t) { assert SitsAt(s, t); }
    forall t | t in s'.threads ensures ThreadAt(s', t) { assert ThreadAt(s, t); }
    forall n | n != m ensures MonitorAt(s', n) { assert MonitorAt(s, n); }
    forall x ensures SemaphoreAt(s', x) { assert SemaphoreAt(s, x); }
    if Timers(s) {
      forall i | 0 <= i < |s'.timers| ensures TimerAt(s', i) { assert TimerAt(s, i); }
      forall t | Timed(s', t) ensures HasTimer(s'.timers, t) { assert Timed(s, t); }
    }
  }

  /** The first blocked thread, if there is one, gets the monitor whatever state that was in. */
  lemma GrantedConsistent(s: State, m: int)
    requires ConsistentBut(s, m) && Timers(s) && m != NULL && List(s, BlockedOn(m)) != []
    ensures Consistent(Released(s, m))
    ensures CurrentInFront(s) ==> CurrentInFront(Released(s, m))
  {
    var t := List(s, BlockedOn(m))[0];
    Member(s, t, BlockedOn(m));
    assert t in List(s, BlockedOn(m)) && ThreadAt(s, t);
    var d := ThreadOf(s, t);
    var given := s.(monitors := s.monitors[m := Monitor(t, if d.waitMonitor != NULL then d.waitDepth else 1)]);
    OnlyMonitor(s, given, m);
    GrantedMoved(given, m, t, d.(waitMonitor := NULL, status := StatusRunning));
  }

  lemma GrantedMoved(s: State, m: int, t: int, data: Thread)
    requires ConsistentBut(s, m) && Timers(s) && MonitorOf(s, m).owner == t != NULL && MonitorOf(s, m).depth > 0
    requires t in s.threads && t in s.place && s.place[t] == BlockedOn(m) && StatusOk(data, Running(data.priority))
    ensures Consistent(Moved(s, t, Running(data.priority), data))
    ensures CurrentInFront(s) ==> CurrentInFront(Moved(s, t, Running(data.priority), data))
  {
    var s' := Moved(s, t, Running(data.priority), data);
    MovedMost(s, t, Running(data.priority), data, m);
    TimersKept(s, s', t);
    assert MonitorAt(s', m);
    if CurrentInFront(s) {
      MovedFront(s, t, Running(data.priority), data);
    }
  }

  /** Whatever the state of monitor m was, releasing it leaves it consistent. */
  lemma ReleasedConsistent(s: State, m: int)
    requires ConsistentBut(s, m) && Timers(s) && m != NULL
    ensures Consistent(Released(s, m))
    ensures CurrentInFront(s) ==> CurrentInFront(Released(s, m))
  {
    if List(s, BlockedOn(m)) == [] {
      OnlyMonitor(s, Released(s, m), m);
      assert MonitorAt(Released(s, m), m);
    } else {
      GrantedConsistent(s, m);
    }
  }

  function BlockedAsCurrent(s: State, m: int): State {
    Moved(s, s.current, BlockedOn(m), ThreadOf(s, s.current).(status := BlockedOnMonitor))
  }

  /** monitorEnter by the current thread. */
  function MonitorEnter(s: State, m: int): State {
    var monitor := MonitorOf(s, m);
    if monitor.owner == NULL then s.(monitors := s.monitors[m := Monitor(s.current, 1)])
    else if monitor.owner == s.current then s.(monitors := s.monitors[m := monitor.(depth := monitor.depth + 1)])
    else Generated(BlockedAsCurrent(s, m))
  }

  /** monitorExit by the current thread, which owns the monitor. */
  function MonitorExit(s: State, m: int): State {
    var monitor := MonitorOf(s, m);
    var left := s.(monitors := s.monitors[m := monitor.(depth := if monitor.depth > 0 then monitor.depth - 1 else 0)]);
    if monitor.depth > 1 then left
    else if List(s, BlockedOn(m)) != [] then Conditional(Released(left, m))
    else left.(monitors := left.monitors[m := MonitorOf(left, m).(owner := NULL)])
  }

  /** The current thread falls asleep on the monitor, remembering how deep it was inside. */
  function FallsAsleep(s: State, m: int, timed: bool, deadline: int): State {
    var t, d := s.current, ThreadOf(s, s.current);
    var asleep := Moved(s, t, AsleepOn(m), d.(waitMonitor := m, waitDepth := MonitorOf(s, m).depth,
                        status := if timed then AsleepTimedOutOnMonitor else AsleepOnMonitor));
    if timed then asleep.(timers := WithTimer(s.timers, Timer(t, MonitorWaitExpired, deadline))) else asleep
  }

  /** monitorWait by the current thread, which owns the monitor. */
  function MonitorWait(s: State, m: int, timed: bool, deadline: int): State {
    Generated(Released(FallsAsleep(s, m, timed, deadline), m))
  }

  /** A sleeper on the monitor moves to its blocked list, and its timer, if any, is taken off the queue.
      Its status is not updated. */
  function Notified(s: State, m: int, t: int): State {
    Moved(s, t, BlockedOn(m), ThreadOf(s, t)).(timers :=
      if ThreadOf(s, t).status.AsleepTimedOutOnMonitor? then WithoutTimer(s.timers, t) else s.timers)
  }

  function MonitorNotify(s: State, m: int): State {
    var l := List(s, AsleepOn(m));
    if l == [] then s else Conditional(Notified(s, m, l[0]))
  }

  function AllNotified(s: State, m: int, l: seq<int>): State
    decreases |l|
  {
    if l == [] then s else AllNotified(Notified(s, m, l[0]), m, l[1..])
  }

  function MonitorNotifyAll(s: State, m: int): State {
    var l := List(s, AsleepOn(m));
    if l == [] then s else Conditional(AllNotified(s, m, l))
  }

  lemma MonitorEnterInv(s: State, m: int)
    requires Inv(s) && m != NULL && (s.current == s.idle ==> MonitorOf(s, m).owner == NULL || MonitorOf(s, m).owner == s.current)
    ensures Inv(MonitorEnter(s, m))
    ensures MonitorOf(s, m).owner != NULL && MonitorOf(s, m).owner != s.current ==> RunsHighest(MonitorEnter(s, m))
  {
    assert ThreadAt(s, s.current) && MonitorAt(s, m) && MonitorAt(s, NULL);
    var monitor := MonitorOf(s, m);
    if monitor.owner == NULL || monitor.owner == s.current {
      var s' := MonitorEnter(s, m);
      OnlyMonitor(s, s', m);
      assert MonitorAt(s', m);
    } else {
      MovedConsistent(s, s.current, BlockedOn(m), ThreadOf(s, s.current).(status := BlockedOnMonitor));
      GeneratedRuns(BlockedAsCurrent(s, m));
    }
  }

  lemma MonitorExitInv(s: State, m: int)
    requires Inv(s) && m != NULL && MonitorOf(s, m).owner == s.current
    ensures Inv(MonitorExit(s, m))
    ensures MonitorOf(s, m).depth == 1 && List(s, BlockedOn(m)) != [] ==> RunsHighest(MonitorExit(s, m))
  {
    assert ThreadAt(s, s.current) && MonitorAt(s, m);
    var monitor := MonitorOf(s, m);
    var left := s.(monitors := s.monitors[m := monitor.(depth := monitor.depth - 1)]);
    OnlyMonitor(s, left, m);
    if monitor.depth > 1 {
      assert MonitorAt(left, m);
    } else {
      ReleasedConsistent(left, m);
      if List(s, BlockedOn(m)) != [] {
        ConditionalRuns(Released(left, m));
      }
    }
  }

  lemma FallsAsleepConsistent(s: State, m: int, timed: bool, deadline: int)
    requires Inv(s) && m != NULL && MonitorOf(s, m).owner == s.current && s.current != s.idle
    ensures ConsistentBut(FallsAsleep(s, m, timed, deadline), m) && Timers(FallsAsleep(s, m, timed, deadline))
  {
    var t, d := s.current, ThreadOf(s, s.current);
    assert ThreadAt(s, t) && MonitorAt(s, m);
    var data := d.(waitMonitor := m, waitDepth := MonitorOf(s, m).depth,
                   status := if timed then AsleepTimedOutOnMonitor else AsleepOnMonitor);
    var asleep, s' := Moved(s, t, AsleepOn(m), data), FallsAsleep(s, m, timed, deadline);
    MovedMost(s, t, AsleepOn(m), data, m);
    if timed {
      OtherTimers(asleep, s', m);
      TimersAdded(s, s', Timer(t, MonitorWaitExpired, deadline));
    } else {
      TimersKept(s, s', t);
    }
  }

  /** Only the timer queue differs. */
  lemma OtherTimers(s: State, s': State, ex: int)
    requires ConsistentBut(s, ex) && s' == s.(timers := s'.timers)
    ensures ConsistentBut(s', ex) && (CurrentInFront(s) ==> CurrentInFront(s'))
    ensures MonitorAt(s, ex) ==> MonitorAt(s', ex)
  {
    forall p | p in s'.lists ensures ListOk(s', p) { assert ListOk(s, p); }
    forall t | t in s'.place ensures SitsAt(s', t) { assert SitsAt(s, t); }
    forall t | t in s'.threads ensures ThreadAt(s', t) { assert ThreadAt(s, t); }
    forall n | n != ex ensures MonitorAt(s', n) { assert MonitorAt(s, n); }
    forall x ensures SemaphoreAt(s', x) { assert SemaphoreAt(s, x); }
  }

  lemma MonitorWaitInv(s: State, m: int, timed: bool, deadline: int)
    requires Inv(s) && m != NULL && MonitorOf(s, m).owner == s.current && s.current != s.idle
    ensures RunsHighest(MonitorWait(s, m, timed, deadline))
  {
    FallsAsleepConsistent(s, m, timed, deadline);
    ReleasedConsistent(FallsAsleep(s, m, timed, deadline), m);
    GeneratedRuns(Released(FallsAsleep(s, m, timed, deadline), m));
  }

  lemma NotifiedLists(s: State, m: int, t: int)
    requires Placed(s) && t in List(s, AsleepOn(m))
    ensures List(Notified(s, m, t), AsleepOn(m)) == Without(List(s, AsleepOn(m)), t)
    ensures List(Notified(s, m, t), BlockedOn(m)) == List(s, BlockedOn(m)) + [t]
  {
    Member(s, t, AsleepOn(m));
    MovedLists(s, t, BlockedOn(m), ThreadOf(s, t));
  }

  lemma NotifiedConsistent(s: State, m: int, t: int)
    requires Consistent(s) && m != NULL && MonitorOf(s, m).owner != NULL && t in List(s, AsleepOn(m))
    ensures Consistent(Notified(s, m, t))
  {
    Member(s, t, AsleepOn(m));
    assert ThreadAt(s, t) && MonitorAt(s, m);
    var d := ThreadOf(s, t);
    var moved, s' := Moved(s, t, BlockedOn(m), d), Notified(s, m, t);
    MovedMost(s, t, BlockedOn(m), d, m);
    MovedMonitor(s, t, BlockedOn(m), d, m);
    OtherTimers(moved, s', m);
    if d.status.AsleepTimedOutOnMonitor? {
      TimersRemoved(s, s', t);
    } else {
      TimersKept(s, s', t);
    }
  }

  lemma NotifiedInv(s: State, m: int, t: int)
    requires Inv(s) && m != NULL && MonitorOf(s, m).owner != NULL && t in List(s, AsleepOn(m))
    ensures Inv(Notified(s, m, t))
    ensures Notified(s, m, t).current == s.current && Notified(s, m, t).monitors == s.monitors
  {
    NotifiedConsistent(s, m, t);
    Member(s, t, AsleepOn(m));
    MovedFront(s, t, BlockedOn(m), ThreadOf(s, t));
  }

  lemma MonitorNotifyInv(s: State, m: int)
    requires Inv(s) && m != NULL && MonitorOf(s, m).owner != NULL
    ensures Inv(MonitorNotify(s, m))
    ensures List(s, AsleepOn(m)) != [] ==> RunsHighest(MonitorNotify(s, m))
  {
    var l := List(s, AsleepOn(m));
    if l != [] {
      assert l[0] in l;
      NotifiedInv(s, m, l[0]);
      ConditionalRuns(Notified(s, m, l[0]));
    }
  }

  lemma {:induction false} AllNotifiedInv(s: State, m: int, l: seq<int>)
    requires Inv(s) && m != NULL && MonitorOf(s, m).owner != NULL && l == List(s, AsleepOn(m))
    ensures Inv(AllNotified(s, m, l))
    ensures AllNotified(s, m, l).current == s.current
    decreases |l|
  {
    if l != [] {
      FirstNotified(s, m, l);
      AllNotifiedInv(Notified(s, m, l[0]), m, l[1..]);
    }
  }

  lemma FirstNotified(s: State, m: int, l: seq<int>)
    requires Inv(s) && m != NULL && MonitorOf(s, m).owner != NULL && l == List(s, AsleepOn(m)) && l != []
    ensures var s' := Notified(s, m, l[0]);
            && Inv(s') && s'.current == s.current && MonitorOf(s', m) == MonitorOf(s, m)
            && List(s', AsleepOn(m)) == l[1..] && List(s', BlockedOn(m)) == List(s, BlockedOn(m)) + [l[0]]
  {
    assert l[0] in l;
    NotifiedInv(s, m, l[0]);
    NotifiedLists(s, m, l[0]);
  }

  /** Notifying the sleepers one by one in order moves the whole list to the end of the blocked list. */
  lemma {:induction false} AllNotifiedLists(s: State, m: int, l: seq<int>)
    requires Inv(s) && m != NULL && MonitorOf(s, m).owner != NULL && l == List(s, AsleepOn(m))
    ensures List(AllNotified(s, m, l), AsleepOn(m)) == []
    ensures List(AllNotified(s, m, l), BlockedOn(m)) == List(s, BlockedOn(m)) + l
    decreases |l|
  {
    if l != [] {
      var rest, s1 := l[1..], Notified(s, m, l[0]);
      FirstNotified(s, m, l);
      AllNotifiedLists(s1, m, rest);
      AppendCons(List(s, BlockedOn(m)), l);
      assert AllNotified(s, m, l) == AllNotified(s1, m, rest);
    }
  }

  lemma AppendCons(a: seq<int>, l: seq<int>)
    requires l != []
    ensures a + [l[0]] + l[1..] == a + l
  {
  }

  lemma MonitorNotifyAllInv(s: State, m: int)
    requires Inv(s) && m != NULL && MonitorOf(s, m).owner != NULL
    ensures Inv(MonitorNotifyAll(s, m))
    ensures List(s, AsleepOn(m)) != [] ==> RunsHighest(MonitorNotifyAll(s, m))
  {
    var l := List(s, AsleepOn(m));
    if l != [] {
      AllNotifiedInv(s, m, l);
      ConditionalRuns(AllNotified(s, m, l));
    }
  }
}
