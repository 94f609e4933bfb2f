/** Yielding, priorities, the life of a thread and semaphores (lib/src/thread/schedule.c). */
module ThreadOps {
  import opened Basics
  import opened LinkedLists
  import opened SchedulerState
  import opened SchedulerOps

  // ---------- yields ----------

  function StrongYield(s: State): State {
    var p := Running(ThreadOf(s, s.current).priority);
    var turned := Rotated(s, p);
    if List(turned, p) != [] && List(turned, p)[0] != s.current then Generated(turned) else turned
  }

  lemma StrongYieldInv(s: State)
    requires Inv(s)
    ensures Inv(StrongYield(s))
  {
    var priority := ThreadOf(s, s.current).priority;
    var l := List(s, Running(priority));
    RotatedConsistent(s, priority);
    GeneratedRuns(Rotated(s, Running(priority)));
    if |l| == 1 {
      assert l[1..] + [l[0]] == l;
    } else {
      AloneOrNot(s, l);
    }
  }

  lemma AloneOrNot(s: State, l: seq<int>)
    requires Inv(s) && l == List(s, Running(ThreadOf(s, s.current).priority)) && |l| > 1
    ensures l[1] != l[0] == s.current
  {
    Member(s, s.current, Running(ThreadOf(s, s.current).priority));
  }

  /** A thread that is alone at its priority does not yield, even to threads of higher priority. */
  lemma StrongYieldRuns(s: State)
    requires Inv(s)
    ensures RunsHighest(StrongYield(s)) <==> |List(s, Running(ThreadOf(s, s.current).priority))| > 1 || s.current == HighestThread(s)
  {
    var priority := ThreadOf(s, s.current).priority;
    var l := List(s, Running(priority));
    if |l| > 1 {
      AloneOrNot(s, l);
      RotatedConsistent(s, priority);
      GeneratedRuns(Rotated(s, Running(priority)));
    } else {
      AloneStays(s, l);
    }
  }

  lemma AloneStays(s: State, l: seq<int>)
    requires Inv(s) && l == List(s, Running(ThreadOf(s, s.current).priority)) && |l| == 1
    ensures Inv(StrongYield(s)) && StrongYield(s).current == s.current && HighestThread(StrongYield(s)) == HighestThread(s)
  {
    StrongYieldInv(s);
    assert l[1..] + [l[0]] == l;
    assert forall p :: List(StrongYield(s), p) == List(s, p);
    SameHighest(s, StrongYield(s), PRIORITIES - 1);
  }

  // ---------- priorities ----------

  predicate IsRunning(s: State, t: int) {
    ThreadOf(s, t).state.Active? && ThreadOf(s, t).status.StatusRunning?
  }

  /** A running thread goes to the end of the list of its new priority. */
  function Reprioritized(s: State, t: int, priority: nat): State {
    if IsRunning(s, t) then Moved(s, t, Running(priority), ThreadOf(s, t).(priority := priority))
    else s.(threads := s.threads[t := ThreadOf(s, t).(priority := priority)])
  }

  function SetPriority(s: State, t: int, priority: nat): State {
    if IsRunning(s, t) then Conditional(Reprioritized(s, t, priority)) else Reprioritized(s, t, priority)
  }

  lemma ReprioritizedConsistent(s: State, t: int, priority: nat)
    requires Inv(s) && t in s.threads && priority < PRIORITIES
    ensures Consistent(Reprioritized(s, t, priority))
    ensures t != s.current ==> CurrentInFront(Reprioritized(s, t, priority))
    ensures IsRunning(s, t) <==> t in s.place && s.place[t].Running?
  {
    assert ThreadAt(s, t) && MonitorAt(s, NULL) && ThreadAt(s, s.current);
    var data := ThreadOf(s, t).(priority := priority);
    if IsRunning(s, t) {
      MovedConsistent(s, t, Running(priority), data);
      if t != s.current {
        MovedFront(s, t, Running(priority), data);
      }
    } else {
      NewPriority(s, Reprioritized(s, t, priority), t, data);
    }
  }

  /** A thread that does not run has another priority; nothing else changes. */
  lemma NewPriority(s: State, s': State, t: int, data: Thread)
    requires Inv(s) && t in s.threads && data == s.threads[t].(priority := data.priority) && data.priority < PRIORITIES
    requires !(t in s.place && s.place[t].Running?) && s' == s.(threads := s.threads[t := data])
    ensures Inv(s')
  {
    forall p | p in s'.lists ensures ListOk(s', p) { assert ListOk(s, p); }
    forall x | x in s'.place ensures SitsAt(s', x) { assert SitsAt(s, x); }
    forall x | x in s'.threads ensures ThreadAt(s', x) { assert ThreadAt(s, x); }
    forall m ensures MonitorAt(s', m) { assert MonitorAt(s, m); }
    forall x ensures SemaphoreAt(s', x) { assert SemaphoreAt(s, x); }
    forall i | 0 <= i < |s'.timers| ensures TimerAt(s', i) { assert TimerAt(s, i); }
    forall x | Timed(s', x) ensures HasTimer(s'.timers, x) { assert Timed(s, x); }
  }

  /** For any thread but the current one. */
  lemma SetPriorityInv(s: State, t: int, priority: nat)
    requires Inv(s) && t in s.threads && priority < PRIORITIES && t != s.current
    ensures Inv(SetPriority(s, t, priority))
    ensures IsRunning(s, t) ==> RunsHighest(SetPriority(s, t, priority))
  {
    ReprioritizedConsistent(s, t, priority);
    if IsRunning(s, t) {
      ConditionalRuns(Reprioritized(s, t, priority));
    }
  }

  /** The other threads that are runnable at priority p. */
  function Others(s: State, p: nat): seq<int> {
    Without(List(s, Running(p)), s.current)
  }

  /** The current thread ends the list of its new priority. */
  lemma OwnReprioritized(s: State, priority: nat)
    requires Inv(s) && priority < PRIORITIES
    ensures var s1, t := Reprioritized(s, s.current, priority), s.current;
            && Consistent(s1) && s1.current == t && t in s1.threads && s1.threads[t].priority == priority
            && List(s1, Running(priority)) == Others(s, priority) + [t] && t !in Others(s, priority)
  {
    var t, data, p := s.current, ThreadOf(s, s.current).(priority := priority), Running(priority);
    assert ThreadAt(s, t);
    ReprioritizedConsistent(s, t, priority);
    MovedLists(s, t, p, data);
    Member(s, t, p);
    WithoutMembers(List(s, p), t);
    WithoutAbsent(List(s, p), t);
  }

  /** If the current thread ends its list, a conditional switch leaves the new current thread in front
      unless it is on that same list, which the switch has rotated. */
  lemma SwitchFromTheEnd(s: State, priority: nat, l: seq<int>)
    requires Consistent(s) && priority < PRIORITIES && s.current in s.threads && s.threads[s.current].priority == priority
    requires List(s, Running(priority)) == l + [s.current] && s.current !in l
    ensures Consistent(Conditional(s))
    ensures CurrentInFront(Conditional(s)) <==> l == [] || HighestUpTo(s, PRIORITIES - 1) > priority
  {
    var p, high := Running(priority), HighestThread(s);
    var s2 := Rotated(s, p);
    HighestKnown(s);
    RotatedConsistent(s, priority);
    SameState(s2, s2.(current := high));
    if HighestUpTo(s, PRIORITIES - 1) > priority {
      HighestKnown(s2);
    } else if l != [] {
      NotInFront(s, priority, l);
    }
  }

  lemma NotInFront(s: State, priority: nat, l: seq<int>)
    requires Placed(s) && s.current in s.threads && s.threads[s.current].priority == priority
    requires List(s, Running(priority)) == l + [s.current] && s.current !in l && l != []
    requires HighestThread(s) == l[0] && l[0] in s.place && s.place[l[0]] == Running(priority)
    ensures !CurrentInFront(Conditional(s))
  {
    assert l[0] in l;
    assert List(Conditional(s), Running(priority)) == l[1..] + [s.current] + [l[0]];
    DistinctFront(s, l, s.current, Running(priority));
  }

  lemma DistinctFront(s: State, l: seq<int>, t: int, p: Place)
    requires Placed(s) && List(s, p) == l + [t] && l != []
    ensures (l[1..] + [t] + [l[0]])[0] != l[0]
  {
    Member(s, t, p);
    assert (l + [t])[1] == (l[1..] + [t])[0] && (l + [t])[0] == l[0];
  }

  /** For the current thread, the new current thread is at the front of its list if and only if the list
      it moved to was empty, or a list of higher priority is not. Otherwise the list is rotated once more
      and the thread that is switched to ends up last. */
  lemma SetOwnPriorityInv(s: State, priority: nat)
    requires Inv(s) && priority < PRIORITIES
    ensures Inv(SetPriority(s, s.current, priority)) <==>
              Others(s, priority) == [] || HighestUpTo(Reprioritized(s, s.current, priority), PRIORITIES - 1) > priority
    ensures Consistent(SetPriority(s, s.current, priority))
  {
    OwnReprioritized(s, priority);
    ReprioritizedConsistent(s, s.current, priority);
    SwitchFromTheEnd(Reprioritized(s, s.current, priority), priority, Others(s, priority));
  }

  // ---------- the life of a thread ----------

  /** scheduleNewThread: the thread becomes active, unless it has to queue for the monitor it starts in. */
  function ScheduleNewThread(s: State, t: int, m: int): State {
    var d := ThreadOf(s, t).(state := Active);
    if m == NULL then Moved(s, t, Running(d.priority), d.(status := StatusRunning))
    else if MonitorOf(s, m).owner == NULL then
      Moved(s.(monitors := s.monitors[m := Monitor(t, 1)]), t, Running(d.priority), d.(status := StatusRunning))
    else Moved(s, t, BlockedOn(m), d.(status := BlockedOnMonitor))
  }

  /** The monitor is free: the new thread owns it from the start. */
  lemma StartsInside(s: State, t: int, m: int, d: Thread)
    requires Inv(s) && t in s.threads && t !in s.place && t != NULL && m != NULL && MonitorOf(s, m).owner == NULL
    requires StatusOk(d, Running(d.priority))
    ensures Inv(Moved(s.(monitors := s.monitors[m := Monitor(t, 1)]), t, Running(d.priority), d))
  {
    var given, p := s.(monitors := s.monitors[m := Monitor(t, 1)]), Running(d.priority);
    OnlyMonitor(s, given, m);
    MovedMost(given, t, p, d, m);
    assert MonitorAt(Moved(given, t, p, d), m);
    WokenTimers(given, t, d);
    MovedFront(given, t, p, d);
  }

  lemma ScheduleNewThreadInv(s: State, t: int, m: int)
    requires Inv(s) && t in s.threads && s.threads[t].state.NotStarted? && s.threads[t].priority < PRIORITIES
    ensures Inv(ScheduleNewThread(s, t, m)) && ScheduleNewThread(s, t, m).current == s.current
  {
    assert ThreadAt(s, t) && MonitorAt(s, m) && MonitorAt(s, NULL);
    var d := ThreadOf(s, t).(state := Active);
    if m == NULL {
      MovedConsistent(s, t, Running(d.priority), d.(status := StatusRunning));
      MovedFront(s, t, Running(d.priority), d.(status := StatusRunning));
    } else if MonitorOf(s, m).owner == NULL {
      StartsInside(s, t, m, d.(status := StatusRunning));
    } else {
      MovedConsistent(s, t, BlockedOn(m), d.(status := BlockedOnMonitor));
      MovedFront(s, t, BlockedOn(m), d.(status := BlockedOnMonitor));
    }
  }

  /** threadJoin: the current thread waits for another one to die. */
  function Joins(s: State, t: int): State {
    Moved(s, s.current, Joining(t), ThreadOf(s, s.current).(status := BlockedOnThreadDeath))
  }

  function ThreadJoin(s: State, t: int): State {
    Generated(Joins(s, t))
  }

  lemma JoinsConsistent(s: State, t: int)
    requires Inv(s) && s.current != s.idle
    ensures Consistent(Joins(s, t))
  {
    assert ThreadAt(s, s.current) && MonitorAt(s, NULL);
    MovedConsistent(s, s.current, Joining(t), ThreadOf(s, s.current).(status := BlockedOnThreadDeath));
  }

  lemma ThreadJoinRuns(s: State, t: int)
    requires Inv(s) && s.current != s.idle
    ensures RunsHighest(ThreadJoin(s, t))
  {
    JoinsConsistent(s, t);
    GeneratedRuns(Joins(s, t));
  }

  /** releaseJoinedThreads, for the threads l that wait for the current one. */
  function AllWoken(s: State, l: seq<int>): State
    decreases |l|
  {
    if l == [] then s else AllWoken(Woken(s, l[0]), l[1..])
  }

  lemma WokenInv(s: State, t: int)
    requires Inv(s) && t in s.place && (s.place[t].Joining? || s.place[t].Running?) && t != s.current
    ensures Inv(Woken(s, t)) && Woken(s, t).current == s.current
    ensures Woken(s, t).place == s.place[t := Running(ThreadOf(s, t).priority)] && Woken(s, t).monitors == s.monitors
  {
    assert ThreadAt(s, t) && MonitorAt(s, NULL);
    var data := ThreadOf(s, t).(status := StatusRunning);
    MovedConsistent(s, t, Running(data.priority), data);
    MovedFront(s, t, Running(data.priority), data);
    MovedPlaced(s, t, Running(data.priority), data);
  }

  /** Waking the first of those that join x leaves the others. */
  lemma FirstWoken(s: State, x: int, l: seq<int>)
    requires Inv(s) && l == List(s, Joining(x)) && l != []
    ensures var s' := Woken(s, l[0]);
            && Inv(s') && s'.current == s.current && s'.monitors == s.monitors && List(s', Joining(x)) == l[1..]
            && l[0] in s.place && s'.place == s.place[l[0] := Running(ThreadOf(s, l[0]).priority)]
  {
    var t := l[0];
    Member(s, t, Joining(x));
    assert t in l;
    WokenInv(s, t);
    MovedLists(s, t, Running(ThreadOf(s, t).priority), ThreadOf(s, t).(status := StatusRunning));
  }

  /** Nobody is left waiting, and those who waited run. */
  lemma {:induction false} AllWokenInv(s: State, x: int, l: seq<int>)
    requires Inv(s) && l == List(s, Joining(x))
    ensures var s' := AllWoken(s, l); Inv(s') && s'.current == s.current && s'.idle == s.idle && s'.monitors == s.monitors && List(s', Joining(x)) == []
    ensures forall t :: t in s.place && s.place[t] != Joining(x) ==> t in AllWoken(s, l).place && AllWoken(s, l).place[t] == s.place[t]
    ensures forall i :: 0 <= i < |l| ==> l[i] in AllWoken(s, l).place && AllWoken(s, l).place[l[i]].Running?
    decreases |l|
  {
    if l != [] {
      var s1, rest := Woken(s, l[0]), l[1..];
      FirstWoken(s, x, l);
      AllWokenInv(s1, x, rest);
      forall i | 0 <= i < |l| ensures l[i] in AllWoken(s, l).place && AllWoken(s, l).place[l[i]].Running? {
        if i > 0 {
          assert rest[i - 1] == l[i];
        }
      }
    }
  }

  /** The current thread leaves the running lists for good. */
  function Died(s: State): State {
    Took(s, s.current).(threads := s.threads[s.current := ThreadOf(s, s.current).(state := Finished)])
  }

  /** removeThreadCritical, called by the thread that dies. */
  function RemoveThread(s: State): State {
    Generated(Died(AllWoken(s, List(s, Joining(s.current)))))
  }

  lemma DiedPlaced(s: State)
    requires Inv(s)
    ensures Placed(Died(s)) && Statuses(Died(s))
  {
    var off, s' := Took(s, s.current), Died(s);
    TookPlaced(s, s.current);
    forall q | q in s'.lists ensures ListOk(s', q) { assert ListOk(off, q); }
    forall x | x in s'.place ensures SitsAt(s', x) { assert SitsAt(off, x); }
    forall x | x in s'.threads ensures ThreadAt(s', x) { assert ThreadAt(s, x); }
  }

  lemma DiedMonitors(s: State)
    requires Placed(s) && Monitors(s) && CurrentInFront(s) && forall m :: MonitorOf(s, m).owner != s.current
    ensures Monitors(Died(s))
  {
    TookPlaced(s, s.current);
    forall m ensures MonitorAt(Died(s), m) { assert MonitorAt(s, m); }
  }

  lemma DiedOthers(s: State)
    requires Placed(s) && CurrentInFront(s) && Semaphores(s) && Timers(s)
    ensures Semaphores(Died(s)) && Timers(Died(s))
  {
    TookPlaced(s, s.current);
    forall x ensures SemaphoreAt(Died(s), x) { assert SemaphoreAt(s, x); }
    TimersKept(s, Died(s), s.current);
  }

  lemma DiedConsistent(s: State)
    requires Inv(s) && s.current != s.idle && forall m :: MonitorOf(s, m).owner != s.current
    ensures Consistent(Died(s))
  {
    DiedPlaced(s);
    DiedMonitors(s);
    DiedOthers(s);
  }

  lemma DiedRuns(s: State)
    requires Inv(s) && s.current != s.idle && (forall m :: MonitorOf(s, m).owner != s.current) && List(s, Joining(s.current)) == []
    ensures RunsHighest(Generated(Died(s)))
    ensures Generated(Died(s)).place == s.place - {s.current} && List(Generated(Died(s)), Joining(s.current)) == []
  {
    DiedConsistent(s);
    TookPlaced(s, s.current);
    GeneratedRuns(Died(s));
  }

  /** A thread that owns no monitor dies: whoever joined it runs, and it is on no list. */
  lemma RemoveThreadRuns(s: State)
    requires Inv(s) && s.current != s.idle && forall m :: MonitorOf(s, m).owner != s.current
    ensures RunsHighest(RemoveThread(s))
    ensures s.current !in RemoveThread(s).place && ThreadOf(RemoveThread(s), s.current).state.Finished?
    ensures List(RemoveThread(s), Joining(s.current)) == []
    ensures forall t :: t in s.place && s.place[t] == Joining(s.current) ==> t in RemoveThread(s).place && RemoveThread(s).place[t].Running?
  {
    var l := List(s, Joining(s.current));
    var woken, s' := AllWoken(s, l), RemoveThread(s);
    AllWokenInv(s, s.current, l);
    SameMonitors(s, woken);
    DiedRuns(woken);
    forall t | t in s.place && s.place[t] == Joining(s.current) ensures t in s'.place && s'.place[t].Running? {
      Member(s, t, Joining(s.current));
      var i :| 0 <= i < |l| && l[i] == t;
    }
  }

  lemma SameMonitors(s: State, s': State)
    requires s'.monitors == s.monitors && s'.current == s.current && forall m :: MonitorOf(s, m).owner != s.current
    ensures forall m :: MonitorOf(s', m).owner != s'.current
  {
    forall m ensures MonitorOf(s', m).owner != s'.current {
      assert MonitorOf(s', m) == MonitorOf(s, m);
    }
  }

  // ---------- semaphores ----------

  function Counted(s: State, x: int, step: int): State {
    s.(counters := s.counters[x := CounterOf(s, x) + step])
  }

  function SemaphorePost(s: State, x: int): State {
    var up, l := Counted(s, x, 1), List(s, Pending(x));
    if CounterOf(up, x) <= 0 && l != [] then Conditional(Woken(up, l[0])) else up
  }

  /** The current thread queues behind the waiting threads of at least its priority. */
  function Pends(s: State, x: int): State {
    MovedSorted(Counted(s, x, -1), s.current, Pending(x), ThreadOf(s, s.current).(status := BlockedOnSemaphore))
  }

  function SemaphorePend(s: State, x: int): State {
    if CounterOf(s, x) - 1 < 0 then Generated(Pends(s, x)) else Counted(s, x, -1)
  }

  /** All parts of Consistent but one semaphore. */
  ghost predicate ConsistentButSemaphore(s: State, ex: int) {
    Placed(s) && Statuses(s) && Monitors(s) && Timers(s) && IdleReady(s) && forall x :: x != ex ==> SemaphoreAt(s, x)
  }

  lemma CountedBut(s: State, x: int, step: int)
    requires Inv(s)
    ensures ConsistentButSemaphore(Counted(s, x, step), x) && CurrentInFront(Counted(s, x, step))
    ensures SemaphoreAt(Counted(s, x, step), x) ==> Inv(Counted(s, x, step))
  {
    var s' := Counted(s, x, step);
    forall p | p in s'.lists ensures ListOk(s', p) { assert ListOk(s, p); }
    forall t | t in s'.place ensures SitsAt(s', t) { assert SitsAt(s, t); }
    forall t | t in s'.threads ensures ThreadAt(s', t) { assert ThreadAt(s, t); }
    forall m ensures MonitorAt(s', m) { assert MonitorAt(s, m); }
    forall y | y != x ensures SemaphoreAt(s', y) { assert SemaphoreAt(s, y); }
    forall i | 0 <= i < |s'.timers| ensures TimerAt(s', i) { assert TimerAt(s, i); }
    forall t | Timed(s', t) ensures HasTimer(s'.timers, t) { assert Timed(s, t); }
  }

  /** A post that finds the counter negative finds a waiting thread. */
  lemma SemaphorePostInv(s: State, x: int)
    requires Inv(s)
    ensures Inv(SemaphorePost(s, x))
    ensures CounterOf(s, x) < 0 ==> List(s, Pending(x)) != [] && RunsHighest(SemaphorePost(s, x))
  {
    var up, l := Counted(s, x, 1), List(s, Pending(x));
    assert SemaphoreAt(s, x);
    CountedBut(s, x, 1);
    if CounterOf(s, x) < 0 {
      var t, data := l[0], ThreadOf(s, l[0]).(status := StatusRunning);
      Member(s, t, Pending(x));
      assert t in l;
      PendingWoken(up, t, data, x);
      ConditionalRuns(Woken(up, t));
    }
  }

  /** Waking a thread is no concern of any monitor. */
  lemma WokenMonitors(s: State, t: int, data: Thread)
    requires Placed(s) && Monitors(s)
    ensures Monitors(Moved(s, t, Running(data.priority), data))
  {
    forall m ensures MonitorAt(Moved(s, t, Running(data.priority), data), m) {
      assert MonitorAt(s, m);
      MovedMonitor(s, t, Running(data.priority), data, m);
    }
  }

  lemma WokenSemaphores(s: State, t: int, p: Place, data: Thread, x: int)
    requires Placed(s) && t in s.place && s.place[t] == Pending(x) && p.Running?
    requires CounterOf(s, x) <= 0 && |List(s, Pending(x))| == 1 - CounterOf(s, x) && forall y :: y != x ==> SemaphoreAt(s, y)
    ensures Semaphores(Moved(s, t, p, data))
  {
    MovedLists(s, t, p, data);
    Member(s, t, Pending(x));
    WithoutMembers(List(s, Pending(x)), t);
    forall y ensures SemaphoreAt(Moved(s, t, p, data), y) {
      assert y != x ==> SemaphoreAt(s, y);
    }
  }

  lemma WokenTimers(s: State, t: int, data: Thread)
    requires Timers(s) && !Timed(s, t)
    ensures Timers(Moved(s, t, Running(data.priority), data))
  {
    TimersKept(s, Moved(s, t, Running(data.priority), data), t);
  }

  lemma PendingWoken(s: State, t: int, data: Thread, x: int)
    requires ConsistentButSemaphore(s, x) && CurrentInFront(s) && CounterOf(s, x) <= 0
    requires t in s.place && s.place[t] == Pending(x) && data == ThreadOf(s, t).(status := StatusRunning)
    requires |List(s, Pending(x))| == 1 - CounterOf(s, x)
    ensures Inv(Woken(s, t))
  {
    assert ThreadAt(s, t);
    MovedPlaced(s, t, Running(data.priority), data);
    WokenMonitors(s, t, data);
    WokenSemaphores(s, t, Running(data.priority), data, x);
    WokenTimers(s, t, data);
    MovedFront(s, t, Running(data.priority), data);
  }

  lemma SemaphorePendInv(s: State, x: int)
    requires Inv(s) && (s.current == s.idle ==> CounterOf(s, x) > 0)
    ensures Inv(SemaphorePend(s, x))
    ensures CounterOf(s, x) <= 0 ==> RunsHighest(SemaphorePend(s, x))
  {
    assert SemaphoreAt(s, x);
    CountedBut(s, x, -1);
    if CounterOf(s, x) <= 0 {
      var down, data := Counted(s, x, -1), ThreadOf(s, s.current).(status := BlockedOnSemaphore);
      CurrentPends(down, data, x);
      GeneratedRuns(Pends(s, x));
    }
  }

  lemma CurrentPends(s: State, data: Thread, x: int)
    requires ConsistentButSemaphore(s, x) && CurrentInFront(s) && s.current != s.idle && CounterOf(s, x) < 0
    requires data == ThreadOf(s, s.current).(status := BlockedOnSemaphore)
    requires |List(s, Pending(x))| == -CounterOf(s, x) - 1
    ensures Consistent(MovedSorted(s, s.current, Pending(x), data))
  {
    var t, p := s.current, Pending(x);
    assert ThreadAt(s, t);
    MovedSortedPlaced(s, t, p, data);
    PendsMonitors(s, data, x);
    PendsSemaphores(s, data, x);
    PendsTimers(s, data, x);
  }

  lemma PendsTimers(s: State, data: Thread, x: int)
    requires CurrentInFront(s) && Timers(s)
    ensures Timers(MovedSorted(s, s.current, Pending(x), data))
  {
    TimersKept(s, MovedSorted(s, s.current, Pending(x), data), s.current);
  }

  lemma PendsMonitors(s: State, data: Thread, x: int)
    requires Placed(s) && Monitors(s) && CurrentInFront(s)
    ensures Monitors(MovedSorted(s, s.current, Pending(x), data))
  {
    var s' := MovedSorted(s, s.current, Pending(x), data);
    MovedSortedLists(s, s.current, Pending(x), data);
    forall m ensures MonitorAt(s', m) {
      assert MonitorAt(s, m) && List(s', BlockedOn(m)) == List(s, BlockedOn(m));
    }
  }

  lemma PendsSemaphores(s: State, data: Thread, x: int)
    requires Placed(s) && CurrentInFront(s) && CounterOf(s, x) < 0 && forall y :: y != x ==> SemaphoreAt(s, y)
    requires |List(s, Pending(x))| == -CounterOf(s, x) - 1
    ensures Semaphores(MovedSorted(s, s.current, Pending(x), data))
  {
    var s' := MovedSorted(s, s.current, Pending(x), data);
    MovedSortedLists(s, s.current, Pending(x), data);
    forall y ensures SemaphoreAt(s', y) {
      assert y != x ==> SemaphoreAt(s, y);
    }
  }

  /** The list the thread goes to keeps the order of the others. */
  lemma MovedSortedLists(s: State, t: int, p: Place, data: Thread)
    requires Placed(s) && t in s.place && s.place[t] != p
    ensures forall q :: q != p ==> List(MovedSorted(s, t, p, data), q) == LeftOver(s, t, q)
    ensures List(MovedSorted(s, t, p, data), p) ==
              Inserted(List(s, p), SortedPosition(PrioritiesOf(s, List(s, p)), data.priority, ByPriority), t)
  {
    TookPlaced(s, t);
  }
}
