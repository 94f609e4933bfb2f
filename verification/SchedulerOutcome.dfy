/** Who runs after every step of the scheduler, and what has become of the data of every thread, said in
    terms of the state before it. */
module SchedulerOutcome {
  import opened Basics
  import opened LinkedLists
  import opened SchedulerState
  import opened SchedulerOps
  import opened Timeouts
  import opened ThreadOps
  import opened SchedulerRuns
  import opened SchedulerEffects

  // ---------- who runs next ----------

  /** The events after which the code does not look for another thread to run. */
  predicate KeepsRunning(s: State, e: Event) {
    match e
    case Enter(m) => !MustBlock(s, m)
    case Exit(m) => MonitorOf(s, m).depth > 1 || List(s, BlockedOn(m)) == []
    case Notify(m) => List(s, AsleepOn(m)) == []
    case NotifyAll(m) => List(s, AsleepOn(m)) == []
    case Start(_, _) => true
    case Prioritize(t, _) => !IsRunning(s, t)
    case Post(x) => CounterOf(s, x) >= 0
    case Pend(x) => CounterOf(s, x) > 0
    case YieldStrongly => |List(s, Running(ThreadOf(s, s.current).priority))| == 1
    case _ => false
  }

  /** The threads that are ready at priority q once everybody has gone where it goes, and the current
      thread, if its turn has ended, to the end of its list. */
  function Ready(s: State, e: Event, q: nat): seq<int> {
    var l := Settled(s, e, Running(q));
    if AlwaysTurns(e) && q == OwnPriority(s, e) then Turn(l) else l
  }

  ghost predicate HighestReady(s: State, e: Event, q: nat) {
    q < PRIORITIES && Ready(s, e, q) != [] && forall r: nat :: q < r < PRIORITIES ==> Ready(s, e, r) == []
  }

  /** Thread t is the first of the highest priority at which a thread is ready. */
  ghost predicate RunsNext(s: State, e: Event, t: int) {
    exists q: nat :: HighestReady(s, e, q) && Ready(s, e, q)[0] == t
  }

  lemma NextIsOne(s: State, e: Event, t: int, t': int)
    requires RunsNext(s, e, t) && RunsNext(s, e, t')
    ensures t == t'
  {
    var q: nat :| HighestReady(s, e, q) && Ready(s, e, q)[0] == t;
    var q': nat :| HighestReady(s, e, q') && Ready(s, e, q')[0] == t';
    assert q == q';
  }

  /** s1 is the state in which the code looks for the thread to run. */
  lemma HighestRunsNext(s: State, e: Event, s1: State)
    requires HighestThread(s1) != NULL
    requires forall q: nat :: List(s1, Running(q)) == Ready(s, e, q)
    ensures RunsNext(s, e, HighestThread(s1))
  {
    var q := HighestUpTo(s1, PRIORITIES - 1);
    assert HighestReady(s, e, q);
  }

  lemma RunningNotNull(s: State)
    requires Inv(s)
    ensures s.current != NULL
  {
    assert ThreadAt(s, s.current);
  }

  lemma EnterCurrent(s: State, m: int)
    requires Inv(s) && Enabled(s, Enter(m)) && MustBlock(s, m)
    ensures RunsNext(s, Enter(m), MonitorEnter(s, m).current)
  {
    MonitorEnterInv(s, m);
    RunningNotNull(MonitorEnter(s, m));
    forall q: nat ensures List(BlockedAsCurrent(s, m), Running(q)) == Ready(s, Enter(m), q) {
      BlockedReady(s, m, q);
    }
    HighestRunsNext(s, Enter(m), BlockedAsCurrent(s, m));
  }

  lemma BlockedReady(s: State, m: int, q: nat)
    requires Placed(s) && MustBlock(s, m)
    ensures List(BlockedAsCurrent(s, m), Running(q)) == Ready(s, Enter(m), q)
  {
    MovedLists(s, s.current, BlockedOn(m), ThreadOf(s, s.current).(status := BlockedOnMonitor));
  }

  lemma ExitCurrent(s: State, m: int)
    requires Inv(s) && Enabled(s, Exit(m)) && !KeepsRunning(s, Exit(m))
    ensures RunsNext(s, Exit(m), MonitorExit(s, m).current)
  {
    var left := s.(monitors := s.monitors[m := MonitorOf(s, m).(depth := MonitorOf(s, m).depth - 1)]);
    assert MonitorAt(s, m);
    MonitorExitInv(s, m);
    RunningNotNull(MonitorExit(s, m));
    NotFrontBlocked(s, m);
    forall q: nat ensures List(Released(left, m), Running(q)) == Ready(s, Exit(m), q) {
      HandedOver(s, left, m, Running(q));
    }
    ReleasedData(left, m, s.current);
    ConditionalCurrent(Released(left, m));
    HighestRunsNext(s, Exit(m), Released(left, m));
  }

  /** A conditional switch ends with the highest thread, whether it switches or not. */
  lemma ConditionalCurrent(s: State)
    requires s.current in s.threads
    ensures Conditional(s).current == HighestThread(s)
  {
  }

  lemma WaitReady(s: State, m: int, timed: bool, deadline: int, q: nat)
    requires Inv(s) && Enabled(s, Wait(m, timed, deadline))
    ensures List(Released(FallsAsleep(s, m, timed, deadline), m), Running(q)) == Ready(s, Wait(m, timed, deadline), q)
  {
    AsleepLists(s, m, timed, deadline, BlockedOn(m));
    AsleepLists(s, m, timed, deadline, Running(q));
    AsleepReleased(s, FallsAsleep(s, m, timed, deadline), m, Running(q));
  }

  lemma WaitCurrent(s: State, m: int, timed: bool, deadline: int)
    requires Inv(s) && Enabled(s, Wait(m, timed, deadline))
    ensures RunsNext(s, Wait(m, timed, deadline), MonitorWait(s, m, timed, deadline).current)
  {
    var s1 := Released(FallsAsleep(s, m, timed, deadline), m);
    MonitorWaitInv(s, m, timed, deadline);
    RunningNotNull(MonitorWait(s, m, timed, deadline));
    forall q: nat ensures List(s1, Running(q)) == Ready(s, Wait(m, timed, deadline), q) {
      WaitReady(s, m, timed, deadline, q);
    }
    HighestRunsNext(s, Wait(m, timed, deadline), s1);
  }

  lemma NotifyCurrent(s: State, m: int)
    requires Inv(s) && Enabled(s, Notify(m)) && List(s, AsleepOn(m)) != []
    ensures RunsNext(s, Notify(m), MonitorNotify(s, m).current)
  {
    var l := List(s, AsleepOn(m));
    MonitorNotifyInv(s, m);
    RunningNotNull(MonitorNotify(s, m));
    forall q: nat ensures List(Notified(s, m, l[0]), Running(q)) == Ready(s, Notify(m), q) {
      FirstNotifiedLists(s, m, Running(q));
    }
    ConditionalCurrent(Notified(s, m, l[0]));
    HighestRunsNext(s, Notify(m), Notified(s, m, l[0]));
  }

  lemma NotifyAllReady(s: State, m: int, q: nat)
    requires Inv(s) && Enabled(s, NotifyAll(m))
    ensures List(AllNotified(s, m, List(s, AsleepOn(m))), Running(q)) == Ready(s, NotifyAll(m), q)
  {
    AllNotifiedKnown(s, m, Running(q));
  }

  lemma NotifyAllCurrent(s: State, m: int)
    requires Inv(s) && Enabled(s, NotifyAll(m)) && List(s, AsleepOn(m)) != []
    ensures RunsNext(s, NotifyAll(m), MonitorNotifyAll(s, m).current)
  {
    var s1 := AllNotified(s, m, List(s, AsleepOn(m)));
    MonitorNotifyAllInv(s, m);
    RunningNotNull(MonitorNotifyAll(s, m));
    forall q: nat ensures List(s1, Running(q)) == Ready(s, NotifyAll(m), q) {
      NotifyAllReady(s, m, q);
    }
    AllNotifiedKnown(s, m, BlockedOn(m));
    ConditionalCurrent(s1);
    HighestRunsNext(s, NotifyAll(m), s1);
  }

  lemma SleepReady(s: State, deadline: int, q: nat)
    requires Placed(s)
    ensures List(Asleep(s, deadline), Running(q)) == Ready(s, Sleep(deadline), q)
  {
    var armed := s.(timers := WithTimer(s.timers, Timer(s.current, ThreadSleepExpired, deadline)));
    SamePlaced(s, armed);
    MovedLists(armed, s.current, Sleeping, ThreadOf(s, s.current).(status := AsleepTimedOut));
  }

  lemma SleepCurrent(s: State, deadline: int)
    requires Inv(s) && s.current != s.idle
    ensures RunsNext(s, Sleep(deadline), ThreadSleep(s, deadline).current)
  {
    ThreadSleepRuns(s, deadline);
    RunningNotNull(ThreadSleep(s, deadline));
    forall q: nat ensures List(Asleep(s, deadline), Running(q)) == Ready(s, Sleep(deadline), q) {
      SleepReady(s, deadline, q);
    }
    HighestRunsNext(s, Sleep(deadline), Asleep(s, deadline));
  }

  lemma YieldCurrent(s: State)
    requires Inv(s)
    ensures RunsNext(s, YieldWeakly, Conditional(s).current)
  {
    ConditionalRuns(s);
    RunningNotNull(Conditional(s));
    HighestRunsNext(s, YieldWeakly, s);
  }

  lemma StrongYieldCurrent(s: State)
    requires Inv(s)
    ensures if KeepsRunning(s, YieldStrongly) then StrongYield(s).current == s.current
            else RunsNext(s, YieldStrongly, StrongYield(s).current)
  {
    var p := Running(ThreadOf(s, s.current).priority);
    var l, turned := List(s, p), Rotated(s, p);
    if |l| == 1 {
      AloneStays(s, l);
    } else {
      AloneOrNot(s, l);
      StrongYieldInv(s);
      RunningNotNull(StrongYield(s));
      HighestRunsNext(s, YieldStrongly, turned);
    }
  }

  lemma JoinReady(s: State, t: int, q: nat)
    requires Placed(s)
    ensures List(Joins(s, t), Running(q)) == Ready(s, Join(t), q)
  {
    MovedLists(s, s.current, Joining(t), ThreadOf(s, s.current).(status := BlockedOnThreadDeath));
  }

  lemma JoinCurrent(s: State, t: int)
    requires Inv(s) && s.current != s.idle
    ensures RunsNext(s, Join(t), ThreadJoin(s, t).current)
  {
    ThreadJoinRuns(s, t);
    RunningNotNull(ThreadJoin(s, t));
    forall q: nat ensures List(Joins(s, t), Running(q)) == Ready(s, Join(t), q) {
      JoinReady(s, t, q);
    }
    HighestRunsNext(s, Join(t), Joins(s, t));
  }

  lemma DiedReady(s: State, woken: State, q: nat)
    requires Placed(woken) && CurrentInFront(s) && woken.current == s.current
    requires s.current in woken.place && woken.place[s.current] == s.place[s.current]
    requires List(woken, Running(q)) == List(s, Running(q)) + AtPriority(s, List(s, Joining(s.current)), Running(q))
    ensures List(Died(woken), Running(q)) == Ready(s, Die, q)
  {
    DiedSettled(s, woken, Running(q));
    DiedLists(woken, Running(q));
  }

  lemma DieReady(s: State, q: nat)
    requires Inv(s)
    ensures List(Died(AllWoken(s, List(s, Joining(s.current)))), Running(q)) == Ready(s, Die, q)
  {
    JoinersWoken(s);
    AllWokenLists(s, s.current, List(s, Joining(s.current)), Running(q));
    DiedReady(s, AllWoken(s, List(s, Joining(s.current))), q);
  }

  lemma DieCurrent(s: State)
    requires Inv(s) && Enabled(s, Die)
    ensures RunsNext(s, Die, RemoveThread(s).current)
  {
    var woken := AllWoken(s, List(s, Joining(s.current)));
    RemoveThreadRuns(s);
    RunningNotNull(RemoveThread(s));
    forall q: nat ensures List(Died(woken), Running(q)) == Ready(s, Die, q) {
      DieReady(s, q);
    }
    HighestRunsNext(s, Die, Died(woken));
  }

  lemma PriorityReady(s: State, t: int, priority: nat, q: nat)
    requires Placed(s) && IsRunning(s, t)
    ensures List(Reprioritized(s, t, priority), Running(q)) == Ready(s, Prioritize(t, priority), q)
  {
    MovedLists(s, t, Running(priority), ThreadOf(s, t).(priority := priority));
  }

  lemma PrioritizeCurrent(s: State, t: int, priority: nat)
    requires Inv(s) && t in s.threads && priority < PRIORITIES && IsRunning(s, t)
    ensures RunsNext(s, Prioritize(t, priority), SetPriority(s, t, priority).current)
  {
    ReprioritizedConsistent(s, t, priority);
    HighestKnown(Reprioritized(s, t, priority));
    forall q: nat ensures List(Reprioritized(s, t, priority), Running(q)) == Ready(s, Prioritize(t, priority), q) {
      PriorityReady(s, t, priority, q);
    }
    ConditionalCurrent(Reprioritized(s, t, priority));
    HighestRunsNext(s, Prioritize(t, priority), Reprioritized(s, t, priority));
  }

  lemma PostedReady(s: State, x: int, q: nat)
    requires Placed(s) && CounterOf(s, x) < 0 && List(s, Pending(x)) != []
    ensures List(Woken(Counted(s, x, 1), List(s, Pending(x))[0]), Running(q)) == Ready(s, Post(x), q)
  {
    PostedLists(s, x, Running(q));
  }

  lemma PostedCurrent(s: State, x: int)
    requires Inv(s) && CounterOf(s, x) < 0 && List(s, Pending(x)) != []
    ensures SemaphorePost(s, x).current == HighestThread(Woken(Counted(s, x, 1), List(s, Pending(x))[0]))
  {
    ConditionalCurrent(Woken(Counted(s, x, 1), List(s, Pending(x))[0]));
  }

  lemma PostCurrent(s: State, x: int)
    requires Inv(s) && CounterOf(s, x) < 0
    ensures RunsNext(s, Post(x), SemaphorePost(s, x).current)
  {
    SemaphorePostInv(s, x);
    RunningNotNull(SemaphorePost(s, x));
    var s1 := Woken(Counted(s, x, 1), List(s, Pending(x))[0]);
    PostedCurrent(s, x);
    forall q: nat ensures List(s1, Running(q)) == Ready(s, Post(x), q) {
      PostedReady(s, x, q);
    }
    HighestRunsNext(s, Post(x), s1);
  }

  lemma PendsReady(s: State, x: int, q: nat)
    requires Inv(s) && CounterOf(s, x) <= 0
    ensures List(Pends(s, x), Running(q)) == Ready(s, Pend(x), q)
  {
    var down := Counted(s, x, -1);
    SamePlaced(s, down);
    MovedSortedLists(down, s.current, Pending(x), ThreadOf(s, s.current).(status := BlockedOnSemaphore));
  }

  lemma PendCurrent(s: State, x: int)
    requires Inv(s) && Enabled(s, Pend(x)) && CounterOf(s, x) <= 0
    ensures RunsNext(s, Pend(x), SemaphorePend(s, x).current)
  {
    SemaphorePendInv(s, x);
    RunningNotNull(SemaphorePend(s, x));
    forall q: nat ensures List(Pends(s, x), Running(q)) == Ready(s, Pend(x), q) {
      PendsReady(s, x, q);
    }
    HighestRunsNext(s, Pend(x), Pends(s, x));
  }

  lemma TurnedReady(s: State, fired: State, expired: bool, now: int, q: nat)
    requires fired.current == s.current && ThreadOf(fired, s.current).priority == ThreadOf(s, s.current).priority
    requires List(fired, Running(q)) == Settled(s, TurnEnds(expired, now), Running(q))
    ensures List(Rotated(fired, Running(ThreadOf(fired, fired.current).priority)), Running(q)) == Ready(s, TurnEnds(expired, now), q)
  {
  }

  lemma TurnReady(s: State, expired: bool, now: int, q: nat)
    requires Inv(s)
    ensures var fired := Clocked(s, expired, now);
            List(Rotated(fired, Running(ThreadOf(fired, fired.current).priority)), Running(q)) == Ready(s, TurnEnds(expired, now), q)
  {
    ClockedPriority(s, expired, now, s.current);
    ClockedLists(s, expired, now, Running(q));
    TurnedReady(s, Clocked(s, expired, now), expired, now, q);
  }

  lemma TurnCurrent(s: State, expired: bool, now: int)
    requires Inv(s)
    ensures RunsNext(s, TurnEnds(expired, now), Tick(s, expired, now).current)
  {
    var fired := Clocked(s, expired, now);
    var s1 := Rotated(fired, Running(ThreadOf(fired, fired.current).priority));
    TickRuns(s, expired, now);
    RunningNotNull(Tick(s, expired, now));
    forall q: nat ensures List(s1, Running(q)) == Ready(s, TurnEnds(expired, now), q) {
      TurnReady(s, expired, now, q);
    }
    HighestRunsNext(s, TurnEnds(expired, now), s1);
  }

  lemma InterruptReady(s: State, expired: bool, now: int, q: nat)
    requires Inv(s)
    ensures List(Clocked(s, expired, now), Running(q)) == Ready(s, Interrupted(expired, now), q)
  {
    ClockedLists(s, expired, now, Running(q));
  }

  lemma InterruptCurrent(s: State, expired: bool, now: int)
    requires Inv(s)
    ensures RunsNext(s, Interrupted(expired, now), Interrupt(s, expired, now).current)
  {
    var fired := Clocked(s, expired, now);
    InterruptRuns(s, expired, now);
    RunningNotNull(Interrupt(s, expired, now));
    ClockedLists(s, expired, now, Sleeping);
    ConditionalCurrent(fired);
    forall q: nat ensures List(fired, Running(q)) == Ready(s, Interrupted(expired, now), q) {
      InterruptReady(s, expired, now, q);
    }
    HighestRunsNext(s, Interrupted(expired, now), fired);
  }

  lemma KeptCurrent(s: State, e: Event)
    requires Inv(s) && Enabled(s, e) && KeepsRunning(s, e)
    ensures Step(s, e).current == s.current
  {
    match e
    case YieldStrongly => StrongYieldCurrent(s);
    case Post(x) => assert SemaphoreAt(s, x);
    case Start(t, m) => ScheduleNewThreadInv(s, t, m);
    case _ =>
  }

  /** The current thread goes on, or gives way to the first thread of highest priority that is ready once
      everybody has gone where the event sends it: nothing else decides who runs. */
  lemma StepCurrent(s: State, e: Event)
    requires Inv(s) && Enabled(s, e)
    ensures if KeepsRunning(s, e) then Step(s, e).current == s.current else RunsNext(s, e, Step(s, e).current)
  {
    if KeepsRunning(s, e) {
      KeptCurrent(s, e);
    } else {
      match e
      case Enter(m) => EnterCurrent(s, m);
      case Exit(m) => ExitCurrent(s, m);
      case Wait(m, timed, deadline) => WaitCurrent(s, m, timed, deadline);
      case Notify(m) => NotifyCurrent(s, m);
      case NotifyAll(m) => NotifyAllCurrent(s, m);
      case Sleep(deadline) => SleepCurrent(s, deadline);
      case YieldWeakly => YieldCurrent(s);
      case YieldStrongly => StrongYieldCurrent(s);
      case Join(t) => JoinCurrent(s, t);
      case Die => DieCurrent(s);
      case Prioritize(t, priority) => PrioritizeCurrent(s, t, priority);
      case Post(x) => PostCurrent(s, x);
      case Pend(x) => PendCurrent(s, x);
      case TurnEnds(expired, now) => TurnCurrent(s, expired, now);
      case Interrupted(expired, now) => InterruptCurrent(s, expired, now);
    }
  }

  // ---------- what becomes of the threads ----------

  predicate IsFirst(s: State, p: Place, t: int) {
    List(s, p) != [] && List(s, p)[0] == t
  }

  /** The data of a thread that is handed a monitor. */
  function Admitted(d: Thread): Thread {
    d.(waitMonitor := NULL, status := StatusRunning)
  }

  /** The data of thread x after the event. */
  ghost predicate ThreadAfter(s: State, e: Event, x: int, after: Thread) {
    var d, current := ThreadOf(s, x), x == s.current;
    match e
    case Enter(m) => after == if current && MustBlock(s, m) then d.(status := BlockedOnMonitor) else d
    case Exit(m) => after == if MonitorOf(s, m).depth <= 1 && IsFirst(s, BlockedOn(m), x) then Admitted(d) else d
    case Wait(m, timed, _) =>
      after == if current then
                 d.(waitMonitor := m, waitDepth := MonitorOf(s, m).depth, status := if timed then AsleepTimedOutOnMonitor else AsleepOnMonitor)
               else if IsFirst(s, BlockedOn(m), x) then Admitted(d)
               else d
    case Sleep(_) => after == if current then d.(status := AsleepTimedOut) else d
    case Join(_) => after == if current then d.(status := BlockedOnThreadDeath) else d
    case Die =>
      after == if current then d.(state := Finished)
               else if x in List(s, Joining(s.current)) then d.(status := StatusRunning)
               else d
    case Start(t, m) =>
      after == if x == t then d.(state := Active, status := if m != NULL && MonitorOf(s, m).owner != NULL then BlockedOnMonitor else StatusRunning)
               else d
    case Prioritize(t, priority) => after == if x == t then d.(priority := priority) else d
    case Post(y) => after == if CounterOf(s, y) < 0 && IsFirst(s, Pending(y), x) then d.(status := StatusRunning) else d
    case Pend(y) => after == if current && CounterOf(s, y) <= 0 then d.(status := BlockedOnSemaphore) else d
    case TurnEnds(expired, now) => FiredAfter(s, DueTimers(s, expired, now), x, after)
    case Interrupted(expired, now) => FiredAfter(s, DueTimers(s, expired, now), x, after)
    case _ => after == d
  }

  /** Only a thread whose timer is due changes. */
  ghost predicate FiredAfter(s: State, due: seq<Timer>, x: int, after: Thread) {
    if HasTimer(due, x) then exists i :: 0 <= i < |due| && due[i].thread == x && after == FiredData(s, due, due[i])
    else after == ThreadOf(s, x)
  }

  lemma SwitchedThreads(s1: State)
    ensures Conditional(s1).threads == s1.threads && Generated(s1).threads == s1.threads
    ensures Generated(Rotated(s1, Running(ThreadOf(s1, s1.current).priority))).threads == s1.threads
  {
  }

  lemma ReleasedThreads(s: State, m: int, x: int)
    requires x in s.threads || !IsFirst(s, BlockedOn(m), x)
    ensures ThreadOf(Released(s, m), x) == if IsFirst(s, BlockedOn(m), x) then Admitted(ThreadOf(s, x)) else ThreadOf(s, x)
  {
  }

  lemma FirstIsKnown(s: State, p: Place, x: int)
    requires Placed(s) && Statuses(s) && IsFirst(s, p, x)
    ensures x in s.threads && x in s.place && s.place[x] == p
  {
    Member(s, x, p);
    assert x in List(s, p);
  }

  lemma ExitThreads(s: State, m: int, x: int)
    requires Inv(s) && Enabled(s, Exit(m))
    ensures ThreadAfter(s, Exit(m), x, ThreadOf(MonitorExit(s, m), x))
  {
    assert MonitorAt(s, m);
    if MonitorOf(s, m).depth == 1 {
      var left := s.(monitors := s.monitors[m := MonitorOf(s, m).(depth := MonitorOf(s, m).depth - 1)]);
      if IsFirst(s, BlockedOn(m), x) {
        FirstIsKnown(s, BlockedOn(m), x);
      }
      ReleasedThreads(left, m, x);
      SwitchedThreads(Released(left, m));
    }
  }

  lemma WaitThreads(s: State, m: int, timed: bool, deadline: int, x: int)
    requires Inv(s) && Enabled(s, Wait(m, timed, deadline))
    ensures ThreadAfter(s, Wait(m, timed, deadline), x, ThreadOf(MonitorWait(s, m, timed, deadline), x))
  {
    var asleep := FallsAsleep(s, m, timed, deadline);
    AsleepLists(s, m, timed, deadline, BlockedOn(m));
    assert MonitorAt(s, m) && ThreadAt(s, s.current);
    NotFrontWaiting(s, m);
    if IsFirst(s, BlockedOn(m), x) {
      FirstIsKnown(s, BlockedOn(m), x);
    }
    ReleasedThreads(asleep, m, x);
    SwitchedThreads(Released(asleep, m));
  }

  lemma NotifyThreads(s: State, m: int)
    requires Inv(s) && Enabled(s, Notify(m))
    ensures MonitorNotify(s, m).threads == s.threads
  {
    var l := List(s, AsleepOn(m));
    if l != [] {
      FirstIsKnown(s, AsleepOn(m), l[0]);
      assert s.threads[l[0] := ThreadOf(s, l[0])] == s.threads;
      SwitchedThreads(Notified(s, m, l[0]));
    }
  }

  lemma NotifyAllThreads(s: State, m: int)
    requires Inv(s) && Enabled(s, NotifyAll(m))
    ensures MonitorNotifyAll(s, m).threads == s.threads
  {
    var l := List(s, AsleepOn(m));
    AllNotifiedKnown(s, m, BlockedOn(m));
    SwitchedThreads(AllNotified(s, m, l));
  }

  lemma {:induction false} AllWokenThreads(s: State, y: int, l: seq<int>, x: int)
    requires Inv(s) && l == List(s, Joining(y))
    ensures ThreadOf(AllWoken(s, l), x) == if x in l then ThreadOf(s, x).(status := StatusRunning) else ThreadOf(s, x)
    ensures x in AllWoken(s, l).threads <==> x in s.threads
    decreases |l|
  {
    if l != [] {
      var s1, rest := Woken(s, l[0]), l[1..];
      FirstIsKnown(s, Joining(y), l[0]);
      FirstWoken(s, y, l);
      AllWokenThreads(s1, y, rest, x);
      assert x in l <==> x == l[0] || x in rest;
    }
  }

  lemma DieThreads(s: State, x: int)
    requires Inv(s) && Enabled(s, Die)
    ensures ThreadAfter(s, Die, x, ThreadOf(RemoveThread(s), x))
  {
    var l := List(s, Joining(s.current));
    var woken := AllWoken(s, l);
    AllWokenThreads(s, s.current, l, x);
    AllWokenThreads(s, s.current, l, s.current);
    JoinersWoken(s);
    Member(s, s.current, Joining(s.current));
    SwitchedThreads(Died(woken));
  }

  lemma PostThreads(s: State, y: int, x: int)
    requires Inv(s)
    ensures ThreadAfter(s, Post(y), x, ThreadOf(SemaphorePost(s, y), x))
  {
    assert SemaphoreAt(s, y);
    if CounterOf(s, y) < 0 {
      var l := List(s, Pending(y));
      FirstIsKnown(s, Pending(y), l[0]);
      SwitchedThreads(Woken(Counted(s, y, 1), l[0]));
    }
  }

  lemma ClockedThreads(s: State, expired: bool, now: int, x: int)
    requires Consistent(s)
    ensures FiredAfter(s, DueTimers(s, expired, now), x, ThreadOf(Clocked(s, expired, now), x))
  {
    if expired {
      var due := s.timers[..Due(s.timers, now)];
      UpdateData(s, now);
      if HasTimer(due, x) {
        var i :| 0 <= i < |due| && due[i].thread == x;
        assert DataAt(s, Updated(s, now), due, i);
      }
    }
  }

  lemma EnterThreads(s: State, m: int, x: int)
    ensures ThreadAfter(s, Enter(m), x, ThreadOf(MonitorEnter(s, m), x))
  {
  }

  lemma SleepThreads(s: State, deadline: int, x: int)
    ensures ThreadAfter(s, Sleep(deadline), x, ThreadOf(ThreadSleep(s, deadline), x))
  {
    SwitchedThreads(Asleep(s, deadline));
  }

  lemma JoinThreads(s: State, t: int, x: int)
    ensures ThreadAfter(s, Join(t), x, ThreadOf(ThreadJoin(s, t), x))
  {
    SwitchedThreads(Joins(s, t));
  }

  lemma PendThreads(s: State, y: int, x: int)
    ensures ThreadAfter(s, Pend(y), x, ThreadOf(SemaphorePend(s, y), x))
  {
    SwitchedThreads(Pends(s, y));
  }

  lemma YieldThreads(s: State)
    ensures Conditional(s).threads == s.threads && StrongYield(s).threads == s.threads
  {
  }

  lemma StartThreads(s: State, t: int, m: int, x: int)
    ensures ThreadAfter(s, Start(t, m), x, ThreadOf(ScheduleNewThread(s, t, m), x))
  {
  }

  lemma PriorityThreads(s: State, t: int, priority: nat, x: int)
    ensures ThreadAfter(s, Prioritize(t, priority), x, ThreadOf(SetPriority(s, t, priority), x))
  {
    SwitchedThreads(Reprioritized(s, t, priority));
  }

  lemma TickThreads(s: State, expired: bool, now: int, x: int)
    requires Inv(s)
    ensures ThreadAfter(s, TurnEnds(expired, now), x, ThreadOf(Tick(s, expired, now), x))
    ensures ThreadAfter(s, Interrupted(expired, now), x, ThreadOf(Interrupt(s, expired, now), x))
  {
    ClockedThreads(s, expired, now, x);
    SwitchedThreads(Clocked(s, expired, now));
  }

  lemma MonitorThreads(s: State, e: Event, x: int)
    requires Inv(s) && Enabled(s, e) && ForMonitors(e)
    ensures ThreadAfter(s, e, x, ThreadOf(Step(s, e), x))
  {
    match e
    case Enter(m) => EnterThreads(s, m, x);
    case Exit(m) => ExitThreads(s, m, x);
    case Wait(m, timed, deadline) => WaitThreads(s, m, timed, deadline, x);
    case Notify(m) => NotifyThreads(s, m);
    case NotifyAll(m) => NotifyAllThreads(s, m);
  }

  lemma OtherThreads(s: State, e: Event, x: int)
    requires Inv(s) && Enabled(s, e) && !ForMonitors(e) && !e.TurnEnds? && !e.Interrupted? && !e.Die?
    ensures ThreadAfter(s, e, x, ThreadOf(Step(s, e), x))
  {
    match e
    case Sleep(deadline) => SleepThreads(s, deadline, x);
    case YieldWeakly => YieldThreads(s);
    case YieldStrongly => YieldThreads(s);
    case Join(t) => JoinThreads(s, t, x);
    case Start(t, m) => StartThreads(s, t, m, x);
    case Prioritize(t, priority) => PriorityThreads(s, t, priority, x);
    case Post(y) => PostThreads(s, y, x);
    case Pend(y) => PendThreads(s, y, x);
  }

  /** State, status, priority and what a thread waits for, of every thread after every event. */
  lemma StepThreads(s: State, e: Event, x: int)
    requires Inv(s) && Enabled(s, e)
    ensures ThreadAfter(s, e, x, ThreadOf(Step(s, e), x))
  {
    if ForMonitors(e) {
      MonitorThreads(s, e, x);
    } else if e.Die? {
      DieThreads(s, x);
    } else if e.TurnEnds? || e.Interrupted? {
      TickThreads(s, e.expired, e.now, x);
    } else {
      OtherThreads(s, e, x);
    }
  }

  // ---------- the idle thread ----------

  lemma SwitchedIdle(s: State)
    ensures Conditional(s).idle == s.idle && Generated(s).idle == s.idle && StrongYield(s).idle == s.idle
  {
  }

  lemma {:induction false} AllNotifiedIdle(s: State, m: int, l: seq<int>)
    ensures AllNotified(s, m, l).idle == s.idle
    decreases |l|
  {
    if l != [] {
      AllNotifiedIdle(Notified(s, m, l[0]), m, l[1..]);
    }
  }

  lemma ClockedIdle(s: State, expired: bool, now: int)
    requires Inv(s)
    ensures Tick(s, expired, now).idle == s.idle && Interrupt(s, expired, now).idle == s.idle
  {
    UpdateData(s, now);
    SwitchedIdle(Clocked(s, expired, now));
  }

  lemma EnterIdle(s: State, m: int)
    ensures MonitorEnter(s, m).idle == s.idle
  {
  }

  lemma ReleasedIdle(s: State, m: int)
    ensures Released(s, m).idle == s.idle
  {
  }

  lemma ExitIdle(s: State, m: int)
    ensures MonitorExit(s, m).idle == s.idle
  {
    var left := s.(monitors := s.monitors[m := MonitorOf(s, m).(depth := if MonitorOf(s, m).depth > 0 then MonitorOf(s, m).depth - 1 else 0)]);
    ReleasedIdle(left, m);
    SwitchedIdle(Released(left, m));
  }

  lemma WaitIdle(s: State, m: int, timed: bool, deadline: int)
    ensures MonitorWait(s, m, timed, deadline).idle == s.idle
  {
    var asleep := FallsAsleep(s, m, timed, deadline);
    ReleasedIdle(asleep, m);
    SwitchedIdle(Released(asleep, m));
  }

  lemma NotifyIdle(s: State, m: int)
    ensures MonitorNotify(s, m).idle == s.idle && MonitorNotifyAll(s, m).idle == s.idle
  {
    var l := List(s, AsleepOn(m));
    if l != [] {
      SwitchedIdle(Notified(s, m, l[0]));
      AllNotifiedIdle(s, m, l);
      SwitchedIdle(AllNotified(s, m, l));
    }
  }

  lemma BlockingIdle(s: State, deadline: int, t: int)
    ensures ThreadSleep(s, deadline).idle == s.idle && ThreadJoin(s, t).idle == s.idle
  {
    SwitchedIdle(Asleep(s, deadline));
    SwitchedIdle(Joins(s, t));
  }

  lemma PendIdle(s: State, x: int)
    ensures SemaphorePend(s, x).idle == s.idle
  {
    SwitchedIdle(Pends(s, x));
  }

  lemma PriorityIdle(s: State, t: int, priority: nat)
    ensures SetPriority(s, t, priority).idle == s.idle
  {
    SwitchedIdle(Reprioritized(s, t, priority));
  }

  lemma PostIdle(s: State, x: int)
    ensures SemaphorePost(s, x).idle == s.idle
  {
    if List(s, Pending(x)) != [] {
      SwitchedIdle(Woken(Counted(s, x, 1), List(s, Pending(x))[0]));
    }
  }

  lemma DieIdle(s: State)
    requires Inv(s)
    ensures RemoveThread(s).idle == s.idle
  {
    AllWokenInv(s, s.current, List(s, Joining(s.current)));
    SwitchedIdle(Died(AllWoken(s, List(s, Joining(s.current)))));
  }

  /** No event makes another thread the idle one. */
  lemma StepIdle(s: State, e: Event)
    requires Inv(s) && Enabled(s, e)
    ensures Step(s, e).idle == s.idle
  {
    match e
    case Enter(m) => EnterIdle(s, m);
    case Exit(m) => ExitIdle(s, m);
    case Wait(m, timed, deadline) => WaitIdle(s, m, timed, deadline);
    case Notify(m) => NotifyIdle(s, m);
    case NotifyAll(m) => NotifyIdle(s, m);
    case YieldWeakly => SwitchedIdle(s);
    case YieldStrongly => SwitchedIdle(s);
    case Die => DieIdle(s);
    case TurnEnds(expired, now) => ClockedIdle(s, expired, now);
    case Interrupted(expired, now) => ClockedIdle(s, expired, now);
    case Sleep(deadline) => BlockingIdle(s, deadline, NULL);
    case Join(t) => BlockingIdle(s, 0, t);
    case Pend(x) => PendIdle(s, x);
    case Start(_, _) =>
    case Prioritize(t, priority) => PriorityIdle(s, t, priority);
    case Post(x) => PostIdle(s, x);
  }
}
