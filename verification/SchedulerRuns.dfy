/** Whole runs of the scheduler: every step is one critical region of the current thread, or a tick. */
module SchedulerRuns {
  import opened Basics
  import opened LinkedLists
  import opened SchedulerState
  import opened SchedulerOps
  import opened Timeouts
  import opened ThreadOps

  datatype Event =
    | Enter(monitor: int)
    | Exit(monitor: int)
    | Wait(monitor: int, timed: bool, deadline: int)
    | Notify(monitor: int)
    | NotifyAll(monitor: int)
    | Sleep(deadline: int)
    | YieldWeakly
    | YieldStrongly
    | Join(thread: int)
    | Die
    | Start(thread: int, monitor: int)
    | Prioritize(thread: int, priority: nat)
    | Post(semaphore: int)
    | Pend(semaphore: int)
    | TurnEnds(expired: bool, now: int)
    | Interrupted(expired: bool, now: int)

  /** What the source demands: monitor operations by the owner, a blocking operation never by the idle
      thread, and no monitor in the hands of a thread that dies. The current thread may change its own
      priority only where that leaves its list in order. */
  ghost predicate Enabled(s: State, e: Event) {
    match e
    case Enter(m) => m != NULL && (s.current == s.idle ==> MonitorOf(s, m).owner == NULL || MonitorOf(s, m).owner == s.current)
    case Exit(m) => m != NULL && MonitorOf(s, m).owner == s.current
    case Wait(m, _, _) => m != NULL && MonitorOf(s, m).owner == s.current && s.current != s.idle
    case Notify(m) => m != NULL && MonitorOf(s, m).owner == s.current
    case NotifyAll(m) => m != NULL && MonitorOf(s, m).owner == s.current
    case Sleep(_) => s.current != s.idle
    case YieldWeakly => true
    case YieldStrongly => true
    case Join(_) => s.current != s.idle
    case Die => s.current != s.idle && forall m :: MonitorOf(s, m).owner != s.current
    case Start(t, _) => t in s.threads && s.threads[t].state.NotStarted? && s.threads[t].priority < PRIORITIES
    case Prioritize(t, p) =>
      && t in s.threads && p < PRIORITIES
      && (t == s.current ==> Others(s, p) == [] || HighestUpTo(Reprioritized(s, t, p), PRIORITIES - 1) > p)
    case Post(_) => true
    case Pend(x) => s.current == s.idle ==> CounterOf(s, x) > 0
    case TurnEnds(_, _) => true
    case Interrupted(_, _) => true
  }

  function Step(s: State, e: Event): State {
    match e
    case Enter(m) => MonitorEnter(s, m)
    case Exit(m) => MonitorExit(s, m)
    case Wait(m, timed, deadline) => MonitorWait(s, m, timed, deadline)
    case Notify(m) => MonitorNotify(s, m)
    case NotifyAll(m) => MonitorNotifyAll(s, m)
    case Sleep(deadline) => ThreadSleep(s, deadline)
    case YieldWeakly => Conditional(s)
    case YieldStrongly => StrongYield(s)
    case Join(t) => ThreadJoin(s, t)
    case Die => RemoveThread(s)
    case Start(t, m) => ScheduleNewThread(s, t, m)
    case Prioritize(t, p) => SetPriority(s, t, p)
    case Post(x) => SemaphorePost(s, x)
    case Pend(x) => SemaphorePend(s, x)
    case TurnEnds(expired, now) => Tick(s, expired, now)
    case Interrupted(expired, now) => Interrupt(s, expired, now)
  }

  lemma StepInv(s: State, e: Event)
    requires Inv(s) && Enabled(s, e)
    ensures Inv(Step(s, e))
  {
    match e
    case Enter(m) => MonitorEnterInv(s, m);
    case Exit(m) => MonitorExitInv(s, m);
    case Wait(m, timed, deadline) => MonitorWaitInv(s, m, timed, deadline);
    case Notify(m) => MonitorNotifyInv(s, m);
    case NotifyAll(m) => MonitorNotifyAllInv(s, m);
    case Sleep(deadline) => ThreadSleepRuns(s, deadline);
    case YieldWeakly => ConditionalRuns(s);
    case YieldStrongly => StrongYieldInv(s);
    case Join(t) => ThreadJoinRuns(s, t);
    case Die => RemoveThreadRuns(s);
    case Start(t, m) => ScheduleNewThreadInv(s, t, m);
    case Prioritize(t, p) => if t == s.current { SetOwnPriorityInv(s, p); } else { SetPriorityInv(s, t, p); }
    case Post(x) => SemaphorePostInv(s, x);
    case Pend(x) => SemaphorePendInv(s, x);
    case TurnEnds(expired, now) => TickRuns(s, expired, now);
    case Interrupted(expired, now) => InterruptRuns(s, expired, now);
  }

  // ---------- runs ----------

  function Run(s: State, es: seq<Event>): State
    decreases |es|
  {
    if es == [] then s else Run(Step(s, es[0]), es[1..])
  }

  ghost predicate Possible(s: State, es: seq<Event>)
    decreases |es|
  {
    es == [] || (Enabled(s, es[0]) && Possible(Step(s, es[0]), es[1..]))
  }

  /** A run is its events one after the other. */
  lemma {:induction false} RunExtended(s: State, es: seq<Event>, e: Event)
    ensures Run(s, es + [e]) == Step(Run(s, es), e)
    ensures Possible(s, es + [e]) <==> Possible(s, es) && Enabled(Run(s, es), e)
    decreases |es|
  {
    if es == [] {
      assert [e][1..] == [] && es + [e] == [e];
    } else {
      assert (es + [e])[1..] == es[1..] + [e] && (es + [e])[0] == es[0];
      RunExtended(Step(s, es[0]), es[1..], e);
    }
  }

  /** In every run: every active thread is on exactly one list, with a status that fits; an unowned
      monitor blocks nobody; as many threads wait for a semaphore as its counter is below zero; the timer
      queue is in order and holds the timed sleepers; the current thread is in front of its list. */
  lemma {:induction false} RunInv(s: State, es: seq<Event>)
    requires Inv(s) && Possible(s, es)
    ensures Inv(Run(s, es))
    decreases |es|
  {
    if es != [] {
      StepInv(s, es[0]);
      RunInv(Step(s, es[0]), es[1..]);
    }
  }

  /** A thread is active if and only if it is on some list, and then it is on one list only, once; it
      counts as running if and only if that is the running list of its own priority. */
  lemma OnExactlyOneList(s: State, t: int)
    requires Inv(s) && t in s.threads
    ensures s.threads[t].state.Active? <==> exists p :: t in List(s, p)
    ensures forall p, q :: t in List(s, p) && t in List(s, q) ==> p == q
    ensures forall p :: Distinct(List(s, p))
    ensures IsRunning(s, t) <==> t in List(s, Running(s.threads[t].priority))
  {
    assert ThreadAt(s, t);
    forall p ensures (t in List(s, p) <==> t in s.place && s.place[t] == p) && Distinct(List(s, p)) {
      Member(s, t, p);
    }
    if t in s.place {
      assert t in List(s, s.place[t]);
    }
  }

  /** The system starts with the idle thread alone; the other threads are still to be started. */
  function Initial(idle: int, priority: nat, others: map<int, nat>): State {
    var threads := map t | t in others :: Thread(NotStarted, AsleepTimedOut, others[t], NULL, 0);
    State(map[Running(priority) := [idle]], map[idle := Running(priority)],
          threads[idle := Thread(Active, StatusRunning, priority, NULL, 0)], map[], map[], [], idle, idle)
  }

  lemma InitialInv(idle: int, priority: nat, others: map<int, nat>)
    requires idle != NULL && priority < PRIORITIES && NULL !in others
    ensures Inv(Initial(idle, priority, others))
  {
    var s := Initial(idle, priority, others);
    assert Placed(s) by {
      assert SitsAt(s, idle) && ListOk(s, Running(priority));
    }
    assert forall m :: MonitorAt(s, m);
    assert forall x :: SemaphoreAt(s, x);
    assert forall t :: t in s.threads ==> ThreadAt(s, t);
  }

  /** What the invariant leaves open: nobody has a monitor, a semaphore or a timer, and no thread but the
      idle one has started. */
  lemma InitialState(idle: int, priority: nat, others: map<int, nat>)
    ensures var s := Initial(idle, priority, others);
            && s.current == idle && s.idle == idle && s.timers == []
            && (forall p :: List(s, p) == if p == Running(priority) then [idle] else [])
            && (forall m :: MonitorOf(s, m).owner == NULL) && (forall x :: CounterOf(s, x) == 0)
    ensures var s := Initial(idle, priority, others);
            forall t :: && ThreadOf(s, t).priority == (if t == idle then priority else if t in others then others[t] else 0)
                        && (ThreadOf(s, t).state.Active? <==> t == idle) && !ThreadOf(s, t).state.Finished?
  {
  }

  // ---------- the depth at which a thread is inside a monitor ----------

  /** The step leaves the depth of thread t in monitor m alone, unless it lets t in for the first time;
      and it takes the monitor from no thread but the current one. */
  predicate DepthKept(s: State, s': State, m: int, t: int) {
    && (Depth(s', m, t) == Depth(s, m, t) || (Depth(s, m, t) == 0 && Depth(s', m, t) == 1))
    && (MonitorOf(s, m).owner == t && t != s.current ==> MonitorOf(s', m) == MonitorOf(s, m))
  }

  /** Neither the monitors nor what the threads wait for differ. */
  ghost predicate SameWaits(s: State, s': State) {
    && s'.monitors == s.monitors
    && forall t :: ThreadOf(s', t).waitMonitor == ThreadOf(s, t).waitMonitor && ThreadOf(s', t).waitDepth == ThreadOf(s, t).waitDepth
  }

  lemma SameWaitsKept(s: State, s': State, m: int, t: int)
    requires SameWaits(s, s') && m != NULL && t != NULL
    ensures DepthKept(s, s', m, t)
  {
    assert ThreadOf(s', t).waitMonitor == ThreadOf(s, t).waitMonitor;
  }

  lemma {:induction false} AllNotifiedWaits(s: State, m: int, l: seq<int>)
    ensures SameWaits(s, AllNotified(s, m, l))
    decreases |l|
  {
    if l != [] {
      AllNotifiedWaits(Notified(s, m, l[0]), m, l[1..]);
    }
  }

  lemma {:induction false} AllWokenWaits(s: State, l: seq<int>)
    ensures SameWaits(s, AllWoken(s, l))
    decreases |l|
  {
    if l != [] {
      AllWokenWaits(Woken(s, l[0]), l[1..]);
    }
  }

  /** The owner of monitor m is about to give it up: what it remembers is how deep it still is inside. */
  ghost predicate GivesUp(s: State, m: int) {
    var owner := MonitorOf(s, m).owner;
    && owner != NULL && (owner in s.place ==> s.place[owner] != BlockedOn(m))
    && MonitorOf(s, m).depth == if ThreadOf(s, owner).waitMonitor == m then ThreadOf(s, owner).waitDepth else 0
  }

  /** The first thread that is blocked on monitor m waits for no other monitor. */
  ghost predicate NextReady(s: State, m: int) {
    var l := List(s, BlockedOn(m));
    l != [] ==> l[0] != MonitorOf(s, m).owner && (ThreadOf(s, l[0]).waitMonitor == NULL || ThreadOf(s, l[0]).waitMonitor == m)
  }

  lemma NextBlocked(s: State, m: int)
    requires Placed(s) && Statuses(s) && (MonitorOf(s, m).owner in s.place ==> s.place[MonitorOf(s, m).owner] != BlockedOn(m))
    ensures NextReady(s, m)
  {
    var l := List(s, BlockedOn(m));
    if l != [] {
      Member(s, l[0], BlockedOn(m));
      assert l[0] in l && ThreadAt(s, l[0]);
    }
  }

  /** The next owner comes in at the depth it waited at, or for the first time. */
  lemma ReleasedDepth(s: State, m: int, n: int, t: int)
    requires m != NULL && n != NULL && t != NULL && GivesUp(s, m) && NextReady(s, m)
    ensures Depth(Released(s, m), n, t) == Depth(s, n, t) || (Depth(s, n, t) == 0 && Depth(Released(s, m), n, t) == 1)
    ensures n != m ==> MonitorOf(Released(s, m), n) == MonitorOf(s, n)
  {
  }

  lemma EnterKept(s: State, m: int, n: int, t: int)
    requires Inv(s) && m != NULL && n != NULL && t != NULL && !(n == m && t == s.current)
    ensures DepthKept(s, MonitorEnter(s, m), n, t)
  {
    if MonitorOf(s, m).owner != NULL && MonitorOf(s, m).owner != s.current {
      assert ThreadAt(s, s.current);
      SameWaitsKept(s, MonitorEnter(s, m), n, t);
    }
  }

  lemma ExitKept(s: State, m: int, n: int, t: int)
    requires Inv(s) && m != NULL && MonitorOf(s, m).owner == s.current && n != NULL && t != NULL && !(n == m && t == s.current)
    ensures DepthKept(s, MonitorExit(s, m), n, t)
  {
    assert ThreadAt(s, s.current) && MonitorAt(s, m);
    NextBlocked(s, m);
    ExitDepth(s, m, n, t);
  }

  lemma ExitDepth(s: State, m: int, n: int, t: int)
    requires m != NULL && MonitorOf(s, m).owner == s.current != NULL && MonitorOf(s, m).depth > 0 && NextReady(s, m)
    requires ThreadOf(s, s.current).waitMonitor == NULL && (s.current in s.place ==> s.place[s.current] != BlockedOn(m))
    requires n != NULL && t != NULL && !(n == m && t == s.current)
    ensures DepthKept(s, MonitorExit(s, m), n, t)
  {
    if MonitorOf(s, m).depth == 1 {
      var left := s.(monitors := s.monitors[m := MonitorOf(s, m).(depth := 0)]);
      ReleasedDepth(left, m, n, t);
      SwitchDepth(Released(left, m), n, t);
    }
  }

  lemma FallsAsleepDepth(s: State, m: int, timed: bool, deadline: int)
    requires Inv(s) && m != NULL && MonitorOf(s, m).owner == s.current && s.current != s.idle
    ensures var s' := FallsAsleep(s, m, timed, deadline);
            GivesUp(s', m) && NextReady(s', m) && s'.monitors == s.monitors
            && forall n, t :: n != NULL && t != NULL ==> Depth(s', n, t) == Depth(s, n, t)
  {
    assert ThreadAt(s, s.current) && MonitorAt(s, m);
    var s' := FallsAsleep(s, m, timed, deadline);
    FallsAsleepConsistent(s, m, timed, deadline);
    MovedPlaced(s, s.current, AsleepOn(m), s'.threads[s.current]);
    NextBlocked(s', m);
  }

  lemma WaitKept(s: State, m: int, timed: bool, deadline: int, n: int, t: int)
    requires Inv(s) && m != NULL && MonitorOf(s, m).owner == s.current && s.current != s.idle && n != NULL && t != NULL
    ensures DepthKept(s, MonitorWait(s, m, timed, deadline), n, t)
  {
    var asleep := FallsAsleep(s, m, timed, deadline);
    FallsAsleepDepth(s, m, timed, deadline);
    assert Depth(asleep, n, t) == Depth(s, n, t);
    ReleasedDepth(asleep, m, n, t);
  }

  lemma FiredKept(s: State, m: int, t: int)
    requires Consistent(s) && s.timers != [] && m != NULL && t != NULL
    ensures DepthKept(s, Fired(s), m, t)
  {
    FirstTimer(s);
    assert ThreadAt(s, s.timers[0].thread) && TimerAt(s, 0);
  }

  lemma {:induction false} UpdatedKept(s: State, now: int, m: int, t: int)
    requires Consistent(s) && m != NULL && t != NULL
    ensures DepthKept(s, Updated(s, now), m, t)
    decreases |s.timers|
  {
    if s.timers != [] && s.timers[0].time <= now {
      FiredKept(s, m, t);
      FiredConsistent(s);
      UpdatedKept(Fired(s), now, m, t);
    }
  }

  lemma StartKept(s: State, t: int, m: int, n: int, x: int)
    requires Inv(s) && t in s.threads && s.threads[t].state.NotStarted? && n != NULL && x != NULL
    ensures DepthKept(s, ScheduleNewThread(s, t, m), n, x)
  {
    assert ThreadAt(s, t);
  }

  /** No step changes how deep a thread is inside a monitor, but its own entries and exits and its first
      entry; and no step takes a monitor from a thread that is not current. */
  lemma StepKept(s: State, e: Event, m: int, t: int)
    requires Inv(s) && Enabled(s, e) && m != NULL && t != NULL
    requires !(t == s.current && (e == Enter(m) || e == Exit(m)))
    ensures DepthKept(s, Step(s, e), m, t)
  {
    match e
    case Enter(n) => EnterKept(s, n, m, t);
    case Exit(n) => ExitKept(s, n, m, t);
    case Wait(n, timed, deadline) => WaitKept(s, n, timed, deadline, m, t);
    case Start(x, n) => StartKept(s, x, n, m, t);
    case TurnEnds(expired, now) => TickKept(s, expired, now, m, t);
    case Interrupted(expired, now) => InterruptKept(s, expired, now, m, t);
    case _ =>
      StepWaits(s, e);
      SameWaitsKept(s, Step(s, e), m, t);
  }

  /** Which thread runs makes no difference. */
  lemma SwitchDepth(s: State, m: int, t: int)
    ensures Depth(Conditional(s), m, t) == Depth(s, m, t) && MonitorOf(Conditional(s), m) == MonitorOf(s, m)
  {
    assert Conditional(s).monitors == s.monitors && Conditional(s).threads == s.threads;
  }

  lemma TurnDepth(s: State, p: Place, m: int, t: int)
    ensures Depth(Generated(Rotated(s, p)), m, t) == Depth(s, m, t) && MonitorOf(Generated(Rotated(s, p)), m) == MonitorOf(s, m)
  {
    assert Generated(Rotated(s, p)).monitors == s.monitors && Generated(Rotated(s, p)).threads == s.threads;
  }

  lemma SwitchKept(s: State, s1: State, p: Place, m: int, t: int)
    requires DepthKept(s, s1, m, t)
    ensures DepthKept(s, Conditional(s1), m, t) && DepthKept(s, Generated(Rotated(s1, p)), m, t)
  {
    SwitchDepth(s1, m, t);
    TurnDepth(s1, p, m, t);
  }

  lemma ClockedKept(s: State, expired: bool, now: int, m: int, t: int)
    requires Consistent(s) && m != NULL && t != NULL
    ensures DepthKept(s, Clocked(s, expired, now), m, t)
  {
    UpdatedKept(s, now, m, t);
  }

  lemma TickKept(s: State, expired: bool, now: int, m: int, t: int)
    requires Consistent(s) && m != NULL && t != NULL
    ensures DepthKept(s, Tick(s, expired, now), m, t)
  {
    var fired := Clocked(s, expired, now);
    ClockedKept(s, expired, now, m, t);
    SwitchKept(s, fired, Running(ThreadOf(fired, fired.current).priority), m, t);
  }

  lemma InterruptKept(s: State, expired: bool, now: int, m: int, t: int)
    requires Consistent(s) && m != NULL && t != NULL
    ensures DepthKept(s, Interrupt(s, expired, now), m, t)
  {
    ClockedKept(s, expired, now, m, t);
    SwitchKept(s, Clocked(s, expired, now), Sleeping, m, t);
  }

  lemma StepWaits(s: State, e: Event)
    requires !e.Enter? && !e.Exit? && !e.Wait? && !e.Start? && !e.TurnEnds? && !e.Interrupted?
    ensures SameWaits(s, Step(s, e))
  {
    match e
    case NotifyAll(m) => NotifyAllWaits(s, m);
    case Notify(m) => NotifyWaits(s, m);
    case Die => DieWaits(s);
    case Prioritize(t, p) => PrioritizeWaits(s, t, p);
    case Post(x) => PostWaits(s, x);
    case Pend(x) => PendWaits(s, x);
    case YieldWeakly => SwitchWaits(s, s);
    case YieldStrongly => SwitchWaits(s, Rotated(s, Running(ThreadOf(s, s.current).priority)));
    case Sleep(deadline) => SleepWaits(s, deadline);
    case Join(t) => JoinWaits(s, t);
  }

  lemma SleepWaits(s: State, deadline: int)
    ensures SameWaits(s, ThreadSleep(s, deadline))
  {
    SwitchWaits(s, Asleep(s, deadline));
  }

  lemma JoinWaits(s: State, t: int)
    ensures SameWaits(s, ThreadJoin(s, t))
  {
    SwitchWaits(s, Joins(s, t));
  }

  lemma PrioritizeWaits(s: State, t: int, p: nat)
    ensures SameWaits(s, SetPriority(s, t, p))
  {
    MovedWaits(s, s, t, Running(p), ThreadOf(s, t).(priority := p));
  }

  lemma PendWaits(s: State, x: int)
    ensures SameWaits(s, SemaphorePend(s, x))
  {
    SwitchWaits(s, Pends(s, x));
  }

  lemma NotifyAllWaits(s: State, m: int)
    ensures SameWaits(s, MonitorNotifyAll(s, m))
  {
    AllNotifiedWaits(s, m, List(s, AsleepOn(m)));
    SwitchWaits(s, AllNotified(s, m, List(s, AsleepOn(m))));
  }

  lemma NotifyWaits(s: State, m: int)
    ensures SameWaits(s, MonitorNotify(s, m))
  {
    var l := List(s, AsleepOn(m));
    if l != [] {
      MovedWaits(s, s, l[0], BlockedOn(m), ThreadOf(s, l[0]));
      SwitchWaits(s, Notified(s, m, l[0]));
    }
  }

  lemma DieWaits(s: State)
    ensures SameWaits(s, RemoveThread(s))
  {
    AllWokenWaits(s, List(s, Joining(s.current)));
    DiedWaits(s, AllWoken(s, List(s, Joining(s.current))));
  }

  lemma PostWaits(s: State, x: int)
    ensures SameWaits(s, SemaphorePost(s, x))
  {
    var l := List(s, Pending(x));
    if l != [] {
      var d := ThreadOf(s, l[0]);
      MovedWaits(s, Counted(s, x, 1), l[0], Running(d.priority), d.(status := StatusRunning));
    }
  }

  lemma SwitchWaits(s: State, s1: State)
    requires SameWaits(s, s1)
    ensures SameWaits(s, Conditional(s1)) && SameWaits(s, Generated(s1))
  {
  }

  lemma DiedWaits(s: State, s1: State)
    requires SameWaits(s, s1)
    ensures SameWaits(s, Generated(Died(s1)))
  {
    assert ThreadOf(s1, s1.current).waitMonitor == ThreadOf(s, s1.current).waitMonitor;
  }

  lemma MovedWaits(s: State, s1: State, t: int, p: Place, data: Thread)
    requires SameWaits(s, s1) && s1.threads == s.threads
    requires data.waitMonitor == ThreadOf(s, t).waitMonitor && data.waitDepth == ThreadOf(s, t).waitDepth
    ensures SameWaits(s, Moved(s1, t, p, data)) && SameWaits(s, Conditional(Moved(s1, t, p, data)))
  {
    SwitchWaits(s, Moved(s1, t, p, data));
  }

  /** In none of the steps does thread t itself enter or leave monitor m. */
  ghost predicate StaysOut(s: State, es: seq<Event>, m: int, t: int)
    decreases |es|
  {
    es == [] || (!(t == s.current && (es[0] == Enter(m) || es[0] == Exit(m))) && StaysOut(Step(s, es[0]), es[1..], m, t))
  }

  lemma {:induction false} RunDepth(s: State, es: seq<Event>, m: int, t: int)
    requires Inv(s) && Possible(s, es) && m != NULL && t != NULL && StaysOut(s, es, m, t) && Depth(s, m, t) > 0
    ensures Depth(Run(s, es), m, t) == Depth(s, m, t)
    decreases |es|
  {
    if es != [] {
      StepInv(s, es[0]);
      StepKept(s, es[0], m, t);
      RunDepth(Step(s, es[0]), es[1..], m, t);
    }
  }

  /** A thread that waits on a monitor at depth d owns it at depth d whenever it owns it next, whether it
      was notified or its time-out expired and whatever the other threads did in between. */
  lemma WaitResumes(s: State, s1: State, es: seq<Event>, m: int, timed: bool, deadline: int)
    requires Inv(s) && Enabled(s, Wait(m, timed, deadline)) && s1 == MonitorWait(s, m, timed, deadline)
    requires Possible(s1, es) && StaysOut(s1, es, m, s.current)
    ensures var s' := Run(s1, es); MonitorOf(s', m).owner == s.current ==> MonitorOf(s', m).depth == MonitorOf(s, m).depth
  {
    assert MonitorAt(s, m) && ThreadAt(s, s.current);
    MonitorWaitInv(s, m, timed, deadline);
    WaitKept(s, m, timed, deadline, m, s.current);
    assert Depth(s, m, s.current) == MonitorOf(s, m).depth > 0;
    RunDepth(s1, es, m, s.current);
  }
}
