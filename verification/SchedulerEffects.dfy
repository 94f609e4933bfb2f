/** What every step of the scheduler does to every list, said in terms of the lists before it. */
module SchedulerEffects {
  import opened Basics
  import opened LinkedLists
  import opened SchedulerState
  import opened SchedulerOps
  import opened Timeouts
  import opened ThreadOps
  import opened SchedulerRuns

  // ---------- where the threads go ----------

  /** The list of the threads of l that have the priority of running list p. */
  function AtPriority(s: State, l: seq<int>, p: Place): seq<int> {
    if l == [] then []
    else (if p == Running(ThreadOf(s, l[0]).priority) then [l[0]] else []) + AtPriority(s, l[1..], p)
  }

  /** List l at place p, after the thread t has gone from wherever it was to the end of list q. */
  function Gone(s: State, t: int, q: Place, p: Place): seq<int> {
    LeftOver(s, t, p) + if p == q then [t] else []
  }

  function Rest(l: seq<int>): seq<int> {
    if l == [] then [] else l[1..]
  }

  function First(l: seq<int>): seq<int> {
    if l == [] then [] else l[..1]
  }

  /** List p, which would be l, after the front thread of list from has become runnable. */
  function FrontWoken(s: State, from: Place, l: seq<int>, p: Place): seq<int> {
    if p == from then Rest(l) else l + AtPriority(s, First(List(s, from)), p)
  }

  predicate MustBlock(s: State, m: int) {
    MonitorOf(s, m).owner != NULL && MonitorOf(s, m).owner != s.current
  }

  /** Who a clock tick wakes. */
  function DueTimers(s: State, expired: bool, now: int): seq<Timer> {
    if expired then s.timers[..Due(s.timers, now)] else []
  }

  /** What list p is when every thread that the event concerns has gone where it goes. */
  function Settled(s: State, e: Event, p: Place): seq<int> {
    var l, t := List(s, p), s.current;
    match e
    case Enter(m) => if MustBlock(s, m) then Gone(s, t, BlockedOn(m), p) else l
    case Exit(m) => if MonitorOf(s, m).depth > 1 then l else FrontWoken(s, BlockedOn(m), l, p)
    case Wait(m, _, _) => FrontWoken(s, BlockedOn(m), Gone(s, t, AsleepOn(m), p), p)
    case Notify(m) =>
      if p == AsleepOn(m) then Rest(l) else if p == BlockedOn(m) then l + First(List(s, AsleepOn(m))) else l
    case NotifyAll(m) =>
      if p == AsleepOn(m) then [] else if p == BlockedOn(m) then l + List(s, AsleepOn(m)) else l
    case Sleep(_) => Gone(s, t, Sleeping, p)
    case YieldWeakly => l
    case YieldStrongly => l
    case Join(x) => Gone(s, t, Joining(x), p)
    case Die => if p == Joining(t) then [] else LeftOver(s, t, p) + AtPriority(s, List(s, Joining(t)), p)
    case Start(x, m) =>
      l + if p == (if m != NULL && MonitorOf(s, m).owner != NULL then BlockedOn(m) else Running(ThreadOf(s, x).priority)) then [x] else []
    case Prioritize(x, priority) => if IsRunning(s, x) then Gone(s, x, Running(priority), p) else l
    case Post(x) => if CounterOf(s, x) < 0 then FrontWoken(s, Pending(x), l, p) else l
    case Pend(x) =>
      if CounterOf(s, x) > 0 then l
      else if p == Pending(x) then Inserted(l, SortedPosition(PrioritiesOf(s, l), ThreadOf(s, t).priority, ByPriority), t)
      else LeftOver(s, t, p)
    case TurnEnds(expired, now) => Arrived(s, DueTimers(s, expired, now), p)
    case Interrupted(expired, now) => Arrived(s, DueTimers(s, expired, now), p)
  }

  /** List p once the threads with due timers have left the lists they slept on and joined others. */
  function Arrived(s: State, due: seq<Timer>, p: Place): seq<int> {
    if p.Running? || p.BlockedOn? then List(s, p) + Arrivals(s, due, due, p) else Remaining(List(s, p), due)
  }

  /** The front of a list goes to its end. */
  function Turn(l: seq<int>): seq<int> {
    if l == [] then [] else l[1..] + [l[0]]
  }

  /** The events that turn the list of the current thread whether another one is to run or not. */
  predicate AlwaysTurns(e: Event) {
    e.YieldStrongly? || e.TurnEnds?
  }

  /** The current thread has not gone anywhere, but another one runs next. */
  predicate Displaced(s: State, e: Event, next: int) {
    next != s.current && !e.Wait? && !e.Sleep? && !e.Join? && !e.Die? && !e.Enter? && !e.Pend?
  }

  /** The priority that the current thread has after the event. */
  function OwnPriority(s: State, e: Event): nat {
    if e.Prioritize? && e.thread == s.current then e.priority else ThreadOf(s, s.current).priority
  }

  /** List p after the step, when thread next runs then: settled, and turned if it is the list of the
      current thread and that thread has ended its turn or makes way for another one. */
  function ListAfter(s: State, e: Event, next: int, p: Place): seq<int> {
    var l := Settled(s, e, p);
    if p == Running(OwnPriority(s, e)) && (AlwaysTurns(e) || Displaced(s, e, next)) then Turn(l) else l
  }

  // ---------- every step ----------

  /** The lists of s' are those of s1, with the list of the current thread turned if another thread runs. */
  lemma ConditionalLists(s1: State)
    requires s1.current in s1.threads
    ensures var s', mine := Conditional(s1), Running(ThreadOf(s1, s1.current).priority);
            && s'.threads == s1.threads && s'.place == s1.place
            && forall p :: List(s', p) == if p == mine && s'.current != s1.current then Turn(List(s1, p)) else List(s1, p)
  {
  }

  lemma FrontLeaves(s: State, p: Place)
    requires Placed(s) && List(s, p) != []
    ensures var t := List(s, p)[0]; t in s.place && s.place[t] == p
    ensures forall q :: LeftOver(s, List(s, p)[0], q) == if q == p then Rest(List(s, p)) else List(s, q)
  {
    var t := List(s, p)[0];
    Member(s, t, p);
    assert t in List(s, p);
    FrontWithout(List(s, p), t);
  }

  /** The front thread of a list becomes runnable. */
  lemma WokenLists(s: State, from: Place, t: int, data: Thread)
    requires Placed(s) && !from.Running? && List(s, from) != [] && t == List(s, from)[0] && data.priority == ThreadOf(s, t).priority
    ensures forall p :: List(Moved(s, t, Running(data.priority), data), p) == FrontWoken(s, from, List(s, p), p)
  {
    FrontLeaves(s, from);
    MovedLists(s, t, Running(data.priority), data);
    forall p ensures AtPriority(s, First(List(s, from)), p) == if p == Running(data.priority) then [t] else [] {
      assert First(List(s, from))[1..] == [];
    }
  }

  lemma ReleasedLists(s: State, m: int)
    requires Placed(s)
    ensures forall p :: List(Released(s, m), p) == FrontWoken(s, BlockedOn(m), List(s, p), p)
  {
    var l := List(s, BlockedOn(m));
    if l != [] {
      var t, d := l[0], ThreadOf(s, l[0]);
      var given := s.(monitors := s.monitors[m := Monitor(t, if d.waitMonitor != NULL then d.waitDepth else 1)]);
      SamePlaced(s, given);
      WokenLists(given, BlockedOn(m), t, d.(waitMonitor := NULL, status := StatusRunning));
      forall p ensures FrontWoken(given, BlockedOn(m), List(given, p), p) == FrontWoken(s, BlockedOn(m), List(s, p), p) {
        SameAtPriority(s, given, First(l), p);
      }
    }
  }

  lemma {:induction false} SameAtPriority(s: State, s': State, l: seq<int>, p: Place)
    requires forall t :: t in l ==> ThreadOf(s', t).priority == ThreadOf(s, t).priority
    ensures AtPriority(s', l, p) == AtPriority(s, l, p)
  {
    if l != [] {
      assert l[0] in l;
      SameAtPriority(s, s', l[1..], p);
    }
  }

  /** The lists of s1 are settled, and the current thread is on none of the running ones. */
  lemma GeneratedLists(s: State, e: Event, s1: State, p: Place)
    requires e.Wait? || e.Sleep? || e.Join? || e.Die? || e.Enter? || e.Pend?
    requires List(s1, p) == Settled(s, e, p)
    ensures List(Generated(s1), p) == ListAfter(s, e, Generated(s1).current, p)
  {
  }

  lemma EnterLists(s: State, m: int, p: Place)
    requires Placed(s)
    ensures List(MonitorEnter(s, m), p) == ListAfter(s, Enter(m), MonitorEnter(s, m).current, p)
  {
    if MustBlock(s, m) {
      MovedLists(s, s.current, BlockedOn(m), ThreadOf(s, s.current).(status := BlockedOnMonitor));
      GeneratedLists(s, Enter(m), BlockedAsCurrent(s, m), p);
    }
  }

  /** The data of thread t are the same, and it is current in both states or in neither. */
  predicate SameData(s: State, s': State, t: int) {
    ThreadOf(s', t) == ThreadOf(s, t) && (t in s.threads ==> t in s'.threads)
  }

  lemma ReleasedData(s: State, m: int, t: int)
    requires List(s, BlockedOn(m)) != [] ==> List(s, BlockedOn(m))[0] != t
    ensures SameData(s, Released(s, m), t) && Released(s, m).current == s.current
  {
  }

  lemma HandedOver(s: State, left: State, m: int, p: Place)
    requires Placed(s) && left == s.(monitors := left.monitors)
    ensures List(Released(left, m), p) == FrontWoken(s, BlockedOn(m), List(s, p), p)
  {
    SamePlaced(s, left);
    ReleasedLists(left, m);
    SameAtPriority(s, left, First(List(s, BlockedOn(m))), p);
  }

  lemma ExitLists(s: State, m: int, p: Place)
    requires Inv(s) && m != NULL && MonitorOf(s, m).owner == s.current
    ensures List(MonitorExit(s, m), p) == ListAfter(s, Exit(m), MonitorExit(s, m).current, p)
  {
    var left := s.(monitors := s.monitors[m := MonitorOf(s, m).(depth := MonitorOf(s, m).depth - 1)]);
    assert MonitorAt(s, m);
    HandedOver(s, left, m, p);
    if MonitorOf(s, m).depth == 1 && List(s, BlockedOn(m)) != [] {
      NotFrontBlocked(s, m);
      ReleasedData(left, m, s.current);
      SwitchedLists(s, Exit(m), Released(left, m), p);
    } else if MonitorOf(s, m).depth == 1 {
      NobodyWoken(s, BlockedOn(m), p);
    }
  }

  lemma NobodyWoken(s: State, from: Place, p: Place)
    requires List(s, from) == []
    ensures FrontWoken(s, from, List(s, p), p) == List(s, p)
  {
  }

  /** The lists of s1 are settled, and then another thread may be switched to. */
  lemma SwitchedLists(s: State, e: Event, s1: State, p: Place)
    requires s1.current == s.current && s.current in s1.threads && !AlwaysTurns(e)
    requires !e.Wait? && !e.Sleep? && !e.Join? && !e.Die? && !e.Enter? && !e.Pend?
    requires ThreadOf(s1, s.current).priority == OwnPriority(s, e)
    requires List(s1, p) == Settled(s, e, p)
    ensures List(Conditional(s1), p) == ListAfter(s, e, Conditional(s1).current, p)
  {
    ConditionalLists(s1);
  }

  /** The owner of a monitor is not the first thread that is blocked on it. */
  lemma NotFrontBlocked(s: State, m: int)
    requires Placed(s) && MonitorAt(s, m) && MonitorOf(s, m).owner != NULL && List(s, BlockedOn(m)) != []
    ensures List(s, BlockedOn(m))[0] != MonitorOf(s, m).owner
  {
    FrontLeaves(s, BlockedOn(m));
  }

  lemma AsleepLists(s: State, m: int, timed: bool, deadline: int, p: Place)
    requires Inv(s) && m != NULL && MonitorOf(s, m).owner == s.current && s.current != s.idle
    ensures var asleep := FallsAsleep(s, m, timed, deadline);
            && Placed(asleep) && List(asleep, p) == Gone(s, s.current, AsleepOn(m), p)
            && forall t :: ThreadOf(asleep, t).priority == ThreadOf(s, t).priority
  {
    FallsAsleepConsistent(s, m, timed, deadline);
    MovedLists(s, s.current, AsleepOn(m), FallsAsleep(s, m, timed, deadline).threads[s.current]);
  }

  lemma AsleepReleased(s: State, asleep: State, m: int, p: Place)
    requires Placed(asleep) && List(asleep, BlockedOn(m)) == List(s, BlockedOn(m))
    requires List(asleep, p) == Gone(s, s.current, AsleepOn(m), p)
    requires forall t :: ThreadOf(asleep, t).priority == ThreadOf(s, t).priority
    ensures List(Released(asleep, m), p) == FrontWoken(s, BlockedOn(m), Gone(s, s.current, AsleepOn(m), p), p)
  {
    ReleasedLists(asleep, m);
    SameAtPriority(s, asleep, First(List(s, BlockedOn(m))), p);
  }

  lemma WaitLists(s: State, m: int, timed: bool, deadline: int, p: Place)
    requires Inv(s) && m != NULL && MonitorOf(s, m).owner == s.current && s.current != s.idle
    ensures List(MonitorWait(s, m, timed, deadline), p) == ListAfter(s, Wait(m, timed, deadline), MonitorWait(s, m, timed, deadline).current, p)
  {
    var asleep := FallsAsleep(s, m, timed, deadline);
    AsleepLists(s, m, timed, deadline, p);
    AsleepLists(s, m, timed, deadline, BlockedOn(m));
    AsleepReleased(s, asleep, m, p);
    GeneratedLists(s, Wait(m, timed, deadline), Released(asleep, m), p);
  }

  lemma FirstNotifiedLists(s: State, m: int, p: Place)
    requires Placed(s) && List(s, AsleepOn(m)) != []
    ensures var l, s1 := List(s, AsleepOn(m)), Notified(s, m, List(s, AsleepOn(m))[0]);
            List(s1, p) == if p == AsleepOn(m) then Rest(l) else if p == BlockedOn(m) then List(s, p) + First(l) else List(s, p)
  {
    var l := List(s, AsleepOn(m));
    FrontLeaves(s, AsleepOn(m));
    MovedLists(s, l[0], BlockedOn(m), ThreadOf(s, l[0]));
  }

  lemma NotifyLists(s: State, m: int, p: Place)
    requires Placed(s) && s.current in s.threads
    ensures List(MonitorNotify(s, m), p) == ListAfter(s, Notify(m), MonitorNotify(s, m).current, p)
  {
    var l := List(s, AsleepOn(m));
    if l != [] {
      FirstNotifiedLists(s, m, p);
      SwitchedLists(s, Notify(m), Notified(s, m, l[0]), p);
    }
  }

  lemma {:induction false} AllNotifiedOthers(s: State, m: int, l: seq<int>, p: Place)
    requires Inv(s) && m != NULL && MonitorOf(s, m).owner != NULL && l == List(s, AsleepOn(m))
    ensures p != AsleepOn(m) && p != BlockedOn(m) ==> List(AllNotified(s, m, l), p) == List(s, p)
    ensures AllNotified(s, m, l).threads == s.threads
    decreases |l|
  {
    if l != [] {
      FirstNotified(s, m, l);
      FirstNotifiedLists(s, m, p);
      FrontLeaves(s, AsleepOn(m));
      assert ThreadAt(s, l[0]) && s.threads[l[0] := ThreadOf(s, l[0])] == s.threads;
      AllNotifiedOthers(Notified(s, m, l[0]), m, l[1..], p);
    }
  }

  lemma AllNotifiedKnown(s: State, m: int, p: Place)
    requires Inv(s) && m != NULL && MonitorOf(s, m).owner != NULL
    ensures var s1, l := AllNotified(s, m, List(s, AsleepOn(m))), List(s, AsleepOn(m));
            && List(s1, AsleepOn(m)) == [] && List(s1, BlockedOn(m)) == List(s, BlockedOn(m)) + l
            && (p != AsleepOn(m) && p != BlockedOn(m) ==> List(s1, p) == List(s, p))
            && s1.current == s.current && s1.threads == s.threads && s.current in s.threads
  {
    var l := List(s, AsleepOn(m));
    AllNotifiedInv(s, m, l);
    AllNotifiedLists(s, m, l);
    AllNotifiedOthers(s, m, l, p);
  }

  lemma NobodyNotified(s: State, m: int, p: Place)
    requires List(s, AsleepOn(m)) == []
    ensures List(MonitorNotifyAll(s, m), p) == ListAfter(s, NotifyAll(m), MonitorNotifyAll(s, m).current, p)
  {
  }

  lemma NotifyAllLists(s: State, m: int, p: Place)
    requires Inv(s) && m != NULL && MonitorOf(s, m).owner != NULL
    ensures List(MonitorNotifyAll(s, m), p) == ListAfter(s, NotifyAll(m), MonitorNotifyAll(s, m).current, p)
  {
    AllNotifiedKnown(s, m, p);
    AllNotifiedAfter(s, m, p);
  }

  lemma AllNotifiedAfter(s: State, m: int, p: Place)
    requires var s1, l := AllNotified(s, m, List(s, AsleepOn(m))), List(s, AsleepOn(m));
             && List(s1, AsleepOn(m)) == [] && List(s1, BlockedOn(m)) == List(s, BlockedOn(m)) + l
             && (p != AsleepOn(m) && p != BlockedOn(m) ==> List(s1, p) == List(s, p))
             && s1.current == s.current && s1.threads == s.threads && s.current in s.threads
    ensures List(MonitorNotifyAll(s, m), p) == ListAfter(s, NotifyAll(m), MonitorNotifyAll(s, m).current, p)
  {
    if List(s, AsleepOn(m)) == [] {
      NobodyNotified(s, m, p);
    } else {
      SwitchedLists(s, NotifyAll(m), AllNotified(s, m, List(s, AsleepOn(m))), p);
    }
  }

  lemma SleepLists(s: State, deadline: int, p: Place)
    requires Placed(s)
    ensures List(ThreadSleep(s, deadline), p) == ListAfter(s, Sleep(deadline), ThreadSleep(s, deadline).current, p)
  {
    var armed := s.(timers := WithTimer(s.timers, Timer(s.current, ThreadSleepExpired, deadline)));
    SamePlaced(s, armed);
    MovedLists(armed, s.current, Sleeping, ThreadOf(s, s.current).(status := AsleepTimedOut));
    GeneratedLists(s, Sleep(deadline), Asleep(s, deadline), p);
  }

  lemma YieldLists(s: State, p: Place)
    requires s.current in s.threads
    ensures List(Conditional(s), p) == ListAfter(s, YieldWeakly, Conditional(s).current, p)
  {
    SwitchedLists(s, YieldWeakly, s, p);
  }

  lemma StrongYieldLists(s: State, p: Place)
    requires s.current in s.threads
    ensures List(StrongYield(s), p) == ListAfter(s, YieldStrongly, StrongYield(s).current, p)
  {
    var turned := Rotated(s, Running(ThreadOf(s, s.current).priority));
    assert List(StrongYield(s), p) == List(turned, p) && StrongYield(s).threads == s.threads;
  }

  lemma JoinLists(s: State, t: int, p: Place)
    requires Placed(s)
    ensures List(ThreadJoin(s, t), p) == ListAfter(s, Join(t), ThreadJoin(s, t).current, p)
  {
    MovedLists(s, s.current, Joining(t), ThreadOf(s, s.current).(status := BlockedOnThreadDeath));
    GeneratedLists(s, Join(t), Joins(s, t), p);
  }

  lemma FirstWokenLists(s: State, x: int, l: seq<int>, p: Place)
    requires Inv(s) && l == List(s, Joining(x)) && l != []
    ensures var s1 := Woken(s, l[0]);
            && (p != Joining(x) ==> List(s1, p) == List(s, p) + AtPriority(s, First(l), p))
            && forall t :: ThreadOf(s1, t).priority == ThreadOf(s, t).priority
  {
    WokenLists(s, Joining(x), l[0], ThreadOf(s, l[0]).(status := StatusRunning));
  }

  lemma {:induction false} AllWokenLists(s: State, x: int, l: seq<int>, p: Place)
    requires Inv(s) && l == List(s, Joining(x)) && p != Joining(x)
    ensures List(AllWoken(s, l), p) == List(s, p) + AtPriority(s, l, p)
    decreases |l|
  {
    if l != [] {
      var s1, rest := Woken(s, l[0]), l[1..];
      FirstWoken(s, x, l);
      FirstWokenLists(s, x, l, p);
      AllWokenLists(s1, x, rest, p);
      SameAtPriority(s, s1, rest, p);
      FirstAtPriority(s, l, p);
      Associative(List(s, p), AtPriority(s, First(l), p), AtPriority(s, rest, p));
    }
  }

  lemma Associative(a: seq<int>, b: seq<int>, c: seq<int>)
    ensures a + b + c == a + (b + c)
  {
  }

  lemma FirstAtPriority(s: State, l: seq<int>, p: Place)
    requires l != []
    ensures AtPriority(s, l, p) == AtPriority(s, First(l), p) + AtPriority(s, l[1..], p)
  {
    assert First(l)[1..] == [];
  }

  lemma DiedLists(s: State, p: Place)
    requires Placed(s) && s.current in s.place
    ensures List(Generated(Died(s)), p) == LeftOver(s, s.current, p)
  {
    TookPlaced(s, s.current);
  }

  lemma DiedSettled(s: State, woken: State, p: Place)
    requires CurrentInFront(s) && woken.current == s.current && s.current in woken.place && woken.place[s.current] == s.place[s.current]
    requires List(woken, p) == List(s, p) + AtPriority(s, List(s, Joining(s.current)), p)
    ensures LeftOver(woken, s.current, p) == LeftOver(s, s.current, p) + AtPriority(s, List(s, Joining(s.current)), p)
  {
    if s.place[s.current] == p {
      FrontWithout(List(s, p), s.current);
      FrontWithout(List(woken, p), s.current);
    }
  }

  lemma DiedAfter(s: State, woken: State, p: Place)
    requires Placed(woken) && CurrentInFront(s) && woken.current == s.current && List(woken, Joining(s.current)) == []
    requires s.current in woken.place && woken.place[s.current] == s.place[s.current] && s.place[s.current] != Joining(s.current)
    requires p != Joining(s.current) ==> List(woken, p) == List(s, p) + AtPriority(s, List(s, Joining(s.current)), p)
    ensures List(Generated(Died(woken)), p) == ListAfter(s, Die, Generated(Died(woken)).current, p)
  {
    DiedLists(woken, p);
    if p != Joining(s.current) {
      DiedSettled(s, woken, p);
    }
    GeneratedLists(s, Die, Died(woken), p);
  }

  lemma JoinersWoken(s: State)
    requires Inv(s)
    ensures var woken := AllWoken(s, List(s, Joining(s.current)));
            && Placed(woken) && woken.current == s.current && List(woken, Joining(s.current)) == []
            && s.current in woken.place && woken.place[s.current] == s.place[s.current]
            && s.place[s.current] != Joining(s.current)
  {
    AllWokenInv(s, s.current, List(s, Joining(s.current)));
  }

  lemma DieLists(s: State, p: Place)
    requires Inv(s) && s.current != s.idle
    ensures List(RemoveThread(s), p) == ListAfter(s, Die, RemoveThread(s).current, p)
  {
    var woken := AllWoken(s, List(s, Joining(s.current)));
    JoinersWoken(s);
    if p != Joining(s.current) {
      AllWokenLists(s, s.current, List(s, Joining(s.current)), p);
    }
    DiedAfter(s, woken, p);
  }

  lemma StartsInsideLists(s: State, t: int, m: int, d: Thread, p: Place)
    requires Placed(s) && t !in s.place
    ensures List(Moved(s.(monitors := s.monitors[m := Monitor(t, 1)]), t, Running(d.priority), d), p) ==
              List(s, p) + if p == Running(d.priority) then [t] else []
  {
    var given := s.(monitors := s.monitors[m := Monitor(t, 1)]);
    SamePlaced(s, given);
    MovedLists(given, t, Running(d.priority), d);
  }

  lemma StartLists(s: State, t: int, m: int, p: Place)
    requires Placed(s) && t !in s.place
    ensures List(ScheduleNewThread(s, t, m), p) == ListAfter(s, Start(t, m), ScheduleNewThread(s, t, m).current, p)
  {
    var d := ThreadOf(s, t).(state := Active);
    if m == NULL {
      MovedLists(s, t, Running(d.priority), d.(status := StatusRunning));
    } else if MonitorOf(s, m).owner == NULL {
      StartsInsideLists(s, t, m, d.(status := StatusRunning), p);
    } else {
      MovedLists(s, t, BlockedOn(m), d.(status := BlockedOnMonitor));
    }
    assert ScheduleNewThread(s, t, m).current == s.current;
  }

  lemma PriorityLists(s: State, t: int, priority: nat, p: Place)
    requires Inv(s) && t in s.threads
    ensures List(SetPriority(s, t, priority), p) == ListAfter(s, Prioritize(t, priority), SetPriority(s, t, priority).current, p)
  {
    if IsRunning(s, t) {
      MovedLists(s, t, Running(priority), ThreadOf(s, t).(priority := priority));
      SwitchedLists(s, Prioritize(t, priority), Reprioritized(s, t, priority), p);
    }
  }

  lemma PostedLists(s: State, x: int, p: Place)
    requires Placed(s) && List(s, Pending(x)) != []
    ensures var up, t := Counted(s, x, 1), List(s, Pending(x))[0];
            && List(Woken(up, t), p) == FrontWoken(s, Pending(x), List(s, p), p)
            && (s.current in s.threads ==> s.current in Woken(up, t).threads) && Woken(up, t).current == s.current
  {
    var up, l := Counted(s, x, 1), List(s, Pending(x));
    SamePlaced(s, up);
    WokenLists(up, Pending(x), l[0], ThreadOf(s, l[0]).(status := StatusRunning));
    SameAtPriority(s, up, First(l), p);
  }

  lemma PostLists(s: State, x: int, p: Place)
    requires Inv(s)
    ensures List(SemaphorePost(s, x), p) == ListAfter(s, Post(x), SemaphorePost(s, x).current, p)
  {
    assert SemaphoreAt(s, x);
    if CounterOf(s, x) < 0 {
      PostedLists(s, x, p);
      SwitchedLists(s, Post(x), Woken(Counted(s, x, 1), List(s, Pending(x))[0]), p);
    }
  }

  lemma PendLists(s: State, x: int, p: Place)
    requires Placed(s) && s.current in s.place && s.place[s.current] != Pending(x)
    ensures List(SemaphorePend(s, x), p) == ListAfter(s, Pend(x), SemaphorePend(s, x).current, p)
  {
    if CounterOf(s, x) <= 0 {
      var down := Counted(s, x, -1);
      SamePlaced(s, down);
      MovedSortedLists(down, s.current, Pending(x), ThreadOf(s, s.current).(status := BlockedOnSemaphore));
      assert PrioritiesOf(down, List(s, Pending(x))) == PrioritiesOf(s, List(s, Pending(x)));
      GeneratedLists(s, Pend(x), Pends(s, x), p);
    }
  }

  /** No timer changes a priority. */
  lemma ClockedPriority(s: State, expired: bool, now: int, t: int)
    requires Consistent(s)
    ensures ThreadOf(Clocked(s, expired, now), t).priority == ThreadOf(s, t).priority
  {
    if expired {
      var due := s.timers[..Due(s.timers, now)];
      UpdateData(s, now);
      if HasTimer(due, t) {
        var i :| 0 <= i < |due| && due[i].thread == t;
        assert DataAt(s, Updated(s, now), due, i);
      }
    }
  }

  /** What a tick does to the lists, for a queue that is looked at or is not. */
  lemma ClockedLists(s: State, expired: bool, now: int, p: Place)
    requires Inv(s)
    ensures var fired := Clocked(s, expired, now);
            && Inv(fired) && fired.current == s.current
            && List(fired, p) == Arrived(s, DueTimers(s, expired, now), p)
  {
    if expired {
      UpdatedInv(s, now);
      UpdateFires(s, now);
    }
  }

  lemma TurnedLists(fired: State, p: Place)
    ensures var mine := Running(ThreadOf(fired, fired.current).priority); var s' := Generated(Rotated(fired, mine));
            && s'.threads == fired.threads && s'.place == fired.place
            && List(s', p) == if p == mine then Turn(List(fired, p)) else List(fired, p)
  {
  }

  lemma TurnLists(s: State, expired: bool, now: int, p: Place)
    requires Inv(s)
    ensures List(Tick(s, expired, now), p) == ListAfter(s, TurnEnds(expired, now), Tick(s, expired, now).current, p)
  {
    ClockedLists(s, expired, now, p);
    ClockedPriority(s, expired, now, s.current);
    TurnedLists(Clocked(s, expired, now), p);
  }

  lemma InterruptLists(s: State, expired: bool, now: int, p: Place)
    requires Inv(s)
    ensures List(Interrupt(s, expired, now), p) == ListAfter(s, Interrupted(expired, now), Interrupt(s, expired, now).current, p)
  {
    ClockedLists(s, expired, now, p);
    ClockedPriority(s, expired, now, s.current);
    SwitchedLists(s, Interrupted(expired, now), Clocked(s, expired, now), p);
  }

  /** Every list after every step: who leaves it, who joins it and where, and whether it turns. */
  lemma StepLists(s: State, e: Event, p: Place)
    requires Inv(s) && Enabled(s, e)
    ensures List(Step(s, e), p) == ListAfter(s, e, Step(s, e).current, p)
  {
    match e
    case Enter(m) => EnterLists(s, m, p);
    case Exit(m) => ExitLists(s, m, p);
    case Wait(m, timed, deadline) => WaitLists(s, m, timed, deadline, p);
    case Notify(m) => NotifyLists(s, m, p);
    case NotifyAll(m) => NotifyAllLists(s, m, p);
    case Sleep(deadline) => SleepLists(s, deadline, p);
    case YieldWeakly => YieldLists(s, p);
    case YieldStrongly => StrongYieldLists(s, p);
    case Join(t) => JoinLists(s, t, p);
    case Die => DieLists(s, p);
    case Start(t, m) => assert ThreadAt(s, t); StartLists(s, t, m, p);
    case Prioritize(t, priority) => PriorityLists(s, t, priority, p);
    case Post(x) => PostLists(s, x, p);
    case Pend(x) => PendLists(s, x, p);
    case TurnEnds(expired, now) => TurnLists(s, expired, now, p);
    case Interrupted(expired, now) => InterruptLists(s, expired, now, p);
  }

  // ---------- monitors, timers and counters ----------

  /** Monitor m goes to the first thread that is blocked on it, at the depth it waited at or for the
      first time; or nobody owns it. */
  predicate HandedOn(s: State, m: int, after: Monitor) {
    var l := List(s, BlockedOn(m));
    if l == [] then after.owner == NULL
    else after == Monitor(l[0], if ThreadOf(s, l[0]).waitMonitor != NULL then ThreadOf(s, l[0]).waitDepth else 1)
  }

  /** What monitor n is after the step. A clock tick gives a free monitor to the first of the waiters for it
      whose time-outs have expired, at the depth it waited at. */
  predicate MonitorAfter(s: State, e: Event, n: int, after: Monitor) {
    var was := MonitorOf(s, n);
    match e
    case Enter(m) =>
      if m != n || MustBlock(s, m) then after == was
      else after == Monitor(s.current, if was.owner == NULL then 1 else was.depth + 1)
    case Exit(m) =>
      if m != n then after == was
      else if was.depth > 1 then after == Monitor(s.current, was.depth - 1)
      else HandedOn(s, m, after)
    case Wait(m, _, _) => if m != n then after == was else HandedOn(s, m, after)
    case Start(t, m) => after == if m == n && m != NULL && was.owner == NULL then Monitor(t, 1) else was
    case TurnEnds(expired, now) => after == MonitorFor(s, DueTimers(s, expired, now), n)
    case Interrupted(expired, now) => after == MonitorFor(s, DueTimers(s, expired, now), n)
    case _ => after == was
  }

  /** The timers of all threads but those of l. */
  function TimersOfOthers(timers: seq<Timer>, l: seq<int>): seq<Timer> {
    if timers == [] then []
    else (if timers[0].thread in l then [] else [timers[0]]) + TimersOfOthers(timers[1..], l)
  }

  /** The timer queue after the step. */
  predicate TimersAfter(s: State, e: Event, s': State) {
    match e
    case Wait(m, timed, deadline) =>
      s'.timers == if timed then WithTimer(s.timers, Timer(s.current, MonitorWaitExpired, deadline)) else s.timers
    case Sleep(deadline) => s'.timers == WithTimer(s.timers, Timer(s.current, ThreadSleepExpired, deadline))
    case Notify(m) => s'.timers == TimersOfOthers(s.timers, First(List(s, AsleepOn(m))))
    case NotifyAll(m) => s'.timers == TimersOfOthers(s.timers, List(s, AsleepOn(m)))
    case TurnEnds(expired, now) => s'.timers == s.timers[|DueTimers(s, expired, now)|..]
    case Interrupted(expired, now) => s'.timers == s.timers[|DueTimers(s, expired, now)|..]
    case _ => s'.timers == s.timers
  }

  lemma {:induction false} OthersOnly(timers: seq<Timer>, l: seq<int>)
    requires forall i :: 0 <= i < |timers| ==> timers[i].thread !in l
    ensures TimersOfOthers(timers, l) == timers
  {
    if timers != [] {
      forall i | 0 <= i < |timers[1..]| ensures timers[1..][i].thread !in l {
        assert timers[i + 1].thread !in l;
      }
      OthersOnly(timers[1..], l);
    }
  }

  /** A thread has at most one timer. */
  lemma {:induction false} WithoutOne(timers: seq<Timer>, t: int)
    requires TimerOrder(timers)
    ensures WithoutTimer(timers, t) == TimersOfOthers(timers, [t])
  {
    if timers != [] {
      var rest := timers[1..];
      assert forall i :: 0 <= i < |rest| ==> rest[i] == timers[i + 1];
      if timers[0].thread == t {
        OthersOnly(rest, [t]);
      } else {
        WithoutOne(rest, t);
      }
    }
  }

  lemma {:induction false} OthersOfOthers(timers: seq<Timer>, a: seq<int>, b: seq<int>)
    ensures TimersOfOthers(TimersOfOthers(timers, a), b) == TimersOfOthers(timers, a + b)
  {
    if timers != [] {
      var rest := TimersOfOthers(timers[1..], a);
      OthersOfOthers(timers[1..], a, b);
      if timers[0].thread !in a {
        assert TimersOfOthers(timers, a) == [timers[0]] + rest && ([timers[0]] + rest)[1..] == rest;
      } else {
        assert TimersOfOthers(timers, a) == rest;
      }
    }
  }

  lemma NoTimerOf(timers: seq<Timer>, t: int)
    requires !HasTimer(timers, t)
    ensures TimersOfOthers(timers, [t]) == timers
  {
    forall i | 0 <= i < |timers| ensures timers[i].thread !in [t] {
      assert timers[i].thread != t;
    }
    OthersOnly(timers, [t]);
  }

  lemma NotifiedTimers(s: State, m: int, t: int)
    requires Inv(s) && m != NULL && t in List(s, AsleepOn(m))
    ensures Notified(s, m, t).timers == TimersOfOthers(s.timers, [t])
    ensures Notified(s, m, t).monitors == s.monitors && Notified(s, m, t).counters == s.counters
  {
    Member(s, t, AsleepOn(m));
    if ThreadOf(s, t).status.AsleepTimedOutOnMonitor? {
      WithoutOne(s.timers, t);
    } else {
      if HasTimer(s.timers, t) {
        HasTimerTimed(s, t);
      }
      NoTimerOf(s.timers, t);
    }
  }

  lemma {:induction false} AllNotifiedTimers(s: State, m: int, l: seq<int>)
    requires Inv(s) && m != NULL && MonitorOf(s, m).owner != NULL && l == List(s, AsleepOn(m))
    ensures AllNotified(s, m, l).timers == TimersOfOthers(s.timers, l)
    ensures AllNotified(s, m, l).monitors == s.monitors && AllNotified(s, m, l).counters == s.counters
    decreases |l|
  {
    if l == [] {
      OthersOnly(s.timers, l);
    } else {
      assert l[0] in l && l == [l[0]] + l[1..];
      FirstNotified(s, m, l);
      NotifiedTimers(s, m, l[0]);
      AllNotifiedTimers(Notified(s, m, l[0]), m, l[1..]);
      OthersOfOthers(s.timers, [l[0]], l[1..]);
    }
  }

  lemma {:induction false} AllWokenRest(s: State, l: seq<int>)
    ensures var s' := AllWoken(s, l); s'.timers == s.timers && s'.monitors == s.monitors && s'.counters == s.counters
    decreases |l|
  {
    if l != [] {
      AllWokenRest(Woken(s, l[0]), l[1..]);
    }
  }

  lemma {:induction false} UpdatedCounters(s: State, now: int)
    ensures Updated(s, now).counters == s.counters
    decreases |s.timers|
  {
    if s.timers != [] && s.timers[0].time <= now {
      FiredCounters(s);
      UpdatedCounters(Fired(s), now);
    }
  }

  lemma FiredCounters(s: State)
    requires s.timers != []
    ensures Fired(s).counters == s.counters
  {
  }

  lemma ClockedRest(s: State, expired: bool, now: int, n: int)
    requires Inv(s)
    ensures var fired, due := Clocked(s, expired, now), DueTimers(s, expired, now);
            && fired.counters == s.counters && fired.timers == s.timers[|due|..]
            && MonitorOf(fired, n) == MonitorFor(s, due, n)
  {
    if expired {
      UpdatedCounters(s, now);
      UpdateFires(s, now);
    }
  }

  /** The monitors, the timers and the counters after the step. */
  predicate RestAfter(s: State, e: Event, s': State, n: int) {
    && MonitorAfter(s, e, n, MonitorOf(s', n))
    && TimersAfter(s, e, s')
    && CounterOf(s', n) == CounterAfter(s, e, n)
  }

  function CounterAfter(s: State, e: Event, x: int): int {
    CounterOf(s, x) + if e == Post(x) then 1 else if e == Pend(x) then -1 else 0
  }

  lemma EnterRest(s: State, m: int, n: int)
    requires Inv(s)
    ensures RestAfter(s, Enter(m), MonitorEnter(s, m), n)
  {
  }

  lemma ReleasedRest(s: State, m: int, n: int)
    ensures var s' := Released(s, m);
            && HandedOn(s, m, MonitorOf(s', m)) && (n != m ==> MonitorOf(s', n) == MonitorOf(s, n))
            && s'.timers == s.timers && s'.counters == s.counters
  {
  }

  lemma SwitchedRest(s: State)
    ensures Conditional(s).monitors == s.monitors && Conditional(s).timers == s.timers && Conditional(s).counters == s.counters
  {
  }

  lemma ExitRest(s: State, m: int, n: int)
    requires Monitors(s) && m != NULL && MonitorOf(s, m).owner == s.current && s.current != NULL
    ensures RestAfter(s, Exit(m), MonitorExit(s, m), n)
  {
    assert MonitorAt(s, m);
    var left := s.(monitors := s.monitors[m := MonitorOf(s, m).(depth := MonitorOf(s, m).depth - 1)]);
    if MonitorOf(s, m).depth == 1 && List(s, BlockedOn(m)) != [] {
      ReleasedRest(left, m, n);
      SwitchedRest(Released(left, m));
    }
  }

  lemma WaitRest(s: State, m: int, timed: bool, deadline: int, n: int)
    requires Inv(s) && m != NULL && MonitorOf(s, m).owner == s.current && s.current != s.idle
    ensures RestAfter(s, Wait(m, timed, deadline), MonitorWait(s, m, timed, deadline), n)
  {
    AsleepKnown(s, m, timed, deadline);
    AsleepRest(s, m, timed, deadline, n);
  }

  lemma AsleepRest(s: State, m: int, timed: bool, deadline: int, n: int)
    requires var asleep, l := FallsAsleep(s, m, timed, deadline), List(s, BlockedOn(m));
             && List(asleep, BlockedOn(m)) == l && asleep.monitors == s.monitors && asleep.counters == s.counters
             && (l != [] ==> ThreadOf(asleep, l[0]) == ThreadOf(s, l[0]))
    ensures RestAfter(s, Wait(m, timed, deadline), MonitorWait(s, m, timed, deadline), n)
  {
    var asleep := FallsAsleep(s, m, timed, deadline);
    ReleasedRest(asleep, m, n);
    WaitHandsOn(s, asleep, m, n);
    WaitedRest(s, asleep, MonitorWait(s, m, timed, deadline), m, timed, deadline, n);
  }

  lemma WaitedRest(s: State, asleep: State, s': State, m: int, timed: bool, deadline: int, n: int)
    requires s'.timers == asleep.timers && s'.counters == s.counters
    requires asleep.timers == if timed then WithTimer(s.timers, Timer(s.current, MonitorWaitExpired, deadline)) else s.timers
    requires HandedOn(s, m, MonitorOf(s', m)) && (n != m ==> MonitorOf(s', n) == MonitorOf(s, n))
    ensures RestAfter(s, Wait(m, timed, deadline), s', n)
  {
  }

  lemma AsleepKnown(s: State, m: int, timed: bool, deadline: int)
    requires Inv(s) && m != NULL && MonitorOf(s, m).owner == s.current && s.current != s.idle
    ensures var asleep, l := FallsAsleep(s, m, timed, deadline), List(s, BlockedOn(m));
            && List(asleep, BlockedOn(m)) == l && asleep.monitors == s.monitors && asleep.counters == s.counters
            && (l != [] ==> ThreadOf(asleep, l[0]) == ThreadOf(s, l[0]))
  {
    AsleepLists(s, m, timed, deadline, BlockedOn(m));
    assert MonitorAt(s, m);
    NotFrontWaiting(s, m);
  }

  lemma WaitHandsOn(s: State, asleep: State, m: int, n: int)
    requires List(asleep, BlockedOn(m)) == List(s, BlockedOn(m)) && asleep.monitors == s.monitors
    requires List(s, BlockedOn(m)) != [] ==> ThreadOf(asleep, List(s, BlockedOn(m))[0]) == ThreadOf(s, List(s, BlockedOn(m))[0])
    ensures HandedOn(asleep, m, MonitorOf(Released(asleep, m), m)) ==> HandedOn(s, m, MonitorOf(Released(asleep, m), m))
    ensures MonitorOf(asleep, n) == MonitorOf(s, n)
  {
  }

  lemma NotFrontWaiting(s: State, m: int)
    requires Placed(s) && MonitorAt(s, m) && MonitorOf(s, m).owner != NULL
    ensures List(s, BlockedOn(m)) != [] ==> List(s, BlockedOn(m))[0] != MonitorOf(s, m).owner
  {
    if List(s, BlockedOn(m)) != [] {
      NotFrontBlocked(s, m);
    }
  }

  lemma NotifyRest(s: State, m: int, n: int)
    requires Inv(s) && m != NULL && MonitorOf(s, m).owner == s.current
    ensures RestAfter(s, Notify(m), MonitorNotify(s, m), n)
  {
    var l := List(s, AsleepOn(m));
    if l == [] {
      OthersOnly(s.timers, []);
    } else {
      assert l[0] in l && First(l) == [l[0]];
      NotifiedTimers(s, m, l[0]);
      SwitchedRest(Notified(s, m, l[0]));
    }
  }

  lemma NotifyAllRest(s: State, m: int, n: int)
    requires Inv(s) && m != NULL && MonitorOf(s, m).owner == s.current
    ensures RestAfter(s, NotifyAll(m), MonitorNotifyAll(s, m), n)
  {
    var l := List(s, AsleepOn(m));
    if l == [] {
      OthersOnly(s.timers, []);
    } else {
      AllNotifiedTimers(s, m, l);
      SwitchedRest(AllNotified(s, m, l));
    }
    NotifyAllIs(s, m);
  }

  lemma NotifyAllIs(s: State, m: int)
    ensures var l, s', s1 := List(s, AsleepOn(m)), MonitorNotifyAll(s, m), AllNotified(s, m, List(s, AsleepOn(m)));
            s'.monitors == s1.monitors && s'.timers == s1.timers && s'.counters == s1.counters
  {
  }

  /** The events that leave the monitors, the timers and the counters alone. */
  lemma NothingElse(s: State, e: Event, s': State, n: int)
    requires e.YieldWeakly? || e.YieldStrongly? || e.Join? || e.Die? || e.Prioritize?
    requires s'.monitors == s.monitors && s'.timers == s.timers && s'.counters == s.counters
    ensures RestAfter(s, e, s', n)
  {
  }

  lemma DieRest(s: State, n: int)
    ensures RestAfter(s, Die, RemoveThread(s), n)
  {
    AllWokenRest(s, List(s, Joining(s.current)));
    NothingElse(s, Die, RemoveThread(s), n);
  }

  lemma TurnRest(s: State, expired: bool, now: int, n: int)
    requires Inv(s)
    ensures RestAfter(s, TurnEnds(expired, now), Tick(s, expired, now), n)
  {
    ClockedRest(s, expired, now, n);
    RotatedRest(Clocked(s, expired, now));
  }

  lemma InterruptRest(s: State, expired: bool, now: int, n: int)
    requires Inv(s)
    ensures RestAfter(s, Interrupted(expired, now), Interrupt(s, expired, now), n)
  {
    ClockedRest(s, expired, now, n);
    SwitchedRest(Clocked(s, expired, now));
  }

  lemma RotatedRest(s: State)
    ensures var s' := Generated(Rotated(s, Running(ThreadOf(s, s.current).priority)));
            s'.monitors == s.monitors && s'.timers == s.timers && s'.counters == s.counters
  {
  }

  lemma SleepRest(s: State, deadline: int, n: int)
    ensures RestAfter(s, Sleep(deadline), ThreadSleep(s, deadline), n)
  {
  }

  lemma YieldRest(s: State, n: int)
    ensures RestAfter(s, YieldWeakly, Conditional(s), n) && RestAfter(s, YieldStrongly, StrongYield(s), n)
  {
    SwitchedRest(s);
    RotatedRest(s);
    NothingElse(s, YieldWeakly, Conditional(s), n);
    NothingElse(s, YieldStrongly, StrongYield(s), n);
  }

  lemma JoinRest(s: State, t: int, n: int)
    ensures RestAfter(s, Join(t), ThreadJoin(s, t), n)
  {
    NothingElse(s, Join(t), ThreadJoin(s, t), n);
  }

  lemma StartRest(s: State, t: int, m: int, n: int)
    ensures RestAfter(s, Start(t, m), ScheduleNewThread(s, t, m), n)
  {
    StartUntouched(s, t, m);
  }

  lemma StartUntouched(s: State, t: int, m: int)
    ensures var s' := ScheduleNewThread(s, t, m);
            && s'.timers == s.timers && s'.counters == s.counters
            && s'.monitors == if m != NULL && MonitorOf(s, m).owner == NULL then s.monitors[m := Monitor(t, 1)] else s.monitors
  {
  }

  lemma PrioritizeRest(s: State, t: int, priority: nat, n: int)
    ensures RestAfter(s, Prioritize(t, priority), SetPriority(s, t, priority), n)
  {
    ReprioritizedRest(s, t, priority);
    SwitchedRest(Reprioritized(s, t, priority));
    NothingElse(s, Prioritize(t, priority), SetPriority(s, t, priority), n);
  }

  lemma ReprioritizedRest(s: State, t: int, priority: nat)
    ensures var s1 := Reprioritized(s, t, priority); s1.monitors == s.monitors && s1.timers == s.timers && s1.counters == s.counters
  {
  }

  lemma PostRest(s: State, x: int, n: int)
    ensures RestAfter(s, Post(x), SemaphorePost(s, x), n)
  {
    var l := List(s, Pending(x));
    if l != [] {
      SwitchedRest(Woken(Counted(s, x, 1), l[0]));
    }
  }

  lemma PendRest(s: State, x: int, n: int)
    ensures RestAfter(s, Pend(x), SemaphorePend(s, x), n)
  {
  }

  predicate ForMonitors(e: Event) {
    e.Enter? || e.Exit? || e.Wait? || e.Notify? || e.NotifyAll?
  }

  lemma MonitorRest(s: State, e: Event, n: int)
    requires Inv(s) && Enabled(s, e) && ForMonitors(e)
    ensures RestAfter(s, e, Step(s, e), n)
  {
    match e
    case Enter(m) => EnterRest(s, m, n);
    case Exit(m) => ExitRest(s, m, n);
    case Wait(m, timed, deadline) => WaitRest(s, m, timed, deadline, n);
    case Notify(m) => NotifyRest(s, m, n);
    case NotifyAll(m) => NotifyAllRest(s, m, n);
  }

  lemma ThreadRest(s: State, e: Event, n: int)
    requires !ForMonitors(e) && !e.TurnEnds? && !e.Interrupted?
    ensures RestAfter(s, e, Step(s, e), n)
  {
    match e
    case Sleep(deadline) => SleepRest(s, deadline, n);
    case YieldWeakly => YieldRest(s, n);
    case YieldStrongly => YieldRest(s, n);
    case Join(t) => JoinRest(s, t, n);
    case Die => DieRest(s, n);
    case Start(t, m) => StartRest(s, t, m, n);
    case Prioritize(t, priority) => PrioritizeRest(s, t, priority, n);
    case Post(x) => PostRest(s, x, n);
    case Pend(x) => PendRest(s, x, n);
  }

  /** What every step does to the monitors, the timers and the counters. */
  lemma StepRest(s: State, e: Event, n: int)
    requires Inv(s) && Enabled(s, e)
    ensures RestAfter(s, e, Step(s, e), n)
  {
    if ForMonitors(e) {
      MonitorRest(s, e, n);
    } else if e.TurnEnds? {
      TurnRest(s, e.expired, e.now, n);
    } else if e.Interrupted? {
      InterruptRest(s, e.expired, e.now, n);
    } else {
      ThreadRest(s, e, n);
    }
  }
}
