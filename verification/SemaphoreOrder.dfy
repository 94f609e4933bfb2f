/** In which order the threads that wait for a semaphore get it. A thread queues by its priority and, among
    equals, behind those that were there; but setThreadPriority changes the priority of a waiting thread
    and leaves it where it stands. */
module SemaphoreOrder {
  import opened Basics
  import opened LinkedLists
  import opened SchedulerState
  import opened SchedulerOps
  import opened Timeouts
  import opened ThreadOps
  import opened SchedulerRuns
  import opened SchedulerEffects

  /** Since which step a thread has waited, at the priority it has now. */
  type Since = map<int, nat>

  predicate Waits(s: State, t: int) {
    t in s.place && s.place[t].Pending?
  }

  /** Thread t is to get the semaphore before thread u: it has a higher priority or, where the time of
      waiting counts, has waited longer at the same. */
  predicate Ahead(s: State, since: Since, byTime: bool, t: int, u: int) {
    var p, q := ThreadOf(s, t).priority, ThreadOf(s, u).priority;
    p > q || (p == q && (byTime ==> t in since && u in since && since[t] < since[u]))
  }

  ghost predicate QueueInOrder(s: State, since: Since, byTime: bool, l: seq<int>) {
    forall i, j :: 0 <= i < j < |l| ==> Ahead(s, since, byTime, l[i], l[j])
  }

  ghost predicate InOrder(s: State, since: Since, byTime: bool) {
    forall x :: QueueInOrder(s, since, byTime, List(s, Pending(x)))
  }

  /** Every waiting thread began to wait in a step before step n. */
  ghost predicate Noted(s: State, since: Since, n: nat) {
    forall t :: Waits(s, t) ==> t in since && since[t] < n
  }

  /** The notes after step n, which leads from s to s'. */
  function NotedAfter(s: State, s': State, since: Since, n: nat): Since {
    map t | t in s'.place && s'.place[t].Pending? ::
      if Waits(s, t) && s.place[t] == s'.place[t] && ThreadOf(s, t).priority == ThreadOf(s', t).priority && t in since then since[t]
      else n
  }

  ghost predicate NotedBefore(since: Since, l: seq<int>, n: nat) {
    forall t :: t in l ==> t in since && since[t] < n
  }

  /** Of the threads of l, those in begun are noted at step n, and the others as they were. */
  ghost predicate Renoted(since: Since, since': Since, l: seq<int>, begun: set<int>, n: nat) {
    forall t :: t in l ==> t in since' && (t in begun ==> since'[t] == n) && (t !in begun ==> t in since && since'[t] == since[t])
  }

  // ---------- what a new priority does to the queue ----------

  /** The new priority of a waiting thread lies between those of its neighbours on the list. It has to
      exceed that of the next one where the time of waiting counts. */
  ghost predicate Between(s: State, l: seq<int>, i: nat, priority: nat, byTime: bool)
    requires i < |l|
  {
    || priority == ThreadOf(s, l[i]).priority
    || ( && (i > 0 ==> ThreadOf(s, l[i - 1]).priority >= priority)
         && (i + 1 < |l| ==>
              var next := ThreadOf(s, l[i + 1]).priority; priority > next || (!byTime && priority == next)))
  }

  /** The state after the priority of a waiting thread has been set. */
  ghost predicate Prioritized(s: State, t: int, priority: nat, s': State) {
    s' == s.(threads := s.threads[t := ThreadOf(s, t).(priority := priority)])
  }

  lemma BetweenAhead(s: State, since: Since, byTime: bool, l: seq<int>, k: nat, priority: nat, s': State, since': Since, n: nat, i: nat, j: nat)
    requires k < |l| && i < j < |l| && Distinct(l) && QueueInOrder(s, since, byTime, l)
    requires NotedBefore(since, l, n)
    requires Prioritized(s, l[k], priority, s') && priority != ThreadOf(s, l[k]).priority && Between(s, l, k, priority, byTime)
    requires Renoted(since, since', l, {l[k]}, n)
    ensures Ahead(s', since', byTime, l[i], l[j])
  {
    assert Ahead(s, since, byTime, l[i], l[j]);
    assert l[i] in l && l[j] in l && l[k] in l;
    if j == k {
      assert i < k - 1 ==> Ahead(s, since, byTime, l[i], l[k - 1]);
    } else if i == k {
      assert j > k + 1 ==> Ahead(s, since, byTime, l[k + 1], l[j]);
    }
  }

  lemma OrderIsBetween(s: State, since: Since, byTime: bool, l: seq<int>, k: nat, priority: nat, s': State, since': Since, n: nat)
    requires k < |l| && Distinct(l) && NotedBefore(since, l, n)
    requires Prioritized(s, l[k], priority, s') && QueueInOrder(s', since', byTime, l)
    requires Renoted(since, since', l, if priority != ThreadOf(s, l[k]).priority then {l[k]} else {}, n)
    ensures Between(s, l, k, priority, byTime)
  {
    assert l[k] in l;
    assert k > 0 ==> Ahead(s', since', byTime, l[k - 1], l[k]) && l[k - 1] != l[k];
    assert k + 1 < |l| ==> Ahead(s', since', byTime, l[k], l[k + 1]) && l[k] != l[k + 1] && l[k + 1] in l;
  }

  /** Setting the priority of thread k of a queue that is in order leaves it in order exactly if the new
      priority lies between those of its neighbours. */
  lemma QueuePrioritized(s: State, since: Since, byTime: bool, l: seq<int>, k: nat, priority: nat, s': State, since': Since, n: nat)
    requires k < |l| && Distinct(l) && QueueInOrder(s, since, byTime, l)
    requires NotedBefore(since, l, n)
    requires Prioritized(s, l[k], priority, s')
    requires Renoted(since, since', l, if priority != ThreadOf(s, l[k]).priority then {l[k]} else {}, n)
    ensures QueueInOrder(s', since', byTime, l) <==> Between(s, l, k, priority, byTime)
  {
    assert l[k] in l;
    if priority == ThreadOf(s, l[k]).priority {
      forall i, j | 0 <= i < j < |l| ensures Ahead(s', since', byTime, l[i], l[j]) {
        assert Ahead(s, since, byTime, l[i], l[j]) && l[i] in l && l[j] in l;
      }
    } else if Between(s, l, k, priority, byTime) {
      forall i, j | 0 <= i < j < |l| ensures Ahead(s', since', byTime, l[i], l[j]) {
        BetweenAhead(s, since, byTime, l, k, priority, s', since', n, i, j);
      }
    }
    if QueueInOrder(s', since', byTime, l) {
      OrderIsBetween(s, since, byTime, l, k, priority, s', since', n);
    }
  }

  // ---------- what every step does to the queue ----------

  ghost predicate SamePriorities(s: State, s': State) {
    forall t :: ThreadOf(s', t).priority == ThreadOf(s, t).priority
  }

  lemma {:induction false} AllNotifiedPriorities(s: State, m: int, l: seq<int>)
    ensures SamePriorities(s, AllNotified(s, m, l))
    decreases |l|
  {
    if l != [] {
      AllNotifiedPriorities(Notified(s, m, l[0]), m, l[1..]);
    }
  }

  lemma {:induction false} AllWokenPriorities(s: State, l: seq<int>)
    ensures SamePriorities(s, AllWoken(s, l))
    decreases |l|
  {
    if l != [] {
      AllWokenPriorities(Woken(s, l[0]), l[1..]);
    }
  }

  lemma {:induction false} UpdatedPriorities(s: State, now: int)
    ensures SamePriorities(s, Updated(s, now))
    decreases |s.timers|
  {
    if s.timers != [] && s.timers[0].time <= now {
      FiredTimers(s);
      UpdatedPriorities(Fired(s), now);
    }
  }

  lemma FiredTimers(s: State)
    requires s.timers != []
    ensures |Fired(s).timers| < |s.timers| && SamePriorities(s, Fired(s))
  {
  }

  lemma SwitchedPriorities(s: State, s1: State)
    requires SamePriorities(s, s1)
    ensures SamePriorities(s, Conditional(s1)) && SamePriorities(s, Generated(s1))
    ensures SamePriorities(s, Generated(Rotated(s1, Running(ThreadOf(s1, s1.current).priority))))
  {
  }

  lemma ReleasedPriorities(s: State, m: int)
    ensures SamePriorities(s, Released(s, m))
  {
  }

  lemma ExitPriorities(s: State, m: int)
    ensures SamePriorities(s, MonitorExit(s, m))
  {
    var monitor := MonitorOf(s, m);
    var left := s.(monitors := s.monitors[m := monitor.(depth := if monitor.depth > 0 then monitor.depth - 1 else 0)]);
    ReleasedPriorities(left, m);
    SwitchedPriorities(s, Released(left, m));
  }

  lemma WaitPriorities(s: State, m: int, timed: bool, deadline: int)
    ensures SamePriorities(s, MonitorWait(s, m, timed, deadline))
  {
    var asleep := FallsAsleep(s, m, timed, deadline);
    assert SamePriorities(s, asleep);
    ReleasedPriorities(asleep, m);
    SwitchedPriorities(s, Released(asleep, m));
  }

  lemma NotifyPriorities(s: State, m: int)
    ensures SamePriorities(s, MonitorNotify(s, m)) && SamePriorities(s, MonitorNotifyAll(s, m))
  {
    var l := List(s, AsleepOn(m));
    if l != [] {
      SwitchedPriorities(s, Notified(s, m, l[0]));
      AllNotifiedPriorities(s, m, l);
      SwitchedPriorities(s, AllNotified(s, m, l));
    }
  }

  lemma DiePriorities(s: State)
    ensures SamePriorities(s, RemoveThread(s))
  {
    AllWokenPriorities(s, List(s, Joining(s.current)));
  }

  lemma PostPriorities(s: State, x: int)
    ensures SamePriorities(s, SemaphorePost(s, x))
  {
    var l := List(s, Pending(x));
    if l != [] {
      SwitchedPriorities(s, Woken(Counted(s, x, 1), l[0]));
    }
  }

  lemma ClockPriorities(s: State, expired: bool, now: int)
    ensures SamePriorities(s, Tick(s, expired, now)) && SamePriorities(s, Interrupt(s, expired, now))
  {
    UpdatedPriorities(s, now);
    SwitchedPriorities(s, Clocked(s, expired, now));
  }

  lemma MonitorPriorities(s: State, e: Event)
    requires ForMonitors(e)
    ensures SamePriorities(s, Step(s, e))
  {
    match e
    case Enter(m) =>
    case Exit(m) => ExitPriorities(s, m);
    case Wait(m, timed, deadline) => WaitPriorities(s, m, timed, deadline);
    case Notify(m) => NotifyPriorities(s, m);
    case NotifyAll(m) => NotifyPriorities(s, m);
  }

  lemma YieldPriorities(s: State)
    ensures SamePriorities(s, Conditional(s)) && SamePriorities(s, StrongYield(s))
  {
    SwitchedPriorities(s, s);
  }

  lemma SleepPriorities(s: State, deadline: int, t: int)
    ensures SamePriorities(s, ThreadSleep(s, deadline)) && SamePriorities(s, ThreadJoin(s, t))
  {
  }

  lemma PendPriorities(s: State, x: int)
    ensures SamePriorities(s, SemaphorePend(s, x))
  {
  }

  lemma StartPriorities(s: State, t: int, m: int)
    ensures SamePriorities(s, ScheduleNewThread(s, t, m))
  {
  }

  /** Only setThreadPriority sets priorities. */
  lemma StepPriorities(s: State, e: Event)
    requires !e.Prioritize?
    ensures SamePriorities(s, Step(s, e))
  {
    match e
    case Die => DiePriorities(s);
    case Post(x) => PostPriorities(s, x);
    case TurnEnds(expired, now) => ClockPriorities(s, expired, now);
    case Interrupted(expired, now) => ClockPriorities(s, expired, now);
    case YieldWeakly => YieldPriorities(s);
    case YieldStrongly => YieldPriorities(s);
    case Sleep(deadline) => SleepPriorities(s, deadline, 0);
    case Join(t) => SleepPriorities(s, 0, t);
    case Pend(x) => PendPriorities(s, x);
    case Start(t, m) => StartPriorities(s, t, m);
    case _ => MonitorPriorities(s, e);
  }

  lemma {:induction false} NobodyDue(l: seq<int>, timers: seq<Timer>)
    requires forall i :: 0 <= i < |timers| ==> timers[i].thread !in l
    ensures Remaining(l, timers) == l
    decreases |timers|
  {
    if timers != [] {
      WithoutAbsent(l, timers[0].thread);
      NobodyDue(l, timers[1..]);
    }
  }

  /** A thread that waits for a semaphore has no timer. */
  lemma PendingUntimed(s: State, x: int, n: nat)
    requires Inv(s) && n <= |s.timers|
    ensures Remaining(List(s, Pending(x)), s.timers[..n]) == List(s, Pending(x))
  {
    var l := List(s, Pending(x));
    forall i | 0 <= i < n ensures s.timers[..n][i].thread !in l {
      assert TimerAt(s, i);
      Member(s, s.timers[i].thread, Pending(x));
    }
    NobodyDue(l, s.timers[..n]);
  }

  predicate JoinsQueue(s: State, e: Event, x: int) {
    e == Pend(x) && CounterOf(s, x) <= 0
  }

  predicate Served(s: State, e: Event, x: int) {
    e == Post(x) && CounterOf(s, x) < 0
  }

  lemma {:induction false} NotAtPriority(s: State, l: seq<int>, p: Place)
    requires !p.Running?
    ensures AtPriority(s, l, p) == []
  {
    if l != [] {
      NotAtPriority(s, l[1..], p);
    }
  }

  /** No thread arrives at the queue by becoming runnable. */
  lemma NotWokenTo(s: State, from: Place, l: seq<int>, x: int)
    ensures from != Pending(x) ==> FrontWoken(s, from, l, Pending(x)) == l
  {
    NotAtPriority(s, First(List(s, from)), Pending(x));
  }

  /** The queue of semaphore x after event e. */
  function QueueOf(s: State, e: Event, x: int): seq<int> {
    var l := List(s, Pending(x));
    if JoinsQueue(s, e, x) then
      Inserted(l, SortedPosition(PrioritiesOf(s, l), ThreadOf(s, s.current).priority, ByPriority), s.current)
    else if Served(s, e, x) then Rest(l)
    else l
  }

  predicate ForThreads(e: Event) {
    e.Sleep? || e.Join? || e.Die? || e.Start? || e.Prioritize? || e.Pend?
  }

  lemma SettledByMonitors(s: State, e: Event, x: int)
    requires ForMonitors(e) && s.current in s.place && s.place[s.current] != Pending(x)
    ensures Settled(s, e, Pending(x)) == List(s, Pending(x))
  {
    match e
    case Exit(m) => NotWokenTo(s, BlockedOn(m), List(s, Pending(x)), x);
    case Wait(m, _, _) => NotWokenTo(s, BlockedOn(m), List(s, Pending(x)), x);
    case _ =>
  }

  lemma SettledByThreads(s: State, e: Event, x: int)
    requires ForThreads(e) && s.current in s.place && s.place[s.current] != Pending(x)
    requires e.Prioritize? && IsRunning(s, e.thread) ==> e.thread in s.place ==> s.place[e.thread] != Pending(x)
    ensures Settled(s, e, Pending(x)) == QueueOf(s, e, x)
  {
    NotAtPriority(s, List(s, Joining(s.current)), Pending(x));
  }

  lemma SettledQueue(s: State, e: Event, x: int)
    requires Inv(s) && Enabled(s, e)
    ensures Settled(s, e, Pending(x)) == QueueOf(s, e, x)
  {
    if ForMonitors(e) {
      SettledByMonitors(s, e, x);
    } else if ForThreads(e) {
      if e.Prioritize? {
        assert ThreadAt(s, e.thread);
      }
      SettledByThreads(s, e, x);
    } else if e.Post? {
      NotWokenTo(s, Pending(e.semaphore), List(s, Pending(x)), x);
    } else if e.TurnEnds? || e.Interrupted? {
      PendingUntimed(s, x, if e.expired then Due(s.timers, e.now) else 0);
    }
  }

  /** Threads join the queue by pending, and leave its front by a post; no other step changes it. */
  lemma QueueAfter(s: State, e: Event, x: int)
    requires Inv(s) && Enabled(s, e)
    ensures List(Step(s, e), Pending(x)) == QueueOf(s, e, x)
  {
    StepLists(s, e, Pending(x));
    SettledQueue(s, e, x);
  }

  // ---------- the order over whole runs ----------

  /** The one event that can disturb the order: it does not, if the new priority lies between those of the
      neighbours. */
  ghost predicate KeepsOrder(s: State, e: Event, byTime: bool) {
    e.Prioritize? && Waits(s, e.thread) ==>
      var l := List(s, s.place[e.thread]);
      forall i :: 0 <= i < |l| && l[i] == e.thread ==> Between(s, l, i, e.priority, byTime)
  }

  lemma MembersNoted(s: State, since: Since, n: nat, x: int)
    requires Placed(s) && Noted(s, since, n)
    ensures NotedBefore(since, List(s, Pending(x)), n) && Distinct(List(s, Pending(x)))
  {
    forall t | t in List(s, Pending(x)) ensures t in since && since[t] < n {
      Member(s, t, Pending(x));
    }
    Member(s, 0, Pending(x));
  }

  /** A thread that still waits where it waited, at the same priority, is noted as before; one that has
      begun to wait is noted at step n. */
  lemma NotesAfter(s: State, s': State, since: Since, n: nat, t: int, x: int)
    requires Placed(s) && Placed(s') && Noted(s, since, n) && t in List(s', Pending(x))
    ensures var since' := NotedAfter(s, s', since, n);
            && t in since' && (t in List(s, Pending(x)) ==> t in since)
            && since'[t] == if t in List(s, Pending(x)) && ThreadOf(s, t).priority == ThreadOf(s', t).priority then since[t] else n
  {
    Member(s, t, Pending(x));
    Member(s', t, Pending(x));
  }

  lemma StillNoted(s: State, s': State, since: Since, n: nat)
    requires Noted(s, since, n)
    ensures Noted(s', NotedAfter(s, s', since, n), n + 1)
  {
  }

  lemma StillAhead(s: State, s': State, since: Since, n: nat, byTime: bool, x: int, t: int, u: int)
    requires Placed(s) && Placed(s') && Noted(s, since, n) && Ahead(s, since, byTime, t, u)
    requires t in List(s, Pending(x)) && u in List(s, Pending(x)) && t in List(s', Pending(x)) && u in List(s', Pending(x))
    requires ThreadOf(s', t).priority == ThreadOf(s, t).priority && ThreadOf(s', u).priority == ThreadOf(s, u).priority
    ensures Ahead(s', NotedAfter(s, s', since, n), byTime, t, u)
  {
    NotesAfter(s, s', since, n, t, x);
    NotesAfter(s, s', since, n, u, x);
  }

  lemma SameQueueInOrder(s: State, s': State, since: Since, n: nat, byTime: bool, x: int)
    requires Placed(s) && Placed(s') && Noted(s, since, n) && QueueInOrder(s, since, byTime, List(s, Pending(x)))
    requires List(s', Pending(x)) == List(s, Pending(x)) || (List(s, Pending(x)) != [] && List(s', Pending(x)) == List(s, Pending(x))[1..])
    requires forall t :: t in List(s, Pending(x)) ==> ThreadOf(s', t).priority == ThreadOf(s, t).priority
    ensures QueueInOrder(s', NotedAfter(s, s', since, n), byTime, List(s', Pending(x)))
  {
    var l, since' := List(s, Pending(x)), NotedAfter(s, s', since, n);
    forall t, u | t in l && u in l && Ahead(s, since, byTime, t, u) && (l == List(s', Pending(x)) || (t in l[1..] && u in l[1..]))
      ensures Ahead(s', since', byTime, t, u)
    {
      StillAhead(s, s', since, n, byTime, x, t, u);
    }
    StillQueued(s, s', since, since', byTime, l, List(s', Pending(x)));
  }

  /** A queue that stays as it is or loses its front stays in order if its pairs do. */
  lemma StillQueued(s: State, s': State, since: Since, since': Since, byTime: bool, l: seq<int>, l': seq<int>)
    requires QueueInOrder(s, since, byTime, l) && (l' == l || (l != [] && l' == l[1..]))
    requires forall t, u :: t in l && u in l && Ahead(s, since, byTime, t, u) && (l == l' || (t in l[1..] && u in l[1..])) ==> Ahead(s', since', byTime, t, u)
    ensures QueueInOrder(s', since', byTime, l')
  {
    var d := |l| - |l'|;
    forall i, j | 0 <= i < j < |l'| ensures Ahead(s', since', byTime, l'[i], l'[j]) {
      assert l'[i] == l[i + d] && l'[j] == l[j + d] && Ahead(s, since, byTime, l[i + d], l[j + d]);
    }
  }

  lemma QueueSorted(s: State, since: Since, byTime: bool, l: seq<int>)
    requires QueueInOrder(s, since, byTime, l) && forall t :: t in l ==> t in s.threads
    ensures Sorted(PrioritiesOf(s, l), ByPriority)
    ensures forall i :: 0 <= i < |l| ==> PrioritiesOf(s, l)[i] == ThreadOf(s, l[i]).priority
  {
    var ks := PrioritiesOf(s, l);
    forall i | 0 <= i < |l| ensures ks[i] == ThreadOf(s, l[i]).priority {
      assert l[i] in l;
    }
    forall i, j | 0 <= i < j < |ks| ensures !ByPriority.Precedes(ks[j], ks[i]) {
      assert Ahead(s, since, byTime, l[i], l[j]);
    }
  }

  /** The thread that pends is behind all of at least its priority, and in front of all others. */
  lemma JoinedAhead(s: State, s': State, since: Since, n: nat, byTime: bool, x: int, slot: nat, i: nat, j: nat)
    requires Placed(s) && Placed(s') && Noted(s, since, n) && QueueInOrder(s, since, byTime, List(s, Pending(x)))
    requires slot <= |List(s, Pending(x))| && s.current !in List(s, Pending(x)) && SamePriorities(s, s')
    requires List(s', Pending(x)) == Inserted(List(s, Pending(x)), slot, s.current)
    requires forall k :: 0 <= k < |List(s, Pending(x))| ==>
               (k < slot <==> ThreadOf(s, List(s, Pending(x))[k]).priority >= ThreadOf(s, s.current).priority)
    requires i < j < |List(s', Pending(x))|
    ensures Ahead(s', NotedAfter(s, s', since, n), byTime, List(s', Pending(x))[i], List(s', Pending(x))[j])
  {
    var l, l' := List(s, Pending(x)), List(s', Pending(x));
    var a, b := if i < slot then i else i - 1, if j < slot then j else j - 1;
    assert i != slot ==> l'[i] == l[a] && l[a] in l;
    assert j != slot ==> l'[j] == l[b] && l[b] in l;
    assert i != slot && j != slot ==> Ahead(s, since, byTime, l[a], l[b]);
    assert l'[i] in l' && l'[j] in l';
    NotesAfter(s, s', since, n, l'[i], x);
    NotesAfter(s, s', since, n, l'[j], x);
    assert NotedBefore(since, l, n) by { MembersNoted(s, since, n, x); }
  }

  lemma JoinedInOrder(s: State, s': State, since: Since, n: nat, byTime: bool, x: int)
    requires Placed(s) && Statuses(s) && Placed(s') && Noted(s, since, n) && QueueInOrder(s, since, byTime, List(s, Pending(x)))
    requires s.current !in List(s, Pending(x)) && SamePriorities(s, s')
    requires List(s', Pending(x)) ==
               Inserted(List(s, Pending(x)), SortedPosition(PrioritiesOf(s, List(s, Pending(x))), ThreadOf(s, s.current).priority, ByPriority), s.current)
    ensures QueueInOrder(s', NotedAfter(s, s', since, n), byTime, List(s', Pending(x)))
  {
    var l, k := List(s, Pending(x)), ThreadOf(s, s.current).priority;
    forall t | t in l ensures t in s.threads {
      Member(s, t, Pending(x));
    }
    QueueSorted(s, since, byTime, l);
    SortedInsertion(PrioritiesOf(s, l), k, ByPriority);
    var slot := SortedPosition(PrioritiesOf(s, l), k, ByPriority);
    forall i, j | 0 <= i < j < |List(s', Pending(x))|
      ensures Ahead(s', NotedAfter(s, s', since, n), byTime, List(s', Pending(x))[i], List(s', Pending(x))[j])
    {
      JoinedAhead(s, s', since, n, byTime, x, slot, i, j);
    }
  }

  /** The queue of the thread whose priority is set. */
  lemma OwnQueue(s: State, s': State, since: Since, n: nat, byTime: bool, t: int, priority: nat, k: nat)
    requires Placed(s) && Placed(s') && Noted(s, since, n) && InOrder(s, since, byTime)
    requires Waits(s, t) && s'.place == s.place && s'.lists == s.lists && Prioritized(s, t, priority, s')
    requires k < |List(s, s.place[t])| && List(s, s.place[t])[k] == t
    ensures var l := List(s, s.place[t]);
            QueueInOrder(s', NotedAfter(s, s', since, n), byTime, l) <==> Between(s, l, k, priority, byTime)
  {
    var x := s.place[t].semaphore;
    var since', l := NotedAfter(s, s', since, n), List(s, Pending(x));
    MembersNoted(s, since, n, x);
    forall u | u in l ensures u in since' && u in since && since'[u] == if u == t && priority != ThreadOf(s, t).priority then n else since[u] {
      NotesAfter(s, s', since, n, u, x);
    }
    QueuePrioritized(s, since, byTime, l, k, priority, s', since', n);
  }

  /** A queue that the thread is not in. */
  lemma ElsewhereQueue(s: State, s': State, since: Since, n: nat, byTime: bool, t: int, priority: nat, y: int)
    requires Placed(s) && Placed(s') && Noted(s, since, n) && InOrder(s, since, byTime)
    requires Waits(s, t) && s.place[t] != Pending(y) && s'.lists == s.lists && Prioritized(s, t, priority, s')
    ensures QueueInOrder(s', NotedAfter(s, s', since, n), byTime, List(s', Pending(y)))
  {
    Member(s, t, Pending(y));
    SameQueueInOrder(s, s', since, n, byTime, y);
  }

  lemma WaiterPrioritized(s: State, t: int, priority: nat)
    requires Placed(s) && Statuses(s) && Waits(s, t)
    ensures var s' := SetPriority(s, t, priority);
            Prioritized(s, t, priority, s') && s'.lists == s.lists && s'.place == s.place && Placed(s')
  {
    assert ThreadAt(s, t);
    SamePlaced(s, SetPriority(s, t, priority));
  }

  lemma KeepsIsBetween(s: State, t: int, priority: nat, byTime: bool, k: nat)
    requires Placed(s) && Waits(s, t) && k < |List(s, s.place[t])| && List(s, s.place[t])[k] == t
    ensures KeepsOrder(s, Prioritize(t, priority), byTime) <==> Between(s, List(s, s.place[t]), k, priority, byTime)
  {
    Member(s, t, s.place[t]);
  }

  /** The priority of a waiting thread is set: nothing moves. */
  lemma PrioritizedQueue(s: State, since: Since, n: nat, byTime: bool, t: int, priority: nat)
    requires Placed(s) && Statuses(s) && Noted(s, since, n) && InOrder(s, since, byTime) && Waits(s, t)
    ensures var s' := SetPriority(s, t, priority);
            InOrder(s', NotedAfter(s, s', since, n), byTime) <==> KeepsOrder(s, Prioritize(t, priority), byTime)
  {
    var s', x := SetPriority(s, t, priority), s.place[t].semaphore;
    WaiterPrioritized(s, t, priority);
    Member(s, t, Pending(x));
    var k :| 0 <= k < |List(s, Pending(x))| && List(s, Pending(x))[k] == t;
    OwnQueue(s, s', since, n, byTime, t, priority, k);
    KeepsIsBetween(s, t, priority, byTime, k);
    forall y | y != x ensures QueueInOrder(s', NotedAfter(s, s', since, n), byTime, List(s', Pending(y))) {
      ElsewhereQueue(s, s', since, n, byTime, t, priority, y);
    }
  }

  /** Any other event keeps the order. */
  lemma OtherQueue(s: State, since: Since, n: nat, byTime: bool, e: Event, x: int)
    requires Inv(s) && Enabled(s, e) && Noted(s, since, n) && InOrder(s, since, byTime)
    requires !(e.Prioritize? && Waits(s, e.thread))
    ensures QueueInOrder(Step(s, e), NotedAfter(s, Step(s, e), since, n), byTime, List(Step(s, e), Pending(x)))
  {
    var s', l := Step(s, e), List(s, Pending(x));
    StepInv(s, e);
    QueueAfter(s, e, x);
    Member(s, s.current, Pending(x));
    if JoinsQueue(s, e, x) {
      StepPriorities(s, e);
      JoinedInOrder(s, s', since, n, byTime, x);
    } else {
      QueuePrioritiesKept(s, e, x);
      assert QueueInOrder(s, since, byTime, l);
      SameQueueInOrder(s, s', since, n, byTime, x);
    }
  }

  lemma QueuePrioritiesKept(s: State, e: Event, x: int)
    requires Inv(s) && Enabled(s, e) && !(e.Prioritize? && Waits(s, e.thread))
    ensures forall t :: t in List(s, Pending(x)) ==> ThreadOf(Step(s, e), t).priority == ThreadOf(s, t).priority
  {
    if e.Prioritize? {
      Member(s, e.thread, Pending(x));
    } else {
      StepPriorities(s, e);
    }
  }

  /** A step keeps the waiting threads in order, exactly if it does not set the priority of one of them to
      a value that is not between those of its neighbours. */
  lemma StepOrder(s: State, since: Since, n: nat, byTime: bool, e: Event)
    requires Inv(s) && Enabled(s, e) && Noted(s, since, n) && InOrder(s, since, byTime)
    ensures var s' := Step(s, e); var since' := NotedAfter(s, s', since, n);
            Noted(s', since', n + 1) && (InOrder(s', since', byTime) <==> KeepsOrder(s, e, byTime))
  {
    StillNoted(s, Step(s, e), since, n);
    if e.Prioritize? && Waits(s, e.thread) {
      PrioritizedQueue(s, since, n, byTime, e.thread, e.priority);
    } else {
      forall x ensures QueueInOrder(Step(s, e), NotedAfter(s, Step(s, e), since, n), byTime, List(Step(s, e), Pending(x))) {
        OtherQueue(s, since, n, byTime, e, x);
      }
    }
  }

  ghost predicate AllKeepOrder(s: State, es: seq<Event>, byTime: bool)
    decreases |es|
  {
    es == [] || (KeepsOrder(s, es[0], byTime) && AllKeepOrder(Step(s, es[0]), es[1..], byTime))
  }

  function NotedOver(s: State, since: Since, n: nat, es: seq<Event>): Since
    decreases |es|
  {
    if es == [] then since
    else NotedOver(Step(s, es[0]), NotedAfter(s, Step(s, es[0]), since, n), n + 1, es[1..])
  }

  /** After the first j events of the run thread t waits where it waits at the end, at the same priority. */
  predicate WaitsAsAtEnd(s: State, es: seq<Event>, j: nat, t: int)
    requires j <= |es|
  {
    var s1, s2 := Run(s, es[..j]), Run(s, es);
    Waits(s1, t) && Waits(s2, t) && s1.place[t] == s2.place[t] && ThreadOf(s1, t).priority == ThreadOf(s2, t).priority
  }

  lemma ShorterRun(s: State, es: seq<Event>, j: nat, t: int)
    requires 0 < j <= |es|
    ensures WaitsAsAtEnd(s, es, j, t) == WaitsAsAtEnd(Step(s, es[0]), es[1..], j - 1, t)
  {
    assert es[..j][0] == es[0] && es[..j][1..] == es[1..][..j - 1];
  }

  /** Thread t has waited as it waits at the end since the step that is noted, and did not before it. */
  ghost predicate WaitsSince(s: State, since: Since, n: nat, es: seq<Event>, t: int, since': Since) {
    && t in since'
    && if since'[t] < n then t in since && since'[t] == since[t] && forall j :: 0 <= j <= |es| ==> WaitsAsAtEnd(s, es, j, t)
       else && since'[t] < n + |es|
            && !WaitsAsAtEnd(s, es, since'[t] - n, t)
            && forall j :: since'[t] - n < j <= |es| ==> WaitsAsAtEnd(s, es, j, t)
  }

  /** What the notes of a run say: a thread that waits at its end has waited at that semaphore and at that
      priority ever since the step that is noted, and did not before that step. */
  lemma {:induction false} NotedWhen(s: State, since: Since, n: nat, es: seq<Event>, t: int)
    requires Noted(s, since, n) && Waits(Run(s, es), t)
    ensures WaitsSince(s, since, n, es, t, NotedOver(s, since, n, es))
    decreases |es|
  {
    if es == [] {
      assert es[..0] == es;
    } else {
      var s1 := Step(s, es[0]);
      StillNoted(s, s1, since, n);
      NotedWhen(s1, NotedAfter(s, s1, since, n), n + 1, es[1..], t);
      forall j: nat | 0 < j <= |es| ensures WaitsAsAtEnd(s, es, j, t) == WaitsAsAtEnd(s1, es[1..], j - 1, t) {
        ShorterRun(s, es, j, t);
      }
      NotedFirst(s, since, n, es, t, s1, NotedOver(s, since, n, es));
    }
  }

  lemma NotedFirst(s: State, since: Since, n: nat, es: seq<Event>, t: int, s1: State, since': Since)
    requires Noted(s, since, n) && es != []
    requires s1 == Run(s, es[..1]) && Run(s, es) == Run(s1, es[1..])
    requires forall j: nat :: 0 < j <= |es| ==> WaitsAsAtEnd(s, es, j, t) == WaitsAsAtEnd(s1, es[1..], j - 1, t)
    requires WaitsSince(s1, NotedAfter(s, s1, since, n), n + 1, es[1..], t, since')
    ensures WaitsSince(s, since, n, es, t, since')
  {
    if since'[t] < n + 1 {
      assert WaitsAsAtEnd(s1, es[1..], 0, t) && WaitsAsAtEnd(s, es, 1, t);
      assert es[..0] == [];
      forall j: nat | 0 < j <= |es| ensures WaitsAsAtEnd(s, es, j, t) {
        assert WaitsAsAtEnd(s1, es[1..], j - 1, t);
      }
    } else {
      var k := since'[t] - n;
      assert WaitsAsAtEnd(s, es, k, t) == WaitsAsAtEnd(s1, es[1..], k - 1, t);
      forall j: nat | k < j <= |es| ensures WaitsAsAtEnd(s, es, j, t) {
        assert WaitsAsAtEnd(s1, es[1..], j - 1, t);
      }
    }
  }

  /** In a run that sets priorities of waiting threads only between those of their neighbours, the waiting
      threads are in order all the time. */
  lemma {:induction false} RunOrder(s: State, since: Since, n: nat, byTime: bool, es: seq<Event>)
    requires Inv(s) && Possible(s, es) && Noted(s, since, n) && InOrder(s, since, byTime) && AllKeepOrder(s, es, byTime)
    ensures InOrder(Run(s, es), NotedOver(s, since, n, es), byTime)
    decreases |es|
  {
    if es != [] {
      StepInv(s, es[0]);
      StepOrder(s, since, n, byTime, es[0]);
      RunOrder(Step(s, es[0]), NotedAfter(s, Step(s, es[0]), since, n), n + 1, byTime, es[1..]);
    }
  }

  lemma RestBehind(s: State, since: Since, byTime: bool, l: seq<int>)
    requires QueueInOrder(s, since, byTime, l) && l != []
    ensures forall u :: u in l[1..] ==> Ahead(s, since, byTime, l[0], u)
  {
    forall u | u in l[1..] ensures Ahead(s, since, byTime, l[0], u) {
      var j :| 0 <= j < |l[1..]| && l[1..][j] == u;
      assert l[j + 1] == u;
    }
  }

  /** A post takes the front thread off the queue and makes it runnable. */
  lemma PostTakesFront(s: State, x: int)
    requires Inv(s) && List(s, Pending(x)) != []
    ensures var l, s' := List(s, Pending(x)), SemaphorePost(s, x);
            List(s', Pending(x)) == l[1..] && l[0] in s'.place && s'.place[l[0]].Running?
  {
    QueueAfter(s, Post(x), x);
    FrontServed(s, x);
  }

  lemma RunOrderFromStart(idle: int, priority: nat, others: map<int, nat>, es: seq<Event>, byTime: bool)
    requires idle != NULL && priority < PRIORITIES && NULL !in others
    requires var s0 := Initial(idle, priority, others); Possible(s0, es) && AllKeepOrder(s0, es, byTime)
    ensures var s0 := Initial(idle, priority, others);
            Inv(Run(s0, es)) && InOrder(Run(s0, es), NotedOver(s0, map[], 0, es), byTime)
  {
    var s0 := Initial(idle, priority, others);
    InitialInv(idle, priority, others);
    assert InOrder(s0, map[], byTime);
    RunInv(s0, es);
    RunOrder(s0, map[], 0, byTime, es);
  }

  /** Of the threads that wait for semaphore x, a post wakes one of the highest priority and, where the
      time of waiting is kept, the one of them that has waited longest at it. */
  lemma PostServes(idle: int, priority: nat, others: map<int, nat>, es: seq<Event>, byTime: bool, x: int)
    requires idle != NULL && priority < PRIORITIES && NULL !in others
    requires var s0 := Initial(idle, priority, others); Possible(s0, es) && AllKeepOrder(s0, es, byTime)
    requires List(Run(Initial(idle, priority, others), es), Pending(x)) != []
    ensures var s0 := Initial(idle, priority, others);
            var s, since := Run(s0, es), NotedOver(s0, map[], 0, es);
            var l, s' := List(s, Pending(x)), SemaphorePost(s, x);
            && List(s', Pending(x)) == l[1..] && l[0] in s'.place && s'.place[l[0]].Running?
            && forall u :: u in l[1..] ==> Ahead(s, since, byTime, l[0], u)
  {
    var s0 := Initial(idle, priority, others);
    var s, since := Run(s0, es), NotedOver(s0, map[], 0, es);
    RunOrderFromStart(idle, priority, others, es, byTime);
    PostTakesFront(s, x);
    RestBehind(s, since, byTime, List(s, Pending(x)));
  }

  lemma FrontServed(s: State, x: int)
    requires Inv(s) && List(s, Pending(x)) != []
    ensures CounterOf(s, x) < 0
    ensures var t, s' := List(s, Pending(x))[0], SemaphorePost(s, x); t in s'.place && s'.place[t].Running?
  {
    var t := List(s, Pending(x))[0];
    assert SemaphoreAt(s, x);
    assert SemaphorePost(s, x).place == Woken(Counted(s, x, 1), t).place;
  }
}
