/** Sleeping, time-outs and the clock tick (lib/src/thread/schedule.c, timer.c, contextSwitch.h). */
module Timeouts {
  import opened Basics
  import opened LinkedLists
  import opened SchedulerState
  import opened SchedulerOps

  // ---------- what an expired timer does ----------

  /** monitorWaitExpired: the waiter enters the monitor at the depth it left it, or queues for it. */
  function WaitExpired(s: State, t: int): State {
    var d, m := ThreadOf(s, t), ThreadOf(s, t).waitMonitor;
    if MonitorOf(s, m).owner != NULL then Moved(s, t, BlockedOn(m), d.(status := BlockedOnMonitor))
    else Moved(s.(monitors := s.monitors[m := Monitor(t, d.waitDepth)]), t, Running(d.priority),
               d.(waitMonitor := NULL, status := StatusRunning))
  }

  /** The first timer is taken off the queue and its callback is called. threadSleepExpired wakes the
      sleeper. */
  function Fired(s: State): State
    requires s.timers != []
  {
    var timer, off := s.timers[0], s.(timers := s.timers[1..]);
    match timer.callback
    case MonitorWaitExpired => WaitExpired(off, timer.thread)
    case ThreadSleepExpired => Woken(off, timer.thread)
  }

  /** updateTimerQueue: fires the first timer until the first one is still to come. */
  function Updated(s: State, now: int): State
    decreases |s.timers|
  {
    if s.timers == [] || now < s.timers[0].time then s else Updated(Fired(s), now)
  }

  lemma FirstTimer(s: State)
    requires Timers(s) && s.timers != []
    ensures Timed(s, s.timers[0].thread)
    ensures WithoutTimer(s.timers, s.timers[0].thread) == s.timers[1..]
    ensures s.timers[0].callback.ThreadSleepExpired? <==> s.place[s.timers[0].thread].Sleeping?
  {
    assert TimerAt(s, 0);
  }

  /** Where the thread of the first timer goes. */
  function Destination(s: State): Place
    requires s.timers != []
  {
    var d := ThreadOf(s, s.timers[0].thread);
    if s.timers[0].callback.MonitorWaitExpired? && MonitorOf(s, d.waitMonitor).owner != NULL then BlockedOn(d.waitMonitor)
    else Running(d.priority)
  }

  /** Whoever owns the monitor, moving the waiter keeps all but the timers. */
  lemma WaiterMoved(s: State, t: int, m: int)
    requires ConsistentBut(s, m) && MonitorAt(s, m) && m != NULL && t in s.threads && ThreadOf(s, t).waitMonitor == m
    requires t in s.place && s.place[t] == AsleepOn(m) && StatusOk(ThreadOf(s, t), AsleepOn(m))
    ensures ConsistentBut(WaitExpired(s, t), m) && MonitorAt(WaitExpired(s, t), m) && OnlyThread(s, WaitExpired(s, t), t)
  {
    var d := ThreadOf(s, t);
    assert ThreadAt(s, t);
    if MonitorOf(s, m).owner != NULL {
      MovedMost(s, t, BlockedOn(m), d.(status := BlockedOnMonitor), m);
      MovedMonitor(s, t, BlockedOn(m), d.(status := BlockedOnMonitor), m);
    } else {
      var given := s.(monitors := s.monitors[m := Monitor(t, d.waitDepth)]);
      OnlyMonitor(s, given, m);
      MovedMost(given, t, Running(d.priority), d.(waitMonitor := NULL, status := StatusRunning), m);
      assert MonitorAt(WaitExpired(s, t), m);
    }
  }

  lemma FiredWaiter(s: State)
    requires Consistent(s) && s.timers != [] && s.timers[0].callback.MonitorWaitExpired?
    ensures Consistent(Fired(s))
    ensures OnlyThread(s, Fired(s), s.timers[0].thread)
  {
    var t := s.timers[0].thread;
    FirstTimer(s);
    assert ThreadAt(s, t) && TimerAt(s, 0);
    var m, off, s' := ThreadOf(s, t).waitMonitor, s.(timers := s.timers[1..]), Fired(s);
    assert MonitorAt(s, m) && MonitorAt(s, NULL);
    OtherTimers(s, off, m);
    WaiterMoved(off, t, m);
    TimersRemoved(s, s', t);
  }

  lemma FiredSleeper(s: State)
    requires Consistent(s) && s.timers != [] && s.timers[0].callback.ThreadSleepExpired?
    ensures Consistent(Fired(s))
    ensures OnlyThread(s, Fired(s), s.timers[0].thread)
  {
    var t := s.timers[0].thread;
    FirstTimer(s);
    assert ThreadAt(s, t);
    var d, off, s' := ThreadOf(s, t), s.(timers := s.timers[1..]), Fired(s);
    assert MonitorAt(s, NULL);
    OtherTimers(s, off, NULL);
    MovedMost(off, t, Running(d.priority), d.(status := StatusRunning), NULL);
    MovedMonitor(off, t, Running(d.priority), d.(status := StatusRunning), NULL);
    TimersRemoved(s, s', t);
  }

  lemma FiredConsistent(s: State)
    requires Consistent(s) && s.timers != []
    ensures Consistent(Fired(s)) && OnlyThread(s, Fired(s), s.timers[0].thread)
    ensures Fired(s).timers == s.timers[1..] && Fired(s).current == s.current
  {
    if s.timers[0].callback.MonitorWaitExpired? {
      FiredWaiter(s);
    } else {
      FiredSleeper(s);
    }
  }

  /** Thread t has gone from the list it slept on to the end of list q; s' has the lists that follow. */
  ghost predicate Went(s: State, s': State, t: int, q: Place) {
    && (forall p: Place :: p.Running? || p.BlockedOn? ==> List(s', p) == List(s, p) + if p == q then [t] else [])
    && (forall p: Place :: !p.Running? && !p.BlockedOn? ==> List(s', p) == Without(List(s, p), t))
    && t in s'.place && s'.place[t] == q
  }

  lemma MovedWent(s: State, given: State, t: int, q: Place, data: Thread)
    requires Placed(s) && given.lists == s.lists && given.place == s.place && (q.Running? || q.BlockedOn?)
    requires t in s.place && !s.place[t].Running? && !s.place[t].BlockedOn?
    ensures Went(s, Moved(given, t, q, data), t, q)
  {
    SamePlaced(s, given);
    MovedLists(given, t, q, data);
    forall p ensures LeftOver(s, t, p) == Without(List(s, p), t) {
      Member(s, t, p);
      WithoutAbsent(List(s, p), t);
    }
  }

  lemma SleeperGoes(s: State)
    requires Placed(s) && s.timers != [] && s.timers[0].callback.ThreadSleepExpired?
    requires var t := s.timers[0].thread; t in s.place && s.place[t].Sleeping?
    ensures Went(s, Fired(s), s.timers[0].thread, Destination(s))
  {
    var t, d := s.timers[0].thread, ThreadOf(s, s.timers[0].thread);
    MovedWent(s, s.(timers := s.timers[1..]), t, Running(d.priority), d.(status := StatusRunning));
  }

  lemma WaiterGoes(s: State)
    requires Placed(s) && s.timers != [] && s.timers[0].callback.MonitorWaitExpired?
    requires var t := s.timers[0].thread; t in s.place && s.place[t].AsleepOn?
    ensures Went(s, Fired(s), s.timers[0].thread, Destination(s))
  {
    var t, d := s.timers[0].thread, ThreadOf(s, s.timers[0].thread);
    var m, off := d.waitMonitor, s.(timers := s.timers[1..]);
    if MonitorOf(s, m).owner != NULL {
      MovedWent(s, off, t, BlockedOn(m), d.(status := BlockedOnMonitor));
    } else {
      MovedWent(s, off.(monitors := s.monitors[m := Monitor(t, d.waitDepth)]), t, Running(d.priority),
                d.(waitMonitor := NULL, status := StatusRunning));
    }
  }

  /** The thread leaves the list it slept on and joins the end of the list it goes to; no other list
      changes. */
  lemma FiredLists(s: State)
    requires Consistent(s) && s.timers != []
    ensures forall p: Place :: p.Running? || p.BlockedOn? ==>
              List(Fired(s), p) == List(s, p) + if p == Destination(s) then [s.timers[0].thread] else []
    ensures forall p: Place :: !p.Running? && !p.BlockedOn? ==> List(Fired(s), p) == Without(List(s, p), s.timers[0].thread)
    ensures s.timers[0].thread in Fired(s).place && Fired(s).place[s.timers[0].thread] == Destination(s)
  {
    var t := s.timers[0].thread;
    FirstTimer(s);
    assert ThreadAt(s, t) && TimerAt(s, 0);
    if s.timers[0].callback.ThreadSleepExpired? {
      SleeperGoes(s);
    } else {
      WaiterGoes(s);
    }
  }

  lemma FiredFront(s: State)
    requires Inv(s) && s.timers != []
    ensures CurrentInFront(Fired(s))
  {
    FirstTimer(s);
    FiredLists(s);
    FiredConsistent(s);
    assert s.current != s.timers[0].thread;
  }

  lemma {:induction false} UpdatedInv(s: State, now: int)
    requires Inv(s)
    ensures Inv(Updated(s, now)) && Updated(s, now).current == s.current
    decreases |s.timers|
  {
    if s.timers != [] && s.timers[0].time <= now {
      FiredConsistent(s);
      FiredFront(s);
      UpdatedInv(Fired(s), now);
    }
  }

  // ---------- exactly the timers that are due fire, in order ----------

  /** How many timers are due. */
  function Due(timers: seq<Timer>, now: int): (n: nat)
    ensures n <= |timers|
    ensures n < |timers| ==> now < timers[n].time
    ensures forall i :: 0 <= i < n ==> timers[i].time <= now
  {
    if timers == [] || now < timers[0].time then 0 else 1 + Due(timers[1..], now)
  }

  /** The first thread with a due timer that waits for monitor m. */
  function Heir(s: State, due: seq<Timer>, m: int): int {
    if due == [] then NULL
    else if due[0].callback.MonitorWaitExpired? && ThreadOf(s, due[0].thread).waitMonitor == m then due[0].thread
    else Heir(s, due[1..], m)
  }

  /** Where the thread of a due timer goes, as the state before tells: a sleeper runs; of the waiters for a
      free monitor the first runs, and all others queue for their monitors. */
  function GoesTo(s: State, due: seq<Timer>, timer: Timer): Place {
    var d := ThreadOf(s, timer.thread);
    if timer.callback.MonitorWaitExpired? && (MonitorOf(s, d.waitMonitor).owner != NULL || Heir(s, due, d.waitMonitor) != timer.thread)
    then BlockedOn(d.waitMonitor)
    else Running(d.priority)
  }

  /** Monitor m after the timers have fired: if it was free its heir owns it, at the depth it waited at. */
  function MonitorFor(s: State, due: seq<Timer>, m: int): Monitor {
    var heir := Heir(s, due, m);
    if MonitorOf(s, m).owner == NULL && heir != NULL then Monitor(heir, ThreadOf(s, heir).waitDepth) else MonitorOf(s, m)
  }

  /** The threads of some of the due timers that go to place p, in the order of the timers. */
  function Arrivals(s: State, due: seq<Timer>, timers: seq<Timer>, p: Place): seq<int>
    decreases |timers|
  {
    if timers == [] then []
    else (if GoesTo(s, due, timers[0]) == p then [timers[0].thread] else []) + Arrivals(s, due, timers[1..], p)
  }

  /** List l once the threads of some timers have left it. */
  function Remaining(l: seq<int>, timers: seq<Timer>): seq<int>
    decreases |timers|
  {
    if timers == [] then l else Remaining(Without(l, timers[0].thread), timers[1..])
  }

  ghost predicate ArrivedAt(s: State, s': State, due: seq<Timer>, i: nat)
    requires i < |due|
  {
    due[i].thread in s'.place && s'.place[due[i].thread] == GoesTo(s, due, due[i])
  }

  /** The threads whose timers are due leave their lists and go where the state before sends them, in the
      order of their timers; a free monitor goes to its heir; every other thread stays where it was. */
  ghost predicate Fires(s: State, s': State, n: nat)
    requires n <= |s.timers|
  {
    var due := s.timers[..n];
    && s'.timers == s.timers[n..]
    && (forall t :: !HasTimer(due, t) ==> (t in s'.place <==> t in s.place) && (t in s.place ==> s'.place[t] == s.place[t]))
    && (forall i :: 0 <= i < n ==> ArrivedAt(s, s', due, i))
    && (forall p: Place :: p.Running? || p.BlockedOn? ==> List(s', p) == List(s, p) + Arrivals(s, due, due, p))
    && (forall p: Place :: !p.Running? && !p.BlockedOn? ==> List(s', p) == Remaining(List(s, p), due))
    && (forall m :: MonitorOf(s', m) == MonitorFor(s, due, m))
  }

  /** Every timer that is left is still to come. */
  lemma NotDue(timers: seq<Timer>, now: int)
    requires TimerOrder(timers)
    ensures forall i :: Due(timers, now) <= i < |timers| ==> now < timers[i].time
  {
    var n := Due(timers, now);
    forall i | n <= i < |timers| ensures now < timers[i].time {
      if i > n {
        assert timers[n].time <= timers[i].time;
      }
    }
  }

  /** s1 is s with its first timer fired: one thread has moved, to the end of a list, and may have got a
      free monitor. */
  ghost predicate FirstMoved(s: State, s1: State)
    requires s.timers != []
  {
    var t, q := s.timers[0].thread, Destination(s);
    && t != NULL && s1.timers == s.timers[1..] && OnlyThread(s, s1, t) && t in s1.place && s1.place[t] == q
    && (forall p: Place :: p.Running? || p.BlockedOn? ==> List(s1, p) == List(s, p) + if p == q then [t] else [])
    && (forall p: Place :: !p.Running? && !p.BlockedOn? ==> List(s1, p) == Without(List(s, p), t))
    && (forall m :: MonitorOf(s1, m) == if WaitsFor(s, 0, m) && MonitorOf(s, m).owner == NULL then Monitor(t, ThreadOf(s, t).waitDepth) else MonitorOf(s, m))
  }

  /** The thread of timer i waits for monitor m. */
  predicate WaitsFor(s: State, i: nat, m: int)
    requires i < |s.timers|
  {
    s.timers[i].callback.MonitorWaitExpired? && ThreadOf(s, s.timers[i].thread).waitMonitor == m
  }

  lemma FiredMoved(s: State)
    requires Consistent(s) && s.timers != []
    ensures FirstMoved(s, Fired(s))
  {
    FiredConsistent(s);
    FiredLists(s);
    FirstTimer(s);
    assert ThreadAt(s, s.timers[0].thread);
  }

  /** Later waiters find the same heir, whether the first timer has fired or not. */
  lemma {:induction false} SameHeir(s: State, s1: State, due: seq<Timer>, m: int, t: int)
    requires OnlyThread(s, s1, t) && !HasTimer(due, t)
    ensures Heir(s1, due, m) == Heir(s, due, m)
  {
    if due != [] {
      assert due[0].thread != t;
      forall i | 0 <= i < |due[1..]| ensures due[1..][i].thread != t {
        assert due[i + 1].thread != t;
      }
      SameHeir(s, s1, due[1..], m, t);
    }
  }

  lemma {:induction false} HeirHasTimer(s: State, due: seq<Timer>, m: int)
    ensures Heir(s, due, m) != NULL ==> HasTimer(due, Heir(s, due, m))
  {
    if due != [] {
      HeirHasTimer(s, due[1..], m);
      if HasTimer(due[1..], Heir(s, due[1..], m)) {
        var i :| 0 <= i < |due[1..]| && due[1..][i].thread == Heir(s, due[1..], m);
        assert due[i + 1].thread == Heir(s, due[1..], m);
      }
    }
  }

  /** s1 is s after the first of the due timers has fired. */
  ghost predicate FirstFired(s: State, s1: State, due: seq<Timer>) {
    && s.timers != [] && due != [] && due[0] == s.timers[0] && FirstMoved(s, s1)
    && !HasTimer(due[1..], due[0].thread)
  }

  lemma MonitorStep(s: State, s1: State, due: seq<Timer>, m: int)
    requires FirstFired(s, s1, due)
    ensures MonitorFor(s1, due[1..], m) == MonitorFor(s, due, m)
  {
    SameHeir(s, s1, due[1..], m, due[0].thread);
    HeirHasTimer(s, due[1..], m);
  }

  lemma GoesStep(s: State, s1: State, due: seq<Timer>, timer: Timer)
    requires FirstFired(s, s1, due) && timer.thread != due[0].thread
    ensures GoesTo(s1, due[1..], timer) == GoesTo(s, due, timer)
  {
    SameHeir(s, s1, due[1..], ThreadOf(s, timer.thread).waitMonitor, due[0].thread);
  }

  lemma FirstGoes(s: State, s1: State, due: seq<Timer>)
    requires FirstFired(s, s1, due)
    ensures GoesTo(s, due, due[0]) == Destination(s)
  {
  }

  lemma {:induction false} ArrivalsStep(s: State, s1: State, due: seq<Timer>, timers: seq<Timer>, p: Place)
    requires FirstFired(s, s1, due) && !HasTimer(timers, due[0].thread)
    ensures Arrivals(s1, due[1..], timers, p) == Arrivals(s, due, timers, p)
    decreases |timers|
  {
    if timers != [] {
      assert timers[0].thread != due[0].thread;
      GoesStep(s, s1, due, timers[0]);
      forall i | 0 <= i < |timers[1..]| ensures timers[1..][i].thread != due[0].thread {
        assert timers[i + 1].thread != due[0].thread;
      }
      ArrivalsStep(s, s1, due, timers[1..], p);
    }
  }

  lemma ArrivalsHead(s: State, due: seq<Timer>, p: Place)
    requires due != []
    ensures Arrivals(s, due, due, p) == (if GoesTo(s, due, due[0]) == p then [due[0].thread] else []) + Arrivals(s, due, due[1..], p)
  {
  }

  /** What arrives first arrives before the rest. */
  lemma ListStep(s: State, s1: State, due: seq<Timer>, p: Place, l': seq<int>)
    requires FirstFired(s, s1, due) && (p.Running? || p.BlockedOn?)
    requires l' == List(s1, p) + Arrivals(s1, due[1..], due[1..], p)
    ensures l' == List(s, p) + Arrivals(s, due, due, p)
  {
    var first, rest := if GoesTo(s, due, due[0]) == p then [due[0].thread] else [], Arrivals(s, due, due[1..], p);
    ArrivalsStep(s, s1, due, due[1..], p);
    ArrivalsHead(s, due, p);
    FirstList(s, s1, due, p);
    FirstThenRest(List(s, p), first, rest);
  }

  lemma FirstThenRest(l: seq<int>, first: seq<int>, rest: seq<int>)
    ensures l + first + rest == l + (first + rest)
  {
  }

  lemma FirstList(s: State, s1: State, due: seq<Timer>, p: Place)
    requires FirstFired(s, s1, due) && (p.Running? || p.BlockedOn?)
    ensures List(s1, p) == List(s, p) + if GoesTo(s, due, due[0]) == p then [due[0].thread] else []
  {
    FirstGoes(s, s1, due);
  }

  lemma ArrivedStep(s: State, s1: State, s': State, due: seq<Timer>, i: nat)
    requires FirstFired(s, s1, due) && i < |due|
    requires if i == 0 then due[0].thread in s'.place && s'.place[due[0].thread] == s1.place[due[0].thread]
             else ArrivedAt(s1, s', due[1..], i - 1)
    ensures ArrivedAt(s, s', due, i)
  {
    if i == 0 {
      FirstGoes(s, s1, due);
    } else {
      assert due[1..][i - 1] == due[i];
      GoesStep(s, s1, due, due[i]);
    }
  }

  /** One timer fires and then the next n - 1. */
  lemma FiresStep(s: State, s1: State, s': State, n: nat)
    requires 0 < n <= |s.timers| && TimerOrder(s.timers) && FirstMoved(s, s1) && Fires(s1, s', n - 1)
    ensures Fires(s, s', n)
  {
    var due := s.timers[..n];
    OnlyFirst(s.timers, n);
    assert due[1..] == s1.timers[..n - 1] == s.timers[1..][..n - 1];
    forall t | !HasTimer(due, t)
      ensures (t in s'.place <==> t in s.place) && (t in s.place ==> s'.place[t] == s.place[t])
    {
      NotFirst(s.timers, n, t);
    }
    forall i | 0 <= i < n ensures ArrivedAt(s, s', due, i) {
      assert i > 0 ==> ArrivedAt(s1, s', due[1..], i - 1);
      ArrivedStep(s, s1, s', due, i);
    }
    forall p: Place | p.Running? || p.BlockedOn? ensures List(s', p) == List(s, p) + Arrivals(s, due, due, p) {
      ListStep(s, s1, due, p, List(s', p));
    }
    forall p: Place | !p.Running? && !p.BlockedOn? ensures List(s', p) == Remaining(List(s, p), due) {
      RemainingStep(s.timers, n, List(s, p));
    }
    forall m ensures MonitorOf(s', m) == MonitorFor(s, due, m) {
      MonitorStep(s, s1, due, m);
    }
  }

  lemma RemainingStep(timers: seq<Timer>, n: nat, l: seq<int>)
    requires 0 < n <= |timers|
    ensures Remaining(l, timers[..n]) == Remaining(Without(l, timers[0].thread), timers[1..][..n - 1])
  {
    var due := timers[..n];
    assert due[0] == timers[0] && due[1..] == timers[1..][..n - 1];
  }

  lemma NotFirst(timers: seq<Timer>, n: nat, t: int)
    requires 0 < n <= |timers| && !HasTimer(timers[..n], t)
    ensures t != timers[0].thread && !HasTimer(timers[1..][..n - 1], t)
  {
    assert timers[..n][0] == timers[0];
    var rest := timers[1..][..n - 1];
    forall i | 0 <= i < |rest| ensures rest[i].thread != t {
      assert timers[..n][i + 1] == rest[i];
    }
  }

  lemma OnlyFirst(timers: seq<Timer>, n: nat)
    requires TimerOrder(timers) && 0 < n <= |timers|
    ensures !HasTimer(timers[1..][..n - 1], timers[0].thread)
  {
    var rest := timers[1..][..n - 1];
    forall i | 0 <= i < |rest| ensures rest[i].thread != timers[0].thread {
      assert rest[i] == timers[i + 1];
    }
  }

  lemma FiresNothing(s: State)
    ensures Fires(s, s, 0)
  {
    assert s.timers[..0] == [];
  }

  lemma FiresNext(s: State, s1: State, s': State, now: int)
    requires Consistent(s) && s.timers != [] && s.timers[0].time <= now && s1 == Fired(s)
    requires Due(s1.timers, now) <= |s1.timers| && Fires(s1, s', Due(s1.timers, now))
    ensures Fires(s, s', Due(s.timers, now))
  {
    FiredMoved(s);
    FiresStep(s, s1, s', Due(s.timers, now));
  }

  /** updateTimerQueue fires exactly the timers that are due, in the order of the queue. */
  lemma {:induction false} UpdateFires(s: State, now: int)
    requires Consistent(s)
    ensures Consistent(Updated(s, now))
    ensures Fires(s, Updated(s, now), Due(s.timers, now))
    decreases |s.timers|
  {
    if s.timers == [] || now < s.timers[0].time {
      FiresNothing(s);
    } else {
      var s1 := Fired(s);
      FiredConsistent(s);
      UpdateFires(s1, now);
      FiresNext(s, s1, Updated(s1, now), now);
    }
  }

  // ---------- what becomes of the threads whose timers fire ----------

  /** The data of a thread whose timer fires: a sleeper and a waiter that gets its monitor run, any other
      waiter queues. */
  function FiredData(s: State, due: seq<Timer>, timer: Timer): Thread {
    var d := ThreadOf(s, timer.thread);
    if timer.callback.ThreadSleepExpired? then d.(status := StatusRunning)
    else if GoesTo(s, due, timer).BlockedOn? then d.(status := BlockedOnMonitor)
    else d.(waitMonitor := NULL, status := StatusRunning)
  }

  ghost predicate DataAt(s: State, s': State, due: seq<Timer>, i: nat)
    requires i < |due|
  {
    ThreadOf(s', due[i].thread) == FiredData(s, due, due[i])
  }

  /** The threads whose timers are due have the data that the state before tells, all others are as they
      were. */
  ghost predicate FiresData(s: State, s': State, n: nat)
    requires n <= |s.timers|
  {
    var due := s.timers[..n];
    && (forall i :: 0 <= i < n ==> DataAt(s, s', due, i))
    && (forall t :: !HasTimer(due, t) ==> ThreadOf(s', t) == ThreadOf(s, t) && (t in s'.threads <==> t in s.threads))
    && s'.threads.Keys == s.threads.Keys && s'.idle == s.idle && s'.current == s.current
  }

  lemma FirstData(s: State)
    requires Consistent(s) && s.timers != []
    ensures FirstMoved(s, Fired(s)) && Fired(s).threads.Keys == s.threads.Keys
    ensures Fired(s).idle == s.idle && Fired(s).current == s.current
    ensures var timer, d := s.timers[0], ThreadOf(s, s.timers[0].thread);
            ThreadOf(Fired(s), timer.thread) == if timer.callback.ThreadSleepExpired? then d.(status := StatusRunning)
            else if Destination(s).BlockedOn? then d.(status := BlockedOnMonitor) else d.(waitMonitor := NULL, status := StatusRunning)
  {
    FiredMoved(s);
    FirstTimer(s);
    assert ThreadAt(s, s.timers[0].thread);
  }

  lemma DataStep(s: State, s1: State, s': State, due: seq<Timer>, i: nat)
    requires FirstFired(s, s1, due) && i < |due|
    requires i > 0 ==> due[i].thread != due[0].thread && DataAt(s1, s', due[1..], i - 1)
    requires i == 0 ==> ThreadOf(s', due[0].thread) == FiredData(s, due, due[0])
    ensures DataAt(s, s', due, i)
  {
    if i > 0 {
      assert due[1..][i - 1] == due[i];
      GoesStep(s, s1, due, due[i]);
    }
  }

  lemma FirstFiredData(s: State, s1: State, s': State, due: seq<Timer>)
    requires FirstFired(s, s1, due) && ThreadOf(s', due[0].thread) == ThreadOf(s1, due[0].thread)
    requires var d := ThreadOf(s, due[0].thread);
             ThreadOf(s1, due[0].thread) == if due[0].callback.ThreadSleepExpired? then d.(status := StatusRunning)
             else if Destination(s).BlockedOn? then d.(status := BlockedOnMonitor) else d.(waitMonitor := NULL, status := StatusRunning)
    ensures ThreadOf(s', due[0].thread) == FiredData(s, due, due[0])
  {
    FirstGoes(s, s1, due);
  }

  lemma DataNext(s: State, s1: State, s': State, n: nat)
    requires Consistent(s) && 0 < n <= |s.timers| && s1 == Fired(s) && n - 1 <= |s1.timers| && FiresData(s1, s', n - 1)
    ensures FiresData(s, s', n)
  {
    var due := s.timers[..n];
    FirstData(s);
    OnlyFirst(s.timers, n);
    assert due[1..] == s1.timers[..n - 1] == s.timers[1..][..n - 1];
    FirstFiredData(s, s1, s', due);
    forall i | 0 <= i < n ensures DataAt(s, s', due, i) {
      assert i > 0 ==> DataAt(s1, s', due[1..], i - 1);
      DataStep(s, s1, s', due, i);
    }
    forall t | !HasTimer(due, t) ensures ThreadOf(s', t) == ThreadOf(s, t) && (t in s'.threads <==> t in s.threads) {
      NotFirst(s.timers, n, t);
    }
  }

  lemma DataFollows(s: State, s1: State, s': State, now: int)
    requires Consistent(s) && s.timers != [] && s.timers[0].time <= now && s1 == Fired(s)
    requires Due(s1.timers, now) <= |s1.timers| && FiresData(s1, s', Due(s1.timers, now))
    ensures FiresData(s, s', Due(s.timers, now))
  {
    FirstData(s);
    DataNext(s, s1, s', Due(s.timers, now));
  }

  lemma {:induction false} UpdateData(s: State, now: int)
    requires Consistent(s)
    ensures FiresData(s, Updated(s, now), Due(s.timers, now))
    decreases |s.timers|
  {
    if s.timers == [] || now < s.timers[0].time {
      NoData(s);
    } else {
      var s1 := Fired(s);
      FiredConsistent(s);
      UpdateData(s1, now);
      DataFollows(s, s1, Updated(s1, now), now);
    }
  }

  lemma NoData(s: State)
    ensures FiresData(s, s, 0)
  {
    assert s.timers[..0] == [];
  }

  // ---------- sleeping ----------

  /** threadSleep by the current thread, until the deadline. */
  function Asleep(s: State, deadline: int): State {
    Moved(s.(timers := WithTimer(s.timers, Timer(s.current, ThreadSleepExpired, deadline))), s.current, Sleeping,
          ThreadOf(s, s.current).(status := AsleepTimedOut))
  }

  function ThreadSleep(s: State, deadline: int): State {
    Generated(Asleep(s, deadline))
  }

  lemma AsleepConsistent(s: State, deadline: int)
    requires Inv(s) && s.current != s.idle
    ensures Consistent(Asleep(s, deadline))
  {
    var t, d := s.current, ThreadOf(s, s.current).(status := AsleepTimedOut);
    assert ThreadAt(s, t) && MonitorAt(s, NULL);
    var timer := Timer(t, ThreadSleepExpired, deadline);
    var armed := s.(timers := WithTimer(s.timers, timer));
    OtherTimers(s, armed, NULL);
    MovedMost(armed, t, Sleeping, d, NULL);
    MovedMonitor(armed, t, Sleeping, d, NULL);
    TimersAdded(s, Asleep(s, deadline), timer);
  }

  lemma ThreadSleepRuns(s: State, deadline: int)
    requires Inv(s) && s.current != s.idle
    ensures RunsHighest(ThreadSleep(s, deadline))
  {
    AsleepConsistent(s, deadline);
    GeneratedRuns(Asleep(s, deadline));
  }

  // ---------- the clock ----------

  /** checkTimerQueue: the queue is looked at only when the tick of its first timer has been reached. */
  function Clocked(s: State, expired: bool, now: int): State {
    if expired then Updated(s, now) else s
  }

  /** concludeTimeShare, without time shares: the tick that ends a thread's turn. */
  function Tick(s: State, expired: bool, now: int): State {
    var fired := Clocked(s, expired, now);
    Generated(Rotated(fired, Running(ThreadOf(fired, fired.current).priority)))
  }

  /** interruptConditionalContextSwitch: any other tick or interrupt. */
  function Interrupt(s: State, expired: bool, now: int): State {
    Conditional(Clocked(s, expired, now))
  }

  lemma TickRuns(s: State, expired: bool, now: int)
    requires Inv(s)
    ensures RunsHighest(Tick(s, expired, now))
  {
    var fired := Clocked(s, expired, now);
    UpdatedInv(s, now);
    RotatedConsistent(fired, ThreadOf(fired, fired.current).priority);
    GeneratedRuns(Rotated(fired, Running(ThreadOf(fired, fired.current).priority)));
  }

  lemma InterruptRuns(s: State, expired: bool, now: int)
    requires Inv(s)
    ensures RunsHighest(Interrupt(s, expired, now))
  {
    UpdatedInv(s, now);
    ConditionalRuns(Clocked(s, expired, now));
  }
}
