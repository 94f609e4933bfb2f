/** The scheduler with its linked lists, bitmap and registers updated in place (lib/src/thread/schedule.c).
    Every method is proved to take the step that the state machine takes, on well-linked rings. */
module Scheduler {
  import opened Basics
  import opened LinkedLists
  import opened SchedulerState
  import opened SchedulerOps
  import opened Timeouts
  import opened ThreadOps
  import opened PriorityMap
  import opened ThreadLists
  import SchedulerRuns

  lemma TookReady(s: State, t: int)
    requires Placed(s) && t in s.place
    ensures var p, l := s.place[t], List(Took(s, t), s.place[t]);
            Ready(Took(s, t).lists) == if p.Running? && l == [] then Ready(s.lists) - {p.priority} else Ready(s.lists)
  {
    TookPlaced(s, t);
    Member(s, t, s.place[t]);
    assert List(s, s.place[t]) != [];
  }

  lemma PutReady(s: State, t: int, p: Place, slot: nat)
    requires slot <= |List(s, p)| && (p.Running? ==> p.priority < PRIORITIES)
    ensures Ready(PutAt(s, t, p, slot).lists) == if p.Running? then Ready(s.lists) + {p.priority} else Ready(s.lists)
  {
  }

  lemma RotatedReady(s: State, p: Place)
    ensures Ready(Rotated(s, p).lists) == Ready(s.lists)
  {
  }

  class Scheduler {
    const memory: Memory        // the list entry of every thread
    const queue: Memory         // the timer entry of every thread
    var first: map<Place, int>
    var timerList: int
    var callbacks: map<int, Timer>
    var bits: Bits
    var threads: map<int, Thread>
    var monitors: map<int, Monitor>
    var counters: map<int, int>
    var current: int
    const idle: int
    ghost var lists: map<Place, seq<int>>
    ghost var place: map<int, Place>
    ghost var timers: seq<Timer>

    ghost function Snapshot(): State
      reads this
    {
      State(lists, place, threads, monitors, counters, timers, current, idle)
    }

    /** The rings hold the lists and the timer queue, every thread has its entries, and the bitmap marks
        the running lists that are not empty. */
    ghost predicate Linked()
      reads this, memory, queue
    {
      && memory != queue && Rings(memory.links, first, lists) && TimerRing(queue.links, timerList, timers, callbacks)
      && threads.Keys <= memory.links.Keys && threads.Keys <= queue.links.Keys
      && Marks(bits, Ready(lists))
    }

    ghost predicate Valid()
      reads this, memory, queue
    {
      Inv(Snapshot()) && Linked()
    }

    /** The idle thread runs alone; the other threads, each with its priority, are still to be started. */
    constructor (idle: int, priority: nat, others: map<int, nat>)
      requires idle != NULL && priority < PRIORITIES && NULL !in others
      ensures Snapshot() == SchedulerRuns.Initial(idle, priority, others) && Valid()
      ensures fresh(memory) && fresh(queue)
    {
      this.idle, current := idle, idle;
      var entries := others.Keys + {idle};
      var m := new Memory(entries);
      var q := new Memory(entries);
      var list := m.AddOneToEnd(NULL, idle, []);
      memory, queue := m, q;
      first, timerList, callbacks := map[Running(priority) := list], NULL, map[];
      lists, bits := map[Running(priority) := [idle]], AddToPriorityMap(NO_BITS, priority);
      threads := (map t | t in others :: Thread(NotStarted, AsleepTimedOut, others[t], NULL, 0))
                   [idle := Thread(Active, StatusRunning, priority, NULL, 0)];
      monitors, counters, timers := map[], map[], [];
      place := map[idle := Running(priority)];
      new;
      SchedulerRuns.InitialInv(idle, priority, others);
      NothingMarked();
      AddMarks(NO_BITS, {}, priority);
      assert Ready(lists) == {} + {priority};
      assert IsRing(memory.links, list, [idle]) by {
        assert [] + [idle] == [idle];
      }
      forall p: Place ensures RingAt(memory.links, first, lists, p) {
      }
    }

    function First(p: Place): int
      reads this
    {
      FirstOf(first, p)
    }

    // ---------- moving threads between lists ----------

    /** threadListRemoveOne, on the rings. */
    method RemoveFrontEntry(p: Place) returns (t: int)
      requires Placed(Snapshot()) && Linked() && List(Snapshot(), p) != []
      modifies `first, memory
      ensures t == List(Snapshot(), p)[0]
      ensures Rings(memory.links, first, lists[p := lists[p][1..]]) && memory.links.Keys == old(memory.links.Keys)
    {
      ghost var l, links := lists[p], memory.links;
      RingFirst(links, first, lists, p);
      Disjoint(Snapshot(), p);
      var list: int;
      t, list := memory.RemoveOneFromFront(First(p), l);
      RingsUpdated(links, memory.links, first, lists, p, list, l[1..], l);
      first := first[p := list];
    }

    /** threadListRemoveThread, on the rings. */
    method RemoveEntry(t: int, p: Place)
      requires Placed(Snapshot()) && Linked() && t in List(Snapshot(), p)
      modifies `first, memory
      ensures Rings(memory.links, first, lists[p := Without(lists[p], t)]) && memory.links.Keys == old(memory.links.Keys)
    {
      ghost var l, links := lists[p], memory.links;
      Member(Snapshot(), t, p);
      ghost var k := IndexOf(l, t);
      RingFirst(links, first, lists, p);
      Disjoint(Snapshot(), p);
      WithoutAt(l, t, k);
      var list := memory.RemoveOne(First(p), t, l, k);
      RingsUpdated(links, memory.links, first, lists, p, list, Removed(l, k), l);
      first := first[p := list];
    }

    /** threadListAddThread, on the rings. */
    method AddEntry(t: int, p: Place)
      requires Placed(Snapshot()) && Linked() && t in threads && t !in place && t != NULL
      modifies `first, memory
      ensures Rings(memory.links, first, lists[p := ListIn(lists, p) + [t]]) && memory.links.Keys == old(memory.links.Keys)
    {
      ghost var l, links := ListIn(lists, p), memory.links;
      RingFirst(links, first, lists, p);
      Disjoint(Snapshot(), p);
      OnNoList(Snapshot(), t);
      var list := memory.AddOneToEnd(First(p), t, l);
      RingsUpdated(links, memory.links, first, lists, p, list, l + [t], l + [t]);
      first := first[p := list];
    }

    /** removePriority, once a thread has left running list p. */
    method Unmark(p: Place, ghost before: map<Place, seq<int>>)
      requires Rings(memory.links, first, lists) && (p.Running? ==> p.priority < PRIORITIES)
      requires Marks(bits, Ready(before))
      requires Ready(lists) == if p.Running? && ListIn(lists, p) == [] then Ready(before) - {p.priority} else Ready(before)
      modifies `bits
      ensures Marks(bits, Ready(lists))
    {
      if p.Running? {
        RemoveMarks(bits, Ready(before), p.priority, ListIn(lists, p) == []);
        RingFirst(memory.links, first, lists, p);
        bits := RemovePriority(bits, p.priority, First(p) == NULL);
      }
    }

    /** threadListRemoveOne, with removePriority for a running list. */
    method TakeFront(p: Place) returns (t: int)
      requires Placed(Snapshot()) && Linked() && List(Snapshot(), p) != [] && (p.Running? ==> p.priority < PRIORITIES)
      modifies `first, `lists, `bits, `place, memory
      ensures t == List(old(Snapshot()), p)[0]
      ensures Snapshot() == Took(old(Snapshot()), t) && Linked()
    {
      ghost var s := Snapshot();
      t := RemoveFrontEntry(p);
      assert t in List(s, p);
      Member(s, t, p);
      TookReady(s, t);
      FrontWithout(lists[p], t);
      lists, place := lists[p := lists[p][1..]], place - {t};
      Unmark(p, s.lists);
    }

    /** threadListRemoveThread, with removePriority for a running list. */
    method TakeThread(t: int, p: Place)
      requires Placed(Snapshot()) && Linked() && t in place && place[t] == p && (p.Running? ==> p.priority < PRIORITIES)
      modifies `first, `lists, `bits, `place, memory
      ensures Snapshot() == Took(old(Snapshot()), t) && Linked()
    {
      ghost var s := Snapshot();
      Member(s, t, p);
      TookReady(s, t);
      RemoveEntry(t, p);
      lists, place := lists[p := Without(lists[p], t)], place - {t};
      Unmark(p, s.lists);
    }

    /** threadListAddThread, with addToPriorityMap for a running list. */
    method AddLast(t: int, p: Place)
      requires Placed(Snapshot()) && Linked() && t in threads && t !in place && t != NULL && (p.Running? ==> p.priority < PRIORITIES)
      modifies `first, `lists, `bits, `place, memory
      ensures Snapshot() == PutAt(old(Snapshot()), t, p, |List(old(Snapshot()), p)|) && Linked()
    {
      ghost var s := Snapshot();
      ghost var l := ListIn(lists, p);
      PutReady(s, t, p, |l|);
      assert Inserted(l, |l|, t) == l + [t];
      AddEntry(t, p);
      lists, place := lists[p := l + [t]], place[t := p];
      if p.Running? {
        AddMarks(bits, Ready(s.lists), p.priority);
        bits := AddToPriorityMap(bits, p.priority);
      }
    }

    /** threadListMoveOne: the front thread goes to the end of another list. */
    method MoveFront(p: Place, q: Place, data: Thread) returns (t: int)
      requires Placed(Snapshot()) && Linked() && List(Snapshot(), p) != []
      requires List(Snapshot(), p)[0] in threads && List(Snapshot(), p)[0] != NULL
      requires (p.Running? ==> p.priority < PRIORITIES) && (q.Running? ==> q.priority < PRIORITIES)
      modifies `first, `lists, `bits, `place, `threads, memory
      ensures t == List(old(Snapshot()), p)[0]
      ensures Snapshot() == Moved(old(Snapshot()), t, q, data) && Linked()
    {
      ghost var s := Snapshot();
      t := TakeFront(p);
      TookPlaced(s, t);
      AddLast(t, q);
      threads := threads[t := data];
    }

    /** A thread leaves the list it is on for the end of another one. */
    method MoveThread(t: int, p: Place, q: Place, data: Thread)
      requires Placed(Snapshot()) && Linked() && t in place && place[t] == p && t in threads && t != NULL
      requires (p.Running? ==> p.priority < PRIORITIES) && (q.Running? ==> q.priority < PRIORITIES)
      modifies `first, `lists, `bits, `place, `threads, memory
      ensures Snapshot() == Moved(old(Snapshot()), t, q, data) && Linked()
    {
      ghost var s := Snapshot();
      TakeThread(t, p);
      TookPlaced(s, t);
      AddLast(t, q);
      threads := threads[t := data];
    }

    // ---------- context switches ----------

    /** getHighestPriorityThread. */
    method HighestPriorityThread() returns (t: int)
      requires Placed(Snapshot()) && Statuses(Snapshot()) && IdleReady(Snapshot()) && Linked()
      ensures t == HighestThread(Snapshot())
    {
      ghost var s := Snapshot();
      IdleCounts(s);
      HighestReady(s, bits);
      HighestKnown(s);
      RingFirst(memory.links, first, lists, Running(GetHighestPriority(bits)));
      t := First(Running(GetHighestPriority(bits)));
    }

    /** Returns the thread that is in front afterwards. */
    method RotateRunningThreadList() returns (t: int)
      requires Linked() && current in threads
      modifies `first, `lists
      ensures Snapshot() == Rotated(old(Snapshot()), Running(threads[current].priority)) && Linked()
      ensures t == First(Running(threads[current].priority))
    {
      ghost var s := Snapshot();
      var p := Running(threads[current].priority);
      ghost var l := ListIn(lists, p);
      RotatedReady(s, p);
      RingFirst(memory.links, first, lists, p);
      t := memory.RotateOneFrontToEnd(First(p), l);
      FirstEntry(memory.links, t, if l == [] then [] else l[1..] + [l[0]]);
      if t != NULL {
        RingsUpdated(memory.links, memory.links, first, lists, p, t, l[1..] + [l[0]], []);
        first := first[p := t];
        lists := lists[p := l[1..] + [l[0]]];
      }
    }

    method GeneratedContextSwitch()
      requires Consistent(Snapshot()) && Linked()
      modifies `current
      ensures Snapshot() == Generated(old(Snapshot())) && Valid()
    {
      GeneratedRuns(Snapshot());
      current := HighestPriorityThread();
    }

    /** Another thread runs, if one of higher priority is in front. */
    method SwitchToHighest()
      requires Placed(Snapshot()) && Statuses(Snapshot()) && IdleReady(Snapshot()) && Linked() && current in threads
      modifies `current, `first, `lists
      ensures Snapshot() == Conditional(old(Snapshot())) && Linked()
    {
      var high := HighestPriorityThread();
      if high != current {
        var front := RotateRunningThreadList();
        current := high;
      }
    }

    method ConditionalContextSwitch()
      requires Inv(Snapshot()) && Linked()
      modifies `current, `first, `lists
      ensures Snapshot() == Conditional(old(Snapshot())) && Valid()
    {
      ConditionalRuns(Snapshot());
      SwitchToHighest();
    }

    /** moveCurrentThreadFromRunningThreads, with what the caller stores in the thread. */
    method MoveCurrent(q: Place, data: Thread)
      requires Valid() && (q.Running? ==> q.priority < PRIORITIES)
      modifies `first, `lists, `bits, `place, `threads, memory
      ensures Snapshot() == Moved(old(Snapshot()), old(current), q, data) && Linked()
    {
      assert ThreadAt(Snapshot(), current);
      var t := MoveFront(Running(threads[current].priority), q, data);
    }

    // ---------- monitors ----------

    function MonitorIn(m: int): Monitor
      reads this
    {
      if m in monitors then monitors[m] else Monitor(NULL, 0)
    }

    method ReleaseBlockedThread(m: int)
      requires ConsistentBut(Snapshot(), m) && Linked()
      modifies `first, `lists, `bits, `place, `threads, `monitors, memory
      ensures Snapshot() == Released(old(Snapshot()), m) && Linked()
    {
      var p := BlockedOn(m);
      RingFirst(memory.links, first, lists, p);
      var t := First(p);
      if t == NULL {
        monitors := monitors[m := MonitorIn(m).(owner := NULL)];
      } else {
        ghost var s := Snapshot();
        assert t in List(s, p);
        Member(s, t, p);
        assert ThreadAt(s, t);
        var d := threads[t];
        monitors := monitors[m := Monitor(t, if d.waitMonitor != NULL then d.waitDepth else 1)];
        SamePlaced(s, Snapshot());
        t := MoveFront(p, Running(d.priority), d.(waitMonitor := NULL, status := StatusRunning));
      }
    }

    method Enter(m: int)
      requires Valid() && m != NULL && (current == idle ==> MonitorIn(m).owner == NULL || MonitorIn(m).owner == current)
      modifies this, memory, queue
      ensures Snapshot() == MonitorEnter(old(Snapshot()), m) && Valid()
    {
      MonitorEnterInv(Snapshot(), m);
      var monitor := MonitorIn(m);
      if monitor.owner == NULL {
        monitors := monitors[m := Monitor(current, 1)];
      } else if monitor.owner == current {
        monitors := monitors[m := monitor.(depth := monitor.depth + 1)];
      } else {
        EnterBlockedMonitor(m);
      }
    }

    method EnterBlockedMonitor(m: int)
      requires Valid() && m != NULL && current != idle && MonitorIn(m).owner != NULL && MonitorIn(m).owner != current
      modifies this, memory, queue
      ensures Snapshot() == Generated(BlockedAsCurrent(old(Snapshot()), m)) && Valid()
    {
      BlockedConsistent(Snapshot(), m);
      MoveCurrent(BlockedOn(m), threads[current].(status := BlockedOnMonitor));
      GeneratedContextSwitch();
    }

    method Exit(m: int)
      requires Valid() && m != NULL && MonitorIn(m).owner == current
      modifies this, memory, queue
      ensures Snapshot() == MonitorExit(old(Snapshot()), m) && Valid()
    {
      ghost var s := Snapshot();
      assert MonitorAt(s, m);
      MonitorExitInv(s, m);
      var depth := MonitorIn(m).depth - 1;
      monitors := monitors[m := MonitorIn(m).(depth := depth)];
      if depth == 0 {
        RingFirst(memory.links, first, lists, BlockedOn(m));
        if First(BlockedOn(m)) != NULL {
          ExitReleases(s, Snapshot(), m);
          ReleaseBlockedThread(m);
          ConditionalContextSwitch();
        } else {
          monitors := monitors[m := MonitorIn(m).(owner := NULL)];
        }
      }
    }

    method Wait(m: int, timed: bool, deadline: int)
      requires Valid() && m != NULL && MonitorIn(m).owner == current && current != idle
      modifies this, memory, queue
      ensures Snapshot() == MonitorWait(old(Snapshot()), m, timed, deadline) && Valid()
    {
      FallsAsleepConsistent(Snapshot(), m, timed, deadline);
      ReleasedConsistent(FallsAsleep(Snapshot(), m, timed, deadline), m);
      FallAsleep(m, timed, deadline);
      ReleaseBlockedThread(m);
      GeneratedContextSwitch();
    }

    /** The current thread leaves the running threads to sleep on monitor m. */
    method FallAsleep(m: int, timed: bool, deadline: int)
      requires Valid()
      modifies `first, `timerList, `callbacks, `timers, `lists, `bits, `place, `threads, memory, queue
      ensures Snapshot() == FallsAsleep(old(Snapshot()), m, timed, deadline) && Linked()
    {
      ghost var s := Snapshot();
      assert ThreadAt(s, current);
      var t := current;
      MoveCurrent(AsleepOn(m), threads[t].(waitMonitor := m, waitDepth := MonitorIn(m).depth,
                  status := if timed then AsleepTimedOutOnMonitor else AsleepOnMonitor));
      if timed {
        CurrentUntimed(s);
        SetTimerCallback(Timer(t, MonitorWaitExpired, deadline));
      }
    }

    method Notify(m: int)
      requires Valid() && m != NULL && MonitorIn(m).owner != NULL
      modifies this, memory, queue
      ensures Snapshot() == MonitorNotify(old(Snapshot()), m) && Valid()
    {
      RingFirst(memory.links, first, lists, AsleepOn(m));
      var t := First(AsleepOn(m));
      if t != NULL {
        assert t in List(Snapshot(), AsleepOn(m));
        NotifiedInv(Snapshot(), m, t);
        NotifyFront(m, t);
        ConditionalContextSwitch();
      }
    }

    /** The first sleeper goes to the end of the blocked list. */
    method NotifyFront(m: int, t: int)
      requires Placed(Snapshot()) && Statuses(Snapshot()) && Timers(Snapshot()) && Linked()
      requires List(Snapshot(), AsleepOn(m)) != [] && List(Snapshot(), AsleepOn(m))[0] == t
      modifies `first, `timerList, `timers, `lists, `bits, `place, `threads, memory, queue
      ensures Snapshot() == Notified(old(Snapshot()), m, t) && Linked()
    {
      ghost var s := Snapshot();
      assert t in List(s, AsleepOn(m));
      Member(s, t, AsleepOn(m));
      assert ThreadAt(s, t);
      if threads[t].status.AsleepTimedOutOnMonitor? {
        assert Timed(s, t);
        RemoveTimerCallback(t);
      }
      SamePlaced(s, Snapshot());
      var moved := MoveFront(AsleepOn(m), BlockedOn(m), threads[t]);
    }

    /** The loop of monitorNotifyAll, once around the ring of sleepers: the timers of those that have one
        are taken off. */
    method RemoveTimerCallbacks(m: int, ghost l: seq<int>)
      requires Linked() && l == ListIn(lists, AsleepOn(m)) && l != [] && AllTimed(timers, threads, l) && TimerOrder(timers)
      modifies `timerList, `timers, queue
      ensures timers == Quieted(old(timers), threads, l) && Linked()
    {
      var front := First(AsleepOn(m));
      var t := front;
      ghost var i := 0;
      assert RingAt(memory.links, first, lists, AsleepOn(m));
      while true
        invariant 0 <= i < |l| && t == l[i] && front == l[0] && Linked() && TimerOrder(timers)
        invariant AllTimed(timers, threads, l[i..])
        invariant Quieted(timers, threads, l[i..]) == Quieted(old(timers), threads, l)
        decreases |l| - i
      {
        assert LinkedAt(memory.links, l, i);
        NextQuieted(timers, threads, l, i);
        if t in threads && threads[t].status.AsleepTimedOutOnMonitor? {
          RemoveTimerCallback(t);
        }
        t := memory.links[t].next;
        i := i + 1;
        if t == front {
          break;
        }
      }
    }

    /** threadListMoveAll. */
    method MoveAll(m: int)
      requires Placed(Snapshot()) && Linked()
      modifies `first, `lists, memory
      ensures lists == old(lists)[BlockedOn(m) := ListIn(old(lists), BlockedOn(m)) + ListIn(old(lists), AsleepOn(m))][AsleepOn(m) := []]
      ensures Linked()
    {
      var p, q := BlockedOn(m), AsleepOn(m);
      ghost var s, links, d, l := Snapshot(), memory.links, ListIn(lists, p), ListIn(lists, q);
      SleepersReady(lists, m, d + l);
      Disjoint(s, p);
      Disjoint(s, q);
      RingFirst(links, first, lists, p);
      RingFirst(links, first, lists, q);
      var dest, source := memory.MoveAllToEnd(First(p), First(q), d, l);
      RingsJoined(links, memory.links, first, lists, p, q, dest);
      first := first[p := dest][q := source];
      lists := lists[p := d + l][q := []];
    }

    /** What monitorNotifyAll does before threads switch. */
    method MoveSleepers(m: int, ghost l: seq<int>)
      requires Placed(Snapshot()) && Timers(Snapshot()) && Linked() && l == List(Snapshot(), AsleepOn(m)) && l != []
      requires AtOnce(Snapshot(), AllNotified(Snapshot(), m, l), m, l)
      modifies `first, `timerList, `timers, `lists, `place, memory, queue
      ensures Snapshot() == AllNotified(old(Snapshot()), m, l) && Linked()
    {
      ghost var s := Snapshot();
      SleepersTimed(s, m);
      RemoveTimerCallbacks(m, l);
      SamePlaced(s, Snapshot());
      MoveAll(m);
      place := AllNotified(s, m, l).place;
    }

    method NotifyAll(m: int)
      requires Valid() && m != NULL && MonitorIn(m).owner != NULL
      modifies this, memory, queue
      ensures Snapshot() == MonitorNotifyAll(old(Snapshot()), m) && Valid()
    {
      ghost var l := ListIn(lists, AsleepOn(m));
      RingFirst(memory.links, first, lists, AsleepOn(m));
      if First(AsleepOn(m)) != NULL {
        AllNotifiedInv(Snapshot(), m, l);
        AllNotifiedAtOnce(Snapshot(), m, l);
        MoveSleepers(m, l);
        ConditionalContextSwitch();
      }
    }

    // ---------- timers ----------

    /** setTimerCallback. */
    method SetTimerCallback(timer: Timer)
      requires Linked() && TimerOrder(timers) && timer.thread in threads && timer.thread != NULL && !HasTimer(timers, timer.thread)
      modifies `timerList, `callbacks, `timers, queue
      ensures timers == WithTimer(old(timers), timer) && Linked()
    {
      callbacks := callbacks[timer.thread := timer];
      assert forall i :: 0 <= i < |timers| ==> EntryAt(old(callbacks), timers, i);
      OtherEntries(old(callbacks), timers, timer);
      QueueTimes(timers, callbacks);
      NotQueued(timers, timer.thread);
      ghost var l := ThreadsOf(timers);
      timerList := queue.AddOneSorted(timerList, timer.thread, TimesIn(callbacks), ByTime, l);
      assert callbacks[timer.thread := timer] == callbacks && TimesIn(callbacks)[timer.thread] == timer.time;
      TimerAdded(queue.links, timerList, timers, callbacks, timer);
      timers := WithTimer(timers, timer);
    }

    /** removeTimerCallback, of a thread that has one. */
    method RemoveTimerCallback(t: int)
      requires Linked() && HasTimer(timers, t)
      modifies `timerList, `timers, queue
      ensures timers == WithoutTimer(old(timers), t) && Linked()
    {
      ghost var k := WithoutTimerIs(timers, t);
      timerList := queue.RemoveOne(timerList, t, ThreadsOf(timers), k);
      TimerTaken(queue.links, timerList, timers, callbacks, k);
      timers := Removed(timers, k);
    }

    method RemoveFirstTimerCallback() returns (timer: Timer)
      requires Linked() && timers != []
      modifies `timerList, `timers, queue
      ensures timer == old(timers)[0] && timers == old(timers)[1..] && Linked()
    {
      QueueFirst(queue.links, timerList, timers, callbacks);
      var t: int;
      t, timerList := queue.RemoveOneFromFront(timerList, ThreadsOf(timers));
      assert Removed(ThreadsOf(timers), 0) == ThreadsOf(timers)[1..] && Removed(timers, 0) == timers[1..];
      TimerTaken(queue.links, timerList, timers, callbacks, 0);
      timer := callbacks[t];
      timers := timers[1..];
    }

    /** monitorWaitExpired. */
    method WaitExpires(t: int)
      requires Placed(Snapshot()) && Statuses(Snapshot()) && Linked() && t in place && place[t].AsleepOn?
      modifies `first, `lists, `bits, `place, `threads, `monitors, memory
      ensures Snapshot() == WaitExpired(old(Snapshot()), t) && Linked()
    {
      assert ThreadAt(Snapshot(), t);
      var d := threads[t];
      var m := d.waitMonitor;
      if MonitorIn(m).owner != NULL {
        MoveThread(t, AsleepOn(m), BlockedOn(m), d.(status := BlockedOnMonitor));
      } else {
        ghost var s := Snapshot();
        monitors := monitors[m := Monitor(t, d.waitDepth)];
        SamePlaced(s, Snapshot());
        MoveThread(t, AsleepOn(m), Running(d.priority), d.(waitMonitor := NULL, status := StatusRunning));
      }
    }

    /** threadSleepExpired. */
    method SleepExpires(t: int)
      requires Placed(Snapshot()) && Statuses(Snapshot()) && Linked() && t in place && place[t].Sleeping?
      modifies `first, `lists, `bits, `place, `threads, memory
      ensures Snapshot() == Woken(old(Snapshot()), t) && Linked()
    {
      assert ThreadAt(Snapshot(), t);
      MoveThread(t, Sleeping, Running(threads[t].priority), threads[t].(status := StatusRunning));
    }

    method FireFirstTimer()
      requires Valid() && timers != []
      modifies `first, `lists, `bits, `place, `threads, `monitors, `timerList, `timers, memory, queue
      ensures Snapshot() == Fired(old(Snapshot())) && Linked()
    {
      ghost var s := Snapshot();
      FirstTimer(s);
      assert TimerAt(s, 0);
      assert ThreadAt(s, timers[0].thread);
      var timer := RemoveFirstTimerCallback();
      SamePlaced(s, Snapshot());
      match timer.callback
      case MonitorWaitExpired => WaitExpires(timer.thread);
      case ThreadSleepExpired => SleepExpires(timer.thread);
    }

    method UpdateTimerQueue(now: int)
      requires Valid()
      modifies `first, `lists, `bits, `place, `threads, `monitors, `timerList, `timers, memory, queue
      ensures Snapshot() == Updated(old(Snapshot()), now) && Valid()
    {
      QueueFirst(queue.links, timerList, timers, callbacks);
      while timerList != NULL && callbacks[timerList].time <= now
        invariant timerList == (if timers == [] then NULL else timers[0].thread)
        invariant timerList != NULL ==> timerList in callbacks && callbacks[timerList] == timers[0]
        invariant timers != [] ==> timerList != NULL
        invariant Valid() && Updated(Snapshot(), now) == Updated(old(Snapshot()), now)
        decreases |timers|
      {
        FiredConsistent(Snapshot());
        FiredFront(Snapshot());
        FireFirstTimer();
        QueueFirst(queue.links, timerList, timers, callbacks);
      }
    }

    method Sleep(deadline: int)
      requires Valid() && current != idle
      modifies this, memory, queue
      ensures Snapshot() == ThreadSleep(old(Snapshot()), deadline) && Valid()
    {
      ghost var s := Snapshot();
      AsleepConsistent(s, deadline);
      assert ThreadAt(s, current);
      CurrentUntimed(s);
      SetTimerCallback(Timer(current, ThreadSleepExpired, deadline));
      SamePlaced(s, Snapshot());
      var t := MoveFront(Running(threads[current].priority), Sleeping, threads[current].(status := AsleepTimedOut));
      GeneratedContextSwitch();
    }

    /** concludeTimeShare. */
    method ConcludeTimeShare(expired: bool, now: int)
      requires Valid()
      modifies this, memory, queue
      ensures Snapshot() == Tick(old(Snapshot()), expired, now) && Valid()
    {
      if expired {
        UpdateTimerQueue(now);
      }
      RotatedConsistent(Snapshot(), threads[current].priority);
      var front := RotateRunningThreadList();
      GeneratedContextSwitch();
    }

    method InterruptConditionalContextSwitch(expired: bool, now: int)
      requires Valid()
      modifies this, memory, queue
      ensures Snapshot() == Interrupt(old(Snapshot()), expired, now) && Valid()
    {
      if expired {
        UpdateTimerQueue(now);
      }
      ConditionalContextSwitch();
    }

    // ---------- threads ----------

    method YieldStrongly()
      requires Valid()
      modifies `first, `lists, `current
      ensures Snapshot() == StrongYield(old(Snapshot())) && Valid()
    {
      ghost var s := Snapshot();
      var p := Running(threads[current].priority);
      StrongYieldInv(s);
      RotatedConsistent(s, threads[current].priority);
      var front := RotateRunningThreadList();
      RingFirst(memory.links, first, lists, p);
      if front != current {
        GeneratedContextSwitch();
      }
    }

    method Prioritize(t: int, priority: nat)
      requires Valid() && t in threads && t != current && priority < PRIORITIES
      modifies this, memory, queue
      ensures Snapshot() == SetPriority(old(Snapshot()), t, priority) && Valid()
    {
      ghost var s := Snapshot();
      ReprioritizedConsistent(s, t, priority);
      assert ThreadAt(s, t);
      if threads[t].state.Active? && threads[t].status.StatusRunning? {
        MoveThread(t, Running(threads[t].priority), Running(priority), threads[t].(priority := priority));
        ConditionalContextSwitch();
      } else {
        threads := threads[t := threads[t].(priority := priority)];
      }
    }

    /** The same for the current thread; the new current thread may not be in front of its list. */
    method PrioritizeCurrent(priority: nat)
      requires Valid() && priority < PRIORITIES
      modifies this, memory, queue
      ensures Snapshot() == SetPriority(old(Snapshot()), old(current), priority) && Linked()
    {
      ghost var s := Snapshot();
      var t := current;
      ReprioritizedConsistent(s, t, priority);
      MoveCurrent(Running(priority), threads[t].(priority := priority));
      SwitchToHighest();
    }

    method Start(t: int, m: int)
      requires Valid() && t in threads && threads[t].state.NotStarted? && threads[t].priority < PRIORITIES
      modifies this, memory, queue
      ensures Snapshot() == ScheduleNewThread(old(Snapshot()), t, m) && Valid()
    {
      ScheduleNewThreadInv(Snapshot(), t, m);
      assert ThreadAt(Snapshot(), t);
      if m != NULL && MonitorIn(m).owner != NULL {
        Activate(t, BlockedOn(m), threads[t].(state := Active, status := BlockedOnMonitor));
      } else {
        if m != NULL {
          ghost var s := Snapshot();
          monitors := monitors[m := Monitor(t, 1)];
          SamePlaced(s, Snapshot());
        }
        Activate(t, Running(threads[t].priority), threads[t].(state := Active, status := StatusRunning));
      }
    }

    /** A thread that is on no list goes to the end of one. */
    method Activate(t: int, p: Place, data: Thread)
      requires Placed(Snapshot()) && Linked() && t in threads && t !in place && t != NULL && (p.Running? ==> p.priority < PRIORITIES)
      modifies `first, `lists, `bits, `place, `threads, memory
      ensures Snapshot() == Moved(old(Snapshot()), t, p, data) && Linked()
    {
      AddLast(t, p);
      threads := threads[t := data];
    }

    method Join(t: int)
      requires Valid() && current != idle
      modifies this, memory, queue
      ensures Snapshot() == ThreadJoin(old(Snapshot()), t) && Valid()
    {
      JoinsConsistent(Snapshot(), t);
      MoveCurrent(Joining(t), threads[current].(status := BlockedOnThreadDeath));
      GeneratedContextSwitch();
    }

    method ReleaseJoinedThreads()
      requires Valid()
      modifies `first, `lists, `bits, `place, `threads, memory
      ensures Snapshot() == AllWoken(old(Snapshot()), List(old(Snapshot()), Joining(current))) && Valid()
    {
      ghost var s := Snapshot();
      while First(Joining(current)) != NULL
        invariant Valid() && AllWoken(Snapshot(), List(Snapshot(), Joining(current))) == AllWoken(s, List(s, Joining(current)))
        decreases |ListIn(lists, Joining(current))|
      {
        ghost var s1 := Snapshot();
        var p := Joining(current);
        RingFirst(memory.links, first, lists, p);
        ghost var t := First(p);
        FirstWoken(s1, current, ListIn(lists, p));
        assert t in List(s1, p);
        Member(s1, t, p);
        assert ThreadAt(s1, t);
        WakeFirst(p);
      }
      RingFirst(memory.links, first, lists, Joining(current));
    }

    /** removeThreadCritical. */
    method Remove()
      requires Valid() && current != idle && forall m :: MonitorOf(Snapshot(), m).owner != current
      modifies this, memory, queue
      ensures Snapshot() == RemoveThread(old(Snapshot())) && Valid()
    {
      ghost var s := Snapshot();
      AllWokenInv(s, current, List(s, Joining(current)));
      ReleaseJoinedThreads();
      SameMonitors(s, Snapshot());
      DiedConsistent(Snapshot());
      assert ThreadAt(Snapshot(), current);
      var t := TakeFront(Running(threads[current].priority));
      threads := threads[t := threads[t].(state := Finished)];
      GeneratedContextSwitch();
    }

    // ---------- semaphores ----------

    method Post(x: int)
      requires Valid()
      modifies this, memory, queue
      ensures Snapshot() == SemaphorePost(old(Snapshot()), x) && Valid()
    {
      ghost var s := Snapshot();
      var counter := (if x in counters then counters[x] else 0) + 1;
      counters := counters[x := counter];
      if counter > 0 {
        SemaphorePostInv(s, x);
      } else {
        PostWakes(s, x);
        WakeFirst(Pending(x));
        ConditionalContextSwitch();
      }
    }

    /** The first thread of a waiting list becomes runnable. */
    method WakeFirst(p: Place)
      requires Placed(Snapshot()) && Linked() && !p.Running? && List(Snapshot(), p) != []
      requires var t := List(Snapshot(), p)[0]; t in threads && t != NULL && threads[t].priority < PRIORITIES
      modifies `first, `lists, `bits, `place, `threads, memory
      ensures Snapshot() == Woken(old(Snapshot()), List(old(Snapshot()), p)[0]) && Linked()
    {
      RingFirst(memory.links, first, lists, p);
      var t := First(p);
      t := MoveFront(p, Running(threads[t].priority), threads[t].(status := StatusRunning));
    }

    method Pend(x: int)
      requires Valid() && (current == idle ==> x in counters && counters[x] > 0)
      modifies this, memory, queue
      ensures Snapshot() == SemaphorePend(old(Snapshot()), x) && Valid()
    {
      var counter := (if x in counters then counters[x] else 0) - 1;
      if counter >= 0 {
        SemaphorePendInv(Snapshot(), x);
        counters := counters[x := counter];
      } else {
        PendBlocks(x, counter);
      }
    }

    method PendBlocks(x: int, counter: int)
      requires Valid() && current != idle && counter == CounterOf(Snapshot(), x) - 1 < 0
      modifies this, memory, queue
      ensures Snapshot() == Generated(Pends(old(Snapshot()), x)) && Valid()
    {
      ghost var s := Snapshot();
      PendsConsistent(s, x);
      counters := counters[x := counter];
      ghost var down := Snapshot();
      assert down == Counted(s, x, -1);
      MoveCurrentToSemaphoreQueue(x);
      assert Snapshot() == MovedSorted(down, s.current, Pending(x), ThreadOf(s, s.current).(status := BlockedOnSemaphore));
      GeneratedContextSwitch();
    }

    method MoveCurrentToSemaphoreQueue(x: int)
      requires Placed(Snapshot()) && Statuses(Snapshot()) && CurrentInFront(Snapshot()) && Linked()
      modifies `first, `lists, `bits, `place, `threads, memory
      ensures Snapshot() == MovedSorted(old(Snapshot()), old(current), Pending(x), old(threads)[old(current)].(status := BlockedOnSemaphore))
      ensures Linked()
    {
      ghost var s := Snapshot();
      assert ThreadAt(s, current);
      var t := TakeFront(Running(threads[current].priority));
      TookPlaced(s, t);
      ListKnown(s, t, Pending(x));
      Queue(t, Pending(x), threads[t].(status := BlockedOnSemaphore));
    }

    /** addThreadToSortedQueue, on the rings. */
    method SortEntry(t: int, p: Place)
      requires Placed(Snapshot()) && Linked() && t in threads && t !in place && t != NULL
      requires forall u :: u in List(Snapshot(), p) ==> u in threads
      modifies `first, memory
      ensures var s, l := Snapshot(), ListIn(lists, p);
              var slot := SortedPosition(PrioritiesOf(s, l), threads[t].priority, ByPriority);
              Rings(memory.links, first, lists[p := Inserted(l, slot, t)]) && memory.links.Keys == old(memory.links.Keys)
    {
      ghost var s, l, links := Snapshot(), ListIn(lists, p), memory.links;
      ghost var slot := SortedPosition(PrioritiesOf(s, l), threads[t].priority, ByPriority);
      RingFirst(links, first, lists, p);
      Disjoint(s, p);
      OnNoList(s, t);
      QueuePriorities(s, l, threads);
      var list := memory.AddOneSorted(First(p), t, PrioritiesIn(threads), ByPriority, l);
      RingsUpdated(links, memory.links, first, lists, p, list, Inserted(l, slot, t), l + [t]);
      first := first[p := list];
    }

    /** addThreadToSortedQueue, with what the caller stores in the thread. */
    method Queue(t: int, p: Place, data: Thread)
      requires Placed(Snapshot()) && Linked() && !p.Running? && t in threads && t !in place && t != NULL
      requires data.priority == threads[t].priority && forall u :: u in List(Snapshot(), p) ==> u in threads
      modifies `first, `lists, `place, `threads, memory
      ensures Snapshot() == PutAt(old(Snapshot()), t, p, SortedPosition(PrioritiesOf(old(Snapshot()), List(old(Snapshot()), p)),
                                  data.priority, ByPriority)).(threads := old(threads)[t := data])
      ensures Linked()
    {
      ghost var s, l := Snapshot(), ListIn(lists, p);
      ghost var slot := SortedPosition(PrioritiesOf(s, l), data.priority, ByPriority);
      PutReady(s, t, p, slot);
      SortEntry(t, p);
      lists, place := lists[p := Inserted(l, slot, t)], place[t := p];
      threads := threads[t := data];
    }
  }

  /** The list entry of an active thread is in one place of one ring only, between its neighbours there;
      that of any other thread is on no ring. */
  lemma EntryOnOneRing(s: State, links: Links, first: map<Place, int>, t: int)
    requires Inv(s) && Rings(links, first, s.lists) && t in s.threads
    ensures s.threads[t].state.Active? <==> exists p, i :: 0 <= i < |List(s, p)| && List(s, p)[i] == t && LinkedAt(links, List(s, p), i)
    ensures forall p, q, i, j :: 0 <= i < |List(s, p)| && 0 <= j < |List(s, q)| && List(s, p)[i] == t && List(s, q)[j] == t ==> p == q && i == j
  {
    assert ThreadAt(s, t);
    forall p ensures (t in List(s, p) <==> t in s.place && s.place[t] == p) && Distinct(List(s, p)) {
      Member(s, t, p);
    }
    if t in s.place {
      var p := s.place[t];
      var i :| 0 <= i < |List(s, p)| && List(s, p)[i] == t;
      assert RingAt(links, first, s.lists, p) && LinkedAt(links, List(s, p), i);
    }
    forall p, q, i, j | 0 <= i < |List(s, p)| && 0 <= j < |List(s, q)| && List(s, p)[i] == t && List(s, q)[j] == t ensures p == q && i == j {
      assert List(s, p)[i] in List(s, p) && List(s, q)[j] in List(s, q);
    }
  }

  // ---------- states on the way ----------

  lemma PostWakes(s: State, x: int)
    requires Inv(s) && CounterOf(s, x) < 0
    ensures var l, up := List(s, Pending(x)), Counted(s, x, 1);
            l != [] && l[0] in s.threads && l[0] != NULL && s.threads[l[0]].priority < PRIORITIES && Placed(up) && Inv(Woken(up, l[0]))
  {
    var up, l := Counted(s, x, 1), List(s, Pending(x));
    assert SemaphoreAt(s, x);
    CountedBut(s, x, 1);
    assert l[0] in l;
    Member(s, l[0], Pending(x));
    assert ThreadAt(s, l[0]);
    PendingWoken(up, l[0], ThreadOf(s, l[0]).(status := StatusRunning), x);
  }

  lemma PendsConsistent(s: State, x: int)
    requires Inv(s) && s.current != s.idle && CounterOf(s, x) <= 0
    ensures Consistent(Pends(s, x))
    ensures Placed(Counted(s, x, -1)) && Statuses(Counted(s, x, -1)) && CurrentInFront(Counted(s, x, -1))
  {
    assert SemaphoreAt(s, x);
    CountedBut(s, x, -1);
    CurrentPends(Counted(s, x, -1), ThreadOf(s, s.current).(status := BlockedOnSemaphore), x);
  }

  /** The running thread is not in the timer queue. */
  lemma CurrentUntimed(s: State)
    requires Timers(s) && CurrentInFront(s)
    ensures !HasTimer(s.timers, s.current)
  {
    if HasTimer(s.timers, s.current) {
      HasTimerTimed(s, s.current);
    }
  }

  /** The threads on list p, without t, are known. */
  lemma ListKnown(s: State, t: int, p: Place)
    requires Placed(s) && s.place.Keys <= s.threads.Keys
    ensures forall u :: u in List(Took(s, t), p) ==> u in s.threads
  {
    TookPlaced(s, t);
    forall u | u in List(Took(s, t), p) ensures u in s.threads {
      Member(Took(s, t), u, p);
    }
  }

  /** The threads of l that sleep with a time-out are in the timer queue. */
  ghost predicate AllTimed(timers: seq<Timer>, threads: map<int, Thread>, l: seq<int>) {
    Distinct(l) && forall i :: 0 <= i < |l| ==> TimedIfAsleep(timers, threads, l[i])
  }

  ghost predicate TimedIfAsleep(timers: seq<Timer>, threads: map<int, Thread>, t: int) {
    t in threads && threads[t].status.AsleepTimedOutOnMonitor? ==> HasTimer(timers, t)
  }

  lemma SleepersTimed(s: State, m: int)
    requires Placed(s) && Timers(s)
    ensures AllTimed(s.timers, s.threads, List(s, AsleepOn(m)))
  {
    var l := List(s, AsleepOn(m));
    forall i | 0 <= i < |l| ensures TimedIfAsleep(s.timers, s.threads, l[i]) {
      assert l[i] in l;
      Member(s, l[i], AsleepOn(m));
    }
    Member(s, 0, AsleepOn(m));
  }

  /** The timers once that of thread t has been removed, if t sleeps with a time-out. */
  function QuietedBy(timers: seq<Timer>, threads: map<int, Thread>, t: int): seq<Timer> {
    if t in threads && threads[t].status.AsleepTimedOutOnMonitor? then WithoutTimer(timers, t) else timers
  }

  /** The timers once those of the threads l have been removed, as far as l sleeps with a time-out. */
  function Quieted(timers: seq<Timer>, threads: map<int, Thread>, l: seq<int>): seq<Timer>
    decreases |l|
  {
    if l == [] then timers else Quieted(QuietedBy(timers, threads, l[0]), threads, l[1..])
  }

  /** Removing the timer of sleeper i leaves those of the later ones. */
  lemma NextQuieted(timers: seq<Timer>, threads: map<int, Thread>, l: seq<int>, i: nat)
    requires i < |l| && TimerOrder(timers) && AllTimed(timers, threads, l[i..])
    ensures TimedIfAsleep(timers, threads, l[i])
    ensures var rest := QuietedBy(timers, threads, l[i]);
            && TimerOrder(rest) && AllTimed(rest, threads, l[i + 1..])
            && Quieted(rest, threads, l[i + 1..]) == Quieted(timers, threads, l[i..])
  {
    var now, later := l[i..], l[i + 1..];
    assert now[0] == l[i] && now[1..] == later;
    WithoutTimerMembers(timers, l[i]);
    assert TimedIfAsleep(timers, threads, now[0]);
    forall j | 0 <= j < |later| ensures TimedIfAsleep(QuietedBy(timers, threads, l[i]), threads, later[j]) {
      assert TimedIfAsleep(timers, threads, now[j + 1]) && now[j + 1] != now[0];
    }
  }

  /** The other entries of the timer queue stay as they are. */
  lemma OtherEntries(callbacks: map<int, Timer>, timers: seq<Timer>, timer: Timer)
    requires (forall i :: 0 <= i < |timers| ==> EntryAt(callbacks, timers, i)) && !HasTimer(timers, timer.thread)
    ensures var entries := callbacks[timer.thread := timer]; forall i :: 0 <= i < |timers| ==> EntryAt(entries, timers, i)
  {
    var entries := callbacks[timer.thread := timer];
    forall i | 0 <= i < |timers| ensures EntryAt(entries, timers, i) {
      assert EntryAt(callbacks, timers, i);
    }
  }

  // ---------- states that differ little ----------

  lemma BlockedConsistent(s: State, m: int)
    requires Inv(s) && m != NULL && s.current != s.idle && MonitorOf(s, m).owner != NULL && MonitorOf(s, m).owner != s.current
    ensures Consistent(BlockedAsCurrent(s, m))
  {
    assert ThreadAt(s, s.current) && MonitorAt(s, m) && MonitorAt(s, NULL);
    MovedConsistent(s, s.current, BlockedOn(m), ThreadOf(s, s.current).(status := BlockedOnMonitor));
  }

  lemma ExitReleases(s: State, left: State, m: int)
    requires Inv(s) && m != NULL && left == s.(monitors := left.monitors) && forall n :: n != m ==> MonitorOf(left, n) == MonitorOf(s, n)
    ensures ConsistentBut(left, m) && Inv(Released(left, m))
  {
    OnlyMonitor(s, left, m);
    ReleasedConsistent(left, m);
  }

  lemma SleepersReady(lists: map<Place, seq<int>>, m: int, l: seq<int>)
    ensures Ready(lists[BlockedOn(m) := l][AsleepOn(m) := []]) == Ready(lists)
  {
  }

  /** The state after the first of the sleepers l has been notified. */
  lemma FirstAtOnce(s: State, m: int, l: seq<int>)
    requires Inv(s) && m != NULL && MonitorOf(s, m).owner != NULL && l == List(s, AsleepOn(m)) && l != []
    ensures Notified(s, m, l[0]) == s.(
              lists := s.lists[AsleepOn(m) := l[1..]][BlockedOn(m) := List(s, BlockedOn(m)) + [l[0]]],
              place := s.place[l[0] := BlockedOn(m)], timers := Quieted(s.timers, s.threads, l[..1]))
  {
    var t, off := l[0], Took(s, l[0]);
    assert t in l && l[..1][1..] == [];
    Member(s, t, AsleepOn(m));
    assert ThreadAt(s, t);
    FrontWithout(l, t);
    var blocked := List(off, BlockedOn(m));
    assert Inserted(blocked, |blocked|, t) == blocked + [t];
  }

  /** Everything but place, when all of the sleepers l have been notified at once. */
  ghost predicate AtOnce(s: State, s': State, m: int, l: seq<int>) {
    && s'.threads == s.threads && s'.monitors == s.monitors && s'.counters == s.counters
    && s'.current == s.current && s'.idle == s.idle && s'.timers == Quieted(s.timers, s.threads, l)
    && s'.lists == if l == [] then s.lists else s.lists[BlockedOn(m) := List(s, BlockedOn(m)) + l][AsleepOn(m) := []]
  }

  lemma AtOnceStep(s: State, s1: State, s': State, m: int, l: seq<int>)
    requires l != [] && AtOnce(s1, s', m, l[1..])
    requires s1 == s.(lists := s.lists[AsleepOn(m) := l[1..]][BlockedOn(m) := List(s, BlockedOn(m)) + [l[0]]],
                      place := s1.place, timers := Quieted(s.timers, s.threads, l[..1]))
    ensures AtOnce(s, s', m, l)
  {
    assert l[..1][1..] == [] && l[..1][0] == l[0];
    AtOnceLists(s.lists, s1.lists, s'.lists, m, List(s, BlockedOn(m)), l);
  }

  lemma AtOnceLists(lists: map<Place, seq<int>>, lists1: map<Place, seq<int>>, lists': map<Place, seq<int>>, m: int, b: seq<int>, l: seq<int>)
    requires l != [] && lists1 == lists[AsleepOn(m) := l[1..]][BlockedOn(m) := b + [l[0]]]
    requires lists' == if l[1..] == [] then lists1 else lists1[BlockedOn(m) := b + [l[0]] + l[1..]][AsleepOn(m) := []]
    ensures lists' == lists[BlockedOn(m) := b + l][AsleepOn(m) := []]
  {
    AppendCons(b, l);
    assert l[1..] == [] ==> l == [l[0]];
  }

  /** Notifying one thread after the other comes to removing the timers and moving the list at once. */
  lemma {:induction false} AllNotifiedAtOnce(s: State, m: int, l: seq<int>)
    requires Inv(s) && m != NULL && MonitorOf(s, m).owner != NULL && l == List(s, AsleepOn(m))
    ensures AtOnce(s, AllNotified(s, m, l), m, l)
    decreases |l|
  {
    if l != [] {
      var rest, s1 := l[1..], Notified(s, m, l[0]);
      FirstNotified(s, m, l);
      FirstAtOnce(s, m, l);
      AllNotifiedAtOnce(s1, m, rest);
      AtOnceStep(s, s1, AllNotified(s1, m, rest), m, l);
    }
  }

  lemma IdleCounts(s: State)
    requires Placed(s) && Statuses(s) && IdleReady(s)
    ensures Ready(s.lists) != {}
  {
    var p := s.place[s.idle];
    Member(s, s.idle, p);
    assert ThreadAt(s, s.idle);
    assert List(s, p) != [];
    assert p.priority in Ready(s.lists);
  }
}
