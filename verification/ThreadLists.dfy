/** How the lists of the scheduler are stored (lib/src/thread/thread.h, schedule.h, timer.h): every thread
    has one list entry, which is on one ring at a time, and one entry for the timer queue. */
module ThreadLists {
  import opened Basics
  import opened LinkedLists
  import opened SchedulerState
  import opened SchedulerOps

  function ListIn(lists: map<Place, seq<int>>, p: Place): seq<int> {
    if p in lists then lists[p] else []
  }

  function FirstOf(first: map<Place, int>, p: Place): int {
    if p in first then first[p] else NULL
  }

  ghost predicate RingAt(links: Links, first: map<Place, int>, lists: map<Place, seq<int>>, p: Place) {
    IsRing(links, FirstOf(first, p), ListIn(lists, p))
  }

  /** Every list is a well-linked ring. */
  ghost predicate Rings(links: Links, first: map<Place, int>, lists: map<Place, seq<int>>) {
    forall p: Place :: RingAt(links, first, lists, p)
  }

  /** List p has changed, and with it the links of the entries in touched, which are on no other list. */
  lemma RingsUpdated(links: Links, links': Links, first: map<Place, int>, lists: map<Place, seq<int>>,
                     p: Place, first': int, l': seq<int>, touched: seq<int>)
    requires Rings(links, first, lists) && OnlyDiffer(links, links', touched) && IsRing(links', first', l')
    requires forall q, x :: q != p && x in ListIn(lists, q) ==> x !in touched
    ensures Rings(links', first[p := first'], lists[p := l'])
  {
    var pointers, all := first[p := first'], lists[p := l'];
    forall q: Place ensures RingAt(links', pointers, all, q) {
      assert RingAt(links, first, lists, q);
      if q != p {
        OtherRing(links, links', touched, FirstOf(first, q), ListIn(lists, q));
      }
    }
  }

  /** The lists p and q have been joined into list p. */
  lemma RingsJoined(links: Links, links': Links, first: map<Place, int>, lists: map<Place, seq<int>>, p: Place, q: Place, first': int)
    requires Rings(links, first, lists) && p != q
    requires var d, l := ListIn(lists, p), ListIn(lists, q);
             && OnlyDiffer(links, links', d + l) && IsRing(links', first', d + l)
             && forall r, x :: r != p && r != q && x in ListIn(lists, r) ==> x !in d && x !in l
    ensures Rings(links', first[p := first'][q := NULL], lists[p := ListIn(lists, p) + ListIn(lists, q)][q := []])
  {
    var d, l := ListIn(lists, p), ListIn(lists, q);
    var pointers, all := first[p := first'][q := NULL], lists[p := d + l][q := []];
    forall r: Place ensures RingAt(links', pointers, all, r) {
      assert RingAt(links, first, lists, r);
      if r != p && r != q {
        OtherRing(links, links', d + l, FirstOf(first, r), ListIn(lists, r));
      }
    }
  }

  /** No entry is on two lists. */
  lemma Disjoint(s: State, p: Place)
    requires Placed(s)
    ensures forall q, x :: q != p && x in List(s, q) ==> x !in List(s, p)
  {
    forall q, x | q != p && x in List(s, q) ensures x !in List(s, p) {
      Member(s, x, q);
      Member(s, x, p);
    }
  }

  lemma OnNoList(s: State, t: int)
    requires Placed(s) && t !in s.place
    ensures forall q :: t !in List(s, q)
  {
    forall q ensures t !in List(s, q) {
      Member(s, t, q);
    }
  }

  lemma RingFirst(links: Links, first: map<Place, int>, lists: map<Place, seq<int>>, p: Place)
    requires Rings(links, first, lists)
    ensures IsRing(links, FirstOf(first, p), ListIn(lists, p))
    ensures FirstOf(first, p) == NULL <==> ListIn(lists, p) == []
    ensures ListIn(lists, p) != [] ==> FirstOf(first, p) == ListIn(lists, p)[0]
  {
    assert RingAt(links, first, lists, p);
    FirstEntry(links, FirstOf(first, p), ListIn(lists, p));
  }

  lemma IndexOf(l: seq<int>, t: int) returns (k: nat)
    requires t in l
    ensures k < |l| && l[k] == t
  {
    k :| k < |l| && l[k] == t;
  }

  lemma RemovedCons(l: seq<int>, k: nat)
    requires 0 < k < |l|
    ensures Removed(l, k) == [l[0]] + Removed(l[1..], k - 1)
  {
    assert l[1..][..k - 1] == l[1..k] && l[1..][k..] == l[k + 1..];
  }

  /** Taking a thread off a list, by its value and by its position. */
  lemma {:induction false} WithoutAt(l: seq<int>, t: int, k: nat)
    requires Distinct(l) && k < |l| && l[k] == t
    ensures Without(l, t) == Removed(l, k)
  {
    if k == 0 {
      assert Removed(l, 0) == l[1..];
    } else {
      assert l[0] != t;
      WithoutAt(l[1..], t, k - 1);
      RemovedCons(l, k);
    }
  }

  // ---------- the timer queue ----------

  function ThreadsOf(timers: seq<Timer>): (l: seq<int>)
    ensures |l| == |timers|
  {
    seq(|timers|, i requires 0 <= i < |timers| => timers[i].thread)
  }

  ghost predicate EntryAt(callbacks: map<int, Timer>, timers: seq<Timer>, i: nat)
    requires i < |timers|
  {
    timers[i].thread in callbacks && callbacks[timers[i].thread] == timers[i]
  }

  /** The timer queue is a well-linked ring, and the entry of every thread in it says when and what. */
  ghost predicate TimerRing(links: Links, timerList: int, timers: seq<Timer>, callbacks: map<int, Timer>) {
    IsRing(links, timerList, ThreadsOf(timers)) && forall i :: 0 <= i < |timers| ==> EntryAt(callbacks, timers, i)
  }

  lemma QueueFirst(links: Links, timerList: int, timers: seq<Timer>, callbacks: map<int, Timer>)
    requires TimerRing(links, timerList, timers, callbacks)
    ensures timerList == NULL <==> timers == []
    ensures timers != [] ==> timerList == timers[0].thread && timerList in callbacks && callbacks[timerList] == timers[0]
  {
    FirstEntry(links, timerList, ThreadsOf(timers));
    assert timers != [] ==> EntryAt(callbacks, timers, 0) && ThreadsOf(timers)[0] == timers[0].thread;
  }

  function TimesIn(callbacks: map<int, Timer>): map<int, int> {
    map t | t in callbacks :: callbacks[t].time
  }

  /** The times that the comparator compares are those of the queue. */
  lemma QueueTimes(timers: seq<Timer>, callbacks: map<int, Timer>)
    requires forall i :: 0 <= i < |timers| ==> EntryAt(callbacks, timers, i)
    ensures HasKeys(ThreadsOf(timers), TimesIn(callbacks)) && KeysOf(ThreadsOf(timers), TimesIn(callbacks)) == TimesOf(timers)
  {
    forall i | 0 <= i < |timers| ensures ThreadsOf(timers)[i] in callbacks && callbacks[ThreadsOf(timers)[i]].time == timers[i].time {
      assert EntryAt(callbacks, timers, i);
    }
  }

  lemma TimerAdded(links: Links, timerList: int, timers: seq<Timer>, callbacks: map<int, Timer>, timer: Timer)
    requires (forall i :: 0 <= i < |timers| ==> EntryAt(callbacks, timers, i)) && !HasTimer(timers, timer.thread)
    requires var slot := SortedPosition(TimesOf(timers), timer.time, ByTime);
             IsRing(links, timerList, Inserted(ThreadsOf(timers), slot, timer.thread))
    ensures TimerRing(links, timerList, WithTimer(timers, timer), callbacks[timer.thread := timer])
  {
    var slot, after := SortedPosition(TimesOf(timers), timer.time, ByTime), WithTimer(timers, timer);
    var entries := callbacks[timer.thread := timer];
    assert ThreadsOf(after) == Inserted(ThreadsOf(timers), slot, timer.thread);
    forall i | 0 <= i < |after| ensures EntryAt(entries, after, i) {
      assert after[i] == if i == slot then timer else timers[if i < slot then i else i - 1];
      if i != slot {
        assert EntryAt(callbacks, timers, if i < slot then i else i - 1);
      }
    }
  }

  lemma TimerTaken(links: Links, timerList: int, timers: seq<Timer>, callbacks: map<int, Timer>, k: nat)
    requires (forall i :: 0 <= i < |timers| ==> EntryAt(callbacks, timers, i)) && k < |timers|
    requires IsRing(links, timerList, Removed(ThreadsOf(timers), k))
    ensures TimerRing(links, timerList, Removed(timers, k), callbacks)
  {
    var after := Removed(timers, k);
    assert ThreadsOf(after) == Removed(ThreadsOf(timers), k);
    forall i | 0 <= i < |after| ensures EntryAt(callbacks, after, i) {
      assert after[i] == timers[if i < k then i else i + 1];
      assert EntryAt(callbacks, timers, if i < k then i else i + 1);
    }
  }

  lemma NotQueued(timers: seq<Timer>, t: int)
    ensures t in ThreadsOf(timers) <==> HasTimer(timers, t)
  {
    if HasTimer(timers, t) {
      var i :| 0 <= i < |timers| && timers[i].thread == t;
      assert ThreadsOf(timers)[i] == t;
    }
  }

  // ---------- priorities ----------

  function PrioritiesIn(threads: map<int, Thread>): map<int, int> {
    map t | t in threads :: threads[t].priority
  }

  /** The priorities that the comparator compares are those of the threads on the list. */
  lemma QueuePriorities(s: State, l: seq<int>, threads: map<int, Thread>)
    requires forall t :: t in l ==> t in s.threads && t in threads && threads[t].priority == s.threads[t].priority
    ensures HasKeys(l, PrioritiesIn(threads)) && KeysOf(l, PrioritiesIn(threads)) == PrioritiesOf(s, l)
  {
    forall i | 0 <= i < |l| ensures l[i] in threads && threads[l[i]].priority == PrioritiesOf(s, l)[i] {
      var t := l[i];
      assert t in l && t in s.threads;
    }
  }
}
