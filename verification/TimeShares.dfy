/** Weighted time shares among the threads of one priority (lib/src/thread/schedule.h and
    jvm/src/execute/javaRegisterSwitch.h, when USE_TIME_SHARES is on). The threads and their allotments
    stay the same throughout. */
module TimeShares {
  import opened Basics

  const TIME_SHARE_REGULAR := 6
  const INT8_MAX := 127

  predicate IsAllotment(a: int) {
    a == 1 || a == 2 || a == 3 || a == 6 || a == 12 || a == 18 || a == 36
  }

  /** The counters of a thread that does not run. */
  predicate Rests(a: int, counter: int) {
    0 <= counter < TIME_SHARE_REGULAR
    && (if a == 1 then true else if a == 2 then counter == 0 || counter == 2 || counter == 4
        else if a == 3 then counter == 0 || counter == 3 else counter == 0)
  }

  /** The counters of the thread that runs: whole shares, at least one. */
  predicate Runs(a: int, counter: int) {
    && (counter == 6 || counter == 12 || counter == 18 || counter == 24 || counter == 30 || counter == 36)
    && counter <= (if a < TIME_SHARE_REGULAR then TIME_SHARE_REGULAR else a)
  }

  lemma CounterFits(a: int, counter: int)
    requires IsAllotment(a) && (Rests(a, counter) || Runs(a, counter))
    ensures 0 <= counter && counter + a <= INT8_MAX
  {
  }

  /** A visit either gives the thread enough for whole shares or leaves it at rest; a share that ends
      brings a running thread's counter to exactly zero unless there is a whole share left. */
  lemma VisitAndDeduct(a: int, counter: int)
    requires IsAllotment(a)
    ensures Rests(a, counter) ==> if counter + a < TIME_SHARE_REGULAR then Rests(a, counter + a) else Runs(a, counter + a)
    ensures Runs(a, counter) ==> if counter - TIME_SHARE_REGULAR == 0 then Rests(a, 0) else Runs(a, counter - TIME_SHARE_REGULAR)
  {
  }

  /** What the thread structures hold: a field of thread t. */
  function Of(field: map<int, int>, t: int): int {
    if t in field then field[t] else 0
  }

  /** The running list, front first, the counters, and a record of what has happened: how often each
      thread has come to the front and how many ticks it has had, how many rounds of visits are complete,
      and how many threads have been visited in the current round. */
  datatype Shares = Shares(list: seq<int>, counters: map<int, int>, visits: map<int, int>, ticks: map<int, int>, round: nat, pos: nat)

  /** Where the front of the list is in the ring, the order of the visits. */
  function Front(n: nat, pos: nat): (k: nat)
    requires n > 0 && pos < n
    ensures k < n
  {
    if pos == 0 then n - 1 else pos - 1
  }

  /** Six times the ticks that a thread has had and its counter make up what it was allotted, and the
      threads have been visited equally often. */
  ghost predicate BalancedAt(ring: seq<int>, allotments: map<int, int>, s: Shares, i: nat)
    requires i < |ring|
  {
    var t := ring[i];
    && TIME_SHARE_REGULAR * Of(s.ticks, t) + Of(s.counters, t) == Of(allotments, t) * Of(s.visits, t)
    && Of(s.visits, t) == s.round + if i < s.pos then 1 else 0
  }

  ghost predicate AllottedAt(ring: seq<int>, allotments: map<int, int>, i: nat)
    requires i < |ring|
  {
    IsAllotment(Of(allotments, ring[i]))
  }

  ghost predicate RestsAt(ring: seq<int>, allotments: map<int, int>, s: Shares, i: nat)
    requires i < |ring|
  {
    Rests(Of(allotments, ring[i]), Of(s.counters, ring[i]))
  }

  /** running tells whether the front thread has shares left. */
  ghost predicate Ok(ring: seq<int>, allotments: map<int, int>, s: Shares, running: bool) {
    && |ring| > 0 && s.pos < |ring| && Distinct(ring)
    && s.list == ring[Front(|ring|, s.pos)..] + ring[..Front(|ring|, s.pos)]
    && (forall i :: 0 <= i < |ring| ==> AllottedAt(ring, allotments, i))
    && (forall i :: 0 <= i < |ring| ==> BalancedAt(ring, allotments, s, i))
    && (forall i :: 0 <= i < |ring| && i != Front(|ring|, s.pos) ==> RestsAt(ring, allotments, s, i))
    && var k := Front(|ring|, s.pos);
       if running then Runs(Of(allotments, ring[k]), Of(s.counters, ring[k])) else RestsAt(ring, allotments, s, k)
  }

  // ---------- one visit, one tick ----------

  /** The list is rotated and the thread that comes to the front gets its allotment. */
  function Visited(allotments: map<int, int>, s: Shares): Shares
    requires s.list != []
  {
    var list := s.list[1..] + [s.list[0]];
    var t := list[0];
    Shares(list, s.counters[t := Of(s.counters, t) + Of(allotments, t)], s.visits[t := Of(s.visits, t) + 1], s.ticks,
           if s.pos + 1 == |list| then s.round + 1 else s.round, if s.pos + 1 == |list| then 0 else s.pos + 1)
  }

  lemma VisitedList(ring: seq<int>, allotments: map<int, int>, s: Shares)
    requires |ring| > 0 && s.pos < |ring| && s.list == ring[Front(|ring|, s.pos)..] + ring[..Front(|ring|, s.pos)]
    ensures var s' := Visited(allotments, s);
            && s'.pos < |ring| && Front(|ring|, s'.pos) == s.pos && s'.list == ring[s.pos..] + ring[..s.pos] && s'.list[0] == ring[s.pos]
  {
  }

  lemma Times(a: int, v: int)
    ensures a * (v + 1) == a * v + a
  {
  }

  lemma VisitedBalanced(ring: seq<int>, allotments: map<int, int>, s: Shares, s': Shares, i: nat)
    requires s.pos < |ring| && Distinct(ring) && i < |ring| && BalancedAt(ring, allotments, s, i)
    requires var t := ring[s.pos];
             && s'.counters == s.counters[t := Of(s.counters, t) + Of(allotments, t)] && s'.visits == s.visits[t := Of(s.visits, t) + 1]
             && s'.ticks == s.ticks
             && s'.round == (if s.pos + 1 == |ring| then s.round + 1 else s.round)
             && s'.pos == (if s.pos + 1 == |ring| then 0 else s.pos + 1)
    ensures BalancedAt(ring, allotments, s', i)
  {
    Times(Of(allotments, ring[i]), Of(s.visits, ring[i]));
    assert i != s.pos ==> ring[i] != ring[s.pos];
  }

  lemma VisitedRests(ring: seq<int>, allotments: map<int, int>, s: Shares, s': Shares, i: nat)
    requires s.pos < |ring| && Distinct(ring) && i < |ring| && i != s.pos && RestsAt(ring, allotments, s, i)
    requires s'.counters == s.counters[ring[s.pos] := Of(s.counters, ring[s.pos]) + Of(allotments, ring[s.pos])]
    ensures RestsAt(ring, allotments, s', i)
  {
    assert ring[i] != ring[s.pos];
  }

  lemma VisitedOk(ring: seq<int>, allotments: map<int, int>, s: Shares)
    requires Ok(ring, allotments, s, false)
    ensures Ok(ring, allotments, Visited(allotments, s), Of(Visited(allotments, s).counters, ring[s.pos]) >= TIME_SHARE_REGULAR)
  {
    var s', p, t := Visited(allotments, s), s.pos, ring[s.pos];
    VisitedList(ring, allotments, s);
    assert AllottedAt(ring, allotments, p) && RestsAt(ring, allotments, s, p);
    VisitAndDeduct(Of(allotments, t), Of(s.counters, t));
    forall i | 0 <= i < |ring| ensures BalancedAt(ring, allotments, s', i) {
      VisitedBalanced(ring, allotments, s, s', i);
    }
    forall i | 0 <= i < |ring| && i != p ensures RestsAt(ring, allotments, s', i) {
      VisitedRests(ring, allotments, s, s', i);
    }
  }

  /** deductTimeShare, after a tick of the front thread. */
  function Deducted(s: Shares): Shares
    requires s.list != []
  {
    var t := s.list[0];
    s.(counters := s.counters[t := Of(s.counters, t) - TIME_SHARE_REGULAR], ticks := s.ticks[t := Of(s.ticks, t) + 1])
  }

  lemma DeductedOk(ring: seq<int>, allotments: map<int, int>, s: Shares)
    requires Ok(ring, allotments, s, true)
    ensures Ok(ring, allotments, Deducted(s), Of(Deducted(s).counters, s.list[0]) != 0)
  {
    var s', k := Deducted(s), Front(|ring|, s.pos);
    var t := ring[k];
    assert AllottedAt(ring, allotments, k) && BalancedAt(ring, allotments, s, k);
    VisitAndDeduct(Of(allotments, t), Of(s.counters, t));
    forall i | 0 <= i < |ring| ensures BalancedAt(ring, allotments, s', i) {
      assert BalancedAt(ring, allotments, s, i);
    }
    forall i | 0 <= i < |ring| && i != k ensures RestsAt(ring, allotments, s', i) {
      assert RestsAt(ring, allotments, s, i);
    }
  }

  /** When a share has ended and six rounds are complete, every thread has had exactly its allotment of
      ticks and its counter is zero again; after twelve rounds twice that, and so on. */
  lemma SixRounds(ring: seq<int>, allotments: map<int, int>, s: Shares, r: nat)
    requires Ok(ring, allotments, s, false) && s.pos == 0 && s.round == 6 * r
    ensures forall i :: 0 <= i < |ring| ==> Of(s.ticks, ring[i]) == Of(allotments, ring[i]) * r && Of(s.counters, ring[i]) == 0
  {
    forall i | 0 <= i < |ring| ensures Of(s.ticks, ring[i]) == Of(allotments, ring[i]) * r && Of(s.counters, ring[i]) == 0 {
      assert AllottedAt(ring, allotments, i) && BalancedAt(ring, allotments, s, i) && RestsAt(ring, allotments, s, i);
      SixTimes(Of(allotments, ring[i]), r);
    }
  }

  lemma SixTimes(a: int, r: nat)
    ensures a * (6 * r) == 6 * (a * r)
  {
  }

  /** The visit that completes a sixth round always ends the selection: its thread gets to run. */
  lemma SixthRoundRuns(ring: seq<int>, allotments: map<int, int>, s: Shares, running: bool, r: nat)
    requires Ok(ring, allotments, s, running) && s.pos == 0 && s.round == 6 * r
    requires running || Of(s.counters, s.list[0]) > 0
    ensures running
  {
    var k := |ring| - 1;
    assert AllottedAt(ring, allotments, k) && BalancedAt(ring, allotments, s, k);
    SixTimes(Of(allotments, ring[k]), r);
    assert !running ==> RestsAt(ring, allotments, s, k);
  }

  // ---------- any number of ticks ----------

  /** The sum of a field over the threads of the ring. */
  function Total(ring: seq<int>, field: map<int, int>): int {
    if ring == [] then 0 else Of(field, ring[0]) + Total(ring[1..], field)
  }

  /** How many ticks thread i is ahead of r times its allotment. */
  function Lead(ring: seq<int>, allotments: map<int, int>, s: Shares, r: nat, i: nat): int
    requires i < |ring|
  {
    Of(s.ticks, ring[i]) - r * Of(allotments, ring[i])
  }

  lemma Distributes(a: int, v: int, w: int)
    ensures a * (v - w) == a * v - a * w
  {
  }

  lemma NotNegative(a: int, d: int)
    requires a >= 0 && d >= 0
    ensures a * d >= 0
  {
  }

  lemma Scaled(a: int, v: int, w: int)
    requires a >= 1
    ensures v >= w ==> a * v >= a * w
    ensures v >= w + 1 ==> a * v >= a * w + a
    ensures v <= w ==> a * v <= a * w
  {
    Distributes(a, v, w);
    Distributes(a, v - w, 1);
    if v >= w {
      NotNegative(a, v - w);
    }
    if v >= w + 1 {
      NotNegative(a, v - w - 1);
    }
    if v <= w {
      Distributes(a, w, v);
      NotNegative(a, w - v);
    }
  }

  /** When at least six r rounds have begun, nobody is behind, unless exactly those are complete and the
      last thread still runs. */
  lemma NobodyBehind(ring: seq<int>, allotments: map<int, int>, s: Shares, running: bool, r: nat, i: nat)
    requires Ok(ring, allotments, s, running) && s.round >= 6 * r && i < |ring|
    requires running && i == Front(|ring|, s.pos) ==> s.round > 6 * r || s.pos > 0
    ensures Lead(ring, allotments, s, r, i) >= 0
  {
    var t := ring[i];
    var a, v := Of(allotments, t), Of(s.visits, t);
    assert AllottedAt(ring, allotments, i) && BalancedAt(ring, allotments, s, i);
    assert !(running && i == Front(|ring|, s.pos)) ==> RestsAt(ring, allotments, s, i);
    SixTimes(a, r);
    Scaled(a, v, 6 * r);
  }

  /** When fewer rounds have begun, nobody is ahead. */
  lemma NobodyAhead(ring: seq<int>, allotments: map<int, int>, s: Shares, running: bool, r: nat, i: nat)
    requires Ok(ring, allotments, s, running) && i < |ring|
    requires s.round < 6 * r || (s.round == 6 * r && s.pos == 0)
    ensures Lead(ring, allotments, s, r, i) <= 0
    ensures running && i == Front(|ring|, s.pos) ==> Lead(ring, allotments, s, r, i) < 0
  {
    var t := ring[i];
    var a, v := Of(allotments, t), Of(s.visits, t);
    assert AllottedAt(ring, allotments, i) && BalancedAt(ring, allotments, s, i);
    assert !(running && i == Front(|ring|, s.pos)) ==> RestsAt(ring, allotments, s, i);
    SixTimes(a, r);
    Scaled(a, v, 6 * r);
  }

  function Sum(xs: seq<int>): int {
    if xs == [] then 0 else xs[0] + Sum(xs[1..])
  }

  function Leads(ring: seq<int>, allotments: map<int, int>, s: Shares, r: nat): seq<int> {
    seq(|ring|, i requires 0 <= i < |ring| => Lead(ring, allotments, s, r, i))
  }

  lemma {:induction false} LeadsAddUp(ring: seq<int>, allotments: map<int, int>, s: Shares, r: nat)
    ensures Sum(Leads(ring, allotments, s, r)) == Total(ring, s.ticks) - r * Total(ring, allotments)
  {
    if ring != [] {
      var rest := ring[1..];
      LeadsAddUp(rest, allotments, s, r);
      assert Leads(ring, allotments, s, r)[1..] == Leads(rest, allotments, s, r);
      Distributes(r, Of(allotments, ring[0]), -Total(rest, allotments));
      Distributes(r, 0, Total(rest, allotments));
    }
  }

  /** Numbers of one sign that add up to nothing are nothing. */
  lemma {:induction false} NothingInSum(xs: seq<int>)
    ensures (forall i :: 0 <= i < |xs| ==> xs[i] >= 0) ==> Sum(xs) >= 0 && (Sum(xs) == 0 ==> forall i :: 0 <= i < |xs| ==> xs[i] == 0)
    ensures (forall i :: 0 <= i < |xs| ==> xs[i] <= 0) ==> Sum(xs) <= 0 && (Sum(xs) == 0 ==> forall i :: 0 <= i < |xs| ==> xs[i] == 0)
  {
    if xs != [] {
      var rest := xs[1..];
      NothingInSum(rest);
      assert forall i :: 0 <= i < |rest| ==> rest[i] == xs[i + 1];
      assert forall i :: 0 < i < |xs| ==> xs[i] == rest[i - 1];
    }
  }

  /** Whenever the threads have had r times the sum of their allotments in ticks, each has had r times its
      own allotment. */
  lemma FairShares(ring: seq<int>, allotments: map<int, int>, s: Shares, running: bool, r: nat)
    requires Ok(ring, allotments, s, running) && Total(ring, s.ticks) == r * Total(ring, allotments)
    ensures forall i :: 0 <= i < |ring| ==> Of(s.ticks, ring[i]) == r * Of(allotments, ring[i])
  {
    var leads := Leads(ring, allotments, s, r);
    LeadsAddUp(ring, allotments, s, r);
    NothingInSum(leads);
    if s.round < 6 * r || (s.round == 6 * r && s.pos == 0) {
      forall i | 0 <= i < |ring| ensures leads[i] <= 0 {
        NobodyAhead(ring, allotments, s, running, r, i);
      }
    } else {
      forall i | 0 <= i < |ring| ensures leads[i] >= 0 {
        NobodyBehind(ring, allotments, s, running, r, i);
      }
    }
    forall i | 0 <= i < |ring| ensures Of(s.ticks, ring[i]) == r * Of(allotments, ring[i]) {
      assert leads[i] == 0;
    }
  }

  lemma {:induction false} TotalUpdated(ring: seq<int>, field: map<int, int>, t: int, x: int)
    requires Distinct(ring)
    ensures Total(ring, field[t := x]) == Total(ring, field) + if t in ring then x - Of(field, t) else 0
  {
    if ring != [] {
      assert ring == [ring[0]] + ring[1..];
      assert ring[0] !in ring[1..];
      TotalUpdated(ring[1..], field, t, x);
    }
  }

  lemma {:induction false} TotalAppended(ring: seq<int>, t: int, field: map<int, int>)
    ensures Total(ring + [t], field) == Total(ring, field) + Of(field, t)
  {
    if ring == [] {
      assert [t][1..] == [] && ring + [t] == [t];
    } else {
      TotalAppended(ring[1..], t, field);
      assert (ring + [t])[1..] == ring[1..] + [t];
    }
  }

  lemma {:induction false} NoTicks(ring: seq<int>)
    ensures Total(ring, map[]) == 0
  {
    if ring != [] {
      NoTicks(ring[1..]);
    }
  }

  // ---------- the scheduler's part ----------

  class RunningList {
    var list: seq<int>
    var counters: map<int, int>
    const allotments: map<int, int>
    ghost const ring: seq<int>
    ghost var visits: map<int, int>
    ghost var ticks: map<int, int>
    ghost var round: nat
    ghost var pos: nat

    ghost function Snapshot(): Shares
      reads this
    {
      Shares(list, counters, visits, ticks, round, pos)
    }

    ghost predicate Valid(running: bool)
      reads this
    {
      Ok(ring, allotments, Snapshot(), running)
    }

    /** All counters are zero. */
    constructor (threads: seq<int>, allotments: map<int, int>)
      requires threads != [] && Distinct(threads)
      requires forall i :: 0 <= i < |threads| ==> AllottedAt(threads, allotments, i)
      ensures Valid(false) && this.allotments == allotments && list == threads && ring == threads[1..] + [threads[0]]
      ensures Snapshot() == Shares(threads, map[], map[], map[], 0, 0)
    {
      list, counters, this.allotments := threads, map[], allotments;
      ring := threads[1..] + [threads[0]];
      visits, ticks, round, pos := map[], map[], 0, 0;
      new;
      forall i | 0 <= i < |ring| ensures AllottedAt(ring, allotments, i) {
        assert AllottedAt(threads, allotments, if i + 1 == |threads| then 0 else i + 1);
      }
    }

    /** rotateRunningThreadList, and what the selection adds to the counter. */
    method Visit() returns (thread: int)
      requires Valid(false)
      modifies this
      ensures Snapshot() == Visited(allotments, old(Snapshot())) && thread == list[0] == ring[old(pos)]
      ensures Valid(Of(counters, thread) >= TIME_SHARE_REGULAR)
    {
      VisitedOk(ring, allotments, Snapshot());
      VisitedList(ring, allotments, Snapshot());
      list := list[1..] + [list[0]];
      thread := list[0];
      counters := counters[thread := Of(counters, thread) + Of(allotments, thread)];
      visits := visits[thread := Of(visits, thread) + 1];
      round, pos := if pos + 1 == |list| then round + 1 else round, if pos + 1 == |list| then 0 else pos + 1;
    }

    /** selectRunningThread ends, with a thread that has a whole share. */
    method SelectRunningThread()
      requires Valid(false)
      modifies this
      ensures Valid(true) && ticks == old(ticks)
    {
      var thread := Visit();
      while Of(counters, thread) < TIME_SHARE_REGULAR
        invariant Valid(Of(counters, thread) >= TIME_SHARE_REGULAR) && thread == list[0] && ticks == old(ticks)
        decreases TIME_SHARE_REGULAR - Of(counters, ring[|ring| - 1]), |ring| - pos
      {
        assert RestsAt(ring, allotments, Snapshot(), |ring| - 1) && AllottedAt(ring, allotments, |ring| - 1);
        thread := Visit();
      }
    }

    /** The tick that ends a share, when no timer expires and no other priority has a runnable thread. */
    method ConcludeTimeShare()
      requires Valid(true)
      modifies this
      ensures Valid(true) && ticks == old(ticks)[old(list[0]) := Of(old(ticks), old(list[0])) + 1]
    {
      DeductedOk(ring, allotments, Snapshot());
      var thread := list[0];
      counters := counters[thread := Of(counters, thread) - TIME_SHARE_REGULAR];
      ticks := ticks[thread := Of(ticks, thread) + 1];
      if Of(counters, thread) == 0 {
        SelectRunningThread();
      }
    }

    /** The ticks of n time shares. */
    method Conclude(n: nat)
      requires Valid(true)
      modifies this
      ensures Valid(true) && Total(ring, ticks) == old(Total(ring, ticks)) + n
    {
      var i := 0;
      while i < n
        invariant 0 <= i <= n && Valid(true) && Total(ring, ticks) == old(Total(ring, ticks)) + i
      {
        FrontInRing(ring, allotments, Snapshot());
        TotalUpdated(ring, ticks, list[0], Of(ticks, list[0]) + 1);
        ConcludeTimeShare();
        i := i + 1;
      }
    }
  }

  lemma FrontInRing(ring: seq<int>, allotments: map<int, int>, s: Shares)
    requires Ok(ring, allotments, s, true)
    ensures s.list != [] && s.list[0] in ring
  {
    assert s.list[0] == ring[Front(|ring|, s.pos)];
  }

  lemma {:induction false} SharePositive(ring: seq<int>, allotments: map<int, int>)
    requires forall i :: 0 <= i < |ring| ==> AllottedAt(ring, allotments, i)
    ensures Total(ring, allotments) >= 0
  {
    if ring != [] {
      forall i | 0 <= i < |ring[1..]| ensures AllottedAt(ring[1..], allotments, i) {
        assert AllottedAt(ring, allotments, i + 1);
      }
      assert AllottedAt(ring, allotments, 0);
      SharePositive(ring[1..], allotments);
    }
  }

  /** Started with counters of zero and run for r times the sum of the allotments, the threads have had r
      times their allotments. */
  method RunShares(threads: seq<int>, allotments: map<int, int>, r: nat) returns (l: RunningList)
    requires threads != [] && Distinct(threads)
    requires forall i :: 0 <= i < |threads| ==> AllottedAt(threads, allotments, i)
    ensures l.Valid(true) && l.allotments == allotments && l.ring == threads[1..] + [threads[0]]
    ensures forall i :: 0 <= i < |threads| ==> Of(l.ticks, threads[i]) == r * Of(allotments, threads[i])
  {
    l := new RunningList(threads, allotments);
    l.SelectRunningThread();
    NoTicks(l.ring);
    var share := Total(threads, allotments);
    TotalAppended(threads[1..], threads[0], allotments);
    SharePositive(threads, allotments);
    assert r * share >= 0;
    l.Conclude(r * share);
    FairShares(l.ring, allotments, l.Snapshot(), true, r);
    forall i | 0 <= i < |threads| ensures Of(l.ticks, threads[i]) == r * Of(allotments, threads[i]) {
      assert threads[i] == l.ring[if i == 0 then |threads| - 1 else i - 1];
    }
  }
}
