/** Runs from the start of the system after which a property that one might expect of the scheduler fails. */
module SchedulerExamples {
  import opened Basics
  import opened LinkedLists
  import opened SchedulerState
  import opened SchedulerOps
  import opened Timeouts
  import opened ThreadOps
  import opened SchedulerRuns
  import opened SemaphoreOrder

  /** The highest thread is the first of the highest list that is not empty. */
  lemma HighestIs(s: State, p: nat)
    requires p < PRIORITIES && List(s, Running(p)) != []
    requires forall q: nat :: p < q < PRIORITIES ==> List(s, Running(q)) == []
    ensures HighestUpTo(s, PRIORITIES - 1) == p && HighestThread(s) == List(s, Running(p))[0]
  {
  }

  // ---------- a waiting thread whose priority is set ----------

  // The idle thread 1 and two others; 7 is a semaphore.
  const IDLE := Thread(Active, StatusRunning, 0, NULL, 0)

  function Sleeper(status: Status, state: ThreadState, priority: nat): Thread {
    Thread(state, status, priority, NULL, 0)
  }

  function Unstarted(priority: nat): Thread {
    Sleeper(AsleepTimedOut, NotStarted, priority)
  }

  function Ready(priority: nat): Thread {
    Sleeper(StatusRunning, Active, priority)
  }

  function Waiting(priority: nat): Thread {
    Sleeper(BlockedOnSemaphore, Active, priority)
  }

  function Stage(lists: map<Place, seq<int>>, place: map<int, Place>, second: Thread, third: Thread, counters: map<int, int>, current: int): State {
    State(lists, place, map[1 := IDLE, 2 := second, 3 := third], map[], counters, [], current, 1)
  }

  function Stage0(): State {
    Stage(map[Running(0) := [1]], map[1 := Running(0)], Unstarted(5), Unstarted(4), map[], 1)
  }

  function Stage1(): State {
    Stage(map[Running(0) := [1], Running(5) := [2]], map[1 := Running(0), 2 := Running(5)], Ready(5), Unstarted(4), map[], 1)
  }

  function Stage2(): State {
    Stage1().(current := 2)
  }

  function Stage3(): State {
    Stage(map[Running(0) := [1], Running(5) := [], Pending(7) := [2]], map[1 := Running(0), 2 := Pending(7)],
          Waiting(5), Unstarted(4), map[7 := -1], 1)
  }

  function Stage4(): State {
    Stage(map[Running(0) := [1], Running(5) := [], Pending(7) := [2], Running(4) := [3]],
          map[1 := Running(0), 2 := Pending(7), 3 := Running(4)], Waiting(5), Ready(4), map[7 := -1], 1)
  }

  function Stage5(): State {
    Stage4().(current := 3)
  }

  function Stage6(): State {
    Stage(map[Running(0) := [1], Running(5) := [], Pending(7) := [2, 3], Running(4) := []],
          map[1 := Running(0), 2 := Pending(7), 3 := Pending(7)], Waiting(5), Waiting(4), map[7 := -2], 1)
  }

  lemma FirstStages()
    ensures Initial(1, 0, map[2 := 5, 3 := 4]) == Stage0()
    ensures Enabled(Stage0(), Start(2, NULL)) && Step(Stage0(), Start(2, NULL)) == Stage1()
  {
    assert Initial(1, 0, map[2 := 5, 3 := 4]).threads == Stage0().threads;
    var s := Step(Stage0(), Start(2, NULL));
    assert List(s, Running(5)) == [2];
    assert s.lists == Stage1().lists && s.place == Stage1().place && s.threads == Stage1().threads;
  }

  lemma SecondRuns()
    ensures Enabled(Stage1(), YieldWeakly) && Step(Stage1(), YieldWeakly) == Stage2()
  {
    HighestIs(Stage1(), 5);
    assert [1][1..] + [1] == [1];
    assert Rotated(Stage1(), Running(0)).lists == Stage1().lists;
  }

  lemma SecondWaits()
    ensures Enabled(Stage2(), Pend(7)) && Step(Stage2(), Pend(7)) == Stage3()
  {
    var s := Pends(Stage2(), 7);
    assert Without([2], 2) == [] && List(s, Pending(7)) == [2];
    assert s.lists == Stage3().lists && s.place == Stage3().place && s.threads == Stage3().threads;
    HighestIs(s, 0);
  }

  lemma ThirdStarts()
    ensures Enabled(Stage3(), Start(3, NULL)) && Step(Stage3(), Start(3, NULL)) == Stage4()
  {
    var s := Step(Stage3(), Start(3, NULL));
    assert List(s, Running(4)) == [3];
    assert s.lists == Stage4().lists && s.place == Stage4().place && s.threads == Stage4().threads;
  }

  lemma ThirdRuns()
    ensures Enabled(Stage4(), YieldWeakly) && Step(Stage4(), YieldWeakly) == Stage5()
  {
    HighestIs(Stage4(), 4);
    assert [1][1..] + [1] == [1];
    assert Rotated(Stage4(), Running(0)).lists == Stage4().lists;
  }

  lemma ThirdWaits()
    ensures Enabled(Stage5(), Pend(7)) && Step(Stage5(), Pend(7)) == Stage6()
  {
    var s := Pends(Stage5(), 7);
    var ks := PrioritiesOf(Stage5(), [2]);
    assert ks == [5] && SortedPosition([5], 4, ByPriority) == 1 by {
      PositionIs([5], 4, ByPriority, 1);
    }
    assert Without([3], 3) == [] && List(s, Pending(7)) == [2, 3];
    assert s.lists == Stage6().lists && s.place == Stage6().place && s.threads == Stage6().threads;
    HighestIs(s, 0);
  }

  function ToStage6(): seq<Event> {
    [Start(2, NULL)] + ([YieldWeakly] + ([Pend(7)] + ([Start(3, NULL)] + ([YieldWeakly] + ([Pend(7)] + [])))))
  }

  lemma Prepended(s: State, e: Event, s1: State, es: seq<Event>)
    requires Enabled(s, e) && Step(s, e) == s1 && Possible(s1, es)
    ensures Possible(s, [e] + es) && Run(s, [e] + es) == Run(s1, es)
  {
    assert ([e] + es)[1..] == es;
  }

  lemma Stage6Reached()
    ensures var s := Initial(1, 0, map[2 := 5, 3 := 4]); Possible(s, ToStage6()) && Run(s, ToStage6()) == Stage6()
  {
    FirstStages(); SecondRuns(); SecondWaits(); ThirdStarts(); ThirdRuns(); ThirdWaits();
    var es: seq<Event> := [];
    Prepended(Stage5(), Pend(7), Stage6(), es);
    es := [Pend(7)] + es;
    Prepended(Stage4(), YieldWeakly, Stage5(), es);
    es := [YieldWeakly] + es;
    Prepended(Stage3(), Start(3, NULL), Stage4(), es);
    es := [Start(3, NULL)] + es;
    Prepended(Stage2(), Pend(7), Stage3(), es);
    es := [Pend(7)] + es;
    Prepended(Stage1(), YieldWeakly, Stage2(), es);
    es := [YieldWeakly] + es;
    Prepended(Stage0(), Start(2, NULL), Stage1(), es);
  }

  function Stage7(): State {
    Stage6().(threads := map[1 := IDLE, 2 := Waiting(5), 3 := Waiting(63)])
  }

  lemma ThirdPrioritized()
    ensures Enabled(Stage6(), Prioritize(3, 63)) && Step(Stage6(), Prioritize(3, 63)) == Stage7()
  {
    assert Step(Stage6(), Prioritize(3, 63)).threads == Stage7().threads;
  }

  lemma Stage7Disordered(since: Since, byTime: bool)
    ensures !InOrder(Stage7(), since, byTime)
  {
    var l := List(Stage7(), Pending(7));
    assert !Ahead(Stage7(), since, byTime, l[0], l[1]);
  }

  lemma Stage7Reached()
    ensures var s0 := Initial(1, 0, map[2 := 5, 3 := 4]);
            && Possible(s0, ToStage6()) && Enabled(Run(s0, ToStage6()), Prioritize(3, 63))
            && Step(Run(s0, ToStage6()), Prioritize(3, 63)) == Stage7() && Inv(Stage7())
  {
    var s0 := Initial(1, 0, map[2 := 5, 3 := 4]);
    Stage6Reached();
    InitialInv(1, 0, map[2 := 5, 3 := 4]);
    RunInv(s0, ToStage6());
    ThirdPrioritized();
    StepInv(Stage6(), Prioritize(3, 63));
  }

  /** Two threads wait, and the second gets a higher priority than the first: it stays second, and the
      next post wakes the other one. */
  lemma QueueDisordered()
    ensures var s0 := Initial(1, 0, map[2 := 5, 3 := 4]);
            && Possible(s0, ToStage6()) && Enabled(Run(s0, ToStage6()), Prioritize(3, 63))
            && Step(Run(s0, ToStage6()), Prioritize(3, 63)) == Stage7()
    ensures forall since, byTime :: !InOrder(Stage7(), since, byTime)
    ensures List(Stage7(), Pending(7)) == [2, 3] && List(SemaphorePost(Stage7(), 7), Pending(7)) == [3]
    ensures ThreadOf(Stage7(), 2).priority == 5 && ThreadOf(Stage7(), 3).priority == 63
  {
    Stage7Reached();
    PostTakesFront(Stage7(), 7);
    forall since, byTime ensures !InOrder(Stage7(), since, byTime) {
      Stage7Disordered(since, byTime);
    }
  }

  // ---------- the current thread lowers its own priority ----------

  /** Thread 2 has been started beside the idle thread. */
  function Beside(mine: nat, other: nat): State {
    State(map[Running(mine) := [1], Running(other) := [2]], map[1 := Running(mine), 2 := Running(other)],
          map[1 := Ready(mine), 2 := Ready(other)], map[], map[], [], 1, 1)
  }

  lemma BesideReached(mine: nat, other: nat)
    requires mine < PRIORITIES && other < PRIORITIES && mine != other
    ensures var s0 := Initial(1, mine, map[2 := other]);
            Possible(s0, [Start(2, NULL)]) && Run(s0, [Start(2, NULL)]) == Beside(mine, other) && Inv(Beside(mine, other))
  {
    var s0, es := Initial(1, mine, map[2 := other]), [Start(2, NULL)];
    InitialInv(1, mine, map[2 := other]);
    var s := Step(s0, es[0]);
    assert List(s, Running(other)) == [2];
    assert s.lists == Beside(mine, other).lists && s.threads == Beside(mine, other).threads;
    Prepended(s0, es[0], s, []);
    assert es == [es[0]] + [];
    RunInv(s0, es);
  }

  lemma Lowered()
    ensures var s1 := Reprioritized(Beside(5, 4), 1, 4);
            && List(s1, Running(4)) == [2, 1] && HighestThread(s1) == 2 && s1.current == 1
            && 1 in s1.threads && s1.threads[1].priority == 4
  {
    var s1 := Reprioritized(Beside(5, 4), 1, 4);
    assert Without([1], 1) == [] && List(s1, Running(4)) == [2, 1];
    HighestIs(s1, 4);
  }

  /** The current thread lowers its priority to that of another thread: the other one runs, and is behind
      it on the list. */
  lemma OwnPriorityDisplaces()
    ensures var s := Run(Initial(1, 5, map[2 := 4]), [Start(2, NULL)]);
            && Inv(s) && s.current == 1
            && var s' := SetPriority(s, 1, 4); s'.current == 2 && List(s', Running(4)) == [1, 2] && !CurrentInFront(s')
  {
    BesideReached(5, 4);
    Lowered();
    assert [2, 1][1..] + [2] == [1, 2];
  }

  // ---------- a strong yield that does not yield ----------

  /** The idle thread has started a thread of higher priority, and yields strongly: it goes on running. */
  lemma StrongYieldStays()
    ensures var s := Run(Initial(1, 0, map[2 := 5]), [Start(2, NULL)]);
            Inv(s) && StrongYield(s).current == 1 && HighestThread(StrongYield(s)) == 2
  {
    BesideReached(0, 5);
    var s := StrongYield(Beside(0, 5));
    assert [1][1..] + [1] == [1];
    HighestIs(s, 5);
  }
}
