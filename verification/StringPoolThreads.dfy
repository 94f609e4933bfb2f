/** Threads that use the string pool at the same time (jvm/src/string/stringPool.c): the search holds no
    lock, only the insertion is a critical region. Every read of an entry is a step of its own. */
module StringPoolThreads {
  import opened StringPool

  /** What a thread does next. It looks for s in the entries that were in the chain when it read the
      front of it; left of them are still to be read, counted from the end of the chain. */
  datatype Local =
    | Idle
    | Searches(s: Chars, read: nat, left: nat)
    | Inserts(s: Chars, read: nat)
    | Finds(s: Chars, key: nat)
    | OutOfMemory

  datatype System = System(pool: Chains, locals: map<int, Local>)

  /** A thread calls getUTF8StringByChars, takes its next step, or gets no memory for a new entry. */
  datatype Event = Calls(thread: int, s: Chars) | Steps(thread: int) | Starves(thread: int)

  function LocalOf(y: System, t: int): Local {
    if t in y.locals then y.locals[t] else Idle
  }

  function ChainFor(y: System, s: Chars): seq<Entry> {
    if Index(s) < |y.pool| then y.pool[Index(s)] else []
  }

  function Becomes(y: System, t: int, local: Local): System {
    y.(locals := y.locals[t := local])
  }

  predicate Resting(local: Local) {
    local.Idle? || local.Finds? || local.OutOfMemory?
  }

  function Step(y: System, t: int): System {
    match LocalOf(y, t)
    case Searches(s, read, left) =>
      if left == 0 then Becomes(y, t, Inserts(s, read))
      else if left > |ChainFor(y, s)| then y
      else
        var entry := ChainFor(y, s)[|ChainFor(y, s)| - left];
        if entry.chars == s then Becomes(y, t, Finds(s, entry.nameKey)) else Becomes(y, t, Searches(s, read, left - 1))
    case Inserts(s, read) =>
      if Index(s) >= |y.pool| then y
      else
        var longer := Added(ChainFor(y, s), Index(s), s);
        Becomes(y, t, Finds(s, longer[0].nameKey)).(pool := y.pool[Index(s) := longer])
    case _ => y
  }

  function Next(y: System, e: Event): System {
    match e
    case Calls(t, s) =>
      if Resting(LocalOf(y, t)) then Becomes(y, t, Searches(s, |ChainFor(y, s)|, |ChainFor(y, s)|)) else y
    case Steps(t) => Step(y, t)
    case Starves(t) => if LocalOf(y, t).Inserts? then Becomes(y, t, Local.OutOfMemory) else y
  }

  // ---------- whole runs ----------

  ghost predicate NextAt(run: seq<System>, es: seq<Event>, i: nat)
    requires i < |es| && |run| == |es| + 1
  {
    run[i + 1] == Next(run[i], es[i])
  }

  ghost predicate IsRun(run: seq<System>, es: seq<Event>) {
    |run| == |es| + 1 && |run[0].pool| == TABLE_SIZE && forall i :: 0 <= i < |es| ==> NextAt(run, es, i)
  }

  /** Step i puts string s into the pool. */
  ghost predicate InsertsAt(run: seq<System>, es: seq<Event>, i: nat, s: Chars)
    requires i < |es| && |run| == |es| + 1
  {
    es[i].Steps? && LocalOf(run[i], es[i].thread).Inserts? && LocalOf(run[i], es[i].thread).s == s
  }

  /** Thread t looks for s, or is about to add it. */
  predicate Seeks(local: Local, s: Chars) {
    (local.Searches? || local.Inserts?) && local.s == s
  }

  /** All the time from step c, in which it reads the front of the chain, to step k, thread t seeks s. */
  ghost predicate SeeksSince(run: seq<System>, es: seq<Event>, t: int, s: Chars, c: nat, k: nat)
    requires c < k < |es| && |run| == |es| + 1
  {
    es[c] == Calls(t, s) && Resting(LocalOf(run[c], t)) && forall i :: c < i <= k ==> Seeks(LocalOf(run[i], t), s)
  }

  /** Step k inserts a string that another thread has inserted since the one of step k began its search. */
  ghost predicate Overtaken(run: seq<System>, es: seq<Event>, k: nat)
    requires k < |es| && |run| == |es| + 1
  {
    exists s, c: nat, m: nat :: c < m < k && InsertsAt(run, es, k, s) && SeeksSince(run, es, es[k].thread, s, c, k) && InsertsAt(run, es, m, s)
  }

  ghost predicate UniqueIn(chain: seq<Entry>) {
    forall i, j :: 0 <= i < j < |chain| ==> chain[i].chars != chain[j].chars
  }

  ghost predicate UniqueAt(pool: Chains, i: nat)
    requires i < |pool|
  {
    UniqueIn(pool[i])
  }

  /** Every string is in the pool at most once. */
  ghost predicate Unique(pool: Chains) {
    forall i :: 0 <= i < |pool| ==> UniqueAt(pool, i)
  }

  // ---------- chains only grow, at the front ----------

  ghost predicate Longer(chain: seq<Entry>, chain': seq<Entry>) {
    |chain| <= |chain'| && chain'[|chain'| - |chain|..] == chain
  }

  lemma LongerTransitive(a: seq<Entry>, b: seq<Entry>, c: seq<Entry>)
    requires Longer(a, b) && Longer(b, c)
    ensures Longer(a, c)
  {
    assert c[|c| - |a|..] == c[|c| - |b|..][|b| - |a|..];
  }

  lemma StepLonger(y: System, e: Event, s: Chars)
    requires |y.pool| == TABLE_SIZE
    ensures |Next(y, e).pool| == TABLE_SIZE && Longer(ChainFor(y, s), ChainFor(Next(y, e), s))
    ensures |ChainFor(Next(y, e), s)| <= |ChainFor(y, s)| + 1
    ensures |ChainFor(Next(y, e), s)| > |ChainFor(y, s)| ==>
              e.Steps? && LocalOf(y, e.thread).Inserts? && ChainFor(Next(y, e), s)[0].chars == LocalOf(y, e.thread).s
  {
  }

  lemma {:induction false} RunLonger(run: seq<System>, es: seq<Event>, i: nat, j: nat, s: Chars)
    requires IsRun(run, es) && i <= j < |run|
    ensures |run[j].pool| == TABLE_SIZE && Longer(ChainFor(run[i], s), ChainFor(run[j], s))
    decreases j
  {
    if j > 0 {
      assert NextAt(run, es, j - 1);
      RunLonger(run, es, if i < j then i else j - 1, j - 1, s);
      StepLonger(run[j - 1], es[j - 1], s);
      if i < j {
        LongerTransitive(ChainFor(run[i], s), ChainFor(run[j - 1], s), ChainFor(run[j], s));
      }
    }
  }

  lemma LongerByOne(chain: seq<Entry>, chain': seq<Entry>, p: nat)
    requires Longer(chain, chain') && |chain'| <= |chain| + 1 && p < |chain'|
    ensures |chain'| == |chain| ==> chain' == chain
    ensures |chain'| > |chain| && p > 0 ==> chain'[p] == chain[p - 1]
  {
    assert chain'[1..] == chain || |chain'| == |chain|;
  }

  /** Whatever is in front of the entries of step i has been inserted since. */
  lemma {:induction false} NewerInserted(run: seq<System>, es: seq<Event>, i: nat, j: nat, s: Chars, p: nat) returns (m: nat)
    requires IsRun(run, es) && i <= j < |run|
    requires p < |ChainFor(run[j], s)| - |ChainFor(run[i], s)| && ChainFor(run[j], s)[p].chars == s
    ensures i <= m < j && InsertsAt(run, es, m, s)
    decreases j
  {
    var before, after := ChainFor(run[j - 1], s), ChainFor(run[j], s);
    StepTo(run, es, j, s);
    LongerByOne(before, after, p);
    if |after| > |before| && p == 0 {
      m := j - 1;
    } else {
      m := NewerInserted(run, es, i, j - 1, s, if |after| == |before| then p else p - 1);
    }
  }

  lemma StepTo(run: seq<System>, es: seq<Event>, j: nat, s: Chars)
    requires IsRun(run, es) && 0 < j < |run|
    ensures var before, after := ChainFor(run[j - 1], s), ChainFor(run[j], s);
            && Longer(before, after) && |after| <= |before| + 1
            && (|after| > |before| ==> InsertsAt(run, es, j - 1, after[0].chars))
  {
    RunLonger(run, es, j - 1, j - 1, s);
    assert NextAt(run, es, j - 1);
    StepLonger(run[j - 1], es[j - 1], s);
  }

  lemma InsertedIsThere(run: seq<System>, es: seq<Event>, m: nat, j: nat, s: Chars)
    requires IsRun(run, es) && m < j < |run| && InsertsAt(run, es, m, s)
    ensures exists p :: 0 <= p < |ChainFor(run[j], s)| && ChainFor(run[j], s)[p].chars == s
  {
    RunLonger(run, es, m, m, s);
    RunLonger(run, es, m + 1, j, s);
    assert NextAt(run, es, m);
    var was, now := ChainFor(run[m + 1], s), ChainFor(run[j], s);
    assert was[0].chars == s && now[|now| - |was|] == now[|now| - |was|..][0];
  }

  // ---------- what a searching thread knows ----------

  /** None of the entries from place p on, but the last `left`, is s. */
  ghost predicate Unseen(chain: seq<Entry>, s: Chars, read: nat, left: nat) {
    left <= read <= |chain| && forall p :: |chain| - read <= p < |chain| - left ==> chain[p].chars != s
  }

  ghost predicate LocalOk(y: System, t: int) {
    match LocalOf(y, t)
    case Searches(s, read, left) => Unseen(ChainFor(y, s), s, read, left)
    case Inserts(s, read) => Unseen(ChainFor(y, s), s, read, 0)
    case _ => true
  }

  lemma UnseenLonger(chain: seq<Entry>, chain': seq<Entry>, s: Chars, read: nat, left: nat)
    requires Unseen(chain, s, read, left) && Longer(chain, chain')
    ensures Unseen(chain', s, read, left)
  {
    var d := |chain'| - |chain|;
    forall p | |chain'| - read <= p < |chain'| - left ensures chain'[p].chars != s {
      assert chain'[p] == chain'[d..][p - d];
    }
  }

  lemma OwnLocal(y: System, t: int)
    requires LocalOk(y, t) && LocalOf(y, t).Searches?
    ensures LocalOk(Step(y, t), t)
  {
    var l := LocalOf(y, t);
    var chain := ChainFor(y, l.s);
    assert Step(y, t).pool == y.pool;
    if 0 < l.left <= |chain| && chain[|chain| - l.left].chars != l.s {
      assert Unseen(chain, l.s, l.read, l.left - 1);
    }
  }

  lemma OtherLocal(y: System, y': System, t: int)
    requires LocalOk(y, t) && LocalOf(y', t) == LocalOf(y, t)
    requires forall s :: Longer(ChainFor(y, s), ChainFor(y', s))
    ensures LocalOk(y', t)
  {
    match LocalOf(y, t)
    case Searches(s, read, left) => UnseenLonger(ChainFor(y, s), ChainFor(y', s), s, read, left);
    case Inserts(s, read) => UnseenLonger(ChainFor(y, s), ChainFor(y', s), s, read, 0);
    case _ =>
  }

  lemma StepLocal(y: System, e: Event, t: int)
    requires |y.pool| == TABLE_SIZE && LocalOk(y, t)
    ensures LocalOk(Next(y, e), t)
  {
    if LocalOf(Next(y, e), t) == LocalOf(y, t) {
      forall s ensures Longer(ChainFor(y, s), ChainFor(Next(y, e), s)) {
        StepLonger(y, e, s);
      }
      OtherLocal(y, Next(y, e), t);
    } else if e.Steps? && LocalOf(y, t).Searches? {
      OwnLocal(y, t);
    }
  }

  ghost predicate AllLocalOk(y: System) {
    forall t :: LocalOk(y, t)
  }

  ghost predicate AtRest(y: System) {
    forall t :: Resting(LocalOf(y, t))
  }

  lemma {:induction false} RunLocal(run: seq<System>, es: seq<Event>, i: nat)
    requires IsRun(run, es) && AtRest(run[0]) && i < |run|
    ensures AllLocalOk(run[i])
  {
    if i == 0 {
      forall t ensures LocalOk(run[0], t) {
        assert Resting(LocalOf(run[0], t));
      }
    } else {
      RunLocal(run, es, i - 1);
      RunLonger(run, es, i - 1, i - 1, []);
      assert NextAt(run, es, i - 1);
      forall t ensures LocalOk(run[i], t) {
        assert LocalOk(run[i - 1], t);
        StepLocal(run[i - 1], es[i - 1], t);
      }
    }
  }

  /** The step in which a thread that seeks s began to. */
  lemma {:induction false} BeganAt(run: seq<System>, es: seq<Event>, k: nat, t: int, s: Chars) returns (c: nat)
    requires IsRun(run, es) && AtRest(run[0]) && k < |es| && Seeks(LocalOf(run[k], t), s)
    ensures c < k && SeeksSince(run, es, t, s, c, k)
    ensures LocalOf(run[k], t).read == |ChainFor(run[c], s)|
  {
    assert Resting(LocalOf(run[0], t));
    assert NextAt(run, es, k - 1);
    if Seeks(LocalOf(run[k - 1], t), s) {
      c := BeganAt(run, es, k - 1, t, s);
      forall i | c < i <= k ensures Seeks(LocalOf(run[i], t), s) {
        assert i < k ==> Seeks(LocalOf(run[i], t), s);
      }
    } else {
      c := k - 1;
    }
  }

  // ---------- when a string is added twice ----------

  ghost predicate InChain(chain: seq<Entry>, s: Chars) {
    exists p :: 0 <= p < |chain| && chain[p].chars == s
  }

  /** At the moment of an insertion the string is already in the pool, exactly if the thread has been
      overtaken. */
  lemma OvertakenIff(run: seq<System>, es: seq<Event>, k: nat, s: Chars)
    requires IsRun(run, es) && AtRest(run[0]) && k < |es| && InsertsAt(run, es, k, s)
    ensures InChain(ChainFor(run[k], s), s) <==> Overtaken(run, es, k)
  {
    var t, chain := es[k].thread, ChainFor(run[k], s);
    if InChain(chain, s) {
      var c := BeganAt(run, es, k, t, s);
      var p :| 0 <= p < |chain| && chain[p].chars == s;
      RunLocal(run, es, k);
      assert LocalOk(run[k], t);
      var m := NewerInserted(run, es, c, k, s, p);
      assert m != c;
    }
    if Overtaken(run, es, k) {
      var s', c: nat, m: nat :| c < m < k && InsertsAt(run, es, k, s') && SeeksSince(run, es, t, s', c, k) && InsertsAt(run, es, m, s');
      InsertedIsThere(run, es, m, k, s);
    }
  }

  lemma InsertedTwice(y: System, t: int, s: Chars)
    requires |y.pool| == TABLE_SIZE && LocalOf(y, t).Inserts? && LocalOf(y, t).s == s && InChain(ChainFor(y, s), s)
    ensures !UniqueIn(ChainFor(Step(y, t), s))
  {
    var chain := ChainFor(y, s);
    var longer := ChainFor(Step(y, t), s);
    var p :| 0 <= p < |chain| && chain[p].chars == s;
    assert longer[0].chars == s && longer[p + 1] == chain[p];
  }

  lemma StillTwice(chain: seq<Entry>, chain': seq<Entry>)
    requires Longer(chain, chain') && !UniqueIn(chain)
    ensures !UniqueIn(chain')
  {
    var i, j :| 0 <= i < j < |chain| && chain[i].chars == chain[j].chars;
    var d := |chain'| - |chain|;
    assert chain'[d..][i] == chain'[d + i] && chain'[d..][j] == chain'[d + j];
  }

  lemma StepUnique(y: System, e: Event)
    requires |y.pool| == TABLE_SIZE && Unique(y.pool)
    requires e.Steps? && LocalOf(y, e.thread).Inserts? ==> !InChain(ChainFor(y, LocalOf(y, e.thread).s), LocalOf(y, e.thread).s)
    ensures Unique(Next(y, e).pool)
  {
    var y' := Next(y, e);
    forall i | 0 <= i < |y'.pool| ensures UniqueAt(y'.pool, i) {
      assert UniqueAt(y.pool, i);
    }
  }

  /** No step of the run inserts a string that the thread has been overtaken with. */
  ghost predicate NeverOvertaken(run: seq<System>, es: seq<Event>, n: nat)
    requires |run| == |es| + 1
  {
    forall k :: 0 <= k < n <= |es| ==> !Overtaken(run, es, k)
  }

  /** A run keeps one entry for every string, exactly if no thread is overtaken: no string is inserted
      between the search of another thread for the same string and its own insertion. */
  lemma {:induction false} UniqueIff(run: seq<System>, es: seq<Event>, n: nat)
    requires IsRun(run, es) && AtRest(run[0]) && Unique(run[0].pool) && n < |run|
    ensures Unique(run[n].pool) <==> NeverOvertaken(run, es, n)
    decreases n
  {
    if n > 0 {
      UniqueIff(run, es, n - 1);
      UniqueStep(run, es, n);
    }
  }

  lemma UniqueStep(run: seq<System>, es: seq<Event>, n: nat)
    requires IsRun(run, es) && AtRest(run[0]) && 0 < n < |run|
    ensures Unique(run[n].pool) <==> Unique(run[n - 1].pool) && !Overtaken(run, es, n - 1)
  {
    var y, e := run[n - 1], es[n - 1];
    assert NextAt(run, es, n - 1);
    RunLonger(run, es, n - 1, n - 1, []);
    if e.Steps? && LocalOf(y, e.thread).Inserts? {
      var s := LocalOf(y, e.thread).s;
      OvertakenIff(run, es, n - 1, s);
      if InChain(ChainFor(y, s), s) {
        InsertedTwice(y, e.thread, s);
        assert !UniqueAt(run[n].pool, Index(s));
      }
    }
    if !Unique(y.pool) {
      var i :| 0 <= i < |y.pool| && !UniqueAt(y.pool, i);
      ChainsLonger(y, e, i);
      StillTwice(y.pool[i], run[n].pool[i]);
      assert !UniqueAt(run[n].pool, i);
    } else if !Overtaken(run, es, n - 1) {
      StepUnique(y, e);
    }
  }

  lemma ChainsLonger(y: System, e: Event, i: nat)
    requires |y.pool| == TABLE_SIZE && i < TABLE_SIZE
    ensures |Next(y, e).pool| == TABLE_SIZE && Longer(y.pool[i], Next(y, e).pool[i])
  {
  }

  // ---------- every call ends, and with a key of its string ----------

  ghost predicate HasEntry(chain: seq<Entry>, s: Chars, key: nat) {
    exists p :: 0 <= p < |chain| && chain[p] == Entry(s, key)
  }

  /** What a call for s may end with. */
  ghost predicate Ended(y: System, t: int, s: Chars) {
    match LocalOf(y, t)
    case Finds(found, key) => found == s && HasEntry(ChainFor(y, s), s, key)
    case OutOfMemory => true
    case _ => false
  }

  /** A step of thread t goes on with its call or ends it, without memory only where a new entry is needed;
      nobody else's step does either. */
  lemma SeekingStep(y: System, e: Event, t: int, s: Chars)
    requires |y.pool| == TABLE_SIZE && LocalOk(y, t) && Seeks(LocalOf(y, t), s)
    ensures Seeks(LocalOf(Next(y, e), t), s) || Ended(Next(y, e), t, s)
    ensures LocalOf(Next(y, e), t).OutOfMemory? ==> e == Starves(t) && LocalOf(y, t).Inserts?
    ensures e.thread != t ==> LocalOf(Next(y, e), t) == LocalOf(y, t)
  {
    var y', chain := Next(y, e), ChainFor(y, s);
    if e == Steps(t) && LocalOf(y', t).Finds? {
      if LocalOf(y, t).Searches? {
        assert chain[|chain| - LocalOf(y, t).left] == Entry(s, LocalOf(y', t).key);
      } else {
        assert ChainFor(y', s)[0] == Entry(s, LocalOf(y', t).key);
      }
    }
  }

  /** From the call at c on, thread t seeks s all the time before k. */
  ghost predicate InCall(run: seq<System>, t: int, s: Chars, c: nat, k: nat) {
    c < k < |run| && Resting(LocalOf(run[c], t)) && forall i :: c < i < k ==> Seeks(LocalOf(run[i], t), s)
  }

  /** In every run a call goes on until it has a key that some entry of its string has, or no memory. */
  lemma SeekingCall(run: seq<System>, es: seq<Event>, t: int, s: Chars, c: nat, k: nat)
    requires IsRun(run, es) && AtRest(run[0]) && InCall(run, t, s, c, k) && es[c] == Calls(t, s)
    ensures Seeks(LocalOf(run[k], t), s) || Ended(run[k], t, s)
  {
    assert NextAt(run, es, k - 1);
    if c + 1 < k {
      RunLocal(run, es, k - 1);
      RunLonger(run, es, k - 1, k - 1, s);
      assert LocalOk(run[k - 1], t);
      SeekingStep(run[k - 1], es[k - 1], t, s);
    }
  }

  /** How many steps a call still takes at most: one for each entry left, one to see the end of the chain,
      and one to insert. */
  function Left(local: Local): nat {
    match local
    case Searches(_, _, left) => left + 2
    case Inserts(_, _) => 1
    case _ => 0
  }

  lemma StepLeft(y: System, e: Event, t: int, s: Chars)
    requires |y.pool| == TABLE_SIZE && LocalOk(y, t) && Seeks(LocalOf(y, t), s)
    ensures Left(LocalOf(Next(y, e), t)) + (if e == Steps(t) then 1 else 0) <= Left(LocalOf(y, t))
  {
  }

  function Taken(es: seq<Event>, t: int, c: nat, k: nat): nat
    requires c <= k <= |es|
    decreases k
  {
    if c == k then 0 else Taken(es, t, c, k - 1) + if es[k - 1] == Steps(t) then 1 else 0
  }

  /** Nobody waits: whatever the other threads do, a call ends after as many steps of its own as the chain
      had entries when it began, and two more. */
  lemma {:induction false} CallEnds(run: seq<System>, es: seq<Event>, t: int, s: Chars, c: nat, k: nat)
    requires IsRun(run, es) && AtRest(run[0]) && InCall(run, t, s, c, k) && es[c] == Calls(t, s)
    ensures Taken(es, t, c, k) + Left(LocalOf(run[k], t)) <= |ChainFor(run[c], s)| + 2
    decreases k
  {
    var before := k - 1;
    assert NextAt(run, es, before);
    if c < before {
      CallEnds(run, es, t, s, c, before);
      RunLocal(run, es, before);
      RunLonger(run, es, before, before, s);
      assert LocalOk(run[before], t);
      StepLeft(run[before], es[before], t, s);
    } else {
      assert Taken(es, t, c, c) == 0;
    }
  }

  // ---------- a call that runs alone ----------

  function Alone(y: System, t: int, n: nat): System
    decreases n
  {
    if n == 0 then y else Alone(Step(y, t), t, n - 1)
  }

  /** The pool, and what thread t has found, after an undisturbed call for s. */
  ghost predicate Served(pool: Chains, y: System, t: int, s: Chars)
    requires |pool| == TABLE_SIZE
  {
    var chain := pool[Index(s)];
    if InChain(chain, s) then y.pool == pool && LocalOf(y, t) == Finds(s, chain[Find(chain, s)].nameKey)
    else
      && y.pool == pool[Index(s) := Added(chain, Index(s), s)]
      && LocalOf(y, t) == Finds(s, Added(chain, Index(s), s)[0].nameKey)
  }

  /** All entries have been looked at, so s is not in the chain. */
  lemma NotInChain(chain: seq<Entry>, s: Chars)
    requires Unseen(chain, s, |chain|, 0)
    ensures !InChain(chain, s)
  {
  }

  lemma NearestFound(chain: seq<Entry>, s: Chars, left: nat)
    requires Unseen(chain, s, |chain|, left) && 0 < left <= |chain| && chain[|chain| - left].chars == s
    ensures InChain(chain, s) && Find(chain, s) == |chain| - left
  {
  }

  lemma {:induction false} AloneServed(y: System, t: int, s: Chars, n: nat)
    requires |y.pool| == TABLE_SIZE && LocalOk(y, t) && Seeks(LocalOf(y, t), s) && LocalOf(y, t).read == |ChainFor(y, s)|
    requires n >= Left(LocalOf(y, t))
    ensures Served(y.pool, Alone(y, t, n), t, s)
    decreases n
  {
    var chain, y' := ChainFor(y, s), Step(y, t);
    if LocalOf(y', t).Finds? {
      if LocalOf(y, t).Searches? {
        NearestFound(chain, s, LocalOf(y, t).left);
      } else {
        NotInChain(chain, s);
      }
      RestingStays(y', t, n - 1);
    } else {
      StepLeft(y, Steps(t), t, s);
      OwnLocal(y, t);
      AloneServed(y', t, s, n - 1);
    }
  }

  lemma {:induction false} RestingStays(y: System, t: int, n: nat)
    requires Resting(LocalOf(y, t))
    ensures Alone(y, t, n) == y
    decreases n
  {
    if n > 0 {
      RestingStays(y, t, n - 1);
    }
  }

  /** A call that no other thread disturbs ends with the key of the newest entry for its string, or with the
      key of a new entry in front of the chain, and changes nothing else. */
  lemma CallAlone(y: System, t: int, s: Chars)
    requires |y.pool| == TABLE_SIZE && Resting(LocalOf(y, t))
    ensures Served(y.pool, Alone(Next(y, Calls(t, s)), t, |ChainFor(y, s)| + 2), t, s)
  {
    AloneServed(Next(y, Calls(t, s)), t, s, |ChainFor(y, s)| + 2);
  }

  // ---------- the keys of a pool that threads have filled ----------

  /** Every entry has the key of its number in its chain. */
  ghost predicate KeysAt(pool: Chains, i: nat)
    requires i < |pool| == TABLE_SIZE
  {
    forall j :: 0 <= j < |pool[i]| ==> EntryAt(pool[i], i, j)
  }

  ghost predicate KeysOk(pool: Chains) {
    |pool| == TABLE_SIZE && forall i :: 0 <= i < |pool| ==> KeysAt(pool, i)
  }

  lemma KeysStep(y: System, e: Event)
    requires KeysOk(y.pool)
    ensures KeysOk(Next(y, e).pool)
  {
    var y' := Next(y, e);
    if e.Steps? && LocalOf(y, e.thread).Inserts? {
      var s := LocalOf(y, e.thread).s;
      assert KeysAt(y.pool, Index(s));
      AddedKeys(y.pool[Index(s)], s);
      forall i | 0 <= i < |y'.pool| ensures KeysAt(y'.pool, i) {
        assert KeysAt(y.pool, i);
      }
    }
  }

  lemma AddedKeys(chain: seq<Entry>, s: Chars)
    requires forall j :: 0 <= j < |chain| ==> EntryAt(chain, Index(s), j)
    ensures var longer := Added(chain, Index(s), s); forall j :: 0 <= j < |longer| ==> EntryAt(longer, Index(s), j)
  {
    var longer := Added(chain, Index(s), s);
    NextKey(Index(s), |chain|);
    assert chain != [] ==> EntryAt(chain, Index(s), 0);
    forall j: nat | j < |longer| ensures EntryAt(longer, Index(s), j) {
      if j > 0 {
        EntryShift(chain, longer[0], Index(s), j - 1);
      }
    }
  }

  /** In every run, also one that adds strings twice, the k-th entry of a chain has its arithmetic key. */
  lemma {:induction false} RunKeys(run: seq<System>, es: seq<Event>, n: nat)
    requires IsRun(run, es) && KeysOk(run[0].pool) && n < |run|
    ensures KeysOk(run[n].pool)
  {
    if n > 0 {
      RunKeys(run, es, n - 1);
      assert NextAt(run, es, n - 1);
      KeysStep(run[n - 1], es[n - 1]);
    }
  }

  // ---------- a run that adds a string twice ----------

  function RunFrom(y: System, es: seq<Event>): (run: seq<System>)
    ensures |run| == |es| + 1 && run[0] == y
    ensures forall i :: 0 <= i < |es| ==> run[i + 1] == Next(run[i], es[i])
    decreases |es|
  {
    if es == [] then [y]
    else
      var n := |es| - 1;
      var before := RunFrom(y, es[..n]);
      before + [Next(before[n], es[n])]
  }

  function EmptyPool(): System {
    System(seq(TABLE_SIZE, _ => []), map[])
  }

  /** Both threads read the chain before either inserts. */
  function TwoThreads(s: Chars): seq<Event> {
    [Calls(1, s), Calls(2, s), Steps(1), Steps(2), Steps(1), Steps(2)]
  }

  lemma BothInsert(y: System, s: Chars)
    requires |y.pool| == TABLE_SIZE && ChainFor(y, s) == []
    requires LocalOf(y, 1) == Inserts(s, 0) && LocalOf(y, 2) == Inserts(s, 0)
    ensures var y' := Next(Next(y, Steps(1)), Steps(2));
            && ChainFor(y', s) == [Entry(s, KeyAt(Index(s), 2)), Entry(s, KeyAt(Index(s), 1))]
            && LocalOf(y', 1) == Finds(s, KeyAt(Index(s), 1)) && LocalOf(y', 2) == Finds(s, KeyAt(Index(s), 2))
  {
    var index := Index(s);
    NextKey(index, 0);
    NextKey(index, 1);
    var y1 := Next(y, Steps(1));
    assert ChainFor(y1, s) == [Entry(s, KeyAt(index, 1))];
    assert ChainFor(Next(y1, Steps(2)), s) == [Entry(s, KeyAt(index, 2))] + [Entry(s, KeyAt(index, 1))];
  }

  /** Two threads ask for the same new string, and each gets a key of its own. */
  lemma SameStringTwoKeys(s: Chars)
    ensures var run := RunFrom(EmptyPool(), TwoThreads(s));
            && IsRun(run, TwoThreads(s)) && AtRest(run[0]) && Unique(run[0].pool)
            && LocalOf(run[6], 1) == Finds(s, KeyAt(Index(s), 1)) && LocalOf(run[6], 2) == Finds(s, KeyAt(Index(s), 2))
            && KeyAt(Index(s), 1) != KeyAt(Index(s), 2) && !UniqueIn(ChainFor(run[6], s))
  {
    var es, run := TwoThreads(s), RunFrom(EmptyPool(), TwoThreads(s));
    assert forall i :: 0 <= i < |es| ==> NextAt(run, es, i);
    assert run[1] == Next(run[0], es[0]) && run[2] == Next(run[1], es[1]);
    assert run[3] == Next(run[2], es[2]) && run[4] == Next(run[3], es[3]);
    assert LocalOf(run[2], 1) == Searches(s, 0, 0) && LocalOf(run[2], 2) == Searches(s, 0, 0);
    BothInsert(run[4], s);
    assert run[6] == Next(Next(run[4], es[4]), es[5]);
    assert ChainFor(run[6], s)[0].chars == ChainFor(run[6], s)[1].chars;
  }
}
