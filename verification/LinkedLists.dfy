/** Circular doubly linked lists (lib/src/types/linkedList.c): a list is a pointer to its first entry,
    whose backward link leads to the last entry. Entries are known by their addresses. */
module LinkedLists {
  import opened Basics

  datatype Link = Link(next: int, previous: int)
  type Links = map<int, Link>

  function After(n: nat, i: nat): nat
    requires i < n
  {
    if i + 1 == n then 0 else i + 1
  }

  function Before(n: nat, i: nat): nat
    requires i < n
  {
    if i == 0 then n - 1 else i - 1
  }

  /** Entry i points to the entries around it in the ring. */
  ghost predicate LinkedAt(m: Links, s: seq<int>, i: nat)
    requires i < |s|
  {
    s[i] != NULL && s[i] in m && m[s[i]] == Link(s[After(|s|, i)], s[Before(|s|, i)])
  }

  /** first points to a ring through the entries s in this order. */
  ghost predicate IsRing(m: Links, first: int, s: seq<int>) {
    && first == (if s == [] then NULL else s[0])
    && Distinct(s)
    && forall i :: 0 <= i < |s| ==> LinkedAt(m, s, i)
  }

  /** Only links of the entries in s may differ. */
  ghost predicate OnlyDiffer(m: Links, m': Links, s: seq<int>) {
    m'.Keys == m.Keys && forall p :: p in m && p !in s ==> m'[p] == m[p]
  }

  /** A ring elsewhere is not affected. */
  lemma OtherRing(m: Links, m': Links, s: seq<int>, first: int, t: seq<int>)
    requires OnlyDiffer(m, m', s) && IsRing(m, first, t) && forall x :: x in t ==> x !in s
    ensures IsRing(m', first, t)
  {
    forall i | 0 <= i < |t| ensures LinkedAt(m', t, i) {
      assert LinkedAt(m, t, i) && t[i] in t;
    }
  }

  function SetNext(m: Links, p: int, next: int): Links
    requires p in m
  {
    m[p := m[p].(next := next)]
  }

  function SetPrevious(m: Links, p: int, previous: int): Links
    requires p in m
  {
    m[p := m[p].(previous := previous)]
  }

  // ---------- inserting and removing one entry ----------

  function Inserted<T>(s: seq<T>, p: nat, x: T): seq<T>
    requires p <= |s|
  {
    s[..p] + [x] + s[p..]
  }

  function Removed<T>(s: seq<T>, k: nat): seq<T>
    requires k < |s|
  {
    s[..k] + s[k + 1..]
  }

  /** The links after x has been put between neighbouring entries a and b. */
  function InsertLinks(m: Links, x: int, a: int, b: int): Links
    requires x in m && a in m && b in m
  {
    SetNext(SetPrevious(m[x := Link(b, a)], b, x), a, x)
  }

  lemma InsertedAt(m: Links, first: int, s: seq<int>, p: nat, x: int, i: nat)
    requires IsRing(m, first, s) && p <= |s| && s != [] && x in m && x !in s && x != NULL && i <= |s|
    requires forall j :: 0 <= j < |s| ==> s[j] in m
    ensures LinkedAt(InsertLinks(m, x, s[if p == 0 then |s| - 1 else p - 1], s[if p == |s| then 0 else p]), Inserted(s, p, x), i)
  {
    var a, b := if p == 0 then |s| - 1 else p - 1, if p == |s| then 0 else p;
    if i != p {
      var was := if i < p then i else i - 1;
      assert LinkedAt(m, s, was) && s[was] != x;
      assert was != a ==> s[was] != s[a];
      assert was != b ==> s[was] != s[b];
    }
  }

  lemma InsertedRing(m: Links, first: int, s: seq<int>, p: nat, x: int)
    requires IsRing(m, first, s) && p <= |s| && s != [] && x in m && x !in s && x != NULL
    ensures var a, b := s[if p == 0 then |s| - 1 else p - 1], s[if p == |s| then 0 else p];
            && a in m && b in m && m[a].next == b && m[b].previous == a
            && IsRing(InsertLinks(m, x, a, b), if p == 0 then x else first, Inserted(s, p, x))
            && OnlyDiffer(m, InsertLinks(m, x, a, b), s + [x])
  {
    var a, b := if p == 0 then |s| - 1 else p - 1, if p == |s| then 0 else p;
    assert LinkedAt(m, s, a) && LinkedAt(m, s, b);
    forall j | 0 <= j < |s| ensures s[j] in m {
      assert LinkedAt(m, s, j);
    }
    var m', t := InsertLinks(m, x, s[a], s[b]), Inserted(s, p, x);
    forall i | 0 <= i < |t| ensures LinkedAt(m', t, i) {
      InsertedAt(m, first, s, p, x, i);
    }
    InsertedDistinct(s, p, x);
    forall q | q in m && q !in s + [x] ensures m'[q] == m[q] {
      assert s[a] in s + [x] && s[b] in s + [x] && (s + [x])[|s|] == x;
    }
  }

  /** A ring of one entry, which is what inserting into an empty list gives. */
  lemma SingleRing(m: Links, x: int)
    requires x in m && x != NULL
    ensures IsRing(m[x := Link(x, x)], x, [x]) && OnlyDiffer(m, m[x := Link(x, x)], [x])
    ensures Inserted([], 0, x) == [x] && [] + [x] == [x]
  {
    assert LinkedAt(m[x := Link(x, x)], [x], 0);
  }

  lemma InsertedDistinct(s: seq<int>, p: nat, x: int)
    requires Distinct(s) && p <= |s| && x !in s
    ensures Distinct(Inserted(s, p, x))
  {
    var t := Inserted(s, p, x);
    forall i, j | 0 <= i < j < |t| ensures t[i] != t[j] {
      assert t[i] == if i == p then x else s[if i < p then i else i - 1];
      assert t[j] == if j == p then x else s[if j < p then j else j - 1];
    }
  }

  /** The links after the neighbours a and b of a removed entry have been joined. */
  function RemoveLinks(m: Links, a: int, b: int): Links
    requires a in m && b in m
  {
    SetPrevious(SetNext(m, a, b), b, a)
  }

  lemma RemovedAt(m: Links, first: int, s: seq<int>, k: nat, i: nat)
    requires IsRing(m, first, s) && k < |s| && |s| > 1 && i < |s| && i != k
    requires s[Before(|s|, k)] in m && s[After(|s|, k)] in m
    ensures LinkedAt(RemoveLinks(m, s[Before(|s|, k)], s[After(|s|, k)]), Removed(s, k), if i < k then i else i - 1)
  {
    assert LinkedAt(m, s, i);
    assert i != Before(|s|, k) ==> s[i] != s[Before(|s|, k)];
    assert i != After(|s|, k) ==> s[i] != s[After(|s|, k)];
  }

  lemma RemovedRing(m: Links, first: int, s: seq<int>, k: nat)
    requires IsRing(m, first, s) && k < |s|
    ensures var a, b := s[Before(|s|, k)], s[After(|s|, k)];
            && s[k] in m && a in m && b in m && m[s[k]] == Link(b, a)
            && (|s| > 1 ==> IsRing(RemoveLinks(m, a, b), if k == 0 then b else first, Removed(s, k)))
            && OnlyDiffer(m, RemoveLinks(m, a, b), s)
  {
    assert LinkedAt(m, s, k) && LinkedAt(m, s, Before(|s|, k)) && LinkedAt(m, s, After(|s|, k));
    if |s| > 1 {
      var a, b, t := s[Before(|s|, k)], s[After(|s|, k)], Removed(s, k);
      forall i | 0 <= i < |t| ensures LinkedAt(RemoveLinks(m, a, b), t, i) {
        RemovedAt(m, first, s, k, if i < k then i else i + 1);
      }
    }
  }

  // ---------- the sorted position ----------

  /** The two comparators that the sorted insertion is called with: the timer queue is ordered by
      ascending time, the blocked list of a semaphore by descending priority. */
  datatype Comparator = ByTime | ByPriority
  {
    predicate Precedes(a: int, b: int) {
      match this
      case ByTime => a < b
      case ByPriority => a > b
    }
  }

  /** Where an entry with key k goes among entries with keys ks: before the first entry it precedes. */
  function SortedPosition(ks: seq<int>, k: int, order: Comparator): (p: nat)
    ensures p <= |ks|
    ensures forall i :: 0 <= i < p ==> !order.Precedes(k, ks[i])
    ensures p < |ks| ==> order.Precedes(k, ks[p])
  {
    if ks == [] || order.Precedes(k, ks[0]) then 0 else 1 + SortedPosition(ks[1..], k, order)
  }

  ghost predicate Sorted(ks: seq<int>, order: Comparator) {
    forall i, j :: 0 <= i < j < |ks| ==> !order.Precedes(ks[j], ks[i])
  }

  /** Inserting at the sorted position keeps the order, and puts the new entry behind every entry that
      it does not precede: first in, first out among equals. */
  lemma SortedInsertion(ks: seq<int>, k: int, order: Comparator)
    requires Sorted(ks, order)
    ensures var p := SortedPosition(ks, k, order);
            && Sorted(Inserted(ks, p, k), order)
            && forall i :: 0 <= i < |ks| ==> (i < p <==> !order.Precedes(k, ks[i]))
  {
    var p := SortedPosition(ks, k, order);
    forall i | p <= i < |ks| ensures order.Precedes(k, ks[i]) {
      assert i > p ==> !order.Precedes(ks[i], ks[p]);
    }
    var t := Inserted(ks, p, k);
    forall i, j | 0 <= i < j < |t| ensures !order.Precedes(t[j], t[i]) {
      assert t[i] == if i == p then k else ks[if i < p then i else i - 1];
      assert t[j] == if j == p then k else ks[if j < p then j else j - 1];
    }
  }

  // ---------- the list operations ----------

  /** The links of all entries. */
  class Memory {
    var links: Links

    constructor (entries: set<int>)
      ensures links.Keys == entries
    {
      links := map e | e in entries :: Link(NULL, NULL);
    }

    /** The writes that put x in front of temp. */
    method LinkBefore(x: int, temp: int)
      requires x in links && temp in links && x != temp && links[temp].previous in links && links[temp].previous != x
      modifies this
      ensures links == InsertLinks(old(links), x, old(links)[temp].previous, temp)
    {
      links := SetNext(links, x, temp);
      links := SetPrevious(links, x, links[temp].previous);
      links := SetPrevious(links, temp, x);
      links := SetNext(links, links[x].previous, x);
    }

    /** The writes that put x behind temp. */
    method LinkBehind(x: int, temp: int)
      requires x in links && temp in links && x != temp && links[temp].next in links && links[temp].next != x
      modifies this
      ensures links == InsertLinks(old(links), x, temp, old(links)[temp].next)
    {
      links := SetNext(links, x, links[temp].next);
      links := SetPrevious(links, x, temp);
      links := SetPrevious(links, links[x].next, x);
      links := SetNext(links, temp, x);
    }

    /** The writes that join the neighbours of x. */
    method Unlink(x: int)
      requires x in links && links[x].next in links && links[x].previous in links && links[x].next != x && links[x].previous != x
      modifies this
      ensures links == RemoveLinks(old(links), old(links)[x].previous, old(links)[x].next)
    {
      links := SetNext(links, links[x].previous, links[x].next);
      links := SetPrevious(links, links[x].next, links[x].previous);
    }

    /** Slots x into the list at its sorted position. */
    method AddOneSorted(first: int, x: int, keys: map<int, int>, order: Comparator, ghost s: seq<int>) returns (first': int)
      requires IsRing(links, first, s) && x in links && x != NULL && x !in s
      requires x in keys && HasKeys(s, keys)
      modifies this
      ensures IsRing(links, first', Inserted(s, SortedPosition(KeysOf(s, keys), keys[x], order), x))
      ensures OnlyDiffer(old(links), links, s + [x])
    {
      ghost var m, ks := links, KeysOf(s, keys);
      FirstEntry(m, first, s);
      if first == NULL {
        SingleRing(m, x);
        assert s == [] && KeysOf(s, keys) == [];
        links := links[x := Link(x, x)];
        return x;
      }
      var temp := first;
      if order.Precedes(keys[x], keys[temp]) {
        PositionIs(ks, keys[x], order, 0);
        InsertedRing(m, first, s, 0, x);
        LinkBefore(x, temp);
        return x;
      }
      ghost var k;
      temp, k := FindSlot(first, keys[x], keys, order, s);
      PositionIs(ks, keys[x], order, k + 1);
      InsertedRing(m, first, s, k + 1, x);
      LinkBehind(x, temp);
      return first;
    }

    /** The entry behind which a key that does not precede the first entry is to be inserted. */
    method FindSlot(first: int, key: int, keys: map<int, int>, order: Comparator, ghost s: seq<int>) returns (temp: int, ghost k: nat)
      requires IsRing(links, first, s) && s != [] && HasKeys(s, keys) && !order.Precedes(key, keys[first])
      ensures k < |s| && temp == s[k] && LinkedAt(links, s, k)
      ensures forall i :: 0 <= i <= k ==> !order.Precedes(key, KeysOf(s, keys)[i])
      ensures k + 1 < |s| ==> order.Precedes(key, KeysOf(s, keys)[k + 1])
    {
      temp, k := first, 0;
      assert LinkedAt(links, s, 0);
      while true
        invariant k < |s| && temp == s[k] && LinkedAt(links, s, k)
        invariant forall i :: 0 <= i <= k ==> !order.Precedes(key, KeysOf(s, keys)[i])
        decreases |s| - k
      {
        assert k + 1 < |s| ==> s[k + 1] != s[0] && LinkedAt(links, s, k + 1);
        if links[temp].next == first || order.Precedes(key, keys[links[temp].next]) {
          break;
        }
        temp := links[temp].next;
        k := k + 1;
      }
    }

    /** Makes x the entry in front of the first one, which is the last entry of the ring. */
    method AddOneToEnd(first: int, x: int, ghost s: seq<int>) returns (first': int)
      requires IsRing(links, first, s) && x in links && x != NULL && x !in s
      modifies this
      ensures IsRing(links, first', s + [x]) && OnlyDiffer(old(links), links, s + [x])
    {
      FirstEntry(links, first, s);
      if first == NULL {
        links := links[x := Link(x, x)];
        return x;
      }
      InsertedRing(links, first, s, |s|, x);
      LinkBefore(x, first);
      assert Inserted(s, |s|, x) == s + [x];
      return first;
    }

    /** Takes x, which is on the list, off the list. */
    method RemoveOne(first: int, x: int, ghost s: seq<int>, ghost k: nat) returns (first': int)
      requires IsRing(links, first, s) && k < |s| && s[k] == x
      modifies this
      ensures IsRing(links, first', Removed(s, k)) && OnlyDiffer(old(links), links, s)
      ensures x in links && links[x] == old(links)[x]
    {
      RemovedRing(links, first, s, k);
      var temp := links[x].next;
      assert |s| > 1 ==> s[After(|s|, k)] != s[k] && s[Before(|s|, k)] != s[k];
      assert k > 0 ==> s[0] != s[k];
      first' := first;
      if first == x {
        if x == temp {
          return NULL;
        }
        Unlink(x);
        first' := temp;
      } else {
        Unlink(x);
      }
    }

    /** Takes the first entry off the list. */
    method RemoveOneFromFront(first: int, ghost s: seq<int>) returns (removed: int, first': int)
      requires IsRing(links, first, s)
      modifies this
      ensures removed == first && OnlyDiffer(old(links), links, s)
      ensures IsRing(links, first', if s == [] then [] else s[1..])
    {
      FirstEntry(links, first, s);
      removed, first' := first, first;
      if removed != NULL {
        RemovedRing(links, first, s, 0);
        assert Removed(s, 0) == s[1..];
        var temp := links[removed].next;
        assert |s| > 1 ==> s[1] != s[0] && s[|s| - 1] != s[0];
        if temp == removed {
          first' := NULL;
        } else {
          Unlink(removed);
          first' := temp;
        }
      }
    }

    /** Moves the first entry to the end, by turning the ring. */
    method RotateOneFrontToEnd(first: int, ghost s: seq<int>) returns (first': int)
      requires IsRing(links, first, s)
      ensures IsRing(links, first', if s == [] then [] else s[1..] + [s[0]])
    {
      FirstEntry(links, first, s);
      first' := NULL;
      if first != NULL {
        RotatedRing(links, first, s);
        first' := links[first].next;
      }
    }

    /** Opens both rings and joins them, so that the destination entries come first. */
    method MoveAllToEnd(dest: int, source: int, ghost d: seq<int>, ghost s: seq<int>) returns (dest': int, source': int)
      requires IsRing(links, dest, d) && IsRing(links, source, s) && forall x :: x in d ==> x !in s
      modifies this
      ensures IsRing(links, dest', d + s) && IsRing(links, source', []) && OnlyDiffer(old(links), links, d + s)
    {
      FirstEntry(links, source, s);
      FirstEntry(links, dest, d);
      dest', source' := dest, source;
      if source == NULL {
        assert d + s == d;
        return;
      }
      if dest == NULL {
        assert d + s == s;
        dest' := source;
      } else {
        ghost var m := links;
        JoinedRing(m, dest, source, d, s);
        var endOfSource := links[source].previous;
        var endOfDest := links[dest].previous;
        links := SetNext(links, endOfSource, dest);
        links := SetPrevious(links, source, endOfDest);
        links := SetPrevious(links, dest, endOfSource);
        links := SetNext(links, endOfDest, source);
      }
      source' := NULL;
    }
  }

  lemma FirstEntry(m: Links, first: int, s: seq<int>)
    requires IsRing(m, first, s)
    ensures first == NULL <==> s == []
    ensures s != [] ==> LinkedAt(m, s, 0) && LinkedAt(m, s, |s| - 1)
  {
    if s != [] {
      assert LinkedAt(m, s, 0) && LinkedAt(m, s, |s| - 1);
    }
  }

  lemma RotatedRing(m: Links, first: int, s: seq<int>)
    requires IsRing(m, first, s) && s != []
    ensures s[0] in m && IsRing(m, m[s[0]].next, s[1..] + [s[0]])
  {
    var t, n := s[1..] + [s[0]], |s|;
    assert LinkedAt(m, s, 0);
    forall i | 0 <= i < n ensures LinkedAt(m, t, i) {
      assert LinkedAt(m, s, After(n, i));
    }
  }

  /** The links after the rings d and s have been joined into one ring. */
  function JoinLinks(m: Links, d: seq<int>, s: seq<int>): Links
    requires d != [] && s != [] && d[0] in m && d[|d| - 1] in m && s[0] in m && s[|s| - 1] in m
  {
    SetNext(SetPrevious(SetPrevious(SetNext(m, s[|s| - 1], d[0]), s[0], d[|d| - 1]), d[0], s[|s| - 1]), d[|d| - 1], s[0])
  }

  lemma JoinedRing(m: Links, dest: int, source: int, d: seq<int>, s: seq<int>)
    requires IsRing(m, dest, d) && IsRing(m, source, s) && d != [] && s != [] && forall x :: x in d ==> x !in s
    ensures d[0] in m && d[|d| - 1] in m && s[0] in m && s[|s| - 1] in m
    ensures m[d[0]].previous == d[|d| - 1] && m[s[0]].previous == s[|s| - 1]
    ensures IsRing(JoinLinks(m, d, s), dest, d + s) && OnlyDiffer(m, JoinLinks(m, d, s), d + s)
  {
    FirstEntry(m, dest, d);
    FirstEntry(m, source, s);
    var t := d + s;
    forall i, j | 0 <= i < |d| && 0 <= j < |s| ensures d[i] != s[j] {
      assert d[i] in d && s[j] in s;
    }
    JoinedDistinct(d, s);
    forall i | 0 <= i < |t| ensures LinkedAt(JoinLinks(m, d, s), t, i) {
      JoinedAt(m, dest, source, d, s, i);
    }
  }

  lemma JoinedDistinct(d: seq<int>, s: seq<int>)
    requires Distinct(d) && Distinct(s) && forall i, j :: 0 <= i < |d| && 0 <= j < |s| ==> d[i] != s[j]
    ensures Distinct(d + s)
  {
  }

  lemma JoinedAt(m: Links, dest: int, source: int, d: seq<int>, s: seq<int>, i: nat)
    requires IsRing(m, dest, d) && IsRing(m, source, s) && d != [] && s != [] && i < |d| + |s|
    requires d[0] in m && d[|d| - 1] in m && s[0] in m && s[|s| - 1] in m
    requires forall i, j :: 0 <= i < |d| && 0 <= j < |s| ==> d[i] != s[j]
    ensures LinkedAt(JoinLinks(m, d, s), d + s, i)
  {
    if i < |d| {
      assert LinkedAt(m, d, i);
      assert (i > 0 ==> d[i] != d[0]) && (i < |d| - 1 ==> d[i] != d[|d| - 1]);
    } else {
      var k := i - |d|;
      assert LinkedAt(m, s, k);
      assert (k > 0 ==> s[k] != s[0]) && (k < |s| - 1 ==> s[k] != s[|s| - 1]);
    }
  }

  ghost predicate HasKeys(s: seq<int>, keys: map<int, int>) {
    forall i :: 0 <= i < |s| ==> s[i] in keys
  }

  ghost function KeysOf(s: seq<int>, keys: map<int, int>): (ks: seq<int>)
    requires HasKeys(s, keys)
    ensures |ks| == |s| && forall i :: 0 <= i < |s| ==> ks[i] == keys[s[i]]
  {
    seq(|s|, i requires 0 <= i < |s| => keys[s[i]])
  }

  lemma {:induction false} PositionIs(ks: seq<int>, k: int, order: Comparator, p: nat)
    requires p <= |ks| && (forall i :: 0 <= i < p ==> !order.Precedes(k, ks[i])) && (p < |ks| ==> order.Precedes(k, ks[p]))
    ensures SortedPosition(ks, k, order) == p
  {
    if p > 0 {
      PositionIs(ks[1..], k, order, p - 1);
    }
  }
}
