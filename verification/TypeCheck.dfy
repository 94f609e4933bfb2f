/** The run-time type test (jvm/src/class/typeCheck.c) and the subtype relation it decides. */
module TypeCheck {

  /** Loaded classes and interfaces in the order in which they were loaded: the parent and the
      superinterfaces of a class are loaded before it. direct holds the superinterfaces that the class file
      lists, all the superinterface list of the loaded class. */
  datatype Definition =
    | Root
    | Class(parent: nat, direct: seq<nat>, all: seq<nat>)
    | Interface(direct: seq<nat>, all: seq<nat>)

  type Hierarchy = seq<Definition>

  const OBJECT: nat := 0

  /** There is one class structure for a type, so that comparing pointers is comparing types. */
  datatype Type = Loaded(index: nat) | ObjectArray(element: Type) | PrimitiveArray(kind: nat)

  function Direct(d: Definition): seq<nat> {
    if d.Root? then [] else d.direct
  }

  function All(d: Definition): seq<nat> {
    if d.Root? then [] else d.all
  }

  ghost predicate Inherits(h: Hierarchy, i: nat, from: seq<nat>) {
    exists k :: 0 <= k < |from| && (from[k] == i || (from[k] < |h| && i in All(h[from[k]])))
  }

  /** What a class file may refer to, and that the superinterface list is closed. */
  ghost predicate DefinitionOk(h: Hierarchy, c: nat)
    requires c < |h|
  {
    && (h[c].Root? <==> c == OBJECT)
    && (h[c].Class? ==> h[c].parent < c && !h[h[c].parent].Interface?)
    && (forall k :: 0 <= k < |Direct(h[c])| ==> Direct(h[c])[k] < c && h[Direct(h[c])[k]].Interface?)
    && (forall i :: i in All(h[c]) <==> Inherits(h, i, Direct(h[c])) || (h[c].Class? && i in All(h[h[c].parent])))
  }

  ghost predicate HierarchyOk(h: Hierarchy) {
    |h| > 0 && forall c :: 0 <= c < |h| ==> DefinitionOk(h, c)
  }

  ghost predicate TypeOk(h: Hierarchy, t: Type) {
    match t
    case Loaded(c) => c < |h|
    case ObjectArray(e) => TypeOk(h, e)
    case PrimitiveArray(_) => true
  }

  predicate IsInterface(h: Hierarchy, t: Type) {
    t.Loaded? && t.index < |h| && h[t.index].Interface?
  }

  function Size(t: Type): nat {
    match t
    case Loaded(c) => c
    case ObjectArray(e) => 1 + Size(e)
    case PrimitiveArray(_) => 0
  }

  // ---------- the subtype relation ----------

  /** The reflexive closure of the direct supertypes: of a class its parent and its interfaces, of an
      interface its superinterfaces and Object, of an array Object and, element by element, the arrays of
      the supertypes of its element type. */
  ghost predicate Subtype(h: Hierarchy, t: Type, s: Type)
    requires HierarchyOk(h) && TypeOk(h, s)
    decreases Size(s)
  {
    s == t ||
    match s
    case Loaded(c) => ThroughDirect(h, t, c) || (h[c].Interface? && t == Loaded(OBJECT)) || ThroughParent(h, t, c)
    case ObjectArray(e) => t == Loaded(OBJECT) || (t.ObjectArray? && Subtype(h, t.element, e))
    case PrimitiveArray(_) => t == Loaded(OBJECT)
  }

  ghost predicate ThroughDirect(h: Hierarchy, t: Type, c: nat)
    requires HierarchyOk(h) && c < |h|
    decreases c, 0
  {
    exists k :: 0 <= k < |Direct(h[c])| && Direct(h[c])[k] < c && Subtype(h, t, Loaded(Direct(h[c])[k]))
  }

  ghost predicate ThroughParent(h: Hierarchy, t: Type, c: nat)
    requires HierarchyOk(h) && c < |h|
    decreases c, 0
  {
    h[c].Class? && h[c].parent < c && Subtype(h, t, Loaded(h[c].parent))
  }

  lemma {:induction false} NothingAboveObject(h: Hierarchy, t: Type)
    requires HierarchyOk(h)
    ensures Subtype(h, t, Loaded(OBJECT)) <==> t == Loaded(OBJECT)
  {
    assert DefinitionOk(h, OBJECT);
  }

  lemma {:induction false} Transitive(h: Hierarchy, a: Type, b: Type, c: Type)
    requires HierarchyOk(h) && TypeOk(h, b) && TypeOk(h, c) && Subtype(h, a, b) && Subtype(h, b, c)
    ensures Subtype(h, a, c)
    decreases Size(c)
  {
    if b == Loaded(OBJECT) {
      NothingAboveObject(h, a);
    } else if b != c {
      match c
      case Loaded(x) =>
        assert DefinitionOk(h, x);
        if ThroughParent(h, b, x) {
          Transitive(h, a, b, Loaded(h[x].parent));
        } else {
          var k :| 0 <= k < |Direct(h[x])| && Direct(h[x])[k] < x && Subtype(h, b, Loaded(Direct(h[x])[k]));
          Transitive(h, a, b, Loaded(Direct(h[x])[k]));
        }
      case ObjectArray(e) =>
        if a.ObjectArray? {
          Transitive(h, a.element, b.element, e);
        }
      case PrimitiveArray(_) =>
    }
  }

  /** Arrays of references are covariant, and arrays of a primitive type are no arrays of references. */
  lemma Covariant(h: Hierarchy, t: Type, s: Type, kind: nat)
    requires HierarchyOk(h) && TypeOk(h, s) && TypeOk(h, t)
    ensures Subtype(h, ObjectArray(t), ObjectArray(s)) <==> Subtype(h, t, s)
    ensures !Subtype(h, ObjectArray(t), PrimitiveArray(kind)) && !Subtype(h, PrimitiveArray(kind), ObjectArray(s))
  {
  }

  /** What is above a class: itself, what is above its parent and what is above the interfaces that it lists;
      and for an interface Object in place of the parent. */
  lemma AboveClass(h: Hierarchy, t: Type, c: nat)
    requires HierarchyOk(h) && 0 < c < |h|
    ensures !h[c].Root?
    ensures var listed := h[c].direct;
            && (forall k :: 0 <= k < |listed| ==> listed[k] < c)
            && (h[c].Class? ==> h[c].parent < c)
            && (Subtype(h, t, Loaded(c)) <==>
                  || t == Loaded(c)
                  || (if h[c].Class? then Subtype(h, t, Loaded(h[c].parent)) else t == Loaded(OBJECT))
                  || exists k :: 0 <= k < |listed| && Subtype(h, t, Loaded(listed[k])))
  {
    assert DefinitionOk(h, c);
    assert Direct(h[c]) == h[c].direct;
  }

  // ---------- the shortcuts of the test ----------

  /** The superinterface list decides whether a class or interface has an interface above it. */
  lemma {:induction false} ListDecides(h: Hierarchy, i: nat, c: nat)
    requires HierarchyOk(h) && i < |h| && h[i].Interface? && c < |h| && i != c
    ensures Subtype(h, Loaded(i), Loaded(c)) <==> i in All(h[c])
    decreases c
  {
    var ds := Direct(h[c]);
    assert DefinitionOk(h, c) && DefinitionOk(h, OBJECT);
    forall k | 0 <= k < |ds| ensures Subtype(h, Loaded(i), Loaded(ds[k])) <==> ds[k] == i || i in All(h[ds[k]]) {
      if ds[k] != i {
        ListDecides(h, i, ds[k]);
      }
    }
    if h[c].Class? {
      ListDecides(h, i, h[c].parent);
    }
    assert ThroughDirect(h, Loaded(i), c) <==> Inherits(h, i, ds);
  }

  /** The ancestors of a class, as the parent links give them. */
  ghost predicate Ancestor(h: Hierarchy, d: nat, c: nat)
    requires HierarchyOk(h) && c < |h|
    decreases c
  {
    c == d || (h[c].Class? && h[c].parent < c && Ancestor(h, d, h[c].parent))
  }

  lemma {:induction false} ObjectIsAncestor(h: Hierarchy, c: nat)
    requires HierarchyOk(h) && c < |h| && !h[c].Interface?
    ensures Ancestor(h, OBJECT, c)
    decreases c
  {
    assert DefinitionOk(h, c);
    if c != OBJECT {
      ObjectIsAncestor(h, h[c].parent);
    }
  }

  /** Above an interface there are only interfaces and Object. */
  lemma {:induction false} AboveInterface(h: Hierarchy, t: Type, c: nat)
    requires HierarchyOk(h) && c < |h| && h[c].Interface? && Subtype(h, t, Loaded(c))
    ensures t == Loaded(OBJECT) || IsInterface(h, t)
    decreases c
  {
    assert DefinitionOk(h, c);
    if t != Loaded(c) && t != Loaded(OBJECT) {
      assert ThroughDirect(h, t, c);
      var k :| 0 <= k < |Direct(h[c])| && Direct(h[c])[k] < c && Subtype(h, t, Loaded(Direct(h[c])[k]));
      AboveInterface(h, t, Direct(h[c])[k]);
    }
  }

  lemma {:induction false} ParentsDecide(h: Hierarchy, t: Type, c: nat)
    requires HierarchyOk(h) && c < |h| && !h[c].Interface? && !IsInterface(h, t)
    ensures Subtype(h, t, Loaded(c)) <==> t.Loaded? && Ancestor(h, t.index, c)
    decreases c
  {
    assert DefinitionOk(h, c);
    if h[c].Class? {
      ParentsDecide(h, t, h[c].parent);
      ObjectIsAncestor(h, h[c].parent);
      forall k | 0 <= k < |Direct(h[c])| && Subtype(h, t, Loaded(Direct(h[c])[k])) ensures t == Loaded(OBJECT) {
        AboveInterface(h, t, Direct(h[c])[k]);
      }
    }
  }

  // ---------- the test ----------

  method IsSuperInterface(h: Hierarchy, target: Type, source: Type) returns (r: bool)
    requires HierarchyOk(h) && TypeOk(h, source)
    ensures r <==> source.Loaded? && IsInterface(h, target) && target.index in All(h[source.index])
  {
    if !source.Loaded? || !IsInterface(h, target) {
      return false;
    }
    var list := All(h[source.index]);
    for i := 0 to |list|
      invariant forall k :: 0 <= k < i ==> list[k] != target.index
    {
      if list[i] == target.index {
        return true;
      }
    }
    r := false;
  }

  predicate IsRoot(h: Hierarchy, t: Type) {
    t.Loaded? && t.index < |h| && h[t.index].Root?
  }

  /** The parent link of a class; that of an interface or of an array leads to Object. */
  function ParentOf(h: Hierarchy, t: Type): Type {
    if t.Loaded? && t.index < |h| && h[t.index].Class? then Loaded(h[t.index].parent) else Loaded(OBJECT)
  }

  /** Parent links lead from the child to the parent, which is another type. */
  ghost predicate ProperAncestor(h: Hierarchy, parent: Type, child: Type)
    requires HierarchyOk(h) && TypeOk(h, child)
  {
    if child.Loaded? && !h[child.index].Interface? then
      parent.Loaded? && parent.index != child.index && Ancestor(h, parent.index, child.index)
    else parent == Loaded(OBJECT)
  }

  /** Follows the parent links. That of Object is null. */
  method IsParentClass(h: Hierarchy, parent: Type, child: Type) returns (r: bool)
    requires HierarchyOk(h) && TypeOk(h, child)
    ensures r <==> ProperAncestor(h, parent, child)
  {
    var t := child;
    while !IsRoot(h, t)
      invariant TypeOk(h, t)
      invariant ProperAncestor(h, parent, t) <==> ProperAncestor(h, parent, child)
      decreases if t.Loaded? && !h[t.index].Interface? then t.index else |h|
    {
      ParentStep(h, parent, t);
      t := ParentOf(h, t);
      if t == parent {
        return true;
      }
    }
    assert DefinitionOk(h, OBJECT) && DefinitionOk(h, t.index);
    r := false;
  }

  lemma ParentStep(h: Hierarchy, parent: Type, t: Type)
    requires HierarchyOk(h) && TypeOk(h, t) && !IsRoot(h, t)
    ensures var next := ParentOf(h, t);
            && next.Loaded? && next.index < |h| && !h[next.index].Interface? && (t.Loaded? && !h[t.index].Interface? ==> next.index < t.index)
            && (ProperAncestor(h, parent, t) <==> parent == next || ProperAncestor(h, parent, next))
  {
    assert DefinitionOk(h, OBJECT);
    if t.Loaded? {
      assert DefinitionOk(h, t.index);
      if h[t.index].Class? && parent.Loaded? {
        var c, d := t.index, parent.index;
        AncestorBelow(h, d, h[c].parent);
        assert Ancestor(h, d, c) <==> c == d || Ancestor(h, d, h[c].parent);
        assert parent == Loaded(h[c].parent) <==> d == h[c].parent;
      }
    }
  }

  lemma {:induction false} AncestorBelow(h: Hierarchy, d: nat, c: nat)
    requires HierarchyOk(h) && c < |h|
    ensures Ancestor(h, d, c) ==> d <= c
    decreases c
  {
    if h[c].Class? && h[c].parent < c {
      AncestorBelow(h, d, h[c].parent);
    }
  }

  method IsInstanceOf(h: Hierarchy, target: Type, source: Type) returns (r: bool)
    requires HierarchyOk(h) && TypeOk(h, source) && TypeOk(h, target)
    ensures r <==> Subtype(h, target, source)
  {
    var t, s := target, source;
    while true
      invariant TypeOk(h, s) && TypeOk(h, t)
      invariant Subtype(h, t, s) <==> Subtype(h, target, source)
      decreases Size(s)
    {
      if t == s {
        return true;
      }
      if s.Loaded? {
        assert DefinitionOk(h, s.index);
        if h[s.index].Interface? {
          r := IsSuperInterface(h, t, s);
          InterfaceSource(h, t, s.index);
          return r || t == Loaded(OBJECT);
        }
        if IsInterface(h, t) {
          ListDecides(h, t.index, s.index);
          r := IsSuperInterface(h, t, s);
          return;
        }
        ParentsDecide(h, t, s.index);
        r := IsParentClass(h, t, s);
        return;
      }
      if t.Loaded? {
        return t == Loaded(OBJECT);
      }
      if s.PrimitiveArray? || t.PrimitiveArray? {
        return false;
      }
      t, s := t.element, s.element;
    }
  }

  lemma InterfaceSource(h: Hierarchy, t: Type, c: nat)
    requires HierarchyOk(h) && c < |h| && h[c].Interface? && t != Loaded(c)
    ensures Subtype(h, t, Loaded(c)) <==> t == Loaded(OBJECT) || (IsInterface(h, t) && t.index in All(h[c]))
  {
    if IsInterface(h, t) {
      ListDecides(h, t.index, c);
    } else if Subtype(h, t, Loaded(c)) {
      AboveInterface(h, t, c);
    }
  }
}
