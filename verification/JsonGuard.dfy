/**
 The strict JSON guards: a depth-first search over a heap of shared, possibly cyclic Python
 objects that remembers only the ancestors of the object it is visiting.

 A Python object is either a leaf, held by value, or a reference to a list or dict in the heap.
 `ExactTypes` is the guard that compares `type(value)`; `Instances` is the one that calls
 `isinstance`, which also admits subclasses of the built-in types.
 */
module JsonGuard {
  import opened Basics

  type Ref = nat

  datatype Scalar = SNone | SBool(b: bool) | SInt(i: int) | SFloat(r: real) | SStr(s: string)

  // `exact` says that the object's type is the built-in type itself, not a subclass of it.
  datatype Value =
    | Leaf(scalar: Scalar, exact: bool)
    | NonFinite               // a float that is an infinity or a NaN
    | Foreign                 // any object that is neither JSON-shaped nor a container
    | Box(ref: Ref)           // a list or a dict

  datatype Key = StrKey(name: string, exact: bool) | OtherKey

  datatype Cell =
    | ListCell(items: seq<Value>, exact: bool)
    | DictCell(entries: seq<(Key, Value)>, exact: bool)

  type Heap = map<Ref, Cell>

  datatype Mode = ExactTypes | Instances

  datatype Json =
    | JScalar(scalar: Scalar)
    | JList(items: seq<Json>)
    | JDict(entries: seq<(string, Json)>)

  function Children(c: Cell): seq<Value> {
    match c
    case ListCell(items, _) => items
    case DictCell(entries, _) => seq(|entries|, i requires 0 <= i < |entries| => entries[i].1)
  }

  // Objects of a live Python program only refer to live objects.
  ghost predicate Closed(h: Heap) {
    forall r, i :: r in h && 0 <= i < |Children(h[r])| && Children(h[r])[i].Box? ==> Children(h[r])[i].ref in h
  }

  ghost predicate InHeap(h: Heap, v: Value) {
    v.Box? ==> v.ref in h
  }

  // -- What the guards are for, stated without any search ------------------------------------

  predicate KeyOk(mode: Mode, k: Key) {
    k.StrKey? && (mode == ExactTypes ==> k.exact)
  }

  predicate KeysOk(mode: Mode, c: Cell) {
    c.DictCell? ==> forall i :: 0 <= i < |c.entries| ==> KeyOk(mode, c.entries[i].0)
  }

  // A leaf is finite JSON. `ExactTypes` admits None and the exact built-in scalar types.
  predicate LeafOk(mode: Mode, v: Value) {
    match v
    case Leaf(scalar, exact) => mode == ExactTypes ==> exact || scalar.SNone?
    case NonFinite => false
    case Foreign => false
    case Box(_) => true
  }

  predicate CellOk(mode: Mode, c: Cell) {
    && (mode == ExactTypes ==> c.exact)
    && KeysOk(mode, c)
    && forall i :: 0 <= i < |Children(c)| ==> LeafOk(mode, Children(c)[i])
  }

  ghost predicate Edge(h: Heap, a: Ref, b: Ref) {
    a in h && exists i :: 0 <= i < |Children(h[a])| && Children(h[a])[i] == Box(b)
  }

  ghost predicate IsPath(h: Heap, p: seq<Ref>) {
    && |p| > 0
    && (forall i :: 0 <= i < |p| ==> p[i] in h)
    && forall i :: 0 <= i < |p| - 1 ==> Edge(h, p[i], p[i + 1])
  }

  ghost predicate Repeats(p: seq<Ref>) {
    exists i, j :: 0 <= i < j < |p| && p[i] == p[j]
  }

  // Some path from r comes back to an object it has already passed.
  ghost predicate ReachesCycle(h: Heap, r: Ref) {
    exists p :: IsPath(h, p) && p[0] == r && Repeats(p)
  }

  ghost predicate Reachable(h: Heap, r: Ref, q: Ref) {
    exists p :: IsPath(h, p) && p[0] == r && p[|p| - 1] == q
  }

  // Every object reachable from the value is acceptable on its own and none lies on a cycle.
  ghost predicate StrictJson(mode: Mode, h: Heap, v: Value) {
    && LeafOk(mode, v)
    && (v.Box? ==>
          && !ReachesCycle(h, v.ref)
          && forall q :: Reachable(h, v.ref, q) ==> CellOk(mode, h[q]))
  }

  // t is the tree that the value v unfolds to.
  ghost predicate Unfolds(h: Heap, v: Value, t: Json)
    decreases t
  {
    match t
    case JScalar(s) => v.Leaf? && v.scalar == s
    case JList(items) =>
      && v.Box? && v.ref in h && h[v.ref].ListCell? && |h[v.ref].items| == |items|
      && forall i :: 0 <= i < |items| ==> Unfolds(h, h[v.ref].items[i], items[i])
    case JDict(entries) =>
      && v.Box? && v.ref in h && h[v.ref].DictCell? && |h[v.ref].entries| == |entries|
      && forall i :: 0 <= i < |entries| ==>
           && h[v.ref].entries[i].0.StrKey? && h[v.ref].entries[i].0.name == entries[i].0
           && Unfolds(h, h[v.ref].entries[i].1, entries[i].1)
  }

  // -- The search as a function ---------------------------------------------------------------

  ghost predicate Accepts(mode: Mode, h: Heap, v: Value, ancestors: set<Ref>)
    requires Closed(h) && InHeap(h, v)
    decreases h.Keys - ancestors, 0
  {
    if !v.Box? then LeafOk(mode, v) else
    && v.ref !in ancestors
    && (mode == ExactTypes ==> h[v.ref].exact)
    && KeysOk(mode, h[v.ref])
    && (forall i :: 0 <= i < |Children(h[v.ref])| ==> InHeap(h, Children(h[v.ref])[i]))
    && forall i :: 0 <= i < |Children(h[v.ref])| ==> Accepts(mode, h, Children(h[v.ref])[i], ancestors + {v.ref})
  }

  // -- Acceptance is acyclicity and well-typedness ----------------------------------------------

  // The ancestor-relative form of StrictJson for a container.
  ghost predicate Clean(mode: Mode, h: Heap, r: Ref, ancestors: set<Ref>) {
    forall p :: IsPath(h, p) && p[0] == r ==>
      && !Repeats(p)
      && (forall i :: 0 <= i < |p| ==> p[i] !in ancestors)
      && CellOk(mode, h[p[|p| - 1]])
  }

  lemma AcceptedChild(mode: Mode, h: Heap, r: Ref, ancestors: set<Ref>, q: Ref)
    requires Closed(h) && r in h
    requires Accepts(mode, h, Box(r), ancestors) && Edge(h, r, q)
    ensures q in h && Accepts(mode, h, Box(q), ancestors + {r})
  {
    var i :| 0 <= i < |Children(h[r])| && Children(h[r])[i] == Box(q);
    assert InHeap(h, Children(h[r])[i]);
  }

  lemma {:induction false} AcceptedPath(mode: Mode, h: Heap, ancestors: set<Ref>, p: seq<Ref>)
    requires Closed(h) && IsPath(h, p)
    requires Accepts(mode, h, Box(p[0]), ancestors)
    ensures !Repeats(p)
    ensures forall i :: 0 <= i < |p| ==> p[i] !in ancestors
    ensures CellOk(mode, h[p[|p| - 1]])
    decreases |p|
  {
    if |p| == 1 {
      forall i | 0 <= i < |Children(h[p[0]])|
        ensures LeafOk(mode, Children(h[p[0]])[i])
      {
        assert Accepts(mode, h, Children(h[p[0]])[i], ancestors + {p[0]});
      }
    } else {
      assert Edge(h, p[0], p[1]);
      AcceptedChild(mode, h, p[0], ancestors, p[1]);
      var tail := p[1..];
      assert forall i :: 0 <= i < |tail| - 1 ==> Edge(h, tail[i], tail[i + 1]) by {
        forall i | 0 <= i < |tail| - 1 ensures Edge(h, tail[i], tail[i + 1]) {
          assert Edge(h, p[i + 1], p[i + 2]);
        }
      }
      AcceptedPath(mode, h, ancestors + {p[0]}, tail);
      forall i, j | 0 <= i < j < |p| ensures p[i] != p[j] {
        assert p[j] == tail[j - 1];
        if i > 0 {
          assert p[i] == tail[i - 1];
        }
      }
      assert p[0] !in ancestors;
      forall i | 0 <= i < |p| ensures p[i] !in ancestors {
        if i > 0 { assert p[i] == tail[i - 1]; }
      }
    }
  }

  lemma {:induction false} CleanIsAccepted(mode: Mode, h: Heap, v: Value, ancestors: set<Ref>)
    requires Closed(h) && InHeap(h, v) && LeafOk(mode, v)
    requires v.Box? ==> Clean(mode, h, v.ref, ancestors)
    ensures Accepts(mode, h, v, ancestors)
    decreases h.Keys - ancestors
  {
    if v.Box? {
      var r := v.ref;
      assert IsPath(h, [r]);
      assert r !in ancestors && CellOk(mode, h[r]);
      forall i | 0 <= i < |Children(h[r])|
        ensures InHeap(h, Children(h[r])[i]) && Accepts(mode, h, Children(h[r])[i], ancestors + {r})
      {
        var c := Children(h[r])[i];
        if c.Box? {
          assert Edge(h, r, c.ref);
          forall p | IsPath(h, p) && p[0] == c.ref
            ensures !Repeats(p)
            ensures forall k :: 0 <= k < |p| ==> p[k] !in ancestors + {r}
            ensures CellOk(mode, h[p[|p| - 1]])
          {
            ExtendedPath(mode, h, r, ancestors, p);
          }
        }
        CleanIsAccepted(mode, h, c, ancestors + {r});
      }
    }
  }

  lemma ExtendedPath(mode: Mode, h: Heap, r: Ref, ancestors: set<Ref>, p: seq<Ref>)
    requires Clean(mode, h, r, ancestors) && r in h
    requires IsPath(h, p) && Edge(h, r, p[0])
    ensures !Repeats(p)
    ensures forall k :: 0 <= k < |p| ==> p[k] !in ancestors + {r}
    ensures CellOk(mode, h[p[|p| - 1]])
  {
    var q := [r] + p;
    forall i | 0 <= i < |q| - 1 ensures Edge(h, q[i], q[i + 1]) {
      if i > 0 { assert q[i] == p[i - 1] && q[i + 1] == p[i]; }
    }
    assert IsPath(h, q) && !Repeats(q);
    forall i, j | 0 <= i < j < |p| ensures p[i] != p[j] {
      assert q[i + 1] == p[i] && q[j + 1] == p[j];
    }
    forall k | 0 <= k < |p| ensures p[k] !in ancestors + {r} {
      assert q[k + 1] == p[k] && q[0] == r;
    }
    assert q[|q| - 1] == p[|p| - 1];
  }

  /** The guard accepts exactly the finite JSON values: nothing reachable lies on a cycle, every
      reachable key is a string and every reachable leaf is a finite JSON scalar. */
  lemma AcceptsIffStrictJson(mode: Mode, h: Heap, v: Value)
    requires Closed(h) && InHeap(h, v)
    ensures Accepts(mode, h, v, {}) <==> StrictJson(mode, h, v)
  {
    if Accepts(mode, h, v, {}) && v.Box? {
      forall p | IsPath(h, p) && p[0] == v.ref
        ensures !Repeats(p) && CellOk(mode, h[p[|p| - 1]])
      {
        AcceptedPath(mode, h, {}, p);
      }
    }
    if StrictJson(mode, h, v) {
      if v.Box? {
        forall p | IsPath(h, p) && p[0] == v.ref
          ensures !Repeats(p) && CellOk(mode, h[p[|p| - 1]])
        {
          assert Reachable(h, v.ref, p[|p| - 1]);
        }
      }
      CleanIsAccepted(mode, h, v, {});
    }
  }

  // -- The copying guard returns the tree unfolding ---------------------------------------------

  // A value has at most one unfolding.
  lemma {:induction false} UnfoldingIsUnique(h: Heap, v: Value, t: Json, u: Json)
    requires Unfolds(h, v, t) && Unfolds(h, v, u)
    ensures t == u
    decreases t
  {
    match t
    case JScalar(_) =>
    case JList(items) =>
      forall i | 0 <= i < |items| ensures items[i] == u.items[i] {
        UnfoldingIsUnique(h, h[v.ref].items[i], items[i], u.items[i]);
      }
      assert items == u.items;
    case JDict(entries) =>
      forall i | 0 <= i < |entries| ensures entries[i] == u.entries[i] {
        UnfoldingIsUnique(h, h[v.ref].entries[i].1, entries[i].1, u.entries[i].1);
      }
      assert entries == u.entries;
  }

  // Following an edge leads to a proper subtree of the unfolding.
  lemma SubtreeAlongEdge(h: Heap, r: Ref, q: Ref, t: Json) returns (u: Json)
    requires Unfolds(h, Box(r), t) && Edge(h, r, q)
    ensures Unfolds(h, Box(q), u) && u < t
  {
    var i :| 0 <= i < |Children(h[r])| && Children(h[r])[i] == Box(q);
    match t
    case JList(items) => u := items[i];
    case JDict(entries) =>
      assert entries[i].1 < t;
      u := entries[i].1;
  }

  lemma {:induction false} SubtreeAlongPath(h: Heap, p: seq<Ref>, t: Json) returns (u: Json)
    requires IsPath(h, p) && Unfolds(h, Box(p[0]), t)
    ensures Unfolds(h, Box(p[|p| - 1]), u)
    ensures if |p| == 1 then u == t else u < t
    decreases |p|
  {
    if |p| == 1 {
      u := t;
    } else {
      var front := p[..|p| - 1];
      assert forall i :: 0 <= i < |front| - 1 ==> Edge(h, front[i], front[i + 1]) by {
        forall i | 0 <= i < |front| - 1 ensures Edge(h, front[i], front[i + 1]) {
          assert Edge(h, p[i], p[i + 1]);
        }
      }
      var w := SubtreeAlongPath(h, front, t);
      assert Edge(h, p[|p| - 2], p[|p| - 1]);
      u := SubtreeAlongEdge(h, p[|p| - 2], p[|p| - 1], w);
    }
  }

  lemma PathSlice(h: Heap, p: seq<Ref>, i: nat, j: nat)
    requires IsPath(h, p) && i < j <= |p|
    ensures IsPath(h, p[i..j])
  {
    var s := p[i..j];
    forall k | 0 <= k < |s| - 1 ensures Edge(h, s[k], s[k + 1]) {
      assert Edge(h, p[i + k], p[i + k + 1]);
    }
  }

  lemma UnfoldingForbidsCycles(h: Heap, r: Ref, t: Json)
    requires Unfolds(h, Box(r), t)
    ensures !ReachesCycle(h, r)
  {
    forall p | IsPath(h, p) && p[0] == r ensures !Repeats(p) {
      if Repeats(p) {
        var i, j :| 0 <= i < j < |p| && p[i] == p[j];
        PathSlice(h, p, 0, i + 1);
        PathSlice(h, p, i, j + 1);
        var a := SubtreeAlongPath(h, p[0..i + 1], t);
        var b := SubtreeAlongPath(h, p[i..j + 1], a);
        UnfoldingIsUnique(h, Box(p[i]), a, b);
        assert false;
      }
    }
  }

  lemma UnfoldedCell(h: Heap, r: Ref, t: Json)
    requires Unfolds(h, Box(r), t)
    ensures r in h && CellOk(Instances, h[r])
  {
    forall i | 0 <= i < |Children(h[r])| ensures LeafOk(Instances, Children(h[r])[i]) {
      match t
      case JList(items) => assert Unfolds(h, h[r].items[i], items[i]);
      case JDict(entries) => assert Unfolds(h, h[r].entries[i].1, entries[i].1);
    }
  }

  /** Independent reference for acceptance: a value is accepted exactly when it has a finite tree
      unfolding at all, and sharing is no obstacle. */
  lemma AcceptsIffUnfolds(h: Heap, v: Value)
    requires Closed(h) && InHeap(h, v)
    ensures Accepts(Instances, h, v, {}) <==> exists t :: Unfolds(h, v, t)
  {
    if Accepts(Instances, h, v, {}) {
      var t := Unfolding(h, v, {});
      assert Unfolds(h, v, t);
    }
    if exists t :: Unfolds(h, v, t) {
      var t :| Unfolds(h, v, t);
      assert LeafOk(Instances, v) by { match t { case JScalar(_) => case JList(_) => case JDict(_) => } }
      if v.Box? {
        UnfoldingForbidsCycles(h, v.ref, t);
        forall q | Reachable(h, v.ref, q) ensures CellOk(Instances, h[q]) {
          var p :| IsPath(h, p) && p[0] == v.ref && p[|p| - 1] == q;
          var u := SubtreeAlongPath(h, p, t);
          UnfoldedCell(h, q, u);
        }
      }
      AcceptsIffStrictJson(Instances, h, v);
    }
  }

  // -- Exact types, stated apart from any guard --------------------------------------------------

  // The built-in type itself; None has no subclasses.
  predicate ExactValue(v: Value) {
    v.Leaf? ==> v.exact || v.scalar == SNone
  }

  predicate ExactCell(c: Cell) {
    && c.exact && (forall i :: 0 <= i < |Children(c)| ==> ExactValue(Children(c)[i]))
    && (c.DictCell? ==> forall i :: 0 <= i < |c.entries| ==> c.entries[i].0.StrKey? ==> c.entries[i].0.exact)
  }

  // Everything reachable has its exact built-in type.
  ghost predicate AllExact(h: Heap, v: Value) {
    ExactValue(v) && (v.Box? ==> forall q :: Reachable(h, v.ref, q) ==> ExactCell(h[q]))
  }

  lemma ExactCellIsStricter(c: Cell)
    ensures CellOk(ExactTypes, c) <==> CellOk(Instances, c) && ExactCell(c)
  {
    assert forall v :: LeafOk(ExactTypes, v) <==> LeafOk(Instances, v) && ExactValue(v);
  }

  /** The exact-type guard accepts a value exactly when it has a finite tree unfolding and everything
      reachable from it, containers, keys and leaves, is of a built-in type itself. */
  lemma ExactAcceptsIffUnfoldsExactly(h: Heap, v: Value)
    requires Closed(h) && InHeap(h, v)
    ensures Accepts(ExactTypes, h, v, {}) <==> (exists t :: Unfolds(h, v, t)) && AllExact(h, v)
  {
    AcceptsIffStrictJson(ExactTypes, h, v);
    AcceptsIffStrictJson(Instances, h, v);
    AcceptsIffUnfolds(h, v);
    if v.Box? {
      forall q | Reachable(h, v.ref, q) ensures CellOk(ExactTypes, h[q]) <==> CellOk(Instances, h[q]) && ExactCell(h[q]) {
        ExactCellIsStricter(h[q]);
      }
    }
  }

  // The tree an accepted value unfolds to.
  ghost function Unfolding(h: Heap, v: Value, ancestors: set<Ref>): (t: Json)
    requires Closed(h) && InHeap(h, v) && Accepts(Instances, h, v, ancestors)
    ensures Unfolds(h, v, t)
    decreases h.Keys - ancestors
  {
    if v.Leaf? then JScalar(v.scalar)
    else
      match h[v.ref]
      case ListCell(items, _) =>
        assert items == Children(h[v.ref]);
        JList(seq(|items|, i requires 0 <= i < |items| => Unfolding(h, items[i], ancestors + {v.ref})))
      case DictCell(entries, _) =>
        assert forall i :: 0 <= i < |entries| ==> Children(h[v.ref])[i] == entries[i].1;
        JDict(seq(|entries|, i requires 0 <= i < |entries| =>
                    assert Children(h[v.ref])[i] == entries[i].1;
                    (entries[i].0.name, Unfolding(h, entries[i].1, ancestors + {v.ref}))))
  }

  // -- The guards as they run: one shared ancestor set, added to and removed from -----------------

  class Guard {
    var ancestors: set<Ref>

    constructor ()
      ensures ancestors == {}
    {
      ancestors := {};
    }

    // `_validate_json`: the ancestor set is restored on every exit, accepting or raising.
    method ValidateJson(mode: Mode, h: Heap, v: Value) returns (ok: bool)
      requires Closed(h) && InHeap(h, v)
      modifies this
      ensures ancestors == old(ancestors)
      ensures ok == Accepts(mode, h, v, old(ancestors))
      decreases h.Keys - ancestors
    {
      if !v.Box? {
        return LeafOk(mode, v);
      }
      if mode == ExactTypes && !h[v.ref].exact {
        return false;
      }
      if v.ref in ancestors {
        return false;
      }
      ghost var before := ancestors;
      ancestors := ancestors + {v.ref};
      ok := KeysOk(mode, h[v.ref]);
      var children := Children(h[v.ref]);
      assert forall k :: 0 <= k < |children| ==> InHeap(h, children[k]);
      var i := 0;
      while ok && i < |children|
        invariant 0 <= i <= |children|
        invariant ancestors == before + {v.ref}
        invariant ok ==> KeysOk(mode, h[v.ref])
        invariant ok ==> forall k :: 0 <= k < i ==> Accepts(mode, h, children[k], before + {v.ref})
        invariant !ok ==> !Accepts(mode, h, v, before)
      {
        ok := ValidateJson(mode, h, children[i]);
        i := i + 1;
      }
      ancestors := ancestors - {v.ref};
    }

    // `_json_value`: the same search, returning a fresh tree instead of nothing.
    method CopyJson(h: Heap, v: Value) returns (t: Option<Json>)
      requires Closed(h) && InHeap(h, v)
      modifies this
      ensures ancestors == old(ancestors)
      ensures t.Some? <==> Accepts(Instances, h, v, old(ancestors))
      ensures t.Some? ==> Unfolds(h, v, t.value)
      decreases h.Keys - ancestors
    {
      if v.Leaf? {
        return Some(JScalar(v.scalar));
      }
      if !v.Box? || v.ref in ancestors {
        return None;
      }
      ghost var before := ancestors;
      match h[v.ref] {
        case ListCell(items, _) =>
          ancestors := ancestors + {v.ref};
          var copies: seq<Json> := [];
          var ok, i := true, 0;
          assert items == Children(h[v.ref]);
          while ok && i < |items|
            invariant 0 <= i <= |items| && ancestors == before + {v.ref}
            invariant ok ==> |copies| == i
            invariant ok ==> forall k :: 0 <= k < i ==> Unfolds(h, items[k], copies[k])
            invariant ok ==> forall k :: 0 <= k < i ==> Accepts(Instances, h, items[k], before + {v.ref})
            invariant !ok ==> !Accepts(Instances, h, v, before)
          {
            var c := CopyJson(h, items[i]);
            if c.Some? { copies := copies + [c.value]; } else { ok := false; }
            i := i + 1;
          }
          ancestors := ancestors - {v.ref};
          t := if ok then Some(JList(copies)) else None;
        case DictCell(entries, _) =>
          if !KeysOk(Instances, h[v.ref]) {
            return None;
          }
          ancestors := ancestors + {v.ref};
          var copies: seq<(string, Json)> := [];
          var ok, i := true, 0;
          assert forall k :: 0 <= k < |entries| ==> Children(h[v.ref])[k] == entries[k].1;
          while ok && i < |entries|
            invariant 0 <= i <= |entries| && ancestors == before + {v.ref}
            invariant ok ==> |copies| == i
            invariant ok ==> forall k :: 0 <= k < i ==>
                               copies[k].0 == entries[k].0.name && Unfolds(h, entries[k].1, copies[k].1)
            invariant ok ==> forall k :: 0 <= k < i ==> Accepts(Instances, h, entries[k].1, before + {v.ref})
            invariant !ok ==> !Accepts(Instances, h, v, before)
          {
            assert Children(h[v.ref])[i] == entries[i].1;
            var c := CopyJson(h, entries[i].1);
            if c.Some? { copies := copies + [(entries[i].0.name, c.value)]; } else { ok := false; }
            i := i + 1;
          }
          ancestors := ancestors - {v.ref};
          t := if ok then Some(JDict(copies)) else None;
      }
    }
  }

  /** A call from outside: it starts from an empty set, leaves an empty set, and its verdict is
      the one that speaks of reachability alone, or of the unfolding and the types met on the way. */
  method CanonicalGuard(mode: Mode, h: Heap, v: Value) returns (ok: bool)
    requires Closed(h) && InHeap(h, v)
    ensures ok <==> StrictJson(mode, h, v)
    ensures ok <==> (exists t :: Unfolds(h, v, t)) && (mode == ExactTypes ==> AllExact(h, v))
  {
    var guard := new Guard();
    ok := guard.ValidateJson(mode, h, v);
    AcceptsIffStrictJson(mode, h, v);
    AcceptsIffUnfolds(h, v);
    ExactAcceptsIffUnfoldsExactly(h, v);
  }

  /** `_json_object` keeps only dicts; the tree it returns is the unfolding of its argument. */
  method JsonObject(h: Heap, v: Value) returns (t: Option<Json>)
    requires Closed(h) && InHeap(h, v)
    ensures t.Some? <==> StrictJson(Instances, h, v) && v.Box? && h[v.ref].DictCell?
    ensures t.Some? <==> exists u: Json :: u.JDict? && Unfolds(h, v, u)
    ensures t.Some? ==> Unfolds(h, v, t.value)
  {
    var guard := new Guard();
    t := guard.CopyJson(h, v);
    AcceptsIffStrictJson(Instances, h, v);
    AcceptsIffUnfolds(h, v);
    if t.Some? && !t.value.JDict? {
      t := None;
    }
  }
}
