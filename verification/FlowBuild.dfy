/**
 Building a Blueprint's resources in dependency rounds: the rounds exist exactly when the
 dependencies resolve and have no cycle, and following them no resource is built before what its
 references lead to.
 */
module FlowBuild {
  import opened Basics
  import opened Ordering
  import opened FlowModel

  // ------------------------------------------------------------------ cycles

  // A chain of resources, each depending on the next.
  predicate Chain(g: Dependencies, p: seq<string>) {
    forall i :: 0 <= i < |p| - 1 ==> p[i] in g && p[i + 1] in g[p[i]]
  }

  // A chain whose last resource depends on the first.
  predicate Cycle(g: Dependencies, p: seq<string>) {
    p != [] && Chain(g, p) && p[|p| - 1] in g && p[0] in g[p[|p| - 1]]
  }

  ghost predicate Acyclic(g: Dependencies) { forall p: seq<string> :: !Cycle(g, p) }

  function Members(p: seq<string>): set<string> { set x | x in p }

  lemma CyclesWait(g: Dependencies, p: seq<string>, n: nat)
    requires Resolved(g) && Cycle(g, p)
    ensures forall i :: 0 <= i < |p| ==> p[i] in Unbuilt(g, n)
  {
    forall i | 0 <= i < |p| ensures p[i] in Unbuilt(g, n) {
      CyclesWaitAt(g, p, n, i);
    }
  }

  // A resource on a cycle is never ready, because its successor on the cycle is not.
  lemma {:induction false} CyclesWaitAt(g: Dependencies, p: seq<string>, n: nat, i: nat)
    requires Resolved(g) && Cycle(g, p) && i < |p|
    ensures p[i] in Unbuilt(g, n)
    decreases n
  {
    var next := if i == |p| - 1 then 0 else i + 1;
    assert p[next] in g[p[i]];
    if n > 0 {
      CyclesWaitAt(g, p, n - 1, i);
      CyclesWaitAt(g, p, n - 1, next);
      assert p[next] in g[p[i]] * Unbuilt(g, n - 1);
    }
  }

  // ------------------------------------------------------------------ a stuck set has a cycle

  // Following, inside a stuck set, some dependency that is in the set.
  ghost function Walk(g: Dependencies, stuck: set<string>, from: string, n: nat): (p: seq<string>)
    requires stuck <= g.Keys && from in stuck && forall k :: k in stuck ==> !(g[k] !! stuck)
    ensures |p| == n + 1 && p[0] == from && Chain(g, p) && Members(p) <= stuck
    decreases n
  {
    if n == 0 then [from] else
    assert exists next :: next in g[from] && next in stuck;
    var next :| next in g[from] && next in stuck;
    [from] + Walk(g, stuck, next, n - 1)
  }

  lemma {:induction false} MembersCount(p: seq<string>)
    requires forall i, j :: 0 <= i < j < |p| ==> p[i] != p[j]
    ensures |Members(p)| == |p|
    decreases |p|
  {
    if p != [] {
      MembersCount(p[1..]);
      assert Members(p) == {p[0]} + Members(p[1..]);
    }
  }

  lemma {:induction false} SubsetIsSmaller(a: set<string>, b: set<string>)
    requires a <= b
    ensures |a| <= |b|
    decreases b
  {
    if x :| x in a {
      assert x in b;
      SubsetIsSmaller(a - {x}, b - {x});
    }
  }

  lemma RepeatIsCycle(g: Dependencies, p: seq<string>, i: nat, j: nat)
    requires Chain(g, p) && i < j < |p| && p[i] == p[j]
    ensures Cycle(g, p[i..j])
  {
    var c := p[i..j];
    forall k | 0 <= k < |c| - 1 ensures c[k] in g && c[k + 1] in g[c[k]] {
      assert p[i + k + 1] in g[p[i + k]];
    }
    assert p[j - 1] in g && p[j - 1 + 1] in g[p[j - 1]];
  }

  lemma StuckHasCycle(g: Dependencies, stuck: set<string>)
    requires stuck <= g.Keys && stuck != {} && Ready(g, stuck) == {}
    ensures !Acyclic(g)
  {
    forall k | k in stuck ensures !(g[k] !! stuck) {
      assert k !in Ready(g, stuck);
    }
    var from :| from in stuck;
    var p := Walk(g, stuck, from, |stuck|);
    SubsetIsSmaller(Members(p), stuck);
    if forall i, j :: 0 <= i < j < |p| ==> p[i] != p[j] {
      MembersCount(p);
      assert false;
    }
    var i, j :| 0 <= i < j < |p| && p[i] == p[j];
    RepeatIsCycle(g, p, i, j);
  }

  // ------------------------------------------------------------------ the rounds

  lemma {:induction false} RoundsShrink(g: Dependencies, m: nat, n: nat)
    requires m <= n
    ensures Unbuilt(g, n) <= Unbuilt(g, m)
    decreases n
  {
    if m < n { RoundsShrink(g, m, n - 1); }
  }

  // As long as something is ready in every round, n rounds leave at most |g| - n resources.
  lemma {:induction false} RoundsProgress(g: Dependencies, n: nat)
    requires Acyclic(g)
    ensures Unbuilt(g, n) == {} || |Unbuilt(g, n)| + n <= |g|
  {
    if n > 0 {
      RoundsProgress(g, n - 1);
      var before := Unbuilt(g, n - 1);
      if before != {} {
        if Ready(g, before) == {} { StuckHasCycle(g, before); }
        var k :| k in Ready(g, before);
        SubsetIsSmaller(Unbuilt(g, n), before - {k});
        assert |before - {k}| == |before| - 1;
      }
    } else {
      assert |g.Keys| == |g|;
    }
  }

  /** The rounds end with everything built exactly when every dependency resolves and no chain of
      dependencies returns to its start. */
  lemma BuildsIffAcyclic(g: Dependencies)
    ensures Builds(g) <==> Resolved(g) && Acyclic(g)
  {
    if Resolved(g) && Acyclic(g) {
      RoundsProgress(g, |g|);
      EmptyWhenNone(Unbuilt(g, |g|));
    }
    if Builds(g) {
      forall p: seq<string> ensures !Cycle(g, p) {
        if Cycle(g, p) { CyclesWait(g, p, |g|); }
      }
    }
  }

  lemma EmptyWhenNone(s: set<string>)
    ensures s == {} || |s| > 0
  {
    if x :| x in s {
      assert |s - {x}| == |s| - 1;
    }
  }

  lemma {:induction false} IdsCount(resources: seq<Resource>)
    ensures |Ids(resources)| <= |resources|
    decreases |resources|
  {
    if resources != [] {
      IdsCount(resources[1..]);
      assert Ids(resources) == {resources[0].id} + Ids(resources[1..]);
    }
  }

  lemma DependenciesAt(resources: seq<Resource>, i: nat)
    requires i < |resources| && DistinctKeys(resources, ResourceKey)
    ensures resources[i].id in DependenciesOf(resources)
    ensures DependenciesOf(resources)[resources[i].id] == Elements(resources[i].dependsOn)
  {
    var d := FindResource(resources, resources[i].id);
    assert resources[i] in resources;
    var j :| 0 <= j < |resources| && resources[j] == d.value;
    assert ResourceKey(resources[i]) == ResourceKey(resources[j]);
  }

  lemma ResolvedOneByOne(resources: seq<Resource>)
    requires DistinctKeys(resources, ResourceKey)
    ensures Resolved(DependenciesOf(resources))
       <==> forall i :: 0 <= i < |resources| ==> Elements(resources[i].dependsOn) <= DependenciesOf(resources).Keys
  {
    var g := DependenciesOf(resources);
    forall i | 0 <= i < |resources| ensures resources[i].id in g && g[resources[i].id] == Elements(resources[i].dependsOn) {
      DependenciesAt(resources, i);
    }
    forall k | k in g ensures exists i :: 0 <= i < |resources| && resources[i].id == k {
      var r :| r in resources && r.id == k;
    }
  }

  lemma RoundShrinks(g: Dependencies, remaining: set<string>)
    requires remaining <= g.Keys && Ready(g, remaining) != {}
    ensures |remaining - Ready(g, remaining)| < |remaining|
  {
    var ready := Ready(g, remaining);
    var k :| k in ready;
    SubsetIsSmaller(remaining - ready, remaining - {k});
  }

  lemma FinishedIsBuilt(g: Dependencies, rounds: nat)
    requires Resolved(g) && Unbuilt(g, rounds) == {}
    ensures Builds(g) && Acyclic(g)
  {
    forall p: seq<string> ensures !Cycle(g, p) {
      if Cycle(g, p) { CyclesWait(g, p, rounds); }
    }
    BuildsIffAcyclic(g);
  }

  /** The rounds of `_dependencies`, once every dependency resolves. */
  method TakeRounds(byId: Dependencies) returns (ok: bool, rounds: nat)
    requires Resolved(byId)
    ensures ok <==> Builds(byId)
    ensures rounds <= |byId| && (ok ==> Unbuilt(byId, rounds) == {})
  {
    var remaining := byId.Keys;
    ok, rounds := true, 0;
    while remaining != {}
      invariant remaining == Unbuilt(byId, rounds) && |remaining| + rounds <= |byId.Keys|
      decreases |remaining|
    {
      var ready := Ready(byId, remaining);
      if ready == {} {
        StuckHasCycle(byId, remaining);
        BuildsIffAcyclic(byId);
        ok := false;
        return;
      }
      RoundShrinks(byId, remaining);
      remaining, rounds := remaining - ready, rounds + 1;
    }
    FinishedIsBuilt(byId, rounds);
  }

  /** The first loop of `_dependencies`. */
  method AllResolve(resources: seq<Resource>, known: set<string>) returns (ok: bool)
    ensures ok <==> forall i :: 0 <= i < |resources| ==> Elements(resources[i].dependsOn) <= known
  {
    for i := 0 to |resources|
      invariant forall j :: 0 <= j < i ==> Elements(resources[j].dependsOn) <= known
    {
      var loose := Elements(resources[i].dependsOn) - known;
      if loose != {} {
        return false;
      }
      assert forall x :: x in Elements(resources[i].dependsOn) ==> x in loose || x in known;
    }
    return true;
  }

  lemma AcceptedIffAcyclic(resources: seq<Resource>)
    ensures var g := DependenciesOf(resources);
            |g| <= |resources| && (Builds(g) <==> Resolved(g) && Acyclic(g))
  {
    var g := DependenciesOf(resources);
    BuildsIffAcyclic(g);
    IdsCount(resources);
    assert g.Keys == Ids(resources) && |g| == |g.Keys|;
  }

  /** `_dependencies`: the loops accept exactly the resources whose dependencies resolve without a
      cycle, after at most one round per resource. */
  method CheckDependencies(resources: seq<Resource>) returns (ok: bool, rounds: nat)
    requires DistinctKeys(resources, ResourceKey)
    ensures ok <==> Builds(DependenciesOf(resources))
    ensures ok <==> Resolved(DependenciesOf(resources)) && Acyclic(DependenciesOf(resources))
    ensures rounds <= |resources| && (ok ==> Unbuilt(DependenciesOf(resources), rounds) == {})
  {
    var byId := DependenciesOf(resources);
    ResolvedOneByOne(resources);
    AcceptedIffAcyclic(resources);
    ok := AllResolve(resources, byId.Keys);
    rounds := 0;
    if ok {
      ok, rounds := TakeRounds(byId);
    }
  }

  // ------------------------------------------------------------------ accepted Blueprints

  // What construction establishes about the parts of a Blueprint.
  lemma BuiltParts(raw: Blueprint, b: Blueprint)
    requires NewBlueprint(raw) == Some(b)
    ensures Validates(b) && DistinctKeys(b.resources, ResourceKey)
    ensures forall r :: r in b.references ==> ReferenceOk(r)
    ensures forall r :: r in b.resources ==> NewResource(r) == Some(r)
    ensures forall s :: s in b.scenarios ==> NewScenario(s) == Some(s)
  {
    SortAscends(raw.resources, ResourceKey);
    AscendingIsSorted(b.resources, ResourceKey);
    forall r | r in b.references ensures ReferenceOk(r) { assert r in multiset(raw.references); }
    forall r | r in b.resources ensures NewResource(r) == Some(r) { assert r in multiset(raw.resources); }
    forall s | s in b.scenarios ensures NewScenario(s) == Some(s) { assert s in multiset(raw.scenarios); }
  }

  // A way through the references, from one to a parent or related object each time.
  predicate Follows(refs: seq<Reference>, p: seq<string>) {
    p != [] && forall i :: 0 <= i < |p| - 1 ==> p[i + 1] in OwnersOf(refs, p[i])
  }

  // Parents and related objects are objects, and objects have neither.
  lemma OwnersOwnNothing(refs: seq<Reference>, id: string, owner: string)
    requires IndexOk(refs) && forall r :: r in refs ==> ReferenceOk(r)
    requires owner in OwnersOf(refs, id)
    ensures OwnersOf(refs, owner) == {} && FindReference(refs, owner).Some?
  {
    var r := FindReference(refs, id).value;
    assert r in refs && Owner(r, owner);
    var o := FindReference(refs, owner).value;
    assert ReferenceOk(o);
  }

  lemma OwnedByNext(refs: seq<Reference>, p: seq<string>, i: nat)
    requires Follows(refs, p) && i + 1 < |p|
    ensures p[i + 1] in OwnersOf(refs, p[i])
  {}

  lemma WaysAreShort(refs: seq<Reference>, p: seq<string>)
    requires IndexOk(refs) && forall r :: r in refs ==> ReferenceOk(r)
    requires Follows(refs, p)
    ensures |p| <= 2
  {
    if |p| > 1 {
      if |p| > 2 { OwnedByNext(refs, p, 1); }
      OwnedByNext(refs, p, 0);
      OwnersOwnNothing(refs, p[0], p[1]);
    }
  }

  lemma OneStepIsEnough(refs: seq<Reference>, spec: ResourceSpec, p: seq<string>, i: nat)
    requires IndexOk(refs) && forall r :: r in refs ==> ReferenceOk(r)
    requires Follows(refs, p) && p[0] in DirectRefs(spec) && i < |p|
    ensures p[i] in UsedRefs(refs, spec)
  {
    WaysAreShort(refs, p);
    if i > 0 { OwnedByNext(refs, p, 0); }
  }

  /** The set that acceptance looks at, one step from the direct references, is all that following
      parents and related objects can ever reach. */
  lemma UsedIsClosed(raw: Blueprint, b: Blueprint, r: Resource, p: seq<string>)
    requires NewBlueprint(raw) == Some(b) && r in b.resources
    requires Follows(b.references, p) && p[0] in DirectRefs(r.spec)
    ensures |p| <= 2 && forall i :: 0 <= i < |p| ==> p[i] in UsedRefs(b.references, r.spec)
  {
    BuiltParts(raw, b);
    WaysAreShort(b.references, p);
    forall i | 0 <= i < |p| ensures p[i] in UsedRefs(b.references, r.spec) {
      OneStepIsEnough(b.references, r.spec, p, i);
    }
  }

  /** When a resource's turn comes, every reference it leads to, directly or through parents and
      related objects, resolves; and one that is planned is the plan of a resource of its own kind
      that has been built in an earlier round. */
  lemma NothingIsMetUnbuilt(raw: Blueprint, b: Blueprint, r: Resource, n: nat, p: seq<string>)
    requires NewBlueprint(raw) == Some(b) && r in b.resources
    requires r.id in Ready(DependenciesOf(b.resources), Unbuilt(DependenciesOf(b.resources), n))
    requires Follows(b.references, p) && p[0] in DirectRefs(r.spec)
    ensures var u := FindReference(b.references, p[|p| - 1]);
            && u.Some?
            && (u.value.planned ==>
                  && PlannedOk(u.value, b.resources)
                  && u.value.key !in Unbuilt(DependenciesOf(b.resources), n))
  {
    var g := DependenciesOf(b.resources);
    BuiltParts(raw, b);
    UsedIsClosed(raw, b, r, p);
    assert ResourceOkIn(r, b);
    var u := FindReference(b.references, p[|p| - 1]).value;
    if u.planned {
      var i :| 0 <= i < |b.resources| && b.resources[i] == r;
      DependenciesAt(b.resources, i);
      assert u.key in g[r.id];
      assert u in b.references && PlannedOk(u, b.resources);
    }
  }

  lemma {:induction false} BuiltInSomeRound(g: Dependencies, k: string, n: nat) returns (round: nat)
    requires k in g && k !in Unbuilt(g, n)
    ensures round < n && k in Ready(g, Unbuilt(g, round))
    decreases n
  {
    if k in Unbuilt(g, n - 1) { round := n - 1; } else { round := BuiltInSomeRound(g, k, n - 1); }
  }

  /** And every resource gets its turn, within as many rounds as there are resources. */
  lemma EveryResourceIsBuilt(raw: Blueprint, b: Blueprint, r: Resource) returns (round: nat)
    requires NewBlueprint(raw) == Some(b) && r in b.resources
    ensures round < |b.resources|
    ensures r.id in Ready(DependenciesOf(b.resources), Unbuilt(DependenciesOf(b.resources), round))
  {
    var g := DependenciesOf(b.resources);
    BuiltParts(raw, b);
    var i :| 0 <= i < |b.resources| && b.resources[i] == r;
    DependenciesAt(b.resources, i);
    AcceptedIffAcyclic(b.resources);
    round := BuiltInSomeRound(g, r.id, |g|);
  }

  // ------------------------------------------------------------------ mappings

  // Where the mappings take a source reference.
  function Image(b: Blueprint, id: string): Option<string> {
    var m := Lookup(b.mappings, MappingKey, id);
    if m.Some? then Some(m.value.targetRef) else None
  }

  lemma ImageIsMapped(b: Blueprint, id: string)
    requires MappingsOk(b) && Image(b, id).Some?
    ensures var s, t := FindReference(b.references, id), FindReference(b.references, Image(b, id).value);
            && s.Some? && t.Some? && s.value.source && !t.value.source && s.value.kind == t.value.kind
            && (s.value.parent.Some? ==> t.value.parent == Image(b, s.value.parent.value))
            && (s.value.related.Some? ==> t.value.related == Image(b, s.value.related.value))
  {
    var m := Lookup(b.mappings, MappingKey, id).value;
    assert m in b.mappings && m.sourceRef == id;
  }

  lemma MappedOwner(b: Blueprint, id: string, owner: string)
    requires MappingsOk(b) && (forall r :: r in b.references ==> ReferenceOk(r))
    requires Image(b, id).Some? && owner in OwnersOf(b.references, id)
    ensures Image(b, owner).Some? && Image(b, owner).value in OwnersOf(b.references, Image(b, id).value)
  {
    ImageIsMapped(b, id);
    var s, t := FindReference(b.references, id).value, FindReference(b.references, Image(b, id).value).value;
    assert ReferenceOk(s) && ReferenceOk(t);
  }

  // Both references are mapped, and the image of the second is a parent or related object of the
  // image of the first.
  predicate LeadsAlike(b: Blueprint, from: string, to: string) {
    Image(b, from).Some? && Image(b, to).Some? && Image(b, to).value in OwnersOf(b.references, Image(b, from).value)
  }

  lemma {:induction false} WaysAreMapped(b: Blueprint, p: seq<string>, i: nat)
    requires MappingsOk(b) && forall r :: r in b.references ==> ReferenceOk(r)
    requires Follows(b.references, p) && Image(b, p[0]).Some? && i < |p|
    ensures Image(b, p[i]).Some? && (i > 0 ==> LeadsAlike(b, p[i - 1], p[i]))
  {
    if i > 0 {
      WaysAreMapped(b, p, i - 1);
      OwnedByNext(b.references, p, i - 1);
      MappedOwner(b, p[i - 1], p[i]);
    }
  }

  /** The mappings of an accepted Blueprint keep the structure of what they map: they are one to one,
      and wherever parents and related objects lead from a mapped reference, the images lead the same
      way among the target references. */
  lemma MappingsKeepStructure(raw: Blueprint, b: Blueprint, p: seq<string>)
    requires NewBlueprint(raw) == Some(b)
    requires Follows(b.references, p) && Image(b, p[0]).Some?
    ensures forall i :: 0 <= i < |p| - 1 ==> LeadsAlike(b, p[i], p[i + 1])
    ensures forall x, y :: Image(b, x).Some? && Image(b, x) == Image(b, y) ==> x == y
  {
    BuiltParts(raw, b);
    forall i | 0 <= i < |p| - 1 ensures LeadsAlike(b, p[i], p[i + 1]) {
      WaysAreMapped(b, p, i + 1);
    }
    forall x, y | Image(b, x).Some? && Image(b, x) == Image(b, y) ensures x == y {
      ImagesAreDistinct(b, x, y);
    }
  }

  lemma ImagesAreDistinct(b: Blueprint, x: string, y: string)
    requires MappingsOk(b) && Image(b, x).Some? && Image(b, x) == Image(b, y)
    ensures x == y
  {
    var m, n := Lookup(b.mappings, MappingKey, x).value, Lookup(b.mappings, MappingKey, y).value;
    var i :| 0 <= i < |b.mappings| && b.mappings[i] == m;
    var j :| 0 <= j < |b.mappings| && b.mappings[j] == n;
  }
}
