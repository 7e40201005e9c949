/**
 Construction is canonical: every Flow constructor is blind to the order in which a collection is
 given, and constructing again from what was constructed changes nothing.
 */
module FlowCanonical {
  import opened Basics
  import opened Ordering
  import opened FlowModel

  lemma SameElements<T>(xs: seq<T>, ys: seq<T>)
    requires multiset(xs) == multiset(ys)
    ensures forall x :: x in xs <==> x in ys
  {
    forall x ensures x in xs <==> x in ys {
      assert x in xs <==> x in multiset(xs);
      assert x in ys <==> x in multiset(ys);
    }
  }

  // ------------------------------------------------------------------ identifiers and node specs

  lemma IdentifiersAreCanonical(xs: seq<string>, ys: seq<string>)
    requires multiset(xs) == multiset(ys)
    ensures Identifiers(xs) == Identifiers(ys)
  {
    SameElements(xs, ys);
    UniqueIsCanonical(xs, ys, Itself);
    assert (forall i :: 0 <= i < |xs| ==> Identifier(xs[i])) <==> forall x :: x in xs ==> Identifier(x);
    assert (forall i :: 0 <= i < |ys| ==> Identifier(ys[i])) <==> forall y :: y in ys ==> Identifier(y);
  }

  lemma TriggersAreCanonical(t: NodeSpec, u: NodeSpec)
    requires t.Trigger? && u.Trigger? && u == t.(changedFields := u.changedFields)
    requires multiset(t.changedFields) == multiset(u.changedFields)
    ensures NewSpec(t) == NewSpec(u)
  {
    IdentifiersAreCanonical(t.changedFields, u.changedFields);
  }

  lemma ActionsAreCanonical(a: NodeSpec, b: NodeSpec)
    requires a.Action? && b.Action? && a.objectRef == b.objectRef
    requires multiset(a.fields) == multiset(b.fields) && multiset(a.associations) == multiset(b.associations)
    ensures NewSpec(a) == NewSpec(b)
  {
    SameElements(a.fields, b.fields);
    SameElements(a.associations, b.associations);
    UniqueIsCanonical(a.fields, b.fields, FieldKey);
    UniqueIsCanonical(a.associations, b.associations, AssociationKey);
  }

  lemma SpecsSettle(raw: NodeSpec, x: NodeSpec)
    requires NewSpec(raw) == Some(x)
    ensures NewSpec(x) == Some(x)
  {
    match raw
    case Trigger(_, _, _) => TriggersAreCanonical(raw, x);
    case Condition(_, _) =>
    case Action(_, _, _) => ActionsAreCanonical(raw, x);
  }

  // ------------------------------------------------------------------ graphs

  lemma IdentifiersHaveNoNul(s: string)
    requires Identifier(s)
    ensures NoNul(s)
  {
    forall i | 0 <= i < |s| ensures s[i] > '\0' { assert IsIdentifierChar(s[i]); }
  }

  lemma SameEdge(nodes: seq<Node>, e: Edge, f: Edge)
    requires Conditional(nodes) || Direct(nodes)
    requires e in ExpectedEdges(nodes) && f in ExpectedEdges(nodes) && EdgeOk(e) && EdgeOk(f)
    requires EdgeKey(e) == EdgeKey(f)
    ensures e == f
  {
    IdentifiersHaveNoNul(e.source);
    IdentifiersHaveNoNul(f.source);
    JoinedOrder(e.source, e.target, f.source, f.target);
  }

  lemma EdgeKeysTell(nodes: seq<Node>, edges: seq<Edge>, v2: bool)
    requires (forall e :: e in edges ==> EdgeOk(e)) && ShapeOk(nodes, edges, v2)
    ensures KeyTells(edges, EdgeKey)
  {
    forall i, j | 0 <= i < |edges| && 0 <= j < |edges| && EdgeKey(edges[i]) == EdgeKey(edges[j])
      ensures edges[i] == edges[j]
    {
      assert edges[i] in edges && edges[j] in edges;
      assert edges[i] in (set x | x in edges) && edges[j] in (set x | x in edges);
      SameEdge(nodes, edges[i], edges[j]);
    }
  }

  lemma ShapeIsOrderBlind(nodes: seq<Node>, edges: seq<Edge>, others: seq<Edge>, v2: bool)
    requires multiset(edges) == multiset(others)
    ensures ShapeOk(nodes, edges, v2) <==> ShapeOk(nodes, others, v2)
  {
    SameElements(edges, others);
    assert |edges| == |multiset(edges)| == |others|;
    assert (set e | e in edges) == (set e | e in others);
  }

  lemma EdgesSortAlike(nodes: seq<Node>, edges: seq<Edge>, others: seq<Edge>, v2: bool)
    requires (forall e :: e in edges ==> EdgeOk(e)) && multiset(edges) == multiset(others)
    ensures ShapeOk(nodes, edges, v2) <==> ShapeOk(nodes, others, v2)
    ensures ShapeOk(nodes, edges, v2) ==> SortBy(edges, EdgeKey) == SortBy(others, EdgeKey)
  {
    ShapeIsOrderBlind(nodes, edges, others, v2);
    if ShapeOk(nodes, edges, v2) {
      EdgeKeysTell(nodes, edges, v2);
      SortIsCanonical(edges, others, EdgeKey);
    }
  }

  lemma GraphPartsAreOrderBlind(g: WorkflowGraph, h: WorkflowGraph)
    requires g.id == h.id && multiset(g.nodes) == multiset(h.nodes) && multiset(g.edges) == multiset(h.edges)
    ensures GraphPartsOk(g) <==> GraphPartsOk(h)
  {
    SameElements(g.nodes, h.nodes);
    SameElements(g.edges, h.edges);
  }

  lemma GraphsAreCanonical(g: WorkflowGraph, h: WorkflowGraph)
    requires g.id == h.id && g.v2 == h.v2
    requires multiset(g.nodes) == multiset(h.nodes) && multiset(g.edges) == multiset(h.edges)
    ensures NewGraph(g) == NewGraph(h)
  {
    GraphPartsAreOrderBlind(g, h);
    UniqueIsCanonical(g.nodes, h.nodes, NodeKey);
    var nodes := Unique(g.nodes, NodeKey);
    if nodes.Some? && GraphPartsOk(g) {
      EdgesSortAlike(nodes.value, g.edges, h.edges, g.v2);
    }
  }

  lemma GraphsSettle(raw: WorkflowGraph, g: WorkflowGraph)
    requires NewGraph(raw) == Some(g)
    ensures NewGraph(g) == Some(g)
  {
    GraphsAreCanonical(raw, g);
  }

  // ------------------------------------------------------------------ scenarios and resources

  lemma ScenariosAreCanonical(s: Scenario, t: Scenario)
    requires t == s.(expectedFields := t.expectedFields, expectedAssociations := t.expectedAssociations)
    requires multiset(s.expectedFields) == multiset(t.expectedFields)
    requires multiset(s.expectedAssociations) == multiset(t.expectedAssociations)
    ensures NewScenario(s) == NewScenario(t)
  {
    SameElements(s.expectedFields, t.expectedFields);
    SameElements(s.expectedAssociations, t.expectedAssociations);
    UniqueIsCanonical(s.expectedFields, t.expectedFields, FieldKey);
    UniqueIsCanonical(s.expectedAssociations, t.expectedAssociations, AssociationKey);
  }

  lemma ScenariosSettle(raw: Scenario, s: Scenario)
    requires NewScenario(raw) == Some(s)
    ensures NewScenario(s) == Some(s)
  {
    ScenariosAreCanonical(raw, s);
  }

  lemma ResourcesAreCanonical(r: Resource, q: Resource)
    requires q == r.(dependsOn := q.dependsOn) && multiset(r.dependsOn) == multiset(q.dependsOn)
    ensures NewResource(r) == NewResource(q)
  {
    IdentifiersAreCanonical(r.dependsOn, q.dependsOn);
  }

  lemma ResourcesSettle(raw: Resource, r: Resource)
    requires NewResource(raw) == Some(r)
    ensures NewResource(r) == Some(r)
  {
    ResourcesAreCanonical(raw, r);
  }

  // ------------------------------------------------------------------ Blueprints

  function NodeText(f: Finding): string { if f.nodeId.Some? then f.nodeId.value else "" }

  lemma FindingKeysTell(findings: seq<Finding>)
    requires forall f :: f in findings ==> FindingOk(f)
    ensures KeyTells(findings, FindingKey)
  {
    forall i, j | 0 <= i < |findings| && 0 <= j < |findings| && FindingKey(findings[i]) == FindingKey(findings[j])
      ensures findings[i] == findings[j]
    {
      var f, g := findings[i], findings[j];
      assert f in findings && g in findings;
      SameFinding(f, g);
    }
  }

  lemma SameFinding(f: Finding, g: Finding)
    requires FindingOk(f) && FindingOk(g) && FindingKey(f) == FindingKey(g)
    ensures f == g
  {
    IdentifiersHaveNoNul(f.code);
    IdentifiersHaveNoNul(g.code);
    if f.nodeId.Some? { IdentifiersHaveNoNul(f.nodeId.value); }
    if g.nodeId.Some? { IdentifiersHaveNoNul(g.nodeId.value); }
    JoinedOrder(f.code, Joined(NodeText(f), f.message), g.code, Joined(NodeText(g), g.message));
    JoinedOrder(NodeText(f), f.message, NodeText(g), g.message);
  }

  // The same Blueprint, with every collection in some other order.
  ghost predicate Reordered(a: Blueprint, b: Blueprint) {
    && b == a.(resources := b.resources, references := b.references, mappings := b.mappings,
               scenarios := b.scenarios, unsupported := b.unsupported)
    && multiset(a.resources) == multiset(b.resources)
    && multiset(a.references) == multiset(b.references)
    && multiset(a.mappings) == multiset(b.mappings)
    && multiset(a.scenarios) == multiset(b.scenarios)
    && multiset(a.unsupported) == multiset(b.unsupported)
  }

  lemma PartsAreOrderBlind(a: Blueprint, b: Blueprint)
    requires Reordered(a, b)
    ensures PartsOk(a) <==> PartsOk(b)
  {
    SameElements(a.resources, b.resources);
    SameElements(a.references, b.references);
    SameElements(a.mappings, b.mappings);
    SameElements(a.scenarios, b.scenarios);
    SameElements(a.unsupported, b.unsupported);
  }

  /** The order in which resources, references, mappings, scenarios and findings are given makes no
      difference to whether a Blueprint is accepted nor to the Blueprint that is built. */
  lemma BlueprintsAreCanonical(a: Blueprint, b: Blueprint)
    requires Reordered(a, b)
    ensures NewBlueprint(a) == NewBlueprint(b)
  {
    PartsAreOrderBlind(a, b);
    UniqueIsCanonical(a.resources, b.resources, ResourceKey);
    UniqueIsCanonical(a.references, b.references, ReferenceKey);
    UniqueIsCanonical(a.mappings, b.mappings, MappingKey);
    UniqueIsCanonical(a.scenarios, b.scenarios, ScenarioKey);
    if PartsOk(a) {
      FindingKeysTell(a.unsupported);
      SortIsCanonical(a.unsupported, b.unsupported, FindingKey);
    }
  }

  /** What was built is built again, unchanged, from its own parts. */
  lemma BlueprintsSettle(raw: Blueprint, b: Blueprint)
    requires NewBlueprint(raw) == Some(b)
    ensures NewBlueprint(b) == Some(b)
  {
    BlueprintsAreCanonical(raw, b);
  }
}
