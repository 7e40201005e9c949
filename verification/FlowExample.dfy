/**
 A small Blueprint that is accepted: an object, a property of it, a workflow that fills the property
 of every new record, the three scenarios a workflow needs, and the source object and property that are
 mapped to these. What is proved of accepted Blueprints
 is therefore proved of something.
 */
module FlowExample {
  import opened Basics
  import opened Ordering
  import opened JsonValues
  import opened FlowModel
  import opened FlowBuild

  const FILL := FieldMapping("rp", Literal(JNull))

  const TRIGGER := Trigger("ro", [], true)
  const ACTION := Action("ro", [FILL], [])
  const GRAPH := WorkflowGraph("w", [Node("a", ACTION), Node("t", TRIGGER)], [Edge("t", "a", false)], true)

  const OBJECT := Resource("o", ObjectSpec("Ticket", "ticket"), [])
  const PROPERTY := Resource("p", PropertySpec("ro", "Stage", "stage", TextType, false), ["o"])
  const WORKFLOW := Resource("w", WorkflowSpec(GRAPH), ["o", "p"])
  const RESOURCES := [OBJECT, PROPERTY, WORKFLOW]

  const OBJECT_REF := Reference("ro", ObjectKind, "o", None, false, true, None)
  const PROPERTY_REF := Reference("rp", PropertyKind, "p", Some("ro"), false, true, None)
  const SOURCE_OBJECT := Reference("so", ObjectKind, "deal", None, true, false, None)
  const SOURCE_PROPERTY := Reference("sp", PropertyKind, "phase", Some("so"), true, false, None)
  const REFERENCES := [OBJECT_REF, PROPERTY_REF, SOURCE_OBJECT, SOURCE_PROPERTY]
  const MAPPINGS := [Mapping("so", "ro"), Mapping("sp", "rp")]

  const CREATION := Event("e", "x", true, map[], map[])
  const UPDATE := Event("e", "x", false, map[], map[])
  const MATCH := Scenario("m", "w", Match, [CREATION], [FILL], [], true)
  const NO_MATCH := Scenario("n", "w", NoMatch, [UPDATE], [], [], true)
  const RETRY := Scenario("r", "w", Retry, [CREATION, CREATION], [FILL], [], true)
  const SCENARIOS := [MATCH, NO_MATCH, RETRY]

  const IDENTITY := ArtifactIdentity("i", "1", "sha256:" + seq(64, _ => '0'))

  const EXAMPLE := Blueprint.Blueprint(true, "b", "1", BlueprintOrigin(false, IDENTITY), IDENTITY,
                                       RESOURCES, REFERENCES, MAPPINGS, SCENARIOS, [], map[])

  // ------------------------------------------------------------------ canonical order

  lemma OneIsUnique<T>(x: T, key: T -> string)
    ensures Unique([x], key) == Some([x])
  {
    AscendingIsSorted([x], key);
  }

  lemma TwoAreUnique<T>(x: T, y: T, key: T -> string)
    requires Less(key(x), key(y))
    ensures Unique([x, y], key) == Some([x, y])
  {
    AscendingIsSorted([x, y], key);
  }

  lemma ThreeAreUnique<T>(x: T, y: T, z: T, key: T -> string)
    requires Less(key(x), key(y)) && Less(key(y), key(z))
    ensures Unique([x, y, z], key) == Some([x, y, z])
  {
    LessIsTransitive(key(x), key(y), key(z));
    AscendingIsSorted([x, y, z], key);
  }

  lemma FourAreUnique<T>(w: T, x: T, y: T, z: T, key: T -> string)
    requires Less(key(w), key(x)) && Less(key(x), key(y)) && Less(key(y), key(z))
    ensures Unique([w, x, y, z], key) == Some([w, x, y, z])
  {
    LessIsTransitive(key(w), key(x), key(y));
    LessIsTransitive(key(x), key(y), key(z));
    LessIsTransitive(key(w), key(x), key(z));
    AscendingIsSorted([w, x, y, z], key);
  }

  // ------------------------------------------------------------------ the parts are constructed

  lemma SpecsAreBuilt()
    ensures NewSpec(TRIGGER) == Some(TRIGGER) && NewSpec(ACTION) == Some(ACTION)
  {
    OneIsUnique(FILL, FieldKey);
  }

  lemma KindsOfGraph()
    ensures Kinds(GRAPH.nodes) == {TriggerKind, ActionKind} && Direct(GRAPH.nodes)
    ensures NodeOf(GRAPH.nodes, TriggerKind).spec == TRIGGER && NodeOf(GRAPH.nodes, ActionKind).spec == ACTION
  {
    assert GRAPH.nodes[0] in GRAPH.nodes && GRAPH.nodes[1] in GRAPH.nodes;
    assert KindOf(GRAPH.nodes[0]) == ActionKind && KindOf(GRAPH.nodes[1]) == TriggerKind;
  }

  lemma ShapeIsRight()
    ensures ShapeOk(GRAPH.nodes, GRAPH.edges, true)
  {
    KindsOfGraph();
    assert NodeOf(GRAPH.nodes, TriggerKind) == GRAPH.nodes[1] && NodeOf(GRAPH.nodes, ActionKind) == GRAPH.nodes[0];
    assert ExpectedEdges(GRAPH.nodes) == {GRAPH.edges[0]};
    assert (set e | e in GRAPH.edges) == {GRAPH.edges[0]};
  }

  lemma GraphPartsAreBuilt()
    ensures GraphPartsOk(GRAPH)
  {
    SpecsAreBuilt();
    assert forall n :: n in GRAPH.nodes ==> n == Node("a", ACTION) || n == Node("t", TRIGGER);
  }

  lemma GraphIsBuilt()
    ensures NewGraph(GRAPH) == Some(GRAPH)
  {
    GraphPartsAreBuilt();
    ShapeIsRight();
    TwoAreUnique(GRAPH.nodes[0], GRAPH.nodes[1], NodeKey);
    OneIsUnique(GRAPH.edges[0], EdgeKey);
    assert GRAPH.nodes == [GRAPH.nodes[0], GRAPH.nodes[1]] && GRAPH.edges == [GRAPH.edges[0]];
  }

  lemma ResourceIsBuilt(r: Resource)
    requires Identifier(r.id) && ResourceSpecOk(r.id, r.spec) && Identifiers(r.dependsOn) == Some(r.dependsOn) && r.id !in r.dependsOn
    ensures NewResource(r) == Some(r)
  {}

  lemma DependenciesAreOrdered()
    ensures Identifiers(WORKFLOW.dependsOn) == Some(WORKFLOW.dependsOn) && "w" !in WORKFLOW.dependsOn
  {
    TwoAreUnique("o", "p", Itself);
  }

  lemma PropertyIsBuilt()
    ensures NewResource(OBJECT) == Some(OBJECT) && NewResource(PROPERTY) == Some(PROPERTY)
  {
    OneIsUnique("o", Itself);
  }

  lemma WorkflowIsBuilt()
    ensures NewResource(WORKFLOW) == Some(WORKFLOW)
  {
    GraphIsBuilt();
    DependenciesAreOrdered();
    ResourceIsBuilt(WORKFLOW);
  }

  lemma EachResourceIsBuilt(r: Resource)
    requires r in RESOURCES
    ensures NewResource(r) == Some(r)
  {
    PropertyIsBuilt();
    WorkflowIsBuilt();
    assert r == OBJECT || r == PROPERTY || r == WORKFLOW;
  }

  lemma ScenariosAreBuilt()
    ensures NewScenario(MATCH) == Some(MATCH) && NewScenario(NO_MATCH) == Some(NO_MATCH) && NewScenario(RETRY) == Some(RETRY)
  {
    OneIsUnique(FILL, FieldKey);
    assert CREATION in MATCH.events && EventOk(CREATION) && EventOk(UPDATE);
  }

  lemma ScenarioIsBuilt(s: Scenario)
    requires s in SCENARIOS
    ensures NewScenario(s) == Some(s)
  {
    ScenariosAreBuilt();
    assert s == MATCH || s == NO_MATCH || s == RETRY;
  }

  lemma IdentityIsBuilt()
    ensures IdentityOk(IDENTITY)
  {
    assert ("sha256:" + seq(64, _ => '0'))[..7] == "sha256:";
  }

  lemma ReferenceIsBuilt(r: Reference)
    requires r in REFERENCES
    ensures ReferenceOk(r)
  {
    assert r == OBJECT_REF || r == PROPERTY_REF || r == SOURCE_OBJECT || r == SOURCE_PROPERTY;
  }

  lemma PartsAreBuilt()
    ensures PartsOk(EXAMPLE)
  {
    IdentityIsBuilt();
    forall r | r in EXAMPLE.resources ensures NewResource(r) == Some(r) { EachResourceIsBuilt(r); }
    forall r | r in EXAMPLE.references ensures ReferenceOk(r) { ReferenceIsBuilt(r); }
    forall s | s in EXAMPLE.scenarios ensures NewScenario(s) == Some(s) { ScenarioIsBuilt(s); }
  }

  // ------------------------------------------------------------------ and fit together

  lemma Finds()
    ensures FindReference(REFERENCES, "ro") == Some(OBJECT_REF) && FindReference(REFERENCES, "rp") == Some(PROPERTY_REF)
    ensures FindReference(REFERENCES, "so") == Some(SOURCE_OBJECT) && FindReference(REFERENCES, "sp") == Some(SOURCE_PROPERTY)
    ensures FindResource(RESOURCES, "o") == Some(OBJECT) && FindResource(RESOURCES, "p") == Some(PROPERTY)
    ensures FindResource(RESOURCES, "w") == Some(WORKFLOW)
  {
    assert OBJECT_REF in REFERENCES && PROPERTY_REF in REFERENCES && SOURCE_OBJECT in REFERENCES && SOURCE_PROPERTY in REFERENCES;
    assert OBJECT in RESOURCES && PROPERTY in RESOURCES && WORKFLOW in RESOURCES;
    assert "ro" != "rp" && "so" != "ro" && "so" != "rp" && "sp" != "ro" && "sp" != "rp" && "so" != "sp";
    assert "o" != "p" && "p" != "w" && "o" != "w";
  }

  lemma ThreeRounds(g: Dependencies)
    requires g == map["o" := {}, "p" := {"o"}, "w" := {"o", "p"}]
    ensures Builds(g)
  {
    assert g.Keys == {"o", "p", "w"} && |g.Keys| == 3 && |g| == |g.Keys|;
    assert Ready(g, Unbuilt(g, 0)) == {"o"};
    assert Unbuilt(g, 1) == {"p", "w"};
    assert Ready(g, Unbuilt(g, 1)) == {"p"};
    assert Unbuilt(g, 2) == {"w"};
    assert Ready(g, Unbuilt(g, 2)) == {"w"};
    assert Unbuilt(g, 3) == {};
  }

  lemma ExampleIds()
    ensures Ids(RESOURCES) == {"o", "p", "w"}
    ensures Elements(WORKFLOW.dependsOn) == {"o", "p"} && Elements(PROPERTY.dependsOn) == {"o"} && Elements(OBJECT.dependsOn) == {}
  {
    assert OBJECT in RESOURCES && PROPERTY in RESOURCES && WORKFLOW in RESOURCES;
    assert WORKFLOW.dependsOn[0] == "o" && WORKFLOW.dependsOn[1] == "p" && PROPERTY.dependsOn[0] == "o";
  }

  lemma ExampleDependencies(g: Dependencies)
    requires g == DependenciesOf(RESOURCES)
    ensures g == map["o" := {}, "p" := {"o"}, "w" := {"o", "p"}]
  {
    Finds();
    ExampleIds();
    assert g.Keys == {"o", "p", "w"};
    assert g["o"] == {} && g["p"] == {"o"} && g["w"] == {"o", "p"};
  }

  lemma RoundsEnd()
    ensures Builds(DependenciesOf(RESOURCES))
  {
    ExampleDependencies(DependenciesOf(RESOURCES));
    ThreeRounds(DependenciesOf(RESOURCES));
  }

  lemma GraphRefers()
    ensures TriggerKind in Kinds(GRAPH.nodes) && GraphRefersWell(GRAPH, REFERENCES)
  {
    KindsOfGraph();
    Finds();
  }

  lemma GraphRefs()
    ensures DirectRefs(WORKFLOW.spec) == {"ro", "rp"}
  {
    assert SpecRefs(TRIGGER) == {"ro"};
    assert FILL in ACTION.fields;
    assert SpecRefs(ACTION) == {"ro", "rp"};
    assert GRAPH.nodes[0] in GRAPH.nodes && GRAPH.nodes[1] in GRAPH.nodes;
  }

  lemma PropertyFits()
    ensures ResourceOkIn(OBJECT, EXAMPLE) && ResourceOkIn(PROPERTY, EXAMPLE)
  {
    Finds();
    assert OwnersOf(REFERENCES, "ro") == {};
    assert UsedRefs(REFERENCES, PROPERTY.spec) == {"ro"};
    assert UsedRefs(REFERENCES, OBJECT.spec) == {};
    assert PROPERTY.dependsOn[0] == "o";
  }

  lemma Owners()
    ensures OwnersOf(REFERENCES, "ro") == {} && OwnersOf(REFERENCES, "rp") == {"ro"} && OwnersOf(REFERENCES, "sp") == {"so"}
  {
    Finds();
  }

  // Uses of an object and its property alone.
  lemma UsesOfTwo(refs: seq<Reference>, spec: ResourceSpec)
    requires DirectRefs(spec) == {"ro", "rp"} && OwnersOf(refs, "ro") == {} && OwnersOf(refs, "rp") == {"ro"}
    ensures UsedRefs(refs, spec) == {"ro", "rp"}
  {
  }

  lemma WorkflowUses()
    ensures UsedRefs(REFERENCES, WORKFLOW.spec) == {"ro", "rp"}
  {
    GraphRefs();
    Owners();
    UsesOfTwo(REFERENCES, WORKFLOW.spec);
  }

  lemma UsesAreDeclared()
    ensures forall id :: id in UsedRefs(REFERENCES, WORKFLOW.spec) ==>
              var u := FindReference(REFERENCES, id); u.Some? && u.value.key in WORKFLOW.dependsOn
  {
    WorkflowUses();
    Finds();
    assert WORKFLOW.dependsOn[0] == "o" && WORKFLOW.dependsOn[1] == "p";
  }

  lemma WorkflowFits()
    ensures ResourceOkIn(WORKFLOW, EXAMPLE)
  {
    GraphRefers();
    UsesAreDeclared();
    assert EXAMPLE.references == REFERENCES;
  }

  lemma ResourcesFit()
    ensures forall r :: r in RESOURCES ==> ResourceOkIn(r, EXAMPLE)
  {
    PropertyFits();
    WorkflowFits();
    assert forall r :: r in RESOURCES ==> r == OBJECT || r == PROPERTY || r == WORKFLOW;
  }

  lemma EventsFit(s: Scenario)
    requires s in SCENARIOS
    ensures TriggerKind in Kinds(GRAPH.nodes) && ActionKind in Kinds(GRAPH.nodes)
    ensures forall e :: e in s.events ==> EventSuits(e, s, GRAPH, REFERENCES)
  {
    KindsOfGraph();
    assert s == MATCH || s == NO_MATCH || s == RETRY;
    assert forall e :: e in s.events ==> e == CREATION || e == UPDATE;
  }

  lemma ScenarioFits(s: Scenario)
    requires s in SCENARIOS
    ensures TriggerKind in Kinds(GRAPH.nodes) && ActionKind in Kinds(GRAPH.nodes) && ScenarioSuits(s, GRAPH, REFERENCES)
  {
    KindsOfGraph();
    EventsFit(s);
    FillFits();
    assert s == MATCH || s == NO_MATCH || s == RETRY;
    assert forall f :: f in s.expectedFields ==> f == FILL;
    if s != NO_MATCH {
      assert s.expectedFields == ACTION.fields && s.expectedAssociations == ACTION.associations;
    }
  }

  lemma FillFits()
    ensures Requires(REFERENCES, FILL.fieldRef, PropertyKind, Some("ro")) && BindingRefersWell(FILL.value, REFERENCES, "ro")
  {
    Finds();
  }

  lemma ScenariosFit()
    ensures forall s :: s in SCENARIOS ==> ScenarioOkIn(s, EXAMPLE)
  {
    KindsOfGraph();
    Finds();
    forall s | s in SCENARIOS ensures ScenarioOkIn(s, EXAMPLE) {
      ScenarioFits(s);
      assert s.workflowId == "w";
    }
  }

  lemma AllCasesCovered()
    ensures Covered(EXAMPLE)
  {
    assert MATCH in SCENARIOS && NO_MATCH in SCENARIOS && RETRY in SCENARIOS;
    assert (set s | s in SCENARIOS && s.workflowId == "w" && s.required :: s.case_) == {NoMatch, Match, Retry};
  }

  lemma ReferencesFit()
    ensures IndexOk(REFERENCES) && BindingsOk(EXAMPLE) && MappingsOk(EXAMPLE)
  {
    IndexFits();
    BindingsFit();
    MappingsFit();
  }

  lemma IndexFits()
    ensures IndexOk(REFERENCES)
  {
    Finds();
    forall r, id | r in REFERENCES && Owner(r, id) ensures r == PROPERTY_REF || r == SOURCE_PROPERTY {
    }
  }

  lemma BindingsFit()
    ensures BindingsOk(EXAMPLE)
  {
    Finds();
    assert PlannedOk(OBJECT_REF, RESOURCES) && PlannedOk(PROPERTY_REF, RESOURCES);
    assert ExistingOk(SOURCE_OBJECT, REFERENCES) && ExistingOk(SOURCE_PROPERTY, REFERENCES);
    assert forall r :: r in REFERENCES ==> r == OBJECT_REF || r == PROPERTY_REF || r == SOURCE_OBJECT || r == SOURCE_PROPERTY;
  }

  lemma MappingsFit()
    ensures MappingsOk(EXAMPLE)
  {
    Finds();
    ObjectIsMapped();
    assert forall m :: m in MAPPINGS ==> m == MAPPINGS[0] || m == MAPPINGS[1];
  }

  lemma ObjectIsMapped()
    ensures Mapped(MAPPINGS, SOURCE_PROPERTY.parent, PROPERTY_REF.parent)
  {
    assert MAPPINGS[0] in MAPPINGS;
    assert Lookup(MAPPINGS, MappingKey, "so") == Some(MAPPINGS[0]);
  }

  lemma ExampleValidates()
    ensures Validates(EXAMPLE)
  {
    RoundsEnd();
    ReferencesFit();
    ResourcesFit();
    ScenariosFit();
    AllCasesCovered();
  }

  lemma ExampleIsCanonical()
    ensures Unique(RESOURCES, ResourceKey) == Some(RESOURCES) && Unique(REFERENCES, ReferenceKey) == Some(REFERENCES)
    ensures Unique(SCENARIOS, ScenarioKey) == Some(SCENARIOS) && Unique(MAPPINGS, MappingKey) == Some(MAPPINGS) && SortBy([], FindingKey) == []
  {
    ThreeAreUnique(OBJECT, PROPERTY, WORKFLOW, ResourceKey);
    FourAreUnique(OBJECT_REF, PROPERTY_REF, SOURCE_OBJECT, SOURCE_PROPERTY, ReferenceKey);
    TwoAreUnique(MAPPINGS[0], MAPPINGS[1], MappingKey);
    assert MAPPINGS == [MAPPINGS[0], MAPPINGS[1]];
    ThreeAreUnique(MATCH, NO_MATCH, RETRY, ScenarioKey);
  }

  /** The example is accepted, exactly as it is written. */
  lemma ExampleIsAccepted()
    ensures NewBlueprint(EXAMPLE) == Some(EXAMPLE)
  {
    PartsAreBuilt();
    ExampleIsCanonical();
    ExampleValidates();
  }

  lemma PropertyIsMapped()
    ensures Image(EXAMPLE, "sp") == Some("rp") && OwnersOf(EXAMPLE.references, "sp") == {"so"}
  {
    Owners();
    assert MAPPINGS[0] in MAPPINGS && MAPPINGS[1] in MAPPINGS;
    assert Lookup(MAPPINGS, MappingKey, "sp") == Some(MAPPINGS[1]);
  }

  lemma OwnedLeadsAlike(b: Blueprint, id: string, owner: string)
    requires NewBlueprint(b) == Some(b) && Image(b, id).Some? && owner in OwnersOf(b.references, id)
    ensures LeadsAlike(b, id, owner)
  {
    var p := [id, owner];
    assert p[0] == id && p[1] == owner;
    MappingsKeepStructure(b, b, p);
  }

  /** And its mapped property leads to its mapped object. */
  lemma MappedPropertyLeadsToMappedObject()
    ensures Image(EXAMPLE, "sp") == Some("rp") && LeadsAlike(EXAMPLE, "sp", "so")
  {
    PropertyIsMapped();
    ExampleIsAccepted();
    OwnedLeadsAlike(EXAMPLE, "sp", "so");
  }
}
