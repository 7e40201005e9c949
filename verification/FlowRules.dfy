/**
 What acceptance promises of a Blueprint, said of its parts and of nothing else: which references there
 are and where they lead, what shape a workflow has, what its nodes read and write, and what its
 scenarios supply.
 */
module FlowRules {
  import opened Basics
  import opened Ordering
  import opened JsonValues
  import opened FlowModel
  import opened FlowBuild
  import opened FlowProgress

  // ------------------------------------------------------------------ references

  // The one reference with an identity, on the target's side, of this kind and, if one is named, this owner.
  ghost predicate Names(refs: seq<Reference>, id: string, kind: RefKind, owner: Option<string>) {
    exists r :: r in refs && r.id == id && r.kind == kind && !r.source && (owner.Some? ==> r.parent == owner)
  }

  // Identities tell references apart.
  ghost predicate Told(refs: seq<Reference>) {
    forall i, j :: 0 <= i < j < |refs| ==>
      && refs[i].id != refs[j].id
      && !(refs[i].source == refs[j].source && refs[i].kind == refs[j].kind && refs[i].parent == refs[j].parent
           && refs[i].planned == refs[j].planned && refs[i].key == refs[j].key)
  }

  // A reference belongs to an object of its own side, unless it is one; a relationship leads to one as well.
  ghost predicate Belongs(refs: seq<Reference>, r: Reference) {
    && (r.kind == ObjectKind <==> r.parent == None) && (r.kind == RelationshipKind <==> r.related != None)
    && (forall id :: r.parent == Some(id) || r.related == Some(id) ==>
          exists o :: o in refs && o.id == id && o.kind == ObjectKind && o.source == r.source)
  }

  // A planned reference is the plan of one resource of its kind; an existing one does not belong to a plan.
  ghost predicate PlannedOrExisting(b: Blueprint, r: Reference) {
    if r.planned then
      && !r.source
      && exists d :: d in b.resources && d.id == r.key
           && ((r.kind == ObjectKind && d.spec.ObjectSpec?) || (r.kind == PropertyKind && d.spec.PropertySpec? && r.parent == Some(d.spec.objectRef)))
    else
      forall o :: o in b.references && r.parent == Some(o.id) ==> !o.planned
  }

  lemma RequiredIsNamed(refs: seq<Reference>, id: string, kind: RefKind, owner: Option<string>)
    requires Requires(refs, id, kind, owner)
    ensures Names(refs, id, kind, owner)
  {
    assert FindReference(refs, id).value in refs;
  }

  lemma FoundIsTheOne(refs: seq<Reference>, o: Reference)
    requires DistinctKeys(refs, ReferenceKey) && o in refs
    ensures FindReference(refs, o.id) == Some(o)
  {
    var found := FindReference(refs, o.id);
    var i :| 0 <= i < |refs| && refs[i] == o;
    var j :| 0 <= j < |refs| && refs[j] == found.value;
    assert ReferenceKey(refs[i]) == o.id && ReferenceKey(refs[j]) == o.id;
  }

  lemma BuiltReferences(raw: Blueprint, b: Blueprint)
    requires NewBlueprint(raw) == Some(b)
    ensures DistinctKeys(b.references, ReferenceKey) && DistinctKeys(b.mappings, MappingKey) && IndexOk(b.references) && BindingsOk(b) && MappingsOk(b)
    ensures forall r :: r in b.references ==> ReferenceOk(r)
  {
    BuiltParts(raw, b);
    SortAscends(raw.references, ReferenceKey);
    AscendingIsSorted(b.references, ReferenceKey);
    SortAscends(raw.mappings, MappingKey);
    AscendingIsSorted(b.mappings, MappingKey);
  }

  /** References: no identity and no meaning twice; each belongs to an object of its own side; planned ones
      are resources of the Blueprint; a template maps nothing and knows no source. */
  lemma ReferencesAreSound(raw: Blueprint, b: Blueprint, r: Reference)
    requires NewBlueprint(raw) == Some(b) && r in b.references
    ensures Told(b.references) && Belongs(b.references, r) && PlannedOrExisting(b, r)
    ensures b.origin.template ==> b.mappings == [] && !r.source
  {
    BuiltReferences(raw, b);
    ReferencesAreTold(b.references);
    ReferenceBelongs(b.references, r);
    ReferenceIsPlannedOrExists(b, r);
  }

  lemma ReferencesAreTold(refs: seq<Reference>)
    requires DistinctKeys(refs, ReferenceKey) && IndexOk(refs)
    ensures Told(refs)
  {
    forall i, j | 0 <= i < j < |refs| ensures refs[i].id != refs[j].id { assert ReferenceKey(refs[i]) != ReferenceKey(refs[j]); }
  }

  lemma ReferenceBelongs(refs: seq<Reference>, r: Reference)
    requires IndexOk(refs) && ReferenceOk(r) && r in refs
    ensures Belongs(refs, r)
  {
    forall id | r.parent == Some(id) || r.related == Some(id)
      ensures exists o :: o in refs && o.id == id && o.kind == ObjectKind && o.source == r.source
    {
      assert Owner(r, id);
      assert FindReference(refs, id).value in refs;
    }
  }

  lemma ReferenceIsPlannedOrExists(b: Blueprint, r: Reference)
    requires BindingsOk(b) && DistinctKeys(b.references, ReferenceKey) && r in b.references && ReferenceOk(r)
    ensures PlannedOrExisting(b, r)
  {
    if r.planned {
      assert FindResource(b.resources, r.key).value in b.resources;
    } else {
      forall o | o in b.references && r.parent == Some(o.id) ensures !o.planned { FoundIsTheOne(b.references, o); }
    }
  }

  /** Mappings lead from the source to the target, keep the kind, and neither side occurs twice. */
  lemma MappingsAreSound(raw: Blueprint, b: Blueprint, i: nat)
    requires NewBlueprint(raw) == Some(b) && i < |b.mappings|
    ensures forall j :: 0 <= j < |b.mappings| && j != i ==> b.mappings[j].sourceRef != b.mappings[i].sourceRef && b.mappings[j].targetRef != b.mappings[i].targetRef
    ensures !b.origin.template
    ensures exists s, t :: s in b.references && t in b.references && s.id == b.mappings[i].sourceRef && t.id == b.mappings[i].targetRef
                           && s.source && !t.source && s.kind == t.kind
  {
    BuiltReferences(raw, b);
    var m := b.mappings[i];
    assert m in b.mappings;
    var s, t := FindReference(b.references, m.sourceRef).value, FindReference(b.references, m.targetRef).value;
    assert s in b.references && t in b.references;
    forall j | 0 <= j < |b.mappings| && j != i ensures b.mappings[j].sourceRef != m.sourceRef && b.mappings[j].targetRef != m.targetRef {
      if i < j { assert MappingKey(b.mappings[i]) != MappingKey(b.mappings[j]); } else { assert MappingKey(b.mappings[j]) != MappingKey(b.mappings[i]); }
    }
  }

  // ------------------------------------------------------------------ the shape of a workflow

  // A trigger, an action and, between them, perhaps a condition; the edges say so.
  ghost predicate Shaped(g: WorkflowGraph) {
    || (exists t, a ::
          && t in g.nodes && a in g.nodes && t.spec.Trigger? && a.spec.Action? && |g.nodes| == 2 && g.v2
          && g.edges == [Edge(t.id, a.id, false)])
    || (|g.nodes| == 3 && exists t, c, a :: Chained(g, t, c, a))
  }

  // What each node is made of.
  ghost predicate WellMade(spec: NodeSpec) {
    match spec
    case Trigger(objectRef, changedFields, created) =>
      && Identifier(objectRef) && (created <==> changedFields == []) && Ascending(changedFields, Itself)
      && forall i :: 0 <= i < |changedFields| ==> Identifier(changedFields[i])
    case Condition(left, right) => true
    case Action(objectRef, fields, associations) =>
      && Identifier(objectRef) && fields != [] && Ascending(fields, FieldKey) && Ascending(associations, AssociationKey)
      && forall i :: 0 <= i < |associations| ==> associations[i].record.EventRecord? || associations[i].record.ToReference?
  }

  lemma SpecIsWellMade(spec: NodeSpec)
    requires NewSpec(spec) == Some(spec)
    ensures WellMade(spec)
  {
    match spec
    case Trigger(_, changedFields, _) =>
      SortAscends(changedFields, Itself);
    case Condition(_, _) =>
    case Action(_, fields, associations) =>
      SortAscends(fields, FieldKey);
      SortAscends(associations, AssociationKey);
      forall i | 0 <= i < |associations| ensures associations[i].record.EventRecord? || associations[i].record.ToReference? {
        assert associations[i] in associations;
      }
  }

  lemma DirectIsShaped(g: WorkflowGraph)
    requires Direct(g.nodes) && ShapeOk(g.nodes, g.edges, g.v2)
    ensures Shaped(g)
  {
    var t, a := NodeOf(g.nodes, TriggerKind), NodeOf(g.nodes, ActionKind);
    assert ConditionKind !in Kinds(g.nodes);
    var e := Edge(t.id, a.id, false);
    assert (set x | x in g.edges) == {e} && |g.edges| == 1;
    assert g.edges[0] in (set x | x in g.edges);
    assert g.edges == [e];
  }

  lemma TwoEdges(edges: seq<Edge>, e: Edge, f: Edge)
    requires e != f && |edges| == |{e, f}| && (set x | x in edges) == {e, f}
    ensures |edges| == 2 && e in edges && f in edges && edges[0] != edges[1]
  {
    assert e in (set x | x in edges) && f in (set x | x in edges);
    var i :| 0 <= i < |edges| && edges[i] == e;
    var j :| 0 <= j < |edges| && edges[j] == f;
  }

  // The three kinds of node that a conditional graph has.
  ghost predicate Chained(g: WorkflowGraph, t: Node, c: Node, a: Node) {
    && t in g.nodes && c in g.nodes && a in g.nodes && t.spec.Trigger? && c.spec.Condition? && a.spec.Action?
    && |g.edges| == 2 && Edge(t.id, c.id, false) in g.edges && Edge(c.id, a.id, true) in g.edges && g.edges[0] != g.edges[1]
  }

  lemma ConditionalIsShaped(g: WorkflowGraph)
    requires Conditional(g.nodes) && ShapeOk(g.nodes, g.edges, g.v2)
    ensures Shaped(g)
  {
    var t, c, a := NodeOf(g.nodes, TriggerKind), NodeOf(g.nodes, ConditionKind), NodeOf(g.nodes, ActionKind);
    ExpectedTwo(g.nodes);
    TwoEdges(g.edges, Edge(t.id, c.id, false), Edge(c.id, a.id, true));
    assert Chained(g, t, c, a);
  }

  lemma ExpectedTwo(nodes: seq<Node>)
    requires Conditional(nodes)
    ensures var t, c, a := NodeOf(nodes, TriggerKind), NodeOf(nodes, ConditionKind), NodeOf(nodes, ActionKind);
            ExpectedEdges(nodes) == {Edge(t.id, c.id, false), Edge(c.id, a.id, true)}
  {
  }

  // ------------------------------------------------------------------ what a workflow reads and writes

  // A binding reads a property of the triggering object, or a record of the target, or nothing.
  ghost predicate Reads(refs: seq<Reference>, b: Binding, eventObject: string) {
    match b
    case Literal(_) => true
    case EventRecord => true
    case EventField(f, before) => Names(refs, f, PropertyKind, Some(eventObject))
    case ToReference(r) => Names(refs, r, RecordKind, None)
  }

  // What a node reads and writes in a graph triggered on an object; records that are created have no past.
  ghost predicate NodeReads(refs: seq<Reference>, spec: NodeSpec, eventObject: string, created: bool) {
    match spec
    case Trigger(objectRef, fields, _) =>
      objectRef == eventObject && Names(refs, objectRef, ObjectKind, None) && forall f :: f in fields ==> Names(refs, f, PropertyKind, Some(objectRef))
    case Condition(left, right) =>
      Reads(refs, left, eventObject) && Reads(refs, right, eventObject) && (created ==> !ReadsBefore(left) && !ReadsBefore(right))
    case Action(objectRef, fields, associations) =>
      && Names(refs, objectRef, ObjectKind, None)
      && (forall f :: f in fields ==>
            Names(refs, f.fieldRef, PropertyKind, Some(objectRef)) && Reads(refs, f.value, eventObject) && (created ==> !ReadsBefore(f.value)))
      && forall a :: a in associations ==> Associated(refs, a, eventObject, objectRef)
  }

  // A relationship of the created object leads to the object of the record it is given.
  ghost predicate Associated(refs: seq<Reference>, a: Association, eventObject: string, objectRef: string) {
    exists r :: r in refs && r.id == a.relationshipRef && r.kind == RelationshipKind && !r.source && r.parent == Some(objectRef)
      && match a.record
         case EventRecord => r.related == Some(eventObject)
         case ToReference(id) => exists x :: x in refs && x.id == id && x.kind == RecordKind && !x.source && x.parent == r.related
         case _ => false
  }

  lemma BindingReads(refs: seq<Reference>, b: Binding, eventObject: string)
    requires BindingRefersWell(b, refs, eventObject)
    ensures Reads(refs, b, eventObject)
  {
    match b
    case EventField(f, _) => RequiredIsNamed(refs, f, PropertyKind, Some(eventObject));
    case ToReference(r) => RequiredIsNamed(refs, r, RecordKind, None);
    case _ =>
  }

  lemma AssociationLeads(refs: seq<Reference>, a: Association, eventObject: string, objectRef: string)
    requires AssociationOk(a) && AssociationRefersWell(a, refs, eventObject, objectRef)
    ensures Associated(refs, a, eventObject, objectRef)
  {
    var r := FindReference(refs, a.relationshipRef).value;
    assert r in refs;
    if a.record.ToReference? {
      assert FindReference(refs, a.record.referenceId).value in refs;
    }
  }

  lemma NodeReadsWell(refs: seq<Reference>, g: WorkflowGraph, spec: NodeSpec, trigger: NodeSpec)
    requires trigger.Trigger? && SpecRefersWell(spec, refs, trigger) && NewSpec(spec) == Some(spec)
    requires Requires(refs, trigger.objectRef, ObjectKind, None)
    requires spec.Trigger? ==> spec == trigger && forall f :: f in trigger.changedFields ==> Requires(refs, f, PropertyKind, Some(trigger.objectRef))
    ensures NodeReads(refs, spec, trigger.objectRef, trigger.created)
  {
    match spec
    case Trigger(objectRef, fields, _) =>
      RequiredIsNamed(refs, objectRef, ObjectKind, None);
      forall f | f in fields ensures Names(refs, f, PropertyKind, Some(objectRef)) { RequiredIsNamed(refs, f, PropertyKind, Some(objectRef)); }
    case Condition(left, right) =>
      assert left in Bindings(spec) && right in Bindings(spec);
      BindingReads(refs, left, trigger.objectRef);
      BindingReads(refs, right, trigger.objectRef);
    case Action(objectRef, fields, associations) =>
      RequiredIsNamed(refs, objectRef, ObjectKind, None);
      forall f | f in fields
        ensures Names(refs, f.fieldRef, PropertyKind, Some(objectRef)) && Reads(refs, f.value, trigger.objectRef) && (trigger.created ==> !ReadsBefore(f.value))
      {
        assert f.value in Bindings(spec);
        RequiredIsNamed(refs, f.fieldRef, PropertyKind, Some(objectRef));
        BindingReads(refs, f.value, trigger.objectRef);
      }
      forall a | a in associations ensures Associated(refs, a, trigger.objectRef, objectRef) { AssociationLeads(refs, a, trigger.objectRef, objectRef); }
  }

  // There is one node of each kind.
  lemma OneOfEachKind(nodes: seq<Node>, n: Node)
    requires (Conditional(nodes) || Direct(nodes)) && n in nodes
    ensures KindOf(n) in Kinds(nodes) && n == NodeOf(nodes, KindOf(n))
  {
    assert KindOf(n) in Kinds(nodes);
    var i :| 0 <= i < |nodes| && nodes[i] == n;
    var j := PlaceOfKind(nodes, KindOf(n));
    var t, a := PlaceOfKind(nodes, TriggerKind), PlaceOfKind(nodes, ActionKind);
    if Conditional(nodes) {
      var c := PlaceOfKind(nodes, ConditionKind);
      assert i == if KindOf(n) == TriggerKind then t else if KindOf(n) == ActionKind then a else c;
    }
  }

  function PlaceOfKind(nodes: seq<Node>, kind: NodeKind): (i: nat)
    requires kind in Kinds(nodes)
    ensures i < |nodes| && nodes[i] == NodeOf(nodes, kind) && KindOf(nodes[i]) == kind
  {
    if KindOf(nodes[0]) == kind then 0 else
    var n := NodeOf(nodes, kind);
    assert n in nodes[1..];
    1 + PlaceOfKind(nodes[1..], kind)
  }

  // What an accepted workflow is, with its one trigger.
  ghost predicate SoundWorkflow(b: Blueprint, g: WorkflowGraph, trigger: NodeSpec) {
    && g.v2 == b.v2 && Shaped(g) && trigger.Trigger? && (exists n :: n in g.nodes && n.spec == trigger) && (!g.v2 ==> !trigger.created)
    && (forall n :: n in g.nodes ==> Identifier(n.id) && WellMade(n.spec) && NodeReads(b.references, n.spec, trigger.objectRef, trigger.created))
    && forall i, j :: 0 <= i < j < |g.nodes| ==> g.nodes[i].id != g.nodes[j].id
  }

  lemma GraphIsShaped(g: WorkflowGraph)
    requires NewGraph(g) == Some(g)
    ensures Shaped(g) && (Conditional(g.nodes) || Direct(g.nodes)) && (!g.v2 ==> TriggerKind in Kinds(g.nodes) && !NodeOf(g.nodes, TriggerKind).spec.created)
  {
    GraphHasShape(g);
    if Conditional(g.nodes) { ConditionalIsShaped(g); } else { DirectIsShaped(g); }
  }

  lemma GraphHasShape(g: WorkflowGraph)
    requires NewGraph(g) == Some(g)
    ensures ShapeOk(g.nodes, g.edges, g.v2)
  {
  }

  lemma NodeIdsDiffer(g: WorkflowGraph)
    requires NewGraph(g) == Some(g)
    ensures forall i, j :: 0 <= i < j < |g.nodes| ==> g.nodes[i].id != g.nodes[j].id
  {
    assert DistinctKeys(g.nodes, NodeKey);
    forall i, j | 0 <= i < j < |g.nodes| ensures g.nodes[i].id != g.nodes[j].id { assert NodeKey(g.nodes[i]) != NodeKey(g.nodes[j]); }
  }

  lemma NodesAreSound(refs: seq<Reference>, g: WorkflowGraph, n: Node)
    requires (Conditional(g.nodes) || Direct(g.nodes)) && TriggerKind in Kinds(g.nodes) && GraphRefersWell(g, refs) && n in g.nodes && NodeOk(n)
    ensures var trigger := NodeOf(g.nodes, TriggerKind).spec;
            Identifier(n.id) && WellMade(n.spec) && NodeReads(refs, n.spec, trigger.objectRef, trigger.created)
  {
    SpecIsWellMade(n.spec);
    OneOfEachKind(g.nodes, n);
    NodeReadsWell(refs, g, n.spec, NodeOf(g.nodes, TriggerKind).spec);
  }

  lemma NodesAreOk(g: WorkflowGraph)
    requires NewGraph(g) == Some(g)
    ensures forall n :: n in g.nodes ==> NodeOk(n)
  {
  }

  lemma GraphIsSound(b: Blueprint, g: WorkflowGraph)
    requires NewGraph(g) == Some(g) && g.v2 == b.v2 && TriggerKind in Kinds(g.nodes) && GraphRefersWell(g, b.references)
    ensures SoundWorkflow(b, g, NodeOf(g.nodes, TriggerKind).spec)
  {
    GraphIsShaped(g);
    NodeIdsDiffer(g);
    NodesAreOk(g);
    forall n | n in g.nodes
      ensures var trigger := NodeOf(g.nodes, TriggerKind).spec;
              Identifier(n.id) && WellMade(n.spec) && NodeReads(b.references, n.spec, trigger.objectRef, trigger.created)
    {
      NodesAreSound(b.references, g, n);
    }
  }

  /** Every workflow of an accepted Blueprint runs from one trigger, past at most one condition, to one action;
      its nodes are well made; and all they read and write are properties of the objects they name. */
  lemma WorkflowsAreSound(raw: Blueprint, b: Blueprint, r: Resource)
    requires NewBlueprint(raw) == Some(b) && r in b.resources && r.spec.WorkflowSpec?
    ensures r.spec.graph.id == r.id && exists trigger :: SoundWorkflow(b, r.spec.graph, trigger)
  {
    BuiltParts(raw, b);
    assert NewResource(r) == Some(r) && ResourceOkIn(r, b);
    GraphIsSound(b, r.spec.graph);
  }

  /** An object or property is named and, if a property, belongs to an object of the target. */
  lemma SimpleResourcesAreSound(raw: Blueprint, b: Blueprint, r: Resource)
    requires NewBlueprint(raw) == Some(b) && r in b.resources
    ensures Identifier(r.id) && Ascending(r.dependsOn, Itself) && r.id !in r.dependsOn
    ensures match r.spec
            case ObjectSpec(name, slug) => Text(name) && Identifier(slug)
            case PropertySpec(objectRef, name, key, _, _) => Names(b.references, objectRef, ObjectKind, None) && Text(name) && Identifier(key)
            case WorkflowSpec(_) => true
  {
    BuiltParts(raw, b);
    assert NewResource(r) == Some(r) && ResourceOkIn(r, b);
    SortAscends(r.dependsOn, Itself);
    if r.spec.PropertySpec? { RequiredIsNamed(b.references, r.spec.objectRef, ObjectKind, None); }
  }

  // ------------------------------------------------------------------ what scenarios supply

  // The event supplies what a binding reads of it.
  predicate Supplies(b: Binding, e: Event) {
    match b
    case EventField(f, before) => if before then f in e.before else f in e.after
    case _ => true
  }

  // An event speaks of its record only through properties of the triggering object, and supplies all that is watched.
  ghost predicate EventSound(e: Event, refs: seq<Reference>, trigger: NodeSpec)
    requires trigger.Trigger?
  {
    && Identifier(e.id) && Identifier(e.recordId) && (e.created ==> e.before == map[])
    && (forall f :: f in e.before || f in e.after ==> Names(refs, f, PropertyKind, Some(trigger.objectRef)))
    && (e.created == trigger.created ==> forall f :: f in trigger.changedFields ==> f in e.before && f in e.after)
  }

  // What each case promises, of the graph it is for.
  ghost predicate ScenarioSound(b: Blueprint, s: Scenario, g: WorkflowGraph, trigger: NodeSpec, action: NodeSpec)
    requires trigger.Trigger? && action.Action?
  {
    && Identifier(s.id) && (forall e :: e in s.events ==> EventSound(e, b.references, trigger) && (!b.v2 ==> !e.created))
    && (forall n, e :: n in g.nodes && n.spec.Condition? && e in s.events && e.created == trigger.created ==> Supplies(n.spec.left, e) && Supplies(n.spec.right, e))
    && (s.case_ != NoMatch ==>
          && (forall e :: e in s.events ==> e.created == trigger.created)
          && (forall f, e :: f in action.fields && e in s.events ==> Supplies(f.value, e))
          && (forall f, e :: f in s.expectedFields && e in s.events ==> Supplies(f.value, e))
          && (set f | f in s.expectedFields :: f.fieldRef) == (set f | f in action.fields :: f.fieldRef)
          && (set a | a in s.expectedAssociations :: a.relationshipRef) == (set a | a in action.associations :: a.relationshipRef))
    && (forall f :: f in s.expectedFields ==>
          Names(b.references, f.fieldRef, PropertyKind, Some(action.objectRef)) && Reads(b.references, f.value, trigger.objectRef))
    && (forall a :: a in s.expectedAssociations ==> Associated(b.references, a, trigger.objectRef, action.objectRef))
    && Ascending(s.expectedFields, FieldKey) && Ascending(s.expectedAssociations, AssociationKey)
  }

  lemma EventIsSound(b: Blueprint, s: Scenario, g: WorkflowGraph, e: Event)
    requires TriggerKind in Kinds(g.nodes) && ActionKind in Kinds(g.nodes) && ScenarioSuits(s, g, b.references) && e in s.events && EventOk(e)
    ensures EventSound(e, b.references, NodeOf(g.nodes, TriggerKind).spec)
  {
    var trigger := NodeOf(g.nodes, TriggerKind).spec;
    assert EventSuits(e, s, g, b.references);
    forall f | f in e.before || f in e.after ensures Identifier(f) && Names(b.references, f, PropertyKind, Some(trigger.objectRef)) {
      assert f in e.before.Keys + e.after.Keys;
      RequiredIsNamed(b.references, f, PropertyKind, Some(trigger.objectRef));
    }
  }

  lemma ExpectationsAreSound(b: Blueprint, s: Scenario, g: WorkflowGraph)
    requires TriggerKind in Kinds(g.nodes) && ActionKind in Kinds(g.nodes) && ScenarioSuits(s, g, b.references) && NewScenario(s) == Some(s)
    ensures var trigger, action := NodeOf(g.nodes, TriggerKind).spec, NodeOf(g.nodes, ActionKind).spec;
            && (forall f :: f in s.expectedFields ==>
                  Names(b.references, f.fieldRef, PropertyKind, Some(action.objectRef)) && Reads(b.references, f.value, trigger.objectRef))
            && (forall a :: a in s.expectedAssociations ==> Associated(b.references, a, trigger.objectRef, action.objectRef))
            && Ascending(s.expectedFields, FieldKey) && Ascending(s.expectedAssociations, AssociationKey)
  {
    var trigger, action := NodeOf(g.nodes, TriggerKind).spec, NodeOf(g.nodes, ActionKind).spec;
    SortAscends(s.expectedFields, FieldKey);
    SortAscends(s.expectedAssociations, AssociationKey);
    forall f | f in s.expectedFields
      ensures Names(b.references, f.fieldRef, PropertyKind, Some(action.objectRef)) && Reads(b.references, f.value, trigger.objectRef)
    {
      RequiredIsNamed(b.references, f.fieldRef, PropertyKind, Some(action.objectRef));
      BindingReads(b.references, f.value, trigger.objectRef);
    }
    forall a | a in s.expectedAssociations ensures Associated(b.references, a, trigger.objectRef, action.objectRef) {
      AssociationLeads(b.references, a, trigger.objectRef, action.objectRef);
    }
  }

  lemma BindingsAreSupplied(s: Scenario, g: WorkflowGraph, refs: seq<Reference>, e: Event)
    requires TriggerKind in Kinds(g.nodes) && ActionKind in Kinds(g.nodes) && ScenarioSuits(s, g, refs) && e in s.events
    requires e.created == NodeOf(g.nodes, TriggerKind).spec.created && (Conditional(g.nodes) || Direct(g.nodes))
    ensures forall n :: n in g.nodes && n.spec.Condition? ==> Supplies(n.spec.left, e) && Supplies(n.spec.right, e)
    ensures s.case_ != NoMatch ==> (forall f :: f in NodeOf(g.nodes, ActionKind).spec.fields ==> Supplies(f.value, e)) && forall f :: f in s.expectedFields ==> Supplies(f.value, e)
  {
    assert EventSuits(e, s, g, refs);
    forall n | n in g.nodes && n.spec.Condition? ensures Supplies(n.spec.left, e) && Supplies(n.spec.right, e) {
      OneOfEachKind(g.nodes, n);
      assert n.spec.left in Bindings(n.spec) && n.spec.right in Bindings(n.spec);
      assert n.spec.left in Evaluated(s, g) && n.spec.right in Evaluated(s, g);
    }
    if s.case_ != NoMatch {
      var action := NodeOf(g.nodes, ActionKind).spec;
      forall f | f in action.fields ensures Supplies(f.value, e) { assert f.value in Bindings(action) && f.value in Evaluated(s, g); }
      forall f | f in s.expectedFields ensures Supplies(f.value, e) { assert f.value in Evaluated(s, g); }
    }
  }

  lemma ScenarioGraph(raw: Blueprint, b: Blueprint, s: Scenario) returns (r: Resource)
    requires NewBlueprint(raw) == Some(b) && s in b.scenarios
    ensures r in b.resources && r.id == s.workflowId && r.spec.WorkflowSpec?
    ensures var nodes := r.spec.graph.nodes; TriggerKind in Kinds(nodes) && ActionKind in Kinds(nodes) && (Conditional(nodes) || Direct(nodes))
    ensures ScenarioSuits(s, r.spec.graph, b.references) && NewScenario(s) == Some(s) && (b.v2 || forall e :: e in s.events ==> !e.created)
  {
    var g := ScenarioFacts(raw, b, s);
    BuiltParts(raw, b);
    r := FindResource(b.resources, s.workflowId).value;
    assert ScenarioOkIn(s, b);
    GraphHasShape(g);
  }

  /** Every scenario of an accepted Blueprint is of one of its workflows and supplies all that the workflow and
      the scenario's own expectations read, through properties of the triggering object alone. */
  lemma ScenariosAreSound(raw: Blueprint, b: Blueprint, s: Scenario) returns (r: Resource, t: Node, a: Node)
    requires NewBlueprint(raw) == Some(b) && s in b.scenarios
    ensures r in b.resources && r.id == s.workflowId && r.spec.WorkflowSpec?
    ensures t in r.spec.graph.nodes && t.spec.Trigger? && a in r.spec.graph.nodes && a.spec.Action?
    ensures ScenarioSound(b, s, r.spec.graph, t.spec, a.spec)
  {
    r := ScenarioGraph(raw, b, s);
    t, a := NodeOf(r.spec.graph.nodes, TriggerKind), NodeOf(r.spec.graph.nodes, ActionKind);
    ScenarioIsSound(b, s, r.spec.graph);
  }

  lemma ScenarioIsSound(b: Blueprint, s: Scenario, g: WorkflowGraph)
    requires TriggerKind in Kinds(g.nodes) && ActionKind in Kinds(g.nodes) && (Conditional(g.nodes) || Direct(g.nodes))
    requires ScenarioSuits(s, g, b.references) && NewScenario(s) == Some(s) && (b.v2 || forall e :: e in s.events ==> !e.created)
    ensures ScenarioSound(b, s, g, NodeOf(g.nodes, TriggerKind).spec, NodeOf(g.nodes, ActionKind).spec)
  {
    var trigger, action := NodeOf(g.nodes, TriggerKind).spec, NodeOf(g.nodes, ActionKind).spec;
    ExpectationsAreSound(b, s, g);
    forall e | e in s.events ensures EventSound(e, b.references, trigger) && (s.case_ != NoMatch ==> e.created == trigger.created) {
      EventIsSound(b, s, g, e);
      assert EventSuits(e, s, g, b.references);
    }
    forall e | e in s.events && e.created == trigger.created
      ensures forall n :: n in g.nodes && n.spec.Condition? ==> Supplies(n.spec.left, e) && Supplies(n.spec.right, e)
      ensures s.case_ != NoMatch ==> (forall f :: f in action.fields ==> Supplies(f.value, e)) && forall f :: f in s.expectedFields ==> Supplies(f.value, e)
    {
      BindingsAreSupplied(s, g, b.references, e);
    }
  }

  /** Where nothing but creation decides, the case decides alike: on the events of match and retry scenarios the
      action runs, and on those of no_match scenarios it does not. */
  lemma CreationDecidesTheCase(raw: Blueprint, b: Blueprint, s: Scenario, e: Event)
    requires NewBlueprint(raw) == Some(b) && s in b.scenarios && e in s.events
    ensures var g := GraphOf(b, s);
            && g.Some? && TriggerKind in Kinds(g.value.nodes)
            && (NodeOf(g.value.nodes, TriggerKind).spec.created && ConditionKind !in Kinds(g.value.nodes) ==>
                  Decide(g.value, b.references, e) == Some(s.case_ != NoMatch))
            && (e.created != NodeOf(g.value.nodes, TriggerKind).spec.created ==> Decide(g.value, b.references, e) == Some(false))
  {
    var g := ScenarioFacts(raw, b, s);
    CreationDecides(g, s, b.references, e);
  }

  lemma CreationDecides(g: WorkflowGraph, s: Scenario, refs: seq<Reference>, e: Event)
    requires TriggerKind in Kinds(g.nodes) && ActionKind in Kinds(g.nodes) && GraphRefersWell(g, refs) && ScenarioSuits(s, g, refs) && e in s.events
    ensures NodeOf(g.nodes, TriggerKind).spec.created && ConditionKind !in Kinds(g.nodes) ==> Decide(g, refs, e) == Some(s.case_ != NoMatch)
    ensures e.created != NodeOf(g.nodes, TriggerKind).spec.created ==> Decide(g, refs, e) == Some(false)
  {
    assert EventSuits(e, s, g, refs);
  }

  // ------------------------------------------------------------------ identities

  /** The texts that may identify something, at the edges of what is admitted. */
  lemma IdentifiersByExample()
    ensures Identifier("a") && Identifier("Z9._:/-z") && Identifier(seq(256, _ => '0'))
    ensures !Identifier("") && !Identifier("-a") && !Identifier("_") && !Identifier("a b") && !Identifier(seq(257, _ => '0'))
    ensures !Identifier("a@") && !Identifier("a[") && !Identifier("a`") && !Identifier("a{") && !Identifier("a;")
    ensures Text("a b") && Text(seq(1024, _ => 'x')) && !Text("") && !Text(" a") && !Text("a ") && !Text(seq(1025, _ => 'x'))
    ensures DigestText("sha256:" + seq(64, _ => 'f')) && !DigestText("sha256:" + seq(64, _ => 'g')) && !DigestText("sha256:" + seq(64, _ => 'F'))
    ensures !DigestText("sha256:" + seq(63, _ => '0')) && !DigestText("sha512:" + seq(64, _ => '0'))
  {
    assert !IsIdentifierChar("a b"[1]) && !IsIdentifierChar("a@"[1]) && !IsIdentifierChar("a["[1]) && !IsIdentifierChar("a`"[1]);
    assert !IsIdentifierChar("a{"[1]) && !IsIdentifierChar("a;"[1]);
    assert ("sha256:" + seq(64, _ => 'f'))[..7] == "sha256:";
    assert !IsHex(("sha256:" + seq(64, _ => 'g'))[7]) && !IsHex(("sha256:" + seq(64, _ => 'F'))[7]);
    assert ("sha512:" + seq(64, _ => '0'))[..7][3] != "sha256:"[3];
  }
}
