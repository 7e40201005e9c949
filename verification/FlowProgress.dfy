/**
 Evaluating a workflow graph on the events of its scenarios. The Flow contracts declare what a graph
 means without executing it; this module gives that meaning step by step, with None for a step that
 would look up a missing event field or a reference of the wrong kind or owner, and proves that in
 an accepted Blueprint no scenario gets there.
 */
module FlowProgress {
  import opened Basics
  import opened Ordering
  import opened JsonValues
  import opened FlowModel
  import opened FlowBuild

  datatype Thing =
    | Data(json: Json)
    | TheRecord(recordId: string, objectRef: string)
    | Known(reference: Reference)

  // The object a record belongs to.
  function ObjectOf(t: Thing): Option<string> {
    match t
    case Data(_) => None
    case TheRecord(_, objectRef) => Some(objectRef)
    case Known(reference) => reference.parent
  }

  function Eval(b: Binding, e: Event, refs: seq<Reference>, eventObject: string): Option<Thing> {
    match b
    case Literal(value) => Some(Data(value))
    case EventRecord => Some(TheRecord(e.recordId, eventObject))
    case EventField(f, before) =>
      var phase := if before then e.before else e.after;
      if f in phase && Requires(refs, f, PropertyKind, Some(eventObject)) then Some(Data(phase[f])) else None
    case ToReference(r) =>
      if Requires(refs, r, RecordKind, None) then Some(Known(FindReference(refs, r).value)) else None
  }

  // Whether the event is of the trigger's operation and, if fields are watched, changes one.
  function Fires(trigger: NodeSpec, e: Event): Option<bool>
    requires trigger.Trigger?
  {
    if e.created != trigger.created then Some(false)
    else if trigger.created then Some(true)
    else if exists f :: f in trigger.changedFields && (f !in e.before || f !in e.after) then None
    else Some(exists f :: f in trigger.changedFields && e.before[f] != e.after[f])
  }

  // Whether the action is to run.
  ghost function Decide(g: WorkflowGraph, refs: seq<Reference>, e: Event): Option<bool>
    requires TriggerKind in Kinds(g.nodes)
  {
    var trigger := NodeOf(g.nodes, TriggerKind).spec;
    if !Requires(refs, trigger.objectRef, ObjectKind, None) then None else
    var fires := Fires(trigger, e);
    if fires.None? || !fires.value || ConditionKind !in Kinds(g.nodes) then fires else
    var condition := NodeOf(g.nodes, ConditionKind).spec;
    var left, right := Eval(condition.left, e, refs, trigger.objectRef), Eval(condition.right, e, refs, trigger.objectRef);
    if left.None? || right.None? then None else Some(left == right)
  }

  function FieldValues(fields: seq<FieldMapping>, e: Event, refs: seq<Reference>, eventObject: string, object_: string): Option<map<string, Thing>> {
    if fields == [] then Some(map[]) else
    var rest := FieldValues(fields[1..], e, refs, eventObject, object_);
    var value := Eval(fields[0].value, e, refs, eventObject);
    if rest.None? || value.None? || !Requires(refs, fields[0].fieldRef, PropertyKind, Some(object_)) then None
    else Some(rest.value[fields[0].fieldRef := value.value])
  }

  function Associate(a: Association, e: Event, refs: seq<Reference>, eventObject: string, object_: string): Option<Thing> {
    var record := Eval(a.record, e, refs, eventObject);
    if record.None? || !Requires(refs, a.relationshipRef, RelationshipKind, Some(object_)) then None
    else if ObjectOf(record.value) == FindReference(refs, a.relationshipRef).value.related then record
    else None
  }

  function Associations(associations: seq<Association>, e: Event, refs: seq<Reference>, eventObject: string, object_: string): Option<map<string, Thing>> {
    if associations == [] then Some(map[]) else
    var rest := Associations(associations[1..], e, refs, eventObject, object_);
    var record := Associate(associations[0], e, refs, eventObject, object_);
    if rest.None? || record.None? then None else Some(rest.value[associations[0].relationshipRef := record.value])
  }

  // The record that mappings describe: its fields and associations.
  datatype Draft = Draft(fields: map<string, Thing>, associations: map<string, Thing>)

  function Describe(fields: seq<FieldMapping>, associations: seq<Association>, e: Event, refs: seq<Reference>,
                    eventObject: string, object_: string): Option<Draft> {
    var f, a := FieldValues(fields, e, refs, eventObject, object_), Associations(associations, e, refs, eventObject, object_);
    if f.None? || a.None? || !Requires(refs, object_, ObjectKind, None) then None else Some(Draft(f.value, a.value))
  }

  // ------------------------------------------------------------------ what it takes not to stall

  lemma BindingIsThere(b: Binding, e: Event, refs: seq<Reference>, eventObject: string)
    requires BindingRefersWell(b, refs, eventObject) && Supplied(b, e)
    ensures Eval(b, e, refs, eventObject).Some?
  {}

  lemma {:induction false} FieldsAreThere(fields: seq<FieldMapping>, e: Event, refs: seq<Reference>, eventObject: string, object_: string)
    requires forall f :: f in fields ==> Requires(refs, f.fieldRef, PropertyKind, Some(object_))
    requires forall f :: f in fields ==> BindingRefersWell(f.value, refs, eventObject) && Supplied(f.value, e)
    ensures var r := FieldValues(fields, e, refs, eventObject, object_);
            r.Some? && r.value.Keys == set f | f in fields :: f.fieldRef
    decreases |fields|
  {
    if fields != [] {
      FieldsAreThere(fields[1..], e, refs, eventObject, object_);
      BindingIsThere(fields[0].value, e, refs, eventObject);
      assert (set f | f in fields :: f.fieldRef) == {fields[0].fieldRef} + set f | f in fields[1..] :: f.fieldRef;
    }
  }

  lemma AssociationIsThere(a: Association, e: Event, refs: seq<Reference>, eventObject: string, object_: string)
    requires AssociationOk(a) && AssociationRefersWell(a, refs, eventObject, object_)
    ensures Associate(a, e, refs, eventObject, object_).Some?
  {}

  lemma {:induction false} AssociationsAreThere(associations: seq<Association>, e: Event, refs: seq<Reference>, eventObject: string, object_: string)
    requires forall a :: a in associations ==> AssociationOk(a) && AssociationRefersWell(a, refs, eventObject, object_)
    ensures var r := Associations(associations, e, refs, eventObject, object_);
            r.Some? && r.value.Keys == set a | a in associations :: a.relationshipRef
    decreases |associations|
  {
    if associations != [] {
      AssociationsAreThere(associations[1..], e, refs, eventObject, object_);
      AssociationIsThere(associations[0], e, refs, eventObject, object_);
      assert (set a | a in associations :: a.relationshipRef)
          == {associations[0].relationshipRef} + set a | a in associations[1..] :: a.relationshipRef;
    }
  }

  lemma FieldsIff(fields: seq<FieldMapping>, e: Event, refs: seq<Reference>, eventObject: string, object_: string)
    ensures FieldValues(fields, e, refs, eventObject, object_).Some? <==>
              forall f :: f in fields ==> Requires(refs, f.fieldRef, PropertyKind, Some(object_)) && BindingRefersWell(f.value, refs, eventObject) && Supplied(f.value, e)
    decreases |fields|
  {
    if fields != [] {
      FieldsIff(fields[1..], e, refs, eventObject, object_);
      assert forall f :: f in fields <==> f == fields[0] || f in fields[1..];
    }
  }

  lemma AssociationIff(a: Association, e: Event, refs: seq<Reference>, eventObject: string, object_: string)
    requires AssociationOk(a)
    ensures Associate(a, e, refs, eventObject, object_).Some? <==> AssociationRefersWell(a, refs, eventObject, object_)
  {
    if a.record.EventRecord? {
      assert Eval(a.record, e, refs, eventObject) == Some(TheRecord(e.recordId, eventObject));
    } else {
      assert Eval(a.record, e, refs, eventObject).Some? <==> BindingRefersWell(a.record, refs, eventObject);
    }
  }

  lemma AssociationsIff(associations: seq<Association>, e: Event, refs: seq<Reference>, eventObject: string, object_: string)
    requires forall a :: a in associations ==> AssociationOk(a)
    ensures Associations(associations, e, refs, eventObject, object_).Some? <==> forall a :: a in associations ==> AssociationRefersWell(a, refs, eventObject, object_)
    decreases |associations|
  {
    if associations != [] {
      AssociationsIff(associations[1..], e, refs, eventObject, object_);
      AssociationIff(associations[0], e, refs, eventObject, object_);
      assert forall a :: a in associations <==> a == associations[0] || a in associations[1..];
    }
  }

  /** A record is described exactly if its object is known, every field is a property of it whose value the
      event supplies through a property of the triggering object, and every association leads to a record of
      the object that its relationship relates. */
  lemma DescribedIffThere(fields: seq<FieldMapping>, associations: seq<Association>, e: Event, refs: seq<Reference>, eventObject: string, object_: string)
    requires forall a :: a in associations ==> AssociationOk(a)
    ensures Describe(fields, associations, e, refs, eventObject, object_).Some? <==>
              && Requires(refs, object_, ObjectKind, None)
              && (forall f :: f in fields ==> Requires(refs, f.fieldRef, PropertyKind, Some(object_)) && BindingRefersWell(f.value, refs, eventObject) && Supplied(f.value, e))
              && forall a :: a in associations ==> AssociationRefersWell(a, refs, eventObject, object_)
  {
    FieldsIff(fields, e, refs, eventObject, object_);
    AssociationsIff(associations, e, refs, eventObject, object_);
  }

  // The event is an update that changes a watched field, or a creation that is waited for.
  predicate Occurs(trigger: NodeSpec, e: Event)
    requires trigger.Trigger?
  {
    e.created == trigger.created &&
    (e.created || exists f :: f in trigger.changedFields && f in e.before && f in e.after && e.before[f] != e.after[f])
  }

  lemma FiresIffOccurs(trigger: NodeSpec, e: Event)
    requires trigger.Trigger?
    ensures Fires(trigger, e).Some? <==> e.created || trigger.created || forall f :: f in trigger.changedFields ==> f in e.before && f in e.after
    ensures Fires(trigger, e).Some? ==> (Fires(trigger, e).value <==> Occurs(trigger, e))
  {
    if Fires(trigger, e).Some? && Fires(trigger, e).value && !e.created {
      var f :| f in trigger.changedFields && e.before[f] != e.after[f];
      assert f in e.before && f in e.after;
    }
  }

  /** An event is decided exactly if the trigger names an object, no watched field of an update is missing and,
      where what the trigger waits for occurs, both sides of the condition are there to compare. */
  lemma DecidedIffThere(g: WorkflowGraph, refs: seq<Reference>, e: Event)
    requires TriggerKind in Kinds(g.nodes)
    ensures var trigger := NodeOf(g.nodes, TriggerKind).spec;
            Decide(g, refs, e).Some? <==>
              && Requires(refs, trigger.objectRef, ObjectKind, None)
              && (e.created || trigger.created || forall f :: f in trigger.changedFields ==> f in e.before && f in e.after)
              && (Occurs(trigger, e) && ConditionKind in Kinds(g.nodes) ==>
                    var condition := NodeOf(g.nodes, ConditionKind).spec;
                    && BindingRefersWell(condition.left, refs, trigger.objectRef) && Supplied(condition.left, e)
                    && BindingRefersWell(condition.right, refs, trigger.objectRef) && Supplied(condition.right, e))
  {
    FiresIffOccurs(NodeOf(g.nodes, TriggerKind).spec, e);
  }

  // ------------------------------------------------------------------ accepted scenarios

  // The graph a scenario of an accepted Blueprint runs on.
  function GraphOf(b: Blueprint, s: Scenario): Option<WorkflowGraph> {
    var r := FindResource(b.resources, s.workflowId);
    if r.Some? && r.value.spec.WorkflowSpec? then Some(r.value.spec.graph) else None
  }

  // What acceptance of a Blueprint says about one scenario and its graph.
  lemma ScenarioFacts(raw: Blueprint, b: Blueprint, s: Scenario) returns (g: WorkflowGraph)
    requires NewBlueprint(raw) == Some(b) && s in b.scenarios
    ensures GraphOf(b, s) == Some(g) && NewScenario(s) == Some(s) && NewGraph(g) == Some(g)
    ensures TriggerKind in Kinds(g.nodes) && ActionKind in Kinds(g.nodes)
    ensures GraphRefersWell(g, b.references) && ScenarioSuits(s, g, b.references)
  {
    BuiltParts(raw, b);
    assert ScenarioOkIn(s, b);
    var r := FindResource(b.resources, s.workflowId).value;
    assert NewResource(r) == Some(r) && ResourceOkIn(r, b);
    g := r.spec.graph;
  }

  lemma NodesAreBuilt(g: WorkflowGraph, n: Node)
    requires NewGraph(g) == Some(g) && n in g.nodes
    ensures NewSpec(n.spec) == Some(n.spec)
  {
    assert NodeOk(n);
  }

  lemma ConditionIsThere(refs: seq<Reference>, g: WorkflowGraph, s: Scenario, e: Event)
    requires TriggerKind in Kinds(g.nodes) && ActionKind in Kinds(g.nodes) && ConditionKind in Kinds(g.nodes)
    requires GraphRefersWell(g, refs) && EventSuits(e, s, g, refs)
    requires e.created == NodeOf(g.nodes, TriggerKind).spec.created
    ensures var trigger, condition := NodeOf(g.nodes, TriggerKind).spec, NodeOf(g.nodes, ConditionKind).spec;
            Eval(condition.left, e, refs, trigger.objectRef).Some? && Eval(condition.right, e, refs, trigger.objectRef).Some?
  {
    var trigger, condition := NodeOf(g.nodes, TriggerKind).spec, NodeOf(g.nodes, ConditionKind).spec;
    assert SpecRefersWell(condition, refs, trigger);
    forall x | x in Bindings(condition) ensures Eval(x, e, refs, trigger.objectRef).Some? {
      assert x in Evaluated(s, g);
      BindingIsThere(x, e, refs, trigger.objectRef);
    }
    assert condition.left in Bindings(condition) && condition.right in Bindings(condition);
  }

  lemma EventIsDecided(refs: seq<Reference>, g: WorkflowGraph, s: Scenario, e: Event)
    requires TriggerKind in Kinds(g.nodes) && ActionKind in Kinds(g.nodes)
    requires GraphRefersWell(g, refs) && EventSuits(e, s, g, refs)
    ensures Decide(g, refs, e).Some?
  {
    if e.created == NodeOf(g.nodes, TriggerKind).spec.created && ConditionKind in Kinds(g.nodes) {
      ConditionIsThere(refs, g, s, e);
    }
  }

  /** On every event of every scenario, the trigger and the condition can be decided. */
  lemma EveryEventIsDecided(raw: Blueprint, b: Blueprint, s: Scenario, e: Event)
    requires NewBlueprint(raw) == Some(b) && s in b.scenarios && e in s.events
    ensures var g := GraphOf(b, s);
            g.Some? && TriggerKind in Kinds(g.value.nodes) && Decide(g.value, b.references, e).Some?
  {
    var g := ScenarioFacts(raw, b, s);
    EventIsDecided(b.references, g, s, e);
  }

  /** On every event of a match or retry scenario, the record the action creates and the record the
      scenario expects can both be described in full, with the same fields and associations. */
  lemma EveryMatchIsDescribed(raw: Blueprint, b: Blueprint, s: Scenario, e: Event)
    requires NewBlueprint(raw) == Some(b) && s in b.scenarios && e in s.events && !s.case_.NoMatch?
    ensures var g := GraphOf(b, s);
            && g.Some? && TriggerKind in Kinds(g.value.nodes) && ActionKind in Kinds(g.value.nodes)
            && var trigger, action := NodeOf(g.value.nodes, TriggerKind).spec, NodeOf(g.value.nodes, ActionKind).spec;
               var created := Describe(action.fields, action.associations, e, b.references, trigger.objectRef, action.objectRef);
               var expected := Describe(s.expectedFields, s.expectedAssociations, e, b.references, trigger.objectRef, action.objectRef);
            && created.Some? && expected.Some?
            && created.value.fields.Keys == expected.value.fields.Keys
            && created.value.associations.Keys == expected.value.associations.Keys
  {
    var g := ScenarioFacts(raw, b, s);
    var trigger, action := NodeOf(g.nodes, TriggerKind).spec, NodeOf(g.nodes, ActionKind).spec;
    CreatedIsDescribed(b.references, g, s, e);
    ExpectedIsDescribed(b.references, g, s, e);
  }

  lemma CreatedIsDescribed(refs: seq<Reference>, g: WorkflowGraph, s: Scenario, e: Event)
    requires TriggerKind in Kinds(g.nodes) && ActionKind in Kinds(g.nodes) && NewGraph(g) == Some(g)
    requires GraphRefersWell(g, refs) && ScenarioSuits(s, g, refs) && e in s.events && !s.case_.NoMatch?
    ensures var trigger, action := NodeOf(g.nodes, TriggerKind).spec, NodeOf(g.nodes, ActionKind).spec;
            var d := Describe(action.fields, action.associations, e, refs, trigger.objectRef, action.objectRef);
            && d.Some?
            && d.value.fields.Keys == (set f | f in action.fields :: f.fieldRef)
            && d.value.associations.Keys == set a | a in action.associations :: a.relationshipRef
  {
    CreatedFieldsAreThere(refs, g, s, e);
    CreatedAssociationsAreThere(refs, g, e);
    ActionObjectIsThere(refs, g);
  }

  lemma ActionObjectIsThere(refs: seq<Reference>, g: WorkflowGraph)
    requires TriggerKind in Kinds(g.nodes) && ActionKind in Kinds(g.nodes) && GraphRefersWell(g, refs)
    ensures Requires(refs, NodeOf(g.nodes, ActionKind).spec.objectRef, ObjectKind, None)
  {
    assert SpecRefersWell(NodeOf(g.nodes, ActionKind).spec, refs, NodeOf(g.nodes, TriggerKind).spec);
  }

  lemma ActionIsBuilt(spec: NodeSpec)
    requires spec.Action? && NewSpec(spec) == Some(spec)
    ensures forall a :: a in spec.associations ==> AssociationOk(a)
  {}

  lemma CreatedAssociationsAreThere(refs: seq<Reference>, g: WorkflowGraph, e: Event)
    requires TriggerKind in Kinds(g.nodes) && ActionKind in Kinds(g.nodes) && NewGraph(g) == Some(g) && GraphRefersWell(g, refs)
    ensures var trigger, action := NodeOf(g.nodes, TriggerKind).spec, NodeOf(g.nodes, ActionKind).spec;
            var r := Associations(action.associations, e, refs, trigger.objectRef, action.objectRef);
            r.Some? && r.value.Keys == set a | a in action.associations :: a.relationshipRef
  {
    var trigger, node := NodeOf(g.nodes, TriggerKind).spec, NodeOf(g.nodes, ActionKind);
    assert SpecRefersWell(node.spec, refs, trigger);
    NodesAreBuilt(g, node);
    ActionIsBuilt(node.spec);
    AssociationsAreThere(node.spec.associations, e, refs, trigger.objectRef, node.spec.objectRef);
  }

  lemma CreatedFieldsAreThere(refs: seq<Reference>, g: WorkflowGraph, s: Scenario, e: Event)
    requires TriggerKind in Kinds(g.nodes) && ActionKind in Kinds(g.nodes)
    requires GraphRefersWell(g, refs) && ScenarioSuits(s, g, refs) && e in s.events && !s.case_.NoMatch?
    ensures var trigger, action := NodeOf(g.nodes, TriggerKind).spec, NodeOf(g.nodes, ActionKind).spec;
            var r := FieldValues(action.fields, e, refs, trigger.objectRef, action.objectRef);
            r.Some? && r.value.Keys == set f | f in action.fields :: f.fieldRef
  {
    var trigger, action := NodeOf(g.nodes, TriggerKind).spec, NodeOf(g.nodes, ActionKind).spec;
    assert EventSuits(e, s, g, refs) && SpecRefersWell(action, refs, trigger);
    forall f | f in action.fields ensures BindingRefersWell(f.value, refs, trigger.objectRef) && Supplied(f.value, e) {
      assert f.value in Bindings(action) && f.value in Evaluated(s, g);
    }
    FieldsAreThere(action.fields, e, refs, trigger.objectRef, action.objectRef);
  }

  lemma ExpectedIsDescribed(refs: seq<Reference>, g: WorkflowGraph, s: Scenario, e: Event)
    requires TriggerKind in Kinds(g.nodes) && ActionKind in Kinds(g.nodes) && NewScenario(s) == Some(s)
    requires GraphRefersWell(g, refs) && ScenarioSuits(s, g, refs) && e in s.events && !s.case_.NoMatch?
    ensures var trigger, action := NodeOf(g.nodes, TriggerKind).spec, NodeOf(g.nodes, ActionKind).spec;
            var d := Describe(s.expectedFields, s.expectedAssociations, e, refs, trigger.objectRef, action.objectRef);
            && d.Some?
            && d.value.fields.Keys == (set f | f in s.expectedFields :: f.fieldRef)
            && d.value.associations.Keys == set a | a in s.expectedAssociations :: a.relationshipRef
  {
    var trigger, action := NodeOf(g.nodes, TriggerKind).spec, NodeOf(g.nodes, ActionKind).spec;
    assert EventSuits(e, s, g, refs) && SpecRefersWell(action, refs, trigger);
    forall f | f in s.expectedFields ensures BindingRefersWell(f.value, refs, trigger.objectRef) && Supplied(f.value, e) {
      assert f.value in Evaluated(s, g);
    }
    FieldsAreThere(s.expectedFields, e, refs, trigger.objectRef, action.objectRef);
    AssociationsAreThere(s.expectedAssociations, e, refs, trigger.objectRef, action.objectRef);
  }

  lemma NodesNeverReadBefore(refs: seq<Reference>, g: WorkflowGraph, n: Node, x: Binding)
    requires TriggerKind in Kinds(g.nodes) && GraphRefersWell(g, refs) && n in g.nodes && x in Bindings(n.spec)
    requires NodeOf(g.nodes, TriggerKind).spec.created
    ensures !ReadsBefore(x)
  {
    assert SpecRefersWell(n.spec, refs, NodeOf(g.nodes, TriggerKind).spec);
  }

  lemma ExpectationsNeverReadBefore(refs: seq<Reference>, g: WorkflowGraph, s: Scenario, f: FieldMapping)
    requires TriggerKind in Kinds(g.nodes) && ActionKind in Kinds(g.nodes) && NewScenario(s) == Some(s)
    requires ScenarioSuits(s, g, refs) && f in s.expectedFields
    requires NodeOf(g.nodes, TriggerKind).spec.created
    ensures !ReadsBefore(f.value)
  {
    var e := s.events[0];
    assert !s.case_.NoMatch?;
    assert EventSuits(e, s, g, refs) && f.value in Evaluated(s, g) && EventOk(e);
  }

  /** In a graph triggered by record.created, no condition and no created field reads the record as
      it was before; nor does any field that a scenario expects. */
  lemma CreationNeverReadsBefore(raw: Blueprint, b: Blueprint, s: Scenario, g: WorkflowGraph)
    requires NewBlueprint(raw) == Some(b) && s in b.scenarios
    requires GraphOf(b, s) == Some(g) && TriggerKind in Kinds(g.nodes) && NodeOf(g.nodes, TriggerKind).spec.created
    ensures forall n, x :: n in g.nodes && x in Bindings(n.spec) ==> !ReadsBefore(x)
    ensures forall f :: f in s.expectedFields ==> !ReadsBefore(f.value)
  {
    var h := ScenarioFacts(raw, b, s);
    forall n, x | n in g.nodes && x in Bindings(n.spec) ensures !ReadsBefore(x) {
      NodesNeverReadBefore(b.references, g, n, x);
    }
    forall f | f in s.expectedFields ensures !ReadsBefore(f.value) {
      ExpectationsNeverReadBefore(b.references, g, s, f);
    }
  }

  // ------------------------------------------------------------------ coverage

  lemma ResourceIsFound(resources: seq<Resource>, r: Resource)
    requires DistinctKeys(resources, ResourceKey) && r in resources
    ensures FindResource(resources, r.id) == Some(r)
  {
    var found := FindResource(resources, r.id);
    assert found.Some? && found.value.id == r.id;
    var i :| 0 <= i < |resources| && resources[i] == r;
    var j :| 0 <= j < |resources| && resources[j] == found.value;
    assert ResourceKey(resources[i]) == r.id && ResourceKey(resources[j]) == r.id;
  }

  lemma CaseIsRequired(b: Blueprint, r: Resource, c: Case) returns (s: Scenario)
    requires Covered(b) && b.unsupported == [] && r in b.resources && r.spec.WorkflowSpec?
    ensures s in b.scenarios && s.workflowId == r.id && s.required && s.case_ == c
  {
    assert c in set s | s in b.scenarios && s.workflowId == r.id && s.required :: s.case_ by {
      match c case NoMatch => case Match => case Retry =>
    }
    s :| s in b.scenarios && s.workflowId == r.id && s.required && s.case_ == c;
  }

  // On this event the record that the graph's action creates can be described in full.
  ghost predicate Creates(g: WorkflowGraph, refs: seq<Reference>, e: Event) {
    && TriggerKind in Kinds(g.nodes) && ActionKind in Kinds(g.nodes)
    && var trigger, action := NodeOf(g.nodes, TriggerKind).spec, NodeOf(g.nodes, ActionKind).spec;
       Describe(action.fields, action.associations, e, refs, trigger.objectRef, action.objectRef).Some?
  }

  // What a scenario of a case puts a graph through.
  ghost predicate Exercises(s: Scenario, g: WorkflowGraph, refs: seq<Reference>) {
    && TriggerKind in Kinds(g.nodes) && (forall e :: e in s.events ==> Decide(g, refs, e).Some?)
    && match s.case_
       case NoMatch => |s.events| == 1 && s.expectedFields == [] && s.expectedAssociations == []
       case Match => |s.events| == 1 && Creates(g, refs, s.events[0])
       case Retry => |s.events| >= 2 && Creates(g, refs, s.events[0]) && forall i :: 0 <= i < |s.events| ==> s.events[i] == s.events[0]
  }

  lemma MatchCreates(refs: seq<Reference>, g: WorkflowGraph, s: Scenario)
    requires TriggerKind in Kinds(g.nodes) && ActionKind in Kinds(g.nodes) && NewGraph(g) == Some(g)
    requires GraphRefersWell(g, refs) && ScenarioSuits(s, g, refs) && s.events != [] && !s.case_.NoMatch?
    ensures Creates(g, refs, s.events[0])
  {
    CreatedIsDescribed(refs, g, s, s.events[0]);
  }

  lemma EventsAreDecided(refs: seq<Reference>, g: WorkflowGraph, s: Scenario)
    requires TriggerKind in Kinds(g.nodes) && ActionKind in Kinds(g.nodes) && GraphRefersWell(g, refs) && ScenarioSuits(s, g, refs)
    ensures forall e :: e in s.events ==> Decide(g, refs, e).Some?
  {
    forall e | e in s.events ensures Decide(g, refs, e).Some? { EventIsDecided(refs, g, s, e); }
  }

  lemma CaseEvents(s: Scenario)
    requires NewScenario(s) == Some(s)
    ensures match s.case_
            case NoMatch => |s.events| == 1 && s.expectedFields == [] && s.expectedAssociations == []
            case Match => |s.events| == 1
            case Retry => |s.events| >= 2 && forall i :: 0 <= i < |s.events| ==> s.events[i] == s.events[0]
  {
  }

  lemma ScenarioExercises(raw: Blueprint, b: Blueprint, s: Scenario) returns (g: WorkflowGraph)
    requires NewBlueprint(raw) == Some(b) && s in b.scenarios
    ensures GraphOf(b, s) == Some(g) && Exercises(s, g, b.references)
  {
    g := ScenarioFacts(raw, b, s);
    CaseEvents(s);
    EventsAreDecided(b.references, g, s);
    if !s.case_.NoMatch? { MatchCreates(b.references, g, s); }
  }

  /** Without findings every workflow is exercised in every case: it has a required no_match scenario with
      one event that can be decided and no expected record, a required match scenario on whose one event
      the record its action creates can be described in full, and a required retry scenario that repeats
      such an event at least once, unchanged. */
  lemma EveryWorkflowIsExercised(raw: Blueprint, b: Blueprint, r: Resource, c: Case) returns (s: Scenario)
    requires NewBlueprint(raw) == Some(b) && b.unsupported == [] && r in b.resources && r.spec.WorkflowSpec?
    ensures s in b.scenarios && s.workflowId == r.id && s.required && s.case_ == c && Exercises(s, r.spec.graph, b.references)
  {
    BuiltParts(raw, b);
    s := CaseIsRequired(b, r, c);
    ResourceIsFound(b.resources, r);
    var g := ScenarioExercises(raw, b, s);
  }
}
