/**
 Flow Blueprints, schema versions v1 and v2: the records, what each constructor checks and how it
 puts its parts into canonical order.

 A constructor is a function from a record as the caller wrote it to the record it builds, or None
 where the original raises ValueError. Parts that a record holds must have been constructed.
 */
module FlowModel {
  import opened Basics
  import opened Ordering
  import opened JsonValues

  // ------------------------------------------------------------------ strings

  // `text`
  predicate Text(s: string) {
    1 <= |s| <= 1024 && !IsSpace(s[0]) && !IsSpace(s[|s| - 1])
  }

  predicate IsAlnum(c: char) { 'A' <= c <= 'Z' || 'a' <= c <= 'z' || '0' <= c <= '9' }

  predicate IsIdentifierChar(c: char) {
    IsAlnum(c) || c == '.' || c == '_' || c == ':' || c == '/' || c == '-'
  }

  // `identifier`
  predicate Identifier(s: string) {
    1 <= |s| <= 256 && IsAlnum(s[0]) && forall i :: 0 <= i < |s| ==> IsIdentifierChar(s[i])
  }

  predicate MaybeIdentifier(s: Option<string>) { s.Some? ==> Identifier(s.value) }

  predicate IsHex(c: char) { 'a' <= c <= 'f' || '0' <= c <= '9' }

  predicate DigestText(s: string) {
    |s| == 71 && s[..7] == "sha256:" && forall i :: 7 <= i < 71 ==> IsHex(s[i])
  }

  // `identifiers`
  ghost function Identifiers(xs: seq<string>): Option<seq<string>> {
    if forall i :: 0 <= i < |xs| ==> Identifier(xs[i]) then Unique(xs, Itself) else None
  }

  // ------------------------------------------------------------------ records without an order

  datatype ArtifactIdentity = ArtifactIdentity(id: string, revision: string, digest: string)

  predicate IdentityOk(a: ArtifactIdentity) { Text(a.id) && Text(a.revision) && DigestText(a.digest) }

  datatype BlueprintOrigin = BlueprintOrigin(template: bool, identity: ArtifactIdentity)

  predicate OriginOk(o: BlueprintOrigin) { IdentityOk(o.identity) }

  datatype RefKind = ObjectKind | PropertyKind | RelationshipKind | RecordKind

  // `source` is scope "source", `planned` is binding "resource".
  datatype Reference = Reference(id: string, kind: RefKind, key: string, parent: Option<string>,
                                 source: bool, planned: bool, related: Option<string>)

  predicate ReferenceOk(r: Reference) {
    && Identifier(r.id) && Text(r.key) && !(r.source && r.planned)
    && (r.kind.ObjectKind? <==> r.parent.None?) && MaybeIdentifier(r.parent)
    && (r.kind.RelationshipKind? <==> r.related.Some?) && MaybeIdentifier(r.related)
  }

  datatype Mapping = Mapping(sourceRef: string, targetRef: string)

  predicate MappingOk(m: Mapping) { Identifier(m.sourceRef) && Identifier(m.targetRef) }

  datatype Finding = Finding(code: string, message: string, nodeId: Option<string>)

  predicate FindingOk(f: Finding) { Identifier(f.code) && Text(f.message) && MaybeIdentifier(f.nodeId) }

  datatype Binding =
    | Literal(value: Json)
    | EventRecord
    | EventField(fieldRef: string, before: bool)
    | ToReference(referenceId: string)

  predicate BindingOk(b: Binding) {
    match b
    case EventField(f, _) => Identifier(f)
    case ToReference(r) => Identifier(r)
    case _ => true
  }

  datatype FieldMapping = FieldMapping(fieldRef: string, value: Binding)

  predicate FieldMappingOk(f: FieldMapping) { Identifier(f.fieldRef) && BindingOk(f.value) }

  datatype Association = Association(relationshipRef: string, record: Binding, required: bool)

  predicate AssociationOk(a: Association) {
    Identifier(a.relationshipRef) && BindingOk(a.record) && (a.record.EventRecord? || a.record.ToReference?)
  }

  function FieldKey(f: FieldMapping): string { f.fieldRef }
  function AssociationKey(a: Association): string { a.relationshipRef }

  // ------------------------------------------------------------------ workflow graphs

  datatype NodeSpec =
    | Trigger(objectRef: string, changedFields: seq<string>, created: bool)
    | Condition(left: Binding, right: Binding)
    | Action(objectRef: string, fields: seq<FieldMapping>, associations: seq<Association>)

  ghost function NewTrigger(raw: NodeSpec): Option<NodeSpec>
    requires raw.Trigger?
  {
    var fields := Identifiers(raw.changedFields);
    if !Identifier(raw.objectRef) || fields.None? || (raw.created <==> fields.value != []) then None
    else Some(raw.(changedFields := fields.value))
  }

  ghost function NewAction(raw: NodeSpec): Option<NodeSpec>
    requires raw.Action?
  {
    var fields, associations := Unique(raw.fields, FieldKey), Unique(raw.associations, AssociationKey);
    if || !Identifier(raw.objectRef) || fields.None? || fields.value == [] || associations.None?
       || !(forall f :: f in raw.fields ==> FieldMappingOk(f))
       || !(forall a :: a in raw.associations ==> AssociationOk(a))
    then None
    else Some(raw.(fields := fields.value, associations := associations.value))
  }

  ghost function NewSpec(raw: NodeSpec): Option<NodeSpec> {
    match raw
    case Trigger(_, _, _) => NewTrigger(raw)
    case Condition(left, right) => if BindingOk(left) && BindingOk(right) then Some(raw) else None
    case Action(_, _, _) => NewAction(raw)
  }

  datatype Node = Node(id: string, spec: NodeSpec)

  ghost predicate NodeOk(n: Node) { Identifier(n.id) && NewSpec(n.spec) == Some(n.spec) }

  datatype Edge = Edge(source: string, target: string, whenTrue: bool)

  predicate EdgeOk(e: Edge) { Identifier(e.source) && Identifier(e.target) && e.source != e.target }

  datatype WorkflowGraph = WorkflowGraph(id: string, nodes: seq<Node>, edges: seq<Edge>, v2: bool)

  function NodeKey(n: Node): string { n.id }
  function EdgeKey(e: Edge): string { Joined(e.source, e.target) }

  datatype NodeKind = TriggerKind | ConditionKind | ActionKind

  function KindOf(n: Node): NodeKind {
    match n.spec
    case Trigger(_, _, _) => TriggerKind
    case Condition(_, _) => ConditionKind
    case Action(_, _, _) => ActionKind
  }

  function Kinds(nodes: seq<Node>): set<NodeKind> { set n | n in nodes :: KindOf(n) }

  // The node of one kind.
  function NodeOf(nodes: seq<Node>, kind: NodeKind): (n: Node)
    requires kind in Kinds(nodes)
    ensures n in nodes && KindOf(n) == kind
  {
    if KindOf(nodes[0]) == kind then nodes[0] else
    assert exists n :: n in nodes[1..] && KindOf(n) == kind by {
      var n :| n in nodes && KindOf(n) == kind;
      assert n != nodes[0];
    }
    NodeOf(nodes[1..], kind)
  }

  predicate Conditional(nodes: seq<Node>) {
    Kinds(nodes) == {TriggerKind, ConditionKind, ActionKind} && |nodes| == 3
  }

  predicate Direct(nodes: seq<Node>) {
    Kinds(nodes) == {TriggerKind, ActionKind} && |nodes| == 2
  }

  // The edges a graph of these nodes must have.
  function ExpectedEdges(nodes: seq<Node>): set<Edge>
    requires Conditional(nodes) || Direct(nodes)
  {
    var trigger, action := NodeOf(nodes, TriggerKind).id, NodeOf(nodes, ActionKind).id;
    if Conditional(nodes) then
      var condition := NodeOf(nodes, ConditionKind).id;
      {Edge(trigger, condition, false), Edge(condition, action, true)}
    else {Edge(trigger, action, false)}
  }

  predicate ShapeOk(nodes: seq<Node>, edges: seq<Edge>, v2: bool) {
    && (Conditional(nodes) || (Direct(nodes) && v2))
    && (v2 || !NodeOf(nodes, TriggerKind).spec.created)
    && |edges| == |ExpectedEdges(nodes)| && (set e | e in edges) == ExpectedEdges(nodes)
  }

  ghost predicate GraphPartsOk(raw: WorkflowGraph) {
    Identifier(raw.id) && (forall n :: n in raw.nodes ==> NodeOk(n)) && (forall e :: e in raw.edges ==> EdgeOk(e))
  }

  ghost function NewGraph(raw: WorkflowGraph): Option<WorkflowGraph> {
    var nodes := Unique(raw.nodes, NodeKey);
    if !GraphPartsOk(raw) || nodes.None? || !ShapeOk(nodes.value, raw.edges, raw.v2) then None
    else Some(raw.(nodes := nodes.value, edges := SortBy(raw.edges, EdgeKey)))
  }

  // ------------------------------------------------------------------ scenarios

  datatype Event = Event(id: string, recordId: string, created: bool, before: map<string, Json>, after: map<string, Json>)

  predicate EventOk(e: Event) {
    && Identifier(e.id) && Identifier(e.recordId) && (e.created ==> e.before == map[])
    && forall k :: k in e.before.Keys + e.after.Keys ==> Identifier(k)
  }

  datatype Case = NoMatch | Match | Retry

  datatype Scenario = Scenario(id: string, workflowId: string, case_: Case, events: seq<Event>,
                               expectedFields: seq<FieldMapping>, expectedAssociations: seq<Association>, required: bool)

  predicate EventsOk(case_: Case, events: seq<Event>) {
    && (forall e :: e in events ==> EventOk(e))
    && if case_.Retry? then |events| >= 2 && forall i :: 0 < i < |events| ==> events[i] == events[0] else |events| == 1
  }

  // The expected creation count is not a field: the constructor admits 0 for no_match, 1 otherwise.
  function ExpectedCount(case_: Case): int { if case_.NoMatch? then 0 else 1 }

  ghost function NewScenario(raw: Scenario): Option<Scenario> {
    var fields, associations := Unique(raw.expectedFields, FieldKey), Unique(raw.expectedAssociations, AssociationKey);
    if || !Identifier(raw.id) || !Identifier(raw.workflowId) || !EventsOk(raw.case_, raw.events)
       || fields.None? || associations.None?
       || !(forall f :: f in raw.expectedFields ==> FieldMappingOk(f))
       || !(forall a :: a in raw.expectedAssociations ==> AssociationOk(a))
       || (raw.case_.NoMatch? && (fields.value != [] || associations.value != []))
    then None
    else Some(raw.(expectedFields := fields.value, expectedAssociations := associations.value))
  }

  // ------------------------------------------------------------------ resources

  datatype ValueType = TextType | NumberType | BooleanType | DateType | DatetimeType

  datatype ResourceSpec =
    | WorkflowSpec(graph: WorkflowGraph)
    | ObjectSpec(name: string, slug: string)
    | PropertySpec(objectRef: string, name: string, key: string, valueType: ValueType, required: bool)

  datatype Resource = Resource(id: string, spec: ResourceSpec, dependsOn: seq<string>)

  ghost predicate ResourceSpecOk(id: string, spec: ResourceSpec) {
    match spec
    case WorkflowSpec(graph) => graph.id == id && NewGraph(graph) == Some(graph)
    case ObjectSpec(name, slug) => Text(name) && Identifier(slug)
    case PropertySpec(objectRef, name, key, _, _) => Identifier(objectRef) && Text(name) && Identifier(key)
  }

  ghost function NewResource(raw: Resource): Option<Resource> {
    var dependsOn := Identifiers(raw.dependsOn);
    if !Identifier(raw.id) || dependsOn.None? || raw.id in dependsOn.value || !ResourceSpecOk(raw.id, raw.spec) then None
    else Some(raw.(dependsOn := dependsOn.value))
  }

  // ------------------------------------------------------------------ indexes

  function ResourceKey(r: Resource): string { r.id }
  function ReferenceKey(r: Reference): string { r.id }
  function MappingKey(m: Mapping): string { m.sourceRef }
  function ScenarioKey(s: Scenario): string { s.id }
  function FindingKey(f: Finding): string {
    Joined(f.code, Joined(if f.nodeId.Some? then f.nodeId.value else "", f.message))
  }

  // `index.get(id)`, where the identities are distinct.
  function Lookup<T>(xs: seq<T>, key: T -> string, id: string): (r: Option<T>)
    ensures r.Some? ==> r.value in xs && key(r.value) == id
    ensures r.None? ==> forall x :: x in xs ==> key(x) != id
  {
    if xs == [] then None else if key(xs[0]) == id then Some(xs[0]) else Lookup(xs[1..], key, id)
  }

  function FindReference(refs: seq<Reference>, id: string): (r: Option<Reference>)
    ensures r.Some? ==> r.value in refs && r.value.id == id
    ensures r.None? ==> forall x :: x in refs ==> x.id != id
  {
    Lookup(refs, ReferenceKey, id)
  }

  function FindResource(resources: seq<Resource>, id: string): (r: Option<Resource>)
    ensures r.Some? ==> r.value in resources && r.value.id == id
    ensures r.None? ==> forall x :: x in resources ==> x.id != id
  {
    Lookup(resources, ResourceKey, id)
  }

  // `require_reference`
  predicate Requires(refs: seq<Reference>, id: string, kind: RefKind, parent: Option<string>) {
    var r := FindReference(refs, id);
    r.Some? && r.value.kind == kind && !r.value.source && (parent.Some? ==> r.value.parent == parent)
  }

  // A parent or related object of a reference.
  predicate Owner(r: Reference, id: string) { r.parent == Some(id) || r.related == Some(id) }

  // `reference_index` accepts these references, once their identities are distinct.
  ghost predicate IndexOk(refs: seq<Reference>) {
    && (forall i, j :: 0 <= i < j < |refs| ==>
          !(&& refs[i].source == refs[j].source && refs[i].kind == refs[j].kind && refs[i].parent == refs[j].parent
            && refs[i].planned == refs[j].planned && refs[i].key == refs[j].key))
    && (forall r, id :: r in refs && Owner(r, id) ==>
          var o := FindReference(refs, id);
          o.Some? && o.value.kind.ObjectKind? && o.value.source == r.source)
  }

  // ------------------------------------------------------------------ what a graph refers to

  predicate BindingRefersWell(b: Binding, refs: seq<Reference>, eventObject: string) {
    match b
    case EventField(f, _) => Requires(refs, f, PropertyKind, Some(eventObject))
    case ToReference(r) => Requires(refs, r, RecordKind, None)
    case _ => true
  }

  predicate AssociationRefersWell(a: Association, refs: seq<Reference>, eventObject: string, object_: string) {
    && Requires(refs, a.relationshipRef, RelationshipKind, Some(object_))
    && BindingRefersWell(a.record, refs, eventObject)
    && var actual := if a.record.ToReference? then FindReference(refs, a.record.referenceId).value.parent else Some(eventObject);
       actual == FindReference(refs, a.relationshipRef).value.related
  }

  predicate ReadsBefore(b: Binding) { b.EventField? && b.before }

  // The bindings a node evaluates, except those of associations.
  function Bindings(spec: NodeSpec): set<Binding> {
    match spec
    case Trigger(_, _, _) => {}
    case Condition(left, right) => {left, right}
    case Action(_, fields, _) => set f | f in fields :: f.value
  }

  ghost predicate SpecRefersWell(spec: NodeSpec, refs: seq<Reference>, trigger: NodeSpec)
    requires trigger.Trigger?
  {
    && (trigger.created ==> forall b :: b in Bindings(spec) ==> !ReadsBefore(b))
    && (forall b :: b in Bindings(spec) ==> BindingRefersWell(b, refs, trigger.objectRef))
    && (spec.Action? ==>
          && Requires(refs, spec.objectRef, ObjectKind, None)
          && (forall f :: f in spec.fields ==> Requires(refs, f.fieldRef, PropertyKind, Some(spec.objectRef)))
          && (forall a :: a in spec.associations ==> AssociationRefersWell(a, refs, trigger.objectRef, spec.objectRef)))
  }

  // `validate_references`
  ghost predicate GraphRefersWell(g: WorkflowGraph, refs: seq<Reference>)
    requires TriggerKind in Kinds(g.nodes)
  {
    var trigger := NodeOf(g.nodes, TriggerKind).spec;
    && Requires(refs, trigger.objectRef, ObjectKind, None)
    && (forall f :: f in trigger.changedFields ==> Requires(refs, f, PropertyKind, Some(trigger.objectRef)))
    && (forall n :: n in g.nodes ==> SpecRefersWell(n.spec, refs, trigger))
  }

  function BindingRefs(b: Binding): set<string> {
    match b
    case EventField(f, _) => {f}
    case ToReference(r) => {r}
    case _ => {}
  }

  function SpecRefs(spec: NodeSpec): set<string> {
    match spec
    case Trigger(object_, fields, _) => {object_} + set f | f in fields
    case Condition(left, right) => BindingRefs(left) + BindingRefs(right)
    case Action(object_, fields, associations) =>
      {object_}
      + (set f | f in fields :: f.fieldRef)
      + (set a | a in associations :: a.relationshipRef)
      + (set f, id | f in fields && id in BindingRefs(f.value) :: id)
      + (set a, id | a in associations && id in BindingRefs(a.record) :: id)
  }

  // What a resource refers to itself: `_graph_references` of a workflow, the object of a property.
  function DirectRefs(spec: ResourceSpec): set<string> {
    match spec
    case WorkflowSpec(graph) => set n, id | n in graph.nodes && id in SpecRefs(n.spec) :: id
    case ObjectSpec(_, _) => {}
    case PropertySpec(objectRef, _, _, _, _) => {objectRef}
  }

  function OwnersOf(refs: seq<Reference>, id: string): set<string> {
    var r := FindReference(refs, id);
    if r.None? then {} else
    (if r.value.parent.Some? then {r.value.parent.value} else {}) + (if r.value.related.Some? then {r.value.related.value} else {})
  }

  // The set `used`: the direct references and, one step further, their parents and related objects.
  function UsedRefs(refs: seq<Reference>, spec: ResourceSpec): set<string> {
    DirectRefs(spec) + set d, id | d in DirectRefs(spec) && id in OwnersOf(refs, d) :: id
  }

  // ------------------------------------------------------------------ dependencies

  // Which resources depend on which: `by_id` and `depends_on`.
  type Dependencies = map<string, set<string>>

  function DependenciesOf(resources: seq<Resource>): Dependencies {
    map r | r in Ids(resources) :: var d := FindResource(resources, r); if d.Some? then Elements(d.value.dependsOn) else {}
  }

  function Ids(resources: seq<Resource>): set<string> { set r | r in resources :: r.id }

  predicate Resolved(g: Dependencies) { forall k :: k in g ==> g[k] <= g.Keys }

  function Ready(g: Dependencies, remaining: set<string>): set<string>
    requires remaining <= g.Keys
  {
    set k | k in remaining && g[k] !! remaining
  }

  // What remains to be built after n rounds.
  function Unbuilt(g: Dependencies, n: nat): (r: set<string>)
    ensures r <= g.Keys
  {
    if n == 0 then g.Keys else Unbuilt(g, n - 1) - Ready(g, Unbuilt(g, n - 1))
  }

  // `_dependencies` returns: everything resolves and every resource is built in some round.
  predicate Builds(g: Dependencies) { Resolved(g) && Unbuilt(g, |g|) == {} }

  // ------------------------------------------------------------------ Blueprints

  datatype Blueprint = Blueprint(
    v2: bool,
    id: string,
    revision: string,
    origin: BlueprintOrigin,
    extension: ArtifactIdentity,
    resources: seq<Resource>,
    references: seq<Reference>,
    mappings: seq<Mapping>,
    scenarios: seq<Scenario>,
    unsupported: seq<Finding>,
    parameters: map<string, Json>)

  predicate SpecKindIs(spec: ResourceSpec, kind: RefKind) {
    (spec.ObjectSpec? && kind.ObjectKind?) || (spec.PropertySpec? && kind.PropertyKind?)
  }

  predicate PlannedOk(r: Reference, resources: seq<Resource>) {
    var d := FindResource(resources, r.key);
    && d.Some? && SpecKindIs(d.value.spec, r.kind)
    && (d.value.spec.PropertySpec? ==> Some(d.value.spec.objectRef) == r.parent)
  }

  predicate ExistingOk(r: Reference, refs: seq<Reference>) {
    r.parent.Some? ==> var p := FindReference(refs, r.parent.value); p.Some? && !p.value.planned
  }

  ghost predicate BindingsOk(b: Blueprint) {
    forall r :: r in b.references ==> if r.planned then PlannedOk(r, b.resources) else ExistingOk(r, b.references)
  }

  // `mapped.get(child) == target`, for a child object that is there.
  predicate Mapped(mappings: seq<Mapping>, child: Option<string>, target: Option<string>) {
    child.Some? ==>
      var m := Lookup(mappings, MappingKey, child.value);
      target == if m.Some? then Some(m.value.targetRef) else None
  }

  ghost predicate MappingsOk(b: Blueprint) {
    && (forall i, j :: 0 <= i < j < |b.mappings| ==> b.mappings[i].targetRef != b.mappings[j].targetRef)
    && (forall m :: m in b.mappings ==>
          var s, t := FindReference(b.references, m.sourceRef), FindReference(b.references, m.targetRef);
          && s.Some? && t.Some? && s.value.source && !t.value.source && s.value.kind == t.value.kind
          && Mapped(b.mappings, s.value.parent, t.value.parent)
          && Mapped(b.mappings, s.value.related, t.value.related))
    && (b.origin.template ==> b.mappings == [] && forall r :: r in b.references ==> !r.source)
  }

  ghost predicate ResourceOkIn(r: Resource, b: Blueprint) {
    && (r.spec.WorkflowSpec? ==>
          && r.spec.graph.v2 == b.v2 && TriggerKind in Kinds(r.spec.graph.nodes)
          && GraphRefersWell(r.spec.graph, b.references))
    && (r.spec.PropertySpec? ==> Requires(b.references, r.spec.objectRef, ObjectKind, None))
    && (forall id :: id in UsedRefs(b.references, r.spec) ==>
          var u := FindReference(b.references, id);
          u.Some? && (u.value.planned ==> u.value.key in r.dependsOn))
  }

  // ---- scenarios against their graph

  // The bindings a scenario's events are checked for.
  function Evaluated(s: Scenario, g: WorkflowGraph): set<Binding>
    requires ActionKind in Kinds(g.nodes)
  {
    (if ConditionKind in Kinds(g.nodes) then Bindings(NodeOf(g.nodes, ConditionKind).spec) else {})
    + if s.case_.NoMatch? then {}
      else Bindings(NodeOf(g.nodes, ActionKind).spec) + set f | f in s.expectedFields :: f.value
  }

  predicate Supplied(b: Binding, e: Event) {
    b.EventField? ==> b.fieldRef in if b.before then e.before else e.after
  }

  ghost predicate EventSuits(e: Event, s: Scenario, g: WorkflowGraph, refs: seq<Reference>)
    requires TriggerKind in Kinds(g.nodes) && ActionKind in Kinds(g.nodes)
  {
    var trigger := NodeOf(g.nodes, TriggerKind).spec;
    && (!s.case_.NoMatch? ==> e.created == trigger.created)
    && !(s.case_.NoMatch? && ConditionKind !in Kinds(g.nodes) && trigger.created && e.created)
    && (forall f :: f in e.before.Keys + e.after.Keys ==> Requires(refs, f, PropertyKind, Some(trigger.objectRef)))
    && (e.created == trigger.created ==>
          && (forall f :: f in trigger.changedFields ==> f in e.before && f in e.after)
          && (forall b :: b in Evaluated(s, g) ==> Supplied(b, e)))
  }

  // `_validate_scenario`
  ghost predicate ScenarioSuits(s: Scenario, g: WorkflowGraph, refs: seq<Reference>)
    requires TriggerKind in Kinds(g.nodes) && ActionKind in Kinds(g.nodes)
  {
    var trigger, action := NodeOf(g.nodes, TriggerKind).spec, NodeOf(g.nodes, ActionKind).spec;
    && (forall e :: e in s.events ==> EventSuits(e, s, g, refs))
    && (!s.case_.NoMatch? ==>
          && (set f | f in s.expectedFields :: f.fieldRef) == (set f | f in action.fields :: f.fieldRef)
          && (set a | a in s.expectedAssociations :: a.relationshipRef) == (set a | a in action.associations :: a.relationshipRef))
    && (forall f :: f in s.expectedFields ==>
          && Requires(refs, f.fieldRef, PropertyKind, Some(action.objectRef))
          && BindingRefersWell(f.value, refs, trigger.objectRef))
    && (forall a :: a in s.expectedAssociations ==> AssociationRefersWell(a, refs, trigger.objectRef, action.objectRef))
  }

  ghost predicate ScenarioOkIn(s: Scenario, b: Blueprint) {
    && (b.v2 || forall e :: e in s.events ==> !e.created)
    && var r := FindResource(b.resources, s.workflowId);
       && r.Some? && r.value.spec.WorkflowSpec?
       && var g := r.value.spec.graph;
          TriggerKind in Kinds(g.nodes) && ActionKind in Kinds(g.nodes) && ScenarioSuits(s, g, b.references)
  }

  ghost predicate Covered(b: Blueprint) {
    b.unsupported == [] ==>
      forall r :: r in b.resources && r.spec.WorkflowSpec? ==>
        (set s | s in b.scenarios && s.workflowId == r.id && s.required :: s.case_) == {NoMatch, Match, Retry}
  }

  // `_validate`, for schema versions v1 and v2.
  ghost predicate Validates(b: Blueprint) {
    && Builds(DependenciesOf(b.resources))
    && IndexOk(b.references)
    && BindingsOk(b)
    && MappingsOk(b)
    && (forall r :: r in b.resources ==> ResourceOkIn(r, b))
    && (forall s :: s in b.scenarios ==> ScenarioOkIn(s, b))
    && Covered(b)
  }

  ghost predicate PartsOk(raw: Blueprint) {
    && Identifier(raw.id) && Text(raw.revision) && OriginOk(raw.origin) && IdentityOk(raw.extension)
    && (forall r :: r in raw.resources ==> NewResource(r) == Some(r))
    && (forall r :: r in raw.references ==> ReferenceOk(r))
    && (forall m :: m in raw.mappings ==> MappingOk(m))
    && (forall s :: s in raw.scenarios ==> NewScenario(s) == Some(s))
    && (forall f :: f in raw.unsupported ==> FindingOk(f))
  }

  ghost function NewBlueprint(raw: Blueprint): Option<Blueprint> {
    var resources, references := Unique(raw.resources, ResourceKey), Unique(raw.references, ReferenceKey);
    var mappings, scenarios := Unique(raw.mappings, MappingKey), Unique(raw.scenarios, ScenarioKey);
    if !PartsOk(raw) || resources.None? || references.None? || mappings.None? || scenarios.None? then None else
    var b := raw.(resources := resources.value, references := references.value, mappings := mappings.value,
                  scenarios := scenarios.value, unsupported := SortBy(raw.unsupported, FindingKey));
    if Validates(b) then Some(b) else None
  }
}
