/**
 The wire form of Flow Blueprints, schema versions v1 and v2: every record's `to_dict` and
 `from_dict`. Two members are left out where they hold their default, the graph's schema version and
 the event's operation, and reading puts them back.
 */
module FlowWire {
  import opened Basics
  import opened JsonValues
  import opened FlowModel

  // `object_fields`
  function ObjectFields(j: Json, names: set<Name>): Option<map<Name, Json>> {
    if j.JObj? && j.members.Keys == names then Some(j.members) else None
  }

  function BoolOf(j: Json): Option<bool> { if j.JBool? then Some(j.b) else None }

  // `choice` between two texts.
  function OneOf(j: Json, yes: string, no: string): Option<bool> {
    if j == JStr(yes) then Some(true) else if j == JStr(no) then Some(false) else None
  }

  function Pick(b: bool, yes: string, no: string): Json { JStr(if b then yes else no) }

  lemma Picked(b: bool, yes: string, no: string)
    requires yes != no
    ensures OneOf(Pick(b, yes, no), yes, no) == Some(b)
  {}

  const UPDATED := "record.updated"
  const CREATED := "record.created"

  // ------------------------------------------------------------------ identities and references

  function IdentityJson(a: ArtifactIdentity): Json {
    JObj(map[Id := JStr(a.id), Revision := JStr(a.revision), Digest := JStr(a.digest)])
  }

  function IdentityFrom(j: Json): Option<ArtifactIdentity> {
    var p := ObjectFields(j, {Id, Revision, Digest});
    if p.None? then None else
    var id, revision, digest := Str(Get(p.value, Id)), Str(Get(p.value, Revision)), Str(Get(p.value, Digest));
    if id.None? || revision.None? || digest.None? then None else
    var a := ArtifactIdentity(id.value, revision.value, digest.value);
    if IdentityOk(a) then Some(a) else None
  }

  lemma IdentityRoundTrip(a: ArtifactIdentity)
    requires IdentityOk(a)
    ensures IdentityFrom(IdentityJson(a)) == Some(a)
  {}

  function OriginJson(o: BlueprintOrigin): Json {
    JObj(map[Kind := Pick(o.template, "template", "source"), Identity := IdentityJson(o.identity)])
  }

  function OriginFrom(j: Json): Option<BlueprintOrigin> {
    var p := ObjectFields(j, {Kind, Identity});
    if p.None? then None else
    var template, identity := OneOf(Get(p.value, Kind), "template", "source"), IdentityFrom(Get(p.value, Identity));
    if template.None? || identity.None? then None else Some(BlueprintOrigin(template.value, identity.value))
  }

  lemma OriginRoundTrip(o: BlueprintOrigin)
    requires OriginOk(o)
    ensures OriginFrom(OriginJson(o)) == Some(o)
  {
    IdentityRoundTrip(o.identity);
    Picked(o.template, "template", "source");
  }

  function RefKindText(k: RefKind): string {
    match k
    case ObjectKind => "object"
    case PropertyKind => "property"
    case RelationshipKind => "relationship"
    case RecordKind => "record"
  }

  function RefKindFrom(j: Json): Option<RefKind> {
    if j == JStr("object") then Some(ObjectKind)
    else if j == JStr("property") then Some(PropertyKind)
    else if j == JStr("relationship") then Some(RelationshipKind)
    else if j == JStr("record") then Some(RecordKind)
    else None
  }

  lemma RefKindRoundTrip(k: RefKind)
    ensures RefKindFrom(JStr(RefKindText(k))) == Some(k)
  {
    assert |"object"| == 6 && |"property"| == 8 && |"relationship"| == 12;
    assert "object"[0] != "record"[0];
  }

  function ReferenceJson(r: Reference): Json {
    JObj(map[
      Id := JStr(r.id),
      Kind := JStr(RefKindText(r.kind)),
      Key := JStr(r.key),
      ParentId := OrNull(r.parent),
      Scope := Pick(r.source, "source", "target"),
      Name.Binding := Pick(r.planned, "resource", "existing"),
      RelatedObjectId := OrNull(r.related)])
  }

  function ReferenceOf(p: map<Name, Json>): Option<Reference> {
    var id, kind, key := Str(Get(p, Id)), RefKindFrom(Get(p, Kind)), Str(Get(p, Key));
    var parent, related := MaybeString(Get(p, ParentId)), MaybeString(Get(p, RelatedObjectId));
    var source, planned := OneOf(Get(p, Scope), "source", "target"), OneOf(Get(p, Name.Binding), "resource", "existing");
    if id.None? || kind.None? || key.None? || parent.None? || related.None? || source.None? || planned.None? then None else
    var r := Reference(id.value, kind.value, key.value, parent.value, source.value, planned.value, related.value);
    if ReferenceOk(r) then Some(r) else None
  }

  function ReferenceFrom(j: Json): Option<Reference> {
    var p := ObjectFields(j, {Id, Kind, Key, ParentId, Scope, Name.Binding, RelatedObjectId});
    if p.None? then None else ReferenceOf(p.value)
  }

  lemma ReferenceIsRead(r: Reference, p: map<Name, Json>)
    requires ReferenceOk(r)
    requires Has(p, Id, JStr(r.id)) && Has(p, Kind, JStr(RefKindText(r.kind))) && Has(p, Key, JStr(r.key))
    requires Has(p, ParentId, OrNull(r.parent)) && Has(p, RelatedObjectId, OrNull(r.related))
    requires Has(p, Scope, Pick(r.source, "source", "target")) && Has(p, Name.Binding, Pick(r.planned, "resource", "existing"))
    ensures ReferenceOf(p) == Some(r)
  {
    RefKindRoundTrip(r.kind);
    Picked(r.source, "source", "target");
    Picked(r.planned, "resource", "existing");
  }

  lemma ReferenceRoundTrip(r: Reference)
    requires ReferenceOk(r)
    ensures ReferenceFrom(ReferenceJson(r)) == Some(r)
  {
    ReferenceIsRead(r, ReferenceJson(r).members);
  }

  function MappingJson(m: Mapping): Json {
    JObj(map[SourceRef := JStr(m.sourceRef), TargetRef := JStr(m.targetRef)])
  }

  function MappingFrom(j: Json): Option<Mapping> {
    var p := ObjectFields(j, {SourceRef, TargetRef});
    if p.None? then None else
    var source, target := Str(Get(p.value, SourceRef)), Str(Get(p.value, TargetRef));
    if source.None? || target.None? || !MappingOk(Mapping(source.value, target.value)) then None
    else Some(Mapping(source.value, target.value))
  }

  lemma MappingRoundTrip(m: Mapping)
    requires MappingOk(m)
    ensures MappingFrom(MappingJson(m)) == Some(m)
  {}

  function FindingJson(f: Finding): Json {
    JObj(map[Code := JStr(f.code), Message := JStr(f.message), NodeId := OrNull(f.nodeId)])
  }

  function FindingFrom(j: Json): Option<Finding> {
    var p := ObjectFields(j, {Code, Message, NodeId});
    if p.None? then None else
    var code, message, node := Str(Get(p.value, Code)), Str(Get(p.value, Message)), MaybeString(Get(p.value, NodeId));
    if code.None? || message.None? || node.None? || !FindingOk(Finding(code.value, message.value, node.value)) then None
    else Some(Finding(code.value, message.value, node.value))
  }

  lemma FindingRoundTrip(f: Finding)
    requires FindingOk(f)
    ensures FindingFrom(FindingJson(f)) == Some(f)
  {}

  // ------------------------------------------------------------------ bindings and mappings

  function BindingJson(b: Binding): Json {
    match b
    case Literal(value) => JObj(map[Kind := JStr("literal"), Value := value])
    case EventRecord => JObj(map[Kind := JStr("event_record")])
    case EventField(f, before) => JObj(map[Kind := JStr("event_field"), FieldRef := JStr(f), Phase := Pick(before, "before", "after")])
    case ToReference(r) => JObj(map[Kind := JStr("reference"), ReferenceId := JStr(r)])
  }

  // The members each kind of binding has, and no others.
  function BindingFrom(j: Json): Option<Binding> {
    if !j.JObj? then None else
    var p := j.members;
    var kind := Get(p, Kind);
    if kind == JStr("literal") then
      if p.Keys == {Kind, Value} then Some(Literal(p[Value])) else None
    else if kind == JStr("event_record") then
      if p.Keys == {Kind} then Some(EventRecord) else None
    else if kind == JStr("event_field") then
      var f, before := Str(Get(p, FieldRef)), OneOf(Get(p, Phase), "before", "after");
      if p.Keys == {Kind, FieldRef, Phase} && f.Some? && Identifier(f.value) && before.Some?
      then Some(EventField(f.value, before.value)) else None
    else if kind == JStr("reference") then
      var r := Str(Get(p, ReferenceId));
      if p.Keys == {Kind, ReferenceId} && r.Some? && Identifier(r.value) then Some(ToReference(r.value)) else None
    else None
  }

  lemma BindingKindsDiffer()
    ensures "literal" != "event_record" && "literal" != "event_field" && "literal" != "reference"
    ensures "event_record" != "event_field" && "event_record" != "reference" && "event_field" != "reference"
  {
    assert |"literal"| == 7 && |"event_record"| == 12 && |"event_field"| == 11 && |"reference"| == 9;
  }

  lemma BindingRoundTrip(b: Binding)
    requires BindingOk(b)
    ensures BindingFrom(BindingJson(b)) == Some(b)
  {
    BindingKindsDiffer();
    if b.EventField? { Picked(b.before, "before", "after"); }
  }

  function FieldMappingJson(f: FieldMapping): Json {
    JObj(map[FieldRef := JStr(f.fieldRef), Value := BindingJson(f.value)])
  }

  function FieldMappingFrom(j: Json): Option<FieldMapping> {
    var p := ObjectFields(j, {FieldRef, Value});
    if p.None? then None else
    var f, value := Str(Get(p.value, FieldRef)), BindingFrom(Get(p.value, Value));
    if f.None? || value.None? || !FieldMappingOk(FieldMapping(f.value, value.value)) then None
    else Some(FieldMapping(f.value, value.value))
  }

  lemma FieldMappingRoundTrip(f: FieldMapping)
    requires FieldMappingOk(f)
    ensures FieldMappingFrom(FieldMappingJson(f)) == Some(f)
  {
    BindingRoundTrip(f.value);
  }

  lemma FieldMappingsRoundTrip(fields: seq<FieldMapping>)
    requires forall f :: f in fields ==> FieldMappingOk(f)
    ensures DecodeArray(JArr(EncodeAll(fields, FieldMappingJson)), FieldMappingFrom) == Some(fields)
  {
    forall i | 0 <= i < |fields| ensures FieldMappingFrom(FieldMappingJson(fields[i])) == Some(fields[i]) {
      FieldMappingRoundTrip(fields[i]);
    }
    ArraysAreLossless(fields, FieldMappingJson, FieldMappingFrom);
  }

  function AssociationJson(a: Association): Json {
    JObj(map[RelationshipRef := JStr(a.relationshipRef), Record := BindingJson(a.record), Required := JBool(a.required)])
  }

  function AssociationFrom(j: Json): Option<Association> {
    var p := ObjectFields(j, {RelationshipRef, Record, Required});
    if p.None? then None else
    var r, record, required := Str(Get(p.value, RelationshipRef)), BindingFrom(Get(p.value, Record)), BoolOf(Get(p.value, Required));
    if r.None? || record.None? || required.None? || !AssociationOk(Association(r.value, record.value, required.value)) then None
    else Some(Association(r.value, record.value, required.value))
  }

  lemma AssociationRoundTrip(a: Association)
    requires AssociationOk(a)
    ensures AssociationFrom(AssociationJson(a)) == Some(a)
  {
    BindingRoundTrip(a.record);
  }

  lemma AssociationsRoundTrip(associations: seq<Association>)
    requires forall a :: a in associations ==> AssociationOk(a)
    ensures DecodeArray(JArr(EncodeAll(associations, AssociationJson)), AssociationFrom) == Some(associations)
  {
    forall i | 0 <= i < |associations| ensures AssociationFrom(AssociationJson(associations[i])) == Some(associations[i]) {
      AssociationRoundTrip(associations[i]);
    }
    ArraysAreLossless(associations, AssociationJson, AssociationFrom);
  }

  function IdentifierFrom(j: Json): Option<string> {
    if j.JStr? && Identifier(j.s) then Some(j.s) else None
  }

  lemma IdentifiersRoundTrip(xs: seq<string>)
    requires forall i :: 0 <= i < |xs| ==> Identifier(xs[i])
    ensures DecodeArray(JArr(Strings(xs)), IdentifierFrom) == Some(xs)
  {
    ArraysAreLossless(xs, (x: string) => JStr(x), IdentifierFrom);
  }

  // ------------------------------------------------------------------ node specs

  const RECORD_IDENTITY := JObj(map[
    Scope := JStr("installation_workflow_action_event_record"),
    OnExisting := JStr("preserve"),
    OnMissing := JStr("conflict")])

  function TriggerJson(t: NodeSpec): Json
    requires t.Trigger?
  {
    JObj(map[
      Operation := Pick(t.created, CREATED, UPDATED),
      ObjectRef := JStr(t.objectRef),
      ChangedFields := JArr(Strings(t.changedFields))])
  }

  // The parts a trigger is constructed from.
  function TriggerParts(p: map<Name, Json>): Option<NodeSpec> {
    var created, object_ := OneOf(Get(p, Operation), CREATED, UPDATED), Str(Get(p, ObjectRef));
    var fields := DecodeArray(Get(p, ChangedFields), IdentifierFrom);
    if created.None? || object_.None? || fields.None? then None
    else Some(Trigger(object_.value, fields.value, created.value))
  }

  function TriggerRaw(j: Json): Option<NodeSpec> {
    var p := ObjectFields(j, {Operation, ObjectRef, ChangedFields});
    if p.None? then None else TriggerParts(p.value)
  }

  lemma OperationsDiffer()
    ensures CREATED != UPDATED
  {
    assert CREATED[7] != UPDATED[7];
  }

  lemma TriggerIsRead(t: NodeSpec, p: map<Name, Json>)
    requires t.Trigger? && forall i :: 0 <= i < |t.changedFields| ==> Identifier(t.changedFields[i])
    requires Has(p, Operation, Pick(t.created, CREATED, UPDATED)) && Has(p, ObjectRef, JStr(t.objectRef))
    requires Has(p, ChangedFields, JArr(Strings(t.changedFields)))
    ensures TriggerParts(p) == Some(t)
  {
    OperationsDiffer();
    Picked(t.created, CREATED, UPDATED);
    IdentifiersRoundTrip(t.changedFields);
  }

  lemma TriggerRoundTrip(t: NodeSpec)
    requires t.Trigger? && forall i :: 0 <= i < |t.changedFields| ==> Identifier(t.changedFields[i])
    ensures TriggerRaw(TriggerJson(t)) == Some(t)
  {
    TriggerIsRead(t, TriggerJson(t).members);
  }

  function ConditionJson(c: NodeSpec): Json
    requires c.Condition?
  {
    JObj(map[Operator := JStr("equals"), Name.Left := BindingJson(c.left), Right := BindingJson(c.right)])
  }

  function ConditionRaw(j: Json): Option<NodeSpec> {
    var p := ObjectFields(j, {Operator, Name.Left, Right});
    if p.None? || Get(p.value, Operator) != JStr("equals") then None else
    var left, right := BindingFrom(Get(p.value, Name.Left)), BindingFrom(Get(p.value, Right));
    if left.None? || right.None? then None else Some(Condition(left.value, right.value))
  }

  lemma ConditionRoundTrip(c: NodeSpec)
    requires c.Condition? && BindingOk(c.left) && BindingOk(c.right)
    ensures ConditionRaw(ConditionJson(c)) == Some(c)
  {
    BindingRoundTrip(c.left);
    BindingRoundTrip(c.right);
  }

  function ActionJson(a: NodeSpec): Json
    requires a.Action?
  {
    JObj(map[
      Operation := JStr("record.create"),
      ObjectRef := JStr(a.objectRef),
      Fields := JArr(EncodeAll(a.fields, FieldMappingJson)),
      Associations := JArr(EncodeAll(a.associations, AssociationJson)),
      Identity := RECORD_IDENTITY])
  }

  // The parts an action is constructed from.
  function ActionParts(p: map<Name, Json>): Option<NodeSpec> {
    var object_ := Str(Get(p, ObjectRef));
    var fields := DecodeArray(Get(p, Fields), FieldMappingFrom);
    var associations := DecodeArray(Get(p, Associations), AssociationFrom);
    if || Get(p, Operation) != JStr("record.create") || Get(p, Identity) != RECORD_IDENTITY
       || object_.None? || fields.None? || associations.None?
    then None
    else Some(Action(object_.value, fields.value, associations.value))
  }

  function ActionRaw(j: Json): Option<NodeSpec> {
    var p := ObjectFields(j, {Operation, ObjectRef, Fields, Associations, Identity});
    if p.None? then None else ActionParts(p.value)
  }

  lemma ActionIsRead(a: NodeSpec, p: map<Name, Json>)
    requires a.Action? && (forall f :: f in a.fields ==> FieldMappingOk(f)) && (forall x :: x in a.associations ==> AssociationOk(x))
    requires Has(p, Operation, JStr("record.create")) && Has(p, ObjectRef, JStr(a.objectRef)) && Has(p, Identity, RECORD_IDENTITY)
    requires Has(p, Fields, JArr(EncodeAll(a.fields, FieldMappingJson)))
    requires Has(p, Associations, JArr(EncodeAll(a.associations, AssociationJson)))
    ensures ActionParts(p) == Some(a)
  {
    FieldMappingsRoundTrip(a.fields);
    AssociationsRoundTrip(a.associations);
  }

  lemma ActionMembers(a: NodeSpec, p: map<Name, Json>)
    requires a.Action? && p == ActionJson(a).members
    ensures p.Keys == {Operation, ObjectRef, Fields, Associations, Identity}
    ensures Has(p, Operation, JStr("record.create")) && Has(p, ObjectRef, JStr(a.objectRef)) && Has(p, Identity, RECORD_IDENTITY)
    ensures Has(p, Fields, JArr(EncodeAll(a.fields, FieldMappingJson)))
    ensures Has(p, Associations, JArr(EncodeAll(a.associations, AssociationJson)))
  {}

  lemma ActionRoundTrip(a: NodeSpec)
    requires a.Action? && (forall f :: f in a.fields ==> FieldMappingOk(f)) && (forall x :: x in a.associations ==> AssociationOk(x))
    ensures ActionRaw(ActionJson(a)) == Some(a)
  {
    var p := ActionJson(a).members;
    ActionMembers(a, p);
    ActionIsRead(a, p);
  }

  // ------------------------------------------------------------------ graphs

  function SpecJson(s: NodeSpec): Json {
    match s
    case Trigger(_, _, _) => TriggerJson(s)
    case Condition(_, _) => ConditionJson(s)
    case Action(_, _, _) => ActionJson(s)
  }

  function KindText(s: NodeSpec): string {
    match s
    case Trigger(_, _, _) => "trigger"
    case Condition(_, _) => "condition"
    case Action(_, _, _) => "action"
  }

  function NodeJson(n: Node): Json {
    JObj(map[Id := JStr(n.id), Kind := JStr(KindText(n.spec)), Spec := SpecJson(n.spec)])
  }

  // The parts a node's spec is constructed from.
  function SpecRaw(kind: Json, j: Json): Option<NodeSpec> {
    if kind == JStr("trigger") then TriggerRaw(j)
    else if kind == JStr("condition") then ConditionRaw(j)
    else if kind == JStr("action") then ActionRaw(j)
    else None
  }

  ghost function SpecFrom(kind: Json, j: Json): Option<NodeSpec> {
    var raw := SpecRaw(kind, j);
    if raw.None? then None else NewSpec(raw.value)
  }

  ghost function NodeFrom(j: Json): Option<Node> {
    var p := ObjectFields(j, {Id, Kind, Spec});
    if p.None? then None else
    var id, spec := Str(Get(p.value, Id)), SpecFrom(Get(p.value, Kind), Get(p.value, Spec));
    if id.None? || spec.None? || !Identifier(id.value) then None else Some(Node(id.value, spec.value))
  }

  // What a constructed spec's own parts satisfy.
  ghost predicate SpecPartsOk(s: NodeSpec) {
    match s
    case Trigger(_, fields, _) => forall i :: 0 <= i < |fields| ==> Identifier(fields[i])
    case Condition(left, right) => BindingOk(left) && BindingOk(right)
    case Action(_, fields, associations) => (forall f :: f in fields ==> FieldMappingOk(f)) && (forall x :: x in associations ==> AssociationOk(x))
  }

  lemma BuiltSpecParts(s: NodeSpec)
    requires NewSpec(s) == Some(s)
    ensures SpecPartsOk(s)
  {}

  lemma SpecIsRead(s: NodeSpec)
    requires SpecPartsOk(s)
    ensures SpecRaw(JStr(KindText(s)), SpecJson(s)) == Some(s)
  {
    assert |"trigger"| == 7 && |"condition"| == 9 && |"action"| == 6;
    match s
    case Trigger(_, _, _) => TriggerRoundTrip(s);
    case Condition(_, _) => ConditionRoundTrip(s);
    case Action(_, _, _) => ActionRoundTrip(s);
  }

  lemma SpecRoundTrip(s: NodeSpec)
    requires NewSpec(s) == Some(s)
    ensures SpecFrom(JStr(KindText(s)), SpecJson(s)) == Some(s)
  {
    BuiltSpecParts(s);
    SpecIsRead(s);
  }

  lemma NodeRoundTrip(n: Node)
    requires NodeOk(n)
    ensures NodeFrom(NodeJson(n)) == Some(n)
  {
    SpecRoundTrip(n.spec);
  }

  function EdgeJson(e: Edge): Json {
    JObj(map[Source := JStr(e.source), Target := JStr(e.target), When := Pick(e.whenTrue, "true", "always")])
  }

  function EdgeFrom(j: Json): Option<Edge> {
    var p := ObjectFields(j, {Source, Target, When});
    if p.None? then None else
    var source, target, whenTrue := Str(Get(p.value, Source)), Str(Get(p.value, Target)), OneOf(Get(p.value, When), "true", "always");
    if source.None? || target.None? || whenTrue.None? || !EdgeOk(Edge(source.value, target.value, whenTrue.value)) then None
    else Some(Edge(source.value, target.value, whenTrue.value))
  }

  lemma EdgeRoundTrip(e: Edge)
    requires EdgeOk(e)
    ensures EdgeFrom(EdgeJson(e)) == Some(e)
  {
    Picked(e.whenTrue, "true", "always");
  }

  const GRAPH_V2 := "sanka-flow-graph/v2"

  // Version v1 is not written.
  function GraphJson(g: WorkflowGraph): Json {
    var p := map[
      Id := JStr(g.id),
      Nodes := JArr(EncodeAll(g.nodes, NodeJson)),
      Edges := JArr(EncodeAll(g.edges, EdgeJson))];
    JObj(if g.v2 then p[SchemaVersion := JStr(GRAPH_V2)] else p)
  }

  // The parts a graph is constructed from.
  ghost function GraphParts(p: map<Name, Json>, v2: bool): Option<WorkflowGraph> {
    var id, nodes, edges := Str(Get(p, Id)), DecodeArray(Get(p, Nodes), NodeFrom), DecodeArray(Get(p, Edges), EdgeFrom);
    if id.None? || nodes.None? || edges.None? then None
    else Some(WorkflowGraph(id.value, nodes.value, edges.value, v2))
  }

  function GraphNames(versioned: bool): set<Name> {
    if versioned then {Id, Nodes, Edges, SchemaVersion} else {Id, Nodes, Edges}
  }

  // Nor may it be: an explicit version must be v2.
  ghost function GraphRaw(j: Json): Option<WorkflowGraph> {
    var versioned := j.JObj? && SchemaVersion in j.members;
    var p := ObjectFields(j, GraphNames(versioned));
    if p.None? || (versioned && p.value[SchemaVersion] != JStr(GRAPH_V2)) then None else GraphParts(p.value, versioned)
  }

  ghost function GraphFrom(j: Json): Option<WorkflowGraph> {
    var raw := GraphRaw(j);
    if raw.None? then None else NewGraph(raw.value)
  }

  lemma NodesRoundTrip(nodes: seq<Node>)
    requires forall n :: n in nodes ==> NodeOk(n)
    ensures DecodeArray(JArr(EncodeAll(nodes, NodeJson)), NodeFrom) == Some(nodes)
  {
    forall i | 0 <= i < |nodes| ensures NodeFrom(NodeJson(nodes[i])) == Some(nodes[i]) {
      NodeRoundTrip(nodes[i]);
    }
    ArraysAreLossless(nodes, NodeJson, NodeFrom);
  }

  lemma EdgesRoundTrip(edges: seq<Edge>)
    requires forall e :: e in edges ==> EdgeOk(e)
    ensures DecodeArray(JArr(EncodeAll(edges, EdgeJson)), EdgeFrom) == Some(edges)
  {
    forall i | 0 <= i < |edges| ensures EdgeFrom(EdgeJson(edges[i])) == Some(edges[i]) {
      EdgeRoundTrip(edges[i]);
    }
    ArraysAreLossless(edges, EdgeJson, EdgeFrom);
  }

  lemma GraphIsRead(g: WorkflowGraph, p: map<Name, Json>)
    requires GraphPartsOk(g)
    requires Has(p, Id, JStr(g.id)) && Has(p, Nodes, JArr(EncodeAll(g.nodes, NodeJson))) && Has(p, Edges, JArr(EncodeAll(g.edges, EdgeJson)))
    ensures GraphParts(p, g.v2) == Some(g)
  {
    NodesRoundTrip(g.nodes);
    EdgesRoundTrip(g.edges);
  }

  lemma GraphMembers(g: WorkflowGraph, p: map<Name, Json>)
    requires p == GraphJson(g).members
    ensures p.Keys == GraphNames(g.v2) && (g.v2 ==> p[SchemaVersion] == JStr(GRAPH_V2))
    ensures Has(p, Id, JStr(g.id)) && Has(p, Nodes, JArr(EncodeAll(g.nodes, NodeJson))) && Has(p, Edges, JArr(EncodeAll(g.edges, EdgeJson)))
  {}

  lemma GraphIsReadWhole(g: WorkflowGraph, p: map<Name, Json>)
    requires GraphParts(p, g.v2) == Some(g)
    requires p.Keys == GraphNames(g.v2) && (g.v2 ==> p[SchemaVersion] == JStr(GRAPH_V2))
    ensures GraphRaw(JObj(p)) == Some(g)
  {}

  lemma GraphRawRoundTrip(g: WorkflowGraph)
    requires GraphPartsOk(g)
    ensures GraphRaw(GraphJson(g)) == Some(g)
  {
    var p := GraphJson(g).members;
    GraphMembers(g, p);
    GraphIsRead(g, p);
    GraphIsReadWhole(g, p);
  }

  lemma BuiltGraphParts(g: WorkflowGraph)
    requires NewGraph(g) == Some(g)
    ensures GraphPartsOk(g)
  {}

  /** A graph reads back as itself, with the version it had, though v1 is not written. */
  lemma GraphRoundTrip(g: WorkflowGraph)
    requires NewGraph(g) == Some(g)
    ensures GraphFrom(GraphJson(g)) == Some(g)
  {
    BuiltGraphParts(g);
    GraphRawRoundTrip(g);
  }

  /** The default version may not be spelled out: a v1 graph that names its version is refused. */
  lemma ExplicitV1IsRefused(g: WorkflowGraph, version: string)
    requires !g.v2 && version != GRAPH_V2
    ensures GraphFrom(JObj(GraphJson(g).members[SchemaVersion := JStr(version)])).None?
  {}
}
