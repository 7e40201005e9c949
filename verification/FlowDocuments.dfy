/**
 Whole Flow documents on the wire, schema versions v1 and v2: scenarios, resources, Blueprints and
 the response that carries a Blueprint to the requester.
 */
module FlowDocuments {
  import opened Basics
  import opened Ordering
  import opened JsonValues
  import opened FlowModel
  import opened FlowCanonical
  import opened FlowWire

  // ------------------------------------------------------------------ scenarios

  // The default operation, record.updated, is not written.
  function EventJson(e: Event): Json {
    var p := map[Id := JStr(e.id), RecordId := JStr(e.recordId), Before := JDict(e.before), After := JDict(e.after)];
    JObj(if e.created then p[Operation := JStr(CREATED)] else p)
  }

  function EventNames(versioned: bool): set<Name> {
    if versioned then {Id, RecordId, Before, After, Operation} else {Id, RecordId, Before, After}
  }

  function EventFrom(j: Json): Option<Event> {
    var explicit := j.JObj? && Operation in j.members;
    var p := ObjectFields(j, EventNames(explicit));
    if p.None? then None else
    var created := if explicit then OneOf(p.value[Operation], CREATED, UPDATED) else Some(false);
    EventParts(p.value, created)
  }

  function EventParts(p: map<Name, Json>, created: Option<bool>): Option<Event> {
    var id, record, before, after := Str(Get(p, Id)), Str(Get(p, RecordId)), Dict(Get(p, Before)), Dict(Get(p, After));
    if id.None? || record.None? || before.None? || after.None? || created.None? then None else
    var e := Event(id.value, record.value, created.value, before.value, after.value);
    if EventOk(e) then Some(e) else None
  }

  lemma EventMembers(e: Event, p: map<Name, Json>)
    requires p == EventJson(e).members
    ensures p.Keys == EventNames(e.created) && (e.created ==> p[Operation] == JStr(CREATED))
    ensures Has(p, Id, JStr(e.id)) && Has(p, RecordId, JStr(e.recordId)) && Has(p, Before, JDict(e.before)) && Has(p, After, JDict(e.after))
  {}

  /** An event reads back as itself, with the operation it had, though the default is not written. */
  lemma EventRoundTrip(e: Event)
    requires EventOk(e)
    ensures EventFrom(EventJson(e)) == Some(e)
  {
    EventMembers(e, EventJson(e).members);
  }

  /** An event that spells its default operation out reads as the same event. */
  lemma ExplicitDefaultIsRead(e: Event)
    requires EventOk(e) && !e.created
    ensures EventFrom(JObj(EventJson(e).members[Operation := JStr(UPDATED)])) == Some(e)
  {
    var p := EventJson(e).members[Operation := JStr(UPDATED)];
    OperationsDiffer();
    assert p.Keys == EventNames(true);
    assert EventParts(p, Some(false)) == Some(e);
  }

  lemma EventsRoundTrip(events: seq<Event>)
    requires forall e :: e in events ==> EventOk(e)
    ensures DecodeArray(JArr(EncodeAll(events, EventJson)), EventFrom) == Some(events)
  {
    forall i | 0 <= i < |events| ensures EventFrom(EventJson(events[i])) == Some(events[i]) {
      EventRoundTrip(events[i]);
    }
    ArraysAreLossless(events, EventJson, EventFrom);
  }

  function CaseText(c: Case): string {
    match c
    case NoMatch => "no_match"
    case Match => "match"
    case Retry => "retry"
  }

  function CaseFrom(j: Json): Option<Case> {
    if j == JStr("no_match") then Some(NoMatch)
    else if j == JStr("match") then Some(Match)
    else if j == JStr("retry") then Some(Retry)
    else None
  }

  lemma CaseRoundTrip(c: Case)
    ensures CaseFrom(JStr(CaseText(c))) == Some(c)
  {
    assert |"no_match"| == 8 && "match"[0] != "retry"[0];
  }

  const SCENARIO_NAMES := {Id, WorkflowId, Name.Case, Events, ExpectedCreatedCount, ExpectedFields, ExpectedAssociations, Required}

  function ScenarioJson(s: Scenario): Json {
    JObj(map[
      Id := JStr(s.id),
      WorkflowId := JStr(s.workflowId),
      Name.Case := JStr(CaseText(s.case_)),
      Events := JArr(EncodeAll(s.events, EventJson)),
      ExpectedCreatedCount := JInt(ExpectedCount(s.case_)),
      ExpectedFields := JArr(EncodeAll(s.expectedFields, FieldMappingJson)),
      ExpectedAssociations := JArr(EncodeAll(s.expectedAssociations, AssociationJson)),
      Required := JBool(s.required)])
  }

  function ScenarioParts(p: map<Name, Json>): Option<Scenario> {
    var id, workflow, case_, required := Str(Get(p, Id)), Str(Get(p, WorkflowId)), CaseFrom(Get(p, Name.Case)), BoolOf(Get(p, Required));
    var events := DecodeArray(Get(p, Events), EventFrom);
    var fields := DecodeArray(Get(p, ExpectedFields), FieldMappingFrom);
    var associations := DecodeArray(Get(p, ExpectedAssociations), AssociationFrom);
    if || id.None? || workflow.None? || case_.None? || required.None? || events.None? || fields.None? || associations.None?
       || Get(p, ExpectedCreatedCount) != JInt(ExpectedCount(case_.value))
    then None
    else Some(Scenario(id.value, workflow.value, case_.value, events.value, fields.value, associations.value, required.value))
  }

  function ScenarioRaw(j: Json): Option<Scenario> {
    var p := ObjectFields(j, SCENARIO_NAMES);
    if p.None? then None else ScenarioParts(p.value)
  }

  ghost function ScenarioFrom(j: Json): Option<Scenario> {
    var raw := ScenarioRaw(j);
    if raw.None? then None else NewScenario(raw.value)
  }

  ghost predicate ScenarioPartsOk(s: Scenario) {
    && (forall e :: e in s.events ==> EventOk(e))
    && (forall f :: f in s.expectedFields ==> FieldMappingOk(f))
    && (forall a :: a in s.expectedAssociations ==> AssociationOk(a))
  }

  lemma ScenarioMembers(s: Scenario, p: map<Name, Json>)
    requires p == ScenarioJson(s).members
    ensures p.Keys == SCENARIO_NAMES
    ensures Has(p, Id, JStr(s.id)) && Has(p, WorkflowId, JStr(s.workflowId)) && Has(p, Name.Case, JStr(CaseText(s.case_)))
    ensures Has(p, ExpectedCreatedCount, JInt(ExpectedCount(s.case_))) && Has(p, Required, JBool(s.required))
    ensures Has(p, Events, JArr(EncodeAll(s.events, EventJson)))
    ensures Has(p, ExpectedFields, JArr(EncodeAll(s.expectedFields, FieldMappingJson)))
    ensures Has(p, ExpectedAssociations, JArr(EncodeAll(s.expectedAssociations, AssociationJson)))
  {}

  lemma ScenarioIsRead(s: Scenario, p: map<Name, Json>)
    requires ScenarioPartsOk(s)
    requires Has(p, Id, JStr(s.id)) && Has(p, WorkflowId, JStr(s.workflowId)) && Has(p, Name.Case, JStr(CaseText(s.case_)))
    requires Has(p, ExpectedCreatedCount, JInt(ExpectedCount(s.case_))) && Has(p, Required, JBool(s.required))
    requires Has(p, Events, JArr(EncodeAll(s.events, EventJson)))
    requires Has(p, ExpectedFields, JArr(EncodeAll(s.expectedFields, FieldMappingJson)))
    requires Has(p, ExpectedAssociations, JArr(EncodeAll(s.expectedAssociations, AssociationJson)))
    ensures ScenarioParts(p) == Some(s)
  {
    CaseRoundTrip(s.case_);
    EventsRoundTrip(s.events);
    FieldMappingsRoundTrip(s.expectedFields);
    AssociationsRoundTrip(s.expectedAssociations);
  }

  lemma ScenarioRawRoundTrip(s: Scenario)
    requires ScenarioPartsOk(s)
    ensures ScenarioRaw(ScenarioJson(s)) == Some(s)
  {
    var p := ScenarioJson(s).members;
    ScenarioMembers(s, p);
    ScenarioIsRead(s, p);
  }

  lemma BuiltScenarioParts(s: Scenario)
    requires NewScenario(s) == Some(s)
    ensures ScenarioPartsOk(s)
  {}

  lemma ScenarioRoundTrip(s: Scenario)
    requires NewScenario(s) == Some(s)
    ensures ScenarioFrom(ScenarioJson(s)) == Some(s)
  {
    BuiltScenarioParts(s);
    ScenarioRawRoundTrip(s);
  }

  // ------------------------------------------------------------------ resources

  function ValueTypeText(t: ValueType): string {
    match t
    case TextType => "text"
    case NumberType => "number"
    case BooleanType => "boolean"
    case DateType => "date"
    case DatetimeType => "datetime"
  }

  function ValueTypeFrom(j: Json): Option<ValueType> {
    if j == JStr("text") then Some(TextType)
    else if j == JStr("number") then Some(NumberType)
    else if j == JStr("boolean") then Some(BooleanType)
    else if j == JStr("date") then Some(DateType)
    else if j == JStr("datetime") then Some(DatetimeType)
    else None
  }

  lemma ValueTypeRoundTrip(t: ValueType)
    ensures ValueTypeFrom(JStr(ValueTypeText(t))) == Some(t)
  {
    assert |"number"| == 6 && |"boolean"| == 7 && |"datetime"| == 8 && "text"[0] != "date"[0];
  }

  function ResourceKindText(s: ResourceSpec): string {
    match s
    case WorkflowSpec(_) => "workflow"
    case ObjectSpec(_, _) => "object"
    case PropertySpec(_, _, _, _, _) => "property"
  }

  function ResourceSpecJson(s: ResourceSpec): Json {
    match s
    case WorkflowSpec(graph) => GraphJson(graph)
    case ObjectSpec(name, slug) => JObj(map[NameField := JStr(name), Slug := JStr(slug)])
    case PropertySpec(object_, name, key, valueType, required) =>
      JObj(map[
        ObjectRef := JStr(object_),
        NameField := JStr(name),
        Key := JStr(key),
        ValueType := JStr(ValueTypeText(valueType)),
        Required := JBool(required)])
  }

  function ObjectSpecFrom(j: Json): Option<ResourceSpec> {
    var p := ObjectFields(j, {NameField, Slug});
    if p.None? then None else
    var name, slug := Str(Get(p.value, NameField)), Str(Get(p.value, Slug));
    if name.None? || slug.None? then None else Some(ObjectSpec(name.value, slug.value))
  }

  function PropertySpecFrom(j: Json): Option<ResourceSpec> {
    var p := ObjectFields(j, {ObjectRef, NameField, Key, ValueType, Required});
    if p.None? then None else
    var object_, name, key := Str(Get(p.value, ObjectRef)), Str(Get(p.value, NameField)), Str(Get(p.value, Key));
    var valueType, required := ValueTypeFrom(Get(p.value, ValueType)), BoolOf(Get(p.value, Required));
    if object_.None? || name.None? || key.None? || valueType.None? || required.None? then None
    else Some(PropertySpec(object_.value, name.value, key.value, valueType.value, required.value))
  }

  ghost function WorkflowSpecFrom(j: Json): Option<ResourceSpec> {
    var graph := GraphFrom(j);
    if graph.None? then None else Some(WorkflowSpec(graph.value))
  }

  ghost function ResourceSpecFrom(kind: Json, j: Json): Option<ResourceSpec> {
    if kind == JStr("workflow") then WorkflowSpecFrom(j)
    else if kind == JStr("object") then ObjectSpecFrom(j)
    else if kind == JStr("property") then PropertySpecFrom(j)
    else None
  }

  lemma PropertySpecRoundTrip(s: ResourceSpec)
    requires s.PropertySpec?
    ensures PropertySpecFrom(ResourceSpecJson(s)) == Some(s)
  {
    ValueTypeRoundTrip(s.valueType);
  }

  lemma ResourceSpecRoundTrip(id: string, s: ResourceSpec)
    requires ResourceSpecOk(id, s)
    ensures ResourceSpecFrom(JStr(ResourceKindText(s)), ResourceSpecJson(s)) == Some(s)
  {
    assert |"object"| == 6 && "workflow"[0] != "property"[0];
    match s
    case WorkflowSpec(graph) => GraphRoundTrip(graph);
    case ObjectSpec(_, _) =>
    case PropertySpec(_, _, _, _, _) => PropertySpecRoundTrip(s);
  }

  function ResourceJson(r: Resource): Json {
    JObj(map[
      Id := JStr(r.id),
      Kind := JStr(ResourceKindText(r.spec)),
      Spec := ResourceSpecJson(r.spec),
      DependsOn := JArr(Strings(r.dependsOn))])
  }

  ghost function ResourceRaw(j: Json): Option<Resource> {
    var p := ObjectFields(j, {Id, Kind, Spec, DependsOn});
    if p.None? then None else
    var id, spec := Str(Get(p.value, Id)), ResourceSpecFrom(Get(p.value, Kind), Get(p.value, Spec));
    var dependsOn := DecodeArray(Get(p.value, DependsOn), IdentifierFrom);
    if id.None? || spec.None? || dependsOn.None? then None else Some(Resource(id.value, spec.value, dependsOn.value))
  }

  ghost function ResourceFrom(j: Json): Option<Resource> {
    var raw := ResourceRaw(j);
    if raw.None? then None else NewResource(raw.value)
  }

  lemma ResourceRawRoundTrip(r: Resource)
    requires ResourceSpecOk(r.id, r.spec) && forall i :: 0 <= i < |r.dependsOn| ==> Identifier(r.dependsOn[i])
    ensures ResourceRaw(ResourceJson(r)) == Some(r)
  {
    ResourceSpecRoundTrip(r.id, r.spec);
    IdentifiersRoundTrip(r.dependsOn);
  }

  lemma BuiltResourceParts(r: Resource)
    requires NewResource(r) == Some(r)
    ensures ResourceSpecOk(r.id, r.spec) && forall i :: 0 <= i < |r.dependsOn| ==> Identifier(r.dependsOn[i])
  {}

  lemma ResourceRoundTrip(r: Resource)
    requires NewResource(r) == Some(r)
    ensures ResourceFrom(ResourceJson(r)) == Some(r)
  {
    BuiltResourceParts(r);
    ResourceRawRoundTrip(r);
  }

  // ------------------------------------------------------------------ required capabilities

  function SpecCapabilities(s: NodeSpec): set<string> {
    match s
    case Trigger(_, _, created) => {"flow.trigger." + (if created then CREATED else UPDATED) + "/v1"}
    case Condition(_, _) => {"flow.condition.equals/v1"}
    case Action(_, _, associations) => {"flow.action.record.create/v1"} + if associations != [] then {"flow.associations/v1"} else {}
  }

  function GraphCapabilities(g: WorkflowGraph): set<string> {
    {if g.v2 then GRAPH_V2 else "sanka-flow-graph/v1", "flow.record-identity/v1"}
    + set n, c | n in g.nodes && c in SpecCapabilities(n.spec) :: c
  }

  function ResourceCapabilities(r: Resource): set<string> {
    {"flow.resource." + ResourceKindText(r.spec) + "/v1"}
    + if r.spec.WorkflowSpec? then GraphCapabilities(r.spec.graph) else {}
  }

  const BLUEPRINT_V1 := "sanka-flow-blueprint/v1"
  const BLUEPRINT_V2 := "sanka-flow-blueprint/v2"

  function Capabilities(b: Blueprint): set<string> {
    {if b.v2 then BLUEPRINT_V2 else BLUEPRINT_V1}
    + set r, c | r in b.resources && c in ResourceCapabilities(r) :: c
  }

  ghost function Listed(s: set<string>): (r: seq<string>)
    ensures forall x :: x in r <==> x in s
  {
    if s == {} then [] else var x :| x in s; [x] + Listed(s - {x})
  }

  // `tuple(sorted(capabilities))`
  ghost function RequiredList(b: Blueprint): seq<string> { SortBy(Listed(Capabilities(b)), Itself) }

  // ------------------------------------------------------------------ Blueprints

  // The policies no Blueprint may weaken.
  const POLICIES := JDict(map[
    "reapply" := JDict(map[
      "user_changes" := JStr("preserve"),
      "conflicts" := JStr("require_resolution"),
      "ownership" := JStr("installation"),
      "removals" := JStr("explicit_plan")]),
    "lifecycle" := JDict(map[
      "stages" := JArr([JStr("construct"), JStr("verify"), JStr("activate")]),
      "new_automations" := JStr("disabled_until_activation"),
      "activation" := JStr("explicit_verified_revision")])])

  const HEAD_NAMES := {SchemaVersion, Id, Revision, Origin, Extension, Parameters, Policies}
  const BODY_NAMES := {Resources, References, Mappings, Scenarios, Unsupported}

  function BlueprintNames(v2: bool): set<Name> {
    HEAD_NAMES + (BODY_NAMES + if v2 then {RequiredCapabilities} else {})
  }

  function HeadJson(b: Blueprint): map<Name, Json> {
    map[
      SchemaVersion := Pick(b.v2, BLUEPRINT_V2, BLUEPRINT_V1),
      Id := JStr(b.id),
      Revision := JStr(b.revision),
      Origin := OriginJson(b.origin),
      Extension := IdentityJson(b.extension),
      Parameters := JDict(b.parameters),
      Policies := POLICIES]
  }

  function BodyJson(b: Blueprint): map<Name, Json> {
    map[
      Resources := JArr(EncodeAll(b.resources, ResourceJson)),
      References := JArr(EncodeAll(b.references, ReferenceJson)),
      Mappings := JArr(EncodeAll(b.mappings, MappingJson)),
      Scenarios := JArr(EncodeAll(b.scenarios, ScenarioJson)),
      Unsupported := JArr(EncodeAll(b.unsupported, FindingJson))]
  }

  ghost function TailJson(b: Blueprint): map<Name, Json> {
    if b.v2 then map[RequiredCapabilities := JArr(Strings(RequiredList(b)))] else map[]
  }

  ghost function BlueprintJson(b: Blueprint): Json {
    JObj(HeadJson(b) + (BodyJson(b) + TailJson(b)))
  }

  // The members in front of the collections; the collections of the result are empty.
  function HeadFrom(p: map<Name, Json>): Option<Blueprint> {
    var v2 := OneOf(Get(p, SchemaVersion), BLUEPRINT_V2, BLUEPRINT_V1);
    var id, revision := Str(Get(p, Id)), Str(Get(p, Revision));
    var origin, extension := OriginFrom(Get(p, Origin)), IdentityFrom(Get(p, Extension));
    var parameters := Dict(Get(p, Parameters));
    if || v2.None? || id.None? || revision.None? || origin.None? || extension.None? || parameters.None?
       || Get(p, Policies) != POLICIES
    then None
    else Some(Blueprint.Blueprint(v2.value, id.value, revision.value, origin.value, extension.value, [], [], [], [], [], parameters.value))
  }

  ghost function BodyFrom(p: map<Name, Json>, head: Blueprint): Option<Blueprint> {
    var resources, references := DecodeArray(Get(p, Resources), ResourceFrom), DecodeArray(Get(p, References), ReferenceFrom);
    var mappings, scenarios := DecodeArray(Get(p, Mappings), MappingFrom), DecodeArray(Get(p, Scenarios), ScenarioFrom);
    var unsupported := DecodeArray(Get(p, Unsupported), FindingFrom);
    if resources.None? || references.None? || mappings.None? || scenarios.None? || unsupported.None? then None
    else Some(head.(resources := resources.value, references := references.value, mappings := mappings.value,
                    scenarios := scenarios.value, unsupported := unsupported.value))
  }

  ghost function BlueprintRaw(j: Json): Option<Blueprint> {
    if !j.JObj? then None else
    var head := HeadFrom(j.members);
    if head.None? || j.members.Keys != BlueprintNames(head.value.v2) then None else BodyFrom(j.members, head.value)
  }

  ghost function BlueprintFrom(j: Json): Option<Blueprint> {
    var raw := BlueprintRaw(j);
    if raw.None? then None else
    var b := NewBlueprint(raw.value);
    if b.None? || !Declares(j.members, b.value) then None else b
  }

  // A v2 document names exactly the capabilities that its Blueprint requires.
  ghost predicate Declares(p: map<Name, Json>, b: Blueprint) {
    b.v2 ==> Get(p, RequiredCapabilities) == JArr(Strings(RequiredList(b)))
  }

  ghost predicate HoldsHead(p: map<Name, Json>, b: Blueprint) {
    && Has(p, SchemaVersion, Pick(b.v2, BLUEPRINT_V2, BLUEPRINT_V1))
    && Has(p, Id, JStr(b.id)) && Has(p, Revision, JStr(b.revision))
    && Has(p, Origin, OriginJson(b.origin)) && Has(p, Extension, IdentityJson(b.extension))
    && Has(p, Parameters, JDict(b.parameters)) && Has(p, Policies, POLICIES)
  }

  ghost predicate HoldsBody(p: map<Name, Json>, b: Blueprint) {
    && Has(p, Resources, JArr(EncodeAll(b.resources, ResourceJson)))
    && Has(p, References, JArr(EncodeAll(b.references, ReferenceJson)))
    && Has(p, Mappings, JArr(EncodeAll(b.mappings, MappingJson)))
    && Has(p, Scenarios, JArr(EncodeAll(b.scenarios, ScenarioJson)))
    && Has(p, Unsupported, JArr(EncodeAll(b.unsupported, FindingJson)))
  }

  lemma HeadHolds(b: Blueprint)
    ensures HeadJson(b).Keys == HEAD_NAMES && HoldsHead(HeadJson(b), b)
  {}

  lemma BodyHolds(b: Blueprint)
    ensures BodyJson(b).Keys == BODY_NAMES && HoldsBody(BodyJson(b), b)
  {}

  lemma HeadIsKept(b: Blueprint, head: map<Name, Json>, rest: map<Name, Json>)
    requires HoldsHead(head, b) && rest.Keys <= BODY_NAMES + {RequiredCapabilities}
    ensures HoldsHead(head + rest, b)
  {
    assert SchemaVersion !in rest && Id !in rest && Revision !in rest && Origin !in rest;
    assert Extension !in rest && Parameters !in rest && Policies !in rest;
  }

  lemma BodyIsKept(b: Blueprint, head: map<Name, Json>, body: map<Name, Json>, tail: map<Name, Json>)
    requires HoldsBody(body, b) && tail.Keys <= {RequiredCapabilities}
    ensures HoldsBody(head + (body + tail), b)
  {
    assert Resources !in tail && References !in tail && Mappings !in tail && Scenarios !in tail && Unsupported !in tail;
  }

  lemma MergedNames(v2: bool, head: map<Name, Json>, body: map<Name, Json>, tail: map<Name, Json>)
    requires head.Keys == HEAD_NAMES && body.Keys == BODY_NAMES && tail.Keys == if v2 then {RequiredCapabilities} else {}
    ensures (head + (body + tail)).Keys == BlueprintNames(v2)
  {}

  lemma MembersAreHeld(b: Blueprint)
    ensures var p := BlueprintJson(b).members; HoldsHead(p, b) && HoldsBody(p, b) && p.Keys == BlueprintNames(b.v2)
  {
    HeadHolds(b);
    BodyHolds(b);
    TailHolds(b);
    HeadIsKept(b, HeadJson(b), BodyJson(b) + TailJson(b));
    BodyIsKept(b, HeadJson(b), BodyJson(b), TailJson(b));
    MergedNames(b.v2, HeadJson(b), BodyJson(b), TailJson(b));
  }

  lemma TailHolds(b: Blueprint)
    ensures TailJson(b).Keys == if b.v2 then {RequiredCapabilities} else {}
  {}

  lemma CapabilitiesAreHeld(b: Blueprint)
    ensures Declares(BlueprintJson(b).members, b)
  {
    var tail := TailJson(b);
    if b.v2 {
      assert RequiredCapabilities in BodyJson(b) + tail && (BodyJson(b) + tail)[RequiredCapabilities] == tail[RequiredCapabilities];
    }
  }

  lemma VersionsDiffer()
    ensures BLUEPRINT_V1 != BLUEPRINT_V2
  {
    assert |BLUEPRINT_V1| == 23 && BLUEPRINT_V1[22] != BLUEPRINT_V2[22];
  }

  function WithoutCollections(b: Blueprint): Blueprint {
    b.(resources := [], references := [], mappings := [], scenarios := [], unsupported := [])
  }

  lemma HeadIsRead(b: Blueprint, p: map<Name, Json>)
    requires HoldsHead(p, b) && OriginOk(b.origin) && IdentityOk(b.extension)
    ensures HeadFrom(p) == Some(WithoutCollections(b))
  {
    VersionsDiffer();
    Picked(b.v2, BLUEPRINT_V2, BLUEPRINT_V1);
    OriginRoundTrip(b.origin);
    IdentityRoundTrip(b.extension);
  }

  lemma ResourcesAreRead(xs: seq<Resource>)
    requires forall x :: x in xs ==> NewResource(x) == Some(x)
    ensures DecodeArray(JArr(EncodeAll(xs, ResourceJson)), ResourceFrom) == Some(xs)
  {
    forall i | 0 <= i < |xs| ensures ResourceFrom(ResourceJson(xs[i])) == Some(xs[i]) { ResourceRoundTrip(xs[i]); }
    ArraysAreLossless(xs, ResourceJson, ResourceFrom);
  }

  lemma ReferencesAreRead(xs: seq<Reference>)
    requires forall x :: x in xs ==> ReferenceOk(x)
    ensures DecodeArray(JArr(EncodeAll(xs, ReferenceJson)), ReferenceFrom) == Some(xs)
  {
    forall i | 0 <= i < |xs| ensures ReferenceFrom(ReferenceJson(xs[i])) == Some(xs[i]) { ReferenceRoundTrip(xs[i]); }
    ArraysAreLossless(xs, ReferenceJson, ReferenceFrom);
  }

  lemma MappingsAreRead(xs: seq<Mapping>)
    requires forall x :: x in xs ==> MappingOk(x)
    ensures DecodeArray(JArr(EncodeAll(xs, MappingJson)), MappingFrom) == Some(xs)
  {
    forall i | 0 <= i < |xs| ensures MappingFrom(MappingJson(xs[i])) == Some(xs[i]) { MappingRoundTrip(xs[i]); }
    ArraysAreLossless(xs, MappingJson, MappingFrom);
  }

  lemma ScenariosAreRead(xs: seq<Scenario>)
    requires forall x :: x in xs ==> NewScenario(x) == Some(x)
    ensures DecodeArray(JArr(EncodeAll(xs, ScenarioJson)), ScenarioFrom) == Some(xs)
  {
    forall i | 0 <= i < |xs| ensures ScenarioFrom(ScenarioJson(xs[i])) == Some(xs[i]) { ScenarioRoundTrip(xs[i]); }
    ArraysAreLossless(xs, ScenarioJson, ScenarioFrom);
  }

  lemma FindingsAreRead(xs: seq<Finding>)
    requires forall x :: x in xs ==> FindingOk(x)
    ensures DecodeArray(JArr(EncodeAll(xs, FindingJson)), FindingFrom) == Some(xs)
  {
    forall i | 0 <= i < |xs| ensures FindingFrom(FindingJson(xs[i])) == Some(xs[i]) { FindingRoundTrip(xs[i]); }
    ArraysAreLossless(xs, FindingJson, FindingFrom);
  }

  lemma BodyIsRead(b: Blueprint, p: map<Name, Json>)
    requires HoldsBody(p, b) && PartsOk(b)
    ensures BodyFrom(p, WithoutCollections(b)) == Some(b)
  {
    ResourcesAreRead(b.resources);
    ReferencesAreRead(b.references);
    MappingsAreRead(b.mappings);
    ScenariosAreRead(b.scenarios);
    FindingsAreRead(b.unsupported);
  }

  lemma BlueprintRawRoundTrip(b: Blueprint)
    requires PartsOk(b)
    ensures BlueprintRaw(BlueprintJson(b)) == Some(b)
  {
    var p := BlueprintJson(b).members;
    MembersAreHeld(b);
    HeadIsRead(b, p);
    BodyIsRead(b, p);
  }

  lemma BuiltBlueprintParts(b: Blueprint)
    requires NewBlueprint(b) == Some(b)
    ensures PartsOk(b)
  {}

  lemma BlueprintIsConstructed(b: Blueprint, j: Json)
    requires j.JObj? && BlueprintRaw(j) == Some(b) && NewBlueprint(b) == Some(b) && Declares(j.members, b)
    ensures BlueprintFrom(j) == Some(b)
  {}

  lemma SettledRoundTrip(b: Blueprint)
    requires NewBlueprint(b) == Some(b)
    ensures BlueprintFrom(BlueprintJson(b)) == Some(b)
  {
    BuiltBlueprintParts(b);
    BlueprintRawRoundTrip(b);
    CapabilitiesAreHeld(b);
    BlueprintIsConstructed(b, BlueprintJson(b));
  }

  /** Every Blueprint that can be constructed reads back from its own document as itself: the version
      that a v1 graph leaves out, the operation that an update event leaves out, the required
      capabilities that are recomputed, all included. */
  lemma BlueprintRoundTrip(raw: Blueprint, b: Blueprint)
    requires NewBlueprint(raw) == Some(b)
    ensures BlueprintFrom(BlueprintJson(b)) == Some(b)
  {
    BlueprintsSettle(raw, b);
    SettledRoundTrip(b);
  }

  /** What is read is constructed, whatever the document; so reading, writing and reading again gives
      what was read first. */
  lemma ReadBlueprintsAreBuilt(j: Json)
    requires BlueprintFrom(j).Some?
    ensures var b := BlueprintFrom(j).value; NewBlueprint(b) == Some(b) && BlueprintFrom(BlueprintJson(b)) == Some(b)
  {
    BlueprintRoundTrip(BlueprintRaw(j).value, BlueprintFrom(j).value);
    BlueprintsSettle(BlueprintRaw(j).value, BlueprintFrom(j).value);
  }

  ghost predicate HoldsScalars(p: map<Name, Json>, b: Blueprint) {
    && Has(p, SchemaVersion, Pick(b.v2, BLUEPRINT_V2, BLUEPRINT_V1)) && Has(p, Id, JStr(b.id))
    && Has(p, Revision, JStr(b.revision)) && Has(p, Parameters, JDict(b.parameters)) && Has(p, Policies, POLICIES)
  }

  lemma HeadIsExact(p: map<Name, Json>, head: Blueprint)
    requires HeadFrom(p) == Some(head)
    ensures HoldsScalars(p, head)
  {
    VersionsDiffer();
  }

  lemma RawIsExact(j: Json, raw: Blueprint)
    requires BlueprintRaw(j) == Some(raw)
    ensures j.JObj? && j.members.Keys == BlueprintNames(raw.v2) && HoldsScalars(j.members, raw)
  {
    HeadIsExact(j.members, HeadFrom(j.members).value);
  }

  lemma BuildingKeepsScalars(raw: Blueprint, b: Blueprint)
    requires NewBlueprint(raw) == Some(b)
    ensures b.v2 == raw.v2 && b.id == raw.id && b.revision == raw.revision && b.parameters == raw.parameters
  {}

  /** Nothing is read loosely: a document that is read has exactly the members of its version, the
      policies unweakened, and the capabilities that the Blueprint it describes requires. */
  lemma ReadDocumentsAreExact(j: Json)
    requires BlueprintFrom(j).Some?
    ensures j.JObj?
    ensures var p, b := j.members, BlueprintFrom(j).value;
            && p.Keys == BlueprintNames(b.v2) && HoldsScalars(p, b) && Declares(p, b)
  {
    var raw := BlueprintRaw(j).value;
    RawIsExact(j, raw);
    BuildingKeepsScalars(raw, BlueprintFrom(j).value);
  }

  // `digest`
  ghost function DigestOf(b: Blueprint): Hash { Sha256(BlueprintJson(b)) }

  /** One digest per Blueprint: giving the collections in another order builds the same Blueprint
      with the same digest, and Blueprints with one digest are the same. */
  lemma DigestsTellBlueprints(a: Blueprint, b: Blueprint, x: Blueprint, y: Blueprint)
    requires NewBlueprint(a) == Some(x) && NewBlueprint(b) == Some(y)
    ensures DigestOf(x) == DigestOf(y) <==> x == y
    ensures Reordered(a, b) ==> DigestOf(x) == DigestOf(y)
  {
    BlueprintRoundTrip(a, x);
    BlueprintRoundTrip(b, y);
    if Reordered(a, b) { BlueprintsAreCanonical(a, b); }
  }
}
