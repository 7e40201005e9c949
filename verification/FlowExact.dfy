/**
 Nothing is read loosely: what a Flow document is read as determines the document, member by member, up
 to what construction orders and to the one default that may be spelled out or not.
 */
module FlowExact {
  import opened Basics
  import opened Ordering
  import opened JsonValues
  import opened FlowModel
  import opened FlowWire
  import opened FlowDocuments
  import opened FlowResponse

  // A list is read item by item.
  lemma {:induction false} ItemsAreRead<T>(js: seq<Json>, decode: Json -> Option<T>)
    requires DecodeAll(js, decode).Some?
    ensures |DecodeAll(js, decode).value| == |js|
    ensures forall i :: 0 <= i < |js| ==> decode(js[i]) == Some(DecodeAll(js, decode).value[i])
    decreases |js|
  {
    if js != [] { ItemsAreRead(js[1..], decode); }
  }

  // An array whose items are the documents of what they are read as is such an array itself.
  lemma ArrayIsExact<T>(j: Json, xs: seq<T>, encode: T -> Json, decode: Json -> Option<T>)
    requires DecodeArray(j, decode) == Some(xs)
    requires forall i :: 0 <= i < |xs| && j.JArr? && i < |j.items| && decode(j.items[i]) == Some(xs[i]) ==> j.items[i] == encode(xs[i])
    ensures j == JArr(EncodeAll(xs, encode))
  {
    ItemsAreRead(j.items, decode);
    assert j.items == EncodeAll(xs, encode);
  }

  // ------------------------------------------------------------------ records without an order

  lemma IdentityIsExact(j: Json, a: ArtifactIdentity)
    requires IdentityFrom(j) == Some(a)
    ensures j == IdentityJson(a) && IdentityOk(a)
  {
    assert j.members == IdentityJson(a).members;
  }

  lemma OriginIsExact(j: Json, o: BlueprintOrigin)
    requires OriginFrom(j) == Some(o)
    ensures j == OriginJson(o) && OriginOk(o)
  {
    IdentityIsExact(j.members[Identity], o.identity);
    assert j.members == OriginJson(o).members;
  }

  lemma ReferenceIsExact(j: Json, r: Reference)
    requires ReferenceFrom(j) == Some(r)
    ensures j == ReferenceJson(r) && ReferenceOk(r)
  {
    assert j.members == ReferenceJson(r).members;
  }

  lemma MappingIsExact(j: Json, m: Mapping)
    requires MappingFrom(j) == Some(m)
    ensures j == MappingJson(m) && MappingOk(m)
  {
    assert j.members == MappingJson(m).members;
  }

  lemma FindingIsExact(j: Json, f: Finding)
    requires FindingFrom(j) == Some(f)
    ensures j == FindingJson(f) && FindingOk(f)
  {
    assert j.members == FindingJson(f).members;
  }

  lemma BindingIsExact(j: Json, b: Binding)
    requires BindingFrom(j) == Some(b)
    ensures j == BindingJson(b) && BindingOk(b)
  {
    assert j.members == BindingJson(b).members;
  }

  lemma FieldMappingIsExact(j: Json, f: FieldMapping)
    requires FieldMappingFrom(j) == Some(f)
    ensures j == FieldMappingJson(f) && FieldMappingOk(f)
  {
    BindingIsExact(j.members[Value], f.value);
    assert j.members == FieldMappingJson(f).members;
  }

  lemma AssociationIsExact(j: Json, a: Association)
    requires AssociationFrom(j) == Some(a)
    ensures j == AssociationJson(a) && AssociationOk(a)
  {
    BindingIsExact(j.members[Name.Record], a.record);
    assert j.members == AssociationJson(a).members;
  }

  lemma EdgeIsExact(j: Json, e: Edge)
    requires EdgeFrom(j) == Some(e)
    ensures j == EdgeJson(e) && EdgeOk(e)
  {
    assert j.members == EdgeJson(e).members;
  }

  lemma IdentifiersAreExact(j: Json, xs: seq<string>)
    requires DecodeArray(j, IdentifierFrom) == Some(xs)
    ensures j == JArr(Strings(xs)) && forall i :: 0 <= i < |xs| ==> Identifier(xs[i])
  {
    ItemsAreRead(j.items, IdentifierFrom);
    ArrayIsExact(j, xs, (x: string) => JStr(x), IdentifierFrom);
  }

  lemma FieldMappingsAreExact(j: Json, xs: seq<FieldMapping>)
    requires DecodeArray(j, FieldMappingFrom) == Some(xs)
    ensures j == JArr(EncodeAll(xs, FieldMappingJson)) && forall x :: x in xs ==> FieldMappingOk(x)
  {
    ItemsAreRead(j.items, FieldMappingFrom);
    forall i | 0 <= i < |xs| ensures j.items[i] == FieldMappingJson(xs[i]) && FieldMappingOk(xs[i]) { FieldMappingIsExact(j.items[i], xs[i]); }
    ArrayIsExact(j, xs, FieldMappingJson, FieldMappingFrom);
  }

  lemma AssociationsAreExact(j: Json, xs: seq<Association>)
    requires DecodeArray(j, AssociationFrom) == Some(xs)
    ensures j == JArr(EncodeAll(xs, AssociationJson)) && forall x :: x in xs ==> AssociationOk(x)
  {
    ItemsAreRead(j.items, AssociationFrom);
    forall i | 0 <= i < |xs| ensures j.items[i] == AssociationJson(xs[i]) && AssociationOk(xs[i]) { AssociationIsExact(j.items[i], xs[i]); }
    ArrayIsExact(j, xs, AssociationJson, AssociationFrom);
  }

  // ------------------------------------------------------------------ nodes and graphs

  lemma TriggerIsExact(j: Json, s: NodeSpec)
    requires TriggerRaw(j) == Some(s)
    ensures s.Trigger? && j == TriggerJson(s) && SpecPartsOk(s)
  {
    IdentifiersAreExact(j.members[ChangedFields], s.changedFields);
    assert j.members == TriggerJson(s).members;
  }

  lemma ConditionIsExact(j: Json, s: NodeSpec)
    requires ConditionRaw(j) == Some(s)
    ensures s.Condition? && j == ConditionJson(s) && SpecPartsOk(s)
  {
    BindingIsExact(j.members[Name.Left], s.left);
    BindingIsExact(j.members[Right], s.right);
    assert j.members == ConditionJson(s).members;
  }

  lemma ActionIsExact(j: Json, s: NodeSpec)
    requires ActionRaw(j) == Some(s)
    ensures s.Action? && j == ActionJson(s) && SpecPartsOk(s)
  {
    FieldMappingsAreExact(j.members[Fields], s.fields);
    AssociationsAreExact(j.members[Associations], s.associations);
    assert j.members == ActionJson(s).members;
  }

  lemma SpecIsExact(kind: Json, j: Json, s: NodeSpec)
    requires SpecRaw(kind, j) == Some(s)
    ensures kind == JStr(KindText(s)) && j == SpecJson(s) && SpecPartsOk(s)
  {
    if kind == JStr("trigger") { TriggerIsExact(j, s); }
    else if kind == JStr("condition") { ConditionIsExact(j, s); }
    else { ActionIsExact(j, s); }
  }

  // The document of a node as it was given, before its fields were put in order.
  ghost predicate NodeDocument(j: Json, n: Node) {
    exists raw :: j == NodeJson(Node(n.id, raw)) && NewSpec(raw) == Some(n.spec)
  }

  lemma NodeIsExact(j: Json, n: Node)
    requires NodeFrom(j) == Some(n)
    ensures NodeDocument(j, n) && Identifier(n.id)
  {
    var raw := SpecRaw(Get(j.members, Kind), Get(j.members, Spec)).value;
    SpecIsExact(j.members[Kind], j.members[Spec], raw);
    assert j.members == NodeJson(Node(n.id, raw)).members;
    assert j == NodeJson(Node(n.id, raw)) && NewSpec(raw) == Some(n.spec);
  }

  // The document of a graph as it was given.
  ghost predicate GraphDocument(j: Json, raw: WorkflowGraph) {
    && j.JObj? && j.members.Keys == GraphNames(raw.v2) && (raw.v2 ==> j.members[SchemaVersion] == JStr(GRAPH_V2))
    && Has(j.members, Id, JStr(raw.id)) && Has(j.members, Edges, JArr(EncodeAll(raw.edges, EdgeJson)))
    && (forall e :: e in raw.edges ==> EdgeOk(e))
    && var nodes := Get(j.members, Nodes);
       nodes.JArr? && |nodes.items| == |raw.nodes| && forall i :: 0 <= i < |raw.nodes| ==> NodeDocument(nodes.items[i], raw.nodes[i])
  }

  lemma NodesAreExact(j: Json, xs: seq<Node>)
    requires DecodeArray(j, NodeFrom) == Some(xs)
    ensures j.JArr? && |j.items| == |xs| && forall i :: 0 <= i < |xs| ==> NodeDocument(j.items[i], xs[i])
  {
    ItemsAreRead(j.items, NodeFrom);
    forall i | 0 <= i < |xs| ensures NodeDocument(j.items[i], xs[i]) { NodeIsExact(j.items[i], xs[i]); }
  }

  lemma EdgesAreExact(j: Json, xs: seq<Edge>)
    requires DecodeArray(j, EdgeFrom) == Some(xs)
    ensures j == JArr(EncodeAll(xs, EdgeJson)) && forall x :: x in xs ==> EdgeOk(x)
  {
    ItemsAreRead(j.items, EdgeFrom);
    forall i | 0 <= i < |xs| ensures j.items[i] == EdgeJson(xs[i]) && EdgeOk(xs[i]) { EdgeIsExact(j.items[i], xs[i]); }
    ArrayIsExact(j, xs, EdgeJson, EdgeFrom);
  }

  lemma RawGraphIsExact(j: Json, raw: WorkflowGraph)
    requires GraphRaw(j) == Some(raw)
    ensures GraphDocument(j, raw)
  {
    NodesAreExact(j.members[Nodes], raw.nodes);
    EdgesAreExact(j.members[Edges], raw.edges);
  }

  /** A graph is read only from the document of nodes and edges that construct it. */
  lemma GraphsAreReadExactly(j: Json, g: WorkflowGraph)
    requires GraphFrom(j) == Some(g)
    ensures exists raw :: GraphDocument(j, raw) && NewGraph(raw) == Some(g)
  {
    RawGraphIsExact(j, GraphRaw(j).value);
    assert NewGraph(GraphRaw(j).value) == Some(g);
  }

  // ------------------------------------------------------------------ scenarios and resources

  // The default operation may be spelled out.
  predicate EventDocument(j: Json, e: Event) {
    j == EventJson(e) || (!e.created && j == JObj(EventJson(e).members[Operation := JStr(UPDATED)]))
  }

  lemma EventIsExact(j: Json, e: Event)
    requires EventFrom(j) == Some(e)
    ensures EventDocument(j, e) && EventOk(e)
  {
    OperationsDiffer();
    if Operation in j.members && !e.created {
      assert j.members == EventJson(e).members[Operation := JStr(UPDATED)];
    } else {
      assert j.members == EventJson(e).members;
    }
  }

  lemma EventsAreExact(j: Json, xs: seq<Event>)
    requires DecodeArray(j, EventFrom) == Some(xs)
    ensures j.JArr? && |j.items| == |xs| && forall i :: 0 <= i < |xs| ==> EventDocument(j.items[i], xs[i])
  {
    ItemsAreRead(j.items, EventFrom);
    forall i | 0 <= i < |xs| ensures EventDocument(j.items[i], xs[i]) { EventIsExact(j.items[i], xs[i]); }
  }

  // The document of a scenario as it was given.
  ghost predicate ScenarioDocument(j: Json, raw: Scenario) {
    && j.JObj? && j.members.Keys == SCENARIO_NAMES
    && Has(j.members, Id, JStr(raw.id)) && Has(j.members, WorkflowId, JStr(raw.workflowId))
    && Has(j.members, Name.Case, JStr(CaseText(raw.case_))) && Has(j.members, Required, JBool(raw.required))
    && Has(j.members, ExpectedCreatedCount, JInt(if raw.case_.NoMatch? then 0 else 1))
    && Has(j.members, ExpectedFields, JArr(EncodeAll(raw.expectedFields, FieldMappingJson)))
    && Has(j.members, ExpectedAssociations, JArr(EncodeAll(raw.expectedAssociations, AssociationJson)))
    && var events := Get(j.members, Events);
       events.JArr? && |events.items| == |raw.events| && forall i :: 0 <= i < |raw.events| ==> EventDocument(events.items[i], raw.events[i])
  }

  /** A scenario is read only from the document of parts that construct it, with the creation count of its case. */
  lemma ScenariosAreReadExactly(j: Json, s: Scenario)
    requires ScenarioFrom(j) == Some(s)
    ensures exists raw :: ScenarioDocument(j, raw) && NewScenario(raw) == Some(s)
  {
    var raw := ScenarioRaw(j).value;
    RawScenarioIsExact(j, raw);
    assert NewScenario(raw) == Some(s);
  }

  lemma RawScenarioIsExact(j: Json, raw: Scenario)
    requires ScenarioRaw(j) == Some(raw)
    ensures ScenarioDocument(j, raw)
  {
    EventsAreExact(j.members[Events], raw.events);
    FieldMappingsAreExact(j.members[ExpectedFields], raw.expectedFields);
    AssociationsAreExact(j.members[ExpectedAssociations], raw.expectedAssociations);
  }

  // The document of a resource's spec; a workflow's is that of its graph as it was given.
  ghost predicate SpecDocument(j: Json, s: ResourceSpec) {
    if s.WorkflowSpec? then exists raw :: GraphDocument(j, raw) && NewGraph(raw) == Some(s.graph) else j == ResourceSpecJson(s)
  }

  lemma ObjectSpecIsExact(j: Json, s: ResourceSpec)
    requires ObjectSpecFrom(j) == Some(s)
    ensures s.ObjectSpec? && j == ResourceSpecJson(s)
  {
    assert j.members == ResourceSpecJson(s).members;
  }

  lemma PropertySpecIsExact(j: Json, s: ResourceSpec)
    requires PropertySpecFrom(j) == Some(s)
    ensures s.PropertySpec? && j == ResourceSpecJson(s)
  {
    assert j.members == ResourceSpecJson(s).members;
  }

  lemma ResourceSpecIsExact(kind: Json, j: Json, s: ResourceSpec)
    requires ResourceSpecFrom(kind, j) == Some(s)
    ensures kind == JStr(ResourceKindText(s)) && SpecDocument(j, s)
  {
    if kind == JStr("workflow") { GraphsAreReadExactly(j, s.graph); }
    else if kind == JStr("object") { ObjectSpecIsExact(j, s); }
    else { PropertySpecIsExact(j, s); }
  }

  // The document of a resource as it was given.
  ghost predicate ResourceDocument(j: Json, raw: Resource) {
    && j.JObj? && j.members.Keys == {Id, Kind, Spec, DependsOn}
    && Has(j.members, Id, JStr(raw.id)) && Has(j.members, Kind, JStr(ResourceKindText(raw.spec)))
    && SpecDocument(Get(j.members, Spec), raw.spec) && Has(j.members, DependsOn, JArr(Strings(raw.dependsOn)))
  }

  /** A resource is read only from the document of parts that construct it. */
  lemma ResourcesAreReadExactly(j: Json, r: Resource)
    requires ResourceFrom(j) == Some(r)
    ensures exists raw :: ResourceDocument(j, raw) && NewResource(raw) == Some(r)
  {
    var raw := ResourceRaw(j).value;
    RawResourceIsExact(j, raw);
    assert NewResource(raw) == Some(r);
  }

  lemma RawResourceIsExact(j: Json, raw: Resource)
    requires ResourceRaw(j) == Some(raw)
    ensures ResourceDocument(j, raw)
  {
    ResourceSpecIsExact(j.members[Kind], j.members[Spec], raw.spec);
    IdentifiersAreExact(j.members[DependsOn], raw.dependsOn);
  }

  // ------------------------------------------------------------------ Blueprints and responses

  ghost predicate ResourceReads(j: Json, r: Resource) { exists raw :: ResourceDocument(j, raw) && NewResource(raw) == Some(r) }
  ghost predicate ScenarioReads(j: Json, s: Scenario) { exists raw :: ScenarioDocument(j, raw) && NewScenario(raw) == Some(s) }

  // The document of a Blueprint as it was given.
  ghost predicate BlueprintDocument(j: Json, raw: Blueprint) {
    && j.JObj? && j.members.Keys == BlueprintNames(raw.v2) && HoldsHead(j.members, raw)
    && Has(j.members, References, JArr(EncodeAll(raw.references, ReferenceJson)))
    && Has(j.members, Mappings, JArr(EncodeAll(raw.mappings, MappingJson)))
    && Has(j.members, Unsupported, JArr(EncodeAll(raw.unsupported, FindingJson)))
    && var resources, scenarios := Get(j.members, Resources), Get(j.members, Scenarios);
       && resources.JArr? && |resources.items| == |raw.resources| && (forall i :: 0 <= i < |raw.resources| ==> ResourceReads(resources.items[i], raw.resources[i]))
       && scenarios.JArr? && |scenarios.items| == |raw.scenarios| && forall i :: 0 <= i < |raw.scenarios| ==> ScenarioReads(scenarios.items[i], raw.scenarios[i])
  }

  lemma ResourceListIsExact(j: Json, xs: seq<Resource>)
    requires DecodeArray(j, ResourceFrom) == Some(xs)
    ensures j.JArr? && |j.items| == |xs| && forall i :: 0 <= i < |xs| ==> ResourceReads(j.items[i], xs[i])
  {
    ItemsAreRead(j.items, ResourceFrom);
    forall i | 0 <= i < |xs| ensures ResourceReads(j.items[i], xs[i]) { ResourcesAreReadExactly(j.items[i], xs[i]); }
  }

  lemma ScenarioListIsExact(j: Json, xs: seq<Scenario>)
    requires DecodeArray(j, ScenarioFrom) == Some(xs)
    ensures j.JArr? && |j.items| == |xs| && forall i :: 0 <= i < |xs| ==> ScenarioReads(j.items[i], xs[i])
  {
    ItemsAreRead(j.items, ScenarioFrom);
    forall i | 0 <= i < |xs| ensures ScenarioReads(j.items[i], xs[i]) { ScenariosAreReadExactly(j.items[i], xs[i]); }
  }

  lemma ReferenceListIsExact(j: Json, xs: seq<Reference>)
    requires DecodeArray(j, ReferenceFrom) == Some(xs)
    ensures j == JArr(EncodeAll(xs, ReferenceJson))
  {
    ItemsAreRead(j.items, ReferenceFrom);
    forall i | 0 <= i < |xs| ensures j.items[i] == ReferenceJson(xs[i]) { ReferenceIsExact(j.items[i], xs[i]); }
    ArrayIsExact(j, xs, ReferenceJson, ReferenceFrom);
  }

  lemma MappingListIsExact(j: Json, xs: seq<Mapping>)
    requires DecodeArray(j, MappingFrom) == Some(xs)
    ensures j == JArr(EncodeAll(xs, MappingJson))
  {
    ItemsAreRead(j.items, MappingFrom);
    forall i | 0 <= i < |xs| ensures j.items[i] == MappingJson(xs[i]) { MappingIsExact(j.items[i], xs[i]); }
    ArrayIsExact(j, xs, MappingJson, MappingFrom);
  }

  lemma FindingListIsExact(j: Json, xs: seq<Finding>)
    requires DecodeArray(j, FindingFrom) == Some(xs)
    ensures j == JArr(EncodeAll(xs, FindingJson))
  {
    ItemsAreRead(j.items, FindingFrom);
    forall i | 0 <= i < |xs| ensures j.items[i] == FindingJson(xs[i]) { FindingIsExact(j.items[i], xs[i]); }
    ArrayIsExact(j, xs, FindingJson, FindingFrom);
  }

  lemma HeadIsExactly(p: map<Name, Json>, head: Blueprint)
    requires HeadFrom(p) == Some(head) && HEAD_NAMES <= p.Keys
    ensures HoldsHead(p, head)
  {
    OriginIsExact(p[Origin], head.origin);
    IdentityIsExact(p[Extension], head.extension);
  }

  lemma CollectionsAreExact(p: map<Name, Json>, head: Blueprint, raw: Blueprint)
    requires BodyFrom(p, head) == Some(raw) && BODY_NAMES <= p.Keys
    ensures Has(p, References, JArr(EncodeAll(raw.references, ReferenceJson)))
    ensures Has(p, Mappings, JArr(EncodeAll(raw.mappings, MappingJson))) && Has(p, Unsupported, JArr(EncodeAll(raw.unsupported, FindingJson)))
    ensures p[Resources].JArr? && |p[Resources].items| == |raw.resources|
            && forall i :: 0 <= i < |raw.resources| ==> ResourceReads(p[Resources].items[i], raw.resources[i])
    ensures p[Scenarios].JArr? && |p[Scenarios].items| == |raw.scenarios|
            && forall i :: 0 <= i < |raw.scenarios| ==> ScenarioReads(p[Scenarios].items[i], raw.scenarios[i])
  {
    ReferenceListIsExact(p[References], raw.references);
    MappingListIsExact(p[Mappings], raw.mappings);
    FindingListIsExact(p[Unsupported], raw.unsupported);
    ResourceListIsExact(p[Resources], raw.resources);
    ScenarioListIsExact(p[Scenarios], raw.scenarios);
  }

  lemma RawBlueprintIsExact(j: Json, raw: Blueprint)
    requires BlueprintRaw(j) == Some(raw)
    ensures BlueprintDocument(j, raw)
  {
    var head := HeadFrom(j.members).value;
    HeadIsExactly(j.members, head);
    CollectionsAreExact(j.members, head, raw);
  }

  /** A Blueprint is read only from the document of parts that construct it, under the version, policies and
      required capabilities that are its own. */
  lemma BlueprintsAreReadExactly(j: Json, b: Blueprint)
    requires BlueprintFrom(j) == Some(b)
    ensures exists raw :: BlueprintDocument(j, raw) && NewBlueprint(raw) == Some(b)
    ensures Declares(j.members, b)
  {
    var raw := BlueprintRaw(j).value;
    RawBlueprintIsExact(j, raw);
    assert NewBlueprint(raw) == Some(b);
  }

  // The document of a response: a Blueprint and no error, or the reverse.
  ghost predicate ResponseDocument(j: Json, r: Response) {
    && j.JObj? && j.members.Keys == RESPONSE_NAMES
    && Has(j.members, SchemaVersion, JStr("sanka-flow-extension/v1")) && Has(j.members, Operation, JStr("blueprint"))
    && Has(j.members, RequestId, JStr(r.requestId)) && Has(j.members, RequestDigest, JStr(r.requestDigest))
    && Has(j.members, Extension, IdentityJson(r.extension)) && Has(j.members, Outcome, JStr(if r.result.Success? then "success" else "error"))
    && match r.result
       case Success(b) =>
         && Has(j.members, Error, JNull)
         && exists raw :: BlueprintDocument(Get(j.members, Name.Blueprint), raw) && NewBlueprint(raw) == Some(b)
       case Failure(code, message) =>
         Has(j.members, Name.Blueprint, JNull) && Has(j.members, Error, JObj(map[Code := JStr(code), Message := JStr(message)]))
  }

  lemma FailureIsExact(j: Json, code: string, message: string)
    requires FailureFrom(j) == Some(Failure(code, message))
    ensures j == JObj(map[Code := JStr(code), Message := JStr(message)])
  {
    assert j.members == map[Code := JStr(code), Message := JStr(message)];
  }

  /** A response is read only from its own document, and is one that could have been constructed. */
  lemma ResponsesAreReadExactly(j: Json, r: Response)
    requires ResponseFrom(j) == Some(r)
    ensures ResponseDocument(j, r) && ResponseOk(r)
  {
    var p := j.members;
    IdentityIsExact(p[Extension], r.extension);
    match r.result
    case Success(b) => BlueprintsAreReadExactly(p[Name.Blueprint], b);
    case Failure(code, message) => FailureIsExact(p[Error], code, message);
  }
}
