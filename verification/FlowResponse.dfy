/**
 The response of a Flow extension: what makes it answer one request, and its wire form.
 */
module FlowResponse {
  import opened Basics
  import opened JsonValues
  import opened FlowModel
  import opened FlowWire
  import opened FlowDocuments
  import opened FlowBuild
  import opened FlowProgress

  datatype Result =
    | Success(blueprint: Blueprint)
    | Failure(code: string, message: string)

  datatype Response = Response(requestId: string, requestDigest: string, extension: ArtifactIdentity, result: Result)

  // What `validate_for` reads of a request.
  datatype Request = Request(requestId: string, digest: string, extension: ArtifactIdentity, template: ArtifactIdentity,
                             outputV2: bool, references: seq<Reference>, parameters: map<string, Json>,
                             capabilities: set<string>)

  ghost predicate ResultOk(r: Result, extension: ArtifactIdentity) {
    match r
    case Success(b) => NewBlueprint(b) == Some(b) && b.extension == extension
    case Failure(code, message) => Identifier(code) && Text(message)
  }

  // A constructed response.
  ghost predicate ResponseOk(r: Response) {
    Identifier(r.requestId) && DigestText(r.requestDigest) && IdentityOk(r.extension) && ResultOk(r.result, r.extension)
  }

  // `validate_for`, with `require_supported` of the target's capabilities.
  predicate ValidFor(r: Response, q: Request) {
    && r.requestId == q.requestId && r.requestDigest == q.digest && r.extension == q.extension
    && match r.result
       case Failure(_, _) => true
       case Success(b) =>
         && b.origin == BlueprintOrigin(true, q.template) && b.v2 == q.outputV2
         && b.references == q.references && b.mappings == [] && b.parameters == q.parameters
         && b.unsupported == [] && Capabilities(b) <= q.capabilities
  }

  const PROTOCOL := "sanka-flow-extension/v1"

  const RESPONSE_NAMES := {SchemaVersion, RequestId, RequestDigest, Operation, Extension, Outcome, Name.Blueprint, Error}

  ghost function BlueprintMember(r: Result): Json {
    match r
    case Success(b) => BlueprintJson(b)
    case Failure(_, _) => JNull
  }

  function ErrorMember(r: Result): Json {
    match r
    case Success(_) => JNull
    case Failure(code, message) => JObj(map[Code := JStr(code), Message := JStr(message)])
  }

  ghost function ResponseJson(r: Response): Json {
    JObj(map[
      SchemaVersion := JStr(PROTOCOL),
      RequestId := JStr(r.requestId),
      RequestDigest := JStr(r.requestDigest),
      Operation := JStr("blueprint"),
      Extension := IdentityJson(r.extension),
      Outcome := Pick(r.result.Success?, "success", "error"),
      Name.Blueprint := BlueprintMember(r.result),
      Error := ErrorMember(r.result)])
  }

  function FailureFrom(j: Json): Option<Result> {
    var p := ObjectFields(j, {Code, Message});
    if p.None? then None else
    var code, message := Str(Get(p.value, Code)), Str(Get(p.value, Message));
    if code.None? || message.None? then None else Some(Failure(code.value, message.value))
  }

  ghost function SuccessFrom(j: Json): Option<Result> {
    var b := BlueprintFrom(j);
    if b.None? then None else Some(Success(b.value))
  }

  // A success carries a Blueprint and no error, a failure the reverse.
  ghost function ResultFrom(success: bool, blueprint: Json, error: Json): Option<Result> {
    if success then (if error == JNull then SuccessFrom(blueprint) else None)
    else if blueprint == JNull then FailureFrom(error) else None
  }

  ghost function ResponseParts(p: map<Name, Json>): Option<Response> {
    var id, digest, extension := Str(Get(p, RequestId)), Str(Get(p, RequestDigest)), IdentityFrom(Get(p, Extension));
    var success := OneOf(Get(p, Outcome), "success", "error");
    if success.None? || Get(p, SchemaVersion) != JStr(PROTOCOL) || Get(p, Operation) != JStr("blueprint") then None else
    var result := ResultFrom(success.value, Get(p, Name.Blueprint), Get(p, Error));
    if id.None? || digest.None? || extension.None? || result.None? then None
    else Some(Response(id.value, digest.value, extension.value, result.value))
  }

  ghost function ResponseRaw(j: Json): Option<Response> {
    var p := ObjectFields(j, RESPONSE_NAMES);
    if p.None? then None else ResponseParts(p.value)
  }

  ghost function ResponseFrom(j: Json): Option<Response> {
    var raw := ResponseRaw(j);
    if raw.None? || !ResponseOk(raw.value) then None else raw
  }

  lemma ResultRoundTrip(r: Result, extension: ArtifactIdentity)
    requires ResultOk(r, extension)
    ensures ResultFrom(r.Success?, BlueprintMember(r), ErrorMember(r)) == Some(r)
  {
    if r.Success? { SettledRoundTrip(r.blueprint); }
  }

  lemma ResponseIsRead(r: Response, p: map<Name, Json>, blueprint: Json, error: Json)
    requires IdentityOk(r.extension) && ResultFrom(r.result.Success?, blueprint, error) == Some(r.result)
    requires Has(p, SchemaVersion, JStr(PROTOCOL)) && Has(p, Operation, JStr("blueprint"))
    requires Has(p, RequestId, JStr(r.requestId)) && Has(p, RequestDigest, JStr(r.requestDigest))
    requires Has(p, Extension, IdentityJson(r.extension)) && Has(p, Outcome, Pick(r.result.Success?, "success", "error"))
    requires Has(p, Name.Blueprint, blueprint) && Has(p, Error, error)
    ensures ResponseParts(p) == Some(r)
  {
    IdentityRoundTrip(r.extension);
    assert |"success"| == 7 && |"error"| == 5;
    Picked(r.result.Success?, "success", "error");
  }

  lemma ResponseMembers(r: Response, p: map<Name, Json>)
    requires p == ResponseJson(r).members
    ensures p.Keys == RESPONSE_NAMES
    ensures Has(p, SchemaVersion, JStr(PROTOCOL)) && Has(p, Operation, JStr("blueprint"))
    ensures Has(p, RequestId, JStr(r.requestId)) && Has(p, RequestDigest, JStr(r.requestDigest))
    ensures Has(p, Extension, IdentityJson(r.extension)) && Has(p, Outcome, Pick(r.result.Success?, "success", "error"))
    ensures Has(p, Name.Blueprint, BlueprintMember(r.result)) && Has(p, Error, ErrorMember(r.result))
  {}

  lemma ResponseRawRoundTrip(r: Response)
    requires IdentityOk(r.extension) && ResultOk(r.result, r.extension)
    ensures ResponseRaw(ResponseJson(r)) == Some(r)
  {
    var p := ResponseJson(r).members;
    ResponseMembers(r, p);
    ResultRoundTrip(r.result, r.extension);
    ResponseIsRead(r, p, BlueprintMember(r.result), ErrorMember(r.result));
  }

  /** A response reads back from the wire as itself, so it answers exactly the requests it answered
      before it was sent. */
  lemma ResponsesSurviveTheWire(r: Response, q: Request)
    requires ResponseOk(r)
    ensures ResponseFrom(ResponseJson(r)) == Some(r)
    ensures ValidFor(r, q) <==> ResponseFrom(ResponseJson(r)).Some? && ValidFor(ResponseFrom(ResponseJson(r)).value, q)
  {
    ResponseRawRoundTrip(r);
  }

  /** Whatever document a response was read from, sending it on changes nothing. */
  lemma ReadResponsesAreSettled(j: Json)
    requires ResponseFrom(j).Some?
    ensures ResponseFrom(ResponseJson(ResponseFrom(j).value)) == ResponseFrom(j)
    ensures var r := ResponseFrom(j).value; Identifier(r.requestId) && DigestText(r.requestDigest) && (r.result.Failure? ==> Identifier(r.result.code) && Text(r.result.message))
  {
    ResponseRawRoundTrip(ResponseFrom(j).value);
  }

  /** A response answers one request: whatever two requests it is valid for agree in id, digest and
      extension, and if it succeeds in template, output version, references and parameters. */
  lemma AnswersOneRequest(r: Response, q: Request, p: Request)
    requires ValidFor(r, q) && ValidFor(r, p)
    ensures q.requestId == p.requestId && q.digest == p.digest && q.extension == p.extension
    ensures r.result.Success? ==>
              q.template == p.template && q.outputV2 == p.outputV2 && q.references == p.references && q.parameters == p.parameters
  {
  }

  /** Every well-formed request has an answer: it can be refused, and where a template Blueprint of its own
      version, references and parameters exists, that Blueprint answers it exactly if the target has all the
      capabilities that it requires. */
  lemma EveryRequestHasAnswers(q: Request, code: string, message: string, b: Blueprint)
    requires Identifier(q.requestId) && DigestText(q.digest) && IdentityOk(q.extension)
    ensures var refusal := Response(q.requestId, q.digest, q.extension, Failure(code, message));
            Identifier(code) && Text(message) ==> ResponseOk(refusal) && ValidFor(refusal, q)
    ensures var answer := Response(q.requestId, q.digest, q.extension, Success(b));
            NewBlueprint(b) == Some(b) && b.extension == q.extension && b.origin.template && b.origin.identity == q.template && b.v2 == q.outputV2
              && b.references == q.references && b.parameters == q.parameters && b.mappings == [] && b.unsupported == []
            ==> ResponseOk(answer) && (ValidFor(answer, q) <==> Capabilities(b) <= q.capabilities)
  {
  }

  // The target supports what a workflow graph needs.
  ghost predicate Supports(capabilities: set<string>, g: WorkflowGraph) {
    && (if g.v2 then "sanka-flow-graph/v2" else "sanka-flow-graph/v1") in capabilities && "flow.record-identity/v1" in capabilities
    && forall n :: n in g.nodes ==> SupportsNode(capabilities, n.spec)
  }

  predicate SupportsNode(capabilities: set<string>, spec: NodeSpec) {
    match spec
    case Trigger(_, _, created) => (if created then "flow.trigger.record.created/v1" else "flow.trigger.record.updated/v1") in capabilities
    case Condition(_, _) => "flow.condition.equals/v1" in capabilities
    case Action(_, _, associations) =>
      "flow.action.record.create/v1" in capabilities && (associations != [] ==> "flow.associations/v1" in capabilities)
  }

  function KindCapability(spec: ResourceSpec): string {
    match spec
    case WorkflowSpec(_) => "flow.resource.workflow/v1"
    case ObjectSpec(_, _) => "flow.resource.object/v1"
    case PropertySpec(_, _, _, _, _) => "flow.resource.property/v1"
  }

  lemma ResourceNeeds(b: Blueprint, r: Resource)
    requires r in b.resources
    ensures ResourceCapabilities(r) <= Capabilities(b)
  {
    forall c | c in ResourceCapabilities(r) ensures c in Capabilities(b) {}
  }

  lemma NodeNeeds(g: WorkflowGraph, n: Node)
    requires n in g.nodes
    ensures SpecCapabilities(n.spec) <= GraphCapabilities(g)
  {
    forall c | c in SpecCapabilities(n.spec) ensures c in GraphCapabilities(g) {}
  }

  lemma NodeIsSupported(capabilities: set<string>, spec: NodeSpec)
    requires SpecCapabilities(spec) <= capabilities
    ensures SupportsNode(capabilities, spec)
  {
    if spec.Trigger? {
      var needed := "flow.trigger." + (if spec.created then CREATED else UPDATED) + "/v1";
      assert needed in SpecCapabilities(spec);
      assert "flow.trigger." + "record.created" + "/v1" == "flow.trigger.record.created/v1";
      assert "flow.trigger." + "record.updated" + "/v1" == "flow.trigger.record.updated/v1";
    }
  }

  lemma KindIsNeeded(r: Resource)
    ensures KindCapability(r.spec) in ResourceCapabilities(r)
  {
    assert "flow.resource." + "workflow" + "/v1" == "flow.resource.workflow/v1";
    assert "flow.resource." + "object" + "/v1" == "flow.resource.object/v1";
    assert "flow.resource." + "property" + "/v1" == "flow.resource.property/v1";
  }

  lemma GraphIsSupported(capabilities: set<string>, g: WorkflowGraph)
    requires GraphCapabilities(g) <= capabilities
    ensures Supports(capabilities, g)
  {
    assert "flow.record-identity/v1" in GraphCapabilities(g);
    forall n | n in g.nodes ensures SupportsNode(capabilities, n.spec) {
      NodeNeeds(g, n);
      NodeIsSupported(capabilities, n.spec);
    }
  }

  lemma CapabilitiesAreNeeded(b: Blueprint, capabilities: set<string>, r: Resource)
    requires Capabilities(b) <= capabilities && r in b.resources
    ensures KindCapability(r.spec) in capabilities && (r.spec.WorkflowSpec? ==> Supports(capabilities, r.spec.graph))
  {
    ResourceNeeds(b, r);
    KindIsNeeded(r);
    if r.spec.WorkflowSpec? { GraphIsSupported(capabilities, r.spec.graph); }
  }

  /** A success carries what was requested: the template it came from, the output version, the target's own
      references and the parameters, nothing mapped and nothing left unsupported; the target supports
      every resource and node of it; and each of its workflows is exercised in every case. */
  lemma AnswersCarryTheRequest(r: Response, q: Request, w: Resource, c: Case) returns (s: Scenario)
    requires ResponseOk(r) && ValidFor(r, q) && r.result.Success? && w in r.result.blueprint.resources && w.spec.WorkflowSpec?
    ensures var b := r.result.blueprint;
            && (if b.v2 then "sanka-flow-blueprint/v2" else "sanka-flow-blueprint/v1") in q.capabilities
            && b.extension == q.extension && b.origin.template && b.origin.identity == q.template && b.v2 == q.outputV2
            && b.references == q.references && (forall x :: x in b.references ==> !x.source)
            && b.parameters == q.parameters && b.mappings == [] && b.unsupported == []
            && (forall x :: x in b.resources ==> KindCapability(x.spec) in q.capabilities) && Supports(q.capabilities, w.spec.graph)
            && s in b.scenarios && s.workflowId == w.id && s.required && s.case_ == c && Exercises(s, w.spec.graph, b.references)
  {
    var b := r.result.blueprint;
    s := EveryWorkflowIsExercised(b, b, w, c);
    BuiltParts(b, b);
    forall x | x in b.resources ensures KindCapability(x.spec) in q.capabilities { CapabilitiesAreNeeded(b, q.capabilities, x); }
    CapabilitiesAreNeeded(b, q.capabilities, w);
  }
}
