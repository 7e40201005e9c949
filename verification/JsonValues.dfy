/**
 Parsed JSON documents. Objects are unordered, as Python dicts compare and as canonical JSON
 renders them, so equal documents have equal canonical text and equal digests.

 Records have the fixed field names of the artifacts, one constructor of `Name` each; objects whose
 names are data are `JDict`.
 */
module JsonValues {
  import opened Basics

  datatype Name =
    // migration plans
    | SourceProvider | TargetProvider | Routes | Warnings | Coverage | CandidateHash
    | RouteKey | SourceObject | TargetObject | CanonicalType | IdentityField | IdentityTargetFields
    | FieldMappings | EstimatedCount | MappingOrigin | CandidateIds
    | SourceField | TargetField | SourceType | TargetType | TransformRule | EmptyValuePolicy | Required
    | Identity | MappingKind | SourceReferenceObject | TargetReferenceObject | RelationshipMode
    | AssociationCategory | AssociationTypeId | SourceFilter | ValueMap | UnmappedValuePolicy
    | Field | Operator | Value | When
    // flow artifacts
    | Id | Kind | Spec | DependsOn | Nodes | Edges | SchemaVersion | Source | Target | Operation
    | ObjectRef | ChangedFields | Left | Right | Fields | Associations | Scope | OnExisting | OnMissing
    | FieldRef | RelationshipRef | Record | Phase | ReferenceId | Key | ParentId | Binding
    | RelatedObjectId | SourceRef | TargetRef | Code | Message | NodeId | Revision | Digest
    | Origin | Extension | Parameters | Policies | Resources | References | Mappings | Scenarios
    | Unsupported | RequiredCapabilities | RecordId | Before | After | WorkflowId | Case | Events
    | ExpectedCreatedCount | ExpectedFields | ExpectedAssociations | NameField | Slug | ValueType
    | RequestId | RequestDigest | Outcome | Blueprint | Error

  datatype Json =
    | JNull
    | JBool(b: bool)
    | JInt(i: int)
    | JFloat(r: real)
    | JStr(s: string)
    | JArr(items: seq<Json>)
    | JDict(entries: map<string, Json>)
    | JObj(members: map<Name, Json>)

  // A digest of the canonical text: equal digests mean equal documents.
  datatype Hash = Sha256(of: Json)

  function Str(j: Json): Option<string> { if j.JStr? then Some(j.s) else None }

  function Dict(j: Json): Option<map<string, Json>> { if j.JDict? then Some(j.entries) else None }

  // A string or null.
  function MaybeString(j: Json): Option<Option<string>> {
    if j.JNull? then Some(None) else if j.JStr? then Some(Some(j.s)) else None
  }

  // A member, or null where there is none.
  function Get(members: map<Name, Json>, name: Name): Json {
    if name in members then members[name] else JNull
  }

  ghost predicate Has(p: map<Name, Json>, name: Name, j: Json) { name in p && p[name] == j }

  function Strings(xs: seq<string>): (js: seq<Json>)
    ensures |js| == |xs|
  {
    EncodeAll(xs, (x: string) => JStr(x))
  }

  function OrNull(x: Option<string>): Json {
    if x.Some? then JStr(x.value) else JNull
  }

  function EncodeAll<T>(xs: seq<T>, encode: T -> Json): (js: seq<Json>)
    ensures |js| == |xs| && forall i :: 0 <= i < |xs| ==> js[i] == encode(xs[i])
  {
    seq(|xs|, i requires 0 <= i < |xs| => encode(xs[i]))
  }

  function DecodeAll<T>(js: seq<Json>, decode: Json -> Option<T>): Option<seq<T>> {
    if js == [] then Some([]) else
    var x :- decode(js[0]);
    var rest :- DecodeAll(js[1..], decode);
    Some([x] + rest)
  }

  // `array`: a JSON list whose items all decode.
  function DecodeArray<T>(j: Json, decode: Json -> Option<T>): Option<seq<T>> {
    if j.JArr? then DecodeAll(j.items, decode) else None
  }

  /** An array codec is lossless when its item codec is. */
  lemma {:induction false} ArraysAreLossless<T>(xs: seq<T>, encode: T -> Json, decode: Json -> Option<T>)
    requires forall i :: 0 <= i < |xs| ==> decode(encode(xs[i])) == Some(xs[i])
    ensures DecodeArray(JArr(EncodeAll(xs, encode)), decode) == Some(xs)
    decreases |xs|
  {
    var js := EncodeAll(xs, encode);
    if xs != [] {
      assert js[1..] == EncodeAll(xs[1..], encode);
      ArraysAreLossless(xs[1..], encode, decode);
      assert xs == [xs[0]] + xs[1..];
    }
  }

  lemma StringsAreLossless(xs: seq<string>)
    ensures DecodeArray(JArr(Strings(xs)), Str) == Some(xs)
  {
    ArraysAreLossless(xs, (x: string) => JStr(x), Str);
  }
}
