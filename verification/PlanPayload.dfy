/**
 The migration plan and the JSON payload that is reviewed, hashed, stored and read back.
 */
module PlanPayload {
  import opened Basics
  import opened JsonValues

  datatype Filter = Filter(field: string, operator: string, value: bool)

  datatype ValueMapEntry = ValueMapEntry(when: map<string, Json>, value: Json)

  // The second half of a mapping rule's fields: its kind, its references and its value map.
  datatype ReferenceRule = ReferenceRule(
    mappingKind: string,
    sourceReferenceObject: Option<string>,
    targetReferenceObject: Option<string>,
    relationshipMode: Option<string>,
    associationCategory: Option<string>,
    associationTypeId: Option<int>,
    sourceFilter: Option<Filter>,
    valueMap: seq<ValueMapEntry>,
    unmappedValuePolicy: string)

  datatype MappingField = MappingField(
    sourceField: string,
    targetObject: string,
    targetField: string,
    sourceType: Option<string>,
    targetType: Option<string>,
    transformRule: Option<string>,
    emptyValuePolicy: string,
    required: bool,
    identity: Option<bool>,
    rule: ReferenceRule)

  datatype RoutePlan = RoutePlan(
    routeKey: string,
    sourceObject: string,
    targetObject: string,
    canonicalType: string,
    identityField: string,
    identityTargetFields: seq<string>,
    fieldMappings: seq<MappingField>,
    estimatedCount: int,
    mappingOrigin: string,
    candidateIds: seq<string>)

  datatype MigrationPlan = MigrationPlan(
    sourceProvider: string,
    targetProvider: string,
    routes: seq<RoutePlan>,
    warnings: seq<string>,
    coverage: map<string, Json>,
    candidateHash: Option<string>)

  function MaybeBool(j: Json): Option<Option<bool>> {
    match j
    case JNull => Some(None)
    case JBool(b) => Some(Some(b))
    case _ => None
  }

  function MaybeInt(j: Json): Option<Option<int>> {
    match j
    case JNull => Some(None)
    case JInt(i) => Some(Some(i))
    case _ => None
  }

  // `payload.get(name, default)` of a string field.
  function StringOr(members: map<Name, Json>, name: Name, default: string): Option<string> {
    if name in members then Str(members[name]) else Some(default)
  }

  function BoolOrNull(x: Option<bool>): Json { if x.Some? then JBool(x.value) else JNull }
  function IntOrNull(x: Option<int>): Json { if x.Some? then JInt(x.value) else JNull }

  // -- One mapping rule -----------------------------------------------------------------------

  function FilterPayload(f: Option<Filter>): Json {
    match f
    case None => JNull
    case Some(f) => JObj(map[Field := JStr(f.field), Operator := JStr(f.operator), Value := JBool(f.value)])
  }

  function FilterFromPayload(j: Json): Option<Option<Filter>> {
    if j.JNull? then Some(None)
    else if !j.JObj? || Value !in j.members || !j.members[Value].JBool? then None
    else
      var field :- Str(Get(j.members, Field));
      var operator :- Str(Get(j.members, Operator));
      Some(Some(Filter(field, operator, j.members[Value].b)))
  }

  function EntryPayload(e: ValueMapEntry): Json {
    JObj(map[When := JDict(e.when), Value := e.value])
  }

  function EntryFromPayload(j: Json): Option<ValueMapEntry> {
    if !j.JObj? || When !in j.members || Value !in j.members then None else
    var when :- Dict(j.members[When]);
    Some(ValueMapEntry(when, j.members[Value]))
  }

  function RulePayload(r: ReferenceRule): map<Name, Json> {
    map[
      MappingKind := JStr(r.mappingKind),
      SourceReferenceObject := OrNull(r.sourceReferenceObject),
      TargetReferenceObject := OrNull(r.targetReferenceObject),
      RelationshipMode := OrNull(r.relationshipMode),
      AssociationCategory := OrNull(r.associationCategory),
      AssociationTypeId := IntOrNull(r.associationTypeId),
      SourceFilter := FilterPayload(r.sourceFilter),
      ValueMap := JArr(EncodeAll(r.valueMap, EntryPayload)),
      UnmappedValuePolicy := JStr(r.unmappedValuePolicy)]
  }

  function HeadPayload(m: MappingField): map<Name, Json> {
    var head := map[
      SourceField := JStr(m.sourceField),
      TargetObject := JStr(m.targetObject),
      TargetField := JStr(m.targetField),
      SourceType := OrNull(m.sourceType),
      TargetType := OrNull(m.targetType),
      TransformRule := OrNull(m.transformRule),
      Required := JBool(m.required),
      Identity := BoolOrNull(m.identity)];
    if m.emptyValuePolicy != "preserve" then head[EmptyValuePolicy := JStr(m.emptyValuePolicy)] else head
  }

  // `_mapping_field_payload`: the default empty-value policy is left out.
  function FieldPayload(m: MappingField): Json {
    JObj(HeadPayload(m) + RulePayload(m.rule))
  }

  function FieldFromPayload(j: Json): Option<MappingField> {
    if !j.JObj? then None else
    var p := j.members;
    if SourceField !in p || TargetObject !in p || TargetField !in p then None else
    var sourceField, targetObject, targetField := Str(p[SourceField]), Str(p[TargetObject]), Str(p[TargetField]);
    var sourceType, targetType, transformRule := MaybeString(Get(p, SourceType)), MaybeString(Get(p, TargetType)), MaybeString(Get(p, TransformRule));
    var emptyValuePolicy := StringOr(p, EmptyValuePolicy, "preserve");
    var required, identity := MaybeBool(Get(p, Required)), MaybeBool(Get(p, Identity));
    var references := ReferencesFromPayload(p);
    if || sourceField.None? || targetObject.None? || targetField.None? || sourceType.None? || targetType.None? || transformRule.None?
       || emptyValuePolicy.None? || required.None? || identity.None? || references.None?
    then None
    else Some(MappingField(sourceField.value, targetObject.value, targetField.value, sourceType.value, targetType.value,
                           transformRule.value, emptyValuePolicy.value, required.value == Some(true), identity.value, references.value))
  }

  function ReferencesFromPayload(p: map<Name, Json>): Option<ReferenceRule> {
    var mappingKind := StringOr(p, MappingKind, "scalar");
    var sourceObject, targetObject := MaybeString(Get(p, SourceReferenceObject)), MaybeString(Get(p, TargetReferenceObject));
    var mode, category := MaybeString(Get(p, RelationshipMode)), MaybeString(Get(p, AssociationCategory));
    var typeId := MaybeInt(Get(p, AssociationTypeId));
    var sourceFilter := FilterFromPayload(Get(p, SourceFilter));
    var valueMap := if ValueMap in p then DecodeArray(p[ValueMap], EntryFromPayload) else Some([]);
    var unmappedValuePolicy := StringOr(p, UnmappedValuePolicy, "error");
    if || mappingKind.None? || sourceObject.None? || targetObject.None? || mode.None? || category.None? || typeId.None?
       || sourceFilter.None? || valueMap.None? || unmappedValuePolicy.None?
    then None
    else Some(ReferenceRule(mappingKind.value, sourceObject.value, targetObject.value, mode.value, category.value, typeId.value,
                            sourceFilter.value, valueMap.value, unmappedValuePolicy.value))
  }

  // -- Routes and plans -----------------------------------------------------------------------

  function RoutePayload(r: RoutePlan): Json {
    JObj(map[
      RouteKey := JStr(r.routeKey),
      SourceObject := JStr(r.sourceObject),
      TargetObject := JStr(r.targetObject),
      CanonicalType := JStr(r.canonicalType),
      IdentityField := JStr(r.identityField),
      IdentityTargetFields := JArr(Strings(r.identityTargetFields)),
      FieldMappings := JArr(EncodeAll(r.fieldMappings, FieldPayload)),
      EstimatedCount := JInt(r.estimatedCount),
      MappingOrigin := JStr(r.mappingOrigin),
      CandidateIds := JArr(Strings(r.candidateIds))])
  }

  function RouteFromPayload(j: Json): Option<RoutePlan> {
    if !j.JObj? then None else
    var p := j.members;
    var routeKey, sourceObject, targetObject := Str(Get(p, RouteKey)), Str(Get(p, SourceObject)), Str(Get(p, TargetObject));
    var canonicalType, identityField, origin := Str(Get(p, CanonicalType)), Str(Get(p, IdentityField)), Str(Get(p, MappingOrigin));
    var targets := DecodeArray(Get(p, IdentityTargetFields), Str);
    var mappings := DecodeArray(Get(p, FieldMappings), FieldFromPayload);
    var count := Get(p, EstimatedCount);
    var candidates := if CandidateIds in p then DecodeArray(p[CandidateIds], Str) else Some([]);
    if || routeKey.None? || sourceObject.None? || targetObject.None? || canonicalType.None? || identityField.None? || origin.None?
       || targets.None? || mappings.None? || !count.JInt? || candidates.None?
    then None
    else Some(RoutePlan(routeKey.value, sourceObject.value, targetObject.value, canonicalType.value, identityField.value,
                        targets.value, mappings.value, count.i, origin.value, candidates.value))
  }

  function ToPayload(plan: MigrationPlan): Json {
    JObj(map[
      SourceProvider := JStr(plan.sourceProvider),
      TargetProvider := JStr(plan.targetProvider),
      Routes := JArr(EncodeAll(plan.routes, RoutePayload)),
      Warnings := JArr(Strings(plan.warnings)),
      Coverage := JDict(plan.coverage),
      CandidateHash := OrNull(plan.candidateHash)])
  }

  // A falsy candidate hash reads back as None.
  function FromPayload(j: Json): Option<MigrationPlan> {
    if !j.JObj? then None else
    var p := j.members;
    var sourceProvider, targetProvider := Str(Get(p, SourceProvider)), Str(Get(p, TargetProvider));
    var routes := DecodeArray(Get(p, Routes), RouteFromPayload);
    var warnings := if Warnings in p then DecodeArray(p[Warnings], Str) else Some([]);
    var coverage := if Coverage in p then Dict(p[Coverage]) else Some(map[]);
    var hash := MaybeString(Get(p, CandidateHash));
    if sourceProvider.None? || targetProvider.None? || routes.None? || warnings.None? || coverage.None? || hash.None? then None
    else Some(MigrationPlan(sourceProvider.value, targetProvider.value, routes.value, warnings.value, coverage.value,
                            if hash.value == Some("") then None else hash.value))
  }

  function PlanHash(plan: MigrationPlan): Hash {
    Sha256(ToPayload(plan))
  }

  lemma EntriesAreLossless(entries: seq<ValueMapEntry>)
    ensures DecodeArray(JArr(EncodeAll(entries, EntryPayload)), EntryFromPayload) == Some(entries)
  {
    forall i | 0 <= i < |entries| ensures EntryFromPayload(EntryPayload(entries[i])) == Some(entries[i]) {}
    ArraysAreLossless(entries, EntryPayload, EntryFromPayload);
  }

  // The members a rule writes, one by one.
  ghost predicate HoldsRule(p: map<Name, Json>, r: ReferenceRule) {
    && Has(p, MappingKind, JStr(r.mappingKind))
    && Has(p, SourceReferenceObject, OrNull(r.sourceReferenceObject))
    && Has(p, TargetReferenceObject, OrNull(r.targetReferenceObject))
    && Has(p, RelationshipMode, OrNull(r.relationshipMode))
    && Has(p, AssociationCategory, OrNull(r.associationCategory))
    && Has(p, AssociationTypeId, IntOrNull(r.associationTypeId))
    && Has(p, SourceFilter, FilterPayload(r.sourceFilter))
    && Has(p, ValueMap, JArr(EncodeAll(r.valueMap, EntryPayload)))
    && Has(p, UnmappedValuePolicy, JStr(r.unmappedValuePolicy))
  }

  ghost predicate HoldsHead(p: map<Name, Json>, m: MappingField) {
    && Has(p, SourceField, JStr(m.sourceField))
    && Has(p, TargetObject, JStr(m.targetObject))
    && Has(p, TargetField, JStr(m.targetField))
    && Has(p, SourceType, OrNull(m.sourceType))
    && Has(p, TargetType, OrNull(m.targetType))
    && Has(p, TransformRule, OrNull(m.transformRule))
    && Has(p, Required, JBool(m.required))
    && Has(p, Identity, BoolOrNull(m.identity))
    && if m.emptyValuePolicy == "preserve" then EmptyValuePolicy !in p else Has(p, EmptyValuePolicy, JStr(m.emptyValuePolicy))
  }

  lemma RulesAreLossless(r: ReferenceRule, p: map<Name, Json>)
    requires HoldsRule(p, r)
    ensures ReferencesFromPayload(p) == Some(r)
  {
    EntriesAreLossless(r.valueMap);
  }

  lemma HeadHolds(m: MappingField)
    ensures HoldsHead(HeadPayload(m), m)
  {}

  lemma HeadIsKept(m: MappingField, head: map<Name, Json>, tail: map<Name, Json>)
    requires HoldsHead(head, m)
    requires SourceField !in tail && TargetObject !in tail && TargetField !in tail && SourceType !in tail && TargetType !in tail
    requires TransformRule !in tail && Required !in tail && Identity !in tail && EmptyValuePolicy !in tail
    ensures HoldsHead(head + tail, m)
  {}

  lemma RuleIsHeld(r: ReferenceRule, head: map<Name, Json>)
    ensures HoldsRule(head + RulePayload(r), r)
  {
  }

  lemma HeldIsRead(m: MappingField, p: map<Name, Json>)
    requires HoldsHead(p, m) && HoldsRule(p, m.rule)
    ensures FieldFromPayload(JObj(p)) == Some(m)
  {
    RulesAreLossless(m.rule, p);
  }

  lemma FieldsAreLossless(m: MappingField)
    ensures FieldFromPayload(FieldPayload(m)) == Some(m)
  {
    HeadHolds(m);
    HeadIsKept(m, HeadPayload(m), RulePayload(m.rule));
    RuleIsHeld(m.rule, HeadPayload(m));
    HeldIsRead(m, HeadPayload(m) + RulePayload(m.rule));
  }

  lemma MappingsAreLossless(mappings: seq<MappingField>)
    ensures DecodeArray(JArr(EncodeAll(mappings, FieldPayload)), FieldFromPayload) == Some(mappings)
  {
    forall i | 0 <= i < |mappings| ensures FieldFromPayload(FieldPayload(mappings[i])) == Some(mappings[i]) {
      FieldsAreLossless(mappings[i]);
    }
    ArraysAreLossless(mappings, FieldPayload, FieldFromPayload);
  }

  lemma RouteIsRead(r: RoutePlan, p: map<Name, Json>)
    requires Has(p, RouteKey, JStr(r.routeKey)) && Has(p, SourceObject, JStr(r.sourceObject)) && Has(p, TargetObject, JStr(r.targetObject))
    requires Has(p, CanonicalType, JStr(r.canonicalType)) && Has(p, IdentityField, JStr(r.identityField))
    requires Has(p, IdentityTargetFields, JArr(Strings(r.identityTargetFields))) && Has(p, CandidateIds, JArr(Strings(r.candidateIds)))
    requires Has(p, FieldMappings, JArr(EncodeAll(r.fieldMappings, FieldPayload)))
    requires Has(p, EstimatedCount, JInt(r.estimatedCount)) && Has(p, MappingOrigin, JStr(r.mappingOrigin))
    ensures RouteFromPayload(JObj(p)) == Some(r)
  {
    MappingsAreLossless(r.fieldMappings);
    StringsAreLossless(r.identityTargetFields);
    StringsAreLossless(r.candidateIds);
  }

  lemma RoutesAreLossless(r: RoutePlan)
    ensures RouteFromPayload(RoutePayload(r)) == Some(r)
  {
    RouteIsRead(r, RoutePayload(r).members);
  }

  lemma AllRoutesAreLossless(routes: seq<RoutePlan>)
    ensures DecodeArray(JArr(EncodeAll(routes, RoutePayload)), RouteFromPayload) == Some(routes)
  {
    forall i | 0 <= i < |routes| ensures RouteFromPayload(RoutePayload(routes[i])) == Some(routes[i]) {
      RoutesAreLossless(routes[i]);
    }
    ArraysAreLossless(routes, RoutePayload, RouteFromPayload);
  }

  lemma PlanIsRead(plan: MigrationPlan, p: map<Name, Json>)
    requires Has(p, SourceProvider, JStr(plan.sourceProvider)) && Has(p, TargetProvider, JStr(plan.targetProvider))
    requires Has(p, Routes, JArr(EncodeAll(plan.routes, RoutePayload))) && Has(p, Warnings, JArr(Strings(plan.warnings)))
    requires Has(p, Coverage, JDict(plan.coverage)) && Has(p, CandidateHash, OrNull(plan.candidateHash))
    ensures FromPayload(JObj(p)) == Some(plan.(candidateHash := if plan.candidateHash == Some("") then None else plan.candidateHash))
  {
    AllRoutesAreLossless(plan.routes);
    StringsAreLossless(plan.warnings);
  }

  /** A stored payload reads back as the very plan that was reviewed, if and only if its candidate
      hash is not the empty string. */
  lemma PlansAreLossless(plan: MigrationPlan)
    ensures FromPayload(ToPayload(plan)) == Some(plan) <==> plan.candidateHash != Some("")
    ensures FromPayload(ToPayload(plan)).Some?
  {
    PlanIsRead(plan, ToPayload(plan).members);
  }

  /** The hash an operator reviews is the hash recomputed from the stored document, so nothing that
      is executed can differ from what was reviewed; and two plans with one hash read back equal. */
  lemma ReviewedHashIsRecomputed(plan: MigrationPlan)
    requires plan.candidateHash != Some("")
    ensures FromPayload(ToPayload(plan)).Some? && PlanHash(FromPayload(ToPayload(plan)).value) == PlanHash(plan)
  {
    PlansAreLossless(plan);
  }

  lemma HashesSeparatePlans(a: MigrationPlan, b: MigrationPlan)
    requires a.candidateHash != Some("") && b.candidateHash != Some("") && PlanHash(a) == PlanHash(b)
    ensures a == b
  {
    PlansAreLossless(a);
    PlansAreLossless(b);
  }
}
