/** Records of the evidence stage (backend/src/supportguard/agent/evidence.py and
    evidence_contracts.py).  A missing or falsy text field is "", a field whose
    absence matters is an Option, and JSON values of an unexpected type have a
    constructor of their own.  Times are points on one integer time line, and the
    canonical scope hash is the pair it is computed from. */
module EvidenceModel {
  import opened Options
  import opened Sequences

  type Time = int

  datatype Group = Knowledge | RequestTrace | BillingRecord | ApiKeyMetadata | Subscription | Account | ApiUsage

  function ToolGroup(tool: string): Option<Group> {
    if tool == "search_knowledge" then Some(Knowledge)
    else if tool == "query_request_trace" then Some(RequestTrace)
    else if tool == "query_billing_record" then Some(BillingRecord)
    else if tool == "query_api_key_metadata" then Some(ApiKeyMetadata)
    else if tool == "query_subscription" then Some(Subscription)
    else if tool == "query_account" then Some(Account)
    else if tool == "query_api_usage" then Some(ApiUsage)
    else None
  }

  function GroupName(g: Group): string {
    match g
    case Knowledge => "knowledge"
    case RequestTrace => "request_trace"
    case BillingRecord => "billing_record"
    case ApiKeyMetadata => "api_key_metadata"
    case Subscription => "subscription"
    case Account => "account"
    case ApiUsage => "api_usage"
  }

  /** All groups, sorted by name. */
  const SORTED_GROUPS: seq<Group> :=
    [Account, ApiKeyMetadata, ApiUsage, BillingRecord, Knowledge, RequestTrace, Subscription]

  datatype HashText = Canonical(tenantId: string, customerId: string) | OtherHash(text: string)

  datatype TrustedScope = TrustedScope(tenantId: Option<string>, customerId: Option<string>, hash: Option<HashText>)

  datatype SourceRef = NotARef | SourceRef(sourceId: string, sourceType: string)

  datatype SourceRefs = NoRefs | RefsNotAList | Refs(items: seq<SourceRef>)

  datatype EvidenceItem = NotAnItem | EvidenceItem(evidenceId: string, spanEligible: bool)

  datatype EvidenceList = NoEvidence | EvidenceNotAList(truthy: bool) | Evidence(items: seq<EvidenceItem>)

  datatype Data =
    | NoData
    | DataNotAnObject
    | Data(evidence: EvidenceList, refusalReason: string, conflict: bool,
           resourceVersion: string, version: Option<string>)

  datatype Observation = Observation(
    runId: Option<string>, tenantId: Option<string>, customerId: Option<string>,
    scopeHash: Option<HashText>, trustedScope: Option<TrustedScope>,
    status: string, freshnessStatus: string, observedAt: Option<Time>, freshUntil: Option<Time>,
    observationId: string, toolCallId: string, toolName: string,
    sourceRefs: SourceRefs, data: Data, resourceVersion: Option<string>)

  datatype Scope = Scope(runId: string, tenantId: string, customerId: string)

  datatype FreshObservation = FreshObservation(
    observationId: string, toolCallId: string, toolName: string,
    runId: string, tenantId: string, customerId: string, scopeHash: HashText,
    observedAt: Time, freshUntil: Time,
    sourceIds: seq<string>, evidenceIds: seq<string>, resourceVersion: Option<string>)

  datatype Binding = Binding(
    bindingId: string, providerAttemptId: Option<string>, evidenceId: string,
    documentId: string, chunkId: string, contentHash: string, locatorHash: string)

  datatype Citation = Citation(
    bindingId: string, providerAttemptId: string, evidenceId: string,
    documentId: string, chunkId: string, contentHash: string, locatorHash: string)

  datatype Reason =
    | ObservationNotCurrentScope
    | ObservationNotSuccessful
    | ObservationNotFresh
    | ObservationIdentityIncomplete
    | ObservationSourceDuplicate
    | ObservationEvidenceDuplicate
    | ObservationProjectionInvalid
    | ObservationAmbiguous(observationId: string)
    | SourceConflict(sourceId: string)
    | BindingIdentityMissing
    | BindingNotUnique(bindingId: string)
    | BindingNotCurrent(bindingId: string)
    | BindingInvalid(bindingId: string)
    | CitationNotEligible(bindingId: string)
    | CitationAmbiguous(bindingId: string)
    | ConflictReason(text: string)
    | KnowledgeCitationMissing
    | MissingGroup(group: Group)
    | StaleGroup(group: Group)

  /** The text of a reason, which the error code is chosen from. */
  function Render(r: Reason): string {
    match r
    case ObservationNotCurrentScope => "observation_not_current_scope"
    case ObservationNotSuccessful => "observation_not_successful"
    case ObservationNotFresh => "observation_not_fresh_at_decision_time"
    case ObservationIdentityIncomplete => "observation_identity_incomplete"
    case ObservationSourceDuplicate => "observation_source_identity_duplicate"
    case ObservationEvidenceDuplicate => "observation_evidence_identity_duplicate"
    case ObservationProjectionInvalid => "observation_projection_invalid"
    case ObservationAmbiguous(id) => "observation_identity_ambiguous" + ":" + id
    case SourceConflict(id) => "observation_source_identity_conflict" + ":" + id
    case BindingIdentityMissing => "citation_binding_identity_missing"
    case BindingNotUnique(id) => "citation_binding_not_unique" + ":" + id
    case BindingNotCurrent(id) => "citation_binding_not_current" + ":" + id
    case BindingInvalid(id) => "citation_binding_invalid" + ":" + id
    case CitationNotEligible(id) => "citation_evidence_not_eligible" + ":" + id
    case CitationAmbiguous(id) => "citation_evidence_identity_ambiguous" + ":" + id
    case ConflictReason(text) => "conflict:" + text
    case KnowledgeCitationMissing => "eligible_knowledge_citation_missing"
    case MissingGroup(g) => "missing_evidence_group" + ":" + GroupName(g)
    case StaleGroup(g) => "stale_evidence_group" + ":" + GroupName(g)
  }

  datatype ErrorCode = EvidenceConflict | FreshnessInsufficient | CitationIncomplete | GroupIncomplete

  datatype Verdict = Accept | Replan | Terminal

  datatype Decision = Decision(
    scope: Scope, providerAttemptId: string, required: seq<Group>,
    sufficient: bool, result: Verdict,
    citations: seq<Citation>, observations: seq<FreshObservation>,
    satisfied: seq<Group>, missing: seq<Group>, stale: seq<Group>,
    conflicts: seq<string>, reasons: seq<Reason>, error: Option<ErrorCode>)

  function ObservationKey(): FreshObservation -> string {
    (o: FreshObservation) => o.observationId
  }

  function CitationKey(): Citation -> string {
    (c: Citation) => c.bindingId
  }

  predicate TextWithin(s: string, limit: nat) {
    1 <= |s| <= limit
  }

  /** The bounds of the identity fields of an `EvidenceDecision`. */
  predicate IdentitiesFit(scope: Scope, attempt: string) {
    && TextWithin(scope.runId, 128) && TextWithin(scope.tenantId, 128) && TextWithin(scope.customerId, 128)
    && TextWithin(attempt, 128)
  }

  /** What `EvidenceDecision` demands: its field bounds and `validate_decision_contract`. */
  ghost predicate Contract(d: Decision) {
    && IdentitiesFit(d.scope, d.providerAttemptId)
    && d.sufficient == (d.result == Accept)
    && (d.sufficient ==> d.reasons == [] && d.error == None)
    && (!d.sufficient ==> d.reasons != [])
    && (forall o :: o in d.observations ==> Scope(o.runId, o.tenantId, o.customerId) == d.scope)
    && Unique(Keys(d.citations, CitationKey()))
    && Unique(Keys(d.observations, ObservationKey()))
    && (forall c :: c in d.citations ==> c.providerAttemptId == d.providerAttemptId)
    && (forall g :: g in d.required <==> g in d.satisfied || g in d.missing || g in d.stale)
    && Unique(d.satisfied) && Unique(d.missing) && Unique(d.stale)
    && (forall g :: g in d.satisfied ==> g !in d.missing && g !in d.stale)
    && (forall g :: g in d.missing ==> g !in d.stale)
  }

  datatype Outcome = Raised | Returned(decision: Decision)

  /** Building an `EvidenceDecision` raises when its contract does not hold. */
  ghost function Construct(d: Decision): Outcome {
    if Contract(d) then Returned(d) else Raised
  }
}
