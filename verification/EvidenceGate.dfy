/** `decide_evidence`, stage by stage, as functions of its inputs. */
module EvidenceGate {
  import opened Options
  import opened Sequences
  import opened EvidenceModel

  const UNRESOLVED_VERSIONS := "unresolved_published_version_conflict"

  // ----- one observation -----

  /** `_observation_scope_matches`. */
  predicate InScope(o: Observation, scope: Scope) {
    && o.trustedScope.Some?
    && o.runId == Some(scope.runId)
    && o.tenantId == Some(scope.tenantId)
    && o.customerId == Some(scope.customerId)
    && o.scopeHash == Some(Canonical(scope.tenantId, scope.customerId))
    && o.trustedScope.value == TrustedScope(Some(scope.tenantId), Some(scope.customerId),
                                            Some(Canonical(scope.tenantId, scope.customerId)))
  }

  predicate Relevant(o: Observation, scope: Scope) {
    InScope(o, scope) && o.status == "ok"
  }

  function RefSource(): SourceRef -> seq<string> {
    (r: SourceRef) => if r.SourceRef? && r.sourceId != "" then [r.sourceId] else []
  }

  function SourceIds(o: Observation): seq<string> {
    if o.sourceRefs.Refs? then FlatMap(o.sourceRefs.items, RefSource()) else []
  }

  function ItemId(): EvidenceItem -> seq<string> {
    (e: EvidenceItem) => if e.EvidenceItem? && e.evidenceId != "" && e.spanEligible then [e.evidenceId] else []
  }

  function EvidenceIds(o: Observation): seq<string> {
    if o.data.Data? && o.data.evidence.Evidence? then FlatMap(o.data.evidence.items, ItemId()) else []
  }

  function Identity(o: Observation): string {
    if o.observationId != "" then o.observationId else o.toolCallId
  }

  function ResourceVersion(o: Observation): Option<string> {
    if o.resourceVersion == None && o.data.Data? then
      if o.data.resourceVersion != "" then Some(o.data.resourceVersion) else o.data.version
    else o.resourceVersion
  }

  predicate Complete(o: Observation) {
    o.observedAt.Some? && o.freshUntil.Some? && o.toolCallId != "" && o.toolName != ""
  }

  predicate FreshAt(o: Observation, now: Time) {
    o.observedAt.Some? && o.freshUntil.Some? && o.observedAt.value <= now <= o.freshUntil.value
  }

  predicate HasRepeats(s: seq<string>) {
    exists i, j :: 0 <= i < j < |s| && s[i] == s[j]
  }

  predicate ProjectionFits(o: Observation, scope: Scope) {
    && TextWithin(Identity(o), 128) && TextWithin(o.toolCallId, 128) && TextWithin(o.toolName, 128)
    && TextWithin(scope.runId, 128) && TextWithin(scope.tenantId, 128) && TextWithin(scope.customerId, 128)
  }

  datatype Projection = Projected(view: FreshObservation) | Rejected(reason: Reason)

  /** `_fresh_scoped_observation`. */
  function Project(o: Observation, scope: Scope, now: Time): Projection {
    if !InScope(o, scope) then Rejected(ObservationNotCurrentScope)
    else if o.status != "ok" then Rejected(ObservationNotSuccessful)
    else if o.freshnessStatus != "fresh" then Rejected(ObservationNotFresh)
    else if !Complete(o) then Rejected(ObservationIdentityIncomplete)
    else if !FreshAt(o, now) then Rejected(ObservationNotFresh)
    else if HasRepeats(SourceIds(o)) then Rejected(ObservationSourceDuplicate)
    else if HasRepeats(EvidenceIds(o)) then Rejected(ObservationEvidenceDuplicate)
    else if !ProjectionFits(o, scope) then Rejected(ObservationProjectionInvalid)
    else Projected(FreshObservation(
      Identity(o), o.toolCallId, o.toolName, scope.runId, scope.tenantId, scope.customerId,
      Canonical(scope.tenantId, scope.customerId), o.observedAt.value, o.freshUntil.value,
      SourceIds(o), EvidenceIds(o), ResourceVersion(o)))
  }

  // ----- all observations -----

  datatype Pair = Pair(raw: Observation, view: FreshObservation)

  function PairOf(scope: Scope, now: Time): Observation -> seq<Pair> {
    (o: Observation) => var p := Project(o, scope, now); if p.Projected? then [Pair(o, p.view)] else []
  }

  function ReasonOf(scope: Scope, now: Time): Observation -> seq<Reason> {
    (o: Observation) => var p := Project(o, scope, now);
         if p.Projected? || p.reason == ObservationNotCurrentScope || p.reason == ObservationNotSuccessful then []
         else [p.reason]
  }

  function PairKey(): Pair -> string {
    (p: Pair) => p.view.observationId
  }

  function SingleRow(pairs: seq<Pair>): string -> seq<Pair> {
    (id: string) => var rows := Rows(pairs, PairKey(), id); if |rows| == 1 then rows else []
  }

  function AmbiguousRow(pairs: seq<Pair>): string -> seq<Reason> {
    (id: string) => if |Rows(pairs, PairKey(), id)| == 1 then [] else [ObservationAmbiguous(id)]
  }

  /** The pairs whose observation identity occurs once. */
  function FreshPairs(pairs: seq<Pair>): seq<Pair> {
    FlatMap(Dedup(Keys(pairs, PairKey())), SingleRow(pairs))
  }

  function AmbiguousReasons(pairs: seq<Pair>): seq<Reason> {
    FlatMap(Dedup(Keys(pairs, PairKey())), AmbiguousRow(pairs))
  }

  function FreshOf(): Pair -> seq<FreshObservation> {
    (p: Pair) => [p.view]
  }

  datatype Source = Source(id: string, kind: string)

  function SourceOf(): SourceRef -> seq<Source> {
    (r: SourceRef) => if r.SourceRef? && r.sourceId != "" then [Source(r.sourceId, r.sourceType)] else []
  }

  function PairSources(): Pair -> seq<Source> {
    (p: Pair) => if p.raw.sourceRefs.Refs? then FlatMap(p.raw.sourceRefs.items, SourceOf()) else []
  }

  function SourceKey(): Source -> string {
    (s: Source) => s.id
  }

  predicate Clashes(sources: seq<Source>, id: string) {
    exists i, j :: 0 <= i < |sources| && 0 <= j < |sources|
      && sources[i].id == id && sources[j].id == id && sources[i].kind != sources[j].kind
  }

  function ClashReason(sources: seq<Source>): string -> seq<Reason> {
    (id: string) => if Clashes(sources, id) then [SourceConflict(id)] else []
  }

  function SourceReasons(live: seq<Pair>): seq<Reason> {
    var sources := FlatMap(live, PairSources());
    FlatMap(Dedup(Keys(sources, SourceKey())), ClashReason(sources))
  }

  function EligibleEvidence(live: seq<Pair>): set<string> {
    set p, id | p in live && id in p.view.evidenceIds :: id
  }

  // ----- citations -----

  function BindingKey(): Binding -> string {
    (b: Binding) => b.bindingId
  }

  function Named(): Binding -> bool {
    (b: Binding) => b.bindingId != ""
  }

  function MissingIdentity(): Binding -> seq<Reason> {
    (b: Binding) => if b.bindingId == "" then [BindingIdentityMissing] else []
  }

  predicate IsHash(s: string) {
    |s| == 64 && forall i :: 0 <= i < 64 ==> '0' <= s[i] <= '9' || 'a' <= s[i] <= 'f'
  }

  function ToCitation(b: Binding, attempt: string): Citation {
    Citation(b.bindingId, attempt, b.evidenceId, b.documentId, b.chunkId, b.contentHash, b.locatorHash)
  }

  predicate CitationFits(b: Binding, attempt: string) {
    && TextWithin(b.bindingId, 128) && TextWithin(attempt, 128) && TextWithin(b.evidenceId, 256)
    && TextWithin(b.documentId, 256) && TextWithin(b.chunkId, 256)
    && IsHash(b.contentHash) && IsHash(b.locatorHash)
  }

  function AdmittedRow(named: seq<Binding>, attempt: string): string -> seq<Citation> {
    (id: string) => var rows := Rows(named, BindingKey(), id);
          if |rows| == 1 && rows[0].providerAttemptId == Some(attempt) && CitationFits(rows[0], attempt)
          then [ToCitation(rows[0], attempt)] else []
  }

  function BindingReason(named: seq<Binding>, attempt: string): string -> seq<Reason> {
    (id: string) => var rows := Rows(named, BindingKey(), id);
          if |rows| != 1 then [BindingNotUnique(id)]
          else if rows[0].providerAttemptId != Some(attempt) then [BindingNotCurrent(id)]
          else if !CitationFits(rows[0], attempt) then [BindingInvalid(id)]
          else []
  }

  function Cites(eligible: set<string>): Citation -> bool {
    (c: Citation) => c.evidenceId in eligible
  }

  function NotEligible(eligible: set<string>): Citation -> seq<Reason> {
    (c: Citation) => if c.evidenceId in eligible then [] else [CitationNotEligible(c.bindingId)]
  }

  function EvidenceKey(): Citation -> string {
    (c: Citation) => c.evidenceId
  }

  function Sole(cited: seq<Citation>): Citation -> bool {
    (c: Citation) => |Rows(cited, EvidenceKey(), c.evidenceId)| <= 1
  }

  function SharedBinding(cited: seq<Citation>): Citation -> seq<string> {
    (c: Citation) => if Sole(cited)(c) then [] else [c.bindingId]
  }

  function AmbiguityReason(): string -> seq<Reason> {
    (id: string) => [CitationAmbiguous(id)]
  }

  predicate TextLess(a: string, b: string) {
    if b == [] then false
    else if a == [] then true
    else a[0] < b[0] || (a[0] == b[0] && TextLess(a[1..], b[1..]))
  }

  function InsertSorted(s: seq<string>, x: string): (r: seq<string>)
    ensures multiset(r) == multiset(s) + multiset{x}
  {
    if s == [] then [x]
    else if TextLess(x, s[0]) then [x] + s
    else
      assert s == [s[0]] + s[1..];
      [s[0]] + InsertSorted(s[1..], x)
  }

  /** Python's `sorted` on texts. */
  function SortTexts(s: seq<string>): (r: seq<string>)
    ensures multiset(r) == multiset(s)
  {
    if s == [] then []
    else
      assert s == s[..|s| - 1] + [s[|s| - 1]];
      InsertSorted(SortTexts(s[..|s| - 1]), s[|s| - 1])
  }

  function NamedBindings(bindings: seq<Binding>): seq<Binding> {
    Filter(bindings, Named())
  }

  function Admitted(bindings: seq<Binding>, attempt: string): seq<Citation> {
    var named := NamedBindings(bindings);
    FlatMap(Dedup(Keys(named, BindingKey())), AdmittedRow(named, attempt))
  }

  function Cited(bindings: seq<Binding>, attempt: string, eligible: set<string>): seq<Citation> {
    Filter(Admitted(bindings, attempt), Cites(eligible))
  }

  /** The citations `_eligible_citations` returns. */
  function Eligible(bindings: seq<Binding>, attempt: string, eligible: set<string>): seq<Citation> {
    var cited := Cited(bindings, attempt, eligible);
    Filter(cited, Sole(cited))
  }

  /** The reasons `_eligible_citations` returns. */
  function CitationReasons(bindings: seq<Binding>, attempt: string, eligible: set<string>): seq<Reason> {
    var named := NamedBindings(bindings);
    var cited := Cited(bindings, attempt, eligible);
    FlatMap(bindings, MissingIdentity())
    + FlatMap(Dedup(Keys(named, BindingKey())), BindingReason(named, attempt))
    + FlatMap(Admitted(bindings, attempt), NotEligible(eligible))
    + FlatMap(SortTexts(FlatMap(cited, SharedBinding(cited))), AmbiguityReason())
  }

  // ----- conflicts and groups -----

  function ConflictOf(): Pair -> seq<string> {
    (p: Pair) => if !p.raw.data.Data? then []
         else if p.raw.data.refusalReason != "" then [p.raw.data.refusalReason]
         else if p.raw.data.conflict then ["knowledge_conflict"]
         else []
  }

  /** `_conflict_reasons`. */
  function Conflicts(live: seq<Pair>, evidenceConflict: bool): seq<string> {
    var found := FlatMap(live, ConflictOf());
    Dedup(if evidenceConflict && found == [] then ["evidence_conflict"] else found)
  }

  predicate Explained(conflicts: seq<string>, explainable: bool) {
    explainable && forall c :: c in conflicts ==> c == UNRESOLVED_VERSIONS
  }

  function ConflictReasonOf(): string -> seq<Reason> {
    (c: string) => [ConflictReason(c)]
  }

  /** `_evidence_group`. */
  function EvidenceGroup(o: FreshObservation): Option<Group> {
    var g := ToolGroup(o.toolName);
    if g == Some(Knowledge) && o.evidenceIds == [] then None else g
  }

  function Observed(live: seq<Pair>): set<Group> {
    set p | p in live && EvidenceGroup(p.view).Some? :: EvidenceGroup(p.view).value
  }

  function Satisfied(live: seq<Pair>, citations: seq<Citation>): set<Group> {
    if citations == [] then Observed(live) - {Knowledge} else Observed(live)
  }

  predicate MarksStale(o: Observation, scope: Scope, now: Time) {
    Relevant(o, scope) && (o.freshnessStatus != "fresh" || !FreshAt(o, now))
  }

  predicate GroupStale(observations: seq<Observation>, g: Group, scope: Scope, now: Time) {
    exists o :: o in observations && ToolGroup(o.toolName) == Some(g) && MarksStale(o, scope, now)
  }

  /** `_stale_required_groups`. */
  function StaleRequired(observations: seq<Observation>, required: seq<Group>, scope: Scope, now: Time): set<Group> {
    set g | g in required && GroupStale(observations, g, scope, now)
  }

  function InGroups(groups: set<Group>): Group -> bool {
    (g: Group) => g in groups
  }

  function MissingReason(): Group -> seq<Reason> {
    (g: Group) => [MissingGroup(g)]
  }

  function StaleReason(): Group -> seq<Reason> {
    (g: Group) => [StaleGroup(g)]
  }

  function GroupReasons(missing: set<Group>, stale: set<Group>): seq<Reason> {
    FlatMap(Filter(SORTED_GROUPS, InGroups(missing)), MissingReason())
    + FlatMap(Filter(SORTED_GROUPS, InGroups(stale)), StaleReason())
  }

  // ----- the decision -----

  datatype Request = Request(
    required: seq<Group>, observations: seq<Observation>, bindings: seq<Binding>,
    scope: Scope, attempt: string,
    evidenceConflict: bool, canReplan: bool, explainable: bool)

  function Pairs(r: Request, now: Time): seq<Pair> {
    FlatMap(r.observations, PairOf(r.scope, now))
  }

  function Live(r: Request, now: Time): seq<Pair> {
    FreshPairs(Pairs(r, now))
  }

  function RequestCitations(r: Request, now: Time): seq<Citation> {
    Eligible(r.bindings, r.attempt, EligibleEvidence(Live(r, now)))
  }

  function SatisfiedGroups(r: Request, now: Time): set<Group> {
    Satisfied(Live(r, now), RequestCitations(r, now))
  }

  function StaleGroups(r: Request, now: Time): set<Group> {
    StaleRequired(r.observations, r.required, r.scope, now) - SatisfiedGroups(r, now)
  }

  function MissingGroups(r: Request, now: Time): set<Group> {
    (set g | g in r.required) - SatisfiedGroups(r, now) - StaleGroups(r, now)
  }

  function ObservationReasons(r: Request, now: Time): seq<Reason> {
    FlatMap(r.observations, ReasonOf(r.scope, now))
    + AmbiguousReasons(Pairs(r, now))
    + SourceReasons(Live(r, now))
  }

  function ConflictReasons(r: Request, now: Time): seq<Reason> {
    var conflicts := Conflicts(Live(r, now), r.evidenceConflict);
    if Explained(conflicts, r.explainable) then [] else FlatMap(conflicts, ConflictReasonOf())
  }

  function KnowledgeReasons(r: Request, now: Time): seq<Reason> {
    if Knowledge in Observed(Live(r, now)) && RequestCitations(r, now) == [] then [KnowledgeCitationMissing] else []
  }

  function AllReasons(r: Request, now: Time): seq<Reason> {
    ObservationReasons(r, now)
    + CitationReasons(r.bindings, r.attempt, EligibleEvidence(Live(r, now)))
    + ConflictReasons(r, now)
    + KnowledgeReasons(r, now)
    + GroupReasons(MissingGroups(r, now), StaleGroups(r, now))
  }

  predicate Contains(s: string, part: string) {
    part <= s || (s != [] && Contains(s[1..], part))
  }

  predicate Mentions(reasons: seq<Reason>, part: string) {
    exists i :: 0 <= i < |reasons| && Contains(Render(reasons[i]), part)
  }

  function ErrorOf(reasons: seq<Reason>): ErrorCode {
    if exists i :: 0 <= i < |reasons| && "conflict:" <= Render(reasons[i]) then EvidenceConflict
    else if Mentions(reasons, "observation") || Mentions(reasons, "source") then FreshnessInsufficient
    else if Mentions(reasons, "citation") || Mentions(reasons, "locator") then CitationIncomplete
    else GroupIncomplete
  }

  /** The record `decide_evidence` builds at time `now`. */
  function Decide(r: Request, now: Time): Decision {
    var reasons := Dedup(AllReasons(r, now));
    var missing, stale := MissingGroups(r, now), StaleGroups(r, now);
    var sufficient := reasons == [] && missing == {} && stale == {};
    Decision(
      r.scope, r.attempt, r.required, sufficient,
      if sufficient then Accept else if r.canReplan then Replan else Terminal,
      RequestCitations(r, now), FlatMap(Live(r, now), FreshOf()),
      Filter(r.required, InGroups(SatisfiedGroups(r, now))),
      Filter(r.required, InGroups(missing)),
      Filter(r.required, InGroups(stale)),
      Conflicts(Live(r, now), r.evidenceConflict), reasons,
      if sufficient then None else Some(ErrorOf(reasons)))
  }

  /** What `decide_evidence` returns or raises at time `now`. */
  ghost function Gate(r: Request, now: Time): Outcome {
    Construct(Decide(r, now))
  }

  ghost predicate Accepts(r: Request, now: Time) {
    Gate(r, now).Returned? && Gate(r, now).decision.sufficient
  }
}
