/** Acceptance characterised, the requirements of a request, and the terminal gate
    (`assess_terminal_evidence`). */
module EvidenceTerminal {
  import opened Options
  import opened Sequences
  import opened EvidenceModel
  import opened EvidenceGate
  import opened EvidenceContract
  import opened EvidenceRuns
  import opened EvidenceTruth
  import opened EvidenceCitations

  // ----- acceptance -----

  lemma EvidenceIsSeen(r: Request, now: Time)
    requires AllUsable(r, now) && AmbiguousReasons(Pairs(r, now)) == []
    ensures forall id :: id in EligibleEvidence(Live(r, now)) <==> EvidenceSeen(r, id)
  {
    hide Live, Project, Relevant, Usable, EvidenceIds, AmbiguousReasons, FlatMap;
    LiveExactly(r, now);
    forall id ensures id in EligibleEvidence(Live(r, now)) <==> EvidenceSeen(r, id) {
      if id in EligibleEvidence(Live(r, now)) {
        var p :| p in Live(r, now) && id in p.view.evidenceIds;
        UsableIsProjected(p.raw, r.scope, now);
      }
      if EvidenceSeen(r, id) {
        var o :| o in r.observations && Relevant(o, r.scope) && id in EvidenceIds(o);
        UsableIsProjected(o, r.scope, now);
        assert Pair(o, Project(o, r.scope, now).view) in Live(r, now);
      }
    }
  }

  lemma ObservedIsCovered(r: Request, now: Time)
    requires AllUsable(r, now) && AmbiguousReasons(Pairs(r, now)) == []
    ensures forall g :: g in Observed(Live(r, now)) <==> Covered(r, g)
  {
    hide Live, Project, Relevant, Usable, EvidenceIds, AmbiguousReasons, FlatMap, ToolGroup;
    LiveExactly(r, now);
    forall g ensures g in Observed(Live(r, now)) <==> Covered(r, g) {
      if g in Observed(Live(r, now)) {
        var p :| p in Live(r, now) && EvidenceGroup(p.view) == Some(g);
        UsableIsProjected(p.raw, r.scope, now);
      }
      if Covered(r, g) {
        var o :| o in r.observations && Relevant(o, r.scope) && Covers(o, g);
        UsableIsProjected(o, r.scope, now);
        assert EvidenceGroup(Pair(o, Project(o, r.scope, now).view).view) == Some(g);
      }
    }
  }

  lemma CitationsIff(r: Request, now: Time)
    requires AllUsable(r, now) && AmbiguousReasons(Pairs(r, now)) == []
    ensures CitationReasons(r.bindings, r.attempt, EligibleEvidence(Live(r, now))) == [] <==> CitationsSound(r)
    ensures CitationsSound(r) ==> (RequestCitations(r, now) == [] <==> r.bindings == [])
  {
    hide Live, CitationReasons, Eligible, EligibleEvidence, EvidenceSeen, CitationFits, AmbiguousReasons, Usable;
    EvidenceIsSeen(r, now);
    CitationReasonsIff(r.bindings, r.attempt, EligibleEvidence(Live(r, now)));
  }

  lemma GroupsIff(r: Request, now: Time)
    requires AllUsable(r, now) && AmbiguousReasons(Pairs(r, now)) == []
    requires KnowledgeReasons(r, now) == []
    ensures MissingGroups(r, now) == {} && StaleGroups(r, now) == {} <==> forall g :: g in r.required ==> Covered(r, g)
  {
    hide Live, RequestCitations, Usable, AmbiguousReasons, Covered, Relevant;
    ObservedIsCovered(r, now);
    NothingStale(r, now);
    assert SatisfiedGroups(r, now) == Observed(Live(r, now));
    assert StaleGroups(r, now) == {};
    if MissingGroups(r, now) == {} {
      forall g | g in r.required ensures Covered(r, g) {
        assert g !in MissingGroups(r, now);
      }
    }
  }

  lemma NothingStale(r: Request, now: Time)
    requires AllUsable(r, now)
    ensures StaleRequired(r.observations, r.required, r.scope, now) == {}
  {
    hide InScope, HasRepeats, SourceIds, EvidenceIds, ProjectionFits;
  }

  /** `decide_evidence` accepts exactly the acceptable requests whose identities are within bounds. */
  lemma AcceptsIff(r: Request, now: Time)
    requires Unique(r.required)
    ensures Accepts(r, now) <==> IdentitiesFit(r.scope, r.attempt) && Acceptable(r, now)
  {
    hide Decide, Contract, Acceptable, IdentitiesFit;
    DecisionMeetsContract(r, now);
    SufficientIffAcceptable(r, now);
  }

  /** The bounds are needed: without any observation or requirement the record is sufficient,
      and an empty identity makes it raise. */
  lemma EmptyIdentityRaises(now: Time)
    ensures var r := Request([], [], [], Scope("", "", ""), "", false, false, false);
      Acceptable(r, now) && Decide(r, now).sufficient && Gate(r, now) == Raised
  {
    hide Decide, Contract;
    var r := Request([], [], [], Scope("", "", ""), "", false, false, false);
    assert !Covered(r, Knowledge);
    AcceptableParts(r, now);
    SufficientIffAcceptable(r, now);
    DecisionMeetsContract(r, now);
  }

  lemma AcceptableParts(r: Request, now: Time)
    requires AllUsable(r, now) && UniquelyIdentified(r) && NoSourceClash(r) && ConflictsExplained(r)
      && CitationsSound(r)
    requires !Covered(r, Knowledge) && r.required == []
    ensures Acceptable(r, now)
  {
    hide AllUsable, UniquelyIdentified, NoSourceClash, ConflictsExplained, CitationsSound, Covered;
  }

  /** The record built for a request is sufficient exactly when the request is acceptable. */
  lemma SufficientIffAcceptable(r: Request, now: Time)
    ensures Decide(r, now).sufficient <==> Acceptable(r, now)
  {
    hide Decide, FlatMap, Live, CitationReasons, ConflictReasons, GroupReasons, AmbiguousReasons, SourceReasons;
    hide RequestCitations, MissingGroups, StaleGroups, EligibleEvidence, Observed, Covered;
    hide UniquelyIdentified, NoSourceClash, ConflictsExplained, CitationsSound;
    SufficientIffNoReason(r, now);
    NoObservationReasons(r.observations, r.scope, now);
    if AllUsable(r, now) {
      IdentitiesIff(r, now);
      if AmbiguousReasons(Pairs(r, now)) == [] {
        SourcesIff(r, now);
        ConflictsIff(r, now);
        CitationsIff(r, now);
        ObservedIsCovered(r, now);
        GroupReasonsEmpty(MissingGroups(r, now), StaleGroups(r, now));
        if KnowledgeReasons(r, now) == [] {
          GroupsIff(r, now);
        }
      }
    }
  }

  // ----- requirements -----

  datatype IssueType =
    | ApiDiagnostics | BillingRefund | CredentialSecurity | IncidentSupport | ProductKnowledge
    | EntitlementChangeIssue | OtherIssue

  datatype RequestedAction = Refund | ApiKeyRevocation | EntitlementChange | NoAction

  predicate NeedsKnowledge(issue: IssueType) {
    issue != OtherIssue
  }

  predicate NeedsTrace(issue: IssueType, specifiedRequest: bool) {
    (issue == ApiDiagnostics || issue == IncidentSupport) && specifiedRequest
  }

  function ActionGroups(action: RequestedAction): seq<Group> {
    match action
    case Refund => [BillingRecord]
    case ApiKeyRevocation => [ApiKeyMetadata]
    case EntitlementChange => [Subscription]
    case NoAction => []
  }

  /** The groups both gates ask for. */
  function BaseGroups(issue: IssueType, action: RequestedAction, specifiedRequest: bool): seq<Group> {
    (if NeedsKnowledge(issue) then [Knowledge] else [])
    + (if NeedsTrace(issue, specifiedRequest) then [RequestTrace] else [])
    + ActionGroups(action)
  }

  /** `derive_evidence_requirements`. */
  function DeriveRequirements(issue: IssueType, action: RequestedAction, specifiedRequest: bool,
                              additional: seq<Group>): (r: seq<Group>)
    ensures Unique(r)
    ensures forall g :: g in r <==> g in BaseGroups(issue, action, specifiedRequest) || g in additional
  {
    Dedup(BaseGroups(issue, action, specifiedRequest) + additional)
  }

  // ----- the terminal gate -----

  datatype CandidateAction = Answer | Reject | ManualTakeover | Propose(action: RequestedAction)

  datatype TerminalRequest = TerminalRequest(
    issue: IssueType, action: CandidateAction, claimSources: set<string>, observations: seq<Observation>,
    evidenceConflict: bool, specifiedRequest: bool, canReplan: bool, explainable: bool)

  /** What `missing_groups` names. */
  datatype Lack = LackOf(group: Group) | BusinessObservation | NonConflictingKnowledge

  /** The source lists the stale tools in the order a set is iterated in, so they are a set here. */
  datatype Assessment =
    | Raises
    | Assessment(sufficient: bool, required: seq<Group>, satisfied: seq<Group>, missing: seq<Lack>, stale: set<string>,
                 result: Verdict, error: Option<ErrorCode>)

  function ProposedAction(action: CandidateAction): RequestedAction {
    if action.Propose? then action.action else NoAction
  }

  /** `data.get("evidence")` is truthy. */
  predicate HasEvidence(o: Observation) {
    && o.data.Data?
    && match o.data.evidence
       case NoEvidence => false
       case EvidenceNotAList(truthy) => truthy
       case Evidence(items) => items != []
  }

  predicate Supports(o: Observation, g: Group, explainable: bool) {
    && o.status == "ok" && ToolGroup(o.toolName) == Some(g)
    && (g == Knowledge ==>
          && HasEvidence(o)
          && (o.data.refusalReason == "" || (explainable && o.data.refusalReason == UNRESOLVED_VERSIONS)))
  }

  /** The gate reads `data` of every successful knowledge search and the items of
      every other successful observation's `source_refs`. */
  predicate Readable(o: Observation) {
    o.status == "ok" ==>
      if o.toolName == "search_knowledge" then !o.data.DataNotAnObject?
      else !o.sourceRefs.RefsNotAList?
           && (o.sourceRefs.Refs? ==> forall i :: 0 <= i < |o.sourceRefs.items| ==> o.sourceRefs.items[i] != NotARef)
  }

  predicate Names(o: Observation, id: string) {
    && o.status == "ok" && o.toolName != "search_knowledge" && o.sourceRefs.Refs?
    && exists i :: 0 <= i < |o.sourceRefs.items| && o.sourceRefs.items[i].SourceRef?
         && id != "" && o.sourceRefs.items[i].sourceId == id
  }

  /** `source_to_observation.get(id)`: the last successful observation naming it. */
  function SourceOwner(observations: seq<Observation>, id: string): Option<Observation> {
    if observations == [] then None
    else if Names(observations[|observations| - 1], id) then Some(observations[|observations| - 1])
    else SourceOwner(observations[..|observations| - 1], id)
  }

  /** `observation_is_fresh`. */
  predicate StillFresh(o: Observation, now: Time) {
    o.freshnessStatus == "fresh" && o.freshUntil.Some? && now <= o.freshUntil.value
  }

  predicate Supported(t: TerminalRequest, g: Group) {
    exists i :: 0 <= i < |t.observations| && Supports(t.observations[i], g, t.explainable)
  }

  function IsSupported(t: TerminalRequest): Group -> bool {
    (g: Group) => Supported(t, g)
  }

  function LackIn(t: TerminalRequest): Group -> seq<Lack> {
    (g: Group) => if Supported(t, g) then [] else [LackOf(g)]
  }

  /** A claimed source no successful observation names. */
  predicate Unclaimed(observations: seq<Observation>, claims: set<string>) {
    exists id :: id in claims && SourceOwner(observations, id) == None
  }

  predicate Outdated(observations: seq<Observation>, id: string, now: Time) {
    var owner := SourceOwner(observations, id);
    owner.Some? && !StillFresh(owner.value, now)
  }

  function StaleName(owner: Option<Observation>): string {
    if owner.Some? && owner.value.toolName != "" then owner.value.toolName else "business_observation"
  }

  /** The tools behind claimed sources whose last observation is not fresh. */
  function StaleTools(observations: seq<Observation>, claims: set<string>, now: Time): set<string> {
    set id | id in claims && Outdated(observations, id, now) :: StaleName(SourceOwner(observations, id))
  }

  predicate Exempt(action: CandidateAction) {
    action == Reject || action == ManualTakeover
  }

  predicate AllReadable(observations: seq<Observation>) {
    forall i :: 0 <= i < |observations| ==> Readable(observations[i])
  }

  const UNQUESTIONED := Assessment(true, [], [], [], {}, Accept, None)

  function MissingIn(t: TerminalRequest, required: seq<Group>): seq<Lack> {
    FlatMap(required, LackIn(t))
    + (if Unclaimed(t.observations, t.claimSources) then [BusinessObservation] else [])
    + (if t.evidenceConflict && !t.explainable then [NonConflictingKnowledge] else [])
  }

  /** `assess_terminal_evidence`. */
  function Assess(t: TerminalRequest, now: Time): Assessment {
    if Exempt(t.action) then UNQUESTIONED
    else if !AllReadable(t.observations) then Raises
    else
      var required := Dedup(BaseGroups(t.issue, ProposedAction(t.action), t.specifiedRequest));
      var missing := MissingIn(t, required);
      var stale := StaleTools(t.observations, t.claimSources, now);
      var sufficient := missing == [] && stale == {};
      Assessment(
        sufficient, required, Filter(required, IsSupported(t)), missing, stale,
        if sufficient then Accept else if t.canReplan then Replan else Terminal,
        if sufficient then None else Some(if stale != {} then FreshnessInsufficient else GroupIncomplete))
  }
}
