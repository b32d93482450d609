/** What the terminal gate answers, read off its raw inputs, and its refinement by
    `decide_evidence`. */
module EvidenceAssessment {
  import opened Options
  import opened Sequences
  import opened EvidenceModel
  import opened EvidenceGate
  import opened EvidenceContract
  import opened EvidenceRuns
  import opened EvidenceTruth
  import opened EvidenceTerminal

  // ----- requirements -----

  /** The groups a request demands. */
  lemma RequirementsIff(issue: IssueType, action: RequestedAction, specifiedRequest: bool, additional: seq<Group>)
    ensures var r := DeriveRequirements(issue, action, specifiedRequest, additional);
      && (Knowledge in r <==> issue != OtherIssue || Knowledge in additional)
      && (RequestTrace in r <==>
            (specifiedRequest && (issue == ApiDiagnostics || issue == IncidentSupport)) || RequestTrace in additional)
      && (BillingRecord in r <==> action == Refund || BillingRecord in additional)
      && (ApiKeyMetadata in r <==> action == ApiKeyRevocation || ApiKeyMetadata in additional)
      && (Subscription in r <==> action == EntitlementChange || Subscription in additional)
      && (Account in r <==> Account in additional) && (ApiUsage in r <==> ApiUsage in additional)
  {
    hide Dedup, BaseGroups;
    BaseIff(issue, action, specifiedRequest);
  }

  lemma BaseIff(issue: IssueType, action: RequestedAction, specifiedRequest: bool)
    ensures forall g :: g in BaseGroups(issue, action, specifiedRequest) <==>
      match g
      case Knowledge => issue != OtherIssue
      case RequestTrace => specifiedRequest && (issue == ApiDiagnostics || issue == IncidentSupport)
      case BillingRecord => action == Refund
      case ApiKeyMetadata => action == ApiKeyRevocation
      case Subscription => action == EntitlementChange
      case Account => false
      case ApiUsage => false
  {
  }

  /** The groups the terminal gate demands of a candidate. */
  predicate Demanded(t: TerminalRequest, g: Group) {
    match g
    case Knowledge => t.issue != OtherIssue
    case RequestTrace => t.specifiedRequest && (t.issue == ApiDiagnostics || t.issue == IncidentSupport)
    case BillingRecord => t.action == Propose(Refund)
    case ApiKeyMetadata => t.action == Propose(ApiKeyRevocation)
    case Subscription => t.action == Propose(EntitlementChange)
    case Account => false
    case ApiUsage => false
  }

  lemma DemandedIff(t: TerminalRequest, g: Group)
    ensures g in Dedup(BaseGroups(t.issue, ProposedAction(t.action), t.specifiedRequest)) <==> Demanded(t, g)
  {
    hide Dedup;
  }

  // ----- what an observation supports -----

  /** A successful read of the group's tool; for knowledge with evidence and without a
      refusal, save the version conflict a comparison may explain. */
  predicate Backs(o: Observation, g: Group, explainable: bool) {
    && o.status == "ok"
    && match g
       case Knowledge =>
         && o.toolName == "search_knowledge" && o.data.Data?
         && (o.data.evidence == EvidenceNotAList(true) || (o.data.evidence.Evidence? && |o.data.evidence.items| > 0))
         && (o.data.refusalReason != "" ==>
               explainable && o.data.refusalReason == "unresolved_published_version_conflict")
       case RequestTrace => o.toolName == "query_request_trace"
       case BillingRecord => o.toolName == "query_billing_record"
       case ApiKeyMetadata => o.toolName == "query_api_key_metadata"
       case Subscription => o.toolName == "query_subscription"
       case Account => o.toolName == "query_account"
       case ApiUsage => o.toolName == "query_api_usage"
  }

  lemma SupportsIff(o: Observation, g: Group, explainable: bool)
    ensures Supports(o, g, explainable) <==> Backs(o, g, explainable)
  {
  }

  /** Observation i reads the group. */
  ghost predicate BackedAt(t: TerminalRequest, g: Group, i: nat) {
    i < |t.observations| && Backs(t.observations[i], g, t.explainable)
  }

  lemma SupportedIff(t: TerminalRequest, g: Group)
    ensures Supported(t, g) <==> exists i: nat :: BackedAt(t, g, i)
  {
    hide Supports, Backs;
    forall i | 0 <= i < |t.observations|
      ensures Supports(t.observations[i], g, t.explainable) <==> Backs(t.observations[i], g, t.explainable)
    {
      SupportsIff(t.observations[i], g, t.explainable);
    }
    if i :| 0 <= i < |t.observations| && Supports(t.observations[i], g, t.explainable) {
      assert BackedAt(t, g, i);
    }
    if i: nat :| BackedAt(t, g, i) {
      assert Supports(t.observations[i], g, t.explainable);
    }
  }

  // ----- claimed sources -----

  /** A successful observation other than a knowledge search has a reference to the source. */
  lemma NamesIff(o: Observation, id: string)
    ensures Names(o, id) <==>
      && id != "" && o.status == "ok" && o.toolName != "search_knowledge" && o.sourceRefs.Refs?
      && exists kind :: SourceRef(id, kind) in o.sourceRefs.items
  {
    if Names(o, id) {
      var items := o.sourceRefs.items;
      var i :| 0 <= i < |items| && items[i].SourceRef? && items[i].sourceId == id;
      assert SourceRef(id, items[i].sourceType) in items;
    }
    if o.sourceRefs.Refs? {
      if kind :| SourceRef(id, kind) in o.sourceRefs.items {
        var i :| 0 <= i < |o.sourceRefs.items| && o.sourceRefs.items[i] == SourceRef(id, kind);
      }
    }
  }

  /** Observation i is the last to name the source. */
  ghost predicate LastNaming(observations: seq<Observation>, id: string, i: nat) {
    && i < |observations| && Names(observations[i], id)
    && forall j :: i < j < |observations| ==> !Names(observations[j], id)
  }

  /** The owner of a source is the last observation that names it. */
  lemma {:induction false} OwnerIsLast(observations: seq<Observation>, id: string)
    ensures SourceOwner(observations, id) == None <==>
      forall i :: 0 <= i < |observations| ==> !Names(observations[i], id)
    ensures SourceOwner(observations, id).Some? ==>
      exists i: nat :: LastNaming(observations, id, i) && SourceOwner(observations, id) == Some(observations[i])
    decreases |observations|
  {
    hide Names;
    if observations != [] {
      var n := |observations| - 1;
      var rest := observations[..n];
      OwnerIsLast(rest, id);
      assert forall i :: 0 <= i < n ==> rest[i] == observations[i];
      if Names(observations[n], id) {
        assert LastNaming(observations, id, n);
      } else if SourceOwner(rest, id).Some? {
        var i: nat :| LastNaming(rest, id, i) && SourceOwner(rest, id) == Some(rest[i]);
        assert LastNaming(observations, id, i);
      }
    }
  }

  lemma LastIsOwner(observations: seq<Observation>, id: string, i: nat)
    requires LastNaming(observations, id, i)
    ensures SourceOwner(observations, id) == Some(observations[i])
  {
    hide Names;
    OwnerIsLast(observations, id);
    var k: nat :| LastNaming(observations, id, k) && SourceOwner(observations, id) == Some(observations[k]);
    assert k == i;
  }

  /** Marked fresh, and not past its limit. */
  predicate Current(o: Observation, now: Time) {
    o.freshnessStatus == "fresh" && o.freshUntil.Some? && !(o.freshUntil.value < now)
  }

  ghost predicate NamedSomewhere(t: TerminalRequest, id: string) {
    exists i: nat :: LastNaming(t.observations, id, i)
  }

  ghost predicate NamedAndCurrent(t: TerminalRequest, id: string, now: Time) {
    exists i: nat :: LastNaming(t.observations, id, i) && Current(t.observations[i], now)
  }

  /** Some claimed source's last observation is not current, and this is its tool. */
  ghost predicate StaleBy(t: TerminalRequest, now: Time, tool: string, id: string, i: nat) {
    && id in t.claimSources && LastNaming(t.observations, id, i) && !Current(t.observations[i], now)
    && tool == if t.observations[i].toolName == "" then "business_observation" else t.observations[i].toolName
  }

  lemma UnclaimedIff(t: TerminalRequest)
    ensures Unclaimed(t.observations, t.claimSources) <==> exists id :: id in t.claimSources && !NamedSomewhere(t, id)
  {
    hide Names, LastNaming;
    forall id ensures SourceOwner(t.observations, id) == None <==> !NamedSomewhere(t, id) {
      OwnerIsLast(t.observations, id);
      if i: nat :| LastNaming(t.observations, id, i) {
        LastIsOwner(t.observations, id, i);
      }
    }
  }

  lemma OutdatedIff(t: TerminalRequest, id: string, now: Time)
    ensures Outdated(t.observations, id, now) <==> NamedSomewhere(t, id) && !NamedAndCurrent(t, id, now)
  {
    hide Names;
    OwnerIsLast(t.observations, id);
    if i: nat :| LastNaming(t.observations, id, i) && Current(t.observations[i], now) {
      LastIsOwner(t.observations, id, i);
    }
    if i: nat :| LastNaming(t.observations, id, i) {
      LastIsOwner(t.observations, id, i);
    }
  }

  lemma StaleToolsIff(t: TerminalRequest, now: Time, tool: string)
    ensures tool in StaleTools(t.observations, t.claimSources, now) <==>
      exists id, i: nat :: StaleBy(t, now, tool, id, i)
  {
    hide Names;
    if tool in StaleTools(t.observations, t.claimSources, now) {
      var id :| id in t.claimSources && Outdated(t.observations, id, now)
        && tool == StaleName(SourceOwner(t.observations, id));
      OwnerIsLast(t.observations, id);
      var i: nat :| LastNaming(t.observations, id, i) && SourceOwner(t.observations, id) == Some(t.observations[i]);
      assert StaleBy(t, now, tool, id, i);
    }
    if id, i: nat :| StaleBy(t, now, tool, id, i) {
      LastIsOwner(t.observations, id, i);
      assert Outdated(t.observations, id, now);
    }
  }

  // ----- the answer -----

  /** A field of the wrong shape in a successful observation. */
  ghost predicate UnreadableAt(t: TerminalRequest, i: nat) {
    && i < |t.observations| && t.observations[i].status == "ok"
    && if t.observations[i].toolName == "search_knowledge" then t.observations[i].data == DataNotAnObject
       else t.observations[i].sourceRefs == RefsNotAList
            || (t.observations[i].sourceRefs.Refs? && NotARef in t.observations[i].sourceRefs.items)
  }

  lemma ReadableIff(t: TerminalRequest)
    ensures AllReadable(t.observations) <==> forall i: nat :: !UnreadableAt(t, i)
  {
    forall i: nat | i < |t.observations| ensures Readable(t.observations[i]) <==> !UnreadableAt(t, i) {
    }
  }

  /** The gate is not asked about a rejection or a takeover, and raises on an unreadable field. */
  lemma AssessedIff(t: TerminalRequest, now: Time)
    ensures (t.action == Reject || t.action == ManualTakeover) ==>
      Assess(t, now) == Assessment(true, [], [], [], {}, Accept, None)
    ensures Assess(t, now) == Raises <==>
      t.action != Reject && t.action != ManualTakeover && exists i: nat :: UnreadableAt(t, i)
  {
    hide UnreadableAt, AllReadable, BaseGroups, MissingIn, StaleTools;
    ReadableIff(t);
  }

  ghost predicate Judged(t: TerminalRequest) {
    t.action != Reject && t.action != ManualTakeover && forall i: nat :: !UnreadableAt(t, i)
  }

  /** Nothing demanded is unread, no claimed source is unnamed or out of date, and no
      conflict is flagged that a comparison does not explain. */
  ghost predicate Supportable(t: TerminalRequest, now: Time) {
    && (forall g :: Demanded(t, g) ==> exists i: nat :: BackedAt(t, g, i))
    && (forall id :: id in t.claimSources ==> NamedAndCurrent(t, id, now))
    && (t.evidenceConflict ==> t.explainable)
  }

  lemma JudgedShape(t: TerminalRequest, now: Time)
    requires Judged(t)
    ensures var required, a := Dedup(BaseGroups(t.issue, ProposedAction(t.action), t.specifiedRequest)), Assess(t, now);
      && a.Assessment? && a.required == required && a.satisfied == Filter(required, IsSupported(t))
      && a.missing == MissingIn(t, required) && a.stale == StaleTools(t.observations, t.claimSources, now)
      && a.sufficient == (a.missing == [] && a.stale == {})
      && (a.result == Accept <==> a.sufficient) && (a.result == Replan <==> !a.sufficient && t.canReplan)
      && (a.error == None <==> a.sufficient) && (a.error == Some(FreshnessInsufficient) <==> a.stale != {})
      && (a.error == Some(GroupIncomplete) <==> !a.sufficient && a.stale == {})
  {
    hide UnreadableAt, AllReadable, BaseGroups, MissingIn, StaleTools;
    ReadableIff(t);
  }

  /** The groups and what is missing or stale, each as the inputs say. */
  lemma FindingsIff(t: TerminalRequest, now: Time)
    requires Judged(t)
    ensures var a := Assess(t, now);
      && a.Assessment?
      && (forall g :: g in a.required <==> Demanded(t, g))
      && (forall g :: g in a.satisfied <==> Demanded(t, g) && exists i: nat :: BackedAt(t, g, i))
      && (forall g :: LackOf(g) in a.missing <==> Demanded(t, g) && !exists i: nat :: BackedAt(t, g, i))
      && (BusinessObservation in a.missing <==> exists id :: id in t.claimSources && !NamedSomewhere(t, id))
      && (NonConflictingKnowledge in a.missing <==> t.evidenceConflict && !t.explainable)
      && (forall tool :: tool in a.stale <==> exists id, i: nat :: StaleBy(t, now, tool, id, i))
  {
    hide Judged, Assess, Demanded, BackedAt, NamedSomewhere, StaleBy, BaseGroups, Supported, StaleTools, Unclaimed,
      Dedup, Filter, FlatMap;
    JudgedShape(t, now);
    var required := Dedup(BaseGroups(t.issue, ProposedAction(t.action), t.specifiedRequest));
    FilterMembers(required, IsSupported(t));
    UnclaimedIff(t);
    forall g ensures g in required <==> Demanded(t, g) {
      DemandedIff(t, g);
    }
    forall g ensures Supported(t, g) <==> exists i: nat :: BackedAt(t, g, i) {
      SupportedIff(t, g);
    }
    forall tool ensures tool in StaleTools(t.observations, t.claimSources, now) <==>
      exists id, i: nat :: StaleBy(t, now, tool, id, i)
    {
      StaleToolsIff(t, now, tool);
    }
    LacksIff(t, required);
  }

  lemma LacksIff(t: TerminalRequest, required: seq<Group>)
    ensures var missing := MissingIn(t, required);
      && (forall g :: LackOf(g) in missing <==> g in required && !Supported(t, g))
      && (BusinessObservation in missing <==> Unclaimed(t.observations, t.claimSources))
      && (NonConflictingKnowledge in missing <==> t.evidenceConflict && !t.explainable)
  {
    hide FlatMap, Supported, Unclaimed;
    var groups := FlatMap(required, LackIn(t));
    forall x: Lack ensures x in groups <==> x.LackOf? && x.group in required && !Supported(t, x.group) {
      if x in groups {
        var i := FlatMapSource(required, LackIn(t), x);
      }
      if x.LackOf? && x.group in required && !Supported(t, x.group) {
        var i :| 0 <= i < |required| && required[i] == x.group;
        FlatMapMembers(required, LackIn(t));
        assert x in LackIn(t)(required[i]);
      }
    }
  }

  /** `assess_terminal_evidence` accepts exactly the supportable candidates; it asks for
      another plan exactly when it does not accept and one is possible, and blames
      freshness exactly when a claimed source is out of date. */
  lemma AssessIff(t: TerminalRequest, now: Time)
    requires Judged(t)
    ensures var a := Assess(t, now);
      && a.Assessment?
      && (a.sufficient <==> Supportable(t, now))
      && (a.result == Accept <==> Supportable(t, now))
      && (a.result == Replan <==> !Supportable(t, now) && t.canReplan)
      && (a.result == Terminal <==> !Supportable(t, now) && !t.canReplan)
      && (a.error == None <==> Supportable(t, now))
      && (a.error == Some(FreshnessInsufficient) <==>
            exists id :: id in t.claimSources && NamedSomewhere(t, id) && !NamedAndCurrent(t, id, now))
      && (a.error == Some(GroupIncomplete) <==>
            && !Supportable(t, now)
            && forall id :: id in t.claimSources && NamedSomewhere(t, id) ==> NamedAndCurrent(t, id, now))
  {
    hide Judged, Assess, Demanded, BackedAt, NamedSomewhere, NamedAndCurrent, StaleBy, BaseGroups, Filter, Dedup,
      FlatMap, MissingIn;
    JudgedShape(t, now);
    FindingsIff(t, now);
    var a := Assess(t, now);
    StaleIff(t, now);
    NamedIfCurrent(t, now);
    if a.missing != [] {
      var x := a.missing[0];
      assert x in a.missing;
      match x
      case LackOf(g) =>
      case BusinessObservation =>
      case NonConflictingKnowledge =>
    }
    if a.sufficient {
      forall g | Demanded(t, g) ensures exists i: nat :: BackedAt(t, g, i) {
        assert LackOf(g) !in a.missing;
      }
      assert BusinessObservation !in a.missing && NonConflictingKnowledge !in a.missing;
    }
  }

  lemma StaleIff(t: TerminalRequest, now: Time)
    ensures StaleTools(t.observations, t.claimSources, now) != {} <==>
      exists id :: id in t.claimSources && NamedSomewhere(t, id) && !NamedAndCurrent(t, id, now)
  {
    hide NamedSomewhere, NamedAndCurrent, Outdated;
    forall id ensures Outdated(t.observations, id, now) <==> NamedSomewhere(t, id) && !NamedAndCurrent(t, id, now) {
      OutdatedIff(t, id, now);
    }
    if id :| id in t.claimSources && Outdated(t.observations, id, now) {
      assert StaleName(SourceOwner(t.observations, id)) in StaleTools(t.observations, t.claimSources, now);
    }
  }

  lemma NamedIfCurrent(t: TerminalRequest, now: Time)
    ensures forall id :: NamedAndCurrent(t, id, now) ==> NamedSomewhere(t, id)
  {
    hide LastNaming;
  }

  // ----- the loops -----

  /** The sources one observation names, entered under their identities. */
  method EnterSources(owners: map<string, Observation>, o: Observation) returns (r: map<string, Observation>)
    requires Readable(o)
    ensures forall id :: id in r <==> Names(o, id) || id in owners
    ensures forall id :: id in r ==> r[id] == if Names(o, id) then o else owners[id]
  {
    r := owners;
    if o.status != "ok" || o.toolName == "search_knowledge" || !o.sourceRefs.Refs? {
      return;
    }
    var items := o.sourceRefs.items;
    for k := 0 to |items|
      invariant forall id :: id in r <==> id in owners || exists i :: 0 <= i < k && id != "" && items[i].sourceId == id
      invariant forall id :: id in r ==>
        r[id] == if exists i :: 0 <= i < k && id != "" && items[i].sourceId == id then o else owners[id]
    {
      if items[k].sourceId != "" {
        r := r[items[k].sourceId := o];
      }
    }
  }

  /** `assess_terminal_evidence` with its dictionary of sources and its loop over the claims. */
  method AssessTerminal(t: TerminalRequest, now: Time) returns (a: Assessment)
    ensures a == Assess(t, now)
  {
    if Exempt(t.action) {
      return UNQUESTIONED;
    }
    if !AllReadable(t.observations) {
      return Raises;
    }
    hide BaseGroups, Dedup, Filter, FlatMap, Supported, Names, Readable;
    var required := Dedup(BaseGroups(t.issue, ProposedAction(t.action), t.specifiedRequest));
    var missing := FlatMap(required, LackIn(t));
    var owners: map<string, Observation> := map[];
    for k := 0 to |t.observations|
      invariant forall id :: id in owners <==> SourceOwner(t.observations[..k], id).Some?
      invariant forall id :: id in owners ==> SourceOwner(t.observations[..k], id) == Some(owners[id])
    {
      owners := EnterSources(owners, t.observations[k]);
      assert t.observations[..k + 1][..k] == t.observations[..k];
    }
    assert t.observations[..|t.observations|] == t.observations;
    var unclaimed, stale := LookUp(t, owners, now);
    if unclaimed {
      missing := missing + [BusinessObservation];
    }
    if t.evidenceConflict && !t.explainable {
      missing := missing + [NonConflictingKnowledge];
    }
    assert missing == MissingIn(t, required);
    var sufficient := missing == [] && stale == {};
    a := Assessment(
      sufficient, required, Filter(required, IsSupported(t)), missing, stale,
      if sufficient then Accept else if t.canReplan then Replan else Terminal,
      if sufficient then None else Some(if stale != {} then FreshnessInsufficient else GroupIncomplete));
  }

  /** The loop over the claimed sources, in any order. */
  method LookUp(t: TerminalRequest, owners: map<string, Observation>, now: Time)
    returns (unclaimed: bool, stale: set<string>)
    requires forall id :: id in owners <==> SourceOwner(t.observations, id).Some?
    requires forall id :: id in owners ==> SourceOwner(t.observations, id) == Some(owners[id])
    ensures unclaimed == Unclaimed(t.observations, t.claimSources)
    ensures stale == StaleTools(t.observations, t.claimSources, now)
  {
    hide SourceOwner;
    unclaimed, stale := false, {};
    var rest, done: set<string> := t.claimSources, {};
    while rest != {}
      invariant done !! rest && done + rest == t.claimSources
      invariant unclaimed == Unclaimed(t.observations, done)
      invariant stale == StaleTools(t.observations, done, now)
    {
      var id :| id in rest;
      rest, done := rest - {id}, done + {id};
      if id !in owners {
        unclaimed := true;
      } else if !StillFresh(owners[id], now) {
        stale := stale + {if owners[id].toolName == "" then "business_observation" else owners[id].toolName};
      }
    }
    assert done == t.claimSources;
  }

  // ----- refinement -----

  lemma EvidenceIdsNeedItems(o: Observation)
    requires EvidenceIds(o) != []
    ensures HasEvidence(o) && o.data.Data?
  {
  }

  lemma ReadableGateAccepts(r: Request, t: TerminalRequest, additional: seq<Group>, now: Time)
    requires Decide(r, now).sufficient && Judged(t)
    requires r.required == DeriveRequirements(t.issue, ProposedAction(t.action), t.specifiedRequest, additional)
    requires t.observations == r.observations && t.evidenceConflict == r.evidenceConflict
    requires t.explainable == r.explainable
    requires forall o :: o in r.observations ==> InScope(o, r.scope)
    requires forall id :: id in t.claimSources ==> exists o :: o in r.observations && Names(o, id)
    ensures Assess(t, now).Assessment? && Assess(t, now).sufficient
  {
    hide Decide, Acceptable, Judged, Assess, Demanded, NamedAndCurrent, Covered, Names, InScope;
    SufficientIffAcceptable(r, now);
    AssessIff(t, now);
    AcceptedGives(r, now);
    forall g | Demanded(t, g) ensures exists i: nat :: BackedAt(t, g, i) {
      DemandedIff(t, g);
      assert g in r.required;
      CoveredIsBacked(r, t, g);
    }
    forall id | id in t.claimSources ensures NamedAndCurrent(t, id, now) {
      NamedIsCurrent(r, t, id, now);
    }
  }

  lemma AcceptedGives(r: Request, now: Time)
    requires Acceptable(r, now)
    ensures AllUsable(r, now) && ConflictsExplained(r) && forall g :: g in r.required ==> Covered(r, g)
    ensures r.evidenceConflict ==> r.explainable
  {
    hide AllUsable, Covered;
  }

  lemma CoveredIsBacked(r: Request, t: TerminalRequest, g: Group)
    requires Covered(r, g) && ConflictsExplained(r)
    requires t.observations == r.observations && t.explainable == r.explainable
    ensures exists i: nat :: BackedAt(t, g, i)
  {
    hide EvidenceIds, InScope, ToolGroup, HasEvidence;
    var o :| o in r.observations && Relevant(o, r.scope) && Covers(o, g);
    if g == Knowledge {
      EvidenceIdsNeedItems(o);
      assert Declared(o) != "" ==> r.explainable && Declared(o) == UNRESOLVED_VERSIONS;
    }
    SupportsIff(o, g, t.explainable);
    var i :| 0 <= i < |t.observations| && t.observations[i] == o;
    assert BackedAt(t, g, i);
  }

  lemma NamedIsCurrent(r: Request, t: TerminalRequest, id: string, now: Time)
    requires AllUsable(r, now) && t.observations == r.observations
    requires forall o :: o in r.observations ==> InScope(o, r.scope)
    requires exists o :: o in r.observations && Names(o, id)
    ensures NamedAndCurrent(t, id, now)
  {
    hide InScope, Names, HasRepeats, SourceIds, EvidenceIds, ProjectionFits;
    var o :| o in r.observations && Names(o, id);
    var k :| 0 <= k < |t.observations| && t.observations[k] == o;
    OwnerIsLast(t.observations, id);
    var i: nat :| LastNaming(t.observations, id, i);
    NamesIsOk(t.observations[i], id);
    assert t.observations[i] in r.observations && Relevant(t.observations[i], r.scope);
  }

  /** Gate refinement.  The terminal gate reads fields the first gate ignores and
      raises when they have the wrong shape; otherwise what `decide_evidence`
      accepts, `assess_terminal_evidence` accepts at the same time. */
  lemma TerminalGateRefines(r: Request, t: TerminalRequest, additional: seq<Group>, now: Time)
    requires Decide(r, now).sufficient
    requires r.required == DeriveRequirements(t.issue, ProposedAction(t.action), t.specifiedRequest, additional)
    requires t.observations == r.observations && t.evidenceConflict == r.evidenceConflict
    requires t.explainable == r.explainable
    requires forall o :: o in r.observations ==> InScope(o, r.scope)
    requires forall id :: id in t.claimSources ==> exists o :: o in r.observations && Names(o, id)
    ensures Assess(t, now).Assessment? && Assess(t, now).sufficient <==>
      t.action == Reject || t.action == ManualTakeover || forall i: nat :: !UnreadableAt(t, i)
  {
    hide Decide, Assess, InScope, Names, UnreadableAt;
    AssessedIff(t, now);
    if Judged(t) {
      ReadableGateAccepts(r, t, additional, now);
    }
  }

  lemma NamesIsOk(o: Observation, id: string)
    requires Names(o, id)
    ensures o.status == "ok"
  {
  }

  /** A fresh, in-scope, successful knowledge search whose `data` is null. */
  function NullDataSearch(scope: Scope, now: Time): Observation {
    var hash := Canonical(scope.tenantId, scope.customerId);
    Observation(
      Some(scope.runId), Some(scope.tenantId), Some(scope.customerId), Some(hash),
      Some(TrustedScope(Some(scope.tenantId), Some(scope.customerId), Some(hash))),
      "ok", "fresh", Some(now), Some(now), "", "c", "search_knowledge", NoRefs, DataNotAnObject, None)
  }

  lemma NullDataIsAccepted(scope: Scope, attempt: string, now: Time)
    requires TextWithin(scope.runId, 128) && TextWithin(scope.tenantId, 128) && TextWithin(scope.customerId, 128)
    ensures Decide(Request([], [NullDataSearch(scope, now)], [], scope, attempt, false, false, false), now).sufficient
  {
    hide Decide, FlatMap, InScope, Acceptable;
    var o := NullDataSearch(scope, now);
    var r := Request([], [o], [], scope, attempt, false, false, false);
    assert Usable(o, scope, now);
    assert AllUsable(r, now) && UniquelyIdentified(r) && NoSourceClash(r) && ConflictsExplained(r) && CitationsSound(r);
    assert !Covered(r, Knowledge);
    AcceptableParts(r, now);
    SufficientIffAcceptable(r, now);
  }

  /** The readability condition is needed: `decide_evidence` accepts a knowledge
      search without data where none is required, and the terminal gate raises. */
  lemma UnreadableDataIsAccepted(scope: Scope, attempt: string, now: Time)
    requires IdentitiesFit(scope, attempt)
    ensures var o := NullDataSearch(scope, now);
      && Accepts(Request([], [o], [], scope, attempt, false, false, false), now)
      && Assess(TerminalRequest(OtherIssue, Answer, {}, [o], false, false, false, false), now) == Raises
  {
    hide Decide, Contract;
    NullDataIsAccepted(scope, attempt, now);
    DecisionMeetsContract(Request([], [NullDataSearch(scope, now)], [], scope, attempt, false, false, false), now);
    assert !Readable([NullDataSearch(scope, now)][0]);
  }
}
