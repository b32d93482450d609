/** Why `decide_evidence` refuses: each reason it reports, with the fact about the raw
    inputs that gives it. */
module EvidenceReasons {
  import opened Options
  import opened Sequences
  import opened EvidenceModel
  import opened EvidenceGate
  import opened EvidenceContract
  import opened EvidenceRuns
  import opened EvidenceTruth
  import opened EvidenceTerminal
  import opened EvidenceOutcome
  import opened EvidenceErrors

  // ----- observations -----

  /** Marked fresh, complete, and taken at a time whose window holds now. */
  predicate Timely(o: Observation, now: Time) {
    && o.freshnessStatus == "fresh" && o.toolCallId != "" && o.toolName != ""
    && o.observedAt.Some? && o.freshUntil.Some? && o.observedAt.value <= now <= o.freshUntil.value
  }

  /** The first test a relevant observation fails. */
  ghost predicate Fails(o: Observation, scope: Scope, now: Time, x: Reason) {
    match x
    case ObservationNotFresh =>
      || o.freshnessStatus != "fresh"
      || (&& o.toolCallId != "" && o.toolName != "" && o.observedAt.Some? && o.freshUntil.Some?
          && (now < o.observedAt.value || o.freshUntil.value < now))
    case ObservationIdentityIncomplete =>
      && o.freshnessStatus == "fresh"
      && (o.toolCallId == "" || o.toolName == "" || o.observedAt.None? || o.freshUntil.None?)
    case ObservationSourceDuplicate => Timely(o, now) && !Unique(SourceIds(o))
    case ObservationEvidenceDuplicate => Timely(o, now) && Unique(SourceIds(o)) && !Unique(EvidenceIds(o))
    case ObservationProjectionInvalid =>
      && Timely(o, now) && Unique(SourceIds(o)) && Unique(EvidenceIds(o))
      && !(&& |o.observationId| <= 128 && |o.toolCallId| <= 128 && |o.toolName| <= 128
           && 1 <= |scope.runId| <= 128 && 1 <= |scope.tenantId| <= 128 && 1 <= |scope.customerId| <= 128)
    case _ => false
  }

  lemma RejectedIff(o: Observation, scope: Scope, now: Time, x: Reason)
    ensures x in ReasonOf(scope, now)(o) <==> Relevant(o, scope) && Fails(o, scope, now, x)
  {
    hide InScope, SourceIds, EvidenceIds;
  }

  ghost predicate FailsAt(r: Request, now: Time, x: Reason, i: nat) {
    i < |r.observations| && Relevant(r.observations[i], r.scope) && Fails(r.observations[i], r.scope, now, x)
  }

  lemma FailuresIff(r: Request, now: Time, x: Reason)
    ensures x in FlatMap(r.observations, ReasonOf(r.scope, now)) <==> exists i: nat :: FailsAt(r, now, x, i)
  {
    hide FlatMap, Relevant, Fails, Project;
    FlatMapMembers(r.observations, ReasonOf(r.scope, now));
    if x in FlatMap(r.observations, ReasonOf(r.scope, now)) {
      var i := FlatMapSource(r.observations, ReasonOf(r.scope, now), x);
      RejectedIff(r.observations[i], r.scope, now, x);
      assert FailsAt(r, now, x, i);
    }
    if i: nat :| FailsAt(r, now, x, i) {
      RejectedIff(r.observations[i], r.scope, now, x);
    }
  }

  /** Two usable observations claim one identity. */
  ghost predicate HitTwice(r: Request, now: Time, id: string, i: nat, j: nat) {
    && i < j < |r.observations|
    && Hit(r.observations[i], r.scope, now, id) && Hit(r.observations[j], r.scope, now, id)
  }

  lemma AmbiguityIff(r: Request, now: Time, id: string)
    ensures ObservationAmbiguous(id) in AmbiguousReasons(Pairs(r, now)) <==>
      exists i: nat, j: nat :: HitTwice(r, now, id, i, j)
  {
    hide FlatMap, Rows, Dedup, Keys, Hit, Project, Identity;
    var pairs := Pairs(r, now);
    var ids := Dedup(Keys(pairs, PairKey()));
    KeyHasRows(pairs, PairKey(), id);
    if ObservationAmbiguous(id) in AmbiguousReasons(pairs) {
      var m := FlatMapSource(ids, AmbiguousRow(pairs), ObservationAmbiguous(id));
      assert ids[m] in ids;
      NoHits(r.observations, r.scope, now, id);
      var i: nat :| i < |r.observations| && Hit(r.observations[i], r.scope, now, id);
      HitsOne(r.observations, r.scope, now, id, i);
      var j: nat :| j < |r.observations| && j != i && Hit(r.observations[j], r.scope, now, id);
      assert HitTwice(r, now, id, if i < j then i else j, if i < j then j else i);
    }
    if i: nat, j: nat :| HitTwice(r, now, id, i, j) {
      HitsOne(r.observations, r.scope, now, id, i);
      assert id in ids;
      var m :| 0 <= m < |ids| && ids[m] == id;
      FlatMapMembers(ids, AmbiguousRow(pairs));
      assert ObservationAmbiguous(id) in AmbiguousRow(pairs)(ids[m]);
    }
  }

  lemma OnlyAmbiguities(pairs: seq<Pair>, x: Reason)
    ensures x in AmbiguousReasons(pairs) ==> x.ObservationAmbiguous?
  {
    hide FlatMap, Rows, Dedup, Keys;
    if x in AmbiguousReasons(pairs) {
      var m := FlatMapSource(Dedup(Keys(pairs, PairKey())), AmbiguousRow(pairs), x);
    }
  }

  /** Two used observations give one source two types. */
  ghost predicate TypedTwice(r: Request, now: Time, id: string, i: nat, j: nat, k: string, l: string) {
    && LiveAt(r, now, i) && LiveAt(r, now, j) && k != l
    && HasSource(r.observations[i], id, k) && HasSource(r.observations[j], id, l)
  }

  lemma ClashIff(r: Request, now: Time, id: string)
    ensures SourceConflict(id) in SourceReasons(Live(r, now)) <==>
      exists i: nat, j: nat, k, l :: TypedTwice(r, now, id, i, j, k, l)
  {
    hide FlatMap, Dedup, Keys, Live, LiveAt, HasSource, PairSources;
    var sources := FlatMap(Live(r, now), PairSources());
    var ids := Dedup(Keys(sources, SourceKey()));
    if SourceConflict(id) in SourceReasons(Live(r, now)) {
      var m := FlatMapSource(ids, ClashReason(sources), SourceConflict(id));
      var a, b :| 0 <= a < |sources| && 0 <= b < |sources| && sources[a].id == id && sources[b].id == id
        && sources[a].kind != sources[b].kind;
      var i := TypedAt(r, now, sources[a]);
      var j := TypedAt(r, now, sources[b]);
      assert TypedTwice(r, now, id, i, j, sources[a].kind, sources[b].kind);
    }
    LiveInRange(r, now);
    if i: nat, j: nat, k, l :| TypedTwice(r, now, id, i, j, k, l) {
      TypedIn(r, now, Source(id, k), i);
      TypedIn(r, now, Source(id, l), j);
      var a :| 0 <= a < |sources| && sources[a] == Source(id, k);
      var b :| 0 <= b < |sources| && sources[b] == Source(id, l);
      assert Clashes(sources, id);
      KeysAt(sources, SourceKey());
      assert Keys(sources, SourceKey())[a] in Keys(sources, SourceKey());
      var m :| 0 <= m < |ids| && ids[m] == id;
      FlatMapMembers(ids, ClashReason(sources));
      assert SourceConflict(id) in ClashReason(sources)(ids[m]);
    }
  }

  lemma TypedAt(r: Request, now: Time, s: Source) returns (i: nat)
    requires s in FlatMap(Live(r, now), PairSources())
    ensures LiveAt(r, now, i) && i < |r.observations| && HasSource(r.observations[i], s.id, s.kind)
  {
    hide FlatMap, Live, Hit, HasSource, PairSources, Project;
    var m := FlatMapSource(Live(r, now), PairSources(), s);
    var p := Live(r, now)[m];
    PairSourceIff(p, s);
    LiveIff(r, now, p);
    i :| LiveAt(r, now, i) && r.observations[i] == p.raw;
  }

  lemma TypedIn(r: Request, now: Time, s: Source, i: nat)
    requires LiveAt(r, now, i) && i < |r.observations| && HasSource(r.observations[i], s.id, s.kind)
    ensures s in FlatMap(Live(r, now), PairSources())
  {
    hide FlatMap, Live, Hit, HasSource, PairSources, Project;
    LiveAtPair(r, now, i);
    var p := Pair(r.observations[i], Project(r.observations[i], r.scope, now).view);
    PairSourceIff(p, s);
    var m :| 0 <= m < |Live(r, now)| && Live(r, now)[m] == p;
    FlatMapMembers(Live(r, now), PairSources());
    assert s in PairSources()(Live(r, now)[m]);
  }

  lemma OnlyClashes(live: seq<Pair>, x: Reason)
    ensures x in SourceReasons(live) ==> x.SourceConflict?
  {
    hide FlatMap, Dedup, Keys, Clashes, PairSources;
    if x in SourceReasons(live) {
      var sources := FlatMap(live, PairSources());
      var m := FlatMapSource(Dedup(Keys(sources, SourceKey())), ClashReason(sources), x);
    }
  }

  ghost predicate ObservationFault(r: Request, now: Time, x: Reason) {
    match x
    case ObservationAmbiguous(id) => exists i: nat, j: nat :: HitTwice(r, now, id, i, j)
    case SourceConflict(id) => exists i: nat, j: nat, k, l :: TypedTwice(r, now, id, i, j, k, l)
    case _ => exists i: nat :: FailsAt(r, now, x, i)
  }

  lemma ObservationFaultIff(r: Request, now: Time, x: Reason)
    ensures x in ObservationReasons(r, now) <==> ObservationFault(r, now, x)
  {
    hide FlatMap, Live, Pairs, AmbiguousReasons, SourceReasons, HitTwice, TypedTwice, Relevant;
    FailuresIff(r, now, x);
    OnlyAmbiguities(Pairs(r, now), x);
    OnlyClashes(Live(r, now), x);
    if x.ObservationAmbiguous? {
      AmbiguityIff(r, now, x.observationId);
    } else if x.SourceConflict? {
      ClashIff(r, now, x.sourceId);
    }
  }

  // ----- citations -----

  /** Binding i is the only one of its name. */
  ghost predicate SoleAt(bindings: seq<Binding>, i: nat) {
    && i < |bindings| && bindings[i].bindingId != ""
    && forall j: nat :: j < |bindings| && j != i ==> bindings[j].bindingId != bindings[i].bindingId
  }

  /** The fault of binding i that gives the reason. */
  ghost predicate FaultyAt(r: Request, now: Time, x: Reason, i: nat) {
    && i < |r.bindings|
    && match x
       case BindingIdentityMissing => r.bindings[i].bindingId == ""
       case BindingNotUnique(id) => r.bindings[i].bindingId == id && id != "" && !SoleAt(r.bindings, i)
       case BindingNotCurrent(id) =>
         r.bindings[i].bindingId == id && SoleAt(r.bindings, i) && r.bindings[i].providerAttemptId != Some(r.attempt)
       case BindingInvalid(id) =>
         && r.bindings[i].bindingId == id && SoleAt(r.bindings, i) && r.bindings[i].providerAttemptId == Some(r.attempt)
         && !CitationFits(r.bindings[i], r.attempt)
       case CitationNotEligible(id) =>
         r.bindings[i].bindingId == id && AdmissibleAt(r.bindings, r.attempt, i) && !CitedAt(r, now, i)
       case CitationAmbiguous(id) => r.bindings[i].bindingId == id && CitedAt(r, now, i) && !AloneAt(r, now, i)
       case _ => false
  }

  lemma UnnamedIff(r: Request, now: Time, x: Reason)
    ensures x in FlatMap(r.bindings, MissingIdentity()) <==>
      x == BindingIdentityMissing && exists i: nat :: FaultyAt(r, now, x, i)
  {
    hide FlatMap, SoleAt, CitedAt, AloneAt, AdmissibleAt, CitationFits;
    FlatMapMembers(r.bindings, MissingIdentity());
    if x in FlatMap(r.bindings, MissingIdentity()) {
      var i := FlatMapSource(r.bindings, MissingIdentity(), x);
      assert FaultyAt(r, now, x, i);
    }
    if x == BindingIdentityMissing && exists i: nat :: FaultyAt(r, now, x, i) {
      var i: nat :| FaultyAt(r, now, x, i);
      assert x in MissingIdentity()(r.bindings[i]);
    }
  }

  predicate OfRow(x: Reason) {
    x.BindingNotUnique? || x.BindingNotCurrent? || x.BindingInvalid?
  }

  /** The reason a name gives, from any binding that has it. */
  lemma RowFault(r: Request, now: Time, x: Reason, i: nat)
    requires i < |r.bindings| && r.bindings[i].bindingId != ""
    ensures x in BindingReason(NamedBindings(r.bindings), r.attempt)(r.bindings[i].bindingId) <==>
      OfRow(x) && FaultyAt(r, now, x, i)
  {
    hide FlatMap, Rows, CitedAt, AloneAt, CitationFits, NamedBindings;
    RowsNamed(r.bindings, r.bindings[i].bindingId);
    OneRow(r.bindings, BindingKey(), i);
  }

  lemma RowFaultsIff(r: Request, now: Time, x: Reason)
    ensures var named := NamedBindings(r.bindings);
      x in FlatMap(Dedup(Keys(named, BindingKey())), BindingReason(named, r.attempt)) <==>
        OfRow(x) && exists i: nat :: FaultyAt(r, now, x, i)
  {
    hide FlatMap, Rows, Dedup, Keys, NamedBindings, SoleAt, CitedAt, AloneAt, AdmissibleAt, CitationFits;
    var named := NamedBindings(r.bindings);
    var ids, f := Dedup(Keys(named, BindingKey())), BindingReason(named, r.attempt);
    NamedMembers(r.bindings);
    KeysAt(named, BindingKey());
    if x in FlatMap(ids, f) {
      var m := FlatMapSource(ids, f, x);
      assert ids[m] in ids;
      var k :| 0 <= k < |named| && Keys(named, BindingKey())[k] == ids[m];
      assert named[k] in named;
      var i :| 0 <= i < |r.bindings| && r.bindings[i] == named[k];
      RowFault(r, now, x, i);
    }
    if OfRow(x) && exists i: nat :: FaultyAt(r, now, x, i) {
      var i: nat :| FaultyAt(r, now, x, i);
      FaultNamed(r, now, x, i);
      RowFault(r, now, x, i);
      assert r.bindings[i] in named;
      var k :| 0 <= k < |named| && named[k] == r.bindings[i];
      assert Keys(named, BindingKey())[k] in Keys(named, BindingKey());
      var m :| 0 <= m < |ids| && ids[m] == r.bindings[i].bindingId;
      FlatMapMembers(ids, f);
    }
  }

  lemma FaultNamed(r: Request, now: Time, x: Reason, i: nat)
    requires FaultyAt(r, now, x, i) && OfRow(x)
    ensures r.bindings[i].bindingId != ""
  {
    hide CitedAt, AloneAt, AdmissibleAt, CitationFits;
  }

  lemma IneligibleIff(r: Request, now: Time, x: Reason)
    ensures x in FlatMap(Admitted(r.bindings, r.attempt), NotEligible(EligibleEvidence(Live(r, now)))) <==>
      x.CitationNotEligible? && exists i: nat :: FaultyAt(r, now, x, i)
  {
    hide FlatMap, Admitted, Live, EligibleEvidence, SoleAt, AloneAt, AdmissibleAt, CitationFits, LiveAt, EvidenceIds;
    var eligible := EligibleEvidence(Live(r, now));
    var admitted := Admitted(r.bindings, r.attempt);
    FlatMapMembers(admitted, NotEligible(eligible));
    AdmissibleInRange(r.bindings, r.attempt);
    if x in FlatMap(admitted, NotEligible(eligible)) {
      var m := FlatMapSource(admitted, NotEligible(eligible), x);
      var c := admitted[m];
      AdmittedIff(r.bindings, r.attempt, c);
      EligibleIff(r, now, c.evidenceId);
      var i: nat :| AdmissibleAt(r.bindings, r.attempt, i) && Quotes(c, r.bindings[i], r.attempt);
      assert FaultyAt(r, now, x, i);
    }
    if x.CitationNotEligible? && exists i: nat :: FaultyAt(r, now, x, i) {
      var i: nat :| FaultyAt(r, now, x, i);
      var c := ToCitation(r.bindings[i], r.attempt);
      AdmittedIff(r.bindings, r.attempt, c);
      EligibleIff(r, now, c.evidenceId);
      assert Quotes(c, r.bindings[i], r.attempt);
      var m :| 0 <= m < |admitted| && admitted[m] == c;
      assert x in NotEligible(eligible)(admitted[m]);
    }
  }

  /** A cited binding is not sole exactly when another one claims its evidence. */
  lemma SharedIff(r: Request, now: Time, c: Citation, i: nat)
    requires CitedAt(r, now, i) && i < |r.bindings| && Quotes(c, r.bindings[i], r.attempt)
    ensures var cited := Cited(r.bindings, r.attempt, EligibleEvidence(Live(r, now)));
      c in cited && (Sole(cited)(c) <==> AloneAt(r, now, i))
  {
    hide Live, Cited, Filter, CitedAt, EligibleEvidence, Rows, AllReasons, MissingGroups, StaleGroups, SatisfiedGroups,
      Conflicts, FlatMap, Dedup, ErrorOf;
    var cited := Cited(r.bindings, r.attempt, EligibleEvidence(Live(r, now)));
    CitedIff(r, now, c);
    CitationsIffBindings(r, now, c);
    FilterMembers(cited, Sole(cited));
    CitedFacts(r, now);
    if Sole(cited)(c) {
      assert c in Decide(r, now).citations;
      var j: nat :| CitedAt(r, now, j) && AloneAt(r, now, j) && Quotes(c, r.bindings[j], r.attempt);
      assert j == i;
    }
  }

  lemma AmbiguousBindingIff(r: Request, now: Time, x: Reason)
    ensures var cited := Cited(r.bindings, r.attempt, EligibleEvidence(Live(r, now)));
      x in FlatMap(SortTexts(FlatMap(cited, SharedBinding(cited))), AmbiguityReason()) <==>
        x.CitationAmbiguous? && exists i: nat :: FaultyAt(r, now, x, i)
  {
    hide FlatMap, Live, Cited, EligibleEvidence, CitedAt, AloneAt, SoleAt, AdmissibleAt, CitationFits, Sole, SortTexts;
    var cited := Cited(r.bindings, r.attempt, EligibleEvidence(Live(r, now)));
    var shared := FlatMap(cited, SharedBinding(cited));
    var sorted := SortTexts(shared);
    PermutedMembers(sorted, shared);
    FlatMapMembers(sorted, AmbiguityReason());
    FlatMapMembers(cited, SharedBinding(cited));
    CitedFacts(r, now);
    if x in FlatMap(sorted, AmbiguityReason()) {
      var m := FlatMapSource(sorted, AmbiguityReason(), x);
      assert sorted[m] in shared;
      var k := FlatMapSource(cited, SharedBinding(cited), sorted[m]);
      var c := cited[k];
      CitedIff(r, now, c);
      var i: nat :| CitedAt(r, now, i) && Quotes(c, r.bindings[i], r.attempt);
      SharedIff(r, now, c, i);
      assert FaultyAt(r, now, x, i);
    }
    if x.CitationAmbiguous? && exists i: nat :: FaultyAt(r, now, x, i) {
      var i: nat :| FaultyAt(r, now, x, i);
      var c := ToCitation(r.bindings[i], r.attempt);
      SharedIff(r, now, c, i);
      var k :| 0 <= k < |cited| && cited[k] == c;
      assert x.bindingId in SharedBinding(cited)(cited[k]);
      assert x.bindingId in sorted;
      var m :| 0 <= m < |sorted| && sorted[m] == x.bindingId;
      assert x in AmbiguityReason()(sorted[m]);
    }
  }

  lemma CitationFaultIff(r: Request, now: Time, x: Reason)
    ensures x in CitationReasons(r.bindings, r.attempt, EligibleEvidence(Live(r, now))) <==>
      exists i: nat :: FaultyAt(r, now, x, i)
  {
    hide FlatMap, Live, Cited, Admitted, EligibleEvidence, NamedBindings, Keys, Dedup, SortTexts, CitedAt, AloneAt,
      SoleAt, AdmissibleAt, CitationFits;
    UnnamedIff(r, now, x);
    RowFaultsIff(r, now, x);
    IneligibleIff(r, now, x);
    AmbiguousBindingIff(r, now, x);
  }

  // ----- conflicts -----

  /** A used observation declares the conflict, or it is the flagged one and none declares any. */
  ghost predicate ConflictFound(r: Request, now: Time, text: string) {
    || (text != "" && exists i: nat :: LiveAt(r, now, i) && Declared(r.observations[i]) == text)
    || (&& text == "evidence_conflict" && r.evidenceConflict
        && forall i: nat :: LiveAt(r, now, i) ==> Declared(r.observations[i]) == "")
  }

  /** The conflicts the decision lists. */
  lemma ConflictsIffFound(r: Request, now: Time, text: string)
    ensures text in Decide(r, now).conflicts <==> ConflictFound(r, now, text)
  {
    hide FlatMap, Live, Dedup, LiveAt, Declared, RequestCitations, AllReasons, MissingGroups, StaleGroups,
      SatisfiedGroups, Filter, ErrorOf;
    var found := FlatMap(Live(r, now), ConflictOf());
    assert Decide(r, now).conflicts == Conflicts(Live(r, now), r.evidenceConflict);
    LiveInRange(r, now);
    FoundIff(r, now, text);
    if found == [] {
      forall i: nat | LiveAt(r, now, i) ensures Declared(r.observations[i]) == "" {
        FoundIff(r, now, Declared(r.observations[i]));
      }
    } else {
      FoundIff(r, now, found[0]);
    }
  }

  lemma LiveInRange(r: Request, now: Time)
    ensures forall i: nat :: LiveAt(r, now, i) ==> i < |r.observations|
  {
  }

  /** A listed conflict is a reason exactly when not all are the explainable one, or it may not be explained. */
  lemma ConflictReasonIff(r: Request, now: Time, x: Reason)
    ensures x in ConflictReasons(r, now) <==>
      && x.ConflictReason? && ConflictFound(r, now, x.text)
      && !(r.explainable && forall c :: ConflictFound(r, now, c) ==> c == UNRESOLVED_VERSIONS)
  {
    hide FlatMap, Live, ConflictFound, Conflicts, RequestCitations, AllReasons, MissingGroups, StaleGroups,
      SatisfiedGroups, Filter, ErrorOf, Dedup;
    var conflicts := Conflicts(Live(r, now), r.evidenceConflict);
    assert Decide(r, now).conflicts == conflicts;
    forall c ensures c in conflicts <==> ConflictFound(r, now, c) {
      ConflictsIffFound(r, now, c);
    }
    FlatMapMembers(conflicts, ConflictReasonOf());
    if x in FlatMap(conflicts, ConflictReasonOf()) {
      var m := FlatMapSource(conflicts, ConflictReasonOf(), x);
    }
    if x.ConflictReason? && x.text in conflicts {
      var m :| 0 <= m < |conflicts| && conflicts[m] == x.text;
      assert x in ConflictReasonOf()(conflicts[m]);
    }
  }

  // ----- groups -----

  lemma GroupReasonIff(missing: set<Group>, stale: set<Group>, x: Reason)
    ensures x in GroupReasons(missing, stale) <==>
      (x.MissingGroup? && x.group in missing) || (x.StaleGroup? && x.group in stale)
  {
    hide FlatMap, Filter;
    var a, b := Filter(SORTED_GROUPS, InGroups(missing)), Filter(SORTED_GROUPS, InGroups(stale));
    FilterMembers(SORTED_GROUPS, InGroups(missing));
    FilterMembers(SORTED_GROUPS, InGroups(stale));
    FlatMapMembers(a, MissingReason());
    FlatMapMembers(b, StaleReason());
    if x.MissingGroup? && x.group in missing {
      EveryGroup(x.group);
      var m :| 0 <= m < |a| && a[m] == x.group;
      assert x in MissingReason()(a[m]);
    }
    if x.StaleGroup? && x.group in stale {
      EveryGroup(x.group);
      var m :| 0 <= m < |b| && b[m] == x.group;
      assert x in StaleReason()(b[m]);
    }
    if x in FlatMap(a, MissingReason()) {
      var m := FlatMapSource(a, MissingReason(), x);
      assert a[m] in a;
    }
    if x in FlatMap(b, StaleReason()) {
      var m := FlatMapSource(b, StaleReason(), x);
      assert b[m] in b;
    }
  }

  lemma EveryGroup(g: Group)
    ensures g in SORTED_GROUPS
  {
    AllGroupsSorted({g});
  }

  // ----- all reasons -----

  /** The fact about the inputs that gives the reason. */
  ghost predicate Justified(r: Request, now: Time, x: Reason) {
    match KindOf(x)
    case OfObservation => ObservationFault(r, now, x)
    case OfCitation =>
      if x == KnowledgeCitationMissing
      then Decide(r, now).citations == [] && exists i: nat :: LiveAt(r, now, i) && Covers(r.observations[i], Knowledge)
      else exists i: nat :: FaultyAt(r, now, x, i)
    case OfConflict =>
      && ConflictFound(r, now, x.text)
      && !(r.explainable && forall c :: ConflictFound(r, now, c) ==> c == UNRESOLVED_VERSIONS)
    case OfGroup => x.group in r.required && !Spoken(r, now, x.group) && (x.StaleGroup? <==> Staled(r, now, x.group))
  }

  /** The reasons reported are exactly the justified ones, each once. */
  lemma ReasonIff(r: Request, now: Time, x: Reason)
    ensures Unique(Decide(r, now).reasons)
    ensures x in Decide(r, now).reasons <==> Justified(r, now, x)
  {
    hide ObservationReasons, CitationReasons, GroupReasons, ConflictReasons, KnowledgeReasons, MissingGroups,
      StaleGroups, SatisfiedGroups, RequestCitations, Live, EligibleEvidence, ObservationFault, FaultyAt,
      ConflictFound, Spoken, Staled, Covers, LiveAt, Conflicts, Filter, FlatMap, Dedup, ErrorOf;
    StageOf(r, now, x);
    match KindOf(x)
    case OfObservation => ObservationFaultIff(r, now, x);
    case OfCitation =>
      CitationFaultIff(r, now, x);
      KnowledgeReasonIff(r, now, x);
    case OfConflict => ConflictReasonIff(r, now, x);
    case OfGroup =>
      GroupReasonIff(MissingGroups(r, now), StaleGroups(r, now), x);
      GroupSplit(r, now, x.group);
  }

  lemma GroupSplit(r: Request, now: Time, g: Group)
    ensures g in MissingGroups(r, now) <==> g in r.required && !Spoken(r, now, g) && !Staled(r, now, g)
    ensures g in StaleGroups(r, now) <==> g in r.required && !Spoken(r, now, g) && Staled(r, now, g)
  {
    hide Live, RequestCitations, AllReasons, Conflicts, FlatMap, Filter, SatisfiedGroups, Spoken, Staled, GroupStale,
      Dedup, ErrorOf;
    DispositionIff(r, now, g);
    FilterMembers(r.required, InGroups(MissingGroups(r, now)));
    FilterMembers(r.required, InGroups(StaleGroups(r, now)));
  }

  lemma KnowledgeReasonIff(r: Request, now: Time, x: Reason)
    ensures x in KnowledgeReasons(r, now) <==>
      && x == KnowledgeCitationMissing && Decide(r, now).citations == []
      && exists i: nat :: LiveAt(r, now, i) && Covers(r.observations[i], Knowledge)
    ensures KindOf(x) == OfCitation && (exists i: nat :: FaultyAt(r, now, x, i)) ==> x != KnowledgeCitationMissing
  {
    hide Live, RequestCitations, AllReasons, Conflicts, FlatMap, Filter, SatisfiedGroups, StaleGroups, MissingGroups,
      Observed, LiveAt, Covers, Dedup, ErrorOf, SoleAt, CitedAt, AloneAt, AdmissibleAt, CitationFits;
    ObservedIff(r, now, Knowledge);
  }

  /** Each reason comes from the stage of its kind. */
  lemma StageOf(r: Request, now: Time, x: Reason)
    ensures Unique(Decide(r, now).reasons)
    ensures x in Decide(r, now).reasons <==>
      match KindOf(x)
      case OfObservation => x in ObservationReasons(r, now)
      case OfCitation =>
        x in CitationReasons(r.bindings, r.attempt, EligibleEvidence(Live(r, now))) || x in KnowledgeReasons(r, now)
      case OfConflict => x in ConflictReasons(r, now)
      case OfGroup => x in GroupReasons(MissingGroups(r, now), StaleGroups(r, now))
  {
    hide ObservationReasons, CitationReasons, GroupReasons, ConflictReasons, KnowledgeReasons, MissingGroups,
      StaleGroups, SatisfiedGroups, RequestCitations, Live, EligibleEvidence, Conflicts, Filter, FlatMap, Dedup,
      ErrorOf, KindOf;
    ObservationKinds(r, now);
    CitationKinds(r.bindings, r.attempt, EligibleEvidence(Live(r, now)));
    OtherKinds(r, now);
  }

  /** The code on the reported reasons alone: a conflict first, then anything that speaks of
      observations or sources, be it only the name of a binding, then citations, then groups. */
  lemma ErrorOnReasons(r: Request, now: Time)
    ensures var d := Decide(r, now);
      d.error ==
        if d.reasons == [] then None
        else if exists x :: x in d.reasons && x.ConflictReason? then Some(EvidenceConflict)
        else if exists x :: x in d.reasons && (KindOf(x) == OfObservation || Speaks(NamedIn(x)))
          then Some(FreshnessInsufficient)
        else if exists x :: x in d.reasons && KindOf(x) == OfCitation then Some(CitationIncomplete)
        else Some(GroupIncomplete)
  {
    hide AllReasons, MissingGroups, StaleGroups, SatisfiedGroups, RequestCitations, Live, Conflicts, Filter, FlatMap,
      Dedup, ErrorOf, Has, NamesSpeaking, Speaks;
    var d := Decide(r, now);
    SufficientIffNoReason(r, now);
    DedupEmpty(AllReasons(r, now));
    CodeByKind(d.reasons);
    HasMeans(d.reasons);
  }

  lemma HasMeans(s: seq<Reason>)
    ensures Has(s, OfConflict) <==> exists x :: x in s && x.ConflictReason?
    ensures Has(s, OfCitation) <==> exists x :: x in s && KindOf(x) == OfCitation
    ensures Has(s, OfObservation) || NamesSpeaking(s) <==>
      exists x :: x in s && (KindOf(x) == OfObservation || Speaks(NamedIn(x)))
  {
    hide Speaks;
    if i :| 0 <= i < |s| && KindOf(s[i]) == OfConflict {
      assert s[i] in s && s[i].ConflictReason?;
    }
    if i :| 0 <= i < |s| && KindOf(s[i]) == OfCitation {
      assert s[i] in s;
    }
    if i :| 0 <= i < |s| && KindOf(s[i]) == OfObservation {
      assert s[i] in s;
    }
    if i :| 0 <= i < |s| && Speaks(NamedIn(s[i])) {
      assert s[i] in s;
    }
    if x :| x in s && x.ConflictReason? {
      var i :| 0 <= i < |s| && s[i] == x;
      assert KindOf(s[i]) == OfConflict;
    }
    if x :| x in s && KindOf(x) == OfCitation {
      var i :| 0 <= i < |s| && s[i] == x;
      assert KindOf(s[i]) == OfCitation;
    }
    if x :| x in s && (KindOf(x) == OfObservation || Speaks(NamedIn(x))) {
      var i :| 0 <= i < |s| && s[i] == x;
      assert KindOf(s[i]) == OfObservation || Speaks(NamedIn(s[i]));
    }
  }
}
