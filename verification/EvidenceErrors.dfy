/** Which error code an insufficient decision carries.  The code is chosen by searching the
    texts of the reasons, identities included. */
module EvidenceErrors {
  import opened Options
  import opened Sequences
  import opened EvidenceModel
  import opened EvidenceGate
  import opened EvidenceContract
  import opened EvidenceRuns
  import opened EvidenceTruth
  import opened EvidenceTerminal
  import opened EvidenceOutcome

  // ----- searching texts -----

  ghost predicate OccursAt(s: string, part: string, i: int) {
    0 <= i && i + |part| <= |s| && forall k :: 0 <= k < |part| ==> s[i + k] == part[k]
  }

  lemma PrefixOccurs(s: string, part: string)
    ensures part <= s <==> OccursAt(s, part, 0)
  {
  }

  lemma OccursLater(s: string, part: string, i: int)
    requires s != [] && i >= 1
    ensures OccursAt(s, part, i) <==> OccursAt(s[1..], part, i - 1)
  {
    if OccursAt(s[1..], part, i - 1) {
      forall k | 0 <= k < |part| ensures s[i + k] == part[k] {
        assert s[1..][i - 1 + k] == part[k];
      }
    }
  }

  lemma {:induction false} ContainsIff(s: string, part: string)
    ensures Contains(s, part) <==> exists i :: OccursAt(s, part, i)
  {
    hide OccursAt;
    PrefixOccurs(s, part);
    if s != [] {
      ContainsIff(s[1..], part);
      if i :| OccursAt(s[1..], part, i) {
        InBounds(s[1..], part, i);
        OccursLater(s, part, i + 1);
      }
      if i :| OccursAt(s, part, i) {
        InBounds(s, part, i);
        if i > 0 {
          OccursLater(s, part, i);
        }
      }
    } else if i :| OccursAt(s, part, i) {
      InBounds(s, part, i);
    }
  }

  lemma InBounds(s: string, part: string, i: int)
    requires OccursAt(s, part, i)
    ensures 0 <= i && i + |part| <= |s|
  {
  }

  lemma OneSide(s: string, w: string, i: int, p: nat)
    requires OccursAt(s, w, i) && p < |s|
    ensures s[p] in w || p < i || i + |w| <= p
  {
    if i <= p < i + |w| {
      assert s[i + (p - i)] == w[p - i];
    }
  }

  /** A word without colons lies on one side of a colon. */
  lemma ContainsAcross(a: string, b: string, w: string)
    requires w != "" && ':' !in w
    ensures Contains(a + ":" + b, w) <==> Contains(a, w) || Contains(b, w)
  {
    hide Contains;
    var s := a + ":" + b;
    ContainsIff(s, w);
    ContainsIff(a, w);
    ContainsIff(b, w);
    assert s[|a|] == ':';
    if i :| OccursAt(s, w, i) {
      OneSide(s, w, i, |a|);
      if i + |w| <= |a| {
        assert OccursAt(a, w, i);
      } else {
        assert OccursAt(b, w, i - |a| - 1);
      }
    }
    if i :| OccursAt(a, w, i) {
      assert OccursAt(s, w, i);
    }
    if i :| OccursAt(b, w, i) {
      assert OccursAt(s, w, i + |a| + 1);
    }
  }

  /** A text that contains a word has its characters, and somewhere its first two in a row. */
  lemma ContainedChars(s: string, w: string)
    requires Contains(s, w)
    ensures forall c :: c in w ==> c in s
    ensures |w| >= 2 ==> exists i :: 0 <= i < |s| - 1 && s[i] == w[0] && s[i + 1] == w[1]
  {
    hide Contains;
    ContainsIff(s, w);
    var i :| OccursAt(s, w, i);
    forall c | c in w ensures c in s {
      var k :| 0 <= k < |w| && w[k] == c;
      assert s[i + k] == c;
    }
    if |w| >= 2 {
      assert s[i + 0] == w[0] && s[i + 1] == w[1];
    }
  }

  lemma LacksChar(s: string, w: string, c: char)
    requires c in w && c !in s
    ensures !Contains(s, w)
  {
    hide Contains;
    if Contains(s, w) {
      ContainedChars(s, w);
    }
  }

  lemma LacksStart(s: string, w: string)
    requires |w| >= 2 && forall i :: 0 <= i < |s| - 1 ==> s[i] != w[0] || s[i + 1] != w[1]
    ensures !Contains(s, w)
  {
    hide Contains;
    if Contains(s, w) {
      ContainedChars(s, w);
    }
  }

  lemma StartsWith(s: string, w: string)
    requires w <= s
    ensures Contains(s, w)
  {
  }

  // ----- kinds of reasons -----

  datatype Kind = OfObservation | OfCitation | OfConflict | OfGroup

  function KindOf(x: Reason): Kind {
    match x
    case ObservationNotCurrentScope => OfObservation
    case ObservationNotSuccessful => OfObservation
    case ObservationNotFresh => OfObservation
    case ObservationIdentityIncomplete => OfObservation
    case ObservationSourceDuplicate => OfObservation
    case ObservationEvidenceDuplicate => OfObservation
    case ObservationProjectionInvalid => OfObservation
    case ObservationAmbiguous(_) => OfObservation
    case SourceConflict(_) => OfObservation
    case BindingIdentityMissing => OfCitation
    case BindingNotUnique(_) => OfCitation
    case BindingNotCurrent(_) => OfCitation
    case BindingInvalid(_) => OfCitation
    case CitationNotEligible(_) => OfCitation
    case CitationAmbiguous(_) => OfCitation
    case KnowledgeCitationMissing => OfCitation
    case ConflictReason(_) => OfConflict
    case MissingGroup(_) => OfGroup
    case StaleGroup(_) => OfGroup
  }

  /** The binding a citation reason names, "" for none. */
  function NamedIn(x: Reason): string {
    match x
    case BindingNotUnique(id) => id
    case BindingNotCurrent(id) => id
    case BindingInvalid(id) => id
    case CitationNotEligible(id) => id
    case CitationAmbiguous(id) => id
    case _ => ""
  }

  /** The text before the identity of a citation reason. */
  function Label(x: Reason): string
    requires KindOf(x) == OfCitation
  {
    match x
    case BindingIdentityMissing => "citation_binding_identity_missing"
    case KnowledgeCitationMissing => "eligible_knowledge_citation_missing"
    case BindingNotUnique(_) => "citation_binding_not_unique"
    case BindingNotCurrent(_) => "citation_binding_not_current"
    case BindingInvalid(_) => "citation_binding_invalid"
    case CitationNotEligible(_) => "citation_evidence_not_eligible"
    case CitationAmbiguous(_) => "citation_evidence_identity_ambiguous"
  }

  lemma LabelRenders(x: Reason)
    requires KindOf(x) == OfCitation
    ensures Render(x) == Label(x) || Render(x) == Label(x) + ":" + NamedIn(x)
    ensures x.BindingIdentityMissing? || x.KnowledgeCitationMissing? ==> Render(x) == Label(x) && NamedIn(x) == ""
    ensures !x.BindingIdentityMissing? && !x.KnowledgeCitationMissing? ==> Render(x) == Label(x) + ":" + NamedIn(x)
  {
  }

  const OBSERVATION := "observation"
  const SOURCE := "source"
  const CITATION := "citation"
  const LOCATOR := "locator"

  /** The text says nothing of observations or sources, for want of these characters. */
  lemma Silent(s: string, a: char, b: char)
    requires a in OBSERVATION && a !in s && b in SOURCE && b !in s
    ensures !Contains(s, OBSERVATION) && !Contains(s, SOURCE)
  {
    hide Contains;
    LacksChar(s, OBSERVATION, a);
    LacksChar(s, SOURCE, b);
  }

  lemma SilentBindingIdentityMissing()
    ensures !Contains("citation_binding_identity_missing", OBSERVATION)
    ensures !Contains("citation_binding_identity_missing", SOURCE)
  {
    hide Contains;
    Silent("citation_binding_identity_missing", 'v', 'u');
  }

  lemma SilentKnowledgeCitationMissing()
    ensures !Contains("eligible_knowledge_citation_missing", OBSERVATION)
    ensures !Contains("eligible_knowledge_citation_missing", SOURCE)
  {
    hide Contains;
    Silent("eligible_knowledge_citation_missing", 'v', 'u');
  }

  lemma SilentBindingNotUnique()
    ensures !Contains("citation_binding_not_unique", OBSERVATION)
    ensures !Contains("citation_binding_not_unique", SOURCE)
  {
    hide Contains;
    Silent("citation_binding_not_unique", 's', 's');
  }

  lemma SilentBindingNotCurrent()
    ensures !Contains("citation_binding_not_current", OBSERVATION)
    ensures !Contains("citation_binding_not_current", SOURCE)
  {
    hide Contains;
    Silent("citation_binding_not_current", 's', 's');
  }

  lemma SilentBindingInvalid()
    ensures !Contains("citation_binding_invalid", OBSERVATION)
    ensures !Contains("citation_binding_invalid", SOURCE)
  {
    hide Contains;
    Silent("citation_binding_invalid", 's', 's');
  }

  lemma SilentCitationNotEligible()
    ensures !Contains("citation_evidence_not_eligible", OBSERVATION)
    ensures !Contains("citation_evidence_not_eligible", SOURCE)
  {
    hide Contains;
    Silent("citation_evidence_not_eligible", 's', 's');
  }

  lemma SilentCitationAmbiguous()
    ensures !Contains("citation_evidence_identity_ambiguous", OBSERVATION)
    ensures !Contains("citation_evidence_identity_ambiguous", SOURCE)
  {
    hide Contains;
    Silent("citation_evidence_identity_ambiguous", 'r', 'r');
  }

  /** Only the identity of a citation reason can mention an observation or a source. */
  lemma LabelsSilent(x: Reason)
    requires KindOf(x) == OfCitation
    ensures !Contains(Label(x), OBSERVATION) && !Contains(Label(x), SOURCE)
  {
    hide Contains;
    match x
    case BindingIdentityMissing => SilentBindingIdentityMissing();
    case KnowledgeCitationMissing => SilentKnowledgeCitationMissing();
    case BindingNotUnique(_) => SilentBindingNotUnique();
    case BindingNotCurrent(_) => SilentBindingNotCurrent();
    case BindingInvalid(_) => SilentBindingInvalid();
    case CitationNotEligible(_) => SilentCitationNotEligible();
    case CitationAmbiguous(_) => SilentCitationAmbiguous();
  }

  lemma LabelsCite(x: Reason)
    requires KindOf(x) == OfCitation
    ensures Contains(Label(x), CITATION)
  {
    hide Contains;
    ContainsIff(Label(x), CITATION);
    if x.KnowledgeCitationMissing? {
      assert OccursAt(Label(x), CITATION, 19);
    } else {
      assert OccursAt(Label(x), CITATION, 0);
    }
  }

  /** None of the four words occurs. */
  ghost predicate Mute(s: string) {
    !Contains(s, OBSERVATION) && !Contains(s, SOURCE) && !Contains(s, CITATION) && !Contains(s, LOCATOR)
  }

  lemma SilentKnowledge()
    ensures Mute("knowledge")
  {
    hide Contains;
    Silent("knowledge", 'v', 's');
    LacksChar("knowledge", CITATION, 'c');
    LacksChar("knowledge", LOCATOR, 'a');
  }

  lemma SilentRequestTrace()
    ensures Mute("request_trace")
  {
    hide Contains;
    Silent("request_trace", 'v', 'o');
    LacksChar("request_trace", CITATION, 'i');
    LacksChar("request_trace", LOCATOR, 'l');
  }

  lemma SilentBillingRecord()
    ensures Mute("billing_record")
  {
    hide Contains;
    Silent("billing_record", 'v', 's');
    LacksChar("billing_record", CITATION, 't');
    LacksChar("billing_record", LOCATOR, 'a');
  }

  lemma SilentApiKeyMetadata()
    ensures Mute("api_key_metadata")
  {
    hide Contains;
    Silent("api_key_metadata", 'v', 's');
    LacksChar("api_key_metadata", CITATION, 'c');
    LacksChar("api_key_metadata", LOCATOR, 'l');
  }

  lemma SilentSubscription()
    ensures Mute("subscription")
  {
    hide Contains;
    Silent("subscription", 'v', 'e');
    LacksChar("subscription", CITATION, 'a');
    LacksChar("subscription", LOCATOR, 'l');
  }

  lemma SilentAccount()
    ensures Mute("account")
  {
    hide Contains;
    Silent("account", 'v', 's');
    LacksChar("account", CITATION, 'i');
    LacksChar("account", LOCATOR, 'l');
  }

  lemma SilentApiUsage()
    ensures Mute("api_usage")
  {
    hide Contains;
    Silent("api_usage", 'v', 'o');
    LacksChar("api_usage", CITATION, 'c');
    LacksChar("api_usage", LOCATOR, 'l');
  }

  lemma NamesSilent(g: Group)
    ensures Mute(GroupName(g))
  {
    hide Mute;
    match g
    case Knowledge => SilentKnowledge();
    case RequestTrace => SilentRequestTrace();
    case BillingRecord => SilentBillingRecord();
    case ApiKeyMetadata => SilentApiKeyMetadata();
    case Subscription => SilentSubscription();
    case Account => SilentAccount();
    case ApiUsage => SilentApiUsage();
  }

  lemma MissingSilent()
    ensures Mute("missing_evidence_group")
  {
    hide Contains;
    var n := "missing_evidence_group";
    LacksChar(n, OBSERVATION, 'b');
    LacksStart(n, SOURCE);
    LacksChar(n, CITATION, 't');
    LacksChar(n, LOCATOR, 'l');
  }

  lemma StaleSilent()
    ensures Mute("stale_evidence_group")
  {
    hide Contains;
    var n := "stale_evidence_group";
    LacksChar(n, OBSERVATION, 'b');
    LacksStart(n, SOURCE);
    LacksStart(n, CITATION);
    LacksStart(n, LOCATOR);
  }

  // ----- what a reason mentions -----

  predicate Speaks(text: string) {
    Contains(text, OBSERVATION) || Contains(text, SOURCE)
  }

  lemma NoColons()
    ensures ':' !in OBSERVATION && ':' !in SOURCE && ':' !in CITATION && ':' !in LOCATOR
    ensures OBSERVATION != "" && SOURCE != "" && CITATION != "" && LOCATOR != ""
  {
  }

  lemma MuteAcross(a: string, b: string)
    requires Mute(a) && Mute(b)
    ensures Mute(a + ":" + b)
  {
    hide Contains;
    NoColons();
    ContainsAcross(a, b, OBSERVATION);
    ContainsAcross(a, b, SOURCE);
    ContainsAcross(a, b, CITATION);
    ContainsAcross(a, b, LOCATOR);
  }

  /** A citation reason speaks of citations, and of observations or sources only in its identity. */
  lemma CitationSpeaks(x: Reason)
    requires KindOf(x) == OfCitation
    ensures Contains(Render(x), CITATION)
    ensures Speaks(Render(x)) <==> Speaks(NamedIn(x))
  {
    hide Contains, Label, Render, NamedIn;
    LabelRenders(x);
    LabelsSilent(x);
    LabelsCite(x);
    NoColons();
    ContainsAcross(Label(x), NamedIn(x), CITATION);
    ContainsAcross(Label(x), NamedIn(x), OBSERVATION);
    ContainsAcross(Label(x), NamedIn(x), SOURCE);
    EmptySilent();
  }

  lemma EmptySilent()
    ensures !Contains("", OBSERVATION) && !Contains("", SOURCE)
  {
    hide Contains;
    NoColons();
    LacksChar("", OBSERVATION, 'o');
    LacksChar("", SOURCE, 'o');
  }

  lemma GroupSpeaks(x: Reason)
    requires KindOf(x) == OfGroup
    ensures Mute(Render(x))
  {
    hide Mute, GroupName;
    MissingSilent();
    StaleSilent();
    match x
    case MissingGroup(g) =>
      NamesSilent(g);
      MuteAcross("missing_evidence_group", GroupName(g));
    case StaleGroup(g) =>
      NamesSilent(g);
      MuteAcross("stale_evidence_group", GroupName(g));
  }

  lemma ObservationSpeaks(x: Reason)
    requires KindOf(x) == OfObservation
    ensures Speaks(Render(x))
  {
    hide Contains;
    ContainsIff(Render(x), OBSERVATION);
    assert Render(x)[..11] == OBSERVATION;
    assert OccursAt(Render(x), OBSERVATION, 0);
  }

  // ----- which stage gives which kind -----

  ghost predicate AllKind(reasons: seq<Reason>, kind: Kind) {
    forall i :: 0 <= i < |reasons| ==> KindOf(reasons[i]) == kind
  }

  lemma KindFlatMap<T(!new)>(s: seq<T>, f: T -> seq<Reason>, kind: Kind)
    requires forall x: T :: AllKind(f(x), kind)
    ensures AllKind(FlatMap(s, f), kind)
  {
    forall i | 0 <= i < |FlatMap(s, f)| ensures KindOf(FlatMap(s, f)[i]) == kind {
      var k := FlatMapSource(s, f, FlatMap(s, f)[i]);
    }
  }

  lemma ObservationKinds(r: Request, now: Time)
    ensures AllKind(ObservationReasons(r, now), OfObservation)
  {
    hide Live, Pairs, FlatMap, Dedup, Keys, Rows, Clashes, PairSources, InScope, Complete, FreshAt, HasRepeats,
      ProjectionFits;
    KindFlatMap(r.observations, ReasonOf(r.scope, now), OfObservation);
    var pairs, sources := Pairs(r, now), FlatMap(Live(r, now), PairSources());
    KindFlatMap(Dedup(Keys(pairs, PairKey())), AmbiguousRow(pairs), OfObservation);
    KindFlatMap(Dedup(Keys(sources, SourceKey())), ClashReason(sources), OfObservation);
  }

  lemma CitationKinds(bindings: seq<Binding>, attempt: string, eligible: set<string>)
    ensures AllKind(CitationReasons(bindings, attempt, eligible), OfCitation)
  {
    hide FlatMap, Dedup, Keys, Rows, Filter, SortTexts, NamedBindings, Admitted, Cited, CitationFits, Sole;
    var named, cited := NamedBindings(bindings), Cited(bindings, attempt, eligible);
    KindFlatMap(bindings, MissingIdentity(), OfCitation);
    KindFlatMap(Dedup(Keys(named, BindingKey())), BindingReason(named, attempt), OfCitation);
    KindFlatMap(Admitted(bindings, attempt), NotEligible(eligible), OfCitation);
    KindFlatMap(SortTexts(FlatMap(cited, SharedBinding(cited))), AmbiguityReason(), OfCitation);
  }

  lemma OtherKinds(r: Request, now: Time)
    ensures AllKind(ConflictReasons(r, now), OfConflict) && AllKind(KnowledgeReasons(r, now), OfCitation)
    ensures AllKind(GroupReasons(MissingGroups(r, now), StaleGroups(r, now)), OfGroup)
  {
    hide Live, FlatMap, Filter, RequestCitations, Observed, MissingGroups, StaleGroups, Conflicts, Explained;
    KindFlatMap(Conflicts(Live(r, now), r.evidenceConflict), ConflictReasonOf(), OfConflict);
    KindFlatMap(Filter(SORTED_GROUPS, InGroups(MissingGroups(r, now))), MissingReason(), OfGroup);
    KindFlatMap(Filter(SORTED_GROUPS, InGroups(StaleGroups(r, now))), StaleReason(), OfGroup);
  }

  ghost predicate Has(reasons: seq<Reason>, kind: Kind) {
    exists i :: 0 <= i < |reasons| && KindOf(reasons[i]) == kind
  }

  /** A reason names a binding whose identity mentions observations or sources. */
  ghost predicate NamesSpeaking(reasons: seq<Reason>) {
    exists i :: 0 <= i < |reasons| && Speaks(NamedIn(reasons[i]))
  }

  /** The code in order: a conflict, something of observations or sources, a citation, a group. */
  lemma CodeByKind(reasons: seq<Reason>)
    ensures ErrorOf(reasons) ==
      if Has(reasons, OfConflict) then EvidenceConflict
      else if Has(reasons, OfObservation) || NamesSpeaking(reasons) then FreshnessInsufficient
      else if Has(reasons, OfCitation) then CitationIncomplete
      else GroupIncomplete
  {
    hide Contains, Render, NamedIn;
    forall i | 0 <= i < |reasons|
      ensures "conflict:" <= Render(reasons[i]) <==> KindOf(reasons[i]) == OfConflict
      ensures KindOf(reasons[i]) != OfConflict ==>
        (Speaks(Render(reasons[i])) <==> KindOf(reasons[i]) == OfObservation || Speaks(NamedIn(reasons[i])))
      ensures KindOf(reasons[i]) == OfCitation ==> Contains(Render(reasons[i]), CITATION)
      ensures KindOf(reasons[i]) == OfGroup ==>
        !Contains(Render(reasons[i]), CITATION) && !Contains(Render(reasons[i]), LOCATOR)
    {
      ReasonSpeaks(reasons[i]);
    }
  }

  lemma ReasonSpeaks(x: Reason)
    ensures "conflict:" <= Render(x) <==> KindOf(x) == OfConflict
    ensures KindOf(x) != OfConflict ==>
      (Speaks(Render(x)) <==> KindOf(x) == OfObservation || Speaks(NamedIn(x)))
    ensures KindOf(x) == OfCitation ==> Contains(Render(x), CITATION)
    ensures KindOf(x) == OfGroup ==> !Contains(Render(x), CITATION) && !Contains(Render(x), LOCATOR)
  {
    hide Contains, Render;
    RendersAsConflict(x);
    EmptySilent();
    match KindOf(x)
    case OfObservation => ObservationSpeaks(x);
    case OfCitation => CitationSpeaks(x);
    case OfConflict =>
    case OfGroup => GroupSpeaks(x);
  }

  // ----- the code on the raw inputs -----

  /** All relevant observations are usable, uniquely identified and agree on their sources. */
  ghost predicate ObservationsSound(r: Request, now: Time) {
    AllUsable(r, now) && UniquelyIdentified(r) && NoSourceClash(r)
  }

  lemma SoundIffNoReason(r: Request, now: Time)
    ensures ObservationReasons(r, now) == [] <==> ObservationsSound(r, now)
    ensures ObservationsSound(r, now) ==> AmbiguousReasons(Pairs(r, now)) == []
  {
    hide FlatMap, Live, AmbiguousReasons, SourceReasons, AllUsable, UniquelyIdentified, NoSourceClash, Pairs;
    NoObservationReasons(r.observations, r.scope, now);
    UsableMeans(r, now);
    if AllUsable(r, now) {
      IdentitiesIff(r, now);
      if AmbiguousReasons(Pairs(r, now)) == [] {
        SourcesIff(r, now);
      }
    }
  }

  lemma UsableMeans(r: Request, now: Time)
    ensures AllUsable(r, now) <==> forall o :: o in r.observations && Relevant(o, r.scope) ==> Usable(o, r.scope, now)
  {
  }

  /** The citations are in order: every binding sound, and something cited if knowledge was observed. */
  ghost predicate CitationsComplete(r: Request) {
    CitationsSound(r) && (Covered(r, Knowledge) ==> r.bindings != [])
  }

  lemma CompleteIffNoReason(r: Request, now: Time)
    requires ObservationsSound(r, now)
    ensures CitationsComplete(r) <==>
      CitationReasons(r.bindings, r.attempt, EligibleEvidence(Live(r, now))) == [] && KnowledgeReasons(r, now) == []
    ensures ConflictReasons(r, now) == [] <==> ConflictsExplained(r)
  {
    hide Live, CitationReasons, EligibleEvidence, CitationsSound, Covered, ConflictsExplained, ConflictReasons,
      AmbiguousReasons, AllUsable, UniquelyIdentified, NoSourceClash, Observed, RequestCitations, Pairs;
    SoundIffNoReason(r, now);
    CitationsIff(r, now);
    ConflictsIff(r, now);
    ObservedIsCovered(r, now);
  }

  /** A binding that is objected to mentions observations or sources in its identity. */
  ghost predicate ObjectionSpeaks(r: Request, now: Time) {
    NamesSpeaking(CitationReasons(r.bindings, r.attempt, EligibleEvidence(Live(r, now))))
  }

  /** When each code arises. */
  lemma ErrorIff(r: Request, now: Time)
    ensures var error := Decide(r, now).error;
      && (error == Some(EvidenceConflict) <==> ConflictReasons(r, now) != [])
      && (error == Some(FreshnessInsufficient) <==>
            ConflictReasons(r, now) == [] && (!ObservationsSound(r, now) || ObjectionSpeaks(r, now)))
      && (error == Some(CitationIncomplete) <==>
            ObservationsSound(r, now) && ConflictsExplained(r) && !ObjectionSpeaks(r, now) && !CitationsComplete(r))
      && (error == Some(GroupIncomplete) <==>
            && ObservationsSound(r, now) && ConflictsExplained(r) && CitationsComplete(r)
            && exists g :: g in r.required && !Covered(r, g))
  {
    hide ObservationReasons, CitationReasons, KnowledgeReasons, GroupReasons, ConflictReasons, MissingGroups,
      StaleGroups, SatisfiedGroups, RequestCitations, Live, EligibleEvidence, ObservationsSound, ConflictsExplained,
      Acceptable, CitationsComplete, ErrorOf, Speaks, NamedIn, Dedup, Conflicts, Filter, FlatMap, Covered;
    ConflictErrorIff(r, now);
    CodeOfStages(r, now);
    VerdictIff(r, now);
    AcceptableMeans(r, now);
    SoundIffNoReason(r, now);
    SufficientIffNoReason(r, now);
    if ObservationsSound(r, now) {
      CompleteIffNoReason(r, now);
      if CitationsComplete(r) {
        NothingObjected(r, now);
      }
    }
  }

  lemma AcceptableMeans(r: Request, now: Time)
    ensures Acceptable(r, now) <==>
      && ObservationsSound(r, now) && ConflictsExplained(r) && CitationsComplete(r)
      && forall g :: g in r.required ==> Covered(r, g)
  {
    hide AllUsable, UniquelyIdentified, NoSourceClash, ConflictsExplained, CitationsSound, Covered;
  }

  lemma NothingObjected(r: Request, now: Time)
    requires CitationReasons(r.bindings, r.attempt, EligibleEvidence(Live(r, now))) == []
    ensures !ObjectionSpeaks(r, now)
  {
    hide CitationReasons, Live, EligibleEvidence;
  }

  /** The code by the stages that gave reasons. */
  lemma CodeOfStages(r: Request, now: Time)
    ensures var d := Decide(r, now);
      !d.sufficient ==> d.error == Some(
        if ConflictReasons(r, now) != [] then EvidenceConflict
        else if ObservationReasons(r, now) != [] || ObjectionSpeaks(r, now) then FreshnessInsufficient
        else if CitationReasons(r.bindings, r.attempt, EligibleEvidence(Live(r, now))) != []
                || KnowledgeReasons(r, now) != [] then CitationIncomplete
        else GroupIncomplete)
  {
    hide ObservationReasons, CitationReasons, KnowledgeReasons, GroupReasons, ConflictReasons, MissingGroups,
      StaleGroups, SatisfiedGroups, RequestCitations, Live, EligibleEvidence, ErrorOf, Speaks, NamedIn, Dedup,
      Conflicts, Filter, FlatMap, KindOf, Has, NamesSpeaking, AllReasons;
    var all := AllReasons(r, now);
    CodeByKind(Dedup(all));
    SameKinds(all, Dedup(all));
    KindsOfAll(r, now);
  }

  lemma SameKinds(a: seq<Reason>, b: seq<Reason>)
    requires forall x :: x in a <==> x in b
    ensures forall kind :: Has(a, kind) <==> Has(b, kind)
    ensures NamesSpeaking(a) <==> NamesSpeaking(b)
  {
    forall kind ensures Has(a, kind) <==> Has(b, kind) {
      SomeKind(a, b, kind);
      SomeKind(b, a, kind);
    }
    SomeSpeaking(a, b);
    SomeSpeaking(b, a);
  }

  lemma SomeKind(a: seq<Reason>, b: seq<Reason>, kind: Kind)
    requires forall x :: x in a ==> x in b
    ensures Has(a, kind) ==> Has(b, kind)
  {
    if i :| 0 <= i < |a| && KindOf(a[i]) == kind {
      assert a[i] in b;
      var j :| 0 <= j < |b| && b[j] == a[i];
    }
  }

  lemma SomeSpeaking(a: seq<Reason>, b: seq<Reason>)
    requires forall x :: x in a ==> x in b
    ensures NamesSpeaking(a) ==> NamesSpeaking(b)
  {
    hide Speaks;
    if i :| 0 <= i < |a| && Speaks(NamedIn(a[i])) {
      assert a[i] in b;
      var j :| 0 <= j < |b| && b[j] == a[i];
    }
  }

  lemma Joined(a: seq<Reason>, b: seq<Reason>)
    ensures forall kind :: Has(a + b, kind) <==> Has(a, kind) || Has(b, kind)
    ensures NamesSpeaking(a + b) <==> NamesSpeaking(a) || NamesSpeaking(b)
  {
    hide Speaks, KindOf, NamedIn;
    forall kind ensures Has(a + b, kind) <==> Has(a, kind) || Has(b, kind) {
      SomeKind(a, a + b, kind);
      SomeKind(b, a + b, kind);
    }
    SomeSpeaking(a, a + b);
    SomeSpeaking(b, a + b);
  }

  lemma PureStage(s: seq<Reason>, kind: Kind)
    requires AllKind(s, kind)
    ensures forall k :: Has(s, k) <==> k == kind && s != []
  {
    if s != [] {
      assert KindOf(s[0]) == kind;
    }
  }

  /** Which kinds occur among all reasons. */
  lemma KindsOfAll(r: Request, now: Time)
    ensures var all := AllReasons(r, now);
      && (Has(all, OfConflict) <==> ConflictReasons(r, now) != [])
      && (Has(all, OfObservation) <==> ObservationReasons(r, now) != [])
      && (Has(all, OfCitation) <==>
            || CitationReasons(r.bindings, r.attempt, EligibleEvidence(Live(r, now))) != []
            || KnowledgeReasons(r, now) != [])
      && (NamesSpeaking(all) <==> ObjectionSpeaks(r, now))
  {
    hide ObservationReasons, CitationReasons, GroupReasons, ConflictReasons, MissingGroups, StaleGroups,
      RequestCitations, Live, EligibleEvidence, Speaks, KnowledgeReasons, Has, NamesSpeaking, AllKind;
    var a := ObservationReasons(r, now);
    var b := CitationReasons(r.bindings, r.attempt, EligibleEvidence(Live(r, now)));
    var c, d := ConflictReasons(r, now), KnowledgeReasons(r, now);
    var e := GroupReasons(MissingGroups(r, now), StaleGroups(r, now));
    ObservationKinds(r, now);
    CitationKinds(r.bindings, r.attempt, EligibleEvidence(Live(r, now)));
    OtherKinds(r, now);
    PureStage(a, OfObservation);
    PureStage(b, OfCitation);
    PureStage(c, OfConflict);
    PureStage(d, OfCitation);
    PureStage(e, OfGroup);
    QuietStages(r, now);
    Joined(a, b);
    Joined(a + b, c);
    Joined(a + b + c, d);
    Joined(a + b + c + d, e);
  }

  /** Only citation reasons name a binding. */
  lemma QuietStages(r: Request, now: Time)
    ensures !NamesSpeaking(ObservationReasons(r, now)) && !NamesSpeaking(ConflictReasons(r, now))
    ensures !NamesSpeaking(KnowledgeReasons(r, now))
    ensures !NamesSpeaking(GroupReasons(MissingGroups(r, now), StaleGroups(r, now)))
  {
    hide ObservationReasons, GroupReasons, ConflictReasons, MissingGroups, StaleGroups, RequestCitations, Live, Speaks,
      Observed, KindOf;
    ObservationKinds(r, now);
    OtherKinds(r, now);
    QuietNames();
  }

  lemma QuietNames()
    ensures forall x: Reason :: KindOf(x) != OfCitation || x == KnowledgeCitationMissing ==> !Speaks(NamedIn(x))
  {
    hide Contains;
    EmptySilent();
  }

  // ----- conflicts -----

  /** No unexplained conflict: what the used observations declare is the explainable version
      conflict and may be explained, and a flagged conflict is declared by one of them. */
  lemma ConflictsLiveIff(r: Request, now: Time)
    ensures ConflictReasons(r, now) == [] <==>
      && (forall i: nat :: LiveAt(r, now, i) && Declared(r.observations[i]) != "" ==>
            r.explainable && Declared(r.observations[i]) == UNRESOLVED_VERSIONS)
      && (r.evidenceConflict ==> exists i: nat :: LiveAt(r, now, i) && Declared(r.observations[i]) != "")
  {
    hide FlatMap, Live, Hit, Dedup, Declared;
    var found := FlatMap(Live(r, now), ConflictOf());
    var conflicts := Conflicts(Live(r, now), r.evidenceConflict);
    NoConflictReasons(conflicts);
    forall c ensures c in found <==> c != "" && exists i: nat :: LiveAt(r, now, i) && Declared(r.observations[i]) == c {
      FoundIff(r, now, c);
    }
    assert found != [] ==> found[0] in found;
    assert conflicts != [] ==> conflicts[0] in conflicts;
    if found == [] && r.evidenceConflict {
      assert "evidence_conflict" in conflicts;
      assert "evidence_conflict" != UNRESOLVED_VERSIONS;
      forall i: nat | LiveAt(r, now, i) ensures Declared(r.observations[i]) == "" {
        assert Declared(r.observations[i]) !in found;
      }
    } else {
      assert forall c :: c in conflicts <==> c in found;
      if ConflictReasons(r, now) == [] {
        forall i: nat | LiveAt(r, now, i) && Declared(r.observations[i]) != ""
          ensures r.explainable && Declared(r.observations[i]) == UNRESOLVED_VERSIONS
        {
          assert Declared(r.observations[i]) in conflicts;
        }
        if r.evidenceConflict {
          assert found[0] in found;
        }
      } else {
        assert conflicts[0] in found;
      }
    }
  }

  lemma FoundIff(r: Request, now: Time, c: string)
    ensures c in FlatMap(Live(r, now), ConflictOf()) <==>
      c != "" && exists i: nat :: LiveAt(r, now, i) && Declared(r.observations[i]) == c
  {
    hide FlatMap, Live, Hit, Project;
    var live := Live(r, now);
    FlatMapMembers(live, ConflictOf());
    if c in FlatMap(live, ConflictOf()) {
      var k := FlatMapSource(live, ConflictOf(), c);
      LiveIff(r, now, live[k]);
    }
    if c != "" && exists i: nat :: LiveAt(r, now, i) && Declared(r.observations[i]) == c {
      var i: nat :| LiveAt(r, now, i) && Declared(r.observations[i]) == c;
      LiveAtPair(r, now, i);
      var p := Pair(r.observations[i], Project(r.observations[i], r.scope, now).view);
      var k :| 0 <= k < |live| && live[k] == p;
      assert c in ConflictOf()(live[k]);
    }
  }

  /** The conflict an observation declares. */
  lemma DeclaredMeans(o: Observation)
    ensures Declared(o) ==
      if o.data.Data? && o.data.refusalReason != "" then o.data.refusalReason
      else if o.data.Data? && o.data.conflict then "knowledge_conflict"
      else ""
  {
  }
}
