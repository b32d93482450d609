/** Every decision meets its own contract, and what acceptance amounts to. */
module EvidenceContract {
  import opened Options
  import opened Sequences
  import opened EvidenceModel
  import opened EvidenceGate

  /** An observation survives iff no other one claims its identity. */
  lemma FreshMembers(pairs: seq<Pair>)
    ensures forall p :: p in FreshPairs(pairs) <==>
      p in pairs && |Rows(pairs, PairKey(), p.view.observationId)| == 1
  {
    hide FlatMap, Rows, Dedup;
    var ids := Dedup(Keys(pairs, PairKey()));
    FlatMapMembers(ids, SingleRow(pairs));
    FlatMapMembers(pairs, KeyOf(PairKey()));
    forall p ensures p in FreshPairs(pairs) <==> p in pairs && |Rows(pairs, PairKey(), p.view.observationId)| == 1 {
      RowsMembers(pairs, PairKey(), p.view.observationId);
      if p in FreshPairs(pairs) {
        var i :| 0 <= i < |ids| && p in SingleRow(pairs)(ids[i]);
        RowsMembers(pairs, PairKey(), ids[i]);
      }
      if p in pairs && |Rows(pairs, PairKey(), p.view.observationId)| == 1 {
        var k :| 0 <= k < |pairs| && pairs[k] == p;
        assert p.view.observationId in KeyOf(PairKey())(pairs[k]);
        assert p.view.observationId in ids;
        var i :| 0 <= i < |ids| && ids[i] == p.view.observationId;
        assert p in SingleRow(pairs)(ids[i]);
      }
    }
  }

  lemma FreshUnique(pairs: seq<Pair>)
    ensures Unique(Keys(FreshPairs(pairs), PairKey()))
  {
    hide FlatMap, Rows, Dedup;
    forall id ensures forall p :: p in SingleRow(pairs)(id) ==> PairKey()(p) == id {
      RowsMembers(pairs, PairKey(), id);
    }
    UniqueRowKeys(Dedup(Keys(pairs, PairKey())), SingleRow(pairs), PairKey());
  }

  /** A pair holds a relevant observation together with its own projection. */
  lemma PairMembers(observations: seq<Observation>, scope: Scope, now: Time)
    ensures forall p :: p in FlatMap(observations, PairOf(scope, now)) <==>
      p.raw in observations && Project(p.raw, scope, now) == Projected(p.view)
  {
    hide FlatMap, Project;
    var f := PairOf(scope, now);
    FlatMapMembers(observations, f);
    forall p: Pair ensures p in FlatMap(observations, f) <==>
      p.raw in observations && Project(p.raw, scope, now) == Projected(p.view)
    {
      if p.raw in observations && Project(p.raw, scope, now) == Projected(p.view) {
        var i :| 0 <= i < |observations| && observations[i] == p.raw;
        assert p in f(observations[i]);
      }
    }
  }

  lemma LiveMembers(r: Request, now: Time)
    ensures forall p :: p in Live(r, now) ==>
      p.raw in r.observations && Project(p.raw, r.scope, now) == Projected(p.view)
  {
    hide FlatMap, Project, FreshPairs;
    FreshMembers(Pairs(r, now));
    PairMembers(r.observations, r.scope, now);
  }

  lemma AdmittedShape(bindings: seq<Binding>, attempt: string)
    ensures Unique(Keys(Admitted(bindings, attempt), CitationKey()))
    ensures forall c :: c in Admitted(bindings, attempt) ==> c.providerAttemptId == attempt
  {
    hide FlatMap, Rows, Dedup, CitationFits;
    var named := NamedBindings(bindings);
    var ids := Dedup(Keys(named, BindingKey()));
    forall id ensures forall c :: c in AdmittedRow(named, attempt)(id) ==> CitationKey()(c) == id {
      var rows := Rows(named, BindingKey(), id);
      RowsMembers(named, BindingKey(), id);
      assert |rows| == 1 ==> rows[0] in rows;
    }
    UniqueRowKeys(ids, AdmittedRow(named, attempt), CitationKey());
    FlatMapMembers(ids, AdmittedRow(named, attempt));
  }

  lemma EligibleShape(bindings: seq<Binding>, attempt: string, eligible: set<string>)
    ensures Unique(Keys(Eligible(bindings, attempt, eligible), CitationKey()))
    ensures forall c :: c in Eligible(bindings, attempt, eligible) ==> c.providerAttemptId == attempt
  {
    hide Filter, Keys, Admitted;
    AdmittedShape(bindings, attempt);
    var cited := Cited(bindings, attempt, eligible);
    UniqueFilterKeys(Admitted(bindings, attempt), Cites(eligible), CitationKey());
    FilterMembers(Admitted(bindings, attempt), Cites(eligible));
    UniqueFilterKeys(cited, Sole(cited), CitationKey());
    FilterMembers(cited, Sole(cited));
  }

  lemma ObservationsShape(r: Request, now: Time)
    ensures Unique(Keys(FlatMap(Live(r, now), FreshOf()), ObservationKey()))
    ensures forall o :: o in FlatMap(Live(r, now), FreshOf()) ==> Scope(o.runId, o.tenantId, o.customerId) == r.scope
  {
    hide FlatMap, FreshPairs, Keys, InScope, Complete, SourceIds, EvidenceIds, HasRepeats, ProjectionFits;
    var live := Live(r, now);
    var views := FlatMap(live, FreshOf());
    LiveMembers(r, now);
    FlatMapMembers(live, FreshOf());
    FreshUnique(Pairs(r, now));
    ViewsAt(live);
    KeysAt(live, PairKey());
    KeysAt(views, ObservationKey());
    assert Keys(views, ObservationKey()) == Keys(live, PairKey());
  }

  lemma {:induction false} ViewsAt(live: seq<Pair>)
    ensures |FlatMap(live, FreshOf())| == |live|
    ensures forall i :: 0 <= i < |live| ==> FlatMap(live, FreshOf())[i] == live[i].view
  {
    if live != [] {
      ViewsAt(live[..|live| - 1]);
    }
  }

  lemma GroupReasonsEmpty(missing: set<Group>, stale: set<Group>)
    ensures GroupReasons(missing, stale) == [] <==> missing == {} && stale == {}
  {
    hide FlatMap, Filter;
    var m, s := Filter(SORTED_GROUPS, InGroups(missing)), Filter(SORTED_GROUPS, InGroups(stale));
    FlatMapEmpty(m, MissingReason());
    FlatMapEmpty(s, StaleReason());
    assert m != [] ==> MissingReason()(m[0]) != [];
    assert s != [] ==> StaleReason()(s[0]) != [];
    AllGroupsSorted(missing);
    AllGroupsSorted(stale);
  }

  lemma AllGroupsSorted(groups: set<Group>)
    ensures groups == {} <==> forall i :: 0 <= i < |SORTED_GROUPS| ==> SORTED_GROUPS[i] !in groups
    ensures Filter(SORTED_GROUPS, InGroups(groups)) == [] <==> groups == {}
  {
    FlatMapEmpty(SORTED_GROUPS, Keep(InGroups(groups)));
    if g :| g in groups {
      assert g in SORTED_GROUPS by {
        match g {
          case Account => assert SORTED_GROUPS[0] == g;
          case ApiKeyMetadata => assert SORTED_GROUPS[1] == g;
          case ApiUsage => assert SORTED_GROUPS[2] == g;
          case BillingRecord => assert SORTED_GROUPS[3] == g;
          case Knowledge => assert SORTED_GROUPS[4] == g;
          case RequestTrace => assert SORTED_GROUPS[5] == g;
          case Subscription => assert SORTED_GROUPS[6] == g;
        }
      }
    }
  }

  lemma DedupEmpty<T(!new)>(s: seq<T>)
    ensures Dedup(s) == [] <==> s == []
  {
    if s != [] {
      assert s[0] in Dedup(s);
    }
  }

  lemma SufficientIffNoReason(r: Request, now: Time)
    ensures Decide(r, now).sufficient <==> AllReasons(r, now) == []
  {
    hide ObservationReasons, CitationReasons, ConflictReasons, KnowledgeReasons, MissingGroups, StaleGroups, Dedup;
    hide GroupReasons;
    GroupReasonsEmpty(MissingGroups(r, now), StaleGroups(r, now));
    DedupEmpty(AllReasons(r, now));
  }

  /** The record meets its contract if and only if the four identities are within their
      bounds; then `decide_evidence` returns it, otherwise it raises. */
  lemma DecisionMeetsContract(r: Request, now: Time)
    requires Unique(r.required)
    ensures Contract(Decide(r, now)) <==> IdentitiesFit(r.scope, r.attempt)
    ensures Gate(r, now) == if IdentitiesFit(r.scope, r.attempt) then Returned(Decide(r, now)) else Raised
  {
    hide Decide, IdentitiesFit, Keys;
    Verdicts(r, now);
    Contents(r, now);
    Dispositions(r, now);
  }

  lemma Verdicts(r: Request, now: Time)
    ensures var d := Decide(r, now);
      && d.scope == r.scope && d.providerAttemptId == r.attempt && d.required == r.required
      && d.sufficient == (d.result == Accept)
      && (d.sufficient ==> d.reasons == [] && d.error == None)
      && (!d.sufficient ==> d.reasons != [])
  {
    hide AllReasons, Dedup, Live, Filter, SatisfiedGroups, MissingGroups, StaleGroups, RequestCitations, Conflicts,
      FlatMap;
    SufficientIffNoReason(r, now);
    DedupEmpty(AllReasons(r, now));
  }

  lemma Contents(r: Request, now: Time)
    ensures var d := Decide(r, now);
      && (forall o :: o in d.observations ==> Scope(o.runId, o.tenantId, o.customerId) == r.scope)
      && Unique(Keys(d.citations, CitationKey()))
      && Unique(Keys(d.observations, ObservationKey()))
      && (forall c :: c in d.citations ==> c.providerAttemptId == r.attempt)
  {
    hide AllReasons, Dedup, Live, Filter, Keys, SatisfiedGroups, MissingGroups, StaleGroups, RequestCitations,
      Conflicts, FlatMap;
    ObservationsShape(r, now);
    CitationsShape(r, now);
  }

  lemma Dispositions(r: Request, now: Time)
    requires Unique(r.required)
    ensures var d := Decide(r, now);
      && Unique(d.satisfied) && Unique(d.missing) && Unique(d.stale)
      && (forall g :: g in r.required <==> g in d.satisfied || g in d.missing || g in d.stale)
      && (forall g :: g in d.satisfied ==> g !in d.missing && g !in d.stale)
      && (forall g :: g in d.missing ==> g !in d.stale)
  {
    hide AllReasons, Dedup, Live, Filter, SatisfiedGroups, RequestCitations, Conflicts, FlatMap, GroupStale;
    GroupsShape(r.required, SatisfiedGroups(r, now), MissingGroups(r, now), StaleGroups(r, now));
  }

  /** Three sets that split the required groups give three lists that do. */
  lemma GroupsShape(required: seq<Group>, satisfied: set<Group>, missing: set<Group>, stale: set<Group>)
    requires Unique(required)
    requires missing == (set g | g in required) - satisfied - stale && stale !! satisfied
    requires forall g :: g in stale ==> g in required
    ensures var s, m, t := Filter(required, InGroups(satisfied)), Filter(required, InGroups(missing)),
                           Filter(required, InGroups(stale));
      && Unique(s) && Unique(m) && Unique(t)
      && (forall g :: g in required <==> g in s || g in m || g in t)
      && (forall g :: g in s ==> g !in m && g !in t)
      && (forall g :: g in m ==> g !in t)
  {
    hide Filter;
    UniqueFilter(required, InGroups(satisfied));
    UniqueFilter(required, InGroups(missing));
    UniqueFilter(required, InGroups(stale));
    FilterMembers(required, InGroups(satisfied));
    FilterMembers(required, InGroups(missing));
    FilterMembers(required, InGroups(stale));
  }

  lemma CitationsShape(r: Request, now: Time)
    ensures Unique(Keys(RequestCitations(r, now), CitationKey()))
    ensures forall c :: c in RequestCitations(r, now) ==> c.providerAttemptId == r.attempt
  {
    hide Eligible, Live, Keys;
    EligibleShape(r.bindings, r.attempt, EligibleEvidence(Live(r, now)));
  }

  /** Only a conflict renders as one: no other reason starts that way. */
  lemma RendersAsConflict(r: Reason)
    ensures "conflict:" <= Render(r) <==> r.ConflictReason?
  {
    var text := Render(r);
    if r.ConflictReason? {
      assert text[..9] == "conflict:";
    } else {
      assert |text| >= 2 && (text[0] != 'c' || text[1] != 'o') by {
        StartsOtherwise(r);
      }
      assert "conflict:"[0] == 'c' && "conflict:"[1] == 'o';
    }
  }

  lemma StartsOtherwise(r: Reason)
    requires !r.ConflictReason?
    ensures |Render(r)| >= 2 && (Render(r)[0] != 'c' || Render(r)[1] != 'o')
  {
  }

  lemma ConflictErrorOf(reasons: seq<Reason>)
    ensures ErrorOf(reasons) == EvidenceConflict <==> exists x :: x in reasons && x.ConflictReason?
  {
    hide Render, Mentions;
    forall i | 0 <= i < |reasons| ensures "conflict:" <= Render(reasons[i]) <==> reasons[i].ConflictReason? {
      RendersAsConflict(reasons[i]);
    }
  }

  /** An insufficient decision reports a conflict if and only if an unexplained one exists. */
  lemma ConflictErrorIff(r: Request, now: Time)
    ensures Decide(r, now).error == Some(EvidenceConflict) <==> ConflictReasons(r, now) != []
  {
    hide AllReasons, ConflictReasons, MissingGroups, StaleGroups, RequestCitations, Live, SatisfiedGroups, Dedup,
      ErrorOf;
    ConflictErrorOf(Dedup(AllReasons(r, now)));
    ConflictsAmongReasons(r, now);
    SufficientIffNoReason(r, now);
  }

  lemma ConflictsAmongReasons(r: Request, now: Time)
    ensures (exists x :: x in AllReasons(r, now) && x.ConflictReason?) <==> ConflictReasons(r, now) != []
  {
    hide ObservationReasons, CitationReasons, KnowledgeReasons, GroupReasons, MissingGroups, StaleGroups,
      RequestCitations, Live, SatisfiedGroups, EligibleEvidence, Conflicts, Explained;
    var a := ObservationReasons(r, now);
    var b := CitationReasons(r.bindings, r.attempt, EligibleEvidence(Live(r, now)));
    var c, d := ConflictReasons(r, now), KnowledgeReasons(r, now);
    var e := GroupReasons(MissingGroups(r, now), StaleGroups(r, now));
    PlainStages(r, now);
    forall i | 0 <= i < |c| ensures c[i].ConflictReason? {
      var conflicts := Conflicts(Live(r, now), r.evidenceConflict);
      assert c[i] in FlatMap(conflicts, ConflictReasonOf());
      var k := FlatMapSource(conflicts, ConflictReasonOf(), c[i]);
    }
    if c != [] {
      assert c[0] in a + b + c + d + e;
    }
  }

  ghost predicate Plain(reasons: seq<Reason>) {
    forall i :: 0 <= i < |reasons| ==> !reasons[i].ConflictReason?
  }

  lemma PlainFlatMap<T(!new)>(s: seq<T>, f: T -> seq<Reason>)
    requires forall x: T :: Plain(f(x))
    ensures Plain(FlatMap(s, f))
  {
    forall i | 0 <= i < |FlatMap(s, f)| ensures !FlatMap(s, f)[i].ConflictReason? {
      var k := FlatMapSource(s, f, FlatMap(s, f)[i]);
    }
  }

  /** The other stages never give a conflict. */
  lemma PlainStages(r: Request, now: Time)
    ensures Plain(ObservationReasons(r, now)) && Plain(KnowledgeReasons(r, now))
    ensures Plain(CitationReasons(r.bindings, r.attempt, EligibleEvidence(Live(r, now))))
    ensures Plain(GroupReasons(MissingGroups(r, now), StaleGroups(r, now)))
  {
    hide MissingGroups, StaleGroups, Live, EligibleEvidence, RequestCitations, Observed, Pairs;
    hide FlatMap, Filter, Dedup, Keys, SortTexts, NamedBindings, Admitted, Cited;
    PlainObservations(r, now);
    PlainCitations(r.bindings, r.attempt, EligibleEvidence(Live(r, now)));
    PlainFlatMap(Filter(SORTED_GROUPS, InGroups(MissingGroups(r, now))), MissingReason());
    PlainFlatMap(Filter(SORTED_GROUPS, InGroups(StaleGroups(r, now))), StaleReason());
  }

  lemma PlainObservations(r: Request, now: Time)
    ensures Plain(ObservationReasons(r, now))
  {
    hide Live, Pairs, FlatMap, Dedup, Keys, Rows, Clashes, PairSources, InScope, Complete, FreshAt, HasRepeats,
      ProjectionFits;
    PlainFlatMap(r.observations, ReasonOf(r.scope, now));
    var pairs, sources := Pairs(r, now), FlatMap(Live(r, now), PairSources());
    PlainFlatMap(Dedup(Keys(pairs, PairKey())), AmbiguousRow(pairs));
    PlainFlatMap(Dedup(Keys(sources, SourceKey())), ClashReason(sources));
  }

  lemma PlainCitations(bindings: seq<Binding>, attempt: string, eligible: set<string>)
    ensures Plain(CitationReasons(bindings, attempt, eligible))
  {
    hide FlatMap, Dedup, Keys, Rows, Filter, SortTexts, NamedBindings, Admitted, Cited, CitationFits, Sole;
    var named, cited := NamedBindings(bindings), Cited(bindings, attempt, eligible);
    PlainFlatMap(bindings, MissingIdentity());
    PlainFlatMap(Dedup(Keys(named, BindingKey())), BindingReason(named, attempt));
    PlainFlatMap(Admitted(bindings, attempt), NotEligible(eligible));
    PlainFlatMap(SortTexts(FlatMap(cited, SharedBinding(cited))), AmbiguityReason());
  }
}
