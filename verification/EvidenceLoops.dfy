/** The loops of `decide_evidence`, proved to compute `EvidenceGate.Decide`. */
module EvidenceLoops {
  import opened Options
  import opened Sequences
  import opened EvidenceModel
  import opened EvidenceGate
  import opened EvidenceContract
  import opened EvidenceTruth
  import opened EvidenceTerminal
  import opened EvidenceOutcome
  import opened EvidenceReasons

  method ProjectObservations(observations: seq<Observation>, scope: Scope, now: Time)
    returns (pairs: seq<Pair>, reasons: seq<Reason>)
    ensures pairs == FlatMap(observations, PairOf(scope, now))
    ensures reasons == FlatMap(observations, ReasonOf(scope, now))
  {
    hide InScope, HasRepeats, SourceIds, EvidenceIds, ProjectionFits;
    pairs, reasons := [], [];
    for i := 0 to |observations|
      invariant pairs == FlatMap(observations[..i], PairOf(scope, now))
      invariant reasons == FlatMap(observations[..i], ReasonOf(scope, now))
    {
      FlatMapStep(observations, i, PairOf(scope, now));
      FlatMapStep(observations, i, ReasonOf(scope, now));
      var projection := Project(observations[i], scope, now);
      if projection.Projected? {
        pairs := pairs + [Pair(observations[i], projection.view)];
      } else if projection.reason != ObservationNotCurrentScope && projection.reason != ObservationNotSuccessful {
        reasons := reasons + [projection.reason];
      }
    }
    assert observations[..|observations|] == observations;
  }

  method SelectFresh(pairs: seq<Pair>) returns (live: seq<Pair>, reasons: seq<Reason>)
    ensures live == FreshPairs(pairs) && reasons == AmbiguousReasons(pairs)
  {
    hide Rows, Dedup, Keys, FlatMap, SingleRow, AmbiguousRow;
    var order, rows := GroupBy(pairs, PairKey());
    live, reasons := [], [];
    NothingMapped(order, SingleRow(pairs));
    NothingMapped(order, AmbiguousRow(pairs));
    for i := 0 to |order|
      invariant live == FlatMap(order[..i], SingleRow(pairs))
      invariant reasons == FlatMap(order[..i], AmbiguousRow(pairs))
    {
      FlatMapStep(order, i, SingleRow(pairs));
      FlatMapStep(order, i, AmbiguousRow(pairs));
      assert order[i] in order;
      RowCases(pairs, order[i]);
      if |rows[order[i]]| == 1 {
        live := live + [rows[order[i]][0]];
      } else {
        reasons := reasons + [ObservationAmbiguous(order[i])];
      }
    }
    assert order[..|order|] == order;
  }

  lemma NothingMapped<T, R>(s: seq<T>, f: T -> seq<R>)
    ensures FlatMap(s[..0], f) == []
  {
  }

  lemma RowCases(pairs: seq<Pair>, id: string)
    ensures var rows := Rows(pairs, PairKey(), id);
      if |rows| == 1 then SingleRow(pairs)(id) == [rows[0]] && AmbiguousRow(pairs)(id) == []
      else SingleRow(pairs)(id) == [] && AmbiguousRow(pairs)(id) == [ObservationAmbiguous(id)]
  {
    hide Rows;
  }

  lemma TwoMembers(k: set<string>)
    ensures |k| > 1 <==> exists a, b :: a in k && b in k && a != b
  {
    if |k| > 1 {
      var a :| a in k;
      assert k == {a} + (k - {a});
      var b :| b in k - {a};
    }
    if a, b :| a in k && b in k && a != b {
      assert k == {a, b} + (k - {a, b});
    }
  }

  lemma KindsClash(sources: seq<Source>, id: string)
    ensures |set s | s in Rows(sources, SourceKey(), id) :: s.kind| > 1 <==> Clashes(sources, id)
  {
    hide Rows;
    RowsMembers(sources, SourceKey(), id);
    var rows := Rows(sources, SourceKey(), id);
    var kinds := set s | s in rows :: s.kind;
    TwoMembers(kinds);
    if a, b :| a in kinds && b in kinds && a != b {
      var s :| s in rows && s.kind == a;
      var u :| u in rows && u.kind == b;
      assert s in sources && u in sources;
    }
    if Clashes(sources, id) {
      var i, j :| 0 <= i < |sources| && 0 <= j < |sources|
        && sources[i].id == id && sources[j].id == id && sources[i].kind != sources[j].kind;
      assert sources[i] in rows && sources[j] in rows;
      assert sources[i].kind in kinds && sources[j].kind in kinds;
    }
  }

  method SourceConflicts(live: seq<Pair>) returns (reasons: seq<Reason>)
    ensures reasons == SourceReasons(live)
  {
    hide Rows, Dedup, Keys, Clashes;
    var sources := FlatMap(live, PairSources());
    var order, rows := GroupBy(sources, SourceKey());
    reasons := [];
    for i := 0 to |order|
      invariant reasons == FlatMap(order[..i], ClashReason(sources))
    {
      FlatMapStep(order, i, ClashReason(sources));
      assert order[i] in order;
      KindsClash(sources, order[i]);
      var kinds := set s: Source | s in rows[order[i]] :: s.kind;
      if |kinds| > 1 {
        reasons := reasons + [SourceConflict(order[i])];
      }
    }
    assert order[..|order|] == order;
  }

  method CollectNamed(bindings: seq<Binding>) returns (named: seq<Binding>, reasons: seq<Reason>)
    ensures named == NamedBindings(bindings)
    ensures reasons == FlatMap(bindings, MissingIdentity())
  {
    named, reasons := [], [];
    for i := 0 to |bindings|
      invariant named == FlatMap(bindings[..i], Keep(Named()))
      invariant reasons == FlatMap(bindings[..i], MissingIdentity())
    {
      FlatMapStep(bindings, i, Keep(Named()));
      FlatMapStep(bindings, i, MissingIdentity());
      if bindings[i].bindingId == "" {
        reasons := reasons + [BindingIdentityMissing];
      } else {
        named := named + [bindings[i]];
      }
    }
    assert bindings[..|bindings|] == bindings;
  }

  method AdmitNamed(named: seq<Binding>, attempt: string) returns (admitted: seq<Citation>, reasons: seq<Reason>)
    ensures admitted == FlatMap(Dedup(Keys(named, BindingKey())), AdmittedRow(named, attempt))
    ensures reasons == FlatMap(Dedup(Keys(named, BindingKey())), BindingReason(named, attempt))
  {
    hide Rows, Dedup, Keys, CitationFits;
    var order, rows := GroupBy(named, BindingKey());
    admitted, reasons := [], [];
    for i := 0 to |order|
      invariant admitted == FlatMap(order[..i], AdmittedRow(named, attempt))
      invariant reasons == FlatMap(order[..i], BindingReason(named, attempt))
    {
      FlatMapStep(order, i, AdmittedRow(named, attempt));
      FlatMapStep(order, i, BindingReason(named, attempt));
      assert order[i] in order;
      var candidates := rows[order[i]];
      if |candidates| != 1 {
        reasons := reasons + [BindingNotUnique(order[i])];
      } else if candidates[0].providerAttemptId != Some(attempt) {
        reasons := reasons + [BindingNotCurrent(order[i])];
      } else if CitationFits(candidates[0], attempt) {
        admitted := admitted + [ToCitation(candidates[0], attempt)];
      } else {
        reasons := reasons + [BindingInvalid(order[i])];
      }
    }
    assert order[..|order|] == order;
  }

  /** `_eligible_citations`. */
  method EligibleCitations(bindings: seq<Binding>, attempt: string, eligible: set<string>)
    returns (citations: seq<Citation>, reasons: seq<Reason>)
    ensures citations == Eligible(bindings, attempt, eligible)
    ensures reasons == CitationReasons(bindings, attempt, eligible)
  {
    hide FlatMap, Filter, Rows, Dedup, Keys, NamedBindings, SortTexts;
    var named, unnamed := CollectNamed(bindings);
    var admitted, rejected := AdmitNamed(named, attempt);
    var cited := Filter(admitted, Cites(eligible));
    reasons := unnamed + rejected + FlatMap(admitted, NotEligible(eligible))
      + FlatMap(SortTexts(FlatMap(cited, SharedBinding(cited))), AmbiguityReason());
    citations := Filter(cited, Sole(cited));
  }

  /** `_stale_required_groups`. */
  method StaleRequiredGroups(observations: seq<Observation>, required: seq<Group>, scope: Scope, now: Time)
    returns (stale: set<Group>)
    ensures stale == StaleRequired(observations, required, scope, now)
  {
    hide Relevant, FreshAt, ToolGroup;
    stale := {};
    for i := 0 to |observations|
      invariant stale == StaleRequired(observations[..i], required, scope, now)
    {
      assert observations[..i + 1] == observations[..i] + [observations[i]];
      var o := observations[i];
      var group := ToolGroup(o.toolName);
      if group.Some? && group.value in required && Relevant(o, scope) {
        if o.freshnessStatus != "fresh" || !FreshAt(o, now) {
          stale := stale + {group.value};
        }
      }
    }
    assert observations[..|observations|] == observations;
  }

  /** `_conflict_reasons`. */
  method ConflictTexts(live: seq<Pair>, evidenceConflict: bool) returns (conflicts: seq<string>)
    ensures conflicts == Conflicts(live, evidenceConflict)
  {
    hide Dedup;
    var found: seq<string> := [];
    for i := 0 to |live|
      invariant found == FlatMap(live[..i], ConflictOf())
    {
      FlatMapStep(live, i, ConflictOf());
      var data := live[i].raw.data;
      if data.Data? {
        if data.refusalReason != "" {
          found := found + [data.refusalReason];
        } else if data.conflict {
          found := found + ["knowledge_conflict"];
        }
      }
    }
    assert live[..|live|] == live;
    if evidenceConflict && found == [] {
      found := ["evidence_conflict"];
    }
    conflicts := Dedup(found);
  }

  /** `decide_evidence`: it raises exactly when an identity is out of bounds, and accepts
      exactly the acceptable requests otherwise. */
  method DecideEvidence(r: Request, now: Time) returns (o: Outcome)
    requires Unique(r.required)
    ensures o == Gate(r, now)
    ensures o == Raised <==> !IdentitiesFit(r.scope, r.attempt)
    ensures o.Returned? ==> Contract(o.decision) && (o.decision.sufficient <==> Acceptable(r, now))
    ensures o.Returned? ==> (o.decision.result == Replan <==> !Acceptable(r, now) && r.canReplan)
    ensures o.Returned? ==> (o.decision.result == Terminal <==> !Acceptable(r, now) && !r.canReplan)
    ensures o.Returned? ==> forall x :: x in o.decision.reasons <==> Justified(r, now, x)
  {
    var d := BuildDecision(r, now);
    DecisionMeetsContract(r, now);
    SufficientIffAcceptable(r, now);
    VerdictIff(r, now);
    hide Contract, Acceptable, Decide, Justified;
    forall x ensures x in d.reasons <==> Justified(r, now, x) {
      ReasonIff(r, now, x);
    }
    o := if IdentitiesFit(d.scope, d.providerAttemptId) then Returned(d) else Raised;
  }

  /** The passes up to the construction of the decision. */
  method BuildDecision(r: Request, now: Time) returns (d: Decision)
    ensures d == Decide(r, now)
  {
    hide FlatMap, FreshPairs, AmbiguousReasons, SourceReasons, CitationReasons, Eligible, Conflicts, StaleRequired;
    hide Filter, Dedup, GroupReasons, ErrorOf, EligibleEvidence, Observed;
    var pairs, reasons := ProjectObservations(r.observations, r.scope, now);
    var live, ambiguous := SelectFresh(pairs);
    var clashes := SourceConflicts(live);
    var citations, citationReasons := EligibleCitations(r.bindings, r.attempt, EligibleEvidence(live));
    reasons := reasons + ambiguous + clashes + citationReasons;
    var conflicts := ConflictTexts(live, r.evidenceConflict);
    if conflicts != [] && !Explained(conflicts, r.explainable) {
      reasons := reasons + FlatMap(conflicts, ConflictReasonOf());
    }
    NoConflictReasonsAtAll();
    var satisfied := Observed(live);
    if Knowledge in satisfied && citations == [] {
      satisfied := satisfied - {Knowledge};
      reasons := reasons + [KnowledgeCitationMissing];
    }
    var stale := StaleRequiredGroups(r.observations, r.required, r.scope, now);
    stale := stale - satisfied;
    var missing := (set g | g in r.required) - satisfied - stale;
    assert satisfied == SatisfiedGroups(r, now) && stale == StaleGroups(r, now) && missing == MissingGroups(r, now);
    reasons := reasons + GroupReasons(missing, stale);
    assert reasons == AllReasons(r, now);
    reasons := Dedup(reasons);
    var sufficient := reasons == [] && missing == {} && stale == {};
    d := Decision(
      r.scope, r.attempt, r.required, sufficient,
      if sufficient then Accept else if r.canReplan then Replan else Terminal,
      citations, FlatMap(live, FreshOf()),
      Filter(r.required, InGroups(satisfied)), Filter(r.required, InGroups(missing)),
      Filter(r.required, InGroups(stale)),
      conflicts, reasons, if sufficient then None else Some(ErrorOf(reasons)));
  }

  lemma NoConflictReasonsAtAll()
    ensures FlatMap([], ConflictReasonOf()) == []
  {
  }
}
