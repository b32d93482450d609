/** Two-run properties of `decide_evidence`: what it does not depend on. */
module EvidenceRuns {
  import opened Options
  import opened Sequences
  import opened EvidenceModel
  import opened EvidenceGate
  import opened EvidenceContract

  /** Observations and time enter the decision through three values only. */
  lemma DecisionFrom(r: Request, t: Time, s: Request, u: Time)
    requires s == r.(observations := s.observations)
    requires Pairs(r, t) == Pairs(s, u)
    requires FlatMap(r.observations, ReasonOf(r.scope, t)) == FlatMap(s.observations, ReasonOf(s.scope, u))
    requires StaleRequired(r.observations, r.required, r.scope, t)
      == StaleRequired(s.observations, s.required, s.scope, u)
    ensures Decide(r, t) == Decide(s, u)
  {
    hide FlatMap, Pairs, FreshPairs, StaleRequired, Eligible, EligibleEvidence, CitationReasons;
    hide AmbiguousReasons, SourceReasons, Conflicts, Observed, Dedup, Filter;
    assert Live(r, t) == Live(s, u);
    assert RequestCitations(r, t) == RequestCitations(s, u);
    assert SatisfiedGroups(r, t) == SatisfiedGroups(s, u);
    assert StaleGroups(r, t) == StaleGroups(s, u);
    assert MissingGroups(r, t) == MissingGroups(s, u);
    assert AllReasons(r, t) == AllReasons(s, u);
  }

  function IsRelevant(scope: Scope): Observation -> bool {
    (o: Observation) => Relevant(o, scope)
  }

  /** The stale groups are those of the relevant observations. */
  lemma StaleIgnores(observations: seq<Observation>, required: seq<Group>, scope: Scope, now: Time)
    ensures StaleRequired(Filter(observations, IsRelevant(scope)), required, scope, now)
         == StaleRequired(observations, required, scope, now)
  {
    hide Filter;
    var kept := Filter(observations, IsRelevant(scope));
    FilterMembers(observations, IsRelevant(scope));
    forall g ensures GroupStale(kept, g, scope, now) == GroupStale(observations, g, scope, now) {
      if GroupStale(observations, g, scope, now) {
        var o :| o in observations && ToolGroup(o.toolName) == Some(g) && MarksStale(o, scope, now);
        assert o in kept;
      }
      if GroupStale(kept, g, scope, now) {
        var o :| o in kept && ToolGroup(o.toolName) == Some(g) && MarksStale(o, scope, now);
        assert o in observations;
      }
    }
  }

  /** Dropping every out-of-scope or unsuccessful observation changes nothing. */
  lemma OnlyRelevantMatters(r: Request, now: Time)
    ensures Decide(r, now) == Decide(r.(observations := Filter(r.observations, IsRelevant(r.scope))), now)
    ensures Gate(r, now) == Gate(r.(observations := Filter(r.observations, IsRelevant(r.scope))), now)
  {
    var s := r.(observations := Filter(r.observations, IsRelevant(r.scope)));
    hide FlatMap, Filter, StaleRequired, Decide;
    FlatMapIgnores(r.observations, IsRelevant(r.scope), PairOf(r.scope, now));
    FlatMapIgnores(r.observations, IsRelevant(r.scope), ReasonOf(r.scope, now));
    StaleIgnores(r.observations, r.required, r.scope, now);
    DecisionFrom(r, now, s, now);
  }

  /** Non-interference: inserting or removing out-of-scope or unsuccessful
      observations leaves the whole decision unchanged. */
  lemma NonInterference(r: Request, s: Request, now: Time)
    requires s == r.(observations := s.observations)
    requires Filter(r.observations, IsRelevant(r.scope)) == Filter(s.observations, IsRelevant(s.scope))
    ensures Decide(r, now) == Decide(s, now) && Gate(r, now) == Gate(s, now)
  {
    hide Decide, Filter;
    OnlyRelevantMatters(r, now);
    OnlyRelevantMatters(s, now);
    assert r.(observations := Filter(r.observations, IsRelevant(r.scope)))
        == s.(observations := Filter(s.observations, IsRelevant(s.scope)));
  }

  /** A relevant observation that may be used at `now`. */
  predicate Usable(o: Observation, scope: Scope, now: Time) {
    && o.freshnessStatus == "fresh" && Complete(o) && FreshAt(o, now)
    && !HasRepeats(SourceIds(o)) && !HasRepeats(EvidenceIds(o))
    && ProjectionFits(o, scope)
  }

  lemma NoObservationReasons(observations: seq<Observation>, scope: Scope, now: Time)
    ensures FlatMap(observations, ReasonOf(scope, now)) == [] <==>
      forall o :: o in observations && Relevant(o, scope) ==> Usable(o, scope, now)
  {
    hide FlatMap, InScope, HasRepeats, SourceIds, EvidenceIds, ProjectionFits, Complete, FreshAt;
    FlatMapEmpty(observations, ReasonOf(scope, now));
    if forall o :: o in observations && Relevant(o, scope) ==> Usable(o, scope, now) {
      forall i | 0 <= i < |observations| ensures ReasonOf(scope, now)(observations[i]) == [] {
        assert observations[i] in observations;
      }
    }
    if forall i :: 0 <= i < |observations| ==> ReasonOf(scope, now)(observations[i]) == [] {
      forall o | o in observations && Relevant(o, scope) ensures Usable(o, scope, now) {
        var i :| 0 <= i < |observations| && observations[i] == o;
        assert ReasonOf(scope, now)(observations[i]) == [];
      }
    }
  }

  lemma AcceptedIsUsable(r: Request, now: Time)
    requires Decide(r, now).sufficient
    ensures forall o :: o in r.observations && Relevant(o, r.scope) ==> Usable(o, r.scope, now)
  {
    hide Decide, FlatMap, CitationReasons, ConflictReasons, KnowledgeReasons, GroupReasons, AmbiguousReasons,
      SourceReasons;
    SufficientIffNoReason(r, now);
    assert ObservationReasons(r, now) == [];
    NoObservationReasons(r.observations, r.scope, now);
  }

  lemma UsableProjects(o: Observation, scope: Scope, t: Time, u: Time)
    requires Relevant(o, scope) ==> Usable(o, scope, t) && Usable(o, scope, u)
    ensures PairOf(scope, t)(o) == PairOf(scope, u)(o)
    ensures ReasonOf(scope, t)(o) == [] == ReasonOf(scope, u)(o)
    ensures !MarksStale(o, scope, t)
  {
    hide InScope, HasRepeats, SourceIds, EvidenceIds, ProjectionFits;
  }

  /** Time convexity: what is accepted at two instants is decided identically in between. */
  lemma TimeConvexity(r: Request, t1: Time, t2: Time, t3: Time)
    requires t1 <= t2 <= t3
    requires Decide(r, t1).sufficient && Decide(r, t3).sufficient
    ensures Decide(r, t2) == Decide(r, t1) && Gate(r, t2) == Gate(r, t1)
  {
    hide Decide, FlatMap, InScope, HasRepeats, SourceIds, EvidenceIds, ProjectionFits;
    AcceptedIsUsable(r, t1);
    AcceptedIsUsable(r, t3);
    forall i | 0 <= i < |r.observations|
      ensures PairOf(r.scope, t1)(r.observations[i]) == PairOf(r.scope, t2)(r.observations[i])
      ensures ReasonOf(r.scope, t1)(r.observations[i]) == ReasonOf(r.scope, t2)(r.observations[i])
    {
      assert r.observations[i] in r.observations;
      UsableProjects(r.observations[i], r.scope, t1, t2);
    }
    FlatMapAgree(r.observations, PairOf(r.scope, t1), PairOf(r.scope, t2));
    FlatMapAgree(r.observations, ReasonOf(r.scope, t1), ReasonOf(r.scope, t2));
    StaleAgree(r, t1, t2);
    DecisionFrom(r, t1, r, t2);
  }

  lemma StaleAgree(r: Request, t: Time, u: Time)
    requires forall o :: o in r.observations && Relevant(o, r.scope) ==> Usable(o, r.scope, t) && FreshAt(o, u)
    ensures StaleRequired(r.observations, r.required, r.scope, t)
      == StaleRequired(r.observations, r.required, r.scope, u)
  {
    hide InScope, HasRepeats, SourceIds, EvidenceIds, ProjectionFits;
    forall g ensures !GroupStale(r.observations, g, r.scope, t) && !GroupStale(r.observations, g, r.scope, u) {
    }
  }

  // ----- permuted observations -----

  lemma PermutedRows(p: seq<Pair>, q: seq<Pair>)
    requires multiset(p) == multiset(q)
    ensures forall id :: |Rows(p, PairKey(), id)| == |Rows(q, PairKey(), id)|
    ensures forall x :: x in p <==> x in q
    ensures forall x :: x in FreshPairs(p) <==> x in FreshPairs(q)
  {
    hide FlatMap, Rows, FreshPairs;
    forall id ensures |Rows(p, PairKey(), id)| == |Rows(q, PairKey(), id)| {
      RowsPermute(p, q, id);
    }
    PermutedMembers(p, q);
    FreshMembers(p);
    FreshMembers(q);
  }

  lemma RowsPermute(p: seq<Pair>, q: seq<Pair>, id: string)
    requires multiset(p) == multiset(q)
    ensures |Rows(p, PairKey(), id)| == |Rows(q, PairKey(), id)|
  {
    hide FlatMap;
    FlatMapPermutes(p, q, Keep(HasKey(PairKey(), id)));
    PermutedMembers(Rows(p, PairKey(), id), Rows(q, PairKey(), id));
  }

  lemma AmbiguityPermutes(p: seq<Pair>, q: seq<Pair>)
    requires multiset(p) == multiset(q)
    requires AmbiguousReasons(p) == []
    ensures AmbiguousReasons(q) == []
  {
    hide FlatMap, Rows, Dedup;
    var ids, jds := Dedup(Keys(p, PairKey())), Dedup(Keys(q, PairKey()));
    PermutedRows(p, q);
    FlatMapPermutes(p, q, KeyOf(PairKey()));
    PermutedMembers(Keys(p, PairKey()), Keys(q, PairKey()));
    FlatMapEmpty(ids, AmbiguousRow(p));
    forall j | 0 <= j < |jds| ensures AmbiguousRow(q)(jds[j]) == [] {
      assert jds[j] in ids;
      var i :| 0 <= i < |ids| && ids[i] == jds[j];
      assert AmbiguousRow(p)(ids[i]) == [];
    }
    FlatMapEmpty(jds, AmbiguousRow(q));
  }

  /** Sources that never change kind. */
  ghost predicate Coherent(live: seq<Pair>) {
    forall p, q, s, u :: p in live && q in live && s in PairSources()(p) && u in PairSources()(q) && s.id == u.id
      ==> s.kind == u.kind
  }

  lemma SourceReasonsEmpty(live: seq<Pair>)
    ensures SourceReasons(live) == [] <==> Coherent(live)
  {
    hide FlatMap, Dedup, PairSources;
    var sources := FlatMap(live, PairSources());
    var ids := Dedup(Keys(sources, SourceKey()));
    FlatMapEmpty(ids, ClashReason(sources));
    FlatMapMembers(live, PairSources());
    KeysAt(sources, SourceKey());
    if SourceReasons(live) == [] {
      forall p, q, s, u | p in live && q in live && s in PairSources()(p) && u in PairSources()(q) && s.id == u.id
        ensures s.kind == u.kind
      {
        var a := SourceIndex(live, p, s);
        var b := SourceIndex(live, q, u);
        assert Keys(sources, SourceKey())[a] == s.id;
        assert s.id in ids;
        var i :| 0 <= i < |ids| && ids[i] == s.id;
        assert ClashReason(sources)(ids[i]) == [];
      }
    }
    if Coherent(live) {
      forall i | 0 <= i < |ids| ensures !Clashes(sources, ids[i]) {
        forall a, b | 0 <= a < |sources| && 0 <= b < |sources| && sources[a].id == ids[i] && sources[b].id == ids[i]
          ensures sources[a].kind == sources[b].kind
        {
          var m := FlatMapSource(live, PairSources(), sources[a]);
          var n := FlatMapSource(live, PairSources(), sources[b]);
          assert live[m] in live && live[n] in live;
        }
      }
    }
  }

  lemma SourceIndex(live: seq<Pair>, p: Pair, s: Source) returns (i: nat)
    requires p in live && s in PairSources()(p)
    ensures i < |FlatMap(live, PairSources())| && FlatMap(live, PairSources())[i] == s
  {
    hide FlatMap, PairSources;
    FlatMapMembers(live, PairSources());
    var k :| 0 <= k < |live| && live[k] == p;
    assert s in PairSources()(live[k]);
    assert s in FlatMap(live, PairSources());
    i :| 0 <= i < |FlatMap(live, PairSources())| && FlatMap(live, PairSources())[i] == s;
  }

  lemma ConflictsPermute(p: seq<Pair>, q: seq<Pair>, evidenceConflict: bool)
    requires forall x :: x in p <==> x in q
    ensures forall c :: c in Conflicts(p, evidenceConflict) <==> c in Conflicts(q, evidenceConflict)
  {
    hide FlatMap, Dedup;
    var f, g := FlatMap(p, ConflictOf()), FlatMap(q, ConflictOf());
    SameMembers(p, q, ConflictOf());
    assert f == [] <==> g == [] by {
      assert f != [] ==> f[0] in g;
      assert g != [] ==> g[0] in f;
    }
  }

  lemma SameMembers<R>(p: seq<Pair>, q: seq<Pair>, f: Pair -> seq<R>)
    requires forall x :: x in p <==> x in q
    ensures forall c :: c in FlatMap(p, f) <==> c in FlatMap(q, f)
  {
    hide FlatMap;
    FlatMapMembers(p, f);
    FlatMapMembers(q, f);
    forall c ensures c in FlatMap(p, f) <==> c in FlatMap(q, f) {
      if i :| 0 <= i < |p| && c in f(p[i]) {
        assert p[i] in q;
        var j :| 0 <= j < |q| && q[j] == p[i];
        assert c in f(q[j]);
      }
      if j :| 0 <= j < |q| && c in f(q[j]) {
        assert q[j] in p;
        var i :| 0 <= i < |p| && p[i] == q[j];
        assert c in f(p[i]);
      }
    }
  }

  /** Dispositions and citations depend on the set of live pairs alone. */
  lemma GroupsPermute(r: Request, s: Request, now: Time)
    requires s == r.(observations := s.observations)
    requires multiset(r.observations) == multiset(s.observations)
    ensures multiset(Pairs(r, now)) == multiset(Pairs(s, now))
    ensures forall p :: p in Live(r, now) <==> p in Live(s, now)
    ensures EligibleEvidence(Live(r, now)) == EligibleEvidence(Live(s, now))
    ensures RequestCitations(r, now) == RequestCitations(s, now)
    ensures SatisfiedGroups(r, now) == SatisfiedGroups(s, now)
    ensures StaleGroups(r, now) == StaleGroups(s, now)
    ensures MissingGroups(r, now) == MissingGroups(s, now)
  {
    hide FlatMap, FreshPairs, Eligible;
    FlatMapPermutes(r.observations, s.observations, PairOf(r.scope, now));
    PermutedRows(Pairs(r, now), Pairs(s, now));
    PermutedMembers(r.observations, s.observations);
    assert EligibleEvidence(Live(r, now)) == EligibleEvidence(Live(s, now));
    assert Observed(Live(r, now)) == Observed(Live(s, now));
  }

  lemma ReasonsPermute(r: Request, s: Request, now: Time)
    requires s == r.(observations := s.observations)
    requires multiset(r.observations) == multiset(s.observations)
    requires AllReasons(r, now) == []
    ensures AllReasons(s, now) == []
  {
    hide FlatMap, FreshPairs, CitationReasons, AmbiguousReasons, SourceReasons, Conflicts, GroupReasons;
    hide RequestCitations, MissingGroups, StaleGroups, EligibleEvidence;
    GroupsPermute(r, s, now);
    FlatMapPermutes(r.observations, s.observations, ReasonOf(r.scope, now));
    PermutedMembers(FlatMap(r.observations, ReasonOf(r.scope, now)), FlatMap(s.observations, ReasonOf(s.scope, now)));
    AmbiguityPermutes(Pairs(r, now), Pairs(s, now));
    SourceReasonsEmpty(Live(r, now));
    SourceReasonsEmpty(Live(s, now));
    assert ObservationReasons(s, now) == [];
    assert CitationReasons(s.bindings, s.attempt, EligibleEvidence(Live(s, now))) == [];
    assert ConflictReasons(s, now) == [] by {
      ConflictReasonsPermute(r, s, now);
    }
    assert Observed(Live(r, now)) == Observed(Live(s, now));
    assert KnowledgeReasons(s, now) == [];
  }

  lemma ConflictReasonsPermute(r: Request, s: Request, now: Time)
    requires s == r.(observations := s.observations)
    requires forall p :: p in Live(r, now) <==> p in Live(s, now)
    requires ConflictReasons(r, now) == []
    ensures ConflictReasons(s, now) == []
  {
    hide FlatMap, Live, Conflicts;
    var c, d := Conflicts(Live(r, now), r.evidenceConflict), Conflicts(Live(s, now), s.evidenceConflict);
    ConflictsPermute(Live(r, now), Live(s, now), r.evidenceConflict);
    NoConflictReasons(c);
    NoConflictReasons(d);
    assert c == [] <==> d == [] by {
      assert c != [] ==> c[0] in d;
      assert d != [] ==> d[0] in c;
    }
  }

  lemma NoConflictReasons(conflicts: seq<string>)
    ensures FlatMap(conflicts, ConflictReasonOf()) == [] <==> conflicts == []
  {
    FlatMapEmpty(conflicts, ConflictReasonOf());
    if conflicts != [] {
      assert ConflictReasonOf()(conflicts[0]) != [];
    }
  }

  /** Permuting the observations changes neither sufficiency, result, citations
      nor any group's disposition. */
  lemma PermutationInvariance(r: Request, s: Request, now: Time)
    requires s == r.(observations := s.observations)
    requires multiset(r.observations) == multiset(s.observations)
    ensures Unique(r.required) ==> Gate(r, now).Returned? == Gate(s, now).Returned?
    ensures Decide(r, now).sufficient == Decide(s, now).sufficient
    ensures Decide(r, now).result == Decide(s, now).result
    ensures Decide(r, now).citations == Decide(s, now).citations
    ensures Decide(r, now).satisfied == Decide(s, now).satisfied
    ensures Decide(r, now).missing == Decide(s, now).missing
    ensures Decide(r, now).stale == Decide(s, now).stale
  {
    hide AllReasons, FlatMap, Filter, Live, RequestCitations, SatisfiedGroups, MissingGroups, StaleGroups, Conflicts,
      Dedup;
    hide Contract, IdentitiesFit;
    GroupsPermute(r, s, now);
    if Unique(r.required) {
      DecisionMeetsContract(r, now);
      DecisionMeetsContract(s, now);
    }
    SufficientIffNoReason(r, now);
    SufficientIffNoReason(s, now);
    if AllReasons(r, now) == [] {
      ReasonsPermute(r, s, now);
    }
    if AllReasons(s, now) == [] {
      ReasonsPermute(s, r, now);
    }
  }
}
