/** What makes a request acceptable, stated on the raw inputs of `decide_evidence`. */
module EvidenceTruth {
  import opened Options
  import opened Sequences
  import opened EvidenceModel
  import opened EvidenceGate
  import opened EvidenceContract
  import opened EvidenceRuns

  // ----- the condition -----

  ghost predicate AllUsable(r: Request, now: Time) {
    forall o :: o in r.observations && Relevant(o, r.scope) ==> Usable(o, r.scope, now)
  }

  /** No two successful observations of this scope claim one identity. */
  ghost predicate UniquelyIdentified(r: Request) {
    forall i, j ::
      0 <= i < j < |r.observations| && Relevant(r.observations[i], r.scope) && Relevant(r.observations[j], r.scope) ==>
        Identity(r.observations[i]) != Identity(r.observations[j])
  }

  ghost predicate HasSource(o: Observation, id: string, kind: string) {
    o.sourceRefs.Refs? && id != "" && SourceRef(id, kind) in o.sourceRefs.items
  }

  /** No source identity is used with two source types. */
  ghost predicate NoSourceClash(r: Request) {
    forall o, q, id, k, l ::
      o in r.observations && q in r.observations && Relevant(o, r.scope) && Relevant(q, r.scope) &&
      HasSource(o, id, k) && HasSource(q, id, l) ==>
        k == l
  }

  /** The conflict an observation declares, "" for none. */
  function Declared(o: Observation): string {
    if !o.data.Data? then ""
    else if o.data.refusalReason != "" then o.data.refusalReason
    else if o.data.conflict then "knowledge_conflict"
    else ""
  }

  /** Every conflict is the explainable one, and a flagged conflict is a declared one. */
  ghost predicate ConflictsExplained(r: Request) {
    && (forall o :: o in r.observations && Relevant(o, r.scope) && Declared(o) != "" ==>
          r.explainable && Declared(o) == UNRESOLVED_VERSIONS)
    && (r.evidenceConflict ==> exists o :: o in r.observations && Relevant(o, r.scope) && Declared(o) != "")
  }

  ghost predicate EvidenceSeen(r: Request, id: string) {
    exists o :: o in r.observations && Relevant(o, r.scope) && id in EvidenceIds(o)
  }

  /** Every citation is current, well-formed, unique and tied to eligible evidence. */
  ghost predicate CitationsSound(r: Request) {
    && (forall b :: b in r.bindings ==>
          b.bindingId != "" && b.providerAttemptId == Some(r.attempt) && CitationFits(b, r.attempt)
          && EvidenceSeen(r, b.evidenceId))
    && (forall i, j :: 0 <= i < j < |r.bindings| ==>
          r.bindings[i].bindingId != r.bindings[j].bindingId && r.bindings[i].evidenceId != r.bindings[j].evidenceId)
  }

  ghost predicate Covers(o: Observation, g: Group) {
    ToolGroup(o.toolName) == Some(g) && (g == Knowledge ==> EvidenceIds(o) != [])
  }

  ghost predicate Covered(r: Request, g: Group) {
    exists o :: o in r.observations && Relevant(o, r.scope) && Covers(o, g)
  }

  ghost predicate Acceptable(r: Request, now: Time) {
    && AllUsable(r, now)
    && UniquelyIdentified(r)
    && NoSourceClash(r)
    && ConflictsExplained(r)
    && CitationsSound(r)
    && (Covered(r, Knowledge) ==> r.bindings != [])
    && (forall g :: g in r.required ==> Covered(r, g))
  }

  // ----- observations -----

  lemma UsableIsProjected(o: Observation, scope: Scope, now: Time)
    requires Relevant(o, scope)
    ensures Usable(o, scope, now) <==> Project(o, scope, now).Projected?
    ensures Usable(o, scope, now) ==> var v := Project(o, scope, now).view;
      v.observationId == Identity(o) && v.toolName == o.toolName && v.evidenceIds == EvidenceIds(o)
  {
    hide InScope, HasRepeats, SourceIds, EvidenceIds, ProjectionFits;
  }

  lemma ProjectedIsRelevant(o: Observation, scope: Scope, now: Time)
    requires Project(o, scope, now).Projected?
    ensures Relevant(o, scope) && Project(o, scope, now).view.observationId == Identity(o)
  {
    hide InScope, HasRepeats, SourceIds, EvidenceIds, ProjectionFits;
  }

  /** Pair identities repeat exactly when projected observation identities do. */
  lemma {:induction false} PairIdentities(observations: seq<Observation>, scope: Scope, now: Time)
    ensures Unique(Keys(FlatMap(observations, PairOf(scope, now)), PairKey())) <==>
      forall i, j ::
        0 <= i < j < |observations| &&
        Project(observations[i], scope, now).Projected? && Project(observations[j], scope, now).Projected? ==>
          Identity(observations[i]) != Identity(observations[j])
    decreases |observations|
  {
    hide Project, Identity;
    if observations != [] {
      var f, n := PairOf(scope, now), |observations| - 1;
      var prefix, last := observations[..n], observations[n];
      assert observations == prefix + [last];
      PairIdentities(prefix, scope, now);
      var before, all := FlatMap(prefix, f), FlatMap(observations, f);
      assert all == before + f(last);
      KeysAt(before, PairKey());
      KeysAt(all, PairKey());
      KnownIdentities(prefix, scope, now);
      if Project(last, scope, now).Projected? {
        ProjectedIsRelevant(last, scope, now);
        var ids := Keys(all, PairKey());
        assert ids == Keys(before, PairKey()) + [Identity(last)];
        UniqueSnoc(Keys(before, PairKey()), Identity(last));
      } else {
        assert all == before;
      }
    }
  }

  lemma UniqueSnoc(s: seq<string>, x: string)
    ensures Unique(s + [x]) <==> Unique(s) && x !in s
  {
    if Unique(s + [x]) {
      forall i, j | 0 <= i < j < |s| ensures s[i] != s[j] {
        assert (s + [x])[i] == s[i] && (s + [x])[j] == s[j];
      }
      forall i | 0 <= i < |s| ensures s[i] != x {
        assert (s + [x])[i] == s[i] && (s + [x])[|s|] == x;
      }
    }
  }

  lemma KnownIdentities(observations: seq<Observation>, scope: Scope, now: Time)
    ensures forall id :: id in Keys(FlatMap(observations, PairOf(scope, now)), PairKey()) <==>
      exists i :: 0 <= i < |observations| && Project(observations[i], scope, now).Projected?
        && Identity(observations[i]) == id
  {
    hide FlatMap, Project, Identity;
    var pairs := FlatMap(observations, PairOf(scope, now));
    PairMembers(observations, scope, now);
    KeysAt(pairs, PairKey());
    var ids := Keys(pairs, PairKey());
    forall id ensures id in ids <==>
      exists i :: 0 <= i < |observations| && Project(observations[i], scope, now).Projected?
        && Identity(observations[i]) == id
    {
      if id in ids {
        var k :| 0 <= k < |ids| && ids[k] == id;
        assert pairs[k] in pairs;
        var i :| 0 <= i < |observations| && observations[i] == pairs[k].raw;
        ProjectedIsRelevant(observations[i], scope, now);
      }
      if i :|
        0 <= i < |observations| && Project(observations[i], scope, now).Projected? && Identity(observations[i]) == id
      {
        ProjectedIsRelevant(observations[i], scope, now);
        var p := Pair(observations[i], Project(observations[i], scope, now).view);
        assert p in pairs;
        var k :| 0 <= k < |pairs| && pairs[k] == p;
        assert ids[k] == id;
      }
    }
  }

  /** Keys are unique iff no key has two rows. */
  lemma {:induction false} UniqueIffSingleRows<T>(s: seq<T>, key: T -> string)
    ensures Unique(Keys(s, key)) <==> forall k :: |Rows(s, key, k)| <= 1
    decreases |s|
  {
    if s != [] {
      var t, last := s[..|s| - 1], s[|s| - 1];
      UniqueIffSingleRows(t, key);
      UniqueSnoc(Keys(t, key), key(last));
      KeyHasRows(t, key, key(last));
      forall k ensures Rows(s, key, k) == Rows(t, key, k) + (if key(last) == k then [last] else []) {
      }
      if Unique(Keys(s, key)) {
        forall k ensures |Rows(s, key, k)| <= 1 {
          assert |Rows(t, key, k)| <= 1;
        }
      }
      if forall k :: |Rows(s, key, k)| <= 1 {
        forall k ensures |Rows(t, key, k)| <= 1 {
          assert |Rows(s, key, k)| <= 1;
        }
        assert |Rows(s, key, key(last))| <= 1;
      }
    }
  }

  lemma {:induction false} KeyHasRows<T>(s: seq<T>, key: T -> string, k: string)
    ensures k in Keys(s, key) <==> Rows(s, key, k) != []
  {
    if s != [] {
      KeyHasRows(s[..|s| - 1], key, k);
    }
  }

  lemma AmbiguousIffRepeated(pairs: seq<Pair>)
    ensures AmbiguousReasons(pairs) == [] <==> Unique(Keys(pairs, PairKey()))
  {
    hide FlatMap, Rows, Dedup, Keys;
    var ids := Dedup(Keys(pairs, PairKey()));
    FlatMapEmpty(ids, AmbiguousRow(pairs));
    UniqueIffSingleRows(pairs, PairKey());
    if AmbiguousReasons(pairs) == [] {
      forall k ensures |Rows(pairs, PairKey(), k)| <= 1 {
        KeyHasRows(pairs, PairKey(), k);
        if k in ids {
          var i :| 0 <= i < |ids| && ids[i] == k;
          assert AmbiguousRow(pairs)(ids[i]) == [];
        }
      }
    }
    if Unique(Keys(pairs, PairKey())) {
      forall i | 0 <= i < |ids| ensures AmbiguousRow(pairs)(ids[i]) == [] {
        assert ids[i] in ids;
        KeyHasRows(pairs, PairKey(), ids[i]);
        assert |Rows(pairs, PairKey(), ids[i])| <= 1;
      }
    }
  }

  /** With usable, uniquely identified observations, the live pairs are exactly the relevant ones. */
  lemma LiveExactly(r: Request, now: Time)
    requires AllUsable(r, now)
    requires AmbiguousReasons(Pairs(r, now)) == []
    ensures forall p :: p in Live(r, now) <==>
      p.raw in r.observations && Relevant(p.raw, r.scope) && Project(p.raw, r.scope, now) == Projected(p.view)
    ensures forall o :: o in r.observations && Relevant(o, r.scope) ==>
      Project(o, r.scope, now).Projected? && Pair(o, Project(o, r.scope, now).view) in Live(r, now)
  {
    hide FlatMap, Rows, FreshPairs, Project, Relevant, Usable, AmbiguousReasons;
    var pairs := Pairs(r, now);
    AmbiguousIffRepeated(pairs);
    UniqueIffSingleRows(pairs, PairKey());
    FreshMembers(pairs);
    PairMembers(r.observations, r.scope, now);
    forall p | p in pairs ensures |Rows(pairs, PairKey(), p.view.observationId)| == 1 && Relevant(p.raw, r.scope) {
      RowsMembers(pairs, PairKey(), p.view.observationId);
      assert p in Rows(pairs, PairKey(), p.view.observationId);
      ProjectedIsRelevant(p.raw, r.scope, now);
    }
    forall o | o in r.observations && Relevant(o, r.scope)
      ensures Project(o, r.scope, now).Projected? && Pair(o, Project(o, r.scope, now).view) in Live(r, now)
    {
      UsableIsProjected(o, r.scope, now);
      assert Pair(o, Project(o, r.scope, now).view) in pairs;
    }
  }

  lemma IdentitiesIff(r: Request, now: Time)
    requires AllUsable(r, now)
    ensures AmbiguousReasons(Pairs(r, now)) == [] <==> UniquelyIdentified(r)
  {
    hide FlatMap, Project, Identity, Relevant, Usable, AmbiguousReasons;
    AmbiguousIffRepeated(Pairs(r, now));
    PairIdentities(r.observations, r.scope, now);
    forall i | 0 <= i < |r.observations|
      ensures Project(r.observations[i], r.scope, now).Projected? <==> Relevant(r.observations[i], r.scope)
    {
      assert r.observations[i] in r.observations;
      if Relevant(r.observations[i], r.scope) {
        UsableIsProjected(r.observations[i], r.scope, now);
      }
      if Project(r.observations[i], r.scope, now).Projected? {
        ProjectedIsRelevant(r.observations[i], r.scope, now);
      }
    }
  }

  lemma PairSourceIff(p: Pair, s: Source)
    ensures s in PairSources()(p) <==> HasSource(p.raw, s.id, s.kind)
  {
    hide FlatMap;
    if p.raw.sourceRefs.Refs? {
      var items := p.raw.sourceRefs.items;
      FlatMapMembers(items, SourceOf());
      if HasSource(p.raw, s.id, s.kind) {
        var i :| 0 <= i < |items| && items[i] == SourceRef(s.id, s.kind);
        assert s in SourceOf()(items[i]);
      }
      if s in PairSources()(p) {
        var i :| 0 <= i < |items| && s in SourceOf()(items[i]);
        assert items[i] in items;
      }
    }
  }

  lemma SourcesIff(r: Request, now: Time)
    requires AllUsable(r, now) && AmbiguousReasons(Pairs(r, now)) == []
    ensures SourceReasons(Live(r, now)) == [] <==> NoSourceClash(r)
  {
    hide FlatMap, Live, Project, Relevant, Usable, AmbiguousReasons, SourceReasons, PairSources, HasSource;
    var live := Live(r, now);
    LiveExactly(r, now);
    SourceReasonsEmpty(live);
    if Coherent(live) {
      forall o, q, id, k, l | o in r.observations && q in r.observations && Relevant(o, r.scope) && Relevant(q, r.scope)
        && HasSource(o, id, k) && HasSource(q, id, l)
        ensures k == l
      {
        var p, t := Pair(o, Project(o, r.scope, now).view), Pair(q, Project(q, r.scope, now).view);
        PairSourceIff(p, Source(id, k));
        PairSourceIff(t, Source(id, l));
      }
    }
    if NoSourceClash(r) {
      forall p, q, s, u | p in live && q in live && s in PairSources()(p) && u in PairSources()(q) && s.id == u.id
        ensures s.kind == u.kind
      {
        PairSourceIff(p, s);
        PairSourceIff(q, u);
      }
    }
  }

  lemma ConflictsIff(r: Request, now: Time)
    requires AllUsable(r, now) && AmbiguousReasons(Pairs(r, now)) == []
    ensures ConflictReasons(r, now) == [] <==> ConflictsExplained(r)
  {
    hide FlatMap, Live, Project, Relevant, Usable, AmbiguousReasons, Dedup;
    var live := Live(r, now);
    var found := FlatMap(live, ConflictOf());
    var conflicts := Conflicts(live, r.evidenceConflict);
    LiveExactly(r, now);
    NoConflictReasons(conflicts);
    FoundConflicts(r, now);
    assert found == [] <==> forall c :: c !in found by {
      assert found != [] ==> found[0] in found;
    }
    assert conflicts == [] <==> forall c :: c !in conflicts by {
      assert conflicts != [] ==> conflicts[0] in conflicts;
    }
    if found == [] && r.evidenceConflict {
      assert "evidence_conflict" in conflicts;
      assert "evidence_conflict" != UNRESOLVED_VERSIONS;
      forall o | o in r.observations && Relevant(o, r.scope) ensures Declared(o) == "" {
        assert Declared(o) !in found;
      }
    } else {
      assert forall c :: c in conflicts <==> c in found;
      if ConflictReasons(r, now) == [] {
        forall o | o in r.observations && Relevant(o, r.scope) && Declared(o) != ""
          ensures r.explainable && Declared(o) == UNRESOLVED_VERSIONS
        {
          assert Declared(o) in conflicts;
        }
        if r.evidenceConflict {
          assert found[0] in found;
        }
      }
      if ConflictsExplained(r) && conflicts != [] {
        forall c | c in conflicts ensures r.explainable && c == UNRESOLVED_VERSIONS {
          assert c in found;
        }
        assert conflicts[0] in conflicts;
      }
    }
  }

  lemma FoundConflicts(r: Request, now: Time)
    requires AllUsable(r, now) && AmbiguousReasons(Pairs(r, now)) == []
    ensures forall c :: c in FlatMap(Live(r, now), ConflictOf()) <==>
      c != "" && exists o :: o in r.observations && Relevant(o, r.scope) && Declared(o) == c
  {
    hide FlatMap, Live, Project, Relevant, Usable, AmbiguousReasons;
    var live := Live(r, now);
    LiveExactly(r, now);
    FlatMapMembers(live, ConflictOf());
    forall c ensures c in FlatMap(live, ConflictOf()) <==>
      c != "" && exists o :: o in r.observations && Relevant(o, r.scope) && Declared(o) == c
    {
      if c in FlatMap(live, ConflictOf()) {
        var i := FlatMapSource(live, ConflictOf(), c);
        assert live[i] in live && Declared(live[i].raw) == c;
      }
      if c != "" && exists o :: o in r.observations && Relevant(o, r.scope) && Declared(o) == c {
        var o :| o in r.observations && Relevant(o, r.scope) && Declared(o) == c;
        var p := Pair(o, Project(o, r.scope, now).view);
        var i :| 0 <= i < |live| && live[i] == p;
        assert c in ConflictOf()(live[i]);
      }
    }
  }
}
