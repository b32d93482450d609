/** What `decide_evidence` returns, read off its raw inputs: verdict, observations,
    citations, the disposition of every group and the error code, for sufficient and
    insufficient requests alike. */
module EvidenceOutcome {
  import opened Options
  import opened Sequences
  import opened EvidenceModel
  import opened EvidenceGate
  import opened EvidenceContract
  import opened EvidenceRuns
  import opened EvidenceTruth
  import opened EvidenceTerminal

  // ----- the verdict -----

  /** Accepted, sent back for another plan, or final; the rest of the request is echoed. */
  lemma VerdictIff(r: Request, now: Time)
    ensures var d := Decide(r, now);
      && (d.result == Accept <==> Acceptable(r, now))
      && (d.result == Replan <==> !Acceptable(r, now) && r.canReplan)
      && (d.result == Terminal <==> !Acceptable(r, now) && !r.canReplan)
      && (d.error == None <==> Acceptable(r, now))
      && d.scope == r.scope && d.providerAttemptId == r.attempt && d.required == r.required
  {
    hide Acceptable, AllReasons, MissingGroups, StaleGroups, SatisfiedGroups, RequestCitations, Live, Conflicts, Dedup,
      Filter, FlatMap, ErrorOf;
    SufficientIffAcceptable(r, now);
  }

  // ----- observations -----

  ghost predicate Hit(o: Observation, scope: Scope, now: Time, id: string) {
    Relevant(o, scope) && Usable(o, scope, now) && Identity(o) == id
  }

  /** Observation i is used: relevant, usable, and no other such one claims its identity. */
  ghost predicate LiveAt(r: Request, now: Time, i: nat) {
    && i < |r.observations| && Hit(r.observations[i], r.scope, now, Identity(r.observations[i]))
    && forall j: nat :: j < |r.observations| && j != i ==>
      !Hit(r.observations[j], r.scope, now, Identity(r.observations[i]))
  }

  function Hits(observations: seq<Observation>, scope: Scope, now: Time, id: string): nat {
    |Rows(FlatMap(observations, PairOf(scope, now)), PairKey(), id)|
  }

  lemma HitIsProjected(o: Observation, scope: Scope, now: Time, id: string)
    ensures Hit(o, scope, now, id) <==>
      Project(o, scope, now).Projected? && Project(o, scope, now).view.observationId == id
  {
    hide Project, Usable, Relevant, Identity;
    if Project(o, scope, now).Projected? {
      ProjectedIsRelevant(o, scope, now);
      UsableIsProjected(o, scope, now);
    } else if Relevant(o, scope) {
      UsableIsProjected(o, scope, now);
    }
  }

  lemma HitsStep(observations: seq<Observation>, scope: Scope, now: Time, id: string)
    requires observations != []
    ensures var n := |observations| - 1;
      Hits(observations, scope, now, id) ==
        Hits(observations[..n], scope, now, id) + if Hit(observations[n], scope, now, id) then 1 else 0
  {
    hide Hit, Project;
    var n := |observations| - 1;
    var f, last := PairOf(scope, now), observations[n];
    var before := FlatMap(observations[..n], f);
    assert FlatMap(observations, f) == before + f(last);
    HitIsProjected(last, scope, now, id);
    var p := Project(last, scope, now);
    if p.Projected? {
      RowsSnoc(before, PairKey(), Pair(last, p.view), id);
    } else {
      assert before + [] == before;
    }
  }

  lemma RowsSnoc<T>(s: seq<T>, key: T -> string, x: T, k: string)
    ensures Rows(s + [x], key, k) == Rows(s, key, k) + if key(x) == k then [x] else []
  {
    assert (s + [x])[..|s|] == s;
  }

  /** One hit, and it is the i-th. */
  lemma {:induction false} HitsOne(observations: seq<Observation>, scope: Scope, now: Time, id: string, i: nat)
    requires i < |observations| && Hit(observations[i], scope, now, id)
    ensures Hits(observations, scope, now, id) >= 1
    ensures Hits(observations, scope, now, id) == 1 <==>
      forall j: nat :: j < |observations| && j != i ==> !Hit(observations[j], scope, now, id)
    decreases |observations|
  {
    hide Hit, Hits;
    var n := |observations| - 1;
    HitsStep(observations, scope, now, id);
    if i < n {
      HitsOne(observations[..n], scope, now, id, i);
      assert forall j: nat :: j < n ==> observations[..n][j] == observations[j];
    } else {
      NoHits(observations[..n], scope, now, id);
      assert forall j: nat :: j < n ==> observations[..n][j] == observations[j];
    }
  }

  lemma {:induction false} NoHits(observations: seq<Observation>, scope: Scope, now: Time, id: string)
    ensures Hits(observations, scope, now, id) == 0 <==>
      forall j: nat :: j < |observations| ==> !Hit(observations[j], scope, now, id)
    decreases |observations|
  {
    hide Hit, Hits;
    if observations == [] {
      NothingHits(scope, now, id);
    } else {
      var n := |observations| - 1;
      HitsStep(observations, scope, now, id);
      NoHits(observations[..n], scope, now, id);
      assert forall j: nat :: j < n ==> observations[..n][j] == observations[j];
    }
  }

  lemma NothingHits(scope: Scope, now: Time, id: string)
    ensures Hits([], scope, now, id) == 0
  {
  }

  /** The live pairs are the used observations with their projections. */
  lemma LiveIff(r: Request, now: Time, p: Pair)
    ensures p in Live(r, now) <==>
      && Project(p.raw, r.scope, now) == Projected(p.view)
      && exists i: nat :: LiveAt(r, now, i) && r.observations[i] == p.raw
  {
    hide Project, FlatMap, Rows, Hit, FreshPairs, Identity;
    FreshMembers(Pairs(r, now));
    PairMembers(r.observations, r.scope, now);
    if p in Live(r, now) {
      var i :| 0 <= i < |r.observations| && r.observations[i] == p.raw;
      HitIsProjected(p.raw, r.scope, now, p.view.observationId);
      ProjectedIsRelevant(p.raw, r.scope, now);
      HitsOne(r.observations, r.scope, now, p.view.observationId, i);
      assert LiveAt(r, now, i);
    }
    if i: nat :| LiveAt(r, now, i) && r.observations[i] == p.raw && Project(p.raw, r.scope, now) == Projected(p.view) {
      HitIsProjected(p.raw, r.scope, now, Identity(p.raw));
      HitsOne(r.observations, r.scope, now, Identity(p.raw), i);
      assert p.raw in r.observations;
    }
  }

  /** A used observation has its projection among the live pairs. */
  lemma LiveAtPair(r: Request, now: Time, i: nat)
    requires LiveAt(r, now, i)
    ensures Project(r.observations[i], r.scope, now).Projected?
    ensures Pair(r.observations[i], Project(r.observations[i], r.scope, now).view) in Live(r, now)
  {
    hide Project, Hit, Live, Identity;
    var o := r.observations[i];
    HitIsProjected(o, r.scope, now, Identity(o));
    var p := Pair(o, Project(o, r.scope, now).view);
    LiveIff(r, now, p);
  }

  /** What the decision shows of an observation, column by column. */
  predicate Shows(v: FreshObservation, o: Observation, scope: Scope) {
    && v.observationId == (if o.observationId != "" then o.observationId else o.toolCallId)
    && v.toolCallId == o.toolCallId && v.toolName == o.toolName
    && v.runId == scope.runId && v.tenantId == scope.tenantId && v.customerId == scope.customerId
    && v.scopeHash == Canonical(scope.tenantId, scope.customerId)
    && o.observedAt == Some(v.observedAt) && o.freshUntil == Some(v.freshUntil)
    && v.sourceIds == SourceIds(o) && v.evidenceIds == EvidenceIds(o)
    && v.resourceVersion ==
       if o.resourceVersion.Some? || !o.data.Data? then o.resourceVersion
       else if o.data.resourceVersion != "" then Some(o.data.resourceVersion)
       else o.data.version
  }

  lemma ProjectionShows(o: Observation, scope: Scope, now: Time)
    requires Project(o, scope, now).Projected?
    ensures Shows(Project(o, scope, now).view, o, scope)
  {
    hide InScope, HasRepeats, SourceIds, EvidenceIds, ProjectionFits;
  }

  /** The observations returned are exactly the used ones, shown column by column. */
  lemma ObservationsIff(r: Request, now: Time, v: FreshObservation)
    ensures v in Decide(r, now).observations <==>
      exists i: nat :: LiveAt(r, now, i) && Shows(v, r.observations[i], r.scope)
  {
    hide Live, Project, Hit, Shows, RequestCitations, AllReasons, MissingGroups, StaleGroups, SatisfiedGroups,
      Conflicts, FlatMap;
    FlatMapMembers(Live(r, now), FreshOf());
    if v in Decide(r, now).observations {
      var k := FlatMapSource(Live(r, now), FreshOf(), v);
      var p := Live(r, now)[k];
      LiveIff(r, now, p);
      var i: nat :| LiveAt(r, now, i) && r.observations[i] == p.raw;
      ProjectionShows(p.raw, r.scope, now);
    }
    if i: nat :| LiveAt(r, now, i) && Shows(v, r.observations[i], r.scope) {
      LiveAtPair(r, now, i);
      var o := r.observations[i];
      var w := Project(o, r.scope, now).view;
      ProjectionShows(o, r.scope, now);
      ShowsOne(v, w, o, r.scope);
      var k :| 0 <= k < |Live(r, now)| && Live(r, now)[k] == Pair(o, w);
      assert v in FreshOf()(Live(r, now)[k]);
    }
  }

  lemma ShowsOne(v: FreshObservation, w: FreshObservation, o: Observation, scope: Scope)
    requires Shows(v, o, scope) && Shows(w, o, scope)
    ensures v == w
  {
  }

  // ----- citations -----

  /** Binding i is cited: named, alone with its name, of the current attempt, well-formed, and
      for evidence of a used observation. */
  ghost predicate CitedAt(r: Request, now: Time, i: nat) {
    && AdmissibleAt(r.bindings, r.attempt, i)
    && exists k: nat :: LiveAt(r, now, k) && r.bindings[i].evidenceId in EvidenceIds(r.observations[k])
  }

  ghost predicate AdmissibleAt(bindings: seq<Binding>, attempt: string, i: nat) {
    && i < |bindings| && bindings[i].bindingId != ""
    && (forall j: nat :: j < |bindings| && j != i ==> bindings[j].bindingId != bindings[i].bindingId)
    && bindings[i].providerAttemptId == Some(attempt) && CitationFits(bindings[i], attempt)
  }

  /** The citation of a binding, field by field. */
  predicate Quotes(c: Citation, b: Binding, attempt: string) {
    && c.bindingId == b.bindingId && c.providerAttemptId == attempt && c.evidenceId == b.evidenceId
    && c.documentId == b.documentId && c.chunkId == b.chunkId
    && c.contentHash == b.contentHash && c.locatorHash == b.locatorHash
  }

  lemma {:induction false} RowsNamed(bindings: seq<Binding>, id: string)
    requires id != ""
    ensures Rows(NamedBindings(bindings), BindingKey(), id) == Rows(bindings, BindingKey(), id)
    decreases |bindings|
  {
    if bindings != [] {
      var n := |bindings| - 1;
      var rest, last := bindings[..n], bindings[n];
      RowsNamed(rest, id);
      assert bindings == rest + [last];
      RowsSnoc(rest, BindingKey(), last, id);
      if last.bindingId != "" {
        assert NamedBindings(bindings) == NamedBindings(rest) + [last];
        RowsSnoc(NamedBindings(rest), BindingKey(), last, id);
      } else {
        assert NamedBindings(bindings) == NamedBindings(rest) + [];
        assert NamedBindings(rest) + [] == NamedBindings(rest);
        assert Rows(rest, BindingKey(), id) + [] == Rows(rest, BindingKey(), id);
      }
    }
  }

  /** A key has one row if and only if no other element has it; then the row is that element. */
  lemma {:induction false} OneRow<T>(s: seq<T>, key: T -> string, i: nat)
    requires i < |s|
    ensures |Rows(s, key, key(s[i]))| >= 1
    ensures |Rows(s, key, key(s[i]))| == 1 <==> forall j: nat :: j < |s| && j != i ==> key(s[j]) != key(s[i])
    ensures |Rows(s, key, key(s[i]))| == 1 ==> Rows(s, key, key(s[i])) == [s[i]]
    decreases |s|
  {
    hide Rows;
    var n := |s| - 1;
    var rest := s[..n];
    assert s == rest + [s[n]];
    RowsSnoc(rest, key, s[n], key(s[i]));
    assert forall j: nat :: j < n ==> rest[j] == s[j];
    if i < n {
      OneRow(rest, key, i);
    } else {
      KeyHasRows(rest, key, key(s[n]));
      KeysAt(rest, key);
      if Rows(rest, key, key(s[n])) != [] {
        var j :| 0 <= j < n && Keys(rest, key)[j] == key(s[n]);
        assert key(s[j]) == key(s[n]);
      } else {
        forall j: nat | j < n ensures key(s[j]) != key(s[n]) {
          assert Keys(rest, key)[j] in Keys(rest, key);
        }
      }
    }
  }

  lemma AdmittedIff(bindings: seq<Binding>, attempt: string, c: Citation)
    ensures c in Admitted(bindings, attempt) <==>
      exists i: nat :: AdmissibleAt(bindings, attempt, i) && Quotes(c, bindings[i], attempt)
  {
    hide FlatMap, Rows, Dedup, Keys, CitationFits, Filter;
    var named := NamedBindings(bindings);
    var ids, f := Dedup(Keys(named, BindingKey())), AdmittedRow(named, attempt);
    if c in Admitted(bindings, attempt) {
      var m := FlatMapSource(ids, f, c);
      var rows := Rows(named, BindingKey(), ids[m]);
      RowsMembers(named, BindingKey(), ids[m]);
      NamedMembers(bindings);
      assert rows[0] in rows;
      var b := rows[0];
      var i :| 0 <= i < |bindings| && bindings[i] == b;
      RowsNamed(bindings, b.bindingId);
      OneRow(bindings, BindingKey(), i);
      assert AdmissibleAt(bindings, attempt, i);
    }
    if i: nat :| AdmissibleAt(bindings, attempt, i) && Quotes(c, bindings[i], attempt) {
      var b := bindings[i];
      RowsNamed(bindings, b.bindingId);
      OneRow(bindings, BindingKey(), i);
      assert Rows(named, BindingKey(), b.bindingId) == [b];
      KeyHasRows(named, BindingKey(), b.bindingId);
      assert b.bindingId in ids;
      var m :| 0 <= m < |ids| && ids[m] == b.bindingId;
      assert c in f(ids[m]);
      FlatMapMembers(ids, f);
    }
  }

  lemma NamedMembers(bindings: seq<Binding>)
    ensures forall b :: b in NamedBindings(bindings) <==> b in bindings && b.bindingId != ""
  {
    FilterMembers(bindings, Named());
  }

  lemma EligibleIff(r: Request, now: Time, id: string)
    ensures id in EligibleEvidence(Live(r, now)) <==>
      exists k: nat :: LiveAt(r, now, k) && id in EvidenceIds(r.observations[k])
  {
    hide Live, Project, Hit, EvidenceIds;
    if id in EligibleEvidence(Live(r, now)) {
      var p :| p in Live(r, now) && id in p.view.evidenceIds;
      LiveIff(r, now, p);
      ProjectionShows(p.raw, r.scope, now);
    }
    if k: nat :| LiveAt(r, now, k) && id in EvidenceIds(r.observations[k]) {
      LiveAtPair(r, now, k);
      ProjectionShows(r.observations[k], r.scope, now);
      var p := Pair(r.observations[k], Project(r.observations[k], r.scope, now).view);
      assert p in Live(r, now) && id in p.view.evidenceIds;
    }
  }

  lemma CitedIff(r: Request, now: Time, c: Citation)
    ensures c in Cited(r.bindings, r.attempt, EligibleEvidence(Live(r, now))) <==>
      exists i: nat :: CitedAt(r, now, i) && Quotes(c, r.bindings[i], r.attempt)
  {
    hide Live, Admitted, EligibleEvidence, AdmissibleAt, Filter, EvidenceIds, LiveAt;
    var eligible := EligibleEvidence(Live(r, now));
    FilterMembers(Admitted(r.bindings, r.attempt), Cites(eligible));
    AdmittedIff(r.bindings, r.attempt, c);
    EligibleIff(r, now, c.evidenceId);
    AdmissibleInRange(r.bindings, r.attempt);
  }

  lemma AdmissibleInRange(bindings: seq<Binding>, attempt: string)
    ensures forall i: nat :: AdmissibleAt(bindings, attempt, i) ==> i < |bindings|
  {
  }

  /** No other cited binding claims the evidence of the i-th. */
  ghost predicate AloneAt(r: Request, now: Time, i: nat) {
    && i < |r.bindings|
    && forall j: nat :: j != i && CitedAt(r, now, j) ==> r.bindings[j].evidenceId != r.bindings[i].evidenceId
  }

  /** The citations returned are exactly the cited bindings whose evidence no other cited binding claims. */
  lemma CitationsIffBindings(r: Request, now: Time, c: Citation)
    ensures c in Decide(r, now).citations <==>
      exists i: nat :: CitedAt(r, now, i) && AloneAt(r, now, i) && Quotes(c, r.bindings[i], r.attempt)
  {
    hide Live, Cited, Filter, CitedAt, EligibleEvidence, Rows, AllReasons, MissingGroups, StaleGroups, SatisfiedGroups,
      Conflicts, FlatMap;
    var cited := Cited(r.bindings, r.attempt, EligibleEvidence(Live(r, now)));
    FilterMembers(cited, Sole(cited));
    CitedIff(r, now, c);
    CitedFacts(r, now);
    if c in Decide(r, now).citations {
      var i: nat :| CitedAt(r, now, i) && Quotes(c, r.bindings[i], r.attempt);
      forall j: nat | j != i && CitedAt(r, now, j) ensures r.bindings[j].evidenceId != r.bindings[i].evidenceId {
        var other := ToCitation(r.bindings[j], r.attempt);
        CitedIff(r, now, other);
        SoleMeans(r.bindings, r.attempt, EligibleEvidence(Live(r, now)), c, other);
      }
      assert AloneAt(r, now, i);
    }
    if i: nat :| CitedAt(r, now, i) && AloneAt(r, now, i) && Quotes(c, r.bindings[i], r.attempt) {
      forall other | other in cited && other.evidenceId == c.evidenceId ensures other == c {
        CitedIff(r, now, other);
        var j: nat :| CitedAt(r, now, j) && Quotes(other, r.bindings[j], r.attempt);
        assert j == i;
      }
      AloneIsSole(r.bindings, r.attempt, EligibleEvidence(Live(r, now)), c);
    }
  }

  lemma CitedFacts(r: Request, now: Time)
    ensures forall i: nat :: CitedAt(r, now, i) ==> i < |r.bindings|
    ensures forall i: nat, j: nat :: CitedAt(r, now, i) && CitedAt(r, now, j) && i != j ==>
      r.bindings[i].bindingId != r.bindings[j].bindingId
  {
    hide LiveAt, CitationFits, EvidenceIds;
  }

  /** A sole citation shares its evidence with no other one. */
  lemma SoleMeans(bindings: seq<Binding>, attempt: string, eligible: set<string>, c: Citation, other: Citation)
    requires var cited := Cited(bindings, attempt, eligible);
      c in cited && other in cited && Sole(cited)(c) && other.bindingId != c.bindingId
    ensures other.evidenceId != c.evidenceId
  {
    hide Cited, Rows;
    var cited := Cited(bindings, attempt, eligible);
    var k :| 0 <= k < |cited| && cited[k] == c;
    var m :| 0 <= m < |cited| && cited[m] == other;
    OneRow(cited, EvidenceKey(), k);
  }

  lemma AloneIsSole(bindings: seq<Binding>, attempt: string, eligible: set<string>, c: Citation)
    requires var cited := Cited(bindings, attempt, eligible);
      c in cited && forall other :: other in cited && other.evidenceId == c.evidenceId ==> other == c
    ensures Sole(Cited(bindings, attempt, eligible))(c)
  {
    hide Admitted, Filter, Rows, Keys;
    var cited := Cited(bindings, attempt, eligible);
    AdmittedShape(bindings, attempt);
    UniqueFilterKeys(Admitted(bindings, attempt), Cites(eligible), CitationKey());
    KeysAt(cited, CitationKey());
    hide Cited;
    var k :| 0 <= k < |cited| && cited[k] == c;
    forall j: nat | j < |cited| && j != k ensures cited[j].evidenceId != c.evidenceId {
      assert cited[j] in cited;
      assert Keys(cited, CitationKey())[j] != Keys(cited, CitationKey())[k];
    }
    OneRow(cited, EvidenceKey(), k);
  }

  // ----- groups -----

  /** Some used observation speaks for the group; for knowledge, something must be cited too. */
  ghost predicate Spoken(r: Request, now: Time, g: Group) {
    && (exists i: nat :: LiveAt(r, now, i) && Covers(r.observations[i], g))
    && (g == Knowledge ==> Decide(r, now).citations != [])
  }

  /** Some relevant observation of the group is not fresh. */
  ghost predicate Staled(r: Request, now: Time, g: Group) {
    exists i: nat :: i < |r.observations| && StaleFor(r.observations[i], r.scope, now, g)
  }

  predicate StaleFor(o: Observation, scope: Scope, now: Time, g: Group) {
    && Relevant(o, scope) && ToolGroup(o.toolName) == Some(g)
    && !(o.freshnessStatus == "fresh" && o.observedAt.Some? && o.freshUntil.Some?
         && o.observedAt.value <= now <= o.freshUntil.value)
  }

  lemma ObservedIff(r: Request, now: Time, g: Group)
    ensures g in Observed(Live(r, now)) <==> exists i: nat :: LiveAt(r, now, i) && Covers(r.observations[i], g)
  {
    hide Live, Project, Hit, EvidenceIds, ToolGroup;
    if g in Observed(Live(r, now)) {
      var p :| p in Live(r, now) && EvidenceGroup(p.view) == Some(g);
      LiveIff(r, now, p);
      ProjectionShows(p.raw, r.scope, now);
    }
    if i: nat :| LiveAt(r, now, i) && Covers(r.observations[i], g) {
      LiveAtPair(r, now, i);
      ProjectionShows(r.observations[i], r.scope, now);
      var p := Pair(r.observations[i], Project(r.observations[i], r.scope, now).view);
      assert p in Live(r, now) && EvidenceGroup(p.view) == Some(g);
    }
  }

  /** Every required group is satisfied, stale or missing, exactly as the inputs say. */
  lemma DispositionIff(r: Request, now: Time, g: Group)
    ensures var d := Decide(r, now);
      && (g in d.satisfied <==> g in r.required && Spoken(r, now, g))
      && (g in d.stale <==> g in r.required && !Spoken(r, now, g) && Staled(r, now, g))
      && (g in d.missing <==> g in r.required && !Spoken(r, now, g) && !Staled(r, now, g))
  {
    hide Live, Observed, RequestCitations, AllReasons, Conflicts, FlatMap, Filter, LiveAt, Covers, Relevant, ToolGroup,
      FreshAt;
    ObservedIff(r, now, g);
    FilterMembers(r.required, InGroups(SatisfiedGroups(r, now)));
    FilterMembers(r.required, InGroups(StaleGroups(r, now)));
    FilterMembers(r.required, InGroups(MissingGroups(r, now)));
    StaledIff(r, now, g);
  }

  lemma StaledIff(r: Request, now: Time, g: Group)
    ensures GroupStale(r.observations, g, r.scope, now) <==> Staled(r, now, g)
  {
    hide Relevant, ToolGroup;
    if GroupStale(r.observations, g, r.scope, now) {
      var o :| o in r.observations && ToolGroup(o.toolName) == Some(g) && MarksStale(o, r.scope, now);
      var i :| 0 <= i < |r.observations| && r.observations[i] == o;
    }
    if i: nat :| i < |r.observations| && StaleFor(r.observations[i], r.scope, now, g) {
      assert r.observations[i] in r.observations && MarksStale(r.observations[i], r.scope, now);
    }
  }

  // ----- raw fields -----

  /** The tool that reads a group. */
  lemma ToolGroupIff(tool: string, g: Group)
    ensures ToolGroup(tool) == Some(g) <==>
      tool == if g == Knowledge then "search_knowledge" else "query_" + GroupName(g)
  {
    NamesDiffer();
  }

  lemma NamesDiffer()
    ensures "query_" + "request_trace" == "query_request_trace" && "query_" + "billing_record" == "query_billing_record"
    ensures "query_" + "api_key_metadata" == "query_api_key_metadata"
    ensures "query_" + "subscription" == "query_subscription"
    ensures "query_" + "account" == "query_account" && "query_" + "api_usage" == "query_api_usage"
    ensures |"search_knowledge"| == 16 && |"query_request_trace"| == 19 && |"query_billing_record"| == 20
    ensures |"query_api_key_metadata"| == 22 && |"query_subscription"| == 18 && |"query_account"| == 13
    ensures |"query_api_usage"| == 15
  {
  }

  /** A relevant observation carries the scope in its columns, its hash and its trusted scope, and succeeded. */
  lemma RelevantIff(o: Observation, scope: Scope)
    ensures Relevant(o, scope) <==>
      && o.runId == Some(scope.runId) && o.tenantId == Some(scope.tenantId) && o.customerId == Some(scope.customerId)
      && o.scopeHash == Some(Canonical(scope.tenantId, scope.customerId)) && o.status == "ok"
      && o.trustedScope.Some?
      && o.trustedScope.value.tenantId == Some(scope.tenantId)
      && o.trustedScope.value.customerId == Some(scope.customerId)
      && o.trustedScope.value.hash == Some(Canonical(scope.tenantId, scope.customerId))
  {
  }

  /** The source and evidence identities an observation carries. */
  lemma CarriedIds(o: Observation, id: string)
    ensures id in SourceIds(o) <==>
      && o.sourceRefs.Refs? && id != ""
      && exists i :: 0 <= i < |o.sourceRefs.items|
           && o.sourceRefs.items[i].SourceRef? && o.sourceRefs.items[i].sourceId == id
    ensures id in EvidenceIds(o) <==>
      && o.data.Data? && o.data.evidence.Evidence? && id != ""
      && exists i :: 0 <= i < |o.data.evidence.items| && o.data.evidence.items[i].EvidenceItem?
           && o.data.evidence.items[i].evidenceId == id && o.data.evidence.items[i].spanEligible
  {
    if o.sourceRefs.Refs? {
      FlatMapMembers(o.sourceRefs.items, RefSource());
    }
    if o.data.Data? && o.data.evidence.Evidence? {
      FlatMapMembers(o.data.evidence.items, ItemId());
    }
  }

  /** A usable observation is marked fresh, covers the moment, is named within bounds, and
      repeats no source or evidence identity. */
  lemma UsableIff(o: Observation, scope: Scope, now: Time)
    ensures Usable(o, scope, now) <==>
      && o.freshnessStatus == "fresh" && o.toolCallId != "" && o.toolName != ""
      && o.observedAt.Some? && o.freshUntil.Some? && o.observedAt.value <= now <= o.freshUntil.value
      && Unique(SourceIds(o)) && Unique(EvidenceIds(o))
      && |o.toolCallId| <= 128 && |o.toolName| <= 128
      && (if o.observationId == "" then true else |o.observationId| <= 128)
      && 1 <= |scope.runId| <= 128 && 1 <= |scope.tenantId| <= 128 && 1 <= |scope.customerId| <= 128
  {
    hide SourceIds, EvidenceIds;
  }

  /** A well-formed binding: texts within their bounds and two digests of 64 lower-case hex digits. */
  lemma CitationFitsIff(b: Binding, attempt: string)
    ensures CitationFits(b, attempt) <==>
      && 1 <= |b.bindingId| <= 128 && 1 <= |attempt| <= 128 && 1 <= |b.evidenceId| <= 256
      && 1 <= |b.documentId| <= 256 && 1 <= |b.chunkId| <= 256
      && |b.contentHash| == 64 && |b.locatorHash| == 64
      && forall c :: c in b.contentHash + b.locatorHash ==> c in "0123456789abcdef"
  {
    HexIff(b.contentHash);
    HexIff(b.locatorHash);
  }

  lemma HexIff(s: string)
    ensures IsHash(s) <==> |s| == 64 && forall c :: c in s ==> c in "0123456789abcdef"
  {
    forall c: char ensures c in "0123456789abcdef" <==> ('0' <= c <= '9' || 'a' <= c <= 'f') {
      HexDigit(c);
    }
    if |s| == 64 && forall c :: c in s ==> c in "0123456789abcdef" {
      forall i | 0 <= i < 64 ensures '0' <= s[i] <= '9' || 'a' <= s[i] <= 'f' {
        assert s[i] in s;
      }
    }
  }

  lemma HexDigit(c: char)
    ensures c in "0123456789abcdef" <==> ('0' <= c <= '9' || 'a' <= c <= 'f')
  {
    var digits := "0123456789abcdef";
    if '0' <= c <= '9' {
      assert digits[c as int - '0' as int] == c;
    }
    if 'a' <= c <= 'f' {
      assert digits[10 + c as int - 'a' as int] == c;
    }
  }
}
