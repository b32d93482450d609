/** When `_eligible_citations` has no objection. */
module EvidenceCitations {
  import opened Options
  import opened Sequences
  import opened EvidenceModel
  import opened EvidenceGate
  import opened EvidenceTruth

  ghost predicate SoundBinding(b: Binding, attempt: string) {
    b.bindingId != "" && b.providerAttemptId == Some(attempt) && CitationFits(b, attempt)
  }

  /** Every binding is named, current, well-formed and eligible, and no two share an identity. */
  ghost predicate SoundBindings(bindings: seq<Binding>, attempt: string, eligible: set<string>) {
    && (forall i :: 0 <= i < |bindings| ==> SoundBinding(bindings[i], attempt) && bindings[i].evidenceId in eligible)
    && (forall i, j :: 0 <= i < j < |bindings| ==>
          bindings[i].bindingId != bindings[j].bindingId && bindings[i].evidenceId != bindings[j].evidenceId)
  }

  lemma {:induction false} FilterAll<T>(s: seq<T>, p: T -> bool)
    requires forall i :: 0 <= i < |s| ==> p(s[i])
    ensures Filter(s, p) == s
  {
    if s != [] {
      var t := s[..|s| - 1];
      assert forall i :: 0 <= i < |t| ==> t[i] == s[i];
      FilterAll(t, p);
      assert s == t + [s[|s| - 1]];
    }
  }

  lemma {:induction false} DedupUnique(s: seq<string>)
    requires Unique(s)
    ensures Dedup(s) == s
  {
    if s != [] {
      var t := s[..|s| - 1];
      DedupUnique(t);
      assert s == t + [s[|s| - 1]];
    }
  }

  /** A list built from one element per input lines up with its input. */
  lemma {:induction false} SinglesAt<T, R>(s: seq<T>, f: T -> seq<R>)
    requires forall i :: 0 <= i < |s| ==> |f(s[i])| == 1
    ensures |FlatMap(s, f)| == |s|
    ensures forall i :: 0 <= i < |s| ==> FlatMap(s, f)[i] == f(s[i])[0]
  {
    if s != [] {
      var t := s[..|s| - 1];
      assert forall i :: 0 <= i < |t| ==> t[i] == s[i];
      SinglesAt(t, f);
    }
  }

  lemma AllNamed(bindings: seq<Binding>)
    ensures FlatMap(bindings, MissingIdentity()) == [] <==>
      forall i :: 0 <= i < |bindings| ==> bindings[i].bindingId != ""
    ensures FlatMap(bindings, MissingIdentity()) == [] ==> NamedBindings(bindings) == bindings
  {
    hide FlatMap, Filter;
    FlatMapEmpty(bindings, MissingIdentity());
    if forall i :: 0 <= i < |bindings| ==> bindings[i].bindingId != "" {
      FilterAll(bindings, Named());
    } else {
      var i :| 0 <= i < |bindings| && bindings[i].bindingId == "";
      assert MissingIdentity()(bindings[i]) != [];
    }
  }

  lemma OwnRow(bindings: seq<Binding>, i: nat)
    requires i < |bindings|
    ensures Rows(bindings, BindingKey(), bindings[i].bindingId) != []
    ensures |Rows(bindings, BindingKey(), bindings[i].bindingId)| == 1 ==>
      Rows(bindings, BindingKey(), bindings[i].bindingId) == [bindings[i]]
  {
    hide Rows;
    RowsMembers(bindings, BindingKey(), bindings[i].bindingId);
    assert bindings[i] in Rows(bindings, BindingKey(), bindings[i].bindingId);
  }

  lemma BindingReasonsIff(bindings: seq<Binding>, attempt: string)
    ensures FlatMap(Dedup(Keys(bindings, BindingKey())), BindingReason(bindings, attempt)) == [] <==>
      && Unique(Keys(bindings, BindingKey()))
      && forall i :: 0 <= i < |bindings| ==>
        bindings[i].providerAttemptId == Some(attempt) && CitationFits(bindings[i], attempt)
  {
    hide FlatMap, Rows, Dedup, Keys, CitationFits;
    var keys := Keys(bindings, BindingKey());
    var ids := Dedup(keys);
    FlatMapEmpty(ids, BindingReason(bindings, attempt));
    UniqueIffSingleRows(bindings, BindingKey());
    KeysAt(bindings, BindingKey());
    if FlatMap(ids, BindingReason(bindings, attempt)) == [] {
      forall k ensures |Rows(bindings, BindingKey(), k)| <= 1 {
        KeyHasRows(bindings, BindingKey(), k);
        if k in ids {
          var j :| 0 <= j < |ids| && ids[j] == k;
          assert BindingReason(bindings, attempt)(ids[j]) == [];
        }
      }
      forall i | 0 <= i < |bindings|
        ensures bindings[i].providerAttemptId == Some(attempt) && CitationFits(bindings[i], attempt)
      {
        OwnRow(bindings, i);
        assert keys[i] in ids;
        var j :| 0 <= j < |ids| && ids[j] == keys[i];
        assert BindingReason(bindings, attempt)(ids[j]) == [];
      }
    }
    if Unique(keys) && forall i :: 0 <= i < |bindings| ==>
         bindings[i].providerAttemptId == Some(attempt) && CitationFits(bindings[i], attempt) {
      forall j | 0 <= j < |ids| ensures BindingReason(bindings, attempt)(ids[j]) == [] {
        assert ids[j] in keys;
        var i :| 0 <= i < |keys| && keys[i] == ids[j];
        OwnRow(bindings, i);
        assert |Rows(bindings, BindingKey(), ids[j])| <= 1;
      }
    }
  }

  /** Sound bindings are admitted one for one, in order. */
  lemma AdmittedAt(bindings: seq<Binding>, attempt: string)
    requires forall i :: 0 <= i < |bindings| ==> SoundBinding(bindings[i], attempt)
    requires Unique(Keys(bindings, BindingKey()))
    ensures |Admitted(bindings, attempt)| == |bindings|
    ensures forall i :: 0 <= i < |bindings| ==> Admitted(bindings, attempt)[i] == ToCitation(bindings[i], attempt)
  {
    hide FlatMap, Rows, Dedup, Keys, CitationFits, NamedBindings;
    var keys := Keys(bindings, BindingKey());
    AllNamed(bindings);
    DedupUnique(keys);
    KeysAt(bindings, BindingKey());
    UniqueIffSingleRows(bindings, BindingKey());
    forall i | 0 <= i < |bindings|
      ensures AdmittedRow(bindings, attempt)(keys[i]) == [ToCitation(bindings[i], attempt)]
    {
      OwnRow(bindings, i);
      assert |Rows(bindings, BindingKey(), keys[i])| <= 1;
    }
    SinglesAt(keys, AdmittedRow(bindings, attempt));
  }

  lemma SharedIff(cited: seq<Citation>)
    ensures FlatMap(SortTexts(FlatMap(cited, SharedBinding(cited))), AmbiguityReason()) == [] <==>
      Unique(Keys(cited, EvidenceKey()))
    ensures Unique(Keys(cited, EvidenceKey())) ==> Filter(cited, Sole(cited)) == cited
  {
    hide FlatMap, Rows, Keys, Filter;
    var shared := FlatMap(cited, SharedBinding(cited));
    var sorted := SortTexts(shared);
    assert |multiset(sorted)| == |multiset(shared)|;
    FlatMapEmpty(sorted, AmbiguityReason());
    if sorted != [] {
      assert AmbiguityReason()(sorted[0]) != [];
    }
    FlatMapEmpty(cited, SharedBinding(cited));
    UniqueIffSingleRows(cited, EvidenceKey());
    if Unique(Keys(cited, EvidenceKey())) {
      forall i | 0 <= i < |cited| ensures Sole(cited)(cited[i]) {
        assert |Rows(cited, EvidenceKey(), cited[i].evidenceId)| <= 1;
      }
      FilterAll(cited, Sole(cited));
    }
    if shared == [] {
      forall k ensures |Rows(cited, EvidenceKey(), k)| <= 1 {
        KeyHasRows(cited, EvidenceKey(), k);
        KeysAt(cited, EvidenceKey());
        if k in Keys(cited, EvidenceKey()) {
          var i :| 0 <= i < |cited| && cited[i].evidenceId == k;
          assert SharedBinding(cited)(cited[i]) == [] && Sole(cited)(cited[i]);
        }
      }
    }
  }

  lemma EligibleIff(admitted: seq<Citation>, eligible: set<string>)
    ensures FlatMap(admitted, NotEligible(eligible)) == [] <==>
      forall i :: 0 <= i < |admitted| ==> admitted[i].evidenceId in eligible
    ensures FlatMap(admitted, NotEligible(eligible)) == [] ==> Filter(admitted, Cites(eligible)) == admitted
  {
    hide FlatMap, Filter;
    FlatMapEmpty(admitted, NotEligible(eligible));
    if forall i :: 0 <= i < |admitted| ==> admitted[i].evidenceId in eligible {
      FilterAll(admitted, Cites(eligible));
    } else {
      var i :| 0 <= i < |admitted| && admitted[i].evidenceId !in eligible;
      assert NotEligible(eligible)(admitted[i]) != [];
    }
  }

  lemma {:induction false} CitationReasonsIff(bindings: seq<Binding>, attempt: string, eligible: set<string>)
    ensures CitationReasons(bindings, attempt, eligible) == [] <==> SoundBindings(bindings, attempt, eligible)
    ensures SoundBindings(bindings, attempt, eligible) ==> |Eligible(bindings, attempt, eligible)| == |bindings|
  {
    hide FlatMap, Filter, Dedup, Keys, Admitted, CitationFits, NamedBindings, SortTexts;
    AllNamed(bindings);
    BindingReasonsIff(bindings, attempt);
    KeysAt(bindings, BindingKey());
    if (forall i :: 0 <= i < |bindings| ==> SoundBinding(bindings[i], attempt))
       && Unique(Keys(bindings, BindingKey())) {
      var admitted := Admitted(bindings, attempt);
      AdmittedAt(bindings, attempt);
      EligibleIff(admitted, eligible);
      var cited := Cited(bindings, attempt, eligible);
      SharedIff(cited);
      KeysAt(cited, EvidenceKey());
      if forall i :: 0 <= i < |bindings| ==> bindings[i].evidenceId in eligible {
        assert forall i :: 0 <= i < |admitted| ==> admitted[i].evidenceId == bindings[i].evidenceId;
        assert cited == admitted;
        assert forall i :: 0 <= i < |bindings| ==> Keys(cited, EvidenceKey())[i] == bindings[i].evidenceId;
      } else {
        var i :| 0 <= i < |bindings| && bindings[i].evidenceId !in eligible;
        assert admitted[i].evidenceId !in eligible;
      }
    }
  }
}
