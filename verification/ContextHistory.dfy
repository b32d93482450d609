/** Which history entries survive: de-duplication, the protected latest pair and
    budgeted selection.  Entries are followed by their index in the flattened
    history, so that every one of them can be accounted for. */
module ContextHistory {
  import opened Sequences
  import opened ContextModel

  // ----- accounting -----

  ghost predicate Increasing(s: seq<nat>) {
    forall i, j :: 0 <= i < j < |s| ==> s[i] < s[j]
  }

  predicate Within(s: seq<nat>, n: nat) {
    forall k :: 0 <= k < |s| ==> s[k] < n
  }

  /** Every index below n is in exactly one of the two lists, once. */
  ghost predicate Partition(kept: seq<nat>, dropped: seq<nat>, n: nat) {
    && Unique(kept) && Unique(dropped) && Within(kept, n) && Within(dropped, n)
    && (forall i :: i in kept ==> i !in dropped)
    && (forall i :: 0 <= i < n ==> i in kept || i in dropped)
  }

  /** `history` holds the marked entries at `kept`, in order; `omitted` has one
      record for each entry at `dropped`. */
  ghost predicate Accounts(codec: Codec, flat: seq<Dict>, pair: set<nat>, history: seq<Dict>, omitted: seq<Omission>,
                           kept: seq<nat>, dropped: seq<nat>)
  {
    && Partition(kept, dropped, |flat|)
    && Increasing(kept)
    && |kept| == |history| && Records(codec, flat, dropped, omitted)
    && (forall k :: 0 <= k < |kept| ==> kept[k] < |flat| && history[k] == Marked(flat[kept[k]], kept[k] in pair))
    && (forall i :: i in pair ==> i in kept)
  }

  /** An omission record of `d`, with a reason fit for its kind. */
  ghost predicate RecordOf(codec: Codec, d: Dict, o: Omission) {
    && o == HistoryOmission(codec, d, o.reason)
    && (IsMessage(d) <==> o.reason in {DuplicateMessageId, SectionBudgetOlderMessage, GlobalBudgetMessage})
  }

  /** All records give this cause. */
  ghost predicate AllCaused(omitted: seq<Omission>, cause: Cause) {
    forall k :: 0 <= k < |omitted| ==> CauseOf(omitted[k].reason) == cause
  }

  /** `omitted` has one record for each entry at `dropped`. */
  ghost predicate Records(codec: Codec, flat: seq<Dict>, dropped: seq<nat>, omitted: seq<Omission>) {
    && |dropped| == |omitted|
    && forall k :: 0 <= k < |dropped| ==> dropped[k] < |flat| && RecordOf(codec, flat[dropped[k]], omitted[k])
  }

  lemma RecordsMore(codec: Codec, flat: seq<Dict>, dropped: seq<nat>, omitted: seq<Omission>, i: nat, o: Omission)
    requires Records(codec, flat, dropped, omitted)
    requires i < |flat| && RecordOf(codec, flat[i], o)
    ensures Records(codec, flat, dropped + [i], omitted + [o])
  {
    hide RecordOf;
  }

  lemma RecordMade(codec: Codec, d: Dict, reason: Reason)
    requires IsMessage(d) <==> reason in {DuplicateMessageId, SectionBudgetOlderMessage, GlobalBudgetMessage}
    ensures RecordOf(codec, d, HistoryOmission(codec, d, reason)) && HistoryOmission(codec, d, reason).reason == reason
  {
  }

  lemma PartitionMove(kept: seq<nat>, dropped: seq<nat>, n: nat, p: nat)
    requires Partition(kept, dropped, n) && p < |kept|
    ensures Partition(kept[..p] + kept[p + 1..], dropped + [kept[p]], n)
  {
    var kept', dropped' := kept[..p] + kept[p + 1..], dropped + [kept[p]];
    assert kept[p] in kept;
    forall i ensures i in kept' <==> i in kept && i != kept[p] {
      if i in kept && i != kept[p] {
        var k :| 0 <= k < |kept| && kept[k] == i;
        assert if k < p then kept'[k] == i else kept'[k - 1] == i;
      }
    }
    forall i | 0 <= i < n ensures i in kept' || i in dropped' {
      assert dropped'[|dropped|] == kept[p];
      if i in dropped {
        var k :| 0 <= k < |dropped| && dropped[k] == i;
        assert dropped'[k] == i;
      }
    }
  }

  /** Moving one unprotected entry from the packet to the omission list keeps the accounts. */
  lemma AccountsEvict(codec: Codec, flat: seq<Dict>, pair: set<nat>, history: seq<Dict>, omitted: seq<Omission>,
                      kept: seq<nat>, dropped: seq<nat>, p: nat, reason: Reason)
    requires Accounts(codec, flat, pair, history, omitted, kept, dropped)
    requires p < |history| && !Protected(history[p])
    requires reason == if IsMessage(history[p]) then GlobalBudgetMessage else GlobalBudgetSummary
    ensures Accounts(codec, flat, pair, history[..p] + history[p + 1..],
                     omitted + [HistoryOmission(codec, history[p], reason)],
                     kept[..p] + kept[p + 1..], dropped + [kept[p]])
  {
    hide HistoryOmission, Marked, Protected, IsMessage, Records, RecordOf;
    PartitionMove(kept, dropped, |flat|, p);
    MarkedProtection(flat[kept[p]], kept[p] in pair);
    MarkedOmission(codec, flat[kept[p]], kept[p] in pair, reason);
    assert kept[p] !in pair;
    RecordMade(codec, flat[kept[p]], reason);
    RecordsMore(codec, flat, dropped, omitted, kept[p], HistoryOmission(codec, flat[kept[p]], reason));
    forall i | i in pair ensures i in kept[..p] + kept[p + 1..] {
      var k :| 0 <= k < |kept| && kept[k] == i;
      assert if k < p then (kept[..p] + kept[p + 1..])[k] == i else (kept[..p] + kept[p + 1..])[k - 1] == i;
    }
  }

  // ----- de-duplication -----

  function MessageId(codec: Codec, d: Dict): string {
    codec.text(Get(d, "message_id"))
  }

  datatype Identity = Identity(role: Json, content: string)

  function IdentityOf(codec: Codec, d: Dict): Identity {
    Identity(Get(d, "role"), if "content" in d then codec.text(d["content"]) else "")
  }

  /** Two messages agree when their roles and the texts of their contents do; a missing role
      is null, a missing content the empty text. */
  lemma IdentityIff(codec: Codec, a: Dict, b: Dict)
    ensures IdentityOf(codec, a) == IdentityOf(codec, b) <==>
      && (if "role" in a then a["role"] else Null) == (if "role" in b then b["role"] else Null)
      && (if "content" in a then codec.text(a["content"]) else "")
         == (if "content" in b then codec.text(b["content"]) else "")
  {
  }

  /** Two entries the de-duplication takes for one. */
  predicate SameEntry(codec: Codec, a: Dict, b: Dict) {
    if IsMessage(a) then IsMessage(b) && MessageId(codec, a) == MessageId(codec, b)
    else !IsMessage(b) && a == b
  }

  predicate Seen(codec: Codec, flat: seq<Dict>, indices: seq<nat>, d: Dict)
    requires Within(indices, |flat|)
  {
    exists k :: 0 <= k < |indices| && SameEntry(codec, flat[indices[k]], d)
  }

  /** First occurrences, in order. */
  function Survivors(codec: Codec, flat: seq<Dict>): (r: seq<nat>)
    ensures Increasing(r) && Within(r, |flat|)
  {
    if flat == [] then []
    else
      var n := |flat| - 1;
      var r := Survivors(codec, flat[..n]);
      if Seen(codec, flat, r, flat[n]) then r else r + [n]
  }

  function Pick(flat: seq<Dict>, indices: seq<nat>): (r: seq<Dict>)
    requires Within(indices, |flat|)
    ensures |r| == |indices| && forall k :: 0 <= k < |r| ==> r[k] == flat[indices[k]]
  {
    seq(|indices|, k requires 0 <= k < |indices| => flat[indices[k]])
  }

  ghost predicate DistinctEntries(codec: Codec, entries: seq<Dict>) {
    forall i, j :: 0 <= i < j < |entries| ==> !SameEntry(codec, entries[i], entries[j])
  }

  lemma {:induction false} SurvivorsDistinct(codec: Codec, flat: seq<Dict>)
    ensures DistinctEntries(codec, Pick(flat, Survivors(codec, flat)))
  {
    hide SameEntry;
    if flat != [] {
      var n := |flat| - 1;
      var r, s := Survivors(codec, flat[..n]), Survivors(codec, flat);
      SurvivorsDistinct(codec, flat[..n]);
      var p, q := Pick(flat[..n], r), Pick(flat, s);
      forall i, j | 0 <= i < j < |q| ensures !SameEntry(codec, q[i], q[j]) {
        assert q[i] == p[i];
        if j < |r| {
          assert q[j] == p[j];
        }
      }
    }
  }

  datatype Normal = Normal(entries: seq<Dict>, omitted: seq<Omission>)

  /** Something the second loop of `_normalize_history` raises on. */
  ghost predicate Unnormalisable(codec: Codec, flat: seq<Dict>) {
    || (exists i :: 0 <= i < |flat| && IsMessage(flat[i]) && "message_id" !in flat[i])
    || (exists i, j :: 0 <= i < j < |flat| && IsMessage(flat[i]) && IsMessage(flat[j])
          && MessageId(codec, flat[i]) == MessageId(codec, flat[j])
          && IdentityOf(codec, flat[i]) != IdentityOf(codec, flat[j]))
  }

  /** What the loop remembers: message identities by id, and the other entries seen. */
  ghost predicate Remembers(codec: Codec, flat: seq<Dict>, kept: seq<nat>,
                            seenIds: map<string, Identity>, seenOther: set<Dict>)
    requires Within(kept, |flat|)
  {
    && (forall id :: id in seenIds ==> Recorded(codec, flat, kept, id, seenIds[id]))
    && (forall k :: 0 <= k < |kept| ==>
          if IsMessage(flat[kept[k]]) then MessageId(codec, flat[kept[k]]) in seenIds else flat[kept[k]] in seenOther)
    && (forall d :: d in seenOther ==> exists k :: 0 <= k < |kept| && !IsMessage(flat[kept[k]]) && flat[kept[k]] == d)
  }

  ghost predicate Recorded(codec: Codec, flat: seq<Dict>, kept: seq<nat>, id: string, identity: Identity)
    requires Within(kept, |flat|)
  {
    exists k :: 0 <= k < |kept| && IsMessage(flat[kept[k]])
      && MessageId(codec, flat[kept[k]]) == id && IdentityOf(codec, flat[kept[k]]) == identity
  }

  lemma SeenIff(codec: Codec, flat: seq<Dict>, kept: seq<nat>, seenIds: map<string, Identity>, seenOther: set<Dict>,
                d: Dict)
    requires Within(kept, |flat|) && Remembers(codec, flat, kept, seenIds, seenOther)
    ensures Seen(codec, flat, kept, d) <==> if IsMessage(d) then MessageId(codec, d) in seenIds else d in seenOther
  {
    hide MessageId, IsMessage, IdentityOf;
    if IsMessage(d) && MessageId(codec, d) in seenIds {
      assert Recorded(codec, flat, kept, MessageId(codec, d), seenIds[MessageId(codec, d)]);
    }
  }

  lemma RemembersMore(codec: Codec, flat: seq<Dict>, kept: seq<nat>, seenIds: map<string, Identity>,
                      seenOther: set<Dict>, i: nat)
    requires i < |flat| && Within(kept, |flat|) && Remembers(codec, flat, kept, seenIds, seenOther)
    requires IsMessage(flat[i]) ==> MessageId(codec, flat[i]) !in seenIds
    ensures if IsMessage(flat[i])
            then Remembers(codec, flat, kept + [i],
                           seenIds[MessageId(codec, flat[i]) := IdentityOf(codec, flat[i])], seenOther)
            else Remembers(codec, flat, kept + [i], seenIds, seenOther + {flat[i]})
  {
    hide MessageId, IsMessage, IdentityOf;
    var more := kept + [i];
    assert forall k :: 0 <= k < |kept| ==> more[k] == kept[k];
    assert more[|kept|] == i;
    forall id | id in seenIds ensures Recorded(codec, flat, more, id, seenIds[id]) {
      var k :| 0 <= k < |kept| && IsMessage(flat[kept[k]])
        && MessageId(codec, flat[kept[k]]) == id && IdentityOf(codec, flat[kept[k]]) == seenIds[id];
      assert IsMessage(flat[more[k]]);
    }
    forall d | d in seenOther ensures exists k :: 0 <= k < |more| && !IsMessage(flat[more[k]]) && flat[more[k]] == d {
      var k :| 0 <= k < |kept| && !IsMessage(flat[kept[k]]) && flat[kept[k]] == d;
      assert flat[more[k]] == d;
    }
    if IsMessage(flat[i]) {
      assert Recorded(codec, flat, more, MessageId(codec, flat[i]), IdentityOf(codec, flat[i])) by {
        assert IsMessage(flat[more[|kept|]]);
      }
    }
  }

  /** What the loop has done with the first n entries. */
  ghost predicate Progress(codec: Codec, flat: seq<Dict>, n: nat, done: Normal, kept: seq<nat>, dropped: seq<nat>,
                           seenIds: map<string, Identity>, seenOther: set<Dict>)
  {
    && n <= |flat|
    && kept == Survivors(codec, flat[..n]) && Within(kept, |flat|)
    && done.entries == Pick(flat, kept)
    && Partition(kept, dropped, n)
    && Records(codec, flat, dropped, done.omitted) && AllCaused(done.omitted, Repeats)
    && Remembers(codec, flat, kept, seenIds, seenOther)
    && Consistent(codec, flat, n, seenIds)
  }

  lemma DropEntry(codec: Codec, flat: seq<Dict>, n: nat, done: Normal, kept: seq<nat>, dropped: seq<nat>,
                  seenIds: map<string, Identity>, seenOther: set<Dict>, reason: Reason)
    requires n < |flat| && Progress(codec, flat, n, done, kept, dropped, seenIds, seenOther)
    requires if IsMessage(flat[n])
             then "message_id" in flat[n] && MessageId(codec, flat[n]) in seenIds
               && seenIds[MessageId(codec, flat[n])] == IdentityOf(codec, flat[n]) && reason == DuplicateMessageId
             else flat[n] in seenOther && reason == DuplicateSummary
    ensures Progress(codec, flat, n + 1, done.(omitted := done.omitted + [HistoryOmission(codec, flat[n], reason)]),
                     kept, dropped + [n], seenIds, seenOther)
  {
    hide HistoryOmission, Seen, Remembers, IdentityOf, MessageId, IsMessage, Consistent, Partition, Records, RecordOf;
    SeenIff(codec, flat, kept, seenIds, seenOther, flat[n]);
    SurvivorsStep(codec, flat, n);
    PartitionGrow(kept, dropped, n);
    ConsistentLater(codec, flat, n, seenIds);
    RecordMade(codec, flat[n], reason);
    RecordsMore(codec, flat, dropped, done.omitted, n, HistoryOmission(codec, flat[n], reason));
  }

  lemma KeepEntry(codec: Codec, flat: seq<Dict>, n: nat, done: Normal, kept: seq<nat>, dropped: seq<nat>,
                  seenIds: map<string, Identity>, seenOther: set<Dict>)
    requires n < |flat| && Progress(codec, flat, n, done, kept, dropped, seenIds, seenOther)
    ensures IsMessage(flat[n]) && "message_id" in flat[n] && MessageId(codec, flat[n]) !in seenIds ==>
      Progress(codec, flat, n + 1, done.(entries := done.entries + [flat[n]]), kept + [n], dropped,
               seenIds[MessageId(codec, flat[n]) := IdentityOf(codec, flat[n])], seenOther)
    ensures !IsMessage(flat[n]) && flat[n] !in seenOther ==>
      Progress(codec, flat, n + 1, done.(entries := done.entries + [flat[n]]), kept + [n], dropped,
               seenIds, seenOther + {flat[n]})
  {
    hide Seen, IdentityOf, MessageId, IsMessage;
    KnownParts(codec, flat, n, done, kept, dropped, seenIds, seenOther);
    hide Progress, Remembers, Consistent;
    SeenIff(codec, flat, kept, seenIds, seenOther, flat[n]);
    ConsistentLater(codec, flat, n, seenIds);
    RemembersLater(codec, flat, kept, seenIds, seenOther, n);
    if IsMessage(flat[n]) && "message_id" in flat[n] && MessageId(codec, flat[n]) !in seenIds {
      var ids := seenIds[MessageId(codec, flat[n]) := IdentityOf(codec, flat[n])];
      KeepUnseen(codec, flat, n, done, kept, dropped, seenIds, seenOther, ids, seenOther);
    }
    if !IsMessage(flat[n]) && flat[n] !in seenOther {
      KeepUnseen(codec, flat, n, done, kept, dropped, seenIds, seenOther, seenIds, seenOther + {flat[n]});
    }
  }

  lemma KnownParts(codec: Codec, flat: seq<Dict>, n: nat, done: Normal, kept: seq<nat>, dropped: seq<nat>,
                   seenIds: map<string, Identity>, seenOther: set<Dict>)
    requires Progress(codec, flat, n, done, kept, dropped, seenIds, seenOther)
    ensures Within(kept, |flat|) && Remembers(codec, flat, kept, seenIds, seenOther)
    ensures Consistent(codec, flat, n, seenIds)
  {
  }

  /** An entry not seen before is kept, whatever the loop remembers of it. */
  lemma KeepUnseen(codec: Codec, flat: seq<Dict>, n: nat, done: Normal, kept: seq<nat>, dropped: seq<nat>,
                   seenIds: map<string, Identity>, seenOther: set<Dict>, ids: map<string, Identity>, other: set<Dict>)
    requires n < |flat| && Progress(codec, flat, n, done, kept, dropped, seenIds, seenOther)
    requires Within(kept, |flat|) && !Seen(codec, flat, kept, flat[n])
    requires Remembers(codec, flat, kept + [n], ids, other) && Consistent(codec, flat, n + 1, ids)
    ensures Progress(codec, flat, n + 1, done.(entries := done.entries + [flat[n]]), kept + [n], dropped, ids, other)
  {
    hide Seen, Remembers, Consistent, Partition, Records, AllCaused;
    SurvivorsStep(codec, flat, n);
    PartitionGrow(kept, dropped, n);
    assert Pick(flat, kept + [n]) == Pick(flat, kept) + [flat[n]];
  }

  lemma Conflicting(codec: Codec, flat: seq<Dict>, n: nat, done: Normal, kept: seq<nat>, dropped: seq<nat>,
                    seenIds: map<string, Identity>, seenOther: set<Dict>)
    requires n < |flat| && Progress(codec, flat, n, done, kept, dropped, seenIds, seenOther) && IsMessage(flat[n])
    requires MessageId(codec, flat[n]) in seenIds && seenIds[MessageId(codec, flat[n])] != IdentityOf(codec, flat[n])
    ensures Unnormalisable(codec, flat)
  {
    hide Remembers, IdentityOf, MessageId, IsMessage, Unnormalisable;
    PartitionGrow(kept, dropped, n);
    ConflictFound(codec, flat, kept, seenIds, seenOther, n);
  }

  /** The second loop of `_normalize_history`. */
  method Normalise(codec: Codec, flat: seq<Dict>) returns (r: Result<Normal>, ghost dropped: seq<nat>)
    ensures r.Failure? <==> Unnormalisable(codec, flat)
    ensures r.Failure? ==> r.error.HistoryKeyMissing? || r.error.HistoryIdentityConflict?
    ensures r.Success? ==> r.value.entries == Pick(flat, Survivors(codec, flat))
    ensures r.Success? ==> Partition(Survivors(codec, flat), dropped, |flat|)
    ensures r.Success? ==> Records(codec, flat, dropped, r.value.omitted) && AllCaused(r.value.omitted, Repeats)
  {
    hide HistoryOmission, IdentityOf, MessageId, IsMessage, Unnormalisable, Progress;
    var done := Normal([], []);
    var seenIds: map<string, Identity>, seenOther: set<Dict> := map[], {};
    dropped := [];
    ghost var kept: seq<nat> := [];
    NothingYet(codec, flat);
    for i := 0 to |flat|
      invariant Progress(codec, flat, i, done, kept, dropped, seenIds, seenOther)
    {
      var value := flat[i];
      KeepEntry(codec, flat, i, done, kept, dropped, seenIds, seenOther);
      if IsMessage(value) {
        if "message_id" !in value {
          NamelessMessage(codec, flat, i);
          return Failure(HistoryKeyMissing), dropped;
        }
        var id, identity := MessageId(codec, value), IdentityOf(codec, value);
        if id in seenIds {
          if seenIds[id] != identity {
            Conflicting(codec, flat, i, done, kept, dropped, seenIds, seenOther);
            return Failure(HistoryIdentityConflict(id)), dropped;
          }
          DropEntry(codec, flat, i, done, kept, dropped, seenIds, seenOther, DuplicateMessageId);
          done := done.(omitted := done.omitted + [HistoryOmission(codec, value, DuplicateMessageId)]);
          dropped := dropped + [i];
          continue;
        }
        seenIds := seenIds[id := identity];
      } else {
        if value in seenOther {
          DropEntry(codec, flat, i, done, kept, dropped, seenIds, seenOther, DuplicateSummary);
          done := done.(omitted := done.omitted + [HistoryOmission(codec, value, DuplicateSummary)]);
          dropped := dropped + [i];
          continue;
        }
        seenOther := seenOther + {value};
      }
      done := done.(entries := done.entries + [value]);
      kept := kept + [i];
    }
    AllDone(codec, flat, done, kept, dropped, seenIds, seenOther);
    r := Success(done);
  }

  lemma AllDone(codec: Codec, flat: seq<Dict>, done: Normal, kept: seq<nat>, dropped: seq<nat>,
                seenIds: map<string, Identity>, seenOther: set<Dict>)
    requires Progress(codec, flat, |flat|, done, kept, dropped, seenIds, seenOther)
    ensures !Unnormalisable(codec, flat) && kept == Survivors(codec, flat)
      && done.entries == Pick(flat, Survivors(codec, flat))
    ensures Partition(kept, dropped, |flat|)
    ensures Records(codec, flat, dropped, done.omitted) && AllCaused(done.omitted, Repeats)
  {
    hide Remembers, Consistent, Partition, Records, Unnormalisable;
    assert flat[..|flat|] == flat;
    ConsistentIsNormal(codec, flat, seenIds);
  }

  /** Every message so far has an id, and the identity remembered for it. */
  ghost predicate Consistent(codec: Codec, flat: seq<Dict>, n: nat, seenIds: map<string, Identity>)
    requires n <= |flat|
  {
    forall j :: 0 <= j < n && IsMessage(flat[j]) ==>
      && "message_id" in flat[j] && MessageId(codec, flat[j]) in seenIds
      && seenIds[MessageId(codec, flat[j])] == IdentityOf(codec, flat[j])
  }

  lemma ConsistentLater(codec: Codec, flat: seq<Dict>, i: nat, seenIds: map<string, Identity>)
    requires i < |flat| && Consistent(codec, flat, i, seenIds)
    ensures !IsMessage(flat[i]) ==> Consistent(codec, flat, i + 1, seenIds)
    ensures IsMessage(flat[i]) && "message_id" in flat[i] ==>
      var id := MessageId(codec, flat[i]);
      && (id in seenIds && seenIds[id] == IdentityOf(codec, flat[i]) ==> Consistent(codec, flat, i + 1, seenIds))
      && (id !in seenIds ==> Consistent(codec, flat, i + 1, seenIds[id := IdentityOf(codec, flat[i])]))
  {
    hide IdentityOf, MessageId, IsMessage;
  }

  lemma NamelessMessage(codec: Codec, flat: seq<Dict>, i: nat)
    requires i < |flat| && IsMessage(flat[i]) && "message_id" !in flat[i]
    ensures Unnormalisable(codec, flat)
  {
    hide IsMessage;
  }

  lemma ConsistentIsNormal(codec: Codec, flat: seq<Dict>, seenIds: map<string, Identity>)
    requires Consistent(codec, flat, |flat|, seenIds)
    ensures !Unnormalisable(codec, flat)
  {
    hide IdentityOf, MessageId, IsMessage;
  }

  lemma NothingYet(codec: Codec, flat: seq<Dict>)
    ensures Progress(codec, flat, 0, Normal([], []), [], [], map[], {})
  {
  }

  lemma RemembersLater(codec: Codec, flat: seq<Dict>, kept: seq<nat>, seenIds: map<string, Identity>,
                       seenOther: set<Dict>, i: nat)
    requires i < |flat| && Within(kept, |flat|) && Remembers(codec, flat, kept, seenIds, seenOther)
    ensures IsMessage(flat[i]) && MessageId(codec, flat[i]) !in seenIds ==>
      Remembers(codec, flat, kept + [i], seenIds[MessageId(codec, flat[i]) := IdentityOf(codec, flat[i])], seenOther)
    ensures !IsMessage(flat[i]) ==> Remembers(codec, flat, kept + [i], seenIds, seenOther + {flat[i]})
  {
    hide Remembers, IdentityOf, MessageId, IsMessage;
    if !IsMessage(flat[i]) || MessageId(codec, flat[i]) !in seenIds {
      RemembersMore(codec, flat, kept, seenIds, seenOther, i);
    }
  }

  lemma SurvivorsStep(codec: Codec, flat: seq<Dict>, i: nat)
    requires i < |flat|
    ensures var r := Survivors(codec, flat[..i]);
      && Within(r, |flat|)
      && Survivors(codec, flat[..i + 1]) == if Seen(codec, flat, r, flat[i]) then r else r + [i]
  {
    hide SameEntry;
    var r := Survivors(codec, flat[..i]);
    assert flat[..i + 1][..i] == flat[..i];
    assert Seen(codec, flat[..i + 1], r, flat[i]) <==> Seen(codec, flat, r, flat[i]);
  }

  lemma PartitionGrow(kept: seq<nat>, dropped: seq<nat>, n: nat)
    requires Partition(kept, dropped, n)
    ensures Within(kept, n) && Within(dropped, n)
    ensures Partition(kept + [n], dropped, n + 1) && Partition(kept, dropped + [n], n + 1)
  {
    assert n !in kept && n !in dropped;
    assert (kept + [n])[|kept|] == n && (dropped + [n])[|dropped|] == n;
    forall i | 0 <= i < n + 1
      ensures i in kept + [n] || i in dropped
      ensures i in kept || i in dropped + [n]
    {
    }
  }

  lemma ConflictFound(codec: Codec, flat: seq<Dict>, kept: seq<nat>, seenIds: map<string, Identity>,
                      seenOther: set<Dict>, i: nat)
    requires i < |flat| && Within(kept, i) && Remembers(codec, flat, kept, seenIds, seenOther)
    requires IsMessage(flat[i]) && MessageId(codec, flat[i]) in seenIds
    requires seenIds[MessageId(codec, flat[i])] != IdentityOf(codec, flat[i])
    ensures Unnormalisable(codec, flat)
  {
    hide IdentityOf, MessageId, IsMessage;
    assert Recorded(codec, flat, kept, MessageId(codec, flat[i]), seenIds[MessageId(codec, flat[i])]);
  }
}
