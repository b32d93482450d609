/** The sections `assemble` packs: protected lists, the latest pair and the history
    selected within its budget. */
module ContextAssembler {
  import opened Sequences
  import opened ContextModel
  import opened ContextHistory

  datatype Budget = Budget(maxInput: int, evidence: int, tool: int, history: int, outputReserve: int)

  // ----- the latest customer/response pair -----

  datatype Found = Nowhere | At(index: nat)

  /** The last index below `bound` satisfying `p`. */
  function LastBelow(values: seq<Dict>, p: Dict -> bool, bound: nat): (r: Found)
    requires bound <= |values|
    ensures r.At? ==> r.index < bound && p(values[r.index]) && forall j :: r.index < j < bound ==> !p(values[j])
    ensures r.Nowhere? ==> forall j :: 0 <= j < bound ==> !p(values[j])
  {
    if bound == 0 then Nowhere
    else if p(values[bound - 1]) then At(bound - 1)
    else LastBelow(values, p, bound - 1)
  }

  /** r ends in the last response, if there is one, and holds the last request before
      it, or the last request of all, if there is one; nothing else. */
  ghost predicate IsLatestPair(values: seq<Dict>, r: seq<nat>)
    requires Within(r, |values|)
  {
    var answered := exists i :: 0 <= i < |values| && IsResponse(values[i]);
    && (answered ==> LastOf(values, r, |r| - 1, |values|, (d: Dict) => IsResponse(d)))
    && var bound := if answered then r[|r| - 1] else |values|;
       var asked := exists i :: 0 <= i < bound && IsRequest(values[i]);
       && (asked ==> LastOf(values, r, 0, bound, (d: Dict) => IsRequest(d)))
       && |r| == (if answered then 1 else 0) + (if asked then 1 else 0)
  }

  /** r[k] is the last index below `bound` satisfying `p`. */
  ghost predicate LastOf(values: seq<Dict>, r: seq<nat>, k: int, bound: nat, p: Dict -> bool)
    requires Within(r, |values|)
  {
    && 0 <= k < |r| && r[k] < bound && p(values[r[k]])
    && forall i :: 0 <= i < |values| && i < bound && p(values[i]) ==> i <= r[k]
  }

  /** `_latest_pair_indices`: the last response with the last request before it, a
      response alone, or the last request when there is no response. */
  function LatestPair(values: seq<Dict>): (r: seq<nat>)
    ensures Increasing(r) && Within(r, |values|)
    ensures forall k :: 0 <= k < |r| ==> IsMessage(values[r[k]])
  {
    var response := LastBelow(values, (d: Dict) => IsResponse(d), |values|);
    var request := LastBelow(values, (d: Dict) => IsRequest(d), if response.At? then response.index else |values|);
    (if request.At? then [request.index] else []) + (if response.At? then [response.index] else [])
  }

  lemma LatestPairIsLatest(values: seq<Dict>)
    ensures IsLatestPair(values, LatestPair(values))
  {
    hide IsMessage, IsResponse, IsRequest;
    var r := LatestPair(values);
    var response := LastBelow(values, (d: Dict) => IsResponse(d), |values|);
    var bound := if response.At? then response.index else |values|;
    var request := LastBelow(values, (d: Dict) => IsRequest(d), bound);
    assert r == (if request.At? then [request.index] else []) + (if response.At? then [response.index] else []);
  }

  // ----- selection within the history budget -----

  function UpTo(n: nat): (r: seq<nat>)
    ensures |r| == n && forall k :: 0 <= k < n ==> r[k] == k
  {
    seq(n, k => k)
  }

  function DownFrom(n: nat): (r: seq<nat>)
    ensures |r| == n && forall k :: 0 <= k < n ==> r[k] == n - 1 - k
  {
    seq(n, (k: int) requires 0 <= k < n => n - 1 - k)
  }

  predicate IsCurrentSummary(d: Dict) {
    Get(d, "history_kind") == Str("ticket_summary") && Get(d, "current_ticket") == Bool(true)
  }

  function CurrentSummaries(values: seq<Dict>, pair: seq<nat>): nat -> bool {
    (i: nat) => i < |values| && i !in pair && IsCurrentSummary(values[i])
  }

  function OlderMessages(values: seq<Dict>, pair: seq<nat>): nat -> bool {
    (i: nat) => i < |values| && i !in pair && IsMessage(values[i])
  }

  function OtherSummaries(values: seq<Dict>, pair: seq<nat>): nat -> bool {
    (i: nat) => i < |values| && i !in pair && !IsMessage(values[i]) && !IsCurrentSummary(values[i])
  }

  /** Current summaries oldest first, then messages newest first, then other summaries newest first. */
  function CandidateOrder(values: seq<Dict>, pair: seq<nat>): seq<nat> {
    Filter(UpTo(|values|), CurrentSummaries(values, pair))
    + Filter(DownFrom(|values|), OlderMessages(values, pair))
    + Filter(DownFrom(|values|), OtherSummaries(values, pair))
  }

  lemma OrderCoversRest(values: seq<Dict>, pair: seq<nat>)
    ensures Unique(CandidateOrder(values, pair)) && Within(CandidateOrder(values, pair), |values|)
    ensures forall i: nat :: i in CandidateOrder(values, pair) <==> i < |values| && i !in pair
  {
    hide Filter;
    var n := |values|;
    var a := Filter(UpTo(n), CurrentSummaries(values, pair));
    var b := Filter(DownFrom(n), OlderMessages(values, pair));
    var c := Filter(DownFrom(n), OtherSummaries(values, pair));
    UniqueFilter(UpTo(n), CurrentSummaries(values, pair));
    UniqueFilter(DownFrom(n), OlderMessages(values, pair));
    UniqueFilter(DownFrom(n), OtherSummaries(values, pair));
    FilterMembers(UpTo(n), CurrentSummaries(values, pair));
    FilterMembers(DownFrom(n), OlderMessages(values, pair));
    FilterMembers(DownFrom(n), OtherSummaries(values, pair));
    forall i: nat | i < n ensures i in UpTo(n) && i in DownFrom(n) {
      assert UpTo(n)[i] == i && DownFrom(n)[n - 1 - i] == i;
    }
    SummaryIsNoMessage();
    forall i: nat ensures i in a + b + c <==> i < n && i !in pair {
    }
    forall k | 0 <= k < |a + b + c| ensures (a + b + c)[k] < n {
      assert (a + b + c)[k] in a + b + c;
    }
    UniqueConcat(a, b);
    UniqueConcat(a + b, c);
  }

  /** Priority of a candidate: current summaries, then messages, then other summaries. */
  function Rank(d: Dict): nat {
    if IsCurrentSummary(d) then 0 else if IsMessage(d) then 1 else 2
  }

  /** A current summary says so with the value true. */
  lemma RankMeans(d: Dict)
    ensures Rank(d) == 0 <==>
      && "history_kind" in d && d["history_kind"] == Str("ticket_summary")
      && "current_ticket" in d && d["current_ticket"] == Bool(true)
    ensures Rank(d) == 1 <==> "history_kind" in d && d["history_kind"] == Str("message")
  {
    assert "ticket_summary"[0] == 't' && "message"[0] == 'm';
  }

  predicate Precedes(values: seq<Dict>, i: nat, j: nat)
    requires i < |values| && j < |values|
  {
    || Rank(values[i]) < Rank(values[j])
    || (Rank(values[i]) == Rank(values[j]) && if Rank(values[i]) == 0 then i < j else i > j)
  }

  /** Candidates come in order of priority: current summaries oldest first, the rest newest first. */
  lemma OrderIsPriority(values: seq<Dict>, pair: seq<nat>, p: nat, q: nat)
    requires p < q < |CandidateOrder(values, pair)|
    ensures var order := CandidateOrder(values, pair);
      order[p] < |values| && order[q] < |values| && Precedes(values, order[p], order[q])
  {
    hide Filter, IsCurrentSummary, IsMessage;
    var n := |values|;
    var a := Filter(UpTo(n), CurrentSummaries(values, pair));
    var b := Filter(DownFrom(n), OlderMessages(values, pair));
    var c := Filter(DownFrom(n), OtherSummaries(values, pair));
    SummaryIsNoMessage();
    FilterInOrder(UpTo(n), CurrentSummaries(values, pair), true);
    FilterInOrder(DownFrom(n), OlderMessages(values, pair), false);
    FilterInOrder(DownFrom(n), OtherSummaries(values, pair), false);
    assert CandidateOrder(values, pair) == a + b + c;
  }

  /** Filtering a monotone list gives a monotone list of members that pass. */
  lemma {:induction false} FilterInOrder(s: seq<nat>, p: nat -> bool, up: bool)
    requires forall i, j :: 0 <= i < j < |s| ==> if up then s[i] < s[j] else s[i] > s[j]
    ensures var r := Filter(s, p);
      && (forall i :: 0 <= i < |r| ==> r[i] in s && p(r[i]))
      && (forall i, j :: 0 <= i < j < |r| ==> if up then r[i] < r[j] else r[i] > r[j])
  {
    hide Filter;
    if s == [] {
      FilterNothing(p);
    } else {
      var m := |s| - 1;
      FilterInOrder(s[..m], p, up);
      FilterStep(s, p);
      FilterMembers(s, p);
    }
  }

  lemma FilterNothing(p: nat -> bool)
    ensures Filter<nat>([], p) == []
  {
  }

  lemma FilterStep(s: seq<nat>, p: nat -> bool)
    requires s != []
    ensures Filter(s, p) == Filter(s[..|s| - 1], p) + if p(s[|s| - 1]) then [s[|s| - 1]] else []
  {
    FlatMapStep(s, |s| - 1, Keep(p));
    assert s[..|s|] == s;
  }

  lemma SummaryIsNoMessage()
    ensures forall d: Dict :: IsCurrentSummary(d) ==> !IsMessage(d)
  {
    assert Str("ticket_summary") != Str("message") by {
      assert |"ticket_summary"| != |"message"|;
    }
  }

  lemma UniqueConcat(a: seq<nat>, b: seq<nat>)
    requires Unique(a) && Unique(b) && forall i :: i in a ==> i !in b
    ensures Unique(a + b)
  {
    forall i, j | 0 <= i < j < |a + b| ensures (a + b)[i] != (a + b)[j] {
      if i < |a| <= j {
        assert a[i] in a && b[j - |a|] in b;
      }
    }
  }

  /** The tokens of the chosen entries. */
  function Cost(codec: Codec, values: seq<Dict>, chosen: set<nat>): nat {
    if values == [] then 0
    else
      var n := |values| - 1;
      Cost(codec, values[..n], chosen) + if n in chosen then Tokens(codec, Obj(values[n])) else 0
  }

  lemma {:induction false} CostAbove(codec: Codec, values: seq<Dict>, chosen: set<nat>, i: nat)
    requires |values| <= i
    ensures Cost(codec, values, chosen + {i}) == Cost(codec, values, chosen)
  {
    if values != [] {
      CostAbove(codec, values[..|values| - 1], chosen, i);
    }
  }

  lemma {:induction false} CostAdd(codec: Codec, values: seq<Dict>, chosen: set<nat>, i: nat)
    requires i < |values| && i !in chosen
    ensures Cost(codec, values, chosen + {i}) == Cost(codec, values, chosen) + Tokens(codec, Obj(values[i]))
  {
    var n := |values| - 1;
    if i == n {
      CostAbove(codec, values[..n], chosen, i);
    } else {
      CostAdd(codec, values[..n], chosen, i);
    }
  }

  lemma {:induction false} CostNothing(codec: Codec, values: seq<Dict>)
    ensures Cost(codec, values, {}) == 0
  {
    if values != [] {
      CostNothing(codec, values[..|values| - 1]);
    }
  }

  function Members(s: seq<nat>): set<nat> {
    set i | i in s
  }

  function BudgetReason(d: Dict): Reason {
    if IsMessage(d) then SectionBudgetOlderMessage else SectionBudgetSummary
  }

  ghost predicate PassedOver(codec: Codec, values: seq<Dict>, passed: seq<nat>, omitted: seq<Omission>) {
    && |omitted| == |passed|
    && forall k :: 0 <= k < |passed| ==>
      passed[k] < |values| && omitted[k] == HistoryOmission(codec, values[passed[k]], BudgetReason(values[passed[k]]))
  }

  lemma PassedNothing(codec: Codec, values: seq<Dict>)
    ensures PassedOver(codec, values, [], [])
  {
  }

  lemma PassedMore(codec: Codec, values: seq<Dict>, passed: seq<nat>, omitted: seq<Omission>, i: nat)
    requires PassedOver(codec, values, passed, omitted) && i < |values|
    ensures
      var record := HistoryOmission(codec, values[i], BudgetReason(values[i]));
      PassedOver(codec, values, passed + [i], omitted + [record])
  {
    hide HistoryOmission;
  }

  /** The pair, then every candidate in turn that still fits the budget. */
  function Greedy(codec: Codec, values: seq<Dict>, pair: seq<nat>, order: seq<nat>, budget: int): (r: set<nat>)
    requires Within(order, |values|)
    ensures Members(pair) <= r && forall i :: i in r ==> i in pair || i in order
  {
    if order == [] then Members(pair)
    else
      var n := |order| - 1;
      var before := Greedy(codec, values, pair, order[..n], budget);
      if Cost(codec, values, before) + Tokens(codec, Obj(values[order[n]])) > budget then before
      else before + {order[n]}
  }

  function Above(chosen: set<nat>, pair: seq<nat>, order: seq<nat>): set<nat> {
    set i | i in chosen && (i in pair || i in order)
  }

  /** A candidate is passed over exactly when it does not fit beside the pair and the
      chosen candidates of higher priority, whatever comes later. */
  lemma {:induction false} GreedyByPriority(codec: Codec, values: seq<Dict>, pair: seq<nat>, order: seq<nat>,
                                            budget: int, k: nat)
    requires Within(order, |values|) && Unique(order) && k < |order| && order[k] !in pair
    ensures var chosen := Greedy(codec, values, pair, order, budget);
      order[k] in chosen
      <==> Cost(codec, values, Above(chosen, pair, order[..k])) + Tokens(codec, Obj(values[order[k]])) <= budget
  {
    hide Tokens, Cost;
    GreedyPrefix(codec, values, pair, order, budget, k);
    GreedyPrefix(codec, values, pair, order, budget, k + 1);
    var before, upTo := Greedy(codec, values, pair, order[..k], budget), order[..k + 1];
    assert upTo[..k] == order[..k] && upTo[k] == order[k] && order[k] in upTo;
    assert order[k] !in order[..k];
    assert order[k] in Greedy(codec, values, pair, upTo, budget)
      <==> Cost(codec, values, before) + Tokens(codec, Obj(values[order[k]])) <= budget;
  }

  lemma {:induction false} GreedyPrefix(codec: Codec, values: seq<Dict>, pair: seq<nat>, order: seq<nat>, budget: int,
                                        k: nat)
    requires Within(order, |values|) && Unique(order) && k <= |order|
    ensures Greedy(codec, values, pair, order[..k], budget)
      == Above(Greedy(codec, values, pair, order, budget), pair, order[..k])
  {
    hide Tokens, Cost;
    if k == |order| {
      assert order[..k] == order;
    } else {
      var n := |order| - 1;
      GreedyPrefix(codec, values, pair, order[..n], budget, k);
      assert order[..n][..k] == order[..k];
      assert order[n] !in order[..k];
    }
  }

  /** The greedy loop: what does not fit is recorded and passed over. */
  method SelectWithin(codec: Codec, values: seq<Dict>, pair: seq<nat>, used0: nat, budget: int)
    returns (chosen: set<nat>, omitted: seq<Omission>, ghost passed: seq<nat>)
    requires Within(pair, |values|) && used0 == Cost(codec, values, Members(pair)) <= budget
    ensures Within(CandidateOrder(values, pair), |values|)
    ensures chosen == Greedy(codec, values, pair, CandidateOrder(values, pair), budget)
    ensures Members(pair) <= chosen && forall i :: i in chosen ==> i < |values|
    ensures Cost(codec, values, chosen) <= budget
    ensures Within(passed, |values|) && Unique(passed)
    ensures forall i: nat :: i < |values| ==> (i in passed <==> i !in chosen)
    ensures PassedOver(codec, values, passed, omitted)
  {
    hide CandidateOrder, HistoryOmission, BudgetReason, Tokens, Cost, PassedOver;
    PassedNothing(codec, values);
    OrderCoversRest(values, pair);
    var order := CandidateOrder(values, pair);
    chosen := Members(pair);
    var used := used0;
    omitted, passed := [], [];
    for k := 0 to |order|
      invariant Within(passed, |values|) && Unique(passed)
      invariant chosen == Greedy(codec, values, pair, order[..k], budget)
      invariant forall i :: i in passed ==> i in order[..k] && i !in chosen
      invariant forall i :: i in order[..k] ==> i in chosen || i in passed
      invariant used == Cost(codec, values, chosen) <= budget
      invariant PassedOver(codec, values, passed, omitted)
    {
      var i := order[k];
      assert order[..k + 1] == order[..k] + [i] && order[..k + 1][..k] == order[..k];
      assert i !in order[..k];
      assert i in order;
      var cost := Tokens(codec, Obj(values[i]));
      if used + cost > budget {
        PassedMore(codec, values, passed, omitted, i);
        omitted := omitted + [HistoryOmission(codec, values[i], BudgetReason(values[i]))];
        passed := passed + [i];
      } else {
        CostAdd(codec, values, chosen, i);
        chosen := chosen + {i};
        used := used + cost;
      }
    }
    assert order[..|order|] == order;
  }

  method CostOf(codec: Codec, values: seq<Dict>, indices: seq<nat>) returns (cost: nat)
    requires Within(indices, |values|) && Increasing(indices)
    ensures cost == Cost(codec, values, Members(indices))
  {
    hide Tokens, Cost;
    cost := 0;
    CostNothing(codec, values);
    assert Members([]) == {};
    for k := 0 to |indices|
      invariant cost == Cost(codec, values, Members(indices[..k]))
    {
      assert Members(indices[..k + 1]) == Members(indices[..k]) + {indices[k]};
      CostAdd(codec, values, Members(indices[..k]), indices[k]);
      cost := cost + Tokens(codec, Obj(values[indices[k]]));
    }
    assert indices[..|indices|] == indices;
  }

  // ----- from the normalised history back to the flattened one -----

  function Through(survivors: seq<nat>, ks: seq<nat>): (r: seq<nat>)
    requires Within(ks, |survivors|)
    ensures |r| == |ks| && forall k :: 0 <= k < |ks| ==> r[k] == survivors[ks[k]]
  {
    seq(|ks|, k requires 0 <= k < |ks| => survivors[ks[k]])
  }

  lemma ThroughMembers(survivors: seq<nat>, ks: seq<nat>)
    requires Within(ks, |survivors|)
    ensures forall j: nat :: j in ks ==> survivors[j] in Through(survivors, ks)
    ensures forall i :: i in Through(survivors, ks) ==> exists j: nat :: j in ks && survivors[j] == i
    ensures Increasing(survivors) && Unique(ks) ==> Unique(Through(survivors, ks))
    ensures Increasing(survivors) && Increasing(ks) ==> Increasing(Through(survivors, ks))
  {
    var r := Through(survivors, ks);
    forall j: nat | j in ks ensures survivors[j] in r {
      var k :| 0 <= k < |ks| && ks[k] == j;
      assert r[k] == survivors[j];
    }
    forall i | i in r ensures exists j: nat :: j in ks && survivors[j] == i {
      var k :| 0 <= k < |ks| && r[k] == i;
      assert ks[k] in ks;
    }
  }

  lemma ThroughMember(survivors: seq<nat>, ks: seq<nat>, i: nat) returns (j: nat)
    requires Within(ks, |survivors|) && i in Through(survivors, ks)
    ensures j in ks && j < |survivors| && survivors[j] == i
  {
    ThroughMembers(survivors, ks);
    j :| j in ks && survivors[j] == i;
  }

  lemma ThroughDisjoint(survivors: seq<nat>, dropped: seq<nat>, n: nat, ks: seq<nat>, passed: seq<nat>, i: nat)
    requires Partition(survivors, dropped, n) && Increasing(survivors) && Partition(ks, passed, |survivors|)
    ensures !(i in Through(survivors, ks) && i in Through(survivors, passed))
    ensures i in dropped ==> i !in Through(survivors, ks) && i !in Through(survivors, passed)
    ensures i in Through(survivors, ks) || i in Through(survivors, passed) ==> i < n
    ensures i < n ==> i in dropped || i in Through(survivors, ks) || i in Through(survivors, passed)
  {
    hide Through, Unique;
    if i in Through(survivors, ks) {
      var j := ThroughMember(survivors, ks, i);
      if i in Through(survivors, passed) {
        var j' := ThroughMember(survivors, passed, i);
      }
    } else if i in Through(survivors, passed) {
      var j := ThroughMember(survivors, passed, i);
    } else if i < n && i !in dropped {
      var j :| 0 <= j < |survivors| && survivors[j] == i;
      ThroughMembers(survivors, ks);
      ThroughMembers(survivors, passed);
    }
  }

  lemma PartitionThrough(survivors: seq<nat>, dropped: seq<nat>, n: nat, ks: seq<nat>, passed: seq<nat>)
    requires Partition(survivors, dropped, n) && Increasing(survivors) && Partition(ks, passed, |survivors|)
    ensures Partition(Through(survivors, ks), dropped + Through(survivors, passed), n)
  {
    hide Through, Increasing;
    var kept, moved := Through(survivors, ks), Through(survivors, passed);
    assert Unique(kept) && Unique(moved) by {
      ThroughMembers(survivors, ks);
      ThroughMembers(survivors, passed);
    }
    forall i: nat
      ensures !(i in kept && i in dropped + moved) && !(i in dropped && i in moved)
      ensures i in kept || i in moved ==> i < n
      ensures i < n ==> i in kept || i in dropped + moved
    {
      ThroughDisjoint(survivors, dropped, n, ks, passed, i);
    }
    UniqueConcat(dropped, moved);
    PartitionOf(kept, dropped + moved, n);
  }

  lemma PartitionOf(kept: seq<nat>, dropped: seq<nat>, n: nat)
    requires Unique(kept) && Unique(dropped)
    requires forall i: nat :: i in kept ==> i !in dropped
    requires forall i: nat :: i in kept || i in dropped <==> i < n
    ensures Partition(kept, dropped, n)
  {
    forall k | 0 <= k < |kept| ensures kept[k] < n {
      assert kept[k] in kept;
    }
    forall k | 0 <= k < |dropped| ensures dropped[k] < n {
      assert dropped[k] in dropped;
    }
  }

  /** The pair protected in a flattened history: the latest among the entries that survive de-duplication. */
  function PairOrigins(codec: Codec, flat: seq<Dict>): set<nat> {
    var survivors := Survivors(codec, flat);
    Members(Through(survivors, LatestPair(Pick(flat, survivors))))
  }

  function MarkAll(entries: seq<Dict>, pair: seq<nat>): (r: seq<Dict>)
    ensures |r| == |entries| && forall k :: 0 <= k < |r| ==> r[k] == Marked(entries[k], k in pair)
  {
    seq(|entries|, k requires 0 <= k < |entries| => Marked(entries[k], k in pair))
  }

  lemma OriginsAgree(codec: Codec, flat: seq<Dict>, k: nat)
    requires k < |Survivors(codec, flat)|
    ensures Survivors(codec, flat)[k] in PairOrigins(codec, flat) <==>
      k in LatestPair(Pick(flat, Survivors(codec, flat)))
  {
    hide LatestPair, Survivors;
    var survivors := Survivors(codec, flat);
    ThroughMembers(survivors, LatestPair(Pick(flat, survivors)));
  }

  lemma AccountsThrough(codec: Codec, flat: seq<Dict>, dropped: seq<nat>, duplicates: seq<Omission>, marked: seq<Dict>,
                        history: seq<Dict>, ks: seq<nat>, passed: seq<nat>, over: seq<Omission>)
    requires Partition(Survivors(codec, flat), dropped, |flat|) && Records(codec, flat, dropped, duplicates)
    requires marked == MarkAll(Pick(flat, Survivors(codec, flat)), LatestPair(Pick(flat, Survivors(codec, flat))))
    requires Increasing(ks) && Partition(ks, passed, |marked|) && history == Pick(marked, ks)
    requires PassedOver(codec, marked, passed, over)
    requires forall j :: j in LatestPair(Pick(flat, Survivors(codec, flat))) ==> j in ks
    ensures var survivors := Survivors(codec, flat);
      Accounts(codec, flat, PairOrigins(codec, flat), history, duplicates + over,
               Through(survivors, ks), dropped + Through(survivors, passed))
  {
    hide HistoryOmission, Marked, Survivors, LatestPair, Records, BudgetReason, Partition, PairOrigins, Through,
      PassedOver;
    var survivors := Survivors(codec, flat);
    PartitionWithin(ks, passed, |survivors|);
    PartitionThrough(survivors, dropped, |flat|, ks, passed);
    ThroughMembers(survivors, ks);
    PassedRecords(codec, flat, marked, passed, over);
    RecordsConcat(codec, flat, dropped, duplicates, Through(survivors, passed), over);
    forall k | 0 <= k < |ks|
      ensures history[k] == Marked(flat[survivors[ks[k]]], survivors[ks[k]] in PairOrigins(codec, flat))
    {
      OriginsAgree(codec, flat, ks[k]);
    }
    OriginsKept(codec, flat, ks);
  }

  lemma PassedRecords(codec: Codec, flat: seq<Dict>, marked: seq<Dict>, passed: seq<nat>, over: seq<Omission>)
    requires marked == MarkAll(Pick(flat, Survivors(codec, flat)), LatestPair(Pick(flat, Survivors(codec, flat))))
    requires Within(passed, |marked|) && PassedOver(codec, marked, passed, over)
    ensures Records(codec, flat, Through(Survivors(codec, flat), passed), over)
  {
    hide HistoryOmission, Marked, Survivors, LatestPair, RecordOf, BudgetReason;
    var survivors := Survivors(codec, flat);
    forall k | 0 <= k < |passed| ensures RecordOf(codec, flat[survivors[passed[k]]], over[k]) {
      PassedRecord(codec, flat[survivors[passed[k]]], passed[k] in LatestPair(Pick(flat, survivors)));
    }
  }

  lemma RecordsConcat(codec: Codec, flat: seq<Dict>, dropped: seq<nat>, omitted: seq<Omission>, more: seq<nat>,
                      over: seq<Omission>)
    requires Records(codec, flat, dropped, omitted) && Records(codec, flat, more, over)
    ensures Records(codec, flat, dropped + more, omitted + over)
  {
    hide RecordOf;
  }

  lemma PartitionWithin(kept: seq<nat>, dropped: seq<nat>, n: nat)
    requires Partition(kept, dropped, n)
    ensures Within(kept, n) && Within(dropped, n)
  {
  }

  lemma PassedRecord(codec: Codec, d: Dict, inPair: bool)
    ensures RecordOf(codec, d, HistoryOmission(codec, Marked(d, inPair), BudgetReason(Marked(d, inPair))))
  {
    hide HistoryOmission, Marked, RecordOf, IsMessage;
    MarkedOmission(codec, d, inPair, BudgetReason(Marked(d, inPair)));
    MarkedProtection(d, inPair);
    RecordMade(codec, d, BudgetReason(Marked(d, inPair)));
  }

  lemma OriginsKept(codec: Codec, flat: seq<Dict>, ks: seq<nat>)
    requires Within(ks, |Survivors(codec, flat)|)
    requires forall j :: j in LatestPair(Pick(flat, Survivors(codec, flat))) ==> j in ks
    ensures forall i :: i in PairOrigins(codec, flat) ==> i in Through(Survivors(codec, flat), ks)
  {
    hide LatestPair, Survivors;
    ThroughMembers(Survivors(codec, flat), LatestPair(Pick(flat, Survivors(codec, flat))));
    ThroughMembers(Survivors(codec, flat), ks);
  }

  // ----- `_fit_list` and `_fit_history` -----

  function Objects(ds: seq<Dict>): (r: seq<Json>)
    ensures |r| == |ds| && forall k :: 0 <= k < |r| ==> r[k] == Obj(ds[k])
  {
    seq(|ds|, k requires 0 <= k < |ds| => Obj(ds[k]))
  }

  lemma ObjectsMore(codec: Codec, ds: seq<Dict>, d: Dict)
    ensures SumTokens(codec, Objects(ds + [d])) == SumTokens(codec, Objects(ds)) + Tokens(codec, Obj(d))
  {
    assert Objects(ds + [d])[..|ds|] == Objects(ds);
  }

  function Gathered(values: seq<Dict>, chosen: set<nat>): seq<Dict> {
    if values == [] then []
    else
      var n := |values| - 1;
      Gathered(values[..n], chosen) + if n in chosen then [values[n]] else []
  }

  /** The comprehension at the end of `_fit_history`. */
  method Gather(values: seq<Dict>, chosen: set<nat>) returns (history: seq<Dict>, ghost ks: seq<nat>)
    ensures history == Gathered(values, chosen)
    ensures Increasing(ks) && Within(ks, |values|) && history == Pick(values, ks)
    ensures forall i: nat :: i in ks <==> i < |values| && i in chosen
  {
    history, ks := [], [];
    for i := 0 to |values|
      invariant history == Gathered(values[..i], chosen)
      invariant Increasing(ks) && Within(ks, i) && history == Pick(values, ks)
      invariant forall j: nat :: j in ks <==> j < i && j in chosen
    {
      assert values[..i + 1][..i] == values[..i];
      if i in chosen {
        history := history + [values[i]];
        ks := ks + [i];
      }
    }
    assert values[..|values|] == values;
  }

  lemma NoTokens(codec: Codec)
    ensures SumTokens(codec, Objects([])) == 0 && Dedup<Dict>([]) == []
  {
  }

  lemma {:induction false} DedupCostGrows(codec: Codec, values: seq<Dict>, k: nat)
    requires k <= |values|
    ensures SumTokens(codec, Objects(Dedup(values[..k]))) <= SumTokens(codec, Objects(Dedup(values)))
  {
    hide Tokens, SumTokens;
    if k == |values| {
      assert values[..k] == values;
    } else {
      var n := |values| - 1;
      DedupCostGrows(codec, values[..n], k);
      assert values[..n][..k] == values[..k];
      ObjectsMore(codec, Dedup(values[..n]), values[n]);
    }
  }

  lemma DedupStep(values: seq<Dict>, k: nat)
    requires k < |values|
    ensures var before := Dedup(values[..k]);
      Dedup(values[..k + 1]) == if values[k] in before then before else before + [values[k]]
  {
    assert values[..k + 1][..k] == values[..k];
  }

  function Repeated(section: string, n: nat): (r: seq<Omission>)
    ensures |r| == n && forall k :: 0 <= k < n ==> r[k] == Omission(section, "", "", Duplicate)
  {
    seq(n, _ => Omission(section, "", "", Duplicate))
  }

  /** `_fit_list` as `assemble` calls it: every distinct value is kept or the call fails. */
  method FitList(codec: Codec, values: seq<Dict>, budget: int, section: string)
    returns (r: Result<seq<Dict>>, omitted: seq<Omission>)
    ensures r.Failure? <==> values != [] && SumTokens(codec, Objects(Dedup(values))) > budget
    ensures r.Failure? ==> r.error == SectionTooBig(section)
    ensures r.Success? ==>
      && r.value == Dedup(values) && |r.value| <= |values|
      && omitted == Repeated(section, |values| - |r.value|)
  {
    hide Tokens, SumTokens, Dedup;
    var selected: seq<Dict>, used, seen: set<Dict> := [], 0, {};
    omitted := [];
    NoTokens(codec);
    assert values[..0] == [];
    for k := 0 to |values|
      invariant selected == Dedup(values[..k])
      invariant seen == set d | d in selected
      invariant used == SumTokens(codec, Objects(selected))
      invariant k > 0 ==> used <= budget
      invariant |selected| <= k && omitted == Repeated(section, k - |selected|)
    {
      DedupStep(values, k);
      if values[k] in seen {
        omitted := omitted + [Omission(section, "", "", Duplicate)];
        continue;
      }
      var cost := Tokens(codec, Obj(values[k]));
      ObjectsMore(codec, selected, values[k]);
      if used + cost > budget {
        DedupCostGrows(codec, values, k + 1);
        return Failure(SectionTooBig(section)), omitted;
      }
      selected := selected + [values[k]];
      seen := seen + {values[k]};
      used := used + cost;
    }
    assert values[..|values|] == values;
    r := Success(selected);
  }

  /** The first loop of `_normalize_history`. */
  method FlattenHistory(codec: Codec, values: seq<Dict>) returns (r: Result<seq<Dict>>)
    ensures r == Flatten(codec, values)
  {
    hide LegacyMessage, Remainder, PlainEntry;
    var flattened: seq<Dict> := [];
    for outer := 0 to |values|
      invariant Flatten(codec, values[..outer]) == Success(flattened)
    {
      var value := values[outer];
      assert values[..outer + 1][..outer] == values[..outer];
      FlattenFails(codec, values, outer + 1);
      if Get(value, WRAPPER).Arr? {
        var nested := value[WRAPPER].items;
        var before := flattened;
        for inner := 0 to |nested|
          invariant flattened == before + LegacyMessages(nested[..inner], outer)
        {
          assert nested[..inner + 1][..inner] == nested[..inner];
          if !nested[inner].Obj? {
            continue;
          }
          flattened := flattened + [LegacyMessage(nested[inner].fields, outer, inner)];
        }
        assert nested[..|nested|] == nested;
        flattened := flattened + Remainder(value, outer);
        assert flattened == before + FlattenOne(codec, value, outer).value;
      } else {
        var item := PlainEntry(codec, value, outer);
        if item.Failure? {
          return item;
        }
        flattened := flattened + item.value;
      }
    }
    assert values[..|values|] == values;
    r := Success(flattened);
  }

  lemma {:induction false} FlattenFails(codec: Codec, values: seq<Dict>, n: nat)
    requires n <= |values|
    ensures Flatten(codec, values[..n]).Failure? ==> Flatten(codec, values) == Flatten(codec, values[..n])
  {
    hide FlattenOne;
    if n == |values| {
      assert values[..n] == values;
    } else {
      var m := |values| - 1;
      FlattenFails(codec, values[..m], n);
      assert values[..m][..n] == values[..n];
    }
  }

  /** The tokens the protected pair needs, markers included. */
  function PairCost(codec: Codec, flat: seq<Dict>): nat {
    var entries := Pick(flat, Survivors(codec, flat));
    var pair := LatestPair(entries);
    Cost(codec, MarkAll(entries, pair), Members(pair))
  }

  /** What `_fit_history` keeps of a flattened history. */
  function FittedHistory(codec: Codec, flat: seq<Dict>, budget: int): seq<Dict> {
    var entries := Pick(flat, Survivors(codec, flat));
    var pair := LatestPair(entries);
    var marked := MarkAll(entries, pair);
    OrderCoversRest(marked, pair);
    Gathered(marked, Greedy(codec, marked, pair, CandidateOrder(marked, pair), budget))
  }

  /** The fitted history costs no more than its budget. */
  lemma FittedWithinBudget(codec: Codec, flat: seq<Dict>, budget: int)
    ensures flat == [] ==> FittedHistory(codec, flat, budget) == []
    ensures PairCost(codec, flat) <= budget ==> SumTokens(codec, Objects(FittedHistory(codec, flat, budget))) <= budget
  {
    hide Survivors, LatestPair, CandidateOrder, SumTokens, Objects, Greedy, Gathered, Cost;
    SomethingSurvives(codec, flat);
    var entries := Pick(flat, Survivors(codec, flat));
    var pair := LatestPair(entries);
    var marked := MarkAll(entries, pair);
    OrderCoversRest(marked, pair);
    var chosen := Greedy(codec, marked, pair, CandidateOrder(marked, pair), budget);
    GatheredCost(codec, marked, chosen);
    if PairCost(codec, flat) <= budget {
      GreedyCost(codec, marked, pair, CandidateOrder(marked, pair), budget);
    }
  }

  lemma {:induction false} GreedyCost(codec: Codec, values: seq<Dict>, pair: seq<nat>, order: seq<nat>, budget: int)
    requires Within(order, |values|) && Cost(codec, values, Members(pair)) <= budget
    ensures Cost(codec, values, Greedy(codec, values, pair, order, budget)) <= budget
  {
    hide Tokens, Cost;
    if order != [] {
      var n := |order| - 1;
      var before := Greedy(codec, values, pair, order[..n], budget);
      GreedyCost(codec, values, pair, order[..n], budget);
      if order[n] in before {
        assert before + {order[n]} == before;
      } else {
        CostAdd(codec, values, before, order[n]);
      }
    }
  }

  lemma {:induction false} GatheredCost(codec: Codec, values: seq<Dict>, chosen: set<nat>)
    ensures SumTokens(codec, Objects(Gathered(values, chosen))) == Cost(codec, values, chosen)
    ensures values == [] ==> Gathered(values, chosen) == []
  {
    hide Tokens, SumTokens;
    if values == [] {
      NoTokens(codec);
    } else {
      var n := |values| - 1;
      var rest := Gathered(values[..n], chosen);
      GatheredCost(codec, values[..n], chosen);
      ObjectsMore(codec, rest, values[n]);
      assert rest + [] == rest;
    }
  }

  /** The flattened entries `_fit_history` keeps. */
  ghost function ChosenOrigins(codec: Codec, flat: seq<Dict>, budget: int): set<nat> {
    var survivors := Survivors(codec, flat);
    var entries := Pick(flat, survivors);
    var pair := LatestPair(entries);
    var marked := MarkAll(entries, pair);
    OrderCoversRest(marked, pair);
    var chosen := Greedy(codec, marked, pair, CandidateOrder(marked, pair), budget);
    set k | k in chosen && k < |survivors| :: survivors[k]
  }

  /** Every record says why its entry is missing: a later occurrence, no room in the
      section, or kept by the section and evicted from the packet. */
  ghost predicate Causes(codec: Codec, flat: seq<Dict>, budget: int, dropped: seq<nat>, omitted: seq<Omission>) {
    && |dropped| == |omitted|
    && forall k :: 0 <= k < |dropped| ==>
      CauseOf(omitted[k].reason) ==
        if dropped[k] !in Survivors(codec, flat) then Repeats
        else if dropped[k] !in ChosenOrigins(codec, flat, budget) then NoRoomInSection
        else NoRoomInPacket
  }

  lemma CausesMore(codec: Codec, flat: seq<Dict>, budget: int, dropped: seq<nat>, omitted: seq<Omission>, i: nat,
                   o: Omission)
    requires Causes(codec, flat, budget, dropped, omitted)
    requires i in Survivors(codec, flat) && i in ChosenOrigins(codec, flat, budget)
    requires CauseOf(o.reason) == NoRoomInPacket
    ensures Causes(codec, flat, budget, dropped + [i], omitted + [o])
  {
    hide Survivors, ChosenOrigins;
  }

  /** `chosen` is the selection in a flattened history. */
  ghost predicate IsSelection(codec: Codec, flat: seq<Dict>, budget: int, chosen: set<nat>) {
    var entries := Pick(flat, Survivors(codec, flat));
    var pair := LatestPair(entries);
    var marked := MarkAll(entries, pair);
    OrderCoversRest(marked, pair);
    chosen == Greedy(codec, marked, pair, CandidateOrder(marked, pair), budget)
  }

  lemma OriginIff(codec: Codec, flat: seq<Dict>, budget: int, chosen: set<nat>, k: nat)
    requires IsSelection(codec, flat, budget, chosen) && k < |Survivors(codec, flat)|
    ensures Survivors(codec, flat)[k] in ChosenOrigins(codec, flat, budget) <==> k in chosen
  {
    hide Survivors, LatestPair, Greedy, CandidateOrder, MarkAll, Pick;
  }

  lemma CausesSplit(codec: Codec, flat: seq<Dict>, budget: int, dropped: seq<nat>, duplicates: seq<Omission>,
                    more: seq<nat>, over: seq<Omission>)
    requires |dropped| == |duplicates| && |more| == |over|
    requires AllCaused(duplicates, Repeats) && AllCaused(over, NoRoomInSection)
    requires forall k :: 0 <= k < |dropped| ==> dropped[k] !in Survivors(codec, flat)
    requires forall k :: 0 <= k < |more| ==>
      more[k] in Survivors(codec, flat) && more[k] !in ChosenOrigins(codec, flat, budget)
    ensures Causes(codec, flat, budget, dropped + more, duplicates + over)
  {
    hide Survivors, ChosenOrigins;
  }

  lemma FittedCauses(codec: Codec, flat: seq<Dict>, budget: int, dropped: seq<nat>, duplicates: seq<Omission>,
                     marked: seq<Dict>, chosen: set<nat>, ks: seq<nat>, passed: seq<nat>, over: seq<Omission>)
    requires Partition(Survivors(codec, flat), dropped, |flat|) && |dropped| == |duplicates|
    requires AllCaused(duplicates, Repeats) && PassedOver(codec, marked, passed, over)
    requires IsSelection(codec, flat, budget, chosen) && |marked| == |Survivors(codec, flat)|
    requires Within(ks, |marked|) && Within(passed, |marked|)
    requires forall k: nat :: k in ks <==> k < |marked| && k in chosen
    requires forall k: nat :: k < |marked| ==> (k in passed <==> k !in chosen)
    ensures var survivors := Survivors(codec, flat);
      && Causes(codec, flat, budget, dropped + Through(survivors, passed), duplicates + over)
      && forall i :: i in Through(survivors, ks) ==> i in ChosenOrigins(codec, flat, budget)
  {
    hide Survivors, HistoryOmission, BudgetReason, IsSelection, ChosenOrigins, Through, Causes;
    var survivors := Survivors(codec, flat);
    var more := Through(survivors, passed);
    forall i | i in Through(survivors, ks) ensures i in ChosenOrigins(codec, flat, budget) {
      var k := ThroughMember(survivors, ks, i);
      OriginIff(codec, flat, budget, chosen, k);
    }
    forall k | 0 <= k < |more| ensures more[k] in survivors && more[k] !in ChosenOrigins(codec, flat, budget) {
      assert passed[k] in passed;
      OriginIff(codec, flat, budget, chosen, passed[k]);
    }
    forall k | 0 <= k < |over| ensures CauseOf(over[k].reason) == NoRoomInSection {
      OverCaused(codec, marked[passed[k]]);
    }
    forall k | 0 <= k < |dropped| ensures dropped[k] !in survivors {
      assert dropped[k] in dropped;
    }
    CausesSplit(codec, flat, budget, dropped, duplicates, more, over);
  }

  lemma RecordsCount(codec: Codec, flat: seq<Dict>, dropped: seq<nat>, omitted: seq<Omission>)
    requires Records(codec, flat, dropped, omitted)
    ensures |dropped| == |omitted|
  {
  }

  lemma OverCaused(codec: Codec, d: Dict)
    ensures CauseOf(HistoryOmission(codec, d, BudgetReason(d)).reason) == NoRoomInSection
  {
  }

  datatype Fitted = Fitted(history: seq<Dict>, omitted: seq<Omission>)

  /** What `_fit_history` raises on. */
  ghost predicate HistoryRefused(codec: Codec, values: seq<Dict>, budget: int) {
    var flat := Flatten(codec, values);
    || flat.Failure?
    || Unnormalisable(codec, flat.value)
    || (flat.value != [] && PairCost(codec, flat.value) > budget)
  }

  /** Which error `_fit_history` raises. */
  ghost predicate HistoryError(codec: Codec, values: seq<Dict>, budget: int, error: Error) {
    var flat := Flatten(codec, values);
    if flat.Failure? then error == flat.error
    else if Unnormalisable(codec, flat.value) then error.HistoryKeyMissing? || error.HistoryIdentityConflict?
    else flat.value != [] && PairCost(codec, flat.value) > budget && error == PairTooBig
  }

  /** `_fit_history`: every flattened entry is kept or recorded as omitted, the pair is kept. */
  method FitHistory(codec: Codec, values: seq<Dict>, budget: int)
    returns (r: Result<Fitted>, ghost kept: seq<nat>, ghost dropped: seq<nat>)
    ensures r.Failure? <==> HistoryRefused(codec, values, budget)
    ensures r.Failure? ==> HistoryError(codec, values, budget, r.error)
    ensures r.Success? ==> Flatten(codec, values).Success?
    ensures r.Success? ==>
      var flat := Flatten(codec, values).value;
      && r.value.history == FittedHistory(codec, flat, budget)
      && Accounts(codec, flat, PairOrigins(codec, flat), r.value.history, r.value.omitted, kept, dropped)
      && (forall i :: i in kept ==> i in Survivors(codec, flat) && i in ChosenOrigins(codec, flat, budget))
      && Causes(codec, flat, budget, dropped, r.value.omitted)
    ensures r.Success? && r.value.history != [] ==> SumTokens(codec, Objects(r.value.history)) <= budget
  {
    hide Flatten, Unnormalisable, HistoryOmission, Marked, Survivors, LatestPair, Cost, Partition, Records, Accounts,
      BudgetReason, SumTokens, Greedy, CandidateOrder, Gathered, Pick, MarkAll, Through, PassedOver, Causes,
      ChosenOrigins, AllCaused;
    kept, dropped := [], [];
    var flattened := FlattenHistory(codec, values);
    if flattened.Failure? {
      return Failure(flattened.error), kept, dropped;
    }
    var normal;
    normal, dropped := Normalise(codec, flattened.value);
    if normal.Failure? {
      return Failure(normal.error), kept, dropped;
    }
    ghost var survivors := Survivors(codec, flattened.value);
    var entries := normal.value.entries;
    SomethingSurvives(codec, flattened.value);
    if entries == [] {
      NothingToFit(codec, flattened.value, dropped, normal.value.omitted);
      return Success(Fitted([], normal.value.omitted)), kept, dropped;
    }
    var pair := LatestPair(entries);
    PairShape(entries);
    var marked := MarkAll(entries, pair);
    var used := CostOf(codec, marked, pair);
    if used > budget {
      return Failure(PairTooBig), kept, dropped;
    }
    var chosen, over;
    ghost var passed;
    chosen, over, passed := SelectWithin(codec, marked, pair, used, budget);
    var history;
    ghost var ks;
    history, ks := Gather(marked, chosen);
    ChosenPartition(ks, passed, |marked|, chosen);
    AccountsThrough(codec, flattened.value, dropped, normal.value.omitted, marked, history, ks, passed, over);
    ThroughMembers(survivors, ks);
    FittedWithinBudget(codec, flattened.value, budget);
    RecordsCount(codec, flattened.value, dropped, normal.value.omitted);
    FittedCauses(codec, flattened.value, budget, dropped, normal.value.omitted, marked, chosen, ks, passed, over);
    kept := Through(survivors, ks);
    dropped := dropped + Through(survivors, passed);
    r := Success(Fitted(history, normal.value.omitted + over));
  }

  lemma PairShape(entries: seq<Dict>)
    ensures Increasing(LatestPair(entries)) && Within(LatestPair(entries), |entries|)
  {
  }

  lemma SomethingSurvives(codec: Codec, flat: seq<Dict>)
    ensures Survivors(codec, flat) == [] <==> flat == []
  {
    if flat != [] {
      var r := Survivors(codec, flat[..|flat| - 1]);
      assert r == [] ==> !Seen(codec, flat, r, flat[|flat| - 1]);
    }
  }

  lemma NothingToFit(codec: Codec, flat: seq<Dict>, dropped: seq<nat>, omitted: seq<Omission>)
    requires flat == [] && Partition([], dropped, 0) && Records(codec, flat, dropped, omitted)
    ensures Accounts(codec, flat, PairOrigins(codec, flat), [], omitted, [], dropped)
    ensures forall budget: int :: FittedHistory(codec, flat, budget) == []
    ensures forall budget: int :: Causes(codec, flat, budget, dropped, omitted)
  {
    hide Within;
    if dropped != [] {
      WithinAt(dropped, 0, 0);
    }
  }

  lemma WithinAt(s: seq<nat>, n: nat, k: nat)
    requires Within(s, n) && k < |s|
    ensures s[k] < n
  {
  }

  lemma ChosenPartition(ks: seq<nat>, passed: seq<nat>, n: nat, chosen: set<nat>)
    requires Increasing(ks) && Within(ks, n) && (forall i: nat :: i in ks <==> i < n && i in chosen)
    requires Within(passed, n) && Unique(passed) && (forall i: nat :: i < n ==> (i in passed <==> i !in chosen))
    ensures Partition(ks, passed, n)
  {
    forall i | 0 <= i < n ensures i in ks || i in passed {
    }
  }
}
