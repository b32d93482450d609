/** `ContextAssembler.assemble`: the packet, its global budget and what is kept of the inputs. */
module ContextPacket {
  import opened Sequences
  import opened ContextModel
  import opened ContextHistory
  import opened ContextAssembler

  datatype Inputs = Inputs(goal: Json, taskState: Json, remaining: Json, tools: Json, priorTurns: seq<Json>,
                           observations: seq<Dict>, evidence: seq<Dict>, history: seq<Dict>)

  const STOP_CONDITIONS := Obj(map[
    "max_tool_rounds" := Num(2), "max_tool_attempts" := Num(6),
    "duplicate_non_retry_call" := Str("stop_no_progress"), "write_tools" := Str("never_model_visible")])

  const MANDATORY_KEYS: set<string> := {"user_goal", "trusted_task_state", "remaining_budget", "stop_conditions"}

  const SECTION_KEYS: set<string> := {"latest_observations", "retrieved_evidence", "relevant_history"}

  /** What a reader finds under the mandatory keys. */
  predicate HoldsMandatory(d: Dict, i: Inputs) {
    && MANDATORY_KEYS <= d.Keys
    && d["user_goal"] == i.goal && d["trusted_task_state"] == i.taskState && d["remaining_budget"] == i.remaining
    && d["stop_conditions"] == STOP_CONDITIONS
  }

  /** What a reader finds in the packet: these keys, no others, and these lists under them. */
  predicate Holds(p: Json, i: Inputs, observations: seq<Dict>, evidence: seq<Dict>, history: seq<Dict>) {
    && p.Obj? && p.fields.Keys == MANDATORY_KEYS + SECTION_KEYS && HoldsMandatory(p.fields, i)
    && IsList(p.fields["latest_observations"], observations)
    && IsList(p.fields["retrieved_evidence"], evidence)
    && IsList(p.fields["relevant_history"], history)
  }

  /** A list of these dictionaries, one for one. */
  predicate IsList(v: Json, ds: seq<Dict>) {
    v.Arr? && |v.items| == |ds| && forall k :: 0 <= k < |ds| ==> v.items[k] == Obj(ds[k])
  }

  function Mandatory(i: Inputs): (d: Dict)
    ensures d.Keys == MANDATORY_KEYS && HoldsMandatory(d, i)
  {
    PacketKeys();
    map["user_goal" := i.goal, "trusted_task_state" := i.taskState,
        "remaining_budget" := i.remaining, "stop_conditions" := STOP_CONDITIONS]
  }

  function PacketJson(i: Inputs, observations: seq<Dict>, evidence: seq<Dict>, history: seq<Dict>): (p: Json)
    ensures Holds(p, i, observations, evidence, history)
  {
    PacketKeys();
    Obj(Mandatory(i) + map["latest_observations" := Arr(Objects(observations)),
                           "retrieved_evidence" := Arr(Objects(evidence)),
                           "relevant_history" := Arr(Objects(history))])
  }

  lemma PacketKeys()
    ensures "user_goal" !in {"trusted_task_state", "remaining_budget", "stop_conditions"} + SECTION_KEYS
    ensures "trusted_task_state" !in {"remaining_budget", "stop_conditions"} + SECTION_KEYS
    ensures "remaining_budget" !in {"stop_conditions"} + SECTION_KEYS
    ensures "stop_conditions" !in SECTION_KEYS
    ensures "latest_observations" !in {"retrieved_evidence", "relevant_history"}
    ensures "retrieved_evidence" != "relevant_history"
  {
    assert |"user_goal"| == 9 && |"trusted_task_state"| == 18;
    assert |"remaining_budget"| == 16 && |"stop_conditions"| == 15;
    assert |"latest_observations"| == 19 && |"retrieved_evidence"| == 18 && |"relevant_history"| == 16;
    assert "trusted_task_state"[0] == 't' && "retrieved_evidence"[0] == 'r';
    assert "remaining_budget"[2] == 'm' && "relevant_history"[2] == 'l';
  }

  // ----- the size of the packet -----

  /** A dumped object grows by a member's key, colon and value, and by a comma after the first. */
  ghost predicate DumpsObjects(codec: Codec) {
    && codec.size(Obj(map[])) == 2
    && forall d: Dict, k: string, v: Json :: k !in d ==>
      codec.size(Obj(d[k := v])) ==
        codec.size(Obj(d)) + codec.size(Str(k)) + 1 + codec.size(v) + if d == map[] then 0 else 1
  }

  /** A member whose value has this size. */
  function MemberSize(codec: Codec, k: string, size: nat): nat {
    codec.size(Str(k)) + 1 + size
  }

  function ListSize(codec: Codec, ds: seq<Dict>): nat {
    2 + SumSize(codec, Objects(ds)) + if ds == [] then 0 else |ds| - 1
  }

  /** The dumped packet is exactly its mandatory values, every observation, evidence item and
      history entry it holds, their keys and the punctuation between them. */
  lemma PacketSize(codec: Codec, p: Json, i: Inputs, observations: seq<Dict>, evidence: seq<Dict>, history: seq<Dict>)
    requires DumpsObjects(codec) && DumpsLists(codec) && Holds(p, i, observations, evidence, history)
    ensures codec.size(p) == 8
      + MemberSize(codec, "user_goal", codec.size(i.goal))
      + MemberSize(codec, "trusted_task_state", codec.size(i.taskState))
      + MemberSize(codec, "remaining_budget", codec.size(i.remaining))
      + MemberSize(codec, "stop_conditions", codec.size(STOP_CONDITIONS))
      + MemberSize(codec, "latest_observations", ListSize(codec, observations))
      + MemberSize(codec, "retrieved_evidence", ListSize(codec, evidence))
      + MemberSize(codec, "relevant_history", ListSize(codec, history))
  {
    hide DumpsObjects, DumpsLists, SumMembers, ListSize, MemberSize, IsList;
    ListIsSized(codec, p.fields["latest_observations"], observations);
    ListIsSized(codec, p.fields["retrieved_evidence"], evidence);
    ListIsSized(codec, p.fields["relevant_history"], history);
    PacketMembers(codec, p.fields);
  }

  lemma PacketMembers(codec: Codec, d: Dict)
    requires DumpsObjects(codec) && d.Keys == MANDATORY_KEYS + SECTION_KEYS
    ensures codec.size(Obj(d)) == 8
      + MemberSize(codec, "user_goal", codec.size(d["user_goal"]))
      + MemberSize(codec, "trusted_task_state", codec.size(d["trusted_task_state"]))
      + MemberSize(codec, "remaining_budget", codec.size(d["remaining_budget"]))
      + MemberSize(codec, "stop_conditions", codec.size(d["stop_conditions"]))
      + MemberSize(codec, "latest_observations", codec.size(d["latest_observations"]))
      + MemberSize(codec, "retrieved_evidence", codec.size(d["retrieved_evidence"]))
      + MemberSize(codec, "relevant_history", codec.size(d["relevant_history"]))
  {
    hide DumpsObjects, SumMembers, MemberSize;
    PacketKeysListed(d.Keys);
    DictSize(codec, d, PACKET_KEYS);
    SevenMembers(codec, d, PACKET_KEYS);
  }

  const PACKET_KEYS: seq<string> :=
    ["user_goal", "trusted_task_state", "remaining_budget", "stop_conditions", "latest_observations",
     "retrieved_evidence", "relevant_history"]

  lemma PacketKeysListed(keys: set<string>)
    requires keys == MANDATORY_KEYS + SECTION_KEYS
    ensures Unique(PACKET_KEYS) && |PACKET_KEYS| == 7
    ensures forall k :: k in keys <==> k in PACKET_KEYS
  {
    PacketKeys();
  }

  function SumMembers(codec: Codec, d: Dict, ks: seq<string>): nat
    requires forall k :: k in ks ==> k in d
  {
    if ks == [] then 0
    else
      var k := ks[|ks| - 1];
      assert k in ks;
      SumMembers(codec, d, ks[..|ks| - 1]) + MemberSize(codec, k, codec.size(d[k]))
  }

  lemma {:induction false} SumMembersAgree(codec: Codec, d: Dict, e: Dict, ks: seq<string>)
    requires forall k :: k in ks ==> k in d && k in e && d[k] == e[k]
    ensures SumMembers(codec, d, ks) == SumMembers(codec, e, ks)
  {
    if ks != [] {
      assert ks[|ks| - 1] in ks;
      SumMembersAgree(codec, d, e, ks[..|ks| - 1]);
    }
  }

  /** The size of any dumped object, its keys listed in any order. */
  lemma {:induction false} DictSize(codec: Codec, d: Dict, ks: seq<string>)
    requires DumpsObjects(codec) && Unique(ks) && forall k :: k in d <==> k in ks
    ensures codec.size(Obj(d)) == 2 + SumMembers(codec, d, ks) + if ks == [] then 0 else |ks| - 1
  {
    hide DumpsObjects, MemberSize;
    if ks == [] {
      assert d == map[];
      NoMembers(codec);
    } else {
      var m := |ks| - 1;
      var k, rest := ks[m], d - {ks[m]};
      assert ks == ks[..m] + [k];
      assert k !in ks[..m];
      assert d == rest[k := d[k]];
      MemberAdds(codec, rest, k, d[k]);
      DictSize(codec, rest, ks[..m]);
      SumMembersAgree(codec, d, rest, ks[..m]);
      assert rest == map[] <==> m == 0 by {
        if m > 0 {
          assert ks[0] in ks[..m];
        }
      }
    }
  }

  lemma NoMembers(codec: Codec)
    requires DumpsObjects(codec)
    ensures codec.size(Obj(map[])) == 2
  {
  }

  lemma SevenMembers(codec: Codec, d: Dict, ks: seq<string>)
    requires |ks| == 7 && forall k :: k in ks ==> k in d
    ensures forall j :: 0 <= j < 7 ==> ks[j] in d
    ensures SumMembers(codec, d, ks) ==
      MemberSize(codec, ks[0], codec.size(d[ks[0]])) + MemberSize(codec, ks[1], codec.size(d[ks[1]]))
      + MemberSize(codec, ks[2], codec.size(d[ks[2]])) + MemberSize(codec, ks[3], codec.size(d[ks[3]]))
      + MemberSize(codec, ks[4], codec.size(d[ks[4]])) + MemberSize(codec, ks[5], codec.size(d[ks[5]]))
      + MemberSize(codec, ks[6], codec.size(d[ks[6]]))
  {
    hide MemberSize, SumMembers;
    assert forall j :: 0 <= j < 7 ==> ks[j] in ks;
    NoneSummed(codec, d);
    assert ks[..0] == [] && ks[..7] == ks;
    OneMore(codec, d, ks, 0);
    OneMore(codec, d, ks, 1);
    OneMore(codec, d, ks, 2);
    OneMore(codec, d, ks, 3);
    OneMore(codec, d, ks, 4);
    OneMore(codec, d, ks, 5);
    OneMore(codec, d, ks, 6);
  }

  lemma NoneSummed(codec: Codec, d: Dict)
    ensures SumMembers(codec, d, []) == 0
  {
  }

  lemma OneMore(codec: Codec, d: Dict, ks: seq<string>, n: nat)
    requires n < |ks| && forall k :: k in ks ==> k in d
    ensures ks[n] in d
    ensures SumMembers(codec, d, ks[..n + 1]) ==
      SumMembers(codec, d, ks[..n]) + MemberSize(codec, ks[n], codec.size(d[ks[n]]))
  {
    assert ks[n] in ks && ks[..n + 1][..n] == ks[..n];
  }

  lemma MemberAdds(codec: Codec, d: Dict, k: string, v: Json)
    requires DumpsObjects(codec) && k !in d
    ensures codec.size(Obj(d[k := v])) ==
      codec.size(Obj(d)) + MemberSize(codec, k, codec.size(v)) + if d == map[] then 0 else 1
  {
  }

  lemma ListIsSized(codec: Codec, v: Json, ds: seq<Dict>)
    requires DumpsLists(codec) && IsList(v, ds)
    ensures codec.size(v) == ListSize(codec, ds)
  {
    assert v.items == Objects(ds);
    assert v == Arr(Objects(ds));
  }

  /** The total is the size of all that goes to the model, in units of three, rounded up
      for the packet, the tools and the prior turns each. */
  lemma TotalBounds(codec: Codec, p: Packet, i: Inputs)
    requires p.total == Tokens(codec, p.content) + Tokens(codec, i.tools) + Tokens(codec, Arr(i.priorTurns))
    ensures codec.size(p.content) + codec.size(i.tools) + codec.size(Arr(i.priorTurns)) <= 3 * p.total
    ensures 3 * p.total <= codec.size(p.content) + codec.size(i.tools) + codec.size(Arr(i.priorTurns)) + 9
  {
    CountIsCeiling(codec, p.content);
    CountIsCeiling(codec, i.tools);
    CountIsCeiling(codec, Arr(i.priorTurns));
  }

  function ProtocolTokens(codec: Codec, i: Inputs): nat {
    Tokens(codec, i.tools) + Tokens(codec, Arr(i.priorTurns))
  }

  function PacketBudget(codec: Codec, budget: Budget, i: Inputs): int {
    budget.maxInput - budget.outputReserve - ProtocolTokens(codec, i)
  }

  // ----- eviction -----

  function Evictable(): Dict -> bool {
    (d: Dict) => !Protected(d)
  }

  /** How many entries may be evicted. */
  function Unprotected(h: seq<Dict>): nat {
    if h == [] then 0 else Unprotected(h[..|h| - 1]) + if Protected(h[|h| - 1]) then 0 else 1
  }

  /** Every protected entry and the first m of the others. */
  function Trim(h: seq<Dict>, m: nat): seq<Dict> {
    if h == [] then []
    else
      var n := |h| - 1;
      if Protected(h[n]) || Unprotected(h[..n]) < m then Trim(h[..n], m) + [h[n]] else Trim(h[..n], m)
  }

  function Without<T>(s: seq<T>, p: nat): seq<T>
    requires p < |s|
  {
    s[..p] + s[p + 1..]
  }

  lemma {:induction false} TrimAll(h: seq<Dict>, m: nat)
    requires Unprotected(h) <= m
    ensures Trim(h, m) == h
  {
    hide Protected;
    if h != [] {
      TrimAll(h[..|h| - 1], m);
    }
  }

  lemma {:induction false} TrimCount(h: seq<Dict>, m: nat)
    requires m <= Unprotected(h)
    ensures Unprotected(Trim(h, m)) == m
  {
    hide Protected;
    if h != [] {
      var n := |h| - 1;
      if m <= Unprotected(h[..n]) {
        TrimCount(h[..n], m);
        assert Protected(h[n]) ==> Trim(h, m)[..|Trim(h, m)| - 1] == Trim(h[..n], m);
      } else {
        TrimAll(h, m);
      }
    }
  }

  lemma {:induction false} NothingUnprotected(h: seq<Dict>)
    requires forall j :: 0 <= j < |h| ==> Protected(h[j])
    ensures Unprotected(h) == 0
  {
    hide Protected;
    if h != [] {
      NothingUnprotected(h[..|h| - 1]);
    }
  }

  /** Evicting the last evictable entry keeps one fewer of them. */
  lemma {:induction false} TrimStep(h: seq<Dict>, m: nat, p: nat)
    requires m <= Unprotected(h) && p < |Trim(h, m)| && !Protected(Trim(h, m)[p])
    requires forall j :: p < j < |Trim(h, m)| ==> Protected(Trim(h, m)[j])
    ensures m > 0 && Without(Trim(h, m), p) == Trim(h, m - 1)
  {
    hide Protected, Unprotected, Trim, Without;
    TrimCount(h, m);
    SomethingUnprotected(Trim(h, m), p);
    NoneTrimmed(m);
    var n := |h| - 1;
    var t := Trim(h[..n], m);
    TrimLast(h, m);
    TrimLast(h, m - 1);
    if Protected(h[n]) {
      assert Trim(h, m)[p] == t[p];
      assert forall j :: p < j < |t| ==> Trim(h, m)[j] == t[j];
      TrimStep(h[..n], m, p);
      WithoutLast(t, h[n], p);
    } else if m <= Unprotected(h[..n]) {
      TrimStep(h[..n], m, p);
    } else {
      TrimAll(h[..n], m);
      TrimAll(h[..n], m - 1);
      WithoutEnd(h[..n], h[n]);
      assert Trim(h, m)[n] == h[n];
    }
  }

  lemma NoneTrimmed(m: nat)
    ensures Trim([], m) == [] && Unprotected([]) == 0
  {
  }

  lemma TrimLast(h: seq<Dict>, m: nat)
    requires h != []
    ensures var n := |h| - 1;
      && Trim(h, m) ==
         (if Protected(h[n]) || Unprotected(h[..n]) < m then Trim(h[..n], m) + [h[n]] else Trim(h[..n], m))
      && Unprotected(h) == Unprotected(h[..n]) + if Protected(h[n]) then 0 else 1
  {
  }

  lemma WithoutLast<T>(s: seq<T>, x: T, p: nat)
    requires p < |s|
    ensures Without(s + [x], p) == Without(s, p) + [x]
  {
  }

  lemma WithoutEnd<T>(s: seq<T>, x: T)
    ensures Without(s + [x], |s|) == s
  {
  }

  lemma {:induction false} SomethingUnprotected(h: seq<Dict>, p: nat)
    requires p < |h| && !Protected(h[p])
    ensures Unprotected(h) > 0
  {
    hide Protected;
    if p < |h| - 1 {
      SomethingUnprotected(h[..|h| - 1], p);
    }
  }

  lemma {:induction false} TrimCost(codec: Codec, h: seq<Dict>, m: nat)
    ensures SumTokens(codec, Objects(Trim(h, m))) <= SumTokens(codec, Objects(h))
  {
    hide Protected, Tokens, SumTokens;
    if h != [] {
      var n := |h| - 1;
      TrimCost(codec, h[..n], m);
      assert h == h[..n] + [h[n]];
      ObjectsMore(codec, h[..n], h[n]);
      ObjectsMore(codec, Trim(h[..n], m), h[n]);
    }
  }

  // ----- the packet -----

  /** The history section of `_fit_history`, before eviction. */
  function SectionHistory(codec: Codec, budget: Budget, i: Inputs): seq<Dict> {
    var flat := Flatten(codec, i.history);
    if flat.Failure? then [] else FittedHistory(codec, flat.value, budget.history)
  }

  /** The packet fits when m evictable history entries are left. */
  predicate Fits(codec: Codec, budget: Budget, i: Inputs, m: nat) {
    var packet := PacketJson(i, Dedup(i.observations), Dedup(i.evidence), Trim(SectionHistory(codec, budget, i), m));
    Tokens(codec, packet) <= PacketBudget(codec, budget, i)
  }

  predicate SectionTooLarge(codec: Codec, values: seq<Dict>, budget: int) {
    values != [] && SumTokens(codec, Objects(Dedup(values))) > budget
  }

  ghost predicate MandatoryRefused(codec: Codec, budget: Budget, i: Inputs) {
    PacketBudget(codec, budget, i) <= 0 || Tokens(codec, Obj(Mandatory(i))) > PacketBudget(codec, budget, i)
  }

  /** The inputs no packet can be made of. */
  ghost predicate Refused(codec: Codec, budget: Budget, i: Inputs) {
    || MandatoryRefused(codec, budget, i)
    || SectionTooLarge(codec, i.observations, budget.tool)
    || SectionTooLarge(codec, i.evidence, budget.evidence)
    || HistoryRefused(codec, i.history, budget.history)
    || NeverFits(codec, budget, i)
  }

  /** The error is the first that applies; the last guard fires only for a negative reserve. */
  ghost predicate Explains(codec: Codec, budget: Budget, i: Inputs, error: Error) {
    if MandatoryRefused(codec, budget, i) then error == MandatoryTooBig
    else if SectionTooLarge(codec, i.observations, budget.tool) then error == SectionTooBig("latest_observations")
    else if SectionTooLarge(codec, i.evidence, budget.evidence) then error == SectionTooBig("retrieved_evidence")
    else if HistoryRefused(codec, i.history, budget.history) then HistoryError(codec, i.history, budget.history, error)
    else if NeverFits(codec, budget, i) then error == ProtectedCannotFit
    else Overfull(codec, budget, i) && error == InputTooBig && budget.outputReserve < 0
  }

  ghost predicate NeverFits(codec: Codec, budget: Budget, i: Inputs) {
    forall m: nat :: m <= Unprotected(SectionHistory(codec, budget, i)) ==> !Fits(codec, budget, i, m)
  }

  /** The content sent, the lists it was made of, the omission records and the token total. */
  datatype Packet = Packet(
    content: Json, observations: seq<Dict>, evidence: seq<Dict>, history: seq<Dict>, omitted: seq<Omission>, total: nat)

  /** `history` is what is left after the fewest evictions that make the packet fit. */
  ghost predicate FewestEvictions(codec: Codec, budget: Budget, i: Inputs, history: seq<Dict>) {
    var section := SectionHistory(codec, budget, i);
    exists m: nat :: m <= Unprotected(section) && history == Trim(section, m) && Fits(codec, budget, i, m)
      && forall k: nat :: m < k <= Unprotected(section) ==> !Fits(codec, budget, i, k)
  }

  /** The packet made with the fewest evictions, tools and prior turns included, is more
      than the model takes; only a negative reserve allows that. */
  ghost predicate Overfull(codec: Codec, budget: Budget, i: Inputs) {
    exists history ::
      && FewestEvictions(codec, budget, i, history)
      && Tokens(codec, PacketJson(i, Dedup(i.observations), Dedup(i.evidence), history)) + ProtocolTokens(codec, i)
         > budget.maxInput
  }

  /** There is one such history. */
  lemma FewestUnique(codec: Codec, budget: Budget, i: Inputs, h: seq<Dict>, k: seq<Dict>)
    requires FewestEvictions(codec, budget, i, h) && FewestEvictions(codec, budget, i, k)
    ensures h == k
  {
    hide Fits, Trim, SectionHistory, Unprotected;
    var section := SectionHistory(codec, budget, i);
    var m: nat :| m <= Unprotected(section) && h == Trim(section, m) && Fits(codec, budget, i, m)
      && forall k: nat :: m < k <= Unprotected(section) ==> !Fits(codec, budget, i, k);
    var n: nat :| n <= Unprotected(section) && k == Trim(section, n) && Fits(codec, budget, i, n)
      && forall k: nat :: n < k <= Unprotected(section) ==> !Fits(codec, budget, i, k);
    assert m == n;
  }

  lemma OverfullIff(codec: Codec, budget: Budget, i: Inputs, h: seq<Dict>)
    requires FewestEvictions(codec, budget, i, h)
    ensures Overfull(codec, budget, i) <==>
      Tokens(codec, PacketJson(i, Dedup(i.observations), Dedup(i.evidence), h))
        + ProtocolTokens(codec, i) > budget.maxInput
  {
    hide FewestEvictions, Tokens, PacketJson, ProtocolTokens, Dedup;
    if Overfull(codec, budget, i) {
      var k :| FewestEvictions(codec, budget, i, k)
        && Tokens(codec, PacketJson(i, Dedup(i.observations), Dedup(i.evidence), k)) + ProtocolTokens(codec, i)
           > budget.maxInput;
      FewestUnique(codec, budget, i, h, k);
    }
  }

  ghost predicate Accounted(codec: Codec, budget: int, i: Inputs, history: seq<Dict>,
                            omitted: seq<Omission>, kept: seq<nat>, dropped: seq<nat>) {
    var flat := Flatten(codec, i.history);
    && flat.Success?
    && Accounts(codec, flat.value, PairOrigins(codec, flat.value), history, omitted, kept, dropped)
    && (forall k :: k in kept ==> k in Survivors(codec, flat.value) && k in ChosenOrigins(codec, flat.value, budget))
    && Causes(codec, flat.value, budget, dropped, omitted)
  }

  lemma AccountedEvict(codec: Codec, budget: int, i: Inputs, history: seq<Dict>, omitted: seq<Omission>,
                       kept: seq<nat>, dropped: seq<nat>, p: nat, reason: Reason)
    requires Accounted(codec, budget, i, history, omitted, kept, dropped)
    requires p < |history| && !Protected(history[p])
    requires reason == if IsMessage(history[p]) then GlobalBudgetMessage else GlobalBudgetSummary
    ensures p < |kept|
    ensures Accounted(codec, budget, i, Without(history, p), omitted + [HistoryOmission(codec, history[p], reason)],
                      Without(kept, p), dropped + [kept[p]])
  {
    hide Flatten, Protected, IsMessage, HistoryOmission, PairOrigins, Survivors, ChosenOrigins, Causes;
    assert |kept| == |history|;
    hide Accounts;
    var flat := Flatten(codec, i.history).value;
    AccountsEvict(codec, flat, PairOrigins(codec, flat), history, omitted, kept, dropped, p, reason);
    assert kept[p] in kept;
    EvictionCaused(codec, history[p], reason);
    CausesMore(codec, flat, budget, dropped, omitted, kept[p], HistoryOmission(codec, history[p], reason));
  }

  lemma EvictionCaused(codec: Codec, d: Dict, reason: Reason)
    ensures HistoryOmission(codec, d, reason).reason == reason
  {
  }

  /** The eviction loop of `assemble`. */
  method EvictUntilFits(codec: Codec, budget: Budget, i: Inputs, observations: seq<Dict>, evidence: seq<Dict>,
                        fitted: Fitted, ghost kept0: seq<nat>, ghost dropped0: seq<nat>)
    returns (r: Result<Fitted>, ghost kept: seq<nat>, ghost dropped: seq<nat>)
    requires observations == Dedup(i.observations) && evidence == Dedup(i.evidence)
    requires fitted.history == SectionHistory(codec, budget, i)
    requires Accounted(codec, budget.history, i, fitted.history, fitted.omitted, kept0, dropped0)
    ensures r.Failure? <==> NeverFits(codec, budget, i)
    ensures r.Failure? ==> r.error == ProtectedCannotFit
    ensures r.Success? ==> FewestEvictions(codec, budget, i, r.value.history)
    ensures r.Success? ==> Accounted(codec, budget.history, i, r.value.history, r.value.omitted, kept, dropped)
    ensures r.Success? ==>
      Tokens(codec, PacketJson(i, observations, evidence, r.value.history)) <= PacketBudget(codec, budget, i)
  {
    hide Tokens, PacketJson, PacketBudget, Trim, Unprotected, Dedup, Protected, IsMessage, HistoryOmission, Accounted,
      SectionHistory;
    var history, omitted := fitted.history, fitted.omitted;
    kept, dropped := kept0, dropped0;
    ghost var section := history;
    ghost var m: nat := Unprotected(section);
    TrimAll(section, m);
    while Tokens(codec, PacketJson(i, observations, evidence, history)) > PacketBudget(codec, budget, i)
      invariant m <= Unprotected(section) && history == Trim(section, m)
      invariant forall k: nat :: m < k <= Unprotected(section) ==> !Fits(codec, budget, i, k)
      invariant Accounted(codec, budget.history, i, history, omitted, kept, dropped)
      decreases |history|
    {
      var removable := LastBelow(history, Evictable(), |history|);
      assert !Fits(codec, budget, i, m);
      if removable.Nowhere? {
        NothingUnprotected(history);
        TrimCount(section, m);
        return Failure(ProtectedCannotFit), kept, dropped;
      }
      var p := removable.index;
      TrimStep(section, m, p);
      var reason := if IsMessage(history[p]) then GlobalBudgetMessage else GlobalBudgetSummary;
      AccountedEvict(codec, budget.history, i, history, omitted, kept, dropped, p, reason);
      omitted := omitted + [HistoryOmission(codec, history[p], reason)];
      kept, dropped := Without(kept, p), dropped + [kept[p]];
      history := Without(history, p);
      m := m - 1;
    }
    assert Fits(codec, budget, i, m);
    r := Success(Fitted(history, omitted));
  }

  /** A record for each duplicate of the two sections, then those of the history. */
  ghost predicate AllRecorded(codec: Codec, budget: int, i: Inputs, p: Packet, kept: seq<nat>, dropped: seq<nat>) {
    exists history ::
      && |p.observations| <= |i.observations| && |p.evidence| <= |i.evidence|
      && p.omitted == Repeated("latest_observations", |i.observations| - |p.observations|)
                      + Repeated("retrieved_evidence", |i.evidence| - |p.evidence|) + history
      && Accounted(codec, budget, i, p.history, history, kept, dropped)
  }

  lemma RecordsJoin(codec: Codec, budget: int, i: Inputs, p: Packet, observed: seq<Omission>, cited: seq<Omission>,
                    history: seq<Omission>, kept: seq<nat>, dropped: seq<nat>)
    requires |p.observations| <= |i.observations| && |p.evidence| <= |i.evidence|
    requires observed == Repeated("latest_observations", |i.observations| - |p.observations|)
    requires cited == Repeated("retrieved_evidence", |i.evidence| - |p.evidence|)
    requires p.omitted == observed + cited + history && Accounted(codec, budget, i, p.history, history, kept, dropped)
    ensures AllRecorded(codec, budget, i, p, kept, dropped)
  {
    hide Accounted, Repeated;
  }

  /** `assemble`.  `kept` and `dropped` are the flattened history's indices in the packet and in the omission list. */
  method Assemble(codec: Codec, budget: Budget, i: Inputs)
    returns (r: Result<Packet>, ghost kept: seq<nat>, ghost dropped: seq<nat>)
    ensures r.Failure? <==> Refused(codec, budget, i) || Overfull(codec, budget, i)
    ensures r.Failure? ==> Explains(codec, budget, i, r.error)
    ensures r.Success? ==> Holds(r.value.content, i, r.value.observations, r.value.evidence, r.value.history)
    ensures r.Success? ==>
      && r.value.total == Tokens(codec, r.value.content) + Tokens(codec, i.tools) + Tokens(codec, Arr(i.priorTurns))
      && r.value.total <= budget.maxInput - budget.outputReserve
    ensures r.Success? ==> r.value.observations == Dedup(i.observations) && r.value.evidence == Dedup(i.evidence)
    ensures r.Success? ==> FewestEvictions(codec, budget, i, r.value.history)
    ensures r.Success? ==> AllRecorded(codec, budget.history, i, r.value, kept, dropped)
  {
    hide Tokens, Mandatory, PacketJson, Dedup, Accounted, Flatten, FittedHistory, HistoryRefused, HistoryError,
      SumTokens, NeverFits, FewestEvictions, Objects, Holds, AllRecorded, Repeated, Overfull;
    kept, dropped := [], [];
    var protocol := ProtocolTokens(codec, i);
    var packetBudget := PacketBudget(codec, budget, i);
    if packetBudget <= 0 || Tokens(codec, Obj(Mandatory(i))) > packetBudget {
      return Failure(MandatoryTooBig), kept, dropped;
    }
    var observations, omitted := FitList(codec, i.observations, budget.tool, "latest_observations");
    if observations.Failure? {
      return Failure(observations.error), kept, dropped;
    }
    var evidence, repeated := FitList(codec, i.evidence, budget.evidence, "retrieved_evidence");
    if evidence.Failure? {
      return Failure(evidence.error), kept, dropped;
    }
    var section;
    section, kept, dropped := FitHistory(codec, i.history, budget.history);
    if section.Failure? {
      return Failure(section.error), kept, dropped;
    }
    StartAccounted(codec, budget.history, i, section.value.history, section.value.omitted, kept, dropped);
    var left;
    left, kept, dropped :=
      EvictUntilFits(codec, budget, i, observations.value, evidence.value, section.value, kept, dropped);
    if left.Failure? {
      return Failure(left.error), kept, dropped;
    }
    OverfullIff(codec, budget, i, left.value.history);
    var content := PacketJson(i, observations.value, evidence.value, left.value.history);
    var total := Tokens(codec, content) + protocol;
    if total > budget.maxInput {
      return Failure(InputTooBig), kept, dropped;
    }
    var all := omitted + repeated + left.value.omitted;
    r := Success(Packet(content, observations.value, evidence.value, left.value.history, all, total));
    RecordsJoin(codec, budget.history, i, r.value, omitted, repeated, left.value.omitted, kept, dropped);
  }

  /** The history can be flattened and normalised. */
  ghost predicate Readable(codec: Codec, i: Inputs) {
    Flatten(codec, i.history).Success? && !Unnormalisable(codec, Flatten(codec, i.history).value)
  }

  /** The last guard does fire: for every token counter and all inputs, some budget brings
      them to it if and only if their history is readable. */
  lemma LastGuardFiresIff(codec: Codec, i: Inputs)
    ensures Readable(codec, i) <==> exists budget: Budget :: !Refused(codec, budget, i) && Overfull(codec, budget, i)
  {
    hide Overfull, Flatten, Unnormalisable, MandatoryRefused, SectionTooLarge, NeverFits;
    if Readable(codec, i) {
      var budget := GuardedBudget(codec, i);
      assert !Refused(codec, budget, i) && Overfull(codec, budget, i);
    }
  }

  /** Sections with all the room they need, a limit of nothing, and a reserve that lends it. */
  lemma GuardedBudget(codec: Codec, i: Inputs) returns (budget: Budget)
    requires Readable(codec, i)
    ensures !Refused(codec, budget, i) && Overfull(codec, budget, i)
  {
    hide Tokens, SumTokens, Flatten, FittedHistory, PacketJson, Mandatory, Unnormalisable, Trim, Unprotected, Dedup,
      PairCost, Overfull, ProtocolTokens;
    var flat := Flatten(codec, i.history).value;
    var tool := SumTokens(codec, Objects(Dedup(i.observations)));
    var evidence := SumTokens(codec, Objects(Dedup(i.evidence)));
    var section := FittedHistory(codec, flat, PairCost(codec, flat));
    var packet := Tokens(codec, PacketJson(i, Dedup(i.observations), Dedup(i.evidence), section));
    var lent := packet + Tokens(codec, Obj(Mandatory(i))) + ProtocolTokens(codec, i);
    budget := Budget(0, evidence, tool, PairCost(codec, flat), -lent);
    assert SectionHistory(codec, budget, i) == section;
    TrimAll(section, Unprotected(section));
    assert Fits(codec, budget, i, Unprotected(section));
    assert FewestEvictions(codec, budget, i, section);
    OverfullIff(codec, budget, i, section);
  }

  lemma StartAccounted(codec: Codec, budget: int, i: Inputs, history: seq<Dict>, omitted: seq<Omission>, kept: seq<nat>,
                       dropped: seq<nat>)
    requires Flatten(codec, i.history).Success?
    requires var flat := Flatten(codec, i.history).value;
      && Accounts(codec, flat, PairOrigins(codec, flat), history, omitted, kept, dropped)
      && (forall k :: k in kept ==> k in Survivors(codec, flat) && k in ChosenOrigins(codec, flat, budget))
      && Causes(codec, flat, budget, dropped, omitted)
    ensures Accounted(codec, budget, i, history, omitted, kept, dropped)
  {
    hide Flatten, Accounts, PairOrigins, Survivors, ChosenOrigins, Causes;
  }

  // ----- what the packet keeps -----

  /** Why an entry of the packet is protected: it is of the pair, or no message and came so marked. */
  ghost predicate ProtectedAs(d: Dict, original: Dict, inPair: bool) {
    Protected(d) <==> inPair || (!IsMessage(d) && Protected(original))
  }

  /** Message ids are unique in the packet; what is protected is the latest pair, which is
      there, and any other kind of entry that came with the mark, which no message can. */
  lemma PacketHistory(codec: Codec, budget: int, i: Inputs, history: seq<Dict>, omitted: seq<Omission>, kept: seq<nat>,
                      dropped: seq<nat>)
    requires Accounted(codec, budget, i, history, omitted, kept, dropped)
    ensures forall a, b :: 0 <= a < b < |history| && IsMessage(history[a]) && IsMessage(history[b]) ==>
      MessageId(codec, history[a]) != MessageId(codec, history[b])
    ensures var flat := Flatten(codec, i.history).value;
      var pair := PairOrigins(codec, flat);
      && (forall k :: 0 <= k < |history| ==>
            kept[k] < |flat| && ProtectedAs(history[k], flat[kept[k]], kept[k] in pair))
      && (forall j :: j in pair ==>
            exists k :: 0 <= k < |history| && kept[k] == j && IsMessage(history[k]) && Protected(history[k]))
  {
    hide Flatten, Marked, IsMessage, Protected, Survivors, PairOrigins, Partition, Records, MessageId;
    var flat := Flatten(codec, i.history).value;
    var pair := PairOrigins(codec, flat);
    forall a, b | 0 <= a < b < |history| && IsMessage(history[a]) && IsMessage(history[b])
      ensures MessageId(codec, history[a]) != MessageId(codec, history[b])
    {
      assert kept[a] in kept && kept[b] in kept;
      SurvivorsDiffer(codec, flat, kept[a], kept[b], kept[a] in pair, kept[b] in pair);
    }
    forall k | 0 <= k < |history|
      ensures ProtectedAs(history[k], flat[kept[k]], kept[k] in pair)
    {
      MarkedProtection(flat[kept[k]], kept[k] in pair);
    }
    forall j | j in pair
      ensures exists k :: 0 <= k < |history| && kept[k] == j && IsMessage(history[k]) && Protected(history[k])
    {
      var k :| 0 <= k < |kept| && kept[k] == j;
      PairIsMessages(codec, flat, j);
      MarkedProtection(flat[j], true);
    }
  }

  lemma SurvivorsDiffer(codec: Codec, flat: seq<Dict>, a: nat, b: nat, markA: bool, markB: bool)
    requires a < b < |flat| && a in Survivors(codec, flat) && b in Survivors(codec, flat)
    requires IsMessage(Marked(flat[a], markA)) && IsMessage(Marked(flat[b], markB))
    ensures MessageId(codec, Marked(flat[a], markA)) != MessageId(codec, Marked(flat[b], markB))
  {
    hide Survivors, Marked;
    var survivors := Survivors(codec, flat);
    SurvivorsDistinct(codec, flat);
    var x :| 0 <= x < |survivors| && survivors[x] == a;
    var y :| 0 <= y < |survivors| && survivors[y] == b;
    assert !SameEntry(codec, Pick(flat, survivors)[x], Pick(flat, survivors)[y]);
    MarkedGet(flat[a], markA, "history_kind");
    MarkedGet(flat[b], markB, "history_kind");
    MarkedGet(flat[a], markA, "message_id");
    MarkedGet(flat[b], markB, "message_id");
  }

  lemma PairIsMessages(codec: Codec, flat: seq<Dict>, j: nat)
    requires j in PairOrigins(codec, flat)
    ensures j < |flat| && IsMessage(flat[j])
  {
    hide IsMessage, Survivors;
    var survivors := Survivors(codec, flat);
    var pair := LatestPair(Pick(flat, survivors));
    var k := ThroughMember(survivors, pair, j);
    var p :| 0 <= p < |pair| && pair[p] == k;
  }

  /** Each packed section exceeds its own budget by the separators at most. */
  lemma SectionOverheads(codec: Codec, budget: Budget, i: Inputs, history: seq<Dict>)
    requires DumpsLists(codec) && !Refused(codec, budget, i) && FewestEvictions(codec, budget, i, history)
    ensures i.observations != [] ==>
      Tokens(codec, Arr(Objects(Dedup(i.observations)))) <= budget.tool + (|Dedup(i.observations)| + 3) / 3
    ensures i.evidence != [] ==>
      Tokens(codec, Arr(Objects(Dedup(i.evidence)))) <= budget.evidence + (|Dedup(i.evidence)| + 3) / 3
    ensures SectionHistory(codec, budget, i) != [] ==>
      Tokens(codec, Arr(Objects(history))) <= budget.history + (|history| + 3) / 3
  {
    hide Tokens, SumTokens, DumpsLists, Flatten, Unnormalisable, Fits, Trim, Dedup, MandatoryRefused, FittedHistory,
      PairCost;
    SeparatorOverhead(codec, Objects(Dedup(i.observations)));
    SeparatorOverhead(codec, Objects(Dedup(i.evidence)));
    SeparatorOverhead(codec, Objects(history));
    var flat := Flatten(codec, i.history).value;
    FittedWithinBudget(codec, flat, budget.history);
    var section := SectionHistory(codec, budget, i);
    var m: nat :| m <= Unprotected(section) && history == Trim(section, m);
    TrimCost(codec, section, m);
  }

  /** A supplied mark protects a summary, which is never of the derived pair. */
  lemma SuppliedMarkHonoured(codec: Codec, d: Dict)
    requires Get(d, "history_kind") == Str("ticket_summary") && Protected(d) && "history_item_id" in d
    requires "role" !in d && WRAPPER !in d
    ensures Flatten(codec, [d]) == Success([d]) && PairOrigins(codec, [d]) == {} && Protected(Marked(d, false))
  {
    assert !IsMessage(d) by {
      assert |"ticket_summary"| != |"message"|;
    }
    SummaryFlattens(codec, d);
    hide IsMessage;
    MarkedProtection(d, false);
  }

  lemma SummaryFlattens(codec: Codec, d: Dict)
    requires !IsMessage(d) && "history_kind" in d && "history_item_id" in d && "role" !in d && WRAPPER !in d
    ensures Flatten(codec, [d]) == Success([d])
  {
    assert Flatten(codec, []) == Success([]);
    assert [d][..0] == [];
    assert FlattenOne(codec, d, 0) == PlainEntry(codec, d, 0);
    assert PlainEntry(codec, d, 0) == Success([d]);
    assert [] + [d] == [d];
  }

  /** There are such summaries. */
  lemma SuppliedMarkExists(codec: Codec)
    ensures exists d: Dict ::
      Flatten(codec, [d]) == Success([d]) && PairOrigins(codec, [d]) == {} && Protected(Marked(d, false))
  {
    var d: Dict := map["history_kind" := Str("ticket_summary"), "history_item_id" := Str("s"),
                       "retention" := LATEST_PAIR];
    assert |"history_kind"| == 12 && |"retention"| == 9 && |"history_item_id"| == 15 && |"role"| == 4
      && |WRAPPER| == 36;
    assert d["history_kind"] == Str("ticket_summary") && d["retention"] == LATEST_PAIR;
    hide Flatten, PairOrigins, Marked;
    SuppliedMarkHonoured(codec, d);
  }
}
