/** What flattening the history keeps: one entry for every plain value, for every object
    in a legacy wrapper and for what is left of the wrapper, each with its own fields. */
module ContextFlatten {
  import opened ContextModel

  /** The fields flattening may set over a supplied value. */
  const CANONICAL: set<string> := {"history_kind", "message_id", "synthetic_message_id"}

  predicate Carries(entry: Dict, original: Dict) {
    forall k :: k in original && k !in CANONICAL ==> k in entry && entry[k] == original[k]
  }

  predicate KeepsId(entry: Dict, original: Dict) {
    Truthy(Get(original, "message_id")) ==> Get(entry, "message_id") == Get(original, "message_id")
  }

  lemma KeysDiffer()
    ensures "message_id" != "historical" && "message_id" != "trusted" && "message_id" != "synthetic_message_id"
    ensures "message_id" != "history_kind" && "message_id" != "legacy_checkpoint" && "message_id" != "history_item_id"
    ensures "history_kind" != "legacy_checkpoint" && "history_kind" != "synthetic_message_id"
    ensures "history_kind" != "historical" && "history_kind" != "trusted"
  {
    assert "message_id"[0] != "historical"[0];
    assert |"message_id"| == 10 && |"trusted"| == 7 && |"synthetic_message_id"| == 20 && |"history_kind"| == 12;
    assert |"legacy_checkpoint"| == 17 && |"history_item_id"| == 15 && |"historical"| == 10;
  }

  lemma SetDefaultGet(d: Dict, k: string, v: Json, key: string)
    ensures Carries(SetDefault(d, k, v), d)
    ensures key != k ==> Get(SetDefault(d, k, v), key) == Get(d, key)
    ensures Get(d, k) != Null ==> Get(SetDefault(d, k, v), k) == Get(d, k)
    ensures k !in d ==> Get(SetDefault(d, k, v), k) == v
  {
  }

  lemma CarriesThrough(a: Dict, b: Dict, c: Dict)
    requires Carries(b, a) && Carries(c, b)
    ensures Carries(c, a)
  {
  }

  /** The naming step shared by both kinds of message. */
  function Identified(d: Dict, id: string): Dict {
    var named :=
      if Truthy(Get(d, "message_id")) then d
      else d["message_id" := Str(id)]["synthetic_message_id" := Bool(true)];
    SetDefault(SetDefault(named, "historical", Bool(true)), "trusted", Bool(false))
  }

  lemma IdentifiedKeeps(d: Dict, id: string)
    requires id != ""
    ensures Carries(Identified(d, id), d) && KeepsId(Identified(d, id), d)
    ensures Truthy(Get(Identified(d, id), "message_id"))
    ensures Get(Identified(d, id), "history_kind") == Get(d, "history_kind")
  {
    hide SetDefault;
    KeysDiffer();
    var named :=
      if Truthy(Get(d, "message_id")) then d
      else d["message_id" := Str(id)]["synthetic_message_id" := Bool(true)];
    assert Carries(named, d);
    var dated := SetDefault(named, "historical", Bool(true));
    SetDefaultGet(named, "historical", Bool(true), "message_id");
    SetDefaultGet(named, "historical", Bool(true), "history_kind");
    SetDefaultGet(dated, "trusted", Bool(false), "message_id");
    SetDefaultGet(dated, "trusted", Bool(false), "history_kind");
    CarriesThrough(d, named, dated);
    CarriesThrough(d, dated, SetDefault(dated, "trusted", Bool(false)));
  }

  /** A wrapped message keeps its fields, has an id, and is a message unless it says otherwise. */
  lemma LegacyMessageKeeps(item: Dict, outer: nat, inner: nat)
    ensures var e := LegacyMessage(item, outer, inner);
      && Carries(e, item) && KeepsId(e, item) && Truthy(Get(e, "message_id"))
      && ("history_kind" !in item ==> IsMessage(e))
  {
    hide SetDefault, Decimal;
    KeysDiffer();
    var kind := SetDefault(item, "history_kind", Str("message"));
    var kinded := SetDefault(kind, "legacy_checkpoint", Bool(true));
    SetDefaultGet(item, "history_kind", Str("message"), "message_id");
    SetDefaultGet(kind, "legacy_checkpoint", Bool(true), "message_id");
    SetDefaultGet(kind, "legacy_checkpoint", Bool(true), "history_kind");
    CarriesThrough(item, kind, kinded);
    var id := "legacy-checkpoint-history-" + Decimal(outer) + "-" + Decimal(inner);
    assert |id| > 0;
    IdentifiedKeeps(kinded, id);
    CarriesThrough(item, kinded, Identified(kinded, id));
    assert LegacyMessage(item, outer, inner) == Identified(kinded, id);
  }

  function CountObjects(items: seq<Json>): nat {
    if items == [] then 0
    else CountObjects(items[..|items| - 1]) + if items[|items| - 1].Obj? then 1 else 0
  }

  /** One entry for every object of the wrapper, in their order. */
  lemma {:induction false} LegacyMessagesCover(items: seq<Json>, outer: nat)
    ensures |LegacyMessages(items, outer)| == CountObjects(items)
    ensures forall inner :: 0 <= inner < |items| && items[inner].Obj? ==>
      var at := CountObjects(items[..inner]);
      at < CountObjects(items) && LegacyMessages(items, outer)[at] == LegacyMessage(items[inner].fields, outer, inner)
  {
    hide LegacyMessage;
    if items != [] {
      var m := |items| - 1;
      LegacyMessagesCover(items[..m], outer);
      assert forall inner :: 0 <= inner <= m ==> items[..m][..inner] == items[..inner];
    }
  }

  lemma PlainEntryKeeps(codec: Codec, value: Dict, outer: nat)
    ensures var r := PlainEntry(codec, value, outer);
      && (r.Failure? <==>
            && LooksLikeMessage(value) && !Truthy(Get(value, "message_id"))
            && Get(value, "legacy_checkpoint") != Bool(true))
      && (r.Success? ==> |r.value| == 1 && Carries(r.value[0], value) && KeepsId(r.value[0], value))
      && (r.Success? && LooksLikeMessage(value) ==> IsMessage(r.value[0]) && Truthy(Get(r.value[0], "message_id")))
  {
    hide SetDefault, Decimal, LooksLikeMessage;
    KeysDiffer();
    if LooksLikeMessage(value) {
      var item := value["history_kind" := Str("message")];
      assert Get(item, "message_id") == Get(value, "message_id");
      assert Get(item, "legacy_checkpoint") == Get(value, "legacy_checkpoint");
      var id := "legacy-checkpoint-history-" + Decimal(outer);
      assert |id| > 0;
      IdentifiedKeeps(item, id);
      CarriesThrough(value, item, Identified(item, id));
      assert PlainEntry(codec, value, outer).Success? ==>
        PlainEntry(codec, value, outer).value == [Identified(item, id)];
    } else {
      var r := PlainEntry(codec, value, outer);
      var kinded := SetDefault(value, "history_kind", Str("ticket_summary"));
      var itemId :=
        if Truthy(Get(value, "summary_id")) then codec.text(Get(value, "summary_id"))
        else if Truthy(Get(value, "ticket_id")) then codec.text(Get(value, "ticket_id"))
        else "history-summary-" + Decimal(outer);
      SetDefaultGet(value, "history_kind", Str("ticket_summary"), "message_id");
      SetDefaultGet(kinded, "history_item_id", Str(itemId), "message_id");
      assert r == Success([SetDefault(kinded, "history_item_id", Str(itemId))]);
      CarriesThrough(value, kinded, r.value[0]);
    }
  }

  lemma RemainderKeeps(value: Dict, outer: nat)
    ensures |Remainder(value, outer)| == if value - {WRAPPER} == map[] then 0 else 1
    ensures Remainder(value, outer) != [] ==> Carries(Remainder(value, outer)[0], value - {WRAPPER})
  {
    hide SetDefault, Decimal;
    var rest := value - {WRAPPER};
    var kinded := SetDefault(rest, "history_kind", Str("legacy_summary"));
    var id := Str("legacy-summary-" + Decimal(outer));
    SetDefaultGet(rest, "history_kind", Str("legacy_summary"), "");
    SetDefaultGet(kinded, "history_item_id", id, "");
    CarriesThrough(rest, kinded, SetDefault(kinded, "history_item_id", id));
  }

  /** The entries of each value stand in the flattened history, in the order of the values. */
  lemma {:induction false} FlattenSlices(codec: Codec, values: seq<Dict>, outer: nat) returns (from: nat)
    requires Flatten(codec, values).Success? && outer < |values|
    ensures FlattenOne(codec, values[outer], outer).Success?
    ensures var flat, one := Flatten(codec, values).value, FlattenOne(codec, values[outer], outer).value;
      && from + |one| <= |flat| && flat[from..from + |one|] == one
      && Flatten(codec, values[..outer]) == Success(flat[..from])
  {
    hide FlattenOne;
    var m := |values| - 1;
    var before, flat := Flatten(codec, values[..m]).value, Flatten(codec, values).value;
    assert flat[..|before|] == before;
    if outer == m {
      from := |before|;
    } else {
      from := FlattenSlices(codec, values[..m], outer);
      assert values[..m][..outer] == values[..outer];
      assert flat[..from] == before[..from];
    }
  }

  // ----- synthetic ids -----

  predicate AllDigits(text: string) {
    forall k :: 0 <= k < |text| ==> '0' <= text[k] <= '9'
  }

  function Value(text: string): nat
    requires AllDigits(text)
  {
    if text == "" then 0 else 10 * Value(text[..|text| - 1]) + (text[|text| - 1] - '0') as nat
  }

  predicate IsNumber(text: string) {
    text != "" && AllDigits(text)
  }

  lemma {:induction false} DecimalIsNumber(n: nat)
    ensures IsNumber(Decimal(n)) && Value(Decimal(n)) == n
  {
    DigitIs(n % 10);
    if n < 10 {
      assert Decimal(n)[..0] == "" && Decimal(n)[0] == Digit(n);
    } else {
      DecimalIsNumber(n / 10);
      assert Decimal(n)[..|Decimal(n)| - 1] == Decimal(n / 10);
    }
  }

  lemma DigitIs(n: nat)
    requires n < 10
    ensures '0' <= Digit(n) <= '9' && (Digit(n) - '0') as nat == n
  {
  }

  lemma SameHead(a: string, b: string, c: string, d: string)
    requires IsNumber(a) && IsNumber(c) && a + "-" + b == c + "-" + d
    ensures a == c && b == d
  {
    var left, right := a + "-" + b, c + "-" + d;
    assert left[|a|] == '-' && right[|c|] == '-';
    assert |a| == |c|;
    assert left[..|a|] == a && right[..|a|] == c;
    assert left[|a| + 1..] == b && right[|a| + 1..] == d;
  }

  function NestedId(outer: nat, inner: nat): string {
    "legacy-checkpoint-history-" + Decimal(outer) + "-" + Decimal(inner)
  }

  function PlainId(outer: nat): string {
    "legacy-checkpoint-history-" + Decimal(outer)
  }

  /** Ids made up for different places differ, so that no unnamed message is taken for another. */
  lemma SyntheticIdsDiffer(o1: nat, i1: nat, o2: nat, i2: nat)
    ensures NestedId(o1, i1) == NestedId(o2, i2) ==> o1 == o2 && i1 == i2
    ensures PlainId(o1) == PlainId(o2) ==> o1 == o2
    ensures NestedId(o1, i1) != PlainId(o2)
  {
    hide Decimal;
    var p := "legacy-checkpoint-history-";
    DecimalIsNumber(o1);
    DecimalIsNumber(o2);
    DecimalIsNumber(i1);
    DecimalIsNumber(i2);
    var a, b, c, d := Decimal(o1), Decimal(i1), Decimal(o2), Decimal(i2);
    assert NestedId(o1, i1) == p + (a + "-" + b) && NestedId(o2, i2) == p + (c + "-" + d);
    assert NestedId(o1, i1)[|p|..] == a + "-" + b && NestedId(o2, i2)[|p|..] == c + "-" + d;
    assert PlainId(o1)[|p|..] == a && PlainId(o2)[|p|..] == c;
    if NestedId(o1, i1) == NestedId(o2, i2) {
      SameHead(a, b, c, d);
    }
    assert (a + "-" + b)[|a|] == '-' && a + "-" + b != c;
  }

  /** An unnamed message gets the id of its place, and says so. */
  lemma UnnamedGetsId(codec: Codec, d: Dict, outer: nat, inner: nat)
    requires !Truthy(Get(d, "message_id"))
    ensures var e := LegacyMessage(d, outer, inner);
      Get(e, "message_id") == Str(NestedId(outer, inner)) && Get(e, "synthetic_message_id") == Bool(true)
    ensures LooksLikeMessage(d) && Get(d, "legacy_checkpoint") == Bool(true) && !Get(d, WRAPPER).Arr? ==>
      var r := FlattenOne(codec, d, outer);
      && r.Success? && |r.value| == 1
      && Get(r.value[0], "message_id") == Str(PlainId(outer)) && Get(r.value[0], "synthetic_message_id") == Bool(true)
  {
    hide Decimal, LooksLikeMessage, SetDefault;
    KeysDiffer();
    SyntheticKeys();
    var kind := SetDefault(d, "history_kind", Str("message"));
    var kinded := SetDefault(kind, "legacy_checkpoint", Bool(true));
    SetDefaultGet(d, "history_kind", Str("message"), "message_id");
    SetDefaultGet(kind, "legacy_checkpoint", Bool(true), "message_id");
    IdentifiedUnnamed(kinded, NestedId(outer, inner));
    assert LegacyMessage(d, outer, inner) == Identified(kinded, NestedId(outer, inner));
    var item := d["history_kind" := Str("message")];
    assert Get(item, "message_id") == Get(d, "message_id");
    IdentifiedUnnamed(item, PlainId(outer));
    if LooksLikeMessage(d) && Get(d, "legacy_checkpoint") == Bool(true) {
      assert Get(item, "legacy_checkpoint") == Bool(true);
      assert PlainEntry(codec, d, outer) == Success([Identified(item, PlainId(outer))]);
    }
  }

  lemma SyntheticKeys()
    ensures "synthetic_message_id" != "historical" && "synthetic_message_id" != "trusted"
  {
    assert |"synthetic_message_id"| == 20 && |"historical"| == 10 && |"trusted"| == 7;
  }

  lemma IdentifiedUnnamed(d: Dict, id: string)
    requires !Truthy(Get(d, "message_id"))
    ensures Get(Identified(d, id), "message_id") == Str(id)
    ensures Get(Identified(d, id), "synthetic_message_id") == Bool(true)
  {
    hide SetDefault;
    KeysDiffer();
    SyntheticKeys();
    var named := d["message_id" := Str(id)]["synthetic_message_id" := Bool(true)];
    var dated := SetDefault(named, "historical", Bool(true));
    SetDefaultGet(named, "historical", Bool(true), "message_id");
    SetDefaultGet(named, "historical", Bool(true), "synthetic_message_id");
    SetDefaultGet(dated, "trusted", Bool(false), "message_id");
    SetDefaultGet(dated, "trusted", Bool(false), "synthetic_message_id");
  }

  // ----- omission records -----

  /** Python's str() of a text is the text. */
  ghost predicate KeepsTexts(codec: Codec) {
    forall s: string :: codec.text(Str(s)) == s
  }

  /** A record names its entry: a message by its id, a ticket summary by the first identity it has. */
  lemma OmissionNames(codec: Codec, d: Dict, reason: Reason)
    requires KeepsTexts(codec)
    ensures IsMessage(d) && Truthy(Get(d, "message_id")) ==>
      HistoryOmission(codec, d, reason) == Omission("relevant_history", "message", codec.text(d["message_id"]), reason)
    ensures Get(d, "history_kind") == Str("ticket_summary") && Truthy(Get(d, "summary_id")) ==>
      HistoryOmission(codec, d, reason)
        == Omission("relevant_history", "ticket_summary", codec.text(d["summary_id"]), reason)
    ensures
      && Get(d, "history_kind") == Str("ticket_summary")
      && !Truthy(Get(d, "summary_id")) && Truthy(Get(d, "history_item_id"))
      ==> HistoryOmission(codec, d, reason)
            == Omission("relevant_history", "ticket_summary", codec.text(d["history_item_id"]), reason)
  {
    assert codec.text(Str("message")) == "message" && codec.text(Str("ticket_summary")) == "ticket_summary";
    assert |"message"| == 7 && |"ticket_summary"| == 14;
    hide KeepsTexts, Truthy, IsMessage;
    if IsMessage(d) {
      assert Get(d, "history_kind") == Str("message") by {
        MessageKind(d);
      }
    }
    KindsTruthy();
    var keys := ["summary_id", "history_item_id", "ticket_id"];
    assert keys[1..] == ["history_item_id", "ticket_id"];
    if !Truthy(Get(d, "summary_id")) && Truthy(Get(d, "history_item_id")) {
      assert FirstTruthy(codec, d, keys[1..], "summary-unknown") == codec.text(Get(d, "history_item_id"));
      assert FirstTruthy(codec, d, keys, "summary-unknown") == FirstTruthy(codec, d, keys[1..], "summary-unknown");
    }
  }

  lemma MessageKind(d: Dict)
    requires IsMessage(d)
    ensures Get(d, "history_kind") == Str("message")
  {
  }

  lemma KindsTruthy()
    ensures Truthy(Str("message")) && Truthy(Str("ticket_summary")) && !Truthy(Null)
  {
    assert |"message"| == 7 && |"ticket_summary"| == 14;
  }

  /** What is no message is a ticket summary unless it says otherwise, and has an identity. */
  lemma SummaryGetsIdentity(codec: Codec, value: Dict, outer: nat)
    requires !LooksLikeMessage(value)
    ensures var r := PlainEntry(codec, value, outer);
      && r.Success? && |r.value| == 1 && "history_item_id" in r.value[0]
      && ("history_kind" !in value ==> Get(r.value[0], "history_kind") == Str("ticket_summary"))
      && ("history_item_id" !in value && Truthy(Get(value, "summary_id")) ==>
            r.value[0]["history_item_id"] == Str(codec.text(value["summary_id"])))
      && ("history_item_id" !in value && !Truthy(Get(value, "summary_id")) && Truthy(Get(value, "ticket_id")) ==>
            r.value[0]["history_item_id"] == Str(codec.text(value["ticket_id"])))
  {
    assert "history_kind" != "history_item_id" by {
      assert |"history_kind"| != |"history_item_id"|;
    }
  }
}
