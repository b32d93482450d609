/** Values, token counting and history normalisation of the context assembler
    (backend/src/supportguard/agent/context.py).  Dictionaries are maps; what
    json.dumps and str() do to a value is a parameter, the `Codec`. */
module ContextModel {
  import opened Sequences

  datatype Json = Null | Bool(b: bool) | Num(n: int) | Str(s: string) | Arr(items: seq<Json>) | Obj(fields: Dict)

  type Dict = map<string, Json>

  /** `size`: length of the canonical UTF-8 dump; `text`: Python's str(). */
  datatype Codec = Codec(size: Json -> nat, text: Json -> string)

  datatype Result<T> = Success(value: T) | Failure(error: Error)

  datatype Error =
    | MandatoryTooBig
    | SectionTooBig(section: string)
    | HistoryMessageIdMissing
    | HistoryIdentityConflict(id: string)
    | HistoryKeyMissing              // KeyError on value["message_id"]
    | PairTooBig
    | ProtectedCannotFit
    | InputTooBig

  function Max(a: int, b: int): int {
    if a < b then b else a
  }

  /** `count_tokens`. */
  function Tokens(codec: Codec, v: Json): (n: nat)
    ensures n >= 1
  {
    Max(1, (codec.size(v) + 2) / 3)
  }

  /** One token for every three bytes, rounded up, and at least one. */
  lemma CountIsCeiling(codec: Codec, v: Json)
    ensures codec.size(v) <= 3 * Tokens(codec, v) <= if codec.size(v) == 0 then 3 else codec.size(v) + 2
  {
  }

  function Get(d: Dict, k: string): Json {
    if k in d then d[k] else Null
  }

  function SetDefault(d: Dict, k: string, v: Json): Dict {
    if k in d then d else d[k := v]
  }

  predicate Truthy(v: Json) {
    match v
    case Null => false
    case Bool(b) => b
    case Num(n) => n != 0
    case Str(s) => s != ""
    case Arr(items) => items != []
    case Obj(fields) => fields != map[]
  }

  predicate IsMessage(d: Dict) {
    Get(d, "history_kind") == Str("message")
  }

  predicate IsResponse(d: Dict) {
    IsMessage(d) && (Get(d, "role") == Str("assistant") || Get(d, "role") == Str("action"))
  }

  predicate IsRequest(d: Dict) {
    IsMessage(d) && (Get(d, "role") == Str("customer") || Get(d, "role") == Str("user"))
  }

  /** What counts as empty, and which entries are requests and responses. */
  lemma KindsMean(v: Json, d: Dict)
    ensures Truthy(v) <==> v !in {Null, Bool(false), Num(0), Str(""), Arr([]), Obj(map[])}
    ensures IsMessage(d) <==> "history_kind" in d && d["history_kind"] == Str("message")
    ensures IsRequest(d) <==> IsMessage(d) && "role" in d && d["role"] in {Str("customer"), Str("user")}
    ensures IsResponse(d) <==> IsMessage(d) && "role" in d && d["role"] in {Str("assistant"), Str("action")}
    ensures LooksLikeMessage(d) <==>
      || IsMessage(d)
      || ("content" in d && var m := d["history_kind" := Str("message")]; IsRequest(m) || IsResponse(m))
  {
  }

  function Digit(n: nat): char
    requires n < 10
  {
    "0123456789"[n]
  }

  function Decimal(n: nat): string {
    if n < 10 then [Digit(n)] else Decimal(n / 10) + [Digit(n % 10)]
  }

  // ----- flattening -----

  const WRAPPER := "current_conversation_recent_messages"

  /** One message of a legacy wrapper. */
  function LegacyMessage(item: Dict, outer: nat, inner: nat): Dict {
    var kinded := SetDefault(SetDefault(item, "history_kind", Str("message")), "legacy_checkpoint", Bool(true));
    var named :=
      if Truthy(Get(kinded, "message_id")) then kinded
      else kinded["message_id" := Str("legacy-checkpoint-history-" + Decimal(outer) + "-" + Decimal(inner))]
                 ["synthetic_message_id" := Bool(true)];
    SetDefault(SetDefault(named, "historical", Bool(true)), "trusted", Bool(false))
  }

  /** Non-object entries of the wrapper are skipped. */
  function LegacyMessages(items: seq<Json>, outer: nat): seq<Dict> {
    if items == [] then []
    else
      var inner := |items| - 1;
      LegacyMessages(items[..inner], outer)
      + (if items[inner].Obj? then [LegacyMessage(items[inner].fields, outer, inner)] else [])
  }

  function Remainder(value: Dict, outer: nat): seq<Dict> {
    var rest := value - {WRAPPER};
    if rest == map[] then []
    else [SetDefault(SetDefault(rest, "history_kind", Str("legacy_summary")),
                     "history_item_id", Str("legacy-summary-" + Decimal(outer)))]
  }

  predicate LooksLikeMessage(value: Dict) {
    || IsMessage(value)
    || (Get(value, "role") in {Str("customer"), Str("user"), Str("assistant"), Str("action")} && "content" in value)
  }

  function PlainEntry(codec: Codec, value: Dict, outer: nat): Result<seq<Dict>> {
    if LooksLikeMessage(value) then
      var item := value["history_kind" := Str("message")];
      if !Truthy(Get(item, "message_id")) && Get(item, "legacy_checkpoint") != Bool(true) then
        Failure(HistoryMessageIdMissing)
      else
        var named :=
          if Truthy(Get(item, "message_id")) then item
          else item["message_id" := Str("legacy-checkpoint-history-" + Decimal(outer))]
                   ["synthetic_message_id" := Bool(true)];
        Success([SetDefault(SetDefault(named, "historical", Bool(true)), "trusted", Bool(false))])
    else
      var itemId :=
        if Truthy(Get(value, "summary_id")) then codec.text(Get(value, "summary_id"))
        else if Truthy(Get(value, "ticket_id")) then codec.text(Get(value, "ticket_id"))
        else "history-summary-" + Decimal(outer);
      Success([SetDefault(SetDefault(value, "history_kind", Str("ticket_summary")), "history_item_id", Str(itemId))])
  }

  function FlattenOne(codec: Codec, value: Dict, outer: nat): Result<seq<Dict>> {
    if Get(value, WRAPPER).Arr? then Success(LegacyMessages(value[WRAPPER].items, outer) + Remainder(value, outer))
    else PlainEntry(codec, value, outer)
  }

  /** The flattened history, or the first error met. */
  function Flatten(codec: Codec, values: seq<Dict>): Result<seq<Dict>> {
    if values == [] then Success([])
    else
      var before := Flatten(codec, values[..|values| - 1]);
      if before.Failure? then before
      else
        var one := FlattenOne(codec, values[|values| - 1], |values| - 1);
        if one.Failure? then one else Success(before.value + one.value)
  }

  // ----- omission records -----

  datatype Reason =
    | Duplicate
    | DuplicateMessageId
    | DuplicateSummary
    | SectionBudgetOlderMessage
    | SectionBudgetSummary
    | GlobalBudgetMessage
    | GlobalBudgetSummary

  /** Why an entry was left out. */
  datatype Cause = Repeats | NoRoomInSection | NoRoomInPacket

  function CauseOf(r: Reason): Cause {
    match r
    case Duplicate => Repeats
    case DuplicateMessageId => Repeats
    case DuplicateSummary => Repeats
    case SectionBudgetOlderMessage => NoRoomInSection
    case SectionBudgetSummary => NoRoomInSection
    case GlobalBudgetMessage => NoRoomInPacket
    case GlobalBudgetSummary => NoRoomInPacket
  }

  datatype Omission = Omission(section: string, kind: string, id: string, reason: Reason)

  function FirstTruthy(codec: Codec, d: Dict, keys: seq<string>, otherwise: string): string {
    if keys == [] then otherwise
    else if Truthy(Get(d, keys[0])) then codec.text(Get(d, keys[0]))
    else FirstTruthy(codec, d, keys[1..], otherwise)
  }

  /** `_history_omission`. */
  function HistoryOmission(codec: Codec, d: Dict, reason: Reason): Omission {
    var kind := if Truthy(Get(d, "history_kind")) then codec.text(Get(d, "history_kind")) else "history_item";
    var id :=
      if kind == "message" then FirstTruthy(codec, d, ["message_id", "history_item_id"], "message-unknown")
      else if kind == "ticket_summary" then
        FirstTruthy(codec, d, ["summary_id", "history_item_id", "ticket_id"], "summary-unknown")
      else FirstTruthy(codec, d, ["history_item_id", "message_id", "summary_id", "ticket_id"], "history-item-unknown");
    Omission("relevant_history", kind, id, reason)
  }

  // ----- protection marks -----

  const LATEST_PAIR := Str("latest_pair")

  /** Supplied marks on messages are dropped, derived ones are set. */
  function Marked(d: Dict, inPair: bool): Dict {
    var stripped := if IsMessage(d) then d - {"retention"} else d;
    if inPair then stripped["retention" := LATEST_PAIR] else stripped
  }

  predicate Protected(d: Dict) {
    Get(d, "retention") == LATEST_PAIR
  }

  lemma MarkedGet(d: Dict, inPair: bool, k: string)
    requires k != "retention"
    ensures Get(Marked(d, inPair), k) == Get(d, k)
  {
  }

  lemma MarkedProtection(d: Dict, inPair: bool)
    ensures IsMessage(Marked(d, inPair)) == IsMessage(d)
    ensures Protected(Marked(d, inPair)) <==> inPair || (!IsMessage(d) && Protected(d))
  {
    MarkedGet(d, inPair, "history_kind");
  }

  /** Marks do not show in omission records. */
  lemma MarkedOmission(codec: Codec, d: Dict, inPair: bool, reason: Reason)
    ensures HistoryOmission(codec, Marked(d, inPair), reason) == HistoryOmission(codec, d, reason)
  {
    hide Marked;
    MarkedGet(d, inPair, "history_kind");
    MarkedGet(d, inPair, "message_id");
    MarkedGet(d, inPair, "history_item_id");
    MarkedGet(d, inPair, "summary_id");
    MarkedGet(d, inPair, "ticket_id");
    SameOmission(codec, Marked(d, inPair), d, reason);
  }

  lemma SameOmission(codec: Codec, d: Dict, e: Dict, reason: Reason)
    requires Get(d, "history_kind") == Get(e, "history_kind") && Get(d, "message_id") == Get(e, "message_id")
    requires Get(d, "history_item_id") == Get(e, "history_item_id") && Get(d, "summary_id") == Get(e, "summary_id")
    requires Get(d, "ticket_id") == Get(e, "ticket_id")
    ensures HistoryOmission(codec, d, reason) == HistoryOmission(codec, e, reason)
  {
    hide FirstTruthy, Get;
    SameTruthy(codec, d, e, ["message_id", "history_item_id"], "message-unknown");
    SameTruthy(codec, d, e, ["summary_id", "history_item_id", "ticket_id"], "summary-unknown");
    SameTruthy(codec, d, e, ["history_item_id", "message_id", "summary_id", "ticket_id"], "history-item-unknown");
  }

  lemma {:induction false} SameTruthy(codec: Codec, d: Dict, e: Dict, keys: seq<string>, otherwise: string)
    requires forall k :: k in keys ==> Get(d, k) == Get(e, k)
    ensures FirstTruthy(codec, d, keys, otherwise) == FirstTruthy(codec, e, keys, otherwise)
  {
    if keys != [] {
      assert keys[0] in keys;
      SameTruthy(codec, d, e, keys[1..], otherwise);
    }
  }

  // ----- separator overhead -----

  function SumTokens(codec: Codec, vs: seq<Json>): nat {
    if vs == [] then 0 else SumTokens(codec, vs[..|vs| - 1]) + Tokens(codec, vs[|vs| - 1])
  }

  function SumSize(codec: Codec, vs: seq<Json>): nat {
    if vs == [] then 0 else SumSize(codec, vs[..|vs| - 1]) + codec.size(vs[|vs| - 1])
  }

  /** A dumped list is its dumped items, the commas between them and two brackets. */
  ghost predicate DumpsLists(codec: Codec) {
    forall vs: seq<Json> :: codec.size(Arr(vs)) == 2 + SumSize(codec, vs) + (if vs == [] then 0 else |vs| - 1)
  }

  lemma {:induction false} SizeWithinTokens(codec: Codec, vs: seq<Json>)
    ensures SumSize(codec, vs) <= 3 * SumTokens(codec, vs)
  {
    if vs != [] {
      SizeWithinTokens(codec, vs[..|vs| - 1]);
    }
  }

  /** The token count of a list exceeds the sum of its items' by the separators at most. */
  lemma SeparatorOverhead(codec: Codec, vs: seq<Json>)
    requires DumpsLists(codec)
    ensures Tokens(codec, Arr(vs)) <= SumTokens(codec, vs) + (|vs| + 3) / 3
  {
    SizeWithinTokens(codec, vs);
  }
}
