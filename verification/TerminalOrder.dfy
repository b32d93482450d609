/** When the terminal state of a conversation turn is written: immediate row
    triggers (revision i203) against triggers deferred to commit (revision i204). */
module TerminalOrder {
  import opened Options

  type Id = string

  datatype Turn = Turn(tenantId: Id, runId: Option<Id>, activity: string, result: Option<string>,
                       completedAt: Option<int>)

  datatype Approval = Approval(tenantId: Id, runId: Option<Id>, originTurnId: Id)

  /** A row inserted into human_decisions or proposal_withdrawals. */
  datatype Insert =
    | HumanDecision(tenantId: Id, approvalId: Id, decision: string)
    | Withdrawal(tenantId: Id, approvalId: Id)

  /** What a transaction may do to these tables. */
  datatype Statement =
    | WriteTurn(turnId: Id, turn: Turn)
    | WriteApproval(approvalId: Id, approval: Approval)
    | InsertRow(row: Insert)

  datatype Tables = Tables(turns: map<Id, Turn>, approvals: map<Id, Approval>)

  /** The terminal state a row names, if it names one. */
  function Named(row: Insert): Option<string> {
    match row
    case HumanDecision(_, _, decision) => if decision == "reject" then Some("rejected") else None
    case Withdrawal(_, _) => Some("withdrawn")
  }

  /** The turn that the trigger's UPDATE hits. */
  predicate Targets(t: Tables, row: Insert, id: Id) {
    && Named(row).Some?
    && row.approvalId in t.approvals
    && var a := t.approvals[row.approvalId];
       && a.tenantId == row.tenantId && a.originTurnId == id
       && id in t.turns && t.turns[id].tenantId == row.tenantId
       && a.runId.Some? && t.turns[id].runId == a.runId
  }

  function Completed(turn: Turn, result: string, now: int): Turn {
    turn.(activity := "completed", result := Some(result),
          completedAt := if turn.completedAt.Some? then turn.completedAt else Some(now))
  }

  /** `supportguard_conversation_action_terminal_state_v203`. */
  function Trigger(t: Tables, row: Insert, now: int): Tables {
    if Named(row).None? || row.approvalId !in t.approvals then t
    else
      var id := t.approvals[row.approvalId].originTurnId;
      if Targets(t, row, id) then t.(turns := t.turns[id := Completed(t.turns[id], Named(row).value, now)]) else t
  }

  function Write(t: Tables, s: Statement): Tables {
    match s
    case WriteTurn(id, turn) => t.(turns := t.turns[id := turn])
    case WriteApproval(id, approval) => t.(approvals := t.approvals[id := approval])
    case InsertRow(_) => t
  }

  function Writes(t: Tables, statements: seq<Statement>): Tables {
    if statements == [] then t else Write(Writes(t, statements[..|statements| - 1]), statements[|statements| - 1])
  }

  function Queue(statements: seq<Statement>): seq<Insert> {
    if statements == [] then []
    else
      var q, s := Queue(statements[..|statements| - 1]), statements[|statements| - 1];
      if s.InsertRow? then q + [s.row] else q
  }

  function Fire(t: Tables, queue: seq<Insert>, now: int): Tables {
    if queue == [] then t else Trigger(Fire(t, queue[..|queue| - 1], now), queue[|queue| - 1], now)
  }

  /** The committed tables under deferred triggers. */
  function Deferred(t: Tables, statements: seq<Statement>, now: int): Tables {
    Fire(Writes(t, statements), Queue(statements), now)
  }

  /** The committed tables under immediate triggers. */
  function Immediate(t: Tables, statements: seq<Statement>, now: int): Tables {
    if statements == [] then t
    else
      var u, s := Immediate(t, statements[..|statements| - 1], now), statements[|statements| - 1];
      if s.InsertRow? then Trigger(u, s.row, now) else Write(u, s)
  }

  class Transaction {
    var turns: map<Id, Turn>
    var approvals: map<Id, Approval>
    var queue: seq<Insert>

    ghost function Now(): Tables
      reads this
    {
      Tables(turns, approvals)
    }

    constructor (t: Tables)
      ensures Now() == t && queue == []
    {
      turns, approvals, queue := t.turns, t.approvals, [];
    }

    method UpdateTurn(row: Insert, now: int)
      modifies this`turns
      ensures Now() == Trigger(old(Now()), row, now)
    {
      var name := Named(row);
      if name.Some? && row.approvalId in approvals {
        var id := approvals[row.approvalId].originTurnId;
        if Targets(Tables(turns, approvals), row, id) {
          turns := turns[id := Completed(turns[id], name.value, now)];
        }
      }
    }

    /** Run the statements, queueing the constraint triggers, then fire them at commit. */
    method Commit(statements: seq<Statement>, now: int)
      requires queue == []
      modifies this
      ensures Now() == Deferred(old(Now()), statements, now)
    {
      for i := 0 to |statements|
        invariant Now() == Writes(old(Now()), statements[..i])
        invariant queue == Queue(statements[..i])
      {
        assert statements[..i + 1][..i] == statements[..i];
        match statements[i] {
          case WriteTurn(id, turn) => turns := turns[id := turn];
          case WriteApproval(id, approval) => approvals := approvals[id := approval];
          case InsertRow(row) => queue := queue + [row];
        }
      }
      assert statements[..|statements|] == statements;
      ghost var written := Now();
      for k := 0 to |queue|
        invariant queue == Queue(statements)
        invariant Now() == Fire(written, queue[..k], now)
      {
        assert queue[..k + 1][..k] == queue[..k];
        UpdateTurn(queue[k], now);
      }
      assert queue[..|queue|] == queue;
    }
  }

  // ----- deferred triggers have the last word -----

  /** The state named by the last queued row that hits turn `id`. */
  function LastNamed(t: Tables, queue: seq<Insert>, id: Id): Option<string> {
    if queue == [] then None
    else if Targets(t, queue[|queue| - 1], id) then Named(queue[|queue| - 1])
    else LastNamed(t, queue[..|queue| - 1], id)
  }

  lemma {:induction false} FireKeepsIdentity(t: Tables, queue: seq<Insert>, now: int)
    ensures Fire(t, queue, now).approvals == t.approvals
    ensures Fire(t, queue, now).turns.Keys == t.turns.Keys
    ensures forall id :: id in t.turns ==>
      var u := Fire(t, queue, now).turns[id]; u.tenantId == t.turns[id].tenantId && u.runId == t.turns[id].runId
    ensures forall row, id :: Targets(Fire(t, queue, now), row, id) <==> Targets(t, row, id)
  {
    if queue != [] {
      FireKeepsIdentity(t, queue[..|queue| - 1], now);
    }
  }

  /** Whatever a transaction wrote to a turn before or after, the committed state
      is the one named by its last reject or withdrawal for that turn; a turn
      that no such row hits is committed as written. */
  lemma {:induction false} DeferredIsLastNamed(t: Tables, queue: seq<Insert>, id: Id, now: int)
    requires id in t.turns
    ensures id in Fire(t, queue, now).turns
    ensures var turn, name := Fire(t, queue, now).turns[id], LastNamed(t, queue, id);
      if name.None? then turn == t.turns[id]
      else turn == Completed(t.turns[id], name.value, now)
    decreases |queue|
  {
    if queue != [] {
      var rest, row := queue[..|queue| - 1], queue[|queue| - 1];
      DeferredIsLastNamed(t, rest, id, now);
      FireKeepsIdentity(t, rest, now);
      assert Targets(Fire(t, rest, now), row, id) <==> Targets(t, row, id);
    }
  }

  /** The row ends the turn in the state: a rejection or a withdrawal, of an approval of its
      tenant that comes from the turn and belongs to the same run. */
  ghost predicate Ends(t: Tables, row: Insert, id: Id, state: string) {
    && (match row
        case HumanDecision(_, _, decision) => decision == "reject" && state == "rejected"
        case Withdrawal(_, _) => state == "withdrawn")
    && row.approvalId in t.approvals && id in t.turns
    && t.approvals[row.approvalId].tenantId == row.tenantId && t.turns[id].tenantId == row.tenantId
    && t.approvals[row.approvalId].originTurnId == id
    && exists run :: t.approvals[row.approvalId].runId == Some(run) && t.turns[id].runId == Some(run)
  }

  lemma TargetsIff(t: Tables, row: Insert, id: Id)
    ensures Targets(t, row, id) <==> exists state :: Ends(t, row, id, state)
    ensures forall state :: Ends(t, row, id, state) ==> Named(row) == Some(state)
  {
    if Targets(t, row, id) {
      var run := t.turns[id].runId.value;
      assert Ends(t, row, id, Named(row).value);
    }
  }

  ghost predicate NoneEnds(t: Tables, queue: seq<Insert>, id: Id) {
    forall k, state :: 0 <= k < |queue| ==> !Ends(t, queue[k], id, state)
  }

  /** Row k is the last one queued that ends the turn. */
  ghost predicate LastEnds(t: Tables, queue: seq<Insert>, id: Id, k: nat, state: string) {
    && k < |queue| && Ends(t, queue[k], id, state)
    && forall j, other :: k < j < |queue| ==> !Ends(t, queue[j], id, other)
  }

  lemma {:induction false} LastNamedIff(t: Tables, queue: seq<Insert>, id: Id)
    ensures LastNamed(t, queue, id) == None <==> NoneEnds(t, queue, id)
    ensures forall k: nat, state :: LastEnds(t, queue, id, k, state) ==> LastNamed(t, queue, id) == Some(state)
    decreases |queue|
  {
    hide Ends, Targets;
    if queue != [] {
      var n := |queue| - 1;
      var rest := queue[..n];
      LastNamedIff(t, rest, id);
      TargetsIff(t, queue[n], id);
      assert forall k :: 0 <= k < n ==> rest[k] == queue[k];
      if Targets(t, queue[n], id) {
        var state :| Ends(t, queue[n], id, state);
      }
      forall k: nat, state | LastEnds(t, queue, id, k, state) ensures LastNamed(t, queue, id) == Some(state) {
        if k < n {
          assert LastEnds(t, rest, id, k, state);
        }
      }
    }
  }

  /** The committed turn: as written if no queued row ends it, else completed in the state
      of the last one that does, at the time written or else the time of the commit. */
  lemma CommittedState(t: Tables, statements: seq<Statement>, id: Id, now: int)
    requires id in Writes(t, statements).turns
    ensures id in Deferred(t, statements, now).turns
    ensures var u, queue := Writes(t, statements), Queue(statements);
      var written, turn := u.turns[id], Deferred(t, statements, now).turns[id];
      && (NoneEnds(u, queue, id) ==> turn == written)
      && forall k: nat, state :: LastEnds(u, queue, id, k, state) ==>
        turn == Turn(written.tenantId, written.runId, "completed", Some(state),
                     if written.completedAt.Some? then written.completedAt else Some(now))
  {
    hide Ends, Writes, Queue, Fire, LastEnds, NoneEnds;
    DeferredIsLastNamed(Writes(t, statements), Queue(statements), id, now);
    LastNamedIff(Writes(t, statements), Queue(statements), id);
  }

  /** The rows queued are those inserted, in order. */
  lemma {:induction false} QueueJoins(a: seq<Statement>, b: seq<Statement>)
    ensures Queue(a + b) == Queue(a) + Queue(b)
    ensures forall row :: Queue([InsertRow(row)]) == [row]
    decreases |b|
  {
    if b == [] {
      assert a + b == a;
    } else {
      var n := |b| - 1;
      QueueJoins(a, b[..n]);
      assert (a + b)[..|a + b| - 1] == a + b[..n] && (a + b)[|a + b| - 1] == b[n];
    }
  }

  predicate Approves(row: Insert) {
    row.HumanDecision? && row.decision != "reject"
  }

  /** Rows that approve change nothing: such a transaction commits what it writes, under
      either kind of trigger. */
  lemma {:induction false} ApprovalsCommitAsWritten(t: Tables, statements: seq<Statement>, now: int)
    requires forall i :: 0 <= i < |statements| && statements[i].InsertRow? ==> Approves(statements[i].row)
    ensures Deferred(t, statements, now) == Writes(t, statements)
    ensures Immediate(t, statements, now) == Writes(t, statements)
  {
    hide Fire;
    QueueApproves(statements);
    NothingFires(Writes(t, statements), Queue(statements), now);
    NothingHappens(t, statements, now);
  }

  lemma {:induction false} NothingHappens(t: Tables, statements: seq<Statement>, now: int)
    requires forall i :: 0 <= i < |statements| && statements[i].InsertRow? ==> Approves(statements[i].row)
    ensures Immediate(t, statements, now) == Writes(t, statements)
    decreases |statements|
  {
    if statements != [] {
      NothingHappens(t, statements[..|statements| - 1], now);
    }
  }

  lemma {:induction false} QueueApproves(statements: seq<Statement>)
    requires forall i :: 0 <= i < |statements| && statements[i].InsertRow? ==> Approves(statements[i].row)
    ensures forall k :: 0 <= k < |Queue(statements)| ==> Approves(Queue(statements)[k])
    decreases |statements|
  {
    if statements != [] {
      QueueApproves(statements[..|statements| - 1]);
    }
  }

  lemma {:induction false} NothingFires(t: Tables, queue: seq<Insert>, now: int)
    requires forall k :: 0 <= k < |queue| ==> Approves(queue[k])
    ensures Fire(t, queue, now) == t
  {
    if queue != [] {
      NothingFires(t, queue[..|queue| - 1], now);
    }
  }

  /** Statement k is the last to write the turn. */
  ghost predicate LastWritten(statements: seq<Statement>, id: Id, k: nat, turn: Turn) {
    && k < |statements| && statements[k] == WriteTurn(id, turn)
    && forall j :: k < j < |statements| && statements[j].WriteTurn? ==> statements[j].turnId != id
  }

  /** A turn is written as the last statement on it says, and otherwise as it was. */
  lemma {:induction false} WrittenTurn(t: Tables, statements: seq<Statement>, id: Id)
    ensures forall k: nat, turn :: LastWritten(statements, id, k, turn) ==>
      id in Writes(t, statements).turns && Writes(t, statements).turns[id] == turn
    ensures (forall k :: 0 <= k < |statements| && statements[k].WriteTurn? ==> statements[k].turnId != id) ==>
      && (id in Writes(t, statements).turns <==> id in t.turns)
      && (id in t.turns ==> Writes(t, statements).turns[id] == t.turns[id])
    decreases |statements|
  {
    if statements != [] {
      var n := |statements| - 1;
      var rest := statements[..n];
      WrittenTurn(t, rest, id);
      assert forall k :: 0 <= k < n ==> rest[k] == statements[k];
      forall k: nat, turn | LastWritten(statements, id, k, turn)
        ensures id in Writes(t, statements).turns && Writes(t, statements).turns[id] == turn
      {
        if k < n {
          assert LastWritten(rest, id, k, turn);
        }
      }
    }
  }

  // ----- immediate triggers do not -----

  /** The last write to turn `id`, if there is one. */
  function LastWrite(statements: seq<Statement>, id: Id): Option<Turn> {
    if statements == [] then None
    else
      var s := statements[|statements| - 1];
      if s.WriteTurn? && s.turnId == id then Some(s.turn) else LastWrite(statements[..|statements| - 1], id)
  }

  /** Statement k inserts a row whose trigger hits turn `id` at once. */
  predicate Hits(t: Tables, statements: seq<Statement>, k: nat, id: Id, now: int)
    requires k < |statements|
  {
    statements[k].InsertRow? && Targets(Immediate(t, statements[..k], now), statements[k].row, id)
  }

  /** After a statement that hits nothing, the turn is what the last write left. */
  lemma {:induction false} WritesAfter(t: Tables, statements: seq<Statement>, k: nat, id: Id, now: int)
    requires k <= |statements| && id in Immediate(t, statements[..k], now).turns
    requires forall j: nat :: k <= j < |statements| ==> !Hits(t, statements, j, id, now)
    ensures id in Immediate(t, statements, now).turns
    ensures Immediate(t, statements, now).turns[id] ==
      var w := LastWrite(statements[k..], id); if w.Some? then w.value else Immediate(t, statements[..k], now).turns[id]
    decreases |statements|
  {
    if k == |statements| {
      assert statements[..k] == statements && statements[k..] == [];
    } else {
      var n := |statements| - 1;
      var rest := statements[..n];
      assert rest[..k] == statements[..k] && statements[k..][..n - k] == rest[k..]
        && statements[k..][n - k] == statements[n];
      forall j: nat | k <= j < n ensures !Hits(t, rest, j, id, now) {
        assert rest[..j] == statements[..j];
        assert !Hits(t, statements, j, id, now);
      }
      WritesAfter(t, rest, k, id, now);
      assert !Hits(t, statements, n, id, now);
    }
  }

  /** For every transaction with immediate triggers, whatever follows the last insert that
      hits the turn: the state it names survives exactly when no later statement writes
      the turn, or the last one that does writes that same state. */
  lemma ImmediateSurvivesIff(t: Tables, statements: seq<Statement>, k: nat, id: Id, now: int)
    requires k < |statements| && Hits(t, statements, k, id, now)
    requires forall j: nat :: k < j < |statements| ==> !Hits(t, statements, j, id, now)
    ensures id in Immediate(t, statements, now).turns
    ensures var later := LastWrite(statements[k + 1..], id);
      Immediate(t, statements, now).turns[id].result == Named(statements[k].row) <==>
        later.None? || later.value.result == Named(statements[k].row)
  {
    var upTo := statements[..k + 1];
    assert upTo[..k] == statements[..k];
    WritesAfter(t, statements, k + 1, id, now);
  }

  /** Rejecting and then overwriting the turn: the two revisions commit different states. */
  lemma OverwrittenTurn(t: Tables, row: Insert, id: Id, later: Turn, now: int)
    requires Targets(t, row, id)
    requires later.tenantId == t.turns[id].tenantId && later.runId == t.turns[id].runId
    ensures var statements := [InsertRow(row), WriteTurn(id, later)];
      && id in Immediate(t, statements, now).turns && id in Deferred(t, statements, now).turns
      && Immediate(t, statements, now).turns[id] == later
      && Deferred(t, statements, now).turns[id] == Completed(later, Named(row).value, now)
  {
    var first, both := [InsertRow(row)], [InsertRow(row), WriteTurn(id, later)];
    assert first[..0] == [] && both[..1] == first;
    assert Immediate(t, first, now) == Trigger(t, row, now);
    assert Writes(t, first) == t && Queue(first) == [row];
    var u := Writes(t, both);
    assert u == t.(turns := t.turns[id := later]) && Queue(both) == [row];
    assert [row][..0] == [] && Targets(u, row, id);
    DeferredIsLastNamed(u, [row], id, now);
  }

  // ----- the two capabilities that name a terminal state -----

  /** Both capabilities mark the turn refused. */
  function Refused(turn: Turn, now: int): Turn {
    turn.(activity := "completed", result := Some("refused"), completedAt := Some(now))
  }

  /** The withdrawal: insert, update the approval, mark the turn of the run, which is the
      turn the approval comes from. */
  function WithdrawalOf(a: Approval, approvalId: Id, turn: Turn, now: int): seq<Statement> {
    [InsertRow(Withdrawal(a.tenantId, approvalId)), WriteApproval(approvalId, a),
     WriteTurn(a.originTurnId, Refused(turn, now))]
  }

  /** The rejection in a conversation: update the approval, mark the turn, insert. */
  function RejectionOf(a: Approval, approvalId: Id, turn: Turn, now: int): seq<Statement> {
    [WriteApproval(approvalId, a), WriteTurn(a.originTurnId, Refused(turn, now)),
     InsertRow(HumanDecision(a.tenantId, approvalId, "reject"))]
  }

  /** Every withdrawal that hits its turn is lost by the immediate triggers and kept by the deferred ones. */
  lemma WithdrawalNeedsDeferral(t: Tables, approvalId: Id, now: int)
    requires approvalId in t.approvals
    requires var a := t.approvals[approvalId]; Targets(t, Withdrawal(a.tenantId, approvalId), a.originTurnId)
    ensures var a := t.approvals[approvalId];
      var statements := WithdrawalOf(a, approvalId, t.turns[a.originTurnId], now);
      && a.originTurnId in Immediate(t, statements, now).turns && a.originTurnId in Deferred(t, statements, now).turns
      && Immediate(t, statements, now).turns[a.originTurnId].result == Some("refused")
      && Deferred(t, statements, now).turns[a.originTurnId].result == Some("withdrawn")
  {
    hide Trigger, Fire;
    var a := t.approvals[approvalId];
    var id, row := a.originTurnId, Withdrawal(a.tenantId, approvalId);
    var all := WithdrawalOf(a, approvalId, t.turns[id], now);
    ThreeStatements(t, all, now);
    var u := Writes(t, all);
    assert u == t.(turns := t.turns[id := Refused(t.turns[id], now)]);
    assert Queue(all) == [row] && Targets(u, row, id);
    assert [row][..0] == [];
    DeferredIsLastNamed(u, [row], id, now);
  }

  /** A rejection, which inserts last, is kept by both. */
  lemma RejectionSurvivesBoth(t: Tables, approvalId: Id, now: int)
    requires approvalId in t.approvals
    requires var a := t.approvals[approvalId];
      Targets(t, HumanDecision(a.tenantId, approvalId, "reject"), a.originTurnId)
    ensures var a := t.approvals[approvalId];
      var statements := RejectionOf(a, approvalId, t.turns[a.originTurnId], now);
      && a.originTurnId in Immediate(t, statements, now).turns
      && Immediate(t, statements, now).turns[a.originTurnId].result == Some("rejected")
      && Deferred(t, statements, now) == Immediate(t, statements, now)
  {
    hide Fire;
    var a := t.approvals[approvalId];
    var id, row := a.originTurnId, HumanDecision(a.tenantId, approvalId, "reject");
    var all := RejectionOf(a, approvalId, t.turns[id], now);
    ThreeStatements(t, all, now);
    var u := Writes(t, all);
    assert u == t.(turns := t.turns[id := Refused(t.turns[id], now)]);
    assert Queue(all) == [row] && Targets(u, row, id);
    FireOne(u, row, now);
  }

  lemma FireOne(t: Tables, row: Insert, now: int)
    ensures Fire(t, [row], now) == Trigger(t, row, now)
  {
    assert [row][..0] == [];
  }

  lemma ThreeStatements(t: Tables, all: seq<Statement>, now: int)
    requires |all| == 3
    ensures Immediate(t, all, now) == Does(Does(Does(t, all[0], now), all[1], now), all[2], now)
    ensures Writes(t, all) == Write(Write(Write(t, all[0]), all[1]), all[2])
    ensures Queue(all) == Rows(all[0]) + Rows(all[1]) + Rows(all[2])
  {
    hide Trigger, Write;
    var one, two := all[..1], all[..2];
    assert one[..0] == [] && two[..1] == one && all[..2] == two;
    assert Writes(t, one) == Write(t, all[0]) && Writes(t, two) == Write(Write(t, all[0]), all[1]);
    assert Queue(one) == Rows(all[0]) && Queue(two) == Rows(all[0]) + Rows(all[1]);
    assert Immediate(t, one, now) == Does(t, all[0], now);
    assert Immediate(t, two, now) == Does(Does(t, all[0], now), all[1], now);
  }

  function Does(t: Tables, s: Statement, now: int): Tables {
    if s.InsertRow? then Trigger(t, s.row, now) else Write(t, s)
  }

  function Rows(s: Statement): seq<Insert> {
    if s.InsertRow? then [s.row] else []
  }

  /** So there is a withdrawal the immediate triggers lose. */
  lemma ImmediateLosesWithdrawal(now: int)
    ensures exists t: Tables, approvalId ::
      && approvalId in t.approvals && t.approvals[approvalId].originTurnId in t.turns
      && var a := t.approvals[approvalId];
         var statements := WithdrawalOf(a, approvalId, t.turns[a.originTurnId], now);
         && a.originTurnId in Immediate(t, statements, now).turns
         && a.originTurnId in Deferred(t, statements, now).turns
         && Immediate(t, statements, now).turns[a.originTurnId].result == Some("refused")
         && Deferred(t, statements, now).turns[a.originTurnId].result == Some("withdrawn")
  {
    var turn := Turn("t", Some("r"), "waiting", None, None);
    var t := Tables(map["turn" := turn], map["a" := Approval("t", Some("r"), "turn")]);
    assert Targets(t, Withdrawal("t", "a"), "turn");
    WithdrawalNeedsDeferral(t, "a", now);
  }
}
