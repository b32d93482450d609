/** The refund tables, the guard triggers on them, and the worker's execution of
    an approved refund: the wrapper of revision i203 around the delegated
    capability of backend/alembic_baseline/baseline.sql. */
module RefundStore {
  import opened Options
  import opened RefundPair

  /** A payload key may be missing; SQL comparisons with it are then not true. */
  datatype Payload = Payload(billingRecordId: Option<string>, customerId: Option<string>, businessVersion: Option<int>)

  datatype Proposal = Proposal(
    tenantId: Id, runId: Id, actionType: string, resourceId: Id, resourceVersion: int,
    payload: Payload, status: string, statusVersion: int, binding: Binding)

  datatype Approval = Approval(
    tenantId: Id, ticketId: Id, customerId: Id, runId: Option<Id>, actionType: string,
    resourceId: Id, businessVersion: int, proposalId: Option<Id>,
    status: string, statusVersion: int, consumed: bool)

  datatype Decision = Decision(tenantId: Id, approvalId: Id, decision: string)

  datatype Action = Action(
    tenantId: Id, customerId: Id, actionType: string, resourceId: Option<Id>, resourceVersion: Option<int>,
    approvalId: Option<Id>, decisionId: Option<Id>)

  datatype Job = Job(tenantId: Id, kind: string, approvalId: Option<Id>, ticketId: Id, runId: Id,
                     status: string, fencingToken: int, dispatchSequence: int)

  datatype AgentRun = AgentRun(tenantId: Id, ticketId: Id, customerId: Id,
                               activeJobId: Option<Id>, activeFencingToken: Option<int>)

  datatype Ticket = Ticket(tenantId: Id, customerId: Id)

  datatype Db = Db(
    billing: Ledger, proposals: map<Id, Proposal>, approvals: map<Id, Approval>, decisions: map<Id, Decision>,
    actions: map<Id, Action>, jobs: map<Id, Job>, runs: map<Id, AgentRun>, tickets: map<Id, Ticket>)

  predicate Approves(decision: string) {
    decision == "approve" || decision == "edit_and_approve"
  }

  // ----- guards -----

  /** `supportguard_refund_proposal_pair_current_v203`. */
  predicate PairCurrent(db: Db, tenantId: Id, customerId: Id, proposalId: Option<Id>, resourceId: Id, version: int,
                        asOf: Time) {
    && proposalId.Some? && proposalId.value in db.proposals
    && var p := db.proposals[proposalId.value];
       && p.tenantId == tenantId && p.actionType == "refund"
       && p.resourceId == resourceId && p.resourceVersion == version
       && SnapshotCurrent(db.billing, tenantId, customerId, resourceId, p.binding, asOf)
  }

  predicate ApprovalCurrent(db: Db, a: Approval, asOf: Time) {
    PairCurrent(db, a.tenantId, a.customerId, a.proposalId, a.resourceId, a.businessVersion, asOf)
  }

  function SelectApproval(db: Db, tenantId: Id, id: Option<Id>): Option<Approval> {
    if id.Some? && id.value in db.approvals && db.approvals[id.value].tenantId == tenantId
    then Some(db.approvals[id.value]) else None
  }

  /** `supportguard_refund_human_decision_guard_v203` lets the row in. */
  predicate DecisionAdmitted(db: Db, d: Decision, asOf: Time) {
    Approves(d.decision) ==>
      var a := SelectApproval(db, d.tenantId, Some(d.approvalId));
      a.Some? && a.value.actionType == "refund" ==> ApprovalCurrent(db, a.value, asOf)
  }

  /** `supportguard_refund_business_action_guard_v203` lets the row in. */
  predicate ActionAdmitted(db: Db, x: Action, asOf: Time) {
    x.actionType == "refund" ==>
      var a := SelectApproval(db, x.tenantId, x.approvalId);
      && a.Some?
      && x.customerId == a.value.customerId
      && x.resourceId == Some(a.value.resourceId)
      && x.resourceVersion == Some(a.value.businessVersion)
      && ApprovalCurrent(db, a.value, asOf)
  }

  /** The customer behind a run, as the proposal guard joins it. */
  function RunCustomer(db: Db, tenantId: Id, runId: Id): Option<Id> {
    if runId in db.runs && db.runs[runId].tenantId == tenantId then
      var r := db.runs[runId];
      if r.ticketId in db.tickets && db.tickets[r.ticketId] == Ticket(tenantId, r.customerId) then Some(r.customerId)
      else None
    else None
  }

  /** A present value differs; a missing one never does. */
  predicate Differs<T(==)>(x: Option<T>, y: T) {
    x.Some? && x.value != y
  }

  /** The CHECK constraint on proposal bindings. */
  predicate BindingComplete(p: Proposal) {
    p.binding == UNBOUND || (p.actionType == "refund" && Bound(p.binding))
  }

  /** `supportguard_refund_proposal_binding_guard_v203` on INSERT: the row as stored, or None when it raises. */
  function InsertedProposal(db: Db, p: Proposal, asOf: Time): Option<Proposal> {
    if p.actionType != "refund" then (if BindingComplete(p) then Some(p) else None)
    else
      var customer := RunCustomer(db, p.tenantId, p.runId);
      if customer.None? then None
      else
        var s := PairSnapshot(db.billing, p.tenantId, customer.value, p.resourceId, asOf);
        if s.None? || !s.value.eligible || s.value.version != p.resourceVersion
           || Differs(p.payload.billingRecordId, p.resourceId)
           || Differs(p.payload.customerId, customer.value)
           || Differs(p.payload.businessVersion, p.resourceVersion) then None
        else if p.binding == UNBOUND then Some(p.(binding := SnapshotBinding(s.value)))
        else if p.binding != SnapshotBinding(s.value) then None
        else Some(p)
  }

  // ----- the worker -----

  datatype Call = Call(tenantId: Id, approvalId: Id, decisionId: Id, jobId: Id, fencingToken: int)

  /** What the checks of the delegated capability that lie outside these tables decided:
      `Unverified` for the finalizer and revision, `StaleReason` for the publication,
      policy and approver scope, `Denied` for the kill switch. */
  datatype Verdict = Clear | Unverified | StaleReason | Denied

  /** `snapshotAgrees`: the resource still is what the approved revision was based on;
      `visible` and `updated` speak of the tables of the other kinds of action. */
  datatype Outside = Outside(verdict: Verdict, snapshotAgrees: bool, visible: bool, updated: bool)

  /** The message of the exception. */
  datatype Cause =
    | BindingInvalid | FencingStale | ApprovalTerminal | NotExecutable | MutationDisabled | EffectConflict
    | TerminalConflict | PairStale | ResourceConflict | ApprovalConflict

  datatype Result =
    | Failed(cause: Cause)
    | Succeeded(reused: bool)
    | Stale(reused: bool, pairStale: bool)

  predicate Open(p: Proposal) {
    p.status == "draft" || p.status == "bound"
  }

  /** An open proposal for the action and resource of the approval. */
  predicate Retires(p: Proposal, a: Approval) {
    p.tenantId == a.tenantId && p.actionType == a.actionType && p.resourceId == a.resourceId && Open(p)
  }

  /** On the table: every draft or bound proposal for the approval's tenant, action and
      resource is now stale, one version on, and every other proposal is as it was. */
  predicate ProposalsRetired(before: map<Id, Proposal>, after: map<Id, Proposal>, a: Approval) {
    && after.Keys == before.Keys
    && forall id :: id in before ==>
      var p, q := before[id], after[id];
      if p.tenantId == a.tenantId && p.actionType == a.actionType && p.resourceId == a.resourceId &&
         p.status in {"draft", "bound"}
      then
        && q.status == "stale" && q.statusVersion == p.statusVersion + 1
        && q.(status := p.status, statusVersion := p.statusVersion) == p
      else q == p
  }

  /** UPDATE proposal_records SET status='stale' for every open proposal of the approval's resource. */
  function Retired(proposals: map<Id, Proposal>, a: Approval): (r: map<Id, Proposal>)
    ensures ProposalsRetired(proposals, r, a)
  {
    map id | id in proposals :: var p := proposals[id];
      if Retires(p, a) then p.(status := "stale", statusVersion := p.statusVersion + 1) else p
  }

  /** No open proposal of that resource is left. */
  lemma NoneLeftOpen(before: map<Id, Proposal>, after: map<Id, Proposal>, a: Approval)
    requires ProposalsRetired(before, after, a)
    ensures forall id :: id in after && after[id].status in {"draft", "bound"} ==>
      after[id].tenantId != a.tenantId || after[id].actionType != a.actionType || after[id].resourceId != a.resourceId
  {
    StaleIsClosed();
    forall id | id in after && after[id].status in {"draft", "bound"}
      ensures after[id].tenantId != a.tenantId || after[id].actionType != a.actionType
        || after[id].resourceId != a.resourceId
    {
      assert id in before;
    }
  }

  lemma StaleIsClosed()
    ensures "stale" !in {"draft", "bound"}
  {
    assert "stale"[0] == 's' && "draft"[0] == 'd' && "bound"[0] == 'b';
  }

  function Moved(a: Approval, status: string, consumed: bool): (r: Approval)
    ensures r.status == status && r.statusVersion == a.statusVersion + 1 && r.consumed == consumed
    ensures r.(status := a.status, statusVersion := a.statusVersion, consumed := a.consumed) == a
  {
    a.(status := status, statusVersion := a.statusVersion + 1, consumed := consumed)
  }

  function EffectOf(call: Call, a: Approval): (x: Action)
    ensures x.tenantId == call.tenantId && x.customerId == a.customerId && x.actionType == a.actionType
    ensures x.resourceId == Some(a.resourceId) && x.resourceVersion == Some(a.businessVersion)
    ensures x.approvalId == Some(call.approvalId) && x.decisionId == Some(call.decisionId)
  {
    Action(call.tenantId, a.customerId, a.actionType, Some(a.resourceId), Some(a.businessVersion),
           Some(call.approvalId), Some(call.decisionId))
  }

  /** The refund took effect: the guard admitted the action at `asOf`, the target
      was charged at the approved version and is now refunded. */
  ghost predicate RefundEffect(before: Db, after: Db, call: Call, actionId: Id, asOf: Time) {
    && call.approvalId in before.approvals
    && var a := before.approvals[call.approvalId];
       var x := EffectOf(call, a);
       && a.tenantId == call.tenantId && a.actionType == "refund" && a.status == "approved" && !a.consumed
       && actionId !in before.actions
       && ActionAdmitted(before, x, asOf)
       && a.resourceId in before.billing
       && before.billing[a.resourceId].status == "charged" && before.billing[a.resourceId].version == a.businessVersion
       && after == before.(
            actions := before.actions[actionId := x],
            billing := before.billing[a.resourceId :=
              before.billing[a.resourceId].(status := "refunded", version := a.businessVersion + 1)],
            approvals := before.approvals[call.approvalId := Moved(a, "executed", true)],
            proposals := Retired(before.proposals, a))
  }

  /** Another kind of action took effect; billing is left alone. */
  ghost predicate OtherEffect(before: Db, after: Db, call: Call, actionId: Id) {
    && call.approvalId in before.approvals
    && var a := before.approvals[call.approvalId];
       && a.tenantId == call.tenantId && a.actionType != "refund" && a.status == "approved" && !a.consumed
       && actionId !in before.actions
       && after == before.(
            actions := before.actions[actionId := EffectOf(call, a)],
            approvals := before.approvals[call.approvalId := Moved(a, "executed", true)],
            proposals := Retired(before.proposals, a))
  }

  /** An approved, unconsumed approval went stale and its resource's open
      proposals were retired; nothing else changed. */
  ghost predicate WentStale(before: Db, after: Db, call: Call) {
    && call.approvalId in before.approvals
    && var a := before.approvals[call.approvalId];
       && a.tenantId == call.tenantId && a.status == "approved" && !a.consumed
       && after == before.(
            approvals := before.approvals[call.approvalId := Moved(a, "stale", false)],
            proposals := Retired(before.proposals, a))
  }

  /** A replay of an effect that already exists: no new action, no billing change; an
      approval still open is executed, one executed before is left alone. */
  ghost predicate Replayed(before: Db, after: Db, call: Call) {
    && call.approvalId in before.approvals
    && var a := before.approvals[call.approvalId];
       && a.tenantId == call.tenantId
       && (exists id :: id in before.actions && SameEffect(before.actions[id], call.tenantId, a))
       && (a.status == "executed" || (a.status == "approved" && !a.consumed))
       && after == before.(
            approvals := if a.status == "executed" then before.approvals
                         else before.approvals[call.approvalId := Moved(a, "executed", true)],
            proposals := Retired(before.proposals, a))
  }

  /** A stale approval met again: only open proposals of its resource retire. */
  ghost predicate StaleReplayed(before: Db, after: Db, call: Call) {
    && call.approvalId in before.approvals
    && var a := before.approvals[call.approvalId];
       a.tenantId == call.tenantId && a.status == "stale" && after == before.(proposals := Retired(before.proposals, a))
  }

  /** Job, ticket, approval and run of the call belong together. */
  predicate AggregateFound(db: Db, call: Call) {
    && call.jobId in db.jobs && call.approvalId in db.approvals
    && var job, a := db.jobs[call.jobId], db.approvals[call.approvalId];
       && job.tenantId == call.tenantId && job.kind == "approval_resume" && job.approvalId == Some(call.approvalId)
       && job.ticketId in db.tickets && db.tickets[job.ticketId] == Ticket(call.tenantId, a.customerId)
       && a.tenantId == call.tenantId && a.ticketId == job.ticketId && a.runId == Some(job.runId)
       && job.runId in db.runs
       && var run := db.runs[job.runId];
          run.tenantId == call.tenantId && run.ticketId == a.ticketId && run.customerId == a.customerId
  }

  /** The job is leased under the caller's exact fencing token and is the run's active one. */
  predicate LeaseHeld(db: Db, call: Call)
    requires AggregateFound(db, call)
  {
    var job := db.jobs[call.jobId];
    var run := db.runs[job.runId];
    && job.status == "leased" && job.fencingToken == call.fencingToken
    && run.activeJobId == Some(call.jobId) && run.activeFencingToken == Some(job.fencingToken)
  }

  /** The approval's proposal and the decision on it exist. */
  predicate RecordsFound(db: Db, call: Call)
    requires AggregateFound(db, call)
  {
    var a := db.approvals[call.approvalId];
    && a.proposalId.Some? && a.proposalId.value in db.proposals && call.decisionId in db.decisions
    && var p, d := db.proposals[a.proposalId.value], db.decisions[call.decisionId];
       && p.tenantId == call.tenantId && a.runId == Some(p.runId)
       && d.tenantId == call.tenantId && d.approvalId == call.approvalId
  }

  predicate WorkerFenced(db: Db, call: Call) {
    AggregateFound(db, call) && LeaseHeld(db, call) && RecordsFound(db, call)
  }

  /** The decision approves, and the proposal is for what was approved. */
  predicate ApprovalBound(db: Db, call: Call)
    requires WorkerFenced(db, call)
  {
    var a := db.approvals[call.approvalId];
    var p := db.proposals[a.proposalId.value];
    && Approves(db.decisions[call.decisionId].decision)
    && p.actionType == a.actionType && p.resourceId == a.resourceId && p.resourceVersion == a.businessVersion
  }

  /** The wrapper's own proof of worker authority. */
  predicate WorkerAuthorised(db: Db, call: Call) {
    && WorkerFenced(db, call) && Approves(db.decisions[call.decisionId].decision)
    && var a := db.approvals[call.approvalId];
       a.actionType == "refund" && a.status == "approved" && !a.consumed
  }

  lemma AuthorisedApproval(db: Db, call: Call)
    requires WorkerAuthorised(db, call)
    ensures WorkerFenced(db, call) && call.approvalId in db.approvals
    ensures var a := db.approvals[call.approvalId];
      a.tenantId == call.tenantId && a.actionType == "refund" && a.status == "approved" && !a.consumed
  {
  }

  predicate SameEffect(x: Action, tenantId: Id, a: Approval) {
    x.tenantId == tenantId && x.actionType == a.actionType
    && x.resourceId == Some(a.resourceId) && x.resourceVersion == Some(a.businessVersion)
  }

  // ----- when the worker does what -----

  /** The resource row is still charged at the approved version. */
  predicate Charged(db: Db, a: Approval) {
    var row := Select(db.billing, a.tenantId, a.customerId, a.resourceId);
    row.Some? && row.value.status == "charged" && row.value.version == a.businessVersion
  }

  /** An approved action that is switched on, or stale anyway, and has not taken effect before. */
  predicate Pending(db: Db, a: Approval, stale: bool, world: Outside) {
    && a.status == "approved" && (stale || world.verdict != Denied)
    && !exists id :: id in db.actions && SameEffect(db.actions[id], a.tenantId, a)
  }

  /** Nothing speaks against its effect but the guard and the approval itself. */
  predicate Sound(db: Db, a: Approval, stale: bool, world: Outside) {
    !stale && world.snapshotAgrees && (a.actionType == "refund" ==> Charged(db, a))
  }

  predicate Effective(db: Db, call: Call, a: Approval, stale: bool, world: Outside, asOf: Time) {
    && Pending(db, a, stale, world) && Sound(db, a, stale, world) && !a.consumed
    && if a.actionType == "refund" then ActionAdmitted(db, EffectOf(call, a), asOf) else world.updated
  }

  predicate GuardRefuses(db: Db, call: Call, a: Approval, stale: bool, world: Outside, asOf: Time) {
    && Pending(db, a, stale, world) && Sound(db, a, stale, world)
    && a.actionType == "refund" && !ActionAdmitted(db, EffectOf(call, a), asOf)
  }

  /** The caller is fenced and the checks outside these tables found its records. */
  predicate Verified(db: Db, call: Call, world: Outside) {
    WorkerFenced(db, call) && world.verdict != Unverified
  }

  /** A stale reason of any kind. */
  predicate StaleFound(db: Db, call: Call, world: Outside)
    requires WorkerFenced(db, call)
  {
    world.verdict == StaleReason || !ApprovalBound(db, call)
  }

  /** A verified call whose action takes effect. */
  predicate TakesPlace(db: Db, call: Call, world: Outside, asOf: Time) {
    && Verified(db, call, world)
    && Effective(db, call, db.approvals[call.approvalId], StaleFound(db, call, world), world, asOf)
  }

  /** A verified call whose refund only the pair guard refuses. */
  predicate PairRefused(db: Db, call: Call, world: Outside, asOf: Time) {
    && Verified(db, call, world)
    && GuardRefuses(db, call, db.approvals[call.approvalId], StaleFound(db, call, world), world, asOf)
  }

  lemma RefusedIsAuthorised(db: Db, call: Call, world: Outside, asOf: Time)
    requires PairRefused(db, call, world, asOf)
    ensures WorkerFenced(db, call) && call.approvalId in db.approvals
    ensures !db.approvals[call.approvalId].consumed ==> WorkerAuthorised(db, call)
  {
    hide LeaseHeld, RecordsFound, ActionAdmitted, EffectOf, Charged;
  }

  // ----- results on the tables -----

  /** An open approval changes its status, one version on. */
  predicate Transition(a: Approval, b: Approval, status: string, consumed: bool) {
    && a.status == "approved" && !a.consumed
    && b.status == status && b.statusVersion == a.statusVersion + 1 && b.consumed == consumed
  }

  /** The approval after a result: executed and consumed, stale, or as it was. */
  predicate ApprovalAfter(a: Approval, b: Approval, r: Result) {
    && b.(status := a.status, statusVersion := a.statusVersion, consumed := a.consumed) == a
    && match r
       case Failed(_) => b == a
       case Succeeded(_) =>
         if a.status == "executed" then b == a else Transition(a, b, "executed", true)
       case Stale(reused, _) =>
         if reused then a.status == "stale" && b == a else Transition(a, b, "stale", false)
  }

  /** The action an effect adds names the approval, its decision and what was approved. */
  predicate ActionRow(x: Action, call: Call, a: Approval) {
    && x.tenantId == call.tenantId && x.customerId == a.customerId && x.actionType == a.actionType
    && x.resourceId == Some(a.resourceId) && x.resourceVersion == Some(a.businessVersion)
    && x.approvalId == Some(call.approvalId) && x.decisionId == Some(call.decisionId)
  }

  /** A refund turns its one charged row into refunded, a version on. */
  predicate RowRefunded(before: Ledger, after: Ledger, a: Approval) {
    && a.resourceId in before && after.Keys == before.Keys
    && (forall id :: id in before && id != a.resourceId ==> after[id] == before[id])
    && var row, now := before[a.resourceId], after[a.resourceId];
       && row.status == "charged" && row.version == a.businessVersion
       && now.status == "refunded" && now.version == row.version + 1
       && now.(status := row.status, version := row.version) == row
  }

  /** What a result other than an error does to every table. */
  ghost predicate OnTables(before: Db, after: Db, call: Call, actionId: Id, r: Result) {
    && call.approvalId in before.approvals && after.approvals.Keys == before.approvals.Keys
    && var a := before.approvals[call.approvalId];
       && ApprovalAfter(a, after.approvals[call.approvalId], r)
       && (forall id :: id in before.approvals && id != call.approvalId ==> after.approvals[id] == before.approvals[id])
       && ProposalsRetired(before.proposals, after.proposals, a)
       && after.decisions == before.decisions && after.jobs == before.jobs
       && after.runs == before.runs && after.tickets == before.tickets
       && if r == Succeeded(false) then
            && actionId !in before.actions && after.actions.Keys == before.actions.Keys + {actionId}
            && ActionRow(after.actions[actionId], call, a)
            && (forall id :: id in before.actions ==> after.actions[id] == before.actions[id])
            && if a.actionType == "refund" then RowRefunded(before.billing, after.billing, a)
               else after.billing == before.billing
          else after.actions == before.actions && after.billing == before.billing
  }

  lemma EffectOnTables(before: Db, after: Db, call: Call, actionId: Id, asOf: Time)
    requires RefundEffect(before, after, call, actionId, asOf) || OtherEffect(before, after, call, actionId)
    ensures OnTables(before, after, call, actionId, Succeeded(false))
  {
    hide Retired, Moved, ProposalsRetired, ActionAdmitted, EffectOf;
    ApprovalMoves();
  }

  lemma ReplayOnTables(before: Db, after: Db, call: Call, actionId: Id)
    requires Replayed(before, after, call)
    ensures OnTables(before, after, call, actionId, Succeeded(true))
  {
    hide Retired, Moved, ProposalsRetired, SameEffect;
    ApprovalMoves();
  }

  lemma StaleOnTables(before: Db, after: Db, call: Call, actionId: Id, pairStale: bool)
    ensures WentStale(before, after, call) ==> OnTables(before, after, call, actionId, Stale(false, pairStale))
    ensures StaleReplayed(before, after, call) ==> OnTables(before, after, call, actionId, Stale(true, pairStale))
  {
    hide Retired, Moved, ProposalsRetired;
  }

  lemma ApprovalMoves()
    ensures "approved" != "executed"
  {
    assert "approved"[0] == 'a' && "executed"[0] == 'e';
  }

  /** The transaction behind a result. */
  ghost predicate Explained(before: Db, after: Db, call: Call, actionId: Id, asOf: Time, r: Result) {
    match r
    case Failed(_) => true
    case Succeeded(reused) =>
      if reused then Replayed(before, after, call)
      else RefundEffect(before, after, call, actionId, asOf) || OtherEffect(before, after, call, actionId)
    case Stale(reused, _) => if reused then StaleReplayed(before, after, call) else WentStale(before, after, call)
  }

  /** The stale pair is published: only the guard refused, the approval is open and the pair is not current later. */
  predicate StalePublished(db: Db, call: Call, world: Outside, asOf: Time, later: Time) {
    && PairRefused(db, call, world, asOf) && !db.approvals[call.approvalId].consumed
    && !ApprovalCurrent(db, db.approvals[call.approvalId], later)
  }

  lemma NotPublished(db: Db, call: Call, world: Outside, asOf: Time, later: Time)
    ensures StalePublished(db, call, world, asOf, later) ==> PairRefused(db, call, world, asOf)
  {
    hide PairRefused;
  }

  lemma ResultOnTables(before: Db, after: Db, call: Call, actionId: Id, asOf: Time, r: Result)
    requires Explained(before, after, call, actionId, asOf, r)
    ensures !r.Failed? ==> OnTables(before, after, call, actionId, r)
  {
    hide RefundEffect, OtherEffect, Replayed, StaleReplayed, WentStale, OnTables;
    match r
    case Failed(_) =>
    case Succeeded(reused) =>
      if reused {
        ReplayOnTables(before, after, call, actionId);
      } else {
        EffectOnTables(before, after, call, actionId, asOf);
      }
    case Stale(reused, pairStale) => StaleOnTables(before, after, call, actionId, pairStale);
  }

  /** A fenced call, on the tables: job, run, ticket, approval, proposal and decision belong
      together, and the job is leased and active under the caller's token. */
  lemma FencedIff(db: Db, call: Call)
    ensures WorkerFenced(db, call) <==>
      && call.jobId in db.jobs && call.approvalId in db.approvals && call.decisionId in db.decisions
      && var job, a, d := db.jobs[call.jobId], db.approvals[call.approvalId], db.decisions[call.decisionId];
         && job.ticketId in db.tickets && job.runId in db.runs
         && a.proposalId.Some? && a.proposalId.value in db.proposals
         && var run, ticket, p := db.runs[job.runId], db.tickets[job.ticketId], db.proposals[a.proposalId.value];
            && job.tenantId == run.tenantId == ticket.tenantId == call.tenantId
            && a.tenantId == p.tenantId == d.tenantId == call.tenantId
            && job.kind == "approval_resume" && job.approvalId == Some(call.approvalId)
            && job.status == "leased" && job.fencingToken == call.fencingToken
            && run.activeJobId == Some(call.jobId) && run.activeFencingToken == Some(call.fencingToken)
            && a.runId == Some(job.runId) && p.runId == job.runId
            && a.ticketId == job.ticketId == run.ticketId
            && a.customerId == run.customerId == ticket.customerId && d.approvalId == call.approvalId
  {
  }

  /** When a fenced action takes effect, on the tables: the approval is open, the decision
      approves it, the proposal is for it, no such action exists, nothing outside speaks
      against it, and for a refund its row is charged at the approved version and its pair
      current. */
  lemma TakesPlaceIff(db: Db, call: Call, world: Outside, asOf: Time)
    requires WorkerFenced(db, call)
    ensures var a := db.approvals[call.approvalId];
      var p := db.proposals[a.proposalId.value];
      TakesPlace(db, call, world, asOf) <==>
        && world.verdict == Clear && world.snapshotAgrees
        && a.status == "approved" && !a.consumed
        && db.decisions[call.decisionId].decision in {"approve", "edit_and_approve"}
        && p.actionType == a.actionType && p.resourceId == a.resourceId && p.resourceVersion == a.businessVersion
        && (forall id :: id in db.actions ==>
              !(db.actions[id].tenantId == a.tenantId && db.actions[id].actionType == a.actionType
                && db.actions[id].resourceId == Some(a.resourceId)
                && db.actions[id].resourceVersion == Some(a.businessVersion)))
        && if a.actionType != "refund" then world.updated
           else
             && a.resourceId in db.billing
             && db.billing[a.resourceId].tenantId == a.tenantId && db.billing[a.resourceId].customerId == a.customerId
             && db.billing[a.resourceId].status == "charged" && db.billing[a.resourceId].version == a.businessVersion
             && SnapshotCurrent(db.billing, a.tenantId, a.customerId, a.resourceId, p.binding, asOf)
  {
    hide SnapshotCurrent, LeaseHeld;
  }

  class RefundDatabase {
    var billing: Ledger
    var proposals: map<Id, Proposal>
    var approvals: map<Id, Approval>
    var decisions: map<Id, Decision>
    var actions: map<Id, Action>
    var jobs: map<Id, Job>
    var runs: map<Id, AgentRun>
    var tickets: map<Id, Ticket>

    function Now(): Db
      reads this
    {
      Db(billing, proposals, approvals, decisions, actions, jobs, runs, tickets)
    }

    method Restore(db: Db)
      modifies this
      ensures Now() == db
    {
      billing, proposals, approvals, decisions := db.billing, db.proposals, db.approvals, db.decisions;
      actions, jobs, runs, tickets := db.actions, db.jobs, db.runs, db.tickets;
    }

    /** SET status, guarded by status='approved', the read status_version and consumed_at IS NULL. */
    method MoveApproval(id: Id, read: Approval, status: string, consumed: bool) returns (moved: bool)
      requires id in approvals
      modifies this`approvals
      ensures moved <==> (old(approvals)[id].status == "approved"
                          && old(approvals)[id].statusVersion == read.statusVersion && !old(approvals)[id].consumed)
      ensures approvals == if moved then old(approvals)[id := Moved(old(approvals)[id], status, consumed)]
        else old(approvals)
    {
      var a := approvals[id];
      moved := a.status == "approved" && a.statusVersion == read.statusVersion && !a.consumed;
      if moved {
        approvals := approvals[id := Moved(a, status, consumed)];
      }
    }

    /** Publish a stale result: the approval moves, its resource's open proposals retire. */
    method GoStale(call: Call, a: Approval) returns (moved: bool)
      requires call.approvalId in approvals && approvals[call.approvalId] == a
      requires a.tenantId == call.tenantId
      modifies this`approvals, this`proposals
      ensures !moved ==> Now() == old(Now())
      ensures moved ==> WentStale(old(Now()), Now(), call)
      ensures moved <==> a.status == "approved" && !a.consumed
    {
      hide Retired, Moved;
      moved := MoveApproval(call.approvalId, a, "stale", false);
      if moved {
        proposals := Retired(proposals, a);
      }
    }

    /** An action with this effect identity exists already. */
    method Replay(call: Call, a: Approval, x: Action, visible: bool) returns (r: Result)
      requires call.approvalId in approvals && approvals[call.approvalId] == a
      requires a.tenantId == call.tenantId && (a.status == "approved" || a.status == "executed")
      requires exists id :: id in actions && SameEffect(actions[id], call.tenantId, a)
      modifies this`approvals, this`proposals
      ensures r == Succeeded(true) || (r.Failed? && r.cause != PairStale)
      ensures r == Succeeded(true) ==> Replayed(old(Now()), Now(), call)
    {
      hide Retired, Moved, SameEffect;
      if x.approvalId != Some(call.approvalId) || x.decisionId != Some(call.decisionId) || !visible {
        return Failed(EffectConflict);
      }
      if a.status == "approved" {
        var moved := MoveApproval(call.approvalId, a, "executed", true);
        if !moved {
          return Failed(ApprovalConflict);
        }
      }
      proposals := Retired(proposals, a);
      r := Succeeded(true);
    }

    /** INSERT the action past its guard, mark the target refunded, consume the approval. */
    method TakeEffect(call: Call, a: Approval, row: Billing, actionId: Id, asOf: Time) returns (r: Result)
      requires actionId !in actions
      requires call.approvalId in approvals && approvals[call.approvalId] == a
      requires a.tenantId == call.tenantId && a.actionType == "refund" && a.status == "approved"
      requires a.resourceId in billing && billing[a.resourceId] == row
      requires row.status == "charged" && row.version == a.businessVersion
      modifies this`actions, this`billing, this`approvals, this`proposals
      ensures r == Succeeded(false) || r.Failed?
      ensures r == Succeeded(false) ==> RefundEffect(old(Now()), Now(), call, actionId, asOf)
      ensures r == Failed(PairStale) <==> !ActionAdmitted(old(Now()), EffectOf(call, a), asOf)
      ensures r == Succeeded(false) <==> ActionAdmitted(old(Now()), EffectOf(call, a), asOf) && !a.consumed
    {
      hide Retired, Moved, ActionAdmitted;
      var effect := EffectOf(call, a);
      if !ActionAdmitted(Now(), effect, asOf) {
        return Failed(PairStale);
      }
      actions := actions[actionId := effect];
      billing := billing[a.resourceId := row.(status := "refunded", version := row.version + 1)];
      var moved := MoveApproval(call.approvalId, a, "executed", true);
      if !moved {
        return Failed(ApprovalConflict);
      }
      proposals := Retired(proposals, a);
      r := Succeeded(false);
    }

    /** The same for another kind of action: `updated` tells whether the one row of its
        own table was. */
    method TakeOtherEffect(call: Call, a: Approval, actionId: Id, updated: bool) returns (r: Result)
      requires actionId !in actions
      requires call.approvalId in approvals && approvals[call.approvalId] == a
      requires a.tenantId == call.tenantId && a.actionType != "refund" && a.status == "approved"
      modifies this`actions, this`approvals, this`proposals
      ensures r == Succeeded(false) || (r.Failed? && r.cause != PairStale)
      ensures r == Succeeded(false) ==> OtherEffect(old(Now()), Now(), call, actionId)
      ensures r == Succeeded(false) <==> updated && !a.consumed
    {
      hide Retired, Moved;
      actions := actions[actionId := EffectOf(call, a)];
      if !updated {
        return Failed(ResourceConflict);
      }
      var moved := MoveApproval(call.approvalId, a, "executed", true);
      if !moved {
        return Failed(ApprovalConflict);
      }
      proposals := Retired(proposals, a);
      r := Succeeded(false);
    }

    /** A pending action takes effect or goes stale. */
    method Perform(call: Call, a: Approval, stale: bool, actionId: Id, world: Outside, asOf: Time) returns (r: Result)
      requires actionId !in actions
      requires call.approvalId in approvals && approvals[call.approvalId] == a && a.tenantId == call.tenantId
      requires a.status == "approved"
      modifies this
      ensures r == Succeeded(false) ==>
        RefundEffect(old(Now()), Now(), call, actionId, asOf) || OtherEffect(old(Now()), Now(), call, actionId)
      ensures r == Stale(false, false) ==> WentStale(old(Now()), Now(), call)
      ensures r == Succeeded(false) <==>
        && Sound(old(Now()), a, stale, world) && !a.consumed
        && if a.actionType == "refund" then ActionAdmitted(old(Now()), EffectOf(call, a), asOf) else world.updated
      ensures r == Failed(PairStale) <==>
        && Sound(old(Now()), a, stale, world)
        && a.actionType == "refund" && !ActionAdmitted(old(Now()), EffectOf(call, a), asOf)
      ensures r == Stale(false, false) <==> !Sound(old(Now()), a, stale, world) && !a.consumed
      ensures r.Failed? || r == Succeeded(false) || r == Stale(false, false)
    {
      hide Retired, Moved, ActionAdmitted, RefundEffect, OtherEffect, WentStale, EffectOf;
      if !Sound(Now(), a, stale, world) {
        var moved := GoStale(call, a);
        return if moved then Stale(false, false) else Failed(ApprovalConflict);
      }
      if a.actionType == "refund" {
        r := TakeEffect(call, a, billing[a.resourceId], actionId, asOf);
      } else {
        r := TakeOtherEffect(call, a, actionId, world.updated);
      }
    }

    /** The delegated capability once its caller is fenced: from the approval's status on. */
    method Execute(call: Call, a: Approval, stale: bool, actionId: Id, world: Outside, asOf: Time) returns (r: Result)
      requires actionId !in actions
      requires call.approvalId in approvals && approvals[call.approvalId] == a && a.tenantId == call.tenantId
      modifies this
      ensures !r.Failed? ==> Explained(old(Now()), Now(), call, actionId, asOf, r)
      ensures r.Stale? ==> !r.pairStale
      ensures r == Succeeded(false) <==> Effective(old(Now()), call, a, stale, world, asOf)
      ensures r == Failed(PairStale) <==> GuardRefuses(old(Now()), call, a, stale, world, asOf)
      ensures r == Stale(false, false) <==>
        Pending(old(Now()), a, stale, world) && !Sound(old(Now()), a, stale, world) && !a.consumed
      ensures r == Stale(true, false) <==> a.status == "stale"
    {
      hide Retired, Moved, ActionAdmitted, RefundEffect, OtherEffect, WentStale, SameEffect, EffectOf, Charged;
      if a.status in {"rejected", "withdrawn", "failed", "manual_takeover"} {
        return Failed(ApprovalTerminal);
      }
      if a.status == "stale" {
        proposals := Retired(proposals, a);
        return Stale(true, false);
      }
      if a.status != "approved" && a.status != "executed" {
        return Failed(NotExecutable);
      }
      if !stale && world.verdict == Denied {
        return Failed(MutationDisabled);
      }
      if exists id :: id in actions && SameEffect(actions[id], call.tenantId, a) {
        var id :| id in actions && SameEffect(actions[id], call.tenantId, a);
        var row := Select(billing, call.tenantId, a.customerId, a.resourceId);
        var visible :=
          if a.actionType == "refund" then
            row.Some? && row.value.status == "refunded" && row.value.version == a.businessVersion + 1
          else world.visible;
        r := Replay(call, a, actions[id], visible);
        return;
      }
      if a.status == "executed" {
        return Failed(TerminalConflict);
      }
      r := Perform(call, a, stale, actionId, world, asOf);
    }

    /** The delegated capability.  On `Failed` its writes are still in place: the
        caller's savepoint undoes them. */
    method Delegate(call: Call, actionId: Id, world: Outside, asOf: Time) returns (r: Result)
      requires actionId !in actions
      modifies this
      ensures !r.Failed? ==> WorkerFenced(old(Now()), call)
      ensures !r.Failed? ==> Explained(old(Now()), Now(), call, actionId, asOf, r)
      ensures r.Stale? ==> !r.pairStale
      ensures r == Succeeded(false) <==> TakesPlace(old(Now()), call, world, asOf)
      ensures r == Failed(PairStale) <==> PairRefused(old(Now()), call, world, asOf)
    {
      hide ActionAdmitted, Explained, EffectOf, LeaseHeld, ApprovalBound, Pending, Sound;
      if !AggregateFound(Now(), call) {
        return Failed(BindingInvalid);
      }
      if !LeaseHeld(Now(), call) {
        return Failed(FencingStale);
      }
      if world.verdict == Unverified || !RecordsFound(Now(), call) {
        return Failed(BindingInvalid);
      }
      var stale := world.verdict == StaleReason || !ApprovalBound(Now(), call);
      r := Execute(call, approvals[call.approvalId], stale, actionId, world, asOf);
    }

    /** `supportguard_worker_execute_approved_action` (revision i203): the delegate's
        result, an error that changes nothing, or a stale result published under the
        caller's own lease. */
    method WorkerExecute(call: Call, actionId: Id, world: Outside, asOf: Time, later: Time) returns (r: Result)
      requires asOf <= later
      requires actionId !in actions
      modifies this
      ensures r.Failed? ==> Now() == old(Now())
      ensures !r.Failed? ==> WorkerFenced(old(Now()), call) && OnTables(old(Now()), Now(), call, actionId, r)
      ensures !r.Failed? ==> Explained(old(Now()), Now(), call, actionId, asOf, r)
      ensures r == Succeeded(false) <==> TakesPlace(old(Now()), call, world, asOf)
      ensures r == Stale(false, true) <==> StalePublished(old(Now()), call, world, asOf, later)
      ensures r.Stale? && r.pairStale ==> !r.reused && WorkerAuthorised(old(Now()), call)
    {
      hide WorkerFenced, WorkerAuthorised, Explained, PairRefused, TakesPlace, OnTables, StalePublished;
      var savepoint := Now();
      NotPublished(savepoint, call, world, asOf, later);
      r := Delegate(call, actionId, world, asOf);
      if !r.Failed? {
        ResultOnTables(savepoint, Now(), call, actionId, asOf, r);
        return;
      }
      Restore(savepoint);
      if r.cause != PairStale {
        return;
      }
      r := PublishStale(call, actionId, world, asOf, later);
    }

    /** The wrapper after the pair guard refused: prove the authority again, then publish the stale result. */
    method PublishStale(call: Call, actionId: Id, world: Outside, asOf: Time, later: Time) returns (r: Result)
      requires PairRefused(Now(), call, world, asOf)
      modifies this`approvals, this`proposals
      ensures r.Failed? ==> Now() == old(Now())
      ensures r.Failed? || r == Stale(false, true)
      ensures r == Stale(false, true) <==> StalePublished(old(Now()), call, world, asOf, later)
      ensures !r.Failed? ==> Explained(old(Now()), Now(), call, actionId, asOf, r)
      ensures r == Stale(false, true) ==>
        && OnTables(old(Now()), Now(), call, actionId, r)
        && WorkerAuthorised(old(Now()), call) && WorkerFenced(old(Now()), call)
    {
      hide ActionAdmitted, EffectOf, ApprovalCurrent, ApprovalBound, WorkerFenced, WorkerAuthorised, WentStale,
        PairRefused, OnTables;
      ghost var savepoint := Now();
      RefusedIsAuthorised(Now(), call, world, asOf);
      if !WorkerAuthorised(Now(), call) {
        return Failed(BindingInvalid);
      }
      AuthorisedApproval(Now(), call);
      if ApprovalCurrent(Now(), approvals[call.approvalId], later) {
        return Failed(BindingInvalid);
      }
      var moved := GoStale(call, approvals[call.approvalId]);
      StaleOnTables(savepoint, Now(), call, actionId, true);
      r := if moved then Stale(false, true) else Failed(ApprovalConflict);
    }
  }
}
