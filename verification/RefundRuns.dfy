/** Safety of the refund protocol over whole runs.  A run is any sequence of
    transactions that pass the guards, each one atomic, with a clock that never
    goes back. */
module RefundRuns {
  import opened Options
  import opened RefundPair
  import opened RefundStore

  datatype World = World(db: Db, now: Time)

  /** One committed transaction; `at` is the clock reading its guard used. */
  datatype Txn =
    | InsertBilling(id: Id, row: Billing)
    | UpdateBilling(id: Id, row: Billing)
    | InsertProposal(id: Id, proposal: Proposal, at: Time)
    | UpdateProposal(id: Id, proposal: Proposal)
    | WriteApproval(id: Id, approval: Approval)
    | InsertDecision(id: Id, decision: Decision, at: Time)
    | InsertAction(id: Id, action: Action, at: Time)
    | Effect(call: Call, id: Id, at: Time)
    | GoesStale(call: Call)
    | ActsOtherwise(call: Call, id: Id)
    | Replays(call: Call)
    | ReplaysStale(call: Call)
    | WriteOther(jobs: map<Id, Job>, runs: map<Id, AgentRun>, tickets: map<Id, Ticket>)

  ghost predicate Applies(before: Db, txn: Txn, after: Db) {
    match txn
    case InsertBilling(id, row) => id !in before.billing && after == before.(billing := before.billing[id := row])
    case UpdateBilling(id, row) =>
      id in before.billing && SameIdentity(before.billing[id], row)
      && after == before.(billing := before.billing[id := row])
    case InsertProposal(id, p, at) =>
      id !in before.proposals && InsertedProposal(before, p, at).Some?
      && after == before.(proposals := before.proposals[id := InsertedProposal(before, p, at).value])
    case UpdateProposal(id, p) =>
      id in before.proposals && p.binding == before.proposals[id].binding && BindingComplete(p)
      && after == before.(proposals := before.proposals[id := p])
    case WriteApproval(id, a) => after == before.(approvals := before.approvals[id := a])
    case InsertDecision(id, d, at) =>
      id !in before.decisions && DecisionAdmitted(before, d, at)
      && after == before.(decisions := before.decisions[id := d])
    case InsertAction(id, x, at) =>
      id !in before.actions && ActionAdmitted(before, x, at) && after == before.(actions := before.actions[id := x])
    case Effect(call, id, at) => RefundEffect(before, after, call, id, at)
    case GoesStale(call) => WentStale(before, after, call)
    case ActsOtherwise(call, id) => OtherEffect(before, after, call, id)
    case Replays(call) => Replayed(before, after, call)
    case ReplaysStale(call) => StaleReplayed(before, after, call)
    case WriteOther(jobs, runs, tickets) => after == before.(jobs := jobs, runs := runs, tickets := tickets)
  }

  predicate Stamped(txn: Txn) {
    txn.InsertProposal? || txn.InsertDecision? || txn.InsertAction? || txn.Effect?
  }

  ghost predicate Step(w: World, txn: Txn, v: World) {
    && Applies(w.db, txn, v.db)
    && w.now <= v.now
    && (Stamped(txn) ==> w.now <= txn.at <= v.now)
  }

  ghost predicate IsRun(worlds: seq<World>, txns: seq<Txn>) {
    && |worlds| == |txns| + 1
    && forall i :: 0 <= i < |txns| ==> Step(worlds[i], txns[i], worlds[i + 1])
  }

  // ----- billing rows and bindings keep their identity -----

  lemma RetiredKeeps(proposals: map<Id, Proposal>, a: Approval)
    ensures Retired(proposals, a).Keys == proposals.Keys
    ensures forall id :: id in proposals ==> Retired(proposals, a)[id].binding == proposals[id].binding
  {
  }

  /** None of these transactions changes a billing identity or an existing binding. */
  lemma StepKeepsIdentity(before: Db, txn: Txn, after: Db)
    requires Applies(before, txn, after)
    ensures Evolves(before.billing, after.billing)
    ensures forall id :: id in before.proposals ==>
      id in after.proposals && after.proposals[id].binding == before.proposals[id].binding
    ensures forall id :: id in after.proposals && id !in before.proposals ==> txn.InsertProposal? && txn.id == id
  {
    hide InsertedProposal, ActionAdmitted, DecisionAdmitted, Retired, BindingComplete;
    if txn.Effect? || txn.GoesStale? || txn.ActsOtherwise? || txn.Replays? || txn.ReplaysStale? {
      RetiredKeeps(before.proposals, before.approvals[txn.call.approvalId]);
    }
  }

  lemma {:induction false} RunKeepsIdentity(worlds: seq<World>, txns: seq<Txn>, i: nat, k: nat)
    requires IsRun(worlds, txns) && i <= k < |worlds|
    ensures Evolves(worlds[i].db.billing, worlds[k].db.billing) && worlds[i].now <= worlds[k].now
    ensures forall id :: id in worlds[i].db.proposals ==>
      id in worlds[k].db.proposals && worlds[k].db.proposals[id].binding == worlds[i].db.proposals[id].binding
    decreases k
  {
    hide Applies, Evolves;
    if i == k {
      EvolvesSelf(worlds[i].db.billing);
    } else {
      RunKeepsIdentity(worlds, txns, i, k - 1);
      assert Step(worlds[k - 1], txns[k - 1], worlds[k - 1 + 1]);
      StepKeepsIdentity(worlds[k - 1].db, txns[k - 1], worlds[k].db);
      EvolvesTransitive(worlds[i].db.billing, worlds[k - 1].db.billing, worlds[k].db.billing);
    }
  }

  lemma EvolvesSelf(ledger: Ledger)
    ensures Evolves(ledger, ledger)
  {
  }

  // ----- every refund action matches the pair bound into its proposal -----

  /** Transaction `j` inserted proposal `id`, binding the eligible pair of that moment. */
  ghost predicate BoundAt(worlds: seq<World>, txns: seq<Txn>, j: nat, id: Id, b: Binding) {
    && j < |txns| && j < |worlds|
    && txns[j].InsertProposal? && txns[j].id == id
    && var customer := RunCustomer(worlds[j].db, txns[j].proposal.tenantId, txns[j].proposal.runId);
       customer.Some? && SnapshotCurrent(worlds[j].db.billing, txns[j].proposal.tenantId, customer.value,
                                         txns[j].proposal.resourceId, b, txns[j].at)
  }

  lemma InsertBinds(db: Db, p: Proposal, at: Time)
    requires InsertedProposal(db, p, at).Some? && p.actionType == "refund"
    ensures var stored, customer := InsertedProposal(db, p, at).value, RunCustomer(db, p.tenantId, p.runId);
      customer.Some? && SnapshotCurrent(db.billing, p.tenantId, customer.value, p.resourceId, stored.binding, at)
  {
  }

  /** When the guard lets a refund proposal in, on its columns and the tables, and what is stored:
      the row as given, bound to the eligible pair of that moment. */
  lemma InsertionIff(db: Db, p: Proposal, at: Time)
    requires p.actionType == "refund"
    ensures InsertedProposal(db, p, at).Some? <==>
      && p.runId in db.runs && db.runs[p.runId].tenantId == p.tenantId
      && var run := db.runs[p.runId];
         && run.ticketId in db.tickets && db.tickets[run.ticketId] == Ticket(p.tenantId, run.customerId)
         && p.payload.billingRecordId in {None, Some(p.resourceId)}
         && p.payload.customerId in {None, Some(run.customerId)}
         && p.payload.businessVersion in {None, Some(p.resourceVersion)}
         && p.resourceId in db.billing && db.billing[p.resourceId].version == p.resourceVersion
         && exists b: Binding ::
              && p.binding in {UNBOUND, b}
              && SnapshotCurrent(db.billing, p.tenantId, run.customerId, p.resourceId, b, at)
    ensures InsertedProposal(db, p, at).Some? ==>
      var stored := InsertedProposal(db, p, at).value;
      stored == p.(binding := stored.binding)
  {
    var customer := RunCustomer(db, p.tenantId, p.runId);
    if customer.Some? {
      var s := PairSnapshot(db.billing, p.tenantId, customer.value, p.resourceId, at);
      if s.Some? && s.value.eligible {
        SnapshotBinds(db.billing, p.tenantId, customer.value, p.resourceId, at);
        assert SnapshotCurrent(db.billing, p.tenantId, customer.value, p.resourceId, SnapshotBinding(s.value), at);
      }
    }
  }

  /** The guard on refund actions, on the columns: the action names an approval of its tenant,
      and that approval's customer, resource and version, while the pair of its proposal is current. */
  lemma ActionAdmittedIff(db: Db, x: Action, at: Time)
    ensures x.actionType != "refund" ==> ActionAdmitted(db, x, at)
    ensures x.actionType == "refund" ==>
      (ActionAdmitted(db, x, at) <==>
         && x.approvalId.Some? && x.approvalId.value in db.approvals
         && var a := db.approvals[x.approvalId.value];
            && a.tenantId == x.tenantId && a.customerId == x.customerId
            && x.resourceId == Some(a.resourceId) && x.resourceVersion == Some(a.businessVersion)
            && PairOfApproval(db, a, at))
  {
  }

  /** The guard on decisions: approving a refund needs a current pair, anything else passes. */
  lemma DecisionAdmittedIff(db: Db, d: Decision, at: Time)
    ensures !DecisionAdmitted(db, d, at) <==>
      && d.decision in {"approve", "edit_and_approve"} && d.approvalId in db.approvals
      && db.approvals[d.approvalId].tenantId == d.tenantId && db.approvals[d.approvalId].actionType == "refund"
      && !PairOfApproval(db, db.approvals[d.approvalId], at)
  {
  }

  /** The approval's proposal is a refund proposal for its resource and version, bound to a current pair. */
  predicate PairOfApproval(db: Db, a: Approval, at: Time) {
    && a.proposalId.Some? && a.proposalId.value in db.proposals
    && var p := db.proposals[a.proposalId.value];
       && p.tenantId == a.tenantId && p.actionType == "refund"
       && p.resourceId == a.resourceId && p.resourceVersion == a.businessVersion
       && SnapshotCurrent(db.billing, a.tenantId, a.customerId, a.resourceId, p.binding, at)
  }

  /** The revision's back-fill: every unbound refund proposal whose pair is eligible gets its binding. */
  function BackFilled(db: Db, at: Time): map<Id, Proposal> {
    map id | id in db.proposals :: BackFill(db, db.proposals[id], at)
  }

  function BackFill(db: Db, p: Proposal, at: Time): Proposal {
    var customer := RunCustomer(db, p.tenantId, p.runId);
    if p.actionType != "refund" || p.binding != UNBOUND || customer.None? then p
    else
      var s := PairSnapshot(db.billing, p.tenantId, customer.value, p.resourceId, at);
      if s.Some? && s.value.eligible then p.(binding := SnapshotBinding(s.value)) else p
  }

  /** Which proposals it binds: the unbound refund proposals whose pair is eligible; no other column changes. */
  lemma BackFilledIff(db: Db, at: Time, id: Id)
    requires id in db.proposals
    ensures id in BackFilled(db, at)
    ensures var p, q := db.proposals[id], BackFilled(db, at)[id];
      && q == p.(binding := q.binding)
      && (q.binding != p.binding <==>
            && p.actionType == "refund" && p.binding == UNBOUND && RunCustomer(db, p.tenantId, p.runId).Some?
            && exists b :: SnapshotCurrent(db.billing, p.tenantId, RunCustomer(db, p.tenantId, p.runId).value,
                                           p.resourceId, b, at))
  {
    hide RunCustomer;
    var p := db.proposals[id];
    var customer := RunCustomer(db, p.tenantId, p.runId);
    if customer.Some? {
      var s := PairSnapshot(db.billing, p.tenantId, customer.value, p.resourceId, at);
      if s.Some? && s.value.eligible {
        SnapshotBinds(db.billing, p.tenantId, customer.value, p.resourceId, at);
        assert SnapshotCurrent(db.billing, p.tenantId, customer.value, p.resourceId, SnapshotBinding(s.value), at);
      }
    }
  }

  /** Proposal `id` was bound before the run to what then was, and in `w` still is, an eligible pair. */
  ghost predicate BoundBefore(w: World, id: Id)
    requires id in w.db.proposals
  {
    var p := w.db.proposals[id];
    exists customer, at ::
      at <= w.now && SnapshotCurrent(w.db.billing, p.tenantId, customer, p.resourceId, p.binding, at)
  }

  /** A state to start from: what is bound, is bound to an eligible pair. */
  ghost predicate Starts(w: World) {
    forall id :: id in w.db.proposals ==> w.db.proposals[id].binding == UNBOUND || BoundBefore(w, id)
  }

  /** The back-fill leaves such a state, whatever proposals the database held. */
  lemma BackFillStarts(db: Db, at: Time, now: Time)
    requires at <= now && forall id :: id in db.proposals ==> db.proposals[id].binding == UNBOUND
    ensures Starts(World(db.(proposals := BackFilled(db, at)), now))
  {
    hide RunCustomer, PairSnapshot;
    var w := World(db.(proposals := BackFilled(db, at)), now);
    forall id | id in w.db.proposals && w.db.proposals[id].binding != UNBOUND ensures BoundBefore(w, id) {
      var p := db.proposals[id];
      var customer := RunCustomer(db, p.tenantId, p.runId).value;
      SnapshotBinds(db.billing, p.tenantId, customer, p.resourceId, at);
      assert SnapshotCurrent(w.db.billing, p.tenantId, customer, p.resourceId, w.db.proposals[id].binding, at);
    }
  }

  lemma SnapshotBinds(ledger: Ledger, tenantId: Id, customerId: Id, id: Id, at: Time)
    requires var s := PairSnapshot(ledger, tenantId, customerId, id, at); s.Some? && s.value.eligible
    ensures var s := PairSnapshot(ledger, tenantId, customerId, id, at).value;
      SnapshotCurrent(ledger, tenantId, customerId, id, SnapshotBinding(s), at)
  {
  }

  datatype Origin = BeforeRun | AtInsertion(index: nat)

  /** The world whose rows the binding records. */
  function Moment(o: Origin): nat {
    match o
    case BeforeRun => 0
    case AtInsertion(j) => j
  }

  ghost predicate BoundBy(worlds: seq<World>, txns: seq<Txn>, o: Origin, id: Id, b: Binding) {
    match o
    case BeforeRun =>
      |worlds| > 0 && id in worlds[0].db.proposals && worlds[0].db.proposals[id].binding == b
      && BoundBefore(worlds[0], id)
    case AtInsertion(j) => BoundAt(worlds, txns, j, id, b)
  }

  /** Every bound proposal was bound at its own insertion, or before the run, to the
      eligible pair of that moment. */
  lemma {:induction false} BindingOrigin(worlds: seq<World>, txns: seq<Txn>, k: nat, id: Id) returns (o: Origin)
    requires IsRun(worlds, txns) && k < |worlds| && Starts(worlds[0])
    requires id in worlds[k].db.proposals && worlds[k].db.proposals[id].binding != UNBOUND
    ensures BoundBy(worlds, txns, o, id, worlds[k].db.proposals[id].binding) && Moment(o) <= k
    ensures o.AtInsertion? ==> o.index < k
    decreases k
  {
    hide Applies, InsertedProposal, SnapshotCurrent, RunCustomer, Evolves, BoundBefore;
    if k == 0 {
      o := BeforeRun;
    } else {
      var m := k - 1;
      assert Step(worlds[m], txns[m], worlds[m + 1]);
      StepKeepsIdentity(worlds[m].db, txns[m], worlds[k].db);
      if id in worlds[m].db.proposals {
        o := BindingOrigin(worlds, txns, m, id);
      } else {
        o := AtInsertion(m);
        InsertedIsStored(worlds[m].db, txns[m], worlds[k].db);
        InsertBinds(worlds[m].db, txns[m].proposal, txns[m].at);
      }
    }
  }

  /** The rows of that moment are the ones the digest records. */
  lemma OriginRows(worlds: seq<World>, txns: seq<Txn>, o: Origin, id: Id, b: Binding)
    requires BoundBy(worlds, txns, o, id, b)
    ensures Bound(b) && Moment(o) < |worlds|
    ensures Recorded(worlds[Moment(o)].db.billing, b)
  {
    hide RunCustomer, SnapshotCurrent;
    match o
    case BeforeRun =>
      var p := worlds[0].db.proposals[id];
      var customer, at :| SnapshotCurrent(worlds[0].db.billing, p.tenantId, customer, p.resourceId, b, at);
      DigestDeterminesRows(worlds[0].db.billing, p.tenantId, customer, p.resourceId, b, at);
    case AtInsertion(j) =>
      var p := txns[j].proposal;
      var customer := RunCustomer(worlds[j].db, p.tenantId, p.runId).value;
      DigestDeterminesRows(worlds[j].db.billing, p.tenantId, customer, p.resourceId, b, txns[j].at);
  }

  /** The ledger holds both rows as the digest of `b` records them. */
  ghost predicate Recorded(ledger: Ledger, b: Binding) {
    && Bound(b)
    && var digest := b.hash.value;
       var target, original := digest.target.id, digest.original.id;
       && b.originalId == Some(original) && target in ledger && original in ledger
       && FactsOf(target, ledger[target]) == digest.target && ledger[target].duplicateOf == digest.duplicateOf
       && FactsOf(original, ledger[original]) == digest.original
  }

  lemma RecordedRows(earlier: Ledger, later: Ledger, b: Binding)
    requires Recorded(earlier, b) && Recorded(later, b) && Evolves(earlier, later)
    ensures var target, original := b.hash.value.target.id, b.hash.value.original.id;
      later[target] == earlier[target] && later[original] == earlier[original]
  {
    var target, original := b.hash.value.target.id, b.hash.value.original.id;
    assert SameIdentity(earlier[target], later[target]) && SameIdentity(earlier[original], later[original]);
  }

  lemma InsertedIsStored(before: Db, txn: Txn, after: Db)
    requires Applies(before, txn, after) && txn.InsertProposal?
    ensures InsertedProposal(before, txn.proposal, txn.at) == Some(after.proposals[txn.id])
    ensures after.proposals[txn.id].binding != UNBOUND ==> txn.proposal.actionType == "refund"
  {
  }

  /** The approval that authorises a refund action inserted by `txn`. */
  ghost function Authority(db: Db, txn: Txn): Option<Approval> {
    if txn.InsertAction? && txn.action.actionType == "refund" then
      SelectApproval(db, txn.action.tenantId, txn.action.approvalId)
    else if txn.Effect? then SelectApproval(db, txn.call.tenantId, Some(txn.call.approvalId))
    else None
  }

  ghost predicate InsertsRefund(txn: Txn) {
    txn.Effect? || (txn.InsertAction? && txn.action.actionType == "refund")
  }

  lemma RefundIsCurrent(before: Db, txn: Txn, after: Db)
    requires Applies(before, txn, after) && InsertsRefund(txn)
    ensures Authority(before, txn).Some? && ApprovalCurrent(before, Authority(before, txn).value, txn.at)
  {
    hide ApprovalCurrent, Retired;
  }

  /** In every run, a refund action is inserted only for a proposal bound at its insertion
      or before the run, and only while both rows, status and version included, are the
      very pair that was bound. */
  lemma ActionMatchesBoundPair(worlds: seq<World>, txns: seq<Txn>, i: nat) returns (o: Origin)
    requires IsRun(worlds, txns) && i < |txns| && InsertsRefund(txns[i]) && Starts(worlds[0])
    ensures var a := Authority(worlds[i].db, txns[i]);
      && a.Some? && a.value.proposalId.Some? && a.value.proposalId.value in worlds[i].db.proposals
      && var b := worlds[i].db.proposals[a.value.proposalId.value].binding;
      && BoundBy(worlds, txns, o, a.value.proposalId.value, b) && Moment(o) <= i
      && SnapshotCurrent(worlds[i].db.billing, a.value.tenantId, a.value.customerId, a.value.resourceId, b, txns[i].at)
      && var id, original := a.value.resourceId, b.originalId.value;
      var then_, now := worlds[Moment(o)].db.billing, worlds[i].db.billing;
      && id in then_ && id in now && original in then_ && original in now
      && now[id] == then_[id] && now[original] == then_[original]
  {
    hide Applies, InsertedProposal, RunCustomer, SnapshotCurrent, Evolves, Recorded, BoundBy;
    assert Step(worlds[i], txns[i], worlds[i + 1]);
    RefundIsCurrent(worlds[i].db, txns[i], worlds[i + 1].db);
    var a := Authority(worlds[i].db, txns[i]).value;
    var b := worlds[i].db.proposals[a.proposalId.value].binding;
    NotCurrentUnbound();
    o := BindingOrigin(worlds, txns, i, a.proposalId.value);
    OriginRows(worlds, txns, o, a.proposalId.value, b);
    DigestDeterminesRows(worlds[i].db.billing, a.tenantId, a.customerId, a.resourceId, b, txns[i].at);
    RunKeepsIdentity(worlds, txns, Moment(o), i);
    RecordedRows(worlds[Moment(o)].db.billing, worlds[i].db.billing, b);
    RecordedIn(worlds[Moment(o)].db.billing, b);
  }

  lemma RecordedIn(ledger: Ledger, b: Binding)
    requires Recorded(ledger, b)
    ensures Bound(b) && b.hash.value.target.id in ledger && b.originalId == Some(b.hash.value.original.id)
    ensures b.originalId.value in ledger
  {
  }

  /** The rows behind a current binding are exactly those its digest records. */
  lemma DigestDeterminesRows(ledger: Ledger, tenantId: Id, customerId: Id, id: Id, b: Binding, asOf: Time)
    requires SnapshotCurrent(ledger, tenantId, customerId, id, b, asOf)
    ensures Recorded(ledger, b) && id == b.hash.value.target.id && id in ledger
    ensures b.originalId.value in ledger
    ensures Eligible(id, ledger[id], b.originalId.value, ledger[b.originalId.value], asOf)
  {
  }

  // ----- an unbound proposal is never used -----

  /** The approval whose proposal `txn` approves or executes. */
  ghost predicate Uses(db: Db, txn: Txn, id: Id) {
    || (InsertsRefund(txn) && Authority(db, txn).Some? && Authority(db, txn).value.proposalId == Some(id))
    || (txn.InsertDecision? && Approves(txn.decision.decision)
        && var a := SelectApproval(db, txn.decision.tenantId, Some(txn.decision.approvalId));
           a.Some? && a.value.actionType == "refund" && a.value.proposalId == Some(id))
  }

  lemma UnboundNotUsed(before: Db, txn: Txn, after: Db, id: Id)
    requires Applies(before, txn, after)
    requires id in before.proposals && before.proposals[id].binding == UNBOUND
    ensures !Uses(before, txn, id)
  {
    hide SnapshotCurrent, Retired, RefundEffect;
    if InsertsRefund(txn) {
      RefundIsCurrent(before, txn, after);
    }
    NotCurrentUnbound();
  }

  lemma NotCurrentUnbound()
    ensures forall ledger, tenantId, customerId, id, asOf ::
      !SnapshotCurrent(ledger, tenantId, customerId, id, UNBOUND, asOf)
  {
  }

  /** A proposal with no binding stays unbound, and no later transaction of any run
      approves or executes it. */
  lemma UnboundNeverUsed(worlds: seq<World>, txns: seq<Txn>, i: nat, k: nat, id: Id)
    requires IsRun(worlds, txns) && i <= k < |txns|
    requires id in worlds[i].db.proposals && worlds[i].db.proposals[id].binding == UNBOUND
    ensures id in worlds[k].db.proposals && worlds[k].db.proposals[id].binding == UNBOUND
    ensures !Uses(worlds[k].db, txns[k], id)
  {
    hide Applies, Uses;
    RunKeepsIdentity(worlds, txns, i, k);
    assert Step(worlds[k], txns[k], worlds[k + 1]);
    UnboundNotUsed(worlds[k].db, txns[k], worlds[k + 1].db, id);
  }

  /** A bound proposal that has fallen out of its window at some moment can never again
      authorise a refund: if one is authorised at `i`, the window was open at every `k` before. */
  lemma ExpiredNeverExecutes(worlds: seq<World>, txns: seq<Txn>, o: Origin, k: nat, i: nat, id: Id)
    requires IsRun(worlds, txns) && Moment(o) <= k <= i < |txns|
    requires id in worlds[k].db.proposals && BoundBy(worlds, txns, o, id, worlds[k].db.proposals[id].binding)
    requires InsertsRefund(txns[i]) && Authority(worlds[i].db, txns[i]).Some?
    requires Authority(worlds[i].db, txns[i]).value.proposalId == Some(id)
    ensures worlds[k].db.proposals[id].binding.hash.Some?
    ensures var target := worlds[k].db.proposals[id].binding.hash.value.target.id;
      && target in worlds[Moment(o)].db.billing
      && worlds[k].now - worlds[Moment(o)].db.billing[target].chargedAt <= WINDOW
  {
    hide Applies, RunCustomer, SnapshotCurrent, BoundBy, Evolves, Recorded;
    assert Step(worlds[i], txns[i], worlds[i + 1]);
    RefundIsCurrent(worlds[i].db, txns[i], worlds[i + 1].db);
    RunKeepsIdentity(worlds, txns, k, i);
    RunKeepsIdentity(worlds, txns, Moment(o), i);
    var a, b := Authority(worlds[i].db, txns[i]).value, worlds[k].db.proposals[id].binding;
    OriginRows(worlds, txns, o, id, b);
    DigestDeterminesRows(worlds[i].db.billing, a.tenantId, a.customerId, a.resourceId, b, txns[i].at);
    RecordedRows(worlds[Moment(o)].db.billing, worlds[i].db.billing, b);
    RecordedIn(worlds[Moment(o)].db.billing, b);
  }

  // ----- a refunded charge always leaves a charge standing -----

  /** Same customer, amount, currency and service period. */
  predicate SameCharge(a: Billing, b: Billing) {
    && a.tenantId == b.tenantId && a.customerId == b.customerId
    && a.amount == b.amount && a.currency == b.currency
    && a.periodStart == b.periodStart && a.periodEnd == b.periodEnd
  }

  /** `chain` follows duplicate_of through rows of the same charge. */
  ghost predicate DuplicateChain(ledger: Ledger, chain: seq<Id>) {
    && chain != []
    && (forall i :: 0 <= i < |chain| ==> chain[i] in ledger)
    && (forall i :: 0 < i < |chain| ==> ledger[chain[i - 1]].duplicateOf == Some(chain[i]))
    && (forall i :: 0 < i < |chain| ==> SameCharge(ledger[chain[0]], ledger[chain[i]]))
  }

  ghost predicate Backs(ledger: Ledger, id: Id, chain: seq<Id>) {
    && DuplicateChain(ledger, chain) && |chain| > 1 && chain[0] == id
    && ledger[chain[|chain| - 1]].status == "charged"
  }

  /** Every refunded row reaches, along its duplicate_of chain, a row of the same
      charge that is still charged. */
  ghost predicate RefundsBacked(ledger: Ledger) {
    forall id :: id in ledger && ledger[id].status == "refunded" ==> exists chain :: Backs(ledger, id, chain)
  }

  /** Rows leave `charged`, and become `refunded`, only through refund effects. */
  ghost predicate Disciplined(before: Db, txn: Txn) {
    && (txn.InsertBilling? ==> txn.row.status != "refunded")
    && (txn.UpdateBilling? && txn.id in before.billing ==>
          && (before.billing[txn.id].status == "charged" ==> txn.row.status == "charged")
          && (txn.row.status == "refunded" ==> before.billing[txn.id].status == "refunded"))
  }

  /** A chain survives whatever keeps identities and leaves its last row charged. */
  lemma ChainKept(before: Ledger, after: Ledger, id: Id, chain: seq<Id>)
    requires Backs(before, id, chain) && Evolves(before, after)
    requires chain[|chain| - 1] in after && after[chain[|chain| - 1]].status == "charged"
    ensures Backs(after, id, chain)
  {
    forall i | 0 <= i < |chain| ensures chain[i] in after && SameIdentity(before[chain[i]], after[chain[i]]) {
    }
  }

  lemma ChainExtended(ledger: Ledger, id: Id, chain: seq<Id>, original: Id)
    requires DuplicateChain(ledger, chain) && chain[0] == id
    requires original in ledger && ledger[chain[|chain| - 1]].duplicateOf == Some(original)
    requires SameCharge(ledger[chain[|chain| - 1]], ledger[original]) && ledger[original].status == "charged"
    ensures Backs(ledger, id, chain + [original])
  {
    var longer := chain + [original];
    forall i | 0 < i < |longer| ensures ledger[longer[i - 1]].duplicateOf == Some(longer[i]) {
    }
    forall i | 0 < i < |longer| ensures SameCharge(ledger[longer[0]], ledger[longer[i]]) {
    }
  }

  /** What the guard knew when the effect was admitted. */
  lemma EffectPair(before: Db, after: Db, call: Call, actionId: Id, at: Time) returns (target: Id, original: Id)
    requires RefundEffect(before, after, call, actionId, at)
    ensures target in before.billing && original in before.billing && target != original
    ensures before.billing[target].duplicateOf == Some(original)
    ensures SameCharge(before.billing[target], before.billing[original])
    ensures before.billing[original].status == "charged"
    ensures after.billing == before.billing[target := after.billing[target]]
    ensures after.billing[target].status == "refunded" && SameIdentity(before.billing[target], after.billing[target])
  {
    hide Retired, Moved;
    target := before.approvals[call.approvalId].resourceId;
    original := before.billing[target].duplicateOf.value;
  }

  lemma EffectKeepsBacked(before: Db, after: Db, call: Call, actionId: Id, at: Time)
    requires RefundEffect(before, after, call, actionId, at) && RefundsBacked(before.billing)
    ensures RefundsBacked(after.billing)
  {
    hide RefundEffect, DuplicateChain;
    var target, original := EffectPair(before, after, call, actionId, at);
    EvolvesByEffect(before.billing, after.billing, target);
    forall id | id in after.billing && after.billing[id].status == "refunded"
      ensures exists chain :: Backs(after.billing, id, chain)
    {
      var chain := [target];
      if id != target {
        chain :| Backs(before.billing, id, chain);
      }
      if id != target && chain[|chain| - 1] != target {
        LastInLedger(before.billing, id, chain);
        ChainKept(before.billing, after.billing, id, chain);
      } else {
        ChainShapeKept(before.billing, after.billing, id, chain, target);
        ChainExtended(after.billing, id, chain, original);
      }
    }
  }

  lemma LastInLedger(ledger: Ledger, id: Id, chain: seq<Id>)
    requires Backs(ledger, id, chain)
    ensures chain[|chain| - 1] in ledger
  {
  }

  lemma EvolvesByEffect(before: Ledger, after: Ledger, target: Id)
    requires target in before && target in after && SameIdentity(before[target], after[target])
    requires after == before[target := after[target]]
    ensures Evolves(before, after)
  {
  }

  lemma ChainShapeKept(before: Ledger, after: Ledger, id: Id, chain: seq<Id>, target: Id)
    requires Evolves(before, after) && target in before
    requires (chain == [target] && id == target) || (Backs(before, id, chain) && chain[|chain| - 1] == target)
    ensures DuplicateChain(after, chain) && chain[0] == id && chain[|chain| - 1] == target
  {
    forall i | 0 <= i < |chain| ensures chain[i] in after && SameIdentity(before[chain[i]], after[chain[i]]) {
    }
  }

  lemma OtherStepsKeepBacked(before: Db, txn: Txn, after: Db)
    requires Applies(before, txn, after) && Disciplined(before, txn) && !txn.Effect?
    requires RefundsBacked(before.billing)
    ensures RefundsBacked(after.billing)
  {
    hide DuplicateChain, InsertedProposal, DecisionAdmitted, ActionAdmitted, Retired;
    StepKeepsIdentity(before, txn, after);
    forall id | id in after.billing && after.billing[id].status == "refunded"
      ensures exists chain :: Backs(after.billing, id, chain)
    {
      assert id in before.billing && before.billing[id].status == "refunded";
      var chain :| Backs(before.billing, id, chain);
      LastInLedger(before.billing, id, chain);
      ChainKept(before.billing, after.billing, id, chain);
    }
  }

  /** In every run in which rows become refunded only through guarded effects, each
      refunded row is still backed by a charged row if it was so at the start; cycles and
      long chains included. */
  lemma {:induction false} RefundsStayBacked(worlds: seq<World>, txns: seq<Txn>, k: nat)
    requires IsRun(worlds, txns) && k < |worlds|
    requires forall i :: 0 <= i < |txns| ==> Disciplined(worlds[i].db, txns[i])
    requires RefundsBacked(worlds[0].db.billing)
    ensures RefundsBacked(worlds[k].db.billing)
    decreases k
  {
    hide Applies, RefundsBacked;
    if k > 0 {
      var m := k - 1;
      RefundsStayBacked(worlds, txns, m);
      assert Step(worlds[m], txns[m], worlds[m + 1]);
      if txns[m].Effect? {
        AppliesEffect(worlds[m].db, txns[m], worlds[k].db);
        EffectKeepsBacked(worlds[m].db, worlds[k].db, txns[m].call, txns[m].id, txns[m].at);
      } else {
        OtherStepsKeepBacked(worlds[m].db, txns[m], worlds[k].db);
      }
    }
  }

  /** A ledger without refunds is a state to start from. */
  lemma NothingRefunded(ledger: Ledger)
    requires forall id :: id in ledger ==> ledger[id].status != "refunded"
    ensures RefundsBacked(ledger)
  {
  }

  lemma AppliesEffect(before: Db, txn: Txn, after: Db)
    requires Applies(before, txn, after) && txn.Effect?
    ensures RefundEffect(before, after, txn.call, txn.id, txn.at)
  {
  }

  /** Corollary: a family of rows closed under duplicate_of can never be refunded entirely. */
  lemma FamilyKeepsACharge(ledger: Ledger, family: set<Id>)
    requires RefundsBacked(ledger)
    requires family != {} && forall id :: id in family ==> id in ledger
    requires forall id :: id in family && ledger[id].duplicateOf.Some? ==> ledger[id].duplicateOf.value in family
    ensures exists id :: id in family && ledger[id].status != "refunded"
  {
    var id :| id in family;
    if ledger[id].status == "refunded" {
      var chain :| Backs(ledger, id, chain);
      ChainStaysInFamily(ledger, family, chain, |chain| - 1);
    }
  }

  /** In every such run that starts without refunds, no closed family is ever refunded entirely. */
  lemma FamilyNeverRefunded(worlds: seq<World>, txns: seq<Txn>, k: nat, family: set<Id>)
    requires IsRun(worlds, txns) && k < |worlds|
    requires forall i :: 0 <= i < |txns| ==> Disciplined(worlds[i].db, txns[i])
    requires forall id :: id in worlds[0].db.billing ==> worlds[0].db.billing[id].status != "refunded"
    requires var ledger := worlds[k].db.billing;
      && family != {} && (forall id :: id in family ==> id in ledger)
      && (forall id :: id in family && ledger[id].duplicateOf.Some? ==> ledger[id].duplicateOf.value in family)
    ensures exists id :: id in family && worlds[k].db.billing[id].status != "refunded"
  {
    hide RefundsBacked, IsRun, Disciplined;
    NothingRefunded(worlds[0].db.billing);
    RefundsStayBacked(worlds, txns, k);
    FamilyKeepsACharge(worlds[k].db.billing, family);
  }

  lemma {:induction false} ChainStaysInFamily(ledger: Ledger, family: set<Id>, chain: seq<Id>, n: nat)
    requires DuplicateChain(ledger, chain) && n < |chain| && chain[0] in family
    requires forall id :: id in family ==> id in ledger
    requires forall id :: id in family && ledger[id].duplicateOf.Some? ==> ledger[id].duplicateOf.value in family
    ensures chain[n] in family
  {
    if n > 0 {
      ChainStaysInFamily(ledger, family, chain, n - 1);
    }
  }
}
