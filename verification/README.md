# SupportGuard: verified models of the hard core

SupportGuard answers support tickets with an agent and lets a human approve the
refunds it proposes. This project models seven of its mechanisms in Dafny and
proves what they are for. `dafny verify dfyconfig.toml` checks all of it.

| component | files | main results |
|---|---|---|
| import-boundary analysis | `ImportGraph`, `StrongComponents` | the worklist search returns exactly the reachable set; the recursive component search returns exactly the maximal mutually reachable sets, for every graph |
| refund-pair protocol | `Options`, `RefundPair`, `RefundStore`, `RefundRuns` | over every run of guarded transactions each refund hits the very pair that was bound, and every refunded row is still backed by a charged one |
| terminal-state order | `TerminalOrder` | deferred triggers commit the state the last such row names; immediate ones do so under an exact condition |
| evidence gate | `Sequences`, `EvidenceModel`, `EvidenceGate`, `EvidenceLoops`, `EvidenceContract`, `EvidenceTruth`, `EvidenceCitations`, `EvidenceRuns`, `EvidenceTerminal`, `EvidenceOutcome`, `EvidenceErrors`, `EvidenceReasons`, `EvidenceAssessment` | the loops compute a decision that meets its contract, accepts exactly the acceptable requests and refuses the others with exactly the reasons the raw inputs give; non-interference, time convexity, permutation invariance; the terminal gate on its raw inputs, and its refinement |
| context assembler | `ContextModel`, `ContextFlatten`, `ContextHistory`, `ContextAssembler`, `ContextPacket` | exact condition for failure, fewest evictions within the global budget, conservation of the history, the exact size of what is sent |
| event-stream follower | `TicketStream`, `StreamDelivery`, `StreamFaults` | exactly-once, in-order delivery over every chunking and every sequence of disconnects; bounded retry; what is accepted from a server that keeps to nothing |
| Provider decision step | `DecisionStep`, `DecisionResult`, `DecisionRuns` | the state every decision and synthesis ends in; budgets and publication rules over every run against an arbitrary Provider |

How the model is built:

- Code that mutates is a method with loops or a class (`SccSearch`,
  `RefundDatabase`, `Transaction`, `Follower`), proved against a function or
  predicate; the laws are lemmas about that specification. Stages that return a
  value are functions.
- Iteration over a sorted set is iteration in any order, so the results hold for
  the sorted one.
- A SHA-256 digest of a canonical form is the form itself, that is, an injective
  hash. What `json.dumps`, `str` and `JSON.parse` do is a parameter.
- Every database transaction is one atomic step; time is an integer that never
  runs backwards. A missing SQL value is an `Option`, and comparisons with it
  follow the three-valued logic of the guard they stand in.
- The Provider, the other nodes of the agent graph, the server's disconnects and
  the chunk boundaries are arbitrary inputs.

Where the code does not do what a reader would expect of it, the code is kept and
the exact condition is proved:

- `decide_evidence` accepts observations whose `data` or `source_refs` the
  terminal gate cannot read; the refinement holds if and only if they are
  readable (`TerminalGateRefines`, `UnreadableDataIsAccepted`).
- A `retention` mark supplied with history is removed from messages only, so a
  summary that comes with it is protected (`PacketHistory`,
  `SuppliedMarkHonoured`, `SuppliedMarkExists`).
- Five calls are the limit for decisions on an admitted action so that the
  synthesis has one left; an accepted repair at four calls spends it
  (`SynthesisReserve`, `ReserveSpent`).
- `decide_evidence` raises instead of returning a decision when the run, tenant,
  customer or attempt identity is empty or longer than 128 characters
  (`DecisionMeetsContract`, `AcceptsIff`, `EmptyIdentityRaises`).
- A Provider call that fails in `agent_decide` is not counted in the agent's
  state, and an exception that leaves the node loses the count of one or two
  (`DecideKeeps`, `AbortsIff`, `LostRepair`). The ledger of a leased run counts
  them, so that such a run makes at most six calls, restarts included
  (`LeasedCallsHold`); when the two counts have drifted apart, the refused
  reservation leaves the node as an exception (`LeasedRunAborts`). Without a lease
  a seventh call is made, by a decision or by the synthesis, under exact
  conditions (`CallsMade`, `SeventhCallIff`, `SeventhSynthesisIff`, `SevenCalls`,
  `SevenCallsBySynthesis`).
- `decide_evidence` chooses its error code by searching the texts of its reasons, so a
  citation fault is reported as insufficient freshness when the identity of the faulty
  binding contains "observation" or "source" (`ErrorOnReasons`, `ErrorIff`).
- The last guard of `assemble` is reachable only with a negative output reserve,
  and then for all readable inputs (`Assemble`, `LastGuardFiresIff`).
- The immediate triggers of revision i203 lose every withdrawal, whose capability
  marks the turn after its insert, and keep every rejection, whose capability
  marks it before (`ImmediateSurvivesIff`, `WithdrawalNeedsDeferral`,
  `RejectionSurvivesBoth`).

## Model

| member | source | states |
|---|---|---|
| `ImportGraph.Reachable` | scripts/phase2_executable_boundary.py:163-172 | terminates on cyclic graphs with a worklist that may hold duplicates, and returns exactly the modules a path from the root leads to |
| `ImportGraph.ReachableIsLeastClosed` | scripts/phase2_executable_boundary.py:163-172 | that result is the least edge-closed set holding the root |
| `StrongComponents.SccSearch.Visit` | scripts/phase2_executable_boundary.py:183-209 | a returning visit keeps the search invariant and has either popped the whole component of its module or left it on the stack reaching an older stacked module |
| `StrongComponents.SccSearch.ExploreImports` | scripts/phase2_executable_boundary.py:190-197 | after the loop every scanned import is indexed and the low link bounds every edge back into the stack |
| `StrongComponents.SccSearch.PopThrough` | scripts/phase2_executable_boundary.py:200-206 | pops exactly the stack from the module up, and keeps the stacked set equal to the stack |
| `StrongComponents.SccSearch.PopComponent` | scripts/phase2_executable_boundary.py:198-208 | when the low link equals the index, what is popped is one strongly connected component, reported if it has two members or a self-import |
| `StrongComponents.SegmentIsComponent` | scripts/phase2_executable_boundary.py:198-206 | the stack above a module with no link below it is the component of that module, no more and no less |
| `StrongComponents.StronglyConnectedComponents` | scripts/phase2_executable_boundary.py:175-213 | for every graph: exactly the components with two members or a self-import, each once |
| `StrongComponents.ReportIsMaximalSets` | scripts/phase2_executable_boundary.py:175-213 | a set is reported if and only if it is a maximal mutually reachable set of scanned modules with two members or a self-edge |
| `StrongComponents.SharedIffMutuallyReachable` | scripts/phase2_executable_boundary.py:163-213 | two distinct modules share a reported component if and only if each is in the reachable set of the other |
| `StrongComponents.InspectBoundary` | scripts/phase2_executable_boundary.py:216-243 | fails exactly on missing roots; a root is in the forbidden report if and only if a path runs from it into a forbidden namespace, with exactly those modules |
| `ImportGraph.NamespaceByParts` | scripts/phase2_executable_boundary.py:68-69 | a module is in a namespace if and only if the dotted components of the namespace are its first components |
| `RefundPair.CurrentIff` | backend/alembic_baseline/versions/i203_demo_truthful_refund.py:98-156 | for a bound pair and any later time the currentness check holds if and only if status and version of both rows are unchanged and the charge is at most 30 days old |
| `RefundPair.StaleForEver` | backend/alembic_baseline/versions/i203_demo_truthful_refund.py:115-117 | a pair that has left its window is never current again, whatever guarded updates follow |
| `RefundPair.CurrentOnRows` | backend/alembic_baseline/versions/i203_demo_truthful_refund.py:98-156 | currentness on the columns: both rows of the scope, charged, of equal amount, currency and period, in the window, and every fact the binding records of them |
| `RefundStore.RefundDatabase.GoStale` | backend/alembic_baseline/versions/i203_demo_truthful_refund.py:565-579 | moves exactly one approved, unconsumed approval to stale and retires every open proposal of its action and resource, nothing else; otherwise changes nothing |
| `RefundStore.RefundDatabase.TakeEffect` | backend/alembic_baseline/baseline.sql:14474-14562 | takes effect if and only if the guard admits the action and the approval is not consumed, and fails with the stale pair if and only if the guard does not; the effect adds one action, refunds the target, consumes the approval and retires the open proposals |
| `RefundStore.RefundDatabase.Perform` | backend/alembic_baseline/baseline.sql:14327-14562 | a pending action goes stale if and only if a check speaks against it and the approval is not consumed, and otherwise takes effect exactly as its guard and resource allow |
| `RefundStore.RefundDatabase.Execute` | backend/alembic_baseline/baseline.sql:14147-14562 | from the approval status on, for every kind of action: exactly when it takes effect, when the pair guard stops it, when it goes stale and when a stale approval is met again, and what each changes; a replay adds no action |
| `RefundStore.RefundDatabase.Delegate` | backend/alembic_baseline/baseline.sql:13444-14562 | exactly when the effect takes place and when the pair guard stops it; every result but an error needs job, ticket, approval, run, proposal and decision to belong together and the job leased under the exact fencing token of the caller; an effect needs an approving decision and a proposal for what was approved |
| `RefundStore.RefundDatabase.WorkerExecute` | backend/alembic_baseline/versions/i203_demo_truthful_refund.py:476-589 | every call, for every kind of action, ends as the result of the delegate, an error with the state unchanged, or a stale result; the effect takes place, and the stale pair result is published, exactly under their conditions on the state before; all but errors are fenced, and on the tables: no draft or bound proposal of the approval's tenant, action and resource stays open, each such one becomes stale one version on with its other columns kept, every other is untouched, and the approval, the action rows and the billing row change as the result says and no more |
| `RefundStore.RefundDatabase.PublishStale` | backend/alembic_baseline/versions/i203_demo_truthful_refund.py:506-589 | after the pair guard refused, the stale result is published if and only if the approval is open and the pair is not current at that later moment; the tables change as for any stale result |
| `RefundStore.ResultOnTables` | backend/alembic_baseline/baseline.sql:14147-14562 | what each result means column by column: proposals, approval, action and billing row, and nothing else |
| `RefundStore.NoneLeftOpen` | backend/alembic_baseline/versions/i203_demo_truthful_refund.py:574-578 | afterwards no proposal of that tenant, action and resource is a draft or bound |
| `RefundStore.FencedIff` | backend/alembic_baseline/versions/i203_demo_truthful_refund.py:511-560 | a call is fenced if and only if job, run, ticket, approval, proposal and decision belong together and the job is leased and active under the caller's token |
| `RefundStore.TakesPlaceIff` | backend/alembic_baseline/baseline.sql:14147-14562 | when a fenced action takes effect, column by column: approved and open, an approving decision, a proposal for it, no such action yet, nothing outside against it, and for a refund a charged row at the approved version and a current pair |
| `RefundRuns.StepKeepsIdentity` | backend/alembic_baseline/versions/i203_demo_truthful_refund.py:184-202 | no transaction changes a billing identity or a stored binding, and a new proposal comes only from a guarded insertion |
| `RefundRuns.BindingOrigin` | backend/alembic_baseline/versions/i203_demo_truthful_refund.py:904-957 | in every run each bound proposal was bound at its own insertion, or before the run, to the eligible pair of that moment |
| `RefundRuns.BackFillStarts` | backend/alembic_baseline/versions/i203_demo_truthful_refund.py:214-237 | the back-fill of the revision binds existing proposals only to eligible pairs, so that a run may start from its result |
| `RefundRuns.BackFilledIff` | backend/alembic_baseline/versions/i203_demo_truthful_refund.py:214-237 | the back-fill binds exactly the unbound refund proposals whose pair is eligible and changes no other column |
| `RefundRuns.InsertionIff` | backend/alembic_baseline/versions/i203_demo_truthful_refund.py:904-957 | a refund proposal is let in if and only if its run, ticket, payload, version and binding agree with an eligible pair, and is stored as given but for its binding |
| `RefundRuns.ActionAdmittedIff` | backend/alembic_baseline/versions/i203_demo_truthful_refund.py:426-452 | a refund action is let in if and only if it names an approval of its tenant with that customer, resource and version whose pair is current; any other action passes |
| `RefundRuns.DecisionAdmittedIff` | backend/alembic_baseline/versions/i203_demo_truthful_refund.py:401-424 | a decision is refused if and only if it approves a refund whose pair is not current |
| `RefundRuns.ActionMatchesBoundPair` | backend/alembic_baseline/versions/i203_demo_truthful_refund.py:365-448 | in every run, upgraded databases included, a refund action is inserted only while both rows, status and version included, are the rows its proposal was bound to |
| `RefundRuns.DigestDeterminesRows` | backend/alembic_baseline/versions/i203_demo_truthful_refund.py:124-156 | the rows behind a current binding are exactly those its digest records |
| `RefundRuns.UnboundNeverUsed` | backend/alembic_baseline/versions/i203_demo_truthful_refund.py:365-448 | a proposal without binding stays unbound and no later transaction of any run approves or executes it |
| `RefundRuns.ExpiredNeverExecutes` | backend/alembic_baseline/versions/i203_demo_truthful_refund.py:365-448 | in every run a proposal that has once been out of its window, however it was bound, never authorises a refund afterwards |
| `RefundRuns.RefundsStayBacked` | backend/alembic_baseline/versions/i203_demo_truthful_refund.py:98-122 | in every run where rows leave charged only through effects, from a ledger where it holds, each refunded row reaches along `duplicate_of` a row of the same scope, amount, currency and period that is still charged; cycles and long chains included |
| `RefundRuns.FamilyKeepsACharge` | backend/alembic_baseline/versions/i203_demo_truthful_refund.py:193-199 | a family of rows closed under `duplicate_of` is never refunded entirely |
| `RefundRuns.FamilyNeverRefunded` | backend/alembic_baseline/versions/i203_demo_truthful_refund.py:193-199 | in every disciplined run that starts without refunds, no closed family of rows is ever refunded entirely |
| `TerminalOrder.Transaction.Commit` | backend/alembic_baseline/versions/i204_action_terminal_order.py:28-39 | running the statements, queueing the constraint triggers and firing them at commit gives the deferred tables |
| `TerminalOrder.DeferredIsLastNamed` | backend/alembic_baseline/versions/i204_action_terminal_order.py:31-39 | every turn ends completed with the state the last queued row hitting it names, or untouched if none does |
| `TerminalOrder.CommittedState` | backend/alembic_baseline/versions/i203_demo_truthful_refund.py:697-729 | the committed turn, on the tables: as written if no queued reject or withdrawal of an approval of its tenant, turn and run ends it, else completed in the state of the last that does, its completion time kept or else that of the commit, tenant and run kept |
| `TerminalOrder.ApprovalsCommitAsWritten` | backend/alembic_baseline/versions/i203_demo_truthful_refund.py:704-705 | a transaction whose inserts are approvals commits exactly what it writes, under either kind of trigger |
| `TerminalOrder.WrittenTurn` | backend/alembic_baseline/versions/i204_action_terminal_order.py:31-39 | before the triggers a turn is what the last statement on it wrote, or what it was |
| `TerminalOrder.ImmediateSurvivesIff` | backend/alembic_baseline/versions/i203_demo_truthful_refund.py:697-729 | for every transaction with immediate triggers, the state named by the last insert that hits the turn survives if and only if no later statement writes the turn, or the last one that does writes that same state |
| `TerminalOrder.OverwrittenTurn` | backend/alembic_baseline/versions/i203_demo_truthful_refund.py:697-729 | rejecting and then overwriting a turn: the immediate triggers commit the overwrite, the deferred ones the rejection |
| `TerminalOrder.WithdrawalNeedsDeferral` | backend/alembic_baseline/baseline.sql:5855-5938 | every withdrawal that hits its turn is committed as refused by the immediate triggers and as withdrawn by the deferred ones |
| `TerminalOrder.RejectionSurvivesBoth` | backend/alembic_baseline/baseline.sql:1702-1766 | a rejection in a conversation, which marks the turn before it inserts the decision, is committed as rejected by both |
| `TerminalOrder.ImmediateLosesWithdrawal` | backend/alembic_baseline/baseline.sql:5855-5938 | a concrete withdrawal whose state the immediate triggers lose |
| `EvidenceLoops.ProjectObservations` | backend/src/supportguard/agent/evidence.py:917-930 | the first pass projects each observation and keeps the reasons of the relevant ones |
| `EvidenceLoops.SelectFresh` | backend/src/supportguard/agent/evidence.py:931-939 | the observations whose identity occurs once survive, each other identity gives one reason |
| `EvidenceLoops.SourceConflicts` | backend/src/supportguard/agent/evidence.py:941-955 | a reason for each source identity used with two types |
| `EvidenceLoops.EligibleCitations` | backend/src/supportguard/agent/evidence.py:724-780 | the three passes over the bindings give the eligible citations and all reasons |
| `EvidenceLoops.StaleRequiredGroups` | backend/src/supportguard/agent/evidence.py:831-873 | the required groups some relevant observation marks stale |
| `EvidenceLoops.ConflictTexts` | backend/src/supportguard/agent/evidence.py:876-893 | the declared conflicts, or the flagged one when none is declared |
| `EvidenceLoops.BuildDecision` | backend/src/supportguard/agent/evidence.py:916-1012 | the passes build exactly the specified record |
| `EvidenceLoops.DecideEvidence` | backend/src/supportguard/agent/evidence.py:896-1031 | the whole computation equals its specification: it raises if and only if an identity is out of bounds, and otherwise returns a decision that meets its contract, is sufficient exactly for acceptable requests, asks to replan exactly when the request is not acceptable and may be replanned, is terminal exactly when it may not, and lists exactly the reasons the inputs justify |
| `EvidenceOutcome.VerdictIff` | backend/src/supportguard/agent/evidence.py:999-1014 | accept, replan and terminal each if and only if: by acceptability of the request and whether it may be replanned; an error code exactly with a refusal |
| `EvidenceOutcome.ObservationsIff` | backend/src/supportguard/agent/evidence.py:635-721 | for sufficient and insufficient requests: the observations returned are exactly the relevant, usable ones whose identity no other such one claims, column by column |
| `EvidenceOutcome.CitationsIffBindings` | backend/src/supportguard/agent/evidence.py:724-780 | the citations returned are exactly the bindings alone with their name, of the attempt, well-formed, for evidence of a used observation that no other cited binding claims, field by field |
| `EvidenceOutcome.DispositionIff` | backend/src/supportguard/agent/evidence.py:976-995 | a required group is satisfied if and only if a used observation speaks for it, with a citation for knowledge; otherwise stale if and only if a relevant observation of it is not fresh; otherwise missing |
| `EvidenceOutcome.RelevantIff` | backend/src/supportguard/agent/evidence.py:613-632 | relevance on the columns: run, tenant, customer, scope hash, trusted scope, success |
| `EvidenceOutcome.UsableIff` | backend/src/supportguard/agent/evidence.py:635-721 | usability on the columns: marked fresh, in its window, named within bounds, no source or evidence identity twice |
| `EvidenceReasons.ReasonIff` | backend/src/supportguard/agent/evidence.py:917-998 | each reason is reported, once, if and only if the fact it stands for holds of the raw observations, bindings, conflicts and groups |
| `EvidenceReasons.ConflictsIffFound` | backend/src/supportguard/agent/evidence.py:876-893 | a conflict is listed if and only if a used observation declares it, or it is the flagged one and none declares any |
| `EvidenceReasons.ErrorOnReasons` | backend/src/supportguard/agent/evidence.py:1003-1012 | the error code by the reported reasons: a conflict, then anything that speaks of observations or sources, then a citation, then a group |
| `EvidenceErrors.ErrorIff` | backend/src/supportguard/agent/evidence.py:1003-1012 | when each of the four codes arises, by soundness of observations and citations, conflicts and coverage of the groups |
| `EvidenceErrors.CodeByKind` | backend/src/supportguard/agent/evidence.py:1004-1012 | the search of the reason texts amounts to the kinds of the reasons and the names of faulty bindings |
| `EvidenceErrors.ConflictsLiveIff` | backend/src/supportguard/agent/evidence.py:967-975 | no conflict is unexplained if and only if every declared one is the explainable one and may be explained, and a flagged one is declared |
| `EvidenceContract.DecisionMeetsContract` | backend/src/supportguard/agent/evidence_contracts.py:78-133 | the record meets the field bounds and the validator of the contract (verdict, reasons, scope, unique identities, current attempt, disjoint and complete group dispositions) if and only if run, tenant, customer and attempt have 1 to 128 characters; then it is returned, otherwise the gate raises |
| `EvidenceContract.SufficientIffNoReason` | backend/src/supportguard/agent/evidence.py:961-999 | a decision is sufficient if and only if no stage gave a reason |
| `EvidenceContract.ConflictErrorIff` | backend/src/supportguard/agent/evidence.py:967-1012 | the error code is the conflict code if and only if an unexplained conflict exists |
| `EvidenceContract.FreshMembers` | backend/src/supportguard/agent/evidence.py:931-939 | an observation survives if and only if no other claims its identity |
| `EvidenceCitations.CitationReasonsIff` | backend/src/supportguard/agent/evidence.py:724-780 | no citation reason arises if and only if every binding is named, current, well-formed, eligible, and no two share a binding or evidence identity |
| `EvidenceTerminal.SufficientIffAcceptable` | backend/src/supportguard/agent/evidence.py:896-1031 | the record is sufficient if and only if: every required group covered; all relevant observations usable and uniquely identified; no source clash or unexplained conflict; sound citations, at least one if knowledge was observed |
| `EvidenceTerminal.AcceptsIff` | backend/src/supportguard/agent/evidence.py:896-1031 | the gate accepts if and only if the four identities are within bounds and the request is acceptable |
| `EvidenceTerminal.EmptyIdentityRaises` | backend/src/supportguard/agent/evidence_contracts.py:78-81 | an acceptable request on which the gate raises |
| `EvidenceRuns.NonInterference` | backend/src/supportguard/agent/evidence.py:613-655 | inserting or removing out-of-scope or unsuccessful observations leaves the whole outcome unchanged |
| `EvidenceRuns.OnlyRelevantMatters` | backend/src/supportguard/agent/evidence.py:831-873 | dropping every irrelevant observation leaves the whole outcome unchanged |
| `EvidenceRuns.PermutationInvariance` | backend/src/supportguard/agent/evidence.py:917-999 | permuting observations changes neither whether a decision is returned, sufficiency, verdict, citations nor the disposition of any group |
| `EvidenceRuns.TimeConvexity` | backend/src/supportguard/agent/evidence.py:864-999 | a request accepted at two times gets the identical outcome at every time between them |
| `EvidenceTerminal.DeriveRequirements` | backend/src/supportguard/agent/evidence.py:783-812 | the required groups, each once: those of the issue, action and request, and the additional ones |
| `EvidenceAssessment.RequirementsIff` | backend/src/supportguard/agent/evidence.py:783-812 | each group is required if and only if its issue, specified request or action demands it or it is additional: a refund a billing record, a revocation key metadata, an entitlement change a subscription |
| `EvidenceAssessment.AssessTerminal` | backend/src/supportguard/agent/evidence.py:1034-1145 | the dictionary of sources and the loop over the claims, in any order, compute the specified assessment |
| `EvidenceAssessment.AssessedIff` | backend/src/supportguard/agent/evidence.py:1052-1111 | a rejection or takeover is always accepted; the gate raises if and only if another action meets a field of the wrong shape |
| `EvidenceAssessment.AssessIff` | backend/src/supportguard/agent/evidence.py:1055-1145 | accepts if and only if every demanded group was read, for knowledge with evidence and without unexplained refusal, every claimed source was named by an observation whose last one is still fresh, and no unexplained conflict is flagged; replans if and only if it does not accept and may; the freshness code if and only if a claimed source is out of date |
| `EvidenceAssessment.FindingsIff` | backend/src/supportguard/agent/evidence.py:1055-1128 | required, satisfied, missing and stale entries each if and only if the raw inputs say so |
| `EvidenceAssessment.OwnerIsLast` | backend/src/supportguard/agent/evidence.py:1106-1112 | a source belongs to the last successful observation, not a knowledge search, that names it |
| `EvidenceAssessment.TerminalGateRefines` | backend/src/supportguard/agent/evidence.py:1034-1145 | for matching inputs in scope, what `decide_evidence` accepts the terminal gate accepts at the same time if and only if the action is exempt or every observation is readable |
| `EvidenceAssessment.UnreadableDataIsAccepted` | backend/src/supportguard/agent/evidence.py:1034-1145 | for every identity within bounds, an accepted observation the terminal gate raises on |
| `ContextModel.SeparatorOverhead` | backend/src/supportguard/agent/context.py:72-75 | the token count of a list of n items exceeds the sum of its items' by at most (n + 3) div 3 |
| `ContextModel.CountIsCeiling` | backend/src/supportguard/agent/context.py:72-75 | one token for every three bytes, rounded up, at least one |
| `ContextAssembler.LatestPairIsLatest` | backend/src/supportguard/agent/context.py:759-789 | the pair is the last response and the last request before it, the response alone if there is none, or the last request of all; nothing else |
| `ContextFlatten.LegacyMessageKeeps` | backend/src/supportguard/agent/context.py:660-673 | a message of a legacy wrapper keeps its fields and its id, gets one if it had none, and is a message unless it says otherwise |
| `ContextFlatten.LegacyMessagesCover` | backend/src/supportguard/agent/context.py:658-673 | one entry for every object of a wrapper, in their order, none for anything else in it |
| `ContextFlatten.RemainderKeeps` | backend/src/supportguard/agent/context.py:674-686 | what is left of a wrapper becomes one entry with all its fields, nothing if nothing is left |
| `ContextFlatten.PlainEntryKeeps` | backend/src/supportguard/agent/context.py:688-713 | a plain value becomes one entry that keeps its fields, and fails if and only if it is a message without id that is no legacy checkpoint |
| `ContextFlatten.SummaryGetsIdentity` | backend/src/supportguard/agent/context.py:704-713 | what is no message is a ticket summary unless it says otherwise, named by its summary or ticket if it has no identity |
| `ContextFlatten.UnnamedGetsId` | backend/src/supportguard/agent/context.py:663-703 | an unnamed message of a checkpoint gets the id of its place and is marked synthetic |
| `ContextFlatten.SyntheticIdsDiffer` | backend/src/supportguard/agent/context.py:666-701 | ids made up for different places differ |
| `ContextFlatten.OmissionNames` | backend/src/supportguard/agent/context.py:792-822 | an omission record names a message by its id and a summary by the first identity it has |
| `ContextFlatten.FlattenSlices` | backend/src/supportguard/agent/context.py:656-713 | the entries of each value stand together in the flattened history, in the order of the values |
| `ContextAssembler.FlattenHistory` | backend/src/supportguard/agent/context.py:656-713 | the first loop flattens wrappers and plain entries, or fails with the first error |
| `ContextHistory.Normalise` | backend/src/supportguard/agent/context.py:715-756 | keeps the first of each entry in order with one record for every other, and fails if and only if a message lacks its id or two share one with different role or content |
| `ContextHistory.SurvivorsDistinct` | backend/src/supportguard/agent/context.py:715-756 | no two surviving entries are duplicates |
| `ContextAssembler.SelectWithin` | backend/src/supportguard/agent/context.py:604-646 | the pair and the greedy choice within the budget, and one record for each entry passed over |
| `ContextAssembler.OrderCoversRest` | backend/src/supportguard/agent/context.py:611-630 | every entry outside the pair is a candidate exactly once |
| `ContextAssembler.OrderIsPriority` | backend/src/supportguard/agent/context.py:611-630 | candidates come as current summaries oldest first, messages newest first, other summaries newest first |
| `ContextAssembler.GreedyByPriority` | backend/src/supportguard/agent/context.py:630-646 | a candidate is passed over if and only if it does not fit beside the pair and the chosen candidates of higher priority |
| `ContextAssembler.FitList` | backend/src/supportguard/agent/context.py:825-852 | keeps every distinct value in order with a record per duplicate, and fails if and only if the distinct values together exceed the budget |
| `ContextAssembler.FitHistory` | backend/src/supportguard/agent/context.py:574-648 | exact condition for failure; otherwise the greedy selection, within budget, with every flattened entry kept or recorded exactly once, each record with the cause that holds of its entry, and the pair kept |
| `ContextAssembler.FittedWithinBudget` | backend/src/supportguard/agent/context.py:604-648 | the selection costs at most the history budget whenever its pair does |
| `ContextHistory.AccountsEvict` | backend/src/supportguard/agent/context.py:516-524 | evicting an unprotected entry keeps the accounts: order, one place for each entry, the pair |
| `ContextPacket.TrimStep` | backend/src/supportguard/agent/context.py:503-516 | evicting the last unprotected entry leaves all protected ones and one fewer of the first unprotected ones |
| `ContextPacket.EvictUntilFits` | backend/src/supportguard/agent/context.py:503-524 | terminates; fails if and only if no number of evictions makes the packet fit, otherwise evicts as few as possible |
| `ContextPacket.Assemble` | backend/src/supportguard/agent/context.py:460-571 | fails if and only if the inputs cannot be packed or the packet with the fewest evictions exceeds the model limit, with the first error that applies, the last guard needing a negative output reserve; otherwise the content holds under its keys exactly the mandatory values and the returned observations, evidence and history, the total counts it with tools and prior turns and is at most the input limit less the reserve, every distinct observation and evidence item is kept, the fewest history entries are evicted and all are accounted for |
| `ContextPacket.PacketSize` | backend/src/supportguard/agent/context.py:464-502 | the dumped packet is exactly its mandatory values, the observations, evidence and history it returns, their keys and punctuation |
| `ContextPacket.TotalBounds` | backend/src/supportguard/agent/context.py:461-503 | the total is the size of packet, tools and prior turns in units of three bytes, at most one unit over for each |
| `ContextPacket.FewestUnique` | backend/src/supportguard/agent/context.py:503-524 | there is one history with the fewest evictions |
| `ContextPacket.LastGuardFiresIff` | backend/src/supportguard/agent/context.py:561-567 | for every token counter and all inputs, some budget brings them to the last guard if and only if their history is readable |
| `ContextPacket.PacketHistory` | backend/src/supportguard/agent/context.py:590-648 | message ids are unique, the latest pair is present and protected, and nothing else is protected but a non-message that came with the mark |
| `ContextPacket.SectionOverheads` | backend/src/supportguard/agent/context.py:604-648 | each packed section exceeds its own budget by the separator overhead at most |
| `ContextPacket.SuppliedMarkHonoured` | backend/src/supportguard/agent/context.py:594-606 | a summary supplied with the mark is protected though never of the pair |
| `ContextPacket.SuppliedMarkExists` | backend/src/supportguard/agent/context.py:594-606 | there is such a summary |
| `TicketStream.SplitAppend` | frontend/src/useTicketStream.ts:172-174 | splitting text as it arrives gives the frames and the remainder of the whole text |
| `TicketStream.ReadConnection` | frontend/src/useTicketStream.ts:168-205 | for every chunking, reading handles exactly the frames of the whole text, up to the first exception |
| `StreamDelivery.Follower.FollowAll` | frontend/src/useTicketStream.ts:138-226 | the reconnecting loop equals its specification on every sequence of connection attempts |
| `StreamDelivery.PrefixFrames` | frontend/src/useTicketStream.ts:168-175 | a stream cut anywhere yields the frames of exactly the items it holds completely |
| `StreamDelivery.WholeIsMost` | frontend/src/useTicketStream.ts:168-175 | those items fit into the text, and one more does not |
| `StreamDelivery.ConnectionDelivers` | frontend/src/useTicketStream.ts:138-205 | one connection takes the next events of the log, in order: exactly those whose frames arrived completely |
| `StreamDelivery.RunDelivers` | frontend/src/useTicketStream.ts:98-205 | over every run the accepted events are exactly those that arrived completely, each once, and are a strictly increasing prefix of the log after the starting cursor; the buffer holds the last 64 |
| `StreamDelivery.CaughtUp` | frontend/src/useTicketStream.ts:98-205 | a connection that brings all the server has leaves nothing of the log after the starting cursor missing |
| `StreamDelivery.PollingIsSevenFailures` | frontend/src/useTicketStream.ts:208-226 | polling starts if and only if seven attempts have failed with no event accepted and no stable connection after the first of them |
| `StreamDelivery.CountSinceRecovery` | frontend/src/useTicketStream.ts:158-216 | the failure count is the number of failing attempts since the last one that accepted an event or was stable |
| `StreamDelivery.UnansweredPolls` | frontend/src/useTicketStream.ts:208-226 | a server that never answers is tried exactly seven times |
| `StreamDelivery.EncoderIsFramed` | backend/src/supportguard/api/sse.py:149-169 | what the server writes is one frame whose data line is the JSON text; a heartbeat is a frame without data |
| `StreamFaults.RefusalEnds` | frontend/src/useTicketStream.ts:156-159 | a 401, 403, 404 or 422 ends the run with feed and count as they are; nothing that follows is tried |
| `StreamFaults.StoppedIff` | frontend/src/useTicketStream.ts:138-159 | a run has stopped if and only if an attempt it came to was refused |
| `StreamFaults.BrokenConnection` | frontend/src/useTicketStream.ts:180-214 | a connection with a frame that does not parse is a failing attempt however it ends, and keeps the events before that frame |
| `StreamFaults.ThrewIff` | frontend/src/useTicketStream.ts:175-180 | a connection ends in an exception of its frames if and only if one does not parse |
| `StreamFaults.AcceptsRecords` | frontend/src/useTicketStream.ts:175-191 | from any text without such a frame the reader accepts exactly the events whose number exceeds the cursor and every number before |
| `StreamFaults.RunGrows` | frontend/src/useTicketStream.ts:138-205 | against any server the accepted events ascend strictly above the cursor, the cursor is the last one's, and the buffer the last 64 |
| `StreamFaults.DataLineIsFirst` | frontend/src/useTicketStream.ts:176-179 | the data of a frame is that of its first line with the prefix |
| `DecisionStep.DecideKeeps` | backend/src/supportguard/agent/decision.py:506-1161 | every decision against every Provider, with or without a lease, returned or left by an exception: counters only grow and stay in bounds, a repair uses up the only one, the state counts exactly the calls made but for those the log names, under a lease every call and repair is reserved first, an exception leaves at most two calls uncounted, no premature publication, an uncounted call or second premature candidate stops the run |
| `DecisionStep.StoppedStep` | backend/src/supportguard/agent/decision.py:786-852 | the accounting of a rejected reply, repaired without success or not at all, in the state and in the ledger |
| `DecisionStep.ValidStep` | backend/src/supportguard/agent/decision.py:786-881 | an accepted repair was the first, left room for two calls and has no tool calls |
| `DecisionStep.BrokenStep` | backend/src/supportguard/agent/decision_repair.py:140-152 | what a refused or escaping repair loses: the state as it was, one or two calls uncounted |
| `DecisionStep.PublishStep` | backend/src/supportguard/agent/decision.py:1069-1161 | a premature candidate is never published: the first asks again, a later one stops; any other Provider candidate of an admitted action is in synthesis mode |
| `DecisionResult.PublishedIff` | backend/src/supportguard/agent/decision.py:980-1161 | a Provider candidate that was not there is there afterwards if and only if the reply was accepted, its normalised decision has one and it is not premature; it then carries the circumstances of the state, which is finished |
| `DecisionResult.TakenResult` | backend/src/supportguard/agent/decision.py:728-1161 | the whole state after an accepted reply: published, sent back once, stopped the second time, or without a candidate as it was with the decision's tool calls |
| `DecisionResult.UntakenResult` | backend/src/supportguard/agent/decision.py:240-852 | the whole state after any other decision: as it was, answered by a precheck, sent to the required reads, or stopped with the calls charged |
| `DecisionResult.DecideLog` | backend/src/supportguard/agent/decision.py:506-902 | what a decision adds to calls, repairs, uncounted and phantom calls, premature candidates and the ledger, exactly |
| `DecisionResult.SynthesisResult` | backend/src/supportguard/agent/nodes/action_flow.py:508-657 | the whole state after a synthesis: a Provider candidate in synthesis mode if and only if an attempt succeeds, otherwise a stop |
| `DecisionResult.SynthesisLog` | backend/src/supportguard/agent/nodes/action_flow.py:508-657 | what a synthesis adds to calls, repairs, phantom calls and the ledger, exactly |
| `DecisionStep.SynthesisKeeps` | backend/src/supportguard/agent/nodes/action_flow.py:508-657 | the synthesis node obeys the same budgets, catches a refused reservation, and leaves calls uncounted only by an exception |
| `DecisionStep.AbortsIff` | backend/src/supportguard/agent/decision.py:240-261 | an exception leaves the decision if and only if one of these raises: the first context; under a lease the reservation of the call, the writes that end its attempt or the reservation of its repair; the bindings or their evidence decision; the repair; the writes that end the step |
| `DecisionStep.SynthesisReserve` | backend/src/supportguard/agent/decision.py:512-522 | after an accepted decision on an admitted action a call is left for the synthesis if and only if it was not a repair at four calls |
| `DecisionStep.ReserveSpent` | backend/src/supportguard/agent/decision.py:512-522 | a decision after which the synthesis has no call left |
| `DecisionRuns.BudgetsHold` | backend/src/supportguard/agent/decision.py:510-522 | in every run the call counter never falls and never exceeds six, at most one repair is attempted, and no Provider candidate stands for an admitted action unless published in synthesis mode |
| `DecisionRuns.RouteIff` | backend/src/supportguard/agent/decision.py:1163-1192 | tools if and only if there are calls; obligations if and only if the action is admitted, there are none and nothing ended the run; policy otherwise |
| `DecisionRuns.TakenRoute` | backend/src/supportguard/agent/decision.py:1069-1192 | where every accepted decision of a run that nothing ended leads |
| `DecisionRuns.SecondPrematureEnds` | backend/src/supportguard/agent/decision.py:1117-1161 | after a second premature candidate no run makes a Provider call or sees a third |
| `DecisionRuns.CallsMade` | backend/src/supportguard/services/attempts.py:82-85 | a leased run makes at most six calls, failed ones included; any run makes more if and only if it has no lease, every counted call was made and counted and uncounted calls exceed six, and then it was replanned after a failure and made exactly seven |
| `DecisionRuns.SeventhCallIff` | backend/src/supportguard/agent/decision.py:510-522 | before a decision: it takes the calls past six if and only if there is no lease, the Provider is reached, and six calls were made, or five and the repair is called too |
| `DecisionRuns.SeventhSynthesisIff` | backend/src/supportguard/agent/nodes/action_flow.py:508-566 | before a synthesis: it takes the calls past six if and only if there is no lease, a counted call is left, and six calls were made and the attempt reaches the Provider, or five and its repair does too |
| `DecisionRuns.SeventhCallNodes` | backend/src/supportguard/agent/nodes/action_flow.py:433-453 | no other node makes a seventh call, and it always follows one uncounted call, a stop and a replan |
| `DecisionRuns.LeasedCallsHold` | backend/src/supportguard/agent/nodes/runtime_support.py:2305-2330 | over any number of restarts of a leased run, from any checkpoint, at most six calls and one repair are made |
| `DecisionRuns.SevenCalls` | backend/src/supportguard/agent/nodes/action_flow.py:1414-1424 | a run without a lease that makes seven calls |
| `DecisionRuns.SevenCallsBySynthesis` | backend/src/supportguard/agent/nodes/action_flow.py:433-453 | a run on an admitted action in which the synthesis makes the seventh call |
| `DecisionRuns.LeasedRunAborts` | backend/src/supportguard/agent/decision.py:582-583 | the same run under a lease: the seventh call is refused and the exception ends the run |
| `DecisionRuns.LostRepair` | backend/src/supportguard/services/attempts.py:206-209 | a leased decision left by an exception with two calls uncounted |

## Left out

- Building the import graph from files, its module and edge counts, and the order of its sorted reports: file access and presentation.
- `RefundStore.RefundDatabase.Delegate`: the finalizer, revision, publication, policy, approver-scope and switch checks, which read other tables, are one arbitrary verdict, and so are the resource rows of the other kinds of action.
- `RefundRuns.StepKeepsIdentity`: no transaction deletes a billing row, proposal, approval, decision or action; the modelled code has none that does, and a deletion by an owner is not considered.
- `DecisionStep.AbortsIff`: the exceptions are named by where they arise; which identities make the evidence decision raise is `EvidenceContract.DecisionMeetsContract`, and why a ledger write fails is left open.
- Roles, grants and row-level security of the database, and interleavings inside one transaction.
- `RefundRuns.RefundsStayBacked`: assumes, as stated, that rows become refunded or leave `charged` only through guarded effects; the update trigger itself lets an owner set any status.
- `TerminalOrder.WithdrawalNeedsDeferral`: takes the turn of the run to be the turn the approval comes from.
- Reading timestamps, SHA-256, canonical JSON, UTF-8 and regular expressions: results are parameters or injective.
- Observations whose `source_refs` is an iterable that is not a list and items whose types Python cannot hash.
- Floating-point JSON numbers, and roles of a type Python cannot hash, in history entries.
- The unprotected form of `_fit_list`, which no caller uses, and the section manifests and hashes of the assembled packet.
- `ContextAssembler.FitHistory`: the order of the omission records among themselves is not stated.
- `ContextPacket.PacketSize`: needs that a dumped object is its members, keys, separators and braces, and a dumped list likewise.
- `EvidenceAssessment.FindingsIff`: the stale tools are a set, since the source lists them in the order a set is iterated in.
- `ContextPacket.SectionOverheads`: needs that a dumped list is its items, separators and brackets.
- The decoder for partial UTF-8 sequences, back-off and online waits, the polling itself and switching tickets in the follower.
- `StreamDelivery.RunDelivers`: assumes a server that sends the log after the Last-Event-ID it was given, in order.
- Nodes of the agent graph other than the decision and the synthesis: any behaviour that leaves the counters alone; in particular the tool loop's own limits and the classification call.
- `DecisionRuns.BudgetsHold`: runs start after classification, with at most six calls counted; a restart may take the state back to an older checkpoint, and then only `DecisionRuns.LeasedCallsHold` speaks.
- Regex-driven text understanding, retrieval, the user interface, the demo environment and the release scripts.
