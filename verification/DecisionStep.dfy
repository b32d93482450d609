/** One decision of the agent (backend/src/supportguard/agent/decision.py): deterministic
    prechecks, one bounded Provider call with at most one repair, settlement.  Whatever
    the Provider and the other nodes may do is an input, the `World`. */
module DecisionStep {
  const MAX_LLM_CALLS: nat := 6

  /** Who wrote the candidate; a Provider's carries the circumstances of its publication. */
  datatype Candidate = None | ByRuntime | ByProvider(admitted: bool, synthesis: bool)

  /** The durable run: whether a leased job executes it, the calls reserved so far, and
      whether a structure repair is among its attempts. */
  datatype RunRow = RunRow(leased: bool, llmCalls: nat, repaired: bool)

  /** The fields of `AgentState` a decision depends on.  `admitted`: the action admission
      is version 2 and admitted; `toolCalls`: the type of the last decision; `boundary`:
      a policy boundary or platform subject that is terminal by itself. */
  datatype State = State(
    llmCalls: nat, repairUsed: bool, replanCount: nat, replanRequired: bool, synthesisMode: bool, admitted: bool,
    boundary: bool, candidate: Candidate, finished: bool, stopped: bool, toolCalls: bool)

  datatype Decision = Decision(toolCalls: bool, candidate: bool)

  datatype Parse = Parsed(decision: Decision) | Malformed(toolCalls: bool, repairable: bool)

  datatype Reply = Raised | Replied(parse: Parse)

  /** A repair returns no tool calls; it may give up before or after calling the Provider,
      and so may an exception leave it: of its context, of the writes that end its attempt,
      or of the evidence decision on its reply. */
  datatype Repair = GaveUp(called: bool) | RepairRaised | Repaired(candidate: bool) | RepairEscapes(called: bool)

  predicate RepairCalls(r: Repair) {
    r != GaveUp(false) && r != RepairEscapes(false)
  }

  /** What the deterministic prechecks find. */
  datatype Precheck = Proceed | Answered | ReadsRequired

  /** A preparation is done, refused with an error the step handles, or left by another exception. */
  datatype Preparation = Ready | Refused | Escapes

  /** `context` and `bindings`: the first context, and everything from the reservation to
      the call, the evidence decision included.  `fence` and `repairFence`: the lease still
      holds when the call is reserved.  `recorded`: the ledger takes what ends the attempt.
      `settled`: the events, rejected batch or tool turn that end the step are written. */
  datatype World = World(
    precheck: Precheck, context: Preparation, fence: bool, bindings: Preparation, reply: Reply, recorded: bool,
    repairFence: bool, repair: Repair, normalise: Decision -> Decision, settled: bool)

  /** What lies outside the agent's state: the durable run, and what actually happened,
      namely repairs and Provider calls made, calls made that the state does not count,
      calls it counts that were not made, premature candidates. */
  datatype Log = Log(run: RunRow, repairs: nat, calls: nat, uncounted: nat, phantom: nat, premature: nat)

  /** A node returns an update, or its exception ends the run. */
  datatype Outcome = Returns(state: State, log: Log) | Aborts(state: State, log: Log)

  // ----- reservation of calls -----

  /** `AttemptLedger.reserve` lets the call through; without a lease there is no ledger. */
  predicate Reservable(run: RunRow, repair: bool, fence: bool) {
    run.leased ==> fence && run.llmCalls < MAX_LLM_CALLS && (repair ==> !run.repaired)
  }

  function Reserve(run: RunRow, repair: bool): RunRow {
    if run.leased then RunRow(true, run.llmCalls + 1, run.repaired || repair) else run
  }

  /** The log after a reserved call that was made or not. */
  function Reserved(log: Log, repair: bool, made: bool): Log {
    log.(run := Reserve(log.run, repair), repairs := log.repairs + One(repair), calls := log.calls + One(made))
  }

  function One(b: bool): nat {
    if b then 1 else 0
  }

  // ----- the stages of agent_decide -----

  /** `safe_stop`: a Runtime candidate and a finish reason; counters and flags stay. */
  function SafeStop(s: State): State {
    s.(candidate := ByRuntime, finished := true, stopped := true, toolCalls := false)
  }

  /** A stop whose update also sets the counter and the repair flag. */
  function StopAt(s: State, calls: nat, repairUsed: bool): State {
    SafeStop(s).(llmCalls := calls, repairUsed := repairUsed)
  }

  predicate AlreadyDecided(s: State) {
    s.candidate != None && s.finished && !s.replanRequired
  }

  /** `_terminal_predecision` and `_admission_and_evidence_predecision`. */
  function Prechecked(s: State, found: Precheck): State {
    if AlreadyDecided(s) || found == Proceed then s
    else if found == Answered then
      s.(candidate := ByRuntime, finished := true, replanRequired := false, toolCalls := false)
    else s.(replanRequired := false, toolCalls := true)
  }

  /** `_prepare_provider_decision` does not stop for the budget. */
  predicate BudgetLeft(s: State) {
    s.llmCalls < MAX_LLM_CALLS && !(s.admitted && s.llmCalls >= MAX_LLM_CALLS - 1)
  }

  predicate RepairLeft(s: State) {
    !s.repairUsed && s.llmCalls + 2 <= MAX_LLM_CALLS
  }

  predicate RepairAttempted(s: State, parse: Parse) {
    parse.Malformed? && !parse.toolCalls && parse.repairable && RepairLeft(s)
  }

  datatype Validated =
    | Stopped(state: State, log: Log)
    | Broken(log: Log)  // an exception leaves
    | Valid(decision: Decision, repaired: bool, log: Log)

  /** `_validate_provider_decision`, for a reply that arrived and was logged. */
  function Validate(s: State, log: Log, parse: Parse, repair: Repair, fence: bool): Validated {
    if parse.Parsed? then Valid(parse.decision, false, log)
    else if !RepairAttempted(s, parse) then
      var extra := if !parse.toolCalls && RepairLeft(s) then 1 else 0;
      Stopped(Unrepaired(s, parse, extra), log.(phantom := log.phantom + extra))
    else if !Reservable(log.run, true, fence) then Broken(log)
    else
      match repair
      case RepairRaised =>
        Stopped(StopAt(s, s.llmCalls + 2, true), Reserved(log, true, true))
      case Repaired(candidate) => Valid(Decision(false, candidate), true, Reserved(log, true, true))
      case GaveUp(made) =>
        Stopped(Unrepaired(s, parse, 1), Reserved(log, true, made).(phantom := log.phantom + 1 - One(made)))
      case RepairEscapes(made) => Broken(Reserved(log, true, made))
  }

  /** The stop after a reply that could not be repaired; the repair is charged if it was due. */
  function Unrepaired(s: State, parse: Parse, extra: nat): State
    requires parse.Malformed?
  {
    StopAt(s, s.llmCalls + 1 + extra, s.repairUsed || !parse.toolCalls)
  }

  predicate Premature(s: State, d: Decision) {
    d.candidate && s.admitted && !s.synthesisMode
  }

  /** `_publish_provider_decision`. */
  function Publish(s: State, d: Decision, calls: nat, repaired: bool): State {
    var s' := s.(llmCalls := calls, repairUsed := s.repairUsed || repaired, replanRequired := false,
                 toolCalls := d.toolCalls);
    if Premature(s, d) then
      var replanned := s'.(candidate := None, finished := false, replanRequired := true,
                           replanCount := s.replanCount + 1);
      if replanned.replanCount > 1 then SafeStop(replanned) else replanned
    else if d.candidate then s'.(candidate := ByProvider(s.admitted, s.synthesisMode), finished := true)
    else s'
  }

  /** `_normalize_provider_decision` and publication. */
  function Settle(s: State, log: Log, d: Decision, repaired: bool, normalise: Decision -> Decision): Outcome {
    var calls := s.llmCalls + if repaired then 2 else 1;
    if s.synthesisMode && d.toolCalls then Returns(StopAt(s, calls, s.repairUsed), log)
    else
      var d' := normalise(d);
      Returns(Publish(s, d', calls, repaired),
              if Premature(s, d') then log.(premature := log.premature + 1) else log)
  }

  /** An exception leaves the node: its update is lost, and with it the count of the calls made. */
  function Lost(s: State, log: Log, log': Log): Outcome {
    var made: nat := if log.calls <= log'.calls then log'.calls - log.calls else 0;
    Aborts(s, log'.(uncounted := log.uncounted + made, phantom := log.phantom, premature := log.premature))
  }

  /** What a node concludes is returned if its last writes succeed. */
  function Settled(s: State, log: Log, o: Outcome, settled: bool): Outcome {
    if o.Returns? && !settled then Lost(s, log, o.log) else o
  }

  /** `agent_decide`. */
  function AgentDecide(s: State, log: Log, w: World): Outcome {
    if AlreadyDecided(s) then Returns(s, log) else Settled(s, log, Conclude(s, log, w), w.settled)
  }

  function Conclude(s: State, log: Log, w: World): Outcome {
    if w.precheck != Proceed then Returns(Prechecked(s, w.precheck), log)
    else if !BudgetLeft(s) || w.context.Refused? then Returns(SafeStop(s), log)
    else if w.context.Escapes? || !Reservable(log.run, false, w.fence) then Lost(s, log, log)
    else Consult(s, log, w)
  }

  /** From the reservation on. */
  function Consult(s: State, log: Log, w: World): Outcome {
    var called := Reserved(log, false, w.bindings.Ready?);
    if w.bindings.Escapes? || (log.run.leased && !w.recorded) then Lost(s, log, called)
    else if w.bindings.Refused? then Returns(SafeStop(s), called)
    else if w.reply.Raised? then Returns(SafeStop(s), called.(uncounted := log.uncounted + 1))
    else
      match Validate(s, called, w.reply.parse, w.repair, w.repairFence)
      case Stopped(s', log') => Returns(s', log')
      case Broken(log') => Lost(s, log, log')
      case Valid(d, repaired, log') => Settle(s, log', d, repaired, w.normalise)
  }

  // ----- bind_evidence_and_synthesize -----

  /** What one synthesis attempt comes to; it may fail before the Provider is called. */
  datatype Attempt = Synthesised | SchemaInvalid | OtherError(called: bool)

  predicate Made(a: Attempt) {
    a != OtherError(false)
  }

  /** How the two attempts go, and whether the events that end the node are written. */
  datatype Effort = Effort(first: Attempt, fence: bool, second: Attempt, repairFence: bool, settled: bool)

  /** `bind_evidence_and_synthesize` (backend/src/supportguard/agent/nodes/action_flow.py). */
  function Synthesise(s: State, log: Log, e: Effort): Outcome {
    Settled(s, log, Bind(s, log, e.first, e.fence, e.second, e.repairFence), e.settled)
  }

  /** A refused reservation, and whatever an attempt fails to write, is an error caught here. */
  function Bind(s: State, log: Log, first: Attempt, fence: bool, second: Attempt, repairFence: bool): Outcome {
    if s.llmCalls >= MAX_LLM_CALLS then Returns(SafeStop(s), log)
    else if !Reservable(log.run, false, fence) then
      Returns(Unsynthesised(s, 1, s.repairUsed), log.(phantom := log.phantom + 1))
    else
      var log' := Attempted(log, first, false);
      if first.Synthesised? then Returns(Bound(s, 1, s.repairUsed), log')
      else if first.SchemaInvalid? && RepairLeft(s) then RepairSynthesis(s, log', second, repairFence)
      else Returns(Unsynthesised(s, 1, s.repairUsed), log')
  }

  function RepairSynthesis(s: State, log: Log, second: Attempt, fence: bool): Outcome {
    if !Reservable(log.run, true, fence) then Returns(Unsynthesised(s, 2, true), log.(phantom := log.phantom + 1))
    else
      Returns(if second.Synthesised? then Bound(s, 2, true) else Unsynthesised(s, 2, true),
              Attempted(log, second, true))
  }

  /** A reserved attempt is counted whether or not the Provider was reached. */
  function Attempted(log: Log, a: Attempt, repair: bool): Log {
    Reserved(log, repair, Made(a)).(phantom := log.phantom + 1 - One(Made(a)))
  }

  function Bound(s: State, calls: nat, repairUsed: bool): State {
    s.(llmCalls := s.llmCalls + calls, repairUsed := repairUsed, candidate := ByProvider(s.admitted, true),
       finished := true, synthesisMode := true)
  }

  function Unsynthesised(s: State, calls: nat, repairUsed: bool): State {
    StopAt(s, s.llmCalls + calls, repairUsed).(synthesisMode := true)
  }

  // ----- what a Provider node may do -----

  /** What every Provider node keeps, whatever the Provider answers and however it ends. */
  ghost predicate StepKeeps(s: State, log: Log, o: Outcome) {
    && s.llmCalls <= o.state.llmCalls
    && (s.llmCalls <= MAX_LLM_CALLS ==> o.state.llmCalls <= MAX_LLM_CALLS)
    && (s.repairUsed ==> o.state.repairUsed)
    && (s.stopped ==> o.state.stopped)
    && s.replanCount <= o.state.replanCount
    // a repair uses up the one there is
    && (|| o.log.repairs == log.repairs
        || (o.log.repairs == log.repairs + 1 && !s.repairUsed && (o.Aborts? || o.state.repairUsed)))
    // a Provider candidate for an admitted action is published in synthesis mode only
    && (o.state.candidate.ByProvider? && o.state.candidate != s.candidate && o.state.candidate.admitted ==>
          o.state.candidate.synthesis)
    && BooksBalance(s, log, o)
    && LedgerKept(log, o.log)
    && (o.Aborts? ==> AbortKeeps(s, log, o))
  }

  /** An exception leaves the state as it was and the calls made, at most two, uncounted. */
  ghost predicate AbortKeeps(s: State, log: Log, o: Outcome) {
    && o.state == s && o.log.premature == log.premature && o.log.phantom == log.phantom
    && log.calls <= o.log.calls <= log.calls + 2
    && o.log.uncounted == log.uncounted + (o.log.calls - log.calls)
    && (log.calls < o.log.calls ==> s.llmCalls + (o.log.calls - log.calls) <= MAX_LLM_CALLS)
  }

  /** The state counts exactly the calls made, but for those the log names. */
  ghost predicate BooksBalance(s: State, log: Log, o: Outcome) {
    && log.phantom <= o.log.phantom && log.calls <= o.log.calls
    && o.log.calls + o.log.phantom + s.llmCalls + log.uncounted
       == log.calls + log.phantom + o.state.llmCalls + o.log.uncounted
  }

  /** Under a lease every call and every repair is reserved first, within the limit. */
  ghost predicate LedgerKept(log: Log, log': Log) {
    if !log.run.leased then log'.run == log.run
    else
      && log'.run.leased
      && log'.calls - log.calls <= log'.run.llmCalls - log.run.llmCalls
      && (log.run.llmCalls <= MAX_LLM_CALLS ==> log'.run.llmCalls <= MAX_LLM_CALLS)
      && log'.repairs + One(log.run.repaired) <= log.repairs + One(log'.run.repaired)
  }

  /** When a node returns, an uncounted call or a second premature candidate has stopped the
      run, and a first premature one asks again. */
  ghost predicate StepStops(s: State, log: Log, o: Outcome) {
    o.Returns? ==>
      && log.uncounted <= o.log.uncounted <= log.uncounted + 1
      && log.premature <= o.log.premature <= log.premature + 1
      && !(o.log.uncounted > log.uncounted && o.log.premature > log.premature)
      && (o.log.uncounted > log.uncounted ==>
            && o.log.calls == log.calls + 1 && o.state.llmCalls == s.llmCalls < MAX_LLM_CALLS
            && o.state.stopped && !o.state.toolCalls)
      && (o.log.premature > log.premature ==> o.state.replanCount == s.replanCount + 1 && AskedAgain(s, o.state))
      && (o.log.premature == log.premature ==> o.state.replanCount == s.replanCount)
  }

  ghost predicate AskedAgain(s: State, s': State) {
    && s'.replanRequired
    && if s.replanCount == 0 then s'.candidate == None && !s'.finished
       else s'.stopped && s'.candidate == ByRuntime && !s'.toolCalls
  }

  /** Only counters moved, perhaps with a stop. */
  ghost predicate Plainly(s: State, s': State) {
    && s'.replanCount == s.replanCount && (s.stopped ==> s'.stopped)
    && (s'.candidate == s.candidate || s'.candidate == ByRuntime)
  }

  lemma PrecheckedStep(s: State, log: Log, found: Precheck)
    ensures var o := Returns(Prechecked(s, found), log); StepKeeps(s, log, o) && StepStops(s, log, o)
  {
  }

  lemma IdleStep(s: State, log: Log, o: Outcome)
    requires o == Returns(SafeStop(s), log) || o == Returns(s, log) || o == Lost(s, log, log)
    ensures StepKeeps(s, log, o) && StepStops(s, log, o)
  {
  }

  /** A reservation without a counted call: bindings refused, or the call failed. */
  lemma UncountedStep(s: State, log: Log, fence: bool, failed: bool)
    requires s.llmCalls < MAX_LLM_CALLS && Reservable(log.run, false, fence)
    ensures var log' := Reserved(log, false, failed);
      var o := Returns(SafeStop(s), log'.(uncounted := log.uncounted + One(failed)));
      StepKeeps(s, log, o) && StepStops(s, log, o)
  {
  }

  /** An exception after the reservation of the call and perhaps of its repair. */
  lemma LostStep(s: State, log: Log, log': Log)
    requires log.calls <= log'.calls <= log.calls + 2 && LedgerKept(log, log')
    requires log.calls < log'.calls ==> s.llmCalls + (log'.calls - log.calls) <= MAX_LLM_CALLS
    requires log'.repairs == log.repairs || (log'.repairs == log.repairs + 1 && !s.repairUsed)
    ensures StepKeeps(s, log, Lost(s, log, log'))
  {
  }

  /** A step whose last writes fail. */
  lemma SettledStep(s: State, log: Log, o: Outcome, settled: bool)
    requires StepKeeps(s, log, o) && StepStops(s, log, o) && o.log.calls <= log.calls + 2
    requires s.llmCalls <= MAX_LLM_CALLS || o.log.calls == log.calls
    ensures var o' := Settled(s, log, o, settled); StepKeeps(s, log, o') && StepStops(s, log, o')
  {
    hide LedgerKept, AskedAgain;
    if o.Returns? && !settled {
      LostStep(s, log, o.log);
    }
  }

  /** The accounting of a rejected reply, repaired without success or not at all. */
  lemma StoppedStep(s: State, log: Log, parse: Parse, repair: Repair, fence: bool, repairFence: bool)
    requires s.llmCalls < MAX_LLM_CALLS && Reservable(log.run, false, fence)
    ensures var v := Validate(s, Reserved(log, false, true), parse, repair, repairFence);
      v.Stopped? ==> StepKeeps(s, log, Returns(v.state, v.log)) && StepStops(s, log, Returns(v.state, v.log))
  {
    hide SafeStop, StopAt, StepKeeps, StepStops;
    var log1 := Reserved(log, false, true);
    if parse.Malformed? {
      var used := s.repairUsed || !parse.toolCalls;
      if !RepairAttempted(s, parse) {
        var extra := if !parse.toolCalls && RepairLeft(s) then 1 else 0;
        CountedStop(s, log, log1.(phantom := log.phantom + extra), 1 + extra, used);
      } else if Reservable(log1.run, true, repairFence) {
        var made := repair != GaveUp(false);
        CountedStop(s, log, Reserved(log1, true, made).(phantom := log.phantom + 1 - One(made)), 2, true);
      }
    }
  }

  /** A stop that counts `counted` calls, made or recorded as not made. */
  lemma CountedStop(s: State, log: Log, log': Log, counted: nat, repairUsed: bool)
    requires s.llmCalls + counted <= MAX_LLM_CALLS && (s.repairUsed ==> repairUsed)
    requires log' == log.(run := log'.run, repairs := log'.repairs, calls := log'.calls, phantom := log'.phantom)
    requires log.phantom <= log'.phantom && log.calls <= log'.calls
    requires log'.calls + log'.phantom == log.calls + log.phantom + counted
    requires log'.repairs == log.repairs || (log'.repairs == log.repairs + 1 && !s.repairUsed && repairUsed)
    requires LedgerKept(log, log')
    ensures var o := Returns(StopAt(s, s.llmCalls + counted, repairUsed), log');
      StepKeeps(s, log, o) && StepStops(s, log, o)
  {
    hide StopAt, LedgerKept;
    StopAtFields(s, s.llmCalls + counted, repairUsed);
  }

  /** What is lost when the repair cannot be reserved or an exception leaves it. */
  lemma BrokenStep(s: State, log: Log, parse: Parse, repair: Repair, fence: bool, repairFence: bool)
    requires s.llmCalls < MAX_LLM_CALLS && Reservable(log.run, false, fence)
    ensures var v := Validate(s, Reserved(log, false, true), parse, repair, repairFence);
      v.Broken? ==> StepKeeps(s, log, Lost(s, log, v.log))
  {
    hide Unrepaired, StopAt, StepKeeps, Lost;
    var v := Validate(s, Reserved(log, false, true), parse, repair, repairFence);
    if v.Broken? {
      LostStep(s, log, v.log);
    }
  }

  /** An accepted repair was the first, had room for two calls and has no tool calls. */
  lemma ValidStep(s: State, log: Log, parse: Parse, repair: Repair, fence: bool, repairFence: bool)
    requires s.llmCalls < MAX_LLM_CALLS && Reservable(log.run, false, fence)
    ensures var v := Validate(s, Reserved(log, false, true), parse, repair, repairFence);
      v.Valid? ==> ValidLog(s, log, v.decision, v.repaired, v.log)
  {
  }

  ghost predicate ValidLog(s: State, log: Log, d: Decision, repaired: bool, log': Log) {
    && (repaired ==> RepairLeft(s) && !d.toolCalls)
    && log' == log.(run := log'.run, calls := log.calls + 1 + One(repaired), repairs := log.repairs + One(repaired))
    && LedgerKept(log, log')
  }

  lemma PublishStep(s: State, d: Decision, calls: nat, repaired: bool)
    ensures var s' := Publish(s, d, calls, repaired);
      && s'.llmCalls == calls && s'.repairUsed == (s.repairUsed || repaired) && (s.stopped ==> s'.stopped)
      && s'.replanCount == s.replanCount + One(Premature(s, d))
      && (Premature(s, d) ==> AskedAgain(s, s') && !s'.candidate.ByProvider?)
      && (s'.candidate.ByProvider? && s'.candidate != s.candidate && s'.candidate.admitted ==> s'.candidate.synthesis)
  {
  }

  lemma SettleStep(s: State, log: Log, d: Decision, repaired: bool, log1: Log, normalise: Decision -> Decision)
    requires s.llmCalls < MAX_LLM_CALLS && ValidLog(s, log, d, repaired, log1)
    ensures var o := Settle(s, log1, d, repaired, normalise); StepKeeps(s, log, o) && StepStops(s, log, o)
  {
    hide Publish, AskedAgain, StopAt;
    var calls := s.llmCalls + if repaired then 2 else 1;
    if s.synthesisMode && d.toolCalls {
      CountedStop(s, log, log1, 1, s.repairUsed);
    } else {
      PublishStep(s, normalise(d), calls, repaired);
    }
  }

  lemma StopAtFields(s: State, calls: nat, repairUsed: bool)
    ensures var s' := StopAt(s, calls, repairUsed);
      s'.llmCalls == calls && s'.repairUsed == repairUsed && Plainly(s, s')
  {
  }

  /** Every decision, against every Provider, with or without a lease, returned or not. */
  lemma DecideKeeps(s: State, log: Log, w: World)
    ensures StepKeeps(s, log, AgentDecide(s, log, w)) && StepStops(s, log, AgentDecide(s, log, w))
  {
    hide StepKeeps, StepStops, Conclude, Settled;
    if AlreadyDecided(s) {
      IdleStep(s, log, Returns(s, log));
    } else {
      ConcludeKeeps(s, log, w);
      SettledStep(s, log, Conclude(s, log, w), w.settled);
    }
  }

  lemma ConcludeKeeps(s: State, log: Log, w: World)
    ensures var o := Conclude(s, log, w);
      && StepKeeps(s, log, o) && StepStops(s, log, o)
      && o.log.calls <= log.calls + 2 && (s.llmCalls > MAX_LLM_CALLS ==> o.log.calls == log.calls)
  {
    hide StepKeeps, StepStops, Prechecked, Reservable, Consult, SafeStop;
    if w.precheck != Proceed {
      PrecheckedStep(s, log, w.precheck);
    } else if !BudgetLeft(s) || w.context.Refused? {
      IdleStep(s, log, Returns(SafeStop(s), log));
    } else if w.context.Escapes? || !Reservable(log.run, false, w.fence) {
      IdleStep(s, log, Lost(s, log, log));
    } else {
      ConsultKeeps(s, log, w);
    }
  }

  lemma ConsultKeeps(s: State, log: Log, w: World)
    requires s.llmCalls < MAX_LLM_CALLS && Reservable(log.run, false, w.fence)
    ensures var o := Consult(s, log, w);
      StepKeeps(s, log, o) && StepStops(s, log, o) && o.log.calls <= log.calls + 2
  {
    hide StepKeeps, StepStops, Validate, Settle, ValidLog, SafeStop, LedgerKept;
    var called := Reserved(log, false, w.bindings.Ready?);
    if w.bindings.Escapes? || (log.run.leased && !w.recorded) {
      ReservedKept(log, w.fence, w.bindings.Ready?);
      LostStep(s, log, called);
      LostStops(s, log, called);
    } else if w.bindings.Refused? {
      UncountedStep(s, log, w.fence, false);
      assert called == called.(uncounted := log.uncounted + One(false));
    } else if w.reply.Raised? {
      UncountedStep(s, log, w.fence, true);
    } else {
      var v := Validate(s, called, w.reply.parse, w.repair, w.repairFence);
      CallsBounded(s, log, w.reply.parse, w.repair, w.repairFence, w.normalise);
      StoppedStep(s, log, w.reply.parse, w.repair, w.fence, w.repairFence);
      BrokenStep(s, log, w.reply.parse, w.repair, w.fence, w.repairFence);
      ValidStep(s, log, w.reply.parse, w.repair, w.fence, w.repairFence);
      if v.Broken? {
        LostStops(s, log, v.log);
      } else if v.Valid? {
        SettleStep(s, log, v.decision, v.repaired, v.log, w.normalise);
      }
    }
  }

  lemma ReservedKept(log: Log, fence: bool, made: bool)
    requires Reservable(log.run, false, fence)
    ensures LedgerKept(log, Reserved(log, false, made))
  {
  }

  lemma LostStops(s: State, log: Log, log': Log)
    ensures StepStops(s, log, Lost(s, log, log')) && Lost(s, log, log').log.calls == log'.calls
  {
  }

  lemma CallsBounded(s: State, log: Log, parse: Parse, repair: Repair, fence: bool, normalise: Decision -> Decision)
    ensures var v := Validate(s, Reserved(log, false, true), parse, repair, fence);
      && log.calls <= v.log.calls <= log.calls + 2
      && (v.Valid? ==> Settle(s, v.log, v.decision, v.repaired, normalise).log.calls == v.log.calls)
  {
    hide Unrepaired, StopAt, Publish;
  }

  // ----- the synthesis -----

  lemma UnsynthesisedFields(s: State, calls: nat, repairUsed: bool)
    ensures var s' := Unsynthesised(s, calls, repairUsed);
      s'.llmCalls == s.llmCalls + calls && s'.repairUsed == repairUsed && Plainly(s, s')
  {
  }

  lemma BoundFields(s: State, calls: nat, repairUsed: bool)
    ensures var s' := Bound(s, calls, repairUsed);
      && s'.llmCalls == s.llmCalls + calls && s'.repairUsed == repairUsed
      && s'.replanCount == s.replanCount && s'.stopped == s.stopped && s'.candidate == ByProvider(s.admitted, true)
  {
  }

  ghost predicate SynthesisQuiet(s: State, log: Log, o: Outcome) {
    && o.Returns? && o.state.replanCount == s.replanCount
    && o.log.uncounted == log.uncounted && o.log.premature == log.premature && o.log.calls <= log.calls + 2
  }

  lemma RepairSynthesisKeeps(s: State, log: Log, second: Attempt, fence: bool, repairFence: bool)
    requires Reservable(log.run, false, fence) && RepairLeft(s)
    ensures var o := RepairSynthesis(s, Attempted(log, SchemaInvalid, false), second, repairFence);
      StepKeeps(s, log, o) && SynthesisQuiet(s, log, o)
  {
    hide Unsynthesised, Bound;
    UnsynthesisedFields(s, 2, true);
    BoundFields(s, 2, true);
  }

  lemma BindKeeps(s: State, log: Log, first: Attempt, fence: bool, second: Attempt, repairFence: bool)
    ensures var o := Bind(s, log, first, fence, second, repairFence);
      && StepKeeps(s, log, o) && SynthesisQuiet(s, log, o)
      && (s.llmCalls > MAX_LLM_CALLS ==> o.log.calls == log.calls)
  {
    hide Unsynthesised, Bound, RepairSynthesis;
    if s.llmCalls >= MAX_LLM_CALLS {
      IdleStep(s, log, Returns(SafeStop(s), log));
    } else if !Reservable(log.run, false, fence) {
      UnsynthesisedFields(s, 1, s.repairUsed);
    } else if first.SchemaInvalid? && RepairLeft(s) {
      RepairSynthesisKeeps(s, log, second, fence, repairFence);
    } else {
      UnsynthesisedFields(s, 1, s.repairUsed);
      BoundFields(s, 1, s.repairUsed);
    }
  }

  /** The synthesis obeys the same budgets; what it returns has no uncounted call. */
  lemma SynthesisKeeps(s: State, log: Log, e: Effort)
    ensures var o := Synthesise(s, log, e);
      StepKeeps(s, log, o) && StepStops(s, log, o) && (o.Returns? ==> SynthesisQuiet(s, log, o))
  {
    hide Bind, StepKeeps;
    var o := Bind(s, log, e.first, e.fence, e.second, e.repairFence);
    BindKeeps(s, log, e.first, e.fence, e.second, e.repairFence);
    SettledStep(s, log, o, e.settled);
  }

  // ----- when a decision aborts -----

  /** The decision comes to reserve a call. */
  predicate Reaches(s: State, w: World) {
    !AlreadyDecided(s) && w.precheck == Proceed && BudgetLeft(s) && w.context.Ready?
  }

  /** It comes to a repair of the reply. */
  predicate Repairs(s: State, w: World) {
    w.bindings.Ready? && w.reply.Replied? && RepairAttempted(s, w.reply.parse)
  }

  /** An exception leaves `agent_decide` if and only if one of these raises: the first
      context; under a lease, the reservation of the call, the writes that end its attempt,
      or the reservation of its repair; the bindings or their evidence decision; the repair;
      the writes that end the step. */
  lemma AbortsIff(s: State, log: Log, w: World)
    ensures AgentDecide(s, log, w).Aborts? <==>
      && !AlreadyDecided(s)
      && (|| !w.settled
          || (w.precheck == Proceed && BudgetLeft(s) && w.context.Escapes?)
          || (Reaches(s, w) &&
              (|| (log.run.leased && (!w.fence || log.run.llmCalls >= MAX_LLM_CALLS || !w.recorded))
               || w.bindings.Escapes?
               || (Repairs(s, w) &&
                   (|| w.repair.RepairEscapes?
                    || (log.run.leased &&
                        (!w.repairFence || log.run.llmCalls + 1 >= MAX_LLM_CALLS || log.run.repaired)))))))
  {
    hide Publish, SafeStop, StopAt, Unrepaired, Prechecked;
  }

  // ----- the call kept for the synthesis -----

  /** The Provider's decision was accepted, repaired or not. */
  predicate Accepted(s: State, log: Log, w: World) {
    && Reaches(s, w) && Reservable(log.run, false, w.fence) && w.bindings.Ready? && w.reply.Replied? && w.settled
    && (log.run.leased ==> w.recorded)
    && var v := Validate(s, Reserved(log, false, true), w.reply.parse, w.repair, w.repairFence);
       v.Valid? && !(s.synthesisMode && v.decision.toolCalls)
  }

  /** Decisions on an admitted action stop at five calls so that the synthesis has one
      left; the reserve holds unless the last decision before it needed its repair. */
  lemma SynthesisReserve(s: State, log: Log, w: World)
    requires s.admitted && Accepted(s, log, w)
    ensures AgentDecide(s, log, w).state.llmCalls < MAX_LLM_CALLS
      <==> !(s.llmCalls == MAX_LLM_CALLS - 2 && w.reply.parse.Malformed?)
  {
    hide Publish, Validate, Reservable, Reserved;
    RepairedIffMalformed(s, Reserved(log, false, true), w.reply.parse, w.repair, w.repairFence);
    var v := Validate(s, Reserved(log, false, true), w.reply.parse, w.repair, w.repairFence);
    PublishStep(s, w.normalise(v.decision), s.llmCalls + if v.repaired then 2 else 1, v.repaired);
  }

  lemma RepairedIffMalformed(s: State, log: Log, parse: Parse, repair: Repair, fence: bool)
    ensures var v := Validate(s, log, parse, repair, fence); v.Valid? ==> (v.repaired <==> parse.Malformed?)
  {
    hide Unrepaired, SafeStop, StopAt, Reserved;
  }

  /** The reserve spent: an accepted repair takes the sixth call, and the synthesis stops. */
  lemma ReserveSpent()
    ensures exists s: State, log: Log, w: World ::
      && s.admitted && Accepted(s, log, w) && !AgentDecide(s, log, w).state.stopped
      && forall e: Effort :: e.settled ==>
        Synthesise(AgentDecide(s, log, w).state, AgentDecide(s, log, w).log, e).state.stopped
  {
    var s := State(4, false, 0, false, false, true, false, None, false, false, false);
    var log := Log(RunRow(true, 4, false), 0, 4, 0, 0, 0);
    var reply := Replied(Malformed(false, true));
    var w := World(Proceed, Ready, true, Ready, reply, true, true, Repaired(true), d => d, true);
    assert Accepted(s, log, w);
    assert AgentDecide(s, log, w).state.llmCalls == 6;
  }
}
