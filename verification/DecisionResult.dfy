/** What a Provider node returns, field by field, read off the state it starts from and
    what the Provider and the other parts did. */
module DecisionResult {
  import opened DecisionStep

  // ----- the decision -----

  /** A candidate stands, is final, and no replan is asked for. */
  predicate Stands(s: State) {
    s.candidate != None && s.finished && !s.replanRequired
  }

  /** Nothing before the Provider decides: it may be asked, keeping the last call for an admitted action. */
  predicate Open(s: State, w: World) {
    && !Stands(s) && w.precheck == Proceed && w.context == Ready
    && s.llmCalls < 6 && (s.admitted ==> s.llmCalls < 5)
  }

  /** A reply arrived. */
  predicate Heard(s: State, w: World) {
    Open(s, w) && w.bindings == Ready && w.reply.Replied?
  }

  /** A malformed reply is worth its one repair. */
  predicate RepairDue(s: State, w: World) {
    && Heard(s, w) && w.reply.parse.Malformed? && !w.reply.parse.toolCalls && w.reply.parse.repairable
    && !s.repairUsed && s.llmCalls <= 4
  }

  /** The reply is accepted: well-formed and without tool calls where they come too late, or repaired. */
  predicate Taken(s: State, w: World) {
    && Heard(s, w)
    && match w.reply.parse
       case Parsed(d) => !(s.synthesisMode && d.toolCalls)
       case Malformed(_, _) => RepairDue(s, w) && w.repair.Repaired?
  }

  /** The accepted decision, normalised. */
  function TakenDecision(s: State, w: World): Decision
    requires Taken(s, w)
  {
    w.normalise(match w.reply.parse
                case Parsed(d) => d
                case Malformed(_, _) => Decision(false, w.repair.candidate))
  }

  /** The accepted decision answers an admitted action before its synthesis. */
  predicate TooEarly(s: State, w: World) {
    Taken(s, w) && TakenDecision(s, w).candidate && s.admitted && !s.synthesisMode
  }

  /** The accepted decision's answer is published. */
  predicate Publishes(s: State, w: World) {
    Taken(s, w) && TakenDecision(s, w).candidate && (s.admitted ==> s.synthesisMode)
  }

  lemma TakenPath(s: State, log: Log, w: World)
    requires AgentDecide(s, log, w).Returns? && Taken(s, w)
    ensures var malformed := w.reply.parse.Malformed?;
      AgentDecide(s, log, w).state ==
        Publish(s, TakenDecision(s, w), s.llmCalls + (if malformed then 2 else 1), malformed)
  {
    hide Publish, StopAt, SafeStop, Unrepaired, Prechecked;
  }

  /** The state after publication, field by field. */
  lemma PublishState(s: State, d: Decision, calls: nat, repaired: bool)
    ensures var used, early := s.repairUsed || repaired, d.candidate && s.admitted && !s.synthesisMode;
      Publish(s, d, calls, repaired) ==
        if early && s.replanCount == 0 then
          State(calls, used, 1, true, s.synthesisMode, s.admitted, s.boundary, None, false, s.stopped, d.toolCalls)
        else if early then
          State(calls, used, s.replanCount + 1, true, s.synthesisMode, s.admitted, s.boundary, ByRuntime, true, true,
                false)
        else if d.candidate then
          State(calls, used, s.replanCount, false, s.synthesisMode, s.admitted, s.boundary,
                ByProvider(s.admitted, s.synthesisMode), true, s.stopped, d.toolCalls)
        else
          State(calls, used, s.replanCount, false, s.synthesisMode, s.admitted, s.boundary, s.candidate, s.finished,
                s.stopped, d.toolCalls)
  {
  }

  /** The whole state after an accepted reply: its candidate is published under the
      circumstances of the state, sent back once, or ends the run the second time; without
      a candidate, what stood stays. */
  lemma TakenResult(s: State, log: Log, w: World)
    requires AgentDecide(s, log, w).Returns? && Taken(s, w)
    ensures var d := TakenDecision(s, w);
      var malformed := w.reply.parse.Malformed?;
      var calls, used := s.llmCalls + (if malformed then 2 else 1), s.repairUsed || malformed;
      AgentDecide(s, log, w).state ==
        if Publishes(s, w) then
          State(calls, used, s.replanCount, false, s.synthesisMode, s.admitted, s.boundary,
                ByProvider(s.admitted, s.synthesisMode), true, s.stopped, d.toolCalls)
        else if TooEarly(s, w) && s.replanCount == 0 then
          State(calls, used, 1, true, s.synthesisMode, s.admitted, s.boundary, None, false, s.stopped, d.toolCalls)
        else if TooEarly(s, w) then
          State(calls, used, s.replanCount + 1, true, s.synthesisMode, s.admitted, s.boundary, ByRuntime, true, true,
                false)
        else
          State(calls, used, s.replanCount, false, s.synthesisMode, s.admitted, s.boundary, s.candidate, s.finished,
                s.stopped, d.toolCalls)
  {
    hide AgentDecide, Publish, TakenDecision;
    TakenPath(s, log, w);
    var malformed := w.reply.parse.Malformed?;
    PublishState(s, TakenDecision(s, w), s.llmCalls + (if malformed then 2 else 1), malformed);
  }

  /** The calls a rejected reply is charged with: a repair is, whether or not it was made. */
  function Charge(s: State, w: World): nat {
    if !Heard(s, w) then 0
    else
      match w.reply.parse
      case Parsed(_) => 1
      case Malformed(toolCalls, _) => if !toolCalls && !s.repairUsed && s.llmCalls <= 4 then 2 else 1
  }

  predicate RepairSpent(s: State, w: World) {
    Heard(s, w) && w.reply.parse.Malformed? && !w.reply.parse.toolCalls
  }

  lemma StopState(s: State, calls: nat, repairUsed: bool)
    ensures StopAt(s, calls, repairUsed) ==
      State(calls, repairUsed, s.replanCount, s.replanRequired, s.synthesisMode, s.admitted, s.boundary, ByRuntime,
            true, true, false)
    ensures SafeStop(s) == StopAt(s, s.llmCalls, s.repairUsed)
  {
  }

  lemma UntakenPath(s: State, log: Log, w: World)
    requires AgentDecide(s, log, w).Returns? && !Taken(s, w)
    ensures AgentDecide(s, log, w).state ==
      if Stands(s) then s
      else if w.precheck != Proceed then Prechecked(s, w.precheck)
      else if !Heard(s, w) then SafeStop(s)
      else StopAt(s, s.llmCalls + Charge(s, w), s.repairUsed || RepairSpent(s, w))
  {
    hide Publish, StopAt, SafeStop, Prechecked;
  }

  lemma PrecheckState(s: State)
    requires !Stands(s)
    ensures Prechecked(s, Answered) ==
      State(s.llmCalls, s.repairUsed, s.replanCount, false, s.synthesisMode, s.admitted, s.boundary, ByRuntime, true,
            s.stopped, false)
    ensures Prechecked(s, ReadsRequired) ==
      State(s.llmCalls, s.repairUsed, s.replanCount, false, s.synthesisMode, s.admitted, s.boundary, s.candidate,
            s.finished, s.stopped, true)
  {
  }

  /** The whole state after any other decision: unchanged, answered by a precheck, sent to
      the required reads, or stopped by the Runtime with the calls charged. */
  lemma UntakenResult(s: State, log: Log, w: World)
    requires AgentDecide(s, log, w).Returns? && !Taken(s, w)
    ensures AgentDecide(s, log, w).state ==
      if Stands(s) then s
      else if w.precheck == Answered then
        State(s.llmCalls, s.repairUsed, s.replanCount, false, s.synthesisMode, s.admitted, s.boundary, ByRuntime, true,
              s.stopped, false)
      else if w.precheck == ReadsRequired then
        State(s.llmCalls, s.repairUsed, s.replanCount, false, s.synthesisMode, s.admitted, s.boundary, s.candidate,
              s.finished, s.stopped, true)
      else
        State(s.llmCalls + Charge(s, w), s.repairUsed || RepairSpent(s, w), s.replanCount, s.replanRequired,
              s.synthesisMode, s.admitted, s.boundary, ByRuntime, true, true, false)
  {
    hide AgentDecide, Prechecked, StopAt, SafeStop, Taken;
    UntakenPath(s, log, w);
    StopState(s, s.llmCalls + Charge(s, w), s.repairUsed || RepairSpent(s, w));
    StopState(s, s.llmCalls, s.repairUsed);
    if !Stands(s) {
      PrecheckState(s);
    }
  }

  /** A Provider candidate that was not there before is there afterwards exactly when an
      accepted decision has one and it is not too early; the state is then final. */
  lemma PublishedIff(s: State, log: Log, w: World)
    requires AgentDecide(s, log, w).Returns?
    ensures var s' := AgentDecide(s, log, w).state;
      && (!s.candidate.ByProvider? ==> (s'.candidate.ByProvider? <==> Publishes(s, w)))
      && (s'.candidate.ByProvider? && s'.candidate != s.candidate ==> Publishes(s, w))
      && (Publishes(s, w) ==>
            s'.candidate == ByProvider(s.admitted, s.synthesisMode) && s'.finished && s'.stopped == s.stopped)
  {
    hide AgentDecide, Taken, TakenDecision, Charge, RepairSpent, Stands;
    if Taken(s, w) {
      TakenResult(s, log, w);
    } else {
      UntakenResult(s, log, w);
    }
  }

  /** What the run's log gains when a decision returns.  Only a consulted Provider costs a
      call; an error of it is not counted by the state, an unmade repair is. */
  lemma DecideLog(s: State, log: Log, w: World)
    requires AgentDecide(s, log, w).Returns?
    ensures var log' := AgentDecide(s, log, w).log;
      var asked, repair := Open(s, w), RepairDue(s, w);
      var made := One(asked && w.bindings == Ready) + One(repair && RepairCalls(w.repair));
      && log'.calls == log.calls + made
      && log'.repairs == log.repairs + One(repair)
      && log'.uncounted == log.uncounted + One(asked && w.bindings == Ready && w.reply.Raised?)
      && log'.premature == log.premature + One(TooEarly(s, w))
      && log'.phantom == log.phantom + (if Taken(s, w) || !Heard(s, w) then 0 else Charge(s, w) - made)
      && log'.run ==
         if log.run.leased
         then RunRow(true, log.run.llmCalls + One(asked) + One(repair), log.run.repaired || repair)
         else log.run
  {
    hide Publish, StopAt, SafeStop, Unrepaired;
  }

  // ----- the synthesis -----

  predicate Lets(run: RunRow, fence: bool) {
    run.leased ==> fence && run.llmCalls < 6
  }

  /** The first attempt is reserved, and its reply breaks the schema with a repair left. */
  predicate SynthesisRepair(s: State, log: Log, e: Effort) {
    s.llmCalls <= 4 && !s.repairUsed && Lets(log.run, e.fence) && e.first.SchemaInvalid?
  }

  /** An attempt brings the synthesis: the first, or the repair of its schema. */
  predicate Succeeds(s: State, log: Log, e: Effort) {
    && s.llmCalls < 6 && Lets(log.run, e.fence)
    && (|| e.first.Synthesised?
        || (&& SynthesisRepair(s, log, e) && e.second.Synthesised?
            && (log.run.leased ==> e.repairFence && log.run.llmCalls < 5 && !log.run.repaired)))
  }

  /** An exception leaves a synthesis only in the writes that end it. */
  lemma SynthesisAbortsIff(s: State, log: Log, e: Effort)
    ensures Synthesise(s, log, e).Aborts? <==> !e.settled
  {
    hide Bound, Unsynthesised, SafeStop;
  }

  lemma SynthesisPath(s: State, log: Log, e: Effort)
    requires e.settled
    ensures var repair := SynthesisRepair(s, log, e);
      Synthesise(s, log, e).state ==
        if s.llmCalls >= 6 then SafeStop(s)
        else if Succeeds(s, log, e) then Bound(s, 1 + One(repair), s.repairUsed || repair)
        else Unsynthesised(s, 1 + One(repair), s.repairUsed || repair)
  {
    hide SafeStop, Bound, Unsynthesised;
  }

  lemma SynthesisStates(s: State, calls: nat, repairUsed: bool)
    ensures Bound(s, calls, repairUsed) ==
      State(s.llmCalls + calls, repairUsed, s.replanCount, s.replanRequired, true, s.admitted, s.boundary,
            ByProvider(s.admitted, true), true, s.stopped, s.toolCalls)
    ensures Unsynthesised(s, calls, repairUsed) ==
      State(s.llmCalls + calls, repairUsed, s.replanCount, s.replanRequired, true, s.admitted, s.boundary, ByRuntime,
            true, true, false)
  {
  }

  /** The whole state a synthesis returns: a Provider candidate in synthesis mode, or a stop. */
  lemma SynthesisResult(s: State, log: Log, e: Effort)
    requires e.settled
    ensures s.llmCalls >= 6 ==>
      Synthesise(s, log, e).state == State(
        s.llmCalls, s.repairUsed, s.replanCount, s.replanRequired, s.synthesisMode, s.admitted, s.boundary, ByRuntime,
        true, true, false)
    ensures Succeeds(s, log, e) ==>
      Synthesise(s, log, e).state == State(
        s.llmCalls + 1 + One(SynthesisRepair(s, log, e)), s.repairUsed || SynthesisRepair(s, log, e), s.replanCount,
        s.replanRequired, true, s.admitted, s.boundary, ByProvider(s.admitted, true), true, s.stopped, s.toolCalls)
    ensures s.llmCalls < 6 && !Succeeds(s, log, e) ==>
      Synthesise(s, log, e).state == State(
        s.llmCalls + 1 + One(SynthesisRepair(s, log, e)), s.repairUsed || SynthesisRepair(s, log, e), s.replanCount,
        s.replanRequired, true, s.admitted, s.boundary, ByRuntime, true, true, false)
  {
    hide Synthesise, Bound, Unsynthesised, SafeStop, StopAt, SynthesisRepair;
    var repair := SynthesisRepair(s, log, e);
    SynthesisPath(s, log, e);
    SynthesisStates(s, 1 + One(repair), s.repairUsed || repair);
    StopState(s, s.llmCalls, s.repairUsed);
  }

  /** What the log gains: every reserved attempt is in the ledger, every reached Provider a call. */
  lemma SynthesisLog(s: State, log: Log, e: Effort)
    requires e.settled
    ensures var log' := Synthesise(s, log, e).log;
      var tried := s.llmCalls < 6 && Lets(log.run, e.fence);
      var again := SynthesisRepair(s, log, e)
                   && (log.run.leased ==> e.repairFence && log.run.llmCalls < 5 && !log.run.repaired);
      var made := One(tried && e.first != OtherError(false)) + One(again && e.second != OtherError(false));
      var counted: nat := if s.llmCalls >= 6 then 0 else if SynthesisRepair(s, log, e) then 2 else 1;
      && log'.calls == log.calls + made && log'.phantom == log.phantom + counted - made
      && log'.repairs == log.repairs + One(again)
      && log'.uncounted == log.uncounted && log'.premature == log.premature
      && log'.run ==
         if log.run.leased then RunRow(true, log.run.llmCalls + One(tried) + One(again), log.run.repaired || again)
         else log.run
  {
    hide Bound, Unsynthesised, SafeStop;
  }
}
