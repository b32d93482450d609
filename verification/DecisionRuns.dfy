/** Whole runs of the agent graph (backend/src/supportguard/agent/graph.py) around its two
    Provider nodes.  The other nodes may do anything that leaves the counters alone. */
module DecisionRuns {
  import opened DecisionStep
  import opened DecisionResult

  datatype Node = Decide | Tools | Obligations | Synthesis | Assembly | Explanation | Policy | Done | Aborted

  datatype Config = Config(node: Node, state: State, log: Log)

  /** `route_decision`. */
  function RouteDecision(s: State): Node {
    if s.toolCalls then Tools
    else if s.stopped || s.boundary then Policy
    else if s.admitted then Obligations
    else Policy
  }

  /** Where a decision leads: calls are executed whatever else holds; otherwise the
      obligations are checked exactly for an admitted action that nothing ended. */
  lemma RouteIff(s: State)
    ensures RouteDecision(s) == Tools <==> s.toolCalls
    ensures RouteDecision(s) == Obligations <==> s.admitted && !s.toolCalls && !s.stopped && !s.boundary
    ensures RouteDecision(s) == Policy <==> !s.toolCalls && (s.stopped || s.boundary || !s.admitted)
  {
  }

  /** Where an accepted decision of a run that nothing ended leads: to its calls, else for an
      admitted action to the obligations, save a second early answer, else to the policy. */
  lemma TakenRoute(s: State, log: Log, w: World)
    requires AgentDecide(s, log, w).Returns? && Taken(s, w) && !s.stopped && !s.boundary
    ensures var s', calls := AgentDecide(s, log, w).state, TakenDecision(s, w).toolCalls;
      var ended := TooEarly(s, w) && s.replanCount > 0;
      && (RouteDecision(s') == Tools <==> calls && !ended)
      && (RouteDecision(s') == Obligations <==> !calls && s.admitted && !ended)
      && (RouteDecision(s') == Policy <==> ended || (!calls && !s.admitted))
  {
    hide AgentDecide, Taken, TakenDecision;
    TakenResult(s, log, w);
  }

  /** Where any other decision leads: a stop always to the policy. */
  lemma UntakenRoute(s: State, log: Log, w: World)
    requires AgentDecide(s, log, w).Returns? && !Taken(s, w) && !Stands(s)
    ensures var next := RouteDecision(AgentDecide(s, log, w).state);
      && (w.precheck == ReadsRequired ==> next == Tools)
      && (w.precheck == Proceed ==> next == Policy)
      && (w.precheck == Answered ==> next == if s.admitted && !s.stopped && !s.boundary then Obligations else Policy)
  {
    hide AgentDecide, Taken, Charge, RepairSpent;
    UntakenResult(s, log, w);
  }

  /** What a node without Provider may do: clear or replace the candidate, change modes. */
  ghost predicate Elsewhere(s: State, s': State) {
    && s'.llmCalls == s.llmCalls && s'.repairUsed == s.repairUsed && s'.replanCount == s.replanCount
    && (s.stopped ==> s'.stopped)
    && (s'.candidate == s.candidate || !s'.candidate.ByProvider?)
  }

  /** It may also write the state's counter back to the run. */
  ghost predicate Quiet(c: Config, c': Config) {
    && Elsewhere(c.state, c'.state)
    && (c'.log == c.log
        || (c.log.run.llmCalls <= c.state.llmCalls
            && c'.log == c.log.(run := c.log.run.(llmCalls := c.state.llmCalls))))
  }

  /** The gate's replan: once within the replan budget, or as an earlier assessment said
      if nothing has stopped the run. */
  predicate MayReplan(s: State) {
    (s.replanCount < 1 && s.llmCalls < MAX_LLM_CALLS) || !s.stopped
  }

  function Replanned(s: State): State {
    s.(candidate := None, finished := false, replanRequired := true, replanCount := s.replanCount + 1)
  }

  function After(o: Outcome, next: Node): Config {
    Config(if o.Aborts? then Aborted else next, o.state, o.log)
  }

  ghost predicate Decides(c: Config, c': Config) {
    exists w: World :: c' == After(AgentDecide(c.state, c.log, w), RouteDecision(AgentDecide(c.state, c.log, w).state))
  }

  ghost predicate Synthesises(c: Config, c': Config) {
    exists e: Effort :: c' == After(Synthesise(c.state, c.log, e), Assembly)
  }

  /** A node does its work, or its exception ends the run. */
  ghost predicate Next(c: Config, c': Config) {
    || Works(c, c')
    || (c.node in {Tools, Obligations, Assembly, Explanation, Policy} && c' == c.(node := Aborted))
  }

  ghost predicate Works(c: Config, c': Config) {
    match c.node
    case Decide => Decides(c, c')
    case Synthesis => Synthesises(c, c')
    case Policy =>
      || (c'.node == Decide && MayReplan(c.state) && c'.state == Replanned(c.state) && c'.log == c.log)
      || (c'.node == Done && Quiet(c, c'))
    case Tools => c'.node == Obligations && Quiet(c, c')
    case Obligations => c'.node in {Decide, Synthesis, Assembly, Explanation, Policy} && Quiet(c, c')
    case Assembly => c'.node == Policy && Quiet(c, c')
    case Explanation => c'.node == Policy && Quiet(c, c')
    case Done => c' == c
    case Aborted => c' == c
  }

  ghost predicate IsRun(run: seq<Config>) {
    run != [] && forall i :: 0 <= i < |run| - 1 ==> Next(run[i], run[i + 1])
  }

  /** The replans considered: all from the policy of a run that was not replanned yet and has
      a call left, or that nothing has stopped; the candidate is then gone. */
  lemma ReplanIff(c: Config)
    requires c.node == Policy
    ensures (exists c' :: Next(c, c') && c'.node == Decide) <==>
      (c.state.replanCount == 0 && c.state.llmCalls < 6) || !c.state.stopped
    ensures forall c' :: Next(c, c') && c'.node == Decide ==>
      && c'.state.candidate == None && !c'.state.finished && c'.state.replanRequired
      && c'.state.replanCount == c.state.replanCount + 1 && c'.state.llmCalls == c.state.llmCalls && c'.log == c.log
  {
    if (c.state.replanCount == 0 && c.state.llmCalls < 6) || !c.state.stopped {
      assert Next(c, Config(Decide, Replanned(c.state), c.log));
    }
  }

  predicate Follows(node: Node, next: Node) {
    match node
    case Tools => next == Obligations
    case Obligations => next in {Decide, Synthesis, Assembly, Explanation, Policy}
    case Assembly => next == Policy
    case Explanation => next == Policy
    case Policy => next == Done
    case _ => false
  }

  /** Nodes without Provider are free: to any next node of theirs, with any state that has
      the same counters and no new Provider candidate, or out of the graph. */
  lemma FreeNodes(c: Config, next: Node, s': State)
    requires Follows(c.node, next)
    requires s'.llmCalls == c.state.llmCalls && s'.repairUsed == c.state.repairUsed
    requires s'.replanCount == c.state.replanCount && (c.state.stopped ==> s'.stopped)
    requires s'.candidate == c.state.candidate || !s'.candidate.ByProvider?
    ensures Next(c, Config(next, s', c.log)) && Next(c, Config(Aborted, c.state, c.log))
  {
  }

  /** A run begins with some calls already counted, none of them unseen; under a lease
      they are reserved. */
  ghost predicate Initial(c: Config) {
    && c.node != Aborted && c.state.llmCalls <= MAX_LLM_CALLS
    && c.log.calls + c.log.phantom == c.state.llmCalls
    && c.log.repairs <= One(c.state.repairUsed)
    && c.log.uncounted == 0 && c.log.premature == 0 && !c.state.candidate.ByProvider?
    && (c.log.run.leased ==> Reserves(c))
  }

  /** All calls and repairs made were reserved, within the limit. */
  predicate Reserves(c: Config) {
    c.log.calls <= c.log.run.llmCalls <= MAX_LLM_CALLS && c.log.repairs <= One(c.log.run.repaired)
  }

  predicate Over(c: Config) {
    c.node == Aborted || (c.node in {Policy, Done} && c.state.stopped && c.state.replanCount >= 1)
  }

  ghost predicate Invariant(c: Config) {
    && c.state.llmCalls <= MAX_LLM_CALLS
    && (c.log.repairs <= One(c.state.repairUsed) || (c.node == Aborted && c.log.repairs <= 1))
    && c.log.calls + c.log.phantom == c.state.llmCalls + c.log.uncounted <= MAX_LLM_CALLS + 1
    && (c.log.run.leased ==> Reserves(c))
    && (c.state.candidate.ByProvider? && c.state.candidate.admitted ==> c.state.candidate.synthesis)
    // uncounted calls end the run, but for one replan
    && (c.log.uncounted > 0 ==>
          c.node == Aborted || (c.state.stopped && (c.node in {Policy, Done} || c.state.replanCount >= 1)))
    && (c.log.uncounted >= 2 ==> Over(c))
    && (c.log.calls > MAX_LLM_CALLS ==> c.state.stopped && c.state.replanCount >= 1)
    // a second premature candidate ends the run
    && c.log.premature <= c.state.replanCount && c.log.premature <= 2
    && (c.log.premature == 2 ==> Over(c))
  }

  lemma DecideInvariant(c: Config, w: World)
    requires Invariant(c) && c.node == Decide
    ensures var o := AgentDecide(c.state, c.log, w); Invariant(After(o, RouteDecision(o.state)))
    ensures var o := AgentDecide(c.state, c.log, w);
      c.state.llmCalls <= o.state.llmCalls && o.log.run.leased == c.log.run.leased
  {
    hide AgentDecide;
    DecideKeeps(c.state, c.log, w);
  }

  lemma SynthesisInvariant(c: Config, e: Effort)
    requires Invariant(c) && c.node == Synthesis
    ensures Invariant(After(Synthesise(c.state, c.log, e), Assembly))
    ensures var o := Synthesise(c.state, c.log, e);
      c.state.llmCalls <= o.state.llmCalls && o.log.run.leased == c.log.run.leased
  {
    hide Synthesise;
    SynthesisKeeps(c.state, c.log, e);
  }

  lemma QuietInvariant(c: Config, c': Config)
    requires Invariant(c) && Next(c, c') && c.node != Decide && c.node != Synthesis
    ensures Invariant(c')
    ensures c.state.llmCalls <= c'.state.llmCalls && c'.log.run.leased == c.log.run.leased
    ensures Over(c) ==> Over(c') && c'.log == c.log.(run := c'.log.run)
  {
    hide Decides, Synthesises;
  }

  lemma NextInvariant(c: Config, c': Config)
    requires Invariant(c) && Next(c, c')
    ensures Invariant(c')
    ensures c.state.llmCalls <= c'.state.llmCalls && c'.log.run.leased == c.log.run.leased
    ensures Over(c) ==> Over(c') && c'.log == c.log.(run := c'.log.run)
  {
    hide AgentDecide, Synthesise;
    if c.node == Decide {
      var w: World :|
        c' == After(AgentDecide(c.state, c.log, w), RouteDecision(AgentDecide(c.state, c.log, w).state));
      DecideInvariant(c, w);
    } else if c.node == Synthesis {
      var e: Effort :| c' == After(Synthesise(c.state, c.log, e), Assembly);
      SynthesisInvariant(c, e);
    } else {
      hide Decides, Synthesises;
      QuietInvariant(c, c');
    }
  }

  lemma {:induction false} RunInvariant(run: seq<Config>, i: nat)
    requires IsRun(run) && Initial(run[0]) && i < |run|
    ensures Invariant(run[i]) && run[i].log.run.leased == run[0].log.run.leased
  {
    hide Next;
    if i > 0 {
      RunInvariant(run, i - 1);
      NextInvariant(run[i - 1], run[i]);
    }
  }

  /** In every run the call counter only grows and stays within its limit, one repair at
      most is attempted, and no Provider candidate stands for an admitted action unless
      it was published in synthesis mode. */
  lemma {:induction false} BudgetsHold(run: seq<Config>, i: nat, j: nat)
    requires IsRun(run) && Initial(run[0]) && i <= j < |run|
    ensures run[i].state.llmCalls <= run[j].state.llmCalls <= MAX_LLM_CALLS
    ensures run[j].log.repairs <= 1
    ensures run[j].state.candidate.ByProvider? && run[j].state.candidate.admitted ==> run[j].state.candidate.synthesis
  {
    hide Next;
    RunInvariant(run, j);
    if i < j {
      BudgetsHold(run, i, j - 1);
      RunInvariant(run, j - 1);
      NextInvariant(run[j - 1], run[j]);
    }
  }

  /** After a second premature candidate no Provider call is made, and no third one comes. */
  lemma {:induction false} SecondPrematureEnds(run: seq<Config>, i: nat, j: nat)
    requires IsRun(run) && Initial(run[0]) && i <= j < |run|
    requires run[i].log.premature >= 2
    ensures run[j].log.calls == run[i].log.calls && run[j].log.premature == 2
    ensures run[j].node in {Policy, Done, Aborted}
  {
    hide Next;
    RunInvariant(run, i);
    if i < j {
      SecondPrematureEnds(run, i, j - 1);
      RunInvariant(run, j - 1);
      OverStays(run, i, j - 1);
      NextInvariant(run[j - 1], run[j]);
    }
  }

  lemma {:induction false} OverStays(run: seq<Config>, i: nat, j: nat)
    requires IsRun(run) && Initial(run[0]) && i <= j < |run| && Over(run[i])
    ensures Over(run[j])
  {
    hide Next;
    if i < j {
      OverStays(run, i, j - 1);
      RunInvariant(run, j - 1);
      NextInvariant(run[j - 1], run[j]);
    }
  }

  // ----- the calls actually made -----

  /** A leased run makes at most six Provider calls, failed ones included.  Any run makes
      more than six if and only if it holds no lease, every counted call was made and the
      calls counted and uncounted exceed six; then it has failed, been replanned, and made
      exactly seven. */
  lemma CallsMade(run: seq<Config>, i: nat)
    requires IsRun(run) && Initial(run[0]) && i < |run|
    ensures var c := run[i];
      && (run[0].log.run.leased ==> c.log.calls <= c.log.run.llmCalls <= MAX_LLM_CALLS)
      && (c.log.calls > MAX_LLM_CALLS <==>
            !run[0].log.run.leased && c.log.phantom == 0 && c.state.llmCalls + c.log.uncounted > MAX_LLM_CALLS)
      && (c.log.calls > MAX_LLM_CALLS ==>
            && c.log.calls == MAX_LLM_CALLS + 1 && c.state.stopped && c.state.replanCount >= 1)
  {
    RunInvariant(run, i);
  }

  /** How many calls a decision makes without a lease. */
  function CallsOfDecision(s: State, w: World): nat {
    if !Reaches(s, w) || !w.bindings.Ready? then 0
    else if Repairs(s, w) && RepairCalls(w.repair) then 2
    else 1
  }

  lemma DecisionCalls(s: State, log: Log, w: World)
    requires !log.run.leased
    ensures AgentDecide(s, log, w).log.calls == log.calls + CallsOfDecision(s, w)
  {
    hide Publish, SafeStop, StopAt, Unrepaired, Prechecked, Validate, Settle;
    if Reaches(s, w) && w.bindings.Ready? && w.reply.Replied? {
      RepliedCalls(s, log, w);
    }
  }

  lemma RepliedCalls(s: State, log: Log, w: World)
    requires !log.run.leased && w.reply.Replied? && w.bindings.Ready?
    ensures var v := Validate(s, Reserved(log, false, true), w.reply.parse, w.repair, w.repairFence);
      && v.log.calls == log.calls + 1 + One(Repairs(s, w) && RepairCalls(w.repair))
      && (v.Valid? ==> Settle(s, v.log, v.decision, v.repaired, w.normalise).log.calls == v.log.calls)
  {
    hide Publish, SafeStop, StopAt, Unrepaired;
  }

  /** How many calls the synthesis makes without a lease. */
  function CallsOfSynthesis(s: State, e: Effort): nat {
    if s.llmCalls >= MAX_LLM_CALLS then 0
    else if e.first.SchemaInvalid? && RepairLeft(s) then 1 + One(Made(e.second))
    else One(Made(e.first))
  }

  lemma SynthesisCalls(s: State, log: Log, e: Effort)
    requires !log.run.leased
    ensures Synthesise(s, log, e).log.calls == log.calls + CallsOfSynthesis(s, e)
  {
    hide Bound, StopAt, Unsynthesised;
  }

  /** Before a decision: it takes the calls past six if and only if there is no lease, the
      Provider is reached, and six calls were made, or five and the reply's repair is called. */
  lemma SeventhCallIff(c: Config, w: World)
    requires Invariant(c) && c.node == Decide
    ensures c.log.calls <= MAX_LLM_CALLS < AgentDecide(c.state, c.log, w).log.calls <==>
      && !c.log.run.leased && Reaches(c.state, w) && w.bindings.Ready?
      && (|| c.log.calls == MAX_LLM_CALLS
          || (c.log.calls == MAX_LLM_CALLS - 1 && Repairs(c.state, w) && RepairCalls(w.repair)))
  {
    hide AgentDecide;
    DecideInvariant(c, w);
    if !c.log.run.leased {
      DecisionCalls(c.state, c.log, w);
    }
  }

  /** Before a synthesis: likewise, if and only if there is no lease, a counted call is left,
      and six calls were made and one is now, or five and the attempt and its repair are. */
  lemma SeventhSynthesisIff(c: Config, e: Effort)
    requires Invariant(c) && c.node == Synthesis
    ensures c.log.calls <= MAX_LLM_CALLS < Synthesise(c.state, c.log, e).log.calls <==>
      && !c.log.run.leased && c.state.llmCalls < MAX_LLM_CALLS
      && (|| (c.log.calls == MAX_LLM_CALLS && Made(e.first))
          || (c.log.calls == MAX_LLM_CALLS - 1 && e.first.SchemaInvalid? && RepairLeft(c.state) && Made(e.second)))
  {
    hide Synthesise;
    SynthesisInvariant(c, e);
    if !c.log.run.leased {
      SynthesisCalls(c.state, c.log, e);
    }
  }

  /** No other node makes one, and in every run the seventh call follows one uncounted call,
      a stop and a replan. */
  lemma SeventhCallNodes(c: Config, c': Config)
    requires Invariant(c) && Next(c, c') && c.log.calls <= MAX_LLM_CALLS < c'.log.calls
    ensures c.node == Decide || c.node == Synthesis
    ensures !c.log.run.leased && c.log.uncounted == 1 && c.log.phantom == 0
    ensures c.state.stopped && c.state.replanCount >= 1
  {
    hide AgentDecide, Synthesise;
    if c.node == Decide {
      var w: World :|
        c' == After(AgentDecide(c.state, c.log, w), RouteDecision(AgentDecide(c.state, c.log, w).state));
      DecideInvariant(c, w);
      DecideKeeps(c.state, c.log, w);
    } else if c.node == Synthesis {
      var e: Effort :| c' == After(Synthesise(c.state, c.log, e), Assembly);
      SynthesisInvariant(c, e);
      SynthesisKeeps(c.state, c.log, e);
    }
  }

  /** The Provider fails. */
  function Failing(): World {
    World(Proceed, Ready, true, Ready, Raised, true, true, GaveUp(false), d => d, true)
  }

  /** The Provider asks for tools. */
  function Asking(): World {
    Failing().(reply := Replied(Parsed(Decision(true, false))))
  }

  /** A decision whose call fails. */
  function Failed(c: Config): Config {
    Config(Policy, SafeStop(c.state), Reserved(c.log, false, true).(uncounted := c.log.uncounted + 1))
  }

  lemma FailedNext(c: Config)
    requires c.node == Decide && c.state.candidate == None && BudgetLeft(c.state) && Reservable(c.log.run, false, true)
    ensures Next(c, Failed(c))
  {
    var o := AgentDecide(c.state, c.log, Failing());
    assert o == Returns(Failed(c).state, Failed(c).log);
    assert Failed(c) == After(o, RouteDecision(o.state));
    assert Decides(c, Failed(c));
  }

  /** A decision that asks for tools. */
  function Asked(c: Config): Config {
    Config(Tools, Publish(c.state, Decision(true, false), c.state.llmCalls + 1, false), Reserved(c.log, false, true))
  }

  lemma AskedNext(c: Config)
    requires c.node == Decide && c.state.candidate == None && BudgetLeft(c.state) && Reservable(c.log.run, false, true)
    requires !c.state.synthesisMode
    ensures Next(c, Asked(c))
  {
    var o := AgentDecide(c.state, c.log, Asking());
    assert o == Returns(Asked(c).state, Asked(c).log);
    assert Asked(c) == After(o, RouteDecision(o.state));
    assert Decides(c, Asked(c));
  }

  lemma RefusedNext(c: Config)
    requires c.node == Decide && c.state.candidate == None && BudgetLeft(c.state)
    requires c.log.run.leased && c.log.run.llmCalls >= MAX_LLM_CALLS
    ensures Next(c, c.(node := Aborted))
  {
    var o := AgentDecide(c.state, c.log, Failing());
    assert o == Aborts(c.state, c.log);
    assert c.(node := Aborted) == After(o, RouteDecision(o.state));
    assert Decides(c, c.(node := Aborted));
  }

  function Replan(c: Config): Config {
    Config(Decide, Replanned(c.state), c.log)
  }

  lemma ReplanNext(c: Config)
    requires c.node == Policy && MayReplan(c.state)
    ensures Next(c, Replan(c))
  {
  }

  lemma RunOfOne(c: Config)
    ensures IsRun([c])
  {
  }

  lemma RunGoesOn(run: seq<Config>, c: Config)
    requires IsRun(run) && Next(run[|run| - 1], c)
    ensures IsRun(run + [c])
  {
    hide Next;
    var more := run + [c];
    forall i | 0 <= i < |more| - 1 ensures Next(more[i], more[i + 1]) {
      assert i < |run| - 1 ==> Next(run[i], run[i + 1]);
    }
  }

  /** The counters around a failed call and the replan after it. */
  lemma FailedFields(c: Config)
    ensures var f := Failed(c);
      && f.node == Policy && f.state == SafeStop(c.state) && f.state.llmCalls == c.state.llmCalls
      && f.state.replanCount == c.state.replanCount && f.state.admitted == c.state.admitted
      && f.state.synthesisMode == c.state.synthesisMode
      && f.log.calls == c.log.calls + 1 && f.log.run == Reserve(c.log.run, false)
  {
  }

  lemma ReplanFields(c: Config)
    ensures var r := Replan(c);
      && r.node == Decide && r.state.candidate == None && r.state.llmCalls == c.state.llmCalls
      && r.state.admitted == c.state.admitted && r.state.synthesisMode == c.state.synthesisMode && r.log == c.log
  {
  }

  /** The run that fails a call and is replanned. */
  lemma FailedAndReplanned(start: Config) returns (run: seq<Config>)
    requires start.node == Decide && start.state.candidate == None && start.state.replanCount == 0
    requires BudgetLeft(start.state) && Reservable(start.log.run, false, true)
    ensures IsRun(run) && run == [start, Failed(start), Replan(Failed(start))]
  {
    hide Next, IsRun, Failed, Replan;
    FailedFields(start);
    FailedNext(start);
    ReplanNext(Failed(start));
    RunOfOne(start);
    RunGoesOn([start], Failed(start));
    RunGoesOn([start] + [Failed(start)], Replan(Failed(start)));
    run := [start] + [Failed(start)] + [Replan(Failed(start))];
  }

  /** A run without a lease that makes seven calls: the sixth fails, the gate replans, the seventh is made. */
  lemma SevenCalls() returns (run: seq<Config>)
    ensures IsRun(run) && Initial(run[0]) && run[|run| - 1].log.calls == MAX_LLM_CALLS + 1
  {
    hide Next, IsRun, Failed, Replan;
    var s := State(5, false, 0, false, false, false, false, None, false, false, false);
    var start := Config(Decide, s, Log(RunRow(false, 0, false), 0, 5, 0, 0, 0));
    run := FailedAndReplanned(start);
    var again := Replan(Failed(start));
    FailedFields(start);
    ReplanFields(Failed(start));
    FailedFields(again);
    FailedNext(again);
    RunGoesOn(run, Failed(again));
    run := run + [Failed(again)];
  }

  /** Another, in which the synthesis makes the seventh: on an admitted action the fifth call
      fails, the gate replans, and the next decision reads before the synthesis. */
  lemma SevenCallsBySynthesis() returns (run: seq<Config>)
    ensures IsRun(run) && Initial(run[0]) && run[|run| - 1].log.calls == MAX_LLM_CALLS + 1
    ensures |run| >= 2 && run[|run| - 2].node == Synthesis
  {
    hide Next, IsRun, Failed, Replan, Asked;
    var s := State(4, false, 0, false, false, true, false, None, false, false, false);
    var start := Config(Decide, s, Log(RunRow(false, 0, false), 0, 4, 0, 0, 0));
    run := FailedAndReplanned(start);
    var again := Replan(Failed(start));
    FailedFields(start);
    ReplanFields(Failed(start));
    AskedNext(again);
    AskedFields(again);
    var asked := Asked(again);
    RunGoesOn(run, asked);
    ReadNext(asked);
    RunGoesOn(run + [asked], asked.(node := Obligations));
    RunGoesOn(run + [asked] + [asked.(node := Obligations)], asked.(node := Synthesis));
    var last := SynthesisNext(asked.(node := Synthesis));
    run := run + [asked] + [asked.(node := Obligations)] + [asked.(node := Synthesis)];
    RunGoesOn(run, last);
    run := run + [last];
  }

  lemma AskedFields(c: Config)
    ensures var a := Asked(c);
      a.node == Tools && a.state.llmCalls == c.state.llmCalls + 1 && a.log.calls == c.log.calls + 1
      && a.log.run == Reserve(c.log.run, false)
  {
  }

  lemma ReadNext(c: Config)
    requires c.node == Tools
    ensures Next(c, c.(node := Obligations)) && Next(c.(node := Obligations), c.(node := Synthesis))
  {
  }

  lemma SynthesisNext(c: Config) returns (c': Config)
    requires c.node == Synthesis && !c.log.run.leased && c.state.llmCalls < MAX_LLM_CALLS
    ensures Next(c, c') && c'.log.calls == c.log.calls + 1
  {
    var e := Effort(Synthesised, true, Synthesised, true, true);
    c' := After(Synthesise(c.state, c.log, e), Assembly);
    assert Synthesises(c, c');
  }

  /** The first run under a lease: the seventh call is refused before the Provider is
      reached, and the refusal ends the run as an exception. */
  lemma LeasedRunAborts() returns (run: seq<Config>)
    ensures IsRun(run) && Initial(run[0]) && run[0].log.run.leased
    ensures var last := run[|run| - 1];
      last.node == Aborted && last.log.calls == MAX_LLM_CALLS && last.state.llmCalls < MAX_LLM_CALLS
  {
    hide Next, IsRun, Failed, Replan;
    var s := State(5, false, 0, false, false, false, false, None, false, false, false);
    var start := Config(Decide, s, Log(RunRow(true, 5, false), 0, 5, 0, 0, 0));
    run := FailedAndReplanned(start);
    var again := Replan(Failed(start));
    FailedFields(start);
    ReplanFields(Failed(start));
    RefusedNext(again);
    RunGoesOn(run, again.(node := Aborted));
    run := run + [again.(node := Aborted)];
  }

  /** Two calls uncounted in one step: the lease is lost before the attempt of the repair ends. */
  lemma LostRepair()
    ensures exists s: State, log: Log, w: World ::
      && log.run.leased && s.llmCalls == log.calls && log.uncounted == 0
      && var o := AgentDecide(s, log, w);
         o.Aborts? && o.state == s && o.log.uncounted == 2
  {
    var s := State(0, false, 0, false, false, false, false, None, false, false, false);
    var log := Log(RunRow(true, 0, false), 0, 0, 0, 0, 0);
    var w := Failing().(reply := Replied(Malformed(false, true)), repair := RepairEscapes(true));
    assert AgentDecide(s, log, w) == Aborts(s, Log(RunRow(true, 2, true), 1, 2, 2, 0, 0));
  }

  // ----- restarts of a leased run -----

  /** A job taken up again from any checkpoint: `ingest_ticket` raises the counter to the
      run's and remembers its repair; nothing durable is lost. */
  ghost predicate Resumes(c: Config, c': Config) {
    && c'.log == c.log && c'.node != Aborted
    && c.log.run.llmCalls <= c'.state.llmCalls <= MAX_LLM_CALLS
    && (c.log.run.repaired ==> c'.state.repairUsed)
  }

  /** Any number of runs of one leased job, cut off anywhere and resumed from any state. */
  ghost predicate IsHistory(history: seq<Config>) {
    history != [] && forall i :: 0 <= i < |history| - 1 ==>
      Next(history[i], history[i + 1]) || Resumes(history[i], history[i + 1])
  }

  lemma NextReserves(c: Config, c': Config)
    requires c.log.run.leased && Reserves(c) && c.state.llmCalls <= MAX_LLM_CALLS && Next(c, c')
    ensures c'.log.run.leased && Reserves(c') && c'.state.llmCalls <= MAX_LLM_CALLS
  {
    hide AgentDecide, Synthesise;
    if c.node == Decide {
      var w: World :|
        c' == After(AgentDecide(c.state, c.log, w), RouteDecision(AgentDecide(c.state, c.log, w).state));
      DecideKeeps(c.state, c.log, w);
    } else if c.node == Synthesis {
      var e: Effort :| c' == After(Synthesise(c.state, c.log, e), Assembly);
      SynthesisKeeps(c.state, c.log, e);
    }
  }

  /** Across all restarts of a leased run at most six Provider calls and one repair are made. */
  lemma {:induction false} LeasedCallsHold(history: seq<Config>, i: nat)
    requires IsHistory(history) && i < |history|
    requires history[0].log.run.leased && Reserves(history[0]) && history[0].state.llmCalls <= MAX_LLM_CALLS
    ensures history[i].log.calls <= history[i].log.run.llmCalls <= MAX_LLM_CALLS && history[i].log.repairs <= 1
    ensures history[i].log.run.leased && Reserves(history[i]) && history[i].state.llmCalls <= MAX_LLM_CALLS
  {
    hide Next;
    if i > 0 {
      LeasedCallsHold(history, i - 1);
      if Next(history[i - 1], history[i]) {
        NextReserves(history[i - 1], history[i]);
      }
    }
  }
}
