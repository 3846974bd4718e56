/**
 Properties of every run of the workflow: how the gates are ordered before anything is published,
 and how often evidence can be gathered.
*/
module WorkflowRuns {
  import opened Basics
  import opened InvestigationLoop
  import opened ToolBudget
  import opened Workflow

  /******* Location *******/

  lemma ReadyAlone(node: Node)
    ensures Ready({node}) == {node}
  {
  }

  /** A superstep with a single pending node runs it and leaves its successors. */
  lemma StepAlone(m: Machine, m': Machine, node: Node, config: Config)
    requires m.pending == {node} && Next(m, m', config)
    ensures m'.pending == Successors(node, m'.state) && Effect(node, m.state, m'.state, config)
    ensures m'.trace == m.trace + [Step({node}, m'.state.approved, m'.state.publishApproved)]
  {
    ReadyAlone(node);
    TriggeredByOne(node, m'.state);
  }

  lemma CollectedGrows(trace: seq<Step>, step: Step)
    requires Collected(trace)
    ensures Collected(trace + [step])
  {
  }

  lemma OpenGrows(trace: seq<Step>, step: Step, node: Node)
    requires Open(trace) && step.ran == {node} && Investigates(node)
    ensures Open(trace + [step])
  {
  }

  lemma OpenStep(m: Machine, m': Machine, node: Node, config: Config)
    requires Open(m.trace) && m.pending == {node} && Investigates(node) && Next(m, m', config)
    ensures Located(m')
  {
    hide Next, Effect, Triggered, Ready;
    StepAlone(m, m', node, config);
    assert Open(m'.trace) by { OpenGrows(m.trace, Step({node}, m'.state.approved, m'.state.publishApproved), node); }
    if node == HumanReview && m'.state.approved {
      assert AtClosing(m', 1);
    } else {
      var next :| Successors(node, m'.state) == {next};
      assert Investigates(next);
    }
  }

  lemma ClosingGrows(trace: seq<Step>, step: Step, k: nat)
    requires k < 5 && Closing(trace, k) && step.ran == {ClosingNode(k)}
    requires k == 4 ==> trace[|trace| - 1].publishApproved
    ensures Closing(trace + [step], k + 1)
  {
    var after, n := trace + [step], |trace|;
    forall j | 0 <= j < k + 1 ensures after[|after| - (k + 1) + j].ran == {ClosingNode(j)} {
      if j < k { assert after[n - k + j] == trace[n - k + j]; }
    }
    forall i | 0 <= i <= |after| - (k + 1) ensures BeforeClosing(after[i].ran) {
      assert after[i] == trace[i];
    }
    assert after[n - k] == trace[n - k];
    assert k == 4 ==> after[|after| - 2] == trace[n - 1];
  }

  lemma ClosingStep(m: Machine, m': Machine, k: nat, config: Config)
    requires AtClosing(m, k) && Next(m, m', config)
    ensures AtClosing(m', k + 1)
  {
    assert m.pending == {ClosingNode(k)};
    StepAlone(m, m', ClosingNode(k), config);
    ClosingGrows(m.trace, m'.trace[|m.trace|], k);
    hide Next, Effect, Triggered, Ready, Closing;
  }

  lemma LocatedStep(m: Machine, m': Machine, config: Config)
    requires Collected(m.trace) && Located(m) && Next(m, m', config)
    ensures Collected(m'.trace) && Located(m')
  {
    CollectedGrows(m.trace, m'.trace[|m.trace|]);
    hide Collected;
    if Open(m.trace) && exists node :: m.pending == {node} && Investigates(node) {
      var node :| m.pending == {node} && Investigates(node);
      OpenStep(m, m', node, config);
    } else {
      var k :| 1 <= k <= 5 && AtClosing(m, k);
      ClosingStep(m, m', k, config);
      assert 1 <= k + 1 <= 5;
    }
  }

  /** Every machine of a run is collecting, or has collected and sits in a known phase. */
  lemma {:induction false} RunPlaced(run: seq<Machine>, config: Config, i: nat)
    requires IsRun(run, config) && i < |run|
    ensures Placed(run[i])
  {
    if i > 0 {
      RunPlaced(run, config, i - 1);
      assert Next(run[i - 1], run[i - 1 + 1], config);
      if Collecting(run[i - 1]) {
        CollectingStep(run[i - 1], run[i], config);
      } else {
        LocatedStep(run[i - 1], run[i], config);
      }
    }
  }

  /******* Gates *******/

  ghost predicate Ran(trace: seq<Step>, i: nat, node: Node)
    requires i < |trace|
  {
    node in trace[i].ran
  }

  /**
   Publication comes after an approving human review and then an approving publish review, and
   nothing is interpreted again between the former and the publication.
  */
  lemma PublishIsGated(run: seq<Machine>, config: Config, p: nat)
    requires IsRun(run, config)
    requires p < |run[|run| - 1].trace| && Ran(run[|run| - 1].trace, p, Publish)
    ensures
      var trace := run[|run| - 1].trace;
      && p >= 4
      && Ran(trace, p - 4, HumanReview) && trace[p - 4].approved
      && Ran(trace, p - 1, PublishReview) && trace[p - 1].publishApproved
      && forall i :: p - 4 < i < |trace| ==> !Ran(trace, i, Interpret)
  {
    RunPlaced(run, config, |run| - 1);
    var m := run[|run| - 1];
    var k := ClosingAt(m, p);
    hide Placed, IsRun, BeforeClosing;
    var j := p - (|m.trace| - k);
    assert m.trace[|m.trace| - k + j].ran == {ClosingNode(j)};
    assert j == 4 && k == 5;
    assert m.trace[|m.trace| - k + 0].ran == {ClosingNode(0)} && m.trace[|m.trace| - k + 3].ran == {ClosingNode(3)};
    forall i | p - 4 < i < |m.trace| ensures !Ran(m.trace, i, Interpret) {
      assert m.trace[|m.trace| - k + (i - (p - 4))].ran == {ClosingNode(i - (p - 4))};
    }
  }

  /** A step that runs a node of the closing path lies on it, past the review that opened it. */
  lemma ClosingAt(m: Machine, p: nat) returns (k: nat)
    requires Placed(m) && p < |m.trace| && !BeforeClosing(m.trace[p].ran)
    ensures Closing(m.trace, k) && p > |m.trace| - k
  {
    assert Collecting(m) ==> m.trace[p].ran == Collection(p);
    assert !Collecting(m);
    hide Collected, Collecting;
    assert !Open(m.trace);
    k :| 1 <= k <= 5 && AtClosing(m, k);
  }

  ghost predicate ClosingOnly(ran: set<Node>) {
    ran <= {DraftPostmortem, PublishReview, Publish}
  }

  /** After `deep_rca` only drafting and publishing follow: it runs once, and nothing is investigated again. */
  lemma DeepRcaIsFinal(run: seq<Machine>, config: Config, i: nat, j: nat)
    requires IsRun(run, config)
    requires i < j < |run[|run| - 1].trace| && Ran(run[|run| - 1].trace, i, DeepRca)
    ensures ClosingOnly(run[|run| - 1].trace[j].ran)
    ensures i > 0 && Ran(run[|run| - 1].trace, i - 1, HumanReview) && run[|run| - 1].trace[i - 1].approved
  {
    RunPlaced(run, config, |run| - 1);
    var m := run[|run| - 1];
    var k := ClosingAt(m, i);
    var base := |m.trace| - k;
    assert m.trace[base + (i - base)].ran == {ClosingNode(i - base)};
    assert i - base == 1;
    assert m.trace[base + 0].ran == {ClosingNode(0)};
    assert m.trace[base + (j - base)].ran == {ClosingNode(j - base)};
  }

  /** The join runs once, in the superstep after the logs are normalized, when all three collectors are done. */
  lemma JoinWaitsForAll(run: seq<Machine>, config: Config, i: nat)
    requires IsRun(run, config)
    requires i < |run[|run| - 1].trace| && i < 15
    ensures Ran(run[|run| - 1].trace, i, AggregateByLabels) <==> i == 5
    ensures run[|run| - 1].trace[i].ran == [
      {IngestAlert}, {ClassifySeverity}, {PlanCollection}, {GatherLogs, GatherMetrics, GatherDeploys}, {NormalizeLogs},
      {AggregateByLabels}, {ApplyDetectionRules}, {EnrichGroups}, {ExtractFeatures}, {Correlate}, {ReassessSeverity},
      {ScopeExpansion}, {ScoreCandidates}, {BuildLlmContext}, {BuildEvidencePack}][i]
  {
    RunPlaced(run, config, |run| - 1);
    hide Open, Located;
  }

  /******* How often evidence is gathered *******/

  function MaxRounds(config: Config): int {
    InitializeLoop(NOTHING, config.defaults).maxRounds
  }

  function MaxBytes(config: Config): int {
    InitializeLoop(NOTHING, config.defaults).maxBytes
  }

  /** A model may call a tool, and the smallest result with a record leaves some of the byte budget. */
  predicate Room(config: Config) {
    config.toolCalling && config.maxCalls >= 1 && config.least < MaxBytes(config)
  }

  /** The correlations one budget of rounds allows: a second one needs room for new evidence. */
  function Cap(config: Config): int {
    if Room(config) then MaxRounds(config) else 1
  }

  /** What every state of a run keeps of the loop record and the tool entries. */
  ghost predicate Sane(state: Routing, config: Config) {
    && Filled(state.loop) && state.loop.maxRounds == MaxRounds(config) && state.loop.maxBytes == MaxBytes(config)
    && state.loop.usedBytes <= state.loop.maxBytes && Paid(Session(state.loop, state.tools), config.least)
  }

  /** Traces with records come from a tool call, and from a result whose bytes were counted. */
  ghost predicate Sourced(state: Routing, config: Config) {
    Records(state.traces) > 0 ==> config.toolCalling && config.maxCalls >= 1 && config.least <= state.loop.usedBytes
  }

  /** Each correlation so far that led to another has cost two requests. */
  ghost predicate Charged(m: Machine, config: Config) {
    var repeats := Executions(m.trace, Semantic) - Executions(m.trace, Reinvestigate);
    && m.state.requests <= config.maxRequests
    && (if Collecting(m) then repeats == 0
        else if m.pending == {Semantic} then 2 * repeats <= m.state.requests
        else if m.pending == {Integrate} then
          2 * (if Records(m.state.traces) > 0 then repeats else repeats - 1) <= m.state.requests
        else 2 * (repeats - 1) <= m.state.requests)
  }

  /** Rounds spent so far, against what reviews have handed out. */
  ghost predicate Budgeted(m: Machine, config: Config) {
    var spent, granted, cap := Executions(m.trace, Semantic), Executions(m.trace, Reinvestigate), Cap(config);
    && Sane(m.state, config)
    && granted + (if Reinvestigate in m.pending then 1 else 0) <= Rejections(m.trace)
    && (if Collecting(m) then spent == 0 && granted == 0 && m.state.loop.round == 0
        else if m.pending == {Semantic} then 0 <= m.state.loop.round < cap && spent <= granted * cap + m.state.loop.round
        else if m.pending == {Integrate} then
          0 <= m.state.loop.round < cap && spent <= granted * cap + m.state.loop.round + 1 && Sourced(m.state, config)
        else spent <= granted * cap + cap)
    && (m.pending == {Interpret} ==> Stopped(m.state.loop))
  }

  /** The loop has decided to stop after a round. */
  ghost predicate Stopped(loop: Loop) {
    loop.stopReason.Some? && loop.round > 0
  }

  lemma ExecutionsStep(trace: seq<Step>, step: Step, node: Node)
    ensures Executions(trace + [step], node) == Executions(trace, node) + if node in step.ran then 1 else 0
    ensures Rejections(trace + [step]) == Rejections(trace) + if HumanReview in step.ran && !step.approved then 1 else 0
  {
    assert (trace + [step])[..|trace|] == trace;
  }

  lemma CollectingBudget(m: Machine, m': Machine, config: Config)
    requires Collecting(m) && Next(m, m', config) && Budgeted(m, config)
    ensures Budgeted(m', config)
  {
    var n := |m.trace|;
    CollectingStep(m, m', config);
    ReadyToCollect(n);
    var step := m'.trace[n];
    ExecutionsStep(m.trace, step, Semantic);
    ExecutionsStep(m.trace, step, Reinvestigate);
    CollectorsKeepLoop(m, m', config);
    CollectionFollows(n, m'.state);
    CollectionAvoids(n);
    CollectionAvoids(n + 1);
    assert n == 14 ==> m'.pending == {Semantic};
    hide Collection, Triggered, Effect, Executions, Rejections, Located, Open, Sane, Room;
  }

  /** Before the investigation nothing is correlated, interpreted, reviewed or reinvestigated. */
  lemma CollectionAvoids(i: nat)
    requires i < 16
    ensures Reinvestigate !in Collection(i) && HumanReview !in Collection(i) && Interpret !in Collection(i)
    ensures i < 15 ==> Semantic !in Collection(i)
  {
  }

  lemma CollectorsKeepLoop(m: Machine, m': Machine, config: Config)
    requires Collecting(m) && Next(m, m', config) && Sane(m.state, config)
    ensures m'.state.loop == m.state.loop && m'.state.requests == m.state.requests && Sane(m'.state, config)
  {
    ReadyToCollect(|m.trace|);
    var node := CollectionNode(|m.trace|);
    assert node in Ready(m.pending);
    InitializeLoopAgain(m.state.loop, config.defaults);
    hide Filled, Next, Collecting;
  }

  lemma InitializeLoopAgain(loop: Loop, defaults: Defaults)
    requires Filled(loop)
    ensures InitializeLoop(Stored(loop), defaults) == loop
  {
  }

  /** What one step with a single pending node does to the counts. */
  lemma CountsAlone(m: Machine, m': Machine, node: Node, config: Config)
    requires m.pending == {node} && Next(m, m', config)
    ensures Executions(m'.trace, Semantic) == Executions(m.trace, Semantic) + if node.Semantic? then 1 else 0
    ensures Executions(m'.trace, Reinvestigate) == Executions(m.trace, Reinvestigate) + if node.Reinvestigate? then 1 else 0
    ensures Rejections(m'.trace) == Rejections(m.trace) + if node.HumanReview? && !m'.state.approved then 1 else 0
  {
    StepAlone(m, m', node, config);
    ExecutionsStep(m.trace, m'.trace[|m.trace|], Semantic);
    ExecutionsStep(m.trace, m'.trace[|m.trace|], Reinvestigate);
  }

  lemma CollectedIsNotCollecting(m: Machine)
    requires Collected(m.trace)
    ensures !Collecting(m)
  {
  }

  /******* What the nodes of the investigation do to the loop *******/

  lemma NoRecords(traces: seq<Trace>)
    requires forall t :: t in traces ==> t.records == 0
    ensures Records(traces) == 0
  {
    if traces != [] {
      NoRecords(traces[..|traces| - 1]);
      assert traces[|traces| - 1] in traces;
    }
  }

  lemma ToolsEffect(state: Routing, calls: seq<ToolCall>, config: Config)
    requires Sane(state, config) && Callable(calls, config)
    ensures
      var done := RunTools(SessionOf(state, config), calls);
      var after := AfterTools(state, done);
      && Sane(after, config) && SameControl(state.loop, after.loop)
      && Sourced(after.(traces := done.traces), config)
  {
    InitializeLoopAgain(state.loop, config.defaults);
    var session := SessionOf(state, config);
    SessionKeepsBudgets(session, calls);
    SessionPays(session, calls, config.least);
    var done := RunTools(session, calls);
    hide RunTools, Filled, Within, Paid, Weighty;
    if Records(done.traces) > 0 {
      if forall t :: t in done.traces ==> t.records == 0 { NoRecords(done.traces); }
      assert |calls| >= 1;
    }
  }

  lemma SemanticEffect(before: Routing, after: Routing, config: Config)
    requires Sane(before, config) && Correlates(before, after, config)
    ensures Sane(after, config) && SameControl(before.loop, after.loop) && Sourced(after, config)
  {
    hide RunTools, Paid;
    if after != before.(traces := [], requests := after.requests) {
      var calls :| Callable(calls, config) && Searches(before, after, calls, config);
      ToolsEffect(before, calls, config);
      hide Sane;
    }
  }

  lemma InterpretEffect(before: Routing, after: Routing, config: Config)
    requires Sane(before, config) && Interprets(before, after, config)
    ensures Sane(after, config) && SameControl(before.loop, after.loop)
    ensures Stopped(before.loop) ==> OnlyNoted(before, after) && Charges(before, after, config)
  {
    if after != before.(requests := after.requests) {
      var calls :| Callable(calls, config) && Consults(before, after, calls, config);
      ToolsEffect(before, calls, config);
      InitializeLoopAgain(before.loop, config.defaults);
      if Stopped(before.loop) { StoppedLoopRefuses(SessionOf(before, config), calls); }
    }
    hide RunTools, Sane;
  }

  /** Equal but for the clock, the request count, and notes of refused calls at the end of the history. */
  ghost predicate OnlyNoted(before: Routing, after: Routing) {
    var history := after.tools.history;
    && after == before.(loop := before.loop.(elapsed := after.loop.elapsed), requests := after.requests,
                        tools := before.tools.(history := history))
    && before.tools.history <= history
    && forall i :: |before.tools.history| <= i < |history| ==> Refusal(history[i])
  }

  /** A continue decision needs another round, bytes to spare, and a record from some trace. */
  lemma IntegrateEffect(before: Routing, after: Routing, integrated: nat, elapsed: real, ids: set<string>, config: Config)
    requires Sane(before, config) && Integrates(before, after, integrated, elapsed, ids, config)
    ensures Sane(after, config) && after.loop.round == before.loop.round + 1
    ensures after.loop.continuing ==>
      after.loop.round < after.loop.maxRounds && before.loop.usedBytes < before.loop.maxBytes && Records(before.traces) > 0
    ensures !after.loop.continuing ==> after.loop.stopReason.Some?
  {
    InitializeLoopAgain(before.loop, config.defaults);
    var e := Evidence(after.recommended, Results(before.traces), after.sourceFailures, integrated,
                      before.tools.maxRemote, before.tools.usedRemote, elapsed, ids);
    RoundsRunOut(Stored(before.loop), config.defaults, e);
    ContinuesExactlyWhen(Stored(before.loop), config.defaults, e);
    assert after.loop.usedBytes == before.loop.usedBytes && after.loop.maxBytes == before.loop.maxBytes;
    hide Records, Results, Decide, ResultFailed;
  }

  lemma ReinvestigateEffect(before: Routing, after: Routing, config: Config)
    requires Sane(before, config) && Effect(Reinvestigate, before, after, config)
    ensures Sane(after, config) && after.loop.round == 0
  {
    FeedbackResets(before.loop, config.defaults);
  }

  /** A round that goes on has room, so it stays under the cap. */
  lemma ContinuesUnderCap(before: Routing, after: Routing, integrated: nat, elapsed: real, ids: set<string>, config: Config)
    requires Sane(before, config) && Integrates(before, after, integrated, elapsed, ids, config)
    requires Sourced(before, config) && after.loop.continuing
    ensures after.loop.round < Cap(config)
  {
    IntegrateEffect(before, after, integrated, elapsed, ids, config);
    hide Integrates, Records;
  }

  lemma OpenBudget(m: Machine, m': Machine, node: Node, config: Config)
    requires Collected(m.trace) && m.pending == {node} && Investigates(node) && Next(m, m', config) && Budgeted(m, config)
    ensures Collected(m'.trace) ==> Budgeted(m', config)
  {
    StepAlone(m, m', node, config);
    CountsAlone(m, m', node, config);
    CollectedIsNotCollecting(m);
    if Collected(m'.trace) {
      CollectedIsNotCollecting(m');
      NodeBudget(m, m', node, config);
    }
  }

  /** What the step of one investigating node needs for the budget to carry on. */
  lemma NodeBudget(m: Machine, m': Machine, node: Node, config: Config)
    requires !Collecting(m) && !Collecting(m') && m.pending == {node} && Investigates(node) && Budgeted(m, config)
    requires m'.pending == Successors(node, m'.state) && Effect(node, m.state, m'.state, config)
    requires Executions(m'.trace, Semantic) == Executions(m.trace, Semantic) + if node.Semantic? then 1 else 0
    requires Executions(m'.trace, Reinvestigate) == Executions(m.trace, Reinvestigate) + if node.Reinvestigate? then 1 else 0
    requires Rejections(m'.trace) == Rejections(m.trace) + if node.HumanReview? && !m'.state.approved then 1 else 0
    ensures Budgeted(m', config)
  {
    hide Executions, Rejections, Collecting, Collected;
    assert Cap(config) >= 1;
    match node
    case Semantic =>
      SemanticEffect(m.state, m'.state, config);
    case Interpret =>
      InterpretEffect(m.state, m'.state, config);
    case Integrate =>
      var integrated, elapsed, ids :| Integrates(m.state, m'.state, integrated, elapsed, ids, config);
      IntegrateEffect(m.state, m'.state, integrated, elapsed, ids, config);
      if m'.state.loop.continuing { ContinuesUnderCap(m.state, m'.state, integrated, elapsed, ids, config); }
    case Reinvestigate =>
      ReinvestigateEffect(m.state, m'.state, config);
      var granted, cap := Executions(m.trace, Reinvestigate), Cap(config);
      assert (granted + 1) * cap == granted * cap + cap;
    case HumanReview =>
    case _ =>
  }

  /** The nodes after an approving review leave the loop and the tool entries alone and schedule no investigation. */
  lemma ClosingKeeps(m: Machine, m': Machine, k: nat, config: Config)
    requires AtClosing(m, k) && k < 5 && m.pending == {ClosingNode(k)} && Next(m, m', config)
    ensures m'.state.loop == m.state.loop && m'.state.tools == m.state.tools
    ensures ClosingNode(k) != Semantic && ClosingNode(k) != Reinvestigate && ClosingNode(k) != HumanReview
    ensures m.pending != {Semantic} && m.pending != {Integrate}
    ensures m'.pending != {Semantic} && m'.pending != {Integrate} && m'.pending != {Interpret} && Reinvestigate !in m'.pending
  {
    StepAlone(m, m', ClosingNode(k), config);
    hide Next, Closing;
  }

  lemma ClosingBudget(m: Machine, m': Machine, k: nat, config: Config)
    requires Collected(m.trace) && AtClosing(m, k) && Next(m, m', config) && Budgeted(m, config)
    ensures Collected(m'.trace) ==> Budgeted(m', config)
  {
    var node := ClosingNode(k);
    assert m.pending == {node};
    ClosingKeeps(m, m', k, config);
    hide Effect, Successors, ClosingNode, Closing, AtClosing, Collected, Collecting, Next, Executions, Rejections, Triggered, Ready, Sane, Room, Sourced;
    StepAlone(m, m', node, config);
    CountsAlone(m, m', node, config);
    CollectedIsNotCollecting(m);
    if Collected(m'.trace) { CollectedIsNotCollecting(m'); }
  }

  lemma LocatedBudget(m: Machine, m': Machine, config: Config)
    requires Collected(m.trace) && Located(m) && Next(m, m', config) && Budgeted(m, config)
    ensures Budgeted(m', config)
  {
    LocatedStep(m, m', config);
    hide Collected, Budgeted;
    if Open(m.trace) && exists node :: m.pending == {node} && Investigates(node) {
      var node :| m.pending == {node} && Investigates(node);
      OpenBudget(m, m', node, config);
    } else {
      var k :| 1 <= k <= 5 && AtClosing(m, k);
      ClosingBudget(m, m', k, config);
    }
  }

  lemma StartBudgeted(m: Machine, config: Config)
    requires Start(m, config)
    ensures Placed(m) && Budgeted(m, config)
  {
  }

  lemma {:induction false} RunBudgeted(run: seq<Machine>, config: Config, i: nat)
    requires IsRun(run, config) && i < |run|
    ensures Placed(run[i]) && Budgeted(run[i], config)
  {
    RunPlaced(run, config, i);
    if i == 0 {
      StartBudgeted(run[0], config);
    } else {
      RunBudgeted(run, config, i - 1);
      assert Next(run[i - 1], run[i - 1 + 1], config);
      hide Placed, Budgeted;
      PlacedBudget(run[i - 1], run[i], config);
    }
  }

  lemma PlacedBudget(m: Machine, m': Machine, config: Config)
    requires Placed(m) && Next(m, m', config) && Budgeted(m, config)
    ensures Budgeted(m', config)
  {
    hide Next, Budgeted, Located;
    if Collecting(m) {
      CollectingBudget(m, m', config);
    } else {
      LocatedBudget(m, m', config);
    }
  }

  /******* What the rounds cost in model requests *******/

  lemma RunCharged(run: seq<Machine>, config: Config, i: nat)
    requires IsRun(run, config) && i < |run|
    ensures Charged(run[i], config)
  {
    if i > 0 {
      RunCharged(run, config, i - 1);
      RunPlaced(run, config, i - 1);
      RunBudgeted(run, config, i - 1);
      assert Next(run[i - 1], run[i - 1 + 1], config);
      BudgetedIsSane(run[i - 1], config);
      hide Budgeted, Charged, Next, Placed;
      PlacedCharged(run[i - 1], run[i], config);
    }
  }

  lemma PlacedCharged(m: Machine, m': Machine, config: Config)
    requires Placed(m) && Sane(m.state, config) && Next(m, m', config) && Charged(m, config)
    ensures Charged(m', config)
  {
    if Collecting(m) {
      CollectingCharged(m, m', config);
    } else {
      LocatedStep(m, m', config);
      CollectedIsNotCollecting(m');
      var node := LocatedAlone(m);
      StepAlone(m, m', node, config);
      CountsAlone(m, m', node, config);
      hide Next, Collected, Collecting, Located;
      NodeCharged(m, m', node, config);
    }
  }

  lemma CollectingCharged(m: Machine, m': Machine, config: Config)
    requires Collecting(m) && Sane(m.state, config) && Next(m, m', config) && Charged(m, config)
    ensures Charged(m', config)
  {
    var n := |m.trace|;
    CollectingStep(m, m', config);
    ReadyToCollect(n);
    CollectorsKeepLoop(m, m', config);
    ExecutionsStep(m.trace, m'.trace[n], Semantic);
    ExecutionsStep(m.trace, m'.trace[n], Reinvestigate);
    CollectionFollows(n, m'.state);
    CollectionAvoids(n);
    assert n == 14 ==> m'.pending == {Semantic};
    hide Collection, Triggered, Effect, Executions, Located, Sane, Successors, Ready;
  }

  predicate Late(node: Node) {
    Investigates(node) || node.DeepRca? || node.DraftPostmortem? || node.PublishReview? || node.Publish?
  }

  lemma LocatedAlone(m: Machine) returns (node: Node)
    requires Located(m) && m.pending != {}
    ensures m.pending == {node} && Late(node)
  {
    if Open(m.trace) && exists node :: m.pending == {node} && Investigates(node) {
      node :| m.pending == {node} && Investigates(node);
    } else {
      var k :| 1 <= k <= 5 && AtClosing(m, k);
      node := ClosingNode(k);
    }
  }

  lemma NodeCharged(m: Machine, m': Machine, node: Node, config: Config)
    requires !Collecting(m) && !Collecting(m') && m.pending == {node} && Late(node) && Sane(m.state, config) && Charged(m, config)
    requires m'.pending == Successors(node, m'.state) && Effect(node, m.state, m'.state, config)
    requires Executions(m'.trace, Semantic) == Executions(m.trace, Semantic) + if node.Semantic? then 1 else 0
    requires Executions(m'.trace, Reinvestigate) == Executions(m.trace, Reinvestigate) + if node.Reinvestigate? then 1 else 0
    ensures Charged(m', config)
  {
    hide Executions, Collecting, Sane;
    match node
    case Semantic =>
      SemanticCharges(m.state, m'.state, config);
    case Integrate =>
      var integrated, elapsed, ids :| Integrates(m.state, m'.state, integrated, elapsed, ids, config);
      IntegrateEffect(m.state, m'.state, integrated, elapsed, ids, config);
    case _ =>
  }

  /** Traces with records are left by two requests at least. */
  lemma SemanticCharges(before: Routing, after: Routing, config: Config)
    requires Correlates(before, after, config)
    ensures Charges(before, after, config) && (Records(after.traces) > 0 ==> after.requests >= before.requests + 2)
  {
    if after != before.(traces := [], requests := after.requests) {
      var calls :| Callable(calls, config) && Searches(before, after, calls, config);
    }
  }

  /** What k rejections allow: a closing correlation for each budget of rounds, and as many others as rounds and requests last. */
  function MostCorrelations(k: nat, config: Config): int {
    k + 1 + Min((k + 1) * (Cap(config) - 1), config.maxRequests / 2)
  }

  /**
   With k rejecting reviews, `semantic_correlate` runs at most (k + 1) * max_rounds times, and at most
   k + 1 times when the settings leave no room for new evidence: each review hands out a whole new
   budget of rounds, and between reviews no more than that is spent.  The requests of an incident are
   handed out once, and all but the last correlation of a budget take two of them.
  */
  lemma RoundsAreBounded(run: seq<Machine>, config: Config)
    requires IsRun(run, config)
    ensures
      var trace := run[|run| - 1].trace;
      && 1 <= Cap(config) <= MaxRounds(config)
      && Executions(trace, Reinvestigate) <= Rejections(trace)
      && Executions(trace, Semantic) <= MostCorrelations(Rejections(trace), config)
      && MostCorrelations(Rejections(trace), config) <= (Rejections(trace) + 1) * MaxRounds(config)
  {
    RunBudgeted(run, config, |run| - 1);
    RunCharged(run, config, |run| - 1);
    var m, cap, max := run[|run| - 1], Cap(config), MaxRounds(config);
    BudgetMeans(m, config);
    hide Cap, MaxRounds, Executions, Rejections, Charged, Budgeted, Placed, IsRun, Next;
    RoundsWithin(Executions(m.trace, Semantic), Executions(m.trace, Reinvestigate), Rejections(m.trace), cap, max, config.maxRequests);
  }

  lemma BudgetMeans(m: Machine, config: Config)
    requires Budgeted(m, config) && Charged(m, config)
    ensures 2 * (Executions(m.trace, Semantic) - Executions(m.trace, Reinvestigate) - 1) <= config.maxRequests
    ensures 1 <= Cap(config) <= MaxRounds(config) && Executions(m.trace, Reinvestigate) <= Rejections(m.trace)
    ensures Executions(m.trace, Semantic) <= Executions(m.trace, Reinvestigate) * Cap(config) + Cap(config)
  {
    hide Executions, Rejections, Collecting;
  }

  lemma RoundsWithin(spent: int, granted: int, rejected: int, cap: int, max: int, limit: int)
    requires spent <= granted * cap + cap && 2 * (spent - granted - 1) <= limit && granted <= rejected && 1 <= cap <= max
    ensures spent <= rejected + 1 + Min((rejected + 1) * (cap - 1), limit / 2)
    ensures rejected >= 0 ==> rejected + 1 + Min((rejected + 1) * (cap - 1), limit / 2) <= (rejected + 1) * max
  {
    assert (rejected + 1) * (cap - 1) == granted * cap + cap + (rejected - granted) * (cap - 1) - granted - 1;
    assert (rejected - granted) * (cap - 1) >= 0;
    if rejected >= 0 { assert (rejected + 1) * (max - cap) >= 0; }
  }

  /**
   Whenever `interpret_incident` is about to run, the loop has stopped after a round, so its tool
   session refuses every call: interpreting makes model requests within their limit and notes the time
   and the refusals, and changes nothing else.
  */
  lemma InterpretingUsesNothing(run: seq<Machine>, config: Config, i: nat)
    requires IsRun(run, config) && i + 1 < |run| && run[i].pending == {Interpret}
    ensures OnlyNoted(run[i].state, run[i + 1].state) && Charges(run[i].state, run[i + 1].state, config)
  {
    RunBudgeted(run, config, i);
    assert Next(run[i], run[i + 1], config);
    StepAlone(run[i], run[i + 1], Interpret, config);
    hide Placed, Next, Sane, Executions, Rejections, Collecting;
    assert Interprets(run[i].state, run[i + 1].state, config);
    BudgetedIsSane(run[i], config);
    InterpretEffect(run[i].state, run[i + 1].state, config);
  }

  lemma BudgetedIsSane(m: Machine, config: Config)
    requires Budgeted(m, config)
    ensures Sane(m.state, config)
  {
  }
}
