/**
 What the mode of an investigation means for its whole run: the remote units allotted at the start, and
 what a conclusive assessment without failed sources rules out from then on.
*/
module WorkflowModes {
  import opened InvestigationLoop
  import opened ToolBudget
  import opened Workflow
  import opened WorkflowRuns

  /** A failed source always asks for more evidence. */
  ghost predicate FailuresAsk(state: Routing) {
    state.sourceFailures != [] ==> state.recommended
  }

  /** One of three allotments; nothing is allotted only where nothing is left to ask, and then nothing is found. */
  ghost predicate Allotted(state: Routing) {
    && state.tools.maxRemote in {0, 2, 5}
    && (state.tools.maxRemote == 0 ==> !state.recommended && state.sourceFailures == [] && state.traces == [])
  }

  /** Without remote units each budget of rounds sees one correlation. */
  ghost predicate OneEach(m: Machine) {
    m.state.tools.maxRemote == 0 ==>
      Executions(m.trace, Semantic) <= Executions(m.trace, Reinvestigate) + if m.pending == {Semantic} then 0 else 1
  }

  ghost predicate Moded(m: Machine) {
    && (|m.trace| >= 13 ==> FailuresAsk(m.state))
    && (if |m.trace| >= 14 then Allotted(m.state) else m.state.traces == [])
    && (if Collecting(m) then Executions(m.trace, Semantic) == 0 else OneEach(m))
  }

  lemma CollectingModed(m: Machine, m': Machine, config: Config)
    requires Collecting(m) && Next(m, m', config) && Moded(m)
    ensures Moded(m')
  {
    var n := |m.trace|;
    CollectingStep(m, m', config);
    ReadyToCollect(n);
    ExecutionsStep(m.trace, m'.trace[n], Semantic);
    CollectionFollows(n, m'.state);
    CollectionAvoids(n);
    CollectorsMode(m, m', config);
    assert n == 14 ==> m'.pending == {Semantic};
    hide Collection, Triggered, Effect, Executions, Located, Successors, Ready, FailuresAsk, Allotted, Open;
  }

  /** What the collecting nodes do to the mode. */
  lemma CollectorsMode(m: Machine, m': Machine, config: Config)
    requires Collecting(m) && Next(m, m', config) && Moded(m)
    ensures |m.trace| >= 12 ==> FailuresAsk(m'.state)
    ensures if |m.trace| >= 13 then Allotted(m'.state) else m'.state.traces == []
  {
    ReadyToCollect(|m.trace|);
    var node := CollectionNode(|m.trace|);
    assert node in Ready(m.pending);
    hide Next, Collecting, InitializeLoop, Executions;
  }

  lemma {:induction false} RunModed(run: seq<Machine>, config: Config, i: nat)
    requires IsRun(run, config) && i < |run|
    ensures Moded(run[i])
  {
    if i > 0 {
      RunModed(run, config, i - 1);
      RunPlaced(run, config, i - 1);
      RunBudgeted(run, config, i - 1);
      assert Next(run[i - 1], run[i - 1 + 1], config);
      BudgetedIsSane(run[i - 1], config);
      hide Budgeted, Moded, Next, Placed;
      PlacedModed(run[i - 1], run[i], config);
    }
  }

  lemma PlacedModed(m: Machine, m': Machine, config: Config)
    requires Placed(m) && Sane(m.state, config) && Next(m, m', config) && Moded(m)
    ensures Moded(m')
  {
    if Collecting(m) {
      CollectingModed(m, m', config);
    } else {
      LocatedStep(m, m', config);
      CollectedIsNotCollecting(m');
      var node := LocatedAlone(m);
      StepAlone(m, m', node, config);
      CountsAlone(m, m', node, config);
      assert |m.trace| >= 15 && |m'.trace| >= 15;
      hide Next, Collected, Collecting, Located;
      NodeModed(m, m', node, config);
    }
  }

  lemma NodeModed(m: Machine, m': Machine, node: Node, config: Config)
    requires !Collecting(m) && !Collecting(m') && m.pending == {node} && Late(node) && Sane(m.state, config)
    requires Moded(m) && |m.trace| >= 15 && |m'.trace| >= 15
    requires m'.pending == Successors(node, m'.state) && Effect(node, m.state, m'.state, config)
    requires Executions(m'.trace, Semantic) == Executions(m.trace, Semantic) + if node.Semantic? then 1 else 0
    requires Executions(m'.trace, Reinvestigate) == Executions(m.trace, Reinvestigate) + if node.Reinvestigate? then 1 else 0
    ensures Moded(m')
  {
    hide Executions, Collecting;
    match node
    case Semantic =>
      SemanticMode(m.state, m'.state, config);
      hide Sane, Effect;
    case Integrate =>
      var integrated, elapsed, ids :| Integrates(m.state, m'.state, integrated, elapsed, ids, config);
      IntegrateMode(m.state, m'.state, integrated, elapsed, ids, config);
      hide Sane, Effect, Integrates;
    case Interpret =>
      InterpretMode(m.state, m'.state, config);
      hide Sane, Effect;
    case _ => hide Sane, InitializeLoop;
  }

  lemma KeepsAllotment(state: Routing, calls: seq<ToolCall>, config: Config)
    requires Sane(state, config)
    ensures RunTools(SessionOf(state, config), calls).session.tools.maxRemote == state.tools.maxRemote
  {
    InitializeLoopAgain(state.loop, config.defaults);
    SessionKeepsBudgets(SessionOf(state, config), calls);
    hide RunTools, Within;
  }

  lemma SemanticMode(before: Routing, after: Routing, config: Config)
    requires Sane(before, config) && Correlates(before, after, config)
    ensures after.recommended == before.recommended && after.sourceFailures == before.sourceFailures
    ensures after.tools.maxRemote == before.tools.maxRemote
    ensures before.tools.maxRemote == 0 ==> after == before.(traces := [])
  {
    if after != before.(traces := [], requests := after.requests) {
      var calls :| Callable(calls, config) && Searches(before, after, calls, config);
      KeepsAllotment(before, calls, config);
      hide Sane, RunTools;
    }
  }

  lemma InterpretMode(before: Routing, after: Routing, config: Config)
    requires Sane(before, config) && Interprets(before, after, config)
    ensures after.recommended == before.recommended && after.sourceFailures == before.sourceFailures
    ensures after.tools.maxRemote == before.tools.maxRemote && after.traces == before.traces
  {
    if after != before.(requests := after.requests) {
      var calls :| Callable(calls, config) && Consults(before, after, calls, config);
      KeepsAllotment(before, calls, config);
      hide Sane, RunTools;
    }
  }

  /** Integration finds nothing where there is no trace, and a loop whose assessment asks for nothing stops. */
  lemma IntegrateMode(before: Routing, after: Routing, integrated: nat, elapsed: real, ids: set<string>, config: Config)
    requires Sane(before, config) && Integrates(before, after, integrated, elapsed, ids, config) && FailuresAsk(before) && Allotted(before)
    ensures FailuresAsk(after) && Allotted(after) && after.tools == before.tools
    ensures before.tools.maxRemote == 0 ==> !after.loop.continuing
  {
    IntegrateEffect(before, after, integrated, elapsed, ids, config);
    if before.tools.maxRemote == 0 { assert Records(before.traces) == 0; }
    hide Sane, AfterRound, Results;
  }

  /**
   In every run, once units are allotted: there are none, two or five of them, and a failed source always
   asks for more.  Without units the assessment stays conclusive, and a correlation changes nothing.
  */
  lemma ModesPersist(run: seq<Machine>, config: Config, i: nat)
    requires IsRun(run, config) && i < |run| && |run[i].trace| >= 14
    ensures
      var state := run[i].state;
      && state.tools.maxRemote in {0, 2, 5} && (state.sourceFailures != [] ==> state.recommended)
      && (state.tools.maxRemote == 0 ==> !state.recommended && state.traces == [])
      && (state.tools.maxRemote == 0 && run[i].pending == {Semantic} && i + 1 < |run| ==> run[i + 1].state == state)
  {
    RunModed(run, config, i);
    RunBudgeted(run, config, i);
    BudgetedIsSane(run[i], config);
    if run[i].pending == {Semantic} && i + 1 < |run| {
      assert Next(run[i], run[i + 1], config);
      StepAlone(run[i], run[i + 1], Semantic, config);
      SemanticMode(run[i].state, run[i + 1].state, config);
    }
    hide Next, Budgeted, Sane, Effect, Placed, Collecting, Executions;
  }

  /** Without remote units semantic_correlate runs once, and once more for every rejection, whatever the settings. */
  lemma ConclusiveRunsCorrelateOnce(run: seq<Machine>, config: Config)
    requires IsRun(run, config) && |run[|run| - 1].trace| >= 14 && run[|run| - 1].state.tools.maxRemote == 0
    ensures Executions(run[|run| - 1].trace, Semantic) <= Rejections(run[|run| - 1].trace) + 1
  {
    RunModed(run, config, |run| - 1);
    RoundsAreBounded(run, config);
    hide IsRun, Collecting, Executions, Rejections;
  }
}
