/**
 The bound on evidence rounds is attained: for every number of rejecting reviews some run spends
 every round every review hands out, until the model requests of the incident run short.  The
 evidence of these runs is what the tools can deliver: the first correlation of a budget searches the
 logs of a related service, at one remote unit and the smallest possible size, and finds a record;
 later ones repeat the search and are served from the cache.  The record stays new to the incident
 logs, because those are kept with normalized labels while a tool result carries the labels of its
 source.  Each such correlation makes two requests.  The one that closes a budget makes none: the
 circuit, which all incidents of a process share, is open, or the prompt at that time is too long for
 the tokens left.
*/
module WorkflowTightness {
  import opened Basics
  import opened InvestigationLoop
  import opened ToolBudget
  import opened Workflow
  import opened WorkflowRuns

  ghost predicate Reachable(m: Machine, config: Config) {
    exists run :: IsRun(run, config) && run[|run| - 1] == m
  }

  lemma StartReachable(m: Machine, config: Config)
    requires Start(m, config)
    ensures Reachable(m, config)
  {
    assert IsRun([m], config) && [m][0] == m;
  }

  lemma StepReachable(m: Machine, m': Machine, config: Config)
    requires Reachable(m, config) && Next(m, m', config)
    ensures Reachable(m', config)
  {
    var run :| IsRun(run, config) && run[|run| - 1] == m;
    var longer := run + [m'];
    forall i | 0 <= i < |longer| - 1 ensures Next(longer[i], longer[i + 1], config) {
      if i < |run| - 1 { assert Next(run[i], run[i + 1], config); }
    }
    assert IsRun(longer, config) && longer[|longer| - 1] == m';
  }

  /** The machine after a single pending node ran and left the given state. */
  ghost function Stepped(m: Machine, node: Node, state: Routing): Machine {
    Machine(Successors(node, state), state, m.trace + [Step({node}, state.approved, state.publishApproved)])
  }

  lemma SteppedReachable(m: Machine, node: Node, state: Routing, config: Config)
    requires Reachable(m, config) && m.pending == {node} && Effect(node, m.state, state, config)
    ensures Reachable(Stepped(m, node, state), config)
  {
    ReadyAlone(node);
    TriggeredByOne(node, state);
    assert m.pending - {node} == {};
    StepReachable(m, Stepped(m, node, state), config);
  }

  lemma SteppedCounts(m: Machine, node: Node, state: Routing)
    ensures Executions(Stepped(m, node, state).trace, Semantic) == Executions(m.trace, Semantic) + if node.Semantic? then 1 else 0
    ensures Rejections(Stepped(m, node, state).trace) == Rejections(m.trace) + if node.HumanReview? && !state.approved then 1 else 0
  {
    ExecutionsStep(m.trace, Step({node}, state.approved, state.publishApproved), Semantic);
  }

  /******* Reaching the investigation *******/

  /** The state once n collecting supersteps are done: the assessment is inconclusive, and two remote units are allotted. */
  ghost function GatheredState(n: nat, config: Config): Routing {
    var scored := Untouched(config).(recommended := n > 12);
    scored.(tools := Tools(if n > 13 then 2 else 0, 0, map[], []))
  }

  /** The machine after n collecting supersteps. */
  ghost function Gathered(n: nat, config: Config): Machine
    requires n <= 15
  {
    Machine(
      Collection(n) + (if n == 4 then {AggregateByLabels} else {}), GatheredState(n, config),
      seq(n, i requires 0 <= i < n => Step(Collection(i), false, false)))
  }

  lemma GatherEffect(n: nat, node: Node, config: Config)
    requires n < 15 && node in Collection(n)
    ensures Effect(node, GatheredState(n, config), GatheredState(n + 1, config), config)
  {
    InitializeLoopAgain(Untouched(config).loop, config.defaults);
    hide InitializeLoop;
  }

  lemma GatherStep(n: nat, config: Config)
    requires n < 15
    ensures Next(Gathered(n, config), Gathered(n + 1, config), config)
  {
    var m, m' := Gathered(n, config), Gathered(n + 1, config);
    ReadyToCollect(n);
    CollectionFollows(n, GatheredState(n + 1, config));
    assert m'.trace == m.trace + [Step(Collection(n), false, false)];
    forall node | node in Collection(n) ensures Effect(node, m.state, m'.state, config) { GatherEffect(n, node, config); }
    hide Effect, Triggered, GatheredState;
    assert m.pending - Collection(n) == if n == 4 then {AggregateByLabels} else {};
    assert m'.pending == (m.pending - Collection(n)) + Triggered(Collection(n), m'.state);
  }

  lemma {:induction false} GatheredReachable(n: nat, config: Config)
    requires n <= 15
    ensures Reachable(Gathered(n, config), config)
    ensures Executions(Gathered(n, config).trace, Semantic) == 0 && Rejections(Gathered(n, config).trace) == 0
  {
    if n == 0 {
      assert Gathered(0, config).trace == [];
      StartReachable(Gathered(0, config), config);
    } else {
      GatheredReachable(n - 1, config);
      GatherStep(n - 1, config);
      StepReachable(Gathered(n - 1, config), Gathered(n, config), config);
      var before := Gathered(n - 1, config).trace;
      assert Gathered(n, config).trace == before + [Step(Collection(n - 1), false, false)];
      CollectionAvoids(n - 1);
      ExecutionsStep(before, Step(Collection(n - 1), false, false), Semantic);
    }
  }

  /******* Spending rounds *******/

  const FOUND := Trace(Object(false, []), 1)

  /** One search in a related service, answered with a single record. */
  function Search(config: Config): ToolCall {
    ToolCall(true, false, 0.0, "search", 1, true, FOUND, config.least)
  }

  /** Nothing fetched in this budget yet, or exactly the one search. */
  ghost predicate Stocked(state: Routing, config: Config) {
    || (state.loop.usedBytes == 0 && state.tools == Tools(2, 0, map[], state.tools.history))
    || (state.loop.usedBytes == config.least && state.tools == Tools(2, 1, map["search" := FOUND], state.tools.history))
  }

  /** About to correlate, with `left` rounds of the cap to go, after `repeats` correlations that led to another. */
  ghost predicate Spending(m: Machine, left: int, repeats: nat, rejected: int, config: Config) {
    && m.pending == {Semantic} && !m.state.approved && m.state.recommended && m.state.sourceFailures == []
    && Sane(m.state, config) && Stocked(m.state, config) && m.state.loop.round >= 0 && m.state.loop.stopReason.None?
    && Cap(config) - m.state.loop.round == left && left >= 1
    && m.state.requests == 2 * repeats <= config.maxRequests
    && Executions(m.trace, Semantic) == rejected + repeats && Rejections(m.trace) == rejected
  }

  /** Another round is left, and so are the two requests a search takes. */
  predicate Affordable(left: int, repeats: nat, config: Config) {
    left > 1 && 2 * repeats + 2 <= config.maxRequests
  }

  /** The search succeeds the first time and is repeated from the cache afterwards. */
  lemma SearchFinds(state: Routing, config: Config)
    requires Sane(state, config) && Stocked(state, config) && Room(config) && state.loop.stopReason.None?
    ensures
      var done := RunTools(SessionOf(state, config), [Search(config)]);
      && Callable([Search(config)], config) && done.traces == [FOUND] && SameControl(state.loop, done.session.loop)
      && done.session.loop.usedBytes == config.least
      && done.session.tools == Tools(2, 1, map["search" := FOUND], done.session.tools.history)
      && Sane(AfterTools(state, done), config)
  {
    var call := Search(config);
    InitializeLoopAgain(state.loop, config.defaults);
    assert Callable([call], config);
    ToolsEffect(state, [call], config);
    assert [call][..0] == [];
    assert RunTools(SessionOf(state, config), []) == Finished(SessionOf(state, config), []);
  }

  /** The state after a correlation: the search in two requests, or nothing at all. */
  ghost function Correlated(state: Routing, search: bool, config: Config): Routing {
    if search then
      var done := RunTools(SessionOf(state, config), [Search(config)]);
      AfterTools(state, done).(traces := done.traces, requests := state.requests + 2)
    else state.(traces := [])
  }

  lemma CorrelatedEffect(state: Routing, search: bool, config: Config)
    requires Sane(state, config) && Stocked(state, config) && state.loop.stopReason.None?
    requires search ==> Room(config) && state.requests + 2 <= config.maxRequests
    ensures
      var after := Correlated(state, search, config);
      && Effect(Semantic, state, after, config) && Sane(after, config) && SameControl(state.loop, after.loop)
      && after == state.(loop := after.loop, tools := after.tools, traces := after.traces, requests := after.requests)
      && (if search then
            && Stocked(after, config) && after.loop.usedBytes == config.least && after.tools.usedRemote == 1
            && after.traces == [FOUND] && after.requests == state.requests + 2
          else after == state.(traces := []))
      && after.tools.maxRemote == 2
  {
    if search {
      SearchFinds(state, config);
      hide RunTools;
      assert Searches(state, Correlated(state, search, config), [Search(config)], config);
    }
  }

  function Found(state: Routing): nat {
    if state.traces == [] then 0 else 1
  }

  /** Integrating what was found, which leaves the assessment inconclusive. */
  ghost function Integrated(state: Routing, config: Config): Routing {
    var e := Evidence(true, Results(state.traces), [], Found(state), state.tools.maxRemote, state.tools.usedRemote, 0.0, {});
    state.(loop := AfterRound(Stored(state.loop), config.defaults, e))
  }

  lemma IntegratedEffect(state: Routing, config: Config)
    requires Sane(state, config) && state.recommended && state.sourceFailures == []
    requires state.traces == [] || state.traces == [FOUND]
    ensures Integrates(state, Integrated(state, config), Found(state), 0.0, {}, config)
    ensures Effect(Integrate, state, Integrated(state, config), config)
  {
    if state.traces == [FOUND] {
      assert [FOUND][..0] == [] && Records([FOUND]) == 1;
    }
    hide AfterRound, Results;
  }

  /** The loop goes on exactly while something was found, bytes and remote units are left, and so is a round. */
  lemma IntegratedContinues(state: Routing, config: Config)
    requires Sane(state, config) && (state.traces == [] || state.traces == [FOUND])
    ensures
      var after := Integrated(state, config).loop;
      && after.round == state.loop.round + 1 && after.usedBytes == state.loop.usedBytes
      && (after.continuing ==> after.stopReason.None?)
      && (after.continuing <==>
            && state.traces == [FOUND] && state.loop.usedBytes < state.loop.maxBytes
            && state.tools.usedRemote < state.tools.maxRemote && after.round < state.loop.maxRounds)
      && Filled(after) && after.maxRounds == state.loop.maxRounds && after.maxBytes == state.loop.maxBytes
  {
    InitializeLoopAgain(state.loop, config.defaults);
    var e := Evidence(true, Results(state.traces), [], Found(state), state.tools.maxRemote, state.tools.usedRemote, 0.0, {});
    ContinuesExactlyWhen(Stored(state.loop), config.defaults, e);
    RoundsRunOut(Stored(state.loop), config.defaults, e);
    if state.traces == [FOUND] { assert Results(state.traces)[0] == FOUND.result && FOUND.result in Results(state.traces); }
  }

  /** One round of evidence gathering: correlate, then integrate. */
  ghost function OneRound(m: Machine, search: bool, config: Config): Machine {
    var correlated := Correlated(m.state, search, config);
    Stepped(Stepped(m, Semantic, correlated), Integrate, Integrated(correlated, config))
  }

  lemma RoundState(state: Routing, left: int, search: bool, config: Config)
    requires state.recommended && state.sourceFailures == [] && Sane(state, config) && Stocked(state, config)
    requires state.loop.stopReason.None? && state.loop.round >= 0 && Cap(config) - state.loop.round == left >= 1
    requires search ==> left > 1 && state.requests + 2 <= config.maxRequests
    ensures
      var correlated := Correlated(state, search, config);
      var after := Integrated(correlated, config);
      && Effect(Semantic, state, correlated, config) && Effect(Integrate, correlated, after, config)
      && Sane(after, config) && after.recommended && after.sourceFailures == [] && after.approved == state.approved
      && after.loop.round == state.loop.round + 1 && after.tools.maxRemote == 2
      && after.requests == state.requests + (if search then 2 else 0)
      && (after.loop.continuing <==> search) && (search ==> Stocked(after, config) && after.loop.stopReason.None?)
  {
    CorrelatedEffect(state, search, config);
    var correlated := Correlated(state, search, config);
    IntegratedEffect(correlated, config);
    IntegratedContinues(correlated, config);
    IntegrateEffect(correlated, Integrated(correlated, config), Found(correlated), 0.0, {}, config);
    hide Correlated, Integrates, Effect, AfterRound, Records, Filled, Paid;
  }

  lemma OneRoundReachable(m: Machine, left: int, repeats: nat, rejected: int, config: Config)
    requires Reachable(m, config) && Spending(m, left, repeats, rejected, config)
    ensures
      var search := Affordable(left, repeats, config);
      var after := OneRound(m, search, config);
      && Reachable(after, config)
      && (search ==> Spending(after, left - 1, repeats + 1, rejected, config))
      && (!search ==> Waiting(after, repeats, rejected, config))
  {
    hide Reachable, Executions, Rejections, Effect, Sane, Stocked, Correlated, Integrated, Room, Cap;
    var search := Affordable(left, repeats, config);
    var correlated := Correlated(m.state, search, config);
    var state := Integrated(correlated, config);
    RoundState(m.state, left, search, config);
    SteppedReachable(m, Semantic, correlated, config);
    SteppedReachable(Stepped(m, Semantic, correlated), Integrate, state, config);
    SteppedCounts(m, Semantic, correlated);
    SteppedCounts(Stepped(m, Semantic, correlated), Integrate, state);
  }

  /** The budget of rounds is closed and the interpretation comes next. */
  ghost predicate Waiting(m: Machine, repeats: nat, rejected: int, config: Config) {
    && m.pending == {Interpret} && m.state.recommended && m.state.sourceFailures == []
    && Sane(m.state, config) && m.state.tools.maxRemote == 2
    && m.state.requests == 2 * repeats <= config.maxRequests
    && Executions(m.trace, Semantic) == rejected + 1 + repeats && Rejections(m.trace) == rejected
  }

  /** Search while rounds and requests last, then close the budget. */
  lemma {:induction false} SpendAll(m: Machine, left: int, repeats: nat, rejected: int, config: Config) returns (after: Machine)
    requires Reachable(m, config) && Spending(m, left, repeats, rejected, config)
    ensures Reachable(after, config) && Waiting(after, Least(repeats + left - 1, config.maxRequests / 2), rejected, config)
    decreases left
  {
    SpendingMeans(m, left, repeats, rejected, config);
    OneRoundReachable(m, left, repeats, rejected, config);
    hide Reachable, Spending, Waiting, OneRound;
    after := OneRound(m, Affordable(left, repeats, config), config);
    if Affordable(left, repeats, config) { after := SpendAll(after, left - 1, repeats + 1, rejected, config); }
  }

  lemma SpendingMeans(m: Machine, left: int, repeats: nat, rejected: int, config: Config)
    requires Spending(m, left, repeats, rejected, config)
    ensures left >= 1 && 2 * repeats <= config.maxRequests
  {
  }

  /** A rejecting review starts the next loop from round zero. */
  lemma Reject(m: Machine, repeats: nat, rejected: int, config: Config) returns (after: Machine)
    requires Reachable(m, config) && Waiting(m, repeats, rejected, config)
    ensures Reachable(after, config) && Spending(after, Cap(config), repeats, rejected + 1, config)
  {
    hide Reachable, Executions, Rejections;
    var interpreted := Stepped(m, Interpret, m.state);
    SteppedReachable(m, Interpret, m.state, config);
    var refused := m.state.(approved := false);
    var reviewed := Stepped(interpreted, HumanReview, refused);
    SteppedReachable(interpreted, HumanReview, refused, config);
    var renewed := refused.(loop := InitializeLoop(OnlyLimits(refused.loop), config.defaults), tools := Tools(2, 0, map[], []));
    ReinvestigateEffect(refused, renewed, config);
    SteppedReachable(reviewed, Reinvestigate, renewed, config);
    after := Stepped(reviewed, Reinvestigate, renewed);
    SteppedCounts(m, Interpret, m.state);
    SteppedCounts(interpreted, HumanReview, refused);
    SteppedCounts(reviewed, Reinvestigate, renewed);
  }

  /** How many correlations lead to another in k budgets of rounds. */
  function Repeats(k: nat, config: Config): nat {
    Least(k * (Cap(config) - 1), config.maxRequests / 2)
  }

  lemma {:induction false} AfterRejections(k: nat, config: Config) returns (m: Machine)
    ensures Reachable(m, config) && Spending(m, Cap(config), Repeats(k, config), k, config)
  {
    if k == 0 {
      GatheredReachable(15, config);
      m := Gathered(15, config);
      assert m.pending == {Semantic};
      hide Reachable, Executions, Rejections;
    } else {
      var before := AfterRejections(k - 1, config);
      m := SpendBudget(before, k - 1, config);
      hide Reachable, Executions, Rejections, Spending, Waiting, Cap, Repeats;
      m := Reject(m, Repeats(k, config), k - 1, config);
    }
  }

  lemma SpendBudget(m: Machine, k: nat, config: Config) returns (after: Machine)
    requires Reachable(m, config) && Spending(m, Cap(config), Repeats(k, config), k, config)
    ensures Reachable(after, config) && Waiting(after, Repeats(k + 1, config), k, config)
  {
    hide Reachable, Spending, Waiting, MaxRounds, Room;
    var cap := Cap(config);
    after := SpendAll(m, cap, Repeats(k, config), k, config);
    assert k * (cap - 1) + cap - 1 == (k + 1) * (cap - 1);
  }

  /**
   For all settings and every number of rejections some run correlates exactly as often as the bound
   allows: every budget of rounds is used up while the requests of the incident last.
  */
  lemma BoundIsAttained(k: nat, config: Config) returns (m: Machine)
    ensures Reachable(m, config) && Rejections(m.trace) == k
    ensures Executions(m.trace, Semantic) == MostCorrelations(k, config)
  {
    var before := AfterRejections(k, config);
    hide Reachable, Executions, Rejections, Spending, Cap;
    m := SpendBudget(before, k, config);
  }

  /** No run with k rejections correlates more often than this. */
  ghost predicate Bounds(bound: int, k: nat, config: Config) {
    forall m :: Reachable(m, config) && Rejections(m.trace) == k ==> Executions(m.trace, Semantic) <= bound
  }

  /**
   The best bounds there are: (k + 1) * max_rounds holds, and is the least exactly when max_rounds is
   one, or there is room and the requests last for all repeated correlations.
  */
  lemma ExactBound(k: nat, bound: int, config: Config)
    ensures Bounds(bound, k, config) <==> MostCorrelations(k, config) <= bound
    ensures
      var max := MaxRounds(config);
      MostCorrelations(k, config) == (k + 1) * max <==>
      max == 1 || (Room(config) && (k + 1) * (max - 1) <= config.maxRequests / 2)
  {
    var m := BoundIsAttained(k, config);
    forall m | Reachable(m, config) && Rejections(m.trace) == k ensures Executions(m.trace, Semantic) <= MostCorrelations(k, config) {
      var run :| IsRun(run, config) && run[|run| - 1] == m;
      RoundsAreBounded(run, config);
    }
    hide Reachable, Executions, Rejections;
    var max := MaxRounds(config);
    hide MaxRounds, Room;
    assert (k + 1) * max == (k + 1) * (max - 1) + k + 1;
    assert (k + 1) * 0 == 0;
  }

  /**
   A bound of k + max_rounds, which would let rejections share one budget of rounds, holds exactly
   without rejections, with a single round, without room for new evidence, or when the requests of the
   incident do not last for max_rounds repeated correlations.
  */
  lemma RejectionsShareRoundsExactlyWhen(k: nat, config: Config)
    ensures
      var max := MaxRounds(config);
      Bounds(k + max, k, config) <==> k == 0 || max == 1 || !Room(config) || config.maxRequests < 2 * max
  {
    var max := MaxRounds(config);
    ExactBound(k, k + max, config);
    assert max >= 1;
    hide Bounds, MaxRounds, Room;
    SharedBudget(k, max, config.maxRequests / 2);
  }

  lemma SharedBudget(k: nat, max: int, pairs: int)
    requires max >= 1 && pairs >= 0
    ensures k + 1 + Min((k + 1) * (max - 1), pairs) <= k + max <==> k == 0 || max == 1 || pairs < max
    ensures k + 1 + Min((k + 1) * 0, pairs) <= k + max
  {
    if k > 0 && max > 1 { assert (k + 1) * (max - 1) == (max - 1) + k * (max - 1) > max - 1; }
  }
}
