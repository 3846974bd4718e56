/**
 The workflow graph as a machine that runs in supersteps, and what holds of all its runs.

 Node bodies may do anything to the state they are not shown to leave alone; of the fields the
 routing reads, only the nodes named in `Effect` change any.  A node that raises ends the run, so a
 run is any finite sequence of completed supersteps.
*/
module Workflow {
  import opened InvestigationLoop
  import opened ToolBudget

  datatype Node =
    | IngestAlert | ClassifySeverity | PlanCollection | GatherLogs | GatherMetrics | GatherDeploys
    | NormalizeLogs | AggregateByLabels | ApplyDetectionRules | EnrichGroups | ExtractFeatures
    | Correlate | ReassessSeverity | ScopeExpansion | ScoreCandidates | BuildLlmContext
    | BuildEvidencePack | Semantic | Integrate | Reinvestigate | Interpret | HumanReview
    | DeepRca | DraftPostmortem | PublishReview | Publish

  /**
   The state the routers depend on: the loop record and the tool entries of the investigation budget,
   the model requests the usage ledger has counted, the traces of the last correlation, the
   assessment's recommendation, the failed sources, and both review decisions.
  */
  datatype Routing = Routing(
    loop: Loop, tools: Tools, requests: nat, traces: seq<Trace>, recommended: bool, sourceFailures: seq<string>,
    approved: bool, publishApproved: bool)

  /**
   Settings of a deployment: the loop defaults, whether models may call tools and how often, the most
   model requests the budget of an incident authorises, and the size in bytes of the smallest tool
   result that carries a usable log record.
  */
  datatype Config = Config(defaults: Defaults, toolCalling: bool, maxCalls: int, maxRequests: nat, least: nat)

  /******* Edges *******/

  /** Successors of a node, given the state after it ran. */
  function Successors(node: Node, state: Routing): set<Node> {
    match node
    case IngestAlert => {ClassifySeverity}
    case ClassifySeverity => {PlanCollection}
    case PlanCollection => {GatherLogs, GatherMetrics, GatherDeploys}
    case GatherLogs => {NormalizeLogs}
    case NormalizeLogs => {AggregateByLabels}
    case GatherMetrics => {AggregateByLabels}
    case GatherDeploys => {AggregateByLabels}
    case AggregateByLabels => {ApplyDetectionRules}
    case ApplyDetectionRules => {EnrichGroups}
    case EnrichGroups => {ExtractFeatures}
    case ExtractFeatures => {Correlate}
    case Correlate => {ReassessSeverity}
    case ReassessSeverity => {ScopeExpansion}
    case ScopeExpansion => {ScoreCandidates}
    case ScoreCandidates => {BuildLlmContext}
    case BuildLlmContext => {BuildEvidencePack}
    case BuildEvidencePack => {Semantic}
    case Semantic => {Integrate}
    case Integrate => if ExpansionRouter(state.loop).SemanticCorrelate? then {Semantic} else {Interpret}
    case Interpret => {HumanReview}
    case HumanReview => {ReviewRouter(state.approved)}
    case Reinvestigate => {Semantic}
    case DeepRca => {DraftPostmortem}
    case DraftPostmortem => {PublishReview}
    case PublishReview => if state.publishApproved then {Publish} else {}
    case Publish => {}
  }

  /** `review_router` */
  function ReviewRouter(approved: bool): Node {
    if approved then DeepRca else Reinvestigate
  }

  /** The one node added with `defer=True`: it waits until nothing else is pending. */
  function Ready(pending: set<Node>): set<Node> {
    if pending == {AggregateByLabels} then pending else pending - {AggregateByLabels}
  }

  /******* Node effects on the routing state *******/

  /** A tool session starts by filling in the loop record again. */
  function SessionOf(state: Routing, config: Config): Session {
    Session(InitializeLoop(Stored(state.loop), config.defaults), state.tools)
  }

  ghost predicate Callable(calls: seq<ToolCall>, config: Config) {
    config.toolCalling && |calls| <= AtLeast(config.maxCalls, 0) && Weighty(calls, config.least)
  }

  function AfterTools(state: Routing, done: Finished): Routing {
    state.(loop := done.session.loop, tools := done.session.tools)
  }

  /** The ledger of an incident only grows, and no request is made past its limit. */
  ghost predicate Charges(before: Routing, after: Routing, config: Config) {
    after.requests == before.requests || before.requests < after.requests <= config.maxRequests
  }

  /**
   Without remote units to give out no model is asked.  A correlation that fails, or has no tools,
   leaves no trace, however many requests it made.
  */
  ghost predicate Correlates(before: Routing, after: Routing, config: Config) {
    || after == before.(traces := [])
    || (before.tools.maxRemote != 0 && after == before.(traces := [], requests := after.requests) && Charges(before, after, config))
    || (before.tools.maxRemote != 0 && exists calls :: Callable(calls, config) && Searches(before, after, calls, config))
  }

  /** A correlation keeps its traces only if a last request answers without asking for tools: two requests if it used any. */
  ghost predicate Searches(before: Routing, after: Routing, calls: seq<ToolCall>, config: Config) {
    var done := RunTools(SessionOf(before, config), calls);
    && after == AfterTools(before, done).(traces := done.traces, requests := after.requests)
    && Charges(before, after, config)
    && after.requests >= before.requests + if calls == [] then 1 else 2
  }

  /** An assessment that asks for more evidence abstains, and is rendered without a model. */
  ghost predicate Interprets(before: Routing, after: Routing, config: Config) {
    || after == before
    || (&& !before.recommended && Charges(before, after, config)
        && (|| after == before.(requests := after.requests)
            || exists calls :: Callable(calls, config) && Consults(before, after, calls, config)))
  }

  ghost predicate Consults(before: Routing, after: Routing, calls: seq<ToolCall>, config: Config) {
    after == AfterTools(before, RunTools(SessionOf(before, config), calls)).(requests := after.requests)
  }

  /** The usable records the traces carry; only these can be integrated. */
  function Records(traces: seq<Trace>): nat {
    if traces == [] then 0 else Records(traces[..|traces| - 1]) + traces[|traces| - 1].records
  }

  function Results(traces: seq<Trace>): (results: seq<ToolResult>)
    ensures |results| == |traces|
  {
    seq(|traces|, i requires 0 <= i < |traces| => traces[i].result)
  }

  /** Evidence is scored again only when records were integrated; a failed source always asks for more. */
  ghost predicate Integrates(before: Routing, after: Routing, integrated: nat, elapsed: real, ids: set<string>, config: Config) {
    var e := Evidence(after.recommended, Results(before.traces), after.sourceFailures, integrated,
                      before.tools.maxRemote, before.tools.usedRemote, elapsed, ids);
    && integrated <= Records(before.traces)
    && (integrated == 0 ==> after.recommended == before.recommended && after.sourceFailures == before.sourceFailures)
    && (integrated > 0 && after.sourceFailures != [] ==> after.recommended)
    && after == before.(loop := AfterRound(Stored(before.loop), config.defaults, e),
                        recommended := after.recommended, sourceFailures := after.sourceFailures)
  }

  /** Only a conclusive assessment without failed sources gets no remote units. */
  ghost predicate Allots(before: Routing, after: Routing, config: Config) {
    && after.tools.maxRemote in {0, 2, 5}
    && (after.tools.maxRemote == 0 ==> !before.recommended && before.sourceFailures == [])
    && after == before.(loop := InitializeLoop(Stored(before.loop), config.defaults),
                        tools := before.tools.(maxRemote := after.tools.maxRemote))
  }

  ghost predicate Effect(node: Node, before: Routing, after: Routing, config: Config) {
    match node
    case ExtractFeatures => after == before.(sourceFailures := after.sourceFailures)
    case ScoreCandidates =>
      after == before.(recommended := after.recommended) && (before.sourceFailures != [] ==> after.recommended)
    case BuildLlmContext => Allots(before, after, config)
    case Semantic => Correlates(before, after, config)
    case Interpret => Interprets(before, after, config)
    case Integrate => exists integrated, elapsed, ids :: Integrates(before, after, integrated, elapsed, ids, config)
    case Reinvestigate =>
      after == before.(loop := InitializeLoop(OnlyLimits(before.loop), config.defaults),
                       tools := Tools(before.tools.maxRemote, 0, map[], []))
    case DeepRca => after == before.(requests := after.requests) && Charges(before, after, config)
    case DraftPostmortem => after == before.(requests := after.requests) && Charges(before, after, config)
    case HumanReview => after == before.(approved := after.approved)
    case PublishReview => after == before.(publishApproved := after.publishApproved)
    case _ => after == before
  }

  /******* The machine *******/

  /** One completed superstep: what ran, and the decisions in force after it. */
  datatype Step = Step(ran: set<Node>, approved: bool, publishApproved: bool)

  datatype Machine = Machine(pending: set<Node>, state: Routing, trace: seq<Step>)

  /** A fresh incident: no loop record, no budget and no ledger yet, so every entry takes its default. */
  function Untouched(config: Config): Routing {
    Routing(InitializeLoop(NOTHING, config.defaults), Tools(0, 0, map[], []), 0, [], false, [], false, false)
  }

  ghost predicate Start(m: Machine, config: Config) {
    m == Machine({IngestAlert}, Untouched(config), [])
  }

  /** What the nodes that ran schedule between them. */
  ghost function Triggered(ran: set<Node>, state: Routing): set<Node> {
    set node, next | node in ran && next in Successors(node, state) :: next
  }

  lemma TriggeredByOne(node: Node, state: Routing)
    ensures Triggered({node}, state) == Successors(node, state)
  {
    forall next ensures next in Triggered({node}, state) <==> next in Successors(node, state) {
      if next in Successors(node, state) { assert node in {node}; }
    }
  }

  lemma TriggeredByCollectors(state: Routing)
    ensures Triggered({GatherLogs, GatherMetrics, GatherDeploys}, state) == {NormalizeLogs, AggregateByLabels}
  {
    var ran := {GatherLogs, GatherMetrics, GatherDeploys};
    assert GatherLogs in ran && NormalizeLogs in Successors(GatherLogs, state);
    assert GatherMetrics in ran && AggregateByLabels in Successors(GatherMetrics, state);
  }

  /** Only the collectors run side by side, and they leave the routing state alone. */
  ghost predicate Next(m: Machine, m': Machine, config: Config) {
    && m.pending != {}
    && (forall node :: node in Ready(m.pending) ==> Effect(node, m.state, m'.state, config))
    && m'.pending == (m.pending - Ready(m.pending)) + Triggered(Ready(m.pending), m'.state)
    && m'.trace == m.trace + [Step(Ready(m.pending), m'.state.approved, m'.state.publishApproved)]
  }

  ghost predicate IsRun(run: seq<Machine>, config: Config) {
    && run != []
    && Start(run[0], config)
    && forall i :: 0 <= i < |run| - 1 ==> Next(run[i], run[i + 1], config)
  }

  /** How often a node has run. */
  function Executions(trace: seq<Step>, node: Node): nat {
    if trace == [] then 0
    else Executions(trace[..|trace| - 1], node) + if node in trace[|trace| - 1].ran then 1 else 0
  }

  /** How many reviews have not approved. */
  function Rejections(trace: seq<Step>): nat {
    if trace == [] then 0
    else
      Rejections(trace[..|trace| - 1]) +
      if HumanReview in trace[|trace| - 1].ran && !trace[|trace| - 1].approved then 1 else 0
  }

  /******* The phases of a run *******/

  /** The node of the i-th superstep before the investigation; the fourth runs the three collectors. */
  function CollectionNode(i: nat): Node
    requires i < 16
  {
    if i == 0 then IngestAlert
    else if i == 1 then ClassifySeverity
    else if i == 2 then PlanCollection
    else if i == 3 then GatherLogs
    else if i == 4 then NormalizeLogs
    else if i == 5 then AggregateByLabels
    else if i == 6 then ApplyDetectionRules
    else if i == 7 then EnrichGroups
    else if i == 8 then ExtractFeatures
    else if i == 9 then Correlate
    else if i == 10 then ReassessSeverity
    else if i == 11 then ScopeExpansion
    else if i == 12 then ScoreCandidates
    else if i == 13 then BuildLlmContext
    else if i == 14 then BuildEvidencePack
    else Semantic
  }

  /** What the first sixteen supersteps run, whatever the nodes do. */
  function Collection(i: nat): set<Node>
    requires i < 16
  {
    if i == 3 then {GatherLogs, GatherMetrics, GatherDeploys} else {CollectionNode(i)}
  }

  lemma CollectionFollows(i: nat, state: Routing)
    requires i < 15
    ensures Triggered(Collection(i), state) == Collection(i + 1) + if i == 3 then {AggregateByLabels} else {}
  {
    if i == 3 {
      TriggeredByCollectors(state);
    } else {
      TriggeredByOne(CollectionNode(i), state);
    }
  }

  lemma ReadyToCollect(i: nat)
    requires i < 15
    ensures Ready(Collection(i) + if i == 4 then {AggregateByLabels} else {}) == Collection(i)
  {
  }

  /** While collecting, metrics and deploys are in before the logs are normalized; the join waits. */
  ghost predicate Collecting(m: Machine) {
    && |m.trace| < 15
    && m.pending == Collection(|m.trace|) + (if |m.trace| == 4 then {AggregateByLabels} else {})
    && (forall i :: 0 <= i < |m.trace| ==> m.trace[i].ran == Collection(i))
  }

  ghost predicate Collected(trace: seq<Step>) {
    |trace| >= 15 && forall i :: 0 <= i < 15 ==> trace[i].ran == Collection(i)
  }

  /** The path from an approving review to publication. */
  function ClosingNode(k: nat): Node
    requires k < 5
  {
    if k == 0 then HumanReview
    else if k == 1 then DeepRca
    else if k == 2 then DraftPostmortem
    else if k == 3 then PublishReview
    else Publish
  }

  ghost predicate BeforeClosing(ran: set<Node>) {
    ran !! {DeepRca, DraftPostmortem, PublishReview, Publish}
  }

  /** No accepted analysis so far. */
  ghost predicate Open(trace: seq<Step>) {
    forall i :: 0 <= i < |trace| ==> BeforeClosing(trace[i].ran)
  }

  /** The last k steps are the first k of the closing path; the review that opened it approved. */
  ghost predicate Closing(trace: seq<Step>, k: nat) {
    && 1 <= k <= 5 && k <= |trace|
    && (forall i :: 0 <= i <= |trace| - k ==> BeforeClosing(trace[i].ran))
    && (forall j :: 0 <= j < k ==> trace[|trace| - k + j].ran == {ClosingNode(j)})
    && trace[|trace| - k].approved
    && (k == 5 ==> trace[|trace| - 2].publishApproved)
  }

  /** What is pending k steps into the closing path: nothing after a publication or a declined one. */
  ghost predicate AtClosing(m: Machine, k: nat) {
    && Closing(m.trace, k)
    && m.pending == if k == 5 || (k == 4 && !m.trace[|m.trace| - 1].publishApproved) then {} else {ClosingNode(k)}
  }

  predicate Investigates(node: Node) {
    node.Semantic? || node.Integrate? || node.Interpret? || node.Reinvestigate? || node.HumanReview?
  }

  /** Where a machine that has collected its evidence can be. */
  ghost predicate Located(m: Machine) {
    || (Open(m.trace) && exists node :: m.pending == {node} && Investigates(node))
    || exists k :: 1 <= k <= 5 && AtClosing(m, k)
  }

  ghost predicate Placed(m: Machine) {
    Collecting(m) || (Collected(m.trace) && Located(m))
  }

  lemma CollectingStep(m: Machine, m': Machine, config: Config)
    requires Collecting(m) && Next(m, m', config)
    ensures Placed(m')
  {
    var n := |m.trace|;
    ReadyToCollect(n);
    CollectionFollows(n, m'.state);
    assert Collection(15) == {Semantic} && Collection(4) == {NormalizeLogs} && Collection(5) == {AggregateByLabels};
    hide Collection, Triggered, Ready;
    if n == 14 { assert Open(m'.trace) by { OpenAfterCollection(m'.trace); } }
  }

  lemma OpenAfterCollection(trace: seq<Step>)
    requires |trace| == 15 && forall i :: 0 <= i < 15 ==> trace[i].ran == Collection(i)
    ensures Open(trace)
  {
  }
}
