/**
 The control state of targeted evidence expansion: when a round may be followed by another one, and
 the revision record every round leaves.
*/
module InvestigationLoop {
  import opened Options
  import opened Ordering

  /** Settings the loop contract falls back on. */
  datatype Defaults = Defaults(maxRounds: int, maxServices: int, maxBytes: int, maxElapsed: real)

  datatype Reason =
    | ElapsedTimeBudgetExhausted
    | ResultByteBudgetExhausted
    | EnoughEvidence
    | RoundBudgetExhausted
    | RemoteQueryBudgetExhausted
    | SourceUnavailable
    | SafeAbstention

  datatype Loop = Loop(
    round: int, maxRounds: int, maxServices: int, maxBytes: int, usedBytes: int,
    maxElapsed: real, elapsed: real, continuing: bool, stopReason: Option<Reason>)

  /** A loop record as found in the state: any entry may be absent. */
  datatype Existing = Existing(
    round: Option<int>, maxRounds: Option<int>, maxServices: Option<int>, maxBytes: Option<int>, usedBytes: Option<int>,
    maxElapsed: Option<real>, elapsed: Option<real>, continuing: Option<bool>, stopReason: Option<Reason>)

  const NOTHING := Existing(None, None, None, None, None, None, None, None, None)

  function GetOr<T>(value: Option<T>, default: T): T {
    if value.Some? then value.value else default
  }

  function AtLeast(value: int, floor: int): int {
    if value < floor then floor else value
  }

  function AtLeastReal(value: real, floor: real): real {
    if value < floor then floor else value
  }

  /** `initialize_loop`: consumed limits are kept, missing entries are filled in. */
  function InitializeLoop(existing: Existing, defaults: Defaults): Loop {
    Loop(
      GetOr(existing.round, 0),
      AtLeast(GetOr(existing.maxRounds, defaults.maxRounds), 1),
      AtLeast(GetOr(existing.maxServices, defaults.maxServices), 1),
      AtLeast(GetOr(existing.maxBytes, defaults.maxBytes), 1),
      AtLeast(GetOr(existing.usedBytes, 0), 0),
      AtLeastReal(GetOr(existing.maxElapsed, defaults.maxElapsed), 1.0),
      AtLeastReal(GetOr(existing.elapsed, 0.0), 0.0),
      GetOr(existing.continuing, false),
      existing.stopReason)
  }

  function Stored(loop: Loop): Existing {
    Existing(Some(loop.round), Some(loop.maxRounds), Some(loop.maxServices), Some(loop.maxBytes), Some(loop.usedBytes),
             Some(loop.maxElapsed), Some(loop.elapsed), Some(loop.continuing), loop.stopReason)
  }

  /** `reinvestigate_feedback` keeps the four limits and nothing else. */
  function OnlyLimits(loop: Loop): Existing {
    NOTHING.(maxRounds := Some(loop.maxRounds), maxServices := Some(loop.maxServices),
             maxBytes := Some(loop.maxBytes), maxElapsed := Some(loop.maxElapsed))
  }

  ghost predicate Filled(loop: Loop) {
    loop.maxRounds >= 1 && loop.maxServices >= 1 && loop.maxBytes >= 1 && loop.usedBytes >= 0
    && loop.maxElapsed >= 1.0 && loop.elapsed >= 0.0
  }

  /** Filling in a loop that was already filled in changes nothing: no consumed limit is given back. */
  lemma InitializePreserves(existing: Existing, defaults: Defaults, later: Defaults)
    ensures Filled(InitializeLoop(existing, defaults))
    ensures InitializeLoop(Stored(InitializeLoop(existing, defaults)), later) == InitializeLoop(existing, defaults)
    ensures existing.round.Some? ==> InitializeLoop(existing, defaults).round == existing.round.value
  {
  }

  /** A reviewer's feedback, in contrast, gives back every consumed limit. */
  lemma FeedbackResets(loop: Loop, defaults: Defaults)
    requires Filled(loop)
    ensures
      var fresh' := InitializeLoop(OnlyLimits(loop), defaults);
      && Filled(fresh') && fresh'.round == 0 && fresh'.usedBytes == 0 && fresh'.elapsed == 0.0
      && !fresh'.continuing && fresh'.stopReason == None
      && fresh'.maxServices == loop.maxServices
      && fresh'.maxRounds == loop.maxRounds && fresh'.maxBytes == loop.maxBytes && fresh'.maxElapsed == loop.maxElapsed
  {
  }

  /******* One round *******/

  datatype Checked = Checked(isObject: bool, hasError: bool)

  datatype ToolResult = NotAnObject | Object(hasError: bool, checked: seq<Checked>)

  /** `_result_failed` */
  function ResultFailed(result: ToolResult): bool {
    result.Object? &&
    (result.hasError ||
     (result.checked != [] && forall item :: item in result.checked ==> item.isObject && item.hasError))
  }

  /** What one round is judged on; `elapsed` is the rounded time since the loop started, by a clock that may be set back. */
  datatype Evidence = Evidence(
    recommended: bool, traces: seq<ToolResult>, sourceFailures: seq<string>, integrated: int,
    maxRemote: int, usedRemote: int, elapsed: real, queryIds: set<string>)

  function AllToolsFailed(e: Evidence): bool {
    e.traces != [] && forall result :: result in e.traces ==> ResultFailed(result)
  }

  /** The decision chain of `complete_round` for a loop whose round is already counted. */
  function Decide(loop: Loop, e: Evidence): Option<Reason> {
    if loop.elapsed >= loop.maxElapsed then Some(ElapsedTimeBudgetExhausted)
    else if loop.usedBytes >= loop.maxBytes then Some(ResultByteBudgetExhausted)
    else if !e.recommended then Some(EnoughEvidence)
    else if loop.round >= loop.maxRounds then Some(RoundBudgetExhausted)
    else if e.maxRemote <= e.usedRemote then Some(RemoteQueryBudgetExhausted)
    else if AllToolsFailed(e) || (e.sourceFailures != [] && e.traces == []) then Some(SourceUnavailable)
    else if e.integrated <= 0 then Some(SafeAbstention)
    else None
  }

  function AfterRound(existing: Existing, defaults: Defaults, e: Evidence): Loop {
    var loop := InitializeLoop(existing, defaults);
    var counted := loop.(round := loop.round + 1, elapsed := AtLeastReal(e.elapsed, 0.0));
    counted.(continuing := Decide(counted, e).None?, stopReason := Decide(counted, e))
  }

  datatype Revision = Revision(
    number: nat, previous: Option<nat>, round: int, queryIds: seq<string>, integrated: int,
    recommended: bool, continued: bool, stopReason: Option<Reason>)

  /** Revisions are numbered 1, 2, 3, ... and each names the one before it. */
  ghost predicate Chain(revisions: seq<Revision>) {
    forall i :: 0 <= i < |revisions| ==>
      revisions[i].number == i + 1 && revisions[i].previous == if i > 0 then Some(i) else None
  }

  /**
   `complete_round`.  The last revision records the decision, and the loop continues exactly when no
   reason to stop was found.
  */
  method CompleteRound(existing: Existing, defaults: Defaults, e: Evidence, before: seq<Revision>)
    returns (loop: Loop, revisions: seq<Revision>)
    ensures loop == AfterRound(existing, defaults, e)
    ensures |revisions| == |before| + 1 && revisions[..|before|] == before
    ensures Chain(before) ==> Chain(revisions)
    ensures
      var last := revisions[|before|];
      && last.round == loop.round && last.continued == loop.continuing && last.stopReason == loop.stopReason
      && last.integrated == e.integrated && last.recommended == e.recommended
      && (forall id :: id in last.queryIds <==> id in e.queryIds) && Sorted(last.queryIds, TextLe)
  {
    loop := InitializeLoop(existing, defaults);
    loop := loop.(round := loop.round + 1);
    loop := loop.(elapsed := AtLeastReal(e.elapsed, 0.0));
    var reason, canContinue := ChooseReason(loop, e);
    loop := loop.(continuing := canContinue);
    loop := loop.(stopReason := reason);
    var number := |before| + 1;
    var ids := SortIds(e.queryIds);
    hide Decide, Sorted, InitializeLoop;
    revisions := before + [Revision(number, if number > 1 then Some(number - 1) else None, loop.round, ids,
                                    e.integrated, e.recommended, canContinue, reason)];
  }

  method ChooseReason(loop: Loop, e: Evidence) returns (reason: Option<Reason>, canContinue: bool)
    ensures reason == Decide(loop, e) && (canContinue <==> reason.None?)
  {
    reason := None;
    canContinue := false;
    if loop.elapsed >= loop.maxElapsed {
      reason := Some(ElapsedTimeBudgetExhausted);
    } else if loop.usedBytes >= loop.maxBytes {
      reason := Some(ResultByteBudgetExhausted);
    } else if !e.recommended {
      reason := Some(EnoughEvidence);
    } else if loop.round >= loop.maxRounds {
      reason := Some(RoundBudgetExhausted);
    } else if e.maxRemote <= e.usedRemote {
      reason := Some(RemoteQueryBudgetExhausted);
    } else if AllToolsFailed(e) || (e.sourceFailures != [] && e.traces == []) {
      reason := Some(SourceUnavailable);
    } else if e.integrated <= 0 {
      reason := Some(SafeAbstention);
    } else {
      canContinue := true;
    }
  }

  /** `sorted(set(query_ids))` */
  method SortIds(ids: set<string>) returns (sorted: seq<string>)
    ensures forall id :: id in sorted <==> id in ids
    ensures Sorted(sorted, TextLe)
  {
    TextOrder();
    sorted := [];
    var rest := ids;
    while rest != {}
      invariant rest <= ids && forall id :: id in sorted <==> id in ids && id !in rest
    {
      var id :| id in rest;
      sorted := sorted + [id];
      rest := rest - {id};
    }
    StableSortMembers(sorted, TextLe);
    StableSortSorted(sorted, TextLe);
    sorted := StableSort(sorted, TextLe);
  }

  /******* What a decision means *******/

  /** Another round needs every budget to have room, an open question, a working source and new evidence. */
  lemma ContinuesExactlyWhen(existing: Existing, defaults: Defaults, e: Evidence)
    ensures
      var start, after := InitializeLoop(existing, defaults), AfterRound(existing, defaults, e);
      after.continuing <==>
        && e.elapsed < start.maxElapsed && start.usedBytes < start.maxBytes
        && e.recommended && start.round + 1 < start.maxRounds && e.usedRemote < e.maxRemote
        && (e.traces == [] ==> e.sourceFailures == [])
        && (e.traces == [] || exists result :: result in e.traces && !ResultFailed(result))
        && e.integrated > 0
    ensures AfterRound(existing, defaults, e).continuing <==> AfterRound(existing, defaults, e).stopReason == None
    ensures Filled(AfterRound(existing, defaults, e))
  {
  }

  /** Every tool that was asked failed: as a whole, or in every service it checked. */
  ghost predicate NoneWorked(traces: seq<ToolResult>) {
    forall result :: result in traces ==>
      result.Object? && (result.hasError || (result.checked != [] && forall c :: c in result.checked ==> c.isObject && c.hasError))
  }

  /** Why a round stopped: the first cause that applies, in this order. */
  lemma StopsExactlyWhen(existing: Existing, defaults: Defaults, e: Evidence)
    ensures
      var start, reason := InitializeLoop(existing, defaults), AfterRound(existing, defaults, e).stopReason;
      var late, full := e.elapsed >= start.maxElapsed, start.usedBytes >= start.maxBytes;
      var last, spent := start.round + 1 >= start.maxRounds, e.usedRemote >= e.maxRemote;
      var down := if e.traces == [] then e.sourceFailures != [] else NoneWorked(e.traces);
      && (reason == Some(ElapsedTimeBudgetExhausted) <==> late)
      && (reason == Some(ResultByteBudgetExhausted) <==> !late && full)
      && (reason == Some(EnoughEvidence) <==> !late && !full && !e.recommended)
      && (reason == Some(RoundBudgetExhausted) <==> !late && !full && e.recommended && last)
      && (reason == Some(RemoteQueryBudgetExhausted) <==> !late && !full && e.recommended && !last && spent)
      && (reason == Some(SourceUnavailable) <==> !late && !full && e.recommended && !last && !spent && down)
      && (reason == Some(SafeAbstention) <==> !late && !full && e.recommended && !last && !spent && !down && e.integrated <= 0)
      && (reason == None <==> !late && !full && e.recommended && !last && !spent && !down && e.integrated > 0)
  {
    assert e.traces != [] ==> (AllToolsFailed(e) <==> NoneWorked(e.traces));
    hide AllToolsFailed, NoneWorked;
  }

  /** The loop record apart from the decision: what is missing is a default, and no limit is below one. */
  lemma InitializeMeans(existing: Existing, defaults: Defaults)
    ensures
      var loop := InitializeLoop(existing, defaults);
      && (existing.maxRounds.Some? && existing.maxRounds.value >= 1 ==> loop.maxRounds == existing.maxRounds.value)
      && (existing.maxRounds.None? && defaults.maxRounds >= 1 ==> loop.maxRounds == defaults.maxRounds)
      && (existing.maxServices.Some? && existing.maxServices.value >= 1 ==> loop.maxServices == existing.maxServices.value)
      && (existing.maxServices.None? && defaults.maxServices >= 1 ==> loop.maxServices == defaults.maxServices)
      && (existing.maxBytes.Some? && existing.maxBytes.value >= 1 ==> loop.maxBytes == existing.maxBytes.value)
      && (existing.maxBytes.None? && defaults.maxBytes >= 1 ==> loop.maxBytes == defaults.maxBytes)
      && (existing.maxElapsed.Some? && existing.maxElapsed.value >= 1.0 ==> loop.maxElapsed == existing.maxElapsed.value)
      && (existing.maxElapsed.None? && defaults.maxElapsed >= 1.0 ==> loop.maxElapsed == defaults.maxElapsed)
      && (existing.usedBytes.Some? && existing.usedBytes.value >= 0 ==> loop.usedBytes == existing.usedBytes.value)
      && (existing.elapsed.Some? && existing.elapsed.value >= 0.0 ==> loop.elapsed == existing.elapsed.value)
      && (loop.round != 0 ==> existing.round == Some(loop.round)) && loop.stopReason == existing.stopReason
      && (loop.continuing <==> existing.continuing == Some(true))
  {
  }

  /** A continue decision always leaves a round to spend: rounds left is the measure between reviews. */
  lemma RoundsRunOut(existing: Existing, defaults: Defaults, e: Evidence)
    ensures
      var start, after := InitializeLoop(existing, defaults), AfterRound(existing, defaults, e);
      && after.round == start.round + 1 && after.maxRounds == start.maxRounds && Filled(start)
      && (after.continuing ==> 0 < after.maxRounds - after.round < start.maxRounds - start.round)
  {
  }

  /** `expansion_router` */
  datatype Route = SemanticCorrelate | InterpretIncident

  function ExpansionRouter(loop: Loop): Route {
    if loop.continuing then SemanticCorrelate else InterpretIncident
  }
}
