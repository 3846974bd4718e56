/**
 The bounded policy behind every model request: a process-wide circuit, retries under a deadline, and
 the incident budget.  Clock readings and the provider's behaviour are an oracle.
*/
module ModelCalls {
  import opened Basics
  import opened Options
  import opened ModelBudget

  datatype Settings = Settings(retries: int, timeout: real, openSeconds: real, policy: Policy)

  /** `Unusable`: a response whose usage cannot be read, noticed only where usage is recorded. */
  datatype Outcome = Refusal | Unusable | Response(usage: Option<Usage>)

  /** What attempt k meets: the time left, the clock at the request, and the outcome. */
  datatype Moment = Moment(remaining: Option<real>, at: real, outcome: Outcome)

  /** One call of `create_response`: `recorded` says whether usage entries are kept. */
  datatype Call = Call(
    start: real, finish: real, demand: Demand, ledger: seq<Entry>, recorded: bool, moments: seq<Moment>)

  /** The oracle at attempt k; a provider nothing is known about refuses. */
  function MomentAt(c: Call, k: nat): Moment {
    if k < |c.moments| then c.moments[k] else Moment(None, c.finish, Refusal)
  }

  datatype Request = Request(at: real, timeout: real)

  datatype Ending =
    CircuitOpen | DeadlineExhausted | BudgetExhausted(reason: BudgetStop) | ProviderFailed | Answered

  datatype Trace = Trace(requests: seq<Request>, entries: seq<Entry>, ending: Ending)

  function MinReal(a: real, b: real): real {
    if a < b then a else b
  }

  function MaxReal(a: real, b: real): real {
    if a < b then b else a
  }

  function RequestOf(s: Settings, m: Moment): Request {
    Request(m.at, if m.remaining.Some? then MinReal(s.timeout, MaxReal(m.remaining.value, 0.001)) else s.timeout)
  }

  predicate Answers(m: Moment, recorded: bool) {
    m.outcome.Response? || (m.outcome.Unusable? && !recorded)
  }

  /** Entries the budget check of the next attempt sees: the ledger, and pending ones where recorded. */
  function Seen(c: Call, pending: seq<Entry>): seq<Entry> {
    if c.recorded then c.ledger + pending else c.ledger
  }

  function AnswerEntry(c: Call, m: Moment, pricing: Pricing): Entry {
    SuccessEntry(if m.outcome.Response? then m.outcome.usage else None, c.demand, pricing)
  }

  function After(requests: seq<Request>, entries: seq<Entry>, rest: Trace): Trace {
    Trace(requests + rest.requests, entries + rest.entries, rest.ending)
  }

  /** One attempt; it has no ending when the provider failed it and the loop goes on. */
  datatype Step = Step(requests: seq<Request>, entries: seq<Entry>, ending: Option<Ending>)

  function Try(s: Settings, c: Call, m: Moment, pending: seq<Entry>): Step {
    if m.remaining.Some? && m.remaining.value <= 0.0 then Step([], [], Some(DeadlineExhausted))
    else
      match Stop(Seen(c, pending), c.demand, s.policy)
      case Some(reason) => Step([], When(c.recorded, BLOCKED_ENTRY), Some(BudgetExhausted(reason)))
      case None =>
        if Answers(m, c.recorded)
        then Step([RequestOf(s, m)], When(c.recorded, AnswerEntry(c, m, s.policy.pricing)), Some(Answered))
        else Step([RequestOf(s, m)], When(c.recorded, FailedEntry(c.demand, s.policy.pricing)), None)
  }

  /** The loop from attempt k on; `pending` is `budget_entries` at that point. */
  function Attempts(s: Settings, c: Call, k: nat, pending: seq<Entry>): Trace
    decreases s.retries + 1 - k
  {
    if k > s.retries then Trace([], [], ProviderFailed)
    else
      var step := Try(s, c, MomentAt(c, k), pending);
      if step.ending.Some? then Trace(step.requests, step.entries, step.ending.value)
      else After(step.requests, step.entries, Attempts(s, c, k + 1, pending + step.entries))
  }

  function TraceOf(s: Settings, c: Call, openedUntil: real, pending: seq<Entry>): Trace {
    if openedUntil > c.start then Trace([], [], CircuitOpen) else Attempts(s, c, 0, pending)
  }

  function CircuitAfter(s: Settings, c: Call, openedUntil: real, ending: Ending): real {
    if ending.ProviderFailed? then c.finish + s.openSeconds else if ending.Answered? then 0.0 else openedUntil
  }

  lemma AttemptUnfolds(s: Settings, c: Call, k: nat, pending: seq<Entry>, requests: seq<Request>, written: seq<Entry>)
    requires k <= s.retries
    ensures
      var step := Try(s, c, MomentAt(c, k), pending);
      After(requests, written, Attempts(s, c, k, pending)) ==
        if step.ending.Some? then Trace(requests + step.requests, written + step.entries, step.ending.value)
        else After(requests + step.requests, written + step.entries, Attempts(s, c, k + 1, pending + step.entries))
  {
    hide Try;
    var step := Try(s, c, MomentAt(c, k), pending);
    var rest := Attempts(s, c, k + 1, pending + step.entries);
    assert requests + (step.requests + rest.requests) == requests + step.requests + rest.requests;
    assert written + (step.entries + rest.entries) == written + step.entries + rest.entries;
  }

  /** The module-level `_CIRCUIT`, and the caller's list of usage entries. */
  class Circuit {
    var openedUntil: real

    constructor ()
      ensures openedUntil == 0.0
    {
      openedUntil := 0.0;
    }

    method Reset()
      modifies this
      ensures openedUntil == 0.0
    {
      openedUntil := 0.0;
    }
  }

  class UsageLog {
    var entries: seq<Entry>

    method Append(e: Entry)
      modifies this
      ensures entries == old(entries) + [e]
    {
      entries := entries + [e];
    }
  }

  lemma TryEnds(s: Settings, c: Call, m: Moment, pending: seq<Entry>)
    ensures Try(s, c, m, pending).ending != Some(ProviderFailed) && Try(s, c, m, pending).ending != Some(CircuitOpen)
  {
  }

  /** The trace of a loop that has made these requests and entries and may have stopped. */
  ghost function Reached(s: Settings, c: Call, k: nat, requests: seq<Request>, written: seq<Entry>,
                         stopped: Option<Ending>, first: seq<Entry>): Trace
  {
    if stopped.Some? then Trace(requests, written, stopped.value)
    else After(requests, written, Attempts(s, c, k, first + written))
  }

  lemma OneMore(s: Settings, c: Call, k: nat, requests: seq<Request>, written: seq<Entry>, first: seq<Entry>)
    requires k <= s.retries
    ensures
      var step := Try(s, c, MomentAt(c, k), first + written);
      && Reached(s, c, k, requests, written, None, first)
         == Reached(s, c, k + 1, requests + step.requests, written + step.entries, step.ending, first)
      && first + written + step.entries == first + (written + step.entries)
      && step.ending != Some(ProviderFailed)
  {
    var step := Try(s, c, MomentAt(c, k), first + written);
    TryEnds(s, c, MomentAt(c, k), first + written);
    AttemptUnfolds(s, c, k, first + written, requests, written);
    hide Try, Attempts, After;
    assert first + written + step.entries == first + (written + step.entries);
  }

  lemma Finished(s: Settings, c: Call, k: nat, requests: seq<Request>, written: seq<Entry>,
                 stopped: Option<Ending>, first: seq<Entry>)
    requires k > s.retries || stopped.Some?
    ensures Reached(s, c, k, requests, written, stopped, first) ==
            Trace(requests, written, if stopped.Some? then stopped.value else ProviderFailed)
  {
  }

  /** The body of the retry loop. */
  method TryOnce(s: Settings, c: Call, m: Moment, circuit: Circuit, log: UsageLog?)
    returns (requests: seq<Request>, ending: Option<Ending>)
    requires c.recorded == (log != null)
    modifies circuit, log
    ensures
      var step := Try(s, c, m, if log == null then [] else old(log.entries));
      && requests == step.requests && ending == step.ending
      && circuit.openedUntil == (if step.ending == Some(Answered) then 0.0 else old(circuit.openedUntil))
      && (if log != null then log.entries == old(log.entries) + step.entries else step.entries == [])
  {
    hide Stop, RequestOf, Answers, AnswerEntry, FailedEntry;
    if m.remaining.Some? && m.remaining.value <= 0.0 {
      return [], Some(DeadlineExhausted);
    }
    var stop := Stop(if log == null then c.ledger else c.ledger + log.entries, c.demand, s.policy);
    if stop.Some? {
      if log != null { log.Append(BLOCKED_ENTRY); }
      return [], Some(BudgetExhausted(stop.value));
    }
    if Answers(m, c.recorded) {
      if log != null { log.Append(AnswerEntry(c, m, s.policy.pricing)); }
      circuit.Reset();
      return [RequestOf(s, m)], Some(Answered);
    }
    if log != null { log.Append(FailedEntry(c.demand, s.policy.pricing)); }
    return [RequestOf(s, m)], None;
  }

  /** The retry loop; `ProviderFailed` says that no attempt is left. */
  method Retry(s: Settings, c: Call, circuit: Circuit, log: UsageLog?) returns (requests: seq<Request>, ending: Ending)
    requires c.recorded == (log != null)
    modifies circuit, log
    ensures
      var trace := Attempts(s, c, 0, if log == null then [] else old(log.entries));
      && requests == trace.requests && ending == trace.ending
      && circuit.openedUntil == (if ending.Answered? then 0.0 else old(circuit.openedUntil))
      && (log != null ==> log.entries == old(log.entries) + trace.entries)
  {
    ghost var first := if log == null then [] else log.entries;
    ghost var written, all := [], Attempts(s, c, 0, first);
    assert all == After([], [], all) && first == first + written;
    hide *;
    requests := [];
    var attempt := 0;
    var stopped: Option<Ending> := None;
    while attempt <= s.retries && stopped.None?
      invariant circuit.openedUntil == if stopped == Some(Answered) then 0.0 else old(circuit.openedUntil)
      invariant if log != null then log.entries == first + written else first + written == []
      invariant all == Reached(s, c, attempt, requests, written, stopped, first)
      invariant stopped != Some(ProviderFailed)
      decreases s.retries + 1 - attempt
    {
      OneMore(s, c, attempt, requests, written, first);
      ghost var step := Try(s, c, MomentAt(c, attempt), first + written);
      var asked: seq<Request>;
      asked, stopped := TryOnce(s, c, MomentAt(c, attempt), circuit, log);
      requests := requests + asked;
      written := written + step.entries;
      attempt := attempt + 1;
    }
    Finished(s, c, attempt, requests, written, stopped, first);
    ending := if stopped.Some? then stopped.value else ProviderFailed;
  }

  /** `create_response`; `log` is null where the caller keeps no entries, and `requests` is what the provider saw. */
  method CreateResponse(s: Settings, c: Call, circuit: Circuit, log: UsageLog?) returns (requests: seq<Request>, ending: Ending)
    requires c.recorded == (log != null)
    modifies circuit, log
    ensures
      var trace := TraceOf(s, c, old(circuit.openedUntil), if log == null then [] else old(log.entries));
      && requests == trace.requests && ending == trace.ending
      && circuit.openedUntil == CircuitAfter(s, c, old(circuit.openedUntil), trace.ending)
      && (log != null ==> log.entries == old(log.entries) + trace.entries)
  {
    if circuit.openedUntil > c.start {
      return [], CircuitOpen;
    }
    hide Attempts;
    requests, ending := Retry(s, c, circuit, log);
    if ending.ProviderFailed? {
      circuit.openedUntil := c.finish + s.openSeconds;
    }
  }
}
