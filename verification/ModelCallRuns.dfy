/**
 What any sequence of model calls does to the circuit and to the budgets of the incidents they serve.
*/
module ModelCallRuns {
  import opened Options
  import opened ModelBudget
  import opened ModelCalls

  /******* One call *******/

  /** Requests are made attempt by attempt, and all but an answered last one failed. */
  ghost predicate Tries(s: Settings, c: Call, k: nat, t: Trace) {
    && |t.requests| <= AtLeastZero(s.retries + 1 - k)
    && (t.ending.ProviderFailed? ==> |t.requests| == AtLeastZero(s.retries + 1 - k))
    && !t.ending.CircuitOpen?
    && (forall i: nat :: k <= i < k + |t.requests| ==>
          && t.requests[i - k] == RequestOf(s, MomentAt(c, i))
          && (Answers(MomentAt(c, i), c.recorded) <==> t.ending.Answered? && i == k + |t.requests| - 1))
    && (t.ending.Answered? ==> t.requests != [])
  }

  /** One usage entry for each request, and one more when the budget blocks the call. */
  ghost predicate Accounts(c: Call, t: Trace) {
    if !c.recorded then t.entries == []
    else
      && |t.entries| == |t.requests| + (if t.ending.BudgetExhausted? then 1 else 0)
      && (forall j :: 0 <= j < |t.requests| ==>
            t.entries[j].called && t.entries[j].status == if t.ending.Answered? && j == |t.requests| - 1 then Succeeded else Failed)
      && (t.ending.BudgetExhausted? ==> t.entries[|t.requests|] == BLOCKED_ENTRY)
  }

  lemma RetryTries(s: Settings, c: Call, k: nat, entries: seq<Entry>, rest: Trace)
    requires k <= s.retries && !Answers(MomentAt(c, k), c.recorded) && Tries(s, c, k + 1, rest)
    ensures Tries(s, c, k, After([RequestOf(s, MomentAt(c, k))], entries, rest))
  {
    hide Answers, RequestOf, MomentAt;
    var t := After([RequestOf(s, MomentAt(c, k))], entries, rest);
    forall i: nat | k <= i < k + |t.requests|
      ensures t.requests[i - k] == RequestOf(s, MomentAt(c, i))
      ensures Answers(MomentAt(c, i), c.recorded) <==> t.ending.Answered? && i == k + |t.requests| - 1
    {
      if i > k { assert t.requests[i - k] == rest.requests[i - (k + 1)]; }
    }
  }

  lemma {:induction false} AttemptsTry(s: Settings, c: Call, k: nat, pending: seq<Entry>)
    ensures Tries(s, c, k, Attempts(s, c, k, pending))
    decreases s.retries + 1 - k
  {
    hide Stop, RequestOf, Answers, MomentAt;
    if k <= s.retries {
      var step := Try(s, c, MomentAt(c, k), pending);
      if step.ending.None? {
        AttemptsTry(s, c, k + 1, pending + step.entries);
        RetryTries(s, c, k, step.entries, Attempts(s, c, k + 1, pending + step.entries));
        hide Tries;
      }
    }
  }

  lemma {:induction false} AttemptsAccount(s: Settings, c: Call, k: nat, pending: seq<Entry>)
    ensures Accounts(c, Attempts(s, c, k, pending))
    decreases s.retries + 1 - k
  {
    hide Stop, RequestOf, Answers, MomentAt;
    if k <= s.retries {
      var step := Try(s, c, MomentAt(c, k), pending);
      if step.ending.None? {
        AttemptsAccount(s, c, k + 1, pending + step.entries);
      }
    }
  }

  /** What one call does, whatever the circuit and the budget. */
  lemma CallBounds(s: Settings, c: Call, openedUntil: real, pending: seq<Entry>)
    ensures
      var t := TraceOf(s, c, openedUntil, pending);
      && (t.ending.CircuitOpen? <==> openedUntil > c.start)
      && Accounts(c, t)
      && if t.ending.CircuitOpen? then t.requests == [] else Tries(s, c, 0, t)
  {
    AttemptsTry(s, c, 0, pending);
    AttemptsAccount(s, c, 0, pending);
    hide Attempts, Tries, Accounts;
    if openedUntil > c.start { NothingAccounts(c); }
  }

  lemma NothingAccounts(c: Call)
    ensures Accounts(c, Trace([], [], CircuitOpen))
  {
  }

  /** A request never outlives the deadline it was made under, up to the one millisecond floor. */
  lemma TimeoutsRespectDeadline(s: Settings, c: Call, openedUntil: real, pending: seq<Entry>, j: nat)
    requires j < |TraceOf(s, c, openedUntil, pending).requests|
    ensures
      var r, m := TraceOf(s, c, openedUntil, pending).requests[j], MomentAt(c, j);
      && r.at == m.at && r.timeout <= s.timeout
      && (m.remaining.None? ==> r.timeout == s.timeout)
      && (m.remaining.Some? ==>
            && (r.timeout <= m.remaining.value || r.timeout <= 0.001)
            && (r.timeout < s.timeout ==> r.timeout >= m.remaining.value && r.timeout >= 0.001))
  {
    CallBounds(s, c, openedUntil, pending);
  }

  /** The entries kept before the i-th request of a loop. */
  ghost function Written(c: Call, pending: seq<Entry>, t: Trace, i: nat): seq<Entry> {
    if c.recorded && i <= |t.entries| then pending + t.entries[..i] else pending
  }

  /** Attempt k has time left, and the budget admits it or not on these entries. */
  ghost predicate InTime(c: Call, k: nat) {
    MomentAt(c, k).remaining.Some? ==> MomentAt(c, k).remaining.value > 0.0
  }

  ghost function Verdict(s: Settings, c: Call, written: seq<Entry>): Option<BudgetStop> {
    Stop(if c.recorded then c.ledger + written else c.ledger, c.demand, s.policy)
  }

  /** The i-th request of the loop was in time, and authorised on the entries before it. */
  ghost predicate Admitted(s: Settings, c: Call, k: nat, pending: seq<Entry>, t: Trace, i: nat) {
    InTime(c, k + i) && Verdict(s, c, Written(c, pending, t, i)) == None
  }

  /**
   Why a loop that starts with attempt k ended, and what it wrote: every request was in time and
   authorised on the entries before it, and the loop ends with the first attempt that is late, blocked or
   answered, or with the last.
  */
  ghost predicate Ends(s: Settings, c: Call, k: nat, pending: seq<Entry>, t: Trace) {
    var n := |t.requests|;
    && (forall i :: 0 <= i < n ==> Admitted(s, c, k, pending, t, i))
    && (t.ending.DeadlineExhausted? ==> !InTime(c, k + n))
    && (t.ending.BudgetExhausted? ==> InTime(c, k + n) && Verdict(s, c, Written(c, pending, t, n)) == Some(t.ending.reason))
    && (forall i :: 0 <= i < n && i < |t.entries| ==> t.entries[i] == EntryOf(s, c, k, t, i))
  }

  /** Only an answered last request is charged what was reported; all others count as failed. */
  ghost function EntryOf(s: Settings, c: Call, k: nat, t: Trace, i: nat): Entry {
    var outcome := MomentAt(c, k + i).outcome;
    if t.ending.Answered? && i == |t.requests| - 1
    then SuccessEntry(if outcome.Response? then outcome.usage else None, c.demand, s.policy.pricing)
    else FailedEntry(c.demand, s.policy.pricing)
  }

  lemma StepEnds(s: Settings, c: Call, k: nat, pending: seq<Entry>, step: Step)
    requires step == Try(s, c, MomentAt(c, k), pending) && step.ending.Some?
    ensures Ends(s, c, k, pending, Trace(step.requests, step.entries, step.ending.value))
  {
    var t := Trace(step.requests, step.entries, step.ending.value);
    hide Stop, RequestOf, SuccessEntry, FailedEntry;
    assert Written(c, pending, t, 0) == pending by { assert step.entries[..0] == [] && pending + [] == pending; }
    assert k + 0 == k && |t.requests| <= 1;
    assert t.requests != [] ==> InTime(c, k) && Verdict(s, c, pending) == None;
    forall i | 0 <= i < |t.requests| ensures Admitted(s, c, k, pending, t, i) {
      assert i == 0;
    }
  }

  lemma {:induction false} AttemptsEnd(s: Settings, c: Call, k: nat, pending: seq<Entry>)
    ensures Ends(s, c, k, pending, Attempts(s, c, k, pending))
    decreases s.retries + 1 - k
  {
    if k <= s.retries {
      var step := Try(s, c, MomentAt(c, k), pending);
      hide Stop, Ends, Try, MomentAt;
      if step.ending.None? {
        AttemptsEnd(s, c, k + 1, pending + step.entries);
        AttemptsAccount(s, c, k + 1, pending + step.entries);
        AttemptsTry(s, c, k + 1, pending + step.entries);
        EndsEarlier(s, c, k, pending, step, Attempts(s, c, k + 1, pending + step.entries));
      } else {
        StepEnds(s, c, k, pending, step);
      }
    } else {
      hide Stop, Try;
    }
  }

  lemma WrittenEarlier(c: Call, pending: seq<Entry>, step: Step, rest: Trace, i: nat)
    requires 0 < i <= |step.requests + rest.requests| && |step.entries| == (if c.recorded then 1 else 0)
    requires c.recorded ==> |rest.entries| >= |rest.requests| && |step.requests| == 1
    ensures Written(c, pending, After(step.requests, step.entries, rest), i) == Written(c, pending + step.entries, rest, i - 1)
  {
    var t := After(step.requests, step.entries, rest);
    if c.recorded {
      assert t.entries[..i] == step.entries + rest.entries[..i - 1];
      assert pending + (step.entries + rest.entries[..i - 1]) == pending + step.entries + rest.entries[..i - 1];
    } else {
      assert pending + step.entries == pending;
    }
  }

  /** What a failed attempt leaves: one request, and one entry where entries are kept. */
  ghost predicate FailedStep(s: Settings, c: Call, k: nat, pending: seq<Entry>, step: Step) {
    && |step.requests| == 1 && InTime(c, k) && Verdict(s, c, pending) == None
    && step.entries == if c.recorded then [FailedEntry(c.demand, s.policy.pricing)] else []
  }

  lemma FailedStepOf(s: Settings, c: Call, k: nat, pending: seq<Entry>, step: Step)
    requires step == Try(s, c, MomentAt(c, k), pending) && step.ending.None?
    ensures FailedStep(s, c, k, pending, step)
  {
    hide Stop, RequestOf, FailedEntry, SuccessEntry;
  }

  lemma AdmittedEarlier(s: Settings, c: Call, k: nat, pending: seq<Entry>, step: Step, rest: Trace, i: nat)
    requires FailedStep(s, c, k, pending, step) && Accounts(c, rest) && i <= |rest.requests|
    requires i > 0 ==> Admitted(s, c, k + 1, pending + step.entries, rest, i - 1)
    ensures Admitted(s, c, k, pending, After(step.requests, step.entries, rest), i)
  {
    hide Verdict, InTime, FailedEntry;
    var t := After(step.requests, step.entries, rest);
    if i == 0 {
      assert t.entries[..0] == [] && pending + [] == pending && k + 0 == k;
    } else {
      WrittenEarlier(c, pending, step, rest, i);
      assert k + 1 + (i - 1) == k + i;
    }
  }

  lemma EntryEarlier(s: Settings, c: Call, k: nat, pending: seq<Entry>, step: Step, rest: Trace, i: nat)
    requires FailedStep(s, c, k, pending, step) && (rest.ending.Answered? ==> rest.requests != [])
    requires i < |step.requests + rest.requests| && i < |step.entries + rest.entries|
    requires i > 0 && c.recorded ==> rest.entries[i - 1] == EntryOf(s, c, k + 1, rest, i - 1)
    requires !c.recorded ==> rest.entries == []
    ensures
      var t := After(step.requests, step.entries, rest);
      t.entries[i] == EntryOf(s, c, k, t, i)
  {
    hide Verdict, InTime, FailedEntry, SuccessEntry, MomentAt;
    assert i > 0 ==> k + 1 + (i - 1) == k + i;
  }

  lemma EndsEarlier(s: Settings, c: Call, k: nat, pending: seq<Entry>, step: Step, rest: Trace)
    requires step == Try(s, c, MomentAt(c, k), pending) && step.ending.None?
    requires Ends(s, c, k + 1, pending + step.entries, rest) && Accounts(c, rest) && (rest.ending.Answered? ==> rest.requests != [])
    ensures Ends(s, c, k, pending, After(step.requests, step.entries, rest))
  {
    FailedStepOf(s, c, k, pending, step);
    var t := After(step.requests, step.entries, rest);
    hide Try, MomentAt, Verdict, InTime, Admitted, EntryOf, Written, FailedEntry;
    assert |step.entries| == if c.recorded then 1 else 0;
    var n := |t.requests|;
    forall i | 0 <= i < n ensures Admitted(s, c, k, pending, t, i) { AdmittedEarlier(s, c, k, pending, step, rest, i); }
    forall i | 0 <= i < n && i < |t.entries| ensures t.entries[i] == EntryOf(s, c, k, t, i) {
      EntryEarlier(s, c, k, pending, step, rest, i);
    }
    WrittenEarlier(c, pending, step, rest, n);
    assert k + 1 + (n - 1) == k + n;
  }

  /** Why a call ends as it does, and exactly what it leaves in the ledger. */
  lemma CallEnds(s: Settings, c: Call, openedUntil: real, pending: seq<Entry>)
    requires openedUntil <= c.start
    ensures Ends(s, c, 0, pending, TraceOf(s, c, openedUntil, pending))
    ensures Accounts(c, TraceOf(s, c, openedUntil, pending))
  {
    AttemptsEnd(s, c, 0, pending);
    CallBounds(s, c, openedUntil, pending);
    hide Attempts, Ends, Accounts;
  }

  /** The clock readings of a call lie between its start and its finish. */
  ghost predicate Timed(c: Call) {
    c.start <= c.finish && forall k: nat :: c.start <= MomentAt(c, k).at <= c.finish
  }

  /** No request is made while the circuit is open. */
  lemma NoRequestWhileOpen(s: Settings, c: Call, openedUntil: real, pending: seq<Entry>)
    requires Timed(c)
    ensures forall r :: r in TraceOf(s, c, openedUntil, pending).requests ==> openedUntil <= r.at && c.start <= r.at <= c.finish
  {
    CallBounds(s, c, openedUntil, pending);
    hide TraceOf, Accounts, Answers, MomentAt;
    var t := TraceOf(s, c, openedUntil, pending);
    forall r | r in t.requests ensures openedUntil <= r.at && c.start <= r.at <= c.finish {
      var j: nat :| j < |t.requests| && t.requests[j] == r;
      assert t.requests[j - 0] == RequestOf(s, MomentAt(c, j));
    }
  }

  /******* Runs *******/

  /** An incident's ledger and the entries its current node has not settled yet. */
  datatype Books = Books(ledger: seq<Entry>, pending: seq<Entry>)

  datatype State = State(openedUntil: real, books: map<nat, Books>)

  const FRESH := State(0.0, map[])

  datatype Event = Ask(incident: nat, call: Call) | Settle(incident: nat) | Reset

  function BooksOf(st: State, incident: nat): Books {
    if incident in st.books then st.books[incident] else Books([], [])
  }

  function Asked(st: State, e: Event): Call
    requires e.Ask?
  {
    e.call.(ledger := BooksOf(st, e.incident).ledger)
  }

  function TraceAt(s: Settings, st: State, e: Event): Trace
    requires e.Ask?
  {
    TraceOf(s, Asked(st, e), st.openedUntil, if e.call.recorded then BooksOf(st, e.incident).pending else [])
  }

  /** One event; settling moves the pending entries into the ledger, as `append_usage` does. */
  function Next(s: Settings, st: State, e: Event): State {
    match e
    case Ask(incident, call) =>
      var t, books := TraceAt(s, st, e), BooksOf(st, incident);
      State(CircuitAfter(s, call, st.openedUntil, t.ending), st.books[incident := books.(pending := books.pending + t.entries)])
    case Settle(incident) =>
      var books := BooksOf(st, incident);
      st.(books := st.books[incident := Books(books.ledger + books.pending, [])])
    case Reset => st.(openedUntil := 0.0)
  }

  function Run(s: Settings, events: seq<Event>): State {
    if events == [] then FRESH else Next(s, Run(s, events[..|events| - 1]), events[|events| - 1])
  }

  lemma RunStep(s: Settings, events: seq<Event>, n: nat)
    requires n < |events|
    ensures Run(s, events[..n + 1]) == Next(s, Run(s, events[..n]), events[n])
  {
    assert events[..n + 1][..n] == events[..n];
  }

  /** What an event does to the circuit: an answer or a reset closes it, a call out of attempts opens it, nothing else matters. */
  lemma CircuitMeans(s: Settings, st: State, e: Event)
    ensures
      var after := Next(s, st, e).openedUntil;
      match e
      case Reset => after == 0.0
      case Settle(_) => after == st.openedUntil
      case Ask(_, call) =>
        var ending := TraceAt(s, st, e).ending;
        after == if ending.Answered? then 0.0 else if ending.ProviderFailed? then call.finish + s.openSeconds else st.openedUntil
  {
    hide TraceAt, BooksOf;
  }

  /** What an event does to an incident's books: a call adds its entries to those pending, settling moves them into the ledger. */
  lemma BooksMean(s: Settings, st: State, e: Event, incident: nat)
    ensures
      var before, after := BooksOf(st, incident), BooksOf(Next(s, st, e), incident);
      match e
      case Reset => after == before
      case Settle(other) => after == if other == incident then Books(before.ledger + before.pending, []) else before
      case Ask(other, _) =>
        after == if other == incident then Books(before.ledger, before.pending + TraceAt(s, st, e).entries) else before
  {
    hide TraceAt;
  }

  /******* The circuit *******/

  /** Event i exhausted every attempt of its call. */
  ghost predicate Exhausts(s: Settings, events: seq<Event>, i: nat) {
    i < |events| && events[i].Ask? && TraceAt(s, Run(s, events[..i]), events[i]).ending.ProviderFailed?
  }

  /** An open circuit goes back to one call all of whose attempts failed. */
  ghost predicate OpenedBy(s: Settings, events: seq<Event>, openedUntil: real, i: nat) {
    && Exhausts(s, events, i) && openedUntil == events[i].call.finish + s.openSeconds
    && |TraceAt(s, Run(s, events[..i]), events[i]).requests| == AtLeastZero(s.retries + 1)
  }

  lemma OpenedStill(s: Settings, events: seq<Event>, n: nat, openedUntil: real, i: nat)
    requires n <= |events| && OpenedBy(s, events[..n], openedUntil, i)
    ensures OpenedBy(s, events, openedUntil, i)
  {
    assert events[..n][..i] == events[..i];
  }

  lemma {:induction false} CircuitOpensOnlyAfterFailure(s: Settings, events: seq<Event>)
    requires Run(s, events).openedUntil != 0.0
    ensures exists i :: OpenedBy(s, events, Run(s, events).openedUntil, i)
  {
    var n := |events| - 1;
    var before, e := Run(s, events[..n]), events[n];
    if e.Ask? {
      CallBounds(s, Asked(before, e), before.openedUntil, if e.call.recorded then BooksOf(before, e.incident).pending else []);
    }
    if e.Ask? && TraceAt(s, before, e).ending.ProviderFailed? {
      assert OpenedBy(s, events, Run(s, events).openedUntil, n);
    } else {
      CircuitOpensOnlyAfterFailure(s, events[..n]);
      var i :| OpenedBy(s, events[..n], before.openedUntil, i);
      OpenedStill(s, events, n, before.openedUntil, i);
    }
  }

  /** Calls follow one another. */
  ghost predicate Timely(events: seq<Event>) {
    && (forall i :: 0 <= i < |events| && events[i].Ask? ==> Timed(events[i].call))
    && (forall i, j :: 0 <= i < j < |events| && events[i].Ask? && events[j].Ask? ==> events[i].call.finish <= events[j].call.start)
  }

  /** Since event i either nothing touched the circuit, or a call has started after the open period. */
  ghost predicate Cooling(s: Settings, events: seq<Event>, i: nat, n: nat, until: real)
    requires n <= |events|
  {
    Run(s, events[..n]).openedUntil == until || exists m :: i < m < n && events[m].Ask? && until <= events[m].call.start
  }

  lemma {:induction false} StaysCooling(s: Settings, events: seq<Event>, i: nat, n: nat)
    requires Exhausts(s, events, i) && i < n <= |events|
    requires forall m :: i < m < n ==> !events[m].Reset?
    ensures Cooling(s, events, i, n, events[i].call.finish + s.openSeconds)
    decreases n
  {
    var until := events[i].call.finish + s.openSeconds;
    RunStep(s, events, n - 1);
    if n > i + 1 {
      StaysCooling(s, events, i, n - 1);
      hide Run, TraceOf, BooksOf;
      CoolingStep(s, events, i, n - 1, until);
    }
  }

  lemma CoolingStep(s: Settings, events: seq<Event>, i: nat, n: nat, until: real)
    requires i < n < |events| && Cooling(s, events, i, n, until) && !events[n].Reset?
    requires Run(s, events[..n + 1]) == Next(s, Run(s, events[..n]), events[n])
    ensures Cooling(s, events, i, n + 1, until)
  {
    hide Run, Attempts, BooksOf;
    var before, e := Run(s, events[..n]), events[n];
    if m :| i < m < n && events[m].Ask? && until <= events[m].call.start {
      assert i < m < n + 1;
    }
  }

  /** After a call that used up its attempts, no request is made before the open period is over. */
  lemma CoolsDown(s: Settings, events: seq<Event>, i: nat, j: nat)
    requires Timely(events) && Exhausts(s, events, i) && i < j < |events| && events[j].Ask?
    requires forall m :: i < m < j ==> !events[m].Reset?
    ensures forall r :: r in TraceAt(s, Run(s, events[..j]), events[j]).requests ==> events[i].call.finish + s.openSeconds <= r.at
  {
    var until, st := events[i].call.finish + s.openSeconds, Run(s, events[..j]);
    StaysCooling(s, events, i, j);
    SameTimes(st, events[j]);
    var pending := if events[j].call.recorded then BooksOf(st, events[j].incident).pending else [];
    NoRequestWhileOpen(s, Asked(st, events[j]), st.openedUntil, pending);
    hide Run, TraceOf, BooksOf, Timed, Exhausts;
    if st.openedUntil != until {
      var m :| i < m < j && events[m].Ask? && until <= events[m].call.start;
      StartsBeforeFinish(events[m].call);
    }
  }

  lemma StartsBeforeFinish(c: Call)
    requires Timed(c)
    ensures c.start <= c.finish
  {
  }

  lemma SameTimes(st: State, e: Event)
    requires e.Ask? && Timed(e.call)
    ensures Timed(Asked(st, e)) && Asked(st, e).start == e.call.start && Asked(st, e).finish == e.call.finish
  {
    forall k: nat ensures MomentAt(Asked(st, e), k) == MomentAt(e.call, k) {}
  }

  /******* The budgets *******/

  function Calls(entries: seq<Entry>): int {
    BudgetTotals(entries).calls
  }

  lemma AppendOne(ledger: seq<Entry>, pending: seq<Entry>, e: Entry)
    ensures BudgetTotals(ledger + (pending + [e])) == Add(BudgetTotals(ledger + pending), e)
  {
    assert ledger + (pending + [e]) == ledger + pending + [e];
    TotalsAdd(ledger + pending, e);
  }

  /** One attempt of a recorded call adds exactly one entry, or none when the deadline stops it. */
  lemma TryEntries(s: Settings, c: Call, m: Moment, pending: seq<Entry>)
    requires c.recorded
    ensures
      var step := Try(s, c, m, pending);
      && (step.requests == [] ==> step.entries == [] || step.entries == [BLOCKED_ENTRY])
      && (step.requests != [] ==>
            && |step.requests| == 1 && |step.entries| == 1 && step.entries[0].called
            && Stop(c.ledger + pending, c.demand, s.policy).None?
            && (step.entries[0] == FailedEntry(c.demand, s.policy.pricing)
                || (m.outcome.Response? && step.entries[0] == AnswerEntry(c, m, s.policy.pricing))))
  {
    hide Stop, RequestOf;
  }

  lemma TryCounts(s: Settings, c: Call, m: Moment, pending: seq<Entry>)
    requires c.recorded
    ensures
      var step := Try(s, c, m, pending);
      && Calls(c.ledger + (pending + step.entries)) == Calls(c.ledger + pending) + |step.requests|
      && |step.requests| <= 1
      && (step.requests != [] ==> Calls(c.ledger + pending) < AtLeastZero(s.policy.limits.maxCalls))
  {
    TryEntries(s, c, m, pending);
    var step := Try(s, c, m, pending);
    hide Try, AnswerEntry, FailedEntry, BudgetTotals;
    if step.entries != [] {
      assert step.entries == [step.entries[0]];
      AppendOne(c.ledger, pending, step.entries[0]);
    } else {
      assert pending + step.entries == pending;
    }
  }

  /** The requests of a recorded call are all counted, and the count never passes the limit. */
  lemma {:induction false} AttemptsCount(s: Settings, c: Call, k: nat, pending: seq<Entry>)
    requires c.recorded
    ensures
      var t, before := Attempts(s, c, k, pending), Calls(c.ledger + pending);
      && Calls(c.ledger + (pending + t.entries)) == before + |t.requests|
      && (t.requests != [] ==> before + |t.requests| <= AtLeastZero(s.policy.limits.maxCalls))
    decreases s.retries + 1 - k
  {
    hide Try, Calls, AtLeastZero, MomentAt;
    var t := Attempts(s, c, k, pending);
    if k > s.retries {
      assert pending + t.entries == pending;
    } else {
      var step := Try(s, c, MomentAt(c, k), pending);
      TryCounts(s, c, MomentAt(c, k), pending);
      if step.ending.None? {
        var rest := Attempts(s, c, k + 1, pending + step.entries);
        AttemptsCount(s, c, k + 1, pending + step.entries);
        assert t.entries == step.entries + rest.entries && |t.requests| == |step.requests| + |rest.requests|;
        hide Attempts;
        assert pending + t.entries == pending + step.entries + rest.entries;
      }
    }
  }

  /** The provider reports no more than was reserved. */
  ghost predicate HonestCall(c: Call) {
    forall k: nat :: MomentAt(c, k).outcome.Response? ==> UsageHonest(MomentAt(c, k).outcome.usage, c.demand)
  }

  lemma TryKeepsBudgets(s: Settings, c: Call, m: Moment, pending: seq<Entry>)
    requires c.recorded && Fair(s.policy.pricing) && WithinLimits(BudgetTotals(c.ledger + pending), s.policy.limits)
    requires m.outcome.Response? ==> UsageHonest(m.outcome.usage, c.demand)
    ensures WithinLimits(BudgetTotals(c.ledger + (pending + Try(s, c, m, pending).entries)), s.policy.limits)
  {
    TryEntries(s, c, m, pending);
    var step, p := Try(s, c, m, pending), s.policy;
    EntriesAreHonest(if m.outcome.Response? then m.outcome.usage else None, c.demand, p.pricing);
    hide Try, FailedEntry, SuccessEntry, BudgetTotals, Fair, UsageHonest, Stop, Honest;
    if step.entries == [] {
      assert pending + step.entries == pending;
    } else {
      assert step.entries == [step.entries[0]];
      AppendOne(c.ledger, pending, step.entries[0]);
      if step.requests != [] {
        assert c.ledger + (pending + step.entries) == c.ledger + pending + [step.entries[0]];
        AuthorisedKeepsBudgets(c.ledger + pending, c.demand, p, step.entries[0]);
      }
    }
  }

  lemma {:induction false} AttemptsKeepBudgets(s: Settings, c: Call, k: nat, pending: seq<Entry>)
    requires c.recorded && HonestCall(c) && Fair(s.policy.pricing)
    requires WithinLimits(BudgetTotals(c.ledger + pending), s.policy.limits)
    ensures WithinLimits(BudgetTotals(c.ledger + (pending + Attempts(s, c, k, pending).entries)), s.policy.limits)
    decreases s.retries + 1 - k
  {
    hide Try, WithinLimits, Fair, BudgetTotals, UsageHonest;
    var t := Attempts(s, c, k, pending);
    if k > s.retries {
      assert pending + t.entries == pending;
    } else {
      var step := Try(s, c, MomentAt(c, k), pending);
      TryKeepsBudgets(s, c, MomentAt(c, k), pending);
      if step.ending.None? {
        AttemptsKeepBudgets(s, c, k + 1, pending + step.entries);
        assert pending + t.entries == pending + step.entries + Attempts(s, c, k + 1, pending + step.entries).entries;
      }
    }
  }

  /** Everything charged to an incident so far. */
  function Charged(st: State, incident: nat): seq<Entry> {
    BooksOf(st, incident).ledger + BooksOf(st, incident).pending
  }

  function RequestsOf(s: Settings, st: State, e: Event, incident: nat): nat {
    if e.Ask? && e.incident == incident then |TraceAt(s, st, e).requests| else 0
  }

  /** Requests made to the provider for an incident over a whole run. */
  function RequestsMade(s: Settings, events: seq<Event>, incident: nat): nat {
    if events == [] then 0
    else
      var front := events[..|events| - 1];
      RequestsMade(s, front, incident) + RequestsOf(s, Run(s, front), events[|events| - 1], incident)
  }

  ghost predicate Recorded(events: seq<Event>, incident: nat) {
    forall e :: e in events && e.Ask? && e.incident == incident ==> e.call.recorded
  }

  lemma ChargedUnlessAsked(s: Settings, st: State, e: Event, incident: nat)
    requires e.Ask? ==> e.incident != incident
    ensures Charged(Next(s, st, e), incident) == Charged(st, incident)
  {
    hide TraceAt, CircuitAfter;
  }

  lemma ChargedWhenAsked(s: Settings, st: State, e: Event)
    requires e.Ask?
    ensures Charged(Next(s, st, e), e.incident) ==
            BooksOf(st, e.incident).ledger + (BooksOf(st, e.incident).pending + TraceAt(s, st, e).entries)
  {
    hide TraceAt, CircuitAfter;
  }

  lemma AskCounts(s: Settings, st: State, e: Event)
    requires e.Ask? && e.call.recorded
    ensures
      var asked, before := |TraceAt(s, st, e).requests|, Calls(Charged(st, e.incident));
      && Calls(Charged(Next(s, st, e), e.incident)) == before + asked
      && (asked > 0 ==> before + asked <= AtLeastZero(s.policy.limits.maxCalls))
  {
    ChargedWhenAsked(s, st, e);
    var books, t := BooksOf(st, e.incident), TraceAt(s, st, e);
    AttemptsCount(s, Asked(st, e), 0, books.pending);
    hide Next, Attempts, Calls;
    if t.ending.CircuitOpen? { assert t.entries == [] ==> books.pending + t.entries == books.pending; }
  }

  /**
   In every run, the requests made for an incident whose calls are recorded are exactly those counted
   against it, and they never exceed the limit, whatever the provider reports.
  */
  lemma {:induction false} RequestsAreCounted(s: Settings, events: seq<Event>, incident: nat)
    requires Recorded(events, incident)
    ensures RequestsMade(s, events, incident) == Calls(Charged(Run(s, events), incident)) <= AtLeastZero(s.policy.limits.maxCalls)
  {
    if events != [] {
      var front, e := events[..|events| - 1], events[|events| - 1];
      RequestsAreCounted(s, front, incident);
      if e.Ask? && e.incident == incident {
        assert e in events;
        AskCounts(s, Run(s, front), e);
      } else {
        ChargedUnlessAsked(s, Run(s, front), e, incident);
      }
      hide Next, Charged, Calls, TraceAt, Recorded;
    }
  }

  ghost predicate HonestRun(events: seq<Event>, incident: nat) {
    forall e :: e in events && e.Ask? && e.incident == incident ==> HonestCall(e.call)
  }

  lemma AskKeepsBudgets(s: Settings, st: State, e: Event)
    requires e.Ask? && e.call.recorded && HonestCall(e.call) && Fair(s.policy.pricing)
    requires WithinLimits(BudgetTotals(Charged(st, e.incident)), s.policy.limits)
    ensures WithinLimits(BudgetTotals(Charged(Next(s, st, e), e.incident)), s.policy.limits)
  {
    ChargedWhenAsked(s, st, e);
    var books, t := BooksOf(st, e.incident), TraceAt(s, st, e);
    assert HonestCall(Asked(st, e)) by {
      forall k: nat ensures MomentAt(Asked(st, e), k) == MomentAt(e.call, k) {}
    }
    hide Next, Attempts, WithinLimits, BudgetTotals, HonestCall, Fair;
    AttemptsKeepBudgets(s, Asked(st, e), 0, books.pending);
    if t.ending.CircuitOpen? { assert t.entries == [] ==> books.pending + t.entries == books.pending; }
  }

  /** While the provider reports no more than was reserved, no budget is ever exceeded. */
  lemma {:induction false} HonestRunsHold(s: Settings, events: seq<Event>, incident: nat)
    requires Recorded(events, incident) && HonestRun(events, incident) && Fair(s.policy.pricing)
    ensures WithinLimits(BudgetTotals(Charged(Run(s, events), incident)), s.policy.limits)
  {
    if events != [] {
      var front, e := events[..|events| - 1], events[|events| - 1];
      hide WithinLimits, BudgetTotals, HonestCall, Fair, Charged, Next;
      HonestRunsHold(s, front, incident);
      if e.Ask? && e.incident == incident {
        assert e in events;
        AskKeepsBudgets(s, Run(s, front), e);
      } else {
        ChargedUnlessAsked(s, Run(s, front), e, incident);
      }
    }
  }
}
