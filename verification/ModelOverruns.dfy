/**
 When a budget can be passed.  Every request is authorised against everything charged before it, so
 only the entry of the last request can pass a limit, and only by what it reports beyond its
 reservation.
*/
module ModelOverruns {
  import opened Options
  import opened ModelBudget
  import opened ModelCalls
  import opened ModelCallRuns

  /** The entry a request with this demand leaves, whatever the provider reports. */
  ghost predicate Made(e: Entry, d: Demand, pricing: Pricing) {
    e == FailedEntry(d, pricing) || exists usage :: e == SuccessEntry(usage, d, pricing)
  }

  /** The i-th entry belongs to a request authorised against exactly the entries before it. */
  ghost predicate AuthorisedAt(all: seq<Entry>, i: nat, d: Demand, p: Policy)
    requires i < |all|
  {
    all[i].called && Stop(all[..i], d, p).None? && Made(all[i], d, p.pricing)
  }

  ghost predicate SomeAuthorised(all: seq<Entry>, i: nat, ds: set<Demand>, p: Policy)
    requires i < |all|
  {
    exists d :: d in ds && AuthorisedAt(all, i, d, p)
  }

  /** Nothing but authorised requests and budget blocks is ever charged. */
  ghost predicate WellCharged(all: seq<Entry>, ds: set<Demand>, p: Policy) {
    forall i :: 0 <= i < |all| ==> all[i] == BLOCKED_ENTRY || SomeAuthorised(all, i, ds, p)
  }

  lemma WellChargedMore(all: seq<Entry>, ds: set<Demand>, p: Policy, e: Entry, d: Demand)
    requires WellCharged(all, ds, p)
    requires e == BLOCKED_ENTRY || (d in ds && e.called && Stop(all, d, p).None? && Made(e, d, p.pricing))
    ensures WellCharged(all + [e], ds, p)
  {
    hide Stop, Made;
    var more := all + [e];
    forall i | 0 <= i < |more| ensures more[i] == BLOCKED_ENTRY || SomeAuthorised(more, i, ds, p) {
      if i < |all| {
        assert more[..i] == all[..i] && more[i] == all[i];
        if all[i] != BLOCKED_ENTRY {
          var x :| x in ds && AuthorisedAt(all, i, x, p);
          assert AuthorisedAt(more, i, x, p);
        }
      } else {
        assert more[..i] == all && more[i] == e;
        if e != BLOCKED_ENTRY { assert AuthorisedAt(more, i, d, p); }
      }
    }
  }

  lemma WellChargedUnder(all: seq<Entry>, ds: set<Demand>, more: set<Demand>, p: Policy)
    requires WellCharged(all, ds, p) && ds <= more
    ensures WellCharged(all, more, p)
  {
    hide AuthorisedAt;
    forall i | 0 <= i < |all| ensures all[i] == BLOCKED_ENTRY || SomeAuthorised(all, i, more, p) {
      if all[i] != BLOCKED_ENTRY { var d :| d in ds && AuthorisedAt(all, i, d, p); assert d in more; }
    }
  }

  lemma TryWellCharged(s: Settings, c: Call, m: Moment, pending: seq<Entry>, ds: set<Demand>)
    requires c.recorded && c.demand in ds && WellCharged(c.ledger + pending, ds, s.policy)
    ensures WellCharged(c.ledger + (pending + Try(s, c, m, pending).entries), ds, s.policy)
  {
    TryEntries(s, c, m, pending);
    var step := Try(s, c, m, pending);
    hide Try, WellCharged, FailedEntry, SuccessEntry, Stop;
    if step.entries == [] {
      assert pending + step.entries == pending;
    } else {
      var e := step.entries[0];
      assert step.entries == [e];
      assert c.ledger + (pending + step.entries) == c.ledger + pending + [e];
      WellChargedMore(c.ledger + pending, ds, s.policy, e, c.demand);
    }
  }

  lemma {:induction false} AttemptsWellCharged(s: Settings, c: Call, k: nat, pending: seq<Entry>, ds: set<Demand>)
    requires c.recorded && c.demand in ds && WellCharged(c.ledger + pending, ds, s.policy)
    ensures WellCharged(c.ledger + (pending + Attempts(s, c, k, pending).entries), ds, s.policy)
    decreases s.retries + 1 - k
  {
    hide Try, WellCharged;
    var t := Attempts(s, c, k, pending);
    if k > s.retries {
      assert pending + t.entries == pending;
    } else {
      var step := Try(s, c, MomentAt(c, k), pending);
      TryWellCharged(s, c, MomentAt(c, k), pending, ds);
      if step.ending.None? {
        AttemptsWellCharged(s, c, k + 1, pending + step.entries, ds);
        assert pending + t.entries == pending + step.entries + Attempts(s, c, k + 1, pending + step.entries).entries;
      }
    }
  }

  /** What the calls of a run asked for on behalf of an incident. */
  function Demands(events: seq<Event>, incident: nat): set<Demand> {
    set e | e in events && e.Ask? && e.incident == incident :: e.call.demand
  }

  lemma AskWellCharged(s: Settings, st: State, e: Event, ds: set<Demand>)
    requires e.Ask? && e.call.recorded && e.call.demand in ds && WellCharged(Charged(st, e.incident), ds, s.policy)
    ensures WellCharged(Charged(Next(s, st, e), e.incident), ds, s.policy)
  {
    ChargedWhenAsked(s, st, e);
    var books, t := BooksOf(st, e.incident), TraceAt(s, st, e);
    hide Next, Attempts, WellCharged;
    AttemptsWellCharged(s, Asked(st, e), 0, books.pending, ds);
    if t.ending.CircuitOpen? { assert t.entries == [] ==> books.pending + t.entries == books.pending; }
  }

  /**
   In every run in which an incident's calls are recorded, whatever the provider reports and whatever
   prices are, each request was authorised against exactly what had been charged before it.
  */
  lemma {:induction false} EveryRequestWasAuthorised(s: Settings, events: seq<Event>, incident: nat)
    requires Recorded(events, incident)
    ensures WellCharged(Charged(Run(s, events), incident), Demands(events, incident), s.policy)
  {
    if events != [] {
      var front, e := events[..|events| - 1], events[|events| - 1];
      assert events == front + [e];
      assert Demands(front, incident) <= Demands(events, incident);
      hide WellCharged, Charged, Next;
      EveryRequestWasAuthorised(s, front, incident);
      WellChargedUnder(Charged(Run(s, front), incident), Demands(front, incident), Demands(events, incident), s.policy);
      if e.Ask? && e.incident == incident {
        assert e in events && e.call.demand in Demands(events, incident);
        AskWellCharged(s, Run(s, front), e, Demands(events, incident));
      } else {
        ChargedUnlessAsked(s, Run(s, front), e, incident);
      }
    }
  }

  /******* The last request *******/

  ghost predicate LastRequest(all: seq<Entry>, i: nat) {
    i < |all| && all[i].called && forall j :: i < j < |all| ==> !all[j].called
  }

  ghost predicate NoRequest(all: seq<Entry>) {
    forall j :: 0 <= j < |all| ==> !all[j].called
  }

  /** What the entry counts fits into what the totals leave of every limit but the number of calls. */
  ghost predicate FitsInto(e: Entry, t: Totals, limits: Limits) {
    && e.input <= AtLeastZero(limits.maxInput) - t.input && e.output <= AtLeastZero(limits.maxOutput) - t.output
    && e.input + e.output <= AtLeastZero(limits.maxTotal) - t.input - t.output
    && (limits.maxCost > 0.0 ==> e.cost <= limits.maxCost - t.cost)
  }

  lemma {:induction false} BlocksAddNothing(all: seq<Entry>, n: nat)
    requires n <= |all| && forall j :: n <= j < |all| ==> all[j] == BLOCKED_ENTRY
    ensures BudgetTotals(all) == BudgetTotals(all[..n])
    decreases |all|
  {
    if n == |all| {
      assert all[..n] == all;
    } else {
      BlocksAddNothing(all[..|all| - 1], n);
      assert all[..|all| - 1][..n] == all[..n];
    }
  }

  /** The totals after the last request are those it was authorised against and its own entry. */
  lemma TotalsAtLast(all: seq<Entry>, ds: set<Demand>, p: Policy, i: nat)
    requires WellCharged(all, ds, p) && LastRequest(all, i)
    ensures BudgetTotals(all) == Add(BudgetTotals(all[..i]), all[i])
    ensures SomeAuthorised(all, i, ds, p)
  {
    hide SomeAuthorised, BudgetTotals;
    forall j | i + 1 <= j < |all| ensures all[j] == BLOCKED_ENTRY {
      if all[j] != BLOCKED_ENTRY { CalledWhenAuthorised(all, j, ds, p); }
    }
    BlocksAddNothing(all, i + 1);
    assert all[..i + 1] == all[..i] + [all[i]];
    TotalsAdd(all[..i], all[i]);
  }

  lemma CalledWhenAuthorised(all: seq<Entry>, i: nat, ds: set<Demand>, p: Policy)
    requires i < |all| && SomeAuthorised(all, i, ds, p)
    ensures all[i].called
  {
  }

  lemma NothingCharged(all: seq<Entry>, ds: set<Demand>, p: Policy)
    requires WellCharged(all, ds, p) && NoRequest(all)
    ensures BudgetTotals(all) == ZERO && WithinLimits(BudgetTotals(all), p.limits)
  {
    hide SomeAuthorised;
    forall j | 0 <= j < |all| ensures all[j] == BLOCKED_ENTRY {
      if all[j] != BLOCKED_ENTRY { CalledWhenAuthorised(all, j, ds, p); }
    }
    BlocksAddNothing(all, 0);
  }

  /**
   Before the last request all five limits held, its reservation included; so a limit is passed by no
   more than that request reported beyond its reservation.
  */
  lemma OverrunIsOneEntry(s: Settings, events: seq<Event>, incident: nat, i: nat) returns (d: Demand)
    requires Recorded(events, incident) && LastRequest(Charged(Run(s, events), incident), i)
    ensures d in Demands(events, incident) && AuthorisedAt(Charged(Run(s, events), incident), i, d, s.policy)
    ensures
      var all, limits := Charged(Run(s, events), incident), s.policy.limits;
      var reserved, final := FailedEntry(d, s.policy.pricing), BudgetTotals(all);
      && WithinLimits(BudgetTotals(all[..i] + [reserved]), limits)
      && final.calls <= AtLeastZero(limits.maxCalls)
      && final.input <= AtLeastZero(limits.maxInput) + (all[i].input - reserved.input)
      && final.output <= AtLeastZero(limits.maxOutput) + (all[i].output - reserved.output)
      && final.input + final.output <=
           AtLeastZero(limits.maxTotal) + (all[i].input + all[i].output - reserved.input - reserved.output)
      && (limits.maxCost > 0.0 ==> final.cost <= limits.maxCost + (all[i].cost - reserved.cost))
  {
    EveryRequestWasAuthorised(s, events, incident);
    var all := Charged(Run(s, events), incident);
    TotalsAtLast(all, Demands(events, incident), s.policy, i);
    d :| d in Demands(events, incident) && AuthorisedAt(all, i, d, s.policy);
    AuthorisedExactlyWhen(all[..i], d, s.policy);
    TotalsAdd(all[..i], FailedEntry(d, s.policy.pricing));
    hide Charged, Run, Stop, BudgetTotals, Demands, WellCharged, FailedEntry;
  }

  /**
   All budgets hold after a run exactly when the last request, if there was one, reported no more than
   the limits had left; in particular while the provider reports no more than was reserved.
  */
  lemma BudgetsHold(s: Settings, events: seq<Event>, incident: nat)
    requires Recorded(events, incident)
    ensures
      var all, limits := Charged(Run(s, events), incident), s.policy.limits;
      && (WithinLimits(BudgetTotals(all), limits) <==>
            forall i: nat :: LastRequest(all, i) ==> FitsInto(all[i], BudgetTotals(all[..i]), limits))
      && (HonestRun(events, incident) && Fair(s.policy.pricing) ==> WithinLimits(BudgetTotals(all), limits))
  {
    var all, ds := Charged(Run(s, events), incident), Demands(events, incident);
    EveryRequestWasAuthorised(s, events, incident);
    if HonestRun(events, incident) && Fair(s.policy.pricing) { HonestRunsHold(s, events, incident); }
    hide Charged, Run, Demands, WellCharged, HonestRun, Fair;
    if NoRequest(all) {
      NothingCharged(all, ds, s.policy);
    } else {
      var last := FindLast(all);
      TotalsAtLast(all, ds, s.policy, last);
      FitsExactly(all, last, ds, s.policy);
      forall i: nat | LastRequest(all, i) ensures i == last {}
    }
  }

  lemma FitsExactly(all: seq<Entry>, i: nat, ds: set<Demand>, p: Policy)
    requires i < |all| && SomeAuthorised(all, i, ds, p)
    ensures WithinLimits(Add(BudgetTotals(all[..i]), all[i]), p.limits) <==> FitsInto(all[i], BudgetTotals(all[..i]), p.limits)
  {
    var d :| d in ds && AuthorisedAt(all, i, d, p);
    hide BudgetTotals, Made;
  }

  lemma {:induction false} FindLast(all: seq<Entry>) returns (i: nat)
    requires !NoRequest(all)
    ensures LastRequest(all, i)
  {
    if all[|all| - 1].called {
      i := |all| - 1;
    } else {
      i := FindLast(all[..|all| - 1]);
    }
  }

  /******* Passing a limit *******/

  /** One recorded call that is answered at once with the given usage. */
  function OneAnswer(d: Demand, usage: Usage): seq<Event> {
    [Ask(0, Call(0.0, 0.0, d, [], true, [Moment(None, 0.0, Response(Some(usage)))]))]
  }

  /** One answered call is charged its entry and nothing else. */
  lemma OneAnswerCharges(s: Settings, d: Demand, usage: Usage)
    requires s.retries >= 0 && Stop([], d, s.policy).None?
    ensures Charged(Run(s, OneAnswer(d, usage)), 0) == [SuccessEntry(Some(usage), d, s.policy.pricing)]
    ensures
      BudgetTotals(Charged(Run(s, OneAnswer(d, usage)), 0)) ==
      Totals(1, usage.input, usage.output, Cost(s.policy.pricing, usage))
  {
    var events := OneAnswer(d, usage);
    var e, entry := events[0], SuccessEntry(Some(usage), d, s.policy.pricing);
    assert events[..|events| - 1] == [];
    ChargedWhenAsked(s, FRESH, e);
    assert MomentAt(Asked(FRESH, e), 0) == Moment(None, 0.0, Response(Some(usage)));
    var none: seq<Entry> := [];
    assert none + none == none;
    assert Try(s, Asked(FRESH, e), MomentAt(Asked(FRESH, e), 0), []).entries == [entry];
    assert TraceAt(s, FRESH, e).entries == [entry];
    assert [] + ([] + [entry]) == [entry];
    TotalsAdd([], entry);
    assert [] + [entry] == [entry];
    hide Run, Attempts, Try;
  }

  /**
   The excess over a limit is reached: where an authorised reservation fills a limit, the report passes
   that limit by exactly what it counts beyond the reservation, whatever that is.
  */
  lemma OverrunIsTight(s: Settings, d: Demand, usage: Usage)
    requires s.retries >= 0 && Stop([], d, s.policy).None?
    ensures
      var limits, reserved := s.policy.limits, FailedEntry(d, s.policy.pricing);
      var entry := SuccessEntry(Some(usage), d, s.policy.pricing);
      var final := BudgetTotals(Charged(Run(s, OneAnswer(d, usage)), 0));
      && (reserved.input == AtLeastZero(limits.maxInput) ==>
            final.input == AtLeastZero(limits.maxInput) + (entry.input - reserved.input))
      && (reserved.output == AtLeastZero(limits.maxOutput) ==>
            final.output == AtLeastZero(limits.maxOutput) + (entry.output - reserved.output))
      && (reserved.input + reserved.output == AtLeastZero(limits.maxTotal) ==>
            final.input + final.output ==
            AtLeastZero(limits.maxTotal) + (entry.input + entry.output - reserved.input - reserved.output))
      && (limits.maxCost > 0.0 && reserved.cost == limits.maxCost ==>
            final.cost == limits.maxCost + (entry.cost - reserved.cost))
  {
    OneAnswerCharges(s, d, usage);
    hide Run, Charged, BudgetTotals, Stop;
  }

  /** Every limit on input tokens can be passed by every amount: some authorised reservation fills it. */
  lemma EveryExcessIsReached(s: Settings, excess: nat)
    requires s.retries >= 0 && s.policy.limits.maxCalls >= 1 && s.policy.limits.maxCost <= 0.0
    requires AtLeastZero(s.policy.limits.maxInput) <= AtLeastZero(s.policy.limits.maxTotal)
    ensures
      var most := AtLeastZero(s.policy.limits.maxInput);
      BudgetTotals(Charged(Run(s, OneAnswer(Demand(most, 0), Usage(most + excess, 0))), 0)).input == most + excess
  {
    var most := AtLeastZero(s.policy.limits.maxInput);
    NothingChargedYet(s.policy, Demand(most, 0));
    OneAnswerCharges(s, Demand(most, 0), Usage(most + excess, 0));
    hide Run, Charged, BudgetTotals, Stop;
  }

  /** After one answered call the budgets hold exactly when the reported usage itself fits the limits. */
  lemma OneAnswerHoldsExactlyWhen(s: Settings, d: Demand, usage: Usage)
    requires s.retries >= 0 && Stop([], d, s.policy).None?
    ensures
      WithinLimits(BudgetTotals(Charged(Run(s, OneAnswer(d, usage)), 0)), s.policy.limits) <==>
      FitsInto(SuccessEntry(Some(usage), d, s.policy.pricing), ZERO, s.policy.limits)
  {
    OneAnswerCharges(s, d, usage);
    hide Run, Charged;
  }

  /** A provider that reports a thousand input tokens for a request that reserved ten passes a limit of a hundred. */
  lemma OverreportPassesLimit()
    ensures
      var s := Settings(0, 60.0, 30.0, Policy(Limits(12, 100, 100, 200, 0.0), Unpriced));
      Recorded(OneAnswer(Demand(10, 10), Usage(1000, 0)), 0)
      && !WithinLimits(BudgetTotals(Charged(Run(s, OneAnswer(Demand(10, 10), Usage(1000, 0))), 0)), s.policy.limits)
  {
    var s := Settings(0, 60.0, 30.0, Policy(Limits(12, 100, 100, 200, 0.0), Unpriced));
    NothingChargedYet(s.policy, Demand(10, 10));
    hide Run, Charged, BudgetTotals, Stop, WithinLimits;
    OneAnswerHoldsExactlyWhen(s, Demand(10, 10), Usage(1000, 0));
  }

  /** With nothing charged, a call is authorised exactly when its reservation fits the limits. */
  lemma NothingChargedYet(p: Policy, d: Demand)
    ensures Stop([], d, p).None? <==>
      && 1 <= p.limits.maxCalls && FitsInto(FailedEntry(d, p.pricing), ZERO, p.limits)
      && (p.limits.maxCost > 0.0 ==> p.pricing.Priced?)
  {
    assert BudgetTotals([]) == ZERO;
  }
}
