/**
 The incident budget for model calls: what each usage entry counts, and when another request is
 authorised.
*/
module ModelBudget {
  import opened Options

  datatype Status = Succeeded | Failed | Blocked

  /** What one usage entry counts against the budget. */
  datatype Entry = Entry(status: Status, called: bool, input: int, output: int, cost: real)

  datatype Totals = Totals(calls: int, input: int, output: int, cost: real)

  const ZERO := Totals(0, 0, 0, 0.0)

  /** The cost of so many input and output tokens, rounding included, or nothing configured. */
  datatype Pricing = Unpriced | Priced(cost: (int, int) -> real)

  datatype Limits = Limits(maxCalls: int, maxInput: int, maxOutput: int, maxTotal: int, maxCost: real)

  datatype Policy = Policy(limits: Limits, pricing: Pricing)

  /** The upper bound on the input tokens and the requested output bound. */
  datatype Demand = Demand(input: nat, maxOutput: int)

  datatype Usage = Usage(input: int, output: int)

  datatype BudgetStop =
    CallsExhausted | InputExhausted | OutputExhausted | TotalExhausted | CurrencyUnenforceable | CurrencyExhausted

  function AtLeastZero(x: int): int {
    if x < 0 then 0 else x
  }

  function Reserved(d: Demand): Usage {
    Usage(d.input, AtLeastZero(d.maxOutput))
  }

  function Cost(pricing: Pricing, u: Usage): real {
    if pricing.Priced? then pricing.cost(u.input, u.output) else 0.0
  }

  function Add(t: Totals, e: Entry): Totals {
    Totals(t.calls + (if e.called then 1 else 0), t.input + e.input, t.output + e.output, t.cost + e.cost)
  }

  /** `_budget_totals` */
  function BudgetTotals(entries: seq<Entry>): Totals {
    if entries == [] then ZERO else Add(BudgetTotals(entries[..|entries| - 1]), entries[|entries| - 1])
  }

  lemma TotalsAdd(entries: seq<Entry>, e: Entry)
    ensures BudgetTotals(entries + [e]) == Add(BudgetTotals(entries), e)
  {
    assert (entries + [e])[..|entries|] == entries;
  }

  /** `authorize_model_call`, `None` when the call is authorised. */
  function Stop(entries: seq<Entry>, d: Demand, p: Policy): Option<BudgetStop> {
    var t, r, limits := BudgetTotals(entries), Reserved(d), p.limits;
    if t.calls >= AtLeastZero(limits.maxCalls) then Some(CallsExhausted)
    else if t.input + r.input > AtLeastZero(limits.maxInput) then Some(InputExhausted)
    else if t.output + r.output > AtLeastZero(limits.maxOutput) then Some(OutputExhausted)
    else if t.input + r.input + t.output + r.output > AtLeastZero(limits.maxTotal) then Some(TotalExhausted)
    else if limits.maxCost > 0.0 && p.pricing.Unpriced? then Some(CurrencyUnenforceable)
    else if limits.maxCost > 0.0 && t.cost + Cost(p.pricing, r) > limits.maxCost then Some(CurrencyExhausted)
    else None
  }

  /** `usage_entry`: a response without usage is charged its reserved tokens, but the price of no tokens. */
  function SuccessEntry(usage: Option<Usage>, d: Demand, pricing: Pricing): Entry {
    var charged := if usage.Some? then usage.value else Reserved(d);
    var priced := if usage.Some? then usage.value else Usage(0, 0);
    Entry(Succeeded, true, charged.input, charged.output, Cost(pricing, priced))
  }

  /** `failed_usage_entry` */
  function FailedEntry(d: Demand, pricing: Pricing): Entry {
    Entry(Failed, true, Reserved(d).input, Reserved(d).output, Cost(pricing, Reserved(d)))
  }

  /** `blocked_usage_entry` */
  const BLOCKED_ENTRY := Entry(Blocked, false, 0, 0, 0.0)

  /******* What the budget guarantees *******/

  /** Prices are zero for nothing and never fall as usage grows. */
  ghost predicate Fair(pricing: Pricing) {
    pricing.Priced? ==>
      && pricing.cost(0, 0) == 0.0
      && forall i, o, i', o' :: 0 <= i <= i' && 0 <= o <= o' ==> pricing.cost(i, o) <= pricing.cost(i', o')
  }

  /** An entry that counts no more than was reserved for it. */
  ghost predicate Honest(e: Entry, d: Demand, pricing: Pricing) {
    && 0 <= e.input <= Reserved(d).input && 0 <= e.output <= Reserved(d).output
    && 0.0 <= e.cost <= Cost(pricing, Reserved(d))
  }

  ghost predicate UsageHonest(usage: Option<Usage>, d: Demand) {
    usage.Some? ==> 0 <= usage.value.input <= d.input && 0 <= usage.value.output <= AtLeastZero(d.maxOutput)
  }

  /** All five budgets hold. */
  ghost predicate WithinLimits(t: Totals, limits: Limits) {
    && t.calls <= AtLeastZero(limits.maxCalls)
    && t.input <= AtLeastZero(limits.maxInput) && t.output <= AtLeastZero(limits.maxOutput)
    && t.input + t.output <= AtLeastZero(limits.maxTotal)
    && (limits.maxCost > 0.0 ==> t.cost <= limits.maxCost)
  }

  lemma EntriesAreHonest(usage: Option<Usage>, d: Demand, pricing: Pricing)
    requires Fair(pricing)
    ensures UsageHonest(usage, d) ==> Honest(SuccessEntry(usage, d, pricing), d, pricing)
    ensures Honest(FailedEntry(d, pricing), d, pricing)
  {
  }

  /** A call is authorised exactly when charging all it reserves keeps every limit, and costs can be enforced. */
  lemma AuthorisedExactlyWhen(entries: seq<Entry>, d: Demand, p: Policy)
    ensures Stop(entries, d, p).None? <==>
      && WithinLimits(BudgetTotals(entries + [FailedEntry(d, p.pricing)]), p.limits)
      && (p.limits.maxCost > 0.0 ==> p.pricing.Priced?)
  {
    TotalsAdd(entries, FailedEntry(d, p.pricing));
  }

  /** Why a call is refused: the first limit, in this order, that its reservation would pass. */
  lemma StopMeans(entries: seq<Entry>, d: Demand, p: Policy)
    ensures
      var t, stop := BudgetTotals(entries), Stop(entries, d, p);
      var input, output := t.input + d.input, t.output + (if d.maxOutput > 0 then d.maxOutput else 0);
      var calls := t.calls + 1 > AtLeastZero(p.limits.maxCalls);
      var inputs, outputs := input > AtLeastZero(p.limits.maxInput), output > AtLeastZero(p.limits.maxOutput);
      var total, limited := input + output > AtLeastZero(p.limits.maxTotal), p.limits.maxCost > 0.0;
      && (stop == Some(CallsExhausted) <==> calls)
      && (stop == Some(InputExhausted) <==> !calls && inputs)
      && (stop == Some(OutputExhausted) <==> !calls && !inputs && outputs)
      && (stop == Some(TotalExhausted) <==> !calls && !inputs && !outputs && total)
      && (stop == Some(CurrencyUnenforceable) <==> !calls && !inputs && !outputs && !total && limited && p.pricing.Unpriced?)
      && (stop == Some(CurrencyExhausted) <==>
            && !calls && !inputs && !outputs && !total && limited && p.pricing.Priced?
            && t.cost + p.pricing.cost(d.input, output - t.output) > p.limits.maxCost)
  {
    hide BudgetTotals;
  }

  lemma NothingCounted()
    ensures BudgetTotals([]) == Totals(0, 0, 0, 0.0)
  {
  }

  /** What each kind of entry adds to the totals: what was reported, or else what was reserved; a block adds nothing. */
  lemma EntriesCount(entries: seq<Entry>, d: Demand, pricing: Pricing, usage: Usage)
    ensures
      var t, output := BudgetTotals(entries), if d.maxOutput > 0 then d.maxOutput else 0;
      var answered, failed := BudgetTotals(entries + [SuccessEntry(Some(usage), d, pricing)]), BudgetTotals(entries + [FailedEntry(d, pricing)]);
      && BudgetTotals([]) == Totals(0, 0, 0, 0.0) && BudgetTotals(entries + [BLOCKED_ENTRY]) == t
      && answered.calls == failed.calls == t.calls + 1
      && answered.input == t.input + usage.input && answered.output == t.output + usage.output
      && failed.input == t.input + d.input && failed.output == t.output + output
      && (if pricing.Priced?
          then answered.cost == t.cost + pricing.cost(usage.input, usage.output) && failed.cost == t.cost + pricing.cost(d.input, output)
          else answered.cost == failed.cost == t.cost)
  {
    hide BudgetTotals;
    NothingCounted();
    TotalsAdd(entries, SuccessEntry(Some(usage), d, pricing));
    TotalsAdd(entries, FailedEntry(d, pricing));
    TotalsAdd(entries, BLOCKED_ENTRY);
  }

  /** An authorised call keeps every budget, whatever honest entry it leaves. */
  lemma AuthorisedKeepsBudgets(entries: seq<Entry>, d: Demand, p: Policy, e: Entry)
    requires Stop(entries, d, p).None? && Honest(e, d, p.pricing)
    ensures WithinLimits(BudgetTotals(entries + [e]), p.limits)
  {
    TotalsAdd(entries, e);
  }

  /** A response without usage leaves the currency budget untouched although its tokens are charged. */
  lemma MissingUsageIsFree(entries: seq<Entry>, d: Demand, p: Policy)
    requires Fair(p.pricing)
    ensures
      var before, after := BudgetTotals(entries), BudgetTotals(entries + [SuccessEntry(None, d, p.pricing)]);
      after.cost == before.cost && after.input == before.input + d.input && after.output == before.output + AtLeastZero(d.maxOutput)
  {
    TotalsAdd(entries, SuccessEntry(None, d, p.pricing));
  }
}
