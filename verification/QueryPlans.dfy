/**
 The plan of `query_logs` request by request: which slices, kinds and directions it asks for, in which
 order and for how many rows.
*/
module QueryPlans {
  import opened Basics
  import opened LogRows
  import opened EvenSpacing
  import opened QueryPlanner

  /******* Slices of equal width *******/

  /** All slices but the last are equally wide, as near to an even share of the window as whole microseconds allow. */
  lemma SlicesAreEven(start: int, end: int, count: int)
    ensures
      var slices := TimeSlices(start, end, count);
      var n := |slices|;
      && n == (if count < 1 then 1 else count)
      && forall i :: 0 <= i < n - 1 ==>
           var width := slices[i].end - slices[i].start;
           && -n <= 2 * (width * n - (end - start)) <= n
           && (2 * (width * n - (end - start)) in {-n, n} ==> width % 2 == 0)
  {
    var slices, n, width := TimeSlices(start, end, count), AtLeastOne(count), Width(start, end, count);
    RoundBounds(end - start, n);
    RoundTies(end - start, n);
    forall i | 0 <= i < n - 1 ensures slices[i].end - slices[i].start == width { assert width * (i + 1) == width * i + width; }
  }

  /******* Even shares *******/

  /** n shares of a total that differ by at most one, the larger ones first. */
  ghost predicate EvenShares(shares: seq<nat>, total: int, n: nat) {
    && |shares| == n && Sum(shares) == total
    && forall i, j :: 0 <= i < j < n ==> shares[j] <= shares[i] <= shares[j] + 1
  }

  lemma ShareCount(total: int, n: nat)
    requires total >= 0 && n >= 1
    ensures (total / n >= 1 <==> total >= n) && (total < n ==> total % n == total)
  {
    var base, remainder := total / n, total % n;
    assert total == base * n + remainder;
    if base >= 1 { assert base * n >= n; }
  }

  lemma QuotasAreEven(total: int, n: nat)
    requires total >= 0 && n >= 1
    ensures EvenShares(Quotas(total, n), total, n)
    ensures forall i :: 0 <= i < n ==> (Quotas(total, n)[i] >= 1 <==> i < Min(total, n))
  {
    QuotasShare(total, n);
    ShareCount(total, n);
    hide Sum;
  }

  /******* The plan, request by request *******/

  /** Three quarters of the limit, but at least one row, go to the unfiltered queries. */
  ghost predicate Split(limit: int, general: int, signal: int, n: nat) {
    && general + signal == limit
    && (if limit <= 1 then general == 1 else 4 * general <= 3 * limit < 4 * (general + 1) || (limit == 1 && general == 1))
    && (n == if general < 4 then 1 else if general < 8 then general / 2 else 4)
  }

  /** Two requests for each slice, forwards and backwards. */
  function BothWays(slices: seq<Slice>, g: seq<nat>): seq<Request>
    requires |slices| == |g|
  {
    seq(2 * |g|, k requires 0 <= k < 2 * |g| =>
      if k % 2 == 0 then Request(General, slices[k / 2], (g[k / 2] + 1) / 2, Forward)
      else Request(General, slices[k / 2], g[k / 2] / 2, Backward))
  }

  /** One filtered request for each of the first m slices. */
  function Filtered(slices: seq<Slice>, h: seq<nat>, m: nat): seq<Request>
    requires |slices| == |h| && m <= |h|
  {
    seq(m, k requires 0 <= k < m => Request(HighSignal, slices[k], h[k], Forward))
  }

  lemma {:induction false} GeneralLaid(slices: seq<Slice>, g: seq<nat>)
    requires |slices| == |g| && forall i :: 0 <= i < |g| ==> g[i] >= 2
    ensures AllGeneral(slices, g) == BothWays(slices, g)
  {
    if g != [] {
      var n := |g| - 1;
      GeneralLaid(slices[..n], g[..n]);
      OneMoreSlice(slices, g, n);
      hide BothWays, GeneralRequests;
    }
  }

  lemma OneMoreSlice(slices: seq<Slice>, g: seq<nat>, n: nat)
    requires |slices| == |g| == n + 1 && g[n] >= 2
    ensures BothWays(slices, g) == BothWays(slices[..n], g[..n]) + GeneralRequests(slices[n], g[n])
  {
    var last := [Request(General, slices[n], (g[n] + 1) / 2, Forward), Request(General, slices[n], g[n] / 2, Backward)];
    assert GeneralRequests(slices[n], g[n]) == last by { SliceAsks(slices[n], g[n]); }
    hide GeneralRequests;
    var front, all := BothWays(slices[..n], g[..n]), BothWays(slices, g);
    forall k | 0 <= k < 2 * n ensures all[k] == front[k] { assert g[..n][k / 2] == g[k / 2] && slices[..n][k / 2] == slices[k / 2]; }
    assert 2 * n / 2 == n && (2 * n + 1) / 2 == n;
  }

  lemma {:induction false} SignalLaid(slices: seq<Slice>, h: seq<nat>, m: nat)
    requires |slices| == |h| && m <= |h| && forall i :: 0 <= i < |h| ==> (h[i] >= 1 <==> i < m)
    ensures AllSignal(slices, h) == Filtered(slices, h, m)
  {
    if h != [] {
      var n := |h| - 1;
      SignalLaid(slices[..n], h[..n], if m < n then m else n);
      var before := AllSignal(slices[..n], h[..n]);
      if m == |h| {
        assert SignalRequests(slices[n], h[n]) == [Request(HighSignal, slices[n], h[n], Forward)];
      } else {
        assert before + [] == before;
      }
    }
  }

  /** The whole plan for three rows or more. */
  lemma PlanLayout(start: int, end: int, limit: int) returns (general: int, signal: int, n: nat, g: seq<nat>, h: seq<nat>)
    requires limit >= 3
    ensures Split(limit, general, signal, n) && EvenShares(g, general, n) && EvenShares(h, signal, n)
    ensures
      var slices := TimeSlices(start, end, n);
      Plan(start, end, limit) == BothWays(slices, g) + Filtered(slices, h, Min(signal, n))
  {
    general, signal, n := GeneralBudget(limit), QueryPlanner.SignalBudget(limit), SliceCount(limit);
    g, h := Quotas(general, n), Quotas(signal, n);
    SplitOf(limit);
    var slices, m := TimeSlices(start, end, n), Min(signal, n);
    hide Quotas, EvenShares, TimeSlices, GeneralBudget, SignalBudget, SliceCount, Split, Min, AllGeneral, AllSignal, BothWays, Filtered;
    QuotasAreEven(general, n);
    QuotasAreEven(signal, n);
    forall i | 0 <= i < n ensures g[i] >= 2 { QuotasReach(limit, i); }
    GeneralLaid(slices, g);
    SignalLaid(slices, h, m);
  }

  lemma SplitOf(limit: int)
    requires limit >= 3
    ensures Split(limit, GeneralBudget(limit), QueryPlanner.SignalBudget(limit), SliceCount(limit))
    ensures GeneralBudget(limit) >= 2 && QueryPlanner.SignalBudget(limit) >= 1 && SliceCount(limit) >= 1
    ensures 0 <= Min(QueryPlanner.SignalBudget(limit), SliceCount(limit)) <= SliceCount(limit)
  {
  }

  /** With less, one request for a single row, and a filtered one for the second. */
  lemma SmallPlan(start: int, end: int, limit: int)
    requires limit <= 2
    ensures
      var whole := Slice(start, end);
      Plan(start, end, limit) ==
        [Request(General, whole, 1, Forward)] + if limit == 2 then [Request(HighSignal, whole, 1, Forward)] else []
  {
    var slices, one := TimeSlices(start, end, 1), Quotas(1, 1);
    var rest := QueryPlanner.SignalBudget(limit);
    assert slices == [Slice(start, end)] && one == [1];
    assert slices[..0] == [] && one[..0] == [];
    assert AllGeneral(slices, one) == [] + [Request(General, slices[0], 1, Forward)];
    assert limit < 2 ==> Quotas(rest, 1) == [0];
    assert Quotas(rest, 1)[..0] == [];
    assert AllSignal(slices, Quotas(rest, 1)) == [] + SignalRequests(slices[0], Quotas(rest, 1)[0]);
  }

  /******* What the layout says about the two kinds *******/

  /** How many rows the requests of one kind ask for. */
  function AskedOf(requests: seq<Request>, kind: Kind): int {
    if requests == [] then 0
    else AskedOf(requests[..|requests| - 1], kind)
         + if requests[|requests| - 1].kind == kind then requests[|requests| - 1].limit else 0
  }

  lemma {:induction false} AskedOfSplits(a: seq<Request>, b: seq<Request>, kind: Kind)
    ensures AskedOf(a + b, kind) == AskedOf(a, kind) + AskedOf(b, kind)
  {
    if b == [] {
      assert a + b == a;
    } else {
      AskedOfSplits(a, b[..|b| - 1], kind);
      assert (a + b)[..|a + b| - 1] == a + b[..|b| - 1];
    }
  }

  lemma {:induction false} OneKind(requests: seq<Request>, kind: Kind)
    requires forall r :: r in requests ==> r.kind == kind
    ensures AskedOf(requests, kind) == Asked(requests)
    ensures forall other :: other != kind ==> AskedOf(requests, other) == 0
  {
    if requests != [] {
      var front, last := requests[..|requests| - 1], requests[|requests| - 1];
      assert last in requests;
      OneKind(front, kind);
    }
  }

  lemma {:induction false} KindsOfAll(slices: seq<Slice>, quotas: seq<nat>)
    requires |slices| == |quotas|
    ensures forall r :: r in AllGeneral(slices, quotas) ==> r.kind == General && r.slice in slices
    ensures forall r :: r in AllSignal(slices, quotas) ==> r.kind == HighSignal && r.slice in slices && r.direction == Forward
  {
    if slices != [] {
      KindsOfAll(slices[..|slices| - 1], quotas[..|quotas| - 1]);
      assert slices[|slices| - 1] in slices;
    }
  }

  lemma {:induction false} SignalInPlan(slices: seq<Slice>, quotas: seq<nat>, i: nat)
    requires |slices| == |quotas| && i < |slices| && quotas[i] >= 1
    ensures Request(HighSignal, slices[i], quotas[i], Forward) in AllSignal(slices, quotas)
  {
    if i < |slices| - 1 { SignalInPlan(slices[..|slices| - 1], quotas[..|quotas| - 1], i); }
  }

  /**
   A quarter of the limit, rounded up, is asked for with the high-signal filter, always forwards and
   over slices of the window; every slice is asked that way once there is a row for each.
  */
  lemma PlanByKind(start: int, end: int, limit: int)
    requires limit >= 1
    ensures
      var general := Max(1, limit * 3 / 4);
      var plan, n := Plan(start, end, limit), Min(4, Max(1, general / 2));
      && AskedOf(plan, General) == general && AskedOf(plan, HighSignal) == limit - general
      && (forall r :: r in plan ==> r.limit >= 1 && r.slice in TimeSlices(start, end, n))
      && (forall r :: r in plan && r.kind == HighSignal ==> r.direction == Forward)
      && (limit - general >= n ==>
            forall slice :: slice in TimeSlices(start, end, n) ==> exists r :: r in plan && r.kind == HighSignal && r.slice == slice)
  {
    var general, signal, n := GeneralBudget(limit), QueryPlanner.SignalBudget(limit), SliceCount(limit);
    var slices, g, h := TimeSlices(start, end, n), Quotas(general, n), Quotas(signal, n);
    assert general == Max(1, limit * 3 / 4) && signal == limit - general && n == Min(4, Max(1, general / 2));
    assert signal == 0 ==> Plan(start, end, limit) == AllGeneral(slices, g) + [];
    assert signal != 0 ==> Plan(start, end, limit) == AllGeneral(slices, g) + AllSignal(slices, h);
    PlanConserves(start, end, limit);
    hide Plan, Quotas, TimeSlices, GeneralBudget, SignalBudget, SliceCount, AllGeneral, AllSignal, Min, Max;
    QuotasAreEven(general, n);
    QuotasAreEven(signal, n);
    KindsKept(slices, g, h, general, signal);
    if signal >= n {
      forall slice | slice in slices ensures exists r :: r in Plan(start, end, limit) && r.kind == HighSignal && r.slice == slice {
        var i :| 0 <= i < |slices| && slices[i] == slice;
        EvenReach(h, signal, n, i);
        SignalInPlan(slices, h, i);
        assert Request(HighSignal, slice, h[i], Forward) in Plan(start, end, limit);
      }
    }
  }

  lemma EvenReach(h: seq<nat>, signal: int, n: nat, i: nat)
    requires |h| == n && i < n <= signal && forall i :: 0 <= i < n ==> (h[i] >= 1 <==> i < Min(signal, n))
    ensures h[i] >= 1
  {
  }

  /** The two halves of a plan, whatever the shares. */
  lemma KindsKept(slices: seq<Slice>, g: seq<nat>, h: seq<nat>, general: int, signal: int)
    requires |slices| == |g| == |h| && Sum(g) == general && Sum(h) == signal
    ensures AskedOf(AllGeneral(slices, g) + AllSignal(slices, h), General) == AskedOf(AllGeneral(slices, g) + [], General) == general
    ensures AskedOf(AllGeneral(slices, g) + AllSignal(slices, h), HighSignal) == signal
    ensures AskedOf(AllGeneral(slices, g) + [], HighSignal) == 0
    ensures forall r :: r in AllGeneral(slices, g) ==> r.limit >= 1 && r.slice in slices && r.kind == General
    ensures forall r :: r in AllSignal(slices, h) ==> r.limit >= 1 && r.slice in slices && r.kind == HighSignal && r.direction == Forward
  {
    hide AllGeneral, AllSignal, Sum;
    GeneralAsks(slices, g);
    SignalAsks(slices, h);
    KindsOfAll(slices, g);
    KindsOfAll(slices, h);
    OneKind(AllGeneral(slices, g), General);
    OneKind(AllSignal(slices, h), HighSignal);
    AskedOfSplits(AllGeneral(slices, g), AllSignal(slices, h), General);
    AskedOfSplits(AllGeneral(slices, g), AllSignal(slices, h), HighSignal);
    assert AllGeneral(slices, g) + [] == AllGeneral(slices, g);
  }
}
