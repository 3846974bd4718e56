/**
 `RealLokiClient.query_logs`: a budget split over time slices, query kinds and directions.

 Times are whole microseconds.  `_query_range` is an oracle; it may answer the same request
 differently each time it is asked.
*/
module QueryPlanner {
  import opened Basics
  import opened Ordering
  import opened LogRows
  import opened EvenSpacing

  /******* Time slices *******/

  /** `timedelta / int`: microseconds, rounded half to even. */
  function Width(start: int, end: int, count: int): int {
    RoundHalfEven(end - start, AtLeastOne(count))
  }

  datatype Slice = Slice(start: int, end: int)

  /** `_time_slices` */
  function TimeSlices(start: int, end: int, count: int): (slices: seq<Slice>)
    ensures |slices| == AtLeastOne(count)
  {
    var n, width := AtLeastOne(count), Width(start, end, count);
    seq(n, i requires 0 <= i < n =>
      Slice(start + width * i, if i == n - 1 then end else start + width * (i + 1)))
  }

  /** First slice at the start, last at the end, no gap and no overlap at the seams. */
  lemma SlicesAreContiguous(start: int, end: int, count: int)
    ensures
      var slices := TimeSlices(start, end, count);
      && slices[0].start == start
      && slices[|slices| - 1].end == end
      && forall i :: 0 <= i < |slices| - 1 ==> slices[i].end == slices[i + 1].start
  {
  }

  ghost predicate InOrder(slices: seq<Slice>) {
    forall i :: 0 <= i < |slices| ==> slices[i].start <= slices[i].end
  }

  lemma InOrderWhen(start: int, end: int, count: int)
    requires start <= end && count >= 1
    ensures InOrder(TimeSlices(start, end, count)) <==> Width(start, end, count) * (count - 1) <= end - start
  {
    var width, slices := Width(start, end, count), TimeSlices(start, end, count);
    forall i | 0 <= i < count - 1 ensures slices[i].start <= slices[i].end {
      assert width * (i + 1) == width * i + width;
    }
    assert slices[count - 1] == Slice(start + width * (count - 1), end);
  }

  /** Rounding up by half a microsecond per slice can overshoot only from five slices on. */
  lemma FourSlicesFit(d: nat, count: nat)
    requires 1 <= count <= 4
    ensures RoundHalfEven(d, count) * (count - 1) <= d
  {
    RoundBounds(d, count);
  }

  lemma FiveSlicesOvershoot(count: nat)
    requires count >= 5
    ensures RoundHalfEven(count - 2, count) == 1
    ensures !InOrder(TimeSlices(0, count - 2, count))
  {
    assert (count - 2) / count == 0 && (count - 2) % count == count - 2 by { DivUnique(count - 2, 0, count - 2, count); }
    InOrderWhen(0, count - 2, count);
  }

  ghost predicate AlwaysInOrder(count: int) {
    forall start, end :: start <= end ==> InOrder(TimeSlices(start, end, count))
  }

  /** Slices of every window run forwards exactly when at most four are asked for. */
  lemma SlicesInOrderExactly(count: int)
    ensures AlwaysInOrder(count) <==> count <= 4
  {
    if count <= 4 {
      var n := AtLeastOne(count);
      forall start, end | start <= end ensures InOrder(TimeSlices(start, end, count)) {
        FourSlicesFit(end - start, n);
        InOrderWhen(start, end, n);
        assert TimeSlices(start, end, n) == TimeSlices(start, end, count);
      }
    } else {
      FiveSlicesOvershoot(count);
    }
  }

  /** Slices in order cover the window, and nothing outside it. */
  lemma {:induction false} SlicesCover(start: int, end: int, count: int, t: int)
    requires InOrder(TimeSlices(start, end, count))
    ensures start <= t <= end <==> exists slice :: slice in TimeSlices(start, end, count) && slice.start <= t <= slice.end
  {
    var slices := TimeSlices(start, end, count);
    SlicesAreContiguous(start, end, count);
    forall i | 0 <= i < |slices| ensures start <= slices[i].start && slices[i].end <= end {
      StartsAscend(slices, 0, i);
      StartsAscend(slices, i, |slices| - 1);
    }
    if start <= t <= end {
      var i := FindSlice(slices, t, 0);
      assert slices[i] in slices;
    }
  }

  lemma {:induction false} StartsAscend(slices: seq<Slice>, i: nat, j: nat)
    requires InOrder(slices) && i <= j < |slices|
    requires forall k :: 0 <= k < |slices| - 1 ==> slices[k].end == slices[k + 1].start
    ensures slices[i].start <= slices[j].start && slices[i].end <= slices[j].end
    decreases j - i
  {
    if i < j {
      StartsAscend(slices, i, j - 1);
    }
  }

  lemma {:induction false} FindSlice(slices: seq<Slice>, t: int, from: nat) returns (i: nat)
    requires from < |slices| && slices[from].start <= t <= slices[|slices| - 1].end
    requires forall k :: 0 <= k < |slices| - 1 ==> slices[k].end == slices[k + 1].start
    ensures i < |slices| && slices[i].start <= t <= slices[i].end
    decreases |slices| - from
  {
    if t <= slices[from].end { i := from; } else { i := FindSlice(slices, t, from + 1); }
  }

  /******* Quotas *******/

  function Floor(total: int): nat {
    if total < 0 then 0 else total
  }

  /** `_quotas` */
  function Quotas(total: int, count: int): (quotas: seq<nat>)
    ensures |quotas| == AtLeastOne(count)
  {
    var n := AtLeastOne(count);
    var base, remainder := Floor(total) / n, Floor(total) % n;
    seq(n, i requires 0 <= i < n => base + if i < remainder then 1 else 0)
  }

  function Sum(xs: seq<nat>): nat {
    if xs == [] then 0 else Sum(xs[..|xs| - 1]) + xs[|xs| - 1]
  }

  lemma {:induction false} StepSum(n: nat, base: nat, remainder: nat)
    ensures Sum(seq(n, i requires 0 <= i < n => base + if i < remainder then 1 else 0)) ==
            base * n + if n < remainder then n else remainder
  {
    if n > 0 {
      StepSum(n - 1, base, remainder);
      var xs := seq(n, i requires 0 <= i < n => base + if i < remainder then 1 else 0);
      assert xs[..n - 1] == seq(n - 1, i requires 0 <= i < n - 1 => base + if i < remainder then 1 else 0);
      assert base * n == base * (n - 1) + base;
    }
  }

  /** The quotas add up to the total and no two differ by more than one. */
  lemma QuotasShare(total: int, count: int)
    ensures Sum(Quotas(total, count)) == Floor(total)
    ensures var quotas := Quotas(total, count);
      forall i, j :: 0 <= i < |quotas| && 0 <= j < |quotas| ==> quotas[i] <= quotas[j] + 1
  {
    var n := AtLeastOne(count);
    StepSum(n, Floor(total) / n, Floor(total) % n);
    assert Floor(total) == Floor(total) / n * n + Floor(total) % n;
  }

  /******* The plan *******/

  datatype Kind = General | HighSignal
  datatype Direction = Forward | Backward
  datatype Request = Request(kind: Kind, slice: Slice, limit: int, direction: Direction)

  function GeneralBudget(limit: int): int {
    if limit * 3 / 4 < 1 then 1 else limit * 3 / 4
  }

  function SignalBudget(limit: int): int {
    limit - GeneralBudget(limit)
  }

  function SliceCount(limit: int): int {
    var most := if GeneralBudget(limit) / 2 < 1 then 1 else GeneralBudget(limit) / 2;
    if most < 4 then most else 4
  }

  function ForwardShare(quota: nat): nat {
    if quota == 1 then quota else (quota + 1) / 2
  }

  /** Both directions of one slice; a zero share is not asked for. */
  function GeneralRequests(slice: Slice, quota: nat): seq<Request> {
    if quota == 0 then []
    else
      [Request(General, slice, ForwardShare(quota), Forward)] +
      (if quota - ForwardShare(quota) != 0 then [Request(General, slice, quota - ForwardShare(quota), Backward)] else [])
  }

  function SignalRequests(slice: Slice, quota: nat): seq<Request> {
    if quota == 0 then [] else [Request(HighSignal, slice, quota, Forward)]
  }

  function AllGeneral(slices: seq<Slice>, quotas: seq<nat>): seq<Request>
    requires |slices| == |quotas|
  {
    if slices == [] then []
    else AllGeneral(slices[..|slices| - 1], quotas[..|quotas| - 1]) + GeneralRequests(slices[|slices| - 1], quotas[|quotas| - 1])
  }

  function AllSignal(slices: seq<Slice>, quotas: seq<nat>): seq<Request>
    requires |slices| == |quotas|
  {
    if slices == [] then []
    else AllSignal(slices[..|slices| - 1], quotas[..|quotas| - 1]) + SignalRequests(slices[|slices| - 1], quotas[|quotas| - 1])
  }

  function Plan(start: int, end: int, limit: int): seq<Request> {
    var n := SliceCount(limit);
    var slices := TimeSlices(start, end, n);
    AllGeneral(slices, Quotas(GeneralBudget(limit), n)) +
    (if SignalBudget(limit) != 0 then AllSignal(slices, Quotas(SignalBudget(limit), n)) else [])
  }

  /** How many rows a list of requests asks for altogether. */
  function Asked(requests: seq<Request>): int {
    if requests == [] then 0 else Asked(requests[..|requests| - 1]) + requests[|requests| - 1].limit
  }

  lemma {:induction false} AskedSplits(a: seq<Request>, b: seq<Request>)
    ensures Asked(a + b) == Asked(a) + Asked(b)
  {
    if b == [] {
      assert a + b == a;
    } else {
      AskedSplits(a, b[..|b| - 1]);
      assert (a + b)[..|a + b| - 1] == a + b[..|b| - 1];
    }
  }

  lemma SliceAsks(slice: Slice, quota: nat)
    ensures Asked(GeneralRequests(slice, quota)) == quota
    ensures forall r :: r in GeneralRequests(slice, quota) ==> r.limit >= 1
  {
    if quota != 0 {
      var forward := Request(General, slice, ForwardShare(quota), Forward);
      var backward := Request(General, slice, quota - ForwardShare(quota), Backward);
      AskedOne(forward);
      AskedOne(backward);
      AskedSplits([forward], [backward]);
      assert [forward] + [] == [forward];
    }
  }

  lemma AskedOne(request: Request)
    ensures Asked([request]) == request.limit
  {
    assert [request][..0] == [];
  }

  lemma {:induction false} GeneralAsks(slices: seq<Slice>, quotas: seq<nat>)
    requires |slices| == |quotas|
    ensures Asked(AllGeneral(slices, quotas)) == Sum(quotas)
    ensures forall r :: r in AllGeneral(slices, quotas) ==> r.limit >= 1
  {
    if slices != [] {
      GeneralAsks(slices[..|slices| - 1], quotas[..|quotas| - 1]);
      SliceAsks(slices[|slices| - 1], quotas[|quotas| - 1]);
      AskedSplits(AllGeneral(slices[..|slices| - 1], quotas[..|quotas| - 1]), GeneralRequests(slices[|slices| - 1], quotas[|quotas| - 1]));
    }
  }

  lemma {:induction false} SignalAsks(slices: seq<Slice>, quotas: seq<nat>)
    requires |slices| == |quotas|
    ensures Asked(AllSignal(slices, quotas)) == Sum(quotas)
    ensures forall r :: r in AllSignal(slices, quotas) ==> r.limit >= 1
  {
    if slices != [] {
      SignalAsks(slices[..|slices| - 1], quotas[..|quotas| - 1]);
      AskedSplits(AllSignal(slices[..|slices| - 1], quotas[..|quotas| - 1]), SignalRequests(slices[|slices| - 1], quotas[|quotas| - 1]));
    }
  }

  /** The plan spends the bounded limit exactly, asks for no empty range, and uses ordered slices. */
  lemma PlanConserves(start: int, end: int, limit: int)
    requires limit >= 1
    ensures Asked(Plan(start, end, limit)) == limit
    ensures forall r :: r in Plan(start, end, limit) ==> r.limit >= 1
    ensures GeneralBudget(limit) >= 1 && SignalBudget(limit) >= 0 && 1 <= SliceCount(limit) <= 4
    ensures limit >= 2 ==> 4 * (SignalBudget(limit) - 1) < limit <= 4 * SignalBudget(limit)
    ensures start <= end ==> InOrder(TimeSlices(start, end, SliceCount(limit)))
  {
    var n := SliceCount(limit);
    var slices := TimeSlices(start, end, n);
    QuotasShare(GeneralBudget(limit), n);
    QuotasShare(SignalBudget(limit), n);
    GeneralAsks(slices, Quotas(GeneralBudget(limit), n));
    SignalAsks(slices, Quotas(SignalBudget(limit), n));
    AskedSplits(AllGeneral(slices, Quotas(GeneralBudget(limit), n)), AllSignal(slices, Quotas(SignalBudget(limit), n)));
    assert AllGeneral(slices, Quotas(GeneralBudget(limit), n)) + [] == AllGeneral(slices, Quotas(GeneralBudget(limit), n));
    SlicesInOrderExactly(n);
  }

  /******* Coverage of the window *******/

  lemma QuotasReach(limit: int, i: nat)
    requires limit >= 1 && i < SliceCount(limit)
    ensures
      var quotas := Quotas(GeneralBudget(limit), SliceCount(limit));
      quotas[i] >= 1 && (GeneralBudget(limit) >= 2 ==> quotas[i] >= 2)
  {
    var g, n := GeneralBudget(limit), SliceCount(limit);
    var base, remainder := g / n, g % n;
    assert g == base * n + remainder;
    assert g >= 2 ==> 2 * n <= g;
  }

  /** Both directions of one slice get their turn, the forward one first and never less. */
  lemma SliceDirections(slice: Slice, quota: nat)
    requires quota >= 1
    ensures exists r :: r in GeneralRequests(slice, quota) && Looks(r, slice, Forward)
    ensures quota >= 2 ==> exists r :: r in GeneralRequests(slice, quota) && Looks(r, slice, Backward)
    ensures 0 <= ForwardShare(quota) - (quota - ForwardShare(quota)) <= 1
  {
    assert Looks(GeneralRequests(slice, quota)[0], slice, Forward);
    if quota >= 2 { assert Looks(GeneralRequests(slice, quota)[1], slice, Backward); }
  }

  predicate Looks(r: Request, slice: Slice, direction: Direction) {
    r.kind == General && r.slice == slice && r.direction == direction && r.limit >= 1
  }

  lemma {:induction false} SliceInPlan(slices: seq<Slice>, quotas: seq<nat>, i: nat, r: Request)
    requires |slices| == |quotas| && i < |slices| && r in GeneralRequests(slices[i], quotas[i])
    ensures r in AllGeneral(slices, quotas)
  {
    hide GeneralRequests;
    if i < |slices| - 1 { SliceInPlan(slices[..|slices| - 1], quotas[..|quotas| - 1], i, r); }
  }

  /** Every part of the window is looked at from its start and, when the budget allows two rows, from its end. */
  lemma EverySliceIsAsked(start: int, end: int, limit: int, i: nat)
    requires limit >= 1 && i < SliceCount(limit)
    ensures exists r :: r in Plan(start, end, limit) && Looks(r, TimeSlices(start, end, SliceCount(limit))[i], Forward)
    ensures GeneralBudget(limit) >= 2 ==>
      exists r :: r in Plan(start, end, limit) && Looks(r, TimeSlices(start, end, SliceCount(limit))[i], Backward)
  {
    var slices := TimeSlices(start, end, SliceCount(limit));
    var quotas := Quotas(GeneralBudget(limit), SliceCount(limit));
    QuotasReach(limit, i);
    SliceDirections(slices[i], quotas[i]);
    forall r | r in GeneralRequests(slices[i], quotas[i]) ensures r in Plan(start, end, limit) {
      SliceInPlan(slices, quotas, i, r);
    }
    hide Plan, GeneralRequests, Looks, TimeSlices, Quotas;
  }

  /******* Answers *******/

  /** The k-th request issued and the rows it returns. */
  type Source = (nat, Request) -> seq<Log>

  ghost predicate Honours(source: Source) {
    forall k: nat, r: Request :: r.limit >= 0 ==> |source(k, r)| <= r.limit
  }

  /** All rows returned for the requests, in the order issued. */
  function Gathered(source: Source, requests: seq<Request>): seq<Log> {
    if requests == [] then []
    else Gathered(source, requests[..|requests| - 1]) + source(|requests| - 1, requests[|requests| - 1])
  }

  /** Python's `rows[:n]`. */
  function Take<T>(rows: seq<T>, n: int): seq<T> {
    if n >= |rows| then rows
    else if n >= 0 then rows[..n]
    else if |rows| + n >= 0 then rows[..|rows| + n]
    else []
  }

  /** A slice up to n keeps the first n, or with a negative n drops as many from the end. */
  lemma TakeMeans<T>(rows: seq<T>, n: int)
    ensures Take(rows, n) <= rows
    ensures n >= 0 ==> |Take(rows, n)| == if n < |rows| then n else |rows|
    ensures n < 0 ==> |Take(rows, n)| == if |rows| + n > 0 then |rows| + n else 0
  {
  }

  /** The one request over the whole window for as many rows as the plan left missing. */
  function BackfillRequest(start: int, end: int, missing: int): Request {
    Request(General, Slice(start, end), missing, Backward)
  }

  ghost function Backfilled(source: Source, start: int, end: int, limit: int): seq<Log> {
    var plan := Plan(start, end, limit);
    var sampled := SortedUnique(Gathered(source, plan));
    if |sampled| < limit
    then sampled + source(|plan|, BackfillRequest(start, end, limit - |sampled|))
    else sampled
  }

  ghost function QueryLogs(source: Source, start: int, end: int, limit: int): seq<Log> {
    Take(SortedUnique(Backfilled(source, start, end, limit)), limit)
  }

  /** Every row answered to some request, and no other, in the order of the requests. */
  lemma {:induction false} GatheredMeans(source: Source, requests: seq<Request>, k: nat)
    requires k < |requests|
    ensures Gathered(source, requests[..k + 1]) == Gathered(source, requests[..k]) + source(k, requests[k]) <= Gathered(source, requests)
    ensures Gathered(source, []) == []
  {
    assert requests[..k + 1][..k] == requests[..k];
    if k == |requests| - 1 {
      assert requests[..k + 1] == requests;
    } else {
      var front := requests[..|requests| - 1];
      GatheredMeans(source, front, k);
      assert front[..k] == requests[..k] && front[..k + 1] == requests[..k + 1];
    }
  }

  lemma {:induction false} GatheredWithinAsked(source: Source, requests: seq<Request>)
    requires Honours(source) && forall r :: r in requests ==> r.limit >= 0
    ensures |Gathered(source, requests)| <= Asked(requests)
  {
    if requests != [] {
      GatheredWithinAsked(source, requests[..|requests| - 1]);
      assert requests[|requests| - 1] in requests;
    }
  }

  lemma UniqueIsNoLonger(logs: seq<Log>)
    ensures |SortedUnique(logs)| <= |logs|
  {
    SortedUniqueFacts(logs);
    DistinctCount(logs);
  }

  /** When every range query honours its limit, the final truncation drops no row. */
  lemma NothingIsDropped(source: Source, start: int, end: int, limit: int)
    requires Honours(source) && limit >= 1
    ensures QueryLogs(source, start, end, limit) == SortedUnique(Backfilled(source, start, end, limit))
    ensures |QueryLogs(source, start, end, limit)| <= limit
    ensures KeySet(Gathered(source, Plan(start, end, limit))) <= KeySet(QueryLogs(source, start, end, limit))
  {
    var plan := Plan(start, end, limit);
    var logs := Gathered(source, plan);
    hide Gathered, Plan, SortedUnique, Asked, DistinctKeys;
    PlanConserves(start, end, limit);
    GatheredWithinAsked(source, plan);
    UniqueIsNoLonger(logs);
    var rows := Backfilled(source, start, end, limit);
    UniqueIsNoLonger(rows);
    SortedUniqueFacts(logs);
    SortedUniqueFacts(rows);
    assert KeySet(SortedUnique(logs)) <= KeySet(rows) by {
      forall x | x in SortedUnique(logs) ensures x in rows {}
    }
  }

  /** The keys of the result are those of all answers, the backfill's included, and so are its rows. */
  lemma AnswersAreKept(source: Source, start: int, end: int, limit: int, issued: seq<Request>)
    requires Honours(source) && limit >= 1
    requires
      var plan := Plan(start, end, limit);
      var found := |KeySet(Gathered(source, plan))|;
      issued == plan + if found < limit then [Request(General, Slice(start, end), limit - found, Backward)] else []
    ensures
      var rows := QueryLogs(source, start, end, limit);
      && KeySet(rows) == KeySet(Gathered(source, issued)) && DistinctKeys(rows) && Sorted(rows, Earlier)
      && forall x :: x in rows ==> x in Gathered(source, issued)
  {
    var plan := Plan(start, end, limit);
    var logs := Gathered(source, plan);
    hide Gathered, SortedUnique, Plan, DistinctKeys, Sorted, KeySet, QueryLogs;
    NothingIsDropped(source, start, end, limit);
    SortedUniqueFacts(logs);
    SortedUniqueFacts(Backfilled(source, start, end, limit));
    if |KeySet(logs)| < limit {
      var request := BackfillRequest(start, end, limit - |KeySet(logs)|);
      GatherOne(source, plan, request);
      KeysOfBoth(logs, source(|plan|, request));
      KeysOfBoth(SortedUnique(logs), source(|plan|, request));
    } else {
      assert plan + [] == plan;
    }
  }

  lemma KeysOfBoth(a: seq<Log>, b: seq<Log>)
    ensures KeySet(a + b) == KeySet(a) + KeySet(b)
  {
  }

  /******* The client *******/

  method Query(source: Source, start: int, end: int, requested: int, queryLimit: int)
    returns (rows: seq<Log>, issued: seq<Request>)
    ensures
      var limit := Min(Max(requested, 1), queryLimit);
      var plan := Plan(start, end, limit);
      var found := |KeySet(Gathered(source, plan))|;
      && rows == QueryLogs(source, start, end, limit)
      && issued == plan + (if found < limit then [Request(General, Slice(start, end), limit - found, Backward)] else [])
      && (limit >= 1 ==> Asked(issued[..|plan|]) == limit)
  {
    var limit := Min(Max(requested, 1), queryLimit);
    hide SortedUnique, KeySet, Gathered, TimeSlices, Quotas, AllGeneral, AllSignal, SliceCount, GeneralBudget, SignalBudget, Asked;
    var n := SliceCount(limit);
    var slices := TimeSlices(start, end, n);
    var logs: seq<Log>;
    issued, logs := IssueGeneral(source, slices, Quotas(GeneralBudget(limit), n));
    if SignalBudget(limit) != 0 {
      issued, logs := IssueSignal(source, slices, Quotas(SignalBudget(limit), n), issued, logs);
    }
    assert issued == Plan(start, end, limit);
    ghost var plan := issued;
    if limit >= 1 { PlanConserves(start, end, limit); }
    var sampled := SortUnique(logs);
    SortedUniqueFacts(logs);
    if |sampled| < limit {
      var request := BackfillRequest(start, end, limit - |sampled|);
      sampled := sampled + source(|issued|, request);
      issued := issued + [request];
    }
    assert issued[..|plan|] == plan;
    rows := SortUnique(sampled);
    rows := Take(rows, limit);
  }

  method IssueGeneral(source: Source, slices: seq<Slice>, quotas: seq<nat>) returns (issued: seq<Request>, logs: seq<Log>)
    requires |slices| == |quotas|
    ensures issued == AllGeneral(slices, quotas) && logs == Gathered(source, issued)
  {
    issued, logs := [], [];
    hide Gathered, AllGeneral, GeneralRequests;
    NoneIssued(source);
    for i := 0 to |slices|
      invariant issued == AllGeneral(slices[..i], quotas[..i])
      invariant logs == Gathered(source, issued)
    {
      GeneralGrows(slices, quotas, i);
      issued, logs := IssueSlice(source, slices[i], quotas[i], issued, logs);
    }
    assert slices[..|slices|] == slices && quotas[..|quotas|] == quotas;
  }

  lemma NoneIssued(source: Source)
    ensures AllGeneral([], []) == [] && Gathered(source, []) == []
  {
  }

  lemma GeneralGrows(slices: seq<Slice>, quotas: seq<nat>, i: nat)
    requires |slices| == |quotas| && i < |slices|
    ensures AllGeneral(slices[..i + 1], quotas[..i + 1]) ==
            AllGeneral(slices[..i], quotas[..i]) + GeneralRequests(slices[i], quotas[i])
  {
    assert slices[..i + 1][..i] == slices[..i] && quotas[..i + 1][..i] == quotas[..i];
    hide GeneralRequests;
  }

  method IssueSlice(source: Source, slice: Slice, quota: nat, before: seq<Request>, logsBefore: seq<Log>)
    returns (issued: seq<Request>, logs: seq<Log>)
    requires logsBefore == Gathered(source, before)
    ensures issued == before + GeneralRequests(slice, quota) && logs == Gathered(source, issued)
  {
    hide Gathered, ForwardShare;
    issued, logs := before, logsBefore;
    if quota <= 0 {
      return;
    }
    var forward := ForwardShare(quota);
    var backward := quota - forward;
    logs := logs + source(|issued|, Request(General, slice, forward, Forward));
    GatherOne(source, issued, Request(General, slice, forward, Forward));
    issued := issued + [Request(General, slice, forward, Forward)];
    if backward != 0 {
      logs := logs + source(|issued|, Request(General, slice, backward, Backward));
      GatherOne(source, issued, Request(General, slice, backward, Backward));
      issued := issued + [Request(General, slice, backward, Backward)];
    }
  }

  method IssueSignal(source: Source, slices: seq<Slice>, quotas: seq<nat>, before: seq<Request>, logsBefore: seq<Log>)
    returns (issued: seq<Request>, logs: seq<Log>)
    requires |slices| == |quotas| && logsBefore == Gathered(source, before)
    ensures issued == before + AllSignal(slices, quotas) && logs == Gathered(source, issued)
  {
    hide Gathered;
    issued, logs := before, logsBefore;
    for i := 0 to |slices|
      invariant issued == before + AllSignal(slices[..i], quotas[..i])
      invariant logs == Gathered(source, issued)
    {
      assert slices[..i + 1][..i] == slices[..i] && quotas[..i + 1][..i] == quotas[..i];
      var quota := quotas[i];
      if quota <= 0 {
        continue;
      }
      logs := logs + source(|issued|, Request(HighSignal, slices[i], quota, Forward));
      GatherOne(source, issued, Request(HighSignal, slices[i], quota, Forward));
      issued := issued + [Request(HighSignal, slices[i], quota, Forward)];
    }
    assert slices[..|slices|] == slices && quotas[..|quotas|] == quotas;
  }

  lemma GatherOne(source: Source, issued: seq<Request>, request: Request)
    ensures Gathered(source, issued + [request]) == Gathered(source, issued) + source(|issued|, request)
  {
    assert (issued + [request])[..|issued|] == issued;
  }
}
