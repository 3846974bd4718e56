/**
 `select_stratified_cases`: round-robin over the four named outcomes, then whatever remains.
*/
module StratifiedCases {
  import opened Basics
  import opened Ordering

  /** One labelled application; a label dictionary is a list of these with distinct ids. */
  datatype Case = Case(id: string, outcome: string, workload: string)

  /** Number of outcomes in `outcome_order`, and the k-th of them. */
  const OUTCOMES: nat := 4

  function Named(k: nat): string
    requires k < OUTCOMES
  {
    if k == 0 then "normal" else if k == 1 then "machine_down" else if k == 2 then "network_disconnection" else "disk_full"
  }

  ghost predicate IsNamed(outcome: string) {
    exists k :: 0 <= k < OUTCOMES && Named(k) == outcome
  }

  ghost predicate DistinctCases(cases: seq<Case>) {
    forall i, j :: 0 <= i < j < |cases| ==> cases[i].id != cases[j].id
  }

  /******* Orders *******/

  /** `(workload, application_id)` */
  predicate WorkloadLe(a: Case, b: Case) {
    if a.workload == b.workload then TextLe(a.id, b.id) else TextLe(a.workload, b.workload)
  }

  /** `(outcome, workload, application_id)` */
  predicate OutcomeLe(a: Case, b: Case) {
    if a.outcome == b.outcome then WorkloadLe(a, b) else TextLe(a.outcome, b.outcome)
  }

  lemma CaseOrders()
    ensures TotalPreorder(WorkloadLe) && TotalPreorder(OutcomeLe)
  {
    TextOrder();
    forall a, b, c | WorkloadLe(a, b) && WorkloadLe(b, c) ensures WorkloadLe(a, c) {
      assert TextLe(a.workload, a.workload) && TextLe(b.workload, b.workload);
    }
    assert TotalPreorder(WorkloadLe);
    forall a, b, c | OutcomeLe(a, b) && OutcomeLe(b, c) ensures OutcomeLe(a, c) {
      hide WorkloadLe;
      assert TextLe(a.outcome, a.outcome) && TextLe(b.outcome, b.outcome);
    }
  }

  /******* Buckets *******/

  function OfOutcome(cases: seq<Case>, outcome: string): seq<Case> {
    if cases == [] then []
    else OfOutcome(cases[..|cases| - 1], outcome) +
         (if cases[|cases| - 1].outcome == outcome then [cases[|cases| - 1]] else [])
  }

  function Bucket(labels: seq<Case>, outcome: string): seq<Case> {
    StableSort(OfOutcome(labels, outcome), WorkloadLe)
  }

  lemma {:induction false} OfOutcomeMembers(cases: seq<Case>, outcome: string)
    ensures forall x :: x in OfOutcome(cases, outcome) <==> x in cases && x.outcome == outcome
    ensures |OfOutcome(cases, outcome)| <= |cases|
  {
    if cases != [] {
      OfOutcomeMembers(cases[..|cases| - 1], outcome);
      assert cases == cases[..|cases| - 1] + [cases[|cases| - 1]];
    }
  }

  lemma {:induction false} NoneOfOutcome(cases: seq<Case>, outcome: string)
    requires forall x :: x in cases ==> x.outcome != outcome
    ensures OfOutcome(cases, outcome) == []
  {
    if cases != [] {
      assert cases[|cases| - 1] in cases;
      NoneOfOutcome(cases[..|cases| - 1], outcome);
    }
  }

  lemma LastIsNew(cases: seq<Case>)
    requires DistinctCases(cases) && cases != []
    ensures DistinctCases(cases[..|cases| - 1])
    ensures forall x :: x in cases[..|cases| - 1] ==> x.id != cases[|cases| - 1].id
  {
  }

  lemma AppendNew(cases: seq<Case>, last: Case)
    requires DistinctCases(cases) && forall x :: x in cases ==> x.id != last.id
    ensures DistinctCases(cases + [last])
  {
    forall i | 0 <= i < |cases| ensures cases[i].id != last.id { assert cases[i] in cases; }
  }

  lemma {:induction false} OfOutcomeDistinct(cases: seq<Case>, outcome: string)
    requires DistinctCases(cases)
    ensures DistinctCases(OfOutcome(cases, outcome))
  {
    if cases != [] {
      LastIsNew(cases);
      OfOutcomeDistinct(cases[..|cases| - 1], outcome);
      OfOutcomeMembers(cases[..|cases| - 1], outcome);
      AppendNew(OfOutcome(cases[..|cases| - 1], outcome), cases[|cases| - 1]);
    }
  }

  lemma SameIdSameCase(cases: seq<Case>, a: Case, b: Case)
    requires DistinctCases(cases) && a in cases && b in cases && a.id == b.id
    ensures a == b
  {
    var i :| 0 <= i < |cases| && cases[i] == a;
    var j :| 0 <= j < |cases| && cases[j] == b;
    assert i == j;
  }

  ghost function Ids(cases: seq<Case>): set<string> {
    set c | c in cases :: c.id
  }

  lemma {:induction false} IdCount(cases: seq<Case>)
    ensures |Ids(cases)| <= |cases|
    ensures DistinctCases(cases) <==> |Ids(cases)| == |cases|
  {
    if cases != [] {
      var front, last := cases[..|cases| - 1], cases[|cases| - 1];
      IdCount(front);
      assert cases == front + [last];
      assert Ids(cases) == Ids(front) + {last.id};
      if last.id in Ids(front) {
        var i :| 0 <= i < |front| && front[i].id == last.id;
        assert cases[i].id == cases[|cases| - 1].id;
        assert Ids(cases) == Ids(front);
      } else {
        forall x | x in front ensures x.id != last.id {}
      }
    }
  }

  lemma RearrangedDistinct(a: seq<Case>, b: seq<Case>)
    requires DistinctCases(a) && multiset(a) == multiset(b)
    ensures DistinctCases(b)
  {
    assert |a| == |multiset(a)| == |b|;
    forall x ensures x in a <==> x in b { assert x in a <==> x in multiset(a); assert x in b <==> x in multiset(b); }
    assert Ids(a) == Ids(b);
    IdCount(a);
    IdCount(b);
  }

  lemma BucketFacts(labels: seq<Case>, outcome: string)
    requires DistinctCases(labels)
    ensures DistinctCases(Bucket(labels, outcome))
    ensures forall x :: x in Bucket(labels, outcome) <==> x in labels && x.outcome == outcome
    ensures Sorted(Bucket(labels, outcome), WorkloadLe)
    ensures |Bucket(labels, outcome)| <= |labels|
  {
    CaseOrders();
    OfOutcomeMembers(labels, outcome);
    OfOutcomeDistinct(labels, outcome);
    StableSortMultiset(OfOutcome(labels, outcome), WorkloadLe);
    StableSortMembers(OfOutcome(labels, outcome), WorkloadLe);
    StableSortSorted(OfOutcome(labels, outcome), WorkloadLe);
    RearrangedDistinct(OfOutcome(labels, outcome), Bucket(labels, outcome));
  }

  /******* Rounds *******/

  /** How many of the k-th outcome's bucket are taken once round r has served its first k' outcomes. */
  function Taken(labels: seq<Case>, r: nat, k': nat, k: nat): nat
    requires k < OUTCOMES
  {
    Least(|Bucket(labels, Named(k))|, if k < k' then r + 1 else r)
  }

  /** What one turn on a bucket takes. */
  function Turn(bucket: seq<Case>, r: nat): seq<Case> {
    if r < |bucket| then [bucket[r]] else []
  }

  /** What rounds 0 .. r - 1 take, and then the first k outcomes of round r. */
  function Rounds(labels: seq<Case>, r: nat, k: nat): seq<Case>
    requires k <= OUTCOMES
    decreases r, k
  {
    if k == 0 then (if r == 0 then [] else Rounds(labels, r - 1, OUTCOMES))
    else
      Rounds(labels, r, k - 1) + Turn(Bucket(labels, Named(k - 1)), r)
  }

  lemma OfOutcomeSplits(a: seq<Case>, b: seq<Case>, outcome: string)
    ensures OfOutcome(a + b, outcome) == OfOutcome(a, outcome) + OfOutcome(b, outcome)
  {
    if b == [] {
      assert a + b == a;
    } else {
      OfOutcomeSplits(a, b[..|b| - 1], outcome);
      assert (a + b)[..|a + b| - 1] == a + b[..|b| - 1];
    }
  }

  lemma NamesDiffer(i: nat, j: nat)
    requires i < OUTCOMES && j < OUTCOMES
    ensures Named(i) == Named(j) <==> i == j
  {
    assert Named(0)[0] == 'n' && Named(1)[0] == 'm' && Named(2)[0] == 'n' && Named(3)[0] == 'd';
    assert Named(0)[1] == 'o' && Named(2)[1] == 'e';
  }

  lemma OfOne(x: Case, outcome: string)
    ensures OfOutcome([x], outcome) == if x.outcome == outcome then [x] else []
  {
    assert [x][..0] == [];
  }

  /** Of each outcome the rounds have taken a prefix of its sorted bucket. */
  lemma {:induction false} RoundsTakePrefixes(labels: seq<Case>, r: nat, k': nat, k: nat)
    requires DistinctCases(labels) && k' <= OUTCOMES && k < OUTCOMES
    ensures OfOutcome(Rounds(labels, r, k'), Named(k)) == Bucket(labels, Named(k))[..Taken(labels, r, k', k)]
    decreases r, k'
  {
    RoundStart(labels, r);
    hide Named, Bucket, DistinctCases, Rounds;
    if k' == 0 {
      if r > 0 {
        RoundsTakePrefixes(labels, r - 1, 4, k);
      } else {
        assert Bucket(labels, Named(k))[..0] == [];
      }
    } else {
      RoundsTakePrefixes(labels, r, k' - 1, k);
      OneTurn(labels, r, k' - 1, k);
    }
  }

  lemma RoundStart(labels: seq<Case>, r: nat)
    ensures Rounds(labels, r, 0) == if r == 0 then [] else Rounds(labels, r - 1, OUTCOMES)
  {
  }

  lemma RoundsTurn(labels: seq<Case>, r: nat, turn: nat)
    requires turn < OUTCOMES
    ensures Rounds(labels, r, turn + 1) == Rounds(labels, r, turn) + Turn(Bucket(labels, Named(turn)), r)
  {
    hide Bucket, Named;
  }

  lemma OwnTurn(before: seq<Case>, bucket: seq<Case>, r: nat, outcome: string)
    requires forall x :: x in bucket ==> x.outcome == outcome
    requires OfOutcome(before, outcome) == bucket[..Least(|bucket|, r)]
    ensures OfOutcome(before + Turn(bucket, r), outcome) == bucket[..Least(|bucket|, r + 1)]
  {
    OfOutcomeSplits(before, Turn(bucket, r), outcome);
    hide OfOutcome;
    if r < |bucket| {
      assert bucket[r] in bucket;
      OfOne(bucket[r], outcome);
      assert bucket[..r] + [bucket[r]] == bucket[..r + 1];
    } else {
      NothingOf(outcome);
      assert bucket[..|bucket|] + [] == bucket[..|bucket|];
    }
  }

  lemma NothingOf(outcome: string)
    ensures OfOutcome([], outcome) == []
  {
  }

  lemma OtherTurn(before: seq<Case>, bucket: seq<Case>, r: nat, outcome: string)
    requires forall x :: x in bucket ==> x.outcome != outcome
    ensures OfOutcome(before + Turn(bucket, r), outcome) == OfOutcome(before, outcome)
  {
    OfOutcomeSplits(before, Turn(bucket, r), outcome);
    NoneOfOutcome(Turn(bucket, r), outcome);
  }

  /** One outcome's turn moves only its own prefix. */
  lemma OneTurn(labels: seq<Case>, r: nat, turn: nat, k: nat)
    requires DistinctCases(labels) && turn < OUTCOMES && k < OUTCOMES
    requires OfOutcome(Rounds(labels, r, turn), Named(k)) == Bucket(labels, Named(k))[..Taken(labels, r, turn, k)]
    ensures OfOutcome(Rounds(labels, r, turn + 1), Named(k)) == Bucket(labels, Named(k))[..Taken(labels, r, turn + 1, k)]
  {
    BucketFacts(labels, Named(turn));
    NamesDiffer(turn, k);
    RoundsTurn(labels, r, turn);
    hide Bucket, Rounds, DistinctCases, Named, Sorted, OfOutcome, Turn;
    var bucket := Bucket(labels, Named(turn));
    if turn == k {
      OwnTurn(Rounds(labels, r, turn), bucket, r, Named(k));
    } else {
      OtherTurn(Rounds(labels, r, turn), bucket, r, Named(k));
    }
  }

  /** Everything the rounds take is a labelled case with a named outcome, and none is taken twice. */
  lemma {:induction false} RoundsFromLabels(labels: seq<Case>, r: nat, k: nat)
    requires DistinctCases(labels) && k <= OUTCOMES
    ensures forall x :: x in Rounds(labels, r, k) ==> x in labels && IsNamed(x.outcome)
    ensures DistinctCases(Rounds(labels, r, k))
    decreases r, k
  {
    RoundStart(labels, r);
    hide Named, Bucket, Rounds;
    if k == 0 {
      if r > 0 { RoundsFromLabels(labels, r - 1, 4); }
    } else {
      RoundsFromLabels(labels, r, k - 1);
      RoundsTurn(labels, r, k - 1);
      BucketFacts(labels, Named(k - 1));
      var bucket := Bucket(labels, Named(k - 1));
      if r < |bucket| {
        assert bucket[r] in bucket;
        NextIsNew(labels, r, k - 1);
        AppendNew(Rounds(labels, r, k - 1), bucket[r]);
        assert IsNamed(Named(k - 1));
      }
    }
  }

  /** The case a round is about to take has not been selected yet. */
  lemma NextIsNew(labels: seq<Case>, r: nat, k: nat)
    requires DistinctCases(labels) && k < OUTCOMES && r < |Bucket(labels, Named(k))|
    requires forall x :: x in Rounds(labels, r, k) ==> x in labels
    ensures forall x :: x in Rounds(labels, r, k) ==> x.id != Bucket(labels, Named(k))[r].id
  {
    var bucket, before := Bucket(labels, Named(k)), Rounds(labels, r, k);
    BucketFacts(labels, Named(k));
    RoundsTakePrefixes(labels, r, k, k);
    OfOutcomeMembers(before, Named(k));
    assert bucket[r] in bucket && bucket[r] !in bucket[..r];
    assert bucket[r] !in before;
    forall x | x in before ensures x.id != bucket[r].id {
      if x.id == bucket[r].id {
        SameIdSameCase(labels, x, bucket[r]);
      }
    }
  }

  /** A whole round without a case means every named bucket is used up. */
  ghost predicate Exhausted(labels: seq<Case>, r: nat) {
    forall k :: 0 <= k < OUTCOMES ==> |Bucket(labels, Named(k))| <= r
  }

  lemma ExhaustedTakesAll(labels: seq<Case>, r: nat, x: Case)
    requires DistinctCases(labels) && Exhausted(labels, r) && x in labels && IsNamed(x.outcome)
    ensures x in Rounds(labels, r, 0)
  {
    var k :| 0 <= k < OUTCOMES && Named(k) == x.outcome;
    RoundsTakePrefixes(labels, r, 0, k);
    BucketFacts(labels, Named(k));
    assert Bucket(labels, Named(k))[..|Bucket(labels, Named(k))|] == Bucket(labels, Named(k));
    OfOutcomeMembers(Rounds(labels, r, 0), Named(k));
    assert x in OfOutcome(Rounds(labels, r, 0), Named(k));
  }

  /******* The remainder *******/

  function Unselected(labels: seq<Case>, ids: set<string>): seq<Case> {
    if labels == [] then []
    else Unselected(labels[..|labels| - 1], ids) + (if labels[|labels| - 1].id !in ids then [labels[|labels| - 1]] else [])
  }

  function Remainder(labels: seq<Case>, ids: set<string>): seq<Case> {
    StableSort(Unselected(labels, ids), OutcomeLe)
  }

  lemma {:induction false} UnselectedMembers(labels: seq<Case>, ids: set<string>)
    ensures forall x :: x in Unselected(labels, ids) <==> x in labels && x.id !in ids
  {
    if labels != [] {
      UnselectedMembers(labels[..|labels| - 1], ids);
      assert labels == labels[..|labels| - 1] + [labels[|labels| - 1]];
    }
  }

  lemma {:induction false} UnselectedDistinct(labels: seq<Case>, ids: set<string>)
    requires DistinctCases(labels)
    ensures DistinctCases(Unselected(labels, ids))
  {
    if labels != [] {
      LastIsNew(labels);
      UnselectedDistinct(labels[..|labels| - 1], ids);
      UnselectedMembers(labels[..|labels| - 1], ids);
      AppendNew(Unselected(labels[..|labels| - 1], ids), labels[|labels| - 1]);
    }
  }

  lemma RemainderFacts(labels: seq<Case>, selected: seq<Case>)
    requires DistinctCases(labels) && DistinctCases(selected) && forall x :: x in selected ==> x in labels
    ensures |Remainder(labels, Ids(selected))| == |labels| - |selected|
    ensures DistinctCases(Remainder(labels, Ids(selected)))
    ensures Sorted(Remainder(labels, Ids(selected)), OutcomeLe)
    ensures forall x :: x in Remainder(labels, Ids(selected)) <==> x in labels && x.id !in Ids(selected)
  {
    var left := Unselected(labels, Ids(selected));
    UnselectedMembers(labels, Ids(selected));
    UnselectedDistinct(labels, Ids(selected));
    assert Ids(left) == Ids(labels) - Ids(selected);
    StableSortMultiset(left, OutcomeLe);
    StableSortMembers(left, OutcomeLe);
    CaseOrders();
    StableSortSorted(left, OutcomeLe);
    RearrangedDistinct(left, Remainder(labels, Ids(selected)));
    IdCount(left);
    IdCount(labels);
    IdCount(selected);
    assert Ids(selected) <= Ids(labels);
  }

  /******* The selection *******/

  function Clamp(limit: int, n: nat): nat {
    var m := if limit < n then limit else n;
    if m < 0 then 0 else m
  }

  /**
   Cut short at `count` cases in round r after k outcomes; or, once the named buckets are used up,
   continued with a prefix of the sorted remainder.
  */
  ghost predicate Stratified(labels: seq<Case>, selected: seq<Case>, r: nat, k: nat, rest: seq<Case>) {
    && k <= OUTCOMES
    && selected == Rounds(labels, r, k) + rest
    && (rest != [] ==> Exhausted(labels, r) && k == 0 && rest <= Remainder(labels, Ids(Rounds(labels, r, 0))))
  }

  /** What the shape of the selection means for its contents. */
  lemma StratifiedMeans(labels: seq<Case>, selected: seq<Case>, r: nat, k: nat, rest: seq<Case>)
    requires DistinctCases(labels) && Stratified(labels, selected, r, k, rest)
    ensures DistinctCases(selected)
    ensures forall x :: x in selected ==> x in labels
    ensures forall j :: 0 <= j < OUTCOMES ==> OfOutcome(selected, Named(j)) == Bucket(labels, Named(j))[..Taken(labels, r, k, j)]
    ensures (exists x :: x in selected && !IsNamed(x.outcome)) ==> forall x :: x in labels && IsNamed(x.outcome) ==> x in selected
  {
    var taken := Rounds(labels, r, k);
    RoundsFromLabels(labels, r, k);
    hide Rounds, Bucket, Remainder, Taken, OfOutcome;
    if rest != [] {
      RemainderFacts(labels, taken);
      var remainder := Remainder(labels, Ids(taken));
      forall x | x in rest ensures x in labels && x.id !in Ids(taken) && !IsNamed(x.outcome) {
        var i :| 0 <= i < |rest| && rest[i] == x;
        assert remainder[i] == x;
        assert x in remainder;
        if IsNamed(x.outcome) { ExhaustedTakesAll(labels, r, x); }
      }
      forall x | x in labels && IsNamed(x.outcome) ensures x in selected { ExhaustedTakesAll(labels, r, x); }
      assert DistinctCases(rest);
      forall x, y | x in taken && y in rest ensures x.id != y.id {}
    } else {
      assert selected == taken;
    }
    forall j | 0 <= j < OUTCOMES
      ensures OfOutcome(selected, Named(j)) == Bucket(labels, Named(j))[..Taken(labels, r, k, j)]
    {
      RoundsTakePrefixes(labels, r, k, j);
      OfOutcomeSplits(taken, rest, Named(j));
      NoneOfOutcome(rest, Named(j));
    }
  }

  /** Workload first, identifier second. */
  ghost predicate BeforeInOutcome(x: Case, y: Case) {
    if x.workload == y.workload then TextLe(x.id, y.id) else TextLe(x.workload, y.workload)
  }

  /**
   Which cases are selected: of the four named outcomes those with the lowest workload and identifier,
   and of what is filled in those with the lowest outcome, workload and identifier.
  */
  lemma LowestAreSelected(labels: seq<Case>, selected: seq<Case>, r: nat, k: nat, rest: seq<Case>, x: Case, y: Case)
    requires DistinctCases(labels) && Stratified(labels, selected, r, k, rest)
    requires x in selected && y in labels && y !in selected
    ensures x.outcome == y.outcome && x.outcome in {"normal", "machine_down", "network_disconnection", "disk_full"} ==> BeforeInOutcome(x, y)
    ensures x in rest ==> if x.outcome == y.outcome then BeforeInOutcome(x, y) else TextLe(x.outcome, y.outcome)
  {
    if x.outcome == y.outcome && x.outcome in {"normal", "machine_down", "network_disconnection", "disk_full"} {
      var j := if x.outcome == "normal" then 0 else if x.outcome == "machine_down" then 1
               else if x.outcome == "network_disconnection" then 2 else 3;
      assert Named(j) == x.outcome;
      StratifiedMeans(labels, selected, r, k, rest);
      BucketFacts(labels, Named(j));
      hide Stratified, Bucket, Named;
      PrefixIsLower(Bucket(labels, x.outcome), Taken(labels, r, k, j), selected, x, y);
    }
    if x in rest { RestIsLower(labels, selected, r, k, rest, x, y); }
  }

  lemma PrefixIsLower(bucket: seq<Case>, n: nat, selected: seq<Case>, x: Case, y: Case)
    requires Sorted(bucket, WorkloadLe) && n <= |bucket| && x in bucket && y in bucket && x in selected && y !in selected
    requires OfOutcome(selected, x.outcome) == bucket[..n]
    ensures BeforeInOutcome(x, y)
  {
    OfOutcomeMembers(selected, x.outcome);
    assert x in bucket[..n];
    var i :| 0 <= i < n && bucket[i] == x;
    var j :| 0 <= j < |bucket| && bucket[j] == y;
    forall p | 0 <= p < n ensures bucket[p] != y { assert bucket[..n][p] in bucket[..n]; }
    assert WorkloadLe(bucket[i], bucket[j]);
  }

  lemma RestIsLower(labels: seq<Case>, selected: seq<Case>, r: nat, k: nat, rest: seq<Case>, x: Case, y: Case)
    requires DistinctCases(labels) && Stratified(labels, selected, r, k, rest) && x in rest && y in labels && y !in selected
    ensures OutcomeLe(x, y)
  {
    var taken := Rounds(labels, r, 0);
    RoundsFromLabels(labels, r, 0);
    RemainderFacts(labels, taken);
    var remainder := Remainder(labels, Ids(taken));
    hide Rounds, Remainder, DistinctCases, OutcomeLe;
    forall z | z in taken ensures z.id != y.id { DifferentIds(labels, y, z); }
    var i :| 0 <= i < |rest| && rest[i] == x;
    var j :| 0 <= j < |remainder| && remainder[j] == y;
    assert remainder[i] == x;
    forall p | 0 <= p < |rest| ensures remainder[p] != y { assert rest[p] == remainder[p] && rest[p] in selected; }
  }

  lemma DifferentIds(cases: seq<Case>, a: Case, b: Case)
    requires DistinctCases(cases) && a in cases && b in cases && a != b
    ensures a.id != b.id
  {
    var i :| 0 <= i < |cases| && cases[i] == a;
    var j :| 0 <= j < |cases| && cases[j] == b;
  }

  /** A case of the named outcomes by its turn: the place in its own bucket, and then the outcome. */
  datatype TurnOf = TurnOf(place: nat, outcome: nat)

  ghost predicate EarlierTurn(a: TurnOf, b: TurnOf) {
    a.place < b.place || (a.place == b.place && a.outcome < b.outcome)
  }

  /** The rounds serve the outcomes in turn: first places first, and within a round in the fixed order. */
  lemma {:induction false} RoundRobin(labels: seq<Case>, r: nat, k: nat) returns (turns: seq<TurnOf>)
    requires k <= OUTCOMES
    ensures |turns| == |Rounds(labels, r, k)|
    ensures forall p :: 0 <= p < |turns| ==>
      && turns[p].outcome < OUTCOMES && turns[p].place < |Bucket(labels, Named(turns[p].outcome))|
      && Rounds(labels, r, k)[p] == Bucket(labels, Named(turns[p].outcome))[turns[p].place]
    ensures forall p, q :: 0 <= p < q < |turns| ==> EarlierTurn(turns[p], turns[q])
    ensures forall p :: 0 <= p < |turns| ==> EarlierTurn(turns[p], TurnOf(r, k))
    decreases r, k
  {
    RoundStart(labels, r);
    hide Bucket, Named, Rounds;
    if k == 0 {
      turns := [];
      if r > 0 { turns := RoundRobin(labels, r - 1, OUTCOMES); }
    } else {
      turns := RoundRobin(labels, r, k - 1);
      RoundsTurn(labels, r, k - 1);
      if r < |Bucket(labels, Named(k - 1))| { turns := turns + [TurnOf(r, k - 1)]; }
    }
  }

  function LessOne(n: nat): nat {
    if n == 0 then 0 else n - 1
  }

  function Count(selected: seq<Case>, outcome: string): nat {
    |OfOutcome(selected, outcome)|
  }

  /**
   Balance: a named outcome falls behind another by at most one case, and by none at all behind a
   later one in the fixed order, unless its own bucket is used up.
  */
  lemma Balanced(labels: seq<Case>, selected: seq<Case>, r: nat, k: nat, rest: seq<Case>, a: nat, b: nat)
    requires DistinctCases(labels) && Stratified(labels, selected, r, k, rest)
    requires a < OUTCOMES && b < OUTCOMES
    ensures Count(selected, Named(a)) >= Least(|Bucket(labels, Named(a))|, LessOne(Count(selected, Named(b))))
    ensures a <= b ==> Count(selected, Named(a)) >= Least(|Bucket(labels, Named(a))|, Count(selected, Named(b)))
  {
    StratifiedMeans(labels, selected, r, k, rest);
    hide Stratified, Bucket, Rounds, OfOutcome;
    assert OfOutcome(selected, Named(a)) == Bucket(labels, Named(a))[..Taken(labels, r, k, a)];
    assert OfOutcome(selected, Named(b)) == Bucket(labels, Named(b))[..Taken(labels, r, k, b)];
  }

  /**
   `select_stratified_cases`: the ghost results say how far the rounds got and what was filled in from
   the remainder.
  */
  method SelectStratified(labels: seq<Case>, limit: int)
    returns (selected: seq<Case>, ghost r: nat, ghost k: nat, ghost rest: seq<Case>)
    requires DistinctCases(labels)
    ensures |selected| == if limit <= 0 then 0 else if limit < |labels| then limit else |labels|
    ensures Stratified(labels, selected, r, k, rest)
  {
    var count := Clamp(limit, |labels|);
    var buckets := seq(OUTCOMES, i requires 0 <= i < OUTCOMES => Bucket(labels, Named(i)));
    var ids: set<string>;
    var round: nat;
    selected, ids, round, k := PlayRounds(labels, buckets, count);
    r, rest := round, [];
    assert selected == Rounds(labels, r, k) + [];
    if |selected| < count {
      RoundsFromLabels(labels, r, 0);
      RemainderFacts(labels, selected);
      var remainder := Remainder(labels, ids);
      rest := remainder[..count - |selected|];
      selected := selected + remainder[..count - |selected|];
    }
  }

  method PlayRounds(labels: seq<Case>, buckets: seq<seq<Case>>, count: nat)
    returns (selected: seq<Case>, ids: set<string>, round: nat, ghost k: nat)
    requires DistinctCases(labels) && count <= |labels|
    requires |buckets| == OUTCOMES && forall i :: 0 <= i < OUTCOMES ==> buckets[i] == Bucket(labels, Named(i))
    ensures k <= OUTCOMES && selected == Rounds(labels, round, k) && ids == Ids(selected) && |selected| <= count
    ensures |selected| < count ==> k == 0 && Exhausted(labels, round)
  {
    selected, ids, round, k := [], {}, 0, 0;
    while |selected| < count
      invariant k <= OUTCOMES && selected == Rounds(labels, round, k) && ids == Ids(selected) && |selected| <= count
      invariant |selected| < count ==> k == 0
      decreases count - |selected|
    {
      var added := false;
      ghost var before := |selected|;
      selected, ids, added, k := PlayRound(labels, buckets, count, round, selected, ids);
      if |selected| >= count {
        break;
      }
      if !added {
        k := 0;
        break;
      }
      round := round + 1;
      k := 0;
    }
  }

  /** One pass over the named outcomes; stops early when enough cases are selected. */
  method PlayRound(labels: seq<Case>, buckets: seq<seq<Case>>, count: nat, round: nat, before: seq<Case>, idsBefore: set<string>)
    returns (selected: seq<Case>, ids: set<string>, added: bool, ghost k: nat)
    requires DistinctCases(labels) && |before| < count
    requires |buckets| == OUTCOMES && forall i :: 0 <= i < OUTCOMES ==> buckets[i] == Bucket(labels, Named(i))
    requires before == Rounds(labels, round, 0) && idsBefore == Ids(before)
    ensures k <= OUTCOMES && selected == Rounds(labels, round, k) && ids == Ids(selected) && |selected| <= count
    ensures |selected| < count ==> k == OUTCOMES
    ensures added <==> |selected| > |before|
    ensures !added ==> selected == before && Exhausted(labels, round)
  {
    hide Rounds, Bucket, DistinctCases, Ids;
    selected, ids, added, k := before, idsBefore, false, 0;
    for i := 0 to OUTCOMES
      invariant k == i && selected == Rounds(labels, round, i) && ids == Ids(selected) && |selected| < count
      invariant added <==> |selected| > |before|
      invariant |selected| >= |before|
      invariant !added ==> selected == before && forall j :: 0 <= j < i ==> |Bucket(labels, Named(j))| <= round
    {
      var values := buckets[i];
      RoundsTurn(labels, round, i);
      k := i + 1;
      if round >= |values| {
        continue;
      }
      RoundsFromLabels(labels, round, i);
      NextIsNew(labels, round, i);
      IdsNew(selected, values[round].id);
      if values[round].id in ids {
        continue;
      }
      AddId(selected, values[round]);
      selected := selected + [values[round]];
      ids := ids + {values[round].id};
      added := true;
      if |selected| >= count {
        break;
      }
    }
  }

  lemma IdsNew(selected: seq<Case>, id: string)
    ensures id in Ids(selected) <==> exists x :: x in selected && x.id == id
  {
  }

  lemma AddId(selected: seq<Case>, x: Case)
    ensures Ids(selected + [x]) == Ids(selected) + {x.id}
  {
  }
}
