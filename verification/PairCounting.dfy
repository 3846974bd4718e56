/**
 The counting core of `evaluate_grouping_rows`: one pass over the rows fills three counters, and
 pair totals are read off the counts.  Everything is related to the quadratic definition, the set
 of row pairs i < j that agree.
*/
module PairCounting {
  import opened MapSums

  /** A row after inference: its case, the inferred group and the held-out label. */
  datatype Row = Row(caseId: string, group: string, truth: string)

  datatype GroupKey = GroupKey(caseId: string, group: string)
  datatype TruthKey = TruthKey(caseId: string, truth: string)

  /** `_comb2` */
  function Comb2(n: int): int {
    n * (n - 1) / 2
  }

  lemma Comb2Step(n: int)
    ensures Comb2(n + 1) == Comb2(n) + n
  {
    assert (n + 1) * n == n * (n - 1) + 2 * n;
  }

  /******* Counters *******/

  function Bump<K>(m: map<K, int>, k: K): map<K, int> {
    m[k := Get(m, k) + 1]
  }

  /** `defaultdict(Counter)` lookup. */
  function Inner<K, L>(m: map<K, map<L, int>>, k: K): map<L, int> {
    if k in m then m[k] else map[]
  }

  function BumpInner<K, L>(m: map<K, map<L, int>>, k: K, l: L): map<K, map<L, int>> {
    m[k := Bump(Inner(m, k), l)]
  }

  function GroupOf(row: Row): GroupKey { GroupKey(row.caseId, row.group) }
  function TruthOf(row: Row): TruthKey { TruthKey(row.caseId, row.truth) }

  function Inferred(rows: seq<Row>): map<GroupKey, map<string, int>> {
    if rows == [] then map[]
    else
      var last := rows[|rows| - 1];
      BumpInner(Inferred(rows[..|rows| - 1]), GroupOf(last), last.truth)
  }

  function Truths(rows: seq<Row>): map<TruthKey, int> {
    if rows == [] then map[] else Bump(Truths(rows[..|rows| - 1]), TruthOf(rows[|rows| - 1]))
  }

  function Fragments(rows: seq<Row>): map<TruthKey, map<string, int>> {
    if rows == [] then map[]
    else
      var last := rows[|rows| - 1];
      BumpInner(Fragments(rows[..|rows| - 1]), TruthOf(last), last.group)
  }

  method CountRows(rows: seq<Row>)
    returns (inferred: map<GroupKey, map<string, int>>, truths: map<TruthKey, int>, fragments: map<TruthKey, map<string, int>>)
    ensures inferred == Inferred(rows) && truths == Truths(rows) && fragments == Fragments(rows)
  {
    inferred, truths, fragments := map[], map[], map[];
    for i := 0 to |rows|
      invariant inferred == Inferred(rows[..i])
      invariant truths == Truths(rows[..i])
      invariant fragments == Fragments(rows[..i])
    {
      assert rows[..i + 1][..i] == rows[..i];
      var groupKey, truthKey := GroupOf(rows[i]), TruthOf(rows[i]);
      inferred := BumpInner(inferred, groupKey, rows[i].truth);
      truths := Bump(truths, truthKey);
      fragments := BumpInner(fragments, truthKey, rows[i].group);
    }
    assert rows[..|rows|] == rows;
  }

  /******* Pair totals *******/

  ghost function Pairs<K>(counts: map<K, int>): map<K, int> {
    map k | k in counts :: Comb2(counts[k])
  }

  ghost function PairsPerGroup(inferred: map<GroupKey, map<string, int>>): map<GroupKey, int> {
    map g | g in inferred :: Total(Pairs(inferred[g]))
  }

  ghost function PredictedPerGroup(inferred: map<GroupKey, map<string, int>>): map<GroupKey, int> {
    map g | g in inferred :: Comb2(Total(inferred[g]))
  }

  ghost function TruePositives(inferred: map<GroupKey, map<string, int>>): int {
    Total(PairsPerGroup(inferred))
  }

  ghost function Predicted(inferred: map<GroupKey, map<string, int>>): int {
    Total(PredictedPerGroup(inferred))
  }

  ghost function TruthPairs(truths: map<TruthKey, int>): int {
    Total(Pairs(truths))
  }

  /******* The quadratic definition *******/

  type Same = (Row, Row) -> bool

  ghost function PairSet(rows: seq<Row>, same: Same): set<(int, int)> {
    set i, j | 0 <= i < j < |rows| && same(rows[i], rows[j]) :: (i, j)
  }

  predicate SameGroup(a: Row, b: Row) { a.caseId == b.caseId && a.group == b.group }
  predicate SameTruth(a: Row, b: Row) { a.caseId == b.caseId && a.truth == b.truth }
  predicate SameBoth(a: Row, b: Row) { SameGroup(a, b) && SameTruth(a, b) }
  predicate GroupOnly(a: Row, b: Row) { SameGroup(a, b) && !SameTruth(a, b) }
  predicate TruthOnly(a: Row, b: Row) { SameTruth(a, b) && !SameGroup(a, b) }

  ghost function Matching(rows: seq<Row>, same: Same, x: Row): set<int> {
    set i | 0 <= i < |rows| && same(rows[i], x)
  }

  ghost function PairedWith<T>(s: set<T>, n: int): set<(T, int)> {
    set i | i in s :: (i, n)
  }

  lemma {:induction false} PairedCount<T>(s: set<T>, n: int)
    ensures |PairedWith(s, n)| == |s|
    decreases |s|
  {
    if s == {} {
      assert PairedWith(s, n) == {};
    } else {
      var x :| x in s;
      PairedCount(s - {x}, n);
      assert PairedWith(s, n) == PairedWith(s - {x}, n) + {(x, n)};
    }
  }

  lemma PairSetStep(rows: seq<Row>, x: Row, same: Same)
    ensures |PairSet(rows + [x], same)| == |PairSet(rows, same)| + |Matching(rows, same, x)|
  {
    var n := |rows|;
    var added := PairedWith(Matching(rows, same, x), n);
    PairedCount(Matching(rows, same, x), n);
    forall i, j ensures (i, j) in PairSet(rows + [x], same) <==> (i, j) in PairSet(rows, same) + added {
      if 0 <= i < j < n { assert (rows + [x])[i] == rows[i] && (rows + [x])[j] == rows[j]; }
    }
    assert PairSet(rows + [x], same) == PairSet(rows, same) + added;
    assert PairSet(rows, same) !! added;
  }

  lemma MatchingStep(rows: seq<Row>, same: Same, x: Row, y: Row)
    ensures |Matching(rows + [y], same, x)| == |Matching(rows, same, x)| + if same(y, x) then 1 else 0
  {
    var n := |rows|;
    forall i ensures i in Matching(rows + [y], same, x) <==> i in Matching(rows, same, x) || (i == n && same(y, x)) {
      if 0 <= i < n { assert (rows + [y])[i] == rows[i]; }
    }
    assert Matching(rows + [y], same, x) == Matching(rows, same, x) + if same(y, x) then {n} else {};
  }

  /******* What the counters hold *******/

  /** Counts are numbers of matching rows, for any key x could have. */
  lemma {:induction false} CountersCount(rows: seq<Row>, x: Row)
    ensures Total(Inner(Inferred(rows), GroupOf(x))) == |Matching(rows, SameGroup, x)|
    ensures Get(Truths(rows), TruthOf(x)) == |Matching(rows, SameTruth, x)|
    ensures Get(Inner(Inferred(rows), GroupOf(x)), x.truth) == |Matching(rows, SameBoth, x)|
    ensures Get(Inner(Fragments(rows), TruthOf(x)), x.group) == |Matching(rows, SameBoth, x)|
  {
    if rows == [] {
      assert Matching(rows, SameGroup, x) == {} && Matching(rows, SameTruth, x) == {} && Matching(rows, SameBoth, x) == {};
    } else {
      var front, last := rows[..|rows| - 1], rows[|rows| - 1];
      assert rows == front + [last];
      CountersCount(front, x);
      MatchingStep(front, SameGroup, x, last);
      MatchingStep(front, SameTruth, x, last);
      MatchingStep(front, SameBoth, x, last);
      TotalUpdate(Inner(Inferred(front), GroupOf(last)), last.truth, Get(Inner(Inferred(front), GroupOf(last)), last.truth) + 1);
    }
  }

  lemma TruePositiveStep(m: map<GroupKey, map<string, int>>, g: GroupKey, l: string)
    ensures TruePositives(BumpInner(m, g, l)) == TruePositives(m) + Get(Inner(m, g), l)
  {
    var after := BumpInner(m, g, l);
    var c := Inner(m, g);
    var n := Get(c, l);
    Comb2Step(n);
    TotalUpdate(Pairs(c), l, Comb2(n + 1));
    assert Pairs(Bump(c, l)) == Pairs(c)[l := Comb2(n + 1)];
    assert Comb2(0) == 0;
    TotalUpdate(PairsPerGroup(m), g, Total(Pairs(after[g])));
    assert PairsPerGroup(after) == PairsPerGroup(m)[g := Total(Pairs(after[g]))];
    assert Total(Pairs<string>(map[])) == 0 by { assert Pairs<string>(map[]) == map[]; }
  }

  lemma PredictedStep(m: map<GroupKey, map<string, int>>, g: GroupKey, l: string)
    ensures Predicted(BumpInner(m, g, l)) == Predicted(m) + Total(Inner(m, g))
  {
    var after := BumpInner(m, g, l);
    var c := Inner(m, g);
    TotalUpdate(c, l, Get(c, l) + 1);
    Comb2Step(Total(c));
    TotalUpdate(PredictedPerGroup(m), g, Comb2(Total(after[g])));
    assert PredictedPerGroup(after) == PredictedPerGroup(m)[g := Comb2(Total(after[g]))];
    assert Comb2(0) == 0;
  }

  lemma TruthPairsStep(m: map<TruthKey, int>, k: TruthKey)
    ensures TruthPairs(Bump(m, k)) == TruthPairs(m) + Get(m, k)
  {
    var n := Get(m, k);
    Comb2Step(n);
    assert Comb2(0) == 0;
    TotalUpdate(Pairs(m), k, Comb2(n + 1));
    assert Pairs(Bump(m, k)) == Pairs(m)[k := Comb2(n + 1)];
  }

  /** The three pair totals are the numbers of row pairs that share group and label, group, and label. */
  lemma {:induction false} PairTotals(rows: seq<Row>)
    ensures TruePositives(Inferred(rows)) == |PairSet(rows, SameBoth)|
    ensures Predicted(Inferred(rows)) == |PairSet(rows, SameGroup)|
    ensures TruthPairs(Truths(rows)) == |PairSet(rows, SameTruth)|
  {
    if rows == [] {
      assert PairSet(rows, SameBoth) == {} && PairSet(rows, SameGroup) == {} && PairSet(rows, SameTruth) == {};
      assert Pairs(Truths(rows)) == map[];
    } else {
      var front, last := rows[..|rows| - 1], rows[|rows| - 1];
      assert rows == front + [last];
      PairTotals(front);
      CountersCount(front, last);
      TruePositiveStep(Inferred(front), GroupOf(last), last.truth);
      PredictedStep(Inferred(front), GroupOf(last), last.truth);
      TruthPairsStep(Truths(front), TruthOf(last));
      PairSetStep(front, last, SameBoth);
      PairSetStep(front, last, SameGroup);
      PairSetStep(front, last, SameTruth);
    }
  }

  /** Pairs that agree one way are those that also agree another way and those that do not. */
  lemma SplitPairs(rows: seq<Row>, all: Same, both: Same, rest: Same)
    requires forall x, y :: all(x, y) <==> both(x, y) || rest(x, y)
    requires forall x, y :: !(both(x, y) && rest(x, y))
    ensures |PairSet(rows, all)| == |PairSet(rows, both)| + |PairSet(rows, rest)|
  {
    assert PairSet(rows, all) == PairSet(rows, both) + PairSet(rows, rest);
    assert PairSet(rows, both) !! PairSet(rows, rest);
  }

  /** Both error counts are numbers of pairs, hence never negative. */
  lemma ErrorPairs(rows: seq<Row>)
    ensures Predicted(Inferred(rows)) - TruePositives(Inferred(rows)) == |PairSet(rows, GroupOnly)|
    ensures TruthPairs(Truths(rows)) - TruePositives(Inferred(rows)) == |PairSet(rows, TruthOnly)|
  {
    PairTotals(rows);
    SplitPairs(rows, SameGroup, SameBoth, GroupOnly);
    SplitPairs(rows, SameTruth, SameBoth, TruthOnly);
  }

  /******* When the grouping is perfect *******/

  ghost predicate Occurs(rows: seq<Row>, group: GroupKey, truth: string) {
    exists row :: row in rows && GroupOf(row) == group && row.truth == truth
  }

  lemma OccursStep(rows: seq<Row>, last: Row, group: GroupKey, truth: string)
    ensures Occurs(rows + [last], group, truth) <==> Occurs(rows, group, truth) || (GroupOf(last) == group && last.truth == truth)
  {
    assert last in rows + [last];
    if Occurs(rows, group, truth) {
      var row :| row in rows && GroupOf(row) == group && row.truth == truth;
      assert row in rows + [last];
    }
  }

  /** A group counts a label exactly when a row of the group has it. */
  lemma {:induction false} InferredKeys(rows: seq<Row>, group: GroupKey, truth: string)
    ensures group in Inferred(rows) && truth in Inferred(rows)[group] <==> Occurs(rows, group, truth)
  {
    if rows != [] {
      var front, last := rows[..|rows| - 1], rows[|rows| - 1];
      InferredKeys(front, group, truth);
      OccursStep(front, last, group, truth);
      assert rows == front + [last];
    }
  }

  /** A label is counted under a group exactly when a row of the group has it. */
  lemma {:induction false} FragmentKeys(rows: seq<Row>, group: GroupKey, truth: string)
    ensures
      var key := TruthKey(group.caseId, truth);
      key in Fragments(rows) && group.group in Fragments(rows)[key] <==> Occurs(rows, group, truth)
  {
    if rows != [] {
      var front, last := rows[..|rows| - 1], rows[|rows| - 1];
      FragmentKeys(front, group, truth);
      OccursStep(front, last, group, truth);
      assert rows == front + [last];
    }
  }

  /** No counter is empty and no count is zero. */
  lemma {:induction false} CountsArePositive(rows: seq<Row>)
    ensures forall g :: g in Inferred(rows) ==>
      Inferred(rows)[g] != map[] && forall l :: l in Inferred(rows)[g] ==> Inferred(rows)[g][l] > 0
  {
    if rows != [] {
      CountsArePositive(rows[..|rows| - 1]);
      assert rows[|rows| - 1].truth in Inferred(rows)[GroupOf(rows[|rows| - 1])];
    }
  }

  /** `len(counts) > 1` for some entry. */
  ghost predicate SomeSplit<K, L>(m: map<K, map<L, int>>) {
    exists k :: k in m && |m[k]| > 1
  }

  lemma TwoKeys<L>(m: map<L, int>, a: L, b: L)
    requires a in m && b in m && a != b
    ensures |m| > 1
  {
    assert {a, b} <= m.Keys;
    var rest := m.Keys - {a, b};
    assert m.Keys == {a, b} + rest;
    assert |m.Keys| == 2 + |rest|;
  }

  lemma TwoOf<L>(m: map<L, int>) returns (a: L, b: L)
    requires |m| > 1
    ensures a in m && b in m && a != b
  {
    a :| a in m.Keys;
    var rest := m.Keys - {a};
    assert |m.Keys| == 1 + |rest|;
    b :| b in rest;
  }

  /** There is a pair i < j that agrees iff two positions, in either order, do. */
  lemma SomePair(rows: seq<Row>, same: Same, a: Row, b: Row)
    requires a in rows && b in rows && a != b && same(a, b) && same(b, a)
    ensures PairSet(rows, same) != {}
  {
    var i :| 0 <= i < |rows| && rows[i] == a;
    var j :| 0 <= j < |rows| && rows[j] == b;
    assert if i < j then (i, j) in PairSet(rows, same) else (j, i) in PairSet(rows, same);
  }

  lemma SplitGroupHasPair(rows: seq<Row>, g: GroupKey)
    requires g in Inferred(rows) && |Inferred(rows)[g]| > 1
    ensures PairSet(rows, GroupOnly) != {}
  {
    var l, l' := TwoOf(Inferred(rows)[g]);
    InferredKeys(rows, g, l);
    InferredKeys(rows, g, l');
    var a :| a in rows && GroupOf(a) == g && a.truth == l;
    var b :| b in rows && GroupOf(b) == g && b.truth == l';
    SomePair(rows, GroupOnly, a, b);
  }

  lemma PairSplitsGroup(rows: seq<Row>, i: nat, j: nat)
    requires i < j < |rows| && GroupOnly(rows[i], rows[j])
    ensures SomeSplit(Inferred(rows))
  {
    var g := GroupOf(rows[i]);
    assert rows[i] in rows && rows[j] in rows;
    InferredKeys(rows, g, rows[i].truth);
    InferredKeys(rows, g, rows[j].truth);
    TwoKeys(Inferred(rows)[g], rows[i].truth, rows[j].truth);
  }

  /** No false-positive pair iff no inferred group mixes labels: the collision list is empty. */
  lemma NoCollisions(rows: seq<Row>)
    ensures Predicted(Inferred(rows)) == TruePositives(Inferred(rows)) <==> !SomeSplit(Inferred(rows))
  {
    ErrorPairs(rows);
    hide Inferred;
    if SomeSplit(Inferred(rows)) {
      var g :| g in Inferred(rows) && |Inferred(rows)[g]| > 1;
      SplitGroupHasPair(rows, g);
    } else if i, j :| (i, j) in PairSet(rows, GroupOnly) {
      PairSplitsGroup(rows, i, j);
    } else {
      assert PairSet(rows, GroupOnly) == {};
    }
  }

  lemma SplitTruthHasPair(rows: seq<Row>, k: TruthKey)
    requires k in Fragments(rows) && |Fragments(rows)[k]| > 1
    ensures PairSet(rows, TruthOnly) != {}
  {
    var g, g' := TwoOf(Fragments(rows)[k]);
    FragmentKeys(rows, GroupKey(k.caseId, g), k.truth);
    FragmentKeys(rows, GroupKey(k.caseId, g'), k.truth);
    var a :| a in rows && GroupOf(a) == GroupKey(k.caseId, g) && a.truth == k.truth;
    var b :| b in rows && GroupOf(b) == GroupKey(k.caseId, g') && b.truth == k.truth;
    SomePair(rows, TruthOnly, a, b);
  }

  lemma PairSplitsTruth(rows: seq<Row>, i: nat, j: nat)
    requires i < j < |rows| && TruthOnly(rows[i], rows[j])
    ensures SomeSplit(Fragments(rows))
  {
    var k := TruthOf(rows[i]);
    assert rows[i] in rows && rows[j] in rows;
    FragmentKeys(rows, GroupOf(rows[i]), k.truth);
    FragmentKeys(rows, GroupOf(rows[j]), k.truth);
    TwoKeys(Fragments(rows)[k], rows[i].group, rows[j].group);
  }

  /** No false-negative pair iff no source label is spread over several groups. */
  lemma NoFragments(rows: seq<Row>)
    ensures TruthPairs(Truths(rows)) == TruePositives(Inferred(rows)) <==> !SomeSplit(Fragments(rows))
  {
    ErrorPairs(rows);
    hide Fragments;
    if SomeSplit(Fragments(rows)) {
      var k :| k in Fragments(rows) && |Fragments(rows)[k]| > 1;
      SplitTruthHasPair(rows, k);
    } else if i, j :| (i, j) in PairSet(rows, TruthOnly) {
      PairSplitsTruth(rows, i, j);
    } else {
      assert PairSet(rows, TruthOnly) == {};
    }
  }

  /******* Dominant rows *******/

  /** `max(counts.values())` */
  ghost function Largest<L>(m: map<L, int>): int
    requires m != map[]
  {
    HasLargest(m);
    var l :| l in m && forall x :: x in m ==> m[x] <= m[l];
    m[l]
  }

  lemma HasLargest<L>(m: map<L, int>)
    requires m != map[]
    ensures exists l :: l in m && forall x :: x in m ==> m[x] <= m[l]
  {
    var l := FindLargest(m);
  }

  lemma {:induction false} FindLargest<L>(m: map<L, int>) returns (l: L)
    requires m != map[]
    ensures l in m && forall x :: x in m ==> m[x] <= m[l]
    decreases |m|
  {
    var k :| k in m;
    l := k;
    var rest := m - {k};
    if rest != map[] {
      Smaller(m, k);
      var other := FindLargest(rest);
      if m[k] <= m[other] { l := other; }
    }
    forall x | x in m ensures m[x] <= m[l] {
      if x != k { assert x in rest && rest[x] == m[x]; }
    }
  }

  /** The most frequent label accounts for the whole group exactly when it is the only one. */
  lemma LargestIsAll<L>(m: map<L, int>)
    requires m != map[] && forall l :: l in m ==> m[l] > 0
    ensures Largest(m) <= Total(m)
    ensures Largest(m) == Total(m) <==> |m| == 1
  {
    HasLargest(m);
    var l :| l in m && m[l] == Largest(m);
    OneOfTotal(m, l);
    TotalWithout(m, l);
    assert m.Keys == {l} + (m.Keys - {l});
    assert |m.Keys| == 1 + |m.Keys - {l}|;
    if m.Keys - {l} == {} {
      assert m.Keys == {l};
    } else {
      var other :| other in m.Keys - {l};
      OneOfTotal(m - {l}, other);
    }
  }

  ghost function DominantRows(inferred: map<GroupKey, map<string, int>>): int
    requires forall g :: g in inferred ==> inferred[g] != map[]
  {
    Total(Dominant(inferred))
  }

  ghost function GroupSizes(inferred: map<GroupKey, map<string, int>>): map<GroupKey, int> {
    map g | g in inferred :: Total(inferred[g])
  }

  lemma {:induction false} RowsInGroups(rows: seq<Row>)
    ensures Total(GroupSizes(Inferred(rows))) == |rows|
  {
    if rows == [] {
      assert GroupSizes(Inferred(rows)) == map[];
    } else {
      var front, last := rows[..|rows| - 1], rows[|rows| - 1];
      RowsInGroups(front);
      var m, g := Inferred(front), GroupOf(last);
      TotalUpdate(Inner(m, g), last.truth, Get(Inner(m, g), last.truth) + 1);
      TotalUpdate(GroupSizes(m), g, Total(Inner(m, g)) + 1);
      assert GroupSizes(Inferred(rows)) == GroupSizes(m)[g := Total(Inner(m, g)) + 1];
    }
  }

  ghost function Dominant(inferred: map<GroupKey, map<string, int>>): map<GroupKey, int>
    requires forall g :: g in inferred ==> inferred[g] != map[]
  {
    map g | g in inferred :: Largest(inferred[g])
  }

  lemma DominantPerGroup(inferred: map<GroupKey, map<string, int>>, g: GroupKey)
    requires forall g :: g in inferred ==> inferred[g] != map[] && forall l :: l in inferred[g] ==> inferred[g][l] > 0
    requires g in inferred
    ensures Dominant(inferred)[g] <= GroupSizes(inferred)[g]
    ensures Dominant(inferred)[g] == GroupSizes(inferred)[g] <==> |inferred[g]| <= 1
  {
    LargestIsAll(inferred[g]);
    var l :| l in inferred[g].Keys;
    assert |inferred[g].Keys| == 1 + |inferred[g].Keys - {l}|;
  }

  lemma DominantTotals(inferred: map<GroupKey, map<string, int>>)
    requires forall g :: g in inferred ==> inferred[g] != map[] && forall l :: l in inferred[g] ==> inferred[g][l] > 0
    ensures Total(Dominant(inferred)) <= Total(GroupSizes(inferred))
    ensures Total(Dominant(inferred)) == Total(GroupSizes(inferred)) <==> !SomeSplit(inferred)
  {
    var a, b := Dominant(inferred), GroupSizes(inferred);
    forall g | g in inferred
      ensures a[g] <= b[g] && (a[g] == b[g] <==> |inferred[g]| <= 1)
    {
      DominantPerGroup(inferred, g);
    }
    assert a.Keys == inferred.Keys == b.Keys;
    TotalMonotone(a, b);
    hide Dominant, GroupSizes, Total;
    if SomeSplit(inferred) {
      var g :| g in inferred && |inferred[g]| > 1;
      assert a[g] != b[g];
    } else {
      assert forall g :: g in inferred ==> a[g] == b[g];
      assert a == b;
    }
  }

  /** The weighted purity is perfect -- dominant rows are all rows -- iff no false-positive pair exists. */
  lemma DominantRowsExact(rows: seq<Row>)
    ensures forall g :: g in Inferred(rows) ==> Inferred(rows)[g] != map[]
    ensures DominantRows(Inferred(rows)) <= |rows|
    ensures DominantRows(Inferred(rows)) == |rows| <==> Predicted(Inferred(rows)) == TruePositives(Inferred(rows))
  {
    CountsArePositive(rows);
    NoCollisions(rows);
    RowsInGroups(rows);
    DominantTotals(Inferred(rows));
  }

  /******* The report *******/

  /** The generator expressions over `inferred_counts.values()`. */
  method PerGroup(inferred: map<GroupKey, map<string, int>>) returns (pairs: map<GroupKey, int>, predicted: map<GroupKey, int>)
    ensures pairs == PairsPerGroup(inferred) && predicted == PredictedPerGroup(inferred)
  {
    pairs, predicted := map[], map[];
    var rest := inferred.Keys;
    while rest != {}
      invariant rest <= inferred.Keys
      invariant pairs.Keys == predicted.Keys == inferred.Keys - rest
      invariant forall g :: g in pairs ==> pairs[g] == Total(Pairs(inferred[g]))
      invariant forall g :: g in predicted ==> predicted[g] == Comb2(Total(inferred[g]))
    {
      var g :| g in rest;
      var counts := inferred[g];
      var inner := SumUp(map l | l in counts :: Comb2(counts[l]));
      assert (map l | l in counts :: Comb2(counts[l])) == Pairs(counts);
      var size := SumUp(counts);
      pairs, predicted := pairs[g := inner], predicted[g := Comb2(size)];
      rest := rest - {g};
    }
  }

  /** The pairwise report counts exactly the pairs the quadratic definition names. */
  method PairReport(rows: seq<Row>) returns (truePositive: int, falsePositive: int, falseNegative: int)
    ensures truePositive == |PairSet(rows, SameBoth)|
    ensures falsePositive == |PairSet(rows, GroupOnly)|
    ensures falseNegative == |PairSet(rows, TruthOnly)|
  {
    hide Inferred, Truths, Fragments, PairSet, Total, PairsPerGroup, PredictedPerGroup;
    var inferred, truths, fragments := CountRows(rows);
    var pairs, groups := PerGroup(inferred);
    truePositive := SumUp(pairs);
    var predicted := SumUp(groups);
    var truthPairs := SumUp(map k | k in truths :: Comb2(truths[k]));
    assert (map k | k in truths :: Comb2(truths[k])) == Pairs(truths);
    falsePositive := predicted - truePositive;
    falseNegative := truthPairs - truePositive;
    PairTotals(rows);
    ErrorPairs(rows);
  }
}
