/**
 `_even_sample`: evenly spaced rows of the deduplicated list.

 Positions are Python's `round(index * (n - 1) / (limit - 1))`, which sends ties to the even
 neighbour.  The quotient is taken exactly, over the rationals.
*/
module EvenSpacing {
  import opened LogRows

  /** `round(a / b)`: nearest integer, ties to even. */
  function RoundHalfEven(a: int, b: nat): (m: int)
    requires b > 0
    ensures a >= 0 ==> m >= 0
  {
    var q, r := a / b, a % b;
    if 2 * r < b then q
    else if 2 * r > b then q + 1
    else if q % 2 == 0 then q else q + 1
  }

  lemma MulMonotone(x: int, y: int, b: nat)
    ensures x <= y ==> x * b <= y * b
  {
    if x <= y {
      assert y * b == x * b + (y - x) * b;
    }
  }

  /** Quotient and remainder are determined by the division equation. */
  lemma DivUnique(x: int, q: int, r: nat, b: nat)
    requires b > 0 && r < b && x == q * b + r
    ensures x / b == q && x % b == r
  {
    var q', r' := x / b, x % b;
    assert x == q' * b + r';
    assert (q' + 1) * b == q' * b + b && (q + 1) * b == q * b + b;
    MulMonotone(q' + 1, q, b);
    MulMonotone(q + 1, q', b);
  }

  /** The rounded value is within half a unit of the quotient. */
  lemma RoundBounds(a: int, b: nat)
    requires b > 0
    ensures 2 * a - b <= 2 * (RoundHalfEven(a, b) * b) <= 2 * a + b
  {
    var q, r := a / b, a % b;
    assert a == q * b + r;
    assert (q + 1) * b == q * b + b;
  }

  /** Half-way cases go to the even neighbour. */
  lemma RoundTies(a: int, b: nat)
    requires b > 0
    ensures 2 * (RoundHalfEven(a, b) * b) in {2 * a - b, 2 * a + b} ==> RoundHalfEven(a, b) % 2 == 0
  {
    var q, r := a / b, a % b;
    assert a == q * b + r;
    assert (q + 1) * b == q * b + b;
  }

  lemma RoundExact(m: int, b: nat)
    requires b > 0
    ensures RoundHalfEven(m * b, b) == m
  {
    DivUnique(m * b, m, 0, b);
  }

  /** Position of the index-th sample among n rows. */
  function Spot(n: nat, limit: nat, index: nat): nat
    requires limit >= 2 && n >= 1
  {
    RoundHalfEven(index * (n - 1), limit - 1)
  }

  /** Ceiling of the spacing. */
  function Spacing(n: nat, limit: nat): nat
    requires limit >= 2 && n >= 1
  {
    (n - 1 + limit - 2) / (limit - 1)
  }

  /** Roundings of two values d apart, d more than one unit, differ. */
  lemma Apart(a: nat, d: nat, b: nat)
    requires d > b > 0
    ensures RoundHalfEven(a, b) < RoundHalfEven(a + d, b)
  {
    RoundBounds(a, b);
    RoundBounds(a + d, b);
    MulMonotone(RoundHalfEven(a + d, b), RoundHalfEven(a, b), b);
  }

  /** The arithmetic of `Near`, with the roundings p and q known only by their bounds. */
  lemma NearCore(a: int, d: int, b: nat, p: int, q: int, k: int, r: int)
    requires 2 * a - b <= 2 * (p * b) && 2 * (q * b) <= 2 * (a + d) + b
    requires d == k * b + r && r < b
    ensures q <= p + k + 1
  {
    assert (p + k + 2) * b == p * b + k * b + 2 * b;
    MulMonotone(p + k + 2, q, b);
  }

  /** Two roundings d = k * b + r apart differ by at most k + 1. */
  lemma Near(a: nat, d: nat, b: nat, k: nat, r: nat)
    requires r < b && d == k * b + r
    ensures RoundHalfEven(a + d, b) - RoundHalfEven(a, b) <= k + 1
  {
    RoundBounds(a, b);
    RoundBounds(a + d, b);
    hide RoundHalfEven;
    NearCore(a, d, b, RoundHalfEven(a, b), RoundHalfEven(a + d, b), k, r);
  }

  lemma Products(x: int, y: int, b: int)
    ensures x * (y * b) == (x * y) * b
    ensures x * (y * b) + y * b == (x * y + y) * b
  {
    assert x * (y * b) == (x * y) * b;
  }

  /** Multiples of the divisor are not rounded at all. */
  lemma ExactGap(index: nat, q: nat, b: nat)
    requires b > 0
    ensures RoundHalfEven(index * (q * b), b) == index * q
    ensures RoundHalfEven(index * (q * b) + q * b, b) == index * q + q
  {
    Products(index, q, b);
    RoundExact(index * q, b);
    RoundExact(index * q + q, b);
  }

  lemma CeilingOf(d: nat, b: nat)
    requires b > 0
    ensures (d + b - 1) / b == if d % b == 0 then d / b else d / b + 1
  {
    var q, r := d / b, d % b;
    assert d == q * b + r;
    if r == 0 {
      DivUnique(d + b - 1, q, b - 1, b);
    } else {
      assert (q + 1) * b == q * b + b;
      DivUnique(d + b - 1, q + 1, r - 1, b);
    }
  }

  /** Neighbouring spots are distinct and at most the spacing, rounded up, apart. */
  lemma SpotGap(n: nat, limit: nat, index: nat)
    requires 2 <= limit < n
    ensures Spot(n, limit, index) < Spot(n, limit, index + 1)
    ensures Spot(n, limit, index + 1) - Spot(n, limit, index) <= Spacing(n, limit)
  {
    hide RoundHalfEven;
    var b, d := limit - 1, n - 1;
    assert (index + 1) * d == index * d + d;
    Apart(index * d, d, b);
    CeilingOf(d, b);
    var k, r := d / b, d % b;
    assert d == k * b + r;
    if r == 0 {
      ExactGap(index, k, b);
    } else {
      Near(index * d, d, b, k, r);
    }
  }

  lemma {:induction false} SpotsAscend(n: nat, limit: nat, i: nat, j: nat)
    requires 2 <= limit < n && i < j
    ensures Spot(n, limit, i) < Spot(n, limit, j)
    decreases j
  {
    SpotGap(n, limit, j - 1);
    if i < j - 1 {
      SpotsAscend(n, limit, i, j - 1);
    }
  }

  /** The first spot is the first row and the last spot is the last row. */
  lemma SpotEnds(n: nat, limit: nat)
    requires 2 <= limit < n
    ensures Spot(n, limit, 0) == 0 && Spot(n, limit, limit - 1) == n - 1
  {
    RoundExact(0, limit - 1);
    assert (limit - 1) * (n - 1) == (n - 1) * (limit - 1);
    RoundExact(n - 1, limit - 1);
  }

  lemma SpotInRange(n: nat, limit: nat, i: nat)
    requires 2 <= limit < n && i < limit
    ensures Spot(n, limit, i) < n
  {
    SpotEnds(n, limit);
    if i < limit - 1 { SpotsAscend(n, limit, i, limit - 1); }
  }

  /******* The sample *******/

  /** `max(int(limit or 1), 1)` */
  function AtLeastOne(limit: int): (r: nat) {
    if limit < 1 then 1 else limit
  }

  function Indexes(n: nat, limit: nat): set<int>
    requires limit >= 2 && n >= 1
  {
    set index | 0 <= index < limit :: Spot(n, limit, index)
  }

  /** `[rows[index] for index in sorted(indexes)]`, scanning upwards from k. */
  function Pick(rows: seq<Log>, indexes: set<int>, k: nat): seq<Log>
    requires k <= |rows|
    decreases |rows| - k
  {
    if k == |rows| then []
    else (if k in indexes then [rows[k]] else []) + Pick(rows, indexes, k + 1)
  }

  /** `_even_sample` on a list already sorted and deduplicated. */
  function Spread(rows: seq<Log>, limit: nat): seq<Log>
    requires limit >= 1
  {
    if |rows| <= limit then rows
    else if limit == 1 then [rows[0]]
    else Pick(rows, Indexes(|rows|, limit), 0)
  }

  /** `_even_sample` */
  ghost function EvenSample(logs: seq<Log>, limit: int): seq<Log> {
    Spread(SortedUnique(logs), AtLeastOne(limit))
  }

  /** Picking by a set of positions is reading the rows at those positions in ascending order. */
  lemma {:induction false} PickReads(rows: seq<Log>, indexes: set<int>, k: nat, spots: seq<int>)
    requires k <= |rows|
    requires forall i :: 0 <= i < |spots| ==> k <= spots[i] < |rows|
    requires forall i, j :: 0 <= i < j < |spots| ==> spots[i] < spots[j]
    requires forall x :: k <= x < |rows| ==> (x in indexes <==> x in spots)
    ensures |Pick(rows, indexes, k)| == |spots|
    ensures forall i :: 0 <= i < |spots| ==> Pick(rows, indexes, k)[i] == rows[spots[i]]
    decreases |rows| - k
  {
    if k == |rows| {
    } else if k in indexes {
      assert spots[0] == k;
      PickReads(rows, indexes, k + 1, spots[1..]);
    } else {
      PickReads(rows, indexes, k + 1, spots);
    }
  }

  /** The sample of a long list: exactly `limit` rows, the index-th at its spot. */
  lemma SpreadReads(rows: seq<Log>, limit: nat)
    requires 2 <= limit < |rows|
    ensures |Spread(rows, limit)| == limit
    ensures forall i :: 0 <= i < limit ==> Spot(|rows|, limit, i) < |rows| && Spread(rows, limit)[i] == rows[Spot(|rows|, limit, i)]
  {
    hide Spot;
    var n := |rows|;
    var spots := seq(limit, i requires 0 <= i < limit => Spot(n, limit, i));
    forall i | 0 <= i < limit ensures 0 <= spots[i] < n { SpotInRange(n, limit, i); }
    forall i, j | 0 <= i < j < limit ensures spots[i] < spots[j] { SpotsAscend(n, limit, i, j); }
    forall x | 0 <= x < n ensures x in Indexes(n, limit) <==> x in spots {
      if x in Indexes(n, limit) {
        var i :| 0 <= i < limit && x == Spot(n, limit, i);
        assert spots[i] == x;
      }
    }
    PickReads(rows, Indexes(n, limit), 0, spots);
    forall i | 0 <= i < limit
      ensures Spot(n, limit, i) < n && Spread(rows, limit)[i] == rows[Spot(n, limit, i)]
    {
      assert spots[i] == Spot(n, limit, i);
    }
  }

  /**
   Exactly min(limit, n) rows, in list order, first and last row included (the first alone when only
   one may be kept), and between neighbours at most the spacing, rounded up.
  */
  lemma SpreadShape(rows: seq<Log>, limit: nat) returns (spots: seq<nat>)
    requires limit >= 1
    ensures |spots| == |Spread(rows, limit)| == (if |rows| <= limit then |rows| else limit)
    ensures forall i :: 0 <= i < |spots| ==> spots[i] < |rows| && Spread(rows, limit)[i] == rows[spots[i]]
    ensures forall i, j :: 0 <= i < j < |spots| ==> spots[i] < spots[j]
    ensures rows != [] ==> spots[0] == 0
    ensures rows != [] && limit >= 2 ==> spots[|spots| - 1] == |rows| - 1
    ensures 2 <= limit < |rows| ==> forall i :: 0 <= i < |spots| - 1 ==> spots[i + 1] - spots[i] <= Spacing(|rows|, limit)
  {
    var n := |rows|;
    if n <= limit {
      spots := seq(n, i => i);
    } else if limit == 1 {
      spots := [0];
    } else {
      hide *;
      spots := LongShape(rows, limit);
    }
  }

  /** The shape of the sample of a list longer than the limit. */
  lemma LongShape(rows: seq<Log>, limit: nat) returns (spots: seq<nat>)
    requires 2 <= limit < |rows|
    ensures |spots| == |Spread(rows, limit)| == limit
    ensures forall i :: 0 <= i < limit ==> spots[i] < |rows| && Spread(rows, limit)[i] == rows[spots[i]]
    ensures forall i, j :: 0 <= i < j < limit ==> spots[i] < spots[j]
    ensures spots[0] == 0 && spots[limit - 1] == |rows| - 1
    ensures forall i :: 0 <= i < limit - 1 ==> spots[i + 1] - spots[i] <= Spacing(|rows|, limit)
  {
    hide Spot, Spread, Spacing;
    var n := |rows|;
    SpreadReads(rows, limit);
    SpotEnds(n, limit);
    spots := seq(limit, i requires 0 <= i < limit => Spot(n, limit, i));
    forall i, j | 0 <= i < j < limit ensures spots[i] < spots[j] { SpotsAscend(n, limit, i, j); }
    forall i | 0 <= i < limit - 1 ensures spots[i + 1] - spots[i] <= Spacing(n, limit) { SpotGap(n, limit, i); }
  }

  /** What the phases of the sampler need of an even sample. */
  lemma EvenSampleFacts(logs: seq<Log>, limit: int)
    ensures |EvenSample(logs, limit)| ==
            (if |SortedUnique(logs)| <= AtLeastOne(limit) then |SortedUnique(logs)| else AtLeastOne(limit))
    ensures DistinctKeys(EvenSample(logs, limit))
    ensures forall x :: x in EvenSample(logs, limit) ==> x in logs
    ensures |SortedUnique(logs)| <= limit ==> EvenSample(logs, limit) == SortedUnique(logs)
  {
    var rows := SortedUnique(logs);
    SortedUniqueFacts(logs);
    var spots := SpreadShape(rows, AtLeastOne(limit));
    var sample := EvenSample(logs, limit);
    forall x | x in sample ensures x in logs {
      var i :| 0 <= i < |sample| && sample[i] == x;
      assert rows[spots[i]] in rows;
    }
  }

  /**
   `_even_sample`.  Its result reads the sorted, deduplicated rows at ascending spots, both ends
   included and neighbours no further apart than the rounded-up spacing.
  */
  method SampleEvenly(logs: seq<Log>, limit: int) returns (sample: seq<Log>)
    ensures sample == EvenSample(logs, limit)
    ensures |sample| == (if |KeySet(logs)| <= AtLeastOne(limit) then |KeySet(logs)| else AtLeastOne(limit))
    ensures DistinctKeys(sample) && forall x :: x in sample ==> x in logs
    ensures exists spots: seq<nat> :: ReadsAt(sample, SortedUnique(logs), spots, AtLeastOne(limit))
  {
    var rows := SortUnique(logs);
    sample := Spread(rows, AtLeastOne(limit));
    SortedUniqueFacts(logs);
    EvenSampleFacts(logs, limit);
    ghost var spots := SpreadShape(rows, AtLeastOne(limit));
    assert ReadsAt(sample, rows, spots, AtLeastOne(limit));
  }

  /** A sample at ascending spots of the rows, with the first row, the last when two fit, and bounded gaps. */
  ghost predicate ReadsAt(sample: seq<Log>, rows: seq<Log>, spots: seq<nat>, limit: nat)
    requires limit >= 1
  {
    && |sample| == |spots|
    && (forall i :: 0 <= i < |spots| ==> spots[i] < |rows| && sample[i] == rows[spots[i]])
    && (forall i, j :: 0 <= i < j < |spots| ==> spots[i] < spots[j])
    && (rows != [] ==> sample != [] && spots[0] == 0 && (limit >= 2 ==> spots[|spots| - 1] == |rows| - 1))
    && (2 <= limit < |rows| ==> forall i :: 0 <= i < |spots| - 1 ==> spots[i + 1] - spots[i] <= Spacing(|rows|, limit))
  }
}
