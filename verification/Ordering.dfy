/**
 Orders and stable sorting, as Python's `sorted` and `list.sort` provide them.

 `StableSort` is the one sorting function of the project.  Its lemmas are the three facts that
 determine a stable sort: the result is ordered, it is a rearrangement of the input, and elements
 already in order, such as those that tie, keep their input order.
*/
module Ordering {

  /******* Text *******/

  /** Code-point lexicographic order, Python's `<=` on `str`. */
  predicate TextLe(a: string, b: string) {
    a == [] || (b != [] && (a[0] < b[0] || (a[0] == b[0] && TextLe(a[1..], b[1..]))))
  }

  /** At the first place where the texts differ, the lower character decides; a prefix comes first. */
  lemma {:induction false} TextLeMeans(a: string, b: string)
    ensures TextLe(a, b) <==> a <= b || exists i :: FirstLower(a, b, i)
  {
    if a != [] && b != [] {
      TextLeMeans(a[1..], b[1..]);
      if a[0] == b[0] {
        if i :| FirstLower(a[1..], b[1..], i) { assert a[..i + 1] == [a[0]] + a[1..][..i] && FirstLower(a, b, i + 1); }
        if i :| FirstLower(a, b, i) {
          assert a[1..][..i - 1] == a[..i][1..] && b[1..][..i - 1] == b[..i][1..];
          assert FirstLower(a[1..], b[1..], i - 1);
        }
        assert a <= b <==> a[1..] <= b[1..] by { assert a == [a[0]] + a[1..] && b == [b[0]] + b[1..]; }
      } else {
        assert a[0] < b[0] <==> FirstLower(a, b, 0);
        if i :| FirstLower(a, b, i) { assert i > 0 ==> a[..i][0] == b[..i][0]; }
      }
    }
  }

  ghost predicate FirstLower(a: string, b: string, i: int) {
    0 <= i < |a| && i < |b| && a[..i] == b[..i] && a[i] < b[i]
  }

  lemma {:induction false} TextTotal(a: string, b: string)
    ensures TextLe(a, b) || TextLe(b, a)
  {
    if a != [] && b != [] && a[0] == b[0] {
      TextTotal(a[1..], b[1..]);
    }
  }

  lemma {:induction false} TextTransitive(a: string, b: string, c: string)
    requires TextLe(a, b) && TextLe(b, c)
    ensures TextLe(a, c)
  {
    if a != [] && a[0] == b[0] && b[0] == c[0] {
      TextTransitive(a[1..], b[1..], c[1..]);
    }
  }

  lemma {:induction false} TextAntisymmetric(a: string, b: string)
    requires TextLe(a, b) && TextLe(b, a)
    ensures a == b
  {
    if a != [] {
      TextAntisymmetric(a[1..], b[1..]);
      assert a == [a[0]] + a[1..] && b == [b[0]] + b[1..];
    }
  }

  /******* Relations *******/

  ghost predicate TotalPreorder<T(!new)>(le: (T, T) -> bool) {
    && (forall a, b :: le(a, b) || le(b, a))
    && (forall a, b, c :: le(a, b) && le(b, c) ==> le(a, c))
  }

  ghost predicate TotalOrder<T(!new)>(le: (T, T) -> bool) {
    && TotalPreorder(le)
    && (forall a, b :: le(a, b) && le(b, a) ==> a == b)
  }

  lemma TextOrder()
    ensures TotalOrder(TextLe)
  {
    forall a, b ensures TextLe(a, b) || TextLe(b, a) { TextTotal(a, b); }
    forall a, b, c | TextLe(a, b) && TextLe(b, c) ensures TextLe(a, c) { TextTransitive(a, b, c); }
    forall a, b | TextLe(a, b) && TextLe(b, a) ensures a == b { TextAntisymmetric(a, b); }
  }

  ghost predicate Sorted<T>(s: seq<T>, le: (T, T) -> bool) {
    forall i, j :: 0 <= i < j < |s| ==> le(s[i], s[j])
  }

  ghost predicate Distinct<T>(s: seq<T>) {
    forall i, j :: 0 <= i < j < |s| ==> s[i] != s[j]
  }

  lemma {:induction false} DistinctSize<T>(s: seq<T>)
    requires Distinct(s)
    ensures |set x | x in s| == |s|
  {
    if s != [] {
      var front, last := s[..|s| - 1], s[|s| - 1];
      DistinctSize(front);
      assert last !in front;
      assert (set x | x in s) == (set x | x in front) + {last};
    }
  }

  /******* Stable sorting *******/

  /** Places x after every element that is not above it. */
  function Insert<T>(s: seq<T>, x: T, le: (T, T) -> bool): seq<T> {
    if s == [] || le(s[|s| - 1], x) then s + [x]
    else Insert(s[..|s| - 1], x, le) + [s[|s| - 1]]
  }

  function StableSort<T>(s: seq<T>, le: (T, T) -> bool): seq<T> {
    if s == [] then [] else Insert(StableSort(s[..|s| - 1], le), s[|s| - 1], le)
  }

  lemma {:induction false} InsertMultiset<T>(s: seq<T>, x: T, le: (T, T) -> bool)
    ensures multiset(Insert(s, x, le)) == multiset(s) + multiset{x}
    ensures |Insert(s, x, le)| == |s| + 1
  {
    if s == [] || le(s[|s| - 1], x) {
    } else {
      InsertMultiset(s[..|s| - 1], x, le);
      assert s == s[..|s| - 1] + [s[|s| - 1]];
    }
  }

  lemma InsertMembers<T>(s: seq<T>, x: T, le: (T, T) -> bool)
    ensures forall y :: y in Insert(s, x, le) <==> y in s || y == x
  {
    InsertMultiset(s, x, le);
    forall y ensures y in Insert(s, x, le) <==> y in s || y == x {
      assert y in Insert(s, x, le) <==> y in multiset(Insert(s, x, le));
    }
  }

  lemma {:induction false} InsertSorted<T(!new)>(s: seq<T>, x: T, le: (T, T) -> bool)
    requires TotalPreorder(le) && Sorted(s, le)
    ensures Sorted(Insert(s, x, le), le)
  {
    if s == [] {
    } else if le(s[|s| - 1], x) {
      forall i | 0 <= i < |s| ensures le(s[i], x) {
        assert i < |s| - 1 ==> le(s[i], s[|s| - 1]);
      }
    } else {
      var front, last := s[..|s| - 1], s[|s| - 1];
      InsertSorted(front, x, le);
      InsertMembers(front, x, le);
      var r := Insert(front, x, le);
      forall i | 0 <= i < |r| ensures le(r[i], last) {
        assert r[i] in r;
        if r[i] in front {
          var k :| 0 <= k < |front| && front[k] == r[i];
          assert le(s[k], s[|s| - 1]);
        }
      }
    }
  }

  lemma {:induction false} StableSortMultiset<T>(s: seq<T>, le: (T, T) -> bool)
    ensures multiset(StableSort(s, le)) == multiset(s)
    ensures |StableSort(s, le)| == |s|
  {
    if s == [] {
    } else {
      StableSortMultiset(s[..|s| - 1], le);
      InsertMultiset(StableSort(s[..|s| - 1], le), s[|s| - 1], le);
      assert s == s[..|s| - 1] + [s[|s| - 1]];
    }
  }

  lemma StableSortMembers<T>(s: seq<T>, le: (T, T) -> bool)
    ensures forall x :: x in StableSort(s, le) <==> x in s
  {
    StableSortMultiset(s, le);
    forall x ensures x in StableSort(s, le) <==> x in s {
      assert x in s <==> x in multiset(s);
      assert x in StableSort(s, le) <==> x in multiset(StableSort(s, le));
    }
  }

  lemma {:induction false} StableSortSorted<T(!new)>(s: seq<T>, le: (T, T) -> bool)
    requires TotalPreorder(le)
    ensures Sorted(StableSort(s, le), le)
  {
    if s == [] {
    } else {
      StableSortSorted(s[..|s| - 1], le);
      InsertSorted(StableSort(s[..|s| - 1], le), s[|s| - 1], le);
    }
  }

  /** Sorting what is already sorted changes nothing. */
  lemma {:induction false} StableSortOfSorted<T>(s: seq<T>, le: (T, T) -> bool)
    requires Sorted(s, le)
    ensures StableSort(s, le) == s
  {
    if s == [] {
    } else {
      StableSortOfSorted(s[..|s| - 1], le);
      assert s == s[..|s| - 1] + [s[|s| - 1]];
      assert |s| > 1 ==> le(s[|s| - 2], s[|s| - 1]);
    }
  }

  /** Somewhere in s, a comes before b. */
  ghost predicate Precedes<T>(s: seq<T>, a: T, b: T) {
    exists p, q :: 0 <= p < q < |s| && s[p] == a && s[q] == b
  }

  lemma PrecedesInLonger<T>(s: seq<T>, x: T, a: T, b: T)
    requires Precedes(s, a, b)
    ensures Precedes(s + [x], a, b)
  {
    var p, q :| 0 <= p < q < |s| && s[p] == a && s[q] == b;
    assert (s + [x])[p] == a && (s + [x])[q] == b;
  }

  lemma PrecedesLast<T>(s: seq<T>, a: T, x: T)
    requires a in s
    ensures Precedes(s + [x], a, x)
  {
    var p :| 0 <= p < |s| && s[p] == a;
    assert (s + [x])[p] == a && (s + [x])[|s|] == x;
  }

  /** Inserting reorders nothing. */
  lemma {:induction false} InsertKeepsOrder<T>(s: seq<T>, x: T, a: T, b: T, le: (T, T) -> bool)
    requires Precedes(s, a, b)
    ensures Precedes(Insert(s, x, le), a, b)
  {
    var front, last := s[..|s| - 1], s[|s| - 1];
    if le(last, x) {
      PrecedesInLonger(s, x, a, b);
    } else {
      var p, q :| 0 <= p < q < |s| && s[p] == a && s[q] == b;
      if q < |front| {
        assert front[p] == a && front[q] == b;
        InsertKeepsOrder(front, x, a, b, le);
        PrecedesInLonger(Insert(front, x, le), last, a, b);
      } else {
        assert front[p] == a;
        InsertMembers(front, x, le);
        PrecedesLast(Insert(front, x, le), a, last);
      }
    }
  }

  /** What is not above the new element stays before it. */
  lemma {:induction false} InsertFollows<T>(s: seq<T>, x: T, a: T, le: (T, T) -> bool)
    requires a in s && le(a, x)
    ensures Precedes(Insert(s, x, le), a, x)
  {
    var front, last := s[..|s| - 1], s[|s| - 1];
    if le(last, x) {
      PrecedesLast(s, a, x);
    } else {
      InsertFollows(front, x, a, le);
      PrecedesInLonger(Insert(front, x, le), last, a, x);
    }
  }

  /** Stability: of two elements in order, in particular of two that tie, the first stays first. */
  lemma {:induction false} StableSortKeepsOrder<T>(s: seq<T>, i: nat, j: nat, le: (T, T) -> bool)
    requires i < j < |s| && le(s[i], s[j])
    ensures Precedes(StableSort(s, le), s[i], s[j])
  {
    var front, last := s[..|s| - 1], s[|s| - 1];
    if j < |front| {
      StableSortKeepsOrder(front, i, j, le);
      InsertKeepsOrder(StableSort(front, le), last, s[i], s[j], le);
    } else {
      StableSortMembers(front, le);
      assert front[i] in front;
      InsertFollows(StableSort(front, le), last, s[i], le);
    }
  }

  /******* Enumerating a finite set in order *******/

  /** ks lists exactly the elements of s, in ascending order and without repetition. */
  ghost predicate Enumerates<T(!new)>(ks: seq<T>, s: set<T>, le: (T, T) -> bool) {
    && (forall k :: k in ks <==> k in s)
    && (forall i, j :: 0 <= i < j < |ks| ==> le(ks[i], ks[j]) && ks[i] != ks[j])
  }

  lemma {:induction false} EnumerationUnique<T(!new)>(a: seq<T>, b: seq<T>, s: set<T>, le: (T, T) -> bool)
    requires TotalOrder(le)
    requires Enumerates(a, s, le) && Enumerates(b, s, le)
    ensures a == b
    decreases |a|
  {
    assert b == [] || b[0] in s;
    if a == [] {
    } else {
      assert a[0] in s;
      assert b != [] by { assert a[0] in b; }
      assert b[0] in s;
      var i :| 0 <= i < |b| && b[i] == a[0];
      var j :| 0 <= j < |a| && a[j] == b[0];
      assert a[0] == b[0];
      TailEnumerates(a, s, le);
      TailEnumerates(b, s, le);
      EnumerationUnique(a[1..], b[1..], s - {a[0]}, le);
      assert a == [a[0]] + a[1..] && b == [b[0]] + b[1..];
    }
  }

  lemma TailEnumerates<T(!new)>(ks: seq<T>, s: set<T>, le: (T, T) -> bool)
    requires Enumerates(ks, s, le) && ks != []
    ensures Enumerates(ks[1..], s - {ks[0]}, le)
  {
    forall k ensures k in ks[1..] <==> k in s - {ks[0]} {
      if k in ks[1..] {
        var i :| 0 <= i < |ks[1..]| && ks[1..][i] == k;
        assert ks[i + 1] == k && ks[0] != ks[i + 1];
        assert k in ks;
      }
      if k in s - {ks[0]} {
        assert k in ks;
        var i :| 0 <= i < |ks| && ks[i] == k;
        assert ks[1..][i - 1] == k;
      }
    }
  }

  /** A nonempty finite set has a least element. */
  lemma {:induction false} LeastExists<T(!new)>(s: set<T>, le: (T, T) -> bool) returns (k: T)
    requires TotalPreorder(le) && s != {}
    ensures k in s && forall j :: j in s ==> le(k, j)
    decreases |s|
  {
    var x :| x in s;
    k := x;
    if s - {x} != {} {
      var y := LeastExists(s - {x}, le);
      if le(y, x) { k := y; }
    }
    forall j | j in s ensures le(k, j) {
      if j != x { assert j in s - {x}; }
      assert le(x, x) && (le(x, k) || le(k, x));
    }
  }

  lemma HasLeast<T(!new)>(s: set<T>, le: (T, T) -> bool)
    requires TotalPreorder(le) && s != {}
    ensures exists k :: k in s && forall j :: j in s ==> le(k, j)
  {
    var k := LeastExists(s, le);
  }

  lemma ConsEnumerates<T(!new)>(k: T, ks: seq<T>, s: set<T>, le: (T, T) -> bool)
    requires k in s && forall j :: j in s ==> le(k, j)
    requires Enumerates(ks, s - {k}, le)
    ensures Enumerates([k] + ks, s, le)
  {
    var all := [k] + ks;
    forall i, j | 0 <= i < j < |all| ensures le(all[i], all[j]) && all[i] != all[j] {
      assert all[j] == ks[j - 1];
      assert ks[j - 1] in ks;
      if i > 0 { assert all[i] == ks[i - 1]; }
    }
  }

  /** The elements of s in ascending order. */
  ghost function Enumerate<T(!new)>(s: set<T>, le: (T, T) -> bool): (ks: seq<T>)
    requires TotalPreorder(le)
    ensures Enumerates(ks, s, le)
    decreases |s|
  {
    if s == {} then []
    else
      HasLeast(s, le);
      var k :| k in s && forall j :: j in s ==> le(k, j);
      ConsEnumerates(k, Enumerate(s - {k}, le), s, le);
      [k] + Enumerate(s - {k}, le)
  }
}
