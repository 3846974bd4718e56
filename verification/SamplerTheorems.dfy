/**
 What `representative_sample` promises for every input: its exact size, the boundary rows, and which
 signals and shapes are certain to be represented.
*/
module SamplerTheorems {
  import opened Basics
  import opened Ordering
  import opened LogRows
  import opened EvenSpacing
  import opened LogSampler

  /** What every phase keeps of the selection. */
  ghost predicate Selection(selected: seq<Log>, rows: seq<Log>, cap: nat) {
    && DistinctKeys(selected)
    && |selected| <= cap
    && forall x :: x in selected ==> x in rows
  }

  lemma PhaseKeeps(selected: seq<Log>, values: seq<Log>, limit: int, rows: seq<Log>, cap: nat)
    requires Selection(selected, rows, cap)
    requires forall x :: x in values ==> x in rows
    ensures Selection(Add(selected, EvenSample(values, limit), cap), rows, cap)
    ensures selected <= Add(selected, EvenSample(values, limit), cap)
    ensures |Add(selected, EvenSample(values, limit), cap)| <= |selected| + AtLeastOne(limit)
  {
    EvenSampleFacts(values, limit);
    AddFacts(selected, EvenSample(values, limit), cap);
  }

  lemma EndsInRows(rows: seq<Log>, f: Tagger)
    ensures forall x :: x in Ends(rows, f, Ordered(rows, f)) ==> x in rows
  {
    EndsMembers(rows, f, Ordered(rows, f));
  }

  lemma HeadsInRows(rows: seq<Log>, f: Tagger)
    ensures forall x :: x in Heads(rows, f, Ordered(rows, f)) ==> x in rows
  {
    var tags := Ordered(rows, f);
    var heads := Heads(rows, f, tags);
    forall x | x in heads ensures x in rows {
      var i :| 0 <= i < |heads| && heads[i] == x;
      BucketMembers(rows, f, tags[i]);
      assert heads[i] in Bucket(rows, f, tags[i]);
    }
  }

  /** The boundary rows come first: both of them when two may be kept. */
  lemma BoundaryRows(rows: seq<Log>, cap: nat)
    requires DistinctKeys(rows) && 1 <= cap < |rows|
    ensures Boundaries(rows, cap) == if cap == 1 then [rows[0]] else [rows[0], rows[|rows| - 1]]
    ensures Selection(Boundaries(rows, cap), rows, cap)
  {
    var first, last := rows[0], rows[|rows| - 1];
    assert Key(first) != Key(last);
    assert [first, last][..1] == [first] && [first][..0] == [];
    assert KeySet([]) == {} && KeySet([first]) == {Key(first)};
    assert Add([], [first], cap) == [first];
  }

  ghost function AfterSemantic(p: Probes, rows: seq<Log>, cap: nat): seq<Log>
    requires rows != []
  {
    SemanticPhase(p, rows, Boundaries(rows, cap), cap)
  }

  ghost function AfterHighSignal(p: Probes, rows: seq<Log>, cap: nat): seq<Log>
    requires rows != []
  {
    HighSignalPhase(p, rows, AfterSemantic(p, rows, cap), cap)
  }

  ghost function AfterShape(p: Probes, rows: seq<Log>, cap: nat): seq<Log>
    requires rows != []
  {
    ShapePhase(p, rows, AfterHighSignal(p, rows, cap), cap)
  }

  lemma SemanticKeeps(p: Probes, rows: seq<Log>, selected: seq<Log>, cap: nat)
    requires Selection(selected, rows, cap)
    ensures Selection(SemanticPhase(p, rows, selected, cap), rows, cap)
    ensures selected <= SemanticPhase(p, rows, selected, cap)
    ensures |selected| <= 2 ==> |SemanticPhase(p, rows, selected, cap)| <= 2 + Max(cap / 4, 2)
  {
    EndsInRows(rows, p.signals);
    hide Selection, Add, EvenSample, Ends, Ordered;
    PhaseKeeps(selected, Ends(rows, p.signals, Ordered(rows, p.signals)), SemanticBudget(cap, |selected|), rows, cap);
  }

  lemma HighSignalKeeps(p: Probes, rows: seq<Log>, selected: seq<Log>, cap: nat)
    requires Selection(selected, rows, cap)
    ensures Selection(HighSignalPhase(p, rows, selected, cap), rows, cap)
    ensures selected <= HighSignalPhase(p, rows, selected, cap)
    ensures |HighSignalPhase(p, rows, selected, cap)| <= |selected| + Max(1, cap / 3)
  {
    EndsInRows(rows, HighSignalTags(p));
    hide Selection, Add, EvenSample, Ends, Ordered;
    var ends := Ends(rows, HighSignalTags(p), Ordered(rows, HighSignalTags(p)));
    PhaseKeeps(selected, ends, SignalBudget(|ends|, cap, |selected|), rows, cap);
  }

  lemma ShapeKeeps(p: Probes, rows: seq<Log>, selected: seq<Log>, cap: nat)
    requires Selection(selected, rows, cap)
    ensures Selection(ShapePhase(p, rows, selected, cap), rows, cap)
    ensures selected <= ShapePhase(p, rows, selected, cap)
  {
    HeadsInRows(rows, ShapeTags(p));
    hide Selection, Add, EvenSample, Heads, Ordered;
    var heads := Heads(rows, ShapeTags(p), Ordered(rows, ShapeTags(p)));
    PhaseKeeps(selected, heads, ShapeBudget(|heads|, cap, |selected|), rows, cap);
  }

  /** Each phase extends the one before it, within its own share of the limit. */
  lemma Phases(p: Probes, rows: seq<Log>, cap: nat)
    requires DistinctKeys(rows) && 1 <= cap < |rows|
    ensures Selection(AfterSemantic(p, rows, cap), rows, cap)
    ensures Selection(AfterHighSignal(p, rows, cap), rows, cap)
    ensures Selection(AfterShape(p, rows, cap), rows, cap)
    ensures Boundaries(rows, cap) <= AfterSemantic(p, rows, cap) <= AfterHighSignal(p, rows, cap) <= AfterShape(p, rows, cap)
    ensures |AfterSemantic(p, rows, cap)| <= 2 + Max(cap / 4, 2)
    ensures |AfterHighSignal(p, rows, cap)| <= 2 + Max(cap / 4, 2) + Max(1, cap / 3)
    ensures AfterShape(p, rows, cap) <= Select(p, rows, cap)
  {
    hide Selection, DistinctKeys, Boundaries, SemanticPhase, HighSignalPhase, ShapePhase, FillPhase, Max;
    BoundaryRows(rows, cap);
    SemanticKeeps(p, rows, Boundaries(rows, cap), cap);
    HighSignalKeeps(p, rows, AfterSemantic(p, rows, cap), cap);
    ShapeKeeps(p, rows, AfterHighSignal(p, rows, cap), cap);
    FillKeeps(rows, AfterShape(p, rows, cap), cap);
  }

  /******* The fill phase *******/

  lemma {:induction false} RemainingFacts(rows: seq<Log>, selected: seq<Log>)
    requires DistinctKeys(rows)
    ensures DistinctKeys(Remaining(rows, selected))
    ensures forall x :: x in Remaining(rows, selected) <==> x in rows && Key(x) !in KeySet(selected)
    ensures KeySet(Remaining(rows, selected)) == KeySet(rows) - KeySet(selected)
  {
    if rows != [] {
      var front, last := rows[..|rows| - 1], rows[|rows| - 1];
      RemainingFacts(front, selected);
      DistinctSnoc(front, last);
      DistinctSnoc(Remaining(front, selected), last);
      assert rows == front + [last];
      NewKey(front, last);
    }
  }

  lemma FillKeeps(rows: seq<Log>, selected: seq<Log>, cap: nat)
    requires DistinctKeys(rows) && Selection(selected, rows, cap)
    ensures selected <= FillPhase(rows, selected, cap)
    ensures Selection(FillPhase(rows, selected, cap), rows, cap)
  {
    if |selected| < cap {
      RemainingFacts(rows, selected);
      PhaseKeeps(selected, Remaining(rows, selected), cap - |selected|, rows, cap);
    }
  }

  lemma KeyCount(rows: seq<Log>, selected: seq<Log>)
    requires DistinctKeys(rows) && DistinctKeys(selected) && forall x :: x in selected ==> x in rows
    ensures |KeySet(rows) - KeySet(selected)| == |rows| - |selected|
  {
    DistinctCount(rows);
    DistinctCount(selected);
    assert KeySet(selected) <= KeySet(rows);
  }

  /** The fill uses every slot that is left: there are always enough unselected rows. */
  lemma FillIsExact(rows: seq<Log>, selected: seq<Log>, cap: nat)
    requires DistinctKeys(rows) && Selection(selected, rows, cap) && cap < |rows|
    ensures |FillPhase(rows, selected, cap)| == cap
  {
    if |selected| < cap {
      var remaining, slots := Remaining(rows, selected), cap - |selected|;
      RemainingFacts(rows, selected);
      KeyCount(rows, selected);
      SortedUniqueFacts(remaining);
      EvenSampleFacts(remaining, slots);
      var sample := EvenSample(remaining, slots);
      AddAppends(selected, sample, cap);
    }
  }

  /******* Size and boundaries *******/

  lemma SelectExact(p: Probes, rows: seq<Log>, cap: nat)
    requires DistinctKeys(rows) && 1 <= cap < |rows|
    ensures Selection(Select(p, rows, cap), rows, cap) && |Select(p, rows, cap)| == cap
    ensures AfterShape(p, rows, cap) <= Select(p, rows, cap)
  {
    Phases(p, rows, cap);
    var shaped := AfterShape(p, rows, cap);
    assert Select(p, rows, cap) == FillPhase(rows, shaped, cap);
    hide *;
    FillKeeps(rows, shaped, cap);
    FillIsExact(rows, shaped, cap);
  }

  lemma SampleOfLong(p: Probes, logs: seq<Log>, limit: int)
    requires |SortedUnique(logs)| > AtLeastOne(limit)
    ensures
      var rows, cap := SortedUnique(logs), AtLeastOne(limit);
      var selected := Select(p, rows, cap);
      && Selection(selected, rows, cap) && |selected| == cap
      && AfterShape(p, rows, cap) <= selected
      && RepresentativeSample(p, logs, limit) == SortedUnique(selected)
      && forall x :: x in selected <==> x in RepresentativeSample(p, logs, limit)
  {
    var rows, cap := SortedUnique(logs), AtLeastOne(limit);
    SortedUniqueFacts(logs);
    SelectExact(p, rows, cap);
    var selected := Select(p, rows, cap);
    SortedUniqueOfDistinct(selected);
    hide Select, AfterShape, SortedUnique, DistinctKeys, KeySet, Sorted;
    assert |SortedUnique(selected)| == cap;
  }

  lemma BoundariesSelected(p: Probes, rows: seq<Log>, cap: nat)
    requires DistinctKeys(rows) && 1 <= cap < |rows|
    ensures rows[0] in AfterShape(p, rows, cap)
    ensures cap >= 2 ==> rows[|rows| - 1] in AfterShape(p, rows, cap)
  {
    hide *;
    Phases(p, rows, cap);
    BoundaryRows(rows, cap);
    var first := Boundaries(rows, cap);
    assert first[0] in first && (cap >= 2 ==> first[1] in first);
    PrefixMember(first, AfterShape(p, rows, cap), first[0]);
    if cap >= 2 { PrefixMember(first, AfterShape(p, rows, cap), first[1]); }
  }

  lemma BoundariesSampled(p: Probes, logs: seq<Log>, limit: int)
    requires |SortedUnique(logs)| > AtLeastOne(limit)
    ensures SortedUnique(logs)[0] in RepresentativeSample(p, logs, limit)
    ensures AtLeastOne(limit) >= 2 ==> SortedUnique(logs)[|SortedUnique(logs)| - 1] in RepresentativeSample(p, logs, limit)
  {
    hide SortedUnique, RepresentativeSample, DistinctKeys, KeySet, Sorted, AfterShape;
    var rows, cap := SortedUnique(logs), AtLeastOne(limit);
    SortedUniqueFacts(logs);
    BoundariesSelected(p, rows, cap);
    SelectedIsSampled(p, logs, limit, rows[0]);
    if cap >= 2 { SelectedIsSampled(p, logs, limit, rows[|rows| - 1]); }
  }

  /**
   Exactly min(limit, number of distinct log keys) rows; all of them input rows with distinct keys,
   ordered by time; the earliest row always, and the latest whenever two rows may be kept.
  */
  lemma SampleExact(p: Probes, logs: seq<Log>, limit: int)
    ensures
      var rows, cap := SortedUnique(logs), AtLeastOne(limit);
      var sample := RepresentativeSample(p, logs, limit);
      && |sample| == (if |KeySet(logs)| <= cap then |KeySet(logs)| else cap)
      && DistinctKeys(sample) && Sorted(sample, Earlier)
      && (forall x :: x in sample ==> x in rows && x in logs)
      && (rows != [] ==> rows[0] in sample)
      && (rows != [] && cap >= 2 ==> rows[|rows| - 1] in sample)
  {
    var rows, cap := SortedUnique(logs), AtLeastOne(limit);
    SortedUniqueFacts(logs);
    if |rows| > cap {
      SampleOfLong(p, logs, limit);
      var selected := Select(p, rows, cap);
      SortedUniqueFacts(selected);
      DistinctCount(selected);
      BoundariesSampled(p, logs, limit);
      hide Select, SortedUnique, RepresentativeSample, KeySet, DistinctKeys, Sorted;
    }
  }

  /******* Coverage *******/

  /** A phase that has room for all its candidates represents every one of them. */
  lemma PhaseCovers(selected: seq<Log>, values: seq<Log>, budget: int, rows: seq<Log>, cap: nat, x: Log)
    requires DistinctKeys(rows) && Selection(selected, rows, cap)
    requires forall v :: v in values ==> v in rows
    requires |values| <= budget && |selected| + |values| <= cap
    requires x in values
    ensures x in Add(selected, EvenSample(values, budget), cap)
  {
    SortedUniqueFacts(values);
    DistinctCount(values);
    EvenSampleFacts(values, budget);
    var sample := EvenSample(values, budget);
    assert |sample| <= |values|;
    AddKeepsAll(selected, sample, cap);
    PhaseKeeps(selected, values, budget, rows, cap);
    assert Key(x) in KeySet(values) && KeySet(sample) == KeySet(values);
    var after := Add(selected, sample, cap);
    var y :| y in after && Key(y) == Key(x);
    SameKeySameRow(rows, x, y);
  }

  lemma ShortCovers(p: Probes, logs: seq<Log>, limit: int, x: Log)
    requires x in SortedUnique(logs) && |SortedUnique(logs)| <= AtLeastOne(limit)
    ensures x in RepresentativeSample(p, logs, limit)
  {
  }

  /** A row selected by the end of the shape phase is in the sample. */
  lemma SelectedIsSampled(p: Probes, logs: seq<Log>, limit: int, x: Log)
    requires |SortedUnique(logs)| > AtLeastOne(limit)
    requires x in AfterShape(p, SortedUnique(logs), AtLeastOne(limit))
    ensures x in RepresentativeSample(p, logs, limit)
  {
    SampleOfLong(p, logs, limit);
    var after := AfterShape(p, SortedUnique(logs), AtLeastOne(limit));
    var i :| 0 <= i < |after| && after[i] == x;
    assert Select(p, SortedUnique(logs), AtLeastOne(limit))[i] == x;
  }

  lemma PrefixMember(a: seq<Log>, b: seq<Log>, x: Log)
    requires a <= b && x in a
    ensures x in b
  {
    var i :| 0 <= i < |a| && a[i] == x;
    assert b[i] == x;
  }

  /** The shapes that occur among the rows. */
  ghost function Shapes(p: Probes, rows: seq<Log>): set<Tag> {
    set row | row in rows :: p.shape(row)
  }

  /** The first row of its shape. */
  ghost predicate FirstOfItsShape(p: Probes, rows: seq<Log>, i: nat)
    requires i < |rows|
  {
    forall k :: 0 <= k < i ==> p.shape(rows[k]) != p.shape(rows[i])
  }

  lemma ShapeCount(p: Probes, rows: seq<Log>)
    ensures |Ordered(rows, ShapeTags(p))| == |Shapes(p, rows)|
  {
    forall tag ensures tag in Shapes(p, rows) <==> exists row :: row in rows && tag in ShapeTags(p)(row) {
      if tag in Shapes(p, rows) {
        var row :| row in rows && p.shape(row) == tag;
        assert tag in ShapeTags(p)(row);
      }
    }
    TagsCount(rows, ShapeTags(p), Shapes(p, rows));
  }

  lemma HeadListed(p: Probes, rows: seq<Log>, i: nat)
    requires i < |rows| && FirstOfItsShape(p, rows, i)
    ensures rows[i] in Heads(rows, ShapeTags(p), Ordered(rows, ShapeTags(p)))
  {
    var f, tag := ShapeTags(p), p.shape(rows[i]);
    assert tag in f(rows[i]) && forall k :: 0 <= k < i ==> tag !in f(rows[k]);
    hide ShapeTags, Bucket, Tags;
    BucketEnds(rows, f, tag, i);
    TagsMembers(rows, f);
    assert rows[i] in rows;
    HeadsCover(rows, f, Ordered(rows, f), tag);
  }

  /** The first row of every shape is kept whenever the shapes fit in the room the first phases leave. */
  lemma ShapesFit(p: Probes, logs: seq<Log>, limit: int, i: nat)
    requires i < |SortedUnique(logs)| && FirstOfItsShape(p, SortedUnique(logs), i)
    requires
      var cap, count := AtLeastOne(limit), |Shapes(p, SortedUnique(logs))|;
      count <= Max(4, cap / 3) && 2 + Max(cap / 4, 2) + Max(1, cap / 3) + count <= cap
    ensures SortedUnique(logs)[i] in RepresentativeSample(p, logs, limit)
  {
    var rows := SortedUnique(logs);
    if |rows| <= AtLeastOne(limit) {
      ShortCovers(p, logs, limit, rows[i]);
    } else {
      SortedUniqueFacts(logs);
      HeadSelected(p, rows, AtLeastOne(limit), i);
      hide *;
      SelectedIsSampled(p, logs, limit, rows[i]);
    }
  }

  lemma HeadSelected(p: Probes, rows: seq<Log>, cap: nat, i: nat)
    requires DistinctKeys(rows) && 1 <= cap < |rows| && i < |rows| && FirstOfItsShape(p, rows, i)
    requires
      var count := |Shapes(p, rows)|;
      count <= Max(4, cap / 3) && 2 + Max(cap / 4, 2) + Max(1, cap / 3) + count <= cap
    ensures rows[i] in AfterShape(p, rows, cap)
  {
    hide Selection, DistinctKeys, FirstOfItsShape, Shapes, Filled, Ordered, Add, EvenSample;
    Phases(p, rows, cap);
    HeadListed(p, rows, i);
    ShapeCount(p, rows);
    var heads := Heads(rows, ShapeTags(p), Ordered(rows, ShapeTags(p)));
    var before := AfterHighSignal(p, rows, cap);
    HeadsInRows(rows, ShapeTags(p));
    var budget := ShapeBudget(|heads|, cap, |before|);
    assert |heads| <= budget && |before| + |heads| <= cap;
    assert AfterShape(p, rows, cap) == Add(before, EvenSample(heads, budget), cap);
    hide *;
    PhaseCovers(before, heads, budget, rows, cap, rows[i]);
  }

  /** From a limit of 24 up, a third of the limit is always room enough for the shapes: none is missing. */
  lemma ShapeCoverage(p: Probes, logs: seq<Log>, limit: int, row: Log)
    requires limit >= 24 && row in SortedUnique(logs)
    requires |Shapes(p, SortedUnique(logs))| <= limit / 3
    ensures exists kept :: kept in RepresentativeSample(p, logs, limit) && p.shape(kept) == p.shape(row)
  {
    assert 2 + limit / 4 + limit / 3 + limit / 3 <= limit;
    var i := FirstOfShape(p, SortedUnique(logs), row);
    hide SortedUnique, RepresentativeSample;
    ShapesFit(p, logs, limit, i);
  }

  lemma {:induction false} FirstOfShape(p: Probes, rows: seq<Log>, row: Log) returns (i: nat)
    requires row in rows
    ensures i < |rows| && FirstOfItsShape(p, rows, i) && p.shape(rows[i]) == p.shape(row)
  {
    if exists x :: x in rows[..|rows| - 1] && p.shape(x) == p.shape(row) {
      var x :| x in rows[..|rows| - 1] && p.shape(x) == p.shape(row);
      i := FirstOfShape(p, rows[..|rows| - 1], x);
    } else {
      i := |rows| - 1;
      forall k | 0 <= k < i ensures p.shape(rows[k]) != p.shape(row) { assert rows[..i][k] in rows[..i]; }
    }
  }

  /** No earlier row, or no later one, carries the tag. */
  ghost predicate IsEnd(rows: seq<Log>, carries: Log -> bool, i: nat)
    requires i < |rows|
  {
    carries(rows[i]) && ((forall k :: 0 <= k < i ==> !carries(rows[k])) || (forall k :: i < k < |rows| ==> !carries(rows[k])))
  }

  lemma EndListed(rows: seq<Log>, f: Tagger, tag: Tag, i: nat)
    requires i < |rows| && IsEnd(rows, row => tag in f(row), i)
    ensures rows[i] in Ends(rows, f, Ordered(rows, f))
  {
    BucketEnds(rows, f, tag, i);
    TagsMembers(rows, f);
    assert rows[i] in rows && tag in f(rows[i]);
    EndsCover(rows, f, Ordered(rows, f), tag);
  }

  /** The signals that occur among the rows. */
  ghost function Signals(p: Probes, rows: seq<Log>): set<Tag> {
    set row, tag | row in rows && tag in p.signals(row) :: tag
  }

  /** The first and the last row of every signal are kept when all of them fit in the signal quarter. */
  lemma SignalCoverage(p: Probes, logs: seq<Log>, limit: int, tag: Tag, i: nat)
    requires i < |SortedUnique(logs)| && IsEnd(SortedUnique(logs), row => tag in p.signals(row), i)
    requires
      var cap, count := AtLeastOne(limit), |Signals(p, SortedUnique(logs))|;
      2 * count <= Max(cap / 4, 2) && 2 + 2 * count <= cap
    ensures SortedUnique(logs)[i] in RepresentativeSample(p, logs, limit)
  {
    var rows, cap := SortedUnique(logs), AtLeastOne(limit);
    if |rows| <= cap {
      ShortCovers(p, logs, limit, rows[i]);
    } else {
      SortedUniqueFacts(logs);
      SignalEndKept(p, rows, cap, tag, i);
      hide *;
      SelectedIsSampled(p, logs, limit, rows[i]);
    }
  }

  lemma SignalEndKept(p: Probes, rows: seq<Log>, cap: nat, tag: Tag, i: nat)
    requires DistinctKeys(rows) && 1 <= cap < |rows| && i < |rows| && IsEnd(rows, row => tag in p.signals(row), i)
    requires 2 * |Signals(p, rows)| <= Max(cap / 4, 2) && 2 + 2 * |Signals(p, rows)| <= cap
    ensures rows[i] in AfterShape(p, rows, cap)
  {
    EndListed(rows, p.signals, tag, i);
    EndsInRows(rows, p.signals);
    TagsCount(rows, p.signals, Signals(p, rows));
    BoundaryRows(rows, cap);
    Phases(p, rows, cap);
    var ends := Ends(rows, p.signals, Ordered(rows, p.signals));
    var before := Boundaries(rows, cap);
    var budget := SemanticBudget(cap, |before|);
    assert |ends| <= budget && |before| + |ends| <= cap;
    assert AfterSemantic(p, rows, cap) == Add(before, EvenSample(ends, budget), cap);
    hide *;
    PhaseCovers(before, ends, budget, rows, cap, rows[i]);
    PrefixMember(AfterSemantic(p, rows, cap), AfterShape(p, rows, cap), rows[i]);
  }

  /** The shapes that occur among the high-signal rows. */
  ghost function HighSignalShapes(p: Probes, rows: seq<Log>): set<Tag> {
    set row | row in rows && p.highSignal(row) :: p.shape(row)
  }

  /** The same for the high-signal rows of every shape and the third of the limit set aside for them. */
  lemma HighSignalCoverage(p: Probes, logs: seq<Log>, limit: int, shape: Tag, i: nat)
    requires i < |SortedUnique(logs)|
    requires IsEnd(SortedUnique(logs), row => p.highSignal(row) && p.shape(row) == shape, i)
    requires
      var cap, count := AtLeastOne(limit), |HighSignalShapes(p, SortedUnique(logs))|;
      2 * count <= Max(1, cap / 3) && 2 + Max(cap / 4, 2) + 2 * count <= cap
    ensures SortedUnique(logs)[i] in RepresentativeSample(p, logs, limit)
  {
    var rows, cap := SortedUnique(logs), AtLeastOne(limit);
    if |rows| <= cap {
      ShortCovers(p, logs, limit, rows[i]);
    } else {
      SortedUniqueFacts(logs);
      HighSignalEndKept(p, rows, cap, shape, i);
      hide *;
      SelectedIsSampled(p, logs, limit, rows[i]);
    }
  }

  lemma HighSignalEndKept(p: Probes, rows: seq<Log>, cap: nat, shape: Tag, i: nat)
    requires DistinctKeys(rows) && 1 <= cap < |rows| && i < |rows|
    requires IsEnd(rows, row => p.highSignal(row) && p.shape(row) == shape, i)
    requires 2 * |HighSignalShapes(p, rows)| <= Max(1, cap / 3) && 2 + Max(cap / 4, 2) + 2 * |HighSignalShapes(p, rows)| <= cap
    ensures rows[i] in AfterShape(p, rows, cap)
  {
    var f := HighSignalTags(p);
    HighSignalListed(p, rows, shape, i);
    EndsInRows(rows, f);
    HighSignalCount(p, rows);
    Phases(p, rows, cap);
    var ends := Ends(rows, f, Ordered(rows, f));
    var before := AfterSemantic(p, rows, cap);
    var budget := SignalBudget(|ends|, cap, |before|);
    assert |ends| <= budget && |before| + |ends| <= cap;
    assert AfterHighSignal(p, rows, cap) == Add(before, EvenSample(ends, budget), cap);
    hide *;
    PhaseCovers(before, ends, budget, rows, cap, rows[i]);
    PrefixMember(AfterHighSignal(p, rows, cap), AfterShape(p, rows, cap), rows[i]);
  }

  lemma HighSignalListed(p: Probes, rows: seq<Log>, shape: Tag, i: nat)
    requires i < |rows| && IsEnd(rows, row => p.highSignal(row) && p.shape(row) == shape, i)
    ensures rows[i] in Ends(rows, HighSignalTags(p), Ordered(rows, HighSignalTags(p)))
  {
    var f := HighSignalTags(p);
    assert forall row :: shape in f(row) <==> p.highSignal(row) && p.shape(row) == shape;
    EndListed(rows, f, shape, i);
  }

  lemma HighSignalCount(p: Probes, rows: seq<Log>)
    ensures |Ordered(rows, HighSignalTags(p))| == |HighSignalShapes(p, rows)|
  {
    var f := HighSignalTags(p);
    forall tag ensures tag in HighSignalShapes(p, rows) <==> exists row :: row in rows && tag in f(row) {
      if tag in HighSignalShapes(p, rows) {
        var row :| row in rows && p.highSignal(row) && p.shape(row) == tag;
        assert tag in f(row);
      }
    }
    TagsCount(rows, f, HighSignalShapes(p, rows));
  }
}
