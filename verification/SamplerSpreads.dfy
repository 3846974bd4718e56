/**
 Which rows each phase of `representative_sample` offers: an even spread of its candidates, said in
 terms of the rows themselves and of how much of the limit the phase may use.
*/
module SamplerSpreads {
  import opened Basics
  import opened Ordering
  import opened LogRows
  import opened EvenSpacing
  import opened LogSampler
  import opened SamplerTheorems

  /** The candidates in order of time, and the rows at evenly spread spots among them. */
  ghost predicate Spreads(cs: seq<Log>, candidates: set<Log>, offered: seq<Log>, spots: seq<nat>, most: nat)
    requires most >= 1
  {
    && (forall x :: x in cs <==> x in candidates) && DistinctKeys(cs) && Sorted(cs, Earlier)
    && |offered| == Min(most, |cs|) && ReadsAt(offered, cs, spots, most)
  }

  /** A phase adds an even spread of its candidates, as far as the limit and the keys already selected allow. */
  ghost predicate Offers(before: seq<Log>, after: seq<Log>, candidates: set<Log>, budget: int, cap: nat) {
    exists cs, offered, spots :: Spreads(cs, candidates, offered, spots, AtLeastOne(budget)) && Adds(before, after, offered, cap)
  }

  /** What is added is new, in the order offered, and leaves something out only when the limit is reached. */
  ghost predicate Adds(before: seq<Log>, after: seq<Log>, offered: seq<Log>, cap: nat) {
    && before <= after && |after| <= cap && DistinctKeys(after)
    && (forall i :: |before| <= i < |after| ==> after[i] in offered)
    && (forall i, j :: |before| <= i < j < |after| ==> Precedes(offered, after[i], after[j]))
    && (|after| < cap ==> KeySet(offered) <= KeySet(after))
  }

  lemma {:induction false} AddAdds(before: seq<Log>, offered: seq<Log>, cap: nat)
    requires DistinctKeys(before) && |before| <= cap
    ensures Adds(before, Add(before, offered, cap), offered, cap)
  {
    AddFacts(before, offered, cap);
    if offered != [] {
      var front, log := offered[..|offered| - 1], offered[|offered| - 1];
      assert offered == front + [log];
      AddAdds(before, front, cap);
      AddFacts(before, front, cap);
      DistinctSnoc(front, log);
      DistinctSnoc(Add(before, front, cap), log);
      AddsOneMore(before, Add(before, front, cap), Add(before, offered, cap), front, log, cap);
    }
  }

  lemma AddsOneMore(before: seq<Log>, kept: seq<Log>, after: seq<Log>, front: seq<Log>, log: Log, cap: nat)
    requires Adds(before, kept, front, cap)
    requires after == if |kept| >= cap || Key(log) in KeySet(kept) then kept else kept + [log]
    requires DistinctKeys(after)
    requires KeySet(front + [log]) == KeySet(front) + {Key(log)} && KeySet(kept + [log]) == KeySet(kept) + {Key(log)}
    ensures Adds(before, after, front + [log], cap)
  {
    hide KeySet, DistinctKeys;
    forall i | |before| <= i < |after| ensures after[i] in front + [log] {}
    forall i, j | |before| <= i < j < |after| ensures Precedes(front + [log], after[i], after[j]) {
      if j < |kept| {
        PrecedesInLonger(front, log, after[i], after[j]);
      } else {
        PrecedesLast(front, after[i], log);
      }
    }
  }

  lemma PhaseOffers(before: seq<Log>, values: seq<Log>, candidates: set<Log>, budget: int, rows: seq<Log>, cap: nat)
    requires DistinctKeys(rows) && Selection(before, rows, cap)
    requires forall x :: x in values ==> x in rows
    requires forall x :: x in values <==> x in candidates
    ensures Offers(before, Add(before, EvenSample(values, budget), cap), candidates, budget, cap)
  {
    var cs, offered := SortedUnique(values), EvenSample(values, budget);
    SortedUniqueFacts(values);
    var spots := SpreadShape(cs, AtLeastOne(budget));
    forall x | x in values ensures x in cs { KeptOf(values, rows, x); }
    AddAdds(before, offered, cap);
    assert ReadsAt(offered, cs, spots, AtLeastOne(budget));
    hide SortedUnique, EvenSample, Add, ReadsAt, DistinctKeys, Sorted, Adds;
    assert Spreads(cs, candidates, offered, spots, AtLeastOne(budget)) by {
      assert |offered| == Min(AtLeastOne(budget), |cs|);
    }
  }

  /** Among rows with distinct keys deduplication loses no row. */
  lemma KeptOf(values: seq<Log>, rows: seq<Log>, x: Log)
    requires DistinctKeys(rows) && x in values && forall v :: v in values ==> v in rows
    ensures x in SortedUnique(values)
  {
    SortedUniqueFacts(values);
    assert Key(x) in KeySet(SortedUnique(values));
    var y :| y in SortedUnique(values) && Key(y) == Key(x);
    SameKeySameRow(rows, x, y);
  }

  /******* The candidates of each phase *******/

  /** The first and the last row of every tag. */
  ghost function EndRows(rows: seq<Log>, f: Tagger): set<Log> {
    set i, tag | 0 <= i < |rows| && tag in f(rows[i]) && IsEnd(rows, row => tag in f(row), i) :: rows[i]
  }

  /** The first row of every shape. */
  ghost function FirstRows(p: Probes, rows: seq<Log>): set<Log> {
    set i | 0 <= i < |rows| && FirstOfItsShape(p, rows, i) :: rows[i]
  }

  lemma {:induction false} FirstCarrier(rows: seq<Log>, f: Tagger, tag: Tag) returns (i: nat, j: nat)
    requires exists row :: row in rows && tag in f(row)
    ensures i < |rows| && tag in f(rows[i]) && forall k :: 0 <= k < i ==> tag !in f(rows[k])
    ensures j < |rows| && tag in f(rows[j]) && forall k :: j < k < |rows| ==> tag !in f(rows[k])
  {
    var front, last := rows[..|rows| - 1], rows[|rows| - 1];
    assert forall k :: 0 <= k < |front| ==> front[k] in front;
    if exists row :: row in front && tag in f(row) {
      i, j := FirstCarrier(front, f, tag);
      if tag in f(last) { j := |front|; }
    } else {
      var row :| row in rows && tag in f(row);
      assert row == last by { assert rows == front + [last]; }
      i, j := |front|, |front|;
    }
  }

  lemma {:induction false} EndsAreEnds(rows: seq<Log>, f: Tagger, tags: seq<Tag>, x: Log)
    requires Filled(rows, f, tags) && x in Ends(rows, f, tags)
    ensures x in EndRows(rows, f)
  {
    var last := tags[|tags| - 1];
    if x in Ends(rows, f, tags[..|tags| - 1]) {
      EndsAreEnds(rows, f, tags[..|tags| - 1], x);
    } else {
      BucketFilled(rows, f, last);
      TagsMembers(rows, f);
      var i, j := FirstCarrier(rows, f, last);
      BucketEnds(rows, f, last, i);
      BucketEnds(rows, f, last, j);
      assert x == rows[i] || x == rows[j];
      assert IsEnd(rows, row => last in f(row), i) && IsEnd(rows, row => last in f(row), j);
    }
  }

  lemma EndsExactly(rows: seq<Log>, f: Tagger)
    ensures forall x :: x in Ends(rows, f, Ordered(rows, f)) <==> x in EndRows(rows, f)
  {
    forall x ensures x in Ends(rows, f, Ordered(rows, f)) <==> x in EndRows(rows, f) {
      if x in Ends(rows, f, Ordered(rows, f)) { EndsAreEnds(rows, f, Ordered(rows, f), x); }
      if x in EndRows(rows, f) {
        var i, tag :| 0 <= i < |rows| && tag in f(rows[i]) && IsEnd(rows, row => tag in f(row), i) && rows[i] == x;
        EndListed(rows, f, tag, i);
      }
    }
  }

  lemma HeadsExactly(p: Probes, rows: seq<Log>)
    ensures forall x :: x in Heads(rows, ShapeTags(p), Ordered(rows, ShapeTags(p))) <==> x in FirstRows(p, rows)
  {
    var f := ShapeTags(p);
    var tags := Ordered(rows, f);
    var heads := Heads(rows, f, tags);
    forall x ensures x in heads <==> x in FirstRows(p, rows) {
      if x in FirstRows(p, rows) {
        var i :| 0 <= i < |rows| && FirstOfItsShape(p, rows, i) && rows[i] == x;
        HeadListed(p, rows, i);
      }
      if x in heads {
        var k :| 0 <= k < |heads| && heads[k] == x;
        HeadIsFirst(p, rows, tags[k]);
      }
    }
  }

  lemma HeadIsFirst(p: Probes, rows: seq<Log>, tag: Tag)
    requires tag in Tags(rows, ShapeTags(p))
    ensures Bucket(rows, ShapeTags(p), tag) != [] && Bucket(rows, ShapeTags(p), tag)[0] in FirstRows(p, rows)
  {
    var f := ShapeTags(p);
    TagsMembers(rows, f);
    var i, _ := FirstCarrier(rows, f, tag);
    BucketEnds(rows, f, tag, i);
    assert FirstOfItsShape(p, rows, i) by {
      forall k | 0 <= k < i ensures p.shape(rows[k]) != p.shape(rows[i]) { assert tag !in f(rows[k]); }
    }
  }

  /** The first and the last high-signal row of every shape. */
  ghost function HighSignalEnds(p: Probes, rows: seq<Log>): set<Log> {
    set i | 0 <= i < |rows| && HighSignalEnd(p, rows, i) :: rows[i]
  }

  ghost predicate HighSignalEnd(p: Probes, rows: seq<Log>, i: nat)
    requires i < |rows|
  {
    IsEnd(rows, row => p.highSignal(row) && p.shape(row) == p.shape(rows[i]), i)
  }

  lemma HighSignalEndsExactly(p: Probes, rows: seq<Log>)
    ensures EndRows(rows, HighSignalTags(p)) == HighSignalEnds(p, rows)
  {
    var f := HighSignalTags(p);
    assert forall row, shape :: shape in f(row) <==> p.highSignal(row) && p.shape(row) == shape;
    hide HighSignalTags;
    forall x ensures x in EndRows(rows, f) <==> x in HighSignalEnds(p, rows) {
      if x in EndRows(rows, f) {
        var i, tag :| 0 <= i < |rows| && tag in f(rows[i]) && IsEnd(rows, row => tag in f(row), i) && rows[i] == x;
        assert HighSignalEnd(p, rows, i);
      }
      if x in HighSignalEnds(p, rows) {
        var i :| 0 <= i < |rows| && HighSignalEnd(p, rows, i) && rows[i] == x;
        var shape := p.shape(rows[i]);
        assert shape in f(rows[i]) && IsEnd(rows, row => shape in f(row), i);
      }
    }
  }

  /******* The phases *******/

  /** The most rows that fit in the room left, in what is available, and in a part of the limit or the phase's least share. */
  ghost predicate Share(budget: int, room: int, available: int, parts: nat, least: nat, cap: nat) {
    forall x: int :: x <= budget <==> x <= room && x <= available && (parts * x <= cap || x <= least)
  }

  /** First and last row of every signal, in a quarter of the limit or two rows. */
  ghost predicate SemanticStep(p: Probes, rows: seq<Log>, before: seq<Log>, after: seq<Log>, cap: nat) {
    exists budget ::
      Share(budget, cap - |before|, cap, 4, 2, cap) && Offers(before, after, EndRows(rows, p.signals), budget, cap)
  }

  lemma SemanticSteps(p: Probes, rows: seq<Log>, before: seq<Log>, cap: nat)
    requires DistinctKeys(rows) && Selection(before, rows, cap)
    ensures SemanticStep(p, rows, before, SemanticPhase(p, rows, before, cap), cap)
  {
    var budget := SemanticBudget(cap, |before|);
    EndsExactly(rows, p.signals);
    EndsInRows(rows, p.signals);
    assert Share(budget, cap - |before|, cap, 4, 2, cap);
    hide Ends, Ordered, EndRows, Offers, Selection, Share;
    PhaseOffers(before, Ends(rows, p.signals, Ordered(rows, p.signals)), EndRows(rows, p.signals), budget, rows, cap);
  }

  /** First and last high-signal row of every shape, in a third of the limit or one row. */
  ghost predicate HighSignalStep(p: Probes, rows: seq<Log>, before: seq<Log>, after: seq<Log>, cap: nat) {
    exists budget ::
      && Share(budget, cap - |before|, 2 * |HighSignalShapes(p, rows)|, 3, 1, cap)
      && Offers(before, after, HighSignalEnds(p, rows), budget, cap)
  }

  lemma HighSignalSteps(p: Probes, rows: seq<Log>, before: seq<Log>, cap: nat)
    requires DistinctKeys(rows) && Selection(before, rows, cap)
    ensures HighSignalStep(p, rows, before, HighSignalPhase(p, rows, before, cap), cap)
  {
    var f := HighSignalTags(p);
    EndsExactly(rows, f);
    EndsInRows(rows, f);
    HighSignalCount(p, rows);
    HighSignalEndsExactly(p, rows);
    var ends := Ends(rows, f, Ordered(rows, f));
    var budget := SignalBudget(|ends|, cap, |before|);
    assert Share(budget, cap - |before|, 2 * |HighSignalShapes(p, rows)|, 3, 1, cap);
    hide Ends, Ordered, Offers, Selection, HighSignalShapes, Share, EndRows, HighSignalEnds;
    PhaseOffers(before, ends, HighSignalEnds(p, rows), budget, rows, cap);
  }

  /** The first row of every shape, in a third of the limit or four rows. */
  ghost predicate ShapeStep(p: Probes, rows: seq<Log>, before: seq<Log>, after: seq<Log>, cap: nat) {
    exists budget ::
      && Share(budget, cap - |before|, |Shapes(p, rows)|, 3, 4, cap)
      && Offers(before, after, FirstRows(p, rows), budget, cap)
  }

  lemma ShapeSteps(p: Probes, rows: seq<Log>, before: seq<Log>, cap: nat)
    requires DistinctKeys(rows) && Selection(before, rows, cap)
    ensures ShapeStep(p, rows, before, ShapePhase(p, rows, before, cap), cap)
  {
    HeadsExactly(p, rows);
    HeadsInRows(rows, ShapeTags(p));
    ShapeCount(p, rows);
    var heads := Heads(rows, ShapeTags(p), Ordered(rows, ShapeTags(p)));
    var budget := ShapeBudget(|heads|, cap, |before|);
    assert Share(budget, cap - |before|, |Shapes(p, rows)|, 3, 4, cap);
    hide Heads, Ordered, FirstRows, Offers, Selection, Shapes, Share;
    PhaseOffers(before, heads, FirstRows(p, rows), budget, rows, cap);
  }

  /** All rows not selected yet, for exactly as many places as are left. */
  ghost predicate FillStep(rows: seq<Log>, before: seq<Log>, after: seq<Log>, cap: nat) {
    && |after| == cap
    && if |before| < cap then Offers(before, after, (set x | x in rows && Key(x) !in KeySet(before)), cap - |before|, cap)
       else after == before
  }

  lemma FillSteps(rows: seq<Log>, before: seq<Log>, cap: nat)
    requires DistinctKeys(rows) && Selection(before, rows, cap) && cap < |rows|
    ensures FillStep(rows, before, FillPhase(rows, before, cap), cap)
  {
    FillIsExact(rows, before, cap);
    if |before| < cap {
      RemainingFacts(rows, before);
      var rest := set x | x in rows && Key(x) !in KeySet(before);
      hide Offers, Remaining, KeySet;
      PhaseOffers(before, Remaining(rows, before), rest, cap - |before|, rows, cap);
    }
  }

  /******* The whole sample *******/

  /**
   Five steps, one after the other: the boundary rows, the ends of every signal, the high-signal ends of
   every shape, the first row of every shape, and the rest.  The sample holds exactly what they add.
  */
  lemma SampleBySteps(p: Probes, logs: seq<Log>, limit: int)
    returns (boundaries: seq<Log>, semantic: seq<Log>, highSignal: seq<Log>, shaped: seq<Log>, filled: seq<Log>)
    requires |SortedUnique(logs)| > AtLeastOne(limit)
    ensures
      var rows, cap := SortedUnique(logs), AtLeastOne(limit);
      && boundaries == (if cap == 1 then [rows[0]] else [rows[0], rows[|rows| - 1]])
      && SemanticStep(p, rows, boundaries, semantic, cap) && HighSignalStep(p, rows, semantic, highSignal, cap)
      && ShapeStep(p, rows, highSignal, shaped, cap) && FillStep(rows, shaped, filled, cap)
      && forall x :: x in RepresentativeSample(p, logs, limit) <==> x in filled
  {
    var rows, cap := SortedUnique(logs), AtLeastOne(limit);
    SortedUniqueFacts(logs);
    boundaries, semantic, highSignal, shaped, filled := StepsOf(p, rows, cap);
    hide *;
    SampleOfLong(p, logs, limit);
  }

  lemma StepsOf(p: Probes, rows: seq<Log>, cap: nat)
    returns (boundaries: seq<Log>, semantic: seq<Log>, highSignal: seq<Log>, shaped: seq<Log>, filled: seq<Log>)
    requires DistinctKeys(rows) && 1 <= cap < |rows|
    ensures boundaries == if cap == 1 then [rows[0]] else [rows[0], rows[|rows| - 1]]
    ensures SemanticStep(p, rows, boundaries, semantic, cap) && HighSignalStep(p, rows, semantic, highSignal, cap)
    ensures ShapeStep(p, rows, highSignal, shaped, cap) && FillStep(rows, shaped, filled, cap)
    ensures filled == Select(p, rows, cap)
  {
    hide SemanticStep, HighSignalStep, ShapeStep, FillStep, DistinctKeys, Selection;
    BoundaryRows(rows, cap);
    Phases(p, rows, cap);
    boundaries, semantic := Boundaries(rows, cap), AfterSemantic(p, rows, cap);
    highSignal, shaped := AfterHighSignal(p, rows, cap), AfterShape(p, rows, cap);
    filled := FillPhase(rows, shaped, cap);
    assert filled == Select(p, rows, cap);
    SemanticSteps(p, rows, boundaries, cap);
    HighSignalSteps(p, rows, semantic, cap);
    ShapeSteps(p, rows, highSignal, cap);
    FillSteps(rows, shaped, cap);
  }
}
