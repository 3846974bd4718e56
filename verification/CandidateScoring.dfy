/**
 `score_candidates`: candidates are built, merged by event, sorted, capped, ranked and judged.
*/
module CandidateScoring {
  import opened Basics
  import opened Options
  import opened Ordering
  import opened CandidateContract

  /******* Small list helpers *******/

  /** `list(dict.fromkeys(items))` */
  function Dedupe<T(==)>(items: seq<T>): seq<T> {
    if items == [] then []
    else
      var front := Dedupe(items[..|items| - 1]);
      if items[|items| - 1] in front then front else front + [items[|items| - 1]]
  }

  lemma {:induction false} DedupeFacts<T>(items: seq<T>)
    ensures forall x :: x in Dedupe(items) <==> x in items
    ensures Distinct(Dedupe(items))
    ensures |Dedupe(items)| <= |items|
  {
    if items != [] {
      DedupeFacts(items[..|items| - 1]);
      assert items == items[..|items| - 1] + [items[|items| - 1]];
    }
  }

  /** The listed values are the first occurrences among all, in order, and none before the last listed is skipped. */
  ghost predicate FirstOccurrences<T>(listed: seq<T>, all: seq<T>, at: seq<nat>) {
    && |listed| == |at|
    && (forall k :: 0 <= k < |at| ==> at[k] < |all| && listed[k] == all[at[k]] && all[at[k]] !in all[..at[k]])
    && (forall j, k :: 0 <= j < k < |at| ==> at[j] < at[k])
    && forall i :: 0 <= i < |all| && all[i] !in all[..i] ==> i in at || forall k :: 0 <= k < |at| ==> at[k] < i
  }

  /** Duplicates are dropped and everything else keeps its place. */
  lemma {:induction false} DedupeMeans<T>(items: seq<T>) returns (at: seq<nat>)
    ensures FirstOccurrences(Dedupe(items), items, at)
    ensures forall i :: 0 <= i < |items| && items[i] !in items[..i] ==> i in at
  {
    if items == [] {
      at := [];
    } else {
      var front, last := items[..|items| - 1], items[|items| - 1];
      var before := DedupeMeans(front);
      DedupeFacts(front);
      at := if last in front then before else before + [|front|];
      OneMoreOccurrence(Dedupe(front), front, last, before);
      hide Dedupe, FirstOccurrences;
      assert items == front + [last];
    }
  }

  lemma OneMoreOccurrence<T>(listed: seq<T>, front: seq<T>, last: T, at: seq<nat>)
    requires FirstOccurrences(listed, front, at) && forall i :: 0 <= i < |front| && front[i] !in front[..i] ==> i in at
    ensures
      var at' := if last in front then at else at + [|front|];
      && FirstOccurrences(if last in front then listed else listed + [last], front + [last], at')
      && forall i :: 0 <= i < |front| + 1 && (front + [last])[i] !in (front + [last])[..i] ==> i in at'
  {
    var all := front + [last];
    forall i | 0 <= i <= |front| ensures all[..i] == front[..i] {}
  }

  lemma {:induction false} DedupeAppend<T>(a: seq<T>, b: seq<T>)
    ensures Dedupe(Dedupe(a) + b) == Dedupe(a + b)
  {
    if b == [] {
      DedupeAgain(a);
      assert Dedupe(a) + b == Dedupe(a) && a + b == a;
    } else {
      var front, last := b[..|b| - 1], b[|b| - 1];
      DedupeAppend(a, front);
      assert Dedupe(a) + b == Dedupe(a) + front + [last] && a + b == a + front + [last];
      assert (Dedupe(a) + front + [last])[..|Dedupe(a) + front|] == Dedupe(a) + front;
      assert (a + front + [last])[..|a + front|] == a + front;
    }
  }

  lemma {:induction false} DedupeAgain<T>(items: seq<T>)
    ensures Dedupe(Dedupe(items)) == Dedupe(items)
  {
    if items != [] {
      var front, last := items[..|items| - 1], items[|items| - 1];
      DedupeAgain(front);
      if last !in Dedupe(front) {
        assert (Dedupe(front) + [last])[..|Dedupe(front)|] == Dedupe(front);
      }
    }
  }

  /******* Merging by event key *******/

  function TruthyItems(items: seq<Text>): seq<Text> {
    if items == [] then []
    else TruthyItems(items[..|items| - 1]) + (if Truthy(items[|items| - 1]) then [items[|items| - 1]] else [])
  }

  lemma {:induction false} TruthyItemsMean(items: seq<Text>)
    ensures forall x :: x in TruthyItems(items) <==> x in items && Truthy(x)
  {
    if items != [] {
      TruthyItemsMean(items[..|items| - 1]);
      assert items == items[..|items| - 1] + [items[|items| - 1]];
      hide Truthy;
    }
  }

  lemma {:induction false} TruthyInOrder(items: seq<Text>, i: nat, j: nat)
    requires i < j < |items| && Truthy(items[i]) && Truthy(items[j])
    ensures Precedes(TruthyItems(items), items[i], items[j])
  {
    var front, last := items[..|items| - 1], items[|items| - 1];
    var before := TruthyItems(front);
    assert TruthyItems(items) == before + if Truthy(last) then [last] else [];
    TruthyItemsMean(front);
    hide Truthy, Precedes, TruthyItems;
    if j < |front| {
      TruthyInOrder(front, i, j);
      PrecedesInLonger(before, last, items[i], items[j]);
      assert before + [] == before;
    } else {
      assert front[i] in front;
      PrecedesLast(before, items[i], last);
    }
  }

  /** The truthy event ids as a tuple, or `(category, id)` when there are none. */
  function EventKey(c: Candidate): seq<Text> {
    var ids := TruthyItems(c.eventIds);
    if ids != [] then ids else [Str(c.category), Str(c.id)]
  }

  /** The supporting categories, which start as the candidate's own. */
  function SupportOf(c: Candidate): seq<string> {
    if c.supporting.Some? then c.supporting.value else [c.category]
  }

  function AddCategory(existing: Candidate, category: string): seq<string> {
    if category in SupportOf(existing) then SupportOf(existing) else SupportOf(existing) + [category]
  }

  /** A later candidate on the same event strengthens the first one. */
  function Combine(existing: Candidate, c: Candidate): Candidate {
    existing.(
      score := Max(existing.score, c.score), confidence := Max(existing.score, c.score),
      reasons := Dedupe(existing.reasons + c.reasons), evidence := Dedupe(existing.evidence + c.evidence),
      weaknesses := Dedupe(existing.weaknesses + c.weaknesses),
      supporting := Some(AddCategory(existing, c.category)))
  }

  function Keys(cs: seq<Candidate>): (keys: seq<seq<Text>>)
    ensures |keys| == |cs|
  {
    seq(|cs|, i requires 0 <= i < |cs| => EventKey(cs[i]))
  }

  function IndexOf(keys: seq<seq<Text>>, key: seq<Text>): (i: nat)
    requires key in keys
    ensures i < |keys| && keys[i] == key
  {
    if keys[0] == key then 0 else 1 + IndexOf(keys[1..], key)
  }

  function MergeOne(merged: seq<Candidate>, c: Candidate): seq<Candidate> {
    if EventKey(c) in Keys(merged)
    then
      var i := IndexOf(Keys(merged), EventKey(c));
      merged[i := Combine(merged[i], c)]
    else merged + [c]
  }

  /** `_merge_same_event_candidates` */
  function Merge(cs: seq<Candidate>): seq<Candidate> {
    if cs == [] then [] else MergeOne(Merge(cs[..|cs| - 1]), cs[|cs| - 1])
  }

  lemma CombineKeepsKey(a: Candidate, c: Candidate)
    ensures EventKey(Combine(a, c)) == EventKey(a)
  {
  }

  lemma KeysOfMergeOne(merged: seq<Candidate>, c: Candidate)
    ensures Keys(MergeOne(merged, c)) == if EventKey(c) in Keys(merged) then Keys(merged) else Keys(merged) + [EventKey(c)]
  {
    if EventKey(c) in Keys(merged) {
      CombineKeepsKey(merged[IndexOf(Keys(merged), EventKey(c))], c);
    }
  }

  /** Distinct event keys, in order of first occurrence. */
  lemma {:induction false} MergedKeys(cs: seq<Candidate>)
    ensures Keys(Merge(cs)) == Dedupe(Keys(cs)) && Distinct(Keys(Merge(cs)))
  {
    DedupeFacts(Keys(cs));
    if cs != [] {
      MergedKeys(cs[..|cs| - 1]);
      KeysOfMergeOne(Merge(cs[..|cs| - 1]), cs[|cs| - 1]);
      assert Keys(cs)[..|cs| - 1] == Keys(cs[..|cs| - 1]);
    }
  }

  /** The candidates that share an event key. */
  function Class(cs: seq<Candidate>, key: seq<Text>): seq<Candidate> {
    if cs == [] then []
    else Class(cs[..|cs| - 1], key) + (if EventKey(cs[|cs| - 1]) == key then [cs[|cs| - 1]] else [])
  }

  /** A merged candidate against its class: identity of the first, best score, and every evidence string. */
  ghost predicate Represents(m: Candidate, class_: seq<Candidate>) {
    && class_ != []
    && m.id == class_[0].id && m.title == class_[0].title && m.category == class_[0].category && m.eventIds == class_[0].eventIds
    && (forall c :: c in class_ ==> c.score <= m.score) && (exists c :: c in class_ && c.score == m.score)
    && (forall e :: e in m.evidence <==> exists c :: c in class_ && e in c.evidence)
    && (forall e :: e in m.reasons <==> exists c :: c in class_ && e in c.reasons)
    && (forall e :: e in m.weaknesses <==> exists c :: c in class_ && e in c.weaknesses)
    && Supports(m, class_)
  }

  /** Supporting categories are listed once there is a second candidate, and are those of the whole class. */
  ghost predicate Supports(m: Candidate, class_: seq<Candidate>)
    requires class_ != []
  {
    && (m.supporting.None? <==> class_[0].supporting.None? && |class_| == 1)
    && forall category :: category in SupportOf(m) <==>
         category in SupportOf(class_[0]) || exists j :: 1 <= j < |class_| && class_[j].category == category
  }

  lemma CombineSupports(m: Candidate, class_: seq<Candidate>, c: Candidate)
    requires class_ != [] && Supports(m, class_)
    ensures Supports(Combine(m, c), class_ + [c])
  {
    var r, more := Combine(m, c), class_ + [c];
    assert SupportOf(r) == AddCategory(m, c.category);
    hide Combine;
    forall category
      ensures category in SupportOf(r) <==>
        category in SupportOf(more[0]) || exists j :: 1 <= j < |more| && more[j].category == category
    {
      if category == c.category { assert more[|class_|].category == category; }
      if j :| 1 <= j < |class_| && class_[j].category == category { assert more[j].category == category; }
    }
  }

  lemma CombineRepresents(m: Candidate, class_: seq<Candidate>, c: Candidate)
    requires Represents(m, class_)
    ensures Represents(Combine(m, c), class_ + [c])
  {
    DedupeFacts(m.reasons + c.reasons);
    DedupeFacts(m.evidence + c.evidence);
    DedupeFacts(m.weaknesses + c.weaknesses);
    CombineSupports(m, class_, c);
    hide Supports, AddCategory;
    var more, r := class_ + [c], Combine(m, c);
    assert c in more;
    forall x | x in class_ ensures x in more {}
    assert exists x :: x in more && x.score == r.score by {
      if r.score == c.score { assert c in more; } else { var x :| x in class_ && x.score == m.score; assert x in more; }
    }
    forall e ensures e in r.evidence <==> exists x :: x in more && e in x.evidence {
      if x :| x in class_ && e in x.evidence { assert x in more; }
    }
    forall e ensures e in r.reasons <==> exists x :: x in more && e in x.reasons {
      if x :| x in class_ && e in x.reasons { assert x in more; }
    }
    forall e ensures e in r.weaknesses <==> exists x :: x in more && e in x.weaknesses {
      if x :| x in class_ && e in x.weaknesses { assert x in more; }
    }
  }

  /** One more candidate touches only the entry with its key, or adds one. */
  lemma MergeOneAt(merged: seq<Candidate>, c: Candidate, i: nat)
    requires Distinct(Keys(merged)) && i < |MergeOne(merged, c)|
    ensures i < |merged| ==>
      MergeOne(merged, c)[i] == if EventKey(c) == EventKey(merged[i]) then Combine(merged[i], c) else merged[i]
    ensures i >= |merged| ==> i == |merged| && EventKey(c) !in Keys(merged) && MergeOne(merged, c)[i] == c
  {
    assert i < |merged| ==> Keys(merged)[i] == EventKey(merged[i]);
    if EventKey(c) in Keys(merged) {
      var j := IndexOf(Keys(merged), EventKey(c));
      assert i < |merged| && i != j ==> Keys(merged)[i] != Keys(merged)[j];
    }
  }

  lemma ClassStep(front: seq<Candidate>, c: Candidate, key: seq<Text>)
    ensures Class(front + [c], key) == Class(front, key) + if EventKey(c) == key then [c] else []
  {
    assert (front + [c])[..|front|] == front;
  }

  lemma MergeUnfolds(cs: seq<Candidate>)
    ensures if cs == [] then Merge(cs) == [] else Merge(cs) == MergeOne(Merge(cs[..|cs| - 1]), cs[|cs| - 1])
  {
  }

  lemma OldEntryRepresents(front: seq<Candidate>, c: Candidate, m: Candidate, after: Candidate)
    requires Represents(m, Class(front, EventKey(m)))
    requires after == if EventKey(c) == EventKey(m) then Combine(m, c) else m
    ensures Represents(after, Class(front + [c], EventKey(after)))
  {
    hide *;
    CombineKeepsKey(m, c);
    ClassStep(front, c, EventKey(m));
    CombineRepresents(m, Class(front, EventKey(m)), c);
    assert Class(front, EventKey(m)) + [] == Class(front, EventKey(m));
  }

  lemma NewEntryRepresents(front: seq<Candidate>, c: Candidate)
    requires EventKey(c) !in Keys(Merge(front))
    ensures Represents(c, Class(front + [c], EventKey(c)))
  {
    hide *;
    NoClass(front, EventKey(c));
    ClassStep(front, c, EventKey(c));
    OneRepresents(c);
  }

  lemma RepresentsStep(front: seq<Candidate>, c: Candidate, before: seq<Candidate>, i: nat)
    requires before == Merge(front) && i < |MergeOne(before, c)|
    requires i < |before| ==> Represents(before[i], Class(front, EventKey(before[i])))
    ensures Represents(MergeOne(before, c)[i], Class(front + [c], EventKey(MergeOne(before, c)[i])))
  {
    hide *;
    MergedKeys(front);
    MergeOneAt(before, c, i);
    if i < |before| {
      OldEntryRepresents(front, c, before[i], MergeOne(before, c)[i]);
    } else {
      NewEntryRepresents(front, c);
    }
  }

  /** Every merged candidate represents its whole class. */
  lemma {:induction false} MergeRepresents(cs: seq<Candidate>, i: nat)
    requires i < |Merge(cs)|
    ensures Represents(Merge(cs)[i], Class(cs, EventKey(Merge(cs)[i])))
  {
    hide *;
    MergeUnfolds(cs);
    var front, c := cs[..|cs| - 1], cs[|cs| - 1];
    if i < |Merge(front)| { MergeRepresents(front, i); }
    RepresentsStep(front, c, Merge(front), i);
    assert cs == front + [c];
  }

  lemma {:induction false} ClassMembers(cs: seq<Candidate>, key: seq<Text>)
    ensures forall c :: c in Class(cs, key) <==> c in cs && EventKey(c) == key
  {
    if cs != [] {
      ClassMembers(cs[..|cs| - 1], key);
      assert cs == cs[..|cs| - 1] + [cs[|cs| - 1]];
      hide EventKey;
    }
  }

  /** A merged candidate scores what some candidate of the input does. */
  lemma MergedScore(cs: seq<Candidate>, i: nat) returns (c: Candidate)
    requires i < |Merge(cs)|
    ensures c in cs && c.score == Merge(cs)[i].score && EventKey(c) == EventKey(Merge(cs)[i])
  {
    var m := Merge(cs)[i];
    MergeRepresents(cs, i);
    ClassMembers(cs, EventKey(m));
    hide Merge, Class, EventKey;
    c :| c in Class(cs, EventKey(m)) && c.score == m.score;
  }

  lemma OneRepresents(c: Candidate)
    ensures Represents(c, [] + [c])
  {
    assert [] + [c] == [c] && c in [c];
  }

  lemma {:induction false} NoClass(cs: seq<Candidate>, key: seq<Text>)
    requires key !in Keys(Merge(cs))
    ensures Class(cs, key) == []
  {
    MergedKeys(cs);
    DedupeFacts(Keys(cs));
    if cs != [] {
      assert Keys(cs)[|cs| - 1] == EventKey(cs[|cs| - 1]);
      MergedKeys(cs[..|cs| - 1]);
      KeysOfMergeOne(Merge(cs[..|cs| - 1]), cs[|cs| - 1]);
      NoClass(cs[..|cs| - 1], key);
    }
  }

  lemma FrontKeys(cs: seq<Candidate>)
    requires cs != [] && Distinct(Keys(cs))
    ensures Distinct(Keys(cs[..|cs| - 1])) && EventKey(cs[|cs| - 1]) !in Keys(cs[..|cs| - 1])
  {
    var front := cs[..|cs| - 1];
    assert Keys(cs)[..|cs| - 1] == Keys(front);
    assert forall i :: 0 <= i < |front| ==> Keys(cs)[i] != Keys(cs)[|cs| - 1];
  }

  /** Candidates with distinct keys are left alone. */
  lemma {:induction false} MergeOfDistinct(cs: seq<Candidate>)
    requires Distinct(Keys(cs))
    ensures Merge(cs) == cs
  {
    MergeUnfolds(cs);
    if cs != [] {
      FrontKeys(cs);
      MergeOfDistinct(cs[..|cs| - 1]);
      hide EventKey, Combine, Merge, Distinct;
      assert cs == cs[..|cs| - 1] + [cs[|cs| - 1]];
    }
  }

  /** Merging is idempotent. */
  lemma MergeIdempotent(cs: seq<Candidate>)
    ensures Merge(Merge(cs)) == Merge(cs)
  {
    MergedKeys(cs);
    MergeOfDistinct(Merge(cs));
  }

  /** The dictionary `merged` and the order its keys were inserted in. */
  ghost predicate Dictionary(order: seq<seq<Text>>, merged: map<seq<Text>, Candidate>, values: seq<Candidate>) {
    && order == Keys(values) && Distinct(order)
    && (forall key :: key in merged <==> key in order)
    && (forall j :: 0 <= j < |order| ==> merged[order[j]] == values[j])
  }

  lemma DictionaryAdds(order: seq<seq<Text>>, merged: map<seq<Text>, Candidate>, values: seq<Candidate>, c: Candidate)
    requires Dictionary(order, merged, values) && EventKey(c) !in merged
    ensures Dictionary(order + [EventKey(c)], merged[EventKey(c) := c], MergeOne(values, c))
  {
    assert EventKey(c) !in Keys(values);
    hide EventKey;
    assert Keys(values + [c]) == Keys(values) + [EventKey(c)];
  }

  lemma DictionaryMerges(order: seq<seq<Text>>, merged: map<seq<Text>, Candidate>, values: seq<Candidate>, c: Candidate)
    requires Dictionary(order, merged, values) && EventKey(c) in merged
    ensures Dictionary(order, merged[EventKey(c) := Combine(merged[EventKey(c)], c)], MergeOne(values, c))
  {
    hide MergeOne, Combine, EventKey;
    KeysOfMergeOne(values, c);
    var after, key := MergeOne(values, c), EventKey(c);
    assert |Keys(after)| == |after|;
    forall j | 0 <= j < |order| ensures after[j] == if key == order[j] then Combine(values[j], c) else values[j] {
      assert Keys(values)[j] == EventKey(values[j]);
      MergeOneAt(values, c, j);
    }
  }

  method MergeSameEvent(cs: seq<Candidate>) returns (result: seq<Candidate>)
    ensures result == Merge(cs)
  {
    var order: seq<seq<Text>> := [];
    var merged: map<seq<Text>, Candidate> := map[];
    assert Dictionary(order, merged, []);
    hide Dictionary, EventKey, Combine;
    for i := 0 to |cs|
      invariant Dictionary(order, merged, Merge(cs[..i]))
    {
      assert cs[..i + 1][..i] == cs[..i];
      var key := EventKey(cs[i]);
      if key !in merged {
        DictionaryAdds(order, merged, Merge(cs[..i]), cs[i]);
        order := order + [key];
        merged := merged[key := cs[i]];
      } else {
        DictionaryMerges(order, merged, Merge(cs[..i]), cs[i]);
        merged := merged[key := Combine(merged[key], cs[i])];
      }
    }
    assert cs[..|cs|] == cs;
    result := ListValues(order, merged, Merge(cs));
  }

  method ListValues(order: seq<seq<Text>>, merged: map<seq<Text>, Candidate>, ghost values: seq<Candidate>)
    returns (result: seq<Candidate>)
    requires Dictionary(order, merged, values)
    ensures result == values
  {
    result := seq(|order|, i requires 0 <= i < |order| && order[i] in merged => merged[order[i]]);
  }

  /******* Sorting, capping and ranking *******/

  predicate ScoreDescending(a: Candidate, b: Candidate) {
    b.score <= a.score
  }

  lemma ScoreOrder()
    ensures TotalPreorder(ScoreDescending)
  {
  }

  function Cap(sourceFailed: bool): int {
    if sourceFailed then 60 else 100
  }

  /** The capping loop's treatment of one candidate; `notes` are the weaknesses it appends. */
  function Capped(c: Candidate, sourceFailed: bool, notes: seq<Text>): Candidate {
    var score := Min(Min(c.score, Cap(sourceFailed)), 100);
    c.(score := score, confidence := score, weaknesses := c.weaknesses + notes)
  }

  function Rank(cs: seq<Candidate>, sourceFailed: bool, notes: seq<Text>): (ranked: seq<Candidate>)
  {
    var sorted := StableSort(Merge(cs), ScoreDescending);
    seq(|sorted|, i requires 0 <= i < |sorted| => Capped(sorted[i], sourceFailed, notes))
  }

  /** A candidate merged earlier is ranked above a later one that scored no better, even where the cap makes them tie. */
  lemma RankKeepsOrder(cs: seq<Candidate>, sourceFailed: bool, notes: seq<Text>, i: nat, j: nat)
    requires i < j < |Merge(cs)| && Merge(cs)[j].score <= Merge(cs)[i].score
    ensures Precedes(Rank(cs, sourceFailed, notes), Capped(Merge(cs)[i], sourceFailed, notes), Capped(Merge(cs)[j], sourceFailed, notes))
  {
    var merged := Merge(cs);
    var sorted := StableSort(merged, ScoreDescending);
    StableSortKeepsOrder(merged, i, j, ScoreDescending);
    hide Merge, StableSort, Capped;
    var p, q :| 0 <= p < q < |sorted| && sorted[p] == merged[i] && sorted[q] == merged[j];
    assert Rank(cs, sourceFailed, notes)[p] == Capped(sorted[p], sourceFailed, notes);
    assert Rank(cs, sourceFailed, notes)[q] == Capped(sorted[q], sourceFailed, notes);
  }

  lemma MergedInOrder(cs: seq<Candidate>)
    ensures Sorted(StableSort(Merge(cs), ScoreDescending), ScoreDescending)
    ensures |StableSort(Merge(cs), ScoreDescending)| == |Dedupe(Keys(cs))|
  {
    ScoreOrder();
    MergedKeys(cs);
    assert |Keys(Merge(cs))| == |Merge(cs)|;
    hide Merge, Keys, Dedupe, TotalPreorder;
    StableSortSorted(Merge(cs), ScoreDescending);
    StableSortMultiset(Merge(cs), ScoreDescending);
    hide *;
  }

  /** Scores never increase down the ranking, so the gap at the top is never negative. */
  lemma RankedDescend(cs: seq<Candidate>, sourceFailed: bool, notes: seq<Text>)
    ensures
      var ranked := Rank(cs, sourceFailed, notes);
      && |ranked| == |Dedupe(Keys(cs))|
      && forall i, j :: 0 <= i < j < |ranked| ==> ranked[j].score <= ranked[i].score
  {
    MergedInOrder(cs);
    hide Merge, StableSort, Keys, Dedupe;
  }

  /**
   Each ranked candidate is the merged one at its place in the sorted list, with the notes added to its
   weaknesses.  Its score stands, up to 100 points with all sources and 60 without, and is its confidence.
  */
  lemma RankMeans(cs: seq<Candidate>, sourceFailed: bool, notes: seq<Text>, i: nat)
    requires i < |Rank(cs, sourceFailed, notes)|
    ensures |Rank(cs, sourceFailed, notes)| == |StableSort(Merge(cs), ScoreDescending)|
    ensures
      var c, m := Rank(cs, sourceFailed, notes)[i], StableSort(Merge(cs), ScoreDescending)[i];
      && m in Merge(cs)
      && c.id == m.id && c.title == m.title && c.category == m.category && c.verification == m.verification
      && c.eventIds == m.eventIds && c.reasons == m.reasons && c.evidence == m.evidence
      && c.supporting == m.supporting && c.impact == m.impact && c.weaknesses == m.weaknesses + notes
      && c.confidence == c.score
      && (sourceFailed ==> c.score == if m.score <= 60 then m.score else 60)
      && (!sourceFailed ==> c.score == if m.score <= 100 then m.score else 100)
  {
    StableSortMembers(Merge(cs), ScoreDescending);
    assert StableSort(Merge(cs), ScoreDescending)[i] in StableSort(Merge(cs), ScoreDescending);
    hide Merge, StableSort;
  }

  /******* Soundness of what is built *******/

  /** Acceptable but for the confidence, which the capping loop sets. */
  predicate Sound(c: Candidate) {
    Acceptable(c.(confidence := 0))
  }

  lemma TextUnion(a: seq<Text>, b: seq<Text>)
    requires AllText(a) && AllText(b)
    ensures AllText(Dedupe(a + b))
  {
    DedupeFacts(a + b);
  }

  lemma CombineSound(a: Candidate, c: Candidate)
    requires Sound(a) && Sound(c)
    ensures Sound(Combine(a, c))
  {
    TextUnion(a.reasons, c.reasons);
    TextUnion(a.evidence, c.evidence);
    TextUnion(a.weaknesses, c.weaknesses);
  }

  lemma {:induction false} MergeSound(cs: seq<Candidate>)
    requires forall c :: c in cs ==> Sound(c)
    ensures forall c :: c in Merge(cs) ==> Sound(c)
  {
    if cs != [] {
      var front, c := cs[..|cs| - 1], cs[|cs| - 1];
      MergeSound(front);
      var merged := Merge(front);
      assert c in cs;
      if EventKey(c) in Keys(merged) {
        var i := IndexOf(Keys(merged), EventKey(c));
        assert merged[i] in merged;
        CombineSound(merged[i], c);
      }
    }
  }

  /** Ranking keeps candidates acceptable, so the contract accepts all of them. */
  lemma RankAcceptable(cs: seq<Candidate>, sourceFailed: bool, notes: seq<Text>)
    requires (forall c :: c in cs ==> Sound(c)) && AllText(notes)
    ensures forall c :: c in Rank(cs, sourceFailed, notes) ==> Acceptable(c)
  {
    MergeSound(cs);
    StableSortMembers(Merge(cs), ScoreDescending);
    var sorted := StableSort(Merge(cs), ScoreDescending);
    forall i | 0 <= i < |sorted| ensures Acceptable(Capped(sorted[i], sourceFailed, notes)) {
      assert sorted[i] in Merge(cs);
    }
  }
}
