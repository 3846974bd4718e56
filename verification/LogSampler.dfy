/**
 `representative_sample`: five budgeted phases over the sorted, deduplicated rows.

 `detect_signals` with `signal_key`, the high-signal test and `_high_signal_shape` are arbitrary
 functions of a row.
*/
module LogSampler {
  import opened Basics
  import opened Ordering
  import opened LogRows
  import opened EvenSpacing

  /** A dictionary key; `text` is what `str` makes of it, and need not tell keys apart. */
  datatype Tag = Tag(id: int, text: string)

  predicate TagLe(a: Tag, b: Tag) {
    TextLe(a.text, b.text)
  }

  datatype Probes = Probes(signals: Log -> seq<Tag>, highSignal: Log -> bool, shape: Log -> Tag)

  /** Tags a phase files a row under. */
  type Tagger = Log -> seq<Tag>

  function HighSignalTags(p: Probes): Tagger {
    (row: Log) => if p.highSignal(row) then [p.shape(row)] else []
  }

  function ShapeTags(p: Probes): Tagger {
    (row: Log) => [p.shape(row)]
  }

  /******* Buckets *******/

  function AddTag(order: seq<Tag>, tag: Tag): seq<Tag> {
    if tag in order then order else order + [tag]
  }

  function AddTags(order: seq<Tag>, tags: seq<Tag>): seq<Tag> {
    if tags == [] then order else AddTag(AddTags(order, tags[..|tags| - 1]), tags[|tags| - 1])
  }

  /** The tags that occur, in first-occurrence order. */
  function Tags(rows: seq<Log>, f: Tagger): seq<Tag> {
    if rows == [] then [] else AddTags(Tags(rows[..|rows| - 1], f), f(rows[|rows| - 1]))
  }

  function Copies(row: Log, tags: seq<Tag>, tag: Tag): seq<Log> {
    if tags == [] then []
    else Copies(row, tags[..|tags| - 1], tag) + (if tags[|tags| - 1] == tag then [row] else [])
  }

  /** The rows filed under a tag, in list order. */
  function Bucket(rows: seq<Log>, f: Tagger, tag: Tag): seq<Log> {
    if rows == [] then [] else Bucket(rows[..|rows| - 1], f, tag) + Copies(rows[|rows| - 1], f(rows[|rows| - 1]), tag)
  }

  lemma {:induction false} AddTagsMembers(order: seq<Tag>, tags: seq<Tag>)
    ensures forall l :: l in AddTags(order, tags) <==> l in order || l in tags
  {
    if tags != [] {
      AddTagsMembers(order, tags[..|tags| - 1]);
      assert tags == tags[..|tags| - 1] + [tags[|tags| - 1]];
    }
  }

  lemma {:induction false} AddTagsDistinct(order: seq<Tag>, tags: seq<Tag>)
    requires Distinct(order)
    ensures Distinct(AddTags(order, tags))
  {
    if tags != [] {
      var front := AddTags(order, tags[..|tags| - 1]);
      AddTagsDistinct(order, tags[..|tags| - 1]);
      forall i | 0 <= i < |front| ensures front[i] in front {}
    }
  }

  lemma {:induction false} CopiesMembers(row: Log, tags: seq<Tag>, tag: Tag)
    ensures forall x :: x in Copies(row, tags, tag) ==> x == row
    ensures Copies(row, tags, tag) != [] <==> tag in tags
  {
    if tags != [] {
      CopiesMembers(row, tags[..|tags| - 1], tag);
      assert tags == tags[..|tags| - 1] + [tags[|tags| - 1]];
    }
  }

  lemma {:induction false} TagsMembers(rows: seq<Log>, f: Tagger)
    ensures forall tag :: tag in Tags(rows, f) <==> exists row :: row in rows && tag in f(row)
  {
    if rows != [] {
      var front, last := rows[..|rows| - 1], rows[|rows| - 1];
      TagsMembers(front, f);
      AddTagsMembers(Tags(front, f), f(last));
      assert rows == front + [last];
      forall tag ensures tag in Tags(rows, f) <==> exists row :: row in rows && tag in f(row) {
        if tag in f(last) { assert last in rows; }
        if row :| row in rows && tag in f(row) { assert row in front || row == last; }
      }
    }
  }

  lemma {:induction false} TagsDistinct(rows: seq<Log>, f: Tagger)
    ensures Distinct(Tags(rows, f))
  {
    if rows != [] {
      TagsDistinct(rows[..|rows| - 1], f);
      AddTagsDistinct(Tags(rows[..|rows| - 1], f), f(rows[|rows| - 1]));
    }
  }

  /** The tags are listed once each. */
  lemma TagsCount(rows: seq<Log>, f: Tagger, tags: set<Tag>)
    requires forall tag :: tag in tags <==> exists row :: row in rows && tag in f(row)
    ensures |Tags(rows, f)| == |tags|
  {
    TagsDistinct(rows, f);
    TagsMembers(rows, f);
    DistinctSize(Tags(rows, f));
    assert tags == set tag | tag in Tags(rows, f);
  }

  /** A bucket holds exactly the rows with its tag. */
  lemma {:induction false} BucketMembers(rows: seq<Log>, f: Tagger, tag: Tag)
    ensures forall x :: x in Bucket(rows, f, tag) <==> x in rows && tag in f(x)
  {
    if rows != [] {
      var front, last := rows[..|rows| - 1], rows[|rows| - 1];
      BucketMembers(front, f, tag);
      CopiesMembers(last, f(last), tag);
      assert rows == front + [last];
      var copies := Copies(last, f(last), tag);
      forall x ensures x in Bucket(rows, f, tag) <==> x in rows && tag in f(x) {
        if x == last && tag in f(x) { assert copies[0] in copies; }
      }
    }
  }

  lemma NoMembers(rows: seq<Log>)
    ensures (forall x :: x !in rows) ==> rows == []
  {
    if rows != [] { assert rows[0] in rows; }
  }

  /** The first row of a bucket is the first row with its tag, and the last its last. */
  lemma {:induction false} BucketEnds(rows: seq<Log>, f: Tagger, tag: Tag, i: nat)
    requires i < |rows| && tag in f(rows[i])
    ensures Bucket(rows, f, tag) != []
    ensures (forall k :: 0 <= k < i ==> tag !in f(rows[k])) ==> Bucket(rows, f, tag)[0] == rows[i]
    ensures (forall k :: i < k < |rows| ==> tag !in f(rows[k])) ==> Bucket(rows, f, tag)[|Bucket(rows, f, tag)| - 1] == rows[i]
  {
    var front, last := rows[..|rows| - 1], rows[|rows| - 1];
    var before, copies := Bucket(front, f, tag), Copies(last, f(last), tag);
    CopiesMembers(last, f(last), tag);
    AllOne(copies, last);
    BucketMembers(front, f, tag);
    NoMembers(before);
    NoMembers(copies);
    assert Bucket(rows, f, tag) == before + copies;
    assert rows == front + [last];
    hide Bucket, Copies;
    if i < |front| {
      BucketEnds(front, f, tag, i);
    } else if forall k :: 0 <= k < i ==> tag !in f(rows[k]) {
      assert forall x :: x in front ==> tag !in f(x);
    }
  }

  lemma AllOne(rows: seq<Log>, row: Log)
    requires forall x :: x in rows ==> x == row
    ensures forall j :: 0 <= j < |rows| ==> rows[j] == row
  {
    forall j | 0 <= j < |rows| ensures rows[j] == row { assert rows[j] in rows; }
  }

  /** The tags that occur are those whose bucket is not empty. */
  lemma BucketFilled(rows: seq<Log>, f: Tagger, tag: Tag)
    ensures Bucket(rows, f, tag) != [] <==> tag in Tags(rows, f)
  {
    BucketMembers(rows, f, tag);
    TagsMembers(rows, f);
    var values := Bucket(rows, f, tag);
    if values != [] {
      assert values[0] in values;
    }
    if tag in Tags(rows, f) {
      var row :| row in rows && tag in f(row);
      assert row in values;
    }
  }

  ghost predicate Filled(rows: seq<Log>, f: Tagger, tags: seq<Tag>) {
    forall l :: l in tags ==> Bucket(rows, f, l) != []
  }

  /** `[values[0], values[-1]]` for each tag in turn. */
  function Ends(rows: seq<Log>, f: Tagger, tags: seq<Tag>): (ends: seq<Log>)
    requires Filled(rows, f, tags)
    ensures |ends| == 2 * |tags|
  {
    if tags == [] then []
    else
      var last := tags[|tags| - 1];
      var values := Bucket(rows, f, last);
      Ends(rows, f, tags[..|tags| - 1]) + [values[0], values[|values| - 1]]
  }

  /** `values[0]` for each tag in turn. */
  function Heads(rows: seq<Log>, f: Tagger, tags: seq<Tag>): (heads: seq<Log>)
    requires Filled(rows, f, tags)
    ensures |heads| == |tags|
    ensures forall i :: 0 <= i < |tags| ==> heads[i] == Bucket(rows, f, tags[i])[0]
  {
    if tags == [] then []
    else Heads(rows, f, tags[..|tags| - 1]) + [Bucket(rows, f, tags[|tags| - 1])[0]]
  }

  /** `sorted(buckets, key=str)` */
  function Ordered(rows: seq<Log>, f: Tagger): (tags: seq<Tag>)
    ensures |tags| == |Tags(rows, f)|
    ensures forall l :: l in tags <==> l in Tags(rows, f)
    ensures Filled(rows, f, tags)
  {
    StableSortMultiset(Tags(rows, f), TagLe);
    StableSortMembers(Tags(rows, f), TagLe);
    FilledTags(rows, f, StableSort(Tags(rows, f), TagLe));
    StableSort(Tags(rows, f), TagLe)
  }

  /** Tags come in the order of their texts, and those of one text in the order in which they first occurred. */
  lemma OrderedByText(rows: seq<Log>, f: Tagger)
    ensures
      var tags := Ordered(rows, f);
      && (forall i, j :: 0 <= i < j < |tags| ==> TextLe(tags[i].text, tags[j].text))
      && forall i, j :: 0 <= i < j < |Tags(rows, f)| && Tags(rows, f)[i].text == Tags(rows, f)[j].text ==>
           Precedes(tags, Tags(rows, f)[i], Tags(rows, f)[j])
  {
    TextOrder();
    var all := Tags(rows, f);
    StableSortSorted(all, TagLe);
    forall i, j | 0 <= i < j < |all| && all[i].text == all[j].text ensures Precedes(Ordered(rows, f), all[i], all[j]) {
      StableSortKeepsOrder(all, i, j, TagLe);
    }
    hide StableSort, Tags;
  }

  lemma FilledTags(rows: seq<Log>, f: Tagger, tags: seq<Tag>)
    requires forall l :: l in tags ==> l in Tags(rows, f)
    ensures Filled(rows, f, tags)
  {
    forall l | l in tags ensures Bucket(rows, f, l) != [] { BucketFilled(rows, f, l); }
  }

  lemma {:induction false} EndsMembers(rows: seq<Log>, f: Tagger, tags: seq<Tag>)
    requires Filled(rows, f, tags)
    ensures forall x :: x in Ends(rows, f, tags) ==> x in rows
  {
    if tags != [] {
      var last := tags[|tags| - 1];
      EndsMembers(rows, f, tags[..|tags| - 1]);
      BucketMembers(rows, f, last);
      var values := Bucket(rows, f, last);
      assert values[0] in values && values[|values| - 1] in values;
    }
  }

  /** First and last row of each listed bucket. */
  lemma {:induction false} EndsCover(rows: seq<Log>, f: Tagger, tags: seq<Tag>, tag: Tag)
    requires Filled(rows, f, tags) && tag in tags
    ensures Bucket(rows, f, tag)[0] in Ends(rows, f, tags)
    ensures Bucket(rows, f, tag)[|Bucket(rows, f, tag)| - 1] in Ends(rows, f, tags)
  {
    if tag != tags[|tags| - 1] {
      EndsCover(rows, f, tags[..|tags| - 1], tag);
    }
  }

  /** First row of each listed bucket. */
  lemma HeadsCover(rows: seq<Log>, f: Tagger, tags: seq<Tag>, tag: Tag)
    requires Filled(rows, f, tags) && tag in tags
    ensures Bucket(rows, f, tag)[0] in Heads(rows, f, tags)
  {
    hide Bucket, Filled;
    var i :| 0 <= i < |tags| && tags[i] == tag;
    assert Heads(rows, f, tags)[i] in Heads(rows, f, tags);
  }

  /******* Adding under the limit *******/

  /** The nested `add`: skips rows whose key is already selected and stops at the limit. */
  ghost function Add(selected: seq<Log>, values: seq<Log>, limit: nat): seq<Log> {
    if values == [] then selected
    else
      var before := Add(selected, values[..|values| - 1], limit);
      var log := values[|values| - 1];
      if |before| >= limit || Key(log) in KeySet(before) then before else before + [log]
  }

  lemma {:induction false} AddFacts(selected: seq<Log>, values: seq<Log>, limit: nat)
    requires DistinctKeys(selected) && |selected| <= limit
    ensures selected <= Add(selected, values, limit)
    ensures DistinctKeys(Add(selected, values, limit))
    ensures |Add(selected, values, limit)| <= limit
    ensures |Add(selected, values, limit)| <= |selected| + |values|
    ensures forall x :: x in Add(selected, values, limit) ==> x in selected || x in values
  {
    if values != [] {
      var front, log := values[..|values| - 1], values[|values| - 1];
      AddFacts(selected, front, limit);
      assert values == front + [log];
      DistinctSnoc(Add(selected, front, limit), log);
    }
  }

  /** While there is room for all of them, every value's key ends up selected. */
  lemma {:induction false} AddKeepsAll(selected: seq<Log>, values: seq<Log>, limit: nat)
    requires DistinctKeys(selected) && |selected| + |values| <= limit
    ensures KeySet(values) <= KeySet(Add(selected, values, limit))
  {
    if values != [] {
      var front, log := values[..|values| - 1], values[|values| - 1];
      AddKeepsAll(selected, front, limit);
      AddFacts(selected, front, limit);
      DistinctSnoc(front, log);
      DistinctSnoc(Add(selected, front, limit), log);
      hide KeySet, DistinctKeys;
      assert values == front + [log];
    }
  }

  /** Values with new, distinct keys are all appended while there is room. */
  lemma {:induction false} AddAppends(selected: seq<Log>, values: seq<Log>, limit: nat)
    requires DistinctKeys(values) && |selected| + |values| <= limit
    requires forall x :: x in values ==> Key(x) !in KeySet(selected)
    ensures Add(selected, values, limit) == selected + values
  {
    if values == [] {
      assert selected + values == selected;
    } else {
      var front, log := values[..|values| - 1], values[|values| - 1];
      AddAppends(selected, front, limit);
      assert values == front + [log];
      assert Key(log) !in KeySet(selected + front);
      assert selected + values == selected + front + [log];
    }
  }

  /******* The phases *******/

  function SemanticBudget(limit: nat, used: nat): int {
    Min(Max(limit / 4, 2), limit - used)
  }

  function SignalBudget(available: nat, limit: nat, used: nat): int {
    Min(Min(available, Max(1, limit / 3)), limit - used)
  }

  function ShapeBudget(available: nat, limit: nat, used: nat): int {
    Min(Min(available, Max(4, limit / 3)), limit - used)
  }

  ghost function Boundaries(rows: seq<Log>, limit: nat): seq<Log>
    requires rows != []
  {
    Add([], [rows[0], rows[|rows| - 1]], limit)
  }

  ghost function SemanticPhase(p: Probes, rows: seq<Log>, selected: seq<Log>, limit: nat): seq<Log> {
    Add(selected, EvenSample(Ends(rows, p.signals, Ordered(rows, p.signals)), SemanticBudget(limit, |selected|)), limit)
  }

  ghost function HighSignalPhase(p: Probes, rows: seq<Log>, selected: seq<Log>, limit: nat): seq<Log> {
    var ends := Ends(rows, HighSignalTags(p), Ordered(rows, HighSignalTags(p)));
    Add(selected, EvenSample(ends, SignalBudget(|ends|, limit, |selected|)), limit)
  }

  ghost function ShapePhase(p: Probes, rows: seq<Log>, selected: seq<Log>, limit: nat): seq<Log> {
    var heads := Heads(rows, ShapeTags(p), Ordered(rows, ShapeTags(p)));
    Add(selected, EvenSample(heads, ShapeBudget(|heads|, limit, |selected|)), limit)
  }

  /** The rows whose key is not selected yet. */
  ghost function Remaining(rows: seq<Log>, selected: seq<Log>): seq<Log> {
    if rows == [] then []
    else Remaining(rows[..|rows| - 1], selected) +
         (if Key(rows[|rows| - 1]) !in KeySet(selected) then [rows[|rows| - 1]] else [])
  }

  ghost function FillPhase(rows: seq<Log>, selected: seq<Log>, limit: nat): seq<Log> {
    if |selected| < limit then Add(selected, EvenSample(Remaining(rows, selected), limit - |selected|), limit) else selected
  }

  ghost function Select(p: Probes, rows: seq<Log>, limit: nat): seq<Log>
    requires rows != []
  {
    var s1 := Boundaries(rows, limit);
    var s2 := SemanticPhase(p, rows, s1, limit);
    var s3 := HighSignalPhase(p, rows, s2, limit);
    var s4 := ShapePhase(p, rows, s3, limit);
    FillPhase(rows, s4, limit)
  }

  ghost function RepresentativeSample(p: Probes, logs: seq<Log>, limit: int): seq<Log> {
    var rows := SortedUnique(logs);
    var cap := AtLeastOne(limit);
    if |rows| <= cap then rows
    else
      var kept := SortedUnique(Select(p, rows, cap));
      if |kept| <= cap then kept else kept[..cap]
  }
}
