/**
 `representative_sample` as it runs: one growing selection with its key set, and one dictionary of
 buckets for each phase.
*/
module SamplerMethods {
  import opened Ordering
  import opened LogRows
  import opened EvenSpacing
  import opened LogSampler

  /** Once the limit is reached, no further value is added. */
  lemma {:induction false} AddStops(selected: seq<Log>, values: seq<Log>, limit: nat, i: nat)
    requires i <= |values| && |Add(selected, values[..i], limit)| >= limit
    ensures Add(selected, values, limit) == Add(selected, values[..i], limit)
    decreases |values|
  {
    if i == |values| {
      assert values[..i] == values;
    } else {
      var front := values[..|values| - 1];
      assert front[..i] == values[..i];
      AddStops(selected, front, limit, i);
    }
  }

  lemma EmptyKeys()
    ensures KeySet([]) == {}
  {
  }

  /** The nested `add`. */
  method AddUnder(before: seq<Log>, keysBefore: set<LogKey>, values: seq<Log>, limit: nat)
    returns (selected: seq<Log>, keys: set<LogKey>)
    requires keysBefore == KeySet(before)
    ensures selected == Add(before, values, limit)
    ensures keys == KeySet(selected)
  {
    selected, keys := before, keysBefore;
    for i := 0 to |values|
      invariant selected == Add(before, values[..i], limit)
      invariant keys == KeySet(selected)
    {
      if |selected| >= limit {
        AddStops(before, values, limit, i);
        return;
      }
      assert values[..i + 1][..i] == values[..i];
      var key := Key(values[i]);
      if key in keys {
        continue;
      }
      DistinctSnoc(selected, values[i]);
      selected := selected + [values[i]];
      keys := keys + {key};
    }
    assert values[..|values|] == values;
  }

  /** The buckets, as a dictionary in insertion order. */
  ghost predicate Holds(order: seq<Tag>, buckets: map<Tag, seq<Log>>, rows: seq<Log>, f: Tagger) {
    && order == Tags(rows, f)
    && (forall tag :: tag in buckets <==> tag in order)
    && (forall tag :: tag in buckets ==> buckets[tag] == Bucket(rows, f, tag))
  }

  /** A tag without a bucket has occurred neither in earlier rows nor earlier in this one. */
  lemma NewTag(orderBefore: seq<Tag>, rows: seq<Log>, row: Log, f: Tagger, tags: seq<Tag>, tag: Tag)
    requires orderBefore == Tags(rows, f) && tag !in AddTags(orderBefore, tags)
    ensures Bucket(rows, f, tag) == [] && Copies(row, tags, tag) == []
  {
    CopiesMembers(row, tags, tag);
    BucketFilled(rows, f, tag);
    AddTagsMembers(orderBefore, tags);
  }

  /** The buckets with some of one more row's tags already filed. */
  ghost predicate Filing(order: seq<Tag>, buckets: map<Tag, seq<Log>>, orderBefore: seq<Tag>,
                         rows: seq<Log>, row: Log, f: Tagger, tags: seq<Tag>)
  {
    && order == AddTags(orderBefore, tags)
    && (forall tag :: tag in buckets <==> tag in order)
    && (forall tag :: tag in buckets ==> buckets[tag] == Bucket(rows, f, tag) + Copies(row, tags, tag))
  }

  lemma OneMoreTag(orderBefore: seq<Tag>, row: Log, tags: seq<Tag>, tag: Tag)
    ensures AddTags(orderBefore, tags + [tag]) == AddTag(AddTags(orderBefore, tags), tag)
    ensures forall x :: Copies(row, tags + [tag], x) == Copies(row, tags, x) + if x == tag then [row] else []
  {
    assert (tags + [tag])[..|tags|] == tags;
  }

  lemma FileTag(order: seq<Tag>, buckets: map<Tag, seq<Log>>, orderBefore: seq<Tag>,
                rows: seq<Log>, row: Log, f: Tagger, tags: seq<Tag>, tag: Tag)
    requires Filing(order, buckets, orderBefore, rows, row, f, tags) && orderBefore == Tags(rows, f)
    ensures tag !in buckets ==> Filing(order + [tag], buckets[tag := [row]], orderBefore, rows, row, f, tags + [tag])
    ensures tag in buckets ==> Filing(order, buckets[tag := buckets[tag] + [row]], orderBefore, rows, row, f, tags + [tag])
  {
    OneMoreTag(orderBefore, row, tags, tag);
    hide Bucket, Copies, AddTags, Tags;
    if tag !in buckets { NewTag(orderBefore, rows, row, f, tags, tag); }
    forall x | x in buckets && x != tag ensures buckets[x] == Bucket(rows, f, x) + Copies(row, tags + [tag], x) {
      assert Copies(row, tags, x) + [] == Copies(row, tags, x);
    }
    if tag in buckets {
      assert buckets[tag] + [row] == Bucket(rows, f, tag) + (Copies(row, tags, tag) + [row]);
    }
  }

  lemma Unfiled(order: seq<Tag>, buckets: map<Tag, seq<Log>>, rows: seq<Log>, row: Log, f: Tagger)
    requires Holds(order, buckets, rows, f)
    ensures Filing(order, buckets, order, rows, row, f, [])
  {
    hide Bucket, Tags;
    forall tag ensures Bucket(rows, f, tag) + [] == Bucket(rows, f, tag) {}
  }

  lemma AllFiled(order: seq<Tag>, buckets: map<Tag, seq<Log>>, rows: seq<Log>, row: Log, f: Tagger)
    requires Filing(order, buckets, Tags(rows, f), rows, row, f, f(row))
    ensures Holds(order, buckets, rows + [row], f)
  {
    assert (rows + [row])[..|rows|] == rows;
    hide Copies, AddTags;
  }

  /** `setdefault(tag, []).append(row)` for each tag of one row. */
  method FileRow(orderBefore: seq<Tag>, bucketsBefore: map<Tag, seq<Log>>, ghost rows: seq<Log>, row: Log, f: Tagger)
    returns (order: seq<Tag>, buckets: map<Tag, seq<Log>>)
    requires Holds(orderBefore, bucketsBefore, rows, f)
    ensures Holds(order, buckets, rows + [row], f)
  {
    order, buckets := orderBefore, bucketsBefore;
    Unfiled(order, buckets, rows, row, f);
    var tags := f(row);
    assert orderBefore == Tags(rows, f);
    hide *;
    for i := 0 to |tags|
      invariant Filing(order, buckets, orderBefore, rows, row, f, tags[..i])
    {
      var tag := tags[i];
      assert tags[..i + 1] == tags[..i] + [tag];
      FileTag(order, buckets, orderBefore, rows, row, f, tags[..i], tag);
      if tag !in buckets {
        order := order + [tag];
        buckets := buckets[tag := [row]];
      } else {
        buckets := buckets[tag := buckets[tag] + [row]];
      }
    }
    assert tags[..|tags|] == tags;
    AllFiled(order, buckets, rows, row, f);
  }

  method FileRows(rows: seq<Log>, f: Tagger) returns (order: seq<Tag>, buckets: map<Tag, seq<Log>>)
    ensures Holds(order, buckets, rows, f)
  {
    order, buckets := [], map[];
    for i := 0 to |rows|
      invariant Holds(order, buckets, rows[..i], f)
    {
      order, buckets := FileRow(order, buckets, rows[..i], rows[i], f);
      assert rows[..i + 1] == rows[..i] + [rows[i]];
    }
    assert rows[..|rows|] == rows;
  }

  /** What the sorted keys of the dictionary lead to. */
  lemma HeldBuckets(order: seq<Tag>, buckets: map<Tag, seq<Log>>, rows: seq<Log>, f: Tagger)
    requires Holds(order, buckets, rows, f)
    ensures StableSort(order, TagLe) == Ordered(rows, f)
    ensures var keys := Ordered(rows, f); forall i :: 0 <= i < |keys| ==>
      keys[i] in buckets && buckets[keys[i]] == Bucket(rows, f, keys[i]) != []
  {
    hide Bucket, Tags, StableSort;
    var keys := Ordered(rows, f);
    forall i | 0 <= i < |keys| ensures keys[i] in buckets && buckets[keys[i]] == Bucket(rows, f, keys[i]) != [] {
      assert keys[i] in keys;
    }
  }

  lemma FilledPrefix(rows: seq<Log>, f: Tagger, keys: seq<Tag>, i: nat)
    requires Filled(rows, f, keys) && i <= |keys|
    ensures Filled(rows, f, keys[..i])
    ensures i < |keys| ==> Bucket(rows, f, keys[i]) != []
  {
    hide Bucket;
    if i < |keys| { assert keys[i] in keys; }
  }

  lemma EndsUnfold(rows: seq<Log>, f: Tagger, tags: seq<Tag>, tag: Tag)
    requires Filled(rows, f, tags) && Filled(rows, f, tags + [tag]) && Bucket(rows, f, tag) != []
    ensures
      var values := Bucket(rows, f, tag);
      Ends(rows, f, tags + [tag]) == Ends(rows, f, tags) + [values[0], values[|values| - 1]]
  {
    hide Bucket, Filled;
    assert (tags + [tag])[..|tags|] == tags;
  }

  /** The ends of the first i buckets. */
  ghost predicate Collected(rows: seq<Log>, f: Tagger, keys: seq<Tag>, i: nat, ends: seq<Log>) {
    i <= |keys| && Filled(rows, f, keys[..i]) && ends == Ends(rows, f, keys[..i])
  }

  lemma CollectedBounds(rows: seq<Log>, f: Tagger, keys: seq<Tag>)
    requires Filled(rows, f, keys)
    ensures Collected(rows, f, keys, 0, [])
    ensures forall ends :: Collected(rows, f, keys, |keys|, ends) ==> ends == Ends(rows, f, keys)
  {
    assert keys[..|keys|] == keys;
    hide Bucket, Filled;
  }

  lemma CollectedGrows(rows: seq<Log>, f: Tagger, keys: seq<Tag>, i: nat, ends: seq<Log>)
    requires Filled(rows, f, keys) && i < |keys| && Collected(rows, f, keys, i, ends)
    ensures Bucket(rows, f, keys[i]) != []
    ensures
      var values := Bucket(rows, f, keys[i]);
      Collected(rows, f, keys, i + 1, ends + [values[0], values[|values| - 1]])
  {
    hide Bucket, Filled, Ends;
    FilledPrefix(rows, f, keys, i);
    FilledPrefix(rows, f, keys, i + 1);
    assert keys[..i + 1] == keys[..i] + [keys[i]];
    EndsUnfold(rows, f, keys[..i], keys[i]);
  }

  /** First and last of every bucket, in `str` order of the bucket keys. */
  method CollectEnds(rows: seq<Log>, f: Tagger) returns (ends: seq<Log>)
    ensures ends == Ends(rows, f, Ordered(rows, f))
  {
    var order, buckets := FileRows(rows, f);
    var keys := StableSort(order, TagLe);
    HeldBuckets(order, buckets, rows, f);
    hide *;
    ends := ListEnds(keys, buckets, rows, f);
  }

  method ListEnds(keys: seq<Tag>, buckets: map<Tag, seq<Log>>, ghost rows: seq<Log>, ghost f: Tagger) returns (ends: seq<Log>)
    requires Filled(rows, f, keys)
    requires forall i :: 0 <= i < |keys| ==> keys[i] in buckets && buckets[keys[i]] == Bucket(rows, f, keys[i])
    ensures ends == Ends(rows, f, keys)
  {
    CollectedBounds(rows, f, keys);
    hide *;
    ends := [];
    for i := 0 to |keys|
      invariant Collected(rows, f, keys, i, ends)
    {
      CollectedGrows(rows, f, keys, i, ends);
      var values := buckets[keys[i]];
      ends := ends + [values[0], values[|values| - 1]];
    }
  }

  method CollectHeads(rows: seq<Log>, f: Tagger) returns (heads: seq<Log>)
    ensures heads == Heads(rows, f, Ordered(rows, f))
  {
    var order, buckets := FileRows(rows, f);
    var keys := StableSort(order, TagLe);
    assert keys == Ordered(rows, f);
    heads := seq(|keys|, i requires 0 <= i < |keys| && keys[i] in buckets && buckets[keys[i]] != [] => buckets[keys[i]][0]);
  }

  method Unselected(rows: seq<Log>, keys: set<LogKey>, ghost selected: seq<Log>) returns (remaining: seq<Log>)
    requires keys == KeySet(selected)
    ensures remaining == Remaining(rows, selected)
  {
    remaining := [];
    for i := 0 to |rows|
      invariant remaining == Remaining(rows[..i], selected)
    {
      assert rows[..i + 1][..i] == rows[..i];
      if Key(rows[i]) !in keys {
        remaining := remaining + [rows[i]];
      }
    }
    assert rows[..|rows|] == rows;
  }

  method KeepSignals(p: Probes, rows: seq<Log>, before: seq<Log>, keysBefore: set<LogKey>, cap: nat)
    returns (selected: seq<Log>, keys: set<LogKey>)
    requires keysBefore == KeySet(before)
    ensures selected == SemanticPhase(p, rows, before, cap) && keys == KeySet(selected)
  {
    var semantic := CollectEnds(rows, p.signals);
    var values := SampleEvenly(semantic, SemanticBudget(cap, |before|));
    selected, keys := AddUnder(before, keysBefore, values, cap);
  }

  method KeepHighSignals(p: Probes, rows: seq<Log>, before: seq<Log>, keysBefore: set<LogKey>, cap: nat)
    returns (selected: seq<Log>, keys: set<LogKey>)
    requires keysBefore == KeySet(before)
    ensures selected == HighSignalPhase(p, rows, before, cap) && keys == KeySet(selected)
  {
    var highSignal := CollectEnds(rows, HighSignalTags(p));
    var values := SampleEvenly(highSignal, SignalBudget(|highSignal|, cap, |before|));
    selected, keys := AddUnder(before, keysBefore, values, cap);
  }

  method KeepShapes(p: Probes, rows: seq<Log>, before: seq<Log>, keysBefore: set<LogKey>, cap: nat)
    returns (selected: seq<Log>, keys: set<LogKey>)
    requires keysBefore == KeySet(before)
    ensures selected == ShapePhase(p, rows, before, cap) && keys == KeySet(selected)
  {
    var representatives := CollectHeads(rows, ShapeTags(p));
    var values := SampleEvenly(representatives, ShapeBudget(|representatives|, cap, |before|));
    selected, keys := AddUnder(before, keysBefore, values, cap);
  }

  method FillUp(rows: seq<Log>, before: seq<Log>, keysBefore: set<LogKey>, cap: nat) returns (selected: seq<Log>)
    requires keysBefore == KeySet(before)
    ensures selected == FillPhase(rows, before, cap)
  {
    selected := before;
    var remaining := Unselected(rows, keysBefore, before);
    if cap - |before| > 0 {
      var values := SampleEvenly(remaining, cap - |before|);
      var keys;
      selected, keys := AddUnder(before, keysBefore, values, cap);
    }
  }

  method Sample(p: Probes, logs: seq<Log>, limit: int) returns (sample: seq<Log>)
    ensures sample == RepresentativeSample(p, logs, limit)
  {
    var rows := SortUnique(logs);
    var cap := AtLeastOne(limit);
    if |rows| <= cap {
      return rows;
    }
    hide SemanticPhase, HighSignalPhase, ShapePhase, FillPhase, SortedUnique, Add, KeySet;
    EmptyKeys();
    var selected, keys := AddUnder([], {}, [rows[0], rows[|rows| - 1]], cap);
    selected, keys := KeepSignals(p, rows, selected, keys, cap);
    selected, keys := KeepHighSignals(p, rows, selected, keys, cap);
    selected, keys := KeepShapes(p, rows, selected, keys, cap);
    selected := FillUp(rows, selected, keys, cap);
    sample := SortUnique(selected);
    if |sample| > cap {
      sample := sample[..cap];
    }
  }
}
