/**
 `_selected_insert`: append, sort and truncate a bucket in place, once per streamed trace.
*/
module TraceBuckets {
  import opened Ordering

  datatype Artifact = Artifact(traceKey: string, content: int)

  predicate TraceLe(a: Artifact, b: Artifact) {
    TextLe(a.traceKey, b.traceKey)
  }

  lemma TraceOrder()
    ensures TotalPreorder(TraceLe)
  {
    TextOrder();
  }

  /** `if len(bucket) > limit: del bucket[limit:]`, a negative limit counting from the end. */
  function Trim(bucket: seq<Artifact>, limit: int): seq<Artifact> {
    if |bucket| <= limit then bucket
    else if limit >= 0 then bucket[..limit]
    else if |bucket| + limit >= 0 then bucket[..|bucket| + limit]
    else []
  }

  function Bucket(selected: map<string, seq<Artifact>>, truth: string): seq<Artifact> {
    if truth in selected then selected[truth] else []
  }

  /** The buckets, shared by every call of a streaming pass. */
  class Selection {
    var selected: map<string, seq<Artifact>>

    constructor ()
      ensures selected == map[]
    {
      selected := map[];
    }

    method Insert(truth: string, artifact: Artifact, limit: int)
      modifies this
      ensures selected == Inserted(old(selected), truth, artifact, limit)
    {
      if truth !in selected {
        selected := selected[truth := []];
      }
      var bucket := selected[truth] + [artifact];
      bucket := StableSort(bucket, TraceLe);
      if |bucket| > limit {
        bucket := Trim(bucket, limit);
      }
      selected := selected[truth := bucket];
    }
  }

  function Inserted(selected: map<string, seq<Artifact>>, truth: string, artifact: Artifact, limit: int): map<string, seq<Artifact>> {
    selected[truth := Trim(StableSort(Bucket(selected, truth) + [artifact], TraceLe), limit)]
  }

  /******* A whole stream *******/

  datatype Arrival = Arrival(truth: string, artifact: Artifact)

  type Stream = seq<Arrival>

  function After(stream: Stream, limit: int): map<string, seq<Artifact>> {
    if stream == [] then map[]
    else Inserted(After(stream[..|stream| - 1], limit), stream[|stream| - 1].truth, stream[|stream| - 1].artifact, limit)
  }

  /** Everything inserted for a truth, in stream order. */
  function Arrivals(stream: Stream, truth: string): seq<Artifact> {
    if stream == [] then []
    else
      Arrivals(stream[..|stream| - 1], truth) +
      (if stream[|stream| - 1].truth == truth then [stream[|stream| - 1].artifact] else [])
  }

  function First(s: seq<Artifact>, n: int): seq<Artifact> {
    if n <= 0 then [] else if n >= |s| then s else s[..n]
  }

  lemma FirstOfMore(s: seq<Artifact>, t: seq<Artifact>, k: nat)
    requires k <= |s|
    ensures First(s + t, k) == First(s, k)
  {
  }

  lemma InsertLength(s: seq<Artifact>, x: Artifact)
    ensures |Insert(s, x, TraceLe)| == |s| + 1
  {
    InsertMultiset(s, x, TraceLe);
  }

  /** Inserting into a truncated sorted list, then truncating, loses nothing the full list would keep. */
  lemma {:induction false} InsertIntoPrefix(s: seq<Artifact>, x: Artifact, k: nat)
    requires TotalPreorder(TraceLe) && Sorted(s, TraceLe)
    ensures First(Insert(First(s, k), x, TraceLe), k) == First(Insert(s, x, TraceLe), k)
  {
    if k < |s| {
      var front, last := s[..|s| - 1], s[|s| - 1];
      hide TraceLe;
      InsertIntoPrefix(front, x, k);
      assert First(front, k) == First(s, k);
      InsertLength(front, x);
      if TraceLe(last, x) {
        assert front != [] ==> TraceLe(s[|front| - 1], last);
        assert Insert(front, x, TraceLe) == front + [x];
        FirstOfMore(front, [x], k);
        FirstOfMore(s, [x], k);
      } else {
        FirstOfMore(Insert(front, x, TraceLe), [last], k);
      }
    }
  }

  /** Sorting an already sorted list with one more element is inserting it. */
  lemma SortOneMore(s: seq<Artifact>, x: Artifact)
    requires Sorted(s, TraceLe)
    ensures StableSort(s + [x], TraceLe) == Insert(s, x, TraceLe)
  {
    StableSortOfSorted(s, TraceLe);
    assert (s + [x])[..|s|] == s;
  }

  lemma FirstSorted(s: seq<Artifact>, k: int)
    requires Sorted(s, TraceLe)
    ensures Sorted(First(s, k), TraceLe)
  {
  }

  /**
   After any stream of insertions, each bucket is the first `limit` elements (none, for a limit
   below one) of the stable sort of everything inserted for its truth: streaming loses nothing
   against one final sort and cut.
  */
  lemma {:induction false} StreamIsSortAndCut(stream: Stream, limit: int, truth: string)
    ensures Bucket(After(stream, limit), truth) == First(StableSort(Arrivals(stream, truth), TraceLe), limit)
  {
    if stream == [] {
      assert StableSort([], TraceLe) == [];
    } else {
      var front, last := stream[..|stream| - 1], stream[|stream| - 1];
      StreamIsSortAndCut(front, limit, truth);
      InsertedBucket(After(front, limit), last.truth, last.artifact, limit, truth);
      assert After(stream, limit) == Inserted(After(front, limit), last.truth, last.artifact, limit);
      if last.truth == truth {
        OneArrival(Arrivals(front, truth), last.artifact, limit);
        assert Arrivals(stream, truth) == Arrivals(front, truth) + [last.artifact];
      } else {
        assert Arrivals(stream, truth) == Arrivals(front, truth);
      }
      hide *;
    }
  }

  /** The traces inserted for a truth, by their positions in the stream. */
  lemma {:induction false} ArrivalsMean(stream: Stream, truth: string) returns (at: seq<nat>)
    ensures |at| == |Arrivals(stream, truth)|
    ensures forall k :: 0 <= k < |at| ==>
      at[k] < |stream| && stream[at[k]].truth == truth && Arrivals(stream, truth)[k] == stream[at[k]].artifact
    ensures forall i :: 0 <= i < |stream| && stream[i].truth == truth ==> i in at
    ensures forall j, k :: 0 <= j < k < |at| ==> at[j] < at[k]
  {
    if stream == [] {
      at := [];
    } else {
      at := ArrivalsMean(stream[..|stream| - 1], truth);
      if stream[|stream| - 1].truth == truth { at := at + [|stream| - 1]; }
    }
  }

  /**
   What a bucket holds: the traces with the lowest keys, in order, as many as the limit allows.  Nothing
   left out has a lower key, and of equal keys those inserted first come first.
  */
  lemma BucketMeans(stream: Stream, limit: int, truth: string) returns (left: seq<Artifact>)
    ensures
      var kept, all := Bucket(After(stream, limit), truth), Arrivals(stream, truth);
      && |kept| == (if limit <= 0 then 0 else if limit < |all| then limit else |all|)
      && multiset(kept + left) == multiset(all)
      && (forall i, j :: 0 <= i < j < |kept + left| ==> TextLe((kept + left)[i].traceKey, (kept + left)[j].traceKey))
      && forall i, j :: 0 <= i < j < |all| && TextLe(all[i].traceKey, all[j].traceKey) ==> Precedes(kept + left, all[i], all[j])
  {
    var all := Arrivals(stream, truth);
    var sorted := StableSort(all, TraceLe);
    StreamIsSortAndCut(stream, limit, truth);
    TraceOrder();
    StableSortSorted(all, TraceLe);
    StableSortMultiset(all, TraceLe);
    forall i, j | 0 <= i < j < |all| && TextLe(all[i].traceKey, all[j].traceKey) ensures Precedes(sorted, all[i], all[j]) {
      StableSortKeepsOrder(all, i, j, TraceLe);
    }
    hide StableSort, Arrivals, After, TotalPreorder, Precedes;
    left := sorted[|First(sorted, limit)|..];
    assert First(sorted, limit) + left == sorted;
  }

  /** A truth has a bucket exactly when something was inserted for it. */
  lemma {:induction false} BucketsOpened(stream: Stream, limit: int, truth: string)
    ensures truth in After(stream, limit) <==> Arrivals(stream, truth) != []
  {
    if stream != [] {
      BucketsOpened(stream[..|stream| - 1], limit, truth);
    }
  }

  lemma InsertedBucket(selected: map<string, seq<Artifact>>, filed: string, x: Artifact, limit: int, truth: string)
    ensures
      var after := Inserted(selected, filed, x, limit);
      && Bucket(after, truth) ==
         (if filed == truth then Trim(StableSort(Bucket(selected, truth) + [x], TraceLe), limit) else Bucket(selected, truth))
      && (truth in after <==> truth in selected || filed == truth)
  {
  }

  /** The step of a stream: one insertion into the kept prefix against one into the full sorted list. */
  lemma OneArrival(before: seq<Artifact>, x: Artifact, limit: int)
    ensures Trim(StableSort(First(StableSort(before, TraceLe), limit) + [x], TraceLe), limit) ==
            First(StableSort(before + [x], TraceLe), limit)
  {
    TraceOrder();
    var sorted := StableSort(before, TraceLe);
    StableSortSorted(before, TraceLe);
    FirstSorted(sorted, limit);
    var kept := First(sorted, limit);
    SortOneMore(kept, x);
    assert (before + [x])[..|before|] == before;
    InsertLength(kept, x);
    if limit >= 0 {
      InsertIntoPrefix(sorted, x, limit);
      TrimIsFirst(Insert(kept, x, TraceLe), limit);
    }
  }

  lemma TrimIsFirst(bucket: seq<Artifact>, limit: int)
    requires limit >= 0
    ensures Trim(bucket, limit) == First(bucket, limit)
  {
  }
}
