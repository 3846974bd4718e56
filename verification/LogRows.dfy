/**
 Log rows, their identity, and the sorted, deduplicated list every sampling step starts from.
*/
module LogRows {
  import opened Ordering

  /** A log's `timestamp` entry: absent, or the text `str` gives it. */
  datatype Stamp = Missing | Present(text: string)

  /** `labels` is the canonical JSON of the labels; `extra` is every other field of the record. */
  datatype Log = Log(stamp: Stamp, message: string, labels: string, extra: int)

  datatype LogKey = LogKey(stamp: string, message: string, labels: string)

  /** `_log_key` */
  function Key(log: Log): LogKey {
    LogKey(if log.stamp.Missing? then "None" else log.stamp.text, log.message, log.labels)
  }

  /** The sort key `str(item.get("timestamp", ""))`. */
  function Time(log: Log): string {
    if log.stamp.Missing? then "" else log.stamp.text
  }

  predicate Earlier(a: Log, b: Log) {
    TextLe(Time(a), Time(b))
  }

  lemma EarlierOrder()
    ensures TotalPreorder(Earlier)
  {
    TextOrder();
  }

  ghost function KeySet(rows: seq<Log>): set<LogKey> {
    set row | row in rows :: Key(row)
  }

  ghost predicate DistinctKeys(rows: seq<Log>) {
    forall i, j :: 0 <= i < j < |rows| ==> Key(rows[i]) != Key(rows[j])
  }

  /** Rows count as the same log when timestamp text, message and labels agree; a missing timestamp reads "None". */
  lemma KeysMean(a: Log, b: Log)
    ensures Key(a) == Key(b) <==>
      && a.message == b.message && a.labels == b.labels
      && (a.stamp == b.stamp || (a.stamp in {Missing, Present("None")} && b.stamp in {Missing, Present("None")}))
  {
  }

  /** Rows are ordered by the text of their timestamps, those without one first. */
  lemma EarlierMeans(a: Log, b: Log)
    ensures a.stamp.Missing? ==> Earlier(a, b)
    ensures a.stamp.Present? && b.stamp.Missing? ==> (Earlier(a, b) <==> a.stamp.text == "")
    ensures a.stamp.Present? && b.stamp.Present? ==> (Earlier(a, b) <==> TextLe(a.stamp.text, b.stamp.text))
  {
  }

  /** `unique[_log_key(log)] = log`: the first position of a key, the last row stored under it. */
  ghost function Store(rows: seq<Log>, log: Log): seq<Log> {
    if Key(log) in KeySet(rows)
    then seq(|rows|, i requires 0 <= i < |rows| => if Key(rows[i]) == Key(log) then log else rows[i])
    else rows + [log]
  }

  ghost function Unique(logs: seq<Log>): seq<Log> {
    if logs == [] then [] else Store(Unique(logs[..|logs| - 1]), logs[|logs| - 1])
  }

  /** `_sorted_unique` */
  ghost function SortedUnique(logs: seq<Log>): seq<Log> {
    StableSort(Unique(logs), Earlier)
  }

  /******* Facts about deduplication *******/

  lemma StoreFacts(rows: seq<Log>, log: Log)
    requires DistinctKeys(rows)
    ensures DistinctKeys(Store(rows, log))
    ensures KeySet(Store(rows, log)) == KeySet(rows) + {Key(log)}
    ensures forall x :: x in Store(rows, log) ==> x in rows || x == log
  {
    var after := Store(rows, log);
    if Key(log) in KeySet(rows) {
      forall k ensures k in KeySet(after) <==> k in KeySet(rows) {
        if k in KeySet(rows) {
          var i :| 0 <= i < |rows| && Key(rows[i]) == k;
          assert Key(after[i]) == k;
        }
        if k in KeySet(after) {
          var i :| 0 <= i < |after| && Key(after[i]) == k;
          assert Key(rows[i]) == k;
        }
      }
    } else {
      forall i | 0 <= i < |rows| ensures Key(rows[i]) != Key(log) { assert rows[i] in rows; }
    }
  }

  lemma {:induction false} UniqueFacts(logs: seq<Log>)
    ensures DistinctKeys(Unique(logs))
    ensures KeySet(Unique(logs)) == KeySet(logs)
    ensures forall x :: x in Unique(logs) ==> x in logs
  {
    if logs != [] {
      var front, last := logs[..|logs| - 1], logs[|logs| - 1];
      hide Key, KeySet, DistinctKeys, Store;
      UniqueFacts(front);
      StoreFacts(Unique(front), last);
      assert logs == front + [last];
      DistinctSnoc(front, last);
    }
  }

  lemma NewKey(front: seq<Log>, last: Log)
    requires forall i :: 0 <= i < |front| ==> Key(front[i]) != Key(last)
    ensures Key(last) !in KeySet(front)
  {
  }

  /** A new last row brings a new key exactly when distinctness survives it. */
  lemma DistinctSnoc(front: seq<Log>, last: Log)
    ensures KeySet(front + [last]) == KeySet(front) + {Key(last)}
    ensures DistinctKeys(front + [last]) <==> DistinctKeys(front) && Key(last) !in KeySet(front)
  {
    hide Key;
    var rows := front + [last];
    if DistinctKeys(rows) {
      forall i, j | 0 <= i < j < |front| ensures Key(front[i]) != Key(front[j]) { assert rows[i] == front[i] && rows[j] == front[j]; }
      forall i | 0 <= i < |front| ensures Key(front[i]) != Key(last) { assert rows[i] == front[i] && rows[|front|] == last; }
    }
  }

  lemma StoreNew(rows: seq<Log>, log: Log)
    requires Key(log) !in KeySet(rows)
    ensures Store(rows, log) == rows + [log]
  {
    hide Key, KeySet;
  }

  /** Distinct rows are left alone. */
  lemma {:induction false} UniqueOfDistinct(logs: seq<Log>)
    requires DistinctKeys(logs)
    ensures Unique(logs) == logs
  {
    if logs != [] {
      hide Key, KeySet, DistinctKeys, Store;
      var front, last := logs[..|logs| - 1], logs[|logs| - 1];
      assert logs == front + [last];
      DistinctSnoc(front, last);
      UniqueOfDistinct(front);
      StoreNew(front, last);
    }
  }

  lemma {:induction false} DistinctCount(rows: seq<Log>)
    ensures |KeySet(rows)| <= |rows|
    ensures DistinctKeys(rows) <==> |KeySet(rows)| == |rows|
  {
    if rows != [] {
      hide Key, KeySet, DistinctKeys;
      var front, last := rows[..|rows| - 1], rows[|rows| - 1];
      DistinctCount(front);
      assert rows == front + [last];
      DistinctSnoc(front, last);
      if Key(last) in KeySet(front) { assert KeySet(front) + {Key(last)} == KeySet(front); }
    }
  }

  lemma DistinctByMultiset(a: seq<Log>, b: seq<Log>)
    requires DistinctKeys(a) && multiset(a) == multiset(b)
    ensures DistinctKeys(b) && KeySet(b) == KeySet(a)
  {
    assert |a| == |multiset(a)| == |multiset(b)| == |b|;
    forall x ensures x in a <==> x in b {
      assert x in a <==> x in multiset(a);
      assert x in b <==> x in multiset(b);
    }
    assert KeySet(a) == KeySet(b);
    DistinctCount(a);
    DistinctCount(b);
  }

  /** The sorted, deduplicated list: ordered by time, one row for each key that occurs, all from the input. */
  lemma SortedUniqueFacts(logs: seq<Log>)
    ensures DistinctKeys(SortedUnique(logs))
    ensures Sorted(SortedUnique(logs), Earlier)
    ensures KeySet(SortedUnique(logs)) == KeySet(logs)
    ensures |SortedUnique(logs)| == |KeySet(logs)|
    ensures forall x :: x in SortedUnique(logs) ==> x in logs
  {
    EarlierOrder();
    var rows := Unique(logs);
    UniqueFacts(logs);
    StableSortMultiset(rows, Earlier);
    StableSortMembers(rows, Earlier);
    StableSortSorted(rows, Earlier);
    DistinctByMultiset(rows, SortedUnique(logs));
    DistinctCount(SortedUnique(logs));
  }

  /** Rows of the same time, and rows already in order, stay in the order in which their keys first occurred. */
  lemma SortedUniqueKeepsOrder(logs: seq<Log>, i: nat, j: nat)
    requires i < j < |Unique(logs)| && Earlier(Unique(logs)[i], Unique(logs)[j])
    ensures Precedes(SortedUnique(logs), Unique(logs)[i], Unique(logs)[j])
  {
    StableSortKeepsOrder(Unique(logs), i, j, Earlier);
  }

  /** Rows with distinct keys are only reordered. */
  lemma SortedUniqueOfDistinct(rows: seq<Log>)
    requires DistinctKeys(rows)
    ensures SortedUnique(rows) == StableSort(rows, Earlier)
    ensures |SortedUnique(rows)| == |rows|
    ensures forall x :: x in SortedUnique(rows) <==> x in rows
  {
    UniqueOfDistinct(rows);
    StableSortMultiset(rows, Earlier);
    StableSortMembers(rows, Earlier);
  }

  /** Two rows of a list with distinct keys that share a key are one row. */
  lemma SameKeySameRow(rows: seq<Log>, a: Log, b: Log)
    requires DistinctKeys(rows) && a in rows && b in rows && Key(a) == Key(b)
    ensures a == b
  {
    var i :| 0 <= i < |rows| && rows[i] == a;
    var j :| 0 <= j < |rows| && rows[j] == b;
    assert i == j;
  }

  /** Of several rows with one key, the last one in the input is the one kept. */
  lemma {:induction false} LastRowWins(logs: seq<Log>, i: nat)
    requires i < |logs| && forall j :: i < j < |logs| ==> Key(logs[j]) != Key(logs[i])
    ensures logs[i] in Unique(logs)
    ensures logs[i] in SortedUnique(logs)
  {
    var front, last := logs[..|logs| - 1], logs[|logs| - 1];
    var rows := Unique(front);
    if i == |front| {
      if Key(last) in KeySet(rows) {
        var k :| 0 <= k < |rows| && Key(rows[k]) == Key(last);
        assert Store(rows, last)[k] == last;
      }
    } else {
      LastRowWins(front, i);
      var k :| 0 <= k < |rows| && rows[k] == logs[i];
      assert Store(rows, last)[k] == logs[i];
    }
    StableSortMembers(Unique(logs), Earlier);
  }

  /******* The dictionary the source fills *******/

  ghost predicate Dictionary(order: seq<LogKey>, unique: map<LogKey, Log>) {
    && (forall j :: 0 <= j < |order| ==> order[j] in unique && Key(unique[order[j]]) == order[j])
    && (forall k :: k in unique ==> k in order)
    && (forall j, k :: 0 <= j < k < |order| ==> order[j] != order[k])
  }

  function Values(order: seq<LogKey>, unique: map<LogKey, Log>): seq<Log>
    requires Dictionary(order, unique)
  {
    seq(|order|, i requires 0 <= i < |order| => unique[order[i]])
  }

  /** Assigning under a key is `Store` on the dictionary's values. */
  lemma AssignStores(order: seq<LogKey>, unique: map<LogKey, Log>, log: Log)
    requires Dictionary(order, unique)
    ensures
      var order' := if Key(log) in unique then order else order + [Key(log)];
      && Dictionary(order', unique[Key(log) := log])
      && Values(order', unique[Key(log) := log]) == Store(Values(order, unique), log)
  {
    var before := Values(order, unique);
    if Key(log) in unique {
      var j :| 0 <= j < |order| && order[j] == Key(log);
      assert before[j] in before;
      assert Key(log) in KeySet(before);
    } else {
      forall i | 0 <= i < |before| ensures Key(before[i]) != Key(log) { assert order[i] in unique; }
      NewKey(before, log);
    }
  }

  method SortUnique(logs: seq<Log>) returns (rows: seq<Log>)
    ensures rows == SortedUnique(logs)
  {
    var order: seq<LogKey> := [];
    var unique: map<LogKey, Log> := map[];
    assert Dictionary(order, unique) && Values(order, unique) == [];
    hide Dictionary, Values, Store;
    for i := 0 to |logs|
      invariant Dictionary(order, unique)
      invariant Values(order, unique) == Unique(logs[..i])
    {
      var log := logs[i];
      var key := Key(log);
      AssignStores(order, unique, log);
      assert logs[..i + 1][..i] == logs[..i];
      if key !in unique {
        order := order + [key];
      }
      unique := unique[key := log];
    }
    assert logs[..|logs|] == logs;
    rows := StableSort(Values(order, unique), Earlier);
  }
}
