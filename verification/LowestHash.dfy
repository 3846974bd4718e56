/**
 `_select_lowest_hash`: a bounded heap per label over a stream of rows.

 The digest is an arbitrary natural-number function of label and identifier.
*/
module LowestHash {
  import opened Basics
  import opened Options
  import opened Ordering
  import opened BinaryHeap

  datatype Row = Row(id: string, tag: string)

  /** `int(sha256(label + "|" + identifier), 16)` */
  type Score = (string, string) -> nat

  function ItemOf(score: Score, row: Row): Item {
    Item(0 - score(row.tag, row.id), row.id)
  }

  /** The items of one label, in stream order. */
  function Items(rows: seq<Row>, score: Score, tag: string): seq<Item> {
    if rows == [] then []
    else Items(rows[..|rows| - 1], score, tag) +
         (if rows[|rows| - 1].tag == tag then [ItemOf(score, rows[|rows| - 1])] else [])
  }

  /******* Sort and take *******/

  predicate Above(a: Item, b: Item) {
    ItemLe(b, a)
  }

  /** The k greatest items: sort descending, take k. */
  function SortAndTake(items: seq<Item>, k: nat): seq<Item> {
    StableSortMultiset(items, Above);
    StableSort(items, Above)[..Least(k, |items|)]
  }

  /** m holds k of the items (all of them when there are fewer), and no item left out exceeds one kept. */
  ghost predicate Top(all: multiset<Item>, k: nat, m: multiset<Item>) {
    && m <= all
    && |m| == Least(k, |all|)
    && forall x, y :: x in all - m && y in m ==> ItemLe(x, y)
  }

  lemma PrefixAbove(sorted: seq<Item>, n: nat, x: Item, y: Item)
    requires Sorted(sorted, Above) && n <= |sorted| && x in sorted[n..] && y in sorted[..n]
    ensures ItemLe(x, y)
  {
    hide ItemLe;
    var i :| 0 <= i < |sorted[n..]| && sorted[n..][i] == x;
    var j :| 0 <= j < n && sorted[..n][j] == y;
    assert Above(sorted[j], sorted[n + i]);
  }

  lemma PrefixIsTop(sorted: seq<Item>, n: nat, k: nat)
    requires Sorted(sorted, Above) && n == Least(k, |sorted|)
    ensures Top(multiset(sorted), k, multiset(sorted[..n]))
  {
    var kept, left := sorted[..n], sorted[n..];
    forall x, y | x in left && y in kept ensures ItemLe(x, y) { PrefixAbove(sorted, n, x, y); }
    hide Sorted, ItemLe;
    assert sorted == kept + left;
    SplitMultiset(kept, left);
  }

  lemma SplitMultiset(kept: seq<Item>, left: seq<Item>)
    ensures multiset(kept) <= multiset(kept + left)
    ensures multiset(kept + left) - multiset(kept) == multiset(left)
    ensures |multiset(kept)| == |kept| && |multiset(kept + left)| == |kept + left|
  {
    assert multiset(kept + left) == multiset(kept) + multiset(left);
  }

  lemma AboveOrder()
    ensures TotalPreorder(Above)
  {
    ItemOrder();
  }

  lemma SortAndTakeIsTop(items: seq<Item>, k: nat)
    ensures Top(multiset(items), k, multiset(SortAndTake(items, k)))
  {
    AboveOrder();
    StableSortMultiset(items, Above);
    StableSortSorted(items, Above);
    hide Top, Sorted;
    PrefixIsTop(StableSort(items, Above), Least(k, |items|), k);
  }

  lemma SubsetOfSameSize(a: multiset<Item>, b: multiset<Item>)
    requires a <= b && |a| == |b|
    ensures a == b
  {
    assert b == a + (b - a);
  }

  lemma SomeExcess(a: multiset<Item>, b: multiset<Item>) returns (x: Item)
    requires |a| == |b| && a != b
    ensures a[x] > b[x]
  {
    assert !(a <= b) by {
      if a <= b { SubsetOfSameSize(a, b); }
    }
    x :| x in a && a[x] > b[x];
  }

  /** There is only one such selection. */
  lemma TopIsUnique(all: multiset<Item>, k: nat, a: multiset<Item>, b: multiset<Item>)
    requires Top(all, k, a) && Top(all, k, b)
    ensures a == b
  {
    if a != b {
      var x := SomeExcess(a, b);
      var y := SomeExcess(b, a);
      assert x in all - b && y in b && y in all - a && x in a;
      ItemOrder();
      assert false;
    }
  }

  lemma KeepAll(all: multiset<Item>, k: nat, m: multiset<Item>, item: Item)
    requires Top(all, k, m) && |m| < k
    ensures Top(all + multiset{item}, k, m + multiset{item})
  {
    assert all == m + (all - m);
    assert |all - m| == 0;
    assert all == m;
  }

  lemma KeepHeap(all: multiset<Item>, k: nat, m: multiset<Item>, item: Item, root: Item)
    requires Top(all, k, m) && |m| == k && ItemLe(item, root) && forall y :: y in m ==> ItemLe(root, y)
    ensures Top(all + multiset{item}, k, m)
  {
    ItemOrder();
    assert all + multiset{item} - m == (all - m) + multiset{item};
  }

  lemma DropRoot(all: multiset<Item>, k: nat, m: multiset<Item>, item: Item, root: Item)
    requires Top(all, k, m) && |m| == k && root in m && ItemLe(root, item) && forall y :: y in m ==> ItemLe(root, y)
    ensures Top(all + multiset{item}, k, m - multiset{root} + multiset{item})
  {
    ItemOrder();
    var all', m' := all + multiset{item}, m - multiset{root} + multiset{item};
    assert all' - m' == (all - m) + multiset{root};
    forall x, y | x in all' - m' && y in m' ensures ItemLe(x, y) {
      assert x == root || x in all - m;
      assert y == item || y in m;
      if x in all - m { assert ItemLe(x, root); }
    }
  }

  /** One row offered to the heap of its label. */
  method Offer(heap: seq<Item>, k: nat, item: Item, ghost all: multiset<Item>) returns (r: seq<Item>)
    requires k >= 1 && Heap(heap) && Top(all, k, multiset(heap))
    ensures Heap(r) && Top(all + multiset{item}, k, multiset(r))
  {
    if |heap| < k {
      KeepAll(all, k, multiset(heap), item);
      r := Push(heap, item);
    } else {
      forall y | y in multiset(heap) ensures ItemLe(heap[0], y) {
        var i :| 0 <= i < |heap| && heap[i] == y;
        RootIsLeast(heap, i);
      }
      ItemOrder();
      if Less(heap[0], item) {
        DropRoot(all, k, multiset(heap), item, heap[0]);
        r := Replace(heap, item);
      } else {
        KeepHeap(all, k, multiset(heap), item, heap[0]);
        r := heap;
      }
    }
  }

  /******* The stream *******/

  ghost predicate HeapsHold(heaps: map<string, seq<Item>>, rows: seq<Row>, score: Score, k: nat) {
    && (forall tag :: tag in heaps <==> exists row :: row in rows && row.tag == tag)
    && (forall tag :: tag in heaps ==> Heap(heaps[tag]) && Top(multiset(Items(rows, score, tag)), k, multiset(heaps[tag])))
  }

  lemma NoItems(rows: seq<Row>, score: Score, tag: string)
    requires forall row :: row in rows ==> row.tag != tag
    ensures Items(rows, score, tag) == []
  {
    if rows != [] {
      assert rows[|rows| - 1] in rows;
      NoItems(rows[..|rows| - 1], score, tag);
    }
  }

  lemma ItemsStep(rows: seq<Row>, row: Row, score: Score, tag: string)
    ensures multiset(Items(rows + [row], score, tag)) ==
      multiset(Items(rows, score, tag)) + if row.tag == tag then multiset{ItemOf(score, row)} else multiset{}
  {
    assert (rows + [row])[..|rows|] == rows;
  }

  lemma HeapsStep(heaps: map<string, seq<Item>>, rows: seq<Row>, row: Row, score: Score, k: nat, after: seq<Item>)
    requires HeapsHold(heaps, rows, score, k)
    requires Heap(after) && Top(multiset(Items(rows, score, row.tag)) + multiset{ItemOf(score, row)}, k, multiset(after))
    ensures HeapsHold(heaps[row.tag := after], rows + [row], score, k)
  {
    var r := heaps[row.tag := after];
    forall tag | tag in r
      ensures Heap(r[tag]) && Top(multiset(Items(rows + [row], score, tag)), k, multiset(r[tag]))
    {
      ItemsStep(rows, row, score, tag);
    }
    assert row in rows + [row];
    forall tag ensures tag in r <==> exists x :: x in rows + [row] && x.tag == tag {
      if tag in heaps {
        var x :| x in rows && x.tag == tag;
        assert x in rows + [row];
      }
    }
  }

  method AddRow(heaps: map<string, seq<Item>>, ghost rows: seq<Row>, row: Row, score: Score, k: nat)
    returns (r: map<string, seq<Item>>)
    requires k >= 1 && HeapsHold(heaps, rows, score, k)
    ensures HeapsHold(r, rows + [row], score, k)
  {
    var heap := if row.tag in heaps then heaps[row.tag] else [];
    if row.tag !in heaps {
      NoItems(rows, score, row.tag);
    }
    var after := Offer(heap, k, ItemOf(score, row), multiset(Items(rows, score, row.tag)));
    r := heaps[row.tag := after];
    HeapsStep(heaps, rows, row, score, k, after);
  }

  ghost predicate DistinctIds(rows: seq<Row>) {
    forall i, j :: 0 <= i < j < |rows| ==> rows[i].id != rows[j].id
  }

  /** The row is among the k of its label that sort-and-take would keep. */
  ghost predicate Chosen(rows: seq<Row>, score: Score, k: nat, row: Row) {
    row in rows && ItemOf(score, row) in SortAndTake(Items(rows, score, row.tag), k)
  }

  /** Every item of a label comes from a row with that label. */
  lemma {:induction false} ItemsFrom(rows: seq<Row>, score: Score, tag: string, item: Item)
    ensures item in Items(rows, score, tag) <==> exists row :: row in rows && row.tag == tag && ItemOf(score, row) == item
  {
    if rows != [] {
      var front, last := rows[..|rows| - 1], rows[|rows| - 1];
      ItemsFrom(front, score, tag, item);
      assert rows == front + [last];
      if last.tag == tag && ItemOf(score, last) == item { assert last in rows; }
      if item in Items(front, score, tag) {
        var row :| row in front && row.tag == tag && ItemOf(score, row) == item;
        assert row in rows;
      }
    }
  }

  /** The heap of a label holds exactly the chosen rows of that label. */
  lemma HeapIsChosen(heap: seq<Item>, rows: seq<Row>, score: Score, k: nat, tag: string)
    requires Top(multiset(Items(rows, score, tag)), k, multiset(heap))
    ensures multiset(heap) == multiset(SortAndTake(Items(rows, score, tag), k))
    ensures forall row: Row :: row in rows && row.tag == tag ==> (ItemOf(score, row) in heap <==> Chosen(rows, score, k, row))
    ensures forall item :: item in heap ==> exists row :: row in rows && row.tag == tag && ItemOf(score, row) == item
  {
    var kept := SortAndTake(Items(rows, score, tag), k);
    SortAndTakeIsTop(Items(rows, score, tag), k);
    TopIsUnique(multiset(Items(rows, score, tag)), k, multiset(heap), multiset(kept));
    forall item ensures item in heap <==> item in kept {
      assert item in heap <==> item in multiset(heap);
      assert item in kept <==> item in multiset(kept);
    }
    forall item | item in heap ensures exists row :: row in rows && row.tag == tag && ItemOf(score, row) == item {
      assert item in multiset(heap);
      assert item in multiset(Items(rows, score, tag));
      ItemsFrom(rows, score, tag, item);
    }
  }

  lemma SameIdSameRow(rows: seq<Row>, a: Row, b: Row)
    requires DistinctIds(rows) && a in rows && b in rows && a.id == b.id
    ensures a == b
  {
    var i :| 0 <= i < |rows| && rows[i] == a;
    var j :| 0 <= j < |rows| && rows[j] == b;
    assert i == j;
  }

  /** The dictionary maps exactly the chosen identifiers, each to its own label. */
  ghost predicate MapsChosen(result: map<string, string>, rows: seq<Row>, score: Score, k: nat, tags: set<string>) {
    && (forall row :: row in rows && row.tag in tags ==> (row.id in result <==> Chosen(rows, score, k, row)))
    && (forall id :: id in result ==> exists row :: row in rows && row.tag in tags && row.id == id && result[id] == row.tag)
  }

  /** `{identifier: label for _, identifier in heap}` laid over what is there. */
  ghost predicate Overlaid(before: map<string, string>, tag: string, heap: seq<Item>, result: map<string, string>) {
    && (forall id :: id in result <==> id in before || exists j :: 0 <= j < |heap| && heap[j].id == id)
    && (forall j :: 0 <= j < |heap| ==> result[heap[j].id] == tag)
    && (forall id :: id in result && (forall j :: 0 <= j < |heap| ==> heap[j].id != id) ==> result[id] == before[id])
  }

  method Overlay(before: map<string, string>, tag: string, heap: seq<Item>) returns (result: map<string, string>)
    ensures Overlaid(before, tag, heap, result)
  {
    result := before;
    for i := 0 to |heap|
      invariant forall id :: id in result <==> id in before || exists j :: 0 <= j < i && heap[j].id == id
      invariant forall j :: 0 <= j < i ==> result[heap[j].id] == tag
      invariant forall id :: id in result && (forall j :: 0 <= j < i ==> heap[j].id != id) ==> id in before && result[id] == before[id]
    {
      result := result[heap[i].id := tag];
    }
  }

  lemma OverlayMaps(before: map<string, string>, tag: string, heap: seq<Item>, result: map<string, string>,
                    rows: seq<Row>, score: Score, k: nat, tags: set<string>)
    requires DistinctIds(rows) && tag !in tags && MapsChosen(before, rows, score, k, tags)
    requires Top(multiset(Items(rows, score, tag)), k, multiset(heap))
    requires Overlaid(before, tag, heap, result)
    ensures MapsChosen(result, rows, score, k, tags + {tag})
  {
    hide Top, Chosen, SortAndTake, Items, DistinctIds;
    forall row | row in rows && row.tag in tags + {tag}
      ensures row.id in result <==> Chosen(rows, score, k, row)
    {
      ChosenInHeap(before, heap, rows, score, k, tags, tag, row);
    }
    HeapIsChosen(heap, rows, score, k, tag);
    forall id | id in result
      ensures exists row :: row in rows && row.tag in tags + {tag} && row.id == id && result[id] == row.tag
    {
      if j :| 0 <= j < |heap| && heap[j].id == id {
        assert heap[j] in heap;
        var row :| row in rows && row.tag == tag && ItemOf(score, row) == heap[j];
        assert row.id == id && row.tag in tags + {tag};
      } else {
        var row :| row in rows && row.tag in tags && row.id == id && before[id] == row.tag;
        assert row.tag in tags + {tag};
      }
    }
  }

  lemma ChosenInHeap(before: map<string, string>, heap: seq<Item>, rows: seq<Row>, score: Score, k: nat,
                     tags: set<string>, tag: string, row: Row)
    requires DistinctIds(rows) && tag !in tags && MapsChosen(before, rows, score, k, tags)
    requires Top(multiset(Items(rows, score, tag)), k, multiset(heap))
    requires row in rows && row.tag in tags + {tag}
    ensures row.id in before || (exists j :: 0 <= j < |heap| && heap[j].id == row.id) <==> Chosen(rows, score, k, row)
  {
    HeapIsChosen(heap, rows, score, k, tag);
    if j :| 0 <= j < |heap| && heap[j].id == row.id {
      assert heap[j] in heap;
      var other :| other in rows && other.tag == tag && ItemOf(score, other) == heap[j];
      SameIdSameRow(rows, other, row);
    }
    if row.id in before {
      var other :| other in rows && other.tag in tags && other.id == row.id && before[row.id] == other.tag;
      SameIdSameRow(rows, other, row);
    }
    if row.tag == tag && Chosen(rows, score, k, row) {
      var j :| 0 <= j < |heap| && heap[j] == ItemOf(score, row);
    }
  }

  /******* What is chosen *******/

  ghost function ItemIds(items: seq<Item>): set<string> {
    set item | item in items :: item.id
  }

  lemma {:induction false} IdCount(items: seq<Item>)
    ensures |ItemIds(items)| <= |items|
    ensures (forall i, j :: 0 <= i < j < |items| ==> items[i].id != items[j].id) <==> |ItemIds(items)| == |items|
  {
    if items != [] {
      var front, last := items[..|items| - 1], items[|items| - 1];
      IdCount(front);
      assert items == front + [last];
      assert ItemIds(items) == ItemIds(front) + {last.id};
      DistinctStep(front, last);
      hide ItemIds;
      assert last.id in ItemIds(front) ==> ItemIds(front) + {last.id} == ItemIds(front);
    }
  }

  lemma DistinctStep(front: seq<Item>, last: Item)
    ensures
      var items := front + [last];
      (forall i, j :: 0 <= i < j < |items| ==> items[i].id != items[j].id) <==>
      last.id !in ItemIds(front) && forall i, j :: 0 <= i < j < |front| ==> front[i].id != front[j].id
  {
    var items := front + [last];
    if last.id in ItemIds(front) {
      var i :| 0 <= i < |front| && front[i].id == last.id;
      assert items[i].id == items[|front|].id;
    }
    if forall i, j :: 0 <= i < j < |items| ==> items[i].id != items[j].id {
      forall i, j | 0 <= i < j < |front| ensures front[i].id != front[j].id { assert items[i] == front[i] && items[j] == front[j]; }
    }
    forall i | 0 <= i < |front| ensures front[i] in front {}
  }

  ghost function LabelIds(rows: seq<Row>, tag: string): set<string> {
    set row | row in rows && row.tag == tag :: row.id
  }

  /** Distinct rows of a label give as many items with distinct identifiers. */
  lemma {:induction false} ItemsDistinct(rows: seq<Row>, score: Score, tag: string)
    requires DistinctIds(rows)
    ensures ItemIds(Items(rows, score, tag)) == LabelIds(rows, tag)
    ensures |Items(rows, score, tag)| == |LabelIds(rows, tag)|
  {
    if rows != [] {
      var front, last := rows[..|rows| - 1], rows[|rows| - 1];
      ItemsDistinct(front, score, tag);
      OneMoreId(front, last, score, tag);
      hide DistinctIds, ItemIds, LabelIds;
      assert rows == front + [last];
      if last.tag == tag { assert |LabelIds(front, tag) + {last.id}| == |LabelIds(front, tag)| + 1; }
    }
  }

  lemma OneMoreId(front: seq<Row>, last: Row, score: Score, tag: string)
    requires DistinctIds(front + [last])
    ensures DistinctIds(front) && last.id !in LabelIds(front, tag)
    ensures LabelIds(front + [last], tag) == LabelIds(front, tag) + if last.tag == tag then {last.id} else {}
    ensures forall items :: ItemIds(items + [ItemOf(score, last)]) == ItemIds(items) + {last.id}
  {
    var rows := front + [last];
    forall row | row in front ensures row.id != last.id {
      var i :| 0 <= i < |front| && front[i] == row;
      assert rows[i] == row && rows[|front|] == last;
    }
    forall i, j | 0 <= i < j < |front| ensures front[i].id != front[j].id { assert rows[i] == front[i] && rows[j] == front[j]; }
  }

  /** Chosen rows of a label are the k with the lowest scores, or all of them when there are fewer. */
  lemma ChosenCount(rows: seq<Row>, score: Score, k: nat, tag: string)
    requires DistinctIds(rows)
    ensures |set row | row in rows && row.tag == tag && Chosen(rows, score, k, row) :: row.id| == Least(k, |LabelIds(rows, tag)|)
  {
    var items := Items(rows, score, tag);
    var sorted := StableSort(items, Above);
    var kept := SortAndTake(items, k);
    ItemsDistinct(rows, score, tag);
    IdCount(items);
    StableSortMultiset(items, Above);
    StableSortMembers(items, Above);
    assert ItemIds(sorted) == ItemIds(items);
    IdCount(sorted);
    IdCount(kept);
    assert kept == sorted[..Least(k, |items|)];
    var ids := set row | row in rows && row.tag == tag && Chosen(rows, score, k, row) :: row.id;
    forall id ensures id in ids <==> id in ItemIds(kept) {
      if id in ItemIds(kept) {
        var item :| item in kept && item.id == id;
        assert item in sorted && item in items;
        ItemsFrom(rows, score, tag, item);
        var row :| row in rows && row.tag == tag && ItemOf(score, row) == item;
        assert row.id == id && Chosen(rows, score, k, row);
      }
      if id in ids {
        var row :| row in rows && row.tag == tag && Chosen(rows, score, k, row) && row.id == id;
        assert ItemOf(score, row) in kept;
      }
    }
    assert ids == ItemIds(kept);
  }

  /** No row left out of its label scores lower than one that was chosen; of equal scores the greater identifier stays. */
  lemma LowestAreChosen(rows: seq<Row>, score: Score, k: nat, a: Row, b: Row)
    requires Chosen(rows, score, k, a) && b in rows && b.tag == a.tag && !Chosen(rows, score, k, b)
    ensures score(a.tag, a.id) <= score(b.tag, b.id)
    ensures score(a.tag, a.id) == score(b.tag, b.id) ==> TextLe(b.id, a.id)
  {
    var items := Items(rows, score, a.tag);
    var kept := multiset(SortAndTake(items, k));
    SortAndTakeIsTop(items, k);
    ItemsFrom(rows, score, a.tag, ItemOf(score, b));
    assert ItemOf(score, b) in multiset(items) && ItemOf(score, b) !in kept;
    assert ItemOf(score, b) in multiset(items) - kept;
    assert ItemOf(score, a) in kept;
    hide SortAndTake, Items;
  }

  method FillHeaps(rows: seq<Row>, score: Score, k: nat) returns (heaps: map<string, seq<Item>>)
    requires k >= 1
    ensures HeapsHold(heaps, rows, score, k)
  {
    heaps := map[];
    for i := 0 to |rows|
      invariant HeapsHold(heaps, rows[..i], score, k)
    {
      assert rows[..i + 1] == rows[..i] + [rows[i]];
      heaps := AddRow(heaps, rows[..i], rows[i], score, k);
    }
    assert rows[..|rows|] == rows;
  }

  /**
   For distinct identifiers, each label keeps exactly the rows sort-and-take keeps.  With no room at
   all the first row finds an empty heap, and reading its root raises `IndexError` (None).
  */
  method SelectLowestHash(rows: seq<Row>, score: Score, perLabel: int) returns (selected: Option<map<string, string>>)
    ensures selected.None? <==> perLabel < 1 && rows != []
    ensures selected.Some? && perLabel >= 1 && DistinctIds(rows) ==>
      && (forall row :: row in rows ==> (row.id in selected.value <==> Chosen(rows, score, perLabel, row)))
      && (forall id :: id in selected.value ==> exists row :: row in rows && row.id == id && selected.value[id] == row.tag)
    ensures rows == [] ==> selected == Some(map[])
  {
    if rows == [] {
      return Some(map[]);
    }
    if perLabel < 1 {
      return None;
    }
    var heaps := FillHeaps(rows, score, perLabel);
    assert forall row :: row in rows ==> row.tag in heaps;
    hide HeapsHold, Chosen, DistinctIds;
    var result := MergeHeaps(heaps, rows, score, perLabel);
    return Some(result);
  }

  method MergeHeaps(heaps: map<string, seq<Item>>, ghost rows: seq<Row>, ghost score: Score, ghost k: nat)
    returns (result: map<string, string>)
    requires HeapsHold(heaps, rows, score, k)
    ensures DistinctIds(rows) ==> MapsChosen(result, rows, score, k, heaps.Keys)
  {
    hide Top, Chosen, DistinctIds, Heap, Items, SortAndTake;
    assert forall tag :: tag in heaps ==> Top(multiset(Items(rows, score, tag)), k, multiset(heaps[tag]));
    hide HeapsHold;
    result := map[];
    var rest := heaps.Keys;
    while rest != {}
      invariant rest <= heaps.Keys
      invariant DistinctIds(rows) ==> MapsChosen(result, rows, score, k, heaps.Keys - rest)
    {
      var tag :| tag in rest;
      ghost var before, tags := result, heaps.Keys - rest;
      result := Overlay(result, tag, heaps[tag]);
      if DistinctIds(rows) { OverlayMaps(before, tag, heaps[tag], result, rows, score, k, tags); }
      assert tags + {tag} == heaps.Keys - (rest - {tag});
      rest := rest - {tag};
    }
    assert heaps.Keys - {} == heaps.Keys;
  }

  /** Which rows are kept does not depend on the order they arrive in. */
  lemma OrderDoesNotMatter(a: seq<Row>, b: seq<Row>, score: Score, k: nat, row: Row)
    requires multiset(a) == multiset(b)
    ensures Chosen(a, score, k, row) <==> Chosen(b, score, k, row)
  {
    ItemsPermute(a, b, score, row.tag);
    var items, items' := Items(a, score, row.tag), Items(b, score, row.tag);
    SortAndTakeIsTop(items, k);
    SortAndTakeIsTop(items', k);
    TopIsUnique(multiset(items), k, multiset(SortAndTake(items, k)), multiset(SortAndTake(items', k)));
    assert row in a <==> row in multiset(a);
    assert row in b <==> row in multiset(b);
    var x := ItemOf(score, row);
    assert x in SortAndTake(items, k) <==> x in multiset(SortAndTake(items, k));
    assert x in SortAndTake(items', k) <==> x in multiset(SortAndTake(items', k));
  }

  /** Two rearrangements stay so when the last row of one is taken out of both. */
  lemma TakeOut(a: seq<Row>, b: seq<Row>) returns (i: nat)
    requires a != [] && multiset(a) == multiset(b)
    ensures i < |b| && b == b[..i] + [a[|a| - 1]] + b[i + 1..]
    ensures multiset(a[..|a| - 1]) == multiset(b[..i] + b[i + 1..])
  {
    var front, last := a[..|a| - 1], a[|a| - 1];
    assert a == front + [last];
    assert last in multiset(b);
    i :| i < |b| && b[i] == last;
    assert b == b[..i] + [last] + b[i + 1..];
    assert multiset(b) == multiset(b[..i] + b[i + 1..]) + multiset{last};
    assert multiset(a) == multiset(front) + multiset{last};
    assert multiset(front) == multiset(a) - multiset{last};
  }

  lemma ItemsWithout(before: seq<Row>, last: Row, after: seq<Row>, score: Score, tag: string)
    ensures multiset(Items(before + [last] + after, score, tag)) ==
            multiset(Items(before + after, score, tag)) + multiset(Items([last], score, tag))
  {
    ItemsConcat(before + [last], after, score, tag);
    ItemsConcat(before, after, score, tag);
    ItemsConcat(before, [last], score, tag);
    hide Items;
  }

  lemma {:induction false} ItemsPermute(a: seq<Row>, b: seq<Row>, score: Score, tag: string)
    requires multiset(a) == multiset(b)
    ensures multiset(Items(a, score, tag)) == multiset(Items(b, score, tag))
    decreases |a|
  {
    if a == [] {
      assert |b| == |multiset(b)| == 0;
    } else {
      hide Items;
      var front, last := a[..|a| - 1], a[|a| - 1];
      var i := TakeOut(a, b);
      ItemsPermute(front, b[..i] + b[i + 1..], score, tag);
      LastItem(a, score, tag);
      ItemsWithout(b[..i], last, b[i + 1..], score, tag);
    }
  }

  lemma LastItem(a: seq<Row>, score: Score, tag: string)
    requires a != []
    ensures multiset(Items(a, score, tag)) == multiset(Items(a[..|a| - 1], score, tag)) + multiset(Items([a[|a| - 1]], score, tag))
  {
    assert a == a[..|a| - 1] + [a[|a| - 1]];
    ItemsConcat(a[..|a| - 1], [a[|a| - 1]], score, tag);
    hide Items;
  }

  lemma {:induction false} ItemsConcat(a: seq<Row>, b: seq<Row>, score: Score, tag: string)
    ensures Items(a + b, score, tag) == Items(a, score, tag) + Items(b, score, tag)
  {
    if b == [] {
      assert a + b == a;
    } else {
      ItemsConcat(a, b[..|b| - 1], score, tag);
      assert (a + b)[..|a + b| - 1] == a + b[..|b| - 1];
    }
  }
}
