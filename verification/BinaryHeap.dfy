/**
 The two `heapq` operations the streaming selection uses, on (-score, identifier) items.

 A heap is a list whose every element is at or above its parent, the element at (i - 1) / 2.
*/
module BinaryHeap {
  import opened Ordering

  datatype Item = Item(negScore: int, id: string)

  /** Tuple order. */
  predicate ItemLe(a: Item, b: Item) {
    a.negScore < b.negScore || (a.negScore == b.negScore && TextLe(a.id, b.id))
  }

  predicate Less(a: Item, b: Item) {
    ItemLe(a, b) && a != b
  }

  lemma ItemOrder()
    ensures TotalOrder(ItemLe)
  {
    TextOrder();
  }

  function Parent(i: nat): nat
    requires i > 0
  {
    (i - 1) / 2
  }

  ghost predicate Heap(h: seq<Item>) {
    forall i :: 0 < i < |h| ==> ItemLe(h[Parent(i)], h[i])
  }

  /** A heap but for the element at pos, which may be below its parent; its children are not. */
  ghost predicate HeapBut(h: seq<Item>, pos: nat)
    requires pos < |h|
  {
    && (forall i :: 0 < i < |h| && i != pos ==> ItemLe(h[Parent(i)], h[i]))
    && (forall i :: 0 < i < |h| && pos > 0 && Parent(i) == pos ==> ItemLe(h[Parent(pos)], h[i]))
  }

  /** A heap with a hole at pos: nothing is said of the element there. */
  ghost predicate HeapAround(h: seq<Item>, pos: nat)
    requires pos < |h|
  {
    && (forall i :: 0 < i < |h| && i != pos && Parent(i) != pos ==> ItemLe(h[Parent(i)], h[i]))
    && (forall i :: 0 < i < |h| && pos > 0 && Parent(i) == pos ==> ItemLe(h[Parent(pos)], h[i]))
  }

  /** The root is the least element. */
  lemma {:induction false} RootIsLeast(h: seq<Item>, i: nat)
    requires Heap(h) && i < |h|
    ensures ItemLe(h[0], h[i])
    decreases i
  {
    ItemOrder();
    if i > 0 {
      RootIsLeast(h, Parent(i));
    }
  }

  lemma SwapMultiset(h: seq<Item>, i: nat, j: nat, x: Item)
    requires i < |h| && j < |h| && i != j
    ensures multiset(h[i := h[j]][j := x]) == multiset(h[i := x])
  {
    var a, b := h[i := x], h[i := h[j]][j := x];
    assert multiset(a) == multiset(h) - multiset{h[i]} + multiset{x};
    assert multiset(h[i := h[j]]) == multiset(h) - multiset{h[i]} + multiset{h[j]};
    assert h[i := h[j]][j] == h[j];
  }

  /** Moving the parent down into the hole keeps everything but the new hole in order. */
  lemma ParentMovesDown(h: seq<Item>, pos: nat, item: Item)
    requires 0 < pos < |h| && HeapBut(h[pos := item], pos) && Less(item, h[Parent(pos)])
    ensures HeapBut(h[pos := h[Parent(pos)]][Parent(pos) := item], Parent(pos))
  {
    ItemOrder();
    var p := Parent(pos);
    var before, after := h[pos := item], h[pos := h[p]][p := item];
    assert before[p] == h[p];
    forall i | 0 < i < |h| && i != p ensures ItemLe(after[Parent(i)], after[i]) {
      if i == pos {
      } else if Parent(i) == pos {
        assert ItemLe(before[p], before[i]);
      } else if Parent(i) == p {
        assert ItemLe(before[p], before[i]);
      } else {
        assert ItemLe(before[Parent(i)], before[i]);
      }
    }
    forall i | 0 < i < |h| && p > 0 && Parent(i) == p ensures ItemLe(after[Parent(p)], after[i]) {
      assert ItemLe(before[Parent(p)], before[p]);
      if i != pos { assert ItemLe(before[p], before[i]); }
    }
  }

  /** `_siftdown(heap, 0, pos)`, with the new item already taken out of the hole at pos. */
  method SiftDown(h: seq<Item>, start: nat, item: Item) returns (r: seq<Item>)
    requires start < |h| && HeapBut(h[start := item], start)
    ensures Heap(r) && multiset(r) == multiset(h[start := item]) && |r| == |h|
  {
    ItemOrder();
    r := h;
    var pos: nat := start;
    while pos > 0
      invariant pos < |r| == |h|
      invariant HeapBut(r[pos := item], pos)
      invariant multiset(r[pos := item]) == multiset(h[start := item])
    {
      var parent := (pos - 1) / 2;
      if !Less(item, r[parent]) {
        break;
      }
      ParentMovesDown(r, pos, item);
      SwapMultiset(r, pos, parent, item);
      r := r[pos := r[parent]];
      pos := parent;
    }
    r := r[pos := item];
  }

  /** `heapq.heappush` */
  method Push(h: seq<Item>, item: Item) returns (r: seq<Item>)
    requires Heap(h)
    ensures Heap(r) && multiset(r) == multiset(h) + multiset{item} && |r| == |h| + 1
  {
    var extended := h + [item];
    assert extended[|h| := item] == extended;
    r := SiftDown(extended, |h|, item);
  }

  /** Moving the smaller child up into the hole moves the hole down. */
  lemma ChildMovesUp(h: seq<Item>, pos: nat, child: nat)
    requires pos < child < |h| && Parent(child) == pos && HeapAround(h, pos)
    requires forall i :: 0 < i < |h| && Parent(i) == pos ==> ItemLe(h[child], h[i])
    ensures HeapAround(h[pos := h[child]], child)
  {
  }

  lemma LeafHole(h: seq<Item>, pos: nat, item: Item)
    requires pos < |h| && HeapAround(h, pos) && 2 * pos + 1 >= |h|
    ensures HeapBut(h[pos := item], pos)
  {
  }

  /** The smaller child of pos; the right one when they tie. */
  method SmallerChild(h: seq<Item>, pos: nat) returns (child: nat)
    requires 2 * pos + 1 < |h|
    ensures pos < child < |h| && Parent(child) == pos
    ensures forall i :: 0 < i < |h| && Parent(i) == pos ==> ItemLe(h[child], h[i])
  {
    ItemOrder();
    child := 2 * pos + 1;
    if child + 1 < |h| && !Less(h[child], h[child + 1]) {
      child := child + 1;
    }
    assert forall i :: 0 < i < |h| && Parent(i) == pos ==> i == 2 * pos + 1 || i == 2 * pos + 2;
  }

  /** The first half of `_siftup`: the hole at the root walks down to a leaf. */
  method WalkHole(h: seq<Item>, ghost item: Item) returns (r: seq<Item>, pos: nat)
    requires Heap(h) && h != []
    ensures pos < |r| == |h| && 2 * pos + 1 >= |r| && HeapAround(r, pos)
    ensures multiset(r[pos := item]) == multiset(h[0 := item])
  {
    r, pos := h, 0;
    assert HeapAround(r, 0);
    hide Heap, HeapAround, ItemLe;
    while 2 * pos + 1 < |r|
      invariant pos < |r| == |h| && HeapAround(r, pos)
      invariant multiset(r[pos := item]) == multiset(h[0 := item])
      decreases |r| - pos
    {
      var child := SmallerChild(r, pos);
      ChildMovesUp(r, pos, child);
      SwapMultiset(r, pos, child, item);
      r := r[pos := r[child]];
      pos := child;
    }
  }

  /** `heapq.heapreplace` */
  method Replace(h: seq<Item>, item: Item) returns (r: seq<Item>)
    requires Heap(h) && h != []
    ensures Heap(r) && multiset(r) == multiset(h) - multiset{h[0]} + multiset{item} && |r| == |h|
  {
    var pos;
    r, pos := WalkHole(h, item);
    LeafHole(r, pos, item);
    assert multiset(h[0 := item]) == multiset(h) - multiset{h[0]} + multiset{item};
    r := SiftDown(r, pos, item);
  }
}
