/** History records, their order (pyroflow/models.py, `UpdateRecord`), and the binary heap that
    `heapq` keeps in a list. */
module Heaps {
  /** A record, named by its construction sequence number; the handler and data it carries are
      looked up by that identity and play no part here. */
  datatype Record = Record(createdAt: real, sequence: nat)

  /** `__lt__` */
  predicate Less(a: Record, b: Record) {
    a.createdAt < b.createdAt || (a.createdAt == b.createdAt && a.sequence < b.sequence)
  }

  // ---------------------------------------------------------------- sorted lists

  predicate Leq(a: Record, b: Record) {
    !Less(b, a)
  }

  ghost predicate Sorted(s: seq<Record>) {
    forall i, j :: 0 <= i < j < |s| ==> Leq(s[i], s[j])
  }

  /** Insertion behind everything not greater. */
  function Insert(s: seq<Record>, r: Record): seq<Record> {
    if |s| > 0 && Less(r, s[|s| - 1]) then Insert(s[..|s| - 1], r) + [s[|s| - 1]] else s + [r]
  }

  /** `sorted(...)` */
  function Sort(s: seq<Record>): seq<Record> {
    if |s| == 0 then [] else Insert(Sort(s[..|s| - 1]), s[|s| - 1])
  }

  lemma {:induction false} InsertSorted(s: seq<Record>, r: Record)
    requires Sorted(s)
    ensures Sorted(Insert(s, r)) && multiset(Insert(s, r)) == multiset(s) + multiset{r}
    ensures |Insert(s, r)| == |s| + 1
  {
    if |s| > 0 {
      var front, last := s[..|s| - 1], s[|s| - 1];
      assert s == front + [last];
      if Less(r, last) {
        InsertSorted(front, r);
        forall x | x in Insert(front, r) ensures Leq(x, last) {
          assert x in multiset(Insert(front, r));
          assert x in front || x == r;
        }
      } else {
        forall i | 0 <= i < |s| ensures Leq(s[i], r) {
          assert i < |front| ==> Leq(s[i], last);
        }
      }
    }
  }

  lemma {:induction false} SortSorted(s: seq<Record>)
    ensures Sorted(Sort(s)) && multiset(Sort(s)) == multiset(s) && |Sort(s)| == |s|
  {
    hide Insert;
    if |s| > 0 {
      SortSorted(s[..|s| - 1]);
      InsertSorted(Sort(s[..|s| - 1]), s[|s| - 1]);
      assert s == s[..|s| - 1] + [s[|s| - 1]];
    }
  }

  lemma FirstLeast(s: seq<Record>, x: Record)
    requires Sorted(s) && x in s
    ensures Leq(s[0], x)
  {
    var i :| 0 <= i < |s| && s[i] == x;
    assert i == 0 || Leq(s[0], s[i]);
  }

  lemma SameLeast(a: seq<Record>, b: seq<Record>)
    requires Sorted(a) && Sorted(b) && multiset(a) == multiset(b) && |a| > 0
    ensures |b| > 0 && a[0] == b[0] && multiset(a[1..]) == multiset(b[1..])
  {
    assert |multiset(a)| == |multiset(b)|;
    assert a[0] in multiset(b) && b[0] in multiset(a);
    FirstLeast(a, b[0]);
    FirstLeast(b, a[0]);
    RestOf(a);
    RestOf(b);
  }

  lemma RestOf(s: seq<Record>)
    requires |s| > 0
    ensures multiset(s[1..]) == multiset(s) - multiset{s[0]}
  {
    assert s == [s[0]] + s[1..];
  }

  /** A list of records has one sorted arrangement. */
  lemma {:induction false} SortedUnique(a: seq<Record>, b: seq<Record>)
    requires Sorted(a) && Sorted(b) && multiset(a) == multiset(b)
    ensures a == b
  {
    if |a| == 0 {
      assert |multiset(b)| == 0;
    } else {
      SameLeast(a, b);
      SortedUnique(a[1..], b[1..]);
      assert a == [a[0]] + a[1..] && b == [b[0]] + b[1..];
    }
  }

  /** Lists with the same records sort alike. */
  lemma SortSame(a: seq<Record>, b: seq<Record>)
    requires multiset(a) == multiset(b)
    ensures Sort(a) == Sort(b)
  {
    SortSorted(a);
    SortSorted(b);
    SortedUnique(Sort(a), Sort(b));
  }

  // ---------------------------------------------------------------- heaps

  function Parent(i: nat): nat
    requires i > 0
  {
    (i - 1) / 2
  }

  ghost predicate Heap(h: seq<Record>) {
    forall i :: 0 < i < |h| ==> Leq(h[Parent(i)], h[i])
  }

  /** A heap but for the link above `pos`, across which the links below are still in order. */
  ghost predicate Sifting(h: seq<Record>, pos: nat) {
    && (forall i :: 0 < i < |h| && i != pos ==> Leq(h[Parent(i)], h[i]))
    && (forall i :: 0 < i < |h| && pos > 0 && pos < |h| && Parent(i) == pos ==> Leq(h[Parent(pos)], h[i]))
  }

  lemma {:induction false} HeapMinimum(h: seq<Record>, i: nat)
    requires Heap(h) && i < |h|
    ensures Leq(h[0], h[i])
  {
    if i > 0 {
      HeapMinimum(h, Parent(i));
    }
  }

  /** Moving the hole from `pos` to `to`, filling it behind with what was at `to`. */
  lemma HoleMoves(h: seq<Record>, pos: nat, to: nat, item: Record)
    requires pos < |h| && to < |h| && pos != to
    ensures h[pos := h[to]][to := item] == h[pos := item][pos := h[to]][to := item]
    ensures multiset(h[pos := h[to]][to := item]) == multiset(h[pos := item])
  {
    var filled := h[pos := h[to]];
    assert multiset(filled) == multiset(h) - multiset{h[pos]} + multiset{h[to]};
    assert multiset(filled[to := item]) == multiset(filled) - multiset{filled[to]} + multiset{item};
    assert multiset(h[pos := item]) == multiset(h) - multiset{h[pos]} + multiset{item};
  }

  lemma SiftStep(h: seq<Record>, pos: nat)
    requires 0 < pos < |h| && Sifting(h, pos) && Less(h[pos], h[Parent(pos)])
    ensures Sifting(h[pos := h[Parent(pos)]][Parent(pos) := h[pos]], Parent(pos))
  {
  }

  lemma SiftEnd(h: seq<Record>, pos: nat)
    requires pos < |h| && Sifting(h, pos) && (pos == 0 || !Less(h[pos], h[Parent(pos)]))
    ensures Heap(h)
  {
  }

  /** `heapq._siftdown(heap, 0, pos)`: move an item towards the root. */
  method SiftDown(heap: seq<Record>, start: nat) returns (h: seq<Record>)
    requires start < |heap| && Sifting(heap, start)
    ensures Heap(h) && multiset(h) == multiset(heap)
  {
    hide Sifting, Heap, Less;
    h := heap;
    var newItem, pos := heap[start], start;
    assert h[pos := newItem] == heap;
    while pos > 0
      invariant 0 <= pos < |h| && Sifting(h[pos := newItem], pos)
      invariant multiset(h[pos := newItem]) == multiset(heap)
    {
      var parent := h[Parent(pos)];
      if !Less(newItem, parent) {
        break;
      }
      SiftStep(h[pos := newItem], pos);
      HoleMoves(h, pos, Parent(pos), newItem);
      h := h[pos := parent];
      pos := Parent(pos);
    }
    h := h[pos := newItem];
    SiftEnd(h, pos);
  }

  /** `heapq.heappush` */
  method HeapPush(heap: seq<Record>, item: Record) returns (h: seq<Record>)
    requires Heap(heap)
    ensures Heap(h) && multiset(h) == multiset(heap) + multiset{item}
  {
    h := heap + [item];
    assert Sifting(h, |heap|);
    h := SiftDown(h, |heap|);
  }

  /** The smaller child's record moves up into the hole; the list stays a heap. */
  lemma MoveUp(h: seq<Record>, pos: nat, child: nat)
    requires Heap(h) && 0 < child < |h| && Parent(child) == pos
    requires forall i :: 0 < i < |h| && Parent(i) == pos ==> Leq(h[child], h[i])
    ensures Heap(h[pos := h[child]])
  {
  }

  lemma SmallerChild(h: seq<Record>, pos: nat, child: nat)
    requires pos < |h| && child in {2 * pos + 1, 2 * pos + 2} && child < |h|
    requires child == 2 * pos + 1 && 2 * pos + 2 < |h| ==> Less(h[2 * pos + 1], h[2 * pos + 2])
    requires child == 2 * pos + 2 ==> !Less(h[2 * pos + 1], h[2 * pos + 2])
    ensures forall i :: 0 < i < |h| && Parent(i) == pos ==> Leq(h[child], h[i])
  {
    assert forall i :: i > 0 && Parent(i) == pos ==> i == 2 * pos + 1 || i == 2 * pos + 2;
  }

  lemma LeafSifts(h: seq<Record>, pos: nat, item: Record)
    requires Heap(h) && pos < |h| <= 2 * pos + 1
    ensures Sifting(h[pos := item], pos)
  {
  }

  /** `heapq._siftup(heap, 0)` with `newItem` to place: walk the hole to a leaf along the smaller
      children, then sift down from there. The stale record at the root is the one overwritten. */
  method SiftUp(heap: seq<Record>, newItem: Record) returns (h: seq<Record>)
    requires |heap| > 0 && Heap(heap)
    ensures Heap(h) && multiset(h) == multiset(heap[0 := newItem])
  {
    hide Sifting, Heap, Less, Leq;
    h := heap;
    var pos, child := 0, 1;
    while child < |h|
      invariant |h| == |heap| && 0 <= pos < |h| && child == 2 * pos + 1
      invariant Heap(h)
      invariant multiset(h[pos := newItem]) == multiset(heap[0 := newItem])
      decreases |h| - pos
    {
      var right := child + 1;
      if right < |h| && !Less(h[child], h[right]) {
        child := right;
      }
      SmallerChild(h, pos, child);
      MoveUp(h, pos, child);
      HoleMoves(h, pos, child, newItem);
      h := h[pos := h[child]];
      pos := child;
      child := 2 * pos + 1;
    }
    LeafSifts(h, pos, newItem);
    h := SiftDown(h[pos := newItem], pos);
  }

  /** `heapq.heappop` */
  method HeapPop(heap: seq<Record>) returns (item: Record, h: seq<Record>)
    requires |heap| > 0 && Heap(heap)
    ensures item == heap[0] && Heap(h) && multiset(heap) == multiset(h) + multiset{item}
    ensures forall r :: r in heap ==> Leq(item, r)
  {
    forall r | r in heap ensures Leq(heap[0], r) {
      var i :| 0 <= i < |heap| && heap[i] == r;
      HeapMinimum(heap, i);
    }
    var last := heap[|heap| - 1];
    h := heap[..|heap| - 1];
    assert heap == h + [last];
    if |h| == 0 {
      return last, h;
    }
    item := h[0];
    assert h == [item] + h[1..] && h[0 := last] == [last] + h[1..];
    h := SiftUp(h, last);
  }
}
