/** The array heap of pose requests, kept the way Python's heapq keeps a list: an item is moved
    into a hole, the hole travels, and the item is written once at the end. */
module Heaps {
  import opened LatestFrames
  import opened Boxes

  datatype Priority = High | Medium | Low

  datatype PoseRequest = PoseRequest(
    cameraId: string, trackId: nat, frame: FramePacket, box: BoundingBox, priority: Priority, requestedAt: int)

  function Rank(p: Priority): nat {
    match p
    case High => 0
    case Medium => 1
    case Low => 2
  }

  /** HIGH is more urgent than the others, and MEDIUM than LOW. */
  predicate MoreUrgent(p: Priority, q: Priority) {
    (p.High? && !q.High?) || (p.Medium? && q.Low?)
  }

  /** The heap's order: rank first, then the older request. */
  predicate Before(a: PoseRequest, b: PoseRequest) {
    Rank(a.priority) < Rank(b.priority) || (a.priority == b.priority && a.requestedAt < b.requestedAt)
  }

  type Heap = seq<PoseRequest>

  function Parent(i: nat): nat
    requires i > 0
  {
    (i - 1) / 2
  }

  predicate InOrder(h: Heap, i: nat)
    requires 0 < i < |h|
  {
    !Before(h[i], h[Parent(i)])
  }

  /** Every item whose parent is at lo or later is not before its parent. */
  predicate HeapFrom(h: Heap, lo: nat) {
    forall i :: 0 < i < |h| && lo <= Parent(i) ==> InOrder(h, i)
  }

  predicate IsHeap(h: Heap) {
    HeapFrom(h, 0)
  }

  /** Going up from i by parents leads to root. */
  predicate Under(root: nat, i: nat) {
    i == root || (i > root && Under(root, Parent(i)))
  }

  lemma {:induction false} AllUnderTop(i: nat)
    ensures Under(0, i)
    decreases i
  {
    if i > 0 {
      AllUnderTop(Parent(i));
    }
  }

  /** Children of the item at pos are not before the item above pos. */
  predicate GrandchildrenInOrder(h: Heap, pos: nat)
    requires 0 < pos < |h|
  {
    forall c :: 0 < c < |h| && Parent(c) == pos ==> !Before(h[c], h[Parent(pos)])
  }

  /** Only the item at pos may be before its parent. */
  predicate RaisedAt(h: Heap, lo: nat, pos: nat) {
    && pos < |h| && Under(lo, pos)
    && (forall i :: 0 < i < |h| && i != pos && lo <= Parent(i) ==> InOrder(h, i))
    && (pos > lo ==> GrandchildrenInOrder(h, pos))
  }

  /** pos is a hole: nothing is known about the item written there. */
  predicate SunkAt(h: Heap, lo: nat, pos: nat) {
    && pos < |h| && Under(lo, pos)
    && (forall i :: 0 < i < |h| && i != pos && Parent(i) != pos && lo <= Parent(i) ==> InOrder(h, i))
    && (pos > lo ==> GrandchildrenInOrder(h, pos))
  }

  function Swapped(h: Heap, i: nat, j: nat): (g: Heap)
    requires i < |h| && j < |h|
    ensures |g| == |h| && multiset(g) == multiset(h)
  {
    h[i := h[j]][j := h[i]]
  }

  lemma RaiseStep(h: Heap, lo: nat, pos: nat)
    requires RaisedAt(h, lo, pos) && pos > lo && !InOrder(h, pos)
    ensures RaisedAt(Swapped(h, pos, Parent(pos)), lo, Parent(pos))
  {
    var (up, g) := (Parent(pos), Swapped(h, pos, Parent(pos)));
    forall i | 0 < i < |g| && i != up && lo <= Parent(i) ensures InOrder(g, i) {
      assert i != pos ==> InOrder(h, i);
    }
    if up > lo {
      assert Under(lo, Parent(up));
      assert InOrder(h, up);
      forall c | 0 < c < |g| && Parent(c) == up ensures !Before(g[c], g[Parent(up)]) {
        assert c != pos ==> InOrder(h, c);
      }
    }
  }

  /** The smaller child of pos goes into the hole, which moves to the child. */
  lemma SinkStep(h: Heap, lo: nat, pos: nat, child: nat)
    requires SunkAt(h, lo, pos) && 0 < child < |h| && Parent(child) == pos
    requires forall c :: 0 < c < |h| && Parent(c) == pos ==> !Before(h[c], h[child])
    ensures SunkAt(h[pos := h[child]], lo, child)
  {
    var g := h[pos := h[child]];
    forall i | 0 < i < |g| && i != child && Parent(i) != child && lo <= Parent(i) ensures InOrder(g, i) {
      assert i != pos && Parent(i) != pos ==> InOrder(h, i);
    }
    forall c | 0 < c < |g| && Parent(c) == child ensures !Before(g[c], g[Parent(child)]) {
      assert InOrder(h, c);
    }
  }

  /** Writing an item into a hole at a leaf. */
  lemma FillLeaf(h: Heap, lo: nat, pos: nat, x: PoseRequest)
    requires SunkAt(h, lo, pos) && 2 * pos + 1 >= |h|
    ensures RaisedAt(h[pos := x], lo, pos)
  {
    var g := h[pos := x];
    forall i | 0 < i < |g| && i != pos && lo <= Parent(i) ensures InOrder(g, i) {
      assert InOrder(h, i);
    }
  }

  /** The first item of a heap is before or equal to every other. */
  lemma {:induction false} TopIsLeast(h: Heap, i: nat)
    requires IsHeap(h) && i < |h|
    ensures !Before(h[i], h[0])
    decreases i
  {
    if i > 0 {
      TopIsLeast(h, Parent(i));
      assert InOrder(h, i);
    }
  }

  /** Moving the hole from pos to child, with x still to be written, permutes the items. */
  lemma HoleMoves(h: Heap, pos: nat, child: nat, x: PoseRequest)
    requires pos < |h| && child < |h| && pos != child
    ensures h[pos := h[child]][child := x] == Swapped(h[pos := x], pos, child)
    ensures multiset(h[pos := h[child]][child := x]) == multiset(h[pos := x])
  {
  }
}
