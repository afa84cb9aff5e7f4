/** The bounded pose queue as the program keeps it, in place, on an array heap. Each method is
    proved against PoseQueueSpec. */
module PoseQueue {
  import opened Options
  import opened Heaps
  import opened PoseQueueSpec

  class BoundedPoseQueue {
    const maxsize: nat
    var heap: Heap
    var dropped: nat
    ghost var history: seq<Event>

    ghost predicate Valid()
      reads this
    {
      maxsize >= 1 && IsHeap(heap) && Accounts(maxsize, history, multiset(heap), dropped)
    }

    constructor (maxsize: nat)
      requires maxsize >= 1
      ensures Valid() && heap == [] && dropped == 0 && history == [] && this.maxsize == maxsize
    {
      this.maxsize := maxsize;
      heap := [];
      dropped := 0;
      history := [];
    }

    // ----- heapq on the list -----

    /** Moves the item at start up to its place, no higher than lo. */
    method SiftDown(lo: nat, start: nat)
      requires RaisedAt(heap, lo, start)
      modifies this`heap
      ensures HeapFrom(heap, lo) && multiset(heap) == old(multiset(heap))
    {
      var (pos, x) := (start, heap[start]);
      assert heap[pos := x] == heap;
      while pos > lo && Before(x, heap[Parent(pos)])
        invariant pos < |heap| && RaisedAt(heap[pos := x], lo, pos)
        invariant multiset(heap[pos := x]) == old(multiset(heap))
      {
        var up := Parent(pos);
        RaiseStep(heap[pos := x], lo, pos);
        HoleMoves(heap, pos, up, x);
        heap := heap[pos := heap[up]];
        pos := up;
      }
      heap := heap[pos := x];
    }

    /** Lets the item at start sink to a leaf, smaller children moving up, and then rise. */
    method SiftUp(start: nat)
      requires start < |heap| && HeapFrom(heap, start + 1)
      modifies this`heap
      ensures HeapFrom(heap, start) && multiset(heap) == old(multiset(heap)) && |heap| == old(|heap|)
    {
      var (pos, x) := (start, heap[start]);
      assert heap[pos := x] == heap;
      while 2 * pos + 1 < |heap|
        invariant SunkAt(heap, start, pos) && |heap| == old(|heap|)
        invariant multiset(heap[pos := x]) == old(multiset(heap))
        decreases |heap| - pos
      {
        var child := 2 * pos + 1;
        if child + 1 < |heap| && !Before(heap[child], heap[child + 1]) {
          child := child + 1;
        }
        SinkStep(heap, start, pos, child);
        HoleMoves(heap, pos, child, x);
        heap := heap[pos := heap[child]];
        pos := child;
      }
      FillLeaf(heap, start, pos, x);
      heap := heap[pos := x];
      SiftDown(start, pos);
      SameSize(heap, old(heap));
    }

    method Heapify()
      modifies this`heap
      ensures IsHeap(heap) && multiset(heap) == old(multiset(heap))
    {
      for i := |heap| / 2 downto 0
        invariant HeapFrom(heap, i) && multiset(heap) == old(multiset(heap)) && |heap| == old(|heap|)
      {
        SiftUp(i);
      }
    }

    method HeapPush(x: PoseRequest)
      requires IsHeap(heap)
      modifies this`heap
      ensures IsHeap(heap) && multiset(heap) == old(multiset(heap)) + multiset{x}
    {
      heap := heap + [x];
      AllUnderTop(|heap| - 1);
      AppendKeepsOrder(old(heap), x);
      SiftDown(0, |heap| - 1);
    }

    method HeapPop() returns (x: PoseRequest)
      requires IsHeap(heap) && heap != []
      modifies this`heap
      ensures IsHeap(heap) && Least(old(multiset(heap)), x)
      ensures multiset(heap) == old(multiset(heap)) - multiset{x}
    {
      FirstIsLeast(heap);
      var last := heap[|heap| - 1];
      assert heap == heap[..|heap| - 1] + [last];
      heap := heap[..|heap| - 1];
      if heap == [] {
        return last;
      }
      x := heap[0];
      heap := heap[0 := last];
      assert HeapFrom(heap, 1) by {
        ReplacedTop(old(heap), last);
      }
      SiftUp(0);
    }

    // ----- the queue -----

    method Put(request: PoseRequest) returns (accepted: bool, ghost outcome: Outcome)
      requires Valid()
      modifies this
      ensures Valid()
      ensures PutStep(maxsize, old(multiset(heap)), request, outcome) && accepted == !outcome.Rejected?
      ensures history == old(history) + [Offer(request, outcome)]
      ensures multiset(heap) == Apply(old(multiset(heap)), Offer(request, outcome))
      ensures dropped == old(dropped) + if outcome.Stored? then 0 else 1
    {
      accepted := true;
      ghost var held := multiset(heap);
      if |heap| < maxsize {
        outcome := Stored;
        HeapPush(request);
      } else {
        var k := WorstIndex(heap);
        var worst := heap[k];
        if Rank(request.priority) > Rank(worst.priority) {
          outcome := Rejected(worst);
          accepted := false;
        } else {
          outcome := Replaced(worst);
          heap := heap[k := request];
          Heapify();
        }
        dropped := dropped + 1;
      }
      Record(maxsize, history, held, old(dropped), Offer(request, outcome));
      history := history + [Offer(request, outcome)];
    }

    method Get() returns (request: Option<PoseRequest>)
      requires Valid()
      modifies this`heap, this`history
      ensures Valid()
      ensures history == old(history) + [Take(request)]
      ensures GetStep(old(multiset(heap)), request)
      ensures multiset(heap) == Apply(old(multiset(heap)), Take(request))
    {
      if heap == [] {
        Record(maxsize, history, multiset(heap), dropped, Take(None));
        history := history + [Take(None)];
        return None;
      }
      ghost var held := multiset(heap);
      var x := HeapPop();
      Record(maxsize, history, held, dropped, Take(Some(x)));
      history := history + [Take(Some(x))];
      return Some(x);
    }
  }

  lemma SameSize(a: Heap, b: Heap)
    requires multiset(a) == multiset(b)
    ensures |a| == |b|
  {
    assert |multiset(a)| == |a| && |multiset(b)| == |b|;
  }

  lemma AppendKeepsOrder(h: Heap, x: PoseRequest)
    requires IsHeap(h)
    ensures RaisedAt(h + [x], 0, |h|)
  {
    AllUnderTop(|h|);
    forall i | 0 < i < |h| ensures InOrder(h + [x], i) {
      assert InOrder(h, i);
    }
  }

  lemma FirstIsLeast(h: Heap)
    requires IsHeap(h) && h != []
    ensures Least(multiset(h), h[0])
  {
    forall y | y in multiset(h) ensures !Before(y, h[0]) {
      var i :| 0 <= i < |h| && h[i] == y;
      TopIsLeast(h, i);
    }
  }

  /** Dropping the last item and writing another over the first. */
  lemma ReplacedTop(h: Heap, x: PoseRequest)
    requires IsHeap(h) && |h| >= 2
    ensures HeapFrom(h[..|h| - 1][0 := x], 1)
  {
    var g := h[..|h| - 1][0 := x];
    forall i | 0 < i < |g| && 1 <= Parent(i) ensures InOrder(g, i) {
      assert InOrder(h, i);
    }
  }

  /** The first position holding a worst request, among the first n. */
  function WorstBelow(h: Heap, n: nat): (k: nat)
    requires 0 < n <= |h|
    ensures k < n
    ensures forall i :: 0 <= i < n ==> !Better(h[k], h[i])
    ensures forall i :: 0 <= i < k ==> Better(h[i], h[k])
  {
    if n == 1 then 0
    else
      var k := WorstBelow(h, n - 1);
      if Better(h[k], h[n - 1]) then n - 1 else k
  }

  /** Python's max over the positions by (rank, -time). */
  function WorstIndex(h: Heap): (k: nat)
    requires h != []
    ensures k < |h| && Worst(multiset(h), h[k])
    ensures forall i :: 0 <= i < k ==> Better(h[i], h[k])
  {
    var k := WorstBelow(h, |h|);
    assert forall y :: y in multiset(h) ==> !Better(h[k], y) by {
      forall y | y in multiset(h) ensures !Better(h[k], y) {
        var i :| 0 <= i < |h| && h[i] == y;
      }
    }
    k
  }
}
