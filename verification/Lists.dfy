/** Filtering and selecting from sequences, position by position. */
module Lists {

  predicate Increasing(idx: seq<nat>) {
    forall a, b :: 0 <= a < b < |idx| ==> idx[a] < idx[b]
  }

  predicate Below(idx: seq<nat>, n: nat) {
    forall a :: 0 <= a < |idx| ==> idx[a] < n
  }

  /** The positions below n at which p holds, in order. */
  function Positions(n: nat, p: nat -> bool): (idx: seq<nat>)
    ensures Increasing(idx) && Below(idx, n)
    ensures forall k :: k in idx <==> 0 <= k < n && p(k)
    decreases n
  {
    if n == 0 then []
    else if p(n - 1) then Positions(n - 1, p) + [n - 1]
    else Positions(n - 1, p)
  }

  function Select<T>(xs: seq<T>, idx: seq<nat>): (ys: seq<T>)
    requires Below(idx, |xs|)
    ensures |ys| == |idx|
    ensures forall a :: 0 <= a < |idx| ==> ys[a] == xs[idx[a]]
  {
    seq(|idx|, a requires 0 <= a < |idx| => xs[idx[a]])
  }

  lemma SelectAppends<T>(xs: seq<T>, a: seq<nat>, b: seq<nat>)
    requires Below(a, |xs|) && Below(b, |xs|)
    ensures Below(a + b, |xs|) && Select(xs, a + b) == Select(xs, a) + Select(xs, b)
  {
  }

  function Satisfying<T>(xs: seq<T>, p: T -> bool): (idx: seq<nat>)
    ensures Increasing(idx) && Below(idx, |xs|)
    ensures forall k :: k in idx <==> 0 <= k < |xs| && p(xs[k])
    decreases |xs|
  {
    Positions(|xs|, (k: nat) => k < |xs| && p(xs[k]))
  }

  function Filter<T>(xs: seq<T>, p: T -> bool): (ys: seq<T>)
    ensures |ys| == |Satisfying(xs, p)|
    ensures forall k :: 0 <= k < |ys| ==> p(ys[k])
  {
    Select(xs, Satisfying(xs, p))
  }

  lemma {:induction false} PositionsAgree(n: nat, p: nat -> bool, q: nat -> bool)
    requires forall k: nat :: k < n ==> (p(k) <==> q(k))
    ensures Positions(n, p) == Positions(n, q)
    decreases n
  {
    if n > 0 {
      PositionsAgree(n - 1, p, q);
    }
  }

  lemma FilterNext<T>(xs: seq<T>, p: T -> bool)
    requires xs != []
    ensures var n := |xs| - 1; Filter(xs, p) == Filter(xs[..n], p) + if p(xs[n]) then [xs[n]] else []
  {
    var n := |xs| - 1;
    PositionsAgree(n, (k: nat) => k < n && p(xs[..n][k]), (k: nat) => k < |xs| && p(xs[k]));
  }

  /** The positions below n that are not in `dropped`. */
  function Rest(n: nat, dropped: set<nat>): (idx: seq<nat>)
    ensures Increasing(idx) && Below(idx, n)
    ensures forall k :: k in idx <==> 0 <= k < n && k !in dropped
  {
    Positions(n, (k: nat) => k !in dropped)
  }

  function Count<T>(xs: seq<T>, p: T -> bool): (c: nat)
    ensures c <= |xs|
    decreases |xs|
  {
    if xs == [] then 0
    else Count(xs[..|xs| - 1], p) + if p(xs[|xs| - 1]) then 1 else 0
  }

  lemma {:induction false} CountAppends<T>(xs: seq<T>, ys: seq<T>, p: T -> bool)
    ensures Count(xs + ys, p) == Count(xs, p) + Count(ys, p)
    decreases |ys|
  {
    if ys == [] {
      assert xs + ys == xs;
    } else {
      CountAppends(xs, ys[..|ys| - 1], p);
      assert (xs + ys)[..|xs + ys| - 1] == xs + ys[..|ys| - 1];
    }
  }

  lemma {:induction false} CountAll<T>(xs: seq<T>, p: T -> bool)
    requires forall x <- xs :: p(x)
    ensures Count(xs, p) == |xs|
    decreases |xs|
  {
    if xs != [] {
      assert xs[|xs| - 1] in xs;
      CountAll(xs[..|xs| - 1], p);
    }
  }

  /** Positions of a sequence with one more element. */
  lemma SelectLonger<T>(xs: seq<T>, n: nat, p: nat -> bool)
    requires 0 < n <= |xs|
    ensures Select(xs, Positions(n, p))
            == Select(xs, Positions(n - 1, p)) + if p(n - 1) then [xs[n - 1]] else []
  {
  }

  lemma {:induction false} CountSelected<T>(xs: seq<T>, n: nat, q: nat -> bool, p: T -> bool)
    requires n <= |xs|
    ensures Count(Select(xs, Positions(n, q)), p) <= Count(xs[..n], p)
    decreases n
  {
    if n > 0 {
      CountSelected(xs, n - 1, q, p);
      SelectLonger(xs, n, q);
      assert xs[..n][..n - 1] == xs[..n - 1];
      CountAppends(Select(xs, Positions(n - 1, q)), if q(n - 1) then [xs[n - 1]] else [], p);
      assert q(n - 1) ==> Count([xs[n - 1]], p) == (if p(xs[n - 1]) then 1 else 0) by {
        assert [xs[n - 1]][..0] == [];
      }
    }
  }

  /** Filtering never adds elements that satisfy p. */
  lemma CountFiltered<T>(xs: seq<T>, q: T -> bool, p: T -> bool)
    ensures Count(Filter(xs, q), p) <= Count(xs, p)
  {
    CountSelected(xs, |xs|, (k: nat) => k < |xs| && q(xs[k]), p);
    assert xs[..|xs|] == xs;
  }

  /** The number of positions kept and dropped adds up. */
  lemma {:induction false} RestCount(n: nat, dropped: set<nat>)
    requires forall k <- dropped :: k < n
    ensures |Rest(n, dropped)| == n - |dropped|
    decreases n
  {
    if n == 0 {
      assert dropped == {};
    } else if n - 1 in dropped {
      RestCount(n - 1, dropped - {n - 1});
      SamePositions(n - 1, dropped, dropped - {n - 1});
    } else {
      RestCount(n - 1, dropped);
    }
  }

  lemma {:induction false} SamePositions(n: nat, a: set<nat>, b: set<nat>)
    requires forall k: nat :: k < n ==> (k in a <==> k in b)
    ensures Rest(n, a) == Rest(n, b)
    decreases n
  {
    if n > 0 {
      SamePositions(n - 1, a, b);
    }
  }

  lemma {:induction false} PositionsAreCounted<T>(xs: seq<T>, n: nat, q: nat -> bool, p: T -> bool)
    requires n <= |xs| && forall k: nat :: k < n ==> (q(k) <==> p(xs[k]))
    ensures |Positions(n, q)| == Count(xs[..n], p)
    decreases n
  {
    if n > 0 {
      PositionsAreCounted(xs, n - 1, q, p);
      assert xs[..n][..n - 1] == xs[..n - 1];
    }
  }

  lemma FilterIsCounted<T>(xs: seq<T>, p: T -> bool)
    ensures |Filter(xs, p)| == Count(xs, p)
  {
    PositionsAreCounted(xs, |xs|, (k: nat) => k < |xs| && p(xs[k]), p);
    assert xs[..|xs|] == xs;
  }

  /** Two tests that never hold together. */
  lemma {:induction false} CountSplits<T>(xs: seq<T>, p: T -> bool, q: T -> bool, r: T -> bool)
    requires forall k :: 0 <= k < |xs| ==> (r(xs[k]) <==> p(xs[k]) || q(xs[k])) && !(p(xs[k]) && q(xs[k]))
    ensures Count(xs, p) + Count(xs, q) == Count(xs, r)
    decreases |xs|
  {
    if xs != [] {
      CountSplits(xs[..|xs| - 1], p, q, r);
    }
  }

  /** An injective map has as many values as keys. */
  lemma {:induction false} InjectiveMapSize(m: map<nat, nat>)
    requires forall i, j :: i in m && j in m && i != j ==> m[i] != m[j]
    ensures |m.Values| == |m.Keys|
    decreases |m|
  {
    if m != map[] {
      var i :| i in m;
      var rest := m - {i};
      InjectiveMapSize(rest);
      assert m.Keys == rest.Keys + {i};
      assert m.Values == rest.Values + {m[i]} by {
        forall v | v in m.Values ensures v in rest.Values + {m[i]} {
          var j :| j in m && m[j] == v;
          if j != i {
            assert j in rest && rest[j] == v;
          }
        }
        forall v | v in rest.Values ensures v in m.Values {
          var j :| j in rest && rest[j] == v;
          assert j in m && m[j] == v;
        }
        assert m[i] in m.Values;
      }
      assert m[i] !in rest.Values;
    }
  }

  lemma {:induction false} BoundedSetSize(s: set<nat>, n: nat)
    requires forall k <- s :: k < n
    ensures |s| <= n
    decreases n
  {
    if n == 0 {
      assert s == {};
    } else {
      BoundedSetSize(s - {n - 1}, n - 1);
    }
  }

  /** The number of positions at which p holds. Count computes it from the end. */
  function Tally<T>(xs: seq<T>, p: T -> bool): nat {
    |set k | 0 <= k < |xs| && p(xs[k])|
  }

  lemma {:induction false} TallyIsCount<T>(xs: seq<T>, p: T -> bool)
    ensures Tally(xs, p) == Count(xs, p)
    decreases |xs|
  {
    var all := set k | 0 <= k < |xs| && p(xs[k]);
    if xs == [] {
      assert all == {};
    } else {
      var init := xs[..|xs| - 1];
      TallyIsCount(init, p);
      var some := set k | 0 <= k < |init| && p(init[k]);
      assert all == if p(xs[|xs| - 1]) then some + {|xs| - 1} else some;
    }
  }

  /** n increasing numbers below n are 0, 1, ..., n - 1. */
  lemma DensePositions(idx: seq<nat>, n: nat, k: nat)
    requires Increasing(idx) && Below(idx, n) && |idx| == n && k < n
    ensures idx[k] == k
  {
    RoomBelow(idx, k);
    RoomAbove(idx, n, k);
  }

  lemma {:induction false} RoomBelow(idx: seq<nat>, k: nat)
    requires Increasing(idx) && k < |idx|
    ensures k <= idx[k]
    decreases k
  {
    if k > 0 {
      RoomBelow(idx, k - 1);
    }
  }

  lemma {:induction false} RoomAbove(idx: seq<nat>, n: nat, k: nat)
    requires Increasing(idx) && Below(idx, n) && |idx| == n && k < n
    ensures idx[k] <= k
    decreases n - k
  {
    if k < n - 1 {
      RoomAbove(idx, n, k + 1);
    }
  }

  /** An increasing sequence is determined by its members. */
  lemma {:induction false} IncreasingIsUnique(a: seq<nat>, b: seq<nat>)
    requires Increasing(a) && Increasing(b) && forall k :: k in a <==> k in b
    ensures a == b
    decreases |a|
  {
    HeadIsMember(a);
    HeadIsMember(b);
    if a != [] && b != [] {
      var (x, y) := (a[|a| - 1], b[|b| - 1]);
      assert x in b && y in a;
      assert x == y;
      var (c, d) := (a[..|a| - 1], b[..|b| - 1]);
      forall k ensures k in c <==> k in d {
        assert k in c <==> k in a && k != x;
        assert k in d <==> k in b && k != y;
      }
      IncreasingIsUnique(c, d);
    }
  }

  lemma HeadIsMember(xs: seq<nat>)
    ensures xs == [] || xs[0] in xs
  {
  }

  lemma SelectedPositions(rest: seq<nat>, inner: seq<nat>)
    requires Increasing(rest) && Increasing(inner) && Below(inner, |rest|)
    ensures Increasing(Select(rest, inner))
    ensures forall i :: i in Select(rest, inner) <==> exists a :: a in inner && rest[a] == i
  {
    var picked := Select(rest, inner);
    forall i | i in picked ensures exists a :: a in inner && rest[a] == i {
      var k :| 0 <= k < |picked| && picked[k] == i;
      assert inner[k] in inner;
    }
    forall i | exists a :: a in inner && rest[a] == i ensures i in picked {
      var a :| a in inner && rest[a] == i;
      var k :| 0 <= k < |inner| && inner[k] == a;
      assert picked[k] == i;
    }
  }

  /** When every element satisfies p, selecting by p keeps everything. */
  lemma SelectAll<T, U>(xs: seq<T>, p: T -> bool, ys: seq<U>)
    requires |xs| == |ys| && forall k :: 0 <= k < |xs| ==> p(xs[k])
    ensures Select(ys, Satisfying(xs, p)) == ys
  {
    var idx := Satisfying(xs, p);
    PositionsAreCounted(xs, |xs|, (k: nat) => k < |xs| && p(xs[k]), p);
    assert xs[..|xs|] == xs;
    CountAll(xs, p);
    forall k | 0 <= k < |xs| ensures idx[k] == k {
      DensePositions(idx, |xs|, k);
    }
  }

  lemma CountNext<T>(xs: seq<T>, i: nat, p: T -> bool)
    requires i < |xs|
    ensures Count(xs[..i + 1], p) == Count(xs[..i], p) + if p(xs[i]) then 1 else 0
  {
    assert xs[..i + 1][..i] == xs[..i];
  }

  lemma CountOfPrefix<T>(xs: seq<T>, ys: seq<T>, p: T -> bool)
    ensures Count(xs, p) <= Count(xs + ys, p)
  {
    CountAppends(xs, ys, p);
  }

  lemma FoundIsCounted<T>(xs: seq<T>, i: nat, p: T -> bool)
    requires i < |xs| && p(xs[i])
    ensures Count(xs, p) > 0
  {
    CountNext(xs, i, p);
    CountOfPrefix(xs[..i + 1], xs[i + 1..], p);
    assert xs[..i + 1] + xs[i + 1..] == xs;
  }

  lemma {:induction false} CountedIsThere<T>(xs: seq<T>, p: T -> bool) returns (i: nat)
    requires Count(xs, p) > 0
    ensures i < |xs| && p(xs[i])
    decreases |xs|
  {
    var n := |xs| - 1;
    if p(xs[n]) {
      i := n;
    } else {
      i := CountedIsThere(xs[..n], p);
    }
  }
}
