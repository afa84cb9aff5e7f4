/** The edges of a polygon as the ray-casting test sees them: one per vertex, from the vertex to
    the one before it. */
module Polygons {
  import opened Lists
  import opened Reals

  datatype Point = Point(x: real, y: real)

  datatype Edge = Edge(a: Point, b: Point)

  type Polygon = seq<Point>

  function Edges(poly: Polygon): (es: seq<Edge>)
    ensures |es| == |poly|
    ensures forall i :: 0 <= i < |poly| ==> es[i] == Edge(poly[i], poly[if i == 0 then |poly| - 1 else i - 1])
  {
    seq(|poly|, i requires 0 <= i < |poly| => Edge(poly[i], poly[if i == 0 then |poly| - 1 else i - 1]))
  }

  function Flip(e: Edge): Edge {
    Edge(e.b, e.a)
  }

  function SquaredLength(e: Edge): real {
    (e.b.x - e.a.x) * (e.b.x - e.a.x) + (e.b.y - e.a.y) * (e.b.y - e.a.y)
  }

  /** Twice the area of the triangle of p and e, with a sign. */
  function Cross(e: Edge, p: Point): real {
    (e.b.x - e.a.x) * (e.a.y - p.y) - (e.a.x - p.x) * (e.b.y - e.a.y)
  }

  function Dot(e: Edge, p: Point): real {
    (p.x - e.a.x) * (e.b.x - e.a.x) + (p.y - e.a.y) * (e.b.y - e.a.y)
  }

  /** Closer than one pixel to the line of e, with its foot on e: |cross| / length < 1, squared. */
  predicate Near(e: Edge, p: Point) {
    var length2 := SquaredLength(e);
    length2 > 0.0 && Cross(e, p) * Cross(e, p) < length2 && 0.0 <= Dot(e, p) <= length2
  }

  predicate Above(a: Point, y: real) {
    a.y > y
  }

  predicate Straddles(e: Edge, y: real) {
    Above(e.a, y) != Above(e.b, y)
  }

  /** Where a straddling edge meets the horizontal line at y. */
  function MeetsAt(e: Edge, y: real): real
    requires Straddles(e, y)
  {
    (e.b.x - e.a.x) * (y - e.a.y) / (e.b.y - e.a.y) + e.a.x
  }

  /** The ray from p to the right crosses e. */
  predicate Crosses(e: Edge, p: Point) {
    Straddles(e, p.y) && p.x < MeetsAt(e, p.y)
  }

  function IsNear(p: Point): Edge -> bool {
    (e: Edge) => Near(e, p)
  }

  function IsCrossed(p: Point): Edge -> bool {
    (e: Edge) => Crosses(e, p)
  }

  function IsStraddling(y: real): Edge -> bool {
    (e: Edge) => Straddles(e, y)
  }

  function IsPassed(p: Point): Edge -> bool {
    (e: Edge) => Straddles(e, p.y) && !Crosses(e, p)
  }

  /** What point_in_polygon decides: some edge is near, or the ray crosses an odd number. */
  predicate Accepts(poly: Polygon, p: Point) {
    Count(Edges(poly), IsNear(p)) > 0 || Count(Edges(poly), IsCrossed(p)) % 2 == 1
  }

  lemma NearEdgeAccepts(poly: Polygon, i: nat, p: Point)
    requires i < |poly| && Near(Edges(poly)[i], p)
    ensures Accepts(poly, p)
  {
    FoundIsCounted(Edges(poly), i, IsNear(p));
  }

  /** The loop over the edges, with its early return and its toggled flag, for any two tests. */
  method ScanEdges(poly: Polygon, near: Edge -> bool, crosses: Edge -> bool) returns (accepted: bool)
    ensures accepted == (Count(Edges(poly), near) > 0 || Count(Edges(poly), crosses) % 2 == 1)
  {
    var inside := false;
    var j := |poly| - 1;
    for i := 0 to |poly|
      invariant i < |poly| ==> j == if i == 0 then |poly| - 1 else i - 1
      invariant Count(Edges(poly)[..i], near) == 0
      invariant inside == (Count(Edges(poly)[..i], crosses) % 2 == 1)
    {
      var e := Edge(poly[i], poly[j]);
      CountNext(Edges(poly), i, near);
      CountNext(Edges(poly), i, crosses);
      if near(e) {
        FoundIsCounted(Edges(poly), i, near);
        return true;
      }
      if crosses(e) {
        inside := !inside;
      }
      j := i;
    }
    assert Edges(poly)[..|poly|] == Edges(poly);
    return inside;
  }

  /** point_in_polygon. */
  method PointInPolygon(p: Point, poly: Polygon) returns (accepted: bool)
    ensures accepted == Accepts(poly, p)
  {
    accepted := ScanEdges(poly, IsNear(p), IsCrossed(p));
  }

  // ----- the choice of the first vertex and of the direction does not matter -----

  function Rotated(poly: Polygon, k: nat): Polygon
    requires k <= |poly|
  {
    poly[k..] + poly[..k]
  }

  lemma RotatedAt<T>(xs: seq<T>, k: nat, i: nat)
    requires k <= |xs| && i < |xs|
    ensures (xs[k..] + xs[..k])[i] == if i < |xs| - k then xs[k + i] else xs[k + i - |xs|]
  {
  }

  lemma EdgeRotates(poly: Polygon, k: nat, i: nat)
    requires k <= |poly| && i < |poly|
    ensures Edges(Rotated(poly, k))[i] == (Edges(poly)[k..] + Edges(poly)[..k])[i]
  {
    RotatedAt(poly, k, i);
    RotatedAt(poly, k, if i == 0 then |poly| - 1 else i - 1);
    RotatedAt(Edges(poly), k, i);
  }

  lemma EdgesRotate(poly: Polygon, k: nat)
    requires k <= |poly|
    ensures Edges(Rotated(poly, k)) == Edges(poly)[k..] + Edges(poly)[..k]
  {
    forall i | 0 <= i < |poly| ensures Edges(Rotated(poly, k))[i] == (Edges(poly)[k..] + Edges(poly)[..k])[i] {
      EdgeRotates(poly, k, i);
    }
  }

  lemma CountRotated<T>(xs: seq<T>, k: nat, p: T -> bool)
    requires k <= |xs|
    ensures Count(xs[k..] + xs[..k], p) == Count(xs, p)
  {
    assert xs == xs[..k] + xs[k..];
    CountAppends(xs[..k], xs[k..], p);
    CountAppends(xs[k..], xs[..k], p);
  }

  lemma FirstVertexDoesNotMatter(poly: Polygon, k: nat, p: Point)
    requires k <= |poly|
    ensures Accepts(Rotated(poly, k), p) == Accepts(poly, p)
  {
    var es := Edges(poly);
    EdgesRotate(poly, k);
    CountRotated(es, k, IsCrossed(p));
    CountRotated(es, k, IsNear(p));
  }

  function Reversed<T>(xs: seq<T>): (ys: seq<T>)
    ensures |ys| == |xs| && forall i :: 0 <= i < |xs| ==> ys[i] == xs[|xs| - 1 - i]
  {
    seq(|xs|, i requires 0 <= i < |xs| => xs[|xs| - 1 - i])
  }

  function Flipped(es: seq<Edge>): (fs: seq<Edge>)
    ensures |fs| == |es| && forall i :: 0 <= i < |es| ==> fs[i] == Flip(es[i])
  {
    seq(|es|, i requires 0 <= i < |es| => Flip(es[i]))
  }

  lemma EdgesReverse(poly: Polygon)
    requires poly != []
    ensures Edges(Reversed(poly)) == Flipped([Edges(poly)[0]] + Reversed(Edges(poly)[1..]))
  {
    var (es, fs) := (Edges(Reversed(poly)), Flipped([Edges(poly)[0]] + Reversed(Edges(poly)[1..])));
    forall i | 0 <= i < |poly| ensures es[i] == fs[i] {
    }
  }

  lemma {:induction false} CountReversed<T>(xs: seq<T>, p: T -> bool)
    ensures Count(Reversed(xs), p) == Count(xs, p)
    decreases |xs|
  {
    if xs != [] {
      var n := |xs| - 1;
      CountReversed(xs[..n], p);
      assert Reversed(xs) == [xs[n]] + Reversed(xs[..n]);
      CountAppends([xs[n]], Reversed(xs[..n]), p);
      assert [xs[n]][..0] == [];
    }
  }

  lemma {:induction false} CountFlipped(es: seq<Edge>, p: Edge -> bool)
    requires forall i :: 0 <= i < |es| ==> p(Flip(es[i])) == p(es[i])
    ensures Count(Flipped(es), p) == Count(es, p)
    decreases |es|
  {
    if es != [] {
      var n := |es| - 1;
      assert Flipped(es)[..n] == Flipped(es[..n]);
      CountFlipped(es[..n], p);
    }
  }

  /** The point of the chord from a to b at height u above ya is found from either end. */
  lemma ChordFromEitherEnd(a: real, b: real, u: real, d: real)
    requires d != 0.0
    ensures (a - b) * (u - d) / -d + b == (b - a) * u / d + a
  {
    var (r, q) := ((a - b) * (u - d) / -d, (b - a) * u / d);
    assert r * -d == (a - b) * (u - d);
    assert q * d == (b - a) * u;
    assert r * d == (b - a) * u - (b - a) * d;
    assert (r + b) * d == (q + a) * d;
    Cancel(r + b, q + a, d);
  }

  lemma FlippedMeetsAt(e: Edge, y: real)
    requires Straddles(e, y)
    ensures MeetsAt(Flip(e), y) == MeetsAt(e, y)
  {
    ChordFromEitherEnd(e.a.x, e.b.x, y - e.a.y, e.b.y - e.a.y);
    assert y - e.b.y == y - e.a.y - (e.b.y - e.a.y) && e.a.y - e.b.y == -(e.b.y - e.a.y);
  }

  lemma FlippedIsTheSame(e: Edge, p: Point)
    ensures Near(Flip(e), p) == Near(e, p) && Crosses(Flip(e), p) == Crosses(e, p)
  {
    assert SquaredLength(Flip(e)) == SquaredLength(e);
    assert Cross(Flip(e), p) == -Cross(e, p);
    assert Dot(Flip(e), p) == SquaredLength(e) - Dot(e, p);
    if Straddles(e, p.y) {
      FlippedMeetsAt(e, p.y);
    }
  }

  lemma CountTurned(es: seq<Edge>, p: Edge -> bool)
    requires es != [] && forall e :: p(Flip(e)) == p(e)
    ensures Count(Flipped([es[0]] + Reversed(es[1..])), p) == Count(es, p)
  {
    CountFlipped([es[0]] + Reversed(es[1..]), p);
    CountAppends([es[0]], Reversed(es[1..]), p);
    CountReversed(es[1..], p);
    CountAppends([es[0]], es[1..], p);
    assert es == [es[0]] + es[1..];
  }

  lemma DirectionDoesNotMatter(poly: Polygon, p: Point)
    ensures Accepts(Reversed(poly), p) == Accepts(poly, p)
  {
    if poly == [] {
      assert Reversed(poly) == poly;
    } else {
      EdgesReverse(poly);
      forall e ensures Near(Flip(e), p) == Near(e, p) && Crosses(Flip(e), p) == Crosses(e, p) {
        FlippedIsTheSame(e, p);
      }
      CountTurned(Edges(poly), IsCrossed(p));
      CountTurned(Edges(poly), IsNear(p));
    }
  }
}
