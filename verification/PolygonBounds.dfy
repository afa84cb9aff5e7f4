/** A point the ray-casting test accepts is within one pixel of the vertices' bounding box. */
module PolygonBounds {
  import opened Lists
  import opened Reals
  import opened Polygons

  predicate Odd(n: nat) {
    n % 2 == 1
  }

  lemma ParityFlips(n: nat, b: bool)
    ensures Odd(n + if b then 1 else 0) <==> (Odd(n) != b)
  {
  }

  lemma EdgeStraddles(poly: Polygon, y: real, k: nat)
    requires 0 < k < |poly|
    ensures Straddles(Edges(poly)[k], y) <==> (Above(poly[k - 1], y) != Above(poly[k], y))
  {
  }

  /** Along a chain of vertices the level is crossed an odd number of times exactly when the ends
      are on different sides. Edge 0, which closes the polygon, is counted first. */
  lemma {:induction false} StraddlesAlongChain(poly: Polygon, y: real, k: nat)
    requires k < |poly|
    ensures Odd(Count(Edges(poly)[..k + 1], IsStraddling(y)))
            <==> (Straddles(Edges(poly)[0], y) != (Above(poly[0], y) != Above(poly[k], y)))
    decreases k
  {
    var es := Edges(poly);
    CountNext(es, k, IsStraddling(y));
    if k == 0 {
      assert es[..0] == [];
    } else {
      StraddlesAlongChain(poly, y, k - 1);
      EdgeStraddles(poly, y, k);
    }
    ParityFlips(Count(es[..k], IsStraddling(y)), Straddles(es[k], y));
  }

  /** A closed polygon crosses every horizontal level an even number of times. */
  lemma StraddlesAreEven(poly: Polygon, y: real)
    ensures Count(Edges(poly), IsStraddling(y)) % 2 == 0
  {
    if poly != [] {
      StraddlesAlongChain(poly, y, |poly| - 1);
      assert Edges(poly)[..|poly|] == Edges(poly);
    }
  }

  /** When the ray crosses an odd number of edges, some edge at its height lies to the right of
      the point and some other one does not. */
  lemma OddMeansBetween(poly: Polygon, p: Point) returns (right: nat, left: nat)
    requires Odd(Count(Edges(poly), IsCrossed(p)))
    ensures right < |poly| && Crosses(Edges(poly)[right], p)
    ensures left < |poly| && Straddles(Edges(poly)[left], p.y) && !Crosses(Edges(poly)[left], p)
  {
    var es := Edges(poly);
    StraddlesAreEven(poly, p.y);
    CountSplits(es, IsCrossed(p), IsPassed(p), IsStraddling(p.y));
    right := CountedIsThere(es, IsCrossed(p));
    left := CountedIsThere(es, IsPassed(p));
  }

  // ----- where an edge meets a level, and how far a near point can be -----

  lemma ChordStaysBetween(a: real, b: real, u: real, d: real, lo: real, hi: real)
    requires (d > 0.0 && 0.0 <= u <= d) || (d < 0.0 && d <= u <= 0.0)
    requires lo <= a <= hi && lo <= b <= hi
    ensures lo <= (b - a) * u / d + a <= hi
  {
    var t := u / d;
    assert t * d == u;
    assert 0.0 <= t <= 1.0;
    var c := b - a;
    Fraction(c, t);
    assert lo <= c * t + a <= hi;
    assert c * u / d == c * t;
  }

  lemma MeetsWithin(e: Edge, y: real, lo: real, hi: real)
    requires Straddles(e, y) && lo <= e.a.x <= hi && lo <= e.b.x <= hi
    ensures lo <= MeetsAt(e, y) <= hi
  {
    ChordStaysBetween(e.a.x, e.b.x, y - e.a.y, e.b.y - e.a.y, lo, hi);
  }

  /** c^2 < s and d^2 <= s keep the product of c and d within s. */
  lemma ProductWithin(c: real, d: real, s: real)
    requires c * c < s && d * d <= s
    ensures -s < c * d < s
  {
    SquareIsNonNegative(c + d);
    SquareIsNonNegative(c - d);
  }

  /** The offset u of a near point along one axis, where d is the edge's extent on that axis. */
  lemma OffsetWithin(u: real, d: real, dot: real, e: real, s: real)
    requires s > 0.0 && 0.0 <= dot <= s && -s < e < s && u * s == dot * d + e
    ensures (if d >= 0.0 then 0.0 else d) - 1.0 < u < (if d >= 0.0 then d else 0.0) + 1.0
  {
    var (lo, hi) := (if d >= 0.0 then 0.0 else d, if d >= 0.0 then d else 0.0);
    assert lo * s <= dot * d <= hi * s by {
      Fraction(d, dot / s);
      assert dot == dot / s * s;
    }
    CancelLess(lo - 1.0, u, s);
    CancelLess(u, hi + 1.0, s);
  }

  /** An offset in terms of its shares along and across a vector. */
  lemma OffsetDecomposes(u: real, v: real, dx: real, dy: real, cross: real, dot: real, s: real)
    requires cross == u * dy - v * dx && dot == u * dx + v * dy && s == dx * dx + dy * dy
    ensures u * s == dot * dx + cross * dy
  {
  }

  /** The offset (u, v) of a near point, along the first axis. */
  lemma OffsetIsNear(u: real, v: real, dx: real, dy: real, cross: real, dot: real, s: real)
    requires cross == u * dy - v * dx && dot == u * dx + v * dy && s == dx * dx + dy * dy
    requires cross * cross < s && 0.0 <= dot <= s
    ensures (if dx >= 0.0 then 0.0 else dx) - 1.0 < u < (if dx >= 0.0 then dx else 0.0) + 1.0
  {
    SquareIsNonNegative(cross);
    SquareIsNonNegative(dx);
    ProductWithin(cross, dy, s);
    OffsetDecomposes(u, v, dx, dy, cross, dot, s);
    OffsetWithin(u, dx, dot, cross * dy, s);
  }

  /** A point near an edge is less than a pixel outside the edge's own bounding box. */
  lemma NearIsWithinOne(e: Edge, p: Point)
    requires Near(e, p)
    ensures (if e.a.x < e.b.x then e.a.x else e.b.x) - 1.0 < p.x < (if e.a.x < e.b.x then e.b.x else e.a.x) + 1.0
    ensures (if e.a.y < e.b.y then e.a.y else e.b.y) - 1.0 < p.y < (if e.a.y < e.b.y then e.b.y else e.a.y) + 1.0
  {
    var (dx, dy, u, v) := (e.b.x - e.a.x, e.b.y - e.a.y, p.x - e.a.x, p.y - e.a.y);
    var (cross, dot, s) := (Cross(e, p), Dot(e, p), SquaredLength(e));
    OffsetIsNear(u, v, dx, dy, cross, dot, s);
    OffsetIsNear(v, u, dy, dx, -cross, dot, s);
  }

  /** Every vertex lies between the corners lo and hi. */
  predicate Encloses(lo: Point, hi: Point, vs: seq<Point>) {
    forall i :: 0 <= i < |vs| ==> lo.x <= vs[i].x <= hi.x && lo.y <= vs[i].y <= hi.y
  }

  predicate StrictlyWithin(lo: Point, hi: Point, tolerance: real, p: Point) {
    lo.x - tolerance < p.x < hi.x + tolerance && lo.y - tolerance < p.y < hi.y + tolerance
  }

  lemma CrossedIsInside(poly: Polygon, lo: Point, hi: Point, p: Point)
    requires Encloses(lo, hi, poly) && Odd(Count(Edges(poly), IsCrossed(p)))
    ensures lo.x <= p.x < hi.x && lo.y <= p.y < hi.y
  {
    var right, left := OddMeansBetween(poly, p);
    var (e, f) := (Edges(poly)[right], Edges(poly)[left]);
    MeetsWithin(e, p.y, lo.x, hi.x);
    MeetsWithin(f, p.y, lo.x, hi.x);
  }

  /** Every accepted point is less than one pixel outside the box around the vertices, and inside
      it unless an edge is near. */
  lemma AcceptedIsWithinOne(poly: Polygon, lo: Point, hi: Point, p: Point)
    requires Encloses(lo, hi, poly) && Accepts(poly, p)
    ensures StrictlyWithin(lo, hi, 1.0, p)
    ensures Count(Edges(poly), IsNear(p)) == 0 ==> lo.x <= p.x < hi.x && lo.y <= p.y < hi.y
  {
    if Count(Edges(poly), IsNear(p)) > 0 {
      var i := CountedIsThere(Edges(poly), IsNear(p));
      NearIsWithinOne(Edges(poly)[i], p);
    } else {
      CrossedIsInside(poly, lo, hi, p);
    }
  }
}
