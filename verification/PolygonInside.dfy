/** What the ray-casting test means: which edges the ray crosses, and for convex polygons that the
    answer is the inside and a rim of less than a pixel. */
module PolygonInside {
  import opened Lists
  import opened Reals
  import opened Polygons
  import opened PolygonBounds

  /** On which side of the line from e.a to e.b the point lies: positive to the left of the
      direction, when y points up. */
  function Side(e: Edge, p: Point): real {
    (e.b.x - e.a.x) * (p.y - e.a.y) - (p.x - e.a.x) * (e.b.y - e.a.y)
  }

  /** The ray to the right crosses an edge at the point's height exactly when the point is strictly
      to the left of it. */
  lemma CrossesExactly(e: Edge, p: Point)
    requires Straddles(e, p.y)
    ensures Crosses(e, p) <==> if e.b.y > e.a.y then Side(e, p) > 0.0 else Side(e, p) < 0.0
  {
    QuotientCompares((e.b.x - e.a.x) * (p.y - e.a.y), e.b.y - e.a.y, p.x - e.a.x);
  }

  // ----- sides are affine -----

  lemma AffineBetween(al: real, be: real, a: Point, b: Point, p: Point, s: real, t: real)
    requires (s + t) * p.x == s * a.x + t * b.x && (s + t) * p.y == s * a.y + t * b.y
    ensures (s + t) * (al * p.x + be * p.y) == s * (al * a.x + be * a.y) + t * (al * b.x + be * b.y)
  {
    assert (s + t) * (al * p.x) == al * ((s + t) * p.x);
    assert (s + t) * (be * p.y) == be * ((s + t) * p.y);
    assert al * (s * a.x + t * b.x) == s * (al * a.x) + t * (al * b.x);
    assert be * (s * a.y + t * b.y) == s * (be * a.y) + t * (be * b.y);
  }

  lemma SideIsAffine(f: Edge, p: Point)
    ensures Side(f, p) == -(f.b.y - f.a.y) * p.x + (f.b.x - f.a.x) * p.y
                          + (f.a.x * (f.b.y - f.a.y) - (f.b.x - f.a.x) * f.a.y)
  {
  }

  /** p divides a and b in the ratio t to s. */
  predicate Divides(a: Point, b: Point, p: Point, s: real, t: real) {
    && s >= 0.0 && t >= 0.0 && s + t > 0.0
    && (s + t) * p.x == s * a.x + t * b.x && (s + t) * p.y == s * a.y + t * b.y
  }

  lemma SideOfMixture(f: Edge, a: Point, b: Point, p: Point, s: real, t: real)
    requires Divides(a, b, p, s, t)
    ensures (s + t) * Side(f, p) == s * Side(f, a) + t * Side(f, b)
  {
    var (al, be) := (-(f.b.y - f.a.y), f.b.x - f.a.x);
    var ga := f.a.x * (f.b.y - f.a.y) - (f.b.x - f.a.x) * f.a.y;
    SideIsAffine(f, p);
    SideIsAffine(f, a);
    SideIsAffine(f, b);
    AffineBetween(al, be, a, b, p, s, t);
    var (lp, la, lb) := (al * p.x + be * p.y, al * a.x + be * a.y, al * b.x + be * b.y);
    assert (s + t) * (lp + ga) == (s + t) * lp + (s + t) * ga;
    assert s * (la + ga) + t * (lb + ga) == s * la + t * lb + (s + t) * ga;
  }

  // ----- near means within a pixel of the edge -----

  lemma LengthIsPositive(e: Edge)
    requires e.a != e.b
    ensures SquaredLength(e) > 0.0
  {
    var (dx, dy) := (e.b.x - e.a.x, e.b.y - e.a.y);
    SquareSign(dx);
    SquareSign(dy);
    assert SquaredLength(e) == Square(dx) + Square(dy);
  }

  /** The products of a vector with an offset that is its share t / n. */
  lemma ShareOfLength(u: real, v: real, dx: real, dy: real, n: real, t: real)
    requires n * u == t * dx && n * v == t * dy
    ensures n * (u * dx + v * dy) == t * (dx * dx + dy * dy) && n * (u * dy - v * dx) == 0.0
  {
    assert n * (u * dx) == t * dx * dx && n * (v * dy) == t * dy * dy;
    assert n * (u * dy) == t * dx * dy && n * (v * dx) == t * dy * dx;
  }

  lemma ShareIsWithin(dot: real, length2: real, n: real, t: real)
    requires n > 0.0 && 0.0 <= t <= n && length2 > 0.0 && n * dot == t * length2
    ensures 0.0 <= dot <= length2
  {
    ScalingKeepsOrder(0.0, t, length2);
    ScalingKeepsOrder(t, n, length2);
    ScalingKeepsOrder(0.0, dot, n);
    ScalingKeepsOrder(dot, length2, n);
  }

  /** A point that lies on an edge is near it. */
  lemma OnEdgeIsNear(e: Edge, p: Point, s: real, t: real)
    requires Divides(e.a, e.b, p, s, t) && e.a != e.b
    ensures Near(e, p)
  {
    var (dx, dy, u, v, n) := (e.b.x - e.a.x, e.b.y - e.a.y, p.x - e.a.x, p.y - e.a.y, s + t);
    assert n * u == t * dx && n * v == t * dy;
    ShareOfLength(u, v, dx, dy, n, t);
    LengthIsPositive(e);
    ShareIsWithin(Dot(e, p), SquaredLength(e), n, t);
    Cancel(u * dy - v * dx, 0.0, n);
    assert Cross(e, p) == u * dy - v * dx;
  }

  /** The point of the edge at share t is the foot of the perpendicular from p, which is shorter than
      a pixel. */
  predicate PerpendicularWithin(e: Edge, p: Point, t: real) {
    var (dx, dy) := (e.b.x - e.a.x, e.b.y - e.a.y);
    var (wx, wy) := (p.x - (e.a.x + t * dx), p.y - (e.a.y + t * dy));
    0.0 <= t <= 1.0 && wx * dx + wy * dy == 0.0 && wx * wx + wy * wy < 1.0
  }

  lemma ProductsOfVectors(wx: real, wy: real, dx: real, dy: real)
    requires wx * dx + wy * dy == 0.0
    ensures (wx * wx + wy * wy) * (dx * dx + dy * dy) == (wx * dy - wy * dx) * (wx * dy - wy * dx)
  {
    var (dot, cross) := (wx * dx + wy * dy, wx * dy - wy * dx);
    assert (wx * wx + wy * wy) * (dx * dx + dy * dy) == dot * dot + cross * cross;
  }

  /** The foot's share of the edge, and the length of the perpendicular. */
  lemma FootOf(u: real, v: real, dx: real, dy: real, t: real, length2: real)
    requires length2 == dx * dx + dy * dy
    ensures (u - t * dx) * dx + (v - t * dy) * dy == u * dx + v * dy - t * length2
    ensures (u - t * dx) * dy - (v - t * dy) * dx == u * dy - v * dx
  {
    assert (u - t * dx) * dx == u * dx - t * (dx * dx) && (v - t * dy) * dy == v * dy - t * (dy * dy);
    assert (u - t * dx) * dy == u * dy - t * dx * dy && (v - t * dy) * dx == v * dx - t * dy * dx;
  }

  predicate ShortAndUpright(wx: real, wy: real, dx: real, dy: real) {
    wx * dx + wy * dy == 0.0 && wx * wx + wy * wy < 1.0
  }

  lemma ShortMeans(wx: real, wy: real, dx: real, dy: real, cross: real, length2: real)
    requires length2 == dx * dx + dy * dy && length2 > 0.0 && cross == wx * dy - wy * dx
    ensures ShortAndUpright(wx, wy, dx, dy) <==> wx * dx + wy * dy == 0.0 && cross * cross < length2
  {
    if wx * dx + wy * dy == 0.0 {
      ProductsOfVectors(wx, wy, dx, dy);
      ScalingKeepsOrder(1.0, wx * wx + wy * wy, length2);
    }
  }

  /** In numbers: the offset from the foot is perpendicular and shorter than one. */
  lemma PerpendicularMeans(u: real, v: real, dx: real, dy: real, t: real, dot: real, cross: real, length2: real)
    requires length2 == dx * dx + dy * dy && length2 > 0.0 && dot == u * dx + v * dy && cross == u * dy - v * dx
    ensures ShortAndUpright(u - t * dx, v - t * dy, dx, dy) <==> dot == t * length2 && cross * cross < length2
  {
    FootOf(u, v, dx, dy, t, length2);
    ShortMeans(u - t * dx, v - t * dy, dx, dy, cross, length2);
  }

  lemma ProductsOf(e: Edge, p: Point, u: real, v: real, dx: real, dy: real)
    requires dx == e.b.x - e.a.x && dy == e.b.y - e.a.y && u == p.x - e.a.x && v == p.y - e.a.y
    ensures Dot(e, p) == u * dx + v * dy && SquaredLength(e) == dx * dx + dy * dy
    ensures Cross(e, p) == u * dy - v * dx
  {
    assert Cross(e, p) == dx * -v - -u * dy;
  }

  lemma OffsetsOf(e: Edge, p: Point, t: real, u: real, v: real, dx: real, dy: real)
    requires dx == e.b.x - e.a.x && dy == e.b.y - e.a.y && u == p.x - e.a.x && v == p.y - e.a.y
    ensures PerpendicularWithin(e, p, t) <==> 0.0 <= t <= 1.0 && ShortAndUpright(u - t * dx, v - t * dy, dx, dy)
  {
    assert p.x - (e.a.x + t * dx) == u - t * dx && p.y - (e.a.y + t * dy) == v - t * dy;
  }

  lemma PerpendicularBy(e: Edge, p: Point, t: real, u: real, v: real, dx: real, dy: real, dot: real, cross: real,
                        length2: real)
    requires dx == e.b.x - e.a.x && dy == e.b.y - e.a.y && u == p.x - e.a.x && v == p.y - e.a.y
    requires length2 == dx * dx + dy * dy && length2 > 0.0 && dot == u * dx + v * dy && cross == u * dy - v * dx
    ensures PerpendicularWithin(e, p, t) <==> 0.0 <= t <= 1.0 && dot == t * length2 && cross * cross < length2
  {
    PerpendicularMeans(u, v, dx, dy, t, dot, cross, length2);
    OffsetsOf(e, p, t, u, v, dx, dy);
  }

  lemma PerpendicularExactly(e: Edge, p: Point, t: real)
    requires e.a != e.b
    ensures PerpendicularWithin(e, p, t)
            <==> 0.0 <= t <= 1.0 && Dot(e, p) == t * SquaredLength(e) && Cross(e, p) * Cross(e, p) < SquaredLength(e)
  {
    var (dx, dy, u, v) := (e.b.x - e.a.x, e.b.y - e.a.y, p.x - e.a.x, p.y - e.a.y);
    LengthIsPositive(e);
    ProductsOf(e, p, u, v, dx, dy);
    PerpendicularBy(e, p, t, u, v, dx, dy, Dot(e, p), Cross(e, p), SquaredLength(e));
  }

  lemma ShareOf(dot: real, length2: real) returns (t: real)
    requires 0.0 <= dot <= length2 && length2 > 0.0
    ensures 0.0 <= t <= 1.0 && dot == t * length2
  {
    t := dot / length2;
    assert t * length2 == dot;
    ScalingKeepsOrder(0.0, t, length2);
    ScalingKeepsOrder(t, 1.0, length2);
  }

  lemma NearHasFoot(e: Edge, p: Point) returns (t: real)
    requires Near(e, p)
    ensures PerpendicularWithin(e, p, t)
  {
    t := ShareOf(Dot(e, p), SquaredLength(e));
    PerpendicularExactly(e, p, t);
  }

  lemma FootIsNear(e: Edge, p: Point, t: real)
    requires e.a != e.b && PerpendicularWithin(e, p, t)
    ensures Near(e, p)
  {
    LengthIsPositive(e);
    PerpendicularExactly(e, p, t);
    ShareIsWithin(Dot(e, p), SquaredLength(e), 1.0, t);
  }

  lemma NearHasLength(e: Edge, p: Point)
    requires Near(e, p)
    ensures e.a != e.b
  {
  }

  /** An edge is near exactly when the foot of the perpendicular on it is closer than a pixel. */
  lemma NearExactly(e: Edge, p: Point)
    ensures Near(e, p) <==> e.a != e.b && exists t :: PerpendicularWithin(e, p, t)
  {
    if Near(e, p) {
      NearHasLength(e, p);
      var t := NearHasFoot(e, p);
    }
    if e.a != e.b {
      if t :| PerpendicularWithin(e, p, t) {
        FootIsNear(e, p, t);
      }
    }
  }

  // ----- strictly convex polygons -----

  function Prev(n: nat, i: nat): (j: nat)
    requires i < n
    ensures j < n
  {
    if i == 0 then n - 1 else i - 1
  }

  /** Every vertex lies strictly to the left of every edge it does not belong to. */
  predicate LeftConvex(poly: Polygon) {
    && |poly| >= 3
    && forall i, j :: 0 <= i < |poly| && 0 <= j < |poly| && j != i && j != Prev(|poly|, i) ==>
         Side(Edges(poly)[i], poly[j]) > 0.0
  }

  predicate LeftOfAll(poly: Polygon, p: Point) {
    forall i :: 0 <= i < |poly| ==> Side(Edges(poly)[i], p) > 0.0
  }

  predicate GoesUp(e: Edge, y: real) {
    !Above(e.a, y) && Above(e.b, y)
  }

  predicate GoesDown(e: Edge, y: real) {
    Above(e.a, y) && !Above(e.b, y)
  }

  predicate GoSameWay(e: Edge, f: Edge, y: real) {
    (GoesUp(e, y) && GoesUp(f, y)) || (GoesDown(e, y) && GoesDown(f, y))
  }

  lemma SideOfEnds(e: Edge)
    ensures Side(e, e.a) == 0.0 && Side(e, e.b) == 0.0
  {
  }

  lemma VertexIsWeaklyLeft(poly: Polygon, i: nat, j: nat)
    requires LeftConvex(poly) && i < |poly| && j < |poly|
    ensures Side(Edges(poly)[i], poly[j]) >= 0.0
    ensures j != i && j != Prev(|poly|, i) ==> Side(Edges(poly)[i], poly[j]) > 0.0
  {
    if j == i || j == Prev(|poly|, i) {
      SideOfEnds(Edges(poly)[i]);
    }
  }

  /** Where an edge meets the point's height, in terms of sides. */
  lemma LeftMeans(e: Edge, p: Point)
    requires Straddles(e, p.y)
    ensures GoesUp(e, p.y) ==> (Side(e, p) > 0.0 <==> p.x < MeetsAt(e, p.y))
    ensures GoesUp(e, p.y) ==> (Side(e, p) < 0.0 <==> p.x > MeetsAt(e, p.y))
    ensures GoesDown(e, p.y) ==> (Side(e, p) > 0.0 <==> p.x > MeetsAt(e, p.y))
    ensures GoesDown(e, p.y) ==> (Side(e, p) < 0.0 <==> p.x < MeetsAt(e, p.y))
  {
    QuotientCompares((e.b.x - e.a.x) * (p.y - e.a.y), e.b.y - e.a.y, p.x - e.a.x);
  }

  function MeetingPoint(e: Edge, y: real): Point
    requires Straddles(e, y)
  {
    Point(MeetsAt(e, y), y)
  }

  /** The meeting point divides the edge, with a positive weight at its lower end. */
  lemma MeetingDivides(e: Edge, y: real)
    requires Straddles(e, y)
    ensures var q := MeetingPoint(e, y);
            && (GoesUp(e, y) ==> Divides(e.a, e.b, q, e.b.y - y, y - e.a.y) && e.b.y - y > 0.0)
            && (GoesDown(e, y) ==> Divides(e.b, e.a, q, e.a.y - y, y - e.b.y) && e.a.y - y > 0.0)
  {
    var (d, u, x) := (e.b.y - e.a.y, y - e.a.y, MeetsAt(e, y));
    var r := (e.b.x - e.a.x) * u / d;
    assert r * d == (e.b.x - e.a.x) * u;
    assert x * d == (e.b.x - e.a.x) * u + e.a.x * d;
    assert x * d == (d - u) * e.a.x + u * e.b.x;
    assert y * d == (d - u) * e.a.y + u * e.b.y;
    assert d - u == e.b.y - y;
  }

  lemma MixtureSign(f: Edge, a: Point, b: Point, q: Point, s: real, t: real)
    requires Divides(a, b, q, s, t) && Side(f, a) >= 0.0 && Side(f, b) >= 0.0
    ensures Side(f, q) >= 0.0
    ensures s > 0.0 && Side(f, a) > 0.0 ==> Side(f, q) > 0.0
    ensures t > 0.0 && Side(f, b) > 0.0 ==> Side(f, q) > 0.0
  {
    SideOfMixture(f, a, b, q, s, t);
    NonNegativeSum(s, Side(f, a), t, Side(f, b), s + t, Side(f, q));
  }

  lemma NonNegativeSum(s: real, x: real, t: real, y: real, n: real, z: real)
    requires s >= 0.0 && x >= 0.0 && t >= 0.0 && y >= 0.0 && n > 0.0 && n * z == s * x + t * y
    ensures z >= 0.0 && (s > 0.0 && x > 0.0 ==> z > 0.0) && (t > 0.0 && y > 0.0 ==> z > 0.0)
  {
    assert s * x >= 0.0 && t * y >= 0.0;
    if s > 0.0 && x > 0.0 {
      ProductIsPositive(s, x);
      assert Product(s, x) == s * x;
    }
    if t > 0.0 && y > 0.0 {
      ProductIsPositive(t, y);
      assert Product(t, y) == t * y;
    }
    ScalingKeepsOrder(0.0, z, n);
    ScalingKeepsOrder(z, 0.0, n);
  }

  /** If the ends of e are to the left of f, so is every meeting point; strictly if the lower end is. */
  lemma MeetingIsLeftOf(e: Edge, f: Edge, y: real)
    requires Straddles(e, y) && Side(f, e.a) >= 0.0 && Side(f, e.b) >= 0.0
    ensures Side(f, MeetingPoint(e, y)) >= 0.0
    ensures (if GoesUp(e, y) then Side(f, e.a) > 0.0 else Side(f, e.b) > 0.0) ==> Side(f, MeetingPoint(e, y)) > 0.0
  {
    MeetingDivides(e, y);
    if GoesUp(e, y) {
      MixtureSign(f, e.a, e.b, MeetingPoint(e, y), e.b.y - y, y - e.a.y);
    } else {
      MixtureSign(f, e.b, e.a, MeetingPoint(e, y), e.a.y - y, y - e.b.y);
    }
  }

  /** The lower end of an edge belongs to no other edge that goes the same way. */
  lemma LowerEndIsElsewhere(poly: Polygon, y: real, i: nat, j: nat)
    requires i < |poly| && j < |poly| && i != j && GoSameWay(Edges(poly)[i], Edges(poly)[j], y)
    ensures var k := if GoesUp(Edges(poly)[i], y) then i else Prev(|poly|, i);
            k != j && k != Prev(|poly|, j)
  {
  }

  lemma MeetingIsLeft(poly: Polygon, y: real, i: nat, j: nat)
    requires LeftConvex(poly) && i < |poly| && j < |poly| && i != j
    requires GoSameWay(Edges(poly)[i], Edges(poly)[j], y)
    ensures Side(Edges(poly)[j], MeetingPoint(Edges(poly)[i], y)) > 0.0
  {
    VertexIsWeaklyLeft(poly, j, i);
    VertexIsWeaklyLeft(poly, j, Prev(|poly|, i));
    LowerEndIsElsewhere(poly, y, i, j);
    MeetingIsLeftOf(Edges(poly)[i], Edges(poly)[j], y);
  }

  /** At every height at most one edge goes up and at most one goes down. */
  lemma OneEachWay(poly: Polygon, y: real, i: nat, j: nat)
    requires LeftConvex(poly) && i < |poly| && j < |poly|
    requires GoSameWay(Edges(poly)[i], Edges(poly)[j], y)
    ensures i == j
  {
    if i != j {
      var (e, f) := (Edges(poly)[i], Edges(poly)[j]);
      MeetingIsLeft(poly, y, i, j);
      MeetingIsLeft(poly, y, j, i);
      LeftMeans(f, MeetingPoint(e, y));
      LeftMeans(e, MeetingPoint(f, y));
      assert false;
    }
  }

  // ----- a point to the left of every edge has vertices above it and not above it -----

  /** How far the line from p to v leans over. */
  function Lean(v: Point, p: Point): real
    requires v.y != p.y
  {
    (v.x - p.x) / (v.y - p.y)
  }

  lemma LeanFalls(e: Edge, p: Point)
    requires Side(e, p) > 0.0 && e.a.y != p.y && e.b.y != p.y && (e.a.y > p.y <==> e.b.y > p.y)
    ensures Lean(e.a, p) > Lean(e.b, p)
  {
    var (ux, uy, wx, wy) := (e.a.x - p.x, e.a.y - p.y, e.b.x - p.x, e.b.y - p.y);
    assert Side(e, p) == ux * wy - wx * uy by {
      assert (wx - ux) * -uy - -ux * (wy - uy) == ux * wy - wx * uy;
    }
    LeansCompare(ux, uy, wx, wy);
  }

  lemma LeansCompare(ux: real, uy: real, wx: real, wy: real)
    requires ux * wy > wx * uy && ((uy > 0.0 && wy > 0.0) || (uy < 0.0 && wy < 0.0))
    ensures ux / uy > wx / wy
  {
    var (l, m) := (ux / uy, wx / wy);
    assert l * uy == ux && m * wy == wx;
    assert l * (uy * wy) == ux * wy && m * (uy * wy) == wx * uy;
    assert uy * wy > 0.0 by {
      if uy > 0.0 { ProductIsPositive(uy, wy); } else { ProductIsPositive(-uy, -wy); }
      assert Product(uy, wy) == uy * wy && Product(-uy, -wy) == uy * wy;
    }
    ScalingKeepsOrder(l, m, uy * wy);
  }

  /** All vertices above p, or none of them. */
  predicate AllOneWay(poly: Polygon, y: real) {
    forall i, j :: 0 <= i < |poly| && 0 <= j < |poly| ==> Above(poly[i], y) == Above(poly[j], y)
  }

  lemma ProductSigns(x: real, u: real)
    requires u >= 0.0
    ensures x <= 0.0 ==> x * u <= 0.0
  {
  }

  /** A vertex at p's own height, with both its neighbours no higher, would have to be on both
      sides of p. */
  lemma LevelVertexClashes(e: Edge, f: Edge, p: Point)
    requires e.a == f.b && e.a.y == p.y && e.b.y <= p.y && f.a.y <= p.y
    requires Side(e, p) > 0.0
    ensures Side(f, p) <= 0.0
  {
    assert Side(e, p) == (p.x - e.a.x) * (p.y - e.b.y);
    ProductSigns(p.x - e.a.x, p.y - e.b.y);
    if Side(f, p) > 0.0 {
      assert Side(f, p) == (f.b.x - p.x) * (p.y - f.a.y) by {
        var (x, u, h) := (f.b.x - f.a.x, p.x - f.a.x, p.y - f.a.y);
        assert x * h - u * h == (x - u) * h;
      }
      ProductSigns(f.b.x - p.x, p.y - f.a.y);
    }
  }

  lemma NoneIsLevel(poly: Polygon, p: Point, i: nat)
    requires |poly| >= 3 && LeftOfAll(poly, p) && AllOneWay(poly, p.y) && i < |poly|
    ensures poly[i].y != p.y
  {
    if poly[i].y == p.y {
      var (h, j) := (Prev(|poly|, i), if i == |poly| - 1 then 0 else i + 1);
      assert Above(poly[h], p.y) == Above(poly[i], p.y) == Above(poly[j], p.y);
      LevelVertexClashes(Edges(poly)[i], Edges(poly)[j], p);
      assert false;
    }
  }

  lemma {:induction false} LeansFall(poly: Polygon, p: Point, k: nat)
    requires |poly| >= 3 && LeftOfAll(poly, p) && AllOneWay(poly, p.y) && k < |poly|
    requires forall i :: 0 <= i < |poly| ==> poly[i].y != p.y
    ensures k > 0 ==> Lean(poly[k], p) > Lean(poly[0], p)
    decreases k
  {
    if k > 0 {
      LeansFall(poly, p, k - 1);
      assert Above(poly[k], p.y) == Above(poly[k - 1], p.y);
      LeanFalls(Edges(poly)[k], p);
    }
  }

  lemma NotAllOneWay(poly: Polygon, p: Point)
    requires |poly| >= 3 && LeftOfAll(poly, p)
    ensures !AllOneWay(poly, p.y)
  {
    if AllOneWay(poly, p.y) {
      forall i | 0 <= i < |poly| ensures poly[i].y != p.y {
        NoneIsLevel(poly, p, i);
      }
      LeansFall(poly, p, |poly| - 1);
      assert Above(poly[0], p.y) == Above(poly[|poly| - 1], p.y);
      LeanFalls(Edges(poly)[0], p);
      assert false;
    }
  }

  lemma {:induction false} SameAlongChain(poly: Polygon, y: real, k: nat)
    requires k < |poly| && forall i :: 0 <= i < |poly| ==> !Straddles(Edges(poly)[i], y)
    ensures Above(poly[k], y) == Above(poly[0], y)
    decreases k
  {
    if k > 0 {
      SameAlongChain(poly, y, k - 1);
      EdgeStraddles(poly, y, k);
    }
  }

  /** So some edge is at its height. */
  lemma SomeEdgeStraddles(poly: Polygon, p: Point) returns (i: nat)
    requires |poly| >= 3 && LeftOfAll(poly, p)
    ensures i < |poly| && Straddles(Edges(poly)[i], p.y)
  {
    NotAllOneWay(poly, p);
    if forall k :: 0 <= k < |poly| ==> !Straddles(Edges(poly)[k], p.y) {
      forall k, l | 0 <= k < |poly| && 0 <= l < |poly| ensures Above(poly[k], p.y) == Above(poly[l], p.y) {
        SameAlongChain(poly, p.y, k);
        SameAlongChain(poly, p.y, l);
      }
      assert false;
    }
    i :| 0 <= i < |poly| && Straddles(Edges(poly)[i], p.y);
  }

  // ----- one edge up and one edge down -----

  function IsUp(y: real): Edge -> bool {
    (e: Edge) => GoesUp(e, y)
  }

  function IsDown(y: real): Edge -> bool {
    (e: Edge) => GoesDown(e, y)
  }

  /** A test that only the i-th can pass. */
  lemma {:induction false} CountOnly<T>(xs: seq<T>, i: nat, p: T -> bool)
    requires i < |xs| && forall k :: 0 <= k < |xs| && k != i ==> !p(xs[k])
    ensures Count(xs, p) == if p(xs[i]) then 1 else 0
    decreases |xs|
  {
    var n := |xs| - 1;
    if i == n {
      CountNone(xs[..n], p);
    } else {
      CountOnly(xs[..n], i, p);
    }
  }

  lemma {:induction false} CountNone<T>(xs: seq<T>, p: T -> bool)
    requires forall k :: 0 <= k < |xs| ==> !p(xs[k])
    ensures Count(xs, p) == 0
    decreases |xs|
  {
    if xs != [] {
      CountNone(xs[..|xs| - 1], p);
    }
  }

  lemma OnlyOneGoesUp(poly: Polygon, y: real, i: nat)
    requires LeftConvex(poly) && i < |poly| && GoesUp(Edges(poly)[i], y)
    ensures forall k :: 0 <= k < |poly| && k != i ==> !GoesUp(Edges(poly)[k], y)
  {
    forall k | 0 <= k < |poly| && k != i ensures !GoesUp(Edges(poly)[k], y) {
      if GoesUp(Edges(poly)[k], y) {
        OneEachWay(poly, y, k, i);
        assert false;
      }
    }
  }

  lemma OnlyOneGoesDown(poly: Polygon, y: real, i: nat)
    requires LeftConvex(poly) && i < |poly| && GoesDown(Edges(poly)[i], y)
    ensures forall k :: 0 <= k < |poly| && k != i ==> !GoesDown(Edges(poly)[k], y)
  {
    forall k | 0 <= k < |poly| && k != i ensures !GoesDown(Edges(poly)[k], y) {
      if GoesDown(Edges(poly)[k], y) {
        OneEachWay(poly, y, k, i);
        assert false;
      }
    }
  }

  /** An even number of things, each of one of two kinds: if exactly one is of one kind, there is one of
      the other. */
  lemma OtherKindIsThere<T>(xs: seq<T>, i: nat, p: T -> bool, q: T -> bool, r: T -> bool) returns (j: nat)
    requires forall k :: 0 <= k < |xs| ==> (r(xs[k]) <==> p(xs[k]) || q(xs[k])) && !(p(xs[k]) && q(xs[k]))
    requires i < |xs| && p(xs[i]) && forall k :: 0 <= k < |xs| && k != i ==> !p(xs[k])
    requires Count(xs, r) % 2 == 0
    ensures j < |xs| && q(xs[j])
  {
    CountSplits(xs, p, q, r);
    CountOnly(xs, i, p);
    j := CountedIsThere(xs, q);
  }

  lemma DownBeside(poly: Polygon, y: real, up: nat) returns (down: nat)
    requires LeftConvex(poly) && up < |poly| && GoesUp(Edges(poly)[up], y)
    ensures down < |poly| && GoesDown(Edges(poly)[down], y)
  {
    StraddlesAreEven(poly, y);
    OnlyOneGoesUp(poly, y, up);
    down := OtherKindIsThere(Edges(poly), up, IsUp(y), IsDown(y), IsStraddling(y));
  }

  lemma UpBeside(poly: Polygon, y: real, down: nat) returns (up: nat)
    requires LeftConvex(poly) && down < |poly| && GoesDown(Edges(poly)[down], y)
    ensures up < |poly| && GoesUp(Edges(poly)[up], y)
  {
    StraddlesAreEven(poly, y);
    OnlyOneGoesDown(poly, y, down);
    up := OtherKindIsThere(Edges(poly), down, IsDown(y), IsUp(y), IsStraddling(y));
  }

  /** When some edge is at the height, exactly one goes up and exactly one goes down. */
  lemma UpAndDown(poly: Polygon, y: real, some: nat) returns (up: nat, down: nat)
    requires LeftConvex(poly) && some < |poly| && Straddles(Edges(poly)[some], y)
    ensures up < |poly| && GoesUp(Edges(poly)[up], y)
    ensures down < |poly| && GoesDown(Edges(poly)[down], y)
    ensures forall k :: 0 <= k < |poly| && k != up && k != down ==> !Straddles(Edges(poly)[k], y)
  {
    if GoesUp(Edges(poly)[some], y) {
      up := some;
      down := DownBeside(poly, y, up);
    } else {
      down := some;
      up := UpBeside(poly, y, down);
    }
    OnlyOneGoesUp(poly, y, up);
    OnlyOneGoesDown(poly, y, down);
  }

  // ----- the answer for a strictly convex polygon -----

  lemma {:induction false} CountTwo<T>(xs: seq<T>, i: nat, j: nat, p: T -> bool)
    requires i < |xs| && j < |xs| && i != j && forall k :: 0 <= k < |xs| && k != i && k != j ==> !p(xs[k])
    ensures Count(xs, p) == (if p(xs[i]) then 1 else 0) + (if p(xs[j]) then 1 else 0)
    decreases |xs|
  {
    var n := |xs| - 1;
    if i == n {
      CountOnly(xs[..n], j, p);
    } else if j == n {
      CountOnly(xs[..n], i, p);
    } else {
      CountTwo(xs[..n], i, j, p);
    }
  }

  lemma CrossingsCounted(poly: Polygon, p: Point, up: nat, down: nat)
    requires up < |poly| && down < |poly| && up != down
    requires forall k :: 0 <= k < |poly| && k != up && k != down ==> !Straddles(Edges(poly)[k], p.y)
    ensures Count(Edges(poly), IsCrossed(p))
            == (if Crosses(Edges(poly)[up], p) then 1 else 0) + (if Crosses(Edges(poly)[down], p) then 1 else 0)
  {
    CountTwo(Edges(poly), up, down, IsCrossed(p));
  }

  lemma OddOfTwo(a: bool, b: bool)
    ensures ((if a then 1 else 0) + (if b then 1 else 0)) % 2 == 1 <==> a != b
  {
  }

  /** What the ray counts. */
  lemma CrossingsOfConvex(poly: Polygon, p: Point, up: nat, down: nat)
    requires up < |poly| && GoesUp(Edges(poly)[up], p.y) && down < |poly| && GoesDown(Edges(poly)[down], p.y)
    requires forall k :: 0 <= k < |poly| && k != up && k != down ==> !Straddles(Edges(poly)[k], p.y)
    ensures Count(Edges(poly), IsCrossed(p)) % 2 == 1
            <==> (Side(Edges(poly)[up], p) > 0.0 <==> Side(Edges(poly)[down], p) >= 0.0)
  {
    CrossingsCounted(poly, p, up, down);
    var e, f :| e == Edges(poly)[up] && f == Edges(poly)[down];
    CrossesExactly(e, p);
    CrossesExactly(f, p);
    OddOfTwo(Crosses(e, p), Crosses(f, p));
  }

  lemma MeetingIsWeaklyLeft(poly: Polygon, y: real, k: nat, i: nat)
    requires LeftConvex(poly) && k < |poly| && i < |poly| && Straddles(Edges(poly)[i], y)
    ensures Side(Edges(poly)[k], MeetingPoint(Edges(poly)[i], y)) >= 0.0
  {
    VertexIsWeaklyLeft(poly, k, i);
    VertexIsWeaklyLeft(poly, k, Prev(|poly|, i));
    MeetingIsLeftOf(Edges(poly)[i], Edges(poly)[k], y);
  }

  lemma InsideIsCrossedOddly(poly: Polygon, p: Point)
    requires LeftConvex(poly) && LeftOfAll(poly, p)
    ensures Count(Edges(poly), IsCrossed(p)) % 2 == 1
  {
    var some := SomeEdgeStraddles(poly, p);
    var up, down := UpAndDown(poly, p.y, some);
    CrossingsOfConvex(poly, p, up, down);
  }

  function LowerEnd(e: Edge, y: real): Point {
    if GoesUp(e, y) then e.a else e.b
  }

  function UpperEnd(e: Edge, y: real): Point {
    if GoesUp(e, y) then e.b else e.a
  }

  lemma WholeShare(x: real, y: real, s: real, t: real)
    requires s > 0.0 && t == 0.0 && (s + t) * x == s * y
    ensures x == y
  {
    Cancel(x, y, s);
  }

  /** A meeting point on the line of f, when e's upper end is off it, is e's lower end. */
  lemma OnlyTheLowerEnd(e: Edge, f: Edge, y: real)
    requires Straddles(e, y) && Side(f, LowerEnd(e, y)) >= 0.0 && Side(f, UpperEnd(e, y)) > 0.0
    requires Side(f, MeetingPoint(e, y)) <= 0.0
    ensures MeetingPoint(e, y) == LowerEnd(e, y)
  {
    var (a, b, q) := (LowerEnd(e, y), UpperEnd(e, y), MeetingPoint(e, y));
    MeetingDivides(e, y);
    MixtureSign(f, a, b, q, b.y - y, y - a.y);
    WholeShare(q.x, a.x, b.y - y, y - a.y);
    WholeShare(q.y, a.y, b.y - y, y - a.y);
  }

  /** An edge that neither goes up nor down at the height meets the two that do in its own ends,
      if at all. */
  lemma LevelEdgeEnds(poly: Polygon, y: real, up: nat, down: nat, k: nat)
    requires LeftConvex(poly) && up < |poly| && down < |poly| && k < |poly| && k != up && k != down
    requires GoesUp(Edges(poly)[up], y) && GoesDown(Edges(poly)[down], y)
    requires Side(Edges(poly)[k], MeetingPoint(Edges(poly)[up], y)) <= 0.0
    requires Side(Edges(poly)[k], MeetingPoint(Edges(poly)[down], y)) <= 0.0
    ensures MeetingPoint(Edges(poly)[down], y) == poly[k]
    ensures MeetingPoint(Edges(poly)[up], y) == poly[Prev(|poly|, k)]
  {
    var n := |poly|;
    LowerEndOnLine(poly, y, up, k);
    LowerEndOnLine(poly, y, down, k);
  }

  /** Which end of the other edge can be on the line of edge k. */
  lemma LowerEndOnLine(poly: Polygon, y: real, i: nat, k: nat)
    requires LeftConvex(poly) && i < |poly| && k < |poly| && k != i && Straddles(Edges(poly)[i], y)
    requires Side(Edges(poly)[k], MeetingPoint(Edges(poly)[i], y)) <= 0.0
    ensures GoesUp(Edges(poly)[i], y) ==> i == Prev(|poly|, k) && MeetingPoint(Edges(poly)[i], y) == poly[i]
    ensures GoesDown(Edges(poly)[i], y) ==>
              Prev(|poly|, i) == k && MeetingPoint(Edges(poly)[i], y) == poly[Prev(|poly|, i)]
  {
    var (e, f) := (Edges(poly)[i], Edges(poly)[k]);
    VertexIsWeaklyLeft(poly, k, i);
    VertexIsWeaklyLeft(poly, k, Prev(|poly|, i));
    MeetingIsLeftOf(e, f, y);
    OnlyTheLowerEnd(e, f, y);
  }

  lemma NearOnDown(e: Edge, p: Point)
    requires GoesDown(e, p.y) && p == MeetingPoint(e, p.y)
    ensures Near(e, p)
  {
    MeetingDivides(e, p.y);
    OnEdgeIsNear(e, p, p.y - e.b.y, e.a.y - p.y);
  }

  lemma MeetingsDivide(a: Point, b: Point, p: Point)
    requires a.y == p.y == b.y && a.x <= p.x < b.x
    ensures Divides(a, b, p, b.x - p.x, p.x - a.x)
  {
    var n := b.x - a.x;
    assert n * p.x == (b.x - p.x) * a.x + (p.x - a.x) * b.x;
    assert n * p.y == (b.x - p.x) * p.y + (p.x - a.x) * p.y;
  }

  /** Where the point stands, given on which side of edge f the two meeting points are. */
  lemma BetweenSides(f: Edge, l: Point, r: Point, p: Point)
    requires l.y == p.y == r.y && l.x < p.x < r.x && Side(f, l) >= 0.0 && Side(f, r) >= 0.0
    ensures Side(f, l) > 0.0 || Side(f, r) > 0.0 ==> Side(f, p) > 0.0
  {
    MeetingsDivide(l, r, p);
    MixtureSign(f, l, r, p, r.x - p.x, p.x - l.x);
  }

  lemma BetweenEndsIsNear(f: Edge, p: Point)
    requires f.a.y == p.y == f.b.y && f.a.x < p.x < f.b.x
    ensures Near(f, p)
  {
    MeetingsDivide(f.a, f.b, p);
    OnEdgeIsNear(f, p, f.b.x - p.x, p.x - f.a.x);
  }

  /** The two edges at the height are on either side of each other. */
  lemma OtherMeetingIsLeft(e: Edge, f: Edge, y: real)
    requires GoesUp(e, y) && GoesDown(f, y) && MeetsAt(f, y) < MeetsAt(e, y)
    ensures Side(f, MeetingPoint(e, y)) > 0.0 && Side(e, MeetingPoint(f, y)) > 0.0
  {
    LeftMeans(f, MeetingPoint(e, y));
    LeftMeans(e, MeetingPoint(f, y));
  }

  /** A point strictly between the two meeting points is left of every edge or on it. */
  lemma BetweenMeetings(poly: Polygon, p: Point, up: nat, down: nat, k: nat)
    requires LeftConvex(poly) && up < |poly| && down < |poly| && k < |poly|
    requires GoesUp(Edges(poly)[up], p.y) && GoesDown(Edges(poly)[down], p.y)
    requires MeetsAt(Edges(poly)[down], p.y) < p.x < MeetsAt(Edges(poly)[up], p.y)
    ensures Side(Edges(poly)[k], p) > 0.0 || Near(Edges(poly)[k], p)
  {
    var (l, r) := (MeetingPoint(Edges(poly)[down], p.y), MeetingPoint(Edges(poly)[up], p.y));
    var f := Edges(poly)[k];
    MeetingIsWeaklyLeft(poly, p.y, k, up);
    MeetingIsWeaklyLeft(poly, p.y, k, down);
    OtherMeetingIsLeft(Edges(poly)[up], Edges(poly)[down], p.y);
    BetweenSides(f, l, r, p);
    if k != up && k != down && Side(f, l) <= 0.0 && Side(f, r) <= 0.0 {
      LevelEdgeEnds(poly, p.y, up, down, k);
      BetweenEndsIsNear(f, p);
    }
  }

  predicate NearSome(poly: Polygon, p: Point) {
    exists i :: 0 <= i < |poly| && Near(Edges(poly)[i], p)
  }

  lemma OddIsBetween(poly: Polygon, p: Point) returns (up: nat, down: nat)
    requires LeftConvex(poly) && Count(Edges(poly), IsCrossed(p)) % 2 == 1
    ensures up < |poly| && GoesUp(Edges(poly)[up], p.y) && down < |poly| && GoesDown(Edges(poly)[down], p.y)
    ensures MeetsAt(Edges(poly)[down], p.y) <= p.x < MeetsAt(Edges(poly)[up], p.y)
  {
    var some := CountedIsThere(Edges(poly), IsCrossed(p));
    up, down := UpAndDown(poly, p.y, some);
    CrossingsOfConvex(poly, p, up, down);
    LeftMeans(Edges(poly)[up], p);
    LeftMeans(Edges(poly)[down], p);
    MeetingIsWeaklyLeft(poly, p.y, down, up);
    LeftMeans(Edges(poly)[down], MeetingPoint(Edges(poly)[up], p.y));
  }

  lemma CrossedOddlyIsInside(poly: Polygon, p: Point)
    requires LeftConvex(poly) && Count(Edges(poly), IsCrossed(p)) % 2 == 1 && !NearSome(poly, p)
    ensures LeftOfAll(poly, p)
  {
    var up, down := OddIsBetween(poly, p);
    if p.x == MeetsAt(Edges(poly)[down], p.y) {
      NearOnDown(Edges(poly)[down], p);
    } else {
      forall k | 0 <= k < |poly| ensures Side(Edges(poly)[k], p) > 0.0 {
        BetweenMeetings(poly, p, up, down, k);
      }
    }
  }

  lemma NearIsCounted(poly: Polygon, p: Point)
    ensures NearSome(poly, p) <==> Count(Edges(poly), IsNear(p)) > 0
  {
    if NearSome(poly, p) {
      var i :| 0 <= i < |poly| && Near(Edges(poly)[i], p);
      FoundIsCounted(Edges(poly), i, IsNear(p));
    }
    if Count(Edges(poly), IsNear(p)) > 0 {
      var i := CountedIsThere(Edges(poly), IsNear(p));
    }
  }

  lemma LeftConvexAccepts(poly: Polygon, p: Point)
    requires LeftConvex(poly)
    ensures Accepts(poly, p) <==> NearSome(poly, p) || LeftOfAll(poly, p)
  {
    NearIsCounted(poly, p);
    if LeftOfAll(poly, p) {
      InsideIsCrossedOddly(poly, p);
    }
    if !NearSome(poly, p) && Count(Edges(poly), IsCrossed(p)) % 2 == 1 {
      CrossedOddlyIsInside(poly, p);
    }
  }

  // ----- either direction -----

  predicate RightConvex(poly: Polygon) {
    && |poly| >= 3
    && forall i, j :: 0 <= i < |poly| && 0 <= j < |poly| && j != i && j != Prev(|poly|, i) ==>
         Side(Edges(poly)[i], poly[j]) < 0.0
  }

  /** Every edge has all other vertices strictly on the same side. */
  predicate Convex(poly: Polygon) {
    LeftConvex(poly) || RightConvex(poly)
  }

  predicate RightOfAll(poly: Polygon, p: Point) {
    forall i :: 0 <= i < |poly| ==> Side(Edges(poly)[i], p) < 0.0
  }

  /** The point is on the same side of every edge as the other vertices are. */
  predicate Inside(poly: Polygon, p: Point) {
    if LeftConvex(poly) then LeftOfAll(poly, p) else RightOfAll(poly, p)
  }

  /** Where edge i of the reversed polygon was. */
  function Mirrored(n: nat, i: nat): (k: nat)
    requires i < n
    ensures k < n
  {
    if i == 0 then 0 else n - i
  }

  lemma ReversedEdge(poly: Polygon, i: nat)
    requires i < |poly|
    ensures Edges(Reversed(poly))[i] == Flip(Edges(poly)[Mirrored(|poly|, i)])
  {
  }

  lemma SideFlips(e: Edge, p: Point)
    ensures Side(Flip(e), p) == -Side(e, p)
  {
  }

  lemma ReversedSide(poly: Polygon, i: nat, p: Point)
    requires i < |poly|
    ensures Side(Edges(Reversed(poly))[i], p) == -Side(Edges(poly)[Mirrored(|poly|, i)], p)
  {
    ReversedEdge(poly, i);
    SideFlips(Edges(poly)[Mirrored(|poly|, i)], p);
  }

  lemma ReversedIsLeftConvex(poly: Polygon)
    requires RightConvex(poly)
    ensures LeftConvex(Reversed(poly))
  {
    var n := |poly|;
    forall i, j | 0 <= i < n && 0 <= j < n && j != i && j != Prev(n, i)
      ensures Side(Edges(Reversed(poly))[i], Reversed(poly)[j]) > 0.0
    {
      ReversedSide(poly, i, Reversed(poly)[j]);
    }
  }

  lemma RightOfEach(poly: Polygon, p: Point, i: nat)
    requires LeftOfAll(Reversed(poly), p) && i < |poly|
    ensures Side(Edges(poly)[i], p) < 0.0
  {
    ReversedSide(poly, Mirrored(|poly|, i), p);
  }

  lemma LeftOfEach(poly: Polygon, p: Point, i: nat)
    requires RightOfAll(poly, p) && i < |poly|
    ensures Side(Edges(Reversed(poly))[i], p) > 0.0
  {
    ReversedSide(poly, i, p);
  }

  lemma ReversedInside(poly: Polygon, p: Point)
    ensures LeftOfAll(Reversed(poly), p) <==> RightOfAll(poly, p)
  {
    if LeftOfAll(Reversed(poly), p) {
      forall i | 0 <= i < |poly| ensures Side(Edges(poly)[i], p) < 0.0 {
        RightOfEach(poly, p, i);
      }
    }
    if RightOfAll(poly, p) {
      forall i | 0 <= i < |poly| ensures Side(Edges(Reversed(poly))[i], p) > 0.0 {
        LeftOfEach(poly, p, i);
      }
    }
  }

  lemma ReversedNearAt(poly: Polygon, p: Point, i: nat)
    requires i < |poly|
    ensures Near(Edges(Reversed(poly))[i], p) == Near(Edges(poly)[Mirrored(|poly|, i)], p)
  {
    ReversedEdge(poly, i);
    FlippedIsTheSame(Edges(poly)[Mirrored(|poly|, i)], p);
  }

  lemma NearSomeAt(poly: Polygon, p: Point, i: nat)
    requires i < |poly| && Near(Edges(poly)[i], p)
    ensures NearSome(poly, p)
  {
  }

  lemma NearGoesOver(poly: Polygon, p: Point)
    requires NearSome(poly, p)
    ensures NearSome(Reversed(poly), p)
  {
    var i :| 0 <= i < |poly| && Near(Edges(poly)[i], p);
    var j := Mirrored(|poly|, i);
    assert Mirrored(|poly|, j) == i;
    ReversedNearAt(poly, p, j);
    NearSomeAt(Reversed(poly), p, j);
  }

  lemma NearComesBack(poly: Polygon, p: Point)
    requires NearSome(Reversed(poly), p)
    ensures NearSome(poly, p)
  {
    var i :| 0 <= i < |poly| && Near(Edges(Reversed(poly))[i], p);
    ReversedNearAt(poly, p, i);
    NearSomeAt(poly, p, Mirrored(|poly|, i));
  }

  lemma ReversedNear(poly: Polygon, p: Point)
    ensures NearSome(Reversed(poly), p) <==> NearSome(poly, p)
  {
    if NearSome(poly, p) {
      NearGoesOver(poly, p);
    }
    if NearSome(Reversed(poly), p) {
      NearComesBack(poly, p);
    }
  }

  /** For every strictly convex polygon, in either direction, and every point: it is accepted exactly
      when it is near an edge or on the inner side of all of them. */
  lemma ConvexAcceptsExactly(poly: Polygon, p: Point)
    requires Convex(poly)
    ensures Accepts(poly, p) <==> NearSome(poly, p) || Inside(poly, p)
  {
    if LeftConvex(poly) {
      LeftConvexAccepts(poly, p);
    } else {
      ReversedIsLeftConvex(poly);
      LeftConvexAccepts(Reversed(poly), p);
      DirectionDoesNotMatter(poly, p);
      ReversedInside(poly, p);
      ReversedNear(poly, p);
    }
  }

  lemma SideCycles(a: Point, b: Point, c: Point)
    ensures Side(Edge(a, c), b) == -Side(Edge(a, b), c) && Side(Edge(b, a), c) == -Side(Edge(a, b), c)
  {
    SideFlips(Edge(a, b), c);
  }

  /** Every triangle whose corners are not on one line is such a polygon. */
  lemma TriangleIsConvex(a: Point, b: Point, c: Point)
    requires Side(Edge(a, b), c) != 0.0
    ensures Convex([a, b, c])
  {
    var poly := [a, b, c];
    SideCycles(a, b, c);
    SideCycles(b, c, a);
    assert Edges(poly)[0] == Edge(a, c) && Edges(poly)[1] == Edge(b, a) && Edges(poly)[2] == Edge(c, b);
  }
}
