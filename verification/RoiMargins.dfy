/** When the rectangle of get_bounds holds every accepted foot point, for every margin: with whole
    pixels, with any vertices and no frame, and with any vertices in a frame. */
module RoiMargins {
  import opened Options
  import opened Reals
  import opened Polygons
  import opened PolygonBounds
  import opened RoiZones

  /** Whatever the zones, as long as their vertices are whole pixels. */
  ghost predicate MarginSuffices(margin: int) {
    forall rois: seq<Roi>, frame: FrameSize, p: Point, zone: Roi ::
      Escapes(margin, rois, frame, p, zone) ==> !OnWholePixels(Vertices(rois))
  }

  const SQUARE: Polygon := [Point(10.0, 10.0), Point(20.0, 10.0), Point(20.0, 20.0), Point(10.0, 20.0)]

  /** Half a pixel to the left of the square is still accepted. */
  lemma SquareToleratesHalfAPixel()
    ensures Accepts(SQUARE, Point(9.5, 15.0))
  {
    assert Edges(SQUARE)[0] == Edge(Point(10.0, 10.0), Point(10.0, 20.0));
    NearEdgeAccepts(SQUARE, 0, Point(9.5, 15.0));
  }

  lemma OneZone(zone: Roi, p: Point)
    requires zone.enabled && Accepts(zone.polygon, p)
    ensures zone in ZonesAt([zone], p) && Vertices([zone]) == zone.polygon
  {
    assert [zone][..0] == [];
  }

  lemma SquareStartsAtTen(margin: int, size: Option<int>)
    requires margin < 1
    ensures Extent(Xs(SQUARE), margin, size).0 >= 10
  {
    var i := LowestIsThere(Xs(SQUARE));
    assert Xs(SQUARE)[i] == SQUARE[i].x >= 10.0;
  }

  /** A point beside the rectangle, to the left or to the right. */
  predicate Beside(margin: int, poly: Polygon, frame: FrameSize, p: Point)
    requires poly != []
  {
    var (start, length) := Extent(Xs(poly), margin, if frame.Some? then Some(frame.value.0) else None);
    p.x < start as real || (start + length) as real < p.x
  }

  lemma OneZoneEscapes(margin: int, zone: Roi, frame: FrameSize, p: Point)
    requires zone.enabled && Accepts(zone.polygon, p) && zone.polygon != [] && InFrame(p, frame)
    requires Beside(margin, zone.polygon, frame, p)
    ensures Escapes(margin, [zone], frame, p, zone) && Vertices([zone]) == zone.polygon
  {
    OneZone(zone, p);
  }

  lemma SquareIsWhole()
    ensures OnWholePixels(SQUARE)
  {
  }

  lemma SquareEscapes(margin: int, frame: FrameSize) returns (zone: Roi, p: Point)
    requires margin < 1 && InFrame(Point(9.5, 15.0), frame)
    ensures Escapes(margin, [zone], frame, p, zone) && OnWholePixels(Vertices([zone]))
  {
    zone :| zone == Roi("square", true, SQUARE);
    p :| p == Point(9.5, 15.0);
    SquareToleratesHalfAPixel();
    SquareStartsAtTen(margin, if frame.Some? then Some(frame.value.0) else None);
    SquareIsWhole();
    OneZoneEscapes(margin, zone, frame, p);
  }

  /** A margin suffices exactly when it is at least one pixel: the test tolerates points that
      far outside. */
  lemma MarginOneIsEnough(margin: int)
    ensures MarginSuffices(margin) <==> margin >= 1
  {
    if margin >= 1 {
      forall rois: seq<Roi>, frame: FrameSize, p: Point, zone: Roi | Escapes(margin, rois, frame, p, zone)
        ensures !OnWholePixels(Vertices(rois))
      {
        if OnWholePixels(Vertices(rois)) {
          AcceptedIsInBounds(rois, margin, frame, p, zone);
          assert false;
        }
      }
    } else {
      var zone, p := SquareEscapes(margin, None);
    }
  }

  // ----- any vertices, no frame -----

  /** Whatever the zones, as long as there is no frame to clamp to. */
  ghost predicate SufficesUnframed(margin: int) {
    forall rois: seq<Roi>, p: Point, zone: Roi :: !Escapes(margin, rois, None, p, zone)
  }

  /** Cutting start and length to whole pixels loses less than two, which a margin of three has to
      spare beyond the one of the tolerance. */
  lemma UnframedExtentCovers(coords: seq<real>, margin: int, v: real)
    requires coords != [] && margin >= 3 && 0.0 <= v
    requires Lowest(coords) - 1.0 < v < Highest(coords) + 1.0
    ensures var (start, length) := Extent(coords, margin, None); start as real <= v <= (start + length) as real
  {
    var (start, end) := (StartOf(coords, margin), EndOf(coords, margin, None));
    assert start <= v <= end - 2.0;
    assert start - 1.0 < Truncated(start) as real <= start && Truncated(end - start) as real > end - start - 1.0;
  }

  lemma UnframedIsCovered(rois: seq<Roi>, margin: int, p: Point, zone: Roi)
    requires zone in ZonesAt(rois, p) && InFrame(p, None) && margin >= 3
    ensures !Escapes(margin, rois, None, p, zone)
  {
    AcceptedIsNearBounds(rois, p, zone);
    UnframedExtentCovers(Xs(Vertices(rois)), margin, p.x);
    UnframedExtentCovers(Ys(Vertices(rois)), margin, p.y);
  }

  lemma LowestIs(xs: seq<real>, i: nat)
    requires i < |xs| && forall j :: 0 <= j < |xs| ==> xs[i] <= xs[j]
    ensures Lowest(xs) == xs[i]
  {
    var j := LowestIsThere(xs);
  }

  lemma HighestIs(xs: seq<real>, i: nat)
    requires i < |xs| && forall j :: 0 <= j < |xs| ==> xs[j] <= xs[i]
    ensures Highest(xs) == xs[i]
  {
    var j := HighestIsThere(xs);
  }

  /** A point less than a pixel beside an upright edge. */
  lemma UprightEdgeIsNear(e: Edge, p: Point)
    requires e.a.x == e.b.x && e.b.y < e.a.y && e.b.y <= p.y <= e.a.y && -1.0 < p.x - e.a.x < 1.0
    ensures Near(e, p)
  {
    var (h, u, v) := (e.a.y - e.b.y, p.x - e.a.x, e.a.y - p.y);
    assert SquaredLength(e) == h * h && Cross(e, p) == -(u * h) && Dot(e, p) == v * h;
    ProductIsPositive(h, h);
    assert Product(h, h) == h * h;
    assert u * h * (u * h) == u * u * (h * h);
    assert u * u < 1.0;
    ScalingKeepsOrder(1.0, u * u, h * h);
    ScalingKeepsOrder(v, h, h);
    ScalingKeepsOrder(0.0, v, h);
  }

  /** Three points whose right side is upright: one fraction below a whole pixel on the left. */
  function TriangleFor(margin: int): Polygon {
    var m := margin as real;
    [Point(m + 0.875, m + 0.875), Point(m + 1.75, m + 0.875), Point(m + 1.75, m + 7.0)]
  }

  lemma TriangleAccepts(margin: int, poly: Polygon, p: Point)
    requires poly == TriangleFor(margin) && p == Point(margin as real + 2.5, margin as real + 2.0)
    ensures Accepts(poly, p)
  {
    UprightEdgeIsNear(Edge(poly[2], poly[1]), p);
    NearEdgeAccepts(poly, 2, p);
  }

  lemma TriangleEscapes(margin: int) returns (zone: Roi, p: Point)
    requires 1 <= margin <= 2
    ensures Escapes(margin, [zone], None, p, zone)
    ensures zone.polygon == TriangleFor(margin) && p == Point(margin as real + 2.5, margin as real + 2.0)
  {
    zone := Roi("triangle", true, TriangleFor(margin));
    p := Point(margin as real + 2.5, margin as real + 2.0);
    TriangleAccepts(margin, zone.polygon, p);
    TriangleEndsEarly(margin, zone.polygon);
    OneZoneEscapes(margin, zone, None, p);
  }

  lemma TriangleEndsEarly(margin: int, poly: Polygon)
    requires 1 <= margin <= 2 && poly == TriangleFor(margin)
    ensures Extent(Xs(poly), margin, None) == (0, 2 * margin)
  {
    LowestIs(Xs(poly), 0);
    HighestIs(Xs(poly), 1);
    var (start, end) := (StartOf(Xs(poly), margin), EndOf(Xs(poly), margin, None));
    assert start == 0.875 && end - start == (2 * margin) as real + 0.875;
    FloorIs(start, 0);
    FloorIs(end - start, 2 * margin);
  }

  lemma FloorIs(x: real, n: int)
    requires n as real <= x < n as real + 1.0
    ensures x.Floor == n
  {
  }

  /** Without a frame, a margin suffices for every zone exactly when it is at least three. */
  lemma MarginThreeIsEnough(margin: int)
    ensures SufficesUnframed(margin) <==> margin >= 3
  {
    if margin >= 3 {
      forall rois: seq<Roi>, p: Point, zone: Roi ensures !Escapes(margin, rois, None, p, zone) {
        if zone in ZonesAt(rois, p) && InFrame(p, None) {
          UnframedIsCovered(rois, margin, p, zone);
        }
      }
    } else if margin >= 1 {
      var zone, p := TriangleEscapes(margin);
    } else {
      var zone, p := SquareEscapes(margin, None);
    }
  }

  // ----- any vertices, in a frame -----

  /** Whatever the zones and whatever the size of the frame. */
  ghost predicate SufficesFramed(margin: int) {
    forall rois: seq<Roi>, size: (int, int), p: Point, zone: Roi :: !Escapes(margin, rois, Some(size), p, zone)
  }

  /** A square that starts and ends halfway between pixels, half a pixel before the frame's edge. */
  function SquareFor(margin: int): Polygon {
    var (lo, hi) := (margin as real + 4.5, margin as real + 83.5);
    [Point(lo, lo), Point(hi, lo), Point(hi, hi), Point(lo, hi)]
  }

  lemma SquareEndsEarly(margin: int, poly: Polygon)
    requires margin >= 1 && poly == SquareFor(margin)
    ensures Extent(Xs(poly), margin, Some(margin + 84)) == (4, margin + 79)
  {
    LowestIs(Xs(poly), 0);
    HighestIs(Xs(poly), 1);
    var (start, end) := (StartOf(Xs(poly), margin), EndOf(Xs(poly), margin, Some(margin + 84)));
    assert start == 4.5 && end - start == (margin + 79) as real + 0.5;
    FloorIs(start, 4);
    FloorIs(end - start, margin + 79);
  }

  lemma SquareAccepts(margin: int, poly: Polygon, p: Point)
    requires poly == SquareFor(margin) && p == Point(margin as real + 83.25, margin as real + 34.0)
    ensures Accepts(poly, p)
  {
    UprightEdgeIsNear(Edge(poly[2], poly[1]), p);
    NearEdgeAccepts(poly, 2, p);
  }

  /** With the default margin of 16 this is the square from 20.5 to 99.5 in a frame of 100 by 100:
      the rectangle ends at 99, and the point (99.25, 50) is accepted. */
  lemma FramedSquareEscapes(margin: int) returns (zone: Roi, p: Point)
    requires margin >= 1
    ensures Escapes(margin, [zone], Some((margin + 84, margin + 84)), p, zone)
    ensures zone.polygon == SquareFor(margin) && p == Point(margin as real + 83.25, margin as real + 34.0)
  {
    zone := Roi("square", true, SquareFor(margin));
    p := Point(margin as real + 83.25, margin as real + 34.0);
    SquareAccepts(margin, zone.polygon, p);
    SquareEndsEarly(margin, zone.polygon);
    OneZoneEscapes(margin, zone, Some((margin + 84, margin + 84)), p);
  }

  /** With a frame to clamp to, no margin suffices for every zone. */
  lemma NoMarginIsEnoughInAFrame(margin: int)
    ensures !SufficesFramed(margin)
  {
    if margin >= 1 {
      var zone, p := FramedSquareEscapes(margin);
    } else {
      var zone, p := SquareEscapes(margin, Some((100, 100)));
    }
  }

  /** No accepted foot point in the frame has a coordinate outside of this. */
  predicate InReach(coords: seq<real>, size: int, v: real)
    requires coords != []
  {
    0.0 <= v <= size as real && Lowest(coords) - 1.0 < v < Highest(coords) + 1.0
  }

  predicate Held(coords: seq<real>, margin: int, size: int, v: real)
    requires coords != []
  {
    var (start, length) := Extent(coords, margin, Some(size));
    start as real <= v <= (start + length) as real
  }

  /** What the vertices span along one axis. */
  datatype Span = Span(lo: real, hi: real)

  function SpanOf(coords: seq<real>): Span
    requires coords != []
  {
    Span(Lowest(coords), Highest(coords))
  }

  /** What a caller can look at beforehand: the rectangle starts on a whole pixel, or the vertices
      keep two pixels away from the frame's far edge, or the frame does not reach them. */
  predicate KeepsClear(span: Span, margin: int, size: int) {
    || IsWhole(Max(0.0, span.lo - margin as real))
    || span.hi <= size as real - 2.0
    || size < 0 || span.lo >= size as real + 1.0
  }

  /** How much of a whole length is left when its start is cut off and both parts are truncated. */
  lemma CutLength(start: real, size: int)
    requires 0.0 <= start <= size as real
    ensures (Truncated(start) + Truncated(size as real - start)) == if IsWhole(start) then size else size - 1
  {
    var n := start.Floor;
    if start == n as real {
      FloorIs(size as real - start, size - n);
    } else {
      FloorIs(size as real - start, size - n - 1);
    }
  }

  /** The rectangle's far edge along one axis, when the zones and the frame have points in common. */
  lemma FarEdge(coords: seq<real>, margin: int, size: int)
    requires coords != [] && margin >= 3 && 0 <= size && Lowest(coords) < size as real + 1.0 && Highest(coords) > -1.0
    ensures var (start, length) := Extent(coords, margin, Some(size));
            && start as real <= StartOf(coords, margin)
            && if size as real <= Highest(coords) + margin as real then
                 start + length == if IsWhole(StartOf(coords, margin)) then size else size - 1
               else Highest(coords) + 1.0 <= (start + length) as real
  {
    var (start, end) := (StartOf(coords, margin), EndOf(coords, margin, Some(size)));
    if size as real <= Highest(coords) + margin as real {
      CutLength(start, size);
    } else {
      assert start <= end;
      assert Truncated(start) as real > start - 1.0 && Truncated(end - start) as real > end - start - 1.0;
    }
  }

  lemma ClearAxisHolds(coords: seq<real>, margin: int, size: int, v: real)
    requires coords != [] && margin >= 3 && KeepsClear(SpanOf(coords), margin, size) && InReach(coords, size, v)
    ensures Held(coords, margin, size, v)
  {
    FarEdge(coords, margin, size);
  }

  lemma LowestBelowHighest(coords: seq<real>)
    requires coords != []
    ensures Lowest(coords) <= Highest(coords)
  {
    var i := LowestIsThere(coords);
  }

  lemma BlockedAxisMisses(coords: seq<real>, margin: int, size: int) returns (v: real)
    requires coords != [] && margin >= 3 && !KeepsClear(SpanOf(coords), margin, size)
    ensures InReach(coords, size, v) && !Held(coords, margin, size, v)
  {
    LowestBelowHighest(coords);
    IntegersAreWhole(0, 0.0);
    assert Lowest(coords) > margin as real;
    var low := Max(size as real - 1.0, Lowest(coords) - 1.0);
    var high := Min(size as real, Highest(coords) + 1.0);
    v := (low + high) / 2.0;
    FarEdge(coords, margin, size);
  }

  /** Nothing escapes when both axes keep clear. */
  lemma ClearZonesAreCovered(rois: seq<Roi>, margin: int, size: (int, int), p: Point, zone: Roi)
    requires margin >= 3 && Vertices(rois) != []
    requires KeepsClear(SpanOf(Xs(Vertices(rois))), margin, size.0)
    requires KeepsClear(SpanOf(Ys(Vertices(rois))), margin, size.1)
    ensures !Escapes(margin, rois, Some(size), p, zone)
  {
    if zone in ZonesAt(rois, p) && InFrame(p, Some(size)) {
      AcceptedIsNearBounds(rois, p, zone);
      ClearAxisHolds(Xs(Vertices(rois)), margin, size.0, p.x);
      ClearAxisHolds(Ys(Vertices(rois)), margin, size.1, p.y);
    }
  }

  // ----- zones that escape when an axis does not keep clear -----

  predicate Has(vs: seq<Point>, xs: Span, ys: Span) {
    vs != [] && SpanOf(Xs(vs)) == xs && SpanOf(Ys(vs)) == ys
  }

  /** A zone of given spans with an upright edge at c, and one with a level edge at c. */
  function Upright(xs: Span, ys: Span, c: real): Polygon {
    [Point(xs.lo, ys.lo), Point(xs.hi, ys.lo), Point(c, ys.lo), Point(c, ys.hi)]
  }

  function Level(xs: Span, ys: Span, c: real): Polygon {
    [Point(xs.lo, ys.lo), Point(xs.lo, ys.hi), Point(xs.lo, c), Point(xs.hi, c)]
  }

  lemma UprightHas(xs: Span, ys: Span, c: real)
    requires xs.lo <= c <= xs.hi && ys.lo <= ys.hi
    ensures Has(Upright(xs, ys, c), xs, ys)
  {
    var poly := Upright(xs, ys, c);
    LowestIs(Xs(poly), 0);
    HighestIs(Xs(poly), 1);
    LowestIs(Ys(poly), 0);
    HighestIs(Ys(poly), 3);
  }

  lemma LevelHas(xs: Span, ys: Span, c: real)
    requires ys.lo <= c <= ys.hi && xs.lo <= xs.hi
    ensures Has(Level(xs, ys, c), xs, ys)
  {
    var poly := Level(xs, ys, c);
    LowestIs(Xs(poly), 0);
    HighestIs(Xs(poly), 3);
    LowestIs(Ys(poly), 0);
    HighestIs(Ys(poly), 1);
  }

  lemma UprightAccepts(xs: Span, ys: Span, c: real, p: Point)
    requires ys.lo < ys.hi && ys.lo <= p.y <= ys.hi && -1.0 < p.x - c < 1.0
    ensures Accepts(Upright(xs, ys, c), p)
  {
    var poly := Upright(xs, ys, c);
    UprightEdgeIsNear(Edge(poly[3], poly[2]), p);
    NearEdgeAccepts(poly, 3, p);
  }

  /** A point less than a pixel above or below a level edge. */
  lemma LevelEdgeIsNear(e: Edge, p: Point)
    requires e.a.y == e.b.y && e.b.x < e.a.x && e.b.x <= p.x <= e.a.x && -1.0 < p.y - e.a.y < 1.0
    ensures Near(e, p)
  {
    var (f, q) := (Edge(Point(e.a.y, e.a.x), Point(e.b.y, e.b.x)), Point(p.y, p.x));
    UprightEdgeIsNear(f, q);
    MirrorKeepsNear(e, p, f, q);
  }

  /** Exchanging the axes. */
  lemma MirrorKeepsNear(e: Edge, p: Point, f: Edge, q: Point)
    requires f == Edge(Point(e.a.y, e.a.x), Point(e.b.y, e.b.x)) && q == Point(p.y, p.x)
    ensures Near(e, p) == Near(f, q)
  {
    assert SquaredLength(f) == SquaredLength(e) && Dot(f, q) == Dot(e, p);
    assert Cross(f, q) == -Cross(e, p);
    assert Cross(f, q) * Cross(f, q) == Cross(e, p) * Cross(e, p);
  }

  lemma LevelAccepts(xs: Span, ys: Span, c: real, p: Point)
    requires xs.lo < xs.hi && xs.lo <= p.x <= xs.hi && -1.0 < p.y - c < 1.0
    ensures Accepts(Level(xs, ys, c), p)
  {
    var poly := Level(xs, ys, c);
    LevelEdgeIsNear(Edge(poly[3], poly[2]), p);
    NearEdgeAccepts(poly, 3, p);
  }

  lemma UnheldEscapes(margin: int, zone: Roi, size: (int, int), p: Point)
    requires zone.enabled && Accepts(zone.polygon, p) && zone.polygon != [] && InFrame(p, Some(size))
    requires !Held(Xs(zone.polygon), margin, size.0, p.x) || !Held(Ys(zone.polygon), margin, size.1, p.y)
    ensures Escapes(margin, [zone], Some(size), p, zone) && Vertices([zone]) == zone.polygon
  {
    OneZone(zone, p);
  }

  function Clamped(v: real, span: Span): real {
    Max(span.lo, Min(span.hi, v))
  }

  /** The zone and the frame have more than a line in common along this axis. */
  predicate Meets(span: Span, size: int) {
    span.lo < span.hi && 0 <= size && span.lo <= size as real && 0.0 <= span.hi
  }

  lemma BlockedSpanMisses(span: Span, margin: int, size: int) returns (v: real)
    requires span.lo <= span.hi && margin >= 3 && !KeepsClear(span, margin, size)
    ensures 0.0 <= v <= size as real && span.lo - 1.0 < v < span.hi + 1.0
    ensures forall coords: seq<real> :: coords != [] && SpanOf(coords) == span ==> !Held(coords, margin, size, v)
  {
    var coords := [span.lo, span.hi];
    LowestIs(coords, 0);
    HighestIs(coords, 1);
    v := BlockedAxisMisses(coords, margin, size);
    forall others: seq<real> | others != [] && SpanOf(others) == span ensures !Held(others, margin, size, v) {
      assert Extent(others, margin, Some(size)) == Extent(coords, margin, Some(size));
    }
  }

  lemma BlockedAcrossEscapes(xs: Span, ys: Span, margin: int, size: (int, int)) returns (zone: Roi, p: Point)
    requires margin >= 3 && xs.lo <= xs.hi && !KeepsClear(xs, margin, size.0) && Meets(ys, size.1)
    ensures Has(Vertices([zone]), xs, ys) && Escapes(margin, [zone], Some(size), p, zone)
  {
    var v := BlockedSpanMisses(xs, margin, size.0);
    var c := Clamped(v, xs);
    p := Point(v, Max(0.0, ys.lo));
    zone := Roi("upright", true, Upright(xs, ys, c));
    UprightHas(xs, ys, c);
    UprightAccepts(xs, ys, c, p);
    UnheldEscapes(margin, zone, size, p);
  }

  lemma BlockedDownEscapes(xs: Span, ys: Span, margin: int, size: (int, int)) returns (zone: Roi, p: Point)
    requires margin >= 3 && ys.lo <= ys.hi && !KeepsClear(ys, margin, size.1) && Meets(xs, size.0)
    ensures Has(Vertices([zone]), xs, ys) && Escapes(margin, [zone], Some(size), p, zone)
  {
    var v := BlockedSpanMisses(ys, margin, size.1);
    var c := Clamped(v, ys);
    p := Point(Max(0.0, xs.lo), v);
    zone := Roi("level", true, Level(xs, ys, c));
    LevelHas(xs, ys, c);
    LevelAccepts(xs, ys, c, p);
    UnheldEscapes(margin, zone, size, p);
  }

  /** Whatever zones have these spans. */
  ghost predicate SpansAreSafe(xs: Span, ys: Span, margin: int, size: (int, int)) {
    forall rois: seq<Roi>, p: Point, zone: Roi ::
      Has(Vertices(rois), xs, ys) ==> !Escapes(margin, rois, Some(size), p, zone)
  }

  /** Among all zones whose vertices span the same box, one that is not flat and meets the frame,
      none has a point that escapes exactly when both axes of the box keep clear. */
  lemma SpansAreSafeExactly(xs: Span, ys: Span, margin: int, size: (int, int))
    requires margin >= 3 && Meets(xs, size.0) && Meets(ys, size.1)
    ensures SpansAreSafe(xs, ys, margin, size) <==> KeepsClear(xs, margin, size.0) && KeepsClear(ys, margin, size.1)
  {
    if !KeepsClear(xs, margin, size.0) {
      var zone, p := BlockedAcrossEscapes(xs, ys, margin, size);
    } else if !KeepsClear(ys, margin, size.1) {
      var zone, p := BlockedDownEscapes(xs, ys, margin, size);
    } else {
      forall rois: seq<Roi>, p: Point, zone: Roi | Has(Vertices(rois), xs, ys)
        ensures !Escapes(margin, rois, Some(size), p, zone)
      {
        ClearZonesAreCovered(rois, margin, size, p, zone);
      }
    }
  }

  /** Whatever zones span this across and keep clear in the other direction. */
  ghost predicate SafeAcross(xs: Span, margin: int, width: int) {
    forall rois: seq<Roi>, height: int, p: Point, zone: Roi ::
      ClearDown(rois, xs, margin, height) ==> !Escapes(margin, rois, Some((width, height)), p, zone)
  }

  predicate ClearDown(rois: seq<Roi>, xs: Span, margin: int, height: int) {
    var vs := Vertices(rois);
    vs != [] && SpanOf(Xs(vs)) == xs && KeepsClear(SpanOf(Ys(vs)), margin, height)
  }

  ghost predicate SafeDown(ys: Span, margin: int, height: int) {
    forall rois: seq<Roi>, width: int, p: Point, zone: Roi ::
      ClearAcross(rois, ys, margin, width) ==> !Escapes(margin, rois, Some((width, height)), p, zone)
  }

  predicate ClearAcross(rois: seq<Roi>, ys: Span, margin: int, width: int) {
    var vs := Vertices(rois);
    vs != [] && SpanOf(Ys(vs)) == ys && KeepsClear(SpanOf(Xs(vs)), margin, width)
  }

  /** The condition across by itself, whatever the box. */
  lemma AcrossIsSafeExactly(xs: Span, margin: int, width: int)
    requires margin >= 3 && xs.lo <= xs.hi
    ensures SafeAcross(xs, margin, width) <==> KeepsClear(xs, margin, width)
  {
    if KeepsClear(xs, margin, width) {
      forall rois: seq<Roi>, height: int, p: Point, zone: Roi | ClearDown(rois, xs, margin, height)
        ensures !Escapes(margin, rois, Some((width, height)), p, zone)
      {
        ClearZonesAreCovered(rois, margin, (width, height), p, zone);
      }
    } else {
      var zone, p := BlockedAcrossEscapes(xs, Span(0.0, 10.0), margin, (width, 100));
      IntegersAreWhole(0, 0.0);
      assert ClearDown([zone], xs, margin, 100);
    }
  }

  /** And down. */
  lemma DownIsSafeExactly(ys: Span, margin: int, height: int)
    requires margin >= 3 && ys.lo <= ys.hi
    ensures SafeDown(ys, margin, height) <==> KeepsClear(ys, margin, height)
  {
    if KeepsClear(ys, margin, height) {
      forall rois: seq<Roi>, width: int, p: Point, zone: Roi | ClearAcross(rois, ys, margin, width)
        ensures !Escapes(margin, rois, Some((width, height)), p, zone)
      {
        ClearZonesAreCovered(rois, margin, (width, height), p, zone);
      }
    } else {
      var zone, p := BlockedDownEscapes(Span(0.0, 10.0), ys, margin, (100, height));
      IntegersAreWhole(0, 0.0);
      assert ClearAcross([zone], ys, margin, 100);
    }
  }
}
