/** Zones of interest: which of them hold a foot point, and the rectangle around all of them. */
module RoiZones {
  import opened Options
  import opened Reals
  import opened Lists
  import opened Polygons
  import opened PolygonBounds

  datatype Roi = Roi(name: string, enabled: bool, polygon: Polygon)

  /** x, y, width and height in whole pixels. */
  datatype Rect = Rect(x: int, y: int, w: int, h: int)

  type FrameSize = Option<(int, int)>

  /** The vertices of the enabled zones, in order. */
  function Vertices(rois: seq<Roi>): seq<Point>
    decreases |rois|
  {
    if rois == [] then []
    else
      var last := rois[|rois| - 1];
      Vertices(rois[..|rois| - 1]) + if last.enabled then last.polygon else []
  }

  function Xs(vs: seq<Point>): (xs: seq<real>)
    ensures |xs| == |vs| && forall i :: 0 <= i < |vs| ==> xs[i] == vs[i].x
  {
    seq(|vs|, i requires 0 <= i < |vs| => vs[i].x)
  }

  function Ys(vs: seq<Point>): (ys: seq<real>)
    ensures |ys| == |vs| && forall i :: 0 <= i < |vs| ==> ys[i] == vs[i].y
  {
    seq(|vs|, i requires 0 <= i < |vs| => vs[i].y)
  }

  function Lowest(xs: seq<real>): (m: real)
    requires xs != []
    ensures forall i :: 0 <= i < |xs| ==> m <= xs[i]
    decreases |xs|
  {
    if |xs| == 1 then xs[0] else Min(Lowest(xs[..|xs| - 1]), xs[|xs| - 1])
  }

  function Highest(xs: seq<real>): (m: real)
    requires xs != []
    ensures forall i :: 0 <= i < |xs| ==> xs[i] <= m
    decreases |xs|
  {
    if |xs| == 1 then xs[0] else Max(Highest(xs[..|xs| - 1]), xs[|xs| - 1])
  }

  /** Python's int(): towards zero. */
  function Truncated(x: real): int {
    if x >= 0.0 then x.Floor else -((-x).Floor)
  }

  function StartOf(coords: seq<real>, margin: int): real
    requires coords != []
  {
    Max(0.0, Lowest(coords) - margin as real)
  }

  function EndOf(coords: seq<real>, margin: int, size: Option<int>): real
    requires coords != []
  {
    var end := Highest(coords) + margin as real;
    if size.Some? then Min(size.value as real, end) else end
  }

  /** One axis of the rectangle: its start and its length. */
  function Extent(coords: seq<real>, margin: int, size: Option<int>): (int, int)
    requires coords != []
  {
    var (start, end) := (StartOf(coords, margin), EndOf(coords, margin, size));
    (Truncated(start), Truncated(end - start))
  }

  function Bounds(rois: seq<Roi>, margin: int, frame: FrameSize): Option<Rect> {
    var vs := Vertices(rois);
    if vs == [] then None
    else
      var (x, w) := Extent(Xs(vs), margin, if frame.Some? then Some(frame.value.0) else None);
      var (y, h) := Extent(Ys(vs), margin, if frame.Some? then Some(frame.value.1) else None);
      Some(Rect(x, y, w, h))
  }

  /** The enabled zones that hold the point, in order. */
  function ZonesAt(rois: seq<Roi>, p: Point): seq<Roi>
    decreases |rois|
  {
    if rois == [] then []
    else
      var last := rois[|rois| - 1];
      ZonesAt(rois[..|rois| - 1], p) + if last.enabled && Accepts(last.polygon, p) then [last] else []
  }

  lemma CoordinatesAppend(vs: seq<Point>, ws: seq<Point>)
    ensures Xs(vs + ws) == Xs(vs) + Xs(ws) && Ys(vs + ws) == Ys(vs) + Ys(ws)
  {
  }

  /** The coordinates of all enabled vertices, by the two nested loops. */
  method CollectCoordinates(rois: seq<Roi>) returns (xs: seq<real>, ys: seq<real>)
    ensures xs == Xs(Vertices(rois)) && ys == Ys(Vertices(rois))
  {
    xs, ys := [], [];
    for i := 0 to |rois|
      invariant xs == Xs(Vertices(rois[..i])) && ys == Ys(Vertices(rois[..i]))
    {
      assert rois[..i + 1][..i] == rois[..i];
      if !rois[i].enabled {
        continue;
      }
      var polygon := rois[i].polygon;
      ghost var before := Vertices(rois[..i]);
      for k := 0 to |polygon|
        invariant xs == Xs(before) + Xs(polygon[..k]) && ys == Ys(before) + Ys(polygon[..k])
      {
        xs := xs + [polygon[k].x];
        ys := ys + [polygon[k].y];
      }
      assert polygon[..|polygon|] == polygon;
      CoordinatesAppend(before, polygon);
    }
    assert rois[..|rois|] == rois;
  }

  method ComputeRoiBounds(rois: seq<Roi>, margin: int, frame: FrameSize) returns (bounds: Option<Rect>)
    ensures bounds == Bounds(rois, margin, frame)
  {
    var xs, ys := CollectCoordinates(rois);
    if xs == [] {
      return None;
    }
    var x1 := Max(0.0, Lowest(xs) - margin as real);
    var y1 := Max(0.0, Lowest(ys) - margin as real);
    var x2 := Highest(xs) + margin as real;
    var y2 := Highest(ys) + margin as real;
    if frame.Some? {
      x2 := Min(frame.value.0 as real, x2);
      y2 := Min(frame.value.1 as real, y2);
    }
    return Some(Rect(Truncated(x1), Truncated(y1), Truncated(x2 - x1), Truncated(y2 - y1)));
  }

  class ROIChecker {
    var rois: seq<Roi>
    const frameSize: FrameSize

    constructor (rois: Option<seq<Roi>>, frameSize: FrameSize)
      ensures this.rois == (if rois.Some? then rois.value else []) && this.frameSize == frameSize
    {
      this.rois := if rois.Some? then rois.value else [];
      this.frameSize := frameSize;
    }

    method Reload(rois: seq<Roi>)
      modifies this
      ensures this.rois == rois
    {
      this.rois := rois;
    }

    method GetBounds(margin: int) returns (bounds: Option<Rect>)
      ensures bounds == Bounds(rois, margin, frameSize)
    {
      bounds := ComputeRoiBounds(rois, margin, frameSize);
    }

    method CheckPerson(foot: Point) returns (zones: seq<Roi>)
      ensures zones == ZonesAt(rois, foot)
    {
      zones := [];
      for i := 0 to |rois|
        invariant zones == ZonesAt(rois[..i], foot)
      {
        assert rois[..i + 1][..i] == rois[..i];
        if !rois[i].enabled {
          continue;
        }
        var inside := PointInPolygon(foot, rois[i].polygon);
        if inside {
          zones := zones + [rois[i]];
        }
      }
      assert rois[..|rois|] == rois;
    }
  }

  // ----- what check_person accepts lies inside get_bounds -----

  predicate InFrame(p: Point, frame: FrameSize) {
    && p.x >= 0.0 && p.y >= 0.0
    && (frame.Some? ==> p.x <= frame.value.0 as real && p.y <= frame.value.1 as real)
  }

  predicate Covers(r: Rect, p: Point) {
    r.x as real <= p.x <= (r.x + r.w) as real && r.y as real <= p.y <= (r.y + r.h) as real
  }

  predicate IsWhole(x: real) {
    x == x.Floor as real
  }

  predicate OnWholePixels(vs: seq<Point>) {
    forall i :: 0 <= i < |vs| ==> IsWhole(vs[i].x) && IsWhole(vs[i].y)
  }

  lemma {:induction false} ZoneIsListed(rois: seq<Roi>, p: Point, zone: Roi) returns (k: nat)
    requires zone in ZonesAt(rois, p)
    ensures k < |rois| && rois[k] == zone && zone.enabled && Accepts(zone.polygon, p)
    decreases |rois|
  {
    var (init, last) := (rois[..|rois| - 1], rois[|rois| - 1]);
    if zone in ZonesAt(init, p) {
      k := ZoneIsListed(init, p, zone);
    } else {
      k := |rois| - 1;
    }
  }

  /** The vertices of an enabled zone are among those bounded. */
  lemma {:induction false} ZoneIsEnclosed(rois: seq<Roi>, k: nat, lo: Point, hi: Point)
    requires k < |rois| && rois[k].enabled && Encloses(lo, hi, Vertices(rois))
    ensures Encloses(lo, hi, rois[k].polygon)
    decreases |rois|
  {
    var n := |rois| - 1;
    var (vs, ws) := (Vertices(rois[..n]), if rois[n].enabled then rois[n].polygon else []);
    assert Vertices(rois) == vs + ws;
    forall i | 0 <= i < |vs| ensures (vs + ws)[i] == vs[i] {
    }
    if k < n {
      ZoneIsEnclosed(rois[..n], k, lo, hi);
    } else {
      assert forall i :: 0 <= i < |ws| ==> (vs + ws)[|vs| + i] == ws[i];
    }
  }

  lemma {:induction false} ZoneIsNoLonger(rois: seq<Roi>, k: nat)
    requires k < |rois| && rois[k].enabled
    ensures |rois[k].polygon| <= |Vertices(rois)|
    decreases |rois|
  {
    if k < |rois| - 1 {
      ZoneIsNoLonger(rois[..|rois| - 1], k);
    }
  }

  lemma NothingIsInNoPolygon(p: Point)
    ensures !Accepts([], p)
  {
    assert Edges([]) == [];
  }

  function Corner(lowest: bool, vs: seq<Point>): Point
    requires vs != []
  {
    if lowest then Point(Lowest(Xs(vs)), Lowest(Ys(vs))) else Point(Highest(Xs(vs)), Highest(Ys(vs)))
  }

  lemma CornersEnclose(vs: seq<Point>)
    requires vs != []
    ensures Encloses(Corner(true, vs), Corner(false, vs), vs)
  {
    forall i | 0 <= i < |vs|
      ensures Lowest(Xs(vs)) <= vs[i].x <= Highest(Xs(vs)) && Lowest(Ys(vs)) <= vs[i].y <= Highest(Ys(vs))
    {
      assert Xs(vs)[i] == vs[i].x && Ys(vs)[i] == vs[i].y;
    }
  }

  lemma {:induction false} LowestIsThere(xs: seq<real>) returns (i: nat)
    requires xs != []
    ensures i < |xs| && xs[i] == Lowest(xs)
    decreases |xs|
  {
    if |xs| == 1 {
      i := 0;
    } else {
      i := LowestIsThere(xs[..|xs| - 1]);
      i := if Lowest(xs) == xs[i] then i else |xs| - 1;
    }
  }

  lemma {:induction false} HighestIsThere(xs: seq<real>) returns (i: nat)
    requires xs != []
    ensures i < |xs| && xs[i] == Highest(xs)
    decreases |xs|
  {
    if |xs| == 1 {
      i := 0;
    } else {
      i := HighestIsThere(xs[..|xs| - 1]);
      i := if Highest(xs) == xs[i] then i else |xs| - 1;
    }
  }

  lemma IntegersAreWhole(n: int, x: real)
    requires x == n as real
    ensures IsWhole(x)
  {
  }

  lemma WholeShift(a: real, n: int)
    requires IsWhole(a)
    ensures IsWhole(a + n as real) && IsWhole(a - n as real)
  {
    IntegersAreWhole(a.Floor + n, a + n as real);
    IntegersAreWhole(a.Floor - n, a - n as real);
  }

  lemma WholeSpan(start: real, end: real)
    requires IsWhole(start) && IsWhole(end) && 0.0 <= start <= end
    ensures Truncated(start) as real == start && (Truncated(start) + Truncated(end - start)) as real == end
  {
    assert end - start == (end.Floor - start.Floor) as real;
  }

  lemma WholeEnds(coords: seq<real>, margin: int, size: Option<int>)
    requires coords != [] && forall i :: 0 <= i < |coords| ==> IsWhole(coords[i])
    ensures IsWhole(StartOf(coords, margin)) && IsWhole(EndOf(coords, margin, size))
  {
    var low := LowestIsThere(coords);
    var high := HighestIsThere(coords);
    WholeShift(coords[low], margin);
    WholeShift(coords[high], margin);
    if size.Some? {
      IntegersAreWhole(size.value, size.value as real);
    }
  }

  /** One axis, whole coordinates: a margin of one pixel is enough. */
  lemma WholeExtentCovers(coords: seq<real>, margin: int, size: Option<int>, v: real)
    requires coords != [] && margin >= 1
    requires forall i :: 0 <= i < |coords| ==> IsWhole(coords[i])
    requires 0.0 <= v && (size.Some? ==> v <= size.value as real)
    requires Lowest(coords) - 1.0 < v < Highest(coords) + 1.0
    ensures var (start, length) := Extent(coords, margin, size); start as real <= v <= (start + length) as real
  {
    WholeEnds(coords, margin, size);
    WholeSpan(StartOf(coords, margin), EndOf(coords, margin, size));
  }

  /** Every in-frame foot point that check_person accepts lies inside the rectangle of
      get_bounds, when vertices are whole pixels and the margin is at least one. */
  lemma AcceptedIsInBounds(rois: seq<Roi>, margin: int, frame: FrameSize, p: Point, zone: Roi)
    requires zone in ZonesAt(rois, p) && InFrame(p, frame) && OnWholePixels(Vertices(rois)) && margin >= 1
    ensures Bounds(rois, margin, frame).Some? && Covers(Bounds(rois, margin, frame).value, p)
  {
    var vs := Vertices(rois);
    AcceptedIsNearBounds(rois, p, zone);
    assert forall i :: 0 <= i < |vs| ==> Xs(vs)[i] == vs[i].x && Ys(vs)[i] == vs[i].y;
    WholeExtentCovers(Xs(vs), margin, if frame.Some? then Some(frame.value.0) else None, p.x);
    WholeExtentCovers(Ys(vs), margin, if frame.Some? then Some(frame.value.1) else None, p.y);
  }

  lemma AcceptedIsNearBounds(rois: seq<Roi>, p: Point, zone: Roi)
    requires zone in ZonesAt(rois, p)
    ensures var vs := Vertices(rois);
            vs != [] && StrictlyWithin(Corner(true, vs), Corner(false, vs), 1.0, p)
  {
    var vs := Vertices(rois);
    var k := ZoneIsListed(rois, p, zone);
    ZoneIsNoLonger(rois, k);
    NothingIsInNoPolygon(p);
    CornersEnclose(vs);
    ZoneIsEnclosed(rois, k, Corner(true, vs), Corner(false, vs));
    AcceptedIsWithinOne(zone.polygon, Corner(true, vs), Corner(false, vs), p);
  }

  /** An in-frame foot point that a zone accepts and the rectangle of get_bounds leaves out. */
  predicate Escapes(margin: int, rois: seq<Roi>, frame: FrameSize, p: Point, zone: Roi) {
    && zone in ZonesAt(rois, p) && InFrame(p, frame)
    && !(Bounds(rois, margin, frame).Some? && Covers(Bounds(rois, margin, frame).value, p))
  }

  /** One axis with any coordinates: cutting to whole pixels loses less than two of them. */
  lemma ExtentAlmostCovers(coords: seq<real>, margin: int, size: Option<int>, v: real)
    requires coords != [] && margin >= 1 && 0.0 <= v && (size.Some? ==> v <= size.value as real)
    requires Lowest(coords) - 1.0 < v < Highest(coords) + 1.0
    ensures var (start, length) := Extent(coords, margin, size);
            start as real <= v < (start + length) as real + 2.0
  {
    var (start, end) := (StartOf(coords, margin), EndOf(coords, margin, size));
    assert start <= v <= end;
    assert Truncated(start) as real <= start && Truncated(end - start) as real > end - start - 1.0;
  }

  /** Without that premise the rectangle misses an accepted point by less than two pixels. */
  lemma AcceptedIsAlmostInBounds(rois: seq<Roi>, margin: int, frame: FrameSize, p: Point, zone: Roi)
    requires zone in ZonesAt(rois, p) && InFrame(p, frame) && margin >= 1
    ensures Bounds(rois, margin, frame).Some?
    ensures var r := Bounds(rois, margin, frame).value;
            r.x as real <= p.x < (r.x + r.w) as real + 2.0 && r.y as real <= p.y < (r.y + r.h) as real + 2.0
  {
    var vs := Vertices(rois);
    AcceptedIsNearBounds(rois, p, zone);
    ExtentAlmostCovers(Xs(vs), margin, if frame.Some? then Some(frame.value.0) else None, p.x);
    ExtentAlmostCovers(Ys(vs), margin, if frame.Some? then Some(frame.value.1) else None, p.y);
  }

  // ----- which zones are found, and how tight the rectangle is -----

  predicate Holds(zone: Roi, p: Point) {
    zone.enabled && Accepts(zone.polygon, p)
  }

  /** The zones found are exactly the enabled ones that accept the point, in order. */
  lemma {:induction false} ZonesAreThoseThatHold(rois: seq<Roi>, p: Point)
    ensures ZonesAt(rois, p) == Filter(rois, zone => Holds(zone, p))
    decreases |rois|
  {
    if rois != [] {
      var n := |rois| - 1;
      ZonesAreThoseThatHold(rois[..n], p);
      FilterNext(rois, zone => Holds(zone, p));
    }
  }

  /** v is a vertex of an enabled zone. */
  predicate IsVertex(rois: seq<Roi>, v: Point) {
    exists k :: 0 <= k < |rois| && rois[k].enabled && v in rois[k].polygon
  }

  lemma {:induction false} VerticesAreOfZones(rois: seq<Roi>, v: Point)
    ensures v in Vertices(rois) <==> IsVertex(rois, v)
    decreases |rois|
  {
    if rois != [] {
      var n := |rois| - 1;
      VerticesAreOfZones(rois[..n], v);
      assert forall k :: 0 <= k < n ==> rois[..n][k] == rois[k];
    }
  }

  /** One axis: the rectangle starts in the frame, at least the margin and less than one pixel
      more before some coordinate, and not later than the margin before any, unless at 0; it ends
      less than a pixel beyond the frame or the last coordinate with its margin, and less than two
      pixels before the nearer of them. */
  ghost predicate Hugs(coords: seq<real>, margin: int, size: Option<int>, start: int, end: int) {
    && start >= 0
    && (start == 0 || forall i :: 0 <= i < |coords| ==> start as real <= coords[i] - margin as real)
    && (exists i :: 0 <= i < |coords| && coords[i] - margin as real - 1.0 < start as real)
    && (exists i :: 0 <= i < |coords| && (end as real) < coords[i] + margin as real + 1.0)
    && (size.Some? ==> (end as real) < size.value as real + 1.0)
    && ((size.Some? && size.value as real < end as real + 2.0)
        || forall i :: 0 <= i < |coords| ==> coords[i] + margin as real < end as real + 2.0)
  }

  lemma ExtentHugs(coords: seq<real>, margin: int, size: Option<int>)
    requires coords != []
    ensures var (start, length) := Extent(coords, margin, size); Hugs(coords, margin, size, start, start + length)
  {
    var (start, end) := (StartOf(coords, margin), EndOf(coords, margin, size));
    var low := LowestIsThere(coords);
    var high := HighestIsThere(coords);
    var (x, w) := Extent(coords, margin, size);
    assert start - 1.0 < x as real <= start;
    assert end - start - 1.0 < w as real < end - start + 1.0;
    assert coords[low] - margin as real - 1.0 < x as real;
    assert ((x + w) as real) < coords[high] + margin as real + 1.0;
  }

  ghost predicate HugsBothWays(r: Rect, vs: seq<Point>, margin: int, frame: FrameSize) {
    && Hugs(Xs(vs), margin, if frame.Some? then Some(frame.value.0) else None, r.x, r.x + r.w)
    && Hugs(Ys(vs), margin, if frame.Some? then Some(frame.value.1) else None, r.y, r.y + r.h)
  }

  lemma SomeVertex(rois: seq<Roi>)
    ensures Vertices(rois) != [] <==> exists v :: IsVertex(rois, v)
  {
    if Vertices(rois) != [] {
      assert Vertices(rois)[0] in Vertices(rois);
      VerticesAreOfZones(rois, Vertices(rois)[0]);
    } else if v :| IsVertex(rois, v) {
      VerticesAreOfZones(rois, v);
    }
  }

  /** There is a rectangle exactly when an enabled zone has a vertex, and it is that tight. */
  lemma BoundsHugTheZones(rois: seq<Roi>, margin: int, frame: FrameSize)
    ensures Bounds(rois, margin, frame).Some? <==> exists v :: IsVertex(rois, v)
    ensures Bounds(rois, margin, frame).Some? ==>
              HugsBothWays(Bounds(rois, margin, frame).value, Vertices(rois), margin, frame)
  {
    var vs := Vertices(rois);
    SomeVertex(rois);
    if vs != [] {
      ExtentHugs(Xs(vs), margin, if frame.Some? then Some(frame.value.0) else None);
      ExtentHugs(Ys(vs), margin, if frame.Some? then Some(frame.value.1) else None);
    }
  }
}
