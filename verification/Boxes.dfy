/** Bounding boxes, their overlap, and the (centre, aspect, height) form the filter works in. */
module Boxes {
  import opened Matrices
  import opened Reals

  /** BoundingBox rejects unordered coordinates. */
  datatype RawBox = Box(x1: real, y1: real, x2: real, y2: real) {
    predicate Ordered() {
      x1 <= x2 && y1 <= y2
    }

    function Width(): real {
      x2 - x1
    }

    function Height(): real {
      y2 - y1
    }

    function Area(): real {
      Width() * Height()
    }
  }

  type BoundingBox = b: RawBox | b.Ordered() witness Box(0.0, 0.0, 0.0, 0.0)

  const MIN_HEIGHT: real := 0.000001

  /** _xyxy_to_xyah. */
  function ToXyah(b: BoundingBox): (z: Vector)
    ensures |z| == 4
  {
    var height := Max(b.Height(), MIN_HEIGHT);
    [(b.x1 + b.x2) / 2.0, (b.y1 + b.y2) / 2.0, b.Width() / height, height]
  }

  /** _xyah_to_bbox: never unordered, whatever the filter believes. */
  function ToBox(v: Vector): BoundingBox
    requires |v| >= 4
  {
    var width := Max(v[2] * v[3], 0.0);
    var height := Max(v[3], 0.0);
    Box(v[0] - width / 2.0, v[1] - height / 2.0, v[0] + width / 2.0, v[1] + height / 2.0)
  }

  /** Converting to the filter's form and back keeps a box exactly when it is not flatter than
      the smallest height the filter is given. */
  lemma BoxRoundTrip(b: BoundingBox)
    ensures ToBox(ToXyah(b)) == b <==> b.Height() >= MIN_HEIGHT
  {
    var height := Max(b.Height(), MIN_HEIGHT);
    assert b.Width() / height * height == b.Width();
  }

  function Overlap(lo1: real, hi1: real, lo2: real, hi2: real): real {
    Max(0.0, Min(hi1, hi2) - Max(lo1, lo2))
  }

  function Intersection(a: BoundingBox, b: BoundingBox): real {
    Overlap(a.x1, a.x2, b.x1, b.x2) * Overlap(a.y1, a.y2, b.y1, b.y2)
  }

  /** _iou. */
  function Iou(a: BoundingBox, b: BoundingBox): real {
    var union := a.Area() + b.Area() - Intersection(a, b);
    if union > 0.0 then Intersection(a, b) / union else 0.0
  }

  lemma ProductGrows(w: real, h: real, w': real, h': real)
    requires 0.0 <= w <= w' && 0.0 <= h <= h'
    ensures 0.0 <= w * h <= w' * h'
  {
    assert w * h <= w' * h <= w' * h';
  }

  lemma IntersectionFits(a: BoundingBox, b: BoundingBox)
    ensures 0.0 <= Intersection(a, b) <= a.Area()
    ensures Intersection(a, b) == Intersection(b, a)
  {
    ProductGrows(Overlap(a.x1, a.x2, b.x1, b.x2), Overlap(a.y1, a.y2, b.y1, b.y2), a.Width(), a.Height());
  }

  lemma IouIsAFraction(a: BoundingBox, b: BoundingBox)
    ensures 0.0 <= Iou(a, b) <= 1.0
  {
    IntersectionFits(a, b);
    IntersectionFits(b, a);
    var union := a.Area() + b.Area() - Intersection(a, b);
    if union > 0.0 {
      FractionOfUnion(Intersection(a, b), union);
    }
  }

  lemma IouIsSymmetric(a: BoundingBox, b: BoundingBox)
    ensures Iou(a, b) == Iou(b, a)
  {
    IntersectionFits(a, b);
  }

  lemma IouOfItself(a: BoundingBox)
    requires a.Area() > 0.0
    ensures Iou(a, a) == 1.0
  {
    assert Intersection(a, a) == a.Area();
    WholeFraction(a.Area(), a.Area() + a.Area() - Intersection(a, a));
  }

  lemma WholeFraction(x: real, y: real)
    requires x > 0.0 && y == x
    ensures x / y == 1.0
  {
  }

  /** The overlap measure is symmetric, lies in [0, 1], and is 1 for a box of positive area
      against itself. */
  lemma IouIsAProperMeasure(a: BoundingBox, b: BoundingBox)
    ensures Iou(a, b) == Iou(b, a) && 0.0 <= Iou(a, b) <= 1.0
    ensures a.Area() > 0.0 ==> Iou(a, a) == 1.0
  {
    IouIsAFraction(a, b);
    IouIsSymmetric(a, b);
    if a.Area() > 0.0 {
      IouOfItself(a);
    }
  }

  /** c lies inside both boxes. */
  predicate IsCommon(a: BoundingBox, b: BoundingBox, c: BoundingBox) {
    && a.x1 <= c.x1 && c.x2 <= a.x2 && a.y1 <= c.y1 && c.y2 <= a.y2
    && b.x1 <= c.x1 && c.x2 <= b.x2 && b.y1 <= c.y1 && c.y2 <= b.y2
  }

  /** The greatest area of a box inside both, 0 when there is none. */
  ghost predicate IsSharedArea(a: BoundingBox, b: BoundingBox, part: real) {
    && (forall c :: IsCommon(a, b, c) ==> c.Area() <= part)
    && (part == 0.0 || exists c :: IsCommon(a, b, c) && c.Area() == part)
  }

  lemma CommonBoxFits(a: BoundingBox, b: BoundingBox, c: BoundingBox)
    requires IsCommon(a, b, c)
    ensures c.Area() <= Intersection(a, b)
  {
    ProductGrows(c.Width(), c.Height(), Overlap(a.x1, a.x2, b.x1, b.x2), Overlap(a.y1, a.y2, b.y1, b.y2));
  }

  lemma IntersectionIsShared(a: BoundingBox, b: BoundingBox)
    ensures IsSharedArea(a, b, Intersection(a, b))
  {
    forall c | IsCommon(a, b, c) ensures c.Area() <= Intersection(a, b) {
      CommonBoxFits(a, b, c);
    }
    if Overlap(a.x1, a.x2, b.x1, b.x2) > 0.0 && Overlap(a.y1, a.y2, b.y1, b.y2) > 0.0 {
      var c: BoundingBox := Box(Max(a.x1, b.x1), Max(a.y1, b.y1), Min(a.x2, b.x2), Min(a.y2, b.y2));
      assert IsCommon(a, b, c) && c.Area() == Intersection(a, b);
    } else {
      assert Intersection(a, b) == 0.0;
    }
  }

  lemma SharedAreaIsUnique(a: BoundingBox, b: BoundingBox, part: real, other: real)
    requires IsSharedArea(a, b, part) && IsSharedArea(a, b, other) && part >= 0.0 && other >= 0.0
    ensures part == other
  {
  }

  lemma IouTimesCovered(a: BoundingBox, b: BoundingBox, part: real)
    requires part == Intersection(a, b)
    ensures var covered := a.Area() + b.Area() - part;
            if covered > 0.0 then Iou(a, b) * covered == part else Iou(a, b) == 0.0
  {
    var union := a.Area() + b.Area() - Intersection(a, b);
    if union > 0.0 {
      QuotientTimes(Intersection(a, b), union);
    }
  }

  /** The overlap measure is the area the boxes share over the area they cover together, and 0
      when they cover none. */
  lemma IouIsSharedOverCovered(a: BoundingBox, b: BoundingBox, part: real)
    requires IsSharedArea(a, b, part) && part >= 0.0
    ensures var covered := a.Area() + b.Area() - part;
            if covered > 0.0 then Iou(a, b) * covered == part else Iou(a, b) == 0.0
  {
    assert part == Intersection(a, b) by {
      IntersectionFits(a, b);
      IntersectionIsShared(a, b);
      SharedAreaIsUnique(a, b, part, Intersection(a, b));
    }
    IouTimesCovered(a, b, part);
  }

  lemma FractionOfUnion(part: real, whole: real)
    requires 0.0 <= part <= whole && whole > 0.0
    ensures 0.0 <= part / whole <= 1.0
  {
  }
}
