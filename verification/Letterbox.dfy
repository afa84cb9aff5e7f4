/** The detector's letterbox: a frame is resized to whole pixels, its detections are scaled back
    with the ideal factor, clipped to the frame and kept when something is left of them. */
module Letterbox {
  import opened Options
  import opened Reals
  import opened Boxes
  import opened TrackerSpec

  /** Width and height in pixels. */
  datatype Size = Size(width: nat, height: nat) {
    predicate Positive() {
      width > 0 && height > 0
    }
  }

  /** Python's round(): to the nearest integer, ties to the even one. */
  function RoundHalfEven(x: real): int {
    var below := x.Floor;
    var rest := x - below as real;
    if rest < 0.5 then below
    else if rest > 0.5 then below + 1
    else if below % 2 == 0 then below else below + 1
  }

  lemma RoundingIsNear(x: real)
    ensures -0.5 <= RoundHalfEven(x) as real - x <= 0.5
  {
  }

  function Scale(input: Size, frame: Size): real
    requires frame.Positive()
  {
    Min(input.width as real / frame.width as real, input.height as real / frame.height as real)
  }

  /** One side of the resized frame, from its scaled length. */
  function Resized(limit: nat, scaled: real): int {
    var rounded := RoundHalfEven(scaled);
    var clamped := if limit < rounded then limit else rounded;
    if clamped < 1 then 1 else clamped
  }

  function Scaled(side: nat, scale: real): real {
    side as real * scale
  }

  function ResizedBy(input: Size, frame: Size, scale: real): (int, int) {
    (Resized(input.width, Scaled(frame.width, scale)), Resized(input.height, Scaled(frame.height, scale)))
  }

  /** The resized frame, and the scale recorded for decoding; None when the frame has an empty
      side, which raises. */
  function Preprocess(input: Size, frame: Size): Option<(int, int, real)> {
    if !frame.Positive() then None
    else
      var scale := Scale(input, frame);
      var (width, height) := ResizedBy(input, frame, scale);
      Some((width, height, scale))
  }

  /** No side is scaled beyond its limit. */
  predicate Fitting(input: Size, frame: Size, scale: real) {
    && scale > 0.0
    && Scaled(frame.width, scale) <= input.width as real && Scaled(frame.height, scale) <= input.height as real
  }

  predicate FillsASide(input: Size, frame: Size, scale: real) {
    Scaled(frame.width, scale) == input.width as real || Scaled(frame.height, scale) == input.height as real
  }

  /** A side is never scaled beyond its limit, and one of the two reaches it exactly. */
  lemma ScaleFits(input: Size, frame: Size)
    requires input.Positive() && frame.Positive()
    ensures Fitting(input, frame, Scale(input, frame)) && FillsASide(input, frame, Scale(input, frame))
  {
    var (w, h, s) := (frame.width as real, frame.height as real, Scale(input, frame));
    var (a, b) := (input.width as real / w, input.height as real / h);
    assert w * a == input.width as real && h * b == input.height as real;
    ScaledLess(w, s, a);
    ScaledLess(h, s, b);
  }

  lemma ScaledLess(w: real, s: real, a: real)
    requires w > 0.0 && s <= a
    ensures w * s <= w * a
  {
  }

  /** The clamp to the canvas never takes effect, rounding alone stays within it; and a side that
      is scaled to the limit exactly is resized to it. */
  lemma RoundedFits(limit: nat, scaled: real)
    requires limit > 0 && scaled <= limit as real
    ensures RoundHalfEven(scaled) <= limit && 1 <= Resized(limit, scaled) <= limit
    ensures scaled == limit as real ==> Resized(limit, scaled) == limit
  {
    RoundingIsNear(scaled);
  }

  lemma PreprocessFits(input: Size, frame: Size, width: int, height: int, scale: real)
    requires input.Positive() && Preprocess(input, frame) == Some((width, height, scale))
    ensures Fitting(input, frame, scale) && FillsASide(input, frame, scale)
    ensures (width, height) == ResizedBy(input, frame, scale)
  {
    ScaleFits(input, frame);
  }

  /** The resized frame fits the canvas and fills it completely on one side. */
  lemma ResizedFitsCanvas(input: Size, frame: Size, width: int, height: int, scale: real)
    requires input.Positive() && Preprocess(input, frame) == Some((width, height, scale))
    ensures 1 <= width <= input.width && 1 <= height <= input.height
    ensures width == input.width || height == input.height
  {
    PreprocessFits(input, frame, width, height, scale);
    RoundedFits(input.width, Scaled(frame.width, scale));
    RoundedFits(input.height, Scaled(frame.height, scale));
  }

  // ----- the round trip of a coordinate -----

  /** A coordinate of the frame, on the canvas: the resize stretches `side` to `resized`. */
  function Encoded(x: real, side: nat, resized: int): real
    requires side > 0
  {
    x * resized as real / side as real
  }

  /** And back, by the ideal scale. */
  function Decoded(v: real, scale: real): real
    requires scale != 0.0
  {
    v / scale
  }

  /** How far the round trip moves x. */
  function Drift(x: real, side: nat, resized: int, scale: real): real
    requires side > 0 && scale != 0.0
  {
    Decoded(Encoded(x, side, resized), scale) - x
  }

  /** Drift grows along the side up to the rounding error of the whole side. */
  lemma DriftIsAShare(x: real, side: nat, resized: int, scale: real)
    requires side > 0 && scale > 0.0
    ensures Drift(x, side, resized, scale) * scale
            == x / side as real * (resized as real - side as real * scale)
  {
    var (o, r, t) := (side as real, resized as real, x / side as real);
    var (v, w) := (Encoded(x, side, resized), Decoded(Encoded(x, side, resized), scale));
    assert t * o == x;
    assert v * o == x * r == t * r * o;
    Cancel(v, t * r, o);
    assert w * scale == v;
    assert (w - x) * scale == w * scale - x * scale;
    assert x * scale == t * (o * scale);
    assert t * (r - o * scale) == t * r - t * (o * scale);
  }

  predicate WithinHalfAStep(drift: real, scale: real)
    requires scale > 0.0
  {
    -(1.0 / (2.0 * scale)) <= drift <= 1.0 / (2.0 * scale)
  }

  lemma HalfAStep(drift: real, scale: real)
    requires scale > 0.0
    ensures WithinHalfAStep(drift, scale) <==> -0.5 <= drift * scale <= 0.5
  {
    var h := 1.0 / (2.0 * scale);
    assert h * (2.0 * scale) == 1.0;
    assert h * scale == 0.5;
    ScalingKeepsOrder(drift, h, scale);
    ScalingKeepsOrder(0.0, drift + h, scale);
    assert (drift + h) * scale == drift * scale + h * scale;
  }

  /** Half a step is the bound for the whole side exactly when the scaled side is at least half a
      pixel: otherwise the resize still makes it one pixel. */
  lemma SideErrorIsHalf(limit: nat, scaled: real)
    requires limit > 0 && 0.0 < scaled <= limit as real
    ensures -0.5 <= Resized(limit, scaled) as real - scaled <= 0.5 <==> scaled >= 0.5
  {
    RoundedFits(limit, scaled);
    RoundingIsNear(scaled);
  }

  /** A coordinate of a side that was resized comes back within half a step of the scale. */
  predicate Returns(x: real, side: nat, resized: int, scale: real)
    requires side > 0 && scale > 0.0
  {
    WithinHalfAStep(Drift(x, side, resized, scale), scale)
  }

  ghost predicate SideReturns(side: nat, resized: int, scale: real)
    requires side > 0 && scale > 0.0
  {
    forall x: real :: 0.0 <= x <= side as real ==> Returns(x, side, resized, scale)
  }

  lemma ShareWithinHalf(t: real, e: real)
    requires 0.0 <= t <= 1.0 && -0.5 <= e <= 0.5
    ensures -0.5 <= t * e <= 0.5
  {
    Fraction(e, t);
    assert t * e == e * t;
  }

  lemma PointRoundTrips(x: real, side: nat, resized: int, scale: real)
    requires side > 0 && scale > 0.0 && 0.0 <= x <= side as real
    requires -0.5 <= resized as real - side as real * scale <= 0.5
    ensures Returns(x, side, resized, scale)
  {
    DriftIsAShare(x, side, resized, scale);
    HalfAStep(Drift(x, side, resized, scale), scale);
    var t := x / side as real;
    assert t * side as real == x;
    ScalingKeepsOrder(0.0, t, side as real);
    ScalingKeepsOrder(t, 1.0, side as real);
    ShareWithinHalf(t, resized as real - side as real * scale);
  }

  /** The length of a scaled side, which fits its limit and is resized to whole pixels. */
  predicate Scales(limit: nat, side: nat, scale: real, scaled: real, resized: int) {
    && limit > 0 && side > 0 && scale > 0.0
    && scaled == Scaled(side, scale) <= limit as real && resized == Resized(limit, scaled)
  }

  /** A point carried to the canvas by the whole-pixel resize and decoded by the ideal scale moves
      at most 1 / (2 scale), along each side, exactly when the scaled side is at least half a
      pixel long. */
  lemma RoundTripError(limit: nat, side: nat, scale: real, scaled: real, resized: int)
    requires Scales(limit, side, scale, scaled, resized)
    ensures SideReturns(side, resized, scale) <==> scaled >= 0.5
  {
    ProductIsPositive(side as real, scale);
    assert Product(side as real, scale) == scaled;
    SideErrorIsHalf(limit, scaled);
    if scaled >= 0.5 {
      forall x: real | 0.0 <= x <= side as real
        ensures Returns(x, side, resized, scale)
      {
        PointRoundTrips(x, side, resized, scale);
      }
    } else {
      var x := side as real;
      DriftIsAShare(x, side, resized, scale);
      assert x / side as real == 1.0;
      HalfAStep(Drift(x, side, resized, scale), scale);
      assert !Returns(x, side, resized, scale);
    }
  }

  lemma BothSidesReturn(input: Size, frame: Size, scale: real, across: real, down: real, width: int, height: int)
    requires Scales(input.width, frame.width, scale, across, width)
    requires Scales(input.height, frame.height, scale, down, height)
    ensures SideReturns(frame.width, width, scale) && SideReturns(frame.height, height, scale)
            <==> across >= 0.5 && down >= 0.5
  {
    RoundTripError(input.width, frame.width, scale, across, width);
    RoundTripError(input.height, frame.height, scale, down, height);
  }

  lemma FittingReturns(input: Size, frame: Size, width: int, height: int, scale: real)
    requires input.Positive() && frame.Positive() && Fitting(input, frame, scale)
    requires (width, height) == ResizedBy(input, frame, scale)
    ensures SideReturns(frame.width, width, scale) && SideReturns(frame.height, height, scale)
            <==> Scaled(frame.width, scale) >= 0.5 && Scaled(frame.height, scale) >= 0.5
  {
    BothSidesReturn(input, frame, scale, Scaled(frame.width, scale), Scaled(frame.height, scale), width, height);
  }

  /** For a whole frame, with the sides and the scale that preprocess returns: both coordinates
      of every point come back within that bound exactly when neither scaled side is shorter than
      half a pixel. */
  lemma FrameRoundTripError(input: Size, frame: Size, width: int, height: int, scale: real)
    requires input.Positive() && Preprocess(input, frame) == Some((width, height, scale))
    ensures scale > 0.0
    ensures SideReturns(frame.width, width, scale) && SideReturns(frame.height, height, scale)
            <==> Scaled(frame.width, scale) >= 0.5 && Scaled(frame.height, scale) >= 0.5
  {
    PreprocessFits(input, frame, width, height, scale);
    FittingReturns(input, frame, width, height, scale);
  }

  // ----- detections -----

  /** A row of the network's output: a box on the canvas and a score. */
  datatype Row = Row(x1: real, y1: real, x2: real, y2: real, score: real)

  function Clipped(v: real, scale: real, limit: nat): (c: real)
    requires scale > 0.0
  {
    Min(Max(v / scale, 0.0), limit as real)
  }

  /** A row scaled back and clipped to the frame, if it is a person of a high enough score and
      something is left of it. */
  function Detected(row: Row, category: int, scale: real, frame: Size, threshold: real): Option<Detection>
    requires scale > 0.0
  {
    var (x1, y1) := (Clipped(row.x1, scale, frame.width), Clipped(row.y1, scale, frame.height));
    var (x2, y2) := (Clipped(row.x2, scale, frame.width), Clipped(row.y2, scale, frame.height));
    if category != 0 || row.score < threshold || x2 <= x1 || y2 <= y1 then None
    else Some(Detection(Box(x1, y1, x2, y2), row.score, 0, "person"))
  }

  function Detections(rows: seq<Row>, labels: seq<int>, scale: real, frame: Size, threshold: real): seq<Detection>
    requires scale > 0.0 && |rows| == |labels|
    decreases |rows|
  {
    if rows == [] then []
    else
      var n := |rows| - 1;
      var last := Detected(rows[n], labels[n], scale, frame, threshold);
      Detections(rows[..n], labels[..n], scale, frame, threshold) + if last.Some? then [last.value] else []
  }

  /** postprocess; None stands for the error raised when rows and labels differ in number. */
  method Postprocess(rows: seq<Row>, labels: seq<int>, scale: real, frame: Size, threshold: real)
    returns (results: Option<seq<Detection>>)
    requires scale > 0.0
    ensures results == if |rows| != |labels| then None else Some(Detections(rows, labels, scale, frame, threshold))
  {
    if |rows| != |labels| {
      return None;
    }
    var kept := [];
    for k := 0 to |rows|
      invariant kept == Detections(rows[..k], labels[..k], scale, frame, threshold)
    {
      assert rows[..k + 1][..k] == rows[..k] && labels[..k + 1][..k] == labels[..k];
      var row := rows[k];
      if labels[k] != 0 || row.score < threshold {
        continue;
      }
      var x1 := Clipped(row.x1, scale, frame.width);
      var x2 := Clipped(row.x2, scale, frame.width);
      var y1 := Clipped(row.y1, scale, frame.height);
      var y2 := Clipped(row.y2, scale, frame.height);
      if x2 <= x1 || y2 <= y1 {
        continue;
      }
      kept := kept + [Detection(Box(x1, y1, x2, y2), row.score, 0, "person")];
    }
    assert rows[..|rows|] == rows && labels[..|labels|] == labels;
    return Some(kept);
  }

  /** A box of positive area inside the frame. */
  predicate IsInside(b: BoundingBox, frame: Size) {
    && 0.0 <= b.x1 < b.x2 <= frame.width as real && 0.0 <= b.y1 < b.y2 <= frame.height as real
  }

  /** Every detection returned is a person over the threshold, with an ordered box of positive
      area inside the frame. */
  lemma {:induction false} DetectionsAreInside(rows: seq<Row>, labels: seq<int>, scale: real, frame: Size,
                                               threshold: real, k: nat)
    requires scale > 0.0 && |rows| == |labels| && k < |Detections(rows, labels, scale, frame, threshold)|
    ensures var d := Detections(rows, labels, scale, frame, threshold)[k];
            IsInside(d.box, frame) && d.box.Area() > 0.0 && d.score >= threshold && d.classId == 0
    decreases |rows|
  {
    var n := |rows| - 1;
    var last := Detected(rows[n], labels[n], scale, frame, threshold);
    if k < |Detections(rows[..n], labels[..n], scale, frame, threshold)| {
      DetectionsAreInside(rows[..n], labels[..n], scale, frame, threshold, k);
    } else {
      ProductIsPositive(last.value.box.Width(), last.value.box.Height());
      assert last.value.box.Area() == Product(last.value.box.Width(), last.value.box.Height());
    }
  }

  /** An axis of an object's box, carried to the canvas by the resize and reported there. */
  predicate Reports(v: real, x: real, side: nat, limit: nat, scale: real)
    requires side > 0
  {
    0.0 <= x <= side as real && v == Encoded(x, side, Resized(limit, Scaled(side, scale)))
  }

  /** Clipping only helps: it never moves a coordinate away from a true one inside the frame. */
  lemma ClippingHelps(v: real, scale: real, limit: nat, x: real)
    requires scale > 0.0 && 0.0 <= x <= limit as real && WithinHalfAStep(Decoded(v, scale) - x, scale)
    ensures WithinHalfAStep(Clipped(v, scale, limit) - x, scale)
  {
  }

  lemma CoordinateComesBack(v: real, x: real, side: nat, limit: nat, scale: real)
    requires limit > 0 && side > 0 && scale > 0.0 && 0.5 <= Scaled(side, scale) <= limit as real
    requires Reports(v, x, side, limit, scale)
    ensures WithinHalfAStep(Clipped(v, scale, side) - x, scale)
  {
    var scaled := Scaled(side, scale);
    RoundTripError(limit, side, scale, scaled, Resized(limit, scaled));
    assert Returns(x, side, Resized(limit, scaled), scale);
    ClippingHelps(v, scale, side, x);
  }

  lemma SpanSurvives(lo: real, hi: real, lo': real, hi': real, scale: real)
    requires scale > 0.0 && WithinHalfAStep(lo' - lo, scale) && WithinHalfAStep(hi' - hi, scale)
    requires hi - lo > 1.0 / scale
    ensures lo' < hi'
  {
    TwoHalves(scale);
  }

  /** If the network reports on the canvas exactly where the resize put an object, then along each
      axis both ends come back within half a step of the scale, and an object longer than one step
      keeps a positive length, so that it is not discarded. */
  lemma SideComesBack(u: real, v: real, lo: real, hi: real, side: nat, limit: nat, scale: real)
    requires limit > 0 && side > 0 && scale > 0.0 && 0.5 <= Scaled(side, scale) <= limit as real
    requires Reports(u, lo, side, limit, scale) && Reports(v, hi, side, limit, scale)
    ensures WithinHalfAStep(Clipped(u, scale, side) - lo, scale) && WithinHalfAStep(Clipped(v, scale, side) - hi, scale)
    ensures hi - lo > 1.0 / scale ==> Clipped(u, scale, side) < Clipped(v, scale, side)
  {
    CoordinateComesBack(u, lo, side, limit, scale);
    CoordinateComesBack(v, hi, side, limit, scale);
    if hi - lo > 1.0 / scale {
      SpanSurvives(lo, hi, Clipped(u, scale, side), Clipped(v, scale, side), scale);
    }
  }

  lemma TwoHalves(scale: real)
    requires scale > 0.0
    ensures 1.0 / (2.0 * scale) + 1.0 / (2.0 * scale) == 1.0 / scale
  {
    var h := 1.0 / (2.0 * scale);
    assert h * (2.0 * scale) == 1.0;
    assert (h + h) * scale == 1.0 / scale * scale;
    Cancel(h + h, 1.0 / scale, scale);
  }
}
