/** Which detections the letterbox's decoding returns: one for each row that shows a person inside the
    frame, in order, with the row's box scaled back on both axes. */
module LetterboxBoxes {
  import opened Options
  import opened Lists
  import opened Reals
  import opened Boxes
  import opened TrackerSpec
  import opened Letterbox

  /** c is the coordinate of the frame nearest to canvas coordinate v. */
  predicate IsNearest(c: real, v: real, limit: nat, scale: real) {
    && 0.0 <= c <= limit as real
    && (v <= 0.0 ==> c == 0.0)
    && (v >= Scaled(limit, scale) ==> c == limit as real)
    && (0.0 <= v <= Scaled(limit, scale) ==> c * scale == v)
  }

  /** The span of the row and that of the frame on the canvas have more than a point in common. */
  predicate Meets(lo: real, hi: real, limit: nat, scale: real) {
    Max(lo, 0.0) < Min(hi, Scaled(limit, scale))
  }

  /** The row is a person of a high enough score, and part of its box is inside the frame. */
  predicate IsShown(row: Row, category: int, scale: real, frame: Size, threshold: real) {
    && category == 0 && row.score >= threshold
    && Meets(row.x1, row.x2, frame.width, scale) && Meets(row.y1, row.y2, frame.height, scale)
  }

  /** The detection is the row's box, scaled back and cut to the frame, with the row's score. */
  predicate Depicts(d: Detection, row: Row, scale: real, frame: Size) {
    && IsNearest(d.box.x1, row.x1, frame.width, scale) && IsNearest(d.box.x2, row.x2, frame.width, scale)
    && IsNearest(d.box.y1, row.y1, frame.height, scale) && IsNearest(d.box.y2, row.y2, frame.height, scale)
    && d.score == row.score && d.classId == 0 && d.className == "person"
  }

  lemma ClippedIsNearest(v: real, scale: real, limit: nat)
    requires scale > 0.0
    ensures IsNearest(Clipped(v, scale, limit), v, limit, scale)
  {
    var q := v / scale;
    assert q * scale == v;
    ScalingKeepsOrder(0.0, q, scale);
    ScalingKeepsOrder(q, 0.0, scale);
    ScalingKeepsOrder(limit as real, q, scale);
    ScalingKeepsOrder(q, limit as real, scale);
  }

  lemma CutSpans(p: real, q: real, m: real)
    requires m >= 0.0
    ensures Min(Max(p, 0.0), m) < Min(Max(q, 0.0), m) <==> p < q && p < m && 0.0 < q && 0.0 < m
  {
  }

  lemma MeetsMeans(lo: real, hi: real, limit: nat, scale: real)
    ensures Meets(lo, hi, limit, scale)
            <==> lo < hi && lo < Scaled(limit, scale) && 0.0 < hi && 0.0 < Scaled(limit, scale)
  {
  }

  lemma ClippedKeepsSpan(lo: real, hi: real, scale: real, limit: nat)
    requires scale > 0.0
    ensures Clipped(lo, scale, limit) < Clipped(hi, scale, limit) <==> Meets(lo, hi, limit, scale)
  {
    var (p, q, m) := (lo / scale, hi / scale, limit as real);
    QuotientCompares(lo, scale, q);
    QuotientTimes(hi, scale);
    QuotientCompares(lo, scale, m);
    QuotientCompares(hi, scale, 0.0);
    ScalingKeepsOrder(m, 0.0, scale);
    CutSpans(p, q, m);
    MeetsMeans(lo, hi, limit, scale);
  }

  lemma DetectedExactly(row: Row, category: int, scale: real, frame: Size, threshold: real)
    requires scale > 0.0
    ensures var d := Detected(row, category, scale, frame, threshold);
            && (d.Some? <==> IsShown(row, category, scale, frame, threshold))
            && (d.Some? ==> Depicts(d.value, row, scale, frame))
  {
    ClippedKeepsSpan(row.x1, row.x2, scale, frame.width);
    ClippedKeepsSpan(row.y1, row.y2, scale, frame.height);
    ClippedIsNearest(row.x1, scale, frame.width);
    ClippedIsNearest(row.x2, scale, frame.width);
    ClippedIsNearest(row.y1, scale, frame.height);
    ClippedIsNearest(row.y2, scale, frame.height);
  }

  /** The rows the detections come from. */
  predicate Come(ds: seq<Detection>, idx: seq<nat>, rows: seq<Row>, labels: seq<int>, scale: real, frame: Size,
                 threshold: real)
    requires |rows| == |labels|
  {
    && |idx| == |ds| && Increasing(idx) && Below(idx, |rows|)
    && (forall m :: 0 <= m < |ds| ==> Depicts(ds[m], rows[idx[m]], scale, frame))
    && (forall k :: 0 <= k < |rows| ==> (k in idx <==> IsShown(rows[k], labels[k], scale, frame, threshold)))
  }

  lemma RowIsShown(ds: seq<Detection>, idx: seq<nat>, rows: seq<Row>, labels: seq<int>, scale: real, frame: Size,
                   threshold: real, row: Row, category: int, d: Detection)
    requires |rows| == |labels| && Come(ds, idx, rows, labels, scale, frame, threshold)
    requires IsShown(row, category, scale, frame, threshold) && Depicts(d, row, scale, frame)
    ensures Come(ds + [d], idx + [|rows|], rows + [row], labels + [category], scale, frame, threshold)
  {
    var (more, all) := (rows + [row], idx + [|rows|]);
    forall m | 0 <= m < |all| ensures Depicts((ds + [d])[m], more[all[m]], scale, frame) {
      assert m < |ds| ==> Depicts(ds[m], rows[idx[m]], scale, frame);
    }
    forall k | 0 <= k < |more|
      ensures k in all <==> IsShown(more[k], (labels + [category])[k], scale, frame, threshold)
    {
      assert k < |rows| ==> (k in all <==> k in idx);
      assert all[|idx|] == |rows|;
    }
  }

  lemma RowIsSkipped(ds: seq<Detection>, idx: seq<nat>, rows: seq<Row>, labels: seq<int>, scale: real, frame: Size,
                     threshold: real, row: Row, category: int)
    requires |rows| == |labels| && Come(ds, idx, rows, labels, scale, frame, threshold)
    requires !IsShown(row, category, scale, frame, threshold)
    ensures Come(ds, idx, rows + [row], labels + [category], scale, frame, threshold)
  {
    var more := rows + [row];
    forall k | 0 <= k < |more|
      ensures k in idx <==> IsShown(more[k], (labels + [category])[k], scale, frame, threshold)
    {
      assert |rows| !in idx;
    }
  }

  /** The detections are exactly those of the rows that are shown, each from one row and in order. */
  lemma {:induction false} DetectionsAreTheRowsShown(rows: seq<Row>, labels: seq<int>, scale: real, frame: Size,
                                                     threshold: real) returns (idx: seq<nat>)
    requires scale > 0.0 && |rows| == |labels|
    ensures Come(Detections(rows, labels, scale, frame, threshold), idx, rows, labels, scale, frame, threshold)
    decreases |rows|
  {
    if rows == [] {
      idx := [];
    } else {
      var n := |rows| - 1;
      var init := DetectionsAreTheRowsShown(rows[..n], labels[..n], scale, frame, threshold);
      DetectedExactly(rows[n], labels[n], scale, frame, threshold);
      var (ds, d) := (Detections(rows[..n], labels[..n], scale, frame, threshold),
                      Detected(rows[n], labels[n], scale, frame, threshold));
      assert rows[..n] + [rows[n]] == rows && labels[..n] + [labels[n]] == labels;
      if d.Some? {
        idx := init + [n];
        RowIsShown(ds, init, rows[..n], labels[..n], scale, frame, threshold, rows[n], labels[n], d.value);
      } else {
        idx := init;
        RowIsSkipped(ds, init, rows[..n], labels[..n], scale, frame, threshold, rows[n], labels[n]);
      }
    }
  }

  // ----- objects -----

  /** Row k shows the object where the resize to width by height put it. */
  predicate IsDrawnAt(row: Row, thing: BoundingBox, frame: Size, width: int, height: int)
    requires frame.Positive()
  {
    && row.x1 == Encoded(thing.x1, frame.width, width) && row.x2 == Encoded(thing.x2, frame.width, width)
    && row.y1 == Encoded(thing.y1, frame.height, height) && row.y2 == Encoded(thing.y2, frame.height, height)
  }

  predicate InsideFrame(thing: BoundingBox, frame: Size) {
    && 0.0 <= thing.x1 && thing.x2 <= frame.width as real
    && 0.0 <= thing.y1 && thing.y2 <= frame.height as real
  }

  /** Each side of the box within half a step of the object's. */
  predicate IsClose(b: BoundingBox, thing: BoundingBox, scale: real)
    requires scale > 0.0
  {
    && WithinHalfAStep(b.x1 - thing.x1, scale) && WithinHalfAStep(b.x2 - thing.x2, scale)
    && WithinHalfAStep(b.y1 - thing.y1, scale) && WithinHalfAStep(b.y2 - thing.y2, scale)
  }

  /** A nearest coordinate is the clipped one. */
  lemma NearestIsClipped(c: real, v: real, limit: nat, scale: real)
    requires scale > 0.0 && IsNearest(c, v, limit, scale)
    ensures c == Clipped(v, scale, limit)
  {
    ClippedIsNearest(v, scale, limit);
    var d := Clipped(v, scale, limit);
    if 0.0 <= v <= Scaled(limit, scale) {
      Cancel(c, d, scale);
    }
  }

  lemma SpanIsShown(u: real, v: real, lo: real, hi: real, side: nat, limit: nat, resized: int, scale: real)
    requires limit > 0 && side > 0 && scale > 0.0 && 0.5 <= Scaled(side, scale) <= limit as real
    requires resized == Resized(limit, Scaled(side, scale)) && 0.0 <= lo && hi <= side as real && hi - lo > 1.0 / scale
    requires u == Encoded(lo, side, resized) && v == Encoded(hi, side, resized)
    ensures Meets(u, v, side, scale)
    ensures forall c :: IsNearest(c, u, side, scale) ==> WithinHalfAStep(c - lo, scale)
    ensures forall c :: IsNearest(c, v, side, scale) ==> WithinHalfAStep(c - hi, scale)
  {
    StepIsPositive(scale);
    SideComesBack(u, v, lo, hi, side, limit, scale);
    ClippedKeepsSpan(u, v, scale, side);
    forall c | IsNearest(c, u, side, scale) ensures WithinHalfAStep(c - lo, scale) {
      NearestIsClipped(c, u, side, scale);
    }
    forall c | IsNearest(c, v, side, scale) ensures WithinHalfAStep(c - hi, scale) {
      NearestIsClipped(c, v, side, scale);
    }
  }

  lemma StepIsPositive(scale: real)
    requires scale > 0.0
    ensures 1.0 / scale > 0.0
  {
  }

  /** An object drawn where the resize put it, longer than a step each way, is shown, and every
      depiction of its row is close to it. */
  lemma DrawnIsShown(row: Row, category: int, thing: BoundingBox, input: Size, frame: Size, width: int, height: int,
                     scale: real, threshold: real)
    requires input.Positive() && Preprocess(input, frame) == Some((width, height, scale)) && scale > 0.0
    requires Scaled(frame.width, scale) >= 0.5 && Scaled(frame.height, scale) >= 0.5
    requires InsideFrame(thing, frame) && IsDrawnAt(row, thing, frame, width, height)
    requires thing.Width() > 1.0 / scale && thing.Height() > 1.0 / scale
    requires category == 0 && row.score >= threshold
    ensures IsShown(row, category, scale, frame, threshold)
    ensures forall d :: Depicts(d, row, scale, frame) ==> IsClose(d.box, thing, scale)
  {
    PreprocessFits(input, frame, width, height, scale);
    SpanIsShown(row.x1, row.x2, thing.x1, thing.x2, frame.width, input.width, width, scale);
    SpanIsShown(row.y1, row.y2, thing.y1, thing.y2, frame.height, input.height, height, scale);
  }

  /** If row k reports a person over the threshold where the resize put an object's box, longer than a
      step each way, then the answer holds a detection for row k, with its score and with every side
      within half a step of the object's. */
  lemma ObjectIsFound(rows: seq<Row>, labels: seq<int>, input: Size, frame: Size, width: int, height: int, scale: real,
                      threshold: real, k: nat, thing: BoundingBox) returns (idx: seq<nat>, m: nat)
    requires |rows| == |labels| && k < |rows|
    requires input.Positive() && Preprocess(input, frame) == Some((width, height, scale)) && scale > 0.0
    requires Scaled(frame.width, scale) >= 0.5 && Scaled(frame.height, scale) >= 0.5
    requires InsideFrame(thing, frame) && IsDrawnAt(rows[k], thing, frame, width, height)
    requires thing.Width() > 1.0 / scale && thing.Height() > 1.0 / scale
    requires labels[k] == 0 && rows[k].score >= threshold
    ensures var ds := Detections(rows, labels, scale, frame, threshold);
            && Come(ds, idx, rows, labels, scale, frame, threshold)
            && m < |ds| && idx[m] == k && ds[m].score == rows[k].score && IsClose(ds[m].box, thing, scale)
  {
    idx := DetectionsAreTheRowsShown(rows, labels, scale, frame, threshold);
    DrawnIsShown(rows[k], labels[k], thing, input, frame, width, height, scale, threshold);
    assert k in idx;
    m :| 0 <= m < |idx| && idx[m] == k;
  }
}
