/** Where reported tracks are: the tracker's filter starts on the detection itself and afterwards
    moves part of the way from its prediction to the detection. */
module TrackerBoxes {
  import opened Options
  import opened Reals
  import opened Matrices
  import opened Boxes
  import opened KalmanFilter
  import opened XyahFilter
  import opened TrackerSpec
  import opened TrackerRuns
  import opened TrackerReports

  /** A box is kept by the filter's start exactly when it is not flatter than the least height. */
  lemma InitiateKeepsBox(b: BoundingBox)
    ensures EstimatedBox(InitiateBox(b)) == b <==> b.Height() >= MIN_HEIGHT
  {
    BoxRoundTrip(b);
    assert InitiateBox(b).mean[..4] == ToXyah(b);
  }

  lemma StartingStands(z: Vector)
    requires |z| == 4
    ensures Predict(Initiate(z)).mean[..4] == Initiate(z).mean[..4]
  {
    forall i | 0 <= i < 4 ensures Predict(Initiate(z)).mean[i] == Initiate(z).mean[i] {
      PredictedMean(Initiate(z), i);
    }
  }

  /** The first prediction of a new track leaves its box where it is. */
  lemma FirstPredictionStands(b: BoundingBox)
    ensures EstimatedBox(PredictEstimate(InitiateBox(b))) == EstimatedBox(InitiateBox(b))
  {
    StartingStands(ToXyah(b));
  }

  // ----- boxes of reports -----

  function CentreX(b: BoundingBox): real {
    (b.x1 + b.x2) / 2.0
  }

  function CentreY(b: BoundingBox): real {
    (b.y1 + b.y2) / 2.0
  }

  /** m lies between x and z, which may agree. */
  predicate WeaklyBetween(x: real, m: real, z: real) {
    x <= m <= z || z <= m <= x
  }

  /** The reported box, between the predicted one and the detection's: its centre strictly, unless
      they agree, and its height. */
  predicate IsBetween(predicted: BoundingBox, reported: BoundingBox, detected: BoundingBox) {
    && Between(CentreX(predicted), CentreX(reported), CentreX(detected))
    && Between(CentreY(predicted), CentreY(reported), CentreY(detected))
    && (detected.Height() >= MIN_HEIGHT ==>
          WeaklyBetween(predicted.Height(), reported.Height(), detected.Height()))
  }

  lemma CentreOfBox(v: Vector)
    requires |v| >= 4
    ensures CentreX(ToBox(v)) == v[0] && CentreY(ToBox(v)) == v[1] && ToBox(v).Height() == Max(v[3], 0.0)
  {
  }

  lemma CentreOfXyah(b: BoundingBox)
    ensures CentreX(b) == ToXyah(b)[0] && CentreY(b) == ToXyah(b)[1]
    ensures b.Height() >= MIN_HEIGHT ==> ToXyah(b)[3] == b.Height()
  {
  }

  lemma UpdateIsBetween(b: Estimate, box: BoundingBox)
    ensures IsBetween(EstimatedBox(b), EstimatedBox(UpdateWithBox(b, box)), box)
  {
    UpdatesAreSound(b, box);
    var (z, t) := (ToXyah(box), UpdateWithBox(b, box));
    assert Between(b.mean[0], t.mean[0], z[0]) && Between(b.mean[1], t.mean[1], z[1])
           && Between(b.mean[3], t.mean[3], z[3]);
    CentreOfBox(b.mean);
    CentreOfBox(t.mean);
    CentreOfXyah(box);
  }

  /** What a report says about where its track is. */
  predicate IsWhereSeen(cfg: Config<Estimate>, s: State<Estimate>, r: Report, d: Detection) {
    if r.id >= s.nextId then r.box == d.box <==> d.box.Height() >= MIN_HEIGHT
    else exists i :: 0 <= i < |s.tracks| && IsFollowed(s.tracks[i], r, d)
  }

  predicate IsFollowed(t: TrackValue<Estimate>, r: Report, d: Detection) {
    t.id == r.id && IsBetween(EstimatedBox(PredictEstimate(t.belief)), r.box, d.box)
  }

  lemma MovedIsFollowed(cfg: Config<Estimate>, t: TrackValue<Estimate>, r: Report, d: Detection)
    requires cfg.kalman == Xyah() && MovesTo(cfg, t, r, d)
    ensures IsFollowed(t, r, d)
  {
    var predicted: Estimate :| predicted == PredictEstimate(t.belief);
    assert r.box == EstimatedBox(UpdateWithBox(predicted, d.box));
    UpdateIsBetween(predicted, d.box);
  }

  lemma StartedIsThere(cfg: Config<Estimate>, r: Report, d: Detection)
    requires cfg.kalman == Xyah() && r.box == cfg.kalman.box(cfg.kalman.initiate(d.box))
    ensures r.box == d.box <==> d.box.Height() >= MIN_HEIGHT
  {
    assert r.box == EstimatedBox(InitiateBox(d.box));
    InitiateKeepsBox(d.box);
  }

  lemma MovedTrack<B>(cfg: Config<B>, s: State<B>, r: Report, d: Detection) returns (i: nat)
    requires Placed(cfg, s, r, d) && r.id < s.nextId
    ensures i < |s.tracks| && MovesTo(cfg, s.tracks[i], r, d)
  {
    i :| 0 <= i < |s.tracks| && MovesTo(cfg, s.tracks[i], r, d);
  }

  lemma FollowedIsThere(cfg: Config<Estimate>, s: State<Estimate>, r: Report, d: Detection, i: nat)
    requires i < |s.tracks| && IsFollowed(s.tracks[i], r, d) && r.id < s.nextId
    ensures IsWhereSeen(cfg, s, r, d)
  {
  }

  lemma PlacedIsWhereSeen(cfg: Config<Estimate>, s: State<Estimate>, r: Report, d: Detection)
    requires cfg.kalman == Xyah() && Placed(cfg, s, r, d)
    ensures IsWhereSeen(cfg, s, r, d)
  {
    if r.id >= s.nextId {
      StartedIsThere(cfg, r, d);
    } else {
      var i := MovedTrack(cfg, s, r, d);
      MovedIsFollowed(cfg, s.tracks[i], r, d);
      FollowedIsThere(cfg, s, r, d, i);
    }
  }

  /** Every reported track is where it was seen: a new one exactly on the detection behind it, an old
      one between its prediction and the detection behind it. */
  lemma ReportsAreWhereSeen(cfg: Config<Estimate>, s: State<Estimate>, dets: seq<Detection>, plan: Plan)
    returns (own: seq<nat>)
    requires cfg.kalman == Xyah() && StateOk(cfg, s) && Fits(cfg, s, dets, plan)
    ensures var rs := Reports(cfg, UpdateWith(cfg, s, dets, plan));
            && |own| == |rs| && Distinct(own)
            && forall k :: 0 <= k < |rs| ==>
                 own[k] < |dets| && Stands(cfg, s, rs[k], dets[own[k]]) && IsWhereSeen(cfg, s, rs[k], dets[own[k]])
  {
    own := ReportsAreBacked(cfg, s, dets, plan);
    var rs := Reports(cfg, UpdateWith(cfg, s, dets, plan));
    forall k | 0 <= k < |rs| ensures IsWhereSeen(cfg, s, rs[k], dets[own[k]]) {
      PlacedIsWhereSeen(cfg, s, rs[k], dets[own[k]]);
    }
  }
}
