/** The first steps of a new track in numbers: how far its first correction moves it, whatever the
    size of the object. */
module KalmanStart {
  import opened Matrices
  import opened Reals
  import opened KalmanFilter

  lemma StartingMean(z: Vector, i: nat)
    requires |z| == 4 && i < 4
    ensures Predict(Initiate(z)).mean[i] == z[i] && Predict(Initiate(z)).mean[i + 4] == 0.0
  {
    PredictedMean(Initiate(z), i);
  }

  /** The covariance of a component with its velocity before the first correction. */
  lemma StartingBlock(z: Vector, i: nat)
    requires |z| == 4 && i < 4
    ensures var (d, q) := (InitialDeviation(Max(z[3], 1.0)), MotionDeviation(Max(z[3], 1.0)));
            var b := BlockOf(Predict(Initiate(z)).cov, i);
            && b.pos == Square(d[i]) + Square(d[i + 4]) + Square(q[i])
            && b.cross == Square(d[i + 4])
  {
    var s := Initiate(z);
    InitiateIsHealthy(z);
    NoiseIsPositive(s.mean);
    BlockIsPropagated(s.cov, MotionNoise(s.mean), i);
  }

  /** Of tenths, sixteenths and twentieths of a height. */
  lemma Proportions(h: real)
    requires h >= 1.0
    ensures var p := Square(h / 10.0) + Square(h / 16.0) + Square(h / 20.0);
            var n := p + Square(h / 20.0);
            n > 0.0 && 121.0 * p == 105.0 * n && 121.0 * Square(h / 16.0) == 25.0 * n
  {
    var u := h / 80.0;
    SquareSign(u);
    assert h / 10.0 == 8.0 * u && h / 16.0 == 5.0 * u && h / 20.0 == 4.0 * u;
    assert Square(8.0 * u) == 64.0 * Square(u) && Square(5.0 * u) == 25.0 * Square(u);
    assert Square(4.0 * u) == 16.0 * Square(u);
  }

  lemma RatioIs(x: real, n: real, a: real, b: real)
    requires n > 0.0 && b > 0.0 && b * x == a * n
    ensures Ratio(x, n) == a / b
  {
    var (q, r) := (x / n, a / b);
    assert q * n == x && r * b == a;
    assert q * n * b == r * b * n;
    assert (q * n) * b == q * (n * b) && (r * b) * n == r * (n * b);
    ProductIsPositive(n, b);
    assert Product(n, b) == n * b;
    Cancel(q, r, n * b);
  }

  /** A new track after its first prediction and correction. */
  function First(z: Vector, m: Vector): (t: Belief)
    requires |z| == 4 && |m| == 4
    ensures |t.mean| == 8
  {
    InitiateIsHealthy(z);
    PredictStaysHealthy(Initiate(z));
    CorrectIsSound(Predict(Initiate(z)), m);
    Correct(Predict(Initiate(z)), m)
  }

  /** A component moves by this share of its deviation, and its velocity by that one. */
  predicate Moves(x: real, v: real, m: real, after: real, velocity: real, share: real, gained: real) {
    after == Nudged(x, share, m - x) && velocity == Nudged(v, gained, m - x)
  }

  lemma PulledEntries(s: Belief, r: Matrix, m: Vector, mean: Vector, i: nat)
    requires |s.mean| == 8 && IsMatrix(s.cov, 8, 8) && IsMatrix(r, 4, 4) && |m| == 4 && |mean| == 8 && i < 4
    requires AllPulled(s, r, m, mean)
    ensures var b := BlockOf(s.cov, i);
            Moves(s.mean[i], s.mean[i + 4], m[i], mean[i], mean[i + 4],
                  Ratio(b.pos, b.pos + r[i][i]), Ratio(b.cross, b.pos + r[i][i]))
  {
    assert PulledByShare(s, r, m, mean, i) && PulledByShare(s, r, m, mean, i + 4);
  }

  /** Component i of s, which has predicted a new track of measurement z. */
  predicate IsPredicted(z: Vector, s: Belief, i: nat)
    requires |z| == 4 && |s.mean| == 8 && IsMatrix(s.cov, 8, 8) && i < 4
  {
    var (d, q) := (InitialDeviation(Max(z[3], 1.0)), MotionDeviation(Max(z[3], 1.0)));
    var b := BlockOf(s.cov, i);
    && s.mean[i] == z[i] && s.mean[i + 4] == 0.0
    && b.pos == Square(d[i]) + Square(d[i + 4]) + Square(q[i]) && b.cross == Square(d[i + 4])
  }

  lemma FirstPrediction(z: Vector) returns (s: Belief)
    requires |z| == 4
    ensures s == Predict(Initiate(z)) && |s.mean| == 8 && IsMatrix(s.cov, 8, 8)
    ensures forall i :: 0 <= i < 4 ==> IsPredicted(z, s, i)
  {
    s := Predict(Initiate(z));
    forall i | 0 <= i < 4 ensures IsPredicted(z, s, i) {
      StartingMean(z, i);
      StartingBlock(z, i);
    }
  }

  /** t.mean is the mean after the correction of s by m. */
  lemma CorrectionPulls(s: Belief, m: Vector) returns (t: Belief)
    requires HealthyBelief(s) && |m| == 4
    ensures Regular(s.cov, MeasurementNoise(s.mean)) && t == Correct(s, m) && |t.mean| == 8
    ensures AllPulled(s, MeasurementNoise(s.mean), m, t.mean)
  {
    CorrectIsSound(s, m);
    t := Correct(s, m);
  }

  lemma FirstIsPulled(z: Vector, m: Vector) returns (s: Belief, mean: Vector)
    requires |z| == 4 && |m| == 4
    ensures |s.mean| == 8 && IsMatrix(s.cov, 8, 8) && |mean| == 8
    ensures forall i :: 0 <= i < 4 ==> IsPredicted(z, s, i)
    ensures AllPulled(s, MeasurementNoise(s.mean), m, mean) && mean == First(z, m).mean
  {
    s := FirstPrediction(z);
    InitiateIsHealthy(z);
    PredictStaysHealthy(Initiate(z));
    var t := CorrectionPulls(s, m);
    mean := t.mean;
  }

  lemma PredictedMoves(z: Vector, m: Vector, s: Belief, mean: Vector, i: nat, h: real, pos: real, cross: real,
                       noise: real)
    requires |z| == 4 && |m| == 4 && |s.mean| == 8 && IsMatrix(s.cov, 8, 8) && |mean| == 8
    requires i < 4 && IsPredicted(z, s, i) && IsPredicted(z, s, 3) && h == Max(z[3], 1.0)
    requires AllPulled(s, MeasurementNoise(s.mean), m, mean)
    requires cross == Square(InitialDeviation(h)[i + 4]) && noise == Square(MeasurementDeviation(h)[i])
    requires pos == Square(InitialDeviation(h)[i]) + cross + Square(MotionDeviation(h)[i])
    ensures Moves(z[i], 0.0, m[i], mean[i], mean[i + 4], Ratio(pos, pos + noise), Ratio(cross, pos + noise))
  {
    PulledEntries(s, MeasurementNoise(s.mean), m, mean, i);
  }

  lemma HeightMoves(z: Vector, m: Vector, s: Belief, mean: Vector, i: nat, h: real)
    requires |z| == 4 && |m| == 4 && |s.mean| == 8 && IsMatrix(s.cov, 8, 8) && |mean| == 8
    requires i in {0, 1, 3} && IsPredicted(z, s, i) && IsPredicted(z, s, 3) && h == Max(z[3], 1.0)
    requires AllPulled(s, MeasurementNoise(s.mean), m, mean)
    ensures Moves(z[i], 0.0, m[i], mean[i], mean[i + 4], 105.0 / 121.0, 25.0 / 121.0)
  {
    var p := Square(h / 10.0) + Square(h / 16.0) + Square(h / 20.0);
    Proportions(h);
    RatioIs(p, p + Square(h / 20.0), 105.0, 121.0);
    RatioIs(Square(h / 16.0), p + Square(h / 20.0), 25.0, 121.0);
    PredictedMoves(z, m, s, mean, i, h, p, Square(h / 16.0), Square(h / 20.0));
  }

  /** The first correction moves the centre and the height of a track 105/121 of the way to the
      detection, and gives them 25/121 of the way as velocity. */
  lemma FirstCorrection(z: Vector, m: Vector, i: nat)
    requires |z| == 4 && |m| == 4 && i in {0, 1, 3}
    ensures First(z, m).mean[i] == z[i] + 105.0 / 121.0 * (m[i] - z[i])
    ensures First(z, m).mean[i + 4] == 25.0 / 121.0 * (m[i] - z[i])
  {
    var s, mean := FirstIsPulled(z, m);
    HeightMoves(z, m, s, mean, i, Max(z[3], 1.0));
  }

  lemma AspectMoves(z: Vector, m: Vector, s: Belief, mean: Vector)
    requires |z| == 4 && |m| == 4 && |s.mean| == 8 && IsMatrix(s.cov, 8, 8) && |mean| == 8
    requires IsPredicted(z, s, 2) && IsPredicted(z, s, 3) && AllPulled(s, MeasurementNoise(s.mean), m, mean)
    ensures mean[2] == Nudged(z[2], 2000001.0 / 102000001.0, m[2] - z[2])
  {
    var p := Square(0.01) + Square(0.00001) + Square(0.01);
    assert p == 0.0002000001 && p + Square(0.1) == 0.0102000001;
    RatioIs(p, p + Square(0.1), 2000001.0, 102000001.0);
    PredictedMoves(z, m, s, mean, 2, Max(z[3], 1.0), p, Square(0.00001), Square(0.1));
  }

  /** The aspect moves about a fiftieth of the way. */
  lemma FirstAspectCorrection(z: Vector, m: Vector)
    requires |z| == 4 && |m| == 4
    ensures First(z, m).mean[2] == z[2] + 2000001.0 / 102000001.0 * (m[2] - z[2])
  {
    var s, mean := FirstIsPulled(z, m);
    AspectMoves(z, m, s, mean);
  }
}
