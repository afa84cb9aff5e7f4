/** KalmanFilterXYAH: a constant-velocity filter over (x, y, aspect, height) and their
    velocities, on full 8-vectors and 8x8 covariances, over the reals. */
module KalmanFilter {
  import opened Matrices
  import opened Reals

  /** A track's mean and covariance. */
  datatype Belief = Belief(mean: Vector, cov: Matrix)

  function Motion(): (f: Matrix)
    ensures IsMatrix(f, 8, 8)
    ensures forall i, j :: 0 <= i < 8 && 0 <= j < 8 ==> f[i][j] == if i == j || j == i + 4 then 1.0 else 0.0
  {
    seq(8, i => seq(8, j => if i == j || j == i + 4 then 1.0 else 0.0))
  }

  /** The measurement matrix: the first four components are observed. */
  function Observe(): (h: Matrix)
    ensures IsMatrix(h, 4, 8)
    ensures forall i, j :: 0 <= i < 4 && 0 <= j < 8 ==> h[i][j] == if i == j then 1.0 else 0.0
  {
    seq(4, i => seq(8, j => if i == j then 1.0 else 0.0))
  }

  function InitialDeviation(height: real): Vector {
    [height / 10.0, height / 10.0, 0.01, height / 10.0,
     height / 16.0, height / 16.0, 0.00001, height / 16.0]
  }

  function MotionDeviation(height: real): Vector {
    [height / 20.0, height / 20.0, 0.01, height / 20.0,
     height / 160.0, height / 160.0, 0.00001, height / 160.0]
  }

  function MeasurementDeviation(height: real): Vector {
    [height / 20.0, height / 20.0, 0.1, height / 20.0]
  }

  function Initiate(z: Vector): (s: Belief)
    requires |z| == 4
    ensures |s.mean| == 8 && IsMatrix(s.cov, 8, 8)
  {
    Belief(z + [0.0, 0.0, 0.0, 0.0], DiagOfSquares(InitialDeviation(Max(z[3], 1.0))))
  }

  function MotionNoise(mean: Vector): (q: Matrix)
    requires |mean| == 8
    ensures IsMatrix(q, 8, 8)
  {
    DiagOfSquares(MotionDeviation(Max(mean[3], 1.0)))
  }

  function MeasurementNoise(mean: Vector): (r: Matrix)
    requires |mean| == 8
    ensures IsMatrix(r, 4, 4)
  {
    DiagOfSquares(MeasurementDeviation(Max(mean[3], 1.0)))
  }

  predicate PositiveDiagonal(d: Matrix, n: nat) {
    && IsMatrix(d, n, n)
    && (forall i, j :: 0 <= i < n && 0 <= j < n && i != j ==> d[i][j] == 0.0)
    && (forall i :: 0 <= i < n ==> d[i][i] > 0.0)
  }

  lemma SquaresAreAPositiveDiagonal(d: Vector)
    requires forall i :: 0 <= i < |d| ==> d[i] > 0.0
    ensures PositiveDiagonal(DiagOfSquares(d), |d|)
  {
    forall i | 0 <= i < |d| ensures Square(d[i]) > 0.0 {
      SquareSign(d[i]);
    }
  }

  lemma NoiseIsPositive(mean: Vector)
    requires |mean| == 8
    ensures PositiveDiagonal(MotionNoise(mean), 8) && PositiveDiagonal(MeasurementNoise(mean), 4)
  {
    SquaresAreAPositiveDiagonal(MotionDeviation(Max(mean[3], 1.0)));
    SquaresAreAPositiveDiagonal(MeasurementDeviation(Max(mean[3], 1.0)));
  }

  /** F P F^T + Q. */
  function Propagated(p: Matrix, q: Matrix): (r: Matrix)
    requires IsMatrix(p, 8, 8) && IsMatrix(q, 8, 8)
    ensures IsMatrix(r, 8, 8)
  {
    Add(Mul(Mul(Motion(), p, 8, 8, 8), Transpose(Motion(), 8, 8), 8, 8, 8), q, 8, 8)
  }

  function Predict(s: Belief): (t: Belief)
    requires |s.mean| == 8 && IsMatrix(s.cov, 8, 8)
    ensures |t.mean| == 8 && IsMatrix(t.cov, 8, 8)
  {
    Belief(Apply(Motion(), s.mean, 8), Propagated(s.cov, MotionNoise(s.mean)))
  }

  // ----- the shape of every reachable covariance -----

  /** Components are uncorrelated except each one with its own velocity. */
  predicate Paired(p: Matrix) {
    && IsMatrix(p, 8, 8)
    && (forall i, j :: 0 <= i < 8 && 0 <= j < 8 && i != j && i != j + 4 && j != i + 4 ==> p[i][j] == 0.0)
    && (forall i :: 0 <= i < 4 ==> p[i][i + 4] == p[i + 4][i])
  }

  /** The covariance of one component with its velocity. */
  datatype Block = Block(pos: real, cross: real, vel: real) {
    predicate Positive() {
      pos > 0.0 && vel > 0.0 && pos * vel > cross * cross
    }
  }

  function BlockOf(p: Matrix, i: nat): Block
    requires IsMatrix(p, 8, 8) && i < 4
  {
    Block(p[i][i], p[i][i + 4], p[i + 4][i + 4])
  }

  /** Paired, with each (component, velocity) block positive definite. */
  predicate Healthy(p: Matrix) {
    Paired(p) && forall i :: 0 <= i < 4 ==> BlockOf(p, i).Positive()
  }

  // ----- predict -----

  lemma MulByMotion(p: Matrix, i: nat, j: nat)
    requires IsMatrix(p, 8, 8) && i < 8 && j < 8
    ensures Mul(Motion(), p, 8, 8, 8)[i][j] == p[i][j] + if i < 4 then p[i + 4][j] else 0.0
    ensures Mul(p, Transpose(Motion(), 8, 8), 8, 8, 8)[i][j] == p[i][j] + if j < 4 then p[i][j + 4] else 0.0
  {
    SparseEntry(Motion(), p, i, j, 8, i, i + 4);
    SparseEntry(p, Transpose(Motion(), 8, 8), i, j, 8, j, j + 4);
  }

  lemma PropagatedEntry(p: Matrix, q: Matrix, i: nat, j: nat)
    requires IsMatrix(p, 8, 8) && IsMatrix(q, 8, 8) && i < 8 && j < 8
    ensures Propagated(p, q)[i][j] == p[i][j]
                                      + (if i < 4 then p[i + 4][j] else 0.0)
                                      + (if j < 4 then p[i][j + 4] else 0.0)
                                      + (if i < 4 && j < 4 then p[i + 4][j + 4] else 0.0)
                                      + q[i][j]
  {
    var fp := Mul(Motion(), p, 8, 8, 8);
    MulByMotion(p, i, j);
    MulByMotion(fp, i, j);
    if j < 4 {
      MulByMotion(p, i, j + 4);
    }
  }

  /** The mean moves at constant velocity. */
  lemma PredictedMean(s: Belief, i: nat)
    requires |s.mean| == 8 && IsMatrix(s.cov, 8, 8) && i < 4
    ensures Predict(s).mean[i] == s.mean[i] + s.mean[i + 4] && Predict(s).mean[i + 4] == s.mean[i + 4]
  {
    SparseEntry(Motion(), Column(s.mean), i, 0, 8, i, i + 4);
    SparseEntry(Motion(), Column(s.mean), i + 4, 0, 8, i + 4, -1);
  }

  /** The two-state filter's predict. */
  function PropagatedBlock(v: Block, q: real, r: real): Block {
    Block(v.pos + v.cross + v.cross + v.vel + q, v.cross + v.vel, v.vel + r)
  }

  lemma PropagatedBlockIsPositive(v: Block, q: real, r: real)
    requires v.Positive() && q > 0.0 && r > 0.0
    ensures PropagatedBlock(v, q, r).Positive()
  {
    var (a, b, c) := (v.pos, v.cross, v.vel);
    var sum := a + b + b + c;
    SquareIsNonNegative(a + b);
    assert a * sum == (a + b) * (a + b) + (a * c - b * b);
    assert sum > 0.0;
    assert sum * c - (b + c) * (b + c) == a * c - b * b;
    assert (sum + q) * r > 0.0 && q * c > 0.0;
    assert (sum + q) * (c + r) == sum * c + q * c + (sum + q) * r;
  }

  lemma PropagatedIsPaired(p: Matrix, q: Matrix)
    requires Paired(p) && PositiveDiagonal(q, 8)
    ensures Paired(Propagated(p, q))
  {
    var r := Propagated(p, q);
    forall i, j | 0 <= i < 8 && 0 <= j < 8 && i != j && i != j + 4 && j != i + 4
      ensures r[i][j] == 0.0
    {
      PropagatedEntry(p, q, i, j);
    }
    forall i | 0 <= i < 4 ensures r[i][i + 4] == r[i + 4][i] {
      PropagatedEntry(p, q, i, i + 4);
      PropagatedEntry(p, q, i + 4, i);
    }
  }

  lemma BlockIsPropagated(p: Matrix, q: Matrix, i: nat)
    requires Paired(p) && PositiveDiagonal(q, 8) && i < 4
    ensures BlockOf(Propagated(p, q), i) == PropagatedBlock(BlockOf(p, i), q[i][i], q[i + 4][i + 4])
  {
    PropagatedEntry(p, q, i, i);
    PropagatedEntry(p, q, i, i + 4);
    PropagatedEntry(p, q, i + 4, i + 4);
  }

  lemma PropagatedIsHealthy(p: Matrix, q: Matrix)
    requires Healthy(p) && PositiveDiagonal(q, 8)
    ensures Healthy(Propagated(p, q))
  {
    var r := Propagated(p, q);
    PropagatedIsPaired(p, q);
    forall i | 0 <= i < 4 ensures BlockOf(r, i).Positive() {
      BlockIsPropagated(p, q, i);
      PropagatedBlockIsPositive(BlockOf(p, i), q[i][i], q[i + 4][i + 4]);
    }
  }

  // ----- update -----

  /** H P H^T + R. */
  function Projected(p: Matrix, r: Matrix): (s: Matrix)
    requires IsMatrix(p, 8, 8) && IsMatrix(r, 4, 4)
    ensures IsMatrix(s, 4, 4)
  {
    Add(Mul(Mul(Observe(), p, 4, 8, 8), Transpose(Observe(), 4, 8), 4, 8, 4), r, 4, 4)
  }

  lemma ObservedRows(p: Matrix, i: nat, j: nat)
    requires IsMatrix(p, 8, 8) && i < 4 && j < 8
    ensures Mul(Observe(), p, 4, 8, 8)[i][j] == p[i][j]
  {
    SparseEntry(Observe(), p, i, j, 8, i, -1);
  }

  lemma ProjectedEntry(p: Matrix, r: Matrix, i: nat, j: nat)
    requires IsMatrix(p, 8, 8) && IsMatrix(r, 4, 4) && i < 4 && j < 4
    ensures Projected(p, r)[i][j] == p[i][j] + r[i][j]
  {
    ObservedRows(p, i, j);
    SparseEntry(Mul(Observe(), p, 4, 8, 8), Transpose(Observe(), 4, 8), i, j, 8, j, -1);
  }

  /** The system the update solves has exactly one solution. */
  predicate Regular(p: Matrix, r: Matrix) {
    IsMatrix(p, 8, 8) && IsMatrix(r, 4, 4) && IsDiagonal(Projected(p, r), 4)
  }

  /** In a healthy filter the system is diagonal with positive entries: never singular. */
  lemma ProjectedIsRegular(p: Matrix, r: Matrix)
    requires Healthy(p) && PositiveDiagonal(r, 4)
    ensures Regular(p, r)
    ensures forall i :: 0 <= i < 4 ==> Projected(p, r)[i][i] == p[i][i] + r[i][i]
  {
    forall i, j | 0 <= i < 4 && 0 <= j < 4 ensures Projected(p, r)[i][j] == p[i][j] + r[i][j] {
      ProjectedEntry(p, r, i, j);
    }
    forall i | 0 <= i < 4 ensures p[i][i] > 0.0 {
      assert BlockOf(p, i).Positive();
    }
  }

  /** np.linalg.solve(S, H P).T. */
  function Gain(p: Matrix, r: Matrix): (k: Matrix)
    requires Regular(p, r)
    ensures IsMatrix(k, 8, 4)
  {
    Transpose(Solve(Projected(p, r), Mul(Observe(), p, 4, 8, 8), 4, 8), 4, 8)
  }

  /** The component a state index belongs to: itself, or the one whose velocity it is. */
  function Component(x: nat): (i: nat)
    requires x < 8
    ensures i < 4 && (x == i || x == i + 4)
  {
    if x < 4 then x else x - 4
  }

  /** P - K S K^T. */
  function Downdated(p: Matrix, k: Matrix, s: Matrix): (c: Matrix)
    requires IsMatrix(p, 8, 8) && IsMatrix(k, 8, 4) && IsMatrix(s, 4, 4)
    ensures IsMatrix(c, 8, 8)
  {
    Sub(p, Mul(Mul(k, s, 8, 4, 4), Transpose(k, 8, 4), 8, 4, 8), 8, 8)
  }

  /** k is a gain for p and s: it solves k s = (h p)^T. */
  predicate IsGain(p: Matrix, k: Matrix, s: Matrix) {
    && IsMatrix(k, 8, 4) && IsMatrix(p, 8, 8) && IsDiagonal(s, 4)
    && forall x, i :: 0 <= x < 8 && 0 <= i < 4 ==> Mul(k, s, 8, 4, 4)[x][i] == p[i][x]
  }

  function Ratio(x: real, s: real): real {
    if s == 0.0 then 0.0 else x / s
  }

  /** What is left of x after removing the share g of y. */
  function Less(x: real, y: real, g: real): real {
    x - y * g
  }

  lemma GainValue(p: Matrix, k: Matrix, s: Matrix, x: nat, i: nat)
    requires IsGain(p, k, s) && x < 8 && i < 4
    ensures k[x][i] == Ratio(p[i][x], s[i][i])
  {
    ProductByDiagonal(k, s, 8, 4, x, i);
    QuotientIsUnique(s[i][i], k[x][i], p[i][x]);
  }

  /** When row x of ks repeats column x of p, its product with K^T has a single term. */
  lemma SingleTerm(p: Matrix, ks: Matrix, k: Matrix, x: nat, y: nat)
    requires Paired(p) && IsMatrix(ks, 8, 4) && IsMatrix(k, 8, 4) && x < 8 && y < 8
    requires forall i :: 0 <= i < 4 ==> ks[x][i] == p[i][x]
    ensures Mul(ks, Transpose(k, 8, 4), 8, 4, 8)[x][y] == p[Component(x)][x] * k[y][Component(x)]
  {
    SparseEntry(ks, Transpose(k, 8, 4), x, y, 4, Component(x), -1);
  }

  lemma DowndatedEntry(p: Matrix, k: Matrix, s: Matrix, x: nat, y: nat)
    requires Paired(p) && IsGain(p, k, s) && x < 8 && y < 8
    ensures Downdated(p, k, s)[x][y] == Less(p[x][y], p[Component(x)][x], k[y][Component(x)])
  {
    SingleTerm(p, Mul(k, s, 8, 4, 4), k, x, y);
  }

  lemma SolutionIsGain(p: Matrix, s: Matrix, hp: Matrix)
    requires IsMatrix(p, 8, 8) && IsDiagonal(s, 4) && IsMatrix(hp, 4, 8)
    requires forall i, x :: 0 <= i < 4 && 0 <= x < 8 ==> hp[i][x] == p[i][x]
    ensures IsGain(p, Transpose(Solve(s, hp, 4, 8), 4, 8), s)
  {
    var k := Transpose(Solve(s, hp, 4, 8), 4, 8);
    forall x, i | 0 <= x < 8 && 0 <= i < 4 ensures Mul(k, s, 8, 4, 4)[x][i] == p[i][x] {
      SolutionRow(s, hp, 4, 8, x, i);
      ProductByDiagonal(k, s, 8, 4, x, i);
    }
  }

  lemma GainIsGain(p: Matrix, r: Matrix)
    requires Regular(p, r)
    ensures IsGain(p, Gain(p, r), Projected(p, r))
  {
    var hp := Mul(Observe(), p, 4, 8, 8);
    forall i, x | 0 <= i < 4 && 0 <= x < 8 ensures hp[i][x] == p[i][x] {
      ObservedRows(p, i, x);
    }
    SolutionIsGain(p, Projected(p, r), hp);
  }

  function Corrected(p: Matrix, r: Matrix): (c: Matrix)
    requires Regular(p, r)
    ensures IsMatrix(c, 8, 8)
  {
    Downdated(p, Gain(p, r), Projected(p, r))
  }

  /** The two-state filter's update, with innovation variance s. */
  function CorrectedBlock(v: Block, s: real): Block {
    var (g, h) := (Ratio(v.pos, s), Ratio(v.cross, s));
    Block(Less(v.pos, v.pos, g), Less(v.cross, v.pos, h), Less(v.vel, v.cross, h))
  }

  /** It stays positive definite, the gain is a proper fraction, and the new variance is the
      parallel sum of the prior's and the measurement's. */
  lemma CorrectedBlockIsPositive(v: Block, r: real)
    requires v.Positive() && r > 0.0
    ensures 0.0 < Ratio(v.pos, v.pos + r) < 1.0
    ensures CorrectedBlock(v, v.pos + r).Positive()
    ensures CorrectedBlock(v, v.pos + r).pos * (v.pos + r) == v.pos * r
  {
    DowndatedBlock(v.pos, v.cross, v.vel, r, v.pos / (v.pos + r), v.cross / (v.pos + r));
  }

  lemma DowndatedBlock(a: real, b: real, c: real, r: real, g: real, h: real)
    requires Block(a, b, c).Positive() && r > 0.0
    requires g * (a + r) == a && h * (a + r) == b
    ensures 0.0 < g < 1.0
    ensures Block(a - a * g, b - a * h, c - b * h).Positive()
    ensures (a - a * g) * (a + r) == a * r
  {
    var s := a + r;
    assert a * h == (g * s) * h == g * (s * h) == b * g;
    assert (1.0 - g) * s == r;
    assert 0.0 < 1.0 - g;
    assert a - a * g == a * (1.0 - g);
    assert (c - b * h) * s == c * a + c * r - b * b;
    assert c * r > 0.0;
    assert c - b * h > 0.0;
    DowndatedDeterminant(a, b, c, g, h);
  }

  lemma DowndatedDeterminant(a: real, b: real, c: real, g: real, h: real)
    requires a * c > b * b && 0.0 < g < 1.0 && a * h == b * g
    ensures (a - a * g) * (c - b * h) > (b - a * h) * (b - a * h)
  {
    var (f, ac, bb, w) := (1.0 - g, a * c, b * b, b * (b * g));
    assert a * (b * h) == w;
    assert (a - a * g) * (c - b * h) == f * (ac - w);
    assert (b - a * h) * (b - a * h) == f * (bb - w);
    Distribute(f, ac, bb, w);
    ProductIsPositive(f, ac - bb);
  }

  lemma Distribute(f: real, x: real, y: real, w: real)
    ensures f * (x - w) - f * (y - w) == f * (x - y)
  {
  }

  lemma BlockIsCorrected(p: Matrix, k: Matrix, s: Matrix, i: nat)
    requires Paired(p) && IsGain(p, k, s) && i < 4
    ensures BlockOf(Downdated(p, k, s), i) == CorrectedBlock(BlockOf(p, i), s[i][i])
  {
    DowndatedEntry(p, k, s, i, i);
    DowndatedEntry(p, k, s, i, i + 4);
    DowndatedEntry(p, k, s, i + 4, i + 4);
    GainValue(p, k, s, i, i);
    GainValue(p, k, s, i + 4, i);
  }

  lemma CrossIsSymmetric(a: real, b: real, s: real)
    requires s != 0.0
    ensures Less(b, b, Ratio(a, s)) == Less(b, a, Ratio(b, s))
  {
    var (g, h) := (a / s, b / s);
    assert b * g == (s * h) * g == h * (s * g) == h * a;
  }

  lemma NoGainAcross(p: Matrix, k: Matrix, s: Matrix, y: nat, m: nat)
    requires Paired(p) && IsGain(p, k, s) && y < 8 && m < 4 && m != Component(y)
    ensures k[y][m] == 0.0
  {
    GainValue(p, k, s, y, m);
  }

  lemma OffBlockEntry(p: Matrix, k: Matrix, s: Matrix, x: nat, y: nat)
    requires Paired(p) && IsGain(p, k, s) && x < 8 && y < 8 && Component(x) != Component(y)
    ensures Downdated(p, k, s)[x][y] == 0.0
  {
    DowndatedEntry(p, k, s, x, y);
    NoGainAcross(p, k, s, y, Component(x));
  }

  lemma MirrorEntry(p: Matrix, k: Matrix, s: Matrix, i: nat)
    requires Paired(p) && IsGain(p, k, s) && i < 4
    ensures Downdated(p, k, s)[i][i + 4] == Downdated(p, k, s)[i + 4][i]
  {
    DowndatedEntry(p, k, s, i, i + 4);
    DowndatedEntry(p, k, s, i + 4, i);
    GainValue(p, k, s, i, i);
    GainValue(p, k, s, i + 4, i);
    CrossIsSymmetric(p[i][i], p[i][i + 4], s[i][i]);
  }

  lemma DowndatedIsHealthy(p: Matrix, r: Matrix, k: Matrix, s: Matrix)
    requires Healthy(p) && PositiveDiagonal(r, 4) && IsGain(p, k, s)
    requires forall i :: 0 <= i < 4 ==> s[i][i] == p[i][i] + r[i][i]
    ensures Healthy(Downdated(p, k, s))
  {
    var t := Downdated(p, k, s);
    forall x, y | 0 <= x < 8 && 0 <= y < 8 && x != y && x != y + 4 && y != x + 4
      ensures t[x][y] == 0.0
    {
      OffBlockEntry(p, k, s, x, y);
    }
    forall i | 0 <= i < 4 ensures t[i][i + 4] == t[i + 4][i] && BlockOf(t, i).Positive() {
      MirrorEntry(p, k, s, i);
      BlockIsCorrected(p, k, s, i);
      CorrectedBlockIsPositive(BlockOf(p, i), r[i][i]);
    }
  }

  /** KalmanFilterXYAH.update. */
  function Correct(s: Belief, z: Vector): (t: Belief)
    requires |s.mean| == 8 && |z| == 4 && Regular(s.cov, MeasurementNoise(s.mean))
    ensures |t.mean| == 8 && IsMatrix(t.cov, 8, 8)
  {
    var r := MeasurementNoise(s.mean);
    Belief(Moved(s.mean, Gain(s.cov, r), z), Corrected(s.cov, r))
  }

  /** mean + K (z - H mean). */
  function Moved(mean: Vector, k: Matrix, z: Vector): (m: Vector)
    requires |mean| == 8 && IsMatrix(k, 8, 4) && |z| == 4
    ensures |m| == 8
  {
    var projected := Apply(Observe(), mean, 4);
    var innovation := seq(4, i requires 0 <= i < 4 => z[i] - projected[i]);
    var shift := Apply(k, innovation, 8);
    seq(8, x requires 0 <= x < 8 => mean[x] + shift[x])
  }

  /** x pulled by the share g of the deviation d. */
  function Nudged(x: real, g: real, d: real): real {
    x + g * d
  }

  lemma ObservedEntry(mean: Vector, m: nat)
    requires |mean| == 8 && m < 4
    ensures Apply(Observe(), mean, 4)[m] == mean[m]
  {
    SparseEntry(Observe(), Column(mean), m, 0, 8, m, -1);
  }

  lemma MovedEntry(p: Matrix, mean: Vector, k: Matrix, s: Matrix, z: Vector, x: nat)
    requires |mean| == 8 && |z| == 4 && Paired(p) && IsGain(p, k, s) && x < 8
    ensures var m := Component(x);
            Moved(mean, k, z)[x] == Nudged(mean[x], k[x][m], z[m] - mean[m])
  {
    var m := Component(x);
    var projected := Apply(Observe(), mean, 4);
    var innovation := seq(4, i requires 0 <= i < 4 => z[i] - projected[i]);
    forall i | 0 <= i < 4 && i != m ensures k[x][i] == 0.0 {
      NoGainAcross(p, k, s, x, i);
    }
    ObservedEntry(mean, m);
    SparseEntry(k, Column(innovation), x, 0, 4, m, -1);
  }

  /** m lies strictly between x and z, or all three agree. */
  predicate Between(x: real, m: real, z: real) {
    if x == z then m == x else x < m < z || z < m < x
  }

  lemma FractionLandsBetween(x: real, z: real, g: real)
    requires 0.0 < g < 1.0
    ensures Between(x, Nudged(x, g, z - x), z)
  {
    var d := z - x;
    assert (1.0 - g) * d == d - g * d;
    if d > 0.0 {
      ProductIsPositive(g, d);
      ProductIsPositive(1.0 - g, d);
      assert Product(g, d) == g * d && Product(1.0 - g, d) == d - g * d;
    } else if d < 0.0 {
      ProductIsPositive(g, -d);
      ProductIsPositive(1.0 - g, -d);
      assert Product(g, -d) == -(g * d) && Product(1.0 - g, -d) == -(d - g * d);
    }
  }

  lemma ComponentOf(p: Matrix, mean: Vector, k: Matrix, s: Matrix, r: real, z: Vector, i: nat)
    requires |mean| == 8 && |z| == 4 && Paired(p) && IsGain(p, k, s) && i < 4
    requires BlockOf(p, i).Positive() && r > 0.0 && s[i][i] == p[i][i] + r
    ensures Between(mean[i], Moved(mean, k, z)[i], z[i])
  {
    CorrectedBlockIsPositive(BlockOf(p, i), r);
    GainValue(p, k, s, i, i);
    MovedEntry(p, mean, k, s, z, i);
    FractionLandsBetween(mean[i], z[i], k[i][i]);
  }

  lemma MovedByGain(p: Matrix, mean: Vector, k: Matrix, s: Matrix, z: Vector, x: nat)
    requires |mean| == 8 && |z| == 4 && Paired(p) && IsGain(p, k, s) && x < 8
    ensures var m := Component(x);
            Moved(mean, k, z)[x] == Nudged(mean[x], Ratio(p[m][x], s[m][m]), z[m] - mean[m])
  {
    MovedEntry(p, mean, k, s, z, x);
    GainValue(p, k, s, x, Component(x));
  }

  /** Entry x, a component or a velocity, is pulled towards the measurement by its covariance with
      the component over the variance of the innovation: the share of least variance. */
  predicate PulledByShare(s: Belief, r: Matrix, z: Vector, mean: Vector, x: nat)
    requires |s.mean| == 8 && IsMatrix(s.cov, 8, 8) && IsMatrix(r, 4, 4) && |z| == 4 && |mean| == 8 && x < 8
  {
    var m := Component(x);
    mean[x] == Nudged(s.mean[x], Ratio(s.cov[m][x], s.cov[m][m] + r[m][m]), z[m] - s.mean[m])
  }

  predicate AllPulled(s: Belief, r: Matrix, z: Vector, mean: Vector)
    requires |s.mean| == 8 && IsMatrix(s.cov, 8, 8) && IsMatrix(r, 4, 4) && |z| == 4 && |mean| == 8
  {
    forall x :: 0 <= x < 8 ==> PulledByShare(s, r, z, mean, x)
  }

  /** What an update owes its belief: it stays healthy, each block is corrected on its own, and
      every component lands strictly between its prediction and its measurement, pulled by its
      share; and so is every velocity. */
  predicate SoundUpdate(s: Belief, r: Matrix, z: Vector, t: Belief)
    requires |s.mean| == 8 && IsMatrix(s.cov, 8, 8) && IsMatrix(r, 4, 4) && |z| == 4
    requires |t.mean| == 8 && IsMatrix(t.cov, 8, 8)
  {
    && Healthy(t.cov)
    && (forall i :: 0 <= i < 4 ==> Between(s.mean[i], t.mean[i], z[i]))
    && AllPulled(s, r, z, t.mean)
    && (forall i :: 0 <= i < 4 ==>
          BlockOf(t.cov, i) == CorrectedBlock(BlockOf(s.cov, i), s.cov[i][i] + r[i][i]))
  }

  lemma GainPulls(s: Belief, r: Matrix, k: Matrix, innovation: Matrix, z: Vector)
    requires |s.mean| == 8 && |z| == 4 && Paired(s.cov) && IsMatrix(r, 4, 4) && IsGain(s.cov, k, innovation)
    requires forall i :: 0 <= i < 4 ==> innovation[i][i] == s.cov[i][i] + r[i][i]
    ensures AllPulled(s, r, z, Moved(s.mean, k, z))
  {
    forall x | 0 <= x < 8 ensures PulledByShare(s, r, z, Moved(s.mean, k, z), x) {
      MovedByGain(s.cov, s.mean, k, innovation, z, x);
    }
  }

  lemma ComponentIsCorrected(s: Belief, r: Matrix, k: Matrix, innovation: Matrix, z: Vector, i: nat)
    requires |s.mean| == 8 && |z| == 4 && Healthy(s.cov) && PositiveDiagonal(r, 4)
    requires IsGain(s.cov, k, innovation) && i < 4 && innovation[i][i] == s.cov[i][i] + r[i][i]
    ensures Between(s.mean[i], Moved(s.mean, k, z)[i], z[i])
    ensures BlockOf(Downdated(s.cov, k, innovation), i) == CorrectedBlock(BlockOf(s.cov, i), s.cov[i][i] + r[i][i])
  {
    assert BlockOf(s.cov, i).Positive();
    ComponentOf(s.cov, s.mean, k, innovation, r[i][i], z, i);
    BlockIsCorrected(s.cov, k, innovation, i);
  }

  lemma GainUpdatesSoundly(s: Belief, r: Matrix, k: Matrix, innovation: Matrix, z: Vector)
    requires |s.mean| == 8 && |z| == 4 && Healthy(s.cov) && PositiveDiagonal(r, 4)
    requires IsGain(s.cov, k, innovation)
    requires forall i :: 0 <= i < 4 ==> innovation[i][i] == s.cov[i][i] + r[i][i]
    ensures SoundUpdate(s, r, z, Belief(Moved(s.mean, k, z), Downdated(s.cov, k, innovation)))
  {
    DowndatedIsHealthy(s.cov, r, k, innovation);
    forall i | 0 <= i < 4
      ensures Between(s.mean[i], Moved(s.mean, k, z)[i], z[i])
      ensures BlockOf(Downdated(s.cov, k, innovation), i) == CorrectedBlock(BlockOf(s.cov, i), s.cov[i][i] + r[i][i])
    {
      ComponentIsCorrected(s, r, k, innovation, z, i);
    }
    GainPulls(s, r, k, innovation, z);
  }

  lemma CorrectIsSound(s: Belief, z: Vector)
    requires |s.mean| == 8 && |z| == 4 && Healthy(s.cov)
    ensures Regular(s.cov, MeasurementNoise(s.mean))
    ensures SoundUpdate(s, MeasurementNoise(s.mean), z, Correct(s, z))
  {
    var r := MeasurementNoise(s.mean);
    NoiseIsPositive(s.mean);
    ProjectedIsRegular(s.cov, r);
    GainIsGain(s.cov, r);
    GainUpdatesSoundly(s, r, Gain(s.cov, r), Projected(s.cov, r), z);
  }

  // ----- every run -----

  datatype Step = Predicted | Measured(z: Vector)

  predicate Measures(step: Step) {
    step.Measured? ==> |step.z| == 4
  }

  predicate HealthyBelief(s: Belief) {
    |s.mean| == 8 && Healthy(s.cov)
  }

  lemma PredictStaysHealthy(s: Belief)
    requires HealthyBelief(s)
    ensures HealthyBelief(Predict(s))
  {
    NoiseIsPositive(s.mean);
    PropagatedIsHealthy(s.cov, MotionNoise(s.mean));
  }

  lemma InitiateIsHealthy(z: Vector)
    requires |z| == 4
    ensures HealthyBelief(Initiate(z))
  {
    var d := InitialDeviation(Max(z[3], 1.0));
    SquaresAreAPositiveDiagonal(d);
    DiagonalIsHealthy(DiagOfSquares(d));
  }

  lemma DiagonalIsHealthy(p: Matrix)
    requires PositiveDiagonal(p, 8)
    ensures Healthy(p)
  {
    forall i | 0 <= i < 4 ensures BlockOf(p, i).Positive() {
      ProductIsPositive(p[i][i], p[i + 4][i + 4]);
    }
  }

  /** The belief after a sequence of predictions and measurements. */
  function Run(s: Belief, steps: seq<Step>): (t: Belief)
    requires HealthyBelief(s) && forall step <- steps :: Measures(step)
    ensures HealthyBelief(t)
    decreases |steps|
  {
    if steps == [] then s
    else
      var u := Run(s, steps[..|steps| - 1]);
      var last := steps[|steps| - 1];
      assert Measures(last);
      match last
      case Predicted => PredictStaysHealthy(u); Predict(u)
      case Measured(z) => CorrectIsSound(u, z); Correct(u, z)
  }

  // ----- positive definiteness of the whole matrix -----

  function Dot(x: Vector, y: Vector, n: nat): real
    requires n <= |x| && n <= |y|
    decreases n
  {
    if n == 0 then 0.0 else Dot(x, y, n - 1) + x[n - 1] * y[n - 1]
  }

  /** x^T P x. */
  function QuadraticForm(p: Matrix, x: Vector): real
    requires IsMatrix(p, 8, 8) && |x| == 8
  {
    Dot(x, Apply(p, x, 8), 8)
  }

  ghost predicate PositiveDefinite(p: Matrix)
    requires IsMatrix(p, 8, 8)
  {
    forall x: Vector :: |x| == 8 && (exists i :: 0 <= i < 8 && x[i] != 0.0) ==> QuadraticForm(p, x) > 0.0
  }

  predicate Symmetric(p: Matrix)
    requires IsMatrix(p, 8, 8)
  {
    forall i, j :: 0 <= i < 8 && 0 <= j < 8 ==> p[i][j] == p[j][i]
  }

  function BlockForm(v: Block, a: real, b: real): real {
    a * (v.pos * a + v.cross * b) + b * (v.cross * a + v.vel * b)
  }

  lemma FactorIsPositive(p: real, f: real)
    requires p > 0.0 && p * f > 0.0
    ensures f > 0.0
  {
  }

  lemma CompletedSquare(v: Block, a: real, b: real)
    ensures var m := v.pos * a + v.cross * b;
            v.pos * BlockForm(v, a, b) == Square(m) + Product(v.pos * v.vel - v.cross * v.cross, Square(b))
  {
    var m := v.pos * a + v.cross * b;
    assert v.pos * BlockForm(v, a, b)
           == v.pos * v.pos * (a * a) + 2.0 * v.pos * v.cross * (a * b) + v.pos * v.vel * (b * b);
    assert m * m == v.pos * v.pos * (a * a) + 2.0 * v.pos * v.cross * (a * b) + v.cross * v.cross * (b * b);
  }

  lemma BlockFormIsPositive(v: Block, a: real, b: real)
    requires v.Positive()
    ensures BlockForm(v, a, b) >= 0.0
    ensures a != 0.0 || b != 0.0 ==> BlockForm(v, a, b) > 0.0
  {
    if a == 0.0 && b == 0.0 {
      assert BlockForm(v, 0.0, 0.0) == 0.0;
    } else if b != 0.0 {
      CompletedSquare(v, a, b);
      SquareSign(v.pos * a + v.cross * b);
      SquareSign(b);
      ProductIsPositive(v.pos * v.vel - v.cross * v.cross, Square(b));
      FactorIsPositive(v.pos, BlockForm(v, a, b));
    } else {
      SquareSign(a);
      ProductIsPositive(v.pos, Square(a));
      assert BlockForm(v, a, b) == Product(v.pos, Square(a));
    }
  }

  lemma RowTimesVector(p: Matrix, x: Vector, i: nat)
    requires Paired(p) && |x| == 8 && i < 4
    ensures Apply(p, x, 8)[i] == p[i][i] * x[i] + p[i][i + 4] * x[i + 4]
    ensures Apply(p, x, 8)[i + 4] == p[i][i + 4] * x[i] + p[i + 4][i + 4] * x[i + 4]
  {
    SparseEntry(p, Column(x), i, 0, 8, i, i + 4);
    SparseEntry(p, Column(x), i + 4, 0, 8, i, i + 4);
  }

  function PairTerms(x: Vector, y: Vector, i: nat): real
    requires |x| == 8 && |y| == 8 && i < 4
  {
    x[i] * y[i] + x[i + 4] * y[i + 4]
  }

  lemma DotByPairs(x: Vector, y: Vector)
    requires |x| == 8 && |y| == 8
    ensures Dot(x, y, 8) == PairTerms(x, y, 0) + PairTerms(x, y, 1) + PairTerms(x, y, 2) + PairTerms(x, y, 3)
  {
    assert Dot(x, y, 2) == x[0] * y[0] + x[1] * y[1];
    assert Dot(x, y, 4) == Dot(x, y, 2) + x[2] * y[2] + x[3] * y[3];
    assert Dot(x, y, 6) == Dot(x, y, 4) + x[4] * y[4] + x[5] * y[5];
  }

  lemma PairIsBlockForm(p: Matrix, x: Vector, i: nat)
    requires Paired(p) && |x| == 8 && i < 4
    ensures PairTerms(x, Apply(p, x, 8), i) == BlockForm(BlockOf(p, i), x[i], x[i + 4])
  {
    RowTimesVector(p, x, i);
  }

  lemma HealthyIsPositiveDefinite(p: Matrix)
    requires Healthy(p)
    ensures Symmetric(p) && PositiveDefinite(p)
  {
    forall x: Vector | |x| == 8 && (exists i :: 0 <= i < 8 && x[i] != 0.0)
      ensures QuadraticForm(p, x) > 0.0
    {
      var k :| 0 <= k < 8 && x[k] != 0.0;
      var m := Component(k);
      DotByPairs(x, Apply(p, x, 8));
      forall i | 0 <= i < 4
        ensures PairTerms(x, Apply(p, x, 8), i) >= 0.0
        ensures i == m ==> PairTerms(x, Apply(p, x, 8), i) > 0.0
      {
        assert BlockOf(p, i).Positive();
        PairIsBlockForm(p, x, i);
        BlockFormIsPositive(BlockOf(p, i), x[i], x[i + 4]);
      }
    }
  }

  /** From initiate on, over every sequence of predictions and measurements, the covariance is
      symmetric and positive definite, and the next update can always solve its system. */
  lemma EveryRunIsPositiveDefinite(z: Vector, steps: seq<Step>)
    requires |z| == 4 && forall step <- steps :: Measures(step)
    ensures HealthyBelief(Initiate(z))
    ensures var t := Run(Initiate(z), steps);
            Symmetric(t.cov) && PositiveDefinite(t.cov) && Regular(t.cov, MeasurementNoise(t.mean))
  {
    InitiateIsHealthy(z);
    var t := Run(Initiate(z), steps);
    HealthyIsPositiveDefinite(t.cov);
    CorrectIsSound(t, z);
  }
}
