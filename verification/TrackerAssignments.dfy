/** What an optimal assignment adds: a track and a detection that overlap more than their rivals
    are always paired, so that such a track keeps its id. */
module TrackerAssignments {
  import opened Options
  import opened Matrices
  import opened Boxes
  import opened Lists
  import opened TrackerSpec
  import opened TrackerRuns
  import opened TrackerReports
  import opened TrackerMatches

  function TotalCost(cost: Matrix, pairs: Pairs): real
    requires InRange(pairs, cost)
    decreases |pairs|
  {
    if pairs == [] then 0.0
    else
      var (i, j) := pairs[|pairs| - 1];
      TotalCost(cost, pairs[..|pairs| - 1]) + cost[i][j]
  }

  /** No assignment costs less than this one. */
  ghost predicate IsCheapest(cost: Matrix, rows: nat, cols: nat, pairs: Pairs) {
    && IsMatrix(cost, rows, cols) && IsAssignment(pairs, rows, cols) && InRange(pairs, cost)
    && forall other: Pairs :: IsAssignment(other, rows, cols) && InRange(other, cost) ==>
         TotalCost(cost, pairs) <= TotalCost(cost, other)
  }

  /** linear_sum_assignment, as it is meant to be. */
  ghost predicate AssignsCheaply(solver: Solver) {
    forall cost: Matrix, rows: nat, cols: nat ::
      rows > 0 && cols > 0 && IsMatrix(cost, rows, cols) ==> IsCheapest(cost, rows, cols, solver(cost))
  }

  lemma CheapIsAssignment(solver: Solver)
    requires AssignsCheaply(solver)
    ensures Assigns(solver)
  {
    forall cost: Matrix, rows: nat, cols: nat | rows > 0 && cols > 0 && IsMatrix(cost, rows, cols)
      ensures IsAssignment(solver(cost), rows, cols)
    {
      assert IsCheapest(cost, rows, cols, solver(cost));
    }
  }

  function CostAt(cost: Matrix, pair: (nat, nat)): real
    requires pair.0 < |cost| && pair.1 < |cost[pair.0]|
  {
    cost[pair.0][pair.1]
  }

  lemma {:induction false} ReplacingOne(cost: Matrix, pairs: Pairs, k: nat, pair: (nat, nat))
    requires InRange(pairs, cost) && k < |pairs| && pair.0 < |cost| && pair.1 < |cost[pair.0]|
    ensures InRange(pairs[k := pair], cost)
    ensures TotalCost(cost, pairs[k := pair]) == TotalCost(cost, pairs) - CostAt(cost, pairs[k]) + CostAt(cost, pair)
    decreases |pairs|
  {
    var n := |pairs| - 1;
    var after := pairs[k := pair];
    if k < n {
      ReplacingOne(cost, pairs[..n], k, pair);
      assert after[..n] == pairs[..n][k := pair];
    } else {
      assert after[..n] == pairs[..n];
    }
  }

  predicate HasRow(pairs: Pairs, i: nat) {
    exists k :: 0 <= k < |pairs| && pairs[k].0 == i
  }

  predicate HasColumn(pairs: Pairs, j: nat) {
    exists k :: 0 <= k < |pairs| && pairs[k].1 == j
  }

  /** Track i and detection j cost less together than with anyone else, by more than those others
      could make up for with each other. */
  predicate Dominates(cost: Matrix, rows: nat, cols: nat, i: nat, j: nat)
    requires IsMatrix(cost, rows, cols) && i < rows && j < cols
  {
    && (forall l :: 0 <= l < cols && l != j ==> cost[i][j] < cost[i][l])
    && (forall k :: 0 <= k < rows && k != i ==> cost[i][j] < cost[k][j])
    && (forall k, l :: 0 <= k < rows && 0 <= l < cols && k != i && l != j ==>
          cost[i][j] + cost[k][l] < cost[i][l] + cost[k][j])
  }

  predicate IsCheaper(cost: Matrix, rows: nat, cols: nat, pairs: Pairs, other: Pairs)
    requires InRange(pairs, cost)
  {
    IsAssignment(other, rows, cols) && InRange(other, cost) && TotalCost(cost, other) < TotalCost(cost, pairs)
  }

  lemma RowAlone(cost: Matrix, rows: nat, cols: nat, pairs: Pairs, i: nat, j: nat, k: nat) returns (other: Pairs)
    requires IsMatrix(cost, rows, cols) && IsAssignment(pairs, rows, cols) && InRange(pairs, cost)
    requires i < rows && j < cols && Dominates(cost, rows, cols, i, j)
    requires k < |pairs| && pairs[k].0 == i && !HasColumn(pairs, j)
    ensures IsCheaper(cost, rows, cols, pairs, other)
  {
    other := pairs[k := (i, j)];
    ReplacingOne(cost, pairs, k, (i, j));
    assert CostAt(cost, (i, j)) < CostAt(cost, pairs[k]);
  }

  lemma ColumnAlone(cost: Matrix, rows: nat, cols: nat, pairs: Pairs, i: nat, j: nat, k: nat) returns (other: Pairs)
    requires IsMatrix(cost, rows, cols) && IsAssignment(pairs, rows, cols) && InRange(pairs, cost)
    requires i < rows && j < cols && Dominates(cost, rows, cols, i, j)
    requires k < |pairs| && pairs[k].1 == j && !HasRow(pairs, i)
    ensures IsCheaper(cost, rows, cols, pairs, other)
  {
    other := pairs[k := (i, j)];
    ReplacingOne(cost, pairs, k, (i, j));
    assert CostAt(cost, (i, j)) < CostAt(cost, pairs[k]);
  }

  lemma ExchangeIsAssignment(rows: nat, cols: nat, pairs: Pairs, k: nat, l: nat)
    requires IsAssignment(pairs, rows, cols) && k < |pairs| && l < |pairs| && k != l
    ensures var (p, q) := (pairs[k], pairs[l]); IsAssignment(pairs[k := (p.0, q.1)][l := (q.0, p.1)], rows, cols)
  {
    var (p, q) := (pairs[k], pairs[l]);
    var other := pairs[k := (p.0, q.1)][l := (q.0, p.1)];
    assert forall a :: 0 <= a < |pairs| ==> other[a].0 == pairs[a].0;
    assert forall a :: 0 <= a < |pairs| ==> other[a].1 == pairs[if a == k then l else if a == l then k else a].1;
  }

  lemma BothElsewhere(cost: Matrix, rows: nat, cols: nat, pairs: Pairs, k: nat, l: nat) returns (other: Pairs)
    requires IsMatrix(cost, rows, cols) && IsAssignment(pairs, rows, cols) && InRange(pairs, cost)
    requires k < |pairs| && l < |pairs| && k != l
    requires Dominates(cost, rows, cols, pairs[k].0, pairs[l].1)
    ensures IsCheaper(cost, rows, cols, pairs, other)
  {
    var (p, q) := (pairs[k], pairs[l]);
    assert p.0 != q.0 && p.1 != q.1;
    other := pairs[k := (p.0, q.1)][l := (q.0, p.1)];
    ExchangeIsAssignment(rows, cols, pairs, k, l);
    ReplacingOne(cost, pairs, k, (p.0, q.1));
    ReplacingOne(cost, pairs[k := (p.0, q.1)], l, (q.0, p.1));
    assert CostAt(cost, (p.0, q.1)) + CostAt(cost, (q.0, p.1)) < CostAt(cost, p) + CostAt(cost, q);
  }

  /** One side is used up. */
  lemma RowOrColumn(rows: nat, cols: nat, pairs: Pairs, i: nat, j: nat)
    requires IsAssignment(pairs, rows, cols) && i < rows && j < cols
    ensures HasRow(pairs, i) || HasColumn(pairs, j)
  {
    if !HasRow(pairs, i) && !HasColumn(pairs, j) {
      if rows < cols {
        OneIsMissing(seq(|pairs|, k requires 0 <= k < |pairs| => pairs[k].0), rows, i);
      } else {
        OneIsMissing(seq(|pairs|, k requires 0 <= k < |pairs| => pairs[k].1), cols, j);
      }
    }
  }

  lemma OneIsMissing(xs: seq<nat>, n: nat, x: nat)
    requires x < n && x !in xs && Below(xs, n) && Distinct(xs)
    ensures |xs| < n
  {
    var s := set k | 0 <= k < |xs| :: xs[k];
    DistinctSize(xs);
    BoundedSetSize(s + {x}, n);
  }

  lemma {:induction false} DistinctSize(xs: seq<nat>)
    requires Distinct(xs)
    ensures |set k | 0 <= k < |xs| :: xs[k]| == |xs|
    decreases |xs|
  {
    var s := set k | 0 <= k < |xs| :: xs[k];
    if xs == [] {
      assert s == {};
    } else {
      var (n, init) := (|xs| - 1, xs[..|xs| - 1]);
      DistinctSize(init);
      var t := set k | 0 <= k < |init| :: init[k];
      assert s == t + {xs[n]} by {
        forall x | x in s ensures x in t + {xs[n]} {
          var k :| 0 <= k < |xs| && xs[k] == x;
          assert k < n ==> init[k] == x;
        }
        forall x | x in t ensures x in s {
          var k :| 0 <= k < |init| && init[k] == x;
          assert xs[k] == x;
        }
      }
    }
  }

  /** Whoever leaves a dominant pair apart can do better. */
  lemma ApartIsDearer(cost: Matrix, rows: nat, cols: nat, pairs: Pairs, i: nat, j: nat) returns (other: Pairs)
    requires IsMatrix(cost, rows, cols) && IsAssignment(pairs, rows, cols) && InRange(pairs, cost)
    requires i < rows && j < cols && Dominates(cost, rows, cols, i, j) && (i, j) !in pairs
    ensures IsCheaper(cost, rows, cols, pairs, other)
  {
    RowOrColumn(rows, cols, pairs, i, j);
    if HasRow(pairs, i) {
      var k :| 0 <= k < |pairs| && pairs[k].0 == i;
      assert pairs[k] != (i, j);
      if HasColumn(pairs, j) {
        var l :| 0 <= l < |pairs| && pairs[l].1 == j;
        other := BothElsewhere(cost, rows, cols, pairs, k, l);
      } else {
        other := RowAlone(cost, rows, cols, pairs, i, j, k);
      }
    } else {
      var l :| 0 <= l < |pairs| && pairs[l].1 == j;
      other := ColumnAlone(cost, rows, cols, pairs, i, j, l);
    }
  }

  /** A dominant pair is in every cheapest assignment. */
  lemma DominantIsPaired(cost: Matrix, rows: nat, cols: nat, pairs: Pairs, i: nat, j: nat)
    requires IsCheapest(cost, rows, cols, pairs) && i < rows && j < cols && Dominates(cost, rows, cols, i, j)
    ensures (i, j) in pairs
  {
    if (i, j) !in pairs {
      var other := ApartIsDearer(cost, rows, cols, pairs, i, j);
      assert false;
    }
  }

  // ----- in terms of overlaps -----

  function OverlapOf<B>(cfg: Config<B>, tracks: seq<TrackValue<B>>, dets: seq<Detection>, i: nat, j: nat): real
    requires i < |tracks| && j < |dets|
  {
    Iou(cfg.kalman.box(tracks[i].belief), dets[j].box)
  }

  /** Track i overlaps detection j more than it overlaps any other detection and any other track
      overlaps j, taken together. */
  predicate StandsOut<B>(cfg: Config<B>, tracks: seq<TrackValue<B>>, dets: seq<Detection>, i: nat, j: nat)
    requires i < |tracks| && j < |dets|
  {
    var own := OverlapOf(cfg, tracks, dets, i, j);
    && (forall l :: 0 <= l < |dets| && l != j ==> own > OverlapOf(cfg, tracks, dets, i, l))
    && (forall k :: 0 <= k < |tracks| && k != i ==> own > OverlapOf(cfg, tracks, dets, k, j))
    && (forall k, l :: 0 <= k < |tracks| && 0 <= l < |dets| && k != i && l != j ==>
          own > OverlapOf(cfg, tracks, dets, i, l) + OverlapOf(cfg, tracks, dets, k, j))
  }

  lemma StandingOutDominates<B>(cfg: Config<B>, tracks: seq<TrackValue<B>>, dets: seq<Detection>, i: nat, j: nat)
    requires i < |tracks| && j < |dets| && StandsOut(cfg, tracks, dets, i, j)
    ensures Dominates(Costs(cfg, tracks, dets), |tracks|, |dets|, i, j)
  {
    var cost := Costs(cfg, tracks, dets);
    assert forall k, l :: 0 <= k < |tracks| && 0 <= l < |dets| ==>
             cost[k][l] == 1.0 - OverlapOf(cfg, tracks, dets, k, l);
    forall k, l | 0 <= k < |tracks| && 0 <= l < |dets| && k != i && l != j
      ensures cost[i][j] + cost[k][l] < cost[i][l] + cost[k][j]
    {
      IouIsAFraction(cfg.kalman.box(tracks[k].belief), dets[l].box);
      assert OverlapOf(cfg, tracks, dets, k, l) >= 0.0;
    }
  }

  /** With an optimal solver, a track that overlaps a high detection by the threshold and more than
      all rivals keeps its id with it. */
  lemma StandingOutKeepsId<B>(cfg: Config<B>, solver: Solver, s: State<B>, dets: seq<Detection>, i: nat, j: nat)
    requires AssignsCheaply(solver) && i < |s.tracks| && j < |High(cfg, dets)|
    requires StandsOut(cfg, PredictAll(cfg, s.tracks), High(cfg, dets), i, j)
    requires Overlaps(cfg, PredictAll(cfg, s.tracks)[i], High(cfg, dets)[j])
    ensures Assigns(solver)
    ensures Continued(cfg, s.tracks[i], High(cfg, dets)[j]) in Reports(cfg, Update(cfg, solver, s, dets))
  {
    var (ps, high) := (PredictAll(cfg, s.tracks), High(cfg, dets));
    CheapIsAssignment(solver);
    StandingOutDominates(cfg, ps, high, i, j);
    DominantIsPaired(Costs(cfg, ps, high), |ps|, |high|, solver(Costs(cfg, ps, high)), i, j);
    HighPairIsReported(cfg, solver, s, dets, i, j);
  }
}
