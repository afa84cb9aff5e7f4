/** One frame of ByteTracker on values: which track takes which detection, what becomes of the
    tracks that take none, and which tracks are reported. What a track believes about its
    object is of any type B, with any filter over it. */
module TrackerSpec {
  import opened Options
  import opened Matrices
  import opened Boxes
  import opened Lists

  datatype Detection = Detection(box: BoundingBox, score: real, classId: int, className: string)

  datatype TrackState = Tracked | Lost | Removed

  /** The operations of a filter: start from a box, predict, take in a box, give the box. */
  datatype Filtering<!B> = Filtering(
    initiate: BoundingBox -> B, predict: B -> B, update: (B, BoundingBox) -> B, box: B -> BoundingBox)

  datatype TrackValue<B> = TrackValue(
    id: nat, belief: B, score: real, classId: int, className: string, last: int, state: TrackState)

  datatype Report = Report(
    cameraId: string, id: nat, box: BoundingBox, score: real, classId: int, className: string)

  datatype Config<!B> = Config(
    cameraId: string, trackThreshold: real, lowThreshold: real, matchIou: real, trackBuffer: int,
    kalman: Filtering<B>)

  datatype State<B> = State(tracks: seq<TrackValue<B>>, nextId: nat, frame: nat)

  // ----- the assignment -----

  type Pairs = seq<(nat, nat)>

  /** What linear_sum_assignment promises of its shape: as many pairs as the smaller side has
      members, no row twice and no column twice. Nothing here depends on their cost. */
  predicate IsAssignment(pairs: Pairs, rows: nat, cols: nat) {
    && |pairs| == (if rows < cols then rows else cols)
    && (forall k :: 0 <= k < |pairs| ==> pairs[k].0 < rows && pairs[k].1 < cols)
    && (forall k, l :: 0 <= k < l < |pairs| ==> pairs[k].0 != pairs[l].0 && pairs[k].1 != pairs[l].1)
  }

  type Solver = Matrix -> Pairs

  ghost predicate Assigns(solver: Solver) {
    forall cost: Matrix, rows: nat, cols: nat ::
      rows > 0 && cols > 0 && IsMatrix(cost, rows, cols) ==> IsAssignment(solver(cost), rows, cols)
  }

  function Costs<B>(cfg: Config<B>, tracks: seq<TrackValue<B>>, dets: seq<Detection>): (cost: Matrix)
    ensures IsMatrix(cost, |tracks|, |dets|)
  {
    seq(|tracks|, i requires 0 <= i < |tracks| =>
      seq(|dets|, j requires 0 <= j < |dets| => 1.0 - Iou(cfg.kalman.box(tracks[i].belief), dets[j].box)))
  }

  predicate InRange(pairs: Pairs, cost: Matrix) {
    forall k :: 0 <= k < |pairs| ==> pairs[k].0 < |cost| && pairs[k].1 < |cost[pairs[k].0]|
  }

  /** The pairs whose overlap passes the threshold, as a map from row to column. */
  function Accepted(pairs: Pairs, cost: Matrix, threshold: real): (m: map<nat, nat>)
    requires InRange(pairs, cost)
    decreases |pairs|
  {
    if pairs == [] then map[]
    else
      var (row, col) := pairs[|pairs| - 1];
      var m := Accepted(pairs[..|pairs| - 1], cost, threshold);
      if 1.0 - cost[row][col] < threshold then m else m[row := col]
  }

  predicate Injective(m: map<nat, nat>) {
    forall i, j :: i in m && j in m && i != j ==> m[i] != m[j]
  }

  /** m sends some of the first `rows` numbers to distinct numbers below `cols`. */
  predicate IsMatching(m: map<nat, nat>, rows: nat, cols: nat) {
    Injective(m) && forall i :: i in m ==> i < rows && m[i] < cols
  }

  /** The accepted pairs are pairs, all over the threshold. */
  lemma {:induction false} AcceptedArePairs(pairs: Pairs, cost: Matrix, threshold: real)
    requires InRange(pairs, cost)
    ensures var m := Accepted(pairs, cost, threshold);
            forall i :: i in m ==>
              (i, m[i]) in pairs && i < |cost| && m[i] < |cost[i]| && 1.0 - cost[i][m[i]] >= threshold
    decreases |pairs|
  {
    if pairs != [] {
      AcceptedArePairs(pairs[..|pairs| - 1], cost, threshold);
    }
  }

  /** No pair over the threshold is passed over. */
  lemma {:induction false} PairIsAccepted(pairs: Pairs, cost: Matrix, threshold: real, k: nat)
    requires InRange(pairs, cost) && k < |pairs| && 1.0 - cost[pairs[k].0][pairs[k].1] >= threshold
    requires forall a, b :: 0 <= a < b < |pairs| ==> pairs[a].0 != pairs[b].0
    ensures var m := Accepted(pairs, cost, threshold); pairs[k].0 in m && m[pairs[k].0] == pairs[k].1
    decreases |pairs|
  {
    var n := |pairs| - 1;
    if k < n {
      PairIsAccepted(pairs[..n], cost, threshold, k);
    }
  }

  lemma {:induction false} AcceptedIsMatching(pairs: Pairs, cost: Matrix, threshold: real, rows: nat, cols: nat)
    requires IsMatrix(cost, rows, cols)
    requires forall k :: 0 <= k < |pairs| ==> pairs[k].0 < rows && pairs[k].1 < cols
    requires forall k, l :: 0 <= k < l < |pairs| ==> pairs[k].0 != pairs[l].0 && pairs[k].1 != pairs[l].1
    ensures InRange(pairs, cost)
    ensures var m := Accepted(pairs, cost, threshold);
            && IsMatching(m, rows, cols)
            && (forall i, j :: i < rows && j < cols ==>
                  (i in m && m[i] == j <==> (i, j) in pairs && 1.0 - cost[i][j] >= threshold))
  {
    var m := Accepted(pairs, cost, threshold);
    AcceptedArePairs(pairs, cost, threshold);
    forall i, j | i < rows && j < cols && (i, j) in pairs && 1.0 - cost[i][j] >= threshold
      ensures i in m && m[i] == j
    {
      var k :| 0 <= k < |pairs| && pairs[k] == (i, j);
      PairIsAccepted(pairs, cost, threshold, k);
    }
    forall i, j | i in m && j in m && i != j ensures m[i] != m[j] {
      var k :| 0 <= k < |pairs| && pairs[k] == (i, m[i]);
      var l :| 0 <= l < |pairs| && pairs[l] == (j, m[j]);
    }
  }

  predicate Overlaps<B>(cfg: Config<B>, t: TrackValue<B>, d: Detection) {
    Iou(cfg.kalman.box(t.belief), d.box) >= cfg.matchIou
  }

  /** Track i is assigned detection j, and they overlap enough. */
  predicate IsMatch<B>(cfg: Config<B>, solver: Solver, tracks: seq<TrackValue<B>>, dets: seq<Detection>, i: nat, j: nat)
  {
    i < |tracks| && j < |dets| && (i, j) in solver(Costs(cfg, tracks, dets)) && Overlaps(cfg, tracks[i], dets[j])
  }

  /** The matching holds every pair that is assigned and overlaps enough, and no other. */
  ghost predicate IsExact<B>(cfg: Config<B>, solver: Solver, tracks: seq<TrackValue<B>>, dets: seq<Detection>,
                       m: map<nat, nat>)
  {
    forall i, j :: (i in m && m[i] == j) <==> IsMatch(cfg, solver, tracks, dets, i, j)
  }

  /** The accepted matches of one association stage. */
  function Stage<B>(cfg: Config<B>, solver: Solver, tracks: seq<TrackValue<B>>, dets: seq<Detection>)
    : (m: map<nat, nat>)
    requires Assigns(solver)
    ensures IsMatching(m, |tracks|, |dets|) && IsExact(cfg, solver, tracks, dets, m)
  {
    if tracks == [] || dets == [] then map[]
    else
      var cost := Costs(cfg, tracks, dets);
      AcceptedIsMatching(solver(cost), cost, cfg.matchIou, |tracks|, |dets|);
      Accepted(solver(cost), cost, cfg.matchIou)
  }

  // ----- what happens to one track -----

  function Advanced<B>(cfg: Config<B>, t: TrackValue<B>): TrackValue<B> {
    t.(belief := cfg.kalman.predict(t.belief))
  }

  function Hit<B>(cfg: Config<B>, t: TrackValue<B>, d: Detection, frame: int): TrackValue<B> {
    t.(belief := cfg.kalman.update(t.belief, d.box), score := d.score, classId := d.classId,
       className := d.className, last := frame, state := Tracked)
  }

  function Missed<B>(cfg: Config<B>, t: TrackValue<B>, frame: int): TrackValue<B> {
    t.(state := if frame - t.last > cfg.trackBuffer then Removed else Lost)
  }

  function Born<B>(cfg: Config<B>, d: Detection, id: nat, frame: int): TrackValue<B> {
    TrackValue(id, cfg.kalman.initiate(d.box), d.score, d.classId, d.className, frame, Tracked)
  }

  // ----- one frame -----

  function IsHigh<B>(cfg: Config<B>): Detection -> bool {
    (d: Detection) => d.score >= cfg.trackThreshold
  }

  function IsLow<B>(cfg: Config<B>): Detection -> bool {
    (d: Detection) => cfg.lowThreshold <= d.score < cfg.trackThreshold
  }

  function HasState<B>(s: TrackState): TrackValue<B> -> bool {
    (t: TrackValue<B>) => t.state == s
  }

  function IsKept<B>(): TrackValue<B> -> bool {
    (t: TrackValue<B>) => t.state != Removed
  }

  /** Both stages: track position to position among the high, or the low, detections. */
  datatype Plan = Plan(first: map<nat, nat>, second: map<nat, nat>)

  predicate IsPlan<B>(plan: Plan, tracks: seq<TrackValue<B>>, high: nat, low: nat) {
    && IsMatching(plan.first, |tracks|, high)
    && IsMatching(plan.second, |tracks|, low)
    && (forall i :: i in plan.second ==> i !in plan.first && tracks[i].state == Tracked)
  }

  /** The positions the first stage left over, by state. The TRACKED ones take part in the
      second stage. */
  function Round<B>(tracks: seq<TrackValue<B>>, first: map<nat, nat>, state: TrackState): (idx: seq<nat>)
    ensures Increasing(idx) && Below(idx, |tracks|)
    ensures forall k :: k in idx <==> 0 <= k < |tracks| && k !in first && tracks[k].state == state
  {
    Positions(|tracks|, (k: nat) => k !in first && k < |tracks| && tracks[k].state == state)
  }

  /** A matching of the second round's list, in terms of the whole list. */
  function Spread(idx: seq<nat>, m: map<nat, nat>): map<nat, nat>
    decreases |idx|
  {
    if idx == [] then map[]
    else
      var k := |idx| - 1;
      var s := Spread(idx[..k], m);
      if k in m then s[idx[k] := m[k]] else s
  }

  lemma {:induction false} SpreadStaysInside(idx: seq<nat>, m: map<nat, nat>, i: nat)
    ensures i in Spread(idx, m) ==> i in idx
    decreases |idx|
  {
    if idx != [] && idx[|idx| - 1] != i {
      SpreadStaysInside(idx[..|idx| - 1], m, i);
    }
  }

  lemma {:induction false} SpreadAt(idx: seq<nat>, m: map<nat, nat>, k: nat)
    requires Increasing(idx) && k < |idx|
    ensures idx[k] in Spread(idx, m) <==> k in m
    ensures k in m ==> Spread(idx, m)[idx[k]] == m[k]
    decreases |idx|
  {
    var init := idx[..|idx| - 1];
    if k == |idx| - 1 {
      SpreadStaysInside(init, m, idx[k]);
    } else {
      SpreadAt(init, m, k);
      assert init[k] == idx[k];
    }
  }

  lemma SpreadIsMatching(idx: seq<nat>, m: map<nat, nat>, n: nat, cols: nat)
    requires Increasing(idx) && Below(idx, n) && IsMatching(m, |idx|, cols)
    ensures IsMatching(Spread(idx, m), n, cols)
  {
    var s := Spread(idx, m);
    forall i | i in s ensures i < n && s[i] < cols {
      var k := PlaceIn(idx, m, i);
    }
    forall i, j | i in s && j in s && i != j ensures s[i] != s[j] {
      var k := PlaceIn(idx, m, i);
      var l := PlaceIn(idx, m, j);
    }
  }

  /** Where a matched position stands in its round. */
  lemma PlaceIn(idx: seq<nat>, m: map<nat, nat>, i: nat) returns (k: nat)
    requires Increasing(idx) && i in Spread(idx, m)
    ensures k < |idx| && idx[k] == i && k in m && Spread(idx, m)[i] == m[k]
  {
    SpreadStaysInside(idx, m, i);
    k :| 0 <= k < |idx| && idx[k] == i;
    SpreadAt(idx, m, k);
  }

  /** The second stage, over its own list. */
  function SecondStageOf<B>(cfg: Config<B>, solver: Solver, tracks: seq<TrackValue<B>>, first: map<nat, nat>,
                            low: seq<Detection>): (m: map<nat, nat>)
    requires Assigns(solver)
    ensures IsMatching(m, |Round(tracks, first, Tracked)|, |low|)
    ensures IsExact(cfg, solver, Select(tracks, Round(tracks, first, Tracked)), low, m)
  {
    Stage(cfg, solver, Select(tracks, Round(tracks, first, Tracked)), low)
  }

  function SecondMatches<B>(cfg: Config<B>, solver: Solver, tracks: seq<TrackValue<B>>, first: map<nat, nat>,
                            low: seq<Detection>): (m: map<nat, nat>)
    requires Assigns(solver)
    ensures IsMatching(m, |tracks|, |low|)
    ensures forall i :: i in m ==> i !in first && tracks[i].state == Tracked
    ensures var idx := Round(tracks, first, Tracked);
            forall k, j :: 0 <= k < |idx| ==>
              (idx[k] in m && m[idx[k]] == j <==> IsMatch(cfg, solver, Select(tracks, idx), low, k, j))
  {
    var idx := Round(tracks, first, Tracked);
    var m := SecondStageOf(cfg, solver, tracks, first, low);
    SpreadIsMatching(idx, m, |tracks|, |low|);
    assert forall i :: i in Spread(idx, m) ==> i in idx by {
      forall i | i in Spread(idx, m) ensures i in idx {
        SpreadStaysInside(idx, m, i);
      }
    }
    assert forall k :: 0 <= k < |idx| ==>
             (idx[k] in Spread(idx, m) <==> k in m) && (k in m ==> Spread(idx, m)[idx[k]] == m[k]) by {
      forall k | 0 <= k < |idx|
        ensures (idx[k] in Spread(idx, m) <==> k in m) && (k in m ==> Spread(idx, m)[idx[k]] == m[k])
      {
        SpreadAt(idx, m, k);
      }
    }
    Spread(idx, m)
  }

  function PlanFor<B>(cfg: Config<B>, solver: Solver, tracks: seq<TrackValue<B>>, high: seq<Detection>,
                      low: seq<Detection>): (plan: Plan)
    requires Assigns(solver)
    ensures IsPlan(plan, tracks, |high|, |low|)
  {
    var first := Stage(cfg, solver, tracks, high);
    Plan(first, SecondMatches(cfg, solver, tracks, first, low))
  }

  /** The positions that match nothing in either stage, in the order the program ages them: those
      that were LOST, then the rest of the second round (m is that round's own matching). */
  function Unmatched<B>(tracks: seq<TrackValue<B>>, first: map<nat, nat>, m: map<nat, nat>): (pos: seq<nat>)
    ensures Below(pos, |tracks|)
  {
    var idx := Round(tracks, first, Tracked);
    Round(tracks, first, Lost) + Select(idx, Rest(|idx|, m.Keys))
  }

  lemma RestOfRound(idx: seq<nat>, m: map<nat, nat>, i: nat)
    requires Increasing(idx)
    ensures i in Select(idx, Rest(|idx|, m.Keys)) <==> i in idx && i !in Spread(idx, m)
  {
    SelectedPositions(idx, Rest(|idx|, m.Keys));
    if i in idx {
      var k :| 0 <= k < |idx| && idx[k] == i;
      SpreadAt(idx, m, k);
      assert k in Rest(|idx|, m.Keys) <==> k !in m;
    }
  }

  lemma DistinctParts(a: seq<nat>, b: seq<nat>)
    requires Increasing(a) && Increasing(b) && forall i :: !(i in a && i in b)
    ensures forall k, l :: 0 <= k < l < |a + b| ==> (a + b)[k] != (a + b)[l]
  {
    forall k, l | 0 <= k < l < |a + b| ensures (a + b)[k] != (a + b)[l] {
      if k < |a| <= l {
        assert (a + b)[k] in a && (a + b)[l] in b;
      }
    }
  }

  lemma UnmatchedAreDistinct<B>(tracks: seq<TrackValue<B>>, first: map<nat, nat>, m: map<nat, nat>)
    ensures var pos := Unmatched(tracks, first, m);
            forall a, b :: 0 <= a < b < |pos| ==> pos[a] != pos[b]
  {
    var (idx, lost) := (Round(tracks, first, Tracked), Round(tracks, first, Lost));
    var left := Select(idx, Rest(|idx|, m.Keys));
    SelectedPositions(idx, Rest(|idx|, m.Keys));
    forall i | i in left ensures i !in lost {
      RestOfRound(idx, m, i);
    }
    DistinctParts(lost, left);
  }

  lemma UnmatchedAreTheRest<B>(tracks: seq<TrackValue<B>>, first: map<nat, nat>, m: map<nat, nat>, i: nat)
    requires i < |tracks| && tracks[i].state != Removed
    ensures i in Unmatched(tracks, first, m) <==> i !in first && i !in Spread(Round(tracks, first, Tracked), m)
  {
    var (idx, lost) := (Round(tracks, first, Tracked), Round(tracks, first, Lost));
    var left := Select(idx, Rest(|idx|, m.Keys));
    assert i in lost + left <==> i in lost || i in left;
    RestOfRound(idx, m, i);
    SpreadStaysInside(idx, m, i);
  }

  /** The detection track i takes, if any. */
  function Taken(plan: Plan, high: seq<Detection>, low: seq<Detection>, i: nat): Option<Detection>
    requires forall k :: k in plan.first ==> plan.first[k] < |high|
    requires forall k :: k in plan.second ==> plan.second[k] < |low|
  {
    if i in plan.first then Some(high[plan.first[i]])
    else if i in plan.second then Some(low[plan.second[i]])
    else None
  }

  /** A track after both stages and before it is aged. */
  function Matched<B>(cfg: Config<B>, t: TrackValue<B>, taken: Option<Detection>, frame: int): TrackValue<B> {
    match taken
    case Some(d) => Hit(cfg, t, d, frame)
    case None => t
  }

  function Settled<B>(cfg: Config<B>, t: TrackValue<B>, taken: Option<Detection>, frame: int): TrackValue<B> {
    match taken
    case Some(d) => Hit(cfg, t, d, frame)
    case None => Missed(cfg, t, frame)
  }

  function Newborns<B>(cfg: Config<B>, dets: seq<Detection>, firstId: nat, frame: int): (ts: seq<TrackValue<B>>)
    ensures |ts| == |dets|
    ensures forall k :: 0 <= k < |dets| ==> ts[k] == Born(cfg, dets[k], firstId + k, frame)
  {
    seq(|dets|, k requires 0 <= k < |dets| => Born(cfg, dets[k], firstId + k, frame))
  }

  function MatchEach<B>(cfg: Config<B>, ps: seq<TrackValue<B>>, high: seq<Detection>, low: seq<Detection>,
                        plan: Plan, frame: int): seq<TrackValue<B>>
    requires IsPlan(plan, ps, |high|, |low|)
  {
    seq(|ps|, i requires 0 <= i < |ps| => Matched(cfg, ps[i], Taken(plan, high, low, i), frame))
  }

  function SettleEach<B>(cfg: Config<B>, ps: seq<TrackValue<B>>, high: seq<Detection>, low: seq<Detection>,
                         plan: Plan, frame: int): (ts: seq<TrackValue<B>>)
    requires IsPlan(plan, ps, |high|, |low|)
    ensures |ts| == |ps|
  {
    seq(|ps|, i requires 0 <= i < |ps| => Settled(cfg, ps[i], Taken(plan, high, low, i), frame))
  }

  /** The list before removal: every old track settled, then the new ones. */
  function Roster<B>(cfg: Config<B>, predicted: seq<TrackValue<B>>, high: seq<Detection>, low: seq<Detection>,
                  plan: Plan, nextId: nat, frame: int): (ts: seq<TrackValue<B>>)
    requires IsPlan(plan, predicted, |high|, |low|)
  {
    SettleEach(cfg, predicted, high, low, plan, frame)
    + Newborns(cfg, Select(high, Rest(|high|, plan.first.Values)), nextId, frame)
  }

  function PredictAll<B>(cfg: Config<B>, tracks: seq<TrackValue<B>>): (ps: seq<TrackValue<B>>)
    ensures |ps| == |tracks|
    ensures forall i :: 0 <= i < |tracks| ==> ps[i] == Advanced(cfg, tracks[i])
  {
    seq(|tracks|, i requires 0 <= i < |tracks| => Advanced(cfg, tracks[i]))
  }

  /** A plan for the predicted tracks and this frame's detections. */
  predicate Fits<B>(cfg: Config<B>, s: State<B>, dets: seq<Detection>, plan: Plan) {
    IsPlan(plan, PredictAll(cfg, s.tracks), |Filter(dets, IsHigh(cfg))|, |Filter(dets, IsLow(cfg))|)
  }

  function RosterOf<B>(cfg: Config<B>, s: State<B>, dets: seq<Detection>, plan: Plan): seq<TrackValue<B>>
    requires Fits(cfg, s, dets, plan)
  {
    Roster(cfg, PredictAll(cfg, s.tracks), Filter(dets, IsHigh(cfg)), Filter(dets, IsLow(cfg)), plan,
           s.nextId, s.frame + 1)
  }

  function Kept<B>(roster: seq<TrackValue<B>>, nextId: nat, frame: nat): State<B> {
    State(Filter(roster, IsKept()), nextId, frame)
  }

  /** ByteTracker.update with a given plan. */
  function UpdateWith<B>(cfg: Config<B>, s: State<B>, dets: seq<Detection>, plan: Plan): State<B>
    requires Fits(cfg, s, dets, plan)
  {
    var roster := RosterOf(cfg, s, dets, plan);
    Kept(roster, s.nextId + |roster| - |s.tracks|, s.frame + 1)
  }

  function ReportOf<B>(cfg: Config<B>, t: TrackValue<B>): Report {
    Report(cfg.cameraId, t.id, cfg.kalman.box(t.belief), t.score, t.classId, t.className)
  }

  /** The plan update makes. */
  function PlanOf<B>(cfg: Config<B>, solver: Solver, s: State<B>, dets: seq<Detection>): (plan: Plan)
    requires Assigns(solver)
    ensures Fits(cfg, s, dets, plan)
  {
    PlanFor(cfg, solver, PredictAll(cfg, s.tracks), Filter(dets, IsHigh(cfg)), Filter(dets, IsLow(cfg)))
  }

  /** ByteTracker.update. */
  function Update<B>(cfg: Config<B>, solver: Solver, s: State<B>, dets: seq<Detection>): State<B>
    requires Assigns(solver)
  {
    UpdateWith(cfg, s, dets, PlanOf(cfg, solver, s, dets))
  }
}
