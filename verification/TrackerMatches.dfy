/** Which track goes on with which detection: exactly the pairs the solver assigns that overlap
    enough; and with an optimal solver every pair that overlaps more than its rivals. */
module TrackerMatches {
  import opened Options
  import opened Matrices
  import opened Boxes
  import opened Lists
  import opened TrackerSpec
  import opened TrackerRuns
  import opened TrackerReports

  /** What is reported when track t, as it was before the frame, goes on with detection d. */
  function Continued<B>(cfg: Config<B>, t: TrackValue<B>, d: Detection): Report {
    Report(cfg.cameraId, t.id, cfg.kalman.box(cfg.kalman.update(cfg.kalman.predict(t.belief), d.box)),
           d.score, d.classId, d.className)
  }

  predicate ReportsId(rs: seq<Report>, id: nat) {
    exists k :: 0 <= k < |rs| && rs[k].id == id
  }

  lemma TrackedIsReported<B>(cfg: Config<B>, s: State<B>, i: nat)
    requires i < |s.tracks| && s.tracks[i].state == Tracked
    ensures ReportOf(cfg, s.tracks[i]) in Reports(cfg, s)
  {
    var tracked := Satisfying(s.tracks, HasState(Tracked));
    assert i in tracked;
    var k :| 0 <= k < |tracked| && tracked[k] == i;
    assert Reports(cfg, s)[k] == ReportOf(cfg, s.tracks[i]);
  }

  lemma ReportedIsTracked<B>(cfg: Config<B>, s: State<B>, id: nat) returns (i: nat)
    requires ReportsId(Reports(cfg, s), id)
    ensures i < |s.tracks| && s.tracks[i].state == Tracked && s.tracks[i].id == id
  {
    var tracked := Satisfying(s.tracks, HasState(Tracked));
    var k :| 0 <= k < |tracked| && Reports(cfg, s)[k].id == id;
    assert tracked[k] in tracked;
    i := tracked[k];
  }

  lemma RosterIsReported<B>(cfg: Config<B>, s: State<B>, dets: seq<Detection>, plan: Plan, i: nat)
    requires Fits(cfg, s, dets, plan) && i < |RosterOf(cfg, s, dets, plan)|
    requires RosterOf(cfg, s, dets, plan)[i].state == Tracked
    ensures ReportOf(cfg, RosterOf(cfg, s, dets, plan)[i]) in Reports(cfg, UpdateWith(cfg, s, dets, plan))
  {
    var k := FilteredIsThere(RosterOf(cfg, s, dets, plan), IsKept(), i);
    TrackedIsReported(cfg, UpdateWith(cfg, s, dets, plan), k);
  }

  lemma SettledIsContinued<B>(cfg: Config<B>, s: State<B>, dets: seq<Detection>, plan: Plan, i: nat)
    requires Fits(cfg, s, dets, plan) && i < |s.tracks|
    ensures i < |RosterOf(cfg, s, dets, plan)|
    ensures var (t, taken) := (RosterOf(cfg, s, dets, plan)[i],
                               Taken(plan, Filter(dets, IsHigh(cfg)), Filter(dets, IsLow(cfg)), i));
            && t.id == s.tracks[i].id && (t.state == Tracked <==> taken.Some?)
            && (taken.Some? ==> ReportOf(cfg, t) == Continued(cfg, s.tracks[i], taken.value))
  {
  }

  /** A track that takes a detection is reported with its own id, the filter's correction of its
      prediction by that detection's box, and that detection's score and class. */
  lemma TakenIsReported<B>(cfg: Config<B>, s: State<B>, dets: seq<Detection>, plan: Plan, i: nat)
    requires Fits(cfg, s, dets, plan) && i < |s.tracks|
    requires Taken(plan, Filter(dets, IsHigh(cfg)), Filter(dets, IsLow(cfg)), i).Some?
    ensures var d := Taken(plan, Filter(dets, IsHigh(cfg)), Filter(dets, IsLow(cfg)), i).value;
            Continued(cfg, s.tracks[i], d) in Reports(cfg, UpdateWith(cfg, s, dets, plan))
  {
    SettledIsContinued(cfg, s, dets, plan, i);
    RosterIsReported(cfg, s, dets, plan, i);
  }

  /** And any other old track is not. */
  lemma NotTakenIsSilent<B>(cfg: Config<B>, s: State<B>, dets: seq<Detection>, plan: Plan, i: nat)
    requires StateOk(cfg, s) && Fits(cfg, s, dets, plan) && i < |s.tracks|
    requires Taken(plan, Filter(dets, IsHigh(cfg)), Filter(dets, IsLow(cfg)), i).None?
    ensures !ReportsId(Reports(cfg, UpdateWith(cfg, s, dets, plan)), s.tracks[i].id)
  {
    var (after, roster) := (UpdateWith(cfg, s, dets, plan), RosterOf(cfg, s, dets, plan));
    if ReportsId(Reports(cfg, after), s.tracks[i].id) {
      var k := ReportedIsTracked(cfg, after, s.tracks[i].id);
      var j := Satisfying(roster, IsKept())[k];
      SettledIsContinued(cfg, s, dets, plan, i);
      RosterIdIsUnique(cfg, s, dets, plan, i, j);
      assert false;
    }
  }

  // ----- which pairs go on -----

  function High<B>(cfg: Config<B>, dets: seq<Detection>): seq<Detection> {
    Filter(dets, IsHigh(cfg))
  }

  function Low<B>(cfg: Config<B>, dets: seq<Detection>): seq<Detection> {
    Filter(dets, IsLow(cfg))
  }

  /** The solver assigns high detection j to track i, predicted, and they overlap enough. */
  predicate HighPair<B>(cfg: Config<B>, solver: Solver, s: State<B>, dets: seq<Detection>, i: nat, j: nat) {
    IsMatch(cfg, solver, PredictAll(cfg, s.tracks), High(cfg, dets), i, j)
  }

  ghost predicate HasHighPair<B>(cfg: Config<B>, solver: Solver, s: State<B>, dets: seq<Detection>, i: nat) {
    exists j :: HighPair(cfg, solver, s, dets, i, j)
  }

  /** Track i is left for the second stage: TRACKED and without a high detection. */
  ghost predicate IsSecond<B>(cfg: Config<B>, solver: Solver, s: State<B>, dets: seq<Detection>, i: nat) {
    i < |s.tracks| && s.tracks[i].state == Tracked && !HasHighPair(cfg, solver, s, dets, i)
  }

  /** All of them, in order. */
  ghost predicate AreSeconds<B>(cfg: Config<B>, solver: Solver, s: State<B>, dets: seq<Detection>, idx: seq<nat>) {
    && Increasing(idx) && Below(idx, |s.tracks|)
    && forall i: nat :: i in idx <==> IsSecond(cfg, solver, s, dets, i)
  }

  /** In the second stage the solver assigns low detection j to the k-th track left. */
  predicate LowPair<B>(cfg: Config<B>, solver: Solver, s: State<B>, dets: seq<Detection>, idx: seq<nat>, k: nat, j: nat)
    requires Below(idx, |s.tracks|)
  {
    IsMatch(cfg, solver, Select(PredictAll(cfg, s.tracks), idx), Low(cfg, dets), k, j)
  }

  lemma FirstIsHighPairs<B>(cfg: Config<B>, solver: Solver, s: State<B>, dets: seq<Detection>, i: nat)
    requires Assigns(solver) && i < |s.tracks|
    ensures var first := PlanOf(cfg, solver, s, dets).first;
            (forall j :: i in first && first[i] == j <==> HighPair(cfg, solver, s, dets, i, j))
            && (i in first <==> HasHighPair(cfg, solver, s, dets, i))
  {
    var first := PlanOf(cfg, solver, s, dets).first;
    if i in first {
      assert HighPair(cfg, solver, s, dets, i, first[i]);
    }
  }

  lemma RoundIsSecond<B>(cfg: Config<B>, solver: Solver, s: State<B>, dets: seq<Detection>, i: nat)
    requires Assigns(solver)
    ensures i in Round(PredictAll(cfg, s.tracks), PlanOf(cfg, solver, s, dets).first, Tracked)
            <==> IsSecond(cfg, solver, s, dets, i)
  {
    if i < |s.tracks| {
      FirstIsHighPairs(cfg, solver, s, dets, i);
    }
  }

  lemma RoundIsSeconds<B>(cfg: Config<B>, solver: Solver, s: State<B>, dets: seq<Detection>, idx: seq<nat>)
    requires Assigns(solver) && AreSeconds(cfg, solver, s, dets, idx)
    ensures idx == Round(PredictAll(cfg, s.tracks), PlanOf(cfg, solver, s, dets).first, Tracked)
  {
    var round := Round(PredictAll(cfg, s.tracks), PlanOf(cfg, solver, s, dets).first, Tracked);
    forall i: nat ensures i in idx <==> i in round {
      RoundIsSecond(cfg, solver, s, dets, i);
    }
    IncreasingIsUnique(idx, round);
  }

  /** A track keeps its id with every high detection it is assigned and overlaps enough. */
  lemma HighPairIsReported<B>(cfg: Config<B>, solver: Solver, s: State<B>, dets: seq<Detection>, i: nat, j: nat)
    requires Assigns(solver) && HighPair(cfg, solver, s, dets, i, j)
    ensures Continued(cfg, s.tracks[i], High(cfg, dets)[j]) in Reports(cfg, Update(cfg, solver, s, dets))
  {
    FirstIsHighPairs(cfg, solver, s, dets, i);
    TakenIsReported(cfg, s, dets, PlanOf(cfg, solver, s, dets), i);
  }

  lemma SecondIsLowPairs<B>(cfg: Config<B>, solver: Solver, s: State<B>, dets: seq<Detection>, idx: seq<nat>, k: nat,
                            j: nat)
    requires Assigns(solver) && AreSeconds(cfg, solver, s, dets, idx) && k < |idx|
    ensures var second := PlanOf(cfg, solver, s, dets).second;
            idx[k] in second && second[idx[k]] == j <==> LowPair(cfg, solver, s, dets, idx, k, j)
  {
    RoundIsSeconds(cfg, solver, s, dets, idx);
  }

  /** A TRACKED track without a high detection keeps its id with a low one: the second stage. */
  lemma LowPairIsReported<B>(cfg: Config<B>, solver: Solver, s: State<B>, dets: seq<Detection>, idx: seq<nat>, k: nat,
                             j: nat)
    requires Assigns(solver) && AreSeconds(cfg, solver, s, dets, idx) && LowPair(cfg, solver, s, dets, idx, k, j)
    ensures Continued(cfg, s.tracks[idx[k]], Low(cfg, dets)[j]) in Reports(cfg, Update(cfg, solver, s, dets))
  {
    SecondIsLowPairs(cfg, solver, s, dets, idx, k, j);
    TakenIsReported(cfg, s, dets, PlanOf(cfg, solver, s, dets), idx[k]);
  }

  ghost predicate HasLowPair<B>(cfg: Config<B>, solver: Solver, s: State<B>, dets: seq<Detection>, idx: seq<nat>,
                                i: nat)
    requires Below(idx, |s.tracks|)
  {
    exists k, j :: 0 <= k < |idx| && idx[k] == i && LowPair(cfg, solver, s, dets, idx, k, j)
  }

  lemma SecondHasPlace<B>(cfg: Config<B>, solver: Solver, s: State<B>, dets: seq<Detection>, idx: seq<nat>, i: nat)
    requires Assigns(solver) && AreSeconds(cfg, solver, s, dets, idx) && i in PlanOf(cfg, solver, s, dets).second
    ensures HasLowPair(cfg, solver, s, dets, idx, i)
  {
    var second := PlanOf(cfg, solver, s, dets).second;
    RoundIsSeconds(cfg, solver, s, dets, idx);
    assert i in idx;
    var k :| 0 <= k < |idx| && idx[k] == i;
    SecondIsLowPairs(cfg, solver, s, dets, idx, k, second[i]);
  }

  lemma OnlySecondsHaveLowPairs<B>(cfg: Config<B>, solver: Solver, s: State<B>, dets: seq<Detection>, idx: seq<nat>,
                                   i: nat)
    requires Assigns(solver) && AreSeconds(cfg, solver, s, dets, idx)
    ensures HasLowPair(cfg, solver, s, dets, idx, i) ==> i in PlanOf(cfg, solver, s, dets).second
  {
    forall k, j | 0 <= k < |idx| && idx[k] == i && LowPair(cfg, solver, s, dets, idx, k, j)
      ensures i in PlanOf(cfg, solver, s, dets).second
    {
      SecondIsLowPairs(cfg, solver, s, dets, idx, k, j);
    }
  }

  /** An old id is reported exactly when its track has such a pair. */
  lemma OldIdIsReportedExactly<B>(cfg: Config<B>, solver: Solver, s: State<B>, dets: seq<Detection>, idx: seq<nat>,
                                  i: nat)
    requires Assigns(solver) && StateOk(cfg, s) && AreSeconds(cfg, solver, s, dets, idx) && i < |s.tracks|
    ensures ReportsId(Reports(cfg, Update(cfg, solver, s, dets)), s.tracks[i].id)
            <==> HasHighPair(cfg, solver, s, dets, i) || HasLowPair(cfg, solver, s, dets, idx, i)
  {
    var plan := PlanOf(cfg, solver, s, dets);
    FirstIsHighPairs(cfg, solver, s, dets, i);
    RoundIsSeconds(cfg, solver, s, dets, idx);
    if i in plan.first || i in plan.second {
      TakenIsReported(cfg, s, dets, plan, i);
      if i in plan.second {
        SecondHasPlace(cfg, solver, s, dets, idx, i);
      }
    } else {
      NotTakenIsSilent(cfg, s, dets, plan, i);
      OnlySecondsHaveLowPairs(cfg, solver, s, dets, idx, i);
    }
  }

  // ----- new tracks -----

  function Fresh<B>(cfg: Config<B>, d: Detection, id: nat): Report {
    Report(cfg.cameraId, id, cfg.kalman.box(cfg.kalman.initiate(d.box)), d.score, d.classId, d.className)
  }

  lemma NewIsFresh<B>(cfg: Config<B>, ps: seq<TrackValue<B>>, high: seq<Detection>, low: seq<Detection>, plan: Plan,
                      nextId: nat, frame: int, k: nat)
    requires IsPlan(plan, ps, |high|, |low|) && k < |Rest(|high|, plan.first.Values)|
    ensures var (i, ts) := (|ps| + k, Roster(cfg, ps, high, low, plan, nextId, frame));
            && i < |ts| && ts[i].state == Tracked
            && ReportOf(cfg, ts[i]) == Fresh(cfg, high[Rest(|high|, plan.first.Values)[k]], nextId + k)
  {
    NewPosition(cfg, ps, high, low, plan, nextId, frame, |ps| + k);
  }

  predicate AreUnclaimed<B>(cfg: Config<B>, dets: seq<Detection>, plan: Plan, high: seq<Detection>, rest: seq<nat>) {
    high == High(cfg, dets) && rest == Rest(|high|, plan.first.Values)
  }

  lemma UnclaimedIsInRoster<B>(cfg: Config<B>, s: State<B>, dets: seq<Detection>, plan: Plan, high: seq<Detection>,
                               rest: seq<nat>, k: nat)
    requires Fits(cfg, s, dets, plan) && AreUnclaimed(cfg, dets, plan, high, rest) && k < |rest|
    ensures |s.tracks| + k < |RosterOf(cfg, s, dets, plan)|
    ensures var t := RosterOf(cfg, s, dets, plan)[|s.tracks| + k];
            t.state == Tracked && ReportOf(cfg, t) == Fresh(cfg, high[rest[k]], s.nextId + k)
  {
    NewIsFresh(cfg, PredictAll(cfg, s.tracks), high, Low(cfg, dets), plan, s.nextId, s.frame + 1, k);
  }

  /** The high detections that no track goes on with are reported under new ids, in order. */
  lemma UnclaimedIsReported<B>(cfg: Config<B>, s: State<B>, dets: seq<Detection>, plan: Plan, high: seq<Detection>,
                               rest: seq<nat>, k: nat)
    requires Fits(cfg, s, dets, plan) && AreUnclaimed(cfg, dets, plan, high, rest) && k < |rest|
    ensures Fresh(cfg, high[rest[k]], s.nextId + k) in Reports(cfg, UpdateWith(cfg, s, dets, plan))
  {
    UnclaimedIsInRoster(cfg, s, dets, plan, high, rest, k);
    RosterIsReported(cfg, s, dets, plan, |s.tracks| + k);
  }

  // ----- one track and one detection -----

  lemma FilterOfOne<T>(x: T, p: T -> bool)
    ensures Filter([x], p) == if p(x) then [x] else []
  {
    IncreasingIsUnique(Satisfying([x], p), if p(x) then [0] else []);
  }

  lemma OnlyPair(pairs: Pairs)
    requires IsAssignment(pairs, 1, 1)
    ensures forall i, j :: (i, j) in pairs <==> i == 0 && j == 0
  {
    assert pairs[0] == (0, 0);
  }

  /** Between one track and one detection every solver assigns the one pair there is. */
  lemma LonePair<B>(cfg: Config<B>, solver: Solver, t: TrackValue<B>, d: Detection)
    requires Assigns(solver)
    ensures forall i, j :: IsMatch(cfg, solver, [t], [d], i, j) <==> i == 0 && j == 0 && Overlaps(cfg, t, d)
  {
    OnlyPair(solver(Costs(cfg, [t], [d])));
  }

  lemma AtMostOneReport<B>(cfg: Config<B>, s: State<B>, d: Detection, plan: Plan)
    requires StateOk(cfg, s) && Fits(cfg, s, [d], plan)
    ensures |Reports(cfg, UpdateWith(cfg, s, [d], plan))| <= 1
  {
    var own := ReportsAreBacked(cfg, s, [d], plan);
    if |own| > 1 {
      BothAreFirst(own);
    }
  }

  lemma BothAreFirst(own: seq<nat>)
    requires |own| > 1 && Below(own, 1)
    ensures own[0] == own[1]
  {
  }

  lemma OnlyReport<T>(xs: seq<T>, x: T)
    requires |xs| <= 1 && x in xs
    ensures xs == [x]
  {
  }

  lemma NobodyClaims(first: map<nat, nat>)
    requires first == map[]
    ensures Rest(1, first.Values) == [0]
  {
    assert first.Values == {};
    IncreasingIsUnique(Rest(1, first.Values), [0]);
  }

  lemma LoneHighPair<B>(cfg: Config<B>, solver: Solver, s: State<B>, d: Detection)
    requires Assigns(solver) && |s.tracks| == 1 && High(cfg, [d]) == [d]
    ensures forall i, j :: HighPair(cfg, solver, s, [d], i, j)
                           <==> i == 0 && j == 0 && Overlaps(cfg, Advanced(cfg, s.tracks[0]), d)
  {
    assert PredictAll(cfg, s.tracks) == [Advanced(cfg, s.tracks[0])];
    LonePair(cfg, solver, Advanced(cfg, s.tracks[0]), d);
  }

  lemma AloneIsUnclaimed<B>(cfg: Config<B>, dets: seq<Detection>, plan: Plan, high: seq<Detection>, rest: seq<nat>)
    requires High(cfg, dets) == high && |high| == 1 && rest == [0] && plan.first == map[]
    ensures AreUnclaimed(cfg, dets, plan, high, rest)
  {
    NobodyClaims(plan.first);
  }

  lemma OnlyUnclaimed<B>(cfg: Config<B>, s: State<B>, dets: seq<Detection>, plan: Plan, d: Detection)
    requires Fits(cfg, s, dets, plan) && High(cfg, dets) == [d] && plan.first == map[]
    ensures Fresh(cfg, d, s.nextId) in Reports(cfg, UpdateWith(cfg, s, dets, plan))
  {
    var high, rest :| high == [d] && rest == [0];
    AloneIsUnclaimed(cfg, dets, plan, high, rest);
    UnclaimedIsReported(cfg, s, dets, plan, high, rest, 0);
  }

  /** When the prediction misses it, the detection gets a new id. */
  lemma LoneHighIsFresh<B>(cfg: Config<B>, solver: Solver, s: State<B>, d: Detection)
    requires Assigns(solver) && |s.tracks| == 1 && High(cfg, [d]) == [d]
    requires !Overlaps(cfg, Advanced(cfg, s.tracks[0]), d)
    ensures Fresh(cfg, d, s.nextId) in Reports(cfg, Update(cfg, solver, s, [d]))
  {
    LoneHighPair(cfg, solver, s, d);
    FirstIsHighPairs(cfg, solver, s, [d], 0);
    assert PlanOf(cfg, solver, s, [d]).first == map[];
    OnlyUnclaimed(cfg, s, [d], PlanOf(cfg, solver, s, [d]), d);
  }

  /** With one track and one high detection, whatever the solver: the old id is reported, corrected by
      the detection, if the prediction overlaps it enough; if not, the detection gets a new id. */
  lemma LoneHighDetection<B>(cfg: Config<B>, solver: Solver, s: State<B>, d: Detection)
    requires Assigns(solver) && StateOk(cfg, s) && |s.tracks| == 1 && d.score >= cfg.trackThreshold
    ensures Reports(cfg, Update(cfg, solver, s, [d]))
            == if Overlaps(cfg, Advanced(cfg, s.tracks[0]), d) then [Continued(cfg, s.tracks[0], d)]
               else [Fresh(cfg, d, s.nextId)]
  {
    FilterOfOne(d, IsHigh(cfg));
    AtMostOneReport(cfg, s, d, PlanOf(cfg, solver, s, [d]));
    if Overlaps(cfg, Advanced(cfg, s.tracks[0]), d) {
      LoneHighPair(cfg, solver, s, d);
      HighPairIsReported(cfg, solver, s, [d], 0, 0);
      OnlyReport(Reports(cfg, Update(cfg, solver, s, [d])), Continued(cfg, s.tracks[0], d));
    } else {
      LoneHighIsFresh(cfg, solver, s, d);
      OnlyReport(Reports(cfg, Update(cfg, solver, s, [d])), Fresh(cfg, d, s.nextId));
    }
  }

  /** Without high detections only tracks that take one are reported. */
  lemma NothingTakenNothingReported<B>(cfg: Config<B>, s: State<B>, dets: seq<Detection>, plan: Plan)
    requires Fits(cfg, s, dets, plan) && High(cfg, dets) == []
    requires forall i :: 0 <= i < |s.tracks| ==> i !in plan.second
    ensures Reports(cfg, UpdateWith(cfg, s, dets, plan)) == []
  {
    var (after, roster) := (UpdateWith(cfg, s, dets, plan), RosterOf(cfg, s, dets, plan));
    var rs := Reports(cfg, after);
    if rs != [] {
      assert ReportsId(rs, rs[0].id);
      var k := ReportedIsTracked(cfg, after, rs[0].id);
      SettledIsContinued(cfg, s, dets, plan, Satisfying(roster, IsKept())[k]);
      assert false;
    }
  }

  lemma LoneSecond<B>(cfg: Config<B>, solver: Solver, s: State<B>, d: Detection)
    requires Assigns(solver) && |s.tracks| == 1 && s.tracks[0].state == Tracked
    requires High(cfg, [d]) == [] && Low(cfg, [d]) == [d]
    ensures AreSeconds(cfg, solver, s, [d], [0])
    ensures forall k, j :: LowPair(cfg, solver, s, [d], [0], k, j)
                           <==> k == 0 && j == 0 && Overlaps(cfg, Advanced(cfg, s.tracks[0]), d)
  {
    assert !HasHighPair(cfg, solver, s, [d], 0);
    assert IsSecond(cfg, solver, s, [d], 0);
    assert Select(PredictAll(cfg, s.tracks), [0]) == [Advanced(cfg, s.tracks[0])];
    LonePair(cfg, solver, Advanced(cfg, s.tracks[0]), d);
  }

  /** With one track and one low detection: the old id is reported if the track was TRACKED and the
      prediction overlaps the detection enough, and nothing otherwise. */
  lemma LoneLowDetection<B>(cfg: Config<B>, solver: Solver, s: State<B>, d: Detection)
    requires Assigns(solver) && StateOk(cfg, s) && |s.tracks| == 1
    requires cfg.lowThreshold <= d.score < cfg.trackThreshold
    ensures Reports(cfg, Update(cfg, solver, s, [d]))
            == if s.tracks[0].state == Tracked && Overlaps(cfg, Advanced(cfg, s.tracks[0]), d) then
                 [Continued(cfg, s.tracks[0], d)]
               else []
  {
    var plan := PlanOf(cfg, solver, s, [d]);
    FilterOfOne(d, IsHigh(cfg));
    FilterOfOne(d, IsLow(cfg));
    AtMostOneReport(cfg, s, d, plan);
    if s.tracks[0].state == Tracked && Overlaps(cfg, Advanced(cfg, s.tracks[0]), d) {
      LoneSecond(cfg, solver, s, d);
      LowPairIsReported(cfg, solver, s, [d], [0], 0, 0);
      OnlyReport(Reports(cfg, Update(cfg, solver, s, [d])), Continued(cfg, s.tracks[0], d));
    } else {
      if s.tracks[0].state == Tracked {
        LoneSecond(cfg, solver, s, d);
        if 0 in plan.second {
          SecondHasPlace(cfg, solver, s, [d], [0], 0);
          assert false;
        }
      }
      NothingTakenNothingReported(cfg, s, [d], plan);
    }
  }
}
