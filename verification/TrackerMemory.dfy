/** ByteTracker's track list is bounded by what its cameras saw recently. */
module TrackerMemory {
  import opened Lists
  import opened TrackerSpec
  import opened TrackerRuns

  /** A detection of either stage: with low_threshold <= track_threshold, one whose score
      reaches low_threshold. */
  function IsEligible<B>(cfg: Config<B>): Detection -> bool {
    (d: Detection) => d.score >= cfg.trackThreshold || d.score >= cfg.lowThreshold
  }

  /** The eligible detections of the last n frames. */
  function Recent<B>(cfg: Config<B>, frames: seq<seq<Detection>>, n: nat): nat
    decreases |frames|
  {
    if n == 0 || frames == [] then 0
    else Tally(frames[|frames| - 1], IsEligible(cfg)) + Recent(cfg, frames[..|frames| - 1], n - 1)
  }

  function YoungerThan<B>(frame: int, age: int): TrackValue<B> -> bool {
    (t: TrackValue<B>) => frame - t.last < age
  }

  function HitsBelow(plan: Plan, n: nat): set<nat> {
    set k | 0 <= k < n && (k in plan.first || k in plan.second)
  }

  /** A young track was matched in this frame or was already younger in the last one. */
  lemma {:induction false} MissedTracksAge<B>(before: seq<TrackValue<B>>, after: seq<TrackValue<B>>, hits: set<nat>,
                                           frame: int, age: int)
    requires |before| == |after| && forall k <- hits :: k < |after|
    requires forall i :: 0 <= i < |after| && i !in hits ==> after[i].last == before[i].last
    ensures Count(after, YoungerThan(frame, age)) <= |hits| + Count(before, YoungerThan(frame - 1, age - 1))
    decreases |after|
  {
    if after == [] {
      assert hits == {};
    } else {
      MissedTracksAge(before[..|after| - 1], after[..|after| - 1], hits - {|after| - 1}, frame, age);
    }
  }

  /** The matched tracks and the new ones together are at most as many as the detections. */
  lemma PlanIsPaidFor<B>(plan: Plan, ps: seq<TrackValue<B>>, high: nat, low: nat)
    requires IsPlan(plan, ps, high, low)
    ensures |HitsBelow(plan, |ps|)| + |Rest(high, plan.first.Values)| <= high + low
  {
    assert HitsBelow(plan, |ps|) == plan.first.Keys + plan.second.Keys;
    InjectiveMapSize(plan.first);
    InjectiveMapSize(plan.second);
    RestCount(high, plan.first.Values);
    BoundedSetSize(plan.second.Values, low);
  }

  lemma EligibleIsHighPlusLow<B>(cfg: Config<B>, dets: seq<Detection>)
    ensures |Filter(dets, IsHigh(cfg))| + |Filter(dets, IsLow(cfg))| == Tally(dets, IsEligible(cfg))
  {
    FilterIsCounted(dets, IsHigh(cfg));
    FilterIsCounted(dets, IsLow(cfg));
    CountSplits(dets, IsHigh(cfg), IsLow(cfg), IsEligible(cfg));
    TallyIsCount(dets, IsEligible(cfg));
  }

  lemma {:induction false} PredictionKeepsAges<B>(ts: seq<TrackValue<B>>, ps: seq<TrackValue<B>>, frame: int, age: int)
    requires |ts| == |ps| && forall i :: 0 <= i < |ts| ==> ps[i].last == ts[i].last
    ensures Count(ps, YoungerThan(frame, age)) == Count(ts, YoungerThan(frame, age))
    decreases |ts|
  {
    if ts != [] {
      PredictionKeepsAges(ts[..|ts| - 1], ps[..|ps| - 1], frame, age);
    }
  }

  /** The tracks last matched fewer than `age` frames before `frame`. */
  function Young<B>(ts: seq<TrackValue<B>>, frame: int, age: int): nat {
    Tally(ts, YoungerThan(frame, age))
  }

  lemma RosterYoung<B>(cfg: Config<B>, ps: seq<TrackValue<B>>, high: seq<Detection>, low: seq<Detection>, plan: Plan,
                    nextId: nat, frame: int, age: nat)
    requires IsPlan(plan, ps, |high|, |low|) && age > 0
    ensures Young(Roster(cfg, ps, high, low, plan, nextId, frame), frame, age)
            <= |high| + |low| + Young(ps, frame - 1, age - 1)
  {
    var ts := Roster(cfg, ps, high, low, plan, nextId, frame);
    var (survivors, newcomers) := (ts[..|ps|], ts[|ps|..]);
    forall i | 0 <= i < |ps| && i !in HitsBelow(plan, |ps|) ensures survivors[i].last == ps[i].last {
      OldPosition(cfg, ps, high, low, plan, nextId, frame, i);
    }
    MissedTracksAge(ps, survivors, HitsBelow(plan, |ps|), frame, age);
    CountAppends(survivors, newcomers, YoungerThan(frame, age));
    assert ts == survivors + newcomers;
    PlanIsPaidFor(plan, ps, |high|, |low|);
    TallyIsCount(ts, YoungerThan(frame, age));
    TallyIsCount(ps, YoungerThan(frame - 1, age - 1));
  }

  lemma PredictedYoung<B>(cfg: Config<B>, ts: seq<TrackValue<B>>, frame: int, age: int)
    ensures Young(PredictAll(cfg, ts), frame, age) == Young(ts, frame, age)
  {
    PredictionKeepsAges(ts, PredictAll(cfg, ts), frame, age);
    TallyIsCount(ts, YoungerThan(frame, age));
    TallyIsCount(PredictAll(cfg, ts), YoungerThan(frame, age));
  }

  lemma UpdateYoung<B>(cfg: Config<B>, s: State<B>, dets: seq<Detection>, plan: Plan, age: nat)
    requires Fits(cfg, s, dets, plan) && age > 0
    ensures Young(RosterOf(cfg, s, dets, plan), s.frame + 1, age)
            <= Tally(dets, IsEligible(cfg)) + Young(s.tracks, s.frame, age - 1)
  {
    RosterYoung(cfg, PredictAll(cfg, s.tracks), Filter(dets, IsHigh(cfg)), Filter(dets, IsLow(cfg)), plan,
                s.nextId, s.frame + 1, age);
    PredictedYoung(cfg, s.tracks, s.frame, age - 1);
    EligibleIsHighPlusLow(cfg, dets);
  }

  lemma KeptYoung<B>(roster: seq<TrackValue<B>>, nextId: nat, frame: nat, age: int)
    ensures Young(Kept(roster, nextId, frame).tracks, frame, age) <= Young(roster, frame, age)
  {
    CountFiltered(roster, IsKept(), YoungerThan(frame, age));
    TallyIsCount(roster, YoungerThan(frame, age));
    TallyIsCount(Filter(roster, IsKept()), YoungerThan(frame, age));
  }

  function YoungIn<B>(s: State<B>, age: int): nat {
    Young(s.tracks, s.frame, age)
  }

  lemma StepYoung<B>(cfg: Config<B>, solver: Solver, s: State<B>, dets: seq<Detection>, age: nat)
    requires Assigns(solver) && StateOk(cfg, s) && age > 0
    ensures YoungIn(Step(cfg, solver, s, dets), age) <= Tally(dets, IsEligible(cfg)) + YoungIn(s, age - 1)
  {
    var plan := PlanOf(cfg, solver, s, dets);
    var roster := RosterOf(cfg, s, dets, plan);
    UpdateYoung(cfg, s, dets, plan, age);
    KeptYoung(roster, s.nextId + |roster| - |s.tracks|, s.frame + 1, age);
  }

  lemma NoneIsYoungerThanZero<B>(cfg: Config<B>, s: State<B>)
    requires StateOk(cfg, s)
    ensures YoungIn(s, 0) == 0
  {
    forall i | 0 <= i < |s.tracks| ensures s.tracks[i].last <= s.frame {
      assert LifecycleOk(cfg, s.tracks[i], s.frame);
    }
  }

  lemma EveryTrackIsYoung<B>(cfg: Config<B>, s: State<B>, age: nat)
    requires StateOk(cfg, s) && age > 0 && age > cfg.trackBuffer
    ensures YoungIn(s, age) == |s.tracks|
  {
    forall t | t in s.tracks ensures YoungerThan(s.frame, age)(t) {
      var i :| 0 <= i < |s.tracks| && s.tracks[i] == t;
      assert LifecycleOk(cfg, s.tracks[i], s.frame);
    }
    CountAll(s.tracks, YoungerThan(s.frame, age));
    TallyIsCount(s.tracks, YoungerThan(s.frame, age));
  }

  lemma StartYoung<B>(cfg: Config<B>, solver: Solver, age: nat)
    requires Assigns(solver)
    ensures YoungIn(Run(cfg, solver, []), age) == 0
  {
    assert Run(cfg, solver, []).tracks == [];
    TallyIsCount(Run(cfg, solver, []).tracks, YoungerThan(0, age));
  }

  lemma LastFrameYoung<B>(cfg: Config<B>, solver: Solver, frames: seq<seq<Detection>>, age: nat, before: nat)
    requires Assigns(solver) && frames != [] && age > 0
    requires YoungIn(Run(cfg, solver, frames[..|frames| - 1]), age - 1) <= before
    ensures YoungIn(Run(cfg, solver, frames), age) <= Tally(frames[|frames| - 1], IsEligible(cfg)) + before
  {
    StepYoung(cfg, solver, Run(cfg, solver, frames[..|frames| - 1]), frames[|frames| - 1], age);
  }

  lemma {:induction false} RunYoung<B>(cfg: Config<B>, solver: Solver, frames: seq<seq<Detection>>, age: nat,
                                       recent: nat)
    requires Assigns(solver) && recent == Recent(cfg, frames, age)
    ensures YoungIn(Run(cfg, solver, frames), age) <= recent
    decreases |frames|
  {
    if age == 0 {
      NoneIsYoungerThanZero(cfg, Run(cfg, solver, frames));
    } else if frames == [] {
      StartYoung(cfg, solver, age);
    } else {
      var before := Recent(cfg, frames[..|frames| - 1], age - 1);
      RunYoung(cfg, solver, frames[..|frames| - 1], age - 1, before);
      LastFrameYoung(cfg, solver, frames, age, before);
    }
  }

  /** At every point of every run there are at most as many tracks as eligible detections were
      seen in the last track_buffer + 1 frames. */
  lemma TracksAreBounded<B>(cfg: Config<B>, solver: Solver, frames: seq<seq<Detection>>)
    requires Assigns(solver)
    ensures |Run(cfg, solver, frames).tracks|
            <= Recent(cfg, frames, if cfg.trackBuffer < 0 then 1 else cfg.trackBuffer + 1)
  {
    var age: nat := if cfg.trackBuffer < 0 then 1 else cfg.trackBuffer + 1;
    RunYoung(cfg, solver, frames, age, Recent(cfg, frames, age));
    EveryTrackIsYoung(cfg, Run(cfg, solver, frames), age);
  }
}
