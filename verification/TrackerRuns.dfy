/** What ByteTracker guarantees after every frame and over every run, for any assignment. */
module TrackerRuns {
  import opened Options
  import opened Lists
  import opened TrackerSpec

  predicate IdsIncrease<B>(ts: seq<TrackValue<B>>, nextId: nat) {
    && (forall i, j :: 0 <= i < j < |ts| ==> ts[i].id < ts[j].id)
    && (forall i :: 0 <= i < |ts| ==> ts[i].id < nextId)
  }

  /** TRACKED means matched this very frame; LOST means missed for at most track_buffer frames. */
  predicate LifecycleOk<B>(cfg: Config<B>, t: TrackValue<B>, frame: int) {
    && t.last <= frame
    && (t.state == Tracked <==> t.last == frame)
    && t.state != Removed
    && (t.state == Lost ==> 1 <= frame - t.last <= cfg.trackBuffer)
  }

  predicate StateOk<B>(cfg: Config<B>, s: State<B>) {
    && IdsIncrease(s.tracks, s.nextId)
    && (forall i :: 0 <= i < |s.tracks| ==> LifecycleOk(cfg, s.tracks[i], s.frame))
  }

  /** Position i of the roster, in terms of the predicted track at i. */
  lemma OldPosition<B>(cfg: Config<B>, ps: seq<TrackValue<B>>, high: seq<Detection>, low: seq<Detection>, plan: Plan,
                    nextId: nat, frame: int, i: nat)
    requires IsPlan(plan, ps, |high|, |low|) && i < |ps|
    ensures var t := Roster(cfg, ps, high, low, plan, nextId, frame)[i];
            && t.id == ps[i].id
            && if i in plan.first || i in plan.second then t.state == Tracked && t.last == frame
               else t == Missed(cfg, ps[i], frame)
  {
  }

  /** The roster ends with one new track for each high detection the first stage left over. */
  lemma NewPosition<B>(cfg: Config<B>, ps: seq<TrackValue<B>>, high: seq<Detection>, low: seq<Detection>, plan: Plan,
                    nextId: nat, frame: int, i: nat)
    requires IsPlan(plan, ps, |high|, |low|)
    requires |ps| <= i < |Roster(cfg, ps, high, low, plan, nextId, frame)|
    ensures var k := i - |ps|;
            && k < |Rest(|high|, plan.first.Values)|
            && Roster(cfg, ps, high, low, plan, nextId, frame)[i]
               == Born(cfg, high[Rest(|high|, plan.first.Values)[k]], nextId + k, frame)
  {
  }

  lemma RosterPosition<B>(cfg: Config<B>, s: State<B>, ps: seq<TrackValue<B>>, high: seq<Detection>,
                          low: seq<Detection>, plan: Plan, i: nat)
    requires StateOk(cfg, s) && ps == PredictAll(cfg, s.tracks) && IsPlan(plan, ps, |high|, |low|)
    requires i < |Roster(cfg, ps, high, low, plan, s.nextId, s.frame + 1)|
    ensures var t := Roster(cfg, ps, high, low, plan, s.nextId, s.frame + 1)[i];
            && (t.state != Removed ==> LifecycleOk(cfg, t, s.frame + 1))
            && t.id == if i < |s.tracks| then s.tracks[i].id else s.nextId + i - |s.tracks|
  {
    if i < |ps| {
      assert LifecycleOk(cfg, s.tracks[i], s.frame);
      OldPosition(cfg, ps, high, low, plan, s.nextId, s.frame + 1, i);
    } else {
      NewPosition(cfg, ps, high, low, plan, s.nextId, s.frame + 1, i);
    }
  }

  lemma RosterIsOk<B>(cfg: Config<B>, s: State<B>, ps: seq<TrackValue<B>>, high: seq<Detection>, low: seq<Detection>,
                      plan: Plan)
    requires StateOk(cfg, s) && ps == PredictAll(cfg, s.tracks) && IsPlan(plan, ps, |high|, |low|)
    ensures var ts := Roster(cfg, ps, high, low, plan, s.nextId, s.frame + 1);
            && |s.tracks| <= |ts|
            && IdsIncrease(ts, s.nextId + |ts| - |s.tracks|)
            && (forall i :: 0 <= i < |ts| && ts[i].state != Removed ==> LifecycleOk(cfg, ts[i], s.frame + 1))
  {
    var ts := Roster(cfg, ps, high, low, plan, s.nextId, s.frame + 1);
    forall i | 0 <= i < |ts|
      ensures (ts[i].state != Removed ==> LifecycleOk(cfg, ts[i], s.frame + 1))
      ensures ts[i].id == if i < |s.tracks| then s.tracks[i].id else s.nextId + i - |s.tracks|
    {
      RosterPosition(cfg, s, ps, high, low, plan, i);
    }
  }

  lemma FilteringKeepsIds<B>(ts: seq<TrackValue<B>>, nextId: nat, p: TrackValue<B> -> bool)
    requires IdsIncrease(ts, nextId)
    ensures IdsIncrease(Filter(ts, p), nextId)
  {
  }

  lemma KeptIsOk<B>(cfg: Config<B>, ts: seq<TrackValue<B>>, nextId: nat, frame: nat)
    requires IdsIncrease(ts, nextId)
    requires forall i :: 0 <= i < |ts| && ts[i].state != Removed ==> LifecycleOk(cfg, ts[i], frame)
    ensures StateOk(cfg, Kept(ts, nextId, frame))
  {
    FilteringKeepsIds(ts, nextId, IsKept());
  }

  lemma RosterOfIsOk<B>(cfg: Config<B>, s: State<B>, dets: seq<Detection>, plan: Plan)
    requires StateOk(cfg, s) && Fits(cfg, s, dets, plan)
    ensures var ts := RosterOf(cfg, s, dets, plan);
            && |s.tracks| <= |ts|
            && IdsIncrease(ts, s.nextId + |ts| - |s.tracks|)
            && (forall i :: 0 <= i < |ts| && ts[i].state != Removed ==> LifecycleOk(cfg, ts[i], s.frame + 1))
  {
    RosterIsOk(cfg, s, PredictAll(cfg, s.tracks), Filter(dets, IsHigh(cfg)), Filter(dets, IsLow(cfg)), plan);
  }

  /** After every update ids are strictly increasing and below the next id, a track is TRACKED
      exactly when it was matched in this frame, every LOST one has 1 <= age <= track_buffer,
      and none is REMOVED. */
  lemma UpdateKeepsStateOk<B>(cfg: Config<B>, s: State<B>, dets: seq<Detection>, plan: Plan)
    requires StateOk(cfg, s) && Fits(cfg, s, dets, plan)
    ensures StateOk(cfg, UpdateWith(cfg, s, dets, plan))
  {
    RosterOfIsOk(cfg, s, dets, plan);
    var ts := RosterOf(cfg, s, dets, plan);
    KeptIsOk(cfg, ts, s.nextId + |ts| - |s.tracks|, s.frame + 1);
  }

  // ----- runs -----

  /** The tracker after a sequence of frames. */
  function Run<B>(cfg: Config<B>, solver: Solver, frames: seq<seq<Detection>>): (s: State<B>)
    requires Assigns(solver)
    ensures StateOk(cfg, s) && s.frame == |frames|
    decreases |frames|
  {
    if frames == [] then State([], 1, 0)
    else
      var before := Run(cfg, solver, frames[..|frames| - 1]);
      Step(cfg, solver, before, frames[|frames| - 1])
  }

  function Step<B>(cfg: Config<B>, solver: Solver, s: State<B>, dets: seq<Detection>): (t: State<B>)
    requires Assigns(solver) && StateOk(cfg, s)
    ensures StateOk(cfg, t) && t.frame == s.frame + 1
  {
    UpdateKeepsStateOk(cfg, s, dets, PlanOf(cfg, solver, s, dets));
    Update(cfg, solver, s, dets)
  }

  predicate Holds<B>(s: State<B>, id: nat) {
    exists i :: 0 <= i < |s.tracks| && s.tracks[i].id == id
  }

  lemma OnlyNewIdsAppear<B>(cfg: Config<B>, s: State<B>, dets: seq<Detection>, plan: Plan, id: nat)
    requires StateOk(cfg, s) && Fits(cfg, s, dets, plan)
    ensures s.nextId <= UpdateWith(cfg, s, dets, plan).nextId
    ensures Holds(UpdateWith(cfg, s, dets, plan), id) && id < s.nextId ==> Holds(s, id)
  {
    var (ps, high, low) := (PredictAll(cfg, s.tracks), Filter(dets, IsHigh(cfg)), Filter(dets, IsLow(cfg)));
    var after := UpdateWith(cfg, s, dets, plan);
    var ts := RosterOf(cfg, s, dets, plan);
    if Holds(after, id) && id < s.nextId {
      var k :| 0 <= k < |after.tracks| && after.tracks[k].id == id;
      var i := Satisfying(ts, IsKept())[k];
      assert ts[i].id == id;
      RosterPosition(cfg, s, ps, high, low, plan, i);
      assert i < |s.tracks| && s.tracks[i].id == id;
    }
  }

  lemma RosterIdIsUnique<B>(cfg: Config<B>, s: State<B>, dets: seq<Detection>, plan: Plan, i: nat, j: nat)
    requires StateOk(cfg, s) && Fits(cfg, s, dets, plan) && i < |s.tracks| && j < |RosterOf(cfg, s, dets, plan)|
    requires RosterOf(cfg, s, dets, plan)[j].id == s.tracks[i].id
    ensures i == j
  {
    RosterPosition(cfg, s, PredictAll(cfg, s.tracks), Filter(dets, IsHigh(cfg)), Filter(dets, IsLow(cfg)), plan, j);
  }

  /** What becomes of track i in the roster. */
  lemma KeptOrTooOld<B>(cfg: Config<B>, s: State<B>, dets: seq<Detection>, plan: Plan, i: nat)
    requires StateOk(cfg, s) && Fits(cfg, s, dets, plan) && i < |s.tracks|
    ensures i < |RosterOf(cfg, s, dets, plan)|
    ensures var t := RosterOf(cfg, s, dets, plan)[i];
            && t.id == s.tracks[i].id
            && (t.state != Removed <==>
                  i in plan.first || i in plan.second || s.frame + 1 - s.tracks[i].last <= cfg.trackBuffer)
  {
    OldPosition(cfg, PredictAll(cfg, s.tracks), Filter(dets, IsHigh(cfg)), Filter(dets, IsLow(cfg)), plan, s.nextId,
                s.frame + 1, i);
  }

  lemma FilteredIsThere<T>(xs: seq<T>, p: T -> bool, i: nat) returns (k: nat)
    requires i < |xs| && p(xs[i])
    ensures k < |Filter(xs, p)| && Filter(xs, p)[k] == xs[i]
  {
    k :| 0 <= k < |Satisfying(xs, p)| && Satisfying(xs, p)[k] == i;
  }

  /** A track leaves the list exactly when it took no detection and is older than track_buffer. */
  lemma OnlyOldTracksLeave<B>(cfg: Config<B>, s: State<B>, dets: seq<Detection>, plan: Plan, i: nat)
    requires StateOk(cfg, s) && Fits(cfg, s, dets, plan) && i < |s.tracks|
    ensures Holds(UpdateWith(cfg, s, dets, plan), s.tracks[i].id) <==>
              i in plan.first || i in plan.second || s.frame + 1 - s.tracks[i].last <= cfg.trackBuffer
  {
    var (after, roster) := (UpdateWith(cfg, s, dets, plan), RosterOf(cfg, s, dets, plan));
    KeptOrTooOld(cfg, s, dets, plan, i);
    if IsKept()(roster[i]) {
      var k := FilteredIsThere(roster, IsKept(), i);
      assert after.tracks[k].id == s.tracks[i].id;
    }
    if Holds(after, s.tracks[i].id) {
      var k :| 0 <= k < |after.tracks| && after.tracks[k].id == s.tracks[i].id;
      RosterIdIsUnique(cfg, s, dets, plan, i, Satisfying(roster, IsKept())[k]);
    }
  }

  /** An id that has left the list never comes back. */
  lemma {:induction false} IdsNeverReturn<B>(cfg: Config<B>, solver: Solver, frames: seq<seq<Detection>>, n: nat,
                                             id: nat)
    requires Assigns(solver) && n <= |frames|
    ensures var (early, late) := (Run(cfg, solver, frames[..n]), Run(cfg, solver, frames));
            && early.nextId <= late.nextId
            && (id < early.nextId && Holds(late, id) ==> Holds(early, id))
    decreases |frames|
  {
    if n == |frames| {
      assert frames[..n] == frames;
    } else {
      var (init, dets) := (frames[..|frames| - 1], frames[|frames| - 1]);
      assert init[..n] == frames[..n];
      IdsNeverReturn(cfg, solver, init, n, id);
      var s := Run(cfg, solver, init);
      StepAddsNewIds(cfg, solver, s, dets, id);
    }
  }

  lemma StepAddsNewIds<B>(cfg: Config<B>, solver: Solver, s: State<B>, dets: seq<Detection>, id: nat)
    requires Assigns(solver) && StateOk(cfg, s)
    ensures s.nextId <= Step(cfg, solver, s, dets).nextId
    ensures Holds(Step(cfg, solver, s, dets), id) && id < s.nextId ==> Holds(s, id)
  {
    OnlyNewIdsAppear(cfg, s, dets, PlanOf(cfg, solver, s, dets), id);
  }
}
