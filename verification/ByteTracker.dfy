/** The tracker as the program runs it: mutable tracks shared between lists, matched and aged in
    place. Each method is proved against TrackerSpec. */
module ByteTracking {
  import opened Options
  import opened Matrices
  import opened Lists
  import opened TrackerSpec
  import opened TrackerRuns
  import opened TrackerReports
  import opened XyahFilter

  class Track {
    const id: nat
    var belief: Estimate
    var score: real
    var classId: int
    var className: string
    var lastFrame: int
    var state: TrackState

    constructor (id: nat, belief: Estimate, score: real, classId: int, className: string, lastFrame: int)
      ensures View() == TrackValue(id, belief, score, classId, className, lastFrame, Tracked)
    {
      this.id := id;
      this.belief := belief;
      this.score, this.classId, this.className := score, classId, className;
      this.lastFrame := lastFrame;
      state := Tracked;
    }

    function View(): TrackValue<Estimate>
      reads this
    {
      TrackValue(id, belief, score, classId, className, lastFrame, state)
    }
  }

  function Views(ts: seq<Track>): (vs: seq<TrackValue<Estimate>>)
    reads ts
    ensures |vs| == |ts| && forall i :: 0 <= i < |ts| ==> vs[i] == ts[i].View()
  {
    seq(|ts|, i requires 0 <= i < |ts| reads ts => ts[i].View())
  }

  predicate NoTwice(ts: seq<Track>) {
    forall i, j :: 0 <= i < j < |ts| ==> ts[i] != ts[j]
  }

  function Ids(ts: seq<Track>): set<nat> {
    set i | 0 <= i < |ts| :: ts[i].id
  }

  /** Tracks after a stage: those matched are corrected, the others untouched. */
  function Struck<B>(cfg: Config<B>, vs: seq<TrackValue<B>>, dets: seq<Detection>, m: map<nat, nat>, frame: int)
    : (ws: seq<TrackValue<B>>)
    requires IsMatching(m, |vs|, |dets|)
    ensures |ws| == |vs|
    ensures forall i :: 0 <= i < |vs| ==> ws[i] == if i in m then Hit(cfg, vs[i], dets[m[i]], frame) else vs[i]
  {
    seq(|vs|, i requires 0 <= i < |vs| => if i in m then Hit(cfg, vs[i], dets[m[i]], frame) else vs[i])
  }

  predicate IsStruck<B(==)>(cfg: Config<B>, vs: seq<TrackValue<B>>, ws: seq<TrackValue<B>>, dets: seq<Detection>,
                            m: map<nat, nat>, frame: int)
  {
    && |vs| == |ws|
    && (forall i :: i in m ==> i < |vs| && m[i] < |dets|)
    && (forall i :: 0 <= i < |vs| ==> ws[i] == if i in m then Hit(cfg, vs[i], dets[m[i]], frame) else vs[i])
  }

  function Aged<B>(cfg: Config<B>, vs: seq<TrackValue<B>>, pos: seq<nat>, frame: int): (ws: seq<TrackValue<B>>)
    ensures |ws| == |vs|
    ensures forall i :: 0 <= i < |vs| ==> ws[i] == if i in pos then Missed(cfg, vs[i], frame) else vs[i]
  {
    seq(|vs|, i requires 0 <= i < |vs| => if i in pos then Missed(cfg, vs[i], frame) else vs[i])
  }

  lemma StrikeOne<B>(cfg: Config<B>, vs: seq<TrackValue<B>>, ws: seq<TrackValue<B>>, dets: seq<Detection>,
                     m: map<nat, nat>, frame: int, row: nat, col: nat)
    requires IsStruck(cfg, vs, ws, dets, m, frame) && row !in m && row < |vs| && col < |dets|
    ensures IsStruck(cfg, vs, ws[row := Hit(cfg, ws[row], dets[col], frame)], dets, m[row := col], frame)
  {
  }

  class ByteTracker {
    const cfg: Config<Estimate>
    const solver: Solver
    var tracks: seq<Track>
    var nextTrackId: nat
    var frameId: nat

    ghost function View(): State<Estimate>
      reads this, tracks
    {
      State(Views(tracks), nextTrackId, frameId)
    }

    ghost predicate Valid()
      reads this, tracks
    {
      Assigns(solver) && NoTwice(tracks) && StateOk(cfg, View())
    }

    constructor (cameraId: string, trackThreshold: real, lowThreshold: real, matchIou: real, trackBuffer: int,
                 solver: Solver)
      requires cameraId != "" && Assigns(solver)
      ensures Valid() && View() == State([], 1, 0)
      ensures cfg == Config(cameraId, trackThreshold, lowThreshold, matchIou, trackBuffer, Xyah())
      ensures this.solver == solver
    {
      cfg := Config(cameraId, trackThreshold, lowThreshold, matchIou, trackBuffer, Xyah());
      this.solver := solver;
      tracks := [];
      nextTrackId := 1;
      frameId := 0;
    }

    /** Kalman prediction of every candidate, in place. */
    method PredictTracks(ts: seq<Track>)
      requires NoTwice(ts)
      modifies ts
      ensures unchanged(this)
      ensures Views(ts) == PredictAll(cfg, old(Views(ts)))
    {
      for k := 0 to |ts|
        invariant unchanged(this)
        invariant forall i :: k <= i < |ts| ==> ts[i].View() == old(ts[i].View())
        invariant forall i :: 0 <= i < k ==> ts[i].View() == Advanced(cfg, old(ts[i].View()))
      {
        ts[k].belief := cfg.kalman.predict(ts[k].belief);
      }
    }

    /** Tracks that matched nothing become LOST, or REMOVED once too old. */
    method MarkMissing(ts: seq<Track>)
      requires NoTwice(ts)
      modifies ts
      ensures unchanged(this)
      ensures forall i :: 0 <= i < |ts| ==> ts[i].View() == Missed(cfg, old(ts[i].View()), frameId)
    {
      for k := 0 to |ts|
        invariant unchanged(this)
        invariant forall i :: k <= i < |ts| ==> ts[i].View() == old(ts[i].View())
        invariant forall i :: 0 <= i < k ==> ts[i].View() == Missed(cfg, old(ts[i].View()), frameId)
      {
        var t := ts[k];
        t.state := if frameId - t.lastFrame > cfg.trackBuffer then Removed else Lost;
      }
    }

    /** The track at `row` takes a detection; the others in the list are untouched. */
    method TakeAt(ts: seq<Track>, row: nat, d: Detection)
      requires NoTwice(ts) && row < |ts|
      modifies ts
      ensures unchanged(this)
      ensures Views(ts) == old(Views(ts))[row := Hit(cfg, old(Views(ts))[row], d, frameId)]
    {
      Take(ts[row], d);
    }

    /** The loop over the assigned pairs: those over the threshold are applied. */
    method ApplyPairs(ts: seq<Track>, dets: seq<Detection>, cost: Matrix, pairs: Pairs)
      returns (matchedTracks: set<nat>, matchedDets: set<nat>)
      requires NoTwice(ts) && IsMatrix(cost, |ts|, |dets|) && IsAssignment(pairs, |ts|, |dets|)
      modifies ts
      ensures unchanged(this)
      ensures InRange(pairs, cost)
      ensures var m := Accepted(pairs, cost, cfg.matchIou);
              && IsMatching(m, |ts|, |dets|)
              && Views(ts) == Struck(cfg, old(Views(ts)), dets, m, frameId)
              && matchedTracks == m.Keys && matchedDets == m.Values
    {
      ghost var before := Views(ts);
      matchedTracks, matchedDets := {}, {};
      for k := 0 to |pairs|
        invariant unchanged(this)
        invariant InRange(pairs[..k], cost)
        invariant matchedTracks == Accepted(pairs[..k], cost, cfg.matchIou).Keys
        invariant matchedDets == Accepted(pairs[..k], cost, cfg.matchIou).Values
        invariant IsStruck(cfg, before, Views(ts), dets, Accepted(pairs[..k], cost, cfg.matchIou), frameId)
      {
        var (row, col) := pairs[k];
        RowIsNew(pairs, k, cost, cfg.matchIou, |ts|, |dets|);
        NextAccepted(pairs, k, cost, cfg.matchIou);
        if 1.0 - cost[row][col] < cfg.matchIou {
          continue;
        }
        StrikeOne(cfg, before, Views(ts), dets, Accepted(pairs[..k], cost, cfg.matchIou), frameId, row, col);
        TakeAt(ts, row, dets[col]);
        matchedTracks := matchedTracks + {row};
        matchedDets := matchedDets + {col};
      }
      assert pairs[..|pairs|] == pairs;
      AcceptedIsMatching(pairs, cost, cfg.matchIou, |ts|, |dets|);
    }

    /** One association stage: matched tracks are corrected in place; the rest comes back. */
    method Associate(ts: seq<Track>, dets: seq<Detection>)
      returns (restTracks: seq<Track>, restDets: seq<Detection>)
      requires Assigns(solver) && NoTwice(ts)
      modifies ts
      ensures unchanged(this)
      ensures var m := Stage(cfg, solver, old(Views(ts)), dets);
              && Views(ts) == Struck(cfg, old(Views(ts)), dets, m, frameId)
              && restTracks == Select(ts, Rest(|ts|, m.Keys))
              && restDets == Select(dets, Rest(|dets|, m.Values))
    {
      if |ts| == 0 || |dets| == 0 {
        KeepEverything(ts);
        KeepEverything(dets);
        ghost var none: map<nat, nat> := map[];
        assert none.Keys == {} && none.Values == {};
        assert Stage(cfg, solver, Views(ts), dets) == none;
        return ts, dets;
      }
      var cost := Costs(cfg, Views(ts), dets);
      var pairs := solver(cost);
      assert IsAssignment(pairs, |ts|, |dets|);
      var matchedTracks, matchedDets := ApplyPairs(ts, dets, cost, pairs);
      restTracks := Select(ts, Rest(|ts|, matchedTracks));
      restDets := Select(dets, Rest(|dets|, matchedDets));
    }

    /** A track takes a detection. */
    method Take(t: Track, d: Detection)
      modifies t
      ensures unchanged(this)
      ensures t.View() == Hit(cfg, old(t.View()), d, frameId)
    {
      t.belief := cfg.kalman.update(t.belief, d.box);
      t.score := d.score;
      t.classId := d.classId;
      t.className := d.className;
      t.lastFrame := frameId;
      t.state := Tracked;
    }

    /** Stage one: high detections against every track. What is left over is split by state. */
    method FirstStage(ts: seq<Track>, high: seq<Detection>)
      returns (unmatched: seq<Track>, seconds: seq<Track>, lost: seq<Track>, restHigh: seq<Detection>)
      requires Assigns(solver) && NoTwice(ts)
      modifies ts
      ensures unchanged(this)
      ensures var ps := old(Views(ts));
              var first := Stage(cfg, solver, ps, high);
              && Views(ts) == Struck(cfg, ps, high, first, frameId)
              && unmatched == Select(ts, Rest(|ts|, first.Keys))
              && seconds == Select(ts, Round(ps, first, Tracked))
              && lost == Select(ts, Round(ps, first, Lost))
              && restHigh == Select(high, Rest(|high|, first.Values))
    {
      ghost var ps := Views(ts);
      unmatched, restHigh := Associate(ts, high);
      ghost var first := Stage(cfg, solver, ps, high);
      ghost var rest := Rest(|ts|, first.Keys);
      assert Views(unmatched) == Select(ps, rest);
      seconds := InState(unmatched, Tracked);
      lost := InState(unmatched, Lost);
      RoundPositions(ps, first, Tracked);
      RoundPositions(ps, first, Lost);
      SelectTwice(ts, rest, Satisfying(Select(ps, rest), HasState(Tracked)));
      SelectTwice(ts, rest, Satisfying(Select(ps, rest), HasState(Lost)));
    }

    /** Association over the tracks at the positions idx, seen from the whole list. */
    method AssociateAt(ts: seq<Track>, some: seq<Track>, dets: seq<Detection>, ghost idx: seq<nat>)
      returns (rest: seq<Track>)
      requires Assigns(solver) && NoTwice(ts) && Increasing(idx) && Below(idx, |ts|) && some == Select(ts, idx)
      modifies some
      ensures unchanged(this)
      ensures var m := Stage(cfg, solver, Select(old(Views(ts)), idx), dets);
              && IsMatching(Spread(idx, m), |ts|, |dets|)
              && Views(ts) == Struck(cfg, old(Views(ts)), dets, Spread(idx, m), frameId)
              && rest == Select(ts, Select(idx, Rest(|idx|, m.Keys)))
    {
      ghost var before := Views(ts);
      assert Views(some) == Select(before, idx);
      NotSelected(ts, idx);
      var restDets;
      rest, restDets := Associate(some, dets);
      SelectTwice(ts, idx, Rest(|idx|, Stage(cfg, solver, Select(before, idx), dets).Keys));
      ghost var m := Stage(cfg, solver, Select(before, idx), dets);
      assert Views(some) == Select(Views(ts), idx);
      StruckAt(cfg, before, Views(ts), dets, m, frameId, idx);
    }

    /** Both stages. Tracks that take a detection are corrected in place; the others come back,
        with what the first stage left over of tracks and of high detections. */
    method MatchAll(ts: seq<Track>, high: seq<Detection>, low: seq<Detection>)
      returns (remaining: seq<Track>, unmatched: seq<Track>, restHigh: seq<Detection>)
      requires Assigns(solver) && NoTwice(ts)
      modifies ts
      ensures unchanged(this)
      ensures var ps := old(Views(ts));
              var plan := PlanFor(cfg, solver, ps, high, low);
              && Views(ts) == MatchEach(cfg, ps, high, low, plan, frameId)
              && restHigh == Select(high, Rest(|high|, plan.first.Values))
              && remaining == Select(ts, Unmatched(ps, plan.first, SecondStageOf(cfg, solver, ps, plan.first, low)))
              && unmatched == Select(ts, Rest(|ts|, plan.first.Keys))
    {
      ghost var ps := Views(ts);
      var seconds, lost;
      unmatched, seconds, lost, restHigh := FirstStage(ts, high);
      ghost var first := Stage(cfg, solver, ps, high);
      ghost var idx := Round(ps, first, Tracked);
      RoundIsUntouched(cfg, ps, high, first, frameId);
      var restSeconds := AssociateAt(ts, seconds, low, idx);
      remaining := lost + restSeconds;
      var second := SecondStageOf(cfg, solver, ps, first, low);
      SelectAppends(ts, Round(ps, first, Lost), Select(idx, Rest(|idx|, second.Keys)));
      StruckTwice(cfg, ps, high, low, PlanFor(cfg, solver, ps, high, low), frameId);
    }

    /** Ages the tracks at the positions pos, seen from the whole list. */
    method AgeAt(ts: seq<Track>, some: seq<Track>, ghost pos: seq<nat>)
      requires NoTwice(ts) && Below(pos, |ts|) && some == Select(ts, pos)
      requires forall a, b :: 0 <= a < b < |pos| ==> pos[a] != pos[b]
      modifies some
      ensures unchanged(this)
      ensures Views(ts) == Aged(cfg, old(Views(ts)), pos, frameId)
    {
      NotSelected(ts, pos);
      MarkMissing(some);
      assert forall k :: 0 <= k < |pos| ==> some[k] == ts[pos[k]];
    }

    /** One new track for each high detection that was left over. */
    method Spawn(dets: seq<Detection>) returns (born: set<nat>, ghost newborn: seq<Track>)
      modifies this`tracks, this`nextTrackId
      ensures tracks == old(tracks) + newborn && nextTrackId == old(nextTrackId) + |dets|
      ensures Views(old(tracks)) == old(Views(tracks))
      ensures Views(newborn) == Newborns(cfg, dets, old(nextTrackId), frameId)
      ensures NoTwice(newborn) && forall k :: 0 <= k < |newborn| ==> fresh(newborn[k])
      ensures forall id: nat :: id in born <==> old(nextTrackId) <= id < nextTrackId
    {
      born := {};
      newborn := [];
      for n := 0 to |dets|
        invariant tracks == old(tracks) + newborn && nextTrackId == old(nextTrackId) + n && |newborn| == n
        invariant Views(old(tracks)) == old(Views(tracks))
        invariant forall k :: 0 <= k < n ==> newborn[k].View() == Born(cfg, dets[k], old(nextTrackId) + k, frameId)
        invariant NoTwice(newborn) && forall k :: 0 <= k < n ==> fresh(newborn[k])
        invariant forall id: nat :: id in born <==> old(nextTrackId) <= id < nextTrackId
      {
        var d := dets[n];
        var t := new Track(nextTrackId, cfg.kalman.initiate(d.box), d.score, d.classId, d.className, frameId);
        nextTrackId := nextTrackId + 1;
        tracks := tracks + [t];
        born := born + {t.id};
        newborn := newborn + [t];
      }
    }

    /** Matches the predicted tracks and ages those left over. What comes back are the unclaimed
        high detections. */
    method MatchAndAge(ts: seq<Track>, high: seq<Detection>, low: seq<Detection>)
      returns (restHigh: seq<Detection>, matchedIds: set<nat>)
      requires Assigns(solver) && NoTwice(ts) && DistinctIds(ts)
      requires NoneRemoved(Views(ts))
      modifies ts
      ensures unchanged(this)
      ensures var ps := old(Views(ts));
              var plan := PlanFor(cfg, solver, ps, high, low);
              && Views(ts) == SettleEach(cfg, ps, high, low, plan, frameId)
              && restHigh == Select(high, Rest(|high|, plan.first.Values))
              && Recorded(ts, plan, matchedIds)
    {
      ghost var ps := Views(ts);
      ghost var plan := PlanFor(cfg, solver, ps, high, low);
      ghost var pos := Unmatched(ps, plan.first, SecondStageOf(cfg, solver, ps, plan.first, low));
      PlanLeavesUnmatched(cfg, solver, ps, high, low);
      var remaining, unmatched;
      remaining, unmatched, restHigh := MatchAll(ts, high, low);
      matchedIds := Ids(ts) - Ids(unmatched) + (Ids(unmatched) - Ids(remaining));
      MatchedIdsRecorded(ts, unmatched, pos, plan);
      AgeAt(ts, remaining, pos);
      AgedIsSettled(cfg, ps, high, low, plan, pos, frameId);
    }

    /** Predicts every candidate, then matches and ages. */
    method SettleTracks(ts: seq<Track>, high: seq<Detection>, low: seq<Detection>)
      returns (restHigh: seq<Detection>, matchedIds: set<nat>)
      requires Assigns(solver) && NoTwice(ts) && DistinctIds(ts) && NoneRemoved(Views(ts))
      modifies ts
      ensures unchanged(this)
      ensures var ps := PredictAll(cfg, old(Views(ts)));
              var plan := PlanFor(cfg, solver, ps, high, low);
              && Views(ts) == SettleEach(cfg, ps, high, low, plan, frameId)
              && restHigh == Select(high, Rest(|high|, plan.first.Values))
              && Recorded(ts, plan, matchedIds)
    {
      PredictionRemovesNone(cfg, Views(ts));
      PredictTracks(ts);
      restHigh, matchedIds := MatchAndAge(ts, high, low);
    }

    /** Drops the REMOVED tracks. */
    method DropRemoved()
      requires NoTwice(tracks)
      modifies this`tracks
      ensures NoTwice(tracks) && Views(tracks) == Filter(old(Views(tracks)), IsKept())
    {
      var kept := Satisfying(Views(tracks), IsKept());
      tracks := Select(tracks, kept);
    }

    /** Reports the tracks that are TRACKED and whose id was recorded as matched. */
    method ReportMatched(matchedIds: set<nat>) returns (reports: seq<Report>)
      requires TrackedAreIn(Views(tracks), matchedIds)
      ensures reports == Reports(cfg, View())
    {
      var vs := Views(tracks);
      var idx := Reportable(vs, matchedIds);
      IncreasingIsUnique(idx, Satisfying(vs, HasState(Tracked)));
      reports := seq(|idx|, k requires 0 <= k < |idx| => ReportOf(cfg, vs[idx[k]]));
    }

    /** update from its frame count up to the creation of new tracks. */
    method AdvanceTracks(dets: seq<Detection>, ghost before: State<Estimate>)
      returns (restHigh: seq<Detection>, matchedIds: set<nat>)
      requires Assigns(solver) && NoTwice(tracks) && StateOk(cfg, before)
      requires before.tracks == Views(tracks) && frameId == before.frame + 1
      modifies tracks
      ensures unchanged(this)
      ensures var plan := PlanOf(cfg, solver, before, dets);
              && Views(tracks) == SettleEach(cfg, PredictAll(cfg, before.tracks), Filter(dets, IsHigh(cfg)),
                                             Filter(dets, IsLow(cfg)), plan, frameId)
              && restHigh == Unclaimed(cfg, dets, plan)
      ensures TrackedAreIn(Views(tracks), matchedIds)
    {
      var candidates := Select(tracks, Satisfying(Views(tracks), IsKept()));
      AllAreCandidates(cfg, before, tracks);
      NobodyIsRemoved(cfg, before, tracks);
      var high, low := Filter(dets, IsHigh(cfg)), Filter(dets, IsLow(cfg));
      restHigh, matchedIds := SettleTracks(candidates, high, low);
      SettledAreRecorded(cfg, PredictAll(cfg, before.tracks), high, low, PlanOf(cfg, solver, before, dets), tracks,
                         matchedIds, frameId);
    }

    /** Adds the new tracks and their ids. */
    method AddTracks(restHigh: seq<Detection>, matched: set<nat>) returns (matchedIds: set<nat>)
      requires NoTwice(tracks) && TrackedAreIn(Views(tracks), matched)
      modifies this`tracks, this`nextTrackId
      ensures NoTwice(tracks) && TrackedAreIn(Views(tracks), matchedIds)
      ensures Views(tracks) == old(Views(tracks)) + Newborns(cfg, restHigh, old(nextTrackId), frameId)
      ensures nextTrackId == old(nextTrackId) + |restHigh|
    {
      var born, newborn := Spawn(restHigh);
      ViewsAppend(old(tracks), newborn);
      matchedIds := matched + born;
    }

    /** update from the creation of new tracks on. */
    method RenewTracks(restHigh: seq<Detection>, matched: set<nat>) returns (reports: seq<Report>)
      requires NoTwice(tracks) && TrackedAreIn(Views(tracks), matched)
      modifies this`tracks, this`nextTrackId
      ensures NoTwice(tracks) && frameId == old(frameId)
      ensures View() == Kept(old(Views(tracks)) + Newborns(cfg, restHigh, old(nextTrackId), frameId),
                             old(nextTrackId) + |restHigh|, frameId)
      ensures reports == Reports(cfg, View())
    {
      var matchedIds := AddTracks(restHigh, matched);
      FilteringKeepsTracked(Views(tracks), matchedIds);
      DropRemoved();
      reports := ReportMatched(matchedIds);
    }

    /** One frame. */
    method Update(dets: seq<Detection>) returns (reports: seq<Report>)
      requires Valid()
      modifies this, tracks
      ensures Valid()
      ensures View() == TrackerSpec.Update(cfg, solver, old(View()), dets)
      ensures reports == Reports(cfg, View())
    {
      ghost var before := View();
      frameId := frameId + 1;
      var restHigh, matched := AdvanceTracks(dets, before);
      reports := RenewTracks(restHigh, matched);
      UpdateAssembled(cfg, before, dets, PlanOf(cfg, solver, before, dets));
      assert View() == TrackerSpec.Update(cfg, solver, before, dets);
    }
  }

  lemma UpdateAssembled<B>(cfg: Config<B>, s: State<B>, dets: seq<Detection>, plan: Plan)
    requires StateOk(cfg, s) && Fits(cfg, s, dets, plan)
    ensures var unclaimed := Unclaimed(cfg, dets, plan);
            UpdateWith(cfg, s, dets, plan)
            == Kept(SettledOf(cfg, s, dets, plan) + Newborns(cfg, unclaimed, s.nextId, s.frame + 1),
                    s.nextId + |unclaimed|, s.frame + 1)
    ensures StateOk(cfg, UpdateWith(cfg, s, dets, plan))
  {
    RosterAssembled(cfg, s, dets, plan);
    UpdateKeepsStateOk(cfg, s, dets, plan);
  }

  lemma SelectTwice<T>(xs: seq<T>, idx: seq<nat>, inner: seq<nat>)
    requires Below(idx, |xs|) && Below(inner, |idx|)
    ensures Below(Select(idx, inner), |xs|) && Select(Select(xs, idx), inner) == Select(xs, Select(idx, inner))
  {
  }

  lemma ViewsAppend(ts: seq<Track>, us: seq<Track>)
    ensures Views(ts + us) == Views(ts) + Views(us)
  {
  }

  /** The high detections the first stage leaves over. */
  function Unclaimed<B>(cfg: Config<B>, dets: seq<Detection>, plan: Plan): seq<Detection> {
    var high := Filter(dets, IsHigh(cfg));
    Select(high, Rest(|high|, plan.first.Values))
  }

  /** Every old track predicted and settled. */
  function SettledOf<B>(cfg: Config<B>, s: State<B>, dets: seq<Detection>, plan: Plan): (ts: seq<TrackValue<B>>)
    requires Fits(cfg, s, dets, plan)
  {
    SettleEach(cfg, PredictAll(cfg, s.tracks), Filter(dets, IsHigh(cfg)), Filter(dets, IsLow(cfg)), plan, s.frame + 1)
  }

  function Reportable<B>(vs: seq<TrackValue<B>>, ids: set<nat>): (idx: seq<nat>)
    ensures Increasing(idx) && Below(idx, |vs|)
    ensures forall k :: k in idx <==> 0 <= k < |vs| && vs[k].state == Tracked && vs[k].id in ids
  {
    Positions(|vs|, (k: nat) => k < |vs| && vs[k].state == Tracked && vs[k].id in ids)
  }

  predicate TrackedAreIn<B>(vs: seq<TrackValue<B>>, ids: set<nat>) {
    forall i :: 0 <= i < |vs| && vs[i].state == Tracked ==> vs[i].id in ids
  }

  lemma FilteringKeepsTracked<B>(vs: seq<TrackValue<B>>, ids: set<nat>)
    requires TrackedAreIn(vs, ids)
    ensures TrackedAreIn(Filter(vs, IsKept()), ids)
  {
  }

  lemma RosterAssembled<B>(cfg: Config<B>, s: State<B>, dets: seq<Detection>, plan: Plan)
    requires Fits(cfg, s, dets, plan)
    ensures RosterOf(cfg, s, dets, plan)
            == SettledOf(cfg, s, dets, plan) + Newborns(cfg, Unclaimed(cfg, dets, plan), s.nextId, s.frame + 1)
  {
  }

  lemma SettledAreRecorded<B>(cfg: Config<B>, ps: seq<TrackValue<B>>, high: seq<Detection>, low: seq<Detection>,
                              plan: Plan, ts: seq<Track>, ids: set<nat>, frame: int)
    requires IsPlan(plan, ps, |high|, |low|) && SameIds(ts, ps) && Recorded(ts, plan, ids)
    ensures TrackedAreIn(SettleEach(cfg, ps, high, low, plan, frame), ids)
  {
  }

  /** pos lists exactly the positions the plan leaves without a detection, each once. */
  predicate LeftBy(plan: Plan, pos: seq<nat>, n: nat) {
    && Below(pos, n) && (forall a, b :: 0 <= a < b < |pos| ==> pos[a] != pos[b])
    && (forall i :: 0 <= i < n ==> (i in pos <==> i !in plan.first && i !in plan.second))
  }

  lemma PlanLeavesUnmatched<B>(cfg: Config<B>, solver: Solver, ps: seq<TrackValue<B>>, high: seq<Detection>,
                               low: seq<Detection>)
    requires Assigns(solver) && NoneRemoved(ps)
    ensures var plan := PlanFor(cfg, solver, ps, high, low);
            LeftBy(plan, Unmatched(ps, plan.first, SecondStageOf(cfg, solver, ps, plan.first, low)), |ps|)
  {
    var plan := PlanFor(cfg, solver, ps, high, low);
    var m := SecondStageOf(cfg, solver, ps, plan.first, low);
    UnmatchedAreDistinct(ps, plan.first, m);
    forall i | 0 <= i < |ps|
      ensures i in Unmatched(ps, plan.first, m) <==> i !in plan.first && i !in plan.second
    {
      UnmatchedAreTheRest(ps, plan.first, m, i);
    }
  }

  predicate Recorded(ts: seq<Track>, plan: Plan, ids: set<nat>) {
    forall i :: 0 <= i < |ts| && (i in plan.first || i in plan.second) ==> ts[i].id in ids
  }

  /** The set arithmetic on ids records every matched track. */
  lemma MatchedIdsRecorded(ts: seq<Track>, unmatched: seq<Track>, pos: seq<nat>, plan: Plan)
    requires DistinctIds(ts) && LeftBy(plan, pos, |ts|)
    ensures Recorded(ts, plan, Ids(ts) - Ids(unmatched) + (Ids(unmatched) - Ids(Select(ts, pos))))
  {
    forall i | 0 <= i < |ts| && i !in pos ensures ts[i].id !in Ids(Select(ts, pos)) {
      assert forall k :: 0 <= k < |pos| ==> pos[k] in pos;
    }
  }

  lemma AllAreCandidates<B>(cfg: Config<B>, s: State<B>, ts: seq<Track>)
    requires StateOk(cfg, s) && |ts| == |s.tracks|
    ensures Select(ts, Satisfying(s.tracks, IsKept())) == ts
  {
    forall i | 0 <= i < |s.tracks| ensures IsKept()(s.tracks[i]) {
      assert LifecycleOk(cfg, s.tracks[i], s.frame);
    }
    SelectAll(s.tracks, IsKept(), ts);
  }

  predicate NoneRemoved<B>(vs: seq<TrackValue<B>>) {
    forall i :: 0 <= i < |vs| ==> vs[i].state != Removed
  }

  lemma PredictionRemovesNone<B>(cfg: Config<B>, vs: seq<TrackValue<B>>)
    requires NoneRemoved(vs)
    ensures NoneRemoved(PredictAll(cfg, vs))
  {
  }

  lemma NobodyIsRemoved<B>(cfg: Config<B>, s: State<B>, ts: seq<Track>)
    requires StateOk(cfg, s) && SameIds(ts, s.tracks)
    ensures NoneRemoved(s.tracks) && DistinctIds(ts)
  {
    forall i | 0 <= i < |s.tracks| ensures s.tracks[i].state != Removed {
      assert LifecycleOk(cfg, s.tracks[i], s.frame);
    }
  }

  /** Matching and then ageing the unmatched settles every track. */
  lemma AgedIsSettled<B>(cfg: Config<B>, ps: seq<TrackValue<B>>, high: seq<Detection>, low: seq<Detection>, plan: Plan,
                         pos: seq<nat>, frame: int)
    requires IsPlan(plan, ps, |high|, |low|) && LeftBy(plan, pos, |ps|)
    ensures Aged(cfg, MatchEach(cfg, ps, high, low, plan, frame), pos, frame)
            == SettleEach(cfg, ps, high, low, plan, frame)
  {
  }

  lemma RoundIsUntouched<B>(cfg: Config<B>, ps: seq<TrackValue<B>>, high: seq<Detection>, first: map<nat, nat>,
                            frame: int)
    requires IsMatching(first, |ps|, |high|)
    ensures var idx := Round(ps, first, Tracked);
            Select(Struck(cfg, ps, high, first, frame), idx) == Select(ps, idx)
  {
    var idx := Round(ps, first, Tracked);
    assert forall k :: 0 <= k < |idx| ==> idx[k] in idx;
  }

  lemma StruckTwice<B>(cfg: Config<B>, ps: seq<TrackValue<B>>, high: seq<Detection>, low: seq<Detection>, plan: Plan,
                       frame: int)
    requires IsPlan(plan, ps, |high|, |low|)
    ensures Struck(cfg, Struck(cfg, ps, high, plan.first, frame), low, plan.second, frame)
            == MatchEach(cfg, ps, high, low, plan, frame)
  {
  }

  lemma NotSelected(ts: seq<Track>, idx: seq<nat>)
    requires NoTwice(ts) && Below(idx, |ts|)
    ensures forall i :: 0 <= i < |ts| && i !in idx ==> ts[i] !in Select(ts, idx)
  {
    forall i, k | 0 <= i < |ts| && i !in idx && 0 <= k < |idx| ensures Select(ts, idx)[k] != ts[i] {
      assert idx[k] in idx;
    }
  }

  /** Striking the selected tracks is striking the whole list with the spread matching. */
  lemma StruckAt<B>(cfg: Config<B>, vs: seq<TrackValue<B>>, ws: seq<TrackValue<B>>, dets: seq<Detection>,
                    m: map<nat, nat>, frame: int, idx: seq<nat>)
    requires |vs| == |ws| && Increasing(idx) && Below(idx, |vs|) && IsMatching(m, |idx|, |dets|)
    requires Select(ws, idx) == Struck(cfg, Select(vs, idx), dets, m, frame)
    requires forall i :: 0 <= i < |vs| && i !in idx ==> ws[i] == vs[i]
    ensures IsMatching(Spread(idx, m), |vs|, |dets|)
    ensures ws == Struck(cfg, vs, dets, Spread(idx, m), frame)
  {
    SpreadIsMatching(idx, m, |vs|, |dets|);
    forall i | 0 <= i < |vs|
      ensures ws[i] == Struck(cfg, vs, dets, Spread(idx, m), frame)[i]
    {
      SpreadStaysInside(idx, m, i);
      if i in idx {
        var k :| 0 <= k < |idx| && idx[k] == i;
        SpreadAt(idx, m, k);
        assert ws[i] == Select(ws, idx)[k];
      }
    }
  }

  predicate SameIds<B>(ts: seq<Track>, vs: seq<TrackValue<B>>) {
    |ts| == |vs| && forall i :: 0 <= i < |ts| ==> ts[i].id == vs[i].id
  }

  predicate DistinctIds(ts: seq<Track>) {
    forall i, j :: 0 <= i < j < |ts| ==> ts[i].id != ts[j].id
  }

  function InState(ts: seq<Track>, state: TrackState): seq<Track>
    reads ts
  {
    Select(ts, Satisfying(Views(ts), HasState(state)))
  }

  /** Filtering the unmatched list by state picks the positions TrackerSpec names. */
  lemma RoundPositions<B>(ps: seq<TrackValue<B>>, first: map<nat, nat>, state: TrackState)
    ensures var rest := Rest(|ps|, first.Keys);
            Select(rest, Satisfying(Select(ps, rest), HasState(state))) == Round(ps, first, state)
  {
    var rest := Rest(|ps|, first.Keys);
    var inner := Satisfying(Select(ps, rest), HasState(state));
    SelectedPositions(rest, inner);
    forall i | i in Round(ps, first, state) ensures i in Select(rest, inner) {
      assert i in rest;
      var a :| 0 <= a < |rest| && rest[a] == i;
      assert a in inner;
    }
    forall i | i in Select(rest, inner) ensures i in Round(ps, first, state) {
      var a :| a in inner && rest[a] == i;
      assert rest[a] in rest;
    }
    IncreasingIsUnique(Select(rest, inner), Round(ps, first, state));
  }

  /** One more pair: its row is new to the matching. */
  lemma RowIsNew(pairs: Pairs, k: nat, cost: Matrix, threshold: real, rows: nat, cols: nat)
    requires IsMatrix(cost, rows, cols) && IsAssignment(pairs, rows, cols) && k < |pairs|
    ensures InRange(pairs[..k], cost) && IsMatching(Accepted(pairs[..k], cost, threshold), rows, cols)
    ensures pairs[k].0 !in Accepted(pairs[..k], cost, threshold)
  {
    AcceptedIsMatching(pairs[..k], cost, threshold, rows, cols);
    var m := Accepted(pairs[..k], cost, threshold);
    forall i | i in m ensures i != pairs[k].0 {
      var l :| 0 <= l < k && pairs[l] == (i, m[i]);
    }
  }

  /** It joins the matching if it is accepted. */
  lemma NextAccepted(pairs: Pairs, k: nat, cost: Matrix, threshold: real)
    requires k < |pairs| && InRange(pairs[..k], cost)
    requires pairs[k].0 < |cost| && pairs[k].1 < |cost[pairs[k].0]|
    requires pairs[k].0 !in Accepted(pairs[..k], cost, threshold)
    ensures InRange(pairs[..k + 1], cost)
    ensures var (m, next) := (Accepted(pairs[..k], cost, threshold), Accepted(pairs[..k + 1], cost, threshold));
            if 1.0 - cost[pairs[k].0][pairs[k].1] < threshold then next == m
            else next == m[pairs[k].0 := pairs[k].1]
                 && next.Keys == m.Keys + {pairs[k].0} && next.Values == m.Values + {pairs[k].1}
  {
    assert pairs[..k + 1][..k] == pairs[..k];
    ValuesGrow(Accepted(pairs[..k], cost, threshold), pairs[k].0, pairs[k].1);
  }

  lemma ValuesGrow(m: map<nat, nat>, i: nat, j: nat)
    requires i !in m
    ensures m[i := j].Values == m.Values + {j}
  {
    var n := m[i := j];
    forall v | v in m.Values + {j} ensures v in n.Values {
      if v in m.Values {
        var k :| k in m && m[k] == v;
        assert k in n && n[k] == v;
      } else {
        assert n[i] == v;
      }
    }
  }

  lemma KeepEverything<T>(xs: seq<T>)
    ensures Select(xs, Rest(|xs|, {})) == xs
  {
    RestCount(|xs|, {});
    forall k | 0 <= k < |xs| ensures Rest(|xs|, {})[k] == k {
      DensePositions(Rest(|xs|, {}), |xs|, k);
    }
  }
}
