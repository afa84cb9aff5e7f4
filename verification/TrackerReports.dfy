/** Every reported track is backed by its own detection of the same frame. */
module TrackerReports {
  import opened Options
  import opened Lists
  import opened TrackerSpec
  import opened TrackerRuns

  function Reports<B>(cfg: Config<B>, s: State<B>): (rs: seq<Report>)
  {
    var tracked := Satisfying(s.tracks, HasState(Tracked));
    seq(|tracked|, k requires 0 <= k < |tracked| => ReportOf(cfg, s.tracks[tracked[k]]))
  }

  /** The detection, by its position in the frame's list, behind position i of the roster. */
  function Backing<B>(cfg: Config<B>, dets: seq<Detection>, plan: Plan, olds: nat, i: nat): Option<nat>
    requires forall k :: k in plan.first ==> plan.first[k] < |Satisfying(dets, IsHigh(cfg))|
    requires forall k :: k in plan.second ==> plan.second[k] < |Satisfying(dets, IsLow(cfg))|
  {
    var (high, low) := (Satisfying(dets, IsHigh(cfg)), Satisfying(dets, IsLow(cfg)));
    var unclaimed := Rest(|high|, plan.first.Values);
    if i < olds then
      if i in plan.first then Some(high[plan.first[i]])
      else if i in plan.second then Some(low[plan.second[i]])
      else None
    else if i - olds < |unclaimed| then Some(high[unclaimed[i - olds]])
    else None
  }

  predicate CarriesOver<B>(t: TrackValue<B>, d: Detection) {
    t.score == d.score && t.classId == d.classId && t.className == d.className
  }

  lemma SettledCarriesOver<B>(cfg: Config<B>, t: TrackValue<B>, d: Detection, frame: int)
    ensures CarriesOver(Settled(cfg, t, Some(d), frame), d) && Settled(cfg, t, Some(d), frame).state == Tracked
  {
  }

  lemma RosterIsBacked<B>(cfg: Config<B>, ps: seq<TrackValue<B>>, dets: seq<Detection>, plan: Plan, nextId: nat,
                          frame: int, i: nat)
    requires IsPlan(plan, ps, |Filter(dets, IsHigh(cfg))|, |Filter(dets, IsLow(cfg))|)
    requires i < |Roster(cfg, ps, Filter(dets, IsHigh(cfg)), Filter(dets, IsLow(cfg)), plan, nextId, frame)|
    ensures var t := Roster(cfg, ps, Filter(dets, IsHigh(cfg)), Filter(dets, IsLow(cfg)), plan, nextId, frame)[i];
            var backing := Backing(cfg, dets, plan, |ps|, i);
            && (t.state == Tracked <==> backing.Some?)
            && (backing.Some? ==>
                  && backing.value < |dets| && CarriesOver(t, dets[backing.value])
                  && if i < |ps| && i in plan.second then IsLow(cfg)(dets[backing.value]) && ps[i].state == Tracked
                     else IsHigh(cfg)(dets[backing.value]))
  {
    var (high, low) := (Filter(dets, IsHigh(cfg)), Filter(dets, IsLow(cfg)));
    if i < |ps| {
      OldPosition(cfg, ps, high, low, plan, nextId, frame, i);
      var taken := Taken(plan, high, low, i);
      if taken.Some? {
        SettledCarriesOver(cfg, ps[i], taken.value, frame);
      }
    } else {
      NewPosition(cfg, ps, high, low, plan, nextId, frame, i);
    }
  }

  /** What a track believes after the frame, given the detection behind it. */
  lemma RosterBelieves<B>(cfg: Config<B>, ps: seq<TrackValue<B>>, dets: seq<Detection>, plan: Plan, nextId: nat,
                          frame: int, i: nat)
    requires IsPlan(plan, ps, |Filter(dets, IsHigh(cfg))|, |Filter(dets, IsLow(cfg))|)
    requires i < |Roster(cfg, ps, Filter(dets, IsHigh(cfg)), Filter(dets, IsLow(cfg)), plan, nextId, frame)|
    requires Backing(cfg, dets, plan, |ps|, i).Some?
    ensures var t := Roster(cfg, ps, Filter(dets, IsHigh(cfg)), Filter(dets, IsLow(cfg)), plan, nextId, frame)[i];
            var d := Backing(cfg, dets, plan, |ps|, i).value;
            && d < |dets|
            && t.belief == if i < |ps| then cfg.kalman.update(ps[i].belief, dets[d].box)
                           else cfg.kalman.initiate(dets[d].box)
  {
    if i >= |ps| {
      NewPosition(cfg, ps, Filter(dets, IsHigh(cfg)), Filter(dets, IsLow(cfg)), plan, nextId, frame, i);
    }
  }

  lemma BackingIsInjective<B>(cfg: Config<B>, ps: seq<TrackValue<B>>, dets: seq<Detection>, plan: Plan, i: nat, j: nat)
    requires IsPlan(plan, ps, |Filter(dets, IsHigh(cfg))|, |Filter(dets, IsLow(cfg))|)
    requires i < j && Backing(cfg, dets, plan, |ps|, i).Some?
    ensures Backing(cfg, dets, plan, |ps|, i) != Backing(cfg, dets, plan, |ps|, j)
  {
    var (high, low) := (Satisfying(dets, IsHigh(cfg)), Satisfying(dets, IsLow(cfg)));
    assert forall a, b :: 0 <= a < |high| && 0 <= b < |low| ==> high[a] in high && low[b] in low && high[a] != low[b];
    var rest := Rest(|high|, plan.first.Values);
    assert forall k :: 0 <= k < |rest| ==> rest[k] in rest && rest[k] !in plan.first.Values;
  }

  lemma HighIsBacked<B>(cfg: Config<B>, ps: seq<TrackValue<B>>, dets: seq<Detection>, plan: Plan, d: nat)
    returns (i: nat)
    requires IsPlan(plan, ps, |Filter(dets, IsHigh(cfg))|, |Filter(dets, IsLow(cfg))|)
    requires d < |dets| && IsHigh(cfg)(dets[d])
    ensures i < |ps| + |Rest(|Filter(dets, IsHigh(cfg))|, plan.first.Values)|
    ensures Backing(cfg, dets, plan, |ps|, i) == Some(d)
  {
    var high := Satisfying(dets, IsHigh(cfg));
    assert d in high;
    var h :| 0 <= h < |high| && high[h] == d;
    if h in plan.first.Values {
      i :| i in plan.first && plan.first[i] == h;
    } else {
      var rest := Rest(|high|, plan.first.Values);
      assert h in rest;
      var k :| 0 <= k < |rest| && rest[k] == h;
      i := |ps| + k;
    }
  }

  predicate Distinct(own: seq<nat>) {
    forall k, l :: 0 <= k < l < |own| ==> own[k] != own[l]
  }

  predicate MarksTracked<B>(roster: seq<TrackValue<B>>, backing: seq<Option<nat>>) {
    |backing| == |roster| && forall i :: 0 <= i < |roster| ==> (roster[i].state == Tracked <==> backing[i].Some?)
  }

  /** Where each report comes from in the roster. */
  lemma ReportPositions<B>(cfg: Config<B>, roster: seq<TrackValue<B>>, nextId: nat, frame: nat,
                           backing: seq<Option<nat>>)
    returns (pos: seq<nat>)
    requires MarksTracked(roster, backing)
    ensures |pos| == |Reports(cfg, Kept(roster, nextId, frame))| && Increasing(pos) && Below(pos, |roster|)
    ensures forall k :: 0 <= k < |pos| ==>
              && backing[pos[k]].Some?
              && Reports(cfg, Kept(roster, nextId, frame))[k] == ReportOf(cfg, roster[pos[k]])
    ensures forall i :: 0 <= i < |roster| && backing[i].Some? ==> i in pos
  {
    var kept := Satisfying(roster, IsKept());
    var ts := Kept(roster, nextId, frame).tracks;
    var tracked := Satisfying(ts, HasState(Tracked));
    pos := Select(kept, tracked);
    forall k | 0 <= k < |pos| ensures backing[pos[k]].Some? {
      assert tracked[k] in tracked;
    }
    forall i | 0 <= i < |roster| && backing[i].Some? ensures i in pos {
      assert i in kept;
      var a :| 0 <= a < |kept| && kept[a] == i;
      assert a in tracked;
      var k :| 0 <= k < |tracked| && tracked[k] == a;
      assert pos[k] == i;
    }
  }

  predicate WasTracked<B>(s: State<B>, id: nat) {
    exists i :: 0 <= i < |s.tracks| && s.tracks[i].id == id && s.tracks[i].state == Tracked
  }

  /** Report r stands for detection d; a low-score one only continues a track that was TRACKED. */
  predicate Stands<B>(cfg: Config<B>, s: State<B>, r: Report, d: Detection) {
    && r.score == d.score && r.classId == d.classId && r.className == d.className
    && (IsHigh(cfg)(d) || (IsLow(cfg)(d) && WasTracked(s, r.id)))
  }

  predicate MovesTo<B>(cfg: Config<B>, t: TrackValue<B>, r: Report, d: Detection) {
    t.id == r.id && r.box == cfg.kalman.box(cfg.kalman.update(cfg.kalman.predict(t.belief), d.box))
  }

  /** A new id is reported where the filter starts from its detection, an old one where the filter's
      correction of that track's prediction puts it. */
  predicate Placed<B>(cfg: Config<B>, s: State<B>, r: Report, d: Detection) {
    if r.id >= s.nextId then r.box == cfg.kalman.box(cfg.kalman.initiate(d.box))
    else exists i :: 0 <= i < |s.tracks| && MovesTo(cfg, s.tracks[i], r, d)
  }

  function Backings<B>(cfg: Config<B>, s: State<B>, dets: seq<Detection>, plan: Plan): (bs: seq<Option<nat>>)
    requires Fits(cfg, s, dets, plan)
    ensures |bs| == |RosterOf(cfg, s, dets, plan)|
    ensures forall i :: 0 <= i < |bs| ==> bs[i] == Backing(cfg, dets, plan, |s.tracks|, i)
  {
    seq(|RosterOf(cfg, s, dets, plan)|, i requires 0 <= i => Backing(cfg, dets, plan, |s.tracks|, i))
  }

  lemma BackingsMarkTracked<B>(cfg: Config<B>, s: State<B>, dets: seq<Detection>, plan: Plan)
    requires Fits(cfg, s, dets, plan)
    ensures MarksTracked(RosterOf(cfg, s, dets, plan), Backings(cfg, s, dets, plan))
  {
    var roster := RosterOf(cfg, s, dets, plan);
    forall i | 0 <= i < |roster|
      ensures roster[i].state == Tracked <==> Backings(cfg, s, dets, plan)[i].Some?
    {
      RosterIsBacked(cfg, PredictAll(cfg, s.tracks), dets, plan, s.nextId, s.frame + 1, i);
    }
  }

  lemma PositionStands<B>(cfg: Config<B>, s: State<B>, dets: seq<Detection>, plan: Plan, i: nat)
    requires StateOk(cfg, s) && Fits(cfg, s, dets, plan) && i < |RosterOf(cfg, s, dets, plan)|
    requires Backing(cfg, dets, plan, |s.tracks|, i).Some?
    ensures var d := Backing(cfg, dets, plan, |s.tracks|, i).value;
            d < |dets| && Stands(cfg, s, ReportOf(cfg, RosterOf(cfg, s, dets, plan)[i]), dets[d])
  {
    var (ps, high, low) := (PredictAll(cfg, s.tracks), Filter(dets, IsHigh(cfg)), Filter(dets, IsLow(cfg)));
    RosterPosition(cfg, s, ps, high, low, plan, i);
    RosterIsBacked(cfg, ps, dets, plan, s.nextId, s.frame + 1, i);
  }

  lemma BelieverIsPlaced<B>(cfg: Config<B>, s: State<B>, t: TrackValue<B>, d: Detection, i: nat)
    requires IdsIncrease(s.tracks, s.nextId)
    requires t.id == if i < |s.tracks| then s.tracks[i].id else s.nextId + i - |s.tracks|
    requires t.belief == if i < |s.tracks| then cfg.kalman.update(cfg.kalman.predict(s.tracks[i].belief), d.box)
                         else cfg.kalman.initiate(d.box)
    ensures Placed(cfg, s, ReportOf(cfg, t), d)
  {
    if i < |s.tracks| {
      assert MovesTo(cfg, s.tracks[i], ReportOf(cfg, t), d);
    }
  }

  lemma PositionIsPlaced<B>(cfg: Config<B>, s: State<B>, dets: seq<Detection>, plan: Plan, i: nat)
    requires StateOk(cfg, s) && Fits(cfg, s, dets, plan) && i < |RosterOf(cfg, s, dets, plan)|
    requires Backing(cfg, dets, plan, |s.tracks|, i).Some?
    ensures var d := Backing(cfg, dets, plan, |s.tracks|, i).value;
            d < |dets| && Placed(cfg, s, ReportOf(cfg, RosterOf(cfg, s, dets, plan)[i]), dets[d])
  {
    var (ps, high, low) := (PredictAll(cfg, s.tracks), Filter(dets, IsHigh(cfg)), Filter(dets, IsLow(cfg)));
    RosterPosition(cfg, s, ps, high, low, plan, i);
    RosterBelieves(cfg, ps, dets, plan, s.nextId, s.frame + 1, i);
    BelieverIsPlaced(cfg, s, RosterOf(cfg, s, dets, plan)[i], dets[Backing(cfg, dets, plan, |s.tracks|, i).value], i);
  }

  predicate AllBacked(bs: seq<Option<nat>>, pos: seq<nat>) {
    Increasing(pos) && Below(pos, |bs|) && forall k :: 0 <= k < |pos| ==> bs[pos[k]].Some?
  }

  function Owners(bs: seq<Option<nat>>, pos: seq<nat>): (own: seq<nat>)
    requires AllBacked(bs, pos)
    ensures |own| == |pos| && forall k :: 0 <= k < |pos| ==> own[k] == bs[pos[k]].value
  {
    seq(|pos|, k requires 0 <= k < |pos| => bs[pos[k]].value)
  }

  lemma OwnersAreDistinct<B>(cfg: Config<B>, s: State<B>, dets: seq<Detection>, plan: Plan, pos: seq<nat>)
    requires Fits(cfg, s, dets, plan) && AllBacked(Backings(cfg, s, dets, plan), pos)
    ensures Distinct(Owners(Backings(cfg, s, dets, plan), pos))
  {
    var own := Owners(Backings(cfg, s, dets, plan), pos);
    forall k, l | 0 <= k < l < |own| ensures own[k] != own[l] {
      BackingIsInjective(cfg, PredictAll(cfg, s.tracks), dets, plan, pos[k], pos[l]);
    }
  }

  lemma HighAreOwned<B>(cfg: Config<B>, s: State<B>, dets: seq<Detection>, plan: Plan, pos: seq<nat>, d: nat)
    requires Fits(cfg, s, dets, plan) && AllBacked(Backings(cfg, s, dets, plan), pos)
    requires forall i :: 0 <= i < |Backings(cfg, s, dets, plan)| && Backings(cfg, s, dets, plan)[i].Some? ==> i in pos
    requires d < |dets| && IsHigh(cfg)(dets[d])
    ensures d in Owners(Backings(cfg, s, dets, plan), pos)
  {
    var i := HighIsBacked(cfg, PredictAll(cfg, s.tracks), dets, plan, d);
    var bs := Backings(cfg, s, dets, plan);
    assert bs[i] == Some(d);
    var k :| 0 <= k < |pos| && pos[k] == i;
    assert Owners(bs, pos)[k] == d;
  }

  /** Each reported track is backed by its own distinct detection of this frame, every high-score
      detection backs exactly one of them, and low-score detections only continue tracks that
      were TRACKED: they neither create tracks nor revive LOST ones. New ids stand where their
      detection does, old ones where the filter moves them. */
  lemma ReportsAreBacked<B>(cfg: Config<B>, s: State<B>, dets: seq<Detection>, plan: Plan) returns (own: seq<nat>)
    requires StateOk(cfg, s) && Fits(cfg, s, dets, plan)
    ensures StateOk(cfg, UpdateWith(cfg, s, dets, plan))
    ensures var rs := Reports(cfg, UpdateWith(cfg, s, dets, plan));
            && |own| == |rs| && Distinct(own) && Below(own, |dets|)
            && (forall k :: 0 <= k < |rs| ==> Stands(cfg, s, rs[k], dets[own[k]]))
            && (forall k :: 0 <= k < |rs| ==> Placed(cfg, s, rs[k], dets[own[k]]))
            && (forall d :: 0 <= d < |dets| && IsHigh(cfg)(dets[d]) ==> d in own)
  {
    UpdateKeepsStateOk(cfg, s, dets, plan);
    var pos := TrackedPositions(cfg, s, dets, plan);
    own := Owners(Backings(cfg, s, dets, plan), pos);
    OwnersAreDistinct(cfg, s, dets, plan, pos);
    forall k | 0 <= k < |pos|
      ensures own[k] < |dets| && Stands(cfg, s, ReportOf(cfg, RosterOf(cfg, s, dets, plan)[pos[k]]), dets[own[k]])
    {
      PositionStands(cfg, s, dets, plan, pos[k]);
    }
    forall k | 0 <= k < |pos|
      ensures Placed(cfg, s, ReportOf(cfg, RosterOf(cfg, s, dets, plan)[pos[k]]), dets[own[k]])
    {
      PositionIsPlaced(cfg, s, dets, plan, pos[k]);
    }
    forall d | 0 <= d < |dets| && IsHigh(cfg)(dets[d]) ensures d in own {
      HighAreOwned(cfg, s, dets, plan, pos, d);
    }
  }

  lemma TrackedPositions<B>(cfg: Config<B>, s: State<B>, dets: seq<Detection>, plan: Plan) returns (pos: seq<nat>)
    requires StateOk(cfg, s) && Fits(cfg, s, dets, plan)
    ensures AllBacked(Backings(cfg, s, dets, plan), pos)
    ensures |pos| == |Reports(cfg, UpdateWith(cfg, s, dets, plan))|
    ensures forall k :: 0 <= k < |pos| ==>
              Reports(cfg, UpdateWith(cfg, s, dets, plan))[k] == ReportOf(cfg, RosterOf(cfg, s, dets, plan)[pos[k]])
    ensures forall i :: 0 <= i < |Backings(cfg, s, dets, plan)| && Backings(cfg, s, dets, plan)[i].Some? ==> i in pos
  {
    var roster := RosterOf(cfg, s, dets, plan);
    RosterOfIsOk(cfg, s, dets, plan);
    BackingsMarkTracked(cfg, s, dets, plan);
    pos := ReportPositions(cfg, roster, s.nextId + |roster| - |s.tracks|, s.frame + 1, Backings(cfg, s, dets, plan));
  }
}
