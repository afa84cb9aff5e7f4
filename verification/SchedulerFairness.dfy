/** A camera that always has a fresh frame and is due is served within a bounded number of
    collections. */
module SchedulerFairness {
  import opened Options
  import opened Lists
  import opened LatestFrames
  import opened SchedulerSpec
  import opened SchedulerIntake
  import opened SchedulerRuns

  /** The last shot of camera c in a moment's list. */
  function LastShotOf(shots: seq<(CameraId, Shot)>, c: CameraId): Option<Shot>
    decreases |shots|
  {
    if shots == [] then None
    else
      var later := LastShotOf(shots[1..], c);
      if later.Some? then later else if shots[0].0 == c then Some(shots[0].1) else None
  }

  lemma {:induction false} LastShotIsNewest(buffers: map<CameraId, Latest>, shots: seq<(CameraId, Shot)>, c: CameraId)
    requires c in buffers && LastShotOf(shots, c).Some?
    ensures PublishAll(buffers, shots)[c].shot == LastShotOf(shots, c).value
    ensures PublishAll(buffers, shots)[c].sequence > buffers[c].sequence
    decreases |shots|
  {
    var (x, shot) := shots[0];
    var next := if x in buffers then buffers[x := Published(buffers[x], shot)] else buffers;
    if LastShotOf(shots[1..], c).Some? {
      LastShotIsNewest(next, shots[1..], c);
    } else {
      NoShotChangesNothing(next, shots[1..], c);
    }
  }

  lemma {:induction false} NoShotChangesNothing(buffers: map<CameraId, Latest>, shots: seq<(CameraId, Shot)>,
                                                c: CameraId)
    requires c in buffers && LastShotOf(shots, c).None?
    ensures PublishAll(buffers, shots)[c] == buffers[c]
    decreases |shots|
  {
    if shots != [] {
      var (x, shot) := shots[0];
      NoShotChangesNothing(if x in buffers then buffers[x := Published(buffers[x], shot)] else buffers, shots[1..], c);
    }
  }

  /** Before every access camera c publishes a frame that is fresh at it. */
  ghost predicate Feeds(world: World, c: CameraId, maxAgeMs: real) {
    forall n: nat :: FreshAt(world(n), c, maxAgeMs)
  }

  predicate FreshAt(m: Moment, c: CameraId, maxAgeMs: real) {
    LastShotOf(m.shots, c).Some? && !TooOld(LastShotOf(m.shots, c).value, Some(maxAgeMs), m.now)
  }

  /** After any access the newest frame of a fed camera is new and fresh. */
  lemma FedIsFresh(world: World, s: State, c: CameraId, maxAgeMs: real)
    requires c in s.intake.buffers && Feeds(world, c, maxAgeMs)
    ensures c in Flow(world, s).intake.buffers
    ensures var newest := Flow(world, s).intake.buffers[c];
            newest.sequence > s.intake.buffers[c].sequence && !TooOld(newest.shot, Some(maxAgeMs), world(s.tick).now)
  {
    assert FreshAt(world(s.tick), c, maxAgeMs);
    LastShotIsNewest(s.intake.buffers, world(s.tick).shots, c);
  }

  /** The camera may be scheduled again. */
  predicate IsDue(cfg: Settings, world: World, s: State, c: CameraId) {
    c in s.intake.lastScheduled && HasRested(cfg, s.intake, c, world(s.tick).now)
  }

  lemma FedTurnCollects(cfg: Settings, world: World, s: State)
    requires Ready(cfg, s.intake) && CameraOk(s.intake, cfg.order[s.intake.cursor])
    requires var c := cfg.order[s.intake.cursor]; IsDue(cfg, world, s, c) && Feeds(world, c, cfg.maxAgeMs)
    ensures Turn(cfg, world, s).1.Some?
  {
    var c := cfg.order[s.intake.cursor];
    var start := s.(intake := Advance(cfg, s.intake));
    FedIsFresh(world, start, c, cfg.maxAgeMs);
    FedIsFresh(world, Flow(world, start), c, cfg.maxAgeMs);
    FedIsFresh(world, Flow(world, Flow(world, start)), c, cfg.maxAgeMs);
    DueAndFreshIsCollected(cfg, world, s);
  }

  // ----- turns and frames of one camera -----

  function IsCamera(c: CameraId): CameraId -> bool {
    (x: CameraId) => x == c
  }

  function IsFrom(c: CameraId): Entry -> bool {
    (e: Entry) => e.packet.cameraId == c
  }

  /** By how many frames collected camera c is ahead of its turns. */
  function Lead(i: Intake, c: CameraId): int {
    Count(i.entries, IsFrom(c)) - Count(i.turns, IsCamera(c))
  }

  lemma CountOne<T>(xs: seq<T>, x: T, p: T -> bool)
    ensures Count(xs + [x], p) == Count(xs, p) + if p(x) then 1 else 0
  {
    assert (xs + [x])[..|xs|] == xs;
  }

  /** Camera c has had more than n frames collected, or it is due and has had one for each of its
      turns. */
  predicate IsServed(cfg: Settings, world: World, s: State, c: CameraId, n: nat, lead: int) {
    || Count(s.intake.entries, IsFrom(c)) > n
    || (IsDue(cfg, world, s, c) && Lead(s.intake, c) >= lead)
  }

  /** A camera stays due until it is scheduled. */
  lemma StaysDue(cfg: Settings, world: World, s: State, t: State, c: CameraId)
    requires Steady(world) && IsDue(cfg, world, s, c) && s.tick <= t.tick
    requires c in t.intake.lastScheduled && t.intake.lastScheduled[c] == s.intake.lastScheduled[c]
    ensures IsDue(cfg, world, t, c)
  {
  }

  /** What a turn of camera x does to the counts of camera c. */
  lemma TurnCounts(cfg: Settings, i: Intake, after: Intake, x: CameraId, packet: Option<FramePacket>, c: CameraId)
    requires x in i.lastSeen && x in i.lastScheduled && Collects(cfg, i, after, x, packet)
    requires after.turns == i.turns + [x]
    ensures Count(after.entries, IsFrom(c)) == Count(i.entries, IsFrom(c)) + if packet.Some? && x == c then 1 else 0
    ensures Lead(after, c) == Lead(i, c) + if x != c then 0 else if packet.Some? then 0 else -1
  {
    CountOne(i.turns, x, IsCamera(c));
    if packet.Some? {
      CountOne(i.entries, after.entries[|i.entries|], IsFrom(c));
    }
  }

  lemma ServedOnwards(cfg: Settings, world: World, s: State, t: State, x: CameraId, packet: Option<FramePacket>,
                      c: CameraId, n: nat, lead: int)
    requires Steady(world) && s.tick <= t.tick && t.intake.turns == s.intake.turns + [x]
    requires x in s.intake.lastSeen && x in s.intake.lastScheduled && Collects(cfg, s.intake, t.intake, x, packet)
    requires x == c && IsDue(cfg, world, s, c) ==> packet.Some?
    requires n <= Count(s.intake.entries, IsFrom(c)) && IsServed(cfg, world, s, c, n, lead)
    ensures n <= Count(t.intake.entries, IsFrom(c)) && IsServed(cfg, world, t, c, n, lead)
  {
    TurnCounts(cfg, s.intake, t.intake, x, packet, c);
    if x != c && IsDue(cfg, world, s, c) {
      StaysDue(cfg, world, s, t, c);
    }
  }

  lemma FedTurnServes(cfg: Settings, world: World, s: State, c: CameraId, n: nat, lead: int)
    requires Steady(world) && cfg.order != [] && IntakeOk(cfg, s.intake)
    requires Feeds(world, c, cfg.maxAgeMs) && n <= Count(s.intake.entries, IsFrom(c))
    requires IsServed(cfg, world, s, c, n, lead)
    ensures IsServed(cfg, world, Turn(cfg, world, s).0, c, n, lead)
    ensures n <= Count(Turn(cfg, world, s).0.intake.entries, IsFrom(c))
  {
    var x := cfg.order[s.intake.cursor];
    var (t, packet) := Turn(cfg, world, s);
    TurnCollects(cfg, world, s);
    if x == c && IsDue(cfg, world, s, c) {
      FedTurnCollects(cfg, world, s);
    }
    ServedOnwards(cfg, world, s, t, x, packet, c, n, lead);
  }

  function Serves(cfg: Settings, world: World, c: CameraId, n: nat, lead: int): State -> bool {
    (s: State) =>
      && cfg.order != [] && IntakeOk(cfg, s.intake)
      && n <= Count(s.intake.entries, IsFrom(c)) && IsServed(cfg, world, s, c, n, lead)
  }

  lemma CollectServes(cfg: Settings, world: World, s: State, c: CameraId, n: nat, lead: int)
    requires Steady(world) && Feeds(world, c, cfg.maxAgeMs) && Serves(cfg, world, c, n, lead)(s)
    ensures Serves(cfg, world, c, n, lead)(Collect(cfg, world, s).0)
  {
    var inv := Serves(cfg, world, c, n, lead);
    forall x: State | inv(x) ensures inv(TurnOf(cfg, world)(x).0) {
      TurnKeepsIntake(cfg, world, x);
      FedTurnServes(cfg, world, x, c, n, lead);
    }
    RoundsKeep(TurnOf(cfg, world), inv, |cfg.order|, cfg.batchSize, s, 0, []);
  }

  lemma SameRecordServes(cfg: Settings, world: World, s: State, t: State, c: CameraId, n: nat, lead: int)
    requires Steady(world) && SameRecord(s, t) && IsServed(cfg, world, s, c, n, lead)
    ensures IsServed(cfg, world, t, c, n, lead)
  {
    if Count(s.intake.entries, IsFrom(c)) <= n {
      StaysDue(cfg, world, s, t, c);
    }
  }

  lemma RunOnceServes(cfg: Settings, world: World, s: State, outcome: Outcome, c: CameraId, n: nat, lead: int)
    requires Steady(world) && SystemOk(cfg, world, s) && Feeds(world, c, cfg.maxAgeMs)
    requires Serves(cfg, world, c, n, lead)(s)
    ensures Serves(cfg, world, c, n, lead)(RunOnce(cfg, world, s, outcome).0)
  {
    var (a, u) := (Flow(world, s), RunOnce(cfg, world, s, outcome).0);
    WaitingKeepsSystem(cfg, world, s);
    RunOnceKeepsSystem(cfg, world, s, outcome);
    SameRecordServes(cfg, world, s, a, c, n, lead);
    if s.breaker.openUntil <= world(s.tick).now {
      CollectServes(cfg, world, a, c, n, lead);
      NothingMoreIsCollected(cfg, world, s, outcome);
      SameRecordServes(cfg, world, Collect(cfg, world, a).0, u, c, n, lead);
    }
  }

  function KeepsServing(cfg: Settings, world: World, c: CameraId, n: nat, lead: int): State -> bool {
    (s: State) => SystemOk(cfg, world, s) && Serves(cfg, world, c, n, lead)(s)
  }

  lemma RunServes(cfg: Settings, world: World, s: State, outcomes: seq<Outcome>, c: CameraId, n: nat, lead: int)
    requires Steady(world) && SystemOk(cfg, world, s) && Feeds(world, c, cfg.maxAgeMs)
    requires Serves(cfg, world, c, n, lead)(s)
    ensures Serves(cfg, world, c, n, lead)(Run(cfg, world, s, outcomes))
  {
    var inv := KeepsServing(cfg, world, c, n, lead);
    forall x: State, o: Outcome | inv(x) ensures inv(CallOf(cfg, world)(x, o)) {
      RunOnceKeepsSystem(cfg, world, x, o);
      RunOnceServes(cfg, world, x, o, c, n, lead);
    }
    CallsKeep(CallOf(cfg, world), inv, s, outcomes);
  }

  /** Turns only get longer: they are determined by their number. */
  lemma TurnsExtend(cfg: Settings, i: Intake, after: Intake)
    requires cfg.order != [] && TurnsOk(cfg, i) && TurnsOk(cfg, after) && |i.turns| <= |after.turns|
    ensures i.turns <= after.turns
  {
  }

  lemma MoreOf<T>(xs: seq<T>, ys: seq<T>, p: T -> bool, x: T)
    requires xs <= ys && x in ys[|xs|..] && p(x)
    ensures Count(ys, p) > Count(xs, p)
  {
    var rest := ys[|xs|..];
    var i :| 0 <= i < |rest| && rest[i] == x;
    FoundIsCounted(rest, i, p);
    CountAppends(xs, rest, p);
    assert xs + rest == ys;
  }

  lemma SomeMore<T>(xs: seq<T>, ys: seq<T>, p: T -> bool) returns (k: nat)
    requires xs <= ys && Count(ys, p) > Count(xs, p)
    ensures |xs| <= k < |ys| && p(ys[k])
  {
    var rest := ys[|xs|..];
    CountAppends(xs, rest, p);
    assert xs + rest == ys;
    var i := CountedIsThere(rest, p);
    k := |xs| + i;
  }

  /** A camera that is due, because it has no interval or was last scheduled that long ago, and that
      publishes a fresh frame before every access, gets a frame into a batch within
      ceil(n / min(n, B)) collections, wherever the run starts. */
  lemma FedCameraIsServed(cfg: Settings, world: World, s: State, outcomes: seq<Outcome>, k: nat) returns (e: nat)
    requires Steady(world) && SystemOk(cfg, world, s) && k < |cfg.order| && cfg.batchSize > 0
    requires Collections(cfg, world, s, outcomes) >= CeilDiv(|cfg.order|, Smaller(|cfg.order|, cfg.batchSize))
    requires IsDue(cfg, world, s, cfg.order[k]) && Feeds(world, cfg.order[k], cfg.maxAgeMs)
    ensures var entries := Run(cfg, world, s, outcomes).intake.entries;
            |s.intake.entries| <= e < |entries| && entries[e].packet.cameraId == cfg.order[k]
  {
    var (c, t) := (cfg.order[k], Run(cfg, world, s, outcomes));
    RunKeepsSystem(cfg, world, s, outcomes);
    NobodyStarves(cfg, world, s, outcomes, k);
    TurnsExtend(cfg, s.intake, t.intake);
    MoreOf(s.intake.turns, t.intake.turns, IsCamera(c), c);
    RunServes(cfg, world, s, outcomes, c, Count(s.intake.entries, IsFrom(c)), Lead(s.intake, c));
    OnlyNewFramesAreCollected(cfg, world, s, outcomes);
    e := SomeMore(s.intake.entries, t.intake.entries, IsFrom(c));
  }
}
