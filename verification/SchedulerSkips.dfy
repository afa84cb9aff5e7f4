/** When the scheduler skips a frame: exactly when one is published between its finding an older
    one stale and its asking the buffer for the sequence number. Such a frame is never delivered. */
module SchedulerSkips {
  import opened Options
  import opened FrameSlots
  import opened LatestFrames
  import opened ResultQueue
  import opened SchedulerSpec
  import opened SchedulerIntake
  import opened SchedulerRuns

  /** The frames of camera c that its turn counts as seen without having read them, from the last
      one read to the newest one seen. */
  predicate SkipsSome(i: Intake, after: Intake, c: CameraId)
    requires c in i.lastSeen && c in after.lastSeen && c in after.buffers
  {
    after.lastSeen[c] != i.lastSeen[c] && after.buffers[c].consumed < after.lastSeen[c]
  }

  /** The buffer at the moment of the read, and at the later access to its sequence number. */
  function AtRead(world: World, s: State): State {
    Flow(world, Flow(world, s))
  }

  function AtSequence(cfg: Settings, world: World, s: State, c: CameraId): State
    requires c in s.intake.buffers && c in s.intake.lastSeen
  {
    Flow(world, ReadAccesses(cfg, world, s, c).0)
  }

  /** The newest frame at the read is unseen and too old. */
  predicate FindsStale(cfg: Settings, world: World, s: State, c: CameraId)
    requires c in AtRead(world, s).intake.buffers && c in s.intake.lastSeen
  {
    var newest := AtRead(world, s).intake.buffers[c];
    newest.sequence > s.intake.lastSeen[c]
    && TooOld(newest.shot, Some(cfg.maxAgeMs), world(s.tick + 1).now)
  }

  /** What the accesses leave of camera c: its consumed number moves to the one read exactly when
      something was read or found stale. */
  lemma AccessesFind(cfg: Settings, world: World, s: State, c: CameraId)
    requires CameraOk(s.intake, c)
    ensures c in AtRead(world, s).intake.buffers && c in AtSequence(cfg, world, s, c).intake.buffers
    ensures var (d, packet, stale) := ReadAccesses(cfg, world, s, c);
            var (newest, later) := (AtRead(world, s).intake.buffers[c], AtSequence(cfg, world, s, c).intake.buffers[c]);
            && d.intake.lastSeen == s.intake.lastSeen && c in d.intake.buffers
            && stale == FindsStale(cfg, world, s, c) && newest.sequence <= later.sequence
            && d.intake.buffers[c].consumed == later.consumed
            && (newest.sequence > s.intake.lastSeen[c] ==> later.consumed == newest.sequence)
            && (newest.sequence <= s.intake.lastSeen[c] ==> packet.None? && later.consumed <= s.intake.lastSeen[c])
            && (packet.Some? ==> packet.value.frameId == newest.sequence)
  {
    var a := Flow(world, s);
    var b := Flow(world, a);
    var r := b.(intake := ReadStep(cfg, b.intake, c, world(a.tick).now).0);
    FlowGrows(world, s, c);
    FlowGrows(world, a, c);
    FlowGrows(world, r, c);
    FlowGrows(world, Flow(world, r), c);
  }

  /** A reading turn skips frames exactly when it finds the newest one stale and another has been
      published by the time it asks for the sequence number. Those skipped are the ones in between. */
  lemma SkipsExactly(cfg: Settings, world: World, s: State, c: CameraId)
    requires CameraOk(s.intake, c)
    ensures var after := ReadTurn(cfg, world, s, c).0.intake;
            var (read, later) := (AtRead(world, s).intake.buffers, AtSequence(cfg, world, s, c).intake.buffers);
            && c in after.lastSeen && c in after.buffers && c in read && c in later
            && (SkipsSome(s.intake, after, c)
                <==> FindsStale(cfg, world, s, c) && read[c].sequence < later[c].sequence)
            && (SkipsSome(s.intake, after, c) ==>
                  after.buffers[c].consumed == read[c].sequence && after.lastSeen[c] == later[c].sequence)
  {
    AccessesFind(cfg, world, s, c);
  }

  lemma TurnSkips(cfg: Settings, world: World, s: State)
    requires Ready(cfg, s.intake) && CameraOk(s.intake, cfg.order[s.intake.cursor])
    ensures var (c, after) := (cfg.order[s.intake.cursor], Turn(cfg, world, s).0.intake);
            && c in after.lastSeen && c in after.buffers
            && (SkipsSome(s.intake, after, c) ==>
                  after.entries == s.intake.entries && s.intake.lastSeen[c] < after.buffers[c].consumed)
  {
    var c := cfg.order[s.intake.cursor];
    var start := s.(intake := Advance(cfg, s.intake));
    var a := Flow(world, start);
    FlowKeepsCamera(world, start, c);
    if Due(cfg, a.intake, c, world(s.tick).now) {
      SkipsExactly(cfg, world, a, c);
      ReadTurnLeavesTheRest(cfg, world, a, c);
      ReadTurnOfCamera(cfg, world, a, c);
      FlowGrows(world, ReadTurn(cfg, world, a, c).0, c);
    }
  }

  // ----- over whole runs -----

  /** The state and the batch after k turns. */
  function Turns(step: Step, s: State, k: nat): (State, seq<FramePacket>)
    decreases k
  {
    if k == 0 then (s, [])
    else
      var (t, batch) := Turns(step, s, k - 1);
      var (next, packet) := step(t);
      (next, batch + Found(packet))
  }

  lemma {:induction false} TurnsKeep(step: Step, inv: State -> bool, s: State, k: nat)
    requires inv(s) && forall x: State :: inv(x) ==> inv(step(x).0)
    ensures inv(Turns(step, s, k).0)
    decreases k
  {
    if k > 0 {
      TurnsKeep(step, inv, s, k - 1);
    }
  }

  lemma {:induction false} BatchGrows(step: Step, s: State, j: nat, k: nat)
    requires j <= k
    ensures |Turns(step, s, j).1| <= |Turns(step, s, k).1|
    decreases k
  {
    if j < k {
      BatchGrows(step, s, j, k - 1);
    }
  }

  /** The rounds go through these states as long as there is room in the batch. */
  lemma {:induction false} RoundsContinue(step: Step, cameras: nat, size: nat, s: State, k: nat)
    requires k <= cameras && |Turns(step, s, k).1| < size
    ensures Rounds(step, cameras, size, s, 0, [])
            == Rounds(step, cameras, size, Turns(step, s, k).0, k, Turns(step, s, k).1)
    decreases k
  {
    if k > 0 {
      BatchGrows(step, s, k - 1, k);
      RoundsContinue(step, cameras, size, s, k - 1);
      RoundsStep(step, cameras, size, Turns(step, s, k - 1).0, k - 1, Turns(step, s, k - 1).1);
    }
  }

  /** The state before turn k of the batch that a call at s collects. */
  function BeforeTurn(cfg: Settings, world: World, s: State, k: nat): State {
    Turns(TurnOf(cfg, world), Flow(world, s), k).0
  }

  /** That call collects, and its batch gets as far as turn k. */
  predicate HasTurn(cfg: Settings, world: World, s: State, k: nat) {
    && s.breaker.openUntil <= world(s.tick).now
    && k < |cfg.order| && |Turns(TurnOf(cfg, world), Flow(world, s), k).1| < cfg.batchSize
  }

  lemma BeforeTurnIsOk(cfg: Settings, world: World, s: State, k: nat)
    requires Steady(world) && SystemOk(cfg, world, s) && HasTurn(cfg, world, s, k)
    ensures IntakeOk(cfg, BeforeTurn(cfg, world, s, k).intake)
  {
    WaitingKeepsSystem(cfg, world, s);
    TurnsAreSound(cfg, world);
    TurnsKeep(TurnOf(cfg, world), KeepsIntake(cfg), Flow(world, s), k);
  }

  lemma RestIsNewer(step: Step, inv: State -> bool, cameras: nat, size: nat, s: State, k: nat)
    requires inv(s) && forall x: State :: inv(x) ==> inv(step(x).0) && NewerPackets()(x, step(x).0, Found(step(x).1))
    requires k < cameras && |Turns(step, s, k).1| < size
    ensures OnlyNewer(step(Turns(step, s, k).0).0, Rounds(step, cameras, size, s, 0, []).0)
  {
    var (m, batch) := Turns(step, s, k);
    TurnsKeep(step, inv, s, k);
    RoundsContinue(step, cameras, size, s, k);
    RoundsStep(step, cameras, size, m, k, batch);
    RoundsAreNewer(step, inv, cameras, size, step(m).0, k + 1, batch + Found(step(m).1));
  }

  lemma TurnThenNewer(cfg: Settings, world: World, s: State, k: nat, outcome: Outcome)
    requires Steady(world) && SystemOk(cfg, world, s) && HasTurn(cfg, world, s, k)
    ensures OnlyNewer(TurnOf(cfg, world)(BeforeTurn(cfg, world, s, k)).0, RunOnce(cfg, world, s, outcome).0)
  {
    WaitingKeepsSystem(cfg, world, s);
    TurnsAreNewer(cfg, world);
    RestIsNewer(TurnOf(cfg, world), KeepsIntake(cfg), |cfg.order|, cfg.batchSize, Flow(world, s), k);
    NothingMoreIsCollected(cfg, world, s, outcome);
    NewerThenSame(TurnOf(cfg, world)(BeforeTurn(cfg, world, s, k)).0, Collect(cfg, world, Flow(world, s)).0,
                  RunOnce(cfg, world, s, outcome).0);
  }

  predicate Collected(i: Intake, c: CameraId, id: nat) {
    exists k :: 0 <= k < |i.entries| && i.entries[k].packet.cameraId == c && i.entries[k].packet.frameId == id
  }

  lemma StaysSkipped(cfg: Settings, m: State, t: State, late: State, c: CameraId, id: nat)
    requires EntriesOk(cfg, m.intake) && c in m.intake.lastSeen && c in t.intake.lastSeen
    requires t.intake.entries == m.intake.entries && m.intake.lastSeen[c] < id <= t.intake.lastSeen[c]
    requires OnlyNewer(t, late)
    ensures !Collected(late.intake, c, id)
  {
    forall k | 0 <= k < |late.intake.entries| && late.intake.entries[k].packet.cameraId == c
      ensures late.intake.entries[k].packet.frameId != id
    {
      if k < |m.intake.entries| {
        assert late.intake.entries[k] == m.intake.entries[k];
        assert Known(cfg, m.intake, m.intake.entries[k]);
      }
    }
  }

  /** A frame skipped at any turn of any call is never collected, in that call or in any later one:
      neither delivered nor part of a failed batch. */
  lemma SkippedIsNeverCollected(cfg: Settings, world: World, s: State, k: nat, outcome: Outcome, outcomes: seq<Outcome>,
                                id: nat)
    requires Steady(world) && SystemOk(cfg, world, s) && HasTurn(cfg, world, s, k)
    requires Ready(cfg, BeforeTurn(cfg, world, s, k).intake)
    requires var m := BeforeTurn(cfg, world, s, k);
             var (c, after) := (cfg.order[m.intake.cursor], Turn(cfg, world, m).0.intake);
             && c in m.intake.lastSeen && c in after.lastSeen && c in after.buffers
             && SkipsSome(m.intake, after, c) && after.buffers[c].consumed < id <= after.lastSeen[c]
    ensures var late := Run(cfg, world, RunOnce(cfg, world, s, outcome).0, outcomes);
            !Collected(late.intake, cfg.order[BeforeTurn(cfg, world, s, k).intake.cursor], id)
  {
    var m := BeforeTurn(cfg, world, s, k);
    var (c, t, u) := (cfg.order[m.intake.cursor], Turn(cfg, world, m).0, RunOnce(cfg, world, s, outcome).0);
    BeforeTurnIsOk(cfg, world, s, k);
    TurnSkips(cfg, world, m);
    TurnThenNewer(cfg, world, s, k, outcome);
    RunOnceKeepsSystem(cfg, world, s, outcome);
    OnlyNewFramesAreCollected(cfg, world, u, outcomes);
    NewerComposes(t, u, Run(cfg, world, u, outcomes));
    StaysSkipped(cfg, m, t, Run(cfg, world, u, outcomes), c, id);
  }

  // ----- it can happen -----

  /** One camera publishes twice: before the scheduler's read, and before its access to the
      sequence number. The first frame is too old when it is read. */
  predicate Races(world: World, c: CameraId, first: Shot, second: Shot, start: nat, maxAgeMs: real) {
    && world(start).shots == [] && world(start + 1).shots == [(c, first)]
    && world(start + 2).shots == [] && world(start + 3).shots == [(c, second)]
    && TooOld(first, Some(maxAgeMs), world(start + 1).now)
  }

  lemma OneShot(buffers: map<CameraId, Latest>, c: CameraId, shot: Shot)
    requires c in buffers
    ensures PublishAll(buffers, [(c, shot)]) == buffers[c := Published(buffers[c], shot)]
  {
    assert [(c, shot)][1..] == [];
  }

  lemma RaceAtRead(cfg: Settings, world: World, s: State, c: CameraId, first: Shot, second: Shot)
    requires CameraOk(s.intake, c) && Races(world, c, first, second, s.tick, cfg.maxAgeMs)
    ensures var (read, later) := (AtRead(world, s).intake.buffers, AtSequence(cfg, world, s, c).intake.buffers);
            && c in read && c in later && read[c].sequence == s.intake.buffers[c].sequence + 1 && read[c].shot == first
            && later[c].sequence == read[c].sequence + 1
  {
    var d := ReadAccesses(cfg, world, s, c).0;
    OneShot(Flow(world, s).intake.buffers, c, first);
    OneShot(d.intake.buffers, c, second);
  }

  lemma RaceSkips(cfg: Settings, world: World, s: State, c: CameraId, first: Shot, second: Shot)
    requires CameraOk(s.intake, c) && Races(world, c, first, second, s.tick, cfg.maxAgeMs)
    requires s.intake.buffers[c].sequence == s.intake.lastSeen[c]
    ensures var (n, after) := (s.intake.lastSeen[c], ReadTurn(cfg, world, s, c).0.intake);
            && c in after.lastSeen && c in after.buffers && SkipsSome(s.intake, after, c)
            && after.buffers[c].consumed == n + 1 && after.lastSeen[c] == n + 2
  {
    RaceAtRead(cfg, world, s, c, first, second);
    SkipsExactly(cfg, world, s, c);
  }

  lemma TurnRaces(cfg: Settings, world: World, s: State, first: Shot, second: Shot)
    requires Ready(cfg, s.intake) && CameraOk(s.intake, cfg.order[s.intake.cursor])
    requires var c := cfg.order[s.intake.cursor];
             && IntervalOf(cfg, c) == 0 && s.intake.buffers[c].sequence == s.intake.lastSeen[c]
             && world(s.tick).shots == [] && Races(world, c, first, second, s.tick + 1, cfg.maxAgeMs)
    ensures var c := cfg.order[s.intake.cursor];
            var (n, after) := (s.intake.lastSeen[c], Turn(cfg, world, s).0.intake);
            && c in after.lastSeen && c in after.buffers && SkipsSome(s.intake, after, c)
            && after.buffers[c].consumed == n + 1 && after.lastSeen[c] == n + 2
  {
    var c := cfg.order[s.intake.cursor];
    var start := s.(intake := Advance(cfg, s.intake));
    var a := Flow(world, start);
    FlowKeepsCamera(world, start, c);
    RaceSkips(cfg, world, a, c, first, second);
    ReadTurnOfCamera(cfg, world, a, c);
  }

  /** A world in which this happens at the first turn of the first call, at access `start`. */
  lemma RaceWorld(c: CameraId, start: nat) returns (world: World, first: Shot, second: Shot)
    ensures Steady(world) && Races(world, c, first, second, start, 500.0)
    ensures forall n: nat :: world(n).now == 2000000000 && (n < start ==> world(n).shots == [])
  {
    var (a, b) := (Shot(Frame(0, 0, []), 1, 1), Shot(Frame(0, 0, []), 2, 2000000000));
    world := (n: nat) =>
      Moment(2000000000, if n == start + 1 then [(c, a)] else if n == start + 3 then [(c, b)] else [], 0);
    first, second := a, b;
  }

  function OneCamera(c: CameraId): Settings {
    Settings([c], map[], 1, 500.0, 1000.0, 3, 10000000000, 4)
  }

  /** So a scheduler of one camera, in its first call, skips the second frame that camera ever
      publishes: it takes note of frame 2 having read only frame 1. */
  lemma FrameCanBeSkipped(c: CameraId) returns (cfg: Settings, world: World, s: State)
    ensures cfg == OneCamera(c) && Steady(world) && Initial(cfg, s) && HasTurn(cfg, world, s, 0)
    ensures var m := BeforeTurn(cfg, world, s, 0);
            && Ready(cfg, m.intake) && cfg.order[m.intake.cursor] == c && c in m.intake.lastSeen
            && var after := Turn(cfg, world, m).0.intake;
            && c in after.lastSeen && c in after.buffers && SkipsSome(m.intake, after, c)
            && after.buffers[c].consumed == 1 && after.lastSeen[c] == 2
  {
    var first, second;
    world, first, second := RaceWorld(c, 2);
    cfg := OneCamera(c);
    s := Begin(map[c := Latest(0, 0, 0, 0, first)]);
    BeginIsInitial(cfg, s.intake.buffers);
    InitialIsOk(cfg, world, s);
    WaitingKeepsSystem(cfg, world, s);
    TurnRaces(cfg, world, Flow(world, s), first, second);
  }
}
