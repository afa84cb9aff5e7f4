/** What the scheduler keeps of every camera, turn by turn: the account of its frames, the order
    of its packets, and the distance between them. */
module SchedulerIntake {
  import opened Options
  import opened LatestFrames
  import opened RateLimits
  import opened SchedulerSpec

  /** How many of the frames collected came from c. */
  function Delivered(entries: seq<Entry>, c: CameraId): nat
    decreases |entries|
  {
    if entries == [] then 0
    else
      Delivered(entries[..|entries| - 1], c) + if entries[|entries| - 1].packet.cameraId == c then 1 else 0
  }

  /** The published frames that are neither overwritten, found stale, nor pending. */
  function Unaccounted(b: Latest): int {
    b.sequence - b.dropped - b.stale - Pending(b)
  }

  /** Every frame of camera c is accounted for, and nothing taken is still unseen. */
  predicate CameraOk(i: Intake, c: CameraId) {
    && c in i.buffers && c in i.lastSeen && c in i.lastScheduled
    && i.buffers[c].consumed <= i.lastSeen[c] <= i.buffers[c].sequence
    && Balanced(i.buffers[c], Delivered(i.entries, c))
  }

  /** What publishing does to a buffer, as far as the account goes. */
  predicate Grown(b: Latest, after: Latest) {
    && after.consumed == b.consumed && after.stale == b.stale && b.sequence <= after.sequence
    && (b.consumed <= b.sequence ==> Unaccounted(after) == Unaccounted(b))
  }

  lemma {:induction false} PublishAllGrows(buffers: map<CameraId, Latest>, shots: seq<(CameraId, Shot)>, c: CameraId)
    requires c in buffers
    ensures Grown(buffers[c], PublishAll(buffers, shots)[c])
    decreases |shots|
  {
    if shots != [] {
      var (x, shot) := shots[0];
      PublishAllGrows(if x in buffers then buffers[x := Published(buffers[x], shot)] else buffers, shots[1..], c);
    }
  }

  lemma FlowGrows(world: World, s: State, c: CameraId)
    requires c in s.intake.buffers
    ensures c in Flow(world, s).intake.buffers
    ensures Grown(s.intake.buffers[c], Flow(world, s).intake.buffers[c])
  {
    PublishAllGrows(s.intake.buffers, world(s.tick).shots, c);
  }

  lemma FlowKeepsCamera(world: World, s: State, c: CameraId)
    requires CameraOk(s.intake, c)
    ensures CameraOk(Flow(world, s).intake, c)
  {
    FlowGrows(world, s, c);
  }

  /** Camera c after its frame was read and before the scheduler notes what it has seen. */
  predicate JustRead(i: Intake, after: Intake, c: CameraId, packet: Option<FramePacket>, stale: bool)
    requires CameraOk(i, c)
  {
    && after.lastSeen == i.lastSeen && after.entries == i.entries && after.lastScheduled == i.lastScheduled
    && c in after.buffers
    && var b := after.buffers[c];
    && b.consumed <= b.sequence && i.lastSeen[c] <= b.sequence
    && Balanced(b, Delivered(i.entries, c) + if packet.Some? then 1 else 0)
    && (packet.Some? ==> !stale && packet.value.cameraId == c && i.lastSeen[c] < packet.value.frameId == b.consumed)
    && (packet.None? && !stale ==> b.consumed <= i.lastSeen[c])
  }

  lemma ReadAccessesOfCamera(cfg: Settings, world: World, s: State, c: CameraId)
    requires CameraOk(s.intake, c)
    ensures var (d, packet, stale) := ReadAccesses(cfg, world, s, c);
            JustRead(s.intake, d.intake, c, packet, stale)
  {
    var a := Flow(world, s);
    var b := Flow(world, a);
    var (read, packet) := ReadStep(cfg, b.intake, c, world(a.tick).now);
    var r := b.(intake := read);
    FlowGrows(world, s, c);
    FlowGrows(world, a, c);
    FlowGrows(world, r, c);
  }

  /** Reading camera c's newest frame, whatever is published meanwhile. */
  lemma ReadTurnOfCamera(cfg: Settings, world: World, s: State, c: CameraId)
    requires CameraOk(s.intake, c)
    ensures var (t, packet) := ReadTurn(cfg, world, s, c);
            if packet.Some? then JustRead(s.intake, t.intake, c, packet, false)
            else CameraOk(t.intake, c)
  {
    ReadAccessesOfCamera(cfg, world, s, c);
    FlowGrows(world, ReadAccesses(cfg, world, s, c).0, c);
  }

  lemma ReadTurnOfOthers(cfg: Settings, world: World, s: State, c: CameraId, x: CameraId)
    requires c in s.intake.buffers && c in s.intake.lastSeen && x != c && CameraOk(s.intake, x)
    ensures CameraOk(ReadTurn(cfg, world, s, c).0.intake, x)
  {
    var a := Flow(world, s);
    var b := Flow(world, a);
    var (read, packet) := ReadStep(cfg, b.intake, c, world(a.tick).now);
    var r := b.(intake := read);
    FlowKeepsCamera(world, s, x);
    FlowKeepsCamera(world, a, x);
    FlowKeepsCamera(world, r, x);
    FlowKeepsCamera(world, Flow(world, r), x);
  }

  lemma TurnKeepsOwnCamera(cfg: Settings, world: World, s: State)
    requires Ready(cfg, s.intake) && CameraOk(s.intake, cfg.order[s.intake.cursor])
    ensures CameraOk(Turn(cfg, world, s).0.intake, cfg.order[s.intake.cursor])
  {
    var c := cfg.order[s.intake.cursor];
    var start := s.(intake := Advance(cfg, s.intake));
    var a := Flow(world, start);
    FlowKeepsCamera(world, start, c);
    if Due(cfg, a.intake, c, world(s.tick).now) {
      ReadTurnOfCamera(cfg, world, a, c);
      FlowGrows(world, ReadTurn(cfg, world, a, c).0, c);
    }
  }

  lemma TurnKeepsOtherCamera(cfg: Settings, world: World, s: State, x: CameraId)
    requires Ready(cfg, s.intake) && cfg.order[s.intake.cursor] != x && CameraOk(s.intake, x)
    ensures CameraOk(Turn(cfg, world, s).0.intake, x)
  {
    var c := cfg.order[s.intake.cursor];
    var start := s.(intake := Advance(cfg, s.intake));
    var a := Flow(world, start);
    FlowKeepsCamera(world, start, x);
    if Due(cfg, a.intake, c, world(s.tick).now) {
      ReadTurnOfOthers(cfg, world, a, c, x);
      FlowKeepsCamera(world, ReadTurn(cfg, world, a, c).0, x);
    }
  }

  lemma TurnKeepsCamera(cfg: Settings, world: World, s: State, x: CameraId)
    requires Ready(cfg, s.intake) && CameraOk(s.intake, cfg.order[s.intake.cursor]) && CameraOk(s.intake, x)
    ensures CameraOk(Turn(cfg, world, s).0.intake, x)
  {
    if x == cfg.order[s.intake.cursor] {
      TurnKeepsOwnCamera(cfg, world, s);
    } else {
      TurnKeepsOtherCamera(cfg, world, s, x);
    }
  }

  // ----- the packets collected -----

  predicate Known(cfg: Settings, i: Intake, e: Entry) {
    var c := e.packet.cameraId;
    && c in i.lastSeen && c in i.lastScheduled && e.packet.frameId <= i.lastSeen[c]
    && (IntervalOf(cfg, c) > 0 ==> e.at <= i.lastScheduled[c])
  }

  /** A later packet of the same camera is newer, and at least the camera's interval apart. */
  predicate Follows(cfg: Settings, e: Entry, f: Entry) {
    var c := e.packet.cameraId;
    c == f.packet.cameraId ==>
      e.packet.frameId < f.packet.frameId && (IntervalOf(cfg, c) > 0 ==> f.at - e.at >= IntervalOf(cfg, c))
  }

  predicate EntriesOk(cfg: Settings, i: Intake) {
    && (forall k :: 0 <= k < |i.entries| ==> Known(cfg, i, i.entries[k]))
    && (forall j, k :: 0 <= j < k < |i.entries| ==> Follows(cfg, i.entries[j], i.entries[k]))
  }

  lemma ReadTurnLeavesTheRest(cfg: Settings, world: World, s: State, c: CameraId)
    requires CameraOk(s.intake, c)
    ensures var t := ReadTurn(cfg, world, s, c).0;
            && t.tick > s.tick && t.intake.entries == s.intake.entries && t.intake.turns == s.intake.turns
            && t.intake.lastScheduled == s.intake.lastScheduled && t.intake.cursor == s.intake.cursor
            && c in t.intake.lastSeen && s.intake.lastSeen[c] <= t.intake.lastSeen[c]
            && t.intake.lastSeen == s.intake.lastSeen[c := t.intake.lastSeen[c]]
  {
    var a := Flow(world, s);
    var b := Flow(world, a);
    var (read, packet) := ReadStep(cfg, b.intake, c, world(a.tick).now);
    var r := b.(intake := read);
    FlowGrows(world, s, c);
    FlowGrows(world, a, c);
    FlowGrows(world, r, c);
    FlowGrows(world, Flow(world, r), c);
  }

  /** A turn of camera c collects at most one packet, newer than any of its camera and due. */
  predicate Collects(cfg: Settings, i: Intake, after: Intake, c: CameraId, packet: Option<FramePacket>)
    requires c in i.lastSeen && c in i.lastScheduled
  {
    && c in after.lastSeen && i.lastSeen[c] <= after.lastSeen[c]
    && after.lastSeen == i.lastSeen[c := after.lastSeen[c]]
    && if packet.None? then after.entries == i.entries && after.lastScheduled == i.lastScheduled
       else
         && |after.entries| == |i.entries| + 1
         && var e := after.entries[|i.entries|];
         && after.entries == i.entries + [e] && e.packet == packet.value && packet.value.cameraId == c
         && i.lastSeen[c] < packet.value.frameId == after.lastSeen[c]
         && after.lastScheduled == i.lastScheduled[c := e.at]
         && (IntervalOf(cfg, c) > 0 ==> e.at - i.lastScheduled[c] >= IntervalOf(cfg, c))
  }

  lemma CollectingKeepsEntries(cfg: Settings, i: Intake, after: Intake, c: CameraId, packet: Option<FramePacket>)
    requires c in i.lastSeen && c in i.lastScheduled && Collects(cfg, i, after, c, packet) && EntriesOk(cfg, i)
    ensures EntriesOk(cfg, after)
  {
    forall k | 0 <= k < |i.entries| ensures Known(cfg, after, i.entries[k]) {
      assert Known(cfg, i, i.entries[k]);
    }
    if packet.Some? {
      var e := after.entries[|i.entries|];
      forall j | 0 <= j < |i.entries| ensures Follows(cfg, i.entries[j], e) {
        assert Known(cfg, i, i.entries[j]);
      }
    }
  }

  lemma EnteringCollects(cfg: Settings, i: Intake, b: Intake, c: CameraId, packet: FramePacket, now: int)
    requires c in i.lastSeen && c in i.lastScheduled && c in b.lastSeen
    requires b.entries == i.entries && b.lastScheduled == i.lastScheduled && b.lastSeen == i.lastSeen
    requires packet.cameraId == c && i.lastSeen[c] < packet.frameId
    requires IntervalOf(cfg, c) > 0 ==> now - i.lastScheduled[c] >= IntervalOf(cfg, c)
    ensures Collects(cfg, i, Enter(b, c, packet, now), c, Some(packet))
  {
  }

  lemma ScheduleCollects(cfg: Settings, world: World, s: State, c: CameraId, due: int)
    requires Steady(world) && CameraOk(s.intake, c) && due <= world(s.tick).now
    requires IntervalOf(cfg, c) > 0 ==> due - s.intake.lastScheduled[c] >= IntervalOf(cfg, c)
    ensures var (t, packet) := ScheduleTurn(cfg, world, s, c);
            && t.tick > s.tick && t.intake.turns == s.intake.turns && t.intake.cursor == s.intake.cursor
            && Collects(cfg, s.intake, t.intake, c, packet)
            && (packet.Some? ==> due <= t.intake.entries[|s.intake.entries|].at <= world(t.tick).now)
  {
    var (b, packet) := ReadTurn(cfg, world, s, c);
    ReadTurnOfCamera(cfg, world, s, c);
    ReadTurnLeavesTheRest(cfg, world, s, c);
    if packet.Some? {
      EnteringCollects(cfg, s.intake, Flow(world, b).intake, c, packet.value, world(b.tick).now);
    }
  }

  lemma TurnCollects(cfg: Settings, world: World, s: State)
    requires Steady(world) && Ready(cfg, s.intake) && CameraOk(s.intake, cfg.order[s.intake.cursor])
    ensures var (t, packet) := Turn(cfg, world, s);
            var (c, i, after) := (cfg.order[s.intake.cursor], s.intake, t.intake);
            && t.tick > s.tick && after.turns == i.turns + [c] && after.cursor == (i.cursor + 1) % |cfg.order|
            && Collects(cfg, i, after, c, packet)
            && (packet.Some? ==> world(s.tick).now <= after.entries[|i.entries|].at <= world(t.tick).now)
  {
    var c := cfg.order[s.intake.cursor];
    var start := s.(intake := Advance(cfg, s.intake));
    var a := Flow(world, start);
    FlowKeepsCamera(world, start, c);
    if Due(cfg, a.intake, c, world(s.tick).now) {
      ScheduleCollects(cfg, world, a, c, world(s.tick).now);
    }
  }

  // ----- whole batches -----

  /** Turns go round the cameras in order, from the first. */
  predicate TurnsOk(cfg: Settings, i: Intake) {
    cfg.order != [] ==>
      && i.cursor == |i.turns| % |cfg.order|
      && (forall j :: 0 <= j < |i.turns| ==> i.turns[j] == cfg.order[j % |cfg.order|])
  }

  predicate CamerasOk(cfg: Settings, i: Intake) {
    forall k :: 0 <= k < |cfg.order| ==> CameraOk(i, cfg.order[k])
  }

  predicate IntakeOk(cfg: Settings, i: Intake) {
    (cfg.order != [] ==> Ready(cfg, i)) && CamerasOk(cfg, i) && EntriesOk(cfg, i) && TurnsOk(cfg, i)
  }

  lemma NextTurn(turns: nat, n: nat)
    requires n > 0
    ensures (turns + 1) % n == (turns % n + 1) % n
  {
    assert turns == turns / n * n + turns % n;
    if turns % n + 1 < n {
      ModIs(turns + 1, n, turns / n, turns % n + 1);
    } else {
      ModIs(turns + 1, n, turns / n + 1, 0);
    }
  }

  lemma ModIs(x: int, n: int, q: int, r: int)
    requires n > 0 && 0 <= r < n && x == q * n + r
    ensures x % n == r
  {
    var d := x / n - q;
    assert d * n == r - x % n;
    TimesGrows(1, d, n);
    TimesGrows(d, -1, n);
  }

  lemma NextTurnIsInOrder(cfg: Settings, i: Intake, after: Intake)
    requires cfg.order != [] && TurnsOk(cfg, i) && i.cursor < |cfg.order|
    requires after.turns == i.turns + [cfg.order[i.cursor]] && after.cursor == (i.cursor + 1) % |cfg.order|
    ensures TurnsOk(cfg, after)
  {
    NextTurn(|i.turns|, |cfg.order|);
  }

  lemma TurnKeepsCameras(cfg: Settings, world: World, s: State)
    requires Ready(cfg, s.intake) && CamerasOk(cfg, s.intake)
    ensures CamerasOk(cfg, Turn(cfg, world, s).0.intake)
  {
    forall k | 0 <= k < |cfg.order| ensures CameraOk(Turn(cfg, world, s).0.intake, cfg.order[k]) {
      TurnKeepsCamera(cfg, world, s, cfg.order[k]);
    }
  }

  lemma TurnKeepsEntries(cfg: Settings, world: World, s: State)
    requires Steady(world) && cfg.order != [] && IntakeOk(cfg, s.intake)
    ensures EntriesOk(cfg, Turn(cfg, world, s).0.intake)
  {
    var (t, packet) := Turn(cfg, world, s);
    TurnCollects(cfg, world, s);
    CollectingKeepsEntries(cfg, s.intake, t.intake, cfg.order[s.intake.cursor], packet);
  }

  lemma TurnKeepsTurns(cfg: Settings, world: World, s: State)
    requires Steady(world) && Ready(cfg, s.intake) && CameraOk(s.intake, cfg.order[s.intake.cursor])
    requires TurnsOk(cfg, s.intake)
    ensures TurnsOk(cfg, Turn(cfg, world, s).0.intake)
  {
    TurnCollects(cfg, world, s);
    NextTurnIsInOrder(cfg, s.intake, Turn(cfg, world, s).0.intake);
  }

  lemma TurnKeepsIntake(cfg: Settings, world: World, s: State)
    requires Steady(world) && cfg.order != [] && IntakeOk(cfg, s.intake)
    ensures IntakeOk(cfg, Turn(cfg, world, s).0.intake)
  {
    TurnKeepsReady(cfg, world, s);
    TurnKeepsCameras(cfg, world, s);
    TurnKeepsEntries(cfg, world, s);
    TurnKeepsTurns(cfg, world, s);
  }

  // ----- rounds of turns, for any step -----

  lemma RoundsStep(step: Step, cameras: nat, size: nat, s: State, checked: nat, batch: seq<FramePacket>)
    requires checked < cameras && |batch| < size
    ensures Rounds(step, cameras, size, s, checked, batch)
            == Rounds(step, cameras, size, step(s).0, checked + 1, batch + Found(step(s).1))
  {
  }

  /** What every step keeps, the rounds keep. */
  lemma {:induction false} RoundsKeep(step: Step, inv: State -> bool, cameras: nat, size: nat, s: State, checked: nat,
                                      batch: seq<FramePacket>)
    requires inv(s) && forall x: State :: inv(x) ==> inv(step(x).0)
    ensures inv(Rounds(step, cameras, size, s, checked, batch).0)
    decreases cameras - checked
  {
    if checked < cameras && |batch| < size {
      var (next, packet) := step(s);
      RoundsKeep(step, inv, cameras, size, next, checked + 1, batch + Found(packet));
    }
  }

  /** A relation that every step establishes and that composes relates the ends of the rounds. */
  lemma {:induction false} RoundsRelate(step: Step, inv: State -> bool, r: (State, State, seq<FramePacket>) -> bool,
                                        cameras: nat, size: nat, s: State, checked: nat, batch: seq<FramePacket>)
    requires inv(s) && forall x: State :: inv(x) ==> inv(step(x).0) && r(x, step(x).0, Found(step(x).1))
    requires forall x: State :: r(x, x, [])
    requires forall x, y, z, a, b :: r(x, y, a) && r(y, z, b) ==> r(x, z, a + b)
    ensures var (t, packets) := Rounds(step, cameras, size, s, checked, batch);
            batch <= packets && r(s, t, packets[|batch|..])
    decreases cameras - checked
  {
    if checked < cameras && |batch| < size {
      var (next, packet) := step(s);
      RoundsRelate(step, inv, r, cameras, size, next, checked + 1, batch + Found(packet));
      var (t, packets) := Rounds(step, cameras, size, next, checked + 1, batch + Found(packet));
      assert packets[|batch|..] == Found(packet) + packets[|batch + Found(packet)|..];
    }
  }

  /** The rounds stop only when the batch is full or every camera has had its turn. */
  lemma {:induction false} RoundsTakeTurns(step: Step, inv: State -> bool, cameras: nat, size: nat, s: State,
                                           checked: nat, batch: seq<FramePacket>)
    requires inv(s)
    requires forall x: State :: inv(x) ==> inv(step(x).0) && |step(x).0.intake.turns| == |x.intake.turns| + 1
    requires checked <= cameras && |batch| <= size
    ensures var (t, packets) := Rounds(step, cameras, size, s, checked, batch);
            && Smaller(cameras - checked, size - |batch|) <= |t.intake.turns| - |s.intake.turns| <= cameras - checked
            && |packets| <= size
    decreases cameras - checked
  {
    if checked < cameras && |batch| < size {
      var (next, packet) := step(s);
      RoundsTakeTurns(step, inv, cameras, size, next, checked + 1, batch + Found(packet));
    }
  }

  function Smaller(a: int, b: int): int {
    if a < b then a else b
  }

  // ----- one batch -----

  function KeepsIntake(cfg: Settings): State -> bool {
    (s: State) => cfg.order != [] && IntakeOk(cfg, s.intake)
  }

  lemma StepKeepsIntake(cfg: Settings, world: World, s: State)
    requires Steady(world) && KeepsIntake(cfg)(s)
    ensures var (t, packet) := TurnOf(cfg, world)(s);
            KeepsIntake(cfg)(t) && Gathers(world, s, t, Found(packet)) && |t.intake.turns| == |s.intake.turns| + 1
            && s.intake.turns <= t.intake.turns
  {
    TurnKeepsIntake(cfg, world, s);
    TurnCollects(cfg, world, s);
  }

  function Packets(entries: seq<Entry>): (ps: seq<FramePacket>)
    ensures |ps| == |entries| && forall k :: 0 <= k < |ps| ==> ps[k] == entries[k].packet
  {
    seq(|entries|, k requires 0 <= k < |entries| => entries[k].packet)
  }

  /** From s to t: the packets are those of the new entries, each scheduled in between. */
  predicate Gathers(world: World, s: State, t: State, packets: seq<FramePacket>) {
    && s.tick <= t.tick && s.intake.entries <= t.intake.entries
    && packets == Packets(t.intake.entries[|s.intake.entries|..])
    && (forall k :: |s.intake.entries| <= k < |t.intake.entries| ==>
          world(s.tick).now <= t.intake.entries[k].at <= world(t.tick).now)
  }

  lemma GatheringComposes(world: World, s: State, m: State, t: State, first: seq<FramePacket>, rest: seq<FramePacket>)
    requires Steady(world) && Gathers(world, s, m, first) && Gathers(world, m, t, rest)
    ensures Gathers(world, s, t, first + rest)
  {
    var (a, b, c) := (s.intake.entries, m.intake.entries, t.intake.entries);
    assert c[|a|..] == b[|a|..] + c[|b|..] by {
      assert c == b + c[|b|..];
    }
    forall k | |a| <= k < |c| ensures world(s.tick).now <= c[k].at <= world(t.tick).now {
      assert k < |b| ==> c[k] == b[k];
    }
  }

  function Gathering(world: World): (State, State, seq<FramePacket>) -> bool {
    (s: State, t: State, packets: seq<FramePacket>) => Gathers(world, s, t, packets)
  }

  /** What one turn does, of a step that is not looked into. */
  ghost predicate Sound(world: World, step: Step, inv: State -> bool) {
    forall x: State :: inv(x) ==>
      inv(step(x).0) && Gathering(world)(x, step(x).0, Found(step(x).1))
      && |step(x).0.intake.turns| == |x.intake.turns| + 1
  }

  lemma TurnsAreSound(cfg: Settings, world: World)
    requires Steady(world)
    ensures Sound(world, TurnOf(cfg, world), KeepsIntake(cfg))
  {
    forall x: State | KeepsIntake(cfg)(x)
      ensures var t := TurnOf(cfg, world)(x);
              KeepsIntake(cfg)(t.0) && Gathers(world, x, t.0, Found(t.1)) && |t.0.intake.turns| == |x.intake.turns| + 1
    {
      StepKeepsIntake(cfg, world, x);
    }
  }

  lemma GatheringIsTransitive(world: World)
    requires Steady(world)
    ensures forall x, y, z, a, b ::
              Gathering(world)(x, y, a) && Gathering(world)(y, z, b) ==> Gathering(world)(x, z, a + b)
  {
    forall x, y, z, a, b | Gathering(world)(x, y, a) && Gathering(world)(y, z, b)
      ensures Gathering(world)(x, z, a + b)
    {
      GatheringComposes(world, x, y, z, a, b);
    }
  }

  lemma RoundsAreSound(world: World, step: Step, inv: State -> bool, cameras: nat, size: nat, s: State)
    requires Steady(world) && Sound(world, step, inv) && inv(s)
    ensures var (t, batch) := Rounds(step, cameras, size, s, 0, []);
            && inv(t) && Gathers(world, s, t, batch) && |batch| <= size
            && Smaller(cameras, size) <= |t.intake.turns| - |s.intake.turns| <= cameras
  {
    GatheringIsTransitive(world);
    RoundsKeep(step, inv, cameras, size, s, 0, []);
    RoundsRelate(step, inv, Gathering(world), cameras, size, s, 0, []);
    RoundsTakeTurns(step, inv, cameras, size, s, 0, []);
  }

  /** A batch keeps the account, its packets are exactly those of the new entries, and it stops
      only when it is full or every camera has had its turn. */
  lemma CollectKeepsIntake(cfg: Settings, world: World, s: State)
    requires Steady(world) && IntakeOk(cfg, s.intake)
    ensures var (t, batch) := Collect(cfg, world, s);
            && IntakeOk(cfg, t.intake) && Gathers(world, s, t, batch) && |batch| <= cfg.batchSize
            && Smaller(|cfg.order|, cfg.batchSize) <= |t.intake.turns| - |s.intake.turns| <= |cfg.order|
  {
    if cfg.order != [] {
      TurnsAreSound(cfg, world);
      RoundsAreSound(world, TurnOf(cfg, world), KeepsIntake(cfg), |cfg.order|, cfg.batchSize, s);
    }
  }
}
