/** The shared scheduler on values: one camera's turn, one batch, one run_once. Cameras publish
    and the consumer takes results between any two accesses the scheduler makes. */
module SchedulerSpec {
  import opened Options
  import opened LatestFrames
  import opened ResultQueue
  import opened TrackerSpec

  type CameraId = string

  /** What the other threads do just before one access, and what the clock shows at it. */
  datatype Moment = Moment(now: int, shots: seq<(CameraId, Shot)>, takes: nat)

  /** The moment of each access the scheduler makes, in order. */
  type World = nat -> Moment

  ghost predicate Steady(world: World) {
    forall i, j :: 0 <= i <= j ==> world(i).now <= world(j).now
  }

  datatype Settings = Settings(
    order: seq<CameraId>, intervals: map<CameraId, nat>, batchSize: nat, maxAgeMs: real, timeoutMs: real,
    breakerFailures: nat, breakerResetNs: nat, resultLimit: int)

  /** A packet in the order of collection, with the time it was scheduled. */
  datatype Entry = Entry(packet: FramePacket, at: int)

  datatype ScheduledResult = ScheduledResult(packet: FramePacket, ageMs: real, output: seq<Detection>)

  /** The scheduler's side of the cameras. `entries` and `turns` record what happened so far. */
  datatype Intake = Intake(
    buffers: map<CameraId, Latest>, cursor: nat, lastSeen: map<CameraId, nat>, lastScheduled: map<CameraId, int>,
    staleFrames: nat, entries: seq<Entry>, turns: seq<CameraId>)

  /** `opens` records when the circuit was opened. */
  datatype Breaker = Breaker(consecutive: nat, openUntil: int, failedBatches: nat, openCount: nat, opens: seq<int>)

  /** `lostFrames` counts the frames of failed batches; `sources` says which entry each produced
      result came from. */
  datatype State = State(
    tick: nat, intake: Intake, outbox: Outbox<ScheduledResult>, breaker: Breaker, processed: nat,
    lostFrames: nat, sources: seq<nat>)

  function IntervalOf(cfg: Settings, c: CameraId): nat {
    if c in cfg.intervals then cfg.intervals[c] else 0
  }

  function PublishAll(buffers: map<CameraId, Latest>, shots: seq<(CameraId, Shot)>): (after: map<CameraId, Latest>)
    ensures after.Keys == buffers.Keys
    decreases |shots|
  {
    if shots == [] then buffers
    else
      var (c, shot) := shots[0];
      PublishAll(if c in buffers then buffers[c := Published(buffers[c], shot)] else buffers, shots[1..])
  }

  /** One access: first the others' steps of this moment take effect. */
  function Flow(world: World, s: State): State {
    var m := world(s.tick);
    s.(tick := s.tick + 1,
       intake := s.intake.(buffers := PublishAll(s.intake.buffers, m.shots)),
       outbox := TakeMany(s.outbox, m.takes))
  }

  // ----- one camera's turn -----

  predicate Ready(cfg: Settings, i: Intake) {
    && i.cursor < |cfg.order|
    && (forall k :: 0 <= k < |cfg.order| ==> cfg.order[k] in i.buffers)
    && (forall k :: 0 <= k < |cfg.order| ==> cfg.order[k] in i.lastSeen && cfg.order[k] in i.lastScheduled)
  }

  function Advance(cfg: Settings, i: Intake): Intake
    requires i.cursor < |cfg.order|
  {
    i.(cursor := (i.cursor + 1) % |cfg.order|, turns := i.turns + [cfg.order[i.cursor]])
  }

  predicate Due(cfg: Settings, i: Intake, c: CameraId, now: int)
    requires c in i.lastScheduled
  {
    IntervalOf(cfg, c) == 0 || now - i.lastScheduled[c] >= IntervalOf(cfg, c)
  }

  /** read_latest on the camera's buffer. */
  function ReadStep(cfg: Settings, i: Intake, c: CameraId, now: int): (Intake, Option<FramePacket>)
    requires c in i.buffers && c in i.lastSeen
  {
    var (b, packet) := Read(c, i.buffers[c], i.lastSeen[c], Some(cfg.maxAgeMs), now);
    (i.(buffers := i.buffers[c := b]), packet)
  }

  function MarkStale(i: Intake, c: CameraId): Intake
    requires c in i.buffers
  {
    i.(staleFrames := i.staleFrames + 1, lastSeen := i.lastSeen[c := i.buffers[c].sequence])
  }

  function Enter(i: Intake, c: CameraId, packet: FramePacket, now: int): Intake {
    i.(lastSeen := i.lastSeen[c := packet.frameId], lastScheduled := i.lastScheduled[c := now],
       entries := i.entries + [Entry(packet, now)])
  }

  /** The stale counter, the frame, and the stale counter again. The last result says whether the
      counter went up. */
  function ReadAccesses(cfg: Settings, world: World, s: State, c: CameraId): (State, Option<FramePacket>, bool)
    requires c in s.intake.buffers && c in s.intake.lastSeen
  {
    var a := Flow(world, s);
    var b := Flow(world, a);
    var (read, packet) := ReadStep(cfg, b.intake, c, world(a.tick).now);
    var d := Flow(world, b.(intake := read));
    (d, packet, d.intake.buffers[c].stale > a.intake.buffers[c].stale)
  }

  /** A stale frame counts as seen, and so does whatever was published since. */
  function ReadTurn(cfg: Settings, world: World, s: State, c: CameraId): (State, Option<FramePacket>)
    requires c in s.intake.buffers && c in s.intake.lastSeen
  {
    var (d, packet, stale) := ReadAccesses(cfg, world, s, c);
    if stale then
      var e := Flow(world, d);
      (e.(intake := MarkStale(e.intake, c)), packet)
    else (d, packet)
  }

  /** Reads a due camera's buffer and schedules what it finds. */
  function ScheduleTurn(cfg: Settings, world: World, s: State, c: CameraId): (State, Option<FramePacket>)
    requires c in s.intake.buffers && c in s.intake.lastSeen
  {
    var (b, packet) := ReadTurn(cfg, world, s, c);
    if packet == None then (b, None)
    else
      var d := Flow(world, b);
      (d.(intake := Enter(d.intake, c, packet.value, world(b.tick).now)), packet)
  }

  function Turn(cfg: Settings, world: World, s: State): (State, Option<FramePacket>)
    requires Ready(cfg, s.intake)
  {
    var c := cfg.order[s.intake.cursor];
    var a := Flow(world, s.(intake := Advance(cfg, s.intake)));
    if !Due(cfg, a.intake, c, world(s.tick).now) then (a, None)
    else ScheduleTurn(cfg, world, a, c)
  }

  lemma TurnKeepsReady(cfg: Settings, world: World, s: State)
    requires Ready(cfg, s.intake)
    ensures Ready(cfg, Turn(cfg, world, s).0.intake)
  {
  }

  type Step = State -> (State, Option<FramePacket>)

  function TurnOf(cfg: Settings, world: World): Step {
    (s: State) => if Ready(cfg, s.intake) then Turn(cfg, world, s) else (s, None)
  }

  function Found(packet: Option<FramePacket>): seq<FramePacket> {
    if packet.Some? then [packet.value] else []
  }

  /** Turn after turn, until every camera had one or the batch is full. */
  function Rounds(step: Step, cameras: nat, size: nat, s: State, checked: nat, batch: seq<FramePacket>)
    : (State, seq<FramePacket>)
    decreases cameras - checked
  {
    if checked >= cameras || |batch| >= size then (s, batch)
    else
      var (next, packet) := step(s);
      Rounds(step, cameras, size, next, checked + 1, batch + Found(packet))
  }

  function Collect(cfg: Settings, world: World, s: State): (State, seq<FramePacket>) {
    Rounds(TurnOf(cfg, world), |cfg.order|, cfg.batchSize, s, 0, [])
  }

  // ----- the batch's results -----

  function AgeMs(packet: FramePacket, now: int): real {
    var age := (now - packet.shot.monotonicNs) as real / 1000000.0;
    if age < 0.0 then 0.0 else age
  }

  /** Builds the result (its age reads the clock) and puts it on the queue. */
  function Deliver(cfg: Settings, world: World, s: State, packet: FramePacket, output: seq<Detection>): State {
    var a := Flow(world, s);
    var result := ScheduledResult(packet, AgeMs(packet, world(s.tick).now), output);
    var b := Flow(world, a);
    var d := Flow(world, b);
    if IsFull(cfg.resultLimit, b.outbox) then
      var e := Flow(world, d.(outbox := DropOldest(d.outbox)));
      e.(outbox := Append(e.outbox, result))
    else
      d.(outbox := Append(d.outbox, result))
  }

  function DeliverAll(cfg: Settings, world: World, s: State, batch: seq<FramePacket>, outputs: seq<seq<Detection>>)
    : State
    requires |batch| == |outputs|
    decreases |batch|
  {
    if batch == [] then s
    else
      var n := |batch| - 1;
      Deliver(cfg, world, DeliverAll(cfg, world, s, batch[..n], outputs[..n]), batch[n], outputs[n])
  }

  /** What the pipeline does with a batch: it raises, or answers in some time. */
  datatype Outcome = Raises | Answers(outputs: seq<seq<Detection>>, elapsedMs: real)

  predicate Fails(cfg: Settings, outcome: Outcome, frames: nat) {
    outcome.Raises? || outcome.elapsedMs > cfg.timeoutMs || |outcome.outputs| != frames
  }

  function Opened(cfg: Settings, b: Breaker, now: int): Breaker {
    b.(consecutive := 0, openUntil := now + cfg.breakerResetNs, openCount := b.openCount + 1, opens := b.opens + [now])
  }

  function Failed(s: State, frames: nat): State {
    var b := s.breaker;
    s.(lostFrames := s.lostFrames + frames,
       breaker := b.(consecutive := b.consecutive + 1, failedBatches := b.failedBatches + 1))
  }

  /** A failed batch, and the opening of the circuit when it is one too many. */
  function FailBatch(cfg: Settings, world: World, s: State, frames: nat): State {
    var t := Failed(s, frames);
    if t.breaker.consecutive >= cfg.breakerFailures then
      var u := Flow(world, t);
      u.(breaker := Opened(cfg, u.breaker, world(t.tick).now))
    else t
  }

  function Numbers(first: nat, n: nat): (ks: seq<nat>)
    ensures |ks| == n && forall k :: 0 <= k < n ==> ks[k] == first + k
  {
    seq(n, k requires 0 <= k < n => first + k)
  }

  /** The position of the batch's first entry. */
  function FirstOf(s: State, batch: seq<FramePacket>): nat {
    if |batch| <= |s.intake.entries| then |s.intake.entries| - |batch| else 0
  }

  function FinishBatch(cfg: Settings, world: World, s: State, batch: seq<FramePacket>, outputs: seq<seq<Detection>>)
    : State
    requires |batch| == |outputs|
  {
    var t := DeliverAll(cfg, world, s.(breaker := s.breaker.(consecutive := 0)), batch, outputs);
    t.(processed := t.processed + |batch|, sources := t.sources + Numbers(FirstOf(s, batch), |batch|))
  }

  function RunOnce(cfg: Settings, world: World, s: State, outcome: Outcome): (State, nat) {
    var a := Flow(world, s);
    if world(s.tick).now < s.breaker.openUntil then (a, 0)
    else
      var (b, batch) := Collect(cfg, world, a);
      if batch == [] then (b, 0)
      else if Fails(cfg, outcome, |batch|) then (FailBatch(cfg, world, b, |batch|), 0)
      else (FinishBatch(cfg, world, b, batch, outcome.outputs), |batch|)
  }
}
