/** The scheduler over whole runs: nothing is lost uncounted, results come out in order, the
    circuit breaker holds, no camera starves, and rate limits hold over every window. */
module SchedulerRuns {
  import opened Options
  import opened Lists
  import opened LatestFrames
  import opened ResultQueue
  import opened SchedulerSpec
  import opened SchedulerIntake
  import opened RateLimits
  import TrackerSpec

  // ----- the parts a step leaves alone -----

  predicate OutboxOk(cfg: Settings, o: Outbox<ScheduledResult>) {
    Accounted(o) && Bounded(cfg.resultLimit, o)
  }

  /** Only the consumer acted on the results; breaker and totals are as before. */
  predicate Undisturbed(cfg: Settings, s: State, t: State) {
    && t.breaker == s.breaker && t.processed == s.processed && t.lostFrames == s.lostFrames && t.sources == s.sources
    && t.outbox.produced == s.outbox.produced && t.outbox.drops == s.outbox.drops
    && (OutboxOk(cfg, s.outbox) ==> OutboxOk(cfg, t.outbox))
  }

  lemma FlowIsUndisturbed(cfg: Settings, world: World, s: State)
    ensures Undisturbed(cfg, s, Flow(world, s))
  {
    var n := world(s.tick).takes;
    if OutboxOk(cfg, s.outbox) {
      TakingKeepsAccount(cfg.resultLimit, s.outbox, n);
    }
  }

  lemma ReadTurnIsUndisturbed(cfg: Settings, world: World, s: State, c: CameraId)
    requires c in s.intake.buffers && c in s.intake.lastSeen
    ensures Undisturbed(cfg, s, ReadTurn(cfg, world, s, c).0)
  {
    var a := Flow(world, s);
    var b := Flow(world, a);
    var r := b.(intake := ReadStep(cfg, b.intake, c, world(a.tick).now).0);
    FlowIsUndisturbed(cfg, world, s);
    FlowIsUndisturbed(cfg, world, a);
    FlowIsUndisturbed(cfg, world, r);
    FlowIsUndisturbed(cfg, world, Flow(world, r));
  }

  lemma TurnIsUndisturbed(cfg: Settings, world: World, s: State)
    requires Ready(cfg, s.intake)
    ensures Undisturbed(cfg, s, Turn(cfg, world, s).0)
  {
    var c := cfg.order[s.intake.cursor];
    var start := s.(intake := Advance(cfg, s.intake));
    var a := Flow(world, start);
    FlowIsUndisturbed(cfg, world, start);
    if Due(cfg, a.intake, c, world(s.tick).now) {
      ReadTurnIsUndisturbed(cfg, world, a, c);
      FlowIsUndisturbed(cfg, world, ReadTurn(cfg, world, a, c).0);
    }
  }

  function LeavingAlone(cfg: Settings): (State, State, seq<FramePacket>) -> bool {
    (s: State, t: State, packets: seq<FramePacket>) => Undisturbed(cfg, s, t)
  }

  lemma CollectIsUndisturbed(cfg: Settings, world: World, s: State)
    ensures Undisturbed(cfg, s, Collect(cfg, world, s).0)
  {
    var (step, r) := (TurnOf(cfg, world), LeavingAlone(cfg));
    forall x: State ensures r(x, step(x).0, Found(step(x).1)) {
      if Ready(cfg, x.intake) {
        TurnIsUndisturbed(cfg, world, x);
      }
    }
    RoundsRelate(step, (x: State) => true, r, |cfg.order|, cfg.batchSize, s, 0, []);
  }

  // ----- delivering results -----

  /** Meanwhile nothing was collected: cameras may have published. */
  predicate Waited(cfg: Settings, s: State, t: State) {
    && s.tick < t.tick && t.intake.entries == s.intake.entries && t.intake.turns == s.intake.turns
    && t.intake.lastSeen == s.intake.lastSeen && t.intake.lastScheduled == s.intake.lastScheduled
    && (IntakeOk(cfg, s.intake) ==> IntakeOk(cfg, t.intake))
  }

  lemma FlowWaits(cfg: Settings, world: World, s: State)
    ensures Waited(cfg, s, Flow(world, s))
  {
    var t := Flow(world, s);
    if IntakeOk(cfg, s.intake) {
      forall k | 0 <= k < |cfg.order| ensures CameraOk(t.intake, cfg.order[k]) {
        FlowKeepsCamera(world, s, cfg.order[k]);
      }
      forall k | 0 <= k < |s.intake.entries| ensures Known(cfg, t.intake, s.intake.entries[k]) {
        assert Known(cfg, s.intake, s.intake.entries[k]);
      }
    }
  }

  /** Breaker and totals are as before. */
  predicate SameTotals(s: State, t: State) {
    t.breaker == s.breaker && t.processed == s.processed && t.lostFrames == s.lostFrames && t.sources == s.sources
  }

  lemma DeliverWaits(cfg: Settings, world: World, s: State, packet: FramePacket, output: seq<TrackerSpec.Detection>)
    ensures Waited(cfg, s, Deliver(cfg, world, s, packet, output))
    ensures SameTotals(s, Deliver(cfg, world, s, packet, output))
  {
    var a := Flow(world, s);
    var b := Flow(world, a);
    var d := Flow(world, b);
    FlowWaits(cfg, world, s);
    FlowWaits(cfg, world, a);
    FlowWaits(cfg, world, b);
    FlowWaits(cfg, world, d.(outbox := DropOldest(d.outbox)));
  }

  predicate StandsFor(results: seq<ScheduledResult>, packets: seq<FramePacket>) {
    |results| == |packets| && forall k :: 0 <= k < |results| ==> results[k].packet == packets[k]
  }

  /** From s to t: exactly the results of these packets were produced, in order. */
  predicate Delivers(cfg: Settings, s: State, t: State, packets: seq<FramePacket>) {
    && OutboxOk(cfg, t.outbox) && s.outbox.produced <= t.outbox.produced
    && StandsFor(t.outbox.produced[|s.outbox.produced|..], packets)
    && (packets != [] ==> Waited(cfg, s, t)) && (packets == [] ==> t == s) && SameTotals(s, t)
  }

  /** Delivering is one put of the built result, after the consumer's takes of two accesses. */
  lemma DeliverIsPut(cfg: Settings, world: World, s: State, packet: FramePacket, output: seq<TrackerSpec.Detection>)
    ensures var o := TakeMany(TakeMany(s.outbox, world(s.tick).takes), world(s.tick + 1).takes);
            Deliver(cfg, world, s, packet, output).outbox
            == Put(cfg.resultLimit, o, ScheduledResult(packet, AgeMs(packet, world(s.tick).now), output),
                   world(s.tick + 2).takes, world(s.tick + 3).takes)
  {
  }

  /** However the consumer's takes fall between the accesses, there is room when the result is
      put, none is lost uncounted, and order is kept. */
  lemma DeliverProduces(cfg: Settings, world: World, s: State, packet: FramePacket, output: seq<TrackerSpec.Detection>)
    requires OutboxOk(cfg, s.outbox)
    ensures var o := Deliver(cfg, world, s, packet, output).outbox;
            OutboxOk(cfg, o)
            && o.produced == s.outbox.produced + [ScheduledResult(packet, AgeMs(packet, world(s.tick).now), output)]
  {
    var result := ScheduledResult(packet, AgeMs(packet, world(s.tick).now), output);
    var a := Flow(world, s);
    var b := Flow(world, a);
    TakingKeepsAccount(cfg.resultLimit, s.outbox, world(s.tick).takes);
    TakingKeepsAccount(cfg.resultLimit, a.outbox, world(a.tick).takes);
    PutKeepsAccount(cfg.resultLimit, b.outbox, result, world(b.tick).takes, world(b.tick + 1).takes);
  }

  lemma DeliverIsSound(cfg: Settings, world: World, s: State, packet: FramePacket, output: seq<TrackerSpec.Detection>)
    requires OutboxOk(cfg, s.outbox)
    ensures Delivers(cfg, s, Deliver(cfg, world, s, packet, output), [packet])
  {
    DeliverProduces(cfg, world, s, packet, output);
    DeliverWaits(cfg, world, s, packet, output);
  }

  lemma DeliveringComposes(cfg: Settings, s: State, m: State, t: State, a: seq<FramePacket>, b: seq<FramePacket>)
    requires Delivers(cfg, s, m, a) && Delivers(cfg, m, t, b)
    ensures Delivers(cfg, s, t, a + b)
  {
    var (p, q, r) := (s.outbox.produced, m.outbox.produced, t.outbox.produced);
    assert r[|p|..] == q[|p|..] + r[|q|..];
  }

  /** The whole batch: one result for each packet, in order. */
  lemma {:induction false} DeliverAllIsSound(cfg: Settings, world: World, s: State, batch: seq<FramePacket>,
                                             outputs: seq<seq<TrackerSpec.Detection>>)
    requires OutboxOk(cfg, s.outbox) && |batch| == |outputs|
    ensures Delivers(cfg, s, DeliverAll(cfg, world, s, batch, outputs), batch)
    decreases |batch|
  {
    if batch != [] {
      var n := |batch| - 1;
      var m := DeliverAll(cfg, world, s, batch[..n], outputs[..n]);
      DeliverAllIsSound(cfg, world, s, batch[..n], outputs[..n]);
      DeliverIsSound(cfg, world, m, batch[n], outputs[n]);
      DeliveringComposes(cfg, s, m, Deliver(cfg, world, m, batch[n], outputs[n]), batch[..n], [batch[n]]);
      assert batch[..n] + [batch[n]] == batch;
    }
  }

  // ----- the circuit breaker -----

  predicate BreakerOk(cfg: Settings, b: Breaker) {
    && b.consecutive < cfg.breakerFailures
    && b.failedBatches >= cfg.breakerFailures * b.openCount + b.consecutive
    && b.openCount == |b.opens|
    && b.openUntil == (if b.opens == [] then 0 else b.opens[|b.opens| - 1] + cfg.breakerResetNs)
    && (forall i, j :: 0 <= i < j < |b.opens| ==> b.opens[j] - b.opens[i] >= cfg.breakerResetNs)
  }

  lemma FailingKeepsBreaker(cfg: Settings, world: World, s: State, frames: nat)
    requires BreakerOk(cfg, s.breaker) && s.breaker.openUntil <= world(s.tick).now
    ensures BreakerOk(cfg, FailBatch(cfg, world, s, frames).breaker)
  {
    var (b, after) := (s.breaker, FailBatch(cfg, world, s, frames).breaker);
    if b.consecutive + 1 >= cfg.breakerFailures {
      assert cfg.breakerFailures * (b.openCount + 1) == cfg.breakerFailures * b.openCount + cfg.breakerFailures;
      forall i | 0 <= i < |b.opens| ensures after.opens[|b.opens|] - b.opens[i] >= cfg.breakerResetNs {
      }
    }
  }

  // ----- the whole system -----

  /** Every result stands for the entry that `sources` names. */
  predicate Sourced(results: seq<ScheduledResult>, sources: seq<nat>, entries: seq<Entry>) {
    && |results| == |sources| && Increasing(sources) && Below(sources, |entries|)
    && (forall k :: 0 <= k < |results| ==> results[k].packet == entries[sources[k]].packet)
  }

  /** No frame was scheduled while the circuit was open. */
  predicate NoneWhileOpen(cfg: Settings, opens: seq<int>, entries: seq<Entry>) {
    forall i, k :: 0 <= i < |opens| && 0 <= k < |entries| && opens[i] < entries[k].at ==>
      opens[i] + cfg.breakerResetNs <= entries[k].at
  }

  predicate InThePast(now: int, opens: seq<int>, entries: seq<Entry>) {
    && (forall i :: 0 <= i < |opens| ==> opens[i] <= now)
    && (forall k :: 0 <= k < |entries| ==> entries[k].at <= now)
  }

  predicate SystemOk(cfg: Settings, world: World, s: State) {
    && IntakeOk(cfg, s.intake) && OutboxOk(cfg, s.outbox) && BreakerOk(cfg, s.breaker)
    && Sourced(s.outbox.produced, s.sources, s.intake.entries)
    && s.processed == |s.outbox.produced| && |s.intake.entries| == s.processed + s.lostFrames
    && NoneWhileOpen(cfg, s.breaker.opens, s.intake.entries)
    && InThePast(world(s.tick).now, s.breaker.opens, s.intake.entries)
  }

  lemma WaitingKeepsSystem(cfg: Settings, world: World, s: State)
    requires Steady(world) && SystemOk(cfg, world, s)
    ensures SystemOk(cfg, world, Flow(world, s))
  {
    FlowWaits(cfg, world, s);
    FlowIsUndisturbed(cfg, world, s);
  }

  lemma GatheredAreLate(cfg: Settings, world: World, s: State, t: State, batch: seq<FramePacket>)
    requires Steady(world) && SystemOk(cfg, world, s) && Gathers(world, s, t, batch)
    requires s.breaker.openUntil <= world(s.tick).now
    ensures NoneWhileOpen(cfg, s.breaker.opens, t.intake.entries)
    ensures InThePast(world(t.tick).now, s.breaker.opens, t.intake.entries)
  {
    var (before, after, opens) := (s.intake.entries, t.intake.entries, s.breaker.opens);
    forall i, k | 0 <= i < |opens| && 0 <= k < |after| && opens[i] < after[k].at
      ensures opens[i] + cfg.breakerResetNs <= after[k].at
    {
      if k < |before| {
        assert after[k] == before[k];
      }
    }
    forall k | 0 <= k < |after| ensures after[k].at <= world(t.tick).now {
      assert k < |before| ==> after[k] == before[k];
    }
  }

  /** From s to t one batch was collected, with the circuit closed, and nothing else was done. */
  predicate Batched(cfg: Settings, world: World, s: State, t: State, batch: seq<FramePacket>) {
    && IntakeOk(cfg, t.intake) && Gathers(world, s, t, batch) && Undisturbed(cfg, s, t)
    && s.breaker.openUntil <= world(s.tick).now
  }

  lemma LaterIsPast(world: World, m: nat, n: nat, opens: seq<int>, entries: seq<Entry>)
    requires Steady(world) && m <= n && InThePast(world(m).now, opens, entries)
    ensures InThePast(world(n).now, opens, entries)
  {
  }

  lemma BatchKeepsSystem(cfg: Settings, world: World, s: State, t: State)
    requires Steady(world) && SystemOk(cfg, world, s) && Batched(cfg, world, s, t, [])
    ensures SystemOk(cfg, world, t)
  {
    GatheredAreLate(cfg, world, s, t, []);
    assert t.intake.entries == s.intake.entries;
  }

  lemma FailureIsUndisturbed(cfg: Settings, world: World, b: State, frames: nat)
    ensures var t := FailBatch(cfg, world, b, frames);
            && b.tick <= t.tick <= b.tick + 1 && t.intake.entries == b.intake.entries
            && (IntakeOk(cfg, b.intake) ==> IntakeOk(cfg, t.intake))
            && (OutboxOk(cfg, b.outbox) ==> OutboxOk(cfg, t.outbox))
            && t.outbox.produced == b.outbox.produced && t.processed == b.processed && t.sources == b.sources
            && t.lostFrames == b.lostFrames + frames
  {
    FlowWaits(cfg, world, Failed(b, frames));
    FlowIsUndisturbed(cfg, world, Failed(b, frames));
  }

  lemma FailureIsInThePast(cfg: Settings, world: World, b: State, frames: nat)
    requires Steady(world) && InThePast(world(b.tick).now, b.breaker.opens, b.intake.entries)
    requires NoneWhileOpen(cfg, b.breaker.opens, b.intake.entries)
    ensures var t := FailBatch(cfg, world, b, frames);
            && InThePast(world(t.tick).now, t.breaker.opens, b.intake.entries)
            && NoneWhileOpen(cfg, t.breaker.opens, b.intake.entries)
  {
    LaterIsPast(world, b.tick, b.tick + 1, b.breaker.opens, b.intake.entries);
  }

  lemma FailureKeepsSystem(cfg: Settings, world: World, s: State, b: State, batch: seq<FramePacket>)
    requires Steady(world) && SystemOk(cfg, world, s) && Batched(cfg, world, s, b, batch)
    ensures SystemOk(cfg, world, FailBatch(cfg, world, b, |batch|))
  {
    GatheredAreLate(cfg, world, s, b, batch);
    FailingKeepsBreaker(cfg, world, b, |batch|);
    FailureIsInThePast(cfg, world, b, |batch|);
    FailureIsUndisturbed(cfg, world, b, |batch|);
    assert s.intake.entries <= b.intake.entries;
  }

  lemma MoreSources(results: seq<ScheduledResult>, sources: seq<nat>, entries: seq<Entry>, more: seq<ScheduledResult>,
                    after: seq<Entry>)
    requires Sourced(results, sources, entries) && entries <= after
    requires StandsFor(more, Packets(after[|entries|..]))
    ensures Sourced(results + more, sources + Numbers(|entries|, |more|), after)
  {
    var ks := sources + Numbers(|entries|, |more|);
    forall k | 0 <= k < |results + more| ensures ks[k] < |after| && (results + more)[k].packet == after[ks[k]].packet {
      if k < |results| {
        assert after[ks[k]] == entries[sources[k]];
      } else {
        assert after[|entries|..][k - |results|] == after[ks[k]];
      }
    }
  }

  lemma ResetKeepsBreaker(cfg: Settings, b: Breaker)
    requires BreakerOk(cfg, b)
    ensures BreakerOk(cfg, b.(consecutive := 0))
  {
  }

  lemma DeliveredAreSourced(cfg: Settings, world: World, s: State, b: State, m: State, batch: seq<FramePacket>)
    requires SystemOk(cfg, world, s) && Batched(cfg, world, s, b, batch)
    requires Delivers(cfg, b.(breaker := b.breaker.(consecutive := 0)), m, batch) && batch != []
    ensures |b.intake.entries| - |batch| == |s.intake.entries| && |m.outbox.produced| == |s.outbox.produced| + |batch|
    ensures Sourced(m.outbox.produced, b.sources + Numbers(|b.intake.entries| - |batch|, |batch|), m.intake.entries)
  {
    var (p, q) := (s.outbox.produced, m.outbox.produced);
    assert q == p + q[|p|..];
    MoreSources(p, s.sources, s.intake.entries, q[|p|..], b.intake.entries);
  }

  lemma DeliveredKeepsSystem(cfg: Settings, world: World, s: State, b: State, m: State, batch: seq<FramePacket>)
    requires Steady(world) && SystemOk(cfg, world, s) && Batched(cfg, world, s, b, batch) && batch != []
    requires Delivers(cfg, b.(breaker := b.breaker.(consecutive := 0)), m, batch)
    ensures SystemOk(cfg, world, m.(processed := b.processed + |batch|,
                                    sources := b.sources + Numbers(|b.intake.entries| - |batch|, |batch|)))
  {
    GatheredAreLate(cfg, world, s, b, batch);
    ResetKeepsBreaker(cfg, b.breaker);
    LaterIsPast(world, b.tick, m.tick, s.breaker.opens, b.intake.entries);
    DeliveredAreSourced(cfg, world, s, b, m, batch);
  }

  lemma SuccessKeepsSystem(cfg: Settings, world: World, s: State, b: State, batch: seq<FramePacket>,
                           outputs: seq<seq<TrackerSpec.Detection>>)
    requires Steady(world) && SystemOk(cfg, world, s) && Batched(cfg, world, s, b, batch)
    requires |batch| == |outputs| && batch != []
    ensures SystemOk(cfg, world, FinishBatch(cfg, world, b, batch, outputs))
  {
    var start := b.(breaker := b.breaker.(consecutive := 0));
    DeliverAllIsSound(cfg, world, start, batch, outputs);
    DeliveredKeepsSystem(cfg, world, s, b, DeliverAll(cfg, world, start, batch, outputs), batch);
  }

  /** One run_once keeps everything, whatever the pipeline, the cameras and the consumer do. */
  lemma RunOnceKeepsSystem(cfg: Settings, world: World, s: State, outcome: Outcome)
    requires Steady(world) && SystemOk(cfg, world, s)
    ensures SystemOk(cfg, world, RunOnce(cfg, world, s, outcome).0)
  {
    var a := Flow(world, s);
    WaitingKeepsSystem(cfg, world, s);
    if world(s.tick).now >= s.breaker.openUntil {
      var (b, batch) := Collect(cfg, world, a);
      CollectKeepsIntake(cfg, world, a);
      CollectIsUndisturbed(cfg, world, a);
      assert Batched(cfg, world, a, b, batch);
      if batch == [] {
        BatchKeepsSystem(cfg, world, a, b);
      } else if Fails(cfg, outcome, |batch|) {
        FailureKeepsSystem(cfg, world, a, b, batch);
      } else {
        SuccessKeepsSystem(cfg, world, a, b, batch, outcome.outputs);
      }
    }
  }

  // ----- runs -----

  /** A scheduler just made. Its cameras may have published; nobody has read from them. */
  predicate Initial(cfg: Settings, s: State) {
    && cfg.breakerFailures >= 1
    && s.tick == 0 && s.outbox == Empty() && s.breaker == Breaker(0, 0, 0, 0, [])
    && s.processed == 0 && s.lostFrames == 0 && s.sources == []
    && s.intake.cursor == 0 && s.intake.entries == [] && s.intake.turns == []
    && (forall k :: 0 <= k < |cfg.order| ==> NewCamera(s.intake, cfg.order[k]))
  }

  predicate NewCamera(i: Intake, c: CameraId) {
    && c in i.buffers && c in i.lastSeen && c in i.lastScheduled
    && i.lastSeen[c] == 0 && i.lastScheduled[c] == 0
    && i.buffers[c].consumed == 0 && Balanced(i.buffers[c], 0)
  }

  /** What the constructor sets up. */
  function Begin(buffers: map<CameraId, Latest>): State {
    State(0, Intake(buffers, 0, map c <- buffers.Keys :: 0, map c <- buffers.Keys :: 0, 0, [], []), Empty(),
          Breaker(0, 0, 0, 0, []), 0, 0, [])
  }

  lemma BeginIsInitial(cfg: Settings, buffers: map<CameraId, Latest>)
    requires cfg.breakerFailures >= 1
    requires forall k :: 0 <= k < |cfg.order| ==>
               cfg.order[k] in buffers && buffers[cfg.order[k]].consumed == 0 && Balanced(buffers[cfg.order[k]], 0)
    ensures Initial(cfg, Begin(buffers))
  {
  }

  type Call = (State, Outcome) -> State

  function CallOf(cfg: Settings, world: World): Call {
    (s: State, outcome: Outcome) => RunOnce(cfg, world, s, outcome).0
  }

  function Calls(call: Call, s: State, outcomes: seq<Outcome>): State
    decreases |outcomes|
  {
    if outcomes == [] then s
    else call(Calls(call, s, outcomes[..|outcomes| - 1]), outcomes[|outcomes| - 1])
  }

  /** Any number of calls of run_once. */
  function Run(cfg: Settings, world: World, s: State, outcomes: seq<Outcome>): State {
    Calls(CallOf(cfg, world), s, outcomes)
  }

  lemma {:induction false} CallsKeep(call: Call, inv: State -> bool, s: State, outcomes: seq<Outcome>)
    requires inv(s) && forall x: State, o: Outcome :: inv(x) ==> inv(call(x, o))
    ensures inv(Calls(call, s, outcomes))
    decreases |outcomes|
  {
    if outcomes != [] {
      CallsKeep(call, inv, s, outcomes[..|outcomes| - 1]);
    }
  }

  lemma InitialIsOk(cfg: Settings, world: World, s: State)
    requires Initial(cfg, s)
    ensures SystemOk(cfg, world, s)
  {
    assert forall k :: 0 <= k < |cfg.order| ==> NewCamera(s.intake, cfg.order[k]);
  }

  function Sound(cfg: Settings, world: World): State -> bool {
    (s: State) => SystemOk(cfg, world, s)
  }

  lemma RunKeepsSystem(cfg: Settings, world: World, s: State, outcomes: seq<Outcome>)
    requires Steady(world) && SystemOk(cfg, world, s)
    ensures SystemOk(cfg, world, Run(cfg, world, s, outcomes))
  {
    forall x: State, o: Outcome | Sound(cfg, world)(x) ensures Sound(cfg, world)(CallOf(cfg, world)(x, o)) {
      RunOnceKeepsSystem(cfg, world, x, o);
    }
    CallsKeep(CallOf(cfg, world), Sound(cfg, world), s, outcomes);
  }

  /** Every published frame of every camera was delivered, overwritten, found stale, or is still
      pending, and the scheduler has seen at least what was taken. */
  lemma EveryFrameIsAccounted(cfg: Settings, world: World, s: State, outcomes: seq<Outcome>, k: nat)
    requires Steady(world) && Initial(cfg, s) && k < |cfg.order|
    ensures CameraOk(Run(cfg, world, s, outcomes).intake, cfg.order[k])
  {
    InitialIsOk(cfg, world, s);
    RunKeepsSystem(cfg, world, s, outcomes);
  }

  /** Frames collected are those processed and those of failed batches; results processed are
      those taken, dropped and queued; the queue never exceeds its bound. */
  lemma EveryResultIsAccounted(cfg: Settings, world: World, s: State, outcomes: seq<Outcome>)
    requires Steady(world) && Initial(cfg, s)
    ensures var t := Run(cfg, world, s, outcomes);
            && |t.intake.entries| == t.processed + t.lostFrames && t.outbox.head <= |t.outbox.line|
            && t.processed == |Taken(t.outbox)| + t.outbox.drops + |Queued(t.outbox)|
            && (cfg.resultLimit > 0 ==> |Queued(t.outbox)| <= cfg.resultLimit)
  {
    InitialIsOk(cfg, world, s);
    RunKeepsSystem(cfg, world, s, outcomes);
  }

  /** Results reach the consumer in the order of collection: each is that of an entry, later
      ones of later entries, and so the frame ids of each camera strictly increase. */
  lemma ResultsComeInOrder(cfg: Settings, world: World, s: State, outcomes: seq<Outcome>, i: nat, j: nat)
    requires Steady(world) && Initial(cfg, s)
    requires i < j < Run(cfg, world, s, outcomes).outbox.head
    ensures Run(cfg, world, s, outcomes).outbox.head <= |Run(cfg, world, s, outcomes).outbox.line|
    ensures var taken := Taken(Run(cfg, world, s, outcomes).outbox);
            taken[i].packet.cameraId == taken[j].packet.cameraId ==> taken[i].packet.frameId < taken[j].packet.frameId
  {
    InitialIsOk(cfg, world, s);
    RunKeepsSystem(cfg, world, s, outcomes);
    TakenComeInOrder(cfg, world, Run(cfg, world, s, outcomes), i, j);
  }

  lemma TakenComeInOrder(cfg: Settings, world: World, t: State, i: nat, j: nat)
    requires SystemOk(cfg, world, t) && i < j < t.outbox.head
    ensures var taken := Taken(t.outbox);
            taken[i].packet.cameraId == taken[j].packet.cameraId ==> taken[i].packet.frameId < taken[j].packet.frameId
  {
    var (o, entries) := (t.outbox, t.intake.entries);
    var all := Select(o.produced, o.kept);
    assert all[i] == o.line[i] && all[j] == o.line[j];
    var (a, b) := (o.kept[i], o.kept[j]);
    assert o.produced[a].packet == entries[t.sources[a]].packet && o.produced[b].packet == entries[t.sources[b]].packet;
    assert Follows(cfg, entries[t.sources[a]], entries[t.sources[b]]);
  }

  /** The circuit breaker: fewer failures in a row than the threshold between calls, at least a
      threshold of failed batches for every opening, openings at least the reset time apart, and
      no frame scheduled within the reset time after an opening. */
  lemma BreakerHolds(cfg: Settings, world: World, s: State, outcomes: seq<Outcome>)
    requires Steady(world) && Initial(cfg, s)
    ensures var t := Run(cfg, world, s, outcomes);
            BreakerOk(cfg, t.breaker) && NoneWhileOpen(cfg, t.breaker.opens, t.intake.entries)
  {
    InitialIsOk(cfg, world, s);
    RunKeepsSystem(cfg, world, s, outcomes);
  }

  // ----- rate limits -----

  /** However the window is placed, at most span / interval + 1 frames of a camera are scheduled
      in it: idx lists the entries in the window, or some of them. */
  lemma CameraRateIsLimited(cfg: Settings, world: World, s: State, outcomes: seq<Outcome>, c: CameraId, idx: seq<nat>,
                            start: int, span: nat)
    requires Steady(world) && Initial(cfg, s) && IntervalOf(cfg, c) > 0
    requires var entries := Run(cfg, world, s, outcomes).intake.entries;
             Increasing(idx) && Below(idx, |entries|) && forall k :: 0 <= k < |idx| ==>
               entries[idx[k]].packet.cameraId == c && start <= entries[idx[k]].at <= start + span
    ensures |idx| <= span / IntervalOf(cfg, c) + 1
  {
    InitialIsOk(cfg, world, s);
    RunKeepsSystem(cfg, world, s, outcomes);
    EntriesFit(cfg, Run(cfg, world, s, outcomes).intake, c, idx, start, span);
  }

  lemma EntriesFit(cfg: Settings, i: Intake, c: CameraId, idx: seq<nat>, start: int, span: nat)
    requires EntriesOk(cfg, i) && IntervalOf(cfg, c) > 0 && Increasing(idx) && Below(idx, |i.entries|)
    requires forall k :: 0 <= k < |idx| ==>
               i.entries[idx[k]].packet.cameraId == c && start <= i.entries[idx[k]].at <= start + span
    ensures |idx| <= span / IntervalOf(cfg, c) + 1
  {
    var times := seq(|idx|, k requires 0 <= k < |idx| => i.entries[idx[k]].at);
    forall k | 0 < k < |times| ensures times[k] - times[k - 1] >= IntervalOf(cfg, c) {
      assert Follows(cfg, i.entries[idx[k - 1]], i.entries[idx[k]]);
    }
    SpacedFit(times, IntervalOf(cfg, c), start, span);
  }

  // ----- fairness -----

  lemma ReadTurnFinds(cfg: Settings, world: World, s: State, c: CameraId)
    requires CameraOk(s.intake, c)
    ensures var reading := Flow(world, Flow(world, s));
            && c in reading.intake.buffers
            && var newest := reading.intake.buffers[c];
            && s.intake.buffers[c].sequence <= newest.sequence
            && ReadTurn(cfg, world, s, c).1
               == if newest.sequence > s.intake.lastSeen[c]
                     && !TooOld(newest.shot, Some(cfg.maxAgeMs), world(s.tick + 1).now)
                  then Some(FramePacket(c, newest.sequence, newest.shot))
                  else None
  {
    FlowGrows(world, s, c);
    FlowGrows(world, Flow(world, s), c);
  }

  /** The camera has no interval, or was last scheduled at least that long ago. */
  predicate HasRested(cfg: Settings, i: Intake, c: CameraId, now: int)
    requires c in i.lastScheduled
  {
    c in cfg.intervals ==> cfg.intervals[c] == 0 || now - i.lastScheduled[c] >= cfg.intervals[c]
  }

  lemma TurnSplits(cfg: Settings, world: World, s: State)
    requires Ready(cfg, s.intake) && CameraOk(s.intake, cfg.order[s.intake.cursor])
    ensures var (c, a) := (cfg.order[s.intake.cursor], Flow(world, s.(intake := Advance(cfg, s.intake))));
            && CameraOk(a.intake, c) && a.tick == s.tick + 1 && a.intake.lastSeen == s.intake.lastSeen
            && s.intake.buffers[c].sequence <= a.intake.buffers[c].sequence
            && Turn(cfg, world, s).1
               == if HasRested(cfg, s.intake, c, world(s.tick).now) then ReadTurn(cfg, world, a, c).1 else None
  {
    var (c, start) := (cfg.order[s.intake.cursor], s.(intake := Advance(cfg, s.intake)));
    FlowKeepsCamera(world, start, c);
    FlowGrows(world, start, c);
  }

  /** The camera whose turn it is goes into the batch exactly when it is due and its newest frame
      at the moment of reading is unseen and not too old; then it is that frame that goes in. */
  lemma DueAndFreshIsCollected(cfg: Settings, world: World, s: State)
    requires Ready(cfg, s.intake) && CameraOk(s.intake, cfg.order[s.intake.cursor])
    ensures var c := cfg.order[s.intake.cursor];
            var reading := Flow(world, Flow(world, Flow(world, s.(intake := Advance(cfg, s.intake)))));
            && c in reading.intake.buffers
            && var newest := reading.intake.buffers[c];
            && s.intake.buffers[c].sequence <= newest.sequence
            && Turn(cfg, world, s).1
               == if HasRested(cfg, s.intake, c, world(s.tick).now) && newest.sequence > s.intake.lastSeen[c]
                     && !TooOld(newest.shot, Some(cfg.maxAgeMs), world(s.tick + 2).now)
                  then Some(FramePacket(c, newest.sequence, newest.shot))
                  else None
  {
    var c := cfg.order[s.intake.cursor];
    var a :| a == Flow(world, s.(intake := Advance(cfg, s.intake)));
    TurnSplits(cfg, world, s);
    ReadTurnFinds(cfg, world, a, c);
  }

  function IsClosed(world: World): State -> bool {
    (s: State) => s.breaker.openUntil <= world(s.tick).now
  }

  function CallsWhen(call: Call, p: State -> bool, s: State, outcomes: seq<Outcome>): nat
    decreases |outcomes|
  {
    if outcomes == [] then 0
    else
      var init := outcomes[..|outcomes| - 1];
      CallsWhen(call, p, s, init) + if p(Calls(call, s, init)) then 1 else 0
  }

  /** The calls of a run that find the circuit closed and so collect. */
  function Collections(cfg: Settings, world: World, s: State, outcomes: seq<Outcome>): nat {
    CallsWhen(CallOf(cfg, world), IsClosed(world), s, outcomes)
  }

  /** If every call that finds p adds m to a measure that never falls, the run adds m for each. */
  lemma {:induction false} CallsAddUp(call: Call, inv: State -> bool, p: State -> bool, measure: State -> int, m: nat,
                                      s: State, outcomes: seq<Outcome>)
    requires inv(s) && forall x: State, o: Outcome :: inv(x) ==>
               inv(call(x, o)) && measure(call(x, o)) >= measure(x) + if p(x) then m else 0
    ensures measure(Calls(call, s, outcomes)) >= measure(s) + CallsWhen(call, p, s, outcomes) * m
    decreases |outcomes|
  {
    if outcomes != [] {
      var init := outcomes[..|outcomes| - 1];
      CallsAddUp(call, inv, p, measure, m, s, init);
      CallsKeep(call, inv, s, init);
      var c := CallsWhen(call, p, s, init);
      assert (c + 1) * m == c * m + m;
    }
  }

  lemma RunOnceTakesTurns(cfg: Settings, world: World, s: State, outcome: Outcome)
    requires Steady(world) && SystemOk(cfg, world, s)
    ensures var made := |RunOnce(cfg, world, s, outcome).0.intake.turns| - |s.intake.turns|;
            if s.breaker.openUntil <= world(s.tick).now then made >= Smaller(|cfg.order|, cfg.batchSize) else made == 0
  {
    WaitingKeepsSystem(cfg, world, s);
    if s.breaker.openUntil <= world(s.tick).now {
      CollectKeepsIntake(cfg, world, Flow(world, s));
      NothingMoreIsCollected(cfg, world, s, outcome);
    }
  }

  function TurnCount(): State -> int {
    (s: State) => |s.intake.turns|
  }

  lemma RunTakesTurns(cfg: Settings, world: World, s: State, outcomes: seq<Outcome>)
    requires Steady(world) && SystemOk(cfg, world, s)
    ensures |Run(cfg, world, s, outcomes).intake.turns| - |s.intake.turns|
            >= Collections(cfg, world, s, outcomes) * Smaller(|cfg.order|, cfg.batchSize)
  {
    var (call, inv, p) := (CallOf(cfg, world), Sound(cfg, world), IsClosed(world));
    var m := Smaller(|cfg.order|, cfg.batchSize);
    forall x: State, o: Outcome | inv(x)
      ensures inv(call(x, o)) && TurnCount()(call(x, o)) >= TurnCount()(x) + if p(x) then m else 0
    {
      RunOnceKeepsSystem(cfg, world, x, o);
      RunOnceTakesTurns(cfg, world, x, o);
    }
    CallsAddUp(call, inv, p, TurnCount(), m, s, outcomes);
  }

  /** A camera's turn comes round within any n turns. */
  lemma TurnComesRound(turns: seq<CameraId>, order: seq<CameraId>, start: nat, k: nat)
    requires k < |order| && start + |order| <= |turns|
    requires forall j :: 0 <= j < |turns| ==> turns[j] == order[j % |order|]
    ensures order[k] in turns[start..]
  {
    var n := |order|;
    var q := start / n;
    assert start == q * n + start % n;
    var j := if k >= start % n then q * n + k else (q + 1) * n + k;
    assert (q + 1) * n == q * n + n;
    ModIs(j, n, if k >= start % n then q else q + 1, k);
    assert turns[start..][j - start] == turns[j];
  }

  function CeilDiv(a: nat, b: nat): nat
    requires b > 0
  {
    (a + b - 1) / b
  }

  lemma CeilCovers(a: nat, b: nat, r: nat)
    requires b > 0 && r >= CeilDiv(a, b)
    ensures r * b >= a
  {
    var q := CeilDiv(a, b);
    assert a + b - 1 == q * b + (a + b - 1) % b;
    assert r * b >= q * b;
  }

  /** With n cameras and batches of B, every camera's turn comes within ceil(n / min(n, B))
      collections, wherever the run starts and whatever happens in it. */
  lemma NobodyStarves(cfg: Settings, world: World, s: State, outcomes: seq<Outcome>, k: nat)
    requires Steady(world) && SystemOk(cfg, world, s) && k < |cfg.order| && cfg.batchSize > 0
    requires Collections(cfg, world, s, outcomes) >= CeilDiv(|cfg.order|, Smaller(|cfg.order|, cfg.batchSize))
    ensures |s.intake.turns| <= |Run(cfg, world, s, outcomes).intake.turns|
    ensures cfg.order[k] in Run(cfg, world, s, outcomes).intake.turns[|s.intake.turns|..]
  {
    RunKeepsSystem(cfg, world, s, outcomes);
    RunTakesTurns(cfg, world, s, outcomes);
    CeilCovers(|cfg.order|, Smaller(|cfg.order|, cfg.batchSize), Collections(cfg, world, s, outcomes));
    TurnComesRound(Run(cfg, world, s, outcomes).intake.turns, cfg.order, |s.intake.turns|, k);
  }

  // ----- what was seen is not collected any more -----

  /** From s to t only frames newer than what s had seen of their camera were collected. */
  predicate OnlyNewer(s: State, t: State) {
    var (a, b, seen, later) := (s.intake.entries, t.intake.entries, s.intake.lastSeen, t.intake.lastSeen);
    && a <= b && (forall c <- seen :: c in later && seen[c] <= later[c])
    && (forall k :: |a| <= k < |b| && b[k].packet.cameraId in seen ==> seen[b[k].packet.cameraId] < b[k].packet.frameId)
  }

  lemma NewerComposes(x: State, y: State, z: State)
    requires OnlyNewer(x, y) && OnlyNewer(y, z)
    ensures OnlyNewer(x, z)
  {
    var (a, b, c) := (x.intake.entries, y.intake.entries, z.intake.entries);
    forall k | |a| <= k < |c| && c[k].packet.cameraId in x.intake.lastSeen
      ensures x.intake.lastSeen[c[k].packet.cameraId] < c[k].packet.frameId
    {
      assert k < |b| ==> c[k] == b[k];
    }
  }

  function NewerPackets(): (State, State, seq<FramePacket>) -> bool {
    (s: State, t: State, packets: seq<FramePacket>) => OnlyNewer(s, t)
  }

  lemma TurnIsNewer(cfg: Settings, world: World, s: State)
    requires Steady(world) && cfg.order != [] && IntakeOk(cfg, s.intake)
    ensures OnlyNewer(s, TurnOf(cfg, world)(s).0)
  {
    TurnCollects(cfg, world, s);
  }

  lemma TurnsAreNewer(cfg: Settings, world: World)
    requires Steady(world)
    ensures forall x: State :: KeepsIntake(cfg)(x) ==>
              KeepsIntake(cfg)(TurnOf(cfg, world)(x).0)
              && NewerPackets()(x, TurnOf(cfg, world)(x).0, Found(TurnOf(cfg, world)(x).1))
  {
    forall x: State | KeepsIntake(cfg)(x)
      ensures KeepsIntake(cfg)(TurnOf(cfg, world)(x).0) && OnlyNewer(x, TurnOf(cfg, world)(x).0)
    {
      StepKeepsIntake(cfg, world, x);
      TurnIsNewer(cfg, world, x);
    }
  }

  lemma RoundsAreNewer(step: Step, inv: State -> bool, cameras: nat, size: nat, s: State, checked: nat,
                       batch: seq<FramePacket>)
    requires inv(s) && forall x: State :: inv(x) ==> inv(step(x).0) && NewerPackets()(x, step(x).0, Found(step(x).1))
    ensures OnlyNewer(s, Rounds(step, cameras, size, s, checked, batch).0)
  {
    var r := NewerPackets();
    forall x, y, z, a, b | r(x, y, a) && r(y, z, b) ensures r(x, z, a + b) {
      NewerComposes(x, y, z);
    }
    RoundsRelate(step, inv, r, cameras, size, s, checked, batch);
  }

  lemma CollectIsNewer(cfg: Settings, world: World, s: State)
    requires Steady(world) && IntakeOk(cfg, s.intake)
    ensures OnlyNewer(s, Collect(cfg, world, s).0)
  {
    if cfg.order != [] {
      TurnsAreNewer(cfg, world);
      RoundsAreNewer(TurnOf(cfg, world), KeepsIntake(cfg), |cfg.order|, cfg.batchSize, s, 0, []);
    }
  }

  /** Nothing was collected, seen or visited in between. */
  predicate SameRecord(s: State, t: State) {
    && t.intake.entries == s.intake.entries && t.intake.turns == s.intake.turns
    && t.intake.lastSeen == s.intake.lastSeen && t.intake.lastScheduled == s.intake.lastScheduled
    && s.tick <= t.tick
  }

  lemma FinishingCollectsNothing(cfg: Settings, world: World, b: State, batch: seq<FramePacket>,
                                 outputs: seq<seq<TrackerSpec.Detection>>)
    requires OutboxOk(cfg, b.outbox) && |batch| == |outputs| && batch != []
    ensures SameRecord(b, FinishBatch(cfg, world, b, batch, outputs))
  {
    DeliverAllIsSound(cfg, world, b.(breaker := b.breaker.(consecutive := 0)), batch, outputs);
  }

  lemma FailingCollectsNothing(cfg: Settings, world: World, b: State, frames: nat)
    ensures SameRecord(b, FailBatch(cfg, world, b, frames))
  {
  }

  /** Once its batch is collected, a call collects nothing more and takes no more turns. */
  lemma NothingMoreIsCollected(cfg: Settings, world: World, s: State, outcome: Outcome)
    requires Steady(world) && SystemOk(cfg, world, s) && s.breaker.openUntil <= world(s.tick).now
    ensures SameRecord(Collect(cfg, world, Flow(world, s)).0, RunOnce(cfg, world, s, outcome).0)
  {
    WaitingKeepsSystem(cfg, world, s);
    var (b, batch) := Collect(cfg, world, Flow(world, s));
    CollectIsUndisturbed(cfg, world, Flow(world, s));
    if batch != [] {
      if Fails(cfg, outcome, |batch|) {
        FailingCollectsNothing(cfg, world, b, |batch|);
      } else {
        FinishingCollectsNothing(cfg, world, b, batch, outcome.outputs);
      }
    }
  }

  lemma NewerThenSame(x: State, y: State, z: State)
    requires OnlyNewer(x, y) && SameRecord(y, z)
    ensures OnlyNewer(x, z)
  {
  }

  lemma RunOnceIsNewer(cfg: Settings, world: World, s: State, outcome: Outcome)
    requires Steady(world) && SystemOk(cfg, world, s)
    ensures OnlyNewer(s, RunOnce(cfg, world, s, outcome).0)
  {
    var a := Flow(world, s);
    WaitingKeepsSystem(cfg, world, s);
    if s.breaker.openUntil <= world(s.tick).now {
      CollectIsNewer(cfg, world, a);
      NothingMoreIsCollected(cfg, world, s, outcome);
      NewerThenSame(a, Collect(cfg, world, a).0, RunOnce(cfg, world, s, outcome).0);
    }
  }

  lemma {:induction false} CallsRelate(call: Call, inv: State -> bool, r: (State, State) -> bool, s: State,
                                       outcomes: seq<Outcome>)
    requires inv(s) && forall x: State, o: Outcome :: inv(x) ==> inv(call(x, o)) && r(x, call(x, o))
    requires (forall x: State :: r(x, x)) && forall x, y, z :: r(x, y) && r(y, z) ==> r(x, z)
    ensures r(s, Calls(call, s, outcomes))
    decreases |outcomes|
  {
    if outcomes != [] {
      var init := outcomes[..|outcomes| - 1];
      CallsRelate(call, inv, r, s, init);
      CallsKeep(call, inv, s, init);
    }
  }

  function Newness(): (State, State) -> bool {
    (s: State, t: State) => OnlyNewer(s, t)
  }

  /** No frame at or below what the scheduler has once seen of a camera is ever collected again. */
  lemma OnlyNewFramesAreCollected(cfg: Settings, world: World, s: State, outcomes: seq<Outcome>)
    requires Steady(world) && SystemOk(cfg, world, s)
    ensures OnlyNewer(s, Run(cfg, world, s, outcomes))
  {
    var (call, inv) := (CallOf(cfg, world), Sound(cfg, world));
    forall x: State, o: Outcome | inv(x) ensures inv(call(x, o)) && Newness()(x, call(x, o)) {
      RunOnceKeepsSystem(cfg, world, x, o);
      RunOnceIsNewer(cfg, world, x, o);
    }
    forall x, y, z | Newness()(x, y) && Newness()(y, z) ensures Newness()(x, z) {
      NewerComposes(x, y, z);
    }
    CallsRelate(call, inv, Newness(), s, outcomes);
  }
}
