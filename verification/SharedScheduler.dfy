/** The shared scheduler as the program runs it, field by field. Every access to a camera's
    buffer, to the result queue or to the clock lets the other threads act first; each method is
    proved against SchedulerSpec. */
module SharedScheduler {
  import opened Options
  import opened LatestFrames
  import opened ResultQueue
  import opened SchedulerSpec
  import opened SchedulerIntake
  import opened SchedulerRuns
  import TrackerSpec

  class SharedInferenceScheduler {
    const cfg: Settings
    const world: World
    var tick: nat
    var buffers: map<CameraId, Latest>
    var cursor: nat
    var lastSequences: map<CameraId, nat>
    var lastScheduledNs: map<CameraId, int>
    var results: seq<ScheduledResult>
    var processedFrames: nat
    var staleFrames: nat
    var failedBatches: nat
    var resultDrops: nat
    var circuitOpenCount: nat
    var consecutiveFailures: nat
    var circuitOpenUntilNs: int
    ghost var entries: seq<Entry>
    ghost var turns: seq<CameraId>
    ghost var produced: seq<ScheduledResult>
    ghost var taken: seq<ScheduledResult>
    ghost var kept: seq<nat>
    ghost var opens: seq<int>
    ghost var lostFrames: nat
    ghost var sources: seq<nat>

    /** The fields show the state s. */
    ghost predicate Shows(s: State)
      reads this
    {
      && tick == s.tick && processedFrames == s.processed && lostFrames == s.lostFrames && sources == s.sources
      && s.intake == Intake(buffers, cursor, lastSequences, lastScheduledNs, staleFrames, entries, turns)
      && s.outbox == Outbox(taken + results, |taken|, resultDrops, produced, kept)
      && s.breaker == Breaker(consecutiveFailures, circuitOpenUntilNs, failedBatches, circuitOpenCount, opens)
    }

    constructor (cfg: Settings, world: World, buffers: map<CameraId, Latest>)
      ensures Shows(Begin(buffers)) && this.cfg == cfg && this.world == world
    {
      this.cfg, this.world := cfg, world;
      tick := 0;
      this.buffers := buffers;
      cursor := 0;
      lastSequences := map c <- buffers.Keys :: 0;
      lastScheduledNs := map c <- buffers.Keys :: 0;
      results := [];
      processedFrames, staleFrames, failedBatches, resultDrops, circuitOpenCount := 0, 0, 0, 0, 0;
      consecutiveFailures, circuitOpenUntilNs := 0, 0;
      entries, turns, produced, taken, kept, opens, lostFrames, sources := [], [], [], [], [], [], 0, [];
    }

    /** get_result: the oldest queued result, if any. */
    method GetResult(ghost s: State) returns (result: Option<ScheduledResult>)
      requires Shows(s)
      modifies this`results, this`taken
      ensures Shows(s.(outbox := TakeMany(s.outbox, 1)))
      ensures result == if s.outbox.head < |s.outbox.line| then Some(s.outbox.line[s.outbox.head]) else None
    {
      if results == [] {
        return None;
      }
      result := Some(results[0]);
      assert taken + results == taken + [results[0]] + results[1..];
      taken := taken + [results[0]];
      results := results[1..];
    }

    /** The other threads' steps before an access, and the clock at it. */
    method Access(ghost s: State) returns (now: int)
      requires Shows(s)
      modifies this`tick, this`buffers, this`results, this`taken
      ensures Shows(Flow(world, s)) && now == world(s.tick).now
    {
      var m := world(tick);
      buffers := PublishAll(buffers, m.shots);
      ghost var published := s.(intake := s.intake.(buffers := buffers));
      for k := 0 to m.takes
        invariant Shows(published.(outbox := TakeMany(s.outbox, k)))
      {
        var result := GetResult(published.(outbox := TakeMany(s.outbox, k)));
      }
      tick := tick + 1;
      now := m.now;
    }

    /** read_latest on camera c's buffer. */
    method ReadBuffer(c: CameraId, now: int, ghost s: State) returns (packet: Option<FramePacket>)
      requires Shows(s) && c in buffers && c in lastSequences
      modifies this`buffers
      ensures var (after, found) := ReadStep(cfg, s.intake, c, now);
              Shows(s.(intake := after)) && packet == found
    {
      var (b, found) := Read(c, buffers[c], lastSequences[c], Some(cfg.maxAgeMs), now);
      buffers := buffers[c := b];
      return found;
    }

    /** The stale counter, the frame, and the stale counter again. */
    method ReadFrame(c: CameraId, ghost s: State) returns (packet: Option<FramePacket>, stale: bool)
      requires Shows(s) && c in buffers && c in lastSequences
      modifies this
      ensures var (after, found, wasStale) := ReadAccesses(cfg, world, s, c);
              Shows(after) && packet == found && stale == wasStale
    {
      ghost var a := Flow(world, s);
      ghost var b := Flow(world, a);
      var _ := Access(s);
      var before := buffers[c].stale;
      var now := Access(a);
      packet := ReadBuffer(c, now, b);
      var _ := Access(b.(intake := ReadStep(cfg, b.intake, c, now).0));
      stale := buffers[c].stale > before;
    }

    method SkipToNewest(c: CameraId, ghost s: State)
      requires Shows(s) && c in buffers
      modifies this`staleFrames, this`lastSequences
      ensures Shows(s.(intake := MarkStale(s.intake, c)))
    {
      staleFrames := staleFrames + 1;
      lastSequences := lastSequences[c := buffers[c].sequence];
    }

    /** A stale frame counts as seen, and so does whatever was published since. */
    method ReadCamera(c: CameraId, ghost s: State) returns (packet: Option<FramePacket>)
      requires Shows(s) && c in buffers && c in lastSequences
      modifies this
      ensures var (after, found) := ReadTurn(cfg, world, s, c);
              Shows(after) && packet == found
    {
      var stale;
      packet, stale := ReadFrame(c, s);
      if stale {
        var _ := Access(ReadAccesses(cfg, world, s, c).0);
        SkipToNewest(c, Flow(world, ReadAccesses(cfg, world, s, c).0));
      }
    }

    method Enrol(c: CameraId, packet: FramePacket, now: int, ghost s: State)
      requires Shows(s)
      modifies this`lastSequences, this`lastScheduledNs, this`entries
      ensures Shows(s.(intake := Enter(s.intake, c, packet, now)))
    {
      lastSequences := lastSequences[c := packet.frameId];
      lastScheduledNs := lastScheduledNs[c := now];
      entries := entries + [Entry(packet, now)];
    }

    /** Reads a due camera's buffer and schedules what it finds. */
    method Schedule(c: CameraId, ghost s: State) returns (packet: Option<FramePacket>)
      requires Shows(s) && c in buffers && c in lastSequences
      modifies this
      ensures var (after, found) := ScheduleTurn(cfg, world, s, c);
              Shows(after) && packet == found
    {
      packet := ReadCamera(c, s);
      if packet == None {
        return;
      }
      ghost var b := ReadTurn(cfg, world, s, c).0;
      var now := Access(b);
      Enrol(c, packet.value, now, Flow(world, b));
    }

    /** One round of the collecting loop. */
    method CheckCamera(ghost s: State) returns (packet: Option<FramePacket>)
      requires Shows(s) && Ready(cfg, s.intake)
      modifies this
      ensures var (after, found) := Turn(cfg, world, s);
              Shows(after) && packet == found
    {
      var c := cfg.order[cursor];
      cursor := (cursor + 1) % |cfg.order|;
      turns := turns + [c];
      var interval := IntervalOf(cfg, c);
      ghost var start := s.(intake := Advance(cfg, s.intake));
      var now := Access(start);
      if interval != 0 && now - lastScheduledNs[c] < interval {
        return None;
      }
      packet := Schedule(c, Flow(world, start));
    }

    method CollectBatch(ghost s: State) returns (batch: seq<FramePacket>)
      requires Shows(s) && (cfg.order != [] ==> Ready(cfg, s.intake))
      modifies this
      ensures var (after, packets) := Collect(cfg, world, s);
              Shows(after) && batch == packets
    {
      batch := [];
      if cfg.order == [] {
        return;
      }
      var checked := 0;
      ghost var t := s;
      while checked < |cfg.order| && |batch| < cfg.batchSize
        invariant Shows(t) && Ready(cfg, t.intake)
        invariant Rounds(TurnOf(cfg, world), |cfg.order|, cfg.batchSize, t, checked, batch) == Collect(cfg, world, s)
        decreases |cfg.order| - checked
      {
        NextRound(cfg, world, t, checked, batch);
        var packet := CheckCamera(t);
        t := Turn(cfg, world, t).0;
        checked := checked + 1;
        if packet.Some? {
          batch := batch + [packet.value];
        }
      }
    }

    /** get_nowait: the oldest queued result is lost. */
    method DropResult(ghost s: State)
      requires Shows(s)
      modifies this`results, this`resultDrops, this`kept
      ensures Shows(s.(outbox := DropOldest(s.outbox)))
    {
      if results != [] {
        assert Without(taken + results, |taken|) == taken + results[1..];
        kept := Without(kept, |taken|);
        results := results[1..];
        resultDrops := resultDrops + 1;
      }
    }

    /** put_nowait. */
    method AppendResult(result: ScheduledResult, ghost s: State)
      requires Shows(s)
      modifies this`results, this`produced, this`kept
      ensures Shows(s.(outbox := Append(s.outbox, result)))
    {
      produced, kept := produced + [result], kept + [|produced|];
      assert taken + results + [result] == taken + (results + [result]);
      results := results + [result];
    }

    /** Builds the result and puts it on the queue, dropping the oldest when there is no room. */
    method PutResult(packet: FramePacket, output: seq<TrackerSpec.Detection>, ghost s: State)
      requires Shows(s)
      modifies this
      ensures Shows(Deliver(cfg, world, s, packet, output))
    {
      ghost var a := Flow(world, s);
      ghost var b := Flow(world, a);
      ghost var d := Flow(world, b);
      var now := Access(s);
      var result := ScheduledResult(packet, AgeMs(packet, now), output);
      var _ := Access(a);
      var full := 0 < cfg.resultLimit <= |results|;
      var _ := Access(b);
      if full {
        DropResult(d);
        ghost var dropped := d.(outbox := DropOldest(d.outbox));
        var _ := Access(dropped);
        AppendResult(result, Flow(world, dropped));
      } else {
        AppendResult(result, d);
      }
    }

    method PutResults(batch: seq<FramePacket>, outputs: seq<seq<TrackerSpec.Detection>>, ghost s: State)
      requires Shows(s) && |batch| == |outputs|
      modifies this
      ensures Shows(DeliverAll(cfg, world, s, batch, outputs))
    {
      for k := 0 to |batch|
        invariant Shows(DeliverAll(cfg, world, s, batch[..k], outputs[..k]))
      {
        assert batch[..k + 1][..k] == batch[..k] && outputs[..k + 1][..k] == outputs[..k];
        PutResult(batch[k], outputs[k], DeliverAll(cfg, world, s, batch[..k], outputs[..k]));
      }
      assert batch[..|batch|] == batch && outputs[..|batch|] == outputs;
    }

    method OpenCircuit(now: int, ghost s: State)
      requires Shows(s)
      modifies this`circuitOpenUntilNs, this`opens, this`circuitOpenCount, this`consecutiveFailures
      ensures Shows(s.(breaker := Opened(cfg, s.breaker, now)))
    {
      circuitOpenUntilNs := now + cfg.breakerResetNs;
      opens := opens + [now];
      circuitOpenCount := circuitOpenCount + 1;
      consecutiveFailures := 0;
    }

    /** The except branch of run_once. */
    method CountFailure(ghost frames: nat, ghost s: State)
      requires Shows(s)
      modifies this
      ensures Shows(FailBatch(cfg, world, s, frames))
    {
      lostFrames := lostFrames + frames;
      failedBatches := failedBatches + 1;
      consecutiveFailures := consecutiveFailures + 1;
      if consecutiveFailures >= cfg.breakerFailures {
        ghost var t := Failed(s, frames);
        var now := Access(t);
        OpenCircuit(now, Flow(world, t));
      }
    }

    method AddTotals(n: nat, ghost first: nat, ghost s: State)
      requires Shows(s)
      modifies this`sources, this`processedFrames
      ensures Shows(s.(processed := s.processed + n, sources := s.sources + Numbers(first, n)))
    {
      sources := sources + Numbers(first, n);
      processedFrames := processedFrames + n;
    }

    /** The branch of run_once that delivers the batch's results. */
    method Finish(batch: seq<FramePacket>, outputs: seq<seq<TrackerSpec.Detection>>, ghost s: State)
      requires Shows(s) && |batch| == |outputs|
      modifies this
      ensures Shows(FinishBatch(cfg, world, s, batch, outputs))
    {
      ghost var start := s.(breaker := s.breaker.(consecutive := 0));
      consecutiveFailures := 0;
      PutResults(batch, outputs, start);
      AddTotals(|batch|, FirstOf(s, batch), DeliverAll(cfg, world, start, batch, outputs));
    }

    /** One call of run_once; `outcome` is what the pipeline does with the batch. */
    method RunOnce(outcome: Outcome, ghost s: State) returns (n: nat)
      requires Shows(s) && Steady(world) && SystemOk(cfg, world, s)
      modifies this
      ensures var (after, processed) := SchedulerSpec.RunOnce(cfg, world, s, outcome);
              Shows(after) && SystemOk(cfg, world, after) && n == processed
    {
      RunOnceKeepsSystem(cfg, world, s, outcome);
      WaitingKeepsSystem(cfg, world, s);
      ghost var a := Flow(world, s);
      var now := Access(s);
      if now < circuitOpenUntilNs {
        return 0;
      }
      var batch := CollectBatch(a);
      ghost var b := Collect(cfg, world, a).0;
      if batch == [] {
        return 0;
      }
      if Fails(cfg, outcome, |batch|) {
        CountFailure(|batch|, b);
        return 0;
      }
      Finish(batch, outcome.outputs, b);
      return |batch|;
    }
  }

  /** One more round of the collecting loop. */
  lemma NextRound(cfg: Settings, world: World, t: State, checked: nat, batch: seq<FramePacket>)
    requires Ready(cfg, t.intake) && checked < |cfg.order| && |batch| < cfg.batchSize
    ensures var (next, packet) := Turn(cfg, world, t);
            && Ready(cfg, next.intake)
            && Rounds(TurnOf(cfg, world), |cfg.order|, cfg.batchSize, t, checked, batch)
               == Rounds(TurnOf(cfg, world), |cfg.order|, cfg.batchSize, next, checked + 1,
                         if packet.Some? then batch + [packet.value] else batch)
  {
    var packet := Turn(cfg, world, t).1;
    TurnKeepsReady(cfg, world, t);
    RoundsStep(TurnOf(cfg, world), |cfg.order|, cfg.batchSize, t, checked, batch);
    assert batch + Found(packet) == if packet.Some? then batch + [packet.value] else batch;
  }
}
