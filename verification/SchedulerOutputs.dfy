/** Each result carries what the pipeline answered for its own frame. */
module SchedulerOutputs {
  import opened LatestFrames
  import opened Lists
  import opened ResultQueue
  import opened SchedulerSpec
  import opened SchedulerIntake
  import opened SchedulerRuns
  import TrackerSpec

  type Output = seq<TrackerSpec.Detection>

  /** The k-th result is for the k-th packet and carries the k-th output. */
  predicate Carries(results: seq<ScheduledResult>, packets: seq<FramePacket>, outputs: seq<Output>) {
    && |results| == |packets| == |outputs|
    && forall k :: 0 <= k < |results| ==> results[k].packet == packets[k] && results[k].output == outputs[k]
  }

  lemma CarriesOneMore(results: seq<ScheduledResult>, r: ScheduledResult, packets: seq<FramePacket>,
                       outputs: seq<Output>)
    requires |packets| == |outputs| == |results| + 1 && Carries(results, packets[..|results|], outputs[..|results|])
    requires r.packet == packets[|results|] && r.output == outputs[|results|]
    ensures Carries(results + [r], packets, outputs)
  {
    var n := |results|;
    forall k | 0 <= k <= n
      ensures (results + [r])[k].packet == packets[k] && (results + [r])[k].output == outputs[k]
    {
      assert k < n ==> results[k].packet == packets[..n][k] && results[k].output == outputs[..n][k];
    }
  }

  lemma {:induction false} DeliverAllCarries(cfg: Settings, world: World, s: State, batch: seq<FramePacket>,
                                             outputs: seq<Output>) returns (more: seq<ScheduledResult>)
    requires OutboxOk(cfg, s.outbox) && |batch| == |outputs|
    ensures var o := DeliverAll(cfg, world, s, batch, outputs).outbox;
            OutboxOk(cfg, o) && o.produced == s.outbox.produced + more && Carries(more, batch, outputs)
    decreases |batch|
  {
    if batch == [] {
      more := [];
    } else {
      var n := |batch| - 1;
      var m := DeliverAll(cfg, world, s, batch[..n], outputs[..n]);
      var init := DeliverAllCarries(cfg, world, s, batch[..n], outputs[..n]);
      DeliverProduces(cfg, world, m, batch[n], outputs[n]);
      var r := ScheduledResult(batch[n], AgeMs(batch[n], world(m.tick).now), outputs[n]);
      CarriesOneMore(init, r, batch, outputs);
      more := init + [r];
    }
  }

  /** The pipeline answered in time with one output for each frame. */
  predicate Succeeds(cfg: Settings, outcome: Outcome, frames: nat) {
    outcome.Answers? && outcome.elapsedMs <= cfg.timeoutMs && |outcome.outputs| == frames
  }

  /** The packets a call collected: those of the entries it added. */
  function Gathered(s: State, t: State): seq<FramePacket>
    requires |s.intake.entries| <= |t.intake.entries|
  {
    Packets(t.intake.entries[|s.intake.entries|..])
  }

  /** What a call did: it collected some frames, and either all their results were produced, each with
      its own output, or none was. */
  predicate Paired(cfg: Settings, s: State, t: State, outcome: Outcome, more: seq<ScheduledResult>) {
    && s.intake.entries <= t.intake.entries && t.outbox.produced == s.outbox.produced + more
    && var batch := Gathered(s, t);
    if batch != [] && Succeeds(cfg, outcome, |batch|) then Carries(more, batch, outcome.outputs)
    else more == [] && t.lostFrames == s.lostFrames + |batch|
  }

  lemma EntriesStand(s: State, t: State)
    requires t.intake.entries == s.intake.entries
    ensures s.intake.entries <= t.intake.entries && Gathered(s, t) == []
  {
  }

  lemma SuccessPairs(cfg: Settings, world: World, s: State, b: State, batch: seq<FramePacket>, outputs: seq<Output>)
    returns (more: seq<ScheduledResult>)
    requires OutboxOk(cfg, b.outbox) && |batch| == |outputs| && batch != [] && Gathers(world, s, b, batch)
    requires b.outbox.produced == s.outbox.produced
    ensures var t := FinishBatch(cfg, world, b, batch, outputs);
            && s.intake.entries <= t.intake.entries && Gathered(s, t) == batch
            && t.outbox.produced == s.outbox.produced + more && Carries(more, batch, outputs)
  {
    more := DeliverAllCarries(cfg, world, b.(breaker := b.breaker.(consecutive := 0)), batch, outputs);
    FinishingCollectsNothing(cfg, world, b, batch, outputs);
  }

  /** One call pairs the frames it collects with the pipeline's outputs, one to one and in order. */
  lemma RunOncePairs(cfg: Settings, world: World, s: State, outcome: Outcome) returns (more: seq<ScheduledResult>)
    requires Steady(world) && SystemOk(cfg, world, s)
    ensures Paired(cfg, s, RunOnce(cfg, world, s, outcome).0, outcome, more)
  {
    more := [];
    var a := Flow(world, s);
    WaitingKeepsSystem(cfg, world, s);
    FlowIsUndisturbed(cfg, world, s);
    if world(s.tick).now < s.breaker.openUntil {
      EntriesStand(s, a);
    } else {
      var (b, batch) := Collect(cfg, world, a);
      CollectKeepsIntake(cfg, world, a);
      CollectIsUndisturbed(cfg, world, a);
      if batch != [] && Succeeds(cfg, outcome, |batch|) {
        more := SuccessPairs(cfg, world, a, b, batch, outcome.outputs);
      } else if batch != [] {
        FailureIsUndisturbed(cfg, world, b, |batch|);
      }
    }
  }

  // ----- over every run -----

  /** Result r is the answer of call n for the j-th frame of its batch. */
  predicate CameFrom(cfg: Settings, world: World, s: State, outcomes: seq<Outcome>, r: ScheduledResult, n: nat, j: nat)
  {
    && n < |outcomes|
    && var (before, after) := (Run(cfg, world, s, outcomes[..n]), Run(cfg, world, s, outcomes[..n + 1]));
    && before.intake.entries <= after.intake.entries
    && var batch := Gathered(before, after);
    && Succeeds(cfg, outcomes[n], |batch|) && j < |batch|
    && r.packet == batch[j] && r.output == outcomes[n].outputs[j]
  }

  lemma CameFromEarlier(cfg: Settings, world: World, s: State, early: seq<Outcome>, last: Outcome, r: ScheduledResult,
                        n: nat, j: nat)
    requires CameFrom(cfg, world, s, early, r, n, j)
    ensures CameFrom(cfg, world, s, early + [last], r, n, j)
  {
    assert (early + [last])[..n] == early[..n] && (early + [last])[..n + 1] == early[..n + 1];
  }

  lemma RunStep(cfg: Settings, world: World, s: State, early: seq<Outcome>, last: Outcome)
    ensures Run(cfg, world, s, early + [last]) == RunOnce(cfg, world, Run(cfg, world, s, early), last).0
  {
    assert (early + [last])[..|early|] == early;
  }

  lemma LastCallPairs(cfg: Settings, world: World, s: State, early: seq<Outcome>, last: Outcome)
    returns (more: seq<ScheduledResult>)
    requires Steady(world) && Initial(cfg, s)
    ensures Paired(cfg, Run(cfg, world, s, early), Run(cfg, world, s, early + [last]), last, more)
  {
    InitialIsOk(cfg, world, s);
    RunKeepsSystem(cfg, world, s, early);
    more := RunOncePairs(cfg, world, Run(cfg, world, s, early), last);
    RunStep(cfg, world, s, early, last);
  }

  lemma CameFromLast(cfg: Settings, world: World, s: State, early: seq<Outcome>, last: Outcome,
                     more: seq<ScheduledResult>, j: nat)
    requires Paired(cfg, Run(cfg, world, s, early), Run(cfg, world, s, early + [last]), last, more) && j < |more|
    ensures CameFrom(cfg, world, s, early + [last], more[j], |early|, j)
  {
    assert (early + [last])[..|early|] == early && (early + [last])[..|early| + 1] == early + [last];
  }

  /** Over every run each result produced carries what the pipeline answered for that very frame, in
      the call that collected it. */
  lemma {:induction false} ResultsCarryTheirAnswers(cfg: Settings, world: World, s: State, outcomes: seq<Outcome>,
                                                    k: nat)
    returns (n: nat, j: nat)
    requires Steady(world) && Initial(cfg, s) && k < |Run(cfg, world, s, outcomes).outbox.produced|
    ensures CameFrom(cfg, world, s, outcomes, Run(cfg, world, s, outcomes).outbox.produced[k], n, j)
    decreases |outcomes|
  {
    n, j := 0, 0;
    if outcomes != [] {
      var (early, last) := (outcomes[..|outcomes| - 1], outcomes[|outcomes| - 1]);
      assert early + [last] == outcomes;
      var more := LastCallPairs(cfg, world, s, early, last);
      var before := Run(cfg, world, s, early).outbox.produced;
      if k < |before| {
        n, j := ResultsCarryTheirAnswers(cfg, world, s, early, k);
        CameFromEarlier(cfg, world, s, early, last, before[k], n, j);
      } else {
        n, j := |early|, k - |before|;
        CameFromLast(cfg, world, s, early, last, more, j);
      }
    }
  }

  /** So does every result that the consumer takes. */
  lemma TakenCarryTheirAnswers(cfg: Settings, world: World, s: State, outcomes: seq<Outcome>, m: nat)
    returns (n: nat, j: nat)
    requires Steady(world) && Initial(cfg, s)
    ensures var o := Run(cfg, world, s, outcomes).outbox;
            o.head <= |o.line| && (m < |Taken(o)| ==> CameFrom(cfg, world, s, outcomes, Taken(o)[m], n, j))
  {
    InitialIsOk(cfg, world, s);
    RunKeepsSystem(cfg, world, s, outcomes);
    var o := Run(cfg, world, s, outcomes).outbox;
    n, j := 0, 0;
    if m < |Taken(o)| {
      assert o.line[m] == Select(o.produced, o.kept)[m];
      n, j := ResultsCarryTheirAnswers(cfg, world, s, outcomes, o.kept[m]);
    }
  }

  /** The age a result is given is the time since its frame was captured, and never negative. */
  lemma AgeIsElapsed(packet: FramePacket, now: int)
    ensures 1000000.0 * AgeMs(packet, now)
            == if now <= packet.shot.monotonicNs then 0.0 else (now - packet.shot.monotonicNs) as real
  {
  }
}
