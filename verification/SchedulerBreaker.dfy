/** The circuit breaker counts exactly: it opens at every failure that completes another threshold of
    failures in a row, and at no other time. */
module SchedulerBreaker {
  import opened LatestFrames
  import opened Lists
  import opened SchedulerSpec
  import opened SchedulerIntake
  import opened SchedulerRuns
  import opened SchedulerOutputs

  /** What became of a call: it had no batch, or its batch failed or succeeded. */
  datatype Verdict = NoBatch | Failure | Success

  function VerdictOf(cfg: Settings, s: State, t: State, outcome: Outcome): Verdict {
    if |s.intake.entries| >= |t.intake.entries| then NoBatch
    else if Succeeds(cfg, outcome, |Gathered(s, t)|) then Success
    else Failure
  }

  function Verdicts(cfg: Settings, world: World, s: State, outcomes: seq<Outcome>): (vs: seq<Verdict>)
    ensures |vs| == |outcomes|
    decreases |outcomes|
  {
    if outcomes == [] then []
    else
      var n := |outcomes| - 1;
      Verdicts(cfg, world, s, outcomes[..n])
      + [VerdictOf(cfg, Run(cfg, world, s, outcomes[..n]), Run(cfg, world, s, outcomes), outcomes[n])]
  }

  /** The failed batches since the last one that succeeded. */
  function FailuresInARow(vs: seq<Verdict>): nat
    decreases |vs|
  {
    if vs == [] then 0
    else
      var init := vs[..|vs| - 1];
      match vs[|vs| - 1]
      case NoBatch => FailuresInARow(init)
      case Failure => FailuresInARow(init) + 1
      case Success => 0
  }

  /** What is left of n after taking the threshold away as often as it goes. */
  function Rest(n: nat, threshold: nat): nat
    requires threshold > 0
  {
    if n < threshold then n else Rest(n - threshold, threshold)
  }

  /** How often the failures in a row reached a multiple of the threshold. */
  function Openings(threshold: nat, vs: seq<Verdict>): nat
    requires threshold > 0
    decreases |vs|
  {
    if vs == [] then 0
    else
      Openings(threshold, vs[..|vs| - 1])
      + if vs[|vs| - 1].Failure? && Rest(FailuresInARow(vs), threshold) == 0 then 1 else 0
  }

  function IsFailure(): Verdict -> bool {
    (v: Verdict) => v.Failure?
  }

  predicate Moves(threshold: nat, b: Breaker, c: Breaker, v: Verdict)
    requires threshold > 0
  {
    match v
    case NoBatch => c == b
    case Success => c == b.(consecutive := 0)
    case Failure =>
      && c.failedBatches == b.failedBatches + 1
      && c.consecutive == (if b.consecutive + 1 == threshold then 0 else b.consecutive + 1)
      && c.openCount == b.openCount + if c.consecutive == 0 then 1 else 0
  }

  lemma FailureMoves(cfg: Settings, world: World, b: State, frames: nat)
    requires b.breaker.consecutive < cfg.breakerFailures
    ensures Moves(cfg.breakerFailures, b.breaker, FailBatch(cfg, world, b, frames).breaker, Failure)
  {
  }

  lemma SuccessMoves(cfg: Settings, world: World, b: State, batch: seq<FramePacket>, outputs: seq<Output>)
    requires OutboxOk(cfg, b.outbox) && |batch| == |outputs|
    ensures FinishBatch(cfg, world, b, batch, outputs).breaker == b.breaker.(consecutive := 0)
  {
    DeliverAllIsSound(cfg, world, b.(breaker := b.breaker.(consecutive := 0)), batch, outputs);
  }

  lemma SameVerdict(cfg: Settings, s: State, a: State, t: State, outcome: Outcome)
    requires a.intake.entries == s.intake.entries
    ensures VerdictOf(cfg, s, t, outcome) == VerdictOf(cfg, a, t, outcome)
  {
  }

  /** What becomes of a batch, and what that does to the breaker. */
  lemma BatchMoves(cfg: Settings, world: World, a: State, b: State, batch: seq<FramePacket>, outcome: Outcome,
                   t: State)
    requires SystemOk(cfg, world, a) && Gathers(world, a, b, batch) && Undisturbed(cfg, a, b) && batch != []
    requires t == if Fails(cfg, outcome, |batch|) then FailBatch(cfg, world, b, |batch|)
                  else FinishBatch(cfg, world, b, batch, outcome.outputs)
    ensures Moves(cfg.breakerFailures, a.breaker, t.breaker, VerdictOf(cfg, a, t, outcome))
  {
    if Succeeds(cfg, outcome, |batch|) {
      var more := SuccessPairs(cfg, world, a, b, batch, outcome.outputs);
      SuccessMoves(cfg, world, b, batch, outcome.outputs);
    } else {
      FailureIsUndisturbed(cfg, world, b, |batch|);
      FailureMoves(cfg, world, b, |batch|);
    }
  }

  lemma EmptyBatchMoves(cfg: Settings, world: World, a: State, b: State, outcome: Outcome)
    requires SystemOk(cfg, world, a) && Gathers(world, a, b, []) && Undisturbed(cfg, a, b)
    ensures Moves(cfg.breakerFailures, a.breaker, b.breaker, VerdictOf(cfg, a, b, outcome))
  {
  }

  /** The part of a call that runs while the circuit is closed. */
  function AfterCollecting(cfg: Settings, world: World, a: State, outcome: Outcome): State {
    var (b, batch) := Collect(cfg, world, a);
    if batch == [] then b
    else if Fails(cfg, outcome, |batch|) then FailBatch(cfg, world, b, |batch|)
    else FinishBatch(cfg, world, b, batch, outcome.outputs)
  }

  lemma CollectingMoves(cfg: Settings, world: World, a: State, outcome: Outcome)
    requires Steady(world) && SystemOk(cfg, world, a)
    ensures var t := AfterCollecting(cfg, world, a, outcome);
            Moves(cfg.breakerFailures, a.breaker, t.breaker, VerdictOf(cfg, a, t, outcome))
  {
    var (b, batch) := Collect(cfg, world, a);
    CollectKeepsIntake(cfg, world, a);
    CollectIsUndisturbed(cfg, world, a);
    if batch == [] {
      EmptyBatchMoves(cfg, world, a, b, outcome);
    } else {
      BatchMoves(cfg, world, a, b, batch, outcome, AfterCollecting(cfg, world, a, outcome));
    }
  }

  lemma CallSplits(cfg: Settings, world: World, s: State, outcome: Outcome)
    ensures RunOnce(cfg, world, s, outcome).0
            == if world(s.tick).now < s.breaker.openUntil then Flow(world, s)
               else AfterCollecting(cfg, world, Flow(world, s), outcome)
  {
  }

  /** What one call does to the breaker, by what became of its batch. */
  lemma CallMoves(cfg: Settings, world: World, s: State, outcome: Outcome)
    requires Steady(world) && SystemOk(cfg, world, s)
    ensures var t := RunOnce(cfg, world, s, outcome).0;
            Moves(cfg.breakerFailures, s.breaker, t.breaker, VerdictOf(cfg, s, t, outcome))
  {
    var a := Flow(world, s);
    WaitingKeepsSystem(cfg, world, s);
    var t :| t == RunOnce(cfg, world, s, outcome).0;
    CallSplits(cfg, world, s, outcome);
    if s.breaker.openUntil <= world(s.tick).now {
      CollectingMoves(cfg, world, a, outcome);
      SameVerdict(cfg, s, a, t, outcome);
    }
  }

  lemma {:induction false} NextRest(n: nat, threshold: nat)
    requires threshold > 0
    ensures Rest(n, threshold) < threshold
    ensures Rest(n + 1, threshold) == if Rest(n, threshold) + 1 == threshold then 0 else Rest(n, threshold) + 1
    decreases n
  {
    if n >= threshold {
      NextRest(n - threshold, threshold);
    }
  }

  /** The breaker's counters are what the verdicts say. */
  ghost predicate Counts(threshold: nat, b: Breaker, vs: seq<Verdict>)
    requires threshold > 0
  {
    && b.consecutive == Rest(FailuresInARow(vs), threshold)
    && b.openCount == Openings(threshold, vs)
    && b.failedBatches == Count(vs, IsFailure())
  }

  lemma TalliesGrow(threshold: nat, vs: seq<Verdict>, v: Verdict)
    requires threshold > 0
    ensures FailuresInARow(vs + [v])
            == if v.NoBatch? then FailuresInARow(vs) else if v.Failure? then FailuresInARow(vs) + 1 else 0
    ensures Openings(threshold, vs + [v])
            == Openings(threshold, vs) + if v.Failure? && Rest(FailuresInARow(vs + [v]), threshold) == 0 then 1 else 0
    ensures Count(vs + [v], IsFailure()) == Count(vs, IsFailure()) + if v.Failure? then 1 else 0
  {
    assert (vs + [v])[..|vs|] == vs;
  }

  lemma OneMoreVerdict(threshold: nat, b: Breaker, c: Breaker, vs: seq<Verdict>, v: Verdict)
    requires threshold > 0 && Counts(threshold, b, vs) && Moves(threshold, b, c, v)
    ensures Counts(threshold, c, vs + [v])
  {
    TalliesGrow(threshold, vs, v);
    if v.Failure? {
      NextRest(FailuresInARow(vs), threshold);
    }
  }

  lemma LastVerdict(cfg: Settings, world: World, s: State, early: seq<Outcome>, last: Outcome)
    ensures Verdicts(cfg, world, s, early + [last])
            == Verdicts(cfg, world, s, early)
               + [VerdictOf(cfg, Run(cfg, world, s, early), Run(cfg, world, s, early + [last]), last)]
  {
    assert (early + [last])[..|early|] == early;
  }

  /** The last call of a run keeps the counters right. */
  lemma LastCallCounts(cfg: Settings, world: World, s: State, early: seq<Outcome>, last: Outcome)
    requires Steady(world) && Initial(cfg, s)
    requires Counts(cfg.breakerFailures, Run(cfg, world, s, early).breaker, Verdicts(cfg, world, s, early))
    ensures Counts(cfg.breakerFailures, Run(cfg, world, s, early + [last]).breaker,
                   Verdicts(cfg, world, s, early + [last]))
  {
    InitialIsOk(cfg, world, s);
    RunKeepsSystem(cfg, world, s, early);
    var before, after :| before == Run(cfg, world, s, early) && after == Run(cfg, world, s, early + [last]);
    CallMoves(cfg, world, before, last);
    RunStep(cfg, world, s, early, last);
    LastVerdict(cfg, world, s, early, last);
    OneMoreVerdict(cfg.breakerFailures, before.breaker, after.breaker, Verdicts(cfg, world, s, early),
                   VerdictOf(cfg, before, after, last));
  }

  /** The breaker's counters after a run are what its verdicts say. */
  ghost predicate CountsAfter(cfg: Settings, world: World, s: State, outcomes: seq<Outcome>)
    requires cfg.breakerFailures > 0
  {
    Counts(cfg.breakerFailures, Run(cfg, world, s, outcomes).breaker, Verdicts(cfg, world, s, outcomes))
  }

  lemma {:induction false} GrowsToAll<T(!new)>(holds: seq<T> -> bool, xs: seq<T>)
    requires holds([]) && forall early: seq<T>, last: T :: holds(early) ==> holds(early + [last])
    ensures holds(xs)
    decreases |xs|
  {
    if xs != [] {
      GrowsToAll(holds, xs[..|xs| - 1]);
      assert xs[..|xs| - 1] + [xs[|xs| - 1]] == xs;
    }
  }

  /** Over every run: the failures counted are those since the last success, less a threshold for
      each opening, and the circuit was opened by each failure that completed another threshold. */
  lemma BreakerIsExact(cfg: Settings, world: World, s: State, outcomes: seq<Outcome>)
    requires Steady(world) && Initial(cfg, s)
    ensures CountsAfter(cfg, world, s, outcomes)
  {
    var holds := (os: seq<Outcome>) => CountsAfter(cfg, world, s, os);
    forall early: seq<Outcome>, last: Outcome | holds(early) ensures holds(early + [last]) {
      LastCallCounts(cfg, world, s, early, last);
    }
    GrowsToAll(holds, outcomes);
  }
}
