/** The protocol never blocks: under every fair schedule slots keep being freed, exactly as long as
    no poll is fatal. */
module DoubleBufferLiveness {
  import opened FrameSlots
  import opened DoubleBuffer
  import opened DoubleBufferRuns

  /** Slot i is freed: by P1 after drawing, or by P2 when its image is empty. */
  predicate FreesSlot(s: System, a: Action, i: Index) {
    s.slots[i].state == Locked && Next(s, a).slots[i].state == Free
  }

  predicate Frees(s: System, a: Action) {
    FreesSlot(s, a, 0) || FreesSlot(s, a, 1)
  }

  /** A slot is lost for good. */
  predicate Strands(s: System, a: Action, i: Index) {
    !Stranded(s, i) && Stranded(Next(s, a), i)
  }

  /** What each round of the protocol comes to, for better or worse. */
  predicate Ends(s: System, a: Action) {
    Frees(s, a) || Strands(s, a, 0) || Strands(s, a, 1)
  }

  /** The frame fits its slot. */
  predicate Fitting(lim: Limits, a: Action) {
    a.ByP1? ==> IsImage(a.frame) && Fits(lim, a.frame.height, a.frame.width)
  }

  predicate P1HasSlot(s: System) {
    P1Holds(s, 0) || P1Holds(s, 1)
  }

  predicate P2HasSlot(s: System) {
    P2Holds(s, 0) || P2Holds(s, 1)
  }

  predicate SomeFilled(s: System) {
    s.slots[0].state == Filled || s.slots[1].state == Filled
  }

  /** How far the protocol is from freeing a slot: P2 must finish its reset (4), P1 must fill a
      slot (3), P2 must lock one (2), P2 must publish (1), P1 must draw and free (0). */
  function Phase(s: System): nat {
    if Resetting(s) then 4
    else if P1HasSlot(s) || s.resultSeq != s.lastSeq then 0
    else if P2HasSlot(s) then 1
    else if SomeFilled(s) then 2
    else 3
  }

  function Minus(a: nat, b: nat): nat {
    if a < b then 0 else a - b
  }

  /** Accesses P1 still makes before it polls for a result. */
  function P1ToPoll(s: System): nat {
    var cap := Capacity(s.lim);
    match s.p1
    case Waiting => cap + 9
    case TryFirst(_) => cap + 8
    case TrySecond(_) => cap + 7
    case PutHeight(_, _) => cap + 6
    case PutWidth(_, _) => cap + 5
    case PutBytes(_, _, k) => Minus(cap, k) + 3
    case PutFlag(_, _) => 1
    case _ => 0
  }

  /** Accesses P1 still makes before it frees the slot it has. */
  function P1ToFree(s: System): nat {
    var cap := Capacity(s.lim);
    match s.p1
    case BackHeight(_, _) => cap + 6
    case BackWidth(_, _, _) => cap + 5
    case BackBytes(_, _, _, _, got) => Minus(cap, |got|) + 3
    case Draw(_, _, _) => 2
    case _ => 1
  }

  /** Accesses P2 still makes before it publishes or gives back the slot it has. */
  function P2ToPublish(s: System): nat {
    var cap := Capacity(s.lim);
    match s.p2
    case TakeHeight(_) => cap + 6
    case TakeWidth(_, _) => cap + 5
    case TakeBytes(_, _, _, got) => Minus(cap, |got|) + 3
    case Detect(_, _) => 2
    case _ => 1
  }

  /** Accesses P2 still makes before it locks a slot, when one is filled. */
  function P2ToLock(s: System): nat {
    match s.p2
    case ScanFirst => if s.slots[0].state == Filled then 1 else 2
    case ScanSecond => if s.slots[1].state == Filled then 1 else 3
    case _ => 0
  }

  /** Accesses P1 still makes before it fills a slot, when one is free. */
  function P1ToFill(s: System): nat {
    var cap := Capacity(s.lim);
    match s.p1
    case PollResult => cap + 9
    case Waiting => cap + 8
    case TryFirst(_) => if s.slots[0].state == Free then cap + 6 else cap + 7
    case TrySecond(_) => if s.slots[1].state == Free then cap + 6 else cap + 10
    case PutHeight(_, _) => cap + 5
    case PutWidth(_, _) => cap + 4
    case PutBytes(_, _, k) => Minus(cap, k) + 2
    case _ => 1
  }

  function Rank(s: System): nat {
    match Phase(s)
    case 0 => if P1HasSlot(s) then P1ToFree(s) else P1ToPoll(s) + Capacity(s.lim) + 10
    case 1 => P2ToPublish(s)
    case 2 => P2ToLock(s)
    case 3 => P1ToFill(s)
    case _ => if s.p2.ResetFirst? then 2 else if s.p2.ResetSecond? then 1 else 0
  }

  /** The process whose accesses bring the next freed slot closer. */
  predicate IsTurnOf(s: System, a: Action) {
    if Phase(s) == 0 || Phase(s) == 3 then a.ByP1? else a.ByP2?
  }

  predicate Going(s: System) {
    && Inv(s) && AtMostOneStranded(s)
    && (s.p1.TryFirst? || s.p1.TrySecond? ==> Fits(s.lim, s.p1.frame.height, s.p1.frame.width))
  }

  predicate NoFurther(s: System, t: System) {
    Phase(t) < Phase(s) || (Phase(t) == Phase(s) && Rank(t) <= Rank(s))
  }

  predicate Closer(s: System, t: System) {
    Phase(t) < Phase(s) || (Phase(t) == Phase(s) && Rank(t) < Rank(s))
  }

  lemma GoingStaysGoing(s: System, a: Action)
    requires Going(s) && Fitting(s.lim, a) && !FatalPoll(s, a)
    ensures Going(Next(s, a)) && Next(s, a).lim == s.lim
  {
    NextKeepsInv(s, a);
    SecondIsLostByPolling(s, a);
  }

  lemma P1Reading(s: System, camera: Frame)
    requires ValidSlots(s.lim, s.slots) && P1Safe(s) && Phase(s) == 0 && P1HasSlot(s)
    ensures Frees(s, ByP1(camera)) || Closer(s, NextP1(s, camera))
  {
    if s.p1.BackBytes? {
      FitsWithinCapacity(s.lim, s.p1.height, s.p1.width);
    }
  }

  lemma P1PollsInVain(s: System, camera: Frame)
    requires Inv(s) && s.p1.PollResult? && s.resultSeq != s.lastSeq && !s.record.parses
    ensures Strands(s, ByP1(camera), 0) || Strands(s, ByP1(camera), 1)
  {
    StrandedExactlyByLoss(s, ByP1(camera), 0);
    StrandedExactlyByLoss(s, ByP1(camera), 1);
    assert Unread(s, 0) || Unread(s, 1);
  }

  /** P1 on its way to its poll, or at it with a result that can be decoded. */
  lemma P1Polling(s: System, camera: Frame)
    requires ValidSlots(s.lim, s.slots) && P1Safe(s) && ResultSafe(s) && Phase(s) == 0 && !P1HasSlot(s)
    requires s.p1.PollResult? ==> s.record.parses
    requires s.p1.TryFirst? || s.p1.TrySecond? ==> Fits(s.lim, s.p1.frame.height, s.p1.frame.width)
    ensures Closer(s, NextP1(s, camera))
  {
  }

  lemma P1Trying(s: System, camera: Frame)
    requires Going(s) && Fitting(s.lim, ByP1(camera)) && Phase(s) == 3 && (s.p1.TryFirst? || s.p1.TrySecond?)
    ensures Closer(s, NextP1(s, camera))
  {
    assert !Stranded(s, 0) ==> s.slots[0].state == Free;
    assert !Stranded(s, 1) ==> s.slots[1].state == Free;
  }

  lemma P1Filling(s: System, camera: Frame)
    requires Going(s) && Fitting(s.lim, ByP1(camera)) && Phase(s) == 3 && !(s.p1.TryFirst? || s.p1.TrySecond?)
    ensures Closer(s, NextP1(s, camera))
  {
  }

  lemma P1Standing(s: System, camera: Frame)
    requires Going(s) && Fitting(s.lim, ByP1(camera)) && Phase(s) in {1, 2, 4}
    ensures NoFurther(s, NextP1(s, camera))
  {
  }

  lemma P2Resetting(s: System, objects: string, parses: bool)
    requires Inv(s) && Phase(s) == 4
    ensures Closer(s, NextP2(s, objects, parses))
  {
  }

  lemma P2Publishing(s: System, objects: string, parses: bool)
    requires ValidSlots(s.lim, s.slots) && P2Safe(s) && Phase(s) == 1
    ensures Frees(s, ByP2(objects, parses)) || Closer(s, NextP2(s, objects, parses))
  {
  }

  lemma P2Locking(s: System, objects: string, parses: bool)
    requires Inv(s) && Phase(s) == 2
    ensures Closer(s, NextP2(s, objects, parses))
  {
  }

  lemma P2StandingWhileDrawing(s: System, objects: string, parses: bool)
    requires s.lastSeq <= s.resultSeq && Phase(s) == 0
    ensures NoFurther(s, NextP2(s, objects, parses))
  {
    var t := NextP2(s, objects, parses);
    assert P1HasSlot(t) == P1HasSlot(s) && t.p1 == s.p1;
  }

  lemma P2StandingWhileFilling(s: System, objects: string, parses: bool)
    requires Going(s) && Phase(s) == 3
    ensures NoFurther(s, NextP2(s, objects, parses))
  {
  }

  lemma EveryAccessHelps(s: System, a: Action)
    requires Going(s) && Fitting(s.lim, a)
    ensures || Ends(s, a) || Closer(s, Next(s, a))
            || (!IsTurnOf(s, a) && NoFurther(s, Next(s, a)))
  {
    match a {
      case ByP1(camera) =>
        if Phase(s) == 0 {
          if P1HasSlot(s) {
            P1Reading(s, camera);
          } else if s.p1.PollResult? && !s.record.parses {
            P1PollsInVain(s, camera);
          } else {
            P1Polling(s, camera);
          }
        } else if Phase(s) == 3 {
          if s.p1.TryFirst? || s.p1.TrySecond? { P1Trying(s, camera); } else { P1Filling(s, camera); }
        } else {
          P1Standing(s, camera);
        }
      case ByP2(objects, parses) =>
        if Phase(s) == 0 {
          P2StandingWhileDrawing(s, objects, parses);
        } else if Phase(s) == 3 {
          P2StandingWhileFilling(s, objects, parses);
        } else if Phase(s) == 1 {
          P2Publishing(s, objects, parses);
        } else if Phase(s) == 2 {
          P2Locking(s, objects, parses);
        } else {
          P2Resetting(s, objects, parses);
        }
    }
  }

  // ----- infinite schedules -----

  type Schedule = nat -> Action

  /** The states one after the other. */
  type Trace = nat -> System

  ghost predicate Steps(run: Trace, sched: Schedule, n: nat) {
    run(n + 1) == Next(run(n), sched(n))
  }

  ghost predicate IsRun(run: Trace, sched: Schedule) {
    forall n: nat :: Steps(run, sched, n)
  }

  function At(s: System, sched: Schedule, n: nat): System {
    if n == 0 then s else Next(At(s, sched, n - 1), sched(n - 1))
  }

  /** From every state every schedule can be run. */
  lemma EveryScheduleRuns(s: System, sched: Schedule) returns (run: Trace)
    ensures IsRun(run, sched) && run(0) == s
  {
    run := (n: nat) => At(s, sched, n);
    forall n: nat ensures Steps(run, sched, n) {
    }
  }

  ghost predicate RunsAgain(byP1: nat -> bool, n: nat, wanted: bool) {
    exists m: nat :: n <= m && byP1(m) == wanted
  }

  /** Both processes keep running. */
  ghost predicate Fair(byP1: nat -> bool) {
    forall n: nat, wanted: bool :: RunsAgain(byP1, n, wanted)
  }

  /** All frames fit their slots; anything may become of the results. */
  ghost predicate FittingRun(run: Trace, sched: Schedule) {
    IsRun(run, sched) && forall n: nat :: Fitting(run(0).lim, sched(n))
  }

  lemma StepAt(run: Trace, sched: Schedule, n: nat)
    requires FittingRun(run, sched)
    ensures run(n + 1) == Next(run(n), sched(n)) && Fitting(run(0).lim, sched(n))
  {
    assert Steps(run, sched, n);
  }

  ghost predicate NeverFatal(run: Trace, sched: Schedule) {
    forall n: nat :: !FatalPoll(run(n), sched(n))
  }

  lemma {:induction false} AlwaysInv(run: Trace, sched: Schedule, n: nat)
    requires FittingRun(run, sched) && Inv(run(0))
    ensures Inv(run(n)) && run(n).lim == run(0).lim
  {
    if n > 0 {
      AlwaysInv(run, sched, n - 1);
      StepAt(run, sched, n - 1);
      NextKeepsInv(run(n - 1), sched(n - 1));
    }
  }

  lemma {:induction false} AlwaysGoing(run: Trace, sched: Schedule, n: nat)
    requires FittingRun(run, sched) && Going(run(0)) && NeverFatal(run, sched)
    ensures Going(run(n)) && run(n).lim == run(0).lim
  {
    if n > 0 {
      AlwaysGoing(run, sched, n - 1);
      StepAt(run, sched, n - 1);
      assert !FatalPoll(run(n - 1), sched(n - 1));
      GoingStaysGoing(run(n - 1), sched(n - 1));
    }
  }

  /** The rule behind the liveness proof: the goal is reached when the measure never rises and
      falls at every access of the process whose turn it is. That turn depends on the phase. */
  ghost predicate Descends(goal: nat -> bool, phase: nat -> nat, rank: nat -> nat,
                           turnOfP1: nat -> bool, byP1: nat -> bool, n: nat)
  {
    || goal(n)
    || phase(n + 1) < phase(n)
    || (phase(n + 1) == phase(n) && rank(n + 1) < rank(n))
    || (phase(n + 1) == phase(n) && rank(n + 1) == rank(n) && byP1(n) != turnOfP1(phase(n)))
  }

  lemma {:induction false} DescentReachesGoal(goal: nat -> bool, phase: nat -> nat, rank: nat -> nat,
                                              turnOfP1: nat -> bool, byP1: nat -> bool, n: nat, m: nat)
    returns (k: nat)
    requires Fair(byP1)
    requires forall i: nat :: Descends(goal, phase, rank, turnOfP1, byP1, i)
    requires n <= m && byP1(m) == turnOfP1(phase(n))
    ensures n <= k && goal(k)
    decreases phase(n), rank(n), m - n
  {
    assert Descends(goal, phase, rank, turnOfP1, byP1, n);
    if goal(n) {
      k := n;
    } else if phase(n + 1) == phase(n) && rank(n + 1) == rank(n) {
      k := DescentReachesGoal(goal, phase, rank, turnOfP1, byP1, n + 1, m);
    } else {
      assert RunsAgain(byP1, n + 1, turnOfP1(phase(n + 1)));
      var next: nat :| n + 1 <= next && byP1(next) == turnOfP1(phase(n + 1));
      k := DescentReachesGoal(goal, phase, rank, turnOfP1, byP1, n + 1, next);
    }
  }

  function EndsOf(run: Trace, sched: Schedule): nat -> bool {
    (k: nat) => Ends(run(k), sched(k))
  }

  function FreesOf(run: Trace, sched: Schedule): nat -> bool {
    (k: nat) => Frees(run(k), sched(k))
  }

  function PhaseOf(run: Trace): nat -> nat {
    (k: nat) => Phase(run(k))
  }

  function RankOf(run: Trace): nat -> nat {
    (k: nat) => Rank(run(k))
  }

  function RunsP1(sched: Schedule): nat -> bool {
    (k: nat) => sched(k).ByP1?
  }

  function TurnOfP1(): nat -> bool {
    (phase: nat) => phase == 0 || phase == 3
  }

  ghost predicate HappensLater(goal: nat -> bool, n: nat) {
    exists m: nat :: n <= m && goal(m)
  }

  ghost predicate HappensForever(goal: nat -> bool) {
    forall n: nat :: HappensLater(goal, n)
  }

  lemma ScheduleDescends(run: Trace, sched: Schedule, i: nat)
    requires FittingRun(run, sched) && Going(run(0)) && NeverFatal(run, sched)
    ensures Descends(EndsOf(run, sched), PhaseOf(run), RankOf(run), TurnOfP1(), RunsP1(sched), i)
  {
    AlwaysGoing(run, sched, i);
    var now := run(i);
    EveryAccessHelps(now, sched(i));
    StepAt(run, sched, i);
  }

  /** Whatever has happened, a slot is freed or lost later. */
  lemma SomethingEnds(run: Trace, sched: Schedule, n: nat)
    requires FittingRun(run, sched) && Going(run(0)) && NeverFatal(run, sched) && Fair(RunsP1(sched))
    ensures HappensLater(EndsOf(run, sched), n)
  {
    var (goal, phase, rank) := (EndsOf(run, sched), PhaseOf(run), RankOf(run));
    forall i: nat ensures Descends(goal, phase, rank, TurnOfP1(), RunsP1(sched), i) {
      ScheduleDescends(run, sched, i);
    }
    assert RunsAgain(RunsP1(sched), n, TurnOfP1()(phase(n)));
    var m: nat :| n <= m && RunsP1(sched)(m) == TurnOfP1()(phase(n));
    var k := DescentReachesGoal(goal, phase, rank, TurnOfP1(), RunsP1(sched), n, m);
    assert goal(k);
  }

  // ----- a lost slot stays lost -----

  function StrandedOf(run: Trace, i: Index): nat -> bool {
    (k: nat) => Stranded(run(k), i)
  }

  ghost predicate Stays(p: nat -> bool, k: nat) {
    p(k) ==> p(k + 1)
  }

  lemma {:induction false} HoldsOnwards(p: nat -> bool, n: nat, m: nat)
    requires p(n) && n <= m && forall k: nat :: Stays(p, k)
    ensures p(m)
    decreases m - n
  {
    if n < m {
      HoldsOnwards(p, n, m - 1);
      assert Stays(p, m - 1);
    }
  }

  lemma StrandedStaysAt(run: Trace, sched: Schedule, i: Index, k: nat)
    requires FittingRun(run, sched) && Inv(run(0))
    ensures Stays(StrandedOf(run, i), k)
  {
    AlwaysInv(run, sched, k);
    var now := run(k);
    if Stranded(now, i) {
      StrandedStays(now, sched(k), i);
    }
    StepAt(run, sched, k);
  }

  lemma StaysStranded(run: Trace, sched: Schedule, i: Index, n: nat, m: nat)
    requires FittingRun(run, sched) && Inv(run(0)) && n <= m && Stranded(run(n), i)
    ensures Stranded(run(m), i)
  {
    forall k: nat ensures Stays(StrandedOf(run, i), k) {
      StrandedStaysAt(run, sched, i, k);
    }
    HoldsOnwards(StrandedOf(run, i), n, m);
  }

  // ----- slots are freed again and again -----

  lemma OnlyTheOtherIsFreed(s: System, a: Action, i: Index)
    requires Inv(s) && AtMostOneStranded(s) && Stranded(s, i) && Ends(s, a) && !FatalPoll(s, a)
    ensures FreesSlot(s, a, 1 - i)
  {
    StrandedStays(s, a, i);
    SecondIsLostByPolling(s, a);
  }

  /** With one slot lost and no fatal poll, what ends next is a slot's cycle, and it is the other's. */
  lemma OtherEndsFreed(run: Trace, sched: Schedule, i: Index, n: nat, k: nat)
    requires FittingRun(run, sched) && Going(run(0)) && NeverFatal(run, sched)
    requires n <= k && Stranded(run(n), i) && Ends(run(k), sched(k))
    ensures FreesSlot(run(k), sched(k), 1 - i)
  {
    StaysStranded(run, sched, i, n, k);
    AlwaysGoing(run, sched, k);
    var (now, a) := (run(k), sched(k));
    assert !FatalPoll(now, a);
    OnlyTheOtherIsFreed(now, a, i);
  }

  /** A stranded slot does not stop the other: while no poll is fatal, it is freed again and again,
      whatever becomes of the results. */
  lemma OtherSlotKeepsCycling(run: Trace, sched: Schedule, i: Index, n: nat, m: nat)
    requires FittingRun(run, sched) && Going(run(0)) && NeverFatal(run, sched) && Fair(RunsP1(sched))
    requires n <= m && Stranded(run(n), i)
    ensures exists k: nat :: m <= k && FreesSlot(run(k), sched(k), 1 - i)
  {
    SomethingEnds(run, sched, m);
    var k: nat :| m <= k && EndsOf(run, sched)(k);
    OtherEndsFreed(run, sched, i, n, k);
  }

  lemma EndedInLoss(run: Trace, sched: Schedule, k: nat) returns (i: Index)
    requires FittingRun(run, sched) && Ends(run(k), sched(k)) && !Frees(run(k), sched(k))
    ensures Stranded(run(k + 1), i)
  {
    StepAt(run, sched, k);
    i := if Strands(run(k), sched(k), 0) then 0 else 1;
  }

  lemma OneSlotIsFreed(run: Trace, sched: Schedule, k: nat, i: Index)
    requires FreesSlot(run(k), sched(k), i)
    ensures FreesOf(run, sched)(k)
  {
  }

  lemma EndThenFreed(run: Trace, sched: Schedule, k: nat)
    requires FittingRun(run, sched) && Going(run(0)) && NeverFatal(run, sched) && Fair(RunsP1(sched))
    requires EndsOf(run, sched)(k)
    ensures HappensLater(FreesOf(run, sched), k)
  {
    if !FreesOf(run, sched)(k) {
      var i := EndedInLoss(run, sched, k);
      OtherSlotKeepsCycling(run, sched, i, k + 1, k + 1);
      var m: nat :| k + 1 <= m && FreesSlot(run(m), sched(m), 1 - i);
      OneSlotIsFreed(run, sched, m, 1 - i);
    }
  }

  /** While no poll is fatal, some slot is freed later: at most once is one lost instead. */
  lemma NeverBlocks(run: Trace, sched: Schedule, n: nat)
    requires FittingRun(run, sched) && Going(run(0)) && NeverFatal(run, sched) && Fair(RunsP1(sched))
    ensures HappensLater(FreesOf(run, sched), n)
  {
    SomethingEnds(run, sched, n);
    var k: nat :| n <= k && EndsOf(run, sched)(k);
    EndThenFreed(run, sched, k);
    var m: nat :| k <= m && FreesOf(run, sched)(m);
  }

  lemma InitialIsGoing(s: System)
    requires Initial(s)
    ensures Going(s)
  {
  }

  /** After a fatal poll nothing is freed or drawn. */
  lemma NothingAfterFatal(run: Trace, sched: Schedule, n: nat, k: nat)
    requires FittingRun(run, sched) && Going(run(0)) && FatalPoll(run(n), sched(n)) && n < k
    ensures !Frees(run(k), sched(k)) && run(k + 1).shown == run(k).shown
  {
    AlwaysInv(run, sched, n);
    HaltsNow(run(n), sched(n));
    StepAt(run, sched, n);
    StaysStranded(run, sched, 0, n + 1, k);
    StaysStranded(run, sched, 1, n + 1, k);
    AlwaysInv(run, sched, k);
    NothingLeftToDo(run(k), sched(k));
    StepAt(run, sched, k);
  }

  lemma NotForeverAfterFatal(run: Trace, sched: Schedule, n: nat)
    requires FittingRun(run, sched) && Going(run(0)) && FatalPoll(run(n), sched(n))
    ensures !HappensLater(FreesOf(run, sched), n + 1)
  {
    forall k: nat | n + 1 <= k ensures !FreesOf(run, sched)(k) {
      NothingAfterFatal(run, sched, n, k);
    }
  }

  /** Slots are freed again and again if and only if no poll is ever fatal: in every run of two
      processes that both keep running, with frames that fit, whatever becomes of the results. */
  lemma FreedForeverExactly(run: Trace, sched: Schedule)
    requires FittingRun(run, sched) && Going(run(0)) && Fair(RunsP1(sched))
    ensures HappensForever(FreesOf(run, sched)) <==> NeverFatal(run, sched)
  {
    if NeverFatal(run, sched) {
      forall n: nat ensures HappensLater(FreesOf(run, sched), n) {
        NeverBlocks(run, sched, n);
      }
    } else {
      var n: nat :| FatalPoll(run(n), sched(n));
      NotForeverAfterFatal(run, sched, n);
    }
  }

  /** The same from the start. */
  lemma SlotsAreFreedExactly(run: Trace, sched: Schedule)
    requires FittingRun(run, sched) && Initial(run(0)) && Fair(RunsP1(sched))
    ensures HappensForever(FreesOf(run, sched)) <==> NeverFatal(run, sched)
  {
    InitialIsGoing(run(0));
    FreedForeverExactly(run, sched);
  }

  ghost predicate AllDecodable(sched: Schedule) {
    forall n: nat :: sched(n).ByP2? ==> sched(n).parses
  }

  lemma {:induction false} AlwaysAlive(run: Trace, sched: Schedule, n: nat)
    requires FittingRun(run, sched) && Going(run(0)) && Alive(run(0)) && AllDecodable(sched)
    ensures Alive(run(n))
  {
    if n > 0 {
      AlwaysAlive(run, sched, n - 1);
      AlwaysInv(run, sched, n - 1);
      StepAt(run, sched, n - 1);
      AliveStaysAlive(run(n - 1), sched(n - 1));
    }
  }

  /** If all results can be decoded, no poll is fatal. */
  lemma DecodableIsNeverFatal(run: Trace, sched: Schedule)
    requires FittingRun(run, sched) && Going(run(0)) && Alive(run(0)) && AllDecodable(sched)
    ensures NeverFatal(run, sched)
  {
    forall n: nat ensures !FatalPoll(run(n), sched(n)) {
      AlwaysAlive(run, sched, n);
    }
  }

  // ----- every freed slot has been drawn -----

  predicate NonEmpty(f: Frame) {
    f.height > 0 && f.width > 0
  }

  predicate P1Carries(s: System) {
    s.p1.TryFirst? || s.p1.TrySecond? || s.p1.PutHeight? || s.p1.PutWidth? || s.p1.PutBytes? || s.p1.PutFlag?
  }

  predicate SolidSlot(slot: Slot) {
    slot.state != Free ==> slot.height > 0 && slot.width > 0
  }

  /** No image on its way through the slots is empty. */
  predicate Solid(s: System) {
    && (P1Carries(s) ==> NonEmpty(s.p1.frame))
    && SolidSlot(s.slots[0]) && SolidSlot(s.slots[1])
    && !s.p2.GiveBack?
  }

  lemma P1KeepsSolid(s: System, camera: Frame)
    requires P1Safe(s) && Solid(s) && NonEmpty(camera)
    ensures Solid(NextP1(s, camera))
  {
  }

  lemma P2KeepsSolid(s: System, objects: string, parses: bool)
    requires P2Safe(s) && Solid(s)
    ensures Solid(NextP2(s, objects, parses))
  {
  }

  /** The overlays whose slot has been freed. */
  function Completed(s: System): int {
    |s.shown| - if s.p1.FreeSlot? then 1 else 0
  }

  lemma P1Completes(s: System, camera: Frame)
    requires P1Safe(s)
    ensures Completed(NextP1(s, camera)) == Completed(s) + if Frees(s, ByP1(camera)) then 1 else 0
  {
  }

  lemma P2CompletesNothing(s: System, objects: string, parses: bool)
    requires P2Safe(s) && !s.p2.GiveBack?
    ensures Completed(NextP2(s, objects, parses)) == Completed(s) && !Frees(s, ByP2(objects, parses))
  {
  }

  predicate Flowing(s: System) {
    Inv(s) && Solid(s)
  }

  predicate FittingAndFull(lim: Limits, a: Action) {
    Fitting(lim, a) && (a.ByP1? ==> NonEmpty(a.frame))
  }

  /** With no empty images, a slot is freed exactly when an overlay of it has been drawn. */
  lemma FreedIsCompleted(s: System, a: Action)
    requires Flowing(s) && FittingAndFull(s.lim, a)
    ensures Completed(Next(s, a)) == Completed(s) + if Frees(s, a) then 1 else 0
    ensures Flowing(Next(s, a)) && Next(s, a).lim == s.lim
  {
    NextKeepsInv(s, a);
    if a.ByP1? {
      P1KeepsSolid(s, a.frame);
      P1Completes(s, a.frame);
    } else {
      P2KeepsSolid(s, a.objects, a.parses);
      P2CompletesNothing(s, a.objects, a.parses);
    }
  }

  ghost predicate AllNonEmpty(sched: Schedule) {
    forall n: nat :: sched(n).ByP1? ==> NonEmpty(sched(n).frame)
  }

  lemma {:induction false} AlwaysFlowing(run: Trace, sched: Schedule, n: nat)
    requires FittingRun(run, sched) && Flowing(run(0)) && AllNonEmpty(sched)
    ensures Flowing(run(n)) && run(n).lim == run(0).lim
  {
    if n > 0 {
      AlwaysFlowing(run, sched, n - 1);
      var (now, a) := (run(n - 1), sched(n - 1));
      StepAt(run, sched, n - 1);
      assert FittingAndFull(now.lim, a);
      FreedIsCompleted(now, a);
    }
  }

  function CompletedOf(run: Trace): nat -> int {
    (k: nat) => Completed(run(k))
  }

  ghost predicate Counts(goal: nat -> bool, count: nat -> int, n: nat) {
    count(n + 1) == count(n) + if goal(n) then 1 else 0
  }

  lemma {:induction false} CountNeverFalls(goal: nat -> bool, count: nat -> int, n: nat, m: nat)
    requires n <= m && forall i: nat :: Counts(goal, count, i)
    ensures count(n) <= count(m)
    decreases m - n
  {
    if n < m {
      CountNeverFalls(goal, count, n, m - 1);
      assert Counts(goal, count, m - 1);
    }
  }

  lemma {:induction false} CountPassesEveryBound(goal: nat -> bool, count: nat -> int, bound: nat) returns (k: nat)
    requires forall i: nat :: Counts(goal, count, i) && HappensLater(goal, i)
    ensures count(k) >= count(0) + bound
  {
    if bound == 0 {
      k := 0;
    } else {
      var n := CountPassesEveryBound(goal, count, bound - 1);
      assert HappensLater(goal, n);
      var m: nat :| n <= m && goal(m);
      CountNeverFalls(goal, count, n, m);
      assert Counts(goal, count, m);
      k := m + 1;
    }
  }

  lemma ScheduleCounts(run: Trace, sched: Schedule, i: nat)
    requires FittingRun(run, sched) && Flowing(run(0)) && AllNonEmpty(sched)
    ensures Counts(FreesOf(run, sched), CompletedOf(run), i)
  {
    AlwaysFlowing(run, sched, i);
    var (now, a) := (run(i), sched(i));
    assert FittingAndFull(now.lim, a);
    FreedIsCompleted(now, a);
    StepAt(run, sched, i);
  }

  ghost predicate DrawsMoreThan(run: Trace, bound: nat) {
    exists k: nat :: |run(k).shown| > bound
  }

  ghost predicate DrawsForever(run: Trace) {
    forall bound: nat :: DrawsMoreThan(run, bound)
  }

  lemma DrawnWhenFreed(run: Trace, sched: Schedule, bound: nat)
    requires FittingRun(run, sched) && Initial(run(0)) && AllNonEmpty(sched)
    requires HappensForever(FreesOf(run, sched))
    ensures DrawsMoreThan(run, bound)
  {
    InitialIsSafe(run(0));
    var (goal, count) := (FreesOf(run, sched), CompletedOf(run));
    forall i: nat ensures Counts(goal, count, i) && HappensLater(goal, i) {
      ScheduleCounts(run, sched, i);
    }
    var k := CountPassesEveryBound(goal, count, bound + 1);
    assert |run(k).shown| >= count(k);
  }

  lemma ShownGrows(s: System, a: Action)
    ensures |s.shown| <= |Next(s, a).shown|
  {
  }

  lemma {:induction false} NoMoreIsShown(run: Trace, sched: Schedule, n: nat, k: nat)
    requires FittingRun(run, sched) && Going(run(0)) && FatalPoll(run(n), sched(n))
    ensures |run(k).shown| <= |run(n + 1).shown|
    decreases if k <= n then n + 1 - k else k - n - 1
  {
    if k <= n {
      NoMoreIsShown(run, sched, n, k + 1);
      StepAt(run, sched, k);
      ShownGrows(run(k), sched(k));
    } else if n + 1 < k {
      NoMoreIsShown(run, sched, n, k - 1);
      NothingAfterFatal(run, sched, n, k - 1);
    }
  }

  /** With frames that fit and are not empty, the number of results drawn passes every bound if and
      only if no poll is ever fatal. */
  lemma DrawsForeverExactly(run: Trace, sched: Schedule)
    requires FittingRun(run, sched) && Initial(run(0)) && AllNonEmpty(sched) && Fair(RunsP1(sched))
    ensures DrawsForever(run) <==> NeverFatal(run, sched)
  {
    InitialIsGoing(run(0));
    if NeverFatal(run, sched) {
      FreedForeverExactly(run, sched);
      forall bound: nat ensures DrawsMoreThan(run, bound) {
        DrawnWhenFreed(run, sched, bound);
      }
    } else {
      var n: nat :| FatalPoll(run(n), sched(n));
      forall k: nat ensures |run(k).shown| <= |run(n + 1).shown| {
        NoMoreIsShown(run, sched, n, k);
      }
      assert !DrawsMoreThan(run, |run(n + 1).shown|);
    }
  }
}
