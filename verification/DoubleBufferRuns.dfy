/** What the interleaved protocol guarantees over every run, and how it can come to a halt. */
module DoubleBufferRuns {
  import opened Options
  import opened FrameSlots
  import opened DoubleBuffer

  predicate AllSensible(actions: seq<Action>) {
    forall a <- actions :: Sensible(a)
  }

  lemma {:induction false} RunKeepsInv(s: System, actions: seq<Action>)
    requires Inv(s) && AllSensible(actions)
    ensures Inv(Run(s, actions))
    decreases |actions|
  {
    if actions != [] {
      RunKeepsInv(s, actions[..|actions| - 1]);
      NextKeepsInv(Run(s, actions[..|actions| - 1]), actions[|actions| - 1]);
    }
  }

  lemma InitialIsSafe(s: System)
    requires Initial(s)
    ensures Inv(s)
  {
  }

  /** In every interleaving: P1 draws each result on exactly the image it was computed from, and
      while every published result can be decoded at most one slot is ever stranded. */
  lemma EveryRunIsSafe(s: System, actions: seq<Action>)
    requires Initial(s) && AllSensible(actions)
    ensures var t := Run(s, actions);
            && (forall o <- t.shown :: o.canvas == o.result.source)
            && (t.garbled == 0 ==> !(Stranded(t, 0) && Stranded(t, 1)))
            && (t.p1.Draw? ==> t.p1.canvas == Some(t.p1.result.source))
  {
    InitialIsSafe(s);
    RunKeepsInv(s, actions);
  }

  predicate SameImage(before: Slot, after: Slot) {
    before.height == after.height && before.width == after.width && before.mem == after.mem
  }

  lemma P2NeverWritesImages(s: System, objects: string, parses: bool, i: Index)
    ensures SameImage(s.slots[i], NextP2(s, objects, parses).slots[i])
  {
  }

  /** Only P1 changes an image or its dimensions, and only while the slot is FREE: never a
      slot that is FILLED or LOCKED. */
  lemma OnlyFreeSlotsAreWritten(s: System, a: Action, i: Index)
    requires Inv(s) && !SameImage(s.slots[i], Next(s, a).slots[i])
    ensures a.ByP1? && P1Writes(s, i) && s.slots[i].state == Free && Next(s, a).slots[i].state == Free
  {
    if a.ByP2? {
      P2NeverWritesImages(s, a.objects, a.parses, i);
    }
  }

  /** Once P2 is past its reset, a slot moves only FREE to FILLED (P1), FILLED to LOCKED (P2),
      and LOCKED to FREE (P1 after drawing, or P2 for an empty image). */
  lemma SlotsOnlyCycle(s: System, a: Action, i: Index)
    requires Inv(s) && !Resetting(s)
    ensures var (before, after) := (s.slots[i].state, Next(s, a).slots[i].state);
            before != after ==>
              match before
              case Free => after == Filled && a.ByP1? && P1Writes(s, i)
              case Filled => after == Locked && a.ByP2? && s.p2 == Lock(i)
              case Locked => after == Free && (if a.ByP1? then P1Holds(s, i) else P2Holds(s, i))
  {
  }

  /** The two ways to lose the result that would have freed slot i: P2 stores another result
      before P1 has read it, or P1 cannot decode it. */
  predicate LosesResult(s: System, a: Action, i: Index) {
    && Unread(s, i)
    && match a
       case ByP1(_) => s.p1.PollResult? && !s.record.parses
       case ByP2(_, _) => s.p2.Publish?
  }

  lemma StrandedExactlyByLoss(s: System, a: Action, i: Index)
    requires Inv(s)
    ensures !Stranded(s, i) && Stranded(Next(s, a), i) <==> LosesResult(s, a, i)
  {
    if a.ByP1? {
      StrandedByP1(s, a.frame, i);
    } else {
      StrandedByP2(s, a.objects, a.parses, i);
    }
  }

  /** Everything about slot i that decides whether it is stranded. */
  predicate SameClaims(s: System, t: System, i: Index) {
    && s.slots[i].state == t.slots[i].state
    && P1Holds(s, i) == P1Holds(t, i) && P2Holds(s, i) == P2Holds(t, i)
    && Unread(s, i) == Unread(t, i)
  }

  lemma QuietP1(s: System, camera: Frame, i: Index)
    requires !s.p1.PutFlag? && !s.p1.PollResult? && !s.p1.FreeSlot?
    ensures SameClaims(s, NextP1(s, camera), i)
  {
  }

  lemma QuietP2(s: System, objects: string, parses: bool, i: Index)
    requires !Resetting(s) && !s.p2.Lock? && !s.p2.GiveBack? && !s.p2.Publish?
    ensures SameClaims(s, NextP2(s, objects, parses), i)
  {
  }

  lemma StrandedByP1(s: System, camera: Frame, i: Index)
    requires Inv(s)
    ensures !Stranded(s, i) && Stranded(NextP1(s, camera), i) <==> LosesResult(s, ByP1(camera), i)
    ensures Stranded(s, i) ==> Stranded(NextP1(s, camera), i)
  {
    if !s.p1.PutFlag? && !s.p1.PollResult? && !s.p1.FreeSlot? {
      QuietP1(s, camera, i);
    }
  }

  lemma StrandedByP2(s: System, objects: string, parses: bool, i: Index)
    requires Inv(s)
    ensures !Stranded(s, i) && Stranded(NextP2(s, objects, parses), i)
            <==> LosesResult(s, ByP2(objects, parses), i)
    ensures Stranded(s, i) ==> Stranded(NextP2(s, objects, parses), i)
  {
    if !Resetting(s) && !s.p2.Lock? && !s.p2.GiveBack? && !s.p2.Publish? {
      QuietP2(s, objects, parses, i);
    }
  }

  lemma StrandedStays(s: System, a: Action, i: Index)
    requires Inv(s) && Stranded(s, i)
    ensures Stranded(Next(s, a), i)
  {
    if a.ByP1? {
      StrandedByP1(s, a.frame, i);
    } else {
      StrandedByP2(s, a.objects, a.parses, i);
    }
  }

  lemma {:induction false} StrandedForGood(s: System, actions: seq<Action>, i: Index)
    requires Inv(s) && AllSensible(actions) && Stranded(s, i)
    ensures Stranded(Run(s, actions), i)
    decreases |actions|
  {
    if actions != [] {
      var (early, last) := (actions[..|actions| - 1], actions[|actions| - 1]);
      StrandedForGood(s, early, i);
      RunKeepsInv(s, early);
      StrandedStays(Run(s, early), last, i);
    }
  }

  // ----- how the camera comes to a halt -----

  /** P1 polls a result it cannot decode, while the slot the result does not belong to is
      already stranded. */
  predicate FatalPoll(s: System, a: Action) {
    && a.ByP1? && s.p1.PollResult? && !s.record.parses
    && ((Unread(s, 0) && Stranded(s, 1)) || (Unread(s, 1) && Stranded(s, 0)))
  }

  /** P2 overwrites a result only to publish one for the slot it holds, so that an overwritten
      result never strands the second slot. */
  lemma OverwritingSparesTheOther(s: System, objects: string, parses: bool)
    requires Inv(s) && AtMostOneStranded(s)
    ensures AtMostOneStranded(NextP2(s, objects, parses))
  {
    StrandedByP2(s, objects, parses, 0);
    StrandedByP2(s, objects, parses, 1);
    if s.p2.Publish? {
      assert Unread(NextP2(s, objects, parses), s.p2.slot);
    }
  }

  lemma SecondIsLostByPolling(s: System, a: Action)
    requires Inv(s) && AtMostOneStranded(s)
    ensures !AtMostOneStranded(Next(s, a)) <==> FatalPoll(s, a)
  {
    if a.ByP1? {
      StrandedByP1(s, a.frame, 0);
      StrandedByP1(s, a.frame, 1);
    } else {
      OverwritingSparesTheOther(s, a.objects, a.parses);
    }
  }

  lemma HaltsNow(s: System, a: Action)
    requires Inv(s)
    ensures !AtMostOneStranded(Next(s, a)) <==> !AtMostOneStranded(s) || FatalPoll(s, a)
  {
    if AtMostOneStranded(s) {
      SecondIsLostByPolling(s, a);
    } else {
      StrandedStays(s, a, 0);
      StrandedStays(s, a, 1);
    }
  }

  ghost predicate HadFatalPoll(s: System, actions: seq<Action>) {
    exists n: nat :: n < |actions| && FatalPoll(Run(s, actions[..n]), actions[n])
  }

  lemma FatalPollOfPrefix(s: System, early: seq<Action>, last: Action)
    ensures HadFatalPoll(s, early + [last]) <==> HadFatalPoll(s, early) || FatalPoll(Run(s, early), last)
  {
    var actions := early + [last];
    assert actions[..|early|] == early;
    assert forall n: nat :: n < |early| ==> actions[..n] == early[..n] && actions[n] == early[n];
    if FatalPoll(Run(s, early), last) {
      assert FatalPoll(Run(s, actions[..|early|]), actions[|early|]);
    }
    if HadFatalPoll(s, early) {
      var n: nat :| n < |early| && FatalPoll(Run(s, early[..n]), early[n]);
      assert FatalPoll(Run(s, actions[..n]), actions[n]);
    }
  }

  /** In every run the camera has come to a halt, both slots stranded, if and only if P1 has
      polled an undecodable result of one slot when the other slot was stranded already. */
  lemma {:induction false} HaltsExactlyByFatalPoll(s: System, actions: seq<Action>)
    requires Initial(s) && AllSensible(actions)
    ensures !AtMostOneStranded(Run(s, actions)) <==> HadFatalPoll(s, actions)
    decreases |actions|
  {
    if actions != [] {
      var (early, last) := (actions[..|actions| - 1], actions[|actions| - 1]);
      HaltsExactlyByFatalPoll(s, early);
      InitialIsSafe(s);
      RunKeepsInv(s, early);
      assert actions == early + [last];
      FatalPollOfPrefix(s, early, last);
      HaltsNow(Run(s, early), last);
    }
  }

  lemma NothingLeftToDo(s: System, a: Action)
    requires Inv(s) && Stranded(s, 0) && Stranded(s, 1)
    ensures Next(s, a).shown == s.shown && Next(s, a).slots == s.slots
  {
  }

  /** With both slots stranded nothing is ever drawn again. */
  lemma {:induction false} BothStrandedIsTheEnd(s: System, actions: seq<Action>)
    requires Inv(s) && AllSensible(actions) && Stranded(s, 0) && Stranded(s, 1)
    ensures Run(s, actions).shown == s.shown && Run(s, actions).slots == s.slots
    decreases |actions|
  {
    if actions != [] {
      var (early, last) := (actions[..|actions| - 1], actions[|actions| - 1]);
      BothStrandedIsTheEnd(s, early);
      RunKeepsInv(s, early);
      StrandedForGood(s, early, 0);
      StrandedForGood(s, early, 1);
      NothingLeftToDo(Run(s, early), last);
    }
  }

  /** A slot that is stranded alone stays alone as long as results can be decoded. */
  lemma AliveStaysAlive(s: System, a: Action)
    requires Inv(s) && Alive(s) && (a.ByP2? ==> a.parses)
    ensures Alive(Next(s, a))
  {
    StrandedExactlyByLoss(s, a, 0);
    StrandedExactlyByLoss(s, a, 1);
  }

  // ----- frames that do not fit -----

  predicate Oversized(lim: Limits, a: Action) {
    a.ByP1? ==> IsImage(a.frame) && !Fits(lim, a.frame.height, a.frame.width)
  }

  /** Slot i is free, and P1 is on its way to the size check that raises. */
  predicate Refuses(s: System, i: Index) {
    && s.slots[i].state == Free
    && match s.p1
       case Waiting => true
       case TryFirst(f) => !Fits(s.lim, f.height, f.width)
       case TrySecond(f) => i == 1 && !Fits(s.lim, f.height, f.width)
       case _ => false
  }

  lemma RefusesAgain(s: System, a: Action, i: Index)
    requires P2Safe(s) && Refuses(s, i) && Oversized(s.lim, a)
    ensures var t := Next(s, a);
            Refuses(t, i) && t.lim == s.lim && t.shown == s.shown && t.lastSeq == s.lastSeq
  {
  }

  /** Between s and t slot i was free and nothing was read or drawn. */
  predicate NothingPolled(s: System, t: System, i: Index) {
    Inv(t) && Refuses(t, i) && t.lim == s.lim && t.shown == s.shown && t.lastSeq == s.lastSeq
  }

  lemma StillNothingPolled(s: System, t: System, a: Action, i: Index)
    requires NothingPolled(s, t, i) && Oversized(s.lim, a)
    ensures NothingPolled(s, Next(t, a), i)
  {
    NextKeepsInv(t, a);
    RefusesAgain(t, a, i);
  }

  predicate AllOversized(lim: Limits, actions: seq<Action>) {
    forall a <- actions :: Oversized(lim, a)
  }

  /** While a slot is free, frames that do not fit keep P1 from ever polling: no result is read or
      drawn, and the slot stays free. */
  lemma {:induction false} OversizedFramesStopPolling(s: System, actions: seq<Action>, i: Index)
    requires Inv(s) && s.p1.Waiting? && s.slots[i].state == Free && AllOversized(s.lim, actions)
    ensures NothingPolled(s, Run(s, actions), i)
    decreases |actions|
  {
    if actions != [] {
      var (early, last) := (actions[..|actions| - 1], actions[|actions| - 1]);
      OversizedFramesStopPolling(s, early, i);
      assert last in actions;
      StillNothingPolled(s, Run(s, early), last, i);
    }
  }
}
