/** Pose requests: at most one per track and interval goes into the pose queue, and the worker
    drains it in small batches of fresh requests. */
module PhaseTwo {
  import opened Options
  import opened Lists
  import opened LatestFrames
  import opened Heaps
  import opened PoseQueueSpec
  import opened PoseQueue
  import opened RateLimits
  import SchedulerSpec
  import TrackerSpec

  type Identity = (string, nat)

  /** An accepted request. */
  datatype Stamp = Stamp(identity: Identity, at: int)

  /** The time of the last accepted request of each track, with all of them so far. */
  datatype Throttle = Throttle(last: map<Identity, int>, accepted: seq<Stamp>)

  function IdentityOf(t: TrackerSpec.Report): Identity {
    (t.cameraId, t.id)
  }

  predicate Waits(th: Throttle, interval: nat, identity: Identity, now: int) {
    now - (if identity in th.last then th.last[identity] else 0) < interval
  }

  function RequestFor(t: TrackerSpec.Report, frame: FramePacket, now: int): PoseRequest {
    PoseRequest(t.cameraId, t.id, frame, t.box, Medium, now)
  }

  function Granted(th: Throttle, identity: Identity, now: int): Throttle {
    Throttle(th.last[identity := now], th.accepted + [Stamp(identity, now)])
  }

  /** One track; outcome says what the pose queue does with the request, if one is made. */
  function AskedOne(th: Throttle, interval: nat, t: TrackerSpec.Report, now: int, outcome: Outcome): Throttle {
    if Waits(th, interval, IdentityOf(t), now) || outcome.Rejected? then th else Granted(th, IdentityOf(t), now)
  }

  function PutsOne(th: Throttle, interval: nat, t: TrackerSpec.Report, frame: FramePacket, now: int, outcome: Outcome)
    : seq<Event>
  {
    if Waits(th, interval, IdentityOf(t), now) then [] else [Offer(RequestFor(t, frame, now), outcome)]
  }

  /** The tracks of one result in turn. */
  function Asked(th: Throttle, interval: nat, tracks: seq<TrackerSpec.Report>, now: int, outcomes: seq<Outcome>)
    : Throttle
    requires |outcomes| == |tracks|
    decreases |tracks|
  {
    if tracks == [] then th
    else
      var n := |tracks| - 1;
      AskedOne(Asked(th, interval, tracks[..n], now, outcomes[..n]), interval, tracks[n], now, outcomes[n])
  }

  /** The puts they make. */
  function Puts(th: Throttle, interval: nat, tracks: seq<TrackerSpec.Report>, frame: FramePacket, now: int,
                outcomes: seq<Outcome>): seq<Event>
    requires |outcomes| == |tracks|
    decreases |tracks|
  {
    if tracks == [] then []
    else
      var n := |tracks| - 1;
      Puts(th, interval, tracks[..n], frame, now, outcomes[..n])
      + PutsOne(Asked(th, interval, tracks[..n], now, outcomes[..n]), interval, tracks[n], frame, now, outcomes[n])
  }

  function OffersIn(events: seq<Event>): seq<Event>
    decreases |events|
  {
    if events == [] then []
    else
      var e := events[|events| - 1];
      OffersIn(events[..|events| - 1]) + if e.Offer? then [e] else []
  }

  lemma OneMoreEvent(events: seq<Event>, e: Event)
    ensures OffersIn(events + [e]) == OffersIn(events) + if e.Offer? then [e] else []
  {
    assert (events + [e])[..|events|] == events;
  }

  /** The requests worth running: those whose frame is at most a second old when taken. */
  function Fresh(taken: seq<PoseRequest>, clock: nat -> int): (requests: seq<PoseRequest>)
    ensures |requests| <= |taken|
    decreases |taken|
  {
    if taken == [] then []
    else
      var n := |taken| - 1;
      Fresh(taken[..n], clock) + if SchedulerSpec.AgeMs(taken[n].frame, clock(n)) <= 1000.0 then [taken[n]] else []
  }

  // ----- one batch of the worker -----

  function PutsBefore(puts: seq<seq<PoseRequest>>, k: nat): seq<PoseRequest> {
    if k < |puts| then puts[k] else []
  }

  /** The first get that no put follows. */
  function LastPut(puts: seq<seq<PoseRequest>>): nat {
    if puts == [] then 0 else |puts| - 1
  }

  predicate AllPut(puts: seq<seq<PoseRequest>>, outcomes: seq<seq<Outcome>>) {
    forall k :: 0 <= k < |outcomes| ==> |outcomes[k]| == |PutsBefore(puts, k)|
  }

  function OffersOf(items: seq<PoseRequest>, outcomes: seq<Outcome>): seq<Event>
    requires |items| == |outcomes|
  {
    seq(|items|, k requires 0 <= k < |items| => Offer(items[k], outcomes[k]))
  }

  /** The worker's gets, each after the puts that come before it. */
  function BatchEvents(puts: seq<seq<PoseRequest>>, outcomes: seq<seq<Outcome>>, answers: seq<Option<PoseRequest>>)
    : seq<Event>
    requires |outcomes| == |answers| && AllPut(puts, outcomes)
    decreases |answers|
  {
    if answers == [] then []
    else
      var n := |answers| - 1;
      BatchEvents(puts, outcomes[..n], answers[..n]) + OffersOf(PutsBefore(puts, n), outcomes[n]) + [Take(answers[n])]
  }

  /** What the gets return: the requests taken, and None at the end when the queue ran empty. */
  function Answers(taken: seq<PoseRequest>, ranEmpty: bool): seq<Option<PoseRequest>> {
    seq(|taken|, k requires 0 <= k < |taken| => Some(taken[k])) + if ranEmpty then [None] else []
  }

  /** The queue has gone through exactly these events since it held `start`. */
  predicate HasFollowed(maxsize: nat, history: seq<Event>, held: Bag, base: seq<Event>, start: Bag,
                        events: seq<Event>)
  {
    history == base + events && Legal(maxsize, start, events) && held == After(start, events)
  }

  /** Where the loop over the tracks is after k of them. */
  ghost predicate HasAsked(th: Throttle, interval: nat, tracks: seq<TrackerSpec.Report>, frame: FramePacket, now: int,
                           outcomes: seq<Outcome>, k: nat, offers: seq<Event>, asked: Throttle, put: seq<Event>)
  {
    && |outcomes| == k <= |tracks|
    && asked == Asked(th, interval, tracks[..k], now, outcomes)
    && put == offers + Puts(th, interval, tracks[..k], frame, now, outcomes)
  }

  const POSE_BATCH: nat := 8

  class Phase2Runtime {
    const pose: BoundedPoseQueue
    const poseIntervalNs: nat
    var lastPoseRequestNs: map<Identity, int>
    ghost var accepted: seq<Stamp>

    constructor (pose: BoundedPoseQueue, poseIntervalNs: nat)
      ensures this.pose == pose && this.poseIntervalNs == poseIntervalNs
      ensures View() == Throttle(map[], [])
    {
      this.pose, this.poseIntervalNs := pose, poseIntervalNs;
      lastPoseRequestNs := map[];
      accepted := [];
    }

    ghost function View(): Throttle
      reads this
    {
      Throttle(lastPoseRequestNs, accepted)
    }

    /** The pose worker takes n requests. */
    method OthersTake(n: nat)
      requires pose.Valid()
      modifies pose`heap, pose`history
      ensures pose.Valid() && OffersIn(pose.history) == OffersIn(old(pose.history))
    {
      for k := 0 to n
        invariant pose.Valid() && OffersIn(pose.history) == OffersIn(old(pose.history))
      {
        ghost var before := pose.history;
        var request := pose.Get();
        OneMoreEvent(before, Take(request));
      }
    }

    /** put on the pose queue, after the pose worker has taken n requests. */
    method PutRequest(request: PoseRequest, n: nat) returns (isAccepted: bool, ghost outcome: Outcome)
      requires pose.Valid()
      modifies pose
      ensures pose.Valid() && isAccepted == !outcome.Rejected?
      ensures OffersIn(pose.history) == OffersIn(old(pose.history)) + [Offer(request, outcome)]
    {
      OthersTake(n);
      ghost var before := pose.history;
      isAccepted, outcome := pose.Put(request);
      OneMoreEvent(before, Offer(request, outcome));
    }

    ghost predicate Says(th: Throttle, offers: seq<Event>)
      reads this, pose
    {
      lastPoseRequestNs == th.last && accepted == th.accepted && OffersIn(pose.history) == offers
    }

    /** One track: a request is made unless the last accepted one is too recent. The pose worker
        takes n requests just before. */
    method RequestPose(t: TrackerSpec.Report, frame: FramePacket, now: int, n: nat, ghost th: Throttle,
                       ghost offers: seq<Event>) returns (ghost outcome: Outcome)
      requires pose.Valid() && Says(th, offers)
      modifies this, pose
      ensures pose.Valid()
      ensures Says(AskedOne(th, poseIntervalNs, t, now, outcome),
                   offers + PutsOne(th, poseIntervalNs, t, frame, now, outcome))
    {
      var identity := IdentityOf(t);
      outcome := Stored;
      var last := if identity in lastPoseRequestNs then lastPoseRequestNs[identity] else 0;
      if now - last < poseIntervalNs {
        return;
      }
      var isAccepted;
      isAccepted, outcome := PutRequest(RequestFor(t, frame, now), n);
      if isAccepted {
        lastPoseRequestNs := lastPoseRequestNs[identity := now];
        accepted := accepted + [Stamp(identity, now)];
      }
    }

    /** The loop over one result's tracks. The pose worker takes `takes(k)` requests before the
        k-th track's put. */
    method RequestPoses(tracks: seq<TrackerSpec.Report>, frame: FramePacket, now: int, takes: nat -> nat)
      returns (ghost outcomes: seq<Outcome>)
      requires pose.Valid()
      modifies this, pose
      ensures pose.Valid() && |outcomes| == |tracks|
      ensures View() == Asked(old(View()), poseIntervalNs, tracks, now, outcomes)
      ensures OffersIn(pose.history)
              == OffersIn(old(pose.history)) + Puts(old(View()), poseIntervalNs, tracks, frame, now, outcomes)
    {
      outcomes := [];
      ghost var (th, offers) := (View(), OffersIn(pose.history));
      ghost var (asked, put) := (th, offers);
      for k := 0 to |tracks|
        invariant pose.Valid() && Says(asked, put)
        invariant HasAsked(th, poseIntervalNs, tracks, frame, now, outcomes, k, offers, asked, put)
      {
        ghost var outcome := RequestPose(tracks[k], frame, now, takes(k), asked, put);
        OneMoreAsked(th, poseIntervalNs, tracks, frame, now, outcomes, k, offers, asked, put, outcome);
        put := put + PutsOne(asked, poseIntervalNs, tracks[k], frame, now, outcome);
        asked := AskedOne(asked, poseIntervalNs, tracks[k], now, outcome);
        outcomes := outcomes + [outcome];
      }
      assert tracks[..|tracks|] == tracks;
    }

    ghost predicate Follows(base: seq<Event>, start: Bag, events: seq<Event>)
      reads pose
    {
      HasFollowed(pose.maxsize, pose.history, multiset(pose.heap), base, start, events)
    }

    /** Other threads put a request. */
    method OthersPut(item: PoseRequest, ghost base: seq<Event>, ghost start: Bag, ghost events: seq<Event>)
      returns (ghost outcome: Outcome)
      requires pose.Valid() && Follows(base, start, events)
      modifies pose
      ensures pose.Valid() && Follows(base, start, events + [Offer(item, outcome)])
    {
      ghost var (history, held) := (pose.history, multiset(pose.heap));
      var isAccepted;
      isAccepted, outcome := pose.Put(item);
      OneMoreFollows(pose.maxsize, history, held, base, start, events, Offer(item, outcome));
    }

    /** All that other threads put before the worker's next get. */
    method OthersPutAll(items: seq<PoseRequest>, ghost base: seq<Event>, ghost start: Bag, ghost events: seq<Event>)
      returns (ghost outcomes: seq<Outcome>)
      requires pose.Valid() && Follows(base, start, events)
      modifies pose
      ensures pose.Valid() && |outcomes| == |items| && Follows(base, start, events + OffersOf(items, outcomes))
      ensures items == [] ==> pose.heap == old(pose.heap)
    {
      outcomes := [];
      ghost var past := events;
      for k := 0 to |items|
        invariant pose.Valid() && |outcomes| == k && Follows(base, start, past)
        invariant past == events + OffersOf(items[..k], outcomes)
        invariant k == 0 ==> pose.heap == old(pose.heap)
      {
        ghost var outcome := OthersPut(items[k], base, start, past);
        OneMoreOffer(events, items, outcomes, outcome);
        past, outcomes := past + [Offer(items[k], outcome)], outcomes + [outcome];
      }
      assert items[..|items|] == items;
    }

    /** get on the pose queue, in terms of what is left. */
    method NextRequest(ghost base: seq<Event>, ghost start: Bag, ghost events: seq<Event>)
      returns (request: Option<PoseRequest>)
      requires pose.Valid() && Follows(base, start, events)
      modifies pose`heap, pose`history
      ensures pose.Valid() && Follows(base, start, events + [Take(request)])
      ensures request.None? ==> pose.heap == [] && old(pose.heap) == []
      ensures request.Some? ==>
                && multiset(old(pose.heap)) == multiset{request.value} + multiset(pose.heap)
                && |pose.heap| < |old(pose.heap)| && NoneBefore(request.value, multiset(pose.heap))
    {
      ghost var (history, held) := (pose.history, multiset(pose.heap));
      request := pose.Get();
      OneMoreFollows(pose.maxsize, history, held, base, start, events, Take(request));
      if request.Some? {
        assert multiset{request.value} + (held - multiset{request.value}) == held;
        Removed(held, request.value);
        assert |multiset(pose.heap)| == |pose.heap|;
      }
    }

    /** A batch so far, none of its gets having failed: what was taken from position `since` on
        is in queue order. */
    ghost predicate Drained(base: seq<Event>, start: Bag, puts: seq<seq<PoseRequest>>, taken: seq<PoseRequest>,
                            outcomes: seq<seq<Outcome>>, since: nat)
      reads pose
    {
      && |outcomes| == |taken| && AllPut(puts, outcomes)
      && Follows(base, start, BatchEvents(puts, outcomes, Answers(taken, false)))
      && since <= |taken| && since <= LastPut(puts)
      && InQueueOrder(taken[since..], multiset(pose.heap))
    }

    /** One round of the worker's loop: what the others put, and then its get. */
    method DrainOne(puts: seq<seq<PoseRequest>>, gets: nat, ghost base: seq<Event>, ghost start: Bag,
                    ghost taken: seq<PoseRequest>, ghost outcomes: seq<seq<Outcome>>, ghost since: nat)
      returns (request: Option<PoseRequest>, ghost now: seq<Outcome>, ghost since': nat)
      requires pose.Valid() && gets == |taken| && Drained(base, start, puts, taken, outcomes, since)
      modifies pose
      ensures pose.Valid() && |now| == |PutsBefore(puts, gets)|
      ensures request.None? ==>
                && pose.heap == [] && AllPut(puts, outcomes + [now])
                && Follows(base, start, BatchEvents(puts, outcomes + [now], Answers(taken, true)))
      ensures request.Some? ==>
                && Drained(base, start, puts, taken + [request.value], outcomes + [now], since')
                && (gets >= |puts| ==> |pose.heap| < |old(pose.heap)|)
    {
      var items := PutsBefore(puts, gets);
      ghost var past := BatchEvents(puts, outcomes, Answers(taken, false));
      now := OthersPutAll(items, base, start, past);
      since' := if items == [] then since else gets;
      ghost var held := multiset(pose.heap);
      assert InQueueOrder(taken[since'..], held);
      request := NextRequest(base, start, past + OffersOf(items, now));
      OneMoreGet(puts, taken, outcomes, now, request);
      if request.Some? {
        TailGrows(taken, since', request.value, held, multiset(pose.heap));
      }
    }

    /** The pose worker's batch: at most eight requests, all fresh; fewer only when the queue has
        run empty. Other threads put puts[k] before the worker's k-th get. The queue goes through
        exactly these puts and gets, and what is taken after the last put comes out highest
        priority and oldest first. */
    method Drain(clock: nat -> int, puts: seq<seq<PoseRequest>>)
      returns (requests: seq<PoseRequest>, ghost taken: seq<PoseRequest>, ghost outcomes: seq<seq<Outcome>>)
      requires pose.Valid()
      modifies pose
      ensures pose.Valid() && requests == Fresh(taken, clock) && |requests| <= POSE_BATCH
      ensures |requests| < POSE_BATCH ==> pose.heap == []
      ensures var answers := Answers(taken, |requests| < POSE_BATCH);
              && |outcomes| == |answers| && AllPut(puts, outcomes)
              && Follows(old(pose.history), old(multiset(pose.heap)), BatchEvents(puts, outcomes, answers))
      ensures LastPut(puts) <= |taken| ==> InQueueOrder(taken[LastPut(puts)..], multiset(pose.heap))
    {
      requests, taken, outcomes := [], [], [];
      var gets := 0;
      ghost var (base, start, since) := (pose.history, multiset(pose.heap), 0);
      NothingDrained(pose.maxsize, base, start, puts);
      while |requests| < POSE_BATCH
        invariant pose.Valid() && requests == Fresh(taken, clock) && |requests| <= POSE_BATCH && gets == |taken|
        invariant Drained(base, start, puts, taken, outcomes, since)
        decreases if gets < |puts| then |puts| - gets else 0, |pose.heap|
      {
        ghost var held := multiset(pose.heap);
        var request;
        ghost var now, since';
        request, now, since' := DrainOne(puts, gets, base, start, taken, outcomes, since);
        outcomes := outcomes + [now];
        if request == None {
          TailInOrder(taken, since, LastPut(puts), held, multiset(pose.heap));
          return;
        }
        if SchedulerSpec.AgeMs(request.value.frame, clock(gets)) <= 1000.0 {
          requests := requests + [request.value];
        }
        FreshGrows(taken, request.value, clock);
        gets, taken, since := gets + 1, taken + [request.value], since';
      }
      TailInOrder(taken, since, LastPut(puts), multiset(pose.heap), multiset(pose.heap));
    }
  }

  lemma OneMoreFollows(maxsize: nat, history: seq<Event>, held: Bag, base: seq<Event>, start: Bag,
                       events: seq<Event>, e: Event)
    requires HasFollowed(maxsize, history, held, base, start, events) && LegalEvent(maxsize, held, e)
    ensures HasFollowed(maxsize, history + [e], Apply(held, e), base, start, events + [e])
  {
    assert (events + [e])[..|events|] == events;
    assert base + events + [e] == base + (events + [e]);
  }

  lemma OneMoreOffer(events: seq<Event>, items: seq<PoseRequest>, outcomes: seq<Outcome>, outcome: Outcome)
    requires |outcomes| < |items|
    ensures var k := |outcomes|;
            events + OffersOf(items[..k + 1], outcomes + [outcome])
            == events + OffersOf(items[..k], outcomes) + [Offer(items[k], outcome)]
  {
    var k := |outcomes|;
    assert OffersOf(items[..k + 1], outcomes + [outcome])
           == OffersOf(items[..k], outcomes) + [Offer(items[k], outcome)];
  }

  lemma OneMoreGet(puts: seq<seq<PoseRequest>>, taken: seq<PoseRequest>, outcomes: seq<seq<Outcome>>,
                   now: seq<Outcome>, answer: Option<PoseRequest>)
    requires |outcomes| == |taken| && AllPut(puts, outcomes) && |now| == |PutsBefore(puts, |taken|)|
    ensures AllPut(puts, outcomes + [now])
    ensures var answers := if answer.Some? then Answers(taken + [answer.value], false) else Answers(taken, true);
            BatchEvents(puts, outcomes + [now], answers)
            == BatchEvents(puts, outcomes, Answers(taken, false)) + OffersOf(PutsBefore(puts, |taken|), now)
               + [Take(answer)]
  {
    var answers := if answer.Some? then Answers(taken + [answer.value], false) else Answers(taken, true);
    assert answers == Answers(taken, false) + [answer];
    assert (outcomes + [now])[..|taken|] == outcomes && answers[..|taken|] == Answers(taken, false);
  }

  lemma NothingDrained(maxsize: nat, history: seq<Event>, held: Bag, puts: seq<seq<PoseRequest>>)
    ensures HasFollowed(maxsize, history, held, history, held, BatchEvents(puts, [], Answers([], false)))
  {
    assert Answers([], false) == [];
    assert history + [] == history;
  }

  lemma TailInOrder(taken: seq<PoseRequest>, since: nat, last: nat, rest: Bag, left: Bag)
    requires since <= last && since <= |taken| && InQueueOrder(taken[since..], rest) && left <= rest
    ensures last <= |taken| ==> InQueueOrder(taken[last..], left)
  {
    if last <= |taken| {
      assert forall i :: 0 <= i < |taken[last..]| ==> taken[last..][i] == taken[since..][last - since + i];
      forall i, y | 0 <= i < |taken[last..]| && y in left ensures !Before(y, taken[last..][i]) {
        assert NoneBefore(taken[since..][last - since + i], rest) && y in rest;
      }
    }
  }

  lemma NextAsked(th: Throttle, interval: nat, tracks: seq<TrackerSpec.Report>, now: int, outcomes: seq<Outcome>,
                  outcome: Outcome)
    requires |outcomes| < |tracks|
    ensures var k := |outcomes|;
            Asked(th, interval, tracks[..k + 1], now, outcomes + [outcome])
            == AskedOne(Asked(th, interval, tracks[..k], now, outcomes), interval, tracks[k], now, outcome)
  {
    var k := |outcomes|;
    var (ts, os) := (tracks[..k + 1], outcomes + [outcome]);
    assert ts[..k] == tracks[..k] && os[..k] == outcomes;
  }

  lemma NextPuts(th: Throttle, interval: nat, tracks: seq<TrackerSpec.Report>, frame: FramePacket, now: int,
                 outcomes: seq<Outcome>, outcome: Outcome)
    requires |outcomes| < |tracks|
    ensures var k := |outcomes|;
            var before := Asked(th, interval, tracks[..k], now, outcomes);
            Puts(th, interval, tracks[..k + 1], frame, now, outcomes + [outcome])
            == Puts(th, interval, tracks[..k], frame, now, outcomes)
               + PutsOne(before, interval, tracks[k], frame, now, outcome)
  {
    var k := |outcomes|;
    var (ts, os) := (tracks[..k + 1], outcomes + [outcome]);
    assert ts[..k] == tracks[..k] && os[..k] == outcomes;
  }

  lemma OneMoreAsked(th: Throttle, interval: nat, tracks: seq<TrackerSpec.Report>, frame: FramePacket, now: int,
                     outcomes: seq<Outcome>, k: nat, offers: seq<Event>, asked: Throttle, put: seq<Event>,
                     outcome: Outcome)
    requires k < |tracks| && HasAsked(th, interval, tracks, frame, now, outcomes, k, offers, asked, put)
    ensures HasAsked(th, interval, tracks, frame, now, outcomes + [outcome], k + 1, offers,
                     AskedOne(asked, interval, tracks[k], now, outcome),
                     put + PutsOne(asked, interval, tracks[k], frame, now, outcome))
  {
    NextAsked(th, interval, tracks, now, outcomes, outcome);
    NextPuts(th, interval, tracks, frame, now, outcomes, outcome);
  }

  /** Everything in the bag may wait for x. */
  ghost predicate NoneBefore(x: PoseRequest, rest: Bag) {
    forall y :: y in rest ==> !Before(y, x)
  }

  /** taken is ordered, and nothing left is before any of it. */
  ghost predicate InQueueOrder(taken: seq<PoseRequest>, rest: Bag) {
    && (forall i, j :: 0 <= i < j < |taken| ==> !Before(taken[j], taken[i]))
    && (forall i :: 0 <= i < |taken| ==> NoneBefore(taken[i], rest))
  }

  lemma FreshGrows(taken: seq<PoseRequest>, x: PoseRequest, clock: nat -> int)
    ensures Fresh(taken + [x], clock)
            == Fresh(taken, clock) + if SchedulerSpec.AgeMs(x.frame, clock(|taken|)) <= 1000.0 then [x] else []
  {
    assert (taken + [x])[..|taken|] == taken;
  }

  lemma TailGrows(taken: seq<PoseRequest>, since: nat, x: PoseRequest, held: Bag, rest: Bag)
    requires since <= |taken| && held == multiset{x} + rest
    requires InQueueOrder(taken[since..], held) && NoneBefore(x, rest)
    ensures InQueueOrder((taken + [x])[since..], rest)
  {
    var tail := taken[since..];
    assert (taken + [x])[since..] == tail + [x];
    assert x in held;
    forall i, y | 0 <= i < |tail| && y in rest ensures !Before(y, tail[i]) {
      assert NoneBefore(tail[i], held) && y in held;
    }
  }

  // ----- the rate limit -----

  /** Accepted requests of one track are at least the interval apart, and the last is on record. */
  ghost predicate ThrottleOk(th: Throttle, interval: nat) {
    && (forall k :: 0 <= k < |th.accepted| ==>
          th.accepted[k].identity in th.last && th.accepted[k].at <= th.last[th.accepted[k].identity])
    && (forall j, k :: 0 <= j < k < |th.accepted| && th.accepted[j].identity == th.accepted[k].identity ==>
          th.accepted[k].at - th.accepted[j].at >= interval)
  }

  lemma AskingOneKeepsThrottle(th: Throttle, interval: nat, t: TrackerSpec.Report, now: int, outcome: Outcome)
    requires ThrottleOk(th, interval)
    ensures ThrottleOk(AskedOne(th, interval, t, now, outcome), interval)
  {
  }

  lemma {:induction false} AskingKeepsThrottle(th: Throttle, interval: nat, tracks: seq<TrackerSpec.Report>, now: int,
                                               outcomes: seq<Outcome>)
    requires ThrottleOk(th, interval) && |outcomes| == |tracks|
    ensures ThrottleOk(Asked(th, interval, tracks, now, outcomes), interval)
    decreases |tracks|
  {
    if tracks != [] {
      var n := |tracks| - 1;
      AskingKeepsThrottle(th, interval, tracks[..n], now, outcomes[..n]);
      var before := Asked(th, interval, tracks[..n], now, outcomes[..n]);
      AskingOneKeepsThrottle(before, interval, tracks[n], now, outcomes[n]);
    }
  }

  /** One result: its tracks, the time it is consumed, and what the queue answers. */
  datatype Batch = Batch(tracks: seq<TrackerSpec.Report>, now: int, outcomes: seq<Outcome>)

  predicate Answered(batches: seq<Batch>) {
    forall k :: 0 <= k < |batches| ==> |batches[k].outcomes| == |batches[k].tracks|
  }

  /** All results consumed so far. */
  function Consumed(interval: nat, batches: seq<Batch>): Throttle
    requires Answered(batches)
    decreases |batches|
  {
    if batches == [] then Throttle(map[], [])
    else
      var b := batches[|batches| - 1];
      Asked(Consumed(interval, batches[..|batches| - 1]), interval, b.tracks, b.now, b.outcomes)
  }

  lemma {:induction false} ConsumingKeepsThrottle(interval: nat, batches: seq<Batch>)
    requires Answered(batches)
    ensures ThrottleOk(Consumed(interval, batches), interval)
    decreases |batches|
  {
    if batches != [] {
      var (init, b) := (batches[..|batches| - 1], batches[|batches| - 1]);
      ConsumingKeepsThrottle(interval, init);
      AskingKeepsThrottle(Consumed(interval, init), interval, b.tracks, b.now, b.outcomes);
    }
  }

  /** Whatever results arrive and whatever the queue answers, at most span / interval + 1 requests
      of one track are accepted in any window of that span. */
  lemma PoseRateIsLimited(interval: nat, batches: seq<Batch>, identity: Identity, idx: seq<nat>, start: int, span: nat)
    requires interval > 0 && Answered(batches)
    requires var accepted := Consumed(interval, batches).accepted;
             Increasing(idx) && Below(idx, |accepted|) && forall k :: 0 <= k < |idx| ==>
               accepted[idx[k]].identity == identity && start <= accepted[idx[k]].at <= start + span
    ensures |idx| <= span / interval + 1
  {
    ConsumingKeepsThrottle(interval, batches);
    var accepted := Consumed(interval, batches).accepted;
    var times := seq(|idx|, k requires 0 <= k < |idx| => accepted[idx[k]].at);
    SpacedFit(times, interval, start, span);
  }
}
