/** Which tracks of a result a pose is asked for, and which requests the worker keeps. */
module PoseRequests {
  import opened Lists
  import opened LatestFrames
  import opened Heaps
  import opened PoseQueueSpec
  import opened PhaseTwo
  import SchedulerSpec
  import TrackerSpec

  type Report = TrackerSpec.Report

  /** The last accepted request of the track is at least the interval ago; a track that never had
      one counts as asked for at time 0. */
  predicate IsDue(th: Throttle, interval: nat, t: Report, now: int) {
    var last := if (t.cameraId, t.id) in th.last then th.last[(t.cameraId, t.id)] else 0;
    now - last >= interval
  }

  predicate SameTrack(t: Report, u: Report) {
    t.cameraId == u.cameraId && t.id == u.id
  }

  /** An earlier report of the same track in this result had its request accepted. */
  predicate WasServed(tracks: seq<Report>, outcomes: seq<Outcome>, k: nat)
    requires |outcomes| == |tracks| && k < |tracks|
  {
    exists j :: 0 <= j < k && SameTrack(tracks[j], tracks[k]) && !outcomes[j].Rejected?
  }

  /** A pose is asked for the k-th report of the result. */
  predicate IsAsked(th: Throttle, interval: nat, tracks: seq<Report>, now: int, outcomes: seq<Outcome>, k: nat)
    requires |outcomes| == |tracks| && k < |tracks|
  {
    IsDue(th, interval, tracks[k], now) && (interval == 0 || !WasServed(tracks, outcomes, k))
  }

  function Asking(th: Throttle, interval: nat, tracks: seq<Report>, now: int, outcomes: seq<Outcome>): nat -> bool
    requires |outcomes| == |tracks|
  {
    (k: nat) => k < |tracks| && IsAsked(th, interval, tracks, now, outcomes, k)
  }

  /** The track has a request accepted in this result. */
  predicate IsGranted(th: Throttle, interval: nat, tracks: seq<Report>, now: int, outcomes: seq<Outcome>,
                      identity: Identity)
    requires |outcomes| == |tracks|
  {
    exists k :: 0 <= k < |tracks| && (tracks[k].cameraId, tracks[k].id) == identity
                && IsDue(th, interval, tracks[k], now) && !outcomes[k].Rejected?
  }

  /** Afterwards the granted tracks were last asked for now, and the others when they were before. */
  ghost predicate IsRecorded(th: Throttle, interval: nat, tracks: seq<Report>, now: int, outcomes: seq<Outcome>,
                             last: map<Identity, int>)
    requires |outcomes| == |tracks|
  {
    forall identity: Identity ::
      if IsGranted(th, interval, tracks, now, outcomes, identity) then identity in last && last[identity] == now
      else (identity in last <==> identity in th.last)
           && (identity in last ==> last[identity] == th.last[identity])
  }

  lemma GrantsGrow(th: Throttle, interval: nat, tracks: seq<Report>, now: int, outcomes: seq<Outcome>, t: Report,
                   outcome: Outcome, identity: Identity)
    requires |outcomes| == |tracks|
    ensures IsGranted(th, interval, tracks + [t], now, outcomes + [outcome], identity)
            <==> IsGranted(th, interval, tracks, now, outcomes, identity)
                 || ((t.cameraId, t.id) == identity && IsDue(th, interval, t, now) && !outcome.Rejected?)
  {
    var (ts, os) := (tracks + [t], outcomes + [outcome]);
    if IsGranted(th, interval, tracks, now, outcomes, identity) {
      var k :| 0 <= k < |tracks| && (tracks[k].cameraId, tracks[k].id) == identity
               && IsDue(th, interval, tracks[k], now) && !outcomes[k].Rejected?;
      assert ts[k] == tracks[k] && os[k] == outcomes[k];
    } else if (t.cameraId, t.id) == identity && IsDue(th, interval, t, now) && !outcome.Rejected? {
      assert ts[|tracks|] == t && os[|tracks|] == outcome;
    }
  }

  /** After the tracks before it, the throttle lets a report through exactly when it is asked. */
  lemma WaitsExactly(th: Throttle, interval: nat, tracks: seq<Report>, now: int, outcomes: seq<Outcome>, t: Report,
                     outcome: Outcome, before: Throttle)
    requires |outcomes| == |tracks| && IsRecorded(th, interval, tracks, now, outcomes, before.last)
    ensures !Waits(before, interval, IdentityOf(t), now)
            <==> IsAsked(th, interval, tracks + [t], now, outcomes + [outcome], |tracks|)
  {
    var (ts, os, n) := (tracks + [t], outcomes + [outcome], |tracks|);
    if IsGranted(th, interval, tracks, now, outcomes, IdentityOf(t)) {
      var k :| 0 <= k < |tracks| && (tracks[k].cameraId, tracks[k].id) == IdentityOf(t)
               && IsDue(th, interval, tracks[k], now) && !outcomes[k].Rejected?;
      assert SameTrack(ts[k], ts[n]) && !os[k].Rejected?;
    }
  }

  lemma RecordGrows(th: Throttle, interval: nat, tracks: seq<Report>, now: int, outcomes: seq<Outcome>, t: Report,
                    outcome: Outcome, before: Throttle)
    requires |outcomes| == |tracks| && IsRecorded(th, interval, tracks, now, outcomes, before.last)
    ensures IsRecorded(th, interval, tracks + [t], now, outcomes + [outcome],
                       AskedOne(before, interval, t, now, outcome).last)
  {
    forall identity: Identity {
      GrantsGrow(th, interval, tracks, now, outcomes, t, outcome, identity);
    }
    WaitsExactly(th, interval, tracks, now, outcomes, t, outcome, before);
  }

  /** A result's loop over its tracks records exactly the accepted requests of the due ones. */
  lemma {:induction false} RequestsAreRecorded(th: Throttle, interval: nat, tracks: seq<Report>, now: int,
                                               outcomes: seq<Outcome>)
    requires |outcomes| == |tracks|
    ensures IsRecorded(th, interval, tracks, now, outcomes, Asked(th, interval, tracks, now, outcomes).last)
    decreases |tracks|
  {
    if tracks != [] {
      var n := |tracks| - 1;
      RequestsAreRecorded(th, interval, tracks[..n], now, outcomes[..n]);
      RecordGrows(th, interval, tracks[..n], now, outcomes[..n], tracks[n], outcomes[n],
                  Asked(th, interval, tracks[..n], now, outcomes[..n]));
      assert tracks[..n] + [tracks[n]] == tracks && outcomes[..n] + [outcomes[n]] == outcomes;
    }
  }

  /** The requests made for the tracks at these positions. */
  ghost predicate AreRequestsFor(tracks: seq<Report>, frame: FramePacket, now: int, outcomes: seq<Outcome>,
                                 idx: seq<nat>, puts: seq<Event>)
    requires |outcomes| == |tracks| && Below(idx, |tracks|)
  {
    && |puts| == |idx|
    && forall a :: 0 <= a < |idx| ==>
         var t := tracks[idx[a]];
         puts[a] == Offer(PoseRequest(t.cameraId, t.id, frame, t.box, Medium, now), outcomes[idx[a]])
  }

  lemma SameAsking(th: Throttle, interval: nat, tracks: seq<Report>, now: int, outcomes: seq<Outcome>, n: nat)
    requires |outcomes| == |tracks| && n <= |tracks|
    ensures Positions(n, Asking(th, interval, tracks[..n], now, outcomes[..n]))
            == Positions(n, Asking(th, interval, tracks, now, outcomes))
  {
    var (ts, os) := (tracks[..n], outcomes[..n]);
    forall k: nat | k < n ensures WasServed(ts, os, k) <==> WasServed(tracks, outcomes, k) {
      assert forall j :: 0 <= j <= k ==> ts[j] == tracks[j] && os[j] == outcomes[j];
    }
    PositionsAgree(n, Asking(th, interval, ts, now, os), Asking(th, interval, tracks, now, outcomes));
  }

  lemma RequestsGrow(tracks: seq<Report>, frame: FramePacket, now: int, outcomes: seq<Outcome>, t: Report,
                     outcome: Outcome, idx: seq<nat>, puts: seq<Event>)
    requires |outcomes| == |tracks| && Below(idx, |tracks|) && AreRequestsFor(tracks, frame, now, outcomes, idx, puts)
    ensures AreRequestsFor(tracks + [t], frame, now, outcomes + [outcome], idx, puts)
    ensures AreRequestsFor(tracks + [t], frame, now, outcomes + [outcome], idx + [|tracks|],
                           puts + [Offer(RequestFor(t, frame, now), outcome)])
  {
  }

  /** A pose is asked for exactly the reports whose track is due and not yet served, in order: for
      that track, frame, box and time, at MEDIUM priority. */
  lemma {:induction false} RequestsAreForTheDue(th: Throttle, interval: nat, tracks: seq<Report>, frame: FramePacket,
                                                now: int, outcomes: seq<Outcome>)
    requires |outcomes| == |tracks|
    ensures AreRequestsFor(tracks, frame, now, outcomes,
                           Positions(|tracks|, Asking(th, interval, tracks, now, outcomes)),
                           Puts(th, interval, tracks, frame, now, outcomes))
    decreases |tracks|
  {
    if tracks != [] {
      var n := |tracks| - 1;
      RequestsAreForTheDue(th, interval, tracks[..n], frame, now, outcomes[..n]);
      SameAsking(th, interval, tracks, now, outcomes, n);
      RequestsAreRecorded(th, interval, tracks[..n], now, outcomes[..n]);
      WaitsExactly(th, interval, tracks[..n], now, outcomes[..n], tracks[n], outcomes[n],
                   Asked(th, interval, tracks[..n], now, outcomes[..n]));
      assert tracks[..n] + [tracks[n]] == tracks && outcomes[..n] + [outcomes[n]] == outcomes;
      RequestsGrow(tracks[..n], frame, now, outcomes[..n], tracks[n], outcomes[n],
                   Positions(n, Asking(th, interval, tracks, now, outcomes)),
                   Puts(th, interval, tracks[..n], frame, now, outcomes[..n]));
    }
  }

  /** The frame of the k-th request is at most a second old when the worker takes it. */
  function InTime(taken: seq<PoseRequest>, clock: nat -> int): nat -> bool {
    (k: nat) => k < |taken| && clock(k) - taken[k].frame.shot.monotonicNs <= 1000000000
  }

  lemma SameInTime(taken: seq<PoseRequest>, clock: nat -> int, n: nat)
    requires n <= |taken|
    ensures Positions(n, InTime(taken[..n], clock)) == Positions(n, InTime(taken, clock))
  {
    PositionsAgree(n, InTime(taken[..n], clock), InTime(taken, clock));
  }

  lemma AgeInNs(frame: FramePacket, now: int)
    ensures SchedulerSpec.AgeMs(frame, now) <= 1000.0 <==> now - frame.shot.monotonicNs <= 1000000000
  {
  }

  /** The worker keeps exactly the requests whose frame is at most a second old, in order. */
  lemma {:induction false} FreshAreInTime(taken: seq<PoseRequest>, clock: nat -> int)
    ensures Fresh(taken, clock) == Select(taken, Positions(|taken|, InTime(taken, clock)))
    decreases |taken|
  {
    if taken != [] {
      var n := |taken| - 1;
      FreshAreInTime(taken[..n], clock);
      SameInTime(taken, clock, n);
      var idx := Positions(n, InTime(taken, clock));
      assert Fresh(taken[..n], clock) == Select(taken[..n], idx) == Select(taken, idx);
      SelectLonger(taken, n + 1, InTime(taken, clock));
      AgeInNs(taken[n].frame, clock(n));
    }
  }
}
