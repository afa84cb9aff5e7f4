/** One shared frame slot per camera: a new frame replaces an unread one, and every frame that
    is published is accounted for. */
module LatestFrames {
  import opened Options
  import opened FrameSlots

  /** A frame with its two capture times. */
  datatype Shot = Shot(frame: Frame, unixNs: int, monotonicNs: int)

  datatype FramePacket = FramePacket(cameraId: string, frameId: nat, shot: Shot)

  /** What the buffer knows: how many frames were published, which of them was last taken (or
      found stale), how many were overwritten unread, how many were found stale, and the newest. */
  datatype Latest = Latest(sequence: nat, consumed: nat, dropped: nat, stale: nat, shot: Shot)

  function Published(b: Latest, shot: Shot): Latest {
    b.(sequence := b.sequence + 1,
       dropped := if b.sequence > b.consumed then b.dropped + 1 else b.dropped,
       shot := shot)
  }

  predicate TooOld(shot: Shot, maxAgeMs: Option<real>, now: int) {
    maxAgeMs.Some? && (now - shot.monotonicNs) as real / 1000000.0 > maxAgeMs.value
  }

  /** read_latest: the buffer afterwards and the packet, if any. */
  function Read(cameraId: string, b: Latest, after: nat, maxAgeMs: Option<real>, now: int)
    : (Latest, Option<FramePacket>)
  {
    if b.sequence <= after then (b, None)
    else if TooOld(b.shot, maxAgeMs, now) then (b.(stale := b.stale + 1, consumed := b.sequence), None)
    else (b.(consumed := b.sequence), Some(FramePacket(cameraId, b.sequence, b.shot)))
  }

  /** The newest frame, while nobody has taken it. */
  function Pending(b: Latest): nat {
    if b.sequence > b.consumed then 1 else 0
  }

  /** Every published frame was delivered, overwritten, found stale, or is still pending. */
  predicate Balanced(b: Latest, delivered: nat) {
    b.consumed <= b.sequence && b.sequence == delivered + b.dropped + b.stale + Pending(b)
  }

  lemma PublishBalances(b: Latest, delivered: nat, shot: Shot)
    requires Balanced(b, delivered)
    ensures Balanced(Published(b, shot), delivered) && Pending(Published(b, shot)) == 1
  {
  }

  /** A read keeps the account straight exactly when it does not ask for a frame that has
      already been taken. */
  lemma ReadBalances(cameraId: string, b: Latest, delivered: nat, after: nat, maxAgeMs: Option<real>, now: int)
    requires Balanced(b, delivered)
    ensures var (next, packet) := Read(cameraId, b, after, maxAgeMs, now);
            Balanced(next, delivered + if packet.Some? then 1 else 0)
            <==> (b.sequence > after ==> b.sequence > b.consumed)
  {
  }

  /** A frame published is the one read next, under the next number, unless it is older than the
      limit or its number has been seen; and it is read once. */
  lemma PublishThenRead(cameraId: string, b: Latest, shot: Shot, after: nat, maxAgeMs: Option<real>, now: int)
    ensures var (next, packet) := Read(cameraId, Published(b, shot), after, maxAgeMs, now);
            var inTime := maxAgeMs.None? || (now - shot.monotonicNs) as real <= maxAgeMs.value * 1000000.0;
            && (packet == if after <= b.sequence && inTime then Some(FramePacket(cameraId, b.sequence + 1, shot))
                          else None)
            && next.stale == b.stale + (if after <= b.sequence && !inTime then 1 else 0)
            && next.dropped == b.dropped + Pending(b)
            && Read(cameraId, next, b.sequence + 1, maxAgeMs, now) == (next, None)
  {
  }

  function OrNow(given: Option<int>, now: int): int {
    if given.Some? && given.value != 0 then given.value else now
  }

  class LatestFrameBuffer {
    const cameraId: string
    const limits: Limits
    const data: array<byte>
    var sequence: nat
    var consumed: nat
    var unixNs: int
    var monotonicNs: int
    var height: nat
    var width: nat
    var dropped: nat
    var stale: nat
    ghost var published: seq<Shot>

    ghost predicate Valid()
      reads this, data
    {
      && data.Length == Capacity(limits)
      && Fits(limits, height, width) && FrameBytes(height, width) <= data.Length
      && |published| == sequence && consumed <= sequence
      && (sequence > 0 ==> View().shot == published[sequence - 1])
    }

    ghost function View(): Latest
      reads this, data
      requires FrameBytes(height, width) <= data.Length
    {
      Latest(sequence, consumed, dropped, stale,
             Shot(Frame(height, width, data[..FrameBytes(height, width)]), unixNs, monotonicNs))
    }

    constructor (cameraId: string, maxWidth: nat, maxHeight: nat)
      requires maxWidth > 0 && maxHeight > 0
      ensures Valid() && fresh(data) && published == [] && limits == Limits(maxWidth, maxHeight)
      ensures this.cameraId == cameraId
      ensures View() == Latest(0, 0, 0, 0, Shot(Frame(0, 0, []), 0, 0))
    {
      this.cameraId := cameraId;
      limits := Limits(maxWidth, maxHeight);
      data := new byte[Capacity(Limits(maxWidth, maxHeight))](_ => 0);
      sequence, consumed, dropped, stale := 0, 0, 0, 0;
      unixNs, monotonicNs, height, width := 0, 0, 0, 0;
      published := [];
    }

    /** None stands for the error raised when the frame exceeds the buffer. */
    method Publish(frame: Frame, givenUnix: Option<int>, givenMonotonic: Option<int>, unixNow: int, now: int)
      returns (number: Option<nat>)
      requires Valid() && IsImage(frame)
      modifies this, data
      ensures Valid()
      ensures number == if Fits(limits, frame.height, frame.width) then Some(old(sequence) + 1) else None
      ensures number == None ==> View() == old(View()) && published == old(published)
      ensures number.Some? ==>
                var shot := Shot(frame, OrNow(givenUnix, unixNow), OrNow(givenMonotonic, now));
                View() == Published(old(View()), shot) && published == old(published) + [shot]
    {
      if frame.width > limits.maxWidth || frame.height > limits.maxHeight {
        return None;
      }
      FitsWithinCapacity(limits, frame.height, frame.width);
      if sequence > consumed {
        dropped := dropped + 1;
      }
      forall k | 0 <= k < |frame.pixels| {
        data[k] := frame.pixels[k];
      }
      assert data[..|frame.pixels|] == frame.pixels;
      height, width := frame.height, frame.width;
      unixNs, monotonicNs := OrNow(givenUnix, unixNow), OrNow(givenMonotonic, now);
      sequence := sequence + 1;
      published := published + [Shot(frame, unixNs, monotonicNs)];
      return Some(sequence);
    }

    /** What is delivered is the newest frame published, bit by bit. */
    method ReadLatest(after: nat, maxAgeMs: Option<real>, now: int) returns (packet: Option<FramePacket>)
      requires Valid()
      modifies this`consumed, this`stale
      ensures Valid()
      ensures (View(), packet) == Read(cameraId, old(View()), after, maxAgeMs, now)
      ensures packet.Some? ==> packet.value.frameId == |published| && packet.value.shot == published[|published| - 1]
    {
      if sequence == 0 || sequence <= after {
        return None;
      }
      if maxAgeMs.Some? && (now - monotonicNs) as real / 1000000.0 > maxAgeMs.value {
        stale := stale + 1;
        consumed := sequence;
        return None;
      }
      var frame := Frame(height, width, data[..FrameBytes(height, width)]);
      consumed := sequence;
      return Some(FramePacket(cameraId, sequence, Shot(frame, unixNs, monotonicNs)));
    }
  }
}
