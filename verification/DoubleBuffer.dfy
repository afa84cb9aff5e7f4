/** The capture process (P1) and the inference process (P2) of one camera, interleaved.

    Every action is one access to the shared segments by one process: reading a flag, writing
    a dimension, copying one byte. The only accesses taken as indivisible are P2's storing of
    a result with its sequence number and P1's reading of both. */
module DoubleBuffer {
  import opened Options
  import opened FrameSlots

  /** A stored result. `source` records the image the detections were computed from; the
      program stores only the objects. `parses` is false for text that P1 cannot decode. */
  datatype Result = Result(parses: bool, source: Frame, objects: string)

  /** An image P1 drew on and the result it drew. */
  datatype Overlay = Overlay(canvas: Frame, result: Result)

  /** Where P1 is inside _handle_frame. */
  datatype Capture =
    | Waiting
    | TryFirst(frame: Frame)
    | TrySecond(frame: Frame)
    | PutHeight(slot: Index, frame: Frame)
    | PutWidth(slot: Index, frame: Frame)
    | PutBytes(slot: Index, frame: Frame, done: nat)
    | PutFlag(slot: Index, frame: Frame)
    | PollResult
    | BackHeight(slot: Index, result: Result)
    | BackWidth(slot: Index, result: Result, height: nat)
    | BackBytes(slot: Index, result: Result, height: nat, width: nat, got: seq<byte>)
    | Draw(slot: Index, result: Result, canvas: Option<Frame>)
    | FreeSlot(slot: Index)

  /** Where P2 is: in its constructor's reset, or inside step. */
  datatype Worker =
    | ResetFirst
    | ResetSecond
    | ResetResult
    | ScanFirst
    | ScanSecond
    | Lock(slot: Index)
    | TakeHeight(slot: Index)
    | TakeWidth(slot: Index, height: nat)
    | TakeBytes(slot: Index, height: nat, width: nat, got: seq<byte>)
    | GiveBack(slot: Index)
    | Detect(slot: Index, frame: Frame)
    | Publish(slot: Index, frame: Frame, objects: string)

  /** `shown` and `garbled` record history: every overlay drawn, and how many results were
      published that P1 cannot decode. */
  datatype System = System(
    lim: Limits,
    slots: Slots,
    record: Result,
    resultFor: int,
    resultSeq: nat,
    lastSeq: nat,
    p1: Capture,
    p2: Worker,
    shown: seq<Overlay>,
    garbled: nat)

  /** One access by one process. The camera supplies `frame`, the detector supplies `objects`,
      and `parses` says whether the encoded result survives the result segment. */
  datatype Action = ByP1(frame: Frame) | ByP2(objects: string, parses: bool)

  function ByteAt(mem: seq<byte>, k: nat): byte {
    if k < |mem| then mem[k] else 0
  }

  function PutByte(slots: Slots, i: Index, k: nat, b: byte): Slots {
    if k < |slots[i].mem| then slots[i := slots[i].(mem := slots[i].mem[k := b])] else slots
  }

  /** pick_free found slot i: write_frame starts with its size check, which raises. */
  function StartWrite(s: System, i: Index, f: Frame): System {
    if Fits(s.lim, f.height, f.width) then s.(p1 := PutHeight(i, f)) else s.(p1 := Waiting)
  }

  function NextP1(s: System, camera: Frame): System {
    match s.p1
    case Waiting => s.(p1 := TryFirst(camera))
    case TryFirst(f) =>
      if s.slots[0].state == Free then StartWrite(s, 0, f) else s.(p1 := TrySecond(f))
    case TrySecond(f) =>
      if s.slots[1].state == Free then StartWrite(s, 1, f) else s.(p1 := PollResult)
    case PutHeight(i, f) =>
      s.(slots := s.slots[i := s.slots[i].(height := f.height)], p1 := PutWidth(i, f))
    case PutWidth(i, f) =>
      s.(slots := s.slots[i := s.slots[i].(width := f.width)], p1 := PutBytes(i, f, 0))
    case PutBytes(i, f, k) =>
      if k < |f.pixels| then
        s.(slots := PutByte(s.slots, i, k, f.pixels[k]), p1 := PutBytes(i, f, k + 1))
      else
        s.(p1 := PutFlag(i, f))
    case PutFlag(i, _) => s.(slots := SetState(s.slots, i, Filled), p1 := PollResult)
    case PollResult =>
      if s.resultSeq == s.lastSeq then s.(p1 := Waiting)
      else if s.record.parses && 0 <= s.resultFor < 2 then
        s.(lastSeq := s.resultSeq, p1 := BackHeight(s.resultFor, s.record))
      else
        s.(lastSeq := s.resultSeq, p1 := Waiting)
    case BackHeight(i, r) => s.(p1 := BackWidth(i, r, s.slots[i].height))
    case BackWidth(i, r, h) =>
      var w := s.slots[i].width;
      if h <= 0 || w <= 0 then s.(p1 := Draw(i, r, None)) else s.(p1 := BackBytes(i, r, h, w, []))
    case BackBytes(i, r, h, w, got) =>
      if |got| < FrameBytes(h, w) then
        s.(p1 := BackBytes(i, r, h, w, got + [ByteAt(s.slots[i].mem, |got|)]))
      else
        s.(p1 := Draw(i, r, Some(Frame(h, w, got))))
    case Draw(i, r, canvas) =>
      s.(shown := if canvas.Some? then s.shown + [Overlay(canvas.value, r)] else s.shown,
         p1 := FreeSlot(i))
    case FreeSlot(i) => s.(slots := SetState(s.slots, i, Free), p1 := Waiting)
  }

  function NextP2(s: System, objects: string, parses: bool): System {
    match s.p2
    case ResetFirst => s.(slots := SetState(s.slots, 0, Free), p2 := ResetSecond)
    case ResetSecond => s.(slots := SetState(s.slots, 1, Free), p2 := ResetResult)
    case ResetResult => s.(resultFor := -1, resultSeq := 0, p2 := ScanFirst)
    case ScanFirst =>
      if s.slots[0].state == Filled then s.(p2 := Lock(0)) else s.(p2 := ScanSecond)
    case ScanSecond =>
      if s.slots[1].state == Filled then s.(p2 := Lock(1)) else s.(p2 := ScanFirst)
    case Lock(i) => s.(slots := SetState(s.slots, i, Locked), p2 := TakeHeight(i))
    case TakeHeight(i) => s.(p2 := TakeWidth(i, s.slots[i].height))
    case TakeWidth(i, h) =>
      var w := s.slots[i].width;
      if h <= 0 || w <= 0 then s.(p2 := GiveBack(i)) else s.(p2 := TakeBytes(i, h, w, []))
    case TakeBytes(i, h, w, got) =>
      if |got| < FrameBytes(h, w) then
        s.(p2 := TakeBytes(i, h, w, got + [ByteAt(s.slots[i].mem, |got|)]))
      else
        s.(p2 := Detect(i, Frame(h, w, got)))
    case GiveBack(i) => s.(slots := SetState(s.slots, i, Free), p2 := ScanFirst)
    case Detect(i, f) => s.(p2 := Publish(i, f, objects))
    case Publish(i, f, found) =>
      s.(record := Result(parses, f, found),
         resultFor := i,
         resultSeq := s.resultSeq + 1,
         garbled := if parses then s.garbled else s.garbled + 1,
         p2 := ScanFirst)
  }

  function Next(s: System, a: Action): System {
    match a
    case ByP1(camera) => NextP1(s, camera)
    case ByP2(objects, parses) => NextP2(s, objects, parses)
  }

  function Run(s: System, actions: seq<Action>): System
    decreases |actions|
  {
    if actions == [] then s else Next(Run(s, actions[..|actions| - 1]), actions[|actions| - 1])
  }

  /** The camera hands over proper images. */
  predicate Sensible(a: Action) {
    a.ByP1? ==> IsImage(a.frame)
  }

  /** P1 has just created the segments; P2's constructor has yet to run its own reset. */
  predicate Initial(s: System) {
    && ValidSlots(s.lim, s.slots)
    && s.slots[0].state == Free && s.slots[1].state == Free
    && s.resultSeq == 0 && s.lastSeq == 0
    && s.p1 == Waiting && s.p2 == ResetFirst
    && s.shown == [] && s.garbled == 0
  }

  // ----- who owns a slot -----

  predicate P1Writes(s: System, i: Index) {
    (s.p1.PutHeight? || s.p1.PutWidth? || s.p1.PutBytes? || s.p1.PutFlag?) && s.p1.slot == i
  }

  /** P1 has taken the result for slot i and has not yet released it. */
  predicate P1Holds(s: System, i: Index) {
    && (s.p1.BackHeight? || s.p1.BackWidth? || s.p1.BackBytes? || s.p1.Draw? || s.p1.FreeSlot?)
    && s.p1.slot == i
  }

  /** P2 has locked slot i and has not yet published its result or given it back. */
  predicate P2Holds(s: System, i: Index) {
    && (s.p2.TakeHeight? || s.p2.TakeWidth? || s.p2.TakeBytes? || s.p2.GiveBack? || s.p2.Detect?
        || s.p2.Publish?)
    && s.p2.slot == i
  }

  predicate Resetting(s: System) {
    s.p2.ResetFirst? || s.p2.ResetSecond? || s.p2.ResetResult?
  }

  predicate Unread(s: System, i: Index) {
    s.resultSeq != s.lastSeq && s.resultFor == i
  }

  /** Locked, with nobody left who will ever free it. */
  predicate Stranded(s: System, i: Index) {
    s.slots[i].state == Locked && !P2Holds(s, i) && !P1Holds(s, i) && !Unread(s, i)
  }

  // ----- the invariant -----

  predicate P1Safe(s: System) {
    match s.p1
    case Waiting => true
    case TryFirst(f) => IsImage(f)
    case TrySecond(f) => IsImage(f)
    case PutHeight(i, f) =>
      s.slots[i].state == Free && IsImage(f) && Fits(s.lim, f.height, f.width)
    case PutWidth(i, f) =>
      && s.slots[i].state == Free && IsImage(f) && Fits(s.lim, f.height, f.width)
      && s.slots[i].height == f.height
    case PutBytes(i, f, k) =>
      && s.slots[i].state == Free && IsImage(f) && Fits(s.lim, f.height, f.width)
      && s.slots[i].height == f.height && s.slots[i].width == f.width
      && k <= |f.pixels| <= |s.slots[i].mem| && s.slots[i].mem[..k] == f.pixels[..k]
    case PutFlag(i, f) =>
      && s.slots[i].state == Free && ValidSlot(s.lim, s.slots[i]) && Content(s.slots[i]) == f
    case PollResult => true
    case BackHeight(i, r) => Held(s, i, r)
    case BackWidth(i, r, h) => Held(s, i, r) && h == s.slots[i].height
    case BackBytes(i, r, h, w, got) =>
      && Held(s, i, r) && h == s.slots[i].height && w == s.slots[i].width
      && |got| <= FrameBytes(h, w) && got == s.slots[i].mem[..|got|]
    case Draw(i, r, canvas) => Held(s, i, r) && canvas == Some(r.source)
    case FreeSlot(i) => s.slots[i].state == Locked && !P2Holds(s, i)
  }

  /** The slot P1 is reading back still holds the image its result was computed from. */
  predicate Held(s: System, i: Index, r: Result) {
    && s.slots[i].state == Locked && !P2Holds(s, i)
    && ValidSlot(s.lim, s.slots[i]) && ReadFrame(s.slots[i]) == Some(r.source)
  }

  predicate P2Safe(s: System) {
    match s.p2
    case ScanFirst => true
    case ScanSecond => true
    case Lock(i) => s.slots[i].state == Filled
    case TakeHeight(i) => s.slots[i].state == Locked
    case TakeWidth(i, h) => s.slots[i].state == Locked && h == s.slots[i].height
    case TakeBytes(i, h, w, got) =>
      && s.slots[i].state == Locked && h == s.slots[i].height > 0 && w == s.slots[i].width > 0
      && |got| <= FrameBytes(h, w) <= |s.slots[i].mem| && got == s.slots[i].mem[..|got|]
    case GiveBack(i) => s.slots[i].state == Locked
    case Detect(i, f) => Taken(s, i, f)
    case Publish(i, f, _) => Taken(s, i, f)
    case _ =>
      && s.slots[0].state != Locked && s.slots[1].state != Locked
      && s.resultSeq == s.lastSeq == 0
  }

  predicate Taken(s: System, i: Index, f: Frame) {
    s.slots[i].state == Locked && ValidSlot(s.lim, s.slots[i]) && ReadFrame(s.slots[i]) == Some(f)
  }

  /** An unread result belongs to a locked slot that nobody else holds and that still contains
      the image the result was computed from. */
  predicate ResultSafe(s: System) {
    && s.lastSeq <= s.resultSeq
    && (s.resultSeq != s.lastSeq ==>
          && 0 <= s.resultFor < 2
          && !P1Holds(s, s.resultFor)
          && Held(s, s.resultFor, s.record))
  }

  predicate OverlaysExact(s: System) {
    forall o <- s.shown :: o.canvas == o.result.source
  }

  predicate AtMostOneStranded(s: System) {
    !(Stranded(s, 0) && Stranded(s, 1))
  }

  /** Some slot can still complete its cycle, and no unread result is about to be dropped. */
  predicate Alive(s: System) {
    AtMostOneStranded(s) && (s.resultSeq != s.lastSeq ==> s.record.parses)
  }

  predicate Inv(s: System) {
    && ValidSlots(s.lim, s.slots)
    && P1Safe(s) && P2Safe(s) && ResultSafe(s)
    && OverlaysExact(s) && (s.garbled == 0 ==> Alive(s))
  }

  // ----- every access keeps the invariant -----

  /** A step that only moves P1's program counter, taking or dropping no slot. */
  lemma P1Moves(s: System, t: System)
    requires Inv(s) && t == s.(p1 := t.p1)
    requires P1Safe(t) && forall i: Index :: P1Holds(t, i) == P1Holds(s, i)
    ensures Inv(t)
  {
    assert forall i: Index :: P2Holds(t, i) == P2Holds(s, i) && Unread(t, i) == Unread(s, i);
    assert forall i: Index :: Stranded(t, i) == Stranded(s, i);
  }

  lemma P2Moves(s: System, t: System)
    requires Inv(s) && t == s.(p2 := t.p2)
    requires P2Safe(t) && forall i: Index :: P2Holds(t, i) == P2Holds(s, i)
    ensures Inv(t)
  {
    assert forall i: Index :: P1Holds(t, i) == P1Holds(s, i) && Unread(t, i) == Unread(s, i);
    assert forall i: Index :: Stranded(t, i) == Stranded(s, i);
  }

  /** A step of P1 that changes one slot which stays FREE, or FREE to FILLED. */
  lemma P1Fills(s: System, t: System, i: Index)
    requires Inv(s) && t == s.(p1 := t.p1, slots := t.slots)
    requires t.slots[1 - i] == s.slots[1 - i] && ValidSlot(t.lim, t.slots[i])
    requires s.slots[i].state == Free && t.slots[i].state != Locked
    requires P1Safe(t) && forall j: Index :: !P1Holds(s, j) && !P1Holds(t, j)
    ensures Inv(t)
  {
    assert forall j: Index :: P2Holds(t, j) == P2Holds(s, j) && Unread(t, j) == Unread(s, j);
    assert forall j: Index :: Stranded(t, j) == Stranded(s, j);
  }

  lemma P1TryKeepsInv(s: System, camera: Frame)
    requires Inv(s) && IsImage(camera)
    requires s.p1.Waiting? || s.p1.TryFirst? || s.p1.TrySecond? || (s.p1.PutBytes? && |s.p1.frame.pixels| <= s.p1.done)
    ensures Inv(NextP1(s, camera))
  {
    var t := NextP1(s, camera);
    P1Moves(s, t);
  }

  lemma P1PutKeepsInv(s: System, camera: Frame)
    requires Inv(s)
    requires s.p1.PutHeight? || s.p1.PutWidth? || s.p1.PutFlag? || (s.p1.PutBytes? && s.p1.done < |s.p1.frame.pixels|)
    ensures Inv(NextP1(s, camera))
  {
    var t := NextP1(s, camera);
    FitsWithinCapacity(s.lim, t.slots[s.p1.slot].height, t.slots[s.p1.slot].width);
    P1Fills(s, t, s.p1.slot);
  }

  lemma P1PollKeepsInv(s: System, camera: Frame)
    requires Inv(s) && s.p1.PollResult?
    ensures Inv(NextP1(s, camera))
  {
  }

  lemma P1BackKeepsInv(s: System, camera: Frame)
    requires Inv(s) && (s.p1.BackHeight? || s.p1.BackWidth? || s.p1.BackBytes?)
    ensures Inv(NextP1(s, camera))
  {
    P1Moves(s, NextP1(s, camera));
  }

  lemma P1DrawKeepsInv(s: System, camera: Frame)
    requires Inv(s) && s.p1.Draw?
    ensures Inv(NextP1(s, camera))
  {
    var t := NextP1(s, camera);
    P1Moves(s, t.(shown := s.shown));
  }

  lemma P1FreeKeepsInv(s: System, camera: Frame)
    requires Inv(s) && s.p1.FreeSlot?
    ensures Inv(NextP1(s, camera))
  {
  }

  lemma P2ResetKeepsInv(s: System, objects: string, parses: bool)
    requires Inv(s) && Resetting(s)
    ensures Inv(NextP2(s, objects, parses))
  {
  }

  lemma P2MoveKeepsInv(s: System, objects: string, parses: bool)
    requires Inv(s)
    requires s.p2.ScanFirst? || s.p2.ScanSecond? || s.p2.TakeHeight? || s.p2.TakeWidth? || s.p2.TakeBytes?
             || s.p2.Detect?
    ensures Inv(NextP2(s, objects, parses))
  {
    P2Moves(s, NextP2(s, objects, parses));
  }

  lemma P2LockKeepsInv(s: System, objects: string, parses: bool)
    requires Inv(s) && s.p2.Lock?
    ensures Inv(NextP2(s, objects, parses))
  {
  }

  lemma P2GiveBackKeepsInv(s: System, objects: string, parses: bool)
    requires Inv(s) && s.p2.GiveBack?
    ensures Inv(NextP2(s, objects, parses))
  {
  }

  lemma P2PublishKeepsInv(s: System, objects: string, parses: bool)
    requires Inv(s) && s.p2.Publish?
    ensures Inv(NextP2(s, objects, parses))
  {
  }

  lemma NextKeepsInv(s: System, a: Action)
    requires Inv(s) && Sensible(a)
    ensures Inv(Next(s, a))
  {
    match a {
      case ByP1(camera) =>
        match s.p1 {
          case PollResult => P1PollKeepsInv(s, camera);
          case Draw(_, _, _) => P1DrawKeepsInv(s, camera);
          case FreeSlot(_) => P1FreeKeepsInv(s, camera);
          case PutHeight(_, _) => P1PutKeepsInv(s, camera);
          case PutWidth(_, _) => P1PutKeepsInv(s, camera);
          case PutFlag(_, _) => P1PutKeepsInv(s, camera);
          case PutBytes(_, f, k) =>
            if k < |f.pixels| { P1PutKeepsInv(s, camera); } else { P1TryKeepsInv(s, camera); }
          case BackHeight(_, _) => P1BackKeepsInv(s, camera);
          case BackWidth(_, _, _) => P1BackKeepsInv(s, camera);
          case BackBytes(_, _, _, _, _) => P1BackKeepsInv(s, camera);
          case _ => P1TryKeepsInv(s, camera);
        }
      case ByP2(objects, parses) =>
        match s.p2 {
          case Lock(_) => P2LockKeepsInv(s, objects, parses);
          case GiveBack(_) => P2GiveBackKeepsInv(s, objects, parses);
          case Publish(_, _, _) => P2PublishKeepsInv(s, objects, parses);
          case ResetFirst => P2ResetKeepsInv(s, objects, parses);
          case ResetSecond => P2ResetKeepsInv(s, objects, parses);
          case ResetResult => P2ResetKeepsInv(s, objects, parses);
          case _ => P2MoveKeepsInv(s, objects, parses);
        }
    }
  }
}
