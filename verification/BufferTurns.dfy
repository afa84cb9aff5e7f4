/** One uninterrupted call of CaptureDisplay._handle_frame and of InferenceWorker.step, as
    functions on the contents of the shared segments. */
module BufferTurns {
  import opened Options
  import opened FrameSlots

  /** The contents of the four shared segments. */
  datatype Memory = Memory(slots: Slots, text: seq<byte>, resultFor: int, resultSeq: nat)

  /** What one _handle_frame call sends on. */
  datatype Shown<T> =
    | Bare(frame: Frame)
    | Annotated(canvas: Frame, payload: T)
    | Nothing
    | Raised

  predicate ValidMemory(lim: Limits, m: Memory) {
    ValidSlots(lim, m.slots) && |m.text| == RESULT_SIZE
  }

  function Decoded<T>(text: seq<byte>, decode: seq<byte> -> Option<T>): Option<T> {
    match GetText(text)
    case None => None
    case Some(t) => decode(t)
  }

  /** _handle_frame after its write. */
  function Poll<T>(m: Memory, last: nat, f: Frame, decode: seq<byte> -> Option<T>)
    : (r: (Memory, nat, Shown<T>))
    requires FrameBytes(m.slots[0].height, m.slots[0].width) <= |m.slots[0].mem|
    requires FrameBytes(m.slots[1].height, m.slots[1].width) <= |m.slots[1].mem|
  {
    if m.resultSeq == last then (m, last, Bare(f))
    else
      match Decoded(m.text, decode)
      case None => (m, m.resultSeq, Bare(f))
      case Some(payload) =>
        if 0 <= m.resultFor < 2 then
          var after := m.(slots := SetState(m.slots, m.resultFor, Free));
          match ReadFrame(m.slots[m.resultFor])
          case Some(canvas) => (after, m.resultSeq, Annotated(canvas, payload))
          case None => (after, m.resultSeq, Nothing)
        else (m, m.resultSeq, Nothing)
  }

  function HandleFrame<T>(lim: Limits, m: Memory, last: nat, f: Frame, decode: seq<byte> -> Option<T>)
    : (r: (Memory, nat, Shown<T>))
    requires ValidMemory(lim, m) && IsImage(f)
    ensures ValidMemory(lim, r.0)
  {
    match PickFree(m.slots)
    case None => Poll(m, last, f, decode)
    case Some(i) =>
      if !Fits(lim, f.height, f.width) then (m, last, Raised)
      else
        WriteThenRead(lim, m.slots, i, f);
        Poll(m.(slots := WriteFrame(m.slots, i, f)), last, f, decode)
  }

  /** One call of step. `detect` returns None when the detector raises. */
  function Step<D>(lim: Limits, m: Memory, detect: Frame -> Option<seq<D>>, encode: seq<D> -> seq<byte>)
    : (r: (Memory, bool))
    requires ValidMemory(lim, m)
    ensures ValidMemory(lim, r.0)
  {
    match FindFilled(m.slots)
    case None => (m, false)
    case Some(i) =>
      match ReadFrame(m.slots[i])
      case None => (m.(slots := SetState(m.slots, i, Free)), false)
      case Some(f) =>
        (m.(slots := SetState(m.slots, i, Locked), text := PutText(m.text, encode(Found(detect(f)))),
            resultFor := i, resultSeq := m.resultSeq + 1), true)
  }

  function Found<D>(detections: Option<seq<D>>): seq<D> {
    match detections
    case Some(ds) => ds
    case None => []
  }

  /** step publishes what the segment keeps of the encoding: all of it exactly when it survives. */
  lemma StepPublishes<D>(lim: Limits, m: Memory, i: Index, f: Frame, detect: Frame -> Option<seq<D>>,
                         encode: seq<D> -> seq<byte>)
    requires ValidMemory(lim, m)
    requires FindFilled(m.slots) == Some(i) && ReadFrame(m.slots[i]) == Some(f)
    ensures var (after, inferred) := Step(lim, m, detect, encode);
            var text := encode(Found(detect(f)));
            && inferred && after.slots == SetState(m.slots, i, Locked)
            && after.resultFor == i && after.resultSeq == m.resultSeq + 1
            && GetText(after.text) == Kept(text)
            && (GetText(after.text) == Some(text) <==> Survives(text))
  {
    TextRoundTrip(m.text, encode(Found(detect(f))));
    KeptIsRead(m.text, encode(Found(detect(f))));
  }

  /** P1 understands this text, and nothing that was cut short. */
  ghost predicate Understands<T(!new)>(decode: seq<byte> -> Option<T>, text: seq<byte>, payload: T) {
    decode(text) == Some(payload) && forall cut :: cut < text ==> decode(cut) == None
  }

  lemma UnderstoodIfKept<T(!new)>(mem: seq<byte>, text: seq<byte>, decode: seq<byte> -> Option<T>, payload: T)
    requires |mem| == RESULT_SIZE && Understands(decode, text, payload)
    ensures Decoded(PutText(mem, text), decode) == if Survives(text) then Some(payload) else None
  {
    TextRoundTrip(mem, text);
  }

  /** A full exchange: a frame is written to the free slot i, inferred on, and polled for while the
      next one is written. If the encoded detections survive the result segment, the preview shows
      them on exactly the image they were made from and slot i is free again; if not, it shows the
      new frame without any, and slot i stays LOCKED. Either way the next frame is in the other
      slot if that was free. */
  lemma ExchangeIsExact<D(!new)>(lim: Limits, m: Memory, last: nat, i: Index, f: Frame, g: Frame,
                                 detect: Frame -> Option<seq<D>>, encode: seq<D> -> seq<byte>,
                                 decode: seq<byte> -> Option<seq<D>>)
    requires ValidMemory(lim, m)
    requires Understands(decode, encode(Found(detect(f))), Found(detect(f)))
    requires PickFree(m.slots) == Some(i) && (i == 1 ==> m.slots[0].state != Filled)
    requires m.resultSeq == last || m.resultFor != i
    requires IsImage(f) && Fits(lim, f.height, f.width) && f.height > 0 && f.width > 0
    requires IsImage(g) && Fits(lim, g.height, g.width)
    ensures var (m1, last1, shown1) := HandleFrame(lim, m, last, f, decode);
            var (m2, inferred) := Step(lim, m1, detect, encode);
            var (m3, last3, shown3) := HandleFrame(lim, m2, last1, g, decode);
            var survives := Survives(encode(Found(detect(f))));
            && (m.resultSeq == last ==> shown1 == Bare(f)) && inferred
            && shown3 == (if survives then Annotated(f, Found(detect(f))) else Bare(g))
            && last3 == m3.resultSeq
            && m3.slots[i].state == (if survives then Free else Locked)
            && (if m1.slots[1 - i].state == Free then
                  m3.slots[1 - i].state == Filled && Content(m3.slots[1 - i]) == g
                else
                  m3.slots[1 - i] == m1.slots[1 - i])
  {
    WriteThenRead(lim, m.slots, i, f);
    var m1 := HandleFrame(lim, m, last, f, decode).0;
    assert m1.slots[i] == WriteFrame(m.slots, i, f)[i];
    StepPublishes(lim, m1, i, f, detect, encode);
    var m2 := Step(lim, m1, detect, encode).0;
    UnderstoodIfKept(m1.text, encode(Found(detect(f))), decode, Found(detect(f)));
    WriteThenRead(lim, m2.slots, 1 - i, g);
  }
}
