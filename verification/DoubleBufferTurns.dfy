/** A whole turn of one process without interference: the single accesses of the interleaved
    protocol add up to pick_free, write_frame, find_filled and read_frame as FrameSlots
    defines them. Runs then show how slots get stranded, and how one can be passed over. */
module DoubleBufferTurns {
  import opened Options
  import opened FrameSlots
  import opened DoubleBuffer
  import opened DoubleBufferRuns

  ghost predicate Reaches(s: System, t: System) {
    exists actions :: AllSensible(actions) && Run(s, actions) == t
  }

  lemma {:induction false} RunAppends(s: System, first: seq<Action>, second: seq<Action>)
    ensures Run(s, first + second) == Run(Run(s, first), second)
    decreases |second|
  {
    if second == [] {
      assert first + second == first;
    } else {
      RunAppends(s, first, second[..|second| - 1]);
      assert (first + second)[..|first + second| - 1] == first + second[..|second| - 1];
    }
  }

  lemma ReachesOnwards(s: System, t: System, u: System)
    requires Reaches(s, t) && Reaches(t, u)
    ensures Reaches(s, u)
  {
    var first :| AllSensible(first) && Run(s, first) == t;
    var second :| AllSensible(second) && Run(t, second) == u;
    RunAppends(s, first, second);
    assert AllSensible(first + second);
  }

  function P1Alone(s: System, camera: Frame, n: nat): System
    decreases n
  {
    if n == 0 then s else P1Alone(NextP1(s, camera), camera, n - 1)
  }

  function P2Alone(s: System, objects: string, parses: bool, n: nat): System
    decreases n
  {
    if n == 0 then s else P2Alone(NextP2(s, objects, parses), objects, parses, n - 1)
  }

  lemma OneAccess(s: System, a: Action)
    requires Sensible(a)
    ensures Reaches(s, Next(s, a))
  {
    assert Run(s, []) == s;
    assert [a][..0] == [];
    assert Run(s, [a]) == Next(s, a);
  }

  lemma NoAccess(s: System)
    ensures Reaches(s, s)
  {
    assert Run(s, []) == s;
  }

  lemma {:induction false} ReachesP1Alone(s: System, camera: Frame, n: nat)
    requires IsImage(camera)
    ensures Reaches(s, P1Alone(s, camera, n))
    decreases n
  {
    if n == 0 {
      NoAccess(s);
    } else {
      OneAccess(s, ByP1(camera));
      ReachesP1Alone(NextP1(s, camera), camera, n - 1);
      ReachesOnwards(s, NextP1(s, camera), P1Alone(s, camera, n));
    }
  }

  lemma {:induction false} ReachesP2Alone(s: System, objects: string, parses: bool, n: nat)
    ensures Reaches(s, P2Alone(s, objects, parses, n))
    decreases n
  {
    if n == 0 {
      NoAccess(s);
    } else {
      OneAccess(s, ByP2(objects, parses));
      ReachesP2Alone(NextP2(s, objects, parses), objects, parses, n - 1);
      ReachesOnwards(s, NextP2(s, objects, parses), P2Alone(s, objects, parses, n));
    }
  }

  // ----- write_frame and read_frame, byte by byte -----

  lemma {:induction false} BytesAreCopied(s: System, camera: Frame)
    requires s.p1.PutBytes?
    requires s.p1.done <= |s.p1.frame.pixels| <= |s.slots[s.p1.slot].mem|
    requires s.slots[s.p1.slot].mem[..s.p1.done] == s.p1.frame.pixels[..s.p1.done]
    ensures var (i, f) := (s.p1.slot, s.p1.frame);
            var mem := f.pixels + s.slots[i].mem[|f.pixels|..];
            P1Alone(s, camera, |f.pixels| - s.p1.done + 1)
            == s.(slots := s.slots[i := s.slots[i].(mem := mem)], p1 := PutFlag(i, f))
    decreases |s.p1.frame.pixels| - s.p1.done
  {
    var (i, f, k) := (s.p1.slot, s.p1.frame, s.p1.done);
    var mem := f.pixels + s.slots[i].mem[|f.pixels|..];
    if k == |f.pixels| {
      assert s.slots[i].mem == mem;
      assert s.slots[i := s.slots[i].(mem := mem)] == s.slots;
      assert P1Alone(s, camera, 1) == P1Alone(NextP1(s, camera), camera, 0);
    } else {
      var t := NextP1(s, camera);
      assert t.slots[i].mem[..k + 1] == f.pixels[..k + 1];
      BytesAreCopied(t, camera);
      assert t.slots[i].mem[|f.pixels|..] == s.slots[i].mem[|f.pixels|..];
      assert t.slots[i := t.slots[i].(mem := mem)] == s.slots[i := s.slots[i].(mem := mem)];
    }
  }

  lemma WriteFrameAlone(s: System, camera: Frame)
    requires s.p1.PutHeight? && |s.p1.frame.pixels| <= |s.slots[s.p1.slot].mem|
    ensures var (i, f) := (s.p1.slot, s.p1.frame);
            P1Alone(s, camera, |f.pixels| + 4)
            == s.(slots := WriteFrame(s.slots, i, f), p1 := PollResult)
  {
    var (i, f) := (s.p1.slot, s.p1.frame);
    var n := |f.pixels|;
    var a := NextP1(s, camera);
    var b := NextP1(a, camera);
    assert P1Alone(s, camera, n + 4) == P1Alone(a, camera, n + 3) == P1Alone(b, camera, n + 2);
    BytesAreCopied(b, camera);
    var c := P1Alone(b, camera, n + 1);
    P1AloneLast(b, camera, n + 1);
    assert NextP1(c, camera).slots == WriteFrame(s.slots, i, f);
  }

  lemma {:induction false} P1AloneLast(s: System, camera: Frame, n: nat)
    ensures P1Alone(s, camera, n + 1) == NextP1(P1Alone(s, camera, n), camera)
    decreases n
  {
    if n > 0 {
      P1AloneLast(NextP1(s, camera), camera, n - 1);
    }
  }

  lemma {:induction false} BytesAreReadBack(s: System, camera: Frame)
    requires s.p1.BackBytes?
    requires |s.p1.got| <= FrameBytes(s.p1.height, s.p1.width) <= |s.slots[s.p1.slot].mem|
    requires s.p1.got == s.slots[s.p1.slot].mem[..|s.p1.got|]
    ensures var n := FrameBytes(s.p1.height, s.p1.width);
            var canvas := Frame(s.p1.height, s.p1.width, s.slots[s.p1.slot].mem[..n]);
            P1Alone(s, camera, n - |s.p1.got| + 1)
            == s.(p1 := Draw(s.p1.slot, s.p1.result, Some(canvas)))
    decreases FrameBytes(s.p1.height, s.p1.width) - |s.p1.got|
  {
    var t := NextP1(s, camera);
    if |s.p1.got| == FrameBytes(s.p1.height, s.p1.width) {
      assert P1Alone(s, camera, 1) == P1Alone(t, camera, 0);
    } else {
      BytesAreReadBack(t, camera);
    }
  }

  lemma {:induction false} BytesAreTaken(s: System, objects: string, parses: bool)
    requires s.p2.TakeBytes?
    requires |s.p2.got| <= FrameBytes(s.p2.height, s.p2.width) <= |s.slots[s.p2.slot].mem|
    requires s.p2.got == s.slots[s.p2.slot].mem[..|s.p2.got|]
    ensures var n := FrameBytes(s.p2.height, s.p2.width);
            var frame := Frame(s.p2.height, s.p2.width, s.slots[s.p2.slot].mem[..n]);
            P2Alone(s, objects, parses, n - |s.p2.got| + 1) == s.(p2 := Detect(s.p2.slot, frame))
    decreases FrameBytes(s.p2.height, s.p2.width) - |s.p2.got|
  {
    var t := NextP2(s, objects, parses);
    if |s.p2.got| == FrameBytes(s.p2.height, s.p2.width) {
      assert P2Alone(s, objects, parses, 1) == P2Alone(t, objects, parses, 0);
    } else {
      BytesAreTaken(t, objects, parses);
    }
  }

  // ----- whole turns -----

  /** _handle_frame up to its poll: the frame goes to a free slot, or nowhere. */
  function CaptureTurn(s: System, f: Frame): System
    requires ValidSlots(s.lim, s.slots) && IsImage(f) && Fits(s.lim, f.height, f.width)
  {
    FitsWithinCapacity(s.lim, f.height, f.width);
    match PickFree(s.slots)
    case Some(i) => s.(slots := WriteFrame(s.slots, i, f), p1 := PollResult)
    case None => s.(p1 := PollResult)
  }

  lemma CaptureAlone(s: System, f: Frame)
    requires s.p1 == Waiting && ValidSlots(s.lim, s.slots) && IsImage(f) && Fits(s.lim, f.height, f.width)
    ensures Reaches(s, CaptureTurn(s, f))
  {
    FitsWithinCapacity(s.lim, f.height, f.width);
    var a := NextP1(s, f);
    var b := NextP1(a, f);
    OneAccess(s, ByP1(f));
    OneAccess(a, ByP1(f));
    ReachesOnwards(s, a, b);
    if s.slots[0].state == Free {
      FillsAlone(b, f);
      ReachesOnwards(s, b, CaptureTurn(s, f));
    } else {
      var c := NextP1(b, f);
      OneAccess(b, ByP1(f));
      ReachesOnwards(s, b, c);
      if s.slots[1].state == Free {
        FillsAlone(c, f);
        ReachesOnwards(s, c, CaptureTurn(s, f));
      }
    }
  }

  lemma FillsAlone(s: System, camera: Frame)
    requires s.p1.PutHeight? && |s.p1.frame.pixels| <= |s.slots[s.p1.slot].mem| && IsImage(camera)
    ensures Reaches(s, s.(slots := WriteFrame(s.slots, s.p1.slot, s.p1.frame), p1 := PollResult))
  {
    WriteFrameAlone(s, camera);
    ReachesP1Alone(s, camera, |s.p1.frame.pixels| + 4);
  }

  /** step on a filled slot: lock, read, detect, publish. */
  function InferTurn(s: System, i: Index, objects: string, parses: bool): System
    requires ValidSlots(s.lim, s.slots)
  {
    s.(slots := SetState(s.slots, i, Locked),
       record := Result(parses, Content(s.slots[i]), objects),
       resultFor := i,
       resultSeq := s.resultSeq + 1,
       garbled := if parses then s.garbled else s.garbled + 1)
  }

  /** Slot i, locked, with its dimensions read. */
  function HeaderTaken(s: System, i: Index): System {
    s.(slots := SetState(s.slots, i, Locked), p2 := TakeBytes(i, s.slots[i].height, s.slots[i].width, []))
  }

  lemma HeaderAlone(s: System, objects: string, parses: bool)
    requires s.p2.Lock? && s.slots[s.p2.slot].height > 0 && s.slots[s.p2.slot].width > 0
    ensures Reaches(s, HeaderTaken(s, s.p2.slot))
  {
    var a := NextP2(s, objects, parses);
    var b := NextP2(a, objects, parses);
    assert NextP2(b, objects, parses) == HeaderTaken(s, s.p2.slot);
    assert P2Alone(s, objects, parses, 3) == P2Alone(a, objects, parses, 2)
           == P2Alone(b, objects, parses, 1) == P2Alone(HeaderTaken(s, s.p2.slot), objects, parses, 0);
    ReachesP2Alone(s, objects, parses, 3);
  }

  lemma PixelsTakenAlone(s: System, objects: string, parses: bool)
    requires s.p2.TakeBytes? && s.p2.got == []
    requires FrameBytes(s.p2.height, s.p2.width) <= |s.slots[s.p2.slot].mem|
    ensures var frame := Frame(s.p2.height, s.p2.width, s.slots[s.p2.slot].mem[..FrameBytes(s.p2.height, s.p2.width)]);
            Reaches(s, s.(p2 := Detect(s.p2.slot, frame)))
  {
    BytesAreTaken(s, objects, parses);
    ReachesP2Alone(s, objects, parses, FrameBytes(s.p2.height, s.p2.width) + 1);
  }

  lemma TakesAlone(s: System, objects: string, parses: bool)
    requires s.p2.Lock? && ValidSlots(s.lim, s.slots)
    requires s.slots[s.p2.slot].height > 0 && s.slots[s.p2.slot].width > 0
    ensures var i := s.p2.slot;
            Reaches(s, s.(slots := SetState(s.slots, i, Locked), p2 := Detect(i, Content(s.slots[i]))))
  {
    var (i, slot) := (s.p2.slot, s.slots[s.p2.slot]);
    var c := HeaderTaken(s, i);
    HeaderAlone(s, objects, parses);
    PixelsTakenAlone(c, objects, parses);
    ReachesOnwards(s, c, c.(p2 := Detect(i, Content(slot))));
  }

  lemma PublishesAlone(s: System, objects: string, parses: bool)
    requires s.p2.Detect?
    ensures Reaches(s, s.(record := Result(parses, s.p2.frame, objects), resultFor := s.p2.slot,
                          resultSeq := s.resultSeq + 1,
                          garbled := if parses then s.garbled else s.garbled + 1, p2 := ScanFirst))
  {
    var a := NextP2(s, objects, parses);
    OneAccess(s, ByP2(objects, parses));
    OneAccess(a, ByP2(objects, parses));
    ReachesOnwards(s, a, NextP2(a, objects, parses));
  }

  lemma FindsAlone(s: System, i: Index)
    requires s.p2 == ScanFirst && FindFilled(s.slots) == Some(i)
    ensures Reaches(s, s.(p2 := Lock(i)))
  {
    OneAccess(s, ByP2("", true));
    if i == 1 {
      var a := s.(p2 := ScanSecond);
      OneAccess(a, ByP2("", true));
      ReachesOnwards(s, a, s.(p2 := Lock(1)));
    }
  }

  lemma InferAlone(s: System, i: Index, objects: string, parses: bool)
    requires s.p2 == ScanFirst && ValidSlots(s.lim, s.slots) && FindFilled(s.slots) == Some(i)
    requires s.slots[i].height > 0 && s.slots[i].width > 0
    ensures Reaches(s, InferTurn(s, i, objects, parses))
  {
    var a := s.(p2 := Lock(i));
    var b := s.(slots := SetState(s.slots, i, Locked), p2 := Detect(i, Content(s.slots[i])));
    FindsAlone(s, i);
    TakesAlone(a, objects, parses);
    ReachesOnwards(s, a, b);
    PublishesAlone(b, objects, parses);
    ReachesOnwards(s, b, InferTurn(s, i, objects, parses));
  }

  /** _handle_frame from its poll on, when there is a result it can decode. */
  function DrawTurn(s: System): System
    requires s.p1 == PollResult && Inv(s) && s.resultSeq != s.lastSeq
  {
    s.(lastSeq := s.resultSeq,
       slots := SetState(s.slots, s.resultFor, Free),
       shown := s.shown + [Overlay(s.record.source, s.record)],
       p1 := Waiting)
  }

  lemma DimensionsReadAlone(s: System, camera: Frame)
    requires s.p1.BackHeight? && s.slots[s.p1.slot].height > 0 && s.slots[s.p1.slot].width > 0 && IsImage(camera)
    ensures var (i, slot) := (s.p1.slot, s.slots[s.p1.slot]);
            Reaches(s, s.(p1 := BackBytes(i, s.p1.result, slot.height, slot.width, [])))
  {
    var (i, slot) := (s.p1.slot, s.slots[s.p1.slot]);
    var a := NextP1(s, camera);
    var b := s.(p1 := BackBytes(i, s.p1.result, slot.height, slot.width, []));
    assert NextP1(a, camera) == b;
    assert P1Alone(s, camera, 2) == P1Alone(a, camera, 1) == P1Alone(b, camera, 0);
    ReachesP1Alone(s, camera, 2);
  }

  lemma PixelsReadAlone(s: System, camera: Frame)
    requires s.p1.BackBytes? && s.p1.got == [] && IsImage(camera)
    requires FrameBytes(s.p1.height, s.p1.width) <= |s.slots[s.p1.slot].mem|
    ensures var canvas := Frame(s.p1.height, s.p1.width, s.slots[s.p1.slot].mem[..FrameBytes(s.p1.height, s.p1.width)]);
            Reaches(s, s.(p1 := Draw(s.p1.slot, s.p1.result, Some(canvas))))
  {
    BytesAreReadBack(s, camera);
    ReachesP1Alone(s, camera, FrameBytes(s.p1.height, s.p1.width) + 1);
  }

  lemma ReadsBackAlone(s: System, camera: Frame)
    requires s.p1.BackHeight? && ValidSlots(s.lim, s.slots) && IsImage(camera)
    requires s.slots[s.p1.slot].height > 0 && s.slots[s.p1.slot].width > 0
    ensures var i := s.p1.slot;
            Reaches(s, s.(p1 := Draw(i, s.p1.result, Some(Content(s.slots[i])))))
  {
    var (i, r, slot) := (s.p1.slot, s.p1.result, s.slots[s.p1.slot]);
    var b := s.(p1 := BackBytes(i, r, slot.height, slot.width, []));
    DimensionsReadAlone(s, camera);
    PixelsReadAlone(b, camera);
    ReachesOnwards(s, b, s.(p1 := Draw(i, r, Some(Content(slot)))));
  }

  lemma ShowsAlone(s: System, camera: Frame)
    requires s.p1.Draw? && s.p1.canvas.Some? && IsImage(camera)
    ensures Reaches(s, s.(slots := SetState(s.slots, s.p1.slot, Free),
                          shown := s.shown + [Overlay(s.p1.canvas.value, s.p1.result)], p1 := Waiting))
  {
    var a := NextP1(s, camera);
    OneAccess(s, ByP1(camera));
    OneAccess(a, ByP1(camera));
    ReachesOnwards(s, a, NextP1(a, camera));
  }

  lemma DrawAlone(s: System, camera: Frame)
    requires s.p1 == PollResult && Inv(s) && s.resultSeq != s.lastSeq && s.record.parses && IsImage(camera)
    ensures Reaches(s, DrawTurn(s))
  {
    var i: Index := s.resultFor;
    var a := s.(lastSeq := s.resultSeq, p1 := BackHeight(i, s.record));
    var b := a.(p1 := Draw(i, s.record, Some(s.record.source)));
    assert ReadFrame(s.slots[i]) == Some(s.record.source);
    OneAccess(s, ByP1(camera));
    ReadsBackAlone(a, camera);
    ReachesOnwards(s, a, b);
    ShowsAlone(b, camera);
    ReachesOnwards(s, b, DrawTurn(s));
  }

  // ----- two runs that lose slots -----

  /** P2 has finished its constructor. */
  lemma AfterReset(s: System) returns (t: System)
    requires Initial(s)
    ensures Reaches(s, t) && t == s.(p2 := ScanFirst, resultFor := -1)
  {
    var a := NextP2(s, "", true);
    var b := NextP2(a, "", true);
    t := NextP2(b, "", true);
    OneAccess(s, ByP2("", true));
    OneAccess(a, ByP2("", true));
    OneAccess(b, ByP2("", true));
    ReachesOnwards(s, a, b);
    ReachesOnwards(s, b, t);
    assert SetState(SetState(s.slots, 0, Free), 1, Free) == s.slots;
  }

  /** A poll that brings no result, or one that cannot be decoded, ends the turn. */
  lemma EmptyPoll(s: System, camera: Frame) returns (t: System)
    requires s.p1 == PollResult && IsImage(camera) && (s.resultSeq != s.lastSeq ==> !s.record.parses)
    ensures Reaches(s, t) && t == s.(p1 := Waiting, lastSeq := s.resultSeq)
  {
    t := NextP1(s, camera);
    OneAccess(s, ByP1(camera));
  }

  /** Between turns, with nothing to poll and P2 about to scan. */
  predicate Quiet(s: System) {
    && ValidSlots(s.lim, s.slots)
    && s.p1 == Waiting && s.p2 == ScanFirst && s.resultSeq == s.lastSeq
  }

  predicate Storable(lim: Limits, f: Frame) {
    IsImage(f) && Fits(lim, f.height, f.width) && f.height > 0 && f.width > 0
  }

  /** _handle_frame up to its poll, with its frame stored in slot i. */
  lemma StoresAlone(s: System, i: Index, f: Frame) returns (t: System)
    requires s.p1 == Waiting && ValidSlots(s.lim, s.slots) && Storable(s.lim, f) && PickFree(s.slots) == Some(i)
    ensures Reaches(s, t) && ValidSlots(t.lim, t.slots) && t == s.(slots := t.slots, p1 := PollResult)
    ensures t.slots[i].state == Filled && ReadFrame(t.slots[i]) == Some(f)
    ensures t.slots[1 - i] == s.slots[1 - i]
  {
    WriteThenRead(s.lim, s.slots, i, f);
    t := CaptureTurn(s, f);
    CaptureAlone(s, f);
  }

  /** One call of _handle_frame that stores its frame in slot i and finds no result. */
  lemma CaptureRound(s: System, i: Index, f: Frame) returns (t: System)
    requires Quiet(s) && Storable(s.lim, f) && PickFree(s.slots) == Some(i)
    ensures Reaches(s, t) && Quiet(t) && t.garbled == s.garbled && t.lim == s.lim
    ensures t.shown == s.shown && t.resultSeq == s.resultSeq
    ensures t.slots[i].state == Filled && ReadFrame(t.slots[i]) == Some(f)
    ensures t.slots[1 - i] == s.slots[1 - i]
  {
    var a := StoresAlone(s, i, f);
    t := EmptyPoll(a, f);
    ReachesOnwards(s, a, t);
  }

  /** One call of step on slot i. */
  lemma InferRound(s: System, i: Index, parses: bool) returns (t: System)
    requires s.p2 == ScanFirst && ValidSlots(s.lim, s.slots)
    requires FindFilled(s.slots) == Some(i) && ReadFrame(s.slots[i]).Some?
    ensures Reaches(s, t) && t == InferTurn(s, i, "", parses) && ValidSlots(t.lim, t.slots)
  {
    t := InferTurn(s, i, "", parses);
    InferAlone(s, i, "", parses);
  }

  /** P2 answers both slots before P1 polls; `parses` is about the second result. */
  lemma BothAnswered(s: System, parses: bool) returns (t: System)
    requires s.p2 == ScanFirst && ValidSlots(s.lim, s.slots)
    requires s.resultSeq == s.lastSeq && !P1Holds(s, 0)
    requires s.slots[0].state == Filled && s.slots[1].state == Filled
    requires ReadFrame(s.slots[0]).Some? && ReadFrame(s.slots[1]).Some?
    ensures Reaches(s, t) && Stranded(t, 0) && t.slots[1].state == Locked && Unread(t, 1)
    ensures t.p1 == s.p1 && t.p2 == ScanFirst && t.record.parses == parses
    ensures t.garbled == if parses then s.garbled else s.garbled + 1
  {
    var a := InferRound(s, 0, true);
    t := InferRound(a, 1, parses);
    ReachesOnwards(s, a, t);
  }

  /** Two frames are written before P2 runs; P1 is about to poll after the second. */
  lemma BothFilled(s: System, f: Frame) returns (t: System)
    requires Quiet(s) && Storable(s.lim, f)
    requires s.slots[0].state == Free && s.slots[1].state == Free
    ensures Reaches(s, t) && t.p1 == PollResult && t.p2 == ScanFirst && ValidSlots(t.lim, t.slots)
    ensures t.resultSeq == t.lastSeq && t.garbled == s.garbled
    ensures t.slots[0].state == Filled && t.slots[1].state == Filled
    ensures ReadFrame(t.slots[0]).Some? && ReadFrame(t.slots[1]).Some?
  {
    var a := CaptureRound(s, 0, f);
    t := StoresAlone(a, 1, f);
    ReachesOnwards(s, a, t);
  }

  /** From the start, P2 answers two frames before P1 polls. */
  lemma BothAnsweredFromStart(s: System, f: Frame, parses: bool) returns (t: System)
    requires Initial(s) && Storable(s.lim, f)
    ensures Reaches(s, t) && Stranded(t, 0) && t.slots[1].state == Locked && Unread(t, 1)
    ensures t.p1 == PollResult && t.p2 == ScanFirst && t.record.parses == parses
    ensures t.garbled == if parses then 0 else 1
  {
    var a := AfterReset(s);
    var b := BothFilled(a, f);
    ReachesOnwards(s, a, b);
    t := BothAnswered(b, parses);
    ReachesOnwards(s, b, t);
  }

  /** P2 answers two frames before P1 polls: the first result is lost and its slot stays
      LOCKED, although every result could be decoded. */
  lemma OneSlotCanBeStranded(s: System, f: Frame)
    requires Initial(s) && Storable(s.lim, f)
    ensures exists t :: Reaches(s, t) && t.garbled == 0 && Stranded(t, 0)
  {
    var t := BothAnsweredFromStart(s, f, true);
  }

  /** After an overwritten result a single one that P1 cannot decode halts the camera. */
  lemma OneGarbledResultCanHaltTheCamera(s: System, f: Frame)
    requires Initial(s) && Storable(s.lim, f)
    ensures exists t :: Reaches(s, t) && t.garbled == 1 && Stranded(t, 0) && Stranded(t, 1)
  {
    var a := BothAnsweredFromStart(s, f, false);
    var b := EmptyPoll(a, f);
    ReachesOnwards(s, a, b);
    assert Stranded(b, 0) && Stranded(b, 1);
  }

  // ----- a filled slot that is passed over -----

  lemma ReachesKeepsInv(s: System, t: System)
    requires Inv(s) && Reaches(s, t)
    ensures Inv(t)
  {
    var actions :| AllSensible(actions) && Run(s, actions) == t;
    RunKeepsInv(s, actions);
  }

  /** Every result published so far was for an image f and has been drawn. */
  predicate AllDrawn(s: System, f: Frame, n: nat) {
    s.resultSeq == |s.shown| == n && forall o <- s.shown :: o.canvas == f
  }

  /** Slot 1 holds g and waits; slot 0 is free again after n results. */
  predicate PassedOver(s: System, f: Frame, g: Frame, n: nat) {
    && Inv(s) && Quiet(s) && AllDrawn(s, f, n)
    && s.slots[0].state == Free && s.slots[1].state == Filled && ReadFrame(s.slots[1]) == Some(g)
  }

  /** Both slots are filled: slot 0 with f, slot 1 with g. */
  predicate BothWait(s: System, f: Frame, g: Frame) {
    && ValidSlots(s.lim, s.slots)
    && s.slots[0].state == Filled && ReadFrame(s.slots[0]) == Some(f)
    && s.slots[1].state == Filled && ReadFrame(s.slots[1]) == Some(g)
  }

  /** P2 takes slot 0, and P1 comes to its poll without a free slot. */
  lemma FirstIsAnswered(s: System, f: Frame, g: Frame) returns (t: System)
    requires Quiet(s) && BothWait(s, f, g) && Storable(s.lim, f)
    ensures Reaches(s, t) && t == InferTurn(s, 0, "", true).(p1 := PollResult)
    ensures t.slots[0].state == Locked && t.slots[1] == s.slots[1] && t.record.source == f
  {
    var a := InferRound(s, 0, true);
    t := CaptureTurn(a, f);
    CaptureAlone(a, f);
    ReachesOnwards(s, a, t);
  }

  /** Then P1 draws and frees slot 0. */
  lemma FirstSlotWins(s: System, f: Frame, g: Frame, n: nat) returns (t: System)
    requires Inv(s) && Quiet(s) && BothWait(s, f, g) && AllDrawn(s, f, n) && Storable(s.lim, f)
    ensures Reaches(s, t) && PassedOver(t, f, g, n + 1) && t.lim == s.lim
  {
    var a := FirstIsAnswered(s, f, g);
    ReachesKeepsInv(s, a);
    t := DrawTurn(a);
    DrawAlone(a, f);
    ReachesOnwards(s, a, t);
    ReachesKeepsInv(s, t);
  }

  lemma PassedOverAgain(s: System, f: Frame, g: Frame, n: nat) returns (t: System)
    requires PassedOver(s, f, g, n) && Storable(s.lim, f)
    ensures Reaches(s, t) && PassedOver(t, f, g, n + 1) && t.lim == s.lim
  {
    var a := CaptureRound(s, 0, f);
    ReachesKeepsInv(s, a);
    t := FirstSlotWins(a, f, g, n);
    ReachesOnwards(s, a, t);
  }

  lemma BothFilledAtStart(s: System, f: Frame, g: Frame) returns (t: System)
    requires Quiet(s) && s.slots[0].state == Free && s.slots[1].state == Free
    requires Storable(s.lim, f) && Storable(s.lim, g)
    ensures Reaches(s, t) && Quiet(t) && BothWait(t, f, g)
    ensures t.lim == s.lim && t.shown == s.shown && t.resultSeq == s.resultSeq
  {
    var a := CaptureRound(s, 0, f);
    t := CaptureRound(a, 1, g);
    ReachesOnwards(s, a, t);
  }

  lemma PassedOverOnce(s: System, f: Frame, g: Frame) returns (t: System)
    requires Initial(s) && Storable(s.lim, f) && Storable(s.lim, g)
    ensures Reaches(s, t) && PassedOver(t, f, g, 1) && t.lim == s.lim
  {
    var a := AfterReset(s);
    var b := BothFilledAtStart(a, f, g);
    ReachesOnwards(s, a, b);
    InitialIsSafe(s);
    ReachesKeepsInv(s, b);
    t := FirstSlotWins(b, f, g, 0);
    ReachesOnwards(s, b, t);
  }

  /** find_filled prefers the first slot, so that there is no bound on how many results a filled
      second slot waits for: every result up to then was for a frame f of the first. */
  lemma {:induction false} SecondSlotCanWait(s: System, f: Frame, g: Frame, n: nat) returns (t: System)
    requires Initial(s) && Storable(s.lim, f) && Storable(s.lim, g)
    ensures Reaches(s, t) && PassedOver(t, f, g, n + 1) && t.lim == s.lim
  {
    if n == 0 {
      t := PassedOverOnce(s, f, g);
    } else {
      var a := SecondSlotCanWait(s, f, g, n - 1);
      t := PassedOverAgain(a, f, g, n);
      ReachesOnwards(s, a, t);
    }
  }
}
