/** shared/memory.py and its two users as they run without interference: FrameBuffer over the
    shared segments, one call of CaptureDisplay._handle_frame, one call of InferenceWorker.step.
    DoubleBuffer interleaves the single accesses these calls are made of. */
module SharedMemory {
  import opened Options
  import opened FrameSlots
  import opened BufferTurns

  /** The segments cv_<camera>_frame_a, _frame_b, _result and _ctrl. */
  class Segments {
    const lim: Limits
    var stateA: BufState
    var stateB: BufState
    var heightA: nat
    var widthA: nat
    var heightB: nat
    var widthB: nat
    var resultForBuf: int
    var resultSeq: nat
    var frameCounter: nat
    const frameA: array<byte>
    const frameB: array<byte>
    const result: array<byte>

    ghost predicate Valid()
      reads this, frameA, frameB, result
    {
      && frameA != frameB && frameA != result && frameB != result
      && ValidMemory(lim, View())
    }

    ghost function SlotA(): Slot
      reads this, frameA
    {
      Slot(stateA, heightA, widthA, frameA[..])
    }

    ghost function SlotB(): Slot
      reads this, frameB
    {
      Slot(stateB, heightB, widthB, frameB[..])
    }

    ghost function View(): Memory
      reads this, frameA, frameB, result
    {
      Memory([SlotA(), SlotB()], result[..], resultForBuf, resultSeq)
    }

    /** Freshly created segments are filled with zeros. */
    constructor (lim: Limits)
      ensures Valid() && this.lim == lim && frameCounter == 0
      ensures fresh(frameA) && fresh(frameB) && fresh(result)
    {
      this.lim := lim;
      stateA, stateB := Free, Free;
      heightA, widthA, heightB, widthB := 0, 0, 0, 0;
      resultForBuf, resultSeq, frameCounter := 0, 0, 0;
      frameA := new byte[Capacity(lim)](_ => 0);
      frameB := new byte[Capacity(lim)](_ => 0);
      result := new byte[RESULT_SIZE](_ => 0);
      new;
      FitsWithinCapacity(lim, 0, 0);
    }
  }

  /** Copies a prefix into a segment. */
  method CopyInto(dst: array<byte>, src: seq<byte>)
    requires |src| <= dst.Length
    modifies dst
    ensures dst[..] == src + old(dst[..])[|src|..]
  {
    for k := 0 to |src|
      invariant forall j :: 0 <= j < k ==> dst[j] == src[j]
      invariant forall j :: k <= j < dst.Length ==> dst[j] == old(dst[j])
    {
      dst[k] := src[k];
    }
  }

  class FrameBuffer {
    const shm: Segments
    var lastResultSeq: nat

    ghost predicate Valid()
      reads this, shm, shm.frameA, shm.frameB, shm.result
    {
      shm.Valid()
    }

    /** Attaches to the segments. frame_counter is never written after this, so every process
        that attaches runs the reset. */
    constructor (shm: Segments)
      requires shm.Valid()
      modifies shm
      ensures this.shm == shm && Valid() && lastResultSeq == 0
      ensures shm.frameCounter == old(shm.frameCounter)
      ensures old(shm.frameCounter) != 0 ==> shm.View() == old(shm.View())
      ensures old(shm.frameCounter) == 0 ==>
                shm.View() == old(shm.View()).(
                  slots := SetState(SetState(old(shm.View()).slots, 0, Free), 1, Free),
                  resultFor := -1, resultSeq := 0)
    {
      this.shm := shm;
      lastResultSeq := 0;
      new;
      if shm.frameCounter == 0 {
        shm.stateA := Free;
        shm.stateB := Free;
        shm.resultForBuf := -1;
        shm.resultSeq := 0;
        shm.frameCounter := 0;
      }
    }

    method PickFree() returns (r: Option<Index>)
      requires Valid()
      ensures r == FrameSlots.PickFree(shm.View().slots)
    {
      if shm.stateA == Free {
        return Some(0);
      }
      if shm.stateB == Free {
        return Some(1);
      }
      return None;
    }

    /** False is the ValueError for an oversized frame. */
    method WriteFrame(i: Index, f: Frame) returns (ok: bool)
      requires Valid() && IsImage(f)
      modifies shm, shm.frameA, shm.frameB
      ensures Valid() && ok == Fits(shm.lim, f.height, f.width)
      ensures |f.pixels| <= |old(shm.View()).slots[i].mem| || !ok
      ensures shm.View() == if ok then old(shm.View()).(slots := FrameSlots.WriteFrame(old(shm.View()).slots, i, f))
                            else old(shm.View())
    {
      if !Fits(shm.lim, f.height, f.width) {
        return false;
      }
      FitsWithinCapacity(shm.lim, f.height, f.width);
      if i == 0 {
        shm.heightA := f.height;
        shm.widthA := f.width;
        CopyInto(shm.frameA, f.pixels);
        shm.stateA := Filled;
      } else {
        shm.heightB := f.height;
        shm.widthB := f.width;
        CopyInto(shm.frameB, f.pixels);
        shm.stateB := Filled;
      }
      return true;
    }

    method FindFilled() returns (r: Option<Index>)
      requires Valid()
      ensures r == FrameSlots.FindFilled(shm.View().slots)
    {
      if shm.stateA == Filled {
        return Some(0);
      }
      if shm.stateB == Filled {
        return Some(1);
      }
      return None;
    }

    method Acquire(i: Index)
      requires Valid()
      modifies shm
      ensures Valid()
      ensures shm.View() == old(shm.View()).(slots := SetState(old(shm.View()).slots, i, Locked))
    {
      if i == 0 {
        shm.stateA := Locked;
      } else {
        shm.stateB := Locked;
      }
    }

    method ReadFrame(i: Index) returns (r: Option<Frame>)
      requires Valid()
      ensures r == FrameSlots.ReadFrame(shm.View().slots[i])
    {
      var h, w := if i == 0 then shm.heightA else shm.heightB, if i == 0 then shm.widthA else shm.widthB;
      if h <= 0 || w <= 0 {
        return None;
      }
      var pixels := if i == 0 then shm.frameA[..FrameBytes(h, w)] else shm.frameB[..FrameBytes(h, w)];
      return Some(Frame(h, w, pixels));
    }

    method Release(i: Index)
      requires Valid()
      modifies shm
      ensures Valid()
      ensures shm.View() == old(shm.View()).(slots := SetState(old(shm.View()).slots, i, Free))
    {
      if i == 0 {
        shm.stateA := Free;
      } else {
        shm.stateB := Free;
      }
    }

    method WriteResult(text: seq<byte>, i: Index)
      requires Valid()
      modifies shm, shm.result
      ensures Valid()
      ensures shm.View() == old(shm.View()).(text := PutText(old(shm.View()).text, text), resultFor := i,
                                             resultSeq := old(shm.View()).resultSeq + 1)
    {
      var n := if |text| < RESULT_SIZE - 1 then |text| else RESULT_SIZE - 1;
      CopyInto(shm.result, text[..n]);
      shm.result[n] := 0;
      shm.resultForBuf := i;
      shm.resultSeq := shm.resultSeq + 1;
      assert shm.result[..] == text[..n] + [0] + old(shm.result[..])[n + 1..];
    }

    /** None when nothing new has arrived or the text cannot be decoded. */
    method ReadResult<T>(decode: seq<byte> -> Option<T>) returns (r: Option<(T, int)>)
      requires Valid()
      modifies this
      ensures Valid() && lastResultSeq == shm.resultSeq
      ensures r == if shm.resultSeq == old(lastResultSeq) then None
                   else match Decoded(shm.View().text, decode)
                        case None => None
                        case Some(payload) => Some((payload, shm.resultForBuf))
    {
      if shm.resultSeq == lastResultSeq {
        return None;
      }
      lastResultSeq := shm.resultSeq;
      var text := GetText(shm.result[..]);
      if text == None {
        return None;
      }
      match decode(text.value) {
        case None => return None;
        case Some(payload) => return Some((payload, shm.resultForBuf));
      }
    }
  }

  /** The capture side: one camera's FrameBuffer handle in the main process. */
  class CaptureDisplay {
    const buffer: FrameBuffer

    constructor (buffer: FrameBuffer)
      ensures this.buffer == buffer
    {
      this.buffer := buffer;
    }

    method HandleFrame<T>(f: Frame, decode: seq<byte> -> Option<T>) returns (shown: Shown<T>)
      requires buffer.Valid() && IsImage(f)
      modifies buffer, buffer.shm, buffer.shm.frameA, buffer.shm.frameB
      ensures buffer.Valid()
      ensures (buffer.shm.View(), buffer.lastResultSeq, shown)
              == BufferTurns.HandleFrame(buffer.shm.lim, old(buffer.shm.View()), old(buffer.lastResultSeq), f, decode)
    {
      var free := buffer.PickFree();
      if free.Some? {
        var ok := buffer.WriteFrame(free.value, f);
        if !ok {
          return Raised;
        }
      }
      var result := buffer.ReadResult(decode);
      if result == None {
        return Bare(f);
      }
      var (payload, slot) := result.value;
      shown := Nothing;
      if 0 <= slot < 2 {
        var canvas := buffer.ReadFrame(slot);
        if canvas.Some? {
          shown := Annotated(canvas.value, payload);
        }
        buffer.Release(slot);
      }
    }
  }

  /** The inference side: the same segments through P2's own handle. */
  class InferenceWorker {
    const buffer: FrameBuffer

    constructor (buffer: FrameBuffer)
      ensures this.buffer == buffer
    {
      this.buffer := buffer;
    }

    method Step<D>(detect: Frame -> Option<seq<D>>, encode: seq<D> -> seq<byte>) returns (inferred: bool)
      requires buffer.Valid()
      modifies buffer.shm, buffer.shm.result
      ensures buffer.Valid()
      ensures (buffer.shm.View(), inferred)
              == BufferTurns.Step(buffer.shm.lim, old(buffer.shm.View()), detect, encode)
    {
      var filled := buffer.FindFilled();
      if filled == None {
        return false;
      }
      var slot := filled.value;
      buffer.Acquire(slot);
      var frame := buffer.ReadFrame(slot);
      if frame == None {
        buffer.Release(slot);
        ghost var before := old(buffer.shm.View()).slots;
        assert SetState(SetState(before, slot, Locked), slot, Free) == SetState(before, slot, Free);
        return false;
      }
      var detections := detect(frame.value);
      var found := if detections.Some? then detections.value else [];
      buffer.WriteResult(encode(found), slot);
      return true;
    }
  }
}
