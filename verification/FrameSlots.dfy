/** The two frame slots and the result text of shared/memory.py, as values.

    A slot is a state flag, two dimensions and a fixed block of bytes. Writing a frame
    overwrites a prefix of the block, so what a reader sees depends on the dimensions too. */
module FrameSlots {
  import opened Options

  newtype byte = x: int | 0 <= x < 256

  datatype BufState = Free | Filled | Locked

  datatype Limits = Limits(maxWidth: nat, maxHeight: nat)

  datatype Frame = Frame(height: nat, width: nat, pixels: seq<byte>)

  datatype Slot = Slot(state: BufState, height: nat, width: nat, mem: seq<byte>)

  /** The program always has two slots, a and b. */
  type Index = i: nat | i < 2

  type Slots = s: seq<Slot> | |s| == 2 witness [Slot(Free, 0, 0, []), Slot(Free, 0, 0, [])]

  function FrameBytes(height: nat, width: nat): nat {
    height * width * 3
  }

  /** A height x width x 3 array of bytes. */
  predicate IsImage(f: Frame) {
    |f.pixels| == FrameBytes(f.height, f.width)
  }

  /** The size test of write_frame. */
  predicate Fits(lim: Limits, height: nat, width: nat) {
    height <= lim.maxHeight && width <= lim.maxWidth
  }

  function Capacity(lim: Limits): nat {
    FrameBytes(lim.maxHeight, lim.maxWidth)
  }

  lemma FitsWithinCapacity(lim: Limits, height: nat, width: nat)
    requires Fits(lim, height, width)
    ensures FrameBytes(height, width) <= Capacity(lim)
  {
    assert height * width <= lim.maxHeight * width <= lim.maxHeight * lim.maxWidth;
  }

  /** A slot whose block has the full capacity and whose dimensions describe a prefix of it. */
  predicate ValidSlot(lim: Limits, s: Slot) {
    && |s.mem| == Capacity(lim)
    && Fits(lim, s.height, s.width)
    && FrameBytes(s.height, s.width) <= |s.mem|
  }

  predicate ValidSlots(lim: Limits, slots: Slots) {
    ValidSlot(lim, slots[0]) && ValidSlot(lim, slots[1])
  }

  /** The image a slot holds, whatever its state. */
  function Content(s: Slot): Frame
    requires FrameBytes(s.height, s.width) <= |s.mem|
  {
    Frame(s.height, s.width, s.mem[..FrameBytes(s.height, s.width)])
  }

  function PickFree(slots: Slots): Option<Index>
  {
    if slots[0].state == Free then Some(0) else if slots[1].state == Free then Some(1) else None
  }

  function FindFilled(slots: Slots): Option<Index>
  {
    if slots[0].state == Filled then Some(0) else if slots[1].state == Filled then Some(1) else None
  }

  function SetState(slots: Slots, i: Index, state: BufState): Slots
  {
    slots[i := slots[i].(state := state)]
  }

  function WriteFrame(slots: Slots, i: Index, f: Frame): Slots
    requires |f.pixels| <= |slots[i].mem|
  {
    slots[i := Slot(Filled, f.height, f.width, f.pixels + slots[i].mem[|f.pixels|..])]
  }

  function ReadFrame(s: Slot): Option<Frame>
    requires FrameBytes(s.height, s.width) <= |s.mem|
  {
    if s.height <= 0 || s.width <= 0 then None else Some(Content(s))
  }

  /** What write_frame stores, read_frame gives back, and the other slot is not touched. */
  lemma WriteThenRead(lim: Limits, slots: Slots, i: Index, f: Frame)
    requires ValidSlots(lim, slots)
    requires IsImage(f) && Fits(lim, f.height, f.width)
    ensures |f.pixels| <= |slots[i].mem|
    ensures var after := WriteFrame(slots, i, f);
            && ValidSlots(lim, after)
            && after[1 - i] == slots[1 - i]
            && after[i].state == Filled
            && Content(after[i]) == f
            && (f.height > 0 && f.width > 0 ==> ReadFrame(after[i]) == Some(f))
  {
    FitsWithinCapacity(lim, f.height, f.width);
    var after := WriteFrame(slots, i, f);
    assert after[i].mem[..|f.pixels|] == f.pixels;
  }

  // ----- the result segment: NUL-terminated text in a fixed block -----

  const RESULT_SIZE: nat := 8192

  function PutText(mem: seq<byte>, text: seq<byte>): (after: seq<byte>)
    requires |mem| == RESULT_SIZE
    ensures |after| == RESULT_SIZE
  {
    var n := if |text| < RESULT_SIZE - 1 then |text| else RESULT_SIZE - 1;
    text[..n] + [0] + mem[n + 1..]
  }

  /** Position of the first NUL at or after k, or the length when there is none. */
  function FirstNul(mem: seq<byte>, k: nat): (r: nat)
    requires k <= |mem|
    ensures k <= r <= |mem|
    ensures forall j :: k <= j < r ==> mem[j] != 0
    ensures r < |mem| ==> mem[r] == 0
    decreases |mem| - k
  {
    if k == |mem| || mem[k] == 0 then k else FirstNul(mem, k + 1)
  }

  /** read_result's text: None when there is no NUL or it is too early for any JSON object. */
  function GetText(mem: seq<byte>): Option<seq<byte>> {
    var n := FirstNul(mem, 0);
    if n == |mem| || n <= 2 then None else Some(mem[..n])
  }

  /** What of a text P1 can read back: up to the cut or its first NUL, unless that is too short. */
  function Kept(text: seq<byte>): Option<seq<byte>> {
    var cut := if |text| < RESULT_SIZE - 1 then text else text[..RESULT_SIZE - 1];
    var n := FirstNul(cut, 0);
    if n <= 2 then None else Some(cut[..n])
  }

  lemma {:induction false} FirstNulIs(mem: seq<byte>, k: nat, r: nat)
    requires k <= r <= |mem| && (forall j :: k <= j < r ==> mem[j] != 0) && (r < |mem| ==> mem[r] == 0)
    ensures FirstNul(mem, k) == r
    decreases |mem| - k
  {
    if k < r {
      FirstNulIs(mem, k + 1, r);
    }
  }

  /** What was in the segment before never shows through. */
  lemma KeptIsRead(mem: seq<byte>, text: seq<byte>)
    requires |mem| == RESULT_SIZE
    ensures GetText(PutText(mem, text)) == Kept(text)
  {
    var cut := if |text| < RESULT_SIZE - 1 then text else text[..RESULT_SIZE - 1];
    var (after, n) := (PutText(mem, text), FirstNul(cut, 0));
    assert forall k :: 0 <= k < |cut| ==> after[k] == cut[k];
    assert after[|cut|] == 0;
    FirstNulIs(after, 0, n);
    assert after[..n] == cut[..n];
  }

  predicate Survives(text: seq<byte>) {
    2 < |text| < RESULT_SIZE && forall k :: 0 <= k < |text| ==> text[k] != 0
  }

  /** The text survives the segment exactly when it is long enough, short enough and NUL-free; of
      any other only a proper prefix does, or nothing. */
  lemma TextRoundTrip(mem: seq<byte>, text: seq<byte>)
    requires |mem| == RESULT_SIZE
    ensures GetText(PutText(mem, text)) == Some(text) <==> Survives(text)
    ensures GetText(PutText(mem, text)).Some? ==> GetText(PutText(mem, text)).value <= text
  {
    KeptIsRead(mem, text);
    var cut := if |text| < RESULT_SIZE - 1 then text else text[..RESULT_SIZE - 1];
    var n := FirstNul(cut, 0);
    if Survives(text) {
      assert cut == text;
      FirstNulIs(cut, 0, |text|);
      assert cut[..n] == text;
    }
    if Kept(text) == Some(text) {
      assert forall k :: 0 <= k < |text| ==> text[k] == cut[..n][k] != 0;
    }
  }
}
