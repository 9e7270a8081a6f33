/** The sequence test animation: a single dim white LED that walks through
    the frame one 3-byte cell per frame, wrapping after the last. */
module SequenceAnimation {
  import opened Json
  import opened Constants
  import Utils

  /** The level written to each channel of the lit LED. */
  const LEVEL: u8 := 0x20

  /** The number of LEDs, the period of the walk. */
  const LEDS: nat := LED_COUNT * STRING_COUNT

  /** The cell lit in frame `frame`. Dafny's `%` with a positive divisor is
      the floor remainder Python uses, so negative frames wrap the same way. */
  function Cell(frame: int): (p: nat)
    ensures p < LEDS
    ensures 0 <= frame < LEDS ==> p == frame
  {
    frame % LEDS
  }

  /** The byte `render` leaves at frame byte `k`. */
  function Walk(frame: int): (fb: seq<u8>)
    ensures |fb| == FRAME_SIZE_BYTES
  {
    seq(FRAME_SIZE_BYTES, k requires 0 <= k < FRAME_SIZE_BYTES => if k / 3 == Cell(frame) then LEVEL else 0)
  }

  /** Exactly one LED is lit: the three bytes from `3 * (frame mod LEDS)`,
      which lie inside the frame, hold `LEVEL` and every other byte is 0. */
  lemma WalkLightsOneCell(frame: int)
    ensures var idx := BYTES_PER_LED * Cell(frame);
            && idx + 3 <= FRAME_SIZE_BYTES
            && (forall k :: 0 <= k < FRAME_SIZE_BYTES ==>
                  (Walk(frame)[k] == if idx <= k < idx + 3 then LEVEL else 0))
  {
    var idx := BYTES_PER_LED * Cell(frame);
    forall k | 0 <= k < FRAME_SIZE_BYTES
      ensures Walk(frame)[k] == if idx <= k < idx + 3 then LEVEL else 0
    {
      assert k / 3 == Cell(frame) <==> idx <= k < idx + 3;
    }
  }

  /** The walk repeats after one pass over every LED ... */
  lemma WalkPeriodic(frame: int)
    ensures Walk(frame + LEDS) == Walk(frame)
  {
    assert Cell(frame + LEDS) == Cell(frame);
  }

  /** ... and each frame moves the lit LED on by one cell, from the last
      back to the first. */
  lemma WalkAdvances(frame: int)
    ensures Cell(frame + 1) == if Cell(frame) == LEDS - 1 then 0 else Cell(frame) + 1
  {
    var q := frame / LEDS;
    assert frame == q * LEDS + Cell(frame);
    if Cell(frame) == LEDS - 1 {
      assert frame + 1 == (q + 1) * LEDS + 0;
    } else {
      assert frame + 1 == q * LEDS + (Cell(frame) + 1);
    }
  }

  /** `render(frame, fb, fb_32)`: clear the frame through the word view, then
      light the three channels of the frame's cell. */
  method Render(frame: int, fb: array<u8>)
    requires fb.Length == FRAME_SIZE_BYTES
    modifies fb
    ensures fb[..] == Walk(frame)
  {
    Utils.FillWords(fb);
    var idx := BYTES_PER_LED * (frame % (LED_COUNT * STRING_COUNT));
    fb[idx + 0] := LEVEL;
    fb[idx + 1] := LEVEL;
    fb[idx + 2] := LEVEL;
    WalkLightsOneCell(frame);
    assert forall k :: 0 <= k < FRAME_SIZE_BYTES ==> fb[..][k] == Walk(frame)[k];
  }
}
