/** The default test animation: a diagonal pattern of dim white LEDs, one
    in eight along each string, which shifts by half its period every frame.
    It writes a plain image (see `Utils.PlainIdx`) straight into the frame. */
module DefaultAnimation {
  import opened Json
  import opened Constants
  import Utils

  /** Channel offsets within an LED's three bytes. */
  const BLUE: nat := 0
  const RED: nat := 1
  const GREEN: nat := 2

  /** The level written to each channel of a lit LED. */
  const LEVEL: u8 := 0x20

  /** LED `x` of string `y` is lit in frame `frame`. Dafny's `%` with a
      positive divisor is the floor remainder Python uses, so this holds for
      negative frames as well. */
  predicate Lit(frame: int, x: int, y: int) {
    (x + y + 4 * frame) % 8 == 0
  }

  /** The byte `render` leaves at frame byte `k`. */
  function Pattern(frame: int): (fb: seq<u8>)
    ensures |fb| == FRAME_SIZE_BYTES
  {
    seq(FRAME_SIZE_BYTES, k requires 0 <= k < FRAME_SIZE_BYTES =>
      var xy := Utils.PlainPixel(k / 3);
      if Lit(frame, xy.0, xy.1) then LEVEL else 0)
  }

  /** All three channels of a lit LED hold `LEVEL`; every byte of an unlit
      LED is 0. */
  lemma PatternPixel(frame: int, x: nat, y: nat, c: nat)
    requires IsPixel(x, y) && c < 3
    ensures Utils.PlainIdx(x, y) + c < FRAME_SIZE_BYTES
    ensures Pattern(frame)[Utils.PlainIdx(x, y) + c] == if Lit(frame, x, y) then LEVEL else 0
  {
    Utils.PlainPixelOfPlainIdx(x, y, c);
  }

  /** Whether an LED is lit depends on the frame only through its parity. */
  lemma LitParity(frame: int, x: int, y: int)
    ensures Lit(frame, x, y) == Lit(frame % 2, x, y)
  {
    var q := frame / 2;
    assert frame == 2 * q + frame % 2;
    assert x + y + 4 * frame == (x + y + 4 * (frame % 2)) + 8 * q;
  }

  /** So the pattern alternates between two frames. */
  lemma PatternParity(frame: int)
    ensures Pattern(frame) == Pattern(frame % 2)
  {
    forall k | 0 <= k < FRAME_SIZE_BYTES
      ensures Pattern(frame)[k] == Pattern(frame % 2)[k]
    {
      var xy := Utils.PlainPixel(k / 3);
      LitParity(frame, xy.0, xy.1);
    }
  }

  /** Along a string the lit LEDs are eight apart. */
  lemma LitEveryEighth(frame: int, x: int, y: int)
    ensures Lit(frame, x, y) == Lit(frame, x + 8, y)
  {
    assert x + 8 + y + 4 * frame == (x + y + 4 * frame) + 8;
  }

  /** The bytes `render` has written by the time it reaches LED `led` of
      string `str`: the lit LEDs of the strings before `str` and of the
      LEDs before `led` on `str`. */
  ghost function Drawn(frame: int, str: nat, led: nat, k: nat): u8
    requires k < FRAME_SIZE_BYTES
  {
    var xy := Utils.PlainPixel(k / 3);
    if (xy.1 < str || (xy.1 == str && xy.0 < led)) && Lit(frame, xy.0, xy.1) then LEVEL else 0
  }

  ghost predicate DrawnUpTo(fb: seq<u8>, frame: int, str: nat, led: nat)
    requires |fb| == FRAME_SIZE_BYTES
  {
    forall k :: 0 <= k < FRAME_SIZE_BYTES ==> fb[k] == Drawn(frame, str, led, k)
  }

  /** Visiting LED `led` of string `str` changes its three bytes only, and
      to `LEVEL` when it is lit. */
  lemma DrawnStep(frame: int, str: nat, led: nat, k: nat)
    requires IsPixel(led, str) && k < FRAME_SIZE_BYTES
    ensures var b := Utils.PlainIdx(led, str);
            Drawn(frame, str, led + 1, k)
            == if b <= k < b + 3 && Lit(frame, led, str) then LEVEL else Drawn(frame, str, led, k)
  {
    var b := Utils.PlainIdx(led, str);
    if b <= k < b + 3 {
      Utils.PlainPixelOfPlainIdx(led, str, k - b);
    }
  }

  /** The inner loop: LED `led` of string `str`. */
  method DrawLed(frame: int, fb: array<u8>, str: nat, led: nat)
    requires fb.Length == FRAME_SIZE_BYTES && IsPixel(led, str)
    requires DrawnUpTo(fb[..], frame, str, led)
    modifies fb
    ensures DrawnUpTo(fb[..], frame, str, led + 1)
  {
    if (led + str + 4 * frame) % 8 == 0 {
      var byteIdx := 3 * (str + STRING_COUNT * led);
      assert byteIdx == Utils.PlainIdx(led, str);
      fb[byteIdx + BLUE] := LEVEL;
      fb[byteIdx + GREEN] := LEVEL;
      fb[byteIdx + RED] := LEVEL;
    }
    forall k | 0 <= k < FRAME_SIZE_BYTES
      ensures fb[k] == Drawn(frame, str, led + 1, k)
    {
      DrawnStep(frame, str, led, k);
    }
  }

  /** Past the last LED of string `str` is the start of string `str + 1`. */
  lemma DrawnNextString(frame: int, str: nat, k: nat)
    requires k < FRAME_SIZE_BYTES
    ensures Drawn(frame, str, LED_COUNT, k) == Drawn(frame, str + 1, 0, k)
  {
  }

  /** Past the last string everything is drawn. */
  lemma DrawnAll(frame: int, k: nat)
    requires k < FRAME_SIZE_BYTES
    ensures Drawn(frame, STRING_COUNT, 0, k) == Pattern(frame)[k]
  {
  }

  /** `render(frame, fb, fb_32)`: clear the frame through the word view, then
      light every LED of the pattern in all three channels. */
  method Render(frame: int, fb: array<u8>)
    requires fb.Length == FRAME_SIZE_BYTES
    modifies fb
    ensures fb[..] == Pattern(frame)
  {
    Utils.FillWords(fb);
    var stringIdx := 0;
    while stringIdx < STRING_COUNT
      invariant 0 <= stringIdx <= STRING_COUNT
      invariant DrawnUpTo(fb[..], frame, stringIdx, 0)
    {
      var ledIdx := 0;
      while ledIdx < LED_COUNT
        invariant 0 <= ledIdx <= LED_COUNT
        invariant DrawnUpTo(fb[..], frame, stringIdx, ledIdx)
      {
        DrawLed(frame, fb, stringIdx, ledIdx);
        ledIdx := ledIdx + 1;
      }
      forall k | 0 <= k < FRAME_SIZE_BYTES
        ensures fb[k] == Drawn(frame, stringIdx + 1, 0, k)
      {
        DrawnNextString(frame, stringIdx, k);
      }
      stringIdx := stringIdx + 1;
    }
    forall k | 0 <= k < FRAME_SIZE_BYTES
      ensures fb[k] == Pattern(frame)[k]
    {
      DrawnAll(frame, k);
    }
  }
}
