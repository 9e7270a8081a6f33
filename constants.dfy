/** Frame geometry shared by the renderer, the Python helpers and the kernel
    driver, and the serpentine byte address of an LED. */
module Constants {

  const FPGA_REGS_SIZE: nat := 0x2000
  const FIFO_DATA_SIZE: nat := 0x4000

  /** Geometry; must match the FPGA build. */
  const LED_COUNT: nat := 118
  const STRING_COUNT: nat := 24
  const BYTES_PER_LED: nat := 3

  const FRAME_SIZE_BYTES: nat := LED_COUNT * STRING_COUNT * BYTES_PER_LED
  /** Frame size in 16-bit FIFO transfer words. */
  const FRAME_SIZE_WORDS: nat := FRAME_SIZE_BYTES / 2

  /** The driver's buffer limit (`BUFFER_SIZE` in the kernel module). */
  const DRIVER_BUFFER_SIZE: nat := 0x4000

  /** The frame size agrees with the FIFO window the renderer maps, with the
      driver's buffer limit and with the folded string layout. */
  lemma FrameSizeFacts()
    ensures FRAME_SIZE_BYTES == 8496
    ensures FRAME_SIZE_WORDS * 2 == FRAME_SIZE_BYTES
    ensures 0 < FRAME_SIZE_BYTES <= FIFO_DATA_SIZE
    ensures 0 < FRAME_SIZE_BYTES <= DRIVER_BUFFER_SIZE
    ensures STRING_COUNT % 2 == 0
  {
  }

  predicate IsPixel(x: int, y: int) { 0 <= x < LED_COUNT && 0 <= y < STRING_COUNT }

  /** The serpentine address of LED `x` on string `y`: strings are folded at
      the middle of their length, so an odd string runs backwards in the
      second half of the buffer, two strings per column. */
  function FbIdx(x: nat, y: nat): nat
    requires IsPixel(x, y)
  {
    var halfRow := y / 2;
    var column := if y % 2 == 0 then x else 2 * LED_COUNT - 1 - x;
    (halfRow + column * (STRING_COUNT / 2)) * BYTES_PER_LED
  }

  /** The pixel (x, y) whose serpentine address is pixel number `p`. */
  function FbPixel(p: nat): (xy: (nat, nat))
    requires p < LED_COUNT * STRING_COUNT
    ensures IsPixel(xy.0, xy.1)
  {
    var halfRow := p % (STRING_COUNT / 2);
    var column := p / (STRING_COUNT / 2);
    if column < LED_COUNT then (column, 2 * halfRow)
    else (2 * LED_COUNT - 1 - column, 2 * halfRow + 1)
  }

  /** Every address is a whole LED inside the frame. */
  lemma FbIdxInFrame(x: nat, y: nat)
    requires IsPixel(x, y)
    ensures FbIdx(x, y) % BYTES_PER_LED == 0
    ensures FbIdx(x, y) + BYTES_PER_LED <= FRAME_SIZE_BYTES
  {
  }

  /** `FbPixel` undoes `FbIdx` ... */
  lemma {:induction false} FbPixelOfFbIdx(x: nat, y: nat)
    requires IsPixel(x, y)
    ensures FbIdx(x, y) / 3 < LED_COUNT * STRING_COUNT
    ensures FbPixel(FbIdx(x, y) / 3) == (x, y)
  {
    var column := if y % 2 == 0 then x else 2 * LED_COUNT - 1 - x;
    var p := y / 2 + column * 12;
    assert FbIdx(x, y) == 3 * p;
    assert p % 12 == y / 2 && p / 12 == column;
  }

  /** ... and `FbIdx` undoes `FbPixel`. */
  lemma {:induction false} FbIdxOfFbPixel(p: nat)
    requires p < LED_COUNT * STRING_COUNT
    ensures FbIdx(FbPixel(p).0, FbPixel(p).1) == 3 * p
  {
    var halfRow := p % 12;
    var column := p / 12;
    assert p == halfRow + column * 12;
  }

  /** So the serpentine mapping is a bijection from the LEDs onto the
      3-byte cells of the frame: no two LEDs share an address. */
  lemma FbIdxInjective(x1: nat, y1: nat, x2: nat, y2: nat)
    requires IsPixel(x1, y1) && IsPixel(x2, y2)
    requires FbIdx(x1, y1) == FbIdx(x2, y2)
    ensures x1 == x2 && y1 == y2
  {
    FbPixelOfFbIdx(x1, y1);
    FbPixelOfFbIdx(x2, y2);
  }

  /** Distinct LEDs have non-overlapping 3-byte cells. */
  lemma FbIdxDisjoint(x1: nat, y1: nat, x2: nat, y2: nat)
    requires IsPixel(x1, y1) && IsPixel(x2, y2)
    requires (x1, y1) != (x2, y2)
    ensures FbIdx(x1, y1) + 3 <= FbIdx(x2, y2) || FbIdx(x2, y2) + 3 <= FbIdx(x1, y1)
  {
    if FbIdx(x1, y1) == FbIdx(x2, y2) {
      FbIdxInjective(x1, y1, x2, y2);
    }
  }
}
