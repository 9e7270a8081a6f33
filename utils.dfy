/** The Python helpers' view of the frame: an image held LED by LED with the
    strings side by side (`PlainIdx`), the serpentine reorder
    `interpolate_into` that turns such an image into the frame the FPGA
    scans out, and the 32-bit word view whose `fill(0)` clears the frame. */
module Utils {
  import opened Json
  import opened Constants

  /** `FRAME_WORDS`: the frame seen as 32-bit words. */
  const FRAME_WORDS: nat := FRAME_SIZE_BYTES / 4

  /** The 32-bit view covers the byte frame exactly. */
  lemma WordViewCoversFrame()
    ensures FRAME_WORDS * 4 == FRAME_SIZE_BYTES
  {
  }

  /** The byte address of LED `x` of string `y` in a plain image:
      `3 * (y + STRING_COUNT * x)`. */
  function PlainIdx(x: nat, y: nat): (i: nat)
    requires IsPixel(x, y)
    ensures i % 3 == 0 && i + 3 <= FRAME_SIZE_BYTES
  {
    assert STRING_COUNT * x <= STRING_COUNT * (LED_COUNT - 1);
    3 * (y + STRING_COUNT * x)
  }

  /** The LED whose bytes are pixel number `p` of a plain image. */
  function PlainPixel(p: nat): (xy: (nat, nat))
    requires p < LED_COUNT * STRING_COUNT
    ensures IsPixel(xy.0, xy.1)
  {
    (p / STRING_COUNT, p % STRING_COUNT)
  }

  /** Byte `c` of LED (x, y) lies in plain pixel number `y + 24 x`, which
      `PlainPixel` maps back to (x, y). */
  lemma PlainPixelOfPlainIdx(x: nat, y: nat, c: nat)
    requires IsPixel(x, y) && c < 3
    ensures (PlainIdx(x, y) + c) / 3 < LED_COUNT * STRING_COUNT
    ensures (PlainIdx(x, y) + c) % 3 == c
    ensures PlainPixel((PlainIdx(x, y) + c) / 3) == (x, y)
  {
    var p := y + STRING_COUNT * x;
    assert PlainIdx(x, y) + c == 3 * p + c;
    assert (3 * p + c) / 3 == p;
    assert p / STRING_COUNT == x && p % STRING_COUNT == y;
  }

  /** The plain layout is a bijection too: `PlainIdx` undoes `PlainPixel`. */
  lemma PlainIdxOfPlainPixel(p: nat)
    requires p < LED_COUNT * STRING_COUNT
    ensures PlainIdx(PlainPixel(p).0, PlainPixel(p).1) == 3 * p
  {
    assert p == p % STRING_COUNT + STRING_COUNT * (p / STRING_COUNT);
  }

  /** The image offset of the LED whose serpentine cell is `p`. */
  function CellSource(p: nat): (m: nat)
    requires p < LED_COUNT * STRING_COUNT
    ensures m % 3 == 0 && m + 3 <= FRAME_SIZE_BYTES
  {
    var xy := FbPixel(p);
    PlainIdx(xy.0, xy.1)
  }

  /** The image byte that `interpolate_into` copies to frame byte `k`: the
      same channel of the LED whose serpentine cell holds `k`. */
  function SourceByte(k: nat): (m: nat)
    requires k < FRAME_SIZE_BYTES
    ensures m < FRAME_SIZE_BYTES && m % 3 == k % 3
  {
    CellSource(k / 3) + k % 3
  }

  /** Channel `c` of cell `p` copies channel `c` of the cell's LED. */
  lemma CellByte(p: nat, c: nat, k: nat)
    requires p < LED_COUNT * STRING_COUNT && c < 3 && k == 3 * p + c
    ensures k < FRAME_SIZE_BYTES && SourceByte(k) == CellSource(p) + c
  {
    assert k / 3 == p && k % 3 == c;
  }

  /** The frame `interpolate_into` builds from image `pxl`. */
  function Interpolated(pxl: seq<u8>): (fb: seq<u8>)
    requires |pxl| >= FRAME_SIZE_BYTES
    ensures |fb| == FRAME_SIZE_BYTES
  {
    seq(FRAME_SIZE_BYTES, k requires 0 <= k < FRAME_SIZE_BYTES => pxl[SourceByte(k)])
  }

  /** The reorder puts every LED of the image at its serpentine address:
      channel `c` of LED (x, y) in the image is channel `c` at `FbIdx(x, y)`
      in the frame. */
  lemma InterpolatedPlacesPixel(pxl: seq<u8>, x: nat, y: nat, c: nat)
    requires |pxl| >= FRAME_SIZE_BYTES && IsPixel(x, y) && c < 3
    ensures FbIdx(x, y) + c < FRAME_SIZE_BYTES
    ensures Interpolated(pxl)[FbIdx(x, y) + c] == pxl[PlainIdx(x, y) + c]
  {
    FbIdxInFrame(x, y);
    FbPixelOfFbIdx(x, y);
    var k := FbIdx(x, y) + c;
    assert k / 3 == FbIdx(x, y) / 3 && k % 3 == c;
  }

  /** Each image byte is read exactly once: no two frame bytes copy the
      same image byte ... */
  lemma SourceByteInjective(k1: nat, k2: nat)
    requires k1 < FRAME_SIZE_BYTES && k2 < FRAME_SIZE_BYTES
    requires SourceByte(k1) == SourceByte(k2)
    ensures k1 == k2
  {
    var xy1 := FbPixel(k1 / 3);
    var xy2 := FbPixel(k2 / 3);
    PlainPixelOfPlainIdx(xy1.0, xy1.1, k1 % 3);
    PlainPixelOfPlainIdx(xy2.0, xy2.1, k2 % 3);
    assert xy1 == xy2;
    FbIdxOfFbPixel(k1 / 3);
    FbIdxOfFbPixel(k2 / 3);
    assert k1 / 3 == k2 / 3;
  }

  /** ... and every image byte is read by the frame byte at its LED's
      serpentine address. */
  lemma SourceByteOnto(m: nat)
    requires m < FRAME_SIZE_BYTES
    ensures var xy := PlainPixel(m / 3);
            var k := FbIdx(xy.0, xy.1) + m % 3;
            k < FRAME_SIZE_BYTES && SourceByte(k) == m
  {
    var xy := PlainPixel(m / 3);
    FbIdxInFrame(xy.0, xy.1);
    FbPixelOfFbIdx(xy.0, xy.1);
    PlainIdxOfPlainPixel(m / 3);
    var k := FbIdx(xy.0, xy.1) + m % 3;
    assert k / 3 == FbIdx(xy.0, xy.1) / 3 && k % 3 == m % 3;
  }

  /** Half the LEDs: the even strings. */
  const HALF: nat := LED_COUNT * STRING_COUNT / 2

  /** The first loop's copy: cell `i` of the first half of the frame takes
      the image's pixel `2 i`, the even string of the pair. */
  lemma FirstHalfSource(i: nat)
    requires i < HALF
    ensures CellSource(i) == (3 * i) * 2
  {
    var column := i / 12;
    var halfRow := i % 12;
    assert i == halfRow + 12 * column;
    assert FbPixel(i) == (column, 2 * halfRow);
  }

  /** The frame cell the second loop writes for the `j`-th odd string
      (string `2 j + 1`) of LED `led`: past the first half, twelve cells per
      LED counted from the far end. */
  function SecondHalfCell(led: nat, j: nat): nat
    requires led < LED_COUNT
  {
    HALF + 12 * (LED_COUNT - 1 - led) + j
  }

  /** Its cell is the serpentine cell of (led, 2 j + 1), so the copy reads
      the right image pixel. */
  lemma SecondHalfSource(led: nat, j: nat)
    requires led < LED_COUNT && j < STRING_COUNT / 2
    ensures SecondHalfCell(led, j) < LED_COUNT * STRING_COUNT
    ensures CellSource(SecondHalfCell(led, j)) == 3 * (2 * j + 1 + STRING_COUNT * led)
  {
    var p := SecondHalfCell(led, j);
    var column := 2 * LED_COUNT - 1 - led;
    assert p == j + 12 * column;
    assert p / 12 == column && p % 12 == j;
    assert FbPixel(p) == (led, 2 * j + 1);
  }

  /** Writing the three bytes of the next cell, each its reorder value,
      extends the finished prefix by a cell. */
  lemma DoneBelowStep(before: seq<u8>, after: seq<u8>, pxl: seq<u8>, n: nat, src: nat)
    requires |before| == FRAME_SIZE_BYTES && |pxl| >= FRAME_SIZE_BYTES && n + 3 <= FRAME_SIZE_BYTES
    requires src + 3 <= |pxl|
    requires SourceByte(n) == src && SourceByte(n + 1) == src + 1 && SourceByte(n + 2) == src + 2
    requires DoneBelow(before, pxl, n)
    requires after == before[n := pxl[src]][n + 1 := pxl[src + 1]][n + 2 := pxl[src + 2]]
    ensures DoneBelow(after, pxl, n + 3)
  {
  }

  /** The frame bytes below `n` already hold the reorder of `pxl`. */
  ghost predicate DoneBelow(fb: seq<u8>, pxl: seq<u8>, n: nat)
    requires |fb| == FRAME_SIZE_BYTES && |pxl| >= FRAME_SIZE_BYTES && n <= FRAME_SIZE_BYTES
  {
    forall k :: 0 <= k < n ==> fb[k] == Interpolated(pxl)[k]
  }

  /** `interpolate_into(fb, pxl_list)`: the first loop copies the even
      strings' pixels into the first half of the frame in order; the second
      walks the LEDs from the far end and copies the odd strings into the
      second half, three bytes at a time. */
  method InterpolateInto(fb: array<u8>, pxl: seq<u8>)
    requires fb.Length == FRAME_SIZE_BYTES && |pxl| >= FRAME_SIZE_BYTES
    modifies fb
    ensures fb[..] == Interpolated(pxl)
  {
    CopyEvenStrings(fb, pxl);
    var dstByteIdx := BYTES_PER_LED * LED_COUNT * STRING_COUNT / 2;
    var ledIdx: int := LED_COUNT - 1;
    while ledIdx >= 0
      invariant -1 <= ledIdx < LED_COUNT
      invariant dstByteIdx == 3 * (HALF + 12 * (LED_COUNT - 1 - ledIdx))
      invariant DoneBelow(fb[..], pxl, dstByteIdx)
    {
      dstByteIdx := CopyOddStrings(fb, pxl, ledIdx, dstByteIdx);
      ledIdx := ledIdx - 1;
    }
    assert dstByteIdx == FRAME_SIZE_BYTES;
    assert forall k :: 0 <= k < FRAME_SIZE_BYTES ==> fb[..][k] == Interpolated(pxl)[k];
  }

  /** The first loop of `interpolate_into`: cell `i` of the first half
      takes image pixel `2 i`. */
  method CopyEvenStrings(fb: array<u8>, pxl: seq<u8>)
    requires fb.Length == FRAME_SIZE_BYTES && |pxl| >= FRAME_SIZE_BYTES
    modifies fb
    ensures DoneBelow(fb[..], pxl, 3 * HALF)
  {
    var fbIdx := 0;
    while fbIdx < LED_COUNT * STRING_COUNT / 2
      invariant 0 <= fbIdx <= HALF
      invariant DoneBelow(fb[..], pxl, 3 * fbIdx)
    {
      var byteIdx := BYTES_PER_LED * fbIdx;
      assert byteIdx == 3 * fbIdx;
      FirstHalfSource(fbIdx);
      CopyCell(fb, pxl, byteIdx, byteIdx * 2, fbIdx);
      fbIdx := fbIdx + 1;
    }
  }

  /** One pass of the second loop of `interpolate_into`: the odd strings of
      LED `ledIdx`, in ascending order, into the next twelve cells. */
  method CopyOddStrings(fb: array<u8>, pxl: seq<u8>, ledIdx: nat, dst: nat) returns (next: nat)
    requires fb.Length == FRAME_SIZE_BYTES && |pxl| >= FRAME_SIZE_BYTES && ledIdx < LED_COUNT
    requires dst == 3 * SecondHalfCell(ledIdx, 0) && DoneBelow(fb[..], pxl, dst)
    modifies fb
    ensures next == dst + 3 * (STRING_COUNT / 2) && DoneBelow(fb[..], pxl, next)
  {
    var dstByteIdx := dst;
    var stringIdx := 1;
    ghost var j := 0;
    while stringIdx < STRING_COUNT
      invariant stringIdx == 2 * j + 1 && j <= STRING_COUNT / 2
      invariant dstByteIdx == 3 * SecondHalfCell(ledIdx, j)
      invariant DoneBelow(fb[..], pxl, dstByteIdx)
    {
      var srcByteIdx := BYTES_PER_LED * (stringIdx + STRING_COUNT * ledIdx);
      SecondHalfSource(ledIdx, j);
      CopyCell(fb, pxl, dstByteIdx, srcByteIdx, SecondHalfCell(ledIdx, j));
      dstByteIdx := dstByteIdx + BYTES_PER_LED;
      stringIdx := stringIdx + 2;
      j := j + 1;
    }
    next := dstByteIdx;
  }

  /** The three byte copies both loops make: image bytes `src ..  src + 3`
      go to frame bytes `dst .. dst + 3`, which finishes the next cell when
      `dst` is the offset of cell `cell` and `src` that of its LED. */
  method CopyCell(fb: array<u8>, pxl: seq<u8>, dst: nat, src: nat, ghost cell: nat)
    requires fb.Length == FRAME_SIZE_BYTES && |pxl| >= FRAME_SIZE_BYTES
    requires cell < LED_COUNT * STRING_COUNT && dst == 3 * cell && src == CellSource(cell)
    requires DoneBelow(fb[..], pxl, dst)
    modifies fb
    ensures fb[..] == old(fb[..])[dst := pxl[src]][dst + 1 := pxl[src + 1]][dst + 2 := pxl[src + 2]]
    ensures DoneBelow(fb[..], pxl, dst + 3)
  {
    CellByte(cell, 0, dst);
    CellByte(cell, 1, dst + 1);
    CellByte(cell, 2, dst + 2);
    ghost var before := fb[..];
    fb[dst + 0] := pxl[src + 0];
    fb[dst + 1] := pxl[src + 1];
    fb[dst + 2] := pxl[src + 2];
    ghost var after: seq<u8> := before[dst := pxl[src]][dst + 1 := pxl[src + 1]];
    after := after[dst + 2 := pxl[src + 2]];
    assert fb[..] == after;
    DoneBelowStep(before, fb[..], pxl, dst, src);
  }

  /** `fb_32.fill(0)`: the word view aliases the byte frame, each word
      being four consecutive bytes, so clearing the words clears every byte
      of the frame. */
  method FillWords(fb: array<u8>)
    requires fb.Length == FRAME_SIZE_BYTES
    modifies fb
    ensures forall k :: 0 <= k < fb.Length ==> fb[k] == 0
  {
    var w := 0;
    while w < FRAME_WORDS
      invariant 0 <= w <= FRAME_WORDS
      invariant forall k :: 0 <= k < 4 * w ==> fb[k] == 0
    {
      fb[4 * w] := 0;
      fb[4 * w + 1] := 0;
      fb[4 * w + 2] := 0;
      fb[4 * w + 3] := 0;
      w := w + 1;
    }
  }
}
