# cloud-ceiling render core, in Dafny

cloud-ceiling drives a ceiling of LED strings from an FPGA. The Rust
renderer reads a JSON configuration, builds a list of render blocks from it,
and renders frames. For each LED it binds the frame number, the LED index
and the string index to scalars 0, 1 and 2, runs every block on a shared
variable store, and writes color 0 of the store into the frame buffer. A
kernel module sends that buffer to the FPGA FIFO over DMA. Python scripts
produce frames directly, using the same layout.

The project models:

- **The variable store** (`RenderBlock`). A class `RenderState` with five
  containers: scalars, positions, colors, real colors and data buffers.
  The getters and setters work on it, as does `from_obj`, which fills it
  from the configuration's `vars` object. The blocks are specified on its
  value, `Store`.
- **The value types** (`VarTypes`). Position, Color, RealColor and Data.
  The model covers their JSON readers, saturating color addition, and
  scaling by floats and by `i32` (with the 32-bit wrap written out). It
  also gives `f32` rounding, clamping and `rem_euclid` explicitly. `Json`
  holds the JSON values and the `as_usize`, `as_i32`, `as_u8` and lookup
  helpers the readers use.
- **The configuration messages** (`ModularMsg`): `into_message` for each
  value type.
- **The render blocks.** `ScalarAdd`, `ScalarMacc`, `ScalarRamp`,
  `ScalarTriangle`, `ScalarHsv2Rgb`, `ColorInterp`, `Gamma`, `Dither` and
  `ImageLookup`. Each block has:
  - its `from_obj`, with every panic as a `Panic` result;
  - a writer back to JSON, with a round-trip lemma;
  - `Apply`, its effect on the store as a function;
  - `Execute`, an in-place method on `RenderState` proved equal to `Apply`;
  - lemmas with what the block computes: periodicity, bounds, the dither
    table being a bit reversal and a permutation, the dither's average
    over one period, and so on.

  `color_interp` reads the wrong slots as written (see "## Findings").
  Its module has both halves. `ApplyAsWritten`/`ExecuteAsWritten` is the
  code as it stands, and `Apply`/`Execute` is the intended behaviour.
- **The factory** (`Blocks`, for `blocks/mod.rs`). It picks a block's
  `from_obj` by the descriptor's `"type"` and dispatches `execute`. For
  `color_interp` the dispatch runs the corrected block. So the scanner's
  theorems below describe the program with that one fix.
- **The frame scanner** (`Fb`, for `fb.rs`).
  - `update_cfg` and its pure counterpart `Configure`.
  - The per-LED, per-string and per-frame loops, as in-place methods over
    an `array<u8>` frame buffer, proved equal to the functions `Pixel`,
    `Column`, `Scan` and `Frame`.
  - The frame loop of `fb_main`, as the function `Run` over the sequence
    of configurations the channel delivers.
- **The geometry** (`Constants`). The frame size and the serpentine
  address of an LED, proved to be a bijection of the LEDs onto the frame's
  three-byte cells.
- **The kernel driver** (`LedDriver`, for `kmod/led-driver.c`).
  - The flush `ioctl`, with its size checks, its split into DMA transfers
    of at most one page each, and its error returns.
  - `mmap`'s argument checks.
  - The completion callback, which counts transfers.
  - A class `LedFb` holding the device state, whose methods are proved
    equal to the step functions.
- **The Python helpers** (`Utils`, `DefaultAnimation`,
  `SequenceAnimation`).
  - `interpolate_into`, proved to place each LED of a plain image at its
    serpentine address in the frame.
  - The default and sequence test animations, proved to draw exactly
    their patterns.

Floats are exact reals. Two foreign routines are parameters of the model:
the `f32::pow` used by `gamma` and `dither`, and base64 decoding. The
scanner is stated over three function parameters, so that its proofs do
not unfold every block:
- `apply`: assumed equal to `Blocks.Apply` on well-formed blocks;
- `factory`: assumed equal to `Blocks.Factory`;
- `fbIdx`: any layout that keeps every LED's cell inside the frame.

`Fb.HypothesesHold`, `Fb.IterateIsStep` and `Fb.SerpentineLayout` show
that these parameters can be supplied.

The copy of `constants.rs` modelled here has no `fb_idx`, although
`fb.rs:69` calls `constants::fb_idx`. The model therefore keeps the layout
a parameter. Its instance, `Constants.FbIdx`, is the serpentine layout that
`scripts/utils.py` `interpolate_into` produces
(`Utils.InterpolatedPlacesPixel`).

`render_block.rs` declares a `RenderState` with three containers and its
own `Position` and `Color`. The block files and `modular_msg.rs` also use
real colors (`get_rcolor`/`set_rcolor`) and data buffers (`get_data`), and
the messages carry the `var_types` types. The model therefore extends the
store to five containers and uses the `var_types` types throughout; the two
`Position`/`Color` pairs behave alike. `from_obj` fills only the three
lists it reads, as the source does.

## Model

| member | source | states |
|---|---|---|
| Blocks.Name | rust/src/blocks/mod.rs:34-42 | every kind has one of the eight names `block_factory` matches |
| Blocks.NameDeterminesKind | rust/src/blocks/mod.rs:34-42 | the match arms are distinct: equal names mean equal kinds |
| Blocks.Construct | rust/src/blocks/mod.rs:34-44 | a name outside the eight panics ("Unknown RenderBlock"); a constructed block carries the name it was asked for and is well formed |
| Blocks.Factory | rust/src/blocks/mod.rs:22-44 | a non-object descriptor, a missing `"type"` or a non-string `"type"` panics; a built block's descriptor names it in `"type"` |
| Blocks.FactorySelects | rust/src/blocks/mod.rs:34-42 | each registered name runs exactly its own `from_obj` on the whole descriptor |
| Blocks.ImageLookupUnregistered | rust/src/blocks/mod.rs:1-8 | `image_lookup` is not a registered name: the factory panics on it |
| Blocks.FactoryByName | rust/src/blocks/mod.rs:28-42 | the factory's result is the constructor's result for the `"type"` name |
| Blocks.FactoryRoundTrip | rust/src/blocks/mod.rs:22-44 | every well-formed block is rebuilt by the factory from its own descriptor |
| Blocks.ConstructRoundTripColor | rust/src/blocks/mod.rs:35-38 | the color_interp, dither, gamma and scalar_add constructors invert the descriptor |
| Blocks.ConstructRoundTripScalar | rust/src/blocks/mod.rs:39-42 | the hsv2rgb, ramp and triangle constructors invert the descriptor |
| Blocks.Apply | rust/src/render_block.rs:7-9 | executing any block keeps the length of every buffer of the store |
| Blocks.ApplyLeavesPositionsAndData | rust/src/render_block.rs:7-9 | no block writes the positions or data buffers; only the four scalar blocks write scalars |
| Blocks.Execute | rust/src/blocks/mod.rs:22-44 | the dispatched `execute` updates the store in place exactly as `Apply` says, or panics leaving it as `Apply`'s panic says |
| ScalarAdd.OutputSlot | rust/src/blocks/scalar_add.rs:37 | `o_idx as usize`: a non-negative output index is kept, a negative one becomes a huge index |
| ScalarAdd.FromObj | rust/src/blocks/scalar_add.rs:13-32 | succeeds exactly when `inputs.a` and `inputs.b` are usize and `outputs.o` is i32, and holds those values |
| ScalarAdd.RoundTrip | rust/src/blocks/scalar_add.rs:13-32 | `from_obj` inverts the block's descriptor |
| ScalarAdd.Apply | rust/src/blocks/scalar_add.rs:36-38 | panics exactly when an index is out of range; otherwise only the output scalar changes, to the sum of the two inputs |
| ScalarAdd.Execute | rust/src/blocks/scalar_add.rs:36-38 | the in-place store update agrees with `Apply` |
| ScalarAdd.ApplyCommutes | rust/src/blocks/scalar_add.rs:37 | swapping the inputs does not change the result |
| ScalarAdd.NegativeOutputPanics | rust/src/blocks/scalar_add.rs:29-38 | a negative output index always panics on a store of realistic size |
| ScalarMacc.FromObj | rust/src/blocks/scalar_macc.rs:14-60 | succeeds exactly when both index arrays parse, have equal lengths and `outputs.o` is usize; the block holds the parsed lists |
| ScalarMacc.UnequalLengthsPanic | rust/src/blocks/scalar_macc.rs:30-32 | index arrays of different lengths panic |
| ScalarMacc.RoundTrip | rust/src/blocks/scalar_macc.rs:14-60 | `from_obj` inverts the descriptor of every block with paired lists |
| ScalarMacc.Apply | rust/src/blocks/scalar_macc.rs:64-70 | panics exactly when an index is out of range; otherwise only the output scalar changes, to the dot product of the paired inputs |
| ScalarMacc.Execute | rust/src/blocks/scalar_macc.rs:64-70 | the accumulation loop leaves the store `Apply` describes |
| ScalarMacc.DotSwap | rust/src/blocks/scalar_macc.rs:66-67 | the weights and the inputs play symmetric roles |
| ScalarMacc.DotZeroWeights | rust/src/blocks/scalar_macc.rs:65-68 | all-zero weights give 0 |
| ScalarMacc.DotAppend | rust/src/blocks/scalar_macc.rs:66-68 | the sum over concatenated pair lists is the sum of the two sums |
| ScalarRamp.FromObj | rust/src/blocks/scalar_ramp.rs:17-36 | succeeds exactly when `inputs.f/min/max/i` and `outputs.o` are all usize, and holds those indices |
| ScalarRamp.RoundTrip | rust/src/blocks/scalar_ramp.rs:17-36 | `from_obj` inverts the block's descriptor |
| ScalarRamp.Ramp | rust/src/blocks/scalar_ramp.rs:42-47 | the sawtooth stays in [min, max) (in (max, min] when max < min, and is constant when they are equal) |
| ScalarRamp.RampPeriodic | rust/src/blocks/scalar_ramp.rs:42-47 | the wave repeats every 1/f of the input |
| ScalarRamp.RampRestarts | rust/src/blocks/scalar_ramp.rs:47 | at a whole number of periods the wave is at `min` |
| ScalarRamp.RampExample | rust/src/blocks/scalar_ramp.rs:42-47 | frequency 1/4 over [0, 4) at input 5 gives 1 |
| ScalarRamp.Apply | rust/src/blocks/scalar_ramp.rs:40-50 | panics exactly when an index is out of range; otherwise only the output scalar changes, to the ramp of the input scalars |
| ScalarRamp.Execute | rust/src/blocks/scalar_ramp.rs:40-50 | the in-place store update agrees with `Apply` |
| ScalarTriangle.FromObj | rust/src/blocks/scalar_triangle.rs:17-62 | succeeds exactly when `inputs.f/min/max/i` and `outputs.o` are all usize, and holds those indices |
| ScalarTriangle.RoundTrip | rust/src/blocks/scalar_triangle.rs:17-62 | `from_obj` inverts the block's descriptor |
| ScalarTriangle.Fold | rust/src/blocks/scalar_triangle.rs:73 | the folded phase lies in [0, 1]; it is 1 exactly at the period's start and 0 exactly half-way |
| ScalarTriangle.Triangle | rust/src/blocks/scalar_triangle.rs:68-73 | the wave stays between min and max, is at `max` at whole periods and at `min` half-way through |
| ScalarTriangle.TriangleEven | rust/src/blocks/scalar_triangle.rs:73 | inputs `i` and `-i` give the same value |
| ScalarTriangle.TrianglePeriodic | rust/src/blocks/scalar_triangle.rs:68-73 | the wave repeats every 1/f of the input |
| ScalarTriangle.TriangleExample | rust/src/blocks/scalar_triangle.rs:68-73 | frequency 1 over [0, 10] gives 5 at a quarter and at three quarters of the period |
| ScalarTriangle.Apply | rust/src/blocks/scalar_triangle.rs:66-76 | panics exactly when an index is out of range; otherwise only the output scalar changes, to the triangle of the input scalars |
| ScalarTriangle.Execute | rust/src/blocks/scalar_triangle.rs:66-76 | the in-place store update agrees with `Apply` |
| ScalarHsv2Rgb.FromObj | rust/src/blocks/scalar_hsv2rgb.rs:18-57 | succeeds exactly when `inputs.h/s/v` and `outputs.o` are all usize, and holds those indices |
| ScalarHsv2Rgb.RoundTrip | rust/src/blocks/scalar_hsv2rgb.rs:18-57 | `from_obj` inverts the block's descriptor |
| ScalarHsv2Rgb.Sector | rust/src/blocks/scalar_hsv2rgb.rs:72 | the sector is always one of 0..5 |
| ScalarHsv2Rgb.HueWeight | rust/src/blocks/scalar_hsv2rgb.rs:70 | the folded position within the sector lies in [0, 1] |
| ScalarHsv2Rgb.SectorColor | rust/src/blocks/scalar_hsv2rgb.rs:74-82 | in every sector the largest channel is `c + m`, the smallest `m`, and all lie between |
| ScalarHsv2Rgb.HsvUnit | rust/src/blocks/scalar_hsv2rgb.rs:62-82 | for in-range inputs every channel is in [0, 1], the largest is the value and the smallest value times (1 - saturation) |
| ScalarHsv2Rgb.Hsv | rust/src/blocks/scalar_hsv2rgb.rs:62-82 | for any inputs the channels are in [0, 1], the largest is the clamped value and the smallest clamped value times (1 - clamped saturation); the panic arm cannot be reached |
| ScalarHsv2Rgb.HsvGray | rust/src/blocks/scalar_hsv2rgb.rs:63-64 | zero saturation gives a gray of the clamped value for every hue |
| ScalarHsv2Rgb.HueShift | rust/src/blocks/scalar_hsv2rgb.rs:69-72 | a full turn of hue gives the same sector and the same weight |
| ScalarHsv2Rgb.HsvHuePeriodic | rust/src/blocks/scalar_hsv2rgb.rs:66-82 | hue h and h + 1 give the same color |
| ScalarHsv2Rgb.HsvPrimaries | rust/src/blocks/scalar_hsv2rgb.rs:66-82 | hue 0, 1/3 and 2/3 at full saturation and value are pure red, green and blue |
| ScalarHsv2Rgb.Apply | rust/src/blocks/scalar_hsv2rgb.rs:61-85 | panics exactly when an index is out of range; otherwise only the output real color changes, to the conversion of the three scalars |
| ScalarHsv2Rgb.Execute | rust/src/blocks/scalar_hsv2rgb.rs:61-85 | the in-place store update agrees with `Apply` |
| ColorInterp.FromObj | rust/src/blocks/color_interp.rs:16-53 | succeeds exactly when the `color` and `point` index arrays parse and `inputs.val` and `outputs.o` are usize; the block holds the parsed lists |
| ColorInterp.RoundTrip | rust/src/blocks/color_interp.rs:16-53 | `from_obj` inverts the block's descriptor |
| ColorInterp.PositionFrom | rust/src/blocks/color_interp.rs:61 | the search from a given break point on succeeds exactly when some break point is the first at or above the value, and returns that one |
| ColorInterp.Position | rust/src/blocks/color_interp.rs:61 | `position(..).expect(..)` succeeds exactly when a first break point at or above the value exists, and returns it |
| ColorInterp.FirstAtLeastUnique | rust/src/blocks/color_interp.rs:61 | the first break point at or above the value is unique |
| ColorInterp.Mix | rust/src/blocks/color_interp.rs:73 | alpha 0 gives the start color and alpha 1 the end color |
| ColorInterp.Blend | rust/src/blocks/color_interp.rs:67-73 | with a non-zero span the blend is the mix at num/den; with a zero span it gives black (0/0) or one endpoint's non-zero channels at full scale (±infinity) |
| ColorInterp.ApplyAsWritten | rust/src/blocks/color_interp.rs:57-76 | the code as written changes only the output color |
| ColorInterp.AsWrittenAt | rust/src/blocks/color_interp.rs:61-75 | once the search returns `k`, the code as written reads scalars and colors `k - 1` and `k` directly and changes only the output color, panicking for `k == 0` |
| ColorInterp.Alpha | rust/src/blocks/color_interp.rs:67 | for a bracketed value the interpolation factor lies in (0, 1] |
| ColorInterp.BracketedIsPosition | rust/src/blocks/color_interp.rs:61 | a segment that brackets the value is the one the search finds |
| ColorInterp.Segment | rust/src/blocks/color_interp.rs:61-66 | returns a segment exactly when one brackets the value, and it is the one the search finds |
| ColorInterp.Apply | rust/src/blocks/color_interp.rs:57-76 | panics exactly when the output slot is out of range or no segment brackets the value; otherwise only the output color changes, to the interpolation over that segment |
| ColorInterp.InterpolatedIsMix | rust/src/blocks/color_interp.rs:65-73 | on a bracketed segment the `f32` blend is the mix of the two end colors at `Alpha`: no division by zero occurs |
| ColorInterp.Execute | rust/src/blocks/color_interp.rs:57-76 | the in-place update of the corrected block agrees with `Apply`, reading through `point_idxs` and `color_idxs` |
| ColorInterp.WrittenSegment | rust/src/blocks/color_interp.rs:58-74 | the code as written finishes without a panic exactly when it yields a segment `k`; then `k > 0`, scalar `k`, color `k` and color `o` exist, and the result is the store with color `o` set to the blend of scalars and colors `k - 1` and `k` |
| ColorInterp.ExecuteAsWritten | rust/src/blocks/color_interp.rs:57-76 | the in-place update as written agrees with `ApplyAsWritten`: panics where it panics, else writes only color `o` |
| ColorInterp.OnBreakPoint | rust/src/blocks/color_interp.rs:67-73 | a value exactly on a break point gets that point's color |
| ColorInterp.BelowFirstPointPanics | rust/src/blocks/color_interp.rs:61 | a value at or below the first break point panics: `position` returns 0 and `0 - 1` underflows |
| ColorInterp.AsWrittenAgreesOnIdentityLayout | rust/src/blocks/color_interp.rs:65-72 | with break points and colors laid out in slots 0, 1, .. the code as written and the corrected block agree |
| ColorInterp.AsWrittenMisreadsSlots | rust/src/blocks/color_interp.rs:65-72 | on a concrete layout the code as written reads the wrong slots and produces saturated red |
| ColorInterp.CorrectedMixesEvenly | rust/src/blocks/color_interp.rs:65-72 | on the same layout the corrected block gives the even mix of red and blue |
| Gamma.FromObj | rust/src/blocks/gamma.rs:27-95 | succeeds exactly when the four `params` are numbers and `inputs.i/x/y` and `outputs.o` are usize, and holds those values |
| Gamma.RoundTrip | rust/src/blocks/gamma.rs:27-95 | `from_obj` inverts the block's descriptor |
| Gamma.Quantize | rust/src/blocks/gamma.rs:103-107 | `clamp(v.floor(), 0, 255) as u8` is the integer part within [0, 256), 0 below and 255 above, and never exceeds a non-negative `v` |
| Gamma.QuantizeMonotone | rust/src/blocks/gamma.rs:103-107 | a larger value never gets a lower level |
| Gamma.ZeroCoefficientsBlack | rust/src/blocks/gamma.rs:102-118 | with every coefficient zero the output is black whatever the input |
| Gamma.UnitRange | rust/src/blocks/gamma.rs:104 | in-range coefficient and powered channel give exactly the integer part of `255 * coef * p`; full coefficient on a full channel gives 255 |
| Gamma.LevelMonotone | rust/src/blocks/gamma.rs:104 | for a non-negative coefficient a larger powered channel never gets a lower level |
| Gamma.Apply | rust/src/blocks/gamma.rs:99-121 | panics exactly when the real color or output slot is out of range; otherwise only the output color changes, to the converted real color |
| Gamma.CoordinatesUnused | rust/src/blocks/gamma.rs:58-121 | the `x` and `y` inputs are parsed but do not affect the result |
| Gamma.Execute | rust/src/blocks/gamma.rs:99-121 | the in-place store update agrees with `Apply` |
| Dither.FromObj | rust/src/blocks/dither.rs:29-77 | succeeds exactly when the four `params` are numbers and `inputs.scale/i/x/y` and `outputs.o` are usize, and holds those values |
| Dither.RoundTrip | rust/src/blocks/dither.rs:29-77 | `from_obj` inverts the block's descriptor |
| Dither.BitRev3 | rust/src/blocks/dither.rs:62-67 | reversing the bits of a three-bit number gives a three-bit number |
| Dither.BitRev3Involution | rust/src/blocks/dither.rs:62-67 | reversing the bits twice gives the number back |
| Dither.TableIsBitReversal | rust/src/blocks/dither.rs:56-74 | the hard-coded table has eight entries, entry `k` is eighth `BitRev3(k)`, and it is a permutation of the eighths 0/8 .. 7/8 |
| Dither.TableEntries | rust/src/blocks/dither.rs:64-74 | each table entry is the eighth at the bit-reversed index |
| Dither.EighthsAscend | rust/src/blocks/dither.rs:67 | the eighths in order are `k / 8` |
| Dither.TablePermutesEighths | rust/src/blocks/dither.rs:74 | the table holds each eighth exactly once |
| Dither.SatUsize | rust/src/blocks/dither.rs:86 | `f32 as usize` keeps in-range values and saturates negative ones to 0 |
| Dither.Phase | rust/src/blocks/dither.rs:86-87 | the phase is always a valid table index; it is 0 when the sum rounds to a non-positive number and the rounded sum modulo 8 otherwise |
| Dither.RoundSucc | rust/src/blocks/dither.rs:86 | above -1/2, rounding commutes with adding one |
| Dither.PhaseStep | rust/src/blocks/dither.rs:85-87 | one step along `x` advances the phase by one modulo 8, so a row cycles through all eight offsets |
| Dither.Offset | rust/src/blocks/dither.rs:90 | the offset lies in [0, 7/8] and is an entry of the table |
| Dither.MatchesGammaAtZeroOffset | rust/src/blocks/dither.rs:94-98 | with scale 255 and offset 0 the dithered color equals the `gamma` block's color for the same parameters |
| Dither.RoundsUpOrDown | rust/src/blocks/dither.rs:95-97 | an offset in [0, 7/8] moves an in-range level up by at most one |
| Dither.Carry | rust/src/blocks/dither.rs:95-97 | the number of whole eighths in the fractional part is 0 .. 7 and brackets it |
| Dither.LevelAtEighth | rust/src/blocks/dither.rs:95-97 | the level at offset j/8 is the integer part plus one exactly when j eighths carry past a whole number |
| Dither.EightFloor | rust/src/blocks/dither.rs:95-97 | `floor(8 v)` is eight times the whole part plus the carried eighths |
| Dither.CarryCount | rust/src/blocks/dither.rs:69-71 | a fraction of `m` eighths carries at exactly `m` of the eight offsets |
| Dither.PhaseAverage | rust/src/blocks/dither.rs:69-97 | the eight phases' levels sum to `floor(8 v)`: averaged over the phases a channel is resolved in steps of 1/8 |
| Dither.QuarterPattern | rust/src/blocks/dither.rs:69 | a fraction of 1/4 rounds up at phases 3 and 7 only, the comment's `[0 0 0 1 0 0 0 1]` |
| Dither.Apply | rust/src/blocks/dither.rs:81-101 | panics exactly when the real color, one of the scalars read or the output slot is missing; otherwise only the output color changes, to the conversion at the pixel's offset |
| Dither.Execute | rust/src/blocks/dither.rs:81-101 | the in-place store update agrees with `Apply` |
| ImageLookup.ModeOf | rust/src/blocks/image_lookup.rs:23-29 | byte 1 is `Tile`; every other byte falls back to the default `Single` |
| ImageLookup.FromObj | rust/src/blocks/image_lookup.rs:32-91 | succeeds exactly when `inputs.width/height/x/y/mode/data` and `outputs.o` are all usize, and holds those indices |
| ImageLookup.RoundTrip | rust/src/blocks/image_lookup.rs:32-91 | `from_obj` inverts the block's descriptor |
| ImageLookup.ToU8 | rust/src/blocks/image_lookup.rs:107 | `to_u8()` is defined exactly strictly between -1 and 256, where it truncates toward zero |
| ImageLookup.Side | rust/src/blocks/image_lookup.rs:96-97 | a rounded, clamped side is always in 1..1024, and equals the rounded value when that is in range |
| ImageLookup.Coordinate | rust/src/blocks/image_lookup.rs:104-120 | `Single` gives -1 outside the side and the rounded coordinate inside; `Tile` rounds the Euclidean remainder; a result other than -1 lies in `0 ..= size` |
| ImageLookup.TilePeriodic | rust/src/blocks/image_lookup.rs:116-119 | tiling repeats every `size` along the coordinate |
| ImageLookup.CoordinateReachesSide | rust/src/blocks/image_lookup.rs:110-117 | a coordinate half a pixel short of the edge rounds to `size` itself, in both modes |
| ImageLookup.EdgeWrapsToNextRow | rust/src/blocks/image_lookup.rs:127 | column `width` of row `j` has the byte offset of column 0 of row `j + 1` |
| ImageLookup.PixelColor | rust/src/blocks/image_lookup.rs:122-133 | black when a coordinate is negative or the three bytes are not all in the buffer; otherwise the three bytes at the pixel's offset |
| ImageLookup.Apply | rust/src/blocks/image_lookup.rs:95-136 | panics exactly when a slot is missing or the mode scalar is not a byte; otherwise only the output color changes, to the looked-up pixel |
| ImageLookup.SingleOutsideIsBlack | rust/src/blocks/image_lookup.rs:108-126 | in `Single` mode an `x`, or a stretched `y`, outside the image gives black |
| ImageLookup.Locate | rust/src/blocks/image_lookup.rs:104-120 | the `match` leaves `i` and `j` at the mode's coordinates |
| ImageLookup.ReadPixel | rust/src/blocks/image_lookup.rs:122-133 | the read leaves the pixel's color as `PixelColor` says |
| ImageLookup.Execute | rust/src/blocks/image_lookup.rs:95-136 | the in-place store update agrees with `Apply` |
| VarTypes.Clamp | rust/src/var_types.rs:135-137 | `num_traits::clamp` on integers: the result lies in the bounds, is the value when that lies in them, and the nearer bound otherwise |
| VarTypes.ClampReal | rust/src/var_types.rs:181-183 | the same for floats |
| VarTypes.Round | rust/src/var_types.rs:121-123 | `f32::round`: within half of the argument, and never of the opposite sign |
| VarTypes.RoundIntegral | rust/src/var_types.rs:121-123 | a whole number rounds to itself |
| VarTypes.RoundMonotone | rust/src/var_types.rs:121-123 | rounding never reverses an order |
| VarTypes.RoundBelow | rust/src/var_types.rs:121-123 | a value at most `c` rounds to at most `c` |
| VarTypes.RemEuclid | rust/src/blocks/scalar_hsv2rgb.rs:70 | `f32::rem_euclid`: the remainder lies in `[0, |m|)` and differs from the argument by a whole multiple of `|m|` |
| VarTypes.RemEuclidShift | rust/src/blocks/image_lookup.rs:117-118 | adding a whole multiple of `m` leaves the remainder unchanged |
| VarTypes.Portion | rust/src/blocks/color_interp.rs:73 | a fraction in `[0, 1]` of `w` lies between 0 and `w`, strictly below `w` when the fraction is below 1 |
| VarTypes.PortionBounds | rust/src/blocks/color_interp.rs:73 | the same bounds for any product `p * w` |
| VarTypes.Frac | rust/src/blocks/scalar_ramp.rs:47 | `rem_euclid(1.0)`: the fractional part lies in `[0, 1)` and differs from the argument by a whole number |
| VarTypes.FracShift | rust/src/blocks/scalar_ramp.rs:47 | adding a whole number leaves the fractional part unchanged |
| VarTypes.FracNeg | rust/src/blocks/scalar_triangle.rs:73 | the fractional part is 0 exactly for whole numbers; negating a non-whole number turns it into its complement |
| VarTypes.WrapI32 | rust/src/var_types.rs:135-137 | the two's-complement 32-bit result: in the `i32` range, and the value itself when that is in range |
| VarTypes.PositionAdd | rust/src/var_types.rs:44-53 | the sum adds coordinatewise (subtracting `q` gives back `p`) |
| VarTypes.PositionScale | rust/src/var_types.rs:57-66 | the product scales both coordinates (dividing by a nonzero factor gives back `p`); factor 0 gives the origin |
| VarTypes.PositionScaleDistributes | rust/src/var_types.rs:44-66 | scaling distributes over the sum |
| VarTypes.SaturatingAdd | rust/src/var_types.rs:107-109 | `u8::saturating_add`: never below either operand; the true sum when it fits, 255 otherwise |
| VarTypes.ColorAdd | rust/src/var_types.rs:102-112 | each channel is the saturated sum of the two channels |
| VarTypes.ColorAddCommutes | rust/src/var_types.rs:102-112 | color addition is commutative |
| VarTypes.ColorAddBlack | rust/src/var_types.rs:102-112 | black is the identity of color addition |
| VarTypes.ScaleChannel | rust/src/var_types.rs:121-123 | scaling a byte by a float: 0 for a non-positive factor, at most the byte for a factor in `[0, 1]`, the byte for factor 1, within half of the exact product when that is in byte range |
| VarTypes.ColorScale | rust/src/var_types.rs:114-126 | factor at most 0 gives black, 1 the color itself, and a factor in `[0, 1]` darkens every channel |
| VarTypes.ScaleChannelNearest | rust/src/var_types.rs:121-123 | the scaled byte is the nearest byte to the exact product `f * c`: within half of it when it lies in `[0, 255]`, 255 when it is at or above 255, 0 when it is at or below 0 |
| VarTypes.ColorScaleNearest | rust/src/var_types.rs:114-126 | every channel of `Color * f32` is the nearest byte to the exact product of that channel and the factor, saturating at 0 and 255, for any factor including one above 1 |
| VarTypes.ScaleChannelInt | rust/src/var_types.rs:135-137 | scaling a byte by an `i32` without overflow gives the product clamped to `0..=255` |
| VarTypes.ColorScaleInt | rust/src/var_types.rs:128-140 | factor 1 keeps the color; a factor in [-8421504, 0] gives black |
| VarTypes.RealColorAdd | rust/src/var_types.rs:176-186 | every channel lies in `[0, 1]`, and is the plain sum when that does |
| VarTypes.RealColorScale | rust/src/var_types.rs:188-198 | every channel lies in `[0, 1]`, and is the plain product when that does |
| VarTypes.F32FromJson | rust/src/var_types.rs:10-14 | succeeds exactly on a number, and returns it |
| VarTypes.PositionFromJson | rust/src/var_types.rs:22-42 | succeeds exactly on an object with numeric `x` and `y`, and returns them |
| VarTypes.ColorFromJson | rust/src/var_types.rs:75-100 | succeeds exactly on an object whose `r`, `g`, `b` are bytes, and returns them |
| VarTypes.RealColorFromJson | rust/src/var_types.rs:149-174 | succeeds exactly on an object with numeric `r`, `g`, `b`, and returns them |
| VarTypes.DataFromJson | rust/src/var_types.rs:202-214 | succeeds exactly on a string that decodes, and returns the decoded bytes |
| VarTypes.PositionRoundTrip | rust/src/var_types.rs:22-42 | reading back a written position gives the position |
| VarTypes.ColorRoundTrip | rust/src/var_types.rs:75-100 | reading back a written color gives the color |
| VarTypes.RealColorRoundTrip | rust/src/var_types.rs:149-174 | reading back a written real color gives the color |
| Json.AsUsize | rust/src/blocks/scalar_add.rs:20-21 | an index read from JSON is the number it was written as |
| Json.AsI32 | rust/src/blocks/scalar_add.rs:29 | an `i32` read from JSON is the number it was written as |
| Json.AsU8 | rust/src/var_types.rs:85 | a byte read from JSON is the number it was written as |
| Json.Field | rust/src/var_types.rs:29-38 | `dict.get(key).expect(..).as_x().expect(..)`: succeeds exactly when the key is present and converts, with the converted value |
| Json.Section | rust/src/blocks/scalar_add.rs:13-32 | a sub-object is found exactly when the key holds an object |
| Json.ArrayField | rust/src/render_block.rs:88-92 | a list is found exactly when the key holds an array |
| Json.ParseEach | rust/src/render_block.rs:94-96 | converting a list element by element succeeds exactly when every element converts, keeps the length and the order |
| Json.NumArray | rust/src/blocks/scalar_macc.rs:14-60 | writing indices as a JSON list keeps length and order |
| Json.NumArrayParses | rust/src/blocks/scalar_macc.rs:14-60 | reading back a written index list gives the list |
| RenderBlock.Resize | rust/src/render_block.rs:93 | `Vec::resize`: the new length, the old prefix kept, the padding filled |
| RenderBlock.VarsList | rust/src/render_block.rs:83-92 | a `vars` list is read only from an object holding an array under the key |
| RenderBlock.RenderState.constructor | rust/src/render_block.rs:50-56 | a new state holds no variables |
| RenderBlock.RenderState.SetScalar | rust/src/render_block.rs:58-60 | replaces scalar `idx` and nothing else |
| RenderBlock.RenderState.GetScalar | rust/src/render_block.rs:62-64 | returns scalar `idx` |
| RenderBlock.RenderState.SetPosition | rust/src/render_block.rs:66-68 | replaces position `idx` and nothing else |
| RenderBlock.RenderState.GetPosition | rust/src/render_block.rs:70-72 | returns position `idx` |
| RenderBlock.RenderState.SetColor | rust/src/render_block.rs:74-76 | replaces color `idx` and nothing else |
| RenderBlock.RenderState.GetColor | rust/src/render_block.rs:78-80 | returns color `idx` |
| RenderBlock.RenderState.SetRColor | rust/src/modular_msg.rs:17 | replaces real color `idx` and nothing else |
| RenderBlock.RenderState.GetRColor | rust/src/modular_msg.rs:17 | returns real color `idx` |
| RenderBlock.RenderState.SetData | rust/src/modular_msg.rs:18 | replaces data buffer `idx` and nothing else |
| RenderBlock.RenderState.GetData | rust/src/modular_msg.rs:18 | returns data buffer `idx` |
| RenderBlock.RenderState.FromObj | rust/src/render_block.rs:82-117 | returns exactly when all three lists load; each list replaces its container, and a container replaced before a panic stays replaced; real colors and data are untouched |
| RenderBlock.RenderState.FillScalars | rust/src/render_block.rs:88-96 | the `float` list replaces the scalars, element by element; nothing else changes |
| RenderBlock.RenderState.FillPositions | rust/src/render_block.rs:98-106 | the `positions` list replaces the positions; nothing else changes |
| RenderBlock.RenderState.FillColors | rust/src/render_block.rs:108-116 | the `colors` list replaces the colors; nothing else changes |
| RenderBlock.FromObjContents | rust/src/render_block.rs:93-96 | the loaded scalars have the list's length and scalar `k` is element `k` |
| RenderBlock.FromObjPanics | rust/src/render_block.rs:83-112 | a `vars` that is not an object, or a list that is missing or not an array, panics |
| ModularMsg.ScalarIntoMessage | rust/src/modular_msg.rs:32-36 | the message targets the scalars at `index` with `value` |
| ModularMsg.PositionIntoMessage | rust/src/modular_msg.rs:38-42 | the message targets the positions at `index` with `value` |
| ModularMsg.ColorIntoMessage | rust/src/modular_msg.rs:44-48 | the message targets the colors at `index` with `value` |
| ModularMsg.RealColorIntoMessage | rust/src/modular_msg.rs:50-54 | the message targets the real colors at `index` with `value` |
| ModularMsg.DataIntoMessage | rust/src/modular_msg.rs:56-60 | the message targets the data buffers at `index` with `value` |
| ModularMsg.IntoMessageInjective | rust/src/modular_msg.rs:32-60 | each of the five `into_message` functions is injective: a message determines its index and value |
| ModularMsg.IntoMessageVariantsDistinct | rust/src/modular_msg.rs:10-60 | messages of different value types target different containers, for all ten pairs of types |
| Constants.FrameSizeFacts | rust/src/constants.rs:4-12 | a frame is 8496 bytes, a whole number of 16-bit words, fits the FIFO window and the driver buffer; the string count is even |
| Constants.FbPixel | rust/src/fb.rs:69 | inverts the serpentine layout to a pixel of the panel |
| Constants.FbIdxInFrame | rust/src/fb.rs:69-74 | every LED address is a whole LED inside the frame |
| Constants.FbPixelOfFbIdx | rust/src/fb.rs:69 | the pixel at an LED's address is that LED |
| Constants.FbIdxOfFbPixel | rust/src/fb.rs:69 | every LED slot of the frame is some LED's address |
| Constants.FbIdxInjective | rust/src/fb.rs:69 | distinct LEDs have distinct addresses |
| Constants.FbIdxDisjoint | rust/src/fb.rs:69-74 | distinct LEDs own disjoint three-byte cells |
| Fb.HypothesesHold | rust/src/fb.rs:27-29 | the scanner's hypotheses are met by the model's own factory and block semantics |
| Fb.Serpentine | rust/src/fb.rs:69 | every LED's cell lies inside the frame |
| Fb.LoadVars | rust/src/fb.rs:19 | loads exactly when the three lists load, with those lists; real colors and data are kept |
| Fb.Configure | rust/src/fb.rs:18-30 | succeeds exactly when `vars` loads, `primitives` is an array and every descriptor builds; the blocks are the descriptors', in order |
| Fb.ConfigureWellFormed | rust/src/fb.rs:26-29 | every block of an accepted configuration is well formed |
| Fb.Descriptors | rust/src/fb.rs:21-24 | the descriptors of a block list, in order |
| Fb.ConfigureRebuildsBlocks | rust/src/fb.rs:18-30 | a configuration written from a block list gives back that list |
| Fb.UpdateCfg | rust/src/fb.rs:18-30 | the live update agrees with `Configure` and leaves well-formed blocks |
| Fb.RunBlocksShape | rust/src/fb.rs:65-67 | running the blocks keeps the store's shape, its positions and its data |
| Fb.RunBlocksAppend | rust/src/fb.rs:65-67 | running `a + b` is running `a` and then `b` |
| Fb.ExecuteAll | rust/src/fb.rs:65-67 | the in-place block loop agrees with running the blocks in order |
| Fb.SetScalar | rust/src/fb.rs:59-63 | succeeds exactly on an existing slot; writes it and keeps the colors and the shape |
| Fb.Pixel | rust/src/fb.rs:63-74 | the body of the inner loop for one LED keeps the frame's size |
| Fb.PixelWrites | rust/src/fb.rs:63-74 | an LED renders exactly when scalar 2 exists and the blocks leave a color 0; its color 0 goes blue, red, green to `fb_idx(x, y)` and nothing else changes |
| Fb.Column | rust/src/fb.rs:62-75 | the inner loop keeps the frame's size; what it paints is stated by `Fb.ColumnShowsOwnRuns` |
| Fb.Scan | rust/src/fb.rs:60-76 | the outer loop keeps the frame's size; what it paints is stated by `Fb.ScanShowsOwnRuns` |
| Fb.Frame | rust/src/fb.rs:59-76 | one frame's rendering keeps the frame's size; what it paints is stated by `Fb.FrameShowsOwnRuns` |
| Fb.Entering | rust/src/fb.rs:59-63 | the store the LED `(x, y)` starts from: the store left by the previous LED of the scan (by the frame's own store for the first), with scalar 1 set to `x` when a column begins |
| Fb.RunAt | rust/src/fb.rs:59-71 | the store left by LED `(x, y)`'s own run, when the scan reaches and passes it: it is the blocks run on the entering store with scalar 2 set to `y`, and it holds a color 0 |
| Fb.ColumnShowsOwnRuns | rust/src/fb.rs:62-75 | for any blocks, a column that completes leaves the store of its last LED's run, and every LED up to the column's end shows color 0 of the store its own run left |
| Fb.ScanShowsOwnRuns | rust/src/fb.rs:60-76 | for any blocks, a scan that completes leaves the store of the last LED's run, and every LED shows color 0 of the store its own run left |
| Fb.FrameShowsOwnRuns | rust/src/fb.rs:59-76 | for any blocks, a frame that renders leaves the store of the last LED's run, and every LED of the frame buffer shows, at `fb_idx(x, y)`, color 0 of the store its own run left |
| Fb.FrameNeedsThreeScalars | rust/src/fb.rs:59-63 | a store with fewer than three scalars cannot render a frame |
| Fb.FrameNeedsAColor | rust/src/fb.rs:71 | a store without colors cannot render a frame |
| Fb.SerpentineLayout | rust/src/fb.rs:69-74 | the serpentine layout fits the frame and separates the LEDs |
| Fb.ColumnStatic | rust/src/fb.rs:62-75 | without blocks, the inner loop paints its column with color 0 and keeps the LEDs before |
| Fb.ScanStatic | rust/src/fb.rs:60-76 | without blocks, the outer loop paints every LED with color 0 |
| Fb.FrameStatic | rust/src/fb.rs:59-76 | without blocks, every LED of the frame shows color 0 |
| Fb.RenderPixel | rust/src/fb.rs:63-74 | the in-place LED body agrees with `Pixel` |
| Fb.RenderColumn | rust/src/fb.rs:62-75 | the in-place inner loop agrees with `Column` |
| Fb.RenderFrame | rust/src/fb.rs:59-76 | the in-place frame agrees with `Frame` |
| Fb.RenderLeds | rust/src/fb.rs:60-76 | the in-place outer loop agrees with `Scan` |
| Fb.RenderLed | rust/src/fb.rs:60-76 | one outer iteration agrees with `Scan` from that LED |
| Fb.Step | rust/src/fb.rs:53-81 | one iteration of the frame loop keeps the frame's size |
| Fb.IterateIsStep | rust/src/fb.rs:52-82 | the loop-step hypothesis can be met |
| Fb.Blank | rust/src/fb.rs:44 | `fill(0)` leaves every byte 0 |
| Fb.FrameTotal | rust/src/fb.rs:52 | `frame_cnt` frames, or the bound of an unbounded run when it is 0 |
| Fb.NoConfigPanics | rust/src/fb.rs:46-59 | without a configuration before the first frame the render thread panics, since the new store is empty |
| Fb.ConfigTakesEffect | rust/src/fb.rs:54-57 | a configuration arriving before a frame renders that frame with its blocks and its store |
| Fb.Fill | rust/src/fb.rs:44 | every byte becomes `v` |
| Fb.FrameStep | rust/src/fb.rs:53-81 | one live iteration agrees with `Step` and keeps the blocks well formed |
| Fb.RunFrame | rust/src/fb.rs:53-81 | one live iteration is the first step of `Run` |
| Fb.FrameLoop | rust/src/fb.rs:51-82 | the live loop renders `total` frames exactly when `Run` does not panic |
| Fb.FbMain | rust/src/fb.rs:43-92 | `fb_main` renders `FrameTotal` frames exactly when `Run` from the empty store does not panic, and leaves the buffer blank |
| LedDriver.ChunksShape | kmod/led-driver.c:52-85 | the flush cuts the buffer into ceil(size/4096) contiguous transfers from the start, all full pages but the last, none empty, moving `size` bytes |
| LedDriver.ChunksEnd | kmod/led-driver.c:53-55 | the last transfer ends at the buffer's end |
| LedDriver.ValidSizeAtMostFourChunks | kmod/led-driver.c:46-59 | an accepted size needs one to four transfers |
| LedDriver.FrameChunks | kmod/led-driver.c:55-85 | a whole frame goes out as two pages and a 304-byte tail |
| LedDriver.FirstFailureFrom | kmod/led-driver.c:62-82 | the first refused descriptor from `k` on, or `n` |
| LedDriver.FirstFailure | kmod/led-driver.c:62-82 | the first refused descriptor, or `n` when none is |
| LedDriver.IoctlRejectsSize | kmod/led-driver.c:43-50 | a zero or oversized size returns -EINVAL, forgets the size and sends nothing |
| LedDriver.IoctlSends | kmod/led-driver.c:52-88 | when the engine accepts every descriptor, all chunks are submitted and released and 0 is returned |
| LedDriver.IoctlStopsAtFailure | kmod/led-driver.c:69-82 | at the first refused descriptor the flush returns -ENXIO or -EINVAL, keeps what it submitted and releases nothing |
| LedDriver.IoctlResults | kmod/led-driver.c:36-89 | the flush returns 0, -ENXIO or -EINVAL, releases only on 0, adds at most four descriptors and never touches the counter |
| LedDriver.SizeRemembered | kmod/led-driver.c:43-45 | a size once accepted is reused by a later flush with parameter 0 |
| LedDriver.MmapChecks | kmod/led-driver.c:105-148 | a nonzero offset or oversized mapping returns -EINVAL and changes nothing; otherwise size and counter are cleared, and the result is 0 exactly when the remap succeeds |
| LedDriver.MmapThenBareFlush | kmod/led-driver.c:43-50 | after `mmap`, a flush with parameter 0 is refused |
| LedDriver.CallbacksCount | kmod/led-driver.c:30-34 | `n` completions add `n` to the counter and change nothing else |
| LedDriver.FrameFlushCountsThree | kmod/led-driver.c:30-86 | flushing one frame makes three transfers, so the counter moves by three per frame |
| LedDriver.LedFb.constructor | kmod/led-driver.c:14-22 | a fresh device has no size, a zero counter and nothing submitted |
| LedDriver.LedFb.Ioctl | kmod/led-driver.c:36-89 | the live ioctl agrees with `IoctlStep` |
| LedDriver.LedFb.Flush | kmod/led-driver.c:52-88 | the live transfer loop agrees with `FlushStep` |
| LedDriver.LedFb.Mmap | kmod/led-driver.c:105-148 | the live mmap agrees with `MmapStep` |
| LedDriver.LedFb.Callback | kmod/led-driver.c:30-34 | the live callback adds one to the counter |
| Utils.WordViewCoversFrame | scripts/constants.py:22-23 | the 32-bit word view covers the frame exactly |
| Utils.PlainIdx | scripts/animation/default.py:17-19 | the plain address of an LED is a whole LED inside the frame |
| Utils.PlainPixel | scripts/animation/default.py:17 | inverts the plain address to a pixel of the panel |
| Utils.PlainPixelOfPlainIdx | scripts/animation/default.py:17-19 | the byte `c` of an LED's plain cell belongs to that LED and is its channel `c` |
| Utils.PlainIdxOfPlainPixel | scripts/animation/default.py:17-19 | every cell of the frame is some LED's plain cell |
| Utils.CellSource | scripts/utils.py:44-59 | where `interpolate_into` takes the cell it writes at position `p` from |
| Utils.SourceByte | scripts/utils.py:44-59 | where it takes byte `k` from, in the same channel |
| Utils.Interpolated | scripts/utils.py:44-59 | the reordered frame has the frame's size |
| Utils.InterpolatedPlacesPixel | scripts/utils.py:44-59 | channel `c` of the LED at plain address `(x, y)` lands at its serpentine address `fb_idx(x, y)` |
| Utils.SourceByteInjective | scripts/utils.py:44-59 | no source byte is copied twice |
| Utils.SourceByteOnto | scripts/utils.py:44-59 | every source byte is copied |
| Utils.FirstHalfSource | scripts/utils.py:46-50 | the first half takes every second plain cell |
| Utils.SecondHalfSource | scripts/utils.py:51-59 | the second half takes the odd strings, last LED first |
| Utils.InterpolateInto | scripts/utils.py:44-59 | the loops leave the reordered frame |
| Utils.CopyEvenStrings | scripts/utils.py:46-50 | the first loop fills the first half |
| Utils.CopyOddStrings | scripts/utils.py:53-59 | one pass of the inner second-half loop fills the next twelve cells |
| Utils.CopyCell | scripts/utils.py:56-59 | one copy writes three bytes and nothing else |
| Utils.FillWords | scripts/animation/default.py:12 | clearing through the word view zeroes every byte |
| DefaultAnimation.Pattern | scripts/animation/default.py:11-23 | the pattern has the frame's size |
| DefaultAnimation.PatternPixel | scripts/animation/default.py:18-23 | a lit LED holds 0x20 in all three channels; every byte of an unlit LED is 0 |
| DefaultAnimation.LitParity | scripts/animation/default.py:18 | whether an LED is lit depends on the frame only through its parity |
| DefaultAnimation.PatternParity | scripts/animation/default.py:11-23 | the pattern alternates between two frames |
| DefaultAnimation.LitEveryEighth | scripts/animation/default.py:18 | along a string the lit LEDs are eight apart |
| DefaultAnimation.DrawnStep | scripts/animation/default.py:18-23 | visiting an LED changes only its three bytes, to 0x20 when it is lit |
| DefaultAnimation.DrawLed | scripts/animation/default.py:18-23 | one inner iteration extends the drawn region by that LED |
| DefaultAnimation.DrawnNextString | scripts/animation/default.py:13-14 | after the last LED of one string comes the next string |
| DefaultAnimation.DrawnAll | scripts/animation/default.py:13-14 | after the last string the whole pattern is drawn |
| DefaultAnimation.Render | scripts/animation/default.py:11-23 | `render` leaves exactly the pattern |
| SequenceAnimation.Cell | scripts/animation/sequence.py:21 | the lit cell is in the panel, and is the frame number during the first cycle |
| SequenceAnimation.Walk | scripts/animation/sequence.py:19-24 | the frame has the frame's size |
| SequenceAnimation.WalkLightsOneCell | scripts/animation/sequence.py:20-24 | exactly the three bytes of one cell hold 0x20, all others 0 |
| SequenceAnimation.WalkPeriodic | scripts/animation/sequence.py:21 | the walk repeats after every LED of the panel |
| SequenceAnimation.WalkAdvances | scripts/animation/sequence.py:21 | each frame lights the next cell, wrapping after the last |
| SequenceAnimation.Render | scripts/animation/sequence.py:19-24 | `render` leaves exactly the walk's frame |

## Left out

- Display I/O. `LedDisplay::new`, `read_id`, `empty_count`, `borrow_fb`, `flush` and the sleeps of `fb_main` touch hardware and time. The model keeps the frame buffer only; after the loop it blanks the buffer once, and the wait for the FIFO to drain is not modelled.
- The configuration channel. `try_recv` on the broadcast channel becomes the sequence `inbox` of what arrives before each frame. Threads, the HTTP server and the async runtime are outside the model.
- Fb.FbMain and Fb.FrameTotal: `frame_cnt == 0` asks for an endless loop, so the model runs a given number `limit` of frames. The `u32` frame counter and its conversion to `f32` are exact, so the model has no wrap after 2^32 frames and no rounding of large frame numbers.
- Floating point. `f32` arithmetic is modelled by exact reals. `round`, `floor`, `clamp`, `abs` and `rem_euclid` are written out. Rounding errors, NaN and infinities are not modelled, with one exception: the division by zero in `ColorInterp`'s code as written, where `Blend` gives the effect on colors.
- `f32::pow` (in `gamma` and `dither`) is a function parameter, because it is a foreign routine. The gamma and dither lemmas state only what holds for every `pow`, or for a `pow` with the properties they require.
- Base64 decoding of `Data` values is a parameter `decode`.
- Constants.FbIdx: `constants::fb_idx` is not part of this model. `fb.rs` takes the layout as a parameter, and the serpentine layout of `scripts/utils.py` stands in for it.
- VarTypes.ColorScaleInt: its contract states only factor 1 (the color itself) and factors in [-8421504, 0] (black). A factor below that range can wrap to a positive product, which is not black. `ScaleChannelInt` gives the clamped product whenever it does not overflow. The wrap of an overflowing `i32` product follows a release build; a debug build would panic there instead.
- Blocks.Apply: for `color_interp` it dispatches the corrected `ColorInterp.Apply`, not the code as written (`ColorInterp.ApplyAsWritten`). `Fb.IsSemantics` is defined by `Blocks.Apply`, so every theorem of `Fb` is about the program with that fix, and none is about the misread slots.
- Blocks.Execute: for the same reason it calls the corrected `ColorInterp.Execute`; the in-place code as written is `ColorInterp.ExecuteAsWritten`.
- ColorInterp.Execute: the intended block, proved equal to the corrected `Apply`. The code as it stands is `ExecuteAsWritten`/`ApplyAsWritten`; the two agree when the break points and colors are slots `0, 1, ..` (`ColorInterp.AsWrittenAgreesOnIdentityLayout`).
- ImageLookup is modelled, but it is not one of the block kinds. `blocks/mod.rs` neither declares nor registers it, so `Blocks.Factory` refuses `"image_lookup"` (`Blocks.ImageLookupUnregistered`).
- ImageLookup.Locate: `to_isize().unwrap()` cannot fail on the coordinates it sees, which are finite and bounded by the clamped side. The model therefore has no panic there.
- RenderBlock.RenderState.FromObj: real colors and data buffers are never loaded from `vars`, because `from_obj` reads only `float`, `positions` and `colors`.
- The JSON parser. Configurations are already values of the `Json` datatype.
- LedDriver: these are not modelled:
  - the DMA engine, whose answers are the parameters `prepOk` and `submitOk`;
  - the page-table remap, whose answer is `remapOk`;
  - `phys_mem_access_prot`, `virt_to_pfn` and logging;
  - module init and cleanup, `open_ledfb` and the file operations table;
  - concurrency between the callback and the ioctl.

  Bus addresses, `frame` and the mmap `offset` are unbounded integers. So
  the model has no overflow of the `int` counter or of
  `src_handle + fb_size`. It also has none of the `phys_addr_t` shift
  `vm_pgoff << PAGE_SHIFT` (led-driver.c line 108). With a 32-bit
  `phys_addr_t`, a large page offset could shift to 0 and pass the
  offset check; `LedDriver.MmapStep` refuses every nonzero `pgoff`.
- Utils.InterpolateInto: it requires an image of at least a frame's bytes. The Python code would raise `IndexError` on a shorter list part-way through copying; the model does not cover that partial write.
- DefaultAnimation.Render and SequenceAnimation.Render: they require a buffer of exactly one frame, which is the size `numpy` allocates in the callers. `init`, `add_args` and `set_args` do nothing and are not modelled.

## Findings

| source | as written | input that shows it | evidently intended | confidence | as-written member | corrected member |
|---|---|---|---|---|---|---|
| rust/src/blocks/color_interp.rs:65-72 | with `i` one less than the position found in `point_idxs`, it reads scalars `i` and `i + 1` and colors `i` and `i + 1` directly, not `point_idxs[i]`, `point_idxs[i+1]`, `color_idxs[i]` and `color_idxs[i+1]` | `color_idxs = [1, 2, 3]`, `point_idxs = [3, 4, 5]`, value slot 6; scalars `[0, 0, 0, -1, 0, 1, 0.5]`; colors `[black, black, red, blue]`. The value 0.5 lies between break points 1 and 2 (values 0 and 1), whose colors are red and blue, but the code divides by scalar 2 minus scalar 1, which is zero, and writes saturated red | the even mix `(128, 0, 128)` of the two bracketing colors | not executed | ColorInterp.ApplyAsWritten, ColorInterp.AsWrittenMisreadsSlots | ColorInterp.Apply, ColorInterp.CorrectedMixesEvenly |
