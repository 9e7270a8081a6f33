/** `fb.rs`: the frame scanner. A configuration replaces the variable store
    and the list of render blocks; every frame binds the frame number, the
    LED index and the string index to scalars 0, 1 and 2, runs the blocks
    once per LED, and writes color 0 into the frame buffer, blue first.

    The scanner is specified over three function parameters: `apply`, what
    one block does to the store (it agrees with `Blocks.Apply` on every
    well-formed block), `factory`, how one descriptor becomes a block (it
    agrees with `Blocks.Factory`), and `fbIdx`, the byte offset of an LED.
    The flush to the display is not part of this model. */
module Fb {
  import opened Json
  import opened VarTypes
  import opened RenderBlock
  import opened Constants
  import opened Blocks

  type Semantics = (Block, Store) -> Result<Store>
  type Builder = Json -> Result<Block>
  type Layout = (nat, nat) -> nat

  /** Every block of the list satisfies its constructor's invariant. */
  predicate AllWellFormed(bs: seq<Block>) {
    forall k :: 0 <= k < |bs| ==> WellFormed(bs[k])
  }

  /** `apply` is `RenderBlock::execute` with power function `pow`. */
  ghost predicate IsSemantics(apply: Semantics, pow: (real, real) -> real) {
    forall b, s {:trigger Blocks.Apply(b, s, pow)} :: WellFormed(b) ==> apply(b, s) == Blocks.Apply(b, s, pow)
  }

  /** `factory` is `block_factory`. */
  ghost predicate IsFactory(factory: Builder) {
    forall v {:trigger Factory(v)} :: factory(v) == Factory(v)
  }

  /** The block semantics as a function value. */
  function Execution(pow: (real, real) -> real): (apply: Semantics) {
    (b, s) => if WellFormed(b) then Blocks.Apply(b, s, pow) else Panic
  }

  /** Both hypotheses can be met, by the model's own block semantics and
      factory. */
  lemma HypothesesHold(pow: (real, real) -> real)
    ensures IsSemantics(Execution(pow), pow)
    ensures IsFactory(Factory)
  {
  }

  /** The contract `fb_idx` keeps: three bytes at the offset of each LED
      lie inside the frame. */
  ghost predicate FbIdxFits(fbIdx: Layout) {
    forall x: nat, y: nat :: IsPixel(x, y) ==> fbIdx(x, y) + 3 <= FRAME_SIZE_BYTES
  }

  /** The serpentine layout of `constants::fb_idx`, made total; it meets
      the contract the scanner relies on. */
  function Serpentine(x: nat, y: nat): (idx: nat)
    ensures IsPixel(x, y) ==> idx + 3 <= FRAME_SIZE_BYTES
  {
    if IsPixel(x, y) then FbIdxInFrame(x, y); FbIdx(x, y) else 0
  }

  // ---------------------------------------------------------------------
  // update_cfg

  /** `state.from_obj(vars)`, when it returns: the three lists replace the
      store's scalars, positions and colors. */
  function LoadVars(v: Json, s: Store): (r: Result<Store>)
    ensures r.Ok? <==> Floats(v).Ok? && Positions(v).Ok? && Colors(v).Ok?
    ensures r.Ok? ==> r.value.scalars == Floats(v).value && r.value.positions == Positions(v).value
                      && r.value.colors == Colors(v).value
    ensures r.Ok? ==> r.value.rcolors == s.rcolors && r.value.data == s.data
  {
    var f :- Floats(v);
    var p :- Positions(v);
    var c :- Colors(v);
    Ok(s.(scalars := f, positions := p, colors := c))
  }

  /** `update_cfg` on store `s`: the new store and the new block list. It
      panics when `vars` is missing or does not load, when `primitives` is
      missing or not an array, or when one descriptor is refused. The
      blocks are those of the descriptors, in order. */
  function Configure(factory: Builder, cfg: Object, s: Store): (r: Result<(Store, seq<Block>)>)
    ensures r.Ok? <==> "vars" in cfg && LoadVars(cfg["vars"], s).Ok?
                       && "primitives" in cfg && cfg["primitives"].JArr?
                       && forall k :: 0 <= k < |cfg["primitives"].items| ==> factory(cfg["primitives"].items[k]).Ok?
    ensures r.Ok? ==> r.value.0 == LoadVars(cfg["vars"], s).value
    ensures r.Ok? ==> |r.value.1| == |cfg["primitives"].items|
                      && forall k :: 0 <= k < |r.value.1| ==> factory(cfg["primitives"].items[k]) == Ok(r.value.1[k])
  {
    if "vars" !in cfg then Panic
    else
      var s1 :- LoadVars(cfg["vars"], s);
      var items :- ArrayField(cfg, "primitives");
      var bs :- ParseEach(items, factory);
      Ok((s1, bs))
  }

  /** The blocks of an accepted configuration are well formed. */
  lemma ConfigureWellFormed(factory: Builder, cfg: Object, s: Store)
    requires IsFactory(factory) && Configure(factory, cfg, s).Ok?
    ensures AllWellFormed(Configure(factory, cfg, s).value.1)
  {
    var items := cfg["primitives"].items;
    var bs := Configure(factory, cfg, s).value.1;
    forall k | 0 <= k < |bs| ensures WellFormed(bs[k]) {
      assert Factory(items[k]) == Ok(bs[k]);
    }
  }

  /** The descriptors of a block list, as `primitives` holds them. */
  function Descriptors(bs: seq<Block>): (r: seq<Json>)
    ensures |r| == |bs| && forall k :: 0 <= k < |bs| ==> r[k] == JObj(Blocks.ToObj(bs[k]))
  {
    seq(|bs|, k requires 0 <= k < |bs| => JObj(Blocks.ToObj(bs[k])))
  }

  /** A configuration written from a list of well-formed blocks gives back
      exactly that list. */
  lemma ConfigureRebuildsBlocks(factory: Builder, vars: Json, bs: seq<Block>, s: Store)
    requires IsFactory(factory) && LoadVars(vars, s).Ok? && AllWellFormed(bs)
    ensures Configure(factory, map["vars" := vars, "primitives" := JArr(Descriptors(bs))], s)
            == Ok((LoadVars(vars, s).value, bs))
  {
    var cfg := map["vars" := vars, "primitives" := JArr(Descriptors(bs))];
    var items := Descriptors(bs);
    forall k | 0 <= k < |items| ensures factory(items[k]) == Ok(bs[k]) {
      FactoryRoundTrip(bs[k]);
    }
    var r := Configure(factory, cfg, s);
    assert r.Ok?;
    assert r.value.1 == bs;
  }

  /** The imperative `update_cfg`: `from_obj`, then the block list cleared
      and refilled one descriptor at a time. `ok` is false where the Rust
      code panics. */
  method UpdateCfg(cfg: Object, state: RenderState, ghost factory: Builder) returns (ok: bool, blocks: seq<Block>)
    requires IsFactory(factory)
    modifies state
    ensures ok == Configure(factory, cfg, old(state.Value())).Ok?
    ensures ok ==> state.Value() == Configure(factory, cfg, old(state.Value())).value.0
                   && blocks == Configure(factory, cfg, old(state.Value())).value.1
    ensures ok ==> AllWellFormed(blocks)
  {
    ghost var s0 := state.Value();
    blocks := [];
    if "vars" !in cfg {
      return false, blocks;
    }
    ok := state.FromObj(cfg["vars"]);
    if !ok {
      return;
    }
    assert state.Value() == LoadVars(cfg["vars"], s0).value;
    if !("primitives" in cfg && cfg["primitives"].JArr?) {
      return false, blocks;
    }
    var list := cfg["primitives"].items;
    for i := 0 to |list|
      invariant |blocks| == i && AllWellFormed(blocks)
      invariant forall k :: 0 <= k < i ==> factory(list[k]) == Ok(blocks[k])
    {
      var b := Factory(list[i]);
      if b.Panic? {
        return false, blocks;
      }
      blocks := blocks + [b.value];
    }
    ok := true;
    assert blocks == Configure(factory, cfg, s0).value.1;
  }

  // ---------------------------------------------------------------------
  // Running the blocks

  /** `for block in blocks.iter_mut() { block.execute(&mut state) }`: the
      blocks in list order, each on the store the previous one left. */
  function RunBlocks(apply: Semantics, bs: seq<Block>, s: Store): (r: Result<Store>)
    decreases |bs|
  {
    if bs == [] then Ok(s)
    else
      var s1 :- apply(bs[0], s);
      RunBlocks(apply, bs[1..], s1)
  }

  /** The blocks keep the shape of the store and never write a position or
      a data buffer. */
  lemma {:induction false} RunBlocksShape(apply: Semantics, pow: (real, real) -> real, bs: seq<Block>, s: Store)
    requires IsSemantics(apply, pow) && AllWellFormed(bs) && RunBlocks(apply, bs, s).Ok?
    ensures SameShape(s, RunBlocks(apply, bs, s).value)
    ensures RunBlocks(apply, bs, s).value.positions == s.positions
    ensures RunBlocks(apply, bs, s).value.data == s.data
    decreases |bs|
  {
    if bs != [] {
      var t := Blocks.Apply(bs[0], s, pow);
      assert t == apply(bs[0], s);
      ApplyLeavesPositionsAndData(bs[0], s, pow);
      assert AllWellFormed(bs[1..]) by {
        forall k | 0 <= k < |bs| - 1 ensures WellFormed(bs[1..][k]) {
          assert bs[1..][k] == bs[k + 1];
        }
      }
      RunBlocksShape(apply, pow, bs[1..], t.value);
    }
  }

  /** Running two lists one after the other is running their
      concatenation. */
  lemma {:induction false} RunBlocksAppend(apply: Semantics, a: seq<Block>, b: seq<Block>, s: Store)
    ensures RunBlocks(apply, a + b, s) == (var t :- RunBlocks(apply, a, s); RunBlocks(apply, b, t))
    decreases |a|
  {
    if a == [] {
      assert a + b == b;
    } else {
      assert (a + b)[0] == a[0];
      assert (a + b)[1..] == a[1..] + b;
      var t := apply(a[0], s);
      if t.Ok? {
        RunBlocksAppend(apply, a[1..], b, t.value);
      }
    }
  }

  /** The imperative block loop. A block that panics ends the run. */
  method ExecuteAll(bs: seq<Block>, state: RenderState, pow: (real, real) -> real, ghost apply: Semantics)
    returns (ok: bool)
    requires AllWellFormed(bs) && IsSemantics(apply, pow)
    modifies state
    ensures ok == RunBlocks(apply, bs, old(state.Value())).Ok?
    ensures ok ==> state.Value() == RunBlocks(apply, bs, old(state.Value())).value
  {
    ghost var s0 := state.Value();
    for i := 0 to |bs|
      invariant RunBlocks(apply, bs, s0) == RunBlocks(apply, bs[i..], state.Value())
    {
      assert bs[i..][0] == bs[i] && bs[i..][1..] == bs[i + 1..];
      ok := Execute(bs[i], state, pow);
      if !ok {
        return;
      }
    }
    assert bs[|bs|..] == [];
    ok := true;
  }

  // ---------------------------------------------------------------------
  // One frame

  /** `set_scalar`, which panics on a missing slot. */
  function SetScalar(s: Store, k: nat, v: real): (r: Result<Store>)
    ensures r.Ok? <==> k < |s.scalars|
    ensures r.Ok? ==> SameShape(s, r.value) && r.value.colors == s.colors && r.value.scalars[k] == v
  {
    if k < |s.scalars| then Ok(s.(scalars := s.scalars[k := v])) else Panic
  }

  /** `out` is `fb` with color `c` at `idx`, in the order blue, red,
      green, and nothing else changed. */
  predicate Painted(out: seq<u8>, fb: seq<u8>, idx: nat, c: Color) {
    && |out| == |fb| && idx + 3 <= |fb|
    && out[idx] == c.b && out[idx + 1] == c.r && out[idx + 2] == c.g
    && forall k :: 0 <= k < |fb| && !(idx <= k < idx + 3) ==> out[k] == fb[k]
  }

  /** The LED at `(x, y)` shows color `c` in `fb`. */
  predicate Shows(fb: seq<u8>, fbIdx: Layout, x: nat, y: nat, c: Color) {
    var idx := fbIdx(x, y);
    idx + 3 <= |fb| && fb[idx] == c.b && fb[idx + 1] == c.r && fb[idx + 2] == c.g
  }

  /** The body of the inner loop for LED `(x, y)`: scalar 2 becomes `y`,
      the blocks run, and color 0 of the resulting store is written at
      `fb_idx(x, y)`. */
  function Pixel(apply: Semantics, bs: seq<Block>, s: Store, fb: seq<u8>, x: nat, y: nat,
                 fbIdx: Layout): (r: Result<(Store, seq<u8>)>)
    requires FbIdxFits(fbIdx) && IsPixel(x, y) && |fb| == FRAME_SIZE_BYTES
    ensures r.Ok? ==> |r.value.1| == FRAME_SIZE_BYTES
  {
    var s1 :- SetScalar(s, 2, y as real);
    var s2 :- RunBlocks(apply, bs, s1);
    if |s2.colors| == 0 then Panic
    else
      var c := s2.colors[0];
      var idx := fbIdx(x, y);
      Ok((s2, fb[idx := c.b][idx + 1 := c.r][idx + 2 := c.g]))
  }

  /** One LED: it renders exactly when scalar 2 exists and the blocks run
      through on the store with scalar 2 bound to the string index and
      leave a color 0; it then leaves the store the blocks computed and
      writes that store's color 0 at `fb_idx(x, y)` and nowhere else. */
  lemma PixelWrites(apply: Semantics, bs: seq<Block>, s: Store, fb: seq<u8>, x: nat, y: nat, fbIdx: Layout)
    requires FbIdxFits(fbIdx) && IsPixel(x, y) && |fb| == FRAME_SIZE_BYTES
    ensures var r := Pixel(apply, bs, s, fb, x, y, fbIdx);
            r.Ok? <==> |s.scalars| > 2 && var run := RunBlocks(apply, bs, s.(scalars := s.scalars[2 := y as real]));
                       run.Ok? && |run.value.colors| > 0
    ensures var r := Pixel(apply, bs, s, fb, x, y, fbIdx);
            r.Ok? ==> r.value.0 == RunBlocks(apply, bs, s.(scalars := s.scalars[2 := y as real])).value
                      && |r.value.0.colors| > 0
                      && Painted(r.value.1, fb, fbIdx(x, y), r.value.0.colors[0])
  {
  }

  /** The inner loop from string `y` on, for LED `x`. */
  function Column(apply: Semantics, bs: seq<Block>, s: Store, fb: seq<u8>, x: nat, y: nat,
                  fbIdx: Layout): (r: Result<(Store, seq<u8>)>)
    requires FbIdxFits(fbIdx) && x < LED_COUNT && y <= STRING_COUNT && |fb| == FRAME_SIZE_BYTES
    ensures r.Ok? ==> |r.value.1| == FRAME_SIZE_BYTES
    // `fb` in the measure keeps the verifier from unrolling the loop
    // whenever the start index is a literal
    decreases STRING_COUNT - y, fb
  {
    if y == STRING_COUNT then Ok((s, fb))
    else
      var p :- Pixel(apply, bs, s, fb, x, y, fbIdx);
      Column(apply, bs, p.0, p.1, x, y + 1, fbIdx)
  }

  /** One step of the inner loop: string `y` and then the strings after it. */
  lemma ColumnUnfolds(apply: Semantics, bs: seq<Block>, s: Store, fb: seq<u8>, x: nat, y: nat, fbIdx: Layout)
    requires FbIdxFits(fbIdx) && IsPixel(x, y) && |fb| == FRAME_SIZE_BYTES
    ensures var p := Pixel(apply, bs, s, fb, x, y, fbIdx);
            Column(apply, bs, s, fb, x, y, fbIdx)
            == if p.Ok? then Column(apply, bs, p.value.0, p.value.1, x, y + 1, fbIdx) else Panic
  {
  }

  /** The outer loop from LED `x` on: scalar 1 becomes the LED index, then
      the inner loop runs. */
  function Scan(apply: Semantics, bs: seq<Block>, s: Store, fb: seq<u8>, x: nat,
                fbIdx: Layout): (r: Result<(Store, seq<u8>)>)
    requires FbIdxFits(fbIdx) && x <= LED_COUNT && |fb| == FRAME_SIZE_BYTES
    ensures r.Ok? ==> |r.value.1| == FRAME_SIZE_BYTES
    decreases LED_COUNT - x, fb
  {
    if x == LED_COUNT then Ok((s, fb))
    else
      var s1 :- SetScalar(s, 1, x as real);
      var c :- Column(apply, bs, s1, fb, x, 0, fbIdx);
      Scan(apply, bs, c.0, c.1, x + 1, fbIdx)
  }

  /** One step of the outer loop: LED `x` and then the LEDs after it. */
  lemma ScanUnfolds(apply: Semantics, bs: seq<Block>, s: Store, fb: seq<u8>, x: nat, fbIdx: Layout)
    requires FbIdxFits(fbIdx) && x < LED_COUNT && |fb| == FRAME_SIZE_BYTES && |s.scalars| > 1
    requires Column(apply, bs, s.(scalars := s.scalars[1 := x as real]), fb, x, 0, fbIdx).Ok?
    ensures var col := Column(apply, bs, s.(scalars := s.scalars[1 := x as real]), fb, x, 0, fbIdx).value;
            Scan(apply, bs, s, fb, x, fbIdx) == Scan(apply, bs, col.0, col.1, x + 1, fbIdx)
  {
  }

  /** One pass of the frame loop's rendering: scalar 0 becomes the frame
      number, then every LED is rendered, LED-major. */
  function Frame(apply: Semantics, bs: seq<Block>, s: Store, fb: seq<u8>, frame: nat,
                 fbIdx: Layout): (r: Result<(Store, seq<u8>)>)
    requires FbIdxFits(fbIdx) && |fb| == FRAME_SIZE_BYTES
    ensures r.Ok? ==> |r.value.1| == FRAME_SIZE_BYTES
  {
    var s1 :- SetScalar(s, 0, frame as real);
    Scan(apply, bs, s1, fb, 0, fbIdx)
  }

  /** The frame number goes to scalar 0, then the outer loop runs from the first LED. */
  lemma FrameUnfolds(apply: Semantics, bs: seq<Block>, s: Store, fb: seq<u8>, frame: nat, fbIdx: Layout)
    requires FbIdxFits(fbIdx) && |fb| == FRAME_SIZE_BYTES
    ensures Frame(apply, bs, s, fb, frame, fbIdx)
            == if |s.scalars| == 0 then Panic
               else Scan(apply, bs, s.(scalars := s.scalars[0 := frame as real]), fb, 0, fbIdx)
  {
  }

  /** A store with fewer than three scalars cannot render a frame: the
      first LED already panics in `set_scalar`. The empty store of
      `RenderState::new` is such a store. */
  lemma FrameNeedsThreeScalars(apply: Semantics, bs: seq<Block>, s: Store, fb: seq<u8>, frame: nat, fbIdx: Layout)
    requires FbIdxFits(fbIdx) && |fb| == FRAME_SIZE_BYTES
    requires |s.scalars| < 3
    ensures Frame(apply, bs, s, fb, frame, fbIdx).Panic?
  {
    if |s.scalars| > 1 {
      var s1 := s.(scalars := s.scalars[0 := frame as real]);
      var s2 := s1.(scalars := s1.scalars[1 := 0 as real]);
      assert Pixel(apply, bs, s2, fb, 0, 0, fbIdx).Panic?;
      assert Column(apply, bs, s2, fb, 0, 0, fbIdx).Panic?;
    }
  }

  /** A store without colors cannot render a frame: color 0 is read for
      the first LED, and no block adds a color. */
  lemma FrameNeedsAColor(apply: Semantics, pow: (real, real) -> real, bs: seq<Block>, s: Store, fb: seq<u8>,
                         frame: nat, fbIdx: Layout)
    requires IsSemantics(apply, pow) && AllWellFormed(bs) && FbIdxFits(fbIdx) && |fb| == FRAME_SIZE_BYTES
    requires |s.colors| == 0
    ensures Frame(apply, bs, s, fb, frame, fbIdx).Panic?
  {
    if |s.scalars| > 2 {
      var s1 := s.(scalars := s.scalars[0 := frame as real]);
      var s2 := s1.(scalars := s1.scalars[1 := 0 as real]);
      var s3 := s2.(scalars := s2.scalars[2 := 0 as real]);
      if RunBlocks(apply, bs, s3).Ok? {
        RunBlocksShape(apply, pow, bs, s3);
      }
      assert Pixel(apply, bs, s2, fb, 0, 0, fbIdx).Panic?;
      assert Column(apply, bs, s2, fb, 0, 0, fbIdx).Panic?;
    }
  }

  /** LED `(px, py)` comes before LED `(x, y)` in the scan order. */
  predicate Before(px: nat, py: nat, x: nat, y: nat) {
    px < x || (px == x && py < y)
  }

  /** Every LED before `(x, y)` in the scan order shows color `c`. */
  ghost predicate ShownBefore(fb: seq<u8>, fbIdx: Layout, x: nat, y: nat, c: Color) {
    forall px: nat, py: nat :: IsPixel(px, py) && Before(px, py, x, y) ==> Shows(fb, fbIdx, px, py, c)
  }

  /** Distinct LEDs own disjoint three-byte cells. */
  ghost predicate Separated(fbIdx: Layout) {
    forall x1: nat, y1: nat, x2: nat, y2: nat ::
      IsPixel(x1, y1) && IsPixel(x2, y2) && (x1 != x2 || y1 != y2) ==>
        fbIdx(x1, y1) + 3 <= fbIdx(x2, y2) || fbIdx(x2, y2) + 3 <= fbIdx(x1, y1)
  }

  /** The serpentine layout keeps every cell inside the frame and gives
      distinct LEDs disjoint cells. */
  lemma SerpentineLayout()
    ensures FbIdxFits(Serpentine) && Separated(Serpentine)
  {
    forall x1: nat, y1: nat, x2: nat, y2: nat | IsPixel(x1, y1) && IsPixel(x2, y2) && (x1 != x2 || y1 != y2)
      ensures Serpentine(x1, y1) + 3 <= Serpentine(x2, y2) || Serpentine(x2, y2) + 3 <= Serpentine(x1, y1)
    {
      FbIdxDisjoint(x1, y1, x2, y2);
    }
  }

  /** Without blocks, the inner loop paints LEDs `y ..` of column `x` with
      color 0 and keeps the LEDs painted before. */
  lemma {:induction false} ColumnStatic(apply: Semantics, s: Store, fb: seq<u8>, x: nat, y: nat, c: Color,
                                        fbIdx: Layout)
    requires FbIdxFits(fbIdx) && Separated(fbIdx)
    requires x < LED_COUNT && y <= STRING_COUNT && |fb| == FRAME_SIZE_BYTES
    requires |s.scalars| > 2 && |s.colors| > 0 && s.colors[0] == c
    requires ShownBefore(fb, fbIdx, x, y, c)
    ensures Column(apply, [], s, fb, x, y, fbIdx).Ok?
    ensures var r := Column(apply, [], s, fb, x, y, fbIdx).value;
            r.0.colors == s.colors && |r.0.scalars| == |s.scalars| && ShownBefore(r.1, fbIdx, x + 1, 0, c)
    decreases STRING_COUNT - y
  {
    if y < STRING_COUNT {
      var s1 := s.(scalars := s.scalars[2 := y as real]);
      assert RunBlocks(apply, [], s1) == Ok(s1);
      var p := Pixel(apply, [], s, fb, x, y, fbIdx);
      PixelWrites(apply, [], s, fb, x, y, fbIdx);
      assert p.Ok? && p.value.0 == s1;
      assert ShownBefore(p.value.1, fbIdx, x, y + 1, c) by {
        forall px: nat, py: nat | IsPixel(px, py) && Before(px, py, x, y + 1)
          ensures Shows(p.value.1, fbIdx, px, py, c)
        {
          if px != x || py != y {
            assert Shows(fb, fbIdx, px, py, c);
          }
        }
      }
      ColumnStatic(apply, s1, p.value.1, x, y + 1, c, fbIdx);
      assert Column(apply, [], s, fb, x, y, fbIdx) == Column(apply, [], s1, p.value.1, x, y + 1, fbIdx);
    } else {
      assert Column(apply, [], s, fb, x, y, fbIdx) == Ok((s, fb));
      assert ShownBefore(fb, fbIdx, x + 1, 0, c) by {
        forall px: nat, py: nat | IsPixel(px, py) && Before(px, py, x + 1, 0)
          ensures Shows(fb, fbIdx, px, py, c)
        {
          assert Before(px, py, x, y);
        }
      }
    }
  }

  /** Without blocks, the outer loop from LED `x` on paints the remaining
      LEDs with color 0 and keeps those painted before. */
  lemma {:induction false} ScanStatic(apply: Semantics, s: Store, fb: seq<u8>, x: nat, c: Color, fbIdx: Layout)
    requires FbIdxFits(fbIdx) && Separated(fbIdx)
    requires x <= LED_COUNT && |fb| == FRAME_SIZE_BYTES
    requires |s.scalars| > 2 && |s.colors| > 0 && s.colors[0] == c
    requires ShownBefore(fb, fbIdx, x, 0, c)
    ensures Scan(apply, [], s, fb, x, fbIdx).Ok?
    ensures ShownBefore(Scan(apply, [], s, fb, x, fbIdx).value.1, fbIdx, LED_COUNT, 0, c)
    decreases LED_COUNT - x, 1
  {
    if x < LED_COUNT {
      ScanStaticStep(apply, s, fb, x, c, fbIdx);
    } else {
      assert Scan(apply, [], s, fb, x, fbIdx) == Ok((s, fb));
    }
  }

  /** The step of `ScanStatic` for one LED. */
  lemma {:induction false} ScanStaticStep(apply: Semantics, s: Store, fb: seq<u8>, x: nat, c: Color, fbIdx: Layout)
    requires FbIdxFits(fbIdx) && Separated(fbIdx)
    requires x < LED_COUNT && |fb| == FRAME_SIZE_BYTES
    requires |s.scalars| > 2 && |s.colors| > 0 && s.colors[0] == c
    requires ShownBefore(fb, fbIdx, x, 0, c)
    ensures Scan(apply, [], s, fb, x, fbIdx).Ok?
    ensures ShownBefore(Scan(apply, [], s, fb, x, fbIdx).value.1, fbIdx, LED_COUNT, 0, c)
    decreases LED_COUNT - x, 0
  {
    var s1 := s.(scalars := s.scalars[1 := x as real]);
    ColumnStatic(apply, s1, fb, x, 0, c, fbIdx);
    var col := Column(apply, [], s1, fb, x, 0, fbIdx).value;
    ScanUnfolds(apply, [], s, fb, x, fbIdx);
    ScanStatic(apply, col.0, col.1, x + 1, c, fbIdx);
  }

  /** A configuration without primitives shows color 0 on every LED, in
      any layout that gives distinct LEDs disjoint cells inside the frame,
      the serpentine layout among them. */
  lemma FrameStatic(apply: Semantics, s: Store, fb: seq<u8>, frame: nat, fbIdx: Layout)
    requires FbIdxFits(fbIdx) && Separated(fbIdx)
    requires |fb| == FRAME_SIZE_BYTES
    requires |s.scalars| > 2 && |s.colors| > 0
    ensures Frame(apply, [], s, fb, frame, fbIdx).Ok?
    ensures forall x: nat, y: nat :: IsPixel(x, y) ==>
              Shows(Frame(apply, [], s, fb, frame, fbIdx).value.1, fbIdx, x, y, s.colors[0])
  {
    var s1 := s.(scalars := s.scalars[0 := frame as real]);
    ScanStatic(apply, s1, fb, 0, s.colors[0], fbIdx);
    var out := Scan(apply, [], s1, fb, 0, fbIdx).value.1;
    assert Frame(apply, [], s, fb, frame, fbIdx).value.1 == out;
    forall x: nat, y: nat | IsPixel(x, y) ensures Shows(out, fbIdx, x, y, s.colors[0]) {
      assert Before(x, y, LED_COUNT, 0);
    }
  }

  // ----- What every LED shows, for any list of blocks -----

  /** The store LED `(x, y)` starts from, before scalar 2 is bound: the
      store the previous LED's run left, with scalar 1 bound to `x` when
      `(x, y)` opens an outer iteration. `s0` is the store of the frame
      after scalar 0 is bound. */
  function Entering(apply: Semantics, bs: seq<Block>, s0: Store, x: nat, y: nat): (r: Result<Store>)
    requires IsPixel(x, y)
    ensures r.Ok? && y == 0 ==> |r.value.scalars| > 1 && r.value.scalars[1] == x as real
    decreases x, y, 0
  {
    if y > 0 then RunAt(apply, bs, s0, x, y - 1)
    else
      var prev :- if x > 0 then RunAt(apply, bs, s0, x - 1, STRING_COUNT - 1) else Ok(s0);
      SetScalar(prev, 1, x as real)
  }

  /** The store the run of the blocks for LED `(x, y)` leaves: scalar 2
      bound to `y` in the store it starts from, then every block in order;
      a store without a color 0 panics at `get_color(0)`. */
  function RunAt(apply: Semantics, bs: seq<Block>, s0: Store, x: nat, y: nat): (r: Result<Store>)
    requires IsPixel(x, y)
    ensures r.Ok? ==> |r.value.colors| > 0
    ensures r.Ok? ==> Entering(apply, bs, s0, x, y).Ok?
    ensures r.Ok? ==> var e := Entering(apply, bs, s0, x, y).value;
                      |e.scalars| > 2 && r == RunBlocks(apply, bs, e.(scalars := e.scalars[2 := y as real]))
    decreases x, y, 1
  {
    var s1 :- Entering(apply, bs, s0, x, y);
    var s2 :- SetScalar(s1, 2, y as real);
    var s3 :- RunBlocks(apply, bs, s2);
    if |s3.colors| == 0 then Panic else Ok(s3)
  }

  /** Every LED before `(x, y)` in the scan order shows color 0 of the
      store its own run left. */
  ghost predicate OwnBefore(apply: Semantics, bs: seq<Block>, s0: Store, fb: seq<u8>, fbIdx: Layout, x: nat, y: nat) {
    forall px: nat, py: nat :: IsPixel(px, py) && Before(px, py, x, y) ==>
      RunAt(apply, bs, s0, px, py).Ok? && Shows(fb, fbIdx, px, py, RunAt(apply, bs, s0, px, py).value.colors[0])
  }

  /** The inner loop from string `y` of LED `x`, started from the store
      the scan order gives it, paints each of its LEDs with color 0 of
      that LED's own run and keeps the LEDs painted before; it leaves the
      store of the run of its last LED. */
  lemma {:induction false} ColumnShowsOwnRuns(apply: Semantics, bs: seq<Block>, s0: Store, s: Store, fb: seq<u8>,
                                              x: nat, y: nat, fbIdx: Layout)
    requires FbIdxFits(fbIdx) && Separated(fbIdx)
    requires x < LED_COUNT && y <= STRING_COUNT && |fb| == FRAME_SIZE_BYTES
    requires (if y < STRING_COUNT then Entering(apply, bs, s0, x, y) else RunAt(apply, bs, s0, x, STRING_COUNT - 1)) == Ok(s)
    requires OwnBefore(apply, bs, s0, fb, fbIdx, x, y)
    requires Column(apply, bs, s, fb, x, y, fbIdx).Ok?
    ensures var r := Column(apply, bs, s, fb, x, y, fbIdx).value;
            RunAt(apply, bs, s0, x, STRING_COUNT - 1) == Ok(r.0) && OwnBefore(apply, bs, s0, r.1, fbIdx, x + 1, 0)
    decreases STRING_COUNT - y
  {
    if y < STRING_COUNT {
      var p := Pixel(apply, bs, s, fb, x, y, fbIdx);
      ColumnUnfolds(apply, bs, s, fb, x, y, fbIdx);
      PixelWrites(apply, bs, s, fb, x, y, fbIdx);
      assert p.Ok?;
      assert RunAt(apply, bs, s0, x, y) == Ok(p.value.0);
      assert OwnBefore(apply, bs, s0, p.value.1, fbIdx, x, y + 1) by {
        forall px: nat, py: nat | IsPixel(px, py) && Before(px, py, x, y + 1)
          ensures RunAt(apply, bs, s0, px, py).Ok?
                  && Shows(p.value.1, fbIdx, px, py, RunAt(apply, bs, s0, px, py).value.colors[0])
        {
          if px != x || py != y {
            assert Before(px, py, x, y);
            assert Shows(fb, fbIdx, px, py, RunAt(apply, bs, s0, px, py).value.colors[0]);
          }
        }
      }
      ColumnShowsOwnRuns(apply, bs, s0, p.value.0, p.value.1, x, y + 1, fbIdx);
    } else {
      assert Column(apply, bs, s, fb, x, y, fbIdx) == Ok((s, fb));
      assert OwnBefore(apply, bs, s0, fb, fbIdx, x + 1, 0) by {
        forall px: nat, py: nat | IsPixel(px, py) && Before(px, py, x + 1, 0)
          ensures RunAt(apply, bs, s0, px, py).Ok?
                  && Shows(fb, fbIdx, px, py, RunAt(apply, bs, s0, px, py).value.colors[0])
        {
          assert Before(px, py, x, y);
        }
      }
    }
  }

  /** The outer loop from LED `x` on, started from the store the scan
      order gives it, paints every remaining LED with color 0 of its own
      run and keeps those painted before; it leaves the store of the run of
      the last LED. */
  lemma {:induction false} ScanShowsOwnRuns(apply: Semantics, bs: seq<Block>, s0: Store, s: Store, fb: seq<u8>,
                                            x: nat, fbIdx: Layout)
    requires FbIdxFits(fbIdx) && Separated(fbIdx)
    requires x <= LED_COUNT && |fb| == FRAME_SIZE_BYTES
    requires (if x == 0 then Ok(s0) else RunAt(apply, bs, s0, x - 1, STRING_COUNT - 1)) == Ok(s)
    requires OwnBefore(apply, bs, s0, fb, fbIdx, x, 0)
    requires Scan(apply, bs, s, fb, x, fbIdx).Ok?
    ensures var r := Scan(apply, bs, s, fb, x, fbIdx).value;
            RunAt(apply, bs, s0, LED_COUNT - 1, STRING_COUNT - 1) == Ok(r.0)
            && OwnBefore(apply, bs, s0, r.1, fbIdx, LED_COUNT, 0)
    decreases LED_COUNT - x
  {
    if x < LED_COUNT {
      var s1 := s.(scalars := s.scalars[1 := x as real]);
      assert |s.scalars| > 1;
      assert Entering(apply, bs, s0, x, 0) == Ok(s1);
      assert Column(apply, bs, s1, fb, x, 0, fbIdx).Ok?;
      ColumnShowsOwnRuns(apply, bs, s0, s1, fb, x, 0, fbIdx);
      var col := Column(apply, bs, s1, fb, x, 0, fbIdx).value;
      ScanUnfolds(apply, bs, s, fb, x, fbIdx);
      ScanShowsOwnRuns(apply, bs, s0, col.0, col.1, x + 1, fbIdx);
    } else {
      assert Scan(apply, bs, s, fb, x, fbIdx) == Ok((s, fb));
    }
  }

  /** A frame that renders shows, on every LED `(x, y)`, color 0 of the
      store that LED's own run of the blocks left, whatever the blocks;
      the store the frame leaves is that of the last LED's run. */
  lemma FrameShowsOwnRuns(apply: Semantics, bs: seq<Block>, s: Store, fb: seq<u8>, frame: nat, fbIdx: Layout)
    requires FbIdxFits(fbIdx) && Separated(fbIdx) && |fb| == FRAME_SIZE_BYTES
    requires Frame(apply, bs, s, fb, frame, fbIdx).Ok?
    ensures |s.scalars| > 0
    ensures var s0 := s.(scalars := s.scalars[0 := frame as real]);
            var r := Frame(apply, bs, s, fb, frame, fbIdx).value;
            && RunAt(apply, bs, s0, LED_COUNT - 1, STRING_COUNT - 1) == Ok(r.0)
            && forall x: nat, y: nat :: IsPixel(x, y) ==>
                 RunAt(apply, bs, s0, x, y).Ok? && Shows(r.1, fbIdx, x, y, RunAt(apply, bs, s0, x, y).value.colors[0])
  {
    FrameUnfolds(apply, bs, s, fb, frame, fbIdx);
    var s0 := s.(scalars := s.scalars[0 := frame as real]);
    ScanShowsOwnRuns(apply, bs, s0, s0, fb, 0, fbIdx);
    var r := Scan(apply, bs, s0, fb, 0, fbIdx).value;
    forall x: nat, y: nat | IsPixel(x, y)
      ensures RunAt(apply, bs, s0, x, y).Ok? && Shows(r.1, fbIdx, x, y, RunAt(apply, bs, s0, x, y).value.colors[0])
    {
      assert Before(x, y, LED_COUNT, 0);
    }
  }

  /** The body of the inner loop, on the live store and frame buffer. */
  method RenderPixel(bs: seq<Block>, state: RenderState, fb: array<u8>, x: nat, y: nat,
                     pow: (real, real) -> real, fbIdx: Layout, ghost apply: Semantics) returns (ok: bool)
    requires AllWellFormed(bs) && IsSemantics(apply, pow) && FbIdxFits(fbIdx)
    requires IsPixel(x, y) && fb.Length == FRAME_SIZE_BYTES
    modifies state, fb
    ensures var r := Pixel(apply, bs, old(state.Value()), old(fb[..]), x, y, fbIdx);
            ok == r.Ok? && (ok ==> state.Value() == r.value.0 && fb[..] == r.value.1)
  {
    ghost var fb0: seq<u8> := fb[..];
    if |state.scalars| <= 2 {
      return false;
    }
    state.SetScalar(2, y as real);
    ok := ExecuteAll(bs, state, pow, apply);
    if !ok {
      return;
    }
    if |state.colors| == 0 {
      return false;
    }
    var idx := fbIdx(x, y);
    var c := state.GetColor(0);
    fb[idx + 0] := c.b;
    fb[idx + 1] := c.r;
    fb[idx + 2] := c.g;
    assert fb[..] == fb0[idx := c.b][idx + 1 := c.r][idx + 2 := c.g];
  }

  /** The inner loop for LED `x`, from the first string on. */
  method RenderColumn(bs: seq<Block>, state: RenderState, fb: array<u8>, x: nat,
                      pow: (real, real) -> real, fbIdx: Layout, ghost apply: Semantics) returns (ok: bool)
    requires AllWellFormed(bs) && IsSemantics(apply, pow) && FbIdxFits(fbIdx)
    requires x < LED_COUNT && fb.Length == FRAME_SIZE_BYTES
    modifies state, fb
    ensures var r := Column(apply, bs, old(state.Value()), old(fb[..]), x, 0, fbIdx);
            ok == r.Ok? && (ok ==> state.Value() == r.value.0 && fb[..] == r.value.1)
  {
    ghost var spec := Column(apply, bs, state.Value(), fb[..], x, 0, fbIdx);
    for y := 0 to STRING_COUNT
      invariant spec == Column(apply, bs, state.Value(), fb[..], x, y, fbIdx)
    {
      ghost var s0, fb0 := state.Value(), fb[..];
      ok := RenderPixel(bs, state, fb, x, y, pow, fbIdx, apply);
      ColumnUnfolds(apply, bs, s0, fb0, x, y, fbIdx);
      if !ok {
        return;
      }
    }
    ok := true;
  }

  /** The rendering part of one iteration of the frame loop. */
  method RenderFrame(bs: seq<Block>, state: RenderState, fb: array<u8>, frame: nat,
                     pow: (real, real) -> real, fbIdx: Layout, ghost apply: Semantics) returns (ok: bool)
    requires AllWellFormed(bs) && IsSemantics(apply, pow) && FbIdxFits(fbIdx)
    requires fb.Length == FRAME_SIZE_BYTES
    modifies state, fb
    ensures var r := Frame(apply, bs, old(state.Value()), old(fb[..]), frame, fbIdx);
            ok == r.Ok? && (ok ==> state.Value() == r.value.0 && fb[..] == r.value.1)
  {
    FrameUnfolds(apply, bs, state.Value(), fb[..], frame, fbIdx);
    if |state.scalars| == 0 {
      return false;
    }
    state.SetScalar(0, frame as real);
    ok := RenderLeds(bs, state, fb, pow, fbIdx, apply);
  }

  /** The outer loop, over every LED. */
  method RenderLeds(bs: seq<Block>, state: RenderState, fb: array<u8>,
                    pow: (real, real) -> real, fbIdx: Layout, ghost apply: Semantics) returns (ok: bool)
    requires AllWellFormed(bs) && IsSemantics(apply, pow) && FbIdxFits(fbIdx)
    requires fb.Length == FRAME_SIZE_BYTES
    modifies state, fb
    ensures var r := Scan(apply, bs, old(state.Value()), old(fb[..]), 0, fbIdx);
            ok == r.Ok? && (ok ==> state.Value() == r.value.0 && fb[..] == r.value.1)
  {
    ghost var spec := Scan(apply, bs, state.Value(), fb[..], 0, fbIdx);
    for x := 0 to LED_COUNT
      invariant spec == Scan(apply, bs, state.Value(), fb[..], x, fbIdx)
    {
      ok := RenderLed(bs, state, fb, x, pow, fbIdx, apply);
      if !ok {
        return;
      }
    }
    ok := true;
  }

  /** The body of the outer loop: LED `x` on every string. */
  method RenderLed(bs: seq<Block>, state: RenderState, fb: array<u8>, x: nat,
                   pow: (real, real) -> real, fbIdx: Layout, ghost apply: Semantics) returns (ok: bool)
    requires AllWellFormed(bs) && IsSemantics(apply, pow) && FbIdxFits(fbIdx)
    requires x < LED_COUNT && fb.Length == FRAME_SIZE_BYTES
    modifies state, fb
    ensures var r := Scan(apply, bs, old(state.Value()), old(fb[..]), x, fbIdx);
            if ok then r == Scan(apply, bs, state.Value(), fb[..], x + 1, fbIdx) else r.Panic?
  {
    if |state.scalars| <= 1 {
      return false;
    }
    state.SetScalar(1, x as real);
    ok := RenderColumn(bs, state, fb, x, pow, fbIdx, apply);
  }

  // ---------------------------------------------------------------------
  // fb_main

  /** The configuration `try_recv` delivers before frame `frame`, if any. */
  function Message(inbox: seq<Option<Object>>, frame: nat): Option<Object> {
    if frame < |inbox| then inbox[frame] else None
  }

  /** One iteration of the frame loop: apply a pending configuration, then
      render. The result holds the block list, the store and the frame
      buffer at the end of the iteration. */
  function Step(factory: Builder, apply: Semantics, bs: seq<Block>, s: Store, fb: seq<u8>, frame: nat,
                msg: Option<Object>, fbIdx: Layout): (r: Result<(seq<Block>, Store, seq<u8>)>)
    requires FbIdxFits(fbIdx) && |fb| == FRAME_SIZE_BYTES
    ensures r.Ok? ==> |r.value.2| == FRAME_SIZE_BYTES
  {
    if msg.Some? then
      var c :- Configure(factory, msg.value, s);
      var f :- Frame(apply, c.1, c.0, fb, frame, fbIdx);
      Ok((c.1, f.0, f.1))
    else
      var f :- Frame(apply, bs, s, fb, frame, fbIdx);
      Ok((bs, f.0, f.1))
  }

  /** What one iteration of the frame loop does to the block list, the
      store and the frame buffer, given the frame number and the pending
      configuration. */
  type Iteration = (seq<Block>, Store, seq<u8>, nat, Option<Object>) -> Result<(seq<Block>, Store, seq<u8>)>

  /** `step` is `Step` for this factory, block semantics and layout, on
      every buffer of the frame's size. */
  ghost predicate IsStep(step: Iteration, factory: Builder, apply: Semantics, fbIdx: Layout) {
    && FbIdxFits(fbIdx)
    && forall bs, s, fb, frame, msg {:trigger Step(factory, apply, bs, s, fb, frame, msg, fbIdx)} ::
         |fb| == FRAME_SIZE_BYTES ==> step(bs, s, fb, frame, msg) == Step(factory, apply, bs, s, fb, frame, msg, fbIdx)
  }

  /** `Step` as a function value. */
  function Iterate(factory: Builder, apply: Semantics, fbIdx: Layout): (step: Iteration)
    requires FbIdxFits(fbIdx)
  {
    (bs: seq<Block>, s: Store, fb: seq<u8>, frame: nat, msg: Option<Object>) =>
      if |fb| == FRAME_SIZE_BYTES then Step(factory, apply, bs, s, fb, frame, msg, fbIdx) else Panic
  }

  /** The hypothesis on `step` can be met. */
  lemma IterateIsStep(factory: Builder, apply: Semantics, fbIdx: Layout)
    requires FbIdxFits(fbIdx)
    ensures IsStep(Iterate(factory, apply, fbIdx), factory, apply, fbIdx)
  {
  }

  /** `n` iterations of the frame loop from frame number `frame`, the
      configuration channel delivering `inbox`. */
  function Run(step: Iteration, bs: seq<Block>, s: Store, fb: seq<u8>, frame: nat, n: nat,
               inbox: seq<Option<Object>>): (r: Result<(seq<Block>, Store, seq<u8>)>)
    decreases n
  {
    if n == 0 then Ok((bs, s, fb))
    else
      var st :- step(bs, s, fb, frame, Message(inbox, frame));
      Run(step, st.0, st.1, st.2, frame + 1, n - 1, inbox)
  }

  /** The frame buffer as `fill(0)` leaves it. */
  function Blank(): (z: seq<u8>)
    ensures |z| == FRAME_SIZE_BYTES && forall k :: 0 <= k < |z| ==> z[k] == 0
  {
    seq(FRAME_SIZE_BYTES, _ => 0)
  }

  /** The store of `RenderState::new`. */
  const EMPTY: Store := Store([], [], [], [], [])

  /** The number of frames the loop renders: `frame_cnt`, or `limit` of
      the unbounded run that `frame_cnt == 0` asks for. */
  function FrameTotal(frameCnt: nat, limit: nat): (n: nat)
    ensures frameCnt != 0 ==> n == frameCnt
    ensures frameCnt == 0 ==> n == limit
  {
    if frameCnt == 0 then limit else frameCnt
  }

  /** Without a configuration before the first frame, the program panics
      in that frame: the new store is empty. */
  lemma NoConfigPanics(step: Iteration, factory: Builder, apply: Semantics, inbox: seq<Option<Object>>, n: nat,
                       fbIdx: Layout)
    requires IsStep(step, factory, apply, fbIdx) && n > 0 && Message(inbox, 0).None?
    ensures Run(step, [], EMPTY, Blank(), 0, n, inbox).Panic?
  {
    FrameNeedsThreeScalars(apply, [], EMPTY, Blank(), 0, fbIdx);
    assert step([], EMPTY, Blank(), 0, None) == Step(factory, apply, [], EMPTY, Blank(), 0, None, fbIdx);
  }

  /** A configuration that arrives before a frame takes effect in that
      frame: the frame is rendered by its blocks on its store. */
  lemma ConfigTakesEffect(factory: Builder, apply: Semantics, bs: seq<Block>, s: Store, fb: seq<u8>,
                          frame: nat, cfg: Object, fbIdx: Layout)
    requires FbIdxFits(fbIdx) && |fb| == FRAME_SIZE_BYTES
    requires Step(factory, apply, bs, s, fb, frame, Some(cfg), fbIdx).Ok?
    ensures Configure(factory, cfg, s).Ok?
    ensures var c := Configure(factory, cfg, s).value;
            var f := Frame(apply, c.1, c.0, fb, frame, fbIdx);
            f.Ok? && Step(factory, apply, bs, s, fb, frame, Some(cfg), fbIdx).value == (c.1, f.value.0, f.value.1)
  {
  }

  /** `fb.fill(v)`. */
  method Fill(fb: array<u8>, v: u8)
    modifies fb
    ensures forall k :: 0 <= k < fb.Length ==> fb[k] == v
  {
    for k := 0 to fb.Length
      invariant forall j :: 0 <= j < k ==> fb[j] == v
    {
      fb[k] := v;
    }
  }

  /** One iteration of the frame loop on the live state. */
  method FrameStep(blocks: seq<Block>, state: RenderState, fb: array<u8>, frame: nat, msg: Option<Object>,
                   pow: (real, real) -> real, fbIdx: Layout, ghost factory: Builder, ghost apply: Semantics)
    returns (ok: bool, blocks': seq<Block>)
    requires AllWellFormed(blocks) && IsFactory(factory) && IsSemantics(apply, pow) && FbIdxFits(fbIdx)
    requires fb.Length == FRAME_SIZE_BYTES
    modifies state, fb
    ensures var r := Step(factory, apply, blocks, old(state.Value()), old(fb[..]), frame, msg, fbIdx);
            ok == r.Ok? && (ok ==> r.value == (blocks', state.Value(), fb[..]))
    ensures ok ==> AllWellFormed(blocks')
  {
    blocks' := blocks;
    if msg.Some? {
      ok, blocks' := UpdateCfg(msg.value, state, factory);
      if !ok {
        return;
      }
    }
    ok := RenderFrame(blocks', state, fb, frame, pow, fbIdx, apply);
  }

  /** One iteration of the frame loop, as a step of `Run`: it panics when
      the run of the remaining `n` frames panics in this frame, and
      otherwise leaves the state from which the other `n - 1` frames run. */
  method RunFrame(blocks: seq<Block>, state: RenderState, fb: array<u8>, frame: nat, n: nat,
                  inbox: seq<Option<Object>>, pow: (real, real) -> real, fbIdx: Layout,
                  ghost step: Iteration, ghost factory: Builder, ghost apply: Semantics)
    returns (ok: bool, blocks': seq<Block>)
    requires AllWellFormed(blocks) && IsFactory(factory) && IsSemantics(apply, pow)
    requires IsStep(step, factory, apply, fbIdx)
    requires fb.Length == FRAME_SIZE_BYTES && n > 0
    modifies state, fb
    ensures !ok ==> Run(step, blocks, old(state.Value()), old(fb[..]), frame, n, inbox).Panic?
    ensures ok ==> Run(step, blocks, old(state.Value()), old(fb[..]), frame, n, inbox)
                   == Run(step, blocks', state.Value(), fb[..], frame + 1, n - 1, inbox)
    ensures ok ==> AllWellFormed(blocks')
  {
    ghost var s0, fb0 := state.Value(), fb[..];
    ok, blocks' := FrameStep(blocks, state, fb, frame, Message(inbox, frame), pow, fbIdx, factory, apply);
    assert step(blocks, s0, fb0, frame, Message(inbox, frame))
           == Step(factory, apply, blocks, s0, fb0, frame, Message(inbox, frame), fbIdx);
  }

  /** The frame loop: `total` iterations from frame 0, each one applying
      the configuration `inbox` holds for it and rendering. */
  method FrameLoop(state: RenderState, fb: array<u8>, total: nat, inbox: seq<Option<Object>>,
                   pow: (real, real) -> real, fbIdx: Layout,
                   ghost step: Iteration, ghost factory: Builder, ghost apply: Semantics)
    returns (ok: bool, frames: nat)
    requires IsFactory(factory) && IsSemantics(apply, pow) && IsStep(step, factory, apply, fbIdx)
    requires fb.Length == FRAME_SIZE_BYTES
    modifies state, fb
    ensures ok == Run(step, [], old(state.Value()), old(fb[..]), 0, total, inbox).Ok?
    ensures ok ==> frames == total
  {
    var blocks: seq<Block> := [];
    frames := 0;
    ghost var spec := Run(step, blocks, state.Value(), fb[..], frames, total - frames, inbox);
    while frames < total
      invariant frames <= total && AllWellFormed(blocks)
      invariant spec == Run(step, blocks, state.Value(), fb[..], frames, total - frames, inbox)
      decreases total - frames
    {
      ok, blocks := RunFrame(blocks, state, fb, frames, total - frames, inbox, pow, fbIdx, step, factory, apply);
      if !ok {
        return;
      }
      frames := frames + 1;
    }
    ok := true;
  }

  /** `fb_main` from the blanking of the buffer to the final blanking.
      `inbox` lists what the configuration channel delivers, frame by
      frame; `ok` is false when the render thread panics. After the loop
      the buffer is blank again. */
  method FbMain(frameCnt: nat, limit: nat, inbox: seq<Option<Object>>, fb: array<u8>,
                pow: (real, real) -> real, fbIdx: Layout,
                ghost step: Iteration, ghost factory: Builder, ghost apply: Semantics)
    returns (ok: bool, frames: nat)
    requires IsFactory(factory) && IsSemantics(apply, pow) && IsStep(step, factory, apply, fbIdx)
    requires fb.Length == FRAME_SIZE_BYTES
    modifies fb
    ensures ok == Run(step, [], EMPTY, Blank(), 0, FrameTotal(frameCnt, limit), inbox).Ok?
    ensures ok ==> frames == FrameTotal(frameCnt, limit)
    ensures ok ==> fb[..] == Blank()
  {
    Fill(fb, 0);
    assert fb[..] == Blank();
    var state := new RenderState();
    ok, frames := FrameLoop(state, fb, FrameTotal(frameCnt, limit), inbox, pow, fbIdx, step, factory, apply);
    if !ok {
      return;
    }
    Fill(fb, 0);
    assert fb[..] == Blank();
  }
}
