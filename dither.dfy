/** The `dither` block: the power-law conversion of `gamma`, with a scale
    read from a scalar slot in place of the fixed 255 and an ordered-dither
    offset added before the integer part is taken. The offset comes from an
    eight-entry table indexed by a phase computed from the pixel coordinates
    and the frame number. */
module Dither {
  import opened Json
  import opened VarTypes
  import opened RenderBlock
  import Gamma

  datatype Dither = Dither(gamma: real, rc: real, gc: real, bc: real, scale: Index, i: Index, x: Index, y: Index, o: Index)

  /** `Dither::from_obj`. */
  function FromObj(dict: Object): (r: Result<Dither>)
    ensures r.Ok? <==> HasReals(dict, "params", ["gamma", "rc", "gc", "bc"])
                       && HasIndices(dict, "inputs", ["scale", "i", "x", "y"]) && IndexAt(dict, "outputs", "o").Ok?
    ensures r.Ok? ==> RealAt(dict, "params", "gamma") == Ok(r.value.gamma) && RealAt(dict, "params", "rc") == Ok(r.value.rc)
                      && RealAt(dict, "params", "gc") == Ok(r.value.gc) && RealAt(dict, "params", "bc") == Ok(r.value.bc)
    ensures r.Ok? ==> IndexAt(dict, "inputs", "scale") == Ok(r.value.scale) && IndexAt(dict, "inputs", "i") == Ok(r.value.i)
                      && IndexAt(dict, "inputs", "x") == Ok(r.value.x) && IndexAt(dict, "inputs", "y") == Ok(r.value.y)
                      && IndexAt(dict, "outputs", "o") == Ok(r.value.o)
  {
    var params := ["gamma", "rc", "gc", "bc"];
    var inputs := ["scale", "i", "x", "y"];
    assert HasReals(dict, "params", params) <==>
      RealAt(dict, "params", params[0]).Ok? && RealAt(dict, "params", params[1]).Ok?
      && RealAt(dict, "params", params[2]).Ok? && RealAt(dict, "params", params[3]).Ok?;
    assert HasIndices(dict, "inputs", inputs) <==>
      IndexAt(dict, "inputs", inputs[0]).Ok? && IndexAt(dict, "inputs", inputs[1]).Ok?
      && IndexAt(dict, "inputs", inputs[2]).Ok? && IndexAt(dict, "inputs", inputs[3]).Ok?;
    var gamma :- RealAt(dict, "params", "gamma");
    var rc :- RealAt(dict, "params", "rc");
    var gc :- RealAt(dict, "params", "gc");
    var bc :- RealAt(dict, "params", "bc");
    var scale :- IndexAt(dict, "inputs", "scale");
    var i :- IndexAt(dict, "inputs", "i");
    var x :- IndexAt(dict, "inputs", "x");
    var y :- IndexAt(dict, "inputs", "y");
    var o :- IndexAt(dict, "outputs", "o");
    Ok(Dither(gamma, rc, gc, bc, scale, i, x, y, o))
  }

  function ToObj(blk: Dither): Object {
    map[
      "type" := JStr("dither"),
      "params" := JObj(map["gamma" := JNum(blk.gamma), "rc" := JNum(blk.rc), "gc" := JNum(blk.gc), "bc" := JNum(blk.bc)]),
      "inputs" := JObj(map["scale" := Num(blk.scale), "i" := Num(blk.i), "x" := Num(blk.x), "y" := Num(blk.y)]),
      "outputs" := JObj(map["o" := Num(blk.o)])]
  }

  lemma RoundTrip(blk: Dither)
    ensures FromObj(ToObj(blk)) == Ok(blk)
  {
    assert IsIntegral(blk.scale as real) && IsIntegral(blk.i as real) && IsIntegral(blk.x as real);
    assert IsIntegral(blk.y as real) && IsIntegral(blk.o as real);
  }

  // ----- The offset table -----

  /** The hard-coded `dither_add` table. */
  const DITHER_ADD: seq<real> := [0.0 / 8.0, 4.0 / 8.0, 2.0 / 8.0, 6.0 / 8.0, 1.0 / 8.0, 5.0 / 8.0, 3.0 / 8.0, 7.0 / 8.0]

  /** The eighths 0/8 .. 7/8 in increasing order. */
  const EIGHTHS: seq<real> := [0.0 / 8.0, 1.0 / 8.0, 2.0 / 8.0, 3.0 / 8.0, 4.0 / 8.0, 5.0 / 8.0, 6.0 / 8.0, 7.0 / 8.0]

  /** The three-bit number `k` with its bits in reverse order. */
  function BitRev3(k: nat): (r: nat)
    requires k < 8
    ensures r < 8
  {
    (k % 2) * 4 + ((k / 2) % 2) * 2 + k / 4
  }

  lemma BitRev3Involution(k: nat)
    requires k < 8
    ensures BitRev3(BitRev3(k)) == k
  {
    if k == 0 { assert BitRev3(0) == 0; }
    else if k == 1 { assert BitRev3(1) == 4 && BitRev3(4) == 1; }
    else if k == 2 { assert BitRev3(2) == 2; }
    else if k == 3 { assert BitRev3(3) == 6 && BitRev3(6) == 3; }
    else if k == 4 { assert BitRev3(4) == 1 && BitRev3(1) == 4; }
    else if k == 5 { assert BitRev3(5) == 5; }
    else if k == 6 { assert BitRev3(6) == 3 && BitRev3(3) == 6; }
    else { assert k == 7 && BitRev3(7) == 7; }
  }

  /** Entry `k` of the table is eighth number `BitRev3(k)`: the table is
      the eighths in bit-reversed order, hence a permutation of them. */
  lemma TableIsBitReversal()
    ensures |DITHER_ADD| == 8
    ensures forall k: nat :: k < 8 ==> DITHER_ADD[k] == EIGHTHS[BitRev3(k)]
    ensures multiset(DITHER_ADD) == multiset(EIGHTHS)
  {
    TableEntries();
    TablePermutesEighths();
  }

  /** The entries of the table, one by one. */
  lemma TableEntries()
    ensures forall k: nat :: k < 8 ==> DITHER_ADD[k] == EIGHTHS[BitRev3(k)]
  {
    forall k: nat | k < 8 ensures DITHER_ADD[k] == EIGHTHS[BitRev3(k)] {
      if k == 0 { assert BitRev3(k) == 0; }
      else if k == 1 { assert BitRev3(k) == 4; }
      else if k == 2 { assert BitRev3(k) == 2; }
      else if k == 3 { assert BitRev3(k) == 6; }
      else if k == 4 { assert BitRev3(k) == 1; }
      else if k == 5 { assert BitRev3(k) == 5; }
      else if k == 6 { assert BitRev3(k) == 3; }
      else { assert BitRev3(k) == 7; }
    }
  }

  /** Eighth number `k` is `k / 8`. */
  lemma EighthsAscend()
    ensures forall k: nat :: k < 8 ==> EIGHTHS[k] == k as real / 8.0
  {
  }

  /** The table holds each eighth exactly once. */
  lemma TablePermutesEighths()
    ensures multiset(DITHER_ADD) == multiset(EIGHTHS)
  {
    var e := EIGHTHS;
    assert DITHER_ADD == [e[0]] + [e[4]] + [e[2]] + [e[6]] + [e[1]] + [e[5]] + [e[3]] + [e[7]];
    assert e == [e[0]] + [e[1]] + [e[2]] + [e[3]] + [e[4]] + [e[5]] + [e[6]] + [e[7]];
  }

  // ----- Phase and offset -----

  /** `f32 as usize`: negative values saturate to 0 and values beyond the
      range to the largest `usize`. */
  function SatUsize(n: int): (r: Index)
    ensures 0 <= n < USIZE_LIMIT ==> r == n
    ensures n < 0 ==> r == 0
  {
    if n < 0 then 0 else if n >= USIZE_LIMIT then USIZE_LIMIT - 1 else n
  }

  /** `round(x + 5 y + 3 frame) as usize` reduced modulo the table length:
      always a valid table index, and 0 whenever the sum rounds to a
      negative number. */
  function Phase(x: real, y: real, frame: real): (k: nat)
    ensures k < |DITHER_ADD|
    ensures Round(x + 5.0 * y + 3.0 * frame) <= 0 ==> k == 0
    ensures 0 <= Round(x + 5.0 * y + 3.0 * frame) < USIZE_LIMIT ==> k == Round(x + 5.0 * y + 3.0 * frame) % 8
  {
    SatUsize(Round(x + 5.0 * y + 3.0 * frame)) % |DITHER_ADD|
  }

  /** `f32::round` commutes with adding one above -1/2 (below, halves
      rounding away from zero break the symmetry: -0.5 and 0.5 round to -1
      and 1). */
  lemma RoundSucc(v: real)
    requires v > -0.5
    ensures Round(v + 1.0) == Round(v) + 1
  {
    if v >= 0.0 {
      assert (v + 1.0 + 0.5).Floor == (v + 0.5).Floor + 1;
    } else {
      assert Round(v) == 0 && Round(v + 1.0) == 1;
    }
  }

  /** Moving one pixel along `x` advances the phase by one, modulo 8, as
      long as the sum neither rounds below 0 nor saturates: consecutive
      pixels of a row cycle through all eight offsets. */
  lemma PhaseStep(x: real, y: real, frame: real)
    requires 0 <= Round(x + 5.0 * y + 3.0 * frame) && Round(x + 5.0 * y + 3.0 * frame) + 1 < USIZE_LIMIT
    ensures Phase(x + 1.0, y, frame) == (Phase(x, y, frame) + 1) % 8
  {
    var v := x + 5.0 * y + 3.0 * frame;
    assert v > -0.5;
    RoundSucc(v);
    assert (x + 1.0) + 5.0 * y + 3.0 * frame == v + 1.0;
    var r := Round(v);
    assert Phase(x, y, frame) == r % 8;
    assert Phase(x + 1.0, y, frame) == (r + 1) % 8;
    ModSucc(r);
  }

  lemma ModSucc(r: int)
    ensures (r % 8 + 1) % 8 == (r + 1) % 8
  {
    var q := r / 8;
    assert r == 8 * q + r % 8;
    if r % 8 == 7 {
      assert r + 1 == 8 * (q + 1);
    } else {
      assert r + 1 == 8 * q + (r % 8 + 1);
    }
  }

  /** The dither offset of a pixel: in 0 .. 7/8, and a function of `x`, `y`
      and the frame slot only. */
  function Offset(x: real, y: real, frame: real): (d: real)
    ensures 0.0 <= d <= 7.0 / 8.0
    ensures d in DITHER_ADD
  {
    DITHER_ADD[Phase(x, y, frame)]
  }

  // ----- Conversion -----

  /** `clamp((scale * coef * p + offset).floor(), 0, 255)`. */
  function DitherLevel(scale: real, coef: real, p: real, offset: real): u8 {
    Gamma.Quantize(scale * coef * p + offset)
  }

  /** The `Dither::execute` conversion of one real color. */
  function Convert(blk: Dither, c: RealColor, offset: real, scale: real, pow: (real, real) -> real): Color {
    Color(DitherLevel(scale, blk.rc, pow(c.r, blk.gamma), offset),
          DitherLevel(scale, blk.gc, pow(c.g, blk.gamma), offset),
          DitherLevel(scale, blk.bc, pow(c.b, blk.gamma), offset))
  }

  /** With scale 255 and a zero offset, the dithered color is exactly the
      `gamma` block's color for the same parameters. */
  lemma MatchesGammaAtZeroOffset(blk: Dither, c: RealColor, pow: (real, real) -> real)
    ensures Convert(blk, c, 0.0, 255.0, pow)
            == Gamma.Convert(Gamma.Gamma(blk.gamma, blk.rc, blk.gc, blk.bc, blk.i, blk.x, blk.y, blk.o), c, pow)
  {
  }

  /** An offset in 0 .. 7/8 moves a level in range up by at most one. */
  lemma RoundsUpOrDown(v: real, offset: real)
    requires 0.0 <= v && v + 7.0 / 8.0 < 256.0
    requires 0.0 <= offset <= 7.0 / 8.0
    ensures Gamma.Quantize(v + offset) == v.Floor || Gamma.Quantize(v + offset) == v.Floor + 1
  {
  }

  /** How many eighths the fractional part of `v` holds, 0 .. 7. */
  function Carry(v: real): (m: int)
    ensures 0 <= m < 8
    ensures m as real <= 8.0 * (v - v.Floor as real) < m as real + 1.0
  {
    (8.0 * (v - v.Floor as real)).Floor
  }

  /** `(v + j / 8).floor()` is one more than `v.floor()` exactly when `j`
      eighths carry the fractional part of `v` past a whole number; for `v`
      in 0 .. 255 that is also its level. */
  lemma LevelAtEighth(v: real, d: real, j: nat)
    requires 0.0 <= v <= 255.0 && j < 8 && d == j as real / 8.0
    ensures Gamma.Quantize(v + d) == v.Floor + (if j + Carry(v) >= 8 then 1 else 0)
  {
    var n := v.Floor;
    var m := Carry(v);
    var w := v + d;
    assert n as real + (m + j) as real / 8.0 <= w < n as real + (m + j + 1) as real / 8.0;
    if j + m >= 8 {
      assert n as real + 1.0 <= w < n as real + 2.0;
      assert w.Floor == n + 1;
    } else {
      assert n as real <= w < n as real + 1.0;
      assert w.Floor == n;
    }
  }

  /** `(8 v).floor()` splits into the whole part and the carried eighths. */
  lemma EightFloor(v: real)
    ensures (8.0 * v).Floor == 8 * v.Floor + Carry(v)
  {
    var n := v.Floor;
    assert 8.0 * v == (8 * n) as real + 8.0 * (v - n as real);
  }

  /** The levels of one value at the eight phases, added up. */
  function PhaseTotal(v: real): int {
    Gamma.Quantize(v + DITHER_ADD[0]) + Gamma.Quantize(v + DITHER_ADD[1]) + Gamma.Quantize(v + DITHER_ADD[2])
    + Gamma.Quantize(v + DITHER_ADD[3]) + Gamma.Quantize(v + DITHER_ADD[4]) + Gamma.Quantize(v + DITHER_ADD[5])
    + Gamma.Quantize(v + DITHER_ADD[6]) + Gamma.Quantize(v + DITHER_ADD[7])
  }

  /** The carries of the eight shifts by 0/8 .. 7/8 of a fraction of `m`
      eighths. */
  function CarrySum(m: int): int {
    (if 0 + m >= 8 then 1 else 0) + (if 1 + m >= 8 then 1 else 0) + (if 2 + m >= 8 then 1 else 0)
    + (if 3 + m >= 8 then 1 else 0) + (if 4 + m >= 8 then 1 else 0) + (if 5 + m >= 8 then 1 else 0)
    + (if 6 + m >= 8 then 1 else 0) + (if 7 + m >= 8 then 1 else 0)
  }

  /** `m` of the eight carries are one. */
  lemma CarryCount(m: int)
    requires 0 <= m < 8
    ensures CarrySum(m) == m
  {
  }

  /** Each of the eight levels is the whole part plus its carry. */
  lemma PhaseTotalCarries(v: real)
    requires 0.0 <= v <= 255.0
    ensures PhaseTotal(v) == 8 * v.Floor + CarrySum(Carry(v))
  {
    var m := Carry(v);
    var lo := Gamma.Quantize(v + DITHER_ADD[0]) + Gamma.Quantize(v + DITHER_ADD[1])
              + Gamma.Quantize(v + DITHER_ADD[2]) + Gamma.Quantize(v + DITHER_ADD[3]);
    var hi := Gamma.Quantize(v + DITHER_ADD[4]) + Gamma.Quantize(v + DITHER_ADD[5])
              + Gamma.Quantize(v + DITHER_ADD[6]) + Gamma.Quantize(v + DITHER_ADD[7]);
    LowerCarries(v);
    UpperCarries(v);
    assert PhaseTotal(v) == lo + hi;
  }

  /** The first four table entries, 0/8, 4/8, 2/8 and 6/8. */
  lemma LowerCarries(v: real)
    requires 0.0 <= v <= 255.0
    ensures Gamma.Quantize(v + DITHER_ADD[0]) + Gamma.Quantize(v + DITHER_ADD[1])
            + Gamma.Quantize(v + DITHER_ADD[2]) + Gamma.Quantize(v + DITHER_ADD[3])
            == 4 * v.Floor + (if 0 + Carry(v) >= 8 then 1 else 0) + (if 4 + Carry(v) >= 8 then 1 else 0)
               + (if 2 + Carry(v) >= 8 then 1 else 0) + (if 6 + Carry(v) >= 8 then 1 else 0)
  {
    var t := DITHER_ADD;
    LevelAtEighth(v, t[0], 0); LevelAtEighth(v, t[1], 4); LevelAtEighth(v, t[2], 2); LevelAtEighth(v, t[3], 6);
  }

  /** The last four table entries, 1/8, 5/8, 3/8 and 7/8. */
  lemma UpperCarries(v: real)
    requires 0.0 <= v <= 255.0
    ensures Gamma.Quantize(v + DITHER_ADD[4]) + Gamma.Quantize(v + DITHER_ADD[5])
            + Gamma.Quantize(v + DITHER_ADD[6]) + Gamma.Quantize(v + DITHER_ADD[7])
            == 4 * v.Floor + (if 1 + Carry(v) >= 8 then 1 else 0) + (if 5 + Carry(v) >= 8 then 1 else 0)
               + (if 3 + Carry(v) >= 8 then 1 else 0) + (if 7 + Carry(v) >= 8 then 1 else 0)
  {
    var t := DITHER_ADD;
    LevelAtEighth(v, t[4], 1); LevelAtEighth(v, t[5], 5); LevelAtEighth(v, t[6], 3); LevelAtEighth(v, t[7], 7);
  }

  /** Averaged over the eight phases the dithered level is `floor(8 v) / 8`:
      the table resolves a channel in steps of 1/8 instead of the 8-bit step,
      a fraction of `m / 8` rounding up at `m` of the eight phases. */
  lemma PhaseAverage(v: real)
    requires 0.0 <= v <= 255.0
    ensures PhaseTotal(v) == (8.0 * v).Floor
  {
    PhaseTotalCarries(v);
    CarryCount(Carry(v));
    EightFloor(v);
  }

  /** The worked case of the table's comment: a fraction of 1/4 rounds up at
      two phases of the eight, 3 and 7. */
  lemma QuarterPattern()
    ensures Gamma.Quantize(10.25 + DITHER_ADD[3]) == 11 && Gamma.Quantize(10.25 + DITHER_ADD[7]) == 11
    ensures forall k: nat :: k < 8 && k != 3 && k != 7 ==> Gamma.Quantize(10.25 + DITHER_ADD[k]) == 10
  {
    assert (10.25 + 6.0 / 8.0).Floor == 11 && (10.25 + 7.0 / 8.0).Floor == 11;
    assert (10.25 + 0.0 / 8.0).Floor == 10 && (10.25 + 4.0 / 8.0).Floor == 10 && (10.25 + 2.0 / 8.0).Floor == 10;
    assert (10.25 + 1.0 / 8.0).Floor == 10 && (10.25 + 5.0 / 8.0).Floor == 10 && (10.25 + 3.0 / 8.0).Floor == 10;
  }

  // ----- Execution -----

  /** The offset of the pixel whose coordinates are in scalars `x` and `y`,
      with the frame number in scalar 0. */
  function PixelOffset(blk: Dither, s: Store): real
    requires blk.x < |s.scalars| && blk.y < |s.scalars| && 0 < |s.scalars|
  {
    Offset(s.scalars[blk.x], s.scalars[blk.y], s.scalars[0])
  }

  /** The slots `Dither::execute` reads and writes all exist. */
  predicate InRange(blk: Dither, s: Store) {
    blk.i < |s.rcolors| && blk.x < |s.scalars| && blk.y < |s.scalars| && 0 < |s.scalars|
    && blk.scale < |s.scalars| && blk.o < |s.colors|
  }

  /** `Dither::execute` on `s`: it panics exactly when one of the real color
      `i`, scalars `x`, `y`, 0 and `scale` or color `o` is missing, and
      otherwise writes color `o` alone. */
  function Apply(blk: Dither, s: Store, pow: (real, real) -> real): (r: Result<Store>)
    ensures r.Ok? <==> InRange(blk, s)
    ensures r.Ok? ==> OnlyColorChanged(s, r.value, blk.o)
    ensures r.Ok? ==> r.value.colors[blk.o]
                      == Convert(blk, s.rcolors[blk.i], PixelOffset(blk, s), s.scalars[blk.scale], pow)
  {
    if InRange(blk, s) then
      var c := Convert(blk, s.rcolors[blk.i], PixelOffset(blk, s), s.scalars[blk.scale], pow);
      Ok(s.(colors := s.colors[blk.o := c]))
    else
      Panic
  }

  method Execute(blk: Dither, state: RenderState, pow: (real, real) -> real) returns (ok: bool)
    modifies state
    ensures Outcome(ok, Apply(blk, old(state.Value()), pow), old(state.Value()), state.Value())
  {
    if !InRange(blk, state.Value()) {
      return false;
    }
    var rcolor := state.GetRColor(blk.i);
    var x := state.GetScalar(blk.x);
    var y := state.GetScalar(blk.y);
    var frame := state.GetScalar(0);
    var offset := DITHER_ADD[Phase(x, y, frame)];
    var scale := state.GetScalar(blk.scale);
    state.SetColor(blk.o, Convert(blk, rcolor, offset, scale, pow));
    ok := true;
  }
}
