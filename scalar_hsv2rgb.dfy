/** The `scalar_hsv2rgb` block: hue, saturation and value, each on a 0..1
    scale, converted to a real-valued RGB color. */
module ScalarHsv2Rgb {
  import opened Json
  import opened VarTypes
  import opened RenderBlock

  datatype ScalarHsv2Rgb = ScalarHsv2Rgb(h: Index, s: Index, v: Index, o: Index)

  /** `ScalarHsv2Rgb::from_obj`. */
  function FromObj(dict: Object): (r: Result<ScalarHsv2Rgb>)
    ensures r.Ok? <==> HasIndices(dict, "inputs", ["h", "s", "v"]) && IndexAt(dict, "outputs", "o").Ok?
    ensures r.Ok? ==> IndexAt(dict, "inputs", "h") == Ok(r.value.h) && IndexAt(dict, "inputs", "s") == Ok(r.value.s)
                      && IndexAt(dict, "inputs", "v") == Ok(r.value.v) && IndexAt(dict, "outputs", "o") == Ok(r.value.o)
  {
    var keys := ["h", "s", "v"];
    assert HasIndices(dict, "inputs", keys) <==>
      IndexAt(dict, "inputs", keys[0]).Ok? && IndexAt(dict, "inputs", keys[1]).Ok? && IndexAt(dict, "inputs", keys[2]).Ok?;
    var h :- IndexAt(dict, "inputs", "h");
    var s :- IndexAt(dict, "inputs", "s");
    var v :- IndexAt(dict, "inputs", "v");
    var o :- IndexAt(dict, "outputs", "o");
    Ok(ScalarHsv2Rgb(h, s, v, o))
  }

  function ToObj(blk: ScalarHsv2Rgb): Object {
    map[
      "type" := JStr("scalar_hsv2rgb"),
      "inputs" := JObj(map["h" := Num(blk.h), "s" := Num(blk.s), "v" := Num(blk.v)]),
      "outputs" := JObj(map["o" := Num(blk.o)])]
  }

  lemma RoundTrip(blk: ScalarHsv2Rgb)
    ensures FromObj(ToObj(blk)) == Ok(blk)
  {
    assert IsIntegral(blk.h as real) && IsIntegral(blk.s as real);
    assert IsIntegral(blk.v as real) && IsIntegral(blk.o as real);
  }

  function Max3(c: RealColor): real {
    if c.r >= c.g && c.r >= c.b then c.r else if c.g >= c.b then c.g else c.b
  }

  function Min3(c: RealColor): real {
    if c.r <= c.g && c.r <= c.b then c.r else if c.g <= c.b then c.g else c.b
  }

  /** `hp.floor().rem_euclid(6.0)`: the 60-degree sector of the hue. The
      floor is a whole number, so the remainder is the integer one. */
  function Sector(hp: real): (k: int)
    ensures 0 <= k < 6
  {
    hp.Floor % 6
  }

  /** `1 - |hp.rem_euclid(2) - 1|`: how far the hue is into its sector,
      folded, 0 at even sector boundaries and 1 at odd ones. */
  function HueWeight(hp: real): (w: real)
    ensures 0.0 <= w <= 1.0
  {
    1.0 - Abs(RemEuclid(hp, 2.0) - 1.0)
  }

  /** The `match sector` arms: in every sector one channel is `c + m`, one
      is `m` and the third `x + m`. */
  function SectorColor(k: int, c: real, x: real, m: real): (rgb: RealColor)
    requires 0 <= k < 6
    requires 0.0 <= x <= c
    ensures Max3(rgb) == c + m && Min3(rgb) == m
    ensures m <= rgb.r <= c + m && m <= rgb.g <= c + m && m <= rgb.b <= c + m
  {
    if k == 0 then RealColor(c + m, x + m, m)
    else if k == 1 then RealColor(x + m, c + m, m)
    else if k == 2 then RealColor(m, c + m, x + m)
    else if k == 3 then RealColor(m, x + m, c + m)
    else if k == 4 then RealColor(x + m, m, c + m)
    else RealColor(c + m, m, x + m)
  }

  lemma ProductInUnit(c: real, w: real)
    requires 0.0 <= c && 0.0 <= w <= 1.0
    ensures 0.0 <= c * w <= c
  {
    MulLeftMono(c, 0.0, w);
    MulLeftMono(c, w, 1.0);
  }

  lemma OneMinus(v: real, s: real)
    ensures v - v * s == v * (1.0 - s)
  {
  }

  /** The conversion for hue sector `k` and weight `w`, and a value `v`
      and a saturation `sc` already in 0..1. The largest channel is the
      value and the smallest `v * (1 - sc)`. */
  function HsvUnit(k: int, w: real, sc: real, v: real): (rgb: RealColor)
    requires 0 <= k < 6 && 0.0 <= w <= 1.0
    requires 0.0 <= sc <= 1.0 && 0.0 <= v <= 1.0
    ensures 0.0 <= rgb.r <= 1.0 && 0.0 <= rgb.g <= 1.0 && 0.0 <= rgb.b <= 1.0
    ensures Max3(rgb) == v && Min3(rgb) == v * (1.0 - sc)
  {
    var c := v * sc;
    ProductInUnit(v, sc);
    assert 0.0 <= c <= v;
    ProductInUnit(c, w);
    assert 0.0 <= c * w <= c;
    OneMinus(v, sc);
    SectorColor(k, c, c * w, v - c)
  }

  /** `ScalarHsv2Rgb::execute`'s conversion: value and saturation are first
      clamped into 0..1; the sector is always 0..5, so the `panic!` arm of
      the match is unreachable. */
  function Hsv(h: real, sat: real, val: real): (rgb: RealColor)
    ensures 0.0 <= rgb.r <= 1.0 && 0.0 <= rgb.g <= 1.0 && 0.0 <= rgb.b <= 1.0
    ensures Max3(rgb) == ClampReal(val, 0.0, 1.0)
    ensures Min3(rgb) == ClampReal(val, 0.0, 1.0) * (1.0 - ClampReal(sat, 0.0, 1.0))
  {
    var hp := h * 6.0;
    HsvUnit(Sector(hp), HueWeight(hp), ClampReal(sat, 0.0, 1.0), ClampReal(val, 0.0, 1.0))
  }

  /** No saturation gives a gray of the clamped value, whatever the hue. */
  lemma HsvGray(h: real, sat: real, val: real)
    requires sat <= 0.0
    ensures var rgb := Hsv(h, sat, val);
            var v := ClampReal(val, 0.0, 1.0);
            rgb.r == v && rgb.g == v && rgb.b == v
  {
  }

  /** A full turn of hue moves `hp` by six: the same sector and weight. */
  lemma HueShift(h: real)
    ensures HueWeight((h + 1.0) * 6.0) == HueWeight(h * 6.0)
    ensures Sector((h + 1.0) * 6.0) == Sector(h * 6.0)
  {
    var hp := h * 6.0;
    assert (h + 1.0) * 6.0 == hp + 6.0;
    WeightSixShift(hp);
    SectorSixShift(hp);
  }

  /** Six sectors further on: the same weight ... */
  lemma WeightSixShift(hp: real)
    ensures HueWeight(hp + 6.0) == HueWeight(hp)
  {
    RemEuclidShift(hp, 2.0, 3);
    assert hp + 3 as real * 2.0 == hp + 6.0;
  }

  /** ... and the same sector. */
  lemma SectorSixShift(hp: real)
    ensures Sector(hp + 6.0) == Sector(hp)
  {
    var n := hp.Floor;
    assert (hp + 6.0).Floor == n + 6;
    assert (n + 6) % 6 == n % 6;
  }

  /** Hue is periodic: a full turn gives the same color. */
  lemma HsvHuePeriodic(h: real, sat: real, val: real)
    ensures Hsv(h + 1.0, sat, val) == Hsv(h, sat, val)
  {
    HueShift(h);
  }

  /** Full saturation and value: hue 0, 1/3 and 2/3 are pure red, green and blue. */
  lemma HsvPrimaries()
    ensures Hsv(0.0, 1.0, 1.0) == RealColor(1.0, 0.0, 0.0)
    ensures Hsv(1.0 / 3.0, 1.0, 1.0) == RealColor(0.0, 1.0, 0.0)
    ensures Hsv(2.0 / 3.0, 1.0, 1.0) == RealColor(0.0, 0.0, 1.0)
  {
    assert Sector(0.0) == 0 && Sector(2.0) == 2 && Sector(4.0) == 4;
    assert HueWeight(0.0) == 0.0 && HueWeight(2.0) == 0.0 && HueWeight(4.0) == 0.0 by {
      assert (0.0 / 2.0).Floor == 0 && (2.0 / 2.0).Floor == 1 && (4.0 / 2.0).Floor == 2;
    }
    assert (1.0 / 3.0) * 6.0 == 2.0 && (2.0 / 3.0) * 6.0 == 4.0;
  }

  /** `ScalarHsv2Rgb::execute` on the store `s`. */
  function Apply(blk: ScalarHsv2Rgb, s: Store): (r: Result<Store>)
    ensures r.Ok? <==> blk.h < |s.scalars| && blk.s < |s.scalars| && blk.v < |s.scalars| && blk.o < |s.rcolors|
    ensures r.Ok? ==> OnlyRealColorChanged(s, r.value, blk.o)
    ensures r.Ok? ==> r.value.rcolors[blk.o] == Hsv(s.scalars[blk.h], s.scalars[blk.s], s.scalars[blk.v])
  {
    var n := |s.scalars|;
    if blk.h < n && blk.s < n && blk.v < n && blk.o < |s.rcolors| then
      Ok(s.(rcolors := s.rcolors[blk.o := Hsv(s.scalars[blk.h], s.scalars[blk.s], s.scalars[blk.v])]))
    else
      Panic
  }

  method Execute(blk: ScalarHsv2Rgb, state: RenderState) returns (ok: bool)
    modifies state
    ensures Outcome(ok, Apply(blk, old(state.Value())), old(state.Value()), state.Value())
  {
    var n := |state.scalars|;
    if !(blk.h < n && blk.s < n && blk.v < n && blk.o < |state.rcolors|) {
      return false;
    }
    var v := state.GetScalar(blk.v);
    var sat := state.GetScalar(blk.s);
    var h := state.GetScalar(blk.h);
    state.SetRColor(blk.o, Hsv(h, sat, v));
    ok := true;
  }
}
