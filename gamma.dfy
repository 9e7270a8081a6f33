/** The `gamma` block: a real-valued color converted to an 8-bit color
    through a power law with a coefficient per channel. The power function
    `f32::pow` is a parameter `pow` of the model. */
module Gamma {
  import opened Json
  import opened VarTypes
  import opened RenderBlock

  datatype Gamma = Gamma(gamma: real, rc: real, gc: real, bc: real, i: Index, x: Index, y: Index, o: Index)

  /** `Gamma::from_obj`. */
  function FromObj(dict: Object): (r: Result<Gamma>)
    ensures r.Ok? <==> HasReals(dict, "params", ["gamma", "rc", "gc", "bc"])
                       && HasIndices(dict, "inputs", ["i", "x", "y"]) && IndexAt(dict, "outputs", "o").Ok?
    ensures r.Ok? ==> RealAt(dict, "params", "gamma") == Ok(r.value.gamma) && RealAt(dict, "params", "rc") == Ok(r.value.rc)
                      && RealAt(dict, "params", "gc") == Ok(r.value.gc) && RealAt(dict, "params", "bc") == Ok(r.value.bc)
    ensures r.Ok? ==> IndexAt(dict, "inputs", "i") == Ok(r.value.i) && IndexAt(dict, "inputs", "x") == Ok(r.value.x)
                      && IndexAt(dict, "inputs", "y") == Ok(r.value.y) && IndexAt(dict, "outputs", "o") == Ok(r.value.o)
  {
    var params := ["gamma", "rc", "gc", "bc"];
    var inputs := ["i", "x", "y"];
    assert HasReals(dict, "params", params) <==>
      RealAt(dict, "params", params[0]).Ok? && RealAt(dict, "params", params[1]).Ok?
      && RealAt(dict, "params", params[2]).Ok? && RealAt(dict, "params", params[3]).Ok?;
    assert HasIndices(dict, "inputs", inputs) <==>
      IndexAt(dict, "inputs", inputs[0]).Ok? && IndexAt(dict, "inputs", inputs[1]).Ok? && IndexAt(dict, "inputs", inputs[2]).Ok?;
    var gamma :- RealAt(dict, "params", "gamma");
    var rc :- RealAt(dict, "params", "rc");
    var gc :- RealAt(dict, "params", "gc");
    var bc :- RealAt(dict, "params", "bc");
    var i :- IndexAt(dict, "inputs", "i");
    var x :- IndexAt(dict, "inputs", "x");
    var y :- IndexAt(dict, "inputs", "y");
    var o :- IndexAt(dict, "outputs", "o");
    Ok(Gamma(gamma, rc, gc, bc, i, x, y, o))
  }

  function ToObj(blk: Gamma): Object {
    map[
      "type" := JStr("gamma"),
      "params" := JObj(map["gamma" := JNum(blk.gamma), "rc" := JNum(blk.rc), "gc" := JNum(blk.gc), "bc" := JNum(blk.bc)]),
      "inputs" := JObj(map["i" := Num(blk.i), "x" := Num(blk.x), "y" := Num(blk.y)]),
      "outputs" := JObj(map["o" := Num(blk.o)])]
  }

  lemma RoundTrip(blk: Gamma)
    ensures FromObj(ToObj(blk)) == Ok(blk)
  {
    assert IsIntegral(blk.i as real) && IsIntegral(blk.x as real);
    assert IsIntegral(blk.y as real) && IsIntegral(blk.o as real);
  }

  /** `clamp(v.floor(), 0.0, 255.0) as u8`: the level of `v` on the 8-bit
      scale. Within 0 .. 256 it is the integer part; below it is 0 and above
      it 255. */
  function Quantize(v: real): (n: u8)
    ensures 0.0 <= v < 256.0 ==> n == v.Floor
    ensures v < 0.0 ==> n == 0
    ensures v >= 255.0 ==> n == 255
    ensures 0.0 <= v ==> n as real <= v
  {
    Clamp(v.Floor, 0, 255)
  }

  /** A larger value never gets a lower level. */
  lemma QuantizeMonotone(u: real, v: real)
    requires u <= v
    ensures Quantize(u) <= Quantize(v)
  {
  }

  /** One channel: `clamp((k * coef * p).floor(), 0, 255)` with `p` the
      channel raised to the power `gamma`. */
  function Level(k: real, coef: real, p: real): u8 {
    Quantize(k * coef * p)
  }

  /** The `Gamma::execute` conversion of one real color. */
  function Convert(blk: Gamma, c: RealColor, pow: (real, real) -> real): Color {
    Color(Level(255.0, blk.rc, pow(c.r, blk.gamma)),
          Level(255.0, blk.gc, pow(c.g, blk.gamma)),
          Level(255.0, blk.bc, pow(c.b, blk.gamma)))
  }

  /** With every coefficient zero the output is black, whatever the input. */
  lemma ZeroCoefficientsBlack(blk: Gamma, c: RealColor, pow: (real, real) -> real)
    requires blk.rc == 0.0 && blk.gc == 0.0 && blk.bc == 0.0
    ensures Convert(blk, c, pow) == BLACK
  {
    assert 255.0 * 0.0 == 0.0;
  }

  /** Coefficients and powered channels in 0..1 give the exact integer part
      of `255 * coef * p`; a full coefficient on a full channel gives 255. */
  lemma UnitRange(coef: real, p: real)
    requires 0.0 <= coef <= 1.0 && 0.0 <= p <= 1.0
    ensures Level(255.0, coef, p) == (255.0 * coef * p).Floor
    ensures coef == 1.0 && p == 1.0 ==> Level(255.0, coef, p) == 255
  {
    MulLeftMono(coef, 0.0, p);
    MulLeftMono(coef, p, 1.0);
    assert 0.0 <= coef * p <= 1.0;
    assert 255.0 * coef * p == 255.0 * (coef * p);
  }

  /** A larger powered channel never gets a lower level, for a
      non-negative coefficient. */
  lemma LevelMonotone(coef: real, p: real, q: real)
    requires 0.0 <= coef && p <= q
    ensures Level(255.0, coef, p) <= Level(255.0, coef, q)
  {
    MulLeftMono(255.0 * coef, p, q);
    QuantizeMonotone(255.0 * coef * p, 255.0 * coef * q);
    assert Level(255.0, coef, p) == Quantize(255.0 * coef * p);
    assert Level(255.0, coef, q) == Quantize(255.0 * coef * q);
  }

  /** `Gamma::execute` on `s`: it reads real color `i` and writes color `o`,
      and nothing else. */
  function Apply(blk: Gamma, s: Store, pow: (real, real) -> real): (r: Result<Store>)
    ensures r.Ok? <==> blk.i < |s.rcolors| && blk.o < |s.colors|
    ensures r.Ok? ==> OnlyColorChanged(s, r.value, blk.o)
    ensures r.Ok? ==> r.value.colors[blk.o] == Convert(blk, s.rcolors[blk.i], pow)
  {
    if blk.i < |s.rcolors| && blk.o < |s.colors| then
      Ok(s.(colors := s.colors[blk.o := Convert(blk, s.rcolors[blk.i], pow)]))
    else
      Panic
  }

  /** The `x` and `y` inputs are parsed but play no part. */
  lemma CoordinatesUnused(blk: Gamma, x: Index, y: Index, s: Store, pow: (real, real) -> real)
    ensures Apply(blk.(x := x, y := y), s, pow) == Apply(blk, s, pow)
  {
  }

  method Execute(blk: Gamma, state: RenderState, pow: (real, real) -> real) returns (ok: bool)
    modifies state
    ensures Outcome(ok, Apply(blk, old(state.Value()), pow), old(state.Value()), state.Value())
  {
    if !(blk.i < |state.rcolors| && blk.o < |state.colors|) {
      return false;
    }
    var rcolor := state.GetRColor(blk.i);
    state.SetColor(blk.o, Convert(blk, rcolor, pow));
    ok := true;
  }
}
