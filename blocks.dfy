/** `blocks/mod.rs`: the closed set of render blocks, the factory that
    builds one from its JSON descriptor by the descriptor's `"type"` name,
    and dispatch of `execute` to the block's kind. */
module Blocks {
  import opened Json
  import opened RenderBlock
  import ScalarAdd
  import ScalarMacc
  import ScalarRamp
  import ScalarTriangle
  import ScalarHsv2Rgb
  import ColorInterp
  import Gamma
  import Dither

  /** A `Box<dyn RenderBlock>` of one of the eight registered kinds. */
  datatype Block =
    | ColorInterpBlock(ci: ColorInterp.ColorInterp)
    | DitherBlock(d: Dither.Dither)
    | GammaBlock(g: Gamma.Gamma)
    | ScalarAddBlock(add: ScalarAdd.ScalarAdd)
    | ScalarHsv2RgbBlock(hsv: ScalarHsv2Rgb.ScalarHsv2Rgb)
    | ScalarMaccBlock(macc: ScalarMacc.ScalarMacc)
    | ScalarRampBlock(ramp: ScalarRamp.ScalarRamp)
    | ScalarTriangleBlock(tri: ScalarTriangle.ScalarTriangle)

  /** The names the factory accepts. `image_lookup` is not among them. */
  const NAMES: set<string> := {"color_interp", "dither", "gamma", "scalar_add", "scalar_hsv2rgb",
                               "scalar_macc", "scalar_ramp", "scalar_triangle"}

  /** The `"type"` name of each kind. */
  function Name(b: Block): (n: string)
    ensures n in NAMES
  {
    match b
    case ColorInterpBlock(_) => "color_interp"
    case DitherBlock(_) => "dither"
    case GammaBlock(_) => "gamma"
    case ScalarAddBlock(_) => "scalar_add"
    case ScalarHsv2RgbBlock(_) => "scalar_hsv2rgb"
    case ScalarMaccBlock(_) => "scalar_macc"
    case ScalarRampBlock(_) => "scalar_ramp"
    case ScalarTriangleBlock(_) => "scalar_triangle"
  }

  /** Two blocks of different kinds never share a name. */
  lemma NameDeterminesKind(b: Block, c: Block)
    requires Name(b) == Name(c)
    ensures b.ColorInterpBlock? == c.ColorInterpBlock? && b.DitherBlock? == c.DitherBlock?
    ensures b.GammaBlock? == c.GammaBlock? && b.ScalarAddBlock? == c.ScalarAddBlock?
    ensures b.ScalarHsv2RgbBlock? == c.ScalarHsv2RgbBlock? && b.ScalarMaccBlock? == c.ScalarMaccBlock?
    ensures b.ScalarRampBlock? == c.ScalarRampBlock? && b.ScalarTriangleBlock? == c.ScalarTriangleBlock?
  {
  }

  /** The one invariant a constructor establishes that `execute` relies on:
      a multiply-accumulate block pairs its index lists one to one. */
  predicate WellFormed(b: Block) {
    b.ScalarMaccBlock? ==> |b.macc.m| == |b.macc.x|
  }

  /** The `match name` of `block_factory`: the constructor of the named kind,
      given the whole descriptor unchanged. */
  function Construct(name: string, dict: Object): (r: Result<Block>)
    ensures name !in NAMES ==> r.Panic?
    ensures r.Ok? ==> Name(r.value) == name && WellFormed(r.value)
  {
    match name
    case "color_interp" => var b :- ColorInterp.FromObj(dict); Ok(ColorInterpBlock(b))
    case "dither" => var b :- Dither.FromObj(dict); Ok(DitherBlock(b))
    case "gamma" => var b :- Gamma.FromObj(dict); Ok(GammaBlock(b))
    case "scalar_add" => var b :- ScalarAdd.FromObj(dict); Ok(ScalarAddBlock(b))
    case "scalar_hsv2rgb" => var b :- ScalarHsv2Rgb.FromObj(dict); Ok(ScalarHsv2RgbBlock(b))
    case "scalar_macc" => var b :- ScalarMacc.FromObj(dict); Ok(ScalarMaccBlock(b))
    case "scalar_ramp" => var b :- ScalarRamp.FromObj(dict); Ok(ScalarRampBlock(b))
    case "scalar_triangle" => var b :- ScalarTriangle.FromObj(dict); Ok(ScalarTriangleBlock(b))
    case _ => Panic
  }

  /** `block_factory`: a descriptor that is not an object, has no `"type"`,
      or has a `"type"` that is not a string or not a registered name
      panics; otherwise the named constructor decides. */
  function Factory(v: Json): (r: Result<Block>)
    ensures !v.JObj? ==> r.Panic?
    ensures v.JObj? && !("type" in v.fields && v.fields["type"].JStr?) ==> r.Panic?
    ensures r.Ok? ==> v.JObj? && "type" in v.fields && v.fields["type"] == JStr(Name(r.value))
    ensures r.Ok? ==> WellFormed(r.value)
  {
    if !v.JObj? then Panic
    else
      var name :- Field(v.fields, "type", AsStr);
      Construct(name, v.fields)
  }

  /** Each registered name selects its own constructor, applied to the
      whole descriptor. */
  lemma FactorySelects(dict: Object)
    requires "type" in dict && dict["type"].JStr?
    ensures var name := dict["type"].s;
            var r := Factory(JObj(dict));
            && (name == "color_interp" ==> r == (var b :- ColorInterp.FromObj(dict); Ok(ColorInterpBlock(b))))
            && (name == "dither" ==> r == (var b :- Dither.FromObj(dict); Ok(DitherBlock(b))))
            && (name == "gamma" ==> r == (var b :- Gamma.FromObj(dict); Ok(GammaBlock(b))))
            && (name == "scalar_add" ==> r == (var b :- ScalarAdd.FromObj(dict); Ok(ScalarAddBlock(b))))
            && (name == "scalar_hsv2rgb" ==> r == (var b :- ScalarHsv2Rgb.FromObj(dict); Ok(ScalarHsv2RgbBlock(b))))
            && (name == "scalar_macc" ==> r == (var b :- ScalarMacc.FromObj(dict); Ok(ScalarMaccBlock(b))))
            && (name == "scalar_ramp" ==> r == (var b :- ScalarRamp.FromObj(dict); Ok(ScalarRampBlock(b))))
            && (name == "scalar_triangle" ==> r == (var b :- ScalarTriangle.FromObj(dict); Ok(ScalarTriangleBlock(b))))
  {
  }

  /** `image_lookup` is not registered: the factory refuses it whatever
      the rest of the descriptor holds. */
  lemma ImageLookupUnregistered(dict: Object)
    requires "type" in dict && dict["type"] == JStr("image_lookup")
    ensures Factory(JObj(dict)).Panic?
  {
    assert "image_lookup" !in NAMES;
  }

  /** The descriptor of a block, with its `"type"` name. */
  function ToObj(b: Block): Object {
    match b
    case ColorInterpBlock(ci) => ColorInterp.ToObj(ci)
    case DitherBlock(d) => Dither.ToObj(d)
    case GammaBlock(g) => Gamma.ToObj(g)
    case ScalarAddBlock(add) => ScalarAdd.ToObj(add)
    case ScalarHsv2RgbBlock(hsv) => ScalarHsv2Rgb.ToObj(hsv)
    case ScalarMaccBlock(macc) => ScalarMacc.ToObj(macc)
    case ScalarRampBlock(ramp) => ScalarRamp.ToObj(ramp)
    case ScalarTriangleBlock(tri) => ScalarTriangle.ToObj(tri)
  }

  /** The factory reads the `"type"` name and hands the descriptor on. */
  lemma FactoryByName(dict: Object, b: Block)
    requires "type" in dict && dict["type"] == JStr(Name(b)) && Construct(Name(b), dict) == Ok(b)
    ensures Factory(JObj(dict)) == Ok(b)
  {
  }

  /** The factory rebuilds every well-formed block from its descriptor. */
  lemma FactoryRoundTrip(b: Block)
    requires WellFormed(b)
    ensures Factory(JObj(ToObj(b))) == Ok(b)
  {
    if b.ColorInterpBlock? || b.DitherBlock? || b.GammaBlock? || b.ScalarAddBlock? {
      ConstructRoundTripColor(b);
    } else if b.ScalarMaccBlock? {
      ScalarMacc.RoundTrip(b.macc);
    } else {
      ConstructRoundTripScalar(b);
    }
    FactoryByName(ToObj(b), b);
  }

  /** The constructors of the color blocks and of `scalar_add` undo
      `ToObj`. */
  lemma ConstructRoundTripColor(b: Block)
    requires b.ColorInterpBlock? || b.DitherBlock? || b.GammaBlock? || b.ScalarAddBlock?
    ensures "type" in ToObj(b) && ToObj(b)["type"] == JStr(Name(b))
    ensures Construct(Name(b), ToObj(b)) == Ok(b)
  {
    match b
    case ColorInterpBlock(ci) => ColorInterp.RoundTrip(ci);
    case DitherBlock(d) => Dither.RoundTrip(d);
    case GammaBlock(g) => Gamma.RoundTrip(g);
    case ScalarAddBlock(add) => ScalarAdd.RoundTrip(add);
  }

  /** The constructors of the other scalar blocks, but for
      multiply-accumulate, undo `ToObj`. */
  lemma ConstructRoundTripScalar(b: Block)
    requires b.ScalarHsv2RgbBlock? || b.ScalarRampBlock? || b.ScalarTriangleBlock?
    ensures "type" in ToObj(b) && ToObj(b)["type"] == JStr(Name(b))
    ensures Construct(Name(b), ToObj(b)) == Ok(b)
  {
    match b
    case ScalarHsv2RgbBlock(hsv) => ScalarHsv2Rgb.RoundTrip(hsv);
    case ScalarRampBlock(ramp) => ScalarRamp.RoundTrip(ramp);
    case ScalarTriangleBlock(tri) => ScalarTriangle.RoundTrip(tri);
  }

  /** `RenderBlock::execute` on the store `s`, by kind; `pow` is `f32::pow`. */
  function Apply(b: Block, s: Store, pow: (real, real) -> real): (r: Result<Store>)
    requires WellFormed(b)
    ensures r.Ok? ==> SameShape(s, r.value)
  {
    match b
    case ColorInterpBlock(ci) => ColorInterp.Apply(ci, s)
    case DitherBlock(d) => Dither.Apply(d, s, pow)
    case GammaBlock(g) => Gamma.Apply(g, s, pow)
    case ScalarAddBlock(add) => ScalarAdd.Apply(add, s)
    case ScalarHsv2RgbBlock(hsv) => ScalarHsv2Rgb.Apply(hsv, s)
    case ScalarMaccBlock(macc) => ScalarMacc.Apply(macc, s)
    case ScalarRampBlock(ramp) => ScalarRamp.Apply(ramp, s)
    case ScalarTriangleBlock(tri) => ScalarTriangle.Apply(tri, s)
  }

  /** Every block writes at most one slot: the positions and data buffers
      are never written, and only scalar blocks touch the scalars. */
  lemma ApplyLeavesPositionsAndData(b: Block, s: Store, pow: (real, real) -> real)
    requires WellFormed(b) && Apply(b, s, pow).Ok?
    ensures Apply(b, s, pow).value.positions == s.positions
    ensures Apply(b, s, pow).value.data == s.data
    ensures !(b.ScalarAddBlock? || b.ScalarMaccBlock? || b.ScalarRampBlock? || b.ScalarTriangleBlock?)
            ==> Apply(b, s, pow).value.scalars == s.scalars
  {
  }

  method Execute(b: Block, state: RenderState, pow: (real, real) -> real) returns (ok: bool)
    requires WellFormed(b)
    modifies state
    ensures Outcome(ok, Apply(b, old(state.Value()), pow), old(state.Value()), state.Value())
  {
    match b
    case ColorInterpBlock(ci) => ok := ColorInterp.Execute(ci, state);
    case DitherBlock(d) => ok := Dither.Execute(d, state, pow);
    case GammaBlock(g) => ok := Gamma.Execute(g, state, pow);
    case ScalarAddBlock(add) => ok := ScalarAdd.Execute(add, state);
    case ScalarHsv2RgbBlock(hsv) => ok := ScalarHsv2Rgb.Execute(hsv, state);
    case ScalarMaccBlock(macc) => ok := ScalarMacc.Execute(macc, state);
    case ScalarRampBlock(ramp) => ok := ScalarRamp.Execute(ramp, state);
    case ScalarTriangleBlock(tri) => ok := ScalarTriangle.Execute(tri, state);
  }
}
