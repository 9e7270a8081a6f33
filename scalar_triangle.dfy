/** The `scalar_triangle` block: a triangle wave of frequency `f` with a
    50% duty cycle, falling from `max` to `min` over the first half period
    and rising back over the second. */
module ScalarTriangle {
  import opened Json
  import opened VarTypes
  import opened RenderBlock

  datatype ScalarTriangle = ScalarTriangle(f: Index, min: Index, max: Index, i: Index, o: Index)

  /** `ScalarTriangle::from_obj`. */
  function FromObj(dict: Object): (r: Result<ScalarTriangle>)
    ensures r.Ok? <==> HasIndices(dict, "inputs", ["f", "min", "max", "i"]) && IndexAt(dict, "outputs", "o").Ok?
    ensures r.Ok? ==> IndexAt(dict, "inputs", "f") == Ok(r.value.f) && IndexAt(dict, "inputs", "min") == Ok(r.value.min)
                      && IndexAt(dict, "inputs", "max") == Ok(r.value.max) && IndexAt(dict, "inputs", "i") == Ok(r.value.i)
                      && IndexAt(dict, "outputs", "o") == Ok(r.value.o)
  {
    var keys := ["f", "min", "max", "i"];
    assert HasIndices(dict, "inputs", keys) <==>
      IndexAt(dict, "inputs", keys[0]).Ok? && IndexAt(dict, "inputs", keys[1]).Ok?
      && IndexAt(dict, "inputs", keys[2]).Ok? && IndexAt(dict, "inputs", keys[3]).Ok?;
    var f :- IndexAt(dict, "inputs", "f");
    var min :- IndexAt(dict, "inputs", "min");
    var max :- IndexAt(dict, "inputs", "max");
    var i :- IndexAt(dict, "inputs", "i");
    var o :- IndexAt(dict, "outputs", "o");
    Ok(ScalarTriangle(f, min, max, i, o))
  }

  function ToObj(blk: ScalarTriangle): Object {
    map[
      "type" := JStr("scalar_triangle"),
      "inputs" := JObj(map["f" := Num(blk.f), "min" := Num(blk.min), "max" := Num(blk.max), "i" := Num(blk.i)]),
      "outputs" := JObj(map["o" := Num(blk.o)])]
  }

  lemma RoundTrip(blk: ScalarTriangle)
    ensures FromObj(ToObj(blk)) == Ok(blk)
  {
    assert IsIntegral(blk.f as real) && IsIntegral(blk.min as real) && IsIntegral(blk.max as real);
    assert IsIntegral(blk.i as real) && IsIntegral(blk.o as real);
  }

  /** The distance of the phase from the middle of its period, 0 .. 1:
      1 at the period's start, 0 half-way through. */
  function Fold(p: real): (d: real)
    requires 0.0 <= p < 1.0
    ensures 0.0 <= d <= 1.0
    ensures d == 1.0 <==> p == 0.0
    ensures d == 0.0 <==> p == 0.5
  {
    Abs(p - 0.5) * 2.0
  }

  /** The triangle value at input `i`, between `min` and `max`. */
  function Triangle(i: real, f: real, min: real, max: real): (out: real)
    ensures min <= max ==> min <= out <= max
    ensures max <= min ==> max <= out <= min
    ensures IsIntegral(i * f) ==> out == max
    ensures Frac(i * f) == 0.5 ==> out == min
  {
    FracNeg(i * f);
    var d := Fold(Frac(i * f));
    Portion(d, max - min) + min
  }

  /** The wave is even in the phase: inputs `i` and `-i` give the same value. */
  lemma TriangleEven(i: real, f: real, min: real, max: real)
    ensures Triangle(-i, f, min, max) == Triangle(i, f, min, max)
  {
    assert (-i) * f == -(i * f);
    FracNeg(i * f);
  }

  /** The wave repeats every `1 / f` in the input. */
  lemma TrianglePeriodic(i: real, f: real, min: real, max: real, n: int)
    requires f != 0.0
    ensures Triangle(i + n as real / f, f, min, max) == Triangle(i, f, min, max)
  {
    assert (i + n as real / f) * f == i * f + n as real;
    FracShift(i * f, n);
  }

  /** A worked case: frequency 1 over [0, 10] at a quarter and at three
      quarters of the period gives 5 both times. */
  lemma TriangleExample()
    ensures Triangle(0.25, 1.0, 0.0, 10.0) == 5.0
    ensures Triangle(0.75, 1.0, 0.0, 10.0) == 5.0
  {
    assert (0.25).Floor == 0 && (0.75).Floor == 0;
  }

  /** `ScalarTriangle::execute` on `s`. */
  function Apply(blk: ScalarTriangle, s: Store): (r: Result<Store>)
    ensures r.Ok? <==> blk.f < |s.scalars| && blk.min < |s.scalars| && blk.max < |s.scalars|
                       && blk.i < |s.scalars| && blk.o < |s.scalars|
    ensures r.Ok? ==> OnlyScalarChanged(s, r.value, blk.o)
    ensures r.Ok? ==> r.value.scalars[blk.o]
                      == Triangle(s.scalars[blk.i], s.scalars[blk.f], s.scalars[blk.min], s.scalars[blk.max])
  {
    var n := |s.scalars|;
    if blk.f < n && blk.min < n && blk.max < n && blk.i < n && blk.o < n then
      var v := Triangle(s.scalars[blk.i], s.scalars[blk.f], s.scalars[blk.min], s.scalars[blk.max]);
      Ok(s.(scalars := s.scalars[blk.o := v]))
    else
      Panic
  }

  method Execute(blk: ScalarTriangle, state: RenderState) returns (ok: bool)
    modifies state
    ensures Outcome(ok, Apply(blk, old(state.Value())), old(state.Value()), state.Value())
  {
    var n := |state.scalars|;
    if !(blk.f < n && blk.min < n && blk.max < n && blk.i < n && blk.o < n) {
      return false;
    }
    var i := state.GetScalar(blk.i);
    var f := state.GetScalar(blk.f);
    var min := state.GetScalar(blk.min);
    var max := state.GetScalar(blk.max);
    state.SetScalar(blk.o, Triangle(i, f, min, max));
    ok := true;
  }
}
