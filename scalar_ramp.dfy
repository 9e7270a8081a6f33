/** The `scalar_ramp` block: a sawtooth of frequency `f` in the input `i`,
    rising from `min` towards `max` once per period. */
module ScalarRamp {
  import opened Json
  import opened VarTypes
  import opened RenderBlock

  datatype ScalarRamp = ScalarRamp(f: Index, min: Index, max: Index, i: Index, o: Index)

  /** `ScalarRamp::from_obj`. */
  function FromObj(dict: Object): (r: Result<ScalarRamp>)
    ensures r.Ok? <==> HasIndices(dict, "inputs", ["f", "min", "max", "i"]) && IndexAt(dict, "outputs", "o").Ok?
    ensures r.Ok? ==> IndexAt(dict, "inputs", "f") == Ok(r.value.f) && IndexAt(dict, "inputs", "min") == Ok(r.value.min)
                      && IndexAt(dict, "inputs", "max") == Ok(r.value.max) && IndexAt(dict, "inputs", "i") == Ok(r.value.i)
                      && IndexAt(dict, "outputs", "o") == Ok(r.value.o)
  {
    var keys := ["f", "min", "max", "i"];
    assert HasIndices(dict, "inputs", keys) <==>
      IndexAt(dict, "inputs", keys[0]).Ok? && IndexAt(dict, "inputs", keys[1]).Ok?
      && IndexAt(dict, "inputs", keys[2]).Ok? && IndexAt(dict, "inputs", keys[3]).Ok?;
    var f :- IndexAt(dict, "inputs", "f");
    var min :- IndexAt(dict, "inputs", "min");
    var max :- IndexAt(dict, "inputs", "max");
    var i :- IndexAt(dict, "inputs", "i");
    var o :- IndexAt(dict, "outputs", "o");
    Ok(ScalarRamp(f, min, max, i, o))
  }

  function ToObj(blk: ScalarRamp): Object {
    map[
      "type" := JStr("scalar_ramp"),
      "inputs" := JObj(map["f" := Num(blk.f), "min" := Num(blk.min), "max" := Num(blk.max), "i" := Num(blk.i)]),
      "outputs" := JObj(map["o" := Num(blk.o)])]
  }

  lemma RoundTrip(blk: ScalarRamp)
    ensures FromObj(ToObj(blk)) == Ok(blk)
  {
    assert IsIntegral(blk.f as real) && IsIntegral(blk.min as real) && IsIntegral(blk.max as real);
    assert IsIntegral(blk.i as real) && IsIntegral(blk.o as real);
  }

  /** The ramp value at input `i`: `min` plus the fraction of the current
      period elapsed, times `max - min`. It stays in [min, max) and, with
      `max` below `min`, in (max, min]. */
  function Ramp(i: real, f: real, min: real, max: real): (out: real)
    ensures min < max ==> min <= out < max
    ensures min == max ==> out == min
    ensures max < min ==> max < out <= min
  {
    var p := Frac(i * f);
    Portion(p, max - min) + min
  }

  /** The ramp repeats every `1 / f` in the input. */
  lemma RampPeriodic(i: real, f: real, min: real, max: real, n: int)
    requires f != 0.0
    ensures Ramp(i + n as real / f, f, min, max) == Ramp(i, f, min, max)
  {
    assert (i + n as real / f) * f == i * f + n as real;
    FracShift(i * f, n);
  }

  /** At a whole number of periods the ramp restarts at `min`. */
  lemma RampRestarts(i: real, f: real, min: real, max: real)
    requires IsIntegral(i * f)
    ensures Ramp(i, f, min, max) == min
  {
    FracNeg(i * f);
  }

  /** A worked case: frequency 1/4 over [0, 4) at input 5 gives 1. */
  lemma RampExample()
    ensures Ramp(5.0, 0.25, 0.0, 4.0) == 1.0
  {
    assert (1.25).Floor == 1;
  }

  /** `ScalarRamp::execute` on `s`. */
  function Apply(blk: ScalarRamp, s: Store): (r: Result<Store>)
    ensures r.Ok? <==> blk.f < |s.scalars| && blk.min < |s.scalars| && blk.max < |s.scalars|
                       && blk.i < |s.scalars| && blk.o < |s.scalars|
    ensures r.Ok? ==> OnlyScalarChanged(s, r.value, blk.o)
    ensures r.Ok? ==> r.value.scalars[blk.o]
                      == Ramp(s.scalars[blk.i], s.scalars[blk.f], s.scalars[blk.min], s.scalars[blk.max])
  {
    var n := |s.scalars|;
    if blk.f < n && blk.min < n && blk.max < n && blk.i < n && blk.o < n then
      var v := Ramp(s.scalars[blk.i], s.scalars[blk.f], s.scalars[blk.min], s.scalars[blk.max]);
      Ok(s.(scalars := s.scalars[blk.o := v]))
    else
      Panic
  }

  method Execute(blk: ScalarRamp, state: RenderState) returns (ok: bool)
    modifies state
    ensures Outcome(ok, Apply(blk, old(state.Value())), old(state.Value()), state.Value())
  {
    var n := |state.scalars|;
    if !(blk.f < n && blk.min < n && blk.max < n && blk.i < n && blk.o < n) {
      return false;
    }
    var i := state.GetScalar(blk.i);
    var f := state.GetScalar(blk.f);
    var min := state.GetScalar(blk.min);
    var max := state.GetScalar(blk.max);
    state.SetScalar(blk.o, Ramp(i, f, min, max));
    ok := true;
  }
}
