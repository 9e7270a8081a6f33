/** The `scalar_add` block: one scalar slot gets the sum of two others. Its
    output index is read as an `i32` and cast to `usize` when used. */
module ScalarAdd {
  import opened Json
  import opened RenderBlock

  datatype ScalarAdd = ScalarAdd(a: Index, b: Index, o: i32)

  /** `o as usize`: a negative `i32` sign-extends to a huge index. */
  function OutputSlot(o: i32): (slot: Index)
    ensures o >= 0 ==> slot == o
    ensures o < 0 ==> slot >= USIZE_LIMIT / 2
  {
    if o >= 0 then o else o + USIZE_LIMIT
  }

  /** `ScalarAdd::from_obj`: panics unless `inputs.a` and `inputs.b` are
      usize indices and `outputs.o` an `i32`. */
  function FromObj(dict: Object): (r: Result<ScalarAdd>)
    ensures r.Ok? <==> IndexAt(dict, "inputs", "a").Ok? && IndexAt(dict, "inputs", "b").Ok?
                       && I32At(dict, "outputs", "o").Ok?
    ensures r.Ok? ==> IndexAt(dict, "inputs", "a") == Ok(r.value.a)
                      && IndexAt(dict, "inputs", "b") == Ok(r.value.b)
                      && I32At(dict, "outputs", "o") == Ok(r.value.o)
  {
    var a :- IndexAt(dict, "inputs", "a");
    var b :- IndexAt(dict, "inputs", "b");
    var o :- I32At(dict, "outputs", "o");
    Ok(ScalarAdd(a, b, o))
  }

  /** The configuration object that describes `blk`. */
  function ToObj(blk: ScalarAdd): Object {
    map[
      "type" := JStr("scalar_add"),
      "inputs" := JObj(map["a" := Num(blk.a), "b" := Num(blk.b)]),
      "outputs" := JObj(map["o" := Num(blk.o)])]
  }

  lemma RoundTrip(blk: ScalarAdd)
    ensures FromObj(ToObj(blk)) == Ok(blk)
  {
    assert IsIntegral(blk.a as real) && IsIntegral(blk.b as real) && IsIntegral(blk.o as real);
  }

  /** `ScalarAdd::execute` on the store `s`: it panics exactly when one of
      the three slots is outside the scalars, and otherwise changes the
      output slot alone, to the sum of the inputs. */
  function Apply(blk: ScalarAdd, s: Store): (r: Result<Store>)
    ensures r.Ok? <==> blk.a < |s.scalars| && blk.b < |s.scalars| && OutputSlot(blk.o) < |s.scalars|
    ensures r.Ok? ==> OnlyScalarChanged(s, r.value, OutputSlot(blk.o))
    ensures r.Ok? ==> r.value.scalars[OutputSlot(blk.o)] == s.scalars[blk.a] + s.scalars[blk.b]
  {
    var slot := OutputSlot(blk.o);
    if blk.a < |s.scalars| && blk.b < |s.scalars| && slot < |s.scalars| then
      Ok(s.(scalars := s.scalars[slot := s.scalars[blk.a] + s.scalars[blk.b]]))
    else
      Panic
  }

  method Execute(blk: ScalarAdd, state: RenderState) returns (ok: bool)
    modifies state
    ensures Outcome(ok, Apply(blk, old(state.Value())), old(state.Value()), state.Value())
  {
    var slot := OutputSlot(blk.o);
    if !(blk.a < |state.scalars| && blk.b < |state.scalars| && slot < |state.scalars|) {
      return false;
    }
    var x := state.GetScalar(blk.a);
    var y := state.GetScalar(blk.b);
    state.SetScalar(slot, x + y);
    ok := true;
  }

  /** The two inputs can be swapped. */
  lemma ApplyCommutes(blk: ScalarAdd, s: Store)
    ensures Apply(blk.(a := blk.b, b := blk.a), s) == Apply(blk, s)
  {
  }

  /** A negative output index always panics, since no store holds 2^63 scalars. */
  lemma NegativeOutputPanics(blk: ScalarAdd, s: Store)
    requires blk.o < 0 && |s.scalars| < USIZE_LIMIT / 2
    ensures Apply(blk, s).Panic?
  {
  }
}
