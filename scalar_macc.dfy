/** The `scalar_macc` block: a multiply-accumulate over pairs of scalar
    slots, written to one output slot. */
module ScalarMacc {
  import opened Json
  import opened RenderBlock

  datatype ScalarMacc = ScalarMacc(m: seq<Index>, x: seq<Index>, o: Index)

  /** `ScalarMacc::from_obj`: the two index arrays must both be present,
      have the same length and hold only usize values. */
  function FromObj(dict: Object): (r: Result<ScalarMacc>)
    ensures r.Ok? <==> IndexArrayAt(dict, "inputs", "m").Ok? && IndexArrayAt(dict, "inputs", "x").Ok?
                       && |IndexArrayAt(dict, "inputs", "m").value| == |IndexArrayAt(dict, "inputs", "x").value|
                       && IndexAt(dict, "outputs", "o").Ok?
    ensures r.Ok? ==> |r.value.m| == |r.value.x|
    ensures r.Ok? ==> IndexArrayAt(dict, "inputs", "m") == Ok(r.value.m)
                      && IndexArrayAt(dict, "inputs", "x") == Ok(r.value.x)
                      && IndexAt(dict, "outputs", "o") == Ok(r.value.o)
  {
    var m :- IndexArrayAt(dict, "inputs", "m");
    var x :- IndexArrayAt(dict, "inputs", "x");
    if |m| != |x| then Panic
    else
      var o :- IndexAt(dict, "outputs", "o");
      Ok(ScalarMacc(m, x, o))
  }

  /** Two arrays of different lengths are refused. */
  lemma UnequalLengthsPanic(dict: Object)
    requires IndexArrayAt(dict, "inputs", "m").Ok? && IndexArrayAt(dict, "inputs", "x").Ok?
    requires |IndexArrayAt(dict, "inputs", "m").value| != |IndexArrayAt(dict, "inputs", "x").value|
    ensures FromObj(dict).Panic?
  {
  }

  function ToObj(blk: ScalarMacc): Object {
    map[
      "type" := JStr("scalar_macc"),
      "inputs" := JObj(map["m" := JArr(NumArray(blk.m)), "x" := JArr(NumArray(blk.x))]),
      "outputs" := JObj(map["o" := Num(blk.o)])]
  }

  lemma RoundTrip(blk: ScalarMacc)
    requires |blk.m| == |blk.x|
    ensures FromObj(ToObj(blk)) == Ok(blk)
  {
    NumArrayParses(blk.m);
    NumArrayParses(blk.x);
    assert IsIntegral(blk.o as real);
  }

  predicate InRange(s: seq<real>, idxs: seq<Index>) {
    forall k :: 0 <= k < |idxs| ==> idxs[k] < |s|
  }

  /** The sum over the pairs, in order, of `s[m[k]] * s[x[k]]`. */
  function Dot(s: seq<real>, m: seq<Index>, x: seq<Index>): real
    requires |m| == |x| && InRange(s, m) && InRange(s, x)
    decreases |m|
  {
    if |m| == 0 then 0.0
    else Dot(s, m[..|m| - 1], x[..|x| - 1]) + s[m[|m| - 1]] * s[x[|x| - 1]]
  }

  /** `ScalarMacc::execute` on `s`: it panics exactly when an index is
      outside the scalars, and otherwise writes the accumulated products to
      the output slot alone. */
  function Apply(blk: ScalarMacc, s: Store): (r: Result<Store>)
    requires |blk.m| == |blk.x|
    ensures r.Ok? <==> InRange(s.scalars, blk.m) && InRange(s.scalars, blk.x) && blk.o < |s.scalars|
    ensures r.Ok? ==> OnlyScalarChanged(s, r.value, blk.o)
    ensures r.Ok? ==> r.value.scalars[blk.o] == Dot(s.scalars, blk.m, blk.x)
  {
    if InRange(s.scalars, blk.m) && InRange(s.scalars, blk.x) && blk.o < |s.scalars| then
      Ok(s.(scalars := s.scalars[blk.o := Dot(s.scalars, blk.m, blk.x)]))
    else
      Panic
  }

  method Execute(blk: ScalarMacc, state: RenderState) returns (ok: bool)
    requires |blk.m| == |blk.x|
    modifies state
    ensures Outcome(ok, Apply(blk, old(state.Value())), old(state.Value()), state.Value())
  {
    var out := 0.0;
    for i := 0 to |blk.m|
      invariant InRange(state.scalars, blk.m[..i]) && InRange(state.scalars, blk.x[..i])
      invariant out == Dot(state.scalars, blk.m[..i], blk.x[..i])
      invariant state.Value() == old(state.Value())
    {
      if !(blk.m[i] < |state.scalars| && blk.x[i] < |state.scalars|) {
        assert !(InRange(state.scalars, blk.m) && InRange(state.scalars, blk.x));
        return false;
      }
      var mv := state.GetScalar(blk.m[i]);
      var xv := state.GetScalar(blk.x[i]);
      assert blk.m[..i + 1][..i] == blk.m[..i] && blk.x[..i + 1][..i] == blk.x[..i];
      out := out + mv * xv;
    }
    assert blk.m[..|blk.m|] == blk.m && blk.x[..|blk.x|] == blk.x;
    if blk.o >= |state.scalars| {
      return false;
    }
    state.SetScalar(blk.o, out);
    ok := true;
  }

  /** Weights and inputs play symmetric roles. */
  lemma {:induction false} DotSwap(s: seq<real>, m: seq<Index>, x: seq<Index>)
    requires |m| == |x| && InRange(s, m) && InRange(s, x)
    ensures Dot(s, m, x) == Dot(s, x, m)
    decreases |m|
  {
    if |m| > 0 {
      DotSwap(s, m[..|m| - 1], x[..|x| - 1]);
    }
  }

  /** Pairs whose weight slot holds zero contribute nothing. */
  lemma {:induction false} DotZeroWeights(s: seq<real>, m: seq<Index>, x: seq<Index>)
    requires |m| == |x| && InRange(s, m) && InRange(s, x)
    requires forall k :: 0 <= k < |m| ==> s[m[k]] == 0.0
    ensures Dot(s, m, x) == 0.0
    decreases |m|
  {
    if |m| > 0 {
      DotZeroWeights(s, m[..|m| - 1], x[..|x| - 1]);
    }
  }

  /** Accumulating two lists one after the other adds their sums. */
  lemma {:induction false} DotAppend(s: seq<real>, m1: seq<Index>, x1: seq<Index>, m2: seq<Index>, x2: seq<Index>)
    requires |m1| == |x1| && |m2| == |x2|
    requires InRange(s, m1) && InRange(s, x1) && InRange(s, m2) && InRange(s, x2)
    ensures InRange(s, m1 + m2) && InRange(s, x1 + x2)
    ensures Dot(s, m1 + m2, x1 + x2) == Dot(s, m1, x1) + Dot(s, m2, x2)
    decreases |m2|
  {
    if |m2| == 0 {
      assert m1 + m2 == m1 && x1 + x2 == x1;
    } else {
      var m2' := m2[..|m2| - 1];
      var x2' := x2[..|x2| - 1];
      DotAppend(s, m1, x1, m2', x2');
      assert (m1 + m2)[..|m1 + m2| - 1] == m1 + m2';
      assert (x1 + x2)[..|x1 + x2| - 1] == x1 + x2';
    }
  }
}
