/** The `color_interp` block: a piecewise-linear color map. A list of
    scalar slots holds increasing break points and a parallel list of color
    slots the color at each; the input value is located between two
    consecutive break points and the two colors mixed in proportion.

    `ApplyAsWritten` is the code as it stands, which indexes the scalars and
    colors with the segment number itself instead of going through the two
    lists, and `ExecuteAsWritten` runs it in place; `Apply` and `Execute` are
    the intended behaviour, which the block dispatch of `Blocks` uses. */
module ColorInterp {
  import opened Json
  import opened VarTypes
  import opened RenderBlock

  datatype ColorInterp = ColorInterp(colors: seq<Index>, points: seq<Index>, val: Index, o: Index)

  /** `ColorInterp::from_obj`. */
  function FromObj(dict: Object): (r: Result<ColorInterp>)
    ensures r.Ok? <==> IndexArrayAt(dict, "inputs", "color").Ok? && IndexArrayAt(dict, "inputs", "point").Ok?
                       && IndexAt(dict, "inputs", "val").Ok? && IndexAt(dict, "outputs", "o").Ok?
    ensures r.Ok? ==> IndexArrayAt(dict, "inputs", "color") == Ok(r.value.colors)
                      && IndexArrayAt(dict, "inputs", "point") == Ok(r.value.points)
                      && IndexAt(dict, "inputs", "val") == Ok(r.value.val)
                      && IndexAt(dict, "outputs", "o") == Ok(r.value.o)
  {
    var colors :- IndexArrayAt(dict, "inputs", "color");
    var points :- IndexArrayAt(dict, "inputs", "point");
    var val :- IndexAt(dict, "inputs", "val");
    var o :- IndexAt(dict, "outputs", "o");
    Ok(ColorInterp(colors, points, val, o))
  }

  function ToObj(blk: ColorInterp): Object {
    map[
      "type" := JStr("color_interp"),
      "inputs" := JObj(map["color" := JArr(NumArray(blk.colors)), "point" := JArr(NumArray(blk.points)),
                           "val" := Num(blk.val)]),
      "outputs" := JObj(map["o" := Num(blk.o)])]
  }

  lemma RoundTrip(blk: ColorInterp)
    ensures FromObj(ToObj(blk)) == Ok(blk)
  {
    NumArrayParses(blk.colors);
    NumArrayParses(blk.points);
    assert IsIntegral(blk.val as real) && IsIntegral(blk.o as real);
  }

  /** `k` is the first break point at or above `val`, and every break point
      examined on the way there was a valid slot. */
  predicate FirstAtLeast(s: seq<real>, points: seq<Index>, val: real, k: nat) {
    k < |points| && points[k] < |s| && val <= s[points[k]]
    && forall j :: 0 <= j < k ==> points[j] < |s| && s[points[j]] < val
  }

  /** `point_idxs.iter().position(|x| val <= state.get_scalar(*x))`, from
      position `from` on, followed by the `expect`: it panics on the first
      slot out of range, or when no break point is at or above `val`. */
  function PositionFrom(s: seq<real>, points: seq<Index>, val: real, from: nat): (r: Result<nat>)
    requires from <= |points|
    requires forall j :: 0 <= j < from ==> points[j] < |s| && s[points[j]] < val
    ensures r.Ok? <==> exists k :: FirstAtLeast(s, points, val, k)
    ensures r.Ok? ==> FirstAtLeast(s, points, val, r.value)
    decreases |points| - from
  {
    if from == |points| then
      assert forall k :: !FirstAtLeast(s, points, val, k);
      Panic
    else if points[from] >= |s| then
      assert forall k :: !FirstAtLeast(s, points, val, k);
      Panic
    else if val <= s[points[from]] then
      assert FirstAtLeast(s, points, val, from);
      Ok(from)
    else
      PositionFrom(s, points, val, from + 1)
  }

  function Position(s: seq<real>, points: seq<Index>, val: real): (r: Result<nat>)
    ensures r.Ok? <==> exists k :: FirstAtLeast(s, points, val, k)
    ensures r.Ok? ==> FirstAtLeast(s, points, val, r.value)
  {
    PositionFrom(s, points, val, 0)
  }

  /** At most one break point is the first one at or above `val`. */
  lemma FirstAtLeastUnique(s: seq<real>, points: seq<Index>, val: real, k1: nat, k2: nat)
    requires FirstAtLeast(s, points, val, k1) && FirstAtLeast(s, points, val, k2)
    ensures k1 == k2
  {
  }

  /** `start * (1.0 - alpha) + end * alpha` on colors: each product rounded
      and clamped to 0..255, the sum saturating. */
  function Mix(start: Color, end: Color, alpha: real): (c: Color)
    ensures alpha == 0.0 ==> c == start
    ensures alpha == 1.0 ==> c == end
  {
    ColorAddBlack(start);
    ColorAddBlack(end);
    ColorAdd(ColorScale(start, 1.0 - alpha), ColorScale(end, alpha))
  }

  /** Every channel that is not zero, driven to full scale. */
  function Saturate(c: Color): Color {
    Color(if c.r > 0 then 255 else 0, if c.g > 0 then 255 else 0, if c.b > 0 then 255 else 0)
  }

  /** The mix with `alpha = num / den` computed in `f32`, which also defines
      a division by zero: `0 / 0` is NaN, and a NaN channel survives rounding
      and clamping and converts to 0; `num / 0` is an infinity, which drives
      one endpoint's non-zero channels to 255 and the other's to 0 (a zero
      channel times an infinity is NaN, so 0 again). */
  function Blend(start: Color, end: Color, num: real, den: real): (c: Color)
    ensures den != 0.0 ==> c == Mix(start, end, num / den)
    ensures den == 0.0 && num == 0.0 ==> c == BLACK
    ensures den == 0.0 && num > 0.0 ==> c == Saturate(end)
    ensures den == 0.0 && num < 0.0 ==> c == Saturate(start)
  {
    if den != 0.0 then Mix(start, end, num / den)
    else if num == 0.0 then BLACK
    else if num > 0.0 then ColorAdd(BLACK, Saturate(end))
    else ColorAdd(Saturate(start), BLACK)
  }

  // ----- As written -----

  /** `ColorInterp::execute` as written: after finding the segment `k`, it
      reads scalars `k - 1` and `k` and colors `k - 1` and `k` directly,
      ignoring `point_idxs` and `color_idxs`. `k == 0` underflows the `usize`
      subtraction, which panics (or, wrapped, indexes out of range). */
  function ApplyAsWritten(blk: ColorInterp, s: Store): (r: Result<Store>)
    ensures r.Ok? ==> OnlyColorChanged(s, r.value, blk.o)
  {
    if blk.val >= |s.scalars| then Panic
    else
      var k :- Position(s.scalars, blk.points, s.scalars[blk.val]);
      AsWrittenAt(blk, s, k)
  }

  /** The code as written once the search has returned `k`. */
  function AsWrittenAt(blk: ColorInterp, s: Store, k: nat): (r: Result<Store>)
    requires blk.val < |s.scalars|
    ensures r.Ok? ==> OnlyColorChanged(s, r.value, blk.o)
  {
    if k == 0 || k >= |s.scalars| || k >= |s.colors| || blk.o >= |s.colors| then Panic
    else Ok(s.(colors := s.colors[blk.o := WrittenColor(blk, s, k)]))
  }

  /** The color the code as written computes on segment `k`: the blend of
      colors `k - 1` and `k` at the value, between scalars `k - 1` and `k`. */
  function WrittenColor(blk: ColorInterp, s: Store, k: nat): Color
    requires blk.val < |s.scalars| && 0 < k < |s.scalars| && k < |s.colors|
  {
    BlendAt(s, blk.val, k - 1, k, k - 1, k)
  }

  /** The blend of colors `c0` and `c1` at the value in scalar `v`, for the
      segment from the break point in scalar `p0` to the one in scalar `p1`:
      `(val - start_val) / (end_val - start_val)` of the way. */
  function BlendAt(s: Store, v: nat, p0: nat, p1: nat, c0: nat, c1: nat): Color
    requires v < |s.scalars| && p0 < |s.scalars| && p1 < |s.scalars| && c0 < |s.colors| && c1 < |s.colors|
  {
    var val := s.scalars[v];
    var startVal := s.scalars[p0];
    var endVal := s.scalars[p1];
    Blend(s.colors[c0], s.colors[c1], val - startVal, endVal - startVal)
  }

  /** The segment the code as written goes on to blend: the search found
      `k`, and every slot it then reads or writes is in range. */
  function WrittenSegment(blk: ColorInterp, s: Store): (r: Option<nat>)
    ensures r.Some? <==> ApplyAsWritten(blk, s).Ok?
    ensures r.Some? ==> blk.val < |s.scalars| && 0 < r.value < |s.scalars| && r.value < |s.colors| && blk.o < |s.colors|
    ensures r.Some? ==> ApplyAsWritten(blk, s) == Ok(s.(colors := s.colors[blk.o := WrittenColor(blk, s, r.value)]))
  {
    if blk.val >= |s.scalars| then None
    else
      match Position(s.scalars, blk.points, s.scalars[blk.val])
      case Panic => None
      case Ok(k) =>
        AsWrittenFound(blk, s, k);
        if k == 0 || k >= |s.scalars| || k >= |s.colors| || blk.o >= |s.colors| then
          AsWrittenOutOfRange(blk, s, k);
          None
        else
          AsWrittenAtSegment(blk, s, k);
          Some(k)
  }

  // ----- Intended -----

  /** The segment `k - 1 .. k` of the break points that contains `val`, and
      the colors at its two ends, are all valid slots. */
  predicate Bracketed(blk: ColorInterp, s: Store, k: nat) {
    blk.val < |s.scalars| && FirstAtLeast(s.scalars, blk.points, s.scalars[blk.val], k) && 0 < k
    && k < |blk.colors| && blk.colors[k - 1] < |s.colors| && blk.colors[k] < |s.colors|
  }

  /** The proportion of the way from break point `k - 1` to break point `k`
      that `val` lies. */
  function Alpha(blk: ColorInterp, s: Store, k: nat): (alpha: real)
    requires Bracketed(blk, s, k)
    ensures 0.0 < alpha <= 1.0
  {
    var val := s.scalars[blk.val];
    var lo := s.scalars[blk.points[k - 1]];
    var hi := s.scalars[blk.points[k]];
    assert lo < val <= hi;
    AlphaInUnit(val, lo, hi);
    (val - lo) / (hi - lo)
  }

  lemma AlphaInUnit(val: real, lo: real, hi: real)
    requires lo < val <= hi
    ensures 0.0 < (val - lo) / (hi - lo) <= 1.0
  {
  }

  /** The segment found is the only one that can be bracketed. */
  lemma BracketedIsPosition(blk: ColorInterp, s: Store, k: nat)
    requires Bracketed(blk, s, k)
    ensures Position(s.scalars, blk.points, s.scalars[blk.val]) == Ok(k)
  {
    var val := s.scalars[blk.val];
    FirstAtLeastUnique(s.scalars, blk.points, val, k, Position(s.scalars, blk.points, val).value);
  }

  /** The segment that `val` falls in, if it is bracketed. */
  function Segment(blk: ColorInterp, s: Store): (r: Option<nat>)
    ensures r.Some? <==> exists k :: Bracketed(blk, s, k)
    ensures r.Some? ==> Bracketed(blk, s, r.value)
    ensures r.Some? ==> Position(s.scalars, blk.points, s.scalars[blk.val]) == Ok(r.value)
  {
    if blk.val >= |s.scalars| then None
    else
      var pos := Position(s.scalars, blk.points, s.scalars[blk.val]);
      if pos.Ok? && Bracketed(blk, s, pos.value) then Some(pos.value)
      else
        assert forall k :: !Bracketed(blk, s, k) by {
          forall k: nat | Bracketed(blk, s, k) ensures false {
            BracketedIsPosition(blk, s, k);
          }
        }
        None
  }

  /** `ColorInterp::execute` as intended: the break point and color of each
      end of the segment are looked up through `point_idxs` and
      `color_idxs`. It panics when the value is below the first break point
      or above the last, or when a slot on the way is outside its container;
      otherwise only the output color changes, to the mix at `Alpha`, which
      lies in (0, 1]: since the break point before the segment is below the
      value and the one after at or above it, there is no division by zero. */
  function Apply(blk: ColorInterp, s: Store): (r: Result<Store>)
    ensures r.Ok? <==> blk.o < |s.colors| && Segment(blk, s).Some?
    ensures r.Ok? ==> OnlyColorChanged(s, r.value, blk.o)
    ensures r.Ok? ==> r.value.colors[blk.o] == Interpolated(blk, s, Segment(blk, s).value)
  {
    var seg := Segment(blk, s);
    if seg.None? || blk.o >= |s.colors| then Panic
    else Ok(s.(colors := s.colors[blk.o := Interpolated(blk, s, seg.value)]))
  }

  /** The color of segment `k` at the value: the `f32` blend of the colors
      at its two ends. */
  function Interpolated(blk: ColorInterp, s: Store, k: nat): Color
    requires Bracketed(blk, s, k)
  {
    BlendAt(s, blk.val, blk.points[k - 1], blk.points[k], blk.colors[k - 1], blk.colors[k])
  }

  /** The blend on a bracketed segment is a plain mix at `Alpha` in
      (0, 1]: the segment has positive length, so there is no division by
      zero. */
  lemma InterpolatedIsMix(blk: ColorInterp, s: Store, k: nat)
    requires Bracketed(blk, s, k)
    ensures Interpolated(blk, s, k) == Mix(s.colors[blk.colors[k - 1]], s.colors[blk.colors[k]], Alpha(blk, s, k))
  {
  }

  method Execute(blk: ColorInterp, state: RenderState) returns (ok: bool)
    modifies state
    ensures Outcome(ok, Apply(blk, old(state.Value())), old(state.Value()), state.Value())
  {
    var seg := Segment(blk, state.Value());
    if seg.None? || blk.o >= |state.colors| {
      return false;
    }
    var k := seg.value;
    // the value, the break points at both ends and the colors at both ends
    var c := BlendAt(state.Value(), blk.val, blk.points[k - 1], blk.points[k], blk.colors[k - 1], blk.colors[k]);
    state.SetColor(blk.o, c);
    ok := true;
  }

  /** `ColorInterp::execute` as written, in place: the search over
      `point_idxs` and its checks, then the blend of scalars and colors
      `k - 1` and `k` written to color `o`. */
  method ExecuteAsWritten(blk: ColorInterp, state: RenderState) returns (ok: bool)
    modifies state
    ensures Outcome(ok, ApplyAsWritten(blk, old(state.Value())), old(state.Value()), state.Value())
  {
    var seg := WrittenSegment(blk, state.Value());
    if seg.None? {
      return false;
    }
    var k := seg.value;
    // scalars and colors `k - 1` and `k` themselves, not through the lists
    var c := BlendAt(state.Value(), blk.val, k - 1, k, k - 1, k);
    state.SetColor(blk.o, c);
    ok := true;
  }

  /** A value exactly on a break point gets that point's color unchanged. */
  lemma OnBreakPoint(blk: ColorInterp, s: Store, k: nat)
    requires Bracketed(blk, s, k)
    requires s.scalars[blk.val] == s.scalars[blk.points[k]]
    ensures Interpolated(blk, s, k) == s.colors[blk.colors[k]]
  {
    var lo := s.scalars[blk.points[k - 1]];
    var hi := s.scalars[blk.points[k]];
    assert (hi - lo) / (hi - lo) == 1.0;
    assert Alpha(blk, s, k) == 1.0;
  }

  /** A value at or below the first break point panics: there is no segment
      ending there. */
  lemma BelowFirstPointPanics(blk: ColorInterp, s: Store)
    requires blk.val < |s.scalars| && |blk.points| > 0 && blk.points[0] < |s.scalars|
    requires s.scalars[blk.val] <= s.scalars[blk.points[0]]
    ensures Apply(blk, s).Panic?
  {
    assert FirstAtLeast(s.scalars, blk.points, s.scalars[blk.val], 0);
    forall k: nat | Bracketed(blk, s, k) ensures false {
      FirstAtLeastUnique(s.scalars, blk.points, s.scalars[blk.val], 0, k);
    }
  }

  /** When the break points are scalars `0, 1, ..` and the colors are colors
      `0, 1, ..`, the code as written and the intended behaviour agree, which
      is why the indexing goes unnoticed with such a layout. */
  lemma AsWrittenAgreesOnIdentityLayout(blk: ColorInterp, s: Store)
    requires |blk.colors| == |blk.points|
    requires forall j :: 0 <= j < |blk.points| ==> blk.points[j] == j && blk.colors[j] == j
    ensures ApplyAsWritten(blk, s) == Apply(blk, s)
  {
    if blk.val < |s.scalars| && Position(s.scalars, blk.points, s.scalars[blk.val]).Ok? {
      var k := Position(s.scalars, blk.points, s.scalars[blk.val]).value;
      assert blk.points[k] == k;
      if 0 < k && k < |s.colors| && blk.o < |s.colors| {
        assert blk.points[k - 1] == k - 1 && blk.colors[k - 1] == k - 1 && blk.colors[k] == k;
        AgreeOnSegment(blk, s, k);
      } else {
        assert AsWrittenAt(blk, s, k).Panic?;
        if blk.o < |s.colors| {
          forall k' | Bracketed(blk, s, k') ensures false {
            BracketedIsPosition(blk, s, k');
          }
        }
      }
    } else {
      forall k' | Bracketed(blk, s, k') ensures false {
        BracketedIsPosition(blk, s, k');
      }
    }
  }

  /** Both readings of a segment `k` that the search found and whose ends
      lie in slots `k - 1` and `k` of both lists. */
  lemma AgreeOnSegment(blk: ColorInterp, s: Store, k: nat)
    requires blk.val < |s.scalars| && Position(s.scalars, blk.points, s.scalars[blk.val]) == Ok(k)
    requires 0 < k < |blk.points| && k < |s.colors| && blk.o < |s.colors| && k < |blk.colors|
    requires blk.points[k - 1] == k - 1 && blk.points[k] == k && blk.colors[k - 1] == k - 1 && blk.colors[k] == k
    ensures ApplyAsWritten(blk, s) == Apply(blk, s)
  {
    assert Bracketed(blk, s, k);
    AsWrittenFound(blk, s, k);
    AsWrittenAtSegment(blk, s, k);
    IdentityInterpolated(blk, s, k);
    ApplyOnSegment(blk, s, k);
  }

  /** `ApplyAsWritten` continues with the segment the search found. */
  lemma AsWrittenFound(blk: ColorInterp, s: Store, k: nat)
    requires blk.val < |s.scalars| && Position(s.scalars, blk.points, s.scalars[blk.val]) == Ok(k)
    ensures ApplyAsWritten(blk, s) == AsWrittenAt(blk, s, k)
  {
  }

  /** The code as written panics on a segment `k` whose slots are not all in
      range: the `usize` underflow of `k - 1`, or an index past the end. */
  lemma AsWrittenOutOfRange(blk: ColorInterp, s: Store, k: nat)
    requires blk.val < |s.scalars|
    requires k == 0 || k >= |s.scalars| || k >= |s.colors| || blk.o >= |s.colors|
    ensures AsWrittenAt(blk, s, k) == Panic
  {
  }

  /** The code as written on segment `k`, with every slot in range. */
  lemma AsWrittenAtSegment(blk: ColorInterp, s: Store, k: nat)
    requires blk.val < |s.scalars| && 0 < k < |s.scalars| && k < |s.colors| && blk.o < |s.colors|
    ensures AsWrittenAt(blk, s, k) == Ok(s.(colors := s.colors[blk.o := WrittenColor(blk, s, k)]))
  {
  }

  /** With the ends of segment `k` in slots `k - 1` and `k`, the intended
      color reads the same slots as the code as written. */
  lemma IdentityInterpolated(blk: ColorInterp, s: Store, k: nat)
    requires Bracketed(blk, s, k) && k < |s.scalars|
    requires blk.points[k - 1] == k - 1 && blk.points[k] == k && blk.colors[k - 1] == k - 1 && blk.colors[k] == k
    ensures Interpolated(blk, s, k) == WrittenColor(blk, s, k)
  {
  }

  /** `Apply` on a bracketed segment. */
  lemma ApplyOnSegment(blk: ColorInterp, s: Store, k: nat)
    requires Bracketed(blk, s, k) && blk.o < |s.colors|
    ensures Apply(blk, s) == Ok(s.(colors := s.colors[blk.o := Interpolated(blk, s, k)]))
  {
    BracketedIsPosition(blk, s, k);
  }

  const RED: Color := Color(255, 0, 0)
  const BLUE: Color := Color(0, 0, 255)

  /** A layout that is not the identity: break points in scalars 3, 4, 5
      (at -1, 0 and 1), colors black, red and blue in colors 1, 2, 3, the
      value 0.5 in scalar 6 and the output in color 0. */
  function Sample(): ColorInterp {
    ColorInterp([1, 2, 3], [3, 4, 5], 6, 0)
  }

  /** The store of the `Sample` layout. */
  function SampleStore(): Store {
    Store([0.0, 0.0, 0.0, -1.0, 0.0, 1.0, 0.5], [], [BLACK, BLACK, RED, BLUE], [], [])
  }

  /** On the sample, the value lies half-way between red and blue; the code
      as written reads scalars 1 and 2, both 0, divides 0.5 by zero and
      produces saturated red. */
  lemma AsWrittenMisreadsSlots()
    ensures ApplyAsWritten(Sample(), SampleStore()) == Ok(SampleStore().(colors := [RED, BLACK, RED, BLUE]))
  {
    var blk := Sample();
    var s := SampleStore();
    assert PositionFrom(s.scalars, blk.points, 0.5, 2) == Ok(2);
    assert PositionFrom(s.scalars, blk.points, 0.5, 1) == Ok(2);
    assert Position(s.scalars, blk.points, 0.5) == Ok(2);
    assert ApplyAsWritten(blk, s) == Ok(s.(colors := s.colors[0 := Saturate(RED)]));
    assert Saturate(RED) == RED;
    assert s.colors[0 := RED] == [RED, BLACK, RED, BLUE];
  }

  /** On the sample, the corrected block gives the even mix of red and
      blue. */
  lemma CorrectedMixesEvenly()
    ensures Apply(Sample(), SampleStore()) == Ok(SampleStore().(colors := [Color(128, 0, 128), BLACK, RED, BLUE]))
  {
    var blk := Sample();
    var s := SampleStore();
    assert Bracketed(blk, s, 2);
    assert Segment(blk, s) == Some(2);
    assert Alpha(blk, s, 2) == 0.5;
    assert ColorScale(RED, 0.5) == Color(128, 0, 0) by {
      assert Round(127.5) == 128;
    }
    assert ColorScale(BLUE, 0.5) == Color(0, 0, 128) by {
      assert Round(127.5) == 128;
    }
    assert Mix(RED, BLUE, 0.5) == Color(128, 0, 128);
    assert Interpolated(blk, s, 2) == Color(128, 0, 128);
    assert s.colors[0 := Color(128, 0, 128)] == [Color(128, 0, 128), BLACK, RED, BLUE];
  }
}
