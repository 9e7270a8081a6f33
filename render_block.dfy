/** The variable store every render block reads and writes: five typed,
    independently indexed containers. Indices come from the configuration
    document. */
module RenderBlock {
  import opened Json
  import opened VarTypes

  /** The contents of a store, as a value. */
  datatype Store = Store(
    scalars: seq<real>,
    positions: seq<Position>,
    colors: seq<Color>,
    rcolors: seq<RealColor>,
    data: seq<Data>)

  /** Two stores have containers of the same lengths. */
  predicate SameShape(s: Store, t: Store) {
    |s.scalars| == |t.scalars| && |s.positions| == |t.positions| && |s.colors| == |t.colors|
    && |s.rcolors| == |t.rcolors| && |s.data| == |t.data|
  }

  /** `t` differs from `s` at most in scalar slot `o`. */
  predicate OnlyScalarChanged(s: Store, t: Store, o: nat) {
    SameShape(s, t) && t.positions == s.positions && t.colors == s.colors
    && t.rcolors == s.rcolors && t.data == s.data
    && forall k :: 0 <= k < |s.scalars| && k != o ==> t.scalars[k] == s.scalars[k]
  }

  /** `t` differs from `s` at most in color slot `o`. */
  predicate OnlyColorChanged(s: Store, t: Store, o: nat) {
    SameShape(s, t) && t.scalars == s.scalars && t.positions == s.positions
    && t.rcolors == s.rcolors && t.data == s.data
    && forall k :: 0 <= k < |s.colors| && k != o ==> t.colors[k] == s.colors[k]
  }

  /** `t` differs from `s` at most in real-color slot `o`. */
  predicate OnlyRealColorChanged(s: Store, t: Store, o: nat) {
    SameShape(s, t) && t.scalars == s.scalars && t.positions == s.positions
    && t.colors == s.colors && t.data == s.data
    && forall k :: 0 <= k < |s.rcolors| && k != o ==> t.rcolors[k] == s.rcolors[k]
  }

  /** How a block's `execute` ends, against its specification `r`: it
      returns normally with the specified store, or it panics (`ok` false)
      having changed nothing, since every block writes its output last. */
  predicate Outcome(ok: bool, r: Result<Store>, before: Store, after: Store) {
    ok == r.Ok? && after == (if ok then r.value else before)
  }

  /** `Vec::resize(n, fill)`: keep the first `n` elements, pad with `fill`. */
  function Resize<T>(s: seq<T>, n: nat, fill: T): (r: seq<T>)
    ensures |r| == n
    ensures forall k :: 0 <= k < n && k < |s| ==> r[k] == s[k]
    ensures forall k :: |s| <= k < n ==> r[k] == fill
  {
    if n <= |s| then s[..n] else s + seq(n - |s|, _ => fill)
  }

  /** The list under `key` of the `vars` object, each element converted. */
  function VarsList<T>(v: Json, key: string, conv: Json -> Result<T>): (r: Result<seq<T>>)
    ensures r.Ok? ==> v.JObj? && key in v.fields && v.fields[key].JArr?
  {
    if !v.JObj? then Panic
    else
      var items :- ArrayField(v.fields, key);
      ParseEach(items, conv)
  }

  function Floats(v: Json): Result<seq<real>> { VarsList(v, "float", F32FromJson) }
  function Positions(v: Json): Result<seq<Position>> { VarsList(v, "positions", PositionFromJson) }
  function Colors(v: Json): Result<seq<Color>> { VarsList(v, "colors", ColorFromJson) }

  class RenderState {
    var scalars: seq<real>
    var positions: seq<Position>
    var colors: seq<Color>
    var rcolors: seq<RealColor>
    var data: seq<Data>

    function Value(): Store
      reads this
    {
      Store(scalars, positions, colors, rcolors, data)
    }

    /** `RenderState::new`: every container starts empty. */
    constructor ()
      ensures Value() == Store([], [], [], [], [])
    {
      scalars, positions, colors, rcolors, data := [], [], [], [], [];
    }

    method SetScalar(idx: nat, val: real)
      requires idx < |scalars|
      modifies this
      ensures Value() == old(Value()).(scalars := old(scalars)[idx := val])
    {
      scalars := scalars[idx := val];
    }

    method GetScalar(idx: nat) returns (val: real)
      requires idx < |scalars|
      ensures val == scalars[idx]
    {
      val := scalars[idx];
    }

    method SetPosition(idx: nat, val: Position)
      requires idx < |positions|
      modifies this
      ensures Value() == old(Value()).(positions := old(positions)[idx := val])
    {
      positions := positions[idx := val];
    }

    method GetPosition(idx: nat) returns (val: Position)
      requires idx < |positions|
      ensures val == positions[idx]
    {
      val := positions[idx];
    }

    method SetColor(idx: nat, val: Color)
      requires idx < |colors|
      modifies this
      ensures Value() == old(Value()).(colors := old(colors)[idx := val])
    {
      colors := colors[idx := val];
    }

    method GetColor(idx: nat) returns (val: Color)
      requires idx < |colors|
      ensures val == colors[idx]
    {
      val := colors[idx];
    }

    method SetRColor(idx: nat, val: RealColor)
      requires idx < |rcolors|
      modifies this
      ensures Value() == old(Value()).(rcolors := old(rcolors)[idx := val])
    {
      rcolors := rcolors[idx := val];
    }

    method GetRColor(idx: nat) returns (val: RealColor)
      requires idx < |rcolors|
      ensures val == rcolors[idx]
    {
      val := rcolors[idx];
    }

    method SetData(idx: nat, val: Data)
      requires idx < |data|
      modifies this
      ensures Value() == old(Value()).(data := old(data)[idx := val])
    {
      data := data[idx := val];
    }

    method GetData(idx: nat) returns (val: Data)
      requires idx < |data|
      ensures val == data[idx]
    {
      val := data[idx];
    }

    /** `RenderState::from_obj`: replace scalars, positions and colors, in
        that order, with the lists of the `vars` object `v`. `ok` is false
        when the Rust code panics; a container that was already replaced
        before the panic stays replaced. */
    method FromObj(v: Json) returns (ok: bool)
      modifies this
      ensures ok == (Floats(v).Ok? && Positions(v).Ok? && Colors(v).Ok?)
      ensures Floats(v).Ok? ==> scalars == Floats(v).value
      ensures Floats(v).Ok? && Positions(v).Ok? ==> positions == Positions(v).value
      ensures ok ==> colors == Colors(v).value
      ensures !Floats(v).Ok? ==> positions == old(positions) && colors == old(colors)
      ensures Floats(v).Ok? && !Positions(v).Ok? ==> colors == old(colors)
      ensures rcolors == old(rcolors) && data == old(data)
    {
      if !v.JObj? {
        return false;
      }
      ok := FillScalars(v);
      if !ok {
        return;
      }
      ok := FillPositions(v);
      if !ok {
        return;
      }
      ok := FillColors(v);
    }

    method FillScalars(v: Json) returns (ok: bool)
      requires v.JObj?
      modifies this
      ensures ok == Floats(v).Ok?
      ensures ok ==> scalars == Floats(v).value
      ensures positions == old(positions) && colors == old(colors)
      ensures rcolors == old(rcolors) && data == old(data)
    {
      var dict := v.fields;
      if !("float" in dict && dict["float"].JArr?) {
        return false;
      }
      var list := dict["float"].items;
      scalars := Resize(scalars, |list|, 0.0);
      for i := 0 to |list|
        invariant |scalars| == |list|
        invariant forall k :: 0 <= k < i ==> F32FromJson(list[k]) == Ok(scalars[k])
        invariant positions == old(positions) && colors == old(colors)
        invariant rcolors == old(rcolors) && data == old(data)
      {
        var r := F32FromJson(list[i]);
        if r.Panic? {
          return false;
        }
        scalars := scalars[i := r.value];
      }
      ok := true;
    }

    method FillPositions(v: Json) returns (ok: bool)
      requires v.JObj?
      modifies this
      ensures ok == Positions(v).Ok?
      ensures ok ==> positions == Positions(v).value
      ensures scalars == old(scalars) && colors == old(colors)
      ensures rcolors == old(rcolors) && data == old(data)
    {
      var dict := v.fields;
      if !("positions" in dict && dict["positions"].JArr?) {
        return false;
      }
      var list := dict["positions"].items;
      positions := Resize(positions, |list|, Position(0.0, 0.0));
      for i := 0 to |list|
        invariant |positions| == |list|
        invariant forall k :: 0 <= k < i ==> PositionFromJson(list[k]) == Ok(positions[k])
        invariant scalars == old(scalars) && colors == old(colors)
        invariant rcolors == old(rcolors) && data == old(data)
      {
        var r := PositionFromJson(list[i]);
        if r.Panic? {
          return false;
        }
        positions := positions[i := r.value];
      }
      ok := true;
    }

    method FillColors(v: Json) returns (ok: bool)
      requires v.JObj?
      modifies this
      ensures ok == Colors(v).Ok?
      ensures ok ==> colors == Colors(v).value
      ensures scalars == old(scalars) && positions == old(positions)
      ensures rcolors == old(rcolors) && data == old(data)
    {
      var dict := v.fields;
      if !("colors" in dict && dict["colors"].JArr?) {
        return false;
      }
      var list := dict["colors"].items;
      colors := Resize(colors, |list|, BLACK);
      for i := 0 to |list|
        invariant |colors| == |list|
        invariant forall k :: 0 <= k < i ==> ColorFromJson(list[k]) == Ok(colors[k])
        invariant scalars == old(scalars) && positions == old(positions)
        invariant rcolors == old(rcolors) && data == old(data)
      {
        var r := ColorFromJson(list[i]);
        if r.Panic? {
          return false;
        }
        colors := colors[i := r.value];
      }
      ok := true;
    }
  }

  /** What `from_obj` makes of a `vars` object: the lists, element by element
      and in order, whatever the store held before. */
  lemma FromObjContents(v: Json, k: nat)
    requires Floats(v).Ok? && k < |v.fields["float"].items|
    ensures |Floats(v).value| == |v.fields["float"].items|
    ensures F32FromJson(v.fields["float"].items[k]) == Ok(Floats(v).value[k])
  {
  }

  /** `from_obj` panics when `vars` is not an object or when one of its three
      lists is missing or not an array. */
  lemma FromObjPanics(v: Json)
    ensures !v.JObj? ==> Floats(v).Panic? && Positions(v).Panic? && Colors(v).Panic?
    ensures v.JObj? && !("float" in v.fields && v.fields["float"].JArr?) ==> Floats(v).Panic?
    ensures v.JObj? && !("positions" in v.fields && v.fields["positions"].JArr?) ==> Positions(v).Panic?
    ensures v.JObj? && !("colors" in v.fields && v.fields["colors"].JArr?) ==> Colors(v).Panic?
  {
  }
}
