/** The `image_lookup` block: the color of a pixel of an RGB image held in a
    data slot, at coordinates read from two scalar slots, either clipped to
    the image (`Single`) or repeated across the plane (`Tile`). */
module ImageLookup {
  import opened Json
  import opened VarTypes
  import opened RenderBlock

  datatype ImageLookup = ImageLookup(width: Index, height: Index, x: Index, y: Index, mode: Index, data: Index, o: Index)

  /** `LookupMode`, a `u8` enumeration whose default is `Single`. */
  datatype LookupMode = Single | Tile

  /** `LookupMode::from(u8)`: 1 is `Tile`, every other byte the default. */
  function ModeOf(b: u8): (m: LookupMode)
    ensures m == Tile <==> b == 1
  {
    if b == 1 then Tile else Single
  }

  /** `ImageLookup::from_obj`. */
  function FromObj(dict: Object): (r: Result<ImageLookup>)
    ensures r.Ok? <==> HasIndices(dict, "inputs", ["width", "height", "x", "y", "mode", "data"])
                       && IndexAt(dict, "outputs", "o").Ok?
    ensures r.Ok? ==> IndexAt(dict, "inputs", "width") == Ok(r.value.width) && IndexAt(dict, "inputs", "height") == Ok(r.value.height)
                      && IndexAt(dict, "inputs", "x") == Ok(r.value.x) && IndexAt(dict, "inputs", "y") == Ok(r.value.y)
                      && IndexAt(dict, "inputs", "mode") == Ok(r.value.mode) && IndexAt(dict, "inputs", "data") == Ok(r.value.data)
                      && IndexAt(dict, "outputs", "o") == Ok(r.value.o)
  {
    var keys := ["width", "height", "x", "y", "mode", "data"];
    assert HasIndices(dict, "inputs", keys) <==>
      IndexAt(dict, "inputs", keys[0]).Ok? && IndexAt(dict, "inputs", keys[1]).Ok? && IndexAt(dict, "inputs", keys[2]).Ok?
      && IndexAt(dict, "inputs", keys[3]).Ok? && IndexAt(dict, "inputs", keys[4]).Ok? && IndexAt(dict, "inputs", keys[5]).Ok?;
    var width :- IndexAt(dict, "inputs", "width");
    var height :- IndexAt(dict, "inputs", "height");
    var x :- IndexAt(dict, "inputs", "x");
    var y :- IndexAt(dict, "inputs", "y");
    var mode :- IndexAt(dict, "inputs", "mode");
    var data :- IndexAt(dict, "inputs", "data");
    var o :- IndexAt(dict, "outputs", "o");
    Ok(ImageLookup(width, height, x, y, mode, data, o))
  }

  function ToObj(blk: ImageLookup): Object {
    map[
      "type" := JStr("image_lookup"),
      "inputs" := JObj(map["width" := Num(blk.width), "height" := Num(blk.height), "x" := Num(blk.x),
                           "y" := Num(blk.y), "mode" := Num(blk.mode), "data" := Num(blk.data)]),
      "outputs" := JObj(map["o" := Num(blk.o)])]
  }

  lemma RoundTrip(blk: ImageLookup)
    ensures FromObj(ToObj(blk)) == Ok(blk)
  {
    assert IsIntegral(blk.width as real) && IsIntegral(blk.height as real) && IsIntegral(blk.x as real);
    assert IsIntegral(blk.y as real) && IsIntegral(blk.mode as real) && IsIntegral(blk.data as real);
    assert IsIntegral(blk.o as real);
  }

  /** `f32::to_u8`: defined strictly between -1 and 256, where it drops the
      fraction (towards zero). */
  function ToU8(v: real): (r: Option<u8>)
    ensures r.Some? <==> -1.0 < v < 256.0
    ensures r.Some? && v >= 0.0 ==> r.value == v.Floor
    ensures r.Some? && v < 0.0 ==> r.value == 0
  {
    if -1.0 < v < 256.0 then
      if v >= 0.0 then Some(v.Floor) else Some(0)
    else None
  }

  /** `v.round().clamp(1.0, 1024.0)`: an image side, never zero. */
  function Side(v: real): (n: int)
    ensures 1 <= n <= 1024
    ensures 1 <= Round(v) <= 1024 ==> n == Round(v)
  {
    Clamp(Round(v), 1, 1024)
  }

  /** The y coordinate is stretched by 2.2 before the lookup. */
  const Y_STRETCH: real := 2.2

  /** The pixel column (or row) for coordinate `v` on a side of `size`:
      `Single` rounds a coordinate inside `0 .. size` and gives -1 outside;
      `Tile` rounds the coordinate's Euclidean remainder by `size`. Either
      way a result that is not -1 lies in `0 ..= size`. */
  function Coordinate(mode: LookupMode, v: real, size: int): (i: int)
    requires size >= 1
    ensures mode == Single && !(0.0 <= v < size as real) ==> i == -1
    ensures mode == Single && 0.0 <= v < size as real ==> i == Round(v)
    ensures mode == Tile ==> i == Round(RemEuclid(v, size as real))
    ensures i == -1 || 0 <= i <= size
  {
    match mode
    case Single =>
      if 0.0 <= v < size as real then
        RoundBelow(v, size);
        Round(v)
      else -1
    case Tile =>
      var w := RemEuclid(v, size as real);
      RoundBelow(w, size);
      Round(w)
  }

  /** Tiling repeats the image every `size` along the coordinate. */
  lemma TilePeriodic(v: real, size: int, n: int)
    requires size >= 1
    ensures Coordinate(Tile, v + n as real * size as real, size) == Coordinate(Tile, v, size)
  {
    RemEuclidShift(v, size as real, n);
  }

  /** A coordinate half a pixel short of the edge rounds up to `size`
      itself: with a side of 4, x = 3.75 gives column 4, in both modes. */
  lemma CoordinateReachesSide()
    ensures Coordinate(Single, 3.75, 4) == 4
    ensures Coordinate(Tile, 3.75, 4) == 4
  {
    assert (3.75 / 4.0).Floor == 0;
  }

  /** The byte offset of pixel (i, j) in a row-major RGB image. */
  function PixelIndex(i: int, j: int, width: int): int {
    3 * (i + j * width)
  }

  /** Column `width` of row `j` is the byte offset of column 0 of row
      `j + 1`: a coordinate that rounds up to the side reads the first pixel
      of the next row. */
  lemma EdgeWrapsToNextRow(j: int, width: int)
    ensures PixelIndex(width, j, width) == PixelIndex(0, j + 1, width)
  {
  }

  /** The color read for column `i` and row `j`: black when either is
      negative or the three bytes are not all in the buffer, the three
      bytes at `PixelIndex` otherwise. */
  function PixelColor(data: Data, i: int, j: int, width: int): (c: Color)
    ensures i < 0 || j < 0 ==> c == BLACK
    ensures i >= 0 && j >= 0 && PixelIndex(i, j, width) + 2 >= |data| ==> c == BLACK
    ensures i >= 0 && j >= 0 && 0 <= PixelIndex(i, j, width) && PixelIndex(i, j, width) + 2 < |data| ==>
              var k := PixelIndex(i, j, width);
              c == Color(data[k], data[k + 1], data[k + 2])
  {
    if i >= 0 && j >= 0 then
      var k := PixelIndex(i, j, width);
      if 0 <= k && k + 2 < |data| then Color(data[k], data[k + 1], data[k + 2]) else BLACK
    else BLACK
  }

  /** Every slot `ImageLookup::execute` touches exists and the mode scalar
      converts to a byte. */
  predicate InRange(blk: ImageLookup, s: Store) {
    var n := |s.scalars|;
    blk.width < n && blk.height < n && blk.x < n && blk.y < n && blk.mode < n
    && blk.data < |s.data| && ToU8(s.scalars[blk.mode]).Some? && blk.o < |s.colors|
  }

  /** The color `ImageLookup::execute` computes. */
  function Lookup(blk: ImageLookup, s: Store): Color
    requires InRange(blk, s)
  {
    var width := Side(s.scalars[blk.width]);
    var height := Side(s.scalars[blk.height]);
    var mode := ModeOf(ToU8(s.scalars[blk.mode]).value);
    var i := Coordinate(mode, s.scalars[blk.x], width);
    var j := Coordinate(mode, s.scalars[blk.y] * Y_STRETCH, height);
    PixelColor(s.data[blk.data], i, j, width)
  }

  /** `ImageLookup::execute` on `s`: it panics exactly when a slot is
      missing or the mode is not a byte, and otherwise writes color `o`
      alone. */
  function Apply(blk: ImageLookup, s: Store): (r: Result<Store>)
    ensures r.Ok? <==> InRange(blk, s)
    ensures r.Ok? ==> OnlyColorChanged(s, r.value, blk.o)
    ensures r.Ok? ==> r.value.colors[blk.o] == Lookup(blk, s)
  {
    if InRange(blk, s) then Ok(s.(colors := s.colors[blk.o := Lookup(blk, s)])) else Panic
  }

  /** In `Single` mode a pixel outside the image, along either side, is
      black. */
  lemma SingleOutsideIsBlack(blk: ImageLookup, s: Store)
    requires InRange(blk, s) && ToU8(s.scalars[blk.mode]).value != 1
    requires var x := s.scalars[blk.x];
             var y := s.scalars[blk.y] * Y_STRETCH;
             || x < 0.0 || x >= Side(s.scalars[blk.width]) as real
             || y < 0.0 || y >= Side(s.scalars[blk.height]) as real
    ensures Lookup(blk, s) == BLACK
  {
  }

  /** The `match mode` of `execute`: `i` and `j` start at -1 and are set
      only where the mode finds a pixel. */
  method Locate(mode: LookupMode, x: real, y: real, width: int, height: int) returns (i: int, j: int)
    requires width >= 1 && height >= 1
    ensures i == Coordinate(mode, x, width) && j == Coordinate(mode, y, height)
  {
    i := -1;
    j := -1;
    match mode {
      case Single =>
        if 0.0 <= x < width as real {
          i := Round(x);
        }
        if 0.0 <= y < height as real {
          j := Round(y);
        }
      case Tile =>
        i := Round(RemEuclid(x, width as real));
        j := Round(RemEuclid(y, height as real));
    }
  }

  /** The read of `r`, `g`, `b`, which stay 0 unless the pixel's three
      bytes are in the buffer. */
  method ReadPixel(data: Data, i: int, j: int, width: int) returns (c: Color)
    requires width >= 1
    ensures c == PixelColor(data, i, j, width)
  {
    var r: u8, g: u8, b: u8 := 0, 0, 0;
    if i >= 0 && j >= 0 {
      var idx := 3 * (i + j * width);
      assert j * width >= 0;
      if idx + 2 < |data| {
        r := data[idx];
        g := data[idx + 1];
        b := data[idx + 2];
      }
    }
    c := Color(r, g, b);
  }

  /** The imperative `execute`. */
  method Execute(blk: ImageLookup, state: RenderState) returns (ok: bool)
    modifies state
    ensures Outcome(ok, Apply(blk, old(state.Value())), old(state.Value()), state.Value())
  {
    var n := |state.scalars|;
    if !(blk.width < n && blk.height < n && blk.x < n && blk.y < n && blk.mode < n && blk.data < |state.data|) {
      return false;
    }
    var ws := state.GetScalar(blk.width);
    var hs := state.GetScalar(blk.height);
    var width := Side(ws);
    var height := Side(hs);
    var x := state.GetScalar(blk.x);
    var ys := state.GetScalar(blk.y);
    var y := ys * Y_STRETCH;
    var data := state.GetData(blk.data);
    var ms := state.GetScalar(blk.mode);
    var b8 := ToU8(ms);
    if b8.None? {
      return false;
    }
    var i, j := Locate(ModeOf(b8.value), x, y, width, height);
    var c := ReadPixel(data, i, j, width);
    if blk.o >= |state.colors| {
      return false;
    }
    assert c == Lookup(blk, state.Value());
    state.SetColor(blk.o, c);
    ok := true;
  }
}
