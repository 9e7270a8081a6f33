/** The value types the variable store holds, their arithmetic, and how each
    is read from JSON.

    `f32` is modelled by exact `real` arithmetic. `round` is Rust's
    `f32::round` (halves away from zero); conversions `as u8` of values that
    were already clamped into 0..255 are exact. */
module VarTypes {
  import opened Json

  datatype Position = Position(x: real, y: real)

  /** A display-ready color, one byte per channel. */
  datatype Color = Color(r: u8, g: u8, b: u8)

  /** A normalized color, nominally 0.0..1.0 per channel. */
  datatype RealColor = RealColor(r: real, g: real, b: real)

  /** A raw byte buffer (a decoded image). */
  type Data = seq<u8>

  const BLACK: Color := Color(0, 0, 0)

  function Min(a: int, b: int): int { if a <= b then a else b }

  function Clamp(v: int, lo: int, hi: int): (r: int)
    requires lo <= hi
    ensures lo <= r <= hi
    ensures lo <= v <= hi ==> r == v
    ensures v < lo ==> r == lo
    ensures v > hi ==> r == hi
  {
    if v < lo then lo else if v > hi then hi else v
  }

  function ClampReal(v: real, lo: real, hi: real): (r: real)
    requires lo <= hi
    ensures lo <= r <= hi
    ensures lo <= v <= hi ==> r == v
    ensures v < lo ==> r == lo
    ensures v > hi ==> r == hi
  {
    if v < lo then lo else if v > hi then hi else v
  }

  /** `f32::round`: the nearest integer, halves rounded away from zero. */
  function Round(x: real): (n: int)
    ensures x - 0.5 <= n as real <= x + 0.5
    ensures x >= 0.0 ==> n >= 0
    ensures x <= 0.0 ==> n <= 0
  {
    if x >= 0.0 then (x + 0.5).Floor else -((-x + 0.5).Floor)
  }

  lemma RoundIntegral(k: int)
    ensures Round(k as real) == k
  {
  }

  lemma RoundMonotone(x: real, y: real)
    requires x <= y
    ensures Round(x) <= Round(y)
  {
  }

  /** A rounded value that is at most an integer `c` stays at most `c`. */
  lemma RoundBelow(x: real, c: int)
    requires x <= c as real
    ensures Round(x) <= c
  {
    RoundMonotone(x, c as real);
    RoundIntegral(c);
  }

  function Abs(x: real): real { if x < 0.0 then -x else x }

  /** `f32::rem_euclid(m)`: the remainder of `x` modulo `m` that lies in
      0 .. |m|, also for negative `x`. */
  function RemEuclid(x: real, m: real): (r: real)
    requires m != 0.0
    ensures 0.0 <= r < Abs(m)
    ensures IsIntegral((x - r) / Abs(m))
  {
    var a := Abs(m);
    RemParts(x, a);
    x - a * ((x / a).Floor as real)
  }

  /** The remainder left after taking the whole multiples of `a` from `x`. */
  lemma RemParts(x: real, a: real)
    requires a > 0.0
    ensures var q := (x / a).Floor as real;
            0.0 <= x - a * q < a && (x - (x - a * q)) / a == q
  {
    var q := (x / a).Floor as real;
    FloorScaled(x, a);
    assert x - (x - a * q) == a * q;
    MulDivCancel(a, q);
  }

  lemma MulDivCancel(a: real, q: real)
    requires a != 0.0
    ensures (a * q) / a == q
  {
  }

  /** Shifting by whole multiples of |m| leaves `rem_euclid` unchanged. */
  lemma RemEuclidShift(x: real, m: real, n: int)
    requires m > 0.0
    ensures RemEuclid(x + n as real * m, m) == RemEuclid(x, m)
  {
    assert (x + n as real * m) / m == x / m + n as real;
    assert ((x + n as real * m) / m).Floor == (x / m).Floor + n;
  }

  lemma DivLeftBound(x: real, a: real, b: real)
    requires a > 0.0 && x / a < b
    ensures x < a * b
  {
  }

  lemma DivRightBound(x: real, a: real, b: real)
    requires a > 0.0 && b <= x / a
    ensures a * b <= x
  {
  }

  /** `x` lies between the multiples of `a` below and above it. */
  lemma FloorScaled(x: real, a: real)
    requires a > 0.0
    ensures 0.0 <= x - a * ((x / a).Floor as real) < a
  {
    var F := (x / a).Floor as real;
    DivLeftBound(x, a, F + 1.0);
    DivRightBound(x, a, F);
    assert a * (F + 1.0) == a * F + a;
  }

  lemma MulLeftMono(a: real, u: real, v: real)
    requires a >= 0.0 && u <= v
    ensures a * u <= a * v
  {
  }

  lemma MulLeftStrict(a: real, u: real, v: real)
    requires a > 0.0 && u < v
    ensures a * u < a * v
  {
  }

  /** The fraction `p` of a span `w`, `p * w`: for `p` in [0, 1] it lies
      between 0 and `w`, and short of `w` when `p < 1`. */
  function Portion(p: real, w: real): (r: real)
    requires 0.0 <= p <= 1.0
    ensures w >= 0.0 ==> 0.0 <= r <= w
    ensures w <= 0.0 ==> w <= r <= 0.0
    ensures p < 1.0 && w > 0.0 ==> r < w
    ensures p < 1.0 && w < 0.0 ==> w < r
  {
    var r := p * w;
    PortionBounds(p, w, r);
    r
  }

  lemma PortionBounds(p: real, w: real, r: real)
    requires 0.0 <= p <= 1.0 && r == p * w
    ensures w >= 0.0 ==> 0.0 <= r <= w
    ensures w <= 0.0 ==> w <= r <= 0.0
    ensures p < 1.0 && w > 0.0 ==> r < w
    ensures p < 1.0 && w < 0.0 ==> w < r
  {
    var one := 1.0;
    var zero := 0.0;
    if w >= 0.0 {
      MulLeftMono(w, zero, p);
      MulLeftMono(w, p, one);
      if p < 1.0 && w > 0.0 {
        MulLeftStrict(w, p, one);
      }
    } else {
      var v := -w;
      MulLeftMono(v, zero, p);
      MulLeftMono(v, p, one);
      if p < 1.0 {
        MulLeftStrict(v, p, one);
      }
    }
  }

  /** The fractional part, `x.rem_euclid(1.0)`, in 0 .. 1. */
  function Frac(x: real): (r: real)
    ensures 0.0 <= r < 1.0
    ensures IsIntegral(x - r)
  {
    RemEuclid(x, 1.0)
  }

  lemma FracShift(x: real, n: int)
    ensures Frac(x + n as real) == Frac(x)
  {
    assert (x + n as real).Floor == x.Floor + n;
  }

  /** The fractional part is zero exactly on the integers, and reflects
      to `1 - Frac(x)` under negation elsewhere. */
  lemma FracNeg(x: real)
    ensures IsIntegral(x) <==> Frac(x) == 0.0
    ensures IsIntegral(x) ==> Frac(-x) == 0.0
    ensures !IsIntegral(x) ==> Frac(-x) == 1.0 - Frac(x)
  {
    if !IsIntegral(x) {
      assert (-x).Floor == -x.Floor - 1;
    } else {
      assert (-x).Floor == -x.Floor;
    }
  }

  /** The 32-bit two's complement wrap of an `i32` product in a release build. */
  function WrapI32(v: int): (r: int)
    ensures I32_MIN <= r < I32_LIMIT
    ensures I32_MIN <= v < I32_LIMIT ==> r == v
  {
    (v - I32_MIN) % (I32_LIMIT - I32_MIN) + I32_MIN
  }

  // ----- Position -----

  /** `Position + Position` is componentwise. */
  function PositionAdd(p: Position, q: Position): (r: Position)
    ensures r.x - q.x == p.x && r.y - q.y == p.y
  {
    Position(p.x + q.x, p.y + q.y)
  }

  /** `Position * f32` scales both coordinates. */
  function PositionScale(p: Position, f: real): (r: Position)
    ensures f != 0.0 ==> r.x / f == p.x && r.y / f == p.y
    ensures f == 0.0 ==> r == Position(0.0, 0.0)
  {
    Position(p.x * f, p.y * f)
  }

  lemma PositionScaleDistributes(p: Position, q: Position, f: real)
    ensures PositionScale(PositionAdd(p, q), f) == PositionAdd(PositionScale(p, f), PositionScale(q, f))
  {
  }

  // ----- Color -----

  /** `u8::saturating_add`. */
  function SaturatingAdd(a: u8, b: u8): (r: u8)
    ensures a <= r && b <= r
    ensures a + b <= 255 ==> r == a + b
    ensures a + b > 255 ==> r == 255
  {
    Min(a + b, 255)
  }

  /** `Color + Color` saturates each channel at 255 instead of wrapping. */
  function ColorAdd(c: Color, d: Color): (r: Color)
    ensures c.r + d.r <= 255 ==> r.r == c.r + d.r
    ensures c.g + d.g <= 255 ==> r.g == c.g + d.g
    ensures c.b + d.b <= 255 ==> r.b == c.b + d.b
    ensures c.r + d.r > 255 ==> r.r == 255
    ensures c.g + d.g > 255 ==> r.g == 255
    ensures c.b + d.b > 255 ==> r.b == 255
  {
    Color(SaturatingAdd(c.r, d.r), SaturatingAdd(c.g, d.g), SaturatingAdd(c.b, d.b))
  }

  lemma ColorAddCommutes(c: Color, d: Color)
    ensures ColorAdd(c, d) == ColorAdd(d, c)
  {
  }

  lemma ColorAddBlack(c: Color)
    ensures ColorAdd(c, BLACK) == c && ColorAdd(BLACK, c) == c
  {
  }

  /** One channel of `Color * f32`: scale, round, clamp to 0..255. Within
      the byte range the result is the nearest integer to `f * c`. */
  function ScaleChannel(c: u8, f: real): (r: u8)
    ensures f <= 0.0 ==> r == 0
    ensures 0.0 <= f <= 1.0 ==> r <= c
    ensures f == 1.0 ==> r == c
    ensures 0.0 <= f * c as real <= 255.0 ==> Abs(r as real - f * c as real) <= 0.5
  {
    var x := f * c as real;
    ScaledByteBounds(c, f);
    Clamp(Round(x), 0, 255)
  }

  lemma ScaledByteBounds(c: u8, f: real)
    ensures f <= 0.0 ==> Round(f * c as real) <= 0
    ensures 0.0 <= f <= 1.0 ==> Round(f * c as real) <= c
    ensures f == 1.0 ==> Round(f * c as real) == c
  {
    if f <= 0.0 {
      MulNonPos(f, c as real);
    } else if f <= 1.0 {
      MulAtMost(f, c as real);
      RoundBelow(f * c as real, c);
    }
    if f == 1.0 {
      RoundIntegral(c);
    }
  }

  lemma MulAtMost(f: real, w: real)
    requires 0.0 <= f <= 1.0 && w >= 0.0
    ensures f * w <= w
  {
    MulLeftMono(w, f, 1.0);
  }

  lemma MulNonPos(f: real, w: real)
    requires f <= 0.0 && w >= 0.0
    ensures f * w <= 0.0
  {
    MulLeftMono(w, f, 0.0);
  }

  /** `Color * f32`. */
  function ColorScale(c: Color, f: real): (r: Color)
    ensures f <= 0.0 ==> r == BLACK
    ensures f == 1.0 ==> r == c
    ensures 0.0 <= f <= 1.0 ==> r.r <= c.r && r.g <= c.g && r.b <= c.b
  {
    Color(ScaleChannel(c.r, f), ScaleChannel(c.g, f), ScaleChannel(c.b, f))
  }

  /** `r` is what rounding `x` and clamping to `0..=255` gives: within half
      of `x` inside the byte range, 255 above it and 0 below it. */
  predicate NearestByte(r: u8, x: real) {
    && (0.0 <= x <= 255.0 ==> Abs(r as real - x) <= 0.5)
    && (x >= 255.0 ==> r == 255)
    && (x <= 0.0 ==> r == 0)
  }

  /** A scaled channel is the nearest byte to the exact product, and
      saturates at 255 above the byte range. */
  lemma ScaleChannelNearest(c: u8, f: real)
    ensures NearestByte(ScaleChannel(c, f), f * c as real)
  {
    var x := f * c as real;
    var n := Round(x);
    if x >= 255.0 {
      assert n as real >= 254.5;
    }
  }

  /** `Color * f32` channel by channel: each channel is the nearest byte
      to the channel times the factor. */
  lemma ColorScaleNearest(c: Color, f: real)
    ensures var r := ColorScale(c, f);
            && NearestByte(r.r, f * c.r as real)
            && NearestByte(r.g, f * c.g as real)
            && NearestByte(r.b, f * c.b as real)
  {
    ScaleChannelNearest(c.r, f);
    ScaleChannelNearest(c.g, f);
    ScaleChannelNearest(c.b, f);
  }

  const NO_OVERFLOW_FACTOR: int := 8421504

  lemma MulSigns(a: int, b: int)
    requires a >= 0 && b >= 0
    ensures a * b >= 0
  {
  }

  lemma ProductBounds(k: int, c: u8)
    requires -NO_OVERFLOW_FACTOR <= k <= NO_OVERFLOW_FACTOR
    ensures I32_MIN <= k * c < I32_LIMIT
  {
    var d := 255 - c;
    assert k * c + k * d == k * 255;
    if k >= 0 {
      MulSigns(k, d);
      assert k * c <= NO_OVERFLOW_FACTOR * 255;
      MulSigns(k, c);
    } else {
      MulSigns(-k, d);
      MulSigns(-k, c);
      assert k * c >= -NO_OVERFLOW_FACTOR * 255;
    }
  }

  /** One channel of `Color * i32`: the `i32` product (wrapping, as a release
      build does), clamped to 0..255. */
  function ScaleChannelInt(c: u8, k: int): (r: u8)
    requires I32_MIN <= k < I32_LIMIT
    ensures -NO_OVERFLOW_FACTOR <= k <= NO_OVERFLOW_FACTOR ==> r == Clamp(k * c, 0, 255)
  {
    assert -NO_OVERFLOW_FACTOR <= k <= NO_OVERFLOW_FACTOR ==> I32_MIN <= k * c < I32_LIMIT by {
      if -NO_OVERFLOW_FACTOR <= k <= NO_OVERFLOW_FACTOR { ProductBounds(k, c); }
    }
    Clamp(WrapI32(k * c), 0, 255)
  }

  /** `Color * i32`; every channel is in 0..255 whatever `k` is, and without
      32-bit overflow (|k| at most 2^31 / 255) it is the plain clamped product. */
  function ColorScaleInt(c: Color, k: int): (r: Color)
    requires I32_MIN <= k < I32_LIMIT
    ensures k == 1 ==> r == c
    ensures -NO_OVERFLOW_FACTOR <= k <= 0 ==> r == BLACK
  {
    Color(ScaleChannelInt(c.r, k), ScaleChannelInt(c.g, k), ScaleChannelInt(c.b, k))
  }

  // ----- RealColor -----

  /** `RealColor + RealColor` clamps each channel into 0.0..1.0. */
  function RealColorAdd(c: RealColor, d: RealColor): (r: RealColor)
    ensures 0.0 <= r.r <= 1.0 && 0.0 <= r.g <= 1.0 && 0.0 <= r.b <= 1.0
    ensures 0.0 <= c.r + d.r <= 1.0 ==> r.r == c.r + d.r
    ensures 0.0 <= c.g + d.g <= 1.0 ==> r.g == c.g + d.g
    ensures 0.0 <= c.b + d.b <= 1.0 ==> r.b == c.b + d.b
  {
    RealColor(ClampReal(c.r + d.r, 0.0, 1.0), ClampReal(c.g + d.g, 0.0, 1.0), ClampReal(c.b + d.b, 0.0, 1.0))
  }

  /** `RealColor * f32` clamps each scaled channel into 0.0..1.0. */
  function RealColorScale(c: RealColor, f: real): (r: RealColor)
    ensures 0.0 <= r.r <= 1.0 && 0.0 <= r.g <= 1.0 && 0.0 <= r.b <= 1.0
    ensures 0.0 <= f * c.r <= 1.0 ==> r.r == f * c.r
    ensures 0.0 <= f * c.g <= 1.0 ==> r.g == f * c.g
    ensures 0.0 <= f * c.b <= 1.0 ==> r.b == f * c.b
  {
    RealColor(ClampReal(f * c.r, 0.0, 1.0), ClampReal(f * c.g, 0.0, 1.0), ClampReal(f * c.b, 0.0, 1.0))
  }

  // ----- FromJson -----

  function F32FromJson(j: Json): (r: Result<real>)
    ensures r.Ok? <==> j.JNum?
    ensures r.Ok? ==> j == JNum(r.value)
  {
    if j.JNum? then Ok(j.n) else Panic
  }

  /** A position is an object with numbers `x` and `y`. */
  function PositionFromJson(j: Json): (r: Result<Position>)
    ensures r.Ok? <==> j.JObj? && Field(j.fields, "x", AsF32).Ok? && Field(j.fields, "y", AsF32).Ok?
    ensures r.Ok? ==> j.fields["x"] == JNum(r.value.x) && j.fields["y"] == JNum(r.value.y)
  {
    if !j.JObj? then Panic
    else
      var x :- Field(j.fields, "x", AsF32);
      var y :- Field(j.fields, "y", AsF32);
      Ok(Position(x, y))
  }

  /** A color is an object with bytes `r`, `g` and `b`. */
  function ColorFromJson(j: Json): (r: Result<Color>)
    ensures r.Ok? <==> j.JObj? && Field(j.fields, "r", AsU8).Ok? && Field(j.fields, "g", AsU8).Ok? && Field(j.fields, "b", AsU8).Ok?
    ensures r.Ok? ==> j.fields["r"] == Num(r.value.r) && j.fields["g"] == Num(r.value.g) && j.fields["b"] == Num(r.value.b)
  {
    if !j.JObj? then Panic
    else
      var red :- Field(j.fields, "r", AsU8);
      var green :- Field(j.fields, "g", AsU8);
      var blue :- Field(j.fields, "b", AsU8);
      Ok(Color(red, green, blue))
  }

  /** A real color is an object with numbers `r`, `g` and `b`. */
  function RealColorFromJson(j: Json): (r: Result<RealColor>)
    ensures r.Ok? <==> j.JObj? && Field(j.fields, "r", AsF32).Ok? && Field(j.fields, "g", AsF32).Ok? && Field(j.fields, "b", AsF32).Ok?
    ensures r.Ok? ==> j.fields["r"] == JNum(r.value.r) && j.fields["g"] == JNum(r.value.g) && j.fields["b"] == JNum(r.value.b)
  {
    if !j.JObj? then Panic
    else
      var red :- Field(j.fields, "r", AsF32);
      var green :- Field(j.fields, "g", AsF32);
      var blue :- Field(j.fields, "b", AsF32);
      Ok(RealColor(red, green, blue))
  }

  /** A data buffer is a JSON string holding base64 text; `decode` is the
      standard-alphabet base64 decoder, `None` when the text is not valid. */
  function DataFromJson(j: Json, decode: string -> Option<Data>): (r: Result<Data>)
    ensures r.Ok? <==> j.JStr? && decode(j.s).Some?
    ensures r.Ok? ==> r.value == decode(j.s).value
  {
    if j.JStr? && decode(j.s).Some? then Ok(decode(j.s).value) else Panic
  }

  // ----- JSON encodings, the inverse direction -----

  function PositionToJson(p: Position): Json {
    JObj(map["x" := JNum(p.x), "y" := JNum(p.y)])
  }

  function ColorToJson(c: Color): Json {
    JObj(map["r" := Num(c.r), "g" := Num(c.g), "b" := Num(c.b)])
  }

  function RealColorToJson(c: RealColor): Json {
    JObj(map["r" := JNum(c.r), "g" := JNum(c.g), "b" := JNum(c.b)])
  }

  lemma PositionRoundTrip(p: Position)
    ensures PositionFromJson(PositionToJson(p)) == Ok(p)
  {
  }

  lemma ColorRoundTrip(c: Color)
    ensures ColorFromJson(ColorToJson(c)) == Ok(c)
  {
    assert IsIntegral(c.r as real) && IsIntegral(c.g as real) && IsIntegral(c.b as real);
  }


  lemma RealColorRoundTrip(c: RealColor)
    ensures RealColorFromJson(RealColorToJson(c)) == Ok(c)
  {
  }
}
