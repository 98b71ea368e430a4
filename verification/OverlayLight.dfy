/**
 The light table of src/overlay.rs: one premultiplied pixel for each distance to
 the edge. Floating point is replaced by exact real arithmetic; the power of the
 second lobe is any curve that rises from zero to one.
 */
module OverlayLight {
  import opened Arithmetic

  /** A premultiplied pixel, alpha in the top byte; zero is transparent. */
  type Pixel = n: nat | n < 0x1_0000_0000

  const GLOW_R: nat := 255
  const GLOW_G: nat := 38
  const GLOW_B: nat := 28

  datatype Glow = Glow(peak: real, tail: real -> real) {
    ghost predicate Valid() {
      && 0.0 <= peak <= 1.0
      && tail(0.0) == 0.0 && tail(1.0) == 1.0
      && (forall u | 0.0 <= u <= 1.0 :: 0.0 <= tail(u) <= 1.0)
      && (forall u, v | 0.0 <= u <= v <= 1.0 :: tail(u) <= tail(v))
    }
  }

  /** Rounding of a number that is not negative. */
  function Round(x: real): (n: int)
    ensures x - 0.5 < n as real <= x + 0.5
  {
    (x + 0.5).Floor
  }

  function Clamped(n: int): nat { if n < 0 then 0 else if n > 255 then 255 else n }

  /** The width of the band: a fraction of the shorter side, and at least one pixel. */
  function Band(width: nat, height: nat): (band: nat)
    ensures band >= 1
  {
    var band := Round((if width < height then width else height) as real * 0.08);
    if band < 1 then 1 else band
  }

  /** How far in from the inner end of the band, from one at the edge of the screen to zero. */
  function Depth(band: nat, d: nat): (u: real)
    requires 0 < band && d <= band
    ensures 0.0 <= u <= 1.0
  {
    DepthIsBetween(band, d);
    1.0 - d as real / band as real
  }

  lemma DepthIsBetween(band: nat, d: nat)
    requires 0 < band && d <= band
    ensures 0.0 <= d as real / band as real <= 1.0
  {
    QuotientsRise(0.0, d as real, band as real);
    QuotientsRise(d as real, band as real, band as real);
  }

  lemma QuotientsRise(a: real, b: real, n: real)
    requires a <= b && 0.0 < n
    ensures a / n <= b / n
  {
    var x, y := a / n, b / n;
    assert x * n == a && y * n == b;
    assert (x - y) * n == a - b;
    if y < x {
      Positive(x - y, n);
    }
  }

  lemma Positive(x: real, y: real)
    requires 0.0 < x && 0.0 < y
    ensures 0.0 < x * y
  {}

  /** The sum of the two lobes. */
  function Lobes(glow: Glow, u: real): real { 0.72 * (u * u * u) + 0.28 * glow.tail(u) }

  function Byte(peak: real, light: real): nat { Clamped(Round(peak * light * 255.0)) }

  function Alpha(glow: Glow, band: nat, d: nat): nat
    requires 0 < band && d <= band
  {
    Byte(glow.peak, Lobes(glow, Depth(band, d)))
  }

  function Channel(colour: nat, alpha: nat): nat { (colour * alpha + 127) / 255 }

  /** Four bytes side by side; none of them reaches into the next. */
  function Packed(alpha: nat): Pixel
    requires alpha <= 255
  {
    ChannelIsPremultiplied(GLOW_R, alpha);
    ChannelIsPremultiplied(GLOW_G, alpha);
    ChannelIsPremultiplied(GLOW_B, alpha);
    alpha * 0x100_0000 + Channel(GLOW_R, alpha) * 0x1_0000 + Channel(GLOW_G, alpha) * 0x100 + Channel(GLOW_B, alpha)
  }

  function LightAt(glow: Glow, band: nat, d: nat): Pixel
    requires 0 < band && d <= band
  {
    Packed(Alpha(glow, band, d))
  }

  lemma NearestOf255(n: nat, alpha: nat)
    requires n <= 255 * alpha
    ensures (n + 127) / 255 <= alpha && -127 <= 255 * ((n + 127) / 255) - n <= 127
  {
    DivBounds(n + 127, 255);
  }

  /** A premultiplied channel is the nearest integer to its share, and never more than alpha. */
  lemma ChannelIsPremultiplied(colour: nat, alpha: nat)
    requires colour <= 255 && alpha <= 255
    ensures Channel(colour, alpha) <= alpha
    ensures -127 <= 255 * Channel(colour, alpha) - colour * alpha <= 127
  {
    MulMono(colour, 255, alpha);
    NearestOf255(colour * alpha, alpha);
  }

  /** The four bytes of a pixel can be read back. */
  lemma PackedBytes(alpha: nat)
    requires alpha <= 255
    ensures Packed(alpha) / 0x100_0000 == alpha
    ensures Packed(alpha) / 0x1_0000 % 0x100 == Channel(GLOW_R, alpha)
    ensures Packed(alpha) / 0x100 % 0x100 == Channel(GLOW_G, alpha)
    ensures Packed(alpha) % 0x100 == Channel(GLOW_B, alpha)
  {
    ChannelIsPremultiplied(GLOW_R, alpha);
    ChannelIsPremultiplied(GLOW_G, alpha);
    ChannelIsPremultiplied(GLOW_B, alpha);
    FourBytes(alpha, Channel(GLOW_R, alpha), Channel(GLOW_G, alpha), Channel(GLOW_B, alpha));
  }

  lemma LastByte(high: nat, low: nat)
    requires low < 0x100
    ensures (high * 0x100 + low) % 0x100 == low && (high * 0x100 + low) / 0x100 == high
  {
    DivUnique(high * 0x100 + low, 0x100, high);
  }

  lemma FourBytes(a: nat, r: nat, g: nat, b: nat)
    requires r < 0x100 && g < 0x100 && b < 0x100
    ensures var n := a * 0x100_0000 + r * 0x1_0000 + g * 0x100 + b;
            n / 0x100_0000 == a && n / 0x1_0000 % 0x100 == r && n / 0x100 % 0x100 == g && n % 0x100 == b
  {
    var n := a * 0x100_0000 + r * 0x1_0000 + g * 0x100 + b;
    LastByte((a * 0x100 + r) * 0x100 + g, b);
    LastByte(a * 0x100 + r, g);
    LastByte(a, r);
    DivUnique(n, 0x100_0000, a);
    DivUnique(n, 0x1_0000, a * 0x100 + r);
  }

  /** The one dark distance of any valid glow is the inner end of the band: nothing marks where it stops. */
  lemma BandEndsDark(glow: Glow, band: nat)
    requires glow.Valid() && 0 < band
    ensures LightAt(glow, band, band) == 0
  {
    assert Depth(band, band) == 0.0;
    assert Lobes(glow, 0.0) == 0.0;
    assert glow.peak * Lobes(glow, Depth(band, band)) * 255.0 == 0.0;
  }

  lemma CubesRise(u: real, v: real)
    requires 0.0 <= u <= v
    ensures u * u * u <= v * v * v
  {
    ProductsRise(u, v, u, v);
    ProductsRise(u * u, v * v, u, v);
  }

  lemma ProductsRise(a: real, b: real, c: real, d: real)
    requires 0.0 <= a <= b && 0.0 <= c <= d
    ensures 0.0 <= a * c <= b * d
  {
    assert a * c >= 0.0;
    assert (b - a) * d >= 0.0;
    assert a * (d - c) >= 0.0;
  }

  lemma DepthFalls(band: nat, d: nat, e: nat)
    requires 0 < band && d <= e <= band
    ensures Depth(band, e) <= Depth(band, d)
  {
    QuotientsRise(d as real, e as real, band as real);
  }

  /** The glow never gets brighter on the way in. */
  lemma LightFades(glow: Glow, band: nat, d: nat, e: nat)
    requires glow.Valid() && 0 < band && d <= e <= band
    ensures Alpha(glow, band, e) <= Alpha(glow, band, d)
  {
    var x, y := LobesFall(glow, band, d, e);
    BytesRise(glow.peak, x, y);
  }

  lemma LobesFall(glow: Glow, band: nat, d: nat, e: nat) returns (x: real, y: real)
    requires glow.Valid() && 0 < band && d <= e <= band
    ensures 0.0 <= x <= y && Alpha(glow, band, e) == Byte(glow.peak, x) && Alpha(glow, band, d) == Byte(glow.peak, y)
  {
    DepthFalls(band, d, e);
    LobesRise(glow, Depth(band, e), Depth(band, d));
    x, y := Lobes(glow, Depth(band, e)), Lobes(glow, Depth(band, d));
  }

  lemma BytesRise(peak: real, x: real, y: real)
    requires 0.0 <= peak && 0.0 <= x <= y
    ensures Byte(peak, x) <= Byte(peak, y)
  {
    ProductsRise(peak, peak, x, y);
    ScaledRises(peak * x, peak * y);
  }

  lemma LobesRise(glow: Glow, u: real, v: real)
    requires glow.Valid() && 0.0 <= u <= v <= 1.0
    ensures 0.0 <= Lobes(glow, u) <= Lobes(glow, v)
  {
    CubesRise(0.0, u);
    CubesRise(u, v);
    LobesAdd(u * u * u, v * v * v, glow.tail(u), glow.tail(v));
  }

  lemma LobesAdd(a: real, b: real, c: real, d: real)
    requires 0.0 <= a <= b && 0.0 <= c <= d
    ensures 0.0 <= 0.72 * a + 0.28 * c <= 0.72 * b + 0.28 * d
  {}

  lemma ScaledRises(x: real, y: real)
    requires x <= y
    ensures Round(x * 255.0) <= Round(y * 255.0)
  {
    RoundRises(x * 255.0, y * 255.0);
  }

  lemma RoundRises(x: real, y: real)
    requires x <= y
    ensures Round(x) <= Round(y)
  {}

  function Table(glow: Glow, band: nat): (lut: seq<Pixel>)
    requires 0 < band
    ensures |lut| == band + 1 && forall d | 0 <= d <= band :: lut[d] == LightAt(glow, band, d)
  {
    seq(band + 1, d requires 0 <= d <= band => LightAt(glow, band, d))
  }

  // --- The light in numbers --------------------------------------------------------

  /** The band is eight hundredths of the shorter side to the nearest pixel, but never nothing. */
  lemma BandIsRight(width: nat, height: nat)
    ensures var band, shorter := Band(width, height), if width <= height then width else height;
            && (-50 <= 100 * band - 8 * shorter <= 50 || (band == 1 && 8 * shorter < 50))
            && 1 <= band
  {
    var shorter := if width <= height then width else height;
    assert 100.0 * (shorter as real * 0.08) == 8.0 * shorter as real;
  }

  /** What light there is at distance `d`: the bright core and the long tail, by how deep into the band it lies. */
  lemma AlphaIsRight(glow: Glow, band: nat, d: nat, u: real)
    requires glow.Valid() && 0 < band && d <= band && u == 1.0 - d as real / band as real
    ensures 0.0 <= u <= 1.0
    ensures var light := glow.peak * (0.72 * (u * u * u) + 0.28 * glow.tail(u)) * 255.0;
            light - 0.5 < Alpha(glow, band, d) as real <= light + 0.5
    ensures Alpha(glow, band, d) <= 255
  {
    DepthIsBetween(band, d);
    LobesRise(glow, 0.0, u);
    LobesRise(glow, u, 1.0);
    assert Lobes(glow, 1.0) == 1.0 && Lobes(glow, 0.0) == 0.0;
    ProductsRise(glow.peak, 1.0, Lobes(glow, u), 1.0);
    assert 0.0 <= glow.peak * Lobes(glow, u) * 255.0 <= 255.0;
  }

  /** At the very edge of the screen the glow has its peak. */
  lemma EdgeIsAtThePeak(glow: Glow, band: nat)
    requires glow.Valid() && 0 < band
    ensures glow.peak * 255.0 - 0.5 < Alpha(glow, band, 0) as real <= glow.peak * 255.0 + 0.5
  {
    assert Depth(band, 0) == 1.0;
    AlphaIsRight(glow, band, 0, 1.0);
    assert 0.72 * (1.0 * 1.0 * 1.0) + 0.28 * glow.tail(1.0) == 1.0;
  }

  /** The pixel of an alpha: red is alpha itself, green and blue the nearest to 38 and 28 parts of 255 of it. */
  lemma PixelIsRight(alpha: nat)
    requires alpha <= 255
    ensures var p := Packed(alpha);
            && p / 0x100_0000 == alpha && p / 0x1_0000 % 0x100 == alpha
            && -127 <= 255 * (p / 0x100 % 0x100) - 38 * alpha <= 127
            && -127 <= 255 * (p % 0x100) - 28 * alpha <= 127
  {
    PackedBytes(alpha);
    ChannelIsPremultiplied(255, alpha);
    ChannelIsPremultiplied(38, alpha);
    ChannelIsPremultiplied(28, alpha);
  }
}
