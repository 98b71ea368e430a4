/** The glow of src/overlay.rs: a band of light along the edges of the screen. */
module OverlayPaint {
  import opened Arithmetic
  import opened OverlayLight

  function Min(a: int, b: int): int { if a <= b then a else b }

  /** The distance of a pixel to the nearest edge of the screen. */
  function EdgeDistance(width: nat, height: nat, x: nat, y: nat): int {
    Min(Min(x, width - 1 - x), Min(y, height - 1 - y))
  }

  /** The light at a pixel: what the table says for its distance, capped at the width of the band. */
  function Light(lut: seq<Pixel>, width: nat, height: nat, x: nat, y: nat): Pixel
    requires |lut| > 0 && x < width && y < height
  {
    lut[Min(|lut| - 1, EdgeDistance(width, height, x, y))]
  }

  /** A row of the screen holds the light of each of its pixels. */
  ghost predicate RowLit(bits: seq<Pixel>, lut: seq<Pixel>, width: nat, height: nat, y: nat, start: int)
    requires |lut| > 0 && y < height
  {
    0 <= start && start + width <= |bits| && forall x | 0 <= x < width :: bits[start + x] == Light(lut, width, height, x, y)
  }

  /** A row near the top or bottom edge, where every pixel is lit. */
  method PaintEdgeRow(bits: array<Pixel>, lut: seq<Pixel>, width: nat, height: nat, y: nat, start: nat)
    requires |lut| > 1 && 0 < width && y < height && start + width <= bits.Length
    requires Min(y, height - 1 - y) < |lut| - 1
    modifies bits
    ensures RowLit(bits[..], lut, width, height, y, start)
    ensures forall j | 0 <= j < bits.Length && !(start <= j < start + width) :: bits[j] == old(bits[j])
  {
    var dy := Min(y, height - 1 - y);
    for x := 0 to width
      invariant forall k | 0 <= k < x :: bits[start + k] == Light(lut, width, height, k, y)
      invariant forall j | 0 <= j < bits.Length && !(start <= j < start + width) :: bits[j] == old(bits[j])
    {
      var d := Min(dy, Min(x, width - 1 - x));
      bits[start + x] := lut[d];
    }
  }

  /** A pixel of a middle row once the first `n` columns of both strips are written. */
  function Strip(lut: seq<Pixel>, width: nat, x: nat, n: nat): Pixel
    requires x < width && n < |lut|
  {
    var d := Min(x, width - 1 - x);
    if d < n then lut[d] else 0
  }

  /**
   A row in the middle: only the strips at the left and right are written, both at
   once, and never past the middle; the dark interior is left as it was.
   */
  method PaintMiddleRow(bits: array<Pixel>, lut: seq<Pixel>, width: nat, height: nat, y: nat, start: nat)
    requires |lut| > 1 && 0 < width && y < height && start + width <= bits.Length
    requires Min(y, height - 1 - y) >= |lut| - 1 && lut[|lut| - 1] == 0
    requires forall j | start <= j < start + width :: bits[j] == 0
    modifies bits
    ensures RowLit(bits[..], lut, width, height, y, start)
    ensures forall j | 0 <= j < bits.Length && !(start <= j < start + width) :: bits[j] == old(bits[j])
  {
    var limit := Min(|lut| - 1, (width + 1) / 2);
    for x := 0 to limit
      invariant forall j | start <= j < start + width :: bits[j] == Strip(lut, width, j - start, x)
      invariant forall j | 0 <= j < bits.Length && !(start <= j < start + width) :: bits[j] == old(bits[j])
    {
      var v := lut[x];
      bits[start + x] := v;
      bits[start + (width - 1 - x)] := v;
    }
    forall x | 0 <= x < width ensures bits[start + x] == Light(lut, width, height, x, y) {
      assert bits[start + x] == Strip(lut, width, x, limit);
    }
  }

  lemma RowStart(width: nat, height: nat, y: nat)
    requires y < height
    ensures 0 <= y * width && y * width + width <= height * width && (y + 1) * width == y * width + width
  {
    MulMono(0, y, width);
    MulMono(y + 1, height, width);
    MulAdd(y, 1, width);
  }

  lemma RowsBefore(width: nat, z: nat, y: nat)
    requires z < y
    ensures z * width + width <= y * width
  {
    MulMono(z + 1, y, width);
    MulAdd(z, 1, width);
  }

  /** One row, by whichever of the two ways its distance to the top and bottom asks for. */
  method PaintRow(bits: array<Pixel>, lut: seq<Pixel>, width: nat, height: nat, y: nat, start: nat)
    requires |lut| > 1 && lut[|lut| - 1] == 0 && 0 < width && y < height && start + width <= bits.Length
    requires forall j | start <= j < start + width :: bits[j] == 0
    modifies bits
    ensures RowLit(bits[..], lut, width, height, y, start)
    ensures forall j | 0 <= j < bits.Length && !(start <= j < start + width) :: bits[j] == old(bits[j])
  {
    var dy := Min(y, height - 1 - y);
    if dy < |lut| - 1 {
      PaintEdgeRow(bits, lut, width, height, y, start);
    } else {
      PaintMiddleRow(bits, lut, width, height, y, start);
    }
  }

  /** Every pixel of the screen holds the light of its distance. */
  ghost predicate Lit(bits: seq<Pixel>, lut: seq<Pixel>, width: nat, height: nat)
    requires |lut| > 0
  {
    forall y | 0 <= y < height :: RowLit(bits, lut, width, height, y, y * width)
  }

  /**
   Paint a cleared bitmap with a glow. Every pixel gets the light of its distance
   to the nearest edge, for every size of screen, also one narrower than two bands;
   the interior is left alone because the band ends dark.
   */
  method Paint(bits: array<Pixel>, width: nat, height: nat, glow: Glow)
    requires glow.Valid() && 0 < width && 0 < height && bits.Length == height * width
    requires forall j | 0 <= j < bits.Length :: bits[j] == 0
    modifies bits
    ensures Lit(bits[..], Table(glow, Band(width, height)), width, height)
  {
    var band := Band(width, height);
    var lut := Table(glow, band);
    BandEndsDark(glow, band);
    for y := 0 to height
      invariant forall z | 0 <= z < y :: RowLit(bits[..], lut, width, height, z, z * width)
      invariant forall j | y * width <= j < bits.Length :: bits[j] == 0
    {
      RowStart(width, height, y);
      ghost var before := bits[..];
      PaintRow(bits, lut, width, height, y, y * width);
      forall z | 0 <= z < y ensures RowLit(bits[..], lut, width, height, z, z * width) {
        RowsBefore(width, z, y);
        RowKept(before, bits[..], lut, width, height, z, z * width, y * width);
      }
    }
  }

  lemma RowKept(before: seq<Pixel>, after: seq<Pixel>, lut: seq<Pixel>, width: nat, height: nat, z: nat, start: int, end: int)
    requires |lut| > 0 && z < height && |before| == |after| && RowLit(before, lut, width, height, z, start)
    requires start + width <= end && forall j | 0 <= j < |before| && j < end :: after[j] == before[j]
    ensures RowLit(after, lut, width, height, z, start)
  {}

  /** Exactly the pixels further in than the band get the last, dark entry of the table whatever their distance. */
  lemma InteriorIsDark(glow: Glow, width: nat, height: nat, x: nat, y: nat)
    requires glow.Valid() && x < width && y < height
    requires EdgeDistance(width, height, x, y) >= Band(width, height)
    ensures Light(Table(glow, Band(width, height)), width, height, x, y) == 0
  {
    BandEndsDark(glow, Band(width, height));
  }

  /** The picture is symmetric: mirrored pixels have the same light. */
  lemma LightIsMirrored(lut: seq<Pixel>, width: nat, height: nat, x: nat, y: nat)
    requires |lut| > 0 && x < width && y < height
    ensures Light(lut, width, height, x, y) == Light(lut, width, height, width - 1 - x, y)
    ensures Light(lut, width, height, x, y) == Light(lut, width, height, x, height - 1 - y)
  {}

  /** The distance to the nearest of the four edges. */
  predicate IsNearest(d: int, width: nat, height: nat, x: nat, y: nat) {
    && (d == x || d == width - 1 - x || d == y || d == height - 1 - y)
    && d <= x && d <= width - 1 - x && d <= y && d <= height - 1 - y
  }

  lemma LightOfDistance(lut: seq<Pixel>, width: nat, height: nat, x: nat, y: nat, d: nat)
    requires |lut| > 0 && x < width && y < height && IsNearest(d, width, height, x, y)
    ensures Light(lut, width, height, x, y) == lut[if d < |lut| - 1 then d else |lut| - 1]
  {}

  lemma RowPixel(bits: seq<Pixel>, lut: seq<Pixel>, width: nat, height: nat, y: nat, start: int, x: nat)
    requires |lut| > 0 && x < width && y < height && RowLit(bits, lut, width, height, y, start)
    ensures 0 <= start + x < |bits| && bits[start + x] == Light(lut, width, height, x, y)
  {}

  /** The painting theorem, pixel by pixel: the light of its distance within the band, and nothing further in. */
  lemma PaintedPixel(bits: seq<Pixel>, glow: Glow, width: nat, height: nat, x: nat, y: nat, d: nat)
    requires glow.Valid() && x < width && y < height && Lit(bits, Table(glow, Band(width, height)), width, height)
    requires IsNearest(d, width, height, x, y)
    ensures 0 <= y * width + x < |bits|
    ensures bits[y * width + x] == if d < Band(width, height) then LightAt(glow, Band(width, height), d) else 0
  {
    var lut := Table(glow, Band(width, height));
    RowPixel(bits, lut, width, height, y, y * width, x);
    LightOfDistance(lut, width, height, x, y, d);
    BandEndsDark(glow, Band(width, height));
  }
}
