/**
 The bitmap that src/desktop/ocr.rs hands to the recognizer: the size it is
 fitted to, the layout of its pixel plane, whose stride may be negative, and the
 nearest-neighbour copy into it.
 */
module OcrBitmap {
  import opened Wrappers
  import opened Arithmetic

  type Byte = b: int | 0 <= b < 256
  type U32 = n: nat | n < 0x1_0000_0000
  type I32 = n: int | -0x8000_0000 <= n < 0x8000_0000

  const MAX_BITMAP_DIMENSION: U32 := 4096
  const U64_END: nat := 0x1_0000_0000_0000_0000
  const ISIZE_MAX: nat := 0x7fff_ffff_ffff_ffff

  datatype ImageSize = ImageSize(width: U32, height: U32) {
    /** The number of bytes of a packed image, if it has pixels and the number fits 64 bits. */
    function ByteLen(): (r: Option<nat>)
      ensures r.Some? <==> width != 0 && height != 0 && width * height * 4 < U64_END
    {
      if width == 0 || height == 0 || width * height * 4 >= U64_END then None else Some(width * height * 4)
    }
  }

  // --- Fitting ------------------------------------------------------------

  datatype OcrError = BadSize | NoDimensions | BadPlane | BadLength | Stopped

  function MinU(a: U32, b: U32): U32 { if a <= b then a else b }
  function MaxU(a: U32, b: U32): U32 { if a >= b then a else b }

  lemma ScaleIsSmall(value: nat, limit: nat, longest: nat)
    requires 0 < longest && value <= longest
    ensures 0 <= value * limit / longest <= limit
    ensures value == longest ==> value * limit / longest == limit
  {
    var n := value * limit;
    DivBounds(n, longest);
    MulMono(value, longest, limit);
    var q := n / longest;
    if q > limit {
      MulMono(limit + 1, q, longest);
      MulAdd(limit, 1, longest);
    }
    if value == longest {
      DivUnique(n, longest, limit);
    }
  }

  /** One side scaled down so that the longest becomes the limit, but never to nothing. */
  function Scaled(value: U32, limit: U32, longest: U32): U32
    requires 0 < longest && value <= longest
  {
    ScaleIsSmall(value, limit, longest);
    var scaled := value * limit / longest;
    if scaled < 1 then 1 else scaled
  }

  function FitDimensions(source: ImageSize, nativeLimit: U32): Result<ImageSize, OcrError> {
    var limit := MinU(nativeLimit, MAX_BITMAP_DIMENSION);
    if source.ByteLen().None? then Err(BadSize)
    else if limit == 0 then Err(NoDimensions)
    else
      var longest := MaxU(source.width, source.height);
      if longest <= limit then Ok(source)
      else Ok(ImageSize(Scaled(source.width, limit, longest), Scaled(source.height, limit, longest)))
  }

  /**
   What fitting promises: it fails only for an image without pixels, one too large
   to address, or a recognizer without dimensions; it never enlarges; the result fits
   both limits; and an image too large comes back with its longest side at the limit
   and the other side in proportion, rounded down but not to nothing.
   */
  lemma FittedIsRight(source: ImageSize, nativeLimit: U32)
    ensures FitDimensions(source, nativeLimit).Ok? <==> source.ByteLen().Some? && nativeLimit != 0
    ensures FitDimensions(source, nativeLimit).Ok? ==>
              var r := FitDimensions(source, nativeLimit).value;
              && Fitted(source, if nativeLimit < 4096 then nativeLimit else 4096, r)
              && r.width <= nativeLimit && r.width <= 4096 && r.height <= nativeLimit && r.height <= 4096
  {
    var limit := MinU(nativeLimit, MAX_BITMAP_DIMENSION);
    if source.ByteLen().Some? && limit != 0 {
      var longest := MaxU(source.width, source.height);
      var r := FitDimensions(source, nativeLimit).value;
      if limit < longest {
        SideIsRight(source.width, limit, longest);
        SideIsRight(source.height, limit, longest);
      }
      MulMono(r.width, 4096, r.height);
    }
  }

  predicate Fitted(source: ImageSize, limit: U32, r: ImageSize) {
    var longest := if source.width < source.height then source.height else source.width;
    && 1 <= r.width <= source.width && 1 <= r.height <= source.height
    && r.width <= limit && r.height <= limit && r.ByteLen().Some?
    && (longest <= limit ==> r == source)
    && (longest > limit ==>
          && (r.width == limit || r.height == limit)
          && InProportion(r.width, source.width, limit, longest)
          && InProportion(r.height, source.height, limit, longest))
  }

  /** The largest side with at most the ratio of the source, or one pixel. */
  predicate InProportion(side: nat, original: nat, limit: nat, longest: nat) {
    original * limit < (side + 1) * longest && (side * longest <= original * limit || side == 1)
  }

  lemma SideIsRight(value: U32, limit: U32, longest: U32)
    requires 0 < limit < longest && 0 < value <= longest
    ensures 1 <= Scaled(value, limit, longest) <= limit
    ensures Scaled(value, limit, longest) <= value
    ensures InProportion(Scaled(value, limit, longest), value, limit, longest)
    ensures value == longest ==> Scaled(value, limit, longest) == limit
  {
    ScaleIsSmall(value, limit, longest);
    var n := value * limit;
    DivBounds(n, longest);
    var q := n / longest;
    MulAdd(q, 1, longest);
    NotEnlarged(value, limit, longest, n, q);
    if q < 1 {
      MulMono(q + 1, 2, longest);
    }
  }

  lemma NotEnlarged(value: nat, limit: nat, longest: nat, n: nat, q: nat)
    requires limit < longest && n == value * limit && q * longest <= n
    ensures q <= value
  {
    if q > value {
      MulMono(value + 1, q, longest);
      MulAdd(value, 1, longest);
      MulMono(limit, longest, value);
    }
  }

  // --- Layout -------------------------------------------------------------

  function Abs(x: int): int { if x < 0 then -x else x }
  function Lesser(a: int, b: int): int { if a <= b then a else b }
  function Greater(a: int, b: int): int { if a >= b then a else b }

  /** Where the rows of a plane begin, and how far apart; the first may be the lowest or the highest. */
  datatype BitmapLayout = BitmapLayout(start: I32, stride: I32) {
    function RowStart(y: int): int {
      start + y * stride
    }

    function Validate(size: ImageSize, capacity: nat): Result<(), OcrError> {
      if size.ByteLen().None? then Err(BadSize)
      else
        var first, last := RowStart(0), RowStart(size.height - 1);
        if Abs(stride) < size.width * 4 || Lesser(first, last) < 0
           || Greater(first, last) + size.width * 4 > capacity || capacity > ISIZE_MAX
        then Err(BadPlane)
        else Ok(())
    }
  }

  lemma RowsBetween(layout: BitmapLayout, height: nat, y: nat)
    requires y < height
    ensures Lesser(layout.RowStart(0), layout.RowStart(height - 1)) <= layout.RowStart(y)
    ensures layout.RowStart(y) <= Greater(layout.RowStart(0), layout.RowStart(height - 1))
  {
    var s: int := layout.stride;
    if s >= 0 {
      MulMono(0, y, s);
      MulMono(y, height - 1, s);
    } else {
      MulMono(0, y, -s);
      MulMono(y, height - 1, -s);
      assert y * -s == -(y * s) && (height - 1) * -s == -((height - 1) * s);
    }
  }

  ghost predicate RowsFit(layout: BitmapLayout, size: ImageSize, capacity: nat) {
    forall y | 0 <= y < size.height :: 0 <= layout.RowStart(y) && layout.RowStart(y) + size.width * 4 <= capacity
  }

  ghost predicate RowsDisjoint(layout: BitmapLayout, size: ImageSize) {
    forall y, z | 0 <= y < z < size.height :: Abs(layout.RowStart(y) - layout.RowStart(z)) >= size.width * 4
  }

  /**
   A plane is accepted exactly when it is addressable, every row lies inside it and
   no two rows share a byte, however the stride is signed; a plane of a single row
   must still declare a stride as long as that.
   */
  lemma ValidMeansRowsFit(layout: BitmapLayout, size: ImageSize, capacity: nat)
    ensures layout.Validate(size, capacity).Ok? <==>
              && size.ByteLen().Some? && capacity <= ISIZE_MAX
              && RowsFit(layout, size, capacity) && RowsDisjoint(layout, size)
              && (size.height == 1 ==> Abs(layout.stride) >= size.width * 4)
  {
    if layout.Validate(size, capacity).Ok? {
      forall y | 0 <= y < size.height
        ensures 0 <= layout.RowStart(y) && layout.RowStart(y) + size.width * 4 <= capacity
      {
        RowsBetween(layout, size.height, y);
      }
      forall y, z | 0 <= y < z < size.height ensures Abs(layout.RowStart(y) - layout.RowStart(z)) >= size.width * 4 {
        RowsApart(layout, size.width * 4, y, z);
      }
    } else if size.ByteLen().Some? && RowsFit(layout, size, capacity) && RowsDisjoint(layout, size) && size.height > 1 {
      assert Abs(layout.RowStart(0) - layout.RowStart(1)) >= size.width * 4;
      assert layout.RowStart(1) - layout.RowStart(0) == layout.stride;
      assert layout.RowStart(0) + size.width * 4 <= capacity && layout.RowStart(size.height - 1) + size.width * 4 <= capacity;
    }
  }

  lemma RowsApart(layout: BitmapLayout, rowBytes: nat, y: nat, z: nat)
    requires y < z && Abs(layout.stride) >= rowBytes
    ensures Abs(layout.RowStart(y) - layout.RowStart(z)) >= rowBytes
  {
    var s: int := layout.stride;
    MulAdd(y, z - y, s);
    if s >= 0 {
      MulMono(1, z - y, s);
    } else {
      MulMono(1, z - y, -s);
      MulAdd(z - y, 0, s);
      assert (z - y) * -s == -((z - y) * s);
    }
  }

  // --- Sampling -----------------------------------------------------------

  function NearestSample(position: nat, source: nat, target: nat): (r: nat)
    requires 0 < source && 0 < target
    ensures r < source
  {
    var n, d: nat := (position * 2 + 1) * source, target * 2;
    DivBounds(n, d);
    if n / d <= source - 1 then n / d else source - 1
  }

  /** The sample is the source pixel that the centre of the target pixel falls in. */
  lemma SampleHoldsCentre(position: nat, source: nat, target: nat)
    requires 0 < source && position < target
    ensures HoldsCentre(NearestSample(position, source, target), position, source, target)
  {
    var n, d: nat := (position * 2 + 1) * source, target * 2;
    DivBounds(n, d);
    var q := n / d;
    MulAdd(q, 1, d);
    CentreIsInside(position, source, target, q);
  }

  predicate HoldsCentre(r: nat, position: nat, source: nat, target: nat) {
    r * (target * 2) <= (position * 2 + 1) * source < (r + 1) * (target * 2)
  }

  lemma CentreIsInside(position: nat, source: nat, target: nat, q: nat)
    requires 0 < source && position < target && q * (target * 2) <= (position * 2 + 1) * source
    ensures q < source
  {
    var d := target * 2;
    MulMono(position * 2 + 1, d - 1, source);
    MulAdd(d, -1, source);
    if q >= source {
      MulMono(source, q, d);
    }
  }

  /** There is only one such pixel. */
  lemma CentreIsOnce(q: nat, r: nat, position: nat, source: nat, target: nat)
    requires HoldsCentre(q, position, source, target) && HoldsCentre(r, position, source, target)
    ensures q == r
  {
    if q < r {
      MulMono(q + 1, r, target * 2);
    } else if r < q {
      MulMono(r + 1, q, target * 2);
    }
  }

  /** Equal sizes sample each pixel from itself; this is what the copying of whole rows relies on. */
  lemma SampleIsIdentity(position: nat, size: nat)
    requires position < size
    ensures NearestSample(position, size, size) == position
  {
    SampleHoldsCentre(position, size, size);
    MulAdd(position * 2, 1, size);
    MulAdd(position, 1, size * 2);
    MulAssoc(position, 2, size);
    CentreIsOnce(position, NearestSample(position, size, size), position, size, size);
  }

  /** Samples keep the order of the pixels. */
  lemma SamplesAreOrdered(a: nat, b: nat, source: nat, target: nat)
    requires 0 < source && a <= b < target
    ensures NearestSample(a, source, target) <= NearestSample(b, source, target)
  {
    SampleHoldsCentre(a, source, target);
    SampleHoldsCentre(b, source, target);
    MulMono(a * 2 + 1, b * 2 + 1, source);
    CentresAreOrdered(NearestSample(a, source, target), NearestSample(b, source, target), a, b, source, target);
  }

  lemma CentresAreOrdered(q: nat, r: nat, a: nat, b: nat, source: nat, target: nat)
    requires HoldsCentre(q, a, source, target) && HoldsCentre(r, b, source, target)
    requires (a * 2 + 1) * source <= (b * 2 + 1) * source
    ensures q <= r
  {
    if q > r {
      MulMono(r + 1, q, target * 2);
    }
  }

  /** For fitted sizes the product of sampling fits 64 bits. */
  lemma SampleFits64(position: U32, source: U32, target: U32)
    requires position < target <= MAX_BITMAP_DIMENSION
    ensures (position * 2 + 1) * source < U64_END
  {
    MulMono(position * 2 + 1, 8192, source);
  }
}
