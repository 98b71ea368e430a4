/** The copy of a capture into the bitmap plane in src/desktop/ocr.rs. */
module OcrPixels {
  import opened Wrappers
  import opened Arithmetic
  import opened OcrBitmap

  datatype Image = Image(bytes: seq<Byte>, size: ImageSize) {
    predicate Valid() {
      size.ByteLen() == Some(|bytes|)
    }
  }

  lemma RowIsInside(source: Image, y: nat)
    requires source.Valid() && y < source.size.height
    ensures 0 <= y * (source.size.width * 4) && y * (source.size.width * 4) + source.size.width * 4 <= |source.bytes|
  {
    var w: int, h: int := source.size.width, source.size.height;
    MulMono(0, y, w * 4);
    MulMono(y + 1, h, w * 4);
    MulAdd(y, 1, w * 4);
    MulAssoc(h, w, 4);
    assert h * w == w * h;
  }

  function SourceRow(source: Image, y: nat): (row: seq<Byte>)
    requires source.Valid() && y < source.size.height
    ensures |row| == source.size.width * 4
  {
    RowIsInside(source, y);
    var start := y * (source.size.width * 4);
    source.bytes[start..start + source.size.width * 4]
  }

  /** A pixel as the recognizer gets it: blue, green and red, and opaque. */
  function PixelAt(row: seq<Byte>, x: nat): (r: seq<Byte>)
    requires x * 4 + 4 <= |row|
    ensures |r| == 4
  {
    [row[x * 4], row[x * 4 + 1], row[x * 4 + 2], 255]
  }

  /** The first `n` pixels of a row resized from one width to another. */
  function SampledRow(row: seq<Byte>, from: nat, to: nat, n: nat): (r: seq<Byte>)
    requires |row| == from * 4 && 0 < from && n <= to
    ensures |r| == n * 4
  {
    if n == 0 then [] else SampledRow(row, from, to, n - 1) + PixelAt(row, NearestSample(n - 1, from, to))
  }

  /** A row with every alpha byte set. */
  function OpaqueRow(row: seq<Byte>): (r: seq<Byte>)
    ensures |r| == |row|
  {
    seq(|row|, i requires 0 <= i < |row| => if i % 4 == 3 then 255 else row[i])
  }

  /** Each pixel of a resized row is the nearest one of the row, made opaque. */
  lemma {:induction false} SampledPixel(row: seq<Byte>, from: nat, to: nat, n: nat, x: nat)
    requires |row| == from * 4 && 0 < from && x < n <= to
    ensures var r, start := SampledRow(row, from, to, n), NearestSample(x, from, to) * 4;
            && r[x * 4] == row[start] && r[x * 4 + 1] == row[start + 1]
            && r[x * 4 + 2] == row[start + 2] && r[x * 4 + 3] == 255
    decreases n
  {
    if x < n - 1 {
      SampledPixel(row, from, to, n - 1, x);
    }
  }

  /** The fast path refines the sampling: for equal widths the sampled row is the copied row. */
  lemma CopyIsSampling(row: seq<Byte>, width: nat)
    requires |row| == width * 4 && 0 < width
    ensures SampledRow(row, width, width, width) == OpaqueRow(row)
  {
    forall i | 0 <= i < width * 4 ensures SampledRow(row, width, width, width)[i] == OpaqueRow(row)[i] {
      SampledPixel(row, width, width, width, i / 4);
      SampleIsIdentity(i / 4, width);
    }
  }

  /** What a row of the target is to hold. */
  function TargetRow(source: Image, target: ImageSize, y: nat): (r: seq<Byte>)
    requires source.Valid() && y < target.height
    ensures |r| == target.width * 4
  {
    SampledRow(SourceRow(source, NearestSample(y, source.size.height, target.height)),
               source.size.width, target.width, target.width)
  }

  /** `now` is `was` with a stretch of it replaced. */
  ghost predicate Replaced(was: seq<Byte>, now: seq<Byte>, offset: nat, bytes: seq<Byte>)
    requires offset + |bytes| <= |was|
  {
    && |now| == |was|
    && (forall i | 0 <= i < |bytes| :: now[offset + i] == bytes[i])
    && (forall j | 0 <= j < |was| && !(offset <= j < offset + |bytes|) :: now[j] == was[j])
  }

  /** Copy one row and make it opaque. */
  method CopyRow(row: seq<Byte>, width: nat, destination: array<Byte>, offset: nat)
    requires |row| == width * 4 && offset + |row| <= destination.Length
    modifies destination
    ensures Replaced(old(destination[..]), destination[..], offset, OpaqueRow(row))
  {
    forall i | 0 <= i < |row| {
      destination[offset + i] := row[i];
    }
    for x := 0 to width
      invariant forall i | 0 <= i < |row| :: destination[offset + i] == if i % 4 == 3 && i < x * 4 then 255 else row[i]
      invariant forall j | 0 <= j < destination.Length && !(offset <= j < offset + |row|) ::
                  destination[j] == old(destination[j])
    {
      destination[offset + x * 4 + 3] := 255;
    }
  }

  method WritePixel(blue: Byte, green: Byte, red: Byte, destination: array<Byte>, at: nat)
    requires at + 4 <= destination.Length
    modifies destination
    ensures destination[at] == blue && destination[at + 1] == green && destination[at + 2] == red && destination[at + 3] == 255
    ensures forall j | 0 <= j < destination.Length && !(at <= j < at + 4) :: destination[j] == old(destination[j])
  {
    destination[at], destination[at + 1], destination[at + 2] := blue, green, red;
    destination[at + 3] := 255;
  }

  method SamplePixel(row: seq<Byte>, from: nat, to: nat, x: nat, destination: array<Byte>, at: nat, ghost sampled: seq<Byte>)
    requires |row| == from * 4 && 0 < from && x < to && at + 4 <= destination.Length
    requires sampled == SampledRow(row, from, to, to)
    modifies destination
    ensures destination[at] == sampled[x * 4] && destination[at + 1] == sampled[x * 4 + 1]
    ensures destination[at + 2] == sampled[x * 4 + 2] && destination[at + 3] == sampled[x * 4 + 3]
    ensures forall j | 0 <= j < destination.Length && !(at <= j < at + 4) :: destination[j] == old(destination[j])
  {
    var start := NearestSample(x, from, to) * 4;
    SampledPixel(row, from, to, to, x);
    WritePixel(row[start], row[start + 1], row[start + 2], destination, at);
  }

  /** Sample one row pixel by pixel. */
  method SampleRow(row: seq<Byte>, from: nat, to: nat, destination: array<Byte>, offset: nat)
    requires |row| == from * 4 && 0 < from && offset + to * 4 <= destination.Length
    modifies destination
    ensures Replaced(old(destination[..]), destination[..], offset, SampledRow(row, from, to, to))
  {
    ghost var sampled := SampledRow(row, from, to, to);
    for x := 0 to to
      invariant forall i | 0 <= i < x * 4 :: destination[offset + i] == sampled[i]
      invariant forall j | 0 <= j < destination.Length && !(offset <= j < offset + to * 4) ::
                  destination[j] == old(destination[j])
    {
      var at := offset + x * 4;
      SamplePixel(row, from, to, x, destination, at, sampled);
      forall i | 0 <= i < (x + 1) * 4 ensures destination[offset + i] == sampled[i] {
        if x * 4 <= i {
          assert i == x * 4 || i == x * 4 + 1 || i == x * 4 + 2 || i == x * 4 + 3;
        }
      }
    }
  }

  /** One row of the target, by the fast path or the general one. */
  method WriteRow(source: Image, target: ImageSize, y: nat, destination: array<Byte>, offset: nat)
    requires source.Valid() && y < target.height && offset + target.width * 4 <= destination.Length
    modifies destination
    ensures Replaced(old(destination[..]), destination[..], offset, TargetRow(source, target, y))
  {
    var row := SourceRow(source, NearestSample(y, source.size.height, target.height));
    if source.size.width == target.width {
      CopyIsSampling(row, target.width);
      CopyRow(row, target.width, destination, offset);
    } else {
      SampleRow(row, source.size.width, target.width, destination, offset);
    }
  }

  // --- The whole copy -------------------------------------------------------

  /** A byte of the plane that belongs to one of the first `n` rows. */
  ghost predicate InRows(layout: BitmapLayout, size: ImageSize, n: nat, i: nat) {
    exists y | 0 <= y < n :: layout.RowStart(y) <= i < layout.RowStart(y) + size.width * 4
  }

  ghost predicate RowHolds(plane: seq<Byte>, source: Image, target: ImageSize, layout: BitmapLayout, y: nat)
    requires source.Valid() && y < target.height
  {
    && 0 <= layout.RowStart(y) && layout.RowStart(y) + target.width * 4 <= |plane|
    && plane[layout.RowStart(y)..layout.RowStart(y) + target.width * 4] == TargetRow(source, target, y)
  }

  /** Every other row of an accepted plane is left alone by writing one. */
  lemma OtherRowsHold(before: seq<Byte>, after: seq<Byte>, source: Image, target: ImageSize, layout: BitmapLayout, y: nat, z: nat)
    requires source.Valid() && z < y < target.height && |before| == |after|
    requires layout.Validate(target, |before|).Ok? && RowHolds(before, source, target, layout, z)
    requires forall i | 0 <= i < |before| && !(layout.RowStart(y) <= i < layout.RowStart(y) + target.width * 4) ::
               after[i] == before[i]
    ensures RowHolds(after, source, target, layout, z)
  {
    RowsApart(layout, target.width * 4, z, y);
    var s := layout.RowStart(z);
    assert after[s..s + target.width * 4] == before[s..s + target.width * 4];
  }

  /** The checks that fail: before every sixteenth row, and at the end. */
  ghost predicate StoppedBefore(stopped: nat -> bool, n: nat) {
    exists y: nat | y < n :: y % 16 == 0 && stopped(y)
  }

  /** Write one more row where the layout puts it. */
  method WriteNext(source: Image, destination: array<Byte>, size: ImageSize, layout: BitmapLayout, y: nat)
    requires source.Valid() && y < size.height && layout.Validate(size, destination.Length).Ok?
    requires forall z | 0 <= z < y :: RowHolds(destination[..], source, size, layout, z)
    modifies destination
    ensures forall z | 0 <= z <= y :: RowHolds(destination[..], source, size, layout, z)
    ensures forall i | 0 <= i < destination.Length && !(layout.RowStart(y) <= i < layout.RowStart(y) + size.width * 4) ::
              destination[i] == old(destination[i])
  {
    RowsBetween(layout, size.height, y);
    var offset := layout.RowStart(y);
    ghost var before := destination[..];
    WriteRow(source, size, y, destination, offset);
    assert destination[..][offset..offset + size.width * 4] == TargetRow(source, size, y);
    forall z | 0 <= z < y ensures RowHolds(destination[..], source, size, layout, z) {
      OtherRowsHold(before, destination[..], source, size, layout, y, z);
    }
  }

  /**
   Fill the plane from the capture. It succeeds exactly when the capture has the
   declared length, the plane is accepted and no check stopped it; then every row
   holds its pixels, whichever way the stride runs, and the padding is untouched.
   */
  method WritePixels(source: Image, destination: array<Byte>, size: ImageSize, layout: BitmapLayout, stopped: nat -> bool)
    returns (r: Result<(), OcrError>)
    modifies destination
    ensures source.size.ByteLen().None? ==> r == Err(BadSize)
    ensures source.size.ByteLen().Some? && !source.Valid() ==> r == Err(BadLength)
    ensures source.Valid() && layout.Validate(size, destination.Length).Err? ==>
              r == layout.Validate(size, destination.Length)
    ensures source.Valid() && layout.Validate(size, destination.Length).Ok? ==>
              && (r.Ok? <==> !StoppedBefore(stopped, size.height) && !stopped(size.height))
              && (r.Err? ==> r == Err(Stopped))
              && (forall i | 0 <= i < destination.Length && !InRows(layout, size, size.height, i) ::
                    destination[i] == old(destination[i]))
    ensures r.Ok? ==>
              source.Valid() && forall y | 0 <= y < size.height :: RowHolds(destination[..], source, size, layout, y)
    ensures !source.Valid() || layout.Validate(size, destination.Length).Err? ==> destination[..] == old(destination[..])
  {
    if source.size.ByteLen().None? {
      return Err(BadSize);
    }
    if source.size.ByteLen() != Some(|source.bytes|) {
      return Err(BadLength);
    }
    if layout.Validate(size, destination.Length).Err? {
      return layout.Validate(size, destination.Length);
    }
    for y := 0 to size.height
      invariant forall z | 0 <= z < y :: RowHolds(destination[..], source, size, layout, z)
      invariant forall i | 0 <= i < destination.Length && !InRows(layout, size, size.height, i) ::
                  destination[i] == old(destination[i])
      invariant !StoppedBefore(stopped, y)
    {
      if y % 16 == 0 && stopped(y) {
        return Err(Stopped);
      }
      WriteNext(source, destination, size, layout, y);
    }
    return if stopped(size.height) then Err(Stopped) else Ok(());
  }

  // --- What the recognizer sees -----------------------------------------------

  /** The source pixel that the centre of a target pixel falls in, in one direction. */
  predicate IsUnder(s: nat, position: nat, source: nat, target: nat) {
    s < source && s * (2 * target) <= (2 * position + 1) * source < (s + 1) * (2 * target)
  }

  /** The four bytes of one pixel: blue, green and red of the capture, in that order, and opaque. */
  predicate SamePixel(plane: seq<Byte>, at: int, bytes: seq<Byte>, from: int) {
    && 0 <= at && at + 4 <= |plane| && 0 <= from && from + 4 <= |bytes|
    && plane[at] == bytes[from] && plane[at + 1] == bytes[from + 1] && plane[at + 2] == bytes[from + 2] && plane[at + 3] == 255
  }

  lemma RowPixel(source: Image, target: ImageSize, y: nat, x: nat, sx: nat, sy: nat)
    requires source.Valid() && y < target.height && x < target.width
    requires IsUnder(sx, x, source.size.width, target.width) && IsUnder(sy, y, source.size.height, target.height)
    ensures SamePixel(TargetRow(source, target, y), x * 4, source.bytes, (sy * source.size.width + sx) * 4)
  {
    SampleIsUnder(sx, x, source.size.width, target.width);
    SampleIsUnder(sy, y, source.size.height, target.height);
    RowIsInside(source, sy);
    SampledPixel(SourceRow(source, sy), source.size.width, target.width, target.width, x);
    RowOffset(sy, source.size.width, sx);
  }

  lemma RowOffset(y: nat, width: nat, x: nat)
    ensures y * (width * 4) + x * 4 == (y * width + x) * 4
  {
    MulAssoc(y, width, 4);
    MulAdd(y * width, x, 4);
  }

  lemma SampleIsUnder(s: nat, position: nat, source: nat, target: nat)
    requires position < target && IsUnder(s, position, source, target)
    ensures NearestSample(position, source, target) == s
  {
    SampleHoldsCentre(position, source, target);
    CentreIsOnce(s, NearestSample(position, source, target), position, source, target);
  }

  /**
   The copy theorem, byte by byte: after a successful copy the pixel at column `x`
   of row `y`, wherever the layout puts that row, is the one of the capture that
   its centre falls in.
   */
  lemma CopiedPixel(plane: seq<Byte>, source: Image, target: ImageSize, layout: BitmapLayout, y: nat, x: nat, sx: nat, sy: nat)
    requires source.Valid() && y < target.height && x < target.width && RowHolds(plane, source, target, layout, y)
    requires IsUnder(sx, x, source.size.width, target.width) && IsUnder(sy, y, source.size.height, target.height)
    ensures SamePixel(plane, layout.start + y * layout.stride + x * 4, source.bytes, (sy * source.size.width + sx) * 4)
  {
    RowPixel(source, target, y, x, sx, sy);
    var start := layout.RowStart(y);
    var row := plane[start..start + target.width * 4];
    assert row[x * 4] == plane[start + x * 4] && row[x * 4 + 1] == plane[start + x * 4 + 1]
        && row[x * 4 + 2] == plane[start + x * 4 + 2] && row[x * 4 + 3] == plane[start + x * 4 + 3];
  }
}
