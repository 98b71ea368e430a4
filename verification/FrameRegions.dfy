/**
 The region list of src/desktop/observation.rs: rectangles of changed tiles,
 merged while they are few and replaced by one bounding box when they are not.
 */
module FrameRegions {
  const MAX_REGIONS: nat := 256
  const MAX_SIDE: nat := 65_535
  const WRAP: nat := 0x1_0000_0000

  type Point = (int, int)

  datatype Rect = Rect(x: int, y: int, width: nat, height: nat) {
    function Right(): int { x + width }
    function Bottom(): int { y + height }

    predicate Contains(p: Point) {
      x <= p.0 < Right() && y <= p.1 < Bottom()
    }

    /** Not empty, and inside a frame whose sides a capture allows. */
    predicate Within(frame: Rect) {
      && 0 < width && 0 < height && frame.width <= MAX_SIDE && frame.height <= MAX_SIDE
      && frame.x <= x && Right() <= frame.Right()
      && frame.y <= y && Bottom() <= frame.Bottom()
    }

    function Points(): set<Point> {
      set u, v | x <= u < Right() && y <= v < Bottom() :: (u, v)
    }
  }

  function Min(a: int, b: int): int { if a <= b then a else b }
  function Max(a: int, b: int): int { if a >= b then a else b }

  /** The smallest rectangle around two, its sides cast to 32 bits. */
  function Union(left: Rect, right: Rect): Rect {
    var x, y := Min(left.x, right.x), Min(left.y, right.y);
    Rect(x, y, (Max(left.Right(), right.Right()) - x) % WRAP, (Max(left.Bottom(), right.Bottom()) - y) % WRAP)
  }

  lemma UnionStaysWithin(left: Rect, right: Rect, frame: Rect)
    requires left.Within(frame) && right.Within(frame)
    ensures Union(left, right).Within(frame)
    ensures Union(left, right).Right() == Max(left.Right(), right.Right())
    ensures Union(left, right).Bottom() == Max(left.Bottom(), right.Bottom())
  {}

  /** `region` continues `previous` downwards. */
  predicate Continues(previous: Rect, region: Rect) {
    previous.x == region.x && previous.width == region.width && previous.Bottom() == region.y
  }

  /** The last region among the first `n` that `region` continues, or `n` if there is none. */
  function MergeIndex(regions: seq<Rect>, region: Rect, n: nat): (k: nat)
    requires n <= |regions|
    ensures k <= |regions|
    ensures k < |regions| ==> Continues(regions[k], region)
  {
    if n == 0 then |regions|
    else if Continues(regions[n - 1], region) then n - 1
    else MergeIndex(regions, region, n - 1)
  }

  /** The first `n` regions folded into one box, starting from another region. */
  function Envelope(regions: seq<Rect>, region: Rect, n: nat): Rect
    requires n <= |regions|
  {
    if n == 0 then region else Union(Envelope(regions, region, n - 1), regions[n - 1])
  }

  datatype Shape = Shape(regions: seq<Rect>, coalesced: bool)

  function Added(shape: Shape, region: Rect): Shape
    requires shape.coalesced ==> |shape.regions| > 0
  {
    var regions := shape.regions;
    var k := MergeIndex(regions, region, |regions|);
    if shape.coalesced then Shape(regions[0 := Union(regions[0], region)], true)
    else if k < |regions| then Shape(regions[k := regions[k].(height := regions[k].height + region.height)], false)
    else if |regions| >= MAX_REGIONS then Shape([Envelope(regions, region, |regions|)], true)
    else Shape(regions + [region], false)
  }

  // --- What a region list stands for ---------------------------------------

  ghost predicate Covers(regions: seq<Rect>, p: Point) {
    exists k :: 0 <= k < |regions| && regions[k].Contains(p)
  }

  ghost predicate Disjoint(regions: seq<Rect>) {
    forall i, j, p: Point | 0 <= i < j < |regions| && regions[i].Contains(p) :: !regions[j].Contains(p)
  }

  /** The bounding box: it contains every point, and each of its sides touches one. */
  ghost predicate IsBox(box: Rect, points: set<Point>) {
    && (forall p | p in points :: box.Contains(p))
    && (exists p :: p in points && p.0 == box.x)
    && (exists p :: p in points && p.0 == box.Right() - 1)
    && (exists p :: p in points && p.1 == box.y)
    && (exists p :: p in points && p.1 == box.Bottom() - 1)
  }

  /**
   The meaning of a region list: as long as it is not coalesced, its regions are
   disjoint and cover exactly the points; afterwards it is their bounding box.
   */
  ghost predicate Depicts(shape: Shape, points: set<Point>, frame: Rect) {
    && |shape.regions| <= MAX_REGIONS
    && (forall k | 0 <= k < |shape.regions| :: shape.regions[k].Within(frame))
    && if shape.coalesced then |shape.regions| == 1 && IsBox(shape.regions[0], points)
       else Disjoint(shape.regions) && forall p: Point :: p in points <==> Covers(shape.regions, p)
  }

  /** There is only one bounding box. */
  lemma BoxIsUnique(a: Rect, b: Rect, points: set<Point>)
    requires IsBox(a, points) && IsBox(b, points)
    ensures a == b
  {}

  lemma RegionIsItsBox(region: Rect)
    requires 0 < region.width && 0 < region.height
    ensures IsBox(region, region.Points())
  {
    var first, last := (region.x, region.y), (region.Right() - 1, region.Bottom() - 1);
    assert first in region.Points() && last in region.Points();
  }

  lemma UnionIsBox(a: Rect, p: set<Point>, b: Rect, q: set<Point>, frame: Rect)
    requires IsBox(a, p) && IsBox(b, q) && a.Within(frame) && b.Within(frame)
    ensures IsBox(Union(a, b), p + q) && Union(a, b).Within(frame)
  {
    UnionStaysWithin(a, b, frame);
    var u, all := Union(a, b), p + q;
    var left := if a.x <= b.x then LeftOf(a, p) else LeftOf(b, q);
    var right := if a.Right() >= b.Right() then RightOf(a, p) else RightOf(b, q);
    var top := if a.y <= b.y then TopOf(a, p) else TopOf(b, q);
    var bottom := if a.Bottom() >= b.Bottom() then BottomOf(a, p) else BottomOf(b, q);
    assert left in all && right in all && top in all && bottom in all;
  }

  ghost function LeftOf(box: Rect, points: set<Point>): (p: Point)
    requires IsBox(box, points)
    ensures p in points && p.0 == box.x
  {
    var p :| p in points && p.0 == box.x;
    p
  }

  ghost function RightOf(box: Rect, points: set<Point>): (p: Point)
    requires IsBox(box, points)
    ensures p in points && p.0 == box.Right() - 1
  {
    var p :| p in points && p.0 == box.Right() - 1;
    p
  }

  ghost function TopOf(box: Rect, points: set<Point>): (p: Point)
    requires IsBox(box, points)
    ensures p in points && p.1 == box.y
  {
    var p :| p in points && p.1 == box.y;
    p
  }

  ghost function BottomOf(box: Rect, points: set<Point>): (p: Point)
    requires IsBox(box, points)
    ensures p in points && p.1 == box.Bottom() - 1
  {
    var p :| p in points && p.1 == box.Bottom() - 1;
    p
  }

  ghost function PointsOf(regions: seq<Rect>, n: nat): set<Point>
    requires n <= |regions|
  {
    if n == 0 then {} else PointsOf(regions, n - 1) + regions[n - 1].Points()
  }

  lemma {:induction false} PointsOfCovers(regions: seq<Rect>, n: nat, p: Point)
    requires n <= |regions|
    ensures p in PointsOf(regions, n) <==> exists k :: 0 <= k < n && regions[k].Contains(p)
  {
    if n > 0 {
      PointsOfCovers(regions, n - 1, p);
    }
  }

  lemma {:induction false} EnvelopeIsBox(regions: seq<Rect>, region: Rect, n: nat, frame: Rect)
    requires n <= |regions| && region.Within(frame)
    requires forall k | 0 <= k < |regions| :: regions[k].Within(frame)
    ensures IsBox(Envelope(regions, region, n), region.Points() + PointsOf(regions, n))
    ensures Envelope(regions, region, n).Within(frame)
  {
    if n == 0 {
      RegionIsItsBox(region);
      assert region.Points() + PointsOf(regions, 0) == region.Points();
    } else {
      EnvelopeIsBox(regions, region, n - 1, frame);
      BoxGrows(Envelope(regions, region, n - 1), region.Points() + PointsOf(regions, n - 1), regions[n - 1], frame);
      assert region.Points() + PointsOf(regions, n - 1) + regions[n - 1].Points()
          == region.Points() + PointsOf(regions, n);
    }
  }

  lemma BoxGrows(box: Rect, points: set<Point>, region: Rect, frame: Rect)
    requires IsBox(box, points) && box.Within(frame) && region.Within(frame)
    ensures IsBox(Union(box, region), points + region.Points()) && Union(box, region).Within(frame)
  {
    RegionIsItsBox(region);
    UnionIsBox(box, points, region, region.Points(), frame);
  }

  /** Adding a region of fresh points to a list adds exactly those points to what it stands for. */
  lemma AddedDepicts(shape: Shape, points: set<Point>, region: Rect, frame: Rect)
    requires Depicts(shape, points, frame) && region.Within(frame) && points !! region.Points()
    ensures Depicts(Added(shape, region), points + region.Points(), frame)
  {
    var regions := shape.regions;
    var k := MergeIndex(regions, region, |regions|);
    if shape.coalesced {
      BoxGrows(regions[0], points, region, frame);
    } else if k < |regions| {
      MergedDepicts(regions, points, region, k, frame);
    } else if |regions| >= MAX_REGIONS {
      EnvelopeIsBox(regions, region, |regions|, frame);
      forall p: Point ensures p in PointsOf(regions, |regions|) <==> p in points {
        PointsOfCovers(regions, |regions|, p);
      }
      assert region.Points() + PointsOf(regions, |regions|) == points + region.Points();
    } else {
      AppendedDepicts(regions, points, region, frame);
    }
  }

  /** The list is coalesced only once more than 256 regions were added; until then it is no longer than that. */
  ghost predicate Economical(shape: Shape, added: nat) {
    if shape.coalesced then added > 256 else |shape.regions| <= added
  }

  lemma AddedIsEconomical(shape: Shape, region: Rect, added: nat)
    requires Economical(shape, added) && (shape.coalesced ==> |shape.regions| > 0)
    ensures Economical(Added(shape, region), added + 1)
  {}

  lemma {:induction false} MergeIndexIsLast(regions: seq<Rect>, region: Rect, n: nat)
    requires n <= |regions|
    ensures var k := MergeIndex(regions, region, n);
            if exists j | 0 <= j < n :: Continues(regions[j], region) then
              k < n && Continues(regions[k], region) && forall j | k < j < n :: !Continues(regions[j], region)
            else k == |regions|
    decreases n
  {
    if n > 0 && !Continues(regions[n - 1], region) {
      MergeIndexIsLast(regions, region, n - 1);
    }
  }

  /** The region lies right below the other and is as wide. */
  predicate IsBelow(above: Rect, region: Rect) {
    above.x == region.x && above.width == region.width && above.y + above.height == region.y
  }

  /**
   What adding does: a region right below others makes the last of them taller; any
   other joins the list while it has fewer than 256, and then all become one.
   */
  lemma AddingDecides(shape: Shape, region: Rect)
    requires !shape.coalesced
    ensures var regions, after := shape.regions, Added(shape, region);
            && (forall k | 0 <= k < |regions| && IsBelow(regions[k], region) && (forall j | k < j < |regions| :: !IsBelow(regions[j], region)) ::
                  after == Shape(regions[k := Rect(region.x, regions[k].y, region.width, regions[k].height + region.height)], false))
            && ((forall k | 0 <= k < |regions| :: !IsBelow(regions[k], region)) ==>
                  if |regions| < 256 then after == Shape(regions + [region], false)
                  else after.coalesced && |after.regions| == 1)
  {
    MergeIndexIsLast(shape.regions, region, |shape.regions|);
    forall k | 0 <= k < |shape.regions| ensures Continues(shape.regions[k], region) <==> IsBelow(shape.regions[k], region) {}
  }

  lemma AppendedDepicts(regions: seq<Rect>, points: set<Point>, region: Rect, frame: Rect)
    requires Depicts(Shape(regions, false), points, frame) && region.Within(frame) && points !! region.Points()
    requires |regions| < MAX_REGIONS
    ensures Depicts(Shape(regions + [region], false), points + region.Points(), frame)
  {
    var more := regions + [region];
    forall p: Point ensures p in points + region.Points() <==> Covers(more, p) {
      if Covers(regions, p) {
        var k :| 0 <= k < |regions| && regions[k].Contains(p);
        assert more[k].Contains(p);
      } else if region.Contains(p) {
        assert more[|regions|].Contains(p);
      }
    }
    forall i, j, p: Point | 0 <= i < j < |more| && more[i].Contains(p) ensures !more[j].Contains(p) {
      assert Covers(regions, p);
    }
  }

  lemma MergedDepicts(regions: seq<Rect>, points: set<Point>, region: Rect, k: nat, frame: Rect)
    requires Depicts(Shape(regions, false), points, frame) && region.Within(frame) && points !! region.Points()
    requires k < |regions| && Continues(regions[k], region)
    ensures var merged := regions[k := regions[k].(height := regions[k].height + region.height)];
            Depicts(Shape(merged, false), points + region.Points(), frame)
  {
    var merged := regions[k := regions[k].(height := regions[k].height + region.height)];
    forall p: Point ensures merged[k].Contains(p) <==> regions[k].Contains(p) || region.Contains(p) {}
    forall p: Point ensures p in points + region.Points() <==> Covers(merged, p) {
      if Covers(regions, p) {
        var i :| 0 <= i < |regions| && regions[i].Contains(p);
        assert merged[i].Contains(p);
      } else if region.Contains(p) {
        assert merged[k].Contains(p);
      }
    }
    forall i, j, p: Point | 0 <= i < j < |merged| && merged[i].Contains(p) ensures !merged[j].Contains(p) {
      if region.Contains(p) {
        assert p in region.Points() && !Covers(regions, p);
      }
    }
  }

  // --- The list in place ----------------------------------------------------

  class RegionList {
    var regions: seq<Rect>
    var coalesced: bool

    function Value(): Shape
      reads this
    {
      Shape(regions, coalesced)
    }

    constructor ()
      ensures Value() == Shape([], false)
    {
      regions, coalesced := [], false;
    }

    method FindLast(region: Rect) returns (k: nat)
      ensures k == MergeIndex(regions, region, |regions|)
    {
      k := |regions|;
      while k > 0
        invariant k <= |regions|
        invariant MergeIndex(regions, region, |regions|) == MergeIndex(regions, region, k)
      {
        if Continues(regions[k - 1], region) {
          return k - 1;
        }
        k := k - 1;
      }
      return |regions|;
    }

    method Fold(region: Rect) returns (envelope: Rect)
      ensures envelope == Envelope(regions, region, |regions|)
    {
      envelope := region;
      for k := 0 to |regions|
        invariant envelope == Envelope(regions, region, k)
      {
        envelope := Union(envelope, regions[k]);
      }
    }

    /** One more region of fresh points: the list then stands for those points too. */
    method Add(region: Rect, ghost points: set<Point>, ghost frame: Rect)
      requires Depicts(Value(), points, frame) && region.Within(frame) && points !! region.Points()
      modifies this
      ensures Value() == Added(old(Value()), region)
      ensures Depicts(Value(), points + region.Points(), frame)
    {
      AddedDepicts(Value(), points, region, frame);
      if coalesced {
        regions := regions[0 := Union(regions[0], region)];
        return;
      }
      var k := FindLast(region);
      if k < |regions| {
        regions := regions[k := regions[k].(height := regions[k].height + region.height)];
        return;
      }
      if |regions| >= MAX_REGIONS {
        var envelope := Fold(region);
        regions := [envelope];
        coalesced := true;
      } else {
        regions := regions + [region];
      }
    }
  }
}
