/** The comparison of two frames in src/desktop/observation.rs, tile row by tile row. */
module FrameCompare {
  import opened Wrappers
  import opened Arithmetic
  import opened FrameRegions
  import opened FrameTiles

  type Byte = b: int | 0 <= b < 256

  const MAX_CAPTURE_PIXELS: nat := 40_000_000

  predicate AllocationOk(width: nat, height: nat) {
    1 <= width <= MAX_SIDE && 1 <= height <= MAX_SIDE && width * height <= MAX_CAPTURE_PIXELS
  }

  // --- Pixels -------------------------------------------------------------

  /** Where the four bytes of a pixel start. */
  function Index(width: nat, x: nat, y: nat): nat {
    (y * width + x) * 4
  }

  lemma IndexInBounds(width: nat, height: nat, x: nat, y: nat)
    requires x < width && y < height
    ensures Index(width, x, y) + 4 <= width * height * 4
  {
    assert (y + 1) * width <= height * width;
  }

  datatype Frames = Frames(previous: seq<Byte>, current: seq<Byte>, width: nat, height: nat) {
    predicate Valid() {
      |previous| == |current| == width * height * 4
    }

    /** The alpha byte of a capture is undefined; only blue, green and red are compared. */
    ghost predicate Differs(x: int, y: int)
      requires Valid()
    {
      && 0 <= x < width && 0 <= y < height
      && (IndexInBounds(width, height, x, y);
          var i := Index(width, x, y);
          previous[i] != current[i] || previous[i + 1] != current[i + 1] || previous[i + 2] != current[i + 2])
    }

    ghost function DiffIn(x0: int, x1: int, y0: int, y1: int): set<Point>
      requires Valid()
    {
      set x, y | x0 <= x < x1 && y0 <= y < y1 && Differs(x, y) :: (x, y)
    }

    /** The number of differing pixels in a part of the frame. */
    ghost function Count(x0: int, x1: int, y0: int, y1: int): nat
      requires Valid()
    {
      |DiffIn(x0, x1, y0, y1)|
    }

    /** The tile with this corner has a pixel that differs. */
    ghost predicate TileDiffers(x: int, y: int)
      requires Valid()
    {
      Count(x, Min(x + TILE, width), y, Min(y + TILE, height)) > 0
    }

    ghost function Changed(): Grid
      requires Valid()
    {
      Grid(width, height,
           set x, y | 0 <= x < width && 0 <= y < height && x % TILE == 0 && y % TILE == 0 && TileDiffers(x, y) :: (x, y))
    }
  }

  lemma TileDiffersMeansAPixel(f: Frames, cx: int, cy: int)
    requires f.Valid() && cx % TILE == 0 && cy % TILE == 0
    ensures f.TileDiffers(cx, cy) <==> exists u, v :: f.Differs(u, v) && Corner(u) == cx && Corner(v) == cy
  {
    var tile := f.DiffIn(cx, Min(cx + TILE, f.width), cy, Min(cy + TILE, f.height));
    if tile != {} {
      var p :| p in tile;
      CornerOf(p.0, cx);
      CornerOf(p.1, cy);
      assert f.Differs(p.0, p.1);
    }
    forall u, v | f.Differs(u, v) && Corner(u) == cx && Corner(v) == cy ensures tile != {} {
      assert (u, v) in tile;
    }
  }

  lemma InGrid(f: Frames, cx: int, cy: int)
    requires f.Valid() && 0 <= cx < f.width && 0 <= cy < f.height && cx % TILE == 0 && cy % TILE == 0
    ensures (cx, cy) in f.Changed().tiles <==> f.TileDiffers(cx, cy)
  {}

  /** A pixel lies in a changed tile exactly when some pixel of its tile differs. */
  lemma ChangedMeansAPixel(f: Frames, x: int, y: int)
    requires f.Valid() && 0 <= x < f.width && 0 <= y < f.height
    ensures f.Changed().InChangedTile(x, y) <==>
              exists u, v :: f.Differs(u, v) && Corner(u) == Corner(x) && Corner(v) == Corner(y)
  {
    var cx, cy := Corner(x), Corner(y);
    InGrid(f, cx, cy);
    TileDiffersMeansAPixel(f, cx, cy);
  }

  lemma CountSplits(f: Frames, x0: int, x1: int, x2: int, y0: int, y1: int)
    requires f.Valid() && x0 <= x1 <= x2
    ensures f.Count(x0, x2, y0, y1) == f.Count(x0, x1, y0, y1) + f.Count(x1, x2, y0, y1)
  {
    assert f.DiffIn(x0, x2, y0, y1) == f.DiffIn(x0, x1, y0, y1) + f.DiffIn(x1, x2, y0, y1);
    assert f.DiffIn(x0, x1, y0, y1) !! f.DiffIn(x1, x2, y0, y1);
  }

  lemma CountStacks(f: Frames, x0: int, x1: int, y0: int, y1: int, y2: int)
    requires f.Valid() && y0 <= y1 <= y2
    ensures f.Count(x0, x1, y0, y2) == f.Count(x0, x1, y0, y1) + f.Count(x0, x1, y1, y2)
  {
    assert f.DiffIn(x0, x1, y0, y2) == f.DiffIn(x0, x1, y0, y1) + f.DiffIn(x0, x1, y1, y2);
    assert f.DiffIn(x0, x1, y0, y1) !! f.DiffIn(x0, x1, y1, y2);
  }

  lemma CountNothing(f: Frames, x0: int, x1: int, y0: int, y1: int)
    requires f.Valid() && (x0 == x1 || y0 == y1)
    ensures f.Count(x0, x1, y0, y1) == 0
  {
    assert f.DiffIn(x0, x1, y0, y1) == {};
  }

  lemma CountOne(f: Frames, x: int, y: int)
    requires f.Valid()
    ensures f.Count(x, x + 1, y, y + 1) == if f.Differs(x, y) then 1 else 0
  {
    assert f.DiffIn(x, x + 1, y, y + 1) == if f.Differs(x, y) then {(x, y)} else {};
  }

  method PixelDiffers(f: Frames, x: nat, y: nat) returns (differs: bool)
    requires f.Valid() && x < f.width && y < f.height
    ensures f.Count(x, x + 1, y, y + 1) == if differs then 1 else 0
  {
    CountOne(f, x, y);
    IndexInBounds(f.width, f.height, x, y);
    var index := Index(f.width, x, y);
    differs := f.previous[index] != f.current[index] || f.previous[index + 1] != f.current[index + 1]
               || f.previous[index + 2] != f.current[index + 2];
  }

  /** One row of pixels of a tile. */
  method ScanSpan(f: Frames, start: nat, end: nat, y: nat, before: nat) returns (total: nat, changed: bool)
    requires f.Valid() && start <= end <= f.width && y < f.height
    ensures total == before + f.Count(start, end, y, y + 1)
    ensures changed <==> total > before
  {
    total, changed := before, false;
    CountNothing(f, start, start, y, y + 1);
    for x := start to end
      invariant total == before + f.Count(start, x, y, y + 1)
      invariant changed <==> total > before
    {
      CountSplits(f, start, x, x + 1, y, y + 1);
      var differs := PixelDiffers(f, x, y);
      if differs {
        total := total + 1;
        changed := true;
      }
    }
  }

  /** One tile: count its differing pixels. */
  method ScanTile(f: Frames, tileX: nat, tileY: nat, width: nat, height: nat, before: nat)
    returns (total: nat, changed: bool)
    requires f.Valid() && tileX + width <= f.width && tileY + height <= f.height
    ensures total == before + f.Count(tileX, tileX + width, tileY, tileY + height)
    ensures changed <==> f.Count(tileX, tileX + width, tileY, tileY + height) > 0
  {
    total, changed := before, false;
    CountNothing(f, tileX, tileX + width, tileY, tileY);
    for y := tileY to tileY + height
      invariant total == before + f.Count(tileX, tileX + width, tileY, y)
      invariant changed <==> total > before
    {
      CountStacks(f, tileX, tileX + width, tileY, y, y + 1);
      var any;
      total, any := ScanSpan(f, tileX, tileX + width, y, total);
      changed := changed || any;
    }
  }

  /** One tile, with what it means for the grid of changed tiles. */
  method ScanGridTile(f: Frames, ghost g: Grid, tileX: nat, tileY: nat, before: nat) returns (total: nat, changed: bool)
    requires f.Valid() && g == f.Changed() && tileX % TILE == 0 && tileY % TILE == 0
    requires tileX < f.width && tileY < f.height
    ensures total == before + f.Count(tileX, Min(tileX + TILE, f.width), tileY, Min(tileY + TILE, f.height))
    ensures changed <==> (tileX, tileY) in g.tiles
  {
    InGrid(f, tileX, tileY);
    var width, height := Min(TILE, f.width - tileX), Min(TILE, f.height - tileY);
    total, changed := ScanTile(f, tileX, tileY, width, height, before);
  }

  ghost predicate RunsSoFar(g: Grid, bounds: Rect, run: Option<nat>, tileX: nat, tileY: nat) {
    && tileX % TILE == 0 && (tileX >= g.width ==> run.None?)
    && RunState(g, run, tileX, tileY)
    && RunsFit(g, bounds, tileY, Limit(run, tileX))
  }

  /** What the row loop knows when it comes to a tile. */
  ghost predicate RowState(g: Grid, bounds: Rect, shape: Shape, run: Option<nat>, tileX: nat, tileY: nat) {
    && RunsSoFar(g, bounds, run, tileX, tileY)
    && Depicts(shape, g.Marked(bounds, tileY, Min(Limit(run, tileX), g.width)), bounds)
    && Economical(shape, |g.RunsBefore(tileY, Limit(run, tileX))|)
  }

  /** A changed tile that is not the last leaves its run open. */
  lemma RunStaysOpen(g: Grid, bounds: Rect, run: Option<nat>, next: Option<nat>, tileX: nat, tileY: nat)
    requires tileX + TILE < g.width && tileY % TILE == 0 && tileY < g.height && (tileX, tileY) in g.tiles
    requires RunsSoFar(g, bounds, run, tileX, tileY)
    requires next == if run.None? then Some(tileX) else run
    ensures RunsSoFar(g, bounds, next, tileX + TILE, tileY)
    ensures Limit(next, tileX + TILE) == Limit(run, tileX)
  {
    TileJoins(g, run, next, tileX, tileY, true);
    RunGrows(g, next.value, tileX, tileX + TILE, tileY);
  }

  /** A clean tile outside a run changes nothing. */
  lemma NoRunOpens(g: Grid, bounds: Rect, shape: Shape, tileX: nat, tileY: nat)
    requires tileX < g.width && tileY % TILE == 0 && (tileX, tileY) !in g.tiles
    requires RowState(g, bounds, shape, None, tileX, tileY)
    ensures RowState(g, bounds, shape, None, tileX + TILE, tileY)
  {
    CleanTileIsUnmarked(g, bounds, tileX, Min(tileX + TILE, g.width), tileY);
    NoRunBegins(g, bounds, tileX, tileY);
    NoneIsCounted(g, tileX, tileY);
  }

  /** The run to close: where it began, and that all its tiles are changed. */
  lemma RunToClose(g: Grid, bounds: Rect, shape: Shape, run: Option<nat>, next: Option<nat>, tileX: nat, tileY: nat,
                   changed: bool, end: nat)
    requires tileX < g.width && tileY % TILE == 0 && tileY < g.height && (changed <==> (tileX, tileY) in g.tiles)
    requires RowState(g, bounds, shape, run, tileX, tileY)
    requires next == (if changed && run.None? then Some(tileX) else run) && next.Some?
    requires end == if changed then Min(tileX + TILE, g.width) else tileX
    ensures next.value <= tileX && next.value < end && next.value % TILE == 0 && g.RunStarts(next.value, tileY)
    ensures RunOfTiles(g, next.value, tileX, tileY) && RunOfTiles(g, next.value, end, tileY)
    ensures RunsFit(g, bounds, tileY, next.value) && Depicts(shape, g.Marked(bounds, tileY, next.value), bounds)
    ensures Economical(shape, |g.RunsBefore(tileY, next.value)|)
  {
    TileJoins(g, run, next, tileX, tileY, changed);
    if changed {
      RunGrows(g, next.value, tileX, end, tileY);
    }
  }

  lemma OneMoreRegion(g: Grid, bounds: Rect, before: Shape, after: Shape, region: Rect, start: nat, tileX: nat, tileY: nat)
    requires start % TILE == 0 && tileX % TILE == 0 && start <= tileX
    requires g.RunStarts(start, tileY) && RunOfTiles(g, start, tileX, tileY)
    requires before.coalesced ==> |before.regions| > 0
    requires Economical(before, |g.RunsBefore(tileY, start)|) && after == Added(before, region)
    ensures Economical(after, |g.RunsBefore(tileY, tileX + TILE)|)
  {
    RunIsCounted(g, start, tileX, tileY);
    AddedIsEconomical(before, region, |g.RunsBefore(tileY, start)|);
  }

  /** The row after a run was closed. */
  lemma RunIsClosed(g: Grid, bounds: Rect, shape: Shape, start: nat, end: nat, tileX: nat, tileY: nat, changed: bool)
    requires tileX % TILE == 0 && tileX < g.width && tileY % TILE == 0 && start % TILE == 0 && start <= tileX
    requires (changed <==> (tileX, tileY) in g.tiles) && (changed ==> tileX + TILE >= g.width)
    requires end == if changed then Min(tileX + TILE, g.width) else tileX
    requires RunsFit(g, bounds, tileY, start) && RunOfTiles(g, start, tileX, tileY)
    requires bounds.x + start <= I32_MAX && bounds.y + tileY <= I32_MAX
    requires Depicts(shape, g.Marked(bounds, tileY, end), bounds)
    requires Economical(shape, |g.RunsBefore(tileY, tileX + TILE)|)
    ensures RowState(g, bounds, shape, None, tileX + TILE, tileY)
  {
    RunCloses(g, bounds, start, tileX, tileY);
    if !changed {
      CleanTileIsUnmarked(g, bounds, tileX, Min(tileX + TILE, g.width), tileY);
    }
  }

  lemma RunDoesNotFit(g: Grid, bounds: Rect, start: nat, tileY: nat)
    requires g.RunStarts(start, tileY) && (bounds.x + start > I32_MAX || bounds.y + tileY > I32_MAX)
    ensures !AllRunsFit(g, bounds)
  {}

  /** What one tile does to the open run. */
  method StepRun(ghost g: Grid, bounds: Rect, run: Option<nat>, tileX: nat, tileY: nat, changed: bool, list: RegionList)
    returns (next: Option<nat>, fits: bool)
    requires bounds.width == g.width <= MAX_SIDE && bounds.height == g.height <= MAX_SIDE
    requires tileX < g.width && tileY % TILE == 0 && tileY < g.height
    requires RowState(g, bounds, list.Value(), run, tileX, tileY) && (changed <==> (tileX, tileY) in g.tiles)
    modifies list
    ensures if fits then RowState(g, bounds, list.Value(), next, tileX + TILE, tileY) else !AllRunsFit(g, bounds)
  {
    var width, height := Min(TILE, bounds.width - tileX), Min(TILE, bounds.height - tileY);
    next := if changed && run.None? then Some(tileX) else run;
    if (!changed || tileX + width == bounds.width) && next.Some? {
      var start, end := next.value, if changed then tileX + width else tileX;
      RunToClose(g, bounds, list.Value(), run, next, tileX, tileY, changed, end);
      ghost var before := list.Value();
      fits := CloseRun(g, bounds, start, end, tileY, height, list);
      if fits {
        OneMoreRegion(g, bounds, before, list.Value(), RunRegion(bounds, start, end, tileY, height), start, tileX, tileY);
        RunIsClosed(g, bounds, list.Value(), start, end, tileX, tileY, changed);
      } else {
        RunDoesNotFit(g, bounds, start, tileY);
      }
      return None, fits;
    }
    if changed {
      RunStaysOpen(g, bounds, run, next, tileX, tileY);
    } else {
      NoRunOpens(g, bounds, list.Value(), tileX, tileY);
    }
    return next, true;
  }

  /** The list before a tile row: it stands for the changed tiles of the rows above. */
  ghost predicate RowStart(g: Grid, bounds: Rect, shape: Shape, tileY: nat) {
    && tileY % TILE == 0 && Depicts(shape, g.Marked(bounds, tileY, 0), bounds) && RunsFit(g, bounds, tileY, 0)
    && Economical(shape, |g.RunsBefore(tileY, 0)|)
  }

  lemma RowBegins(g: Grid, bounds: Rect, shape: Shape, tileY: nat)
    requires RowStart(g, bounds, shape, tileY)
    ensures g.width > 0 ==> RowState(g, bounds, shape, None, 0, tileY)
  {}

  lemma RowEnds(g: Grid, bounds: Rect, shape: Shape, run: Option<nat>, tileX: nat, tileY: nat)
    requires RowState(g, bounds, shape, run, tileX, tileY) && tileX >= g.width && tileY % TILE == 0
    ensures RowStart(g, bounds, shape, tileY + TILE)
  {
    RowFits(g, bounds, tileX, tileY);
    NextRow(g, bounds, tileY);
    RowIsCounted(g, tileX, tileY);
  }

  /** One tile of a tile row: count it, and open, continue or close the run. */
  method ScanColumn(f: Frames, ghost g: Grid, bounds: Rect, run: Option<nat>, tileX: nat, tileY: nat, list: RegionList,
                    before: nat)
    returns (total: nat, next: Option<nat>, fits: bool)
    requires f.Valid() && g == f.Changed() && tileX < f.width && tileY % TILE == 0 && tileY < f.height
    requires bounds.width == f.width <= MAX_SIDE && bounds.height == f.height <= MAX_SIDE
    requires RowState(g, bounds, list.Value(), run, tileX, tileY)
    modifies list
    ensures total == before + f.Count(tileX, Min(tileX + TILE, f.width), tileY, Min(tileY + TILE, f.height))
    ensures if fits then RowState(g, bounds, list.Value(), next, tileX + TILE, tileY) else !AllRunsFit(g, bounds)
  {
    var changed;
    total, changed := ScanGridTile(f, g, tileX, tileY, before);
    next, fits := StepRun(g, bounds, run, tileX, tileY, changed, list);
  }

  /** One row of tiles: join neighbouring changed tiles and add each run to the list. */
  method ScanRow(f: Frames, ghost g: Grid, bounds: Rect, tileY: nat, list: RegionList, before: nat)
    returns (total: nat, fits: bool)
    requires f.Valid() && g == f.Changed() && tileY % TILE == 0 && tileY < f.height && 0 < f.width
    requires bounds.width == f.width <= MAX_SIDE && bounds.height == f.height <= MAX_SIDE
    requires RowStart(g, bounds, list.Value(), tileY)
    modifies list
    ensures fits ==> total == before + f.Count(0, f.width, tileY, Min(tileY + TILE, f.height))
    ensures if fits then RowStart(g, bounds, list.Value(), tileY + TILE) else !AllRunsFit(g, bounds)
  {
    ghost var bottom := Min(tileY + TILE, f.height);
    var tileX := 0;
    var run: Option<nat> := None;
    total := before;
    CountNothing(f, 0, 0, tileY, bottom);
    RowBegins(g, bounds, list.Value(), tileY);
    while tileX < f.width
      invariant total == before + f.Count(0, Min(tileX, f.width), tileY, bottom)
      invariant RowState(g, bounds, list.Value(), run, tileX, tileY)
    {
      CountSplits(f, 0, tileX, Min(tileX + TILE, f.width), tileY, bottom);
      total, run, fits := ScanColumn(f, g, bounds, run, tileX, tileY, list, total);
      if !fits {
        return;
      }
      tileX := tileX + TILE;
    }
    RowEnds(g, bounds, list.Value(), run, tileX, tileY);
    return total, true;
  }

  // --- The comparison -----------------------------------------------------

  datatype CompareError = BadDimensions | BadBuffer | Canceled | OutOfRange

  datatype Comparison = Comparison(pixels: nat, shape: Shape)

  /** What a comparison reports: every differing pixel counted once, and exactly the changed tiles. */
  ghost predicate Reports(f: Frames, bounds: Rect, c: Comparison)
    requires f.Valid()
  {
    && c.pixels == f.Count(0, f.width, 0, f.height) && Depicts(c.shape, f.Changed().AllMarked(bounds), bounds)
    && Economical(c.shape, |f.Changed().Runs()|)
  }

  /** The operation was found canceled when a tile row above `limit` was begun. */
  ghost predicate CanceledAbove(canceled: nat -> bool, limit: nat) {
    exists y: nat | y < limit :: y % TILE == 0 && canceled(y)
  }

  lemma CanceledStep(canceled: nat -> bool, tileY: nat, limit: nat)
    requires tileY % TILE == 0 && tileY < limit
    ensures CanceledAbove(canceled, Min(tileY + TILE, limit)) <==> CanceledAbove(canceled, tileY) || canceled(tileY)
    ensures canceled(tileY) ==> CanceledAbove(canceled, limit)
  {}

  /** What the loop over tile rows knows when it comes to a row. */
  ghost predicate RowsState(f: Frames, g: Grid, bounds: Rect, shape: Shape, tileY: nat, total: nat)
    requires f.Valid()
  {
    total == f.Count(0, f.width, 0, Min(tileY, f.height)) && RowStart(g, bounds, shape, tileY)
  }

  lemma RowsBegin(f: Frames, g: Grid, bounds: Rect)
    requires f.Valid()
    ensures RowsState(f, g, bounds, Shape([], false), 0, 0)
  {
    CountNothing(f, 0, f.width, 0, 0);
    FirstRow(g, bounds);
    assert g.Marked(bounds, 0, 0) == {};
    AllAreCounted(g, 0);
  }

  lemma RowsEnd(f: Frames, g: Grid, bounds: Rect, shape: Shape, tileY: nat, total: nat)
    requires f.Valid() && g == f.Changed() && RowsState(f, g, bounds, shape, tileY, total) && tileY >= f.height
    ensures Reports(f, bounds, Comparison(total, shape)) && AllRunsFit(g, bounds)
  {
    LastRow(g, bounds, tileY);
    AllAreCounted(g, tileY);
  }

  method ScanNextRow(f: Frames, ghost g: Grid, bounds: Rect, tileY: nat, list: RegionList, before: nat)
    returns (total: nat, fits: bool)
    requires f.Valid() && g == f.Changed() && tileY < f.height && 0 < f.width
    requires bounds.width == f.width <= MAX_SIDE && bounds.height == f.height <= MAX_SIDE
    requires RowsState(f, g, bounds, list.Value(), tileY, before)
    modifies list
    ensures if fits then RowsState(f, g, bounds, list.Value(), tileY + TILE, total) else !AllRunsFit(g, bounds)
  {
    CountStacks(f, 0, f.width, 0, tileY, Min(tileY + TILE, f.height));
    total, fits := ScanRow(f, g, bounds, tileY, list, before);
  }

  /** The loop over tile rows. */
  method ScanRows(f: Frames, ghost g: Grid, bounds: Rect, list: RegionList, canceled: nat -> bool)
    returns (total: nat, error: Option<CompareError>)
    requires f.Valid() && g == f.Changed() && AllocationOk(f.width, f.height)
    requires bounds.width == f.width && bounds.height == f.height && list.Value() == Shape([], false)
    modifies list
    ensures error.None? ==>
              && Reports(f, bounds, Comparison(total, list.Value()))
              && AllRunsFit(g, bounds) && !CanceledAbove(canceled, f.height)
    ensures error.Some? ==>
              || (error.value == Canceled && CanceledAbove(canceled, f.height))
              || (error.value == OutOfRange && !AllRunsFit(g, bounds))
  {
    var tileY := 0;
    total := 0;
    RowsBegin(f, g, bounds);
    while tileY < bounds.height
      invariant RowsState(f, g, bounds, list.Value(), tileY, total)
      invariant !CanceledAbove(canceled, Min(tileY, f.height))
    {
      CanceledStep(canceled, tileY, f.height);
      if canceled(tileY) {
        return total, Some(Canceled);
      }
      var fits;
      total, fits := ScanNextRow(f, g, bounds, tileY, list, total);
      if !fits {
        return total, Some(OutOfRange);
      }
      tileY := tileY + TILE;
    }
    RowsEnd(f, g, bounds, list.Value(), tileY, total);
    return total, None;
  }

  /** The sizes that a capture may have. */
  lemma AllocationExactly(width: nat, height: nat)
    ensures AllocationOk(width, height) <==> 1 <= width <= 65535 && 1 <= height <= 65535 && width * height <= 40_000_000
  {}

  /**
   Compare two frames. It succeeds exactly when the sizes are right, no tile row
   found the operation canceled, and the corner of every run fits 32 bits.
   */
  method Compare(previous: seq<Byte>, current: seq<Byte>, bounds: Rect, canceled: nat -> bool)
    returns (r: Result<Comparison, CompareError>)
    ensures r == Err(BadDimensions) <==> !AllocationOk(bounds.width, bounds.height)
    ensures var f := Frames(previous, current, bounds.width, bounds.height);
            && (r == Err(BadBuffer) <==> AllocationOk(bounds.width, bounds.height) && !f.Valid())
            && (r == Err(Canceled) ==> CanceledAbove(canceled, bounds.height))
            && (r == Err(OutOfRange) ==> f.Valid() && !AllRunsFit(f.Changed(), bounds))
            && (r.Ok? ==>
                  && f.Valid() && Reports(f, bounds, r.value)
                  && !CanceledAbove(canceled, bounds.height) && AllRunsFit(f.Changed(), bounds))
  {
    if !AllocationOk(bounds.width, bounds.height) {
      return Err(BadDimensions);
    }
    var f := Frames(previous, current, bounds.width, bounds.height);
    if !f.Valid() {
      return Err(BadBuffer);
    }
    var list := new RegionList();
    var total, error := ScanRows(f, f.Changed(), bounds, list, canceled);
    if error.Some? {
      return Err(error.value);
    }
    return Ok(Comparison(total, list.Value()));
  }

  // --- What a report tells its reader ---------------------------------------

  lemma MarkedMeansAPixel(f: Frames, bounds: Rect, x: nat, y: nat)
    requires f.Valid() && bounds.width == f.width && bounds.height == f.height && x < f.width && y < f.height
    ensures (bounds.x + x, bounds.y + y) in f.Changed().AllMarked(bounds) <==>
              exists u, v :: f.Differs(u, v) && Corner(u) == Corner(x) && Corner(v) == Corner(y)
  {
    ChangedMeansAPixel(f, x, y);
  }

  /** No differing pixel lies outside the reported regions, coalesced or not. */
  lemma EveryDifferenceIsReported(f: Frames, bounds: Rect, c: Comparison, x: nat, y: nat)
    requires f.Valid() && bounds.width == f.width && bounds.height == f.height && Reports(f, bounds, c) && f.Differs(x, y)
    ensures Covers(c.shape.regions, (bounds.x + x, bounds.y + y))
  {
    MarkedMeansAPixel(f, bounds, x, y);
    assert f.Differs(x, y) && Corner(x) == Corner(x) && Corner(y) == Corner(y);
    assert (bounds.x + x, bounds.y + y) in f.Changed().AllMarked(bounds);
    if c.shape.coalesced {
      assert c.shape.regions[0].Contains((bounds.x + x, bounds.y + y));
    }
  }

  /** As long as the regions are not coalesced, they cover a pixel exactly when its tile has a differing pixel. */
  lemma RegionsAreExact(f: Frames, bounds: Rect, c: Comparison, x: nat, y: nat)
    requires f.Valid() && bounds.width == f.width && bounds.height == f.height && Reports(f, bounds, c)
    requires !c.shape.coalesced && x < f.width && y < f.height
    ensures Covers(c.shape.regions, (bounds.x + x, bounds.y + y)) <==>
              exists u, v :: f.Differs(u, v) && Corner(u) == Corner(x) && Corner(v) == Corner(y)
  {
    MarkedMeansAPixel(f, bounds, x, y);
  }

  /** At most 256 runs of changed tiles are reported exactly. */
  lemma FewRunsAreExact(f: Frames, bounds: Rect, c: Comparison, x: nat, y: nat)
    requires f.Valid() && bounds.width == f.width && bounds.height == f.height && Reports(f, bounds, c)
    requires |f.Changed().Runs()| <= 256 && x < f.width && y < f.height
    ensures !c.shape.coalesced && |c.shape.regions| <= |f.Changed().Runs()|
    ensures Covers(c.shape.regions, (bounds.x + x, bounds.y + y)) <==> exists u, v :: f.Differs(u, v) && SameTile(u, v, x, y)
  {
    RegionsAreExact(f, bounds, c, x, y);
    forall u, v | f.Differs(u, v) ensures SameTile(u, v, x, y) <==> Corner(u) == Corner(x) && Corner(v) == Corner(y) {
      CornersMeet(u, x);
      CornersMeet(v, y);
    }
  }

  /** In the same tile of 32 by 32 pixels. */
  predicate SameTile(u: int, v: int, x: int, y: int) { u / 32 == x / 32 && v / 32 == y / 32 }

  lemma CornersMeet(u: int, x: int)
    ensures Corner(u) == Corner(x) <==> u / 32 == x / 32
  {}

  /**
   In terms of the bytes of the two captures, row by row and four to a pixel: a
   byte that differs, other than alpha, lies in a reported region.
   */
  lemma ChangedByteIsReported(f: Frames, bounds: Rect, c: Comparison, i: nat)
    requires f.Valid() && bounds.width == f.width && bounds.height == f.height && Reports(f, bounds, c)
    requires i < |f.previous| && i % 4 != 3 && f.previous[i] != f.current[i]
    ensures f.width > 0 && Covers(c.shape.regions, (bounds.x + i / 4 % f.width, bounds.y + i / 4 / f.width))
    ensures c.pixels > 0
  {
    var x, y := PixelOfByte(f, i);
    EveryDifferenceIsReported(f, bounds, c, x, y);
    assert (x, y) in f.DiffIn(0, f.width, 0, f.height);
  }

  lemma PixelOfByte(f: Frames, i: nat) returns (x: nat, y: nat)
    requires f.Valid() && i < |f.previous| && i % 4 != 3 && f.previous[i] != f.current[i]
    ensures f.width > 0 && x == i / 4 % f.width && y == i / 4 / f.width && f.Differs(x, y)
  {
    ByteOfPixel(f.width, f.height, i);
    x, y := i / 4 % f.width, i / 4 / f.width;
    assert i == Index(f.width, x, y) + i % 4;
  }

  lemma ByteOfPixel(width: nat, height: nat, i: nat)
    requires i < width * height * 4
    ensures width > 0
    ensures var p := i / 4; p / width < height && Index(width, p % width, p / width) + i % 4 == i
  {
    var p := i / 4;
    assert p < width * height;
    QuotientIsLess(p, width, height);
    assert p == p / width * width + p % width;
  }

  lemma QuotientIsLess(p: nat, width: nat, height: nat)
    requires p < width * height
    ensures width > 0 && p / width < height
  {
    DivBounds(p, width);
    if p / width >= height {
      MulMono(height, p / width, width);
    }
  }

  /** A capture does not differ from itself. */
  lemma SameCaptureIsClean(f: Frames, bounds: Rect, c: Comparison)
    requires f.Valid() && bounds.width == f.width && bounds.height == f.height && Reports(f, bounds, c)
    requires f.previous == f.current
    ensures c.pixels == 0 && c.shape == Shape([], false)
  {
    assert f.DiffIn(0, f.width, 0, f.height) == {};
    RegionsMeanChange(f, bounds, c);
  }

  /** And a pixel counts as different exactly when one of its three colour bytes is. */
  lemma DiffersInBytes(f: Frames, x: nat, y: nat)
    requires f.Valid() && x < f.width && y < f.height
    ensures var i := (y * f.width + x) * 4;
            && 0 <= i && i + 4 <= |f.previous| == |f.current|
            && (f.Differs(x, y) <==> f.previous[i..i + 3] != f.current[i..i + 3])
  {
    IndexInBounds(f.width, f.height, x, y);
    var i := (y * f.width + x) * 4;
    if f.previous[i..i + 3] == f.current[i..i + 3] {
      assert f.previous[i..i + 3][0] == f.current[i..i + 3][0];
      assert f.previous[i..i + 3][1] == f.current[i..i + 3][1];
      assert f.previous[i..i + 3][2] == f.current[i..i + 3][2];
    }
  }

  lemma RegionMeansAPixel(f: Frames, bounds: Rect, c: Comparison)
    requires f.Valid() && bounds.width == f.width && bounds.height == f.height && Reports(f, bounds, c)
    requires |c.shape.regions| > 0
    ensures f.DiffIn(0, f.width, 0, f.height) != {}
  {
    var p := SomePoint(f, bounds, c);
    var x, y := p.0 - bounds.x, p.1 - bounds.y;
    MarkedMeansAPixel(f, bounds, x, y);
    var u, v :| f.Differs(u, v) && Corner(u) == Corner(x) && Corner(v) == Corner(y);
    assert (u, v) in f.DiffIn(0, f.width, 0, f.height);
  }

  /** There is a region exactly when a pixel was counted. */
  lemma RegionsMeanChange(f: Frames, bounds: Rect, c: Comparison)
    requires f.Valid() && bounds.width == f.width && bounds.height == f.height && Reports(f, bounds, c)
    ensures c.pixels > 0 <==> |c.shape.regions| > 0
  {
    if |c.shape.regions| > 0 {
      RegionMeansAPixel(f, bounds, c);
    } else if p :| p in f.DiffIn(0, f.width, 0, f.height) {
      EveryDifferenceIsReported(f, bounds, c, p.0, p.1);
    }
  }

  lemma SomePoint(f: Frames, bounds: Rect, c: Comparison) returns (p: Point)
    requires f.Valid() && bounds.width == f.width && bounds.height == f.height && Reports(f, bounds, c)
    requires |c.shape.regions| > 0
    ensures p in f.Changed().AllMarked(bounds)
  {
    if c.shape.coalesced {
      p := LeftOf(c.shape.regions[0], f.Changed().AllMarked(bounds));
    } else {
      p := (c.shape.regions[0].x, c.shape.regions[0].y);
      assert c.shape.regions[0].Within(bounds) && c.shape.regions[0].Contains(p);
      assert Covers(c.shape.regions, p);
    }
  }
}
