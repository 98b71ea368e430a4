/** Runs of changed tiles in a frame, and the regions that they become. */
module FrameTiles {
  import opened Wrappers
  import opened FrameRegions

  const TILE: nat := 32
  const I32_MAX: int := 0x7fff_ffff

  /** The corner of the tile that a column or a row lies in. */
  function Corner(x: int): int {
    x / TILE * TILE
  }

  lemma CornerOf(x: int, corner: int)
    requires corner % TILE == 0 && corner <= x < corner + TILE
    ensures Corner(x) == corner
  {}

  /** A frame's size and the corners of its changed tiles. */
  datatype Grid = Grid(width: nat, height: nat, tiles: set<Point>) {
    /** A run of changed tiles begins with this tile. */
    ghost predicate RunStarts(x: int, y: int) {
      && 0 <= x < width && 0 <= y < height && x % TILE == 0 && y % TILE == 0
      && (x, y) in tiles && (x == 0 || (x - TILE, y) !in tiles)
    }

    /** Where the runs begin that are closed when the row loop has come to `limit`. */
    ghost function RunsBefore(tileY: int, limit: int): set<Point> {
      set x, y | 0 <= x < width && 0 <= y < height && RunStarts(x, y) && (y < tileY || (y == tileY && x < limit)) :: (x, y)
    }

    /** Where all runs of changed tiles begin. */
    ghost function Runs(): set<Point> {
      set x, y | 0 <= x < width && 0 <= y < height && RunStarts(x, y) :: (x, y)
    }

    ghost predicate InChangedTile(x: int, y: int) {
      (Corner(x), Corner(y)) in tiles
    }

    /** The points of changed tiles: those of the rows above `tileY`, and left of `limit` those of its own rows. */
    ghost function Marked(bounds: Rect, tileY: int, limit: int): set<Point> {
      set u, v |
        && bounds.x <= u < bounds.x + width && bounds.y <= v < bounds.y + height
        && InChangedTile(u - bounds.x, v - bounds.y)
        && (v - bounds.y < tileY || (v - bounds.y < tileY + TILE && u - bounds.x < limit)) :: (u, v)
    }

    /** All points of changed tiles. */
    ghost function AllMarked(bounds: Rect): set<Point> {
      set u, v |
        && bounds.x <= u < bounds.x + width && bounds.y <= v < bounds.y + height
        && InChangedTile(u - bounds.x, v - bounds.y) :: (u, v)
    }
  }

  /** All tiles in this range of a tile row are changed. */
  ghost predicate RunOfTiles(g: Grid, start: int, end: int, tileY: int) {
    forall x | start <= x < end :: (Corner(x), tileY) in g.tiles
  }

  lemma RunGrows(g: Grid, start: int, tileX: int, end: int, tileY: int)
    requires tileX % TILE == 0 && start <= tileX < end <= tileX + TILE
    requires RunOfTiles(g, start, tileX, tileY) && (tileX, tileY) in g.tiles
    ensures RunOfTiles(g, start, end, tileY)
  {
    forall x | tileX <= x < end ensures (Corner(x), tileY) in g.tiles {
      CornerOf(x, tileX);
    }
  }

  function RunRegion(bounds: Rect, start: nat, end: nat, tileY: nat, height: nat): Rect
    requires start <= end
  {
    Rect(bounds.x + start, bounds.y + tileY, end - start, height)
  }

  /** A finished run adds exactly the points of its tiles. */
  lemma RunIsMarked(g: Grid, bounds: Rect, start: nat, end: nat, tileY: nat, height: nat)
    requires bounds.width == g.width && bounds.height == g.height
    requires start < end <= g.width && tileY % TILE == 0 && tileY < g.height && height == Min(TILE, g.height - tileY)
    requires RunOfTiles(g, start, end, tileY)
    ensures var region := RunRegion(bounds, start, end, tileY, height);
            && g.Marked(bounds, tileY, end) == g.Marked(bounds, tileY, start) + region.Points()
            && g.Marked(bounds, tileY, start) !! region.Points()
  {
    var region := RunRegion(bounds, start, end, tileY, height);
    forall p: Point ensures p in g.Marked(bounds, tileY, end) <==> p in g.Marked(bounds, tileY, start) + region.Points() {
      if p in region.Points() {
        CornerOf(p.1 - bounds.y, tileY);
        assert start <= p.0 - bounds.x < end;
        assert (Corner(p.0 - bounds.x), tileY) in g.tiles;
      }
    }
  }

  /** A tile without a change adds nothing. */
  lemma CleanTileIsUnmarked(g: Grid, bounds: Rect, tileX: nat, end: nat, tileY: nat)
    requires tileX % TILE == 0 && tileY % TILE == 0 && tileX <= end <= tileX + TILE
    requires (tileX, tileY) !in g.tiles
    ensures g.Marked(bounds, tileY, end) == g.Marked(bounds, tileY, tileX)
  {
    forall p: Point | p in g.Marked(bounds, tileY, end) ensures p in g.Marked(bounds, tileY, tileX) {
      var x, y := p.0 - bounds.x, p.1 - bounds.y;
      if y >= tileY && x >= tileX {
        CornerOf(x, tileX);
        CornerOf(y, tileY);
      }
    }
  }

  lemma NextRow(g: Grid, bounds: Rect, tileY: nat)
    ensures g.Marked(bounds, tileY, g.width) == g.Marked(bounds, tileY + TILE, 0)
  {}

  lemma FirstRow(g: Grid, bounds: Rect)
    ensures g.Marked(bounds, 0, 0) == {}
  {}

  lemma LastRow(g: Grid, bounds: Rect, tileY: nat)
    requires tileY >= g.height
    ensures g.Marked(bounds, tileY, 0) == g.AllMarked(bounds)
  {}

  // --- The state of the row loop --------------------------------------------

  /** Corners of regions are 32-bit numbers; a run that begins beyond them is an error. */
  ghost predicate RunsFit(g: Grid, bounds: Rect, tileY: int, limit: int) {
    forall x, y | g.RunStarts(x, y) && (y < tileY || (y == tileY && x < limit)) ::
      bounds.x + x <= I32_MAX && bounds.y + y <= I32_MAX
  }

  ghost predicate AllRunsFit(g: Grid, bounds: Rect) {
    forall x, y | g.RunStarts(x, y) :: bounds.x + x <= I32_MAX && bounds.y + y <= I32_MAX
  }

  /** Where a run that is still open begins, and what the tiles before `tileX` leave to know. */
  ghost predicate RunState(g: Grid, run: Option<nat>, tileX: nat, tileY: nat) {
    match run
    case Some(start) =>
      start < tileX && start % TILE == 0 && g.RunStarts(start, tileY) && RunOfTiles(g, start, tileX, tileY)
    case None => 0 < tileX < g.width ==> (tileX - TILE, tileY) !in g.tiles
  }

  function Limit(run: Option<nat>, tileX: nat): nat {
    if run.Some? then run.value else tileX
  }

  /** The run after looking at one more tile: the open one, or one that begins here. */
  lemma TileJoins(g: Grid, earlier: Option<nat>, run: Option<nat>, tileX: nat, tileY: nat, changed: bool)
    requires tileX % TILE == 0 && tileX < g.width && tileY % TILE == 0 && tileY < g.height
    requires RunState(g, earlier, tileX, tileY) && (changed <==> (tileX, tileY) in g.tiles)
    requires run == if changed && earlier.None? then Some(tileX) else earlier
    ensures run.Some? ==>
              && run.value <= tileX && run.value % TILE == 0 && (changed || run.value < tileX)
              && g.RunStarts(run.value, tileY) && RunOfTiles(g, run.value, tileX, tileY)
  {}

  lemma RunGoesOn(g: Grid, start: nat, tileX: nat, x: int, tileY: nat)
    requires start % TILE == 0 && RunOfTiles(g, start, tileX, tileY) && start < x <= tileX
    ensures !g.RunStarts(x, tileY)
  {
    if x % TILE == 0 {
      CornerOf(x - TILE, x - TILE);
      assert (Corner(x - TILE), tileY) in g.tiles;
    }
  }

  /** When a run is closed, no other began since it did. */
  lemma RunCloses(g: Grid, bounds: Rect, start: nat, tileX: nat, tileY: nat)
    requires start % TILE == 0 && tileX % TILE == 0 && start <= tileX
    requires RunsFit(g, bounds, tileY, start) && RunOfTiles(g, start, tileX, tileY)
    requires bounds.x + start <= I32_MAX && bounds.y + tileY <= I32_MAX
    ensures RunsFit(g, bounds, tileY, tileX + TILE)
  {
    forall x, y | g.RunStarts(x, y) && (y < tileY || (y == tileY && x < tileX + TILE))
      ensures bounds.x + x <= I32_MAX && bounds.y + y <= I32_MAX
    {
      if y == tileY && start < x <= tileX {
        RunGoesOn(g, start, tileX, x, tileY);
      }
    }
  }

  /** The run that is closed is the one more. */
  lemma RunIsCounted(g: Grid, start: nat, tileX: nat, tileY: nat)
    requires start % TILE == 0 && tileX % TILE == 0 && start <= tileX
    requires g.RunStarts(start, tileY) && RunOfTiles(g, start, tileX, tileY)
    ensures |g.RunsBefore(tileY, tileX + TILE)| == |g.RunsBefore(tileY, start)| + 1
  {
    var before, after := g.RunsBefore(tileY, start), g.RunsBefore(tileY, tileX + TILE);
    forall p: Point ensures p in after <==> p in before + {(start, tileY)} {
      RunIsAmong(g, start, tileX, tileY, p);
    }
    assert after == before + {(start, tileY)};
  }

  lemma RunIsAmong(g: Grid, start: nat, tileX: nat, tileY: nat, p: Point)
    requires start % TILE == 0 && tileX % TILE == 0 && start <= tileX
    requires g.RunStarts(start, tileY) && RunOfTiles(g, start, tileX, tileY)
    ensures p in g.RunsBefore(tileY, tileX + TILE) <==> p in g.RunsBefore(tileY, start) || p == (start, tileY)
  {
    if g.RunStarts(p.0, p.1) && p.1 == tileY {
      if start < p.0 <= tileX {
        RunGoesOn(g, start, tileX, p.0, tileY);
      } else {
        NotBetween(p.0, tileX);
      }
    }
  }

  /** Corners are multiples of the side of a tile. */
  lemma NotBetween(x: int, tileX: int)
    requires x % TILE == 0 && tileX % TILE == 0
    ensures x < tileX + TILE <==> x <= tileX
  {}

  lemma NoneIsCounted(g: Grid, tileX: nat, tileY: nat)
    requires tileX % TILE == 0 && (tileX, tileY) !in g.tiles
    ensures g.RunsBefore(tileY, tileX + TILE) == g.RunsBefore(tileY, tileX)
  {
    forall p: Point ensures p in g.RunsBefore(tileY, tileX + TILE) <==> p in g.RunsBefore(tileY, tileX) {}
  }

  lemma RowIsCounted(g: Grid, tileX: nat, tileY: nat)
    requires tileX >= g.width && tileY % TILE == 0
    ensures g.RunsBefore(tileY, tileX) == g.RunsBefore(tileY + TILE, 0)
  {
    forall p: Point ensures p in g.RunsBefore(tileY, tileX) <==> p in g.RunsBefore(tileY + TILE, 0) {}
  }

  lemma AllAreCounted(g: Grid, tileY: nat)
    ensures g.RunsBefore(0, 0) == {}
    ensures tileY >= g.height ==> g.RunsBefore(tileY, 0) == g.Runs()
  {}

  lemma NoRunBegins(g: Grid, bounds: Rect, tileX: nat, tileY: nat)
    requires tileX % TILE == 0 && RunsFit(g, bounds, tileY, tileX) && (tileX, tileY) !in g.tiles
    ensures RunsFit(g, bounds, tileY, tileX + TILE)
  {}

  lemma RowFits(g: Grid, bounds: Rect, tileX: nat, tileY: nat)
    requires RunsFit(g, bounds, tileY, tileX) && tileX >= g.width && tileY % TILE == 0
    ensures RunsFit(g, bounds, tileY, g.width) && RunsFit(g, bounds, tileY + TILE, 0)
  {}

  /**
   Close the open run: its region goes to the list, which then stands for every
   changed tile up to the end of the run; or its corner is beyond 32 bits.
   */
  method CloseRun(ghost g: Grid, bounds: Rect, start: nat, end: nat, tileY: nat, height: nat, list: RegionList)
    returns (fits: bool)
    requires bounds.width == g.width <= MAX_SIDE && bounds.height == g.height <= MAX_SIDE
    requires start < end <= g.width && tileY % TILE == 0 && tileY < g.height && height == Min(TILE, g.height - tileY)
    requires RunOfTiles(g, start, end, tileY)
    requires Depicts(list.Value(), g.Marked(bounds, tileY, start), bounds)
    modifies list
    ensures fits <==> bounds.x + start <= I32_MAX && bounds.y + tileY <= I32_MAX
    ensures fits ==> list.Value() == Added(old(list.Value()), RunRegion(bounds, start, end, tileY, height))
    ensures fits ==> Depicts(list.Value(), g.Marked(bounds, tileY, end), bounds)
  {
    if bounds.x + start > I32_MAX || bounds.y + tileY > I32_MAX {
      return false;
    }
    RunIsMarked(g, bounds, start, end, tileY, height);
    list.Add(RunRegion(bounds, start, end, tileY, height), g.Marked(bounds, tileY, start), bounds);
    return true;
  }
}
