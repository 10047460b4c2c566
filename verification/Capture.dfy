/** The guest's side of the frame budget: what it reserves for cells before it hands out room for images. */
module Capture {
  import opened Wrappers
  import opened Frame

  datatype Rect = Rect(x: U16, y: U16, width: U16, height: U16)

  /** pixels is the length of the raster's rgba data. */
  datatype Raster = Raster(width: U32, height: U32, pixels: nat)

  /** One call of submit_raster by a widget. */
  datatype Submission = Submission(source: Raster, area: Rect, depth: int)

  const CELL_RESERVE := 32 + 128

  function CellBudget(v: Viewport): nat {
    v.columns * v.rows * CELL_RESERVE + 256
  }

  function Limit(byteLimit: U32): nat {
    if byteLimit < MAX_FRAME_BYTES then byteLimit else MAX_FRAME_BYTES
  }

  predicate Inside(area: Rect, v: Viewport) {
    area.x + area.width <= v.columns && area.y + area.height <= v.rows
  }

  /** One raster pixel for each pixel of the area's cells, within the size a tile may have. */
  predicate Matches(source: Raster, area: Rect, pixels: PixelSize) {
    && source.width == area.width * pixels.width && 0 < source.width <= MAX_TILE_DIMENSION
    && source.height == area.height * pixels.height && 0 < source.height <= MAX_TILE_DIMENSION
    && source.pixels == 4 * (source.width * source.height)
  }

  predicate Affords(pixels: Option<PixelSize>, tiles: nat, room: nat, source: Raster, area: Rect) {
    pixels.Some? && tiles < MAX_TILES && Matches(source, area, pixels.value) && source.pixels + 64 <= room
  }

  function TileOf(source: Raster, area: Rect): Tile {
    Tile(area.x, area.y, area.width, area.height, source.width, source.height, source.pixels)
  }

  /** The tiles of a list of submissions, each taken if it is affordable when its turn comes; and the room left. */
  function TilesOf(pixels: Option<PixelSize>, room: nat, submissions: seq<Submission>): (seq<Tile>, nat) {
    if submissions == [] then ([], room)
    else
      var (tiles, left) := TilesOf(pixels, room, submissions[..|submissions| - 1]);
      var s := submissions[|submissions| - 1];
      if s.depth == 0 && Affords(pixels, |tiles|, left, s.source, s.area)
      then (tiles + [TileOf(s.source, s.area)], left - (s.source.pixels + 64)) else (tiles, left)
  }

  function Cost(submissions: seq<Submission>): nat {
    if submissions == [] then 0
    else Cost(submissions[..|submissions| - 1]) + submissions[|submissions| - 1].source.pixels + 64
  }

  /** Up to thirty-two rasters that match their areas and together fit the room all become tiles, in order. */
  lemma {:induction false} AllTaken(pixels: PixelSize, room: nat, submissions: seq<Submission>)
    requires |submissions| <= MAX_TILES && Cost(submissions) <= room
    requires forall s :: s in submissions ==> s.depth == 0 && Matches(s.source, s.area, pixels)
    ensures |TilesOf(Some(pixels), room, submissions).0| == |submissions|
    ensures TilesOf(Some(pixels), room, submissions).1 == room - Cost(submissions)
    ensures forall i :: 0 <= i < |submissions| ==>
      TilesOf(Some(pixels), room, submissions).0[i] == TileOf(submissions[i].source, submissions[i].area)
  {
    hide Matches;
    if submissions != [] {
      var last := |submissions| - 1;
      assert submissions[last] in submissions;
      AllTaken(pixels, room, submissions[..last]);
    }
  }

  class Capture {
    const pixels: Option<PixelSize>
    var remaining: nat
    var tiles: seq<Tile>

    constructor (pixels: Option<PixelSize>, remaining: nat)
      ensures this.pixels == pixels && this.remaining == remaining && tiles == []
    {
      this.pixels, this.remaining, tiles := pixels, remaining, [];
    }

    /** The raster an area needs, when it may still have one. */
    function Geometry(area: Rect): (r: Option<Raster>)
      reads this
      ensures r.Some? ==> r.value.pixels + 64 <= remaining && |tiles| < MAX_TILES && pixels.Some?
    {
      if pixels.None? || |tiles| >= MAX_TILES then None
      else
        var width, height := area.width * pixels.value.width, area.height * pixels.value.height;
        if width >= 0x1_0000_0000 || height >= 0x1_0000_0000 then None
        else if width == 0 || height == 0 || width > MAX_TILE_DIMENSION || height > MAX_TILE_DIMENSION then None
        else
          var bytes := width * height * 4;
          if bytes + 64 <= remaining then Some(Raster(width, height, bytes)) else None
    }

    /** A taken raster pays for itself, and is a tile the host would take. */
    method SubmitRaster(source: Raster, area: Rect, depth: int) returns (taken: bool)
      modifies this
      ensures taken <==> depth == 0 && old(Geometry(area)) == Some(source)
      ensures taken <==> depth == 0 && Affords(pixels, |old(tiles)|, old(remaining), source, area)
      ensures taken ==> tiles == old(tiles) + [TileOf(source, area)] && remaining == old(remaining) - (source.pixels + 64)
      ensures !taken ==> tiles == old(tiles) && remaining == old(remaining)
      ensures taken ==>
        && |tiles| == |old(tiles)| + 1 <= MAX_TILES && tiles[..|old(tiles)|] == old(tiles)
        && pixels.Some? && Covers(tiles[|old(tiles)|], area, pixels.value)
      ensures remaining + TileBytes(tiles) == old(remaining + TileBytes(tiles))
    {
      var geometry := Geometry(area);
      if pixels.Some? {
        GeometryMatches(source, area, pixels.value);
      }
      if geometry.None? {
        return false;
      }
      if depth != 0 || source.width != geometry.value.width || source.height != geometry.value.height
         || source.pixels != geometry.value.pixels {
        return false;
      }
      var tile := Tile(area.x, area.y, area.width, area.height, source.width, source.height, source.pixels);
      ghost var before := tiles;
      tiles := tiles + [tile];
      assert tiles[..|before|] == before;
      remaining := remaining - (source.pixels + 64);
      return true;
    }
  }

  lemma GeometryMatches(source: Raster, area: Rect, pixels: PixelSize)
    ensures var width, height := area.width * pixels.width, area.height * pixels.height;
      Matches(source, area, pixels) <==>
        && 0 < width <= MAX_TILE_DIMENSION && 0 < height <= MAX_TILE_DIMENSION
        && source.width == width && source.height == height && source.pixels == width * height * 4
  {
  }

  /** The tile of an area, of the size in pixels of its cells. */
  predicate Covers(tile: Tile, area: Rect, pixels: PixelSize) {
    && tile.x == area.x && tile.y == area.y && tile.columns == area.width && tile.rows == area.height
    && 0 < tile.pixelWidth <= MAX_TILE_DIMENSION && 0 < tile.pixelHeight <= MAX_TILE_DIMENSION
    && tile.pixelWidth == tile.columns * pixels.width && tile.pixelHeight == tile.rows * pixels.height
    && tile.rgba == tile.pixelWidth * tile.pixelHeight * 4
  }

  lemma CoversIsValid(tile: Tile, area: Rect, v: Viewport, content: Content)
    requires v.pixels.Some? && Covers(tile, area, v.pixels.value) && Inside(area, v)
    requires content.columns == v.columns && content.rows == v.rows
    ensures ValidTile(tile, content, v.pixels.value)
  {
    assert tile.columns == 0 ==> tile.pixelWidth == 0;
    assert tile.rows == 0 ==> tile.pixelHeight == 0;
  }

  /** No cell's text is longer than what is reserved for it. */
  ghost predicate SmallTexts(cells: seq<Cell>) {
    forall i :: 0 <= i < |cells| ==> cells[i].text.bytes <= MAX_CLUSTER_BYTES
  }

  /** A viewport and cells that the host takes, and areas inside the viewport. */
  ghost predicate Fitting(v: Viewport, submissions: seq<Submission>, cells: seq<Cell>) {
    ValidViewport(v) && CellsValid(cells, v.columns) && forall s :: s in submissions ==> Inside(s.area, v)
  }

  /**
   * A rendered frame: the widgets' submissions, made in any order and number, and the grid of cells they leave. When
   * the reserved budget fits the limit and no text is longer than its reserve, the frame is within the limit; when
   * moreover viewport and cells are ones the host takes and the areas are inside, the frame passes the host's check.
   */
  method Render(v: Viewport, byteLimit: U32, submissions: seq<Submission>, cells: seq<Cell>) returns (content: Content)
    requires |cells| == v.columns * v.rows
    ensures content.columns == v.columns && content.rows == v.rows && content.cells == cells
    ensures |content.tiles| <= MAX_TILES
    ensures CellBudget(v) <= Limit(byteLimit) && SmallTexts(cells) ==> ByteBound(content) <= Limit(byteLimit)
    ensures CellBudget(v) <= Limit(byteLimit) && SmallTexts(cells) ==>
      ByteBound(content) <= byteLimit && ByteBound(content) <= MAX_FRAME_BYTES
    ensures CellBudget(v) <= byteLimit && CellBudget(v) <= MAX_FRAME_BYTES && SmallTexts(cells) ==>
      ByteBound(content) <= byteLimit
    ensures CellBudget(v) <= Limit(byteLimit) && Fitting(v, submissions, cells) ==> Acceptable(content, v)
    ensures CellBudget(v) > Limit(byteLimit) ==> content.tiles == []
    ensures content.tiles ==
      TilesOf(v.pixels, if CellBudget(v) <= Limit(byteLimit) then Limit(byteLimit) - CellBudget(v) else 0, submissions).0
  {
    hide ValidCell, ValidTile, CellsValid, TilesValid, TextBytes, TileBytes, Covers, SmallTexts, Inside, Affords, Matches;
    var budget, limit := CellBudget(v), Limit(byteLimit);
    var capture := new Capture(v.pixels, if budget <= limit then limit - budget else 0);
    ghost var room, inside := capture.remaining, forall s :: s in submissions ==> Inside(s.area, v);
    content := Content(v.columns, v.rows, cells, [], None);
    NoTiles(content, v.pixels);
    for i := 0 to |submissions|
      invariant fresh(capture)
      invariant capture.pixels == v.pixels && |capture.tiles| <= MAX_TILES
      invariant capture.remaining + TileBytes(capture.tiles) == room
      invariant inside ==> TilesValid(capture.tiles, content, v.pixels)
      invariant room == 0 ==> capture.tiles == []
      invariant (capture.tiles, capture.remaining) == TilesOf(v.pixels, room, submissions[..i])
    {
      var s := submissions[i];
      assert submissions[..i + 1][..i] == submissions[..i];
      ghost var before := capture.tiles;
      var taken := capture.SubmitRaster(s.source, s.area, s.depth);
      if taken && inside {
        TileAdded(before, capture.tiles, s.area, v, content);
      }
    }
    content := Content(v.columns, v.rows, cells, capture.tiles, None);
    assert submissions[..|submissions|] == submissions;
    if inside {
      SameArea(capture.tiles, Content(v.columns, v.rows, cells, [], None), content, v.pixels);
    }
    if CellsValid(cells, v.columns) {
      ValidTexts(cells, v.columns);
    }
    if SmallTexts(cells) {
      TextReserve(cells);
    }
  }

  lemma SameArea(tiles: seq<Tile>, a: Content, b: Content, pixels: Option<PixelSize>)
    requires TilesValid(tiles, a, pixels) && a.columns == b.columns && a.rows == b.rows
    ensures TilesValid(tiles, b, pixels)
  {
    forall i | 0 <= i < |tiles| ensures ValidTile(tiles[i], b, pixels.value) {
      assert ValidTile(tiles[i], a, pixels.value);
    }
  }

  lemma TileAdded(before: seq<Tile>, after: seq<Tile>, area: Rect, v: Viewport, content: Content)
    requires TilesValid(before, content, v.pixels) && Inside(area, v)
    requires content.columns == v.columns && content.rows == v.rows
    requires |after| == |before| + 1 && after[..|before|] == before
    requires v.pixels.Some? && Covers(after[|before|], area, v.pixels.value)
    ensures TilesValid(after, content, v.pixels)
  {
    CoversIsValid(after[|before|], area, v, content);
    TilesValidNext(after, |before|, content, v.pixels);
    assert after[..|before| + 1] == after;
  }

  lemma {:induction false} TextAtMost(cells: seq<Cell>)
    requires forall i :: 0 <= i < |cells| ==> cells[i].text.bytes <= MAX_CLUSTER_BYTES
    ensures TextBytes(cells) <= |cells| * MAX_CLUSTER_BYTES
  {
    if cells != [] {
      TextAtMost(cells[..|cells| - 1]);
    }
  }

  lemma ValidTexts(cells: seq<Cell>, columns: nat)
    requires CellsValid(cells, columns)
    ensures SmallTexts(cells)
  {
    forall i | 0 <= i < |cells| ensures cells[i].text.bytes <= MAX_CLUSTER_BYTES {
      assert ValidCell(cells, columns, i);
    }
  }

  /** What is reserved for cells of small text is enough for them. */
  lemma TextReserve(cells: seq<Cell>)
    requires SmallTexts(cells)
    ensures |cells| * 32 + 256 + TextBytes(cells) <= |cells| * CELL_RESERVE + 256
  {
    TextAtMost(cells);
  }

  function Fullest(n: nat): (cells: seq<Cell>) {
    seq(n, _ => Cell(CellText(MAX_CLUSTER_BYTES, false, 1, 1), 1))
  }

  lemma {:induction false} FullestText(n: nat)
    ensures TextBytes(Fullest(n)) == n * MAX_CLUSTER_BYTES
  {
    if n > 0 {
      assert Fullest(n)[..n - 1] == Fullest(n - 1);
      FullestText(n - 1);
    }
  }

  /** The reserve is exact: every grid of small texts, or of valid cells, is within a limit if and only if the budget is. */
  lemma ReserveIsExact(v: Viewport, limit: nat)
    ensures CellBudget(v) <= limit <==>
      forall cells :: |cells| == v.columns * v.rows && SmallTexts(cells)
        ==> |cells| * 32 + 256 + TextBytes(cells) <= limit
    ensures ValidViewport(v) ==> (CellBudget(v) <= limit <==>
      forall cells :: |cells| == v.columns * v.rows && CellsValid(cells, v.columns)
        ==> |cells| * 32 + 256 + TextBytes(cells) <= limit)
  {
    var n := v.columns * v.rows;
    forall cells | |cells| == n && SmallTexts(cells)
      ensures |cells| * 32 + 256 + TextBytes(cells) <= CellBudget(v)
    {
      TextReserve(cells);
    }
    var full := Fullest(n);
    FullestText(n);
    assert SmallTexts(full) && |full| * 32 + 256 + TextBytes(full) == CellBudget(v);
    if ValidViewport(v) {
      forall cells | |cells| == n && CellsValid(cells, v.columns) ensures SmallTexts(cells) {
        ValidTexts(cells, v.columns);
      }
      WholeRows(v.columns, v.rows);
      assert CellsValid(full, v.columns);
    }
  }
}
