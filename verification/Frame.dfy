/** The host's check of a plug-in frame, before the presenter may emit it. */
module Frame {
  import opened Wrappers

  const MAX_COLUMNS := 500
  const MAX_ROWS := 200
  const MAX_VIEW_CELLS := 60_000
  const MAX_CLUSTER_BYTES := 128
  const MAX_FRAME_BYTES := 2 * 1024 * 1024
  const MAX_TILES := 32
  const MAX_TILE_DIMENSION := 4096

  type U8 = n: int | 0 <= n < 0x100
  type U16 = n: int | 0 <= n < 0x1_0000
  type U32 = n: int | 0 <= n < 0x1_0000_0000

  /** A cell's text, by what the Unicode tables say of it. */
  datatype CellText = CellText(bytes: nat, control: bool, graphemes: nat, columns: nat)

  datatype Cell = Cell(text: CellText, width: U8)
  datatype PixelSize = PixelSize(width: U16, height: U16)
  datatype Viewport = Viewport(columns: U16, rows: U16, pixels: Option<PixelSize>)
  datatype Position = Position(column: U16, row: U16)

  /** rgba is the length of the pixel data. */
  datatype Tile = Tile(x: U16, y: U16, columns: U16, rows: U16, pixelWidth: U32, pixelHeight: U32, rgba: nat)
  datatype Content = Content(columns: U16, rows: U16, cells: seq<Cell>, tiles: seq<Tile>, cursor: Option<Position>)

  datatype FrameError =
    | BadViewport | CellCount | BadText | CellWidth | Cursor | ImagesUnavailable | ImageBounds | ImageBytes | Budget

  // ----- what is accepted -----

  predicate ValidViewport(v: Viewport) {
    && 0 < v.columns <= MAX_COLUMNS && 0 < v.rows <= MAX_ROWS && v.columns * v.rows <= MAX_VIEW_CELLS
    && (v.pixels.Some? ==> 0 < v.pixels.value.width <= 256 && 0 < v.pixels.value.height <= 256)
  }

  /** A continuation follows its wide cell in the same row, a wide cell its continuation, and widths are the text's. */
  predicate ValidCell(cells: seq<Cell>, columns: nat, i: nat)
    requires columns > 0 && i < |cells| && |cells| % columns == 0
  {
    var cell := cells[i];
    if cell.width == 0 then cell.text.bytes == 0 && i % columns != 0 && i > 0 && cells[i - 1].width == 2
    else
      && 0 < cell.text.bytes <= MAX_CLUSTER_BYTES && !cell.text.control && cell.text.graphemes == 1
      && (cell.width == 1 || cell.width == 2) && cell.text.columns == cell.width
      && (cell.width == 2 ==> (i + 1) % columns != 0 && i + 1 < |cells| && cells[i + 1].width == 0)
  }

  predicate ValidTile(tile: Tile, content: Content, pixels: PixelSize) {
    && tile.columns > 0 && tile.rows > 0
    && tile.pixelWidth <= MAX_TILE_DIMENSION && tile.pixelHeight <= MAX_TILE_DIMENSION
    && tile.x + tile.columns <= content.columns && tile.y + tile.rows <= content.rows
    && tile.pixelWidth == tile.columns * pixels.width && tile.pixelHeight == tile.rows * pixels.height
    && tile.rgba == tile.pixelWidth * tile.pixelHeight * 4
  }

  function TextBytes(cells: seq<Cell>): nat {
    if cells == [] then 0 else TextBytes(cells[..|cells| - 1]) + cells[|cells| - 1].text.bytes
  }

  function TileBytes(tiles: seq<Tile>): nat {
    if tiles == [] then 0 else TileBytes(tiles[..|tiles| - 1]) + tiles[|tiles| - 1].rgba + 64
  }

  /** 32 bytes a cell and 64 a tile besides text and pixels, and 256 for the frame. */
  function ByteBound(content: Content): nat {
    |content.cells| * 32 + 256 + TextBytes(content.cells) + TileBytes(content.tiles)
  }

  ghost predicate CellsValid(cells: seq<Cell>, columns: nat) {
    columns > 0 && |cells| % columns == 0 && forall i :: 0 <= i < |cells| ==> ValidCell(cells, columns, i)
  }

  /** Every tile is valid, which needs a pixel size as soon as there is one. */
  ghost predicate TilesValid(tiles: seq<Tile>, content: Content, pixels: Option<PixelSize>) {
    && (tiles != [] ==> pixels.Some?)
    && (forall i :: 0 <= i < |tiles| ==> ValidTile(tiles[i], content, pixels.value))
  }

  /** What the host promises of every frame it accepts. */
  ghost predicate Acceptable(content: Content, v: Viewport) {
    && ValidViewport(v) && content.columns == v.columns && content.rows == v.rows
    && |content.cells| == content.columns * content.rows
    && CellsValid(content.cells, content.columns)
    && (content.cursor.Some? ==>
          content.cursor.value.column < content.columns && content.cursor.value.row < content.rows)
    && |content.tiles| <= MAX_TILES
    && TilesValid(content.tiles, content, v.pixels)
    && ByteBound(content) <= MAX_FRAME_BYTES
  }

  lemma Multiple(d: int, n: int)
    requires n > 0
    ensures d > 0 ==> d * n >= n
    ensures d < 0 ==> d * n <= -n
  {}

  lemma Remainder(n: nat, columns: nat, q: nat, k: nat)
    requires k < columns && n == q * columns + k
    ensures n % columns == k
  {
    var d, r := n / columns, n % columns;
    assert n == d * columns + r;
    assert (d - q) * columns == k - r;
    Multiple(d - q, columns);
  }

  lemma WholeRows(columns: nat, rows: nat)
    requires columns > 0
    ensures columns * rows % columns == 0
  {
    Remainder(columns * rows, columns, rows, 0);
  }

  lemma {:induction false} TextGrows(cells: seq<Cell>, i: nat)
    requires i <= |cells|
    ensures TextBytes(cells[..i]) <= TextBytes(cells)
  {
    if i < |cells| {
      TextGrows(cells[..|cells| - 1], i);
      assert cells[..|cells| - 1][..i] == cells[..i];
    } else {
      assert cells[..i] == cells;
    }
  }

  lemma {:induction false} TilesGrow(tiles: seq<Tile>, i: nat)
    requires i <= |tiles|
    ensures TileBytes(tiles[..i]) <= TileBytes(tiles)
  {
    if i < |tiles| {
      TilesGrow(tiles[..|tiles| - 1], i);
      assert tiles[..|tiles| - 1][..i] == tiles[..i];
    } else {
      assert tiles[..i] == tiles;
    }
  }

  // ----- ValidatedFrame::new -----

  /** Only the last column has no cell to its right. */
  lemma LastColumn(index: nat, columns: nat, count: nat)
    requires columns > 0 && index < count && count % columns == 0
    ensures index % columns + 1 == columns <==> (index + 1) % columns == 0
    ensures index % columns + 1 != columns ==> index + 1 < count
  {
    var q, k := index / columns, index % columns;
    assert index == q * columns + k && 0 <= k < columns;
    if k + 1 == columns {
      WholeRows(columns, q + 1);
      assert index + 1 == columns * (q + 1);
    } else {
      Remainder(index + 1, columns, q, k + 1);
    }
  }

  /** The checks of one cell against the text tables and its neighbours. */
  method CheckCell(cells: seq<Cell>, columns: nat, index: nat) returns (r: Option<FrameError>)
    requires columns > 0 && index < |cells| && |cells| % columns == 0
    ensures r.None? <==> ValidCell(cells, columns, index)
    ensures r.Some? ==> r.value in {CellWidth, BadText}
  {
    var cell := cells[index];
    if cell.width == 0 {
      if cell.text.bytes != 0 || index % columns == 0 || cells[index - 1].width != 2 {
        return Some(CellWidth);
      }
      return None;
    }
    if cell.text.bytes == 0 || cell.text.bytes > MAX_CLUSTER_BYTES || cell.text.control || cell.text.graphemes != 1 {
      return Some(BadText);
    }
    if !(cell.width == 1 || cell.width == 2) || cell.text.columns != cell.width {
      return Some(CellWidth);
    }
    LastColumn(index, columns, |cells|);
    if cell.width == 2 && (index % columns + 1 == columns || cells[index + 1].width != 0) {
      return Some(CellWidth);
    }
    return None;
  }

  method CheckCells(content: Content) returns (r: Result<nat, FrameError>)
    requires content.columns > 0 && |content.cells| % content.columns == 0
    ensures r.Ok? <==>
      && CellsValid(content.cells, content.columns)
      && (content.cells != [] ==> |content.cells| * 32 + 256 + TextBytes(content.cells) <= MAX_FRAME_BYTES)
    ensures r.Ok? ==> r.value == |content.cells| * 32 + 256 + TextBytes(content.cells)
    ensures r.Err? ==> r.error in {Budget, CellWidth, BadText}
  {
    hide ValidCell;
    var cells, columns := content.cells, content.columns;
    var bytes := |cells| * 32 + 256;
    for index := 0 to |cells|
      invariant bytes == |cells| * 32 + 256 + TextBytes(cells[..index])
      invariant forall i :: 0 <= i < index ==> ValidCell(cells, columns, i)
      invariant index > 0 ==> bytes <= MAX_FRAME_BYTES
    {
      assert cells[..index + 1][..index] == cells[..index];
      TextGrows(cells, index + 1);
      bytes := bytes + cells[index].text.bytes;
      if bytes > MAX_FRAME_BYTES {
        return Err(Budget);
      }
      var flaw := CheckCell(cells, columns, index);
      if flaw.Some? {
        return Err(flaw.value);
      }
    }
    assert cells[..|cells|] == cells;
    r := Ok(bytes);
  }

  /** The checks of one tile against the area of the frame and the pixel size of a cell. */
  method CheckTile(tile: Tile, content: Content, pixels: PixelSize) returns (r: Option<FrameError>)
    ensures r.None? <==> ValidTile(tile, content, pixels)
    ensures r.Some? ==> r.value in {ImageBounds, ImageBytes}
  {
    if tile.columns == 0 || tile.rows == 0 || tile.pixelWidth > MAX_TILE_DIMENSION ||
       tile.pixelHeight > MAX_TILE_DIMENSION || tile.x + tile.columns > content.columns ||
       tile.y + tile.rows > content.rows || tile.pixelWidth != tile.columns * pixels.width ||
       tile.pixelHeight != tile.rows * pixels.height {
      return Some(ImageBounds);
    }
    if tile.pixelWidth * tile.pixelHeight * 4 != tile.rgba {
      return Some(ImageBytes);
    }
    return None;
  }

  lemma NoTiles(content: Content, pixels: Option<PixelSize>)
    ensures TileBytes([]) == 0 && TilesValid([], content, pixels)
  {}

  lemma TilesValidNext(tiles: seq<Tile>, i: nat, content: Content, pixels: Option<PixelSize>)
    requires i < |tiles| && TilesValid(tiles[..i], content, pixels)
    ensures TilesValid(tiles[..i + 1], content, pixels) <==>
            pixels.Some? && ValidTile(tiles[i], content, pixels.value)
    ensures TilesValid(tiles, content, pixels) ==> pixels.Some? && ValidTile(tiles[i], content, pixels.value)
  {
    hide ValidTile;
    var some := tiles[..i + 1];
    assert some[i] == tiles[i];
    forall k | 0 <= k < i ensures some[k] == tiles[..i][k] {}
  }

  lemma TileBytesNext(tiles: seq<Tile>, i: nat)
    requires i < |tiles|
    ensures TileBytes(tiles[..i + 1]) == TileBytes(tiles[..i]) + tiles[i].rgba + 64
    ensures TileBytes(tiles[..i + 1]) <= TileBytes(tiles)
  {
    assert tiles[..i + 1][..i] == tiles[..i];
    TilesGrow(tiles, i + 1);
  }

  method ValidateFrame(content: Content, v: Viewport) returns (r: Result<nat, FrameError>)
    ensures r.Ok? <==> Acceptable(content, v)
    ensures r.Ok? ==> r.value == ByteBound(content)
    ensures r == Err(BadViewport) <==>
      !ValidViewport(v) || content.columns != v.columns || content.rows != v.rows
  {
    hide ValidCell, ValidTile, CellsValid, TilesValid, TextBytes, TileBytes;
    if !ValidViewport(v) || content.columns != v.columns || content.rows != v.rows {
      return Err(BadViewport);
    }
    var columns, count := content.columns, content.columns * content.rows;
    if |content.cells| != count {
      return Err(CellCount);
    }
    WholeRows(columns, content.rows);
    var cells := CheckCells(content);
    if cells.Err? {
      return Err(cells.error);
    }
    if content.cursor.Some? && (content.cursor.value.column >= columns || content.cursor.value.row >= content.rows) {
      return Err(Cursor);
    }
    if |content.tiles| > MAX_TILES {
      return Err(Budget);
    }
    var bytes := cells.value;
    NoTiles(content, v.pixels);
    assert content.tiles[..0] == [];
    for i := 0 to |content.tiles|
      invariant bytes == cells.value + TileBytes(content.tiles[..i]) && bytes <= MAX_FRAME_BYTES
      invariant TilesValid(content.tiles[..i], content, v.pixels)
    {
      TilesValidNext(content.tiles, i, content, v.pixels);
      TileBytesNext(content.tiles, i);
      if v.pixels.None? {
        return Err(ImagesUnavailable);
      }
      var flaw := CheckTile(content.tiles[i], content, v.pixels.value);
      if flaw.Some? {
        return Err(flaw.value);
      }
      bytes := bytes + content.tiles[i].rgba + 64;
      if bytes > MAX_FRAME_BYTES {
        return Err(Budget);
      }
    }
    assert content.tiles[..|content.tiles|] == content.tiles;
    r := Ok(bytes);
  }

  // ----- rows of an accepted frame -----

  datatype Piece = Narrow | Wide

  function Widths(pieces: seq<Piece>): seq<int> {
    if pieces == [] then [] else (if pieces[0].Narrow? then [1] else [2, 0]) + Widths(pieces[1..])
  }

  function ColumnsOf(pieces: seq<Piece>): nat {
    if pieces == [] then 0 else (if pieces[0].Narrow? then 1 else 2) + ColumnsOf(pieces[1..])
  }

  lemma {:induction false} WidthsFill(pieces: seq<Piece>)
    ensures |Widths(pieces)| == ColumnsOf(pieces)
  {
    if pieces != [] {
      WidthsFill(pieces[1..]);
    }
  }

  /** A row splits into narrow cells and wide pairs in at most one way. */
  lemma {:induction false} SplitUnique(a: seq<Piece>, b: seq<Piece>)
    requires Widths(a) == Widths(b)
    ensures a == b
  {
    if a != [] && b != [] {
      assert Widths(a)[0] == Widths(b)[0];
      assert a[0] == b[0];
      var n := if a[0].Narrow? then 1 else 2;
      assert Widths(a)[n..] == Widths(a[1..]) && Widths(b)[n..] == Widths(b[1..]);
      SplitUnique(a[1..], b[1..]);
    }
  }

  /** The local rules on widths that the validator checks, for one row. */
  predicate RowRules(widths: seq<int>) {
    forall i :: 0 <= i < |widths| ==>
      && 0 <= widths[i] <= 2
      && (widths[i] == 0 ==> i > 0 && widths[i - 1] == 2)
      && (widths[i] == 2 ==> i + 1 < |widths| && widths[i + 1] == 0)
  }

  lemma {:induction false} SplitRow(widths: seq<int>, from: nat) returns (pieces: seq<Piece>)
    requires RowRules(widths) && from <= |widths| && (from < |widths| ==> widths[from] != 0)
    ensures Widths(pieces) == widths[from..]
    decreases |widths| - from
  {
    if from == |widths| {
      pieces := [];
    } else if widths[from] == 1 {
      assert from + 1 < |widths| ==> widths[from + 1] != 0;
      var rest := SplitRow(widths, from + 1);
      pieces := [Narrow] + rest;
      assert pieces[1..] == rest;
    } else {
      assert from + 2 < |widths| ==> widths[from + 2] != 0;
      var rest := SplitRow(widths, from + 2);
      pieces := [Wide] + rest;
      assert pieces[1..] == rest && widths[from..] == [2, 0] + widths[from + 2..];
    }
  }

  function RowWidths(content: Content, row: nat): seq<int>
    requires row < content.rows && |content.cells| == content.columns * content.rows
  {
    RowFits(content.columns, content.rows, row);
    seq(content.columns, i requires 0 <= i < content.columns => content.cells[row * content.columns + i].width)
  }

  lemma RowFits(columns: nat, rows: nat, row: nat)
    requires row < rows
    ensures (row + 1) * columns <= columns * rows
    ensures row * columns + columns == (row + 1) * columns
  {
    if row + 1 < rows {
      RowFits(columns, rows - 1, row);
      assert columns * rows == columns * (rows - 1) + columns;
    }
  }

  /** The widths of neighbours in one row. */
  lemma CellRule(cells: seq<Cell>, columns: nat, base: nat, row: nat, i: nat)
    requires CellsValid(cells, columns) && base == row * columns && base + columns <= |cells| && i < columns
    ensures 0 <= cells[base + i].width <= 2
    ensures cells[base + i].width == 0 ==> i > 0 && cells[base + i - 1].width == 2
    ensures cells[base + i].width == 2 ==> i + 1 < columns && cells[base + i + 1].width == 0
  {
    assert ValidCell(cells, columns, base + i);
    Remainder(base + i, columns, row, i);
    if i + 1 == columns {
      assert base + i + 1 == (row + 1) * columns + 0;
      Remainder(base + i + 1, columns, row + 1, 0);
    }
  }

  /** Each row of an accepted frame splits uniquely into pieces that fill its columns. */
  lemma RowsSplit(content: Content, v: Viewport, row: nat)
    requires Acceptable(content, v) && row < content.rows
    ensures exists pieces ::
      && Widths(pieces) == RowWidths(content, row) && ColumnsOf(pieces) == content.columns
      && forall other :: Widths(other) == RowWidths(content, row) ==> other == pieces
  {
    hide CellsValid, TilesValid, ValidCell, ByteBound, ValidViewport;
    var columns := content.columns;
    var widths := RowWidths(content, row);
    RowFits(columns, content.rows, row);
    var base := row * columns;
    forall i | 0 <= i < columns
      ensures 0 <= widths[i] <= 2
      ensures widths[i] == 0 ==> i > 0 && widths[i - 1] == 2
      ensures widths[i] == 2 ==> i + 1 < columns && widths[i + 1] == 0
    {
      CellRule(content.cells, columns, base, row, i);
    }
    if columns > 0 {
      CellRule(content.cells, columns, base, row, 0);
    }
    var pieces := SplitRow(widths, 0);
    assert widths[0..] == widths;
    WidthsFill(pieces);
    forall other | Widths(other) == widths ensures other == pieces {
      SplitUnique(other, pieces);
    }
  }
}
