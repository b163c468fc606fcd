/**
 * The icon atlas of `scripts/graphics.py`: find an image for each requested name, choose a
 * grid about as wide as it is tall, and place the tiles row by row. File search, image
 * loading and saving are abstracted: `library` maps a name to the size of the first image
 * file found for it.
 */
module Graphics {
  import opened Wrappers
  import opened Records

  datatype Size = Size(width: nat, height: nat)

  // ---------------------------------------------------------------- grid sizing

  /** The integer square root: the largest `r` with `r * r <= n`. */
  function FloorSqrt(n: nat): (r: nat)
    ensures r * r <= n < (r + 1) * (r + 1)
  {
    if n == 0 then 0
    else
      var s := FloorSqrt(n - 1);
      if (s + 1) * (s + 1) <= n then s + 1 else s
  }

  /** `math.ceil(math.sqrt(n))` */
  function CeilSqrt(n: nat): (c: nat)
    ensures n <= c * c
    ensures c > 0 ==> (c - 1) * (c - 1) < n
  {
    var r := FloorSqrt(n);
    if r * r == n then r else r + 1
  }

  /**
   * `approxFactor(n)`: the grid (columns, rows). The ceiling of the square root columns, and
   * the floor of it rows when those rows suffice, otherwise as many rows as columns.
   */
  function ApproxFactor(n: nat): (wh: (nat, nat))
    ensures wh.0 * wh.1 >= n
    ensures wh.1 <= wh.0 <= wh.1 + 1
  {
    var c := CeilSqrt(n);
    var f := FloorSqrt(n);
    if c * f >= n then (c, f) else (c, c)
  }

  /** There are as many columns as the smallest square grid holding `n` tiles needs. */
  lemma ApproxFactorColumns(n: nat)
    ensures n <= ApproxFactor(n).0 * ApproxFactor(n).0
    ensures ApproxFactor(n).0 > 0 ==> (ApproxFactor(n).0 - 1) * (ApproxFactor(n).0 - 1) < n
  {
  }

  /** A perfect square gets a square grid. */
  lemma ApproxFactorSquare(r: nat)
    ensures ApproxFactor(r * r) == (r, r)
  {
    var f := FloorSqrt(r * r);
    MulMono(f + 1, r);
    MulMono(r + 1, f);
  }

  lemma MulMono(a: int, b: int)
    ensures 0 <= a <= b ==> a * a <= b * b
  {
    if 0 <= a <= b {
      assert a * a <= a * b <= b * b;
    }
  }

  /** No tiles, no grid. */
  lemma ApproxFactorZero()
    ensures ApproxFactor(0) == (0, 0)
  {
  }

  // ---------------------------------------------------------------- finding the files

  /**
   * `files`: for each requested name, in order, the image found for it; names with no image
   * are dropped, and a repeated name keeps its first position.
   */
  function Found(names: seq<string>, library: map<string, Size>): (files: seq<(string, Size)>)
    ensures Unique(files)
    ensures forall k :: k in Keys(files) <==> k in names && k in library
    decreases |names|
  {
    if |names| == 0 then []
    else
      var init := names[..|names| - 1];
      var f := names[|names| - 1];
      assert forall k :: k in names <==> k in init || k == f;
      var files := Found(init, library);
      if f in library then Put(files, f, library[f]) else files
  }

  /** Every file found is the one the library holds for its name. */
  lemma {:induction false} FoundSizes(names: seq<string>, library: map<string, Size>, k: string)
    requires k in names && k in library
    ensures Get(Found(names, library), k) == Some(library[k])
    decreases |names|
  {
    var init := names[..|names| - 1];
    var f := names[|names| - 1];
    assert forall x :: x in names <==> x in init || x == f;
    var files := Found(init, library);
    if f in library {
      PutGet(files, f, library[f], k);
    }
    if k != f {
      FoundSizes(init, library, k);
    }
  }

  // ---------------------------------------------------------------- placing the tiles

  /** Where tile number `k` goes in a grid `columns` wide: row by row, left to right. */
  function TileOffset(k: nat, columns: nat, tile: Size): Value
    requires columns > 0
  {
    Obj([("x", Int((k % columns) * tile.width)), ("y", Int((k / columns) * tile.height))])
  }

  /** `graphicsData`: each found name mapped to the offset of its tile. */
  function Atlas(files: seq<(string, Size)>, columns: nat, tile: Size): (r: Record)
    requires columns > 0
    ensures |r| == |files|
    decreases |files|
  {
    if |files| == 0 then []
    else
      var n := |files| - 1;
      Atlas(files[..n], columns, tile) + [(files[n].0, TileOffset(n, columns, tile))]
  }

  /** The names in the atlas are the names of the files, in the same order. */
  lemma AtlasKeys(files: seq<(string, Size)>, columns: nat, tile: Size)
    requires columns > 0
    ensures Keys(Atlas(files, columns, tile)) == Keys(files)
  {
    var a := Atlas(files, columns, tile);
    forall k | 0 <= k < |files|
      ensures Keys(a)[k] == Keys(files)[k]
    {
      AtlasOffsets(files, columns, tile, k);
    }
  }

  /** Each name is mapped to the offset of its own position. */
  lemma {:induction false} AtlasOffsets(files: seq<(string, Size)>, columns: nat, tile: Size, k: nat)
    requires columns > 0 && k < |files|
    ensures |Atlas(files, columns, tile)| == |files|
    ensures Atlas(files, columns, tile)[k] == (files[k].0, TileOffset(k, columns, tile))
    decreases |files|
  {
    var n := |files| - 1;
    if k < n {
      AtlasOffsets(files[..n], columns, tile, k);
    }
  }

  /** Every file found carries the size the library gives its name. */
  lemma {:induction false} FoundEntries(names: seq<string>, library: map<string, Size>)
    ensures forall e :: e in Found(names, library) ==> e.0 in library && e.1 == library[e.0]
    decreases |names|
  {
    if |names| > 0 {
      var init := names[..|names| - 1];
      FoundEntries(init, library);
      var f := names[|names| - 1];
      if f in library {
        PutMembers(Found(init, library), f, library[f]);
      }
    }
  }

  /** The first loop of `loadGraphics`: look up each requested name. */
  method FindFiles(library: map<string, Size>, names: seq<string>) returns (files: seq<(string, Size)>)
    ensures files == Found(names, library)
  {
    files := [];
    for i := 0 to |names|
      invariant files == Found(names[..i], library)
    {
      assert names[..i + 1][..i] == names[..i];
      if names[i] in library {
        files := Put(files, names[i], library[names[i]]);
      }
    }
    assert names[..|names|] == names;
  }

  /** The size of the atlas image for a grid of (columns, rows) tiles. */
  function Canvas(grid: (nat, nat), tile: Size): Size {
    Size(grid.0 * tile.width, grid.1 * tile.height)
  }

  /** The tiles all have the tile size. */
  predicate AllTiles(files: seq<(string, Size)>, tile: Size) {
    forall k :: 0 <= k < |files| ==> files[k].1 == tile
  }

  /**
   * The second part of `loadGraphics`: size the grid and the atlas image from the number of
   * files, then place the tiles.
   */
  method PlaceTiles(files: seq<(string, Size)>, tile: Size) returns (r: Result<Record>, canvas: Size)
    requires Unique(files)
    ensures canvas == Canvas(ApproxFactor(|files|), tile)
    ensures r.Ok? <==> AllTiles(files, tile)
    ensures r.Err? ==> r.fault == TileSizeMismatch
    ensures r.Ok? ==> Keys(r.value) == Keys(files)
    ensures r.Ok? && |files| > 0 ==> r.value == Atlas(files, ApproxFactor(|files|).0, tile)
  {
    var grid := ApproxFactor(|files|);
    canvas := Canvas(grid, tile);
    ColumnsPositive(|files|);
    r := Paste(files, grid.0, tile);
  }

  /**
   * The placing loop of `loadGraphics`: tile number `k` goes to row `k / columns`, column
   * `k % columns`; the first image whose size is not the tile size stops it.
   */
  method Paste(files: seq<(string, Size)>, columns: nat, tile: Size) returns (r: Result<Record>)
    requires Unique(files) && (|files| > 0 ==> columns > 0)
    ensures r.Ok? <==> AllTiles(files, tile)
    ensures r.Err? ==> r.fault == TileSizeMismatch
    ensures r.Ok? ==> Keys(r.value) == Keys(files)
    ensures r.Ok? && |files| > 0 ==> r.value == Atlas(files, columns, tile)
  {
    if |files| == 0 {
      return Ok([]);
    }
    var data: Record := [];
    var tileNum := 0;
    while tileNum < |files|
      invariant 0 <= tileNum <= |files|
      invariant AllTiles(files[..tileNum], tile)
      invariant data == Atlas(files[..tileNum], columns, tile)
      invariant Unique(data)
    {
      if files[tileNum].1 != tile {
        return Err(TileSizeMismatch);
      }
      PlaceStep(files, tileNum, columns, tile);
      AllTilesStep(files, tileNum, tile);
      data := Put(data, files[tileNum].0, TileOffset(tileNum, columns, tile));
      tileNum := tileNum + 1;
    }
    assert files[..tileNum] == files;
    AtlasKeys(files, columns, tile);
    return Ok(data);
  }

  /** `loadGraphics(directory, tileSize, fileStrs, saveFile)` */
  method LoadGraphics(library: map<string, Size>, tile: Size, names: seq<string>)
    returns (r: Result<Record>, canvas: Size)
    ensures canvas == Canvas(ApproxFactor(|Found(names, library)|), tile)
    ensures r.Ok? <==> AllTiles(Found(names, library), tile)
    ensures r.Ok? ==> Keys(r.value) == Keys(Found(names, library))
    ensures r.Ok? && |Found(names, library)| > 0 ==>
      r.value == Atlas(Found(names, library), ApproxFactor(|Found(names, library)|).0, tile)
  {
    var files := FindFiles(library, names);
    r, canvas := PlaceTiles(files, tile);
  }

  lemma AllTilesStep(files: seq<(string, Size)>, n: nat, tile: Size)
    requires n < |files| && AllTiles(files[..n], tile) && files[n].1 == tile
    ensures AllTiles(files[..n + 1], tile)
  {
    assert forall k :: 0 <= k < n + 1 ==> files[..n + 1][k] == files[k];
  }

  /** One turn of the placing loop keeps its invariant. */
  lemma PlaceStep(files: seq<(string, Size)>, n: nat, columns: nat, tile: Size)
    requires Unique(files) && n < |files| && columns > 0 && files[n].1 == tile
    requires Unique(Atlas(files[..n], columns, tile))
    ensures Put(Atlas(files[..n], columns, tile), files[n].0, TileOffset(n, columns, tile)) == Atlas(files[..n + 1], columns, tile)
  {
    AtlasKeys(files[..n], columns, tile);
    AppendFresh(files, n, Atlas(files[..n], columns, tile));
    AtlasStep(files, n, columns, tile);
  }

  /** Placing one more tile appends its offset. */
  lemma AtlasStep(files: seq<(string, Size)>, n: nat, columns: nat, tile: Size)
    requires n < |files| && columns > 0
    requires Unique(Atlas(files[..n], columns, tile)) && files[n].0 !in Keys(Atlas(files[..n], columns, tile))
    ensures Put(Atlas(files[..n], columns, tile), files[n].0, TileOffset(n, columns, tile)) == Atlas(files[..n + 1], columns, tile)
  {
    var before := Atlas(files[..n], columns, tile);
    PutFresh(before, files[n].0, TileOffset(n, columns, tile));
    assert files[..n + 1][..n] == files[..n];
  }

  /** A name not placed yet is new to the offsets, so assigning it appends. */
  lemma AppendFresh(files: seq<(string, Size)>, n: nat, data: Record)
    requires Unique(files) && n < |files| && Keys(data) == Keys(files[..n])
    ensures files[n].0 !in Keys(data)
  {
    if files[n].0 in Keys(data) {
      var i :| 0 <= i < n && files[i].0 == files[n].0;
      UniqueAt(files, i, n);
    }
  }

  lemma ColumnsPositive(n: nat)
    ensures n > 0 ==> ApproxFactor(n).0 > 0
  {
  }

  /** A tile number below `columns * rows` falls in one of the rows. */
  lemma RowBound(k: nat, columns: nat, rows: nat)
    requires columns > 0 && k < columns * rows
    ensures k / columns < rows
  {
    var q := k / columns;
    if q >= rows {
      MulLe(rows, q, columns);
    }
  }

  /** Every tile of a grid sized for `n` tiles lies inside the atlas. */
  lemma TileInside(n: nat, k: nat, tile: Size)
    requires k < n
    ensures ApproxFactor(n).0 > 0
    ensures (k % ApproxFactor(n).0) * tile.width + tile.width <= ApproxFactor(n).0 * tile.width
    ensures (k / ApproxFactor(n).0) * tile.height + tile.height <= ApproxFactor(n).1 * tile.height
  {
    var wh := ApproxFactor(n);
    ColumnsPositive(n);
    TileFits(k, wh.0, wh.1, tile);
  }

  /** The same, for any grid of `columns * rows` cells holding tile `k`. */
  lemma TileFits(k: nat, columns: nat, rows: nat, tile: Size)
    requires columns > 0 && k < columns * rows
    ensures (k % columns) * tile.width + tile.width <= columns * tile.width
    ensures (k / columns) * tile.height + tile.height <= rows * tile.height
  {
    var m, q := k % columns, k / columns;
    MulLe(m + 1, columns, tile.width);
    MulSucc(m, tile.width);
    RowBound(k, columns, rows);
    MulLe(q + 1, rows, tile.height);
    MulSucc(q, tile.height);
  }

  lemma MulSucc(a: nat, c: nat)
    ensures a * c + c == (a + 1) * c
  {
  }

  lemma MulLe(a: nat, b: nat, c: nat)
    requires a <= b
    ensures a * c <= b * c
  {
  }

  /** Distinct tiles get distinct offsets (tiles of positive size). */
  lemma TileDistinct(columns: nat, k1: nat, k2: nat, tile: Size)
    requires columns > 0 && tile.width > 0 && tile.height > 0 && k1 != k2
    ensures TileOffset(k1, columns, tile) != TileOffset(k2, columns, tile)
  {
    if TileOffset(k1, columns, tile) == TileOffset(k2, columns, tile) {
      var m1, m2 := k1 % columns, k2 % columns;
      var q1, q2 := k1 / columns, k2 / columns;
      MulCancel(m1, m2, tile.width);
    }
  }

  lemma MulCancel(a: nat, b: nat, c: nat)
    requires c > 0 && a * c == b * c
    ensures a == b
  {
  }
}
