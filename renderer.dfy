/** The tiled renderer of renderer.cpp. The image is cut into 64 by 64
    tiles, clipped at the right and bottom borders; each tile renders into
    its own row-major buffer (`do_render`), and the tiles' buffers are then
    copied into the film. The source renders the tiles concurrently with
    `std::async` and joins them all before copying; here they are rendered
    one after the other. */
module Renderer {
  import opened VectorMath
  import opened SceneData
  import opened PixelAverage

  /** `tile_size`. */
  const TileSize: nat := 64

  /** `Tile`: its origin, its extent and its local buffer. */
  datatype Tile = Tile(x: int, y: int, width: int, height: int, buffer: seq<Vec3>)
  {
    /** The tile covers film pixel `(px, py)`. */
    predicate Contains(px: int, py: int)
    {
      x <= px < x + width && y <= py < y + height
    }

    /** The tile without its buffer. */
    function Rect(): Tile
    {
      Tile(x, y, width, height, [])
    }
  }

  /** The number of tiles across `n` pixels: `n / 64` rounded up. */
  function TileCount(n: nat): (r: nat)
    ensures r * TileSize >= n
    ensures 0 < r ==> (r - 1) * TileSize < n
  {
    (n + TileSize - 1) / TileSize
  }

  /** The tile in column `cx` and row `cy` of the grid. */
  function TileAt(width: nat, height: nat, cx: nat, cy: nat): Tile
  {
    var x := cx * TileSize;
    var y := cy * TileSize;
    Tile(x, y, if width - x < TileSize then width - x else TileSize,
         if height - y < TileSize then height - y else TileSize, [])
  }

  /** The position in the tile vector of the tile in column `cx` and row
      `cy`: the outer loop runs over columns, the inner over rows. */
  function TileNumber(width: nat, height: nat, cx: nat, cy: nat): (i: nat)
    requires cx < TileCount(width) && cy < TileCount(height)
    ensures i < TileCount(width) * TileCount(height)
  {
    PixelIndex(cy, cx, TileCount(height), TileCount(width))
  }

  /** The tile lies inside a `width` by `height` film and is not empty. */
  predicate InFilm(tile: Tile, width: nat, height: nat)
  {
    0 <= tile.x && 0 <= tile.y && 1 <= tile.width && 1 <= tile.height
    && tile.x + tile.width <= width && tile.y + tile.height <= height
  }

  /** The first `n` tiles of column `cx`, top to bottom. */
  function Column(width: nat, height: nat, cx: nat, n: nat): (r: seq<Tile>)
    requires cx < TileCount(width) && n <= TileCount(height)
    ensures |r| == n
    ensures forall cy :: 0 <= cy < n ==> r[cy] == TileAt(width, height, cx, cy)
    ensures forall k :: 0 <= k < n ==> InFilm(r[k], width, height)
  {
    if n == 0 then []
    else
      TileInBounds(width, height, cx, n - 1);
      Column(width, height, cx, n - 1) + [TileAt(width, height, cx, n - 1)]
  }

  /** The first `c` columns of tiles, left to right: the tile vector the
      construction loop builds once `c` is the number of columns. */
  function Grid(width: nat, height: nat, c: nat): (r: seq<Tile>)
    requires c <= TileCount(width)
    ensures forall k :: 0 <= k < |r| ==> InFilm(r[k], width, height)
  {
    if c == 0 then [] else Grid(width, height, c - 1) + Column(width, height, c - 1, TileCount(height))
  }

  /** The tile vector lists every tile of the grid at its number, and only
      tiles inside the film. */
  predicate Placed(tiles: seq<Tile>, width: nat, height: nat)
  {
    |tiles| == TileCount(width) * TileCount(height)
    && (forall cx, cy :: 0 <= cx < TileCount(width) && 0 <= cy < TileCount(height) ==>
      tiles[TileNumber(width, height, cx, cy)].Rect() == TileAt(width, height, cx, cy))
    && forall i :: 0 <= i < |tiles| ==> InFilm(tiles[i], width, height)
  }

  /** The tile construction loop: tiles in column-major order, each 64
      pixels wide and high except where the film's border clips it. */
  method BuildTiles(width: U16, height: U16) returns (tiles: seq<Tile>)
    ensures tiles == Grid(width, height, TileCount(width))
    ensures forall i :: 0 <= i < |tiles| ==> tiles[i].buffer == []
  {
    tiles := [];
    var x := 0;
    ghost var cx := 0;
    TileCountBound(width, 0);
    while x < width
      invariant x == cx * TileSize && cx <= TileCount(width)
      invariant cx < TileCount(width) <==> x < width
      invariant tiles == Grid(width, height, cx)
      invariant forall i :: 0 <= i < |tiles| ==> tiles[i].buffer == []
      decreases width - x
    {
      tiles := PushColumn(tiles, width, height, x, cx);
      x := x + TileSize;
      cx := cx + 1;
      TileCountBound(width, cx);
    }
  }

  /** The inner construction loop for the column of tiles starting at `x`:
      pushes the column's tiles, top to bottom, onto `tiles`. */
  method PushColumn(tiles: seq<Tile>, width: U16, height: U16, x: nat, ghost cx: nat) returns (r: seq<Tile>)
    requires x == cx * TileSize && cx < TileCount(width)
    requires forall i :: 0 <= i < |tiles| ==> tiles[i].buffer == []
    ensures r == tiles + Column(width, height, cx, TileCount(height))
    ensures forall i :: 0 <= i < |r| ==> r[i].buffer == []
  {
    r := tiles;
    var y := 0;
    ghost var cy := 0;
    TileCountBound(height, 0);
    while y < height
      invariant y == cy * TileSize && cy <= TileCount(height)
      invariant cy < TileCount(height) <==> y < height
      invariant r == tiles + Column(width, height, cx, cy)
      invariant forall i :: 0 <= i < |r| ==> r[i].buffer == []
      decreases height - y
    {
      r := r + [Tile(x, y, if width - x < TileSize then width - x else TileSize,
                     if height - y < TileSize then height - y else TileSize, [])];
      assert r == tiles + (Column(width, height, cx, cy) + [TileAt(width, height, cx, cy)]);
      y := y + TileSize;
      cy := cy + 1;
      TileCountBound(height, cy);
    }
  }

  /** The first `c` columns hold `c` times the number of rows tiles. */
  lemma {:induction false} GridLength(width: nat, height: nat, c: nat)
    requires c <= TileCount(width)
    ensures |Grid(width, height, c)| == c * TileCount(height)
  {
    if c > 0 {
      GridLength(width, height, c - 1);
      MultiplySuccessor(c - 1, TileCount(height));
    }
  }

  /** One more column adds one more column's worth of tiles. */
  lemma MultiplySuccessor(c: nat, rows: nat)
    ensures (c + 1) * rows == c * rows + rows
  {
  }

  /** Column `k` starts inside `n` pixels exactly when it is one of the
      `TileCount(n)` columns. */
  lemma TileCountBound(n: nat, k: nat)
    ensures k < TileCount(n) <==> k * TileSize < n
  {
  }

  /** The grid lists the tile in column `cx` and row `cy` at its number
      `cx * rows + cy`. */
  lemma {:induction false} GridEntry(width: nat, height: nat, c: nat, cx: nat, cy: nat)
    requires cx < c <= TileCount(width) && cy < TileCount(height)
    ensures TileNumber(width, height, cx, cy) < |Grid(width, height, c)|
    ensures Grid(width, height, c)[TileNumber(width, height, cx, cy)] == TileAt(width, height, cx, cy)
  {
    var rows := TileCount(height);
    var g := Grid(width, height, c - 1);
    var i := TileNumber(width, height, cx, cy);
    GridLength(width, height, c - 1);
    GridLength(width, height, c);
    assert i == cx * rows + cy;
    if cx < c - 1 {
      GridEntry(width, height, c - 1, cx, cy);
    } else {
      assert i == |g| + cy;
    }
  }

  /** The tile vector the construction loop builds is placed. */
  lemma GridIsPlaced(width: nat, height: nat)
    ensures Placed(Grid(width, height, TileCount(width)), width, height)
  {
    var c := TileCount(width);
    GridLength(width, height, c);
    forall cx, cy | 0 <= cx < c && 0 <= cy < TileCount(height)
      ensures Grid(width, height, c)[TileNumber(width, height, cx, cy)].Rect() == TileAt(width, height, cx, cy)
    {
      GridEntry(width, height, c, cx, cy);
    }
  }

  /** Every tile of the grid lies inside the film, starts on a multiple of
      64, and is between 1 and 64 pixels wide and high. */
  lemma TileInBounds(width: nat, height: nat, cx: nat, cy: nat)
    requires cx < TileCount(width) && cy < TileCount(height)
    ensures var t := TileAt(width, height, cx, cy);
      InFilm(t, width, height) && t.width <= TileSize && t.height <= TileSize
      && t.x % TileSize == 0 && t.y % TileSize == 0
  {
    TileCountBound(width, cx);
    TileCountBound(height, cy);
    MultipleOfTileSize(cx);
    MultipleOfTileSize(cy);
  }

  /** A tile origin is a multiple of the tile size. */
  lemma MultipleOfTileSize(k: nat)
    ensures (k * TileSize) % TileSize == 0
  {
  }

  /** The tiles partition the film: a film pixel lies in the tile of the
      grid in column `px / 64` and row `py / 64`, and in no other. */
  lemma {:induction false} TilesPartitionFilm(width: nat, height: nat, cx: nat, cy: nat, px: nat, py: nat)
    requires cx < TileCount(width) && cy < TileCount(height)
    requires px < width && py < height
    ensures px / TileSize < TileCount(width) && py / TileSize < TileCount(height)
    ensures TileAt(width, height, cx, cy).Contains(px, py) <==> cx == px / TileSize && cy == py / TileSize
  {
    TileInBounds(width, height, cx, cy);
  }

  /** The pixel `(lx, ly)` of a tile's buffer belongs to film pixel
      `(x + lx, y + ly)`, and holds the average of that pixel's samples. */
  predicate Rendered(tile: Tile, samples: int, radiance: Radiance)
    requires samples != 0
  {
    0 <= tile.width && 0 <= tile.height
    && |tile.buffer| == tile.width * tile.height
    && forall lx, ly :: 0 <= lx < tile.width && 0 <= ly < tile.height ==>
      tile.buffer[PixelIndex(lx, ly, tile.width, tile.height)] == PixelValue(radiance, tile.x + lx, tile.y + ly, samples)
  }

  /** `do_render`: resizes the tile's buffer to its area and stores the
      average of each of its pixels' samples at the local row-major index
      `y * tile.width + x`, which stays below that area. */
  method RenderTile(tile: Tile, samples: I16, radiance: Radiance) returns (r: Tile)
    requires samples != 0 && 0 <= tile.width && 0 <= tile.height
    ensures r.Rect() == tile.Rect()
    ensures Rendered(r, samples, radiance)
  {
    var width: nat := tile.width;
    var height: nat := tile.height;
    var buffer := Resize(tile.buffer, width * height);
    for y := 0 to height
      invariant |buffer| == width * height
      invariant FilledBefore(buffer, tile, samples, radiance, y, 0)
    {
      buffer := RenderRow(tile, samples, radiance, buffer, y);
    }
    r := tile.(buffer := buffer);
  }

  /** The inner loop of `do_render`: stores the averages of row `y`. */
  method RenderRow(tile: Tile, samples: I16, radiance: Radiance, buffer: seq<Vec3>, y: nat) returns (r: seq<Vec3>)
    requires samples != 0 && 0 <= tile.width && 0 <= tile.height && y < tile.height
    requires |buffer| == tile.width * tile.height
    requires FilledBefore(buffer, tile, samples, radiance, y, 0)
    ensures |r| == tile.width * tile.height
    ensures FilledBefore(r, tile, samples, radiance, y + 1, 0)
  {
    var width: nat := tile.width;
    var height: nat := tile.height;
    r := buffer;
    for x := 0 to width
      invariant |r| == width * height
      invariant FilledBefore(r, tile, samples, radiance, y, x)
    {
      var curX := x + tile.x;
      var curY := y + tile.y;
      var color := Accumulate(radiance, curX, curY, samples);
      FillPixel(r, tile, samples, radiance, x, y);
      r := r[PixelIndex(x, y, width, height) := color];
    }
    NextRow(r, tile, samples, radiance, y);
  }

  /** The pixels of `tile` before `(x, y)` in row-major order hold their
      averages in `buffer`. */
  predicate FilledBefore(buffer: seq<Vec3>, tile: Tile, samples: int, radiance: Radiance, y: nat, x: nat)
    requires samples != 0 && 0 <= tile.width && 0 <= tile.height
    requires |buffer| == tile.width * tile.height
  {
    forall lx, ly :: 0 <= lx < tile.width && 0 <= ly < tile.height && (ly < y || (ly == y && lx < x)) ==>
      buffer[PixelIndex(lx, ly, tile.width, tile.height)] == PixelValue(radiance, tile.x + lx, tile.y + ly, samples)
  }

  /** Writing the average of pixel `(x, y)` extends the filled part by one. */
  lemma FillPixel(buffer: seq<Vec3>, tile: Tile, samples: int, radiance: Radiance, x: nat, y: nat)
    requires samples != 0 && 0 <= tile.width && 0 <= tile.height
    requires |buffer| == tile.width * tile.height && x < tile.width && y < tile.height
    requires FilledBefore(buffer, tile, samples, radiance, y, x)
    ensures var b := buffer[PixelIndex(x, y, tile.width, tile.height) := PixelValue(radiance, tile.x + x, tile.y + y, samples)];
      FilledBefore(b, tile, samples, radiance, y, x + 1)
  {
    WriteKeepsOtherPixels(buffer, tile.width, tile.height, x, y, PixelValue(radiance, tile.x + x, tile.y + y, samples));
  }

  /** A filled row moves the filled part to the start of the next row. */
  lemma NextRow(buffer: seq<Vec3>, tile: Tile, samples: int, radiance: Radiance, y: nat)
    requires samples != 0 && 0 <= tile.width && 0 <= tile.height
    requires |buffer| == tile.width * tile.height
    requires FilledBefore(buffer, tile, samples, radiance, y, tile.width)
    ensures FilledBefore(buffer, tile, samples, radiance, y + 1, 0)
  {
  }

  /** The copy of one tile into the film: each pixel the tile covers
      receives the tile's value for it, at the film index
      `cur_y * film.width + cur_x`, and every other pixel is unchanged. */
  method CopyTile(film: Film, tile: Tile)
    requires 0 <= tile.x && 0 <= tile.y && 0 <= tile.width && 0 <= tile.height
    requires tile.x + tile.width <= film.width && tile.y + tile.height <= film.height
    requires |tile.buffer| == tile.width * tile.height
    requires |film.buffer| == film.width * film.height
    modifies film
    ensures film.width == old(film.width) && film.height == old(film.height)
    ensures |film.buffer| == film.width * film.height
    ensures forall px, py :: 0 <= px < film.width && 0 <= py < film.height ==>
      film.buffer[PixelIndex(px, py, film.width, film.height)] ==
        if tile.Contains(px, py)
        then tile.buffer[PixelIndex(px - tile.x, py - tile.y, tile.width, tile.height)]
        else old(film.buffer)[PixelIndex(px, py, film.width, film.height)]
  {
    var width: nat := film.width;
    var height: nat := film.height;
    for y := 0 to tile.height
      invariant film.width == width && film.height == height
      invariant |film.buffer| == width * height
      invariant forall px, py :: 0 <= px < width && 0 <= py < height ==>
        film.buffer[PixelIndex(px, py, width, height)] ==
          if tile.Contains(px, py) && py - tile.y < y
          then tile.buffer[PixelIndex(px - tile.x, py - tile.y, tile.width, tile.height)]
          else old(film.buffer)[PixelIndex(px, py, width, height)]
    {
      for x := 0 to tile.width
        invariant film.width == width && film.height == height
        invariant |film.buffer| == width * height
        invariant forall px, py :: 0 <= px < width && 0 <= py < height ==>
          film.buffer[PixelIndex(px, py, width, height)] ==
            if tile.Contains(px, py) && (py - tile.y < y || (py - tile.y == y && px - tile.x < x))
            then tile.buffer[PixelIndex(px - tile.x, py - tile.y, tile.width, tile.height)]
            else old(film.buffer)[PixelIndex(px, py, width, height)]
      {
        var curY := y + tile.y;
        var curX := x + tile.x;
        var value := tile.buffer[PixelIndex(x, y, tile.width, tile.height)];
        WriteKeepsOtherPixels(film.buffer, width, height, curX, curY, value);
        film.buffer := film.buffer[PixelIndex(curX, curY, width, height) := value];
      }
    }
  }

  /** The launch loop: every tile of the vector is rendered by
      `do_render`, in place; the tiles keep their positions and extents. */
  method RenderAll(tiles: seq<Tile>, samples: I16, radiance: Radiance) returns (rendered: seq<Tile>)
    requires samples != 0
    requires forall i :: 0 <= i < |tiles| ==> 0 <= tiles[i].width && 0 <= tiles[i].height
    ensures |rendered| == |tiles|
    ensures forall i :: 0 <= i < |tiles| ==> rendered[i].Rect() == tiles[i].Rect()
    ensures forall i :: 0 <= i < |tiles| ==> Rendered(rendered[i], samples, radiance)
  {
    rendered := tiles;
    for i := 0 to |tiles|
      invariant |rendered| == |tiles|
      invariant forall j :: 0 <= j < |tiles| ==> rendered[j].Rect() == tiles[j].Rect()
      invariant forall j :: 0 <= j < i ==> Rendered(rendered[j], samples, radiance)
    {
      var tile := RenderTile(rendered[i], samples, radiance);
      rendered := rendered[i := tile];
    }
  }

  /** The assembly loop: copies the rendered tiles into the film one after
      the other; every film pixel some rendered tile covers ends up holding
      the average of its samples. */
  method Assemble(film: Film, tiles: seq<Tile>, samples: I16, radiance: Radiance)
    requires samples != 0
    requires |film.buffer| == film.width * film.height
    requires forall i :: 0 <= i < |tiles| ==> InFilm(tiles[i], film.width, film.height)
    requires forall i :: 0 <= i < |tiles| ==> Rendered(tiles[i], samples, radiance)
    modifies film
    ensures film.width == old(film.width) && film.height == old(film.height)
    ensures |film.buffer| == film.width * film.height
    ensures forall j, px, py :: 0 <= j < |tiles| && 0 <= px < film.width && 0 <= py < film.height && tiles[j].Contains(px, py) ==>
      film.buffer[PixelIndex(px, py, film.width, film.height)] == PixelValue(radiance, px, py, samples)
  {
    var width: nat := film.width;
    var height: nat := film.height;
    for i := 0 to |tiles|
      invariant film.width == width && film.height == height
      invariant |film.buffer| == width * height
      invariant forall j, px, py :: 0 <= j < i && 0 <= px < width && 0 <= py < height && tiles[j].Contains(px, py) ==>
        film.buffer[PixelIndex(px, py, width, height)] == PixelValue(radiance, px, py, samples)
    {
      CopyTile(film, tiles[i]);
      forall j, px, py | 0 <= j <= i && 0 <= px < width && 0 <= py < height && tiles[j].Contains(px, py)
        ensures film.buffer[PixelIndex(px, py, width, height)] == PixelValue(radiance, px, py, samples)
      {
        if tiles[i].Contains(px, py) {
          var t := tiles[i];
          assert PixelValue(radiance, t.x + (px - t.x), t.y + (py - t.y), samples) == PixelValue(radiance, px, py, samples);
        }
      }
    }
  }

  /** `render(scene)`: the film has the scene's size, and each of its
      pixels holds the average of that pixel's samples. */
  method Render(width: U16, height: U16, samples: I16, radiance: Radiance) returns (film: Film)
    requires samples != 0
    ensures film.width == width && film.height == height
    ensures |film.buffer| == width * height
    ensures forall px, py :: 0 <= px < width && 0 <= py < height ==>
      film.buffer[PixelIndex(px, py, width, height)] == PixelValue(radiance, px, py, samples)
  {
    film := new Film(width, height);
    film.buffer := Resize(film.buffer, width as nat * height as nat);
    var rendered := RenderTiles(width, height, samples, radiance);
    Assemble(film, rendered, samples, radiance);
    EveryPixelCovered(film.buffer, rendered, width, height, samples, radiance);
  }

  /** The first two phases of `Render`: the tiles of the film, each with
      its pixels rendered. */
  method RenderTiles(width: U16, height: U16, samples: I16, radiance: Radiance) returns (rendered: seq<Tile>)
    requires samples != 0
    ensures Placed(rendered, width, height)
    ensures forall i :: 0 <= i < |rendered| ==> Rendered(rendered[i], samples, radiance)
  {
    var tiles := BuildTiles(width, height);
    GridIsPlaced(width, height);
    PlacedTilesHaveExtents(tiles, width, height);
    rendered := RenderAll(tiles, samples, radiance);
    RenderedStayPlaced(tiles, rendered, width, height);
  }

  /** A buffer that holds the average of every pixel some placed tile covers
      holds the average of every film pixel. */
  lemma EveryPixelCovered(buffer: seq<Vec3>, tiles: seq<Tile>, width: nat, height: nat, samples: int, radiance: Radiance)
    requires samples != 0 && Placed(tiles, width, height) && |buffer| == width * height
    requires forall j, px, py :: 0 <= j < |tiles| && 0 <= px < width && 0 <= py < height && tiles[j].Contains(px, py) ==>
      buffer[PixelIndex(px, py, width, height)] == PixelValue(radiance, px, py, samples)
    ensures forall px, py :: 0 <= px < width && 0 <= py < height ==>
      buffer[PixelIndex(px, py, width, height)] == PixelValue(radiance, px, py, samples)
  {
    forall px, py | 0 <= px < width && 0 <= py < height
      ensures buffer[PixelIndex(px, py, width, height)] == PixelValue(radiance, px, py, samples)
    {
      var j := CoveringTile(tiles, width, height, px, py);
    }
  }

  /** Placed tiles have non-negative extents. */
  lemma PlacedTilesHaveExtents(tiles: seq<Tile>, width: nat, height: nat)
    requires Placed(tiles, width, height)
    ensures forall i :: 0 <= i < |tiles| ==> 0 <= tiles[i].width && 0 <= tiles[i].height
  {
  }

  /** Tiles that keep the rectangles of placed tiles are placed too. */
  lemma RenderedStayPlaced(tiles: seq<Tile>, rendered: seq<Tile>, width: nat, height: nat)
    requires Placed(tiles, width, height) && |rendered| == |tiles|
    requires forall i :: 0 <= i < |tiles| ==> rendered[i].Rect() == tiles[i].Rect()
    ensures Placed(rendered, width, height)
  {
    forall i | 0 <= i < |tiles| ensures InFilm(rendered[i], width, height) {
      assert rendered[i].Rect() == tiles[i].Rect();
    }
  }

  /** Every film pixel lies in some tile of a placed tile vector. */
  lemma CoveringTile(tiles: seq<Tile>, width: nat, height: nat, px: nat, py: nat) returns (j: nat)
    requires Placed(tiles, width, height) && px < width && py < height
    ensures j < |tiles| && tiles[j].Contains(px, py)
  {
    var cx, cy := px / TileSize, py / TileSize;
    TilesPartitionFilm(width, height, 0, 0, px, py);
    TilesPartitionFilm(width, height, cx, cy, px, py);
    j := TileNumber(width, height, cx, cy);
    assert tiles[j].Rect() == TileAt(width, height, cx, cy);
  }
}
