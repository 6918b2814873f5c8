// The pre-rendered blocks of a tile map
// (client-svelte/src/lib/client/blitz/webgl/drawer/tilemap2.js). A texture is
// a value of 256 by 256 pixels; copyTexSubImage2D copies a rectangle into the
// bound one and leaves alone the pixels whose source lies outside the tileset.
module TileBlocks {

  const BLOCK := 256          // block side in pixels
  const TILE := 8             // tile side in pixels
  const BLOCK_TILES := 32     // block side in tiles
  const COLUMNS := 60         // tiles per tileset row

  type Pixel = int
  const BLANK: Pixel := 0

  type Texture = seq<seq<Pixel>>

  ghost predicate IsBlock(t: Texture) {
    |t| == BLOCK && forall y :: 0 <= y < BLOCK ==> |t[y]| == BLOCK
  }

  predicate Inside<P>(t: seq<seq<P>>, x: int, y: int) {
    0 <= y < |t| && 0 <= x < |t[y]|
  }

  /** copyTexSubImage2D of a TILE by TILE rectangle. */
  function CopyTile(t: Texture, dx: int, dy: int, source: Texture, sx: int, sy: int): (r: Texture)
    ensures |r| == |t| && forall y :: 0 <= y < |t| ==> |r[y]| == |t[y]|
    ensures forall x, y :: Inside(t, x, y) ==>
              r[y][x] == if dx <= x < dx + TILE && dy <= y < dy + TILE && Inside(source, sx + x - dx, sy + y - dy)
                         then source[sy + y - dy][sx + x - dx] else t[y][x]
  {
    seq(|t|, y requires 0 <= y < |t| => seq(|t[y]|, x requires 0 <= x < |t[y]| =>
      if dx <= x < dx + TILE && dy <= y < dy + TILE && Inside(source, sx + x - dx, sy + y - dy)
      then source[sy + y - dy][sx + x - dx] else t[y][x]))
  }

  lemma CopyKeepsBlock(t: Texture, dx: int, dy: int, source: Texture, sx: int, sy: int)
    requires IsBlock(t)
    ensures IsBlock(CopyTile(t, dx, dy, source, sx, sy))
  {
  }

  function BlankBlock(): (t: Texture)
    ensures IsBlock(t) && forall x, y :: Inside(t, x, y) ==> t[y][x] == BLANK
  {
    seq(BLOCK, y => seq(BLOCK, x => BLANK))
  }

  type Tiles = seq<seq<int>>

  ghost predicate Rectangular(tiles: Tiles) {
    |tiles| > 0 && forall y :: 0 <= y < |tiles| ==> |tiles[y]| == |tiles[0]|
  }

  /** The pixel of the map drawn tile by tile: the tileset's pixel where there is
      a tile and the tileset has it, blank elsewhere. */
  function Drawn(tiles: Tiles, source: Texture, px: nat, py: nat): Pixel {
    if !Inside(tiles, px / TILE, py / TILE) || tiles[py / TILE][px / TILE] < 1 then BLANK
    else
      var t := tiles[py / TILE][px / TILE] - 1;
      var sx, sy := (t % COLUMNS) * TILE + px % TILE, (t / COLUMNS) * TILE + py % TILE;
      if Inside(source, sx, sy) then source[sy][sx] else BLANK
  }

  /** A pixel of the map lies in the rectangle of tile (x, y), inside the
      rectangle's block, just when the tile is its own. */
  lemma OwnTile(px: nat, x: nat)
    ensures px / TILE == x <==> px / BLOCK == x / BLOCK_TILES && (x % BLOCK_TILES) * TILE <= px % BLOCK < (x % BLOCK_TILES) * TILE + TILE
    ensures px / TILE == x ==> px % BLOCK - (x % BLOCK_TILES) * TILE == px % TILE
  {
    assert px == (px / BLOCK) * BLOCK + px % BLOCK;
    assert x == (x / BLOCK_TILES) * BLOCK_TILES + x % BLOCK_TILES;
  }

  /** Tile (x, y) comes before (ox, oy) in the drawing order. */
  predicate Before(x: int, y: int, ox: int, oy: int) {
    y < oy || (y == oy && x < ox)
  }

  lemma BeforeNext(u: int, v: int, x: int, y: int)
    ensures Before(u, v, x + 1, y) <==> Before(u, v, x, y) || (u == x && v == y)
  {
  }

  /** One pixel of a block after a copy into it. */
  lemma CopiedPixel(t: Texture, dx: int, dy: int, source: Texture, sx: int, sy: int, x: int, y: int)
    requires IsBlock(t) && 0 <= x < BLOCK && 0 <= y < BLOCK
    ensures var r := CopyTile(t, dx, dy, source, sx, sy);
      && IsBlock(r)
      && r[y][x] == if dx <= x < dx + TILE && dy <= y < dy + TILE && Inside(source, sx + x - dx, sy + y - dy)
                    then source[sy + y - dy][sx + x - dx] else t[y][x]
  {
    assert Inside(t, x, y);
  }

  /** One pixel before and after the copy of tile (x, y): `was` and `now` are its block. */
  lemma PixelAfter(tiles: Tiles, source: Texture, was: Texture, now: Texture, x: nat, y: nat, px: nat, py: nat)
    requires Rectangular(tiles) && Inside(tiles, x, y) && IsBlock(was)
    requires was[py % BLOCK][px % BLOCK] == if Before(px / TILE, py / TILE, x, y) then Drawn(tiles, source, px, py) else BLANK
    requires var t := tiles[y][x] - 1;
             now == if t < 0 || py / BLOCK != y / BLOCK_TILES || px / BLOCK != x / BLOCK_TILES then was
                    else CopyTile(was, (x % BLOCK_TILES) * TILE, (y % BLOCK_TILES) * TILE,
                                  source, (t % COLUMNS) * TILE, (t / COLUMNS) * TILE)
    ensures IsBlock(now)
    ensures now[py % BLOCK][px % BLOCK] == if Before(px / TILE, py / TILE, x + 1, y) then Drawn(tiles, source, px, py) else BLANK
  {
    hide CopyTile, Before, IsBlock;
    var t := tiles[y][x] - 1;
    OwnTile(px, x);
    OwnTile(py, y);
    BeforeNext(px / TILE, py / TILE, x, y);
    NotBeforeItself(x, y);
    if t >= 0 && py / BLOCK == y / BLOCK_TILES && px / BLOCK == x / BLOCK_TILES {
      CopiedPixel(was, (x % BLOCK_TILES) * TILE, (y % BLOCK_TILES) * TILE, source, (t % COLUMNS) * TILE,
                  (t / COLUMNS) * TILE, px % BLOCK, py % BLOCK);
    }
  }

  lemma NotBeforeItself(x: int, y: int)
    ensures !Before(x, y, x, y)
  {
  }

  class TileMap2 {
    const tiles: Tiles
    const width: nat
    const height: nat
    const blocks_width: nat
    const blocks_height: nat
    const blocks: array2<Texture>
    var must_initialize_blocks: bool
    var must_update_blocks: bool

    ghost predicate Valid()
      reads this, blocks
    {
      && Rectangular(tiles) && height == |tiles| && width == |tiles[0]|
      && blocks.Length0 == blocks_height && blocks.Length1 == blocks_width
      && (blocks_width - 1) * BLOCK_TILES < width <= blocks_width * BLOCK_TILES
      && (blocks_height - 1) * BLOCK_TILES < height <= blocks_height * BLOCK_TILES
      && (!must_initialize_blocks ==> AllBlocks())
    }

    ghost predicate AllBlocks()
      reads blocks
    {
      forall j, i :: 0 <= j < blocks.Length0 && 0 <= i < blocks.Length1 ==> IsBlock(blocks[j, i])
    }

    constructor (tiles: Tiles)
      requires Rectangular(tiles)
      ensures Valid() && this.tiles == tiles && must_initialize_blocks && must_update_blocks && fresh(blocks)
    {
      this.tiles := tiles;
      width, height := |tiles[0]|, |tiles|;
      blocks_width := (|tiles[0]| + BLOCK_TILES - 1) / BLOCK_TILES;
      blocks_height := (|tiles| + BLOCK_TILES - 1) / BLOCK_TILES;
      blocks := new Texture[(|tiles| + BLOCK_TILES - 1) / BLOCK_TILES, (|tiles[0]| + BLOCK_TILES - 1) / BLOCK_TILES]((i, j) => []);
      must_initialize_blocks, must_update_blocks := true, true;
    }

    /** The pixel of the blocks at a map position. */
    ghost function Shown(px: nat, py: nat): Pixel
      requires py / BLOCK < blocks.Length0 && px / BLOCK < blocks.Length1 && IsBlock(blocks[py / BLOCK, px / BLOCK])
      reads blocks
    {
      blocks[py / BLOCK, px / BLOCK][py % BLOCK][px % BLOCK]
    }

    method InitializeBlocks()
      requires Valid()
      modifies blocks, this`must_initialize_blocks
      ensures Valid() && !must_initialize_blocks
      ensures forall px: nat, py: nat :: px < blocks_width * BLOCK && py < blocks_height * BLOCK ==> Shown(px, py) == BLANK
    {
      for y := 0 to blocks_height
        invariant forall j, i :: 0 <= j < y && 0 <= i < blocks_width ==> blocks[j, i] == BlankBlock()
      {
        for x := 0 to blocks_width
          invariant forall j, i :: 0 <= j < y && 0 <= i < blocks_width ==> blocks[j, i] == BlankBlock()
          invariant forall i :: 0 <= i < x ==> blocks[y, i] == BlankBlock()
        {
          blocks[y, x] := BlankBlock();
        }
      }
      must_initialize_blocks := false;
    }

    /** What the blocks show once the tiles before (ox, oy) have been copied. */
    ghost predicate ShowsUpTo(source: Texture, ox: int, oy: int)
      reads blocks
    {
      AllBlocks() &&
      forall px: nat, py: nat :: py / BLOCK < blocks.Length0 && px / BLOCK < blocks.Length1 ==>
        Shown(px, py) == if Before(px / TILE, py / TILE, ox, oy) then Drawn(tiles, source, px, py) else BLANK
    }

    /** Copies one tile to its place in its block, unless there is no tile. */
    method DrawTile(source: Texture, x: nat, y: nat)
      requires Valid() && !must_initialize_blocks && x < width && y < height && ShowsUpTo(source, x, y)
      modifies blocks
      ensures Valid() && ShowsUpTo(source, x + 1, y)
    {
      hide CopyTile, Drawn, BlankBlock, IsBlock, Before;
      var block_x, block_y := x / BLOCK_TILES, y / BLOCK_TILES;
      var block_px := (x % BLOCK_TILES) * TILE;
      var block_py := (y % BLOCK_TILES) * TILE;
      var tile := tiles[y][x];
      if tile >= 1 {
        tile := tile - 1;
        var tileset_x := (tile % COLUMNS) * TILE;
        var tileset_y := (tile / COLUMNS) * TILE;
        CopyKeepsBlock(blocks[block_y, block_x], block_px, block_py, source, tileset_x, tileset_y);
        blocks[block_y, block_x] := CopyTile(blocks[block_y, block_x], block_px, block_py, source, tileset_x, tileset_y);
      }
      forall px: nat, py: nat | py / BLOCK < blocks.Length0 && px / BLOCK < blocks.Length1
        ensures Shown(px, py) == if Before(px / TILE, py / TILE, x + 1, y) then Drawn(tiles, source, px, py) else BLANK
      {
        PixelAfter(tiles, source, old(blocks[py / BLOCK, px / BLOCK]), blocks[py / BLOCK, px / BLOCK], x, y, px, py);
      }
    }

    method DrawTilesToBlocks(source: Texture)
      requires Valid() && !must_initialize_blocks && ShowsUpTo(source, 0, 0)
      modifies blocks, this`must_update_blocks
      ensures Valid() && !must_update_blocks && ShowsUpTo(source, 0, height)
    {
      hide Drawn, Shown;
      for y := 0 to height
        invariant Valid() && !must_initialize_blocks && ShowsUpTo(source, 0, y)
      {
        for x := 0 to width
          invariant Valid() && !must_initialize_blocks && ShowsUpTo(source, x, y)
        {
          DrawTile(source, x, y);
        }
        RowDone(source, y);
      }
      must_update_blocks := false;
    }

    lemma RowDone(source: Texture, y: nat)
      requires Valid() && y < height && ShowsUpTo(source, width, y)
      ensures ShowsUpTo(source, 0, y + 1)
    {
    }

    /** One quad per block, at the block's offset from (x, y). */
    ghost predicate Placed(quads: seq<seq<Quad>>, x: int, y: int)
      reads blocks
    {
      && |quads| == blocks.Length0
      && (forall j :: 0 <= j < |quads| ==> |quads[j]| == blocks.Length1)
      && (forall j, i :: 0 <= j < |quads| && 0 <= i < |quads[j]| ==> quads[j][i] == Quad(blocks[j, i], x + i * BLOCK, y + j * BLOCK))
    }

    /** Draws the blocks with the map's corner at (x, y), rendering them first if
        that was not done. */
    method DrawTilemap(source: Texture, x: int, y: int) returns (quads: seq<seq<Quad>>)
      requires Valid() && must_initialize_blocks == must_update_blocks
      requires !must_update_blocks ==> ShowsUpTo(source, 0, height)
      modifies this, blocks
      ensures Valid() && !must_initialize_blocks && !must_update_blocks
      ensures ShowsUpTo(source, 0, height) && Placed(quads, x, y)
    {
      hide Drawn, Shown, BlankBlock;
      if must_initialize_blocks {
        InitializeBlocks();
      }
      if must_update_blocks {
        DrawTilesToBlocks(source);
      }
      quads := [];
      for j := 0 to blocks_height
        invariant |quads| == j
        invariant forall b :: 0 <= b < j ==> |quads[b]| == blocks_width
        invariant forall b, a :: 0 <= b < j && 0 <= a < |quads[b]| ==> quads[b][a] == Quad(blocks[b, a], x + a * BLOCK, y + b * BLOCK)
      {
        var row := [];
        for i := 0 to blocks_width
          invariant |row| == i
          invariant forall a :: 0 <= a < i ==> row[a] == Quad(blocks[j, a], x + a * BLOCK, y + j * BLOCK)
        {
          row := row + [Quad(blocks[j, i], x + i * BLOCK, y + j * BLOCK)];
        }
        quads := quads + [row];
      }
    }

    /** On the screen: a pixel of the map lies on exactly one of the placed
        quads, and that quad shows there what drawing the tiles would show. */
    lemma ScreenShowsMap(source: Texture, quads: seq<seq<Quad>>, x: int, y: int, px: nat, py: nat)
      requires Valid() && ShowsUpTo(source, 0, height) && Placed(quads, x, y)
      requires px < width * TILE && py < height * TILE
      ensures Inside(quads, px / BLOCK, py / BLOCK)
      ensures forall j, i :: 0 <= j < |quads| && 0 <= i < |quads[j]| ==>
                (quads[j][i].Covers(x + px, y + py) <==> j == py / BLOCK && i == px / BLOCK)
      ensures quads[py / BLOCK][px / BLOCK].At(x + px, y + py) == Drawn(tiles, source, px, py)
    {
      var j, i := py / BLOCK, px / BLOCK;
      assert quads[j][i] == Quad(blocks[j, i], x + i * BLOCK, y + j * BLOCK);
      assert Shown(px, py) == Drawn(tiles, source, px, py);
    }
  }

  // One textured quad of BLOCK by BLOCK pixels on the screen.
  datatype Quad = Quad(texture: Texture, left: int, top: int) {
    predicate Covers(sx: int, sy: int) {
      left <= sx < left + BLOCK && top <= sy < top + BLOCK
    }

    function At(sx: int, sy: int): Pixel
      requires Covers(sx, sy)
    {
      if Inside(texture, sx - left, sy - top) then texture[sy - top][sx - left] else BLANK
    }
  }
}
