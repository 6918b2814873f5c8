// A map as a texture of tileset offsets (client-svelte/src/lib/client/blitz/webgl/
// drawer/tilemap.js, webgl.js): every tile becomes two by two texels, each of
// four bytes; the texture's sides are powers of two.
module TileTexture {
  import opened Arithmetic
  import opened Array2D
  import opened Bytes
  import TileBlocks

  // ------------------------------------------------------ powers of two

  ghost predicate IsPowerOf2(p: nat) {
    p == 1 || (p > 1 && p % 2 == 0 && IsPowerOf2(p / 2))
  }

  lemma {:induction false} NextPower(p: nat, q: nat)
    requires IsPowerOf2(p) && IsPowerOf2(q) && p < q
    ensures 2 * p <= q
  {
    if p > 1 {
      NextPower(p / 2, q / 2);
    }
  }

  lemma PowersDouble(p: nat)
    requires IsPowerOf2(p)
    ensures IsPowerOf2(2 * p)
  {
  }

  lemma OneIsLeast(p: nat)
    ensures IsPowerOf2(1) && (IsPowerOf2(p) ==> p >= 1)
  {
  }

  /** The least power of two that is at least n. */
  method NearestPowerOf2(n: nat) returns (result: nat)
    ensures IsPowerOf2(result) && n <= result
    ensures forall p: nat :: IsPowerOf2(p) && n <= p ==> result <= p
  {
    hide IsPowerOf2;
    forall p: nat
      ensures IsPowerOf2(1) && (IsPowerOf2(p) ==> p >= 1)
    {
      OneIsLeast(p);
    }
    result := 1;
    while result < n
      invariant IsPowerOf2(result) && result >= 1
      invariant forall p: nat :: IsPowerOf2(p) && n <= p ==> result <= p
      decreases n - result
    {
      forall p: nat | IsPowerOf2(p) && n <= p
        ensures 2 * result <= p
      {
        NextPower(result, p);
      }
      PowersDouble(result);
      result := result * 2;
    }
  }

  // -------------------------------------------------------------- texels

  datatype Texel = Texel(r: Byte, g: Byte, b: Byte, a: Byte)

  const BLANK := Texel(0, 0, 0, 0)

  // A byte array keeps the low eight bits of what is stored.
  function Low8(v: int): Byte {
    v % 256
  }

  /** The texel at quarter (u % 2, v % 2) of a tile. */
  function TileTexel(tile: int, cols: int, u: nat, v: nat): Texel
    requires cols > 0
  {
    Texel(Low8((TruncMod(tile, cols) - 1) * 2 + u % 2), Low8(TruncDiv(tile, cols) * 2 + v % 2), 0, 255)
  }

  ghost function TexelAt(buffer: array<Byte>, k: nat): Texel
    requires 4 * k + 3 < buffer.Length
    reads buffer
  {
    Texel(buffer[4 * k], buffer[4 * k + 1], buffer[4 * k + 2], buffer[4 * k + 3])
  }

  /** What texel (u, v) is to hold. */
  ghost function Expected(tiles: seq<seq<int>>, cols: int, u: nat, v: nat): Texel
    requires TileBlocks.Rectangular(tiles) && cols > 0
  {
    if u < 2 * |tiles[0]| && v < 2 * |tiles| then TileTexel(tiles[v / 2][u / 2], cols, u, v) else BLANK
  }

  /** Writes a texel that was blank: no texel is written twice. */
  method WriteTexel(buffer: array<Byte>, k: nat, r: int, g: int)
    requires 4 * k + 3 < buffer.Length && TexelAt(buffer, k) == BLANK
    modifies buffer
    ensures TexelAt(buffer, k) == Texel(Low8(r), Low8(g), 0, 255)
    ensures forall j: nat :: j != k && 4 * j + 3 < buffer.Length ==> TexelAt(buffer, j) == old(TexelAt(buffer, j))
  {
    var cell := k * 4;
    buffer[cell] := Low8(r);
    buffer[cell + 1] := Low8(g);
    buffer[cell + 3] := 255;
  }

  /** Texel (u, v) belongs to a tile before (x, y), row by row, or is one of the
      first `n` quarters of tile (x, y). */
  predicate Reached(u: nat, v: nat, x: nat, y: nat, n: nat) {
    v / 2 < y || (v / 2 == y && u / 2 < x) || (u / 2 == x && v / 2 == y && v % 2 * 2 + u % 2 < n)
  }

  lemma NextReached(u: nat, v: nat, x: nat, y: nat, subX: nat, subY: nat)
    requires subX < 2 && subY < 2
    ensures Reached(u, v, x, y, subY * 2 + subX + 1) <==>
            Reached(u, v, x, y, subY * 2 + subX) || (u == x * 2 + subX && v == y * 2 + subY)
    ensures !Reached(x * 2 + subX, y * 2 + subY, x, y, subY * 2 + subX)
  {
  }

  /** The texels reached hold what they are to hold; all others are blank. */
  ghost predicate Written(buffer: array<Byte>, tiles: seq<seq<int>>, cols: int, texW: nat, texH: nat, x: nat, y: nat, n: nat)
    requires TileBlocks.Rectangular(tiles) && cols > 0
    reads buffer
  {
    forall u: nat, v: nat :: u < texW && v < texH ==>
      4 * Position(u, v, texW) + 3 < buffer.Length &&
      TexelAt(buffer, Position(u, v, texW)) == if Reached(u, v, x, y, n) then Expected(tiles, cols, u, v) else BLANK
  }

  lemma TexelFits(u: nat, v: nat, texW: nat, texH: nat)
    requires u < texW && v < texH
    ensures 4 * Position(u, v, texW) + 3 < texW * texH * 4
  {
    PositionInRange(u, v, texW, texH);
  }

  lemma QuarterExpected(tiles: seq<seq<int>>, cols: int, x: nat, y: nat, subX: nat, subY: nat)
    requires TileBlocks.Rectangular(tiles) && cols > 0 && x < |tiles[0]| && y < |tiles| && subX < 2 && subY < 2
    ensures var tile := tiles[y][x];
      Expected(tiles, cols, x * 2 + subX, y * 2 + subY) ==
      Texel(Low8((TruncMod(tile, cols) - 1) * 2 + subX), Low8(TruncDiv(tile, cols) * 2 + subY), 0, 255)
  {
    hide TruncMod, TruncDiv;
    assert (x * 2 + subX) / 2 == x && (y * 2 + subY) / 2 == y && (x * 2 + subX) % 2 == subX && (y * 2 + subY) % 2 == subY;
  }

  method WriteQuarter(buffer: array<Byte>, tiles: seq<seq<int>>, cols: int, texW: nat, texH: nat, x: nat, y: nat, subX: nat, subY: nat)
    requires TileBlocks.Rectangular(tiles) && cols > 0
    requires x < |tiles[0]| && y < |tiles| && 2 * |tiles[0]| <= texW && 2 * |tiles| <= texH && subX < 2 && subY < 2
    requires Written(buffer, tiles, cols, texW, texH, x, y, subY * 2 + subX)
    modifies buffer
    ensures Written(buffer, tiles, cols, texW, texH, x, y, subY * 2 + subX + 1)
  {
    hide Position, Reached, Expected, TruncMod, TruncDiv, Low8;
    var u0, v0 := x * 2 + subX, y * 2 + subY;
    NextReached(u0, v0, x, y, subX, subY);
    var tile := tiles[y][x];
    var tileX, tileY := TruncMod(tile, cols), TruncDiv(tile, cols);
    forall u: nat, v: nat | u < texW && v < texH
      ensures Position(u, v, texW) == Position(u0, v0, texW) <==> u == u0 && v == v0
      ensures Reached(u, v, x, y, subY * 2 + subX + 1) <==> Reached(u, v, x, y, subY * 2 + subX) || (u == u0 && v == v0)
    {
      PositionInjective(u, v, u0, v0, texW);
      NextReached(u, v, x, y, subX, subY);
    }
    QuarterExpected(tiles, cols, x, y, subX, subY);
    WriteTexel(buffer, Position(u0, v0, texW), (tileX - 1) * 2 + subX, tileY * 2 + subY);
  }

  lemma NothingWritten(buffer: array<Byte>, tiles: seq<seq<int>>, cols: int, texW: nat, texH: nat)
    requires TileBlocks.Rectangular(tiles) && cols > 0 && buffer.Length == texW * texH * 4
    requires forall k :: 0 <= k < buffer.Length ==> buffer[k] == 0
    ensures Written(buffer, tiles, cols, texW, texH, 0, 0, 0)
  {
    hide Position;
    forall u: nat, v: nat | u < texW && v < texH
      ensures 4 * Position(u, v, texW) + 3 < buffer.Length && TexelAt(buffer, Position(u, v, texW)) == BLANK
    {
      TexelFits(u, v, texW, texH);
    }
  }

  lemma TileWritten(buffer: array<Byte>, tiles: seq<seq<int>>, cols: int, texW: nat, texH: nat, x: nat, y: nat)
    requires TileBlocks.Rectangular(tiles) && cols > 0 && Written(buffer, tiles, cols, texW, texH, x, y, 4)
    ensures Written(buffer, tiles, cols, texW, texH, x + 1, y, 0)
  {
    hide Position, Expected;
    forall u: nat, v: nat
      ensures Reached(u, v, x, y, 4) <==> Reached(u, v, x + 1, y, 0)
    {
    }
  }

  lemma RowWritten(buffer: array<Byte>, tiles: seq<seq<int>>, cols: int, texW: nat, texH: nat, y: nat)
    requires TileBlocks.Rectangular(tiles) && cols > 0 && y < |tiles| && Written(buffer, tiles, cols, texW, texH, |tiles[0]|, y, 0)
    ensures Written(buffer, tiles, cols, texW, texH, 0, y + 1, 0)
  {
    hide Position;
    forall u: nat, v: nat
      ensures Reached(u, v, 0, y + 1, 0) && !Reached(u, v, |tiles[0]|, y, 0) ==> Expected(tiles, cols, u, v) == BLANK
      ensures Reached(u, v, |tiles[0]|, y, 0) ==> Reached(u, v, 0, y + 1, 0)
    {
    }
  }

  /** The buffer of a map: every texel is written at most once, none out of bounds,
      and each holds what it is to hold. */
  method TileBufferFromArray(tiles: seq<seq<int>>, texW: nat, texH: nat, cols: int) returns (buffer: array<Byte>)
    requires TileBlocks.Rectangular(tiles) && cols > 0 && 2 * |tiles[0]| <= texW && 2 * |tiles| <= texH
    ensures fresh(buffer) && buffer.Length == texW * texH * 4
    ensures Written(buffer, tiles, cols, texW, texH, 0, |tiles|, 0)
  {
    hide Written;
    var height, width := |tiles|, |tiles[0]|;
    buffer := new Byte[texW * texH * 4](_ => 0);
    NothingWritten(buffer, tiles, cols, texW, texH);
    for y := 0 to height
      invariant Written(buffer, tiles, cols, texW, texH, 0, y, 0)
    {
      for x := 0 to width
        invariant Written(buffer, tiles, cols, texW, texH, x, y, 0)
      {
        for subY := 0 to 2
          invariant Written(buffer, tiles, cols, texW, texH, x, y, subY * 2)
        {
          for subX := 0 to 2
            invariant Written(buffer, tiles, cols, texW, texH, x, y, subY * 2 + subX)
          {
            WriteQuarter(buffer, tiles, cols, texW, texH, x, y, subX, subY);
          }
        }
        TileWritten(buffer, tiles, cols, texW, texH, x, y);
      }
      RowWritten(buffer, tiles, cols, texW, texH, y);
    }
  }

  lemma AllExpected(buffer: array<Byte>, tiles: seq<seq<int>>, cols: int, texW: nat, texH: nat)
    requires TileBlocks.Rectangular(tiles) && cols > 0 && Written(buffer, tiles, cols, texW, texH, 0, |tiles|, 0)
    ensures forall u: nat, v: nat :: u < texW && v < texH ==>
              4 * Position(u, v, texW) + 3 < buffer.Length &&
              TexelAt(buffer, Position(u, v, texW)) == Expected(tiles, cols, u, v)
  {
    hide Position;
    forall u: nat, v: nat | !Reached(u, v, 0, |tiles|, 0)
      ensures Expected(tiles, cols, u, v) == BLANK
    {
    }
  }

  /** The texture of a map: the least power-of-two sides that hold two texels a tile. */
  method CreateTexture(tiles: seq<seq<int>>, cols: int) returns (texW: nat, texH: nat, buffer: array<Byte>)
    requires TileBlocks.Rectangular(tiles) && cols > 0
    ensures IsPowerOf2(texW) && IsPowerOf2(texH) && 2 * |tiles[0]| <= texW && 2 * |tiles| <= texH
    ensures forall p: nat :: IsPowerOf2(p) ==> (2 * |tiles[0]| <= p ==> texW <= p) && (2 * |tiles| <= p ==> texH <= p)
    ensures forall u: nat, v: nat :: u < texW && v < texH ==>
              4 * Position(u, v, texW) + 3 < buffer.Length &&
              TexelAt(buffer, Position(u, v, texW)) == Expected(tiles, cols, u, v)
  {
    hide Written, Position;
    texW := NearestPowerOf2(|tiles[0]| * 2);
    texH := NearestPowerOf2(|tiles| * 2);
    buffer := TileBufferFromArray(tiles, texW, texH, cols);
    AllExpected(buffer, tiles, cols, texW, texH);
  }

  /** Counting tiles from 1, the texel names the tile's own quarter if and only if the
      tile is not in the tileset's last column and neither its column nor its row
      is too far for a byte of half-tile steps. */
  lemma NamesTileIff(tile: int, cols: int, u: nat, v: nat)
    requires tile >= 1 && cols >= 1
    ensures var t := TileTexel(tile, cols, u, v);
      t.r as int == (tile - 1) % cols * 2 + u % 2 && t.g as int == (tile - 1) / cols * 2 + v % 2
      <==> tile % cols != 0 && (tile - 1) % cols < 128 && (tile - 1) / cols < 128
  {
    hide TileTexel, Low8;
    QuarterOfTile(tile, cols, u, v);
    CountOn(tile - 1, cols);
    LowBytes(tile % cols, tile / cols, (tile - 1) % cols, (tile - 1) / cols, u % 2, v % 2);
  }

  /** So in the texture of a map the two by two texels of cell (x, y) name the quarters of
      its tile under the same condition, and are opaque. */
  lemma CellNamesTileIff(tiles: seq<seq<int>>, cols: int, x: nat, y: nat, qx: nat, qy: nat)
    requires TileBlocks.Rectangular(tiles) && cols >= 1 && x < |tiles[0]| && y < |tiles| && tiles[y][x] >= 1 && qx < 2 && qy < 2
    ensures var t, n := Expected(tiles, cols, 2 * x + qx, 2 * y + qy), tiles[y][x] - 1;
      && t.a == 255
      && (t.r as int == n % cols * 2 + qx && t.g as int == n / cols * 2 + qy
          <==> (n + 1) % cols != 0 && n % cols < 128 && n / cols < 128)
  {
    hide TileTexel;
    var u, v := 2 * x + qx, 2 * y + qy;
    assert u / 2 == x && v / 2 == y && u % 2 == qx && v % 2 == qy;
    NamesTileIff(tiles[y][x], cols, u, v);
    QuarterOfTile(tiles[y][x], cols, u, v);
  }

  lemma QuarterOfTile(tile: nat, cols: int, u: nat, v: nat)
    requires cols >= 1
    ensures TileTexel(tile, cols, u, v) ==
            Texel(Low8((tile % cols - 1) * 2 + u % 2), Low8(tile / cols * 2 + v % 2), 0, 255)
  {
    hide TruncDiv, TruncMod, Low8;
    TruncPositive(tile, cols);
  }

  lemma LowBytes(r: nat, q: nat, c: nat, w: nat, a: nat, b: nat)
    requires a < 2 && b < 2 && if r != 0 then c == r - 1 && w == q else w == q - 1
    ensures Low8((r - 1) * 2 + a) as int == c * 2 + a && Low8(q * 2 + b) as int == w * 2 + b
            <==> r != 0 && c < 128 && w < 128
  {
  }
}
