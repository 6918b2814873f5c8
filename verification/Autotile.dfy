// From map cells of 16 by 16 pixels to the 8 by 8 subtiles of a TileMap2
// (client-svelte/src/lib/client/game/autotilemap/autotilemap.js).
module Autotile {
  import opened TileBlocks

  type Mask = bv8

  const TOP_LEFT: Mask := 1
  const TOP: Mask := 2
  const TOP_RIGHT: Mask := 4
  const RIGHT: Mask := 8
  const BOTTOM_RIGHT: Mask := 16
  const BOTTOM: Mask := 32
  const BOTTOM_LEFT: Mask := 64
  const LEFT: Mask := 128

  predicate On(b: Mask, mask: Mask) {
    b & mask == mask
  }

  predicate Off(b: Mask, mask: Mask) {
    b & mask == 0
  }

  // --------------------------------------------------- where tiles start

  datatype Cell = Cell(x: int, y: int)

  /** A chipset cell as one number, rows of 60. */
  function ChipsetPos(c: Cell): int {
    c.y * 60 + c.x
  }

  const WATER_TILES := 3
  const FIRST_AUTOTILE := 6
  const FIRST_PLAIN := 18
  const SECOND_PLAIN := 114
  const BASE_TILES := 162

  /** The cell the four quadrants of a base tile start from. */
  function BaseCell(tile: int): Cell
    requires 0 <= tile < BASE_TILES
  {
    if tile < 3 then Cell(0, 4)
    else if tile < 6 then Cell(tile, 5)
    else if tile < 10 then Cell(1 + (tile - 6) % 2 * 3, 10 + (tile - 6) / 2 * 4)
    else if tile < 18 then Cell(7 + (tile - 10) % 2 * 3, 2 + (tile - 10) / 2 * 4)
    else if tile < SECOND_PLAIN then Cell(12 + (tile - FIRST_PLAIN) % 6, (tile - FIRST_PLAIN) / 6)
    else Cell(20 + (tile - SECOND_PLAIN) % 6, (tile - SECOND_PLAIN) / 6)
  }

  /** The position table: a list of constants followed by two computed stretches. */
  method ChipsetPosBase() returns (table: seq<int>)
    ensures |table| == BASE_TILES && forall t :: 0 <= t < BASE_TILES ==> table[t] == ChipsetPos(BaseCell(t)) && table[t] > 0
  {
    table := [
      ChipsetPos(Cell(0, 4)), ChipsetPos(Cell(0, 4)), ChipsetPos(Cell(0, 4)),
      ChipsetPos(Cell(3, 5)), ChipsetPos(Cell(4, 5)), ChipsetPos(Cell(5, 5)),
      ChipsetPos(Cell(1, 10)), ChipsetPos(Cell(4, 10)), ChipsetPos(Cell(1, 14)), ChipsetPos(Cell(4, 14)),
      ChipsetPos(Cell(7, 2)), ChipsetPos(Cell(10, 2)), ChipsetPos(Cell(7, 6)), ChipsetPos(Cell(10, 6)),
      ChipsetPos(Cell(7, 10)), ChipsetPos(Cell(10, 10)), ChipsetPos(Cell(7, 14)), ChipsetPos(Cell(10, 14))];
    for n := 0 to 96
      invariant |table| == FIRST_PLAIN + n
      invariant forall t :: 0 <= t < |table| ==> table[t] == ChipsetPos(BaseCell(t)) && table[t] > 0
    {
      table := table + [ChipsetPos(Cell(12 + n % 6, n / 6))];
    }
    for n := 0 to 48
      invariant |table| == SECOND_PLAIN + n
      invariant forall t :: 0 <= t < |table| ==> table[t] == ChipsetPos(BaseCell(t)) && table[t] > 0
    {
      table := table + [ChipsetPos(Cell(20 + n % 6, n / 6))];
    }
  }

  predicate IsPlain(t: int) {
    0 < t < BASE_TILES && !IsWater(t) && !IsAutotile(t)
  }

  predicate IsWater(t: int) { 0 <= t <= 2 }
  predicate IsAutotile(t: int) { 6 <= t < 6 + 12 }

  /** The cells a tile is drawn from: a block of 3 by 4 of an autotile, one of a plain tile. */
  predicate DrawnFrom(t: int, c: Cell)
    requires 0 <= t < BASE_TILES
  {
    var b := BaseCell(t);
    if IsAutotile(t) then b.x - 1 <= c.x <= b.x + 1 && b.y - 2 <= c.y <= b.y + 1 else c == b
  }

  /** No two tiles but water are drawn from one cell of the chipset. */
  lemma TilesShareNoCell(t: int, u: int, c: Cell)
    requires 3 <= t < BASE_TILES && 3 <= u < BASE_TILES && DrawnFrom(t, c) && DrawnFrom(u, c)
    ensures t == u && 0 <= c.x < 30 && 0 <= c.y
  {
    if IsPlain(t) && IsPlain(u) {
      PlainApart(t, u);
    } else if IsAutotile(t) && IsAutotile(u) {
      BlocksApart(t, u, c);
    } else if IsPlain(t) {
      PlainOutside(t, u);
    } else {
      PlainOutside(u, t);
    }
  }

  lemma PlainApart(t: int, u: int)
    requires IsPlain(t) && IsPlain(u) && BaseCell(t) == BaseCell(u)
    ensures t == u && 0 <= BaseCell(t).x < 30 && 0 <= BaseCell(t).y
  {
  }

  lemma BlocksApart(t: int, u: int, c: Cell)
    requires IsAutotile(t) && IsAutotile(u) && DrawnFrom(t, c) && DrawnFrom(u, c)
    ensures t == u && 0 <= c.x < 30 && 0 <= c.y
  {
    hide BaseCell;
    BlockPlace(t);
    BlockPlace(u);
  }

  /** The plain tiles from 18 and from 114 on are the cells right of column 12, or 20, row
      by row, six to a row. */
  lemma PlainPlace(row: nat, k: nat)
    requires k < 6
    ensures row < 16 ==> BaseCell(18 + 6 * row + k) == Cell(12 + k, row)
    ensures row < 8 ==> BaseCell(114 + 6 * row + k) == Cell(20 + k, row)
  {
    SixToARow(row, k);
  }

  lemma SixToARow(row: nat, k: nat)
    requires k < 6
    ensures (6 * row + k) / 6 == row && (6 * row + k) % 6 == k
  {
  }

  /** The autotiles are the blocks around these cells, two to a row of blocks. */
  lemma BlockPlace(t: int)
    requires IsAutotile(t)
    ensures var c := BaseCell(t);
      if t < 10 then c.x in {1, 4} && c.y in {10, 14} && t == 6 + c.x / 4 + (c.y - 10) / 2
      else c.x in {7, 10} && c.y in {2, 6, 10, 14} && t == 10 + (c.x - 7) / 3 + (c.y - 2) / 2
  {
  }

  lemma PlainOutside(t: int, u: int)
    requires IsPlain(t) && IsAutotile(u)
    ensures !DrawnFrom(u, BaseCell(t))
  {
  }

  // ----------------------------------------- which quadrant of an autotile

  // Quadrants: A top left, B top right, C bottom right, D bottom left.

  function SubtileA(b: Mask): int {
    if On(b, LEFT | TOP) && Off(b, TOP_LEFT) then 2 - 4 * 60
    else
      var x := if On(b, LEFT) then if On(b, RIGHT) then 0 else 2 else -2;
      var y := if On(b, TOP) then if On(b, BOTTOM) then 0 else 2 else -2;
      x + y * 60
  }

  function SubtileB(b: Mask): int {
    if On(b, RIGHT | TOP) && Off(b, TOP_RIGHT) then 2 - 4 * 60
    else
      var x := if On(b, RIGHT) then if On(b, LEFT) then 0 else -2 else 2;
      var y := if On(b, TOP) then if On(b, BOTTOM) then 0 else 2 else -2;
      x + y * 60
  }

  function SubtileC(b: Mask): int {
    if On(b, RIGHT | BOTTOM) && Off(b, BOTTOM_RIGHT) then 2 - 4 * 60
    else
      var x := if On(b, RIGHT) then if On(b, LEFT) then 0 else -2 else 2;
      var y := if On(b, BOTTOM) then if On(b, TOP) then 0 else -2 else 2;
      x + y * 60
  }

  function SubtileD(b: Mask): int {
    if On(b, LEFT | BOTTOM) && Off(b, BOTTOM_LEFT) then 2 - 4 * 60
    else
      var x := if On(b, LEFT) then if On(b, RIGHT) then 0 else 2 else -2;
      var y := if On(b, BOTTOM) then if On(b, TOP) then 0 else -2 else 2;
      x + y * 60
  }

  // ---------------------------------------------------------- the expander

  type TileNumber = t: int | 0 <= t < 256

  /** The table entry a base tile is drawn from; 0 for tile 0 and unknown tiles. */
  function Base(t: TileNumber): int {
    if 0 < t < BASE_TILES then ChipsetPos(BaseCell(t)) else 0
  }

  /** The number TileMap2 gets for quadrant (qx, qy) of a cell. */
  function Quadrant(t: TileNumber, mask: Mask, qx: int, qy: int): int {
    1 + Base(t) * 2 + qx + 60 * qy
    + if IsWater(t) || IsAutotile(t) then Shift(mask, qx, qy) else 0
  }

  function Shift(mask: Mask, qx: int, qy: int): int {
    if qy == 0 then if qx == 0 then SubtileA(mask) else SubtileB(mask)
    else if qx == 0 then SubtileD(mask) else SubtileC(mask)
  }

  datatype Grid = Grid(width: nat, height: nat, tiles: seq<seq<TileNumber>>, masks: seq<seq<Mask>>)

  ghost predicate WellFormed(g: Grid) {
    && |g.tiles| == g.height && |g.masks| == g.height
    && forall y :: 0 <= y < g.height ==> |g.tiles[y]| == g.width && |g.masks[y]| == g.width
  }

  /** Looks every tile up and marks those that have a mask. */
  method LookUp(g: Grid) returns (base_map: array2<int>, base_autotiles: array2<int>)
    requires WellFormed(g)
    ensures base_map.Length0 == base_autotiles.Length0 == g.height && base_map.Length1 == base_autotiles.Length1 == g.width
    ensures forall y, x :: 0 <= y < g.height && 0 <= x < g.width ==>
              && base_map[y, x] == Base(g.tiles[y][x])
              && base_autotiles[y, x] == if IsWater(g.tiles[y][x]) || IsAutotile(g.tiles[y][x]) then 1 else 0
  {
    var table := ChipsetPosBase();
    base_map := new int[g.height, g.width]((i, j) => 0);
    base_autotiles := new int[g.height, g.width]((i, j) => 0);
    for row := 0 to g.height
      invariant forall y, x :: 0 <= y < row && 0 <= x < g.width ==> base_map[y, x] == Base(g.tiles[y][x])
      invariant forall y, x :: row <= y < g.height && 0 <= x < g.width ==>
                  base_map[y, x] == 0 && base_autotiles[y, x] == 0
      invariant forall y, x :: 0 <= y < row && 0 <= x < g.width ==>
                  base_autotiles[y, x] == if IsWater(g.tiles[y][x]) || IsAutotile(g.tiles[y][x]) then 1 else 0
    {
      for col := 0 to g.width
        invariant forall y, x :: 0 <= y < g.height && 0 <= x < g.width && Before(x, y, col, row) ==>
                    base_map[y, x] == Base(g.tiles[y][x])
        invariant forall y, x :: 0 <= y < g.height && 0 <= x < g.width && !Before(x, y, col, row) ==>
                    base_map[y, x] == 0 && base_autotiles[y, x] == 0
        invariant forall y, x :: 0 <= y < g.height && 0 <= x < g.width && Before(x, y, col, row) ==>
                    base_autotiles[y, x] == if IsWater(g.tiles[y][x]) || IsAutotile(g.tiles[y][x]) then 1 else 0
      {
        var tile := g.tiles[row][col];
        if tile > 0 && tile < |table| && table[tile] != 0 {
          base_map[row, col] := table[tile];
        }
        if IsWater(tile) || IsAutotile(tile) {
          base_autotiles[row, col] := 1;
        }
      }
    }
  }

  /** The two passes of the loader over the base layer: look every tile up, then
      write the four quadrants of every cell. */
  method ExpandBase(g: Grid) returns (subtiles: array2<int>)
    requires WellFormed(g)
    ensures subtiles.Length0 == 2 * g.height && subtiles.Length1 == 2 * g.width
    ensures forall v, u :: 0 <= v < 2 * g.height && 0 <= u < 2 * g.width ==>
              subtiles[v, u] == Quadrant(g.tiles[v / 2][u / 2], g.masks[v / 2][u / 2], u % 2, v % 2)
  {
    hide Quadrant, Base;
    var base_map, base_autotiles := LookUp(g);
    subtiles := new int[2 * g.height, 2 * g.width]((i, j) => 0);
    for y := 0 to g.height
      modifies subtiles
      invariant forall v, u :: 0 <= v < 2 * y && 0 <= u < 2 * g.width ==>
                  subtiles[v, u] == Quadrant(g.tiles[v / 2][u / 2], g.masks[v / 2][u / 2], u % 2, v % 2)
    {
      for x := 0 to g.width
        modifies subtiles
        invariant forall v, u :: 0 <= v < 2 * g.height && 0 <= u < 2 * g.width && Before(u / 2, v / 2, x, y) ==>
                    subtiles[v, u] == Quadrant(g.tiles[v / 2][u / 2], g.masks[v / 2][u / 2], u % 2, v % 2)
      {
        WriteCell(subtiles, g.tiles[y][x], g.masks[y][x], base_map[y, x], base_autotiles[y, x], x, y);
      }
    }
  }

  /** Writes the four quadrants of cell (x, y), then shifts those of an autotile. */
  method WriteCell(subtiles: array2<int>, ghost tile: TileNumber, mask: Mask, base: int, autotile: int, x: nat, y: nat)
    requires 2 * y + 1 < subtiles.Length0 && 2 * x + 1 < subtiles.Length1
    requires base == Base(tile) && autotile == if IsWater(tile) || IsAutotile(tile) then 1 else 0
    modifies subtiles
    ensures forall v, u :: 0 <= v < subtiles.Length0 && 0 <= u < subtiles.Length1 ==>
              subtiles[v, u] == if v / 2 == y && u / 2 == x then Quadrant(tile, mask, u % 2, v % 2) else old(subtiles[v, u])
  {
    hide SubtileA, SubtileB, SubtileC, SubtileD, Base;
    subtiles[y * 2, x * 2] := 1 + base * 2;
    subtiles[y * 2, x * 2 + 1] := 2 + base * 2;
    subtiles[y * 2 + 1, x * 2 + 1] := 62 + base * 2;
    subtiles[y * 2 + 1, x * 2] := 61 + base * 2;
    if autotile == 1 {
      subtiles[y * 2, x * 2] := subtiles[y * 2, x * 2] + SubtileA(mask);
      subtiles[y * 2, x * 2 + 1] := subtiles[y * 2, x * 2 + 1] + SubtileB(mask);
      subtiles[y * 2 + 1, x * 2 + 1] := subtiles[y * 2 + 1, x * 2 + 1] + SubtileC(mask);
      subtiles[y * 2 + 1, x * 2] := subtiles[y * 2 + 1, x * 2] + SubtileD(mask);
    }
  }

  // -------------------------------------------------- what the cells show

  /** How TileMap2 takes a tile number apart. */
  function Column(n: int): int { (n - 1) % COLUMNS }
  function Row(n: int): int { (n - 1) / COLUMNS }

  lemma SplitNumber(n: int, row: int, column: int)
    requires n - 1 == row * COLUMNS + column && 0 <= column < COLUMNS
    ensures Column(n) == column && Row(n) == row
  {
  }

  /** The four quadrants of a plain tile are the four quarters of its chipset cell. */
  lemma PlainQuadrant(t: TileNumber, mask: Mask, qx: int, qy: int)
    requires IsPlain(t) && 0 <= qx < 2 && 0 <= qy < 2
    ensures var n := Quadrant(t, mask, qx, qy);
            n >= 1 && Column(n) == 2 * BaseCell(t).x + qx && Row(n) == 2 * BaseCell(t).y + qy
  {
    var c := BaseCell(t);
    assert 0 <= c.x <= 25 && 0 <= c.y <= 15;
    SplitNumber(Quadrant(t, mask, qx, qy), 2 * c.y + qy, 2 * c.x + qx);
  }

  /** The shift of a quadrant, in subtiles, is a whole number of cells each way. */
  lemma ShiftStays(b: Mask, qx: int, qy: int) returns (dx: int, dy: int)
    requires 0 <= qx < 2 && 0 <= qy < 2
    ensures Shift(b, qx, qy) == dx + dy * COLUMNS
    ensures dx % 2 == 0 && dy % 2 == 0 && -2 <= dx && dx + qx < 4 && -4 <= dy && dy + qy < 4
  {
    var left, right, top, bottom := On(b, LEFT), On(b, RIGHT), On(b, TOP), On(b, BOTTOM);
    dx := if qx == 0 then if left then if right then 0 else 2 else -2 else if right then if left then 0 else -2 else 2;
    dy := if qy == 0 then if top then if bottom then 0 else 2 else -2 else if bottom then if top then 0 else -2 else 2;
    if Shift(b, qx, qy) != dx + dy * COLUMNS {
      dx, dy := 2, -4;
    }
  }

  /** A shift within the block moves the quadrant by as many subtiles each way. */
  lemma ShiftedQuadrant(t: TileNumber, mask: Mask, qx: int, qy: int, dx: int, dy: int)
    requires IsAutotile(t) && 0 <= qx < 2 && 0 <= qy < 2
    requires Shift(mask, qx, qy) == dx + dy * 60 && -2 <= dx <= 2 && -4 <= dy <= 2
    ensures var n, c := Quadrant(t, mask, qx, qy), BaseCell(t);
      n >= 1 && Column(n) == 2 * c.x + qx + dx && Row(n) == 2 * c.y + qy + dy
  {
    hide Shift, Column, Row;
    var c := BaseCell(t);
    assert 1 <= c.x <= 10 && 2 <= c.y <= 14;
    SplitNumber(Quadrant(t, mask, qx, qy), 2 * c.y + qy + dy, 2 * c.x + qx + dx);
  }

  /** A quadrant of an autotile never leaves the tile's own block of 3 by 4
      chipset cells, and is the same quarter of the cell it is taken from. */
  lemma AutotileQuadrant(t: TileNumber, mask: Mask, qx: int, qy: int)
    requires IsAutotile(t) && 0 <= qx < 2 && 0 <= qy < 2
    ensures var n, left, top := Quadrant(t, mask, qx, qy), BaseCell(t).x - 1, BaseCell(t).y - 2;
            && n >= 1
            && 2 * left <= Column(n) < 2 * left + 6 && 2 * top <= Row(n) < 2 * top + 8
            && Column(n) % 2 == qx && Row(n) % 2 == qy
  {
    hide Shift, Column, Row;
    var dx, dy := ShiftStays(mask, qx, qy);
    var c := BaseCell(t);
    assert 1 <= c.x <= 10 && 2 <= c.y <= 14;
    SplitNumber(Quadrant(t, mask, qx, qy), 2 * c.y + qy + dy, 2 * c.x + qx + dx);
  }

  /** Both sides a right quadrant faces continue the tile and the corner does not. */
  predicate InnerRight(mask: Mask, qy: int) {
    if qy == 0 then On(mask, RIGHT | TOP) && Off(mask, TOP_RIGHT) else On(mask, RIGHT | BOTTOM) && Off(mask, BOTTOM_RIGHT)
  }

  /** Where a water tile's quadrant is drawn at all, it is drawn from the first six
      columns if and only if the left bit is set, or it is a right quadrant whose
      right bit is not or that is an inner corner; otherwise it wraps to the end of
      the row above. Tile 0 is water too, but starts from number 1: what falls above
      the first row is not drawn. */
  lemma WaterQuadrantWraps(t: TileNumber, mask: Mask, qx: int, qy: int)
    requires IsWater(t) && 0 <= qx < 2 && 0 <= qy < 2
    ensures var n := Quadrant(t, mask, qx, qy);
      && (t > 0 ==> n >= 1)
      && (n >= 1 ==> (Column(n) < 6 <==> On(mask, LEFT) || (qx == 1 && (!On(mask, RIGHT) || InnerRight(mask, qy)))))
  {
    hide Shift, On, Off, Column, Row;
    var dx, dy := ShiftOfWater(mask, qx, qy);
    var first := if t == 0 then 0 else 240;
    assert Base(t) * 2 == first * 2 by {
      assert t > 0 ==> BaseCell(t) == Cell(0, 4);
    }
    var n := Quadrant(t, mask, qx, qy);
    assert n == 1 + first * 2 + qx + 60 * qy + dx + dy * 60;
    if qx + dx >= 0 {
      SplitNumber(n, first / 30 + qy + dy, qx + dx);
    } else {
      SplitNumber(n, first / 30 + qy + dy - 1, qx + dx + 60);
    }
  }

  /** The shift of a quadrant goes left of where its tile starts just when the left
      neighbour is not water and the quadrant is not drawn as a right border. */
  lemma ShiftOfWater(b: Mask, qx: int, qy: int) returns (dx: int, dy: int)
    requires 0 <= qx < 2 && 0 <= qy < 2
    ensures Shift(b, qx, qy) == dx + dy * 60 && dx in {-2, 0, 2} && -4 <= dy <= 2
    ensures dx == -2 <==> !(On(b, LEFT) || (qx == 1 && (!On(b, RIGHT) || InnerRight(b, qy))))
  {
    assert On(b, LEFT | TOP) ==> On(b, LEFT);
    assert On(b, LEFT | BOTTOM) ==> On(b, LEFT);
    hide On, Off;
    var left, right, top, bottom := On(b, LEFT), On(b, RIGHT), On(b, TOP), On(b, BOTTOM);
    dx := if qx == 0 then if left then if right then 0 else 2 else -2 else if right then if left then 0 else -2 else 2;
    dy := if qy == 0 then if top then if bottom then 0 else 2 else -2 else if bottom then if top then 0 else -2 else 2;
    if (qx == 0 && qy == 0 && On(b, LEFT | TOP) && Off(b, TOP_LEFT)) || (qx == 0 && qy == 1 && On(b, LEFT | BOTTOM) && Off(b, BOTTOM_LEFT))
       || (qx == 1 && InnerRight(b, qy)) {
      dx, dy := 2, -4;
    }
  }

  /** A water tile other than 0 is drawn from its own columns as a whole if and only if
      its left bit is set. */
  lemma WaterWholeIff(t: TileNumber, mask: Mask)
    requires 1 <= t <= 2
    ensures (forall qx, qy :: 0 <= qx < 2 && 0 <= qy < 2 ==> Column(Quadrant(t, mask, qx, qy)) < 6) <==> On(mask, LEFT)
  {
    hide Quadrant, Column, InnerRight;
    forall qx, qy | 0 <= qx < 2 && 0 <= qy < 2
      ensures Column(Quadrant(t, mask, qx, qy)) < 6
              <==> On(mask, LEFT) || (qx == 1 && (!On(mask, RIGHT) || InnerRight(mask, qy)))
    {
      WaterQuadrantWraps(t, mask, qx, qy);
    }
    assert Column(Quadrant(t, mask, 0, 0)) < 6 <==> On(mask, LEFT);
  }

  /** The subtile map of a grid, as the expander leaves it. */
  ghost predicate Expanded(g: Grid, subtiles: Tiles) {
    && WellFormed(g) && |subtiles| == 2 * g.height
    && (forall v :: 0 <= v < |subtiles| ==> |subtiles[v]| == 2 * g.width)
    && forall v, u :: 0 <= v < 2 * g.height && 0 <= u < 2 * g.width ==>
         subtiles[v][u] == Quadrant(g.tiles[v / 2][u / 2], g.masks[v / 2][u / 2], u % 2, v % 2)
  }

  /** The subtile map the base layer is drawn from. */
  method BaseLayer(g: Grid) returns (subtiles: Tiles)
    requires WellFormed(g)
    ensures Expanded(g, subtiles)
  {
    hide Quadrant;
    var cells := ExpandBase(g);
    subtiles := [];
    for v := 0 to 2 * g.height
      invariant |subtiles| == v
      invariant forall y :: 0 <= y < v ==> |subtiles[y]| == 2 * g.width
      invariant forall y, x :: 0 <= y < v && 0 <= x < 2 * g.width ==> subtiles[y][x] == cells[y, x]
    {
      var row := seq(2 * g.width, x requires 0 <= x < 2 * g.width reads cells => cells[v, x]);
      subtiles := subtiles + [row];
    }
  }

  function SourceAt(source: Texture, x: int, y: int): Pixel {
    if Inside(source, x, y) then source[y][x] else BLANK
  }

  lemma DrawnSubtile(g: Grid, subtiles: Tiles, source: Texture, px: nat, py: nat)
    requires Expanded(g, subtiles) && px < 16 * g.width && py < 16 * g.height
    ensures var n := Quadrant(g.tiles[py / 16][px / 16], g.masks[py / 16][px / 16], px / 8 % 2, py / 8 % 2);
            n >= 1 ==> Drawn(subtiles, source, px, py) == SourceAt(source, Column(n) * 8 + px % 8, Row(n) * 8 + py % 8)
  {
    var u, v := px / 8, py / 8;
    assert u / 2 == px / 16 && v / 2 == py / 16;
    assert subtiles[v][u] == Quadrant(g.tiles[v / 2][u / 2], g.masks[v / 2][u / 2], u % 2, v % 2);
  }

  /** End to end: every pixel of a plain cell is the pixel at the same place of
      the tile's chipset cell. */
  lemma PlainCellPixels(g: Grid, subtiles: Tiles, source: Texture, px: nat, py: nat)
    requires Expanded(g, subtiles) && px < 16 * g.width && py < 16 * g.height && IsPlain(g.tiles[py / 16][px / 16])
    ensures var c := BaseCell(g.tiles[py / 16][px / 16]);
            Drawn(subtiles, source, px, py) == SourceAt(source, 16 * c.x + px % 16, 16 * c.y + py % 16)
  {
    hide Quadrant, BaseCell, Drawn, SourceAt, Column, Row;
    var t, mask := g.tiles[py / 16][px / 16], g.masks[py / 16][px / 16];
    var n, c := Quadrant(t, mask, px / 8 % 2, py / 8 % 2), BaseCell(t);
    DrawnSubtile(g, subtiles, source, px, py);
    PlainQuadrant(t, mask, px / 8 % 2, py / 8 % 2);
    CellPixel(Column(n), c.x, px);
    CellPixel(Row(n), c.y, py);
  }

  lemma CellPixel(column: int, x: int, p: nat)
    requires column == 2 * x + p / 8 % 2
    ensures column * 8 + p % 8 == 16 * x + p % 16
  {
    assert p % 16 == p / 8 % 2 * 8 + p % 8;
  }

  /** End to end: every pixel of an autotile cell comes from the autotile's own 48
      by 64 pixels, from the same place of some cell of it. */
  lemma AutotileCellPixels(g: Grid, subtiles: Tiles, source: Texture, px: nat, py: nat) returns (sx: int, sy: int)
    requires Expanded(g, subtiles) && px < 16 * g.width && py < 16 * g.height && IsAutotile(g.tiles[py / 16][px / 16])
    ensures var c := BaseCell(g.tiles[py / 16][px / 16]);
            16 * (c.x - 1) <= sx < 16 * (c.x + 2) && 16 * (c.y - 2) <= sy < 16 * (c.y + 2)
    ensures sx % 16 == px % 16 && sy % 16 == py % 16
    ensures Drawn(subtiles, source, px, py) == SourceAt(source, sx, sy)
  {
    hide Quadrant, BaseCell, Drawn, SourceAt, Column, Row;
    var t, mask := g.tiles[py / 16][px / 16], g.masks[py / 16][px / 16];
    var n := Quadrant(t, mask, px / 8 % 2, py / 8 % 2);
    DrawnSubtile(g, subtiles, source, px, py);
    AutotileQuadrant(t, mask, px / 8 % 2, py / 8 % 2);
    SubtilePixel(Column(n), BaseCell(t).x - 1, 3, px);
    SubtilePixel(Row(n), BaseCell(t).y - 2, 4, py);
    sx, sy := Column(n) * 8 + px % 8, Row(n) * 8 + py % 8;
  }

  lemma SubtilePixel(column: int, left: int, cells: int, p: nat)
    requires 2 * left <= column < 2 * left + 2 * cells && column % 2 == p / 8 % 2
    ensures 16 * left <= column * 8 + p % 8 < 16 * (left + cells) && (column * 8 + p % 8) % 16 == p % 16
  {
    CellPixel(column, column / 2, p);
    assert (16 * (column / 2) + p % 16) % 16 == p % 16;
  }
}
