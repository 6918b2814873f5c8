// The neighbour bitmask of a map cell (server/autotilemap/autotilemap.go): one
// bit for each of the eight neighbours holding the same tile.
module Bitmask {
  import opened Array2D

  datatype Direction = TopLeft | Top | TopRight | Right | BottomRight | Bottom | BottomLeft | Left
  {
    function Bit(): bv8 {
      match this
      case TopLeft => 0x01
      case Top => 0x02
      case TopRight => 0x04
      case Right => 0x08
      case BottomRight => 0x10
      case Bottom => 0x20
      case BottomLeft => 0x40
      case Left => 0x80
    }

    function Dx(): int {
      if this.TopLeft? || this.Left? || this.BottomLeft? then -1
      else if this.TopRight? || this.Right? || this.BottomRight? then 1
      else 0
    }

    function Dy(): int {
      if this.TopLeft? || this.Top? || this.TopRight? then -1
      else if this.BottomLeft? || this.Bottom? || this.BottomRight? then 1
      else 0
    }

    function Opposite(): Direction {
      match this
      case TopLeft => BottomRight
      case Top => Bottom
      case TopRight => BottomLeft
      case Right => Left
      case BottomRight => TopLeft
      case Bottom => Top
      case BottomLeft => TopRight
      case Left => Right
    }
  }

  /** The tiles of a map as a value. */
  datatype Grid = Grid(width: nat, height: nat, cells: seq<int>)
  {
    ghost predicate Valid() {
      |cells| == width * height
    }

    predicate Inside(x: int, y: int) {
      0 <= x < width && 0 <= y < height
    }

    function At(x: int, y: int): int
      requires Valid() && Inside(x, y)
    {
      PositionInRange(x, y, width, height);
      cells[Position(x, y, width)]
    }

    function With(x: int, y: int, tile: int): Grid
      requires Valid() && Inside(x, y)
    {
      PositionInRange(x, y, width, height);
      this.(cells := cells[Position(x, y, width) := tile])
    }

    /** The neighbour in direction d counts as the same tile: it is, or it is off the map. */
    predicate Joins(x: int, y: int, d: Direction)
      requires Valid() && Inside(x, y)
    {
      Inside(x + d.Dx(), y + d.Dy()) ==> At(x + d.Dx(), y + d.Dy()) == At(x, y)
    }

    /** Bit d of the mask says whether the neighbour in direction d joins;
        the mask of a place off the map is 0. */
    ghost predicate IsMask(x: int, y: int, mask: bv8)
      requires Valid()
    {
      forall d: Direction :: mask & d.Bit() != 0 <==> Inside(x, y) && Joins(x, y, d)
    }
  }

  ghost function GridOf(tiles: Array2D<int>): (g: Grid)
    requires tiles.Valid()
    reads tiles.cells
    ensures g.Valid()
  {
    Grid(tiles.width, tiles.height, tiles.cells[..])
  }

  lemma JoinsByGet(tiles: Array2D<int>, x: int, y: int, d: Direction)
    requires tiles.Valid() && tiles.InBounds(x, y)
    ensures GridOf(tiles).Joins(x, y, d) <==>
            !tiles.InBounds(x + d.Dx(), y + d.Dy()) || tiles.Get(x + d.Dx(), y + d.Dy()) == tiles.Get(x, y)
  {
    hide Position;
    PositionInRange(x, y, tiles.width, tiles.height);
    if tiles.InBounds(x + d.Dx(), y + d.Dy()) {
      PositionInRange(x + d.Dx(), y + d.Dy(), tiles.width, tiles.height);
    }
  }

  /** The order in which the neighbours are looked at. */
  function Turn(d: Direction): nat {
    match d
    case Left => 0
    case TopLeft => 1
    case Top => 2
    case TopRight => 3
    case Right => 4
    case BottomRight => 5
    case Bottom => 6
    case BottomLeft => 7
  }

  /** Of the directions looked at, the mask has the bits of those that join. */
  ghost predicate Marked(tiles: Array2D<int>, x: int, y: int, mask: bv8, turns: nat)
    requires tiles.Valid() && tiles.InBounds(x, y)
    reads tiles.cells
  {
    forall d: Direction :: mask & d.Bit() != 0 <==> Turn(d) < turns && GridOf(tiles).Joins(x, y, d)
  }

  function WithBit(mask: bv8, d: Direction): bv8 {
    mask | d.Bit()
  }

  lemma BitAdded(mask: bv8, e: Direction, d: Direction)
    ensures WithBit(mask, e) & d.Bit() != 0 <==> mask & d.Bit() != 0 || e == d
  {
  }

  lemma NextBit(tiles: Array2D<int>, x: int, y: int, before: bv8, e: Direction, after: bv8)
    requires tiles.Valid() && tiles.InBounds(x, y) && Marked(tiles, x, y, before, Turn(e))
    requires var u, v := x + e.Dx(), y + e.Dy();
      after == if !tiles.InBounds(u, v) || tiles.Get(u, v) == tiles.Get(x, y) then WithBit(before, e) else before
    ensures Marked(tiles, x, y, after, Turn(e) + 1)
  {
    hide Grid.Joins, Array2D<int>.Get, Array2D<int>.Valid, Direction.Bit, Direction.Dx, Direction.Dy, WithBit;
    JoinsByGet(tiles, x, y, e);
    forall d: Direction
      ensures after & d.Bit() != 0 <==> Turn(d) <= Turn(e) && GridOf(tiles).Joins(x, y, d)
    {
      BitAdded(before, e, d);
    }
  }

  lemma NoBits(tiles: Array2D<int>, x: int, y: int)
    requires tiles.Valid()
    ensures if tiles.InBounds(x, y) then Marked(tiles, x, y, 0, 0) else GridOf(tiles).IsMask(x, y, 0)
  {
  }

  lemma AllBits(tiles: Array2D<int>, x: int, y: int, mask: bv8)
    requires tiles.Valid() && tiles.InBounds(x, y) && Marked(tiles, x, y, mask, 8)
    ensures GridOf(tiles).IsMask(x, y, mask)
  {
  }

  /** Sets, in an accumulator, the bit of each neighbour that joins. */
  method CalcBitmask(tiles: Array2D<int>, x: int, y: int) returns (result: bv8)
    requires tiles.Valid()
    ensures GridOf(tiles).IsMask(x, y, result)
  {
    hide Grid.Joins, Grid.At, Grid.IsMask, GridOf, Marked, Array2D<int>.Get, Array2D<int>.Valid, WithBit;
    result := 0;
    NoBits(tiles, x, y);
    if x < 0 || y < 0 || x >= tiles.width || y >= tiles.height {
      return;
    }
    var here := tiles.Get(x, y);
    ghost var was := result;
    if x == 0 || tiles.Get(x - 1, y) == here {
      result := WithBit(result, Left);
    }
    NextBit(tiles, x, y, was, Left, result);
    was := result;
    if x == 0 || y == 0 || tiles.Get(x - 1, y - 1) == here {
      result := WithBit(result, TopLeft);
    }
    NextBit(tiles, x, y, was, TopLeft, result);
    was := result;
    if y == 0 || tiles.Get(x, y - 1) == here {
      result := WithBit(result, Top);
    }
    NextBit(tiles, x, y, was, Top, result);
    was := result;
    if y == 0 || x == tiles.width - 1 || tiles.Get(x + 1, y - 1) == here {
      result := WithBit(result, TopRight);
    }
    NextBit(tiles, x, y, was, TopRight, result);
    was := result;
    if x == tiles.width - 1 || tiles.Get(x + 1, y) == here {
      result := WithBit(result, Right);
    }
    NextBit(tiles, x, y, was, Right, result);
    was := result;
    if x == tiles.width - 1 || y == tiles.height - 1 || tiles.Get(x + 1, y + 1) == here {
      result := WithBit(result, BottomRight);
    }
    NextBit(tiles, x, y, was, BottomRight, result);
    was := result;
    if y == tiles.height - 1 || tiles.Get(x, y + 1) == here {
      result := WithBit(result, Bottom);
    }
    NextBit(tiles, x, y, was, Bottom, result);
    was := result;
    if x == 0 || y == tiles.height - 1 || tiles.Get(x - 1, y + 1) == here {
      result := WithBit(result, BottomLeft);
    }
    NextBit(tiles, x, y, was, BottomLeft, result);
    was := result;
    AllBits(tiles, x, y, result);
  }

  /** The neighbour at (u, v) holds the tile of (x, y), or is off the map. */
  predicate Same(g: Grid, x: int, y: int, u: int, v: int)
    requires g.Valid() && g.Inside(x, y)
  {
    g.Inside(u, v) ==> g.At(u, v) == g.At(x, y)
  }

  /** The mask bit by bit, from the top left neighbour clockwise. */
  lemma MaskByNumbers(g: Grid, x: int, y: int, mask: bv8)
    requires g.Valid() && g.Inside(x, y) && g.IsMask(x, y, mask)
    ensures mask & 1 != 0 <==> Same(g, x, y, x - 1, y - 1)
    ensures mask & 2 != 0 <==> Same(g, x, y, x, y - 1)
    ensures mask & 4 != 0 <==> Same(g, x, y, x + 1, y - 1)
    ensures mask & 8 != 0 <==> Same(g, x, y, x + 1, y)
    ensures mask & 16 != 0 <==> Same(g, x, y, x + 1, y + 1)
    ensures mask & 32 != 0 <==> Same(g, x, y, x, y + 1)
    ensures mask & 64 != 0 <==> Same(g, x, y, x - 1, y + 1)
    ensures mask & 128 != 0 <==> Same(g, x, y, x - 1, y)
  {
    hide Grid.At;
    assert mask & TopLeft.Bit() != 0 <==> g.Joins(x, y, TopLeft);
    assert mask & Top.Bit() != 0 <==> g.Joins(x, y, Top);
    assert mask & TopRight.Bit() != 0 <==> g.Joins(x, y, TopRight);
    assert mask & Right.Bit() != 0 <==> g.Joins(x, y, Right);
    assert mask & BottomRight.Bit() != 0 <==> g.Joins(x, y, BottomRight);
    assert mask & Bottom.Bit() != 0 <==> g.Joins(x, y, Bottom);
    assert mask & BottomLeft.Bit() != 0 <==> g.Joins(x, y, BottomLeft);
    assert mask & Left.Bit() != 0 <==> g.Joins(x, y, Left);
  }

  /** The eight bits leave no choice: a cell has one mask. */
  lemma MaskUnique(g: Grid, x: int, y: int, m: bv8, n: bv8)
    requires g.Valid() && g.IsMask(x, y, m) && g.IsMask(x, y, n)
    ensures m == n
  {
    forall d: Direction
      ensures m & d.Bit() != 0 <==> n & d.Bit() != 0
    {
    }
    SameBits(m, n);
  }

  lemma SameBits(m: bv8, n: bv8)
    requires forall d: Direction :: m & d.Bit() != 0 <==> n & d.Bit() != 0
    ensures m == n
  {
    assert m & TopLeft.Bit() == n & TopLeft.Bit();
    assert m & Top.Bit() == n & Top.Bit();
    assert m & TopRight.Bit() == n & TopRight.Bit();
    assert m & Right.Bit() == n & Right.Bit();
    assert m & BottomRight.Bit() == n & BottomRight.Bit();
    assert m & Bottom.Bit() == n & Bottom.Bit();
    assert m & BottomLeft.Bit() == n & BottomLeft.Bit();
    assert m & Left.Bit() == n & Left.Bit();
  }

  /** Two neighbours agree on whether they join: the bit of one facing the other
      is the bit of the other facing back. */
  lemma MaskSymmetric(g: Grid, x: int, y: int, d: Direction, m: bv8, n: bv8)
    requires g.Valid() && g.Inside(x, y) && g.Inside(x + d.Dx(), y + d.Dy())
    requires g.IsMask(x, y, m) && g.IsMask(x + d.Dx(), y + d.Dy(), n)
    ensures m & d.Bit() != 0 <==> n & d.Opposite().Bit() != 0
  {
    hide Grid.At, Direction.Bit;
    assert d.Opposite().Dx() == -d.Dx() && d.Opposite().Dy() == -d.Dy();
    assert g.Joins(x, y, d) <==> g.Joins(x + d.Dx(), y + d.Dy(), d.Opposite());
  }

  lemma AtWith(g: Grid, x: int, y: int, tile: int, u: int, v: int)
    requires g.Valid() && g.Inside(x, y) && g.Inside(u, v)
    ensures g.With(x, y, tile).Valid()
    ensures g.With(x, y, tile).At(u, v) == if u == x && v == y then tile else g.At(u, v)
  {
    hide Position;
    PositionInjective(x, y, u, v, g.width);
    PositionInRange(x, y, g.width, g.height);
    PositionInRange(u, v, g.width, g.height);
  }

  /** After one tile changes, another cell's mask can differ only in the bit that
      faces the changed cell. */
  lemma OnlyFacingBit(g: Grid, x: int, y: int, tile: int, u: int, v: int, d: Direction, m: bv8, n: bv8)
    requires g.Valid() && g.Inside(x, y) && (u, v) != (x, y) && (u + d.Dx(), v + d.Dy()) != (x, y)
    requires g.IsMask(u, v, m) && g.With(x, y, tile).Valid() && g.With(x, y, tile).IsMask(u, v, n)
    ensures m & d.Bit() != 0 <==> n & d.Bit() != 0
  {
    var h := g.With(x, y, tile);
    if g.Inside(u, v) {
      AtWith(g, x, y, tile, u, v);
      if g.Inside(u + d.Dx(), v + d.Dy()) {
        AtWith(g, x, y, tile, u + d.Dx(), v + d.Dy());
      }
      assert g.Joins(u, v, d) <==> h.Joins(u, v, d);
    }
  }

  predicate InBlock(x: int, y: int, u: int, v: int) {
    x - 1 <= u <= x + 1 && y - 1 <= v <= y + 1
  }

  /** Outside the three-by-three block around a changed cell the masks are those of
      the map before the change. */
  lemma MaskIsLocal(g: Grid, x: int, y: int, tile: int, u: int, v: int, m: bv8)
    requires g.Valid() && g.Inside(x, y) && !InBlock(x, y, u, v)
    ensures g.With(x, y, tile).Valid() && (g.With(x, y, tile).IsMask(u, v, m) <==> g.IsMask(u, v, m))
  {
    var h := g.With(x, y, tile);
    AtWith(g, x, y, tile, x, y);
    if g.Inside(u, v) {
      forall d: Direction
        ensures h.Joins(u, v, d) <==> g.Joins(u, v, d)
      {
        AtWith(g, x, y, tile, u, v);
        if g.Inside(u + d.Dx(), v + d.Dy()) {
          AtWith(g, x, y, tile, u + d.Dx(), v + d.Dy());
        }
      }
    }
  }

  /** So recomputing the block recomputes the map: masks right before a change, and
      computed anew in the block, are right everywhere after it. */
  lemma RecomputeBlock(g: Grid, x: int, y: int, tile: int, before: (int, int) -> bv8, after: (int, int) -> bv8)
    requires g.Valid() && g.Inside(x, y) && forall u, v :: g.IsMask(u, v, before(u, v))
    requires g.With(x, y, tile).Valid()
    requires forall u, v ::
               if InBlock(x, y, u, v) then g.With(x, y, tile).IsMask(u, v, after(u, v)) else after(u, v) == before(u, v)
    ensures forall u, v :: g.With(x, y, tile).IsMask(u, v, after(u, v))
  {
    hide Grid.IsMask, Grid.With;
    forall u, v
      ensures g.With(x, y, tile).IsMask(u, v, after(u, v))
    {
      if !InBlock(x, y, u, v) {
        assert g.IsMask(u, v, before(u, v));
        MaskIsLocal(g, x, y, tile, u, v, after(u, v));
      }
    }
  }

  /** The cells that Array2D.Set leaves are those of the map with that tile changed. */
  lemma SetIsWith(tiles: Array2D<int>, before: Grid, x: int, y: int, tile: int)
    requires tiles.Valid() && before.Valid() && before.width == tiles.width && before.height == tiles.height
    requires before.Inside(x, y)
    requires forall k :: 0 <= k < tiles.cells.Length ==>
               tiles.cells[k] == if k == Position(x, y, tiles.width) then tile else before.cells[k]
    ensures GridOf(tiles) == before.With(x, y, tile)
  {
    PositionInRange(x, y, tiles.width, tiles.height);
  }
}
