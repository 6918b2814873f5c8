// What the server's bitmask and the browser's quadrant choice are for together:
// an autotile shows a border where its neighbour is another tile
// (server/autotilemap/autotilemap.go, client-svelte/src/lib/client/game/
// autotilemap/autotilemap.js).
module Borders {
  import opened Bitmask
  import Autotile

  // The neighbours that quadrant (qx, qy) of a cell faces.

  function Beside(qx: int): Direction {
    if qx == 0 then Left else Right
  }

  function Beyond(qy: int): Direction {
    if qy == 0 then Top else Bottom
  }

  function Across(qx: int, qy: int): Direction {
    if qy == 0 then if qx == 0 then TopLeft else TopRight
    else if qx == 0 then BottomLeft else BottomRight
  }

  predicate Has(mask: bv8, d: Direction) {
    mask & d.Bit() != 0
  }

  lemma BitsAgree(b: bv8)
    ensures Autotile.On(b, Autotile.LEFT) <==> Has(b, Left)
    ensures Autotile.On(b, Autotile.RIGHT) <==> Has(b, Right)
    ensures Autotile.On(b, Autotile.TOP) <==> Has(b, Top)
    ensures Autotile.On(b, Autotile.BOTTOM) <==> Has(b, Bottom)
    ensures Autotile.Off(b, Autotile.TOP_LEFT) <==> !Has(b, TopLeft)
    ensures Autotile.Off(b, Autotile.TOP_RIGHT) <==> !Has(b, TopRight)
    ensures Autotile.Off(b, Autotile.BOTTOM_LEFT) <==> !Has(b, BottomLeft)
    ensures Autotile.Off(b, Autotile.BOTTOM_RIGHT) <==> !Has(b, BottomRight)
    ensures Autotile.On(b, Autotile.LEFT | Autotile.TOP) <==> Has(b, Left) && Has(b, Top)
    ensures Autotile.On(b, Autotile.RIGHT | Autotile.TOP) <==> Has(b, Right) && Has(b, Top)
    ensures Autotile.On(b, Autotile.LEFT | Autotile.BOTTOM) <==> Has(b, Left) && Has(b, Bottom)
    ensures Autotile.On(b, Autotile.RIGHT | Autotile.BOTTOM) <==> Has(b, Right) && Has(b, Bottom)
  {
  }

  /** The browser's choice for a quadrant, from the five bits it looks at. */
  function Choice(beside: bool, opposite: bool, beyond: bool, against: bool, across: bool, qx: int, qy: int): (int, int) {
    if beside && beyond && !across then (2, -4)
    else
      var outX, outY := if qx == 0 then -2 else 2, if qy == 0 then -2 else 2;
      (if !beside then outX else if opposite then 0 else -outX, if !beyond then outY else if against then 0 else -outY)
  }

  lemma ShiftIsChoice(b: bv8, qx: int, qy: int)
    requires 0 <= qx < 2 && 0 <= qy < 2
    ensures var c := Choice(Has(b, Beside(qx)), Has(b, Beside(1 - qx)), Has(b, Beyond(qy)), Has(b, Beyond(1 - qy)),
                            Has(b, Across(qx, qy)), qx, qy);
            Autotile.Shift(b, qx, qy) == c.0 + c.1 * 60
  {
    hide Has, Autotile.On, Autotile.Off;
    BitsAgree(b);
  }

  /** With the mask of its own neighbours, a quadrant is an inner corner if and only
      if both sides it faces continue the tile and the corner between them does
      not. Otherwise it lies in the border column, or border row, of the autotile's
      block if and only if the neighbour on that side is another tile, in the middle
      one if and only if the neighbours on both sides continue it, and in the one
      towards the other border if and only if only the neighbour it faces does. */
  lemma BordersFollowNeighbours(g: Grid, x: int, y: int, mask: bv8, qx: int, qy: int) returns (dx: int, dy: int)
    requires g.Valid() && g.Inside(x, y) && g.IsMask(x, y, mask) && 0 <= qx < 2 && 0 <= qy < 2
    ensures Autotile.Shift(mask, qx, qy) == dx + dy * 60
    ensures dy == -4 <==> g.Joins(x, y, Beside(qx)) && g.Joins(x, y, Beyond(qy)) && !g.Joins(x, y, Across(qx, qy))
    ensures dy == -4 ==> dx == 2
    ensures dy != -4 ==>
              && (dx == (if qx == 0 then -2 else 2) <==> !g.Joins(x, y, Beside(qx)))
              && (dx == 0 <==> g.Joins(x, y, Left) && g.Joins(x, y, Right))
              && (dx == (if qx == 0 then 2 else -2) <==> g.Joins(x, y, Beside(qx)) && !g.Joins(x, y, Beside(1 - qx)))
    ensures dy != -4 ==>
              && (dy == (if qy == 0 then -2 else 2) <==> !g.Joins(x, y, Beyond(qy)))
              && (dy == 0 <==> g.Joins(x, y, Top) && g.Joins(x, y, Bottom))
              && (dy == (if qy == 0 then 2 else -2) <==> g.Joins(x, y, Beyond(qy)) && !g.Joins(x, y, Beyond(1 - qy)))
    ensures dx in {-2, 0, 2} && dy in {-4, -2, 0, 2}
  {
    hide Grid.Joins, Choice, Across;
    forall d: Direction
      ensures Has(mask, d) <==> g.Joins(x, y, d)
    {
    }
    ShiftIsChoice(mask, qx, qy);
    ChoiceShows(g.Joins(x, y, Beside(qx)), g.Joins(x, y, Beside(1 - qx)), g.Joins(x, y, Beyond(qy)),
                g.Joins(x, y, Beyond(1 - qy)), g.Joins(x, y, Across(qx, qy)), qx, qy);
    var c := Choice(g.Joins(x, y, Beside(qx)), g.Joins(x, y, Beside(1 - qx)), g.Joins(x, y, Beyond(qy)),
                    g.Joins(x, y, Beyond(1 - qy)), g.Joins(x, y, Across(qx, qy)), qx, qy);
    dx, dy := c.0, c.1;
  }

  lemma ChoiceShows(beside: bool, opposite: bool, beyond: bool, against: bool, across: bool, qx: int, qy: int)
    requires 0 <= qx < 2 && 0 <= qy < 2
    ensures var (dx, dy) := Choice(beside, opposite, beyond, against, across, qx, qy);
      && (dy == -4 <==> beside && beyond && !across) && (dy == -4 ==> dx == 2)
      && (dy != -4 ==>
            && (dx == (if qx == 0 then -2 else 2) <==> !beside) && (dx == 0 <==> beside && opposite)
            && (dx == (if qx == 0 then 2 else -2) <==> beside && !opposite)
            && (dy == (if qy == 0 then -2 else 2) <==> !beyond) && (dy == 0 <==> beyond && against)
            && (dy == (if qy == 0 then 2 else -2) <==> beyond && !against))
      && dx in {-2, 0, 2} && dy in {-4, -2, 0, 2}
  {
  }

  /** Among eight neighbours of its own kind a cell is drawn from the middle of the
      autotile's block: its four quadrants are the quarters of the tile's own cell. */
  lemma MiddleIsOwnCell(g: Grid, x: int, y: int, mask: bv8, t: Autotile.TileNumber, qx: int, qy: int)
    requires g.Valid() && g.Inside(x, y) && g.IsMask(x, y, mask) && 0 <= qx < 2 && 0 <= qy < 2 && Autotile.IsAutotile(t)
    requires forall d: Direction :: g.Joins(x, y, d)
    ensures Autotile.Shift(mask, qx, qy) == 0
    ensures var n, c := Autotile.Quadrant(t, mask, qx, qy), Autotile.BaseCell(t);
      Autotile.Column(n) == 2 * c.x + qx && Autotile.Row(n) == 2 * c.y + qy
  {
    hide Autotile.Shift, Autotile.Column, Autotile.Row;
    var dx, dy := BordersFollowNeighbours(g, x, y, mask, qx, qy);
    Autotile.ShiftedQuadrant(t, mask, qx, qy, 0, 0);
  }

  /** The same of any cell: the subtile each quadrant of an autotile is drawn from, in its
      block of six by eight, told by its neighbours. */
  lemma BlockFollowsNeighbours(g: Grid, x: int, y: int, mask: bv8, t: Autotile.TileNumber, qx: int, qy: int) returns (u: int, v: int)
    requires g.Valid() && g.Inside(x, y) && g.IsMask(x, y, mask) && 0 <= qx < 2 && 0 <= qy < 2 && Autotile.IsAutotile(t)
    ensures var n, c := Autotile.Quadrant(t, mask, qx, qy), Autotile.BaseCell(t);
      Autotile.Column(n) == 2 * (c.x - 1) + u && Autotile.Row(n) == 2 * (c.y - 2) + v
    ensures if g.Joins(x, y, Beside(qx)) && g.Joins(x, y, Beyond(qy)) && !g.Joins(x, y, Across(qx, qy))
            then u == 4 + qx && v == qy
            else
              && u == qx + (if !g.Joins(x, y, Left) && (qx == 0 || g.Joins(x, y, Right)) then 0
                            else if g.Joins(x, y, Left) && g.Joins(x, y, Right) then 2 else 4)
              && v == qy + (if !g.Joins(x, y, Top) && (qy == 0 || g.Joins(x, y, Bottom)) then 2
                            else if g.Joins(x, y, Top) && g.Joins(x, y, Bottom) then 4 else 6)
  {
    hide Autotile.Shift, Autotile.Column, Autotile.Row, Grid.Joins, Across;
    var dx, dy := BordersFollowNeighbours(g, x, y, mask, qx, qy);
    Autotile.ShiftedQuadrant(t, mask, qx, qy, dx, dy);
    u, v := 2 + qx + dx, 4 + qy + dy;
  }
}
