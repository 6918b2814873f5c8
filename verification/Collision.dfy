// Which solid tile an object runs into (client-svelte/src/lib/client/game/
// game_map.js, util.js). Coordinates are real numbers; only the tiles in a window
// around the object are looked at, column by column.
module Collision {
  const TILE: real := 16.0

  datatype Rect = Rect(x: real, y: real, w: real, h: real)

  function Max(a: real, b: real): real {
    if a < b then b else a
  }

  function Min(a: real, b: real): real {
    if a < b then a else b
  }

  function Constrain(num: real, from: real, to: real): real {
    Max(from, Min(num, to))
  }

  // ------------------------------------------------------ rectangles

  /** The point lies in the rectangle, right and bottom edges excluded. */
  predicate Contains(r: Rect, px: real, py: real) {
    r.x <= px < r.x + r.w && r.y <= py < r.y + r.h
  }

  /** The rectangles overlap on both axes; touching edges do not count. */
  predicate Overlap(a: Rect, b: Rect) {
    a.x < b.x + b.w && b.x < a.x + a.w && a.y < b.y + b.h && b.y < a.y + a.h
  }

  function Intersection(a: Rect, b: Rect): Rect {
    var x, y := Max(a.x, b.x), Max(a.y, b.y);
    Rect(x, y, Min(a.x + a.w, b.x + b.w) - x, Min(a.y + a.h, b.y + b.h) - y)
  }

  /** The intersection holds exactly the common points, and for rectangles with
      area it has area exactly when they overlap. */
  lemma IntersectionMeaning(a: Rect, b: Rect, px: real, py: real)
    ensures Contains(Intersection(a, b), px, py) <==> Contains(a, px, py) && Contains(b, px, py)
    ensures a.w > 0.0 && a.h > 0.0 && b.w > 0.0 && b.h > 0.0 ==>
              (Overlap(a, b) <==> Intersection(a, b).w > 0.0 && Intersection(a, b).h > 0.0)
  {
  }

  ghost function OutRect(out: array<real>): Rect
    requires out.Length == 4
    reads out
  {
    Rect(out[0], out[1], out[2], out[3])
  }

  method RectsIntersect(a: Rect, b: Rect, out: array<real>) returns (hit: bool)
    requires out.Length == 4
    modifies out
    ensures hit == Overlap(a, b)
    ensures OutRect(out) == if hit then Intersection(a, b) else Rect(0.0, 0.0, 0.0, 0.0)
  {
    if (a.x + a.w <= b.x || b.x + b.w <= a.x) || (a.y + a.h <= b.y || b.y + b.h <= a.y) {
      out[0], out[1], out[2], out[3] := 0.0, 0.0, 0.0, 0.0;
      return false;
    }
    out[0] := Max(a.x, b.x);
    out[1] := Max(a.y, b.y);
    out[2] := Min(a.x + a.w, b.x + b.w) - out[0];
    out[3] := Min(a.y + a.h, b.y + b.h) - out[1];
    hit := true;
  }

  // ---------------------------------------------------------- the window

  // One axis: an object at `x` of size `w` on a map of `size` tiles.

  function From(x: real, w: real, size: nat): int {
    Constrain((x - w / 2.0) / TILE - 2.0, 0.0, size as real).Floor
  }

  function To(x: real, w: real, size: nat): int {
    Constrain((x + w / 2.0) / TILE + 2.0, 0.0, size as real).Floor
  }

  predicate Touches(x: real, w: real, t: int) {
    t as real * TILE < x + w && x < t as real * TILE + TILE
  }

  predicate InWindow(x: real, w: real, t: int, size: nat) {
    From(x, w, size) <= t < To(x, w, size)
  }

  /** The window never leaves the map. */
  lemma WindowOnMap(x: real, w: real, size: nat)
    ensures 0 <= From(x, w, size) <= size && 0 <= To(x, w, size) <= size
  {
    assert (size as real).Floor == size;
  }

  lemma WindowCovers(x: real, w: real, t: int, size: nat)
    requires 0.0 <= w <= 32.0 && 0 <= t < size && Touches(x, w, t)
    ensures InWindow(x, w, t, size)
  {
    var a := (x - w / 2.0) / TILE - 2.0;
    var b := (x + w / 2.0) / TILE + 2.0;
    assert a < t as real;
    assert (t + 1) as real <= b;
    assert (t + 1) as real <= size as real;
    assert (t + 1) as real <= Constrain(b, 0.0, size as real);
    assert Constrain(a, 0.0, size as real) <= t as real;
  }

  /** An object wider than 32 has a place where it overlaps tile 0 and the window
      does not hold that tile. */
  lemma WindowMisses(w: real)
    requires w > 32.0
    ensures var x := (w - 32.0) / 4.0 - w; Touches(x, w, 0) && !InWindow(x, w, 0, 1)
  {
    var x := (w - 32.0) / 4.0 - w;
    var b := (x + w / 2.0) / TILE + 2.0;
    assert b < 1.0;
  }

  /** The window holds every tile an object can touch, wherever it stands on
      whatever map, if and only if the object is at most two tiles wide. */
  lemma WindowSufficientIff(w: real)
    requires w >= 0.0
    ensures (forall x: real, t: int, size: nat :: t < size && 0 <= t && Touches(x, w, t) ==> InWindow(x, w, t, size))
            <==> w <= 32.0
  {
    if w <= 32.0 {
      forall x: real, t: int, size: nat | t < size && 0 <= t && Touches(x, w, t)
        ensures InWindow(x, w, t, size)
      {
        WindowCovers(x, w, t, size);
      }
    } else {
      WindowMisses(w);
    }
  }

  // ------------------------------------------------------------- the scan

  // Layers as rows: `base` gives the tile's number, `solid` is nonzero where the
  // map is solid.
  datatype Map = Map(width: nat, height: nat, base: seq<seq<int>>, solid: seq<seq<int>>)
  {
    ghost predicate Valid() {
      && |base| == height && |solid| == height
      && forall y :: 0 <= y < height ==> |base[y]| == width && |solid[y]| == width
    }

    predicate Inside(x: int, y: int) {
      0 <= x < width && 0 <= y < height
    }
  }

  function TileRect(x: int, y: int): Rect {
    Rect(x as real * TILE, y as real * TILE, TILE, TILE)
  }

  /** Tile (x, y) of the map is solid and overlaps the rectangle. */
  predicate Hits(m: Map, r: Rect, x: int, y: int)
    requires m.Valid()
  {
    m.Inside(x, y) && m.solid[y][x] != 0 && Overlap(TileRect(x, y), r)
  }

  /** A rectangle with area is hit by exactly the solid tiles of the map that have a point
      of it among their 16 by 16. */
  lemma HitSharesPoint(m: Map, r: Rect, x: int, y: int)
    requires m.Valid() && r.w > 0.0 && r.h > 0.0
    ensures Hits(m, r, x, y) <==>
            && 0 <= x < m.width && 0 <= y < m.height && m.solid[y][x] != 0
            && exists px, py :: Contains(r, px, py) && InTile(x, y, px, py)
  {
    if Hits(m, r, x, y) {
      var c := Intersection(TileRect(x, y), r);
      IntersectionMeaning(TileRect(x, y), r, c.x, c.y);
      assert Contains(r, c.x, c.y) && InTile(x, y, c.x, c.y);
    }
  }

  predicate InTile(x: int, y: int, px: real, py: real) {
    16.0 * x as real <= px < 16.0 * (x as real + 1.0) && 16.0 * y as real <= py < 16.0 * (y as real + 1.0)
  }

  /** The first hit is the topmost of the leftmost column that has any. */
  lemma FirstHitIsTopOfLeftmost(m: Map, r: Rect, x: int, y: int, u: int, v: int)
    requires m.Valid() && FirstHit(m, r, x, y) && Hits(m, r, u, v)
    ensures x < u || (x == u && y <= v)
  {
  }

  predicate Before(u: int, v: int, x: int, y: int) {
    u < x || (u == x && v < y)
  }

  /** The first hit of the whole map, column by column. */
  ghost predicate FirstHit(m: Map, r: Rect, x: int, y: int)
    requires m.Valid()
  {
    Hits(m, r, x, y) && forall u, v :: Hits(m, r, u, v) ==> !Before(u, v, x, y)
  }

  /** A hit among the tiles that are looked at. */
  predicate Seen(m: Map, r: Rect, x: int, y: int)
    requires m.Valid()
  {
    Hits(m, r, x, y) && InWindow(r.x, r.w, x, m.width) && InWindow(r.y, r.h, y, m.height)
  }

  ghost predicate FirstSeen(m: Map, r: Rect, x: int, y: int)
    requires m.Valid()
  {
    Seen(m, r, x, y) && forall u, v :: Seen(m, r, u, v) ==> !Before(u, v, x, y)
  }

  /** For an object of at most two tiles each way nothing is overlooked. */
  lemma NothingOverlooked(m: Map, r: Rect, x: int, y: int)
    requires m.Valid() && 0.0 <= r.w <= 32.0 && 0.0 <= r.h <= 32.0
    ensures Seen(m, r, x, y) <==> Hits(m, r, x, y)
    ensures FirstSeen(m, r, x, y) <==> FirstHit(m, r, x, y)
  {
    hide Hits, InWindow;
    forall u, v
      ensures Seen(m, r, u, v) <==> Hits(m, r, u, v)
    {
      if Hits(m, r, u, v) {
        HitInWindow(m, r, u, v);
      }
    }
  }

  lemma HitInWindow(m: Map, r: Rect, x: int, y: int)
    requires m.Valid() && Hits(m, r, x, y) && 0.0 <= r.w <= 32.0 && 0.0 <= r.h <= 32.0
    ensures InWindow(r.x, r.w, x, m.width) && InWindow(r.y, r.h, y, m.height)
  {
    WindowCovers(r.x, r.w, x, m.width);
    WindowCovers(r.y, r.h, y, m.height);
  }

  ghost predicate NonNegative(m: Map)
    requires m.Valid()
  {
    forall x, y :: m.Inside(x, y) ==> m.base[y][x] >= 0
  }

  /** The scan of the window finds every hit, wherever an object of this size stands on
      whatever map. */
  ghost predicate ScanFindsAll(w: real, h: real) {
    forall m: Map, x: real, y: real, u: int, v: int :: m.Valid() ==>
      (Seen(m, Rect(x, y, w, h), u, v) <==> Hits(m, Rect(x, y, w, h), u, v))
  }

  /** It does if and only if the object is at most two tiles each way. */
  lemma ScanFindsAllIff(w: real, h: real)
    requires w >= 0.0 && h >= 0.0
    ensures ScanFindsAll(w, h) <==> w <= 32.0 && h <= 32.0
  {
    if w <= 32.0 && h <= 32.0 {
      forall m: Map, x: real, y: real, u: int, v: int | m.Valid()
        ensures Seen(m, Rect(x, y, w, h), u, v) <==> Hits(m, Rect(x, y, w, h), u, v)
      {
        NothingOverlooked(m, Rect(x, y, w, h), u, v);
      }
    } else {
      var r := OverlookedRect(w, h);
      HitNotSeen(w, h);
      assert r == Rect(r.x, r.y, w, h);
    }
  }

  // A map of one solid tile.
  const SOLID_TILE := Map(1, 1, [[0]], [[1]])

  /** A place where an object too wide or too high touches tile (0, 0) unseen. */
  function OverlookedRect(w: real, h: real): Rect {
    Rect(if w > 32.0 then (w - 32.0) / 4.0 - w else 1.0 - w, if h > 32.0 then (h - 32.0) / 4.0 - h else 1.0 - h, w, h)
  }

  lemma HitNotSeen(w: real, h: real)
    requires w >= 0.0 && h >= 0.0 && (w > 32.0 || h > 32.0)
    ensures SOLID_TILE.Valid() && Hits(SOLID_TILE, OverlookedRect(w, h), 0, 0) && !Seen(SOLID_TILE, OverlookedRect(w, h), 0, 0)
  {
    hide InWindow;
    if w > 32.0 {
      WindowMisses(w);
    }
    if h > 32.0 {
      WindowMisses(h);
    }
  }

  /** The first hit of the window, with the exact intersection, or -1. For an object
      of at most two tiles each way that is the first hit of the whole map. */
  method ObjectCollides(m: Map, rect: Rect, out: array<real>) returns (tile: int)
    requires m.Valid() && out.Length == 4
    modifies out
    ensures (forall x, y :: !Seen(m, rect, x, y)) ==> tile == -1
    ensures forall x, y :: FirstSeen(m, rect, x, y) ==>
              tile == m.base[y][x] && OutRect(out) == Intersection(TileRect(x, y), rect)
    ensures 0.0 <= rect.w <= 32.0 && 0.0 <= rect.h <= 32.0 ==>
              && ((forall x, y :: !Hits(m, rect, x, y)) ==> tile == -1)
              && forall x, y :: FirstHit(m, rect, x, y) ==>
                   tile == m.base[y][x] && OutRect(out) == Intersection(TileRect(x, y), rect)
    ensures 0.0 <= rect.w <= 32.0 && 0.0 <= rect.h <= 32.0 && NonNegative(m) ==>
              (tile == -1 <==> forall x, y :: !Hits(m, rect, x, y))
  {
    hide Overlap, From, To, Intersection;
    WindowOnMap(rect.x, rect.w, m.width);
    WindowOnMap(rect.y, rect.h, m.height);
    var fromX, toX := From(rect.x, rect.w, m.width), To(rect.x, rect.w, m.width);
    var fromY, toY := From(rect.y, rect.h, m.height), To(rect.y, rect.h, m.height);
    if 0.0 <= rect.w <= 32.0 && 0.0 <= rect.h <= 32.0 {
      forall x, y
        ensures Seen(m, rect, x, y) <==> Hits(m, rect, x, y)
        ensures FirstSeen(m, rect, x, y) <==> FirstHit(m, rect, x, y)
      {
        NothingOverlooked(m, rect, x, y);
      }
    }
    var x := fromX;
    while x < toX
      invariant fromX <= x && forall u, v :: Seen(m, rect, u, v) ==> u >= x
    {
      var y := fromY;
      while y < toY
        invariant fromY <= y && forall u, v :: Seen(m, rect, u, v) ==> !Before(u, v, x, y)
      {
        if m.solid[y][x] != 0 {
          var hit := RectsIntersect(TileRect(x, y), rect, out);
          if hit {
            assert Seen(m, rect, x, y);
            return m.base[y][x];
          }
        }
        y := y + 1;
      }
      x := x + 1;
    }
    tile := -1;
  }

  /** A hit anywhere leaves a first hit, so the answer is always determined. */
  lemma {:induction false} SomeFirstHit(m: Map, r: Rect, x: int, y: int) returns (u: int, v: int)
    requires m.Valid() && Hits(m, r, x, y)
    ensures FirstHit(m, r, u, v)
    decreases x, y
  {
    if p, q :| Hits(m, r, p, q) && Before(p, q, x, y) {
      u, v := SomeFirstHit(m, r, p, q);
    } else {
      u, v := x, y;
    }
  }
}
