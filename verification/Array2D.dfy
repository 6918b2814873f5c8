// A two-dimensional array kept row by row in one slice
// (server/pecas/array2d.go).
module Array2D {

  /** The slice position of cell (x, y) in rows of `width`. */
  function Position(x: nat, y: nat, width: nat): nat {
    x + y * width
  }

  lemma {:induction false} RowsApart(y: nat, v: nat, width: nat)
    requires y < v
    ensures y * width + width <= v * width
    decreases v
  {
    assert v * width == (v - 1) * width + width;
    if y < v - 1 {
      RowsApart(y, v - 1, width);
    }
  }

  lemma PositionInRange(x: nat, y: nat, width: nat, height: nat)
    requires x < width && y < height
    ensures Position(x, y, width) < width * height
  {
    RowsApart(y, height, width);
  }

  /** Two cells share a position only when they are the same cell. */
  lemma PositionInjective(x: nat, y: nat, u: nat, v: nat, width: nat)
    requires x < width && u < width
    ensures Position(x, y, width) == Position(u, v, width) <==> x == u && y == v
  {
    if y < v {
      RowsApart(y, v, width);
    } else if v < y {
      RowsApart(v, y, width);
    }
  }

  class Array2D<T> {
    const width: nat
    const height: nat
    const cells: array<T>
    const zero: T

    ghost predicate Valid() {
      cells.Length == width * height
    }

    predicate InBounds(x: int, y: int) {
      0 <= x < width && 0 <= y < height
    }

    constructor (width: nat, height: nat, zero: T)
      ensures Valid() && this.width == width && this.height == height && this.zero == zero && fresh(cells)
      ensures forall k :: 0 <= k < cells.Length ==> cells[k] == zero
    {
      this.width, this.height, this.zero := width, height, zero;
      cells := new T[width * height](_ => zero);
    }

    /** The value at a cell; the zero value outside the array. */
    function Get(x: int, y: int): (t: T)
      requires Valid()
      reads cells
    {
      if !InBounds(x, y) then zero
      else
        PositionInRange(x, y, width, height);
        cells[Position(x, y, width)]
    }

    /** Changes one cell and no other; refuses a cell outside. */
    method Set(x: int, y: int, value: T) returns (failed: bool)
      requires Valid()
      modifies cells
      ensures failed <==> !InBounds(x, y)
      ensures forall u, v :: Get(u, v) == if !failed && u == x && v == y then value else old(Get(u, v))
      ensures forall k :: 0 <= k < cells.Length ==>
                cells[k] == if !failed && k == Position(x, y, width) then value else old(cells[k])
    {
      if !InBounds(x, y) {
        return true;
      }
      hide Position;
      PositionInRange(x, y, width, height);
      cells[Position(x, y, width)] := value;
      forall u, v | InBounds(u, v)
        ensures Get(u, v) == if u == x && v == y then value else old(Get(u, v))
      {
        PositionInjective(x, y, u, v, width);
        PositionInRange(u, v, width, height);
      }
      failed := false;
    }
  }
}
