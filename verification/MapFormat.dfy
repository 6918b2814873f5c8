// The binary map format as the server reads it (server/autotilemap/autotilemap.go,
// server/pecas/binary_reader.go): a tileset name, two little-endian sizes, the
// base layer, where a bitmask follows exactly the autotiles, and the top layer.
module MapFormat {
  import opened Bytes
  import opened Array2D

  predicate IsAutotile(tile: int) {
    6 <= tile < 6 + 12
  }

  datatype Cell = Cell(tile: Byte, mask: Byte)

  // The layers are row by row.
  datatype MapData = MapData(tileset: seq<Byte>, width: nat, height: nat, base: seq<Cell>, top: seq<Byte>)

  /** What the format can say: only autotiles carry a mask. */
  ghost predicate Canonical(m: MapData) {
    && |m.tileset| < 256 && m.width < 0x1_0000 && m.height < 0x1_0000
    && |m.base| == m.width * m.height && |m.top| == m.width * m.height
    && forall c :: c in m.base && !IsAutotile(c.tile) ==> c.mask == 0
  }

  // ------------------------------------------------------------- encoding

  function Le16(v: nat): (r: seq<Byte>)
    ensures |r| == 2
  {
    [v % 256, (v / 256) % 256]
  }

  function CellWire(c: Cell): (r: seq<Byte>)
    ensures 1 <= |r| <= 2
  {
    if IsAutotile(c.tile) then [c.tile, c.mask] else [c.tile]
  }

  function BaseWire(cells: seq<Cell>): seq<Byte> {
    if cells == [] then [] else BaseWire(cells[..|cells| - 1]) + CellWire(cells[|cells| - 1])
  }

  function Encode(m: MapData): seq<Byte> {
    ShortString(m.tileset) + Le16(m.width) + Le16(m.height) + BaseWire(m.base) + m.top
  }

  function Autotiles(cells: seq<Cell>): nat {
    if cells == [] then 0 else Autotiles(cells[..|cells| - 1]) + if IsAutotile(cells[|cells| - 1].tile) then 1 else 0
  }

  // -------------------------------------------------------------- parsing

  datatype Parsed<+T> = Fail | Done(value: T, end: nat)

  function ByteFrom(s: seq<Byte>, p: nat): Parsed<Byte> {
    if p < |s| then Done(s[p], p + 1) else Fail
  }

  function Le16From(s: seq<Byte>, p: nat): Parsed<nat> {
    if p + 2 <= |s| then Done(s[p] + s[p + 1] as int * 256, p + 2) else Fail
  }

  function StringFrom(s: seq<Byte>, p: nat): Parsed<seq<Byte>> {
    if p < |s| && p + 1 + s[p] <= |s| then Done(s[p + 1..p + 1 + s[p]], p + 1 + s[p]) else Fail
  }

  function CellFrom(s: seq<Byte>, p: nat): Parsed<Cell> {
    if p >= |s| then Fail
    else if !IsAutotile(s[p]) then Done(Cell(s[p], 0), p + 1)
    else if p + 1 >= |s| then Fail
    else Done(Cell(s[p], s[p + 1]), p + 2)
  }

  function CellsFrom(s: seq<Byte>, p: nat, n: nat): (r: Parsed<seq<Cell>>)
    ensures r.Done? ==> |r.value| == n && (p <= |s| ==> r.end <= |s|)
  {
    if n == 0 then Done([], p) else
    match CellsFrom(s, p, n - 1)
    case Fail => Fail
    case Done(cells, q) =>
      match CellFrom(s, q)
      case Fail => Fail
      case Done(c, end) => Done(cells + [c], end)
  }

  function TopFrom(s: seq<Byte>, p: nat, n: nat): Parsed<seq<Byte>> {
    if p + n <= |s| then Done(s[p..p + n], p + n) else Fail
  }

  function Parse(s: seq<Byte>): Parsed<MapData> {
    match StringFrom(s, 0)
    case Fail => Fail
    case Done(tileset, p0) =>
      match Le16From(s, p0)
      case Fail => Fail
      case Done(width, p1) =>
        match Le16From(s, p1)
        case Fail => Fail
        case Done(height, p2) =>
          match CellsFrom(s, p2, width * height)
          case Fail => Fail
          case Done(base, p3) =>
            match TopFrom(s, p3, width * height)
            case Fail => Fail
            case Done(top, end) => Done(MapData(tileset, width, height, base, top), end)
  }

  // ------------------------------------------------- the parser inverts

  lemma CellParses(s: seq<Byte>, p: nat, c: Cell)
    requires Holds(s, p, CellWire(c)) && (!IsAutotile(c.tile) ==> c.mask == 0)
    ensures CellFrom(s, p) == Done(c, p + |CellWire(c)|)
  {
    HoldsAt(s, p, CellWire(c), 0);
    if IsAutotile(c.tile) {
      HoldsAt(s, p, CellWire(c), 1);
    }
  }

  lemma {:induction false} CellsParse(s: seq<Byte>, p: nat, cells: seq<Cell>)
    requires Holds(s, p, BaseWire(cells)) && forall c :: c in cells && !IsAutotile(c.tile) ==> c.mask == 0
    ensures CellsFrom(s, p, |cells|) == Done(cells, p + |BaseWire(cells)|)
    decreases |cells|
  {
    hide CellFrom, CellWire;
    if cells != [] {
      var n := |cells| - 1;
      HoldsSplit(s, p, BaseWire(cells[..n]), CellWire(cells[n]));
      CellsParse(s, p, cells[..n]);
      CellParses(s, p + |BaseWire(cells[..n])|, cells[n]);
      assert cells == cells[..n] + [cells[n]];
    }
  }

  lemma CellSound(s: seq<Byte>, p: nat)
    requires CellFrom(s, p).Done?
    ensures var r := CellFrom(s, p);
      && Holds(s, p, CellWire(r.value)) && r.end == p + |CellWire(r.value)| <= |s|
      && (!IsAutotile(r.value.tile) ==> r.value.mask == 0)
  {
  }

  lemma CellsLast(s: seq<Byte>, p: nat, n: nat)
    requires n > 0 && CellsFrom(s, p, n).Done?
    ensures CellsFrom(s, p, n - 1).Done?
    ensures var before, r := CellsFrom(s, p, n - 1), CellsFrom(s, p, n);
      && CellFrom(s, before.end).Done?
      && r == Done(before.value + [CellFrom(s, before.end).value], CellFrom(s, before.end).end)
  {
    hide CellFrom;
  }

  lemma BaseWireLast(cells: seq<Cell>, c: Cell)
    ensures BaseWire(cells + [c]) == BaseWire(cells) + CellWire(c)
  {
    hide CellWire;
    assert (cells + [c])[..|cells|] == cells;
  }

  lemma {:induction false} CellsSound(s: seq<Byte>, p: nat, n: nat)
    requires CellsFrom(s, p, n).Done? && p <= |s|
    ensures var r := CellsFrom(s, p, n);
      && Holds(s, p, BaseWire(r.value)) && r.end == p + |BaseWire(r.value)|
      && forall c :: c in r.value && !IsAutotile(c.tile) ==> c.mask == 0
    decreases n
  {
    hide CellFrom, CellWire, IsAutotile;
    if n > 0 {
      hide CellsFrom, BaseWire;
      CellsLast(s, p, n);
      CellsSound(s, p, n - 1);
      var before := CellsFrom(s, p, n - 1);
      CellSound(s, before.end);
      var c := CellFrom(s, before.end).value;
      BaseWireLast(before.value, c);
      HoldsSplit(s, p, BaseWire(before.value), CellWire(c));
    }
  }

  lemma StringParses(s: seq<Byte>, p: nat, v: seq<Byte>)
    requires |v| < 256 && Holds(s, p, ShortString(v))
    ensures StringFrom(s, p) == Done(v, p + |ShortString(v)|)
  {
    HoldsAt(s, p, ShortString(v), 0);
    assert s[p + 1..p + 1 + |v|] == ShortString(v)[1..];
  }

  lemma Le16Parses(s: seq<Byte>, p: nat, v: nat)
    requires v < 0x1_0000 && Holds(s, p, Le16(v))
    ensures Le16From(s, p) == Done(v, p + 2)
  {
    HoldsAt(s, p, Le16(v), 0);
    HoldsAt(s, p, Le16(v), 1);
  }

  /** Reading a canonical encoding gives the map back and stops at its end,
      whatever follows. */
  lemma ParseInverts(m: MapData, rest: seq<Byte>)
    requires Canonical(m)
    ensures Parse(Encode(m) + rest) == Done(m, |Encode(m)|)
  {
    hide BaseWire, CellsFrom, CellWire, Le16, ShortString, StringFrom, Le16From;
    var s := Encode(m) + rest;
    var n := m.width * m.height;
    var e0 := ShortString(m.tileset);
    var e1 := e0 + Le16(m.width);
    var e2 := e1 + Le16(m.height);
    var e3 := e2 + BaseWire(m.base);
    assert Holds(s, 0, Encode(m));
    HoldsSplit(s, 0, e3, m.top);
    HoldsSplit(s, 0, e2, BaseWire(m.base));
    HoldsSplit(s, 0, e1, Le16(m.height));
    HoldsSplit(s, 0, e0, Le16(m.width));
    StringParses(s, 0, m.tileset);
    Le16Parses(s, |e0|, m.width);
    Le16Parses(s, |e1|, m.height);
    CellsParse(s, |e2|, m.base);
    assert TopFrom(s, |e3|, n) == Done(m.top, |e3| + n);
  }

  lemma StringSound(s: seq<Byte>, p: nat)
    requires StringFrom(s, p).Done?
    ensures var r := StringFrom(s, p);
      |r.value| < 256 && Holds(s, p, ShortString(r.value)) && r.end == p + |ShortString(r.value)| <= |s|
  {
  }

  lemma Le16Sound(s: seq<Byte>, p: nat)
    requires Le16From(s, p).Done?
    ensures var r := Le16From(s, p); r.value < 0x1_0000 && Holds(s, p, Le16(r.value)) && r.end == p + 2 <= |s|
  {
  }

  /** A read that succeeds consumed exactly the encoding of what it returns. */
  lemma ParseSound(s: seq<Byte>)
    requires Parse(s).Done?
    ensures var r := Parse(s);
      Canonical(r.value) && r.end == |Encode(r.value)| <= |s| && s[..r.end] == Encode(r.value)
  {
    hide BaseWire, CellsFrom, CellWire, Le16From, StringFrom, Le16, ShortString;
    var m := Parse(s).value;
    StringSound(s, 0);
    var p0 := StringFrom(s, 0).end;
    Le16Sound(s, p0);
    Le16Sound(s, p0 + 2);
    CellsSound(s, p0 + 4, m.width * m.height);
    var e0 := ShortString(m.tileset);
    var e1 := e0 + Le16(m.width);
    var e2 := e1 + Le16(m.height);
    HoldsSplit(s, 0, e0, Le16(m.width));
    HoldsSplit(s, 0, e1, Le16(m.height));
    HoldsSplit(s, 0, e2, BaseWire(m.base));
    HoldsSplit(s, 0, e2 + BaseWire(m.base), m.top);
  }

  /** No strict prefix of an encoding reads as a map, partial or other. */
  lemma StrictPrefixFails(m: MapData, s: seq<Byte>)
    requires Canonical(m) && s < Encode(m)
    ensures Parse(s) == Fail
  {
    if Parse(s).Done? {
      ParseSound(s);
      var r := Parse(s);
      assert Encode(m) == Encode(r.value) + Encode(m)[r.end..];
      assert Encode(m) == Encode(m) + [];
      ParseInverts(m, []);
      ParseInverts(r.value, Encode(m)[r.end..]);
    }
  }

  lemma {:induction false} BaseWireLength(cells: seq<Cell>)
    ensures |BaseWire(cells)| == |cells| + Autotiles(cells)
  {
    if cells != [] {
      BaseWireLength(cells[..|cells| - 1]);
    }
  }

  /** The size of a file: name, sizes, a byte per cell and layer, a byte per autotile. */
  lemma EncodedLength(m: MapData)
    requires Canonical(m)
    ensures |Encode(m)| == 1 + |m.tileset| + 4 + 2 * (m.width * m.height) + Autotiles(m.base)
  {
    BaseWireLength(m.base);
  }

  // ------------------------------------------------ where the cells stand

  /** Of n cells read from p on, the k-th is k bytes on and one for each autotile before. */
  lemma {:induction false} CellStands(s: seq<Byte>, p: nat, n: nat, k: nat)
    requires CellsFrom(s, p, n).Done? && k < n && p <= |s|
    ensures var r := CellsFrom(s, p, n);
      var at, c := p + k + Autotiles(r.value[..k]), r.value[k];
      && at < |s| && s[at] == c.tile
      && if IsAutotile(c.tile) then at + 1 < |s| && s[at + 1] == c.mask else c.mask == 0
    decreases n
  {
    hide IsAutotile, CellsFrom, Autotiles;
    CellsLast(s, p, n);
    var before, cells := CellsFrom(s, p, n - 1), CellsFrom(s, p, n).value;
    assert cells[..n - 1] == before.value;
    if k < n - 1 {
      CellStands(s, p, n - 1, k);
      assert cells[..k] == before.value[..k];
    } else {
      CellsEnd(s, p, n - 1);
    }
  }

  lemma CellsEnd(s: seq<Byte>, p: nat, n: nat)
    requires CellsFrom(s, p, n).Done? && p <= |s|
    ensures CellsFrom(s, p, n).end == p + n + Autotiles(CellsFrom(s, p, n).value)
  {
    hide CellsFrom, Autotiles;
    CellsSound(s, p, n);
    BaseWireLength(CellsFrom(s, p, n).value);
  }

  /** A read map byte by byte: the name behind its length, two sizes with the low byte
      first, the base cells row by row, and the top cells behind them. */
  lemma MapStands(s: seq<Byte>, k: nat)
    requires Parse(s).Done? && k < Parse(s).value.width * Parse(s).value.height
    ensures var m := Parse(s).value;
      var p := 1 + |m.tileset|;
      && |m.base| == |m.top| == m.width * m.height && p + 4 <= |s|
      && s[0] == |m.tileset| && s[1..p] == m.tileset
      && m.width == s[p] as int + 256 * s[p + 1] as int && m.height == s[p + 2] as int + 256 * s[p + 3] as int
      && (var at := p + 4 + k + Autotiles(m.base[..k]);
          at < |s| && s[at] == m.base[k].tile
          && if 6 <= s[at] < 18 then at + 1 < |s| && s[at + 1] == m.base[k].mask else m.base[k].mask == 0)
      && var top := p + 4 + m.width * m.height + Autotiles(m.base) + k;
         top < |s| && s[top] == m.top[k]
  {
    hide CellsFrom, Autotiles;
    var m := Parse(s).value;
    CellStands(s, 5 + |m.tileset|, m.width * m.height, k);
    CellsEnd(s, 5 + |m.tileset|, m.width * m.height);
  }

  // ------------------------------------------------------------ the reader

  /** A stream and the place reached in it. Every read that fails has used it up;
      only one that found nothing at all marks it finished. */
  class BinaryReader {
    const stream: seq<Byte>
    var pos: nat
    var finished: bool

    constructor (stream: seq<Byte>)
      ensures this.stream == stream && pos == 0 && !finished
    {
      this.stream, pos, finished := stream, 0, false;
    }

    method ReadUint8() returns (failed: bool, v: Byte)
      modifies this
      ensures failed <==> ByteFrom(stream, old(pos)).Fail?
      ensures !failed ==> ByteFrom(stream, old(pos)) == Done(v, pos)
      ensures failed ==> pos >= |stream|
      ensures finished == (old(finished) || failed)
    {
      if pos >= |stream| {
        finished := true;
        return true, 0;
      }
      failed, v := false, stream[pos];
      pos := pos + 1;
    }

    /** Little-endian; one byte alone is an error but not the end of the stream. */
    method ReadUint16() returns (failed: bool, v: nat)
      modifies this
      ensures failed <==> Le16From(stream, old(pos)).Fail?
      ensures !failed ==> Le16From(stream, old(pos)) == Done(v, pos)
      ensures failed ==> pos >= |stream|
      ensures finished == (old(finished) || old(pos) >= |stream|)
    {
      if pos + 2 > |stream| {
        finished := finished || pos >= |stream|;
        pos := if pos < |stream| then |stream| else pos;
        return true, 0;
      }
      failed, v := false, stream[pos] + stream[pos + 1] as int * 256;
      pos := pos + 2;
    }

    method ReadShortStr() returns (failed: bool, v: seq<Byte>)
      modifies this
      ensures failed <==> StringFrom(stream, old(pos)).Fail?
      ensures !failed ==> StringFrom(stream, old(pos)) == Done(v, pos)
      ensures failed ==> pos >= |stream|
      ensures finished == (old(finished) || old(pos) >= |stream|)
    {
      var length;
      failed, length := ReadUint8();
      if failed {
        return true, [];
      }
      if pos + length > |stream| {
        pos := |stream|;
        return true, [];
      }
      v := stream[pos..pos + length];
      pos := pos + length;
    }
  }

  class AutoTilemap {
    const Layer0: Array2D<int>
    const Bitmasks: Array2D<Byte>
    const Layer1: Array2D<int>

    constructor (layer0: Array2D<int>, bitmasks: Array2D<Byte>, layer1: Array2D<int>)
      ensures Layer0 == layer0 && Bitmasks == bitmasks && Layer1 == layer1
    {
      Layer0, Bitmasks, Layer1 := layer0, bitmasks, layer1;
    }
  }

  /** The arrays hold the first `n` cells and no mask beyond them. */
  ghost predicate HoldsCells(tiles: Array2D<int>, masks: Array2D<Byte>, cells: seq<Cell>, n: nat)
    reads tiles.cells, masks.cells
  {
    && n <= |cells| && n <= tiles.cells.Length == masks.cells.Length
    && (forall k :: 0 <= k < n ==> tiles.cells[k] == cells[k].tile && masks.cells[k] == cells[k].mask)
    && forall k :: n <= k < masks.cells.Length ==> masks.cells[k] == 0
  }

  ghost predicate HoldsTop(tiles: Array2D<int>, top: seq<Byte>)
    reads tiles.cells
  {
    tiles.cells.Length == |top| && forall k :: 0 <= k < |top| ==> tiles.cells[k] == top[k]
  }

  lemma {:induction false} FailStays(s: seq<Byte>, p: nat, k: nat, n: nat)
    requires k <= n && CellsFrom(s, p, k).Fail?
    ensures CellsFrom(s, p, n).Fail?
    decreases n
  {
    if k < n {
      FailStays(s, p, k, n - 1);
    }
  }

  /** The reader has read `k` cells since `start` and the arrays hold them. */
  ghost predicate ReadSoFar(br: BinaryReader, tiles: Array2D<int>, masks: Array2D<Byte>, start: nat, k: nat)
    reads br, tiles.cells, masks.cells
  {
    var r := CellsFrom(br.stream, start, k);
    r.Done? && r.end == br.pos && HoldsCells(tiles, masks, r.value, k)
  }

  /** Reads one cell: a tile, and its bitmask when it is an autotile. */
  method ReadCell(br: BinaryReader, tiles: Array2D<int>, masks: Array2D<Byte>, col: nat, row: nat, ghost start: nat, ghost k: nat)
    returns (failed: bool)
    requires tiles.Valid() && masks.Valid() && tiles.width == masks.width && tiles.height == masks.height
    requires tiles.cells as object != masks.cells && col < tiles.width && row < tiles.height
    requires k == Position(col, row, tiles.width) && ReadSoFar(br, tiles, masks, start, k)
    modifies br, tiles.cells, masks.cells
    ensures failed <==> CellsFrom(br.stream, start, k + 1).Fail?
    ensures !failed ==> ReadSoFar(br, tiles, masks, start, k + 1)
  {
    hide Position;
    PositionInRange(col, row, tiles.width, tiles.height);
    var tile;
    failed, tile := br.ReadUint8();
    if failed {
      return;
    }
    var outside := tiles.Set(col, row, tile);
    if IsAutotile(tile) {
      var bitmask;
      failed, bitmask := br.ReadUint8();
      if failed {
        return;
      }
      outside := masks.Set(col, row, bitmask);
    }
  }

  /** Reads the base layer cell by cell; a bitmask follows exactly the autotiles. */
  method ReadBase(br: BinaryReader, width: nat, height: nat) returns (failed: bool, tiles: Array2D<int>, masks: Array2D<Byte>)
    modifies br
    ensures tiles.Valid() && masks.Valid() && fresh(tiles.cells) && fresh(masks.cells)
    ensures tiles.width == masks.width == width && tiles.height == masks.height == height
    ensures failed <==> CellsFrom(br.stream, old(br.pos), width * height).Fail?
    ensures !failed ==> ReadSoFar(br, tiles, masks, old(br.pos), width * height)
  {
    hide ReadSoFar, CellsFrom;
    tiles := new Array2D<int>(width, height, 0);
    masks := new Array2D<Byte>(width, height, 0);
    ghost var start, k := br.pos, 0;
    NothingRead(br, tiles, masks);
    failed := false;
    for row := 0 to height
      invariant k == row * width && !failed && ReadSoFar(br, tiles, masks, start, k)
    {
      for col := 0 to width
        invariant k == Position(col, row, width) && !failed && ReadSoFar(br, tiles, masks, start, k)
      {
        failed := ReadCell(br, tiles, masks, col, row, start, k);
        if failed {
          PositionInRange(col, row, width, height);
          FailStays(br.stream, start, k + 1, width * height);
          return;
        }
        k := k + 1;
      }
      assert k == (row + 1) * width;
    }
    SomethingRead(br, tiles, masks, start, k);
  }

  lemma NothingRead(br: BinaryReader, tiles: Array2D<int>, masks: Array2D<Byte>)
    requires tiles.cells.Length == masks.cells.Length && forall k :: 0 <= k < masks.cells.Length ==> masks.cells[k] == 0
    ensures ReadSoFar(br, tiles, masks, br.pos, 0)
  {
  }

  lemma SomethingRead(br: BinaryReader, tiles: Array2D<int>, masks: Array2D<Byte>, start: nat, k: nat)
    requires ReadSoFar(br, tiles, masks, start, k)
    ensures CellsFrom(br.stream, start, k).Done?
  {
  }

  method ReadTop(br: BinaryReader, width: nat, height: nat) returns (failed: bool, tiles: Array2D<int>)
    requires br.pos <= |br.stream|
    modifies br
    ensures tiles.Valid() && tiles.width == width && tiles.height == height && fresh(tiles.cells)
    ensures var r := TopFrom(br.stream, old(br.pos), width * height);
      && (failed <==> r.Fail?)
      && (!failed ==> r.end == br.pos && HoldsTop(tiles, r.value))
  {
    tiles := new Array2D<int>(width, height, 0);
    ghost var start, k := br.pos, 0;
    failed := false;
    for row := 0 to height
      invariant k == row * width && !failed && br.pos == start + k && (k > 0 ==> start + k <= |br.stream|)
      invariant k <= tiles.cells.Length
      invariant forall j :: 0 <= j < k ==> tiles.cells[j] == br.stream[start + j]
    {
      for col := 0 to width
        invariant k == Position(col, row, width) && !failed && br.pos == start + k && (k > 0 ==> start + k <= |br.stream|)
        invariant k <= tiles.cells.Length
        invariant forall j :: 0 <= j < k ==> tiles.cells[j] == br.stream[start + j]
      {
        PositionInRange(col, row, width, height);
        var tile;
        failed, tile := br.ReadUint8();
        if failed {
          return;
        }
        var outside := tiles.Set(col, row, tile);
        k := k + 1;
      }
      assert k == (row + 1) * width;
    }
  }

  /** What the reader hands over: a map's sizes, base layer with masks, and top
      layer. The tileset's name is read and dropped. */
  ghost predicate Shows(a: AutoTilemap, m: MapData)
    reads a.Layer0.cells, a.Bitmasks.cells, a.Layer1.cells
  {
    && a.Layer0.Valid() && a.Bitmasks.Valid() && a.Layer1.Valid()
    && a.Layer0.width == a.Bitmasks.width == a.Layer1.width == m.width
    && a.Layer0.height == a.Bitmasks.height == a.Layer1.height == m.height
    && HoldsCells(a.Layer0, a.Bitmasks, m.base, m.width * m.height)
    && HoldsTop(a.Layer1, m.top)
  }

  /** So the arrays of a loaded map hold, at column x of row y, the tile and mask that
      stand in the file behind y rows and x cells, and the top tile likewise. */
  lemma CellOfFile(a: AutoTilemap, s: seq<Byte>, x: nat, y: nat, k: nat)
    requires Parse(s).Done? && Shows(a, Parse(s).value) && x < a.Layer0.width && y < a.Layer0.height
    requires k == y * a.Layer0.width + x
    ensures var m := Parse(s).value;
      && k < |m.base| && |m.base| == |m.top|
      && var at, top := 5 + |m.tileset| + k + Autotiles(m.base[..k]), 5 + |m.tileset| + |m.base| + Autotiles(m.base) + k;
         && at < |s| && a.Layer0.Get(x, y) == s[at]
         && (if 6 <= s[at] < 18 then at + 1 < |s| && a.Bitmasks.Get(x, y) == s[at + 1] else a.Bitmasks.Get(x, y) == 0)
         && top < |s| && a.Layer1.Get(x, y) == s[top]
  {
    hide CellsFrom, Autotiles, Parse;
    PositionInRange(x, y, a.Layer0.width, a.Layer0.height);
    MapStands(s, k);
  }

  /** The whole file, or an error and no map. */
  method ReadAutoTilemap(br: BinaryReader) returns (failed: bool, loaded: AutoTilemap?)
    requires br.pos == 0
    modifies br
    ensures failed <==> Parse(br.stream).Fail?
    ensures failed ==> loaded == null
    ensures !failed ==> loaded != null && br.pos == Parse(br.stream).end && Shows(loaded, Parse(br.stream).value)
  {
    hide CellsFrom, HoldsCells, HoldsTop;
    loaded := null;
    var tileset, width, height, base, masks, top;
    failed, tileset := br.ReadShortStr();
    if failed { return; }
    failed, width := br.ReadUint16();
    if failed { return; }
    failed, height := br.ReadUint16();
    if failed { return; }
    failed, base, masks := ReadBase(br, width, height);
    if failed { return; }
    failed, top := ReadTop(br, width, height);
    if failed { return; }
    loaded := new AutoTilemap(base, masks, top);
  }
}
