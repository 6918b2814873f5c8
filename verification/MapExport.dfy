// The map exporter (maps/extensions/tileset_format.js): the layers of a map as
// bytes, as they are or run-length encoded.
module MapExport {
  import opened Bytes
  import opened ClientMessage
  import Rle

  // Rows of tile numbers; only a tile layer has any.
  datatype Layer = Layer(name: seq<CodeUnit>, isObject: bool, isTile: bool, cells: seq<seq<int>>)
  {
    ghost predicate Valid() {
      forall y :: 0 <= y < |cells| ==> |cells[y]| == Width()
    }

    function Width(): nat {
      if cells == [] then 0 else |cells[0]|
    }
  }

  function RowBytes(row: seq<int>): seq<Byte> {
    if row == [] then [] else RowBytes(row[..|row| - 1]) + U16(row[|row| - 1])
  }

  function CellBytes(cells: seq<seq<int>>): seq<Byte> {
    if cells == [] then [] else CellBytes(cells[..|cells| - 1]) + RowBytes(cells[|cells| - 1])
  }

  function LayerBytes(l: Layer): seq<Byte> {
    ShortString(LowBytes(l.name)) + Flag(l.isObject)
    + if l.isTile then U16(l.Width()) + U16(|l.cells|) + CellBytes(l.cells) else []
  }

  function LayersBytes(layers: seq<Layer>): seq<Byte> {
    if layers == [] then [] else LayersBytes(layers[..|layers| - 1]) + LayerBytes(layers[|layers| - 1])
  }

  function MapBytes(layers: seq<Layer>): seq<Byte> {
    U16(|layers|) + LayersBytes(layers)
  }

  // ------------------------------------------- where everything stands

  /** Two bytes at a place, the high one first, that hold the low half of a number. */
  predicate HalfAt(file: seq<Byte>, at: int, v: int) {
    0 <= at && at + 1 < |file| && 256 * file[at] as int + file[at + 1] == v % 0x1_0000
  }

  function NameSize(l: Layer): nat {
    if |l.name| < 255 then |l.name| else 255
  }

  function LayerSize(l: Layer): nat {
    2 + NameSize(l) + if l.isTile then 4 + 2 * (|l.cells| * l.Width()) else 0
  }

  /** The name behind its length, and whether it is an object layer. */
  ghost predicate HeadStands(file: seq<Byte>, at: nat, l: Layer) {
    && at + 1 + NameSize(l) < |file|
    && file[at] == NameSize(l) && (forall k :: 0 <= k < NameSize(l) ==> file[at + 1 + k] == l.name[k] % 256)
    && file[at + 1 + NameSize(l)] == if l.isObject then 1 else 0
  }

  /** How far behind the first cell the cell (x, y) stands: row by row, from the top. */
  function CellOffset(x: nat, y: nat, width: nat): nat {
    2 * (y * width + x)
  }

  ghost predicate CellsStand(file: seq<Byte>, at: nat, cells: seq<seq<int>>, width: nat)
    requires forall y :: 0 <= y < |cells| ==> |cells[y]| == width
  {
    forall x, y :: 0 <= y < |cells| && 0 <= x < width ==> HalfAt(file, at + CellOffset(x, y, width), cells[y][x])
  }

  /** From `at` on the file has the layer's name behind its length, whether it is an
      object layer and, of a tile layer, its width, its height and its cells. */
  ghost predicate LayerStands(file: seq<Byte>, at: nat, l: Layer)
    requires l.Valid()
  {
    var sizes := at + 2 + NameSize(l);
    && HeadStands(file, at, l)
    && (l.isTile ==>
          HalfAt(file, sizes, l.Width()) && HalfAt(file, sizes + 2, |l.cells|) && CellsStand(file, sizes + 4, l.cells, l.Width()))
  }

  function TotalSize(layers: seq<Layer>): nat {
    if layers == [] then 0 else TotalSize(layers[..|layers| - 1]) + LayerSize(layers[|layers| - 1])
  }

  /** The number of layers, then the layers in order and nothing else. */
  ghost predicate MapStands(file: seq<Byte>, layers: seq<Layer>)
    requires forall l :: l in layers ==> l.Valid()
  {
    && |file| == 2 + TotalSize(layers) && HalfAt(file, 0, |layers|)
    && forall i {:trigger layers[i]} :: 0 <= i < |layers| ==> LayerStands(file, 2 + TotalSize(layers[..i]), layers[i])
  }

  lemma HalfPut(before: seq<Byte>, v: int, after: seq<Byte>)
    ensures HalfAt(before + U16(v) + after, |before|, v)
  {
    LowHalf(v);
  }

  lemma {:induction false} RowAt(row: seq<int>, x: nat)
    requires x < |row|
    ensures |RowBytes(row)| == 2 * |row| && HalfAt(RowBytes(row), 2 * x, row[x])
    decreases |row|
  {
    hide U16;
    var n := |row| - 1;
    RowLength(row);
    RowLength(row[..n]);
    if x < n {
      RowAt(row[..n], x);
    } else {
      HalfPut(RowBytes(row[..n]), row[n], []);
      assert RowBytes(row[..n]) + U16(row[n]) + [] == RowBytes(row);
    }
  }

  /** A half at a place of some bytes is at the place moved on when bytes stand around. */
  lemma HalfWithin(before: seq<Byte>, s: seq<Byte>, after: seq<Byte>, at: nat, v: int)
    requires HalfAt(s, at, v)
    ensures HalfAt(before + s + after, |before| + at, v)
  {
  }

  lemma {:induction false} CellAt(cells: seq<seq<int>>, width: nat, x: nat, y: nat)
    requires forall v :: 0 <= v < |cells| ==> |cells[v]| == width
    requires x < width && y < |cells|
    ensures HalfAt(CellBytes(cells), CellOffset(x, y, width), cells[y][x])
    decreases |cells|
  {
    hide RowBytes, HalfAt;
    var n := |cells| - 1;
    var rows, row := CellBytes(cells[..n]), RowBytes(cells[n]);
    assert rows + row + [] == rows + row && [] + rows + row == rows + row;
    if y < n {
      hide CellOffset;
      CellAt(cells[..n], width, x, y);
      HalfWithin([], rows, row, CellOffset(x, y, width), cells[y][x]);
    } else {
      GridLength(cells[..n], width);
      RowAt(cells[n], x);
      LastRowOffset(x, n, width);
      HalfWithin(rows, row, [], 2 * x, cells[n][x]);
    }
  }

  lemma LastRowOffset(x: nat, n: nat, width: nat)
    ensures n * (2 * width) + 2 * x == CellOffset(x, n, width)
  {
  }

  lemma LayerLength(l: Layer)
    requires l.Valid()
    ensures |LayerBytes(l)| == LayerSize(l)
  {
    hide CellBytes, U16;
    if l.isTile {
      GridLength(l.cells, l.Width());
    }
  }

  lemma HeadPlaces(l: Layer, after: seq<Byte>)
    ensures HeadStands(ShortString(LowBytes(l.name)) + Flag(l.isObject) + after, 0, l)
  {
  }

  lemma CellsPlace(before: seq<Byte>, cells: seq<seq<int>>, width: nat)
    requires forall v :: 0 <= v < |cells| ==> |cells[v]| == width
    ensures CellsStand(before + CellBytes(cells), |before|, cells, width)
  {
    hide CellBytes, HalfAt, CellOffset;
    forall x, y | 0 <= y < |cells| && 0 <= x < width
      ensures HalfAt(before + CellBytes(cells), |before| + CellOffset(x, y, width), cells[y][x])
    {
      CellAt(cells, width, x, y);
      HalfWithin(before, CellBytes(cells), [], CellOffset(x, y, width), cells[y][x]);
      assert before + CellBytes(cells) + [] == before + CellBytes(cells);
    }
  }

  lemma LayerPlaces(l: Layer)
    requires l.Valid()
    ensures LayerStands(LayerBytes(l), 0, l)
  {
    hide CellBytes, U16, HalfAt, HeadStands, CellsStand, LowBytes, Flag;
    var head := ShortString(LowBytes(l.name)) + Flag(l.isObject);
    NameLength(l);
    if l.isTile {
      var w, h, grid := U16(l.Width()), U16(|l.cells|), CellBytes(l.cells);
      HeadPlaces(l, w + h + grid);
      Joined(head + w, h, grid);
      HalfPut(head, l.Width(), h + grid);
      HalfPut(head + w, |l.cells|, grid);
      CellsPlace(head + w + h, l.cells, l.Width());
      Appended(head, w, h, grid);
    } else {
      HeadPlaces(l, []);
    }
  }

  lemma NameLength(l: Layer)
    ensures |LowBytes(l.name)| == NameSize(l)
  {
  }

  lemma HeadWithin(before: seq<Byte>, s: seq<Byte>, after: seq<Byte>, at: nat, l: Layer)
    requires HeadStands(s, at, l)
    ensures HeadStands(before + s + after, |before| + at, l)
  {
    var file := before + s + after;
    assert forall k :: 0 <= k < |s| ==> file[|before| + k] == s[k];
  }

  lemma LayerWithin(before: seq<Byte>, s: seq<Byte>, after: seq<Byte>, at: nat, l: Layer)
    requires l.Valid() && LayerStands(s, at, l)
    ensures LayerStands(before + s + after, |before| + at, l)
  {
    hide HalfAt, HeadStands, CellOffset;
    HeadWithin(before, s, after, at, l);
    if l.isTile {
      var sizes := at + 2 + NameSize(l);
      HalfWithin(before, s, after, sizes, l.Width());
      HalfWithin(before, s, after, sizes + 2, |l.cells|);
      forall x, y | 0 <= y < |l.cells| && 0 <= x < l.Width()
        ensures HalfAt(before + s + after, |before| + (sizes + 4 + CellOffset(x, y, l.Width())), l.cells[y][x])
      {
        HalfWithin(before, s, after, sizes + 4 + CellOffset(x, y, l.Width()), l.cells[y][x]);
      }
    }
  }

  lemma {:induction false} LayersPlace(layers: seq<Layer>, i: nat)
    requires i < |layers| && forall l :: l in layers ==> l.Valid()
    ensures LayerStands(LayersBytes(layers), TotalSize(layers[..i]), layers[i])
    decreases |layers|
  {
    hide LayerStands, LayerBytes, LayerSize;
    var n := |layers| - 1;
    var bytes, last := LayersBytes(layers[..n]), LayerBytes(layers[n]);
    assert bytes + last + [] == bytes + last && [] + bytes + last == bytes + last;
    if i < n {
      LayersPlace(layers[..n], i);
      assert layers[..n][..i] == layers[..i];
      LayerWithin([], bytes, last, TotalSize(layers[..i]), layers[i]);
    } else {
      LayersLength(layers[..n]);
      LayerPlaces(layers[n]);
      LayerWithin(bytes, last, [], 0, layers[n]);
    }
  }

  lemma {:induction false} LayersLength(layers: seq<Layer>)
    requires forall l :: l in layers ==> l.Valid()
    ensures |LayersBytes(layers)| == TotalSize(layers)
    decreases |layers|
  {
    hide LayerBytes, LayerSize;
    if layers != [] {
      LayersLength(layers[..|layers| - 1]);
      LayerLength(layers[|layers| - 1]);
    }
  }

  lemma MapPlaces(layers: seq<Layer>)
    requires forall l :: l in layers ==> l.Valid()
    ensures MapStands(MapBytes(layers), layers)
  {
    hide LayersBytes, TotalSize, LayerStands, U16;
    LayersLength(layers);
    var n, bytes := U16(|layers|), LayersBytes(layers);
    assert n + bytes == [] + n + bytes == n + bytes + [];
    HalfPut([], |layers|, bytes);
    forall i | 0 <= i < |layers|
      ensures LayerStands(MapBytes(layers), 2 + TotalSize(layers[..i]), layers[i])
    {
      LayersPlace(layers, i);
      LayerWithin(n, bytes, [], TotalSize(layers[..i]), layers[i]);
    }
  }

  // ----------------------------------------------------------- the writer

  method PutRow(buffer: seq<Byte>, row: seq<int>) returns (grown: seq<Byte>)
    ensures grown == buffer + RowBytes(row)
  {
    hide U16;
    grown := buffer;
    for x := 0 to |row|
      invariant grown == buffer + RowBytes(row[..x])
    {
      assert row[..x + 1][..x] == row[..x];
      grown := grown + U16(row[x]);
    }
    assert row[..|row|] == row;
  }

  /** Rows one after another. */
  method PutCells(buffer: seq<Byte>, cells: seq<seq<int>>) returns (grown: seq<Byte>)
    ensures grown == buffer + CellBytes(cells)
  {
    hide RowBytes;
    grown := buffer;
    for y := 0 to |cells|
      invariant grown == buffer + CellBytes(cells[..y])
    {
      assert cells[..y + 1][..y] == cells[..y];
      grown := PutRow(grown, cells[y]);
    }
    assert cells[..|cells|] == cells;
  }

  method PutLayer(buffer: seq<Byte>, layer: Layer) returns (grown: seq<Byte>)
    requires layer.Valid()
    ensures grown == buffer + LayerBytes(layer)
    ensures grown[..|buffer|] == buffer && |grown| == |buffer| + LayerSize(layer) && LayerStands(grown, |buffer|, layer)
    ensures layer.isTile ==> forall x, y :: 0 <= y < |layer.cells| && 0 <= x < layer.Width() ==>
              HalfAt(grown, |buffer| + NameSize(layer) + 6 + 2 * (y * layer.Width() + x), layer.cells[y][x])
  {
    hide U16, LowBytes, ShortString, CellBytes, LayerStands, LayerSize, HalfAt;
    grown := buffer + ShortString(LowBytes(layer.name));
    grown := grown + if layer.isObject then [1] else [0];
    ghost var sizes := [];
    if layer.isTile {
      ghost var header := grown;
      grown := grown + U16(layer.Width());
      grown := grown + U16(|layer.cells|);
      grown := PutCells(grown, layer.cells);
      sizes := U16(layer.Width()) + U16(|layer.cells|) + CellBytes(layer.cells);
      Appended(header, U16(layer.Width()), U16(|layer.cells|), CellBytes(layer.cells));
    }
    assert grown == buffer + ShortString(LowBytes(layer.name)) + Flag(layer.isObject) + sizes;
    Appended(buffer, ShortString(LowBytes(layer.name)), Flag(layer.isObject), sizes);
    LayerLength(layer);
    LayerPlaces(layer);
    LayerWithin(buffer, LayerBytes(layer), [], 0, layer);
    assert buffer + LayerBytes(layer) + [] == grown;
    if layer.isTile {
      CellsByOffset(grown, |buffer|, layer);
    }
  }

  lemma CellsByOffset(file: seq<Byte>, at: nat, l: Layer)
    requires l.Valid() && l.isTile && LayerStands(file, at, l)
    ensures forall x, y :: 0 <= y < |l.cells| && 0 <= x < l.Width() ==>
              HalfAt(file, at + NameSize(l) + 6 + 2 * (y * l.Width() + x), l.cells[y][x])
  {
    hide HalfAt, HeadStands;
  }

  lemma Appended(s: seq<Byte>, a: seq<Byte>, b: seq<Byte>, c: seq<Byte>)
    ensures s + a + b + c == s + (a + b + c)
  {
  }

  /** Writes a map layer by layer, then as it is or run-length encoded. */
  method WriteMapToFile(layers: seq<Layer>, rleEnabled: bool) returns (file: seq<Byte>)
    requires forall l :: l in layers ==> l.Valid()
    ensures file == if rleEnabled then Rle.Wire(Rle.Tokens(MapBytes(layers))) else MapBytes(layers)
    ensures MapStands(MapBytes(layers), layers)
  {
    hide LayerBytes, U16, MapStands, LayerStands, LayerSize;
    MapPlaces(layers);
    var buffer := U16(|layers|);
    for i := 0 to |layers|
      invariant buffer == U16(|layers|) + LayersBytes(layers[..i])
    {
      assert layers[..i + 1][..i] == layers[..i];
      buffer := PutLayer(buffer, layers[i]);
    }
    assert layers[..|layers|] == layers;
    if rleEnabled {
      file := Rle.ConstructRLE(buffer);
    } else {
      file := buffer;
    }
  }

  // ------------------------------------------ when the plain file is the map

  /** A tile number that two bytes hold; -1 is the empty cell. */
  predicate FitsCell(id: int) {
    -1 <= id < 0xFFFF
  }

  /** A layer whose fields fit, and that is a tile layer or an object layer. */
  ghost predicate Regular(l: Layer) {
    && |l.name| < 256 && (forall c :: c in l.name ==> c < 256)
    && l.isTile == !l.isObject
    && if l.isTile then FitsGrid(l) else l.cells == []
  }

  ghost predicate FitsGrid(l: Layer) {
    && l.Valid() && |l.cells| < 0x1_0000 && l.Width() < 0x1_0000
    && forall row, id :: row in l.cells && id in row ==> FitsCell(id)
  }

  lemma CellUnique(a: int, b: int)
    requires FitsCell(a) && FitsCell(b) && U16(a) == U16(b)
    ensures a == b
  {
    LowHalf(a);
    LowHalf(b);
  }

  lemma SizeUnique(a: nat, b: nat)
    requires a < 0x1_0000 && b < 0x1_0000 && U16(a) == U16(b)
    ensures a == b
  {
    LowHalf(a);
    LowHalf(b);
  }

  lemma {:induction false} RowLength(row: seq<int>)
    ensures |RowBytes(row)| == 2 * |row|
  {
    if row != [] {
      RowLength(row[..|row| - 1]);
    }
  }

  lemma {:induction false} RowUnique(a: seq<int>, b: seq<int>)
    requires |a| == |b| && RowBytes(a) == RowBytes(b)
    requires (forall id :: id in a ==> FitsCell(id)) && forall id :: id in b ==> FitsCell(id)
    ensures a == b
    decreases |a|
  {
    hide U16;
    if a != [] {
      var n := |a| - 1;
      RowLength(a[..n]);
      RowLength(b[..n]);
      SameSplit(RowBytes(a[..n]), U16(a[n]), RowBytes(b[..n]), U16(b[n]));
      RowUnique(a[..n], b[..n]);
      CellUnique(a[n], b[n]);
      assert a == a[..n] + [a[n]] && b == b[..n] + [b[n]];
    }
  }

  /** Two ways to cut one sequence, at the same place. */
  lemma SameSplit(a: seq<Byte>, c: seq<Byte>, b: seq<Byte>, d: seq<Byte>)
    requires a + c == b + d && |a| == |b|
    ensures a == b && c == d
  {
    assert (a + c)[..|a|] == a && (b + d)[..|b|] == b;
    assert (a + c)[|a|..] == c && (b + d)[|b|..] == d;
  }

  lemma {:induction false} GridLength(cells: seq<seq<int>>, width: nat)
    requires forall y :: 0 <= y < |cells| ==> |cells[y]| == width
    ensures |CellBytes(cells)| == |cells| * (2 * width)
    decreases |cells|
  {
    hide RowBytes;
    if cells != [] {
      var n := |cells| - 1;
      GridLength(cells[..n], width);
      RowLength(cells[n]);
      OneMore(n, 2 * width);
    }
  }

  lemma OneMore(k: nat, w: int)
    ensures (k + 1) * w == k * w + w
  {
  }

  lemma {:induction false} GridUnique(a: seq<seq<int>>, b: seq<seq<int>>, width: nat)
    requires |a| == |b| && CellBytes(a) == CellBytes(b)
    requires forall y :: 0 <= y < |a| ==> |a[y]| == |b[y]| == width
    requires forall row, id :: row in a && id in row ==> FitsCell(id)
    requires forall row, id :: row in b && id in row ==> FitsCell(id)
    ensures a == b
    decreases |a|
  {
    hide RowBytes;
    if a != [] {
      var n := |a| - 1;
      GridLength(a[..n], width);
      GridLength(b[..n], width);
      SameSplit(CellBytes(a[..n]), RowBytes(a[n]), CellBytes(b[..n]), RowBytes(b[n]));
      GridUnique(a[..n], b[..n], width);
      RowUnique(a[n], b[n]);
      assert a == a[..n] + [a[n]] && b == b[..n] + [b[n]];
    }
  }

  /** The sizes and cells of a tile layer, and what follows, are read back. */
  lemma GridPrefix(a: Layer, b: Layer, s: seq<Byte>, t: seq<Byte>)
    requires FitsGrid(a) && FitsGrid(b)
    requires U16(a.Width()) + U16(|a.cells|) + CellBytes(a.cells) + s == U16(b.Width()) + U16(|b.cells|) + CellBytes(b.cells) + t
    ensures a.cells == b.cells && s == t
  {
    hide U16, CellBytes, FitsCell;
    Grouped(U16(a.Width()), U16(|a.cells|), CellBytes(a.cells), s);
    Grouped(U16(b.Width()), U16(|b.cells|), CellBytes(b.cells), t);
    SameSplit(U16(a.Width()), U16(|a.cells|) + (CellBytes(a.cells) + s), U16(b.Width()), U16(|b.cells|) + (CellBytes(b.cells) + t));
    SameSplit(U16(|a.cells|), CellBytes(a.cells) + s, U16(|b.cells|), CellBytes(b.cells) + t);
    SizeUnique(a.Width(), b.Width());
    SizeUnique(|a.cells|, |b.cells|);
    GridLength(a.cells, a.Width());
    GridLength(b.cells, b.Width());
    SameSplit(CellBytes(a.cells), s, CellBytes(b.cells), t);
    GridUnique(a.cells, b.cells, a.Width());
  }

  lemma Grouped(a: seq<Byte>, b: seq<Byte>, c: seq<Byte>, d: seq<Byte>)
    ensures a + b + c + d == a + (b + (c + d))
  {
  }

  lemma NameUnique(a: seq<CodeUnit>, b: seq<CodeUnit>, s: seq<Byte>, t: seq<Byte>)
    requires |a| < 256 && |b| < 256 && (forall c :: c in a ==> c < 256) && forall c :: c in b ==> c < 256
    requires ShortString(LowBytes(a)) + s == ShortString(LowBytes(b)) + t
    ensures a == b && s == t
  {
    var x, y := LowBytes(a), LowBytes(b);
    assert (ShortString(x) + s)[0] == |x| && (ShortString(y) + t)[0] == |y|;
    SameSplit(ShortString(x), s, ShortString(y), t);
    assert ShortString(x)[1..] == x && ShortString(y)[1..] == y;
    forall k | 0 <= k < |a|
      ensures a[k] == b[k]
    {
      assert a[k] in a && b[k] in b && x[k] == y[k];
    }
  }

  /** A regular layer at the front of a file, and what follows it, are read back. */
  lemma LayerPrefix(a: Layer, b: Layer, s: seq<Byte>, t: seq<Byte>)
    requires Regular(a) && Regular(b) && LayerBytes(a) + s == LayerBytes(b) + t
    ensures a == b && s == t
  {
    hide ShortString, LowBytes, CellBytes, U16, FitsGrid;
    var u, v := Sizes(a) + s, Sizes(b) + t;
    Parts(a, s);
    Parts(b, t);
    NameUnique(a.name, b.name, Flag(a.isObject) + u, Flag(b.isObject) + v);
    SameSplit(Flag(a.isObject), u, Flag(b.isObject), v);
    assert Flag(a.isObject)[0] == Flag(b.isObject)[0];
    if a.isTile {
      GridPrefix(a, b, s, t);
    }
  }

  function Sizes(l: Layer): seq<Byte> {
    if l.isTile then U16(l.Width()) + U16(|l.cells|) + CellBytes(l.cells) else []
  }

  lemma Parts(l: Layer, s: seq<Byte>)
    ensures LayerBytes(l) + s == ShortString(LowBytes(l.name)) + (Flag(l.isObject) + (Sizes(l) + s))
    ensures !l.isTile ==> Sizes(l) + s == s
  {
    hide ShortString, LowBytes, CellBytes, U16, Flag;
    Grouped(ShortString(LowBytes(l.name)), Flag(l.isObject), Sizes(l), s);
  }

  lemma LastLayer(layers: seq<Layer>, l: Layer)
    ensures LayersBytes(layers + [l]) == LayersBytes(layers) + LayerBytes(l)
  {
    hide LayerBytes;
    assert (layers + [l])[..|layers|] == layers;
  }

  lemma {:induction false} FirstLayer(layers: seq<Layer>)
    requires layers != []
    ensures LayersBytes(layers) == LayerBytes(layers[0]) + LayersBytes(layers[1..])
    decreases |layers|
  {
    hide LayerBytes, LayersBytes;
    var n := |layers| - 1;
    var before, last := layers[..n], layers[n];
    LastLayer(before, last);
    assert layers == before + [last];
    NoLayers();
    if n == 0 {
      assert layers[1..] == [];
    } else {
      FirstLayer(before);
      LastLayer(before[1..], last);
      assert layers[1..] == before[1..] + [last];
      Joined(LayerBytes(layers[0]), LayersBytes(before[1..]), LayerBytes(last));
    }
  }

  lemma Joined(a: seq<Byte>, b: seq<Byte>, c: seq<Byte>)
    ensures a + b + c == a + (b + c)
  {
  }

  lemma {:induction false} LayersUnique(a: seq<Layer>, b: seq<Layer>)
    requires |a| == |b| && LayersBytes(a) == LayersBytes(b)
    requires (forall l :: l in a ==> Regular(l)) && forall l :: l in b ==> Regular(l)
    ensures a == b
    decreases |a|
  {
    hide LayersBytes, LayerBytes, Regular;
    if a != [] {
      FirstLayer(a);
      FirstLayer(b);
      LayerPrefix(a[0], b[0], LayersBytes(a[1..]), LayersBytes(b[1..]));
      LayersUnique(a[1..], b[1..]);
      assert a == [a[0]] + a[1..] && b == [b[0]] + b[1..];
    }
  }

  /** Of maps of tile and object layers whose fields fit, the plain file determines
      the map. */
  lemma PlainFileUnique(a: seq<Layer>, b: seq<Layer>)
    requires |a| < 0x1_0000 && |b| < 0x1_0000
    requires (forall l :: l in a ==> Regular(l)) && forall l :: l in b ==> Regular(l)
    ensures MapBytes(a) == MapBytes(b) <==> a == b
  {
    hide LayersBytes, Regular, U16;
    if MapBytes(a) == MapBytes(b) {
      SameSplit(U16(|a|), LayersBytes(a), U16(|b|), LayersBytes(b));
      SizeUnique(|a|, |b|);
      LayersUnique(a, b);
    }
  }

  const TILE_LAYER := Layer([], false, true, [[0]])
  const IMAGE_LAYER := Layer([], false, false, [])
  const OBJECT_LAYER := Layer([], true, false, [])

  lemma LayersAsBytes()
    ensures LayerBytes(TILE_LAYER) == [0, 0, 0, 1, 0, 1, 0, 0]
    ensures LayerBytes(IMAGE_LAYER) == [0, 0] && LayerBytes(OBJECT_LAYER) == [0, 1]
  {
    hide CellBytes;
    assert ShortString(LowBytes([])) == [0];
    assert U16(1) == [0, 1] && CellBytes([[0]]) == [0, 0] by {
      var row: seq<int>, none: seq<int> := [0], [];
      assert row[..0] == none && [row][..0] == [];
      assert RowBytes(row) == [] + U16(0);
      CellsOfOneRow(row);
    }
    assert LayerBytes(TILE_LAYER) == [0] + [0] + ([0, 1] + [0, 1] + [0, 0]);
  }

  lemma CellsOfOneRow(row: seq<int>)
    ensures CellBytes([row]) == RowBytes(row)
  {
    hide RowBytes;
    assert [row][..0] == [] && CellBytes([row]) == [] + RowBytes(row);
  }

  /** With image layers, which are neither, it does not: nothing written says whether
      a layer has sizes and cells. */
  lemma ImageLayersAmbiguous()
    ensures Regular(TILE_LAYER) && Regular(OBJECT_LAYER)
    ensures var a := [TILE_LAYER, IMAGE_LAYER, OBJECT_LAYER, OBJECT_LAYER, IMAGE_LAYER];
      var b := [IMAGE_LAYER, OBJECT_LAYER, OBJECT_LAYER, IMAGE_LAYER, TILE_LAYER];
      a != b && MapBytes(a) == MapBytes(b)
  {
    hide LayersBytes, LayerBytes;
    LayersAsBytes();
    FiveLayers(TILE_LAYER, IMAGE_LAYER, OBJECT_LAYER, OBJECT_LAYER, IMAGE_LAYER);
    FiveLayers(IMAGE_LAYER, OBJECT_LAYER, OBJECT_LAYER, IMAGE_LAYER, TILE_LAYER);
    var a := [TILE_LAYER, IMAGE_LAYER, OBJECT_LAYER, OBJECT_LAYER, IMAGE_LAYER];
    var b := [IMAGE_LAYER, OBJECT_LAYER, OBJECT_LAYER, IMAGE_LAYER, TILE_LAYER];
    var bytes := [0, 0, 0, 1, 0, 1, 0, 0, 0, 0, 0, 1, 0, 1, 0, 0];
    assert LayersBytes(a) == bytes;
    assert LayersBytes(b) == bytes;
    assert a[0] != b[0];
  }

  lemma FiveLayers(a: Layer, b: Layer, c: Layer, d: Layer, e: Layer)
    ensures LayersBytes([a, b, c, d, e]) == LayerBytes(a) + (LayerBytes(b) + (LayerBytes(c) + (LayerBytes(d) + LayerBytes(e))))
  {
    hide LayerBytes, LayersBytes;
    var all := [a, b, c, d, e];
    FirstLayer(all);
    assert all[1..] == [b, c, d, e];
    FirstLayer([b, c, d, e]);
    assert [b, c, d, e][1..] == [c, d, e];
    FirstLayer([c, d, e]);
    assert [c, d, e][1..] == [d, e];
    FirstLayer([d, e]);
    assert [d, e][1..] == [e];
    FirstLayer([e]);
    NoLayers();
    assert [e][1..] == [] && LayerBytes(e) + [] == LayerBytes(e);
  }

  lemma NoLayers()
    ensures LayersBytes([]) == []
  {
  }

  // ------------------------------------------------- two maps, one file

  /** A map of one tile layer, two cells wide and one high. */
  function SmallMap(left: int, right: int): (layers: seq<Layer>)
    ensures forall l :: l in layers ==> l.Valid()
  {
    [Layer([65], false, true, [[left, right]])]
  }

  lemma OneRow(left: int, right: int)
    ensures CellBytes([[left, right]]) == U16(left) + U16(right)
  {
    hide U16;
    var row: seq<int> := [left, right];
    var none: seq<int> := [];
    assert row[..1] == [left] && [left][..0] == none && [row][..0] == [];
    assert RowBytes([left]) == [] + U16(left) && RowBytes(row) == RowBytes([left]) + U16(right);
    assert CellBytes([row]) == [] + RowBytes(row);
  }

  lemma OneLayer(l: Layer)
    ensures MapBytes([l]) == U16(1) + LayerBytes(l)
  {
    hide U16, LayerBytes;
    assert [l][..0] == [] && LayersBytes([l]) == [] + LayerBytes(l);
  }

  lemma SmallMapBytes(left: int, right: int)
    ensures MapBytes(SmallMap(left, right)) == [0, 1, 1, 65, 0, 0, 2, 0, 1] + (U16(left) + U16(right))
  {
    hide MapBytes, CellBytes;
    var layer := SmallMap(left, right)[0];
    var cells := U16(left) + U16(right);
    OneRow(left, right);
    OneLayer(layer);
    NameIsLetter();
    assert U16(1) == [0, 1] && U16(2) == [0, 2];
    assert LayerBytes(layer) == [1, 65] + [0] + ([0, 2] + [0, 1] + cells);
  }

  lemma NameIsLetter()
    ensures ShortString(LowBytes([65])) == [1, 65]
  {
    assert LowBytes([65])[0] == 65;
  }

  /** For every v from 1 to 255 the map of tiles v and 257 v and the map of tiles v and
      768 are two maps; written as they are their files differ, run-length encoded
      they are one file. */
  lemma TwoMapsOneFile(v: int)
    requires 1 <= v < 256
    ensures var s, t := MapBytes(SmallMap(v, 257 * v)), MapBytes(SmallMap(v, 768));
      SmallMap(v, 257 * v) != SmallMap(v, 768) && s != t && Rle.Wire(Rle.Tokens(s)) == Rle.Wire(Rle.Tokens(t))
  {
    hide MapBytes, SmallMap, Rle.Wire, Rle.Tokens;
    var header: seq<Byte> := [0, 1, 1, 65, 0, 0, 2, 0, 1, 0];
    SmallMapBytes(v, 257 * v);
    SmallMapBytes(v, 768);
    assert U16(v) == [0, v] && U16(257 * v) == [v, v] && U16(768) == [3, 0];
    assert Rle.Repeat(v, 3) == [v, v, v];
    assert MapBytes(SmallMap(v, 257 * v)) == header + Rle.Repeat(v, 3) + [];
    assert MapBytes(SmallMap(v, 768)) == header + Rle.Counted(v, 3) + [];
    Rle.RunSharesAnywhere(header, v, 3, []);
  }
}
