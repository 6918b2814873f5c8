// The player's record: how the server changes it and writes it into the
// full-status message (server/entities/player.go), and how the browser reads
// that message back (client-svelte/src/lib/client/game_state.js).
module PlayerRecord {
  import opened Arithmetic
  import opened Vitals
  import opened Bytes
  import opened Book
  import opened ClientMessage
  import opened Options

  type Str = seq<Byte>

  datatype Item = Item(name: Str, weight: int, id: Str)

  // Everything the full-status message carries. The vitals are numbers on the server
  // and may be `undefined` in a browser.
  datatype FullStatus<+V> = FullStatus(
    name: Str, handle: Str, sprite: Str,
    spectator: bool, room: Str, x: int, y: int,
    energy: V, hunger: V, thirst: V, health: V, equipped: int, balance: int,
    maxWeight: int, currentWeight: int, maxItemCount: int, itemCount: int, itemIds: seq<Str>)

  // ------------------------------------------------------------ the layout

  function ProfileWire(r: FullStatus<int>): seq<Byte> {
    ShortString(r.name) + ShortString(r.handle) + ShortString(r.sprite)
  }

  function StatusWire(r: FullStatus<int>): seq<Byte> {
    Flag(r.spectator) + ShortString(r.room) + U32(r.x) + U32(r.y)
    + U8(r.energy) + U8(r.hunger) + U8(r.thirst) + U8(r.health) + U16(r.equipped) + U32(r.balance)
  }

  function ItemsWire(ids: seq<Str>): seq<Byte> {
    if ids == [] then [] else ShortString(ids[0]) + ItemsWire(ids[1..])
  }

  function BagWire(r: FullStatus<int>): seq<Byte> {
    U16(r.maxWeight) + U16(r.currentWeight) + U16(r.maxItemCount) + U16(r.itemCount) + ItemsWire(r.itemIds)
  }

  function Wire(r: FullStatus<int>): seq<Byte> {
    ProfileWire(r) + StatusWire(r) + BagWire(r)
  }

  /** The items are written one after another, in their order. */
  lemma {:induction false} ItemsInOrder(a: seq<Str>, s: Str, b: seq<Str>)
    ensures ItemsWire(a + [s] + b) == ItemsWire(a) + ShortString(s) + ItemsWire(b)
    decreases |a|
  {
    hide ShortString;
    var all := a + [s] + b;
    if a == [] {
      assert all[0] == s && all[1..] == b;
    } else {
      assert all[0] == a[0] && all[1..] == a[1..] + [s] + b;
      ItemsInOrder(a[1..], s, b);
    }
  }

  /** Reads `n` strings in a row. */
  function ItemsHere(b: seq<Byte>, at: Place, n: nat): (r: (seq<Str>, Place))
    ensures |r.0| == n
    decreases n
  {
    if n == 0 then ([], at) else
    var (s, after) := StringHere(b, at);
    var (rest, end) := ItemsHere(b, after, n - 1);
    ([s] + rest, end)
  }

  /** The browser's reading of the numbers behind the room's name, and of the items. */
  function ReadTail(b: seq<Byte>, at: Place, name: Str, handle: Str, sprite: Str, spectator: bool, room: Str):
      (FullStatus<Option<int>>, Place) {
    var q := Pos(b, at);
    var n := U16At(b, q + 24);
    var (itemIds, end) := ItemsHere(b, Advance(at, 26), n);
    (FullStatus(name, handle, sprite, spectator, room, I32At(b, q), I32At(b, q + 4),
                Here(b, Advance(at, 8)), Here(b, Advance(at, 9)), Here(b, Advance(at, 10)), Here(b, Advance(at, 11)),
                U16At(b, q + 12), I32At(b, q + 14),
                U16At(b, q + 18), U16At(b, q + 20), U16At(b, q + 22), n, itemIds), end)
  }

  /** The browser's reading of a full status from a place on, and the place it ends. */
  function Read(b: seq<Byte>, at: Place): (FullStatus<Option<int>>, Place) {
    var (name, a1) := StringHere(b, at);
    var (handle, a2) := StringHere(b, a1);
    var (sprite, a3) := StringHere(b, a2);
    var (room, a4) := StringHere(b, Advance(a3, 1));
    ReadTail(b, a4, name, handle, sprite, Here(b, a3) == Some(1), room)
  }

  /** The record as a browser holds it when every vital is defined. */
  function Seen(r: FullStatus<int>): FullStatus<Option<int>> {
    FullStatus(r.name, r.handle, r.sprite, r.spectator, r.room, r.x, r.y,
               Some(r.energy), Some(r.hunger), Some(r.thirst), Some(r.health), r.equipped, r.balance,
               r.maxWeight, r.currentWeight, r.maxItemCount, r.itemCount, r.itemIds)
  }

  // --------------------------------------------------------- the round trip

  predicate FitsByte(v: int) { 0 <= v < 256 }
  predicate FitsU16(v: int) { 0 <= v < 0x1_0000 }
  predicate FitsI32(v: int) { -0x8000_0000 <= v < 0x8000_0000 }

  /** Every field but the vitals is in the range of its slot, every string has at most
      255 bytes, and the announced number of items is the number of items. */
  ghost predicate FitsBut<V>(r: FullStatus<V>) {
    && |r.name| < 256 && |r.handle| < 256 && |r.sprite| < 256 && |r.room| < 256
    && FitsI32(r.x) && FitsI32(r.y) && FitsI32(r.balance)
    && FitsU16(r.equipped) && FitsU16(r.maxWeight) && FitsU16(r.currentWeight)
    && FitsU16(r.maxItemCount) && FitsU16(r.itemCount)
    && r.itemCount == |r.itemIds| && forall s :: s in r.itemIds ==> |s| < 256
  }

  ghost predicate Fits(r: FullStatus<int>) {
    FitsBut(r) && FitsByte(r.energy) && FitsByte(r.hunger) && FitsByte(r.thirst) && FitsByte(r.health)
  }

  lemma {:induction false} ItemsReadBack(b: seq<Byte>, p: nat, ids: seq<Str>)
    requires Holds(b, p, ItemsWire(ids)) && forall s :: s in ids ==> |s| < 256
    ensures ItemsHere(b, At(p), |ids|) == (ids, At(p + |ItemsWire(ids)|))
    decreases |ids|
  {
    hide StringHere, ShortString, Holds;
    if ids == [] {
      assert |ItemsWire(ids)| == 0;
    } else {
      HoldsSplit(b, p, ShortString(ids[0]), ItemsWire(ids[1..]));
      StringHeld(b, p, ids[0]);
      ItemsReadBack(b, p + 1 + |ids[0]|, ids[1..]);
      assert ids == [ids[0]] + ids[1..];
    }
  }

  lemma {:induction false} ItemsAreShort(b: seq<Byte>, at: Place, n: nat)
    ensures forall s :: s in ItemsHere(b, at, n).0 ==> |s| < 256
    decreases n
  {
    if n > 0 {
      ItemsAreShort(b, StringHere(b, at).1, n - 1);
    }
  }

  /** A vital that a browser holds is a byte or `undefined`. */
  predicate ByteOrNone(v: Option<int>) {
    v.Some? ==> FitsByte(v.value)
  }

  /** Whatever bytes come, complete or not, what the browser reads would fit in a
      message but for vitals that are `undefined`. */
  lemma ReadFits(b: seq<Byte>, at: Place)
    ensures var r := Read(b, at).0;
      FitsBut(r) && ByteOrNone(r.energy) && ByteOrNone(r.hunger) && ByteOrNone(r.thirst) && ByteOrNone(r.health)
  {
    hide ItemsHere;
    var a3 := StringHere(b, StringHere(b, StringHere(b, at).1).1).1;
    var a4 := StringHere(b, Advance(a3, 1)).1;
    ItemsAreShort(b, Advance(a4, 26), U16At(b, Pos(b, a4) + 24));
  }

  lemma ByteHeld(b: seq<Byte>, p: nat, v: int)
    requires Holds(b, p, U8(v)) && FitsByte(v)
    ensures Here(b, At(p)) == Some(v)
  {
    U8ReadBack(b, p, v);
  }

  lemma FlagHeld(b: seq<Byte>, p: nat, f: bool)
    requires Holds(b, p, Flag(f))
    ensures Here(b, At(p)) == Some(1) <==> f
  {
    FlagReadBack(b, p, f);
  }

  lemma ProfileHeld(b: seq<Byte>, p: nat, r: FullStatus<int>)
    requires Holds(b, p, ProfileWire(r)) && |r.name| < 256 && |r.handle| < 256 && |r.sprite| < 256
    ensures StringHere(b, At(p)) == (r.name, At(p + 1 + |r.name|))
    ensures StringHere(b, At(p + 1 + |r.name|)) == (r.handle, At(p + 2 + |r.name| + |r.handle|))
    ensures StringHere(b, At(p + 2 + |r.name| + |r.handle|)) == (r.sprite, At(p + |ProfileWire(r)|))
  {
    hide StringHere, ShortString, Holds;
    var e0, e1, e2 := ShortString(r.name), ShortString(r.handle), ShortString(r.sprite);
    HoldsSplit(b, p, e0 + e1, e2);
    HoldsSplit(b, p, e0, e1);
    StringHeld(b, p, r.name);
    StringHeld(b, p + |e0|, r.handle);
    StringHeld(b, p + |e0| + |e1|, r.sprite);
  }

  lemma StatusHeld(b: seq<Byte>, p: nat, r: FullStatus<int>)
    requires Holds(b, p, StatusWire(r)) && Fits(r)
    ensures (Here(b, At(p)) == Some(1) <==> r.spectator) && StringHere(b, At(p + 1)) == (r.room, At(p + 2 + |r.room|))
    ensures var q := p + 2 + |r.room|;
            && q + 18 == p + |StatusWire(r)|
            && I32At(b, q) == r.x && I32At(b, q + 4) == r.y
            && Here(b, At(q + 8)) == Some(r.energy) && Here(b, At(q + 9)) == Some(r.hunger)
            && Here(b, At(q + 10)) == Some(r.thirst) && Here(b, At(q + 11)) == Some(r.health)
            && U16At(b, q + 12) == r.equipped && I32At(b, q + 14) == r.balance
  {
    hide I32At, U16At, Here, StringHere, U8, U16, U32, Flag, ShortString, Holds;
    var e1 := Flag(r.spectator) + ShortString(r.room);
    var e2 := e1 + U32(r.x);
    var e3 := e2 + U32(r.y);
    var e4 := e3 + U8(r.energy);
    var e5 := e4 + U8(r.hunger);
    var e6 := e5 + U8(r.thirst);
    var e7 := e6 + U8(r.health);
    var e8 := e7 + U16(r.equipped);
    HoldsSplit(b, p, e8, U32(r.balance));
    HoldsSplit(b, p, e7, U16(r.equipped));
    HoldsSplit(b, p, e6, U8(r.health));
    HoldsSplit(b, p, e5, U8(r.thirst));
    HoldsSplit(b, p, e4, U8(r.hunger));
    HoldsSplit(b, p, e3, U8(r.energy));
    HoldsSplit(b, p, e2, U32(r.y));
    HoldsSplit(b, p, e1, U32(r.x));
    HoldsSplit(b, p, Flag(r.spectator), ShortString(r.room));
    var q := p + 2 + |r.room|;
    FlagHeld(b, p, r.spectator);
    StringHeld(b, p + 1, r.room);
    I32ReadBack(b, q, r.x);
    I32ReadBack(b, q + 4, r.y);
    ByteHeld(b, q + 8, r.energy);
    ByteHeld(b, q + 9, r.hunger);
    ByteHeld(b, q + 10, r.thirst);
    ByteHeld(b, q + 11, r.health);
    U16ReadBack(b, q + 12, r.equipped);
    I32ReadBack(b, q + 14, r.balance);
  }

  lemma BagHeld(b: seq<Byte>, p: nat, r: FullStatus<int>)
    requires Holds(b, p, BagWire(r)) && Fits(r)
    ensures U16At(b, p) == r.maxWeight && U16At(b, p + 2) == r.currentWeight
    ensures U16At(b, p + 4) == r.maxItemCount && U16At(b, p + 6) == r.itemCount
    ensures ItemsHere(b, At(p + 8), |r.itemIds|) == (r.itemIds, At(p + |BagWire(r)|))
  {
    hide I32At, U16At, U16, Holds, ItemsHere, ItemsWire;
    var e1 := U16(r.maxWeight) + U16(r.currentWeight);
    var e2 := e1 + U16(r.maxItemCount);
    var e3 := e2 + U16(r.itemCount);
    HoldsSplit(b, p, e3, ItemsWire(r.itemIds));
    HoldsSplit(b, p, e2, U16(r.itemCount));
    HoldsSplit(b, p, e1, U16(r.maxItemCount));
    HoldsSplit(b, p, U16(r.maxWeight), U16(r.currentWeight));
    U16ReadBack(b, p, r.maxWeight);
    U16ReadBack(b, p + 2, r.currentWeight);
    U16ReadBack(b, p + 4, r.maxItemCount);
    U16ReadBack(b, p + 6, r.itemCount);
    ItemsReadBack(b, p + 8, r.itemIds);
  }

  /** The browser reads back exactly the record the server wrote, and stops exactly
      where the server stopped, if and only if the record fits. */
  lemma FullStatusRoundTrip(b: seq<Byte>, p: nat, r: FullStatus<int>)
    requires Holds(b, p, Wire(r))
    ensures Read(b, At(p)) == (Seen(r), At(p + |Wire(r)|)) <==> Fits(r)
    ensures Read(b, At(p)).0 == Seen(r) <==> Fits(r)
  {
    hide I32At, U16At, Here, StringHere, StringAt, Holds, ItemsHere, ProfileWire, StatusWire, BagWire;
    ReadFits(b, At(p));
    if Fits(r) {
      HoldsSplit(b, p, ProfileWire(r) + StatusWire(r), BagWire(r));
      HoldsSplit(b, p, ProfileWire(r), StatusWire(r));
      ProfileHeld(b, p, r);
      StatusHeld(b, p + |ProfileWire(r)|, r);
      BagHeld(b, p + |ProfileWire(r)| + |StatusWire(r)|, r);
    }
  }

  // ------------------------------------- appending one by one and together

  lemma Grouped2(s: seq<Byte>, a: seq<Byte>, b: seq<Byte>)
    ensures s + a + b == s + (a + b)
  {
  }

  lemma Grouped4(s: seq<Byte>, a: seq<Byte>, b: seq<Byte>, c: seq<Byte>, d: seq<Byte>)
    ensures s + a + b + c + d == s + (a + b + c + d)
  {
    Grouped2(s, a, b);
    Grouped2(s, a + b, c);
    Grouped2(s, a + b + c, d);
  }

  lemma Grouped10(s: seq<Byte>, a: seq<Byte>, b: seq<Byte>, c: seq<Byte>, d: seq<Byte>,
        e: seq<Byte>, f: seq<Byte>, g: seq<Byte>, h: seq<Byte>, i: seq<Byte>, j: seq<Byte>)
    ensures s + a + b + c + d + e + f + g + h + i + j == s + (a + b + c + d + e + f + g + h + i + j)
  {
    Grouped4(s, a, b, c, d);
    var abcd := a + b + c + d;
    Grouped4(s, abcd, e, f, g);
    var abcdefg := abcd + e + f + g;
    Grouped4(s, abcdefg, h, i, j);
  }

  // ------------------------------------------------- the server's objects

  datatype PlayerProfile = PlayerProfile(name: Str, handle: Str, sprite: Str)

  class PlayerStatus {
    var Ghost: bool
    var CurrentMap: Str
    var X: int
    var Y: int
    var Energy: int
    var Hunger: int
    var Thirst: int
    var Health: int
    var EquippedId: int
    var Balance: int
    var DistanceWalked: int

    constructor (room: Str, x: int, y: int)
      ensures CurrentMap == room && X == x && Y == y
      ensures Current() == Vitals(0, 0, 0, 0, 0)
    {
      Ghost, CurrentMap, X, Y := false, room, x, y;
      Energy, Hunger, Thirst, Health, EquippedId, Balance, DistanceWalked := 0, 0, 0, 0, 0, 0, 0;
    }

    function Current(): Vitals
      reads this
    {
      Vitals(Energy, Hunger, Thirst, Health, DistanceWalked)
    }

    method Tick()
      modifies this`Energy, this`Hunger, this`Thirst, this`Health, this`DistanceWalked
      ensures Current() == Ticked(old(Current()))
    {
      Hunger := Min(100, Hunger + 3);
      Thirst := Min(100, Thirst + 1);
      Energy := Max(0, Energy - TruncDiv(DistanceWalked, 10));
      DistanceWalked := 0;
      if Hunger == 100 {
        Health := Max(0, Health - 1);
      }
      if Thirst == 100 {
        Health := Max(0, Health - 3);
      }
      if Energy == 0 {
        Health := Max(0, Health - 1);
      }
    }

    /** The position report of the player's own browser. */
    method Walk(x: int, y: int)
      modifies this`X, this`Y, this`DistanceWalked
      ensures X == x && Y == y
      ensures Current() == Walked(old(Current()), Abs(old(X) - x) + Abs(old(Y) - y))
    {
      var oldX, oldY := X, Y;
      X, Y := x, y;
      DistanceWalked := DistanceWalked + Abs(oldX - X) + Abs(oldY - Y);
    }

    method WriteToMessage(out: Book)
      modifies out
      ensures out.bytes == old(out.bytes)
        + (Flag(Ghost) + ShortString(CurrentMap) + U32(X) + U32(Y)
           + U8(Energy) + U8(Hunger) + U8(Thirst) + U8(Health) + U16(EquippedId) + U32(Balance))
    {
      hide Flag, ShortString, U8, U16, U32;
      ghost var start := out.bytes;
      out.PutBool(Ghost);
      out.PutShortString(CurrentMap);
      out.PutInt32(X);
      out.PutInt32(Y);
      out.PutInt8(Energy);
      out.PutInt8(Hunger);
      out.PutInt8(Thirst);
      out.PutInt8(Health);
      out.PutInt16(EquippedId);
      out.PutInt32(Balance);
      Grouped10(start, Flag(Ghost), ShortString(CurrentMap), U32(X), U32(Y),
                U8(Energy), U8(Hunger), U8(Thirst), U8(Health), U16(EquippedId), U32(Balance));
    }
  }

  // ------------------------------------------------ how heavy a bag gets

  /** The items of a bag after one more is offered to it; `weighed` is the weight the
      bag believes it carries, which nothing ever changes. */
  function Offered(carried: seq<Item>, item: Item, maxWeight: int, weighed: int, maxItemCount: int): seq<Item> {
    if weighed + item.weight > maxWeight || |carried| + 1 > maxItemCount then carried else carried + [item]
  }

  /** An empty bag after these items are offered to it one by one. */
  function Packed(items: seq<Item>, maxWeight: int, weighed: int, maxItemCount: int): seq<Item> {
    if items == [] then [] else
    var n := |items| - 1;
    Offered(Packed(items[..n], maxWeight, weighed, maxItemCount), items[n], maxWeight, weighed, maxItemCount)
  }

  function TotalWeight(items: seq<Item>): int {
    if items == [] then 0 else TotalWeight(items[..|items| - 1]) + items[|items| - 1].weight
  }

  lemma OfferedBound(carried: seq<Item>, item: Item, maxWeight: int, weighed: int, maxItemCount: int, cap: int)
    requires cap == maxWeight - weighed && TotalWeight(carried) <= |carried| * cap
    ensures var bag := Offered(carried, item, maxWeight, weighed, maxItemCount);
      TotalWeight(bag) <= |bag| * cap
  {
    assert (carried + [item])[..|carried|] == carried;
    OneMore(|carried|, cap);
  }

  /** Whatever is offered, each item carried is light enough alone, and no more than
      MaxItemCount of them are carried. */
  lemma {:induction false} PackedBound(items: seq<Item>, maxWeight: int, weighed: int, maxItemCount: int)
    ensures var bag := Packed(items, maxWeight, weighed, maxItemCount);
      && TotalWeight(bag) <= |bag| * (maxWeight - weighed)
      && |bag| <= if maxItemCount < 0 then 0 else maxItemCount
    decreases |items|
  {
    hide TotalWeight;
    if items == [] {
      WeighsNothing();
    } else {
      var n := |items| - 1;
      PackedBound(items[..n], maxWeight, weighed, maxItemCount);
      OfferedBound(Packed(items[..n], maxWeight, weighed, maxItemCount), items[n], maxWeight, weighed, maxItemCount,
                   maxWeight - weighed);
    }
  }

  lemma WeighsNothing()
    ensures TotalWeight([]) == 0
  {
  }

  /** Items that each use up the whole limit. */
  function Heaviest(k: nat, weight: int): (items: seq<Item>)
    ensures |items| == k
  {
    if k == 0 then [] else Heaviest(k - 1, weight) + [Item([], weight, [])]
  }

  lemma HeaviestNext(k: nat, maxWeight: int, weighed: int, maxItemCount: int, cap: int)
    requires k < maxItemCount && cap == maxWeight - weighed
    ensures var few, more := Heaviest(k, cap), Heaviest(k + 1, cap);
      && more[..k] == few
      && Offered(few, more[k], maxWeight, weighed, maxItemCount) == more
      && TotalWeight(more) == TotalWeight(few) + cap
  {
    assert Heaviest(k + 1, cap)[..k] == Heaviest(k, cap);
  }

  /** A bag takes as many of the heaviest items as its count allows. */
  lemma {:induction false} TakesHeaviest(k: nat, maxWeight: int, weighed: int, maxItemCount: int, cap: int)
    requires k <= maxItemCount && cap == maxWeight - weighed
    ensures var items := Heaviest(k, cap);
      Packed(items, maxWeight, weighed, maxItemCount) == items && TotalWeight(items) == k * cap
    decreases k
  {
    if k == 0 {
      assert Heaviest(0, cap) == [];
    } else {
      hide Offered, Heaviest, TotalWeight, Packed;
      TakesHeaviest(k - 1, maxWeight, weighed, maxItemCount, cap);
      HeaviestNext(k - 1, maxWeight, weighed, maxItemCount, cap);
      OneMore(k - 1, cap);
    }
  }

  lemma OneMore(k: nat, w: int)
    ensures (k + 1) * w == k * w + w
  {
  }

  ghost predicate NeverOverweight(maxWeight: int, weighed: int, maxItemCount: int) {
    forall items :: TotalWeight(Packed(items, maxWeight, weighed, maxItemCount)) <= maxWeight
  }

  /** A bag keeps within its weight limit, whatever is offered to it, if and only if
      MaxItemCount items of the heaviest kind it takes do. */
  lemma NeverOverweightIff(maxWeight: int, weighed: int, maxItemCount: int)
    ensures NeverOverweight(maxWeight, weighed, maxItemCount)
            <==> maxWeight >= 0 && (maxItemCount > 0 ==> maxItemCount * (maxWeight - weighed) <= maxWeight)
  {
    if NeverOverweight(maxWeight, weighed, maxItemCount) {
      assert TotalWeight(Packed([], maxWeight, weighed, maxItemCount)) == 0;
      if maxItemCount > 0 {
        TakesHeaviest(maxItemCount, maxWeight, weighed, maxItemCount, maxWeight - weighed);
      }
    }
    if maxWeight >= 0 && (maxItemCount > 0 ==> maxItemCount * (maxWeight - weighed) <= maxWeight) {
      forall items
        ensures TotalWeight(Packed(items, maxWeight, weighed, maxItemCount)) <= maxWeight
      {
        PackedBound(items, maxWeight, weighed, maxItemCount);
        var bag := Packed(items, maxWeight, weighed, maxItemCount);
        FewerWeighLess(|bag|, maxItemCount, maxWeight - weighed);
      }
    }
  }

  lemma {:induction false} FewerWeighLess(k: nat, n: int, w: int)
    requires k <= if n < 0 then 0 else n
    ensures k * w <= 0 || k * w <= n * w
    decreases n - k
  {
    if k < n {
      FewerWeighLess(k + 1, n, w);
      assert (k + 1) * w == k * w + w;
    }
  }

  /** A new bag weighs nothing, so a limit above zero is kept if and only if the bag
      takes at most one item; two items of the full limit already break it. */
  lemma NewBagOverweightIff(maxWeight: int, maxItemCount: int)
    requires maxWeight > 0
    ensures NeverOverweight(maxWeight, 0, maxItemCount) <==> maxItemCount <= 1
    ensures maxItemCount >= 2 ==>
              var bag := Packed(Heaviest(2, maxWeight), maxWeight, 0, maxItemCount);
              bag == Heaviest(2, maxWeight) && TotalWeight(bag) == 2 * maxWeight > maxWeight
  {
    NeverOverweightIff(maxWeight, 0, maxItemCount);
    if maxItemCount >= 2 {
      TakesHeaviest(2, maxWeight, 0, maxItemCount, maxWeight);
      OneRow(maxItemCount - 1, maxWeight);
    }
  }

  class Bag {
    var MaxWeight: int
    var CurrentWeight: int
    var MaxItemCount: int
    var ItemCount: int
    var ItemIds: seq<Str>
    var Items: seq<Item>

    constructor (maxItemCount: int, maxWeight: int)
      ensures Counted() && ItemIds == [] && MaxItemCount == maxItemCount && MaxWeight == maxWeight && CurrentWeight == 0
    {
      MaxWeight, CurrentWeight, MaxItemCount, ItemCount := maxWeight, 0, maxItemCount, 0;
      ItemIds, Items := [], [];
    }

    /** The announced number of items is the number of items. */
    predicate Counted()
      reads this
    {
      ItemCount == |ItemIds|
    }

    /** Refuses an item too heavy or one too many; the weight of the bag is not
        added up, as in the source. */
    method Add(item: Item) returns (failed: bool)
      modifies this`ItemCount, this`ItemIds, this`Items
      ensures failed <==> CurrentWeight + item.weight > MaxWeight || old(ItemCount) + 1 > MaxItemCount
      ensures failed ==> unchanged(this)
      ensures !failed ==> ItemIds == old(ItemIds) + [item.id] && Items == old(Items) + [item] && ItemCount == old(ItemCount) + 1
      ensures old(Counted()) ==> Counted()
      ensures old(ItemCount) == |old(Items)| ==>
                Items == Offered(old(Items), item, MaxWeight, CurrentWeight, MaxItemCount) && ItemCount == |Items|
    {
      if CurrentWeight + item.weight > MaxWeight {
        return true;
      }
      if ItemCount + 1 > MaxItemCount {
        return true;
      }
      ItemCount := ItemCount + 1;
      ItemIds := ItemIds + [item.id];
      Items := Items + [item];
      failed := false;
    }

    method WriteToMessage(out: Book)
      modifies out
      ensures out.bytes == old(out.bytes)
        + (U16(MaxWeight) + U16(CurrentWeight) + U16(MaxItemCount) + U16(ItemCount) + ItemsWire(ItemIds))
    {
      hide ShortString, U16;
      ghost var start := out.bytes;
      out.PutInt16(MaxWeight);
      out.PutInt16(CurrentWeight);
      out.PutInt16(MaxItemCount);
      out.PutInt16(ItemCount);
      ghost var header := out.bytes;
      Grouped4(start, U16(MaxWeight), U16(CurrentWeight), U16(MaxItemCount), U16(ItemCount));
      for i := 0 to |ItemIds|
        invariant out.bytes + ItemsWire(ItemIds[i..]) == header + ItemsWire(ItemIds)
      {
        assert ItemIds[i..][1..] == ItemIds[i + 1..];
        out.PutShortString(ItemIds[i]);
      }
      assert ItemIds[|ItemIds|..] == [] && out.bytes + [] == out.bytes;
      Grouped2(start, U16(MaxWeight) + U16(CurrentWeight) + U16(MaxItemCount) + U16(ItemCount), ItemsWire(ItemIds));
    }
  }

  class Player {
    const Profile: PlayerProfile
    const Status: PlayerStatus
    const Bag: Bag

    constructor (profile: PlayerProfile, status: PlayerStatus, bag: Bag)
      ensures Profile == profile && Status == status && Bag == bag
    {
      Profile, Status, Bag := profile, status, bag;
    }

    /** The record as a value. */
    function Record(): FullStatus<int>
      reads Status, Bag
    {
      FullStatus(Profile.name, Profile.handle, Profile.sprite,
                 Status.Ghost, Status.CurrentMap, Status.X, Status.Y,
                 Status.Energy, Status.Hunger, Status.Thirst, Status.Health, Status.EquippedId, Status.Balance,
                 Bag.MaxWeight, Bag.CurrentWeight, Bag.MaxItemCount, Bag.ItemCount, Bag.ItemIds)
    }

    method WriteToMessage(out: Book)
      modifies out
      ensures out.bytes == old(out.bytes) + Wire(Record())
    {
      hide Flag, ShortString, U8, U16, U32, ItemsWire;
      ghost var start, r := out.bytes, Record();
      out.PutShortString(Profile.name);
      out.PutShortString(Profile.handle);
      out.PutShortString(Profile.sprite);
      Grouped2(start, ShortString(r.name), ShortString(r.handle));
      Grouped2(start, ShortString(r.name) + ShortString(r.handle), ShortString(r.sprite));
      Status.WriteToMessage(out);
      Grouped2(start, ProfileWire(r), StatusWire(r));
      Bag.WriteToMessage(out);
      Grouped2(start, ProfileWire(r) + StatusWire(r), BagWire(r));
    }
  }

  method ReadItems(msg: Message, count: nat) returns (items: seq<Str>)
    modifies msg`pointer
    ensures (items, msg.pointer) == ItemsHere(msg.bytes, old(msg.pointer), count)
  {
    hide StringHere;
    items := [];
    ghost var all := ItemsHere(msg.bytes, msg.pointer, count).0;
    assert items + all == all;
    for i := 0 to count
      invariant var (rest, end) := ItemsHere(msg.bytes, msg.pointer, count - i);
                ItemsHere(msg.bytes, old(msg.pointer), count) == (items + rest, end)
    {
      ghost var rest := ItemsHere(msg.bytes, msg.pointer, count - i).0;
      var item := msg.TakeShortString();
      assert items + rest == (items + [item]) + rest[1..];
      items := items + [item];
    }
    assert items + [] == items;
  }

  /** The numbers and the items. */
  method TakeTail(msg: Message, name: Str, handle: Str, sprite: Str, spectator: bool, room: Str)
      returns (r: FullStatus<Option<int>>)
    modifies msg`pointer
    ensures (r, msg.pointer) == ReadTail(msg.bytes, old(msg.pointer), name, handle, sprite, spectator, room)
  {
    hide Here, U16At, I32At, ItemsHere, Pos, StringHere;
    ghost var b, at := msg.bytes, msg.pointer;
    forall k: nat
      ensures U16At(b, Pos(b, Advance(at, k))) == U16At(b, Pos(b, at) + k)
      ensures I32At(b, Pos(b, Advance(at, k))) == I32At(b, Pos(b, at) + k)
    {
      AdvancePos(b, at, k);
    }
    var x := msg.TakeI32();
    assert msg.pointer == Advance(at, 4);
    var y := msg.TakeI32();
    assert msg.pointer == Advance(at, 8);
    var energy := msg.TakeI8();
    assert msg.pointer == Advance(at, 9);
    var hunger := msg.TakeI8();
    assert msg.pointer == Advance(at, 10);
    var thirst := msg.TakeI8();
    assert msg.pointer == Advance(at, 11);
    var health := msg.TakeI8();
    assert msg.pointer == Advance(at, 12);
    var equipped := msg.TakeI16();
    assert msg.pointer == Advance(at, 14);
    var balance := msg.TakeI32();
    assert msg.pointer == Advance(at, 18);
    var maxWeight := msg.TakeI16();
    assert msg.pointer == Advance(at, 20);
    var currentWeight := msg.TakeI16();
    assert msg.pointer == Advance(at, 22);
    var maxItemCount := msg.TakeI16();
    assert msg.pointer == Advance(at, 24);
    var itemCount := msg.TakeI16();
    assert msg.pointer == Advance(at, 26);
    var items := ReadItems(msg, itemCount);
    r := FullStatus(name, handle, sprite, spectator, room, x, y, energy, hunger, thirst, health, equipped, balance,
                    maxWeight, currentWeight, maxItemCount, itemCount, items);
  }

  /** The browser's reading of a full status, after the message byte. */
  method ReadFullStatus(msg: Message) returns (r: FullStatus<Option<int>>)
    modifies msg`pointer
    ensures (r, msg.pointer) == Read(msg.bytes, old(msg.pointer))
  {
    hide Here, StringHere, ReadTail;
    var name := msg.TakeShortString();
    var handle := msg.TakeShortString();
    var sprite := msg.TakeShortString();
    var spectator := msg.TakeBool();
    var room := msg.TakeShortString();
    r := TakeTail(msg, name, handle, sprite, spectator, room);
  }

  /** From the server's objects to the browser's record through one message. */
  method SendFullStatus(player: Player) returns (r: FullStatus<Option<int>>, consumed: bool)
    ensures r == Seen(player.Record()) && consumed <==> Fits(player.Record())
  {
    hide Wire, Read, Fits, Holds, Seen;
    var out := new Book([]);
    out.PutInt8(FULL_STATUS);
    player.WriteToMessage(out);
    var msg := new Message.FromBytes(out.bytes);
    var code := msg.TakeI8();
    assert out.bytes == U8(FULL_STATUS) + Wire(player.Record());
    HeldAfter(U8(FULL_STATUS), Wire(player.Record()));
    FullStatusRoundTrip(out.bytes, 1, player.Record());
    r := ReadFullStatus(msg);
    consumed := msg.pointer == At(|msg.bytes|);
  }

  const FULL_STATUS := 7
}
