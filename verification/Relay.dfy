// From one browser through the server to the others: what a session does with
// a received message (server/server/session.go, handler_player.go, server.go,
// server/msg/message.go) and what the sending and receiving browsers make of
// it (client-svelte/src/lib/client/game_state.js).
module Relay {
  import opened Arithmetic
  import opened Bytes
  import opened Book
  import opened ClientMessage

  const MIN_LENGTH := 3
  const MAX_LENGTH := 256
  const FIRST_SERVER_CODE := 1
  const LAST_SERVER_CODE := 8
  const STATUS := 10
  const ENTER_MAP := 11
  const CHAT := 12

  // "test_msg"
  const TEST_TEXT: seq<Byte> := [116, 101, 115, 116, 95, 109, 115, 103]

  // ------------------------------------------------------- handler table

  datatype Handler = OnStatus | OnEnterMap | OnChat
  datatype Entry = Nil | Set(handler: Handler)

  function Lookup(table: seq<Entry>, code: int): Entry {
    if 0 <= code < |table| then table[code] else Nil
  }

  /** Registers a handler; a table too short is doubled until it is long enough. */
  method SetMessageHandler(table: seq<Entry>, code: nat, handler: Handler) returns (grown: seq<Entry>)
    ensures forall c :: Lookup(grown, c) == if c == code then Set(handler) else Lookup(table, c)
    ensures |grown| >= |table|
  {
    grown := table;
    if grown == [] {
      grown := seq(code + 1, i => Nil);
    } else {
      while code >= |grown|
        invariant |grown| >= |table| && grown != []
        invariant forall c :: Lookup(grown, c) == Lookup(table, c)
        decreases code - |grown|
      {
        var size := |grown| * 2;
        grown := grown + seq(size - |grown|, i => Nil);
      }
    }
    grown := grown[code := Set(handler)];
  }

  /** The three handlers a server registers, and no other. */
  ghost predicate Registered(table: seq<Entry>) {
    forall c :: Lookup(table, c) == if c == STATUS then Set(OnStatus) else if c == ENTER_MAP then Set(OnEnterMap)
                                    else if c == CHAT then Set(OnChat) else Nil
  }

  method AddMessageHandlers() returns (table: seq<Entry>)
    ensures Registered(table)
  {
    table := SetMessageHandler([], STATUS, OnStatus);
    table := SetMessageHandler(table, CHAT, OnChat);
    table := SetMessageHandler(table, ENTER_MAP, OnEnterMap);
  }

  // The table as the server uses it.
  const HANDLERS: seq<Entry> :=
    [Nil, Nil, Nil, Nil, Nil, Nil, Nil, Nil, Nil, Nil, Set(OnStatus), Set(OnEnterMap), Set(OnChat)]

  lemma HandlersRegistered()
    ensures Registered(HANDLERS)
  {
  }

  // ------------------------------------------------------ the receive step

  datatype Outcome =
    | Ignored                                          // too short
    | Ejected                                          // too long
    | Refused                                          // pretends to come from the server
    | Unhandled                                        // no handler for the code
    | Panicked                                         // a handler read past the end
    | Malformed                                        // a handler found a cut string
    | Moved(x: int, y: int, relay: seq<Byte>)          // relayed to the others nearby
    | Said(text: seq<Byte>, relay: seq<Byte>)          // relayed to everyone nearby
    | Echoed                                           // answered to the sender alone
    | Entering(room: seq<Byte>, zone: seq<Byte>)

  /** The message with its id bytes overwritten by the sender's spot. */
  function Stamped(m: seq<Byte>, spot: int): (r: seq<Byte>)
    requires |m| >= 3
    ensures |r| == |m|
  {
    [m[0]] + U16(spot) + m[3..]
  }

  // A short string at a position: its length missing, its content cut, or whole.
  datatype Text = Missing | Cut | Whole(s: seq<Byte>, end: nat)

  function TextAt(m: seq<Byte>, p: nat): Text {
    if p >= |m| then Missing
    else if p + 1 + ByteAt(m, p) > |m| then Cut
    else Whole(StringAt(m, p), p + 1 + ByteAt(m, p))
  }

  function Dispatched(m: seq<Byte>, handler: Handler): Outcome {
    match handler
    case OnStatus =>
      if |m| < 7 then Panicked else Moved(I16At(m, 3), I16At(m, 5), m)
    case OnChat =>
      (match TextAt(m, 3)
       case Missing => Panicked
       case Cut => Malformed
       case Whole(s, _) => if s == TEST_TEXT then Echoed else Said(s, m))
    case OnEnterMap =>
      (match TextAt(m, 3)
       case Missing => Panicked
       case Cut => Malformed
       case Whole(room, p) =>
         match TextAt(m, p)
         case Missing => Panicked
         case Cut => Malformed
         case Whole(zone, _) => Entering(room, zone))
  }

  function Received(m: seq<Byte>, spot: int, table: seq<Entry>): Outcome {
    if |m| < MIN_LENGTH then Ignored
    else if |m| > MAX_LENGTH then Ejected
    else if FIRST_SERVER_CODE <= m[0] <= LAST_SERVER_CODE then Refused
    else match Lookup(table, m[0])
      case Nil => Unhandled
      case Set(handler) => if m[0] == 0 then Unhandled else Dispatched(Stamped(m, spot), handler)
  }

  /** One turn of the session's receive loop; the id bytes are overwritten in place. */
  method Receive(received: array<Byte>, spot: int, table: seq<Entry>) returns (outcome: Outcome)
    modifies received
    ensures outcome == Received(old(received[..]), spot, table)
    ensures received[..] == if MIN_LENGTH <= received.Length <= MAX_LENGTH then Stamped(old(received[..]), spot) else old(received[..])
  {
    if received.Length < MIN_LENGTH {
      return Ignored;
    }
    if received.Length > MAX_LENGTH {
      return Ejected;
    }
    var id := U16(spot);
    for i := 0 to 2
      invariant received[0] == old(received[0])
      invariant forall k :: 0 <= k < i ==> received[1 + k] == id[k]
      invariant forall k :: 1 + i <= k < received.Length ==> received[k] == old(received[k])
    {
      received[1 + i] := id[i];
    }
    assert received[..] == Stamped(old(received[..]), spot);
    var message := new Book(received[..]);
    if FIRST_SERVER_CODE <= received[0] <= LAST_SERVER_CODE {
      return Refused;
    }
    var panicked, code := message.TakeInt8();
    message.Skip(2);
    if code <= 0 || code >= |table| || table[code] == Nil {
      return Unhandled;
    }
    outcome := Dispatch(message, table[code].handler);
  }

  /** The handler of a message whose code and id bytes were already taken. */
  method Dispatch(message: Book, handler: Handler) returns (outcome: Outcome)
    requires message.pointer == 3 && |message.bytes| >= 3
    modifies message`pointer
    ensures outcome == Dispatched(message.bytes, handler)
  {
    match handler {
      case OnStatus =>
        var panicked, x := message.TakeInt16();
        if panicked {
          return Panicked;
        }
        var y;
        panicked, y := message.TakeInt16();
        if panicked {
          return Panicked;
        }
        var relay := ConstructByteBuffer(message.bytes[0], [message.bytes[1..]]);
        outcome := Moved(x, y, relay[..]);
      case OnChat =>
        var panicked, failed, chat := message.TakeShortString();
        if panicked {
          return Panicked;
        }
        if failed {
          return Malformed;
        }
        if chat == TEST_TEXT {
          return Echoed;
        }
        var relay := ConstructByteBuffer(message.bytes[0], [message.bytes[1..]]);
        outcome := Said(chat, relay[..]);
      case OnEnterMap =>
        var panicked, failed, room := message.TakeShortString();
        if panicked {
          return Panicked;
        }
        if failed {
          return Malformed;
        }
        var zone;
        panicked, failed, zone := message.TakeShortString();
        if panicked {
          return Panicked;
        }
        if failed {
          return Malformed;
        }
        outcome := Entering(room, zone);
    }
  }

  function Concat(parts: seq<seq<Byte>>): seq<Byte> {
    if parts == [] then [] else Concat(parts[..|parts| - 1]) + parts[|parts| - 1]
  }

  /** Copies the bytes of v to their place. */
  method CopyInto(result: array<Byte>, offset: nat, v: seq<Byte>)
    requires offset + |v| <= result.Length
    modifies result
    ensures result[..offset + |v|] == old(result[..offset]) + v
  {
    for k := 0 to |v|
      invariant forall j :: 0 <= j < offset ==> result[j] == old(result[j])
      invariant forall j :: 0 <= j < k ==> result[offset + j] == v[j]
    {
      result[offset + k] := v[k];
    }
  }

  /** A message byte followed by the parts, copied into a buffer of their total size. */
  method ConstructByteBuffer(message: Byte, data: seq<seq<Byte>>) returns (result: array<Byte>)
    ensures fresh(result) && result[..] == [message] + Concat(data)
  {
    var total := 1;
    for i := 0 to |data|
      invariant total == 1 + |Concat(data[..i])|
    {
      assert data[..i + 1][..i] == data[..i];
      total := total + |data[i]|;
    }
    assert data[..|data|] == data;
    result := new Byte[total](_ => 0);
    result[0] := message;
    var offset := 1;
    for i := 0 to |data|
      invariant offset == 1 + |Concat(data[..i])| <= total
      invariant result[..offset] == [message] + Concat(data[..i])
    {
      assert data[..i + 1][..i] == data[..i];
      ConcatGrows(data, i + 1);
      CopyInto(result, offset, data[i]);
      offset := offset + |data[i]|;
    }
  }

  lemma {:induction false} ConcatGrows(data: seq<seq<Byte>>, i: nat)
    requires i <= |data|
    ensures |Concat(data[..i])| <= |Concat(data)|
    decreases |data| - i
  {
    if i < |data| {
      assert data[..i + 1][..i] == data[..i];
      ConcatGrows(data, i + 1);
    } else {
      assert data[..i] == data;
    }
  }

  /** The parts of a message stand one after another, in their order. */
  lemma {:induction false} PartsInOrder(a: seq<seq<Byte>>, s: seq<Byte>, b: seq<seq<Byte>>)
    ensures Concat(a + [s] + b) == Concat(a) + s + Concat(b)
    decreases |b|
  {
    hide Concat;
    if b == [] {
      assert a + [s] + b == a + [s];
      LastPart(a, s);
      NoParts();
    } else {
      var rest, last := b[..|b| - 1], b[|b| - 1];
      assert b == rest + [last] && a + [s] + b == a + [s] + rest + [last];
      PartsInOrder(a, s, rest);
      LastPart(a + [s] + rest, last);
      LastPart(rest, last);
      Regrouped(Concat(a) + s, Concat(rest), last);
    }
  }

  lemma LastPart(parts: seq<seq<Byte>>, s: seq<Byte>)
    ensures Concat(parts + [s]) == Concat(parts) + s
  {
    assert (parts + [s])[..|parts|] == parts;
  }

  lemma NoParts()
    ensures Concat([]) == []
  {
  }

  lemma Regrouped(a: seq<Byte>, b: seq<Byte>, c: seq<Byte>)
    ensures a + b + c == a + (b + c)
  {
  }

  // ---------------------------------------------------- when handlers panic

  /** A message that ends before what its handler takes without asking: a position
      report of less than seven bytes, a chat line or a map without a length, or a
      map entry that stops where the zone should begin. */
  predicate Overruns(m: seq<Byte>) {
    && MIN_LENGTH <= |m| <= MAX_LENGTH
    && ((m[0] == STATUS && |m| < 7)
        || ((m[0] == CHAT || m[0] == ENTER_MAP) && |m| == 3)
        || (m[0] == ENTER_MAP && |m| > 3 && |m| - 4 == m[3]))
  }

  /** A handler reads past the end of exactly these messages. */
  lemma PanicsIff(m: seq<Byte>, spot: int, table: seq<Entry>)
    requires Registered(table)
    ensures Received(m, spot, table) == Panicked <==> Overruns(m)
    ensures Received(m, spot, table) == Ejected <==> |m| > MAX_LENGTH
  {
    if MIN_LENGTH <= |m| <= MAX_LENGTH {
      var r := Stamped(m, spot);
      assert r[0] == m[0] && |r| == |m| && (|m| > 3 ==> ByteAt(r, 3) == m[3]);
    }
  }

  /** What comes of a message depends on the registered handlers alone, not on the
      length the table has grown to. */
  lemma TablesAgree(m: seq<Byte>, spot: int, table: seq<Entry>)
    requires Registered(table)
    ensures Received(m, spot, table) == Received(m, spot, HANDLERS)
  {
    hide Dispatched, Stamped;
    HandlersRegistered();
    if |m| > 0 {
      assert Lookup(table, m[0]) == Lookup(HANDLERS, m[0]);
    }
  }

  // ------------------------------------------ the outcome from the bytes

  /** Two bytes as a signed number, the high one first. */
  function Signed(hi: Byte, lo: Byte): (v: int)
    ensures -0x8000 <= v < 0x8000 && (v - (256 * hi + lo)) % 0x1_0000 == 0
  {
    if hi < 128 then 256 * hi + lo else 256 * hi + lo - 0x1_0000
  }

  /** A length byte at p with as many bytes after it. */
  predicate WholeAt(m: seq<Byte>, p: nat) {
    p < |m| && p + 1 + m[p] <= |m|
  }

  predicate IsReport(m: seq<Byte>) {
    7 <= |m| <= 256 && m[0] == 10
  }

  predicate IsChat(m: seq<Byte>) {
    |m| <= 256 && WholeAt(m, 3) && m[0] == 12
  }

  predicate IsMapEntry(m: seq<Byte>) {
    |m| <= 256 && WholeAt(m, 3) && m[0] == 11 && WholeAt(m, 4 + m[3] as int)
  }

  /** A chat line or map entry whose string, or second string, ends before it should. */
  predicate IsCut(m: seq<Byte>) {
    && 3 < |m| <= 256
    && (((m[0] == 12 || m[0] == 11) && 4 + m[3] > |m|) || (m[0] == 11 && 4 + m[3] < |m| && !WholeAt(m, 4 + m[3] as int)))
  }

  /** Every outcome but a panic, from the bytes as they came in. */
  lemma OutcomeOfBytes(m: seq<Byte>, spot: int, table: seq<Entry>)
    requires Registered(table)
    ensures var o := Received(m, spot, table);
      && (o == Ignored <==> |m| < 3)
      && (o == Ejected <==> |m| > 256)
      && (o == Refused <==> 3 <= |m| <= 256 && 1 <= m[0] <= 8)
      && (o == Unhandled <==> 3 <= |m| <= 256 && (m[0] == 0 || m[0] == 9 || m[0] > 12))
      && (o.Moved? <==> IsReport(m)) && (o.Moved? ==> o.x == Signed(m[3], m[4]) && o.y == Signed(m[5], m[6]))
      && (o.Said? || o.Echoed? <==> IsChat(m))
      && (o.Said? ==> o.text == m[4..4 + m[3]]) && (IsChat(m) ==> (o.Echoed? <==> m[4..4 + m[3]] == TEST_TEXT))
      && (o.Entering? <==> IsMapEntry(m))
      && (o.Entering? ==> var p := 4 + m[3]; o.room == m[4..p] && o.zone == m[p + 1..p + 1 + m[p]])
      && (o == Malformed <==> IsCut(m))
  {
    hide Dispatched, Stamped;
    if 3 <= |m| <= 256 {
      assert Lookup(table, m[0]) == if m[0] == 10 then Set(OnStatus) else if m[0] == 11 then Set(OnEnterMap)
                                    else if m[0] == 12 then Set(OnChat) else Nil;
      ReportOutcome(m, spot);
      TextOutcome(m, spot);
    }
  }

  lemma ReportOutcome(m: seq<Byte>, spot: int)
    requires 3 <= |m|
    ensures var r := Stamped(m, spot);
      Dispatched(r, OnStatus) == if |m| < 7 then Panicked else Moved(Signed(m[3], m[4]), Signed(m[5], m[6]), r)
  {
    var r := Stamped(m, spot);
    if |m| >= 7 {
      assert r[3..] == m[3..];
      assert r[3] == m[3] && r[4] == m[4] && r[5] == m[5] && r[6] == m[6];
      ReadByPlace(r, 3);
      ReadByPlace(r, 5);
    }
  }

  lemma TextOutcome(m: seq<Byte>, spot: int)
    requires 3 <= |m|
    ensures var r := Stamped(m, spot);
      && Dispatched(r, OnChat) == (
        if |m| == 3 then Panicked else if !WholeAt(m, 3) then Malformed
        else if m[4..4 + m[3]] == TEST_TEXT then Echoed else Said(m[4..4 + m[3]], r))
      && Dispatched(r, OnEnterMap) == (
        if |m| == 3 then Panicked else if !WholeAt(m, 3) then Malformed
        else if |m| == 4 + m[3] as int then Panicked else if !WholeAt(m, 4 + m[3] as int) then Malformed
        else var p := 4 + m[3] as int; Entering(m[4..p], m[p + 1..p + 1 + m[p]]))
  {
    hide Stamped, TextAt;
    StampedTexts(m, spot);
  }

  /** Stamping changes no string. */
  lemma StampedTexts(m: seq<Byte>, spot: int)
    requires 3 <= |m|
    ensures var r := Stamped(m, spot);
      forall p: nat :: p >= 3 ==>
        TextAt(r, p) == if p >= |m| then Missing else if !WholeAt(m, p) then Cut else Whole(m[p + 1..p + 1 + m[p]], p + 1 + m[p])
  {
    hide StringAt;
    var r := Stamped(m, spot);
    forall p: nat | 3 <= p < |m|
      ensures ByteAt(r, p) == m[p]
      ensures WholeAt(m, p) ==> StringAt(r, p) == m[p + 1..p + 1 + m[p]]
    {
      assert r[p] == m[p];
      if WholeAt(m, p) {
        StringIsSlice(r, p);
        assert r[p + 1..p + 1 + m[p]] == m[p + 1..p + 1 + m[p]];
      }
    }
  }

  // ---------------------------------------------------------- the browsers

  method SendChat(text: seq<CodeUnit>) returns (m: seq<Byte>)
    ensures m == U8(CHAT) + U16(0) + ShortString(LowBytes(text))
  {
    var msg := new Message.Empty();
    msg.PutI8(CHAT);
    msg.PutI16(0.0);
    msg.PutShortString(text);
    m := msg.Construct();
  }

  /** A walking player's coordinates have fractions. */
  method SendStatus(x: real, y: real) returns (m: seq<Byte>)
    ensures m == U8(STATUS) + U16(0) + U16(Trunc(x)) + U16(Trunc(y))
  {
    var msg := new Message.Empty();
    msg.PutI8(STATUS);
    msg.PutI16(0.0);
    msg.PutI16(x);
    msg.PutI16(y);
    m := msg.Construct();
  }

  method SendEnterMap(room: seq<CodeUnit>, zone: seq<CodeUnit>) returns (m: seq<Byte>)
    ensures m == U8(ENTER_MAP) + U16(0) + ShortString(LowBytes(room)) + ShortString(LowBytes(zone))
  {
    var msg := new Message.Empty();
    msg.PutI8(ENTER_MAP);
    msg.PutI16(0.0);
    msg.PutShortString(room);
    msg.PutShortString(zone);
    m := msg.Construct();
  }

  method PeerHearsChat(m: seq<Byte>) returns (from: int, text: seq<Byte>)
    ensures from == U16At(m, 1) && text == StringAt(m, 3)
  {
    var msg := new Message.FromBytes(m);
    var code := msg.TakeI8();
    from := msg.TakeI16();
    text := msg.TakeShortString();
  }

  method PeerSeesStatus(m: seq<Byte>) returns (from: int, x: int, y: int)
    ensures from == U16At(m, 1) && x == U16At(m, 3) && y == U16At(m, 5)
  {
    var msg := new Message.FromBytes(m);
    var code := msg.TakeI8();
    from := msg.TakeI16();
    x := msg.TakeI16();
    y := msg.TakeI16();
  }

  // ------------------------------------------------------------ end to end

  lemma AllHeld(b: seq<Byte>)
    ensures Holds(b, 0, b)
  {
  }

  /** Whatever is relayed is the received message with the sender's spot in
      bytes 1 and 2, and it is never a message with a server code. */
  lemma RelayedIsStamped(m: seq<Byte>, spot: int, table: seq<Entry>)
    requires 0 <= spot < 0x1_0000
    ensures var o := Received(m, spot, table);
      (o.Moved? || o.Said?) ==>
        && MIN_LENGTH <= |m| <= MAX_LENGTH && |o.relay| == |m|
        && (forall k :: 0 <= k < |m| && k != 1 && k != 2 ==> o.relay[k] == m[k])
        && U16At(o.relay, 1) == spot
        && !(FIRST_SERVER_CODE <= o.relay[0] <= LAST_SERVER_CODE)
  {
    hide U16At, ByteAt, Holds;
    var o := Received(m, spot, table);
    if o.Moved? || o.Said? {
      AllHeld(Stamped(m, spot));
      var r := Stamped(m, spot);
      assert r == U8(m[0]) + U16(spot) + m[3..];
      HoldsSplit(r, 0, U8(m[0]) + U16(spot), m[3..]);
      HoldsSplit(r, 0, U8(m[0]), U16(spot));
      U16ReadBack(r, 1, spot);
    }
  }

  /** What becomes of a chat line typed in a browser. Up to 252 code units it
      reaches the others as (spot, low bytes of the line), unless it is the test
      line; longer ones end the session, although the writer allows 255. The
      text itself arrives if and only if every code unit is below 256. */
  lemma ChatEndToEnd(text: seq<CodeUnit>, m: seq<Byte>, spot: int, table: seq<Entry>)
    requires m == U8(CHAT) + U16(0) + ShortString(LowBytes(text)) && Registered(table) && 0 <= spot < 0x1_0000
    ensures var o := Received(m, spot, table);
      && (o == Ejected <==> |text| > 252)
      && (o == Echoed <==> LowBytes(text) == TEST_TEXT)
      && (o.Said? <==> |text| <= 252 && LowBytes(text) != TEST_TEXT)
      && (o.Said? ==> o.text == LowBytes(text) && U16At(o.relay, 1) == spot && StringAt(o.relay, 3) == o.text)
      && (o.Said? ==> (o.text == text <==> forall k :: 0 <= k < |text| ==> text[k] < 256))
  {
    hide U16At, ByteAt, StringAt, TextAt;
    var low := LowBytes(text);
    assert m[0] == CHAT && |m| == 4 + |low|;
    if |m| <= MAX_LENGTH {
      ChatStamped(low, m, spot);
      assert Received(m, spot, table) == Dispatched(Stamped(m, spot), OnChat);
      assert |low| == |text| && forall k :: 0 <= k < |text| ==> low[k] == text[k] % 256;
    }
  }

  lemma ChatStamped(low: seq<Byte>, m: seq<Byte>, spot: int)
    requires m == U8(CHAT) + U16(0) + ShortString(low) && |low| < 256 && 0 <= spot < 0x1_0000
    ensures var r := Stamped(m, spot);
            U16At(r, 1) == spot && StringAt(r, 3) == low && TextAt(r, 3) == Whole(low, |m|)
  {
    var r := Stamped(m, spot);
    assert m[3..] == ShortString(low);
    assert r == U8(CHAT) + U16(spot) + ShortString(low);
    HoldsSplit(r, 0, U8(CHAT) + U16(spot), ShortString(low));
    HoldsSplit(r, 0, U8(CHAT), U16(spot));
    U16ReadBack(r, 1, spot);
    StringReadBack(r, 3, low);
    HoldsAt(r, 3, ShortString(low), 0);
  }

  /** What becomes of a position report. Fractions are cut toward zero. The server takes
      the two low bytes of each coordinate as a signed number, the other browsers as
      an unsigned one: they agree if and only if what was sent is below 2^15 modulo
      2^16. The server has the browser's own coordinate if and only if that is whole
      and fits 16 bits signed. */
  lemma StatusEndToEnd(x: real, y: real, m: seq<Byte>, spot: int, table: seq<Entry>)
    requires m == U8(STATUS) + U16(0) + U16(Trunc(x)) + U16(Trunc(y)) && Registered(table) && 0 <= spot < 0x1_0000
    ensures var o := Received(m, spot, table);
      && o.Moved? && U16At(o.relay, 1) == spot
      && (o.x as real == x <==> x.Floor as real == x && -32768.0 <= x < 32768.0)
      && (o.y as real == y <==> y.Floor as real == y && -32768.0 <= y < 32768.0)
      && (U16At(o.relay, 3) == o.x <==> Trunc(x) % 0x1_0000 < 0x8000)
      && (U16At(o.relay, 5) == o.y <==> Trunc(y) % 0x1_0000 < 0x8000)
      && (U16At(o.relay, 3) as real == x <==> x.Floor as real == x && 0.0 <= x < 65536.0)
      && (U16At(o.relay, 5) as real == y <==> y.Floor as real == y && 0.0 <= y < 65536.0)
  {
    hide Trunc, Received;
    WholeStatus(Trunc(x), Trunc(y), m, spot, table);
    var o := Received(m, spot, table);
    SameNumber(x, o.x);
    SameNumber(y, o.y);
    SameNumber(x, U16At(o.relay, 3));
    SameNumber(y, U16At(o.relay, 5));
  }

  lemma SameNumber(r: real, v: int)
    ensures v as real == r <==> r.Floor as real == r && v == Trunc(r)
    ensures r.Floor as real == r ==> Trunc(r) as real == r
  {
  }

  /** The same of the whole numbers that are written. */
  lemma WholeStatus(x: int, y: int, m: seq<Byte>, spot: int, table: seq<Entry>)
    requires m == U8(STATUS) + U16(0) + U16(x) + U16(y) && Registered(table) && 0 <= spot < 0x1_0000
    ensures var o := Received(m, spot, table);
      && o.Moved? && U16At(o.relay, 1) == spot
      && (o.x == x <==> -0x8000 <= x < 0x8000) && (o.y == y <==> -0x8000 <= y < 0x8000)
      && (U16At(o.relay, 3) == o.x <==> x % 0x1_0000 < 0x8000) && (U16At(o.relay, 5) == o.y <==> y % 0x1_0000 < 0x8000)
      && (U16At(o.relay, 3) == x <==> 0 <= x < 0x1_0000) && (U16At(o.relay, 5) == y <==> 0 <= y < 0x1_0000)
  {
    var r := Stamped(m, spot);
    assert m[0] == STATUS && m[3..] == U16(x) + U16(y);
    assert r == U8(STATUS) + U16(spot) + U16(x) + U16(y);
    HoldsSplit(r, 0, U8(STATUS) + U16(spot) + U16(x), U16(y));
    HoldsSplit(r, 0, U8(STATUS) + U16(spot), U16(x));
    HoldsSplit(r, 0, U8(STATUS), U16(spot));
    U16ReadBack(r, 1, spot);
    U16ReadBack(r, 3, x);
    U16ReadBack(r, 5, y);
    assert Received(m, spot, table) == Dispatched(r, OnStatus);
  }

  lemma TextHeld(b: seq<Byte>, p: nat, text: seq<Byte>)
    requires Holds(b, p, ShortString(text)) && |text| < 256
    ensures TextAt(b, p) == Whole(text, p + 1 + |text|)
  {
    StringReadBack(b, p, text);
    HoldsAt(b, p, ShortString(text), 0);
  }

  /** What becomes of a request to enter a map: the server takes the room and the
      zone that were named, or, when their names have more than 251 units
      together, ends the session. */
  lemma EnterMapEndToEnd(room: seq<CodeUnit>, zone: seq<CodeUnit>, m: seq<Byte>, spot: int, table: seq<Entry>)
    requires m == U8(ENTER_MAP) + U16(0) + ShortString(LowBytes(room)) + ShortString(LowBytes(zone)) && Registered(table)
    ensures Received(m, spot, table) ==
            if |room| + |zone| > 251 then Ejected else Entering(LowBytes(room), LowBytes(zone))
  {
    hide StringAt, ByteAt, TextAt, ShortString, Stamped, U16;
    var low, low2 := LowBytes(room), LowBytes(zone);
    assert m[0] == ENTER_MAP && |m| == 5 + |low| + |low2|;
    if |room| + |zone| <= 251 {
      EnterMapStamped(low, low2, m, spot);
      assert Received(m, spot, table) == Dispatched(Stamped(m, spot), OnEnterMap);
    }
  }

  lemma EnterMapStamped(room: seq<Byte>, zone: seq<Byte>, m: seq<Byte>, spot: int)
    requires m == U8(ENTER_MAP) + U16(0) + ShortString(room) + ShortString(zone) && |room| < 256 && |zone| < 256
    ensures var r := Stamped(m, spot);
      TextAt(r, 3) == Whole(room, 4 + |room|) && TextAt(r, 4 + |room|) == Whole(zone, 5 + |room| + |zone|)
  {
    hide TextAt, ShortString, U8, U16;
    var r := Stamped(m, spot);
    assert m[3..] == ShortString(room) + ShortString(zone);
    assert r == U8(ENTER_MAP) + U16(spot) + ShortString(room) + ShortString(zone);
    HoldsSplit(r, 0, U8(ENTER_MAP) + U16(spot) + ShortString(room), ShortString(zone));
    HoldsSplit(r, 0, U8(ENTER_MAP) + U16(spot), ShortString(room));
    TextHeld(r, 3, room);
    TextHeld(r, 4 + |room|, zone);
  }
}
