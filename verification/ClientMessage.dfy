// The browser's message buffer: a reader over received bytes and a writer of
// numbers that become bytes when the message is constructed
// (client-svelte/src/lib/client/game/client/client.js).
module ClientMessage {
  import opened Arithmetic
  import opened Bytes
  import opened Options

  // A UTF-16 code unit, as charCodeAt returns it.
  type CodeUnit = x: int | 0 <= x < 0x1_0000

  /** The 32-bit integer that JavaScript's bit operators work on. */
  function ToInt32(v: int): int {
    var u := v % 0x1_0000_0000;
    if u >= 0x8000_0000 then u - 0x1_0000_0000 else u
  }

  /** `new Uint8Array(numbers)`. */
  function Truncated(numbers: seq<int>): (b: seq<Byte>)
    ensures |b| == |numbers|
  {
    seq<Byte>(|numbers|, k requires 0 <= k < |numbers| => numbers[k] % 256)
  }

  lemma TruncatedAppend(numbers: seq<int>, more: seq<int>)
    ensures Truncated(numbers + more) == Truncated(numbers) + Truncated(more)
  {
  }

  /** The content of a written string: at most 255 code units, the low byte of each. */
  function LowBytes(str: seq<CodeUnit>): (b: seq<Byte>)
    ensures |b| == if |str| < 255 then |str| else 255
  {
    var len := if |str| < 255 then |str| else 255;
    seq<Byte>(len, k requires 0 <= k < len => str[k] % 256)
  }

  lemma CutIsShift(v: int) returns (k: int)
    ensures v == ToInt32(v) + 256 * (0x100_0000 * k)
  {
    var q := v / 0x1_0000_0000;
    k := if v % 0x1_0000_0000 >= 0x8000_0000 then q + 1 else q;
  }

  lemma Shifted(a: int, m: int)
    ensures (a + 256 * m) / 256 == a / 256 + m && (a + 256 * m) % 256 == a % 256
  {
    QuotientIs(a + 256 * m, 256, a / 256 + m, a % 256);
  }

  /** Cutting to 32 bits does not change the second byte. */
  lemma HighByte(v: int)
    ensures (ToInt32(v) / 256) % 256 == (v / 256) % 256
  {
    hide ToInt32;
    var k := CutIsShift(v);
    Shifted(ToInt32(v), 0x100_0000 * k);
    Shifted(ToInt32(v) / 256, 0x1_0000 * k);
  }

  // ------------------------------------------------- where a read stands

  // The read position: a number, or not a number once a missing length was added.
  datatype Place = At(p: nat) | Lost

  function Advance(at: Place, n: nat): Place {
    match at
    case At(p) => At(p + n)
    case Lost => Lost
  }

  /** The byte at a place; `undefined` where there is none. */
  function Here(b: seq<Byte>, at: Place): Option<int> {
    if at.At? && at.p < |b| then Some(b[at.p] as int) else None
  }

  /** A position with the same bytes to the bit operators: past the end they see zeros. */
  function Pos(b: seq<Byte>, at: Place): nat {
    if at.At? then at.p else |b|
  }

  /** A short string and the place after it; without a length the string is empty and
      the place is lost. */
  function StringHere(b: seq<Byte>, at: Place): (seq<Byte>, Place) {
    match Here(b, at)
    case None => ([], Lost)
    case Some(n) => (StringAt(b, at.p), At(at.p + 1 + n))
  }

  /** Moving on k bytes and looking k bytes on are the same, in the message and past it. */
  lemma AdvancePos(b: seq<Byte>, at: Place, k: nat)
    ensures U16At(b, Pos(b, Advance(at, k))) == U16At(b, Pos(b, at) + k)
    ensures I32At(b, Pos(b, Advance(at, k))) == I32At(b, Pos(b, at) + k)
  {
  }

  lemma AdvanceTwice(at: Place, j: nat, k: nat)
    ensures Advance(Advance(at, j), k) == Advance(at, j + k)
  {
  }

  lemma StringHeld(b: seq<Byte>, p: nat, s: seq<Byte>)
    requires Holds(b, p, ShortString(s)) && |s| < 256
    ensures StringHere(b, At(p)) == (s, At(p + 1 + |s|))
  {
    StringReadBack(b, p, s);
    HoldsAt(b, p, ShortString(s), 0);
  }

  class Message {
    var bytes: seq<Byte>
    var pointer: Place
    var buffer: seq<int>

    constructor FromBytes(bytes: seq<Byte>)
      ensures this.bytes == bytes && pointer == At(0)
    {
      this.bytes, pointer, buffer := bytes, At(0), [];
    }

    constructor Empty()
      ensures buffer == []
    {
      bytes, pointer, buffer := [], At(0), [];
    }

    /** `bytes[pointer + k]`. */
    function Byte(k: nat): Option<int>
      reads this
    {
      Here(bytes, Advance(pointer, k))
    }

    /** The same as an operand of a bit operator, where `undefined` is zero. */
    function Bits(k: nat): (r: int)
      reads this
      ensures r == ByteAt(bytes, Pos(bytes, pointer) + k)
    {
      match Byte(k)
      case None => 0
      case Some(v) => v
    }

    /** The next byte as it is, `undefined` past the end. */
    method TakeI8() returns (result: Option<int>)
      modifies this`pointer
      ensures result == Here(bytes, old(pointer)) && pointer == Advance(old(pointer), 1)
    {
      result := Byte(0);
      pointer := Advance(pointer, 1);
    }

    method TakeBool() returns (result: bool)
      modifies this`pointer
      ensures result <==> Here(bytes, old(pointer)) == Some(1)
      ensures pointer == Advance(old(pointer), 1)
    {
      result := if Byte(0) == Some(1) then true else false;
      pointer := Advance(pointer, 1);
    }

    method TakeI16() returns (result: int)
      modifies this`pointer
      ensures result == U16At(bytes, Pos(bytes, old(pointer))) && pointer == Advance(old(pointer), 2)
    {
      var high, low := Bits(0), Bits(1);
      pointer := Advance(pointer, 2);
      result := high * 256 + low;
    }

    method TakeI32() returns (result: int)
      modifies this`pointer
      ensures result == I32At(bytes, Pos(bytes, old(pointer))) && pointer == Advance(old(pointer), 4)
    {
      var r0, r1, r2, r3 := Bits(0), Bits(1), Bits(2), Bits(3);
      pointer := Advance(pointer, 4);
      result := ToInt32(r0 * 0x100_0000) + r1 * 0x1_0000 + r2 * 256 + r3;
    }

    /** A missing length ends the loop at once and is added to the position; missing
        content reads as zeros. */
    method TakeShortString() returns (result: seq<Byte>)
      modifies this`pointer
      ensures (result, pointer) == StringHere(bytes, old(pointer))
    {
      var length := Byte(0);
      result := [];
      if length.Some? {
        for i := 0 to length.value
          invariant |result| == i
          invariant forall k :: 0 <= k < i ==> result[k] == ByteAt(bytes, pointer.p + 1 + k)
        {
          result := result + [ByteAt(bytes, pointer.p + i + 1)];
        }
        assert result == StringAt(bytes, pointer.p);
        pointer := Advance(pointer, 1 + length.value);
      } else {
        pointer := Lost;
      }
    }

    method PutI8(number: int)
      modifies this`buffer
      ensures Truncated(buffer) == Truncated(old(buffer)) + U8(number)
    {
      TruncatedAppend(buffer, [number % 256]);
      buffer := buffer + [number % 256];
    }

    /** The number is cut toward zero first. Its high part is pushed without a mask;
        constructing the bytes cuts it. */
    method PutI16(number: real)
      modifies this`buffer
      ensures Truncated(buffer) == Truncated(old(buffer)) + U16(Trunc(number))
    {
      hide ToInt32, Trunc;
      var whole := Trunc(number);
      TruncatedAppend(buffer, [ToInt32(whole) / 256, whole % 256]);
      HighByte(whole);
      buffer := buffer + [ToInt32(whole) / 256];
      buffer := buffer + [whole % 256];
    }

    method PutShortString(str: seq<CodeUnit>)
      modifies this`buffer
      ensures Truncated(buffer) == Truncated(old(buffer)) + ShortString(LowBytes(str))
    {
      var len := if |str| < 255 then |str| else 255;
      PutI8(len);
      assert Truncated(buffer) == Truncated(old(buffer)) + ([len % 256] + LowBytes(str)[..0]);
      for i := 0 to len
        invariant Truncated(buffer) == Truncated(old(buffer)) + ([len % 256] + LowBytes(str)[..i])
      {
        PutI8(str[i]);
        assert LowBytes(str)[..i + 1] == LowBytes(str)[..i] + U8(str[i]);
      }
      assert LowBytes(str)[..len] == LowBytes(str);
    }

    method Construct() returns (b: seq<Byte>)
      ensures b == Truncated(buffer)
    {
      b := Truncated(buffer);
    }
  }
}
