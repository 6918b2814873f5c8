// Big-endian integers, flags and short strings as the messages carry them
// (server/pecas/binary_book.go, server/msg/message.go and client.js): what
// each encoder produces, what each decoder makes of it, and when the two agree.
module Bytes {

  type Byte = x: int | 0 <= x < 256

  // --------------------------------------------------------------- encoders

  /** Keeping the low bits of an integer, as Go's conversions and `& 0xFF` do. */
  function U8(v: int): (r: seq<Byte>)
    ensures |r| == 1
  {
    [v % 256]
  }

  function U16(v: int): (r: seq<Byte>)
    ensures |r| == 2
  {
    [(v / 256) % 256, v % 256]
  }

  function U32(v: int): (r: seq<Byte>)
    ensures |r| == 4
  {
    [(v / 0x100_0000) % 256, (v / 0x1_0000) % 256, (v / 256) % 256, v % 256]
  }

  function Flag(b: bool): (r: seq<Byte>)
    ensures |r| == 1
  {
    [if b then 1 else 0]
  }

  /** The length is truncated to a byte, the content is not cut. */
  function ShortString(s: seq<Byte>): (r: seq<Byte>)
    ensures |r| == 1 + |s|
  {
    [|s| % 256] + s
  }

  // --------------------------------------------------------------- decoders

  /** A byte of the buffer; past the end JavaScript's bit operators see zero. */
  function ByteAt(b: seq<Byte>, p: int): Byte {
    if 0 <= p < |b| then b[p] else 0
  }

  function U16At(b: seq<Byte>, p: int): (v: int)
    ensures 0 <= v < 0x1_0000
  {
    ByteAt(b, p) * 256 + ByteAt(b, p + 1)
  }

  /** Four bytes as a two's complement integer. */
  function I32At(b: seq<Byte>, p: int): int {
    var u := ByteAt(b, p) * 0x100_0000 + ByteAt(b, p + 1) * 0x1_0000 + ByteAt(b, p + 2) * 256 + ByteAt(b, p + 3);
    if ByteAt(b, p) >= 128 then u - 0x1_0000_0000 else u
  }

  /** Two bytes as a two's complement integer. */
  function I16At(b: seq<Byte>, p: int): int {
    var u := U16At(b, p);
    if u >= 0x8000 then u - 0x1_0000 else u
  }

  function StringAt(b: seq<Byte>, p: int): (s: seq<Byte>)
    ensures |s| == ByteAt(b, p)
  {
    seq<Byte>(ByteAt(b, p), k => ByteAt(b, p + 1 + k))
  }

  lemma StringIsSlice(b: seq<Byte>, p: nat)
    requires p + 1 + ByteAt(b, p) <= |b|
    ensures StringAt(b, p) == b[p + 1..p + 1 + ByteAt(b, p)]
  {
    var s, t := StringAt(b, p), b[p + 1..p + 1 + ByteAt(b, p)];
    forall k | 0 <= k < |s|
      ensures s[k] == t[k]
    {
      assert s[k] == ByteAt(b, p + 1 + k);
    }
  }

  // ----------------------------------------------------- when they agree

  /** The buffer holds `e` at position `p`. */
  ghost predicate Holds(b: seq<Byte>, p: nat, e: seq<Byte>) {
    p + |e| <= |b| && b[p..p + |e|] == e
  }

  lemma HoldsSplit(b: seq<Byte>, p: nat, e: seq<Byte>, f: seq<Byte>)
    ensures Holds(b, p, e + f) <==> Holds(b, p, e) && Holds(b, p + |e|, f)
  {
    if p + |e| + |f| <= |b| {
      var s := b[p..p + |e| + |f|];
      assert s[..|e|] == b[p..p + |e|] && s[|e|..] == b[p + |e|..p + |e| + |f|];
      assert s == s[..|e|] + s[|e|..];
      assert (e + f)[..|e|] == e && (e + f)[|e|..] == f;
    }
  }

  lemma HeldAfter(e: seq<Byte>, f: seq<Byte>)
    ensures Holds(e + f, |e|, f)
  {
  }

  lemma HoldsAt(b: seq<Byte>, p: nat, e: seq<Byte>, k: nat)
    requires Holds(b, p, e) && k < |e|
    ensures ByteAt(b, p + k) == e[k]
  {
    assert b[p..p + |e|][k] == b[p + k];
  }

  lemma U8ReadBack(b: seq<Byte>, p: nat, v: int)
    requires Holds(b, p, U8(v))
    ensures ByteAt(b, p) == v <==> 0 <= v < 256
  {
    HoldsAt(b, p, U8(v), 0);
  }

  lemma FlagReadBack(b: seq<Byte>, p: nat, f: bool)
    requires Holds(b, p, Flag(f))
    ensures ByteAt(b, p) == 1 <==> f
  {
    HoldsAt(b, p, Flag(f), 0);
  }

  /** The two low bytes of an integer, weighed, are the integer modulo 2^16. */
  lemma LowHalf(v: int)
    ensures ((v / 256) % 256) * 256 + v % 256 == v % 0x1_0000
  {
    assert v == (v / 256) * 256 + v % 256;
    assert v / 256 == ((v / 256) / 256) * 256 + (v / 256) % 256;
  }

  lemma U16ReadBack(b: seq<Byte>, p: nat, v: int)
    requires Holds(b, p, U16(v))
    ensures U16At(b, p) == v % 0x1_0000
    ensures U16At(b, p) == v <==> 0 <= v < 0x1_0000
    ensures I16At(b, p) == v <==> -0x8000 <= v < 0x8000
  {
    hide Holds, ByteAt;
    HoldsAt(b, p, U16(v), 0);
    HoldsAt(b, p, U16(v), 1);
    LowHalf(v);
  }

  lemma I32ReadBack(b: seq<Byte>, p: nat, v: int)
    requires Holds(b, p, U32(v))
    ensures I32At(b, p) == v <==> -0x8000_0000 <= v < 0x8000_0000
  {
    HoldsAt(b, p, U32(v), 0);
    HoldsAt(b, p, U32(v), 1);
    HoldsAt(b, p, U32(v), 2);
    HoldsAt(b, p, U32(v), 3);
    BytesOfInt(v);
  }

  /** The four low bytes of an integer, weighed, leave a multiple of 2^32. */
  lemma BytesOfInt(v: int)
    ensures v == ((v / 0x100_0000) / 256) * 0x1_0000_0000 + ((v / 0x100_0000) % 256) * 0x100_0000
                 + ((v / 0x1_0000) % 256) * 0x1_0000 + ((v / 256) % 256) * 256 + v % 256
  {
    assert v / 0x1_0000 == (v / 256) / 256;
    assert v / 0x100_0000 == (v / 0x1_0000) / 256;
  }

  lemma StringReadBack(b: seq<Byte>, p: nat, s: seq<Byte>)
    requires Holds(b, p, ShortString(s))
    ensures StringAt(b, p) == s <==> |s| < 256
  {
    HoldsAt(b, p, ShortString(s), 0);
    if |s| < 256 {
      forall k | 0 <= k < |s|
        ensures StringAt(b, p)[k] == s[k]
      {
        HoldsAt(b, p, ShortString(s), k + 1);
      }
    }
  }

  // ------------------------------------------------------ byte by byte

  /** What is written, byte by byte: the high byte first, each worth 256 of the next. */
  lemma WrittenByPlace(v: int)
    ensures U8(v)[0] == v % 256
    ensures 256 * U16(v)[0] as int + U16(v)[1] == v % 0x1_0000
    ensures 0x100_0000 * U32(v)[0] as int + 0x1_0000 * U32(v)[1] as int + 256 * U32(v)[2] as int + U32(v)[3] == v % 0x1_0000_0000
  {
    LowHalf(v);
    BytesOfInt(v);
  }

  /** What is read, byte by byte: the high byte first, and a signed number is the one
      of the same bits in the signed range. */
  lemma ReadByPlace(b: seq<Byte>, p: nat)
    requires p + 1 < |b|
    ensures U16At(b, p) == 256 * b[p] as int + b[p + 1]
    ensures -0x8000 <= I16At(b, p) < 0x8000 && (I16At(b, p) - (256 * b[p] as int + b[p + 1])) % 0x1_0000 == 0
    ensures p + 3 < |b| ==>
              && -0x8000_0000 <= I32At(b, p) < 0x8000_0000
              && (I32At(b, p) - (0x100_0000 * b[p] as int + 0x1_0000 * b[p + 1] as int + 256 * b[p + 2] as int + b[p + 3])) % 0x1_0000_0000 == 0
  {
  }
}
