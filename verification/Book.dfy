// The server's growing byte buffer with a read pointer
// (server/pecas/binary_book.go). Puts append, takes advance the pointer and
// panic past the end.
module Book {
  import opened Bytes

  class Book {
    var bytes: seq<Byte>
    var pointer: nat

    constructor (bytes: seq<Byte>)
      ensures this.bytes == bytes && pointer == 0
    {
      this.bytes, pointer := bytes, 0;
    }

    method PutBool(val: bool)
      modifies this
      ensures bytes == old(bytes) + Flag(val) && pointer == old(pointer) + 1
    {
      bytes := bytes + [if val then 1 else 0];
      pointer := pointer + 1;
    }

    method PutInt8(val: int)
      modifies this
      ensures bytes == old(bytes) + U8(val) && pointer == old(pointer) + 1
    {
      bytes := bytes + [val % 256];
      pointer := pointer + 1;
    }

    /** Room for two bytes is appended and then overwritten in place. */
    method PutInt16(val: int)
      modifies this
      ensures bytes == old(bytes) + U16(val) && pointer == old(pointer) + 2
    {
      var start := |bytes|;
      bytes := bytes + [0, 0];
      bytes := bytes[start := (val / 256) % 256];
      bytes := bytes[start + 1 := val % 256];
      pointer := pointer + 2;
    }

    method PutInt32(val: int)
      modifies this
      ensures bytes == old(bytes) + U32(val) && pointer == old(pointer) + 4
    {
      var start := |bytes|;
      bytes := bytes + [0, 0, 0, 0];
      bytes := bytes[start := (val / 0x100_0000) % 256];
      bytes := bytes[start + 1 := (val / 0x1_0000) % 256];
      bytes := bytes[start + 2 := (val / 256) % 256];
      bytes := bytes[start + 3 := val % 256];
      pointer := pointer + 4;
    }

    method PutShortString(val: seq<Byte>)
      modifies this
      ensures bytes == old(bytes) + ShortString(val) && pointer == old(pointer) + 1 + |val|
    {
      bytes := bytes + [|val| % 256];
      bytes := bytes + val;
      pointer := pointer + |val| + 1;
    }

    method Skip(n: nat)
      modifies this`pointer
      ensures pointer == old(pointer) + n
    {
      pointer := pointer + n;
    }

    method TakeInt8() returns (panicked: bool, num: int)
      modifies this`pointer
      ensures panicked <==> old(pointer) >= |bytes|
      ensures !panicked ==> num == ByteAt(bytes, old(pointer)) && pointer == old(pointer) + 1
    {
      if pointer >= |bytes| {
        return true, 0;
      }
      panicked, num := false, bytes[pointer];
      pointer := pointer + 1;
    }

    method TakeInt16() returns (panicked: bool, num: int)
      modifies this`pointer
      ensures panicked <==> old(pointer) + 2 > |bytes|
      ensures !panicked ==> num == I16At(bytes, old(pointer)) && pointer == old(pointer) + 2
    {
      if pointer + 2 > |bytes| {
        return true, 0;
      }
      var u := (bytes[pointer] as int) * 256 + bytes[pointer + 1];
      panicked, num := false, if u >= 0x8000 then u - 0x1_0000 else u;
      pointer := pointer + 2;
    }

    /** Panics when not even the length is there, fails when the content is cut. */
    method TakeShortString() returns (panicked: bool, failed: bool, s: seq<Byte>)
      modifies this`pointer
      ensures panicked <==> old(pointer) >= |bytes|
      ensures failed <==> !panicked && old(pointer) + 1 + ByteAt(bytes, old(pointer)) > |bytes|
      ensures !panicked && !failed ==> s == StringAt(bytes, old(pointer)) && pointer == old(pointer) + 1 + |s|
      ensures panicked || failed ==> s == [] && pointer == old(pointer)
    {
      if pointer >= |bytes| {
        return true, false, [];
      }
      var length := bytes[pointer];
      if pointer + length + 1 > |bytes| {
        return false, true, [];
      }
      panicked, failed, s := false, false, bytes[pointer + 1..pointer + 1 + length];
      StringIsSlice(bytes, pointer);
      pointer := pointer + 1 + length;
    }
  }
}
