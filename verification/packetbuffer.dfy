// Integers and strings in packets (CPacketBufferUtil), and the growing buffer with a read position (CPacketBuffer). All
// integers are little-endian; strings are sequences of bytes.

module PacketBuffer {
  import opened Bits

  type Bytes = seq<byte>

  function Int8(v: nat): Bytes {
    [v % 256]
  }

  function Int16(v: nat): (r: Bytes)
    ensures |r| == 2
  {
    [v % 256, v / 256 % 256]
  }

  function Int32(v: nat): (r: Bytes)
    ensures |r| == 4
  {
    [v % 256, v / 256 % 256, v / 0x10000 % 256, v / 0x1000000 % 256]
  }

  function Value16(b: Bytes): nat
    requires |b| == 2
  {
    b[0] as int + 256 * (b[1] as int)
  }

  function Value32(b: Bytes): nat
    requires |b| == 4
  {
    b[0] as int + 256 * (b[1] as int) + 0x10000 * (b[2] as int) + 0x1000000 * (b[3] as int)
  }

  lemma Int16Value(v: nat)
    ensures Value16(Int16(v)) == v % 0x10000
  {
    var q := v / 256;
    assert v == 256 * q + v % 256 && q == 256 * (q / 256) + q % 256;
    assert v == 0x10000 * (q / 256) + (v % 256 + 256 * (q % 256));
  }

  lemma Int32Value(v: nat)
    ensures Value32(Int32(v)) == v % 0x1_0000_0000
  {
    var a, b := v % 0x10000, v / 0x10000;
    assert v / 0x1000000 == b / 256;
    assert v % 256 == a % 256 && v / 256 % 256 == a / 256;
    assert b % 0x10000 == b % 256 + 256 * (b / 256 % 256);
    assert v % 0x1_0000_0000 == a + 0x10000 * (b % 0x10000);
  }

  // A length byte and the bytes.
  function String8(s: Bytes): Bytes {
    Int8(|s|) + s
  }

  const MAX_STRING8 := 255

  // ----- reading at a position

  // What was read, and the position behind it; CPacketException is Failed.
  datatype Read<+T> = Got(value: T, pos: nat) | Failed

  // The bytes enc stand at pos.
  ghost predicate Has(buf: Bytes, pos: nat, enc: Bytes) {
    pos + |enc| <= |buf| && buf[pos..pos + |enc|] == enc
  }

  lemma HasBoth(buf: Bytes, pos: nat, a: Bytes, b: Bytes)
    requires Has(buf, pos, a + b)
    ensures Has(buf, pos, a) && Has(buf, pos + |a|, b)
  {
    var s := buf[pos..pos + |a + b|];
    assert s[..|a|] == a && s[|a|..] == b;
  }

  function ReadInt8(buf: Bytes, pos: nat): Read<nat> {
    if pos + 1 <= |buf| then Got(buf[pos], pos + 1) else Failed
  }

  function ReadInt16(buf: Bytes, pos: nat): Read<nat> {
    if pos + 2 <= |buf| then Got(Value16(buf[pos..pos + 2]), pos + 2) else Failed
  }

  function ReadInt32(buf: Bytes, pos: nat): Read<nat> {
    if pos + 4 <= |buf| then Got(Value32(buf[pos..pos + 4]), pos + 4) else Failed
  }

  function ReadBytes(buf: Bytes, pos: nat, n: nat): Read<Bytes> {
    if pos + n <= |buf| then Got(buf[pos..pos + n], pos + n) else Failed
  }

  function ReadString8(buf: Bytes, pos: nat): Read<Bytes> {
    match ReadInt8(buf, pos)
    case Failed => Failed
    case Got(n, p) => ReadBytes(buf, p, n)
  }

  lemma Int8Read(buf: Bytes, pos: nat, v: nat)
    requires Has(buf, pos, Int8(v))
    ensures ReadInt8(buf, pos) == Got(v % 256, pos + 1)
  {
    assert buf[pos..pos + 1][0] == buf[pos];
  }

  lemma Int16Read(buf: Bytes, pos: nat, v: nat)
    requires Has(buf, pos, Int16(v))
    ensures ReadInt16(buf, pos) == Got(v % 0x10000, pos + 2)
  {
    Int16Value(v);
  }

  lemma Int32Read(buf: Bytes, pos: nat, v: nat)
    requires Has(buf, pos, Int32(v))
    ensures ReadInt32(buf, pos) == Got(v % 0x1_0000_0000, pos + 4)
  {
    hide Int32, Value32;
    Int32Value(v);
  }

  lemma String8Read(buf: Bytes, pos: nat, s: Bytes)
    requires Has(buf, pos, String8(s)) && |s| <= MAX_STRING8
    ensures ReadString8(buf, pos) == Got(s, pos + 1 + |s|)
  {
    hide ReadInt8;
    HasBoth(buf, pos, Int8(|s|), s);
    Int8Read(buf, pos, |s|);
  }

  // ----- the buffer

  class CPacketBuffer {
    var buffer: Bytes
    var readPos: nat

    ghost predicate Valid()
      reads this
    {
      readPos <= |buffer|
    }

    constructor ()
      ensures Valid() && buffer == [] && readPos == 0
    {
      buffer, readPos := [], 0;
    }

    function RemainingSize(): nat
      requires readPos <= |buffer|
      reads this
    {
      |buffer| - readPos
    }

    method Write(bytes: Bytes)
      requires Valid()
      modifies this`buffer
      ensures Valid() && buffer == old(buffer) + bytes
    {
      buffer := buffer + bytes;
    }

    // At most size bytes from the read position on.
    method Read(size: nat) returns (bytes: Bytes)
      requires Valid()
      modifies this`readPos
      ensures Valid() && readPos == old(readPos) + |bytes| && |bytes| == Min(size, old(RemainingSize()))
      ensures bytes == buffer[old(readPos)..readPos]
    {
      var n := size;
      if RemainingSize() < n {
        n := RemainingSize();
      }
      bytes := buffer[readPos..readPos + n];
      var ok := FastForward(n);
    }

    // Not ok stands for CPacketException.
    method FastForward(size: nat) returns (ok: bool)
      requires Valid()
      modifies this`readPos
      ensures Valid() && ok == (size <= old(RemainingSize())) && readPos == if ok then old(readPos) + size else old(readPos)
    {
      ok := readPos + size <= |buffer|;
      if ok {
        readPos := readPos + size;
      }
    }

    method SetReadPos(pos: nat) returns (ok: bool)
      modifies this`readPos
      ensures ok == (pos == 0 || pos < |buffer|) && readPos == if ok then pos else old(readPos)
    {
      ok := !(pos != 0 && pos >= |buffer|);
      if ok {
        readPos := pos;
      }
    }

    method Erase(pos: nat, size: nat) returns (ok: bool)
      modifies this`buffer
      ensures ok == (pos + size <= |old(buffer)|)
      ensures buffer == if ok then old(buffer)[..pos] + old(buffer)[pos + size..] else old(buffer)
    {
      ok := pos + size <= |buffer|;
      if ok {
        buffer := buffer[..pos] + buffer[pos + size..];
      }
    }

    method Clear()
      modifies this
      ensures Valid() && buffer == [] && readPos == 0
    {
      buffer, readPos := [], 0;
    }

    // The integers below fail when fewer bytes are left; these are used up all the same.
    method TakeInt8() returns (ok: bool, v: nat)
      requires Valid()
      modifies this`readPos
      ensures Valid() && ok == (old(RemainingSize()) >= 1) && readPos == old(readPos) + Min(1, old(RemainingSize()))
      ensures ok ==> ReadInt8(buffer, old(readPos)) == Got(v, readPos)
    {
      var b := Read(1);
      ok := |b| == 1;
      v := if ok then b[0] else 0;
    }

    method TakeInt16() returns (ok: bool, v: nat)
      requires Valid()
      modifies this`readPos
      ensures Valid() && ok == (old(RemainingSize()) >= 2) && readPos == old(readPos) + Min(2, old(RemainingSize()))
      ensures ok ==> ReadInt16(buffer, old(readPos)) == Got(v, readPos)
    {
      var b := Read(2);
      ok := |b| == 2;
      v := if ok then Value16(b) else 0;
    }

    method TakeInt32() returns (ok: bool, v: nat)
      requires Valid()
      modifies this`readPos
      ensures Valid() && ok == (old(RemainingSize()) >= 4) && readPos == old(readPos) + Min(4, old(RemainingSize()))
      ensures ok ==> ReadInt32(buffer, old(readPos)) == Got(v, readPos)
    {
      var b := Read(4);
      ok := |b| == 4;
      v := if ok then Value32(b) else 0;
    }
  }
}
