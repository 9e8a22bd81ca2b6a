// What a Deflate stream means (section 3.2 of RFC 1951), as a recursive decoder over the whole bit string that produces
// one unbounded sequence of bytes. It has no tables, no window and no suspended states.
//
// It accepts what the source accepts: the limits on symbol counts, the treatment of incomplete codes and of a bit-length
// code with a single symbol are those of inflate_blocks and inflate_trees_*. A copy may refer to bytes before the beginning
// of the output, which are zeros.

module Deflate {
  import opened Bits
  import opened Canonical
  import opened BitInput
  import opened Huffman

  // Done with the output and the position after the last block; Fail on invalid data; More when the stream ends too early.
  // The bytes produced until then are kept in each case.
  datatype Outcome = Done(out: seq<byte>, pos: nat) | Fail(out: seq<byte>) | More(out: seq<byte>)

  datatype Part<T> = Got(pos: nat, value: T) | Invalid' | Missing

  // ----- the fixed numbers of the format

  function LengthBaseOf(i: nat): nat {
    match i
    case 0 => 3 case 1 => 4 case 2 => 5 case 3 => 6 case 4 => 7 case 5 => 8 case 6 => 9 case 7 => 10
    case 8 => 11 case 9 => 13 case 10 => 15 case 11 => 17 case 12 => 19 case 13 => 23 case 14 => 27 case 15 => 31
    case 16 => 35 case 17 => 43 case 18 => 51 case 19 => 59 case 20 => 67 case 21 => 83 case 22 => 99 case 23 => 115
    case 24 => 131 case 25 => 163 case 26 => 195 case 27 => 227 case 28 => 258 case 29 => 0 case _ => 0
  }

  function LengthBase(): (r: seq<nat>)
    ensures |r| == 31
  {
    seq(31, i requires i >= 0 => LengthBaseOf(i))
  }

  function LengthExtraOf(i: nat): nat {
    match i
    case 0 => 0 case 1 => 0 case 2 => 0 case 3 => 0 case 4 => 0 case 5 => 0 case 6 => 0 case 7 => 0
    case 8 => 1 case 9 => 1 case 10 => 1 case 11 => 1 case 12 => 2 case 13 => 2 case 14 => 2 case 15 => 2
    case 16 => 3 case 17 => 3 case 18 => 3 case 19 => 3 case 20 => 4 case 21 => 4 case 22 => 4 case 23 => 4
    case 24 => 5 case 25 => 5 case 26 => 5 case 27 => 5 case 28 => 0 case 29 => 112 case _ => 112
  }

  function LengthExtra(): (r: seq<nat>)
    ensures |r| == 31
  {
    seq(31, i requires i >= 0 => LengthExtraOf(i))
  }

  function DistBaseOf(i: nat): nat {
    match i
    case 0 => 1 case 1 => 2 case 2 => 3 case 3 => 4 case 4 => 5 case 5 => 7 case 6 => 9 case 7 => 13
    case 8 => 17 case 9 => 25 case 10 => 33 case 11 => 49 case 12 => 65 case 13 => 97 case 14 => 129 case 15 => 193
    case 16 => 257 case 17 => 385 case 18 => 513 case 19 => 769 case 20 => 1025 case 21 => 1537 case 22 => 2049 case 23 => 3073
    case 24 => 4097 case 25 => 6145 case 26 => 8193 case 27 => 12289 case 28 => 16385 case _ => 24577
  }

  function DistBase(): (r: seq<nat>)
    ensures |r| == 30
  {
    seq(30, i requires i >= 0 => DistBaseOf(i))
  }

  function DistExtraOf(i: nat): nat {
    match i
    case 0 => 0 case 1 => 0 case 2 => 0 case 3 => 0 case 4 => 1 case 5 => 1 case 6 => 2 case 7 => 2
    case 8 => 3 case 9 => 3 case 10 => 4 case 11 => 4 case 12 => 5 case 13 => 5 case 14 => 6 case 15 => 6
    case 16 => 7 case 17 => 7 case 18 => 8 case 19 => 8 case 20 => 9 case 21 => 9 case 22 => 10 case 23 => 10
    case 24 => 11 case 25 => 11 case 26 => 12 case 27 => 12 case 28 => 13 case _ => 13
  }

  function DistExtra(): (r: seq<nat>)
    ensures |r| == 30
  {
    seq(30, i requires i >= 0 => DistExtraOf(i))
  }

  function BorderOf(i: nat): (r: nat)
    ensures r < 19
  {
    match i
    case 0 => 16 case 1 => 17 case 2 => 18 case 3 => 0 case 4 => 8 case 5 => 7 case 6 => 9 case 7 => 6
    case 8 => 10 case 9 => 5 case 10 => 11 case 11 => 4 case 12 => 12 case 13 => 3 case 14 => 13 case 15 => 2
    case 16 => 14 case 17 => 1 case _ => 15
  }

  function Border(): (r: seq<nat>)
    ensures |r| == 19 && forall i :: 0 <= i < 19 ==> r[i] < 19
  {
    seq(19, i requires i >= 0 => BorderOf(i))
  }

  const END_OF_BLOCK := 256

  // The code lengths of a block with fixed codes (section 3.2.6). Distance codes 30 and 31 have a pattern but no meaning.
  function FixedLit(): seq<nat> {
    seq(288, i => if i < 144 then 8 else if i < 256 then 9 else if i < 280 then 7 else 8)
  }

  function FixedDist(): seq<nat> {
    seq(30, _ => 5)
  }

  // ----- compressed data

  // Copy length bytes from dist bytes back; the source may overlap what is being written.
  function CopyMatch(out: seq<byte>, dist: nat, length: nat): (r: seq<byte>)
    ensures |r| == |out| + length && out <= r
    decreases length
  {
    if length == 0 then out else CopyMatch(out + [Back(out, dist)], dist, length - 1)
  }

  // So every copied byte is the one dist positions before it, also where the source overlaps the copy.
  lemma {:induction false} CopiedBytes(out: seq<byte>, dist: nat, length: nat, i: nat)
    requires dist >= 1 && |out| <= i < |out| + length
    ensures
      var r := CopyMatch(out, dist, length);
      r[i] == if dist <= i then r[i - dist] else 0
    decreases length
  {
    var out' := out + [Back(out, dist)];
    var r := CopyMatch(out', dist, length - 1);
    assert r == CopyMatch(out, dist, length);
    if i > |out| {
      CopiedBytes(out', dist, length - 1, i);
    } else {
      assert r[i] == out'[i];
      assert dist <= i ==> r[i - dist] == out'[i - dist];
    }
  }

  function Extra(bits: seq<bool>, pos: nat, base: nat, n: nat): (r: Part<nat>)
    ensures r.Got? ==> r.pos == pos + n <= |bits|
  {
    if pos + n > |bits| then Missing else Got(pos + n, base + Val(bits, pos, n))
  }

  ghost function DistanceSymbol(dist: seq<nat>, bits: seq<bool>, pos: nat): (r: Part<nat>)
    requires Lengths(dist) && pos <= |bits|
    ensures r.Got? ==> pos < r.pos <= |bits| && r.value < 30
  {
    match Decode(dist, bits[pos..])
    case Incomplete => Missing
    case Invalid => Invalid'
    case Symbol(d, n) => if d < 30 then Got(pos + n, d) else Invalid'
  }

  // The end of a compressed block, or the reason why there is none.
  datatype Block = EndOfBlock(pos: nat, out: seq<byte>) | Stopped(o: Outcome)

  function Stop<T>(part: Part<T>, out: seq<byte>): Block
    requires !part.Got?
  {
    Stopped(if part.Missing? then More(out) else Fail(out))
  }

  // Output only grows and the position only advances.
  ghost predicate Extends'(r: Block, pos: nat, size: nat, out: seq<byte>) {
    match r
    case EndOfBlock(p, o) => pos <= p <= size && out <= o
    case Stopped(o) => out <= o.out && !o.Done?
  }

  // Literals and length/distance pairs up to the end of the block (section 3.2.5).
  ghost function Codes(lit: seq<nat>, dist: seq<nat>, bits: seq<bool>, pos: nat, out: seq<byte>): (r: Block)
    requires Lengths(lit) && Lengths(dist) && pos <= |bits|
    ensures Extends'(r, pos, |bits|, out)
    decreases |bits| - pos, 1
  {
    match Decode(lit, bits[pos..])
    case Incomplete => Stopped(More(out))
    case Invalid => Stopped(Fail(out))
    case Symbol(y, n) =>
      if y < 256 then Codes(lit, dist, bits, pos + n, out + [y])
      else if y == END_OF_BLOCK then EndOfBlock(pos + n, out)
      else if y > 285 then Stopped(Fail(out))
      else LengthPart(lit, dist, bits, pos + n, out, LengthBase()[y - 257], LengthExtra()[y - 257])
  }

  // A length symbol has been read: its extra bits come next.
  ghost function LengthPart(lit: seq<nat>, dist: seq<nat>, bits: seq<bool>, pos: nat, out: seq<byte>, base: nat, get: nat): (r: Block)
    requires Lengths(lit) && Lengths(dist) && pos <= |bits|
    ensures Extends'(r, pos, |bits|, out)
    decreases |bits| - pos, 5
  {
    match Extra(bits, pos, base, get)
    case Got(p, length) => DistancePart(lit, dist, bits, p, out, length)
    case _ => Stopped(More(out))
  }

  // The length is known: the distance symbol comes next.
  ghost function DistancePart(lit: seq<nat>, dist: seq<nat>, bits: seq<bool>, pos: nat, out: seq<byte>, length: nat): (r: Block)
    requires Lengths(lit) && Lengths(dist) && pos <= |bits|
    ensures Extends'(r, pos, |bits|, out)
    decreases |bits| - pos, 4
  {
    match DistanceSymbol(dist, bits, pos)
    case Got(p, d) => DistanceExtra(lit, dist, bits, p, out, length, DistBase()[d], DistExtra()[d])
    case other => Stop(other, out)
  }

  // A distance symbol has been read: its extra bits come next, and then the copy.
  ghost function DistanceExtra(lit: seq<nat>, dist: seq<nat>, bits: seq<bool>, pos: nat, out: seq<byte>, length: nat, base: nat, get: nat): (r: Block)
    requires Lengths(lit) && Lengths(dist) && pos <= |bits|
    ensures Extends'(r, pos, |bits|, out)
    decreases |bits| - pos, 3
  {
    match Extra(bits, pos, base, get)
    case Got(p, d) => Copying(lit, dist, bits, p, out, length, d)
    case _ => Stopped(More(out))
  }

  ghost function Copying(lit: seq<nat>, dist: seq<nat>, bits: seq<bool>, pos: nat, out: seq<byte>, length: nat, d: nat): (r: Block)
    requires Lengths(lit) && Lengths(dist) && pos <= |bits|
    ensures Extends'(r, pos, |bits|, out)
    decreases |bits| - pos, 2
  {
    Codes(lit, dist, bits, pos, CopyMatch(out, d, length))
  }

  // ----- blocks

  // The whole stream: blocks up to one marked as the last (section 3.2.3).
  ghost function Inflate(input: seq<byte>): Outcome {
    Blocks(Stream(input), 0, [])
  }

  ghost function Blocks(bits: seq<bool>, pos: nat, out: seq<byte>): (r: Outcome)
    requires pos <= |bits|
    ensures out <= r.out && (r.Done? ==> pos <= r.pos)
    decreases |bits| - pos, 0
  {
    if pos + 3 > |bits| then More(out)
    else
      var last, kind := bits[pos], Val(bits, pos + 1, 2);
      if kind == 0 then StoredHeader(bits, NextByte(pos + 3), out, last)
      else if kind == 1 then Compressed(FixedLit(), FixedDist(), bits, pos + 3, out, last)
      else if kind == 2 then Under(Dynamic(bits, pos + 3), bits, out, last)
      else Fail(out)
  }

  // The code lengths of a compressed block and where its symbols begin; or the head is not accepted, or cut off.
  datatype Head = Lens(lit: seq<nat>, dist: seq<nat>, pos: nat) | Refused | Cut

  ghost predicate Sound(h: Head, pos: nat, size: nat) {
    h.Lens? ==> Lengths(h.lit) && Lengths(h.dist) && pos <= h.pos <= size
  }

  // What a block with this head amounts to, and what follows it.
  ghost function Under(h: Head, bits: seq<bool>, out: seq<byte>, last: bool): (r: Outcome)
    requires Sound(h, 0, |bits|)
    ensures out <= r.out && (h.Lens? && r.Done? ==> h.pos <= r.pos) && (r.Done? ==> h.Lens?)
    decreases if h.Lens? then |bits| - h.pos else 0, 4
  {
    match h
    case Lens(lit, dist, p) => Compressed(lit, dist, bits, p, out, last)
    case Refused => Fail(out)
    case Cut => More(out)
  }

  // The head of the block at pos. A stored block has none.
  ghost function HeadAt(bits: seq<bool>, pos: nat): (h: Head)
    ensures Sound(h, pos, |bits|)
  {
    if pos + 3 > |bits| then Cut
    else if Val(bits, pos + 1, 2) == 1 then Lens(FixedLit(), FixedDist(), pos + 3)
    else if Val(bits, pos + 1, 2) == 2 then Dynamic(bits, pos + 3)
    else Refused
  }

  // What a compressed block at pos yields.
  ghost function BlockAt(bits: seq<bool>, pos: nat, out: seq<byte>): (b: Block)
    ensures Extends'(b, pos, |bits|, out)
  {
    match HeadAt(bits, pos)
    case Lens(lit, dist, p) => Codes(lit, dist, bits, p, out)
    case Refused => Stopped(Fail(out))
    case Cut => Stopped(More(out))
  }

  // The first byte boundary from pos on.
  function NextByte(pos: nat): (r: nat)
    ensures pos <= r < pos + 8 && r % 8 == 0
  {
    pos + (8 - pos % 8) % 8
  }

  // What follows a block.
  ghost function After(bits: seq<bool>, pos: nat, out: seq<byte>, last: bool): (r: Outcome)
    requires pos <= |bits|
    ensures out <= r.out && (r.Done? ==> pos <= r.pos)
    decreases |bits| - pos, 1
  {
    if last then Done(out, pos) else Blocks(bits, pos, out)
  }

  // Stored data: its length and the complement of it, then the bytes (section 3.2.4).
  ghost function StoredHeader(bits: seq<bool>, pos: nat, out: seq<byte>, last: bool): (r: Outcome)
    ensures out <= r.out && (r.Done? ==> pos <= r.pos)
    decreases |bits| - pos, 3
  {
    if pos + 32 > |bits| then More(out)
    else if Val(bits, pos, 16) + Val(bits, pos + 16, 16) != 0xffff then Fail(out)
    else StoredBytes(bits, pos + 32, out, last, Val(bits, pos, 16))
  }

  ghost function StoredBytes(bits: seq<bool>, pos: nat, out: seq<byte>, last: bool, left: nat): (r: Outcome)
    requires pos <= |bits|
    ensures out <= r.out && (r.Done? ==> pos <= r.pos)
    decreases |bits| - pos, 2
  {
    if left == 0 then After(bits, pos, out, last)
    else if pos + 8 > |bits| then More(out)
    else StoredBytes(bits, pos + 8, out + [ByteAt(bits, pos)], last, left - 1)
  }

  function ByteAt(bits: seq<bool>, pos: nat): byte
    requires pos + 8 <= |bits|
  {
    LsbBound(bits[pos..pos + 8]);
    Pow2Eight();
    Val(bits, pos, 8)
  }

  ghost function Compressed(lit: seq<nat>, dist: seq<nat>, bits: seq<bool>, pos: nat, out: seq<byte>, last: bool): (r: Outcome)
    requires Lengths(lit) && Lengths(dist) && pos <= |bits|
    ensures out <= r.out && (r.Done? ==> pos <= r.pos)
    decreases |bits| - pos, 3
  {
    Finish(Codes(lit, dist, bits, pos, out), bits, last)
  }

  // From the end of a compressed block on.
  ghost function Finish(b: Block, bits: seq<bool>, last: bool): (r: Outcome)
    requires b.EndOfBlock? ==> b.pos <= |bits|
    ensures if b.EndOfBlock? then b.out <= r.out && (r.Done? ==> b.pos <= r.pos) else r == b.o
    decreases if b.EndOfBlock? then |bits| - b.pos else 0, 2
  {
    match b
    case EndOfBlock(p, o) => After(bits, p, o, last)
    case Stopped(o) => o
  }

  // ----- dynamic codes (section 3.2.7)

  // The numbers of symbols given by the 14 bits t at the head of the block.
  function NumLit(t: nat): nat {
    257 + Low(t, 5)
  }

  function NumLengths(t: nat): nat {
    258 + Low(t, 5) + Low(Shr(t, 5), 5)
  }

  function NumBitLengths(t: nat): nat {
    4 + Shr(t, 10)
  }

  // The source takes a set of lengths if it is complete, or consists of a single code of one bit.
  ghost predicate Accepted(b: seq<nat>) {
    Lengths(b) && Longest(b) > 0 && (Kraft(b) == Pow2(BMAX) || (Kraft(b) < Pow2(BMAX) && Longest(b) == 1))
  }

  // The head of a block with dynamic codes.
  ghost function Dynamic(bits: seq<bool>, pos: nat): (h: Head)
    requires pos <= |bits|
    ensures Sound(h, pos, |bits|)
  {
    if pos + 14 > |bits| then Cut
    else
      var t := Val(bits, pos, 14);
      if Low(t, 5) > 29 || Low(Shr(t, 5), 5) > 29 then Refused
      else BitLengths(bits, pos + 14, t, 0, seq(19, _ => 0))
  }

  // The lengths of the bit-length codes, in their own order; i of them have been read.
  ghost function BitLengths(bits: seq<bool>, pos: nat, t: nat, i: nat, cl: seq<nat>): (h: Head)
    requires pos <= |bits| && |cl| == 19 && Lengths(cl)
    ensures Sound(h, pos, |bits|)
    decreases |bits| - pos
  {
    if i < NumBitLengths(t) && i < 19 then
      if pos + 3 > |bits| then Cut
      else BitLengths(bits, pos + 3, t, i + 1, cl[Border()[i] := ThreeBits(bits, pos)])
    else BitLengthsRead(bits, pos, t, cl)
  }

  function ThreeBits(bits: seq<bool>, pos: nat): (r: nat)
    requires pos + 3 <= |bits|
    ensures r < 8
  {
    LsbBound(bits[pos..pos + 3]);
    Val(bits, pos, 3)
  }

  ghost function BitLengthsRead(bits: seq<bool>, pos: nat, t: nat, cl: seq<nat>): (h: Head)
    requires pos <= |bits| && |cl| == 19 && Lengths(cl)
    ensures Sound(h, pos, |bits|)
  {
    if Accepted(cl) then CodeLengths(bits, pos, t, cl, []) else Refused
  }

  // One symbol of the bit-length code. A code with a single symbol is decoded as that symbol whatever the bit is.
  ghost function BitLengthSymbol(cl: seq<nat>, t: seq<bool>): (r: Decoded)
    requires |cl| == 19 && Accepted(cl)
    ensures r.Symbol? ==> r.s < 19 && 0 < r.used <= |t|
  {
    match Decode(cl, t)
    case Invalid => if t == [] then Incomplete else Symbol(Sole(cl), 1)
    case d => d
  }

  ghost function Sole(cl: seq<nat>): (s: nat)
    requires |cl| == 19 && Accepted(cl)
    ensures s < 19
  {
    LengthsCounted(cl);
    LastSymbol(cl, Longest(cl))
  }

  function Repeat(x: nat, n: nat): seq<nat> {
    seq(n, _ => x)
  }

  // Extra bits and least count of the repeat codes 16, 17 and 18.
  function RepeatBits(c: nat): nat {
    if c == 18 then 7 else if c >= 14 then c - 14 else 0
  }

  function RepeatBase(c: nat): nat {
    if c == 18 then 11 else 3
  }

  // The literal/length and distance code lengths, read as one run; acc is what there is of it.
  ghost function CodeLengths(bits: seq<bool>, pos: nat, t: nat, cl: seq<nat>, acc: seq<nat>): (h: Head)
    requires pos <= |bits| && |cl| == 19 && Accepted(cl) && Lengths(acc) && |acc| <= NumLengths(t)
    ensures Sound(h, pos, |bits|)
    decreases |bits| - pos
  {
    if |acc| == NumLengths(t) then CodeLengthsRead(pos, t, acc)
    else
      match BitLengthSymbol(cl, bits[pos..])
      case Incomplete => Cut
      case Invalid => Refused
      case Symbol(c, n) =>
        if c < 16 then CodeLengths(bits, pos + n, t, cl, acc + [c])
        else
          match Extra(bits, pos + n, RepeatBase(c), RepeatBits(c))
          case Got(p, times) =>
            if |acc| + times > NumLengths(t) || (c == 16 && acc == []) then Refused
            else CodeLengths(bits, p, t, cl, acc + Repeat(if c == 16 then acc[|acc| - 1] else 0, times))
          case _ => Cut
  }

  ghost function CodeLengthsRead(pos: nat, t: nat, acc: seq<nat>): (h: Head)
    requires Lengths(acc) && |acc| == NumLengths(t)
    ensures Sound(h, pos, pos)
  {
    var lit, dist := acc[..NumLit(t)], acc[NumLit(t)..];
    if Accepted(lit) && (Accepted(dist) || (Longest(dist) == 0 && NumLit(t) == 257)) then Lens(lit, dist, pos) else Refused
  }
}
