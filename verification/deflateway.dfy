// The way of the recursive decoder through a stream, block by block, and how it is left: when a byte that has been decoded
// is read again together with another one, decoding goes on with the stream as it is then.

module DeflateWay {
  import opened Bits
  import opened BitInput
  import opened Deflate

  // ----- single blocks

  // The bytes of a stored block, left of which are still to come.
  ghost function StoredRest(bits: seq<bool>, pos: nat, out: seq<byte>, left: nat): (b: Block)
    ensures Extends'(b, pos, |bits|, out)
    decreases left
  {
    if pos > |bits| then Stopped(More(out))
    else if left == 0 then EndOfBlock(pos, out)
    else if pos + 8 > |bits| then Stopped(More(out))
    else StoredRest(bits, pos + 8, out + [ByteAt(bits, pos)], left - 1)
  }

  ghost function StoredBlock(bits: seq<bool>, pos: nat, out: seq<byte>): (b: Block)
    ensures Extends'(b, pos, |bits|, out)
  {
    if pos + 32 > |bits| then Stopped(More(out))
    else if Val(bits, pos, 16) + Val(bits, pos + 16, 16) != 0xffff then Stopped(Fail(out))
    else StoredRest(bits, pos + 32, out, Val(bits, pos, 16))
  }

  // What the block at pos yields, whatever its kind.
  ghost function WholeBlock(bits: seq<bool>, pos: nat, out: seq<byte>): (b: Block)
    ensures Extends'(b, pos, |bits|, out)
  {
    if pos + 3 <= |bits| && Val(bits, pos + 1, 2) == 0 then StoredBlock(bits, NextByte(pos + 3), out) else BlockAt(bits, pos, out)
  }

  // Decoding a stream is decoding its blocks one after the other.
  lemma BlockByBlock(bits: seq<bool>, pos: nat, out: seq<byte>)
    requires pos < |bits|
    ensures Blocks(bits, pos, out) == Finish(WholeBlock(bits, pos, out), bits, bits[pos])
  {
    hide Val, Dynamic, Codes, FixedLit, FixedDist, NextByte, StoredRest, StoredBytes;
    if pos + 3 <= |bits| && Val(bits, pos + 1, 2) == 0 {
      var q := NextByte(pos + 3);
      if q + 32 <= |bits| {
        StoredByBytes(bits, q + 32, out, bits[pos], Val(bits, q, 16));
      }
    } else if pos + 3 <= |bits| {
      HeadThenCodes(bits, pos, out, bits[pos]);
    }
  }

  lemma {:induction false} HeadThenCodes(bits: seq<bool>, pos: nat, out: seq<byte>, last: bool)
    requires pos + 3 <= |bits| && Val(bits, pos + 1, 2) != 0 && last == bits[pos]
    ensures Blocks(bits, pos, out) == Finish(BlockAt(bits, pos, out), bits, last)
  {
    hide Val, Dynamic, Codes, FixedLit, FixedDist, StoredHeader, After;
    var h := HeadAt(bits, pos);
    if Val(bits, pos + 1, 2) == 1 || Val(bits, pos + 1, 2) == 2 {
      assert Blocks(bits, pos, out) == Under(h, bits, out, last);
      match h {
        case Lens(lit, dist, p) =>
          assert Under(h, bits, out, last) == Compressed(lit, dist, bits, p, out, last);
          assert Compressed(lit, dist, bits, p, out, last) == Finish(Codes(lit, dist, bits, p, out), bits, last);
        case Refused =>
        case Cut =>
      }
    }
  }

  lemma {:induction false} StoredByBytes(bits: seq<bool>, pos: nat, out: seq<byte>, last: bool, left: nat)
    requires pos <= |bits|
    ensures StoredBytes(bits, pos, out, last, left) == Finish(StoredRest(bits, pos, out, left), bits, last)
    decreases left
  {
    hide Blocks, ByteAt;
    if left > 0 && pos + 8 <= |bits| {
      StoredByBytes(bits, pos + 8, out + [ByteAt(bits, pos)], last, left - 1);
    }
  }

  // Stored bytes may be taken at once.
  lemma {:induction false} RestRun(input: seq<byte>, p: nat, out: seq<byte>, left: nat, n: nat)
    requires n <= left && p + n <= |input|
    ensures StoredRest(Stream(input), 8 * p, out, left) == StoredRest(Stream(input), 8 * (p + n), out + input[p..p + n], left - n)
    decreases n
  {
    hide Stream, Val;
    if n == 0 {
      assert out + input[p..p] == out;
    } else {
      ByteVal(input, p);
      assert (out + [input[p]]) + input[p + 1..p + n] == out + input[p..p + n];
      RestRun(input, p + 1, out + [input[p]], left - 1, n - 1);
    }
  }

  // ----- the way from block to block

  // Where the block begins that comes after n others from pos on, none of which is the last.
  ghost function Passing(bits: seq<bool>, pos: nat, out: seq<byte>, n: nat): (b: Block)
    ensures b.EndOfBlock? ==> pos <= b.pos && out <= b.out
  {
    if n == 0 then EndOfBlock(pos, out)
    else
      match Passing(bits, pos, out, n - 1)
      case EndOfBlock(p, o) => if p < |bits| && !bits[p] then WholeBlock(bits, p, o) else Stopped(Fail(o))
      case Stopped(o) => Stopped(Fail(o.out))
  }

  // Up to there the stream decodes to what has been put out by then.
  lemma {:induction false} PassingOn(bits: seq<bool>, pos: nat, out: seq<byte>, n: nat)
    requires pos <= |bits| && Passing(bits, pos, out, n).EndOfBlock?
    ensures
      var b := Passing(bits, pos, out, n);
      b.pos <= |bits| && Blocks(bits, pos, out) == Blocks(bits, b.pos, b.out)
  {
    hide WholeBlock, Blocks;
    if n > 0 {
      PassingOn(bits, pos, out, n - 1);
      var a := Passing(bits, pos, out, n - 1);
      BlockByBlock(bits, a.pos, a.out);
      AfterMore(bits, WholeBlock(bits, a.pos, a.out));
    }
  }

  lemma AfterMore(bits: seq<bool>, b: Block)
    requires b.EndOfBlock? && b.pos <= |bits|
    ensures Finish(b, bits, false) == Blocks(bits, b.pos, b.out)
  {
    hide Blocks;
  }

  // ----- leaving the stream

  // A place to decode from: a stream, a position in it, and the output so far.
  datatype Origin = Origin(input: seq<byte>, pos: nat, out: seq<byte>)

  ghost function OutcomeFrom(o: Origin): Outcome {
    if o.pos <= 8 * |o.input| then Blocks(Stream(o.input), o.pos, o.out) else Fail(o.out)
  }

  // What the block yields that comes after n others from o on, if it is compressed and not the last.
  ghost function CompressedAfter(o: Origin, n: nat): Block {
    var bits := Stream(o.input);
    match Passing(bits, o.pos, o.out, n)
    case EndOfBlock(p, out) => if p < |bits| && !bits[p] then BlockAt(bits, p, out) else Stopped(Fail(out))
    case stopped => stopped
  }

  // Such a block ends a whole byte but less than two bytes in front of the area that begins with the given byte of the data.
  ghost predicate EndsBefore(o: Origin, n: nat, area: nat) {
    var b := CompressedAfter(o, n);
    b.EndOfBlock? && 0 < area <= |o.input| && b.pos + 8 <= 8 * area <= b.pos + 15
  }

  // A block of the data, compressed and not the last, ends just in front of the area.
  ghost predicate Exposed(data: seq<byte>, area: nat) {
    exists n: nat :: EndsBefore(Origin(data, 0, []), n, area)
  }

  // Decoding from the end of the block b on, after the byte in front of an area has been or-ed with the byte front.
  ghost function Reread(input: seq<byte>, area: nat, front: byte, b: Block): Origin
    requires 0 < area <= |input| && b.EndOfBlock?
  {
    Origin(input[area - 1 := OrByte(input[area - 1], front)], b.pos, b.out)
  }

  // A turn: behind the block that comes after so many others, the byte in front of the area is read again with the byte front.
  datatype Turn = Turn(blocks: nat, area: nat, front: byte)

  ghost function TurnedAt(o: Origin, t: Turn): Origin {
    if EndsBefore(o, t.blocks, t.area) then Reread(o.input, t.area, t.front, CompressedAfter(o, t.blocks)) else o
  }

  // From where on decoding goes after some turns.
  ghost function AfterTurns(o: Origin, turns: seq<Turn>): Origin {
    if turns == [] then o else TurnedAt(AfterTurns(o, turns[..|turns| - 1]), turns[|turns| - 1])
  }

  // Each of them is taken at the end of a block just in front of its area.
  ghost predicate Possible(o: Origin, turns: seq<Turn>) {
    turns != [] ==>
      var t := turns[|turns| - 1];
      Possible(o, turns[..|turns| - 1]) && EndsBefore(AfterTurns(o, turns[..|turns| - 1]), t.blocks, t.area)
  }

  lemma {:induction false} OneTurnMore(o: Origin, turns: seq<Turn>, t: Turn)
    requires Possible(o, turns) && EndsBefore(AfterTurns(o, turns), t.blocks, t.area)
    ensures Possible(o, turns + [t]) && AfterTurns(o, turns + [t]) == TurnedAt(AfterTurns(o, turns), t)
  {
    hide EndsBefore, TurnedAt;
    assert (turns + [t])[..|turns|] == turns;
  }

  lemma {:induction false} LastTurn(o: Origin, turns: seq<Turn>)
    requires turns != [] && Possible(o, turns)
    ensures turns[|turns| - 1].area > 0
  {
  }

  // So if any turn is taken, a block of the stream itself ends just in front of an area.
  lemma {:induction false} FirstTurn(o: Origin, turns: seq<Turn>)
    requires turns != [] && Possible(o, turns)
    ensures EndsBefore(o, turns[0].blocks, turns[0].area)
  {
    hide EndsBefore, TurnedAt;
    if |turns| > 1 {
      FirstTurn(o, turns[..|turns| - 1]);
    }
  }
}
