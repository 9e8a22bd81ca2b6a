// The block layer of the decoder, interruptible like the symbol layer below it (inflate_blocks).
//
// Every mode stands for a place in the recursive decoder of module Deflate. At any time that decoder, continued from there,
// yields what it yields for the whole stream, so whatever has been delivered is a prefix of that, and all of it once the
// end has been reported.

module InflateBlocks {
  import opened Bits
  import opened Canonical
  import opened BitInput
  import opened RingWindow
  import opened HuftTable
  import opened Huffman
  import opened Deflate
  import opened DeflateWay
  import opened FixedTables
  import opened InflateCodes
  import opened InflateTrees

  // The mode, with the fields that the source keeps for it in a union.
  datatype BlockMode =
    | TYPE
    | LENS
    | STORED(left: nat)
    | TABLE
    | BTREE(table: nat, index: nat)
    | DTREE(table: nat, index: nat, bb: nat, tab: seq<Entry>, tb: nat)
    | CODES
    | DRY
    | DONE
    | BAD

  // ----- the order in which bit lengths are sent

  // Where the length of symbol k is sent.
  function Place(k: nat): (i: nat)
    ensures k < 19 ==> i < 19
  {
    match k
    case 0 => 3 case 1 => 17 case 2 => 15 case 3 => 13 case 4 => 11 case 5 => 9 case 6 => 7 case 7 => 5 case 8 => 4
    case 9 => 6 case 10 => 8 case 11 => 10 case 12 => 12 case 13 => 14 case 14 => 16 case 15 => 18
    case 16 => 0 case 17 => 1 case _ => 2
  }

  lemma BorderPlace(k: nat)
    requires k < 19
    ensures Border()[Place(k)] == k && Place(Border()[k]) == k
  {
  }

  // Of the bit lengths cl, the first i in the order of sending are in place, and the others are zero.
  ghost predicate Filled(blens: seq<nat>, cl: seq<nat>, i: nat) {
    && |cl| == 19 <= |blens| && (forall k :: 0 <= k < 19 ==> cl[k] < 8)
    && (forall j :: 0 <= j < i && j < 19 ==> blens[Border()[j]] == cl[Border()[j]])
    && (forall j :: i <= j < 19 ==> cl[Border()[j]] == 0)
  }

  lemma FillOne(blens: seq<nat>, cl: seq<nat>, i: nat, x: nat)
    requires Filled(blens, cl, i) && i < 19 && x < 8
    ensures Filled(blens[Border()[i] := x], cl[Border()[i] := x], i + 1)
  {
    hide Border;
    forall j | 0 <= j < 19 && j != i
      ensures Border()[j] != Border()[i]
    {
      BorderPlace(j);
      BorderPlace(i);
    }
  }

  lemma ZeroOne(blens: seq<nat>, cl: seq<nat>, i: nat)
    requires Filled(blens, cl, i) && i < 19
    ensures Filled(blens[Border()[i] := 0], cl, i + 1)
  {
    hide Border;
    FillOne(blens, cl, i, 0);
    assert cl[Border()[i] := 0] == cl;
  }

  lemma AllFilled(blens: seq<nat>, cl: seq<nat>)
    requires Filled(blens, cl, 19)
    ensures blens[..19] == cl
  {
    hide Border;
    forall k | 0 <= k < 19
      ensures blens[k] == cl[k]
    {
      BorderPlace(k);
    }
  }

  // ----- the meaning of a state

  // The numbers of symbols in the head of a dynamic block are in range.
  ghost predicate TableOk(t: nat) {
    Low(t, 5) <= 29 && Low(Shr(t, 5), 5) <= 29 && NumBitLengths(t) <= 19
  }

  // What each mode relies on; pos is the position in the stream.
  ghost predicate ModeOk(m: BlockMode, blens: seq<nat>, cl: seq<nat>, last: bool, pos: nat) {
    match m
    case LENS => pos % 8 == 0
    case BTREE(t, i) => TableOk(t) && i <= 19 && |blens| == NumLengths(t) && Filled(blens, cl, i)
    case DTREE(t, i, bb, tab, tb) =>
      && TableOk(t) && i <= |blens| == NumLengths(t) && Lengths(blens[..i])
      && BitTable(tab, tb, bb, cl)
    case DRY => last
    case DONE => last
    case _ => true
  }

  // What is being decoded: the head of the block at hand, and what the whole stream yields.
  datatype Goal = Goal(head: Head, whole: Outcome)

  // Reading the head goes on to the same head.
  ghost predicate HeadKnown(m: BlockMode, blens: seq<nat>, cl: seq<nat>, last: bool, bits: seq<bool>, pos: nat, head: Head)
    requires pos <= |bits| && ModeOk(m, blens, cl, last, pos)
  {
    match m
    case LENS => head == Refused
    case STORED(_) => head == Refused
    case TABLE => head == Dynamic(bits, pos)
    case BTREE(t, i) => head == BitLengths(bits, pos, t, i, cl)
    case DTREE(t, i, _, _, _) => head == CodeLengths(bits, pos, t, cl, blens[..i])
    case _ => true
  }

  // What decoding the rest of the stream yields; b is what the codes state yields for its block.
  ghost function RestOfStream(m: BlockMode, last: bool, bits: seq<bool>, pos: nat, out: seq<byte>, b: Block, head: Head): Outcome
    requires pos <= |bits| && Sound(head, 0, |bits|)
  {
    match m
    case TYPE => Blocks(bits, pos, out)
    case LENS => StoredHeader(bits, pos, out, last)
    case STORED(left) => StoredBytes(bits, pos, out, last, left)
    case TABLE => Under(head, bits, out, last)
    case BTREE(_, _) => Under(head, bits, out, last)
    case DTREE(_, _, _, _, _) => Under(head, bits, out, last)
    case CODES => FinishWithin(b, bits, last)
    case DRY => Done(out, pos)
    case DONE => Done(out, pos)
    case BAD => Fail(out)
  }

  ghost function FinishWithin(b: Block, bits: seq<bool>, last: bool): Outcome {
    if b.EndOfBlock? && b.pos > |bits| then Fail([]) else Finish(b, bits, last)
  }

  // Decoding goes on from here as it does from the beginning of the block and of the stream.
  ghost predicate Agrees(m: BlockMode, blens: seq<nat>, cl: seq<nat>, last: bool, bits: seq<bool>, pos: nat, out: seq<byte>, b: Block, goal: Goal) {
    && pos <= |bits| && ModeOk(m, blens, cl, last, pos) && Sound(goal.head, 0, |bits|)
    && HeadKnown(m, blens, cl, last, bits, pos, goal.head)
    && RestOfStream(m, last, bits, pos, out, b, goal.head) == goal.whole
  }

  lemma AgreesExtends(m: BlockMode, blens: seq<nat>, cl: seq<nat>, last: bool, bits: seq<bool>, pos: nat, out: seq<byte>, b: Block, goal: Goal)
    requires Agrees(m, blens, cl, last, bits, pos, out, b, goal)
    requires m.CODES? ==> Extends'(b, 0, |bits|, out)
    ensures out <= goal.whole.out
  {
    hide TableOk, Filled, Lengths, BitTable;
  }

  // How far the modes are from needing input or finishing, for termination.
  function Height(m: BlockMode): nat {
    match m
    case BTREE(_, _) => 8
    case DTREE(_, _, _, _, _) => 7
    case CODES => 6
    case TYPE => 5
    case DRY => 3
    case DONE => 2
    case _ => 1
  }

  // ----- one step of the recursive decoder

  lemma TypeUnfold(bits: seq<bool>, pos: nat, out: seq<byte>)
    requires pos + 3 <= |bits|
    ensures
      var t := Val(bits, pos, 3);
      var last := t % 2 == 1;
      && t < 8 && last == bits[pos]
      && Blocks(bits, pos, out) ==
         (if t / 2 == 0 then StoredHeader(bits, NextByte(pos + 3), out, last)
          else if t / 2 == 1 then Compressed(FixedLit(), FixedDist(), bits, pos + 3, out, last)
          else if t / 2 == 2 then Under(Dynamic(bits, pos + 3), bits, out, last)
          else Fail(out))
      && HeadAt(bits, pos) ==
         (if t / 2 == 1 then Lens(FixedLit(), FixedDist(), pos + 3) else if t / 2 == 2 then Dynamic(bits, pos + 3) else Refused)
  {
    hide StoredHeader, Dynamic, Compressed, FixedLit, FixedDist, Under;
    var s := bits[pos..pos + 3];
    assert s[1..] == bits[pos + 1..pos + 3];
    LsbBound(s);
  }

  lemma FirstBits(bits: seq<bool>, pos: nat, out: seq<byte>)
    requires pos + 3 <= |bits|
    ensures bits[pos] == (Val(bits, pos, 3) % 2 == 1)
    ensures Val(bits, pos, 3) / 2 == 0 ==> WholeBlock(bits, pos, out) == StoredBlock(bits, NextByte(pos + 3), out)
  {
    hide StoredBlock, BlockAt;
    var s := bits[pos..pos + 3];
    assert s[1..] == bits[pos + 1..pos + 3];
    LsbBound(s);
  }

  lemma DynamicUnfold(bits: seq<bool>, pos: nat)
    requires pos + 14 <= |bits|
    ensures
      var t := Val(bits, pos, 14);
      Dynamic(bits, pos) ==
        if Low(t, 5) > 29 || Low(Shr(t, 5), 5) > 29 then Refused else BitLengths(bits, pos + 14, t, 0, seq(19, _ => 0))
  {
    hide BitLengths, Val, Low, Shr;
  }

  lemma StoredUnfold(bits: seq<bool>, pos: nat, out: seq<byte>, last: bool)
    requires pos + 32 <= |bits|
    ensures
      var left := Val(bits, pos, 16);
      StoredHeader(bits, pos, out, last) ==
        if left + Val(bits, pos + 16, 16) != 0xffff then Fail(out) else StoredBytes(bits, pos + 32, out, last, left)
  {
    hide StoredBytes, Val;
  }

  lemma {:induction false} StoredRun(input: seq<byte>, p: nat, out: seq<byte>, last: bool, left: nat, n: nat)
    requires n <= left && p + n <= |input|
    ensures StoredBytes(Stream(input), 8 * p, out, last, left)
         == StoredBytes(Stream(input), 8 * (p + n), out + input[p..p + n], last, left - n)
    decreases n
  {
    hide Stream, After, Val;
    if n == 0 {
      assert out + input[p..p] == out;
    } else {
      ByteVal(input, p);
      assert (out + [input[p]]) + input[p + 1..p + n] == out + input[p..p + n];
      StoredRun(input, p + 1, out + [input[p]], last, left - 1, n - 1);
    }
  }

  // The entry that the next bits select in the table of the bit-length code is the one of the next symbol.
  lemma BitSymbolAt(tab: seq<Entry>, tb: nat, bb: nat, cl: seq<nat>, bits: seq<bool>, pos: nat)
    requires BitTable(tab, tb, bb, cl) && pos + bb <= |bits|
    ensures
      var at := tb + Val(bits, pos, bb);
      && at < |tab| && 0 < tab[at].bits <= bb && tab[at].base < 19
      && BitLengthSymbol(cl, bits[pos..]) == Symbol(tab[at].base, tab[at].bits)
  {
    hide Decode, Lsb, Longest, Kraft, Pow2, IsLink, Count, Decodes;
    var t := bits[pos..];
    assert Take(t, bb) == bits[pos..pos + bb];
    assert DirectAt(tab, tb + Lsb(Take(t, bb)));
    assert Shallow(tab, tb, bb, t, BMAX, bb);
    WalkOutcome(tab, tb, bb, t, cl, 19, [], []);
    if Decode(cl, t) == Invalid && Kraft(cl) == Pow2(BMAX) {
      CompleteNeverInvalid(cl, t);
      assert false;
    }
    LengthsCounted(cl);
  }

  lemma {:induction false} LengthUnfold'(bits: seq<bool>, pos: nat, t: nat, cl: seq<nat>, acc: seq<nat>, c: nat, n: nat)
    requires pos <= |bits| && |cl| == 19 && Accepted(cl) && Lengths(acc) && |acc| < NumLengths(t) && c < 16
    requires BitLengthSymbol(cl, bits[pos..]) == Symbol(c, n)
    ensures Lengths(acc + [c]) && pos + n <= |bits|
    ensures CodeLengths(bits, pos, t, cl, acc) == CodeLengths(bits, pos + n, t, cl, acc + [c])
  {
    hide RepeatBits, Repeat, Accepted, BitLengthSymbol, CodeLengthsRead, NumLengths, Sound;
  }

  lemma {:induction false} RepeatUnfold(bits: seq<bool>, pos: nat, t: nat, cl: seq<nat>, acc: seq<nat>, c: nat, n: nat)
    requires pos <= |bits| && |cl| == 19 && Accepted(cl) && Lengths(acc) && |acc| < NumLengths(t) && 16 <= c < 19
    requires BitLengthSymbol(cl, bits[pos..]) == Symbol(c, n) && pos + n + RepeatBits(c) <= |bits|
    ensures
      var p := pos + n + RepeatBits(c);
      var times := RepeatBase(c) + Val(bits, pos + n, RepeatBits(c));
      CodeLengths(bits, pos, t, cl, acc) ==
        if |acc| + times > NumLengths(t) || (c == 16 && acc == []) then Refused
        else
          assert Lengths(acc + Repeat(if c == 16 then acc[|acc| - 1] else 0, times));
          CodeLengths(bits, p, t, cl, acc + Repeat(if c == 16 then acc[|acc| - 1] else 0, times))
  {
    hide Lengths, Accepted, BitLengthSymbol, Val, RepeatBits, RepeatBase, CodeLengthsRead, NumLengths, Sound;
  }

  // ----- from one mode to the next

  lemma ToStored(blens: seq<nat>, cl: seq<nat>, last0: bool, bits: seq<bool>, pos: nat, out: seq<byte>, b: Block, goal: Goal)
    requires Agrees(TYPE, blens, cl, last0, bits, pos, out, b, goal) && goal.head == HeadAt(bits, pos)
    requires pos + 3 <= |bits| && Val(bits, pos, 3) / 2 == 0 && NextByte(pos + 3) <= |bits|
    ensures Agrees(LENS, blens, cl, Val(bits, pos, 3) % 2 == 1, bits, NextByte(pos + 3), out, b, goal)
  {
    hide Blocks, StoredHeader, Val, HeadAt;
    TypeUnfold(bits, pos, out);
  }

  lemma {:induction false} ToFixed(blens: seq<nat>, cl: seq<nat>, last0: bool, bits: seq<bool>, pos: nat, out: seq<byte>, b: Block, goal: Goal)
    requires Agrees(TYPE, blens, cl, last0, bits, pos, out, b, goal) && goal.head == HeadAt(bits, pos)
    requires pos + 3 <= |bits| && Val(bits, pos, 3) / 2 == 1
    ensures Lengths(FixedLit()) && Lengths(FixedDist()) && goal.head == Lens(FixedLit(), FixedDist(), pos + 3)
    ensures
      var b' := Codes(FixedLit(), FixedDist(), bits, pos + 3, out);
      Agrees(CODES, blens, cl, Val(bits, pos, 3) % 2 == 1, bits, pos + 3, out, b', goal)
  {
    hide Blocks, Codes, Val, FixedLit, FixedDist, HeadAt;
    LitShape();
    DistShape();
    TypeUnfold(bits, pos, out);
  }

  lemma ToDynamic(blens: seq<nat>, cl: seq<nat>, last0: bool, bits: seq<bool>, pos: nat, out: seq<byte>, b: Block, goal: Goal)
    requires Agrees(TYPE, blens, cl, last0, bits, pos, out, b, goal) && goal.head == HeadAt(bits, pos)
    requires pos + 3 <= |bits| && Val(bits, pos, 3) / 2 == 2
    ensures Agrees(TABLE, blens, cl, Val(bits, pos, 3) % 2 == 1, bits, pos + 3, out, b, goal)
  {
    hide Blocks, Dynamic, Val, Under, HeadAt;
    TypeUnfold(bits, pos, out);
  }

  lemma ToBad(blens: seq<nat>, cl: seq<nat>, last0: bool, bits: seq<bool>, pos: nat, out: seq<byte>, b: Block, goal: Goal)
    requires Agrees(TYPE, blens, cl, last0, bits, pos, out, b, goal) && goal.head == HeadAt(bits, pos)
    requires pos + 3 <= |bits| && Val(bits, pos, 3) / 2 >= 3
    ensures Agrees(BAD, blens, cl, Val(bits, pos, 3) % 2 == 1, bits, pos + 3, out, b, goal)
  {
    hide Blocks, Val, HeadAt;
    TypeUnfold(bits, pos, out);
  }

  lemma {:induction false} ToStoredBytes(blens: seq<nat>, cl: seq<nat>, last: bool, bits: seq<bool>, pos: nat, out: seq<byte>, b: Block, goal: Goal)
    requires Agrees(LENS, blens, cl, last, bits, pos, out, b, goal) && pos + 32 <= |bits|
    ensures
      var left := Val(bits, pos, 16);
      if left + Val(bits, pos + 16, 16) != 0xffff then Agrees(BAD, blens, cl, last, bits, pos, out, b, goal)
      else
        && Agrees(STORED(left), blens, cl, last, bits, pos + 32, out, b, goal)
        && StoredBlock(bits, pos, out) == StoredRest(bits, pos + 32, out, left)
  {
    hide StoredHeader, StoredBytes, Val, StoredRest;
    StoredUnfold(bits, pos, out, last);
  }

  // What follows a block that has been decoded.
  function AfterBlock(last: bool): BlockMode {
    if last then DRY else TYPE
  }

  lemma StoredEnd(blens: seq<nat>, cl: seq<nat>, last: bool, bits: seq<bool>, pos: nat, out: seq<byte>, b: Block, goal: Goal)
    requires Agrees(STORED(0), blens, cl, last, bits, pos, out, b, goal)
    ensures Agrees(AfterBlock(last), blens, cl, last, bits, pos, out, b, goal)
  {
    hide Blocks, Val, After;
    assert StoredBytes(bits, pos, out, last, 0) == After(bits, pos, out, last);
    NowAfter(blens, cl, last, bits, pos, out, b, goal);
  }

  lemma StoredNoBlock(blens: seq<nat>, cl: seq<nat>, last: bool, bits: seq<bool>, pos: nat, out: seq<byte>, goal: Goal, p: Spot)
    requires Agrees(STORED(0), blens, cl, last, bits, pos, out, Stopped(Fail([])), goal) && goal.head == HeadAt(bits, p.pos)
    ensures !BlockAt(bits, p.pos, p.out).EndOfBlock?
  {
    hide StoredBytes, HeadAt;
  }

  lemma {:induction false} NowAfter(blens: seq<nat>, cl: seq<nat>, last: bool, bits: seq<bool>, pos: nat, out: seq<byte>, b: Block, goal: Goal)
    requires pos <= |bits| && After(bits, pos, out, last) == goal.whole && Sound(goal.head, 0, |bits|)
    ensures Agrees(AfterBlock(last), blens, cl, last, bits, pos, out, b, goal)
  {
    hide Blocks;
    if last {
      assert After(bits, pos, out, last) == Done(out, pos);
    } else {
      assert After(bits, pos, out, last) == Blocks(bits, pos, out);
    }
  }

  lemma {:induction false} StoredSome(blens: seq<nat>, cl: seq<nat>, last: bool, input: seq<byte>, bits: seq<bool>, p: nat, pos: nat, pos': nat, out: seq<byte>, out': seq<byte>,
                   b: Block, goal: Goal, left: nat, n: nat)
    requires bits == Stream(input) && pos == 8 * p && n <= left && p + n <= |input| && pos' == 8 * (p + n) && out' == out + input[p..p + n]
    requires Agrees(STORED(left), blens, cl, last, bits, pos, out, b, goal)
    ensures Agrees(STORED(left - n), blens, cl, last, bits, pos', out', b, goal)
  {
    hide StoredBytes, Stream, Agrees;
    StoredRun(input, p, out, last, left, n);
    StoredMoved(blens, cl, last, bits, pos, out, pos', out', b, goal, left, left - n);
  }

  lemma {:induction false} StoredMoved(blens: seq<nat>, cl: seq<nat>, last: bool, bits: seq<bool>, pos: nat, out: seq<byte>, pos': nat, out': seq<byte>,
                    b: Block, goal: Goal, left: nat, left': nat)
    requires pos <= |bits| && pos' <= |bits| && Agrees(STORED(left), blens, cl, last, bits, pos, out, b, goal)
    requires StoredBytes(bits, pos, out, last, left) == StoredBytes(bits, pos', out', last, left')
    ensures Agrees(STORED(left'), blens, cl, last, bits, pos', out', b, goal)
  {
    hide StoredBytes;
  }

  lemma SixteenShifted()
    ensures Shl(16, 10) == Pow2(14)
  {
    assert Pow2(4) == 16;
    ShlShl(1, 4, 10);
  }

  lemma TableFits(t: nat)
    requires t < Pow2(14)
    ensures NumBitLengths(t) <= 19
  {
    hide Shr, Low, Shl;
    SixteenShifted();
    ShrMonotone(t, Pow2(14) - 1, 10);
    ShrLow(t, 10);
    ShlMonotone(16, Max(16, Shr(t, 10)), 10);
  }

  lemma ToBitLengths(blens: seq<nat>, cl: seq<nat>, last: bool, bits: seq<bool>, pos: nat, out: seq<byte>, b: Block, goal: Goal)
    requires Agrees(TABLE, blens, cl, last, bits, pos, out, b, goal) && pos + 14 <= |bits|
    ensures
      var t := Val(bits, pos, 14);
      if Low(t, 5) > 29 || Low(Shr(t, 5), 5) > 29 then Agrees(BAD, blens, cl, last, bits, pos, out, b, goal)
      else Agrees(BTREE(t, 0), Repeat(0, NumLengths(t)), Repeat(0, 19), last, bits, pos + 14, out, b, goal)
  {
    hide Dynamic, BitLengths, Val, Low, Shr, Pow2, Border;
    DynamicUnfold(bits, pos);
    LsbBound(bits[pos..pos + 14]);
    assert Val(bits, pos, 14) < Pow2(14) by { ValBound(bits, pos, 14); }
    TableFits(Val(bits, pos, 14));
    assert Repeat(0, 19) == seq(19, _ => 0);
    assert forall j :: 0 <= j < 19 ==> Border()[j] < 19;
  }

  lemma ValBound(bits: seq<bool>, pos: nat, n: nat)
    requires pos + n <= |bits|
    ensures Val(bits, pos, n) < Pow2(n)
  {
    LsbBound(bits[pos..pos + n]);
  }

  lemma NextBitLength(blens: seq<nat>, cl: seq<nat>, last: bool, bits: seq<bool>, pos: nat, out: seq<byte>, b: Block, goal: Goal, t: nat, i: nat)
    requires Agrees(BTREE(t, i), blens, cl, last, bits, pos, out, b, goal) && i < NumBitLengths(t) && pos + 3 <= |bits|
    ensures i < 19 && |blens| >= 19 && |cl| == 19
    ensures
      var x := Val(bits, pos, 3);
      Agrees(BTREE(t, i + 1), blens[Border()[i] := x], cl[Border()[i] := x], last, bits, pos + 3, out, b, goal)
  {
    hide Val, Filled, Border, NumLengths, NumBitLengths, BitLengthsRead;
    FilledShape(blens, cl, i);
    FillOne(blens, cl, i, ThreeBits(bits, pos));
    FilledShape(blens[Border()[i] := ThreeBits(bits, pos)], cl[Border()[i] := ThreeBits(bits, pos)], i + 1);
  }

  lemma FilledShape(blens: seq<nat>, cl: seq<nat>, i: nat)
    requires Filled(blens, cl, i)
    ensures |cl| == 19 <= |blens| && forall k :: 0 <= k < 19 ==> cl[k] < 8
  {
  }

  lemma NoBitLength(blens: seq<nat>, cl: seq<nat>, last: bool, bits: seq<bool>, pos: nat, out: seq<byte>, b: Block, goal: Goal, t: nat, i: nat)
    requires Agrees(BTREE(t, i), blens, cl, last, bits, pos, out, b, goal) && NumBitLengths(t) <= i < 19
    ensures |blens| >= 19 && Agrees(BTREE(t, i + 1), blens[Border()[i] := 0], cl, last, bits, pos, out, b, goal)
  {
    hide Filled, Border, NumLengths, NumBitLengths, BitLengthsRead;
    FilledShape(blens, cl, i);
    ZeroOne(blens, cl, i);
  }

  lemma BitLengthsDone(blens: seq<nat>, cl: seq<nat>, last: bool, bits: seq<bool>, pos: nat, out: seq<byte>, b: Block, goal: Goal, t: nat)
    requires Agrees(BTREE(t, 19), blens, cl, last, bits, pos, out, b, goal)
    ensures |blens| == NumLengths(t) && |cl| == 19 && (forall k :: 0 <= k < 19 ==> cl[k] < 8) && blens[..19] == cl
    ensures !Accepted(cl) ==> Agrees(BAD, blens, cl, last, bits, pos, out, b, goal)
    ensures forall bb, tab, tb :: BitTable(tab, tb, bb, cl) ==> Agrees(DTREE(t, 0, bb, tab, tb), blens, cl, last, bits, pos, out, b, goal)
  {
    hide Filled, NumLengths, NumBitLengths, Accepted, CodeLengths, TablesFor, Longest;
    FilledShape(blens, cl, 19);
    AllFilled(blens, cl);
    assert BitLengths(bits, pos, t, 19, cl) == BitLengthsRead(bits, pos, t, cl);
    assert blens[..0] == [];
  }

  // What is known while code lengths are read.
  lemma {:induction false} InLengths(blens: seq<nat>, cl: seq<nat>, last: bool, bits: seq<bool>, pos: nat, out: seq<byte>, b: Block, goal: Goal,
                  t: nat, i: nat, bb: nat, tab: seq<Entry>, tb: nat)
    requires Agrees(DTREE(t, i, bb, tab, tb), blens, cl, last, bits, pos, out, b, goal)
    ensures BitTable(tab, tb, bb, cl) && TableOk(t) && i <= |blens| == NumLengths(t) && Lengths(blens[..i])
    ensures |cl| == 19 && Accepted(cl) && bb <= 7
    ensures pos <= |bits| && CodeLengths(bits, pos, t, cl, blens[..i]) == goal.head && Under(goal.head, bits, out, last) == goal.whole
  {
    hide CodeLengths, NumLengths, TableOk, Accepted, TablesFor, Longest;
  }

  lemma {:induction false} NowInLengths(blens: seq<nat>, cl: seq<nat>, last: bool, bits: seq<bool>, pos: nat, out: seq<byte>, b: Block, goal: Goal,
                     t: nat, i: nat, bb: nat, tab: seq<Entry>, tb: nat)
    requires BitTable(tab, tb, bb, cl) && TableOk(t) && i <= |blens| == NumLengths(t) && Lengths(blens[..i])
    requires |cl| == 19 && Accepted(cl)
    requires pos <= |bits| && CodeLengths(bits, pos, t, cl, blens[..i]) == goal.head
    requires Sound(goal.head, 0, |bits|) && Under(goal.head, bits, out, last) == goal.whole
    ensures Agrees(DTREE(t, i, bb, tab, tb), blens, cl, last, bits, pos, out, b, goal)
  {
    hide CodeLengths, NumLengths, TableOk, BitTable, Accepted;
  }

  // A symbol that is a length.
  lemma OneLength(blens: seq<nat>, cl: seq<nat>, last: bool, bits: seq<bool>, pos: nat, out: seq<byte>, b: Block, goal: Goal,
                  t: nat, i: nat, bb: nat, tab: seq<Entry>, tb: nat, c: nat, n: nat)
    requires Agrees(DTREE(t, i, bb, tab, tb), blens, cl, last, bits, pos, out, b, goal) && i < NumLengths(t) && c < 16
    requires |cl| == 19 && Accepted(cl) && pos <= |bits| && BitLengthSymbol(cl, bits[pos..]) == Symbol(c, n)
    ensures |blens| == NumLengths(t)
    ensures Agrees(DTREE(t, i + 1, bb, tab, tb), blens[i := c], cl, last, bits, pos + n, out, b, goal)
  {
    hide CodeLengths, BitTable, NumLengths, TableOk, BitLengthSymbol, Decode, Accepted, Agrees;
    InLengths(blens, cl, last, bits, pos, out, b, goal, t, i, bb, tab, tb);
    LengthUnfold'(bits, pos, t, cl, blens[..i], c, n);
    assert blens[i := c][..i + 1] == blens[..i] + [c];
    NowInLengths(blens[i := c], cl, last, bits, pos + n, out, b, goal, t, i + 1, bb, tab, tb);
  }

  // A symbol that repeats a length, with its extra bits.
  lemma OneRepeat(blens: seq<nat>, cl: seq<nat>, last: bool, bits: seq<bool>, pos: nat, out: seq<byte>, b: Block, goal: Goal,
                  t: nat, i: nat, bb: nat, tab: seq<Entry>, tb: nat, c: nat, n: nat, times: nat)
    requires Agrees(DTREE(t, i, bb, tab, tb), blens, cl, last, bits, pos, out, b, goal) && i < NumLengths(t) && 16 <= c < 19
    requires |cl| == 19 && Accepted(cl) && pos <= |bits| && BitLengthSymbol(cl, bits[pos..]) == Symbol(c, n)
    requires pos + n + RepeatBits(c) <= |bits| && times == RepeatBase(c) + Val(bits, pos + n, RepeatBits(c))
    ensures |blens| == NumLengths(t)
    ensures
      var p := pos + n + RepeatBits(c);
      if i + times > NumLengths(t) || (c == 16 && i < 1) then Agrees(BAD, blens, cl, last, bits, p, out, b, goal)
      else Agrees(DTREE(t, i + times, bb, tab, tb), Spread(blens, i, times, if c == 16 then blens[i - 1] else 0), cl, last, bits, p, out, b, goal)
  {
    hide Val, CodeLengths, BitTable, NumLengths, TableOk, BitLengthSymbol, RepeatBits, RepeatBase, Decode, Accepted,
         Agrees;
    InLengths(blens, cl, last, bits, pos, out, b, goal, t, i, bb, tab, tb);
    RepeatUnfold(bits, pos, t, cl, blens[..i], c, n);
    var p := pos + n + RepeatBits(c);
    if i + times > NumLengths(t) || (c == 16 && i < 1) {
      NowBad(blens, cl, last, bits, p, out, b, goal);
    } else {
      var x := if c == 16 then blens[i - 1] else 0;
      assert Spread(blens, i, times, x)[..i + times] == blens[..i] + Repeat(x, times);
      NowInLengths(Spread(blens, i, times, x), cl, last, bits, p, out, b, goal, t, i + times, bb, tab, tb);
    }
  }

  lemma NowBad(blens: seq<nat>, cl: seq<nat>, last: bool, bits: seq<bool>, pos: nat, out: seq<byte>, b: Block, goal: Goal)
    requires pos <= |bits| && goal.whole == Fail(out) && Sound(goal.head, 0, |bits|)
    ensures Agrees(BAD, blens, cl, last, bits, pos, out, b, goal)
  {
  }

  lemma BadHere(blens: seq<nat>, cl: seq<nat>, last: bool, bits: seq<bool>, pos: nat, out: seq<byte>, b: Block, goal: Goal)
    requires Agrees(BAD, blens, cl, last, bits, pos, out, b, goal)
    ensures goal.whole == Fail(out)
  {
  }

  // The bits a repeat code takes together with its extra bits.
  function WithExtra(tab: seq<Entry>, at: nat): nat {
    if at < |tab| && tab[at].base >= 16 then tab[at].bits + RepeatBits(tab[at].base) else 0
  }

  // n entries from i on set to x.
  function Spread(blens: seq<nat>, i: nat, n: nat, x: nat): (r: seq<nat>)
    requires i + n <= |blens|
    ensures |r| == |blens|
  {
    blens[..i] + Repeat(x, n) + blens[i + n..]
  }

  lemma {:induction false} LengthsDone(blens: seq<nat>, cl: seq<nat>, last: bool, bits: seq<bool>, pos: nat, out: seq<byte>, b: Block, goal: Goal,
                    t: nat, bb: nat, tab: seq<Entry>, tb: nat)
    requires Agrees(DTREE(t, NumLengths(t), bb, tab, tb), blens, cl, last, bits, pos, out, b, goal)
    ensures |blens| == NumLengths(t) && NumLit(t) <= NumLengths(t)
    ensures
      var lit, dist := blens[..NumLit(t)], blens[NumLit(t)..];
      && Lengths(lit) && Lengths(dist) && 257 <= |lit| <= 286 && 1 <= |dist| <= 30 && pos <= |bits|
      && if AcceptedBoth(lit, dist) then
           goal.head == Lens(lit, dist, pos) && Agrees(CODES, blens, cl, last, bits, pos, out, Codes(lit, dist, bits, pos, out), goal)
         else Agrees(BAD, blens, cl, last, bits, pos, out, b, goal)
  {
    hide CodeLengths, Accepted, Agrees, BitTable, Codes;
    InLengths(blens, cl, last, bits, pos, out, b, goal, t, NumLengths(t), bb, tab, tb);
    NumbersInRange(t);
    assert blens[..NumLengths(t)] == blens;
    var lit, dist := blens[..NumLit(t)], blens[NumLit(t)..];
    assert CodeLengths(bits, pos, t, cl, blens) == CodeLengthsRead(pos, t, blens) by {
      ReadAll(bits, pos, t, cl, blens);
    }
    if AcceptedBoth(lit, dist) {
      NowCodes(blens, cl, last, bits, pos, out, lit, dist, goal);
    } else {
      NowBad(blens, cl, last, bits, pos, out, b, goal);
    }
  }

  lemma NumbersInRange(t: nat)
    requires TableOk(t)
    ensures 257 <= NumLit(t) <= 286 && NumLit(t) + 1 <= NumLengths(t) <= NumLit(t) + 30
  {
    hide Low, Shr;
  }

  lemma {:induction false} ReadAll(bits: seq<bool>, pos: nat, t: nat, cl: seq<nat>, acc: seq<nat>)
    requires pos <= |bits| && |cl| == 19 && Accepted(cl) && Lengths(acc) && |acc| == NumLengths(t)
    ensures CodeLengths(bits, pos, t, cl, acc) == CodeLengthsRead(pos, t, acc)
  {
    hide CodeLengthsRead, NumLengths, Accepted;
  }

  lemma {:induction false} NowCodes(blens: seq<nat>, cl: seq<nat>, last: bool, bits: seq<bool>, pos: nat, out: seq<byte>, lit: seq<nat>, dist: seq<nat>, goal: Goal)
    requires Lengths(lit) && Lengths(dist) && pos <= |bits| && Compressed(lit, dist, bits, pos, out, last) == goal.whole && Sound(goal.head, 0, |bits|)
    ensures Agrees(CODES, blens, cl, last, bits, pos, out, Codes(lit, dist, bits, pos, out), goal)
  {
    hide Codes;
  }

  // The codes state has its own position: where the block layer is does not matter.
  lemma CodesAnywhere(blens: seq<nat>, cl: seq<nat>, last: bool, bits: seq<bool>, pos: nat, out: seq<byte>, b: Block, goal: Goal, pos': nat, out': seq<byte>)
    requires Agrees(CODES, blens, cl, last, bits, pos, out, b, goal) && pos' <= |bits|
    ensures Agrees(CODES, blens, cl, last, bits, pos', out', b, goal)
    ensures b == EndOfBlock(pos', out') ==> Agrees(AfterBlock(last), blens, cl, last, bits, pos', out', Stopped(Fail([])), goal)
    ensures b == Stopped(Fail(out')) ==> goal.whole == Fail(out')
  {
    hide After;
    if b == EndOfBlock(pos', out') {
      NowAfter(blens, cl, last, bits, pos', out', Stopped(Fail([])), goal);
    }
  }

  // At the end of its block it does not matter either what the stream has been before, or what it goes on with after the last
  // block.
  lemma {:induction false} CodesTurned(blens: seq<nat>, cl: seq<nat>, last: bool, bits: seq<bool>, bits': seq<bool>, pos: nat, out: seq<byte>, goal: Goal)
    requires pos <= |bits| == |bits'|
    requires last ==> Agrees(CODES, blens, cl, last, bits, pos, out, EndOfBlock(pos, out), goal)
    requires !last ==> goal.whole == Blocks(bits', pos, out) && Sound(goal.head, 0, |bits|)
    ensures Agrees(CODES, blens, cl, last, bits', pos, out, EndOfBlock(pos, out), goal)
    ensures Agrees(AfterBlock(last), blens, cl, last, bits', pos, out, Stopped(Fail([])), goal)
  {
    hide Blocks;
    if last {
      assert After(bits, pos, out, last) == goal.whole;
      assert After(bits', pos, out, last) == goal.whole;
    } else {
      assert After(bits', pos, out, last) == goal.whole;
    }
    NowAfter(blens, cl, last, bits', pos, out, Stopped(Fail([])), goal);
  }

  // So after some work on the symbols of the block: if the stream has turned, the block is at its end, and what follows it is
  // decoded from the stream as it now is.
  lemma {:induction false} CodesReturned(blens: seq<nat>, cl: seq<nat>, last: bool, bits: seq<bool>, bits': seq<bool>, turned: bool, pos: nat, out: seq<byte>, b: Block,
                      goal: Goal, goal': Goal, pos': nat, out': seq<byte>)
    requires Agrees(CODES, blens, cl, last, bits, pos, out, b, goal) && pos' <= |bits'| == |bits|
    requires if turned then b == EndOfBlock(pos', out') else bits' == bits
    requires goal'.whole == if turned && !last then Blocks(bits', pos', out') else goal.whole
    requires Sound(goal'.head, 0, |bits|)
    ensures Agrees(CODES, blens, cl, last, bits', pos', out', b, goal')
    ensures b == EndOfBlock(pos', out') ==> Agrees(AfterBlock(last), blens, cl, last, bits', pos', out', Stopped(Fail([])), goal')
    ensures b == Stopped(Fail(out')) ==> goal'.whole == Fail(out')
  {
    hide Blocks, Agrees, HeadKnown;
    if !turned || last {
      HeadRead(CODES, blens, cl, last, bits, pos, out, b, goal, goal');
      CodesAnywhere(blens, cl, last, bits, pos, out, b, goal', pos', out');
    }
    if turned {
      CodesTurned(blens, cl, last, bits, bits', pos', out', goal');
    }
  }

  // Outside of a head it does not matter which head is meant.
  lemma HeadRead(m: BlockMode, blens: seq<nat>, cl: seq<nat>, last: bool, bits: seq<bool>, pos: nat, out: seq<byte>, b: Block, goal: Goal, goal': Goal)
    requires Agrees(m, blens, cl, last, bits, pos, out, b, goal) && (m.CODES? || m.TYPE? || m.DRY?)
    requires goal'.whole == goal.whole && Sound(goal'.head, 0, |bits|)
    ensures Agrees(m, blens, cl, last, bits, pos, out, b, goal')
  {
  }

  lemma TurnedTo(input: seq<byte>, pos: nat, out: seq<byte>)
    requires pos <= 8 * |input|
    ensures OutcomeFrom(Origin(input, pos, out)) == Blocks(Stream(input), pos, out)
  {
    hide Blocks, Stream;
  }

  // ----- what it means to run out of input

  // With k bits left in the stream, the mode m cannot go on.
  ghost predicate Lacks(m: BlockMode, bits: seq<bool>, pos: nat, b: Block, k: nat) {
    match m
    case TYPE => k < 3
    case LENS => k < 32
    case STORED(left) => left > 0 && k < 8
    case TABLE => k < 14
    case BTREE(t, i) => k < 3 && i < NumBitLengths(t)
    case DTREE(t, i, bb, tab, tb) =>
      i < NumLengths(t) && (k < bb || (pos + bb <= |bits| && k < WithExtra(tab, tb + Val(bits, pos, bb))))
    case CODES => if b.EndOfBlock? then b.pos + 8 > |bits| else !b.o.Done?
    case _ => false
  }

  // Then the stream does not end, or it ends in its last byte.
  lemma EndsLate(m: BlockMode, blens: seq<nat>, cl: seq<nat>, last: bool, bits: seq<bool>, pos: nat, out: seq<byte>, b: Block, goal: Goal)
    requires Agrees(m, blens, cl, last, bits, pos, out, b, goal) && Lacks(m, bits, pos, b, |bits| - pos)
    ensures goal.whole.Done? ==> goal.whole.pos + 8 > |bits| && (if m.CODES? then b.EndOfBlock? else |bits| - pos < 8)
  {
    hide Val, CodeLengths, BitTable, Filled, NumLengths, NumBitLengths, Lengths, CodeLengthsRead, Low, Shr, Compressed,
         BitLengthsRead;
    if m.DTREE? {
      InLengths(blens, cl, last, bits, pos, out, b, goal, m.table, m.index, m.bb, m.tab, m.tb);
      if pos + m.bb <= |bits| {
        RepeatEndsLate(blens[..m.index], cl, bits, pos, m.table, m.bb, m.tab, m.tb);
      }
    }
  }

  lemma {:induction false} RepeatEndsLate(acc: seq<nat>, cl: seq<nat>, bits: seq<bool>, pos: nat, t: nat, bb: nat, tab: seq<Entry>, tb: nat)
    requires BitTable(tab, tb, bb, cl) && |cl| == 19 && Accepted(cl) && Lengths(acc) && |acc| < NumLengths(t)
    requires pos + bb <= |bits| && |bits| - pos < WithExtra(tab, tb + Val(bits, pos, bb))
    ensures CodeLengths(bits, pos, t, cl, acc) == Cut
  {
    hide Val, BitTable, NumLengths, Lengths, BitLengthSymbol, RepeatBits, Accepted, CodeLengthsRead, RepeatBase;
    BitSymbolAt(tab, tb, bb, cl, bits, pos);
  }

  // With k bits left before the end of a byte, a head that is being read ends behind that byte.
  lemma HeadUnended(m: BlockMode, blens: seq<nat>, cl: seq<nat>, last: bool, bits: seq<bool>, pos: nat, out: seq<byte>, b: Block, goal: Goal, k: nat)
    requires Agrees(m, blens, cl, last, bits, pos, out, b, goal) && Lacks(m, bits, pos, b, k) && (m.TABLE? || m.BTREE? || m.DTREE?)
    ensures goal.head.Lens? ==> goal.head.pos + 8 > pos + k
  {
    hide Val, CodeLengths, BitTable, Filled, NumLengths, NumBitLengths, Lengths, CodeLengthsRead, Low, Shr, Compressed,
         BitLengthsRead, Under;
    if m.DTREE? {
      InLengths(blens, cl, last, bits, pos, out, b, goal, m.table, m.index, m.bb, m.tab, m.tb);
      if k >= m.bb {
        RepeatUnended(blens[..m.index], cl, bits, pos, m.table, m.bb, m.tab, m.tb);
      }
    }
  }

  lemma {:induction false} RepeatUnended(acc: seq<nat>, cl: seq<nat>, bits: seq<bool>, pos: nat, t: nat, bb: nat, tab: seq<Entry>, tb: nat)
    requires BitTable(tab, tb, bb, cl) && |cl| == 19 && Accepted(cl) && Lengths(acc) && |acc| < NumLengths(t) && pos + bb <= |bits|
    ensures
      var h := CodeLengths(bits, pos, t, cl, acc);
      h.Lens? ==> h.pos >= pos + WithExtra(tab, tb + Val(bits, pos, bb))
  {
    hide Val, BitTable, NumLengths, Lengths, BitLengthSymbol, RepeatBits, Accepted, CodeLengthsRead, RepeatBase;
    BitSymbolAt(tab, tb, bb, cl, bits, pos);
  }

  // The beginning of a block: a position in the stream, and the output so far.
  datatype Spot = Spot(pos: nat, out: seq<byte>)

  // The block at p is the first one after the origin, or the output out has come at least to the end of that first block.
  ghost predicate Beyond(o: Origin, p: Spot, out: seq<byte>) {
    || p == Spot(o.pos, o.out)
    || var b := BlockAt(Stream(o.input), o.pos, o.out); b.EndOfBlock? ==> b.out <= out
  }

  // The block at p comes after n others on the way from o.
  ghost predicate OnWay(o: Origin, n: nat, p: Spot) {
    Passing(Stream(o.input), o.pos, o.out, n) == EndOfBlock(p.pos, p.out)
  }

  // And it is that block which is being decoded.
  ghost predicate AtHand(o: Origin, n: nat, p: Spot, last: bool) {
    OnWay(o, n, p) && p.pos < |Stream(o.input)| && last == Stream(o.input)[p.pos]
  }

  // The block b is what the compressed block at p yields, from the symbols on, which begin before pos; or p is behind its end.
  ghost predicate Located(within: bool, o: Origin, n: nat, p: Spot, last: bool, input: seq<byte>, lit: seq<nat>, dist: seq<nat>, b: Block, pos: nat) {
    if within then
      var h := HeadAt(Stream(input), p.pos);
      && o.input == input && AtHand(o, n, p, last)
      && h.Lens? && h.lit == lit && h.dist == dist && h.pos <= pos && b == BlockAt(Stream(input), p.pos, p.out)
    else
      b == EndOfBlock(p.pos, p.out) && p.pos > 0 && (last || (o.input == input && OnWay(o, n, p)))
  }

  // The origin is reached by turns that the data allow.
  ghost predicate Led(data: seq<byte>, turns: seq<Turn>, o: Origin) {
    Possible(Origin(data, 0, []), turns) && o == AfterTurns(Origin(data, 0, []), turns)
  }

  lemma CompressedWhole(bits: seq<bool>, pos: nat, out: seq<byte>)
    ensures BlockAt(bits, pos, out).EndOfBlock? ==> WholeBlock(bits, pos, out) == BlockAt(bits, pos, out)
  {
    hide Dynamic, Codes, StoredBlock, Val, FixedLit, FixedDist;
  }

  lemma WayOn(o: Origin, n: nat, p: Spot, q: Spot)
    requires AtHand(o, n, p, false) && WholeBlock(Stream(o.input), p.pos, p.out) == EndOfBlock(q.pos, q.out)
    ensures OnWay(o, n + 1, q)
  {
    hide WholeBlock, Stream;
  }

  lemma NowAtHand(o: Origin, n: nat, p: Spot, last: bool)
    requires OnWay(o, n, p) && p.pos < |Stream(o.input)| && last == Stream(o.input)[p.pos]
    ensures AtHand(o, n, p, last)
  {
    hide OnWay, Stream;
  }

  lemma LedNowhere(data: seq<byte>)
    ensures Led(data, [], Origin(data, 0, []))
  {
  }

  lemma WayStarts(o: Origin)
    ensures OnWay(o, 0, Spot(o.pos, o.out))
  {
    hide WholeBlock, Stream;
  }

  // The block at hand ends just in front of an area, where a byte is read again.
  lemma TurnTaken(data: seq<byte>, turns: seq<Turn>, o: Origin, n: nat, p: Spot, area: nat, front: byte, input: seq<byte>, q: Spot)
    requires Led(data, turns, o) && AtHand(o, n, p, false) && BlockAt(Stream(o.input), p.pos, p.out) == EndOfBlock(q.pos, q.out)
    requires 0 < area <= |o.input| && q.pos + 8 <= 8 * area <= q.pos + 15
    requires input == o.input[area - 1 := OrByte(o.input[area - 1], front)]
    ensures Led(data, turns + [Turn(n, area, front)], Origin(input, q.pos, q.out))
  {
    hide BlockAt, Stream, OrByte, Passing, AfterTurns, Possible;
    OneTurnMore(Origin(data, 0, []), turns, Turn(n, area, front));
  }

  lemma BeyondLater(o: Origin, p: Spot, out: seq<byte>, p': Spot, out': seq<byte>)
    requires Beyond(o, p, out) && out <= out'
    requires var b := BlockAt(Stream(o.input), p.pos, p.out); b.EndOfBlock? ==> b.out <= out'
    ensures Beyond(o, p', out')
  {
    hide BlockAt, Stream;
  }

  lemma DryIsLast(blens: seq<nat>, cl: seq<nat>, last: bool, bits: seq<bool>, pos: nat, out: seq<byte>, b: Block, goal: Goal)
    requires Agrees(DRY, blens, cl, last, bits, pos, out, b, goal)
    ensures last
  {
  }

  lemma BehindHead(bits: seq<bool>, pos: nat)
    ensures HeadAt(bits, pos).Lens? ==> pos + 3 <= HeadAt(bits, pos).pos
  {
    hide Dynamic, FixedLit, FixedDist, Val;
  }

  lemma FirstHere(o: Origin, p: Spot, out: seq<byte>)
    requires p == Spot(o.pos, o.out)
    ensures Beyond(o, p, out)
  {
    hide BlockAt, Stream;
  }

  lemma BeyondGrows(o: Origin, p: Spot, out: seq<byte>, out': seq<byte>)
    requires Beyond(o, p, out) && out <= out'
    ensures Beyond(o, p, out')
  {
    hide BlockAt, Stream;
  }

  class Inflater {
    const br: BitReader
    const win: Window
    const codes: CodesState
    const hufts: array<Entry>

    var mode: BlockMode
    var last: bool
    var blens: seq<nat>

    // The bit lengths as the specification has them.
    ghost var cl: seq<nat>

    // From where on the output is what the recursive decoder yields: the beginning of the data, unless a byte in front of an
    // area of input has been given back before a further block.
    ghost var origin: Origin

    // The turns that have led there.
    ghost var turns: seq<Turn>

    // Where the block at hand begins, and how many others come before it.
    ghost var place: Spot
    ghost var passed: nat

    constructor (data: seq<byte>)
      ensures Valid() && br.data == data && origin == FromStart() && Secure() && Lacking()
      ensures mode.TYPE? && br.Given() == 0 && win.room == 0 && win.delivered == [] && turns == []
      ensures win.buf.Length == 32768 && hufts.Length == 1440
      ensures fresh(br) && fresh(win) && fresh(win.buf) && fresh(codes) && fresh(hufts)
    {
      hide AtHand, OnWay, Led, TablesOk, Ready, BitReader.Valid;
      var bits := new BitReader(data);
      var window := new Window(WINDOW_SIZE);
      br, win := bits, window;
      codes := new CodesState(bits, window);
      hufts := new Entry[MANY](_ => Entry(0, 0, 0));
      mode, last, blens, cl := TYPE, false, [], [];
      origin, place, turns, passed := Origin(data, 0, []), Spot(0, []), [], 0;
      new;
      hide AtHand, OnWay, Led, HeadAt, BlockAt, Blocks, Remembers, BitReader.Source, BitReader.Buffer;
      FirstHere(origin, place, []);
      WayStarts(origin);
      LedNowhere(data);
      TurnedTo(data, 0, []);
    }

    ghost function Bits(): seq<bool>
      reads br`input
    {
      Stream(br.input)
    }

    ghost function FromStart(): Origin {
      Origin(br.data, 0, [])
    }

    // What the output amounts to in the end.
    ghost function Whole(): Outcome
      reads this`origin
    {
      OutcomeFrom(origin)
    }

    ghost function Aim(): Goal
      reads this`origin, this`place, br`input
    {
      Goal(HeadAt(Bits(), place.pos), Whole())
    }

    ghost function Here(): Spot
      requires br.bitk <= 8 * br.next
      reads br, win`produced
    {
      Spot(br.Pos(), win.produced)
    }

    ghost predicate Objects()
      reads br, win, win.buf
    {
      && br.Valid() && win.Valid() && win.buf.Length == WINDOW_SIZE
      && codes.br == br && codes.win == win && hufts.Length == MANY
    }

    ghost function BlockAhead(): Block
      requires mode.CODES? ==> codes.Valid()
      reads this, codes, codes.br, codes.win, codes.win.buf
    {
      if mode.CODES? then codes.Outcome() else Stopped(Fail([]))
    }

    // Between steps the buffer holds less than two bytes, but for the head of a stored block.
    ghost predicate Valid()
      reads this, br, win, win.buf, codes
    {
      Filled() && (br.bitk < 16 || mode.LENS? || mode.BAD?)
    }

    // Decoding goes on from here as it does from the origin.
    ghost predicate Filled()
      reads this, br, win, win.buf, codes
    {
      && Objects()
      && (mode.CODES? ==> codes.Valid())
      && (mode.STORED? ==> br.held == 0 && mode.left > 0)
      && (mode.DONE? ==> win.delivered == win.produced)
      && Agrees(mode, blens, cl, last, Bits(), br.Pos(), win.produced, BlockAhead(), Aim())
      && Beyond(origin, place, win.produced) && Traced() && Led(br.data, turns, origin)
    }

    // The block at hand is the one at its place: its output began there, and its codes are those of the head found there.
    ghost predicate Traced()
      requires Objects() && (mode.CODES? ==> codes.Valid())
      reads this, br, win, win.buf, codes
    {
      match mode
      case TYPE => place == Here() && origin.input == br.input && OnWay(origin, passed, place)
      case LENS =>
        && place.out == win.produced && origin.input == br.input && AtHand(origin, passed, place, last)
        && WholeBlock(Bits(), place.pos, place.out) == StoredBlock(Bits(), br.Pos(), win.produced)
      case STORED(left) =>
        && origin.input == br.input && AtHand(origin, passed, place, last)
        && WholeBlock(Bits(), place.pos, place.out) == StoredRest(Bits(), br.Pos(), win.produced, left)
      case CODES => (Within() && AtHand(origin, passed, place, last)) || Ended()
      case DRY => true
      case DONE => true
      case BAD => true
      case _ => place.out == win.produced && origin.input == br.input && AtHand(origin, passed, place, last)
    }

    // The compressed block has come to its end, and the bytes not used have been given back.
    ghost predicate Ended()
      requires Objects() && codes.Valid()
      reads this, br, win, win.buf, codes
    {
      && (codes.mode.WASH? || codes.mode.END?) && br.bitk < 8
      && place == Here() && place.pos > 0 && codes.Outcome() == EndOfBlock(place.pos, place.out)
      && (last || (origin.input == br.input && OnWay(origin, passed, place)))
    }

    // The codes of the block at hand are in use, and have been followed from its first symbol on.
    ghost predicate Within()
      requires Objects() && codes.Valid()
      reads this, br, win, win.buf, codes
    {
      var h := HeadAt(Bits(), place.pos);
      && origin.input == br.input
      && h.Lens? && h.lit == codes.litLens && h.dist == codes.distLens && h.pos <= br.Pos()
      && codes.Outcome() == BlockAt(Bits(), place.pos, place.out)
    }

    twostate predicate Kept()
      requires old(br.Valid()) && br.Valid()
      reads this, br, win, codes, codes.br, codes.win, codes.win.buf
    {
      && old(win.produced) <= win.produced && old(win.delivered) <= win.delivered && br.Left() <= old(br.Left())
      && win.room + |win.delivered| == old(win.room) + |old(win.delivered)|
      && br.Given() == old(br.Given())
      && (old(Secure()) ==> Secure() && origin == old(origin) && turns == old(turns) && br.input == old(br.input))
      && (old(br.strayed) ==> br.strayed && origin == old(origin) && turns == old(turns) && br.input == old(br.input))
      && (old(Final()) ==> Final() && origin == old(origin) && turns == old(turns))
      && LedOn()
    }

    // The origin moves only by a turn in front of the present area, and there is at most one.
    twostate predicate LedOn()
      reads this, br
    {
      if turns == old(turns) then origin == old(origin)
      else
        && br.strayed && !old(br.strayed) && |turns| == |old(turns)| + 1 && old(turns) <= turns
        && turns[|old(turns)|].area == br.area && turns[|old(turns)|].front == br.front
    }

    // The last block is at hand, or over.
    predicate Final()
      reads this
    {
      last && !mode.TYPE?
    }

    // What the value returned says about the mode. Table space runs out only on lengths that would not be accepted.
    ghost predicate Returns(leave: bool, r: Status)
      reads this, codes, win`produced
    {
      if !leave then Plain(r) && !mode.BAD?
      else if mode.BAD? then r.DataError?
      else if mode.DONE? then r.StreamEnd?
      else Plain(r) || (r.MemError? && mode.DTREE? && Whole() == Fail(win.produced))
    }

    // The buffer holds fewer bits than the mode asks for.
    ghost predicate Lacking()
      reads this, br, codes
    {
      match mode
      case TYPE => br.bitk < 3
      case LENS => br.bitk < 32
      case STORED(left) => left > 0
      case TABLE => br.bitk < 14
      case BTREE(t, i) => br.bitk < 3 && i < NumBitLengths(t)
      case DTREE(t, i, bb, tab, tb) => i < NumLengths(t) && (br.bitk < bb || br.bitk < WithExtra(tab, tb + Low(br.bitb, bb)))
      case CODES => codes.br == br && codes.Lacking()
      case _ => false
    }

    // And there is no more input.
    ghost predicate Starving()
      reads this, br, codes
    {
      br.avail == 0 && Lacking()
    }

    // There is no space for output: the window is full, or the block or the whole stream has come to its end.
    ghost predicate Blocked()
      reads this, win, codes, codes.win
    {
      && win.room == 0
      && match mode
         case STORED(_) => |win.produced| >= |win.delivered| + WINDOW_SIZE - 1
         case CODES => codes.Blocked()
         case DRY => true
         case _ => false
    }

    // No byte in front of the present area of input has been or will be given back.
    ghost predicate Secure()
      requires br.bitk <= 8 * br.next
      reads this, br, codes, codes.br, codes.win, codes.win.buf
    {
      !br.strayed && (if mode.CODES? && codes.Valid() then !codes.Behind() else br.Anchored() || Lacking())
    }

    // Nothing to do until there is more input: everything decoded has been delivered.
    ghost predicate Dry()
      reads this, br, win, codes
    {
      Starving() && win.read == win.write
    }

    // Progress of a step that does not leave.
    twostate predicate Onward()
      reads this, br
    {
      br.Left() < old(br.Left()) || (br.Left() == old(br.Left()) && Height(mode) < old(Height(mode)))
    }

    // ----- the steps

    // Have at least j bits in the buffer; nothing else changes.
    method Need(j: nat, r0: Status) returns (ok: bool, r: Status)
      requires Valid() && Plain(r0) && (j <= 16 || (j <= 32 && mode.LENS? && br.bitk % 8 == 0))
      requires !mode.CODES? && !mode.STORED? && !mode.DONE?
      modifies br`next, br`avail, br`bitb, br`bitk, br`held
      ensures Filled() && (!ok || j <= 8 || mode.LENS? ==> Valid())
      ensures br.Pos() == old(br.Pos()) && br.Left() == old(br.Left()) && Plain(r)
      ensures r.BufError? ==> r0.BufError? && old(br.avail) <= br.avail && win.room == old(win.room)
      ensures old(br.next) <= br.next && (ok && old(br.bitk) < j ==> old(br.next) < br.next)
      ensures old(br.bitk) >= j ==> br.bitb == old(br.bitb) && br.bitk == old(br.bitk)
      ensures if ok then br.bitk >= j else br.avail == 0 && br.bitk < j
      ensures old(br.avail == 0 && br.bitk < j) ==> !ok && r == r0
      ensures old(br.avail == 0) ==> br.bitb == old(br.bitb) && br.bitk == old(br.bitk) && (ok ==> r == r0)
      ensures (br.bitk - old(br.bitk)) % 8 == 0 && (br.bitk == old(br.bitk) || br.bitk < j + 8)
      ensures ok ==> br.Pos() + j <= |Bits()| && Low(br.bitb, j) == Val(Bits(), br.Pos(), j)
    {
      hide AtHand, OnWay, Led, Stream, BitReader.Source, BitReader.Buffer, Agrees, Val, Low, Remembers, Whole;
      var taken;
      ok, taken := br.NeedBits(j);
      r := AfterInput(r0, taken);
      if ok {
        br.Peek(j);
      }
    }

    // The first three bits of a block.
    method StepType(r0: Status) returns (leave: bool, r: Status)
      requires Valid() && mode.TYPE? && Plain(r0)
      modifies `mode, `last, `blens, `cl, br`next, br`avail, br`bitb, br`bitk, br`held, codes
      ensures Valid() && Kept() && Returns(leave, r)
      ensures !leave ==> br.Left() < old(br.Left())
      ensures leave ==> Starving() || mode.BAD?
      ensures old(Dry()) ==> leave && r == r0 && win.read == win.write
      ensures r.BufError? ==> r0.BufError? && old(br.avail) <= br.avail && win.room == old(win.room)
    {
      hide AtHand, OnWay, Led, CodesState.Valid, Window.Valid, Traced, Beyond, HeadAt, Stream, BitReader.Source,
           BitReader.Buffer, Agrees, Whole, TablesOk, Remembers, Codes;
      var ok;
      ok, r := Need(3, r0);
      leave := !ok;
      if ok {
        leave, r := BlockHeader(r);
      }
    }

    // The bits of whole bytes in the buffer end where the input stands.
    lemma Boundary(next: nat, k: nat)
      requires k <= 8 * next
      ensures 8 * next - k + k % 8 == NextByte(8 * next - k)
    {
      var q, r := k / 8, k % 8;
      assert 8 * next - k == 8 * (next - q) - r;
      if r == 0 {
        assert (8 * next - k) % 8 == 0;
      } else {
        assert 8 * next - k == 8 * (next - q - 1) + (8 - r);
        assert (8 * next - k) % 8 == 8 - r;
      }
    }

    // Drop the rest of the byte.
    method ToByteBoundary()
      requires br.Valid()
      modifies br`bitb, br`bitk, br`held
      ensures br.Valid() && br.Pos() == NextByte(old(br.Pos())) && br.Left() <= old(br.Left()) && br.Given() == old(br.Given())
      ensures br.Pos() <= |Bits()|
    {
      hide AtHand, OnWay, Led, Stream, BitReader.Source, BitReader.Buffer, Lsb, NextByte;
      Boundary(br.next, br.bitk);
      br.Dump(br.bitk % 8);
    }

    method BlockHeader(r0: Status) returns (leave: bool, r: Status)
      requires Valid() && mode.TYPE? && Plain(r0) && br.bitk >= 3
      modifies `mode, `last, `blens, `cl, br`bitb, br`bitk, br`held, codes
      ensures Valid() && Returns(leave, r) && br.Left() < old(br.Left()) && br.Given() == old(br.Given())
      ensures mode.CODES? && br.Anchored() ==> !codes.Behind()
      ensures leave ==> mode.BAD?
      ensures r.BufError? ==> r0.BufError? && old(br.avail) <= br.avail && win.room == old(win.room)
    {
      hide AtHand, OnWay, Led, Stream, BitReader.Source, BitReader.Buffer, Val, Low, Remembers, Whole, HeadAt, Agrees,
           CodesState.Valid, CodesState.Outcome, Beyond, Lengths;
      br.Peek(3);
      var t := Low(br.bitb, 3);
      leave, r := false, r0;
      if t / 2 == 0 {
        StoredHead(t);
      } else if t / 2 == 1 {
        FixedHead(t);
      } else if t / 2 == 2 {
        DynamicHead(t);
      } else {
        BadHead(t);
        leave, r := true, DataError;
      }
    }

    // The four kinds of blocks; the first three bits t are in the buffer.
    method StoredHead(t: nat)
      requires Valid() && mode.TYPE? && br.bitk >= 3 && br.Pos() + 3 <= |Bits()| && t == Val(Bits(), br.Pos(), 3) && t / 2 == 0
      modifies `mode, `last, br`bitb, br`bitk, br`held
      ensures Valid() && mode.LENS? && br.Left() < old(br.Left()) && br.Given() == old(br.Given())
    {
      hide WholeBlock, AtHand, OnWay, Led, Stream, BitReader.Source, BitReader.Buffer, Val, Remembers, Whole, HeadAt,
           Agrees, CodesState.Valid, CodesState.Outcome, Beyond, Lengths;
      ghost var pos, last0 := br.Pos(), last;
      FirstBits(Bits(), pos, win.produced);
      NowAtHand(origin, passed, place, t % 2 == 1);
      br.Dump(3);
      ToByteBoundary();
      ToStored(blens, cl, last0, Bits(), pos, win.produced, BlockAhead(), Aim());
      last := t % 2 == 1;
      mode := LENS;
    }

    method FixedHead(t: nat)
      requires Valid() && mode.TYPE? && br.bitk >= 3 && br.Pos() + 3 <= |Bits()| && t == Val(Bits(), br.Pos(), 3) && t / 2 == 1
      modifies `mode, `last, `blens, `cl, br`bitb, br`bitk, br`held, codes
      ensures Valid() && mode.CODES? && br.Left() < old(br.Left()) && br.Given() == old(br.Given())
      ensures br.Anchored() ==> !codes.Behind()
    {
      hide AtHand, OnWay, Led, Stream, BitReader.Source, BitReader.Buffer, FixedLit, FixedDist, TablesOk, Val,
           Remembers, Whole, HeadAt, Codes, Agrees, Ready, Rest, CodesState.Valid, CodesState.Outcome, Beyond;
      FirstBits(Bits(), br.Pos(), win.produced);
      NowAtHand(origin, passed, place, t % 2 == 1);
      ToFixed(blens, cl, last, Bits(), br.Pos(), win.produced, BlockAhead(), Aim());
      last := t % 2 == 1;
      br.Dump(3);
      var tb := TreesFixed();
      BeginCodes(tb, FixedLit(), FixedDist());
    }

    method DynamicHead(t: nat)
      requires Valid() && mode.TYPE? && br.bitk >= 3 && br.Pos() + 3 <= |Bits()| && t == Val(Bits(), br.Pos(), 3) && t / 2 == 2
      modifies `mode, `last, br`bitb, br`bitk, br`held
      ensures Valid() && mode.TABLE? && br.Left() < old(br.Left()) && br.Given() == old(br.Given())
    {
      hide AtHand, OnWay, Led, Stream, BitReader.Source, BitReader.Buffer, Val, Remembers, Whole, HeadAt, Agrees,
           CodesState.Valid, CodesState.Outcome, Beyond, Lengths;
      FirstBits(Bits(), br.Pos(), win.produced);
      NowAtHand(origin, passed, place, t % 2 == 1);
      ToDynamic(blens, cl, last, Bits(), br.Pos(), win.produced, BlockAhead(), Aim());
      last := t % 2 == 1;
      br.Dump(3);
      mode := TABLE;
    }

    method BadHead(t: nat)
      requires Valid() && mode.TYPE? && br.bitk >= 3 && br.Pos() + 3 <= |Bits()| && t == Val(Bits(), br.Pos(), 3) && t / 2 >= 3
      modifies `mode, `last, br`bitb, br`bitk, br`held
      ensures Valid() && mode.BAD? && br.Left() < old(br.Left()) && br.Given() == old(br.Given())
    {
      hide AtHand, OnWay, Led, Stream, BitReader.Source, BitReader.Buffer, Val, Remembers, Whole, HeadAt, Agrees,
           CodesState.Valid, CodesState.Outcome, Beyond, Lengths;
      ToBad(blens, cl, last, Bits(), br.Pos(), win.produced, BlockAhead(), Aim());
      last := t % 2 == 1;
      br.Dump(3);
      mode := BAD;
    }

    // The bits j to j + n of the buffer.
    lemma {:induction false} PeekAbove(j: nat, n: nat)
      requires br.Valid() && j + n <= br.bitk && br.area <= br.next
      ensures br.Pos() + j + n <= |Bits()|
      ensures Low(Shr(br.bitb, j), n) == Val(Bits(), br.Pos() + j, n)
    {
      hide AtHand, OnWay, Led, Stream, BitReader.Source, BitReader.Buffer, Lsb, Low, Shr;
      br.Plainly();
      var s := Bits()[br.Pos()..br.Pos() + br.held];
      LsbSplit(s, j);
      LsbSplit(s[j..], n);
      assert s[j..][..n] == Bits()[br.Pos() + j..br.Pos() + j + n];
    }

    // The length of a stored block and its complement.
    method StepLens(r0: Status) returns (leave: bool, r: Status)
      requires Valid() && mode.LENS? && Plain(r0)
      modifies `mode, `place, `passed, `blens, `cl, br`next, br`avail, br`bitb, br`bitk, br`held
      ensures Valid() && Kept() && Returns(leave, r)
      ensures !leave ==> br.Left() < old(br.Left())
      ensures leave ==> Starving() || mode.BAD?
      ensures old(Dry()) ==> leave && r == r0 && win.read == win.write
      ensures r.BufError? ==> r0.BufError? && old(br.avail) <= br.avail && win.room == old(win.room)
    {
      hide AtHand, OnWay, Led, Traced, Beyond, HeadAt, Stream, BitReader.Source, BitReader.Buffer, Val, Low, Remembers,
           Whole, Agrees, CodesState.Valid, CodesState.Outcome;
      InLens();
      var ok;
      ok, r := Need(32, r0);
      leave := !ok;
      if ok {
        ok := StoredLength();
        if !ok {
          leave, r := true, DataError;
        }
      }
    }

    method StoredLength() returns (ok: bool)
      requires Valid() && mode.LENS? && br.bitk == 32
      modifies `mode, `place, `passed, br`bitb, br`bitk, br`held
      ensures Valid() && (if ok then !mode.BAD? && !mode.DONE? && br.Left() < old(br.Left()) else mode.BAD?)
      ensures last ==> !mode.TYPE?
      ensures br.Left() <= old(br.Left()) && br.Given() == old(br.Given())
    {
      hide AtHand, OnWay, Led, Stream, BitReader.Source, BitReader.Buffer, Val, Low, Shr, Remembers, Whole, Agrees,
           CodesState.Valid, CodesState.Outcome;
      br.Peek(16);
      PeekAbove(16, 16);
      ToStoredBytes(blens, cl, last, Bits(), br.Pos(), win.produced, BlockAhead(), Aim());
      var left := Low(br.bitb, 16);
      ok := 0xffff - Low(Shr(br.bitb, 16), 16) == left;
      if !ok {
        mode := BAD;
        return;
      }
      br.DumpAll();
      if left == 0 {
        FinishStored();
      } else {
        mode := STORED(left);
      }
    }

    // All bytes of a stored block are there.
    method FinishStored()
      requires Objects() && br.bitk < 16 && !mode.CODES? && br.held == 0 && origin.input == br.input && Beyond(origin, place, win.produced)
      requires Led(br.data, turns, origin) && AtHand(origin, passed, place, last)
      requires WholeBlock(Bits(), place.pos, place.out) == StoredRest(Bits(), br.Pos(), win.produced, 0)
      requires Agrees(STORED(0), blens, cl, last, Bits(), br.Pos(), win.produced, Stopped(Fail([])), Aim())
      modifies `mode, `place, `passed
      ensures Valid() && mode == AfterBlock(last)
    {
      hide AtHand, OnWay, Led, Stream, BitReader.Source, BitReader.Buffer, Remembers, Whole, HeadAt, Agrees, Beyond;
      StoredEnd(blens, cl, last, Bits(), br.Pos(), win.produced, Stopped(Fail([])), Aim());
      StoredNoBlock(blens, cl, last, Bits(), br.Pos(), win.produced, Aim(), place);
      ghost var goal := Aim();
      BeyondLater(origin, place, win.produced, Here(), win.produced);
      if !last {
        WayOn(origin, passed, place, Here());
        passed := passed + 1;
      }
      mode, place := AfterBlock(last), Here();
      HeadRead(mode, blens, cl, last, Bits(), br.Pos(), win.produced, Stopped(Fail([])), goal, Aim());
    }

    lemma InLens()
      requires Valid() && mode.LENS?
      ensures br.bitk % 8 == 0
    {
      hide AtHand, OnWay, Led, Aim, Traced, Beyond, HeadAt, Stream, BitReader.Source, BitReader.Buffer, Remembers,
           Whole, CodesState.Valid, CodesState.Outcome, StoredHeader, Sound;
    }

    // Stored bytes, as many as there are and fit.
    method StepStored(r0: Status) returns (leave: bool, r: Status)
      requires Valid() && mode.STORED? && Plain(r0)
      modifies `mode, `place, `passed, `blens, `cl, br`next, br`avail, br`bitb, br`bitk, br`held, win, win.buf
      ensures Valid() && Kept() && Returns(leave, r)
      ensures !leave ==> br.Left() < old(br.Left())
      ensures leave ==> Starving() || Blocked()
      ensures old(Dry()) ==> leave && r == r0 && win.read == win.write
      ensures r.BufError? ==> r0.BufError? && old(br.avail) <= br.avail && win.room == old(win.room)
    {
      hide Within, WholeBlock, BitReader.Valid, AtHand, OnWay, Led, Beyond, HeadAt, Stream, BitReader.Source,
           BitReader.Buffer, Remembers, Whole, Agrees, CodesState.Valid, CodesState.Outcome, TablesOk, Ready, Rest,
           Lengths;
      leave, r := true, r0;
      if br.avail == 0 {
        return;
      }
      var ok, flushed := win.NeedOut();
      if !ok {
        r := AfterFlush(r0, flushed);
        return;
      }
      leave, r := false, Ok;
      CopyStored();
    }

    // Move n bytes from the input to the window.
    method MoveBytes(n: nat)
      requires Objects() && br.held == 0 && 0 < n <= br.avail && n <= win.Avail()
      modifies br`next, br`avail, br`bitb, br`bitk, br`held, win`write, win`produced, win.buf
      ensures Objects() && br.held == 0 && br.Pos() == 8 * (old(br.next) + n) && br.Left() < old(br.Left()) && br.Given() == old(br.Given())
      ensures win.produced == old(win.produced) + br.input[old(br.next)..old(br.next) + n]
      ensures old(br.next) < br.next && old(br.area <= br.next)
    {
      hide AtHand, OnWay, Led, Stream, BitReader.Source, BitReader.Buffer, Remembers;
      var bytes := br.TakeBytes(n);
      win.Put(bytes);
    }

    // Stored bytes go through the window like all others.
    method CopyStored()
      requires Valid() && mode.STORED? && br.avail > 0 && win.Avail() > 0
      modifies `mode, `place, `passed, `blens, `cl, br`next, br`avail, br`bitb, br`bitk, br`held, win`write,
               win`produced, win.buf
      ensures Valid() && !mode.BAD? && br.Left() < old(br.Left()) && br.Given() == old(br.Given())
      ensures last ==> !mode.TYPE?
      ensures old(win.produced) <= win.produced
      ensures old(br.next) < br.next && old(br.area <= br.next)
    {
      hide Codes, Sound, AtHand, OnWay, Led, StoredRest, WholeBlock, HeadAt, Beyond, Stream, BitReader.Source,
           BitReader.Buffer, Remembers, Whole, Agrees, CodesState.Valid, CodesState.Outcome, TablesOk, Ready, Rest,
           Lengths;
      var t := Min(mode.left, Min(br.avail, win.Avail()));
      StoredSome(blens, cl, last, br.input, Bits(), br.next, br.Pos(), br.Pos() + 8 * t, win.produced,
                 win.produced + br.input[br.next..br.next + t], BlockAhead(), Aim(), mode.left, t);
      RestRun(br.input, br.next, win.produced, mode.left, t);
      MoveBytes(t);
      BeyondGrows(origin, place, old(win.produced), win.produced);
      if mode.left - t == 0 {
        FinishStored();
      } else {
        mode := STORED(mode.left - t);
      }
    }

    // The numbers of symbols of a dynamic block.
    method StepTable(r0: Status) returns (leave: bool, r: Status)
      requires Valid() && mode.TABLE? && Plain(r0)
      modifies `mode, `blens, `cl, br`next, br`avail, br`bitb, br`bitk, br`held
      ensures Valid() && Kept() && Returns(leave, r)
      ensures !leave ==> br.Left() < old(br.Left())
      ensures leave ==> Starving() || mode.BAD?
      ensures old(Dry()) ==> leave && r == r0 && win.read == win.write
      ensures r.BufError? ==> r0.BufError? && old(br.avail) <= br.avail && win.room == old(win.room)
    {
      hide AtHand, OnWay, Led, Traced, Beyond, HeadAt, Stream, BitReader.Source, BitReader.Buffer, Val, Low, Remembers,
           Whole, Agrees, CodesState.Valid, CodesState.Outcome;
      var ok;
      ok, r := Need(14, r0);
      leave := !ok;
      if ok {
        ok := TableSizes();
        if !ok {
          leave, r := true, DataError;
        }
      }
    }

    method TableSizes() returns (ok: bool)
      requires Filled() && mode.TABLE? && 14 <= br.bitk < 22
      modifies `mode, `blens, `cl, br`bitb, br`bitk, br`held
      ensures Valid() && (if ok then mode.BTREE? && br.Left() < old(br.Left()) else mode.BAD?)
      ensures br.Left() <= old(br.Left()) && br.Given() == old(br.Given())
    {
      hide AtHand, OnWay, Led, Stream, BitReader.Source, BitReader.Buffer, Val, Low, Shr, Remembers, Whole, Agrees,
           CodesState.Valid, CodesState.Outcome, NumLengths, Repeat;
      br.Peek(14);
      ToBitLengths(blens, cl, last, Bits(), br.Pos(), win.produced, BlockAhead(), Aim());
      var t := Low(br.bitb, 14);
      ok := !(Low(t, 5) > 29 || Low(Shr(t, 5), 5) > 29);
      if !ok {
        mode := BAD;
        return;
      }
      blens, cl := Repeat(0, NumLengths(t)), Repeat(0, 19);
      br.Dump(14);
      mode := BTREE(t, 0);
    }

    lemma InBitLengths()
      requires Valid() && mode.BTREE?
      ensures TableOk(mode.table) && mode.index <= 19 && |blens| == NumLengths(mode.table) >= 19 && |cl| == 19
    {
      hide AtHand, OnWay, Led, Whole, BitLengths, NumLengths, Border, TableOk;
    }

    // Store the next bit length, which is in the buffer.
    method TakeBitLength()
      requires Valid() && mode.BTREE? && mode.index < NumBitLengths(mode.table) && br.bitk >= 3
      modifies `mode, `blens, `cl, br`bitb, br`bitk, br`held
      ensures Valid() && mode == BTREE(old(mode.table), old(mode.index) + 1) && br.Left() < old(br.Left()) && br.Given() == old(br.Given())
    {
      hide AtHand, OnWay, Led, Stream, BitReader.Source, BitReader.Buffer, Val, Low, Remembers, Whole, Agrees, Border,
           NumBitLengths, CodesState.Valid, CodesState.Outcome, TablesOk, Ready, Rest, Lengths;
      br.Peek(3);
      InBitLengths();
      NextBitLength(blens, cl, last, Bits(), br.Pos(), win.produced, BlockAhead(), Aim(), mode.table, mode.index);
      var x := Low(br.bitb, 3);
      cl := cl[Border()[mode.index] := x];
      blens := blens[Border()[mode.index] := x];
      mode := BTREE(mode.table, mode.index + 1);
      br.Dump(3);
    }

    // The bit lengths that are not sent are zero.
    method ZeroBitLengths()
      requires Valid() && mode.BTREE? && NumBitLengths(mode.table) <= mode.index
      modifies `mode, `blens
      ensures Valid() && mode.BTREE? && mode.index >= 19
    {
      hide AtHand, OnWay, Led, Stream, BitReader.Source, BitReader.Buffer, Remembers, Whole, Agrees, Border,
           NumBitLengths, CodesState.Valid, CodesState.Outcome, TablesOk, Ready, Rest, Lengths;
      while mode.index < 19
        invariant Valid() && mode.BTREE? && NumBitLengths(mode.table) <= mode.index
        decreases 19 - mode.index
      {
        InBitLengths();
        NoBitLength(blens, cl, last, Bits(), br.Pos(), win.produced, BlockAhead(), Aim(), mode.table, mode.index);
        blens := blens[Border()[mode.index] := 0];
        mode := BTREE(mode.table, mode.index + 1);
      }
    }

    // The code for the code lengths.
    method StepBitLengths(r0: Status) returns (leave: bool, r: Status)
      requires Valid() && mode.BTREE? && Plain(r0)
      modifies `mode, `blens, `cl, br`next, br`avail, br`bitb, br`bitk, br`held, hufts
      ensures leave || Onward()
      ensures Valid() && Kept() && Returns(leave, r)
      ensures !leave ==> mode.DTREE?
      ensures leave ==> Starving() || mode.BAD?
      ensures old(Dry()) ==> leave && r == r0 && win.read == win.write
      ensures r.BufError? ==> r0.BufError? && old(br.avail) <= br.avail && win.room == old(win.room)
    {
      hide AtHand, OnWay, Led, Traced, Beyond, HeadAt, Stream, BitReader.Source, BitReader.Buffer, Remembers, Whole,
           Agrees, NumBitLengths, CodesState.Valid, CodesState.Outcome, Low, Val;
      leave, r := ReadBitLengths(r0);
      if leave {
        return;
      }
      ZeroBitLengths();
      leave, r := BitTree(r);
    }

    // The bit lengths that are sent.
    method ReadBitLengths(r0: Status) returns (leave: bool, r: Status)
      requires Valid() && mode.BTREE? && Plain(r0)
      modifies `mode, `blens, `cl, br`next, br`avail, br`bitb, br`bitk, br`held
      ensures Valid() && Kept() && Plain(r) && mode.BTREE?
      ensures if leave then Starving() else mode.index >= NumBitLengths(mode.table)
      ensures old(Dry()) ==> leave && r == r0 && win.read == win.write
      ensures r.BufError? ==> r0.BufError? && old(br.avail) <= br.avail && win.room == old(win.room)
    {
      hide AtHand, OnWay, Led, Window.Valid, Traced, Beyond, HeadAt, Stream, BitReader.Source, BitReader.Buffer,
           Remembers, Whole, Agrees, NumBitLengths, CodesState.Valid, CodesState.Outcome, Low, Val;
      leave, r := false, r0;
      var t := mode.table;
      while mode.index < NumBitLengths(t)
        invariant Valid() && mode.BTREE? && mode.table == t && Plain(r) && Kept()
        invariant old(Dry()) ==> r == r0 && Dry()
        invariant r.BufError? ==> r0.BufError? && old(br.avail) <= br.avail && win.room == old(win.room)
        decreases NumBitLengths(t) - mode.index
      {
        var ok;
        ok, r := Need(3, r);
        if !ok {
          leave := true;
          return;
        }
        TakeBitLength();
      }
    }

    // Build the table.
    method BitTree(r0: Status) returns (leave: bool, r: Status)
      requires Valid() && mode.BTREE? && mode.index >= 19 && Plain(r0)
      modifies `mode, `blens, `cl, hufts
      ensures Valid() && Returns(leave, r)
      ensures !leave ==> mode.DTREE?
      ensures mode.DTREE? || mode.BAD?
      ensures leave ==> mode.BAD?
      ensures r.BufError? ==> r0.BufError? && old(br.avail) <= br.avail && win.room == old(win.room)
    {
      hide AtHand, OnWay, Led, Stream, BitReader.Source, BitReader.Buffer, Remembers, Whole, Agrees, NumBitLengths,
           CodesState.Valid, CodesState.Outcome, BitTable, Accepted;
      InBitLengths();
      BitLengthsDone(blens, cl, last, Bits(), br.Pos(), win.produced, BlockAhead(), Aim(), mode.table);
      var bb, tab, tb;
      r, bb, tab, tb := TreesBits(blens[..19], hufts);
      leave := !r.Ok?;
      if leave {
        if r.DataError? {
          mode := BAD;
        }
        return;
      }
      r := r0;
      mode := DTREE(mode.table, 0, bb, tab, tb);
    }

    lemma InCodeLengths()
      requires Valid() && mode.DTREE?
      ensures BitTable(mode.tab, mode.tb, mode.bb, cl) && mode.index <= |blens| == NumLengths(mode.table)
      ensures |cl| == 19 && Accepted(cl) && mode.bb <= 7
    {
      hide AtHand, OnWay, Led, Whole, Agrees, BitTable, NumLengths, Accepted, CodesState.Valid, CodesState.Outcome,
           TablesOk, Ready, Rest, Lengths;
      InLengths(blens, cl, last, Bits(), br.Pos(), win.produced, BlockAhead(), Aim(), mode.table, mode.index, mode.bb, mode.tab, mode.tb);
    }

    // Decode one symbol of the code lengths and store what it stands for.
    method CodeLength(r0: Status) returns (leave: bool, r: Status)
      requires Valid() && mode.DTREE? && mode.index < NumLengths(mode.table) && Plain(r0)
      modifies `mode, `blens, `cl, br`next, br`avail, br`bitb, br`bitk, br`held
      ensures Valid() && Returns(leave, r)
      ensures !leave ==> mode.DTREE? && mode.table == old(mode.table) && mode.index > old(mode.index)
      ensures br.Left() <= old(br.Left()) && br.Given() == old(br.Given())
      ensures mode.DTREE? || mode.BAD?
      ensures leave ==> Starving() || mode.BAD?
      ensures old(Dry()) ==> leave && r == r0 && win.read == win.write
      ensures old(Secure()) ==> Secure()
      ensures r.BufError? ==> r0.BufError? && old(br.avail) <= br.avail && win.room == old(win.room)
    {
      hide AtHand, OnWay, Led, Window.Valid, Traced, Beyond, HeadAt, Stream, BitReader.Source, BitReader.Buffer, Val,
           Low, Remembers, Whole, Agrees, BitTable, NumLengths, Accepted, CodesState.Valid, CodesState.Outcome,
           BitLengthSymbol, RepeatBits, RepeatBase;
      leave := true;
      var ok;
      InCodeLengths();
      ok, r := Need(mode.bb, r0);
      if !ok {
        return;
      }
      BitSymbolAt(mode.tab, mode.tb, mode.bb, cl, Bits(), br.Pos());
      var h := mode.tab[mode.tb + Low(br.bitb, mode.bb)];
      if h.base < 16 {
        leave := false;
        StoreLength(h.base, h.bits);
      } else {
        leave, r := RepeatLength(h.base, h.bits, r);
      }
    }

    // The entry found stands for a repeat: have its extra bits too.
    method RepeatLength(c: nat, n: nat, r0: Status) returns (leave: bool, r: Status)
      requires Valid() && mode.DTREE? && mode.index < NumLengths(mode.table) && Plain(r0) && 16 <= c < 19
      requires |cl| == 19 && Accepted(cl) && br.Pos() <= |Bits()| && BitLengthSymbol(cl, Bits()[br.Pos()..]) == Symbol(c, n)
      requires n <= mode.bb <= br.bitk && mode.bb <= 7
      requires var at := mode.tb + Low(br.bitb, mode.bb); at < |mode.tab| && mode.tab[at].base == c && mode.tab[at].bits == n
      modifies `mode, `blens, `cl, br`next, br`avail, br`bitb, br`bitk, br`held
      ensures Valid() && Returns(leave, r)
      ensures !leave ==> mode.DTREE? && mode.table == old(mode.table) && mode.index > old(mode.index)
      ensures br.Left() <= old(br.Left()) && br.Given() == old(br.Given())
      ensures mode.DTREE? || mode.BAD?
      ensures leave ==> Starving() || mode.BAD?
      ensures old(br.avail == 0 && br.bitk < n + RepeatBits(c)) ==> leave && r == r0
      ensures old(br.next) <= br.next && (old(br.bitk) < n + RepeatBits(c) ==> old(br.next) < br.next || Starving())
      ensures r.BufError? ==> r0.BufError? && old(br.avail) <= br.avail && win.room == old(win.room)
    {
      hide AtHand, OnWay, Led, Stream, BitReader.Source, BitReader.Buffer, Val, Low, Remembers, Whole, Agrees, BitTable,
           NumLengths, Accepted, CodesState.Valid, CodesState.Outcome, BitLengthSymbol, RepeatBits, RepeatBase;
      RepeatRange(c);
      br.Peek(mode.bb);
      var ok;
      ok, r := Need(n + RepeatBits(c), r0);
      if !ok {
        leave := true;
        br.Peek(mode.bb);
        return;
      }
      leave, r := StoreRepeat(c, n, r);
    }

    lemma RepeatRange(c: nat)
      requires 16 <= c < 19
      ensures RepeatBits(c) <= 7 && RepeatBase(c) >= 3
    {
    }

    // The symbol is the length c itself; its code has n bits.
    method StoreLength(c: nat, n: nat)
      requires Valid() && mode.DTREE? && mode.index < NumLengths(mode.table) && c < 16 && n <= br.bitk
      requires |cl| == 19 && Accepted(cl) && br.Pos() <= |Bits()| && BitLengthSymbol(cl, Bits()[br.Pos()..]) == Symbol(c, n)
      modifies `mode, `blens, `cl, br`bitb, br`bitk, br`held
      ensures Valid() && mode.DTREE? && mode.table == old(mode.table) && mode.index == old(mode.index) + 1
      ensures br.Left() <= old(br.Left()) && br.Given() == old(br.Given())
    {
      hide AtHand, OnWay, Led, Stream, BitReader.Source, BitReader.Buffer, Val, Low, Remembers, Whole, Agrees, BitTable,
           NumLengths, Accepted, CodesState.Valid, CodesState.Outcome, BitLengthSymbol;
      OneLength(blens, cl, last, Bits(), br.Pos(), win.produced, BlockAhead(), Aim(), mode.table, mode.index, mode.bb, mode.tab, mode.tb, c, n);
      br.Dump(n);
      blens := blens[mode.index := c];
      mode := DTREE(mode.table, mode.index + 1, mode.bb, mode.tab, mode.tb);
    }

    // The symbol repeats a length; its code has n bits and is followed by the number of times.
    method StoreRepeat(c: nat, n: nat, r0: Status) returns (leave: bool, r: Status)
      requires Filled() && mode.DTREE? && mode.index < NumLengths(mode.table) && 16 <= c < 19 && n + RepeatBits(c) <= br.bitk && Plain(r0)
      requires br.bitk < 16 || br.bitk < n + RepeatBits(c) + 8
      requires |cl| == 19 && Accepted(cl) && br.Pos() <= |Bits()| && BitLengthSymbol(cl, Bits()[br.Pos()..]) == Symbol(c, n)
      modifies `mode, `blens, `cl, br`bitb, br`bitk, br`held
      ensures Valid() && Returns(leave, r) && br.Left() <= old(br.Left()) && br.Given() == old(br.Given())
      ensures !leave ==> mode.DTREE? && mode.table == old(mode.table) && mode.index > old(mode.index)
      ensures leave ==> mode.BAD?
      ensures r.BufError? ==> r0.BufError? && old(br.avail) <= br.avail && win.room == old(win.room)
    {
      hide Codes, Sound, AtHand, OnWay, Led, Beyond, Within, Stream, BitReader.Source, BitReader.Buffer, Val, Low,
           Remembers, Whole, Agrees, BitTable, NumLengths, Accepted, CodesState.Valid, CodesState.Outcome,
           BitLengthSymbol, RepeatBits, RepeatBase;
      ghost var pos := br.Pos();
      var j := Times(c, n);
      var i := mode.index;
      OneRepeat(blens, cl, last, Bits(), pos, win.produced, BlockAhead(), Aim(), mode.table, i, mode.bb, mode.tab, mode.tb, c, n, j);
      if i + j > NumLengths(mode.table) || (c == 16 && i < 1) {
        mode := BAD;
        return true, DataError;
      }
      blens := Fill(blens, i, j, if c == 16 then blens[i - 1] else 0);
      mode := DTREE(mode.table, i + j, mode.bb, mode.tab, mode.tb);
      return false, r0;
    }

    // The number of repetitions, after a code of n bits; both are taken.
    method Times(c: nat, n: nat) returns (j: nat)
      requires br.Valid() && 16 <= c < 19 && n + RepeatBits(c) <= br.bitk
      modifies br`bitb, br`bitk, br`held
      ensures br.Valid() && br.Pos() == old(br.Pos()) + n + RepeatBits(c) <= |Bits()| && br.Left() <= old(br.Left()) && br.Given() == old(br.Given())
      ensures br.bitk == old(br.bitk) - n - RepeatBits(c)
      ensures j == RepeatBase(c) + Val(Bits(), old(br.Pos()) + n, RepeatBits(c)) && j > 0
    {
      hide AtHand, OnWay, Led, Stream, BitReader.Source, BitReader.Buffer, Lsb, Low, RepeatBits, RepeatBase;
      RepeatRange(c);
      br.Dump(n);
      br.Peek(RepeatBits(c));
      j := RepeatBase(c) + Low(br.bitb, RepeatBits(c));
      br.Dump(RepeatBits(c));
    }

    // Set n entries from i on to x, one after the other.
    static method Fill(blens: seq<nat>, i: nat, n: nat, x: nat) returns (r: seq<nat>)
      requires n > 0 && i + n <= |blens|
      ensures r == Spread(blens, i, n, x)
    {
      r := blens;
      var k := 0;
      while k < n
        invariant 0 <= k <= n && |r| == |blens|
        invariant r == Spread(blens, i, k, x)
      {
        r := r[i + k := x];
        k := k + 1;
      }
    }

    // The code lengths, and the tables for them.
    method StepCodeLengths(r0: Status) returns (leave: bool, r: Status)
      requires Valid() && mode.DTREE? && Plain(r0)
      modifies `mode, `blens, `cl, br`next, br`avail, br`bitb, br`bitk, br`held, codes, hufts
      ensures leave || Onward()
      ensures Valid() && Kept() && Returns(leave, r)
      ensures !leave ==> mode.CODES?
      ensures leave ==> Starving() || mode.BAD? || r.MemError?
      ensures old(Dry()) ==> leave && r == r0 && win.read == win.write
      ensures r.BufError? ==> r0.BufError? && old(br.avail) <= br.avail && win.room == old(win.room)
    {
      hide AtHand, OnWay, Led, Traced, Beyond, HeadAt, Stream, BitReader.Source, BitReader.Buffer, Remembers, Whole,
           Agrees, NumLengths, CodesState.Valid, CodesState.Outcome, Low, Val;
      leave, r := false, r0;
      var t := mode.table;
      while mode.index < NumLengths(t)
        invariant Valid() && mode.DTREE? && mode.table == t && Plain(r) && Kept()
        invariant old(Dry()) ==> r == r0 && Dry()
        invariant r.BufError? ==> r0.BufError? && old(br.avail) <= br.avail && win.room == old(win.room)
        decreases NumLengths(t) - mode.index
      {
        leave, r := CodeLength(r);
        if leave {
          return;
        }
      }
      leave, r := DynamicTrees(r);
    }

    method DynamicTrees(r0: Status) returns (leave: bool, r: Status)
      requires Valid() && mode.DTREE? && mode.index >= NumLengths(mode.table) && Plain(r0)
      modifies `mode, `blens, `cl, codes, hufts
      ensures Valid() && Returns(leave, r)
      ensures !leave ==> mode.CODES?
      ensures mode.CODES? && br.Anchored() ==> !codes.Behind()
      ensures leave ==> mode.BAD? || r.MemError?
      ensures r.BufError? ==> r0.BufError? && old(br.avail) <= br.avail && win.room == old(win.room)
    {
      hide AtHand, OnWay, Led, Stream, BitReader.Source, BitReader.Buffer, Remembers, Whole, Agrees, NumLengths,
           CodesState.Valid, CodesState.Outcome, TablesOk, Codes, Lengths;
      var tb;
      ghost var lit, dist;
      r, tb, lit, dist := BlockTrees();
      leave := !r.Ok?;
      if r.Ok? {
        r := r0;
        BeginCodes(tb, lit, dist);
      } else {
        BadHere(blens, cl, last, Bits(), br.Pos(), win.produced, BlockAhead(), Aim());
        if r.DataError? {
          mode := BAD;
        }
      }
    }

    method BlockTrees() returns (r: Status, tb: CodeTables, ghost lit: seq<nat>, ghost dist: seq<nat>)
      requires Valid() && mode.DTREE? && mode.index >= NumLengths(mode.table)
      modifies hufts
      ensures Valid() && br.Pos() <= |Bits()|
      ensures r.Ok? || r.DataError? || r.MemError?
      ensures r.DataError? || r.MemError? ==> Agrees(BAD, blens, cl, last, Bits(), br.Pos(), win.produced, BlockAhead(), Aim())
      ensures r.Ok? ==> Lengths(lit) && Lengths(dist) && TablesOk(tb, lit, dist)
      ensures r.Ok? ==> Aim().head == Lens(lit, dist, br.Pos())
      ensures r.Ok? ==>
        var b := Codes(lit, dist, Bits(), br.Pos(), win.produced);
        Agrees(CODES, blens, cl, last, Bits(), br.Pos(), win.produced, b, Aim())
    {
      hide AtHand, OnWay, Led, Stream, BitReader.Source, BitReader.Buffer, Remembers, Whole, Agrees, NumLengths, NumLit,
           CodesState.Valid, CodesState.Outcome, TablesOk, AcceptedBoth, Codes, BitTable, Accepted;
      InCodeLengths();
      LengthsDone(blens, cl, last, Bits(), br.Pos(), win.produced, BlockAhead(), Aim(), mode.table, mode.bb, mode.tab, mode.tb);
      var n := NumLit(mode.table);
      lit, dist := blens[..n], blens[n..];
      r, tb := TreesDynamic(blens[..n], blens[n..], hufts);
    }

    method BeginCodes(tb: CodeTables, ghost lit: seq<nat>, ghost dist: seq<nat>)
      requires Objects() && Lengths(lit) && Lengths(dist) && TablesOk(tb, lit, dist) && br.Pos() <= |Bits()| && br.bitk < 16
      requires Led(br.data, turns, origin) && AtHand(origin, passed, place, last)
      requires place.out == win.produced && origin.input == br.input && Beyond(origin, place, win.produced) && Aim().head == Lens(lit, dist, br.Pos())
      requires
        var b := Codes(lit, dist, Bits(), br.Pos(), win.produced);
        Agrees(CODES, blens, cl, last, Bits(), br.Pos(), win.produced, b, Aim())
      modifies `mode, `blens, `cl, codes
      ensures Valid() && mode.CODES? && (br.Anchored() ==> !codes.Behind())
    {
      hide AtHand, OnWay, Led, Stream, BitReader.Source, BitReader.Buffer, Remembers, Whole, Agrees, CodesState.Valid,
           CodesState.Outcome, TablesOk, Codes;
      codes.Begin(tb, lit, dist);
      mode := CODES;
    }

    // A byte in front of the present area of input will be given back at the end of the block at hand.
    ghost predicate Astray()
      requires Valid()
      reads this, br, win, win.buf, codes
    {
      mode.CODES? && !br.strayed && codes.Behind()
    }

    // If so, that has happened by now, and what follows the block is decoded from the stream as it then was; or it is still to
    // come.
    twostate predicate Heeded()
      requires old(Valid()) && Valid()
      reads this, br, win, win.buf, codes
    {
      old(Astray()) ==>
        var b := old(codes.Outcome());
        if Astray() then
          codes.Outcome() == b && last == old(last) && origin == old(origin) && turns == old(turns) && br.input == old(br.input)
        else
          && br.strayed && codes.Again(old(br.input))
          && origin == (if old(last) then old(origin) else Origin(br.input, b.pos, b.out)) && (old(last) || turns != old(turns))
    }

    // The symbols of the block. If a byte in front of the area of input is given back before a further block, the output goes on
    // from here with the stream as it now is.
    method RunCodes(r0: Status) returns (r: Status)
      requires Valid() && mode.CODES? && Plain(r0)
      modifies `origin, `turns, `place, `passed, br`next, br`avail, br`bitb, br`bitk, br`held, br`input, br`strayed,
               win, win.buf, codes
      ensures Valid() && Kept() && Heeded()
      ensures origin == if br.strayed && !old(br.strayed) && !last then Origin(br.input, br.Pos(), win.produced) else old(origin)
      ensures r.StreamEnd? || r.DataError? || (Plain(r) && (Starving() || Blocked()))
      ensures r.StreamEnd? ==> (br.strayed <==> old(br.strayed || codes.Behind())) && AtBlockEnd()
      ensures r.DataError? ==> Whole() == Fail(win.produced) && !Astray()
      ensures old(Dry()) ==> r == r0 && win.read == win.write
      ensures r.BufError? ==> r0.BufError? && old(br.avail) <= br.avail && win.room == old(win.room)
    {
      hide Filled, Traced, Within, AtBlockEnd, BitReader.Valid, Window.Valid, Whole, Stream, BitReader.Source,
           BitReader.Buffer, Remembers, Agrees, OutcomeFrom, Blocks, CodesState.Outcome, Ready, Rest, TablesFor, HeadAt,
           BlockAt, Beyond, AtHand, OnWay, Led;
      InCodes();
      r := FollowCodes(r0);
      InCodes();
    }

    lemma InCodes()
      requires Valid() && mode.CODES?
      ensures Objects() && codes.Valid() && br.bitk < 16
    {
      hide AtHand, OnWay, Traced, BitReader.Valid, Window.Valid, Whole, Stream, BitReader.Source, BitReader.Buffer,
           Remembers, Agrees, Beyond, Led;
    }

    // The next block, or the end, is what comes next.
    ghost predicate AtBlockEnd()
      requires Valid()
      reads this, br, win, win.buf, codes
    {
      && Agrees(AfterBlock(last), blens, cl, last, Bits(), br.Pos(), win.produced, Stopped(Fail([])), Aim())
      && br.bitk < 8 && place == Here() && (last || (origin.input == br.input && OnWay(origin, passed, place)))
    }

    method FollowCodes(r0: Status) returns (r: Status)
      requires Valid() && mode.CODES? && Plain(r0)
      modifies `origin, `turns, `place, `passed, br`next, br`avail, br`bitb, br`bitk, br`held, br`input, br`strayed,
               win, win.buf, codes
      ensures Valid() && codes.Kept() && LedOn()
      ensures origin == if br.strayed && !old(br.strayed) && !last then Origin(br.input, br.Pos(), win.produced) else old(origin)
      ensures if br.strayed && !old(br.strayed) && !last then turns != old(turns) else turns == old(turns)
      ensures br.strayed && !old(br.strayed) ==> codes.Outcome() == EndOfBlock(br.Pos(), win.produced)
      ensures Plain(r) || r.StreamEnd? || r.DataError?
      ensures Plain(r) && !codes.Starving() ==> codes.Blocked()
      ensures r.StreamEnd? ==> (br.strayed <==> old(br.strayed || codes.Behind())) && AtBlockEnd()
      ensures r.DataError? ==> Whole() == Fail(win.produced) && codes.Outcome() == Stopped(Fail(win.produced))
      ensures old(codes.Starving() && win.read == win.write) ==> r == r0 && win.read == win.write
      ensures r.BufError? ==> r0.BufError? && old(br.avail) <= br.avail && win.room == old(win.room)
    {
      hide Inflater.AtBlockEnd, CodesState.Starving, CodesState.Blocked, Lengths, TablesOk, BitReader.Valid,
           Window.Valid, Whole, Stream, BitReader.Source, BitReader.Buffer, Remembers, Agrees, OutcomeFrom, Blocks,
           CodesState.Outcome, Ready, Rest, Located, TablesFor, HeadAt, BlockAt, Beyond, AtHand, OnWay, Led;
      ghost var within := Locate();
      ghost var pos, out, input := br.Pos(), win.produced, br.input;
      codes.EndAhead();
      r := codes.Run(r0);
      codes.Finished();
      if codes.mode.WASH? || codes.mode.END? {
        EndBlock(input, pos, out, br.strayed && !old(br.strayed), within);
      } else {
        StayInBlock(pos, out);
      }
    }

    lemma Locate() returns (within: bool)
      requires Valid() && mode.CODES?
      ensures Located(within, origin, passed, place, last, br.input, codes.litLens, codes.distLens, codes.Outcome(), br.Pos())
      ensures !within ==> (codes.mode.WASH? || codes.mode.END?) && !codes.Behind()
    {
      hide BitReader.Valid, Window.Valid, Whole, Stream, BitReader.Source, BitReader.Buffer, Remembers, Agrees,
           OutcomeFrom, Blocks, CodesState.Outcome, Ready, Rest, TablesFor, HeadAt, BlockAt, Beyond, AtHand, OnWay, Led;
      within := Within() && AtHand(origin, passed, place, last);
    }

    // Keep account of how the block has ended,
    ghost method EndBlock(input: seq<byte>, pos: nat, out: seq<byte>, turned: bool, within: bool)
      requires Objects() && codes.Valid() && mode.CODES? && (codes.mode.WASH? || codes.mode.END?) && br.bitk < 8
      requires |input| == |br.input| && out <= win.produced && Beyond(origin, place, out) && Led(br.data, turns, origin)
      requires codes.Outcome() == EndOfBlock(br.Pos(), win.produced)
      requires Agrees(CODES, blens, cl, last, Stream(input), pos, out, codes.Outcome(), Goal(HeadAt(Stream(input), place.pos), Whole()))
      requires if turned then within && codes.Again(input) && br.Pos() + 8 <= 8 * br.area <= br.Pos() + 15 else br.input == input
      requires Located(within, origin, passed, place, last, input, codes.litLens, codes.distLens, codes.Outcome(), pos) && pos <= br.Pos()
      modifies `origin, `turns, `place, `passed
      ensures Valid() && AtBlockEnd()
      ensures origin == if turned && !last then Origin(br.input, br.Pos(), win.produced) else old(origin)
      ensures turns == if turned && !last then old(turns) + [Turn(old(passed), br.area, br.front)] else old(turns)
    {
      hide Lengths, Window.Valid, Stream, BitReader.Source, BitReader.Buffer, Remembers, Agrees, OutcomeFrom, Blocks,
           CodesState.Outcome, TablesFor, Ready, HeadAt, BlockAt, Beyond, AtHand, OnWay, Led, Passing, WholeBlock;
      ghost var goal := Goal(HeadAt(Stream(input), place.pos), Whole());
      MoveOn(input, pos, out, turned, within);
      CodesReturned(blens, cl, last, Stream(input), Bits(), turned, pos, out, codes.Outcome(), goal, Aim(), br.Pos(), win.produced);
    }

    // The place is now behind the block, and the origin with it if a byte has been given back before a further one.
    ghost method MoveOn(input: seq<byte>, pos: nat, out: seq<byte>, turned: bool, within: bool)
      requires br.Valid() && out <= win.produced && Beyond(origin, place, out) && Led(br.data, turns, origin) && |input| == |br.input|
      requires if turned then within && codes.br == br && codes.Again(input) && br.Pos() + 8 <= 8 * br.area <= br.Pos() + 15 else br.input == input
      requires pos <= br.Pos() && Located(within, origin, passed, place, last, input, codes.litLens, codes.distLens, EndOfBlock(br.Pos(), win.produced), pos)
      modifies `origin, `turns, `place, `passed
      ensures place == Here() && place.pos > 0 && Beyond(origin, place, win.produced) && Led(br.data, turns, origin)
      ensures last || (origin.input == br.input && OnWay(origin, passed, place))
      ensures origin == if turned && !last then Origin(br.input, br.Pos(), win.produced) else old(origin)
      ensures turned && !last ==> Whole() == Blocks(Bits(), br.Pos(), win.produced)
      ensures turns == if turned && !last then old(turns) + [Turn(old(passed), br.area, br.front)] else old(turns)
    {
      hide Stream, BitReader.Source, BitReader.Buffer, OutcomeFrom, Blocks, HeadAt, BlockAt, Beyond, AtHand, OnWay, Led,
           Passing, WholeBlock;
      if within {
        BehindHead(Stream(input), place.pos);
        BeyondLater(origin, place, out, Here(), win.produced);
      } else {
        BeyondGrows(origin, place, out, win.produced);
      }
      if !last {
        if turned {
          TurnTaken(br.data, turns, origin, passed, place, br.area, br.front, br.input, Here());
          turns := turns + [Turn(passed, br.area, br.front)];
          origin := Origin(br.input, br.Pos(), win.produced);
          passed := 0;
          WayStarts(origin);
          TurnedTo(br.input, br.Pos(), win.produced);
          FirstHere(origin, Here(), win.produced);
        } else if within {
          CompressedWhole(Stream(input), place.pos, place.out);
          WayOn(origin, passed, place, Here());
          passed := passed + 1;
        }
      }
      place := Here();
    }

    // or that it has not.
    lemma StayInBlock(pos: nat, out: seq<byte>)
      requires Objects() && codes.Valid() && mode.CODES? && br.bitk < 16 && pos <= br.Pos() && out <= win.produced
      requires Beyond(origin, place, out) && Led(br.data, turns, origin)
      requires Located(true, origin, passed, place, last, br.input, codes.litLens, codes.distLens, codes.Outcome(), pos)
      requires Agrees(CODES, blens, cl, last, Bits(), pos, out, codes.Outcome(), Aim())
      ensures Valid() && (codes.Outcome() == Stopped(Fail(win.produced)) ==> Whole() == Fail(win.produced))
    {
      hide OnWay, Window.Valid, Stream, BitReader.Source, BitReader.Buffer, Remembers, Agrees, OutcomeFrom, Blocks,
           CodesState.Outcome, TablesFor, Ready, HeadAt, BlockAt, Beyond, AtHand, Led;
      BeyondGrows(origin, place, out, win.produced);
      CodesReturned(blens, cl, last, Bits(), Bits(), false, pos, out, codes.Outcome(), Aim(), Aim(), br.Pos(), win.produced);
    }

    method StepCodes(r0: Status) returns (leave: bool, r: Status)
      requires Valid() && mode.CODES? && Plain(r0)
      modifies this, br`next, br`avail, br`bitb, br`bitk, br`held, br`input, br`strayed, win, win.buf, codes
      ensures leave || Onward()
      ensures Valid() && Kept() && Heeded()
      ensures if r.DataError? then leave && Whole() == Fail(win.produced) && !Astray() else Returns(leave, r)
      ensures if leave then (Plain(r) && (Starving() || Blocked())) || r.DataError? else mode == AfterBlock(last)
      ensures old(Dry()) ==> leave && r == r0 && win.read == win.write
      ensures r.BufError? ==> r0.BufError? && old(br.avail) <= br.avail && win.room == old(win.room)
    {
      hide CodesState.Behind, Window.Valid, OnWay, AtHand, Led, Within, Beyond, HeadAt, Stream, BitReader.Source,
           BitReader.Buffer, Remembers, Agrees, Whole, CodesState.Outcome, CodesState.Valid;
      r := RunCodes(r0);
      leave := !r.StreamEnd?;
      if r.StreamEnd? {
        r := Ok;
        mode := AfterBlock(last);
      }
    }

    // All blocks are decoded: see that the output is delivered.
    method StepDry(r0: Status) returns (leave: bool, r: Status)
      requires Valid() && mode.DRY? && Plain(r0)
      modifies `mode, `blens, `cl, win
      ensures leave || Onward()
      ensures Valid() && Kept() && Returns(leave, r)
      ensures !leave ==> mode.DONE?
      ensures leave ==> Blocked()
      ensures r.BufError? ==> r0.BufError? && old(br.avail) <= br.avail && win.room == old(win.room)
    {
      hide AtHand, OnWay, Led, Stream, BitReader.Source, BitReader.Buffer, Remembers, Whole, CodesState.Valid,
           CodesState.Outcome, TablesOk, Ready, Rest, Lengths;
      var room := win.room;
      win.Flush();
      r := AfterFlush(r0, win.room < room);
      win.Empty();
      leave := win.read != win.write;
      if !leave {
        mode := DONE;
      }
    }

    // The head of a dynamic block.
    method StepHead(r0: Status) returns (leave: bool, r: Status)
      requires Valid() && Plain(r0) && (mode.TABLE? || mode.BTREE? || mode.DTREE?)
      modifies `mode, `blens, `cl, br`next, br`avail, br`bitb, br`bitk, br`held, codes, hufts
      ensures Valid() && Kept() && (leave || Onward())
      ensures if r.DataError? then leave && mode.BAD? else Returns(leave, r)
      ensures leave && Plain(r) ==> Starving()
      ensures old(Dry()) ==> leave && r == r0 && win.read == win.write
      ensures r.BufError? ==> r0.BufError? && old(br.avail) <= br.avail && win.room == old(win.room)
    {
      hide Inflater.Aim, AtHand, OnWay, Led, Final, BitReader.Valid, Valid, Filled, Secure, Lacking, Astray, Within,
           Blocked, Kept, Heeded, Traced, Beyond, HeadAt, Stream, BitReader.Source, BitReader.Buffer, Remembers, Whole,
           Agrees, Objects, CodesState.Valid, CodesState.Outcome, Starving;
      match mode {
        case TABLE => leave, r := StepTable(r0);
        case BTREE(_, _) => leave, r := StepBitLengths(r0);
        case DTREE(_, _, _, _, _) => leave, r := StepCodeLengths(r0);
      }
    }

    // One case of the switch.
    method Step(r0: Status) returns (leave: bool, r: Status)
      requires Valid() && Plain(r0)
      modifies this, br`next, br`avail, br`bitb, br`bitk, br`held, br`input, br`strayed, win, win.buf, codes, hufts
      ensures Valid() && Kept() && Heeded() && (leave || Onward())
      ensures if r.DataError? then leave && Whole() == Fail(win.produced) && !Astray() else Returns(leave, r)
      ensures leave && Plain(r) ==> Starving() || Blocked()
      ensures old(Dry()) ==> leave && r == r0 && win.read == win.write
      ensures r.BufError? ==> r0.BufError? && old(br.avail) <= br.avail && win.room == old(win.room)
    {
      hide Codes, Inflater.Aim, AtHand, OnWay, Led, Final, BitReader.Valid, Valid, Filled, Secure, Lacking, Astray,
           Within, Blocked, Kept, Heeded, Traced, Beyond, HeadAt, Stream, BitReader.Source, BitReader.Buffer, Remembers,
           Whole, Agrees, Objects, CodesState.Valid, CodesState.Outcome, Starving;
      NeedsInput();
      match mode {
        case TYPE => leave, r := StepType(r0);
        case LENS => leave, r := StepLens(r0);
        case STORED(_) => leave, r := StepStored(r0);
        case CODES => leave, r := StepCodes(r0);
        case DRY => leave, r := StepDry(r0);
        case DONE => leave, r := StepOver();
        case BAD => leave, r := StepOver();
        case _ => leave, r := StepHead(r0);
      }
      if mode.BAD? {
        FailedHere();
      }
      if !old(mode.CODES?) {
        Unconcerned();
      }
    }

    method StepOver() returns (leave: bool, r: Status)
      requires Valid() && (mode.DONE? || mode.BAD?)
      ensures Kept() && leave && r == if mode.DONE? then StreamEnd else DataError
    {
      leave, r := true, if mode.DONE? then StreamEnd else DataError;
    }

    twostate lemma Unconcerned()
      requires old(Valid()) && Valid() && !old(mode.CODES?)
      ensures Heeded()
    {
    }

    lemma NeedsInput()
      ensures Starving() ==> !mode.DRY? && !mode.DONE? && !mode.BAD?
    {
    }

    lemma FailedHere()
      requires Valid() && mode.BAD?
      ensures Whole() == Fail(win.produced) && !Astray()
    {
      hide AtHand, OnWay, Led, Whole, Stream;
    }

    lemma DoneHere()
      requires Valid() && mode.DONE?
      ensures Whole() == Done(win.delivered, br.Pos())
    {
      hide AtHand, OnWay, Led, Whole, Stream;
    }

    // Whatever has been delivered is a prefix of what the stream decodes to.
    lemma Prefix()
      requires Valid()
      ensures win.delivered <= win.produced <= Whole().out
    {
      hide AtHand, OnWay, Led, Whole, Stream, BitReader.Source, BitReader.Buffer, Remembers, Agrees, Ready, TablesFor,
           Lengths, Rest;
      if mode.CODES? {
        RestExtends(codes.mode, codes.litLens, codes.distLens, codes.mark, Bits(), br.Pos(), win.produced);
      }
      AgreesExtends(mode, blens, cl, last, Bits(), br.Pos(), win.produced, BlockAhead(), Aim());
    }

    // Deliver what can be delivered before returning.
    method FlushOut(r0: Status) returns (r: Status)
      requires Valid()
      modifies win
      ensures Valid() && win.produced == old(win.produced) && old(win.delivered) <= win.delivered && win.room <= old(win.room)
      ensures win.room + |win.delivered| == old(win.room) + |old(win.delivered)|
      ensures r == r0 || (r0.BufError? && r.Ok?)
      ensures r.BufError? ==> win.room == old(win.room)
      ensures win.room > 0 ==> win.read == win.write
      ensures old(win.read == win.write) ==> r == r0
      ensures mode.CODES? ==> codes.Outcome() == old(codes.Outcome())
      ensures Secure() == old(Secure()) && Astray() == old(Astray())
    {
      hide AtHand, OnWay, Led, Stream, BitReader.Source, BitReader.Buffer, Remembers, Whole, Agrees, TablesOk, Ready,
           Rest;
      var room := win.room;
      win.Empty();
      win.Flush();
      win.Empty();
      r := AfterFlush(r0, win.room < room);
    }

    // Process input and output based on the current state (inflate_blocks).
    method Run(r0: Status) returns (r: Status)
      requires Valid() && Plain(r0)
      modifies this, br`next, br`avail, br`bitb, br`bitk, br`held, br`input, br`strayed, win, win.buf, codes, hufts
      ensures Valid() && Kept() && Heeded()
      ensures win.delivered <= Whole().out
      ensures r.StreamEnd? ==> Whole() == Done(win.delivered, br.Pos())
      ensures r.DataError? || r.MemError? ==> Whole() == Fail(win.produced)
      ensures !Plain(r) ==> !Astray()
      ensures Plain(r) || r.StreamEnd? || r.DataError? || r.MemError?
      ensures Plain(r) ==> Starving() || Blocked()
      ensures Plain(r) && win.room > 0 ==> Dry()
      ensures old(Dry()) ==> r == r0
      ensures r.BufError? ==> r0.BufError? && old(br.avail) <= br.avail && win.room == old(win.room)
    {
      hide CodesState.Behind, Lacking, AtHand, OnWay, Led, Final, BitReader.Valid, Window.Valid, BlockAhead, Traced,
           Beyond, HeadAt, Stream, BitReader.Source, BitReader.Buffer, Remembers, Whole, Agrees, CodesState.Valid,
           CodesState.Outcome, Starving, Blocks;
      r := r0;
      var leave := false;
      while !leave
        invariant Valid() && Kept() && Heeded()
        invariant if !leave then Plain(r) else if r.DataError? then Whole() == Fail(win.produced) && !Astray() else Returns(leave, r)
        invariant leave && Plain(r) ==> Starving() || Blocked()
        invariant r.BufError? ==> r0.BufError? && old(br.avail) <= br.avail && win.room == old(win.room)
        invariant old(Dry()) ==> r == r0 && (leave || Dry()) && win.read == win.write
        decreases !leave, br.Left(), Height(mode)
      {
        leave, r := Step(r);
      }
      r := FlushOut(r);
      Prefix();
      if r.StreamEnd? {
        DoneHere();
      }
    }

    // When a starving state has all of the input, the stream has no end, or ends within its last byte: one byte beyond the
    // end of the compressed data is enough for the decoder to finish.
    lemma Stalled()
      requires Valid() && Starving() && br.next == |br.data|
      ensures Whole().Done? ==> Whole().pos + 8 > 8 * |br.data| && 8 * |br.data| - br.Pos() <= 8
    {
      hide AtHand, OnWay, Led, Traced, Beyond, HeadAt, Stream, BitReader.Source, BitReader.Buffer, Whole, Agrees,
           Remembers, CodesState.Outcome, TablesOk, Ready, Val, Low;
      if mode.CODES? {
        codes.Stalled();
      } else if mode.DTREE? && br.bitk >= mode.bb {
        br.Peek(mode.bb);
      }
      EndsLate(mode, blens, cl, last, Bits(), br.Pos(), win.produced, BlockAhead(), Aim());
    }

    // The block at hand has not ended before the last byte taken either, if it is compressed.
    lemma Unended()
      requires Valid() && Starving()
      ensures
        var b := BlockAt(Bits(), place.pos, place.out);
        b.EndOfBlock? ==> b.pos + 8 > 8 * br.next
    {
      hide AtHand, OnWay, Led, Stream, BitReader.Source, BitReader.Buffer, Whole, Remembers, CodesState.Outcome,
           TablesOk, Ready, HeadAt, Beyond, Val, Low;
      if mode.CODES? {
        hide AtHand, OnWay, Led, Agrees;
        codes.Stalled();
      } else if mode.TABLE? || mode.BTREE? || mode.DTREE? {
        UnendedHead();
      }
    }

    lemma UnendedHead()
      requires Valid() && Starving() && (mode.TABLE? || mode.BTREE? || mode.DTREE?)
      ensures
        var h := HeadAt(Bits(), place.pos);
        h.Lens? ==> h.pos + 8 > 8 * br.next
    {
      hide AtHand, OnWay, Led, Stream, BitReader.Source, BitReader.Buffer, Whole, Remembers, CodesState.Outcome,
           TablesOk, Ready, Val, Low, HeadAt, Beyond, Agrees, Traced;
      if mode.DTREE? && br.bitk >= mode.bb {
        br.Peek(mode.bb);
      }
      HeadUnended(mode, blens, cl, last, Bits(), br.Pos(), win.produced, BlockAhead(), Aim(), br.bitk);
    }

    // In particular the first block has not, as long as less has been put out than it yields.
    lemma FirstUnended()
      requires Valid() && Starving()
      ensures
        var b := BlockAt(Stream(origin.input), origin.pos, origin.out);
        b.EndOfBlock? && |win.produced| < |b.out| ==> b.pos + 8 > 8 * br.next
    {
      hide AtHand, OnWay, Led, Stream, BitReader.Source, BitReader.Buffer, Whole, Remembers, CodesState.Outcome,
           TablesOk, Ready, HeadAt, Agrees, BlockAt;
      Unended();
      if mode.CODES? {
        codes.Stalled();
      }
    }

    // The caller makes more input and more space for output available, the input behind what is there.
    method Offer(n: nat, space: nat)
      requires Valid() && br.Given() + n <= |br.data|
      modifies br`avail, win`room
      ensures Valid() && br.Given() == old(br.Given()) + n && win.room == old(win.room) + space && br.avail == old(br.avail) + n
      ensures old(Secure()) ==> Secure()
    {
      hide AtHand, OnWay, Led, Beyond, HeadAt, Stream, BitReader.Source, BitReader.Buffer, Remembers, Whole, Agrees,
           TablesOk, Ready, Rest, Lengths;
      br.Supply(n);
      win.room := win.room + space;
    }

    // A new output area.
    method SetSpace(space: nat)
      requires Valid()
      modifies win`room
      ensures Valid() && win.room == space && Secure() == old(Secure()) && Astray() == old(Astray())
    {
      hide AtHand, OnWay, Led, Stream, BitReader.Source, BitReader.Buffer, Remembers, Whole, Agrees, TablesOk, Ready,
           Rest, Lengths, Beyond, HeadAt;
      win.room := space;
    }

    // Or the input moves to another area first, behind the byte y. No byte in front of it will be given back if the decoder waits
    // for input.
    method MoveInput(y: byte)
      requires Valid() && br.area <= br.next
      modifies br`area, br`front, br`strayed
      ensures Valid() && br.area == br.next && br.front == y
      ensures if mode.CODES? then
                && (Astray() <==> codes.Outcome().EndOfBlock? && codes.Outcome().pos + 8 <= 8 * br.area)
                && (Secure() <==> !Astray())
              else Secure() <==> br.bitk < 8 || Lacking()
      ensures Lacking() || mode.STORED? ==> Secure()
      ensures mode.DRY? ==> Final()
    {
      hide AtHand, OnWay, Led, Beyond, HeadAt, BitReader.Valid, Window.Valid, Stream, BitReader.Source,
           BitReader.Buffer, Remembers, Whole, Agrees, TablesOk, Ready, Rest, Lengths;
      if mode.CODES? && codes.Lacking() {
        codes.Stalled();
      }
      if mode.DRY? {
        DryIsLast(blens, cl, last, Bits(), br.Pos(), win.produced, BlockAhead(), Aim());
      }
      br.Move(y);
    }
  }
}
