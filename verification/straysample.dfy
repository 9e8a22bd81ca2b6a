// Data that the reader of entries decodes wrongly, and what they decode to, bit by bit.
//
// There are 16387 bytes, three more than fit into the read buffer of unzReadCurrentFile. The first block has dynamic codes: 5421
// times the literal 2 with four bits, then 109268 times the literal 0 with one bit, and an end of block with two bits, which ends
// with byte 16382, eight bits before the end of the first bufferful. The second block, the last one, has the fixed codes and one
// literal; its first eight bits make up byte 16383, the last of the first bufferful. If that byte is read again and or-ed with 32, as
// happens when the byte 32 lies before the buffer, the literal 16 becomes 48.

module StraySample {
  import opened Bits
  import opened Canonical
  import opened BitInput
  import opened Huffman
  import opened Deflate
  import opened DeflateWay
  import opened DeflateWrite
  import opened FixedTables
  import opened InflateCodes
  import opened InflateBlocks

  // ----- the codes

  function Cl(): (r: seq<nat>)
    ensures |r| == 19
  {
    [3, 3, 3, 3, 3, 2, 0, 0, 0, 0, 0, 0, 0, 0, 0, 0, 0, 0, 3]
  }

  // The literal/length code lengths.
  function Lit(): (r: seq<nat>)
    ensures |r| == 257
  {
    [1, 3, 4, 5, 5] + Repeat(0, 251) + [2]
  }

  // How they are sent, and after them the distance code length 0.
  function Runs(): seq<Run> {
    [One(1), One(3), One(4), One(5), One(5), ManyZeros(138), ManyZeros(113), One(2), One(0)]
  }

  lemma {:induction false} ClCounts(k: nat)
    ensures Count(Cl(), k) == if k == 2 then 1 else if k == 3 then 6 else if k == 0 then 12 else 0
  {
    var a := [] + seq(5, _ => 3);
    var b := a + seq(1, _ => 2);
    var c := b + seq(12, _ => 0);
    CountRun([], 3, 5, k);
    CountRun(a, 2, 1, k);
    CountRun(b, 0, 12, k);
    CountRun(c, 3, 1, k);
    assert c + seq(1, _ => 3) == Cl();
  }

  lemma ClComplete()
    ensures Accepted(Cl()) && Completed(Cl(), Counts(Cl()), 3)
  {
    hide Count, Kraft, Pow2, Longest, Cl;
    var b := Cl();
    assert Lengths(b) by { ClShape(); }
    forall k: nat
      ensures Count(b, k) == if k == 2 then 1 else if k == 3 then 6 else if k == 0 then 12 else 0
    {
      ClCounts(k);
    }
    BoundsAre(b, 2, 3);
    KraftAtLongest(b, 3);
    EndOfNothing(Counts(b), 1);
    assert End(Counts(b), 3) == 8 == Pow2(3) by { Pow2Three(); }
  }

  lemma ClShape()
    ensures Lengths(Cl()) && Sends(Cl(), 18)
  {
  }

  lemma Pow2Three()
    ensures Pow2(2) == 4 && Pow2(3) == 8 && Pow2(5) == 32
  {
  }

  lemma LitRuns()
    ensures Lit() == [] + seq(1, _ => 1) + seq(1, _ => 3) + seq(1, _ => 4) + seq(2, _ => 5) + seq(251, _ => 0) + seq(1, _ => 2)
  {
  }

  lemma {:induction false} LitCounts(k: nat)
    ensures Count(Lit(), k) == if k == 0 then 251 else if 1 <= k <= 4 then 1 else if k == 5 then 2 else 0
  {
    hide Lit, Count;
    LitRuns();
    NoCount(k);
    var a := [] + seq(1, _ => 1);
    var b := a + seq(1, _ => 3);
    var c := b + seq(1, _ => 4);
    var d := c + seq(2, _ => 5);
    var e := d + seq(251, _ => 0);
    CountRun([], 1, 1, k);
    CountRun(a, 3, 1, k);
    CountRun(b, 4, 1, k);
    CountRun(c, 5, 2, k);
    CountRun(d, 0, 251, k);
    CountRun(e, 2, 1, k);
  }

  lemma {:induction false} NoCount(k: nat)
    ensures Count([], k) == 0
  {
  }

  lemma LitComplete()
    ensures Accepted(Lit()) && Completed(Lit(), Counts(Lit()), 5) && Width(Lit(), 9) == 5
  {
    hide Count, Kraft, Pow2, Longest, Shortest, Lit;
    var b := Lit();
    assert Lengths(b) by { LitLengthsSmall(); }
    forall k: nat
      ensures Count(b, k) == if k == 0 then 251 else if 1 <= k <= 4 then 1 else if k == 5 then 2 else 0
    {
      LitCounts(k);
    }
    BoundsAre(b, 1, 5);
    KraftAtLongest(b, 5);
    var c := Counts(b);
    assert End(c, 1) == 1 && End(c, 2) == 3 && End(c, 3) == 7 && End(c, 4) == 15;
    assert End(c, 5) == 32 == Pow2(5) by { Pow2Three(); }
  }

  lemma LitLengthsSmall()
    ensures Lengths(Lit()) && Lit()[0] == 1 && Lit()[2] == 4 && Lit()[256] == 2
  {
  }

  // ----- the bits

  // How often the literal 2 is sent, and then the literal 0; how many literals that are, and how many bits.
  const TWOS := 5421
  const NULLS := 109268
  const RUN := TWOS + NULLS
  const BITS := 4 * TWOS + NULLS

  function TwoBits(n: nat): (r: seq<bool>)
    ensures |r| == 4 * n
  {
    LitLengthsSmall();
    if n == 0 then [] else Codeword(Lit(), 2) + TwoBits(n - 1)
  }

  // A last block with the fixed codes that holds the literal y, and zeros up to the end.
  function SecondBlock(y: nat): (r: seq<bool>)
    requires y < 144
    ensures |r| == 32
  {
    [true, true, false] + (FixedBits(y) + FixedBits(256)) + Zeros(14)
  }

  function SymbolBits(y: nat): (r: seq<bool>)
    requires y < 144
    ensures |r| == BITS + 34
  {
    LitLengthsSmall();
    TwoBits(TWOS) + (Zeros(NULLS) + (Codeword(Lit(), 256) + SecondBlock(y)))
  }

  function Head(): seq<bool> {
    RunsFit();
    HeadBits(Cl(), 18, Runs(), Lit(), [0])
  }

  function All(y: nat): (r: seq<bool>)
    requires y < 144
    ensures |r| == 8 * 16387
  {
    HeadSize();
    [false, false, true] + (Head() + SymbolBits(y))
  }

  // ----- the head of the first block

  // The lengths after k runs.
  function Acc(k: nat): seq<nat> {
    match k
    case 0 => []
    case 1 => [1]
    case 2 => [1, 3]
    case 3 => [1, 3, 4]
    case 4 => [1, 3, 4, 5]
    case 5 => [1, 3, 4, 5, 5]
    case 6 => [1, 3, 4, 5, 5] + Repeat(0, 138)
    case 7 => [1, 3, 4, 5, 5] + Repeat(0, 251)
    case 8 => Lit()
    case _ => Lit() + [0]
  }

  lemma AccNext(k: nat)
    requires k < 9
    ensures RunOk(Cl(), Acc(k), Runs()[k]) && Lengthened(Acc(k), Runs()[k]) == Acc(k + 1)
  {
  }

  lemma {:induction false} RunsFrom(k: nat)
    requires k <= 9
    ensures RunsMake(Cl(), Acc(k), Runs()[k..], Lit() + [0])
    decreases 9 - k
  {
    hide Cl, Lit, Acc, RunOk, Lengthened;
    if k == 9 {
      assert Acc(9) == Lit() + [0] by { LastAcc(); }
    } else {
      AccNext(k);
      RunsFrom(k + 1);
      assert Runs()[k..][1..] == Runs()[k + 1..];
    }
  }

  lemma LastAcc()
    ensures Acc(9) == Lit() + [0] && Acc(0) == []
  {
  }

  lemma RunsFit()
    ensures Lengths(Cl()) && Sends(Cl(), 18) && RunsMake(Cl(), [], Runs(), Lit() + [0])
  {
    hide Lit, Acc, RunsMake;
    RunsFrom(0);
    LastAcc();
    assert Runs()[0..] == Runs();
    assert Lengths(Cl()) && Sends(Cl(), 18) by { ClShape(); }
  }

  function RunSize(k: nat): nat {
    match k case 0 => 39 case 1 => 36 case 2 => 33 case 3 => 30 case 4 => 28 case 5 => 26 case 6 => 16 case 7 => 6 case 8 => 3 case _ => 0
  }

  lemma RunSizeIs(k: nat)
    requires k < 9
    ensures Lengths(Cl()) && RunOk(Cl(), Acc(k), Runs()[k]) && |RunBits(Cl(), Acc(k), Runs()[k])| == RunSize(k) - RunSize(k + 1)
  {
    hide Lit, Acc, Lengthened, Codeword, LsbBits;
    AccNext(k);
    assert Lengths(Cl()) by { ClShape(); }
  }

  lemma {:induction false} RunsSize(k: nat)
    requires k <= 9
    ensures Lengths(Cl()) && RunsMake(Cl(), Acc(k), Runs()[k..], Lit() + [0])
    ensures |RunsBits(Cl(), Acc(k), Runs()[k..], Lit() + [0])| == RunSize(k)
    decreases 9 - k
  {
    hide Cl, Lit, Acc, Lengthened, RunBits, RunOk;
    assert Lengths(Cl()) by { ClShape(); }
    RunsFrom(k);
    if k < 9 {
      AccNext(k);
      RunSizeIs(k);
      RunsSize(k + 1);
      assert Runs()[k..][1..] == Runs()[k + 1..];
    }
  }

  lemma HeadSize()
    ensures |Head()| == 107
  {
    hide Lit, Cl, Acc, RunsBits, RunsMake, LengthsSent, LsbBits;
    RunsFit();
    RunsSize(0);
    LastAcc();
    assert Runs()[0..] == Runs();
  }

  lemma OwnSound()
    ensures Usable(Cl()) && SoundCoding(Own(Lit(), [0]))
  {
    hide Cl, Lit, Usable, Accepted, Completed;
    ClComplete();
    LitComplete();
    UsableAccepted(Cl());
    UsableAccepted(Lit());
    LitLengthsSmall();
    NoDistance();
  }

  lemma NoDistance()
    ensures Lengths([0]) && forall i :: 0 <= i < |[0]| ==> [0][i] == 0
  {
  }

  // The first block has the codes Lit() and no distance codes; its symbols begin at bit 110.
  lemma HeadFound(y: nat)
    requires y < 144
    ensures HeadAt(All(y), 0) == Lens(Lit(), [0], 110) && !All(y)[0] && All(y)[110..] == SymbolBits(y)
  {
    hide Cl, Lit, SymbolBits, HeadBits, Usable, Sends, RunsMake, Val, Dynamic, SoundCoding, FixedLit, FixedDist;
    var bits := All(y);
    HeadSize();
    RunsFit();
    OwnSound();
    assert bits[0..] == [false, false, true] + (Head() + SymbolBits(y));
    KindRead(bits, 0, false, false, true, Head() + SymbolBits(y));
    DeflateWrite.HeadRead(bits, 3, Cl(), 18, Runs(), Lit(), [0], SymbolBits(y));
  }

  // ----- the symbols

  function Nulls(n: nat): (r: seq<byte>)
    ensures |r| == n && forall i :: 0 <= i < n ==> r[i] == 0
  {
    seq(n, _ => 0)
  }

  // Literal 0 is sent as a single zero bit.
  lemma LiteralZero()
    ensures Lengths(Lit()) && Codeword(Lit(), 0) == [false] && Lengths([0]) && |Codeword(Lit(), 256)| == 2
  {
    hide Lit;
    LitLengthsSmall();
    assert Rank(Lit(), 0) == 0 by { assert Lit()[..0] == []; }
    assert First(Counts(Lit()), 1) == 0;
  }

  lemma OneZero(bits: seq<bool>, pos: nat, out: seq<byte>)
    requires pos < |bits| && !bits[pos]
    ensures Lengths(Lit()) && Lengths([0]) && Codes(Lit(), [0], bits, pos, out) == Codes(Lit(), [0], bits, pos + 1, out + [0])
  {
    hide Lit, Codeword, Completed;
    LiteralZero();
    LitComplete();
    LitLengthsSmall();
    assert [false] <= bits[pos..];
    DecodeListed(Lit(), Counts(Lit()), 5, 0, bits[pos..]);
  }

  lemma {:induction false} ZeroRun(bits: seq<bool>, pos: nat, m: nat, out: seq<byte>)
    requires pos + m <= |bits| && forall i :: pos <= i < pos + m ==> !bits[i]
    ensures Lengths(Lit()) && Lengths([0]) && Codes(Lit(), [0], bits, pos, out) == Codes(Lit(), [0], bits, pos + m, out + Nulls(m))
    decreases m
  {
    hide Lit, Codes;
    LiteralZero();
    if m == 0 {
      assert out + Nulls(0) == out;
    } else {
      OneZero(bits, pos, out);
      ZeroRun(bits, pos + 1, m - 1, out + [0]);
      assert out + [0] + Nulls(m - 1) == out + Nulls(m);
    }
  }

  lemma {:induction false} BlockEnd(bits: seq<bool>, pos: nat, out: seq<byte>)
    requires Lengths(Lit()) && pos <= |bits| && Codeword(Lit(), 256) <= bits[pos..]
    ensures Lengths([0]) && pos + 2 <= |bits| && Codes(Lit(), [0], bits, pos, out) == EndOfBlock(pos + 2, out)
  {
    hide Lit, Codeword, Completed;
    LitComplete();
    LitLengthsSmall();
    DecodeListed(Lit(), Counts(Lit()), 5, 256, bits[pos..]);
  }

  // Where the codeword for the end of the block begins, and where it ends.
  const ZEROS := 110 + 4 * TWOS
  const MARK := 110 + BITS
  const TURN := 131064

  lemma InRun(y: nat, i: nat)
    requires y < 144 && ZEROS <= i < MARK
    ensures !All(y)[i]
  {
    hide All, TwoBits, SecondBlock, Codeword;
    HeadFound(y);
    Next(All(y), 110, TwoBits(TWOS), Zeros(NULLS) + (Codeword(Lit(), 256) + SecondBlock(y)));
    assert All(y)[ZEROS..][i - ZEROS] == All(y)[i];
  }

  lemma AfterRun(y: nat)
    requires y < 144
    ensures Lengths(Lit()) && Codeword(Lit(), 256) <= All(y)[MARK..] && All(y)[TURN..] == SecondBlock(y)
  {
    hide All, TwoBits, SecondBlock, Codeword, Lit;
    HeadFound(y);
    LiteralZero();
    LitLengthsSmall();
    Next(All(y), 110, TwoBits(TWOS), Zeros(NULLS) + (Codeword(Lit(), 256) + SecondBlock(y)));
    Next(All(y), ZEROS, Zeros(NULLS), Codeword(Lit(), 256) + SecondBlock(y));
    Next(All(y), MARK, Codeword(Lit(), 256), SecondBlock(y));
  }

  function Twos(n: nat): (r: seq<byte>)
    ensures |r| == n && forall i :: 0 <= i < n ==> r[i] == 2
  {
    seq(n, _ => 2)
  }

  // What the first block yields.
  function Literals(): (r: seq<byte>)
    ensures |r| == RUN && forall i :: TWOS <= i < RUN ==> r[i] == 0
  {
    Twos(TWOS) + Nulls(NULLS)
  }

  lemma OneTwo(bits: seq<bool>, pos: nat, out: seq<byte>, t: seq<bool>)
    requires Lengths(Lit()) && Lengths([0]) && pos <= |bits| && bits[pos..] == Codeword(Lit(), 2) + t
    ensures pos + 4 <= |bits| && bits[pos + 4..] == t
    ensures Codes(Lit(), [0], bits, pos, out) == Codes(Lit(), [0], bits, pos + 4, out + [2])
  {
    hide Lit, Codeword, Completed, Decode;
    LitComplete();
    LitLengthsSmall();
    Next(bits, pos, Codeword(Lit(), 2), t);
    DecodeListed(Lit(), Counts(Lit()), 5, 2, bits[pos..]);
  }

  lemma {:induction false} TwoRun(bits: seq<bool>, pos: nat, n: nat, out: seq<byte>, t: seq<bool>)
    requires Lengths(Lit()) && Lengths([0]) && pos <= |bits| && bits[pos..] == TwoBits(n) + t
    ensures pos + 4 * n <= |bits|
    ensures Codes(Lit(), [0], bits, pos, out) == Codes(Lit(), [0], bits, pos + 4 * n, out + Twos(n))
    decreases n
  {
    hide Lit, Codes, Codeword;
    if n == 0 {
      assert out + Twos(0) == out;
    } else {
      assert bits[pos..] == Codeword(Lit(), 2) + (TwoBits(n - 1) + t);
      OneTwo(bits, pos, out, TwoBits(n - 1) + t);
      TwoRun(bits, pos + 4, n - 1, out + [2], t);
      assert out + [2] + Twos(n - 1) == out + Twos(n);
    }
  }

  // From every place in the run of zero bits on, the block decodes to as many zero bytes as bits are left of the run.
  lemma FromRun(y: nat, pos: nat, out: seq<byte>)
    requires y < 144 && ZEROS <= pos <= MARK
    ensures Lengths(Lit()) && Lengths([0]) && Codes(Lit(), [0], All(y), pos, out) == EndOfBlock(TURN, out + Nulls(MARK - pos))
  {
    hide All, Lit, Codes, Codeword;
    forall i | pos <= i < MARK
      ensures !All(y)[i]
    {
      InRun(y, i);
    }
    ZeroRun(All(y), pos, MARK - pos, out);
    AfterRun(y);
    BlockEnd(All(y), MARK, out + Nulls(MARK - pos));
  }

  lemma FirstBlock(y: nat)
    requires y < 144
    ensures BlockAt(All(y), 0, []) == EndOfBlock(TURN, Literals())
  {
    hide All, Lit, Codes, HeadAt, TwoBits, Codeword, Twos, Nulls;
    HeadFound(y);
    LiteralZero();
    TwoRun(All(y), 110, TWOS, [], Zeros(NULLS) + (Codeword(Lit(), 256) + SecondBlock(y)));
    FromRun(y, ZEROS, [] + Twos(TWOS));
    assert [] + Twos(TWOS) + Nulls(NULLS) == Literals();
  }

  // The next symbol is a literal, or the end of the block when nothing is missing.
  lemma OneSymbol(bits: seq<bool>, pos: nat, out: seq<byte>)
    requires Lengths(Lit()) && Lengths([0]) && pos <= |bits| && Codes(Lit(), [0], bits, pos, out) == EndOfBlock(TURN, Literals())
    ensures
      var d := Decode(Lit(), bits[pos..]);
      && d.Symbol? && d.used <= 15 && pos + d.used <= |bits|
      && if d.s < 256 then |out| < RUN && Codes(Lit(), [0], bits, pos + d.used, out + [d.s]) == EndOfBlock(TURN, Literals())
         else pos + d.used == TURN
  {
    hide Lit, Decode, Literals;
    CodesAhead(Lit(), [0], bits, pos, out);
  }

  // No symbol of the block begins behind the run, so in the run of zero bits the place tells how much has been decoded.
  lemma {:induction false} Where(y: nat, pos: nat, out: seq<byte>)
    requires y < 144 && Lengths(Lit()) && Lengths([0]) && 110 <= pos <= |All(y)|
    requires Codes(Lit(), [0], All(y), pos, out) == EndOfBlock(TURN, Literals())
    ensures pos <= MARK && (ZEROS <= pos ==> |out| == RUN - (MARK - pos))
  {
    hide All, Lit, Decode;
    NotBehindMark(All(y), pos, out);
    if ZEROS <= pos {
      FromRun(y, pos, out);
    }
  }

  lemma {:induction false} NotBehindMark(bits: seq<bool>, pos: nat, out: seq<byte>)
    requires Lengths(Lit()) && Lengths([0]) && pos <= |bits| && Codes(Lit(), [0], bits, pos, out) == EndOfBlock(TURN, Literals())
    ensures pos <= MARK
  {
    hide Lit, Decode, Codes, Literals;
    LitLengthsSmall();
    OneSymbol(bits, pos, out);
    var d := Decode(Lit(), bits[pos..]);
    if d.s < 256 {
      OneSymbol(bits, pos + d.used, out + [d.s]);
      CodesAhead(Lit(), [0], bits, pos + d.used, out + [d.s]);
    }
  }

  // When all but one of its literals have been decoded, that run has been reached.
  lemma {:induction false} Late(y: nat, pos: nat, out: seq<byte>)
    requires y < 144 && Lengths(Lit()) && Lengths([0]) && pos <= |All(y)| && |out| >= RUN - 1
    requires Codes(Lit(), [0], All(y), pos, out) == EndOfBlock(TURN, Literals())
    ensures ZEROS <= pos
  {
    hide All, Lit, Decode, Codes, Literals;
    OneSymbol(All(y), pos, out);
    var d := Decode(Lit(), All(y)[pos..]);
    if d.s < 256 {
      OneSymbol(All(y), pos + d.used, out + [d.s]);
    }
  }

  lemma OneLiteral(y: byte, out: seq<byte>)
    requires y < 144
    ensures AllWritable(Fixed, [Literal(y)]) && ItemsBits(Fixed, [Literal(y)]) == FixedBits(y) + FixedBits(256)
    ensures Expanded(out, [Literal(y)]) == out + [y]
  {
    hide FixedBits;
    var items := [Literal(y)];
    assert items[1..] == [] && Writable(Fixed, items[0]);
    assert ItemsBits(Fixed, items) == ItemBits(Fixed, items[0]) + ItemsBits(Fixed, []);
    assert Expanded(out, items) == Expanded(out + [y], []);
  }

  // The block behind the first one.
  lemma {:induction false} Second(bits: seq<bool>, pos: nat, y: byte, out: seq<byte>)
    requires y < 144 && pos <= |bits| && bits[pos..] == SecondBlock(y)
    ensures Blocks(bits, pos, out) == Done(out + [y], pos + 18)
  {
    hide CodeBits, Blocks, ItemsBits, Expanded, FixedBits;
    var c := FixedBlock([Literal(y)]);
    OneLiteral(y, out);
    assert StreamBits([c], pos) == ChunkBits(c, true, pos) + [];
    StreamRead(bits, pos, [c], out, Zeros(14));
  }

  // ----- the data

  function Data(y: nat): (r: seq<byte>)
    requires y < 144
    ensures |r| == 16387
  {
    hide All;
    Pack(All(y))
  }

  lemma DataStream(y: nat)
    requires y < 144
    ensures Stream(Data(y)) == All(y)
  {
    hide All, Pack, Stream;
    StreamOfPack(All(y));
  }

  // The run, and the literal.
  function Output(y: byte): (r: seq<byte>)
    ensures |r| == RUN + 1 && r[RUN] == y
  {
    Literals() + [y]
  }

  // What the data decode to.
  lemma DataDecoded(data: seq<byte>, y: nat)
    requires y < 144 && data == Data(y)
    ensures Inflate(data) == Done(Output(y), 131082)
  {
    hide All, Pack, Stream, Data, Codes, HeadAt, SecondBlock;
    DataStream(y);
    AfterRun(y);
    Second(All(y), TURN, y, Literals());
    FirstBlock(y);
    FirstThenRest(y);
  }

  lemma DataTurned(data: seq<byte>, y: nat)
    requires y < 144 && data == Data(y)
    ensures OutcomeFrom(Origin(data, TURN, Literals())) == Done(Output(y), 131082)
  {
    hide All, Pack, Stream, Data, Codes, HeadAt, SecondBlock, Blocks;
    DataStream(y);
    AfterRun(y);
    Second(All(y), TURN, y, Literals());
  }

  lemma FirstThenRest(y: nat)
    requires y < 144
    ensures Blocks(All(y), 0, []) == Blocks(All(y), TURN, Literals())
  {
    hide All, Blocks, BlockAt, Val, Literals;
    HeadFound(y);
    FirstBlock(y);
    BlockByBlock(All(y), 0, []);
    AfterMore(All(y), EndOfBlock(TURN, Literals()));
  }

  // The data with literal 48 are those with literal 16 after byte 16383 has been or-ed with 32.
  lemma DataOred()
    ensures Data(48) == Data(16)[16383 := OrByte(Data(16)[16383], 32)]
  {
    hide Data, Or;
    forall i | 0 <= i < 16387
      ensures Data(48)[i] == Data(16)[16383 := OrByte(Data(16)[16383], 32)][i]
    {
      if i == 16383 {
        TurnByte(16);
        TurnByte(48);
        OrOfTurn();
      } else {
        SameElsewhere(i);
      }
    }
  }

  lemma OrOfTurn()
    ensures Or(19, 32) == 51
  {
  }

  lemma TurnByte(y: nat)
    requires y == 16 || y == 48
    ensures Data(y)[16383] == 3 + 16 + if y == 48 then 32 else 0
  {
    hide All;
    AfterRun(y);
    TurnBits(y);
    assert All(y)[8 * 16383..8 * 16383 + 8] == All(y)[TURN..][..8];
  }

  lemma TurnBits(y: nat)
    requires y == 16 || y == 48
    ensures SecondBlock(y)[..8] == [true, true, false, false, true, y == 48, false, false]
  {
    hide CodeBits;
    CodeOfTurn();
    assert SecondBlock(y) == [true, true, false] + (CodeBits(48 + y, 8) + (FixedBits(256) + Zeros(14)));
  }

  lemma CodeOfTurn()
    ensures CodeBits(64, 8) == [false, true, false, false, false, false, false, false]
    ensures CodeBits(96, 8) == [false, true, true, false, false, false, false, false]
  {
  }

  lemma SameElsewhere(i: nat)
    requires i < 16387 && i != 16383
    ensures Data(48)[i] == Data(16)[i]
  {
    hide All, PackByte;
    var a, b := All(16)[8 * i..8 * i + 8], All(48)[8 * i..8 * i + 8];
    forall j | 0 <= j < 8
      ensures a[j] == b[j]
    {
      SameBit(8 * i + j);
    }
    assert a == b;
  }

  lemma SameBit(k: nat)
    requires k < 8 * 16387 && !(131064 <= k < 131072)
    ensures All(16)[k] == All(48)[k]
  {
    hide SecondBlock, All;
    if k < 131064 {
      SameFront(k);
    } else {
      AfterRun(16);
      AfterRun(48);
      SameTail(k - TURN);
      assert All(16)[k] == All(16)[TURN..][k - TURN] && All(48)[k] == All(48)[TURN..][k - TURN];
    }
  }

  lemma SameTail(j: nat)
    requires 8 <= j < 32
    ensures SecondBlock(16)[j] == SecondBlock(48)[j]
  {
    hide CodeBits;
    CodeOfTurn();
    var r := FixedBits(256) + Zeros(14);
    assert SecondBlock(16) == [true, true, false] + (CodeBits(64, 8) + r);
    assert SecondBlock(48) == [true, true, false] + (CodeBits(96, 8) + r);
  }

  lemma SameFront(k: nat)
    requires k < TURN
    ensures All(16)[k] == All(48)[k]
  {
    hide SecondBlock, Codeword, Lit, TwoBits, HeadBits;
    LiteralZero();
    HeadSize();
    var s := TwoBits(TWOS) + (Zeros(NULLS) + Codeword(Lit(), 256));
    var h := [false, false, true] + (Head() + s);
    assert |h| == TURN;
    assert SymbolBits(16) == s + SecondBlock(16) && SymbolBits(48) == s + SecondBlock(48);
    assert All(16) == h + SecondBlock(16) && All(48) == h + SecondBlock(48);
  }
}
