// Reading the data of module StraySample through unzReadCurrentFile: a large read and the rest, and 16384 bytes at a time like
// TUnzip::Unzip. When 81920 bytes have been delivered the window is full, the literal that does not fit waits in mode LIT, and all of the
// first bufferful has been taken, with the end of the block among the bits held. The next read fills the buffer again, and at the end of
// the block WASH steps back in front of it.

module StrayRead {
  import opened Bits
  import opened Canonical
  import opened BitInput
  import opened RingWindow
  import opened Huffman
  import opened Deflate
  import opened DeflateWay
  import opened InflateCodes
  import opened InflateBlocks
  import opened RawInflate
  import opened Crc
  import opened ZipRead
  import opened StraySample

  // How much is asked for first: the rest of the run fills the window.
  const FIRST := RUN - WINDOW_SIZE - 1

  // What is pending fits into the window.
  lemma Capacity(w: Window)
    requires w.Valid()
    ensures |w.produced| <= |w.delivered| + w.buf.Length
  {
    hide Remembers;
  }

  // So after that read the first block is still at hand.
  lemma FirstAtHand(b: Inflater)
    requires b.Valid() && b.origin == Origin(Data(16), 0, []) && |b.win.delivered| <= FIRST
    ensures b.place == Spot(0, [])
  {
    hide Agrees, Inflater.Traced, HeadAt, BlockAt, Stream, Data, Literals, BitReader.Source, BitReader.Buffer,
         Inflater.Whole;
    Capacity(b.win);
    DataStream(16);
    FirstBlock(16);
  }

  // Its head has been read,
  lemma BehindHead(b: Inflater)
    requires b.Valid() && b.origin == Origin(Data(16), 0, []) && b.place == Spot(0, []) && b.Starving() && b.win.produced != []
    ensures b.mode.CODES?
  {
    hide Agrees, Beyond, BlockAt, Stream, Data, Literals, All, BitReader.Source, BitReader.Buffer, Inflater.Whole,
         CodesState.Outcome, CodesState.Valid, HeadAt, Lit, Inflater.Within;
    NotStored(b);
  }

  lemma NoHead(m: BlockMode, blens: seq<nat>, cl: seq<nat>, last: bool, bits: seq<bool>, pos: nat, out: seq<byte>, b: Block, goal: Goal)
    requires Agrees(m, blens, cl, last, bits, pos, out, b, goal) && goal.head.Lens?
    ensures !m.LENS? && !m.STORED?
    ensures m.TABLE? || m.BTREE? || m.DTREE? ==> pos <= goal.head.pos
  {
    hide Under, CodeLengths, BitLengths, Dynamic, InflateBlocks.Filled, NumLengths, Lengths;
  }

  lemma AllDecoded(blens: seq<nat>, cl: seq<nat>, last: bool, bits: seq<bool>, pos: nat, out: seq<byte>, b: Block, goal: Goal)
    requires Agrees(DRY, blens, cl, last, bits, pos, out, b, goal)
    ensures goal.whole == Done(out, pos)
  {
  }

  // and it is not over.
  lemma NotOver(b: Inflater)
    requires b.Valid() && b.origin == Origin(Data(16), 0, []) && |b.win.delivered| <= FIRST
    ensures !b.mode.DRY?
  {
    hide Inflater.Traced, Beyond, Stream, Data, All, BitReader.Source, BitReader.Buffer, CodesState.Outcome,
         CodesState.Valid, HeadAt, OutcomeFrom, Agrees, Output;
    Capacity(b.win);
    FromTheStart(Data(16));
    DataDecoded(Data(16), 16);
    if b.mode.DRY? {
      AllDecoded(b.blens, b.cl, b.last, b.Bits(), b.br.Pos(), b.win.produced, b.BlockAhead(), b.Aim());
    }
  }

  lemma NotStored(b: Inflater)
    requires b.Valid() && b.origin == Origin(Data(16), 0, []) && b.place == Spot(0, [])
    ensures !b.mode.STORED?
  {
    hide Inflater.Within, Beyond, BlockAt, Stream, Data, All, BitReader.Source, BitReader.Buffer, Inflater.Whole,
         CodesState.Outcome, CodesState.Valid, HeadAt, Agrees, Lit;
    DataStream(16);
    HeadFound(16);
    if b.mode.STORED? {
      NoHead(b.mode, b.blens, b.cl, b.last, b.Bits(), b.br.Pos(), b.win.produced, b.BlockAhead(), b.Aim());
    }
  }

  // Its symbols are being decoded.
  lemma InSymbols(b: Inflater)
    requires b.Valid() && b.br.data == Data(16) && b.origin == Origin(Data(16), 0, []) && 0 < |b.win.delivered| <= FIRST
    requires b.Starving() || b.Blocked()
    ensures b.mode.CODES? && b.Within() && Lengths(Lit()) && b.codes.litLens == Lit() && b.codes.distLens == [0] && 110 <= b.br.Pos()
    ensures b.br.input == Data(16) && b.codes.Outcome() == EndOfBlock(TURN, Literals())
  {
    hide Agrees, Beyond, BlockAt, Stream, Data, Literals, All, BitReader.Source, BitReader.Buffer, Inflater.Whole,
         CodesState.Outcome, HeadAt, Lit;
    FirstAtHand(b);
    if b.Blocked() {
      NotOver(b);
      NotStored(b);
    } else {
      BehindHead(b);
    }
    DataStream(16);
    HeadFound(16);
    FirstBlock(16);
    LiteralZero();
  }

  // While the window is full a literal of the block is waiting for space.
  lemma LiteralWaiting(c: CodesState)
    requires c.Valid() && c.litLens == Lit() && c.distLens == [0] && c.br.input == Data(16) && 110 <= c.br.Pos() && |c.win.delivered| <= FIRST
    requires c.Outcome() == EndOfBlock(TURN, Literals()) && c.Blocked()
    ensures c.mode.LIT? && c.win.produced + [c.mode.lit] <= Literals() && |c.win.produced| + 1 >= |c.win.delivered| + WINDOW_SIZE
    ensures Codes(Lit(), [0], All(16), c.br.Pos(), c.win.produced + [c.mode.lit]) == EndOfBlock(TURN, Literals())
  {
    hide TablesOk, Data, Stream, BitReader.Source, BitReader.Buffer, Remembers, All, Codes, AtTable, Lit, Literals;
    Capacity(c.win);
    c.Finished();
    DataStream(16);
    if c.mode.LIT? {
      LiteralZero();
      RestExtends(LIT(c.mode.lit), Lit(), [0], c.mark, c.Bits(), c.br.Pos(), c.win.produced);
    }
  }

  // After FIRST bytes it is the last literal but one or the last.
  lemma LastWaiting(c: CodesState)
    requires c.Valid() && c.litLens == Lit() && c.distLens == [0] && c.br.input == Data(16) && 110 <= c.br.Pos() && |c.win.delivered| == FIRST
    requires c.Outcome() == EndOfBlock(TURN, Literals()) && c.Blocked()
    ensures c.mode == LIT(0) && c.br.Pos() >= 131061
  {
    hide CodesState.Outcome, TablesOk, Ready, Rest, Data, Stream, BitReader.Source, BitReader.Buffer, Remembers, All,
         Codes, AtTable, Lit, Literals;
    LiteralWaiting(c);
    LiteralZero();
    DataStream(16);
    var out := c.win.produced + [c.mode.lit];
    Late(16, c.br.Pos(), out);
    Where(16, c.br.Pos(), out);
    assert out[|out| - 1] == Literals()[|out| - 1];
  }

  // Before that there is input left.
  lemma InputLeft(b: Inflater)
    requires b.Valid() && b.br.data == Data(16) && b.origin == Origin(Data(16), 0, []) && 0 < |b.win.delivered| < FIRST - 16
    requires b.br.Given() == UNZ_BUFSIZE && (b.Starving() || b.Blocked())
    ensures b.br.avail > 0
  {
    hide Agrees, Beyond, BlockAt, Stream, Data, Literals, All, BitReader.Source, BitReader.Buffer, Inflater.Whole,
         CodesState.Outcome, HeadAt, Lit, TablesOk, Ready, AtHand, OnWay, Led;
    InSymbols(b);
    if b.Starving() {
      b.codes.Stalled();
    }
    LiteralWaiting(b.codes);
    Capacity(b.win);
    LiteralZero();
    DataStream(16);
    Where(16, b.br.Pos(), b.win.produced + [b.codes.mode.lit]);
  }

  // So all of the bufferful has been taken.
  lemma AllTaken(c: CodesState)
    requires c.Valid() && c.litLens == Lit() && c.mode == LIT(0) && c.br.Pos() >= 131061
    ensures c.br.next >= UNZ_BUFSIZE
  {
    hide TablesFor, Data, Stream, BitReader.Source, BitReader.Buffer, Remembers, Lit, Width, Lengths;
    LitComplete();
    LitLengthsSmall();
  }

  // There is a further block.
  lemma NotLast(b: Inflater)
    requires b.Valid() && b.origin == Origin(Data(16), 0, []) && b.mode.CODES? && b.codes.Outcome() == EndOfBlock(TURN, Literals())
    ensures !b.last
  {
    hide Inflater.Traced, Beyond, Stream, Data, All, BitReader.Source, BitReader.Buffer, CodesState.Outcome, HeadAt,
         OutcomeFrom, Agrees, TablesOk, Ready;
    FromTheStart(Data(16));
    DataDecoded(Data(16), 16);
    if b.last {
      LastOne(b.blens, b.cl, b.Bits(), b.br.Pos(), b.win.produced, TURN, Literals(), b.Aim());
    }
  }

  lemma LastOne(blens: seq<nat>, cl: seq<nat>, bits: seq<bool>, pos: nat, out: seq<byte>, p: nat, o: seq<byte>, goal: Goal)
    requires Agrees(CODES, blens, cl, true, bits, pos, out, EndOfBlock(p, o), goal)
    ensures goal.whole.Fail? || goal.whole == Done(o, p)
  {
    hide Blocks;
    if p <= |bits| {
      assert After(bits, p, o, true) == Done(o, p);
    }
  }

  // The state after the first read.
  lemma AtEdge(b: Inflater)
    requires b.Valid() && b.br.data == Data(16) && b.origin == Origin(Data(16), 0, []) && |b.win.delivered| == FIRST
    requires b.br.Given() == 0 || b.br.Given() == UNZ_BUFSIZE
    requires b.Starving() || b.Blocked()
    ensures b.mode.CODES? && !b.last && b.codes.Outcome() == EndOfBlock(TURN, Literals()) && b.br.input == Data(16)
    ensures b.br.avail == 0 && b.br.next == b.br.Given() == UNZ_BUFSIZE
  {
    hide Agrees, Beyond, BlockAt, Stream, Data, Literals, All, BitReader.Source, BitReader.Buffer, Inflater.Whole,
         CodesState.Outcome, HeadAt, Lit, TablesOk, Ready;
    InSymbols(b);
    if b.Starving() {
      b.codes.Stalled();
    }
    LastWaiting(b.codes);
    AllTaken(b.codes);
    NotLast(b);
  }

  // The entry is being read, and the stream has not been left.
  ghost predicate Early(f: EntryReader)
    reads f, f.z, f.z.blocks, f.z.blocks.br, f.z.blocks.win, f.z.blocks.win.buf, f.z.blocks.codes, f.z.blocks.codes.win
  {
    && f.Valid() && !f.stored && f.data == Data(16) && f.Intact() && |f.given| <= FIRST
    && (f.given == [] ==> f.z.Given() == 0) && (f.given != [] ==> f.z.Given() == UNZ_BUFSIZE && (f.z.AtRest() || f.z.Whole().Fail?))
  }

  lemma EarlyOrigin(f: EntryReader)
    requires f.Valid() && !f.stored && f.data == Data(16) && f.Intact()
    ensures f.z.blocks.origin == Origin(Data(16), 0, []) && f.z.Whole() == Done(Output(16), 131082)
  {
    hide ZStream.Valid, ZStream.Sure, Data, Output, OutcomeFrom, Inflate, Crc32, Led;
    f.TurnsTaken();
    NotTurned(Data(16), f.z.blocks.origin);
    DataDecoded(Data(16), 16);
  }

  lemma Beginning(f: EntryReader)
    requires f.Valid() && !f.stored && f.data == Data(16) && f.Intact() && f.given == [] && f.z.Given() == 0
    ensures Early(f)
  {
    hide EntryReader.Valid, EntryReader.Intact, Data;
  }

  lemma EarlySteady(f: EntryReader)
    requires Early(f) && (f.given == [] || |f.given| < FIRST - 16)
    ensures f.Steady() && (f.given != [] ==> f.z.Avail() > 0)
  {
    hide Data, Crc32, Inflater.Valid, Led, Inflater.Starving, Inflater.Blocked;
    EarlyOrigin(f);
    if f.given != [] {
      InputLeft(f.z.blocks);
    }
  }

  // One bufferful holds the whole first block.
  lemma FedOnce(f: EntryReader, start: nat, dry: bool, total: nat)
    requires f.Valid() && !f.stored && f.data == Data(16) && f.Fed(start, dry, total) && f.z.blocks.turns == [] && total <= RUN
    requires start <= f.z.Given() && (start == 0 || (start == UNZ_BUFSIZE && !dry))
    ensures f.z.Given() == start || f.z.Given() == UNZ_BUFSIZE
  {
    hide Data, Literals, Crc32, ZStream.Valid, Stream, BlockAt, All;
    DataStream(16);
    FirstBlock(16);
  }

  const FRONT: byte := 32

  // Where the stream goes on.
  ghost function Strayed(): Origin {
    Origin(Data(48), TURN, Literals())
  }

  // After the first read of the bufferful the next one will slip.
  lemma WillSlip(f: EntryReader)
    requires Early(f) && |f.given| == FIRST
    ensures f.Ahead(true, FRONT) == Goes(Strayed()) && f.z.Avail() == 0 && f.restCompressed > 0
  {
    hide Agrees, Beyond, BlockAt, Stream, Data, Literals, All, BitReader.Source, BitReader.Buffer, OutcomeFrom,
         CodesState.Outcome, HeadAt, Lit, TablesOk, Ready, Inflater.Valid, Inflater.Secure, Inflater.Starving,
         Inflater.Blocked, Crc32, Output, AtHand, OnWay, Led;
    EarlyOrigin(f);
    DataStream(16);
    FirstBlock(16);
    DataOred();
    AtEdge(f.z.blocks);
    if f.z.Astray() {
      f.InFront();
    }
  }

  // The stream has been left, or will be at the end of the first block.
  ghost predicate Turning(f: EntryReader)
    reads f, f.z, f.z.blocks, f.z.blocks.br, f.z.blocks.win, f.z.blocks.win.buf, f.z.blocks.codes
  {
    && f.Valid() && !f.stored && f.data == Data(16) && f.restCompressed == 0 && f.Follows(Goes(Strayed()), [])
  }

  // In both cases there are bytes to spare behind the data.
  lemma TurningWhole(f: EntryReader)
    requires Turning(f)
    ensures f.z.Whole() == Done(Output(if f.z.Astray() then 16 else 48), 131082) && EndsWithin(f.z.Whole(), |f.data|)
  {
    hide ZStream.Valid, ZStream.Sure, ZStream.AstrayTo, Data, Output, OutcomeFrom, Inflate, Crc32, Led, Literals;
    f.z.Settled();
    if f.z.Astray() {
      f.TurnsTaken();
      NotTurned(Data(16), f.z.blocks.origin);
      DataDecoded(Data(16), 16);
    } else {
      DataTurned(Data(48), 48);
    }
  }

  // Having read everything, it has been left.
  lemma HasStrayed(f: EntryReader)
    requires Turning(f) && |f.given| > RUN
    ensures !f.z.Astray()
  {
    hide Agrees, Beyond, Stream, Data, Literals, BitReader.Source, BitReader.Buffer, OutcomeFrom, CodesState.Outcome,
         HeadAt, TablesOk, Ready, Inflater.Traced, Inflater.Whole, Crc32, Or, Led;
    if f.z.Astray() {
      f.z.blocks.codes.EndAhead();
      Capacity(f.z.blocks.win);
    }
  }

  // A read while the block at hand does not end with the bufferful,
  method EarlyRead(f: EntryReader, len: nat) returns (out: seq<byte>)
    requires Early(f) && f.restUncompressed + |f.given| == RUN + 1 && 0 < len <= FIRST - |f.given| && (f.given == [] || |f.given| < FIRST - 16)
    modifies f, f.z, f.z.blocks, f.z.blocks.br, f.z.blocks.win, f.z.blocks.win.buf, f.z.blocks.codes, f.z.blocks.hufts
    ensures Early(f) && f.given == old(f.given) + out && |out| == len && f.restUncompressed == old(f.restUncompressed) - len
  {
    hide EntryReader.DeflatedValid, EntryReader.Ahead, EntryReader.Follows, EntryReader.Fed, EntryReader.Steady,
         ZStream.AtRest, ZStream.Sure, Data, Output, OutcomeFrom, Inflate, Crc32, Literals;
    EarlySteady(f);
    f.Amounts();
    out := f.Read(len, FRONT);
    f.Amounts();
    EarlyOrigin(f);
    FedOnce(f, old(f.z.Given()), old(f.z.Avail() == 0), |old(f.given)| + len);
  }

  // the one after it,
  method StrayingRead(f: EntryReader, len: nat) returns (out: seq<byte>)
    requires Early(f) && f.restUncompressed + |f.given| == RUN + 1 && 0 < len && |f.given| == FIRST
    modifies f, f.z, f.z.blocks, f.z.blocks.br, f.z.blocks.win, f.z.blocks.win.buf, f.z.blocks.codes, f.z.blocks.hufts
    ensures Turning(f) && f.given == old(f.given) + out && |out| == Min(len, old(f.restUncompressed)) && f.restUncompressed == old(f.restUncompressed) - |out|
  {
    hide EntryReader.DeflatedValid, EntryReader.Ahead, EntryReader.Follows, EntryReader.Steady, ZStream.AtRest,
         ZStream.Sure, Data, Output, OutcomeFrom, Inflate, Crc32, Literals;
    WillSlip(f);
    f.Amounts();
    out := f.Read(len, FRONT);
    f.Amounts();
    TurningWhole(f);
  }

  lemma LateCourse(f: EntryReader, reading: bool)
    requires Turning(f)
    ensures f.Ahead(reading, FRONT) == if f.z.Astray() then Goes(Strayed()) else Stays
    ensures if f.z.Astray() then f.z.blocks.turns == [] else f.z.blocks.turns != [] && f.z.blocks.origin == Strayed()
  {
    hide ZStream.Valid, ZStream.Sure, ZStream.AstrayTo, Data, Crc32, Literals;
    f.z.Settled();
  }

  lemma StillThere(f: EntryReader, before: seq<Turn>, o: Origin)
    requires f.Valid() && !f.stored && f.Follows(Stays, before) && before != [] && Led(f.data, before, o) && o == Strayed()
    ensures f.Follows(Goes(Strayed()), [])
  {
    hide EntryReader.Valid, ZStream.Valid, ZStream.Sure, ZStream.Astray, Data, Literals, AfterTurns, Possible;
    f.TurnsTaken();
  }

  // and those that follow.
  method LateRead(f: EntryReader, len: nat) returns (out: seq<byte>)
    requires Turning(f) && f.restUncompressed + |f.given| == RUN + 1
    modifies f, f.z, f.z.blocks, f.z.blocks.br, f.z.blocks.win, f.z.blocks.win.buf, f.z.blocks.codes, f.z.blocks.hufts
    ensures Turning(f) && f.given == old(f.given) + out && |out| == Min(len, old(f.restUncompressed)) && f.restUncompressed == old(f.restUncompressed) - |out|
  {
    hide EntryReader.DeflatedValid, EntryReader.Fed, EntryReader.Steady, ZStream.AtRest, ZStream.Sure, Data, Output,
         OutcomeFrom, Inflate, Crc32, Literals, EntryReader.Ahead, EntryReader.Follows;
    LateCourse(f, len > 0 && f.restUncompressed > 0);
    f.TurnsTaken();
    ghost var course, before, origin := f.Ahead(len > 0 && f.restUncompressed > 0, FRONT), f.z.blocks.turns, f.z.blocks.origin;
    out := f.Read(len, FRONT);
    assert f.Follows(course, before);
    if course.Stays? {
      StillThere(f, before, origin);
    }
    TurningWhole(f);
  }

  lemma AllDelivered(f: EntryReader)
    requires Turning(f) && |f.given| == RUN + 1
    ensures f.given == Output(48)
  {
    hide ZStream.Valid, ZStream.Sure, ZStream.AstrayTo, Data, Output, OutcomeFrom, Inflate, Crc32, Literals;
    HasStrayed(f);
    TurningWhole(f);
    f.Amounts();
  }

  // Two reads of an entry whose data have bytes to spare, with the byte 32 before the buffer: the last byte is not what the data
  // decode to, and nothing tells so.
  method ReadAstray() returns (first: seq<byte>, second: seq<byte>)
    ensures EndsEarly(Data(16)) && Inflate(Data(16)).out == Output(16)
    ensures first + second == Output(48)
  {
    hide EntryReader.DeflatedValid, EntryReader.Steady, Data, Output, OutcomeFrom, Inflate, Crc32, Literals, Turning;
    DataDecoded(Data(16), 16);
    var f := new EntryReader(Data(16), false, RUN + 1);
    Beginning(f);
    first := EarlyRead(f, FIRST);
    second := StrayingRead(f, RUN + 1);
    AllDelivered(f);
  }

  // The same happens when 16384 bytes are read at a time until nothing more comes.
  method ExtractAstray() returns (out: seq<byte>)
    ensures EndsEarly(Data(16)) && Inflate(Data(16)).out == Output(16)
    ensures out == Output(48)
  {
    hide EntryReader.DeflatedValid, EntryReader.Steady, Data, Output, OutcomeFrom, Inflate, Crc32, Literals, Turning,
         Early, EntryReader.Valid;
    DataDecoded(Data(16), 16);
    var f := new EntryReader(Data(16), false, RUN + 1);
    Beginning(f);
    out := [];
    var more := true;
    while more
      invariant fresh(f) && fresh(f.z) && fresh(f.z.blocks) && fresh(f.z.blocks.br) && fresh(f.z.blocks.win) && fresh(f.z.blocks.win.buf)
      invariant fresh(f.z.blocks.codes) && fresh(f.z.blocks.hufts)
      invariant f.given == out && f.restUncompressed + |out| == RUN + 1
      invariant if |out| <= FIRST then Early(f) && |out| % UNZ_CHUNK == 0 && more else Turning(f)
      invariant !more ==> |out| == RUN + 1
      decreases more, f.restUncompressed
    {
      var bytes;
      if |out| < FIRST {
        bytes := EarlyRead(f, UNZ_CHUNK);
      } else if |out| == FIRST {
        bytes := StrayingRead(f, UNZ_CHUNK);
      } else {
        bytes := LateRead(f, UNZ_CHUNK);
      }
      more := bytes != [];
      out := out + bytes;
    }
    AllDelivered(f);
  }
}
