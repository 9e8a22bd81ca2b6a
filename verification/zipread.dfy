// Finding the end record of an archive (unzlocal_SearchCentralDir), and reading the data of one entry in portions with a
// running CRC (unzReadCurrentFile).

module ZipRead {
  import opened Bits
  import opened RingWindow
  import opened BitInput
  import opened Huffman
  import opened Deflate
  import opened DeflateWay
  import opened InflateCodes
  import opened InflateBlocks
  import opened RawInflate
  import opened Crc

  // ----- the end record

  const BUFREADCOMMENT := 0x400
  const MAX_BACK := 0xffff

  // The four bytes 50 4B 05 06 (section 4.3.16 of APPNOTE.TXT).
  predicate Signature(buf: seq<byte>, i: nat) {
    i + 4 <= |buf| && buf[i] == 0x50 && buf[i + 1] == 0x4b && buf[i + 2] == 0x05 && buf[i + 3] == 0x06
  }

  lemma SignatureIs(buf: seq<byte>, i: nat)
    ensures Signature(buf, i) <==> i + 4 <= |buf| && buf[i..i + 4] == [0x50, 0x4b, 0x05, 0x06]
  {
    if i + 4 <= |buf| {
      assert buf[i..i + 4] == [buf[i], buf[i + 1], buf[i + 2], buf[i + 3]];
    }
  }

  // The greatest place in the buffer where the signature starts.
  method ScanBlock(buf: seq<byte>) returns (found: bool, i: nat)
    ensures found ==> Signature(buf, i) && forall j :: j > i ==> !Signature(buf, j)
    ensures !found ==> forall j :: !Signature(buf, j)
  {
    hide Signature;
    var k: int := |buf| - 3;
    assert forall j: nat :: j >= k ==> !Signature(buf, j) by { TooLate(buf); }
    while k > 0
      invariant forall j: nat :: j >= k ==> !Signature(buf, j)
      decreases k
    {
      k := k - 1;
      if Signature(buf, k) {
        return true, k;
      }
    }
    return false, 0;
  }

  lemma TooLate(buf: seq<byte>)
    ensures forall j: nat :: j >= |buf| - 3 ==> !Signature(buf, j)
  {
  }

  lemma InBlock(file: seq<byte>, lo: nat, n: nat, i: nat)
    requires lo + n <= |file| && i + 4 <= n
    ensures Signature(file[lo..lo + n], i) <==> Signature(file, lo + i)
  {
  }

  // A block scanned from position lo on decides about every place in it where four bytes fit.
  lemma BlockScanned(file: seq<byte>, lo: nat, n: nat, buf: seq<byte>, i: nat)
    requires lo + n <= |file| && buf == file[lo..lo + n] && (forall j :: j > i ==> !Signature(buf, j))
    ensures forall p :: lo + i < p && p + 4 <= lo + n ==> !Signature(file, p)
  {
    hide Signature;
    forall p | lo + i < p && p + 4 <= lo + n
      ensures !Signature(file, p)
    {
      InBlock(file, lo, n, p - lo);
    }
  }

  lemma BlockEmpty(file: seq<byte>, lo: nat, n: nat, buf: seq<byte>)
    requires lo + n <= |file| && buf == file[lo..lo + n] && (forall j :: !Signature(buf, j))
    ensures forall p :: lo <= p && p + 4 <= lo + n ==> !Signature(file, p)
  {
    hide Signature;
    forall p | lo <= p && p + 4 <= lo + n
      ensures !Signature(file, p)
    {
      InBlock(file, lo, n, p - lo);
    }
  }

  lemma Fits(file: seq<byte>, p: nat)
    requires Signature(file, p)
    ensures p + 4 <= |file|
  {
  }

  // The last place within the last 65535 bytes where the signature starts, or 0 if there is none. Place 0 itself is
  // reported in the same way as none.
  method SearchCentralDir(file: seq<byte>) returns (pos: nat)
    ensures pos > 0 ==> pos + 65535 >= |file| && pos + 4 <= |file| && file[pos..pos + 4] == [0x50, 0x4b, 0x05, 0x06]
    ensures forall p :: p > pos && p + 65535 >= |file| ==> !Signature(file, p)
  {
    hide Signature;
    var size := |file|;
    var maxBack := Min(MAX_BACK, size);
    pos := 0;
    var back := 4;
    forall p | p > 0 && p + 4 > size
      ensures !Signature(file, p)
    {
      if Signature(file, p) {
        Fits(file, p);
      }
    }
    while back < maxBack
      invariant 4 <= back && (back <= maxBack || size <= 4)
      invariant pos == 0
      invariant forall p :: p > 0 && p + back > size ==> !Signature(file, p)
      invariant back > 4 ==> forall p :: p > 0 && p + back >= size ==> !Signature(file, p)
      decreases maxBack - back
    {
      ghost var before := back;
      if back + BUFREADCOMMENT > maxBack {
        back := maxBack;
      } else {
        back := back + BUFREADCOMMENT;
      }
      var readPos := size - back;
      var readSize := Min(BUFREADCOMMENT + 4, size - readPos);
      var buf := file[readPos..readPos + readSize];
      var found, i := ScanBlock(buf);
      if found {
        BlockScanned(file, readPos, readSize, buf, i);
        InsideBlock(file, readPos, readSize, i);
        pos := readPos + i;
        SignatureIs(file, pos);
        if pos != 0 {
          return;
        }
      } else {
        BlockEmpty(file, readPos, readSize, buf);
      }
    }
  }

  lemma InsideBlock(file: seq<byte>, lo: nat, n: nat, i: nat)
    requires lo + n <= |file| && Signature(file[lo..lo + n], i)
    ensures Signature(file, lo + i)
  {
  }

  // ----- the data of an entry

  const UNZ_BUFSIZE := 16384

  // Where a bufferful begins.
  predicate AtBuffer(data: seq<byte>, a: nat) {
    a % UNZ_BUFSIZE == 0 && (a == 0 || a < |data|)
  }

  // What becomes of the place from which the output is decoded: it stays, or moves on at the end of the block at hand; or the
  // decoder has failed for want of table space.
  datatype Course = Stays | Goes(o: Origin) | Lost

  // The first given bytes do not hold the first block, or the first block does not yield as much as total.
  ghost predicate Insufficient(data: seq<byte>, total: nat, given: nat) {
    var b := BlockAt(Stream(data), 0, []);
    b.EndOfBlock? && total <= |b.out| ==> b.pos + 8 > 8 * given
  }

  lemma StillWanting(data: seq<byte>, out: seq<byte>, total: nat, given: nat)
    requires Unended(Origin(data, 0, []), out, given) && |out| < total
    ensures Insufficient(data, total, given)
  {
    hide BlockAt, Stream;
  }

  class EntryReader {
    // The data as they are in the archive, and whether they are stored as they are.
    const data: seq<byte>
    const stored: bool
    const z: ZStream

    var restCompressed: nat
    var restUncompressed: nat
    var crc: bv32

    // For stored data: the part of them that has been read into the buffer and not been passed on.
    var next: nat
    var availIn: nat

    // Everything the caller has been given so far.
    ghost var given: seq<byte>

    ghost predicate Valid()
      reads this, z, z.blocks, z.blocks.br, z.blocks.win, z.blocks.win.buf, z.blocks.codes
    {
      && crc == Crc32(0, given)
      && (if stored then StoredValid() else DeflatedValid())
    }

    ghost predicate StoredValid()
      reads this
    {
      next + availIn + restCompressed == |data| && restUncompressed == |data| - next && given == data[..next]
    }

    // Before the first read nothing has been read ahead, and up to a bufferful of data is read at once.
    ghost predicate DeflatedValid()
      reads this, z, z.blocks, z.blocks.br, z.blocks.win, z.blocks.win.buf, z.blocks.codes
    {
      && z.Valid() && z.Data() == data && z.Given() + restCompressed == |data| && given == z.Delivered()
      && (z.Given() == 0 < restCompressed ==> z.Waiting())
      && (0 < z.Given() && |data| <= 16384 ==> restCompressed == 0)
      && Filled()
    }

    // The buffer has been filled with whole bufferfuls, and all turns have been in front of one.
    ghost predicate Filled()
      reads this, z, z.blocks, z.blocks.br
    {
      && (restCompressed > 0 ==> z.Given() % UNZ_BUFSIZE == 0)
      && (if z.Given() == 0 then z.blocks.br.area == 0 else z.blocks.br.area < z.Given())
      && AtBuffer(data, z.blocks.br.area) && (forall t :: t in z.blocks.turns ==> AtBuffer(data, t.area))
    }

    lemma Amounts()
      requires Valid() && !stored
      ensures z.Given() + restCompressed == |data| && given == z.Delivered() <= z.Whole().out
    {
      hide ZStream.Valid, Crc32;
      z.Prefix();
    }

    lemma TurnsTaken()
      requires Valid() && !stored
      ensures Led(data, z.blocks.turns, z.blocks.origin) && forall t :: t in z.blocks.turns ==> AtBuffer(data, t.area)
    {
      hide ZStream.Valid, Led, AtBuffer, Crc32;
      z.Finished();
    }

    // The byte front has been before the buffer all the time.
    ghost predicate Fronted(front: byte)
      reads z, z.blocks, z.blocks.br
    {
      && (z.blocks.br.area > 0 ==> z.blocks.br.front == front)
      && (forall t :: t in z.blocks.turns ==> t.front == front)
    }

    // No byte in front of the buffer has been or will be given back before a further block, so what comes is what the data decode to.
    ghost predicate Intact()
      requires Valid() && !stored
      reads this, z, z.blocks, z.blocks.br, z.blocks.win, z.blocks.win.buf, z.blocks.codes
    {
      z.blocks.turns == [] && z.Sure()
    }

    // A read will not begin with filling the buffer again while the decoder could go on with what it has.
    ghost predicate Steady()
      requires Valid() && !stored
      reads this, z, z.blocks, z.blocks.br, z.blocks.win, z.blocks.win.buf, z.blocks.codes
    {
      z.Waiting() || z.Avail() > 0 || restCompressed == 0
    }

    // A read will begin with filling the buffer again although the block at hand, which is not the last, ends a whole byte or more
    // before what is read then: this is when a byte in front of the buffer is given back before a further block.
    ghost predicate Slips()
      requires Valid() && !stored
      reads this, z, z.blocks, z.blocks.br, z.blocks.win, z.blocks.win.buf, z.blocks.codes
    {
      && z.Avail() == 0 && restCompressed > 0 && z.mode.BLOCKS? && z.blocks.mode.CODES? && !z.blocks.last
      && z.blocks.codes.Outcome().EndOfBlock? && z.blocks.codes.Outcome().pos + 8 <= 8 * z.Given()
    }

    // What is decoded from the end of that block on, with the byte front before the buffer.
    ghost function SlipsTo(front: byte): Origin
      requires Valid() && !stored && Slips()
      reads this, z, z.blocks, z.blocks.br, z.blocks.win, z.blocks.win.buf, z.blocks.codes
    {
      Reread(z.blocks.br.input, z.Given(), front, z.blocks.codes.Outcome())
    }

    // What will become of the origin, if there is anything to read or not.
    ghost function Ahead(reading: bool, front: byte): Course
      requires Valid() && !stored
      reads this, z, z.blocks, z.blocks.br, z.blocks.win, z.blocks.win.buf, z.blocks.codes
    {
      if z.Astray() then Goes(z.AstrayTo())
      else if reading && Slips() then Goes(SlipsTo(front))
      else if z.Sure() && (z.Calm() || Steady()) then Stays
      else Lost
    }

    // And what has become of it: it has moved, once, or will move at the end of the block at hand.
    ghost predicate Follows(c: Course, before: seq<Turn>)
      requires Valid() && !stored
      reads this, z, z.blocks, z.blocks.br, z.blocks.win, z.blocks.win.buf, z.blocks.codes
    {
      match c
      case Stays => z.Sure() && z.blocks.turns == before
      case Goes(o) =>
        || (z.Sure() && z.blocks.turns != before && z.blocks.origin == o)
        || (z.Astray() && z.blocks.turns == before && z.AstrayTo() == o)
      case Lost => true
    }

    // Wherever the decoder stops in good order, its course is known.
    lemma KnownCourse(reading: bool, front: byte)
      requires Valid() && !stored && (z.Calm() || (z.Sure() && Steady()))
      ensures !Ahead(reading, front).Lost? && (Steady() ==> !Slips()) && (z.Astray() ==> z.Avail() > 0)
    {
      hide ZStream.Valid, ZStream.Calm, ZStream.Sure, ZStream.AstrayTo, SlipsTo, Crc32;
      z.Settled();
      if Steady() {
        SteadyHolds();
      }
      if z.Astray() {
        InFront();
      }
    }

    lemma SteadyHolds()
      requires Valid() && !stored && Steady()
      ensures !Slips()
    {
      hide Inflater.Valid, CodesState.Valid, Crc32;
      if Slips() && z.Waiting() {
        SlipsWaiting();
      }
    }

    lemma SlipsWaiting()
      requires Valid() && !stored && Slips()
      ensures !z.Waiting()
    {
      hide Inflater.Traced, Inflater.Whole, TablesOk, Ready, Stream, HeadAt, Agrees, AtHand, Led, OnWay, Rest, Beyond,
           Remembers, Crc32;
      if z.blocks.codes.Lacking() {
        z.blocks.codes.Stalled();
      }
    }

    // Nothing of the buffer has been taken when the stream is going to be left in front of it.
    lemma InFront()
      requires Valid() && !stored && z.Astray()
      ensures z.Avail() > 0
    {
      hide Inflater.Traced, Inflater.Whole, TablesOk, Ready, Stream, HeadAt, Agrees, AtHand, Led, OnWay, Rest, Beyond,
           Remembers, Crc32;
    }

    // A stored entry has the same size compressed and uncompressed; for it the decoder is not set up.
    constructor (data: seq<byte>, stored: bool, uncompressedSize: nat)
      requires stored ==> uncompressedSize == |data|
      ensures Valid() && this.data == data && this.stored == stored && restUncompressed == uncompressedSize && given == []
      ensures !stored ==> Intact() && Steady() && z.Given() == 0 && z.blocks.br.area == 0
      ensures fresh(z) && fresh(z.blocks) && fresh(z.blocks.br) && fresh(z.blocks.win) && fresh(z.blocks.win.buf) && fresh(z.blocks.codes) && fresh(z.blocks.hufts)
    {
      hide Inflater.Valid, Inflater.Lacking, Inflater.Secure, Crc32;
      this.data, this.stored := data, stored;
      z := new ZStream(if stored then [] else data);
      restCompressed, restUncompressed := |data|, uncompressedSize;
      crc, next, availIn, given := 0, 0, 0, [];
      new;
      CrcOfNothing();
    }

    static lemma CrcOfNothing()
      ensures Crc32(0, []) == 0
    {
    }

    lemma IntactWhole()
      requires Valid() && !stored && Intact()
      ensures z.Whole() == Inflate(data)
    {
      hide OutcomeFrom, ZStream.Valid, ZStream.Sure, Crc32, Led;
      z.Finished();
      NotTurned(data, z.blocks.origin);
    }

    // Data that fit into the buffer are read at once.
    lemma SmallSteady()
      requires Valid() && !stored && |data| <= 16384
      ensures Steady()
    {
      hide ZStream.Valid, ZStream.Waiting, Crc32;
    }

    // What has been read so far is still what the data decode to exactly if the course has led nowhere else.
    lemma StillIntact(c: Course)
      requires Valid() && !stored && Follows(c, [])
      ensures c.Stays? ==> Intact()
      ensures c.Goes? ==> !Intact()
    {
      hide ZStream.Valid, ZStream.Sure, ZStream.AstrayTo, Crc32;
      z.Settled();
    }

    // The next at most len bytes (unzReadCurrentFile); the byte front lies before the buffer. What is read in portions is what
    // the entry holds, and the CRC is that of all that has been read. Stored data are read in full portions.
    //
    // Compressed data are read in full portions if they have a byte to spare behind them; otherwise a portion is short only when
    // all of the data but at most eight bits have been used. They are what the data decode to as long as no read begins with
    // filling the buffer again while the decoder could go on; with no more data than one bufferful that does not happen.
    method Read(len: nat, front: byte) returns (out: seq<byte>)
      requires Valid()
      modifies this, z, z.blocks, z.blocks.br, z.blocks.win, z.blocks.win.buf, z.blocks.codes, z.blocks.hufts
      ensures Valid() && given == old(given) + out
      ensures |out| <= Min(len, old(restUncompressed)) && restUncompressed == old(restUncompressed) - |out|
      ensures stored ==> |out| == Min(len, old(restUncompressed)) && given <= data
      ensures !stored ==> given <= z.Whole().out && (Intact() ==> z.Whole() == Inflate(data))
      ensures !stored && old(Intact()) && (old(Steady()) || |data| <= 16384) ==> Intact()
      ensures !stored && EndsWithin(z.Whole(), |data|) ==> |out| == Min(Min(len, old(restUncompressed)), |z.Whole().out| - |old(given)|)
      ensures !stored && z.Whole().Done? && |out| < Min(Min(len, old(restUncompressed)), |z.Whole().out| - |old(given)|) ==>
                restCompressed == 0 && z.blocks.br.Left() <= 8
      ensures !stored ==> Follows(old(Ahead(len > 0 && restUncompressed > 0, front)), old(z.blocks.turns))
      ensures !stored && old(Fronted(front)) ==> Fronted(front)
      ensures !stored && old(Intact() && z.Calm()) ==> (Intact() <==> !(len > 0 && old(restUncompressed) > 0 && old(Slips())))
      ensures !stored && old(z.Calm()) ==> z.Calm() || z.Whole().Fail?
      ensures !stored && len > 0 && old(restUncompressed) > 0 ==> z.AtRest() || z.Whole().Fail?
      ensures !stored ==> Fed(old(z.Given()), old(z.Avail() == 0), |old(given)| + len) && restCompressed <= old(restCompressed)
      ensures !stored && len > 0 && old(restUncompressed > 0 && z.Avail() == 0 && restCompressed > 0) ==> restCompressed < old(restCompressed)
    {
      hide EntryReader.Filled, EntryReader.Fronted, ZStream.Astray, ZStream.Valid, ZStream.Sure, ZStream.Waiting,
           ZStream.Calm, ZStream.AtRest, OutcomeFrom, Follows, Steady, Crc32;
      out := [];
      if stored {
        out := ReadStored(Min(len, restUncompressed));
      } else {
        ghost var c := Ahead(len > 0 && restUncompressed > 0, front);
        if Intact() {
          WasIntact(len > 0 && restUncompressed > 0, front);
        }
        out := ReadDeflated(Min(len, restUncompressed), front);
        Conclude(c, old(Intact()));
      }
    }

    lemma Conclude(c: Course, intact: bool)
      requires Valid() && !stored && (intact ==> Follows(c, []))
      ensures given <= z.Whole().out && (Intact() ==> z.Whole() == Inflate(data))
      ensures intact ==> (c.Stays? ==> Intact()) && (c.Goes? ==> !Intact())
    {
      hide Intact, Follows, ZStream.Valid, OutcomeFrom, Inflate, Crc32;
      Amounts();
      if intact {
        StillIntact(c);
      }
      if Intact() {
        IntactWhole();
      }
    }

    lemma WasIntact(reading: bool, front: byte)
      requires Valid() && !stored && Intact()
      ensures Ahead(reading, front).Goes? <==> reading && Slips()
      ensures z.Calm() || Steady() || |data| <= 16384 ==> !Ahead(reading, front).Lost?
      ensures Steady() || |data| <= 16384 ==> Ahead(reading, front).Stays?
    {
      hide ZStream.Valid, ZStream.Sure, ZStream.Calm, ZStream.AstrayTo, SlipsTo, Crc32;
      z.Settled();
      if |data| <= 16384 {
        SmallSteady();
      }
      if Steady() {
        SteadyHolds();
      }
    }

    // The first pass of the loop that finds the buffer empty fills it.
    function Refill(): nat
      reads this
    {
      Min(UNZ_BUFSIZE, restCompressed)
    }

    method ReadStored(availOut0: nat) returns (out: seq<byte>)
      requires Valid() && stored && availOut0 <= restUncompressed
      modifies this
      ensures Valid() && given == old(given) + out && |out| == availOut0 && restUncompressed == old(restUncompressed) - |out|
    {
      hide Crc32, ZStream.Valid;
      var availOut := availOut0;
      out := [];
      while availOut > 0
        invariant Valid() && 0 <= availOut <= restUncompressed
        invariant given == old(given) + out && |out| + availOut == availOut0 && restUncompressed == old(restUncompressed) - |out|
      {
        if availIn == 0 && restCompressed > 0 {
          var n := Refill();
          restCompressed := restCompressed - n;
          availIn := n;
        }
        var n := Min(availOut, availIn);
        var bytes := data[next..next + n];
        Account(bytes);
        out := out + bytes;
        availIn := availIn - n;
        availOut := availOut - n;
        next := next + n;
      }
    }

    method ReadDeflated(availOut: nat, front: byte) returns (out: seq<byte>)
      requires Valid() && !stored && availOut <= restUncompressed
      modifies this, z, z.blocks, z.blocks.br, z.blocks.win, z.blocks.win.buf, z.blocks.codes, z.blocks.hufts
      ensures Valid() && given == old(given) + out && |out| <= availOut && restUncompressed == old(restUncompressed) - |out|
      ensures |out| < availOut && z.Whole().Done? ==> given == z.Whole().out || Spent()
      ensures Follows(old(Ahead(availOut > 0, front)), old(z.blocks.turns))
      ensures old(Fronted(front)) ==> Fronted(front)
      ensures old(z.Calm()) ==> z.Calm() || z.Whole().Fail?
      ensures availOut > 0 ==> z.AtRest() || z.Whole().Fail?
      ensures Fed(old(z.Given()), old(z.Avail() == 0), |old(given)| + availOut) && restCompressed <= old(restCompressed)
      ensures availOut > 0 && old(z.Avail() == 0 && restCompressed > 0) ==> restCompressed < old(restCompressed)
    {
      hide Ahead, Follows, Fronted, Filled, Wants, Inflater.Whole, ZStream.Calm, ZStream.Sure, ZStream.Astray, Unended,
           Insufficient, Crc32, ZStream.Valid, ZStream.Waiting, ZStream.Dry, ZStream.AtRest, Spent, EndsWithin;
      out := [];
      if availOut == 0 {
        NothingRead(front);
        return;
      }
      Prepare(availOut, front);
      var r := Ok;
      ghost var first := true;
      ghost var start, dry, total, c, before := z.Given(), z.Avail() == 0, |given| + availOut, Ahead(true, front), z.blocks.turns;
      while z.Room() > 0 && r.Ok?
        invariant Valid() && given == old(given) + out && |out| + z.Room() == availOut && restUncompressed == old(restUncompressed) - |out|
        invariant (first ==> out == []) && Between(first, r, c, before, front, start, dry)
        invariant Fed(start, dry, total) && (old(Fronted(front)) ==> Fronted(front))
        invariant if first then z.Calm() == old(z.Calm()) else z.Calm() || z.Whole().Fail?
        invariant restCompressed <= old(restCompressed) && (!first && dry && old(restCompressed) > 0 ==> restCompressed < old(restCompressed))
        decreases r.Ok?, restCompressed, first
      {
        var bytes;
        bytes, r := Pass(first, c, before, front, start, dry, total);
        out := out + bytes;
        first := false;
      }
    }

    // The state of the loop: before the first pass, and between any two.
    ghost predicate Between(first: bool, r: Status, c: Course, before: seq<Turn>, front: byte, start: nat, dry: bool)
      requires Valid() && !stored
      reads this, z, z.blocks, z.blocks.br, z.blocks.win, z.blocks.win.buf, z.blocks.codes, z.blocks.codes.win
    {
      if first then
        r.Ok? && c == Ahead(true, front) && before == z.blocks.turns && start == z.Given() && (dry <==> z.Avail() == 0)
      else
        && Follows(c, before) && (z.AtRest() || z.Whole().Fail?)
        && (r.Ok? && z.Room() > 0 ==> Wants())
        && (!r.Ok? && z.Room() > 0 && z.Whole().Done? ==> given == z.Whole().out || Spent())
    }

    // All input has been used, and there is nothing to do without more.
    ghost predicate Wants()
      requires Valid() && !stored
      reads this, z, z.blocks, z.blocks.br, z.blocks.win, z.blocks.win.buf, z.blocks.codes
    {
      z.Dry() && z.Waiting() && z.Avail() == 0 && !z.Astray() && Unended(z.blocks.origin, given, z.Given())
    }

    lemma NothingRead(front: byte)
      requires Valid() && !stored
      ensures Follows(Ahead(false, front), z.blocks.turns)
    {
      hide ZStream.Valid, ZStream.Sure, ZStream.Calm, ZStream.Astray, ZStream.AtRest, Crc32;
    }

    // The space for output of one read.
    method Prepare(availOut: nat, front: byte)
      requires Valid() && !stored
      modifies z.blocks.win`room
      ensures Valid() && z.Room() == availOut && z.Calm() == old(z.Calm()) && (Fronted(front) <==> old(Fronted(front)))
      ensures Ahead(true, front) == old(Ahead(true, front)) && z.Given() == old(z.Given())
      ensures given == z.Delivered()
    {
      hide ZStream.Valid, ZStream.Sure, ZStream.Secure, Crc32, Filled;
      z.SetSpace(availOut);
    }

    // Since start bytes had been given, of which none was left if dry, no more than one bufferful has been read; or what had been
    // given did not hold the first block.
    ghost predicate Fed(start: nat, dry: bool, total: nat)
      reads this, z.blocks, z.blocks.br
    {
      && (if z.Given() <= start + UNZ_BUFSIZE then restCompressed == 0 || z.Given() == start || z.Given() == start + UNZ_BUFSIZE
          else z.blocks.turns == [] ==> Insufficient(data, total, start + UNZ_BUFSIZE))
      && (z.Given() > start && !dry && z.blocks.turns == [] ==> Insufficient(data, total, start))
    }

    // All of the data has been used, but for a few bits.
    ghost predicate Spent()
      reads this, z, z.blocks, z.blocks.br
    {
      restCompressed == 0 && !EndsWithin(z.Whole(), |data|) && z.blocks.br.Left() <= 8
    }

    // One pass of the loop, and where it leads.
    method Pass(ghost first: bool, ghost c: Course, ghost before: seq<Turn>, front: byte, ghost start: nat, ghost dry: bool, ghost total: nat)
      returns (bytes: seq<byte>, r: Status)
      requires Valid() && !stored && 0 < z.Room() <= restUncompressed && |given| < total && Fed(start, dry, total)
      requires Between(first, Ok, c, before, front, start, dry)
      modifies this, z, z.blocks, z.blocks.br, z.blocks.win, z.blocks.win.buf, z.blocks.codes, z.blocks.hufts
      ensures Valid() && given == old(given) + bytes && |bytes| + z.Room() == old(z.Room()) && restUncompressed == old(restUncompressed) - |bytes|
      ensures Between(false, r, c, before, front, start, dry) && Fed(start, dry, total) && (old(Fronted(front)) ==> Fronted(front))
      ensures z.Calm() || z.Whole().Fail?
      ensures restCompressed <= old(restCompressed) && (r.Ok? && !first ==> restCompressed < old(restCompressed))
      ensures first && dry && old(restCompressed) > 0 ==> restCompressed < old(restCompressed)
    {
      hide Fronted, Filled, Fed, ZStream.Calm, ZStream.AstrayTo, SlipsTo, ZStream.Sure, ZStream.Secure, ZStream.Astray,
           Unended, Insufficient, Crc32, ZStream.Valid, ZStream.Waiting, ZStream.Dry, ZStream.AtRest, Spent, EndsWithin,
           Steady;
      if !first {
        WantsSteady(c, before, front);
      }
      bytes, r := Portion(front, start, dry, total);
    }

    lemma WantsSteady(c: Course, before: seq<Turn>, front: byte)
      requires Valid() && !stored && Wants() && Follows(c, before)
      ensures !c.Lost? ==> Ahead(true, front).Stays? && z.Sure()
    {
      hide ZStream.Valid, ZStream.Sure, ZStream.Calm, ZStream.Astray, ZStream.AtRest, ZStream.Waiting, ZStream.Dry,
           Unended, Crc32;
      SteadyHolds();
    }

    // What one call of inflate delivers. Without new input a second call reports that it is stuck.
    method Portion(front: byte, ghost start: nat, ghost dry: bool, ghost total: nat) returns (bytes: seq<byte>, r: Status)
      requires Valid() && !stored && 0 < z.Room() <= restUncompressed && Fed(start, dry, total)
      requires (z.Given() == start && (dry || z.Avail() > 0)) || (|given| < total && Wants())
      modifies this, z, z.blocks, z.blocks.br, z.blocks.win, z.blocks.win.buf, z.blocks.codes, z.blocks.hufts
      ensures Valid() && given == old(given) + bytes && |bytes| + z.Room() == old(z.Room()) && restUncompressed == old(restUncompressed) - |bytes|
      ensures Follows(old(Ahead(true, front)), old(z.blocks.turns)) && (z.blocks.turns == old(z.blocks.turns) ==> z.blocks.origin == old(z.blocks.origin))
      ensures old(Fronted(front)) ==> Fronted(front)
      ensures r.Ok? && z.Room() > 0 ==> Wants()
      ensures restCompressed <= old(restCompressed) && (r.Ok? && old(Wants()) ==> restCompressed < old(restCompressed))
      ensures old(z.Avail() == 0 && restCompressed > 0) ==> restCompressed < old(restCompressed)
      ensures !r.Ok? && z.Room() > 0 && z.Whole().Done? ==> given == z.Whole().out || Spent()
      ensures (z.AtRest() && z.Calm()) || z.Whole().Fail?
      ensures Fed(start, dry, total)
    {
      hide Ahead, Heading, SlipsTo, Follows, Filled, Fronted, Unended, Insufficient, Crc32, ZStream.Valid, ZStream.Dry,
           ZStream.Sure, ZStream.Secure, ZStream.Waiting, ZStream.Calm, ZStream.Astray, ZStream.AtRest, OutcomeFrom;
      ghost var c := Ahead(true, front);
      if z.Avail() == 0 && restCompressed > 0 {
        Fill(front, start, dry, total);
      } else {
        NotFilled(front);
      }
      bytes, r := OneCall(front, c);
    }

    // The decoder is on this course.
    ghost predicate Heading(c: Course)
      requires Valid() && !stored
      reads this, z, z.blocks, z.blocks.br, z.blocks.win, z.blocks.win.buf, z.blocks.codes
    {
      match c
      case Stays => z.Sure()
      case Goes(o) => z.Astray() && z.AstrayTo() == o
      case Lost => true
    }

    lemma LastArea()
      requires Led(data, z.blocks.turns, z.blocks.origin)
      ensures z.blocks.turns != [] ==> z.blocks.turns[|z.blocks.turns| - 1].area > 0
    {
      hide AfterTurns, Possible;
      if z.blocks.turns != [] {
        LastTurn(Origin(data, 0, []), z.blocks.turns);
      }
    }

    lemma NotFilled(front: byte)
      requires Valid() && !stored && (z.Avail() > 0 || restCompressed == 0)
      ensures Heading(Ahead(true, front))
    {
      hide ZStream.Valid, ZStream.Sure, ZStream.Calm, ZStream.Astray, ZStream.AtRest, ZStream.Waiting, Crc32;
    }

    // Fill the buffer again.
    method Fill(front: byte, ghost start: nat, ghost dry: bool, ghost total: nat)
      requires Valid() && !stored && z.Avail() == 0 && restCompressed > 0 && Fed(start, dry, total)
      requires (z.Given() == start && dry) || (|given| < total && Unended(z.blocks.origin, given, z.Given()))
      modifies `restCompressed, z.blocks.br`avail, z.blocks.br`area, z.blocks.br`front, z.blocks.br`strayed,
               z.blocks.win`room
      ensures Valid() && restCompressed < old(restCompressed) && z.Avail() > 0 && z.Room() == old(z.Room()) && Fed(start, dry, total)
      ensures z.Given() == old(z.Given()) + Min(16384, old(restCompressed))
      ensures Heading(old(Ahead(true, front))) && (old(z.Waiting()) ==> z.Secure()) && (old(Fronted(front)) ==> Fronted(front))
    {
      hide Inflater.Final, CodesState.Behind, ZStream.AstrayTo, Unended, Insufficient, Crc32, ZStream.Valid,
           Inflater.Secure, ZStream.Waiting, ZStream.Calm, OutcomeFrom, Inflater.Whole, Led;
      z.Finished();
      if z.blocks.turns == [] {
        NotTurned(data, z.blocks.origin);
      }
      if z.Astray() {
        InFront();
      }
      var n := Refill();
      if z.blocks.turns == [] && (z.Given() == start + UNZ_BUFSIZE || !dry) {
        StillWanting(data, given, total, z.Given());
      }
      restCompressed := restCompressed - n;
      z.Offer(n, 0, Elsewhere(front));
    }

    // One call of inflate, with what it delivers.
    method OneCall(front: byte, ghost c: Course) returns (bytes: seq<byte>, r: Status)
      requires Valid() && !stored && 0 < z.Room() <= restUncompressed && Heading(c) && (z.Given() > 0 || restCompressed == 0)
      modifies this, z, z.blocks, z.blocks.br`next, z.blocks.br`avail, z.blocks.br`bitb, z.blocks.br`bitk,
               z.blocks.br`held, z.blocks.br`input,
               z.blocks.br`strayed, z.blocks.win, z.blocks.win.buf, z.blocks.codes, z.blocks.hufts
      ensures Valid() && given == old(given) + bytes && |bytes| + z.Room() == old(z.Room()) && restUncompressed == old(restUncompressed) - |bytes|
      ensures Follows(c, old(z.blocks.turns)) && (z.blocks.turns == old(z.blocks.turns) ==> z.blocks.origin == old(z.blocks.origin))
      ensures old(z.blocks.turns) <= z.blocks.turns && (old(Fronted(front)) ==> Fronted(front))
      ensures restCompressed == old(restCompressed) && z.Given() == old(z.Given())
      ensures Plain(r) || r.StreamEnd? || r.DataError? || r.MemError?
      ensures Plain(r) && z.Room() > 0 ==> Wants() && (restCompressed == 0 && z.Whole().Done? ==> Spent())
      ensures r.BufError? ==> old(z.Avail()) <= z.Avail()
      ensures old(z.Dry()) ==> r.BufError?
      ensures !Plain(r) && z.Whole().Done? ==> given == z.Whole().out
      ensures (z.AtRest() && z.Calm()) || z.Whole().Fail?
    {
      hide ZStream.Valid, ZStream.Sure, ZStream.Secure, ZStream.Waiting, ZStream.Calm, ZStream.Astray, ZStream.AstrayTo,
           ZStream.AtRest, OutcomeFrom, Crc32, Unended, Led;
      var before := z.Delivered();
      r := z.Call(Ok);
      z.Finished();
      LastArea();
      bytes := z.Delivered()[|before|..];
      Account(bytes);
      assert before + bytes == z.Delivered();
    }

    // The bookkeeping for bytes that have been delivered.
    method Account(bytes: seq<byte>)
      requires crc == Crc32(0, given) && |bytes| <= restUncompressed
      modifies `crc, `given, `restUncompressed
      ensures crc == Crc32(0, given) && given == old(given) + bytes && restUncompressed == old(restUncompressed) - |bytes|
    {
      hide Crc32;
      Composes(0, given, bytes);
      crc := Ucrc32(crc, bytes);
      given := given + bytes;
      restUncompressed := restUncompressed - |bytes|;
    }
  }

  const UNZ_CHUNK := 16384

  // Write out a whole entry, read 16384 bytes at a time until nothing more comes (TUnzip::Unzip).
  //
  // What comes out of a compressed entry is what the data decode to, unless a block that is not the last ends just in front of a
  // bufferful; and then what they decode to with some of these turns. It is complete if the data have a byte to spare.
  method Extract(data: seq<byte>, stored: bool, uncompressedSize: nat, front: byte)
    returns (out: seq<byte>, ghost origin: Origin, ghost turns: seq<Turn>)
    requires stored ==> uncompressedSize == |data|
    ensures stored ==> out == data
    ensures !stored ==> Led(data, turns, origin) && forall t :: t in turns ==> t.front == front && AtBuffer(data, t.area)
    ensures !stored && turns == [] ==> OutcomeFrom(origin) == Inflate(data)
    ensures !stored && (forall a :: 0 < a < |data| && a % 16384 == 0 ==> !Exposed(data, a)) ==> turns == []
    ensures !stored ==> out <= OutcomeFrom(origin).out && |out| <= uncompressedSize
    ensures !stored && EndsWithin(OutcomeFrom(origin), |data|) ==> |out| == Min(uncompressedSize, |OutcomeFrom(origin).out|)
  {
    hide OutcomeFrom, EntryReader.DeflatedValid, EntryReader.Steady, EntryReader.Ahead, EntryReader.Follows,
         ZStream.Secure, ZStream.Sure, Crc32, Led, AtBuffer;
    var f := new EntryReader(data, stored, uncompressedSize);
    out := [];
    var more := true;
    while more
      invariant f.Valid() && f.data == data && f.stored == stored && f.given == out && fresh(f)
      invariant fresh(f.z) && fresh(f.z.blocks) && fresh(f.z.blocks.br) && fresh(f.z.blocks.win) && fresh(f.z.blocks.win.buf) && fresh(f.z.blocks.codes) && fresh(f.z.blocks.hufts)
      invariant f.restUncompressed + |out| == uncompressedSize
      invariant stored ==> out <= data
      invariant !stored ==> f.Fronted(front)
      invariant !more && stored ==> f.restUncompressed == 0
      invariant !more && !stored ==> out <= f.z.Whole().out
      invariant !more && !stored && EndsWithin(f.z.Whole(), |data|) ==> |out| == Min(uncompressedSize, |f.z.Whole().out|)
      decreases more, f.restUncompressed
    {
      var bytes := f.Read(UNZ_CHUNK, front);
      more := bytes != [];
      out := out + bytes;
    }
    origin, turns := f.z.blocks.origin, f.z.blocks.turns;
    if !stored {
      f.TurnsTaken();
      if turns == [] {
        NotTurned(data, origin);
      } else {
        FirstAtBuffer(data, turns, origin);
      }
    }
  }

  // The first turn is in front of a bufferful, behind a block of the data themselves.
  lemma FirstAtBuffer(data: seq<byte>, turns: seq<Turn>, o: Origin)
    requires Led(data, turns, o) && turns != [] && forall t :: t in turns ==> AtBuffer(data, t.area)
    ensures exists a :: 0 < a < |data| && a % 16384 == 0 && Exposed(data, a)
  {
    hide AfterTurns, Possible;
    FirstTurn(Origin(data, 0, []), turns);
    assert Exposed(data, turns[0].area);
  }
}
