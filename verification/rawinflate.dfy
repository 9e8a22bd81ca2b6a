// inflate() in raw mode, the only mode inflateInit2 selects, and whole runs of it: any sequence of calls, each offering some
// more input and some more space for output.

module RawInflate {
  import opened Bits
  import opened Canonical
  import opened BitInput
  import opened RingWindow
  import opened Huffman
  import opened Deflate
  import opened DeflateWay
  import opened InflateCodes
  import opened InflateBlocks

  datatype StreamMode = BLOCKS | FINISHED | FAILED

  // Where more input lies: behind what is there, or in another area, where the byte front lies before it.
  datatype Area = Continued | Elsewhere(front: byte)

  // The stream o ends, at least one byte before the size bytes of data do.
  ghost predicate EndsWithin(o: Outcome, size: nat) {
    o.Done? && o.pos + 8 <= 8 * size
  }

  // The compressed data end at least one byte before the input does.
  ghost predicate EndsEarly(input: seq<byte>) {
    EndsWithin(Inflate(input), |input|)
  }

  lemma FromTheStart(input: seq<byte>)
    ensures OutcomeFrom(Origin(input, 0, [])) == Inflate(input)
  {
    hide Blocks, Stream;
  }

  // The first block from o on has not ended before the last of the given bytes, unless out has come to its end.
  ghost predicate Unended(o: Origin, out: seq<byte>, given: nat) {
    var b := BlockAt(Stream(o.input), o.pos, o.out);
    b.EndOfBlock? && |out| < |b.out| ==> b.pos + 8 > 8 * given
  }

  class ZStream {
    const blocks: Inflater
    var mode: StreamMode

    constructor (data: seq<byte>)
      ensures Valid() && mode.BLOCKS? && Data() == data && Given() == 0 && Room() == 0 && Delivered() == []
      ensures blocks.win.buf.Length == 32768 && blocks.hufts.Length == 1440
      ensures blocks.origin == Origin(data, 0, []) && blocks.turns == [] && blocks.br.area == 0 && Secure() && Waiting() && Avail() == 0
      ensures fresh(blocks) && fresh(blocks.br) && fresh(blocks.win) && fresh(blocks.win.buf) && fresh(blocks.codes) && fresh(blocks.hufts)
    {
      hide Stream, Remembers, Inflater.Whole, Agrees, TablesOk, Ready, Rest, Lengths;
      blocks := new Inflater(data);
      mode := BLOCKS;
    }

    function Data(): seq<byte> {
      blocks.br.data
    }

    function Given(): nat
      reads blocks.br
    {
      blocks.br.Given()
    }

    function Avail(): nat
      reads blocks.br
    {
      blocks.br.avail
    }

    function Room(): nat
      reads blocks.win
    {
      blocks.win.room
    }

    function Delivered(): seq<byte>
      reads blocks.win
    {
      blocks.win.delivered
    }

    // What the output amounts to in the end.
    ghost function Whole(): Outcome
      reads blocks`origin
    {
      blocks.Whole()
    }

    ghost predicate Valid()
      reads this, blocks, blocks.br, blocks.win, blocks.win.buf, blocks.codes
    {
      Led(Data(), blocks.turns, blocks.origin) &&
      match mode
      case BLOCKS => blocks.Valid()
      case FINISHED => Whole().Done? && Delivered() == Whole().out
      case FAILED => Whole().Fail? && Delivered() <= Whole().out
    }

    // Nothing happens until there is more input.
    ghost predicate Dry()
      reads this, blocks, blocks.br, blocks.win, blocks.codes
    {
      mode.BLOCKS? && blocks.Dry()
    }

    // The decoder has not got as far as it could only for want of input.
    ghost predicate Waiting()
      reads this, blocks, blocks.br, blocks.codes
    {
      mode.BLOCKS? ==> blocks.Lacking()
    }

    // No byte in front of the present area of input has been or will be given back.
    ghost predicate Secure()
      requires Valid()
      reads this, blocks, blocks.br, blocks.win, blocks.win.buf, blocks.codes
    {
      mode.BLOCKS? ==> blocks.Secure()
    }

    // A byte in front of the present area will be given back before a further block.
    ghost predicate Astray()
      requires Valid()
      reads this, blocks, blocks.br, blocks.win, blocks.win.buf, blocks.codes
    {
      mode.BLOCKS? && blocks.Astray() && !blocks.last
    }

    // The origin stays where it is.
    ghost predicate Sure()
      requires Valid()
      reads this, blocks, blocks.br, blocks.win, blocks.win.buf, blocks.codes
    {
      mode.BLOCKS? ==> blocks.Secure() || blocks.Final() || blocks.br.strayed
    }

    // What is decoded from then on: the stream with that byte and the one in front of the area or-ed, from the end of the block on.
    ghost function AstrayTo(): Origin
      requires Valid() && Astray()
      reads this, blocks, blocks.br, blocks.win, blocks.win.buf, blocks.codes
    {
      Reread(blocks.br.input, blocks.br.area, blocks.br.front, blocks.codes.Outcome())
    }

    // The decoder has stopped for want of input or of space for output.
    ghost predicate AtRest()
      reads this, blocks, blocks.br, blocks.win, blocks.codes, blocks.codes.win
    {
      mode.BLOCKS? ==> blocks.Starving() || blocks.Blocked()
    }

    // It is where it can have stopped so.
    ghost predicate Calm()
      reads this, blocks, blocks.br, blocks.codes
    {
      mode.BLOCKS? ==> blocks.Lacking() || blocks.mode.STORED? || blocks.mode.CODES? || blocks.mode.DRY?
    }

    // The last block is at hand, or over.
    predicate Final()
      reads this, blocks
    {
      mode.BLOCKS? ==> blocks.Final()
    }

    // One call of inflate; f is the value to return when nothing special has happened.
    method Call(f: Status) returns (r: Status)
      requires Valid() && f.Ok?
      modifies this, blocks, blocks.br`next, blocks.br`avail, blocks.br`bitb, blocks.br`bitk, blocks.br`held,
               blocks.br`input, blocks.br`strayed,
               blocks.win, blocks.win.buf, blocks.codes, blocks.hufts
      ensures Valid() && Given() == old(Given())
      ensures old(Delivered()) <= Delivered() <= Whole().out
      ensures Room() + |Delivered()| == old(Room()) + |old(Delivered())|
      ensures r.StreamEnd? <==> mode.FINISHED?
      ensures r.DataError? <==> mode.FAILED?
      ensures Plain(r) && Room() > 0 && Given() == |Data()| ==> !EndsWithin(Whole(), |Data()|)
      ensures Plain(r) && Room() > 0 && Given() == |Data()| && Whole().Done? ==> blocks.br.Left() <= 8
      ensures Plain(r) && Room() > 0 ==> Dry() && Waiting() && Avail() == 0 && Unended(blocks.origin, Delivered(), Given())
      ensures r.MemError? ==> Whole().Fail?
      ensures Plain(r) || r.StreamEnd? || r.DataError? || r.MemError?
      ensures r.BufError? ==> old(Avail()) <= Avail() && Delivered() == old(Delivered())
      ensures old(Dry()) ==> r.BufError?
      ensures old(Secure()) ==> Secure() && blocks.origin == old(blocks.origin)
      ensures old(Astray()) ==>
                if Astray() then AstrayTo() == old(AstrayTo()) && blocks.origin == old(blocks.origin) && blocks.turns == old(blocks.turns)
                else Sure() && blocks.br.strayed && blocks.origin == old(AstrayTo()) && blocks.turns != old(blocks.turns)
      ensures Plain(r) && Room() > 0 ==> !Astray()
      ensures old(blocks.br.strayed || !mode.BLOCKS?) ==> blocks.br.strayed == old(blocks.br.strayed) && blocks.origin == old(blocks.origin)
      ensures blocks.LedOn() && (old(Sure()) ==> Sure() && blocks.origin == old(blocks.origin) && blocks.turns == old(blocks.turns))
      ensures r.MemError? || (AtRest() && Calm())
      ensures old(Final()) ==> Final() && blocks.origin == old(blocks.origin)
    {
      hide Stream, Remembers, Inflater.Whole, Inflater.Valid, Inflater.Final, Inflater.Secure, Inflater.Astray,
           Inflater.Lacking, Inflater.Starving, Inflater.Blocked, Unended;
      r := BufError;
      if mode.BLOCKS? {
        r := RunBlocks();
        if r.DataError? {
          mode := FAILED;
        } else if r.StreamEnd? {
          mode := FINISHED;
        } else if r.Ok? {
          r := f;
        }
      } else {
        r := if mode.FINISHED? then StreamEnd else DataError;
      }
    }

    // The blocks, as far as input and space allow.
    method RunBlocks() returns (r: Status)
      requires Valid() && mode.BLOCKS?
      modifies blocks, blocks.br`next, blocks.br`avail, blocks.br`bitb, blocks.br`bitk, blocks.br`held, blocks.br`input,
               blocks.br`strayed,
               blocks.win, blocks.win.buf, blocks.codes, blocks.hufts
      ensures blocks.Valid() && Given() == old(Given())
      ensures old(Delivered()) <= Delivered() <= Whole().out
      ensures Room() + |Delivered()| == old(Room()) + |old(Delivered())|
      ensures r.StreamEnd? ==> Whole().Done? && Delivered() == Whole().out
      ensures r.DataError? || r.MemError? ==> Whole().Fail?
      ensures Plain(r) || r.StreamEnd? || r.DataError? || r.MemError?
      ensures Plain(r) && Room() > 0 ==> blocks.Dry() && blocks.Lacking() && Avail() == 0 && !blocks.Astray()
      ensures Plain(r) && Room() > 0 ==> Unended(blocks.origin, Delivered(), Given())
      ensures Plain(r) && Room() > 0 && Given() == |Data()| ==> !EndsWithin(Whole(), |Data()|) && (Whole().Done? ==> blocks.br.Left() <= 8)
      ensures r.BufError? ==> old(Avail()) <= Avail() && Delivered() == old(Delivered())
      ensures old(Dry()) ==> r.BufError?
      ensures old(Secure()) ==> blocks.Secure() && blocks.origin == old(blocks.origin) && blocks.turns == old(blocks.turns)
      ensures old(Astray()) ==>
                if blocks.Astray() && !blocks.last then AstrayTo() == old(AstrayTo()) && blocks.origin == old(blocks.origin) && blocks.turns == old(blocks.turns)
                else blocks.br.strayed && blocks.origin == old(AstrayTo()) && blocks.turns != old(blocks.turns)
      ensures old(blocks.br.strayed) ==> blocks.br.strayed && blocks.origin == old(blocks.origin) && blocks.turns == old(blocks.turns)
      ensures blocks.LedOn() && Led(Data(), blocks.turns, blocks.origin)
      ensures Plain(r) ==> AtRest() && Calm()
      ensures old(Final()) ==> blocks.Final() && blocks.origin == old(blocks.origin) && blocks.turns == old(blocks.turns)
      ensures !Plain(r) ==> !blocks.Astray()
    {
      hide Led, BitReader.Valid, Calm, Inflater.Astray, Inflater.Traced, Unended, Inflater.Secure, Inflater.Blocked,
           Stream, Remembers, Inflater.Whole, Agrees, TablesOk, Ready, Rest, Lengths, Inflater.Lacking, HeadAt, Beyond;
      r := blocks.Run(BufError);
      if Plain(r) && Room() > 0 {
        StalledHere();
        NotAstray();
        UnendedHere();
      }
      if Plain(r) {
        RestIsCalm();
      }
    }

    lemma RestIsCalm()
      requires mode.BLOCKS? && AtRest()
      ensures Calm()
    {
    }

    // Where the decoder stops it is settled whether the stream will be left.
    lemma Settled()
      requires Valid()
      ensures Astray() ==> !Sure()
      ensures Calm() ==> Sure() || Astray()
    {
      hide AtHand, OnWay, Led, Inflater.Traced, Inflater.Whole, TablesOk, Ready, Stream, HeadAt, BitReader.Valid,
           Window.Valid, CodesState.Behind, Beyond, Remembers;
      if mode.BLOCKS? && blocks.mode.DRY? {
        DryIsLast(blocks.blens, blocks.cl, blocks.last, blocks.Bits(), blocks.br.Pos(), blocks.win.produced, blocks.BlockAhead(), blocks.Aim());
      }
    }

    lemma UnendedHere()
      requires blocks.Valid() && blocks.Dry()
      ensures Unended(blocks.origin, Delivered(), Given())
    {
      hide Stream, Remembers, Inflater.Whole, Agrees, TablesOk, Ready, Rest, Lengths, Inflater.Traced, Beyond, HeadAt,
           BlockAt;
      blocks.FirstUnended();
      blocks.win.Empty();
    }

    lemma StalledHere()
      requires blocks.Valid() && blocks.Starving()
      ensures Avail() == 0
      ensures Given() == |Data()| ==> !EndsWithin(Whole(), |Data()|) && (Whole().Done? ==> blocks.br.Left() <= 8)
    {
      hide Stream, Remembers, Inflater.Whole, Agrees, TablesOk, Ready, Rest, Lengths, Inflater.Valid;
      if Given() == |Data()| {
        blocks.Stalled();
      }
    }

    lemma NotAstray()
      requires blocks.Valid() && blocks.Lacking()
      ensures !blocks.Astray()
    {
      hide Stream, Remembers, Inflater.Whole, Agrees, TablesOk, Ready, Rest, Lengths, CodesState.Behind;
      if blocks.mode.CODES? {
        blocks.codes.NotBehind();
      }
    }

    // More input, at most as much as there is, and more space. The input may move to another area when all of the present one
    // has been taken; unless the decoder waits for it, a byte in front of it may then be given back.
    method Offer(n: nat, space: nat, area: Area)
      requires Valid() && Given() + n <= |Data()| && (area.Elsewhere? ==> Avail() == 0)
      modifies blocks.br`avail, blocks.br`area, blocks.br`front, blocks.br`strayed, blocks.win`room
      ensures Valid() && Given() == old(Given()) + n && Avail() == old(Avail()) + n
      ensures Room() == old(Room()) + space && Delivered() == old(Delivered())
      ensures if area.Continued? then old(Secure()) ==> Secure() else old(Waiting()) ==> Secure()
      ensures blocks.br.input == old(blocks.br.input) && blocks.last == old(blocks.last) && Final() == old(Final())
      ensures mode.BLOCKS? && area.Elsewhere? ==> blocks.br.area == old(Given()) && blocks.br.front == area.front
      ensures area.Continued? || !mode.BLOCKS? ==> unchanged(blocks.br`area, blocks.br`front, blocks.br`strayed)
      ensures area.Elsewhere? && old(Calm()) ==> Secure() || Astray() || Final()
      ensures mode.BLOCKS? && blocks.mode.CODES? && area.Elsewhere? ==>
                var b := old(blocks.codes.Outcome());
                && blocks.codes.Outcome() == b && (Secure() <==> !(b.EndOfBlock? && b.pos + 8 <= 8 * old(Given())))
                && (Astray() <==> !Secure() && !blocks.last)
                && (Astray() ==> AstrayTo() == Reread(blocks.br.input, old(Given()), area.front, b))
    {
      hide Window.Valid, Inflater.Traced, Stream, Remembers, Inflater.Whole, Agrees, TablesOk, Ready, Rest, Lengths;
      if mode.BLOCKS? {
        if area.Elsewhere? {
          blocks.MoveInput(area.front);
        }
        blocks.Offer(n, space);
      } else {
        blocks.br.avail := blocks.br.avail + n;
        blocks.win.room := blocks.win.room + space;
      }
    }

    // What the end, or a failure, says about the output.
    lemma Finished()
      requires Valid()
      ensures Led(Data(), blocks.turns, blocks.origin)
      ensures mode.FINISHED? ==> Whole().Done? && Delivered() == Whole().out
      ensures mode.FAILED? ==> Whole().Fail?
    {
      hide Inflater.Whole, Inflater.Valid;
    }

    lemma Prefix()
      requires Valid()
      ensures Delivered() <= Whole().out
    {
      hide Stream, Remembers, Inflater.Whole, Agrees, TablesOk, Ready, Rest, Lengths, Inflater.Valid;
      if mode.BLOCKS? {
        blocks.Prefix();
      }
    }

    // A new output area.
    method SetSpace(space: nat)
      requires Valid()
      modifies blocks.win`room
      ensures Valid() && Room() == space && Delivered() == old(Delivered()) && Dry() == old(Dry()) && Secure() == old(Secure())
      ensures Astray() == old(Astray()) && (Astray() ==> AstrayTo() == old(AstrayTo())) && Sure() == old(Sure())
      ensures mode.BLOCKS? && blocks.mode.CODES? ==> blocks.codes.Outcome() == old(blocks.codes.Outcome())
    {
      hide Stream, Remembers, Inflater.Whole, Agrees, TablesOk, Ready, Rest, Lengths;
      if mode.BLOCKS? {
        blocks.SetSpace(space);
      } else {
        blocks.win.room := space;
      }
    }
  }

  // What one call offers: bytes of input and where they lie, and space for output.
  datatype Offering = Offering(input: nat, area: Area, space: nat)

  // What it gives back: bytes of output, and how much input it has left.
  datatype Reply = Reply(bytes: seq<byte>, avail: nat)

  function TotalInput(calls: seq<Offering>): nat {
    if calls == [] then 0 else TotalInput(calls[..|calls| - 1]) + calls[|calls| - 1].input
  }

  function TotalSpace(calls: seq<Offering>): nat {
    if calls == [] then 0 else TotalSpace(calls[..|calls| - 1]) + calls[|calls| - 1].space
  }

  function TotalOutput(replies: seq<Reply>): seq<byte> {
    if replies == [] then [] else TotalOutput(replies[..|replies| - 1]) + replies[|replies| - 1].bytes
  }

  // How much of the data has been given by the first k calls.
  function GivenBy(input: seq<byte>, calls: seq<Offering>, k: nat): (n: nat)
    requires k <= |calls|
    ensures n <= |input|
  {
    Min(|input|, TotalInput(calls[..k]))
  }

  // The space for output that is left after the first k calls.
  function SpaceAfter(calls: seq<Offering>, replies: seq<Reply>, k: nat): int
    requires k <= |calls| && k <= |replies|
  {
    TotalSpace(calls[..k]) - |TotalOutput(replies[..k])|
  }

  // Call k, not the first, gives a new area of input after all of the one before has been taken, but no space was left for output.
  predicate Hurried(calls: seq<Offering>, replies: seq<Reply>, k: nat) {
    0 < k < |calls| && k <= |replies| && calls[k].area.Elsewhere? && replies[k - 1].avail == 0 && SpaceAfter(calls, replies, k) == 0
  }

  // New areas of input are given only together with more space than the output takes,
  predicate Patient(calls: seq<Offering>, size: nat) {
    forall k :: 0 < k < |calls| && calls[k].area.Elsewhere? ==> TotalSpace(calls[..k]) > size
  }

  // or they begin where no block but the last has just come to its end.
  ghost predicate Harmless(input: seq<byte>, calls: seq<Offering>) {
    forall k :: 0 < k < |calls| && calls[k].area.Elsewhere? ==> !Exposed(input, GivenBy(input, calls, k))
  }

  // At each of these calls the stream is turned to what lies in front of the area given.
  ghost predicate TurnsAt(input: seq<byte>, calls: seq<Offering>, replies: seq<Reply>, turns: seq<Turn>, at: seq<nat>) {
    && |at| == |turns|
    && (forall j :: 0 <= j < |at| ==> Hurried(calls, replies, at[j]))
    && (forall j :: 0 <= j < |at| ==> turns[j].area == GivenBy(input, calls, at[j]) && turns[j].front == calls[at[j]].area.front)
    && (forall i, j :: 0 <= i < j < |at| ==> at[i] < at[j])
  }

  lemma TotalsStep(calls: seq<Offering>, i: nat)
    requires i < |calls|
    ensures TotalInput(calls[..i + 1]) == TotalInput(calls[..i]) + calls[i].input
    ensures TotalSpace(calls[..i + 1]) == TotalSpace(calls[..i]) + calls[i].space
  {
    assert calls[..i + 1][..i] == calls[..i];
  }

  lemma NoCalls(input: seq<byte>, calls: seq<Offering>)
    ensures TotalInput(calls[..0]) == 0 == TotalSpace(calls[..0]) && TotalOutput([]) == []
    ensures GivenBy(input, calls, 0) == 0 && TurnsAt(input, calls, [], [], []) && TakesAll(calls, [])
  {
  }

  lemma OneReplyMore(calls: seq<Offering>, replies: seq<Reply>, reply: Reply)
    requires |replies| < |calls|
    ensures TotalOutput(replies + [reply]) == TotalOutput(replies) + reply.bytes
    ensures SpaceAfter(calls, replies, |replies|) == TotalSpace(calls[..|replies|]) - |TotalOutput(replies)|
    ensures forall k: nat :: k <= |replies| ==> SpaceAfter(calls, replies + [reply], k) == SpaceAfter(calls, replies, k)
    ensures forall k: nat :: k <= |replies| ==> Hurried(calls, replies + [reply], k) == Hurried(calls, replies, k)
  {
    assert (replies + [reply])[..|replies|] == replies;
    forall k: nat | k <= |replies|
      ensures (replies + [reply])[..k] == replies[..k]
    {
    }
  }

  lemma {:induction false} InHurry(calls: seq<Offering>, replies: seq<Reply>)
    requires 0 < |replies| < |calls| && calls[|replies|].area.Elsewhere? && replies[|replies| - 1].avail == 0
    ensures Hurried(calls, replies, |replies|) == (TotalSpace(calls[..|replies|]) == |TotalOutput(replies)|)
  {
    assert replies[..|replies|] == replies;
  }

  lemma NowGiven(input: seq<byte>, calls: seq<Offering>, i: nat)
    requires i < |calls|
    ensures GivenBy(input, calls, i + 1) == Min(|input|, GivenBy(input, calls, i) + calls[i].input)
  {
    hide TotalInput;
    TotalsStep(calls, i);
  }

  lemma SpaceNow(calls: seq<Offering>, replies: seq<Reply>)
    requires |replies| <= |calls|
    ensures SpaceAfter(calls, replies, |replies|) == TotalSpace(calls[..|replies|]) - |TotalOutput(replies)|
  {
    assert replies[..|replies|] == replies;
  }

  // No more comes out than there is space for; and whenever space is left, all input has been taken.
  predicate TakesAll(calls: seq<Offering>, replies: seq<Reply>) {
    && |replies| <= |calls|
    && (forall k :: 0 <= k <= |replies| ==> SpaceAfter(calls, replies, k) >= 0)
    && (forall k :: 0 < k < |replies| && SpaceAfter(calls, replies, k) > 0 ==> replies[k - 1].avail == 0)
  }

  lemma {:induction false} TakesAllOn(calls: seq<Offering>, replies: seq<Reply>, reply: Reply)
    requires |replies| < |calls| && TakesAll(calls, replies)
    requires replies != [] && SpaceAfter(calls, replies, |replies|) > 0 ==> replies[|replies| - 1].avail == 0
    requires |TotalOutput(replies)| + |reply.bytes| <= TotalSpace(calls[..|replies| + 1])
    ensures TakesAll(calls, replies + [reply])
  {
    hide TotalSpace, TotalOutput, SpaceAfter, Hurried;
    OneReplyMore(calls, replies, reply);
    SpaceNow(calls, replies + [reply]);
    assert (replies + [reply])[..|replies|] == replies;
  }

  // A turn more, or none, with the last move of the input.
  lemma TurnsGrow(input: seq<byte>, calls: seq<Offering>, replies: seq<Reply>, turns: seq<Turn>, at: seq<nat>, turns': seq<Turn>, m: nat)
    requires TurnsAt(input, calls, replies, turns, at)
    requires |turns'| == |turns| + 1 && turns <= turns' && Hurried(calls, replies, m)
    requires turns'[|turns|].area == GivenBy(input, calls, m) && turns'[|turns|].front == calls[m].area.front
    requires forall j :: 0 <= j < |at| ==> at[j] < m
    ensures TurnsAt(input, calls, replies, turns', at + [m])
  {
    hide Hurried, GivenBy;
  }

  lemma TurnsStay(input: seq<byte>, calls: seq<Offering>, replies: seq<Reply>, replies': seq<Reply>, turns: seq<Turn>, at: seq<nat>)
    requires TurnsAt(input, calls, replies, turns, at) && |replies| <= |replies'|
    requires forall k: nat :: k <= |replies| ==> Hurried(calls, replies', k) == Hurried(calls, replies, k)
    ensures TurnsAt(input, calls, replies', turns, at)
  {
    hide SpaceAfter, GivenBy;
  }

  lemma NotTurned(input: seq<byte>, o: Origin)
    requires Led(input, [], o)
    ensures o == Origin(input, 0, []) && OutcomeFrom(o) == Inflate(input)
  {
    hide OutcomeFrom, Inflate;
    FromTheStart(input);
  }

  lemma HarmlessMoves(input: seq<byte>, calls: seq<Offering>, replies: seq<Reply>, turns: seq<Turn>, at: seq<nat>, o: Origin)
    requires Led(input, turns, o) && TurnsAt(input, calls, replies, turns, at) && Harmless(input, calls)
    ensures turns == []
  {
    hide SpaceAfter, GivenBy, EndsBefore;
    if turns != [] {
      FirstTurn(Origin(input, 0, []), turns);
    }
  }

  // What is known between the calls of a run: the turns taken so far, and where the present area of input was given; a turn in
  // front of it is only possible if that was done in a hurry.
  ghost predicate InStep(z: ZStream, input: seq<byte>, calls: seq<Offering>, replies: seq<Reply>, at: seq<nat>, moved: nat)
    requires z.Valid()
    reads z, z.blocks, z.blocks.br, z.blocks.win, z.blocks.win.buf, z.blocks.codes
  {
    && moved <= |replies| <= |calls| && TurnsAt(input, calls, replies, z.blocks.turns, at)
    && z.blocks.br.area == GivenBy(input, calls, moved)
    && (moved > 0 ==> moved < |calls| && calls[moved].area.Elsewhere? && z.blocks.br.front == calls[moved].area.front)
    && (z.Secure() || z.blocks.br.strayed || (moved > 0 && Hurried(calls, replies, moved)))
    && (forall j :: 0 <= j < |at| ==> 0 < at[j] <= moved && (at[j] == moved ==> z.blocks.br.strayed))
  }

  // The input and the space of the next call.
  method Provide(z: ZStream, input: seq<byte>, calls: seq<Offering>, replies: seq<Reply>, ghost at: seq<nat>, ghost moved: nat)
    returns (ghost now: nat)
    requires z.Valid() && z.mode.BLOCKS? && z.Data() == input && |replies| < |calls| && InStep(z, input, calls, replies, at, moved)
    requires z.Given() == GivenBy(input, calls, |replies|) && (moved == 0 || moved < |replies|)
    requires TotalOutput(replies) == z.Delivered() && z.Room() + |z.Delivered()| == TotalSpace(calls[..|replies|])
    requires if replies == [] then z.Waiting() else (z.Room() > 0 ==> z.Waiting()) && replies[|replies| - 1].avail == z.Avail()
    modifies z.blocks.br`avail, z.blocks.br`area, z.blocks.br`front, z.blocks.br`strayed, z.blocks.win`room
    ensures z.Valid() && InStep(z, input, calls, replies, at, now)
    ensures z.Given() == GivenBy(input, calls, |replies| + 1)
    ensures z.Delivered() == old(z.Delivered()) && z.Room() + |z.Delivered()| == TotalSpace(calls[..|replies| + 1])
    ensures old(z.Secure()) && Patient(calls, |z.Delivered()|) ==> z.Secure()
  {
    hide TotalInput, TotalSpace, TotalOutput, Hurried, SpaceAfter, GivenBy, TurnsAt, Led, ZStream.Valid, Inflater.Final,
         ZStream.Waiting, OutcomeFrom, Inflater.Valid, BitReader.Valid, Window.Valid, Inflater.Secure, Inflater.Lacking,
         Inflater.Dry;
    var i := |replies|;
    var area := if z.Avail() == 0 then calls[i].area else Continued;
    now := moved;
    if area.Elsewhere? && i > 0 {
      now := i;
      InHurry(calls, replies);
    }
    TotalsStep(calls, i);
    NowGiven(input, calls, i);
    z.Offer(Min(calls[i].input, |input| - z.Given()), calls[i].space, area);
  }

  // The account of a call, when it has turned the stream or not.
  ghost method Record(z: ZStream, input: seq<byte>, calls: seq<Offering>, replies: seq<Reply>, reply: Reply, before: seq<Turn>, at: seq<nat>, moved: nat)
    returns (now: seq<nat>)
    requires z.Valid() && |replies| < |calls| && moved <= |replies| && TurnsAt(input, calls, replies, before, at)
    requires z.blocks.br.area == GivenBy(input, calls, moved)
    requires moved > 0 ==> moved < |calls| && calls[moved].area.Elsewhere? && z.blocks.br.front == calls[moved].area.front
    requires z.Secure() || z.blocks.br.strayed || (moved > 0 && Hurried(calls, replies, moved))
    requires forall j :: 0 <= j < |at| ==> 0 < at[j] <= moved && (at[j] == moved ==> z.blocks.br.strayed)
    requires z.blocks.turns != before ==>
               && z.blocks.br.strayed && moved > 0 && Hurried(calls, replies, moved) && |z.blocks.turns| == |before| + 1 && before <= z.blocks.turns
               && z.blocks.turns[|before|].area == z.blocks.br.area && z.blocks.turns[|before|].front == z.blocks.br.front
               && (forall j :: 0 <= j < |at| ==> at[j] < moved)
    ensures InStep(z, input, calls, replies + [reply], now, moved)
  {
    hide ZStream.Valid, ZStream.Secure, TurnsAt, Hurried, GivenBy, SpaceAfter, TotalOutput;
    now := at;
    OneReplyMore(calls, replies, reply);
    if z.blocks.turns != before {
      TurnsGrow(input, calls, replies, before, at, z.blocks.turns, moved);
      now := at + [moved];
    }
    TurnsStay(input, calls, replies, replies + [reply], z.blocks.turns, now);
  }

  // The state of a run after some calls, the last of which has returned r.
  ghost predicate Running(z: ZStream, input: seq<byte>, calls: seq<Offering>, replies: seq<Reply>, at: seq<nat>, moved: nat, r: Status)
    requires z.Valid()
    reads z, z.blocks, z.blocks.br, z.blocks.win, z.blocks.win.buf, z.blocks.codes
  {
    && z.Data() == input && InStep(z, input, calls, replies, at, moved) && (moved == 0 || moved < |replies|)
    && (Patient(calls, |Inflate(input).out|) ==> z.Secure() && z.blocks.turns == [] && z.blocks.origin == Origin(input, 0, []))
    && z.Given() == GivenBy(input, calls, |replies|)
    && TotalOutput(replies) == z.Delivered() <= z.Whole().out && z.Room() + |z.Delivered()| == TotalSpace(calls[..|replies|])
    && TakesAll(calls, replies)
    && (replies != [] ==> replies[|replies| - 1].avail == z.Avail())
    && (Plain(r) && (replies == [] || z.Room() > 0) ==> z.Waiting() && z.Avail() == 0)
    && (Plain(r) && replies != [] && z.Room() > 0 && z.Given() == |input| ==> !EndsWithin(z.Whole(), |input|))
    && (r.StreamEnd? <==> z.mode.FINISHED?) && (r.DataError? <==> z.mode.FAILED?) && (r.MemError? ==> z.Whole().Fail?)
    && (Plain(r) || r.StreamEnd? || r.DataError? || r.MemError?)
  }

  // One call, and its account.
  method OneCall(z: ZStream, input: seq<byte>, calls: seq<Offering>, replies: seq<Reply>, r0: Status, ghost at: seq<nat>, ghost moved: nat)
    returns (r: Status, reply: Reply, ghost at': seq<nat>, ghost moved': nat)
    requires z.Valid() && |replies| < |calls| && Running(z, input, calls, replies, at, moved, r0) && Plain(r0)
    modifies z, z.blocks, z.blocks.br`next, z.blocks.br`avail, z.blocks.br`bitb, z.blocks.br`bitk, z.blocks.br`held,
             z.blocks.br`input, z.blocks.br`area, z.blocks.br`front, z.blocks.br`strayed, z.blocks.win, z.blocks.win.buf,
             z.blocks.codes, z.blocks.hufts
    ensures z.Valid() && Running(z, input, calls, replies + [reply], at', moved', r)
  {
    hide EndsWithin, Inflate, Inflater.Astray, Harmless, Unended, TakesAll, TotalInput, TotalSpace, TotalOutput,
         Exposed, Hurried, SpaceAfter, GivenBy, TurnsAt, Led, ZStream.Valid, Inflater.Final, ZStream.Waiting,
         ZStream.AtRest, OutcomeFrom, Inflater.Valid, BitReader.Valid, Window.Valid, Inflater.Secure, Inflater.Lacking,
         Inflater.Dry;
    FromTheStart(input);
    ghost var before, had := z.blocks.turns, z.Delivered();
    moved' := Provide(z, input, calls, replies, at, moved);
    r := z.Call(Ok);
    reply := Reply(z.Delivered()[|TotalOutput(replies)|..], z.Avail());
    assert had + reply.bytes == z.Delivered();
    OneReplyMore(calls, replies, reply);
    TakesAllOn(calls, replies, reply);
    at' := Record(z, input, calls, replies, reply, before, at, moved');
  }

  lemma AtTheStart(z: ZStream, input: seq<byte>, calls: seq<Offering>)
    requires z.Valid() && z.mode.BLOCKS? && z.Data() == input && z.Given() == 0 && z.Room() == 0 && z.Delivered() == []
    requires z.blocks.origin == Origin(input, 0, []) && z.blocks.turns == [] && z.blocks.br.area == 0
    requires z.Secure() && z.Waiting() && z.Avail() == 0
    ensures Running(z, input, calls, [], [], 0, Ok)
  {
    hide ZStream.Valid, ZStream.Secure, ZStream.Waiting, OutcomeFrom, TakesAll, TotalInput, TotalSpace, TotalOutput,
         GivenBy, TurnsAt;
    NoCalls(input, calls);
  }

  lemma AllGiven(input: seq<byte>, calls: seq<Offering>)
    ensures GivenBy(input, calls, |calls|) == Min(|input|, TotalInput(calls))
  {
    assert calls[..|calls|] == calls;
  }

  // A run. Only a prefix of what the input decodes to comes out, and all of it when the end is reported; and the end is reported as
  // soon as all input and more space than output have been offered, if the input has a byte to spare after the compressed data.
  // This holds for what is decoded from the origin. That is the beginning, but for turns, and these come only from calls that have
  // given a new area of input in a hurry: not the first call, and behind one that left no space for output.
  method Decompress(input: seq<byte>, calls: seq<Offering>)
    returns (r: Status, out: seq<byte>, replies: seq<Reply>, ghost origin: Origin, ghost turns: seq<Turn>, ghost at: seq<nat>)
    ensures |replies| <= |calls| && (Plain(r) ==> |replies| == |calls|) && out == TotalOutput(replies)
    ensures TakesAll(calls, replies)
    ensures Led(input, turns, origin) && TurnsAt(input, calls, replies, turns, at)
    ensures turns == [] ==> OutcomeFrom(origin) == Inflate(input)
    ensures Patient(calls, |Inflate(input).out|) || Harmless(input, calls) ==> turns == []
    ensures out <= OutcomeFrom(origin).out
    ensures r.StreamEnd? ==> OutcomeFrom(origin).Done? && out == OutcomeFrom(origin).out
    ensures r.DataError? || r.MemError? ==> OutcomeFrom(origin).Fail?
    ensures
      && calls != [] && TotalInput(calls) >= |input| && TotalSpace(calls) > |OutcomeFrom(origin).out|
      && EndsWithin(OutcomeFrom(origin), |input|)
      ==> r.StreamEnd?
  {
    hide Harmless, Unended, TakesAll, TotalInput, TotalSpace, TotalOutput, Exposed, Hurried, SpaceAfter, GivenBy,
         TurnsAt, Led, ZStream.Valid, Inflater.Final, ZStream.Waiting, ZStream.AtRest, OutcomeFrom, Inflater.Valid,
         BitReader.Valid, Window.Valid, Inflater.Secure, Inflater.Lacking, Inflater.Dry;
    var z := new ZStream(input);
    r, replies, at := Ok, [], [];
    ghost var moved: nat := 0;
    AtTheStart(z, input, calls);
    while |replies| < |calls| && Plain(r)
      invariant z.Valid() && fresh(z) && fresh(z.blocks) && fresh(z.blocks.br) && fresh(z.blocks.win) && fresh(z.blocks.win.buf)
      invariant fresh(z.blocks.codes) && fresh(z.blocks.hufts) && |replies| <= |calls| && Running(z, input, calls, replies, at, moved, r)
      decreases |calls| - |replies|
    {
      var reply;
      r, reply, at, moved := OneCall(z, input, calls, replies, r, at, moved);
      replies := replies + [reply];
    }
    out, origin, turns := TotalOutput(replies), z.blocks.origin, z.blocks.turns;
    assert Plain(r) ==> calls[..|replies|] == calls;
    AllGiven(input, calls);
    z.Finished();
    if turns == [] {
      NotTurned(input, origin);
    } else if Harmless(input, calls) {
      HarmlessMoves(input, calls, replies, turns, at, origin);
    }
  }
}
