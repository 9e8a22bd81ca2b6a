// Decoding the symbols of a compressed block, interruptible wherever input or output space runs out (inflate_codes).
//
// Every mode stands for a place in the recursive decoder of module Deflate; Rest() is what that decoder yields from there.
// A step may move on as far as it likes, but it never changes Rest().

module InflateCodes {
  import opened Bits
  import opened Canonical
  import opened BitInput
  import opened RingWindow
  import opened HuftTable
  import opened HuftBuild
  import opened Huffman
  import opened Deflate

  // The mode, with the fields that the source keeps for it in a union.
  datatype Mode =
    | START
    | LEN(tree: nat, need: nat)
    | LENEXT(len: nat, get: nat)
    | DIST(len: nat, tree: nat, need: nat)
    | DISTEXT(len: nat, get: nat, dist: nat)
    | COPY(len: nat, dist: nat)
    | LIT(lit: byte)
    | WASH
    | END
    | BADCODE

  // The decoding tables of a block: bits per branch, table space and first table for literals/lengths and for distances.
  datatype CodeTables = CodeTables(lbits: nat, dbits: nat, ltab: seq<Entry>, ltree: nat, dtab: seq<Entry>, dtree: nat)

  const WINDOW_SIZE := 32768

  // The widest table a walk may begin with: what is looked at beyond the end of the block must fit into one byte.
  const LOOKAHEAD := 9

  // ----- where in the tables a suspended walk is

  // The walk that began at mark has come to the table tree, of need bits, at pos.
  ghost predicate AtTable(tab: seq<Entry>, root: nat, width: nat, bits: seq<bool>, mark: nat, tree: nat, need: nat, pos: nat) {
    && mark <= pos <= |bits| && pos - mark <= BMAX
    && Walk(tab, root, width, bits[mark..]) == Walk(tab, tree, need, bits[pos..]).Plus(pos - mark)
    && Shallow(tab, tree, need, bits[pos..], BMAX - (pos - mark), width)
  }

  lemma AtRoot(tab: seq<Entry>, root: nat, width: nat, bits: seq<bool>, pos: nat, b: seq<nat>, s: nat, d: seq<nat>, e: seq<nat>)
    requires pos <= |bits| && Lengths(b) && TablesFor(tab, root, width, b, s, d, e)
    ensures AtTable(tab, root, width, bits, pos, root, width, pos)
  {
    hide Walk, Shallow, Decodes, Direct;
  }

  // Taking the entry that the next bits select either goes on to a further table or ends the walk.
  lemma {:induction false} TableStep(tab: seq<Entry>, root: nat, width: nat, bits: seq<bool>, mark: nat, tree: nat, need: nat, pos: nat)
    requires AtTable(tab, root, width, bits, mark, tree, need, pos) && pos + need <= |bits|
    requires Walk(tab, root, width, bits[mark..]) != Lost
    ensures
      var at := tree + Val(bits, pos, need);
      && at < |tab| && 0 < tab[at].bits <= need
      && if IsLink(tab[at]) then
           AtTable(tab, root, width, bits, mark, at + tab[at].base, tab[at].exop, pos + tab[at].bits)
         else Walk(tab, root, width, bits[mark..]) == Leaf(tab[at], pos + tab[at].bits - mark)
  {
    hide Lsb, IsLink;
    var t := bits[pos..];
    assert Take(t, need) == bits[pos..pos + need];
    var e := tab[tree + Val(bits, pos, need)];
    assert t[e.bits..] == bits[pos + e.bits..];
  }

  lemma NeedBound(tab: seq<Entry>, root: nat, width: nat, bits: seq<bool>, mark: nat, tree: nat, need: nat, pos: nat)
    requires AtTable(tab, root, width, bits, mark, tree, need, pos)
    ensures pos - mark + need <= BMAX && need <= width
  {
    hide Walk;
  }

  lemma {:induction false} WalkOutcome(tab: seq<Entry>, root: nat, width: nat, t: seq<bool>, b: seq<nat>, s: nat, d: seq<nat>, e: seq<nat>)
    requires Lengths(b) && TablesFor(tab, root, width, b, s, d, e)
    ensures SameOutcome(Walk(tab, root, width, t), Decode(b, t), b, s, d, e, StaleOf(b, s, d, e, width))
    ensures Walk(tab, root, width, t) != Lost
  {
    hide Walk, Decode, Shallow, Matches, OpOf, StaleOf, Longest, Direct;
  }

  // ----- what an operation byte says

  lemma FlagsOf(x: nat)
    requires x < 16
    ensures Flag(80 + x, 4) && Flag(80 + x, 6) && Low(80 + x, 4) == x
    ensures !Flag(96, 4) && Flag(96, 5) && Flag(96, 6)
    ensures !Flag(192, 4) && !Flag(192, 5) && Flag(192, 6)
  {
    ShrShl(5, x, 4);
    assert Shr(80 + x, 4) == 5;
    ShrShr(80 + x, 4, 2);
    assert Shr(80 + x, 6) == 1;
    ShrShl(6, 0, 4);
    ShrShl(3, 0, 5);
    ShrShl(1, 32, 6);
    ShrShl(12, 0, 4);
    ShrShl(6, 0, 5);
    ShrShl(3, 0, 6);
  }

  // What the entry of a literal/length symbol says.
  lemma LitEntry(e: Entry, y: nat)
    requires y < 288 && Matches(e, OpOf(y, 257, LengthBase(), LengthExtra()))
    ensures y < 256 ==> e.exop == 0 && e.base == y
    ensures y == 256 ==> e.exop != 0 && !Flag(e.exop, 4) && Flag(e.exop, 6) && Flag(e.exop, 5)
    ensures 257 <= y <= 285 ==> e.exop != 0 && Flag(e.exop, 4) && Low(e.exop, 4) == LengthExtra()[y - 257] && e.base == LengthBase()[y - 257]
    ensures 285 < y ==> e.exop != 0 && !Flag(e.exop, 4) && Flag(e.exop, 6) && !Flag(e.exop, 5)
  {
    hide Shr, Low, IsLink, LengthBase;
    if 257 <= y <= 285 {
      assert LengthExtra()[y - 257] < 16;
      FlagsOf(LengthExtra()[y - 257]);
    } else {
      FlagsOf(0);
    }
  }

  lemma InvalidEntry(e: Entry)
    requires e.exop == INVALID_CODE
    ensures e.exop != 0 && !Flag(e.exop, 4) && Flag(e.exop, 6) && !Flag(e.exop, 5)
  {
    hide Shr;
    FlagsOf(0);
  }

  lemma DistEntry(e: Entry, y: nat)
    requires y < 30 && Matches(e, OpOf(y, 0, DistBase(), DistExtra()))
    ensures Flag(e.exop, 4) && Low(e.exop, 4) == DistExtra()[y] < 14 && e.base == DistBase()[y]
  {
    hide Shr, Low, IsLink, DistBase;
    assert DistExtra()[y] < 14;
    FlagsOf(DistExtra()[y]);
  }

  // No distance reaches beyond the window.
  lemma DistanceRange(y: nat)
    requires y < 30
    ensures DistExtra()[y] < 14 && 1 <= DistBase()[y] && DistBase()[y] + Pow2(DistExtra()[y]) <= WINDOW_SIZE + 1
  {
  }

  lemma LengthRange(i: nat)
    requires i < 29
    ensures LengthExtra()[i] <= 5 && 3 <= LengthBase()[i] && LengthBase()[i] + Pow2(LengthExtra()[i]) <= 259
  {
  }

  // What is left of the block after the entry t of a literal/length table, with the stream at pos.
  ghost predicate LitMeaning(t: Entry, b: Block, lit: seq<nat>, dist: seq<nat>, bits: seq<bool>, pos: nat, out: seq<byte>)
    requires Lengths(lit) && Lengths(dist) && pos <= |bits|
  {
    if t.exop == 0 then t.base < 256 && b == Codes(lit, dist, bits, pos, out + [t.base])
    else if Flag(t.exop, 4) then
      && |lit| > 257 && Low(t.exop, 4) <= 5 && 3 <= t.base && t.base + Pow2(Low(t.exop, 4)) <= 259
      && b == LengthPart(lit, dist, bits, pos, out, t.base, Low(t.exop, 4))
    else if Flag(t.exop, 5) then b == EndOfBlock(pos, out)
    else b == Stopped(Fail(out))
  }

  lemma {:induction false} LitStep(t: Entry, lit: seq<nat>, dist: seq<nat>, bits: seq<bool>, mark: nat, pos: nat, out: seq<byte>, stale: Op)
    requires Lengths(lit) && Lengths(dist) && |lit| <= 288 && mark <= pos <= |bits|
    requires SameOutcome(Leaf(t, pos - mark), Decode(lit, bits[mark..]), lit, 257, LengthBase(), LengthExtra(), stale)
    ensures t.exop == 0 ==> t.base < |lit| && mark + lit[t.base] == pos
    ensures LitMeaning(t, Codes(lit, dist, bits, mark, out), lit, dist, bits, pos, out)
  {
    hide Decode, OpOf, Shr, Low, LengthPart, IsLink, Longest, Flag, Pow2, LengthBase, LengthExtra;
    match Decode(lit, bits[mark..])
    case Symbol(y, n) =>
      LitEntry(t, y);
      if 257 <= y <= 285 {
        LengthRange(y - 257);
      }
    case Invalid => InvalidEntry(t);
  }

  // What is left of the block after the entry t of a distance table.
  ghost predicate DistMeaning(t: Entry, b: Block, lit: seq<nat>, dist: seq<nat>, bits: seq<bool>, pos: nat, out: seq<byte>, length: nat)
    requires Lengths(lit) && Lengths(dist) && pos <= |bits|
  {
    if Flag(t.exop, 4) then
      && Low(t.exop, 4) <= 13 && 1 <= t.base && t.base + Pow2(Low(t.exop, 4)) <= WINDOW_SIZE + 1
      && b == DistanceExtra(lit, dist, bits, pos, out, length, t.base, Low(t.exop, 4))
    else Flag(t.exop, 6) && b == Stopped(Fail(out))
  }

  lemma {:induction false} DistStep(t: Entry, lit: seq<nat>, dist: seq<nat>, bits: seq<bool>, mark: nat, pos: nat, out: seq<byte>, length: nat, stale: Op)
    requires Lengths(lit) && Lengths(dist) && |dist| <= 30 && mark <= pos <= |bits|
    requires SameOutcome(Leaf(t, pos - mark), Decode(dist, bits[mark..]), dist, 0, DistBase(), DistExtra(), stale)
    ensures DistMeaning(t, DistancePart(lit, dist, bits, mark, out, length), lit, dist, bits, pos, out, length)
  {
    hide Decode, OpOf, Shr, Low, DistanceExtra, IsLink, Longest, Flag, Pow2, DistBase, DistExtra;
    match Decode(dist, bits[mark..])
    case Symbol(y, n) =>
      DistEntry(t, y);
      DistanceRange(y);
    case Invalid => InvalidEntry(t);
  }

  // How far the modes are from needing input or finishing, for termination.
  function Order(m: Mode): nat {
    match m
    case LENEXT(_, _) => 9
    case DIST(_, _, _) => 8
    case DISTEXT(_, _, _) => 7
    case COPY(_, _) => 6
    case LIT(_) => 6
    case START => 5
    case LEN(_, _) => 4
    case WASH => 10
    case END => 2
    case BADCODE => 1
  }

  predicate Plain(r: Status) {
    r.Ok? || r.BufError?
  }

  // The return value after input was taken (NEEDBYTE).
  function AfterInput(r: Status, taken: bool): Status {
    if taken then Ok else r
  }

  // The return value after a flush.
  function AfterFlush(r: Status, delivered: bool): Status {
    if delivered && r.BufError? then Ok else r
  }

  // ----- the meaning of a state

  // The tables decode the codes with the lengths lit and dist. Without length symbols there may be no distance tables.
  ghost predicate TablesOk(tb: CodeTables, lit: seq<nat>, dist: seq<nat>) {
    && Lengths(lit) && Lengths(dist) && |lit| <= 288 && |dist| <= 30
    && TablesFor(tb.ltab, tb.ltree, tb.lbits, lit, 257, LengthBase(), LengthExtra())
    && (|lit| > 257 ==> TablesFor(tb.dtab, tb.dtree, tb.dbits, dist, 0, DistBase(), DistExtra()))
    && tb.lbits == Width(lit, 9) <= LOOKAHEAD && tb.dbits <= LOOKAHEAD
  }

  // What each mode relies on; the symbol being decoded began at mark.
  ghost predicate Ready(m: Mode, tb: CodeTables, lit: seq<nat>, mark: nat, bits: seq<bool>, pos: nat) {
    match m
    case LEN(tree, need) => AtTable(tb.ltab, tb.ltree, tb.lbits, bits, mark, tree, need, pos)
    case LENEXT(len, get) => |lit| > 257 && get <= 5 && 3 <= len && len + Pow2(get) <= 259
    case DIST(len, tree, need) => |lit| > 257 && 3 <= len <= 258 && AtTable(tb.dtab, tb.dtree, tb.dbits, bits, mark, tree, need, pos)
    case DISTEXT(len, get, dist) => |lit| > 257 && 3 <= len <= 258 && get <= 13 && 1 <= dist && dist + Pow2(get) <= WINDOW_SIZE + 1
    case COPY(len, dist) => |lit| > 257 && 1 <= dist <= WINDOW_SIZE
    case _ => true
  }

  // What decoding the rest of the block yields.
  ghost function Rest(m: Mode, lit: seq<nat>, dist: seq<nat>, mark: nat, bits: seq<bool>, pos: nat, out: seq<byte>): Block
    requires Lengths(lit) && Lengths(dist) && mark <= |bits| && pos <= |bits|
  {
    match m
    case START => Codes(lit, dist, bits, pos, out)
    case LEN(_, _) => Codes(lit, dist, bits, mark, out)
    case LENEXT(len, get) => LengthPart(lit, dist, bits, pos, out, len, get)
    case DIST(len, _, _) => DistancePart(lit, dist, bits, mark, out, len)
    case DISTEXT(len, get, d) => DistanceExtra(lit, dist, bits, pos, out, len, d, get)
    case COPY(len, d) => Copying(lit, dist, bits, pos, out, len, d)
    case LIT(x) => Codes(lit, dist, bits, pos, out + [x])
    case WASH => EndOfBlock(pos, out)
    case END => EndOfBlock(pos, out)
    case BADCODE => Stopped(Fail(out))
  }

  // The output so far is the beginning of the output at the end of the block.
  lemma RestExtends(m: Mode, lit: seq<nat>, dist: seq<nat>, mark: nat, bits: seq<bool>, pos: nat, out: seq<byte>)
    requires Lengths(lit) && Lengths(dist) && mark <= |bits| && pos <= |bits|
    ensures Extends'(Rest(m, lit, dist, mark, bits, pos, out), 0, |bits|, out)
  {
    hide Lengths;
  }

  lemma {:induction false} LengthUnfold(lit: seq<nat>, dist: seq<nat>, bits: seq<bool>, pos: nat, out: seq<byte>, base: nat, get: nat)
    requires Lengths(lit) && Lengths(dist) && pos + get <= |bits|
    ensures LengthPart(lit, dist, bits, pos, out, base, get) == DistancePart(lit, dist, bits, pos + get, out, base + Val(bits, pos, get))
  {
    hide DistancePart, Lengths;
  }

  lemma {:induction false} DistanceUnfold(lit: seq<nat>, dist: seq<nat>, bits: seq<bool>, pos: nat, out: seq<byte>, len: nat, base: nat, get: nat)
    requires Lengths(lit) && Lengths(dist) && pos + get <= |bits|
    ensures DistanceExtra(lit, dist, bits, pos, out, len, base, get) == Copying(lit, dist, bits, pos + get, out, len, base + Val(bits, pos, get))
  {
    hide Lengths;
  }

  // One byte of a copy on the unbounded output.
  lemma CopyUnfold(lit: seq<nat>, dist: seq<nat>, bits: seq<bool>, pos: nat, out: seq<byte>, len: nat, d: nat)
    requires Lengths(lit) && Lengths(dist) && pos <= |bits|
    ensures len == 0 ==> Copying(lit, dist, bits, pos, out, len, d) == Codes(lit, dist, bits, pos, out)
    ensures len > 0 ==>
      Copying(lit, dist, bits, pos, out, len, d) == Copying(lit, dist, bits, pos, out + [Back(out, d)], len - 1, d)
  {
    hide Codes, Extends', Lengths;
  }

  // ----- how far ahead the end of the block is

  lemma {:induction false} WalkAhead(tab: seq<Entry>, tree: nat, need: nat, t: seq<bool>, budget: nat, cap: nat)
    requires Shallow(tab, tree, need, t, budget, cap)
    ensures Walk(tab, tree, need, t).Leaf? ==> Walk(tab, tree, need, t).used > 0
  {
    hide IsLink;
  }

  lemma LeafUsed(w: WalkResult, dec: Decoded, lens: seq<nat>, s: nat, d: seq<nat>, e: seq<nat>, stale: Op)
    requires SameOutcome(w, dec, lens, s, d, e, stale)
    ensures dec.Symbol? ==> w.Leaf? && w.used == dec.used
  {
    hide Matches, OpOf;
  }

  // The symbol that a suspended walk is looking for ends beyond the place the walk has come to.
  lemma SymbolAhead(tab: seq<Entry>, root: nat, width: nat, bits: seq<bool>, mark: nat, tree: nat, need: nat, pos: nat, b: seq<nat>, s: nat, d: seq<nat>, e: seq<nat>)
    requires AtTable(tab, root, width, bits, mark, tree, need, pos)
    requires Lengths(b) && TablesFor(tab, root, width, b, s, d, e)
    ensures Decode(b, bits[mark..]).Symbol? ==> mark + Decode(b, bits[mark..]).used > pos
  {
    hide Walk, Shallow, TablesFor, Decode, SameOutcome, StaleOf;
    WalkOutcome(tab, root, width, bits[mark..], b, s, d, e);
    WalkAhead(tab, tree, need, bits[pos..], BMAX - (pos - mark), width);
    LeafUsed(Walk(tab, root, width, bits[mark..]), Decode(b, bits[mark..]), b, s, d, e, StaleOf(b, s, d, e, width));
  }

  lemma {:induction false} CodesAhead(lit: seq<nat>, dist: seq<nat>, bits: seq<bool>, pos: nat, out: seq<byte>)
    requires Lengths(lit) && Lengths(dist) && pos <= |bits|
    ensures
      var b := Codes(lit, dist, bits, pos, out);
      b.EndOfBlock? ==> Decode(lit, bits[pos..]).Symbol? && b.pos >= pos + Decode(lit, bits[pos..]).used
  {
    hide Decode, LengthBase, LengthExtra, LengthPart;
  }

  lemma {:induction false} DistanceAhead(lit: seq<nat>, dist: seq<nat>, bits: seq<bool>, pos: nat, out: seq<byte>, length: nat)
    requires Lengths(lit) && Lengths(dist) && pos <= |bits|
    ensures
      var b := DistancePart(lit, dist, bits, pos, out, length);
      b.EndOfBlock? ==> Decode(dist, bits[pos..]).Symbol? && b.pos >= pos + Decode(dist, bits[pos..]).used
  {
    hide Decode, DistBase, DistExtra, DistanceExtra;
  }

  class CodesState {
    const br: BitReader
    const win: Window

    var mode: Mode
    var tables: CodeTables

    // The code lengths the tables were made from, and where the symbol being decoded begins.
    ghost var litLens: seq<nat>
    ghost var distLens: seq<nat>
    ghost var mark: nat

    constructor (br: BitReader, win: Window)
      ensures this.br == br && this.win == win
    {
      this.br, this.win := br, win;
      mode, tables := BADCODE, CodeTables(0, 0, [], 0, [], 0);
      litLens, distLens, mark := [], [], 0;
    }

    ghost function Bits(): seq<bool>
      reads br`input
    {
      Stream(br.input)
    }

    ghost predicate Objects()
      reads br, win, win.buf
    {
      br.Valid() && win.Valid() && win.buf.Length == WINDOW_SIZE
    }

    ghost predicate Valid()
      reads this, br, win, win.buf
    {
      Filled() && br.bitk < 16
    }

    // The same while the buffer may hold more bits.
    ghost predicate Filled()
      reads this, br, win, win.buf
    {
      && Objects() && TablesOk(tables, litLens, distLens) && mark <= |Bits()|
      && Ready(mode, tables, litLens, mark, Bits(), br.Pos())
      && (mode.LIT? ==> mode.lit < |litLens| && br.Pos() + tables.lbits <= 8 * br.next + litLens[mode.lit])
      && (mode.LEN? ==> Looked() || (br.Pos() == mark && mode.need == tables.lbits))
      && (mode.END? ==> br.bitk < 8)
    }

    // The bits for the first table have been looked at, so their bytes have been taken.
    ghost predicate Looked()
      reads this, br
    {
      mark + tables.lbits <= 8 * br.next
    }

    ghost function Outcome(): Block
      requires br.Valid() && Lengths(litLens) && Lengths(distLens) && mark <= |Bits()|
      reads this, br, win
    {
      Rest(mode, litLens, distLens, mark, Bits(), br.Pos(), win.produced)
    }

    // Set up for a block with these tables (inflate_codes_new).
    method Begin(tb: CodeTables, ghost lit: seq<nat>, ghost dist: seq<nat>)
      requires Objects() && TablesOk(tb, lit, dist) && br.bitk < 16
      modifies this
      ensures Valid() && mode.START? && Outcome() == Codes(lit, dist, Bits(), br.Pos(), win.produced)
      ensures tables == tb && litLens == lit && distLens == dist
    {
      hide TablesFor, Stream, BitReader.Source, BitReader.Buffer, Codes, Lengths;
      mode, tables := START, tb;
      litLens, distLens, mark := lit, dist, 0;
    }

    // What every step keeps: the block decodes to the same bytes, nothing that is there is lost, and what is read is the data.
    twostate predicate Kept()
      requires old(Valid()) && Valid()
      reads this, br, win, win.buf
    {
      && tables == old(tables) && litLens == old(litLens) && distLens == old(distLens)
      && Outcome() == old(Outcome())
      && old(win.produced) <= win.produced && old(win.delivered) <= win.delivered
      && win.room + |win.delivered| == old(win.room) + |old(win.delivered)|
      && br.Left() <= old(br.Left()) && br.Given() == old(br.Given())
      && Turned()
      && (mode.WASH? || mode.END? ==> old(mode.WASH?) || old(mode.END?) || br.Left() < old(br.Left()))
    }

    // Progress of a step that does not leave.
    twostate predicate Onward()
      reads this, br
    {
      br.Left() < old(br.Left()) || (br.Left() == old(br.Left()) && Order(mode) < old(Order(mode)))
    }

    // The buffer holds fewer bits than the mode asks for.
    ghost predicate Lacking()
      reads this, br
    {
      match mode
      case LEN(_, need) => br.bitk < need
      case LENEXT(_, get) => br.bitk < get
      case DIST(_, _, need) => br.bitk < need
      case DISTEXT(_, get, _) => br.bitk < get
      case _ => false
    }

    // And there is no more input.
    ghost predicate Starving()
      reads this, br
    {
      br.avail == 0 && Lacking()
    }

    // There is no space for output: the window is full, or holds the last bytes of the block.
    ghost predicate Blocked()
      reads this, win
    {
      && win.room == 0
      && (mode.WASH? || ((mode.LIT? || mode.COPY?) && |win.produced| >= |win.delivered| + WINDOW_SIZE - 1))
    }

    // The block ends a whole byte or more in front of the present area of input, and nothing of the area has been taken.
    ghost predicate Behind()
      requires Valid()
      reads this, br, win, win.buf
    {
      br.next == br.area && Outcome().EndOfBlock? && Outcome().pos + 8 <= 8 * br.area
    }

    // A byte in front of the area is given back exactly if the block ends behind it; before the end of the block nothing changes
    // about that, and where no byte is given back the stream remains what it is.
    twostate predicate Turned()
      requires old(Valid()) && Valid()
      reads this, br, win, win.buf
    {
      && (old(br.strayed) ==> br.strayed)
      && (br.strayed == old(br.strayed) ==> br.input == old(br.input))
      && (!br.strayed ==> Behind() == old(Behind()))
      && (br.strayed && !old(br.strayed) ==> old(Behind()) && (mode.WASH? || mode.END?) && Again(old(br.input)))
    }

    // The byte in front of the area comes once more, or-ed with what lies there.
    ghost predicate Again(input: seq<byte>)
      reads br
    {
      0 < br.area <= |input| && br.input == input[br.area - 1 := OrByte(input[br.area - 1], br.front)]
    }

    // The value a step returns says whether an error or the end of the block was reached. The fast path reports the end while
    // output is still pending; then StreamEnd is returned in mode WASH already.
    ghost predicate Returns(leave: bool, r: Status)
      reads this
    {
      if leave && mode.BADCODE? then r.DataError?
      else if leave && mode.END? then r.StreamEnd?
      else Plain(r) || (r.StreamEnd? && mode.WASH?)
    }

    // If the buffer holds fewer bits than the mode asks for, the block does not end before the last byte taken.
    lemma Stalled()
      requires Valid() && Lacking()
      ensures if Outcome().EndOfBlock? then Outcome().pos + 8 > 8 * br.next else !Outcome().o.Done?
      ensures br.next == |br.input| && Outcome().EndOfBlock? ==> br.bitk < LOOKAHEAD
    {
      hide Walk, Shallow, TablesFor, Stream, BitReader.Source, BitReader.Buffer, Decode, SameOutcome, StaleOf, Codes,
           DistancePart, LengthBase, LengthExtra, DistBase, DistExtra;
      if mode.LEN? {
        LenFacts();
        CodesAhead(litLens, distLens, Bits(), mark, win.produced);
        SymbolAhead(tables.ltab, tables.ltree, tables.lbits, Bits(), mark, mode.tree, mode.need, br.Pos(), litLens, 257, LengthBase(), LengthExtra());
      } else if mode.DIST? {
        DistFacts();
        DistanceAhead(litLens, distLens, Bits(), mark, win.produced, mode.len);
        SymbolAhead(tables.dtab, tables.dtree, tables.dbits, Bits(), mark, mode.tree, mode.need, br.Pos(), distLens, 0, DistBase(), DistExtra());
      }
    }

    // The end of the block has not been passed.
    lemma EndAhead()
      requires Valid()
      ensures Outcome().EndOfBlock? ==> br.Pos() <= Outcome().pos && win.produced <= Outcome().out
    {
      hide Walk, Shallow, TablesFor, Stream, BitReader.Source, BitReader.Buffer, Decode, SameOutcome, StaleOf, Codes,
           DistancePart, LengthBase, LengthExtra, DistBase, DistExtra;
      if mode.LEN? {
        LenFacts();
        CodesAhead(litLens, distLens, Bits(), mark, win.produced);
        SymbolAhead(tables.ltab, tables.ltree, tables.lbits, Bits(), mark, mode.tree, mode.need, br.Pos(), litLens, 257, LengthBase(), LengthExtra());
      } else if mode.DIST? {
        DistFacts();
        DistanceAhead(litLens, distLens, Bits(), mark, win.produced, mode.len);
        SymbolAhead(tables.dtab, tables.dtree, tables.dbits, Bits(), mark, mode.tree, mode.need, br.Pos(), distLens, 0, DistBase(), DistExtra());
      }
    }

    // So a state that asks for input is not going to give back a byte in front of the area.
    lemma NotBehind()
      requires Valid()
      ensures Lacking() ==> !Behind()
    {
      hide TablesOk, Ready, Rest, Stream, BitReader.Source, BitReader.Buffer;
      if Lacking() {
        Stalled();
      }
    }

    // The entry the next need bits select, with the bits it uses up taken.
    method NextEntry(tab: seq<Entry>, tree: nat, need: nat, ghost root: nat, ghost width: nat, r0: Status)
      returns (ok: bool, r: Status, at: nat, t: Entry)
      requires br.Valid() && Plain(r0) && AtTable(tab, root, width, Bits(), mark, tree, need, br.Pos())
      requires Walk(tab, root, width, Bits()[mark..]) != Lost && need <= LOOKAHEAD && br.bitk < 16
      modifies br`next, br`avail, br`bitb, br`bitk, br`held
      ensures br.Valid() && Plain(r) && br.bitk < 16 && old(br.next) <= br.next
      ensures r.BufError? ==> r0.BufError? && old(br.avail) <= br.avail && win.room == old(win.room)
      ensures if old(br.bitk) >= need then br.next == old(br.next) else ok ==> old(br.next) < br.next
      ensures ok ==> br.Pos() + need <= 8 * br.next + t.bits
      ensures !ok ==> br.avail == 0 && br.bitk < need && br.Pos() == old(br.Pos()) && br.Left() == old(br.Left())
      ensures old(br.avail == 0 && br.bitk < need) ==> !ok && r == r0
      ensures ok ==> br.Pos() == old(br.Pos()) + t.bits && t.bits > 0 && br.Left() == old(br.Left()) - t.bits
      ensures ok && IsLink(t) ==> AtTable(tab, root, width, Bits(), mark, at + t.base, t.exop, br.Pos())
      ensures ok && !IsLink(t) ==> Walk(tab, root, width, Bits()[mark..]) == Leaf(t, br.Pos() - mark)
    {
      hide BitReader.Valid, Shallow, Walk, Lsb, Low, IsLink, Stream;
      at, t := 0, Entry(0, 0, 0);
      ghost var pos := br.Pos();
      var taken;
      ok, taken := br.NeedBits(need);
      r := AfterInput(r0, taken);
      if ok {
        br.Peek(need);
        TableStep(tab, root, width, Bits(), mark, tree, need, pos);
        at := tree + Low(br.bitb, need);
        t := tab[at];
        br.Dump(t.bits);
      }
    }

    lemma WalkBounds()
      requires Valid() && (mode.LEN? || mode.DIST?)
      ensures mark <= br.Pos() <= |Bits()|
      ensures if mode.LEN? then Walk(tables.ltab, tables.ltree, tables.lbits, Bits()[mark..]) != Lost
              else Walk(tables.dtab, tables.dtree, tables.dbits, Bits()[mark..]) != Lost
      ensures mode.need <= LOOKAHEAD
    {
      hide Walk, Shallow, TablesFor, Stream;
      if mode.LEN? {
        NeedBound(tables.ltab, tables.ltree, tables.lbits, Bits(), mark, mode.tree, mode.need, br.Pos());
        WalkOutcome(tables.ltab, tables.ltree, tables.lbits, Bits()[mark..], litLens, 257, LengthBase(), LengthExtra());
      } else {
        NeedBound(tables.dtab, tables.dtree, tables.dbits, Bits(), mark, mode.tree, mode.need, br.Pos());
        WalkOutcome(tables.dtab, tables.dtree, tables.dbits, Bits()[mark..], distLens, 0, DistBase(), DistExtra());
      }
    }

    // Get the next literal, length or end of block.
    method StepLen(r0: Status) returns (leave: bool, r: Status)
      requires Valid() && mode.LEN? && Plain(r0)
      modifies this, br`next, br`avail, br`bitb, br`bitk, br`held
      ensures Valid() && Kept() && (leave || Onward()) && Returns(leave, r)
      ensures leave && !mode.BADCODE? ==> Starving()
      ensures old(Starving()) ==> leave && r == r0 && mode == old(mode)
      ensures r.BufError? ==> r0.BufError? && old(br.avail) <= br.avail && win.room == old(win.room)
    {
      hide Walk, AtTable, TablesOk, IsLink, Stream, BitReader.Source, BitReader.Buffer, Lengths, Ready, Rest, Codes;
      LenFacts();
      NotBehind();
      var ok, at, t;
      ok, r, at, t := NextEntry(tables.ltab, mode.tree, mode.need, tables.ltree, tables.lbits, r0);
      leave := !ok;
      if ok {
        mode := LitMode(t, at);
        assert Outcome() == old(Outcome());
        leave := mode.BADCODE?;
        if leave {
          r := DataError;
        }
      }
    }

    // What a state in mode LEN relies on and stands for.
    lemma LenFacts()
      requires Valid() && mode.LEN?
      ensures mark <= br.Pos() <= |Bits()| && Lengths(litLens) && Lengths(distLens)
      ensures AtTable(tables.ltab, tables.ltree, tables.lbits, Bits(), mark, mode.tree, mode.need, br.Pos())
      ensures Walk(tables.ltab, tables.ltree, tables.lbits, Bits()[mark..]) != Lost && mode.need <= LOOKAHEAD
      ensures Outcome() == Codes(litLens, distLens, Bits(), mark, win.produced)
    {
      hide Walk, Shallow, TablesFor, Stream, BitReader.Source, BitReader.Buffer, Codes;
      WalkBounds();
    }

    // The mode that the entry t, found at slot at, leads to.
    method LitMode(t: Entry, at: nat) returns (m: Mode)
      requires br.Valid() && TablesOk(tables, litLens, distLens) && mark <= br.Pos() <= |Bits()| && Lengths(litLens) && Lengths(distLens)
      requires IsLink(t) ==> AtTable(tables.ltab, tables.ltree, tables.lbits, Bits(), mark, at + t.base, t.exop, br.Pos())
      requires !IsLink(t) ==> Walk(tables.ltab, tables.ltree, tables.lbits, Bits()[mark..]) == Leaf(t, br.Pos() - mark)
      ensures Ready(m, tables, litLens, mark, Bits(), br.Pos())
      ensures Rest(m, litLens, distLens, mark, Bits(), br.Pos(), win.produced) == Codes(litLens, distLens, Bits(), mark, win.produced)
      ensures m.LIT? || m.LENEXT? || m.LEN? || m.WASH? || m.BADCODE?
      ensures m.LIT? ==> m.lit < |litLens| && mark + litLens[m.lit] == br.Pos()
    {
      hide Walk, AtTable, Low, TablesOk, IsLink, Stream, BitReader.Source, BitReader.Buffer, Flag, Codes, LengthPart,
           Extends', Pow2, Lengths;
      LitFound(t);
      if t.exop == 0 {
        m := LIT(t.base);
      } else if Flag(t.exop, 4) {
        m := LENEXT(t.base, Low(t.exop, 4));
      } else if !Flag(t.exop, 6) {
        m := LEN(at + t.base, t.exop);
      } else if Flag(t.exop, 5) {
        m := WASH;
      } else {
        m := BADCODE;
      }
    }

    lemma LitFound(t: Entry)
      requires br.Valid() && TablesOk(tables, litLens, distLens) && mark <= br.Pos() <= |Bits()|
      requires !IsLink(t) ==> Walk(tables.ltab, tables.ltree, tables.lbits, Bits()[mark..]) == Leaf(t, br.Pos() - mark)
      ensures IsLink(t) <==> t.exop != 0 && !Flag(t.exop, 4) && !Flag(t.exop, 6)
      ensures !IsLink(t) && t.exop == 0 ==> t.base < |litLens| && mark + litLens[t.base] == br.Pos()
      ensures !IsLink(t) ==>
        (Lengths(litLens) && Lengths(distLens)
         && LitMeaning(t, Codes(litLens, distLens, Bits(), mark, win.produced), litLens, distLens, Bits(), br.Pos(), win.produced))
    {
      hide Walk, TablesFor, Stream, BitReader.Source, BitReader.Buffer, Codes, LengthBase, LengthExtra, DistBase,
           DistExtra, LitMeaning, SameOutcome, StaleOf;
      if !IsLink(t) {
        var tb := tables;
        WalkOutcome(tb.ltab, tb.ltree, tb.lbits, Bits()[mark..], litLens, 257, LengthBase(), LengthExtra());
        LitStep(t, litLens, distLens, Bits(), mark, br.Pos(), win.produced, StaleOf(litLens, 257, LengthBase(), LengthExtra(), tb.lbits));
      }
    }

    // Get the length extra bits.
    method StepLenExt(r0: Status) returns (leave: bool, r: Status)
      requires Valid() && mode.LENEXT? && Plain(r0)
      modifies this, br`next, br`avail, br`bitb, br`bitk, br`held
      ensures Valid() && Kept() && (leave || Onward()) && Returns(leave, r)
      ensures leave ==> Starving()
      ensures old(Starving()) ==> leave && r == r0 && mode == old(mode)
      ensures r.BufError? ==> r0.BufError? && old(br.avail) <= br.avail && win.room == old(win.room)
    {
      hide Walk, AtTable, TablesOk, Stream, BitReader.Source, BitReader.Buffer, DistancePart, Lengths, Ready, Rest, Val,
           Pow2;
      LenExtFacts();
      NotBehind();
      var j := mode.get;
      var ok, taken := br.NeedBits(j);
      r := AfterInput(r0, taken);
      leave := !ok;
      if ok {
        ReadLength();
      }
    }

    // The length extra bits are in the buffer.
    method ReadLength()
      requires Valid() && mode.LENEXT? && mode.get <= br.bitk
      modifies this, br`bitb, br`bitk, br`held
      ensures Valid() && Kept() && mode.DIST?
    {
      hide Walk, AtTable, TablesOk, Stream, BitReader.Source, BitReader.Buffer, DistancePart, Lengths, Ready, Rest, Val,
           Pow2;
      LenExtFacts();
      LengthKnown(mode.get);
      var len := TakeExtra(mode.len, mode.get);
      mark := br.Pos();
      DistReady(mark);
      mode := DIST(len, tables.dtree, tables.dbits);
      NowDist();
    }

    lemma LenExtFacts()
      requires Valid() && mode.LENEXT?
      ensures |litLens| > 257 && mode.get <= 5 && 3 <= mode.len && mode.len + Pow2(mode.get) <= 259
    {
      hide TablesFor, Stream, BitReader.Source, BitReader.Buffer, LengthPart, Pow2;
    }

    lemma NowDist()
      requires Objects() && TablesOk(tables, litLens, distLens) && mode.DIST? && mark <= br.Pos() <= |Bits()| && Lengths(litLens) && Lengths(distLens)
      requires |litLens| > 257 && 3 <= mode.len <= 258
      requires AtTable(tables.dtab, tables.dtree, tables.dbits, Bits(), mark, mode.tree, mode.need, br.Pos())
      ensures Ready(mode, tables, litLens, mark, Bits(), br.Pos())
      ensures Outcome() == DistancePart(litLens, distLens, Bits(), mark, win.produced, mode.len)
    {
      hide TablesFor, Stream, BitReader.Source, BitReader.Buffer, DistancePart, AtTable;
    }

    // A base value plus the next j bits, which are taken; the buffer holds them.
    method TakeExtra(base: nat, j: nat) returns (v: nat)
      requires br.Valid() && j <= br.bitk
      modifies br`bitb, br`bitk, br`held
      ensures br.Valid() && br.Pos() == old(br.Pos()) + j && br.Left() == old(br.Left()) - j
      ensures br.avail == old(br.avail) && br.bitk == old(br.bitk) - j
      ensures old(br.Pos()) + j <= |Bits()|
      ensures v == base + Val(Bits(), old(br.Pos()), j) && v < base + Pow2(j)
    {
      hide Low, Stream, BitReader.Source, BitReader.Buffer, Val, Pow2;
      br.Peek(j);
      ExtraBound(Bits(), br.Pos(), j);
      v := base + Low(br.bitb, j);
      br.Dump(j);
    }

    lemma ExtraBound(bits: seq<bool>, pos: nat, n: nat)
      requires pos + n <= |bits|
      ensures Val(bits, pos, n) < Pow2(n)
    {
      hide Pow2, Lsb;
      LsbBound(bits[pos..pos + n]);
    }

    lemma {:induction false} LengthKnown(j: nat)
      requires Valid() && mode.LENEXT? && j == mode.get <= br.bitk
      ensures br.Pos() + j <= |Bits()| && Lengths(litLens) && Lengths(distLens) && mark <= |Bits()|
      ensures Outcome() == DistancePart(litLens, distLens, Bits(), br.Pos() + j, win.produced, mode.len + Val(Bits(), br.Pos(), j))
    {
      hide TablesFor, Stream, BitReader.Source, BitReader.Buffer, Lengths, LengthPart, DistancePart, Val;
      br.Peek(j);
      LengthUnfold(litLens, distLens, Bits(), br.Pos(), win.produced, mode.len, j);
    }

    lemma {:induction false} DistanceKnown(j: nat)
      requires Filled() && mode.DISTEXT? && j == mode.get <= br.bitk
      ensures br.Pos() + j <= |Bits()| && Lengths(litLens) && Lengths(distLens) && mark <= |Bits()|
      ensures Outcome() == Copying(litLens, distLens, Bits(), br.Pos() + j, win.produced, mode.len, mode.dist + Val(Bits(), br.Pos(), j))
    {
      hide TablesFor, Stream, BitReader.Source, BitReader.Buffer, Lengths, DistanceExtra, Copying, Val;
      br.Peek(j);
      DistanceUnfold(litLens, distLens, Bits(), br.Pos(), win.produced, mode.len, mode.dist, j);
    }

    // Get the distance next.
    method StepDist(r0: Status) returns (leave: bool, r: Status)
      requires Valid() && mode.DIST? && Plain(r0)
      modifies this, br`next, br`avail, br`bitb, br`bitk, br`held
      ensures Valid() && Kept() && (leave || Onward()) && Returns(leave, r)
      ensures leave && !mode.BADCODE? ==> Starving()
      ensures old(Starving()) ==> leave && r == r0 && mode == old(mode)
      ensures r.BufError? ==> r0.BufError? && old(br.avail) <= br.avail && win.room == old(win.room)
    {
      hide Looked, Walk, AtTable, TablesOk, IsLink, Stream, BitReader.Source, BitReader.Buffer, Lengths, Ready, Rest;
      DistFacts();
      NotBehind();
      var ok, at, t;
      ok, r, at, t := NextEntry(tables.dtab, mode.tree, mode.need, tables.dtree, tables.dbits, r0);
      leave := !ok;
      if ok {
        mode := DistMode(mode.len, t, at);
        leave := mode.BADCODE?;
        if leave {
          r := DataError;
        }
      }
    }

    // What a state in mode DIST relies on and stands for.
    lemma DistFacts()
      requires Valid() && mode.DIST?
      ensures mark <= br.Pos() <= |Bits()| && Lengths(litLens) && Lengths(distLens) && |litLens| > 257 && 3 <= mode.len <= 258
      ensures AtTable(tables.dtab, tables.dtree, tables.dbits, Bits(), mark, mode.tree, mode.need, br.Pos())
      ensures Walk(tables.dtab, tables.dtree, tables.dbits, Bits()[mark..]) != Lost && mode.need <= LOOKAHEAD
      ensures Outcome() == DistancePart(litLens, distLens, Bits(), mark, win.produced, mode.len)
    {
      hide Walk, Shallow, TablesFor, Stream, BitReader.Source, BitReader.Buffer, DistancePart;
      WalkBounds();
    }

    // The mode that the entry t of the distance tables, found at slot at, leads to; the length is len.
    method DistMode(len: nat, t: Entry, at: nat) returns (m: Mode)
      requires br.Valid() && TablesOk(tables, litLens, distLens) && mark <= br.Pos() <= |Bits()| && Lengths(litLens) && Lengths(distLens)
      requires |litLens| > 257 && 3 <= len <= 258
      requires IsLink(t) ==> AtTable(tables.dtab, tables.dtree, tables.dbits, Bits(), mark, at + t.base, t.exop, br.Pos())
      requires !IsLink(t) ==> Walk(tables.dtab, tables.dtree, tables.dbits, Bits()[mark..]) == Leaf(t, br.Pos() - mark)
      ensures Ready(m, tables, litLens, mark, Bits(), br.Pos())
      ensures Rest(m, litLens, distLens, mark, Bits(), br.Pos(), win.produced) == DistancePart(litLens, distLens, Bits(), mark, win.produced, len)
      ensures m.DISTEXT? || m.DIST? || m.BADCODE?
    {
      hide Walk, AtTable, Low, TablesOk, IsLink, Stream, BitReader.Source, BitReader.Buffer, Flag, DistancePart,
           DistanceExtra, Extends', Pow2, Lengths;
      DistFound(len, t);
      if Flag(t.exop, 4) {
        m := DISTEXT(len, Low(t.exop, 4), t.base);
      } else if !Flag(t.exop, 6) {
        m := DIST(len, at + t.base, t.exop);
      } else {
        m := BADCODE;
      }
    }

    // An entry of the distance tables never has the operation byte of a literal.
    lemma {:induction false} DistFound(len: nat, t: Entry)
      requires br.Valid() && TablesOk(tables, litLens, distLens) && |litLens| > 257 && mark <= br.Pos() <= |Bits()|
      requires !IsLink(t) ==> Walk(tables.dtab, tables.dtree, tables.dbits, Bits()[mark..]) == Leaf(t, br.Pos() - mark)
      ensures IsLink(t) ==> !Flag(t.exop, 4) && !Flag(t.exop, 6)
      ensures !IsLink(t) ==>
        (Lengths(litLens) && Lengths(distLens)
         && DistMeaning(t, DistancePart(litLens, distLens, Bits(), mark, win.produced, len), litLens, distLens, Bits(), br.Pos(), win.produced, len))
    {
      hide Walk, TablesFor, Stream, BitReader.Source, BitReader.Buffer, DistancePart, LengthBase, LengthExtra, DistBase,
           DistExtra, DistMeaning, SameOutcome, StaleOf;
      if !IsLink(t) {
        var tb := tables;
        WalkOutcome(tb.dtab, tb.dtree, tb.dbits, Bits()[mark..], distLens, 0, DistBase(), DistExtra());
        DistStep(t, litLens, distLens, Bits(), mark, br.Pos(), win.produced, len, StaleOf(distLens, 0, DistBase(), DistExtra(), tb.dbits));
      }
    }

    // Get the distance extra bits.
    method StepDistExt(r0: Status) returns (leave: bool, r: Status)
      requires Valid() && mode.DISTEXT? && Plain(r0)
      modifies this, br`next, br`avail, br`bitb, br`bitk, br`held
      ensures Valid() && Kept() && (leave || Onward()) && Returns(leave, r)
      ensures leave ==> Starving()
      ensures old(Starving()) ==> leave && r == r0 && mode == old(mode)
      ensures r.BufError? ==> r0.BufError? && old(br.avail) <= br.avail && win.room == old(win.room)
    {
      hide Looked, TablesOk, Low, Stream, BitReader.Source, BitReader.Buffer, Copying, Lsb, Extends', Lengths, Pow2;
      NotBehind();
      var j := mode.get;
      var ok, taken := br.NeedBits(j);
      r := AfterInput(r0, taken);
      leave := !ok;
      if leave {
        return;
      }
      DistanceKnown(j);
      var dist := TakeExtra(mode.dist, j);
      mode := COPY(mode.len, dist);
    }

    // Copy bytes within the window as long as there is space.
    method StepCopy(r0: Status) returns (leave: bool, r: Status)
      requires Valid() && mode.COPY? && Plain(r0)
      modifies this, win, win.buf
      ensures Valid() && Kept() && (leave || Onward()) && Returns(leave, r)
      ensures leave ==> Blocked()
      ensures r.BufError? ==> r0.BufError? && old(br.avail) <= br.avail && win.room == old(win.room)
    {
      hide Looked, Again, Window.Valid, Rest, Ready, TablesOk, Stream, BitReader.Source, BitReader.Buffer, Extends',
           Lengths;
      r, leave := r0, false;
      CopyFacts();
      var f := win.Source(mode.dist);
      while mode.len > 0
        invariant Valid() && Kept() && mode.COPY? && Plain(r) && (r.BufError? ==> r0.BufError? && win.room == old(win.room))
        invariant 1 <= mode.dist <= WINDOW_SIZE && f == win.Source(mode.dist)
        invariant br.Left() == old(br.Left())
        decreases mode.len
      {
        var ok, flushed := win.NeedOut();
        if !ok {
          leave, r := true, AfterFlush(r, flushed);
          return;
        }
        r := Ok;
        f := CopyByte(f);
      }
      CopyDone();
      mode := START;
    }

    // One byte of a copy; f is its source.
    method CopyByte(f0: nat) returns (f: nat)
      requires Valid() && mode.COPY? && mode.len > 0 && win.Avail() > 0 && f0 == win.Source(mode.dist)
      modifies this`mode, win`write, win`produced, win.buf
      ensures Valid() && Kept() && mode == COPY(old(mode.len) - 1, old(mode.dist)) && f == win.Source(mode.dist)
    {
      hide Rest, BitReader.Valid, Window.Valid, TablesOk, Stream, BitReader.Source, BitReader.Buffer, Codes, Extends',
           Lengths, Pow2, Copying, CopyMatch;
      CopyFacts();
      f := f0;
      win.SourceByte(mode.dist);
      win.Put([win.buf[f]]);
      f := f + 1;
      if f == win.buf.Length {
        f := 0;
      }
      mode := COPY(mode.len - 1, mode.dist);
    }

    lemma CopyFacts()
      requires Valid() && mode.COPY?
      ensures 1 <= mode.dist <= WINDOW_SIZE
      ensures Lengths(litLens) && Lengths(distLens) && mark <= |Bits()|
      ensures mode.len > 0 ==>
        Outcome() == Rest(COPY(mode.len - 1, mode.dist), litLens, distLens, mark, Bits(), br.Pos(),
                          win.produced + [Back(win.produced, mode.dist)])
    {
      hide TablesFor, Stream, BitReader.Source, BitReader.Buffer, Codes, Extends', Lengths, Pow2;
    }

    lemma CopyDone()
      requires Valid() && mode.COPY? && mode.len == 0
      ensures Lengths(litLens) && Lengths(distLens) && mark <= |Bits()|
      ensures Outcome() == Rest(START, litLens, distLens, mark, Bits(), br.Pos(), win.produced)
      ensures Ready(START, tables, litLens, mark, Bits(), br.Pos())
    {
      hide TablesFor, Stream, BitReader.Source, BitReader.Buffer, Codes, Extends', Lengths, Pow2;
    }

    // Put out a literal.
    method StepLit(r0: Status) returns (leave: bool, r: Status)
      requires Valid() && mode.LIT? && Plain(r0)
      modifies this, win, win.buf
      ensures Valid() && Kept() && (leave || Onward()) && Returns(leave, r)
      ensures leave ==> Blocked()
      ensures r.BufError? ==> r0.BufError? && old(br.avail) <= br.avail && win.room == old(win.room)
    {
      hide Again, TablesOk, Stream, BitReader.Source, BitReader.Buffer, Codes, Extends', Lengths, Pow2;
      r := r0;
      var ok, flushed := win.NeedOut();
      leave := !ok;
      if leave {
        r := AfterFlush(r, flushed);
        return;
      }
      r := Ok;
      win.Put([mode.lit]);
      mode := START;
    }

    // ----- the fast path (inflate_fast): with ten bytes of input and space for 258 bytes no step needs to ask for either

    // Follow the tables to the entry of the next symbol and take its bits; there are bits enough for any symbol.
    method FastWalk(tab: seq<Entry>, root: nat, width: nat) returns (t: Entry)
      requires br.Valid() && br.bitk >= BMAX && AtTable(tab, root, width, Bits(), br.Pos(), root, width, br.Pos())
      requires Walk(tab, root, width, Bits()[br.Pos()..]) != Lost
      modifies br`bitb, br`bitk, br`held
      ensures br.Valid() && br.avail == old(br.avail) && br.Left() < old(br.Left())
      ensures old(br.Pos()) < br.Pos() <= old(br.Pos()) + BMAX && br.bitk == old(br.bitk) - (br.Pos() - old(br.Pos()))
      ensures !IsLink(t) && Walk(tab, root, width, Bits()[old(br.Pos())..]) == Leaf(t, br.Pos() - old(br.Pos()))
    {
      hide Walk, Lsb, Low, Stream, BitReader.Source, BitReader.Buffer, Flag;
      ghost var start := br.Pos();
      var at, need := root, width;
      br.Peek(need);
      TableStep(tab, root, width, Bits(), start, at, need, br.Pos());
      at := at + Low(br.bitb, need);
      t := tab[at];
      ghost var pos := br.Pos();
      br.Dump(t.bits);
      while IsLink(t)
        invariant br.Valid() && br.avail == old(br.avail) && br.Left() < old(br.Left())
        invariant start < br.Pos() <= start + BMAX && br.bitk == old(br.bitk) - (br.Pos() - start)
        invariant if IsLink(t) then AtTable(tab, root, width, Bits(), start, at + t.base, t.exop, br.Pos())
                  else Walk(tab, root, width, Bits()[start..]) == Leaf(t, br.Pos() - start)
        decreases br.bitk
      {
        need := t.exop;
        NeedBound(tab, root, width, Bits(), start, at + t.base, need, br.Pos());
        br.Peek(need);
        TableStep(tab, root, width, Bits(), start, at + t.base, need, br.Pos());
        at := at + t.base + Low(br.bitb, need);
        t := tab[at];
        br.Dump(t.bits);
      }
    }

    // What the block yields when len bytes are still to be copied from distance d.
    ghost function Ahead(len: nat, d: nat): Block
      requires br.Valid() && Lengths(litLens) && Lengths(distLens)
      reads this, br, win
    {
      Copying(litLens, distLens, Bits(), br.Pos(), win.produced, len, d)
    }

    // Copy one byte from slot r.
    method PutFrom(r: nat, ghost d: nat, ghost len: nat)
      requires Objects() && Lengths(litLens) && Lengths(distLens)
      requires 1 <= d <= WINDOW_SIZE && r == win.Source(d)
      requires len > 0 && win.Avail() > 0
      modifies win`write, win`produced, win.buf
      ensures Objects() && win.Avail() == old(win.Avail()) - 1 && win.write == old(win.write) + 1
      ensures old(win.produced) <= win.produced && |win.produced| == |old(win.produced)| + 1
      ensures win.Source(d) == (if r + 1 == WINDOW_SIZE then 0 else r + 1)
      ensures Ahead(len - 1, d) == old(Ahead(len, d))
    {
      hide Copying, Stream, BitReader.Source, BitReader.Buffer, Lengths;
      win.SourceByte(d);
      CopyUnfold(litLens, distLens, Bits(), br.Pos(), win.produced, len, d);
      win.Put([win.buf[r]]);
    }

    // Copy n bytes from slot r0 on, which do not reach over the end of the window; len is what is left to copy in all.
    method CopyRun(n: nat, r0: nat, ghost d: nat, ghost len: nat)
      requires Objects() && Lengths(litLens) && Lengths(distLens)
      requires 1 <= d <= WINDOW_SIZE && r0 == win.Source(d)
      requires 1 <= n <= len && n <= win.Avail() && r0 + n <= WINDOW_SIZE
      modifies win`write, win`produced, win.buf
      ensures Objects() && win.Avail() == old(win.Avail()) - n && win.write == old(win.write) + n
      ensures old(win.produced) <= win.produced && |win.produced| == |old(win.produced)| + n
      ensures win.Source(d) == (if r0 + n == WINDOW_SIZE then 0 else r0 + n)
      ensures Ahead(len - n, d) == old(Ahead(len, d))
    {
      hide Ahead, Stream, BitReader.Source, BitReader.Buffer, Lengths, Remembers;
      var r, i := r0, 0;
      while i < n
        invariant 0 <= i <= n && r == r0 + i
        invariant Objects() && win.Avail() == old(win.Avail()) - i && win.write == old(win.write) + i
        invariant old(win.produced) <= win.produced && |win.produced| == |old(win.produced)| + i
        invariant win.Source(d) == (if r == WINDOW_SIZE then 0 else r)
        invariant br.Valid() && Ahead(len - i, d) == old(Ahead(len, d))
      {
        PutFrom(r, d, len - i);
        r := r + 1;
        i := i + 1;
      }
    }

    // Copy c bytes from distance d; the source may cross the end of the window once.
    method FastCopy(c0: nat, d: nat)
      requires Objects() && Lengths(litLens) && Lengths(distLens)
      requires 1 <= d <= WINDOW_SIZE && 1 <= c0 <= win.Avail()
      modifies win`write, win`produced, win.buf
      ensures Objects() && old(win.produced) <= win.produced && |win.produced| == |old(win.produced)| + c0
      ensures Codes(litLens, distLens, Bits(), br.Pos(), win.produced)
           == old(Ahead(c0, d))
    {
      hide Codes, Copying, Stream, BitReader.Source, BitReader.Buffer, Lengths;
      var c, r := c0, 0;
      if win.write >= d {
        r := win.write - d;
      } else {
        var e := d - win.write;
        r := WINDOW_SIZE - e;
        if c > e {
          CopyRun(e, r, d, c);
          c := c - e;
          r := 0;
        }
      }
      CopyRun(c, r, d, c);
      CopyUnfold(litLens, distLens, Bits(), br.Pos(), win.produced, 0, d);
    }

    // The state of the fast path between two symbols; b is what the block yields.
    ghost predicate FastState(b: Block)
      reads this, br, win, win.buf
    {
      && Objects() && TablesOk(tables, litLens, distLens)
      && b == Codes(litLens, distLens, Bits(), br.Pos(), win.produced)
    }

    // Decode one symbol, and with a length the distance as well, and put out what it stands for. Ok means that the next
    // symbol follows, StreamEnd the end of the block and DataError an invalid code. At most ten bytes are taken and at most
    // 258 put out.
    method FastSymbol(ghost b: Block) returns (r: Status)
      requires FastState(b) && win.Avail() >= 258 && br.avail >= 10
      modifies br`next, br`avail, br`bitb, br`bitk, br`held, win`write, win`produced, win.buf
      ensures Objects() && br.Left() < old(br.Left()) && br.avail <= old(br.avail) <= br.avail + 10 && br.Given() == old(br.Given())
      ensures old(win.produced) <= win.produced && |win.produced| <= |old(win.produced)| + 258
      ensures r.Ok? ==> FastState(b)
      ensures r.StreamEnd? ==> b == EndOfBlock(br.Pos(), win.produced)
      ensures r.DataError? ==> b == Stopped(Fail(win.produced))
      ensures r.Ok? || r.StreamEnd? || r.DataError?
    {
      hide Walk, Codes, LengthPart, TablesOk, IsLink, Low, Flag, Stream, BitReader.Source, BitReader.Buffer, Lengths,
           Pow2, Extends', AtTable, Remembers, DistancePart, Val;
      ghost var start := br.Pos();
      LitReady(start);
      br.GrabBits(20);
      var t := FastWalk(tables.ltab, tables.ltree, tables.lbits);
      LitRead(t, start);
      if t.exop == 0 {
        win.Put([t.base]);
        r := Ok;
      } else if Flag(t.exop, 4) {
        var e := Low(t.exop, 4);
        LengthKnown'(t.base, e);
        var c := TakeExtra(t.base, e);
        r := FastDistance(c, b);
      } else if Flag(t.exop, 5) {
        r := StreamEnd;
      } else {
        r := DataError;
      }
    }

    lemma LitReady(start: nat)
      requires Objects() && TablesOk(tables, litLens, distLens) && start == br.Pos()
      ensures AtTable(tables.ltab, tables.ltree, tables.lbits, Bits(), start, tables.ltree, tables.lbits, start)
      ensures Walk(tables.ltab, tables.ltree, tables.lbits, Bits()[start..]) != Lost
      ensures Lengths(litLens) && Lengths(distLens)
    {
      hide Walk, Stream, BitReader.Source, BitReader.Buffer, AtTable, TablesFor;
      AtRoot(tables.ltab, tables.ltree, tables.lbits, Bits(), start, litLens, 257, LengthBase(), LengthExtra());
      WalkOutcome(tables.ltab, tables.ltree, tables.lbits, Bits()[start..], litLens, 257, LengthBase(), LengthExtra());
    }

    lemma {:induction false} LitRead(t: Entry, start: nat)
      requires br.Valid() && TablesOk(tables, litLens, distLens) && start <= br.Pos() <= |Bits()|
      requires !IsLink(t) && Walk(tables.ltab, tables.ltree, tables.lbits, Bits()[start..]) == Leaf(t, br.Pos() - start)
      ensures Lengths(litLens) && Lengths(distLens)
      ensures LitMeaning(t, Codes(litLens, distLens, Bits(), start, win.produced), litLens, distLens, Bits(), br.Pos(), win.produced)
    {
      hide Walk, TablesFor, Stream, BitReader.Source, BitReader.Buffer, Codes, LengthBase, LengthExtra, DistBase,
           DistExtra, LitMeaning, SameOutcome, StaleOf;
      var tb := tables;
      WalkOutcome(tb.ltab, tb.ltree, tb.lbits, Bits()[start..], litLens, 257, LengthBase(), LengthExtra());
      LitStep(t, litLens, distLens, Bits(), start, br.Pos(), win.produced, StaleOf(litLens, 257, LengthBase(), LengthExtra(), tb.lbits));
    }

    lemma {:induction false} LengthKnown'(base: nat, j: nat)
      requires br.Valid() && Lengths(litLens) && Lengths(distLens) && j <= br.bitk
      ensures br.Pos() + j <= |Bits()|
      ensures LengthPart(litLens, distLens, Bits(), br.Pos(), win.produced, base, j)
           == DistancePart(litLens, distLens, Bits(), br.Pos() + j, win.produced, base + Val(Bits(), br.Pos(), j))
    {
      hide Stream, BitReader.Source, BitReader.Buffer, Lengths, LengthPart, DistancePart, Val;
      br.Peek(j);
      LengthUnfold(litLens, distLens, Bits(), br.Pos(), win.produced, base, j);
    }

    lemma {:induction false} DistanceKnown'(c: nat, base: nat, j: nat)
      requires br.Valid() && Lengths(litLens) && Lengths(distLens) && j <= br.bitk
      ensures br.Pos() + j <= |Bits()|
      ensures DistanceExtra(litLens, distLens, Bits(), br.Pos(), win.produced, c, base, j)
           == Copying(litLens, distLens, Bits(), br.Pos() + j, win.produced, c, base + Val(Bits(), br.Pos(), j))
    {
      hide Stream, BitReader.Source, BitReader.Buffer, Lengths, DistanceExtra, Copying, Val;
      br.Peek(j);
      DistanceUnfold(litLens, distLens, Bits(), br.Pos(), win.produced, c, base, j);
    }

    // Decode the distance for a copy of c bytes, and copy.
    method FastDistance(c: nat, ghost b: Block) returns (r: Status)
      requires Objects() && TablesOk(tables, litLens, distLens)
      requires |litLens| > 257 && Lengths(litLens) && Lengths(distLens)
      requires b == DistancePart(litLens, distLens, Bits(), br.Pos(), win.produced, c)
      requires 3 <= c <= 258 <= win.Avail() && br.avail >= 5
      modifies br`next, br`avail, br`bitb, br`bitk, br`held, win`write, win`produced, win.buf
      ensures Objects() && br.Left() <= old(br.Left()) && br.avail <= old(br.avail) <= br.avail + 4 && br.Given() == old(br.Given())
      ensures old(win.produced) <= win.produced && |win.produced| <= |old(win.produced)| + 258
      ensures r.Ok? ==> FastState(b)
      ensures r.DataError? ==> b == Stopped(Fail(win.produced))
      ensures r.Ok? || r.DataError?
    {
      hide Codes, DistancePart, DistanceExtra, Copying, TablesOk, Low, Flag, Stream, BitReader.Source, BitReader.Buffer,
           Lengths, Pow2, Extends', Remembers, Val;
      var t := FastDistanceEntry(c);
      if Flag(t.exop, 4) {
        var d := FastDistanceExtra(c, t.base, Low(t.exop, 4));
        FastCopy(c, d);
        r := Ok;
      } else {
        r := DataError;
      }
    }

    // The entry of the distance symbol.
    method FastDistanceEntry(c: nat) returns (t: Entry)
      requires br.Valid() && TablesOk(tables, litLens, distLens) && Objects() && |litLens| > 257
      requires Lengths(litLens) && Lengths(distLens) && br.avail >= 5
      modifies br`next, br`avail, br`bitb, br`bitk, br`held
      ensures br.Valid() && br.Left() <= old(br.Left()) && br.Given() == old(br.Given()) && br.Pos() <= |Bits()|
      ensures br.avail <= old(br.avail) <= br.avail + 2
      ensures DistMeaning(t, old(DistancePart(litLens, distLens, Bits(), br.Pos(), win.produced, c)), litLens, distLens, Bits(), br.Pos(), win.produced, c)
    {
      hide Walk, DistancePart, TablesOk, IsLink, Stream, BitReader.Source, BitReader.Buffer, Lengths, AtTable,
           Remembers, DistMeaning;
      ghost var start := br.Pos();
      DistReady(start);
      br.GrabBits(15);
      t := FastWalk(tables.dtab, tables.dtree, tables.dbits);
      DistRead(t, start, c);
    }

    // The distance, from its base and extra bits.
    method FastDistanceExtra(c: nat, base: nat, e: nat) returns (d: nat)
      requires br.Valid() && Lengths(litLens) && Lengths(distLens) && e <= 13 && br.avail >= 3
      requires 1 <= base && base + Pow2(e) <= WINDOW_SIZE + 1
      modifies br`next, br`avail, br`bitb, br`bitk, br`held
      ensures br.Valid() && br.Left() <= old(br.Left()) && br.Given() == old(br.Given()) && br.avail <= old(br.avail) <= br.avail + 2
      ensures 1 <= d <= WINDOW_SIZE && br.Pos() <= |Bits()|
      ensures old(DistanceExtra(litLens, distLens, Bits(), br.Pos(), win.produced, c, base, e))
           == Copying(litLens, distLens, Bits(), br.Pos(), win.produced, c, d)
    {
      hide DistanceExtra, Copying, Stream, BitReader.Source, BitReader.Buffer, Lengths, Pow2, Val;
      br.GrabBits(e);
      DistanceKnown'(c, base, e);
      d := TakeExtra(base, e);
    }

    lemma DistReady(start: nat)
      requires Objects() && TablesOk(tables, litLens, distLens) && start == br.Pos() && |litLens| > 257
      ensures AtTable(tables.dtab, tables.dtree, tables.dbits, Bits(), start, tables.dtree, tables.dbits, start)
      ensures Walk(tables.dtab, tables.dtree, tables.dbits, Bits()[start..]) != Lost
      ensures Lengths(litLens) && Lengths(distLens)
    {
      hide Walk, Stream, BitReader.Source, BitReader.Buffer, AtTable, TablesFor;
      AtRoot(tables.dtab, tables.dtree, tables.dbits, Bits(), start, distLens, 0, DistBase(), DistExtra());
      WalkOutcome(tables.dtab, tables.dtree, tables.dbits, Bits()[start..], distLens, 0, DistBase(), DistExtra());
    }

    lemma {:induction false} DistRead(t: Entry, start: nat, c: nat)
      requires br.Valid() && TablesOk(tables, litLens, distLens) && |litLens| > 257 && start <= br.Pos() <= |Bits()|
      requires !IsLink(t) && Walk(tables.dtab, tables.dtree, tables.dbits, Bits()[start..]) == Leaf(t, br.Pos() - start)
      ensures Lengths(litLens) && Lengths(distLens)
      ensures DistMeaning(t, DistancePart(litLens, distLens, Bits(), start, win.produced, c), litLens, distLens, Bits(), br.Pos(), win.produced, c)
    {
      hide Walk, TablesFor, Stream, BitReader.Source, BitReader.Buffer, DistancePart, LengthBase, LengthExtra, DistBase,
           DistExtra, DistMeaning, SameOutcome, StaleOf;
      var tb := tables;
      WalkOutcome(tb.dtab, tb.dtree, tb.dbits, Bits()[start..], distLens, 0, DistBase(), DistExtra());
      DistStep(t, litLens, distLens, Bits(), start, br.Pos(), win.produced, c, StaleOf(distLens, 0, DistBase(), DistExtra(), tb.dbits));
    }

    // Symbols as long as there is input and space for any of them.
    method InflateFast() returns (r: Status)
      requires Valid() && mode.START? && win.Avail() >= 258 && br.avail >= 10
      modifies br`next, br`avail, br`bitb, br`bitk, br`held, win`write, win`produced, win.buf
      ensures Objects() && br.Left() < old(br.Left()) && br.Given() == old(br.Given())
      ensures old(win.produced) <= win.produced
      ensures r.Ok? ==> old(Outcome()) == Codes(litLens, distLens, Bits(), br.Pos(), win.produced)
      ensures r.StreamEnd? ==> old(Outcome()) == EndOfBlock(br.Pos(), win.produced)
      ensures r.DataError? ==> old(Outcome()) == Stopped(Fail(win.produced))
      ensures r.Ok? || r.StreamEnd? || r.DataError?
      ensures br.avail <= old(br.avail) && (br.bitk < 8 || br.avail == old(br.avail)) && br.bitk < 16
    {
      hide Walk, Codes, TablesFor, Stream, BitReader.Source, BitReader.Buffer, Lengths, Remembers;
      ghost var b := Outcome();
      var n0 := br.avail;
      r := FastSymbol(b);
      while r.Ok? && win.Avail() >= 258 && br.avail >= 10
        invariant Objects() && br.Left() < old(br.Left()) && br.avail <= n0 && br.Given() == old(br.Given())
        invariant old(win.produced) <= win.produced
        invariant r.Ok? || r.StreamEnd? || r.DataError?
        invariant r.Ok? ==> FastState(b)
        invariant r.StreamEnd? ==> b == EndOfBlock(br.Pos(), win.produced)
        invariant r.DataError? ==> b == Stopped(Fail(win.produced))
        decreases br.Left()
      {
        r := FastSymbol(b);
      }
      br.Ungrab(n0);
    }

    // ----- the remaining modes, and the whole

    // Set up for the next symbol.
    method StepStart(r0: Status) returns (leave: bool, r: Status)
      requires Valid() && mode.START? && Plain(r0)
      modifies this, br`next, br`avail, br`bitb, br`bitk, br`held, win, win.buf
      ensures Valid() && Kept() && (leave || Onward()) && Returns(leave, r)
      ensures leave ==> mode.BADCODE?
      ensures r.BufError? ==> r0.BufError? && old(br.avail) <= br.avail && win.room == old(win.room)
    {
      hide Stream, BitReader.Source, BitReader.Buffer, TablesOk, Ready, Rest, Lengths, Remembers, Behind;
      r, leave := r0, false;
      if win.Avail() >= 258 && br.avail >= 10 {
        r := StartFast();
        if !r.Ok? {
          leave := r.DataError?;
          return;
        }
      }
      StartWalk();
    }

    // Decode on the fast path.
    method StartFast() returns (r: Status)
      requires Valid() && mode.START? && win.Avail() >= 258 && br.avail >= 10
      modifies this`mode, br`next, br`avail, br`bitb, br`bitk, br`held, win`write, win`produced, win.buf
      ensures Valid() && Kept() && br.Left() < old(br.Left())
      ensures if r.Ok? then mode.START? else if r.StreamEnd? then mode.WASH? else r.DataError? && mode.BADCODE?
    {
      hide Walk, AtTable, TablesFor, Stream, BitReader.Source, BitReader.Buffer, Codes, Lengths, Remembers;
      r := InflateFast();
      if !r.Ok? {
        mode := if r.StreamEnd? then WASH else BADCODE;
      }
    }

    // Begin to follow the literal/length tables.
    method StartWalk()
      requires Valid() && mode.START?
      modifies this`mode, this`mark
      ensures Valid() && Kept() && mode.LEN?
    {
      hide Walk, AtTable, TablesFor, Stream, BitReader.Source, BitReader.Buffer, Codes, Lengths, Remembers;
      mark := br.Pos();
      AtRoot(tables.ltab, tables.ltree, tables.lbits, Bits(), mark, litLens, 257, LengthBase(), LengthExtra());
      mode := LEN(tables.ltree, tables.lbits);
    }

    // Give back a byte that was not used. It comes from in front of the present area of input exactly when none of the area
    // has been taken; then the stream goes on with that byte and the byte that lies there, or-ed.
    method GiveBack()
      requires Valid() && mode.WASH?
      modifies br`next, br`avail, br`bitk, br`input, br`strayed
      ensures Valid() && br.Pos() == old(br.Pos()) && br.Left() == old(br.Left()) && br.bitk < 8
      ensures br.next < br.area <==> old(br.next < br.area || (br.next == br.area && br.bitk > 7))
      ensures br.strayed == (old(br.strayed) || br.next < br.area)
      ensures br.input == if old(br.next == br.area && br.bitk > 7)
                          then old(br.input)[br.next := OrByte(old(br.input)[br.next], br.front)] else old(br.input)
      ensures Outcome() == old(Outcome()) && Turned() && (br.strayed <==> old(br.strayed || Behind()))
    {
      hide TablesOk, Stream, BitReader.Source, BitReader.Buffer, Lengths, Remembers, Extends', Lsb;
      if br.bitk > 7 {
        br.StepBack();
      }
    }

    // Deliver what can be delivered.
    method FlushOut(r0: Status) returns (r: Status)
      requires Valid()
      modifies win
      ensures Valid() && Outcome() == old(Outcome()) && win.produced == old(win.produced)
      ensures old(win.delivered) <= win.delivered && win.room + |win.delivered| == old(win.room) + |old(win.delivered)|
      ensures win.room <= old(win.room) && (win.room > 0 ==> win.read == win.write)
      ensures r == r0 || (r0.BufError? && r.Ok?)
      ensures r.BufError? ==> win.room == old(win.room)
      ensures old(win.read == win.write) ==> r == r0 && win.read == win.write
    {
      hide TablesOk, Stream, BitReader.Source, BitReader.Buffer, Lengths, Remembers, Ready, Rest;
      var room := win.room;
      win.Empty();
      win.Flush();
      win.Empty();
      r := AfterFlush(r0, win.room < room);
    }

    // End of block: give back an unused byte, and see that all output is delivered.
    method StepWash(r0: Status) returns (leave: bool, r: Status)
      requires Valid() && mode.WASH? && (Plain(r0) || r0.StreamEnd?)
      modifies this, br`next, br`avail, br`bitk, br`input, br`strayed, win
      ensures Valid() && Kept() && leave && Returns(leave, r)
      ensures if mode.END? then r.StreamEnd? else Blocked()
      ensures mode.END? ==> win.delivered == win.produced
      ensures br.bitk < 8 && (br.strayed <==> old(br.strayed || Behind())) && (mode.WASH? || mode.END?)
      ensures r.BufError? ==> r0.BufError? && old(br.avail) <= br.avail && win.room == old(win.room)
    {
      hide Looked, BitReader.Valid, Window.Valid, Shallow, TablesOk, Stream, BitReader.Source, BitReader.Buffer,
           Lengths, Remembers, Extends';
      GiveBack();
      r := FlushOut(r0);
      leave := true;
      win.Empty();
      if win.read == win.write {
        mode := END;
        r := StreamEnd;
      }
    }

    // One case of the switch.
    method Step(r0: Status) returns (leave: bool, r: Status)
      requires Valid() && (Plain(r0) || (r0.StreamEnd? && mode.WASH?))
      modifies this, br`next, br`avail, br`bitb, br`bitk, br`held, br`input, br`strayed, win, win.buf
      ensures Valid() && Kept() && (leave || Onward()) && Returns(leave, r)
      ensures leave && Plain(r) ==> Starving() || Blocked()
      ensures if leave && (mode.WASH? || mode.END?) then br.bitk < 8 && (br.strayed <==> old(br.strayed || Behind())) else br.strayed == old(br.strayed)
      ensures old(mode.WASH? || mode.END?) ==> mode.WASH? || mode.END?
      ensures old(Starving()) ==> leave && r == r0 && mode == old(mode) && win.read == old(win.read) && win.write == old(win.write)
      ensures r.BufError? ==> r0.BufError? && old(br.avail) <= br.avail && win.room == old(win.room)
    {
      hide Objects, TablesOk, Stream, BitReader.Source, BitReader.Buffer, Lengths, Remembers, Ready, Rest;
      match mode
      case START => leave, r := StepStart(r0);
      case LEN(_, _) => leave, r := StepLen(r0);
      case LENEXT(_, _) => leave, r := StepLenExt(r0);
      case DIST(_, _, _) => leave, r := StepDist(r0);
      case DISTEXT(_, _, _) => leave, r := StepDistExt(r0);
      case COPY(_, _) => leave, r := StepCopy(r0);
      case LIT(_) => leave, r := StepLit(r0);
      case WASH => leave, r := StepWash(r0);
      case END =>
        AtEnd();
        leave, r := true, StreamEnd;
      case BADCODE => leave, r := true, DataError;
    }

    lemma AtEnd()
      requires Valid() && mode.END?
      ensures !br.strayed ==> !Behind()
    {
      hide TablesOk, Stream, BitReader.Source, BitReader.Buffer, Lengths;
    }

    // Process input and output based on the current state (inflate_codes).
    method Run(r0: Status) returns (r: Status)
      requires Valid() && Plain(r0)
      modifies this, br`next, br`avail, br`bitb, br`bitk, br`held, br`input, br`strayed, win, win.buf
      ensures Valid() && Kept()
      ensures Plain(r) || r.StreamEnd? || r.DataError?
      ensures r.StreamEnd? ==> Outcome() == EndOfBlock(br.Pos(), win.produced) && !Lacking()
      ensures r.DataError? ==> Outcome() == Stopped(Fail(win.produced))
      ensures Plain(r) && !Starving() ==> Blocked()
      ensures Plain(r) && win.room > 0 ==> win.read == win.write
      ensures old(Starving() && win.read == win.write) ==> r == r0 && win.read == win.write
      ensures r.StreamEnd? ==> old(mode.WASH?) || old(mode.END?) || br.Left() < old(br.Left())
      ensures br.strayed && !old(br.strayed) ==> Outcome() == EndOfBlock(br.Pos(), win.produced)
      ensures mode.WASH? || mode.END? ==> (br.strayed <==> old(br.strayed || Behind())) && br.bitk < 8
      ensures r.StreamEnd? || old(mode.WASH? || mode.END?) ==> mode.WASH? || mode.END?
      ensures r.BufError? ==> r0.BufError? && old(br.avail) <= br.avail && win.room == old(win.room)
    {
      hide Looked, BitReader.Valid, Window.Valid, TablesOk, Stream, BitReader.Source, BitReader.Buffer, Lengths,
           Remembers, Ready, Rest, Starving;
      r := r0;
      var leave := false;
      while !leave
        invariant Valid() && Kept() && Returns(leave, r)
        invariant leave && Plain(r) ==> Starving() || Blocked()
        invariant if leave && (mode.WASH? || mode.END?) then br.bitk < 8 && (br.strayed <==> old(br.strayed || Behind())) else br.strayed == old(br.strayed)
        invariant old(mode.WASH? || mode.END?) ==> mode.WASH? || mode.END?
        invariant r.BufError? ==> r0.BufError? && old(br.avail) <= br.avail && win.room == old(win.room)
        invariant old(Starving()) ==> r == r0 && (leave || Starving()) && win.read == old(win.read) && win.write == old(win.write)
        decreases !leave, br.Left(), Order(mode)
      {
        leave, r := Step(r);
      }
      r := FlushOut(r);
      Finished();
    }

    // What the block yields once it has ended or failed.
    lemma Finished()
      requires Valid()
      ensures mode.WASH? || mode.END? ==> Outcome() == EndOfBlock(br.Pos(), win.produced)
      ensures mode.BADCODE? ==> Outcome() == Stopped(Fail(win.produced))
    {
      hide TablesOk, Stream, BitReader.Source, BitReader.Buffer, Lengths, Remembers, Ready;
    }

  }
}