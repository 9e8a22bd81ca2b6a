# Verified model of SharedPainter

SharedPainter is a drawing program shared over a network; its upgrader unpacks a ZIP patch with its own copy of a Deflate
decoder. This project models four of its components in Dafny 4.11 and proves what they are relied upon for:

1. the **Deflate decoder** of the upgrader with its checksums and the reading of ZIP entries,
2. the **history of the shared canvas**: log, playback, painter filter, undo and redo, synchronisation of late joiners,
3. **packet framing and codecs**: the resumable parser, its printer, and the records inside packets,
4. the **write queue** of a peer session.

`dafny verify dfyconfig.toml` checks everything. No lemma relies on automatic induction; where Dafny would assume an induction hypothesis
together with a precondition, the lemma carries `{:induction false}`.

## How the model is organised

The Deflate decoder, bottom up:

- `bits.dfy`: numbers and bit strings; shifts are repeated halving and doubling, so all arithmetic stays linear.
- `canonical.dfy`: the canonical Huffman code of section 3.2.2 of RFC 1951, stated without tables. `Decode` is decoding one
  symbol by definition.
- `hufttable.dfy`, `huftlemmas.dfy`, `huftspace.dfy`, `huftbuild.dfy`, `huftskip.dfy`, `huffman.dfy`: linked multi-level
  tables, the walk through them, the space they take, and `huft_build` with its loops split into methods that keep the source's
  variables. Tables are named by the bits that lead to them. `Huffman.BuildTables` is the whole function.
- `bitreader.dfy`: the input and the bit buffer. The data are one byte sequence, of which the caller hands over one portion after
  the other; `area` is where the present area of memory begins in it, and `front` the byte that lies before that area. UNGRAB gives
  back only bytes of the present area; the step back in WASH does not ask, and may read `front` instead of the byte that had been
  taken (`StepBack`). The ghost sequence `input` is what the decoder has read and will read. The bits left above the valid ones are
  part of the invariant.
- `window.dfy`: the 32K ring that is both output queue and dictionary, against the unbounded sequence of bytes produced. It is
  handed out zeroed, so a copy from before the beginning of the output finds zeros, in the decoder as in its specification.
- `deflate.dfy`: the recursive decoder of section 3.2.3 of RFC 1951 over the whole stream (`Inflate`), the specification of
  everything above it.
- `deflateway.dfy`: the way of that decoder from block to block, and turns: places where a byte is read again, or-ed with another one,
  and decoding goes on with the stream as it is then.
- `fixedtables.dfy`: the stored tables of the fixed code, entry by entry.
- `codes.dfy`, `trees.dfy`, `blocks.dfy`, `rawinflate.dfy`: the re-entrant machines `inflate_codes` (with `inflate_fast`),
  `inflate_trees_*`, `inflate_blocks` and `inflate` in raw mode. The invariant of each is that decoding the rest of the input
  from the current state yields what the recursive decoder yields from `origin`: the beginning of the data, or the place where the
  stream was last left by a step back (`turns`). `place` is where the block at hand begins, as many blocks behind the origin as
  `passed` says, and its codes are those of the head found there.
- `crc.dfy`, `adler.dfy`, `zipread.dfy`: checksums, the backward search for the end record, `unzReadCurrentFile`, and the loop of
  `TUnzip::Unzip` over it.
- `deflatewrite.dfy`, `roundtrip.dfy`: a writer of Deflate streams that shares no table with the decoder and has the numbers of RFC 1951
  written out, with any choice of literals and matches, codes, and ways of sending code lengths; and the round trip through `Inflate`,
  through calls of `inflate`, and through `TUnzip::Unzip`. It says what the definitions of `deflate.dfy` mean, bit by bit.
- `straysample.dfy`, `strayread.dfy`: 16387 bytes of data that `unzReadCurrentFile` reads wrongly.

The history is in `painttask.dfy`, `paintcommand.dfy` and `painthistory.dfy`. An item is what tasks change of it: whether it
is on the canvas, its position and its scale. `CommandManager.Consistent` says that the canvas shows, for painters who may draw,
the fold of the log up to the playback position, and the initial state of all other items; `Valid` says besides that every task
of the log fits what is before it, so that rolling back works. The operations take any state, say exactly what they do to it, and
when these two survive.

Packets are in `packetbuffer.dfy`, `packetslicer.dfy` and `packetcodec.dfy`, the write queue in `writequeue.dfy`.

## Results that hold only under a condition

- The decoder is resumable, for any portions of input and output space, as long as no byte in front of an input area is read again
  before a further block. At the end of a compressed block WASH does `n++; p--` (Upgrader/XZip/XUnzip.cpp:1289-1295) without asking
  whether the byte was taken from the present area. It was not **if and only if** nothing of the area has been taken and the block
  ends a whole byte or more in front of it (`CodesState.Behind`, `GiveBack`, `Turned`); then decoding goes on with that byte or-ed
  with the one that lies in front of the area (`Inflater.RunCodes`, `ZStream.Call`). A caller rules it out by letting portions follow
  on in memory, or by giving a new area only at the beginning and after calls that left space for output, in particular by offering
  more space than the output takes; and it cannot happen with data in which no block but the last ends a byte but less than two in
  front of an area (`RawInflate.Decompress`). `unzReadCurrentFile` fills one buffer again and again (3631-3641): a read leaves the
  stream so **if and only if** `EntryReader.Slips` when it begins, and `EntryReader.Read` says from where decoding goes on in each case.
  Whole entries come out as the data decode to if no block but the last ends just in front of a multiple of 16384 bytes, so all of at most
  16384 bytes do (`ZipRead.Extract`). `StrayRead.ExtractAstray` reads concrete data 16384 bytes at a time, and their last byte comes
  out wrong, with no error.
- `huft_build` decodes the canonical code **if and only if** the code skips no table level (`KeepsLevels`): of the patterns of
  two or more full table widths, fewer than one table's worth is left over for longer codes. Otherwise one table becomes wider
  than the l bits by which further tables are reached, and the walk looks at an entry that was never written
  (`Huffman.Misdecodes`; `SkippingExists` gives such lengths for width 6, and `SkippingBuilt` builds wrong tables for them). The decoder itself never asks for such tables:
  `LitLevels`, `DistLevels` and `TwoLevels` cover the three widths it uses. The "only if" is for table space that is all zeros,
  as `zcalloc` (Upgrader/XZip/XUnzip.cpp:2385) returns it.
- The 1440 entries of table space are enough for **every** set of lengths the decoder accepts: at most 922 for literals and lengths,
  452 for distances (`InflateTrees.LitSpace`, `DistSpace`). The source only says that the maximum is not known. Z_MEM_ERROR remains
  possible for lengths that are refused anyway (`TreesDynamic`).
- Undo gives back the item **if and only if** the command is an addition or a removal, or changed nothing: updates and moves
  append the same task again (`PaintCommand.UndoRestores`, `UndoFits`, with an example in `NotUndone`). Rolling a task back gives back the item if and only if
  the task carries true previous values (`PaintTask.UndoApplied`).
- Packets are delivered as sent **if and only if** an id, once given, is given in every later packet, since a zero length leaves
  the previous id in place (`PacketSlicer.DeliveredAsSent`). For all streams `PacketSlicer.Receive` says what is delivered.
- A line survives coding **if and only if** its colour components, width and number of points fit into 16 bits
  (`PacketCodec.LineWithinLimits`); the count of a user list is cut to 16 bits in the same way.
- The search for the end record cannot tell a record at place 0 from none.
- Once a write has failed, the send queue never starts again, whatever is sent later (`WriteQueue.Session.SendData`).

## Where code and documentation differ

- SharedPainter/PacketSlicer.h:209 speaks of a limit of 20 MB. The limit in force is the 200,000,000 of
  SharedPainter/SharedPaintPolicy.h:64, which is included first; the model follows it.
- The packet format drawn in SharedPainter/PacketSlicer.h:42-43 has the body length before the ids; code and model have it after.

## Model

| member | source | states |
|---|---|---|
| Canonical.KraftIsEnd | Upgrader/XZip/XUnzip.cpp:1832-1838 | The number just after the last code of 15 bits is the Kraft sum in units of 2^-15, so the running subtraction in huft_build compares the Kraft sum with one |
| Canonical.KraftAtLongest | Upgrader/XZip/XUnzip.cpp:1832-1838 | Comparing the Kraft sum with one is comparing the end of the longest length with 2^g, for more than one and for exactly one |
| Canonical.CodeListOrdered | Upgrader/XZip/XUnzip.cpp:1858-1951 | Canonical codewords listed by (length, symbol) come in strictly increasing order as bit patterns, so none is a prefix of another (section 3.2.2 of RFC 1951) |
| Canonical.Consecutive | Upgrader/XZip/XUnzip.cpp:1937-1940 | Each codeword is the one before plus one, with zero bits appended up to its own length |
| Canonical.CompleteCovers | Upgrader/XZip/XUnzip.cpp:1832-1838 | When no pattern is left unused, every bit string of g bits starts with some codeword |
| HuftBuild.CountLengths | Upgrader/XZip/XUnzip.cpp:1797-1806 | c[k] is the number of symbols of length k |
| HuftBuild.LengthBounds | Upgrader/XZip/XUnzip.cpp:1815-1829 | k and g are the shortest and longest length in use, and l is the requested width brought between them |
| HuftBuild.UnusedPatterns | Upgrader/XZip/XUnzip.cpp:1832-1838 | Refused exactly when the lengths need more than the 2^g patterns; otherwise y is the number of patterns left unused |
| HuftBuild.Offsets | Upgrader/XZip/XUnzip.cpp:1841-1846 | x[k] is the number of symbols with shorter codes |
| HuftBuild.SortSymbols | Upgrader/XZip/XUnzip.cpp:1849-1855 | v lists exactly the symbols in use, each at the position it has by (length, symbol) |
| HuftBuild.TableSize | Upgrader/XZip/XUnzip.cpp:1880-1895 | The width of a new table: at least the current code, at most l unless that code needs more, and less than l only if no longer code lies below the table; either codes of the current length fill it, or the codes of up to one bit less than its width, or of the current length, do not reach its end |
| HuftBuild.TableStart | Upgrader/XZip/XUnzip.cpp:1875-1878 | A table is opened at the first of its codes: nothing was entered below that prefix before, and the code continues the prefix with zeros |
| HuftBuild.OpenTable | Upgrader/XZip/XUnzip.cpp:1877-1914 | A new table is opened inside the table space and linked from the table above at the index of the next l bits; everything already entered stays valid; writes stay inside the space handed out, and the space used stays within the bound for the code |
| HuftBuild.MakeTables | Upgrader/XZip/XUnzip.cpp:1874-1915 | Tables are made up to the level of the current code, so that the code ends in the innermost one |
| HuftBuild.MakeEntry | Upgrader/XZip/XUnzip.cpp:1917-1930 | The entry has the rest of the code's bits and the meaning of its symbol; once the symbols have run out it is an invalid-code entry that keeps the last base |
| HuftBuild.FillEntries | Upgrader/XZip/XUnzip.cpp:1932-1935 | Exactly the entries whose index ends in the rest of the code are set |
| HuftBuild.NextCode | Upgrader/XZip/XUnzip.cpp:1937-1940 | The bit-reversed increment gives the next code with its bits reversed |
| HuftBuild.BackUp | Upgrader/XZip/XUnzip.cpp:1942-1949 | The stack is cut back to exactly the tables on the way of the next code |
| HuftTable.FillStep | Upgrader/XZip/XUnzip.cpp:1932-1935 | Entering a codeword leaves every earlier codeword and every link where it was |
| HuftTable.GrowStep | Upgrader/XZip/XUnzip.cpp:1897-1912 | Linking a further table leaves every codeword entered and every other link where it was |
| HuftTable.WalkFinds | Upgrader/XZip/XUnzip.cpp:1191-1228 | In finished tables no wider than l bits, bits that start with a codeword lead to its meaning and use up exactly its length; with too few bits the walk stops short |
| HuftSpace.LevelOpened | Upgrader/XZip/XUnzip.cpp:1880-1905 | A new table takes no more space than the codes that follow it, or the steps to longer lengths, make up for |
| HuftSpace.RoomBound | Upgrader/XZip/XUnzip.cpp:690-694 | So all tables of a code of at most 3 l bits fit into 2^l entries and, for each further level, as many as there are codes and a power of two for each step between lengths |
| HuftBuild.EnterLength | Upgrader/XZip/XUnzip.cpp:1858-1951 | All codes of one length are entered; it fails only if the bound on their space exceeds what there is |
| HuftBuild.EnterCodes | Upgrader/XZip/XUnzip.cpp:1858-1951 | All codes are entered; nothing outside the space handed out is written; without a skipped level no table is wider than l bits; with at most two levels below the first, space runs out only if the bound exceeds it |
| Huffman.BuildTables | Upgrader/XZip/XUnzip.cpp:1758-1956 | DataError exactly when the Kraft sum exceeds one; otherwise, unless table space runs out, BufError exactly when the code is incomplete with maximum length other than 1; no entry at or beyond MANY is written; table space runs out only if the bound SpaceFor exceeds what is left (for lengths up to 3 l); the tables decode exactly the canonical code on every bit string, unassigned patterns end on invalid-code entries. In fresh table space they do so if and only if no table level is skipped |
| Huffman.CompleteNeverInvalid | Upgrader/XZip/XUnzip.cpp:1832-1838 | A complete code leaves no invalid pattern: every bit string starts with a codeword or is the beginning of one |
| HuftSkip.WideTable | Upgrader/XZip/XUnzip.cpp:1880-1895 | If, of the patterns of two or more full table widths, at least one table's worth is left over for longer codes, some table is made wider than l bits |
| HuftSkip.UnwrittenEntry | Upgrader/XZip/XUnzip.cpp:1897-1935 | A table wider than l bits has an entry beyond its first 2^l that no code and no link ever writes |
| HuftSkip.WalkAstray | Upgrader/XZip/XUnzip.cpp:1191-1228 | Some bits lead the decoder to that entry, whatever it held before |
| Huffman.Misdecodes | Upgrader/XZip/XUnzip.cpp:1858-1951 | A code that skips a table level is decoded wrongly on some bits by tables built in zeroed space |
| Huffman.SkippingExists | Upgrader/XZip/XUnzip.cpp:1880-1895 | A complete code that skips a level at width 6: 63 codes of 6 bits and 128 of 13 bits |
| Huffman.SkippingBuilt | Upgrader/XZip/XUnzip.cpp:1758-1956 | For these lengths and width 6 huft_build returns Z_OK, and its tables do not decode the code |
| Huffman.TwoLevels | Upgrader/XZip/XUnzip.cpp:1608-1613 | Lengths of at most twice the table width never skip a level |
| Huffman.FewSymbols | Upgrader/XZip/XUnzip.cpp:1608-1613 | Nor does a complete code of fewer than two tables' worth of symbols |
| InflateTrees.LitLevels | Upgrader/XZip/XUnzip.cpp:1608 | The literal/length tables asked for with 9 bits never skip a level |
| InflateTrees.DistLevels | Upgrader/XZip/XUnzip.cpp:1609 | Nor do distance tables asked for with 6 bits, for complete codes of at most 30 symbols or a single one |
| InflateTrees.LitSpace | Upgrader/XZip/XUnzip.cpp:690-694 | Tables for accepted literal/length codes take at most 922 entries |
| InflateTrees.DistSpace | Upgrader/XZip/XUnzip.cpp:690-694 | Tables for accepted distance codes take at most 452 entries, so both together stay below MANY |
| InflateTrees.TreesBits | Upgrader/XZip/XUnzip.cpp:1959-1983 | Ok gives a table for the bit-length code; DataError only for lengths that are neither complete nor a single one-bit code; never MemError |
| InflateTrees.TreesDynamic | Upgrader/XZip/XUnzip.cpp:1986-2042 | Ok exactly for lengths that are acceptable as literal/length and distance codes, and then with tables that decode both; MemError too only for lengths that are not |
| InflateTrees.TreesFixed | Upgrader/XZip/XUnzip.cpp:2048-2060 | The stored tables decode the fixed code of section 3.2.6 of RFC 1951 |
| FixedTables.FixedLitTables | Upgrader/XZip/XUnzip.cpp:868-997 | The 512 stored entries are a table of the fixed literal/length code |
| FixedTables.FixedDistTables | Upgrader/XZip/XUnzip.cpp:998-1008 | The 32 stored entries are a table of the fixed distance code |
| BitInput.OrOverlay | Upgrader/XZip/XUnzip.cpp:839 | Or-ing a byte over bits that already equal it changes nothing |
| BitInput.OrIntoStream | Upgrader/XZip/XUnzip.cpp:838 | Or-ing a byte into the buffer changes that byte of the stream, and nothing else |
| BitInput.BitReader.AddByte | Upgrader/XZip/XUnzip.cpp:838-839 | One more byte of input in the buffer, from the data or from in front of the area; bits left above k by UNGRAB or WASH are covered by the byte that is read again, so or-ing it in gives the next bits of the stream |
| BitInput.BitReader.NeedBits | Upgrader/XZip/XUnzip.cpp:837-839 | Stops with at least j bits in the buffer or with no input left; the position in the stream does not move |
| BitInput.BitReader.Peek | Upgrader/XZip/XUnzip.cpp:853-859 | The low bits of the buffer are the next bits of the stream |
| BitInput.BitReader.Dump | Upgrader/XZip/XUnzip.cpp:840 | Dropping j bits moves the position by j |
| BitInput.BitReader.GrabBits | Upgrader/XZip/XUnzip.cpp:2073 | Reading without asking, when there is enough input, takes at most the bytes needed for j bits |
| BitInput.BitReader.Ungrab | Upgrader/XZip/XUnzip.cpp:2074 | Whole unused bytes go back to the input, as far as they were taken since the start; the position in the stream stays |
| BitInput.BitReader.StepBack | Upgrader/XZip/XUnzip.cpp:1289-1295 | Giving back a byte without asking leaves the input area exactly if none of the area has been taken; then that byte of the stream is from now on the old byte or-ed with the one in front of the area |
| RingWindow.Window.Wrap | Upgrader/XZip/XUnzip.cpp:844 | The write pointer goes to the start only when no unflushed byte is there; every copy source stays where it was |
| RingWindow.Window.Run | Upgrader/XZip/XUnzip.cpp:1022-1068 | The bytes from the read pointer on, as far as they lie in one run, are the first pending ones |
| RingWindow.Window.Deliver | Upgrader/XZip/XUnzip.cpp:1026-1068 | The first n pending bytes are delivered in order and the rest stay pending |
| RingWindow.Window.Flush | Upgrader/XZip/XUnzip.cpp:1016-1079 | Exactly the first min(pending, avail_out) pending bytes are delivered, in order |
| RingWindow.Window.NeedOut | Upgrader/XZip/XUnzip.cpp:845-846 | There is space for a byte afterwards, or the output area and the window are full; nothing unflushed is lost; it reports whether anything was delivered, which decides the return value |
| RingWindow.Window.Put | Upgrader/XZip/XUnzip.cpp:847 | Bytes are appended to what has been produced and never overtake an unflushed byte |
| RingWindow.Window.SourceByte | Upgrader/XZip/XUnzip.cpp:1269-1272 | The window holds every byte a copy of distance at most w may refer to, at the place the pointer arithmetic gives; before the beginning of the output there are zeros |
| Deflate.CopiedBytes | Upgrader/XZip/XUnzip.cpp:1268-1281 | Every copied byte equals the byte dist positions before it on the unbounded output, also where the copy overlaps its source, and is zero where that lies before the beginning |
| DeflateWay.BlockByBlock | Upgrader/XZip/XUnzip.cpp:1421-1662 | Decoding a stream is decoding its blocks, of all three kinds, one after the other |
| DeflateWay.PassingOn | Upgrader/XZip/XUnzip.cpp:1421-1662 | On the way from block to block the stream decodes to the same bytes from every block on |
| DeflateWay.FirstTurn | Upgrader/XZip/XUnzip.cpp:1289-1295 | If the stream is left at all, it is left first behind a block of the data as they are, compressed and not the last, that ends a whole byte but less than two in front of an input area |
| DeflateWrite.RoundTrip | Upgrader/XZip/XUnzip.cpp:1421-1662 | An independent writer of Deflate streams, with the numbers of RFC 1951 written out: whatever blocks it writes, stored, with the fixed codes or with codes of their own, and whatever follows, the decoder finds what they stand for and the bit at which they end |
| DeflateWrite.ChunkRead | Upgrader/XZip/XUnzip.cpp:1437-1645 | Every block that is written, at any bit and before anything else, is read as the bytes it stands for, up to its last bit |
| DeflateWrite.RawRead | Upgrader/XZip/XUnzip.cpp:1452-1513 | A stored block: kind 00, the bits up to the next byte, 16 bits for the number of bytes, 16 for its complement, and the bytes |
| DeflateWrite.HeadRead | Upgrader/XZip/XUnzip.cpp:1514-1630 | The head of a block with codes of its own: 5, 5 and 4 bits for the numbers of code lengths less 257, 1 and 4; three bits for each bit length in the order 16, 17, 18, 0, 8, 7, 9, 6, 10, 5, 11, 4, 12, 3, 13, 2, 14, 1, 15; and the code lengths, one by one or in runs |
| DeflateWrite.RunRead | Upgrader/XZip/XUnzip.cpp:1566-1600 | Symbol 16 with two more bits stands for the last length 3 to 6 times again, 17 with three more bits for 3 to 10 zeros, 18 with seven more bits for 11 to 138 zeros, and every other symbol for itself |
| DeflateWrite.LengthBack | Upgrader/XZip/XUnzip.cpp:1706-1712 | The tables of base lengths and extra bits give back every length from 3 to 258 |
| DeflateWrite.DistanceBack | Upgrader/XZip/XUnzip.cpp:1713-1720 | And every distance from 1 to 32768 |
| DeflateWrite.ItemRead | Upgrader/XZip/XUnzip.cpp:1154-1313 | A literal is its codeword; a match is a codeword and up to 5 bits for the length, and a codeword and up to 13 bits for the distance; both are decoded to what they stand for |
| DeflateWrite.FixedWord | Upgrader/XZip/XUnzip.cpp:2048-2060 | The codewords of the fixed code, written out: 8 bits from 00110000, 9 bits from 110010000, 7 bits from 0000000, 8 bits from 11000000 |
| DeflateWrite.UsableAccepted | Upgrader/XZip/XUnzip.cpp:1959-2042 | A code is accepted exactly if it is complete, or has a single codeword, of one bit |
| DeflateWrite.LengthsTaken | Upgrader/XZip/XUnzip.cpp:1602-1630 | The code lengths of a block are taken exactly if both codes are of this kind, or there are no matches and no distance codewords at all |
| DeflateWrite.LengthsRefused | Upgrader/XZip/XUnzip.cpp:1543-1558 | Bit lengths that are not of this kind are refused |
| DeflateWrite.FourthKind | Upgrader/XZip/XUnzip.cpp:1475-1480 | A block of kind 11 is refused |
| DeflateWrite.WrongComplement | Upgrader/XZip/XUnzip.cpp:1483-1491 | A stored block is refused unless its number of bytes and the complement add up to 65535 |
| DeflateWrite.TooManyCodes | Upgrader/XZip/XUnzip.cpp:1514-1524 | More than 286 literal/length or 30 distance code lengths are refused |
| DeflateWrite.NothingToRepeat | Upgrader/XZip/XUnzip.cpp:1585-1594 | The first code length cannot be one that comes again |
| DeflateWrite.PastTheEnd | Upgrader/XZip/XUnzip.cpp:1585-1594 | No run may go past the end of the code lengths |
| DeflateWrite.UnusedSymbols | Upgrader/XZip/XUnzip.cpp:868-997 | Symbols 286 and 287 of the fixed code are refused |
| DeflateWrite.UnusedDistances | Upgrader/XZip/XUnzip.cpp:998-1008 | And its distances 30 and 31 |
| InflateCodes.TableStep | Upgrader/XZip/XUnzip.cpp:1191-1218 | One step of the LEN/DIST loop is one step of the walk |
| InflateCodes.LitStep | Upgrader/XZip/XUnzip.cpp:1199-1227 | The entry found in the literal/length table tells how decoding the block goes on: literal, length, end of block or error |
| InflateCodes.DistStep | Upgrader/XZip/XUnzip.cpp:1244-1259 | The same for the entry found in the distance table |
| InflateCodes.CodesState.Begin | Upgrader/XZip/XUnzip.cpp:1132-1151 | A new codes state has the whole compressed block before it |
| InflateCodes.CodesState.NextEntry | Upgrader/XZip/XUnzip.cpp:1191-1198 | Either there are too few bits and nothing is used up, or the entry for the next bits has been found and its bits used up |
| InflateCodes.CodesState.StepLen | Upgrader/XZip/XUnzip.cpp:1191-1228 | Length or literal decoding keeps what the rest of the block decodes to; it stops only for lack of input or on an invalid code |
| InflateCodes.CodesState.StepDist | Upgrader/XZip/XUnzip.cpp:1238-1260 | The same for the distance |
| InflateCodes.CodesState.CopyByte | Upgrader/XZip/XUnzip.cpp:1273-1279 | One byte of a copy, also across the ends of the window, continues the copy on the unbounded output |
| InflateCodes.CodesState.StepCopy | Upgrader/XZip/XUnzip.cpp:1268-1281 | A copy may be suspended for output space in the middle, with the window full, and is resumed without loss |
| InflateCodes.CodesState.StepLit | Upgrader/XZip/XUnzip.cpp:1282-1286 | A literal is output or waits for space, with the window full |
| InflateCodes.CodesState.GiveBack | Upgrader/XZip/XUnzip.cpp:1288-1295 | At the end of a block a byte in front of the input area is given back exactly if nothing of the area has been taken and more than 7 bits are left, that is, exactly if the block ends a whole byte or more in front of the area |
| InflateCodes.CodesState.StepWash | Upgrader/XZip/XUnzip.cpp:1287-1301 | At the end of the block a whole unused byte goes back to the input, wherever it came from; the END state is reached only when all bytes have been delivered |
| InflateCodes.CodesState.CopyRun | Upgrader/XZip/XUnzip.cpp:2162-2170 | An unrolled run of a copy equals that many single steps, as long as the source does not wrap |
| InflateCodes.CodesState.FastCopy | Upgrader/XZip/XUnzip.cpp:2147-2170 | The fast copy equals the copy on the unbounded output, with overlap and with a source that wraps once |
| InflateCodes.CodesState.FastDistance | Upgrader/XZip/XUnzip.cpp:2133-2186 | The distance half of a fast iteration equals the slow decoding of the distance and the copy |
| InflateCodes.CodesState.FastSymbol | Upgrader/XZip/XUnzip.cpp:2111-2216 | With m >= 258 and n >= 10 one iteration emits what the recursive decoder has next and stops at the same bit, takes at most ten bytes of input and puts out at most 258 |
| InflateCodes.CodesState.InflateFast | Upgrader/XZip/XUnzip.cpp:2081-2223 | The fast loop refines the slow one: same bytes, same position, same outcome, whole unused bytes returned |
| InflateCodes.CodesState.Run | Upgrader/XZip/XUnzip.cpp:1154-1313 | Every call keeps what the rest of the block decodes to, at its end stands at the right bit, and stops only for lack of input, with the window and the output area full, or with the last bytes of the block undelivered; BufError is returned only if nothing has been taken or delivered; a byte in front of the input area is given back exactly if the block ends behind it |
| InflateCodes.CodesState.Stalled | Upgrader/XZip/XUnzip.cpp:1191-1267 | A state that asks for more bits than the buffer holds has not passed the end of the block by a byte |
| InflateBlocks.BorderPlace | Upgrader/XZip/XUnzip.cpp:1328-1329 | The order of the bit-length code lengths is a permutation |
| InflateBlocks.BitSymbolAt | Upgrader/XZip/XUnzip.cpp:1566-1570 | The entry selected by the next bb bits is that of the next symbol of the bit-length code |
| InflateBlocks.StoredRun | Upgrader/XZip/XUnzip.cpp:1497-1513 | Copying n stored bytes at once equals n single steps of the recursive decoder |
| InflateBlocks.OneLength | Upgrader/XZip/XUnzip.cpp:1571-1575 | Storing one length continues the list of lengths |
| InflateBlocks.OneRepeat | Upgrader/XZip/XUnzip.cpp:1576-1600 | A repeat adds all its lengths, also across the boundary of the two codes, or is refused exactly when it would run past the end or has nothing to repeat |
| InflateBlocks.LengthsDone | Upgrader/XZip/XUnzip.cpp:1603-1613 | When nlen + ndist lengths are there, the block goes on with the codes of the first nlen and the last ndist of them |
| InflateBlocks.EndsLate | Upgrader/XZip/XUnzip.cpp:1421-1662 | A decoder that lacks input at the end of it has not passed an end of stream that lies a byte before |
| InflateBlocks.Inflater.constructor | Upgrader/XZip/XUnzip.cpp:1398-1418 | A new decoder has the whole stream before it |
| InflateBlocks.Inflater.StepType | Upgrader/XZip/XUnzip.cpp:1437-1482 | Reading a block header keeps what the whole stream decodes to |
| InflateBlocks.Inflater.StoredLength | Upgrader/XZip/XUnzip.cpp:1483-1496 | A stored block is accepted exactly when its length and complement agree |
| InflateBlocks.Inflater.CopyStored | Upgrader/XZip/XUnzip.cpp:1497-1513 | Stored bytes go from input to window like all others |
| InflateBlocks.Inflater.TableSizes | Upgrader/XZip/XUnzip.cpp:1514-1535 | The numbers of symbols are accepted exactly when both are in range |
| InflateBlocks.Inflater.BitTree | Upgrader/XZip/XUnzip.cpp:1543-1558 | The bit-length table is built from the lengths read, in their order; refused exactly when the recursive decoder refuses |
| InflateBlocks.Inflater.CodeLength | Upgrader/XZip/XUnzip.cpp:1559-1601 | One symbol of the bit-length code is decoded and stored, or nothing is used up for lack of input |
| InflateBlocks.Inflater.StoreRepeat | Upgrader/XZip/XUnzip.cpp:1576-1600 | A repeat with its extra bits is stored, or refused exactly as the recursive decoder refuses it; nothing is written past the end of the lengths |
| InflateBlocks.Inflater.DynamicTrees | Upgrader/XZip/XUnzip.cpp:1602-1630 | Both tables are built for exactly the lengths read; refused exactly when the recursive decoder refuses |
| InflateBlocks.Inflater.RunCodes | Upgrader/XZip/XUnzip.cpp:1631-1644 | The symbols of a block; if a byte in front of the input area is given back and the block is not the last, decoding goes on from its end with the stream as it is then, and otherwise as before; at most one such turn in a call |
| InflateBlocks.Inflater.MoveOn | Upgrader/XZip/XUnzip.cpp:1631-1644 | The block that has ended is the one that comes after so many others from the origin on; a turn is recorded with that number, the input area and the byte in front of it, and the origin is what the turns so far lead to |
| InflateBlocks.Inflater.MoveInput | Upgrader/XZip/XUnzip.cpp:357-358 | With the input in a new area a byte in front of it will be given back exactly if the compressed block at hand ends a whole byte or more before it; never if the decoder waits for input |
| InflateBlocks.Inflater.StepDry | Upgrader/XZip/XUnzip.cpp:1647-1651 | The end is reached only when everything has been delivered |
| InflateBlocks.Inflater.Prefix | Upgrader/XZip/XUnzip.cpp:1421-1662 | In every state what has been delivered is a prefix of what has been produced, and that of what the stream decodes to |
| InflateBlocks.Inflater.Run | Upgrader/XZip/XUnzip.cpp:1421-1662 | Every call keeps the meaning of the stream from its origin on, and the origin moves exactly when a byte in front of the input area is given back before a further block; the turns taken lead from the beginning of the data to the origin, and the block at hand is one on the way from there; StreamEnd only with all output delivered and the right end position; DataError and MemError only where the recursive decoder fails; it stops only for lack of input or of space; BufError only if nothing has been taken or delivered |
| InflateBlocks.Inflater.Stalled | Upgrader/XZip/XUnzip.cpp:1421-1662 | Stopping at the end of the input is only possible if the stream does not end a byte before that, and with at most eight bits left if it ends at all |
| InflateBlocks.Inflater.Unended | Upgrader/XZip/XUnzip.cpp:1421-1662 | Waiting for input in a compressed block, or in its head, is only possible if the block does not end a byte before what has been taken |
| RawInflate.ZStream.Offer | Upgrader/XZip/XUnzip.cpp:357-358 | More input behind what is there, or in another area once all has been taken: the exact condition under which the stream will be left, and that it is never left if the decoder waits for input |
| RawInflate.ZStream.Call | Upgrader/XZip/XUnzip.cpp:2607-2624 | One call of inflate in raw mode: output only grows and stays a prefix of what is decoded from the origin, which moves exactly if the stream is left, and at most once; it reports the end or an error exactly when the mode says so, and without progress it returns BufError, which it never does when anything has been delivered |
| RawInflate.ZStream.Settled | Upgrader/XZip/XUnzip.cpp:2607-2624 | Wherever a call stops, but for lack of table space, it is settled whether the stream will be left in front of the present input area or never |
| RawInflate.Decompress | Upgrader/XZip/XUnzip.cpp:2539-2655 | For any portions of input and output space and any input areas: no more comes out than there is space for, all input is taken while there is space, and what comes out is a prefix of what is decoded from the origin, equal to it once StreamEnd is returned; an error only if the stream is wrong; with one byte to spare after the data and all input and space offered, the end is reported. The origin is the beginning of the data but for turns, each in front of an area that was given with all input taken, not at first, and behind a call that left no space. There are none if every new area comes with more space offered before than the output takes, or if no block but the last ends just in front of one |
| RoundTripRun.DecompressWritten | Upgrader/XZip/XUnzip.cpp:2539-2655 | What has been written comes out of inflate in full, for any portions of input and output space that do not turn the stream, if a byte follows |
| Crc.TableRight | Upgrader/XZip/XUnzip.cpp:2242-2294 | Every stored table entry is eight steps of the bitwise reflected division (section 8 of RFC 1952) |
| Crc.EightBitsLinear | Upgrader/XZip/XUnzip.cpp:2301 | The division is linear, which is why one table lookup replaces eight steps |
| Crc.Do1Right | Upgrader/XZip/XUnzip.cpp:2301 | A table step equals eight bit steps |
| Crc.Ucrc32 | Upgrader/XZip/XUnzip.cpp:2306-2312 | The unrolled table-driven loop computes the bitwise CRC for every buffer |
| Crc.Residue | Upgrader/XZip/XUnzip.cpp:2306-2312 | Bytes followed by the four bytes of their CRC, lowest first, have the CRC 2144DF1C, whatever the bytes |
| Crc.CheckValue | Upgrader/XZip/XUnzip.cpp:2306-2312 | The CRC of the digits 1 to 9 is CBF43926 |
| Crc.Composes | Upgrader/XZip/XUnzip.cpp:3654 | The CRC of a concatenation is the CRC of the second part started with that of the first |
| Adler.NoOverflow | Upgrader/XZip/XUnzip.cpp:2322-2324 | Within NMAX bytes neither sum exceeds 2^32 - 1 before it is reduced |
| Adler.Deferred | Upgrader/XZip/XUnzip.cpp:2342-2355 | Reducing once at the end of a run gives what reducing after every byte gives |
| Adler.Checksum | Upgrader/XZip/XUnzip.cpp:2333-2357 | The unrolled loop computes the per-byte definition (section 2.2 of RFC 1950) for every buffer length and start value, and its closed form |
| Adler.ClosedForm | Upgrader/XZip/XUnzip.cpp:2322-2357 | Both halves in closed form, modulo 65521, for every start value (section 9 of RFC 1950) |
| Adler.Composes | Upgrader/XZip/XUnzip.cpp:2333-2357 | adler(adler(a0, a), b) = adler(a0, a ++ b) |
| ZipRead.ScanBlock | Upgrader/XZip/XUnzip.cpp:3042-3046 | The last signature in the block, if there is one |
| ZipRead.SearchCentralDir | Upgrader/XZip/XUnzip.cpp:3021-3051 | The greatest place within the last 65535 bytes where the bytes 50 4B 05 06 start, also across block edges; 0 stands for none |
| ZipRead.EntryReader.Read | Upgrader/XZip/XUnzip.cpp:3611-3686 | Reads in portions are consecutive: of stored data in full; of compressed data in full if there is a byte to spare behind them, and otherwise short only when at most eight bits are left; the origin stays where it is, moves, or will move at the end of the block at hand exactly as the state before says: it is left exactly if the read begins with filling the buffer again although the block at hand, not the last, ends a byte or more before; counts and the running CRC cover exactly what was given; every read ends |
| ZipRead.EntryReader.KnownCourse | Upgrader/XZip/XUnzip.cpp:3611-3686 | Wherever the decoder stops in good order, the state tells whether and to where the stream will be left |
| ZipRead.EntryReader.ReadStored | Upgrader/XZip/XUnzip.cpp:3643-3662 | Stored data are copied in full portions whatever the size of the buffer |
| ZipRead.EntryReader.ReadDeflated | Upgrader/XZip/XUnzip.cpp:3663-3680 | The loop over inflate ends, accounts for every byte delivered, fills the buffer again only for want of input, and leaves the stream at most once |
| ZipRead.EntryReader.Pass | Upgrader/XZip/XUnzip.cpp:3629-3680 | One pass of the loop keeps the course set at the beginning of the read |
| ZipRead.EntryReader.Fill | Upgrader/XZip/XUnzip.cpp:3631-3641 | Filling the buffer again puts next_in back to its start: the read slips exactly under that condition |
| ZipRead.Extract | Upgrader/XZip/XUnzip.cpp:4139-4163 | Reading 16384 bytes at a time until nothing comes: a stored entry in full; of a compressed one what it decodes to, if no block but the last ends a byte but less than two in front of a bufferful (byte 16384, 32768 and so on), and otherwise what it decodes to with turns at some of these places; in full if there is a byte to spare |
| RoundTripRun.ExtractWritten | Upgrader/XZip/XUnzip.cpp:4139-4163 | What has been written comes out of TUnzip::Unzip, up to the size that is given, if a byte follows and no block but the last ends just in front of a bufferful |
| StraySample.DataDecoded | Upgrader/XZip/XUnzip.cpp:1421-1662 | Concrete data of 16387 bytes: a block of 114689 literals, the first 5421 of them with four bits and the others with one, and a two-bit end of block just in front of byte 16383; and a last block with one literal; what they decode to |
| StraySample.DataOred | Upgrader/XZip/XUnzip.cpp:1289-1295 | Or-ing 32 into byte 16383 makes another literal of it |
| StrayRead.AtEdge | Upgrader/XZip/XUnzip.cpp:1282-1286 | A read that stops before the end of the first block with the window full has taken all of the first bufferful and holds the end of the block |
| StrayRead.ReadAstray | Upgrader/XZip/XUnzip.cpp:3611-3686 | Two reads of these data, with byte 32 before the buffer, give a last byte that is not what they decode to, although the data have bytes to spare |
| StrayRead.ExtractAstray | Upgrader/XZip/XUnzip.cpp:4139-4163 | So does reading them 16384 bytes at a time, as TUnzip::Unzip does: the sixth read slips |
| PaintTask.UndoApplied | SharedPainter/SharedPaintTask.cpp:50-154 | Rolling back what was executed gives back the item exactly when the task fits it: an added item was not drawn, a removed one was, previous values are true |
| PaintTask.ReplayTracks | SharedPainter/SharedPaintTask.cpp:50-154 | Replaying a log affects every item by its own tasks alone |
| PaintTask.TrackOwned | SharedPainter/SharedPaintCommand.cpp:34-81 | Tasks of other owners do not matter to an item |
| PaintTask.Commute | SharedPainter/SharedPaintTask.cpp:50-154 | Tasks of different owners commute |
| PaintTask.LastWriteWins | SharedPainter/SharedPaintTask.cpp:50-154 | Two items that agree on everything the log does not write end up equal after it |
| PaintCommand.UndoRestores | SharedPainter/SharedPaintCommand.cpp:34-81 | Undo gives back the item exactly for additions and removals, and for updates and moves that changed nothing |
| PaintCommand.UndoFits | SharedPainter/SharedPaintCommand.cpp:34-81 | And the task that undo appends fits its item exactly then |
| PaintCommand.NotUndone | SharedPainter/SharedPaintCommand.cpp:34-81 | A move and an update that undo leaves in force |
| PaintHistory.CommandManager.constructor | SharedPainter/SharedPaintCommandManager.h:44 | An empty history at the initial playback position |
| PaintHistory.CommandManager.ExecuteTask | SharedPainter/SharedPaintCommandManager.cpp:100-129 | The task, whatever it is, is appended; outside playback the position follows; it is carried out and sent unless playback or the painter filter keeps it from the canvas, and then its item is on the canvas, or not, or at the new place, or at the new place and scale, with all else as it was; the canvas goes on to show the log, and rolling back goes on to work exactly if the task fits |
| PaintHistory.CommandManager.ExecuteAt | SharedPainter/SharedPaintTask.cpp:40-48 | A task is sent at most once, at its first execution, and then carried out |
| PaintHistory.CommandManager.PlaybackTo | SharedPainter/SharedPaintCommandManager.cpp:131-144 | The position is set and the tasks between are carried out or rolled back, or none if a position is outside the log; afterwards the canvas shows the log up to the position exactly if the position is in the log |
| PaintHistory.BackwardedShows | SharedPainter/SharedPaintCommandManager.cpp:162-175 | Rolling back the tasks down to a position leads to what the log shows up to it |
| PaintHistory.CommandManager.PlayForward | SharedPainter/SharedPaintCommandManager.cpp:147-160 | Executing the tasks of painters who may draw from the old position on |
| PaintHistory.CommandManager.PlayBackward | SharedPainter/SharedPaintCommandManager.cpp:162-175 | Rolling back those tasks down to the new position |
| PaintHistory.CommandManager.SetAllowPainterToDraw | SharedPainter/SharedPaintCommandManager.cpp:37-70 | On whatever the canvas shows, the tasks of that painter up to the position are carried out or rolled back; a canvas that shows the log goes on to show it |
| PaintHistory.ToggledShows | SharedPainter/SharedPaintCommandManager.cpp:37-70 | If the canvas shows the log before, the items of the painter show the fold of the log up to the position afterwards, or their initial state if every task fits |
| PaintHistory.CommandManager.AddPainter | SharedPainter/SharedPaintCommandManager.h:187-191 | The canvas is not touched; it shows the log afterwards exactly if the painter was allowed before or the tasks shown make no difference to the painter's items |
| PaintHistory.CommandManager.AddHistoryItem | SharedPainter/SharedPaintCommandManager.cpp:72-98 | A new item is kept, a second one with the same owner and id is refused; the canvas shows the log afterwards exactly if tasks already shown make no difference to the item |
| PaintHistory.CommandManager.OwnersCanvas | SharedPainter/SharedPaintCommandManager.cpp:37-175 | Whenever the canvas shows the log, the items of an allowed owner are the fold of that owner's own tasks up to the position, those of a denied owner are as at first |
| PaintHistory.CommandManager.ExecuteCommand | SharedPainter/SharedPaintCommandManager.h:108-126 | The command's task is appended, the command goes on the stack and the redo stack is cleared; outside playback, for an allowed owner and a known item, the item is on the canvas after an addition, off it after a removal, and has the new data after an update or a move; rolling back goes on to work exactly if the task fits |
| PaintHistory.CommandManager.RedoCommand | SharedPainter/SharedPaintCommandManager.h:128-143 | The last undone command is executed again and moves between the stacks, with the same effect on the item as at first; nothing happens without one; rolling back goes on to work exactly if its task fits |
| PaintHistory.CommandManager.UndoCommand | SharedPainter/SharedPaintCommandManager.h:145-160 | The last command's inverse task is appended and the command moves between the stacks: the item is off the canvas after the undo of an addition, on it after that of a removal, and keeps the new data after that of an update or a move; nothing happens without one; rolling back goes on to work exactly if that task fits |
| PaintHistory.CommandManager.UndoRedo | SharedPainter/SharedPaintCommandManager.h:128-160 | k undos and k redos restore both stacks and the canvas, while the log grows by 2k |
| PaintHistory.CommandManager.Session | SharedPainter/SharedPaintCommandManager.h:108-160 | In any run of additions, removals, undos and redos the canvas equals the fold of the command stack bottom to top |
| PaintHistory.SyncConverges | SharedPainter/SharedPaintManager.cpp:370-397 | Replaying the whole log over an item as the sender has it now ends where replaying it over the initial item ends, whatever the sender's position and filter |
| PaintHistory.CopyItems | SharedPainter/SharedPaintManager.cpp:370-384 | The receiver gets every painter and every item with its current position and scale, not on the canvas |
| PaintHistory.ReplayLog | SharedPainter/SharedPaintManager.cpp:710-720 | The receiver carries out the whole log without sending anything again |
| PaintHistory.Sync | SharedPainter/SharedPaintManager.cpp:370-397 | The late joiner ends with the sender's log and with the full-log fold of the initial items, whatever tasks the log holds |
| PacketBuffer.Int32Read | SharedPainter/PacketBuffer.h:119-128 | What was written as a 32-bit number is read back modulo 2^32 |
| PacketBuffer.String8Read | SharedPainter/PacketBuffer.h:295-303 | What was written as a string of at most 255 bytes is read back, and the position is after it |
| PacketBuffer.CPacketBuffer.Read | SharedPainter/PacketBuffer.cpp:65-74 | At most size bytes from the read position on, which moves by what was read |
| PacketBuffer.CPacketBuffer.FastForward | SharedPainter/PacketBuffer.cpp:151-157 | The read position moves, unless that would pass the end |
| PacketBuffer.CPacketBuffer.SetReadPos | SharedPainter/PacketBuffer.cpp:127-134 | The read position is set, unless it is neither 0 nor inside |
| PacketBuffer.CPacketBuffer.Erase | SharedPainter/PacketBuffer.cpp:41-46 | The bytes are cut out, unless they reach past the end |
| PacketBuffer.CPacketBuffer.TakeInt16 | SharedPainter/PacketBuffer.h:248-265 | The next 16-bit number, or failure when fewer than two bytes are left |
| PacketSlicer.MakePacket | SharedPainter/CommonPacketBuilder.h:37-51 | Inserting the header fields one after the other gives BE BE, two bytes for the code, both ids with a length byte, four bytes for the length of the body, lowest first, and the body; it fails exactly when an id has more than 255 bytes |
| PacketSlicer.ParsedOnce | SharedPainter/PacketSlicer.h:152-244 | One call of the parser on exactly these bytes delivers the packet if its code is below 31 and its body has at most 200000000 bytes, and otherwise drops everything |
| PacketSlicer.WrongMagic | SharedPainter/PacketSlicer.h:160-173 | Bytes that do not begin with BE BE are dropped, with what has been parsed in this call |
| PacketSlicer.DeliveredAsSent | SharedPainter/PacketSlicer.h:132-150 | Packets are delivered exactly as sent if and only if an id, once given, is given in every later packet |
| PacketSlicer.CPacketSlicer.ReadString8 | SharedPainter/PacketSlicer.h:132-150 | The id or its length so far; a zero length leaves the old id; the header length stays equal to the read position |
| PacketSlicer.CPacketSlicer.ReadBody | SharedPainter/PacketSlicer.h:215-235 | The packet is cut out and everything behind it stays, with the read position and header length at 0 |
| PacketSlicer.CPacketSlicer.DoParse | SharedPainter/PacketSlicer.h:152-244 | One pass from whatever state was reached, including all error branches; no exception is reachable |
| PacketSlicer.CPacketSlicer.Parse | SharedPainter/PacketSlicer.h:106-115 | Passes until one stops; the packets of this call |
| PacketSlicer.PassInStep | SharedPainter/PacketSlicer.h:152-244 | On a beginning of a valid stream one pass delivers the next packet, or waits when it is not complete |
| PacketSlicer.Receive | SharedPainter/PacketSlicer.h:95-115 | For every list of well-formed packets and every way of cutting their bytes into portions, all calls together deliver exactly that list in order, with empty ids carried over |
| PacketCodec.SerializeBasicData | SharedPainter/PaintItem.h:190-205 | The record of an item's data byte by byte: owner with a length byte, number with the lowest byte first, flag 0 or 1, position, scale; fails exactly when the owner has more than 255 bytes |
| PacketCodec.DeserializeBasicData | SharedPainter/PaintItem.h:165-188 | Reads a record and moves the position behind it; on failure the caller's position stays |
| PacketCodec.BasicRead | SharedPainter/PaintItem.h:165-205 | What was written is read back, at any place in a buffer |
| PacketCodec.RecordRead | SharedPainter/PaintItem.h:165-188 | What any bytes are read as: the number with its sign, the flag set only by the byte 1 |
| PacketCodec.RecordCut | SharedPainter/PaintItem.h:165-188 | A record is read exactly if all its bytes are there |
| PacketCodec.SerializeUpdate | SharedPainter/SharedPaintTask.h:173-181 | An update task is its owner and id byte by byte, followed by two item records |
| PacketCodec.DeserializeUpdate | SharedPainter/SharedPaintTask.h:183-199 | An update task is read back as written, at any place and whatever follows |
| PacketCodec.SerializeLine | SharedPainter/PaintItem.h:467-486 | A line is its item record, colour, width, number of points and points |
| PacketCodec.DeserializeLine | SharedPainter/PaintItem.h:430-465 | A line is read back as written, with numbers and the number of points cut to 16 bits |
| PacketCodec.LineWithinLimits | SharedPainter/PaintItem.h:467-486 | So a line survives exactly when its numbers and number of points fit into 16 bits |
| PacketCodec.SerializeUser | SharedPainter/PaintUser.h:95-108 | A user record; fails exactly when a text has more than 255 bytes |
| PacketCodec.DeserializeUser | SharedPainter/PaintUser.h:110-134 | A user record is read back as written, apart from the field that is not sent, and the position moves behind it |
| PacketCodec.MakeHistoryUserList | SharedPainter/SystemPacketBuilder.h:419-437 | A packet with code bytes 0D 00, the number of users and their records, or nothing when a text is too long |
| PacketCodec.ParseHistoryUserList | SharedPainter/SystemPacketBuilder.h:439-460 | The list is read back in order, cut to as many users as the 16-bit count says |
| WriteQueue.Session.SendData | SharedPainter/NetPeerSession.h:129-142 | The data join the end of the queue, on an open or a closed connection; a write starts exactly if the queue was empty, with the first 4096 bytes or all; empty data are ignored; after a failed write nothing starts |
| WriteQueue.Session.StartWrite | SharedPainter/NetPeerSession.h:184-201 | The next 4096 unread bytes of the front packet are written, or all if there are fewer; the rest of the queue stays |
| WriteQueue.Session.HandleWrite | SharedPainter/NetPeerSession.h:249-269 | The written piece counts as completed, a used-up packet leaves the queue, the next write starts, with 4096 bytes or what is left of the front packet; completed, in-flight, unread and queued bytes stay the concatenation of all packets |
| WriteQueue.Session.HandleError | SharedPainter/NetPeerSession.h:249-269 | After a failed write the connection is closed and the queue stays, with its front packet partly written |
| WriteQueue.Drain | SharedPainter/NetPeerSession.h:184-269 | Unless a write has failed, after finitely many completions everything accepted has been written, in order |

## Left out

What contracts assume or do not say:

- RawInflate.Decompress: a new input area is given only when all of the present one has been taken, as the rule at Upgrader/XZip/XUnzip.cpp:357 has it, and the byte in front of an area does not change while the area is in use.
- RawInflate.ZStream.Call: after MemError, which is left only for code lengths that are refused, the source has freed the lengths and reads them again in a further call; in the model they are still there.
- RingWindow.Window.SourceByte: the ring is new and zeroed; a decoder that is reset keeps its old contents, which is not part of this model.
- Huffman.BuildTables: the converse is for zeroed table space; in space left over from an earlier block the entry that is never written may hold anything.
- HuftBuild.MakeEntry: the extra-bits lists hold counts below 16 or the mark 112, as cplext and cpdext do.
- InflateBlocks.Inflater.Run: tables are handed from huft_build to the codes state as a sequence instead of pointers into the table space, which is only rewritten after the codes state is gone; the codes state is one object used again instead of one allocated per block.
- InflateCodes.CodesState.Run: StreamEnd may be returned with output still pending when the fast path met the end of the block and the output area is full, as in the source; the blocks machine delivers it later.
- ZipRead.EntryReader.Read: a stored entry has equal sizes; with a smaller compressed size the loop of the source does not end. Reading the archive does not fail; error codes of inflate are swallowed, as in the source. The byte before the buffer is a parameter of each read.
- ZipRead.Extract: the byte before the buffer is the same in all reads, and its contract says between which places the stream may be left, not at which read; that is in the contract of `EntryReader.Read`.
- ZipRead.SearchCentralDir: the file is a byte sequence, so seeks and reads do not fail.
- PaintHistory.CommandManager.AddHistoryItem: items are values in one map by owner and id, in place of shared objects in one list per owner.
- PaintHistory.CommandManager.SetAllowPainterToDraw: a playback position behind the log, for which the source reads past the end of the list, is excluded.
- PaintHistory.Sync: every item of the sender has an owner in the list of painters, the receiver allows all of them, and items are not on the canvas before their first task.
- PacketSlicer.Receive: what happens to the packets of a call in which bytes are corrupt is stated per call (`DoParse`, `Parse`), not for whole streams: a bad magic number, code or length drops the buffer and the packets already parsed in that call, so the result depends on how the bytes are cut.
- PacketCodec.ParseHistoryUserList: bodies that were not written as lists are only shown to end without an exception escaping; the reader keeps what it has of a record that is cut off.
- PacketCodec.DeserializeUser: fields that are not sent keep what a new user has. Items, tasks and users are records passed by value here; the reader returns the record the source fills in place, so two names for one object are not modelled.
- WriteQueue.Session.SendData: a queued packet is a value with its own bytes and read position.

What the repository does besides:

- zlib header, preset dictionary and Adler check modes of `inflate`: `inflateInit2` always selects the raw mode.
- Resetting or freeing a decoder, allocation failures, message texts, `inflateSync` and trace output.
- ZIP directories, file names, dates, encryption and the `TUnzip` wrapper: Windows input and output around the core.
- `CDefferedCaller`: observers are taken to act at once and in order.
- The fields of items that no task compares (`posSetFlag`, the item's own previous data), item kinds other than lines, and drawing.
- Server rooms and super peers, whose session layer is not part of this model; user records of the server, which are two bytes shorter than those the client reads.
- Sockets, timers, connection set-up, and locking: the steps of the write queue and of the history are atomic.
- Qt user interface, scenes, dialogs, settings, screen sharing, and the download of upgrades.
