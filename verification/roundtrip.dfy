// What has been written by module DeflateWrite comes back out of inflate and out of TUnzip::Unzip, for every way of handing over the
// input and the space, and for every choice of blocks.

module RoundTripRun {
  import opened Bits
  import opened BitInput
  import opened Deflate
  import opened DeflateWay
  import opened DeflateWrite
  import opened InflateBlocks
  import opened Huffman
  import opened RawInflate
  import opened ZipRead

  // With a byte behind it, what has been written ends within the input.
  lemma EndsWithinWritten(cs: seq<Chunk>, more: seq<byte>)
    requires cs != [] && more != [] && forall i :: 0 <= i < |cs| ==> ChunkOk(cs[i])
    ensures EndsWithin(Inflate(Written(cs) + more), |Written(cs) + more|)
  {
    hide StreamBits, ChunkOk, Inflate;
    RoundTrip(cs, more);
  }

  method DecompressWritten(cs: seq<Chunk>, more: seq<byte>, calls: seq<Offering>) returns (r: Status, out: seq<byte>)
    requires cs != [] && more != [] && forall i :: 0 <= i < |cs| ==> ChunkOk(cs[i])
    requires TotalInput(calls) >= |Written(cs) + more| && TotalSpace(calls) > |TotalMeaning([], cs)|
    requires Patient(calls, |TotalMeaning([], cs)|) || Harmless(Written(cs) + more, calls)
    ensures r.StreamEnd? && out == TotalMeaning([], cs)
  {
    hide StreamBits, ChunkOk, Inflate, Written, TotalMeaning, TotalInput, Patient, Harmless, TurnsAt, TakesAll,
         OutcomeFrom, TotalOutput;
    RoundTrip(cs, more);
    EndsWithinWritten(cs, more);
    var replies;
    ghost var origin, turns, at;
    r, out, replies, origin, turns, at := Decompress(Written(cs) + more, calls);
  }

  method ExtractWritten(cs: seq<Chunk>, more: seq<byte>, uncompressedSize: nat, front: byte) returns (out: seq<byte>)
    requires cs != [] && more != [] && forall i :: 0 <= i < |cs| ==> ChunkOk(cs[i])
    requires
      var data := Written(cs) + more;
      forall a :: 0 < a < |data| && a % 16384 == 0 ==> !Exposed(data, a)
    ensures out == TotalMeaning([], cs)[..Min(uncompressedSize, |TotalMeaning([], cs)|)]
  {
    hide StreamBits, ChunkOk, Inflate, Written, TotalMeaning, OutcomeFrom, Exposed, AtBuffer;
    RoundTrip(cs, more);
    EndsWithinWritten(cs, more);
    ghost var origin, turns;
    out, origin, turns := Extract(Written(cs) + more, false, uncompressedSize, front);
  }
}
