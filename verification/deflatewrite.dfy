// A writer of Deflate streams with the numbers of RFC 1951 written out, independently of the tables of the decoder, and the round
// trip: whatever it writes is decoded to what was meant.

module DeflateWrite {
  import opened Bits
  import opened Canonical
  import opened BitInput
  import opened Huffman
  import opened Deflate
  import opened DeflateWay
  import opened FixedTables
  import opened InflateBlocks

  // ----- bytes from bits, the first bit of a byte being its lowest

  function PackByte(s: seq<bool>): byte
    requires |s| == 8
  {
    Bit(s[0]) + 2 * Bit(s[1]) + 4 * Bit(s[2]) + 8 * Bit(s[3]) + 16 * Bit(s[4]) + 32 * Bit(s[5]) + 64 * Bit(s[6]) + 128 * Bit(s[7])
  }

  lemma PackedLsb(s: seq<bool>)
    requires |s| == 8
    ensures PackByte(s) == Lsb(s)
  {
    hide Lsb;
    LsbAt(s, 0);
    LsbAt(s, 1);
    LsbAt(s, 2);
    LsbAt(s, 3);
    LsbAt(s, 4);
    LsbAt(s, 5);
    LsbAt(s, 6);
    LsbAt(s, 7);
    LsbAt(s, 8);
    assert s[0..] == s;
  }

  lemma LsbAt(s: seq<bool>, i: nat)
    requires i <= |s|
    ensures Lsb(s[i..]) == if i == |s| then 0 else Bit(s[i]) + 2 * Lsb(s[i + 1..])
  {
    if i < |s| {
      assert s[i..][1..] == s[i + 1..];
    }
  }

  function Pack(s: seq<bool>): (r: seq<byte>)
    requires |s| % 8 == 0
    ensures |r| == |s| / 8
  {
    seq(|s| / 8, i requires 0 <= i < |s| / 8 => PackByte(s[8 * i..8 * i + 8]))
  }

  lemma {:induction false} BitsOfLsb(s: seq<bool>)
    ensures LsbBits(Lsb(s), |s|) == s
  {
    if s != [] {
      BitsOfLsb(s[1..]);
      assert s == [s[0]] + s[1..];
    }
  }

  lemma {:induction false} StreamOfPack(s: seq<bool>)
    requires |s| % 8 == 0
    ensures Stream(Pack(s)) == s
    decreases |s|
  {
    hide LsbBits, Lsb, PackByte;
    if s == [] {
      assert Pack(s) == [];
    } else {
      var r := s[8..];
      StreamOfPack(r);
      PackedLsb(s[0..8]);
      BitsOfLsb(s[0..8]);
      assert Pack(s)[1..] == Pack(r) by {
        forall i | 0 <= i < |Pack(r)|
          ensures Pack(s)[1..][i] == Pack(r)[i]
        {
          assert s[8 * (i + 1)..8 * (i + 1) + 8] == r[8 * i..8 * i + 8];
        }
      }
      assert s == s[0..8] + r;
    }
  }

  lemma Next(bits: seq<bool>, pos: nat, h: seq<bool>, t: seq<bool>)
    requires pos <= |bits| && bits[pos..] == h + t
    ensures pos + |h| <= |bits| && bits[pos..pos + |h|] == h && bits[pos + |h|..] == t
  {
    assert bits[pos..pos + |h|] == bits[pos..][..|h|];
    assert bits[pos + |h|..] == bits[pos..][|h|..];
  }

  // Parts of what has been written, side by side.
  lemma ThreeParts(a: seq<bool>, b: seq<bool>, c: seq<bool>, t: seq<bool>)
    ensures a + (b + c) + t == a + (b + (c + t)) && |a + (b + c)| == |a| + |b| + |c|
  {
  }

  lemma FourParts(a: seq<bool>, b: seq<bool>, c: seq<bool>, d: seq<bool>, t: seq<bool>)
    ensures a + (b + (c + d)) + t == a + (b + (c + (d + t))) && |a + (b + (c + d))| == |a| + |b| + |c| + |d|
  {
  }

  lemma FiveParts(a: seq<bool>, b: seq<bool>, c: seq<bool>, d: seq<bool>, e: seq<bool>, t: seq<bool>)
    ensures a + (b + (c + (d + e))) + t == a + (b + (c + (d + (e + t)))) && |a + (b + (c + (d + e)))| == |a| + |b| + |c| + |d| + |e|
  {
  }

  // A number in a field of n bits.
  lemma {:induction false} Number(bits: seq<bool>, pos: nat, x: nat, n: nat, t: seq<bool>)
    requires pos <= |bits| && bits[pos..] == LsbBits(x, n) + t && x < Pow2(n)
    ensures pos + n <= |bits| && Val(bits, pos, n) == x && bits[pos + n..] == t
  {
    hide Lsb, LsbBits, Pow2;
    Next(bits, pos, LsbBits(x, n), t);
    LsbOfLsbBits(x, n);
  }

  // ----- literals and matches

  datatype Item = Literal(b: byte) | Match(length: nat, distance: nat)

  // A symbol with its extra bits.
  datatype Coded = Coded(symbol: nat, extra: nat, value: nat)

  // Lengths 3 to 258 (section 3.2.5).
  function LengthCode(n: nat): Coded
    requires 3 <= n <= 258
  {
    if n == 258 then Coded(285, 0, 0)
    else if n <= 10 then Coded(254 + n, 0, 0)
    else if n <= 18 then Coded(265 + (n - 11) / 2, 1, (n - 11) % 2)
    else if n <= 34 then Coded(269 + (n - 19) / 4, 2, (n - 19) % 4)
    else if n <= 66 then Coded(273 + (n - 35) / 8, 3, (n - 35) % 8)
    else if n <= 130 then Coded(277 + (n - 67) / 16, 4, (n - 67) % 16)
    else Coded(281 + (n - 131) / 32, 5, (n - 131) % 32)
  }

  // Distances 1 to 32768.
  function DistanceCode(d: nat): Coded
    requires 1 <= d <= 32768
  {
    if d <= 4 then Coded(d - 1, 0, 0)
    else if d <= 8 then Coded(4 + (d - 5) / 2, 1, (d - 5) % 2)
    else if d <= 16 then Coded(6 + (d - 9) / 4, 2, (d - 9) % 4)
    else if d <= 32 then Coded(8 + (d - 17) / 8, 3, (d - 17) % 8)
    else if d <= 64 then Coded(10 + (d - 33) / 16, 4, (d - 33) % 16)
    else if d <= 128 then Coded(12 + (d - 65) / 32, 5, (d - 65) % 32)
    else if d <= 256 then Coded(14 + (d - 129) / 64, 6, (d - 129) % 64)
    else if d <= 512 then Coded(16 + (d - 257) / 128, 7, (d - 257) % 128)
    else if d <= 1024 then Coded(18 + (d - 513) / 256, 8, (d - 513) % 256)
    else if d <= 2048 then Coded(20 + (d - 1025) / 512, 9, (d - 1025) % 512)
    else if d <= 4096 then Coded(22 + (d - 2049) / 1024, 10, (d - 2049) % 1024)
    else if d <= 8192 then Coded(24 + (d - 4097) / 2048, 11, (d - 4097) % 2048)
    else if d <= 16384 then Coded(26 + (d - 8193) / 4096, 12, (d - 8193) % 4096)
    else Coded(28 + (d - 16385) / 8192, 13, (d - 16385) % 8192)
  }

  lemma Powers()
    ensures Pow2(0) == 1 && Pow2(1) == 2 && Pow2(2) == 4 && Pow2(3) == 8 && Pow2(4) == 16 && Pow2(5) == 32 && Pow2(6) == 64 && Pow2(7) == 128
    ensures Pow2(8) == 256 && Pow2(9) == 512 && Pow2(10) == 1024 && Pow2(11) == 2048 && Pow2(12) == 4096 && Pow2(13) == 8192
    ensures Pow2(14) == 16384 && Pow2(15) == 32768 && Pow2(16) == 65536
  {
    assert Pow2(4) == 16;
    assert Pow2(8) == 256;
    assert Pow2(12) == 4096;
  }

  // The decoder's tables give the length back.
  lemma LengthBack(n: nat)
    requires 3 <= n <= 258
    ensures
      var c := LengthCode(n);
      && 257 <= c.symbol <= 285 && c.value < Pow2(c.extra)
      && LengthExtra()[c.symbol - 257] == c.extra && LengthBase()[c.symbol - 257] + c.value == n
  {
    hide LengthCode, LengthExtra, LengthBase, Pow2;
    if n <= 34 {
      ShortBack(n);
    } else {
      LongBack(n);
    }
  }

  ghost predicate GivesLength(c: Coded, n: nat) {
    && 257 <= c.symbol <= 285 && c.value < Pow2(c.extra)
    && LengthExtra()[c.symbol - 257] == c.extra && LengthBase()[c.symbol - 257] + c.value == n
  }

  lemma ShortBack(n: nat)
    requires 3 <= n <= 34
    ensures GivesLength(LengthCode(n), n)
  {
    hide Pow2;
    Powers();
  }

  lemma LongBack(n: nat)
    requires 34 < n <= 258
    ensures GivesLength(LengthCode(n), n)
  {
    hide Pow2;
    Powers();
  }

  lemma DistanceBack(d: nat)
    requires 1 <= d <= 32768
    ensures
      var c := DistanceCode(d);
      && c.symbol < 30 && c.value < Pow2(c.extra)
      && DistExtra()[c.symbol] == c.extra && DistBase()[c.symbol] + c.value == d
  {
    hide DistanceCode, DistExtra, DistBase, Pow2;
    if d <= 128 {
      NearBack(d);
    } else if d <= 2048 {
      MiddleBack(d);
    } else {
      FarBack(d);
    }
  }

  ghost predicate GivesDistance(c: Coded, d: nat) {
    c.symbol < 30 && c.value < Pow2(c.extra) && DistExtra()[c.symbol] == c.extra && DistBase()[c.symbol] + c.value == d
  }

  lemma NearBack(d: nat)
    requires 1 <= d <= 128
    ensures GivesDistance(DistanceCode(d), d)
  {
    hide Pow2;
    Powers();
  }

  lemma MiddleBack(d: nat)
    requires 128 < d <= 2048
    ensures GivesDistance(DistanceCode(d), d)
  {
    hide Pow2;
    Powers();
  }

  lemma FarBack(d: nat)
    requires 2048 < d <= 32768
    ensures GivesDistance(DistanceCode(d), d)
  {
    hide Pow2;
    Powers();
  }

  // ----- the codes of a block

  datatype Coding = Fixed | Own(lit: seq<nat>, dist: seq<nat>)

  // The fixed codes (section 3.2.6), with the most significant bit first.
  function FixedBits(y: nat): seq<bool> {
    if y < 144 then CodeBits(48 + y, 8)
    else if y < 256 then CodeBits(400 + (y - 144), 9)
    else if y < 280 then CodeBits(y - 256, 7)
    else CodeBits(192 + (y - 280), 8)
  }

  // The symbol s has a codeword of one bit, and no other symbol has any.
  ghost predicate Single(b: seq<nat>, s: nat) {
    s < |b| && b[s] == 1 && forall i :: 0 <= i < |b| && i != s ==> b[i] == 0
  }

  // A code is complete, or it has a single codeword of one bit.
  ghost predicate Usable(b: seq<nat>) {
    && Lengths(b)
    && (Kraft(b) == 32768 || exists s :: Single(b, s))
  }

  // Of a code with codewords of its own, no distance at all need be used.
  ghost predicate SoundCoding(c: Coding) {
    c.Own? ==>
      && Usable(c.lit) && 257 <= |c.lit| <= 286 && c.lit[256] > 0 && 1 <= |c.dist| <= 30
      && (Usable(c.dist) || (|c.lit| == 257 && Lengths(c.dist) && forall i :: 0 <= i < |c.dist| ==> c.dist[i] == 0))
  }

  ghost predicate HasLit(c: Coding, y: nat) {
    match c
    case Fixed => y < 286
    case Own(lit, _) => y < |lit| && lit[y] > 0
  }

  ghost predicate HasDist(c: Coding, d: nat) {
    match c
    case Fixed => d < 30
    case Own(_, dist) => d < |dist| && dist[d] > 0
  }

  function LitBits(c: Coding, y: nat): (w: seq<bool>)
    requires SoundCoding(c) && HasLit(c, y)
  {
    match c
    case Fixed => FixedBits(y)
    case Own(lit, _) => Codeword(lit, y)
  }

  function DistBits(c: Coding, d: nat): (w: seq<bool>)
    requires SoundCoding(c) && HasDist(c, d)
  {
    match c
    case Fixed => CodeBits(d, 5)
    case Own(_, dist) => Codeword(dist, d)
  }

  ghost predicate Writable(c: Coding, it: Item) {
    match it
    case Literal(b) => HasLit(c, b)
    case Match(n, d) => 3 <= n <= 258 && 1 <= d <= 32768 && HasLit(c, LengthCode(n).symbol) && HasDist(c, DistanceCode(d).symbol)
  }

  function ItemBits(c: Coding, it: Item): seq<bool>
    requires SoundCoding(c) && Writable(c, it)
  {
    match it
    case Literal(b) => LitBits(c, b)
    case Match(n, d) =>
      var l, e := LengthCode(n), DistanceCode(d);
      LitBits(c, l.symbol) + (LsbBits(l.value, l.extra) + (DistBits(c, e.symbol) + LsbBits(e.value, e.extra)))
  }

  // The items, and the end of the block.
  function ItemsBits(c: Coding, items: seq<Item>): seq<bool>
    requires SoundCoding(c) && forall i :: 0 <= i < |items| ==> Writable(c, items[i])
  {
    if items == [] then LitBits(c, 256) else ItemBits(c, items[0]) + ItemsBits(c, items[1..])
  }

  // What an item stands for: a match repeats what lies distance bytes back, byte by byte.
  function AfterItem(out: seq<byte>, it: Item): (r: seq<byte>)
    ensures out <= r
  {
    match it
    case Literal(b) => out + [b]
    case Match(n, d) => CopyMatch(out, d, n)
  }

  function Expanded(out: seq<byte>, items: seq<Item>): (r: seq<byte>)
    ensures out <= r
    decreases |items|
  {
    if items == [] then out else Expanded(AfterItem(out, items[0]), items[1..])
  }

  // ----- reading single symbols

  lemma {:induction false} FewOnes(b: seq<nat>)
    requires Lengths(b) && forall i :: 0 <= i < |b| ==> b[i] <= 1
    ensures Kraft(b) == 16384 * Count(b, 1) && Longest(b) <= 1
  {
    hide Pow2;
    if b != [] {
      FewOnes(b[..|b| - 1]);
      Powers();
    }
  }

  lemma {:induction false} NoOnes(b: seq<nat>)
    requires forall i :: 0 <= i < |b| ==> b[i] <= 1
    ensures Count(b, 1) == 0 <==> forall i :: 0 <= i < |b| ==> b[i] == 0
  {
    if b != [] {
      NoOnes(b[..|b| - 1]);
    }
  }

  lemma {:induction false} CountsOnce(b: seq<nat>)
    requires forall i :: 0 <= i < |b| ==> b[i] <= 1
    ensures Count(b, 1) == 1 <==> exists s :: Single(b, s)
  {
    if b != [] {
      var n := |b| - 1;
      NoOnes(b[..n]);
      CountsOnce(b[..n]);
      if b[n] == 1 {
        assert Count(b[..n], 1) == 0 ==> Single(b, n);
      } else {
        forall s: nat
          ensures Single(b[..n], s) <==> Single(b, s)
        {
        }
      }
    }
  }

  // These are the codes that the decoder takes.
  lemma UsableAccepted(b: seq<nat>)
    ensures Accepted(b) <==> Usable(b)
  {
    hide Count, Kraft, Longest, Pow2;
    Powers();
    LengthsCounted(b);
    if Lengths(b) && Longest(b) <= 1 {
      FewOnes(b);
      CountsOnce(b);
      CountWitness(b, 1);
    } else if s :| Single(b, s) {
      LongestIn(b);
    }
    if Lengths(b) && Longest(b) == 0 {
      FewOnes(b);
    }
  }

  lemma {:induction false} LongestIn(b: seq<nat>)
    ensures Longest(b) > 0 ==> exists s :: 0 <= s < |b| && b[s] == Longest(b)
  {
    if b != [] {
      LongestIn(b[..|b| - 1]);
    }
  }

  // Bits that start with a codeword are decoded to its symbol.
  lemma CodewordRead(b: seq<nat>, s: nat, t: seq<bool>)
    requires Usable(b) && s < |b| && b[s] > 0 && Codeword(b, s) <= t
    ensures Decode(b, t) == Symbol(s, b[s])
  {
    hide Count, Kraft, Longest, Pow2, Codeword, End, Usable;
    UsableAccepted(b);
    var g := Longest(b);
    var c := Filling(b);
    DecodeListed(b, c, g, s, t);
  }

  // The counts, with the patterns left over added to the longest ones.
  lemma Filling(b: seq<nat>) returns (c: seq<nat>)
    requires Accepted(b)
    ensures Completed(b, c, Longest(b))
  {
    hide Kraft, Longest, Pow2, Count;
    LengthsCounted(b);
    var g := Longest(b);
    LongestBound(b);
    KraftAtLongest(b, g);
    var y := Pow2(g) - End(Counts(b), g);
    c := Counts(b)[g := Counts(b)[g] + y];
    MakeComplete(b, c, y, g);
  }

  // The code lengths that a coding stands for.
  function LitLens(c: Coding): seq<nat> {
    if c.Fixed? then FixedLit() else c.lit
  }

  function DistLens(c: Coding): seq<nat> {
    if c.Fixed? then FixedDist() else c.dist
  }

  lemma FixedWord(y: nat)
    requires y < 288
    ensures Lengths(FixedLit()) && |FixedLit()| == 288 && FixedLit()[y] > 0 && Codeword(FixedLit(), y) == FixedBits(y)
  {
    hide FixedLit, CodeBits, First, Count;
    LitFirsts();
    LitShape();
    LitLengths(y);
    LitCount(y, LitLength(y));
  }

  lemma CodingLengths(c: Coding)
    requires SoundCoding(c)
    ensures Lengths(LitLens(c)) && Lengths(DistLens(c))
  {
    hide FixedLit, FixedDist;
    LitShape();
    DistShape();
  }

  lemma LitRead(c: Coding, y: nat, bits: seq<bool>, pos: nat, t: seq<bool>)
    requires SoundCoding(c) && HasLit(c, y) && pos <= |bits| && bits[pos..] == LitBits(c, y) + t
    ensures Lengths(LitLens(c)) && pos + |LitBits(c, y)| <= |bits| && bits[pos + |LitBits(c, y)|..] == t
    ensures Decode(LitLens(c), bits[pos..]) == Symbol(y, |LitBits(c, y)|)
  {
    hide FixedLit, CodeBits, Codeword, FixedBits, Usable, Decode;
    CodingLengths(c);
    Next(bits, pos, LitBits(c, y), t);
    if c.Fixed? {
      FixedWord(y);
      LitCompleted();
      DecodeListed(FixedLit(), Counts(FixedLit()), 9, y, bits[pos..]);
    } else {
      CodewordRead(c.lit, y, bits[pos..]);
    }
  }

  lemma DistRead(c: Coding, d: nat, bits: seq<bool>, pos: nat, t: seq<bool>)
    requires SoundCoding(c) && HasDist(c, d) && pos <= |bits| && bits[pos..] == DistBits(c, d) + t
    ensures Lengths(DistLens(c)) && pos + |DistBits(c, d)| <= |bits| && bits[pos + |DistBits(c, d)|..] == t
    ensures Decode(DistLens(c), bits[pos..]) == Symbol(d, |DistBits(c, d)|)
  {
    hide FixedDist, CodeBits, Codeword, Decode, Count, First, End, Usable;
    CodingLengths(c);
    Next(bits, pos, DistBits(c, d), t);
    if c.Fixed? {
      DistShape();
      DistCodeword(d);
      DistFirst();
      DecodeListed(FixedDist(), Counts(FixedDist())[5 := 32], 5, d, bits[pos..]);
    } else {
      CodewordRead(c.dist, d, bits[pos..]);
    }
  }

  // One item of a block is decoded to what it stands for.
  lemma LiteralRead(c: Coding, b: byte, bits: seq<bool>, pos: nat, out: seq<byte>, t: seq<bool>)
    requires SoundCoding(c) && HasLit(c, b) && pos <= |bits| && bits[pos..] == LitBits(c, b) + t
    ensures Lengths(LitLens(c)) && Lengths(DistLens(c))
    ensures pos + |LitBits(c, b)| <= |bits| && bits[pos + |LitBits(c, b)|..] == t
    ensures Codes(LitLens(c), DistLens(c), bits, pos, out) == Codes(LitLens(c), DistLens(c), bits, pos + |LitBits(c, b)|, out + [b])
  {
    hide LitBits, LitLens, DistLens, SoundCoding, HasLit, Decode;
    CodingLengths(c);
    LitRead(c, b, bits, pos, t);
  }

  lemma {:induction false} EndRead(c: Coding, bits: seq<bool>, pos: nat, out: seq<byte>, t: seq<bool>)
    requires SoundCoding(c) && HasLit(c, 256) && pos <= |bits| && bits[pos..] == LitBits(c, 256) + t
    ensures Lengths(LitLens(c)) && Lengths(DistLens(c))
    ensures pos + |LitBits(c, 256)| <= |bits| && bits[pos + |LitBits(c, 256)|..] == t
    ensures Codes(LitLens(c), DistLens(c), bits, pos, out) == EndOfBlock(pos + |LitBits(c, 256)|, out)
  {
    hide LitBits, LitLens, DistLens, SoundCoding, HasLit, Decode;
    CodingLengths(c);
    LitRead(c, 256, bits, pos, t);
  }

  lemma MatchRead(c: Coding, n: nat, d: nat, bits: seq<bool>, pos: nat, out: seq<byte>, t: seq<bool>)
    requires SoundCoding(c) && Writable(c, Match(n, d)) && pos <= |bits| && bits[pos..] == ItemBits(c, Match(n, d)) + t
    ensures Lengths(LitLens(c)) && Lengths(DistLens(c))
    ensures
      var p := pos + |ItemBits(c, Match(n, d))|;
      && p <= |bits| && bits[p..] == t
      && Codes(LitLens(c), DistLens(c), bits, pos, out) == Codes(LitLens(c), DistLens(c), bits, p, CopyMatch(out, d, n))
  {
    hide LitBits, DistBits, LitLens, DistLens, SoundCoding, HasLit, HasDist, Decode, LengthCode, DistanceCode,
         LengthBase, LengthExtra, DistBase, DistExtra, Pow2, LsbBits, Val, Codes;
    CodingLengths(c);
    LengthBack(n);
    DistanceBack(d);
    var l, e := LengthCode(n), DistanceCode(d);
    var a, x, b, y := LitBits(c, l.symbol), LsbBits(l.value, l.extra), DistBits(c, e.symbol), LsbBits(e.value, e.extra);
    assert ItemBits(c, Match(n, d)) == a + (x + (b + y));
    FourParts(a, x, b, y, t);
    assert bits[pos..] == a + (x + (b + (y + t)));
    LitRead(c, l.symbol, bits, pos, x + (b + (y + t)));
    var p := pos + |a|;
    Number(bits, p, l.value, l.extra, b + (y + t));
    DistRead(c, e.symbol, bits, p + |x|, y + t);
    Number(bits, p + |x| + |b|, e.value, e.extra, t);
    MatchDecoded(LitLens(c), DistLens(c), bits, pos, out, l, e, n, d, |a|, |b|);
  }

  lemma MatchDecoded(lit: seq<nat>, dist: seq<nat>, bits: seq<bool>, pos: nat, out: seq<byte>, l: Coded, e: Coded, n: nat, d: nat, i: nat, j: nat)
    requires Lengths(lit) && Lengths(dist) && pos <= |bits| && 257 <= l.symbol <= 285 && e.symbol < 30
    requires Decode(lit, bits[pos..]) == Symbol(l.symbol, i) && pos + i + l.extra <= |bits| && Val(bits, pos + i, l.extra) == l.value
    requires LengthExtra()[l.symbol - 257] == l.extra && LengthBase()[l.symbol - 257] + l.value == n
    requires
      var q := pos + i + l.extra;
      Decode(dist, bits[q..]) == Symbol(e.symbol, j) && q + j + e.extra <= |bits| && Val(bits, q + j, e.extra) == e.value
    requires DistExtra()[e.symbol] == e.extra && DistBase()[e.symbol] + e.value == d
    ensures Codes(lit, dist, bits, pos, out) == Codes(lit, dist, bits, pos + i + l.extra + j + e.extra, CopyMatch(out, d, n))
  {
    hide Decode, LengthBase, LengthExtra, DistBase, DistExtra, Val, CopyMatch;
    var q := pos + i + l.extra;
    assert Codes(lit, dist, bits, pos, out) == LengthPart(lit, dist, bits, pos + i, out, LengthBase()[l.symbol - 257], LengthExtra()[l.symbol - 257]);
    assert Extra(bits, pos + i, LengthBase()[l.symbol - 257], l.extra) == Got(q, n);
    assert DistanceSymbol(dist, bits, q) == Got(q + j, e.symbol);
    assert Extra(bits, q + j, DistBase()[e.symbol], e.extra) == Got(q + j + e.extra, d);
    assert LengthPart(lit, dist, bits, pos + i, out, LengthBase()[l.symbol - 257], l.extra) == DistancePart(lit, dist, bits, q, out, n);
    assert DistancePart(lit, dist, bits, q, out, n) == DistanceExtra(lit, dist, bits, q + j, out, n, DistBase()[e.symbol], e.extra);
    assert DistanceExtra(lit, dist, bits, q + j, out, n, DistBase()[e.symbol], e.extra) == Copying(lit, dist, bits, q + j + e.extra, out, n, d);
  }

  lemma ItemRead(c: Coding, it: Item, bits: seq<bool>, pos: nat, out: seq<byte>, t: seq<bool>)
    requires SoundCoding(c) && Writable(c, it) && pos <= |bits| && bits[pos..] == ItemBits(c, it) + t
    ensures Lengths(LitLens(c)) && Lengths(DistLens(c))
    ensures
      var p := pos + |ItemBits(c, it)|;
      && p <= |bits| && bits[p..] == t
      && Codes(LitLens(c), DistLens(c), bits, pos, out) == Codes(LitLens(c), DistLens(c), bits, p, AfterItem(out, it))
  {
    hide LitBits, DistBits, LitLens, DistLens, SoundCoding, HasLit, HasDist, LengthCode, DistanceCode, Codes, LsbBits,
         CopyMatch;
    match it {
      case Literal(b) => LiteralRead(c, b, bits, pos, out, t);
      case Match(n, d) => MatchRead(c, n, d, bits, pos, out, t);
    }
  }

  lemma {:induction false} ItemsRead(c: Coding, items: seq<Item>, bits: seq<bool>, pos: nat, out: seq<byte>, t: seq<bool>)
    requires SoundCoding(c) && HasLit(c, 256) && (forall i :: 0 <= i < |items| ==> Writable(c, items[i]))
    requires pos <= |bits| && bits[pos..] == ItemsBits(c, items) + t
    ensures Lengths(LitLens(c)) && Lengths(DistLens(c))
    ensures
      var p := pos + |ItemsBits(c, items)|;
      && p <= |bits| && bits[p..] == t
      && Codes(LitLens(c), DistLens(c), bits, pos, out) == EndOfBlock(p, Expanded(out, items))
    decreases |items|
  {
    hide LitBits, LitLens, DistLens, SoundCoding, HasLit, Codes, ItemBits, AfterItem, Writable;
    if items == [] {
      EndRead(c, bits, pos, out, t);
    } else {
      var w, r := ItemBits(c, items[0]), ItemsBits(c, items[1..]);
      assert ItemsBits(c, items) == w + r;
      assert bits[pos..] == w + (r + t);
      ItemRead(c, items[0], bits, pos, out, r + t);
      ItemsRead(c, items[1..], bits, pos + |w|, AfterItem(out, items[0]), t);
    }
  }

  // ----- the head of a block with codes of its own (section 3.2.7)

  // How code lengths are sent: one by one, or the last one again, or runs of zeros.
  datatype Run = One(n: nat) | LastAgain(times: nat) | SomeZeros(times: nat) | ManyZeros(times: nat)

  ghost predicate RunOk(cl: seq<nat>, acc: seq<nat>, r: Run) {
    && |cl| == 19
    && match r
       case One(n) => n <= 15 && cl[n] > 0
       case LastAgain(k) => 3 <= k <= 6 && acc != [] && cl[16] > 0
       case SomeZeros(k) => 3 <= k <= 10 && cl[17] > 0
       case ManyZeros(k) => 11 <= k <= 138 && cl[18] > 0
  }

  function Lengthened(acc: seq<nat>, r: Run): seq<nat> {
    match r
    case One(n) => acc + [n]
    case LastAgain(k) => acc + seq(k, _ => if acc == [] then 0 else acc[|acc| - 1])
    case SomeZeros(k) => acc + seq(k, _ => 0)
    case ManyZeros(k) => acc + seq(k, _ => 0)
  }

  function RunBits(cl: seq<nat>, acc: seq<nat>, r: Run): seq<bool>
    requires Lengths(cl) && RunOk(cl, acc, r)
  {
    match r
    case One(n) => Codeword(cl, n)
    case LastAgain(k) => Codeword(cl, 16) + LsbBits(k - 3, 2)
    case SomeZeros(k) => Codeword(cl, 17) + LsbBits(k - 3, 3)
    case ManyZeros(k) => Codeword(cl, 18) + LsbBits(k - 11, 7)
  }

  // The runs can be sent when acc has been, and make it all.
  ghost predicate RunsMake(cl: seq<nat>, acc: seq<nat>, runs: seq<Run>, all: seq<nat>)
    decreases |runs|
  {
    if runs == [] then acc == all else RunOk(cl, acc, runs[0]) && RunsMake(cl, Lengthened(acc, runs[0]), runs[1..], all)
  }

  function RunsBits(cl: seq<nat>, acc: seq<nat>, runs: seq<Run>, all: seq<nat>): seq<bool>
    requires Lengths(cl) && RunsMake(cl, acc, runs, all)
    decreases |runs|
  {
    if runs == [] then [] else RunBits(cl, acc, runs[0]) + RunsBits(cl, Lengthened(acc, runs[0]), runs[1..], all)
  }

  lemma {:induction false} MakeGrows(cl: seq<nat>, acc: seq<nat>, runs: seq<Run>, all: seq<nat>)
    requires RunsMake(cl, acc, runs, all)
    ensures |acc| + |runs| <= |all|
    decreases |runs|
  {
    if runs != [] {
      MakeGrows(cl, Lengthened(acc, runs[0]), runs[1..], all);
    }
  }

  lemma RepeatNumbers()
    ensures RepeatBits(16) == 2 && RepeatBits(17) == 3 && RepeatBits(18) == 7
    ensures RepeatBase(16) == 3 && RepeatBase(17) == 3 && RepeatBase(18) == 11
  {
  }

  // One run is decoded: its symbol is followed by two, three or seven bits for the number of repetitions.
  lemma RunRead(bits: seq<bool>, pos: nat, n: nat, cl: seq<nat>, acc: seq<nat>, r: Run, t: seq<bool>)
    requires Usable(cl) && Lengths(cl) && RunOk(cl, acc, r) && Lengths(acc) && |Lengthened(acc, r)| <= NumLengths(n)
    requires pos <= |bits| && bits[pos..] == RunBits(cl, acc, r) + t
    ensures Accepted(cl) && Lengths(Lengthened(acc, r)) && |acc| < |Lengthened(acc, r)|
    ensures
      var p := pos + |RunBits(cl, acc, r)|;
      p <= |bits| && bits[p..] == t && CodeLengths(bits, pos, n, cl, acc) == CodeLengths(bits, p, n, cl, Lengthened(acc, r))
  {
    hide Usable, Accepted, NumLengths, Codeword, LsbBits, CodeLengths, Pow2, RepeatBits, RepeatBase, Lengthened, Repeat;
    UsableAccepted(cl);
    LengthenedIs(acc, r);
    Powers();
    RepeatNumbers();
    match r {
      case One(x) => OneRead(bits, pos, n, cl, acc, x, t);
      case LastAgain(k) => RepeatRead(bits, pos, n, cl, acc, 16, k, 3, 2, t);
      case SomeZeros(k) => RepeatRead(bits, pos, n, cl, acc, 17, k, 3, 3, t);
      case ManyZeros(k) => RepeatRead(bits, pos, n, cl, acc, 18, k, 11, 7, t);
    }
  }

  lemma LengthenedIs(acc: seq<nat>, r: Run)
    requires r.LastAgain? ==> acc != []
    ensures r.One? ==> Lengthened(acc, r) == acc + [r.n]
    ensures !r.One? ==> Lengthened(acc, r) == acc + Repeat(if r.LastAgain? then acc[|acc| - 1] else 0, r.times)
    ensures |Lengthened(acc, r)| == |acc| + if r.One? then 1 else r.times
  {
  }

  lemma OneRead(bits: seq<bool>, pos: nat, n: nat, cl: seq<nat>, acc: seq<nat>, x: nat, t: seq<bool>)
    requires Usable(cl) && Lengths(cl) && Accepted(cl) && |cl| == 19 && x <= 15 && cl[x] > 0 && Lengths(acc) && |acc| < NumLengths(n)
    requires pos <= |bits| && bits[pos..] == Codeword(cl, x) + t
    ensures
      var p, next := pos + cl[x], acc + [x];
      p <= |bits| && bits[p..] == t && Lengths(next) && CodeLengths(bits, pos, n, cl, acc) == CodeLengths(bits, p, n, cl, next)
  {
    hide Usable, Accepted, NumLengths, Codeword, Decode, CodeLengths, BitLengthSymbol;
    SymbolRead(cl, x, bits, pos, t);
    LengthUnfold'(bits, pos, n, cl, acc, x, cl[x]);
  }

  lemma RepeatRead(bits: seq<bool>, pos: nat, n: nat, cl: seq<nat>, acc: seq<nat>, c: nat, k: nat, base: nat, w: nat, t: seq<bool>)
    requires Usable(cl) && Lengths(cl) && Accepted(cl) && |cl| == 19 && 16 <= c < 19 && cl[c] > 0 && Lengths(acc) && (c == 16 ==> acc != [])
    requires base == RepeatBase(c) && w == RepeatBits(c) && base <= k < base + Pow2(w) && 0 < k && |acc| + k <= NumLengths(n)
    requires pos <= |bits| && bits[pos..] == Codeword(cl, c) + LsbBits(k - base, w) + t
    ensures
      var p, next := pos + cl[c] + w, acc + Repeat(if c == 16 then acc[|acc| - 1] else 0, k);
      && p <= |bits| && bits[p..] == t && Lengths(next)
      && CodeLengths(bits, pos, n, cl, acc) == CodeLengths(bits, p, n, cl, next)
  {
    hide Usable, Accepted, NumLengths, Codeword, LsbBits, Lsb, Val, Decode, CodeLengths, Pow2, RepeatBits, RepeatBase,
         BitLengthSymbol;
    assert bits[pos..] == Codeword(cl, c) + (LsbBits(k - base, w) + t);
    SymbolRead(cl, c, bits, pos, LsbBits(k - base, w) + t);
    Number(bits, pos + cl[c], k - base, w, t);
    RepeatUnfold(bits, pos, n, cl, acc, c, cl[c]);
  }

  lemma SymbolRead(cl: seq<nat>, c: nat, bits: seq<bool>, pos: nat, t: seq<bool>)
    requires |cl| == 19 && Usable(cl) && Lengths(cl) && Accepted(cl) && c < 19 && cl[c] > 0 && pos <= |bits| && bits[pos..] == Codeword(cl, c) + t
    ensures pos + cl[c] <= |bits| && bits[pos + cl[c]..] == t && BitLengthSymbol(cl, bits[pos..]) == Symbol(c, cl[c])
  {
    hide Usable, Accepted, Codeword, Decode, Sole;
    Next(bits, pos, Codeword(cl, c), t);
    CodewordRead(cl, c, bits[pos..]);
  }

  lemma {:induction false} AllRead(bits: seq<bool>, pos: nat, n: nat, cl: seq<nat>, all: seq<nat>)
    requires pos <= |bits| && |cl| == 19 && Accepted(cl) && Lengths(all) && |all| == NumLengths(n)
    ensures CodeLengths(bits, pos, n, cl, all) == CodeLengthsRead(pos, n, all)
  {
    hide Accepted, Lengths, NumLengths, CodeLengthsRead;
  }

  lemma {:induction false} RunsRead(bits: seq<bool>, pos: nat, n: nat, cl: seq<nat>, acc: seq<nat>, runs: seq<Run>, all: seq<nat>, t: seq<bool>)
    requires Usable(cl) && Lengths(cl) && |cl| == 19 && RunsMake(cl, acc, runs, all) && Lengths(acc) && |all| == NumLengths(n)
    requires pos <= |bits| && bits[pos..] == RunsBits(cl, acc, runs, all) + t
    ensures Accepted(cl) && Lengths(all) && |acc| <= |all|
    ensures
      var p := pos + |RunsBits(cl, acc, runs, all)|;
      p <= |bits| && bits[p..] == t && CodeLengths(bits, pos, n, cl, acc) == CodeLengthsRead(p, n, all)
    decreases |runs|
  {
    hide Usable, Accepted, NumLengths, RunBits, Lengthened, CodeLengthsRead, CodeLengths, RunOk, Lengths;
    UsableAccepted(cl);
    if runs == [] {
      assert [] + t == t;
      AllRead(bits, pos, n, cl, all);
    } else {
      var a := Lengthened(acc, runs[0]);
      MakeGrows(cl, a, runs[1..], all);
      assert bits[pos..] == RunBits(cl, acc, runs[0]) + (RunsBits(cl, a, runs[1..], all) + t);
      RunRead(bits, pos, n, cl, acc, runs[0], RunsBits(cl, a, runs[1..], all) + t);
      RunsRead(bits, pos + |RunBits(cl, acc, runs[0])|, n, cl, a, runs[1..], all, t);
    }
  }

  // The order in which the bit lengths are sent.
  const ORDER: seq<nat> := [16, 17, 18, 0, 8, 7, 9, 6, 10, 5, 11, 4, 12, 3, 13, 2, 14, 1, 15]

  lemma OrderIs(i: nat)
    requires i < 19
    ensures |ORDER| == 19 && ORDER[i] == Border()[i] && ORDER[i] < 19
  {
  }

  // The i-th and the following of the first k of them.
  function LengthsSent(cl: seq<nat>, i: nat, k: nat): (r: seq<bool>)
    requires |cl| == 19 && i <= k <= 19
    ensures |r| == 3 * (k - i)
    decreases k - i
  {
    OrderIs(if i < 19 then i else 0);
    if i == k then [] else LsbBits(cl[ORDER[i]], 3) + LengthsSent(cl, i + 1, k)
  }

  // What is known after i of them.
  function Known(cl: seq<nat>, i: nat): (r: seq<nat>)
    requires |cl| == 19
    ensures |r| == 19
  {
    seq(19, s requires 0 <= s < 19 => if InflateBlocks.Place(s) < i then cl[s] else 0)
  }

  lemma KnownNext(cl: seq<nat>, i: nat)
    requires |cl| == 19 && i < 19
    ensures Known(cl, i)[Border()[i] := cl[Border()[i]]] == Known(cl, i + 1)
  {
    hide Border, InflateBlocks.Place;
    BorderPlace(Border()[i]);
    var l, r := Known(cl, i)[Border()[i] := cl[Border()[i]]], Known(cl, i + 1);
    forall s | 0 <= s < 19
      ensures l[s] == r[s]
    {
      BorderPlace(s);
      BorderPlace(i);
    }
  }

  // Lengths that are not sent are zero.
  ghost predicate Sends(cl: seq<nat>, k: nat) {
    |cl| == 19 && 4 <= k <= 19 && (forall s :: 0 <= s < 19 ==> cl[s] < 8) && forall i :: k <= i < 19 ==> cl[ORDER[i]] == 0
  }

  lemma KnownAll(cl: seq<nat>, k: nat)
    requires Sends(cl, k)
    ensures Known(cl, k) == cl && Known(cl, 0) == seq(19, _ => 0)
  {
    var l := Known(cl, k);
    forall s | 0 <= s < 19
      ensures l[s] == cl[s]
    {
      BorderPlace(s);
      OrderIs(InflateBlocks.Place(s));
    }
  }

  lemma {:induction false} SentRead(bits: seq<bool>, pos: nat, n: nat, cl: seq<nat>, i: nat, k: nat, t: seq<bool>)
    requires Sends(cl, k) && k == NumBitLengths(n) && i <= k && pos <= |bits| && bits[pos..] == LengthsSent(cl, i, k) + t
    ensures Lengths(Known(cl, i)) && Lengths(cl)
    ensures
      var p := pos + 3 * (k - i);
      p <= |bits| && bits[p..] == t && BitLengths(bits, pos, n, i, Known(cl, i)) == BitLengthsRead(bits, p, n, cl)
    decreases k - i
  {
    hide NumBitLengths, LsbBits, Lsb, BitLengthsRead, Pow2, Val, Border, ORDER;
    if i == k {
      KnownAll(cl, k);
      assert [] + t == t;
    } else {
      OrderIs(i);
      Powers();
      var x := cl[Border()[i]];
      assert bits[pos..] == LsbBits(x, 3) + (LengthsSent(cl, i + 1, k) + t);
      Number(bits, pos, x, 3, LengthsSent(cl, i + 1, k) + t);
      KnownNext(cl, i);
      SentRead(bits, pos + 3, n, cl, i + 1, k, t);
    }
  }

  // Three numbers side by side.
  lemma {:induction false} ThreeNumbers(bits: seq<bool>, pos: nat, a: nat, b: nat, c: nat, t: seq<bool>)
    requires a < 32 && b < 32 && c < 16 && pos <= |bits| && bits[pos..] == LsbBits(a, 5) + (LsbBits(b, 5) + (LsbBits(c, 4) + t))
    ensures pos + 14 <= |bits| && bits[pos + 14..] == t
    ensures var n := Val(bits, pos, 14); Low(n, 5) == a && Low(Shr(n, 5), 5) == b && Shr(n, 10) == c
  {
    hide Lsb, LsbBits, Pow2, Shl, Shr, Low;
    Powers();
    var x, y, z := LsbBits(a, 5), LsbBits(b, 5), LsbBits(c, 4);
    assert bits[pos..] == (x + (y + z)) + t;
    Next(bits, pos, x + (y + z), t);
    LsbOfLsbBits(a, 5);
    LsbOfLsbBits(b, 5);
    LsbOfLsbBits(c, 4);
    LsbConcat(x, y + z);
    LsbConcat(y, z);
    var n := Val(bits, pos, 14);
    ShrShl(b + Shl(c, 5), a, 5);
    ShrShl(c, b, 5);
    ShrShr(n, 5, 5);
  }

  // The head of a block: how many code lengths there are of each kind, the bit lengths, and the code lengths.
  function HeadBits(cl: seq<nat>, k: nat, runs: seq<Run>, lit: seq<nat>, dist: seq<nat>): seq<bool>
    requires Lengths(cl) && Sends(cl, k) && RunsMake(cl, [], runs, lit + dist) && |lit| >= 257 && |dist| >= 1
  {
    LsbBits(|lit| - 257, 5) + (LsbBits(|dist| - 1, 5) + (LsbBits(k - 4, 4) + (LengthsSent(cl, 0, k) + RunsBits(cl, [], runs, lit + dist))))
  }

  lemma {:induction false} HeadRead(bits: seq<bool>, pos: nat, cl: seq<nat>, k: nat, runs: seq<Run>, lit: seq<nat>, dist: seq<nat>, t: seq<bool>)
    requires Lengths(cl) && Sends(cl, k) && Usable(cl) && RunsMake(cl, [], runs, lit + dist) && SoundCoding(Own(lit, dist))
    requires pos <= |bits| && bits[pos..] == HeadBits(cl, k, runs, lit, dist) + t
    ensures
      var p := pos + |HeadBits(cl, k, runs, lit, dist)|;
      p <= |bits| && bits[p..] == t && Dynamic(bits, pos) == Lens(lit, dist, p)
  {
    hide Usable, Accepted, LsbBits, Lsb, Val, Low, Shr, LengthsSent, RunsBits, Known, BitLengths, BitLengthsRead,
         CodeLengths, CodeLengthsRead, NumBitLengths, NumLengths, NumLit, Sends, RunsMake, ORDER, Lengths, SoundCoding;
    var a, b, c, all := |lit| - 257, |dist| - 1, k - 4, lit + dist;
    Numbers(lit, dist, cl, k);
    var d, e := LengthsSent(cl, 0, k), RunsBits(cl, [], runs, all);
    assert bits[pos..] == LsbBits(a, 5) + (LsbBits(b, 5) + (LsbBits(c, 4) + (d + (e + t))));
    ThreeNumbers(bits, pos, a, b, c, d + (e + t));
    var n := Val(bits, pos, 14);
    Sizes(n, a, b, c);
    KnownAll(cl, k);
    SentRead(bits, pos + 14, n, cl, 0, k, e + t);
    UsableAccepted(cl);
    NoneYet();
    RunsRead(bits, pos + 14 + 3 * k, n, cl, [], runs, all, t);
    BothRead(pos + 14 + 3 * k + |e|, n, lit, dist);
    HeadUnfold(bits, pos, cl, n, pos + 14 + 3 * k);
  }

  lemma NoneYet()
    ensures Lengths([])
  {
  }

  lemma Numbers(lit: seq<nat>, dist: seq<nat>, cl: seq<nat>, k: nat)
    requires SoundCoding(Own(lit, dist)) && Sends(cl, k)
    ensures 257 <= |lit| <= 286 && 1 <= |dist| <= 30 && 4 <= k <= 19 && |cl| == 19
  {
    hide Usable;
  }

  lemma {:induction false} Sizes(n: nat, a: nat, b: nat, c: nat)
    requires Low(n, 5) == a && Low(Shr(n, 5), 5) == b && Shr(n, 10) == c
    ensures NumLit(n) == 257 + a && NumLengths(n) == 258 + a + b && NumBitLengths(n) == 4 + c
  {
    hide Low, Shr;
  }

  lemma BothRead(pos: nat, n: nat, lit: seq<nat>, dist: seq<nat>)
    requires SoundCoding(Own(lit, dist)) && NumLit(n) == |lit| && NumLengths(n) == |lit| + |dist|
    ensures Lengths(lit + dist) && CodeLengthsRead(pos, n, lit + dist) == Lens(lit, dist, pos)
  {
    hide Usable, Accepted, NumLit, NumLengths, Longest;
    UsableAccepted(lit);
    UsableAccepted(dist);
    assert (lit + dist)[..|lit|] == lit && (lit + dist)[|lit|..] == dist;
    CodingLengthsOf(lit, dist);
  }

  lemma {:induction false} CodingLengthsOf(lit: seq<nat>, dist: seq<nat>)
    requires SoundCoding(Own(lit, dist))
    ensures Lengths(lit) && Lengths(dist) && (Usable(dist) || Longest(dist) == 0)
  {
    hide Kraft;
    if forall i :: 0 <= i < |dist| ==> dist[i] == 0 {
      LongestIn(dist);
    }
  }

  lemma {:induction false} HeadUnfold(bits: seq<bool>, pos: nat, cl: seq<nat>, n: nat, p: nat)
    requires pos + 14 <= |bits| && n == Val(bits, pos, 14) && Low(n, 5) <= 29 && Low(Shr(n, 5), 5) <= 29 && p <= |bits|
    requires |cl| == 19 && Lengths(cl) && Accepted(cl) && Lengths([]) && Lengths(seq(19, _ => 0))
    requires BitLengths(bits, pos + 14, n, 0, seq(19, _ => 0)) == BitLengthsRead(bits, p, n, cl)
    ensures Dynamic(bits, pos) == CodeLengths(bits, p, n, cl, [])
  {
    hide BitLengths, Accepted, CodeLengths, Val, Low, Shr, Lengths;
    DynamicUnfold(bits, pos);
  }

  // ----- blocks and streams

  datatype Chunk =
    | RawBlock(bytes: seq<byte>)
    | FixedBlock(items: seq<Item>)
    | OwnBlock(cl: seq<nat>, sent: nat, runs: seq<Run>, lit: seq<nat>, dist: seq<nat>, items: seq<Item>)

  ghost predicate AllWritable(c: Coding, items: seq<Item>) {
    SoundCoding(c) && HasLit(c, 256) && forall i :: 0 <= i < |items| ==> Writable(c, items[i])
  }

  ghost predicate ChunkOk(c: Chunk) {
    match c
    case RawBlock(bytes) => |bytes| <= 65535
    case FixedBlock(items) => AllWritable(Fixed, items)
    case OwnBlock(cl, sent, runs, lit, dist, items) =>
      && Lengths(cl) && Sends(cl, sent) && Usable(cl) && RunsMake(cl, [], runs, lit + dist)
      && |lit| >= 257 && |dist| >= 1 && AllWritable(Own(lit, dist), items)
  }

  function Meaning(out: seq<byte>, c: Chunk): (r: seq<byte>)
    ensures out <= r
  {
    if c.RawBlock? then out + c.bytes else Expanded(out, c.items)
  }

  // How many bits are left of a byte of which n have been used.
  function ToByte(n: nat): (r: nat)
    ensures r < 8 && (n + r) % 8 == 0
  {
    (8 - n % 8) % 8
  }

  // The bits of a block that begins at pos. The bytes of a stored block begin on a byte boundary, after their number and its
  // complement.
  function ChunkBits(c: Chunk, last: bool, pos: nat): seq<bool>
    requires ChunkOk(c)
  {
    match c
    case RawBlock(bytes) =>
      [last, false, false] + (Zeros(ToByte(pos + 3)) + (LsbBits(|bytes|, 16) + (LsbBits(65535 - |bytes|, 16) + Stream(bytes))))
    case FixedBlock(items) => [last, true, false] + ItemsBits(Fixed, items)
    case OwnBlock(cl, sent, runs, lit, dist, items) =>
      [last, false, true] + (HeadBits(cl, sent, runs, lit, dist) + ItemsBits(Own(lit, dist), items))
  }

  lemma KindRead(bits: seq<bool>, pos: nat, last: bool, a: bool, b: bool, t: seq<bool>)
    requires pos <= |bits| && bits[pos..] == [last, a, b] + t
    ensures pos + 3 <= |bits| && bits[pos] == last && bits[pos + 3..] == t
    ensures Val(bits, pos + 1, 2) == Bit(a) + 2 * Bit(b)
  {
    Next(bits, pos, [last, a, b], t);
    assert bits[pos] == bits[pos..][0];
    assert bits[pos + 1..pos + 3] == [a, b];
    assert Lsb([b]) == Bit(b) && [a, b][1..] == [b];
    assert Lsb([a, b]) == Bit(a) + 2 * Lsb([b]);
  }

  lemma {:induction false} BytesCopied(bits: seq<bool>, pos: nat, bytes: seq<byte>, out: seq<byte>, t: seq<bool>)
    requires pos <= |bits| && bits[pos..] == Stream(bytes) + t
    ensures pos + 8 * |bytes| <= |bits| && bits[pos + 8 * |bytes|..] == t
    ensures StoredRest(bits, pos, out, |bytes|) == EndOfBlock(pos + 8 * |bytes|, out + bytes)
    decreases |bytes|
  {
    hide LsbBits, Lsb, Pow2;
    if bytes == [] {
      assert [] + t == t && out + [] == out;
    } else {
      assert bits[pos..] == LsbBits(bytes[0], 8) + (Stream(bytes[1..]) + t);
      Powers();
      Number(bits, pos, bytes[0], 8, Stream(bytes[1..]) + t);
      BytesCopied(bits, pos + 8, bytes[1..], out + [bytes[0]], t);
      assert out + [bytes[0]] + bytes[1..] == out + bytes;
    }
  }

  lemma RawRead(bits: seq<bool>, pos: nat, bytes: seq<byte>, last: bool, out: seq<byte>, t: seq<bool>)
    requires |bytes| <= 65535 && pos <= |bits| && bits[pos..] == ChunkBits(RawBlock(bytes), last, pos) + t
    ensures
      var p := pos + |ChunkBits(RawBlock(bytes), last, pos)|;
      && p <= |bits| && bits[p..] == t && pos < |bits| && bits[pos] == last && WholeBlock(bits, pos, out) == EndOfBlock(p, out + bytes)
  {
    hide LsbBits, Stream, WholeBlock, ToByte, Zeros;
    var z, a, b, s := Zeros(ToByte(pos + 3)), LsbBits(|bytes|, 16), LsbBits(65535 - |bytes|, 16), Stream(bytes);
    var h := [last, false, false];
    assert ChunkBits(RawBlock(bytes), last, pos) == h + (z + (a + (b + s)));
    FiveParts(h, z, a, b, s, t);
    assert bits[pos..] == h + (z + (a + (b + (s + t))));
    RawParts(bits, pos, bytes, last, out, z, a + (b + (s + t)), t);
  }

  lemma {:induction false} RawParts(bits: seq<bool>, pos: nat, bytes: seq<byte>, last: bool, out: seq<byte>, z: seq<bool>, u: seq<bool>, t: seq<bool>)
    requires |bytes| <= 65535 && pos <= |bits| && bits[pos..] == [last, false, false] + (z + u) && |z| == ToByte(pos + 3)
    requires u == LsbBits(|bytes|, 16) + (LsbBits(65535 - |bytes|, 16) + (Stream(bytes) + t))
    ensures |Stream(bytes)| == 8 * |bytes|
    ensures
      var p := pos + 3 + |z| + 32 + 8 * |bytes|;
      && p <= |bits| && bits[p..] == t && pos < |bits| && bits[pos] == last && WholeBlock(bits, pos, out) == EndOfBlock(p, out + bytes)
  {
    hide LsbBits, Lsb, Val, Stream, StoredBlock, NextByte, ToByte, WholeBlock;
    KindRead(bits, pos, last, false, false, z + u);
    Next(bits, pos + 3, z, u);
    SameByte(pos + 3);
    StoredKind(bits, pos, out);
    StoredRead(bits, pos + 3 + |z|, bytes, out, t);
  }

  lemma StoredKind(bits: seq<bool>, pos: nat, out: seq<byte>)
    requires pos + 3 <= |bits| && Val(bits, pos + 1, 2) == 0
    ensures WholeBlock(bits, pos, out) == StoredBlock(bits, NextByte(pos + 3), out)
  {
    hide Val, NextByte, StoredBlock, BlockAt;
  }

  lemma {:induction false} StoredRead(bits: seq<bool>, q: nat, bytes: seq<byte>, out: seq<byte>, t: seq<bool>)
    requires |bytes| <= 65535 && q <= |bits|
    requires bits[q..] == LsbBits(|bytes|, 16) + (LsbBits(65535 - |bytes|, 16) + (Stream(bytes) + t))
    ensures |Stream(bytes)| == 8 * |bytes|
    ensures
      var p := q + 32 + 8 * |bytes|;
      p <= |bits| && bits[p..] == t && StoredBlock(bits, q, out) == EndOfBlock(p, out + bytes)
  {
    hide LsbBits, Lsb, Pow2, Val, Stream, StoredRest;
    var n := |bytes|;
    Powers();
    Number(bits, q, n, 16, LsbBits(65535 - n, 16) + (Stream(bytes) + t));
    Number(bits, q + 16, 65535 - n, 16, Stream(bytes) + t);
    BytesCopied(bits, q + 32, bytes, out, t);
    StreamLength(bytes);
  }

  lemma SameByte(n: nat)
    ensures n + ToByte(n) == NextByte(n)
  {
  }

  lemma StreamLength(bytes: seq<byte>)
    ensures |Stream(bytes)| == 8 * |bytes|
  {
  }

  lemma {:induction false} ShortRead(bits: seq<bool>, pos: nat, items: seq<Item>, last: bool, out: seq<byte>, t: seq<bool>)
    requires AllWritable(Fixed, items) && pos <= |bits| && bits[pos..] == ChunkBits(FixedBlock(items), last, pos) + t
    ensures
      var p := pos + |ChunkBits(FixedBlock(items), last, pos)|;
      && p <= |bits| && bits[p..] == t && pos < |bits| && bits[pos] == last
      && WholeBlock(bits, pos, out) == EndOfBlock(p, Expanded(out, items))
  {
    hide Val, FixedLit, FixedDist, Codes, ItemsBits, Writable;
    var s := ItemsBits(Fixed, items);
    assert bits[pos..] == [last, true, false] + (s + t);
    KindRead(bits, pos, last, true, false, s + t);
    ItemsRead(Fixed, items, bits, pos + 3, out, t);
  }

  lemma {:induction false} LongRead(bits: seq<bool>, pos: nat, c: Chunk, last: bool, out: seq<byte>, t: seq<bool>)
    requires c.OwnBlock? && ChunkOk(c) && pos <= |bits| && bits[pos..] == ChunkBits(c, last, pos) + t
    ensures
      var p := pos + |ChunkBits(c, last, pos)|;
      && p <= |bits| && bits[p..] == t && pos < |bits| && bits[pos] == last
      && WholeBlock(bits, pos, out) == EndOfBlock(p, Expanded(out, c.items))
    ensures HeadAt(bits, pos) == Lens(c.lit, c.dist, pos + 3 + |HeadBits(c.cl, c.sent, c.runs, c.lit, c.dist)|)
  {
    hide Val, Codes, ItemsBits, HeadBits, Writable, Usable, Sends, RunsMake, Dynamic, SoundCoding, HasLit, WholeBlock,
         HeadAt, Expanded;
    var h, s := HeadBits(c.cl, c.sent, c.runs, c.lit, c.dist), ItemsBits(Own(c.lit, c.dist), c.items);
    var k := [last, false, true];
    assert ChunkBits(c, last, pos) == k + (h + s);
    ThreeParts(k, h, s, t);
    assert bits[pos..] == k + (h + (s + t));
    KindRead(bits, pos, last, false, true, h + (s + t));
    HeadRead(bits, pos + 3, c.cl, c.sent, c.runs, c.lit, c.dist, s + t);
    ItemsRead(Own(c.lit, c.dist), c.items, bits, pos + 3 + |h|, out, t);
    OwnKind(bits, pos, c.lit, c.dist, pos + 3 + |h|, out);
  }

  lemma {:induction false} OwnKind(bits: seq<bool>, pos: nat, lit: seq<nat>, dist: seq<nat>, p: nat, out: seq<byte>)
    requires pos + 3 <= |bits| && Val(bits, pos + 1, 2) == 2 && Dynamic(bits, pos + 3) == Lens(lit, dist, p) && p <= |bits|
    ensures HeadAt(bits, pos) == Lens(lit, dist, p) && Lengths(lit) && Lengths(dist)
    ensures WholeBlock(bits, pos, out) == Codes(lit, dist, bits, p, out)
  {
    hide Val, Codes, Dynamic, FixedLit, FixedDist;
  }

  // Every block is decoded to what it was written for.
  lemma ChunkRead(bits: seq<bool>, pos: nat, c: Chunk, last: bool, out: seq<byte>, t: seq<bool>)
    requires ChunkOk(c) && pos <= |bits| && bits[pos..] == ChunkBits(c, last, pos) + t
    ensures
      var p := pos + |ChunkBits(c, last, pos)|;
      && p <= |bits| && bits[p..] == t && pos < |bits| && bits[pos] == last && WholeBlock(bits, pos, out) == EndOfBlock(p, Meaning(out, c))
  {
    hide WholeBlock, Val, HeadBits, ItemsBits, Expanded;
    match c {
      case RawBlock(bytes) => RawRead(bits, pos, bytes, last, out, t);
      case FixedBlock(items) => ShortRead(bits, pos, items, last, out, t);
      case OwnBlock(_, _, _, _, _, _) => LongRead(bits, pos, c, last, out, t);
    }
  }

  // The blocks of a stream, the last of which is marked as such.
  function StreamBits(cs: seq<Chunk>, pos: nat): seq<bool>
    requires forall i :: 0 <= i < |cs| ==> ChunkOk(cs[i])
    decreases |cs|
  {
    if cs == [] then []
    else
      var b := ChunkBits(cs[0], |cs| == 1, pos);
      b + StreamBits(cs[1..], pos + |b|)
  }

  function TotalMeaning(out: seq<byte>, cs: seq<Chunk>): (r: seq<byte>)
    ensures out <= r
    decreases |cs|
  {
    if cs == [] then out else TotalMeaning(Meaning(out, cs[0]), cs[1..])
  }

  lemma {:induction false} StreamRead(bits: seq<bool>, pos: nat, cs: seq<Chunk>, out: seq<byte>, t: seq<bool>)
    requires cs != [] && (forall i :: 0 <= i < |cs| ==> ChunkOk(cs[i])) && pos <= |bits| && bits[pos..] == StreamBits(cs, pos) + t
    ensures Blocks(bits, pos, out) == Done(TotalMeaning(out, cs), pos + |StreamBits(cs, pos)|)
    decreases |cs|
  {
    hide ChunkBits, ChunkOk, Meaning, Blocks, WholeBlock;
    var b := ChunkBits(cs[0], |cs| == 1, pos);
    var rest := StreamBits(cs[1..], pos + |b|);
    assert bits[pos..] == b + (rest + t);
    ChunkRead(bits, pos, cs[0], |cs| == 1, out, rest + t);
    BlockByBlock(bits, pos, out);
    if |cs| == 1 {
      assert StreamBits(cs, pos) == b + [];
    } else {
      StreamRead(bits, pos + |b|, cs[1..], Meaning(out, cs[0]), t);
      AfterMore(bits, EndOfBlock(pos + |b|, Meaning(out, cs[0])));
    }
  }

  // The last byte of a stream is filled up with zeros.
  function Padded(s: seq<bool>): (r: seq<bool>)
    ensures |r| % 8 == 0
  {
    PadIs(|s|);
    s + Zeros(ToByte(|s|))
  }

  lemma PadIs(n: nat)
    ensures (n + ToByte(n)) % 8 == 0
  {
  }

  function Written(cs: seq<Chunk>): seq<byte>
    requires forall i :: 0 <= i < |cs| ==> ChunkOk(cs[i])
  {
    Pack(Padded(StreamBits(cs, 0)))
  }

  // The round trip: whatever has been written, and whatever follows it, is decoded to what was meant.
  lemma {:induction false} RoundTrip(cs: seq<Chunk>, more: seq<byte>)
    requires cs != [] && forall i :: 0 <= i < |cs| ==> ChunkOk(cs[i])
    ensures Inflate(Written(cs) + more) == Done(TotalMeaning([], cs), |StreamBits(cs, 0)|)
  {
    hide StreamBits, Pack, Stream, ChunkOk, Blocks, ToByte;
    var s := StreamBits(cs, 0);
    var z := Zeros(ToByte(|s|));
    StreamOfPack(Padded(s));
    StreamConcat(Pack(Padded(s)), more);
    var bits := Stream(Written(cs) + more);
    assert bits[0..] == s + (z + Stream(more));
    StreamRead(bits, 0, cs, [], z + Stream(more));
  }

  lemma {:induction false} StreamConcat(a: seq<byte>, b: seq<byte>)
    ensures Stream(a + b) == Stream(a) + Stream(b)
  {
    hide LsbBits;
    if a == [] {
      assert a + b == b && Stream(a) + Stream(b) == Stream(b);
    } else {
      StreamConcat(a[1..], b);
      assert (a + b)[1..] == a[1..] + b;
    }
  }

  // ----- what is refused

  // There is no fourth kind of block.
  lemma FourthKind(bits: seq<bool>, pos: nat, last: bool, out: seq<byte>, t: seq<bool>)
    requires pos <= |bits| && bits[pos..] == [last, true, true] + t
    ensures Blocks(bits, pos, out) == Fail(out)
  {
    hide Val, StoredHeader, Compressed, Under, Dynamic, FixedLit, FixedDist;
    KindRead(bits, pos, last, true, true, t);
  }

  // The number of stored bytes must agree with its complement.
  lemma {:induction false} WrongComplement(bits: seq<bool>, pos: nat, last: bool, n: nat, m: nat, out: seq<byte>, z: seq<bool>, t: seq<bool>)
    requires n < 65536 && m < 65536 && n + m != 65535 && |z| == ToByte(pos + 3)
    requires pos <= |bits| && bits[pos..] == [last, false, false] + (z + (LsbBits(n, 16) + (LsbBits(m, 16) + t)))
    ensures Blocks(bits, pos, out) == Fail(out)
  {
    hide Val, LsbBits, Lsb, Pow2, ToByte, NextByte, StoredBytes, Compressed, Under, Dynamic, FixedLit, FixedDist;
    Powers();
    var u := LsbBits(n, 16) + (LsbBits(m, 16) + t);
    KindRead(bits, pos, last, false, false, z + u);
    Next(bits, pos + 3, z, u);
    SameByte(pos + 3);
    Number(bits, pos + 3 + |z|, n, 16, LsbBits(m, 16) + t);
    Number(bits, pos + 3 + |z| + 16, m, 16, t);
  }

  // There are at most 286 literal/length and 30 distance code lengths.
  lemma {:induction false} TooManyCodes(bits: seq<bool>, pos: nat, a: nat, b: nat, c: nat, t: seq<bool>)
    requires a < 32 && b < 32 && c < 16 && (257 + a > 286 || 1 + b > 30)
    requires pos <= |bits| && bits[pos..] == LsbBits(a, 5) + (LsbBits(b, 5) + (LsbBits(c, 4) + t))
    ensures Dynamic(bits, pos) == Refused
  {
    hide Val, LsbBits, Low, Shr, BitLengths;
    ThreeNumbers(bits, pos, a, b, c, t);
    DynamicUnfold(bits, pos);
  }

  // The first length cannot be one that comes again, and no run may go past the end.
  lemma NothingToRepeat(bits: seq<bool>, pos: nat, n: nat, cl: seq<nat>, k: nat, t: seq<bool>)
    requires Usable(cl) && Lengths(cl) && |cl| == 19 && cl[16] > 0 && 3 <= k <= 6
    requires pos <= |bits| && bits[pos..] == Codeword(cl, 16) + (LsbBits(k - 3, 2) + t)
    ensures Accepted(cl) && Lengths([]) && CodeLengths(bits, pos, n, cl, []) == Refused
  {
    hide Usable, Accepted, Codeword, LsbBits, Val, Pow2, RepeatBits, RepeatBase, BitLengthSymbol, CodeLengths, NumLit;
    UsableAccepted(cl);
    NoneYet();
    Powers();
    RepeatNumbers();
    SymbolRead(cl, 16, bits, pos, LsbBits(k - 3, 2) + t);
    Number(bits, pos + cl[16], k - 3, 2, t);
    RepeatUnfold(bits, pos, n, cl, [], 16, cl[16]);
  }

  lemma {:induction false} PastTheEnd(bits: seq<bool>, pos: nat, n: nat, cl: seq<nat>, acc: seq<nat>, r: Run, t: seq<bool>)
    requires Usable(cl) && Lengths(cl) && RunOk(cl, acc, r) && Lengths(acc) && |acc| < NumLengths(n) < |Lengthened(acc, r)| && !r.One?
    requires pos <= |bits| && bits[pos..] == RunBits(cl, acc, r) + t
    ensures Accepted(cl) && CodeLengths(bits, pos, n, cl, acc) == Refused
  {
    hide Usable, Accepted, NumLengths, Codeword, LsbBits, CodeLengths, Pow2, RepeatBits, RepeatBase, Lengthened, Repeat;
    UsableAccepted(cl);
    LengthenedIs(acc, r);
    Powers();
    RepeatNumbers();
    match r {
      case LastAgain(k) => RepeatPast(bits, pos, n, cl, acc, 16, k, 3, 2, t);
      case SomeZeros(k) => RepeatPast(bits, pos, n, cl, acc, 17, k, 3, 3, t);
      case ManyZeros(k) => RepeatPast(bits, pos, n, cl, acc, 18, k, 11, 7, t);
    }
  }

  lemma RepeatPast(bits: seq<bool>, pos: nat, n: nat, cl: seq<nat>, acc: seq<nat>, c: nat, k: nat, base: nat, w: nat, t: seq<bool>)
    requires Usable(cl) && Lengths(cl) && Accepted(cl) && |cl| == 19 && 16 <= c < 19 && cl[c] > 0 && Lengths(acc) && (c == 16 ==> acc != [])
    requires base == RepeatBase(c) && w == RepeatBits(c) && base <= k < base + Pow2(w) && |acc| < NumLengths(n) < |acc| + k
    requires pos <= |bits| && bits[pos..] == Codeword(cl, c) + LsbBits(k - base, w) + t
    ensures CodeLengths(bits, pos, n, cl, acc) == Refused
  {
    hide Usable, Accepted, NumLengths, Codeword, LsbBits, Lsb, Val, Decode, CodeLengths, Pow2, RepeatBits, RepeatBase,
         BitLengthSymbol;
    assert bits[pos..] == Codeword(cl, c) + (LsbBits(k - base, w) + t);
    SymbolRead(cl, c, bits, pos, LsbBits(k - base, w) + t);
    Number(bits, pos + cl[c], k - base, w, t);
    RepeatUnfold(bits, pos, n, cl, acc, c, cl[c]);
  }

  // What the decoder asks of the code lengths of a block.
  ghost predicate Acceptable(lit: seq<nat>, dist: seq<nat>) {
    && Usable(lit) && (Usable(dist) || (|lit| == 257 && Lengths(dist) && forall i :: 0 <= i < |dist| ==> dist[i] == 0))
  }

  lemma LengthsTaken(pos: nat, n: nat, lit: seq<nat>, dist: seq<nat>)
    requires NumLit(n) == |lit| && NumLengths(n) == |lit| + |dist| && Lengths(lit + dist)
    ensures CodeLengthsRead(pos, n, lit + dist) == if Acceptable(lit, dist) then Lens(lit, dist, pos) else Refused
  {
    hide Usable, Accepted, NumLit, NumLengths, Longest;
    UsableAccepted(lit);
    UsableAccepted(dist);
    assert (lit + dist)[..|lit|] == lit && (lit + dist)[|lit|..] == dist;
    assert Lengths(dist) by { forall i | 0 <= i < |dist| ensures dist[i] <= 15 { assert dist[i] == (lit + dist)[|lit| + i]; } }
    NoDistances(dist);
  }

  lemma NoDistances(dist: seq<nat>)
    ensures Longest(dist) == 0 <==> forall i :: 0 <= i < |dist| ==> dist[i] == 0
  {
    hide Longest;
    LengthsCounted(dist);
    LongestIn(dist);
  }

  lemma LengthsRefused(bits: seq<bool>, pos: nat, n: nat, cl: seq<nat>)
    requires pos <= |bits| && |cl| == 19 && Lengths(cl) && !Usable(cl)
    ensures BitLengthsRead(bits, pos, n, cl) == Refused
  {
    hide Usable, Accepted;
    UsableAccepted(cl);
  }

  // Of the fixed codes, the last two symbols and the last two patterns of distances have no meaning.
  lemma {:induction false} UnusedSymbols(bits: seq<bool>, pos: nat, y: nat, out: seq<byte>, t: seq<bool>)
    requires 286 <= y < 288 && pos <= |bits| && bits[pos..] == FixedBits(y) + t
    ensures Lengths(FixedLit()) && Lengths(FixedDist()) && Codes(FixedLit(), FixedDist(), bits, pos, out) == Stopped(Fail(out))
  {
    hide FixedLit, FixedDist, CodeBits, Codeword, FixedBits, Decode;
    DistShape();
    FixedWord(y);
    LitCompleted();
    Next(bits, pos, FixedBits(y), t);
    DecodeListed(FixedLit(), Counts(FixedLit()), 9, y, bits[pos..]);
  }

  lemma {:induction false} UnusedDistances(bits: seq<bool>, pos: nat, d: nat, out: seq<byte>, t: seq<bool>, length: nat)
    requires 30 <= d < 32 && pos <= |bits| && bits[pos..] == CodeBits(d, 5) + t
    ensures Lengths(FixedLit()) && Lengths(FixedDist())
    ensures DistancePart(FixedLit(), FixedDist(), bits, pos, out, length) == Stopped(Fail(out))
  {
    hide FixedLit, FixedDist, CodeBits, Decode, Msb;
    LitShape();
    DistShape();
    DistFirst();
    Powers();
    Next(bits, pos, CodeBits(d, 5), t);
    MsbCodeBits(d, 5);
    DistUnused(CodeBits(d, 5));
    DecodePadded(FixedDist(), Counts(FixedDist())[5 := 32], 5, bits[pos..], CodeBits(d, 5));
  }
}
