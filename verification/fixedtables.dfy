// The decoding tables of blocks with fixed codes (inflate_trees_fixed): the entries of the two constant arrays, and the
// proof that they decode the code of section 3.2.6 of RFC 1951 like tables built from its lengths.

module FixedTables {
  import opened Bits
  import opened Canonical
  import opened HuftTable
  import opened HuftBuild
  import opened Huffman
  import opened Deflate

  const FIXED_BL := 9
  const FIXED_BD := 5

  // Sixteen consecutive entries.
  datatype Row = Row(e0: Entry, e1: Entry, e2: Entry, e3: Entry, e4: Entry, e5: Entry, e6: Entry, e7: Entry,
                     e8: Entry, e9: Entry, e10: Entry, e11: Entry, e12: Entry, e13: Entry, e14: Entry, e15: Entry)
  {
    function At(k: nat): Entry {
      match k
      case 0 => e0 case 1 => e1 case 2 => e2 case 3 => e3 case 4 => e4 case 5 => e5 case 6 => e6 case 7 => e7
      case 8 => e8 case 9 => e9 case 10 => e10 case 11 => e11 case 12 => e12 case 13 => e13 case 14 => e14 case _ => e15
    }
  }

  // Entries 0 to 63 of fixed_tl.
  function LitRows0(r: nat): Row {
    match r
    case 0 => Row(Entry(96, 7, 256), Entry(0, 8, 80), Entry(0, 8, 16), Entry(84, 8, 115), Entry(82, 7, 31), Entry(0, 8, 112), Entry(0, 8, 48), Entry(0, 9, 192),
             Entry(80, 7, 10), Entry(0, 8, 96), Entry(0, 8, 32), Entry(0, 9, 160), Entry(0, 8, 0), Entry(0, 8, 128), Entry(0, 8, 64), Entry(0, 9, 224))
    case 1 => Row(Entry(80, 7, 6), Entry(0, 8, 88), Entry(0, 8, 24), Entry(0, 9, 144), Entry(83, 7, 59), Entry(0, 8, 120), Entry(0, 8, 56), Entry(0, 9, 208),
             Entry(81, 7, 17), Entry(0, 8, 104), Entry(0, 8, 40), Entry(0, 9, 176), Entry(0, 8, 8), Entry(0, 8, 136), Entry(0, 8, 72), Entry(0, 9, 240))
    case 2 => Row(Entry(80, 7, 4), Entry(0, 8, 84), Entry(0, 8, 20), Entry(85, 8, 227), Entry(83, 7, 43), Entry(0, 8, 116), Entry(0, 8, 52), Entry(0, 9, 200),
             Entry(81, 7, 13), Entry(0, 8, 100), Entry(0, 8, 36), Entry(0, 9, 168), Entry(0, 8, 4), Entry(0, 8, 132), Entry(0, 8, 68), Entry(0, 9, 232))
    case _ => Row(Entry(80, 7, 8), Entry(0, 8, 92), Entry(0, 8, 28), Entry(0, 9, 152), Entry(84, 7, 83), Entry(0, 8, 124), Entry(0, 8, 60), Entry(0, 9, 216),
             Entry(82, 7, 23), Entry(0, 8, 108), Entry(0, 8, 44), Entry(0, 9, 184), Entry(0, 8, 12), Entry(0, 8, 140), Entry(0, 8, 76), Entry(0, 9, 248))
  }

  // Entries 64 to 127 of fixed_tl.
  function LitRows1(r: nat): Row {
    match r
    case 4 => Row(Entry(80, 7, 3), Entry(0, 8, 82), Entry(0, 8, 18), Entry(85, 8, 163), Entry(83, 7, 35), Entry(0, 8, 114), Entry(0, 8, 50), Entry(0, 9, 196),
             Entry(81, 7, 11), Entry(0, 8, 98), Entry(0, 8, 34), Entry(0, 9, 164), Entry(0, 8, 2), Entry(0, 8, 130), Entry(0, 8, 66), Entry(0, 9, 228))
    case 5 => Row(Entry(80, 7, 7), Entry(0, 8, 90), Entry(0, 8, 26), Entry(0, 9, 148), Entry(84, 7, 67), Entry(0, 8, 122), Entry(0, 8, 58), Entry(0, 9, 212),
             Entry(82, 7, 19), Entry(0, 8, 106), Entry(0, 8, 42), Entry(0, 9, 180), Entry(0, 8, 10), Entry(0, 8, 138), Entry(0, 8, 74), Entry(0, 9, 244))
    case 6 => Row(Entry(80, 7, 5), Entry(0, 8, 86), Entry(0, 8, 22), Entry(192, 8, 0), Entry(83, 7, 51), Entry(0, 8, 118), Entry(0, 8, 54), Entry(0, 9, 204),
             Entry(81, 7, 15), Entry(0, 8, 102), Entry(0, 8, 38), Entry(0, 9, 172), Entry(0, 8, 6), Entry(0, 8, 134), Entry(0, 8, 70), Entry(0, 9, 236))
    case _ => Row(Entry(80, 7, 9), Entry(0, 8, 94), Entry(0, 8, 30), Entry(0, 9, 156), Entry(84, 7, 99), Entry(0, 8, 126), Entry(0, 8, 62), Entry(0, 9, 220),
             Entry(82, 7, 27), Entry(0, 8, 110), Entry(0, 8, 46), Entry(0, 9, 188), Entry(0, 8, 14), Entry(0, 8, 142), Entry(0, 8, 78), Entry(0, 9, 252))
  }

  // Entries 128 to 191 of fixed_tl.
  function LitRows2(r: nat): Row {
    match r
    case 8 => Row(Entry(96, 7, 256), Entry(0, 8, 81), Entry(0, 8, 17), Entry(85, 8, 131), Entry(82, 7, 31), Entry(0, 8, 113), Entry(0, 8, 49), Entry(0, 9, 194),
             Entry(80, 7, 10), Entry(0, 8, 97), Entry(0, 8, 33), Entry(0, 9, 162), Entry(0, 8, 1), Entry(0, 8, 129), Entry(0, 8, 65), Entry(0, 9, 226))
    case 9 => Row(Entry(80, 7, 6), Entry(0, 8, 89), Entry(0, 8, 25), Entry(0, 9, 146), Entry(83, 7, 59), Entry(0, 8, 121), Entry(0, 8, 57), Entry(0, 9, 210),
             Entry(81, 7, 17), Entry(0, 8, 105), Entry(0, 8, 41), Entry(0, 9, 178), Entry(0, 8, 9), Entry(0, 8, 137), Entry(0, 8, 73), Entry(0, 9, 242))
    case 10 => Row(Entry(80, 7, 4), Entry(0, 8, 85), Entry(0, 8, 21), Entry(80, 8, 258), Entry(83, 7, 43), Entry(0, 8, 117), Entry(0, 8, 53), Entry(0, 9, 202),
             Entry(81, 7, 13), Entry(0, 8, 101), Entry(0, 8, 37), Entry(0, 9, 170), Entry(0, 8, 5), Entry(0, 8, 133), Entry(0, 8, 69), Entry(0, 9, 234))
    case _ => Row(Entry(80, 7, 8), Entry(0, 8, 93), Entry(0, 8, 29), Entry(0, 9, 154), Entry(84, 7, 83), Entry(0, 8, 125), Entry(0, 8, 61), Entry(0, 9, 218),
             Entry(82, 7, 23), Entry(0, 8, 109), Entry(0, 8, 45), Entry(0, 9, 186), Entry(0, 8, 13), Entry(0, 8, 141), Entry(0, 8, 77), Entry(0, 9, 250))
  }

  // Entries 192 to 255 of fixed_tl.
  function LitRows3(r: nat): Row {
    match r
    case 12 => Row(Entry(80, 7, 3), Entry(0, 8, 83), Entry(0, 8, 19), Entry(85, 8, 195), Entry(83, 7, 35), Entry(0, 8, 115), Entry(0, 8, 51), Entry(0, 9, 198),
             Entry(81, 7, 11), Entry(0, 8, 99), Entry(0, 8, 35), Entry(0, 9, 166), Entry(0, 8, 3), Entry(0, 8, 131), Entry(0, 8, 67), Entry(0, 9, 230))
    case 13 => Row(Entry(80, 7, 7), Entry(0, 8, 91), Entry(0, 8, 27), Entry(0, 9, 150), Entry(84, 7, 67), Entry(0, 8, 123), Entry(0, 8, 59), Entry(0, 9, 214),
             Entry(82, 7, 19), Entry(0, 8, 107), Entry(0, 8, 43), Entry(0, 9, 182), Entry(0, 8, 11), Entry(0, 8, 139), Entry(0, 8, 75), Entry(0, 9, 246))
    case 14 => Row(Entry(80, 7, 5), Entry(0, 8, 87), Entry(0, 8, 23), Entry(192, 8, 0), Entry(83, 7, 51), Entry(0, 8, 119), Entry(0, 8, 55), Entry(0, 9, 206),
             Entry(81, 7, 15), Entry(0, 8, 103), Entry(0, 8, 39), Entry(0, 9, 174), Entry(0, 8, 7), Entry(0, 8, 135), Entry(0, 8, 71), Entry(0, 9, 238))
    case _ => Row(Entry(80, 7, 9), Entry(0, 8, 95), Entry(0, 8, 31), Entry(0, 9, 158), Entry(84, 7, 99), Entry(0, 8, 127), Entry(0, 8, 63), Entry(0, 9, 222),
             Entry(82, 7, 27), Entry(0, 8, 111), Entry(0, 8, 47), Entry(0, 9, 190), Entry(0, 8, 15), Entry(0, 8, 143), Entry(0, 8, 79), Entry(0, 9, 254))
  }

  // Entries 256 to 319 of fixed_tl.
  function LitRows4(r: nat): Row {
    match r
    case 16 => Row(Entry(96, 7, 256), Entry(0, 8, 80), Entry(0, 8, 16), Entry(84, 8, 115), Entry(82, 7, 31), Entry(0, 8, 112), Entry(0, 8, 48), Entry(0, 9, 193),
             Entry(80, 7, 10), Entry(0, 8, 96), Entry(0, 8, 32), Entry(0, 9, 161), Entry(0, 8, 0), Entry(0, 8, 128), Entry(0, 8, 64), Entry(0, 9, 225))
    case 17 => Row(Entry(80, 7, 6), Entry(0, 8, 88), Entry(0, 8, 24), Entry(0, 9, 145), Entry(83, 7, 59), Entry(0, 8, 120), Entry(0, 8, 56), Entry(0, 9, 209),
             Entry(81, 7, 17), Entry(0, 8, 104), Entry(0, 8, 40), Entry(0, 9, 177), Entry(0, 8, 8), Entry(0, 8, 136), Entry(0, 8, 72), Entry(0, 9, 241))
    case 18 => Row(Entry(80, 7, 4), Entry(0, 8, 84), Entry(0, 8, 20), Entry(85, 8, 227), Entry(83, 7, 43), Entry(0, 8, 116), Entry(0, 8, 52), Entry(0, 9, 201),
             Entry(81, 7, 13), Entry(0, 8, 100), Entry(0, 8, 36), Entry(0, 9, 169), Entry(0, 8, 4), Entry(0, 8, 132), Entry(0, 8, 68), Entry(0, 9, 233))
    case _ => Row(Entry(80, 7, 8), Entry(0, 8, 92), Entry(0, 8, 28), Entry(0, 9, 153), Entry(84, 7, 83), Entry(0, 8, 124), Entry(0, 8, 60), Entry(0, 9, 217),
             Entry(82, 7, 23), Entry(0, 8, 108), Entry(0, 8, 44), Entry(0, 9, 185), Entry(0, 8, 12), Entry(0, 8, 140), Entry(0, 8, 76), Entry(0, 9, 249))
  }

  // Entries 320 to 383 of fixed_tl.
  function LitRows5(r: nat): Row {
    match r
    case 20 => Row(Entry(80, 7, 3), Entry(0, 8, 82), Entry(0, 8, 18), Entry(85, 8, 163), Entry(83, 7, 35), Entry(0, 8, 114), Entry(0, 8, 50), Entry(0, 9, 197),
             Entry(81, 7, 11), Entry(0, 8, 98), Entry(0, 8, 34), Entry(0, 9, 165), Entry(0, 8, 2), Entry(0, 8, 130), Entry(0, 8, 66), Entry(0, 9, 229))
    case 21 => Row(Entry(80, 7, 7), Entry(0, 8, 90), Entry(0, 8, 26), Entry(0, 9, 149), Entry(84, 7, 67), Entry(0, 8, 122), Entry(0, 8, 58), Entry(0, 9, 213),
             Entry(82, 7, 19), Entry(0, 8, 106), Entry(0, 8, 42), Entry(0, 9, 181), Entry(0, 8, 10), Entry(0, 8, 138), Entry(0, 8, 74), Entry(0, 9, 245))
    case 22 => Row(Entry(80, 7, 5), Entry(0, 8, 86), Entry(0, 8, 22), Entry(192, 8, 0), Entry(83, 7, 51), Entry(0, 8, 118), Entry(0, 8, 54), Entry(0, 9, 205),
             Entry(81, 7, 15), Entry(0, 8, 102), Entry(0, 8, 38), Entry(0, 9, 173), Entry(0, 8, 6), Entry(0, 8, 134), Entry(0, 8, 70), Entry(0, 9, 237))
    case _ => Row(Entry(80, 7, 9), Entry(0, 8, 94), Entry(0, 8, 30), Entry(0, 9, 157), Entry(84, 7, 99), Entry(0, 8, 126), Entry(0, 8, 62), Entry(0, 9, 221),
             Entry(82, 7, 27), Entry(0, 8, 110), Entry(0, 8, 46), Entry(0, 9, 189), Entry(0, 8, 14), Entry(0, 8, 142), Entry(0, 8, 78), Entry(0, 9, 253))
  }

  // Entries 384 to 447 of fixed_tl.
  function LitRows6(r: nat): Row {
    match r
    case 24 => Row(Entry(96, 7, 256), Entry(0, 8, 81), Entry(0, 8, 17), Entry(85, 8, 131), Entry(82, 7, 31), Entry(0, 8, 113), Entry(0, 8, 49), Entry(0, 9, 195),
             Entry(80, 7, 10), Entry(0, 8, 97), Entry(0, 8, 33), Entry(0, 9, 163), Entry(0, 8, 1), Entry(0, 8, 129), Entry(0, 8, 65), Entry(0, 9, 227))
    case 25 => Row(Entry(80, 7, 6), Entry(0, 8, 89), Entry(0, 8, 25), Entry(0, 9, 147), Entry(83, 7, 59), Entry(0, 8, 121), Entry(0, 8, 57), Entry(0, 9, 211),
             Entry(81, 7, 17), Entry(0, 8, 105), Entry(0, 8, 41), Entry(0, 9, 179), Entry(0, 8, 9), Entry(0, 8, 137), Entry(0, 8, 73), Entry(0, 9, 243))
    case 26 => Row(Entry(80, 7, 4), Entry(0, 8, 85), Entry(0, 8, 21), Entry(80, 8, 258), Entry(83, 7, 43), Entry(0, 8, 117), Entry(0, 8, 53), Entry(0, 9, 203),
             Entry(81, 7, 13), Entry(0, 8, 101), Entry(0, 8, 37), Entry(0, 9, 171), Entry(0, 8, 5), Entry(0, 8, 133), Entry(0, 8, 69), Entry(0, 9, 235))
    case _ => Row(Entry(80, 7, 8), Entry(0, 8, 93), Entry(0, 8, 29), Entry(0, 9, 155), Entry(84, 7, 83), Entry(0, 8, 125), Entry(0, 8, 61), Entry(0, 9, 219),
             Entry(82, 7, 23), Entry(0, 8, 109), Entry(0, 8, 45), Entry(0, 9, 187), Entry(0, 8, 13), Entry(0, 8, 141), Entry(0, 8, 77), Entry(0, 9, 251))
  }

  // Entries 448 to 511 of fixed_tl.
  function LitRows7(r: nat): Row {
    match r
    case 28 => Row(Entry(80, 7, 3), Entry(0, 8, 83), Entry(0, 8, 19), Entry(85, 8, 195), Entry(83, 7, 35), Entry(0, 8, 115), Entry(0, 8, 51), Entry(0, 9, 199),
             Entry(81, 7, 11), Entry(0, 8, 99), Entry(0, 8, 35), Entry(0, 9, 167), Entry(0, 8, 3), Entry(0, 8, 131), Entry(0, 8, 67), Entry(0, 9, 231))
    case 29 => Row(Entry(80, 7, 7), Entry(0, 8, 91), Entry(0, 8, 27), Entry(0, 9, 151), Entry(84, 7, 67), Entry(0, 8, 123), Entry(0, 8, 59), Entry(0, 9, 215),
             Entry(82, 7, 19), Entry(0, 8, 107), Entry(0, 8, 43), Entry(0, 9, 183), Entry(0, 8, 11), Entry(0, 8, 139), Entry(0, 8, 75), Entry(0, 9, 247))
    case 30 => Row(Entry(80, 7, 5), Entry(0, 8, 87), Entry(0, 8, 23), Entry(192, 8, 0), Entry(83, 7, 51), Entry(0, 8, 119), Entry(0, 8, 55), Entry(0, 9, 207),
             Entry(81, 7, 15), Entry(0, 8, 103), Entry(0, 8, 39), Entry(0, 9, 175), Entry(0, 8, 7), Entry(0, 8, 135), Entry(0, 8, 71), Entry(0, 9, 239))
    case _ => Row(Entry(80, 7, 9), Entry(0, 8, 95), Entry(0, 8, 31), Entry(0, 9, 159), Entry(84, 7, 99), Entry(0, 8, 127), Entry(0, 8, 63), Entry(0, 9, 223),
             Entry(82, 7, 27), Entry(0, 8, 111), Entry(0, 8, 47), Entry(0, 9, 191), Entry(0, 8, 15), Entry(0, 8, 143), Entry(0, 8, 79), Entry(0, 9, 255))
  }

  function LitRow(r: nat): Row {
    if r < 4 then LitRows0(r)
    else if r < 8 then LitRows1(r)
    else if r < 12 then LitRows2(r)
    else if r < 16 then LitRows3(r)
    else if r < 20 then LitRows4(r)
    else if r < 24 then LitRows5(r)
    else if r < 28 then LitRows6(r)
    else LitRows7(r)
  }

  // fixed_tl
  function FixedTl(): (tab: seq<Entry>)
    ensures |tab| == 512
  {
    seq(512, j requires j >= 0 => LitRow(j / 16).At(j % 16))
  }

  // The entries of fixed_td.
  function DistRow(r: nat): Row {
    if r == 0 then
      Row(Entry(80, 5, 1), Entry(87, 5, 257), Entry(83, 5, 17), Entry(91, 5, 4097), Entry(81, 5, 5), Entry(89, 5, 1025), Entry(85, 5, 65), Entry(93, 5, 16385),
         Entry(80, 5, 3), Entry(88, 5, 513), Entry(84, 5, 33), Entry(92, 5, 8193), Entry(82, 5, 9), Entry(90, 5, 2049), Entry(86, 5, 129), Entry(192, 5, 24577))
    else
      Row(Entry(80, 5, 2), Entry(87, 5, 385), Entry(83, 5, 25), Entry(91, 5, 6145), Entry(81, 5, 7), Entry(89, 5, 1537), Entry(85, 5, 97), Entry(93, 5, 24577),
         Entry(80, 5, 4), Entry(88, 5, 769), Entry(84, 5, 49), Entry(92, 5, 12289), Entry(82, 5, 13), Entry(90, 5, 3073), Entry(86, 5, 193), Entry(192, 5, 24577))
  }

  // fixed_td
  function FixedTd(): (tab: seq<Entry>)
    ensures |tab| == 32
  {
    seq(32, j requires j >= 0 => DistRow(j / 16).At(j % 16))
  }

  // ----- table indices have the first bit lowest, codes have it highest

  function Rev4(k: nat): nat {
    match k
    case 0 => 0 case 1 => 8 case 2 => 4 case 3 => 12 case 4 => 2 case 5 => 10 case 6 => 6 case 7 => 14
    case 8 => 1 case 9 => 9 case 10 => 5 case 11 => 13 case 12 => 3 case 13 => 11 case 14 => 7 case _ => 15
  }

  function Rev5(r: nat): nat {
    16 * (r % 2) + Rev4(r / 2)
  }

  lemma RevBound(r: nat)
    requires r < 32
    ensures Rev5(r) < 32
  {
  }

  lemma Reverse4(u: seq<bool>)
    requires |u| == 4
    ensures Lsb(u) < 16 && Msb(u) == Rev4(Lsb(u))
  {
    var a, b, c, d := u[0], u[1], u[2], u[3];
    assert Lsb(u) == Bit(a) + 2 * Bit(b) + 4 * Bit(c) + 8 * Bit(d) by {
      assert u[1..][1..] == u[2..] && u[2..][1..] == u[3..] && u[3..][1..] == [];
      assert Lsb(u[3..]) == Bit(d) && Lsb(u[2..]) == Bit(c) + 2 * Bit(d);
    }
    assert Msb(u) == 8 * Bit(a) + 4 * Bit(b) + 2 * Bit(c) + Bit(d) by {
      assert u[..3][..2] == u[..2] && u[..2][..1] == u[..1] && u[..1][..0] == [];
      assert Msb(u[..1]) == Bit(a) && Msb(u[..2]) == 2 * Bit(a) + Bit(b);
    }
  }

  lemma {:induction false} MsbConcat(a: seq<bool>, b: seq<bool>)
    ensures Msb(a + b) == Shl(Msb(a), |b|) + Msb(b)
  {
    if b == [] {
      assert a + b == a;
    } else {
      MsbConcat(a, b[..|b| - 1]);
      assert (a + b)[..|a + b| - 1] == a + b[..|b| - 1];
    }
  }

  lemma Reverse5(u: seq<bool>)
    requires |u| == 5
    ensures Lsb(u) < 32 && Msb(u) == Rev5(Lsb(u)) < 32
  {
    hide Rev4, Msb;
    Reverse4(u[1..]);
    assert u == [u[0]] + u[1..];
    MsbConcat([u[0]], u[1..]);
    assert Msb([u[0]]) == Bit(u[0]) by { MsbBit(u[0]); }
    MsbBound(u);
  }

  lemma MsbBit(b: bool)
    ensures Msb([b]) == Bit(b)
  {
    assert [b][..0] == [];
  }

  lemma {:induction false} ShlFour(x: nat)
    ensures Shl(x, 4) == 16 * x && Shl(x, 5) == 32 * x
  {
    assert Shl(x, 1) == 2 * x;
    assert Shl(x, 3) == 2 * Shl(x, 2);
  }

  lemma {:induction false} ShrTwo(x: nat)
    ensures Shr(x, 0) == x && Shr(x, 1) == x / 2 && Shr(x, 2) == x / 4
  {
    assert Shr(x / 2, 1) == x / 2 / 2;
  }

  lemma Reverse9(u: seq<bool>)
    requires |u| == 9
    ensures Lsb(u) < 512 && Msb(u) == 32 * Rev4(Lsb(u) % 16) + Rev5(Lsb(u) / 16)
  {
    hide Rev4, Rev5, Msb, Lsb, Shl;
    var a, b := u[..4], u[4..];
    assert u == a + b;
    Reverse4(a);
    Reverse5(b);
    LsbConcat(a, b);
    MsbConcat(a, b);
    ShlFour(Lsb(b));
    ShlFour(Msb(a));
  }

  // ----- what the entry of a nine-bit pattern has to be

  // The symbol whose code the bits with reading m start with.
  function LitSymbol(m: nat): nat {
    if m < 96 then 256 + m / 4
    else if m < 384 then m / 2 - 48
    else if m < 400 then m / 2 + 88
    else m - 256
  }

  function LitLength(y: nat): nat {
    if y < 144 then 8 else if y < 256 then 9 else if y < 280 then 7 else 8
  }

  // The entry of the seven-bit code i, and of the i-th of the eight-bit codes that are lengths.
  function Short(i: nat): Entry {
    match i
    case 0 => Entry(96, 7, 256) case 1 => Entry(80, 7, 3) case 2 => Entry(80, 7, 4) case 3 => Entry(80, 7, 5) case 4 => Entry(80, 7, 6)
    case 5 => Entry(80, 7, 7) case 6 => Entry(80, 7, 8) case 7 => Entry(80, 7, 9) case 8 => Entry(80, 7, 10) case 9 => Entry(81, 7, 11)
    case 10 => Entry(81, 7, 13) case 11 => Entry(81, 7, 15) case 12 => Entry(81, 7, 17) case 13 => Entry(82, 7, 19) case 14 => Entry(82, 7, 23)
    case 15 => Entry(82, 7, 27) case 16 => Entry(82, 7, 31) case 17 => Entry(83, 7, 35) case 18 => Entry(83, 7, 43) case 19 => Entry(83, 7, 51)
    case 20 => Entry(83, 7, 59) case 21 => Entry(84, 7, 67) case 22 => Entry(84, 7, 83) case _ => Entry(84, 7, 99)
  }

  function Long(i: nat): Entry {
    match i
    case 0 => Entry(84, 8, 115) case 1 => Entry(85, 8, 131) case 2 => Entry(85, 8, 163) case 3 => Entry(85, 8, 195)
    case 4 => Entry(85, 8, 227) case 5 => Entry(80, 8, 258) case _ => Entry(192, 8, 0)
  }

  function FixedEntry(m: nat): Entry {
    if m < 96 then Short(m / 4)
    else if m < 384 then Entry(0, 8, m / 2 - 48)
    else if m < 400 then Long(m / 2 - 192)
    else Entry(0, 9, m - 256)
  }

  // The entries of a row, whose indices end in the same five bits; x is the reading of these.
  predicate RowFor(x: nat, w: Row) {
    && w.e0 == Short(x / 4) && w.e8 == Short(8 + x / 4) && w.e4 == Short(16 + x / 4)
    && w.e12 == Entry(0, 8, x / 2) && w.e2 == Entry(0, 8, 16 + x / 2) && w.e10 == Entry(0, 8, 32 + x / 2) && w.e6 == Entry(0, 8, 48 + x / 2)
    && w.e14 == Entry(0, 8, 64 + x / 2) && w.e1 == Entry(0, 8, 80 + x / 2) && w.e9 == Entry(0, 8, 96 + x / 2) && w.e5 == Entry(0, 8, 112 + x / 2)
    && w.e13 == Entry(0, 8, 128 + x / 2) && w.e3 == (if x < 16 then Long(x / 2) else Entry(0, 9, 128 + x))
    && w.e11 == Entry(0, 9, 160 + x) && w.e7 == Entry(0, 9, 192 + x) && w.e15 == Entry(0, 9, 224 + x)
  }

  lemma RowAt(w: Row, x: nat, k: nat)
    requires RowFor(x, w) && x < 32 && k < 16
    ensures w.At(k) == FixedEntry(32 * Rev4(k) + x)
  {
    hide Short, Long;
  }

  lemma RowsRight0()
    ensures RowFor(0, LitRows0(0)) && RowFor(16, LitRows0(1)) && RowFor(8, LitRows0(2)) && RowFor(24, LitRows0(3))
  {
  }

  lemma RowsRight1()
    ensures RowFor(4, LitRows1(4)) && RowFor(20, LitRows1(5)) && RowFor(12, LitRows1(6)) && RowFor(28, LitRows1(7))
  {
  }

  lemma RowsRight2()
    ensures RowFor(2, LitRows2(8)) && RowFor(18, LitRows2(9)) && RowFor(10, LitRows2(10)) && RowFor(26, LitRows2(11))
  {
  }

  lemma RowsRight3()
    ensures RowFor(6, LitRows3(12)) && RowFor(22, LitRows3(13)) && RowFor(14, LitRows3(14)) && RowFor(30, LitRows3(15))
  {
  }

  lemma RowsRight4()
    ensures RowFor(1, LitRows4(16)) && RowFor(17, LitRows4(17)) && RowFor(9, LitRows4(18)) && RowFor(25, LitRows4(19))
  {
  }

  lemma RowsRight5()
    ensures RowFor(5, LitRows5(20)) && RowFor(21, LitRows5(21)) && RowFor(13, LitRows5(22)) && RowFor(29, LitRows5(23))
  {
  }

  lemma RowsRight6()
    ensures RowFor(3, LitRows6(24)) && RowFor(19, LitRows6(25)) && RowFor(11, LitRows6(26)) && RowFor(27, LitRows6(27))
  {
  }

  lemma RowsRight7()
    ensures RowFor(7, LitRows7(28)) && RowFor(23, LitRows7(29)) && RowFor(15, LitRows7(30)) && RowFor(31, LitRows7(31))
  {
  }

  lemma LitRowsRight(r: nat)
    requires r < 32
    ensures RowFor(Rev5(r), LitRow(r))
  {
    hide RowFor;
    hide LitRows0;
    hide LitRows1;
    hide LitRows2;
    hide LitRows3;
    hide LitRows4;
    hide LitRows5;
    hide LitRows6;
    hide LitRows7;
    RowsRight0();
    RowsRight1();
    RowsRight2();
    RowsRight3();
    RowsRight4();
    RowsRight5();
    RowsRight6();
    RowsRight7();
  }

  lemma LitRowRight(r: nat, k: nat)
    requires r < 32 && k < 16
    ensures LitRow(r).At(k) == FixedEntry(32 * Rev4(k) + Rev5(r))
  {
    hide FixedEntry, Rev4, Rev5, LitRow, Row.At;
    LitRowsRight(r);
    RevBound(r);
    RowAt(LitRow(r), Rev5(r), k);
  }

  lemma ShortOp(i: nat)
    requires 1 <= i < 24
    ensures OpOf(256 + i, 257, LengthBase(), LengthExtra()) == Op(Short(i).exop, Short(i).base) && Short(i).bits == 7
  {
  }

  lemma LongOp(i: nat)
    requires i < 8
    ensures OpOf(280 + i, 257, LengthBase(), LengthExtra()) == Op(Long(i).exop, Long(i).base) && Long(i).bits == 8
  {
  }

  lemma FixedEntryOp(m: nat)
    requires m < 512
    ensures LitSymbol(m) < 288 && FixedEntry(m).bits == LitLength(LitSymbol(m))
    ensures OpOf(LitSymbol(m), 257, LengthBase(), LengthExtra()) == Op(FixedEntry(m).exop, FixedEntry(m).base)
  {
    hide Short, Long, LengthBase, LengthExtra;
    if 4 <= m < 96 {
      ShortOp(m / 4);
    } else if 384 <= m < 400 {
      LongOp(m / 2 - 192);
    } else if m < 4 {
      assert Short(0) == Entry(96, 7, 256) by { ShortZero(); }
    }
  }

  lemma ShortZero()
    ensures Short(0) == Entry(96, 7, 256)
  {
  }

  // ----- the code of the fixed lengths

  function LitRank(i: nat, k: nat): nat {
    match k
    case 7 => Max(0, Min(i, 280) - 256)
    case 8 => Min(i, 144) + Max(0, i - 280)
    case 9 => Max(0, Min(i, 256) - 144)
    case _ => 0
  }

  lemma {:induction false} LitCount(i: nat, k: nat)
    requires i <= 288
    ensures Count(FixedLit()[..i], k) == LitRank(i, k)
  {
    if i > 0 {
      LitCount(i - 1, k);
      var b := FixedLit()[..i];
      assert b[..|b| - 1] == FixedLit()[..i - 1];
    }
  }

  lemma LitLengths(y: nat)
    requires y < 288
    ensures FixedLit()[y] == LitLength(y)
  {
  }

  lemma LitFirsts()
    ensures Lengths(FixedLit())
    ensures
      var c := Counts(FixedLit());
      && (forall k :: 0 <= k <= BMAX ==> c[k] == LitRank(288, k))
      && First(c, 7) == 0 && First(c, 8) == 48 && First(c, 9) == 400 && End(c, 9) == 512
  {
    hide Count, FixedLit;
    assert Lengths(FixedLit()) && |FixedLit()| == 288 by { LitShape(); }
    var c := Counts(FixedLit());
    forall k | 0 <= k <= BMAX
      ensures c[k] == LitRank(288, k)
    {
      LitCount(288, k);
      assert FixedLit()[..288] == FixedLit();
    }
    EndOfNothing(c, 6);
  }

  lemma LitShape()
    ensures Lengths(FixedLit()) && |FixedLit()| == 288
  {
  }

  // The pattern u starts with the code of its symbol.
  lemma LitCodeword(u: seq<bool>)
    requires |u| == 9
    ensures Lengths(FixedLit()) && LitSymbol(Msb(u)) < |FixedLit()|
    ensures Codeword(FixedLit(), LitSymbol(Msb(u))) <= u
  {
    hide Count, Msb, FixedLit, First, End, CodeBits;
    LitShape();
    LitFirsts();
    var m := Msb(u);
    assert m < 512 by { MsbBound(u); }
    var y := LitSymbol(m);
    var n := LitLength(y);
    LitLengths(y);
    LitCount(y, n);
    MsbPrefix(u, n);
    ShrTwo(m);
    assert Shr(m, 9 - n) == First(Counts(FixedLit()), n) + Rank(FixedLit(), y);
    CodeBitsMsb(u[..n]);
  }

  lemma Pow2Nine()
    ensures Pow2(9) == 512 && Pow2(5) == 32
  {
  }

  lemma LitCompleted()
    ensures Completed(FixedLit(), Counts(FixedLit()), 9)
  {
    hide Count, FixedLit, End, First;
    LitFirsts();
    Pow2Nine();
  }

  // ----- tables without links

  // A pattern as long as the longest code decides what the bits decode to, however few of them there are.
  lemma DecodePadded(b: seq<nat>, cnt: seq<nat>, g: nat, t: seq<bool>, u: seq<bool>)
    requires Completed(b, cnt, g) && u == (t + Zeros(g))[..g]
    ensures Decode(b, u).Symbol? ==>
      if Decode(b, u).used <= |t| then Decode(b, t) == Decode(b, u) else !Decode(b, t).Symbol?
    ensures Decode(b, u).Invalid? ==> if g <= |t| then Decode(b, t).Invalid? else !Decode(b, t).Symbol?
  {
    hide Codeword, Completed, Zeros;
    assert Lengths(b) && forall s :: 0 <= s < |b| ==> b[s] <= g by { CompletedLengths(b, cnt, g); }
    assert |t| >= g ==> u == t[..g];
    var y, r := FindSymbol(b, u, 0), FindSymbol(b, t, 0);
    if r < |b| {
      var c := Codeword(b, r);
      assert c == t[..|c|] == u[..|c|];
      DecodeListed(b, cnt, g, r, u);
    }
    if y < |b| && b[y] <= |t| {
      var c := Codeword(b, y);
      assert c == u[..|c|] == t[..|c|];
      DecodeListed(b, cnt, g, y, t);
    }
    if |t| >= g && Extends(b, t) {
      assert u == t;
    }
  }

  lemma CompletedLengths(b: seq<nat>, cnt: seq<nat>, g: nat)
    requires Completed(b, cnt, g)
    ensures Lengths(b) && forall s :: 0 <= s < |b| ==> b[s] <= g
  {
    hide Count, End, Pow2;
    forall s | 0 <= s < |b|
      ensures b[s] <= g
    {
      if b[s] > g {
        CountWitness(b, b[s]);
      }
    }
  }

  // The entry of the pattern u says what u decodes to.
  ghost predicate EntryFor(en: Entry, u: seq<bool>, b: seq<nat>, s: nat, d: seq<nat>, e: seq<nat>, stale: Op)
    requires Lengths(b)
  {
    && !IsLink(en) && 0 < en.bits <= |u|
    && SameOutcome(Leaf(en, en.bits), Decode(b, u), b, s, d, e, stale)
  }

  lemma {:induction false} FlatWalk(tab: seq<Entry>, b: seq<nat>, cnt: seq<nat>, g: nat, s: nat, d: seq<nat>, e: seq<nat>, stale: Op, t: seq<bool>)
    requires Completed(b, cnt, g) && g == Longest(b)
    requires forall u :: |u| == g ==> Lsb(u) < |tab| && EntryFor(tab[Lsb(u)], u, b, s, d, e, stale)
    ensures SameOutcome(Walk(tab, 0, g, t), Decode(b, t), b, s, d, e, stale)
    ensures Shallow(tab, 0, g, t, BMAX, g) && DirectAt(tab, Lsb(Take(t, g)))
  {
    hide Decode, Lsb, Matches, OpOf, Longest, IsLink, Zeros, Completed, EntryFor, SameOutcome, Walk, Shallow, Take;
    var u := (t + Zeros(g))[..g];
    DecodePadded(b, cnt, g, t, u);
    TakePadded(t, g, g);
    assert g <= BMAX by { CompletedEnd(b, cnt, g); }
    assert Lengths(b) by { CompletedLengths(b, cnt, g); }
    var en := tab[Lsb(u)];
    assert EntryFor(en, u, b, s, d, e, stale);
    FinalEntry(tab, g, t, u, b, s, d, e, stale);
    EntryOutcome(en, t, u, b, g, s, d, e, stale);
  }

  // A final entry ends the walk.
  lemma {:induction false} FinalEntry(tab: seq<Entry>, g: nat, t: seq<bool>, u: seq<bool>, b: seq<nat>, s: nat, d: seq<nat>, e: seq<nat>, stale: Op)
    requires |u| == g <= BMAX && Lsb(Take(t, g)) == Lsb(u) < |tab| && Lengths(b) && EntryFor(tab[Lsb(u)], u, b, s, d, e, stale)
    ensures Walk(tab, 0, g, t) == if tab[Lsb(u)].bits > |t| then WalkResult.Short else Leaf(tab[Lsb(u)], tab[Lsb(u)].bits)
    ensures Shallow(tab, 0, g, t, BMAX, g) && DirectAt(tab, Lsb(Take(t, g)))
  {
    hide Decode, Lsb, IsLink, SameOutcome, Take, Lengths;
  }

  lemma {:induction false} EntryOutcome(en: Entry, t: seq<bool>, u: seq<bool>, b: seq<nat>, g: nat, s: nat, d: seq<nat>, e: seq<nat>, stale: Op)
    requires Lengths(b) && |u| == g == Longest(b) && EntryFor(en, u, b, s, d, e, stale)
    requires Decode(b, u).Symbol? ==>
      if Decode(b, u).used <= |t| then Decode(b, t) == Decode(b, u) else !Decode(b, t).Symbol?
    requires Decode(b, u).Invalid? ==> if g <= |t| then Decode(b, t).Invalid? else !Decode(b, t).Symbol?
    ensures SameOutcome(if en.bits > |t| then WalkResult.Short else Leaf(en, en.bits), Decode(b, t), b, s, d, e, stale)
  {
    hide Decode, Matches, OpOf, Longest, IsLink, Lengths;
  }


  lemma {:induction false} FlatTables(tab: seq<Entry>, b: seq<nat>, cnt: seq<nat>, g: nat, s: nat, d: seq<nat>, e: seq<nat>)
    requires Completed(b, cnt, g) && g == Longest(b)
    requires forall u :: |u| == g ==> Lsb(u) < |tab| && EntryFor(tab[Lsb(u)], u, b, s, d, e, StaleOf(b, s, d, e, g))
    ensures TablesFor(tab, 0, g, b, s, d, e)
  {
    hide Decode, Lsb, EntryFor, Longest, Completed, Walk, Shallow, SameOutcome, StaleOf, DirectAt;
    CompletedLengths(b, cnt, g);
    forall t
      ensures SameOutcome(Walk(tab, 0, g, t), Decode(b, t), b, s, d, e, StaleOf(b, s, d, e, g))
      ensures Shallow(tab, 0, g, t, BMAX, g) && DirectAt(tab, 0 + Lsb(Take(t, g)))
    {
      FlatWalk(tab, b, cnt, g, s, d, e, StaleOf(b, s, d, e, g), t);
    }
  }

  // ----- the literal/length table

  lemma LitTableEntry(u: seq<bool>)
    requires |u| == 9
    ensures Lsb(u) < 512 && Lengths(FixedLit())
    ensures EntryFor(FixedTl()[Lsb(u)], u, FixedLit(), 257, LengthBase(), LengthExtra(),
                     StaleOf(FixedLit(), 257, LengthBase(), LengthExtra(), 9))
  {
    hide Decode, Lsb, Msb, StaleOf, FixedLit, LitRow, Rev4, Rev5, FixedEntry, LitSymbol, LitLength, LengthBase,
         LengthExtra, Codeword, OpOf, Completed, Shr;
    Reverse9(u);
    assert Msb(u) < 512 by { MsbBound(u); Pow2Nine(); }
    var m, x := Msb(u), Lsb(u);
    LitRowRight(x / 16, x % 16);
    assert FixedTl()[x] == FixedEntry(m);
    FixedEntryOp(m);
    LitShape();
    LitCodeword(u);
    LitLengths(LitSymbol(m));
    LitCompleted();
    LitLengthPositive(LitSymbol(m));
    DecodeListed(FixedLit(), Counts(FixedLit()), 9, LitSymbol(m), u);
    FixedNotLink(m);
  }

  lemma LitLengthPositive(y: nat)
    ensures 0 < LitLength(y) <= 9
  {
  }

  lemma FixedNotLink(m: nat)
    requires m < 512
    ensures !IsLink(FixedEntry(m))
  {
    hide Shr, LengthBase, LengthExtra;
    FixedEntryOp(m);
    var y := LitSymbol(m);
    ExtraRange();
    OpNotLink(y, 257, LengthBase(), LengthExtra(), FixedEntry(m));
  }

  lemma ExtraRange()
    ensures forall i :: 0 <= i < 31 ==> LengthExtra()[i] < 16 || LengthExtra()[i] == INVALID_EXTRA
    ensures forall i :: 0 <= i < 30 ==> DistExtra()[i] < 16
  {
  }

  lemma FixedLitTables()
    ensures Lengths(FixedLit())
    ensures TablesFor(FixedTl(), 0, FIXED_BL, FixedLit(), 257, LengthBase(), LengthExtra())
  {
    hide FixedLit, FixedTl, StaleOf, EntryFor, TablesFor, Lsb, Completed, LengthBase, LengthExtra, Longest, Count;
    LitCompleted();
    LitShape();
    assert Longest(FixedLit()) == 9 by { LitLongest(); }
    forall u: seq<bool> | |u| == 9
      ensures Lsb(u) < 512 && EntryFor(FixedTl()[Lsb(u)], u, FixedLit(), 257, LengthBase(), LengthExtra(),
                                       StaleOf(FixedLit(), 257, LengthBase(), LengthExtra(), 9))
    {
      LitTableEntry(u);
    }
    FlatTables(FixedTl(), FixedLit(), Counts(FixedLit()), 9, 257, LengthBase(), LengthExtra());
  }

  lemma LitLongest()
    ensures Longest(FixedLit()) == 9
  {
    hide FixedLit, Count, Longest, End, First;
    LitFirsts();
    LongestBound(FixedLit());
    LengthsCounted(FixedLit());
    var g := Longest(FixedLit());
    assert Counts(FixedLit())[9] > 0;
    assert Count(FixedLit(), g) == Counts(FixedLit())[g];
  }

  // ----- the distance table

  // The entry of the five-bit pattern with reading m.
  function DistEntryOf(m: nat): Entry {
    match m
    case 0 => Entry(80, 5, 1) case 1 => Entry(80, 5, 2) case 2 => Entry(80, 5, 3) case 3 => Entry(80, 5, 4)
    case 4 => Entry(81, 5, 5) case 5 => Entry(81, 5, 7) case 6 => Entry(82, 5, 9) case 7 => Entry(82, 5, 13)
    case 8 => Entry(83, 5, 17) case 9 => Entry(83, 5, 25) case 10 => Entry(84, 5, 33) case 11 => Entry(84, 5, 49)
    case 12 => Entry(85, 5, 65) case 13 => Entry(85, 5, 97) case 14 => Entry(86, 5, 129) case 15 => Entry(86, 5, 193)
    case 16 => Entry(87, 5, 257) case 17 => Entry(87, 5, 385) case 18 => Entry(88, 5, 513) case 19 => Entry(88, 5, 769)
    case 20 => Entry(89, 5, 1025) case 21 => Entry(89, 5, 1537) case 22 => Entry(90, 5, 2049) case 23 => Entry(90, 5, 3073)
    case 24 => Entry(91, 5, 4097) case 25 => Entry(91, 5, 6145) case 26 => Entry(92, 5, 8193) case 27 => Entry(92, 5, 12289)
    case 28 => Entry(93, 5, 16385) case 29 => Entry(93, 5, 24577) case _ => Entry(192, 5, 24577)
  }

  lemma DistRow0Right()
    ensures DistRow(0).e0 == DistEntryOf(0) && DistRow(0).e1 == DistEntryOf(16) && DistRow(0).e2 == DistEntryOf(8) && DistRow(0).e3 == DistEntryOf(24)
    ensures DistRow(0).e4 == DistEntryOf(4) && DistRow(0).e5 == DistEntryOf(20) && DistRow(0).e6 == DistEntryOf(12) && DistRow(0).e7 == DistEntryOf(28)
    ensures DistRow(0).e8 == DistEntryOf(2) && DistRow(0).e9 == DistEntryOf(18) && DistRow(0).e10 == DistEntryOf(10) && DistRow(0).e11 == DistEntryOf(26)
    ensures DistRow(0).e12 == DistEntryOf(6) && DistRow(0).e13 == DistEntryOf(22) && DistRow(0).e14 == DistEntryOf(14) && DistRow(0).e15 == DistEntryOf(30)
  {
  }

  lemma DistRow1Right()
    ensures DistRow(1).e0 == DistEntryOf(1) && DistRow(1).e1 == DistEntryOf(17) && DistRow(1).e2 == DistEntryOf(9) && DistRow(1).e3 == DistEntryOf(25)
    ensures DistRow(1).e4 == DistEntryOf(5) && DistRow(1).e5 == DistEntryOf(21) && DistRow(1).e6 == DistEntryOf(13) && DistRow(1).e7 == DistEntryOf(29)
    ensures DistRow(1).e8 == DistEntryOf(3) && DistRow(1).e9 == DistEntryOf(19) && DistRow(1).e10 == DistEntryOf(11) && DistRow(1).e11 == DistEntryOf(27)
    ensures DistRow(1).e12 == DistEntryOf(7) && DistRow(1).e13 == DistEntryOf(23) && DistRow(1).e14 == DistEntryOf(15) && DistRow(1).e15 == DistEntryOf(31)
  {
  }

  lemma DistRowAt(x: nat, k: nat)
    requires x < 2 && k < 16
    ensures DistRow(x).At(k) == DistEntryOf(2 * Rev4(k) + x)
  {
    hide DistEntryOf, DistRow;
    if x == 0 {
      DistRow0Right();
    } else {
      DistRow1Right();
    }
  }

  lemma DistOp(m: nat)
    requires m < 30
    ensures OpOf(m, 0, DistBase(), DistExtra()) == Op(DistEntryOf(m).exop, DistEntryOf(m).base) && DistEntryOf(m).bits == 5
  {
  }

  lemma DistRowRight(u: seq<bool>)
    requires |u| == 5
    ensures Lsb(u) < 32 && FixedTd()[Lsb(u)] == DistEntryOf(Msb(u))
  {
    hide Rev4, Msb, Lsb, DistEntryOf, DistRow, Row.At;
    Reverse4(u[..4]);
    assert u == u[..4] + [u[4]];
    LsbConcat(u[..4], [u[4]]);
    assert Lsb(u) == Lsb(u[..4]) + 16 * Bit(u[4]) by { SixteenBit(u[4]); }
    assert Msb(u) == 2 * Msb(u[..4]) + Bit(u[4]) by { MsbLast(u); }
    DistRowAt(Bit(u[4]), Lsb(u[..4]));
  }

  lemma SixteenBit(b: bool)
    ensures Shl(Lsb([b]), 4) == 16 * Bit(b)
  {
    assert [b][1..] == [];
  }

  lemma MsbLast(u: seq<bool>)
    requires u != []
    ensures Msb(u) == 2 * Msb(u[..|u| - 1]) + Bit(u[|u| - 1])
  {
  }

  lemma DistShape()
    ensures Lengths(FixedDist()) && |FixedDist()| == 30
    ensures forall y :: 0 <= y < 30 ==> FixedDist()[y] == 5
  {
  }

  lemma {:induction false} DistCount(i: nat, k: nat)
    requires i <= 30
    ensures Count(FixedDist()[..i], k) == if k == 5 then i else 0
  {
    if i > 0 {
      DistCount(i - 1, k);
      var b := FixedDist()[..i];
      assert b[..|b| - 1] == FixedDist()[..i - 1];
    }
  }

  lemma DistFirst()
    ensures Lengths(FixedDist())
    ensures
      var c := Counts(FixedDist());
      && (forall k :: 0 <= k <= BMAX ==> c[k] == if k == 5 then 30 else 0)
      && First(c, 5) == 0 && Completed(FixedDist(), c[5 := 32], 5)
  {
    hide Count, FixedDist;
    DistShape();
    var c := Counts(FixedDist());
    forall k | 0 <= k <= BMAX
      ensures c[k] == if k == 5 then 30 else 0
    {
      DistCount(30, k);
      assert FixedDist()[..30] == FixedDist();
    }
    EndOfNothing(c, 4);
    EndOfNothing(c[5 := 32], 4);
    Pow2Nine();
  }

  lemma {:induction false} DistCodeword(y: nat)
    requires y < 30
    ensures Lengths(FixedDist()) && |FixedDist()| == 30 && Codeword(FixedDist(), y) == CodeBits(y, 5)
  {
    hide Count, FixedDist, First, CodeBits;
    DistShape();
    DistFirst();
    DistCount(y, 5);
  }

  lemma {:induction false} DistUnused(u: seq<bool>)
    requires |u| == 5 && Msb(u) >= 30
    ensures Lengths(FixedDist()) && Decode(FixedDist(), u) == Invalid
  {
    hide FixedDist, Codeword, CodeBits, Msb;
    DistShape();
    forall y | 0 <= y < 30
      ensures Codeword(FixedDist(), y) != u
    {
      DistCodeword(y);
      Pow2Nine();
      MsbCodeBits(y, 5);
    }
  }

  lemma DistLongest()
    ensures Longest(FixedDist()) == 5 && Count(FixedDist(), 5) == 30
    ensures Count(FixedDist(), 5) > 0 ==> LastSymbol(FixedDist(), 5) == 29
  {
    hide FixedDist, Count, Longest, First;
    DistShape();
    DistFirst();
    LongestBound(FixedDist());
    LengthsCounted(FixedDist());
    var g := Longest(FixedDist());
    assert Counts(FixedDist())[5] > 0;
    assert Count(FixedDist(), g) == Counts(FixedDist())[g];
  }

  lemma DistTableEntry(u: seq<bool>)
    requires |u| == 5
    ensures Lsb(u) < 32 && Lengths(FixedDist())
    ensures EntryFor(FixedTd()[Lsb(u)], u, FixedDist(), 0, DistBase(), DistExtra(),
                     StaleOf(FixedDist(), 0, DistBase(), DistExtra(), 5))
  {
    hide Decode, Lsb, Msb, FixedDist, FixedTd, DistBase, DistExtra, Codeword, Completed, CodeBits, Shr, Longest, Count,
         LastSymbol, DistEntryOf, First;
    var m := Msb(u);
    assert m < 32 by { MsbBound(u); Pow2Nine(); }
    DistRowRight(u);
    DistShape();
    DistLongest();
    if m < 30 {
      DistOp(m);
      ExtraRange();
      DistCodeword(m);
      CodeBitsMsb(u);
      DistFirst();
      DecodeListed(FixedDist(), Counts(FixedDist())[5 := 32], 5, m, u);
      OpNotLink(m, 0, DistBase(), DistExtra(), DistEntryOf(m));
    } else {
      DistUnused(u);
      assert DistBase()[29] == 24577 && DistEntryOf(m) == Entry(192, 5, 24577) by { LastDistance(m); }
      InvalidNotLink(DistEntryOf(m));
    }
  }

  lemma LastDistance(m: nat)
    requires m >= 30
    ensures DistBase()[29] == 24577 && DistEntryOf(m) == Entry(192, 5, 24577)
  {
  }

  lemma FixedDistTables()
    ensures Lengths(FixedDist())
    ensures TablesFor(FixedTd(), 0, FIXED_BD, FixedDist(), 0, DistBase(), DistExtra())
  {
    hide FixedDist, FixedTd, StaleOf, EntryFor, TablesFor, Lsb, Completed, DistBase, DistExtra, Longest, Count, First;
    DistFirst();
    DistLongest();
    forall u: seq<bool> | |u| == 5
      ensures Lsb(u) < 32 && EntryFor(FixedTd()[Lsb(u)], u, FixedDist(), 0, DistBase(), DistExtra(),
                                      StaleOf(FixedDist(), 0, DistBase(), DistExtra(), 5))
    {
      DistTableEntry(u);
    }
    FlatTables(FixedTd(), FixedDist(), Counts(FixedDist())[5 := 32], 5, 0, DistBase(), DistExtra());
  }
}
