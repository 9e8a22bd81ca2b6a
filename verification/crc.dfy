// CRC-32 with a table, eight bytes at a time (ucrc32), against the bitwise definition of section 8 of RFC 1952: the
// remainder of a polynomial division, one bit after the other, in reflected form.

module Crc {
  import opened Bits

  const POLYNOMIAL: bv32 := 0xedb88320

  // The operations on registers, by name.
  function Xor(a: bv32, b: bv32): bv32 {
    a ^ b
  }

  function LowByte(c: bv32): bv32 {
    c & 0xff
  }

  function HighBytes(c: bv32): bv32 {
    c >> 8
  }

  function Flip(c: bv32): bv32 {
    c ^ 0xffffffff
  }

  predicate Odd(c: bv32) {
    c & 1 == 1
  }

  function Half(c: bv32): bv32 {
    c >> 1
  }

  // One bit of the division.
  function OneBit(c: bv32): bv32 {
    if Odd(c) then Xor(Half(c), POLYNOMIAL) else Half(c)
  }

  function EightBits(c: bv32): bv32 {
    OneBit(OneBit(OneBit(OneBit(OneBit(OneBit(OneBit(OneBit(c))))))))
  }

  // The register after one more byte.
  function OneByte(c: bv32, x: byte): bv32 {
    EightBits(Xor(c, LowByte(x as bv32)))
  }

  function Register(c: bv32, buf: seq<byte>): bv32 {
    if buf == [] then c else OneByte(Register(c, buf[..|buf| - 1]), buf[|buf| - 1])
  }

  // The CRC of a byte string that continues one with the CRC crc.
  function Crc32(crc: bv32, buf: seq<byte>): bv32 {
    Flip(Register(Flip(crc), buf))
  }

  function CrcRow0(k: bv32): bv32 {
    match k
    case 0 => 0x00000000 case 1 => 0x77073096 case 2 => 0xee0e612c case 3 => 0x990951ba
    case 4 => 0x076dc419 case 5 => 0x706af48f case 6 => 0xe963a535 case 7 => 0x9e6495a3
    case 8 => 0x0edb8832 case 9 => 0x79dcb8a4 case 10 => 0xe0d5e91e case 11 => 0x97d2d988
    case 12 => 0x09b64c2b case 13 => 0x7eb17cbd case 14 => 0xe7b82d07 case _ => 0x90bf1d91
  }

  function CrcRow1(k: bv32): bv32 {
    match k
    case 0 => 0x1db71064 case 1 => 0x6ab020f2 case 2 => 0xf3b97148 case 3 => 0x84be41de
    case 4 => 0x1adad47d case 5 => 0x6ddde4eb case 6 => 0xf4d4b551 case 7 => 0x83d385c7
    case 8 => 0x136c9856 case 9 => 0x646ba8c0 case 10 => 0xfd62f97a case 11 => 0x8a65c9ec
    case 12 => 0x14015c4f case 13 => 0x63066cd9 case 14 => 0xfa0f3d63 case _ => 0x8d080df5
  }

  function CrcRow2(k: bv32): bv32 {
    match k
    case 0 => 0x3b6e20c8 case 1 => 0x4c69105e case 2 => 0xd56041e4 case 3 => 0xa2677172
    case 4 => 0x3c03e4d1 case 5 => 0x4b04d447 case 6 => 0xd20d85fd case 7 => 0xa50ab56b
    case 8 => 0x35b5a8fa case 9 => 0x42b2986c case 10 => 0xdbbbc9d6 case 11 => 0xacbcf940
    case 12 => 0x32d86ce3 case 13 => 0x45df5c75 case 14 => 0xdcd60dcf case _ => 0xabd13d59
  }

  function CrcRow3(k: bv32): bv32 {
    match k
    case 0 => 0x26d930ac case 1 => 0x51de003a case 2 => 0xc8d75180 case 3 => 0xbfd06116
    case 4 => 0x21b4f4b5 case 5 => 0x56b3c423 case 6 => 0xcfba9599 case 7 => 0xb8bda50f
    case 8 => 0x2802b89e case 9 => 0x5f058808 case 10 => 0xc60cd9b2 case 11 => 0xb10be924
    case 12 => 0x2f6f7c87 case 13 => 0x58684c11 case 14 => 0xc1611dab case _ => 0xb6662d3d
  }

  function CrcRow4(k: bv32): bv32 {
    match k
    case 0 => 0x76dc4190 case 1 => 0x01db7106 case 2 => 0x98d220bc case 3 => 0xefd5102a
    case 4 => 0x71b18589 case 5 => 0x06b6b51f case 6 => 0x9fbfe4a5 case 7 => 0xe8b8d433
    case 8 => 0x7807c9a2 case 9 => 0x0f00f934 case 10 => 0x9609a88e case 11 => 0xe10e9818
    case 12 => 0x7f6a0dbb case 13 => 0x086d3d2d case 14 => 0x91646c97 case _ => 0xe6635c01
  }

  function CrcRow5(k: bv32): bv32 {
    match k
    case 0 => 0x6b6b51f4 case 1 => 0x1c6c6162 case 2 => 0x856530d8 case 3 => 0xf262004e
    case 4 => 0x6c0695ed case 5 => 0x1b01a57b case 6 => 0x8208f4c1 case 7 => 0xf50fc457
    case 8 => 0x65b0d9c6 case 9 => 0x12b7e950 case 10 => 0x8bbeb8ea case 11 => 0xfcb9887c
    case 12 => 0x62dd1ddf case 13 => 0x15da2d49 case 14 => 0x8cd37cf3 case _ => 0xfbd44c65
  }

  function CrcRow6(k: bv32): bv32 {
    match k
    case 0 => 0x4db26158 case 1 => 0x3ab551ce case 2 => 0xa3bc0074 case 3 => 0xd4bb30e2
    case 4 => 0x4adfa541 case 5 => 0x3dd895d7 case 6 => 0xa4d1c46d case 7 => 0xd3d6f4fb
    case 8 => 0x4369e96a case 9 => 0x346ed9fc case 10 => 0xad678846 case 11 => 0xda60b8d0
    case 12 => 0x44042d73 case 13 => 0x33031de5 case 14 => 0xaa0a4c5f case _ => 0xdd0d7cc9
  }

  function CrcRow7(k: bv32): bv32 {
    match k
    case 0 => 0x5005713c case 1 => 0x270241aa case 2 => 0xbe0b1010 case 3 => 0xc90c2086
    case 4 => 0x5768b525 case 5 => 0x206f85b3 case 6 => 0xb966d409 case 7 => 0xce61e49f
    case 8 => 0x5edef90e case 9 => 0x29d9c998 case 10 => 0xb0d09822 case 11 => 0xc7d7a8b4
    case 12 => 0x59b33d17 case 13 => 0x2eb40d81 case 14 => 0xb7bd5c3b case _ => 0xc0ba6cad
  }

  function CrcRow8(k: bv32): bv32 {
    match k
    case 0 => 0xedb88320 case 1 => 0x9abfb3b6 case 2 => 0x03b6e20c case 3 => 0x74b1d29a
    case 4 => 0xead54739 case 5 => 0x9dd277af case 6 => 0x04db2615 case 7 => 0x73dc1683
    case 8 => 0xe3630b12 case 9 => 0x94643b84 case 10 => 0x0d6d6a3e case 11 => 0x7a6a5aa8
    case 12 => 0xe40ecf0b case 13 => 0x9309ff9d case 14 => 0x0a00ae27 case _ => 0x7d079eb1
  }

  function CrcRow9(k: bv32): bv32 {
    match k
    case 0 => 0xf00f9344 case 1 => 0x8708a3d2 case 2 => 0x1e01f268 case 3 => 0x6906c2fe
    case 4 => 0xf762575d case 5 => 0x806567cb case 6 => 0x196c3671 case 7 => 0x6e6b06e7
    case 8 => 0xfed41b76 case 9 => 0x89d32be0 case 10 => 0x10da7a5a case 11 => 0x67dd4acc
    case 12 => 0xf9b9df6f case 13 => 0x8ebeeff9 case 14 => 0x17b7be43 case _ => 0x60b08ed5
  }

  function CrcRow10(k: bv32): bv32 {
    match k
    case 0 => 0xd6d6a3e8 case 1 => 0xa1d1937e case 2 => 0x38d8c2c4 case 3 => 0x4fdff252
    case 4 => 0xd1bb67f1 case 5 => 0xa6bc5767 case 6 => 0x3fb506dd case 7 => 0x48b2364b
    case 8 => 0xd80d2bda case 9 => 0xaf0a1b4c case 10 => 0x36034af6 case 11 => 0x41047a60
    case 12 => 0xdf60efc3 case 13 => 0xa867df55 case 14 => 0x316e8eef case _ => 0x4669be79
  }

  function CrcRow11(k: bv32): bv32 {
    match k
    case 0 => 0xcb61b38c case 1 => 0xbc66831a case 2 => 0x256fd2a0 case 3 => 0x5268e236
    case 4 => 0xcc0c7795 case 5 => 0xbb0b4703 case 6 => 0x220216b9 case 7 => 0x5505262f
    case 8 => 0xc5ba3bbe case 9 => 0xb2bd0b28 case 10 => 0x2bb45a92 case 11 => 0x5cb36a04
    case 12 => 0xc2d7ffa7 case 13 => 0xb5d0cf31 case 14 => 0x2cd99e8b case _ => 0x5bdeae1d
  }

  function CrcRow12(k: bv32): bv32 {
    match k
    case 0 => 0x9b64c2b0 case 1 => 0xec63f226 case 2 => 0x756aa39c case 3 => 0x026d930a
    case 4 => 0x9c0906a9 case 5 => 0xeb0e363f case 6 => 0x72076785 case 7 => 0x05005713
    case 8 => 0x95bf4a82 case 9 => 0xe2b87a14 case 10 => 0x7bb12bae case 11 => 0x0cb61b38
    case 12 => 0x92d28e9b case 13 => 0xe5d5be0d case 14 => 0x7cdcefb7 case _ => 0x0bdbdf21
  }

  function CrcRow13(k: bv32): bv32 {
    match k
    case 0 => 0x86d3d2d4 case 1 => 0xf1d4e242 case 2 => 0x68ddb3f8 case 3 => 0x1fda836e
    case 4 => 0x81be16cd case 5 => 0xf6b9265b case 6 => 0x6fb077e1 case 7 => 0x18b74777
    case 8 => 0x88085ae6 case 9 => 0xff0f6a70 case 10 => 0x66063bca case 11 => 0x11010b5c
    case 12 => 0x8f659eff case 13 => 0xf862ae69 case 14 => 0x616bffd3 case _ => 0x166ccf45
  }

  function CrcRow14(k: bv32): bv32 {
    match k
    case 0 => 0xa00ae278 case 1 => 0xd70dd2ee case 2 => 0x4e048354 case 3 => 0x3903b3c2
    case 4 => 0xa7672661 case 5 => 0xd06016f7 case 6 => 0x4969474d case 7 => 0x3e6e77db
    case 8 => 0xaed16a4a case 9 => 0xd9d65adc case 10 => 0x40df0b66 case 11 => 0x37d83bf0
    case 12 => 0xa9bcae53 case 13 => 0xdebb9ec5 case 14 => 0x47b2cf7f case _ => 0x30b5ffe9
  }

  function CrcRow15(k: bv32): bv32 {
    match k
    case 0 => 0xbdbdf21c case 1 => 0xcabac28a case 2 => 0x53b39330 case 3 => 0x24b4a3a6
    case 4 => 0xbad03605 case 5 => 0xcdd70693 case 6 => 0x54de5729 case 7 => 0x23d967bf
    case 8 => 0xb3667a2e case 9 => 0xc4614ab8 case 10 => 0x5d681b02 case 11 => 0x2a6f2b94
    case 12 => 0xb40bbe37 case 13 => 0xc30c8ea1 case 14 => 0x5a05df1b case _ => 0x2d02ef8d
  }

  // crc_table, by the high and the low half of the index.
  function CrcTable(i: bv32): bv32 {
    var k := i & 15;
    match i >> 4
    case 0 => CrcRow0(k)
    case 1 => CrcRow1(k)
    case 2 => CrcRow2(k)
    case 3 => CrcRow3(k)
    case 4 => CrcRow4(k)
    case 5 => CrcRow5(k)
    case 6 => CrcRow6(k)
    case 7 => CrcRow7(k)
    case 8 => CrcRow8(k)
    case 9 => CrcRow9(k)
    case 10 => CrcRow10(k)
    case 11 => CrcRow11(k)
    case 12 => CrcRow12(k)
    case 13 => CrcRow13(k)
    case 14 => CrcRow14(k)
    case _ => CrcRow15(k)
  }

  lemma CrcRow0Right(k: bv32)
    requires k < 16
    ensures CrcRow0(k) == EightBits(k)
  {
    match k {
      case 0 => assert EightBits(0) == CrcRow0(0);
      case 1 => assert EightBits(1) == CrcRow0(1);
      case 2 => assert EightBits(2) == CrcRow0(2);
      case 3 => assert EightBits(3) == CrcRow0(3);
      case 4 => assert EightBits(4) == CrcRow0(4);
      case 5 => assert EightBits(5) == CrcRow0(5);
      case 6 => assert EightBits(6) == CrcRow0(6);
      case 7 => assert EightBits(7) == CrcRow0(7);
      case 8 => assert EightBits(8) == CrcRow0(8);
      case 9 => assert EightBits(9) == CrcRow0(9);
      case 10 => assert EightBits(10) == CrcRow0(10);
      case 11 => assert EightBits(11) == CrcRow0(11);
      case 12 => assert EightBits(12) == CrcRow0(12);
      case 13 => assert EightBits(13) == CrcRow0(13);
      case 14 => assert EightBits(14) == CrcRow0(14);
      case 15 => assert EightBits(15) == CrcRow0(15);
    }
  }

  // The division is linear, so the other rows follow from their first entries.
  lemma RowFrom(base: bv32, k: bv32)
    requires k < 16 && base & 15 == 0
    ensures EightBits(base | k) == Xor(EightBits(base), CrcRow0(k))
  {
    hide EightBits, CrcRow0;
    assert base | k == Xor(base, k);
    EightBitsLinear(base, k);
    CrcRow0Right(k);
  }

  lemma CrcRow1Right(k: bv32)
    requires k < 16
    ensures CrcRow1(k) == EightBits(16 | k)
  {
    assert EightBits(16) == CrcRow1(0);
    hide EightBits;
    RowFrom(16, k);
  }

  lemma CrcRow2Right(k: bv32)
    requires k < 16
    ensures CrcRow2(k) == EightBits(32 | k)
  {
    assert EightBits(32) == CrcRow2(0);
    hide EightBits;
    RowFrom(32, k);
  }

  lemma CrcRow3Right(k: bv32)
    requires k < 16
    ensures CrcRow3(k) == EightBits(48 | k)
  {
    assert EightBits(48) == CrcRow3(0);
    hide EightBits;
    RowFrom(48, k);
  }

  lemma CrcRow4Right(k: bv32)
    requires k < 16
    ensures CrcRow4(k) == EightBits(64 | k)
  {
    assert EightBits(64) == CrcRow4(0);
    hide EightBits;
    RowFrom(64, k);
  }

  lemma CrcRow5Right(k: bv32)
    requires k < 16
    ensures CrcRow5(k) == EightBits(80 | k)
  {
    assert EightBits(80) == CrcRow5(0);
    hide EightBits;
    RowFrom(80, k);
  }

  lemma CrcRow6Right(k: bv32)
    requires k < 16
    ensures CrcRow6(k) == EightBits(96 | k)
  {
    assert EightBits(96) == CrcRow6(0);
    hide EightBits;
    RowFrom(96, k);
  }

  lemma CrcRow7Right(k: bv32)
    requires k < 16
    ensures CrcRow7(k) == EightBits(112 | k)
  {
    assert EightBits(112) == CrcRow7(0);
    hide EightBits;
    RowFrom(112, k);
  }

  lemma CrcRow8Right(k: bv32)
    requires k < 16
    ensures CrcRow8(k) == EightBits(128 | k)
  {
    assert EightBits(128) == CrcRow8(0);
    hide EightBits;
    RowFrom(128, k);
  }

  lemma CrcRow9Right(k: bv32)
    requires k < 16
    ensures CrcRow9(k) == EightBits(144 | k)
  {
    assert EightBits(144) == CrcRow9(0);
    hide EightBits;
    RowFrom(144, k);
  }

  lemma CrcRow10Right(k: bv32)
    requires k < 16
    ensures CrcRow10(k) == EightBits(160 | k)
  {
    assert EightBits(160) == CrcRow10(0);
    hide EightBits;
    RowFrom(160, k);
  }

  lemma CrcRow11Right(k: bv32)
    requires k < 16
    ensures CrcRow11(k) == EightBits(176 | k)
  {
    assert EightBits(176) == CrcRow11(0);
    hide EightBits;
    RowFrom(176, k);
  }

  lemma CrcRow12Right(k: bv32)
    requires k < 16
    ensures CrcRow12(k) == EightBits(192 | k)
  {
    assert EightBits(192) == CrcRow12(0);
    hide EightBits;
    RowFrom(192, k);
  }

  lemma CrcRow13Right(k: bv32)
    requires k < 16
    ensures CrcRow13(k) == EightBits(208 | k)
  {
    assert EightBits(208) == CrcRow13(0);
    hide EightBits;
    RowFrom(208, k);
  }

  lemma CrcRow14Right(k: bv32)
    requires k < 16
    ensures CrcRow14(k) == EightBits(224 | k)
  {
    assert EightBits(224) == CrcRow14(0);
    hide EightBits;
    RowFrom(224, k);
  }

  lemma CrcRow15Right(k: bv32)
    requires k < 16
    ensures CrcRow15(k) == EightBits(240 | k)
  {
    assert EightBits(240) == CrcRow15(0);
    hide EightBits;
    RowFrom(240, k);
  }

  lemma TableRight(i: bv32)
    requires i < 256
    ensures CrcTable(i) == EightBits(i)
  {
    var k := i & 15;
    assert k < 16;
    match i >> 4 {
      case 0 => CrcRow0Right(k);
      case 1 => CrcRow1Right(k);
      case 2 => CrcRow2Right(k);
      case 3 => CrcRow3Right(k);
      case 4 => CrcRow4Right(k);
      case 5 => CrcRow5Right(k);
      case 6 => CrcRow6Right(k);
      case 7 => CrcRow7Right(k);
      case 8 => CrcRow8Right(k);
      case 9 => CrcRow9Right(k);
      case 10 => CrcRow10Right(k);
      case 11 => CrcRow11Right(k);
      case 12 => CrcRow12Right(k);
      case 13 => CrcRow13Right(k);
      case 14 => CrcRow14Right(k);
      case _ => CrcRow15Right(k);
    }
  }

  // ----- the division is linear, so the low byte decides what is added to the rest

  lemma HalfXor(a: bv32, b: bv32)
    ensures Half(Xor(a, b)) == Xor(Half(a), Half(b))
    ensures Odd(Xor(a, b)) <==> Odd(a) != Odd(b)
  {
  }

  lemma XorTwice(a: bv32, b: bv32, p: bv32)
    ensures Xor(Xor(a, p), b) == Xor(Xor(a, b), p) == Xor(a, Xor(b, p))
  {
  }

  lemma XorBoth(a: bv32, b: bv32, p: bv32)
    ensures Xor(Xor(a, p), Xor(b, p)) == Xor(a, b)
  {
    hide Xor;
    XorTwice(Xor(a, p), b, p);
    XorCancels(a, p);
  }

  lemma XorCancels(a: bv32, p: bv32)
    ensures Xor(Xor(a, p), p) == a
  {
  }

  lemma OneBitLinear(a: bv32, b: bv32)
    ensures OneBit(Xor(a, b)) == Xor(OneBit(a), OneBit(b))
  {
    hide Xor, Half, Odd;
    HalfXor(a, b);
    XorTwice(Half(a), Half(b), POLYNOMIAL);
    XorBoth(Half(a), Half(b), POLYNOMIAL);
  }

  lemma EightBitsLinear(a: bv32, b: bv32)
    ensures EightBits(Xor(a, b)) == Xor(EightBits(a), EightBits(b))
  {
    hide OneBit, Xor;
    var a1, b1 := OneBit(a), OneBit(b);
    var a2, b2 := OneBit(a1), OneBit(b1);
    var a3, b3 := OneBit(a2), OneBit(b2);
    var a4, b4 := OneBit(a3), OneBit(b3);
    var a5, b5 := OneBit(a4), OneBit(b4);
    var a6, b6 := OneBit(a5), OneBit(b5);
    var a7, b7 := OneBit(a6), OneBit(b6);
    OneBitLinear(a, b);
    OneBitLinear(a1, b1);
    OneBitLinear(a2, b2);
    OneBitLinear(a3, b3);
    OneBitLinear(a4, b4);
    OneBitLinear(a5, b5);
    OneBitLinear(a6, b6);
    OneBitLinear(a7, b7);
  }

  lemma NoLowBits(c: bv32)
    ensures EightBits(c & 0xffffff00) == HighBytes(c)
  {
  }

  lemma Halves(c: bv32)
    ensures c == Xor(LowByte(c), c & 0xffffff00)
  {
  }

  lemma Divided(c: bv32)
    ensures EightBits(c) == Xor(EightBits(LowByte(c)), HighBytes(c))
  {
    hide OneBit, Xor, LowByte, HighBytes, EightBits;
    Halves(c);
    EightBitsLinear(LowByte(c), c & 0xffffff00);
    NoLowBits(c);
  }

  // One step of the loop (CRC_DO1).
  function Do1(crc: bv32, x: byte): bv32 {
    Xor(CrcTable(LowByte(Xor(crc, x as bv32))), HighBytes(crc))
  }

  lemma OnlyLowByte(c: bv32, b: bv32)
    ensures LowByte(Xor(c, LowByte(b))) == LowByte(Xor(c, b)) < 256
    ensures HighBytes(Xor(c, LowByte(b))) == HighBytes(c)
  {
  }

  lemma Do1Right(crc: bv32, x: byte)
    ensures Do1(crc, x) == OneByte(crc, x)
  {
    hide CrcTable, EightBits, Xor, LowByte, HighBytes;
    OnlyLowByte(crc, x as bv32);
    TableRight(LowByte(Xor(crc, x as bv32)));
    Divided(Xor(crc, LowByte(x as bv32)));
  }

  lemma {:induction false} FedAt(c: bv32, buf: seq<byte>, i: nat)
    requires i < |buf|
    ensures Register(c, buf[..i + 1]) == OneByte(Register(c, buf[..i]), buf[i])
  {
    hide OneByte;
    assert buf[..i + 1][..i] == buf[..i];
  }

  lemma {:induction false} RegisterStep(c: bv32, buf: seq<byte>, i: nat)
    requires i < |buf|
    ensures Register(c, buf[..i + 1]) == Do1(Register(c, buf[..i]), buf[i])
  {
    hide OneByte, Do1, Register;
    FedAt(c, buf, i);
    Do1Right(Register(c, buf[..i]), buf[i]);
  }

  // Eight steps, unrolled (CRC_DO8).
  function Do8(crc: bv32, buf: seq<byte>, i: nat): bv32
    requires i + 8 <= |buf|
  {
    Do1(Do1(Do1(Do1(Do1(Do1(Do1(Do1(crc, buf[i]), buf[i + 1]), buf[i + 2]), buf[i + 3]), buf[i + 4]), buf[i + 5]), buf[i + 6]), buf[i + 7])
  }

  lemma {:induction false} RegisterEight(c: bv32, buf: seq<byte>, i: nat)
    requires i + 8 <= |buf|
    ensures Register(c, buf[..i + 8]) == Do8(Register(c, buf[..i]), buf, i)
  {
    hide Do1, Register;
    RegisterStep(c, buf, i);
    RegisterStep(c, buf, i + 1);
    RegisterStep(c, buf, i + 2);
    RegisterStep(c, buf, i + 3);
    RegisterStep(c, buf, i + 4);
    RegisterStep(c, buf, i + 5);
    RegisterStep(c, buf, i + 6);
    RegisterStep(c, buf, i + 7);
  }

  method Ucrc32(crc0: bv32, buf: seq<byte>) returns (r: bv32)
    ensures r == Crc32(crc0, buf)
  {
    hide Register, Do8, Do1, Flip;
    var crc, i, len := Flip(crc0), 0, |buf|;
    assert Register(crc, buf[..0]) == crc by { RegisterNothing(crc); }
    while len >= 8
      invariant 0 <= i <= i + len == |buf|
      invariant crc == Register(Flip(crc0), buf[..i])
    {
      RegisterEight(Flip(crc0), buf, i);
      crc := Do8(crc, buf, i);
      i := i + 8;
      len := len - 8;
    }
    while len > 0
      invariant 0 <= i <= i + len == |buf|
      invariant crc == Register(Flip(crc0), buf[..i])
    {
      RegisterStep(Flip(crc0), buf, i);
      crc := Do1(crc, buf[i]);
      i := i + 1;
      len := len - 1;
    }
    assert buf[..i] == buf;
    r := Flip(crc);
  }

  lemma {:induction false} RegisterNothing(c: bv32)
    ensures Register(c, []) == c
  {
  }

  lemma {:induction false} RegisterConcat(c: bv32, a: seq<byte>, b: seq<byte>)
    ensures Register(c, a + b) == Register(Register(c, a), b)
  {
    hide OneByte;
    if b == [] {
      assert a + b == a;
    } else {
      RegisterConcat(c, a, b[..|b| - 1]);
      assert (a + b)[..|a + b| - 1] == a + b[..|b| - 1];
    }
  }

  // Checking in pieces is checking the whole.
  lemma Composes(crc: bv32, a: seq<byte>, b: seq<byte>)
    ensures Crc32(Crc32(crc, a), b) == Crc32(crc, a + b)
  {
    hide Register, Flip;
    RegisterConcat(Flip(crc), a, b);
    Cancel(Register(Flip(crc), a));
  }

  lemma Cancel(c: bv32)
    ensures Flip(Flip(c)) == c
  {
  }

  // ----- known values

  lemma FirstDigits()
    ensures OneByte(0xffffffff, 0x31) == 0x7c231048 && OneByte(0x7c231048, 0x32) == 0xb0acbb32 && OneByte(0xb0acbb32, 0x33) == 0x77b79c2d
    ensures OneByte(0x77b79c2d, 0x34) == 0x641c1f5c && OneByte(0x641c1f5c, 0x35) == 0x340ac5e3
  {
  }

  lemma LastDigits()
    ensures OneByte(0x340ac5e3, 0x36) == 0xf68d2c9e && OneByte(0xf68d2c9e, 0x37) == 0xaffc9660
    ensures OneByte(0xaffc9660, 0x38) == 0x651f2550 && OneByte(0x651f2550, 0x39) == 0x340bc6d9
  {
  }

  // The check value of CRC-32: what comes out for the digits from 1 to 9.
  lemma CheckValue()
    ensures Crc32(0, [0x31, 0x32, 0x33, 0x34, 0x35, 0x36, 0x37, 0x38, 0x39]) == 0xcbf43926
  {
    hide Register, OneByte;
    var c: bv32 := 0xffffffff;
    var s: seq<byte> := [0x31, 0x32, 0x33, 0x34, 0x35, 0x36, 0x37, 0x38, 0x39];
    RegisterNothing(c);
    FirstDigits();
    LastDigits();
    FedAt(c, s, 0);
    FedAt(c, s, 1);
    FedAt(c, s, 2);
    FedAt(c, s, 3);
    FedAt(c, s, 4);
    FedAt(c, s, 5);
    FedAt(c, s, 6);
    FedAt(c, s, 7);
    FedAt(c, s, 8);
    assert s[..0] == [] && s[..9] == s;
  }

  function ByteOf(v: bv32): byte {
    (v & 0xff) as byte
  }

  // The four bytes of a checksum as files keep them, the lowest first.
  function LittleEndian(v: bv32): seq<byte> {
    [ByteOf(v), ByteOf(v >> 8), ByteOf(v >> 16), ByteOf(v >> 24)]
  }

  lemma ByteBack(v: bv32)
    ensures ByteOf(v) as bv32 == LowByte(v)
  {
    Back(v & 0xff);
  }

  lemma Back(w: bv32)
    requires w as int < 256
    ensures (w as int) as bv32 == w
  {
  }

  lemma LowTwice(v: bv32)
    ensures LowByte(LowByte(v)) == LowByte(v)
  {
  }

  // Bytes that come later can be added to the register beforehand.
  lemma Beforehand(c: bv32, v: bv32)
    ensures EightBits(Xor(c, v)) == Xor(OneByte(c, ByteOf(v)), HighBytes(v))
  {
    hide EightBits, Xor, LowByte, HighBytes, ByteOf;
    Halves(v);
    XorTwice(c, LowByte(v), v & 0xffffff00);
    EightBitsLinear(Xor(c, LowByte(v)), v & 0xffffff00);
    NoLowBits(v);
    ByteBack(v);
    LowTwice(v);
  }

  lemma Shifted(v: bv32)
    ensures HighBytes(v) == v >> 8 && HighBytes(v >> 8) == v >> 16 && HighBytes(v >> 16) == v >> 24 && HighBytes(v >> 24) == 0
  {
  }

  lemma XorZero(c: bv32)
    ensures Xor(c, 0) == c
  {
  }

  lemma {:induction false} RegisterFour(c: bv32, v: bv32)
    ensures Register(c, LittleEndian(v)) == EightBits(EightBits(EightBits(EightBits(Xor(c, v)))))
  {
    hide EightBits, Xor, HighBytes, ByteOf, OneByte, Register;
    var b := LittleEndian(v);
    var c1 := OneByte(c, b[0]);
    var c2 := OneByte(c1, b[1]);
    var c3 := OneByte(c2, b[2]);
    Shifted(v);
    Beforehand(c, v);
    Beforehand(c1, v >> 8);
    Beforehand(c2, v >> 16);
    Beforehand(c3, v >> 24);
    XorZero(OneByte(c3, b[3]));
    RegisterNothing(c);
    FedAt(c, b, 0);
    FedAt(c, b, 1);
    FedAt(c, b, 2);
    FedAt(c, b, 3);
    assert b[..0] == [] && b[..4] == b;
  }

  lemma Against(c: bv32)
    ensures Xor(c, Flip(c)) == 0xffffffff
  {
  }

  lemma FirstOnes()
    ensures EightBits(0xffffffff) == 0x2dfd1072 && EightBits(0x2dfd1072) == 0xbe26ed00
  {
  }

  lemma LastOnes()
    ensures EightBits(0xbe26ed00) == 0x00be26ed && EightBits(0x00be26ed) == 0xdebb20e3
  {
  }

  // Bytes followed by their own checksum have the same checksum, whatever the bytes.
  lemma Residue(crc: bv32, buf: seq<byte>)
    ensures Crc32(crc, buf + LittleEndian(Crc32(crc, buf))) == 0x2144df1c
  {
    hide EightBits, Register, LittleEndian;
    var c := Register(Flip(crc), buf);
    RegisterConcat(Flip(crc), buf, LittleEndian(Flip(c)));
    RegisterFour(c, Flip(c));
    Against(c);
    FirstOnes();
    LastOnes();
    Cancel(c);
  }
}
