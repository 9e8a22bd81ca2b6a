// Bit input: the input pointer and count of z_stream together with the bit buffer of the blocks state, and the macros
// that move bits between them.
//
// The data are the whole byte stream; next and avail delimit the part of it that has been handed to the decoder and not
// been taken yet. The position in the stream counts bits, so bits that wait in the buffer are not yet passed.
//
// The caller hands the data over in areas of memory, which may lie anywhere. A byte can be given back that was taken from an
// earlier area; what is then read again is whatever lies in front of the present one.

module BitInput {
  import opened Bits

  // The bits of a byte string: bytes in order, least significant bit first (section 3.1.1 of RFC 1951).
  function Stream(bytes: seq<byte>): (s: seq<bool>)
    ensures |s| == 8 * |bytes|
  {
    if bytes == [] then [] else LsbBits(bytes[0], 8) + Stream(bytes[1..])
  }

  // The number in the n bits from position pos on.
  function Val(bits: seq<bool>, pos: nat, n: nat): nat
    requires pos + n <= |bits|
  {
    Lsb(bits[pos..pos + n])
  }

  // x | y
  function Or(x: nat, y: nat): nat {
    if x == 0 then y
    else if y == 0 then x
    else (if x % 2 == 1 || y % 2 == 1 then 1 else 0) + 2 * Or(x / 2, y / 2)
  }

  lemma {:induction false} StreamByte(bytes: seq<byte>, i: nat)
    requires i < |bytes|
    ensures Stream(bytes)[8 * i..8 * i + 8] == LsbBits(bytes[i], 8)
  {
    if i > 0 {
      StreamByte(bytes[1..], i - 1);
      assert Stream(bytes)[8..] == Stream(bytes[1..]);
      assert Stream(bytes)[8..][8 * (i - 1)..8 * (i - 1) + 8] == Stream(bytes)[8 * i..8 * i + 8];
    } else {
      assert Stream(bytes)[..8] == LsbBits(bytes[0], 8);
    }
  }

  lemma ByteVal(bytes: seq<byte>, i: nat)
    requires i < |bytes|
    ensures Val(Stream(bytes), 8 * i, 8) == bytes[i]
  {
    hide Stream, LsbBits;
    StreamByte(bytes, i);
    assert Pow2(8) == 256 by { Pow2Eight(); }
    LsbOfLsbBits(bytes[i], 8);
  }

  lemma Pow2Eight()
    ensures Pow2(8) == 256
  {
  }

  lemma {:induction false} OrUnfold(x: nat, y: nat)
    ensures Or(x, y) == (if x % 2 == 1 || y % 2 == 1 then 1 else 0) + 2 * Or(x / 2, y / 2)
  {
    OrZero(x);
    OrZero(x / 2);
    OrZero(y / 2);
  }

  lemma {:induction false} OrZero(x: nat)
    ensures Or(x, 0) == x && Or(0, x) == x
  {
  }

  // Or-ing two bit strings that agree where both are defined.
  lemma {:induction false} OrOverlay(s: seq<bool>, t: seq<bool>)
    requires s <= t || t <= s
    ensures Or(Lsb(s), Lsb(t)) == Lsb(if |s| <= |t| then t else s)
  {
    hide Or;
    OrZero(Lsb(s));
    OrZero(Lsb(t));
    if s != [] && t != [] {
      OrOverlay(s[1..], t[1..]);
      OrUnfold(Lsb(s), Lsb(t));
    }
  }

  // Or-ing a byte into the buffer above its k valid bits: bits that were there already are the ones that come again.
  lemma {:induction false} OrAbove(s: seq<bool>, t: seq<bool>, k: nat)
    requires k <= |s| && (s[k..] <= t || t <= s[k..])
    ensures Or(Lsb(s), Shl(Lsb(t), k)) == Lsb(if |s| - k <= |t| then s[..k] + t else s)
  {
    hide Or;
    if k == 0 {
      OrOverlay(s, t);
      assert s[..0] + t == t && s[0..] == s;
    } else {
      assert s[1..][k - 1..] == s[k..];
      OrAbove(s[1..], t, k - 1);
      OrUnfold(Lsb(s), Shl(Lsb(t), k));
      assert s[..k] + t == [s[0]] + (s[1..][..k - 1] + t);
    }
  }

  // The buffer holds the bits of the stream from p on; the byte at p + k is or-ed in above k.
  lemma OrStream(bits: seq<bool>, p: nat, k: nat, held: nat)
    requires k <= held && p + held <= |bits| && p + k + 8 <= |bits|
    ensures Or(Lsb(bits[p..p + held]), Shl(Val(bits, p + k, 8), k)) == Lsb(bits[p..p + Max(held, k + 8)])
  {
    hide Lsb, Or, Shl;
    var s, t := bits[p..p + held], bits[p + k..p + k + 8];
    var r := bits[p + k..];
    assert s[k..] == r[..held - k] && t == r[..8];
    OrAbove(s, t, k);
    if held - k <= 8 {
      assert s[..k] + t == bits[p..p + (k + 8)];
    }
  }

  // ----- or-ing a byte into a buffer

  lemma {:induction false} OrLow(x: nat, y: nat, k: nat, j: nat)
    requires j <= k
    ensures Low(Or(x, Shl(y, k)), j) == Low(x, j)
  {
    hide Or;
    if j > 0 {
      OrUnfold(x, Shl(y, k));
      assert Shl(y, k) % 2 == 0 && Shl(y, k) / 2 == Shl(y, k - 1);
      OrLow(x / 2, y, k - 1, j - 1);
    }
  }

  lemma {:induction false} OrShr(x: nat, y: nat, k: nat, j: nat)
    requires j <= k
    ensures Shr(Or(x, Shl(y, k)), j) == Or(Shr(x, j), Shl(y, k - j))
  {
    hide Or;
    if j > 0 {
      OrUnfold(x, Shl(y, k));
      assert Shl(y, k) % 2 == 0 && Shl(y, k) / 2 == Shl(y, k - 1);
      OrShr(x / 2, y, k - 1, j - 1);
    }
  }

  lemma {:induction false} OrBound(x: nat, y: nat, n: nat)
    requires x < Pow2(n) && y < Pow2(n)
    ensures Or(x, y) < Pow2(n)
  {
    hide Or;
    if n > 0 {
      OrUnfold(x, y);
      OrBound(x / 2, y / 2, n - 1);
    } else {
      OrZero(0);
    }
  }

  function OrByte(x: byte, y: byte): byte {
    Pow2Eight();
    OrBound(x, y, 8);
    Or(x, y)
  }

  // Or-ing into the low bits of a string.
  lemma {:induction false} OrHead(a: seq<bool>, b: seq<bool>, y: nat)
    requires y < Pow2(|a|)
    ensures Or(Lsb(a + b), y) == Lsb(LsbBits(Or(Lsb(a), y), |a|) + b)
  {
    hide Or;
    if a == [] {
      assert a + b == b && LsbBits(Or(Lsb(a), y), 0) + b == b;
      OrZero(Lsb(b));
    } else {
      assert (a + b)[1..] == a[1..] + b;
      OrUnfold(Lsb(a + b), y);
      OrUnfold(Lsb(a), y);
      OrHead(a[1..], b, y / 2);
      var r := LsbBits(Or(Lsb(a), y), |a|);
      assert (r + b)[1..] == r[1..] + b;
    }
  }

  // Or-ing y into the buffer at bit k changes the eight bits from there on, and nothing else.
  lemma {:induction false} OrAt(s: seq<bool>, k: nat, y: byte)
    requires k + 8 <= |s|
    ensures Or(Lsb(s), Shl(y, k)) == Lsb(s[..k] + LsbBits(Or(Lsb(s[k..k + 8]), y), 8) + s[k + 8..])
  {
    hide Or, LsbBits;
    var v := Or(Lsb(s[k..k + 8]), y);
    if k == 0 {
      Pow2Eight();
      OrHead(s[..8], s[8..], y);
      assert s[..8] + s[8..] == s;
      assert s[..0] + LsbBits(v, 8) + s[8..] == LsbBits(v, 8) + s[8..];
    } else {
      OrUnfold(Lsb(s), Shl(y, k));
      OrAt(s[1..], k - 1, y);
      assert s[1..][k - 1..k + 7] == s[k..k + 8];
      var t := s[..k] + LsbBits(v, 8) + s[k + 8..];
      assert t[1..] == s[1..][..k - 1] + LsbBits(v, 8) + s[1..][k + 7..];
    }
  }

  lemma {:induction false} StreamUpdate(bytes: seq<byte>, p: nat, z: byte)
    requires p < |bytes|
    ensures Stream(bytes[p := z]) == Stream(bytes)[..8 * p] + LsbBits(z, 8) + Stream(bytes)[8 * p + 8..]
  {
    hide LsbBits;
    var s := Stream(bytes);
    assert s[8..] == Stream(bytes[1..]) && s[..8] == LsbBits(bytes[0], 8);
    if p == 0 {
      assert bytes[0 := z][1..] == bytes[1..];
      assert s[..0] + LsbBits(z, 8) + s[8..] == LsbBits(z, 8) + s[8..];
    } else {
      StreamUpdate(bytes[1..], p - 1, z);
      assert bytes[p := z][1..] == bytes[1..][p - 1 := z];
      var r := s[8..];
      assert s[..8] + (r[..8 * (p - 1)] + LsbBits(z, 8) + r[8 * p..]) == s[..8 * p] + LsbBits(z, 8) + s[8 * p + 8..];
    }
  }

  // Or-ing y into the part of a stream from bit p on, at byte i, gives that part of the stream with that byte changed.
  lemma OrIntoStream(bytes: seq<byte>, p: nat, held: nat, i: nat, y: byte)
    requires i < |bytes| && p <= 8 * i && 8 * i + 8 <= p + held <= 8 * |bytes|
    ensures Or(Lsb(Stream(bytes)[p..p + held]), Shl(y, 8 * i - p)) == Lsb(Stream(bytes[i := OrByte(bytes[i], y)])[p..p + held])
  {
    hide Stream, Lsb, LsbBits, Or, Shl;
    var bits, q := Stream(bytes), 8 * i;
    var k, s, z := q - p, bits[p..p + held], OrByte(bytes[i], y);
    OrAt(s, k, y);
    InSlice(bits, p, held, q);
    ByteVal(bytes, i);
    StreamUpdate(bytes, i, z);
    Replaced(bits, p, held, q, LsbBits(z, 8));
  }

  lemma InSlice(bits: seq<bool>, p: nat, held: nat, q: nat)
    requires p <= q && q + 8 <= p + held <= |bits|
    ensures bits[p..p + held][q - p..q - p + 8] == bits[q..q + 8]
  {
    var s, k := bits[p..p + held], q - p;
    var l, r := s[k..k + 8], bits[q..q + 8];
    forall j | 0 <= j < 8
      ensures l[j] == r[j]
    {
      assert l[j] == s[k + j] == bits[p + (k + j)];
    }
  }

  lemma Replaced(bits: seq<bool>, p: nat, held: nat, q: nat, z: seq<bool>)
    requires p <= q && q + 8 <= p + held <= |bits| && |z| == 8
    ensures
      var s, k := bits[p..p + held], q - p;
      (bits[..q] + z + bits[q + 8..])[p..p + held] == s[..k] + z + s[k + 8..]
  {
    var s, k := bits[p..p + held], q - p;
    var l, r := bits[..q] + z + bits[q + 8..], s[..k] + z + s[k + 8..];
    forall j | 0 <= j < held
      ensures l[p..p + held][j] == r[j]
    {
      assert l[p..p + held][j] == l[p + j];
    }
  }

  lemma {:induction false} OrTwice(x: nat, y: nat)
    ensures Or(Or(x, y), y) == Or(x, y)
  {
    hide Or;
    OrZero(x);
    OrZero(y);
    if x != 0 && y != 0 {
      OrUnfold(x, y);
      OrUnfold(Or(x, y), y);
      OrTwice(x / 2, y / 2);
    } else {
      OrItself(y);
    }
  }

  lemma {:induction false} OrItself(x: nat)
    ensures Or(x, x) == x
  {
    hide Or;
    if x == 0 {
      OrZero(0);
    } else {
      OrUnfold(x, x);
      OrItself(x / 2);
    }
  }

  class BitReader {
    const data: seq<byte>
    var next: nat
    var avail: nat
    var bitb: nat
    var bitk: nat

    // Where the present area of input begins in the data, and the byte in front of it.
    var area: nat
    var front: byte

    // The stream that is decoded: the data, but where a byte in front of an area is read again, both bytes or-ed.
    ghost var input: seq<byte>

    // The byte in front of the present area has been given back.
    ghost var strayed: bool

    // The bits actually present in bitb; those above bitk are left over from bytes that have been given back.
    ghost var held: nat

    ghost predicate Valid()
      reads this
    {
      && next + avail <= |data| == |input| && area <= next + avail
      && (next < area ==> strayed && next + 1 == area && bitk < 8 && bitk + 8 <= held)
      && bitk <= held <= 32
      && bitk <= 8 * next
      && Pos() + held <= 8 * |input|
      && Source() && Buffer()
    }

    // From the area on, the stream is the data; the byte in front of it is covered by the stream once it has been given back.
    ghost predicate Source()
      requires area <= |data| == |input|
      reads this
    {
      && (forall p :: area <= p < |data| ==> input[p] == data[p])
      && (strayed ==> area > 0 && OrByte(input[area - 1], front) == input[area - 1])
    }

    // The buffer holds bits of the stream, the last of them possibly still without those of the byte in front.
    ghost predicate Buffer()
      requires bitk <= 8 * next && Pos() + held <= 8 * |input|
      reads this
    {
      Or(bitb, Shade()) == Lsb(Stream(input)[Pos()..Pos() + held])
    }

    // What is or-ed into the buffer when the byte in front of the area is read again.
    ghost function Shade(): nat
      reads this
    {
      if next < area then Shl(front, bitk) else 0
    }

    // The first byte that may be read.
    ghost function Start(): int
      reads this
    {
      if strayed then area - 1 else area
    }

    // A byte of the present area has been taken, or fewer than eight bits of earlier ones are left: no byte in front of the
    // area will be given back.
    ghost predicate Anchored()
      requires bitk <= 8 * next
      reads this
    {
      area < next || 8 * area < Pos() + 8
    }

    // The position of the first bit not yet taken.
    ghost function Pos(): nat
      requires bitk <= 8 * next
      reads this
    {
      8 * next - bitk
    }

    // The bits that can still be taken without more input.
    function Left(): nat
      reads this
    {
      8 * avail + bitk
    }

    // The bytes handed to the decoder so far.
    function Given(): nat
      reads this
    {
      next + avail
    }

    constructor (data: seq<byte>)
      ensures Valid() && this.data == data && input == data && next == 0 && avail == 0 && bitk == 0 && Pos() == 0
      ensures area == 0 && !strayed
    {
      this.data, input := data, data;
      next, avail, bitb, bitk, held := 0, 0, 0, 0, 0;
      area, front, strayed := 0, 0, false;
      new;
      OrZero(0);
    }

    // Without a byte in front, the buffer holds bits of the stream.
    lemma Plainly()
      requires Valid() && area <= next
      ensures bitb == Lsb(Stream(input)[Pos()..Pos() + held])
    {
      hide Stream, Lsb, Or;
      OrZero(bitb);
    }

    // Add the next byte to the bit buffer.
    method AddByte()
      requires Valid() && avail > 0 && bitk <= 24
      modifies this`next, this`avail, this`bitb, this`bitk, this`held
      ensures Valid() && Pos() == old(Pos()) && Left() == old(Left())
      ensures bitk == old(bitk) + 8 && next == old(next) + 1 && avail == old(avail) - 1
    {
      hide Stream, Lsb, Or, Shl, Val, OrByte;
      var x := if next < area then front else data[next];
      if next >= area {
        Plainly();
        ByteVal(input, next);
        OrStream(Stream(input), Pos(), bitk, held);
      }
      bitb := Or(bitb, Shl(x, bitk));
      held := Max(held, bitk + 8);
      next := next + 1;
      avail := avail - 1;
      bitk := bitk + 8;
      OrZero(bitb);
    }

    // Have at least j bits in the buffer (NEEDBITS); not ok when the input does not suffice for that.
    method NeedBits(j: nat) returns (ok: bool, taken: bool)
      requires Valid() && (j <= 25 || (j <= 32 && bitk % 8 == 0))
      modifies this`next, this`avail, this`bitb, this`bitk, this`held
      ensures Valid() && Pos() == old(Pos()) && Left() == old(Left())
      ensures if ok then bitk >= j else avail == 0 && bitk < j
      ensures bitk >= old(bitk) && (bitk - old(bitk)) % 8 == 0
      ensures bitk == old(bitk) || bitk < j + 8
      ensures taken <==> bitk != old(bitk)
      ensures !taken ==> bitb == old(bitb)
      ensures old(avail) == 0 || old(bitk) >= j ==> !taken
    {
      hide Stream, Lsb, Shade, OrByte;
      taken := false;
      while bitk < j
        invariant Valid() && Pos() == old(Pos()) && Left() == old(Left())
        invariant bitk >= old(bitk) && (bitk - old(bitk)) % 8 == 0
        invariant bitk == old(bitk) || bitk < j + 8
        invariant taken <==> bitk != old(bitk)
        invariant !taken ==> bitb == old(bitb)
        invariant old(avail) == 0 ==> avail == 0 && !taken
        invariant old(bitk) >= j ==> !taken
        decreases avail
      {
        if avail == 0 {
          return false, taken;
        }
        AddByte();
        taken := true;
      }
      ok := true;
    }

    // Have at least j bits in the buffer without asking whether there is input (GRABBITS).
    method GrabBits(j: nat)
      requires Valid() && j <= 25 && 8 * avail >= j
      modifies this`next, this`avail, this`bitb, this`bitk, this`held
      ensures Valid() && Pos() == old(Pos()) && Left() == old(Left())
      ensures bitk >= j && bitk >= old(bitk) && avail <= old(avail) && 8 * (old(avail) - avail) <= j + 7
    {
      hide Stream, Lsb, Shade, OrByte;
      while bitk < j
        invariant Valid() && Pos() == old(Pos()) && Left() == old(Left())
        invariant bitk >= old(bitk) && bitk - old(bitk) == 8 * (old(avail) - avail)
        invariant bitk == old(bitk) || bitk < j + 8
        decreases j + 8 - bitk
      {
        AddByte();
      }
    }

    // The low j bits of the buffer are the next j bits of the stream.
    lemma {:induction false} Peek(j: nat)
      requires Valid() && j <= bitk
      ensures Pos() + j <= 8 * |input|
      ensures Low(bitb, j) == Val(Stream(input), Pos(), j)
    {
      hide Stream, Lsb, Low, Or, OrByte, Shl;
      var s := Stream(input)[Pos()..Pos() + held];
      LsbSplit(s, j);
      assert s[..j] == Stream(input)[Pos()..Pos() + j];
      OrZero(bitb);
      OrLow(bitb, front, bitk, j);
    }

    // Drop j bits (DUMPBITS).
    method Dump(j: nat)
      requires Valid() && j <= bitk
      modifies this`bitb, this`bitk, this`held
      ensures Valid() && Pos() == old(Pos()) + j && Left() == old(Left()) - j
      ensures bitk == old(bitk) - j
      ensures next == old(next) && avail == old(avail)
    {
      hide Stream, Lsb, Shr, Or, OrByte, Shl;
      ghost var s := Stream(input)[Pos()..Pos() + held];
      LsbSplit(s, j);
      assert s[j..] == Stream(input)[Pos() + j..Pos() + held];
      OrZero(bitb);
      OrZero(Shr(bitb, j));
      OrShr(bitb, front, bitk, j);
      bitb := Shr(bitb, j);
      bitk := bitk - j;
      held := held - j;
    }

    // Empty the buffer; there are no bits left over in it.
    method DumpAll()
      requires Valid() && bitk == 32
      modifies this`bitb, this`bitk, this`held
      ensures Valid() && Pos() == old(Pos()) + old(bitk) && Left() == old(Left()) - old(bitk)
      ensures held == 0 && area <= next
      ensures next == old(next) && avail == old(avail)
    {
      hide OrByte;
      bitb, bitk, held := 0, 0, 0;
    }

    // Give back c whole bytes, none of them from in front of the area unless one such byte has been given back before; the
    // buffer keeps their bits.
    method Return(c: nat)
      requires Valid() && 8 * c <= bitk && Start() + c <= next && (next < area + c ==> bitk < 8 * c + 8)
      modifies this`next, this`avail, this`bitk
      ensures Valid() && Pos() == old(Pos()) && Left() == old(Left())
      ensures bitk == old(bitk) - 8 * c && next == old(next) - c && avail == old(avail) + c
    {
      hide Stream, Lsb, Or, OrByte, Shl;
      if c > 0 {
        Plainly();
        if next - c < area {
          OrIntoStream(input, Pos(), held, area - 1, front);
          assert input[area - 1 := OrByte(input[area - 1], front)] == input;
        }
      }
      bitk := bitk - 8 * c;
      next := next - c;
      avail := avail + c;
    }

    // Give back one byte without asking where it came from (WASH). The byte lies in front of the area exactly when none of the
    // area has been taken; then it comes again or-ed with what lies there.
    method StepBack()
      requires Valid() && 8 <= bitk < 16
      modifies this`next, this`avail, this`bitk, this`input, this`strayed
      ensures Valid() && Pos() == old(Pos()) && Left() == old(Left())
      ensures bitk == old(bitk) - 8 && next == old(next) - 1 && avail == old(avail) + 1
      ensures next < area <==> old(next) == area
      ensures strayed == (old(strayed) || next < area)
      ensures input == if next < area then old(input)[next := OrByte(old(input)[next], front)] else old(input)
      ensures old(strayed) ==> input == old(input)
      ensures old(!strayed && Anchored()) ==> !strayed && Anchored() && input == old(input)
    {
      hide Stream, Lsb, Or, Shl;
      if next > area {
        Return(1);
        return;
      }
      Plainly();
      ghost var z := OrByte(input[area - 1], front);
      OrIntoStream(input, Pos(), held, area - 1, front);
      OrTwice(input[area - 1], front);
      input := input[area - 1 := z];
      strayed := true;
      bitk := bitk - 8;
      next := next - 1;
      avail := avail + 1;
    }

    // Take whole bytes past the empty buffer (the block copy of stored data).
    method TakeBytes(n: nat) returns (bytes: seq<byte>)
      requires Valid() && held == 0 && n <= avail
      modifies this`next, this`avail
      ensures Valid() && Pos() == old(Pos()) + 8 * n && Left() == old(Left()) - 8 * n
      ensures bytes == input[old(next)..old(next) + n]
      ensures held == 0 && next == old(next) + n && avail == old(avail) - n
    {
      hide OrByte;
      bytes := data[next..next + n];
      next := next + n;
      avail := avail - n;
    }

    // Give back the whole bytes among the unused bits, as far as they were taken since n0 bytes were available (UNGRAB).
    method Ungrab(n0: nat)
      requires Valid() && avail <= n0 <= Given() && Start() + n0 <= Given()
      requires Given() < area + n0 ==> Left() < 8 * n0 + 8
      modifies this`next, this`avail, this`bitk
      ensures Valid() && Pos() == old(Pos()) && Left() == old(Left())
      ensures avail <= n0 && bitk <= old(bitk) && (bitk < 8 || avail == n0)
    {
      hide OrByte, Stream, Lsb, Or;
      var c := n0 - avail;
      if bitk / 8 < c {
        c := bitk / 8;
      }
      Return(c);
    }

    // More of the data becomes available, behind what is there.
    method Supply(n: nat)
      requires Valid() && next + avail + n <= |data|
      modifies this`avail
      ensures Valid() && Pos() == old(Pos()) && avail == old(avail) + n
    {
      hide OrByte, Stream, Lsb, Or;
      avail := avail + n;
    }

    // What is left of the data continues in another area, behind the byte y.
    method Move(y: byte)
      requires Valid() && area <= next
      modifies this`area, this`front, this`strayed
      ensures Valid() && area == next && front == y && !strayed
    {
      hide OrByte, Stream, Lsb, Or;
      area, front, strayed := next, y, false;
    }
  }
}
