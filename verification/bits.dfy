// Bit strings, the numbers they denote, and the shifts and masks of the decoder.
//
// A stream is a sequence of bits in the order the decoder consumes them. Two readings of a bit string are needed:
// the bit buffer of the decoder and its table indices hold the first bit in the least significant place (Lsb),
// while a Huffman code is a number whose first transmitted bit is the most significant one (Msb).
//
// Shifts and masks are written as recursions on the shift count, so that every law about them is linear arithmetic.

module Bits {

  type byte = x: int | 0 <= x < 256

  function Bit(b: bool): nat {
    if b then 1 else 0
  }

  function Min(a: int, b: int): int {
    if a <= b then a else b
  }

  function Max(a: int, b: int): int {
    if a <= b then b else a
  }

  // The byte dist positions back from the end; nothing but zeros lies before the beginning.
  function Back(out: seq<byte>, dist: nat): byte {
    if 1 <= dist <= |out| then out[|out| - dist] else 0
  }

  // x << n
  function Shl(x: nat, n: nat): (r: nat)
    ensures r >= x
  {
    if n == 0 then x else 2 * Shl(x, n - 1)
  }

  // x >> n
  function Shr(x: nat, n: nat): (r: nat)
    ensures r <= x
  {
    if n == 0 then x else Shr(x / 2, n - 1)
  }

  // x & ((1 << n) - 1)
  function Low(x: nat, n: nat): (r: nat)
    ensures r <= x
  {
    if n == 0 then 0 else x % 2 + 2 * Low(x / 2, n - 1)
  }

  // 1 << n
  function Pow2(n: nat): (p: nat)
    ensures p > 0
  {
    Shl(1, n)
  }

  function Lsb(s: seq<bool>): nat {
    if s == [] then 0 else Bit(s[0]) + 2 * Lsb(s[1..])
  }

  function Msb(s: seq<bool>): nat {
    if s == [] then 0 else 2 * Msb(s[..|s| - 1]) + Bit(s[|s| - 1])
  }

  function Zeros(n: nat): (s: seq<bool>)
    ensures |s| == n
    ensures forall i :: 0 <= i < n ==> !s[i]
  {
    seq(n, _ => false)
  }

  // The k-bit string whose Msb reading is c.
  function CodeBits(c: nat, k: nat): (s: seq<bool>)
    ensures |s| == k
  {
    if k == 0 then [] else CodeBits(c / 2, k - 1) + [c % 2 == 1]
  }

  // The n-bit string whose Lsb reading is x.
  function LsbBits(x: nat, n: nat): (s: seq<bool>)
    ensures |s| == n
  {
    if n == 0 then [] else [x % 2 == 1] + LsbBits(x / 2, n - 1)
  }

  // ----- shifts

  lemma {:induction false} ShlAdd(x: nat, y: nat, n: nat)
    ensures Shl(x + y, n) == Shl(x, n) + Shl(y, n)
  {
    if n > 0 {
      ShlAdd(x, y, n - 1);
    }
  }

  lemma {:induction false} ShlShl(x: nat, a: nat, b: nat)
    ensures Shl(Shl(x, a), b) == Shl(x, a + b)
  {
    if b > 0 {
      ShlShl(x, a, b - 1);
    }
  }

  lemma {:induction false} ShlZero(n: nat)
    ensures Shl(0, n) == 0
  {
    if n > 0 {
      ShlZero(n - 1);
    }
  }

  lemma {:induction false} ShlMonotone(x: nat, y: nat, n: nat)
    requires x <= y
    ensures Shl(x, n) <= Shl(y, n)
    ensures x < y ==> Shl(x, n) + Pow2(n) <= Shl(y, n)
  {
    ShlAdd(x, y - x, n);
    if x < y {
      ShlAdd(1, y - x - 1, n);
    }
  }

  lemma {:induction false} Pow2Shl(a: nat, b: nat)
    ensures Shl(Pow2(a), b) == Pow2(a + b)
  {
    ShlShl(1, a, b);
  }

  lemma Pow2Monotone(a: nat, b: nat)
    requires a <= b
    ensures Pow2(a) <= Pow2(b)
  {
    ShlShl(1, a, b - a);
  }

  // Adding bits below the shifted ones does not disturb them.
  lemma {:induction false} ShrShl(x: nat, r: nat, n: nat)
    requires r < Pow2(n)
    ensures Shr(Shl(x, n) + r, n) == x
    ensures Low(Shl(x, n) + r, n) == r
  {
    if n > 0 {
      ShrShl(x, r / 2, n - 1);
      var y := Shl(x, n) + r;
      assert y / 2 == Shl(x, n - 1) + r / 2;
      assert y % 2 == r % 2;
    }
  }

  lemma {:induction false} ShrLow(x: nat, n: nat)
    ensures x == Shl(Shr(x, n), n) + Low(x, n)
    ensures Low(x, n) < Pow2(n)
  {
    if n > 0 {
      ShrLow(x / 2, n - 1);
    }
  }

  lemma {:induction false} ShrMonotone(x: nat, y: nat, n: nat)
    requires x <= y
    ensures Shr(x, n) <= Shr(y, n)
  {
    if n > 0 {
      ShrMonotone(x / 2, y / 2, n - 1);
    }
  }

  lemma {:induction false} ShrShr(x: nat, a: nat, b: nat)
    ensures Shr(Shr(x, a), b) == Shr(x, a + b)
  {
    if a > 0 {
      ShrShr(x / 2, a - 1, b);
    }
  }

  // ----- least significant bit first

  lemma {:induction false} LsbBound(s: seq<bool>)
    ensures Lsb(s) < Pow2(|s|)
  {
    if s != [] {
      LsbBound(s[1..]);
    }
  }

  lemma {:induction false} LsbConcat(a: seq<bool>, b: seq<bool>)
    ensures Lsb(a + b) == Lsb(a) + Shl(Lsb(b), |a|)
  {
    if a == [] {
      assert a + b == b;
    } else {
      LsbConcat(a[1..], b);
      assert (a + b)[1..] == a[1..] + b;
    }
  }

  lemma {:induction false} LsbZeros(n: nat)
    ensures Lsb(Zeros(n)) == 0
  {
    if n > 0 {
      LsbZeros(n - 1);
      assert Zeros(n)[1..] == Zeros(n - 1);
    }
  }

  lemma LsbPad(s: seq<bool>, n: nat)
    ensures Lsb(s + Zeros(n)) == Lsb(s)
  {
    LsbConcat(s, Zeros(n));
    LsbZeros(n);
    ShlZero(|s|);
  }

  lemma {:induction false} LsbInjective(a: seq<bool>, b: seq<bool>)
    requires |a| == |b| && Lsb(a) == Lsb(b)
    ensures a == b
  {
    if a != [] {
      LsbInjective(a[1..], b[1..]);
      assert a == [a[0]] + a[1..] && b == [b[0]] + b[1..];
    }
  }

  // Masking keeps a prefix and shifting drops it.
  lemma {:induction false} LsbSplit(s: seq<bool>, j: nat)
    requires j <= |s|
    ensures Low(Lsb(s), j) == Lsb(s[..j])
    ensures Shr(Lsb(s), j) == Lsb(s[j..])
  {
    if j > 0 {
      LsbSplit(s[1..], j - 1);
      assert s[..j][1..] == s[1..][..j - 1];
      assert s[1..][j - 1..] == s[j..];
    }
  }

  lemma {:induction false} LsbOfLsbBits(x: nat, n: nat)
    requires x < Pow2(n)
    ensures Lsb(LsbBits(x, n)) == x
  {
    if n > 0 {
      LsbOfLsbBits(x / 2, n - 1);
      assert LsbBits(x, n)[1..] == LsbBits(x / 2, n - 1);
    }
  }

  // ----- most significant bit first

  lemma {:induction false} MsbBound(s: seq<bool>)
    ensures Msb(s) < Pow2(|s|)
  {
    if s != [] {
      MsbBound(s[..|s| - 1]);
    }
  }

  lemma {:induction false} MsbInjective(a: seq<bool>, b: seq<bool>)
    requires |a| == |b| && Msb(a) == Msb(b)
    ensures a == b
  {
    if a != [] {
      var n := |a| - 1;
      MsbInjective(a[..n], b[..n]);
      assert a == a[..n] + [a[n]] && b == b[..n] + [b[n]];
    }
  }

  lemma {:induction false} MsbPrefix(s: seq<bool>, j: nat)
    requires j <= |s|
    ensures Msb(s[..j]) == Shr(Msb(s), |s| - j)
    decreases |s|
  {
    if j == |s| {
      assert s[..j] == s;
    } else {
      var t := s[..|s| - 1];
      MsbPrefix(t, j);
      assert t[..j] == s[..j];
      assert Msb(s) / 2 == Msb(t);
    }
  }

  lemma {:induction false} MsbCodeBits(c: nat, k: nat)
    requires c < Pow2(k)
    ensures Msb(CodeBits(c, k)) == c
  {
    if k > 0 {
      var s, q, r := CodeBits(c, k), c / 2, c % 2;
      assert c == 2 * q + r && 0 <= r < 2;
      assert q < Pow2(k - 1) by { assert Pow2(k) == 2 * Pow2(k - 1); }
      MsbCodeBits(q, k - 1);
      assert s[..k - 1] == CodeBits(q, k - 1) && s[k - 1] == (r == 1);
      assert Msb(s) == 2 * Msb(s[..k - 1]) + Bit(s[k - 1]);
    }
  }

  lemma {:induction false} MsbZeros(s: seq<bool>, n: nat)
    ensures Msb(s + Zeros(n)) == Shl(Msb(s), n)
  {
    if n == 0 {
      assert s + Zeros(n) == s;
    } else {
      MsbZeros(s, n - 1);
      var t := s + Zeros(n);
      assert t[..|t| - 1] == s + Zeros(n - 1);
    }
  }
}
