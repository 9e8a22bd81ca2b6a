// Adler-32 with the modulus deferred to every 5552 bytes (adler32), against the definition of section 2.2 of RFC 1950,
// which reduces after every byte.

module Adler {
  import opened Bits

  const BASE := 65521
  const NMAX := 5552
  const WORD := 0x1_0000_0000

  // ----- by definition

  function Mod(x: nat): nat {
    x % BASE
  }

  // The two halves of a checksum.
  function Lo(x: nat): nat {
    x % 0x10000
  }

  function Hi(x: nat): nat {
    x / 0x10000
  }

  datatype Sums = Sums(s1: nat, s2: nat)

  function Pack(s: Sums): nat {
    s.s2 * 0x10000 + s.s1
  }

  // Both sums after one more byte.
  function OneByte(adler: nat, x: byte): nat {
    var s1 := Mod(Lo(adler) + x);
    Pack(Sums(s1, Mod(Hi(adler) + s1)))
  }

  function Adler32(adler: nat, buf: seq<byte>): nat {
    if buf == [] then adler else OneByte(Adler32(adler, buf[..|buf| - 1]), buf[|buf| - 1])
  }

  lemma {:induction false} Composes(adler: nat, a: seq<byte>, b: seq<byte>)
    ensures Adler32(Adler32(adler, a), b) == Adler32(adler, a + b)
  {
    hide OneByte;
    if b == [] {
      assert a + b == a;
    } else {
      Composes(adler, a, b[..|b| - 1]);
      assert (a + b)[..|a + b| - 1] == a + b[..|b| - 1];
    }
  }

  // ----- sums that are not reduced

  function Plain(s: Sums, buf: seq<byte>): Sums {
    if buf == [] then s
    else
      var t := Plain(s, buf[..|buf| - 1]);
      Sums(t.s1 + buf[|buf| - 1], t.s2 + t.s1 + buf[|buf| - 1])
  }

  // The largest values possible after n bytes, from sums of at most 65535.
  function Most(n: nat): Sums {
    if n == 0 then Sums(65535, 65535)
    else
      var t := Most(n - 1);
      Sums(t.s1 + 255, t.s2 + t.s1 + 255)
  }

  lemma {:induction false} PlainBound(s: Sums, buf: seq<byte>)
    requires s.s1 <= 65535 && s.s2 <= 65535
    ensures Plain(s, buf).s1 <= Most(|buf|).s1 && Plain(s, buf).s2 <= Most(|buf|).s2
  {
    if buf != [] {
      PlainBound(s, buf[..|buf| - 1]);
    }
  }

  lemma {:induction false} MostIs(n: nat)
    ensures Most(n).s1 == 65535 + 255 * n
    ensures 2 * Most(n).s2 == 131070 + 131070 * n + 255 * (n * (n + 1))
  {
    if n > 0 {
      MostIs(n - 1);
      assert n * (n + 1) == (n - 1) * n + 2 * n;
    }
  }

  lemma {:induction false} MostGrows(m: nat, n: nat)
    requires m <= n
    ensures Most(m).s1 <= Most(n).s1 && Most(m).s2 <= Most(n).s2
  {
    if m < n {
      MostGrows(m, n - 1);
    }
  }

  // NMAX bytes cannot overflow a 32-bit word, whatever the sums are at first.
  lemma {:induction false} NoOverflow(s: Sums, buf: seq<byte>)
    requires s.s1 <= 65535 && s.s2 <= 65535 && |buf| <= NMAX
    ensures Plain(s, buf).s1 < WORD && Plain(s, buf).s2 < WORD
  {
    hide Plain, Most;
    PlainBound(s, buf);
    MostGrows(|buf|, NMAX);
    MostIs(NMAX);
  }

  function Reduce(s: Sums): Sums {
    Sums(Mod(s.s1), Mod(s.s2))
  }

  lemma ModAdd(a: nat, b: nat)
    ensures Mod(Mod(a) + b) == Mod(a + b)
    ensures Mod(a) < BASE
  {
  }

  lemma Unpack(s: Sums)
    requires s.s1 < 0x10000
    ensures Lo(Pack(s)) == s.s1 && Hi(Pack(s)) == s.s2
  {
  }

  lemma OneUnreduced(s: Sums, x: byte)
    requires s.s1 < 0x10000
    ensures OneByte(Pack(s), x) == Pack(Reduce(Sums(s.s1 + x, s.s2 + s.s1 + x)))
  {
    hide Mod, Lo, Hi, Pack;
    Unpack(s);
    ModAdd(s.s1 + x, s.s2);
  }

  lemma OneReduced(t: Sums, x: byte)
    ensures OneByte(Pack(Reduce(t)), x) == Pack(Reduce(Sums(t.s1 + x, t.s2 + t.s1 + x)))
  {
    hide OneByte, Pack, Mod;
    var r := Reduce(t);
    ModAdd(t.s1, x);
    OneUnreduced(r, x);
    ModAdd(t.s2, r.s1 + x);
    ModAdd(t.s1, t.s2 + x);
  }

  // Reducing once at the end is reducing after every byte.
  lemma {:induction false} Deferred(s: Sums, buf: seq<byte>)
    requires s.s1 < 0x10000 && buf != []
    ensures Pack(Reduce(Plain(s, buf))) == Adler32(Pack(s), buf)
  {
    hide OneByte, Pack, Reduce;
    var n := |buf| - 1;
    if n == 0 {
      assert buf[..n] == [];
      OneUnreduced(s, buf[n]);
    } else {
      Deferred(s, buf[..n]);
      OneReduced(Plain(s, buf[..n]), buf[n]);
    }
  }

  // ----- in closed form (section 9 of RFC 1950), where 65521 is the largest prime number below 65536

  function Total(buf: seq<byte>): nat {
    if buf == [] then 0 else buf[0] + Total(buf[1..])
  }

  // Every byte counts as often as there are bytes from it on.
  function Weighted(buf: seq<byte>): nat {
    if buf == [] then 0 else |buf| * buf[0] + Weighted(buf[1..])
  }

  lemma {:induction false} OneByteMore(buf: seq<byte>, x: byte)
    ensures Total(buf + [x]) == Total(buf) + x
    ensures Weighted(buf + [x]) == Weighted(buf) + Total(buf) + x
  {
    if buf != [] {
      OneByteMore(buf[1..], x);
      assert (buf + [x])[1..] == buf[1..] + [x];
      assert (|buf| + 1) * buf[0] == |buf| * buf[0] + buf[0];
    }
  }

  lemma {:induction false} PlainIs(s: Sums, buf: seq<byte>)
    ensures Plain(s, buf).s1 == s.s1 + Total(buf)
    ensures Plain(s, buf).s2 == s.s2 + |buf| * s.s1 + Weighted(buf)
  {
    hide Total, Weighted;
    if buf == [] {
      NothingCounts();
    } else {
      var n := |buf| - 1;
      PlainIs(s, buf[..n]);
      OneByteMore(buf[..n], buf[n]);
      assert buf == buf[..n] + [buf[n]];
      assert (n + 1) * s.s1 == n * s.s1 + s.s1;
    }
  }

  lemma NothingCounts()
    ensures Total([]) == 0 && Weighted([]) == 0
  {
  }

  lemma ClosedForm(a: nat, b: nat, buf: seq<byte>)
    requires a < 65536 && buf != []
    ensures Adler32(65536 * b + a, buf) == 65536 * ((b + |buf| * a + Weighted(buf)) % 65521) + (a + Total(buf)) % 65521
  {
    hide Adler32, Plain, Total, Weighted;
    PlainIs(Sums(a, b), buf);
    Deferred(Sums(a, b), buf);
  }

  // ----- the unrolled loop, in 32-bit arithmetic

  function Wrap(x: nat): nat {
    x % WORD
  }

  function Do1(s: Sums, x: byte): Sums {
    var s1 := Wrap(s.s1 + x);
    Sums(s1, Wrap(s.s2 + s1))
  }

  function Do2(s: Sums, buf: seq<byte>, i: nat): Sums
    requires i + 2 <= |buf|
  {
    Do1(Do1(s, buf[i]), buf[i + 1])
  }

  function Do4(s: Sums, buf: seq<byte>, i: nat): Sums
    requires i + 4 <= |buf|
  {
    Do2(Do2(s, buf, i), buf, i + 2)
  }

  function Do8(s: Sums, buf: seq<byte>, i: nat): Sums
    requires i + 8 <= |buf|
  {
    Do4(Do4(s, buf, i), buf, i + 4)
  }

  function Do16(s: Sums, buf: seq<byte>, i: nat): Sums
    requires i + 16 <= |buf|
  {
    Do8(Do8(s, buf, i), buf, i + 8)
  }

  // The sums of buf[lo..i].
  ghost function Sum(s: Sums, buf: seq<byte>, lo: nat, i: nat): Sums
    requires lo <= i <= |buf|
  {
    Plain(s, buf[lo..i])
  }

  ghost predicate Start(s: Sums) {
    s.s1 <= 65535 && s.s2 <= 65535
  }

  lemma Step1(s: Sums, buf: seq<byte>, lo: nat, i: nat)
    requires Start(s) && lo <= i < |buf| && i < lo + NMAX
    ensures Do1(Sum(s, buf, lo, i), buf[i]) == Sum(s, buf, lo, i + 1)
  {
    var b := buf[lo..i + 1];
    assert b[..|b| - 1] == buf[lo..i];
    NoOverflow(s, b);
  }

  lemma Step2(s: Sums, buf: seq<byte>, lo: nat, i: nat)
    requires Start(s) && lo <= i && i + 2 <= |buf| && i + 2 <= lo + NMAX
    ensures Do2(Sum(s, buf, lo, i), buf, i) == Sum(s, buf, lo, i + 2)
  {
    hide Do1, Sum;
    Step1(s, buf, lo, i);
    Step1(s, buf, lo, i + 1);
  }

  lemma Step4(s: Sums, buf: seq<byte>, lo: nat, i: nat)
    requires Start(s) && lo <= i && i + 4 <= |buf| && i + 4 <= lo + NMAX
    ensures Do4(Sum(s, buf, lo, i), buf, i) == Sum(s, buf, lo, i + 4)
  {
    hide Do2, Sum;
    Step2(s, buf, lo, i);
    Step2(s, buf, lo, i + 2);
  }

  lemma Step8(s: Sums, buf: seq<byte>, lo: nat, i: nat)
    requires Start(s) && lo <= i && i + 8 <= |buf| && i + 8 <= lo + NMAX
    ensures Do8(Sum(s, buf, lo, i), buf, i) == Sum(s, buf, lo, i + 8)
  {
    hide Do4, Sum;
    Step4(s, buf, lo, i);
    Step4(s, buf, lo, i + 4);
  }

  lemma Step16(s: Sums, buf: seq<byte>, lo: nat, i: nat)
    requires Start(s) && lo <= i && i + 16 <= |buf| && i + 16 <= lo + NMAX
    ensures Do16(Sum(s, buf, lo, i), buf, i) == Sum(s, buf, lo, i + 16)
  {
    hide Do8, Sum;
    Step8(s, buf, lo, i);
    Step8(s, buf, lo, i + 8);
  }

  // The sums of up to NMAX bytes from lo on.
  method Chunk(s0: Sums, buf: seq<byte>, lo: nat, k0: nat) returns (s: Sums)
    requires Start(s0) && lo + k0 <= |buf| && k0 <= NMAX
    ensures s == Sum(s0, buf, lo, lo + k0)
  {
    hide Do16, Do1, Sum;
    s := s0;
    var k, i := k0, lo;
    assert Sum(s0, buf, lo, lo) == s0 by { SumNothing(s0, buf, lo); }
    while k >= 16
      invariant lo <= i && i + k == lo + k0
      invariant s == Sum(s0, buf, lo, i)
    {
      Step16(s0, buf, lo, i);
      s := Do16(s, buf, i);
      i := i + 16;
      k := k - 16;
    }
    while k != 0
      invariant lo <= i && i + k == lo + k0
      invariant s == Sum(s0, buf, lo, i)
      decreases k
    {
      Step1(s0, buf, lo, i);
      s := Do1(s, buf[i]);
      i := i + 1;
      k := k - 1;
    }
  }

  lemma SumNothing(s: Sums, buf: seq<byte>, lo: nat)
    requires lo <= |buf|
    ensures Sum(s, buf, lo, lo) == s
  {
    assert buf[lo..lo] == [];
  }

  lemma ReducedStarts(s: Sums)
    ensures Start(Reduce(s))
  {
  }

  lemma Bounded(s: Sums)
    requires Start(s)
    ensures s.s1 < 0x10000
  {
  }

  // A chunk that is reduced at its end continues the checksum of what came before.
  lemma {:induction false} ChunkDone(adler: nat, s: Sums, buf: seq<byte>, lo: nat, k: nat)
    requires Start(s) && lo + k <= |buf| && k > 0 && Pack(s) == Adler32(adler, buf[..lo])
    ensures Pack(Reduce(Sum(s, buf, lo, lo + k))) == Adler32(adler, buf[..lo + k])
    ensures Start(Reduce(Sum(s, buf, lo, lo + k)))
  {
    hide Adler32, Plain, Pack, Mod, Start, Reduce;
    ReducedStarts(Sum(s, buf, lo, lo + k));
    Bounded(s);
    Deferred(s, buf[lo..lo + k]);
    Composes(adler, buf[..lo], buf[lo..lo + k]);
    assert buf[..lo] + buf[lo..lo + k] == buf[..lo + k];
  }

  method Checksum(adler: nat, buf: seq<byte>) returns (r: nat)
    requires adler < 0x1_0000_0000
    ensures r == Adler32(adler, buf)
    ensures
      var a, b := adler % 65536, adler / 65536;
      buf != [] ==> r == 65536 * ((b + |buf| * a + Weighted(buf)) % 65521) + (a + Total(buf)) % 65521
  {
    hide Adler32, Sum, Pack, Lo, Hi, Mod, Total, Weighted;
    var s := Sums(Lo(adler), Hi(adler));
    assert Pack(s) == adler && Start(s) by { Unpacked(adler); }
    var i := 0;
    assert Adler32(adler, buf[..0]) == adler by { AdlerNothing(adler, buf); }
    while i < |buf|
      invariant 0 <= i <= |buf| && Start(s)
      invariant Pack(s) == Adler32(adler, buf[..i])
    {
      var k := Min(|buf| - i, NMAX);
      ChunkDone(adler, s, buf, i, k);
      s := Chunk(s, buf, i, k);
      s := Reduce(s);
      i := i + k;
    }
    assert buf[..i] == buf;
    r := Pack(s);
    if buf != [] {
      ClosedForm(adler % 65536, adler / 65536, buf);
    }
  }

  lemma Unpacked(adler: nat)
    requires adler < 0x1_0000_0000
    ensures Pack(Sums(Lo(adler), Hi(adler))) == adler && Start(Sums(Lo(adler), Hi(adler)))
  {
  }

  lemma {:induction false} AdlerNothing(adler: nat, buf: seq<byte>)
    ensures Adler32(adler, buf[..0]) == adler
  {
    assert buf[..0] == [];
  }
}
