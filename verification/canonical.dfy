// The canonical Huffman code of section 3.2.2 of RFC 1951, stated on its own, before any table.
//
// A code is given by the code length of every symbol; length 0 means the symbol does not occur. All codes of one
// length are consecutive numbers, handed out in symbol order, and the first code of length k follows the last code
// of length k - 1 with a zero bit appended.

module Canonical {
  import opened Bits

  const BMAX := 15

  ghost predicate Lengths(lens: seq<nat>) {
    forall s :: 0 <= s < |lens| ==> lens[s] <= BMAX
  }

  // The number of symbols of code length k.
  function Count(lens: seq<nat>, k: nat): nat {
    if lens == [] then 0
    else Count(lens[..|lens| - 1], k) + (if lens[|lens| - 1] == k then 1 else 0)
  }

  // How many symbols there are of every length.
  function Counts(lens: seq<nat>): (cnt: seq<nat>)
    ensures |cnt| == BMAX + 1
    ensures forall k :: 0 <= k <= BMAX ==> cnt[k] == Count(lens, k)
  {
    seq(BMAX + 1, k requires 0 <= k <= BMAX => Count(lens, k))
  }

  // The number just after the last code of length k.
  function End(cnt: seq<nat>, k: nat): nat
    requires k < |cnt|
  {
    if k == 0 then 0 else 2 * End(cnt, k - 1) + cnt[k]
  }

  // The first code of length k.
  function First(cnt: seq<nat>, k: nat): nat
    requires k < |cnt|
  {
    if k == 0 then 0 else 2 * End(cnt, k - 1)
  }

  // The number of codes of length at most k.
  function Total(cnt: seq<nat>, k: nat): nat
    requires k < |cnt|
  {
    if k == 0 then 0 else Total(cnt, k - 1) + cnt[k]
  }

  // The number of earlier symbols of the same length.
  function Rank(lens: seq<nat>, s: nat): nat
    requires s < |lens|
  {
    Count(lens[..s], lens[s])
  }

  // The bits of the code of symbol s, in the order they appear in the stream.
  function Codeword(lens: seq<nat>, s: nat): (w: seq<bool>)
    requires Lengths(lens) && s < |lens|
    ensures |w| == lens[s]
  {
    CodeBits(First(Counts(lens), lens[s]) + Rank(lens, s), lens[s])
  }

  // ----- decoding one symbol, by definition

  datatype Decoded = Symbol(s: nat, used: nat) | Invalid | Incomplete

  // The first symbol from s on whose codeword the bits start with, or |lens|.
  function FindSymbol(lens: seq<nat>, t: seq<bool>, s: nat): (r: nat)
    requires Lengths(lens) && s <= |lens|
    ensures s <= r <= |lens|
    ensures r < |lens| ==> lens[r] > 0 && Codeword(lens, r) <= t
    ensures forall i :: s <= i < r ==> !(lens[i] > 0 && Codeword(lens, i) <= t)
    decreases |lens| - s
  {
    if s == |lens| || (lens[s] > 0 && Codeword(lens, s) <= t) then s else FindSymbol(lens, t, s + 1)
  }

  // Some codeword starts with all the bits there are.
  ghost predicate Extends(lens: seq<nat>, t: seq<bool>)
    requires Lengths(lens)
  {
    exists s :: 0 <= s < |lens| && lens[s] > 0 && t <= Codeword(lens, s)
  }

  // The symbol at the head of the bits; Incomplete when more bits could still make one, Invalid when none could.
  ghost function Decode(lens: seq<nat>, t: seq<bool>): (r: Decoded)
    requires Lengths(lens)
    ensures r.Symbol? ==> r.s < |lens| && r.used == lens[r.s] && 0 < r.used <= |t|
  {
    var s := FindSymbol(lens, t, 0);
    if s < |lens| then Symbol(s, lens[s])
    else if Extends(lens, t) then Incomplete
    else Invalid
  }

  // ----- the list of all codewords of a count table, in order of length and then of code

  // The codewords of length at most k.
  function CodeList(cnt: seq<nat>, k: nat): (w: seq<seq<bool>>)
    requires k < |cnt|
    ensures |w| == Total(cnt, k)
  {
    if k == 0 then [] else CodeList(cnt, k - 1) + seq(cnt[k], r requires 0 <= r => CodeBits(First(cnt, k) + r, k))
  }

  // No length has more codes than there are bit patterns left for it.
  ghost predicate Fits(cnt: seq<nat>, g: nat) {
    g < |cnt| && End(cnt, g) <= Pow2(g)
  }

  lemma {:induction false} EndGrows(cnt: seq<nat>, j: nat, k: nat)
    requires j <= k < |cnt|
    ensures Shl(End(cnt, j), k - j) <= End(cnt, k)
    ensures j < k ==> Shl(End(cnt, j), k - j) <= First(cnt, k)
  {
    if j < k {
      EndGrows(cnt, j, k - 1);
    }
  }

  lemma FitsBelow(cnt: seq<nat>, k: nat, g: nat)
    requires Fits(cnt, g) && k <= g
    ensures Fits(cnt, k)
  {
    EndGrows(cnt, k, g);
    if End(cnt, k) > Pow2(k) {
      ShlMonotone(Pow2(k), End(cnt, k), g - k);
      ShlShl(1, k, g - k);
    }
  }

  // The codeword at position i of the list is the r-th of length k.
  lemma {:induction false} Locate(cnt: seq<nat>, g: nat, i: nat) returns (k: nat, r: nat)
    requires g < |cnt| && i < Total(cnt, g)
    ensures 1 <= k <= g && r < cnt[k] && i == Total(cnt, k - 1) + r
    ensures CodeList(cnt, g)[i] == CodeBits(First(cnt, k) + r, k)
  {
    if i < Total(cnt, g - 1) {
      k, r := Locate(cnt, g - 1, i);
    } else {
      k, r := g, i - Total(cnt, g - 1);
    }
  }

  lemma {:induction false} At(cnt: seq<nat>, g: nat, k: nat, r: nat)
    requires 1 <= k <= g < |cnt| && r < cnt[k]
    ensures Total(cnt, k - 1) + r < Total(cnt, g)
    ensures CodeList(cnt, g)[Total(cnt, k - 1) + r] == CodeBits(First(cnt, k) + r, k)
  {
    if k < g {
      At(cnt, g - 1, k, r);
    }
  }

  lemma {:induction false} TotalMonotone(cnt: seq<nat>, j: nat, k: nat)
    requires j <= k < |cnt|
    ensures Total(cnt, j) <= Total(cnt, k)
  {
    if j < k {
      TotalMonotone(cnt, j, k - 1);
    }
  }

  // Codewords in list order: lengths do not fall, and each comes strictly before the later ones as a bit pattern.
  ghost predicate Before(a: seq<bool>, b: seq<bool>) {
    0 < |a| <= |b| && Msb(a) < Msb(b[..|a|])
  }

  ghost predicate Ordered(cw: seq<seq<bool>>) {
    forall i, j :: 0 <= i < j < |cw| ==> Before(cw[i], cw[j])
  }

  lemma EndAfterFirst(cnt: seq<nat>, k: nat)
    requires 1 <= k < |cnt|
    ensures End(cnt, k) == First(cnt, k) + cnt[k]
  {
  }

  lemma CodeFits(cnt: seq<nat>, g: nat, k: nat, r: nat)
    requires Fits(cnt, g) && 1 <= k <= g && r < cnt[k]
    ensures Msb(CodeBits(First(cnt, k) + r, k)) == First(cnt, k) + r < End(cnt, k)
  {
    hide End, First, Pow2, CodeBits, Msb;
    EndAfterFirst(cnt, k);
    FitsBelow(cnt, k, g);
    MsbCodeBits(First(cnt, k) + r, k);
  }

  lemma CodesAdvance(cnt: seq<nat>, k: nat, r: nat, k': nat, r': nat)
    requires 1 <= k < k' < |cnt| && r < cnt[k]
    ensures First(cnt, k) + r < Shr(First(cnt, k') + r', k' - k)
  {
    var c, n := First(cnt, k) + r, k' - k;
    EndGrows(cnt, k, k');
    ShlMonotone(c + 1, End(cnt, k), n);
    ShrMonotone(Shl(c + 1, n), First(cnt, k') + r', n);
    ShrShl(c + 1, 0, n);
  }

  lemma CodeBefore(cnt: seq<nat>, g: nat, k: nat, r: nat, k': nat, r': nat)
    requires Fits(cnt, g) && 1 <= k <= k' <= g && r < cnt[k] && r' < cnt[k']
    requires k < k' || r < r'
    ensures Before(CodeBits(First(cnt, k) + r, k), CodeBits(First(cnt, k') + r', k'))
  {
    var a, b := CodeBits(First(cnt, k) + r, k), CodeBits(First(cnt, k') + r', k');
    assert Msb(a) == First(cnt, k) + r by {
      CodeFits(cnt, g, k, r);
    }
    assert Msb(b[..k]) == Shr(First(cnt, k') + r', k' - k) by {
      CodeFits(cnt, g, k', r');
      MsbPrefix(b, k);
    }
    if k < k' {
      CodesAdvance(cnt, k, r, k', r');
    }
  }

  lemma {:induction false} CodeListOrdered(cnt: seq<nat>, g: nat)
    requires Fits(cnt, g)
    ensures Ordered(CodeList(cnt, g))
  {
    var cw := CodeList(cnt, g);
    forall i, j | 0 <= i < j < |cw|
      ensures Before(cw[i], cw[j])
    {
      var k, r := Locate(cnt, g, i);
      var k', r' := Locate(cnt, g, j);
      if k' < k {
        TotalMonotone(cnt, k', k - 1);
      }
      CodeBefore(cnt, g, k, r, k', r');
    }
  }

  // The codeword after a is a plus one, with zero bits appended up to its length.
  ghost predicate Successor(a: seq<bool>, b: seq<bool>) {
    |a| <= |b| && Msb(b) == Shl(Msb(a) + 1, |b| - |a|)
  }

  lemma {:induction false} TotalFlat(cnt: seq<nat>, j: nat, k: nat)
    requires j <= k < |cnt| && Total(cnt, j) == Total(cnt, k)
    ensures forall i :: j < i <= k ==> cnt[i] == 0
  {
    if j < k {
      TotalMonotone(cnt, j, k - 1);
      TotalFlat(cnt, j, k - 1);
    }
  }

  lemma {:induction false} EndBeyond(cnt: seq<nat>, g: nat, k: nat)
    requires g <= k < |cnt| && forall i :: g < i <= k ==> cnt[i] == 0
    ensures End(cnt, k) == Shl(End(cnt, g), k - g)
  {
    if g < k {
      EndBeyond(cnt, g, k - 1);
    }
  }

  lemma {:induction false} Consecutive(cnt: seq<nat>, g: nat, i: nat)
    requires Fits(cnt, g) && i + 1 < Total(cnt, g)
    ensures Successor(CodeList(cnt, g)[i], CodeList(cnt, g)[i + 1])
  {
    hide CodeList, Pow2, CodeBits, Msb, Shl;
    var k, r := Locate(cnt, g, i);
    var k', r' := Locate(cnt, g, i + 1);
    CodeFits(cnt, g, k, r);
    CodeFits(cnt, g, k', r');
    if k' < k {
      TotalMonotone(cnt, k', k - 1);
    } else if k < k' {
      TotalMonotone(cnt, k, k' - 1);
      TotalFlat(cnt, k, k' - 1);
      NextLength(cnt, k, k');
    } else {
      assert Shl(First(cnt, k) + r + 1, 0) == First(cnt, k) + r + 1 by { ShlNothing(First(cnt, k) + r + 1); }
    }
  }

  lemma {:induction false} ShlNothing(x: nat)
    ensures Shl(x, 0) == x
  {
  }

  lemma NextLength(cnt: seq<nat>, k: nat, k': nat)
    requires k < k' < |cnt| && forall i :: k < i < k' ==> cnt[i] == 0
    ensures First(cnt, k') == Shl(End(cnt, k), k' - k)
  {
    EndBeyond(cnt, k, k' - 1);
  }

  // A later codeword neither extends nor is extended by an earlier one.
  lemma BeforeIncomparable(a: seq<bool>, b: seq<bool>)
    requires Before(a, b)
    ensures !(a <= b) && !(b <= a)
  {
    var u := b[..|a|];
    assert a <= b ==> u == a;
    assert b <= a ==> u == a;
  }

  lemma OrderedPrefixFree(cw: seq<seq<bool>>, i: nat, j: nat)
    requires Ordered(cw) && i < |cw| && j < |cw| && i != j
    ensures !(cw[i] <= cw[j])
  {
    if i < j {
      BeforeIncomparable(cw[i], cw[j]);
    } else {
      BeforeIncomparable(cw[j], cw[i]);
    }
  }

  // Truncating to n bits keeps the order, though no longer strictly.
  lemma BeforeTruncated(a: seq<bool>, b: seq<bool>, n: nat)
    requires Before(a, b) && n <= |a|
    ensures Msb(a[..n]) <= Msb(b[..n])
  {
    MsbPrefix(a, n);
    MsbPrefix(b[..|a|], n);
    assert b[..|a|][..n] == b[..n];
    ShrMonotone(Msb(a), Msb(b[..|a|]), |a| - n);
  }

  // ----- a code that leaves no pattern unused covers every bit string

  // The code of length at most k whose interval contains the k-bit number x.
  lemma {:induction false} Covering(cnt: seq<nat>, k: nat, x: nat) returns (j: nat, r: nat)
    requires k < |cnt| && x < End(cnt, k)
    ensures 1 <= j <= k && r < cnt[j]
    ensures Shr(x, k - j) == First(cnt, j) + r
  {
    if x >= First(cnt, k) {
      j, r := k, x - First(cnt, k);
    } else {
      j, r := Covering(cnt, k - 1, x / 2);
    }
  }

  lemma {:induction false} CodeBitsMsb(s: seq<bool>)
    ensures CodeBits(Msb(s), |s|) == s
  {
    if s != [] {
      var n := |s| - 1;
      CodeBitsMsb(s[..n]);
      assert s == s[..n] + [s[n]];
    }
  }

  lemma CompleteCovers(cnt: seq<nat>, g: nat, t: seq<bool>) returns (i: nat)
    requires g < |cnt| && End(cnt, g) == Pow2(g) && |t| >= g
    ensures i < Total(cnt, g) && CodeList(cnt, g)[i] <= t
  {
    hide CodeList, Msb, CodeBits, End, First, Total;
    var u := t[..g];
    MsbBound(u);
    var j, r := Covering(cnt, g, Msb(u));
    i := Total(cnt, j - 1) + r;
    At(cnt, g, j, r);
    assert CodeBits(First(cnt, j) + r, j) == u[..j] by {
      MsbPrefix(u, j);
      CodeBitsMsb(u[..j]);
    }
  }

  // ----- oversubscription and completeness are statements about the Kraft sum

  // The Kraft sum in units of 2^-15.
  function Kraft(lens: seq<nat>): nat
    requires Lengths(lens)
  {
    if lens == [] then 0
    else Kraft(lens[..|lens| - 1]) + (if lens[|lens| - 1] == 0 then 0 else Pow2(BMAX - lens[|lens| - 1]))
  }

  // Adding one code of length j moves every later end by one code's worth.
  lemma {:induction false} EndOfOneMore(cnt: seq<nat>, cnt': seq<nat>, j: nat, k: nat)
    requires |cnt| == |cnt'| && k < |cnt|
    requires forall i :: 0 <= i < |cnt| ==> cnt'[i] == cnt[i] + (if i == j then 1 else 0)
    ensures End(cnt', k) == End(cnt, k) + (if 1 <= j <= k then Pow2(k - j) else 0)
  {
    if k > 0 {
      EndOfOneMore(cnt, cnt', j, k - 1);
    }
  }

  lemma {:induction false} EndOfNothing(cnt: seq<nat>, k: nat)
    requires k < |cnt| && forall i :: 1 <= i <= k ==> cnt[i] == 0
    ensures End(cnt, k) == 0
  {
    if k > 0 {
      EndOfNothing(cnt, k - 1);
    }
  }

  lemma {:induction false} KraftIsEnd(lens: seq<nat>)
    requires Lengths(lens)
    ensures Kraft(lens) == End(Counts(lens), BMAX)
  {
    if lens == [] {
      EndOfNothing(Counts(lens), BMAX);
    } else {
      var n := |lens| - 1;
      KraftIsEnd(lens[..n]);
      EndOfOneMore(Counts(lens[..n]), Counts(lens), lens[n], BMAX);
    }
  }

  // With g the longest length, comparing the Kraft sum with one is comparing the end of length g with 2^g.
  lemma {:induction false} KraftAtLongest(lens: seq<nat>, g: nat)
    requires Lengths(lens) && g <= BMAX
    requires forall k :: g < k <= BMAX ==> Count(lens, k) == 0
    ensures Kraft(lens) > Pow2(BMAX) <==> End(Counts(lens), g) > Pow2(g)
    ensures Kraft(lens) == Pow2(BMAX) <==> End(Counts(lens), g) == Pow2(g)
  {
    hide Pow2, Kraft, End, Shl;
    KraftIsEnd(lens);
    EndBeyond(Counts(lens), g, BMAX);
    var e, p, n := End(Counts(lens), g), Pow2(g), BMAX - g;
    assert Pow2(BMAX) == Shl(p, n) by {
      Pow2Shl(g, n);
    }
    if e < p {
      ShlMonotone(e, p, n);
    } else if e > p {
      ShlMonotone(p, e, n);
    }
  }
}
