// Building the multi-level decoding tables from code lengths (huft_build).
//
// The steps of the one long function of the source are separate methods here, in the same order and with the same
// variables: c the counts, k the current length, i the current code with its bits reversed, l the index bits of a full
// table, w the bits decoded before the current table, h its level, u the stack of tables, x the pattern that leads to
// each of them, q and z the current table and its size.

module HuftBuild {
  import opened Bits
  import opened Canonical
  import opened HuftTable
  import opened HuftLemmas
  import opened HuftSpace

  // The number of table entries there is room for.
  const MANY := 1440

  // ----- counting lengths

  method CountLengths(b: seq<nat>) returns (c: seq<nat>)
    requires Lengths(b)
    ensures c == Counts(b)
  {
    c := seq(BMAX + 1, _ => 0);
    for i := 0 to |b|
      invariant |c| == BMAX + 1
      invariant forall k :: 0 <= k <= BMAX ==> c[k] == Count(b[..i], k)
    {
      c := c[b[i] := c[b[i]] + 1];
      assert b[..i + 1][..i] == b[..i];
    }
    assert b[..|b|] == b;
  }

  // The shortest and the longest length in use, and the table width brought between them.
  method LengthBounds(c: seq<nat>, m: nat) returns (j: nat, g: nat, l: nat)
    requires |c| == BMAX + 1 && exists k :: 1 <= k <= BMAX && c[k] > 0
    ensures 1 <= j <= g <= BMAX && c[j] > 0 && c[g] > 0
    ensures forall k :: 1 <= k < j || g < k <= BMAX ==> c[k] == 0
    ensures l == (if Max(m, j) > g then g else Max(m, j))
  {
    l := m;
    j := 1;
    while j <= BMAX && c[j] == 0
      invariant 1 <= j <= BMAX + 1 && forall k :: 1 <= k < j ==> c[k] == 0
    {
      j := j + 1;
    }
    if l < j {
      l := j;
    }
    g := BMAX;
    while c[g] == 0
      invariant j <= g <= BMAX && forall k :: g < k <= BMAX ==> c[k] == 0
      decreases g
    {
      g := g - 1;
    }
    if l > g {
      l := g;
    }
  }

  // Whether the code fits, and how many patterns of the longest length it leaves unused.
  method UnusedPatterns(c: seq<nat>, j0: nat, g: nat) returns (fits: bool, y: int)
    requires |c| == BMAX + 1 && 1 <= j0 <= g <= BMAX && forall k :: 1 <= k < j0 ==> c[k] == 0
    ensures fits <==> End(c, g) <= Pow2(g)
    ensures fits ==> y == Pow2(g) - End(c, g)
  {
    hide Pow2;
    var j := j0;
    y := Pow2(j);
    EndOfNothing(c, j - 1);
    while j < g
      invariant j0 <= j <= g
      invariant y == Pow2(j) - First(c, j)
    {
      y := y - c[j];
      if y < 0 {
        if Fits(c, g) {
          FitsBelow(c, j, g);
          assert false;
        }
        return false, y;
      }
      DoublePow2(j);
      j := j + 1;
      y := 2 * y;
    }
    y := y - c[g];
    fits := y >= 0;
  }

  lemma DoublePow2(n: nat)
    ensures Pow2(n + 1) == 2 * Pow2(n)
  {
  }

  // ----- sorting the symbols by length

  // Where symbol s stands when symbols are listed by length and then by number.
  function Position(lens: seq<nat>, s: nat): nat
    requires Lengths(lens) && s < |lens| && lens[s] > 0
  {
    Total(Counts(lens), lens[s] - 1) + Rank(lens, s)
  }

  lemma {:induction false} CountPrefix(lens: seq<nat>, i: nat, k: nat)
    requires i <= |lens|
    ensures Count(lens[..i], k) <= Count(lens, k)
    ensures i < |lens| && lens[i] == k ==> Count(lens[..i], k) < Count(lens, k)
    decreases |lens|
  {
    if i == |lens| {
      assert lens[..i] == lens;
    } else {
      var t := lens[..|lens| - 1];
      CountPrefix(t, i, k);
      assert t[..i] == lens[..i];
    }
  }

  lemma {:induction false} PositionInside(lens: seq<nat>, s: nat, g: nat)
    requires Lengths(lens) && s < |lens| && 0 < lens[s] <= g <= BMAX
    ensures Position(lens, s) < Total(Counts(lens), lens[s]) <= Total(Counts(lens), g)
  {
    CountPrefix(lens, s, lens[s]);
    TotalMonotone(Counts(lens), lens[s], g);
  }

  lemma PositionInjective(lens: seq<nat>, s: nat, s': nat)
    requires Lengths(lens) && s < s' < |lens| && lens[s] > 0 && lens[s'] > 0
    ensures Position(lens, s) != Position(lens, s')
  {
    hide Count, Total;
    var k, k' := lens[s], lens[s'];
    if k < k' {
      PositionInside(lens, s, k' - 1);
    } else if k' < k {
      PositionInside(lens, s', k - 1);
    } else {
      CountPrefix(lens[..s'], s, k);
      assert lens[..s'][..s] == lens[..s];
    }
  }

  lemma {:induction false} TotalOfOneMore(cnt: seq<nat>, cnt': seq<nat>, j: nat, k: nat)
    requires |cnt| == |cnt'| && k < |cnt|
    requires forall i :: 0 <= i < |cnt| ==> cnt'[i] == cnt[i] + (if i == j then 1 else 0)
    ensures Total(cnt', k) == Total(cnt, k) + (if 1 <= j <= k then 1 else 0)
  {
    if k > 0 {
      TotalOfOneMore(cnt, cnt', j, k - 1);
    }
  }

  lemma {:induction false} TotalOfNothing(cnt: seq<nat>, k: nat)
    requires k < |cnt| && forall i :: 0 <= i < |cnt| ==> cnt[i] == 0
    ensures Total(cnt, k) == 0
  {
    if k > 0 {
      TotalOfNothing(cnt, k - 1);
    }
  }

  lemma {:induction false} TotalBound(lens: seq<nat>)
    requires Lengths(lens)
    ensures Total(Counts(lens), BMAX) <= |lens|
  {
    if lens == [] {
      TotalOfNothing(Counts(lens), BMAX);
    } else {
      var n := |lens| - 1;
      TotalBound(lens[..n]);
      TotalOfOneMore(Counts(lens[..n]), Counts(lens), lens[n], BMAX);
    }
  }

  // The r-th symbol of length k.
  lemma {:induction false} NthSymbol(lens: seq<nat>, k: nat, r: nat) returns (s: nat)
    requires r < Count(lens, k)
    ensures s < |lens| && lens[s] == k && Rank(lens, s) == r
  {
    var n := |lens| - 1;
    if r < Count(lens[..n], k) {
      s := NthSymbol(lens[..n], k, r);
      assert lens[..n][..s] == lens[..s];
    } else {
      s := n;
    }
  }

  // v lists the symbols in use in order of position.
  ghost predicate Sorted(b: seq<nat>, v: seq<nat>)
    requires Lengths(b)
  {
    forall s :: 0 <= s < |b| && b[s] > 0 ==> Position(b, s) < |v| && v[Position(b, s)] == s
  }

  // Starting offsets into the value table for each length.
  method Offsets(c: seq<nat>, g: nat) returns (x: seq<nat>)
    requires |c| == BMAX + 1 && 1 <= g <= BMAX
    ensures |x| == BMAX + 1 && forall k :: 1 <= k <= g ==> x[k] == Total(c, k - 1)
  {
    x := seq(BMAX + 1, _ => 0);
    var j, k := 0, 1;
    while k < g
      invariant 1 <= k <= g && |x| == BMAX + 1 && j == Total(c, k - 1)
      invariant forall k' :: 1 <= k' <= k ==> x[k'] == Total(c, k' - 1)
    {
      j := j + c[k];
      x := x[k + 1 := j];
      k := k + 1;
    }
  }

  // A table of values in order of bit lengths.
  method SortSymbols(b: seq<nat>, g: nat, x0: seq<nat>, v: array<nat>) returns (n: nat)
    requires Lengths(b) && 1 <= g <= BMAX && v.Length >= |b|
    requires forall s :: 0 <= s < |b| ==> b[s] <= g
    requires |x0| == BMAX + 1 && forall k :: 1 <= k <= g ==> x0[k] == Total(Counts(b), k - 1)
    modifies v
    ensures n == Total(Counts(b), g) <= v.Length
    ensures Sorted(b, v[..n])
  {
    hide Total, Count, Position;
    var x := x0;
    TotalBound(b);
    TotalMonotone(Counts(b), g, BMAX);
    assert forall k :: 1 <= k <= g ==> Count(b[..0], k) == 0 by {
      forall k | 1 <= k <= g
        ensures Count(b[..0], k) == 0
      {
        CountOfNothing(k);
      }
    }
    for i := 0 to |b|
      invariant |x| == BMAX + 1
      invariant forall k :: 1 <= k <= g ==> x[k] == Total(Counts(b), k - 1) + Count(b[..i], k)
      invariant forall s :: 0 <= s < i && b[s] > 0 ==> Position(b, s) < v.Length && v[Position(b, s)] == s
    {
      var j := b[i];
      if j != 0 {
        PositionInside(b, i, g);
        PositionUnfold(b, i);
        forall s | 0 <= s < i && b[s] > 0
          ensures Position(b, s) != Position(b, i)
        {
          PositionInjective(b, s, i);
        }
        v[x[j]] := i;
        x := x[j := x[j] + 1];
      }
      CountOneMore(b, i);
    }
    n := x[g];
    assert b[..|b|] == b;
    TotalUnfold(Counts(b), g);
    forall s | 0 <= s < |b| && b[s] > 0
      ensures Position(b, s) < n
    {
      PositionInside(b, s, g);
    }
  }

  lemma {:induction false} CountOfNothing(k: nat)
    ensures Count([], k) == 0
  {
  }

  lemma CountOneMore(b: seq<nat>, i: nat)
    requires i < |b|
    ensures forall k :: Count(b[..i + 1], k) == Count(b[..i], k) + (if b[i] == k then 1 else 0)
  {
    assert b[..i + 1][..i] == b[..i];
  }

  lemma PositionUnfold(b: seq<nat>, i: nat)
    requires Lengths(b) && i < |b| && b[i] > 0
    ensures Position(b, i) == Total(Counts(b), b[i] - 1) + Count(b[..i], b[i])
  {
  }

  lemma TotalUnfold(cnt: seq<nat>, k: nat)
    requires 0 < k < |cnt|
    ensures Total(cnt, k) == Total(cnt, k - 1) + cnt[k]
  {
  }

  // ----- the width of a new table

  // The least number of index bits that serves the table starting at the current code, up to l.
  method TableSize(c: seq<nat>, k: nat, a: nat, w: nat, l: nat, g: nat, ghost v: nat) returns (j: nat)
    requires |c| == BMAX + 1 && w < k <= g <= BMAX && a < c[k] && l >= 1
    requires First(c, k) + (c[k] - (a + 1)) == Shl(v, k - w)
    ensures k - w <= j && w + j <= g
    ensures j <= Max(k - w, l)
    ensures j >= l || w + j == g || End(c, w + j) >= Shl(v + 1, j)
    ensures if j == k - w then Pow2(j) <= a + 1 || (End(c, k) < Shl(v + 1, j) && (j >= l || k == g))
            else End(c, w + j - 1) < Shl(v + 1, j - 1)
  {
    hide Shl;
    var z := if g - w > l then l else g - w;
    j := k - w;
    var f: int := Pow2(j);
    ShlAdd(v, 1, j);
    assert End(c, k) == Shl(v, j) + (a + 1);
    if f > a + 1 {
      f := f - (a + 1);
      var xp := k;
      if j < z {
        j := j + 1;
        while j < z
          invariant k - w < j <= z && xp == w + j - 1
          invariant f == Shl(v + 1, j - 1) - End(c, w + j - 1) > 0
        {
          f := 2 * f;
          xp := xp + 1;
          ShlUnfold(v + 1, j);
          if f <= c[xp] {
            break;
          }
          f := f - c[xp];
          j := j + 1;
        }
      }
    }
  }

  lemma ShlUnfold(x: nat, n: nat)
    requires n > 0
    ensures Shl(x, n) == 2 * Shl(x, n - 1)
  {
  }

  // ----- filling in one code

  lemma {:induction false} LowPeriodic(x: nat, n: nat)
    ensures Low(x + Pow2(n), n) == Low(x, n)
  {
    if n > 0 {
      LowPeriodic(x / 2, n - 1);
      assert (x + Pow2(n)) / 2 == x / 2 + Pow2(n - 1);
    }
  }

  lemma {:induction false} LowGap(x: nat, y: nat, n: nat)
    requires x < y && Low(x, n) == Low(y, n)
    ensures x + Pow2(n) <= y
  {
    hide Shl, Low, Shr;
    ShrLow(x, n);
    ShrLow(y, n);
    if Shr(x, n) < Shr(y, n) {
      ShlMonotone(Shr(x, n), Shr(y, n), n);
    } else {
      ShlMonotone(Shr(y, n), Shr(x, n), n);
    }
  }

  lemma {:induction false} LowSmall(x: nat, n: nat)
    requires x < Pow2(n)
    ensures Low(x, n) == x
  {
    if n > 0 {
      LowSmall(x / 2, n - 1);
    }
  }

  // Fill code-like entries with r: every entry of the table whose index ends in the n bits first.
  method FillEntries(hp: array<Entry>, q: nat, z: nat, first: nat, n: nat, r: Entry)
    requires q + z <= hp.Length && first < Pow2(n)
    modifies hp
    ensures forall a :: q <= a < q + z && Low(a - q, n) == first ==> hp[a] == r
    ensures forall a :: 0 <= a < hp.Length && !(q <= a < q + z && Low(a - q, n) == first) ==> hp[a] == old(hp[a])
  {
    hide Low, Pow2;
    var f := Pow2(n);
    var j := first;
    LowSmall(first, n);
    while j < z
      invariant j >= first && Low(j, n) == first
      invariant forall a :: q <= a < q + z && a < q + j && Low(a - q, n) == first ==> hp[a] == r
      invariant forall a :: 0 <= a < hp.Length && !(q <= a < q + z && Low(a - q, n) == first) ==> hp[a] == old(hp[a])
      decreases z - j
    {
      hp[q + j] := r;
      LowPeriodic(j, n);
      forall j' | j < j' && Low(j', n) == first
        ensures j + f <= j'
      {
        LowGap(j, j', n);
      }
      j := j + f;
    }
  }

  // ----- the next code

  lemma CodeBitsLsb(c: nat, t: nat)
    requires t > 0
    ensures Lsb(CodeBits(c, t)) == Lsb(CodeBits(c / 2, t - 1)) + (if c % 2 == 1 then Pow2(t - 1) else 0)
  {
    LsbConcat(CodeBits(c / 2, t - 1), [c % 2 == 1]);
    ShlZero(t - 1);
    LsbOne(c % 2 == 1);
  }

  lemma LsbOne(b: bool)
    ensures Lsb([b]) == Bit(b)
  {
    assert [b][1..] == [];
  }

  lemma CodeBitsAppendZero(c: nat, k: nat)
    ensures CodeBits(2 * c, k + 1) == CodeBits(c, k) + Zeros(1)
    ensures Lsb(CodeBits(2 * c, k + 1)) == Lsb(CodeBits(c, k))
  {
    LsbPad(CodeBits(c, k), 1);
    assert CodeBits(2 * c, k + 1) == CodeBits(c, k) + Zeros(1);
  }

  lemma {:induction false} TopBit(i: nat, n: nat)
    requires i < Pow2(n + 1)
    ensures Shr(i, n) == if i >= Pow2(n) then 1 else 0
  {
    if n > 0 {
      TopBit(i / 2, n - 1);
    }
  }

  // Backwards increment the k-bit code i.
  method NextCode(i0: nat, k: nat, ghost c: nat) returns (i: nat)
    requires k >= 1 && i0 == Lsb(CodeBits(c, k))
    ensures i == Lsb(CodeBits(c + 1, k))
  {
    hide Pow2, Lsb, CodeBits;
    i := i0;
    var t := k;
    ghost var d := c;
    while t > 0 && Shr(i, t - 1) % 2 == 1
      invariant 0 <= t <= k
      invariant i == Lsb(CodeBits(d, t))
      invariant Lsb(CodeBits(d + 1, t)) == Lsb(CodeBits(c + 1, k))
    {
      TopBitOfCode(d, t);
      CodeBitsLsb(d, t);
      assert d + 1 == 2 * (d / 2 + 1);
      CodeBitsAppendZero(d / 2 + 1, t - 1);
      i := i - Pow2(t - 1);
      t := t - 1;
      d := d / 2;
    }
    if t > 0 {
      TopBitOfCode(d, t);
      CodeBitsLsb(d, t);
      CodeBitsLsb(d + 1, t);
      i := i + Pow2(t - 1);
    } else {
      EmptyCode(d);
      EmptyCode(d + 1);
    }
  }

  lemma {:induction false} EmptyCode(c: nat)
    ensures Lsb(CodeBits(c, 0)) == 0
  {
  }

  lemma {:induction false} TopBitOfCode(c: nat, t: nat)
    requires t > 0
    ensures Shr(Lsb(CodeBits(c, t)), t - 1) % 2 == c % 2
  {
    hide Lsb;
    var s := CodeBits(c, t);
    LsbSplit(s, t - 1);
    assert s[t - 1..] == [c % 2 == 1];
    LsbOne(c % 2 == 1);
  }

  // ----- the stack of open tables

  // h the level, w the bits decoded before the current table, q and z its start and size, hn the space used so far, r the
  // entry last written.
  datatype Stack = Stack(h: int, w: int, u: seq<nat>, x: seq<nat>, q: nat, z: nat, hn: nat, r: Entry)

  // The code being entered: its counts, the longest length, the width of a full table, the start of its table space, and
  // what the table space held before.
  datatype Setting = Setting(cnt: seq<nat>, g: nat, l: nat, lo: nat, was: seq<Entry>)

  ghost predicate SettingOk(cd: Setting, plan: Plan) {
    && |cd.cnt| == BMAX + 1 && 1 <= cd.l <= cd.g <= BMAX
    && Fits(cd.cnt, cd.g)
    && plan.cw == CodeList(cd.cnt, cd.g) && |plan.ops| == |plan.cw|
  }

  ghost predicate StackOk(st: Stack, path: seq<seq<bool>>, tabs: Tabs, l: nat) {
    && |st.u| == BMAX && |st.x| == BMAX + 1
    && st.h == |path| - 1 && |path| <= BMAX
    && Path(path, tabs, l)
    && st.x[0] == 0
    && (forall j :: 0 <= j < |path| ==> st.u[j] == tabs[path[j]].base && st.x[j] == Lsb(path[j]))
    && st.w == (if path == [] then 0 - l else |path[|path| - 1]|)
  }

  // q and z describe the innermost open table.
  ghost predicate Current(st: Stack, path: seq<seq<bool>>, tabs: Tabs) {
    && path != [] && path[|path| - 1] in tabs
    && st.q == tabs[path[|path| - 1]].base && st.z == Pow2(tabs[path[|path| - 1]].bits)
  }

  // The open tables are the tables on the way of codeword c, which does not end before the innermost.
  ghost predicate OnTheWay(path: seq<seq<bool>>, tabs: Tabs, c: seq<bool>) {
    if path == [] then tabs == map[]
    else path[|path| - 1] < c && Deepest(tabs, c, |path[|path| - 1]|) && Past(tabs, c)
  }

  lemma {:induction false} PathLevel(path: seq<seq<bool>>, tabs: Tabs, l: nat, j: nat)
    requires Path(path, tabs, l) && j < |path| && l >= 1
    ensures |path[j]| == Level(j, l) && |path[j]| >= j
  {
    if j > 0 {
      PathLevel(path, tabs, l, j - 1);
    }
  }

  // The first codeword is all zeros.
  lemma {:induction false} FirstCodeword(cnt: seq<nat>, g: nat)
    requires Fits(cnt, g) && Total(cnt, g) > 0
    ensures CodeList(cnt, g)[0] == Zeros(|CodeList(cnt, g)[0]|)
  {
    hide CodeList, CodeBits, Msb, Pow2;
    var k, r := Locate(cnt, g, 0);
    TotalMonotone(cnt, 0, k - 1);
    TotalFlat(cnt, 0, k - 1);
    EndOfNothing(cnt, k - 1);
    CodeFits(cnt, g, k, r);
    var c := CodeList(cnt, g)[0];
    MsbZeros([], |c|);
    assert [] + Zeros(|c|) == Zeros(|c|);
    assert Msb([]) == 0 by { MsbEmpty(); }
    ShlZero(|c|);
    MsbInjective(c, Zeros(|c|));
  }

  lemma MsbEmpty()
    ensures Msb([]) == 0
  {
  }

  // The place of the next table on the way of c.
  ghost function Place(path: seq<seq<bool>>, l: nat, c: seq<bool>): seq<bool>
    requires path != [] ==> |path[|path| - 1]| + l <= |c|
  {
    if path == [] then [] else c[..|path[|path| - 1]| + l]
  }

  // A table about to be opened starts exactly at the current code.
  lemma TableStart(tab: seq<Entry>, tabs: Tabs, cd: Setting, hi: nat, plan: Plan, n: nat, path: seq<seq<bool>>)
    requires SettingOk(cd, plan) && Built(tab, tabs, cd.l, cd.lo, hi, plan, n) && n < |plan.cw|
    requires Path(path, tabs, cd.l) && OnTheWay(path, tabs, plan.cw[n])
    requires if path == [] then n == 0 else |path[|path| - 1]| + cd.l < |plan.cw[n]|
    ensures
      var c, p := plan.cw[n], Place(path, cd.l, plan.cw[n]);
      p !in tabs && |p| < |c| && c == p + Zeros(|c| - |p|)
  {
    hide Msb, Links, Nodes, Regions, Leaves, CodeList, Successor, Before;
    var c, p := plan.cw[n], Place(path, cd.l, plan.cw[n]);
    assert |c| > 0 by { CodewordLength(cd.cnt, cd.g, n); }
    if path == [] {
      FirstCodeword(cd.cnt, cd.g);
      assert c == [] + Zeros(|c|);
    } else {
      assert p !in tabs by {
        assert |p| > |path[|path| - 1]| && p <= c;
      }
      if n == 0 {
        FirstCodeword(cd.cnt, cd.g);
        assert c == p + Zeros(|c| - |p|);
      } else {
        CodewordLength(cd.cnt, cd.g, n - 1);
        Consecutive(cd.cnt, cd.g, n - 1);
        FirstInTable(tab, tabs, cd.l, cd.lo, hi, plan, n, path[|path| - 1], n - 1);
        FirstContinuesWithZeros(plan.cw[n - 1], c, |p|);
      }
    }
  }

  lemma {:induction false} CodewordLength(cnt: seq<nat>, g: nat, i: nat)
    requires Fits(cnt, g) && i < Total(cnt, g)
    ensures 1 <= |CodeList(cnt, g)[i]| <= g
  {
    hide CodeBits;
    var k, r := Locate(cnt, g, i);
  }

  // What opening a table keeps and establishes.
  lemma {:induction false} Opened(tab: seq<Entry>, tab': seq<Entry>, tabs: Tabs, cd: Setting, hi: nat, plan: Plan, n: nat, path: seq<seq<bool>>, bits: nat, k: nat, r: nat)
    requires SettingOk(cd, plan) && Built(tab, tabs, cd.l, cd.lo, hi, plan, n) && n < |plan.cw| && cd.lo <= hi
    requires Path(path, tabs, cd.l) && OnTheWay(path, tabs, plan.cw[n])
    requires if path == [] then n == 0 && hi == cd.lo && k <= cd.l else |path[|path| - 1]| + cd.l < |plan.cw[n]|
    requires k == |plan.cw[n]| <= cd.g && r < cd.cnt[k] && Msb(plan.cw[n]) == First(cd.cnt, k) + r
    requires
      var p := Place(path, cd.l, plan.cw[n]);
      && k - |p| <= bits && |p| + bits <= cd.g && bits <= Max(k - |p|, cd.l)
      && (bits >= cd.l || |p| + bits == cd.g || End(cd.cnt, |p| + bits) >= Shl(Msb(p) + 1, bits))
    requires hi + Pow2(bits) <= |tab|
    requires
      if path == [] then tab' == tab
      else
        var p, up := Place(path, cd.l, plan.cw[n]), path[|path| - 1];
        var at := LinkAt(tabs, up, p);
        up in tabs && cd.lo <= at < hi && tab' == tab[at := Entry(bits, cd.l, hi - at)]
    ensures
      var p := Place(path, cd.l, plan.cw[n]);
      var tabs' := tabs[p := Node(hi, bits, n)];
      && Built(tab', tabs', cd.l, cd.lo, hi + Pow2(bits), plan, n)
      && Path(path + [p], tabs', cd.l)
      && OnTheWay(path + [p], tabs', plan.cw[n])
  {
    hide Msb, Links, Nodes, Regions, Leaves, CodeList, Before, Pow2, Lsb, End, First, Ordered, Path, Deepest, Past;
    var c, p := plan.cw[n], Place(path, cd.l, plan.cw[n]);
    TableStart(tab, tabs, cd, hi, plan, n, path);
    assert p < c by {
      assert p == c[..|p|];
    }
    OpenedPath(tabs, cd.l, path, c, p, Node(hi, bits, n));
    WideEnough(cd, plan, p, bits);
    if path == [] {
      GrowFirst(tab, cd.l, cd.lo, plan, bits);
      assert tabs[p := Node(hi, bits, n)] == map[[] := Node(cd.lo, bits, 0)];
    } else {
      BelowTop(tabs, cd, plan, n, path);
      GrowStep(tab, tab', tabs, cd.l, cd.lo, hi, plan, n, p, path[|path| - 1], bits);
    }
  }

  // Opening a table writes one link and takes over space that has not been written.
  lemma OpenedClean(tab: seq<Entry>, tab': seq<Entry>, tabs: Tabs, cd: Setting, hi: nat, plan: Plan, n: nat, path: seq<seq<bool>>, bits: nat)
    requires Built(tab, tabs, cd.l, cd.lo, hi, plan, n) && n < |plan.cw| && Clean(tab, cd.was, tabs, cd.l, hi, plan, n)
    requires Path(path, tabs, cd.l) && OnTheWay(path, tabs, plan.cw[n])
    requires if path == [] then n == 0 && hi == cd.lo else |path[|path| - 1]| + cd.l < |plan.cw[n]|
    requires Place(path, cd.l, plan.cw[n]) !in tabs
    requires
      if path == [] then tab' == tab
      else
        var p, up := Place(path, cd.l, plan.cw[n]), path[|path| - 1];
        var at := LinkAt(tabs, up, p);
        up in tabs && cd.lo <= at < hi && tab' == tab[at := Entry(bits, cd.l, hi - at)]
    ensures Clean(tab', cd.was, tabs[Place(path, cd.l, plan.cw[n]) := Node(hi, bits, n)], cd.l, hi + Pow2(bits), plan, n)
  {
    hide Regions, Nodes, Links, Leaves, Pow2, Lsb, LinkAt, Path, Clean, Ordered, Deepest, Past;
    var p := Place(path, cd.l, plan.cw[n]);
    if path == [] {
      CleanFirst(tab, cd.was, cd.l, cd.lo, plan, bits);
      assert tabs[p := Node(hi, bits, n)] == map[[] := Node(cd.lo, bits, 0)];
    } else {
      BelowTop'(tab, tabs, cd, hi, plan, n, path);
      GrowClean(tab, tab', cd.was, tabs, cd.l, cd.lo, hi, plan, n, p, path[|path| - 1], bits);
    }
  }

  lemma OpenedPath(tabs: Tabs, l: nat, path: seq<seq<bool>>, c: seq<bool>, p: seq<bool>, nd: Node)
    requires Path(path, tabs, l) && OnTheWay(path, tabs, c) && p < c && p !in tabs
    requires path != [] ==> |path[|path| - 1]| + l <= |c|
    requires p == Place(path, l, c)
    ensures Path(path + [p], tabs[p := nd], l) && OnTheWay(path + [p], tabs[p := nd], c)
  {
    hide Msb;
    var tabs', path' := tabs[p := nd], path + [p];
    assert p == c[..|p|];
    forall j | 0 <= j < |path'|
      ensures path'[j] in tabs'
      ensures j > 0 ==> |path'[j]| == |path'[j - 1]| + l && path'[j - 1] <= path'[j]
    {
    }
  }

  lemma WideEnough(cd: Setting, plan: Plan, p: seq<bool>, bits: nat)
    requires SettingOk(cd, plan) && |p| + bits <= cd.g
    requires bits >= cd.l || |p| + bits == cd.g || End(cd.cnt, |p| + bits) >= Shl(Msb(p) + 1, bits)
    ensures bits >= cd.l || forall i :: 0 <= i < |plan.cw| && p <= plan.cw[i] ==> |plan.cw[i]| <= |p| + bits
  {
    hide Msb, CodeList, End, First, Shl;
    if bits < cd.l {
      forall i | 0 <= i < |plan.cw| && p <= plan.cw[i]
        ensures |plan.cw[i]| <= |p| + bits
      {
        ReachesEnd(cd.cnt, cd.g, p, bits, i);
      }
    }
  }

  lemma BelowTop(tabs: Tabs, cd: Setting, plan: Plan, n: nat, path: seq<seq<bool>>)
    requires path != [] && Path(path, tabs, cd.l) && n < |plan.cw| && OnTheWay(path, tabs, plan.cw[n])
    requires Nodes(tabs, cd.l, plan.cw) && |path[|path| - 1]| + cd.l < |plan.cw[n]|
    ensures Below(tabs, cd.l, Place(path, cd.l, plan.cw[n]), path[|path| - 1])
  {
    hide Msb, Deepest, Past;
    var up := path[|path| - 1];
    assert NodeOk(tabs, cd.l, plan.cw, up);
  }

  // Unless the code skips a level, no table is wider than l bits.
  lemma {:induction false} OpenedNarrow(tabs: Tabs, cd: Setting, plan: Plan, n: nat, path: seq<seq<bool>>, p: seq<bool>, nd: Node, k: nat, r: nat)
    requires SettingOk(cd, plan) && n < |plan.cw| && Path(path, tabs, cd.l) && Narrow(tabs, cd.l)
    requires path != [] ==> |path[|path| - 1]| + cd.l < |plan.cw[n]|
    requires p == Place(path, cd.l, plan.cw[n]) && |p| < k <= cd.g && r < cd.cnt[k]
    requires First(cd.cnt, k) + r == Shl(Msb(p), k - |p|)
    requires nd.bits <= Max(k - |p|, cd.l) && (path == [] ==> k <= cd.l)
    requires NoSkip(cd.cnt, cd.l, cd.g)
    ensures Narrow(tabs[p := nd], cd.l)
  {
    hide Msb, Pow2, End, First;
    if path != [] && k - |p| > cd.l {
      PathLevel(path, tabs, cd.l, |path| - 1);
      assert |p| + cd.l == Level(|path| + 1, cd.l);
      SkipLeavesPatterns(cd.cnt, cd.g, p, cd.l, k, r);
      assert false;
    }
  }

  // ----- the space used

  // Two levels of tables below the first are enough, and the code leaves no pattern unused.
  ghost predicate Counted(cd: Setting) {
    |cd.cnt| == BMAX + 1 && cd.g <= BMAX && cd.g <= 3 * cd.l && End(cd.cnt, cd.g) == Pow2(cd.g)
  }

  // How wide a table can be.
  ghost function Widest(cd: Setting): nat
    requires |cd.cnt| == BMAX + 1 && cd.g <= BMAX
  {
    if NoSkip(cd.cnt, cd.l, cd.g) then cd.l else cd.g
  }

  // The space from lo to hn has been used sparingly before or within the work on codeword n.
  ghost predicate Roomy(cd: Setting, hn: nat, tabs: Tabs, cw: seq<seq<bool>>, n: nat) {
    Counted(cd) ==> Room(hn - cd.lo, tabs, cd.l, Widest(cd), cw, n, cd.g)
  }

  // The space that is enough for all tables.
  ghost function Needed(cd: Setting, cw: seq<seq<bool>>): nat
    requires |cd.cnt| == BMAX + 1 && cd.g <= BMAX
  {
    Space(|cw|, cd.l, cd.g, Widest(cd))
  }

  // A new table takes no more than the codes that follow it make up for.
  lemma NewTable(cd: Setting, plan: Plan, n: nat, p: seq<bool>, bits: nat, k: nat, a: nat, cap: nat) returns (to: nat)
    requires SettingOk(cd, plan) && Counted(cd) && n < |plan.cw| && |plan.cw[n]| == k && |p| < k <= cd.g && p <= plan.cw[n]
    requires a < cd.cnt[k] && n == Total(cd.cnt, k - 1) + (cd.cnt[k] - (a + 1))
    requires First(cd.cnt, k) + (cd.cnt[k] - (a + 1)) == Shl(Msb(p), k - |p|)
    requires k - |p| <= bits && |p| + bits <= cd.g && bits <= cap
    requires if bits == k - |p| then Pow2(bits) <= a + 1 || (End(cd.cnt, k) < Shl(Msb(p) + 1, bits) && (bits >= cd.l || k == cd.g))
             else End(cd.cnt, |p| + bits - 1) < Shl(Msb(p) + 1, bits - 1)
    ensures Spent(plan.cw, |p|, cap, n, p, bits, to, cd.g)
  {
    hide Msb, Shl, Pow2, CodeList, CodeBits, End, First, Total, Fits;
    var r, w, single := cd.cnt[k] - (a + 1), |p|, bits == k - |p| && Pow2(bits) <= a + 1;
    ListLength(cd, plan);
    if bits == k - w && !single && k == cd.g {
      PatternsEnd(p, cd.g);
      assert false;
    }
    to := if bits > k - w then w + bits else if single then k else k + 1;
    Pow2Monotone(bits, Min(to - w, cap));
    Below1(cd, p, k, r);
    if single {
      LaterBeyond(cd.cnt, cd.g, p, k, r, n, n);
    }
    forall i | n <= i < |plan.cw| && !(p <= plan.cw[i])
      ensures to <= |plan.cw[i]| && (single ==> n + Pow2(bits) <= i)
    {
      LaterLonger(cd.cnt, cd.g, p, n, i, to - 1);
      if single {
        LaterBeyond(cd.cnt, cd.g, p, k, r, n, i);
      }
    }
  }

  lemma ListLength(cd: Setting, plan: Plan)
    requires SettingOk(cd, plan)
    ensures |plan.cw| == Total(cd.cnt, cd.g)
  {
    hide Fits, Total;
  }

  // The shorter codes do not reach the end of the patterns below p.
  lemma {:induction false} Below1(cd: Setting, p: seq<bool>, k: nat, r: nat)
    requires |cd.cnt| == BMAX + 1 && |p| < k <= BMAX && First(cd.cnt, k) + r == Shl(Msb(p), k - |p|)
    ensures End(cd.cnt, k - 1) < Shl(Msb(p) + 1, k - 1 - |p|)
  {
    hide Msb, End, Shl;
    ShlUnfold(Msb(p), k - |p|);
    ShlAdd(Msb(p), 1, k - 1 - |p|);
  }

  lemma PatternsEnd(p: seq<bool>, g: nat)
    requires |p| <= g
    ensures Shl(Msb(p) + 1, g - |p|) <= Pow2(g)
  {
    hide Msb, Shl, Pow2;
    MsbBound(p);
    ShlMonotone(Msb(p) + 1, Pow2(|p|), g - |p|);
    Pow2Shl(|p|, g - |p|);
  }

  // The first table has been opened, or a table on the second or third level.
  lemma OpenedRoom(st: Stack, tabs: Tabs, path: seq<seq<bool>>, cd: Setting, plan: Plan, n: nat, bits: nat, k: nat, a: nat)
    requires SettingOk(cd, plan) && Roomy(cd, st.hn, tabs, plan.cw, n) && n < |plan.cw| && |plan.cw[n]| == k
    requires Path(path, tabs, cd.l) && (path == [] ==> n == 0 && st.hn == cd.lo && k <= cd.l) && cd.lo <= st.hn
    requires path != [] ==> |path[|path| - 1]| + cd.l < |plan.cw[n]|
    requires NoSkip(cd.cnt, cd.l, cd.g) ==> Narrow(tabs, cd.l)
    requires
      var p := Place(path, cd.l, plan.cw[n]);
      && |p| < k <= cd.g && p !in tabs && p <= plan.cw[n]
      && a < cd.cnt[k] && n == Total(cd.cnt, k - 1) + (cd.cnt[k] - (a + 1))
      && First(cd.cnt, k) + (cd.cnt[k] - (a + 1)) == Shl(Msb(p), k - |p|)
      && k - |p| <= bits && |p| + bits <= cd.g && bits <= Max(k - |p|, cd.l)
      && if bits == k - |p| then Pow2(bits) <= a + 1 || (End(cd.cnt, k) < Shl(Msb(p) + 1, bits) && (bits >= cd.l || k == cd.g))
         else End(cd.cnt, |p| + bits - 1) < Shl(Msb(p) + 1, bits - 1)
    ensures Roomy(cd, st.hn + Pow2(bits), tabs[Place(path, cd.l, plan.cw[n]) := Node(st.hn, bits, n)], plan.cw, n)
    ensures Counted(cd) ==> st.hn + Pow2(bits) <= cd.lo + Needed(cd, plan.cw)
  {
    hide Msb, Shl, Pow2, CodeList, CodeBits, End, First, Total, Room, Space, NoSkip, Path, Fits;
    if Counted(cd) {
      var p, nd := Place(path, cd.l, plan.cw[n]), Node(st.hn, bits, n);
      if path == [] {
        Pow2Monotone(bits, cd.l);
        RoomFirst(st.hn + Pow2(bits) - cd.lo, tabs[p := nd], cd.l, Widest(cd), plan.cw, cd.g);
      } else {
        SecondOrThird(tabs, path, cd, k);
        if NoSkip(cd.cnt, cd.l, cd.g) {
          OpenedNarrow(tabs, cd, plan, n, path, p, nd, k, cd.cnt[k] - (a + 1));
          NarrowAt(tabs[p := nd], cd.l, p);
        }
        var to := NewTable(cd, plan, n, p, bits, k, a, Widest(cd));
        RoomOpened(st.hn - cd.lo, tabs, cd.l, Widest(cd), plan.cw, n, p, nd, to, cd.g);
      }
      RoomBound(st.hn + Pow2(bits) - cd.lo, tabs[p := nd], cd.l, Widest(cd), plan.cw, n, cd.g);
    }
  }

  lemma NarrowAt(tabs: Tabs, l: nat, p: seq<bool>)
    requires Narrow(tabs, l) && p in tabs
    ensures tabs[p].bits <= l
  {
  }

  lemma SecondOrThird(tabs: Tabs, path: seq<seq<bool>>, cd: Setting, k: nat)
    requires path != [] && Path(path, tabs, cd.l) && cd.l >= 1 && |path[|path| - 1]| + cd.l < k <= 3 * cd.l
    ensures |path[|path| - 1]| == 0 || |path[|path| - 1]| == cd.l
  {
    hide Path;
    PathLevel(path, tabs, cd.l, |path| - 1);
    LevelAtLeast(|path| - 1, cd.l);
  }

  lemma {:induction false} LevelAtLeast(j: nat, l: nat)
    requires l >= 1
    ensures if j == 0 then Level(j, l) == 0 else if j == 1 then Level(j, l) == l else Level(j, l) >= 2 * l
  {
    if j > 1 {
      LevelAtLeast(j - 1, l);
    }
  }

  // ----- one code

  // The k-bit code being entered, and how many more of its length follow it.
  ghost predicate CodeAt(cd: Setting, plan: Plan, n: nat, k: nat, a: nat) {
    && SettingOk(cd, plan)
    && 1 <= k <= cd.g && a < cd.cnt[k] && n < |plan.cw|
    && n == Total(cd.cnt, k - 1) + (cd.cnt[k] - (a + 1))
  }

  lemma {:induction false} CodeAtFacts(cd: Setting, plan: Plan, n: nat, k: nat, a: nat)
    requires CodeAt(cd, plan, n, k, a)
    ensures n < |plan.cw|
    ensures plan.cw[n] == CodeBits(First(cd.cnt, k) + (cd.cnt[k] - (a + 1)), k) && |plan.cw[n]| == k
    ensures Msb(plan.cw[n]) == First(cd.cnt, k) + (cd.cnt[k] - (a + 1))
    ensures 1 <= k < |cd.cnt| == BMAX + 1 && a < cd.cnt[k] && cd.l >= 1
  {
    hide CodeList, CodeBits, Msb, Total, Pow2;
    At(cd.cnt, cd.g, k, cd.cnt[k] - (a + 1));
    CodeFits(cd.cnt, cd.g, k, cd.cnt[k] - (a + 1));
  }

  // The state before or within the work on codeword n.
  ghost predicate Working(tab: seq<Entry>, st: Stack, tabs: Tabs, path: seq<seq<bool>>, cd: Setting, plan: Plan, n: nat) {
    && SettingOk(cd, plan)
    && cd.lo <= st.hn && st.hn <= |tab|
    && Built(tab, tabs, cd.l, cd.lo, st.hn, plan, n)
    && Clean(tab, cd.was, tabs, cd.l, st.hn, plan, n)
    && (NoSkip(cd.cnt, cd.l, cd.g) ==> Narrow(tabs, cd.l))
    && StackOk(st, path, tabs, cd.l)
    && (n < |plan.cw| ==> OnTheWay(path, tabs, plan.cw[n]))
    && (path == [] ==> n == 0 && st.hn == cd.lo && |plan.cw| > 0 && |plan.cw[0]| <= cd.l)
    && Roomy(cd, st.hn, tabs, plan.cw, n)
  }

  // The reversed code's low bits lead to the new table, and the next l bits are its place in the table above.
  lemma {:induction false} PlaceBits(path: seq<seq<bool>>, l: nat, c: seq<bool>, p: seq<bool>)
    requires path != [] && |path[|path| - 1]| + l <= |c| && path[|path| - 1] <= c
    requires p == Place(path, l, c) && c == p + Zeros(|c| - |p|)
    ensures Lsb(c) == Lsb(p)
    ensures Shr(Lsb(c), |p| - l) == Lsb(p[|path[|path| - 1]|..])
  {
    hide Lsb, Zeros;
    var up := path[|path| - 1];
    LsbPad(p, |c| - |p|);
    LsbSplit(p, |up|);
  }

  // Make the next table on the way of the current code; false when there is no room for it.
  method OpenTable(hp: array<Entry>, st0: Stack, i: nat, k: nat, a: nat, c: seq<nat>, l: nat, g: nat,
                   ghost cd: Setting, ghost plan: Plan, ghost tabs0: Tabs, ghost path0: seq<seq<bool>>, ghost n: nat)
    returns (ok: bool, st: Stack, ghost tabs: Tabs, ghost path: seq<seq<bool>>)
    requires cd.cnt == c && cd.l == l && cd.g == g
    requires Working(hp[..], st0, tabs0, path0, cd, plan, n) && CodeAt(cd, plan, n, k, a)
    requires i == Lsb(plan.cw[n]) && k > st0.w + l && st0.hn <= MANY == hp.Length
    modifies hp
    ensures st.hn >= st0.hn && st.hn <= MANY
    ensures forall b :: 0 <= b < hp.Length && !(cd.lo <= b < st.hn) ==> hp[b] == old(hp[b])
    ensures ok ==> Working(hp[..], st, tabs, path, cd, plan, n) && Current(st, path, tabs)
    ensures ok ==> st.w == st0.w + l && st.w < k && path != []
    ensures ok && path0 == [] ==> st.r == st0.r
    ensures Counted(cd) ==> if ok then st.hn <= cd.lo + Needed(cd, plan.cw) else cd.lo + Needed(cd, plan.cw) > MANY
  {
    hide Room, Space, Built, Clean, Pow2, Lsb, End, First, Msb, NoSkip, Path, Level, CodeList, CodeBits, Fits, OnTheWay;
    CodeAtFacts(cd, plan, n, k, a);
    ghost var p := Place(path0, l, plan.cw[n]);
    ghost var tab := hp[..];
    StartFacts(tab, st0, tabs0, path0, cd, plan, n, k, a);
    st, tabs, path := st0, tabs0, path0;
    var h, w := st.h + 1, st.w + l;
    var j := TableSize(c, k, a, w, l, g, Msb(p));
    var z := Pow2(j);
    OpenedRoom(st0, tabs0, path0, cd, plan, n, j, k, a);
    if st.hn + z > MANY {
      ok := false;
      return;
    }
    var u := st.u[h := st.hn];
    var x := st.x;
    var r := st.r;
    if h > 0 {
      x := x[h := i];
      var at := u[h - 1] + Shr(i, w - l);
      r := Entry(j, l, st.hn - at);
      hp[at] := r;
    }
    st := Stack(h, w, u, x, st.hn, z, st.hn + z, r);
    tabs := tabs[p := Node(st0.hn, j, n)];
    path := path + [p];
    ok := true;
    OpenedWorking(tab, hp[..], st0, st, tabs0, path0, cd, plan, n, j, k, a);
  }

  // What TableSize and the link need to know about the place of the new table.
  lemma {:induction false} StartFacts(tab: seq<Entry>, st: Stack, tabs: Tabs, path: seq<seq<bool>>, cd: Setting, plan: Plan, n: nat, k: nat, a: nat)
    requires Working(tab, st, tabs, path, cd, plan, n) && CodeAt(cd, plan, n, k, a) && n < |plan.cw| && |plan.cw[n]| == k
    requires k > st.w + cd.l
    ensures path != [] ==> |path[|path| - 1]| + cd.l <= |plan.cw[n]|
    ensures
      var p := Place(path, cd.l, plan.cw[n]);
      && |p| == st.w + cd.l && p !in tabs && p < plan.cw[n]
      && First(cd.cnt, k) + (cd.cnt[k] - (a + 1)) == Shl(Msb(p), k - |p|)
      && Lsb(p) == Lsb(plan.cw[n]) && |path| < BMAX
      && (path != [] ==>
            var up := path[|path| - 1];
            && up in tabs && Shr(Lsb(plan.cw[n]), |p| - cd.l) == Lsb(p[|up|..])
            && cd.lo <= LinkAt(tabs, up, p) < st.hn && LinkAt(tabs, up, p) == st.u[|path| - 1] + Lsb(p[|up|..]))
  {
    hide Built, Clean, Pow2, Lsb, End, First, Msb, NoSkip, Level, CodeList, CodeBits, Fits, OnTheWay;
    var c, p := plan.cw[n], Place(path, cd.l, plan.cw[n]);
    CodeAtFacts(cd, plan, n, k, a);
    TableStart(tab, tabs, cd, st.hn, plan, n, path);
    MsbZeros(p, k - |p|);
    LsbPad(p, k - |p|);
    if path != [] {
      PathLevel(path, tabs, cd.l, |path| - 1);
      assert path[|path| - 1] <= c by { TopOnTheWay(path, tabs, c); }
      PlaceBits(path, cd.l, c, p);
      assert Below(tabs, cd.l, p, path[|path| - 1]) by { BelowTop'(tab, tabs, cd, st.hn, plan, n, path); }
      assert Regions(tabs, cd.lo, st.hn) by { BuiltRegions(tab, tabs, cd, st.hn, plan, n); }
      LinkAtInside(tabs, cd.l, cd.lo, st.hn, p, path[|path| - 1]);
    }
  }

  lemma TopOnTheWay(path: seq<seq<bool>>, tabs: Tabs, c: seq<bool>)
    requires path != [] && OnTheWay(path, tabs, c)
    ensures path[|path| - 1] < c
  {
  }

  lemma BelowTop'(tab: seq<Entry>, tabs: Tabs, cd: Setting, hi: nat, plan: Plan, n: nat, path: seq<seq<bool>>)
    requires Built(tab, tabs, cd.l, cd.lo, hi, plan, n) && path != [] && Path(path, tabs, cd.l) && n < |plan.cw|
    requires OnTheWay(path, tabs, plan.cw[n]) && |path[|path| - 1]| + cd.l < |plan.cw[n]|
    ensures Below(tabs, cd.l, Place(path, cd.l, plan.cw[n]), path[|path| - 1])
  {
    hide Msb, Regions, Links, Leaves, Ordered, Deepest, Past;
    BelowTop(tabs, cd, plan, n, path);
  }

  lemma BuiltRegions(tab: seq<Entry>, tabs: Tabs, cd: Setting, hi: nat, plan: Plan, n: nat)
    requires Built(tab, tabs, cd.l, cd.lo, hi, plan, n)
    ensures Regions(tabs, cd.lo, hi)
  {
  }

  // The stack after a table of j bits has been opened at p.
  ghost predicate Pushed(st: Stack, st': Stack, path: seq<seq<bool>>, cd: Setting, p: seq<bool>, j: nat) {
    && |st.u| == BMAX && |st.x| == BMAX + 1 && 0 <= st.h + 1 < BMAX
    && st'.h == st.h + 1 && st'.w == st.w + cd.l && st'.u == st.u[st.h + 1 := st.hn]
    && st'.x == (if path == [] then st.x else st.x[st.h + 1 := Lsb(p)])
    && st'.q == st.hn && st'.z == Pow2(j) && st'.hn == st.hn + Pow2(j)
  }

  lemma PushedStack(st: Stack, st': Stack, tabs: Tabs, path: seq<seq<bool>>, cd: Setting, p: seq<bool>, nd: Node)
    requires StackOk(st, path, tabs, cd.l) && |path| < BMAX
    requires Pushed(st, st', path, cd, p, nd.bits) && nd.base == st.hn && |p| == st.w + cd.l && p !in tabs
    requires Path(path + [p], tabs[p := nd], cd.l)
    ensures StackOk(st', path + [p], tabs[p := nd], cd.l) && Current(st', path + [p], tabs[p := nd])
  {
    hide Pow2, Lsb, Path;
    var tabs', path' := tabs[p := nd], path + [p];
    assert path == [] ==> Lsb(p) == 0 by { LsbEmpty(p); }
    forall m | 0 <= m < |path'|
      ensures path'[m] in tabs' && st'.u[m] == tabs'[path'[m]].base && st'.x[m] == Lsb(path'[m])
    {
      if m < |path| {
        assert path[m] in tabs by { InPath(path, tabs, cd.l, m); }
      }
    }
  }

  lemma InPath(path: seq<seq<bool>>, tabs: Tabs, l: nat, m: nat)
    requires Path(path, tabs, l) && m < |path|
    ensures path[m] in tabs
  {
  }

  lemma LsbEmpty(p: seq<bool>)
    ensures p == [] ==> Lsb(p) == 0
  {
  }

  lemma {:induction false} OpenedWorking(tab: seq<Entry>, tab': seq<Entry>, st: Stack, st': Stack, tabs: Tabs, path: seq<seq<bool>>, cd: Setting, plan: Plan, n: nat, j: nat, k: nat, a: nat)
    requires Working(tab, st, tabs, path, cd, plan, n) && CodeAt(cd, plan, n, k, a) && |plan.cw[n]| == k
    requires k > st.w + cd.l && st.hn + Pow2(j) <= |tab|
    requires path != [] ==> |path[|path| - 1]| + cd.l <= |plan.cw[n]|
    requires
      var p := Place(path, cd.l, plan.cw[n]);
      && |p| == st.w + cd.l && |path| < BMAX && p !in tabs && p < plan.cw[n]
      && k - |p| <= j && |p| + j <= cd.g && j <= Max(k - |p|, cd.l)
      && (j >= cd.l || |p| + j == cd.g || End(cd.cnt, |p| + j) >= Shl(Msb(p) + 1, j))
      && First(cd.cnt, k) + (cd.cnt[k] - (a + 1)) == Shl(Msb(p), k - |p|)
      && Pushed(st, st', path, cd, p, j)
      && if path == [] then tab' == tab
         else
           var up := path[|path| - 1];
           && up in tabs && cd.lo <= LinkAt(tabs, up, p) < st.hn
           && tab' == tab[LinkAt(tabs, up, p) := Entry(j, cd.l, st.hn - LinkAt(tabs, up, p))]
    requires Roomy(cd, st.hn + Pow2(j), tabs[Place(path, cd.l, plan.cw[n]) := Node(st.hn, j, n)], plan.cw, n)
    ensures
      var p := Place(path, cd.l, plan.cw[n]);
      var tabs' := tabs[p := Node(st.hn, j, n)];
      && Working(tab', st', tabs', path + [p], cd, plan, n)
      && Current(st', path + [p], tabs')
  {
    hide Roomy, Built, Clean, Pow2, Lsb, End, First, Msb, NoSkip, Level, CodeList, CodeBits, Fits, OnTheWay, Place,
         Path, LinkAt, Shl;
    var p := Place(path, cd.l, plan.cw[n]);
    CodeAtFacts(cd, plan, n, k, a);
    Opened(tab, tab', tabs, cd, st.hn, plan, n, path, j, k, cd.cnt[k] - (a + 1));
    OpenedClean(tab, tab', tabs, cd, st.hn, plan, n, path, j);
    if NoSkip(cd.cnt, cd.l, cd.g) {
      OpenedNarrow(tabs, cd, plan, n, path, p, Node(st.hn, j, n), k, cd.cnt[k] - (a + 1));
    }
    PushedStack(st, st', tabs, path, cd, p, Node(st.hn, j, n));
    hide StackOk, Current, Narrow;
  }

  // Make tables up to the level of the current code.
  method MakeTables(hp: array<Entry>, st0: Stack, i: nat, k: nat, a: nat, c: seq<nat>, l: nat, g: nat,
                    ghost cd: Setting, ghost plan: Plan, ghost tabs0: Tabs, ghost path0: seq<seq<bool>>, ghost n: nat)
    returns (ok: bool, st: Stack, ghost tabs: Tabs, ghost path: seq<seq<bool>>)
    requires cd.cnt == c && cd.l == l && cd.g == g
    requires Working(hp[..], st0, tabs0, path0, cd, plan, n) && CodeAt(cd, plan, n, k, a)
    requires i == Lsb(plan.cw[n]) && st0.hn <= MANY == hp.Length
    requires Current(st0, path0, tabs0) || k > st0.w + l
    modifies hp
    ensures st0.hn <= st.hn <= MANY
    ensures forall b :: 0 <= b < hp.Length && !(cd.lo <= b < st.hn) ==> hp[b] == old(hp[b])
    ensures ok ==> Working(hp[..], st, tabs, path, cd, plan, n) && Current(st, path, tabs)
    ensures ok ==> path != [] && st.w < k <= st.w + l
    ensures ok && (path0 == [] || g <= l) ==> st.r == st0.r
    ensures !ok && Counted(cd) ==> cd.lo + Needed(cd, plan.cw) > MANY
  {
    hide Working, Pow2, Lsb, Place, CodeList, CodeBits, Current, CodeAt;
    ok, st, tabs, path := true, st0, tabs0, path0;
    while k > st.w + l
      invariant Working(hp[..], st, tabs, path, cd, plan, n)
      invariant Current(st, path, tabs) || k > st.w + l
      invariant st0.hn <= st.hn <= MANY
      invariant forall b :: 0 <= b < hp.Length && !(cd.lo <= b < st.hn) ==> hp[b] == old(hp[b])
      invariant (st, path) == (st0, path0) ||
                (path != [] && (if path0 == [] then k <= st.w + l && st.r == st0.r else g > l))
      decreases k - st.w
    {
      WorkingWidth(hp[..], st, tabs, path, cd, plan, n, k, a);
      ok, st, tabs, path := OpenTable(hp, st, i, k, a, c, l, g, cd, plan, tabs, path, n);
      if !ok {
        return;
      }
    }
    WorkingWidth(hp[..], st, tabs, path, cd, plan, n, k, a);
  }

  lemma WorkingWidth(tab: seq<Entry>, st: Stack, tabs: Tabs, path: seq<seq<bool>>, cd: Setting, plan: Plan, n: nat, k: nat, a: nat)
    requires Working(tab, st, tabs, path, cd, plan, n) && CodeAt(cd, plan, n, k, a)
    ensures cd.l >= 1 && 1 <= k <= cd.g
    ensures if path == [] then st.w == 0 - cd.l && k <= cd.l else 0 <= st.w < k
  {
    hide Built, Clean, Path, Deepest, Past, NoSkip, CodeList, CodeBits;
    CodeAtFacts(cd, plan, n, k, a);
  }

  // ----- the meaning of a symbol

  // Symbols below s stand for themselves, 256 for the end of the block; the others have a base and a number of extra bits.
  function OpOf(sym: nat, s: nat, d: seq<nat>, e: seq<nat>): Op
    requires sym >= s ==> sym - s < |d| && sym - s < |e|
  {
    if sym < s then Op(if sym < 256 then 0 else 32 + 64, sym)
    else Op((e[sym - s] + 16 + 64) % 256, d[sym - s])
  }

  const INVALID_EXTRA := 112

  // The lists cover every symbol in use; an extra-bits entry is a count of bits or marks the symbol as invalid.
  ghost predicate ListsOk(b: seq<nat>, s: nat, d: seq<nat>, e: seq<nat>) {
    && |d| == |e|
    && (forall sym :: 0 <= sym < |b| && b[sym] > 0 && sym >= s ==> sym - s < |d|)
    && (forall i :: 0 <= i < |e| ==> e[i] < 16 || e[i] == INVALID_EXTRA)
  }

  ghost predicate SymbolsOk(v: seq<nat>, s: nat, d: seq<nat>, e: seq<nat>) {
    && |d| == |e|
    && (forall i :: 0 <= i < |v| ==> v[i] >= s ==> v[i] - s < |d|)
    && (forall i :: 0 <= i < |e| ==> e[i] < 16 || e[i] == INVALID_EXTRA)
  }

  // The meanings of the codewords in list order: the symbols in v, then patterns without a symbol.
  ghost function OpAt(v: seq<nat>, s: nat, d: seq<nat>, e: seq<nat>, known: bool, n: nat): Op
    requires SymbolsOk(v, s, d, e) && |v| > 0
  {
    if n < |v| then OpOf(v[n], s, d, e) else NoCode(known, OpOf(v[|v| - 1], s, d, e).base)
  }

  // The base value of the p-th listed symbol, or of the last one when the list is shorter.
  ghost function LastBase(v: seq<nat>, s: nat, d: seq<nat>, e: seq<nat>, p: nat): nat {
    if p > 0 && |v| > 0 && SymbolsOk(v, s, d, e) then OpOf(v[Min(p, |v|) - 1], s, d, e).base else 0
  }

  lemma OpNotLink(sym: nat, s: nat, d: seq<nat>, e: seq<nat>, r: Entry)
    requires sym >= s ==> sym - s < |d| && sym - s < |e| && (e[sym - s] < 16 || e[sym - s] == INVALID_EXTRA)
    requires r.exop == OpOf(sym, s, d, e).exop
    ensures !IsLink(r)
  {
    hide Shr;
    if sym >= s && e[sym - s] < 16 {
      FiveTimesSixteen(e[sym - s]);
    }
    SixthBits();
  }

  lemma SixthBits()
    ensures Flag(96, 6) && Flag(INVALID_CODE, 6)
  {
    ShrShl(1, 32, 6);
    ShrShl(3, 0, 6);
  }

  lemma FiveTimesSixteen(x: nat)
    requires x < 16
    ensures Shr(80 + x, 4) == 5
  {
    ShrShl(5, x, 4);
  }

  // Set up the table entry for the next value; out of values means an invalid code, and leaves the base as it was.
  method MakeEntry(v: seq<nat>, p: nat, s: nat, d: seq<nat>, e: seq<nat>, used: nat, r0: Entry, ghost known: bool) returns (r: Entry)
    requires SymbolsOk(v, s, d, e) && |v| > 0
    requires known && p > 0 ==> r0.base == LastBase(v, s, d, e, p)
    ensures r.bits == used && Matches(r, OpAt(v, s, d, e, known, p))
    ensures known ==> r.base == LastBase(v, s, d, e, p + 1)
  {
    hide Shr;
    if p >= |v| {
      r := Entry(128 + 64, used, r0.base);
      InvalidNotLink(r);
    } else {
      var sym := v[p];
      if sym < s {
        r := Entry(if sym < 256 then 0 else 32 + 64, used, sym);
      } else {
        r := Entry((e[sym - s] + 16 + 64) % 256, used, d[sym - s]);
      }
      OpNotLink(sym, s, d, e, r);
    }
  }

  lemma InvalidNotLink(r: Entry)
    requires r.exop == INVALID_CODE
    ensures !IsLink(r)
  {
    hide Shr;
    SixthBits();
  }

  // ----- back up over finished tables

  method BackUp(i: nat, st0: Stack, l: nat, ghost y: seq<bool>, ghost tabs: Tabs, ghost path0: seq<seq<bool>>)
    returns (st: Stack, ghost path: seq<seq<bool>>)
    requires l >= 1 && path0 != [] && StackOk(st0, path0, tabs, l)
    requires i == Lsb(y) && |path0[|path0| - 1]| <= |y|
    ensures path != [] && path <= path0 && path[|path| - 1] <= y
    ensures forall j :: |path| <= j < |path0| ==> !(path0[j] <= y)
    ensures StackOk(st, path, tabs, l)
    ensures st.(h := 0, w := 0) == st0.(h := 0, w := 0)
  {
    hide Lsb, Low;
    st, path := st0, path0;
    SameBits(y, path[st.h]);
    while Low(i, st.w) != st.x[st.h]
      invariant 0 <= st.h < |path0| && st == st0.(h := st.h, w := st.w)
      invariant path == path0[..st.h + 1] && StackOk(st, path, tabs, l)
      invariant |path[st.h]| <= |y|
      invariant Low(i, st.w) == st.x[st.h] <==> path[st.h] <= y
      invariant forall j :: st.h < j < |path0| ==> !(path0[j] <= y)
      decreases st.h
    {
      assert path[st.h] != [];
      st := st.(h := st.h - 1, w := st.w - l);
      path := path[..st.h + 1];
      SameBits(y, path[st.h]);
    }
  }

  lemma SameBits(y: seq<bool>, p: seq<bool>)
    requires |p| <= |y|
    ensures Low(Lsb(y), |p|) == Lsb(p) <==> p <= y
  {
    hide Lsb, Low;
    LsbSplit(y, |p|);
    if Low(Lsb(y), |p|) == Lsb(p) {
      LsbInjective(y[..|p|], p);
    }
    assert p <= y ==> y[..|p|] == p;
  }

  // ----- entering one code

  // The meanings in the plan are those of the listed symbols.
  ghost predicate PlanFor(plan: Plan, v: seq<nat>, s: nat, d: seq<nat>, e: seq<nat>, known: bool) {
    && SymbolsOk(v, s, d, e) && |v| > 0
    && |plan.ops| == |plan.cw|
    && forall n :: 0 <= n < |plan.ops| ==> plan.ops[n] == OpAt(v, s, d, e, known, n)
  }

  lemma BuiltMoreHomes(tab: seq<Entry>, tabs: Tabs, l: nat, lo: nat, hi: nat, plan: Plan, n: nat, p: seq<bool>)
    requires Built(tab, tabs, l, lo, hi, plan, n) && |plan.home| == n
    ensures Built(tab, tabs, l, lo, hi, plan.(home := plan.home + [p]), n)
  {
    hide Lsb, Pow2, Regions, Nodes, Links, Ordered, Fits', Matches;
    var plan' := plan.(home := plan.home + [p]);
    forall i | 0 <= i < n
      ensures LeafOk(tab, tabs, l, plan', i)
    {
      assert LeafOk(tab, tabs, l, plan, i);
    }
  }

  // Writing the entry of codeword n into the current table enters it.
  lemma Filled(tab: seq<Entry>, tab': seq<Entry>, st: Stack, tabs: Tabs, path: seq<seq<bool>>, cd: Setting, plan: Plan, n: nat, r: Entry)
    requires Working(tab, st, tabs, path, cd, plan, n) && Current(st, path, tabs) && n < |plan.cw| && |plan.home| == n
    requires st.w < |plan.cw[n]| <= st.w + cd.l && |tab'| == |tab|
    requires r.bits == |plan.cw[n]| - st.w && Matches(r, plan.ops[n])
    requires forall b :: st.q <= b < st.q + st.z && Low(b - st.q, |plan.cw[n]| - st.w) == Shr(Lsb(plan.cw[n]), st.w) ==> b < |tab'| && tab'[b] == r
    requires forall b :: 0 <= b < |tab| && !(st.q <= b < st.q + st.z && Low(b - st.q, |plan.cw[n]| - st.w) == Shr(Lsb(plan.cw[n]), st.w)) ==> tab'[b] == tab[b]
    ensures Built(tab', tabs, cd.l, cd.lo, st.hn, plan.(home := plan.home + [path[|path| - 1]]), n + 1)
    ensures Clean(tab', cd.was, tabs, cd.l, st.hn, plan.(home := plan.home + [path[|path| - 1]]), n + 1)
  {
    hide Built, Clean, Lsb, Low, Pow2, CodeList, Path, NoSkip, Deepest, Past, Fits, Matches;
    var p, c := path[|path| - 1], plan.cw[n];
    var plan' := plan.(home := plan.home + [p]);
    BuiltMoreHomes(tab, tabs, cd.l, cd.lo, st.hn, plan, n, p);
    LsbSplit(c, st.w);
    FillStep(tab, tab', tabs, cd.l, cd.lo, st.hn, plan', n, p, r);
    CleanMoreHomes(tab, tabs, cd, st.hn, plan, n, p);
    BuiltRegions(tab, tabs, cd, st.hn, plan, n);
    OwnedInside(tabs, cd.lo, st.hn, p, c);
    FillClean(tab, tab', cd.was, tabs, cd.l, cd.lo, st.hn, plan', n, n + 1, p);
  }

  lemma OwnedInside(tabs: Tabs, lo: nat, hi: nat, p: seq<bool>, c: seq<bool>)
    requires Regions(tabs, lo, hi) && p in tabs && p <= c
    ensures forall a :: hi <= a ==> !Owned(tabs, p, c, a)
  {
    hide Pow2, Lsb, Low;
  }

  lemma CleanMoreHomes(tab: seq<Entry>, tabs: Tabs, cd: Setting, hi: nat, plan: Plan, n: nat, p: seq<bool>)
    requires Clean(tab, cd.was, tabs, cd.l, hi, plan, n) && |plan.home| == n
    ensures Clean(tab, cd.was, tabs, cd.l, hi, plan.(home := plan.home + [p]), n)
  {
    hide Lsb, Pow2, Fits', Low;
    var plan' := plan.(home := plan.home + [p]);
    forall q, j: nat | Free(plan', n, q, j)
      ensures Free(plan, n, q, j)
    {
      forall i | 0 <= i < n && i < |plan.cw| && plan.home[i] == q && q <= plan.cw[i]
        ensures !Fits'(j, plan.cw[i][|q|..])
      {
        assert plan'.home[i] == q;
      }
    }
    forall q | q in tabs
      ensures CleanAt(tab, cd.was, tabs[q], cd.l, q, plan', n)
    {
      assert CleanAt(tab, cd.was, tabs[q], cd.l, q, plan, n);
    }
  }

  // The bits of the code after codeword n, as long as codeword n.
  lemma {:induction false} NextBits(cd: Setting, plan: Plan, n: nat, k: nat, a: nat)
    requires CodeAt(cd, plan, n, k, a) && n + 1 < |plan.cw|
    ensures |plan.cw[n + 1]| >= k && Before(plan.cw[n], plan.cw[n + 1])
    ensures plan.cw[n + 1][..k] == CodeBits(First(cd.cnt, k) + (cd.cnt[k] - (a + 1)) + 1, k)
  {
    hide CodeList, CodeBits, Msb, Shl, Shr, First, End, Pow2, Total;
    var c, d := plan.cw[n], plan.cw[n + 1];
    CodeAtFacts(cd, plan, n, k, a);
    Consecutive(cd.cnt, cd.g, n);
    CodeListOrdered(cd.cnt, cd.g);
    MsbPrefix(d, k);
    ShrOfShl(Msb(c) + 1, |d| - k);
    CodeBitsMsb(d[..k]);
  }

  // After backing up, the open tables are those on the way of the next codeword.
  lemma {:induction false} BackedUp(tab: seq<Entry>, tab': seq<Entry>, st: Stack, st': Stack, tabs: Tabs, path: seq<seq<bool>>, path': seq<seq<bool>>,
                 cd: Setting, plan: Plan, plan': Plan, n: nat, k: nat, a: nat)
    requires Working(tab, st, tabs, path, cd, plan, n) && Current(st, path, tabs) && CodeAt(cd, plan, n, k, a) && st.w < k
    requires plan'.cw == plan.cw && plan'.ops == plan.ops && Built(tab', tabs, cd.l, cd.lo, st.hn, plan', n + 1) && |tab'| == |tab|
    requires Clean(tab', cd.was, tabs, cd.l, st.hn, plan', n + 1)
    requires StackOk(st', path', tabs, cd.l) && st'.hn == st.hn && st'.q == st.q && st'.z == st.z
    requires path' != [] && path' <= path
    requires
      var y := CodeBits(First(cd.cnt, k) + (cd.cnt[k] - (a + 1)) + 1, k);
      && path'[|path'| - 1] <= y
      && forall j :: |path'| <= j < |path| ==> !(path[j] <= y)
    ensures Working(tab', st', tabs, path', cd, plan', n + 1)
    ensures n + 1 < |plan.cw| ==> Current(st', path', tabs) || |plan.cw[n + 1]| > st'.w + cd.l
  {
    hide Built, Clean, Path, Lsb, Pow2, CodeList, CodeBits, NoSkip, Fits, First, Narrow, OnTheWay, Before, Total;
    CodeAtFacts(cd, plan, n, k, a);
    RoomyLater(cd, st.hn, tabs, plan.cw, n);
    if n + 1 < |plan.cw| {
      NextBits(cd, plan, n, k, a);
      BuiltLinks(tab', tabs, cd.l, cd.lo, st.hn, plan', n + 1);
      BackedUpPath(tab', st, tabs, path, path', cd, plan.cw[n], plan.cw[n + 1], k);
    }
  }

  lemma RoomyLater(cd: Setting, hn: nat, tabs: Tabs, cw: seq<seq<bool>>, n: nat)
    requires Roomy(cd, hn, tabs, cw, n)
    ensures Roomy(cd, hn, tabs, cw, n + 1)
  {
    hide NoSkip, End, Pow2, Room;
    if Counted(cd) {
      RoomLater(hn - cd.lo, tabs, cd.l, Widest(cd), cw, n, n + 1, cd.g);
    }
  }

  lemma BuiltLinks(tab: seq<Entry>, tabs: Tabs, l: nat, lo: nat, hi: nat, plan: Plan, n: nat)
    requires Built(tab, tabs, l, lo, hi, plan, n)
    ensures Links(tab, tabs, l)
  {
  }

  lemma BackedUpPath(tab: seq<Entry>, st: Stack, tabs: Tabs, path: seq<seq<bool>>, path': seq<seq<bool>>, cd: Setting, c: seq<bool>, d: seq<bool>, k: nat)
    requires cd.l >= 1 && Links(tab, tabs, cd.l) && StackOk(st, path, tabs, cd.l)
    requires path != [] && OnTheWay(path, tabs, c) && Before(c, d) && |c| == k
    requires path' != [] && path' <= path && path'[|path'| - 1] <= d[..k]
    requires forall j :: |path'| <= j < |path| ==> !(path[j] <= d[..k])
    ensures OnTheWay(path', tabs, d)
    ensures path' != path ==> |path'[|path'| - 1]| + cd.l < |d|
  {
    hide Lsb, Msb, LinkOk, Links;
    var h := |path'| - 1;
    assert path'[h] == path[h];
    assert path[h] <= d by { assert d[..k] <= d; }
    forall j | h < j < |path|
      ensures !(path[j] <= d)
    {
      PathPrefix(path, tabs, cd.l, j, |path| - 1);
    }
    PathPrefix(path, tabs, cd.l, h, |path| - 1);
    DeepestAfterBackup(tab, tabs, cd.l, path, h, c, d);
    PastNext(tabs, c, d);
    if h + 1 < |path| {
      PathPrefix(path, tabs, cd.l, h + 1, |path| - 1);
    }
  }

  // The work between two codes: where the tables stand, how far the list has come, and the next code reversed.
  ghost predicate Between(tab: seq<Entry>, st: Stack, tabs: Tabs, path: seq<seq<bool>>, cd: Setting, plan: Plan, n: nat) {
    && Working(tab, st, tabs, path, cd, plan, n) && |plan.home| == n
    && (n < |plan.cw| ==> Current(st, path, tabs) || |plan.cw[n]| > st.w + cd.l)
  }

  // Enter codeword p into the innermost open table.
  method FillCode(hp: array<Entry>, st0: Stack, i: nat, k: nat, p: nat, v: seq<nat>, s: nat, d: seq<nat>, e: seq<nat>, ghost known: bool,
                  ghost cd: Setting, ghost plan: Plan, ghost tabs: Tabs, ghost path: seq<seq<bool>>, ghost a: nat)
    returns (st: Stack)
    requires PlanFor(plan, v, s, d, e, known) && |plan.home| == p
    requires Working(hp[..], st0, tabs, path, cd, plan, p) && CodeAt(cd, plan, p, k, a) && i == Lsb(plan.cw[p]) && |plan.cw[p]| == k
    requires Current(st0, path, tabs) && st0.w < k <= st0.w + cd.l
    requires known && p > 0 ==> st0.r.base == LastBase(v, s, d, e, p)
    modifies hp
    ensures st == st0.(r := st.r)
    ensures forall b :: 0 <= b < hp.Length && !(cd.lo <= b < st.hn) ==> hp[b] == old(hp[b])
    ensures path != [] && Built(hp[..], tabs, cd.l, cd.lo, st.hn, plan.(home := plan.home + [path[|path| - 1]]), p + 1)
    ensures Clean(hp[..], cd.was, tabs, cd.l, st.hn, plan.(home := plan.home + [path[|path| - 1]]), p + 1)
    ensures known ==> st.r.base == LastBase(v, s, d, e, p + 1)
  {
    hide Working, Low, Pow2, Lsb, CodeList, CodeBits, First, OpAt, OpOf, Matches, CodeAt, Built, Clean;
    CodeAtFacts(cd, plan, p, k, a);
    var r := MakeEntry(v, p, s, d, e, k - st0.w, st0.r, known);
    CurrentInside(hp[..], st0, tabs, path, cd, plan, p, k, a);
    ghost var tab := hp[..];
    FillEntries(hp, st0.q, st0.z, Shr(i, st0.w), k - st0.w, r);
    Filled(tab, hp[..], st0, tabs, path, cd, plan, p, r);
    st := st0.(r := r);
  }

  method EnterCode(hp: array<Entry>, st0: Stack, i0: nat, k: nat, a: nat, c: seq<nat>, l: nat, g: nat, p: nat,
                   v: seq<nat>, s: nat, d: seq<nat>, e: seq<nat>,
                   ghost cd: Setting, ghost plan0: Plan, ghost tabs0: Tabs, ghost path0: seq<seq<bool>>)
    returns (ok: bool, st: Stack, i: nat, ghost plan: Plan, ghost tabs: Tabs, ghost path: seq<seq<bool>>)
    requires cd.cnt == c && cd.l == l && cd.g == g && PlanFor(plan0, v, s, d, e, g <= l)
    requires Between(hp[..], st0, tabs0, path0, cd, plan0, p) && CodeAt(cd, plan0, p, k, a)
    requires i0 == Lsb(CodeBits(First(c, k) + (c[k] - (a + 1)), k)) && st0.hn <= MANY == hp.Length
    requires g <= l && p > 0 ==> st0.r.base == LastBase(v, s, d, e, p)
    modifies hp
    ensures st0.hn <= st.hn <= MANY
    ensures forall b :: 0 <= b < hp.Length && !(cd.lo <= b < st.hn) ==> hp[b] == old(hp[b])
    ensures ok ==> plan.cw == plan0.cw && plan.ops == plan0.ops && Between(hp[..], st, tabs, path, cd, plan, p + 1)
    ensures ok ==> i == Lsb(CodeBits(First(c, k) + (c[k] - a), k))
    ensures ok && g <= l ==> st.r.base == LastBase(v, s, d, e, p + 1)
    ensures ok ==> path != []
    ensures !ok && Counted(cd) ==> cd.lo + Needed(cd, plan0.cw) > MANY
  {
    hide Working, Low, Pow2, Lsb, CodeList, CodeBits, First, OpAt, OpOf, Built, Clean, CodeAt, Current, PlanFor,
         StackOk;
    plan := plan0;
    CodeAtFacts(cd, plan, p, k, a);
    ghost var code := First(c, k) + (c[k] - (a + 1));
    i := i0;
    ok, st, tabs, path := MakeTables(hp, st0, i, k, a, c, l, g, cd, plan, tabs0, path0, p);
    if !ok {
      return;
    }
    ghost var tab := hp[..];
    ghost var st2 := st;
    st := FillCode(hp, st, i, k, p, v, s, d, e, g <= l, cd, plan, tabs, path, a);
    i := NextCode(i, k, code);
    StackKeeps(tab, st2, st, tabs, path, cd, plan0, p);
    ghost var st1, path1 := st, path;
    plan := plan.(home := plan.home + [path[|path| - 1]]);
    st, path := BackUp(i, st, l, CodeBits(code + 1, k), tabs, path);
    BackedUp(tab, hp[..], st1, st, tabs, path1, path, cd, plan0, plan, p, k, a);
  }

  // The entry last written plays no part in the state of the tables.
  lemma CurrentInside(tab: seq<Entry>, st: Stack, tabs: Tabs, path: seq<seq<bool>>, cd: Setting, plan: Plan, n: nat, k: nat, a: nat)
    requires Working(tab, st, tabs, path, cd, plan, n) && Current(st, path, tabs) && CodeAt(cd, plan, n, k, a)
    requires st.w < k
    ensures cd.lo <= st.q && st.q + st.z <= st.hn <= |tab|
    ensures Shr(Lsb(plan.cw[n]), st.w) < Pow2(k - st.w)
    ensures StackOk(st, path, tabs, cd.l) && |path[|path| - 1]| == st.w
  {
    hide Lsb, Pow2, CodeList, CodeBits, Path, NoSkip, Ordered, Nodes, Links, Leaves, Deepest, Past, Clean;
    CodeAtFacts(cd, plan, n, k, a);
    LsbSplit(plan.cw[n], st.w);
    LsbBound(plan.cw[n][st.w..]);
  }

  lemma StackKeeps(tab: seq<Entry>, st: Stack, st': Stack, tabs: Tabs, path: seq<seq<bool>>, cd: Setting, plan: Plan, n: nat)
    requires Working(tab, st, tabs, path, cd, plan, n) && Current(st, path, tabs) && n < |plan.cw| && st' == st.(r := st'.r)
    ensures Working(tab, st', tabs, path, cd, plan, n) && Current(st', path, tabs)
    ensures StackOk(st', path, tabs, cd.l) && cd.l >= 1 && path != [] && |path[|path| - 1]| <= |plan.cw[n]|
  {
    hide Built, Clean, Lsb, Pow2, CodeList, Path, NoSkip, Deepest, Past;
  }

  // ----- all codes

  // Where the list has come before code a of length k counting from the end.
  ghost predicate Progress(cd: Setting, plan: Plan, n: nat, k: nat, a: nat, i: nat) {
    && SettingOk(cd, plan)
    && 1 <= k <= cd.g && a <= cd.cnt[k]
    && n == Total(cd.cnt, k - 1) + (cd.cnt[k] - a)
    && i == Lsb(CodeBits(First(cd.cnt, k) + (cd.cnt[k] - a), k))
  }

  lemma ProgressStart(cd: Setting, plan: Plan, k: nat)
    requires SettingOk(cd, plan) && 1 <= k <= cd.g && forall j :: 1 <= j < k ==> cd.cnt[j] == 0
    ensures Progress(cd, plan, 0, k, cd.cnt[k], 0)
  {
    EndOfNothing(cd.cnt, k - 1);
    TotalOfNothing'(cd.cnt, k - 1);
    CodeBitsZero(k);
  }

  lemma {:induction false} TotalOfNothing'(cnt: seq<nat>, k: nat)
    requires k < |cnt| && forall i :: 1 <= i <= k ==> cnt[i] == 0
    ensures Total(cnt, k) == 0
  {
    if k > 0 {
      TotalOfNothing'(cnt, k - 1);
    }
  }

  lemma {:induction false} CodeBitsZero(k: nat)
    ensures Lsb(CodeBits(0, k)) == 0
  {
    if k > 0 {
      CodeBitsZero(k - 1);
      CodeBitsAppendZero(0, k - 1);
    }
  }

  lemma ProgressNextLength(cd: Setting, plan: Plan, n: nat, k: nat, i: nat)
    requires Progress(cd, plan, n, k, 0, i) && k < cd.g
    ensures Progress(cd, plan, n, k + 1, cd.cnt[k + 1], i)
  {
    hide CodeBits, Lsb;
    CodeBitsAppendZero(End(cd.cnt, k), k);
  }

  lemma ProgressCode(cd: Setting, plan: Plan, n: nat, k: nat, a: nat, i: nat)
    requires Progress(cd, plan, n, k, a + 1, i)
    ensures CodeAt(cd, plan, n, k, a)
  {
    hide CodeBits, Lsb, CodeList;
    At(cd.cnt, cd.g, k, cd.cnt[k] - (a + 1));
  }

  // Everything known between two codes.
  ghost predicate Entering(tab: seq<Entry>, st: Stack, tabs: Tabs, path: seq<seq<bool>>, cd: Setting, plan: Plan, n: nat,
                           v: seq<nat>, s: nat, d: seq<nat>, e: seq<nat>) {
    && Between(tab, st, tabs, path, cd, plan, n)
    && PlanFor(plan, v, s, d, e, cd.g <= cd.l)
    && (cd.g <= cd.l && n > 0 ==> st.r.base == LastBase(v, s, d, e, n))
    && (path == [] ==> n == 0)
  }

  // Enter all codes of length k.
  method EnterLength(hp: array<Entry>, st0: Stack, i0: nat, p0: nat, k: nat, c: seq<nat>, l: nat, g: nat, v: seq<nat>, s: nat, d: seq<nat>, e: seq<nat>,
                     ghost cd: Setting, ghost plan0: Plan, ghost tabs0: Tabs, ghost path0: seq<seq<bool>>)
    returns (ok: bool, st: Stack, i: nat, p: nat, ghost plan: Plan, ghost tabs: Tabs, ghost path: seq<seq<bool>>)
    requires cd.cnt == c && cd.l == l && cd.g == g && PlanFor(plan0, v, s, d, e, g <= l)
    requires Entering(hp[..], st0, tabs0, path0, cd, plan0, p0, v, s, d, e)
    requires k < |c| && Progress(cd, plan0, p0, k, c[k], i0) && st0.hn <= MANY == hp.Length
    modifies hp
    ensures st0.hn <= st.hn <= MANY
    ensures forall b :: 0 <= b < hp.Length && !(cd.lo <= b < st.hn) ==> hp[b] == old(hp[b])
    ensures ok ==> Entering(hp[..], st, tabs, path, cd, plan, p, v, s, d, e) && Progress(cd, plan, p, k, 0, i)
    ensures ok ==> plan.cw == plan0.cw && plan.ops == plan0.ops
    ensures ok && (path0 != [] || c[k] > 0) ==> path != []
    ensures !ok && Counted(cd) ==> cd.lo + Needed(cd, plan0.cw) > MANY
  {
    hide Built, Clean, Lsb, Pow2, CodeList, Path, NoSkip, Fits, Total, Between, Working, CodeAt, PlanFor, Narrow, Space,
         Counted;
    ok, st, i, p, plan, tabs, path := true, st0, i0, p0, plan0, tabs0, path0;
    var a := c[k];
    while a > 0
      invariant Entering(hp[..], st, tabs, path, cd, plan, p, v, s, d, e)
      invariant Progress(cd, plan, p, k, a, i)
      invariant plan.cw == plan0.cw && plan.ops == plan0.ops
      invariant path != [] || (a == c[k] && path0 == [])
      invariant st0.hn <= st.hn <= MANY
      invariant forall b :: 0 <= b < hp.Length && !(cd.lo <= b < st.hn) ==> hp[b] == old(hp[b])
    {
      a := a - 1;
      ProgressCode(cd, plan, p, k, a, i);
      ghost var plan1 := plan;
      ok, st, i, plan, tabs, path := EnterCode(hp, st, i, k, a, c, l, g, p, v, s, d, e, cd, plan, tabs, path);
      if !ok {
        return;
      }
      p := p + 1;
      PlanForSame(plan1, plan, v, s, d, e, g <= l);
    }
  }

  // Go through the bit lengths and enter every code.
  method EnterCodes(hp: array<Entry>, hn: nat, c: seq<nat>, k0: nat, l: nat, g: nat, v: seq<nat>, s: nat, d: seq<nat>, e: seq<nat>,
                    ghost cd: Setting, ghost plan0: Plan)
    returns (ok: bool, st: Stack, ghost plan: Plan, ghost tabs: Tabs)
    requires SettingOk(cd, plan0) && PlanFor(plan0, v, s, d, e, g <= l) && cd == Setting(c, g, l, hn, hp[..])
    requires hn <= MANY == hp.Length && plan0.home == []
    requires 1 <= k0 <= g && c[k0] > 0 && k0 <= l && forall j :: 1 <= j < k0 ==> c[j] == 0
    modifies hp
    ensures hn <= st.hn <= MANY
    ensures forall b :: 0 <= b < hp.Length && !(hn <= b < st.hn) ==> hp[b] == old(hp[b])
    ensures ok ==> SettingOk(cd, plan) && PlanFor(plan, v, s, d, e, g <= l)
    ensures ok ==> Built(hp[..], tabs, l, hn, st.hn, plan, |plan.cw|)
    ensures ok ==> Clean(hp[..], cd.was, tabs, l, st.hn, plan, |plan.cw|)
    ensures ok ==> (NoSkip(c, l, g) ==> Narrow(tabs, l)) && [] in tabs && |st.u| > 0 && st.u[0] == tabs[[]].base
    ensures Counted(cd) ==> if ok then st.hn <= hn + Needed(cd, plan0.cw) else hn + Needed(cd, plan0.cw) > MANY
  {
    hide Built, Clean, Lsb, Pow2, CodeList, Path, NoSkip, Fits, Total, Between, Working, CodeAt, PlanFor, Narrow, Space,
         Counted;
    var i, p := 0, 0;
    var k := k0;
    plan, tabs := plan0, map[];
    ghost var path: seq<seq<bool>> := [];
    st := Stack(-1, 0 - l, seq(BMAX, _ => 0), seq(BMAX + 1, _ => 0), 0, 0, hn, Entry(0, 0, 0));
    ok := true;
    Start(hp[..], st, cd, plan, k);
    ProgressStart(cd, plan, k);
    while k <= g
      invariant k0 <= k <= g + 1
      invariant Entering(hp[..], st, tabs, path, cd, plan, p, v, s, d, e)
      invariant if k <= g then Progress(cd, plan, p, k, c[k], i) else Progress(cd, plan, p, g, 0, i)
      invariant plan.cw == plan0.cw && plan.ops == plan0.ops
      invariant path != [] || k == k0
      invariant hn <= st.hn <= MANY
      invariant forall b :: 0 <= b < hp.Length && !(hn <= b < st.hn) ==> hp[b] == old(hp[b])
    {
      ok, st, i, p, plan, tabs, path := EnterLength(hp, st, i, p, k, c, l, g, v, s, d, e, cd, plan, tabs, path);
      if !ok {
        return;
      }
      if k < g {
        ProgressNextLength(cd, plan, p, k, i);
      }
      k := k + 1;
    }
    Finish(hp[..], st, tabs, path, cd, plan, p, i);
  }

  lemma PlanForSame(plan: Plan, plan': Plan, v: seq<nat>, s: nat, d: seq<nat>, e: seq<nat>, known: bool)
    requires PlanFor(plan, v, s, d, e, known) && plan'.cw == plan.cw && plan'.ops == plan.ops
    ensures PlanFor(plan', v, s, d, e, known)
  {
    hide OpAt;
  }

  lemma Start(tab: seq<Entry>, st: Stack, cd: Setting, plan: Plan, k: nat)
    requires SettingOk(cd, plan) && 1 <= k <= cd.l && cd.cnt[k] > 0 && plan.home == []
    requires forall j :: 1 <= j < k ==> cd.cnt[j] == 0
    requires st.h == -1 && st.w == 0 - cd.l && |st.u| == BMAX && |st.x| == BMAX + 1 && st.x[0] == 0 && st.hn == cd.lo <= |tab| && tab == cd.was
    ensures Between(tab, st, map[], [], cd, plan, 0)
  {
    hide Lsb, Pow2, CodeList, CodeBits, NoSkip, Fits, Level, Room;
    if Counted(cd) {
      RoomFirst(0, map[], cd.l, Widest(cd), plan.cw, cd.g);
    }
    CodeListOrdered(cd.cnt, cd.g);
    At(cd.cnt, cd.g, k, 0);
    TotalOfNothing'(cd.cnt, k - 1);
  }

  lemma Finish(tab: seq<Entry>, st: Stack, tabs: Tabs, path: seq<seq<bool>>, cd: Setting, plan: Plan, n: nat, i: nat)
    requires Between(tab, st, tabs, path, cd, plan, n) && Progress(cd, plan, n, cd.g, 0, i) && path != []
    ensures n == |plan.cw| && Built(tab, tabs, cd.l, cd.lo, st.hn, plan, |plan.cw|)
    ensures Clean(tab, cd.was, tabs, cd.l, st.hn, plan, |plan.cw|)
    ensures (NoSkip(cd.cnt, cd.l, cd.g) ==> Narrow(tabs, cd.l)) && [] in tabs && |st.u| > 0 && st.u[0] == tabs[[]].base
    ensures Counted(cd) ==> st.hn <= cd.lo + Needed(cd, plan.cw)
  {
    hide Lsb, Built, Clean, CodeBits, NoSkip, Fits, Level, Room, Space;
    if Counted(cd) {
      RoomBound(st.hn - cd.lo, tabs, cd.l, Widest(cd), plan.cw, n, cd.g);
    }
  }
}
