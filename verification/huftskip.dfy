// What goes wrong when a code skips a table level: one table is then made wider than the l bits by which further tables
// are reached, the entries of that table beyond its first 2^l are looked at but never written, and the walk ends on
// whatever they held before.

module HuftSkip {
  import opened Bits
  import opened Canonical
  import opened HuftTable
  import opened HuftLemmas
  import opened HuftBuild

  // ----- a skipped level makes a wide table

  lemma {:induction false} OnesPrefix(c: seq<bool>, n: nat)
    requires Msb(c) + 1 == Pow2(|c|) && n <= |c|
    ensures Msb(c[..n]) + 1 == Pow2(n)
  {
    hide Msb, Shl, Shr, Low, Pow2;
    var x, k := Msb(c[..n]), |c| - n;
    MsbPrefix(c, n);
    MsbBound(c[..n]);
    if x + 1 < Pow2(n) {
      ShrLow(Msb(c), k);
      ShlMonotone(x, x + 1, k);
      ShlMonotone(x + 1, Pow2(n), k);
      Pow2Shl(n, k);
      assert false;
    }
  }

  // The last codeword of a complete code is all ones.
  lemma LastCodeword(cnt: seq<nat>, g: nat)
    requires 1 <= g < |cnt| && End(cnt, g) == Pow2(g) && cnt[g] > 0
    ensures Total(cnt, g) > 0
    ensures
      var c := CodeList(cnt, g)[Total(cnt, g) - 1];
      |c| == g && Msb(c) + 1 == Pow2(g)
  {
    hide CodeList, CodeBits, Msb, Pow2;
    TotalUnfold(cnt, g);
    At(cnt, g, g, cnt[g] - 1);
    CodeFits(cnt, g, g, cnt[g] - 1);
    EndAfterFirst(cnt, g);
  }

  // A codeword that ends within l bits below a prefix of ones leaves fewer than 2^l patterns of that length unused.
  lemma ShortBelowOnes(cnt: seq<nat>, g: nat, p: seq<bool>, l: nat, i: nat)
    requires Fits(cnt, g) && i < Total(cnt, g) && p <= CodeList(cnt, g)[i]
    requires Msb(p) + 1 == Pow2(|p|) && |CodeList(cnt, g)[i]| <= |p| + l <= g
    ensures Pow2(|p| + l) < Pow2(l) + End(cnt, |p| + l)
  {
    hide Msb, Shl, Shr, Low, Pow2, CodeBits, CodeList, End;
    var k, r := Locate(cnt, g, i);
    var d, n, m := CodeList(cnt, g)[i], |p|, |p| + l;
    assert d[..n] == p;
    MsbPrefix(d, n);
    ShrLow(Msb(d), k - n);
    CodeFits(cnt, g, k, r);
    EndGrows(cnt, k, m);
    ShlMonotone(Shl(Msb(p), k - n), End(cnt, k), m - k);
    ShlShl(Msb(p), k - n, m - k);
    OnesShifted(Msb(p), n, l);
  }

  lemma {:induction false} OnesShifted(x: nat, n: nat, l: nat)
    requires x + 1 == Pow2(n)
    ensures Shl(x, l) + Pow2(l) == Pow2(n + l)
  {
    hide Shl;
    ShlAdd(x, 1, l);
    Pow2Shl(n, l);
    Pow2Shl(0, l);
  }

  // Every level above a table has a table on its way.
  lemma {:induction false} TableAtLevel(tab: seq<Entry>, tabs: Tabs, l: nat, p: seq<bool>, h: nat)
    requires l >= 1 && Links(tab, tabs, l) && p in tabs && [] in tabs && Level(h, l) <= |p|
    ensures p[..Level(h, l)] in tabs
  {
    hide Links;
    if h > 0 {
      TableAtLevel(tab, tabs, l, p, h - 1);
      StepBelow(tab, tabs, l, p, p[..Level(h - 1, l)]);
    } else {
      assert p[..0] == [];
    }
  }

  lemma WideTable(tab: seq<Entry>, tabs: Tabs, cd: Setting, hi: nat, plan: Plan) returns (p: seq<bool>)
    requires SettingOk(cd, plan) && End(cd.cnt, cd.g) == Pow2(cd.g) && cd.cnt[cd.g] > 0
    requires Built(tab, tabs, cd.l, cd.lo, hi, plan, |plan.cw|) && [] in tabs
    requires !NoSkip(cd.cnt, cd.l, cd.g)
    ensures p in tabs && tabs[p].bits > cd.l
  {
    hide CodeList, CodeBits, Msb, Pow2, End, Regions, Links, Ordered, Lsb, Low, Level, Total;
    var l := cd.l;
    var h :| h >= 2 && Level(h, l) < cd.g && Pow2(Level(h, l)) >= Pow2(l) + End(cd.cnt, Level(h, l));
    LastCodeword(cd.cnt, cd.g);
    var i := |plan.cw| - 1;
    var c := plan.cw[i];
    assert LeafOk(tab, tabs, l, plan, i);
    var n, home := Level(h - 1, l), plan.home[i];
    LevelStep(h, l);
    TableAtLevel(tab, tabs, l, home, h - 1);
    p := home[..n];
    assert p == c[..n];
    OnesPrefix(c, n);
    assert NodeOk(tabs, l, plan.cw, p);
    var via := tabs[p].via;
    if tabs[p].bits <= l {
      ShortBelowOnes(cd.cnt, cd.g, p, l, via);
      assert false;
    }
  }

  lemma LevelStep(h: nat, l: nat)
    requires h > 0
    ensures Level(h, l) == Level(h - 1, l) + l
  {
  }

  // The topmost of the wide tables on the way to a wide table.
  lemma {:induction false} FirstWide(tabs: Tabs, l: nat, p: seq<bool>) returns (q: seq<bool>)
    requires p in tabs && tabs[p].bits > l
    ensures q in tabs && tabs[q].bits > l && NarrowAbove(tabs, l, q)
    decreases |p|
  {
    if NarrowAbove(tabs, l, p) {
      q := p;
    } else {
      var r :| r in tabs && r < p && tabs[r].bits > l;
      q := FirstWide(tabs, l, r);
    }
  }

  // ----- a wide table has an entry that no codeword and no link owns

  lemma {:induction false} BeyondWidth(s: seq<bool>, l: nat, r: seq<bool>)
    requires |s| == l && |r| <= l && Fits'(Lsb(s) + Pow2(l), r)
    ensures r <= s
  {
    hide Lsb, Low, Pow2;
    LowLow(Lsb(s) + Pow2(l), |r|, l);
    LowPeriodic(Lsb(s), l);
    LowLow(Lsb(s), |r|, l);
    FitsItself(s);
    Overlap(Lsb(s), r, s);
  }

  // The way from a wide table on to the codeword it was made for.
  lemma WayOn(tab: seq<Entry>, tabs: Tabs, l: nat, lo: nat, hi: nat, plan: Plan, p: seq<bool>) returns (q: seq<bool>)
    requires Built(tab, tabs, l, lo, hi, plan, |plan.cw|) && p in tabs && tabs[p].bits > l
    ensures tabs[p].via < |plan.cw| && p <= q && |q| == |p| + l
    ensures
      var home := plan.home[tabs[p].via];
      |p| < |home| && q <= home < plan.cw[tabs[p].via]
  {
    hide Lsb, Low, Pow2, Regions, Links, Ordered;
    assert NodeOk(tabs, l, plan.cw, p);
    var via := tabs[p].via;
    assert LeafOk(tab, tabs, l, plan, via);
    var home := plan.home[via];
    StepBelow(tab, tabs, l, home, p);
    q := home[..|p| + l];
    assert p == plan.cw[via][..|p|] == home[..|p|];
  }

  lemma NotOwned(tab: seq<Entry>, tabs: Tabs, l: nat, lo: nat, hi: nat, plan: Plan, p: seq<bool>, q: seq<bool>)
    requires Built(tab, tabs, l, lo, hi, plan, |plan.cw|) && p in tabs && tabs[p].via < |plan.cw|
    requires p <= q && |q| == |p| + l && |p| < |plan.home[tabs[p].via]| && q <= plan.cw[tabs[p].via]
    ensures Free(plan, |plan.cw|, p, Lsb(q[|p|..]) + Pow2(l))
  {
    hide Lsb, Low, Pow2, Regions, Links, Nodes, Fits', Ordered;
    var s, via := q[|p|..], tabs[p].via;
    forall i | 0 <= i < |plan.cw| && plan.home[i] == p && p <= plan.cw[i]
      ensures !Fits'(Lsb(s) + Pow2(l), plan.cw[i][|p|..])
    {
      assert LeafOk(tab, tabs, l, plan, i);
      if Fits'(Lsb(s) + Pow2(l), plan.cw[i][|p|..]) {
        BeyondWidth(s, l, plan.cw[i][|p|..]);
        PrefixOfSum(p, plan.cw[i], q);
        OrderedPrefixFree(plan.cw, i, via);
        assert false;
      }
    }
  }

  lemma {:induction false} SlotInside(tabs: Tabs, l: nat, p: seq<bool>, s: seq<bool>)
    requires p in tabs && tabs[p].bits > l && |s| == l
    ensures Pow2(l) <= Lsb(s) + Pow2(l) < Pow2(tabs[p].bits)
  {
    hide Lsb;
    LsbBound(s);
    Pow2Monotone(l + 1, tabs[p].bits);
  }

  // An entry of the wide table p still as it was before: its index is s in the low l bits, and then a one.
  lemma UnwrittenEntry(tab: seq<Entry>, tabs: Tabs, cd: Setting, hi: nat, plan: Plan, p: seq<bool>) returns (s: seq<bool>)
    requires cd.l >= 1 && Built(tab, tabs, cd.l, cd.lo, hi, plan, |plan.cw|) && Clean(tab, cd.was, tabs, cd.l, hi, plan, |plan.cw|)
    requires p in tabs && tabs[p].bits > cd.l
    ensures |s| == cd.l && Lsb(s) + Pow2(cd.l) < Pow2(tabs[p].bits)
    ensures
      var a := tabs[p].base + Lsb(s) + Pow2(cd.l);
      cd.lo <= a < hi && a < |tab| == |cd.was| && tab[a] == cd.was[a]
  {
    hide Lsb, Low, Pow2, Links, Nodes, Leaves, Ordered, Free, Built;
    var q := WayOn(tab, tabs, cd.l, cd.lo, hi, plan, p);
    s := q[|p|..];
    SlotInside(tabs, cd.l, p, s);
    BuiltRegions(tab, tabs, cd, hi, plan, |plan.cw|);
    assert hi <= |tab| by { BuiltSize(tab, tabs, cd, hi, plan); }
    NotOwned(tab, tabs, cd.l, cd.lo, hi, plan, p, q);
    assert CleanAt(tab, cd.was, tabs[p], cd.l, p, plan, |plan.cw|);
  }

  lemma BuiltSize(tab: seq<Entry>, tabs: Tabs, cd: Setting, hi: nat, plan: Plan)
    requires Built(tab, tabs, cd.l, cd.lo, hi, plan, |plan.cw|)
    ensures hi <= |tab|
  {
  }

  // ----- the walk that ends there

  // A way to table p, then the index of the entry beyond 2^l.
  function Astray(p: seq<bool>, s: seq<bool>, bits: nat): seq<bool>
    requires bits > |s|
  {
    p + (s + ([true] + Zeros(bits - |s| - 1)))
  }

  lemma AstrayIndex(s: seq<bool>, bits: nat)
    requires bits > |s|
    ensures Lsb(s + ([true] + Zeros(bits - |s| - 1))) == Lsb(s) + Pow2(|s|)
  {
    hide Lsb;
    var n := bits - |s| - 1;
    LsbConcat(s, [true] + Zeros(n));
    LsbPad([true], n);
    LsbOne(true);
    Pow2Shl(0, |s|);
  }

  lemma {:induction false} WalkAstray(tab: seq<Entry>, tabs: Tabs, l: nat, lo: nat, hi: nat, p: seq<bool>, s: seq<bool>)
    requires l >= 1 && Links(tab, tabs, l) && Regions(tabs, lo, hi) && NarrowAbove(tabs, l, p)
    requires p in tabs && [] in tabs && tabs[p].bits > l && |s| == l
    requires var a := tabs[p].base + Lsb(s) + Pow2(l); a < |tab| && tab[a] == Entry(0, 0, 0)
    ensures Walk(tab, tabs[[]].base, tabs[[]].bits, Astray(p, s, tabs[p].bits)) == Leaf(Entry(0, 0, 0), |p|)
  {
    hide Lsb, Pow2, Links, Regions, NarrowAbove, Zeros;
    var bits := tabs[p].bits;
    var t, u := Astray(p, s, bits), s + ([true] + Zeros(bits - l - 1));
    assert p <= t + Zeros(0) by { assert t + Zeros(0) == p + (u + Zeros(0)); }
    WalkTo(tab, tabs, l, lo, hi, p, t, 0);
    assert t[|p|..] == u;
    AstrayIndex(s, bits);
    assert Take(u, bits) == u;
  }
}
