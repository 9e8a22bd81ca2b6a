// The bookkeeping facts behind building the tables: where the codes of a table start, how wide a table has to be,
// and that the tables on the path of the current code are exactly those on the stack.

module HuftLemmas {
  import opened Bits
  import opened Canonical
  import opened HuftTable

  // ----- the path of open tables

  // The prefixes of the tables on the stack, each l bits longer than the one before.
  ghost predicate Path(path: seq<seq<bool>>, tabs: Tabs, l: nat) {
    && (path != [] ==> path[0] == [])
    && (forall j :: 0 <= j < |path| ==> path[j] in tabs)
    && (forall j :: 0 < j < |path| ==> |path[j]| == |path[j - 1]| + l && path[j - 1] <= path[j])
  }

  // No table on the way of c is longer than w.
  ghost predicate Deepest(tabs: Tabs, c: seq<bool>, w: nat) {
    forall p :: p in tabs && p <= c ==> |p| <= w
  }

  // Every table was opened on the way to c or an earlier code.
  ghost predicate Past(tabs: Tabs, c: seq<bool>) {
    forall p :: p in tabs ==> |p| < |c| && Msb(p) <= Msb(c[..|p|])
  }

  lemma {:induction false} PathPrefix(path: seq<seq<bool>>, tabs: Tabs, l: nat, i: nat, j: nat)
    requires Path(path, tabs, l) && i <= j < |path|
    ensures path[i] <= path[j] && |path[i]| <= |path[j]|
    decreases j - i
  {
    if i < j {
      PathPrefix(path, tabs, l, i, j - 1);
      assert path[j - 1] <= path[j];
    }
  }

  // Tables on one path are at least l bits apart.
  lemma {:induction false} Granular(tab: seq<Entry>, tabs: Tabs, l: nat, p: seq<bool>, q: seq<bool>)
    requires Links(tab, tabs, l) && p in tabs && q in tabs && |q| < |p|
    ensures |q| + l <= |p|
    decreases |p|
  {
    hide Lsb;
    assert LinkOk(tab, tabs, l, p);
    if q != [] && l > 0 {
      assert LinkOk(tab, tabs, l, q);
      Granular(tab, tabs, l, p[..|p| - l], q[..|q| - l]);
    }
  }

  // The table one step below q on the way to a longer table.
  lemma {:induction false} StepBelow(tab: seq<Entry>, tabs: Tabs, l: nat, p: seq<bool>, q: seq<bool>)
    requires l >= 1 && Links(tab, tabs, l) && p in tabs && q in tabs && |q| < |p|
    ensures |q| + l <= |p| && p[..|q| + l] in tabs
    decreases |p|
  {
    hide Lsb;
    Granular(tab, tabs, l, p, q);
    if |p| == |q| + l {
      assert p[..|p|] == p;
    } else {
      assert LinkOk(tab, tabs, l, p);
      var up := p[..|p| - l];
      StepBelow(tab, tabs, l, up, q);
      assert up[..|q| + l] == p[..|q| + l];
    }
  }

  // A table that is not past c and lies on the way of the next code also lies on the way of c.
  lemma Contiguous(tabs: Tabs, c: seq<bool>, d: seq<bool>, p: seq<bool>)
    requires Past(tabs, c) && Before(c, d) && p in tabs && p <= d
    ensures p <= c
  {
    hide Msb;
    BeforeTruncated(c, d, |p|);
    assert d[..|p|] == p;
    MsbInjective(p, c[..|p|]);
  }

  // After the stack has been cut back to the tables on the way of d, no other table lies there.
  lemma DeepestAfterBackup(tab: seq<Entry>, tabs: Tabs, l: nat, path: seq<seq<bool>>, h: nat, c: seq<bool>, d: seq<bool>)
    requires l >= 1 && Links(tab, tabs, l) && Path(path, tabs, l) && h < |path|
    requires path[|path| - 1] <= c && Deepest(tabs, c, |path[|path| - 1]|) && Past(tabs, c) && Before(c, d)
    requires path[h] <= d && forall j :: h < j < |path| ==> !(path[j] <= d)
    ensures Deepest(tabs, d, |path[h]|)
  {
    hide Msb, LinkOk, Links, Before;
    var top := path[|path| - 1];
    forall p | p in tabs && p <= d
      ensures |p| <= |path[h]|
    {
      Contiguous(tabs, c, d, p);
      assert |p| <= |top|;
      if |path[h]| < |p| {
        Granular(tab, tabs, l, p, path[h]);
        if h + 1 < |path| {
          PathPrefix(path, tabs, l, h + 1, |path| - 1);
        }
        assert false;
      }
    }
  }

  lemma PastNext(tabs: Tabs, c: seq<bool>, d: seq<bool>)
    requires Past(tabs, c) && Before(c, d)
    ensures Past(tabs, d)
  {
    hide Msb;
    forall p | p in tabs
      ensures |p| < |d| && Msb(p) <= Msb(d[..|p|])
    {
      BeforeTruncated(c, d, |p|);
    }
  }

  // ----- the codes of a new table start at the current code

  // No earlier codeword goes through the place of a table about to be opened for codeword n.
  lemma FirstInTable(tab: seq<Entry>, tabs: Tabs, l: nat, lo: nat, hi: nat, plan: Plan, n: nat, up: seq<bool>, i: nat)
    requires Built(tab, tabs, l, lo, hi, plan, n) && i < n < |plan.cw|
    requires up in tabs && up <= plan.cw[n] && |up| + l < |plan.cw[n]|
    requires Deepest(tabs, plan.cw[n], |up|)
    ensures !(plan.cw[n][..|up| + l] <= plan.cw[i])
  {
    hide Msb, Links, Nodes, Regions, Ordered, Matches, Fits', Pow2;
    var c, a, p := plan.cw[n], plan.cw[i], plan.cw[n][..|up| + l];
    if p <= a {
      assert LeafOk(tab, tabs, l, plan, i);
      var home := plan.home[i];
      if |a| == |p| {
        assert a <= c;
        OrderedPrefixFree(plan.cw, i, n);
        assert false;
      }
      assert |up| < |home|;
      assert home <= a && |p| <= |a| ==> home[..Min(|p|, |home|)] == p[..Min(|p|, |home|)];
      StepBelow(tab, tabs, l, home, up);
      assert false;
    }
  }

  lemma {:induction false} ShrCarry(x: nat, n: nat)
    requires Shr(x + 1, n) != Shr(x, n)
    ensures x + 1 == Shl(Shr(x + 1, n), n)
  {
    if n > 0 {
      assert (x + 1) / 2 == x / 2 + 1;
      ShrCarry(x / 2, n - 1);
    }
  }

  // A codeword that is first below one of its prefixes continues that prefix with zeros.
  lemma FirstContinuesWithZeros(a: seq<bool>, c: seq<bool>, w: nat)
    requires Successor(a, c) && w <= |c| && !(c[..w] <= a) && |a| > 0
    ensures c == c[..w] + Zeros(|c| - w)
  {
    hide Msb, Shl, Shr;
    var n := |c| - |a|;
    var x := Msb(a);
    if w >= |a| {
      assert Shl(Shl(x + 1, w - |a|), |c| - w) == Msb(c) by { ShlShl(x + 1, w - |a|, |c| - w); }
      ShrOfShl(Shl(x + 1, w - |a|), |c| - w);
      MsbPrefix(c, w);
    } else {
      assert Msb(c[..w]) == Shr(x + 1, |a| - w) by {
        MsbPrefix(c, w);
        ShrShr(Msb(c), n, |a| - w);
        ShrOfShl(x + 1, n);
      }
      assert Shr(x + 1, |a| - w) != Shr(x, |a| - w) by {
        MsbPrefix(a, w);
        if Msb(c[..w]) == Msb(a[..w]) {
          MsbInjective(c[..w], a[..w]);
          assert false;
        }
      }
      ShrCarry(x, |a| - w);
      ShlShl(Msb(c[..w]), |a| - w, n);
    }
    assert Msb(c) == Shl(Msb(c[..w]), |c| - w);
    MsbZeros(c[..w], |c| - w);
    MsbInjective(c, c[..w] + Zeros(|c| - w));
  }

  lemma {:induction false} ShrOfShl(x: nat, n: nat)
    ensures Shr(Shl(x, n), n) == x
  {
    ShrShl(x, 0, n);
  }

  // ----- how wide a table has to be

  // When the codes of length m reach the end of the patterns below p, no longer code lies below p.
  lemma ReachesEnd(cnt: seq<nat>, g: nat, p: seq<bool>, bits: nat, i: nat)
    requires Fits(cnt, g) && i < Total(cnt, g) && p <= CodeList(cnt, g)[i]
    requires |p| + bits <= g
    requires |p| + bits == g || End(cnt, |p| + bits) >= Shl(Msb(p) + 1, bits)
    ensures |CodeList(cnt, g)[i]| <= |p| + bits
  {
    hide Msb, Shl, Shr, Pow2, CodeBits, CodeList;
    var k, r := Locate(cnt, g, i);
    var c, m := CodeList(cnt, g)[i], |p| + bits;
    assert c[..|p|] == p;
    if m < k {
      CodeFits(cnt, g, k, r);
      EndGrows(cnt, m, k);
      ShlMonotone(Shl(Msb(p) + 1, bits), End(cnt, m), k - m);
      ShlShl(Msb(p) + 1, bits, k - m);
      ShrMonotone(Shl(Msb(p) + 1, k - |p|), Msb(c), k - |p|);
      ShrOfShl(Msb(p) + 1, k - |p|);
      MsbPrefix(c, |p|);
      assert false;
    }
  }

  // ----- tables that skip a level

  // The number of bits above the tables of level h.
  function Level(h: nat, l: nat): nat {
    if h == 0 then 0 else Level(h - 1, l) + l
  }

  // Of the patterns as long as one full level more, fewer than one table's worth is left over for longer codes. This is
  // what keeps a table below the first from being wider than l bits.
  ghost predicate NoSkip(cnt: seq<nat>, l: nat, g: nat)
    requires g < |cnt|
  {
    forall h :: h >= 2 && Level(h, l) < g ==> Pow2(Level(h, l)) < Pow2(l) + End(cnt, Level(h, l))
  }

  // A table that starts at a code more than l bits below it leaves a whole table's worth of patterns unused.
  lemma SkipLeavesPatterns(cnt: seq<nat>, g: nat, p: seq<bool>, l: nat, k: nat, r: nat)
    requires Fits(cnt, g) && |p| + l < k <= g && r < cnt[k]
    requires First(cnt, k) + r == Shl(Msb(p), k - |p|)
    ensures Pow2(|p| + l) >= Pow2(l) + End(cnt, |p| + l)
  {
    hide Msb, Shl, Shr;
    var m, v := |p| + l, Msb(p);
    EndGrows(cnt, m, k);
    ShlShl(v, l, k - m);
    if End(cnt, m) > Shl(v, l) {
      ShlMonotone(Shl(v, l), End(cnt, m), k - m);
      assert false;
    }
    MsbBound(p);
    ShlMonotone(v, Pow2(|p|), l);
    Pow2Shl(|p|, l);
  }
}
