// How much table space a code needs. A table below the first either holds codes of one length only, and then has no more
// entries than codes, or it lies across a step from one length to the next in use, and there are few such steps.

module HuftSpace {
  import opened Bits
  import opened Canonical
  import opened HuftTable

  // The sizes of tables across all steps between the lengths 1 to d, counted from their own level; cap bounds their width.
  function Steps(d: nat, cap: nat): nat {
    if d < 2 then 0 else Steps(d - 1, cap) + Pow2(Min(d, cap))
  }

  lemma {:induction false} StepsMonotone(d: nat, d': nat, cap: nat)
    requires d <= d'
    ensures Steps(d, cap) <= Steps(d', cap)
    ensures 1 <= d < d' ==> Steps(d, cap) + Pow2(Min(d', cap)) <= Steps(d', cap)
  {
    hide Pow2;
    if d < d' {
      StepsMonotone(d, d' - 1, cap);
    }
  }

  // Space for the tables that come after w bits.
  function LevelSpace(count: nat, w: nat, g: nat, cap: nat): nat {
    if g > w then count + Steps(g - w, cap) else 0
  }

  // Space for all tables of a code of count patterns and longest length g, the first table having l bits.
  function Space(count: nat, l: nat, g: nat, cap: nat): nat {
    Pow2(l) + LevelSpace(count, l, g, cap) + LevelSpace(count, 2 * l, g, cap)
  }

  // No table after w bits is on the way of c.
  ghost predicate Outside(tabs: Tabs, w: nat, c: seq<bool>) {
    forall p :: p in tabs && |p| == w ==> !(p <= c)
  }

  // The tables after w bits take the space used. A codeword from n on for which a further one has to be made comes after as many
  // codewords and has passed as many steps as account for that.
  ghost predicate LevelRoom(used: nat, tabs: Tabs, w: nat, cap: nat, cw: seq<seq<bool>>, n: nat, g: nat) {
    && used <= LevelSpace(|cw|, w, g, cap)
    && forall i :: n <= i < |cw| && w < |cw[i]| && Outside(tabs, w, cw[i]) ==> used <= i + Steps(|cw[i]| - w, cap)
  }

  // The first table and two levels below it take no more than size.
  ghost predicate Room(size: int, tabs: Tabs, l: nat, cap: nat, cw: seq<seq<bool>>, n: nat, g: nat) {
    var w := 2 * l;
    exists a: nat, b: nat :: LevelRoom(a, tabs, l, cap, cw, n, g) && LevelRoom(b, tabs, w, cap, cw, n, g) && size <= Pow2(l) + a + b
  }

  lemma RoomBound(size: int, tabs: Tabs, l: nat, cap: nat, cw: seq<seq<bool>>, n: nat, g: nat)
    requires Room(size, tabs, l, cap, cw, n, g)
    ensures size <= Space(|cw|, l, g, cap)
  {
    hide Steps, Pow2, Outside;
  }

  lemma RoomLater(size: int, tabs: Tabs, l: nat, cap: nat, cw: seq<seq<bool>>, n: nat, n': nat, g: nat)
    requires Room(size, tabs, l, cap, cw, n, g) && n <= n'
    ensures Room(size, tabs, l, cap, cw, n', g)
  {
    hide Steps, Pow2, Outside;
    var w := 2 * l;
    var a: nat, b: nat :| LevelRoom(a, tabs, l, cap, cw, n, g) && LevelRoom(b, tabs, w, cap, cw, n, g) && size <= Pow2(l) + a + b;
    assert LevelRoom(a, tabs, l, cap, cw, n', g) && LevelRoom(b, tabs, w, cap, cw, n', g);
  }

  lemma RoomFirst(size: int, tabs: Tabs, l: nat, cap: nat, cw: seq<seq<bool>>, g: nat)
    requires size <= Pow2(l)
    ensures Room(size, tabs, l, cap, cw, 0, g)
  {
    hide Steps, Pow2, Outside;
    var w := 2 * l;
    assert LevelRoom(0, tabs, l, cap, cw, 0, g) && LevelRoom(0, tabs, w, cap, cw, 0, g);
  }

  // A new table of bits bits, made for codeword n after w bits: either its codes have one length and fill it, or all codewords
  // that come after it are at least as long as to, which is longer than codeword n.
  ghost predicate Spent(cw: seq<seq<bool>>, w: nat, cap: nat, n: nat, p: seq<bool>, bits: nat, to: nat, g: nat)
    requires n < |cw|
  {
    if to == |cw[n]| then
      && n + Pow2(bits) <= |cw| && |cw[n]| <= g
      && forall i :: n <= i < |cw| && !(p <= cw[i]) ==> n + Pow2(bits) <= i && |cw[n]| <= |cw[i]|
    else
      && |cw[n]| < to <= g && w <= to && Pow2(bits) <= Pow2(Min(to - w, cap))
      && forall i :: n <= i < |cw| && !(p <= cw[i]) ==> to <= |cw[i]|
  }

  lemma LevelOpened(used: nat, tabs: Tabs, w: nat, cap: nat, cw: seq<seq<bool>>, n: nat, p: seq<bool>, nd: Node, to: nat, g: nat)
    requires LevelRoom(used, tabs, w, cap, cw, n, g) && n < |cw| && |p| == w < |cw[n]| && p !in tabs && p <= cw[n]
    requires Spent(cw, w, cap, n, p, nd.bits, to, g)
    ensures LevelRoom(used + Pow2(nd.bits), tabs[p := nd], w, cap, cw, n, g)
  {
    hide Steps, Pow2;
    var c, size, tabs' := cw[n], Pow2(nd.bits), tabs[p := nd];
    assert Outside(tabs, w, c) by {
      forall q | q in tabs && |q| == w
        ensures !(q <= c)
      {
        SamePlace(p, q, c);
      }
    }
    StepsMonotone(|c| - w, g - w, cap);
    if to > |c| {
      StepsMonotone(|c| - w, to - w, cap);
      StepsMonotone(to - w, g - w, cap);
    }
    forall i | n <= i < |cw| && w < |cw[i]| && Outside(tabs', w, cw[i])
      ensures used + size <= i + Steps(|cw[i]| - w, cap)
    {
      assert p in tabs';
      assert !(p <= cw[i]);
      StepsMonotone(to - w, |cw[i]| - w, cap);
    }
  }

  lemma SamePlace(p: seq<bool>, q: seq<bool>, c: seq<bool>)
    requires |p| == |q| && p <= c
    ensures q <= c ==> q == p
  {
    if q <= c {
      assert q == c[..|p|];
    }
  }

  lemma LevelKept(used: nat, tabs: Tabs, w: nat, cap: nat, cw: seq<seq<bool>>, n: nat, p: seq<bool>, nd: Node, g: nat)
    requires LevelRoom(used, tabs, w, cap, cw, n, g) && p !in tabs
    ensures LevelRoom(used, tabs[p := nd], w, cap, cw, n, g)
  {
    hide Steps, LevelSpace;
    var tabs' := tabs[p := nd];
    forall i | n <= i < |cw| && w < |cw[i]| && Outside(tabs', w, cw[i])
      ensures Outside(tabs, w, cw[i])
    {
      forall q | q in tabs && |q| == w
        ensures !(q <= cw[i])
      {
        assert q in tabs';
      }
    }
  }

  lemma RoomOpened(size: int, tabs: Tabs, l: nat, cap: nat, cw: seq<seq<bool>>, n: nat, p: seq<bool>, nd: Node, to: nat, g: nat)
    requires Room(size, tabs, l, cap, cw, n, g) && n < |cw| && (|p| == l || |p| == 2 * l) && |p| < |cw[n]| && p !in tabs && p <= cw[n]
    requires Spent(cw, |p|, cap, n, p, nd.bits, to, g)
    ensures Room(size + Pow2(nd.bits), tabs[p := nd], l, cap, cw, n, g)
  {
    hide Steps, Pow2, LevelRoom, Spent;
    var w := 2 * l;
    var a: nat, b: nat :| LevelRoom(a, tabs, l, cap, cw, n, g) && LevelRoom(b, tabs, w, cap, cw, n, g) && size <= Pow2(l) + a + b;
    LevelKept(a, tabs, l, cap, cw, n, p, nd, g);
    LevelKept(b, tabs, w, cap, cw, n, p, nd, g);
    if |p| == l {
      LevelOpened(a, tabs, l, cap, cw, n, p, nd, to, g);
      assert LevelRoom(a + Pow2(nd.bits), tabs[p := nd], l, cap, cw, n, g);
    } else {
      LevelOpened(b, tabs, w, cap, cw, n, p, nd, to, g);
      assert LevelRoom(b + Pow2(nd.bits), tabs[p := nd], w, cap, cw, n, g);
    }
  }

  // ----- the codewords after a table

  // If the codes of up to m bits do not reach the end of the patterns below p, the codewords after p are longer than m.
  lemma {:induction false} LaterLonger(cnt: seq<nat>, g: nat, p: seq<bool>, n: nat, i: nat, m: nat)
    requires Fits(cnt, g) && n <= i < Total(cnt, g) && |p| <= m <= g
    requires p <= CodeList(cnt, g)[n] && !(p <= CodeList(cnt, g)[i]) && End(cnt, m) < Shl(Msb(p) + 1, m - |p|)
    ensures |CodeList(cnt, g)[i]| > m
  {
    hide Msb, Shl, Shr, Low, Pow2, CodeBits, CodeList, End, First;
    var cw, w := CodeList(cnt, g), |p|;
    var k, r := Locate(cnt, g, i);
    var c, d := cw[n], cw[i];
    if k <= m {
      CodeListOrdered(cnt, g);
      assert Before(c, d);
      BeforeTruncated(c, d, w);
      assert c[..w] == p;
      if Msb(d[..w]) == Msb(p) {
        MsbInjective(d[..w], p);
        assert false;
      }
      CodeFits(cnt, g, k, r);
      MsbPrefix(d, w);
      ShrLow(Msb(d), k - w);
      ShlMonotone(Msb(p) + 1, Msb(d[..w]), k - w);
      EndGrows(cnt, k, m);
      ShlMonotone(Shl(Msb(p) + 1, k - w), End(cnt, k), m - k);
      ShlShl(Msb(p) + 1, k - w, m - k);
      assert false;
    }
  }

  // If enough codes of one length are left to fill the patterns below p, the codewords after p come after all of them.
  lemma {:induction false} LaterBeyond(cnt: seq<nat>, g: nat, p: seq<bool>, k: nat, r: nat, n: nat, i: nat)
    requires Fits(cnt, g) && 1 <= k <= g && |p| <= k && r < cnt[k] && n == Total(cnt, k - 1) + r
    requires First(cnt, k) + r == Shl(Msb(p), k - |p|) && Pow2(k - |p|) <= cnt[k] - r
    ensures n + Pow2(k - |p|) <= Total(cnt, g)
    ensures n <= i < Total(cnt, g) && !(p <= CodeList(cnt, g)[i]) ==> n + Pow2(k - |p|) <= i
  {
    hide Msb, Shl, Shr, Low, Pow2, CodeBits, CodeList, End, First, Total;
    var j := k - |p|;
    At(cnt, g, k, r + Pow2(j) - 1);
    if n <= i < n + Pow2(j) {
      At(cnt, g, k, r + (i - n));
      CodeFits(cnt, g, k, r + (i - n));
      var d := CodeList(cnt, g)[i];
      ShrShl(Msb(p), i - n, j);
      MsbPrefix(d, |p|);
      MsbInjective(d[..|p|], p);
      assert d[..|p|] == p;
    }
  }
}
