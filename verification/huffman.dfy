// huft_build as a whole: the tables it returns decode exactly the canonical code of the given lengths, and its
// return value says exactly whether the lengths are oversubscribed, complete or incomplete.

module Huffman {
  import opened Bits
  import opened Canonical
  import opened HuftTable
  import opened HuftLemmas
  import opened HuftBuild
  import opened HuftSpace
  import opened HuftSkip

  datatype Status = Ok | StreamEnd | DataError | MemError | BufError

  // ----- lengths in use

  function Longest(b: seq<nat>): nat {
    if b == [] then 0 else Max(Longest(b[..|b| - 1]), b[|b| - 1])
  }

  // The length of the shortest code, 0 when there is none.
  function Shortest(b: seq<nat>): nat {
    if b == [] then 0
    else
      var r, x := Shortest(b[..|b| - 1]), b[|b| - 1];
      if x == 0 then r else if r == 0 then x else Min(r, x)
  }

  lemma {:induction false} LengthsCounted(b: seq<nat>)
    ensures Longest(b) > 0 ==> Count(b, Longest(b)) > 0
    ensures Shortest(b) > 0 <==> Longest(b) > 0
    ensures Shortest(b) > 0 ==> Count(b, Shortest(b)) > 0
    ensures forall k :: k > Longest(b) ==> Count(b, k) == 0
    ensures forall k :: 0 < k < Shortest(b) ==> Count(b, k) == 0
    ensures forall s :: 0 <= s < |b| ==> b[s] <= Longest(b)
  {
    if b != [] {
      LengthsCounted(b[..|b| - 1]);
    }
  }

  lemma {:induction false} BoundsAre(b: seq<nat>, j: nat, g: nat)
    requires 1 <= j <= g && Count(b, j) > 0 && Count(b, g) > 0
    requires forall k :: 1 <= k < j || k > g ==> Count(b, k) == 0
    ensures j == Shortest(b) && g == Longest(b)
  {
    LengthsCounted(b);
  }

  lemma {:induction false} CountWitness(b: seq<nat>, k: nat)
    ensures (exists s :: 0 <= s < |b| && b[s] == k) <==> Count(b, k) > 0
  {
    if b != [] {
      var t := b[..|b| - 1];
      CountWitness(t, k);
      if Count(t, k) > 0 {
        var s :| 0 <= s < |t| && t[s] == k;
        assert b[s] == k;
      }
    }
  }

  lemma {:induction false} BeyondLengths(b: seq<nat>, k: nat)
    requires Lengths(b) && k > BMAX
    ensures Count(b, k) == 0
  {
    if b != [] {
      BeyondLengths(b[..|b| - 1], k);
    }
  }

  lemma {:induction false} LongestBound(b: seq<nat>)
    requires Lengths(b)
    ensures Longest(b) <= BMAX
  {
    if b != [] {
      LongestBound(b[..|b| - 1]);
    }
  }

  // The outcome of a walk is the outcome of decoding by definition: the entry of the symbol whose codeword comes first,
  // or an invalid-code entry when no symbol can follow, with the codeword's length used up. Short means bits are missing.
  ghost predicate SameOutcome(w: WalkResult, dec: Decoded, lens: seq<nat>, s: nat, d: seq<nat>, e: seq<nat>, stale: Op) {
    match w
    case Leaf(entry, used) =>
      (match dec
       case Symbol(y, n) => used == n && (y >= s ==> y - s < |d| && y - s < |e|) && Matches(entry, OpOf(y, s, d, e))
       case Invalid => used == Longest(lens) && stale.NoCode? && Matches(entry, stale)
       case Incomplete => false)
    case Short => !dec.Symbol?
    case Lost => false
  }

  // The tables at root decode the code of the lengths lens on every bit string.
  ghost predicate Decodes(tab: seq<Entry>, root: nat, need: nat, lens: seq<nat>, s: nat, d: seq<nat>, e: seq<nat>, stale: Op)
    requires Lengths(lens)
  {
    forall t :: SameOutcome(Walk(tab, root, need, t), Decode(lens, t), lens, s, d, e, stale)
  }

  // The counts with the unused patterns of the longest length added as codes of their own.
  ghost predicate Completed(b: seq<nat>, cnt: seq<nat>, g: nat) {
    && Lengths(b) && 1 <= g <= BMAX && |cnt| == BMAX + 1
    && (forall k :: 0 <= k <= BMAX && k != g ==> cnt[k] == Count(b, k))
    && cnt[g] >= Count(b, g)
    && (forall k :: g < k <= BMAX ==> cnt[k] == 0)
    && End(cnt, g) == Pow2(g)
  }

  lemma {:induction false} SameBelow(cnt: seq<nat>, cnt': seq<nat>, k: nat)
    requires |cnt| == |cnt'| && k < |cnt| && forall i :: 0 <= i <= k ==> cnt'[i] == cnt[i]
    ensures End(cnt', k) == End(cnt, k) && Total(cnt', k) == Total(cnt, k)
  {
    if k > 0 {
      SameBelow(cnt, cnt', k - 1);
    }
  }

  // The codeword of a symbol stands in the list at the symbol's position.
  lemma {:induction false} SymbolInList(b: seq<nat>, cnt: seq<nat>, g: nat, s: nat)
    requires Completed(b, cnt, g) && s < |b| && b[s] > 0
    ensures b[s] <= g && Position(b, s) < Total(cnt, g)
    ensures CodeList(cnt, g)[Position(b, s)] == Codeword(b, s)
  {
    hide CodeList, CodeBits, Total, End;
    var k := b[s];
    CountPrefix(b, s, k);
    SameBelow(Counts(b), cnt, k - 1);
    FirstUnfold(Counts(b), cnt, k);
    At(cnt, g, k, Rank(b, s));
  }

  lemma {:induction false} FirstUnfold(cnt: seq<nat>, cnt': seq<nat>, k: nat)
    requires 0 < k < |cnt| == |cnt'| && End(cnt, k - 1) == End(cnt', k - 1)
    ensures First(cnt, k) == First(cnt', k)
  {
  }

  // The codewords listed before the unused patterns are those of the symbols in v.
  lemma {:induction false} ListedSymbol(b: seq<nat>, cnt: seq<nat>, g: nat, v: seq<nat>, i: nat)
    requires Completed(b, cnt, g) && Sorted(b, v) && |v| == Total(Counts(b), g) && i < |v|
    ensures v[i] < |b| && b[v[i]] > 0 && Position(b, v[i]) == i
    ensures i < Total(cnt, g) && CodeList(cnt, g)[i] == Codeword(b, v[i])
  {
    hide CodeList, CodeBits, End, Codeword;
    var k, r := Locate(Counts(b), g, i);
    var s := NthSymbol(b, k, r);
    assert Position(b, s) == i;
    SymbolInList(b, cnt, g, s);
  }

  lemma PrefixesComparable(a: seq<bool>, b: seq<bool>, t: seq<bool>)
    requires a <= t && b <= t
    ensures a <= b || b <= a
  {
    if |a| <= |b| {
      assert b[..|a|] == a;
    } else {
      assert a[..|b|] == b;
    }
  }

  // At most one codeword of the list starts a bit string.
  lemma {:induction false} OnlyOne(cnt: seq<nat>, g: nat, i: nat, j: nat, t: seq<bool>)
    requires Fits(cnt, g) && i < Total(cnt, g) && j < Total(cnt, g)
    requires CodeList(cnt, g)[i] <= t && CodeList(cnt, g)[j] <= t
    ensures i == j
  {
    hide CodeList, CodeBits, End;
    if i != j {
      CodeListOrdered(cnt, g);
      PrefixesComparable(CodeList(cnt, g)[i], CodeList(cnt, g)[j], t);
      OrderedPrefixFree(CodeList(cnt, g), i, j);
      OrderedPrefixFree(CodeList(cnt, g), j, i);
    }
  }

  // Decoding by definition finds the symbol whose codeword the bits start with.
  lemma DecodeListed(b: seq<nat>, cnt: seq<nat>, g: nat, s: nat, t: seq<bool>)
    requires Completed(b, cnt, g) && s < |b| && b[s] > 0 && Codeword(b, s) <= t
    ensures Decode(b, t) == Symbol(s, b[s])
  {
    hide CodeList, CodeBits, End, Codeword, Position;
    var r := FindSymbol(b, t, 0);
    assert r < |b| by {
      assert !(r > s);
    }
    SymbolInList(b, cnt, g, s);
    SymbolInList(b, cnt, g, r);
    OnlyOne(cnt, g, Position(b, s), Position(b, r), t);
    if r < s {
      PositionInjective(b, r, s);
    }
  }

  // Bits that start with an unused pattern belong to no symbol.
  lemma {:induction false} DecodeUnused(b: seq<nat>, cnt: seq<nat>, g: nat, v: seq<nat>, i: nat, t: seq<bool>)
    requires Completed(b, cnt, g) && Sorted(b, v) && |v| == Total(Counts(b), g) <= i < Total(cnt, g)
    requires CodeList(cnt, g)[i] <= t
    ensures Decode(b, t) == Invalid
  {
    hide CodeList, CodeBits, End, Codeword, Position;
    var cw := CodeList(cnt, g);
    var r := FindSymbol(b, t, 0);
    if r < |b| {
      SymbolInList(b, cnt, g, r);
      OnlyOne(cnt, g, i, Position(b, r), t);
      assert false;
    }
    if Extends(b, t) {
      var s :| 0 <= s < |b| && b[s] > 0 && t <= Codeword(b, s);
      SymbolInList(b, cnt, g, s);
      PrefixTransitive(cw[i], t, cw[Position(b, s)]);
      OnlyOne(cnt, g, i, Position(b, s), cw[Position(b, s)]);
      assert false;
    }
  }

  lemma PrefixTransitive(a: seq<bool>, b: seq<bool>, c: seq<bool>)
    requires a <= b <= c
    ensures a <= c
  {
  }

  // Bits that end before the codeword their zero-padding starts with contain no symbol.
  lemma {:induction false} DecodeShort(b: seq<nat>, cnt: seq<nat>, g: nat, i: nat, t: seq<bool>, z: nat)
    requires Completed(b, cnt, g) && i < Total(cnt, g)
    requires CodeList(cnt, g)[i] <= t + Zeros(z) && |t| < |CodeList(cnt, g)[i]|
    ensures !Decode(b, t).Symbol?
  {
    hide CodeList, CodeBits, End, Codeword, Position, Zeros;
    var r := FindSymbol(b, t, 0);
    if r < |b| {
      SymbolInList(b, cnt, g, r);
      assert t <= t + Zeros(z);
      PrefixTransitive(Codeword(b, r), t, t + Zeros(z));
      OnlyOne(cnt, g, i, Position(b, r), t + Zeros(z));
      assert false;
    }
  }

  // With a complete code there is no invalid pattern.
  lemma {:induction false} CompleteNeverInvalid(b: seq<nat>, t: seq<bool>)
    requires Lengths(b) && Longest(b) > 0 && Kraft(b) == Pow2(BMAX)
    ensures Decode(b, t) != Invalid
  {
    hide CodeList, CodeBits, End, Codeword, Position, Zeros, Kraft, Pow2, Longest, Count, Total;
    var g := Longest(b);
    LengthsCounted(b);
    LongestBound(b);
    KraftAtLongest(b, g);
    var cnt := Counts(b);
    var z := BMAX;
    var i := CompleteCovers(cnt, g, t + Zeros(z));
    assert Completed(b, cnt, g);
    var k, r := Locate(cnt, g, i);
    var s := NthSymbol(b, k, r);
    PositionUnfold(b, s);
    SymbolInList(b, cnt, g, s);
    PrefixesComparable(Codeword(b, s), t, t + Zeros(z));
    assert t <= t + Zeros(z);
    if Codeword(b, s) <= t {
      var q := FindSymbol(b, t, 0);
    }
  }

  // What the unused patterns of a code decode to.
  ghost function Stale(v: seq<nat>, s: nat, d: seq<nat>, e: seq<nat>, known: bool): Op {
    NoCode(known, LastBase(v, s, d, e, |v|))
  }

  lemma {:induction false} WalkDecodes(tab: seq<Entry>, tabs: Tabs, cd: Setting, hi: nat, plan: Plan, b: seq<nat>, v: seq<nat>, s: nat, d: seq<nat>, e: seq<nat>, t: seq<bool>)
    requires SettingOk(cd, plan) && PlanFor(plan, v, s, d, e, cd.g <= cd.l) && cd.g == Longest(b)
    requires Completed(b, cd.cnt, cd.g) && Sorted(b, v) && |v| == Total(Counts(b), cd.g)
    requires Built(tab, tabs, cd.l, cd.lo, hi, plan, |plan.cw|) && Narrow(tabs, cd.l) && [] in tabs
    ensures SameOutcome(Walk(tab, tabs[[]].base, tabs[[]].bits, t), Decode(b, t), b, s, d, e, Stale(v, s, d, e, cd.g <= cd.l))
  {
    hide Longest, Built, Narrow, CodeList, Walk, Decode, Codeword, Position, Zeros, Sorted, Completed, Matches, OpOf;
    var z := 2 * BMAX;
    var tz := t + Zeros(z);
    assert |tz| >= cd.g && End(cd.cnt, cd.g) == Pow2(cd.g) by { CompletedEnd(b, cd.cnt, cd.g); }
    var i := CompleteCovers(cd.cnt, cd.g, tz);
    WalkFinds(tab, tabs, cd.l, cd.lo, hi, plan, |plan.cw|, i, t, z);
    var c := plan.cw[i];
    if |c| <= |t| {
      assert c <= t by { assert t == tz[..|t|]; assert c == tz[..|c|]; }
      if i < |v| {
        ListedSymbol(b, cd.cnt, cd.g, v, i);
        DecodeListed(b, cd.cnt, cd.g, v[i], t);
      } else {
        DecodeUnused(b, cd.cnt, cd.g, v, i, t);
        UnusedLength(b, cd.cnt, cd.g, i);
        LastBaseBeyond(v, s, d, e, cd.g <= cd.l, i);
      }
    } else {
      DecodeShort(b, cd.cnt, cd.g, i, t, z);
    }
  }

  // The unused patterns all have the longest length.
  lemma {:induction false} UnusedLength(b: seq<nat>, cnt: seq<nat>, g: nat, i: nat)
    requires Completed(b, cnt, g) && Total(Counts(b), g) <= i < Total(cnt, g)
    ensures |CodeList(cnt, g)[i]| == g
  {
    hide CodeList, CodeBits, End, Count;
    var k, r := Locate(cnt, g, i);
    if k < g {
      SameBelow(Counts(b), cnt, k);
      TotalMonotone(Counts(b), k, g);
      assert false;
    }
  }

  lemma {:induction false} CompletedEnd(b: seq<nat>, cnt: seq<nat>, g: nat)
    requires Completed(b, cnt, g)
    ensures 1 <= g <= BMAX && |cnt| == BMAX + 1 && End(cnt, g) == Pow2(g)
  {
  }

  lemma LastBaseBeyond(v: seq<nat>, s: nat, d: seq<nat>, e: seq<nat>, known: bool, n: nat)
    requires SymbolsOk(v, s, d, e) && |v| > 0 && n >= |v|
    ensures OpAt(v, s, d, e, known, n) == Stale(v, s, d, e, known)
  {
  }

  // ----- what invalid codes decode to

  // The last symbol among those with the longest codes.
  function LastSymbol(b: seq<nat>, k: nat): (s: nat)
    requires Count(b, k) > 0
    ensures s < |b| && b[s] == k && Rank(b, s) + 1 == Count(b, k)
  {
    if b[|b| - 1] == k then |b| - 1
    else
      var s := LastSymbol(b[..|b| - 1], k);
      assert b[..|b| - 1][..s] == b[..s];
      s
  }

  // The entry of an invalid code keeps the base of the last symbol as long as there is only one table.
  ghost function StaleOf(b: seq<nat>, s: nat, d: seq<nat>, e: seq<nat>, l: nat): Op {
    var g := Longest(b);
    if Count(b, g) > 0 && (LastSymbol(b, g) >= s ==> LastSymbol(b, g) - s < |d| && LastSymbol(b, g) - s < |e|)
    then NoCode(g <= l, OpOf(LastSymbol(b, g), s, d, e).base)
    else NoCode(false, 0)
  }

  // ----- what a walk looks at before it knows the code's length

  // No step of the walk needs more than the given number of bits in all, or more than cap bits at once, or uses up more
  // than it looked at.
  ghost predicate Shallow(tab: seq<Entry>, tree: nat, need: nat, t: seq<bool>, budget: nat, cap: nat)
    decreases |t|
  {
    && need <= budget && need <= cap
    && var at := tree + Lsb(Take(t, need));
    && at < |tab| && 0 < tab[at].bits <= need
    && (IsLink(tab[at]) && tab[at].bits <= |t| ==>
         && tab[at].bits <= budget
         && Shallow(tab, at + tab[at].base, tab[at].exop, t[tab[at].bits..], budget - tab[at].bits, cap))
  }

  // From a table on the path of t on, the walk never needs more than 15 bits counted from the first table.
  lemma {:induction false} ShallowLeaf(tab: seq<Entry>, tabs: Tabs, l: nat, plan: Plan, i: nat, u: seq<bool>, z: nat, budget: nat, cap: nat)
    requires i < |plan.cw| && i < |plan.ops| && i < |plan.home| && LeafOk(tab, tabs, l, plan, i)
    requires plan.cw[i][|plan.home[i]|..] <= u + Zeros(z) && z >= tabs[plan.home[i]].bits
    requires tabs[plan.home[i]].bits <= budget && tabs[plan.home[i]].bits <= cap
    ensures Shallow(tab, tabs[plan.home[i]].base, tabs[plan.home[i]].bits, u, budget, cap)
  {
    hide Lsb, Low, Pow2, Zeros, IsLink, Take, Fits';
    IndexFits(u, z, tabs[plan.home[i]].bits, plan.cw[i][|plan.home[i]|..]);
  }

  lemma ShallowLink(tab: seq<Entry>, tabs: Tabs, l: nat, p: seq<bool>, t: seq<bool>, z: nat, budget: nat)
    requires l >= 1 && Narrow(tabs, l) && p in tabs && p != [] && LinkOk(tab, tabs, l, p)
    requires 1 <= tabs[p].bits <= BMAX
    requires |p| - l <= |t| && p <= t + Zeros(z) && l <= budget
    requires |p| <= |t| ==> Shallow(tab, tabs[p].base, tabs[p].bits, t[|p|..], budget - l, l)
    ensures Shallow(tab, tabs[p[..|p| - l]].base, tabs[p[..|p| - l]].bits, t[|p| - l..], budget, l)
  {
    hide Lsb, IsLink, Zeros;
    var up, u, s := tabs[p[..|p| - l]], t[|p| - l..], p[|p| - l..];
    assert (u + Zeros(z))[..l] == s by {
      assert t + Zeros(z) == t[..|p| - l] + (u + Zeros(z));
    }
    TakePadded(u, z, l);
    if |p| <= |t| {
      assert u[l..] == t[|p|..];
    }
  }

  lemma NarrowAt(tabs: Tabs, l: nat, p: seq<bool>)
    requires Narrow(tabs, l) && p in tabs
    ensures tabs[p].bits <= l
  {
  }

  // On the way to codeword i, from the table p on.
  lemma {:induction false} ShallowFrom(tab: seq<Entry>, tabs: Tabs, l: nat, lo: nat, hi: nat, plan: Plan, n: nat, i: nat, t: seq<bool>, z: nat, p: seq<bool>)
    requires Built(tab, tabs, l, lo, hi, plan, n) && i < n && Narrow(tabs, l) && p in tabs
    requires z >= 2 * BMAX && plan.cw[i] <= t + Zeros(z)
    requires p <= plan.home[i] && |p| <= |t|
    ensures |p| + tabs[p].bits <= BMAX
    ensures Shallow(tab, tabs[p].base, tabs[p].bits, t[|p|..], BMAX - |p|, l)
    decreases |plan.home[i]| - |p|
  {
    hide Shallow, Pow2, Lsb, Narrow, Matches, Fits', Zeros, Ordered, Apart, LinkOk;
    var home, c := plan.home[i], plan.cw[i];
    assert LeafOk(tab, tabs, l, plan, i);
    assert NodeOk(tabs, l, plan.cw, p);
    if p == home {
      var u := t[|p|..];
      assert c[|p|..] <= u + Zeros(z) by {
        assert t + Zeros(z) == t[..|p|] + (u + Zeros(z));
      }
      NarrowAt(tabs, l, p);
      ShallowLeaf(tab, tabs, l, plan, i, u, z, BMAX - |p|, l);
    } else {
      StepBelow(tab, tabs, l, home, p);
      var q := home[..|p| + l];
      assert q[..|q| - l] == p;
      assert q <= t + Zeros(z);
      assert LinkOk(tab, tabs, l, q);
      assert NodeOk(tabs, l, plan.cw, q);
      if |q| <= |t| {
        ShallowFrom(tab, tabs, l, lo, hi, plan, n, i, t, z, q);
      }
      ShallowLink(tab, tabs, l, q, t, z, BMAX - |p|);
    }
  }

  // ----- the whole of huft_build

  // The width of the first table: the requested one, brought between the shortest and the longest length.
  function Width(b: seq<nat>, m: nat): nat {
    Min(Max(m, Shortest(b)), Longest(b))
  }

  // No level of tables is skipped: of the patterns as long as two or more full tables, fewer than one table's worth is left
  // over for longer codes.
  ghost predicate KeepsLevels(b: seq<nat>, l: nat) {
    Longest(b) <= BMAX && NoSkip(Counts(b), l, Longest(b))
  }

  // The tables returned for the lengths b: they decode b's code, and no walk looks further than
  // 15 bits, or at more than l bits at once.
  ghost predicate TablesFor(tab: seq<Entry>, root: nat, l: nat, b: seq<nat>, s: nat, d: seq<nat>, e: seq<nat>)
    requires Lengths(b)
  {
    && Decodes(tab, root, l, b, s, d, e, StaleOf(b, s, d, e, l))
    && (forall t :: Shallow(tab, root, l, t, BMAX, l))
    && (Longest(b) <= l ==> Direct(tab, root, l))
  }

  // Every entry of the first table is final.
  ghost predicate Direct(tab: seq<Entry>, root: nat, need: nat) {
    forall t :: DirectAt(tab, root + Lsb(Take(t, need)))
  }

  ghost predicate DirectAt(tab: seq<Entry>, at: nat) {
    at < |tab| && !IsLink(tab[at])
  }

  lemma {:induction false} NoLengths(b: seq<nat>)
    requires Lengths(b)
    ensures Count(b, 0) <= |b|
    ensures Count(b, 0) == |b| ==> Longest(b) == 0 && Kraft(b) == 0
    ensures Count(b, 0) < |b| ==> Longest(b) > 0
  {
    if b != [] {
      NoLengths(b[..|b| - 1]);
    }
  }

  lemma {:induction false} MakeComplete(b: seq<nat>, c: seq<nat>, y: nat, g: nat)
    requires Lengths(b) && 1 <= g <= BMAX && forall k :: g < k <= BMAX ==> Count(b, k) == 0
    requires y == Pow2(g) - End(Counts(b), g)
    requires c == Counts(b)[g := Counts(b)[g] + y]
    ensures Completed(b, c, g) && Fits(c, g)
  {
    hide Pow2, Count;
    SameBelow(Counts(b), c, g - 1);
  }

  lemma {:induction false} OffsetsAre(b: seq<nat>, c: seq<nat>, g: nat, x: seq<nat>)
    requires Completed(b, c, g)
    requires |x| == BMAX + 1 && forall k :: 1 <= k <= g ==> x[k] == Total(c, k - 1)
    ensures forall k :: 1 <= k <= g ==> x[k] == Total(Counts(b), k - 1)
  {
    hide Total, End, Count;
    forall k | 1 <= k <= g
      ensures x[k] == Total(Counts(b), k - 1)
    {
      SameBelow(Counts(b), c, k - 1);
    }
  }

  lemma {:induction false} SortedSymbolsOk(b: seq<nat>, v: seq<nat>, g: nat, s: nat, d: seq<nat>, e: seq<nat>)
    requires Lengths(b) && 1 <= g <= BMAX && Sorted(b, v) && |v| == Total(Counts(b), g) && ListsOk(b, s, d, e)
    requires Count(b, g) > 0
    ensures SymbolsOk(v, s, d, e) && |v| > 0
  {
    hide Total, Count, Position;
    TotalUnfold(Counts(b), g);
    forall i | 0 <= i < |v|
      ensures v[i] < |b| && b[v[i]] > 0
    {
      var k, r := Locate(Counts(b), g, i);
      var sym := NthSymbol(b, k, r);
      PositionUnfold(b, sym);
    }
  }

  ghost function PlanOf(c: seq<nat>, g: nat, v: seq<nat>, s: nat, d: seq<nat>, e: seq<nat>, known: bool): Plan
    requires g < |c| && SymbolsOk(v, s, d, e) && |v| > 0
  {
    Plan(CodeList(c, g), seq(|CodeList(c, g)|, n requires n >= 0 => OpAt(v, s, d, e, known, n)), [])
  }

  lemma Prepared(b: seq<nat>, cd: Setting, plan: Plan, v: seq<nat>, s: nat, d: seq<nat>, e: seq<nat>)
    requires Completed(b, cd.cnt, cd.g) && 1 <= cd.l <= cd.g && Fits(cd.cnt, cd.g)
    requires SymbolsOk(v, s, d, e) && |v| > 0 && plan == PlanOf(cd.cnt, cd.g, v, s, d, e, cd.g <= cd.l)
    ensures SettingOk(cd, plan) && PlanFor(plan, v, s, d, e, cd.g <= cd.l) && plan.home == []
  {
    hide OpAt, CodeList, End, SymbolsOk;
  }

  lemma SameSkip(b: seq<nat>, cnt: seq<nat>, l: nat, g: nat)
    requires Completed(b, cnt, g)
    ensures NoSkip(Counts(b), l, g) <==> NoSkip(cnt, l, g)
  {
    hide Level, Pow2, Count;
    forall h | h >= 2 && Level(h, l) < g
      ensures End(cnt, Level(h, l)) == End(Counts(b), Level(h, l))
    {
      SameBelow(Counts(b), cnt, Level(h, l));
    }
  }

  // The first table is as wide as asked for.
  lemma RootWidth(tab: seq<Entry>, tabs: Tabs, cd: Setting, hi: nat, plan: Plan, n: nat)
    requires SettingOk(cd, plan) && Built(tab, tabs, cd.l, cd.lo, hi, plan, n) && [] in tabs
    requires cd.cnt[cd.g] > 0
    ensures tabs[[]].bits == cd.l
  {
    hide CodeList, Links, Leaves, Regions, Fits, Ordered, CodeBits;
    At(cd.cnt, cd.g, cd.g, 0);
    assert NodeOk(tabs, cd.l, plan.cw, []);
  }

  lemma {:induction false} StaleIs(b: seq<nat>, v: seq<nat>, g: nat, s: nat, d: seq<nat>, e: seq<nat>, l: nat)
    requires Lengths(b) && 1 <= g <= BMAX && g == Longest(b) && Count(b, g) > 0
    requires Sorted(b, v) && |v| == Total(Counts(b), g) && |v| > 0 && SymbolsOk(v, s, d, e)
    ensures Stale(v, s, d, e, g <= l) == StaleOf(b, s, d, e, l)
  {
    hide Total, Count;
    var y := LastSymbol(b, g);
    PositionUnfold(b, y);
    TotalUnfold(Counts(b), g);
    assert v[|v| - 1] == y;
  }

  lemma {:induction false} ShallowAll(tab: seq<Entry>, tabs: Tabs, cd: Setting, hi: nat, plan: Plan, t: seq<bool>)
    requires SettingOk(cd, plan) && End(cd.cnt, cd.g) == Pow2(cd.g)
    requires Built(tab, tabs, cd.l, cd.lo, hi, plan, |plan.cw|) && Narrow(tabs, cd.l) && [] in tabs
    ensures Shallow(tab, tabs[[]].base, tabs[[]].bits, t, BMAX, cd.l)
  {
    hide Built, Narrow, CodeList, Shallow, Zeros;
    var z := 2 * BMAX;
    var i := CompleteCovers(cd.cnt, cd.g, t + Zeros(z));
    LeafHome(tab, tabs, cd, hi, plan, i);
    ShallowFrom(tab, tabs, cd.l, cd.lo, hi, plan, |plan.cw|, i, t, z, []);
    assert t[0..] == t;
  }

  lemma DirectAll(tab: seq<Entry>, tabs: Tabs, cd: Setting, hi: nat, plan: Plan, t: seq<bool>)
    requires SettingOk(cd, plan) && End(cd.cnt, cd.g) == Pow2(cd.g) && cd.g <= cd.l
    requires Built(tab, tabs, cd.l, cd.lo, hi, plan, |plan.cw|) && [] in tabs
    ensures DirectAt(tab, tabs[[]].base + Lsb(Take(t, tabs[[]].bits)))
  {
    hide CodeList, Zeros, Regions, Nodes, Fits, Lsb, Pow2, Low, Take, IsLink, Fits';
    var z := 2 * BMAX;
    var i := CompleteCovers(cd.cnt, cd.g, t + Zeros(z));
    CodewordLength(cd.cnt, cd.g, i);
    assert LeafOk(tab, tabs, cd.l, plan, i);
    var home := plan.home[i];
    assert home != [] ==> LinkOk(tab, tabs, cd.l, home);
    assert home == [];
    assert plan.cw[i][|home|..] == plan.cw[i];
    RootBits(tabs, cd, hi);
    IndexFits(t, z, tabs[[]].bits, plan.cw[i]);
  }

  lemma RootBits(tabs: Tabs, cd: Setting, hi: nat)
    requires Regions(tabs, cd.lo, hi) && [] in tabs
    ensures tabs[[]].bits <= BMAX
  {
  }

  // The tables do not refer to anything outside their own space.
  lemma BuiltAlone(tab: seq<Entry>, tabs: Tabs, cd: Setting, hi: nat, plan: Plan)
    requires Built(tab, tabs, cd.l, cd.lo, hi, plan, |plan.cw|)
    ensures Built(tab[..hi], tabs, cd.l, cd.lo, hi, plan, |plan.cw|)
  {
    hide Lsb, Pow2, Fits', Ordered, Matches;
    var tab' := tab[..hi];
    forall p | p in tabs && p != []
      ensures LinkOk(tab', tabs, cd.l, p)
    {
      assert LinkOk(tab, tabs, cd.l, p);
      var up := p[..|p| - cd.l];
      LinkSlot(tabs, up, p[|p| - cd.l..]);
    }
    forall i | 0 <= i < |plan.cw|
      ensures LeafOk(tab', tabs, cd.l, plan, i)
    {
      assert LeafOk(tab, tabs, cd.l, plan, i);
    }
  }

  lemma LeafHome(tab: seq<Entry>, tabs: Tabs, cd: Setting, hi: nat, plan: Plan, i: nat)
    requires Built(tab, tabs, cd.l, cd.lo, hi, plan, |plan.cw|) && i < |plan.cw|
    ensures i < |plan.home| && [] <= plan.home[i]
  {
  }

  lemma {:induction false} Conclude(tab: seq<Entry>, tabs: Tabs, cd: Setting, hi: nat, plan: Plan, b: seq<nat>, v: seq<nat>, s: nat, d: seq<nat>, e: seq<nat>)
    requires SettingOk(cd, plan) && PlanFor(plan, v, s, d, e, cd.g <= cd.l)
    requires Completed(b, cd.cnt, cd.g) && Sorted(b, v) && |v| == Total(Counts(b), cd.g) && cd.g == Longest(b) && Count(b, cd.g) > 0
    requires Built(tab, tabs, cd.l, cd.lo, hi, plan, |plan.cw|) && [] in tabs
    requires NoSkip(cd.cnt, cd.l, cd.g) ==> Narrow(tabs, cd.l)
    requires NoSkip(Counts(b), cd.l, cd.g)
    ensures TablesFor(tab, tabs[[]].base, cd.l, b, s, d, e)
  {
    hide Built, Narrow, CodeList, NoSkip, Walk, Decode, Shallow, DirectAt, SameOutcome, Stale, StaleOf, Sorted, Count,
         Total, End, Pow2;
    SameSkip(b, cd.cnt, cd.l, cd.g);
    RootWidth(tab, tabs, cd, hi, plan, |plan.cw|);
    StaleIs(b, v, cd.g, s, d, e, cd.l);
    forall t
      ensures SameOutcome(Walk(tab, tabs[[]].base, cd.l, t), Decode(b, t), b, s, d, e, StaleOf(b, s, d, e, cd.l))
    {
      WalkDecodes(tab, tabs, cd, hi, plan, b, v, s, d, e, t);
    }
    forall t
      ensures Shallow(tab, tabs[[]].base, cd.l, t, BMAX, cd.l)
    {
      ShallowAll(tab, tabs, cd, hi, plan, t);
    }
    if cd.g <= cd.l {
      forall t
        ensures DirectAt(tab, tabs[[]].base + Lsb(Take(t, cd.l)))
      {
        DirectAll(tab, tabs, cd, hi, plan, t);
      }
    }
  }

  // Table space from lo on as it is handed out, all zeros.
  ghost predicate Blank(was: seq<Entry>, lo: nat) {
    forall a :: lo <= a < |was| ==> was[a] == Entry(0, 0, 0)
  }

  // No symbol's codeword leads to a table, and no table's entry of zeros is what an invalid code or missing bits give.
  lemma NotAnOutcome(b: seq<nat>, cd: Setting, plan: Plan, p: seq<bool>, i: nat, t: seq<bool>, s: nat, d: seq<nat>, e: seq<nat>, stale: Op)
    requires SettingOk(cd, plan) && Completed(b, cd.cnt, cd.g)
    requires i < |plan.cw| && p < plan.cw[i] && p <= t
    ensures !SameOutcome(Leaf(Entry(0, 0, 0), |p|), Decode(b, t), b, s, d, e, stale)
  {
    hide CodeList, CodeBits, Codeword, Position, Total, End;
    var dec := Decode(b, t);
    if dec.Symbol? && dec.used == |p| {
      var y := FindSymbol(b, t, 0);
      SymbolInList(b, cd.cnt, cd.g, y);
      assert Codeword(b, y) == t[..|p|] == p;
      CodeListOrdered(cd.cnt, cd.g);
      OrderedPrefixFree(plan.cw, Position(b, y), i);
      assert false;
    }
  }

  // When a level is skipped, some bits are decoded wrongly by the tables in fresh table space.
  lemma {:induction false} Misdecodes(tab: seq<Entry>, tabs: Tabs, cd: Setting, hi: nat, plan: Plan, b: seq<nat>, s: nat, d: seq<nat>, e: seq<nat>, stale: Op)
    requires SettingOk(cd, plan) && Completed(b, cd.cnt, cd.g) && Count(b, cd.g) > 0
    requires Built(tab, tabs, cd.l, cd.lo, hi, plan, |plan.cw|) && [] in tabs
    requires Clean(tab, cd.was, tabs, cd.l, hi, plan, |plan.cw|) && Blank(cd.was, cd.lo)
    requires !NoSkip(Counts(b), cd.l, cd.g)
    ensures !Decodes(tab[..hi], tabs[[]].base, cd.l, b, s, d, e, stale)
  {
    hide Built, Clean, CodeList, NoSkip, Walk, Decode, SameOutcome, Count, End, Pow2, Lsb, NarrowAbove, Fits, Astray,
         Links, Regions;
    var l := cd.l;
    SameSkip(b, cd.cnt, l, cd.g);
    var wide := WideTable(tab, tabs, cd, hi, plan);
    var p := FirstWide(tabs, l, wide);
    var u := UnwrittenEntry(tab, tabs, cd, hi, plan, p);
    assert Blank(cd.was, cd.lo) ==> tab[tabs[p].base + Lsb(u) + Pow2(l)] == Entry(0, 0, 0);
    hide Blank;
    BuiltSize(tab, tabs, cd, hi, plan);
    var tab' := tab[..hi];
    BuiltAlone(tab, tabs, cd, hi, plan);
    BuiltParts(tab', tabs, cd, hi, plan, p);
    RootWidth(tab, tabs, cd, hi, plan, |plan.cw|);
    WalkAstray(tab', tabs, l, cd.lo, hi, p, u);
    var t := Astray(p, u, tabs[p].bits);
    AstrayStarts(p, u, tabs[p].bits);
    NotAnOutcome(b, cd, plan, p, tabs[p].via, t, s, d, e, stale);
    assert !SameOutcome(Walk(tab', tabs[[]].base, l, t), Decode(b, t), b, s, d, e, stale);
  }

  lemma AstrayStarts(p: seq<bool>, u: seq<bool>, bits: nat)
    requires bits > |u|
    ensures p <= Astray(p, u, bits)
  {
  }

  lemma BuiltParts(tab: seq<Entry>, tabs: Tabs, cd: Setting, hi: nat, plan: Plan, p: seq<bool>)
    requires Built(tab, tabs, cd.l, cd.lo, hi, plan, |plan.cw|) && p in tabs
    ensures Links(tab, tabs, cd.l) && Regions(tabs, cd.lo, hi) && cd.l >= 1
    ensures tabs[p].via < |plan.cw| && p < plan.cw[tabs[p].via]
  {
    hide Links, Regions, Leaves, Ordered;
    assert NodeOk(tabs, cd.l, plan.cw, p);
  }

  lemma DecodesPart(tab: seq<Entry>, root: nat, l: nat, b: seq<nat>, s: nat, d: seq<nat>, e: seq<nat>)
    requires Lengths(b) && TablesFor(tab, root, l, b, s, d, e)
    ensures Decodes(tab, root, l, b, s, d, e, StaleOf(b, s, d, e, l))
  {
    hide Decodes, StaleOf, Shallow, Direct;
  }

  // The codes of b and the patterns it leaves unused.
  ghost function Listed(b: seq<nat>): nat
    requires Lengths(b)
  {
    LongestBound(b);
    Total(Counts(b), Longest(b)) + Max(0, Pow2(Longest(b)) - End(Counts(b), Longest(b)))
  }

  // Space that is enough for the tables of b, if there are at most two levels below the first.
  ghost function SpaceFor(b: seq<nat>, l: nat): nat
    requires Lengths(b)
  {
    Space(Listed(b), l, Longest(b), if KeepsLevels(b, l) then l else Longest(b))
  }

  lemma {:induction false} SpaceCounted(b: seq<nat>, y: nat, cd: Setting, plan: Plan)
    requires Lengths(b) && Longest(b) == cd.g && Completed(b, cd.cnt, cd.g) && SettingOk(cd, plan)
    requires y == Pow2(cd.g) - End(Counts(b), cd.g) && cd.cnt == Counts(b)[cd.g := Counts(b)[cd.g] + y]
    ensures Counted(cd) <==> cd.g <= 3 * cd.l
    ensures Needed(cd, plan.cw) == SpaceFor(b, cd.l)
  {
    hide Longest, CodeList, End, Pow2, Space, NoSkip, Count;
    SameSkip(b, cd.cnt, cd.l, cd.g);
    TotalUnfold(cd.cnt, cd.g);
    TotalUnfold(Counts(b), cd.g);
    SameBelow(Counts(b), cd.cnt, cd.g - 1);
    HuftBuild.ListLength(cd, plan);
  }

  method BuildTables(b: seq<nat>, s: nat, d: seq<nat>, e: seq<nat>, m: nat, hp: array<Entry>, hn0: nat, v: array<nat>)
    returns (r: Status, t: nat, l: nat, hn: nat)
    requires Lengths(b) && |b| >= 1 && v.Length >= |b| && ListsOk(b, s, d, e)
    requires hn0 <= MANY == hp.Length
    modifies hp, v
    // only the table space handed out is written
    ensures hn0 <= hn <= MANY
    ensures forall a :: 0 <= a < MANY && !(hn0 <= a < hn) ==> hp[a] == old(hp[a])
    // what the return value says about the lengths
    ensures r.Ok? || r.DataError? || r.MemError? || r.BufError?
    ensures r.DataError? <==> Kraft(b) > Pow2(BMAX)
    ensures r.BufError? ==> Kraft(b) < Pow2(BMAX) && Longest(b) > 1
    ensures r.Ok? && Longest(b) > 0 ==> Kraft(b) == Pow2(BMAX) || Longest(b) == 1
    // no lengths at all: no table
    ensures Longest(b) == 0 ==> r.Ok? && l == 0 && hn == hn0
    ensures Longest(b) > 0 && !r.DataError? ==> l == Width(b, m)
    // the space
    ensures 0 < Longest(b) <= 3 * l && !r.DataError? ==> if r.MemError? then hn0 + SpaceFor(b, l) > MANY else hn <= hn0 + SpaceFor(b, l)
    // the tables
    ensures Longest(b) > 0 && (r.Ok? || r.BufError?) && KeepsLevels(b, l) ==> TablesFor(hp[..hn], t, l, b, s, d, e)
    // and in fresh table space they are right only then
    ensures Longest(b) > 0 && (r.Ok? || r.BufError?) && Blank(old(hp[..]), hn0) ==>
              (Decodes(hp[..hn], t, l, b, s, d, e, StaleOf(b, s, d, e, l)) <==> KeepsLevels(b, l))
  {
    hide SpaceFor, Needed, Counted, TablesFor, Clean, Blank, Decodes, StaleOf, NoSkip, Kraft, Count, Built, Pow2, End,
         SymbolsOk, Total, CodeList, Position, Longest, Shortest, OpAt, Narrow;
    t, hn := 0, hn0;
    LengthsCounted(b);
    LongestBound(b);
    NoLengths(b);
    var c := CountLengths(b);
    if c[0] == |b| {
      assert Pow2(BMAX) > 0;
      return Ok, 0, 0, hn0;
    }
    assert c[Longest(b)] > 0;
    var k, g;
    k, g, l := LengthBounds(c, m);
    assert forall j :: j > g ==> Count(b, j) == 0 by {
      forall j | j > BMAX
        ensures Count(b, j) == 0
      {
        BeyondLengths(b, j);
      }
    }
    BoundsAre(b, k, g);
    var fits, y := UnusedPatterns(c, k, g);
    KraftAtLongest(b, g);
    if !fits {
      return DataError, t, l, hn;
    }
    c := c[g := c[g] + y];
    MakeComplete(b, c, y, g);
    var x := Offsets(c, g);
    OffsetsAre(b, c, g, x);
    var n := SortSymbols(b, g, x, v);
    SortedSymbolsOk(b, v[..n], g, s, d, e);
    ghost var cd := Setting(c, g, l, hn0, hp[..]);
    ghost var plan := PlanOf(c, g, v[..n], s, d, e, g <= l);
    Prepared(b, cd, plan, v[..n], s, d, e);
    SpaceCounted(b, y, cd, plan);
    var ok, st;
    ghost var tabs;
    ok, st, plan, tabs := EnterCodes(hp, hn0, c, k, l, g, v[..n], s, d, e, cd, plan);
    hn := st.hn;
    if !ok {
      return MemError, t, l, hn;
    }
    t := st.u[0];
    r := if y != 0 && g != 1 then BufError else Ok;
    if KeepsLevels(b, l) {
      BuiltAlone(hp[..], tabs, cd, hn, plan);
      Conclude(hp[..hn], tabs, cd, hn, plan, b, v[..n], s, d, e);
      DecodesPart(hp[..hn], t, l, b, s, d, e);
    } else if Blank(old(hp[..]), hn0) {
      Misdecodes(hp[..], tabs, cd, hn, plan, b, s, d, e, StaleOf(b, s, d, e, l));
    }
  }

  // ----- when no level is skipped

  lemma {:induction false} LevelMonotone(h: nat, l: nat)
    requires h >= 2
    ensures Level(h, l) >= 2 * l
  {
    if h > 2 {
      LevelMonotone(h - 1, l);
    } else {
      assert Level(2, l) == Level(1, l) + l == Level(0, l) + l + l;
    }
  }

  // Lengths of at most twice the table width never skip a level: the literal/length tables (9 of 15 bits) and the
  // bit-length tables (7 of 7 bits).
  lemma {:induction false} TwoLevels(b: seq<nat>, l: nat)
    requires Longest(b) <= BMAX && Longest(b) <= 2 * l
    ensures KeepsLevels(b, l)
  {
    hide Longest, Counts, Level;
    forall h | h >= 2
      ensures Level(h, l) >= 2 * l
    {
      LevelMonotone(h, l);
    }
  }

  // Every pattern of m bits that is left over takes at least two longer codes.
  lemma {:induction false} LeftOverNeedsCodes(cnt: seq<nat>, m: nat, g: nat)
    requires m <= g < |cnt| && End(cnt, g) == Pow2(g)
    ensures m < g ==> 2 * Pow2(m) <= 2 * End(cnt, m) + (Total(cnt, g) - Total(cnt, m))
    decreases g - m
  {
    hide Pow2;
    if m < g {
      DoublePow2(m);
      if m + 1 < g {
        LeftOverNeedsCodes(cnt, m + 1, g);
        TotalMonotone(cnt, m + 1, g);
      }
    }
  }

  // Nor does a complete code with fewer than two tables' worth of symbols: the distance tables (6 bits, 30 symbols).
  lemma {:induction false} FewSymbols(b: seq<nat>, l: nat)
    requires Lengths(b) && |b| < Pow2(l + 1) && (Longest(b) <= 1 || Kraft(b) == Pow2(BMAX)) && l >= 1
    ensures KeepsLevels(b, l)
  {
    hide Longest, Count, Pow2, Kraft, End, Total;
    var g := Longest(b);
    LongestBound(b);
    if g <= 1 {
      TwoLevels(b, l);
    } else {
      LengthsCounted(b);
      KraftAtLongest(b, g);
      forall h | h >= 2 && Level(h, l) < g
        ensures Pow2(Level(h, l)) < Pow2(l) + End(Counts(b), Level(h, l))
      {
        LeftOverNeedsCodes(Counts(b), Level(h, l), g);
        TotalBound(b);
        TotalMonotone(Counts(b), g, BMAX);
        DoublePow2(l);
      }
    }
  }

  // ----- a code for which a level is skipped

  lemma {:induction false} CountRun(b: seq<nat>, x: nat, n: nat, k: nat)
    ensures Count(b + seq(n, _ => x), k) == Count(b, k) + (if k == x then n else 0)
  {
    if n == 0 {
      assert b + seq(n, _ => x) == b;
    } else {
      CountRun(b, x, n - 1, k);
      var t := b + seq(n, _ => x);
      assert t[..|t| - 1] == b + seq(n - 1, _ => x);
    }
  }

  // 63 codes of 6 bits and 128 codes of 13 bits: complete, but with tables of 6 bits the level from 6 to 12 bits is skipped.
  function SkippingLengths(): seq<nat> {
    seq(63, _ => 6) + seq(128, _ => 13)
  }

  lemma {:induction false} SkippingCounts(k: nat)
    ensures Count(SkippingLengths(), k) == if k == 6 then 63 else if k == 13 then 128 else 0
  {
    CountRun(seq(63, _ => 6), 13, 128, k);
    CountRun([], 6, 63, k);
    assert [] + seq(63, _ => 6) == seq(63, _ => 6);
  }

  lemma SkippingExists()
    ensures
      var b := SkippingLengths();
      && Lengths(b) && |b| <= 288 && Width(b, 6) == 6 && Longest(b) == 13 && Kraft(b) == Pow2(BMAX)
      && !KeepsLevels(b, 6) && SpaceFor(b, 6) <= MANY
  {
    hide Count, SkippingLengths, Kraft, Longest, Shortest, Pow2, Level, Shl, Steps, Total, NoSkip;
    var b := SkippingLengths();
    assert |b| == 191 && forall s :: 0 <= s < |b| ==> b[s] == 6 || b[s] == 13 by { SkippingShape(); }
    forall k: nat
      ensures Count(b, k) == if k == 6 then 63 else if k == 13 then 128 else 0
    {
      SkippingCounts(k);
    }
    BoundsAre(b, 6, 13);
    var c := Counts(b);
    EndOfNothing(c, 5);
    EndBeyond(c, 6, 12);
    assert End(c, 12) == 4032 && End(c, 13) == 8192 by {
      EndAfterFirst(c, 6);
      ShlLiteral();
    }
    KraftAtLongest(b, 13);
    LevelLiteral();
    SkippingSkips(c);
    HuftBuild.TotalBound(b);
    TotalMonotone(c, 13, BMAX);
    StepsLiteral();
  }

  lemma {:induction false} SkippingSkips(c: seq<nat>)
    requires |c| == BMAX + 1 && End(c, 12) == 4032
    ensures !NoSkip(c, 6, 13)
  {
    hide End, Level, Pow2;
    LevelLiteral();
  }

  lemma StepsLiteral()
    ensures Steps(7, 13) == 252 && Steps(1, 13) == 0 && Pow2(6) == 64
  {
  }

  // There is space for their tables, so in fresh table space huft_build returns Z_OK and tables that are not right.
  method SkippingBuilt(hp: array<Entry>, v: array<nat>) returns (r: Status, t: nat, l: nat, hn: nat)
    requires hp.Length == MANY && v.Length >= 288 && Blank(hp[..], 0)
    modifies hp, v
    ensures
      var b := SkippingLengths();
      r.Ok? && l == 6 && hn <= MANY && Lengths(b) && !Decodes(hp[..hn], t, l, b, 257, [], [], StaleOf(b, 257, [], [], l))
  {
    hide SkippingLengths, Kraft, Longest, Pow2, Decodes, StaleOf, TablesFor, Blank, KeepsLevels, SpaceFor, Width;
    SkippingExists();
    SkippingShape();
    r, t, l, hn := BuildTables(SkippingLengths(), 257, [], [], 6, hp, 0, v);
  }

  lemma ShlLiteral()
    ensures Shl(63, 6) == 4032 && Pow2(6) == 64 && Pow2(12) == 4096 && Pow2(13) == 8192
  {
  }

  lemma LevelLiteral()
    ensures Level(2, 6) == 12 && Pow2(6) == 64 && Pow2(12) == 4096 && Pow2(13) == 8192
  {
    assert Level(2, 6) == Level(1, 6) + 6 == Level(0, 6) + 12;
  }

  lemma SkippingShape()
    ensures |SkippingLengths()| == 191
    ensures forall s :: 0 <= s < 191 ==> SkippingLengths()[s] == 6 || SkippingLengths()[s] == 13
  {
  }
}
