// Multi-level decoding tables: what a walk through them does, and what it means for them to be built so far.
//
// A table of b bits is a run of 2^b entries. The walk takes the next b bits of the stream as an index, and the entry
// found says how many of those bits it uses up and either names a result or leads to a further table, whose size and
// position it gives. Tables are named here by the bits that lead to them from the first table.

module HuftTable {
  import opened Bits
  import opened Canonical

  datatype Entry = Entry(exop: nat, bits: nat, base: nat)

  // Bit i of an operation byte.
  predicate Flag(x: nat, i: nat) {
    Shr(x, i) % 2 == 1
  }

  predicate IsLink(e: Entry) {
    e.exop != 0 && !Flag(e.exop, 4) && !Flag(e.exop, 6)
  }

  // ----- the walk

  datatype WalkResult = Leaf(entry: Entry, used: nat) | Short | Lost {
    function Plus(n: nat): WalkResult {
      match this
      case Leaf(e, u) => Leaf(e, u + n)
      case _ => this
    }
  }

  function Take(t: seq<bool>, n: nat): seq<bool> {
    t[..Min(n, |t|)]
  }

  // Decoding from the table of need bits at tree; Short when the bits run out, Lost when the walk leaves the tables.
  function Walk(tab: seq<Entry>, tree: nat, need: nat, t: seq<bool>): WalkResult
    decreases |t|
  {
    var at := tree + Lsb(Take(t, need));
    if at >= |tab| then Lost
    else
      var e := tab[at];
      if e.bits > |t| then Short
      else if !IsLink(e) then Leaf(e, e.bits)
      else if e.bits == 0 then Lost
      else Walk(tab, at + e.base, e.exop, t[e.bits..]).Plus(e.bits)
  }

  // What a codeword stands for: an operation byte and a base value, or a pattern no symbol owns. The entry of such a
  // pattern keeps whatever base the previous entry had; where that is known, it is recorded.
  datatype Op = Op(exop: nat, base: nat) | NoCode(known: bool, base: nat)

  const INVALID_CODE := 192

  predicate Matches(e: Entry, op: Op) {
    && !IsLink(e)
    && match op
       case Op(exop, base) => e.exop == exop && e.base == base
       case NoCode(known, base) => e.exop == INVALID_CODE && (known ==> e.base == base)
  }

  // ----- tables under construction

  // A table: where it starts, its number of index bits, and the code for whose sake it was made.
  datatype Node = Node(base: nat, bits: nat, via: nat)

  type Tabs = map<seq<bool>, Node>

  // A run of codewords with their meanings, and for those already entered the table holding them.
  datatype Plan = Plan(cw: seq<seq<bool>>, ops: seq<Op>, home: seq<seq<bool>>)

  ghost predicate Apart(a: Node, b: Node) {
    a.base + Pow2(a.bits) <= b.base || b.base + Pow2(b.bits) <= a.base
  }

  ghost predicate Regions(tabs: Tabs, lo: nat, hi: nat) {
    && (forall p :: p in tabs ==> lo <= tabs[p].base && tabs[p].base + Pow2(tabs[p].bits) <= hi && 1 <= tabs[p].bits <= BMAX)
    && (forall p, q :: p in tabs && q in tabs && p != q ==> Apart(tabs[p], tabs[q]))
  }

  // Every table is on the way to the codeword it was made for, and is wide enough for all codewords below it or has full
  // width; it is wider than full width only as far as that codeword needs it, and the first table never is.
  ghost predicate NodeOk(tabs: Tabs, l: nat, cw: seq<seq<bool>>, p: seq<bool>)
    requires p in tabs
  {
    && tabs[p].via < |cw| && p < cw[tabs[p].via]
    && |p| + tabs[p].bits <= BMAX
    && |cw[tabs[p].via]| <= |p| + tabs[p].bits && tabs[p].bits <= Max(|cw[tabs[p].via]| - |p|, l)
    && (p == [] ==> tabs[p].bits <= l)
    && (tabs[p].bits >= l || forall i :: 0 <= i < |cw| && p <= cw[i] ==> |cw[i]| <= |p| + tabs[p].bits)
  }

  // A table other than the first is entered from the table l bits above it.
  ghost predicate LinkOk(tab: seq<Entry>, tabs: Tabs, l: nat, p: seq<bool>)
    requires p in tabs && p != []
  {
    && l <= |p|
    && var up := p[..|p| - l];
    && up in tabs && l <= tabs[up].bits
    && var at := tabs[up].base + Lsb(p[|p| - l..]);
    && at < |tab| && at <= tabs[p].base
    && tab[at] == Entry(tabs[p].bits, l, tabs[p].base - at)
  }

  // Index j of a table agrees with the bits r as far as r goes.
  ghost predicate Fits'(j: nat, r: seq<bool>) {
    Low(j, |r|) == Lsb(r)
  }

  // Codeword i occupies every entry of its table whose index starts with the rest of its bits.
  ghost predicate LeafOk(tab: seq<Entry>, tabs: Tabs, l: nat, plan: Plan, i: nat)
    requires i < |plan.cw| && i < |plan.ops| && i < |plan.home|
  {
    var c, p := plan.cw[i], plan.home[i];
    && p in tabs && p < c && |c| <= |p| + tabs[p].bits && |c| <= |p| + l
    && forall j :: 0 <= j < Pow2(tabs[p].bits) && Fits'(j, c[|p|..]) ==>
         && tabs[p].base + j < |tab|
         && tab[tabs[p].base + j].bits == |c| - |p|
         && Matches(tab[tabs[p].base + j], plan.ops[i])
  }

  ghost predicate Nodes(tabs: Tabs, l: nat, cw: seq<seq<bool>>) {
    forall p :: p in tabs ==> NodeOk(tabs, l, cw, p)
  }

  ghost predicate Links(tab: seq<Entry>, tabs: Tabs, l: nat) {
    forall p :: p in tabs && p != [] ==> LinkOk(tab, tabs, l, p)
  }

  ghost predicate Leaves(tab: seq<Entry>, tabs: Tabs, l: nat, plan: Plan, n: nat) {
    && n <= |plan.cw| && n <= |plan.home| && |plan.ops| == |plan.cw|
    && forall i :: 0 <= i < n ==> LeafOk(tab, tabs, l, plan, i)
  }

  // The first n codewords have been entered, in tables that occupy [lo, hi).
  ghost predicate Built(tab: seq<Entry>, tabs: Tabs, l: nat, lo: nat, hi: nat, plan: Plan, n: nat) {
    && l >= 1 && hi <= |tab|
    && Ordered(plan.cw)
    && Regions(tabs, lo, hi)
    && Nodes(tabs, l, plan.cw)
    && Links(tab, tabs, l)
    && Leaves(tab, tabs, l, plan, n)
  }

  // ----- entries of one table that agree with two bit strings

  lemma {:induction false} LowLow(x: nat, a: nat, b: nat)
    requires a <= b
    ensures Low(Low(x, b), a) == Low(x, a)
  {
    if a > 0 {
      LowLow(x / 2, a - 1, b - 1);
      assert Low(x, b) / 2 == Low(x / 2, b - 1);
      assert Low(x, b) % 2 == x % 2;
    }
  }

  lemma Overlap(j: nat, r: seq<bool>, s: seq<bool>)
    requires |r| <= |s| && Fits'(j, r) && Fits'(j, s)
    ensures r <= s
  {
    LowLow(j, |r|, |s|);
    LsbSplit(s, |r|);
    LsbInjective(r, s[..|r|]);
  }

  lemma FitsItself(s: seq<bool>)
    ensures Fits'(Lsb(s), s)
  {
    LsbSplit(s, |s|);
    assert s[..|s|] == s;
  }

  lemma PrefixOfSum(p: seq<bool>, c: seq<bool>, q: seq<bool>)
    requires p <= c && p <= q && c[|p|..] <= q[|p|..]
    ensures c <= q
  {
    assert c == p + c[|p|..] && q == p + q[|p|..];
    assert q[..|c|] == p + q[|p|..][..|c| - |p|];
  }

  // ----- entering codeword n into the table p

  // The entries of table p that belong to the codeword c.
  ghost predicate Owned(tabs: Tabs, p: seq<bool>, c: seq<bool>, a: nat)
    requires p in tabs && p <= c
  {
    tabs[p].base <= a < tabs[p].base + Pow2(tabs[p].bits) && Fits'(a - tabs[p].base, c[|p|..])
  }

  ghost predicate OnlyOwnedChange(tab: seq<Entry>, tab': seq<Entry>, tabs: Tabs, p: seq<bool>, c: seq<bool>)
    requires p in tabs && p <= c
  {
    |tab| == |tab'| && forall a :: 0 <= a < |tab| && !Owned(tabs, p, c, a) ==> tab'[a] == tab[a]
  }

  // Two tables that share an entry are the same table.
  lemma SharedEntry(tabs: Tabs, lo: nat, hi: nat, p: seq<bool>, q: seq<bool>, a: nat)
    requires Regions(tabs, lo, hi) && p in tabs && q in tabs
    requires tabs[p].base <= a < tabs[p].base + Pow2(tabs[p].bits)
    requires tabs[q].base <= a < tabs[q].base + Pow2(tabs[q].bits)
    ensures p == q
  {
    hide Pow2;
    assert p != q ==> Apart(tabs[p], tabs[q]);
  }

  lemma {:induction false} LinkSlot(tabs: Tabs, up: seq<bool>, s: seq<bool>)
    requires up in tabs && |s| <= tabs[up].bits
    ensures Lsb(s) < Pow2(tabs[up].bits) && Fits'(Lsb(s), s)
  {
    LsbBound(s);
    Pow2Monotone(|s|, tabs[up].bits);
    FitsItself(s);
  }

  // The codeword being entered does not own the entry of a link.
  lemma LinkNotOwned(tab: seq<Entry>, tabs: Tabs, l: nat, lo: nat, hi: nat, plan: Plan, n: nat, p: seq<bool>, q: seq<bool>)
    requires Ordered(plan.cw) && Regions(tabs, lo, hi) && n < |plan.cw|
    requires p in tabs && p < plan.cw[n] && |plan.cw[n]| <= |p| + l
    requires q in tabs && q != [] && LinkOk(tab, tabs, l, q) && NodeOk(tabs, l, plan.cw, q)
    ensures !Owned(tabs, p, plan.cw[n], tabs[q[..|q| - l]].base + Lsb(q[|q| - l..]))
  {
    hide Lsb, Low, Pow2, Ordered;
    var c, up, s := plan.cw[n], q[..|q| - l], q[|q| - l..];
    var at := tabs[up].base + Lsb(s);
    LinkSlot(tabs, up, s);
    if Owned(tabs, p, c, at) {
      SharedEntry(tabs, lo, hi, up, p, at);
      Overlap(Lsb(s), c[|p|..], s);
      PrefixOfSum(p, c, q);
      OrderedPrefixFree(plan.cw, n, tabs[q].via);
      assert false;
    }
  }

  // Nor an entry of an earlier codeword.
  lemma LeafNotOwned(tab: seq<Entry>, tabs: Tabs, l: nat, lo: nat, hi: nat, plan: Plan, n: nat, p: seq<bool>, i: nat, j: nat)
    requires Ordered(plan.cw) && Regions(tabs, lo, hi)
    requires i < n < |plan.cw| && i < |plan.home| && i < |plan.ops|
    requires p in tabs && p < plan.cw[n]
    requires LeafOk(tab, tabs, l, plan, i)
    requires j < Pow2(tabs[plan.home[i]].bits) && Fits'(j, plan.cw[i][|plan.home[i]|..])
    ensures !Owned(tabs, p, plan.cw[n], tabs[plan.home[i]].base + j)
  {
    hide Lsb, Low, Pow2, Matches, Msb, Fits';
    var c, d, q := plan.cw[n], plan.cw[i], plan.home[i];
    if Owned(tabs, p, c, tabs[q].base + j) {
      SharedEntry(tabs, lo, hi, q, p, tabs[q].base + j);
      assert Before(d, c);
      Overlap(j, d[|p|..], c[|p|..]);
      PrefixOfSum(p, d, c);
      OrderedPrefixFree(plan.cw, i, n);
      assert false;
    }
  }

  lemma FillKeepsLeaves(tab: seq<Entry>, tab': seq<Entry>, tabs: Tabs, l: nat, lo: nat, hi: nat, plan: Plan, n: nat, p: seq<bool>)
    requires Built(tab, tabs, l, lo, hi, plan, n) && n < |plan.cw|
    requires p in tabs && p < plan.cw[n]
    requires OnlyOwnedChange(tab, tab', tabs, p, plan.cw[n])
    ensures Leaves(tab', tabs, l, plan, n)
  {
    hide Lsb, Low, Pow2, Matches, Fits', Nodes, Links, Owned, Ordered;
    forall i | 0 <= i < n
      ensures LeafOk(tab', tabs, l, plan, i)
    {
      assert LeafOk(tab, tabs, l, plan, i);
      var c, q := plan.cw[i], plan.home[i];
      forall j | 0 <= j < Pow2(tabs[q].bits) && Fits'(j, c[|q|..])
        ensures tab'[tabs[q].base + j] == tab[tabs[q].base + j]
      {
        LeafNotOwned(tab, tabs, l, lo, hi, plan, n, p, i, j);
      }
    }
  }

  lemma FillKeepsLinks(tab: seq<Entry>, tab': seq<Entry>, tabs: Tabs, l: nat, lo: nat, hi: nat, plan: Plan, n: nat, p: seq<bool>)
    requires Built(tab, tabs, l, lo, hi, plan, n) && n < |plan.cw|
    requires p in tabs && p < plan.cw[n] && |plan.cw[n]| <= |p| + l
    requires OnlyOwnedChange(tab, tab', tabs, p, plan.cw[n])
    ensures Links(tab', tabs, l)
  {
    hide Lsb, Low, Pow2, Owned, Leaves, Regions, Ordered;
    forall q | q in tabs && q != []
      ensures LinkOk(tab', tabs, l, q)
    {
      assert LinkOk(tab, tabs, l, q);
      LinkNotOwned(tab, tabs, l, lo, hi, plan, n, p, q);
    }
  }

  // Filling all entries that start with the rest of codeword n enters it.
  lemma FillStep(tab: seq<Entry>, tab': seq<Entry>, tabs: Tabs, l: nat, lo: nat, hi: nat, plan: Plan, n: nat, p: seq<bool>, r: Entry)
    requires Built(tab, tabs, l, lo, hi, plan, n) && n < |plan.cw| && n < |plan.home| && plan.home[n] == p
    requires p in tabs && p < plan.cw[n] && |plan.cw[n]| <= |p| + l
    requires OnlyOwnedChange(tab, tab', tabs, p, plan.cw[n])
    requires forall j :: 0 <= j < Pow2(tabs[p].bits) && Fits'(j, plan.cw[n][|p|..]) ==> tab'[tabs[p].base + j] == r
    requires r.bits == |plan.cw[n]| - |p| && Matches(r, plan.ops[n])
    ensures Built(tab', tabs, l, lo, hi, plan, n + 1)
  {
    hide Lsb, Low, Pow2, Fits', Matches, Owned, Links, Ordered;
    FillKeepsLeaves(tab, tab', tabs, l, lo, hi, plan, n, p);
    FillKeepsLinks(tab, tab', tabs, l, lo, hi, plan, n, p);
    assert LeafOk(tab', tabs, l, plan, n) by {
      assert NodeOk(tabs, l, plan.cw, p);
    }
  }

  // ----- adding the table p for the sake of codeword n

  ghost predicate NewNode(tabs: Tabs, l: nat, lo: nat, hi: nat, plan: Plan, n: nat, p: seq<bool>, bits: nat) {
    && p !in tabs && 1 <= bits <= BMAX && lo <= hi
    && n < |plan.cw| && p < plan.cw[n] && |p| + bits <= BMAX
    && |plan.cw[n]| <= |p| + bits && bits <= Max(|plan.cw[n]| - |p|, l) && (p == [] ==> bits <= l)
    && (bits >= l || forall i :: 0 <= i < |plan.cw| && p <= plan.cw[i] ==> |plan.cw[i]| <= |p| + bits)
  }

  // The entry through which p is reached from the table up.
  function LinkAt(tabs: Tabs, up: seq<bool>, p: seq<bool>): nat
    requires up in tabs && |up| <= |p|
  {
    tabs[up].base + Lsb(p[|up|..])
  }

  ghost predicate Below(tabs: Tabs, l: nat, p: seq<bool>, up: seq<bool>) {
    up in tabs && up <= p && |p| == |up| + l && l <= tabs[up].bits
  }

  lemma RegionsGrow(tabs: Tabs, lo: nat, hi: nat, p: seq<bool>, bits: nat, n: nat)
    requires Regions(tabs, lo, hi) && p !in tabs && 1 <= bits <= BMAX && lo <= hi
    ensures Regions(tabs[p := Node(hi, bits, n)], lo, hi + Pow2(bits))
  {
    hide Pow2;
    var tabs' := tabs[p := Node(hi, bits, n)];
    forall q, r | q in tabs' && r in tabs' && q != r
      ensures Apart(tabs'[q], tabs'[r])
    {
      if q != p && r != p {
        assert Apart(tabs[q], tabs[r]);
      }
    }
  }

  lemma LinkAtFree(tab: seq<Entry>, tabs: Tabs, l: nat, lo: nat, hi: nat, plan: Plan, n: nat, p: seq<bool>, up: seq<bool>, i: nat, j: nat)
    requires Ordered(plan.cw) && Regions(tabs, lo, hi) && Below(tabs, l, p, up)
    requires i < n < |plan.cw| && i < |plan.home| && i < |plan.ops| && p < plan.cw[n]
    requires LeafOk(tab, tabs, l, plan, i)
    requires j < Pow2(tabs[plan.home[i]].bits) && Fits'(j, plan.cw[i][|plan.home[i]|..])
    ensures tabs[plan.home[i]].base + j != LinkAt(tabs, up, p)
  {
    hide Lsb, Low, Pow2, Matches, Msb, Fits', Ordered;
    var d, q, s := plan.cw[i], plan.home[i], p[|up|..];
    if tabs[q].base + j == LinkAt(tabs, up, p) {
      LinkSlot(tabs, up, s);
      SharedEntry(tabs, lo, hi, q, up, tabs[q].base + j);
      Overlap(j, d[|up|..], s);
      PrefixOfSum(up, d, p);
      OrderedPrefixFree(plan.cw, i, n);
      assert false;
    }
  }

  lemma GrowKeepsLeaves(tab: seq<Entry>, tab': seq<Entry>, tabs: Tabs, l: nat, lo: nat, hi: nat, plan: Plan, n: nat, p: seq<bool>, up: seq<bool>, nd: Node)
    requires Ordered(plan.cw) && Regions(tabs, lo, hi) && Leaves(tab, tabs, l, plan, n)
    requires Below(tabs, l, p, up) && p !in tabs && n < |plan.cw| && p < plan.cw[n]
    requires |tab'| == |tab| && forall a :: 0 <= a < |tab| && a != LinkAt(tabs, up, p) ==> tab'[a] == tab[a]
    ensures Leaves(tab', tabs[p := nd], l, plan, n)
  {
    hide Lsb, Low, Pow2, Matches, Fits', Ordered, LinkAt;
    var tabs' := tabs[p := nd];
    forall i | 0 <= i < n
      ensures LeafOk(tab', tabs', l, plan, i)
    {
      assert LeafOk(tab, tabs, l, plan, i);
      var c, q := plan.cw[i], plan.home[i];
      forall j | 0 <= j < Pow2(tabs[q].bits) && Fits'(j, c[|q|..])
        ensures tab'[tabs[q].base + j] == tab[tabs[q].base + j]
      {
        LinkAtFree(tab, tabs, l, lo, hi, plan, n, p, up, i, j);
      }
    }
  }

  lemma LinkAtDistinct(tabs: Tabs, l: nat, lo: nat, hi: nat, p: seq<bool>, up: seq<bool>, q: seq<bool>, upq: seq<bool>)
    requires Regions(tabs, lo, hi) && Below(tabs, l, p, up) && Below(tabs, l, q, upq) && p != q
    ensures LinkAt(tabs, up, p) != LinkAt(tabs, upq, q)
  {
    hide Lsb, Pow2;
    var s, t := p[|up|..], q[|upq|..];
    LinkSlot(tabs, up, s);
    LinkSlot(tabs, upq, t);
    assert p == up + s;
    assert q == upq + t;
    if LinkAt(tabs, up, p) == LinkAt(tabs, upq, q) {
      SharedEntry(tabs, lo, hi, up, upq, LinkAt(tabs, up, p));
      LsbInjective(s, t);
      assert false;
    }
  }

  lemma GrowKeepsLink(tab: seq<Entry>, tab': seq<Entry>, tabs: Tabs, l: nat, lo: nat, hi: nat, p: seq<bool>, up: seq<bool>, nd: Node, q: seq<bool>)
    requires Regions(tabs, lo, hi) && q in tabs && q != [] && LinkOk(tab, tabs, l, q)
    requires Below(tabs, l, p, up) && p !in tabs
    requires |tab'| == |tab| && forall a :: 0 <= a < |tab| && a != LinkAt(tabs, up, p) ==> tab'[a] == tab[a]
    ensures LinkOk(tab', tabs[p := nd], l, q)
  {
    hide Lsb, Pow2, Regions;
    LinkAtDistinct(tabs, l, lo, hi, p, up, q, q[..|q| - l]);
  }

  lemma GrowKeepsLinks(tab: seq<Entry>, tab': seq<Entry>, tabs: Tabs, l: nat, lo: nat, hi: nat, p: seq<bool>, up: seq<bool>, nd: Node)
    requires Regions(tabs, lo, hi) && Links(tab, tabs, l) && hi <= |tab|
    requires Below(tabs, l, p, up) && p !in tabs && nd.base == hi
    requires LinkAt(tabs, up, p) < hi && tab' == tab[LinkAt(tabs, up, p) := Entry(nd.bits, l, hi - LinkAt(tabs, up, p))]
    ensures Links(tab', tabs[p := nd], l)
  {
    hide Lsb, Pow2, Regions;
    var tabs' := tabs[p := nd];
    assert p != [] ==> LinkOk(tab', tabs', l, p) by {
      assert p[..|p| - l] == up;
    }
    forall q | q in tabs && q != [] && q != p
      ensures LinkOk(tab', tabs', l, q)
    {
      assert LinkOk(tab, tabs, l, q);
      GrowKeepsLink(tab, tab', tabs, l, lo, hi, p, up, nd, q);
    }
  }

  lemma NodesGrow(tabs: Tabs, l: nat, lo: nat, hi: nat, plan: Plan, n: nat, p: seq<bool>, bits: nat)
    requires Nodes(tabs, l, plan.cw) && NewNode(tabs, l, lo, hi, plan, n, p, bits)
    ensures Nodes(tabs[p := Node(hi, bits, n)], l, plan.cw)
  {
    var tabs' := tabs[p := Node(hi, bits, n)];
    forall q | q in tabs'
      ensures NodeOk(tabs', l, plan.cw, q)
    {
      if q != p {
        assert NodeOk(tabs, l, plan.cw, q);
      }
    }
  }

  lemma LinkAtInside(tabs: Tabs, l: nat, lo: nat, hi: nat, p: seq<bool>, up: seq<bool>)
    requires Regions(tabs, lo, hi) && Below(tabs, l, p, up)
    ensures lo <= LinkAt(tabs, up, p) < hi
  {
    hide Lsb, Pow2;
    LinkSlot(tabs, up, p[|up|..]);
  }

  // A further table, entered from up.
  lemma GrowStep(tab: seq<Entry>, tab': seq<Entry>, tabs: Tabs, l: nat, lo: nat, hi: nat, plan: Plan, n: nat, p: seq<bool>, up: seq<bool>, bits: nat)
    requires Built(tab, tabs, l, lo, hi, plan, n) && NewNode(tabs, l, lo, hi, plan, n, p, bits) && Below(tabs, l, p, up)
    requires hi + Pow2(bits) <= |tab|
    requires lo <= LinkAt(tabs, up, p) < hi
    requires tab' == tab[LinkAt(tabs, up, p) := Entry(bits, l, hi - LinkAt(tabs, up, p))]
    ensures Built(tab', tabs[p := Node(hi, bits, n)], l, lo, hi + Pow2(bits), plan, n)
  {
    hide Lsb, Pow2, Ordered, Links, Leaves, Regions, Nodes;
    var nd := Node(hi, bits, n);
    RegionsGrow(tabs, lo, hi, p, bits, n);
    NodesGrow(tabs, l, lo, hi, plan, n, p, bits);
    GrowKeepsLinks(tab, tab', tabs, l, lo, hi, p, up, nd);
    GrowKeepsLeaves(tab, tab', tabs, l, lo, hi, plan, n, p, up, nd);
  }

  // The first table.
  lemma GrowFirst(tab: seq<Entry>, l: nat, lo: nat, plan: Plan, bits: nat)
    requires l >= 1 && Ordered(plan.cw) && |plan.ops| == |plan.cw|
    requires NewNode(map[], l, lo, lo, plan, 0, [], bits)
    requires lo + Pow2(bits) <= |tab|
    ensures Built(tab, map[[] := Node(lo, bits, 0)], l, lo, lo + Pow2(bits), plan, 0)
  {
    hide Pow2, Ordered;
    RegionsGrow(map[], lo, lo, [], bits, 0);
    NodesGrow(map[], l, lo, lo, plan, 0, [], bits);
  }

  // ----- slots that are never written

  // None of the first n codewords owns entry j of the table p.
  ghost predicate Free(plan: Plan, n: nat, p: seq<bool>, j: nat) {
    forall i :: 0 <= i < n && i < |plan.cw| && i < |plan.home| && plan.home[i] == p && p <= plan.cw[i] ==> !Fits'(j, plan.cw[i][|p|..])
  }

  // Beyond its first 2^l entries a table holds what was there before, except where a codeword has been entered.
  ghost predicate CleanAt(tab: seq<Entry>, was: seq<Entry>, nd: Node, l: nat, p: seq<bool>, plan: Plan, n: nat) {
    forall j :: Pow2(l) <= j < Pow2(nd.bits) && nd.base + j < |tab| && nd.base + j < |was| && Free(plan, n, p, j) ==>
      tab[nd.base + j] == was[nd.base + j]
  }

  ghost predicate Clean(tab: seq<Entry>, was: seq<Entry>, tabs: Tabs, l: nat, hi: nat, plan: Plan, n: nat) {
    && |was| == |tab|
    && (forall a :: hi <= a < |tab| ==> tab[a] == was[a])
    && (forall p :: p in tabs ==> CleanAt(tab, was, tabs[p], l, p, plan, n))
  }

  lemma FillCleanAt(tab: seq<Entry>, tab': seq<Entry>, was: seq<Entry>, tabs: Tabs, l: nat, lo: nat, hi: nat, plan: Plan, n: nat, p: seq<bool>, q: seq<bool>, j: nat)
    requires Regions(tabs, lo, hi) && n < |plan.cw| && n < |plan.home| && plan.home[n] == p
    requires p in tabs && p < plan.cw[n] && q in tabs
    requires OnlyOwnedChange(tab, tab', tabs, p, plan.cw[n])
    requires |was| == |tab| && CleanAt(tab, was, tabs[q], l, q, plan, n)
    requires Pow2(l) <= j < Pow2(tabs[q].bits) && tabs[q].base + j < |tab| && Free(plan, n + 1, q, j)
    ensures tab'[tabs[q].base + j] == was[tabs[q].base + j]
  {
    hide Pow2, Low, Lsb, Fits';
    assert Free(plan, n, q, j);
    if Owned(tabs, p, plan.cw[n], tabs[q].base + j) {
      SharedEntry(tabs, lo, hi, p, q, tabs[q].base + j);
      assert false;
    }
  }

  lemma FillClean(tab: seq<Entry>, tab': seq<Entry>, was: seq<Entry>, tabs: Tabs, l: nat, lo: nat, hi: nat, plan: Plan, n: nat, m: nat, p: seq<bool>)
    requires Regions(tabs, lo, hi) && n < |plan.cw| && n < |plan.home| && plan.home[n] == p && m == n + 1
    requires p in tabs && p < plan.cw[n]
    requires OnlyOwnedChange(tab, tab', tabs, p, plan.cw[n])
    requires forall a :: hi <= a < |tab| ==> !Owned(tabs, p, plan.cw[n], a)
    requires Clean(tab, was, tabs, l, hi, plan, n)
    ensures Clean(tab', was, tabs, l, hi, plan, m)
  {
    hide Pow2, Low, Lsb, Fits', Free, Owned, Regions;
    forall q | q in tabs
      ensures CleanAt(tab', was, tabs[q], l, q, plan, m)
    {
      assert CleanAt(tab, was, tabs[q], l, q, plan, n);
      forall j | Pow2(l) <= j < Pow2(tabs[q].bits) && tabs[q].base + j < |tab| && Free(plan, m, q, j)
        ensures tab'[tabs[q].base + j] == was[tabs[q].base + j]
      {
        FillCleanAt(tab, tab', was, tabs, l, lo, hi, plan, n, p, q, j);
      }
    }
  }

  lemma GrowCleanAt(tab: seq<Entry>, tab': seq<Entry>, was: seq<Entry>, tabs: Tabs, l: nat, lo: nat, hi: nat, plan: Plan, n: nat, p: seq<bool>, up: seq<bool>, q: seq<bool>, j: nat)
    requires Regions(tabs, lo, hi) && Below(tabs, l, p, up) && q in tabs && |was| == |tab|
    requires |tab'| == |tab| && forall a :: 0 <= a < |tab| && a != LinkAt(tabs, up, p) ==> tab'[a] == tab[a]
    requires CleanAt(tab, was, tabs[q], l, q, plan, n)
    requires Pow2(l) <= j < Pow2(tabs[q].bits) && tabs[q].base + j < |tab| && Free(plan, n, q, j)
    ensures tab'[tabs[q].base + j] == was[tabs[q].base + j]
  {
    hide Pow2, Low, Lsb, Free;
    if tabs[q].base + j == LinkAt(tabs, up, p) {
      LinkSlot(tabs, up, p[|up|..]);
      LsbBound(p[|up|..]);
      SharedEntry(tabs, lo, hi, up, q, tabs[q].base + j);
      assert false;
    }
  }

  lemma GrowClean(tab: seq<Entry>, tab': seq<Entry>, was: seq<Entry>, tabs: Tabs, l: nat, lo: nat, hi: nat, plan: Plan, n: nat, p: seq<bool>, up: seq<bool>, bits: nat)
    requires Regions(tabs, lo, hi) && Below(tabs, l, p, up) && p !in tabs && lo <= LinkAt(tabs, up, p) < hi <= |tab|
    requires tab' == tab[LinkAt(tabs, up, p) := Entry(bits, l, hi - LinkAt(tabs, up, p))]
    requires Clean(tab, was, tabs, l, hi, plan, n)
    ensures Clean(tab', was, tabs[p := Node(hi, bits, n)], l, hi + Pow2(bits), plan, n)
  {
    hide Pow2, Low, Lsb, Free, Regions, LinkAt;
    var tabs' := tabs[p := Node(hi, bits, n)];
    forall q | q in tabs'
      ensures CleanAt(tab', was, tabs'[q], l, q, plan, n)
    {
      if q != p {
        assert CleanAt(tab, was, tabs[q], l, q, plan, n);
        forall j | Pow2(l) <= j < Pow2(tabs[q].bits) && tabs[q].base + j < |tab| && Free(plan, n, q, j)
          ensures tab'[tabs[q].base + j] == was[tabs[q].base + j]
        {
          GrowCleanAt(tab, tab', was, tabs, l, lo, hi, plan, n, p, up, q, j);
        }
      }
    }
  }

  lemma CleanFirst(tab: seq<Entry>, was: seq<Entry>, l: nat, lo: nat, plan: Plan, bits: nat)
    requires Clean(tab, was, map[], l, lo, plan, 0)
    ensures Clean(tab, was, map[[] := Node(lo, bits, 0)], l, lo + Pow2(bits), plan, 0)
  {
    hide Pow2, Free;
  }

  // ----- walking finished tables

  // No table is wider than the step by which further tables are reached.
  ghost predicate Narrow(tabs: Tabs, l: nat) {
    forall p :: p in tabs ==> tabs[p].bits <= l
  }

  // Nor is any table on the way to p.
  ghost predicate NarrowAbove(tabs: Tabs, l: nat, p: seq<bool>) {
    forall q :: q in tabs && q < p ==> tabs[q].bits <= l
  }

  lemma {:induction false} RootPresent(tab: seq<Entry>, tabs: Tabs, l: nat, p: seq<bool>)
    requires l >= 1 && Links(tab, tabs, l) && p in tabs
    ensures [] in tabs
    decreases |p|
  {
    if p != [] {
      assert LinkOk(tab, tabs, l, p);
      RootPresent(tab, tabs, l, p[..|p| - l]);
    }
  }

  lemma {:induction false} SmallShift(x: nat, n: nat)
    requires x < Pow2(n)
    ensures Shr(x, n) == 0
  {
    if n > 0 {
      SmallShift(x / 2, n - 1);
    }
  }

  lemma LinkEntryIsLink(bits: nat, l: nat, base: nat)
    requires 1 <= bits <= BMAX
    ensures IsLink(Entry(bits, l, base))
  {
    SmallShift(bits, 4);
    assert Shr(bits, 6) == Shr(Shr(bits, 4), 2) by { ShrShr(bits, 4, 2); }
  }

  // Reading past the end of the bits reads zeros.
  lemma TakePadded(t: seq<bool>, z: nat, n: nat)
    requires n <= |t| + z
    ensures Lsb(Take(t, n)) == Lsb((t + Zeros(z))[..n])
  {
    if n <= |t| {
      assert (t + Zeros(z))[..n] == t[..n];
    } else {
      LsbPad(t, n - |t|);
      assert Take(t, n) == t;
      assert (t + Zeros(z))[..n] == t + Zeros(n - |t|);
    }
  }

  // The walk from a table on the path of t goes on from the next table on that path.
  lemma {:induction false} WalkLink(tab: seq<Entry>, tabs: Tabs, l: nat, p: seq<bool>, t: seq<bool>, z: nat)
    requires l >= 1 && NarrowAbove(tabs, l, p) && p in tabs && p != [] && LinkOk(tab, tabs, l, p)
    requires 1 <= tabs[p].bits <= BMAX
    requires |p| - l <= |t| && p <= t + Zeros(z)
    ensures
      var up := tabs[p[..|p| - l]];
      var r := Walk(tab, up.base, up.bits, t[|p| - l..]);
      if |p| <= |t| then r == Walk(tab, tabs[p].base, tabs[p].bits, t[|p|..]).Plus(l) else r == Short
  {
    hide Lsb, IsLink, Zeros;
    var up, u, s := tabs[p[..|p| - l]], t[|p| - l..], p[|p| - l..];
    assert up.bits == l;
    assert (u + Zeros(z))[..l] == s by {
      assert t + Zeros(z) == t[..|p| - l] + (u + Zeros(z));
    }
    TakePadded(u, z, l);
    LinkEntryIsLink(tabs[p].bits, l, tabs[p].base - (up.base + Lsb(s)));
    if |p| <= |t| {
      assert u[l..] == t[|p|..];
    }
  }

  // Following t from the first table reaches the table p that lies on its path.
  ghost predicate Reaches(tab: seq<Entry>, tabs: Tabs, p: seq<bool>, t: seq<bool>)
    requires p in tabs && [] in tabs
  {
    var r := Walk(tab, tabs[[]].base, tabs[[]].bits, t);
    if |p| <= |t| then r == Walk(tab, tabs[p].base, tabs[p].bits, t[|p|..]).Plus(|p|) else r == Short
  }

  lemma WalkStep(tab: seq<Entry>, tabs: Tabs, l: nat, p: seq<bool>, t: seq<bool>, z: nat)
    requires l >= 1 && NarrowAbove(tabs, l, p) && p in tabs && [] in tabs && p != [] && LinkOk(tab, tabs, l, p)
    requires 1 <= tabs[p].bits <= BMAX && p <= t + Zeros(z)
    requires Reaches(tab, tabs, p[..|p| - l], t)
    ensures Reaches(tab, tabs, p, t)
  {
    hide Walk, Lsb, NarrowAbove, Zeros;
    if |p| - l <= |t| {
      WalkLink(tab, tabs, l, p, t, z);
    }
  }

  lemma NarrowAboveUp(tabs: Tabs, l: nat, p: seq<bool>, up: seq<bool>)
    requires NarrowAbove(tabs, l, p) && up <= p
    ensures NarrowAbove(tabs, l, up)
  {
  }

  lemma {:induction false} WalkTo(tab: seq<Entry>, tabs: Tabs, l: nat, lo: nat, hi: nat, p: seq<bool>, t: seq<bool>, z: nat)
    requires l >= 1 && Links(tab, tabs, l) && Regions(tabs, lo, hi) && NarrowAbove(tabs, l, p)
    requires p in tabs && p <= t + Zeros(z) && [] in tabs
    ensures Reaches(tab, tabs, p, t)
    decreases |p|
  {
    hide Walk, Pow2, Lsb, NarrowAbove, Zeros, Apart;
    if p == [] {
      assert t[0..] == t;
    } else {
      assert LinkOk(tab, tabs, l, p);
      hide Reaches;
      NarrowAboveUp(tabs, l, p, p[..|p| - l]);
      WalkTo(tab, tabs, l, lo, hi, p[..|p| - l], t, z);
      WalkStep(tab, tabs, l, p, t, z);
    }
  }

  lemma IndexFits(u: seq<bool>, z: nat, bits: nat, rest: seq<bool>)
    requires rest <= u + Zeros(z) && |rest| <= bits <= |u| + z
    ensures Fits'(Lsb(Take(u, bits)), rest) && Lsb(Take(u, bits)) < Pow2(bits)
  {
    hide Lsb, Low, Pow2;
    TakePadded(u, z, bits);
    var x := (u + Zeros(z))[..bits];
    LsbBound(x);
    LsbSplit(x, |rest|);
    assert x[..|rest|] == rest;
  }

  // In the table holding codeword i, bits that start with the rest of it lead to its entry.
  lemma {:induction false} WalkLeaf(tab: seq<Entry>, tabs: Tabs, l: nat, plan: Plan, i: nat, u: seq<bool>, z: nat)
    requires i < |plan.cw| && i < |plan.ops| && i < |plan.home| && LeafOk(tab, tabs, l, plan, i)
    requires plan.cw[i][|plan.home[i]|..] <= u + Zeros(z)
    requires z >= tabs[plan.home[i]].bits
    ensures
      var nd, len := tabs[plan.home[i]], |plan.cw[i]| - |plan.home[i]|;
      var r := Walk(tab, nd.base, nd.bits, u);
      if len <= |u| then r.Leaf? && r.used == len && Matches(r.entry, plan.ops[i]) else r == Short
  {
    hide Lsb, Low, Pow2, Zeros, IsLink, Take, Fits';
    IndexFits(u, z, tabs[plan.home[i]].bits, plan.cw[i][|plan.home[i]|..]);
  }

  lemma NarrowIsAbove(tabs: Tabs, l: nat, p: seq<bool>)
    requires Narrow(tabs, l)
    ensures NarrowAbove(tabs, l, p)
  {
  }

  // The main property of finished tables: bits that start with codeword i, zero-padded if they end early, lead to
  // the meaning of codeword i and use up exactly its length.
  lemma {:induction false} WalkFinds(tab: seq<Entry>, tabs: Tabs, l: nat, lo: nat, hi: nat, plan: Plan, n: nat, i: nat, t: seq<bool>, z: nat)
    requires Built(tab, tabs, l, lo, hi, plan, n) && i < n && Narrow(tabs, l) && [] in tabs
    requires z >= 2 * BMAX && plan.cw[i] <= t + Zeros(z)
    ensures
      var r := Walk(tab, tabs[[]].base, tabs[[]].bits, t);
      if |plan.cw[i]| <= |t| then r.Leaf? && r.used == |plan.cw[i]| && Matches(r.entry, plan.ops[i]) else r == Short
  {
    hide Walk, Pow2, Lsb, Narrow, Links, Nodes, Matches, Fits', Zeros;
    var p := plan.home[i];
    assert LeafOk(tab, tabs, l, plan, i);
    NarrowIsAbove(tabs, l, p);
    WalkTo(tab, tabs, l, lo, hi, p, t, z);
    if |p| <= |t| {
      var u := t[|p|..];
      assert plan.cw[i][|p|..] <= u + Zeros(z) by {
        assert t + Zeros(z) == t[..|p|] + (u + Zeros(z));
      }
      WalkLeaf(tab, tabs, l, plan, i, u, z);
    }
  }
}
