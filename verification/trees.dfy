// Building the tables of one block: for the bit lengths, for the literal/length and distance codes sent with the block,
// and for the fixed codes (inflate_trees_bits, inflate_trees_dynamic, inflate_trees_fixed).

module InflateTrees {
  import opened Bits
  import opened Canonical
  import opened HuftTable
  import opened HuftSpace
  import opened Huffman
  import opened Deflate
  import opened FixedTables
  import opened InflateCodes

  const MANY := HuftBuild.MANY

  // The table of the bit-length code: one table of at most seven bits.
  ghost predicate BitTable(tab: seq<Entry>, tb: nat, bb: nat, cl: seq<nat>) {
    && |cl| == 19 && Accepted(cl) && Longest(cl) <= bb <= 7
    && TablesFor(tab, tb, bb, cl, 19, [], [])
  }

  lemma {:induction false} LongestAtMost(b: seq<nat>, m: nat)
    requires forall k :: 0 <= k < |b| ==> b[k] <= m
    ensures Longest(b) <= m
  {
    if b != [] {
      LongestAtMost(b[..|b| - 1], m);
    }
  }

  // The first table is at least as wide as asked for, unless all codes are shorter.
  lemma {:induction false} WidthEnough(b: seq<nat>, m: nat)
    requires Longest(b) > 0 && m > 0
    ensures Min(m, Longest(b)) <= Width(b, m) <= Longest(b) && Width(b, m) >= 1
  {
  }

  // A code of at most one table's width needs no more space than that table.
  lemma {:induction false} OneTable(b: seq<nat>, l: nat)
    requires Lengths(b) && 0 < Longest(b) <= l
    ensures SpaceFor(b, l) == Pow2(l)
  {
    hide Longest, Pow2, KeepsLevels;
  }

  // All steps from one length to the next in up to 15 bits, after nine bits of them, and after six or twelve.
  lemma {:induction false} StepsAfterNine(d: nat)
    requires d <= 6
    ensures Steps(d, 9) <= 124
  {
    StepsMonotone(d, 6, 9);
    assert Steps(6, 9) == 124;
  }

  lemma {:induction false} StepsAfterSix(d: nat)
    requires d <= 9
    ensures Steps(d, 6) <= 316
  {
    StepsMonotone(d, 9, 6);
    assert Steps(9, 6) == 316;
  }

  lemma {:induction false} StepsAfterTwelve(d: nat)
    requires d <= 3
    ensures Steps(d, 6) <= 12
  {
    StepsMonotone(d, 3, 6);
    assert Steps(3, 6) == 12;
  }

  lemma {:induction false} ListedAtMost(b: seq<nat>)
    requires Lengths(b) && Longest(b) > 0 && Kraft(b) == Pow2(BMAX)
    ensures Listed(b) <= |b|
  {
    hide Longest, Count, Pow2, Kraft, End, Total;
    var g := Longest(b);
    LongestBound(b);
    LengthsCounted(b);
    KraftAtLongest(b, g);
    HuftBuild.TotalBound(b);
    TotalMonotone(Counts(b), g, BMAX);
  }

  lemma {:induction false} LitSpace(b: seq<nat>, l: nat)
    requires Accepted(b) && |b| <= 286 && l == Width(b, 9)
    ensures Longest(b) <= 3 * l && SpaceFor(b, l) <= 922
  {
    hide Longest, Shortest, Width, Kraft, Pow2, Listed, KeepsLevels, Steps;
    LongestBound(b);
    WidthEnough(b, 9);
    Pow2Seven();
    NotWide(b, 9);
    Pow2Monotone(l, 9);
    if Longest(b) <= l {
      OneTable(b, l);
    } else {
      ListedAtMost(b);
      LitLevels(b, l);
      StepsAfterNine(Longest(b) - l);
    }
  }

  lemma {:induction false} DistSpace(b: seq<nat>, l: nat)
    requires Accepted(b) && |b| <= 30 && l == Width(b, 6)
    ensures Longest(b) <= 3 * l && SpaceFor(b, l) <= 452
  {
    hide Longest, Shortest, Width, Kraft, Pow2, Listed, KeepsLevels, Steps;
    LongestBound(b);
    WidthEnough(b, 6);
    Pow2Seven();
    NotWide(b, 6);
    Pow2Monotone(l, 6);
    if Longest(b) <= l {
      OneTable(b, l);
    } else {
      ListedAtMost(b);
      DistLevels(b, l);
      StepsAfterSix(Longest(b) - l);
      if Longest(b) > 2 * l {
        StepsAfterTwelve(Longest(b) - 2 * l);
      }
    }
  }

  // Whether a set of lengths is accepted is what the return value of huft_build and the width of the table say.
  method TreesBits(cl: seq<nat>, hp: array<Entry>) returns (r: Status, bb: nat, tab: seq<Entry>, tb: nat)
    requires |cl| == 19 && (forall k :: 0 <= k < 19 ==> cl[k] < 8) && hp.Length == MANY
    modifies hp
    ensures r.Ok? ==> BitTable(tab, tb, bb, cl)
    ensures r.DataError? ==> !Accepted(cl)
    ensures r.Ok? || r.DataError?
  {
    hide TablesFor, Longest, Shortest, Kraft, Pow2, KeepsLevels, Width, SpaceFor;
    var v := new nat[19];
    var hn;
    r, tb, bb, hn := BuildTables(cl, 19, [], [], 7, hp, 0, v);
    tab := hp[..hn];
    LongestAtMost(cl, 7);
    if Longest(cl) > 0 {
      WidthEnough(cl, 7);
      OneTable(cl, Width(cl, 7));
      Pow2Monotone(Width(cl, 7), 7);
      Pow2Seven();
    }
    if r.BufError? || bb == 0 {
      r := DataError;
    }
    if r.Ok? {
      TwoLevels(cl, bb);
    }
  }

  // The literal/length lengths decide first; without length symbols there need not be any distance codes.
  ghost predicate AcceptedBoth(lit: seq<nat>, dist: seq<nat>) {
    Accepted(lit) && (Accepted(dist) || (Longest(dist) == 0 && |lit| == 257))
  }

  lemma {:induction false} LitLevels(b: seq<nat>, l: nat)
    requires Lengths(b) && Longest(b) > 0 && l == Width(b, 9)
    ensures KeepsLevels(b, l)
  {
    hide Longest, Width;
    WidthEnough(b, 9);
    LongestBound(b);
    TwoLevels(b, l);
  }

  lemma {:induction false} DistLevels(b: seq<nat>, l: nat)
    requires Lengths(b) && |b| <= 30 && Longest(b) > 0 && l == Width(b, 6)
    requires Longest(b) == 1 || Kraft(b) == Pow2(BMAX)
    ensures KeepsLevels(b, l)
  {
    hide Longest, Width, Kraft, Pow2;
    WidthEnough(b, 6);
    LongestBound(b);
    if Longest(b) <= 6 {
      TwoLevels(b, l);
    } else {
      Pow2Monotone(7, l + 1);
      assert Pow2(7) == 128 by { Pow2Seven(); }
      FewSymbols(b, l);
    }
  }

  // A complete code without short codewords has many of them, so the first table is not wider than asked for.
  lemma {:induction false} NotWide(b: seq<nat>, m: nat)
    requires Lengths(b) && Longest(b) > 0 && 1 <= m < BMAX && |b| < Pow2(m + 1)
    requires Longest(b) == 1 || Kraft(b) == Pow2(BMAX)
    ensures Width(b, m) <= m
  {
    hide Longest, Shortest, Count, Pow2, Kraft, End, Total;
    var g := Longest(b);
    LongestBound(b);
    LengthsCounted(b);
    if Shortest(b) > m && g > m {
      KraftAtLongest(b, g);
      EndOfNothing(Counts(b), m);
      LeftOverNeedsCodes(Counts(b), m, g);
      HuftBuild.TotalBound(b);
      TotalMonotone(Counts(b), g, BMAX);
      HuftBuild.DoublePow2(m);
      assert false;
    }
  }

  lemma Pow2Seven()
    ensures Pow2(6) == 64 && Pow2(7) == 128 && Pow2(9) == 512 && Pow2(10) == 1024
  {
  }

  method TreesDynamic(lit: seq<nat>, dist: seq<nat>, hp: array<Entry>) returns (r: Status, tb: CodeTables)
    requires Lengths(lit) && Lengths(dist) && 257 <= |lit| <= 286 && 1 <= |dist| <= 30 && hp.Length == MANY
    modifies hp
    ensures r.Ok? ==> AcceptedBoth(lit, dist) && TablesOk(tb, lit, dist)
    ensures r.DataError? || r.MemError? ==> !AcceptedBoth(lit, dist)
    ensures r.Ok? || r.DataError? || r.MemError?
  {
    hide SpaceFor, TablesFor, Longest, Shortest, Kraft, Pow2, KeepsLevels, Width, LengthBase, LengthExtra, DistBase,
         DistExtra;
    tb := CodeTables(0, 0, [], 0, [], 0);
    var v := new nat[288];
    ExtraRange();
    Pow2Seven();
    var tl, bl, hn;
    r, tl, bl, hn := BuildTables(lit, 257, LengthBase(), LengthExtra(), 9, hp, 0, v);
    if Longest(lit) > 0 {
      WidthEnough(lit, 9);
    }
    if Accepted(lit) {
      LitSpace(lit, Width(lit, 9));
    }
    if !r.Ok? || bl == 0 {
      if !r.DataError? && !r.MemError? {
        r := DataError;
      }
      return;
    }
    LitLevels(lit, bl);
    NotWide(lit, 9);
    var ltab := hp[..hn];
    var td, bd;
    r, td, bd, hn := BuildTables(dist, 0, DistBase(), DistExtra(), 6, hp, hn, v);
    if Longest(dist) > 0 {
      WidthEnough(dist, 6);
    }
    if Accepted(dist) {
      DistSpace(dist, Width(dist, 6));
    }
    if !r.Ok? || (bd == 0 && |lit| > 257) {
      if !r.DataError? && !r.MemError? {
        r := DataError;
      }
      return;
    }
    if Longest(dist) > 0 {
      DistLevels(dist, bd);
      NotWide(dist, 6);
    }
    tb := CodeTables(bl, bd, ltab, tl, hp[..hn], td);
  }

  method TreesFixed() returns (tb: CodeTables)
    ensures TablesOk(tb, FixedLit(), FixedDist())
  {
    hide TablesFor, FixedTl, FixedTd, FixedLit, FixedDist, LengthBase, LengthExtra, DistBase, DistExtra;
    FixedLitTables();
    LitLongest();
    FixedDistTables();
    LitShape();
    DistShape();
    tb := CodeTables(FIXED_BL, FIXED_BD, FixedTl(), 0, FixedTd(), 0);
  }
}
