/**
 The canonical code that rhuff_dec_build derives from a list of code lengths.

 Codes are placed on the 2^m leaves of a binary tree of depth m = max_bits,
 longest lengths first. `Start` is the halving recurrence of the source;
 `LeafStart` is where each length's block of leaves really begins.
 */
module HuffmanCode {
  import opened Words

  // How many codes have length l.
  function Count(s: seq<nat>, l: nat): nat
  {
    if s == [] then 0
    else Count(s[..|s| - 1], l) + (if s[|s| - 1] == l then 1 else 0)
  }

  // First code of length l: the running total one level down, halved.
  function Start(s: seq<nat>, m: nat, l: nat): nat
    requires l <= m
    decreases m - l, 0
  {
    if l == m then 0 else Total(s, m, l + 1) / 2
  }

  function Total(s: seq<nat>, m: nat, l: nat): nat
    requires l <= m
    decreases m - l, 1
  {
    Start(s, m, l) + Count(s, l)
  }

  // How many earlier codes share symbol i's length.
  function Rank(s: seq<nat>, i: nat): nat
    requires i < |s|
  {
    Count(s[..i], s[i])
  }

  function Code(s: seq<nat>, m: nat, i: nat): nat
    requires i < |s| && s[i] <= m
  {
    Start(s, m, s[i]) + Rank(s, i)
  }

  // ---------- Where codes lie on the leaves ----------

  // Leaves taken by all codes longer than l.
  function LeafStart(s: seq<nat>, m: nat, l: nat): nat
    requires l <= m
    decreases m - l
  {
    if l == m then 0 else LeafStart(s, m, l + 1) + Shl(Count(s, l + 1), m - (l + 1))
  }

  // Leaves taken by the whole code: the Kraft sum scaled by 2^m.
  function Kraft(s: seq<nat>, m: nat): nat { LeafStart(s, m, 0) }

  // Leaves claimed one code at a time, the order in which the source adds them up.
  function Claimed(s: seq<nat>, m: nat): nat
    requires Fit(s, m)
  {
    if s == [] then 0
    else
      var l := s[|s| - 1];
      Claimed(s[..|s| - 1], m) + (if l == 0 then 0 else Pow2(m - l))
  }

  predicate Fit(s: seq<nat>, m: nat) { forall i :: 0 <= i < |s| ==> s[i] <= m }

  // Every running total above length one can be halved: what the source tests.
  predicate TotalsEven(s: seq<nat>, m: nat)
  {
    forall l :: 2 <= l <= m ==> Total(s, m, l) % 2 == 0
  }

  // The codes longer than l fill whole subtrees of depth l: what the test means.
  predicate WholeSubtrees(s: seq<nat>, m: nat)
  {
    forall l :: 1 <= l < m ==> Multiple(LeafStart(s, m, l), m - l)
  }

  predicate Multiple(x: nat, n: nat) { Shl(Shr(x, n), n) == x }

  predicate Buildable(s: seq<nat>, m: nat, entries: nat)
  {
    Fit(s, m) && WholeSubtrees(s, m) && Kraft(s, m) <= entries
  }

  // First leaf of symbol i.
  function Leaf(s: seq<nat>, m: nat, i: nat): nat
    requires i < |s| && s[i] <= m
  {
    LeafStart(s, m, s[i]) + Shl(Rank(s, i), m - s[i])
  }

  // Leaf x hangs below symbol i's code.
  predicate Covers(s: seq<nat>, m: nat, i: nat, x: nat)
    requires i < |s| && s[i] <= m
  {
    s[i] > 0 && Leaf(s, m, i) <= x < Leaf(s, m, i) + Pow2(m - s[i])
  }

  // ---------- The halving recurrence finds the leaf blocks ----------

  lemma ShlDouble(x: nat, n: nat)
    ensures Shl(2 * x, n) == Shl(x, n + 1)
  {
    ShlShl(x, 1, n);
  }

  lemma {:induction false} ShlInjective(x: nat, y: nat, n: nat)
    requires Shl(x, n) == Shl(y, n)
    ensures x == y
  {
    if n > 0 {
      ShlInjective(x, y, n - 1);
    }
  }

  lemma {:induction false} StartIsLeafStart(s: seq<nat>, m: nat, l: nat)
    requires 1 <= l <= m
    requires forall k :: l < k <= m ==> Total(s, m, k) % 2 == 0
    ensures Shl(Start(s, m, l), m - l) == LeafStart(s, m, l)
    decreases m - l
  {
    if l < m {
      hide Shl, Count;
      StartIsLeafStart(s, m, l + 1);
      assert Total(s, m, l + 1) == 2 * Start(s, m, l);
      ShlDouble(Start(s, m, l), m - l - 1);
      ShlAdd(Start(s, m, l + 1), Count(s, l + 1), m - l - 1);
    } else {
      assert Shl(0, 0) == 0;
    }
  }

  lemma MultipleOfShl(q: nat, n: nat)
    ensures Multiple(Shl(q, n), n)
  {
    assert 0 < Pow2(n);
    ShrParts(q, 0, n);
  }

  // The source's parity test accepts exactly the lengths whose blocks end on subtree boundaries.
  lemma EvenMeansWhole(s: seq<nat>, m: nat)
    ensures TotalsEven(s, m) <==> WholeSubtrees(s, m)
  {
    if TotalsEven(s, m) {
      forall l | 1 <= l < m
        ensures Multiple(LeafStart(s, m, l), m - l)
      {
        StartIsLeafStart(s, m, l);
        MultipleOfShl(Start(s, m, l), m - l);
      }
    }
    if WholeSubtrees(s, m) {
      forall l | 2 <= l <= m
        ensures Total(s, m, l) % 2 == 0
      {
        WholeMeansEven(s, m, l);
      }
    }
  }

  lemma {:induction false} WholeMeansEven(s: seq<nat>, m: nat, l: nat)
    requires WholeSubtrees(s, m) && 2 <= l <= m
    ensures forall k :: l <= k <= m ==> Total(s, m, k) % 2 == 0
    decreases m - l
  {
    hide Shl, Shr, Count;
    if l < m {
      WholeMeansEven(s, m, l + 1);
    }
    StartIsLeafStart(s, m, l);
    var q := Shr(LeafStart(s, m, l - 1), m - (l - 1));
    assert Multiple(LeafStart(s, m, l - 1), m - (l - 1));
    ShlAdd(Start(s, m, l), Count(s, l), m - l);
    ShlDouble(q, m - l);
    ShlInjective(Total(s, m, l), 2 * q, m - l);
  }

  // A code sits where its block starts plus its rank within the block.
  lemma CodeIsLeaf(s: seq<nat>, m: nat, i: nat)
    requires i < |s| && 0 < s[i] <= m && TotalsEven(s, m)
    ensures Shl(Code(s, m, i), m - s[i]) == Leaf(s, m, i)
  {
    StartIsLeafStart(s, m, s[i]);
    ShlAdd(Start(s, m, s[i]), Rank(s, i), m - s[i]);
  }

  // ---------- Tiling ----------

  lemma {:induction false} CountPrefix(s: seq<nat>, k: nat, l: nat)
    requires k <= |s|
    ensures Count(s[..k], l) <= Count(s, l)
    decreases |s|
  {
    if k < |s| {
      CountPrefix(s[..|s| - 1], k, l);
      assert s[..|s| - 1][..k] == s[..k];
    } else {
      assert s[..k] == s;
    }
  }

  lemma RankGrows(s: seq<nat>, i: nat, j: nat)
    requires i < j < |s| && s[i] == s[j]
    ensures Rank(s, i) < Rank(s, j)
  {
    assert s[..i + 1][..i] == s[..i];
    assert s[..j][..i + 1] == s[..i + 1];
    CountPrefix(s[..j], i + 1, s[i]);
  }

  lemma RankBelowCount(s: seq<nat>, i: nat)
    requires i < |s|
    ensures Rank(s, i) < Count(s, s[i])
  {
    assert s[..i + 1][..i] == s[..i];
    CountPrefix(s, i + 1, s[i]);
  }

  lemma {:induction false} LeafStartMono(s: seq<nat>, m: nat, k: nat, l: nat)
    requires k <= l <= m
    ensures LeafStart(s, m, l) <= LeafStart(s, m, k)
    decreases l - k
  {
    if k < l {
      LeafStartMono(s, m, k + 1, l);
    }
  }

  // Symbol i's leaves stay inside its length's block.
  lemma LeafInBlock(s: seq<nat>, m: nat, i: nat)
    requires i < |s| && 0 < s[i] <= m
    ensures LeafStart(s, m, s[i]) <= Leaf(s, m, i)
    ensures Leaf(s, m, i) + Pow2(m - s[i]) <= LeafStart(s, m, s[i] - 1)
  {
    hide Shl, Count;
    RankBelowCount(s, i);
    ShlAdd(Rank(s, i), 1, m - s[i]);
    ShlMono(Rank(s, i) + 1, Count(s, s[i]), m - s[i]);
  }

  // The order of the codes: longer ones come first, and those of one length follow each other in symbol order.
  lemma CodesInOrder(s: seq<nat>, m: nat, i: nat, j: nat)
    requires i < |s| && j < |s| && 0 < s[i] <= m && 0 < s[j] <= m
    ensures s[i] > s[j] ==> Leaf(s, m, i) + Pow2(m - s[i]) <= Leaf(s, m, j)
    ensures s[i] == s[j] && i < j ==> Code(s, m, i) < Code(s, m, j)
    ensures s[i] == s[j] && i < j && (forall k :: i < k < j ==> s[k] != s[i]) ==> Code(s, m, j) == Code(s, m, i) + 1
    ensures s[i] == m && (forall k :: 0 <= k < i ==> s[k] != m) ==> Code(s, m, i) == 0
  {
    hide Shl, Count;
    LeafInBlock(s, m, i);
    LeafInBlock(s, m, j);
    if s[i] > s[j] {
      LeafStartMono(s, m, s[j], s[i] - 1);
    } else if s[i] == s[j] && i < j {
      RankGrows(s, i, j);
      if forall k :: i < k < j ==> s[k] != s[i] {
        NextRank(s, i, j);
      }
    }
    if forall k :: 0 <= k < i ==> s[k] != s[i] {
      NoneOfLength(s[..i], s[i]);
    }
  }

  lemma {:induction false} NoneOfLength(s: seq<nat>, l: nat)
    requires forall k :: 0 <= k < |s| ==> s[k] != l
    ensures Count(s, l) == 0
  {
    if s != [] {
      NoneOfLength(s[..|s| - 1], l);
    }
  }

  lemma {:induction false} NextRank(s: seq<nat>, i: nat, j: nat)
    requires i < j < |s| && s[i] == s[j] && forall k :: i < k < j ==> s[k] != s[i]
    ensures Rank(s, j) == Rank(s, i) + 1
  {
    CountAfter(s, i, j, s[i]);
  }

  lemma {:induction false} CountAfter(s: seq<nat>, i: nat, j: nat, l: nat)
    requires i < j <= |s| && s[i] == l && forall k :: i < k < j ==> s[k] != l
    ensures Count(s[..j], l) == Count(s[..i], l) + 1
    decreases j
  {
    assert s[..j][..j - 1] == s[..j - 1];
    if i + 1 < j {
      CountAfter(s, i, j - 1, l);
    }
  }

  // No leaf hangs below two codes.
  lemma CoversDisjoint(s: seq<nat>, m: nat, i: nat, j: nat, x: nat)
    requires i < |s| && j < |s| && s[i] <= m && s[j] <= m
    requires Covers(s, m, i, x) && Covers(s, m, j, x)
    ensures i == j
  {
    LeafInBlock(s, m, i);
    LeafInBlock(s, m, j);
    if s[i] > s[j] {
      LeafStartMono(s, m, s[j], s[i] - 1);
    } else if s[j] > s[i] {
      LeafStartMono(s, m, s[i], s[j] - 1);
    } else if i < j {
      SameLengthApart(s, m, i, j);
    } else if j < i {
      SameLengthApart(s, m, j, i);
    }
  }

  lemma SameLengthApart(s: seq<nat>, m: nat, i: nat, j: nat)
    requires i < j < |s| && 0 < s[i] <= m && s[i] == s[j]
    ensures Leaf(s, m, i) + Pow2(m - s[i]) <= Leaf(s, m, j)
  {
    hide Shl, Count;
    RankGrows(s, i, j);
    ShlAdd(Rank(s, i), 1, m - s[i]);
    ShlMono(Rank(s, i) + 1, Rank(s, j), m - s[i]);
  }

  lemma {:induction false} BlockOf(s: seq<nat>, m: nat, k: nat, x: nat) returns (l: nat)
    requires k <= m && x < LeafStart(s, m, k)
    ensures k < l <= m && LeafStart(s, m, l) <= x < LeafStart(s, m, l - 1)
    decreases m - k
  {
    if x >= LeafStart(s, m, k + 1) {
      l := k + 1;
    } else {
      l := BlockOf(s, m, k + 1, x);
    }
  }

  lemma {:induction false} NthOfLength(s: seq<nat>, l: nat, q: nat) returns (i: nat)
    requires q < Count(s, l)
    ensures i < |s| && s[i] == l && Rank(s, i) == q
    decreases |s|
  {
    var last := |s| - 1;
    if s[last] == l && q == Count(s[..last], l) {
      i := last;
    } else {
      i := NthOfLength(s[..last], l, q);
      assert s[..last][..i] == s[..i];
    }
  }

  lemma {:induction false} ShrRemainder(x: nat, n: nat)
    ensures Shl(Shr(x, n), n) <= x < Shl(Shr(x, n), n) + Pow2(n)
  {
    if n > 0 {
      ShrStep(x, n);
      ShrRemainder(x / 2, n - 1);
    }
  }

  // Every leaf below the Kraft sum hangs below some code.
  lemma CoversTotal(s: seq<nat>, m: nat, x: nat) returns (i: nat)
    requires x < Kraft(s, m)
    ensures i < |s| && s[i] <= m && Covers(s, m, i, x)
  {
    var l := BlockOf(s, m, 0, x);
    var y := x - LeafStart(s, m, l);
    var q := Shr(y, m - l);
    ShrRemainder(y, m - l);
    if q >= Count(s, l) {
      ShlMono(Count(s, l), q, m - l);
    }
    i := NthOfLength(s, l, q);
  }

  // The code intervals tile [0, Kraft) without gap or overlap.
  lemma Tiling(s: seq<nat>, m: nat, x: nat)
    requires Fit(s, m)
    ensures x < Kraft(s, m) <==> exists i :: 0 <= i < |s| && Covers(s, m, i, x)
    ensures forall i, j :: 0 <= i < |s| && 0 <= j < |s| && Covers(s, m, i, x) && Covers(s, m, j, x) ==> i == j
  {
    if x < Kraft(s, m) {
      var i := CoversTotal(s, m, x);
    }
    forall i | 0 <= i < |s| && Covers(s, m, i, x)
      ensures x < Kraft(s, m)
    {
      LeafInBlock(s, m, i);
      LeafStartMono(s, m, 0, s[i] - 1);
    }
    forall i, j | 0 <= i < |s| && 0 <= j < |s| && Covers(s, m, i, x) && Covers(s, m, j, x)
      ensures i == j
    {
      CoversDisjoint(s, m, i, j, x);
    }
  }

  // Covering a leaf is being a prefix of its index.
  lemma CoversIsPrefix(s: seq<nat>, m: nat, i: nat, x: nat)
    requires i < |s| && 0 < s[i] <= m && TotalsEven(s, m)
    ensures Covers(s, m, i, x) <==> Shr(x, m - s[i]) == Code(s, m, i)
  {
    hide Shl, Shr, Code, Leaf;
    var n := m - s[i];
    CodeIsLeaf(s, m, i);
    ShrRemainder(x, n);
    if Covers(s, m, i, x) {
      ShrParts(Code(s, m, i), x - Leaf(s, m, i), n);
    }
  }

  // ---------- Two ways of adding up the leaves agree ----------

  lemma {:induction false} LeafStartAppend(s: seq<nat>, m: nat, a: nat, l: nat)
    requires a <= m && l <= m
    ensures LeafStart(s + [a], m, l) == LeafStart(s, m, l) + (if a > l then Pow2(m - a) else 0)
    decreases m - l
  {
    if l < m {
      hide Shl;
      LeafStartAppend(s, m, a, l + 1);
      assert (s + [a])[..|s|] == s;
      if a == l + 1 {
        ShlAdd(Count(s, l + 1), 1, m - (l + 1));
      }
    }
  }

  lemma {:induction false} ClaimedIsKraft(s: seq<nat>, m: nat)
    requires Fit(s, m)
    ensures Claimed(s, m) == Kraft(s, m)
  {
    if s == [] {
      EmptyLeaves(m, 0);
    } else {
      var front, l := s[..|s| - 1], s[|s| - 1];
      ClaimedIsKraft(front, m);
      LeafStartAppend(front, m, l, 0);
      assert s == front + [l];
    }
  }

  lemma {:induction false} EmptyLeaves(m: nat, l: nat)
    requires l <= m
    ensures LeafStart([], m, l) == 0
    decreases m - l
  {
    if l < m {
      EmptyLeaves(m, l + 1);
    }
  }

  // ---------- Complete trees, and the ones that are not ----------

  lemma {:induction false} ShlMultiple(x: nat, a: nat, n: nat)
    requires a <= n
    ensures Multiple(Shl(x, n), a)
  {
    ShlShl(x, n - a, a);
    MultipleOfShl(Shl(x, n - a), a);
  }

  lemma MultipleDifference(x: nat, y: nat, n: nat)
    requires Multiple(x + y, n) && Multiple(y, n)
    ensures Multiple(x, n)
  {
    var p, q := Shr(x + y, n), Shr(y, n);
    if p < q {
      ShlMono(p + 1, q, n);
      ShlAdd(p, 1, n);
    } else {
      ShlAdd(p - q, q, n);
      MultipleOfShl(p - q, n);
    }
  }

  lemma {:induction false} ShorterAreWhole(s: seq<nat>, m: nat, l: nat, k: nat)
    requires k <= l <= m && Multiple(LeafStart(s, m, k), m - l)
    ensures Multiple(LeafStart(s, m, l), m - l)
    decreases l - k
  {
    if k < l {
      ShlMultiple(Count(s, k + 1), m - l, m - (k + 1));
      MultipleDifference(LeafStart(s, m, k + 1), Shl(Count(s, k + 1), m - (k + 1)), m - l);
      ShorterAreWhole(s, m, l, k + 1);
    }
  }

  // Every complete tree is accepted: a Kraft sum of one already forces whole subtrees.
  lemma CompleteIsBuildable(s: seq<nat>, m: nat)
    requires Fit(s, m) && Kraft(s, m) == Pow2(m)
    ensures Buildable(s, m, Pow2(m))
  {
    forall l | 1 <= l < m
      ensures Multiple(LeafStart(s, m, l), m - l)
    {
      ShlMultiple(1, m - l, m);
      ShorterAreWhole(s, m, l, 0);
    }
  }

  // The Kraft sum is the running total at length one, the total the source never tests.
  lemma KraftIsTotal(s: seq<nat>, m: nat)
    requires m >= 1 && TotalsEven(s, m)
    ensures Kraft(s, m) == Shl(Total(s, m, 1), m - 1)
  {
    hide Shl, Count;
    StartIsLeafStart(s, m, 1);
    ShlAdd(Start(s, m, 1), Count(s, 1), m - 1);
  }

  lemma {:induction false} ShlCompare(x: nat, y: nat, n: nat)
    ensures Shl(x, n) < Shl(y, n) <==> x < y
    ensures Shl(x, n) == Shl(y, n) <==> x == y
  {
    if n > 0 {
      ShlCompare(x, y, n - 1);
    }
  }

  // The header promises to reject every set of lengths that is not a complete tree. Exactly these
  // are accepted against it: even totals above length one, a total other than two at length one,
  // and leaves that fit the table.
  lemma AcceptedIncomplete(s: seq<nat>, m: nat, entries: nat)
    requires Fit(s, m) && m >= 1
    ensures Buildable(s, m, entries) && Kraft(s, m) != Pow2(m) <==>
            TotalsEven(s, m) && Total(s, m, 1) != 2 && Shl(Total(s, m, 1), m - 1) <= entries
  {
    hide Shl, Total;
    EvenMeansWhole(s, m);
    if TotalsEven(s, m) {
      KraftIsTotal(s, m);
      ShlShl(1, 1, m - 1);
      assert Shl(1, 1) == 2 by { Pow2Values(); }
      ShlCompare(Total(s, m, 1), 2, m - 1);
    }
  }

  // In a table of just 2^m entries they are the sets with fewer than two subtrees below the root.
  lemma AcceptedInExactTable(s: seq<nat>, m: nat)
    requires Fit(s, m) && m >= 1
    ensures Buildable(s, m, Pow2(m)) && Kraft(s, m) < Pow2(m) <==> TotalsEven(s, m) && Total(s, m, 1) < 2
    ensures Buildable(s, m, Pow2(m)) && Kraft(s, m) == Pow2(m) <==> TotalsEven(s, m) && Total(s, m, 1) == 2
  {
    hide Shl, Total;
    EvenMeansWhole(s, m);
    if TotalsEven(s, m) {
      KraftIsTotal(s, m);
      ShlShl(1, 1, m - 1);
      assert Shl(1, 1) == 2 by { Pow2Values(); }
      ShlCompare(Total(s, m, 1), 2, m - 1);
    }
  }

  // A lone code of length one is incomplete and accepted; three of them are oversubscribed and
  // accepted as soon as the table is larger than it has to be.
  lemma IncompleteAccepted()
    ensures Buildable([1], 1, Pow2(1)) && Kraft([1], 1) < Pow2(1)
    ensures Buildable([1, 1, 1], 1, 4) && Kraft([1, 1, 1], 1) > Pow2(1)
  {
    var s: seq<nat>, t: seq<nat> := [1], [1, 1, 1];
    assert s[..0] == [] && t[..2] == [1, 1] && t[..2][..1] == [1];
    assert Count(s, 1) == 1 && Count(t, 1) == 3;
    assert LeafStart(s, 1, 1) == 0 && LeafStart(t, 1, 1) == 0;
    assert Shl(1, 0) == 1 && Shl(3, 0) == 3 && Shl(1, 1) == 2;
    assert Kraft(s, 1) == 1 && Kraft(t, 1) == 3;
  }

  // ---------- Codes fit the 16-bit scratch array ----------

  lemma {:induction false} StartBound(s: seq<nat>, m: nat, l: nat)
    requires l <= m
    ensures Total(s, m, l) <= LongerOrEqual(s, l)
    decreases m - l
  {
    if l < m {
      StartBound(s, m, l + 1);
    }
    LongerSplit(s, l);
  }

  function LongerOrEqual(s: seq<nat>, l: nat): nat
  {
    if s == [] then 0
    else LongerOrEqual(s[..|s| - 1], l) + (if s[|s| - 1] >= l then 1 else 0)
  }

  lemma {:induction false} LongerSplit(s: seq<nat>, l: nat)
    ensures LongerOrEqual(s, l) == Count(s, l) + LongerOrEqual(s, l + 1) <= |s|
  {
    if s != [] {
      LongerSplit(s[..|s| - 1], l);
    }
  }

  // Every code is below the number of symbols, so storing it in sixteen bits loses nothing.
  lemma CodeBound(s: seq<nat>, m: nat, i: nat)
    requires i < |s| && s[i] <= m
    ensures Code(s, m, i) < |s|
  {
    StartBound(s, m, s[i]);
    LongerSplit(s, s[i]);
    RankBelowCount(s, i);
  }

  // A code fits its own number of bits exactly when its leaf lies in the tree.
  lemma CodeFitsExactly(s: seq<nat>, m: nat, i: nat)
    requires i < |s| && 0 < s[i] <= m && TotalsEven(s, m)
    ensures Code(s, m, i) < Pow2(s[i]) <==> Leaf(s, m, i) < Pow2(m)
  {
    hide Shl, Code, Leaf;
    CodeIsLeaf(s, m, i);
    ShlShl(1, s[i], m - s[i]);
    ShlCompare(Code(s, m, i), Pow2(s[i]), m - s[i]);
  }

  // So all codes fit when the Kraft sum does.
  lemma CodeFitsLength(s: seq<nat>, m: nat, i: nat)
    requires i < |s| && 0 < s[i] <= m && TotalsEven(s, m) && Kraft(s, m) <= Pow2(m)
    ensures Code(s, m, i) < Pow2(s[i])
  {
    LeafInBlock(s, m, i);
    LeafStartMono(s, m, 0, s[i] - 1);
    CodeFitsExactly(s, m, i);
  }
}
