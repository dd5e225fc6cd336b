/**
 * The order in which the map draws its regions (sortedPrefectures in
 * components/JapanMap.tsx). Later regions are painted on top, so the sort
 * puts the hovered region last and, among the others, placed regions after
 * unplaced ones. The comparator only ever distinguishes four ranks, and
 * Array.prototype.sort is stable, so the sorted list is the regions of rank
 * 0, 1, 2 and 3 in turn, each group in its original order.
 */
module RenderOrder {
  import opened Types

  /** placedPieces.some(p => p.prefectureCode === code) */
  predicate IsPlaced(placed: seq<PuzzlePiece>, code: int)
  {
    exists i :: 0 <= i < |placed| && placed[i].prefectureCode == code
  }

  /** hoveredRegionCode === code, with null matching no region. */
  predicate IsHovered(hovered: Option<int>, code: int)
  {
    hovered == Some(code)
  }

  /** The comparator of the sort: 1 when `a` goes after `b`, -1 when before, 0 when tied. */
  function Compare(a: Prefecture, b: Prefecture, placed: seq<PuzzlePiece>, hovered: Option<int>): int
  {
    var aPlaced := IsPlaced(placed, a.code);
    var bPlaced := IsPlaced(placed, b.code);
    var aHover := IsHovered(hovered, a.code);
    var bHover := IsHovered(hovered, b.code);
    if aHover && !bHover then 1
    else if !aHover && bHover then -1
    else if aPlaced && !bPlaced then 1
    else if !aPlaced && bPlaced then -1
    else 0
  }

  /** The layer a region is drawn in: hovering outweighs being placed. */
  function Rank(p: Prefecture, placed: seq<PuzzlePiece>, hovered: Option<int>): (r: nat)
    ensures r < 4
  {
    (if IsHovered(hovered, p.code) then 2 else 0) + (if IsPlaced(placed, p.code) then 1 else 0)
  }

  /** The comparator orders regions by rank and ties exactly the regions of equal rank. */
  lemma CompareIsRankOrder(a: Prefecture, b: Prefecture, placed: seq<PuzzlePiece>, hovered: Option<int>)
    ensures Compare(a, b, placed, hovered) == 1 <==> Rank(a, placed, hovered) > Rank(b, placed, hovered)
    ensures Compare(a, b, placed, hovered) == -1 <==> Rank(a, placed, hovered) < Rank(b, placed, hovered)
    ensures Compare(a, b, placed, hovered) == 0 <==> Rank(a, placed, hovered) == Rank(b, placed, hovered)
  {
  }

  /** The regions of rank `k`, in their original order. */
  function WithRank(ps: seq<Prefecture>, placed: seq<PuzzlePiece>, hovered: Option<int>, k: nat): (r: seq<Prefecture>)
    ensures forall i :: 0 <= i < |r| ==> Rank(r[i], placed, hovered) == k
  {
    if ps == [] then []
    else (if Rank(ps[0], placed, hovered) == k then [ps[0]] else []) + WithRank(ps[1..], placed, hovered, k)
  }

  /** The stable sort of `prefectures` under Compare. */
  function SortedPrefectures(ps: seq<Prefecture>, placed: seq<PuzzlePiece>, hovered: Option<int>): seq<Prefecture>
  {
    WithRank(ps, placed, hovered, 0) + WithRank(ps, placed, hovered, 1) +
    WithRank(ps, placed, hovered, 2) + WithRank(ps, placed, hovered, 3)
  }

  /** Non-decreasing rank along a sequence: what the comparator asks of the sort. */
  predicate RankSorted(s: seq<Prefecture>, placed: seq<PuzzlePiece>, hovered: Option<int>)
  {
    forall i, j :: 0 <= i < j < |s| ==> Rank(s[i], placed, hovered) <= Rank(s[j], placed, hovered)
  }

  lemma {:induction false} WithRankPartition(ps: seq<Prefecture>, placed: seq<PuzzlePiece>, hovered: Option<int>)
    ensures multiset(ps) == multiset(WithRank(ps, placed, hovered, 0)) + multiset(WithRank(ps, placed, hovered, 1)) +
                            multiset(WithRank(ps, placed, hovered, 2)) + multiset(WithRank(ps, placed, hovered, 3))
  {
    if ps != [] {
      var t := ps[1..];
      WithRankPartition(t, placed, hovered);
      assert ps == [ps[0]] + t;
      WithRankStep(ps, placed, hovered, 0);
      WithRankStep(ps, placed, hovered, 1);
      WithRankStep(ps, placed, hovered, 2);
      WithRankStep(ps, placed, hovered, 3);
      AddToGroup(multiset{ps[0]}, multiset(WithRank(t, placed, hovered, 0)), multiset(WithRank(t, placed, hovered, 1)),
                 multiset(WithRank(t, placed, hovered, 2)), multiset(WithRank(t, placed, hovered, 3)),
                 Rank(ps[0], placed, hovered));
    }
  }

  /** Adding one element to the whole is adding it to the group of its rank. */
  lemma AddToGroup(h: multiset<Prefecture>, m0: multiset<Prefecture>, m1: multiset<Prefecture>,
                   m2: multiset<Prefecture>, m3: multiset<Prefecture>, r: nat)
    requires r < 4
    ensures h + (m0 + m1 + m2 + m3) ==
            (if r == 0 then h else multiset{}) + m0 + ((if r == 1 then h else multiset{}) + m1) +
            ((if r == 2 then h else multiset{}) + m2) + ((if r == 3 then h else multiset{}) + m3)
  {
  }

  lemma WithRankStep(ps: seq<Prefecture>, placed: seq<PuzzlePiece>, hovered: Option<int>, k: nat)
    requires ps != []
    ensures multiset(WithRank(ps, placed, hovered, k)) ==
            (if Rank(ps[0], placed, hovered) == k then multiset{ps[0]} else multiset{}) +
            multiset(WithRank(ps[1..], placed, hovered, k))
  {
  }

  /** Sorting only reorders the regions. */
  lemma SortedIsPermutation(ps: seq<Prefecture>, placed: seq<PuzzlePiece>, hovered: Option<int>)
    ensures multiset(SortedPrefectures(ps, placed, hovered)) == multiset(ps)
    ensures |SortedPrefectures(ps, placed, hovered)| == |ps|
  {
    WithRankPartition(ps, placed, hovered);
    assert |multiset(SortedPrefectures(ps, placed, hovered))| == |multiset(ps)|;
  }

  lemma ConcatRankSorted(a: seq<Prefecture>, b: seq<Prefecture>, placed: seq<PuzzlePiece>, hovered: Option<int>, m: nat)
    requires RankSorted(a, placed, hovered) && RankSorted(b, placed, hovered)
    requires forall i :: 0 <= i < |a| ==> Rank(a[i], placed, hovered) <= m
    requires forall j :: 0 <= j < |b| ==> m <= Rank(b[j], placed, hovered)
    ensures RankSorted(a + b, placed, hovered)
  {
    var s := a + b;
    forall i, j | 0 <= i < j < |s| ensures Rank(s[i], placed, hovered) <= Rank(s[j], placed, hovered) {
      if j < |a| {
        assert s[i] == a[i] && s[j] == a[j];
      } else if i >= |a| {
        assert s[i] == b[i - |a|] && s[j] == b[j - |a|];
      } else {
        assert s[i] == a[i] && s[j] == b[j - |a|];
      }
    }
  }

  /** The sorted list never draws a region under one of lower rank. */
  lemma SortedIsRankSorted(ps: seq<Prefecture>, placed: seq<PuzzlePiece>, hovered: Option<int>)
    ensures RankSorted(SortedPrefectures(ps, placed, hovered), placed, hovered)
  {
    var w0 := WithRank(ps, placed, hovered, 0);
    var w1 := WithRank(ps, placed, hovered, 1);
    var w2 := WithRank(ps, placed, hovered, 2);
    var w3 := WithRank(ps, placed, hovered, 3);
    ConcatRankSorted(w0, w1, placed, hovered, 0);
    ConcatRankSorted(w0 + w1, w2, placed, hovered, 1);
    ConcatRankSorted(w0 + w1 + w2, w3, placed, hovered, 2);
  }

  /** The sort keeps the hovered region after every other region. */
  lemma HoveredDrawnLast(ps: seq<Prefecture>, placed: seq<PuzzlePiece>, hovered: Option<int>)
    ensures var s := SortedPrefectures(ps, placed, hovered);
            forall i, j :: 0 <= i < j < |s| && IsHovered(hovered, s[i].code) ==> IsHovered(hovered, s[j].code)
  {
    SortedIsRankSorted(ps, placed, hovered);
  }

  /** Among regions that are not hovered, placed ones are drawn after unplaced ones. */
  lemma PlacedDrawnAfterUnplaced(ps: seq<Prefecture>, placed: seq<PuzzlePiece>, hovered: Option<int>)
    ensures var s := SortedPrefectures(ps, placed, hovered);
            forall i, j :: 0 <= i < j < |s| && !IsHovered(hovered, s[i].code) && !IsHovered(hovered, s[j].code) &&
                             IsPlaced(placed, s[i].code)
                           ==> IsPlaced(placed, s[j].code)
  {
    SortedIsRankSorted(ps, placed, hovered);
  }

  lemma {:induction false} WithRankOfConcat(a: seq<Prefecture>, b: seq<Prefecture>, placed: seq<PuzzlePiece>, hovered: Option<int>, k: nat)
    ensures WithRank(a + b, placed, hovered, k) == WithRank(a, placed, hovered, k) + WithRank(b, placed, hovered, k)
  {
    if a != [] {
      var t := a[1..];
      assert (a + b)[0] == a[0] && (a + b)[1..] == t + b;
      WithRankOfConcat(t, b, placed, hovered, k);
      var wt, wb := WithRank(t, placed, hovered, k), WithRank(b, placed, hovered, k);
      if Rank(a[0], placed, hovered) == k {
        assert WithRank(a + b, placed, hovered, k) == [a[0]] + (wt + wb);
        assert WithRank(a, placed, hovered, k) == [a[0]] + wt;
        assert [a[0]] + (wt + wb) == ([a[0]] + wt) + wb;
      } else {
        assert WithRank(a + b, placed, hovered, k) == [] + (wt + wb);
        assert WithRank(a, placed, hovered, k) == [] + wt;
      }
    } else {
      assert a + b == b;
    }
  }

  lemma {:induction false} WithRankOfWithRank(ps: seq<Prefecture>, placed: seq<PuzzlePiece>, hovered: Option<int>, j: nat, k: nat)
    ensures WithRank(WithRank(ps, placed, hovered, j), placed, hovered, k) ==
            if j == k then WithRank(ps, placed, hovered, k) else []
  {
    if ps != [] {
      var head := if Rank(ps[0], placed, hovered) == j then [ps[0]] else [];
      WithRankOfConcat(head, WithRank(ps[1..], placed, hovered, j), placed, hovered, k);
      WithRankOfWithRank(ps[1..], placed, hovered, j, k);
      if head != [] {
        assert head[1..] == [];
      }
    }
  }

  /**
   * Stability: the regions of any one rank keep their original relative
   * order. With the permutation and rank order above, this pins the sorted
   * list down completely.
   */
  lemma SortIsStable(ps: seq<Prefecture>, placed: seq<PuzzlePiece>, hovered: Option<int>, k: nat)
    ensures WithRank(SortedPrefectures(ps, placed, hovered), placed, hovered, k) == WithRank(ps, placed, hovered, k)
  {
    var w0 := WithRank(ps, placed, hovered, 0);
    var w1 := WithRank(ps, placed, hovered, 1);
    var w2 := WithRank(ps, placed, hovered, 2);
    var w3 := WithRank(ps, placed, hovered, 3);
    WithRankOfConcat(w0, w1, placed, hovered, k);
    WithRankOfConcat(w0 + w1, w2, placed, hovered, k);
    WithRankOfConcat(w0 + w1 + w2, w3, placed, hovered, k);
    WithRankOfWithRank(ps, placed, hovered, 0, k);
    WithRankOfWithRank(ps, placed, hovered, 1, k);
    WithRankOfWithRank(ps, placed, hovered, 2, k);
    WithRankOfWithRank(ps, placed, hovered, 3, k);
    if k > 3 {
      WithRankEmptyAboveThree(ps, placed, hovered, k);
    }
    OnlyOneGroup(WithRank(w0, placed, hovered, k), WithRank(w1, placed, hovered, k),
                 WithRank(w2, placed, hovered, k), WithRank(w3, placed, hovered, k),
                 WithRank(ps, placed, hovered, k), k);
  }

  /** Four groups of which only the `k`-th can be non-empty concatenate to that group. */
  lemma OnlyOneGroup(u0: seq<Prefecture>, u1: seq<Prefecture>, u2: seq<Prefecture>, u3: seq<Prefecture>,
                     w: seq<Prefecture>, k: nat)
    requires u0 == (if k == 0 then w else []) && u1 == (if k == 1 then w else [])
    requires u2 == (if k == 2 then w else []) && u3 == (if k == 3 then w else [])
    requires k > 3 ==> w == []
    ensures u0 + u1 + u2 + u3 == w
  {
    if k == 0 {
      assert u0 + u1 + u2 + u3 == w + [] + [] + [];
    } else if k == 1 {
      assert u0 + u1 + u2 + u3 == [] + w + [] + [];
    } else if k == 2 {
      assert u0 + u1 + u2 + u3 == [] + [] + w + [];
    } else if k == 3 {
      assert u0 + u1 + u2 + u3 == [] + [] + [] + w;
    } else {
      assert u0 + u1 + u2 + u3 == [] + [] + [] + [];
    }
  }

  lemma {:induction false} WithRankEmptyAboveThree(ps: seq<Prefecture>, placed: seq<PuzzlePiece>, hovered: Option<int>, k: nat)
    requires k > 3
    ensures WithRank(ps, placed, hovered, k) == []
  {
    if ps != [] {
      WithRankEmptyAboveThree(ps[1..], placed, hovered, k);
    }
  }
}
