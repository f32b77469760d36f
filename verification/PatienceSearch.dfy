/** The loops that compute the patience matches, each proved equal to its specification. */
module PatienceSearch {
  import opened Matching
  import opened Patience
  import CommonSubsequence
  import LongestIncreasing
  import Sorting
  import Seqs

  datatype Occurrence = Occurrence(count: nat, index: nat)

  /** `occurrences` counts the lines of [lo, hi) and holds the first index of each. */
  ghost predicate Counts<T>(lines: seq<T>, lo: nat, hi: nat, occurrences: map<T, Occurrence>)
    requires lo <= hi <= |lines|
  {
    && (forall k :: lo <= k < hi ==> lines[k] in occurrences)
    && forall line :: line in occurrences ==>
      var seen := occurrences[line];
      && lo <= seen.index < hi && lines[seen.index] == line && seen.count >= 1
      && (seen.count == 1 <==> Once(lines, lo, hi, seen.index))
  }

  method LineOccurrences<T(==)>(lines: seq<T>, lo: nat, hi: nat) returns (occurrences: map<T, Occurrence>)
    requires lo <= hi <= |lines|
    ensures Counts(lines, lo, hi, occurrences)
  {
    occurrences := map[];
    for i := lo to hi
      invariant Counts(lines, lo, i, occurrences)
    {
      var line := lines[i];
      if line in occurrences {
        var seen := occurrences[line];
        assert !Once(lines, lo, i + 1, seen.index) by {
          assert lines[i] == lines[seen.index];
        }
        occurrences := occurrences[line := seen.(count := seen.count + 1)];
      } else {
        occurrences := occurrences[line := Occurrence(1, i)];
      }
    }
  }

  predicate PairLeq(p: Pair, q: Pair) {
    p.0 < q.0 || (p.0 == q.0 && p.1 <= q.1)
  }

  /** Sorting by (base, side) puts any arrangement of the anchors into the specified order. */
  lemma {:induction false} SortedAnchors(found: seq<Pair>, expected: seq<Pair>)
    requires multiset(found) == multiset(expected)
    requires ByBase(expected)
    ensures Sorting.TotalPreorder(PairLeq) && Sorting.Sort(PairLeq, found) == expected
  {
    Sorting.SortedIsUnique(PairLeq, Sorting.Sort(PairLeq, found), expected);
  }

  /** The hash map is walked in an arbitrary order; the result does not depend on it. */
  method UniqueLisAnchors<T(==)>(base: seq<T>, side: seq<T>, box: Box) returns (anchors: seq<Pair>)
    requires Fits(base, side, box)
    ensures anchors == LisAnchors(base, side, box)
  {
    var baseOccurrences := LineOccurrences(base, box.b0, box.b1);
    var sideOccurrences := LineOccurrences(side, box.s0, box.s1);
    var found: seq<Pair> := [];
    var remaining := baseOccurrences.Keys;
    while remaining != {}
      invariant remaining <= baseOccurrences.Keys
      invariant forall p: Pair ::
        multiset(found)[p] == (if IsAnchor(base, side, box, p) && base[p.0] !in remaining then 1 else 0)
      decreases remaining
    {
      var line :| line in remaining;
      remaining := remaining - {line};
      var inBase := baseOccurrences[line];
      if inBase.count == 1 && line in sideOccurrences && sideOccurrences[line].count == 1 {
        found := found + [(inBase.index, sideOccurrences[line].index)];
      }
    }
    ghost var expected := AnchorsFrom(base, side, box, box.b0);
    AnchorsFromExact(base, side, box, box.b0);
    AnchorsFromOrdered(base, side, box, box.b0);
    assert multiset(found) == multiset(expected);
    SortedAnchors(found, expected);
    anchors := LongestIncreasing.LongestIncreasingBySide(Sorting.Sort(PairLeq, found));
  }

  method PushCommonPrefix<T(==)>(base: seq<T>, side: seq<T>, box: Box, matches: seq<Pair>)
    returns (p: nat, result: seq<Pair>)
    requires Fits(base, side, box)
    ensures p == CommonPrefix(base, side, box) && result == matches + Diagonal(box.b0, box.s0, p)
  {
    p, result := 0, matches;
    while box.b0 + p < box.b1 && box.s0 + p < box.s1 && base[box.b0 + p] == side[box.s0 + p]
      invariant box.b0 + p <= box.b1 && box.s0 + p <= box.s1
      invariant result == matches + Diagonal(box.b0, box.s0, p)
      invariant CommonPrefix(base, side, box) ==
        p + CommonPrefix(base, side, box.(b0 := box.b0 + p, s0 := box.s0 + p))
    {
      DiagonalEnd(box.b0, box.s0, p);
      result := result + [(box.b0 + p, box.s0 + p)];
      p := p + 1;
    }
  }

  method CollectCommonSuffix<T(==)>(base: seq<T>, side: seq<T>, box: Box) returns (q: nat, suffix: seq<Pair>)
    requires Fits(base, side, box)
    ensures q == CommonSuffix(base, side, box) && suffix == Diagonal(box.b1 - q, box.s1 - q, q)
  {
    hide CommonSuffix, Diagonal, Seqs.Reversed;
    q := 0;
    var backwards: seq<Pair> := [];
    Seqs.NothingReversed<Pair>();
    assert Diagonal(box.b1, box.s1, 0) == [] by { EmptyDiagonal(box.b1, box.s1); }
    while box.b0 < box.b1 - q && box.s0 < box.s1 - q && base[box.b1 - q - 1] == side[box.s1 - q - 1]
      invariant box.b0 <= box.b1 - q && box.s0 <= box.s1 - q
      invariant Seqs.Reversed(backwards) == Diagonal(box.b1 - q, box.s1 - q, q)
      invariant CommonSuffix(base, side, box) ==
        q + CommonSuffix(base, side, box.(b1 := box.b1 - q, s1 := box.s1 - q))
    {
      SuffixGrows(base, side, box.(b1 := box.b1 - q, s1 := box.s1 - q));
      q := q + 1;
      DiagonalStarts(box.b1 - q, box.s1 - q, q - 1);
      Seqs.ReversedPush(backwards, (box.b1 - q, box.s1 - q));
      backwards := backwards + [(box.b1 - q, box.s1 - q)];
    }
    SuffixStops(base, side, box.(b1 := box.b1 - q, s1 := box.s1 - q));
    suffix := Seqs.Reversed(backwards);
  }

  lemma {:induction false} EmptyDiagonal(b: nat, s: nat)
    ensures Diagonal(b, s, 0) == []
  {
  }

  lemma {:induction false} DiagonalStarts(b: nat, s: nat, n: nat)
    ensures Diagonal(b, s, n + 1) == [(b, s)] + Diagonal(b + 1, s + 1, n)
  {
  }

  lemma {:induction false} SuffixGrows<T>(base: seq<T>, side: seq<T>, box: Box)
    requires Fits(base, side, box) && box.b0 < box.b1 && box.s0 < box.s1 && base[box.b1 - 1] == side[box.s1 - 1]
    ensures CommonSuffix(base, side, box) == 1 + CommonSuffix(base, side, box.(b1 := box.b1 - 1, s1 := box.s1 - 1))
  {
  }

  lemma {:induction false} SuffixStops<T>(base: seq<T>, side: seq<T>, box: Box)
    requires Fits(base, side, box)
    requires !(box.b0 < box.b1 && box.s0 < box.s1 && base[box.b1 - 1] == side[box.s1 - 1])
    ensures CommonSuffix(base, side, box) == 0
  {
  }

  lemma {:induction false} Regroup(a: seq<Pair>, b: seq<Pair>, c: seq<Pair>, d: seq<Pair>)
    ensures a + b + c + d == a + (b + c + d)
  {
  }

  method CollectPatienceMatches<T(==)>(base: seq<T>, side: seq<T>, ghost anchoring: Anchoring, box: Box,
                                       matches: seq<Pair>)
    returns (result: seq<Pair>)
    requires Sound(base, side, anchoring) && PicksLis(base, side, anchoring)
    requires Fits(base, side, box)
    ensures result == matches + PatienceMatches(base, side, anchoring, box)
    decreases box.b1 - box.b0, 2
  {
    hide IsMatching, CommonPrefix, CommonSuffix, Diagonal, MiddleMatches, Sound, PicksLis;
    var p, prefixed := PushCommonPrefix(base, side, box, matches);
    var inner := box.(b0 := box.b0 + p, s0 := box.s0 + p);
    var q, suffix := CollectCommonSuffix(base, side, inner);
    var mid := Box(box.b0 + p, box.b1 - q, box.s0 + p, box.s1 - q);
    var collected := CollectMiddle(base, side, anchoring, mid, prefixed);
    result := collected + suffix;
    ghost var prefix, middle := Diagonal(box.b0, box.s0, p), MiddleMatches(base, side, anchoring, mid);
    assert PatienceMatches(base, side, anchoring, box) == prefix + middle + suffix;
    Regroup(matches, prefix, middle, suffix);
  }

  method CollectMiddle<T(==)>(base: seq<T>, side: seq<T>, ghost anchoring: Anchoring, box: Box, matches: seq<Pair>)
    returns (result: seq<Pair>)
    requires Sound(base, side, anchoring) && PicksLis(base, side, anchoring)
    requires Fits(base, side, box)
    ensures result == matches + MiddleMatches(base, side, anchoring, box)
    decreases box.b1 - box.b0, 1
  {
    result := matches;
    if box.b0 < box.b1 && box.s0 < box.s1 {
      var anchors := UniqueLisAnchors(base, side, box);
      if anchors == [] {
        result := CommonSubsequence.CollectLcsMatches(base, side, box, result);
      } else {
        result := CollectBetweenAnchors(base, side, anchoring, box, anchors, result);
      }
    }
  }

  method CollectBetweenAnchors<T(==)>(base: seq<T>, side: seq<T>, ghost anchoring: Anchoring, box: Box,
                                      anchors: seq<Pair>, matches: seq<Pair>)
    returns (result: seq<Pair>)
    requires Sound(base, side, anchoring) && PicksLis(base, side, anchoring)
    requires Fits(base, side, box) && anchors != [] && IsMatching(base, side, box, anchors)
    ensures result == matches + BetweenAnchors(base, side, anchoring, box, anchors)
    decreases box.b1 - box.b0, 0
  {
    hide PatienceMatches, Sound, PicksLis;
    result := matches;
    var rest, todo := box, anchors;
    ghost var goal := matches + BetweenAnchors(base, side, anchoring, box, anchors);
    while todo != []
      invariant Fits(base, side, rest) && IsMatching(base, side, rest, todo)
      invariant rest.b1 - rest.b0 < box.b1 - box.b0 || (todo == anchors && rest == box)
      invariant result + BetweenAnchors(base, side, anchoring, rest, todo) == goal
      decreases |todo|
    {
      var anchor := todo[0];
      var left := rest.(b1 := anchor.0, s1 := anchor.1);
      var right := rest.(b0 := anchor.0 + 1, s0 := anchor.1 + 1);
      Regroup(result, PatienceMatches(base, side, anchoring, left), [anchor], BetweenAnchors(base, side, anchoring,
              right, todo[1..]));
      result := CollectPatienceMatches(base, side, anchoring, left, result);
      result := result + [anchor];
      rest, todo := right, todo[1..];
    }
    result := CollectPatienceMatches(base, side, anchoring, rest, result);
  }

  /** The final sort changes nothing: the matches are collected in order. */
  method MatchingPairs<T(==)>(base: seq<T>, side: seq<T>) returns (matches: seq<Pair>)
    ensures matches == PatienceMatches(base, side, LisAnchoring(base, side), Box(0, |base|, 0, |side|))
    ensures IsMatching(base, side, Box(0, |base|, 0, |side|), matches)
  {
    var box := Box(0, |base|, 0, |side|);
    ghost var anchoring := LisAnchoring(base, side);
    var collected := CollectPatienceMatches(base, side, anchoring, box, []);
    PatienceMatchesValid(base, side, anchoring, box);
    Seqs.Empty(PatienceMatches(base, side, anchoring, box));
    MatchingByBase(base, side, box, collected);
    SortedAnchors(collected, collected);
    matches := Sorting.Sort(PairLeq, collected);
  }
}
