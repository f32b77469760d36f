/** What the patience matches are, beyond being a matching: what is matched first, and how much. */
module PatienceLaws {
  import opened Matching
  import opened Patience
  import CommonSubsequence
  import Seqs

  /** A line is fit for an anchor when no other line of its range is equal to it. */
  lemma {:induction false} OnceIsUnique<T>(lines: seq<T>, lo: nat, hi: nat, i: nat)
    requires lo <= i < hi <= |lines|
    ensures Once(lines, lo, hi, i) <==> multiset(lines[lo..hi])[lines[i]] == 1
  {
    var before, after := lines[lo..i], lines[i + 1..hi];
    assert lines[lo..hi] == before + ([lines[i]] + after);
    assert multiset(lines[lo..hi])[lines[i]] == multiset(before)[lines[i]] + (1 + multiset(after)[lines[i]]);
    if Once(lines, lo, hi, i) {
      forall k | 0 <= k < |before| ensures before[k] != lines[i] {
        assert lines[lo + k] == before[k];
      }
      forall k | 0 <= k < |after| ensures after[k] != lines[i] {
        assert lines[i + 1 + k] == after[k];
      }
    } else {
      var k :| lo <= k < hi && lines[k] == lines[i] && k != i;
      assert if k < i then before[k - lo] == lines[i] else after[k - i - 1] == lines[i];
    }
  }

  /** The common prefix is as long as it can be. */
  lemma {:induction false} CommonPrefixIsLongest<T>(base: seq<T>, side: seq<T>, box: Box)
    requires Fits(base, side, box)
    ensures var p := CommonPrefix(base, side, box);
      && base[box.b0..box.b0 + p] == side[box.s0..box.s0 + p]
      && (box.b0 + p == box.b1 || box.s0 + p == box.s1 || base[box.b0 + p] != side[box.s0 + p])
    decreases box.b1 - box.b0
  {
    var p := CommonPrefix(base, side, box);
    if p > 0 {
      var rest := box.(b0 := box.b0 + 1, s0 := box.s0 + 1);
      CommonPrefixIsLongest(base, side, rest);
      Seqs.Split(base, box.b0, box.b0 + 1, box.b0 + p);
      Seqs.Split(side, box.s0, box.s0 + 1, box.s0 + p);
      assert base[box.b0..box.b0 + 1] == [base[box.b0]] && side[box.s0..box.s0 + 1] == [side[box.s0]];
    }
  }

  /** The last `q` lines of the box agree, and the ones before do not. */
  ghost predicate LongestBack<T>(base: seq<T>, side: seq<T>, box: Box, q: nat)
    requires Fits(base, side, box)
  {
    && q <= box.b1 - box.b0 && q <= box.s1 - box.s0
    && base[box.b1 - q..box.b1] == side[box.s1 - q..box.s1]
    && (box.b1 - q == box.b0 || box.s1 - q == box.s0 || base[box.b1 - q - 1] != side[box.s1 - q - 1])
  }

  /** So is the common suffix. */
  lemma {:induction false} CommonSuffixIsLongest<T>(base: seq<T>, side: seq<T>, box: Box)
    requires Fits(base, side, box)
    ensures LongestBack(base, side, box, CommonSuffix(base, side, box))
    decreases box.b1 - box.b0
  {
    hide LongestBack;
    if box.b0 < box.b1 && box.s0 < box.s1 && base[box.b1 - 1] == side[box.s1 - 1] {
      var rest := box.(b1 := box.b1 - 1, s1 := box.s1 - 1);
      CommonSuffixIsLongest(base, side, rest);
      LongestBackGrows(base, side, box, CommonSuffix(base, side, rest));
    } else {
      NoneBack(base, side, box);
    }
  }

  lemma {:induction false} NoneBack<T>(base: seq<T>, side: seq<T>, box: Box)
    requires Fits(base, side, box)
    requires box.b0 == box.b1 || box.s0 == box.s1 || base[box.b1 - 1] != side[box.s1 - 1]
    ensures LongestBack(base, side, box, 0)
  {
  }

  lemma {:induction false} LongestBackGrows<T>(base: seq<T>, side: seq<T>, box: Box, q: nat)
    requires Fits(base, side, box) && box.b0 < box.b1 && box.s0 < box.s1 && base[box.b1 - 1] == side[box.s1 - 1]
    requires LongestBack(base, side, box.(b1 := box.b1 - 1, s1 := box.s1 - 1), q)
    ensures LongestBack(base, side, box, q + 1)
  {
    LongerBack(base, side, box.b1 - 1 - q, box.b1 - 1, box.s1 - 1 - q, box.s1 - 1);
  }

  lemma {:induction false} LongerBack<T>(base: seq<T>, side: seq<T>, i: nat, b: nat, j: nat, s: nat)
    requires i <= b < |base| && j <= s < |side| && base[i..b] == side[j..s] && base[b] == side[s]
    ensures base[i..b + 1] == side[j..s + 1]
  {
    assert base[i..b + 1] == base[i..b] + [base[b]];
    assert side[j..s + 1] == side[j..s] + [side[s]];
  }

  ghost predicate Has(pairs: seq<Pair>, pair: Pair) {
    exists i :: 0 <= i < |pairs| && pairs[i] == pair
  }

  ghost predicate HasAll(pairs: seq<Pair>, some: seq<Pair>) {
    forall i :: 0 <= i < |some| ==> Has(pairs, some[i])
  }

  lemma {:induction false} HasJoin(a: seq<Pair>, b: seq<Pair>, pair: Pair)
    ensures Has(a + b, pair) <==> Has(a, pair) || Has(b, pair)
  {
    if Has(a, pair) {
      var i :| 0 <= i < |a| && a[i] == pair;
      assert (a + b)[i] == pair;
    }
    if Has(b, pair) {
      var i :| 0 <= i < |b| && b[i] == pair;
      assert (a + b)[|a| + i] == pair;
    }
  }

  lemma {:induction false} HasAllJoin(a: seq<Pair>, b: seq<Pair>, some: seq<Pair>)
    ensures HasAll(a, some) || HasAll(b, some) ==> HasAll(a + b, some)
  {
    hide Has;
    forall i | 0 <= i < |some| && (Has(a, some[i]) || Has(b, some[i])) ensures Has(a + b, some[i]) {
      HasJoin(a, b, some[i]);
    }
  }

  lemma {:induction false} HasItself(pairs: seq<Pair>)
    ensures HasAll(pairs, pairs)
  {
    forall i | 0 <= i < |pairs| ensures Has(pairs, pairs[i]) {}
  }

  lemma {:induction false} DiagonalAt(b: nat, s: nat, n: nat, k: nat)
    requires k < n
    ensures Diagonal(b, s, n)[k] == (b + k, s + k)
    decreases k
  {
    if k > 0 {
      DiagonalAt(b + 1, s + 1, n - 1, k - 1);
    }
  }

  /** The box that is left once the longest common prefix and then suffix are cut off. */
  ghost function Trimmed<T>(base: seq<T>, side: seq<T>, box: Box): (mid: Box)
    requires Fits(base, side, box)
    ensures Fits(base, side, mid)
  {
    var p := CommonPrefix(base, side, box);
    var q := CommonSuffix(base, side, box.(b0 := box.b0 + p, s0 := box.s0 + p));
    Box(box.b0 + p, box.b1 - q, box.s0 + p, box.s1 - q)
  }

  /** Common prefix and suffix lines are matched one to one. */
  lemma {:induction false} EndsAreMatched<T>(base: seq<T>, side: seq<T>, anchoring: Anchoring, box: Box, k: nat)
    requires Sound(base, side, anchoring) && Fits(base, side, box)
    ensures var mid, matches := Trimmed(base, side, box), PatienceMatches(base, side, anchoring, box);
      && (k < mid.b0 - box.b0 ==> Has(matches, (box.b0 + k, box.s0 + k)))
      && (k < box.b1 - mid.b1 ==> Has(matches, (mid.b1 + k, mid.s1 + k)))
  {
    hide CommonPrefix, CommonSuffix, MiddleMatches, Sound;
    var mid := Trimmed(base, side, box);
    var p, q := mid.b0 - box.b0, box.b1 - mid.b1;
    var prefix, middle := Diagonal(box.b0, box.s0, p), MiddleMatches(base, side, anchoring, mid);
    var suffix := Diagonal(mid.b1, mid.s1, q);
    assert PatienceMatches(base, side, anchoring, box) == prefix + middle + suffix;
    if k < p {
      DiagonalAt(box.b0, box.s0, p, k);
      HasJoin(prefix, middle, (box.b0 + k, box.s0 + k));
      HasJoin(prefix + middle, suffix, (box.b0 + k, box.s0 + k));
    }
    if k < q {
      DiagonalAt(mid.b1, mid.s1, q, k);
      HasJoin(prefix + middle, suffix, (mid.b1 + k, mid.s1 + k));
    }
  }

  /**
   Without anchors in what is left, as many lines are matched there as a longest common subsequence has, unless the
   table would have more than four million cells.
   */
  lemma {:induction false} WithoutAnchors<T>(base: seq<T>, side: seq<T>, box: Box)
    requires Fits(base, side, box) && LisAnchors(base, side, Trimmed(base, side, box)) == []
    ensures var mid := Trimmed(base, side, box);
      |PatienceMatches(base, side, LisAnchoring(base, side), box)| ==
        (mid.b0 - box.b0) + (box.b1 - mid.b1)
        + if (mid.b1 - mid.b0) * (mid.s1 - mid.s0) > 4000000 then 0 else CommonSubsequence.LcsLength(base, side, mid)
  {
    hide CommonPrefix, CommonSuffix, LisAnchors;
    var mid := Trimmed(base, side, box);
    CommonSubsequence.LcsWalkIsLongest(base, side, mid);
  }

  /** The box before, between or after anchors. */
  ghost function GapBox(box: Box, anchors: seq<Pair>, k: nat): (gap: Box)
    requires k <= |anchors|
  {
    Box(if k == 0 then box.b0 else anchors[k - 1].0 + 1, if k == |anchors| then box.b1 else anchors[k].0,
        if k == 0 then box.s0 else anchors[k - 1].1 + 1, if k == |anchors| then box.s1 else anchors[k].1)
  }

  lemma {:induction false} GapsFit<T>(base: seq<T>, side: seq<T>, box: Box, anchors: seq<Pair>, k: nat)
    requires Fits(base, side, box) && IsMatching(base, side, box, anchors) && k <= |anchors|
    ensures Fits(base, side, GapBox(box, anchors, k))
    decreases k
  {
    if k > 0 {
      GapsFit(base, side, box.(b0 := anchors[0].0 + 1, s0 := anchors[0].1 + 1), anchors[1..], k - 1);
    }
  }

  /** Every anchor is matched, and every gap between anchors is matched as a box of its own. */
  lemma {:induction false} AnchorsAndGaps<T>(base: seq<T>, side: seq<T>, anchoring: Anchoring, box: Box,
                                             anchors: seq<Pair>, k: nat)
    requires Sound(base, side, anchoring) && Fits(base, side, box) && IsMatching(base, side, box, anchors)
    requires k <= |anchors|
    ensures HasAll(BetweenAnchors(base, side, anchoring, box, anchors), anchors)
    ensures Fits(base, side, GapBox(box, anchors, k))
    ensures HasAll(BetweenAnchors(base, side, anchoring, box, anchors),
                   PatienceMatches(base, side, anchoring, GapBox(box, anchors, k)))
    decreases |anchors|
  {
    hide PatienceMatches, Sound, Has, HasAll;
    GapsFit(base, side, box, anchors, k);
    if anchors == [] {
      NoneMissing(PatienceMatches(base, side, anchoring, box));
    } else {
      var (b, s) := anchors[0];
      assert Inside(anchors[0], box);
      var left, right := Box(box.b0, b, box.s0, s), Box(b + 1, box.b1, s + 1, box.s1);
      var first, rest := PatienceMatches(base, side, anchoring, left),
                         BetweenAnchors(base, side, anchoring, right, anchors[1..]);
      AnchorsAndGaps(base, side, anchoring, right, anchors[1..], if k == 0 then 0 else k - 1);
      WithFirst(first, (b, s), rest, anchors);
      if k == 0 {
        HasItself(first);
        HasAllJoin(first, [(b, s)], first);
        HasAllJoin(first + [(b, s)], rest, first);
      } else {
        assert GapBox(box, anchors, k) == GapBox(right, anchors[1..], k - 1);
        HasAllJoin(first + [(b, s)], rest, PatienceMatches(base, side, anchoring, GapBox(box, anchors, k)));
      }
    }
  }

  lemma {:induction false} NoneMissing(pairs: seq<Pair>)
    ensures HasAll(pairs, []) && HasAll(pairs, pairs)
  {
    HasItself(pairs);
  }

  lemma {:induction false} HasOne(pair: Pair)
    ensures Has([pair], pair)
  {
    assert [pair][0] == pair;
  }

  lemma {:induction false} WithFirst(first: seq<Pair>, pair: Pair, rest: seq<Pair>, anchors: seq<Pair>)
    requires anchors != [] && anchors[0] == pair && HasAll(rest, anchors[1..])
    ensures HasAll(first + [pair] + rest, anchors)
  {
    hide Has;
    forall i | 0 <= i < |anchors| ensures Has(first + [pair] + rest, anchors[i]) {
      HasJoin(first + [pair], rest, anchors[i]);
      HasJoin(first, [pair], anchors[i]);
      if i == 0 {
        HasOne(pair);
      } else {
        assert anchors[i] == anchors[1..][i - 1];
      }
    }
  }

  /** What is matched where there are anchors: all of them, and every gap on its own. */
  lemma {:induction false} WithAnchors<T>(base: seq<T>, side: seq<T>, box: Box, k: nat)
    requires Fits(base, side, box)
    requires var mid := Trimmed(base, side, box);
      mid.b0 < mid.b1 && mid.s0 < mid.s1 && LisAnchors(base, side, mid) != [] && k <= |LisAnchors(base, side, mid)|
    ensures var anchoring, mid := LisAnchoring(base, side), Trimmed(base, side, box);
      var anchors, matches := LisAnchors(base, side, mid), PatienceMatches(base, side, anchoring, box);
      && HasAll(matches, anchors) && Fits(base, side, GapBox(mid, anchors, k))
      && HasAll(matches, PatienceMatches(base, side, anchoring, GapBox(mid, anchors, k)))
  {
    hide CommonPrefix, CommonSuffix, LisAnchors, BetweenAnchors, HasAll;
    var anchoring, mid := LisAnchoring(base, side), Trimmed(base, side, box);
    var anchors := LisAnchors(base, side, mid);
    AnchorsAndGaps(base, side, anchoring, mid, anchors, k);
    var p, q := mid.b0 - box.b0, box.b1 - mid.b1;
    var prefix, middle := Diagonal(box.b0, box.s0, p), MiddleMatches(base, side, anchoring, mid);
    assert PatienceMatches(base, side, anchoring, box) == prefix + middle + Diagonal(mid.b1, mid.s1, q);
    var gap := PatienceMatches(base, side, anchoring, GapBox(mid, anchors, k));
    HasAllJoin(prefix, middle, anchors);
    HasAllJoin(prefix + middle, Diagonal(mid.b1, mid.s1, q), anchors);
    HasAllJoin(prefix, middle, gap);
    HasAllJoin(prefix + middle, Diagonal(mid.b1, mid.s1, q), gap);
  }

  /** Of all longest common subsequences, the walk starts with the least side line. */
  lemma {:induction false} LcsWalkIsLeast<T>(base: seq<T>, side: seq<T>, box: Box, pairs: seq<Pair>)
    requires Fits(base, side, box) && IsMatching(base, side, box, pairs) && pairs != []
    requires |pairs| == CommonSubsequence.LcsLength(base, side, box)
    ensures CommonSubsequence.LcsWalk(base, side, box) != []
    ensures CommonSubsequence.LcsWalk(base, side, box)[0].1 <= pairs[0].1
    decreases box.b1 - box.b0 + box.s1 - box.s0
  {
    if base[box.b0] != side[box.s0] {
      var fewerBase, fewerSide := box.(b0 := box.b0 + 1), box.(s0 := box.s0 + 1);
      if CommonSubsequence.LcsLength(base, side, fewerBase) >= CommonSubsequence.LcsLength(base, side, fewerSide) {
        CommonSubsequence.LcsWalkIsLongest(base, side, fewerBase);
        var walk := CommonSubsequence.LcsWalk(base, side, fewerBase);
        if pairs[0].0 == box.b0 && walk[0].1 > pairs[0].1 {
          OneLonger(base, side, box, walk, pairs[0]);
          CommonSubsequence.LcsLengthBounds(base, side, box, [pairs[0]] + walk);
        } else if pairs[0].0 != box.b0 {
          LcsWalkIsLeast(base, side, fewerBase, pairs);
        }
      } else {
        if pairs[0].1 == box.s0 {
          assert IsMatching(base, side, fewerBase, pairs);
          CommonSubsequence.LcsLengthBounds(base, side, fewerBase, pairs);
        } else {
          LcsWalkIsLeast(base, side, fewerSide, pairs);
        }
      }
    }
  }

  lemma {:induction false} OneLonger<T>(base: seq<T>, side: seq<T>, box: Box, walk: seq<Pair>, pair: Pair)
    requires Fits(base, side, box) && box.b0 < box.b1 && walk != []
    requires IsMatching(base, side, box.(b0 := box.b0 + 1), walk) && pair.0 == box.b0 && Inside(pair, box)
    requires base[pair.0] == side[pair.1] && pair.1 < walk[0].1
    ensures IsMatching(base, side, box, [pair] + walk)
  {
    Seqs.ConcatTail(pair, walk);
    assert Inside(walk[0], box.(b0 := box.b0 + 1, s0 := pair.1 + 1));
  }
}
