/**
 Patience matching: trim the common prefix and suffix, anchor on lines that occur once on both sides,
 keep a longest increasing run of anchors, recurse between them, and fall back to a longest common
 subsequence where no anchor exists.
 */
module Patience {
  import opened Matching
  import CommonSubsequence
  import LongestIncreasing
  import Seqs

  /** Line `i` occurs only once in [lo, hi). */
  predicate Once<T(==)>(lines: seq<T>, lo: nat, hi: nat, i: nat)
    requires hi <= |lines|
  {
    lo <= i < hi && forall k :: lo <= k < hi && lines[k] == lines[i] ==> k == i
  }

  /** A pair of equal lines, each the only one of its kind in the box. */
  predicate IsAnchor<T(==)>(base: seq<T>, side: seq<T>, box: Box, pair: Pair)
    requires Fits(base, side, box)
  {
    && Once(base, box.b0, box.b1, pair.0) && Once(side, box.s0, box.s1, pair.1)
    && base[pair.0] == side[pair.1]
  }

  /** The anchors whose base index is at least `i`, by base index. */
  ghost function AnchorsFrom<T>(base: seq<T>, side: seq<T>, box: Box, i: nat): (anchors: seq<Pair>)
    requires Fits(base, side, box) && i <= box.b1
    decreases box.b1 - i
  {
    if i == box.b1 then []
    else if j: nat :| IsAnchor(base, side, box, (i, j)) then [(i, j)] + AnchorsFrom(base, side, box, i + 1)
    else AnchorsFrom(base, side, box, i + 1)
  }

  lemma {:induction false} AnchorsFromOrdered<T>(base: seq<T>, side: seq<T>, box: Box, i: nat)
    requires Fits(base, side, box) && i <= box.b1
    ensures ByBase(AnchorsFrom(base, side, box, i))
    ensures forall k :: 0 <= k < |AnchorsFrom(base, side, box, i)| ==>
      var p := AnchorsFrom(base, side, box, i)[k]; i <= p.0 && IsAnchor(base, side, box, p)
    decreases box.b1 - i
  {
    if i < box.b1 {
      AnchorsFromOrdered(base, side, box, i + 1);
    }
  }

  /** Each anchor is listed exactly once. */
  lemma {:induction false} AnchorsFromExact<T>(base: seq<T>, side: seq<T>, box: Box, i: nat)
    requires Fits(base, side, box) && i <= box.b1
    ensures forall p: Pair ::
      multiset(AnchorsFrom(base, side, box, i))[p] == (if IsAnchor(base, side, box, p) && i <= p.0 then 1 else 0)
    decreases box.b1 - i
  {
    if i < box.b1 {
      AnchorsFromExact(base, side, box, i + 1);
    }
  }

  /** An increasing run of pairs of equal lines is a matching of every box its first pair lies in. */
  lemma {:induction false} PickedMatching<T>(base: seq<T>, side: seq<T>, box: Box, all: seq<Pair>, run: seq<nat>)
    requires Fits(base, side, box) && LongestIncreasing.Increasing(all, run) && ByBase(all)
    requires forall k :: 0 <= k < |all| ==>
      all[k].0 < box.b1 && all[k].1 < box.s1 && base[all[k].0] == side[all[k].1]
    requires run != [] ==> Inside(all[run[0]], box)
    ensures IsMatching(base, side, box, LongestIncreasing.Pick(all, run))
    decreases |run|
  {
    if run != [] {
      var (b, s) := all[run[0]];
      var picked := LongestIncreasing.Pick(all, run);
      assert picked[1..] == LongestIncreasing.Pick(all, run[1..]);
      PickedMatching(base, side, box.(b0 := b + 1, s0 := s + 1), all, run[1..]);
    }
  }

  /** The anchors the source keeps: a longest run that increases on both sides. */
  ghost function LisAnchors<T>(base: seq<T>, side: seq<T>, box: Box): (anchors: seq<Pair>)
    requires Fits(base, side, box)
    ensures IsMatching(base, side, box, anchors)
  {
    var all := AnchorsFrom(base, side, box, box.b0);
    var run := LongestIncreasing.LongestRun(all);
    AnchorsFromOrdered(base, side, box, box.b0);
    LongestIncreasing.LongestRunIncreases(all);
    PickedMatching(base, side, box, all, run);
    LongestIncreasing.Pick(all, run)
  }

  /** A way to choose anchors, box by box. */
  type Anchoring = Box -> seq<Pair>

  ghost predicate Sound<T>(base: seq<T>, side: seq<T>, anchoring: Anchoring) {
    forall box :: Fits(base, side, box) ==> IsMatching(base, side, box, anchoring(box))
  }

  /** The anchoring that picks `LisAnchors` in every box. */
  ghost predicate PicksLis<T>(base: seq<T>, side: seq<T>, anchoring: Anchoring) {
    forall box {:trigger LisAnchors(base, side, box)} ::
      Fits(base, side, box) ==> anchoring(box) == LisAnchors(base, side, box)
  }

  ghost function LisAnchoring<T>(base: seq<T>, side: seq<T>): (anchoring: Anchoring)
    ensures Sound(base, side, anchoring) && PicksLis(base, side, anchoring)
  {
    (box: Box) => if Fits(base, side, box) then LisAnchors(base, side, box) else []
  }

  function CommonPrefix<T(==)>(base: seq<T>, side: seq<T>, box: Box): (n: nat)
    requires Fits(base, side, box)
    ensures n <= box.b1 - box.b0 && n <= box.s1 - box.s0
    decreases box.b1 - box.b0
  {
    if box.b0 < box.b1 && box.s0 < box.s1 && base[box.b0] == side[box.s0] then
      1 + CommonPrefix(base, side, box.(b0 := box.b0 + 1, s0 := box.s0 + 1))
    else 0
  }

  function CommonSuffix<T(==)>(base: seq<T>, side: seq<T>, box: Box): (n: nat)
    requires Fits(base, side, box)
    ensures n <= box.b1 - box.b0 && n <= box.s1 - box.s0
    decreases box.b1 - box.b0
  {
    if box.b0 < box.b1 && box.s0 < box.s1 && base[box.b1 - 1] == side[box.s1 - 1] then
      1 + CommonSuffix(base, side, box.(b1 := box.b1 - 1, s1 := box.s1 - 1))
    else 0
  }

  function Diagonal(b: nat, s: nat, n: nat): (pairs: seq<Pair>)
    ensures |pairs| == n
    decreases n
  {
    if n == 0 then [] else [(b, s)] + Diagonal(b + 1, s + 1, n - 1)
  }

  lemma {:induction false} DiagonalEnd(b: nat, s: nat, n: nat)
    ensures Diagonal(b, s, n + 1) == Diagonal(b, s, n) + [(b + n, s + n)]
    decreases n
  {
    if n > 0 {
      DiagonalEnd(b + 1, s + 1, n - 1);
    }
  }

  lemma {:induction false} PrefixMatches<T>(base: seq<T>, side: seq<T>, box: Box)
    requires Fits(base, side, box)
    ensures var p := CommonPrefix(base, side, box);
      IsMatching(base, side, Box(box.b0, box.b0 + p, box.s0, box.s0 + p), Diagonal(box.b0, box.s0, p))
    decreases box.b1 - box.b0
  {
    if CommonPrefix(base, side, box) > 0 {
      var rest := box.(b0 := box.b0 + 1, s0 := box.s0 + 1);
      PrefixMatches(base, side, rest);
      Seqs.ConcatTail((box.b0, box.s0), Diagonal(rest.b0, rest.s0, CommonPrefix(base, side, rest)));
    }
  }

  lemma {:induction false} NoMatches<T>(base: seq<T>, side: seq<T>, box: Box)
    requires Fits(base, side, box)
    ensures IsMatching(base, side, box, [])
  {
  }

  lemma {:induction false} SuffixMatches<T>(base: seq<T>, side: seq<T>, box: Box)
    requires Fits(base, side, box)
    ensures var q := CommonSuffix(base, side, box);
      IsMatching(base, side, Box(box.b1 - q, box.b1, box.s1 - q, box.s1), Diagonal(box.b1 - q, box.s1 - q, q))
    decreases box.b1 - box.b0
  {
    hide IsMatching;
    var q := CommonSuffix(base, side, box);
    if q > 0 {
      var b, s := box.b1 - 1, box.s1 - 1;
      SuffixMatches(base, side, box.(b1 := b, s1 := s));
      DiagonalEnd(box.b1 - q, box.s1 - q, q - 1);
      Single(base, side, b, s);
      Join(base, side, Box(box.b1 - q, b, box.s1 - q, s), Box(b, box.b1, s, box.s1),
           Box(box.b1 - q, box.b1, box.s1 - q, box.s1), Diagonal(box.b1 - q, box.s1 - q, q - 1), [(b, s)]);
    } else {
      NoMatches(base, side, Box(box.b1, box.b1, box.s1, box.s1));
    }
  }

  /** The matches of a box, in the order in which the source appends them. */
  ghost function PatienceMatches<T>(base: seq<T>, side: seq<T>, anchoring: Anchoring, box: Box): (pairs: seq<Pair>)
    requires Sound(base, side, anchoring)
    requires Fits(base, side, box)
    decreases box.b1 - box.b0, 2
  {
    var p := CommonPrefix(base, side, box);
    var q := CommonSuffix(base, side, box.(b0 := box.b0 + p, s0 := box.s0 + p));
    Diagonal(box.b0, box.s0, p)
    + MiddleMatches(base, side, anchoring, Box(box.b0 + p, box.b1 - q, box.s0 + p, box.s1 - q))
    + Diagonal(box.b1 - q, box.s1 - q, q)
  }

  /** The matches of a trimmed box. */
  ghost function MiddleMatches<T>(base: seq<T>, side: seq<T>, anchoring: Anchoring, box: Box): (pairs: seq<Pair>)
    requires Sound(base, side, anchoring)
    requires Fits(base, side, box)
    decreases box.b1 - box.b0, 1
  {
    var anchors := anchoring(box);
    if box.b0 == box.b1 || box.s0 == box.s1 then []
    else if anchors == [] then CommonSubsequence.LcsMatches(base, side, box)
    else BetweenAnchors(base, side, anchoring, box, anchors)
  }

  /** The matches up to each anchor, the anchor, and so on to the end of the box. */
  ghost function BetweenAnchors<T>(base: seq<T>, side: seq<T>, anchoring: Anchoring, box: Box,
                                   anchors: seq<Pair>): (pairs: seq<Pair>)
    requires Sound(base, side, anchoring)
    requires Fits(base, side, box) && IsMatching(base, side, box, anchors)
    decreases box.b1 - box.b0, if anchors == [] then 3 else 0
  {
    if anchors == [] then PatienceMatches(base, side, anchoring, box)
    else
      var (b, s) := anchors[0];
      assert Inside(anchors[0], box);
      PatienceMatches(base, side, anchoring, Box(box.b0, b, box.s0, s)) + [(b, s)]
      + BetweenAnchors(base, side, anchoring, Box(b + 1, box.b1, s + 1, box.s1), anchors[1..])
  }

  /** A matching of the trimmed box extends to the whole box. */
  lemma {:induction false} ExtendMatching<T>(base: seq<T>, side: seq<T>, box: Box, p: nat, q: nat, middle: seq<Pair>)
    requires Fits(base, side, box) && p == CommonPrefix(base, side, box)
    requires q == CommonSuffix(base, side, box.(b0 := box.b0 + p, s0 := box.s0 + p))
    requires IsMatching(base, side, Box(box.b0 + p, box.b1 - q, box.s0 + p, box.s1 - q), middle)
    ensures IsMatching(base, side, box,
      Diagonal(box.b0, box.s0, p) + middle + Diagonal(box.b1 - q, box.s1 - q, q))
  {
    hide IsMatching, Diagonal, CommonPrefix, CommonSuffix;
    var mid := Box(box.b0 + p, box.b1 - q, box.s0 + p, box.s1 - q);
    var before, after := Box(box.b0, mid.b0, box.s0, mid.s0), Box(mid.b1, box.b1, mid.s1, box.s1);
    PrefixMatches(base, side, box);
    SuffixMatches(base, side, box.(b0 := box.b0 + p, s0 := box.s0 + p));
    var prefix, front := Diagonal(box.b0, box.s0, p), Box(box.b0, mid.b1, box.s0, mid.s1);
    Join(base, side, before, mid, front, prefix, middle);
    Join(base, side, front, after, box, prefix + middle, Diagonal(mid.b1, mid.s1, q));
  }

  /** Every pair matches equal lines and the pairs strictly increase on both sides, cutoff or not. */
  lemma {:induction false} PatienceMatchesValid<T>(base: seq<T>, side: seq<T>, anchoring: Anchoring, box: Box)
    requires Sound(base, side, anchoring)
    requires Fits(base, side, box)
    ensures IsMatching(base, side, box, PatienceMatches(base, side, anchoring, box))
    decreases box.b1 - box.b0, 2
  {
    hide IsMatching, CommonPrefix, CommonSuffix, Diagonal, MiddleMatches, Sound;
    var p := CommonPrefix(base, side, box);
    var q := CommonSuffix(base, side, box.(b0 := box.b0 + p, s0 := box.s0 + p));
    var mid := Box(box.b0 + p, box.b1 - q, box.s0 + p, box.s1 - q);
    MiddleMatchesValid(base, side, anchoring, mid);
    ExtendMatching(base, side, box, p, q, MiddleMatches(base, side, anchoring, mid));
  }

  lemma {:induction false} MiddleMatchesValid<T>(base: seq<T>, side: seq<T>, anchoring: Anchoring, box: Box)
    requires Sound(base, side, anchoring)
    requires Fits(base, side, box)
    ensures IsMatching(base, side, box, MiddleMatches(base, side, anchoring, box))
    decreases box.b1 - box.b0, 1
  {
    var anchors := anchoring(box);
    if box.b0 == box.b1 || box.s0 == box.s1 {
    } else if anchors == [] {
      CommonSubsequence.LcsWalkIsLongest(base, side, box);
    } else {
      BetweenAnchorsValid(base, side, anchoring, box, anchors);
    }
  }

  lemma {:induction false} BetweenAnchorsValid<T>(base: seq<T>, side: seq<T>, anchoring: Anchoring, box: Box,
                                                  anchors: seq<Pair>)
    requires Sound(base, side, anchoring)
    requires Fits(base, side, box) && IsMatching(base, side, box, anchors)
    ensures IsMatching(base, side, box, BetweenAnchors(base, side, anchoring, box, anchors))
    decreases box.b1 - box.b0, if anchors == [] then 3 else 0
  {
    hide PatienceMatches, Sound;
    if anchors == [] {
      PatienceMatchesValid(base, side, anchoring, box);
    } else {
      var (b, s) := anchors[0];
      assert Inside(anchors[0], box);
      var left, right := Box(box.b0, b, box.s0, s), Box(b + 1, box.b1, s + 1, box.s1);
      PatienceMatchesValid(base, side, anchoring, left);
      BetweenAnchorsValid(base, side, anchoring, right, anchors[1..]);
      var p := PatienceMatches(base, side, anchoring, left);
      Single(base, side, b, s);
      Join(base, side, left, Box(b, b + 1, s, s + 1), Box(box.b0, b + 1, box.s0, s + 1), p, [(b, s)]);
      Join(base, side, Box(box.b0, b + 1, box.s0, s + 1), right, box, p + [(b, s)],
           BetweenAnchors(base, side, anchoring, right, anchors[1..]));
    }
  }
}
