/** Matchings between two line sequences, and the longest ones. */
module Matching {
  import Seqs

  type Pair = (nat, nat)

  /** A rectangle of base indices [b0, b1) and side indices [s0, s1). */
  datatype Box = Box(b0: nat, b1: nat, s0: nat, s1: nat)

  predicate Fits<T>(base: seq<T>, side: seq<T>, box: Box) {
    box.b0 <= box.b1 <= |base| && box.s0 <= box.s1 <= |side|
  }

  predicate Inside(pair: Pair, box: Box) {
    box.b0 <= pair.0 < box.b1 && box.s0 <= pair.1 < box.s1
  }

  /** Pairs of equal lines inside the box, strictly increasing on both sides. */
  ghost predicate IsMatching<T>(base: seq<T>, side: seq<T>, box: Box, pairs: seq<Pair>)
    requires Fits(base, side, box)
    decreases |pairs|
  {
    pairs == [] ||
    (&& Inside(pairs[0], box)
     && base[pairs[0].0] == side[pairs[0].1]
     && IsMatching(base, side, box.(b0 := pairs[0].0 + 1, s0 := pairs[0].1 + 1), pairs[1..]))
  }

  /** A matching of a box is one of any box around it. */
  lemma {:induction false} Widen<T>(base: seq<T>, side: seq<T>, inner: Box, outer: Box, pairs: seq<Pair>)
    requires Fits(base, side, inner) && Fits(base, side, outer) && IsMatching(base, side, inner, pairs)
    requires outer.b0 <= inner.b0 && inner.b1 <= outer.b1 && outer.s0 <= inner.s0 && inner.s1 <= outer.s1
    ensures IsMatching(base, side, outer, pairs)
    decreases |pairs|
  {
    if pairs != [] {
      var b, s := pairs[0].0 + 1, pairs[0].1 + 1;
      Widen(base, side, inner.(b0 := b, s0 := s), outer.(b0 := b, s0 := s), pairs[1..]);
    }
  }

  /** Matchings of two boxes, one before the other on both sides, join to a matching of any box around them. */
  lemma {:induction false} Join<T>(base: seq<T>, side: seq<T>, left: Box, right: Box, whole: Box,
                                   p: seq<Pair>, q: seq<Pair>)
    requires Fits(base, side, left) && Fits(base, side, right) && Fits(base, side, whole)
    requires IsMatching(base, side, left, p) && IsMatching(base, side, right, q)
    requires whole.b0 <= left.b0 && left.b1 <= right.b0 && right.b1 <= whole.b1
    requires whole.s0 <= left.s0 && left.s1 <= right.s0 && right.s1 <= whole.s1
    ensures IsMatching(base, side, whole, p + q)
    decreases |p|
  {
    if p == [] {
      Seqs.Empty(q);
      Widen(base, side, right, whole, q);
    } else {
      var b, s := p[0].0 + 1, p[0].1 + 1;
      Join(base, side, left.(b0 := b, s0 := s), right, whole.(b0 := b, s0 := s), p[1..], q);
      assert (p + q)[0] == p[0] && (p + q)[1..] == p[1..] + q;
    }
  }

  /** One pair of equal lines is a matching. */
  lemma {:induction false} Single<T>(base: seq<T>, side: seq<T>, b: nat, s: nat)
    requires b < |base| && s < |side| && base[b] == side[s]
    ensures IsMatching(base, side, Box(b, b + 1, s, s + 1), [(b, s)])
  {
    assert [(b, s)][1..] == [];
  }

  predicate ByBase(pairs: seq<Pair>) {
    forall k, l :: 0 <= k < l < |pairs| ==> pairs[k].0 < pairs[l].0
  }

  lemma {:induction false} MatchingByBase<T>(base: seq<T>, side: seq<T>, box: Box, pairs: seq<Pair>)
    requires Fits(base, side, box) && IsMatching(base, side, box, pairs)
    ensures ByBase(pairs) && forall k :: 0 <= k < |pairs| ==> box.b0 <= pairs[k].0
    decreases |pairs|
  {
    if pairs != [] {
      MatchingByBase(base, side, box.(b0 := pairs[0].0 + 1, s0 := pairs[0].1 + 1), pairs[1..]);
    }
  }
}
