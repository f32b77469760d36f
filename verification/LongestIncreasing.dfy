/**
 The longest strictly increasing run of patience anchors, computed with the tails and predecessor
 arrays of patience sorting.  An anchor is a pair (base index, side index); only the side index is
 compared.
 */
module LongestIncreasing {
  import opened Wrappers
  import Seqs

  type Anchor = (nat, nat)

  /** The loop state: `tails[k]` ends a best run of length k + 1, `previous[i]` is the anchor before i. */
  datatype Piles = Piles(tails: seq<nat>, previous: seq<Option<nat>>)

  predicate Below(indices: seq<nat>, bound: nat) {
    forall k :: 0 <= k < |indices| ==> indices[k] < bound
  }

  /** The first pile whose tail has a side index of at least `x` (Rust's `partition_point`). */
  function Position(anchors: seq<Anchor>, tails: seq<nat>, x: nat, from: nat := 0): (p: nat)
    requires Below(tails, |anchors|) && from <= |tails|
    ensures from <= p <= |tails|
    ensures forall k :: from <= k < p ==> anchors[tails[k]].1 < x
    ensures p < |tails| ==> x <= anchors[tails[p]].1
    decreases |tails| - from
  {
    if from == |tails| || x <= anchors[tails[from]].1 then from
    else Position(anchors, tails, x, from + 1)
  }

  /** A run of anchors, by index: positions and side indices both strictly increase. */
  ghost predicate Increasing(anchors: seq<Anchor>, run: seq<nat>) {
    && Below(run, |anchors|)
    && forall a, b :: 0 <= a < b < |run| ==> run[a] < run[b] && anchors[run[a]].1 < anchors[run[b]].1
  }

  ghost predicate Linked(anchors: seq<Anchor>, previous: seq<Option<nat>>) {
    && |previous| <= |anchors|
    && forall i :: 0 <= i < |previous| && previous[i].Some? ==>
      previous[i].value < i && anchors[previous[i].value].1 < anchors[i].1
  }

  /** The run that ends at anchor `i`, read off the predecessor links. */
  function Chain(anchors: seq<Anchor>, previous: seq<Option<nat>>, i: nat): (run: seq<nat>)
    requires i < |previous| && Linked(anchors, previous)
    ensures run != [] && run[|run| - 1] == i
  {
    if previous[i].None? then [i] else Chain(anchors, previous, previous[i].value) + [i]
  }

  lemma {:induction false} ChainIncreasing(anchors: seq<Anchor>, previous: seq<Option<nat>>, i: nat)
    requires i < |previous| && Linked(anchors, previous)
    ensures Increasing(anchors, Chain(anchors, previous, i))
    decreases i
  {
    if previous[i].Some? {
      var j := previous[i].value;
      ChainIncreasing(anchors, previous, j);
      var run := Chain(anchors, previous, j);
      forall a | 0 <= a < |run| ensures run[a] < i && anchors[run[a]].1 < anchors[i].1 {
        assert run[a] <= j;
      }
    }
  }

  lemma {:induction false} ChainStable(anchors: seq<Anchor>, previous: seq<Option<nat>>, next: Option<nat>, i: nat)
    requires i < |previous| && Linked(anchors, previous) && Linked(anchors, previous + [next])
    ensures Chain(anchors, previous + [next], i) == Chain(anchors, previous, i)
    decreases i
  {
    if previous[i].Some? {
      ChainStable(anchors, previous, next, previous[i].value);
    }
  }

  /** What the loop keeps about its arrays. */
  ghost predicate Valid(anchors: seq<Anchor>, piles: Piles) {
    && Linked(anchors, piles.previous)
    && Below(piles.tails, |piles.previous|)
    && (forall k, l :: 0 <= k < l < |piles.tails| ==> anchors[piles.tails[k]].1 < anchors[piles.tails[l]].1)
    && forall k :: 0 <= k < |piles.tails| ==> |Chain(anchors, piles.previous, piles.tails[k])| == k + 1
  }

  /** One turn of the loop: anchor number `|previous|` is placed on a pile. */
  function Place(anchors: seq<Anchor>, piles: Piles): (next: Piles)
    requires |piles.previous| < |anchors|
    requires Below(piles.tails, |piles.previous|)
    ensures |next.previous| == |piles.previous| + 1
    ensures Below(next.tails, |next.previous|)
  {
    var index := |piles.previous|;
    var side := anchors[index].1;
    var position := Position(anchors, piles.tails, side);
    Piles(
      if position == |piles.tails| then piles.tails + [index]
      else if side < anchors[piles.tails[position]].1 then piles.tails[position := index]
      else piles.tails,
      piles.previous + [if position > 0 then Some(piles.tails[position - 1]) else None])
  }

  lemma {:induction false} PlaceValid(anchors: seq<Anchor>, piles: Piles)
    requires |piles.previous| < |anchors| && Valid(anchors, piles)
    ensures Valid(anchors, Place(anchors, piles))
  {
    var next := Place(anchors, piles);
    var index := |piles.previous|;
    var position := Position(anchors, piles.tails, anchors[index].1);
    assert Linked(anchors, next.previous);
    forall k | 0 <= k < |next.tails|
      ensures |Chain(anchors, next.previous, next.tails[k])| == k + 1
    {
      if next.tails[k] == index {
        assert k == position;
        if position > 0 {
          ChainStable(anchors, piles.previous, next.previous[index], piles.tails[position - 1]);
        }
      } else {
        ChainStable(anchors, piles.previous, next.previous[index], piles.tails[k]);
      }
    }
  }

  /** The arrays after the first `n` anchors. */
  function PilesAfter(anchors: seq<Anchor>, n: nat): (piles: Piles)
    requires n <= |anchors|
    ensures |piles.previous| == n && Below(piles.tails, n)
  {
    if n == 0 then Piles([], []) else Place(anchors, PilesAfter(anchors, n - 1))
  }

  lemma {:induction false} PilesValid(anchors: seq<Anchor>, n: nat)
    requires n <= |anchors|
    ensures Valid(anchors, PilesAfter(anchors, n))
  {
    if n > 0 {
      PilesValid(anchors, n - 1);
      PlaceValid(anchors, PilesAfter(anchors, n - 1));
    }
  }

  /** Placing an anchor never raises a tail, and gives every run the anchor extends a tail at most as high. */
  lemma {:induction false} PlaceTails(anchors: seq<Anchor>, piles: Piles, k: nat)
    requires |piles.previous| < |anchors| && Valid(anchors, piles) && k <= |piles.tails|
    ensures var index, next := |piles.previous|, Place(anchors, piles).tails;
      && |piles.tails| <= |next|
      && (k < |piles.tails| ==> anchors[next[k]].1 <= anchors[piles.tails[k]].1)
      && (k == 0 || anchors[piles.tails[k - 1]].1 < anchors[index].1 ==>
           k < |next| && anchors[next[k]].1 <= anchors[index].1)
  {
  }

  /** The run is no longer than the tails, and does not end below the tail of its length. */
  ghost predicate Dominated(anchors: seq<Anchor>, tails: seq<nat>, run: seq<nat>)
    requires Below(tails, |anchors|) && Below(run, |anchors|)
  {
    && |run| <= |tails|
    && (run != [] ==> anchors[tails[|run| - 1]].1 <= anchors[run[|run| - 1]].1)
  }

  lemma {:induction false} PlaceDominates(anchors: seq<Anchor>, piles: Piles, run: seq<nat>)
    requires |piles.previous| < |anchors| && Valid(anchors, piles) && Increasing(anchors, run)
    requires run != [] && run[|run| - 1] <= |piles.previous|
    requires run[|run| - 1] < |piles.previous| ==> Dominated(anchors, piles.tails, run)
    requires Below(run[..|run| - 1], |anchors|) && Dominated(anchors, piles.tails, run[..|run| - 1])
    ensures Dominated(anchors, Place(anchors, piles).tails, run)
  {
    PlaceTails(anchors, piles, |run| - 1);
    if |run| > 1 {
      var front := run[..|run| - 1];
      assert front[|front| - 1] == run[|run| - 2];
    }
  }

  lemma {:induction false} IncreasingFront(anchors: seq<Anchor>, run: seq<nat>, n: nat)
    requires Increasing(anchors, run) && Below(run, n) && run != []
    ensures 0 < n && Increasing(anchors, run[..|run| - 1]) && Below(run[..|run| - 1], n - 1)
    ensures run[|run| - 1] < n - 1 ==> Below(run, n - 1)
  {
    var last := run[|run| - 1];
    assert forall k :: 0 <= k < |run| - 1 ==> run[k] < last;
  }

  /** Every run among the first `n` anchors is dominated by the tails. */
  lemma {:induction false} TailsDominate(anchors: seq<Anchor>, n: nat, run: seq<nat>)
    requires n <= |anchors| && Increasing(anchors, run) && Below(run, n)
    ensures Dominated(anchors, PilesAfter(anchors, n).tails, run)
    decreases n
  {
    if run != [] {
      IncreasingFront(anchors, run, n);
      PilesValid(anchors, n - 1);
      TailsDominate(anchors, n - 1, run[..|run| - 1]);
      if run[|run| - 1] < n - 1 {
        TailsDominate(anchors, n - 1, run);
      }
      PlaceDominates(anchors, PilesAfter(anchors, n - 1), run);
    }
  }

  function Pick(anchors: seq<Anchor>, run: seq<nat>): (picked: seq<Anchor>)
    requires Below(run, |anchors|)
  {
    seq(|run|, k requires 0 <= k < |run| => anchors[run[k]])
  }

  /** The run that ends at the last tail. */
  function LastRun(anchors: seq<Anchor>, piles: Piles): (run: seq<nat>)
    requires Valid(anchors, piles)
    ensures Below(run, |anchors|) && |run| == |piles.tails|
  {
    if piles.tails == [] then []
    else
      ChainIncreasing(anchors, piles.previous, piles.tails[|piles.tails| - 1]);
      Chain(anchors, piles.previous, piles.tails[|piles.tails| - 1])
  }

  /** The indices the algorithm returns. */
  function LongestRun(anchors: seq<Anchor>): (run: seq<nat>)
    ensures Below(run, |anchors|)
  {
    PilesValid(anchors, |anchors|);
    LastRun(anchors, PilesAfter(anchors, |anchors|))
  }

  lemma {:induction false} LongestRunIncreases(anchors: seq<Anchor>)
    ensures Increasing(anchors, LongestRun(anchors))
  {
    PilesValid(anchors, |anchors|);
    var piles := PilesAfter(anchors, |anchors|);
    if piles.tails != [] {
      ChainIncreasing(anchors, piles.previous, piles.tails[|piles.tails| - 1]);
    }
  }

  /** The run returned strictly increases, and no strictly increasing run of the anchors is longer. */
  lemma {:induction false} LongestRunIsMaximal(anchors: seq<Anchor>, run: seq<nat>)
    requires Increasing(anchors, run)
    ensures Increasing(anchors, LongestRun(anchors)) && |run| <= |LongestRun(anchors)|
  {
    LongestRunIncreases(anchors);
    TailsDominate(anchors, |anchors|, run);
  }

  method LongestIncreasingBySide(anchors: seq<Anchor>) returns (output: seq<Anchor>)
    ensures output == Pick(anchors, LongestRun(anchors))
  {
    var tails, previous := BuildPiles(anchors);
    PilesValid(anchors, |anchors|);
    output := PickLastRun(anchors, tails, previous);
  }

  method PickLastRun(anchors: seq<Anchor>, tails: seq<nat>, previous: seq<Option<nat>>)
    returns (output: seq<Anchor>)
    requires Valid(anchors, Piles(tails, previous))
    ensures output == Pick(anchors, LastRun(anchors, Piles(tails, previous)))
  {
    if |tails| == 0 {
      output := [];
    } else {
      output := FollowLinks(anchors, previous, tails[|tails| - 1]);
    }
  }

  method BuildPiles(anchors: seq<Anchor>) returns (tails: seq<nat>, previous: seq<Option<nat>>)
    ensures Piles(tails, previous) == PilesAfter(anchors, |anchors|)
  {
    tails, previous := [], seq(|anchors|, _ => None);
    for index := 0 to |anchors|
      invariant |previous| == |anchors|
      invariant Piles(tails, previous[..index]) == PilesAfter(anchors, index)
      invariant forall k :: index <= k < |anchors| ==> previous[k].None?
    {
      ghost var before := Piles(tails, previous[..index]);
      tails, previous := PlaceAnchor(anchors, index, tails, previous);
      assert Piles(tails, previous[..index + 1]) == Place(anchors, before);
    }
    assert previous[..|anchors|] == previous;
  }

  /** The loop body: `previous` has room for every anchor, the ones from `index` on still unset. */
  method PlaceAnchor(anchors: seq<Anchor>, index: nat, tails: seq<nat>, previous: seq<Option<nat>>)
    returns (newTails: seq<nat>, newPrevious: seq<Option<nat>>)
    requires index < |anchors| == |previous| && Below(tails, index) && previous[index].None?
    ensures |newPrevious| == |previous| && newPrevious[index + 1..] == previous[index + 1..]
    ensures Piles(newTails, newPrevious[..index + 1]) == Place(anchors, Piles(tails, previous[..index]))
  {
    newTails, newPrevious := tails, previous;
    var side := anchors[index].1;
    var position := Position(anchors, tails, side);
    if position > 0 {
      newPrevious := previous[index := Some(tails[position - 1])];
    }
    if position == |tails| {
      newTails := tails + [index];
    } else if side < anchors[tails[position]].1 {
      newTails := tails[position := index];
    }
    assert newPrevious[..index + 1] == previous[..index] + [newPrevious[index]];
  }

  /** Walks the predecessor links back from `last` and reverses what it collected. */
  method FollowLinks(anchors: seq<Anchor>, previous: seq<Option<nat>>, last: nat) returns (output: seq<Anchor>)
    requires last < |previous| && Linked(anchors, previous)
    ensures Below(Chain(anchors, previous, last), |anchors|)
    ensures output == Pick(anchors, Chain(anchors, previous, last))
  {
    hide Chain, Linked, Pick, Seqs.Reversed;
    ChainIncreasing(anchors, previous, last);
    ghost var goal := Pick(anchors, Chain(anchors, previous, last));
    var reversed: seq<Anchor> := [];
    Seqs.NothingReversed<Anchor>();
    Seqs.Empty(goal);
    var current: Option<nat> := Some(last);
    ghost var left := goal;
    while current.Some?
      invariant left + Seqs.Reversed(reversed) == goal
      invariant current.Some? ==> current.value < |previous| && Picked(anchors, previous, current.value, left)
      invariant current.None? ==> left == []
      decreases |left|
    {
      var index := current.value;
      ghost var before := PickedStep(anchors, previous, index, left);
      Seqs.ReversedPush(reversed, anchors[index]);
      Seqs.Assoc(before, [anchors[index]], Seqs.Reversed(reversed));
      reversed := reversed + [anchors[index]];
      left := before;
      current := previous[index];
    }
    Seqs.Empty(Seqs.Reversed(reversed));
    output := Seqs.Reversed(reversed);
  }

  /** The anchors of the run that ends at `i`. */
  ghost predicate Picked(anchors: seq<Anchor>, previous: seq<Option<nat>>, i: nat, picked: seq<Anchor>)
    requires i < |previous| && Linked(anchors, previous)
  {
    Below(Chain(anchors, previous, i), |anchors|) && picked == Pick(anchors, Chain(anchors, previous, i))
  }

  lemma {:induction false} PickedStep(anchors: seq<Anchor>, previous: seq<Option<nat>>, i: nat, picked: seq<Anchor>)
    returns (before: seq<Anchor>)
    requires i < |previous| && Linked(anchors, previous) && Picked(anchors, previous, i, picked)
    ensures picked == before + [anchors[i]]
    ensures previous[i].None? ==> before == []
    ensures previous[i].Some? ==> (previous[i].value < |previous| && Picked(anchors, previous, previous[i].value,
                                   before))
  {
    before := picked[..|picked| - 1];
    if previous[i].Some? {
      ChainIncreasing(anchors, previous, previous[i].value);
      assert before == Pick(anchors, Chain(anchors, previous, previous[i].value));
    }
  }
}
