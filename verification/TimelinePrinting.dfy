/** Printing the whole timeline. */
module TimelinePrinting {
  import opened Ascents
  import opened TimelineForest
  import opened TimelineRendering
  import opened TimelineLaws
  import opened TimelineOrder

  /**
   * The whole timeline: every snapshot once and nothing else, parents before descendants and siblings by time and id.
   * Collapsed are exactly the whole runs of three or more unmarked automatic snapshots.
   */
  method PrintTimeline(g: Graph, ghost rank: map<Id, nat>, ghost bound: nat) returns (lines: seq<Line>)
    requires Acyclic(g, rank, bound)
    ensures forall x: Id :: Mentions(lines, x) == if x in g.entries then 1 else 0
    ensures AllShowRight(g, lines) && LinesInOrder(g, rank, bound, lines)
  {
    hide Acyclic, IsForest, Mentions, LinesOk, RenderRoots, Render, Elements, AllShowRight, InOrder, Family, UnderSome,
      LinesInOrder;
    var f := NewForest(g);
    ghost var s := Shape(g, f, rank, bound);
    lines := [];
    var i: nat := 0;
    assert f.roots[0..] == f.roots;
    assert [] + RenderRoots(s, f.roots) == RenderRoots(s, f.roots);
    while i < |f.roots|
      invariant i <= |f.roots| && lines + RenderRoots(s, f.roots[i..]) == RenderRoots(s, f.roots)
    {
      RootsAppend(s, f.roots[i..], lines);
      assert f.roots[i..][0] == f.roots[i] && f.roots[i..][1..] == f.roots[i + 1..];
      var more := PrintNodeOrAutoChain(g, f, s, f.roots[i]);
      lines := lines + more;
      i := i + 1;
    }
    NoRoots(s);
    assert f.roots[i..] == [] && lines + [] == lines;
    RootsHaveNoParent(g, f);
    forall x: Id ensures Mentions(lines, x) == if x in g.entries then 1 else 0 {
      if x in g.entries {
        EverySnapshotOnce(s, x);
      } else {
        RootsAreListed(s, f.roots, x);
      }
    }
    RunsAreMaximal(s, f.roots);
    LinesMean(s, lines);
    RootsAreFamily(s);
    RootsInOrder(s, f.roots);
    OrderMeans(s, lines);
  }
}
