/** Which runs the printed timeline collapses, said of the snapshots alone. */
module TimelineLaws {
  import opened Wrappers
  import opened Ascents
  import opened TimelineForest
  import opened TimelineRendering

  /** The listed first parent. */
  ghost predicate ParentIs(g: Graph, child: Id, parent: Id) {
    && child in g.entries && parent in g.entries
    && g.entries[child].parents != [] && g.entries[child].parents[0] == parent
  }

  /** Automatic and unlabelled, not marked in any way, and with at most one parent and one child. */
  ghost predicate MayHide(g: Graph, id: Id) {
    && id in g.entries && g.entries[id].auto && !g.entries[id].labelled && |g.entries[id].parents| <= 1
    && id != g.current && id !in g.worktree && id !in g.named
    && forall a: Id, b: Id :: ParentIs(g, a, id) && ParentIs(g, b, id) ==> a == b
  }

  /** The only child. */
  ghost predicate Follows(g: Graph, parent: Id, child: Id) {
    ParentIs(g, child, parent) && forall c: Id :: ParentIs(g, c, parent) ==> c == child
  }

  ghost predicate IsRun(g: Graph, ids: seq<Id>) {
    && (forall i :: 0 <= i < |ids| ==> MayHide(g, ids[i]))
    && forall i :: 0 < i < |ids| ==> Follows(g, ids[i - 1], ids[i])
  }

  /** A run that no snapshot before or after it could extend. */
  ghost predicate IsWholeRun(g: Graph, ids: seq<Id>) {
    && ids != [] && IsRun(g, ids)
    && (forall p: Id :: !(MayHide(g, p) && Follows(g, p, ids[0])))
    && forall c: Id :: !(MayHide(g, c) && Follows(g, ids[|ids| - 1], c))
  }

  /** Whole runs of three or more are collapsed, and nothing else is. */
  ghost predicate ShowsRight(g: Graph, line: Line) {
    match line
    case Run(ids) => IsWholeRun(g, ids) && |ids| >= 3
    case Node(id) => forall ids: seq<Id>, k: nat :: IsWholeRun(g, ids) && k < |ids| && ids[k] == id ==> |ids| < 3
  }

  lemma {:induction false} ParentMeans(g: Graph, child: Id, parent: Id)
    ensures ParentOf(g, child) == Some(parent) <==> ParentIs(g, child, parent)
  {
  }

  lemma {:induction false} ChildrenMean(g: Graph, f: Forest, id: Id, c: Id)
    requires IsForest(g, f)
    ensures c in Elements(ChildrenOf(f, id)) <==> ParentIs(g, c, id)
  {
    hide Elements, Ascending;
    assert ListsChildren(g, f, id);
    ParentMeans(g, c, id);
  }

  /** The list of children is as short as it is when there are no two of them. */
  lemma {:induction false} FewChildrenMeans(g: Graph, f: Forest, id: Id)
    requires IsForest(g, f)
    ensures |ChildrenOf(f, id)| <= 1 <==> forall a: Id, b: Id :: ParentIs(g, a, id) && ParentIs(g, b, id) ==> a == b
    ensures forall c: Id :: OnlyChild(f, id) == Some(c) <==> Follows(g, id, c)
  {
    hide Order, ParentIs;
    var ids := ChildrenOf(f, id);
    assert Ascending(Order(g), ids) by { assert ListsChildren(g, f, id); }
    forall c: Id ensures c in Elements(ids) <==> ParentIs(g, c, id) {
      ChildrenMean(g, f, id, c);
    }
    OneOrNone(g, ids);
    if ids != [] {
      ElementsAt(ids, 0);
    }
  }

  lemma {:induction false} OneOrNone(g: Graph, ids: seq<Id>)
    requires Ascending(Order(g), ids)
    ensures |ids| <= 1 ==> forall c <- Elements(ids) :: c == ids[0]
    ensures |ids| > 1 ==> ids[0] in Elements(ids) && ids[1] in Elements(ids) && ids[0] != ids[1]
  {
    hide Order;
    if |ids| > 1 {
      ElementsAt(ids, 0);
      ElementsAt(ids, 1);
      ElementsAt(ids[1..], 0);
    } else if |ids| == 1 {
      assert ids[1..] == [];
    }
  }

  lemma {:induction false} CollapsibleMeans(g: Graph, f: Forest, id: Id)
    requires IsForest(g, f)
    ensures Collapsible(g, f, id) <==> MayHide(g, id)
  {
    hide IsForest, ParentIs;
    FewChildrenMeans(g, f, id);
  }

  lemma {:induction false} LinkedMeans(s: Shape, ids: seq<Id>)
    requires IsForest(s.g, s.f)
    ensures Linked(s, ids) <==> IsRun(s.g, ids)
    decreases |ids|
  {
    hide IsForest, Collapsible, MayHide, Follows, OnlyChild;
    if ids != [] {
      CollapsibleMeans(s.g, s.f, ids[0]);
      FewChildrenMeans(s.g, s.f, ids[0]);
      LinkedMeans(s, ids[1..]);
      RunStep(s.g, ids);
    }
  }

  lemma {:induction false} RunStep(g: Graph, ids: seq<Id>)
    requires ids != []
    ensures IsRun(g, ids) <==> MayHide(g, ids[0]) && (|ids| > 1 ==> Follows(g, ids[0], ids[1])) && IsRun(g, ids[1..])
  {
    hide MayHide, Follows;
    var rest := ids[1..];
    if MayHide(g, ids[0]) && (|ids| > 1 ==> Follows(g, ids[0], ids[1])) && IsRun(g, rest) {
      forall i | 0 <= i < |ids| ensures MayHide(g, ids[i]) {
        assert i > 0 ==> ids[i] == rest[i - 1];
      }
      forall i | 0 < i < |ids| ensures Follows(g, ids[i - 1], ids[i]) {
        assert i > 1 ==> ids[i] == rest[i - 1] && ids[i - 1] == rest[i - 2];
      }
    }
    if IsRun(g, ids) {
      forall i | 0 <= i < |rest| ensures MayHide(g, rest[i]) {
        assert rest[i] == ids[i + 1];
      }
      forall i | 0 < i < |rest| ensures Follows(g, rest[i - 1], rest[i]) {
        assert rest[i] == ids[i + 1] && rest[i - 1] == ids[i];
        assert Follows(g, ids[i + 1 - 1], ids[i + 1]);
      }
    }
  }

  lemma {:induction false} WholeRunMeans(s: Shape, ids: seq<Id>)
    requires IsForest(s.g, s.f)
    ensures MaximalRun(s, ids) <==> IsWholeRun(s.g, ids)
  {
    hide IsForest, Collapsible, MayHide, Linked, IsRun, OnlyChild, ParentOf;
    LinkedMeans(s, ids);
    if ids != [] {
      ExtendsMean(s, ids[0], ids[|ids| - 1]);
    }
  }

  lemma {:induction false} ExtendsMean(s: Shape, first: Id, last: Id)
    requires IsForest(s.g, s.f)
    ensures ExtendsUp(s, first) <==> exists p: Id :: MayHide(s.g, p) && Follows(s.g, p, first)
    ensures ExtendsDown(s, last) <==> exists c: Id :: MayHide(s.g, c) && Follows(s.g, last, c)
  {
    hide IsForest, Collapsible, MayHide, ParentIs;
    forall p: Id ensures Collapsible(s.g, s.f, p) <==> MayHide(s.g, p) {
      CollapsibleMeans(s.g, s.f, p);
    }
    forall p: Id
      ensures ParentOf(s.g, first) == Some(p) <==> ParentIs(s.g, first, p)
      ensures forall c: Id :: OnlyChild(s.f, p) == Some(c) <==> Follows(s.g, p, c)
    {
      ParentMeans(s.g, first, p);
      FewChildrenMeans(s.g, s.f, p);
    }
  }

  /** The lines that rendering gives are right about the snapshots. */
  lemma {:induction false} LineMeans(s: Shape, line: Line)
    requires IsForest(s.g, s.f) && LineOk(s, line)
    ensures ShowsRight(s.g, line)
  {
    hide IsForest, MaximalRun, IsWholeRun;
    match line
    case Run(ids) => WholeRunMeans(s, ids);
    case Node(id) =>
      forall ids: seq<Id>, k: nat | IsWholeRun(s.g, ids) && k < |ids| && ids[k] == id ensures |ids| < 3 {
        WholeRunMeans(s, ids);
      }
  }

  ghost predicate AllShowRight(g: Graph, lines: seq<Line>) {
    forall i :: 0 <= i < |lines| ==> ShowsRight(g, lines[i])
  }

  lemma {:induction false} LinesMean(s: Shape, lines: seq<Line>)
    requires IsForest(s.g, s.f) && LinesOk(s, lines)
    ensures AllShowRight(s.g, lines)
    decreases |lines|
  {
    hide IsForest, LineOk, ShowsRight;
    if lines != [] {
      LineMeans(s, lines[0]);
      LinesMean(s, lines[1..]);
      forall i | 0 <= i < |lines| ensures ShowsRight(s.g, lines[i]) {
        assert i > 0 ==> lines[i] == lines[1..][i - 1];
      }
    }
  }
}
