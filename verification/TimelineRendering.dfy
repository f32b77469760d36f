/** Printing the timeline: long runs of automatic snapshots are collapsed, and nothing is lost or repeated. */
module TimelineRendering {
  import opened Wrappers
  import opened Ascents
  import Seqs
  import opened TimelineForest

  const MIN_COLLAPSED_AUTO_SNAPSHOTS: nat := 3

  datatype Line = Node(id: Id) | Run(ids: seq<Id>)

  predicate Collapsible(g: Graph, f: Forest, id: Id) {
    && id in g.entries && !g.entries[id].labelled && g.entries[id].auto
    && id != g.current && id !in g.worktree && id !in g.named
    && |g.entries[id].parents| <= 1 && |ChildrenOf(f, id)| <= 1
  }

  function OnlyChild(f: Forest, id: Id): (child: Option<Id>) {
    if |ChildrenOf(f, id)| == 1 then Some(ChildrenOf(f, id)[0]) else None
  }

  /** A forest whose parents precede their children. */
  datatype Shape = Shape(g: Graph, f: Forest, rank: map<Id, nat>, bound: nat)

  ghost predicate Sound(s: Shape) {
    IsForest(s.g, s.f) && Acyclic(s.g, s.rank, s.bound)
  }

  /** How much of the ranks lies above `id`. */
  ghost function Room(s: Shape, id: Id): (n: nat) {
    if id in s.rank && s.rank[id] < s.bound then s.bound - s.rank[id] else 0
  }

  lemma {:induction false} ChildHasLessRoom(s: Shape, id: Id, c: Id)
    requires Sound(s) && c in Elements(ChildrenOf(s.f, id))
    ensures ParentOf(s.g, c) == Some(id) && c in s.g.entries && id in s.g.entries && Room(s, c) < Room(s, id)
  {
    hide Ascending;
    assert ListsChildren(s.g, s.f, id);
  }

  lemma {:induction false} OnlyChildIsChild(f: Forest, id: Id)
    requires OnlyChild(f, id).Some?
    ensures OnlyChild(f, id).value in Elements(ChildrenOf(f, id))
    ensures Elements(ChildrenOf(f, id)) == {OnlyChild(f, id).value}
  {
    assert ChildrenOf(f, id)[1..] == [];
  }

  lemma {:induction false} OnlyChildHasLessRoom(s: Shape, id: Id)
    requires Sound(s) && OnlyChild(s.f, id).Some?
    ensures var c := OnlyChild(s.f, id).value;
      ParentOf(s.g, c) == Some(id) && c in s.g.entries && id in s.g.entries && Room(s, c) < Room(s, id)
  {
    hide Sound;
    OnlyChildIsChild(s.f, id);
    ChildHasLessRoom(s, id, OnlyChild(s.f, id).value);
  }

  /** The collapsible snapshots from `id` down, each the only child of the one before. */
  ghost function Chain(s: Shape, id: Id): (ids: seq<Id>)
    requires Sound(s)
    decreases Room(s, id)
  {
    if !Collapsible(s.g, s.f, id) then []
    else if OnlyChild(s.f, id).None? then [id]
    else
      OnlyChildHasLessRoom(s, id);
      [id] + Chain(s, OnlyChild(s.f, id).value)
  }

  /** What follows the chain: the only child of its last snapshot, which then is not collapsible. */
  ghost function AfterChain(s: Shape, id: Id): (next: Option<Id>)
    requires Sound(s) && Collapsible(s.g, s.f, id)
    decreases Room(s, id)
  {
    if OnlyChild(s.f, id).None? then None
    else
      OnlyChildHasLessRoom(s, id);
      var c := OnlyChild(s.f, id).value;
      if Collapsible(s.g, s.f, c) then AfterChain(s, c) else Some(c)
  }

  ghost predicate Ends(s: Shape, id: Id, next: Id) {
    Room(s, next) < Room(s, id) && !Collapsible(s.g, s.f, next) && next in s.g.entries
  }

  lemma {:induction false} ChainEnds(s: Shape, id: Id)
    requires Sound(s) && Collapsible(s.g, s.f, id)
    ensures var ids := Chain(s, id);
      && ids != [] && ids[0] == id && AfterChain(s, id) == OnlyChild(s.f, ids[|ids| - 1])
      && (AfterChain(s, id).Some? ==> Ends(s, id, AfterChain(s, id).value))
    decreases Room(s, id)
  {
    hide Sound, Collapsible, Room;
    if OnlyChild(s.f, id).Some? {
      OnlyChildHasLessRoom(s, id);
      var c := OnlyChild(s.f, id).value;
      if Collapsible(s.g, s.f, c) {
        ChainEnds(s, c);
      }
    }
  }

  /** The lines printed for a snapshot and everything below it. */
  ghost function Render(s: Shape, id: Id): (lines: seq<Line>)
    requires Sound(s)
    decreases Room(s, id), 1, 0
  {
    var ids := Chain(s, id);
    if |ids| >= MIN_COLLAPSED_AUTO_SNAPSHOTS then
      ChainEnds(s, id);
      [Run(ids)] + (if AfterChain(s, id).None? then [] else Render(s, AfterChain(s, id).value))
    else [Node(id)] + RenderAll(s, id, ChildrenOf(s.f, id))
  }

  ghost function RenderAll(s: Shape, id: Id, children: seq<Id>): (lines: seq<Line>)
    requires Sound(s) && Elements(children) <= Elements(ChildrenOf(s.f, id))
    decreases Room(s, id), 0, |children|
  {
    if children == [] then []
    else
      ChildHasLessRoom(s, id, children[0]);
      Render(s, children[0]) + RenderAll(s, id, children[1..])
  }

  ghost function RenderRoots(s: Shape, roots: seq<Id>): (lines: seq<Line>)
    requires Sound(s)
    decreases |roots|
  {
    if roots == [] then [] else Render(s, roots[0]) + RenderRoots(s, roots[1..])
  }

  function Occurs(ids: seq<Id>, x: Id): (n: nat) {
    if ids == [] then 0 else (if ids[0] == x then 1 else 0) + Occurs(ids[1..], x)
  }

  /** How often the lines mention `x`, on its own or inside a run. */
  function Mentions(lines: seq<Line>, x: Id): (n: nat) {
    if lines == [] then 0
    else (match lines[0] case Node(id) => Occurs([id], x) case Run(ids) => Occurs(ids, x)) + Mentions(lines[1..], x)
  }

  lemma {:induction false} MentionsJoin(a: seq<Line>, b: seq<Line>, x: Id)
    ensures Mentions(a + b, x) == Mentions(a, x) + Mentions(b, x)
    decreases |a|
  {
    hide Occurs;
    if a == [] {
      assert a + b == b;
    } else {
      assert (a + b)[1..] == a[1..] + b;
      MentionsJoin(a[1..], b, x);
    }
  }

  ghost function Above(s: Shape, id: Id, x: Id): (n: nat)
    requires Sound(s) && x in s.g.entries
  {
    if IsAbove(s.g, s.rank, s.bound, id, x) then 1 else 0
  }

  ghost function SumAbove(s: Shape, ids: seq<Id>, x: Id): (n: nat)
    requires Sound(s) && x in s.g.entries
    decreases |ids|
  {
    if ids == [] then 0 else Above(s, ids[0], x) + SumAbove(s, ids[1..], x)
  }

  /** Among distinct ids of which only `t` is above `x`, the sum is one where `t` is listed. */
  lemma {:induction false} SumOfOne(s: Shape, ids: seq<Id>, x: Id, t: Id)
    requires Sound(s) && x in s.g.entries && Ascending(Order(s.g), ids)
    requires forall c <- Elements(ids) :: Above(s, c, x) == if c == t then 1 else 0
    ensures SumAbove(s, ids, x) == if t in Elements(ids) then 1 else 0
    decreases |ids|
  {
    hide Sound, Above, Order;
    if ids != [] {
      SumOfOne(s, ids[1..], x, t);
      assert ids[0] in Elements(ids);
      assert ids[0] !in Elements(ids[1..]);
    }
  }

  lemma {:induction false} SumOfNone(s: Shape, ids: seq<Id>, x: Id)
    requires Sound(s) && x in s.g.entries
    requires forall c <- Elements(ids) :: Above(s, c, x) == 0
    ensures SumAbove(s, ids, x) == 0
    decreases |ids|
  {
    hide Sound, Above;
    if ids != [] {
      assert ids[0] in Elements(ids);
      SumOfNone(s, ids[1..], x);
    }
  }

  /** Whatever is below a snapshot is that snapshot or below exactly one of its children. */
  lemma {:induction false} AboveSplits(s: Shape, id: Id, x: Id)
    requires Sound(s) && x in s.g.entries && id in s.g.entries
    ensures Above(s, id, x) == (if x == id then 1 else 0) + SumAbove(s, ChildrenOf(s.f, id), x)
  {
    hide IsAbove, Ascending, Elements, SumAbove;
    var ids := ChildrenOf(s.f, id);
    assert ListsChildren(s.g, s.f, id);
    forall c <- Elements(ids)
      ensures Above(s, c, x) == 1 <==> IsAbove(s.g, s.rank, s.bound, id, x) && id != x
                                       && c == Toward(s.g, s.rank, s.bound, id, x)
    {
      OnlyOneChildAbove(s.g, s.rank, s.bound, id, c, x);
    }
    AboveItself(s, x);
    if id != x && IsAbove(s.g, s.rank, s.bound, id, x) {
      var t := Toward(s.g, s.rank, s.bound, id, x);
      SumOfOne(s, ids, x, t);
    } else {
      SumOfNone(s, ids, x);
    }
  }

  lemma {:induction false} AboveItself(s: Shape, x: Id)
    requires Sound(s) && x in s.g.entries
    ensures IsAbove(s.g, s.rank, s.bound, x, x)
  {
  }

  /** A collapsible snapshot has at most one child, so its chain and what follows are all there is below it. */
  lemma {:induction false} ChainCovers(s: Shape, id: Id, x: Id)
    requires Sound(s) && x in s.g.entries && Collapsible(s.g, s.f, id)
    ensures Above(s, id, x) == Occurs(Chain(s, id), x)
                             + if AfterChain(s, id).None? then 0 else Above(s, AfterChain(s, id).value, x)
    decreases Room(s, id)
  {
    hide Sound, Above, Room;
    InEntries(s, id);
    AboveSplits(s, id, x);
    FewChildren(s, id, x);
    OccursOne(id, x);
    if OnlyChild(s.f, id).Some? {
      OnlyChildHasLessRoom(s, id);
      var c := OnlyChild(s.f, id).value;
      Seqs.ConcatTail(id, Chain(s, c));
      if Collapsible(s.g, s.f, c) {
        ChainCovers(s, c, x);
      }
    }
  }

  lemma {:induction false} InEntries(s: Shape, id: Id)
    requires Collapsible(s.g, s.f, id)
    ensures id in s.g.entries && |ChildrenOf(s.f, id)| <= 1
  {
  }

  lemma {:induction false} OccursOne(id: Id, x: Id)
    ensures Occurs([id], x) == if id == x then 1 else 0
  {
  }

  lemma {:induction false} FewChildren(s: Shape, id: Id, x: Id)
    requires Sound(s) && x in s.g.entries && |ChildrenOf(s.f, id)| <= 1
    ensures SumAbove(s, ChildrenOf(s.f, id), x)
         == if OnlyChild(s.f, id).None? then 0 else Above(s, OnlyChild(s.f, id).value, x)
  {
    hide Sound, Above;
    if OnlyChild(s.f, id).Some? {
      assert ChildrenOf(s.f, id)[1..] == [];
    }
  }

  lemma {:induction false} MentionsFirst(line: Line, rest: seq<Line>, x: Id)
    ensures Mentions([line] + rest, x)
         == (match line case Node(id) => Occurs([id], x) case Run(ids) => Occurs(ids, x)) + Mentions(rest, x)
  {
    hide Occurs;
    assert ([line] + rest)[1..] == rest;
  }

  /** Rendering mentions exactly what is below, each once. */
  lemma {:induction false} RenderCounts(s: Shape, id: Id, x: Id)
    requires Sound(s) && x in s.g.entries && id in s.g.entries
    ensures Mentions(Render(s, id), x) == Above(s, id, x)
    decreases Room(s, id), 1, 0
  {
    hide Sound, Above, Room, Mentions, Occurs, Chain, AfterChain, Collapsible, ChildrenOf, Elements, SumAbove;
    var ids := Chain(s, id);
    if |ids| >= MIN_COLLAPSED_AUTO_SNAPSHOTS {
      LongChain(s, id);
      ChainEnds(s, id);
      ChainCovers(s, id, x);
      var next := AfterChain(s, id);
      var rest := if next.None? then [] else Render(s, next.value);
      MentionsFirst(Run(ids), rest, x);
      if next.Some? {
        RenderCounts(s, next.value, x);
      } else {
        MentionsNothing(x);
      }
    } else {
      AboveSplits(s, id, x);
      OccursOne(id, x);
      MentionsFirst(Node(id), RenderAll(s, id, ChildrenOf(s.f, id)), x);
      RenderAllCounts(s, id, ChildrenOf(s.f, id), x);
    }
  }

  lemma {:induction false} MentionsNothing(x: Id)
    ensures Mentions([], x) == 0
  {
  }

  lemma {:induction false} LongChain(s: Shape, id: Id)
    requires Sound(s) && Chain(s, id) != []
    ensures Collapsible(s.g, s.f, id)
  {
    hide Sound;
  }

  lemma {:induction false} RenderAllCounts(s: Shape, id: Id, children: seq<Id>, x: Id)
    requires Sound(s) && x in s.g.entries && Elements(children) <= Elements(ChildrenOf(s.f, id))
    ensures Mentions(RenderAll(s, id, children), x) == SumAbove(s, children, x)
    decreases Room(s, id), 0, |children|
  {
    hide Sound, Above, Room, Render, Mentions;
    if children == [] {
      MentionsNothing(x);
    } else {
      ChildHasLessRoom(s, id, children[0]);
      RenderCounts(s, children[0], x);
      RenderAllCounts(s, id, children[1..], x);
      MentionsJoin(Render(s, children[0]), RenderAll(s, id, children[1..]), x);
    }
  }

  lemma {:induction false} RenderRootsCounts(s: Shape, roots: seq<Id>, x: Id)
    requires Sound(s) && x in s.g.entries && Elements(roots) <= s.g.entries.Keys
    ensures Mentions(RenderRoots(s, roots), x) == SumAbove(s, roots, x)
    decreases |roots|
  {
    hide Sound, Above, Render, Mentions;
    if roots == [] {
      MentionsNothing(x);
    } else {
      assert roots[0] in Elements(roots);
      RenderCounts(s, roots[0], x);
      RenderRootsCounts(s, roots[1..], x);
      MentionsJoin(Render(s, roots[0]), RenderRoots(s, roots[1..]), x);
    }
  }

  /** The root that `x` descends from. */
  ghost function Top(s: Shape, x: Id): (t: Id)
    requires Sound(s) && x in s.g.entries
    ensures t in s.g.entries && ParentOf(s.g, t).None?
    decreases s.rank[x]
  {
    if ParentOf(s.g, x).None? then x else Top(s, ParentOf(s.g, x).value)
  }

  lemma {:induction false} OnlyTopIsAbove(s: Shape, r: Id, x: Id)
    requires Sound(s) && x in s.g.entries && r in s.g.entries && ParentOf(s.g, r).None?
    ensures Above(s, r, x) == if r == Top(s, x) then 1 else 0
    decreases s.rank[x]
  {
    hide IsForest;
    if ParentOf(s.g, x).Some? {
      OnlyTopIsAbove(s, r, ParentOf(s.g, x).value);
    }
  }

  /** Every snapshot is printed exactly once, as its own line or inside exactly one collapsed run. */
  lemma {:induction false} EverySnapshotOnce(s: Shape, x: Id)
    requires Sound(s) && x in s.g.entries
    ensures Mentions(RenderRoots(s, s.f.roots), x) == 1
  {
    hide Above, Mentions, RenderRoots, Ascending, Elements, SumAbove;
    forall r <- Elements(s.f.roots) ensures Above(s, r, x) == if r == Top(s, x) then 1 else 0 {
      OnlyTopIsAbove(s, r, x);
    }
    SumOfOne(s, s.f.roots, x, Top(s, x));
    RenderRootsCounts(s, s.f.roots, x);
  }

  /** Collapsible snapshots, each the only child of the one before. */
  ghost predicate Linked(s: Shape, ids: seq<Id>)
    decreases |ids|
  {
    ids == [] || (Collapsible(s.g, s.f, ids[0]) && (|ids| > 1 ==> OnlyChild(s.f, ids[0]) == Some(ids[1]))
                  && Linked(s, ids[1..]))
  }

  /** The snapshot before could have been part of the run. */
  ghost predicate ExtendsUp(s: Shape, id: Id) {
    var p := ParentOf(s.g, id);
    p.Some? && Collapsible(s.g, s.f, p.value) && OnlyChild(s.f, p.value) == Some(id)
  }

  /** The snapshot after could have been part of the run. */
  ghost predicate ExtendsDown(s: Shape, id: Id) {
    OnlyChild(s.f, id).Some? && Collapsible(s.g, s.f, OnlyChild(s.f, id).value)
  }

  /** A run that cannot be extended at either end. */
  ghost predicate MaximalRun(s: Shape, ids: seq<Id>) {
    ids != [] && Linked(s, ids) && !ExtendsUp(s, ids[0]) && !ExtendsDown(s, ids[|ids| - 1])
  }

  /** A maximal run of at least three. */
  ghost predicate RunOk(s: Shape, ids: seq<Id>) {
    |ids| >= MIN_COLLAPSED_AUTO_SNAPSHOTS && MaximalRun(s, ids)
  }

  /** No maximal run that the snapshot belongs to is long enough to be collapsed. */
  ghost predicate NodeOk(s: Shape, id: Id) {
    forall ids: seq<Id>, k: nat ::
      MaximalRun(s, ids) && k < |ids| && ids[k] == id ==> |ids| < MIN_COLLAPSED_AUTO_SNAPSHOTS
  }

  ghost predicate LineOk(s: Shape, line: Line) {
    match line
    case Run(ids) => RunOk(s, ids)
    case Node(id) => NodeOk(s, id)
  }

  ghost predicate LinesOk(s: Shape, lines: seq<Line>)
    decreases |lines|
  {
    lines == [] || (LineOk(s, lines[0]) && LinesOk(s, lines[1..]))
  }

  lemma {:induction false} LinesJoin(s: Shape, a: seq<Line>, b: seq<Line>)
    requires LinesOk(s, a) && LinesOk(s, b)
    ensures LinesOk(s, a + b)
    decreases |a|
  {
    hide LineOk;
    if a == [] {
      assert a + b == b;
    } else {
      assert (a + b)[1..] == a[1..] + b;
      LinesJoin(s, a[1..], b);
    }
  }

  lemma {:induction false} ChainIsLinked(s: Shape, id: Id)
    requires Sound(s)
    ensures Linked(s, Chain(s, id))
    decreases Room(s, id)
  {
    hide Sound, Collapsible, Room;
    if Collapsible(s.g, s.f, id) && OnlyChild(s.f, id).Some? {
      OnlyChildHasLessRoom(s, id);
      var c := OnlyChild(s.f, id).value;
      ChainIsLinked(s, c);
      Seqs.ConcatTail(id, Chain(s, c));
      if Collapsible(s.g, s.f, c) {
        ChainEnds(s, c);
      }
    }
  }

  /** Where the run that `id` belongs to begins. */
  ghost function RunTop(s: Shape, id: Id): (top: Id)
    requires Sound(s)
    decreases if id in s.rank then s.rank[id] else 0
  {
    if ExtendsUp(s, id) then RunTop(s, ParentOf(s.g, id).value) else id
  }

  /** The whole run that `id` belongs to. */
  ghost function WholeRun(s: Shape, id: Id): (ids: seq<Id>)
    requires Sound(s)
  {
    Chain(s, RunTop(s, id))
  }

  lemma {:induction false} ChainIsPart(s: Shape, id: Id)
    requires Sound(s)
    ensures |Chain(s, id)| <= |WholeRun(s, id)| && !ExtendsUp(s, RunTop(s, id))
    ensures Collapsible(s.g, s.f, id) ==> Collapsible(s.g, s.f, RunTop(s, id))
    decreases if id in s.rank then s.rank[id] else 0
  {
    hide Collapsible, IsForest, Room, Acyclic;
    if ExtendsUp(s, id) {
      var p := ParentOf(s.g, id).value;
      assert s.rank[p] < s.rank[id] && id in s.rank by { Earlier(s, id); }
      ChainIsPart(s, p);
    }
  }

  lemma {:induction false} Earlier(s: Shape, id: Id)
    requires Sound(s) && ParentOf(s.g, id).Some?
    ensures id in s.rank && ParentOf(s.g, id).value in s.rank && s.rank[ParentOf(s.g, id).value] < s.rank[id]
  {
    hide IsForest;
  }

  lemma {:induction false} ChainIsMaximal(s: Shape, id: Id)
    requires Sound(s) && Collapsible(s.g, s.f, id) && !ExtendsUp(s, id)
    ensures MaximalRun(s, Chain(s, id))
  {
    hide Sound, Collapsible, Room, Chain, AfterChain, Linked;
    ChainEnds(s, id);
    ChainIsLinked(s, id);
  }

  /** Every collapsible snapshot belongs to a maximal run. */
  lemma {:induction false} WholeRunIsMaximal(s: Shape, id: Id)
    requires Sound(s) && Collapsible(s.g, s.f, id)
    ensures MaximalRun(s, WholeRun(s, id)) && id in Elements(WholeRun(s, id))
    decreases if id in s.rank then s.rank[id] else 0
  {
    hide Collapsible, IsForest, Room, Acyclic, MaximalRun, Chain, Elements;
    ChainIsPart(s, id);
    ChainIsMaximal(s, RunTop(s, id));
    ChainHead(s, id);
    InItsRun(s, id, id);
  }

  lemma {:induction false} ChainHead(s: Shape, id: Id)
    requires Sound(s) && Collapsible(s.g, s.f, id)
    ensures id in Elements(Chain(s, id))
  {
    hide Sound, Collapsible;
  }

  lemma {:induction false} InItsRun(s: Shape, id: Id, x: Id)
    requires Sound(s) && Collapsible(s.g, s.f, id) && x in Elements(Chain(s, id))
    ensures x in Elements(WholeRun(s, id))
    decreases if id in s.rank then s.rank[id] else 0
  {
    hide Collapsible, IsForest, Room, Acyclic;
    if ExtendsUp(s, id) {
      var p := ParentOf(s.g, id).value;
      Earlier(s, id);
      Seqs.ConcatTail(p, Chain(s, id));
      InItsRun(s, p, x);
    }
  }

  lemma {:induction false} LinkedAt(s: Shape, ids: seq<Id>, k: nat)
    requires Linked(s, ids) && k < |ids|
    ensures Collapsible(s.g, s.f, ids[k]) && (k + 1 < |ids| ==> OnlyChild(s.f, ids[k]) == Some(ids[k + 1]))
    decreases k
  {
    hide Collapsible;
    if k > 0 {
      LinkedAt(s, ids[1..], k - 1);
    }
  }

  lemma {:induction false} LinkedIsChain(s: Shape, ids: seq<Id>)
    requires Sound(s) && ids != [] && Linked(s, ids) && !ExtendsDown(s, ids[|ids| - 1])
    ensures ids == Chain(s, ids[0])
    decreases |ids|
  {
    hide Sound, Collapsible;
    if |ids| > 1 {
      LinkedIsChain(s, ids[1..]);
      assert ids == [ids[0]] + ids[1..];
    } else if OnlyChild(s.f, ids[0]).Some? {
      NoChain(s, OnlyChild(s.f, ids[0]).value);
    }
  }

  /** There is only one: whatever maximal run a snapshot belongs to is its whole run. */
  lemma {:induction false} RunIsWhole(s: Shape, ids: seq<Id>, k: nat)
    requires Sound(s) && MaximalRun(s, ids) && k < |ids|
    ensures RunTop(s, ids[k]) == ids[0] && ids == WholeRun(s, ids[k])
    decreases k
  {
    hide Sound, Collapsible, Chain, Linked;
    LinkedIsChain(s, ids);
    if k > 0 {
      RunIsWhole(s, ids, k - 1);
      LinkedAt(s, ids, k - 1);
      OnlyChildHasLessRoom(s, ids[k - 1]);
    }
  }

  lemma {:induction false} ShortIsNodeOk(s: Shape, id: Id)
    requires Sound(s) && (Collapsible(s.g, s.f, id) ==> |WholeRun(s, id)| < MIN_COLLAPSED_AUTO_SNAPSHOTS)
    ensures NodeOk(s, id)
  {
    hide Sound, Collapsible, WholeRun, Linked;
    forall ids: seq<Id>, k: nat | MaximalRun(s, ids) && k < |ids| && ids[k] == id
      ensures |ids| < MIN_COLLAPSED_AUTO_SNAPSHOTS
    {
      RunIsWhole(s, ids, k);
      LinkedAt(s, ids, k);
    }
  }

  /** A snapshot inside a run is only reached when the run is too short to be collapsed. */
  ghost predicate StartOk(s: Shape, id: Id)
    requires Sound(s)
  {
    ExtendsUp(s, id) && Collapsible(s.g, s.f, id) ==> |WholeRun(s, id)| < MIN_COLLAPSED_AUTO_SNAPSHOTS
  }

  lemma {:induction false} LongChainIsRun(s: Shape, id: Id)
    requires Sound(s) && StartOk(s, id) && |Chain(s, id)| >= MIN_COLLAPSED_AUTO_SNAPSHOTS
    ensures RunOk(s, Chain(s, id))
  {
    hide Sound, Collapsible, Room, Chain, WholeRun, MaximalRun;
    LongChain(s, id);
    ChainIsPart(s, id);
    ChainIsMaximal(s, id);
  }

  /** A snapshot printed on its own is in no long run, so its children may start. */
  lemma {:induction false} ShortChainIsNode(s: Shape, id: Id)
    requires Sound(s) && StartOk(s, id) && |Chain(s, id)| < MIN_COLLAPSED_AUTO_SNAPSHOTS
    ensures Collapsible(s.g, s.f, id) ==> |WholeRun(s, id)| < MIN_COLLAPSED_AUTO_SNAPSHOTS
    ensures NodeOk(s, id)
  {
    hide Sound, Collapsible, Chain, NodeOk;
    ShortIsNodeOk(s, id);
  }

  lemma {:induction false} RenderRuns(s: Shape, id: Id)
    requires Sound(s) && StartOk(s, id)
    ensures LinesOk(s, Render(s, id))
    decreases Room(s, id), 1, 0
  {
    hide Sound, Room, Chain, AfterChain, Collapsible, ChildrenOf, Elements, RunOk, NodeOk, StartOk, WholeRun;
    var ids := Chain(s, id);
    if |ids| >= MIN_COLLAPSED_AUTO_SNAPSHOTS {
      LongChain(s, id);
      ChainEnds(s, id);
      LongChainIsRun(s, id);
      var next := AfterChain(s, id);
      if next.Some? {
        NotCollapsibleStarts(s, next.value);
        RenderRuns(s, next.value);
        assert Render(s, id)[1..] == Render(s, next.value);
      }
    } else {
      ShortChainIsNode(s, id);
      RenderAllRuns(s, id, ChildrenOf(s.f, id));
      assert Render(s, id)[1..] == RenderAll(s, id, ChildrenOf(s.f, id));
    }
  }

  lemma {:induction false} NotCollapsibleStarts(s: Shape, id: Id)
    requires Sound(s) && !Collapsible(s.g, s.f, id)
    ensures StartOk(s, id)
  {
    hide Sound;
  }

  lemma {:induction false} ChildStarts(s: Shape, id: Id, c: Id)
    requires Sound(s) && ParentOf(s.g, c) == Some(id)
    requires Collapsible(s.g, s.f, id) ==> |WholeRun(s, id)| < MIN_COLLAPSED_AUTO_SNAPSHOTS
    ensures StartOk(s, c)
  {
    hide Sound, Collapsible, Chain;
  }

  lemma {:induction false} RenderAllRuns(s: Shape, id: Id, children: seq<Id>)
    requires Sound(s) && Elements(children) <= Elements(ChildrenOf(s.f, id))
    requires Collapsible(s.g, s.f, id) ==> |WholeRun(s, id)| < MIN_COLLAPSED_AUTO_SNAPSHOTS
    ensures LinesOk(s, RenderAll(s, id, children))
    decreases Room(s, id), 0, |children|
  {
    hide Sound, Room, Collapsible, LineOk, Render, StartOk, WholeRun;
    if children != [] {
      ChildHasLessRoom(s, id, children[0]);
      ChildStarts(s, id, children[0]);
      RenderRuns(s, children[0]);
      RenderAllRuns(s, id, children[1..]);
      LinesJoin(s, Render(s, children[0]), RenderAll(s, id, children[1..]));
    }
  }

  /** Collapsed runs are exactly the maximal ones of at least three: no other is, and no snapshot of one is left out. */
  lemma {:induction false} RunsAreMaximal(s: Shape, roots: seq<Id>)
    requires Sound(s) && forall r <- Elements(roots) :: ParentOf(s.g, r).None?
    ensures LinesOk(s, RenderRoots(s, roots))
    decreases |roots|
  {
    hide Sound, LineOk, Render, Collapsible, WholeRun;
    if roots != [] {
      assert roots[0] in Elements(roots);
      RenderRuns(s, roots[0]);
      RunsAreMaximal(s, roots[1..]);
      LinesJoin(s, Render(s, roots[0]), RenderRoots(s, roots[1..]));
    }
  }

  lemma {:induction false} ChainIsListed(s: Shape, id: Id, x: Id)
    requires Sound(s) && x !in s.g.entries
    ensures Occurs(Chain(s, id), x) == 0
    decreases Room(s, id)
  {
    hide Sound, Room;
    if Collapsible(s.g, s.f, id) {
      OccursOne(id, x);
      if OnlyChild(s.f, id).Some? {
        OnlyChildHasLessRoom(s, id);
        ChainIsListed(s, OnlyChild(s.f, id).value, x);
        Seqs.ConcatTail(id, Chain(s, OnlyChild(s.f, id).value));
      }
    }
  }

  /** Nothing else is mentioned. */
  lemma {:induction false} RenderIsListed(s: Shape, id: Id, x: Id)
    requires Sound(s) && x !in s.g.entries && id in s.g.entries
    ensures Mentions(Render(s, id), x) == 0
    decreases Room(s, id), 1, 0
  {
    hide Sound, Room, Mentions, Occurs, Chain, AfterChain, Collapsible, ChildrenOf, Elements;
    var ids := Chain(s, id);
    MentionsNothing(x);
    if |ids| >= MIN_COLLAPSED_AUTO_SNAPSHOTS {
      LongChain(s, id);
      ChainEnds(s, id);
      ChainIsListed(s, id, x);
      var next := AfterChain(s, id);
      MentionsFirst(Run(ids), if next.None? then [] else Render(s, next.value), x);
      if next.Some? {
        RenderIsListed(s, next.value, x);
      }
    } else {
      OccursOne(id, x);
      MentionsFirst(Node(id), RenderAll(s, id, ChildrenOf(s.f, id)), x);
      RenderAllIsListed(s, id, ChildrenOf(s.f, id), x);
    }
  }

  lemma {:induction false} RenderAllIsListed(s: Shape, id: Id, children: seq<Id>, x: Id)
    requires Sound(s) && x !in s.g.entries && Elements(children) <= Elements(ChildrenOf(s.f, id))
    ensures Mentions(RenderAll(s, id, children), x) == 0
    decreases Room(s, id), 0, |children|
  {
    hide Sound, Room, Render, Mentions;
    if children == [] {
      MentionsNothing(x);
    } else {
      ChildHasLessRoom(s, id, children[0]);
      RenderIsListed(s, children[0], x);
      RenderAllIsListed(s, id, children[1..], x);
      MentionsJoin(Render(s, children[0]), RenderAll(s, id, children[1..]), x);
    }
  }

  lemma {:induction false} RootsAreListed(s: Shape, roots: seq<Id>, x: Id)
    requires Sound(s) && x !in s.g.entries && Elements(roots) <= s.g.entries.Keys
    ensures Mentions(RenderRoots(s, roots), x) == 0
    decreases |roots|
  {
    hide Sound, Render, Mentions;
    if roots == [] {
      MentionsNothing(x);
    } else {
      assert roots[0] in Elements(roots);
      RenderIsListed(s, roots[0], x);
      RootsAreListed(s, roots[1..], x);
      MentionsJoin(Render(s, roots[0]), RenderRoots(s, roots[1..]), x);
    }
  }

  lemma {:induction false} ChainStep(s: Shape, id: Id, before: seq<Id>)
    requires Sound(s) && Collapsible(s.g, s.f, id)
    ensures OnlyChild(s.f, id).None? ==> before + Chain(s, id) == before + [id]
    ensures OnlyChild(s.f, id).Some? ==>
      before + Chain(s, id) == (before + [id]) + Chain(s, OnlyChild(s.f, id).value)
    ensures OnlyChild(s.f, id).Some? ==> Room(s, OnlyChild(s.f, id).value) < Room(s, id)
  {
    hide Sound, Collapsible, Room;
    if OnlyChild(s.f, id).Some? {
      OnlyChildHasLessRoom(s, id);
    }
  }

  /** Follows only children while they are collapsible. */
  method AutoChain(g: Graph, f: Forest, ghost s: Shape, start: Id) returns (chain: seq<Id>)
    requires Sound(s) && s.g == g && s.f == f
    ensures chain == Chain(s, start)
  {
    hide Sound, Collapsible, Chain, Room, OnlyChild;
    chain := [];
    var current := start;
    assert [] + Chain(s, start) == Chain(s, start);
    while Collapsible(g, f, current)
      invariant chain + Chain(s, current) == Chain(s, start)
      decreases Room(s, current)
    {
      ChainStep(s, current, chain);
      chain := chain + [current];
      var next := OnlyChild(f, current);
      if next.None? {
        return;
      }
      current := next.value;
    }
    NoChain(s, current);
    assert chain + [] == chain;
  }

  lemma {:induction false} NoChain(s: Shape, id: Id)
    requires Sound(s) && !Collapsible(s.g, s.f, id)
    ensures Chain(s, id) == []
  {
  }

  method PrintNodeOrAutoChain(g: Graph, f: Forest, ghost s: Shape, id: Id) returns (lines: seq<Line>)
    requires Sound(s) && s.g == g && s.f == f
    ensures lines == Render(s, id)
    decreases Room(s, id), 1, 0
  {
    hide Sound, Collapsible, Chain, AfterChain, Room, OnlyChild, Elements, RenderAll;
    var chain := AutoChain(g, f, s, id);
    if |chain| >= MIN_COLLAPSED_AUTO_SNAPSHOTS {
      LongChain(s, id);
      ChainEnds(s, id);
      lines := [Run(chain)];
      var next := OnlyChild(f, chain[|chain| - 1]);
      if next.Some? {
        var more := PrintNodeOrAutoChain(g, f, s, next.value);
        lines := lines + more;
      }
      return;
    }
    lines := [Node(id)];
    var children := ChildrenOf(f, id);
    var more := PrintChildren(g, f, s, id, children);
    lines := lines + more;
  }

  lemma {:induction false} RenderAllAppends(s: Shape, id: Id, children: seq<Id>, before: seq<Line>)
    requires Sound(s) && children != [] && Elements(children) <= Elements(ChildrenOf(s.f, id))
    ensures Room(s, children[0]) < Room(s, id) && Elements(children[1..]) <= Elements(ChildrenOf(s.f, id))
    ensures before + RenderAll(s, id, children)
         == (before + Render(s, children[0])) + RenderAll(s, id, children[1..])
  {
    hide Sound, Room, Render;
    ChildHasLessRoom(s, id, children[0]);
  }

  method PrintChildren(g: Graph, f: Forest, ghost s: Shape, ghost id: Id, children: seq<Id>)
    returns (lines: seq<Line>)
    requires Sound(s) && s.g == g && s.f == f && Elements(children) <= Elements(ChildrenOf(f, id))
    ensures lines == RenderAll(s, id, children)
    decreases Room(s, id), 0, 0
  {
    hide Sound, Room, Elements, Render, RenderAll;
    lines := [];
    var i: nat := 0;
    assert children[0..] == children;
    assert [] + RenderAll(s, id, children) == RenderAll(s, id, children);
    while i < |children|
      invariant i <= |children| && Elements(children[i..]) <= Elements(ChildrenOf(f, id))
      invariant lines + RenderAll(s, id, children[i..]) == RenderAll(s, id, children)
    {
      RenderAllAppends(s, id, children[i..], lines);
      assert children[i..][0] == children[i] && children[i..][1..] == children[i + 1..];
      var more := PrintNodeOrAutoChain(g, f, s, children[i]);
      lines := lines + more;
      i := i + 1;
    }
    NoChildren(s, id);
    assert children[i..] == [];
    assert lines + [] == lines;
  }

  lemma {:induction false} NoChildren(s: Shape, id: Id)
    requires Sound(s)
    ensures Elements<Id>([]) <= Elements(ChildrenOf(s.f, id)) && RenderAll(s, id, []) == []
  {
    hide Sound;
  }

  lemma {:induction false} RootsAppend(s: Shape, roots: seq<Id>, before: seq<Line>)
    requires Sound(s) && roots != []
    ensures before + RenderRoots(s, roots) == (before + Render(s, roots[0])) + RenderRoots(s, roots[1..])
  {
    hide Sound, Render;
  }

  lemma {:induction false} NoRoots(s: Shape)
    requires Sound(s)
    ensures RenderRoots(s, []) == []
  {
  }

  lemma {:induction false} RootsHaveNoParent(g: Graph, f: Forest)
    requires IsForest(g, f)
    ensures forall r <- Elements(f.roots) :: ParentOf(g, r).None?
    ensures Elements(f.roots) <= g.entries.Keys
  {
  }
}
