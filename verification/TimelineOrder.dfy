/** The order of the printed timeline: parents before descendants, siblings and roots by time and id. */
module TimelineOrder {
  import opened Wrappers
  import opened Ascents
  import opened TimelineForest
  import opened TimelineRendering

  /** The snapshots in the order in which the lines show them. */
  function Shown(lines: seq<Line>): (ids: seq<Id>) {
    if lines == [] then []
    else (match lines[0] case Node(id) => [id] case Run(ids) => ids) + Shown(lines[1..])
  }

  lemma {:induction false} ShownJoin(a: seq<Line>, b: seq<Line>)
    ensures Shown(a + b) == Shown(a) + Shown(b)
    decreases |a|
  {
    if a == [] {
      assert a + b == b;
    } else {
      assert (a + b)[0] == a[0] && (a + b)[1..] == a[1..] + b;
      ShownJoin(a[1..], b);
    }
  }

  lemma {:induction false} OccursAt(ids: seq<Id>, i: nat)
    requires i < |ids|
    ensures Occurs(ids, ids[i]) > 0
  {
    if i > 0 {
      OccursAt(ids[1..], i - 1);
    }
  }

  lemma {:induction false} OccursJoin(a: seq<Id>, b: seq<Id>, x: Id)
    ensures Occurs(a + b, x) == Occurs(a, x) + Occurs(b, x)
    decreases |a|
  {
    if a == [] {
      assert a + b == b;
    } else {
      assert (a + b)[0] == a[0] && (a + b)[1..] == a[1..] + b;
      OccursJoin(a[1..], b, x);
    }
  }

  lemma {:induction false} ShownIsMentioned(lines: seq<Line>, x: Id)
    ensures Occurs(Shown(lines), x) == Mentions(lines, x)
    decreases |lines|
  {
    if lines != [] {
      ShownIsMentioned(lines[1..], x);
      OccursJoin(match lines[0] case Node(id) => [id] case Run(ids) => ids, Shown(lines[1..]), x);
    }
  }

  /** `x` is a first-parent ancestor of `y`, or they descend from, or are, siblings of which that of `x` is earlier. */
  ghost predicate ComesBefore(g: Graph, rank: map<Id, nat>, bound: nat, x: Id, y: Id)
    requires Acyclic(g, rank, bound) && x in g.entries && y in g.entries
  {
    (x != y && IsAbove(g, rank, bound, x, y))
    || exists a: Id, b: Id ::
         Siblings(g, a, b) && Earlier(g, a, b) && IsAbove(g, rank, bound, a, x) && IsAbove(g, rank, bound, b, y)
  }

  ghost predicate Precedes(s: Shape, x: Id, y: Id)
    requires Sound(s) && x in s.g.entries && y in s.g.entries
  {
    ComesBefore(s.g, s.rank, s.bound, x, y)
  }

  ghost predicate Siblings(g: Graph, a: Id, b: Id) {
    a in g.entries && b in g.entries && a != b && ParentOf(g, a) == ParentOf(g, b)
  }

  /** By time, then by id. */
  ghost predicate Earlier(g: Graph, a: Id, b: Id)
    requires a in g.entries && b in g.entries
  {
    g.entries[a].timestamp < g.entries[b].timestamp
    || (g.entries[a].timestamp == g.entries[b].timestamp && a < b)
  }

  ghost predicate Listed(s: Shape, ids: seq<Id>) {
    forall i :: 0 <= i < |ids| ==> ids[i] in s.g.entries
  }

  ghost predicate InOrder(s: Shape, ids: seq<Id>)
    requires Sound(s)
  {
    Listed(s, ids) && forall i, j :: 0 <= i < j < |ids| ==> Precedes(s, ids[i], ids[j])
  }

  /** Every snapshot of the one list comes before every one of the other. */
  ghost predicate AllPrecede(s: Shape, a: seq<Id>, b: seq<Id>)
    requires Sound(s)
  {
    Listed(s, a) && Listed(s, b) && forall i, j :: 0 <= i < |a| && 0 <= j < |b| ==> Precedes(s, a[i], b[j])
  }

  lemma {:induction false} OrderJoins(s: Shape, a: seq<Id>, b: seq<Id>)
    requires Sound(s) && InOrder(s, a) && InOrder(s, b) && AllPrecede(s, a, b)
    ensures InOrder(s, a + b)
  {
    hide Sound, Precedes;
    forall i, j | 0 <= i < j < |a + b| ensures Precedes(s, (a + b)[i], (a + b)[j]) {
      if j < |a| {
        assert (a + b)[i] == a[i] && (a + b)[j] == a[j];
      } else if |a| <= i {
        assert (a + b)[i] == b[i - |a|] && (a + b)[j] == b[j - |a|];
      } else {
        assert (a + b)[i] == a[i] && (a + b)[j] == b[j - |a|];
      }
    }
  }

  /** All are `top` or descend from it. */
  ghost predicate Under(s: Shape, top: Id, ids: seq<Id>)
    requires Sound(s)
  {
    Listed(s, ids) && forall i :: 0 <= i < |ids| ==> IsAbove(s.g, s.rank, s.bound, top, ids[i])
  }

  /** What rendering shows is what is below. */
  lemma {:induction false} RenderIsUnder(s: Shape, id: Id)
    requires Sound(s) && id in s.g.entries
    ensures Under(s, id, Shown(Render(s, id)))
  {
    hide IsForest, Acyclic, Render, Mentions, IsAbove;
    var ids := Shown(Render(s, id));
    forall i | 0 <= i < |ids| ensures ids[i] in s.g.entries && IsAbove(s.g, s.rank, s.bound, id, ids[i]) {
      OccursAt(ids, i);
      ShownIsMentioned(Render(s, id), ids[i]);
      if ids[i] in s.g.entries {
        RenderCounts(s, id, ids[i]);
      } else {
        RenderIsListed(s, id, ids[i]);
      }
    }
  }

  lemma {:induction false} AboveJoins(g: Graph, rank: map<Id, nat>, bound: nat, a: Id, b: Id, x: Id)
    requires Acyclic(g, rank, bound) && x in g.entries && b in g.entries
    requires IsAbove(g, rank, bound, a, b) && IsAbove(g, rank, bound, b, x)
    ensures IsAbove(g, rank, bound, a, x)
    decreases rank[x]
  {
    if b != x {
      AboveJoins(g, rank, bound, a, b, ParentOf(g, x).value);
    }
  }

  /** A snapshot comes before whatever is below its children. */
  lemma {:induction false} ParentPrecedes(s: Shape, id: Id, c: Id, ids: seq<Id>)
    requires Sound(s) && ParentOf(s.g, c) == Some(id) && Under(s, c, ids)
    ensures id in s.g.entries && c in s.g.entries && AllPrecede(s, [id], ids) && Under(s, id, ids)
  {
    hide IsForest;
    forall i | 0 <= i < |ids| ensures IsAbove(s.g, s.rank, s.bound, id, ids[i]) && id != ids[i] {
      assert IsAbove(s.g, s.rank, s.bound, id, c);
      AboveJoins(s.g, s.rank, s.bound, id, c, ids[i]);
      AboveIsEarlier(s.g, s.rank, s.bound, c, ids[i]);
    }
  }

  /** The order in which children and roots are listed is by time and id. */
  lemma {:induction false} ListedEarlier(g: Graph, ids: seq<Id>, b: Id)
    requires ids != [] && Ascending(Order(g), ids) && b in Elements(ids[1..]) && ids[0] in g.entries && b in g.entries
    ensures Earlier(g, ids[0], b) && ids[0] != b
  {
    assert Order(g)(ids[0], b) && ids[0] != b;
  }

  lemma {:induction false} ChainInOrder(s: Shape, id: Id, rest: seq<Id>)
    requires Sound(s) && Collapsible(s.g, s.f, id) && InOrder(s, rest)
    requires AfterChain(s, id).Some? ==> Under(s, AfterChain(s, id).value, rest)
    requires AfterChain(s, id).None? ==> rest == []
    ensures InOrder(s, Chain(s, id) + rest) && Under(s, id, Chain(s, id) + rest) && id in s.g.entries
    decreases Room(s, id)
  {
    hide Sound, Room, InOrder, Under, AllPrecede;
    InEntries(s, id);
    if OnlyChild(s.f, id).None? {
      assert Chain(s, id) + rest == [id];
      JustOne(s, id);
    } else {
      OnlyChildHasLessRoom(s, id);
      var c := OnlyChild(s.f, id).value;
      var below := if Collapsible(s.g, s.f, c) then Chain(s, c) + rest else rest;
      if Collapsible(s.g, s.f, c) {
        ChainInOrder(s, c, rest);
      } else {
        NoChain(s, c);
      }
      ParentPrecedes(s, id, c, below);
      JustOne(s, id);
      OrderJoins(s, [id], below);
      UnderJoins(s, id, [id], below);
      assert Chain(s, id) + rest == [id] + below;
    }
  }

  lemma {:induction false} JustOne(s: Shape, id: Id)
    requires Sound(s) && id in s.g.entries
    ensures InOrder(s, [id]) && Under(s, id, [id])
  {
  }

  lemma {:induction false} UnderJoins(s: Shape, id: Id, a: seq<Id>, b: seq<Id>)
    requires Sound(s) && Under(s, id, a) && Under(s, id, b)
    ensures Under(s, id, a + b)
  {
    hide Sound, IsAbove;
  }

  lemma {:induction false} ShownFirst(line: Line, rest: seq<Line>)
    ensures Shown([line] + rest) == (match line case Node(id) => [id] case Run(ids) => ids) + Shown(rest)
  {
    assert ([line] + rest)[1..] == rest;
  }

  /** What is rendered for a snapshot is in order. */
  lemma {:induction false} RenderInOrder(s: Shape, id: Id)
    requires Sound(s) && id in s.g.entries
    ensures InOrder(s, Shown(Render(s, id)))
    decreases Room(s, id), 1, 0
  {
    hide Sound, Room, Chain, AfterChain, Collapsible, ChildrenOf, Elements, InOrder, Under, AllPrecede, Shown;
    var ids := Chain(s, id);
    if |ids| >= MIN_COLLAPSED_AUTO_SNAPSHOTS {
      LongChain(s, id);
      ChainEnds(s, id);
      var next := AfterChain(s, id);
      var rest := if next.None? then [] else Render(s, next.value);
      ShownFirst(Run(ids), rest);
      if next.Some? {
        RenderInOrder(s, next.value);
        RenderIsUnder(s, next.value);
      } else {
        NothingShown(s);
      }
      ChainInOrder(s, id, Shown(rest));
    } else {
      ChildrenAscend(s, id);
      RenderAllInOrder(s, id, ChildrenOf(s.f, id));
      ShownFirst(Node(id), RenderAll(s, id, ChildrenOf(s.f, id)));
      JustOne(s, id);
      OrderJoins(s, [id], Shown(RenderAll(s, id, ChildrenOf(s.f, id))));
    }
  }

  lemma {:induction false} NothingShown(s: Shape)
    requires Sound(s)
    ensures Shown([]) == [] && InOrder(s, [])
  {
  }

  lemma {:induction false} ChildrenAscend(s: Shape, id: Id)
    requires Sound(s)
    ensures Ascending(Order(s.g), ChildrenOf(s.f, id)) && Elements(ChildrenOf(s.f, id)) <= Elements(ChildrenOf(s.f, id))
  {
    hide Acyclic, Elements, Ascending;
    assert ListsChildren(s.g, s.f, id);
  }

  /** Each is one of the heads or descends from one. */
  ghost predicate UnderSome(s: Shape, heads: seq<Id>, ids: seq<Id>)
    requires Sound(s)
  {
    Listed(s, ids) && forall i :: 0 <= i < |ids| ==> UnderOne(s, heads, ids[i])
  }

  ghost predicate UnderOne(s: Shape, heads: seq<Id>, x: Id)
    requires Sound(s)
  {
    x in s.g.entries && exists c: Id :: c in Elements(heads) && IsAbove(s.g, s.rank, s.bound, c, x)
  }

  /** Listed in order, with the same parent or none. */
  ghost predicate Family(s: Shape, parent: Option<Id>, heads: seq<Id>) {
    && Ascending(Order(s.g), heads)
    && forall c <- Elements(heads) :: c in s.g.entries && ParentOf(s.g, c) == parent
  }

  lemma {:induction false} FirstOfFamily(s: Shape, parent: Option<Id>, heads: seq<Id>, first: seq<Id>,
                                         others: seq<Id>)
    requires Sound(s) && Family(s, parent, heads) && heads != []
    requires Under(s, heads[0], first) && UnderSome(s, heads[1..], others)
    ensures AllPrecede(s, first, others) && UnderSome(s, heads, first + others) && Family(s, parent, heads[1..])
  {
    hide IsForest, Acyclic, IsAbove, Order, Earlier;
    var c := heads[0];
    forall i, j | 0 <= i < |first| && 0 <= j < |others| ensures Precedes(s, first[i], others[j]) {
      assert UnderOne(s, heads[1..], others[j]);
      var b: Id :| b in Elements(heads[1..]) && IsAbove(s.g, s.rank, s.bound, b, others[j]);
      ListedEarlier(s.g, heads, b);
      assert Siblings(s.g, c, b);
    }
    forall i | 0 <= i < |first + others| ensures UnderOne(s, heads, (first + others)[i]) {
      if i < |first| {
        assert c in Elements(heads) && (first + others)[i] == first[i];
      } else {
        assert UnderOne(s, heads[1..], others[i - |first|]);
        var b: Id :| b in Elements(heads[1..]) && IsAbove(s.g, s.rank, s.bound, b, others[i - |first|]);
        assert b in Elements(heads);
      }
    }
  }

  lemma {:induction false} NoneUnder(s: Shape, heads: seq<Id>)
    requires Sound(s)
    ensures UnderSome(s, heads, [])
  {
  }

  lemma {:induction false} ParentPrecedesAll(s: Shape, id: Id, heads: seq<Id>, ids: seq<Id>)
    requires Sound(s) && Family(s, Some(id), heads) && UnderSome(s, heads, ids) && id in s.g.entries
    ensures AllPrecede(s, [id], ids)
  {
    hide IsForest, Order, Ascending, Elements;
    forall i | 0 <= i < |ids| ensures Precedes(s, id, ids[i]) {
      assert UnderOne(s, heads, ids[i]);
      var c: Id :| c in Elements(heads) && IsAbove(s.g, s.rank, s.bound, c, ids[i]);
      assert IsAbove(s.g, s.rank, s.bound, id, c);
      AboveJoins(s.g, s.rank, s.bound, id, c, ids[i]);
      AboveIsEarlier(s.g, s.rank, s.bound, c, ids[i]);
    }
  }

  lemma {:induction false} AreFamily(s: Shape, id: Id, children: seq<Id>)
    requires Sound(s) && Ascending(Order(s.g), children) && Elements(children) <= Elements(ChildrenOf(s.f, id))
    ensures Family(s, Some(id), children)
  {
    hide Sound, Order, Ascending, Room;
    forall c <- Elements(children) ensures c in s.g.entries && ParentOf(s.g, c) == Some(id) {
      ChildHasLessRoom(s, id, c);
    }
  }

  lemma {:induction false} RenderAllInOrder(s: Shape, id: Id, children: seq<Id>)
    requires Sound(s) && id in s.g.entries
    requires Ascending(Order(s.g), children) && Elements(children) <= Elements(ChildrenOf(s.f, id))
    ensures InOrder(s, Shown(RenderAll(s, id, children))) && UnderSome(s, children, Shown(RenderAll(s, id, children)))
    ensures AllPrecede(s, [id], Shown(RenderAll(s, id, children)))
    decreases Room(s, id), 0, |children|
  {
    hide Sound, Room, Render, Shown, InOrder, AllPrecede, Under, UnderSome, Family, Order;
    AreFamily(s, id, children);
    if children == [] {
      NothingShown(s);
      NoneUnder(s, children);
    } else {
      var c := children[0];
      ChildHasLessRoom(s, id, c);
      RenderInOrder(s, c);
      RenderIsUnder(s, c);
      RenderAllInOrder(s, id, children[1..]);
      var first, others := Shown(Render(s, c)), Shown(RenderAll(s, id, children[1..]));
      ShownJoin(Render(s, c), RenderAll(s, id, children[1..]));
      FirstOfFamily(s, Some(id), children, first, others);
      OrderJoins(s, first, others);
    }
    ParentPrecedesAll(s, id, children, Shown(RenderAll(s, id, children)));
  }

  lemma {:induction false} RootsInOrder(s: Shape, roots: seq<Id>)
    requires Sound(s) && Family(s, None, roots)
    ensures InOrder(s, Shown(RenderRoots(s, roots))) && UnderSome(s, roots, Shown(RenderRoots(s, roots)))
    decreases |roots|
  {
    hide Sound, Render, Shown, InOrder, AllPrecede, Under, UnderSome, Family;
    if roots == [] {
      NothingShown(s);
      NoneUnder(s, roots);
    } else {
      var c := roots[0];
      RootIsListed(s, roots);
      RenderInOrder(s, c);
      RenderIsUnder(s, c);
      var first, others := Shown(Render(s, c)), Shown(RenderRoots(s, roots[1..]));
      FamilyTail(s, roots);
      RootsInOrder(s, roots[1..]);
      ShownJoin(Render(s, c), RenderRoots(s, roots[1..]));
      FirstOfFamily(s, None, roots, first, others);
      OrderJoins(s, first, others);
    }
  }

  lemma {:induction false} RootIsListed(s: Shape, roots: seq<Id>)
    requires Family(s, None, roots) && roots != []
    ensures roots[0] in s.g.entries
  {
    ElementsAt(roots, 0);
  }

  lemma {:induction false} FamilyTail(s: Shape, roots: seq<Id>)
    requires Family(s, None, roots) && roots != []
    ensures Family(s, None, roots[1..])
  {
    hide Order;
  }

  lemma {:induction false} RootsAreFamily(s: Shape)
    requires Sound(s)
    ensures Family(s, None, s.f.roots)
  {
    hide Acyclic, ListsChildren;
  }

  /** The snapshots that the lines show are in order. */
  ghost predicate LinesInOrder(g: Graph, rank: map<Id, nat>, bound: nat, lines: seq<Line>)
    requires Acyclic(g, rank, bound)
  {
    var ids := Shown(lines);
    && (forall i :: 0 <= i < |ids| ==> ids[i] in g.entries)
    && forall i, j :: 0 <= i < j < |ids| ==> ComesBefore(g, rank, bound, ids[i], ids[j])
  }

  lemma {:induction false} OrderMeans(s: Shape, lines: seq<Line>)
    requires Sound(s) && InOrder(s, Shown(lines))
    ensures LinesInOrder(s.g, s.rank, s.bound, lines)
  {
    hide IsForest, Acyclic, ComesBefore;
    var ids := Shown(lines);
    forall i, j | 0 <= i < j < |ids| ensures ComesBefore(s.g, s.rank, s.bound, ids[i], ids[j]) {
      assert Precedes(s, ids[i], ids[j]);
    }
  }
}
