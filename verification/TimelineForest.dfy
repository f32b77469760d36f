/** The forest of snapshots by first parent, as the timeline prints it. */
module TimelineForest {
  import opened Wrappers
  import opened Lexicographic
  import opened Ascents

  type Id = nat

  /** What the timeline looks at: first parents, the time, whether there is a message, and whether it was automatic. */
  datatype Info = Info(parents: seq<Id>, timestamp: nat, labelled: bool, auto: bool)

  datatype Graph = Graph(entries: map<Id, Info>, current: Id, worktree: set<Id>, named: set<Id>)

  /** Children by parent, and the snapshots without a listed parent, both in order of time and id. */
  datatype Forest = Forest(children: map<Id, seq<Id>>, roots: seq<Id>)

  /** The first parent, when it is listed too. */
  function ParentOf(g: Graph, id: Id): (parent: Option<Id>) {
    if id in g.entries && g.entries[id].parents != [] && g.entries[id].parents[0] in g.entries then
      Some(g.entries[id].parents[0])
    else None
  }

  function Time(g: Graph, id: Id): (t: nat) {
    if id in g.entries then g.entries[id].timestamp else 0
  }

  predicate Leq(g: Graph, a: Id, b: Id) {
    Time(g, a) < Time(g, b) || (Time(g, a) == Time(g, b) && a <= b)
  }

  function Order(g: Graph): (leq: (Id, Id) -> bool) {
    (a: Id, b: Id) => Leq(g, a, b)
  }

  lemma {:induction false} Ordered(g: Graph)
    ensures TotalOrder(Order(g))
  {
  }

  function ChildrenOf(f: Forest, id: Id): (ids: seq<Id>) {
    if id in f.children then f.children[id] else []
  }

  ghost predicate ListsChildren(g: Graph, f: Forest, id: Id) {
    && Ascending(Order(g), ChildrenOf(f, id))
    && forall c: Id :: c in Elements(ChildrenOf(f, id)) <==> ParentOf(g, c) == Some(id)
  }

  /** The forest lists every child under its parent, and every other snapshot as a root. */
  ghost predicate IsForest(g: Graph, f: Forest) {
    && (forall id: Id :: ListsChildren(g, f, id))
    && Ascending(Order(g), f.roots)
    && forall r: Id :: r in Elements(f.roots) <==> r in g.entries && ParentOf(g, r).None?
  }

  /** Parents come before their children: there is no cycle. */
  ghost predicate Acyclic(g: Graph, rank: map<Id, nat>, bound: nat) {
    && (forall id <- g.entries :: id in rank && rank[id] < bound)
    && forall id: Id | ParentOf(g, id).Some? :: rank[ParentOf(g, id).value] < rank[id]
  }

  predicate IsChild(g: Graph, id: Id, c: Id) {
    ParentOf(g, c) == Some(id)
  }

  /** The loop's state: the children and parents found among the entries seen so far. */
  ghost predicate ListedAt(g: Graph, ids: seq<Id>, seen: set<Id>, id: Id) {
    && Ascending(Order(g), ids)
    && forall c: Id :: c in Elements(ids) <==> c in seen && IsChild(g, id, c)
  }

  ghost predicate Listed(g: Graph, children: map<Id, seq<Id>>, seen: set<Id>) {
    forall id: Id :: ListedAt(g, ChildrenOf(Forest(children, []), id), seen, id)
  }

  lemma {:induction false} ListsOneMore(g: Graph, children: map<Id, seq<Id>>, seen: set<Id>, c: Id)
    requires Listed(g, children, seen) && c !in seen
    ensures ParentOf(g, c).None? ==> Listed(g, children, seen + {c})
    ensures ParentOf(g, c).Some? ==> Listed(g, Added(g, children, ParentOf(g, c).value, c), seen + {c})
  {
    hide ParentOf, Leq, Ascending, Elements, Order;
    var later := if ParentOf(g, c).Some? then Added(g, children, ParentOf(g, c).value, c) else children;
    forall id: Id ensures ListedAt(g, ChildrenOf(Forest(later, []), id), seen + {c}, id) {
      var ids := ChildrenOf(Forest(children, []), id);
      assert ListedAt(g, ids, seen, id);
      if ParentOf(g, c) == Some(id) {
        Ordered(g);
        InsertAscends(Order(g), c, ids);
      }
    }
  }

  function Added(g: Graph, children: map<Id, seq<Id>>, parent: Id, c: Id): (more: map<Id, seq<Id>>) {
    children[parent := Insert(Order(g), c, ChildrenOf(Forest(children, []), parent))]
  }

  method NewForest(g: Graph) returns (f: Forest)
    ensures IsForest(g, f)
  {
    hide ParentOf, Leq, Ascending, Elements, Listed, Added;
    var children: map<Id, seq<Id>> := map[];
    var hasParent: set<Id> := {};
    var todo := g.entries.Keys;
    ListsNone(g);
    while todo != {}
      invariant todo <= g.entries.Keys && Listed(g, children, g.entries.Keys - todo)
      invariant forall c <- g.entries.Keys - todo :: c in hasParent <==> ParentOf(g, c).Some?
      invariant hasParent !! todo
      decreases todo
    {
      var c :| c in todo;
      ListsOneMore(g, children, g.entries.Keys - todo, c);
      assert g.entries.Keys - (todo - {c}) == g.entries.Keys - todo + {c};
      if ParentOf(g, c).Some? {
        children := Added(g, children, ParentOf(g, c).value, c);
        hasParent := hasParent + {c};
      }
      todo := todo - {c};
    }
    assert g.entries.Keys - {} == g.entries.Keys;
    Ordered(g);
    var roots := Enumerate(Order(g), g.entries.Keys - hasParent);
    f := Forest(children, roots);
    AllListed(g, f);
  }

  lemma {:induction false} ListsNone(g: Graph)
    ensures Listed(g, map[], g.entries.Keys - g.entries.Keys)
  {
    Nothing(Order(g));
  }

  lemma {:induction false} AllListed(g: Graph, f: Forest)
    requires Listed(g, f.children, g.entries.Keys)
    ensures forall id: Id :: ListsChildren(g, f, id)
  {
    hide Leq, Ascending, Elements;
    forall id: Id ensures ListsChildren(g, f, id) {
      assert ListedAt(g, ChildrenOf(Forest(f.children, []), id), g.entries.Keys, id);
    }
  }

  /** `id` is `x` or one of its first-parent ancestors. */
  ghost predicate IsAbove(g: Graph, rank: map<Id, nat>, bound: nat, id: Id, x: Id)
    requires Acyclic(g, rank, bound) && x in g.entries
    decreases rank[x]
  {
    id == x || (ParentOf(g, x).Some? && IsAbove(g, rank, bound, id, ParentOf(g, x).value))
  }

  lemma {:induction false} AboveIsEarlier(g: Graph, rank: map<Id, nat>, bound: nat, id: Id, x: Id)
    requires Acyclic(g, rank, bound) && x in g.entries && IsAbove(g, rank, bound, id, x)
    ensures id in g.entries && rank[id] <= rank[x] && (id == x || rank[id] < rank[x])
    decreases rank[x]
  {
    if id != x {
      AboveIsEarlier(g, rank, bound, id, ParentOf(g, x).value);
    }
  }

  /** The child of `id` on the way down to `x`. */
  ghost function Toward(g: Graph, rank: map<Id, nat>, bound: nat, id: Id, x: Id): (c: Id)
    requires Acyclic(g, rank, bound) && x in g.entries && IsAbove(g, rank, bound, id, x) && id != x
    ensures ParentOf(g, c) == Some(id)
    decreases rank[x]
  {
    var parent := ParentOf(g, x).value;
    if parent == id then x else Toward(g, rank, bound, id, parent)
  }

  /** A child of `id` is above `x` exactly when it is the one on the way. */
  lemma {:induction false} OnlyOneChildAbove(g: Graph, rank: map<Id, nat>, bound: nat, id: Id, c: Id, x: Id)
    requires Acyclic(g, rank, bound) && x in g.entries && ParentOf(g, c) == Some(id)
    ensures IsAbove(g, rank, bound, c, x)
       <==> IsAbove(g, rank, bound, id, x) && id != x && c == Toward(g, rank, bound, id, x)
    decreases rank[x]
  {
    if IsAbove(g, rank, bound, c, x) {
      AboveIsEarlier(g, rank, bound, c, x);
    }
    if ParentOf(g, x).Some? && ParentOf(g, x).value != id {
      OnlyOneChildAbove(g, rank, bound, id, c, ParentOf(g, x).value);
    } else if ParentOf(g, x) == Some(id) && c != x && IsAbove(g, rank, bound, c, id) {
      AboveIsEarlier(g, rank, bound, c, id);
    }
  }
}
