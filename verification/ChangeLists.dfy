/** Lists of changes: exactly the topmost differences below a directory, in path order, each once. */
module ChangeLists {
  import opened Wrappers
  import opened Workspace
  import opened Ascents
  import Seqs
  import opened TreeChanges

  function Paths(changes: seq<Change>): (paths: seq<Path>) {
    if changes == [] then [] else [changes[0].path] + Paths(changes[1..])
  }

  /** `c` is a difference of the two trees at `prefix`. */
  ghost predicate Wanted(prefix: Path, saved: Entries, current: Entries, c: Change) {
    prefix < c.path && KindAt(saved, current, c.path[|prefix|..]) == Some(c.kind)
  }

  ghost predicate WantedIn(prefix: Path, saved: Entries, current: Entries, names: set<Name>, c: Change) {
    Wanted(prefix, saved, current, c) && c.path[|prefix|] in names
  }

  /** The changes of some of the names. */
  ghost predicate ListsNames(changes: seq<Change>, prefix: Path, saved: Entries, current: Entries, names: set<Name>) {
    && (forall c: Change :: c in Elements(changes) <==> WantedIn(prefix, saved, current, names, c))
    && Ascending(PathLeq, Paths(changes))
  }

  /** All the changes, each once. */
  ghost predicate Lists(changes: seq<Change>, prefix: Path, saved: Entries, current: Entries) {
    && (forall c: Change :: c in Elements(changes) <==> Wanted(prefix, saved, current, c))
    && Ascending(PathLeq, Paths(changes))
  }

  lemma {:induction false} NamesOfDifference(saved: Entries, current: Entries, p: Path)
    requires p != [] && KindAt(saved, current, p).Some?
    ensures p[0] in saved.Keys + current.Keys
  {
  }

  lemma {:induction false} ListsAllNames(changes: seq<Change>, prefix: Path, saved: Entries, current: Entries,
                                         names: set<Name>)
    requires ListsNames(changes, prefix, saved, current, names) && names == saved.Keys + current.Keys
    ensures Lists(changes, prefix, saved, current)
  {
    hide KindAt, Ascending;
    forall c: Change | Wanted(prefix, saved, current, c) ensures WantedIn(prefix, saved, current, names, c) {
      NamesOfDifference(saved, current, c.path[|prefix|..]);
    }
  }

  lemma {:induction false} ListsNothing(prefix: Path, saved: Entries, current: Entries)
    ensures ListsNames([], prefix, saved, current, {})
  {
    hide KindAt;
  }

  lemma {:induction false} PathsElement(changes: seq<Change>, p: Path) returns (c: Change)
    requires p in Elements(Paths(changes))
    ensures c in Elements(changes) && c.path == p
  {
    Seqs.ConcatTail(changes[0].path, Paths(changes[1..]));
    if p == changes[0].path {
      c := changes[0];
    } else {
      c := PathsElement(changes[1..], p);
    }
  }

  lemma {:induction false} PathsAppend(a: seq<Change>, b: seq<Change>)
    ensures Paths(a + b) == Paths(a) + Paths(b)
  {
    if a == [] {
      assert a + b == b;
    } else {
      assert (a + b)[1..] == a[1..] + b;
      PathsAppend(a[1..], b);
    }
  }

  lemma {:induction false} AscendingAppend(a: seq<Path>, b: seq<Path>)
    requires Ascending(PathLeq, a) && Ascending(PathLeq, b)
    requires forall x <- Elements(a), y <- Elements(b) :: PathLeq(x, y) && x != y
    ensures Ascending(PathLeq, a + b)
  {
    hide PathLeq;
    if a == [] {
      assert a + b == b;
    } else {
      assert (a + b)[1..] == a[1..] + b;
      AscendingAppend(a[1..], b);
      ElementsAppend(a[1..], b);
      assert a[0] in Elements(a);
      assert Before(PathLeq, a[0], a[1..] + b);
    }
  }

  /** Paths that part at the names `p[i]` and `q[i]` are ordered by them. */
  lemma {:induction false} PathOrder(prefix: Path, p: Path, q: Path)
    requires prefix < p && prefix < q
    requires NameLeq(p[|prefix|], q[|prefix|]) && p[|prefix|] != q[|prefix|]
    ensures PathLeq(p, q) && p != q
    decreases |prefix|
  {
    if prefix != [] {
      assert prefix[0] == p[0] == q[0];
      assert prefix[1..] < p[1..] && prefix[1..] < q[1..];
      assert p[1..][|prefix| - 1] == p[|prefix|] && q[1..][|prefix| - 1] == q[|prefix|];
      PathOrder(prefix[1..], p[1..], q[1..]);
    }
  }

  /** The changes of the next name follow those of the names before it. */
  lemma {:induction false} ListsAppend(a: seq<Change>, b: seq<Change>, prefix: Path, saved: Entries, current: Entries,
                                       names: set<Name>, name: Name)
    requires ListsNames(a, prefix, saved, current, names) && ListsNames(b, prefix, saved, current, {name})
    requires forall d <- names :: NameLeq(d, name) && d != name
    ensures ListsNames(a + b, prefix, saved, current, names + {name})
  {
    hide KindAt, PathLeq, NameLeq, Elements, Ascending;
    ElementsAppend(a, b);
    PathsAppend(a, b);
    forall x <- Elements(Paths(a)), y <- Elements(Paths(b)) ensures PathLeq(x, y) && x != y {
      var c := PathsElement(a, x);
      var d := PathsElement(b, y);
      assert WantedIn(prefix, saved, current, names, c) && WantedIn(prefix, saved, current, {name}, d);
      PathOrder(prefix, x, y);
    }
    AscendingAppend(Paths(a), Paths(b));
  }

  /** One entry, unless both sides are directories. */
  function EntryChanges(prefix: Path, saved: Entries, current: Entries, name: Name): (changes: seq<Change>) {
    var kind := EntryKind(saved, current, name);
    if kind.Some? then [Change(prefix + [name], kind.value)] else []
  }

  lemma {:induction false} ListsEntry(prefix: Path, saved: Entries, current: Entries, name: Name)
    requires !(name in saved && name in current && saved[name].Tree? && current[name].Tree?)
    ensures ListsNames(EntryChanges(prefix, saved, current, name), prefix, saved, current, {name})
  {
    var changes := EntryChanges(prefix, saved, current, name);
    forall c: Change ensures c in Elements(changes) <==> WantedIn(prefix, saved, current, {name}, c) {
      EntryWanted(prefix, saved, current, name, c);
    }
  }

  lemma {:induction false} EntryWanted(prefix: Path, saved: Entries, current: Entries, name: Name, c: Change)
    requires !(name in saved && name in current && saved[name].Tree? && current[name].Tree?)
    ensures WantedIn(prefix, saved, current, {name}, c)
       <==> EntryKind(saved, current, name).Some? && c == Change(prefix + [name], EntryKind(saved, current, name).value)
  {
    hide EntryKind;
    if prefix < c.path && c.path[|prefix|] == name {
      var rest := c.path[|prefix|..];
      assert rest[0] == name;
      if |rest| == 1 {
        assert c.path == prefix + [name];
      }
    }
    var one := (prefix + [name])[|prefix|..];
    assert one == [name];
  }

  /** The changes inside a directory, seen from its parent. */
  lemma {:induction false} ListsDirectory(changes: seq<Change>, prefix: Path, saved: Entries, current: Entries,
                                          name: Name)
    requires name in saved && name in current && saved[name].Tree? && current[name].Tree?
    requires Lists(changes, prefix + [name], saved[name].entries, current[name].entries)
    ensures ListsNames(changes, prefix, saved, current, {name})
  {
    hide Ascending, KindAt;
    forall c: Change ensures WantedIn(prefix, saved, current, {name}, c)
                        <==> Wanted(prefix + [name], saved[name].entries, current[name].entries, c)
    {
      WantedBelow(prefix, saved, current, name, c);
    }
  }

  lemma {:induction false} WantedBelow(prefix: Path, saved: Entries, current: Entries, name: Name, c: Change)
    requires name in saved && name in current && saved[name].Tree? && current[name].Tree?
    ensures WantedIn(prefix, saved, current, {name}, c)
       <==> Wanted(prefix + [name], saved[name].entries, current[name].entries, c)
  {
    hide EntryKind;
    if prefix < c.path && c.path[|prefix|] == name {
      var rest := c.path[|prefix|..];
      assert rest[0] == name;
      assert prefix + [name] == c.path[..|prefix| + 1];
      assert rest[1..] == c.path[|prefix| + 1..];
    }
  }

  /** A complete list is empty exactly when the trees are the same. */
  lemma {:induction false} EmptyListIsEqual(changes: seq<Change>, prefix: Path, saved: Entries, current: Entries)
    requires Lists(changes, prefix, saved, current)
    ensures changes == [] <==> saved == current
  {
    hide KindAt, Ascending;
    if saved != current {
      var q := SomeDifference(saved, current);
      var c := Change(prefix + q, KindAt(saved, current, q).value);
      assert c.path[|prefix|..] == q;
      assert Wanted(prefix, saved, current, c);
      assert c in Elements(changes);
    }
    if changes != [] {
      assert changes[0] in Elements(changes);
      NoDifferenceIsEqual(saved, current);
    }
  }

  /** In path order, none twice; and at each place a change that the two trees have. */
  ghost predicate IsListing(changes: seq<Change>, saved: Entries, current: Entries) {
    && (forall i, j :: 0 <= i < j < |changes| ==>
          PathLeq(changes[i].path, changes[j].path) && changes[i].path != changes[j].path)
    && (forall i :: 0 <= i < |changes| ==>
          changes[i].path != [] && KindAt(saved, current, changes[i].path) == Some(changes[i].kind))
    && forall p: Path :: p != [] && KindAt(saved, current, p).Some? ==>
         exists i :: 0 <= i < |changes| && changes[i].path == p
  }

  lemma {:induction false} PathsAt(changes: seq<Change>, i: nat)
    requires i < |changes|
    ensures |Paths(changes)| == |changes| && Paths(changes)[i] == changes[i].path
  {
    if |changes| > 1 {
      PathsAt(changes[1..], if i > 0 then i - 1 else 0);
    }
  }

  lemma {:induction false} AscendingAt(paths: seq<Path>, i: nat, j: nat)
    requires Ascending(PathLeq, paths) && i < j < |paths|
    ensures PathLeq(paths[i], paths[j]) && paths[i] != paths[j]
  {
    hide PathLeq;
    if i > 0 {
      AscendingAt(paths[1..], i - 1, j - 1);
    } else {
      ElementsAt(paths[1..], j - 1);
    }
  }

  lemma {:induction false} ElementIndex(changes: seq<Change>, c: Change) returns (i: nat)
    requires c in Elements(changes)
    ensures i < |changes| && changes[i] == c
  {
    if changes[0] == c {
      i := 0;
    } else {
      var k := ElementIndex(changes[1..], c);
      i := k + 1;
    }
  }

  /** What a list of all the changes is, place by place. */
  lemma {:induction false} ListsIsListing(changes: seq<Change>, saved: Entries, current: Entries)
    requires Lists(changes, [], saved, current)
    ensures IsListing(changes, saved, current)
  {
    hide KindAt, Ascending, Paths, PathLeq;
    forall i | 0 <= i < |changes|
      ensures changes[i].path != [] && KindAt(saved, current, changes[i].path) == Some(changes[i].kind)
      ensures |Paths(changes)| == |changes| && Paths(changes)[i] == changes[i].path
    {
      PathsAt(changes, i);
      ElementsAt(changes, i);
      assert Wanted([], saved, current, changes[i]) && changes[i].path[0..] == changes[i].path;
    }
    forall i, j | 0 <= i < j < |changes|
      ensures PathLeq(changes[i].path, changes[j].path) && changes[i].path != changes[j].path
    {
      PathsAt(changes, i);
      PathsAt(changes, j);
      AscendingAt(Paths(changes), i, j);
    }
    forall p: Path | p != [] && KindAt(saved, current, p).Some?
      ensures exists i :: 0 <= i < |changes| && changes[i].path == p
    {
      assert p[0..] == p;
      var c := Change(p, KindAt(saved, current, p).value);
      assert Wanted([], saved, current, c);
      var i := ElementIndex(changes, c);
      assert changes[i].path == p;
    }
  }
}
