/** Comparing the working directory with a stored tree by a merge join over both sorted listings. */
module Comparison {
  import opened Wrappers
  import opened Workspace
  import opened Lexicographic
  import opened Ascents
  import opened CacheRecords
  import opened CacheTruth
  import opened DirectoryWalks
  import opened Scanning
  import opened TreeChanges
  import opened ChangeLists

  /** The names a comparison looks at: neither skipped nor a skipped symlink. */
  function Included(o: Options, children: map<Name, Node>): (names: set<Name>) {
    set n | n in children && !Skips(o, n, children[n]) && !children[n].Symlink?
  }

  method ReadIncludedEntries(o: Options, path: Path, children: map<Name, Node>) returns (r: Result<seq<Name>, Error>)
    ensures r.Ok? ==> Ascending(NameLeq, r.value) && Elements(r.value) == Included(o, children)
    ensures r.Ok? ==> forall n <- children.Keys - Included(o, children) :: See(o, n, children[n]).Skipped?
    ensures r.Ok? ==> forall n <- Included(o, children) :: children[n].File? || children[n].Dir?
    ensures r.Err? ==> !Scannable(o, children)
  {
    var todo := children.Keys;
    while todo != {}
      invariant todo <= children.Keys
      invariant forall n <- children.Keys - todo :: n !in Included(o, children) ==> See(o, n, children[n]).Skipped?
      invariant forall n <- children.Keys - todo :: n in Included(o, children) ==> children[n].File? || children[n].Dir?
      decreases todo
    {
      var name :| name in todo;
      var node := children[name];
      if !Skips(o, name, node) {
        if node.Symlink? && o.symlinks.RejectSymlinks? {
          assert See(o, name, children[name]).Unreadable?;
          return Err(SymlinkUnsupported(path + [name]));
        }
        if node.Special? {
          assert See(o, name, children[name]).Unreadable?;
          return Err(UnsupportedFileType(path + [name]));
        }
      }
      todo := todo - {name};
    }
    NamesAreOrdered();
    var names := Enumerate(NameLeq, Included(o, children));
    r := Ok(names);
  }

  lemma {:induction false} SeenInScan(o: Options, children: map<Name, Node>, name: Name)
    ensures name in Scan(o, children) <==> name in children && See(o, name, children[name]).Entry?
    ensures name in Scan(o, children) ==> Scan(o, children)[name] == See(o, name, children[name]).id
  {
    hide See;
  }

  /** The saved trees can be fetched wherever both sides have a directory. */
  ghost predicate Fetchable(store: set<Id>, saved: Entries, current: Entries)
    decreases Tree(saved), 1
  {
    Tree(saved) in store && forall n <- saved :: EntryFetchable(store, saved, current, n)
  }

  ghost predicate EntryFetchable(store: set<Id>, saved: Entries, current: Entries, n: Name)
    requires n in saved
    decreases Tree(saved), 0
  {
    n in current && saved[n].Tree? && current[n].Tree? ==> Fetchable(store, saved[n].entries, current[n].entries)
  }

  ghost predicate SomeFetchable(store: set<Id>, saved: Entries, current: Entries, names: set<Name>) {
    forall n <- names :: n in saved ==> EntryFetchable(store, saved, current, n)
  }

  /** What is wholly retrievable can be compared with anything. */
  lemma {:induction false} RetrievableIsFetchable(store: set<Id>, saved: Entries, current: Entries)
    requires Retrievable(store, Tree(saved))
    ensures Fetchable(store, saved, current)
    decreases Tree(saved)
  {
    forall n <- saved ensures EntryFetchable(store, saved, current, n) {
      if n in current && saved[n].Tree? && current[n].Tree? {
        RetrievableIsFetchable(store, saved[n].entries, current[n].entries);
      }
    }
  }

  lemma {:induction false} NoneFetched(store: set<Id>, saved: Entries, current: Entries)
    ensures SomeFetchable(store, saved, current, {})
  {
  }

  lemma {:induction false} NotOneFetchable(store: set<Id>, saved: Entries, current: Entries, n: Name)
    requires n in saved && !EntryFetchable(store, saved, current, n)
    ensures !Fetchable(store, saved, current)
  {
  }

  lemma {:induction false} AllFetchable(store: set<Id>, saved: Entries, current: Entries)
    requires Tree(saved) in store && SomeFetchable(store, saved, current, saved.Keys)
    ensures Fetchable(store, saved, current)
  {
    hide EntryFetchable;
  }

  lemma {:induction false} OneMoreFetchable(store: set<Id>, saved: Entries, current: Entries, names: set<Name>, n: Name)
    requires SomeFetchable(store, saved, current, names)
    requires n in saved ==> EntryFetchable(store, saved, current, n)
    ensures SomeFetchable(store, saved, current, names + {n})
  {
    hide EntryFetchable;
  }

  lemma {:induction false} NothingToFetch(store: set<Id>, saved: Entries, current: Entries, n: Name)
    requires n in saved && (n in current && saved[n].Tree? ==> !current[n].Tree?)
    ensures EntryFetchable(store, saved, current, n)
  {
  }

  lemma {:induction false} FetchedBelow(store: set<Id>, saved: Entries, current: Entries, n: Name)
    requires n in saved && n in current && saved[n].Tree? && current[n].Tree?
    ensures EntryFetchable(store, saved, current, n) <==> Fetchable(store, saved[n].entries, current[n].entries)
  {
    hide Fetchable;
  }

  datatype Finding = Finding(sight: Sight, changes: seq<Change>)

  /** What a scan sees of the name, and exactly the changes under it. */
  ghost predicate FoundRight(o: Options, path: Path, saved: Entries, children: map<Name, Node>, name: Name,
                             found: Finding) {
    && name in children && See(o, name, children[name]) == found.sight && found.sight.Entry?
    && ListsNames(found.changes, path, saved, Scan(o, children), {name})
  }

  lemma {:induction false} EntryIsRight(o: Options, path: Path, saved: Entries, children: map<Name, Node>, name: Name,
                                        sight: Sight)
    requires name in children && See(o, name, children[name]) == sight && sight.Entry?
    requires !(name in saved && saved[name].Tree? && sight.id.Tree?)
    ensures FoundRight(o, path, saved, children, name,
                       Finding(sight, EntryChanges(path, saved, Scan(o, children), name)))
  {
    hide See, Scan, EntryChanges;
    SeenInScan(o, children, name);
    ListsEntry(path, saved, Scan(o, children), name);
  }

  /** A name only the working directory has. */
  method ScanAdded(m: Materializer, ghost disk: Node, saved: Entries, path: Path, children: map<Name, Node>,
                   name: Name)
    returns (r: Result<Finding, Error>)
    requires FilesSound(disk, m.cache) && At(disk, path) == Some(Dir(children))
    requires name in children && name !in saved && !See(m.options, name, children[name]).Skipped?
    modifies m`cache
    ensures Looked(disk, m.store, path, old(m.cache), m.cache)
    ensures r.Ok? ==> FoundRight(m.options, path, saved, children, name, r.value)
    ensures r.Ok? ==> WalkedEntry(false, m.options, old(m.cache), m.cache, path + [name], name, children[name])
    ensures r.Err? ==> !Scannable(m.options, children)
  {
    hide WalkedEntry, At, Looked, FilesSound, See, Scan, FoundRight;
    AtChild(disk, path, name);
    ghost var before := m.cache;
    var sight := ScanEntry(m, disk, path + [name], name, children[name]);
    LookedWider(disk, m.store, path, name, before, m.cache);
    if sight.Err? {
      return Err(sight.error);
    }
    EntryIsRight(m.options, path, saved, children, name, sight.value);
    SeenInScan(m.options, children, name);
    r := Ok(Finding(sight.value, [Change(path + [name], Added)]));
  }

  /** A name both sides have. */
  method CompareMatchingEntry(m: Materializer, ghost disk: Node, saved: Entries, path: Path,
                              children: map<Name, Node>, name: Name)
    returns (r: Result<Finding, Error>)
    requires FilesSound(disk, m.cache) && At(disk, path) == Some(Dir(children))
    requires name in children && name in saved && !Skips(m.options, name, children[name])
    requires children[name].File? || children[name].Dir?
    modifies m`cache
    ensures Looked(disk, m.store, path, old(m.cache), m.cache)
    ensures r.Ok? ==> FoundRight(m.options, path, saved, children, name, r.value)
    ensures r.Ok? ==> WalkedEntry(false, m.options, old(m.cache), m.cache, path + [name], name, children[name])
    ensures r.Ok? ==> EntryFetchable(m.store, saved, Scan(m.options, children), name)
    ensures r.Err? ==> !Scannable(m.options, children) || !Fetchable(m.store, saved, Scan(m.options, children))
    decreases Dir(children), 0, 0
  {
    hide Walked, At, Looked, FilesSound, Scan, FoundRight, Scannable, Fetchable, EntryFetchable;
    AtChild(disk, path, name);
    ghost var before, cur := m.cache, Scan(m.options, children);
    SeenInScan(m.options, children, name);
    var node := children[name];
    if node.File? {
      var id := ScanCurrentFile(m, disk, path + [name], node);
      WalkedFile(false, m.options, before, m.cache, path + [name], name, node);
      LookedWider(disk, m.store, path, name, before, m.cache);
      EntryIsRight(m.options, path, saved, children, name, Entry(id));
      NothingToFetch(m.store, saved, cur, name);
      var changes := [];
      if saved[name].Tree? {
        changes := [Change(path + [name], TypeChanged)];
      } else if id != saved[name] {
        changes := [Change(path + [name], Modified)];
      }
      return Ok(Finding(Entry(id), changes));
    }
    SeeDirectory(m.options, name, node.children);
    UnreadableInside(m.options, children, name);
    if saved[name].Tree? {
      var found := CompareDirectory(m, disk, saved[name].entries, path + [name], node.children);
      LookedWider(disk, m.store, path, name, before, m.cache);
      if Scannable(m.options, node.children) {
        FetchedBelow(m.store, saved, cur, name);
      }
      if found.Err? {
        if !EntryFetchable(m.store, saved, cur, name) {
          NotOneFetchable(m.store, saved, cur, name);
        }
        return Err(found.error);
      }
      DirectoryIsRight(m.options, path, saved, children, name, found.value.changes);
      return Ok(Finding(Entry(found.value.id), found.value.changes));
    }
    var id := ScanDirectory(m, disk, path + [name], node.children);
    LookedWider(disk, m.store, path, name, before, m.cache);
    if id.Err? {
      return Err(id.error);
    }
    EntryIsRight(m.options, path, saved, children, name, Entry(id.value));
    NothingToFetch(m.store, saved, cur, name);
    r := Ok(Finding(Entry(id.value), [Change(path + [name], TypeChanged)]));
  }

  lemma {:induction false} UnreadableInside(o: Options, children: map<Name, Node>, name: Name)
    requires name in children
    ensures See(o, name, children[name]).Unreadable? ==> !Scannable(o, children)
  {
    hide See;
  }

  lemma {:induction false} DirectoryIsRight(o: Options, path: Path, saved: Entries, children: map<Name, Node>,
                                            name: Name, changes: seq<Change>)
    requires name in children && children[name].Dir? && !Skips(o, name, children[name])
    requires name in saved && saved[name].Tree? && Scannable(o, children[name].children)
    requires Lists(changes, path + [name], saved[name].entries, Scan(o, children[name].children))
    ensures FoundRight(o, path, saved, children, name, Finding(Entry(Tree(Scan(o, children[name].children))), changes))
  {
    hide See, Scan, Scannable, Lists, ListsNames;
    SeeDirectory(o, name, children[name].children);
    SeenInScan(o, children, name);
    ListsDirectory(changes, path, saved, Scan(o, children), name);
  }

  datatype Compared = Compared(id: Id, changes: seq<Change>)

  /** `x` is the least of the remaining names. */
  ghost predicate Least(x: Name, rest: set<Name>) {
    x in rest && forall y <- rest :: y == x || (NameLeq(x, y) && x != y)
  }

  /** What has been dealt with comes before what remains. */
  ghost predicate Split(done: set<Name>, rest: set<Name>) {
    forall d <- done, y <- rest :: NameLeq(d, y) && d != y
  }

  lemma {:induction false} SplitMoves(done: set<Name>, rest: set<Name>, x: Name)
    requires Split(done, rest) && Least(x, rest)
    ensures Split(done + {x}, rest - {x}) && forall d <- done :: NameLeq(d, x) && d != x
  {
    hide NameLeq;
  }

  lemma {:induction false} Head(s: seq<Name>, i: nat)
    requires i < |s| && Ascending(NameLeq, s[i..])
    ensures Elements(s[i..]) == {s[i]} + Elements(s[i + 1..]) && s[i] !in Elements(s[i + 1..])
    ensures Least(s[i], Elements(s[i..])) && Ascending(NameLeq, s[i + 1..])
  {
    hide NameLeq;
    assert s[i..][0] == s[i] && s[i..][1..] == s[i + 1..];
  }

  lemma {:induction false} LeastOfBoth(x: Name, rest: set<Name>, y: Name, other: set<Name>)
    requires Least(x, rest) && Least(y, other) && NameLeq(x, y)
    ensures Least(x, rest + other)
  {
    hide NameLeq;
    forall z <- other ensures z == x || (NameLeq(x, z) && x != z) {
      if z != x && z != y {
        NameTransitive(x, y, z);
      }
    }
  }

  lemma {:induction false} NameTransitive(x: Name, y: Name, z: Name)
    requires NameLeq(x, y) && NameLeq(y, z)
    ensures NameLeq(x, z)
  {
    LexTransitive(ByteLeq, x, y, z);
  }

  lemma {:induction false} NameTotal(x: Name, y: Name)
    ensures NameLeq(x, y) || NameLeq(y, x)
  {
    LexTotal(ByteLeq, x, y);
  }

  /** The listings still to be joined, and what has been found so far. */
  ghost predicate Joining(o: Options, path: Path, saved: Entries, children: map<Name, Node>, rest: set<Name>,
                          other: set<Name>, entries: Entries, changes: seq<Change>) {
    var included, done := Included(o, children), saved.Keys + Included(o, children) - rest - other;
    && rest <= saved.Keys && other <= included
    && rest * included == other * saved.Keys
    && Split(done, rest + other)
    && entries == Part(o, children, included - other)
    && (forall n <- included - other :: See(o, n, children[n]).Entry?)
    && ListsNames(changes, path, saved, Scan(o, children), done)
  }

  lemma {:induction false} JoinStarts(o: Options, path: Path, saved: Entries, children: map<Name, Node>)
    ensures Joining(o, path, saved, children, saved.Keys, Included(o, children), map[], [])
  {
    hide See, Included, Scan;
    var included := Included(o, children);
    assert saved.Keys + included - saved.Keys - included == {};
    assert included - included == {};
    ListsNothing(path, saved, Scan(o, children));
  }

  /** A name only the saved tree has. */
  lemma {:induction false} JoinDeleted(o: Options, path: Path, saved: Entries, children: map<Name, Node>,
                                       rest: set<Name>, other: set<Name>, entries: Entries, changes: seq<Change>,
                                       name: Name)
    requires Joining(o, path, saved, children, rest, other, entries, changes)
    requires Least(name, rest + other) && name in rest && name !in other
    requires forall n <- children.Keys - Included(o, children) :: See(o, n, children[n]).Skipped?
    ensures Joining(o, path, saved, children, rest - {name}, other, entries,
                    changes + [Change(path + [name], Deleted)])
  {
    hide See, Included, Scan, Part, NameLeq, ListsNames, Least;
    var included, done := Included(o, children), saved.Keys + Included(o, children) - rest - other;
    assert name !in included by { assert name !in other * saved.Keys; }
    assert name in children ==> name in children.Keys - included;
    SplitMoves(done, rest + other, name);
    assert saved.Keys + included - (rest - {name}) - other == done + {name};
    assert rest + other - {name} == (rest - {name}) + other;
    SeenInScan(o, children, name);
    ListsEntry(path, saved, Scan(o, children), name);
    ListsAppend(changes, [Change(path + [name], Deleted)], path, saved, Scan(o, children), done, name);
  }

  /** A name the working directory has, whether or not the saved tree has it too. */
  lemma {:induction false} JoinFound(o: Options, path: Path, saved: Entries, children: map<Name, Node>,
                                     rest: set<Name>, other: set<Name>, entries: Entries, changes: seq<Change>,
                                     name: Name, found: Finding)
    requires Joining(o, path, saved, children, rest, other, entries, changes)
    requires Least(name, rest + other) && name in other
    requires FoundRight(o, path, saved, children, name, found)
    ensures Joining(o, path, saved, children, rest - {name}, other - {name}, Note(entries, name, found.sight),
                    changes + found.changes)
  {
    hide See, Included, Scan, Part, NameLeq, ListsNames, Least, Note;
    var included, done := Included(o, children), saved.Keys + Included(o, children) - rest - other;
    assert name in saved ==> name in rest by { assert name in saved ==> name in other * saved.Keys; }
    SplitMoves(done, rest + other, name);
    assert saved.Keys + included - (rest - {name}) - (other - {name}) == done + {name};
    assert rest + other - {name} == (rest - {name}) + (other - {name});
    assert included - (other - {name}) == included - other + {name};
    SharedNames(rest, included, other, saved.Keys, name);
    PartAdds(o, children, included - other, name);
    ListsAppend(changes, found.changes, path, saved, Scan(o, children), done, name);
  }

  lemma {:induction false} SharedNames(rest: set<Name>, included: set<Name>, other: set<Name>, keys: set<Name>,
                                       name: Name)
    requires rest * included == other * keys
    ensures (rest - {name}) * included == (other - {name}) * keys
  {
    assert (rest - {name}) * included == rest * included - {name};
    assert (other - {name}) * keys == other * keys - {name};
  }

  lemma {:induction false} JoinEnds(o: Options, path: Path, saved: Entries, children: map<Name, Node>,
                                    entries: Entries, changes: seq<Change>)
    requires Joining(o, path, saved, children, {}, {}, entries, changes)
    requires forall n <- children.Keys - Included(o, children) :: See(o, n, children[n]).Skipped?
    ensures Scannable(o, children) && entries == Scan(o, children) && Lists(changes, path, saved, Scan(o, children))
  {
    hide See, Included, ListsNames, Lists;
    var included := Included(o, children);
    assert included - {} == included;
    forall n <- children ensures n in included || See(o, n, children[n]).Skipped? {
      assert n in included || n in children.Keys - included;
    }
    forall n <- included ensures n in children && See(o, n, children[n]).Entry? {
      IncludedIsChild(o, children, n);
      assert n in included - {};
    }
    JoinedNames(o, path, saved, children, changes);
  }

  lemma {:induction false} IncludedIsChild(o: Options, children: map<Name, Node>, name: Name)
    requires name in Included(o, children)
    ensures name in children && !See(o, name, children[name]).Skipped? && !Skips(o, name, children[name])
  {
  }

  lemma {:induction false} JoinedNames(o: Options, path: Path, saved: Entries, children: map<Name, Node>,
                                       changes: seq<Change>)
    requires ListsNames(changes, path, saved, Scan(o, children), saved.Keys + Included(o, children) - {} - {})
    requires forall n <- Included(o, children) :: n in children && See(o, n, children[n]).Entry?
    requires forall n <- children :: n in Included(o, children) || See(o, n, children[n]).Skipped?
    ensures Lists(changes, path, saved, Scan(o, children))
  {
    hide See, Included, ListsNames, Lists;
    var names := saved.Keys + Included(o, children) - {} - {};
    assert names == saved.Keys + Scan(o, children).Keys;
    ListsAllNames(changes, path, saved, Scan(o, children), names);
  }

  /**
   * The merge join: the id is the one a scan computes, and the list holds exactly the topmost differing paths, in
   * order and once each.
   */
  method CompareDirectory(m: Materializer, ghost disk: Node, saved: Entries, path: Path, children: map<Name, Node>)
    returns (r: Result<Compared, Error>)
    requires FilesSound(disk, m.cache) && At(disk, path) == Some(Dir(children))
    modifies m`cache
    ensures Looked(disk, m.store, path, old(m.cache), m.cache)
    ensures r.Ok? ==> Scannable(m.options, children) && r.value.id == Tree(Scan(m.options, children))
    ensures r.Ok? ==> Lists(r.value.changes, path, saved, Scan(m.options, children))
    ensures r.Ok? ==> Walked(false, m.options, old(m.cache), m.cache, path, Dir(children))
    ensures r.Ok? ==> Fetchable(m.store, saved, Scan(m.options, children))
    ensures r.Err? ==> !Scannable(m.options, children) || !Fetchable(m.store, saved, Scan(m.options, children))
    decreases Dir(children), 1
  {
    hide At, Looked, FilesSound, See, Scan, Scannable, Lists, Joining, NameLeq, Ascending, Elements, FoundRight, Least,
      WithDirectory, Note, Walked, WalkedSome, Included, SomeFetchable, EntryFetchable;
    ghost var begun := m.cache;
    LookedReflexive(disk, m.store, path, begun);
    if Tree(saved) !in m.store {
      return Err(MissingObject(Tree(saved)));
    }
    var o := m.options;
    var listed := ReadIncludedEntries(o, path, children);
    if listed.Err? {
      return Err(listed.error);
    }
    var currentNames := listed.value;
    NamesAreOrdered();
    var savedNames := Enumerate(NameLeq, saved.Keys);
    var entries: Entries := map[];
    var changes: seq<Change> := [];
    var i: nat, j: nat := 0, 0;
    JoinStarts(o, path, saved, children);
    WalkedNone(false, o, begun, path, children);
    NoneFetched(m.store, saved, Scan(o, children));
    assert Included(o, children) - Elements(currentNames) == {} && saved.Keys - Elements(savedNames) == {};
    assert savedNames[0..] == savedNames && currentNames[0..] == currentNames;
    while i < |savedNames| || j < |currentNames|
      invariant i <= |savedNames| && j <= |currentNames|
      invariant Ascending(NameLeq, savedNames[i..]) && Ascending(NameLeq, currentNames[j..])
      invariant Looked(disk, m.store, path, begun, m.cache)
      invariant Joining(o, path, saved, children, Elements(savedNames[i..]), Elements(currentNames[j..]), entries,
                        changes)
      invariant WalkedSome(false, o, begun, m.cache, path, children,
                           Included(o, children) - Elements(currentNames[j..]))
      invariant SomeFetchable(m.store, saved, Scan(o, children), saved.Keys - Elements(savedNames[i..]))
      decreases |savedNames| - i + |currentNames| - j
    {
      ghost var before := m.cache;
      LookedSound(disk, m.store, path, begun, before);
      var step := JoinStep(m, disk, saved, path, children, savedNames, currentNames, i, j, entries, changes, begun);
      LookedJoins(disk, m.store, path, begun, before, m.cache);
      if step.Err? {
        return Err(step.error);
      }
      i, j, entries, changes := step.value.i, step.value.j, step.value.entries, step.value.changes;
    }
    NothingLeft(savedNames);
    NothingLeft(currentNames);
    JoinEnds(o, path, saved, children, entries, changes);
    assert saved.Keys - {} == saved.Keys;
    AllFetchable(m.store, saved, Scan(o, children));
    WalkedIncluded(o, begun, m.cache, path, children);
    WalkedAll(false, o, begun, m.cache, path, children);
    LooksRecorded(disk, m.store, path, begun, m.cache, entries);
    m.cache := WithDirectory(m.cache, path, entries, false);
    r := Ok(Compared(Tree(entries), changes));
  }

  /** What a comparison does not include has no directories to visit. */
  lemma {:induction false} WalkedIncluded(o: Options, v: View, w: View, path: Path, children: map<Name, Node>)
    requires WalkedSome(false, o, v, w, path, children, Included(o, children) - {})
    ensures WalkedSome(false, o, v, w, path, children, children.Keys)
  {
    hide Refreshed;
    forall p: Path ensures Get(w.directories, p) == AfterSome(false, o, v, path, children, children.Keys, p) {
      assert Get(w.directories, p) == AfterSome(false, o, v, path, children, Included(o, children) - {}, p);
    }
  }

  datatype Ordering = Less | Equal | Greater

  /** Which listing has the lesser name at hand; a listing that is exhausted has none. */
  function Order(savedNames: seq<Name>, currentNames: seq<Name>, i: nat, j: nat): (ordering: Ordering)
    requires i <= |savedNames| && j <= |currentNames|
  {
    if i < |savedNames| && j < |currentNames| then
      if savedNames[i] == currentNames[j] then Equal
      else if NameLeq(savedNames[i], currentNames[j]) then Less
      else Greater
    else if i < |savedNames| then Less
    else Greater
  }

  lemma {:induction false} OrderPicksLeast(savedNames: seq<Name>, currentNames: seq<Name>, i: nat, j: nat)
    requires i <= |savedNames| && j <= |currentNames| && (i < |savedNames| || j < |currentNames|)
    requires Ascending(NameLeq, savedNames[i..]) && Ascending(NameLeq, currentNames[j..])
    ensures var rest, other := Elements(savedNames[i..]), Elements(currentNames[j..]);
      match Order(savedNames, currentNames, i, j)
      case Less => i < |savedNames| && Least(savedNames[i], rest + other) && savedNames[i] !in other
      case Greater => j < |currentNames| && Least(currentNames[j], rest + other) && currentNames[j] !in rest
      case Equal =>
        && i < |savedNames| && j < |currentNames| && savedNames[i] == currentNames[j]
        && Least(currentNames[j], rest + other)
  {
    hide Ascending, NameLeq;
    var rest, other := Elements(savedNames[i..]), Elements(currentNames[j..]);
    if i < |savedNames| && j < |currentNames| {
      Head(savedNames, i);
      Head(currentNames, j);
      var x, y := savedNames[i], currentNames[j];
      NameTotal(x, y);
      if NameLeq(x, y) {
        LeastOfBoth(x, rest, y, other);
      } else {
        LeastOfBoth(y, other, x, rest);
        assert other + rest == rest + other;
      }
      if x != y {
        Apart(x, rest, y, other);
      }
    } else if i < |savedNames| {
      Head(savedNames, i);
      assert currentNames[j..] == [] && rest + other == rest;
    } else {
      Head(currentNames, j);
      assert savedNames[i..] == [] && rest + other == other;
    }
  }

  /** A least name of one listing that precedes the other's is not in the other. */
  lemma {:induction false} Apart(x: Name, rest: set<Name>, y: Name, other: set<Name>)
    requires Least(x, rest) && Least(y, other) && x != y
    ensures NameLeq(x, y) ==> x !in other
    ensures !NameLeq(x, y) ==> y !in rest
  {
    hide NameLeq;
    if NameLeq(x, y) && NameLeq(y, x) {
      NameAntisymmetric(x, y);
    }
  }

  lemma {:induction false} NameAntisymmetric(x: Name, y: Name)
    requires NameLeq(x, y) && NameLeq(y, x)
    ensures x == y
  {
    LexAntisymmetric(ByteLeq, x, y);
  }

  datatype Cursor = Cursor(i: nat, j: nat, entries: Entries, changes: seq<Change>)

  /** One turn of the join, on the lesser of the two names at hand. */
  method JoinStep(m: Materializer, ghost disk: Node, saved: Entries, path: Path, children: map<Name, Node>,
                  savedNames: seq<Name>, currentNames: seq<Name>, i: nat, j: nat, entries: Entries,
                  changes: seq<Change>, ghost begun: View)
    returns (r: Result<Cursor, Error>)
    requires FilesSound(disk, m.cache) && At(disk, path) == Some(Dir(children))
    requires i <= |savedNames| && j <= |currentNames| && (i < |savedNames| || j < |currentNames|)
    requires Ascending(NameLeq, savedNames[i..]) && Ascending(NameLeq, currentNames[j..])
    requires Joining(m.options, path, saved, children, Elements(savedNames[i..]), Elements(currentNames[j..]), entries,
                     changes)
    requires forall n <- children.Keys - Included(m.options, children) :: See(m.options, n, children[n]).Skipped?
    requires forall n <- Included(m.options, children) :: children[n].File? || children[n].Dir?
    requires WalkedSome(false, m.options, begun, m.cache, path, children,
                        Included(m.options, children) - Elements(currentNames[j..]))
    requires SomeFetchable(m.store, saved, Scan(m.options, children), saved.Keys - Elements(savedNames[i..]))
    modifies m`cache
    ensures Looked(disk, m.store, path, old(m.cache), m.cache)
    ensures r.Ok? ==> var c := r.value;
      && i <= c.i <= |savedNames| && j <= c.j <= |currentNames| && i + j < c.i + c.j
      && Ascending(NameLeq, savedNames[c.i..]) && Ascending(NameLeq, currentNames[c.j..])
      && Joining(m.options, path, saved, children, Elements(savedNames[c.i..]), Elements(currentNames[c.j..]),
                 c.entries, c.changes)
      && WalkedSome(false, m.options, begun, m.cache, path, children,
                    Included(m.options, children) - Elements(currentNames[c.j..]))
      && SomeFetchable(m.store, saved, Scan(m.options, children), saved.Keys - Elements(savedNames[c.i..]))
    ensures r.Err? ==> !Scannable(m.options, children) || !Fetchable(m.store, saved, Scan(m.options, children))
    decreases Dir(children), 0, 1
  {
    hide At, Looked, FilesSound, See, Scan, Scannable, Joining, NameLeq, Ascending, Elements, FoundRight, Least, Note,
      Fetchable, EntryFetchable, SomeFetchable, WalkedSome, WalkedEntry, Included;
    LookedReflexive(disk, m.store, path, m.cache);
    ghost var rest, other := Elements(savedNames[i..]), Elements(currentNames[j..]);
    ghost var current := Scan(m.options, children);
    OrderPicksLeast(savedNames, currentNames, i, j);
    var ordering := Order(savedNames, currentNames, i, j);
    if ordering.Less? {
      var name := savedNames[i];
      Head(savedNames, i);
      JoinDeleted(m.options, path, saved, children, rest, other, entries, changes, name);
      assert rest - {name} == Elements(savedNames[i + 1..]);
      OnlySaved(m.options, path, saved, children, rest, other, entries, changes, name);
      NothingToFetch(m.store, saved, current, name);
      OneMoreFetchable(m.store, saved, current, saved.Keys - rest, name);
      assert saved.Keys - rest + {name} == saved.Keys - (rest - {name});
      return Ok(Cursor(i + 1, j, entries, changes + [Change(path + [name], Deleted)]));
    }
    var name := currentNames[j];
    Head(currentNames, j);
    assert other - {name} == Elements(currentNames[j + 1..]);
    IsIncluded(m.options, path, saved, children, rest, other, entries, changes, name);
    ghost var included, before := Included(m.options, children), m.cache;
    assert included - (other - {name}) == included - other + {name};
    var found;
    if ordering.Greater? {
      assert rest - {name} == rest;
      found := ScanAdded(m, disk, saved, path, children, name);
    } else {
      Head(savedNames, i);
      assert rest - {name} == Elements(savedNames[i + 1..]);
      found := CompareMatchingEntry(m, disk, saved, path, children, name);
      if found.Ok? {
        OneMoreFetchable(m.store, saved, current, saved.Keys - rest, name);
        assert saved.Keys - rest + {name} == saved.Keys - (rest - {name});
      }
    }
    if found.Err? {
      return Err(found.error);
    }
    WalkedOneMore(false, m.options, begun, before, m.cache, path, children, included - other, name);
    JoinFound(m.options, path, saved, children, rest, other, entries, changes, name, found.value);
    r := Ok(Cursor(if ordering.Greater? then i else i + 1, j + 1, Note(entries, name, found.value.sight),
                   changes + found.value.changes));
  }

  /** A name that only the saved tree lists is not in a scan. */
  lemma {:induction false} OnlySaved(o: Options, path: Path, saved: Entries, children: map<Name, Node>,
                                     rest: set<Name>, other: set<Name>, entries: Entries, changes: seq<Change>,
                                     name: Name)
    requires Joining(o, path, saved, children, rest, other, entries, changes) && name in rest && name !in other
    requires forall n <- children.Keys - Included(o, children) :: See(o, n, children[n]).Skipped?
    ensures name in saved && name !in Scan(o, children)
  {
    hide See, Included, Scan, Part, NameLeq, ListsNames, Split;
    assert name !in Included(o, children) by { assert name !in other * saved.Keys; }
    assert name in children ==> name in children.Keys - Included(o, children);
    SeenInScan(o, children, name);
  }

  lemma {:induction false} IsIncluded(o: Options, path: Path, saved: Entries, children: map<Name, Node>,
                                      rest: set<Name>, other: set<Name>, entries: Entries, changes: seq<Change>,
                                      name: Name)
    requires Joining(o, path, saved, children, rest, other, entries, changes) && name in other
    ensures name in Included(o, children) && name in children && (name in saved <==> name in rest)
    ensures !See(o, name, children[name]).Skipped? && !Skips(o, name, children[name])
  {
    hide Part, ListsNames, Split, Included, See;
    IncludedIsChild(o, children, name);
    assert name in saved ==> name in other * saved.Keys;
  }

  lemma {:induction false} NothingLeft(s: seq<Name>)
    ensures Elements(s[|s|..]) == {}
  {
  }

  /**
   * Comparing the whole workspace. It succeeds exactly when the disk can be scanned and the saved trees it meets can be
   * fetched. Nothing is listed exactly when the saved and current roots are the same.
   */
  method CompareTree(m: Materializer, disk: Node, saved: Entries) returns (r: Result<Compared, Error>)
    requires FilesSound(disk, m.cache) && disk.Dir?
    modifies m`cache
    ensures Keeps(disk, old(m.cache), m.store, m.cache, m.store)
    ensures r.Ok? ==> Scannable(m.options, disk.children) && r.value.id == Tree(Scan(m.options, disk.children))
    ensures r.Ok? ==> Lists(r.value.changes, [], saved, r.value.id.entries)
    ensures r.Ok? ==> IsListing(r.value.changes, saved, Scan(m.options, disk.children))
    ensures r.Ok? ==> Walked(false, m.options, old(m.cache), m.cache, [], disk)
    ensures r.Ok? ==> (r.value.changes == [] <==> r.value.id == Tree(saved))
    ensures r.Ok? <==>
      Scannable(m.options, disk.children) && Fetchable(m.store, saved, Scan(m.options, disk.children))
    ensures r.Err? ==> !Scannable(m.options, disk.children) || !Retrievable(m.store, Tree(saved))
  {
    hide FilesSound, Keeps, Walked, Scannable, Scan, Lists, Retrievable, IsListing, Fetchable;
    r := CompareDirectory(m, disk, saved, [], disk.children);
    if Retrievable(m.store, Tree(saved)) {
      RetrievableIsFetchable(m.store, saved, Scan(m.options, disk.children));
    }
    if r.Ok? {
      ListsIsListing(r.value.changes, saved, Scan(m.options, disk.children));
      EmptyListIsEqual(r.value.changes, [], saved, Scan(m.options, disk.children));
    }
  }
}
