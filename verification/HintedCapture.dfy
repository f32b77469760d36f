/** Hinted capture: patch the cached directory records at the hinted paths and rebuild their ancestors. */
module HintedCapture {
  import opened Wrappers
  import opened Workspace
  import opened CacheRecords
  import opened CacheTruth
  import opened CaptureEffects
  import opened DirectoryWalks
  import opened Capture
  import opened HintedAccuracy
  import opened HintedRecords
  import opened HintedSettling

  /** One turn of the ancestor loop: the record at `path` is put where it waits to be, and marked stored. */
  method StoreAncestor(m: Materializer, ghost disk: Node, path: Path, directory: DirectoryRecord)
    requires FilesSound(disk, m.cache) && Get(m.cache.directories, path) == Some(directory)
    modifies m
    ensures Keeps(disk, old(m.cache), old(m.store), m.cache, m.store)
    ensures m.cache == WithDirectory(old(m.cache), path, directory.entries, true)
    ensures m.store == PutUnlessStored(old(m.store), directory)
    ensures old(Closed(m.store)) ==>
      (Closed(m.store) <==> directory.stored || Supported(old(m.store), Tree(directory.entries)))
  {
    hide At, Keeps;
    ghost var before, stored := m.cache, m.store;
    if !directory.stored {
      m.store := m.store + {Tree(directory.entries)};
      KeepsDirectory(disk, before, stored, m.store, path, directory.entries, true);
      if Closed(stored) {
        GroundedCloses(stored, m.store, {Tree(directory.entries)});
      }
    } else {
      KeepsReflexive(disk, before, stored);
      assert WithDirectory(before, path, directory.entries, true) == before;
    }
    m.cache := WithDirectory(m.cache, path, directory.entries, true);
  }

  method ClimbToParent(m: Materializer, ghost disk: Node, parent: Path, name: Name)
    requires FilesSound(disk, m.cache)
    requires parent in m.cache.directories && parent + [name] in m.cache.directories
    modifies m`cache
    ensures Keeps(disk, old(m.cache), m.store, m.cache, m.store)
    ensures m.cache.directories == Carried(old(m.cache.directories), parent, name,
                                           old(m.cache.directories[parent + [name]].entries))
  {
    hide FilesSound, Keeps, Replace;
    var tree := Entry(Tree(m.cache.directories[parent + [name]].entries));
    var entries := Replace(m.cache.directories[parent].entries, name, tree);
    KeepsEntries(disk, m.cache, m.store, parent, entries);
    m.cache := WithEntries(m.cache, parent, entries);
  }

  /** Rebuilds every record from `start`, which waits to be stored, up to the root. */
  method RebuildCachedAncestors(m: Materializer, ghost disk: Node, start: Path) returns (r: Result<(), Error>)
    requires FilesSound(disk, m.cache)
    requires start in m.cache.directories && !m.cache.directories[start].stored
    modifies m
    ensures Keeps(disk, old(m.cache), old(m.store), m.cache, m.store)
    ensures m.cache.directories.Keys == old(m.cache.directories.Keys)
    ensures r.Err? ==> exists p: Path :: p < start && p !in old(m.cache.directories)
    ensures Climb(old(m.cache.directories), old(m.store), start)
         == if r.Ok? then Some((m.cache.directories, m.store)) else None
    ensures m.store == old(m.store) + ClimbTrees(old(m.cache.directories), start)
  {
    hide FilesSound, PutUnlessStored, Replace, Keeps, Closed;
    var current := start;
    ghost var before, stored, trees := m.cache, m.store, ClimbTrees(m.cache.directories, start);
    KeepsReflexive(disk, before, stored);
    while true
      invariant Climb(m.cache.directories, m.store, current) == Climb(before.directories, stored, start)
      invariant m.store + ClimbTrees(m.cache.directories, current) == stored + trees
      invariant m.cache.directories.Keys == before.directories.Keys
      invariant current in m.cache.directories && !m.cache.directories[current].stored && current <= start
      invariant Keeps(disk, before, stored, m.cache, m.store)
      decreases |current|
    {
      var directory := m.cache.directories[current];
      KeepsSound(disk, before, stored, m.cache, m.store);
      ghost var turn, held := m.cache, m.store;
      StoreAncestor(m, disk, current, directory);
      KeepsJoins(disk, before, stored, turn, held, m.cache, m.store);
      PutWhenUnstored(held, directory);
      if current == [] {
        return Ok(());
      }
      var parent, name := current[..|current| - 1], current[|current| - 1];
      assert current == parent + [name] && parent < start;
      if parent !in m.cache.directories {
        return Err(UnsupportedFileType(parent));
      }
      KeepsSound(disk, before, stored, m.cache, m.store);
      turn, held := m.cache, m.store;
      ClimbToParent(m, disk, parent, name);
      KeepsJoins(disk, before, stored, turn, held, m.cache, m.store);
      current := parent;
    }
  }

  lemma {:induction false} PutWhenUnstored(store: set<Id>, directory: DirectoryRecord)
    requires !directory.stored
    ensures PutUnlessStored(store, directory) == store + PutUnlessStored({}, directory)
  {
  }

  /** What the disk holds at a hint, captured with nothing to trust. */
  method CaptureAtHint(m: Materializer, disk: Node, h: Path, name: Name) returns (r: Result<Sight, Error>)
    requires FilesSound(disk, m.cache) && NoRecords(h, m.cache)
    modifies m
    ensures Keeps(disk, old(m.cache), old(m.store), m.cache, m.store) && SameOutside(h, old(m.cache), m.cache)
    ensures PutsClosed(old(m.cache), old(m.store), m.store)
    ensures r.Ok? == !SightAt(m.options, disk, h, name).Unreadable?
    ensures r.Ok? ==> r.value == SightAt(m.options, disk, h, name)
    ensures r.Ok? ==> m.store == old(m.store) + ContentsOf(r.value)
    ensures r.Ok? ==> WalkedHint(m.options, disk, old(m.cache), m.cache, h, name)
  {
    hide At, StatAt, See, FilesSound, SameOutside, Keeps, PutsClosed, WalkedEntry, Puts, Contents, NoRecords, FlagsOk;
    SameOutsideReflexive(h, m.cache);
    KeepsReflexive(disk, m.cache, m.store);
    PutsNothing(m.cache, m.store);
    StatIsAt(disk, h);
    var stat := StatAt(disk, h);
    if stat.Absent? {
      return Ok(Skipped);
    }
    if stat.Blocked? {
      return Err(NotADirectory(h));
    }
    ghost var before := m.cache;
    r := CaptureEntry(m, disk, h, name, stat.node);
    if r.Ok? {
      PutsAtHint(m.options, before, h, name, stat.node);
    }
  }

  lemma {:induction false} PutsAtHint(o: Options, v: View, h: Path, name: Name, node: Node)
    requires NoRecords(h, v) && !See(o, name, node).Unreadable?
    ensures Puts(o, v, h, name, node) == ContentsOf(See(o, name, node))
  {
    hide See;
    if See(o, name, node).Entry? {
      PutsAll(o, v, h, name, node);
    } else {
      PutsUnseen(o, v, h, name, node);
    }
  }

  /** A full walk would fail. */
  ghost predicate Unscannable(o: Options, disk: Node) {
    disk.Dir? && !Scannable(o, disk.children)
  }

  /** What cannot be read in a visited directory, a full walk cannot read either. */
  lemma {:induction false} UnreadableBelow(o: Options, disk: Node, path: Path, children: map<Name, Node>, name: Name)
    requires Visited(o, disk, path) && At(disk, path) == Some(Dir(children)) && Look(o, children, name).Unreadable?
    ensures Unscannable(o, disk)
    decreases |path|
  {
    hide See;
    if path != [] {
      var child := disk.children[path[0]];
      UnreadableBelow(o, child, path[1..], children, name);
      SeeDirectory(o, path[0], child.children);
    }
  }

  /** The records above hints are still the ones that were there. */
  ghost predicate SameRecords(hints: set<Path>, v: View, w: View) {
    forall p: Path :: Consulted(hints, p) ==> (p in v.directories <==> p in w.directories)
  }

  /** Records above hints lie outside what is captured at a hint. */
  lemma {:induction false} RecordsOutside(hints: set<Path>, h: Path, v: View, w: View)
    requires SameOutside(h, v, w) && h in hints && h != [] && Antichain(hints)
    ensures AgreeAbove(hints, v.directories, w.directories) && SameRecords(hints, v, w)
  {
    hide Antichain, Consulted;
    forall p: Path | Consulted(hints, p) ensures Get(v.directories, p) == Get(w.directories, p) {
      NotAbove(hints, h, p);
    }
    AgreeHasSame(hints, v, w);
  }

  lemma {:induction false} AgreeHasSame(hints: set<Path>, v: View, w: View)
    requires AgreeAbove(hints, v.directories, w.directories)
    ensures SameRecords(hints, v, w)
  {
    hide Consulted;
    forall p: Path | Consulted(hints, p) ensures p in v.directories <==> p in w.directories {
      assert Get(v.directories, p) == Get(w.directories, p);
    }
  }

  lemma {:induction false} OrphanedBefore(hints: set<Path>, h: Path, v: View, w: View)
    requires SameRecords(hints, v, w) && h in hints && Orphan(w, h)
    ensures Orphan(v, h)
  {
    var p: Path :| p < h && p !in w.directories;
    assert Consulted(hints, p);
  }

  lemma {:induction false} SameRecordsReflexive(hints: set<Path>, v: View)
    ensures SameRecords(hints, v, v)
  {
  }

  lemma {:induction false} SameAbove(hints: set<Path>, v: View, w: View, h: Path)
    requires SameRecords(hints, v, w) && h in hints
    ensures forall p: Path :: p < h ==> (p in v.directories <==> p in w.directories)
  {
    forall p: Path | p < h ensures p in v.directories <==> p in w.directories {
      IsConsulted(hints, h, p);
    }
  }

  lemma {:induction false} SameRecordsJoin(hints: set<Path>, u: View, v: View, w: View)
    requires SameRecords(hints, u, v) && SameRecords(hints, v, w)
    ensures SameRecords(hints, u, w)
  {
    hide Consulted;
  }

  lemma {:induction false} InvalidatedIsEmpty(v: View, h: Path)
    ensures NoRecords(h, Without(v, h))
  {
  }

  /** The outcome of a hint is the one computed from the records, the store and the disk beforehand. */
  ghost predicate AsProcessed(hints: set<Path>, end: Option<(Directories, set<Id>)>, done: bool, d: Directories,
                              store: set<Id>) {
    end.Some? == done && (done ==> end.value.1 == store && AgreeAbove(hints, end.value.0, d))
  }

  /** From true flags, all that was put has its children stored, apart from the rebuilt ancestors, which were put. */
  ghost predicate PutsAncestors(v: View, store: set<Id>, more: set<Id>, trees: set<Id>) {
    FlagsOk(store, v) ==> Grounded(store, more, trees) && trees <= more
  }

  /** Reading the parent's record: it is what the computation sees, and stored in both or in neither. */
  lemma {:induction false} ParentSeen(hints: set<Path>, v: View, w: View, h: Path, parent: Path)
    requires AgreeAbove(hints, v.directories, w.directories) && h in hints && parent < h
    ensures Get(v.directories, parent) == Get(w.directories, parent)
  {
    IsConsulted(hints, h, parent);
  }

  /** The climb from the patched record follows the computed one. */
  lemma {:induction false} PatchFollows(o: Options, disk: Node, v: View, w: View, store: set<Id>, hints: set<Path>,
                                        h: Path, parent: Path, name: Name, sight: Sight)
    requires SameOutside(h, v, w) && h in hints && h == parent + [name] && Antichain(hints)
    requires parent in w.directories && w.directories[parent].stored
    requires sight == SightAt(o, disk, h, name) && !sight.Unreadable?
    ensures var patched := WithEntries(w, parent, Replace(w.directories[parent].entries, name, sight)).directories;
      var climb := Climb(patched, store + ContentsOf(sight), parent);
      var end := Processed(o, disk, v.directories, store, h);
      && end.Some? == climb.Some?
      && (end.Some? ==> end.value.1 == climb.value.1 && AgreeAbove(hints, end.value.0, climb.value.0))
      && ProcessedTrees(o, disk, v.directories, h) == ClimbTrees(patched, parent)
  {
    hide SightAt, Replace, Climb, ClimbTrees, Antichain, Contents;
    RecordsOutside(hints, h, v, w);
    var d := v.directories;
    var left := map p | p in d && !(h <= p) :: d[p];
    assert h[..|h| - 1] == parent && h[|h| - 1] == name;
    ParentSeen(hints, v, w, h, parent);
    assert !(h <= parent);
    assert Get(left, parent) == Get(w.directories, parent);
    var entries := Replace(w.directories[parent].entries, name, sight);
    var a, b := left[parent := DirectoryRecord(entries, false)],
                w.directories[parent := DirectoryRecord(entries, false)];
    forall p: Path | Consulted(hints, p) ensures Get(a, p) == Get(b, p) {
      NotAbove(hints, h, p);
      assert Get(v.directories, p) == Get(w.directories, p);
    }
    ClimbAgrees(hints, a, b, store + ContentsOf(sight), parent, h);
  }

  /** After the climb the hint is done. */
  lemma {:induction false} HintIsDone(o: Options, disk: Node, v: View, w: View, x: View, store: set<Id>, more: set<Id>,
                                      parent: Path, name: Name, entries: Entries)
    requires Visited(o, disk, parent) && parent in w.directories
    requires WalkedHint(o, disk, Without(v, parent + [name]), w, parent + [name], name)
    requires SameOutside(parent + [name], v, w)
    requires Climb(WithEntries(w, parent, entries).directories, store, parent) == Some((x.directories, more))
    ensures HintDone(o, disk, v, x, parent + [name])
  {
    hide Visited, At, Expected, WalkedHint, Climb;
    VisitedIsDirectory(o, disk, parent);
    var h, patched, children := parent + [name], WithEntries(w, parent, entries), At(disk, parent).value.children;
    ClimbShape(patched.directories, store, parent);
    forall p: Path | !(p <= h) && !(h <= p) ensures Get(v.directories, p) == Get(x.directories, p) {
      assert !(p <= parent) by { assert p <= parent ==> p <= h; }
      assert Get(patched.directories, p) == Get(x.directories, p);
    }
    forall p: Path | h <= p ensures Get(x.directories, p) == Expected(o, disk, p) {
      assert !(p <= parent);
      assert Get(patched.directories, p) == Get(x.directories, p);
      InvalidatedIsEmpty(v, h);
      HintIsSettled(o, disk, Without(v, h), w, parent, children, name, p);
    }
    forall p: Path | p < h ensures p in x.directories && x.directories[p].stored {
      assert p <= parent;
    }
  }

  /** The root is recorded as stored, and its tree is in the store. */
  ghost predicate RootPut(v: View, store: set<Id>) {
    [] in v.directories && v.directories[[]].stored && Tree(v.directories[[]].entries) in store
  }

  lemma {:induction false} ClimbPutsRoot(d: Directories, store: set<Id>, path: Path, v: View, more: set<Id>)
    requires Climb(d, store, path) == Some((v.directories, more)) && path in d && !d[path].stored
    ensures RootPut(v, more)
  {
    hide Climb;
    ClimbShape(d, store, path);
    assert [] <= path;
  }

  /** Why capturing a hint fails: nothing readable where its parent is recorded, or a record above is missing. */
  ghost predicate HintFails(o: Options, disk: Node, v: View, h: Path)
    requires h != []
  {
    (h[..|h| - 1] in v.directories && SightAt(o, disk, h, h[|h| - 1]).Unreadable?) || Orphan(v, h)
  }

  /** Captures one hinted path and rebuilds its ancestors; false when the cache is no help and a full walk is due. */
  method CaptureHintedPath(m: Materializer, disk: Node, ghost hints: set<Path>, h: Path)
    returns (r: Result<bool, Error>)
    requires FilesSound(disk, m.cache) && h in hints && h != [] && Antichain(hints)
    modifies m
    ensures Keeps(disk, old(m.cache), old(m.store), m.cache, m.store) && SameRecords(hints, old(m.cache), m.cache)
    ensures AsProcessed(hints, Processed(m.options, disk, old(m.cache.directories), old(m.store), h), r == Ok(true),
                        m.cache.directories, m.store)
    ensures PutsAncestors(old(m.cache), old(m.store), m.store,
                          ProcessedTrees(m.options, disk, old(m.cache.directories), h))
    ensures r == Ok(true) ==> RootPut(m.cache, m.store)
    ensures r == Ok(true) && Visited(m.options, disk, h[..|h| - 1]) ==>
      HintDone(m.options, disk, old(m.cache), m.cache, h)
    ensures r.Ok? && old(Tidy(m.options, disk, m.cache)) ==> Tidy(m.options, disk, m.cache)
    ensures r.Err? ==> HintFails(m.options, disk, old(m.cache), h)
  {
    hide Tidy, At, FilesSound, SameOutside, Antichain, SightAt, Visited, Without, Replace, Climb, Consulted, Orphan,
      Keeps, Contents, WalkedHint, HintDone, NoRecords, AgreeAbove, FlagsOk, PutsAncestors, PutsClosed, ProcessedTrees,
      ClimbTrees;
    ghost var o, before, stored := m.options, m.cache, m.store;
    KeepsInvalidation(disk, before, stored, h);
    m.cache := Without(m.cache, h);
    RecordsOutside(hints, h, before, m.cache);
    var parent, name := h[..|h| - 1], h[|h| - 1];
    assert h == parent + [name] && parent < h;
    ParentSeen(hints, before, m.cache, h, parent);
    if parent !in m.cache.directories || !m.cache.directories[parent].stored {
      NotProcessed(o, disk, before, stored, h);
      PutsNoAncestors(before, stored, stored);
      if Tidy(o, disk, before) {
        TidyWithout(o, disk, before, h);
      }
      return Ok(false);
    }
    var directory := m.cache.directories[parent];
    ghost var cached := m.cache;
    KeepsSound(disk, before, stored, cached, stored);
    InvalidatedIsEmpty(before, h);
    var sight := CaptureAtHint(m, disk, h, name);
    PutsOnlyClosed(disk, before, stored, cached, m.store);
    KeepsJoins(disk, before, stored, cached, stored, m.cache, m.store);
    SameOutsideJoins(h, before, cached, m.cache);
    RecordsOutside(hints, h, before, m.cache);
    if sight.Err? {
      NotProcessed(o, disk, before, stored, h);
      return Err(sight.error);
    }
    ParentSeen(hints, before, m.cache, h, parent);
    PatchFollows(o, disk, before, m.cache, stored, hints, h, parent, name, sight.value);
    ghost var captured, held := m.cache, m.store;
    var entries := Replace(directory.entries, name, sight.value);
    KeepsSound(disk, before, stored, captured, held);
    KeepsEntries(disk, captured, held, parent, entries);
    m.cache := WithEntries(m.cache, parent, entries);
    ghost var patched := m.cache;
    KeepsJoins(disk, before, stored, captured, held, patched, held);
    KeepsSound(disk, before, stored, patched, held);
    PatchKeepsKeys(hints, before, captured, parent, entries);
    var rebuilt := RebuildCachedAncestors(m, disk, parent);
    KeepsJoins(disk, before, stored, patched, held, m.cache, m.store);
    SameKeys(hints, before, patched, m.cache);
    PutsMore(before, stored, held, m.store, ClimbTrees(patched.directories, parent));
    if rebuilt.Err? {
      OrphanAbove(patched, parent, h);
      OrphanedBefore(hints, h, before, patched);
      return Err(rebuilt.error);
    }
    ClimbPutsRoot(patched.directories, held, parent, m.cache, m.store);
    if Visited(o, disk, parent) {
      HintIsDone(o, disk, before, captured, m.cache, held, m.store, parent, name, entries);
    }
    if Tidy(o, disk, before) {
      VisitedWhereTidy(o, disk, before, parent);
      SameAbove(hints, before, m.cache, h);
      TidyNext(o, disk, before, m.cache, h);
    }
    r := Ok(true);
  }

  lemma {:induction false} VisitedWhereTidy(o: Options, disk: Node, v: View, p: Path)
    requires Tidy(o, disk, v) && p in v.directories
    ensures Visited(o, disk, p)
  {
  }

  lemma {:induction false} OrphanAbove(v: View, parent: Path, h: Path)
    requires parent < h && exists p: Path :: p < parent && p !in v.directories
    ensures Orphan(v, h)
  {
    var p: Path :| p < parent && p !in v.directories;
    assert p < h;
  }

  lemma {:induction false} PutsNoAncestors(v: View, store: set<Id>, more: set<Id>)
    requires store == more
    ensures PutsAncestors(v, store, more, {})
  {
    hide FlagsOk;
  }

  lemma {:induction false} PutsOnlyClosed(disk: Node, v: View, store: set<Id>, w: View, more: set<Id>)
    requires Keeps(disk, v, store, w, store) && PutsClosed(w, store, more)
    ensures PutsAncestors(v, store, more, {})
  {
    hide FlagsOk, FilesSound, FilesFrom;
  }

  lemma {:induction false} PutsMore(v: View, store: set<Id>, held: set<Id>, more: set<Id>, trees: set<Id>)
    requires PutsAncestors(v, store, held, {}) && more == held + trees
    ensures PutsAncestors(v, store, more, trees)
  {
    hide FlagsOk;
    if FlagsOk(store, v) {
      GroundedJoins(store, held, more, {}, trees);
      assert {} + trees == trees;
    }
  }

  lemma {:induction false} NotProcessed(o: Options, disk: Node, v: View, store: set<Id>, h: Path)
    requires h != []
    requires var parent := h[..|h| - 1];
      parent !in v.directories || !v.directories[parent].stored || SightAt(o, disk, h, h[|h| - 1]).Unreadable?
    ensures Processed(o, disk, v.directories, store, h).None? && ProcessedTrees(o, disk, v.directories, h) == {}
  {
    hide SightAt, Climb, ClimbTrees;
  }

  lemma {:induction false} PatchKeepsKeys(hints: set<Path>, v: View, w: View, parent: Path, entries: Entries)
    requires SameRecords(hints, v, w) && parent in w.directories
    ensures SameRecords(hints, v, WithEntries(w, parent, entries))
  {
    hide Consulted;
  }

  lemma {:induction false} SameKeys(hints: set<Path>, v: View, w: View, x: View)
    requires SameRecords(hints, v, w) && x.directories.Keys == w.directories.Keys
    ensures SameRecords(hints, v, x)
  {
    hide Consulted;
    forall p: Path | Consulted(hints, p) ensures p in v.directories <==> p in x.directories {
      assert p in x.directories.Keys <==> p in w.directories.Keys;
    }
  }
}
