/** Capturing a directory into the object store, with the cache deciding what need not be read or put again. */
module Capture {
  import opened Wrappers
  import opened Workspace
  import opened CacheRecords
  import opened CacheTruth
  import opened CaptureEffects
  import opened DirectoryWalks

  method CaptureCurrentFile(m: Materializer, ghost disk: Node, path: Path, name: Name, node: Node) returns (id: Id)
    requires FilesSound(disk, m.cache) && At(disk, path) == Some(node) && node.File?
    requires !Skips(m.options, name, node)
    modifies m
    ensures Keeps(disk, old(m.cache), old(m.store), m.cache, m.store)
    ensures PutsClosed(old(m.cache), old(m.store), m.store)
    ensures SameOutside(path, old(m.cache), m.cache) && m.cache.directories == old(m.cache.directories)
    ensures id == Blob(node.bytes) && (old(FlagsOk(m.store, m.cache)) ==> id in m.store)
    ensures m.store == old(m.store) + Puts(m.options, old(m.cache), path, name, node)
    ensures path in m.cache.files && RecordOf(Some(node), m.cache.files[path]) && m.cache.files[path].stored
  {
    hide At, Keeps;
    SameOutsideReflexive(path, m.cache);
    var found := LookupFile(Get(m.cache.files, path), node.mark);
    if found.matching.Some? && found.matching.value.stored {
      assert RecordSound(At(disk, path), m.cache.files[path]);
      assert FlagsOk(m.store, m.cache) ==> FileFlagsOk(m.store, m.cache.files[path]);
      KeepsReflexive(disk, m.cache, m.store);
      return found.matching.value.id;
    }
    id := Blob(node.bytes);
    KeepsFile(disk, m.cache, m.store, m.store + {id}, path, node, true);
    SameOutsideRecord(path, m.cache, node.mark, id, map[], true);
    m.store := m.store + {id};
    m.cache := WithFile(m.cache, path, node.mark, id, true);
  }

  method CaptureEntry(m: Materializer, ghost disk: Node, path: Path, name: Name, node: Node)
    returns (r: Result<Sight, Error>)
    requires FilesSound(disk, m.cache) && At(disk, path) == Some(node)
    modifies m
    ensures Keeps(disk, old(m.cache), old(m.store), m.cache, m.store)
    ensures PutsClosed(old(m.cache), old(m.store), m.store) && SameOutside(path, old(m.cache), m.cache)
    ensures r.Ok? == !See(m.options, name, node).Unreadable?
    ensures r.Ok? ==> r.value == See(m.options, name, node)
    ensures r.Ok? && r.value.Entry? && old(FlagsOk(m.store, m.cache)) ==> r.value.id in m.store
    ensures r.Ok? ==> m.store == old(m.store) + Puts(m.options, old(m.cache), path, name, node)
    ensures r.Ok? ==> WalkedEntry(true, m.options, old(m.cache), m.cache, path, name, node)
    decreases node, 1
  {
    hide At, Keeps, PutsClosed, FlagsOk, SameOutside, Scannable, Scan, FilesSound, Walked, PutsDirectory, AfterWalk;
    PutsNothing(m.cache, m.store);
    SameOutsideReflexive(path, m.cache);
    KeepsReflexive(disk, m.cache, m.store);
    if Skips(m.options, name, node) {
      return Ok(Skipped);
    }
    if !node.Dir? {
      WalkedFile(true, m.options, m.cache, m.cache, path, name, node);
    }
    match node {
      case Dir(children) =>
        SeeDirectory(m.options, name, children);
        var id := CaptureDirectory(m, disk, path, children);
        r := if id.Ok? then Ok(Entry(id.value)) else Err(id.error);
      case File(_, _) =>
        ghost var before := m.cache;
        var id := CaptureCurrentFile(m, disk, path, name, node);
        WalkedFile(true, m.options, before, m.cache, path, name, node);
        r := Ok(Entry(id));
      case Symlink =>
        r := if m.options.symlinks.SkipSymlinks? then Ok(Skipped) else Err(SymlinkUnsupported(path));
      case Special =>
        r := Err(UnsupportedFileType(path));
    }
  }

  /**
   * A directory walk returns the id of exactly what a scan would see, puts exactly what it does not take on trust,
   * and leaves an accurate stored record for every directory it visits and every other record as it was.
   */
  method CaptureDirectory(m: Materializer, ghost disk: Node, path: Path, children: map<Name, Node>)
    returns (r: Result<Id, Error>)
    requires FilesSound(disk, m.cache) && At(disk, path) == Some(Dir(children))
    modifies m
    ensures Keeps(disk, old(m.cache), old(m.store), m.cache, m.store)
    ensures PutsClosed(old(m.cache), old(m.store), m.store) && SameOutside(path, old(m.cache), m.cache)
    ensures r.Ok? == Scannable(m.options, children)
    ensures r.Ok? ==> r.value == Tree(Scan(m.options, children))
    ensures r.Ok? && old(FlagsOk(m.store, m.cache)) ==> r.value in m.store
    ensures r.Ok? ==> m.store == old(m.store) + PutsDirectory(m.options, old(m.cache), path, children)
    ensures r.Ok? ==> Walked(true, m.options, old(m.cache), m.cache, path, Dir(children))
    decreases Dir(children), 0
  {
    hide At, See, Keeps, SameOutside, Scan, Part, FilesSound, PutsBelow, WalkedSome, WalkedEntry, Walked, SameBeside,
      PutsTree, PutsClosed, FlagsOk, AllStored;
    var o := m.options;
    var todo := children.Keys;
    var entries: Entries := map[];
    ghost var begun, held := m.cache, m.store;
    KeepsReflexive(disk, begun, held);
    PutsNothing(begun, held);
    NoneStored(held);
    BesideReflexive(path, begun);
    WalkedNone(true, o, begun, path, children);
    PutsNone(o, begun, path, children);
    PartOfNone(o, children);
    assert children.Keys - todo == {};
    while todo != {}
      invariant todo <= children.Keys
      invariant Keeps(disk, begun, held, m.cache, m.store) && PutsClosed(begun, held, m.store)
      invariant FlagsOk(held, begun) ==> AllStored(m.store, entries)
      invariant SameBeside(path, children.Keys - todo, begun, m.cache)
      invariant WalkedSome(true, o, begun, m.cache, path, children, children.Keys - todo)
      invariant m.store == held + PutsBelow(o, begun, path, children, children.Keys - todo)
      invariant entries == Part(o, children, children.Keys - todo)
      invariant forall n <- children.Keys - todo :: !See(o, n, children[n]).Unreadable?
      decreases todo
    {
      var name :| name in todo;
      ghost var done, before, stored := children.Keys - todo, m.cache, m.store;
      AtChild(disk, path, name);
      KeepsSound(disk, begun, held, m.cache, m.store);
      var sight := CaptureEntry(m, disk, path + [name], name, children[name]);
      PutsClosedJoins(disk, begun, held, before, stored, m.store);
      KeepsKnown(disk, begun, held, before, stored, m.cache, m.store);
      KeepsJoins(disk, begun, held, before, stored, m.cache, m.store);
      BesideOneMore(path, done, name, begun, before, m.cache);
      BesideIsOutside(path, done + {name}, begun, m.cache);
      if sight.Err? {
        return Err(sight.error);
      }
      WalkedOneMore(true, o, begun, before, m.cache, path, children, done, name);
      BesideIsBelow(path, done, name, begun, before);
      PutsSame(o, begun, before, path + [name], name, children[name]);
      PutsAdds(o, begun, path, children, done, name);
      PartAdds(o, children, done, name);
      assert children.Keys - (todo - {name}) == done + {name};
      if FlagsOk(held, begun) {
        NoteStored(stored, m.store, entries, name, sight.value);
      }
      entries := Note(entries, name, sight.value);
      todo := todo - {name};
    }
    assert children.Keys - todo == children.Keys;
    PartOfAll(o, children);
    WalkedAll(true, o, begun, m.cache, path, children);
    BesideIsOutside(path, children.Keys, begun, m.cache);
    KeepsSound(disk, begun, held, m.cache, m.store);
    ghost var before, stored := m.cache, m.store;
    PutDirectory(m, disk, path, entries);
    assert PutsTree(before, path, entries) == PutsTree(begun, path, entries) by {
      OwnRecord(path, children.Keys, begun, before);
    }
    KeepsKnown(disk, begun, held, before, stored, m.cache, m.store);
    if FlagsOk(held, begun) {
      PutsClosedJoins(disk, begun, held, before, stored, m.store);
    } else {
      NothingPromised(begun, held, m.store);
    }
    KeepsJoins(disk, begun, held, before, stored, m.cache, m.store);
    SameOutsideJoins(path, begun, before, m.cache);
    r := Ok(Tree(entries));
  }

  lemma {:induction false} NothingPromised(v: View, store: set<Id>, more: set<Id>)
    requires !FlagsOk(store, v)
    ensures PutsClosed(v, store, more)
  {
  }

  lemma {:induction false} NoneStored(store: set<Id>)
    ensures AllStored(store, map[])
  {
  }

  lemma {:induction false} NoteStored(store: set<Id>, more: set<Id>, entries: Entries, name: Name, sight: Sight)
    requires AllStored(store, entries) && store <= more && (sight.Entry? ==> sight.id in more)
    ensures AllStored(more, Note(entries, name, sight))
  {
  }

  lemma {:induction false} KeepsKnown(disk: Node, u: View, s: set<Id>, v: View, t: set<Id>, w: View, x: set<Id>)
    requires Keeps(disk, u, s, v, t) && Keeps(disk, v, t, w, x)
    ensures t <= x && (FlagsOk(s, u) ==> FlagsOk(t, v))
  {
    hide FlagsOk, FilesSound, FilesFrom;
  }

  lemma {:induction false} KeepsSound(disk: Node, v: View, store: set<Id>, w: View, more: set<Id>)
    requires Keeps(disk, v, store, w, more)
    ensures FilesSound(disk, w)
  {
  }

  lemma {:induction false} OwnRecord(path: Path, names: set<Name>, v: View, w: View)
    requires SameBeside(path, names, v, w)
    ensures forall entries: Entries :: PutsTree(v, path, entries) == PutsTree(w, path, entries)
  {
    assert Get(v.directories, path) == Get(w.directories, path);
  }

  lemma {:induction false} PartOfNone(o: Options, children: map<Name, Node>)
    ensures Part(o, children, children.Keys - children.Keys) == map[]
  {
    hide See;
  }

  /** The end of a directory walk: put the tree unless the cache knows it is stored, and record it. */
  method PutDirectory(m: Materializer, ghost disk: Node, path: Path, entries: Entries)
    requires FilesSound(disk, m.cache)
    modifies m
    ensures Keeps(disk, old(m.cache), old(m.store), m.cache, m.store)
    ensures SameOutside(path, old(m.cache), m.cache)
    ensures m.store == old(m.store) + PutsTree(old(m.cache), path, entries)
    ensures m.cache == WithDirectory(old(m.cache), path, entries, true)
    ensures old(AllStored(m.store, entries)) ==> PutsClosed(old(m.cache), old(m.store), m.store)
    ensures old(FlagsOk(m.store, m.cache)) ==> Tree(entries) in m.store
  {
    hide At, Keeps;
    ghost var before, stored := m.cache, m.store;
    if !TrustsDirectory(m.cache, path, entries) {
      m.store := m.store + {Tree(entries)};
      KeepsDirectory(disk, before, stored, m.store, path, entries, true);
    } else {
      KeepsReflexive(disk, before, stored);
      assert FlagsOk(stored, before) ==> DirectoryFlagsOk(stored, before.directories[path]);
      assert WithDirectory(before, path, entries, true) == before;
    }
    SameOutsideRecord(path, before, 0, Blob([]), entries, true);
    m.cache := WithDirectory(m.cache, path, entries, true);
  }
}
