/** Scanning a directory without storing objects: the same ids as a capture, and the same cache kept honest. */
module Scanning {
  import opened Wrappers
  import opened Workspace
  import opened CacheRecords
  import opened CacheTruth
  import opened DirectoryWalks
  import opened Capture

  /** What every look at the disk keeps: nothing is put, and only records at or below `path` may differ. */
  ghost predicate Looked(disk: Node, store: set<Id>, path: Path, v: View, w: View) {
    Keeps(disk, v, store, w, store) && SameOutside(path, v, w)
  }

  lemma {:induction false} LookedReflexive(disk: Node, store: set<Id>, path: Path, v: View)
    requires FilesSound(disk, v)
    ensures Looked(disk, store, path, v, v)
  {
    hide FilesSound, Keeps;
    KeepsReflexive(disk, v, store);
  }

  lemma {:induction false} LookedJoins(disk: Node, store: set<Id>, path: Path, u: View, v: View, w: View)
    requires Looked(disk, store, path, u, v) && Looked(disk, store, path, v, w)
    ensures Looked(disk, store, path, u, w)
  {
    hide Keeps, SameOutside;
    KeepsJoins(disk, u, store, v, store, w, store);
    SameOutsideJoins(path, u, v, w);
  }

  lemma {:induction false} LookedWider(disk: Node, store: set<Id>, path: Path, name: Name, v: View, w: View)
    requires Looked(disk, store, path + [name], v, w)
    ensures Looked(disk, store, path, v, w)
  {
    hide Keeps, SameOutside;
    SameOutsideWider(path, name, v, w);
  }

  lemma {:induction false} LookedSound(disk: Node, store: set<Id>, path: Path, v: View, w: View)
    requires Looked(disk, store, path, v, w)
    ensures FilesSound(disk, w)
  {
  }

  lemma {:induction false} LooksRecorded(disk: Node, store: set<Id>, path: Path, u: View, v: View, entries: Entries)
    requires Looked(disk, store, path, u, v)
    ensures Looked(disk, store, path, u, WithDirectory(v, path, entries, false))
  {
    hide Keeps, SameOutside, FilesSound;
    LookedSound(disk, store, path, u, v);
    KeepsDirectory(disk, v, store, store, path, entries, false);
    SameOutsideRecord(path, v, 0, Blob([]), entries, false);
    LookedJoins(disk, store, path, u, v, WithDirectory(v, path, entries, false));
  }

  method ScanCurrentFile(m: Materializer, ghost disk: Node, path: Path, node: Node) returns (id: Id)
    requires FilesSound(disk, m.cache) && At(disk, path) == Some(node) && node.File?
    modifies m`cache
    ensures Looked(disk, m.store, path, old(m.cache), m.cache) && m.cache.directories == old(m.cache.directories)
    ensures id == Blob(node.bytes)
    ensures path in m.cache.files && RecordOf(Some(node), m.cache.files[path])
  {
    hide At, Keeps, SameOutside;
    LookedReflexive(disk, m.store, path, m.cache);
    var found := LookupFile(Get(m.cache.files, path), node.mark);
    if found.matching.Some? {
      assert RecordSound(At(disk, path), m.cache.files[path]);
      return found.matching.value.id;
    }
    id := Blob(node.bytes);
    KeepsFile(disk, m.cache, m.store, m.store, path, node, false);
    SameOutsideRecord(path, m.cache, node.mark, id, map[], false);
    m.cache := WithFile(m.cache, path, node.mark, id, false);
  }

  method ScanEntry(m: Materializer, ghost disk: Node, path: Path, name: Name, node: Node)
    returns (r: Result<Sight, Error>)
    requires FilesSound(disk, m.cache) && At(disk, path) == Some(node)
    modifies m`cache
    ensures Looked(disk, m.store, path, old(m.cache), m.cache)
    ensures r.Ok? == !See(m.options, name, node).Unreadable?
    ensures r.Ok? ==> r.value == See(m.options, name, node)
    ensures r.Ok? ==> WalkedEntry(false, m.options, old(m.cache), m.cache, path, name, node)
    decreases node, 1
  {
    hide At, Looked, Scannable, Scan, FilesSound, Walked, AfterWalk;
    LookedReflexive(disk, m.store, path, m.cache);
    ghost var before := m.cache;
    if Skips(m.options, name, node) {
      return Ok(Skipped);
    }
    match node {
      case Dir(children) =>
        SeeDirectory(m.options, name, children);
        var id := ScanDirectory(m, disk, path, children);
        r := if id.Ok? then Ok(Entry(id.value)) else Err(id.error);
      case File(_, _) =>
        var id := ScanCurrentFile(m, disk, path, node);
        WalkedFile(false, m.options, before, m.cache, path, name, node);
        r := Ok(Entry(id));
      case Symlink =>
        WalkedFile(false, m.options, before, m.cache, path, name, node);
        r := if m.options.symlinks.SkipSymlinks? then Ok(Skipped) else Err(SymlinkUnsupported(path));
      case Special =>
        r := Err(UnsupportedFileType(path));
    }
  }

  /** A scan returns what a capture would, and refreshes the record of every directory it visits. */
  method ScanDirectory(m: Materializer, ghost disk: Node, path: Path, children: map<Name, Node>)
    returns (r: Result<Id, Error>)
    requires FilesSound(disk, m.cache) && At(disk, path) == Some(Dir(children))
    modifies m`cache
    ensures Looked(disk, m.store, path, old(m.cache), m.cache)
    ensures r.Ok? == Scannable(m.options, children)
    ensures r.Ok? ==> r.value == Tree(Scan(m.options, children))
    ensures r.Ok? ==> Walked(false, m.options, old(m.cache), m.cache, path, Dir(children))
    decreases Dir(children), 0
  {
    hide At, See, Looked, Scan, Part, WithDirectory, FilesSound, WalkedSome, WalkedEntry, Walked;
    var o := m.options;
    var todo := children.Keys;
    var entries: Entries := map[];
    ghost var begun := m.cache;
    LookedReflexive(disk, m.store, path, begun);
    WalkedNone(false, o, begun, path, children);
    PartOfNone(o, children);
    assert children.Keys - todo == {};
    while todo != {}
      invariant todo <= children.Keys
      invariant Looked(disk, m.store, path, begun, m.cache)
      invariant WalkedSome(false, o, begun, m.cache, path, children, children.Keys - todo)
      invariant entries == Part(o, children, children.Keys - todo)
      invariant forall n <- children.Keys - todo :: !See(o, n, children[n]).Unreadable?
      decreases todo
    {
      var name :| name in todo;
      AtChild(disk, path, name);
      ghost var done, before := children.Keys - todo, m.cache;
      LookedSound(disk, m.store, path, begun, before);
      var sight := ScanEntry(m, disk, path + [name], name, children[name]);
      LookedWider(disk, m.store, path, name, before, m.cache);
      LookedJoins(disk, m.store, path, begun, before, m.cache);
      if sight.Err? {
        return Err(sight.error);
      }
      WalkedOneMore(false, o, begun, before, m.cache, path, children, done, name);
      PartAdds(o, children, done, name);
      assert children.Keys - (todo - {name}) == done + {name};
      entries := Note(entries, name, sight.value);
      todo := todo - {name};
    }
    assert children.Keys - todo == children.Keys;
    PartOfAll(o, children);
    LooksRecorded(disk, m.store, path, begun, m.cache, entries);
    WalkedAll(false, o, begun, m.cache, path, children);
    m.cache := WithDirectory(m.cache, path, entries, false);
    r := Ok(Tree(entries));
  }

  /** Scanning the whole workspace. */
  method ScanTree(m: Materializer, disk: Node) returns (r: Result<Id, Error>)
    requires FilesSound(disk, m.cache) && disk.Dir?
    modifies m`cache
    ensures Keeps(disk, old(m.cache), m.store, m.cache, m.store)
    ensures r.Ok? == Scannable(m.options, disk.children)
    ensures r.Ok? ==> r.value == Tree(Scan(m.options, disk.children))
    ensures r.Ok? ==> Walked(false, m.options, old(m.cache), m.cache, [], disk)
  {
    hide FilesSound, Scannable, Scan, Walked, Keeps;
    r := ScanDirectory(m, disk, [], disk.children);
  }
}
