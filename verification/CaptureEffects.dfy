/** What a capture of a node puts, and what it takes on trust. */
module CaptureEffects {
  import opened Wrappers
  import opened Workspace
  import opened CacheRecords
  import opened CacheTruth

  /** The cache says that this very file is stored, so it is neither read nor put. */
  predicate TrustsFile(v: View, path: Path, node: Node) {
    && node.File? && path in v.files
    && v.files[path].mark == node.mark && v.files[path].stored
  }

  /** The cache says that this very tree is stored, so it is not put. */
  predicate TrustsDirectory(v: View, path: Path, entries: Entries) {
    Get(v.directories, path) == Some(DirectoryRecord(entries, true))
  }

  /** The objects that capturing an entry puts: a function of the cache and the disk. */
  ghost function Puts(o: Options, v: View, path: Path, name: Name, node: Node): (ids: set<Id>)
    decreases node, 2
  {
    if Skips(o, name, node) then {}
    else
      match node
      case File(bytes, _) => if TrustsFile(v, path, node) then {} else {Blob(bytes)}
      case Dir(children) => PutsDirectory(o, v, path, children)
      case _ => {}
  }

  ghost function PutsDirectory(o: Options, v: View, path: Path, children: map<Name, Node>): (ids: set<Id>)
    decreases Dir(children), 1
  {
    PutsBelow(o, v, path, children, children.Keys) + PutsTree(v, path, Scan(o, children))
  }

  ghost function PutsBelow(o: Options, v: View, path: Path, children: map<Name, Node>, names: set<Name>)
    : (ids: set<Id>)
    decreases Dir(children), 0
  {
    set n, id | n in names && n in children && id in Puts(o, v, path + [n], n, children[n]) :: id
  }

  function PutsTree(v: View, path: Path, entries: Entries): (ids: set<Id>) {
    if TrustsDirectory(v, path, entries) then {} else {Tree(entries)}
  }

  lemma {:induction false} PutsAdds(o: Options, v: View, path: Path, children: map<Name, Node>, names: set<Name>,
                                    name: Name)
    requires name in children
    ensures PutsBelow(o, v, path, children, names + {name})
         == PutsBelow(o, v, path, children, names) + Puts(o, v, path + [name], name, children[name])
  {
    hide Puts;
  }

  lemma {:induction false} PutsNone(o: Options, v: View, path: Path, children: map<Name, Node>)
    ensures PutsBelow(o, v, path, children, {}) == {}
  {
    hide Puts;
  }

  lemma {:induction false} PutsSame(o: Options, v: View, w: View, path: Path, name: Name, node: Node)
    requires SameBelow(path, v, w)
    ensures Puts(o, v, path, name, node) == Puts(o, w, path, name, node)
    decreases node
  {
    hide Scan;
    assert path <= path && Get(v.files, path) == Get(w.files, path);
    assert Get(v.directories, path) == Get(w.directories, path);
    if node.Dir? {
      var children := node.children;
      forall n <- children ensures Puts(o, v, path + [n], n, children[n]) == Puts(o, w, path + [n], n, children[n]) {
        SameBelowChild(path, n, v, w);
        PutsSame(o, v, w, path + [n], n, children[n]);
      }
      assert PutsBelow(o, v, path, children, children.Keys) == PutsBelow(o, w, path, children, children.Keys);
    }
  }

  /** Everything that the capture takes on trust is among these objects. */
  ghost predicate TrustKept(o: Options, v: View, store: set<Id>, path: Path, name: Name, node: Node)
    decreases node, 1
  {
    !Skips(o, name, node) ==>
      && (TrustsFile(v, path, node) ==> Blob(node.bytes) in store)
      && (node.Dir? ==> TrustKeptBelow(o, v, store, path, node.children))
  }

  ghost predicate TrustKeptBelow(o: Options, v: View, store: set<Id>, path: Path, children: map<Name, Node>)
    decreases Dir(children), 0
  {
    && (TrustsDirectory(v, path, Scan(o, children)) ==> Tree(Scan(o, children)) in store)
    && forall n <- children :: TrustKept(o, v, store, path + [n], n, children[n])
  }

  /** With what it puts, a capture's result is retrievable exactly when its trust was justified. */
  lemma {:induction false} RetrievableByTrust(o: Options, v: View, store: set<Id>, path: Path, name: Name, node: Node)
    requires See(o, name, node).Entry? && Puts(o, v, path, name, node) <= store
    ensures Retrievable(store, See(o, name, node).id) <==> TrustKept(o, v, store, path, name, node)
    decreases node, 1
  {
    hide Scan, Scannable;
    if node.Dir? {
      SeeDirectory(o, name, node.children);
      DirectoryByTrust(o, v, store, path, node.children);
    }
  }

  lemma {:induction false} DirectoryByTrust(o: Options, v: View, store: set<Id>, path: Path,
                                            children: map<Name, Node>)
    requires Scannable(o, children) && PutsDirectory(o, v, path, children) <= store
    ensures Retrievable(store, Tree(Scan(o, children))) <==> TrustKeptBelow(o, v, store, path, children)
    decreases Dir(children), 0
  {
    hide See, Puts, TrustKept, Retrievable;
    var entries := Scan(o, children);
    TreeRetrievable(store, entries);
    forall n <- children
      ensures n in entries ==> (Retrievable(store, entries[n]) <==> TrustKept(o, v, store, path + [n], n, children[n]))
      ensures n !in entries ==> TrustKept(o, v, store, path + [n], n, children[n])
    {
      PutsPart(o, v, path, children, n);
      if n in entries {
        RetrievableByTrust(o, v, store, path + [n], n, children[n]);
      } else {
        NothingTrustedUnseen(o, v, store, path + [n], n, children[n]);
      }
    }
  }

  lemma {:induction false} PutsPart(o: Options, v: View, path: Path, children: map<Name, Node>, n: Name)
    requires n in children
    ensures Puts(o, v, path + [n], n, children[n]) <= PutsDirectory(o, v, path, children)
  {
    hide Puts;
  }

  lemma {:induction false} NothingTrustedUnseen(o: Options, v: View, store: set<Id>, path: Path, name: Name,
                                                node: Node)
    requires See(o, name, node).Skipped?
    ensures TrustKept(o, v, store, path, name, node)
  {
  }

  /** True flags justify all trust. */
  lemma {:induction false} FlagsJustifyTrust(o: Options, disk: Node, v: View, store: set<Id>, path: Path, name: Name,
                                             node: Node)
    requires FlagsOk(store, v) && FilesSound(disk, v) && At(disk, path) == Some(node)
    ensures TrustKept(o, v, store, path, name, node)
    decreases node, 1
  {
    hide At, Scan;
    if TrustsFile(v, path, node) {
      assert FileFlagsOk(store, v.files[path]) && RecordSound(At(disk, path), v.files[path]);
    }
    if node.Dir? {
      FlagsJustifyBelow(o, disk, v, store, path, node.children);
    }
  }

  lemma {:induction false} FlagsJustifyBelow(o: Options, disk: Node, v: View, store: set<Id>, path: Path,
                                             children: map<Name, Node>)
    requires FlagsOk(store, v) && FilesSound(disk, v) && At(disk, path) == Some(Dir(children))
    ensures TrustKeptBelow(o, v, store, path, children)
    decreases Dir(children), 0
  {
    hide At, Scan, TrustKept;
    if TrustsDirectory(v, path, Scan(o, children)) {
      assert DirectoryFlagsOk(store, v.directories[path]);
    }
    forall n <- children ensures TrustKept(o, v, store, path + [n], n, children[n]) {
      AtChild(disk, path, n);
      FlagsJustifyTrust(o, disk, v, store, path + [n], n, children[n]);
    }
  }

  /** An object and everything it refers to. */
  ghost function Contents(id: Id): (ids: set<Id>) {
    {id} + if id.Blob? then {} else set n, x | n in id.entries && x in Contents(id.entries[n]) :: x
  }

  ghost predicate NoRecords(path: Path, v: View) {
    forall p: Path :: path <= p ==> p !in v.files && p !in v.directories
  }

  /** With no records to trust, a capture puts all it finds. */
  lemma {:induction false} PutsAll(o: Options, v: View, path: Path, name: Name, node: Node)
    requires NoRecords(path, v) && See(o, name, node).Entry?
    ensures Puts(o, v, path, name, node) == Contents(See(o, name, node).id)
    decreases node, 1
  {
    hide Scan;
    assert path <= path;
    if node.Dir? {
      var children := node.children;
      SeeDirectory(o, name, children);
      PutsAllBelow(o, v, path, children);
    }
  }

  lemma {:induction false} PutsAllBelow(o: Options, v: View, path: Path, children: map<Name, Node>)
    requires NoRecords(path, v) && Scannable(o, children)
    ensures PutsDirectory(o, v, path, children) == Contents(Tree(Scan(o, children)))
    decreases Dir(children), 0
  {
    hide See;
    var entries := Scan(o, children);
    assert path <= path;
    forall n <- children
      ensures n in entries ==> Puts(o, v, path + [n], n, children[n]) == Contents(entries[n])
      ensures n !in entries ==> Puts(o, v, path + [n], n, children[n]) == {}
    {
      forall p: Path | path + [n] <= p ensures p !in v.files && p !in v.directories {
        assert path <= p;
      }
      if n in entries {
        PutsAll(o, v, path + [n], n, children[n]);
      } else {
        PutsUnseen(o, v, path + [n], n, children[n]);
      }
    }
  }

  lemma {:induction false} PutsUnseen(o: Options, v: View, path: Path, name: Name, node: Node)
    requires See(o, name, node).Skipped?
    ensures Puts(o, v, path, name, node) == {}
  {
  }
}
