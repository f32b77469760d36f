/** The state that captures share, and when its cached records tell the truth about the disk and the store. */
module CacheTruth {
  import opened Wrappers
  import opened Workspace
  import opened CacheRecords

  datatype Error =
    | SymlinkUnsupported(path: Path)
    | UnsupportedFileType(path: Path)
    | NotADirectory(path: Path)
    | MissingObject(id: Id)

  class Materializer {
    const options: Options
    var cache: View
    var store: set<Id>

    constructor (options: Options, cache: View, store: set<Id>)
      ensures this.options == options && this.cache == cache && this.store == store
    {
      this.options, this.cache, this.store := options, cache, store;
    }
  }

  /** The object and everything it refers to can be fetched. */
  ghost predicate Retrievable(store: set<Id>, id: Id) {
    id in store && (id.Tree? ==> forall n <- id.entries :: Retrievable(store, id.entries[n]))
  }

  ghost predicate AllRetrievable(store: set<Id>, entries: Entries) {
    forall n <- entries :: Retrievable(store, entries[n])
  }

  lemma {:induction false} ChildRetrievable(store: set<Id>, entries: Entries, n: Name)
    requires n in entries
    ensures Retrievable(store, Tree(entries)) ==> Retrievable(store, entries[n])
  {
  }

  lemma {:induction false} TreeRetrievable(store: set<Id>, entries: Entries)
    ensures Retrievable(store, Tree(entries)) <==> Tree(entries) in store && AllRetrievable(store, entries)
  {
  }

  lemma {:induction false} RetrievableGrows(store: set<Id>, more: set<Id>, id: Id)
    requires store <= more && Retrievable(store, id)
    ensures Retrievable(more, id)
    decreases id
  {
    if id.Tree? {
      forall n <- id.entries ensures Retrievable(more, id.entries[n]) {
        RetrievableGrows(store, more, id.entries[n]);
      }
    }
  }

  /** The objects that a tree names are there. */
  ghost predicate Supported(store: set<Id>, id: Id) {
    id.Tree? ==> forall n <- id.entries :: id.entries[n] in store
  }

  /** Every stored tree's children are stored. */
  ghost predicate Closed(store: set<Id>) {
    forall id <- store :: Supported(store, id)
  }

  /** All that is new, apart from the trees in `open`, has its children stored. */
  ghost predicate Grounded(store: set<Id>, more: set<Id>, open: set<Id>) {
    store <= more && forall id <- more :: id in store || id in open || Supported(more, id)
  }

  lemma {:induction false} GroundedJoins(a: set<Id>, b: set<Id>, c: set<Id>, first: set<Id>, second: set<Id>)
    requires Grounded(a, b, first) && Grounded(b, c, second)
    ensures Grounded(a, c, first + second)
  {
    forall id <- c ensures id in a || id in first + second || Supported(c, id) {
      if id in b && id !in a && id !in first {
        assert Supported(b, id);
      }
    }
  }

  /** Growing a closed store leaves it closed exactly when the open trees have their children. */
  lemma {:induction false} GroundedCloses(store: set<Id>, more: set<Id>, open: set<Id>)
    requires Closed(store) && Grounded(store, more, open) && open <= more
    ensures Closed(more) <==> forall id <- open :: Supported(more, id)
  {
    forall id <- store ensures Supported(more, id) {
      assert Supported(store, id);
    }
  }

  ghost predicate FileFlagsOk(store: set<Id>, record: FileRecord) {
    && (record.stored ==> record.id in store)
    && (record.storedBase.Some? ==> record.storedBase.value in store)
  }

  ghost predicate DirectoryFlagsOk(store: set<Id>, record: DirectoryRecord) {
    record.stored ==> Tree(record.entries) in store
  }

  /** Every `stored` flag and every stored base names an object in the store. */
  ghost predicate FlagsOk(store: set<Id>, v: View) {
    && (forall p <- v.files :: FileFlagsOk(store, v.files[p]))
    && (forall p <- v.directories :: DirectoryFlagsOk(store, v.directories[p]))
  }

  /** A record that matches this file's fingerprint has its content. */
  predicate RecordSound(node: Option<Node>, record: FileRecord) {
    node.Some? && node.value.File? && node.value.mark == record.mark ==> record.id == Blob(node.value.bytes)
  }

  /** Fingerprints are trustworthy: same path and fingerprint, same content. */
  predicate FilesSound(disk: Node, v: View) {
    forall p <- v.files :: RecordSound(At(disk, p), v.files[p])
  }

  /** The record describes the file at this place. */
  ghost predicate RecordOf(node: Option<Node>, record: FileRecord) {
    node.Some? && node.value.File? && node.value.mark == record.mark && record.id == Blob(node.value.bytes)
  }

  /** Every record that is new describes a file of this disk. */
  ghost predicate FilesFrom(disk: Node, v: View, w: View) {
    forall p <- w.files :: Get(v.files, p) == Some(w.files[p]) || RecordOf(At(disk, p), w.files[p])
  }

  /** What every operation keeps: fingerprints stay trustworthy, the store only grows, and true flags stay true. */
  ghost predicate Keeps(disk: Node, v: View, store: set<Id>, w: View, more: set<Id>) {
    && FilesSound(disk, w) && FilesFrom(disk, v, w)
    && store <= more && (FlagsOk(store, v) ==> FlagsOk(more, w))
  }

  /** From true flags, all that is put has its children stored. */
  ghost predicate PutsClosed(v: View, store: set<Id>, more: set<Id>) {
    FlagsOk(store, v) ==> Grounded(store, more, {})
  }

  lemma {:induction false} PutsClosedJoins(disk: Node, u: View, s: set<Id>, v: View, t: set<Id>, x: set<Id>)
    requires Keeps(disk, u, s, v, t) && PutsClosed(u, s, t) && PutsClosed(v, t, x)
    ensures PutsClosed(u, s, x)
  {
    hide FlagsOk, Grounded, FilesSound, FilesFrom;
    if FlagsOk(s, u) {
      var none: set<Id> := {};
      GroundedJoins(s, t, x, none, none);
      assert none + none == none;
    }
  }

  lemma {:induction false} PutsNothing(v: View, store: set<Id>)
    ensures PutsClosed(v, store, store)
  {
  }

  ghost predicate AllStored(store: set<Id>, entries: Entries) {
    forall n <- entries :: entries[n] in store
  }

  lemma {:induction false} KeepsReflexive(disk: Node, v: View, store: set<Id>)
    requires FilesSound(disk, v)
    ensures Keeps(disk, v, store, v, store)
  {
    hide At, FlagsOk;
  }

  lemma {:induction false} KeepsJoins(disk: Node, u: View, s: set<Id>, v: View, t: set<Id>, w: View, x: set<Id>)
    requires Keeps(disk, u, s, v, t) && Keeps(disk, v, t, w, x)
    ensures Keeps(disk, u, s, w, x)
  {
    hide At, FlagsOk, RecordOf, RecordSound;
    forall p <- w.files ensures Get(u.files, p) == Some(w.files[p]) || RecordOf(At(disk, p), w.files[p]) {
      assert Get(v.files, p) == Some(w.files[p]) || RecordOf(At(disk, p), w.files[p]);
    }
  }

  lemma {:induction false} FlagsGrow(store: set<Id>, more: set<Id>, v: View)
    requires FlagsOk(store, v) && store <= more
    ensures FlagsOk(more, v)
  {
  }

  /** Recording a file of this disk; `stored` only once its blob is there. */
  lemma {:induction false} KeepsFile(disk: Node, v: View, store: set<Id>, more: set<Id>, path: Path, node: Node,
                                     stored: bool)
    requires FilesSound(disk, v) && At(disk, path) == Some(node) && node.File? && store <= more
    requires stored ==> Blob(node.bytes) in more
    ensures Keeps(disk, v, store, WithFile(v, path, node.mark, Blob(node.bytes), stored), more)
  {
    hide At, FlagsOk;
    if FlagsOk(store, v) {
      FlagsGrow(store, more, v);
      FlagsWithFile(v, more, path, node.mark, Blob(node.bytes), stored);
    }
  }

  lemma {:induction false} FlagsWithFile(v: View, store: set<Id>, path: Path, mark: Fingerprint, id: Id, stored: bool)
    requires FlagsOk(store, v) && (stored ==> id in store)
    ensures FlagsOk(store, WithFile(v, path, mark, id, stored))
  {
    assert path in v.files ==> FileFlagsOk(store, v.files[path]);
  }

  lemma {:induction false} KeepsDirectory(disk: Node, v: View, store: set<Id>, more: set<Id>, path: Path,
                                          entries: Entries, stored: bool)
    requires FilesSound(disk, v) && store <= more && (stored ==> Tree(entries) in more)
    ensures Keeps(disk, v, store, WithDirectory(v, path, entries, stored), more)
  {
    hide At, FlagsOk, RecordSound;
    if FlagsOk(store, v) {
      FlagsGrow(store, more, v);
      FlagsWithDirectory(v, more, path, entries, stored);
    }
  }

  lemma {:induction false} FlagsWithDirectory(v: View, store: set<Id>, path: Path, entries: Entries, stored: bool)
    requires FlagsOk(store, v) && (stored ==> Tree(entries) in store)
    ensures FlagsOk(store, WithDirectory(v, path, entries, stored))
  {
    assert path in v.directories ==> DirectoryFlagsOk(store, v.directories[path]);
  }

  lemma {:induction false} KeepsEntries(disk: Node, v: View, store: set<Id>, path: Path, entries: Entries)
    requires FilesSound(disk, v)
    ensures Keeps(disk, v, store, WithEntries(v, path, entries), store)
  {
    hide At;
  }

  lemma {:induction false} KeepsInvalidation(disk: Node, v: View, store: set<Id>, path: Path)
    requires FilesSound(disk, v)
    ensures Keeps(disk, v, store, Without(v, path), store) && SameOutside(path, v, Without(v, path))
  {
    hide At;
  }

  /** Only records at or below `path` may differ. */
  ghost predicate SameOutside(path: Path, v: View, w: View) {
    forall p: Path :: !(path <= p) ==>
      Get(v.files, p) == Get(w.files, p) && Get(v.directories, p) == Get(w.directories, p)
  }

  lemma {:induction false} SameOutsideWider(path: Path, name: Name, v: View, w: View)
    requires SameOutside(path + [name], v, w)
    ensures SameOutside(path, v, w)
  {
    forall p: Path | !(path <= p)
      ensures Get(v.files, p) == Get(w.files, p) && Get(v.directories, p) == Get(w.directories, p)
    {
      assert path + [name] <= p ==> path <= p;
    }
  }

  lemma {:induction false} SameOutsideReflexive(path: Path, v: View)
    ensures SameOutside(path, v, v)
  {
  }

  lemma {:induction false} SameOutsideJoins(path: Path, u: View, v: View, w: View)
    requires SameOutside(path, u, v) && SameOutside(path, v, w)
    ensures SameOutside(path, u, w)
  {
    hide Get;
  }

  lemma {:induction false} SameOutsideRecord(path: Path, v: View, mark: Fingerprint, id: Id, entries: Entries,
                                             stored: bool)
    ensures SameOutside(path, v, WithFile(v, path, mark, id, stored))
    ensures SameOutside(path, v, WithDirectory(v, path, entries, stored))
  {
    hide NextFile, NextDirectory;
    assert path <= path;
  }

  /** The caches agree at and below `path`. */
  ghost predicate SameBelow(path: Path, v: View, w: View) {
    forall p: Path :: path <= p ==>
      Get(v.files, p) == Get(w.files, p) && Get(v.directories, p) == Get(w.directories, p)
  }

  lemma {:induction false} SameBelowChild(path: Path, name: Name, v: View, w: View)
    requires SameBelow(path, v, w)
    ensures SameBelow(path + [name], v, w)
  {
    hide Get;
    forall p: Path | path + [name] <= p
      ensures Get(v.files, p) == Get(w.files, p) && Get(v.directories, p) == Get(w.directories, p)
    {
      assert path <= p;
    }
  }

  /** Where both disks have a file with the same fingerprint, its content is the same. */
  ghost predicate Trusts(a: Node, b: Node) {
    match a
    case File(bytes, mark) => b.File? && b.mark == mark ==> b.bytes == bytes
    case Dir(children) => b.Dir? ==> forall n <- children :: n in b.children ==> Trusts(children[n], b.children[n])
    case _ => true
  }

  lemma {:induction false} TrustsAt(a: Node, b: Node, p: Path)
    requires Trusts(a, b) && At(a, p).Some? && At(b, p).Some?
    ensures Trusts(At(a, p).value, At(b, p).value)
    decreases |p|
  {
    if p != [] {
      TrustsAt(a.children[p[0]], b.children[p[0]], p[1..]);
    }
  }

  /** Records made on one disk are sound for another on which fingerprints can be trusted. */
  lemma {:induction false} SoundElsewhere(a: Node, b: Node, v: View, w: View)
    requires FilesFrom(a, v, w) && FilesSound(b, v) && Trusts(a, b)
    ensures FilesSound(b, w)
  {
    hide At;
    forall p <- w.files ensures RecordSound(At(b, p), w.files[p]) {
      if Get(v.files, p) == Some(w.files[p]) {
        assert RecordSound(At(b, p), v.files[p]);
      } else if At(b, p).Some? {
        TrustsAt(a, b, p);
      }
    }
  }
}
