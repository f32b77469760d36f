/** How processing a hint changes the cached records: the entry is replaced and its ancestors are rebuilt. */
module HintedRecords {
  import opened Wrappers
  import opened Workspace
  import opened CacheRecords
  import opened CaptureEffects
  import opened HintedAccuracy

  /** What a capture makes of whatever the disk has at `h`; nothing there counts as skipped. */
  function SightAt(o: Options, disk: Node, h: Path, name: Name): (sight: Sight) {
    match StatAt(disk, h)
    case Found(node) => See(o, name, node)
    case Absent => Skipped
    case Blocked => Unreadable
  }

  lemma {:induction false} SightIsLook(o: Options, disk: Node, q: Path, children: map<Name, Node>, name: Name)
    requires At(disk, q) == Some(Dir(children))
    ensures SightAt(o, disk, q + [name], name) == Look(o, children, name)
  {
    hide At, StatAt, See;
    AtChild(disk, q, name);
    StatIsAt(disk, q + [name]);
    StatInDirectory(disk, q, name);
  }

  function PutUnlessStored(store: set<Id>, directory: DirectoryRecord): (more: set<Id>) {
    if directory.stored then store else store + {Tree(directory.entries)}
  }

  /** The parent's record with the new tree under its name, waiting to be stored. */
  function Carried(d: Directories, parent: Path, name: Name, entries: Entries): (e: Directories)
    requires parent in d
  {
    d[parent := DirectoryRecord(Replace(d[parent].entries, name, Entry(Tree(entries))), false)]
  }

  /** Where the ancestor loop ends up: the records and the store after it, or nothing when a record is missing. */
  function Climb(d: Directories, store: set<Id>, path: Path): (end: Option<(Directories, set<Id>)>)
    decreases |path|
  {
    if path !in d then None
    else
      var entries := d[path].entries;
      var more := PutUnlessStored(store, d[path]);
      var e := d[path := DirectoryRecord(entries, true)];
      if path == [] then Some((e, more))
      else
        var parent := path[..|path| - 1];
        if parent !in e then None else Climb(Carried(e, parent, path[|path| - 1], entries), more, parent)
  }

  /** The trees that the ancestor loop puts, also when it then finds a record missing. */
  function ClimbTrees(d: Directories, path: Path): (trees: set<Id>)
    decreases |path|
  {
    if path !in d then {}
    else
      var entries := d[path].entries;
      var e := d[path := DirectoryRecord(entries, true)];
      PutUnlessStored({}, d[path]) +
      if path == [] || path[..|path| - 1] !in e then {}
      else ClimbTrees(Carried(e, path[..|path| - 1], path[|path| - 1], entries), path[..|path| - 1])
  }

  /** What a climb leaves: the same records, stored along the way, and otherwise unchanged. */
  ghost predicate Climbed(d: Directories, store: set<Id>, path: Path, e: Directories, more: set<Id>) {
    && e.Keys == d.Keys && store <= more
    && (forall p: Path :: p <= path ==> p in e && e[p].stored)
    && (forall p: Path :: !(p <= path) ==> Get(d, p) == Get(e, p))
    && [] in e && (path != [] || !d[[]].stored ==> Tree(e[[]].entries) in more)
  }

  lemma {:induction false} ClimbShape(d: Directories, store: set<Id>, path: Path)
    requires Climb(d, store, path).Some?
    ensures var (e, more) := Climb(d, store, path).value;
      [] in d && Climbed(d, store, path, e, more)
    decreases |path|
  {
    hide Replace;
    var entries := d[path].entries;
    var e := d[path := DirectoryRecord(entries, true)];
    if path != [] {
      var parent, name := path[..|path| - 1], path[|path| - 1];
      assert path == parent + [name];
      ClimbShape(Carried(e, parent, name, entries), PutUnlessStored(store, d[path]), parent);
      ClimbShapeStep(d, store, path, parent, Carried(e, parent, name, entries), Climb(d, store, path).value.0,
                     Climb(d, store, path).value.1);
    }
  }

  lemma {:induction false} ClimbShapeStep(d: Directories, store: set<Id>, path: Path, parent: Path, mid: Directories,
                                          e: Directories, more: set<Id>)
    requires path != [] && parent == path[..|path| - 1] && path in d && parent in d && [] in mid
    requires mid.Keys == d.Keys && mid[path].stored && !mid[parent].stored
    requires forall p: Path :: p != path && p != parent ==> Get(d, p) == Get(mid, p)
    requires Climbed(mid, PutUnlessStored(store, d[path]), parent, e, more)
    ensures [] in d && Climbed(d, store, path, e, more)
  {
    forall p: Path | p <= path ensures p in e && e[p].stored {
      if p != path {
        assert p <= parent;
      } else {
        assert !(path <= parent) && Get(mid, path) == Get(e, path);
      }
    }
    forall p: Path | !(p <= path) ensures Get(d, p) == Get(e, p) {
      assert !(p <= parent) by { assert p <= parent ==> p <= path; }
      assert p != path && p != parent;
    }
    if parent == [] {
      assert !mid[[]].stored;
    }
  }

  /** The records that hints consult are the same. */
  ghost predicate AgreeAbove(hints: set<Path>, d: Directories, e: Directories) {
    forall p: Path :: Consulted(hints, p) ==> Get(d, p) == Get(e, p)
  }

  /** A climb reads and changes only records above the hint. */
  lemma {:induction false} ClimbAgrees(hints: set<Path>, d: Directories, e: Directories, store: set<Id>, path: Path,
                                       h: Path)
    requires AgreeAbove(hints, d, e) && h in hints && path < h
    ensures var a, b := Climb(d, store, path), Climb(e, store, path);
      && a.Some? == b.Some? && (a.Some? ==> a.value.1 == b.value.1 && AgreeAbove(hints, a.value.0, b.value.0))
      && ClimbTrees(d, path) == ClimbTrees(e, path)
    decreases |path|
  {
    hide Replace;
    assert Consulted(hints, path) by { IsConsulted(hints, h, path); }
    assert Get(d, path) == Get(e, path);
    if path in d && path != [] {
      var parent, name := path[..|path| - 1], path[|path| - 1];
      assert parent < h;
      assert Consulted(hints, parent) by { IsConsulted(hints, h, parent); }
      assert Get(d, parent) == Get(e, parent);
      if parent in d {
        var entries := d[path].entries;
        var d', e' := d[path := DirectoryRecord(entries, true)], e[path := DirectoryRecord(entries, true)];
        ClimbAgrees(hints, Carried(d', parent, name, entries), Carried(e', parent, name, entries),
                    PutUnlessStored(store, d[path]), parent, h);
      }
    }
  }

  ghost function ContentsOf(sight: Sight): (ids: set<Id>) {
    if sight.Entry? then Contents(sight.id) else {}
  }

  /** Processing one hint, as a function of the records, the store and the disk; nothing when a full walk is due. */
  ghost function Processed(o: Options, disk: Node, d: Directories, store: set<Id>, h: Path)
    : (end: Option<(Directories, set<Id>)>)
    requires h != []
  {
    var parent, name := h[..|h| - 1], h[|h| - 1];
    var left := map p | p in d && !(h <= p) :: d[p];
    var sight := SightAt(o, disk, h, name);
    if parent !in left || !left[parent].stored || sight.Unreadable? then None
    else
      var entries := Replace(left[parent].entries, name, sight);
      Climb(left[parent := DirectoryRecord(entries, false)], store + ContentsOf(sight), parent)
  }

  /** The ancestor trees that processing a hint puts. */
  ghost function ProcessedTrees(o: Options, disk: Node, d: Directories, h: Path): (trees: set<Id>)
    requires h != []
  {
    var parent, name := h[..|h| - 1], h[|h| - 1];
    var left := map p | p in d && !(h <= p) :: d[p];
    var sight := SightAt(o, disk, h, name);
    if parent !in left || !left[parent].stored || sight.Unreadable? then {}
    else ClimbTrees(left[parent := DirectoryRecord(Replace(left[parent].entries, name, sight), false)], parent)
  }

  /** Processing the hints in turn. */
  ghost function ProcessedAll(o: Options, disk: Node, d: Directories, store: set<Id>, hints: seq<Path>)
    : (end: Option<(Directories, set<Id>)>)
    decreases |hints|
  {
    if hints == [] then Some((d, store))
    else if hints[0] == [] then None
    else
      var next := Processed(o, disk, d, store, hints[0]);
      if next.None? then None else ProcessedAll(o, disk, next.value.0, next.value.1, hints[1..])
  }

  /** The ancestor trees that processing the hints puts, up to the one where a full walk is due. */
  ghost function RebuiltAll(o: Options, disk: Node, d: Directories, store: set<Id>, hints: seq<Path>)
    : (trees: set<Id>)
    decreases |hints|
  {
    if hints == [] || hints[0] == [] then {}
    else
      var next := Processed(o, disk, d, store, hints[0]);
      ProcessedTrees(o, disk, d, hints[0])
      + if next.None? then {} else RebuiltAll(o, disk, next.value.0, next.value.1, hints[1..])
  }

  /** A record above `h` is missing, so its ancestors cannot be rebuilt. */
  ghost predicate Orphan(v: View, h: Path) {
    exists p: Path :: p < h && p !in v.directories
  }
}
