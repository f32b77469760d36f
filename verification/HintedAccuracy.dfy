/** Which cached records a hinted capture consults, and what they must say of the disk. */
module HintedAccuracy {
  import opened Workspace
  import opened CacheRecords

  type Directories = map<Path, DirectoryRecord>

  /** Some hint lies at or below `path`. */
  ghost predicate Touched(hints: set<Path>, path: Path) {
    exists h <- hints :: path <= h
  }

  /** Some hint lies properly below `path`: its record is consulted by the hinted capture. */
  ghost predicate Leads(hints: set<Path>, path: Path) {
    exists h <- hints :: path < h
  }

  ghost predicate Consulted(hints: set<Path>, path: Path) {
    path == [] || Leads(hints, path)
  }

  ghost predicate Antichain(hints: set<Path>) {
    forall a <- hints, b <- hints :: a <= b ==> a == b
  }

  lemma {:induction false} IsConsulted(hints: set<Path>, h: Path, parent: Path)
    requires h in hints && parent < h
    ensures Consulted(hints, parent) && Leads(hints, parent)
  {
  }

  /** Hints do not lie above one another, so records that are consulted are never below a hint. */
  lemma {:induction false} NotAbove(hints: set<Path>, h: Path, p: Path)
    requires h in hints && h != [] && Antichain(hints) && Consulted(hints, p)
    ensures !(h <= p)
  {
    if p != [] {
      var k :| k in hints && p < k;
      assert h <= p ==> h <= k;
    }
  }

  lemma {:induction false} TouchedIsLed(hints: set<Path>, path: Path)
    ensures Touched(hints, path) <==> Leads(hints, path) || path in hints
  {
    if Touched(hints, path) {
      var h :| h in hints && path <= h;
      assert path == h || path < h;
    }
  }

  function Look(o: Options, children: map<Name, Node>, name: Name): (sight: Sight) {
    if name in children then See(o, name, children[name]) else Skipped
  }

  /** The record says of this name what a full walk would. */
  ghost predicate Matches(o: Options, children: map<Name, Node>, entries: Entries, name: Name) {
    match Look(o, children, name)
    case Unreadable => false
    case Skipped => name !in entries
    case Entry(id) => name in entries && entries[name] == id
  }

  /** The record of a visited directory is right, except where hints lie at or below an entry. */
  ghost predicate Accurate(o: Options, disk: Node, path: Path, entries: Entries, hints: set<Path>) {
    && Visited(o, disk, path)
    && At(disk, path).Some? && At(disk, path).value.Dir?
    && forall n: Name :: Touched(hints, path + [n]) || Matches(o, At(disk, path).value.children, entries, n)
  }

  ghost predicate Agreement(o: Options, disk: Node, d: Directories, hints: set<Path>) {
    forall p <- d :: Consulted(hints, p) ==> Accurate(o, disk, p, d[p].entries, hints)
  }

  function Replace(entries: Entries, name: Name, sight: Sight): (replaced: Entries) {
    Note(entries - {name}, name, sight)
  }

  /** Entries that are all right are exactly what a full walk records. */
  lemma {:induction false} MatchesAll(o: Options, children: map<Name, Node>, entries: Entries)
    requires forall n: Name :: Matches(o, children, entries, n)
    ensures Scannable(o, children) && entries == Scan(o, children)
  {
    hide See;
    forall n: Name ensures n in entries <==> n in Scan(o, children) {
      assert Matches(o, children, entries, n);
    }
    forall n <- entries ensures entries[n] == Scan(o, children)[n] {
      assert Matches(o, children, entries, n);
    }
    forall n <- children ensures !See(o, n, children[n]).Unreadable? {
      assert Matches(o, children, entries, n);
    }
  }
}
