/** Working directories as finite trees, what a scan sees of them, and the ids of what it sees. */
module Workspace {
  import opened Wrappers
  import opened Bytes
  import opened Lexicographic

  type Name = Bytes

  /** A path relative to the workspace root; the root itself is empty. */
  type Path = seq<Name>

  predicate ByteLeq(x: Byte, y: Byte) {
    x <= y
  }

  /** Names compare byte by byte, paths name by name. */
  predicate NameLeq(a: Name, b: Name) {
    LexLeq(ByteLeq, a, b)
  }

  predicate PathLeq(a: Path, b: Path) {
    LexLeq(NameLeq, a, b)
  }

  lemma {:induction false} NamesAreOrdered()
    ensures TotalOrder(NameLeq)
  {
    hide LexLeq;
    LexIsTotalOrder(ByteLeq);
    var lex := (a: Name, b: Name) => LexLeq(ByteLeq, a, b);
    assert forall a, b :: NameLeq(a, b) == lex(a, b);
  }

  lemma {:induction false} PathsAreOrdered()
    ensures TotalOrder(PathLeq)
  {
    hide LexLeq;
    NamesAreOrdered();
    LexIsTotalOrder(NameLeq);
    var lex := (a: Path, b: Path) => LexLeq(NameLeq, a, b);
    assert forall a, b :: PathLeq(a, b) == lex(a, b);
  }

  /** ".era" */
  const METADATA_NAME: Name := [46, 101, 114, 97]

  /** What the system reports about a file besides its content. */
  type Fingerprint = nat

  datatype Node =
    | File(bytes: Bytes, mark: Fingerprint)
    | Dir(children: map<Name, Node>)
    | Symlink
    | Special

  /** Content-addressed ids, with the entry kind: equal exactly when the content is equal. */
  datatype Id = Blob(bytes: Bytes) | Tree(entries: map<Name, Id>)

  type Entries = map<Name, Id>

  datatype SymlinkPolicy = SkipSymlinks | RejectSymlinks

  datatype Options = Options(excluded: set<Name>, symlinks: SymlinkPolicy)

  /** A name a scan passes over without looking inside. */
  predicate Skips(o: Options, name: Name, node: Node) {
    name == METADATA_NAME || (node.Dir? && name in o.excluded)
  }

  datatype Sight = Skipped | Unreadable | Entry(id: Id)

  /** What a full walk makes of one directory entry. */
  function See(o: Options, name: Name, node: Node): (sight: Sight)
    decreases node, 1
  {
    if Skips(o, name, node) then Skipped
    else
      match node
      case File(bytes, _) => Entry(Blob(bytes))
      case Symlink => if o.symlinks.SkipSymlinks? then Skipped else Unreadable
      case Special => Unreadable
      case Dir(children) =>
        if exists n <- children :: See(o, n, children[n]).Unreadable? then Unreadable
        else Entry(Tree(map n | n in children && See(o, n, children[n]).Entry? :: See(o, n, children[n]).id))
  }

  predicate Scannable(o: Options, children: map<Name, Node>) {
    forall n <- children :: !See(o, n, children[n]).Unreadable?
  }

  /** The entries a full walk records for these children. */
  function Scan(o: Options, children: map<Name, Node>): (entries: Entries) {
    map n | n in children && See(o, n, children[n]).Entry? :: See(o, n, children[n]).id
  }

  lemma {:induction false} SeeDirectory(o: Options, name: Name, children: map<Name, Node>)
    requires !Skips(o, name, Dir(children))
    ensures See(o, name, Dir(children)) == if Scannable(o, children) then Entry(Tree(Scan(o, children))) else Unreadable
  {
  }

  function At(disk: Node, path: Path): (node: Option<Node>)
    decreases |path|
  {
    if path == [] then Some(disk)
    else if disk.Dir? && path[0] in disk.children then At(disk.children[path[0]], path[1..])
    else None
  }

  /** What the system reports at a path: a node, nothing, or something other than a directory in the way. */
  datatype Stat = Found(node: Node) | Absent | Blocked

  function StatAt(disk: Node, path: Path): (stat: Stat)
    decreases |path|
  {
    if path == [] then Found(disk)
    else if !disk.Dir? then Blocked
    else if path[0] !in disk.children then Absent
    else StatAt(disk.children[path[0]], path[1..])
  }

  lemma {:induction false} StatIsAt(disk: Node, path: Path)
    ensures StatAt(disk, path).Found? <==> At(disk, path).Some?
    ensures StatAt(disk, path).Found? ==> At(disk, path) == Some(StatAt(disk, path).node)
    decreases |path|
  {
    if path != [] && disk.Dir? && path[0] in disk.children {
      StatIsAt(disk.children[path[0]], path[1..]);
    }
  }

  lemma {:induction false} StatInDirectory(disk: Node, path: Path, name: Name)
    requires At(disk, path).Some? && At(disk, path).value.Dir?
    ensures !StatAt(disk, path + [name]).Blocked?
    decreases |path|
  {
    var longer := path + [name];
    if path == [] {
      assert longer[0] == name && longer[1..] == [];
    } else {
      assert longer[0] == path[0] && longer[1..] == path[1..] + [name];
      StatInDirectory(disk.children[path[0]], path[1..], name);
    }
  }

  /** A directory that a scan from the root descends into. */
  predicate Visited(o: Options, disk: Node, path: Path)
    decreases |path|
  {
    && disk.Dir?
    && (path == [] || (path[0] in disk.children && !Skips(o, path[0], disk.children[path[0]])
                       && Visited(o, disk.children[path[0]], path[1..])))
  }

  function Child(node: Node, name: Name): (child: Option<Node>) {
    if node.Dir? && name in node.children then Some(node.children[name]) else None
  }

  lemma {:induction false} AtChild(disk: Node, path: Path, name: Name)
    requires At(disk, path).Some?
    ensures At(disk, path + [name]) == Child(At(disk, path).value, name)
    decreases |path|
  {
    var longer := path + [name];
    if path == [] {
      assert longer[0] == name && longer[1..] == [];
    } else {
      assert longer[0] == path[0] && longer[1..] == path[1..] + [name];
      AtChild(disk.children[path[0]], path[1..], name);
    }
  }

  lemma {:induction false} VisitedIsDirectory(o: Options, disk: Node, path: Path)
    requires Visited(o, disk, path)
    ensures At(disk, path).Some? && At(disk, path).value.Dir?
    decreases |path|
  {
    if path != [] {
      VisitedIsDirectory(o, disk.children[path[0]], path[1..]);
    }
  }

  /** The parent of a visited directory is visited, and its entry there is not skipped. */
  lemma {:induction false} VisitedParent(o: Options, disk: Node, path: Path, name: Name)
    requires Visited(o, disk, path + [name])
    ensures Visited(o, disk, path) && At(disk, path).Some? && At(disk, path).value.Dir?
    ensures var children := At(disk, path).value.children;
      && name in children && children[name].Dir? && !Skips(o, name, children[name])
      && At(disk, path + [name]) == Some(children[name])
    decreases |path|
  {
    var longer := path + [name];
    if path == [] {
      assert longer[0] == name && longer[1..] == [];
    } else {
      assert longer[0] == path[0] && longer[1..] == path[1..] + [name];
      VisitedParent(o, disk.children[path[0]], path[1..], name);
    }
  }

  /** The entries recorded for some of the names. */
  function Part(o: Options, children: map<Name, Node>, names: set<Name>): (entries: Entries) {
    map n | n in names && n in children && See(o, n, children[n]).Entry? :: See(o, n, children[n]).id
  }

  function Note(entries: Entries, name: Name, sight: Sight): (noted: Entries) {
    if sight.Entry? then entries[name := sight.id] else entries
  }

  lemma {:induction false} PartAdds(o: Options, children: map<Name, Node>, names: set<Name>, name: Name)
    requires name in children && name !in names
    ensures Part(o, children, names + {name}) == Note(Part(o, children, names), name, See(o, name, children[name]))
  {
    hide See;
  }

  lemma {:induction false} PartOfAll(o: Options, children: map<Name, Node>)
    ensures Part(o, children, children.Keys) == Scan(o, children)
  {
    hide See;
  }
}
