/** The directory records that a walk leaves, whether it stores what it sees or only hashes it. */
module DirectoryWalks {
  import opened Wrappers
  import opened Workspace
  import opened CacheRecords
  import opened CacheTruth

  /** The record that a walk of `node` leaves for the visited directory at `rest` below it. */
  ghost function Refreshed(stored: bool, o: Options, node: Node, rest: Path, previous: Option<DirectoryRecord>)
    : (record: DirectoryRecord)
    requires Visited(o, node, rest)
  {
    VisitedIsDirectory(o, node, rest);
    NextDirectory(previous, Scan(o, At(node, rest).value.children), stored)
  }

  /** What a full capture leaves there: nothing for what it does not visit. */
  ghost function Expected(o: Options, node: Node, rest: Path): (record: Option<DirectoryRecord>) {
    if Visited(o, node, rest) then Some(Refreshed(true, o, node, rest, None)) else None
  }

  lemma {:induction false} RefreshedIsExpected(o: Options, node: Node, rest: Path, previous: Option<DirectoryRecord>)
    requires Visited(o, node, rest)
    ensures Expected(o, node, rest) == Some(Refreshed(true, o, node, rest, previous))
  {
    hide Scan, At, Visited;
  }

  /** The directory records after a walk of `node` at `path`: its visited directories get theirs, all others stay. */
  ghost function AfterWalk(stored: bool, o: Options, v: View, path: Path, node: Node, p: Path)
    : (record: Option<DirectoryRecord>)
  {
    if path <= p && Visited(o, node, p[|path|..]) then
      Some(Refreshed(stored, o, node, p[|path|..], Get(v.directories, p)))
    else Get(v.directories, p)
  }

  ghost predicate Walked(stored: bool, o: Options, v: View, w: View, path: Path, node: Node) {
    forall p: Path :: Get(w.directories, p) == AfterWalk(stored, o, v, path, node, p)
  }

  /** As far as the walk of a directory's children has come. */
  ghost function AfterSome(stored: bool, o: Options, v: View, path: Path, children: map<Name, Node>,
                           names: set<Name>, p: Path)
    : (record: Option<DirectoryRecord>)
  {
    if path < p && p[|path|] in names && p[|path|] in children && !Skips(o, p[|path|], children[p[|path|]])
      && Visited(o, children[p[|path|]], p[|path| + 1..])
    then Some(Refreshed(stored, o, children[p[|path|]], p[|path| + 1..], Get(v.directories, p)))
    else Get(v.directories, p)
  }

  ghost predicate WalkedSome(stored: bool, o: Options, v: View, w: View, path: Path, children: map<Name, Node>,
                             names: set<Name>) {
    forall p: Path :: Get(w.directories, p) == AfterSome(stored, o, v, path, children, names, p)
  }

  lemma {:induction false} WalkedNone(stored: bool, o: Options, v: View, path: Path, children: map<Name, Node>)
    ensures WalkedSome(stored, o, v, v, path, children, {})
  {
    hide Refreshed, Visited;
  }

  lemma {:induction false} Next(path: Path, name: Name, p: Path)
    ensures path + [name] <= p <==> path < p && p[|path|] == name
  {
    if path + [name] <= p {
      assert p[|path|] == (path + [name])[|path|];
    }
  }

  /** What walking one entry does to the directory records. */
  ghost predicate WalkedEntry(stored: bool, o: Options, v: View, w: View, path: Path, name: Name, node: Node) {
    if Skips(o, name, node) then v.directories == w.directories else Walked(stored, o, v, w, path, node)
  }

  lemma {:induction false} WalkedOneMore(stored: bool, o: Options, u: View, v: View, w: View, path: Path,
                                         children: map<Name, Node>, names: set<Name>, name: Name)
    requires WalkedSome(stored, o, u, v, path, children, names) && name in children && name !in names
    requires WalkedEntry(stored, o, v, w, path + [name], name, children[name])
    ensures WalkedSome(stored, o, u, w, path, children, names + {name})
  {
    hide Refreshed, Visited;
    forall p: Path ensures Get(w.directories, p) == AfterSome(stored, o, u, path, children, names + {name}, p) {
      Next(path, name, p);
      assert Get(v.directories, p) == AfterSome(stored, o, u, path, children, names, p);
      if !Skips(o, name, children[name]) {
        assert Get(w.directories, p) == AfterWalk(stored, o, v, path + [name], children[name], p);
      }
    }
  }

  lemma {:induction false} RefreshedChild(stored: bool, o: Options, children: map<Name, Node>, rest: Path,
                                          previous: Option<DirectoryRecord>)
    requires rest != []
    ensures Visited(o, Dir(children), rest) <==>
      rest[0] in children && !Skips(o, rest[0], children[rest[0]]) && Visited(o, children[rest[0]], rest[1..])
    ensures Visited(o, Dir(children), rest) ==>
      Refreshed(stored, o, Dir(children), rest, previous)
        == Refreshed(stored, o, children[rest[0]], rest[1..], previous)
  {
    hide Scan;
  }

  lemma {:induction false} ExpectedChild(o: Options, children: map<Name, Node>, rest: Path)
    requires rest != []
    ensures Visited(o, Dir(children), rest) <==>
      rest[0] in children && !Skips(o, rest[0], children[rest[0]]) && Visited(o, children[rest[0]], rest[1..])
    ensures Visited(o, Dir(children), rest) ==>
      Expected(o, Dir(children), rest) == Expected(o, children[rest[0]], rest[1..])
  {
    hide Refreshed;
    RefreshedChild(true, o, children, rest, None);
  }

  /** Recording the directory itself completes the walk. */
  lemma {:induction false} WalkedAll(stored: bool, o: Options, u: View, v: View, path: Path,
                                     children: map<Name, Node>)
    requires WalkedSome(stored, o, u, v, path, children, children.Keys)
    ensures Walked(stored, o, u, WithDirectory(v, path, Scan(o, children), stored), path, Dir(children))
  {
    hide Refreshed, Visited, Scan, NextDirectory;
    var w := WithDirectory(v, path, Scan(o, children), stored);
    forall p: Path ensures Get(w.directories, p) == AfterWalk(stored, o, u, path, Dir(children), p) {
      assert Get(v.directories, p) == AfterSome(stored, o, u, path, children, children.Keys, p);
      if p == path {
        assert p[|path|..] == [];
        RefreshedHere(stored, o, children, Get(u.directories, p));
      } else if path <= p {
        var rest := p[|path|..];
        assert rest[0] == p[|path|] && rest[1..] == p[|path| + 1..];
        RefreshedChild(stored, o, children, rest, Get(u.directories, p));
      }
    }
  }

  lemma {:induction false} RefreshedHere(stored: bool, o: Options, children: map<Name, Node>,
                                         previous: Option<DirectoryRecord>)
    ensures Visited(o, Dir(children), [])
    ensures Refreshed(stored, o, Dir(children), [], previous) == NextDirectory(previous, Scan(o, children), stored)
  {
    hide Scan;
  }

  lemma {:induction false} WalkedFile(stored: bool, o: Options, v: View, w: View, path: Path, name: Name, node: Node)
    requires v.directories == w.directories && !node.Dir?
    ensures WalkedEntry(stored, o, v, w, path, name, node)
  {
    hide Refreshed;
  }

  /** Only records of these children, at any depth, may differ. */
  ghost predicate SameBeside(path: Path, names: set<Name>, v: View, w: View) {
    forall p: Path :: !(path < p && p[|path|] in names) ==>
      Get(v.files, p) == Get(w.files, p) && Get(v.directories, p) == Get(w.directories, p)
  }

  lemma {:induction false} BesideOneMore(path: Path, names: set<Name>, name: Name, u: View, v: View, w: View)
    requires SameBeside(path, names, u, v) && SameOutside(path + [name], v, w)
    ensures SameBeside(path, names + {name}, u, w)
  {
    hide Get;
    forall p: Path | !(path < p && p[|path|] in names + {name})
      ensures Get(u.files, p) == Get(w.files, p) && Get(u.directories, p) == Get(w.directories, p)
    {
      Next(path, name, p);
    }
  }

  lemma {:induction false} BesideIsBelow(path: Path, names: set<Name>, name: Name, v: View, w: View)
    requires SameBeside(path, names, v, w) && name !in names
    ensures SameBelow(path + [name], v, w)
  {
    hide Get;
    forall p: Path | path + [name] <= p
      ensures Get(v.files, p) == Get(w.files, p) && Get(v.directories, p) == Get(w.directories, p)
    {
      Next(path, name, p);
    }
  }

  lemma {:induction false} BesideIsOutside(path: Path, names: set<Name>, v: View, w: View)
    requires SameBeside(path, names, v, w)
    ensures SameOutside(path, v, w)
  {
    hide Get;
  }

  lemma {:induction false} BesideReflexive(path: Path, v: View)
    ensures SameBeside(path, {}, v, v)
  {
  }
}
