/** What a scan records and what materialising leaves, said path by path of the disk alone. */
module DiskLaws {
  import opened Wrappers
  import opened Workspace
  import opened MaterializedTrees
  import opened Comparison

  /** ".era", spelled out. */
  const METADATA: Name := [46, 101, 114, 97]

  /** No name on the way is the metadata directory's, and no directory on the way has an excluded name. */
  ghost predicate Open(o: Options, node: Node, p: Path)
    decreases |p|
  {
    p == [] ||
    (&& node.Dir? && p[0] in node.children && p[0] != METADATA
     && (node.children[p[0]].Dir? ==> p[0] !in o.excluded)
     && Open(o, node.children[p[0]], p[1..]))
  }

  /** Something a scan cannot record. */
  ghost predicate Refused(o: Options, node: Option<Node>) {
    node.Some? && (node.value.Special? || (node.value.Symlink? && o.symlinks.RejectSymlinks?))
  }

  ghost predicate RefusedAt(o: Options, node: Node, p: Path) {
    p != [] && Open(o, node, p) && Refused(o, At(node, p))
  }

  lemma {:induction false} RefusedDeeper(o: Options, children: map<Name, Node>, n: Name, p: Path)
    requires n in children && n != METADATA && (children[n].Dir? ==> n !in o.excluded)
    ensures Open(o, Dir(children), [n] + p) == Open(o, children[n], p)
    ensures At(Dir(children), [n] + p) == At(children[n], p)
  {
    assert ([n] + p)[0] == n && ([n] + p)[1..] == p;
  }

  /** A scan fails exactly where it would come upon a special file, or upon a symlink that is rejected. */
  lemma {:induction false} ScanFailsWhere(o: Options, children: map<Name, Node>)
    ensures Scannable(o, children) <==> forall p: Path :: !RefusedAt(o, Dir(children), p)
    decreases Dir(children), 0
  {
    hide At, Open, See, Refused;
    forall n <- children
      ensures See(o, n, children[n]).Unreadable? ==> exists p: Path :: RefusedAt(o, Dir(children), p)
      ensures !See(o, n, children[n]).Unreadable? ==> forall p: Path :: !RefusedAt(o, Dir(children), [n] + p)
    {
      EntryFailsWhere(o, children, n);
    }
    if Scannable(o, children) {
      forall p: Path ensures !RefusedAt(o, Dir(children), p) {
        if p != [] && Open(o, Dir(children), p) {
          OpenHead(o, children, p);
          assert p == [p[0]] + p[1..];
        }
      }
    }
  }

  lemma {:induction false} OpenHead(o: Options, children: map<Name, Node>, p: Path)
    requires p != [] && Open(o, Dir(children), p)
    ensures p[0] in children && p[0] != METADATA && (children[p[0]].Dir? ==> p[0] !in o.excluded)
  {
  }

  lemma {:induction false} EntryFailsWhere(o: Options, children: map<Name, Node>, n: Name)
    requires n in children
    ensures See(o, n, children[n]).Unreadable? ==> exists p: Path :: RefusedAt(o, Dir(children), p)
    ensures !See(o, n, children[n]).Unreadable? ==> forall p: Path :: !RefusedAt(o, Dir(children), [n] + p)
    decreases children[n], 1
  {
    hide At, Open, Scannable;
    var node := children[n];
    if n == METADATA || (node.Dir? && n in o.excluded) {
      forall p: Path ensures !Open(o, Dir(children), [n] + p) {
        NotOpen(o, children, n, p);
      }
    } else {
      forall p: Path
        ensures Open(o, Dir(children), [n] + p) == Open(o, node, p) && At(Dir(children), [n] + p) == At(node, p)
      {
        RefusedDeeper(o, children, n, p);
      }
      if node.Dir? {
        SeeDirectory(o, n, node.children);
        ScanFailsWhere(o, node.children);
        Shifted(o, children, n);
      } else {
        Leaf(o, children, n);
      }
    }
  }

  lemma {:induction false} NotOpen(o: Options, children: map<Name, Node>, n: Name, p: Path)
    requires n in children && (n == METADATA || (children[n].Dir? && n in o.excluded))
    ensures !Open(o, Dir(children), [n] + p)
  {
  }

  lemma {:induction false} Shifted(o: Options, children: map<Name, Node>, n: Name)
    requires n in children && children[n].Dir?
    requires forall p: Path ::
      Open(o, Dir(children), [n] + p) == Open(o, children[n], p) && At(Dir(children), [n] + p) == At(children[n], p)
    ensures (exists p: Path :: RefusedAt(o, children[n], p)) ==> exists p: Path :: RefusedAt(o, Dir(children), p)
    ensures (forall p: Path :: !RefusedAt(o, children[n], p)) ==>
      forall p: Path :: !RefusedAt(o, Dir(children), [n] + p)
  {
    hide Open;
    if exists p: Path :: RefusedAt(o, children[n], p) {
      var p: Path :| RefusedAt(o, children[n], p);
      assert RefusedAt(o, Dir(children), [n] + p);
    }
    forall p: Path | !RefusedAt(o, children[n], p) ensures !RefusedAt(o, Dir(children), [n] + p) {
    }
  }

  lemma {:induction false} Leaf(o: Options, children: map<Name, Node>, n: Name)
    requires n in children && !children[n].Dir? && n != METADATA
    ensures See(o, n, children[n]).Unreadable? <==> Refused(o, Some(children[n]))
    ensures Refused(o, Some(children[n])) ==> RefusedAt(o, Dir(children), [n])
    ensures !Refused(o, Some(children[n])) ==> forall p: Path :: !RefusedAt(o, Dir(children), [n] + p)
  {
    assert [n][1..] == [];
    assert Open(o, children[n], []) && At(children[n], []) == Some(children[n]);
    forall p: Path | !Refused(o, Some(children[n])) ensures !RefusedAt(o, Dir(children), [n] + p) {
      RefusedDeeper(o, children, n, p);
      assert p != [] ==> At(children[n], p).None?;
    }
  }

  /** What a tree records at a path. */
  function IdAt(entries: Entries, p: Path): (id: Option<Id>)
    decreases |p|
  {
    if p == [] then Some(Tree(entries))
    else if p[0] !in entries then None
    else if |p| == 1 then Some(entries[p[0]])
    else if entries[p[0]].Tree? then IdAt(entries[p[0]].entries, p[1..])
    else None
  }

  /** A scan records exactly the files and directories that are open to it, the files with their content. */
  lemma {:induction false} ScanRecords(o: Options, children: map<Name, Node>, p: Path)
    requires Scannable(o, children) && p != []
    ensures var id, node := IdAt(Scan(o, children), p), At(Dir(children), p);
      if Open(o, Dir(children), p) && node.Some? && node.value.File? then id == Some(Blob(node.value.bytes))
      else if Open(o, Dir(children), p) && node.Some? && node.value.Dir? then id.Some? && id.value.Tree?
      else id.None?
    decreases |p|
  {
    hide Scannable;
    var n := p[0];
    EntryRecords(o, children, n);
    if |p| == 1 {
      assert p[1..] == [];
      if n in children {
        assert Open(o, children[n], []) && At(children[n], []) == Some(children[n]);
      }
    } else if n in children && children[n].Dir? && n != METADATA && n !in o.excluded {
      ScanRecords(o, children[n].children, p[1..]);
      assert Open(o, Dir(children), p) == Open(o, children[n], p[1..]);
    } else if n in children {
      assert !Open(o, Dir(children), p) || At(Dir(children), p).None?;
      assert n in Scan(o, children) ==> !Scan(o, children)[n].Tree?;
    }
  }

  lemma {:induction false} EntryRecords(o: Options, children: map<Name, Node>, n: Name)
    requires Scannable(o, children)
    ensures n in children && children[n].File? && n != METADATA ==>
      n in Scan(o, children) && Scan(o, children)[n] == Blob(children[n].bytes)
    ensures n in children && children[n].Dir? && n != METADATA && n !in o.excluded ==>
      && n in Scan(o, children) && Scan(o, children)[n] == Tree(Scan(o, children[n].children))
      && Scannable(o, children[n].children)
    ensures n in Scan(o, children) ==>
      && n in children && n != METADATA
      && (children[n].File? || (children[n].Dir? && n !in o.excluded))
  {
    if n in children {
      assert !See(o, n, children[n]).Unreadable?;
      if children[n].Dir? && n != METADATA && n !in o.excluded {
        SeeDirectory(o, n, children[n].children);
      }
    }
  }

  /** The target's directory at a path. */
  function TreeAt(target: Entries, p: Path): (entries: Option<Entries>)
    decreases |p|
  {
    if p == [] then Some(target)
    else if p[0] in target && target[p[0]].Tree? then TreeAt(target[p[0]].entries, p[1..])
    else None
  }

  /** What materialising leaves alone: the metadata, excluded directories, and symlinks where they are skipped. */
  ghost predicate LeftAlone(o: Options, n: Name, node: Node) {
    n == METADATA || (node.Dir? && n in o.excluded) || (node.Symlink? && o.symlinks.SkipSymlinks?)
  }

  /** What stands under a name of a target's directory. */
  ghost predicate InPlace(id: Id, node: Option<Node>) {
    node.Some? && match id
      case Blob(bytes) => node.value.File? && node.value.bytes == bytes
      case Tree(_) => node.value.Dir?
  }

  /** At every directory of the target: its entries are in place, and of the rest exactly what is left alone stays. */
  ghost predicate LaidAt(o: Options, target: Entries, before: Node, after: Node, p: Path) {
    TreeAt(target, p).Some? ==>
      && At(after, p).Some? && At(after, p).value.Dir?
      && forall n: Name ::
        var was := if At(before, p).Some? then Child(At(before, p).value, n) else None;
        var now := Child(At(after, p).value, n);
        if n in TreeAt(target, p).value then InPlace(TreeAt(target, p).value[n], now)
        else now == if was.Some? && LeftAlone(o, n, was.value) then was else None
  }

  lemma {:induction false} LaidEverywhere(o: Options, target: Entries, before: Node, after: Node, p: Path)
    requires after.Dir? && Matches(o, target, Start(Some(before)), after.children)
    ensures LaidAt(o, target, before, after, p)
    decreases |p|
  {
    if p == [] {
      LaidHere(o, target, before, after);
    } else if p[0] in target && target[p[0]].Tree? {
      var n, entries := p[0], target[p[0]].entries;
      assert EntryMatches(o, target[n], Start(ChildAt(Start(Some(before)), n)), after.children[n]);
      var was := ChildAt(Start(Some(before)), n);
      if was.Some? {
        assert Matches(o, entries, Start(Some(was.value)), after.children[n].children);
        LaidEverywhere(o, entries, was.value, after.children[n], p[1..]);
      } else {
        LaidEverywhere(o, entries, File([], 0), after.children[n], p[1..]);
        NothingInFile(p[1..]);
      }
    }
  }

  lemma {:induction false} NothingInFile(p: Path)
    ensures At(File([], 0), p).Some? ==> p == [] && forall n: Name :: Child(At(File([], 0), p).value, n).None?
  {
  }

  lemma {:induction false} LaidHere(o: Options, target: Entries, before: Node, after: Node)
    requires after.Dir? && Matches(o, target, Start(Some(before)), after.children)
    ensures LaidAt(o, target, before, after, [])
  {
    forall n: Name
      ensures var was, now := Child(before, n), Child(after, n);
        if n in target then InPlace(target[n], now)
        else now == if was.Some? && LeftAlone(o, n, was.value) then was else None
    {
      if n in target {
        assert EntryMatches(o, target[n], Start(ChildAt(Start(Some(before)), n)), after.children[n]);
      } else {
        assert Child(before, n) == ChildAt(Start(Some(before)), n);
      }
    }
    assert At(before, []) == Some(before) && At(after, []) == Some(after);
  }

  /** What was under a name of the directory at `p`. */
  function WasAt(before: Node, p: Path, n: Name): (node: Option<Node>) {
    if At(before, p).Some? then Child(At(before, p).value, n) else None
  }

  /**
   * At the directory `p` of the target: its tree can be fetched, no symlink that is to go is a rejected one, and each
   * blob can be fetched unless the file has that content already.
   */
  ghost predicate CanLayAt(o: Options, store: set<Id>, target: Entries, before: Node, p: Path) {
    TreeAt(target, p).Some? ==>
      var entries := TreeAt(target, p).value;
      && Tree(entries) in store
      && (forall n: Name :: WasAt(before, p, n).Some? ==> MayGo(o, entries, n, WasAt(before, p, n).value))
      && (forall n: Name :: n in entries && entries[n].Blob? ==> Obtainable(store, entries[n], WasAt(before, p, n)))
  }

  ghost predicate MayGo(o: Options, entries: Entries, n: Name, node: Node) {
    node.Symlink? && o.symlinks.RejectSymlinks? && n !in entries ==> n == METADATA
  }

  ghost predicate Obtainable(store: set<Id>, id: Id, node: Option<Node>) {
    id in store || (id.Blob? && node.Some? && node.value.File? && node.value.bytes == id.bytes)
  }

  /** What stood in for a child: itself, or an empty file where there was none. */
  function Stood(before: Node, n: Name): (node: Node) {
    if Child(before, n).Some? then Child(before, n).value else File([], 0)
  }

  lemma {:induction false} WasDeeper(before: Node, n: Name, p: Path, x: Name)
    ensures WasAt(before, [n] + p, x) == WasAt(Stood(before, n), p, x)
  {
    assert ([n] + p)[0] == n && ([n] + p)[1..] == p;
    if Child(before, n).None? {
      NothingInFile(p);
    }
  }

  lemma {:induction false} CanLayDeeper(o: Options, store: set<Id>, target: Entries, before: Node, n: Name, p: Path)
    requires n in target && target[n].Tree?
    ensures CanLayAt(o, store, target, before, [n] + p)
         == CanLayAt(o, store, target[n].entries, Stood(before, n), p)
  {
    hide WasAt, Stood, MayGo, Obtainable;
    assert ([n] + p)[0] == n && ([n] + p)[1..] == p;
    forall x: Name ensures WasAt(before, [n] + p, x) == WasAt(Stood(before, n), p, x) {
      WasDeeper(before, n, p, x);
    }
  }

  /** At the top of the tree: whether pruning and the entries that are blobs go well. */
  lemma {:induction false} CanLayHere(o: Options, store: set<Id>, target: Entries, before: Node)
    ensures CanLayAt(o, store, target, before, []) <==>
      && Tree(target) in store && !PruneFails(o, target.Keys, Start(Some(before)))
      && forall n <- target :: target[n].Blob? ==>
           LayEntry(o, store, target[n], ChildAt(Start(Some(before)), n)).done
  {
    hide MayGo, PruneFails, Obtainable;
    var children := Start(Some(before));
    assert At(before, []) == Some(before);
    forall n: Name ensures WasAt(before, [], n) == ChildAt(children, n) {
    }
    PruneFailsWhere(o, target, children);
    forall n <- target | target[n].Blob?
      ensures LayEntry(o, store, target[n], ChildAt(children, n)).done
         <==> Obtainable(store, target[n], ChildAt(children, n))
    {
      BlobLaid(o, store, target[n], ChildAt(children, n));
    }
  }

  lemma {:induction false} BlobLaid(o: Options, store: set<Id>, id: Id, node: Option<Node>)
    requires id.Blob?
    ensures LayEntry(o, store, id, node).done <==> Obtainable(store, id, node)
  {
  }

  lemma {:induction false} PruneFailsWhere(o: Options, target: Entries, children: map<Name, Node>)
    ensures !PruneFails(o, target.Keys, children)
       <==> forall n: Name :: ChildAt(children, n).Some? ==> MayGo(o, target, n, ChildAt(children, n).value)
  {
    if PruneFails(o, target.Keys, children) {
      var n :| n in children && n !in target.Keys && children[n].Symlink? && !Preserves(o, n, children[n]);
      assert ChildAt(children, n).Some? && !MayGo(o, target, n, ChildAt(children, n).value);
    }
  }

  lemma {:induction false} NothingToLay(o: Options, store: set<Id>, target: Entries, before: Node, p: Path)
    requires TreeAt(target, p).None?
    ensures CanLayAt(o, store, target, before, p)
  {
  }

  /** Materialising succeeds exactly when it can lay every directory of the target. */
  lemma {:induction false} LaysExactly(o: Options, store: set<Id>, target: Entries, before: Node)
    ensures LayEntry(o, store, Tree(target), Some(before)).done
       <==> forall p: Path :: CanLayAt(o, store, target, before, p)
    decreases Tree(target)
  {
    hide CanLayAt, LayNames, PruneFails, LayDirectory;
    DirectoryLaid(o, store, target, Start(Some(before)));
    CanLayHere(o, store, target, before);
    forall n <- target | target[n].Tree?
      ensures LayEntry(o, store, target[n], ChildAt(Start(Some(before)), n)).done
         <==> forall p: Path :: CanLayAt(o, store, target, before, [n] + p)
    {
      LaysExactly(o, store, target[n].entries, Stood(before, n));
      forall p: Path {
        CanLayDeeper(o, store, target, before, n, p);
      }
    }
    if forall n <- target :: LayEntry(o, store, target[n], ChildAt(Start(Some(before)), n)).done {
      forall p: Path | p != [] ensures CanLayAt(o, store, target, before, p) {
        assert p == [p[0]] + p[1..];
        if TreeAt(target, p).None? {
          NothingToLay(o, store, target, before, p);
        }
      }
    }
  }

  /** A comparison needs exactly the saved trees at the paths where the disk has a directory too. */
  lemma {:induction false} FetchesExactly(store: set<Id>, saved: Entries, current: Entries)
    ensures Fetchable(store, saved, current) <==> forall p: Path :: NeededAt(store, saved, current, p)
    decreases Tree(saved)
  {
    hide NeededAt;
    NeededHere(store, saved, current);
    forall n <- saved
      ensures EntryFetchable(store, saved, current, n)
         <==> forall p: Path :: NeededAt(store, saved, current, [n] + p)
    {
      if saved[n].Tree? && n in current && current[n].Tree? {
        FetchesExactly(store, saved[n].entries, current[n].entries);
      }
      forall p: Path {
        NeededBelow(store, saved, current, n, p);
      }
    }
    if forall n <- saved :: EntryFetchable(store, saved, current, n) {
      forall p: Path | p != [] ensures NeededAt(store, saved, current, p) {
        assert p == [p[0]] + p[1..];
        if p[0] !in saved {
          NeededIfSaved(store, saved, current, p);
        }
      }
    }
  }

  ghost predicate NeededAt(store: set<Id>, saved: Entries, current: Entries, p: Path) {
    TreeAt(saved, p).Some? && TreeAt(current, p).Some? ==> Tree(TreeAt(saved, p).value) in store
  }

  lemma {:induction false} NeededHere(store: set<Id>, saved: Entries, current: Entries)
    ensures NeededAt(store, saved, current, []) <==> Tree(saved) in store
  {
  }

  lemma {:induction false} NeededIfSaved(store: set<Id>, saved: Entries, current: Entries, p: Path)
    requires p != [] && p[0] !in saved
    ensures NeededAt(store, saved, current, p)
  {
  }

  lemma {:induction false} NeededBelow(store: set<Id>, saved: Entries, current: Entries, n: Name, p: Path)
    requires n in saved
    ensures NeededAt(store, saved, current, [n] + p) <==>
      (saved[n].Tree? && n in current && current[n].Tree? ==>
         NeededAt(store, saved[n].entries, current[n].entries, p))
  {
    assert ([n] + p)[0] == n && ([n] + p)[1..] == p;
  }
}
