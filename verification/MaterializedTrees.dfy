/** A stored tree laid over a directory: what is there afterwards, when it succeeds, and what it vouches for. */
module MaterializedTrees {
  import opened Wrappers
  import opened Workspace
  import opened Ascents
  import opened CacheRecords
  import opened CacheTruth
  import opened CaptureEffects
  import opened DirectoryWalks

  /** An entry that pruning leaves alone. */
  predicate Preserves(o: Options, name: Name, node: Node) {
    Skips(o, name, node) || (node.Symlink? && o.symlinks.SkipSymlinks?)
  }

  function ChildAt(children: map<Name, Node>, n: Name): (node: Option<Node>) {
    if n in children then Some(children[n]) else None
  }

  /** A directory is kept as it is; whatever else is in the way makes room for an empty one. */
  function Start(node: Option<Node>): (children: map<Name, Node>) {
    if node.Some? && node.value.Dir? then node.value.children else map[]
  }

  /** Names outside the target stay exactly when pruning leaves them alone; nothing else is left. */
  ghost predicate Pruned(o: Options, target: Entries, before: map<Name, Node>, after: map<Name, Node>) {
    forall n: Name | n !in target ::
      && (n in after <==> n in before && Preserves(o, n, before[n]))
      && (n in after ==> after[n] == before[n])
  }

  /** `after` is the target laid over `before`. */
  ghost predicate Matches(o: Options, target: Entries, before: map<Name, Node>, after: map<Name, Node>)
    decreases Tree(target), 0
  {
    && Pruned(o, target, before, after)
    && forall n <- target :: n in after && EntryMatches(o, target[n], Start(ChildAt(before, n)), after[n])
  }

  ghost predicate EntryMatches(o: Options, id: Id, before: map<Name, Node>, node: Node)
    decreases id, 1
  {
    match id
    case Blob(bytes) => node.File? && node.bytes == bytes
    case Tree(entries) => node.Dir? && Matches(o, entries, before, node.children)
  }

  /** Every name in the tree is one a scan would record. */
  ghost predicate Includable(o: Options, target: Entries)
    decreases Tree(target), 0
  {
    forall n <- target :: EntryIncludable(o, n, target[n])
  }

  ghost predicate EntryIncludable(o: Options, n: Name, id: Id)
    decreases id, 1
  {
    n != METADATA_NAME && (id.Tree? ==> n !in o.excluded && Includable(o, id.entries))
  }

  /** A scan records only includable names. */
  lemma {:induction false} ScanIsIncludable(o: Options, children: map<Name, Node>)
    ensures Includable(o, Scan(o, children))
    decreases Dir(children)
  {
    forall n <- Scan(o, children) ensures EntryIncludable(o, n, Scan(o, children)[n]) {
      if children[n].Dir? {
        SeeDirectory(o, n, children[n].children);
        ScanIsIncludable(o, children[n].children);
      }
    }
  }

  /** After materialising, a scan succeeds, and returns the target exactly when the target's names are includable. */
  lemma {:induction false} ScanOfMaterialized(o: Options, target: Entries, before: map<Name, Node>,
                                              after: map<Name, Node>)
    requires Matches(o, target, before, after)
    ensures Scannable(o, after) && (Scan(o, after) == target <==> Includable(o, target))
    decreases Tree(target), 0
  {
    hide See;
    ScanIsIncludable(o, after);
    forall n <- after ensures !See(o, n, after[n]).Unreadable? {
      if n in target {
        SeeMaterialized(o, n, target[n], Start(ChildAt(before, n)), after[n]);
      } else {
        SeePreserved(o, n, after[n]);
      }
    }
    if Includable(o, target) {
      forall n: Name ensures n in Scan(o, after) <==> n in target {
        if n in target {
          SeeMaterialized(o, n, target[n], Start(ChildAt(before, n)), after[n]);
        } else if n in after {
          SeePreserved(o, n, after[n]);
        }
      }
      forall n <- target ensures Scan(o, after)[n] == target[n] {
        SeeMaterialized(o, n, target[n], Start(ChildAt(before, n)), after[n]);
      }
    }
  }

  lemma {:induction false} SeePreserved(o: Options, n: Name, node: Node)
    requires Preserves(o, n, node)
    ensures See(o, n, node).Skipped?
  {
  }

  lemma {:induction false} SeeMaterialized(o: Options, n: Name, id: Id, before: map<Name, Node>, node: Node)
    requires EntryMatches(o, id, before, node)
    ensures !See(o, n, node).Unreadable? && (EntryIncludable(o, n, id) ==> See(o, n, node) == Entry(id))
    decreases id, 1
  {
    hide Scannable, Scan;
    if id.Tree? && !Skips(o, n, node) {
      SeeDirectory(o, n, node.children);
      ScanOfMaterialized(o, id.entries, before, node.children);
    }
  }

  /** How laying a tree over a directory goes: to the end or not, and whether it vouched for a missing blob. */
  datatype Laying = Laying(done: bool, vouched: bool)

  /** Pruning meets a symlink that the options reject. */
  predicate PruneFails(o: Options, names: set<Name>, before: map<Name, Node>) {
    exists n <- before :: n !in names && before[n].Symlink? && !Preserves(o, n, before[n])
  }

  /** A file that already has the content is vouched for unseen; only what must be written is fetched. */
  ghost function LayEntry(o: Options, store: set<Id>, id: Id, node: Option<Node>): (laying: Laying)
    decreases id, 2
  {
    match id
    case Blob(bytes) =>
      if node.Some? && node.value.File? && node.value.bytes == bytes then Laying(true, id !in store)
      else Laying(id in store, false)
    case Tree(entries) => LayDirectory(o, store, entries, Start(node))
  }

  ghost function LayDirectory(o: Options, store: set<Id>, target: Entries, before: map<Name, Node>): (laying: Laying)
    decreases Tree(target), 1
  {
    NamesAreOrdered();
    if Tree(target) !in store || PruneFails(o, target.Keys, before) then Laying(false, false)
    else LayNames(o, store, target, before, Listing(NameLeq, target.Keys))
  }

  /** In the order of the names, up to the first that fails. */
  ghost function LayNames(o: Options, store: set<Id>, target: Entries, before: map<Name, Node>, names: seq<Name>)
    : (laying: Laying)
    requires Elements(names) <= target.Keys
    decreases Tree(target), 0, |names|
  {
    if names == [] then Laying(true, false)
    else
      var first := LayEntry(o, store, target[names[0]], ChildAt(before, names[0]));
      if !first.done then first
      else
        var rest := LayNames(o, store, target, before, names[1..]);
        Laying(rest.done, first.vouched || rest.vouched)
  }

  /** The order plays no part in whether all goes well, nor then in what is vouched for. */
  lemma {:induction false} NamesLaid(o: Options, store: set<Id>, target: Entries, before: map<Name, Node>,
                                     names: seq<Name>)
    requires Elements(names) <= target.Keys
    ensures var all := LayNames(o, store, target, before, names);
      && (all.done <==> forall n <- Elements(names) :: LayEntry(o, store, target[n], ChildAt(before, n)).done)
      && (all.vouched ==> exists n <- Elements(names) :: LayEntry(o, store, target[n], ChildAt(before, n)).vouched)
      && (all.done && !all.vouched ==>
          forall n <- Elements(names) :: !LayEntry(o, store, target[n], ChildAt(before, n)).vouched)
    decreases |names|
  {
    hide LayEntry;
    if names != [] {
      NamesLaid(o, store, target, before, names[1..]);
      assert Elements(names) == {names[0]} + Elements(names[1..]);
    }
  }

  /**
   * Laying succeeds exactly when every tree can be fetched, every blob too unless its file has the content already, and
   * pruning meets no rejected symlink.
   */
  lemma {:induction false} DirectoryLaid(o: Options, store: set<Id>, target: Entries, before: map<Name, Node>)
    ensures LayDirectory(o, store, target, before).done <==>
      && Tree(target) in store && !PruneFails(o, target.Keys, before)
      && forall n <- target :: LayEntry(o, store, target[n], ChildAt(before, n)).done
  {
    hide LayEntry, LayNames, NameLeq;
    NamesAreOrdered();
    NamesLaid(o, store, target, before, Listing(NameLeq, target.Keys));
  }

  /** A tree laid to the end is retrievable exactly when nothing missing was vouched for. */
  lemma {:induction false} LaidIsRetrievable(o: Options, store: set<Id>, id: Id, node: Option<Node>)
    requires LayEntry(o, store, id, node).done
    ensures LayEntry(o, store, id, node).vouched <==> !Retrievable(store, id)
    decreases id
  {
    hide LayNames, NameLeq;
    if id.Tree? {
      var target, before := id.entries, Start(node);
      NamesAreOrdered();
      DirectoryLaid(o, store, target, before);
      NamesLaid(o, store, target, before, Listing(NameLeq, target.Keys));
      forall n <- target
        ensures LayEntry(o, store, target[n], ChildAt(before, n)).vouched <==> !Retrievable(store, target[n])
      {
        LaidIsRetrievable(o, store, target[n], ChildAt(before, n));
      }
    }
  }

  /** A retrievable tree never vouches for a missing blob, and can always be laid where symlinks are not rejected. */
  lemma {:induction false} RetrievableIsLaid(o: Options, store: set<Id>, id: Id, node: Option<Node>)
    requires Retrievable(store, id)
    ensures !LayEntry(o, store, id, node).vouched
    ensures o.symlinks.SkipSymlinks? ==> LayEntry(o, store, id, node).done
    decreases id
  {
    hide LayNames, NameLeq;
    if id.Tree? {
      var target, before := id.entries, Start(node);
      NamesAreOrdered();
      DirectoryLaid(o, store, target, before);
      NamesLaid(o, store, target, before, Listing(NameLeq, target.Keys));
      forall n <- target
        ensures !LayEntry(o, store, target[n], ChildAt(before, n)).vouched
        ensures o.symlinks.SkipSymlinks? ==> LayEntry(o, store, target[n], ChildAt(before, n)).done
      {
        RetrievableIsLaid(o, store, target[n], ChildAt(before, n));
      }
    }
  }

  /** The records say of everything in the tree that it is stored and in place. */
  ghost predicate Holds(v: View, path: Path, id: Id, node: Node)
    decreases id
  {
    match id
    case Blob(_) => node.File? && Get(v.files, path) == Some(FileRecord(node.mark, id, true, None))
    case Tree(entries) =>
      && node.Dir? && Get(v.directories, path) == Some(DirectoryRecord(entries, true))
      && forall n <- entries :: n in node.children && Holds(v, path + [n], entries[n], node.children[n])
  }

  lemma {:induction false} HoldsSame(v: View, w: View, path: Path, id: Id, node: Node)
    requires Holds(v, path, id, node) && SameBelow(path, v, w)
    ensures Holds(w, path, id, node)
    decreases id
  {
    hide Get;
    assert path <= path;
    if id.Tree? {
      forall n <- id.entries ensures Holds(w, path + [n], id.entries[n], node.children[n]) {
        SameBelowChild(path, n, v, w);
        HoldsSame(v, w, path + [n], id.entries[n], node.children[n]);
      }
    }
  }

  /** Capturing what was laid puts nothing. */
  lemma {:induction false} NothingToPut(o: Options, v: View, path: Path, name: Name, id: Id, before: map<Name, Node>,
                                        node: Node)
    requires EntryMatches(o, id, before, node) && EntryIncludable(o, name, id) && Holds(v, path, id, node)
    ensures Puts(o, v, path, name, node) == {}
    decreases id, 1
  {
    hide PutsDirectory, Includable, Matches;
    if id.Tree? {
      NothingToPutBelow(o, v, path, id.entries, before, node.children);
    }
  }

  lemma {:induction false} NothingToPutBelow(o: Options, v: View, path: Path, target: Entries,
                                             before: map<Name, Node>, children: map<Name, Node>)
    requires Matches(o, target, before, children) && Includable(o, target)
    requires Holds(v, path, Tree(target), Dir(children))
    ensures PutsDirectory(o, v, path, children) == {}
    decreases Tree(target), 0
  {
    hide Puts, Scan, EntryMatches, EntryIncludable, Preserves;
    ScanOfMaterialized(o, target, before, children);
    forall n <- children ensures Puts(o, v, path + [n], n, children[n]) == {} {
      if n in target {
        NothingToPut(o, v, path + [n], n, target[n], Start(ChildAt(before, n)), children[n]);
      } else {
        SeePreserved(o, n, children[n]);
        PutsUnseen(o, v, path + [n], n, children[n]);
      }
    }
  }

  /** The records of what was laid are those of a full capture. */
  lemma {:induction false} HeldIsExpected(o: Options, v: View, path: Path, target: Entries, before: map<Name, Node>,
                                          children: map<Name, Node>, rest: Path)
    requires Matches(o, target, before, children) && Includable(o, target)
    requires Holds(v, path, Tree(target), Dir(children)) && Visited(o, Dir(children), rest)
    ensures Get(v.directories, path + rest) == Expected(o, Dir(children), rest)
    decreases |rest|
  {
    hide Scan, Refreshed, Matches, Includable, Holds, Visited, Expected, Get;
    if rest == [] {
      assert path + rest == path;
      HeldHere(o, v, path, target, before, children);
    } else {
      var n := rest[0];
      ExpectedChild(o, children, rest);
      assert children[n].Dir? by { VisitedHere(o, children[n], rest[1..]); }
      HeldInside(o, v, path, target, before, children, n);
      HeldIsExpected(o, v, path + [n], target[n].entries, Start(ChildAt(before, n)), children[n].children, rest[1..]);
      assert path + [n] + rest[1..] == path + rest;
    }
  }

  lemma {:induction false} VisitedHere(o: Options, node: Node, rest: Path)
    requires Visited(o, node, rest)
    ensures node.Dir?
  {
  }

  lemma {:induction false} HeldHere(o: Options, v: View, path: Path, target: Entries, before: map<Name, Node>,
                                    children: map<Name, Node>)
    requires Matches(o, target, before, children) && Includable(o, target)
    requires Holds(v, path, Tree(target), Dir(children))
    ensures Get(v.directories, path) == Expected(o, Dir(children), [])
  {
    hide Scan, Refreshed, Matches, Includable;
    ScanOfMaterialized(o, target, before, children);
    RefreshedHere(true, o, children, None);
  }

  /** A directory that a scan visits is the target's own, with all that holds of it. */
  lemma {:induction false} HeldInside(o: Options, v: View, path: Path, target: Entries, before: map<Name, Node>,
                                      children: map<Name, Node>, n: Name)
    requires Matches(o, target, before, children) && Includable(o, target)
    requires Holds(v, path, Tree(target), Dir(children))
    requires n in children && children[n].Dir? && !Skips(o, n, children[n])
    ensures n in target && target[n].Tree? && Includable(o, target[n].entries)
    ensures Matches(o, target[n].entries, Start(ChildAt(before, n)), children[n].children)
    ensures Holds(v, path + [n], target[n], children[n])
  {
    hide Get;
    assert n in target;
    assert EntryMatches(o, target[n], Start(ChildAt(before, n)), children[n]) && EntryIncludable(o, n, target[n]);
  }
}
