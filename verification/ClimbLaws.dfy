/** What the ancestor loop leaves in the cache and puts into the store, told record by record. */
module ClimbLaws {
  import opened Wrappers
  import opened Workspace
  import opened CacheRecords
  import opened HintedAccuracy
  import opened HintedRecords

  /** The entries rebuilt at the first `k` segments: the directory's own, with the rebuilt tree of the next one down. */
  function NewEntries(d: Directories, path: Path, k: nat): (entries: Entries)
    requires k <= |path|
    decreases |path| - k
  {
    if path[..k] !in d then map[]
    else if k == |path| then d[path[..k]].entries
    else d[path[..k]].entries[path[k] := Tree(NewEntries(d, path, k + 1))]
  }

  /** The records from the `k`-th on the way down to the path are there. */
  ghost predicate KnownFrom(d: Directories, path: Path, k: nat) {
    forall j :: k <= j <= |path| ==> path[..j] in d
  }

  /** The tree is one that the loop builds at `k`, and there it waits to be stored. */
  ghost predicate BuiltAt(d: Directories, path: Path, k: nat, tree: Id) {
    && k <= |path| && KnownFrom(d, path, k) && tree == Tree(NewEntries(d, path, k))
    && (k == |path| ==> path in d && !d[path].stored)
  }

  ghost predicate Built(d: Directories, path: Path, tree: Id) {
    exists k: nat :: BuiltAt(d, path, k, tree)
  }

  /** The records once the parent's is rebuilt. */
  function Lifted(d: Directories, path: Path): (e: Directories)
    requires path != [] && path in d && path[..|path| - 1] in d
  {
    Carried(d[path := DirectoryRecord(d[path].entries, true)], path[..|path| - 1], path[|path| - 1], d[path].entries)
  }

  /** Going on from the parent builds the same trees. */
  lemma {:induction false} SameAbove(d: Directories, path: Path, k: nat)
    requires path != [] && path in d && path[..|path| - 1] in d && k < |path|
    ensures NewEntries(Lifted(d, path), path[..|path| - 1], k) == NewEntries(d, path, k)
    ensures KnownFrom(Lifted(d, path), path[..|path| - 1], k) <==> KnownFrom(d, path, k)
    decreases |path| - k
  {
    var parent, e := path[..|path| - 1], Lifted(d, path);
    assert forall j :: 0 <= j < |path| ==> parent[..j] == path[..j];
    assert path[..|path|] == path && e.Keys == d.Keys;
    if k < |parent| {
      SameAbove(d, path, k + 1);
      assert path[..k] != path && path[..k] != parent;
    }
    assert forall j :: k <= j <= |parent| ==> (parent[..j] in e <==> path[..j] in d);
  }

  lemma {:induction false} BuiltAbove(d: Directories, path: Path, tree: Id)
    requires path != [] && path in d && path[..|path| - 1] in d
    ensures Built(d, path, tree) <==>
      (!d[path].stored && tree == Tree(d[path].entries)) || Built(Lifted(d, path), path[..|path| - 1], tree)
  {
    hide NewEntries, KnownFrom;
    var parent, e := path[..|path| - 1], Lifted(d, path);
    assert path[..|path|] == path;
    AtTheEnd(d, path);
    forall k: nat | k < |path| ensures BuiltAt(d, path, k, tree) <==> BuiltAt(e, parent, k, tree) {
      SameAbove(d, path, k);
    }
    if k: nat :| BuiltAt(d, path, k, tree) {
      assert k < |path| ==> BuiltAt(e, parent, k, tree);
    }
    if k: nat :| BuiltAt(e, parent, k, tree) {
      assert BuiltAt(d, path, k, tree);
    }
    if !d[path].stored && tree == Tree(d[path].entries) {
      assert BuiltAt(d, path, |path|, tree);
    }
  }

  lemma {:induction false} AtTheEnd(d: Directories, path: Path)
    requires path in d
    ensures NewEntries(d, path, |path|) == d[path].entries && KnownFrom(d, path, |path|)
  {
    assert path[..|path|] == path;
  }

  /** The loop puts exactly the trees that wait, from the path up to the first record that is missing. */
  lemma {:induction false} PutsBuilt(d: Directories, path: Path, tree: Id)
    ensures tree in ClimbTrees(d, path) <==> Built(d, path, tree)
    decreases |path|
  {
    hide NewEntries;
    assert path[..|path|] == path;
    if path !in d {
      assert forall k: nat :: k <= |path| ==> !KnownFrom(d, path, k);
    } else {
      AtTheEnd(d, path);
      if path == [] {
        assert forall k: nat :: BuiltAt(d, path, k, tree) ==> k == 0;
        assert BuiltAt(d, path, 0, tree) <==> tree in PutUnlessStored({}, d[path]);
      } else if path[..|path| - 1] !in d {
        assert forall k: nat :: k < |path| ==> !KnownFrom(d, path, k);
        assert BuiltAt(d, path, |path|, tree) <==> tree in PutUnlessStored({}, d[path]);
      } else {
        PutsBuilt(Lifted(d, path), path[..|path| - 1], tree);
        BuiltAbove(d, path, tree);
      }
    }
  }

  /**
   * The loop gets to the root exactly when no record on the way is missing. Then every record on the way is the rebuilt
   * one and stored, all others are as they were, and the store has gained exactly the trees that waited.
   */
  lemma {:induction false} ClimbsExactly(d: Directories, store: set<Id>, path: Path)
    ensures Climb(d, store, path).Some? <==> KnownFrom(d, path, 0)
    ensures Climb(d, store, path).Some? ==>
      var (e, more) := Climb(d, store, path).value;
      && (forall k :: 0 <= k <= |path| ==> Get(e, path[..k]) == Some(DirectoryRecord(NewEntries(d, path, k), true)))
      && (forall p: Path :: !(p <= path) ==> Get(e, p) == Get(d, p))
      && more == store + ClimbTrees(d, path)
    decreases |path|
  {
    hide Get, NewEntries;
    assert path[..|path|] == path;
    if path in d && path != [] && path[..|path| - 1] in d {
      var parent := path[..|path| - 1];
      ClimbsExactly(Lifted(d, path), PutUnlessStored(store, d[path]), parent);
      SameAbove(d, path, 0);
      if Climb(d, store, path).Some? {
        LiftedRecords(d, path, Climb(d, store, path).value.0);
      }
    } else if path in d {
      AtTheEnd(d, path);
      if path == [] {
        AtTheRoot(d, store);
      }
    }
  }

  lemma {:induction false} AtTheRoot(d: Directories, store: set<Id>)
    requires [] in d
    ensures Climb(d, store, []).Some?
    ensures var e := Climb(d, store, []).value.0;
      && Get(e, []) == Some(DirectoryRecord(NewEntries(d, [], 0), true))
      && forall p: Path :: !(p <= []) ==> Get(e, p) == Get(d, p)
  {
    hide NewEntries;
    AtTheEnd(d, []);
  }

  lemma {:induction false} LiftedRecords(d: Directories, path: Path, e: Directories)
    requires path != [] && path in d && path[..|path| - 1] in d
    requires var parent, lifted := path[..|path| - 1], Lifted(d, path);
      && (forall k :: 0 <= k <= |parent| ==>
            Get(e, parent[..k]) == Some(DirectoryRecord(NewEntries(lifted, parent, k), true)))
      && (forall p: Path :: !(p <= parent) ==> Get(e, p) == Get(lifted, p))
    ensures forall k :: 0 <= k <= |path| ==> Get(e, path[..k]) == Some(DirectoryRecord(NewEntries(d, path, k), true))
    ensures forall p: Path :: !(p <= path) ==> Get(e, p) == Get(d, p)
  {
    hide NewEntries;
    var parent := path[..|path| - 1];
    AtTheEnd(d, path);
    assert path[..|path|] == path && !(path <= parent);
    forall k | 0 <= k <= |path|
      ensures Get(e, path[..k]) == Some(DirectoryRecord(NewEntries(d, path, k), true))
    {
      if k < |path| {
        SameAbove(d, path, k);
        assert parent[..k] == path[..k];
      }
    }
    forall p: Path | !(p <= path) ensures Get(e, p) == Get(d, p) {
      assert p <= parent ==> p <= path;
      assert p != path && p != parent;
    }
  }
}
