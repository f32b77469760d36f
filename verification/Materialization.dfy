/** Making the working directory match a stored tree: what is on disk and in the cache, whether or not it succeeds. */
module Materialization {
  import opened Wrappers
  import opened Workspace
  import opened Ascents
  import opened CacheRecords
  import opened CacheTruth
  import opened CaptureEffects
  import opened DirectoryWalks
  import opened HintedSettling
  import opened MaterializedTrees
  import opened DiskLaws

  function AtIn(node: Option<Node>, rest: Path): (found: Option<Node>) {
    if node.None? then None else At(node.value, rest)
  }

  /** File records at or below `path` are sound for what is there. */
  ghost predicate SoundBelow(path: Path, node: Option<Node>, v: View) {
    forall p <- v.files :: path <= p ==> RecordSound(AtIn(node, p[|path|..]), v.files[p])
  }

  /** Directory records at or below `path` are for directories that a scan visits. */
  ghost predicate TidyBelow(o: Options, path: Path, node: Option<Node>, v: View) {
    forall p <- v.directories :: path <= p ==> node.Some? && Visited(o, node.value, p[|path|..])
  }

  /** The file's record says that a missing object is stored. */
  ghost predicate Misleads(store: set<Id>, v: View, p: Path) {
    p in v.files && v.files[p].stored && v.files[p].id !in store
  }

  ghost predicate Misleading(store: set<Id>, path: Path, v: View) {
    exists p: Path :: path <= p && Misleads(store, v, p)
  }

  ghost predicate MisleadingIn(store: set<Id>, path: Path, names: set<Name>, v: View) {
    exists p: Path :: path < p && p[|path|] in names && Misleads(store, v, p)
  }

  lemma {:induction false} MisleadingBreaksFlags(store: set<Id>, path: Path, v: View)
    requires Misleading(store, path, v)
    ensures !FlagsOk(store, v)
  {
    var p :| path <= p && Misleads(store, v, p);
    assert !FileFlagsOk(store, v.files[p]);
  }

  /**
   * What laying `id` at `path` leaves, from cache `v` to `w` and from `node` to `after`: sound records everywhere and
   * nothing touched outside, success exactly as computed, flags broken exactly by vouching, and on success the target
   * in place and on record.
   */
  ghost predicate LaidOut(o: Options, store: set<Id>, v: View, w: View, path: Path, id: Id, node: Option<Node>,
                          after: Option<Node>, done: bool) {
    && SameOutside(path, v, w) && SoundBelow(path, after, w)
    && done == LayEntry(o, store, id, node).done
    && (LayEntry(o, store, id, node).vouched ==> Misleading(store, path, w))
    && (!LayEntry(o, store, id, node).vouched && FlagsOk(store, v) ==> FlagsOk(store, w))
    && (done ==>
        after.Some? && EntryMatches(o, id, Start(node), after.value) && Holds(w, path, id, after.value))
  }

  /** Laying fails only for an object that is missing or a symlink that is rejected. */
  predicate Explained(o: Options, store: set<Id>, error: Error) {
    match error
    case MissingObject(id) => id !in store
    case SymlinkUnsupported(_) => o.symlinks.RejectSymlinks?
    case _ => false
  }

  lemma {:induction false} RecordsFile(o: Options, store: set<Id>, path: Path, id: Id, node: Option<Node>,
                                       after: Node, u: View, v: View)
    requires id.Blob? && after.File? && id == Blob(after.bytes) && SameOutside(path, u, v)
    requires LayEntry(o, store, id, node) == Laying(true, id !in store)
    requires FlagsOk(store, u) ==> FlagsOk(store, v)
    ensures LaidOut(o, store, u, WithFile(v, path, after.mark, id, true), path, id, node, Some(after), true)
    ensures WithFile(v, path, after.mark, id, true).directories == v.directories
  {
    hide LayEntry, SameOutside, FlagsOk;
    var w := WithFile(v, path, after.mark, id, true);
    assert path <= path && path[|path|..] == [];
    SameOutsideRecord(path, v, after.mark, id, map[], true);
    SameOutsideJoins(path, u, v, w);
    forall p <- w.files | path <= p ensures RecordSound(At(after, p[|path|..]), w.files[p]) {
      if p != path {
        assert p[|path|..] != [];
      }
    }
    if id in store {
      if FlagsOk(store, u) {
        FlagsWithFile(v, store, path, after.mark, id, true);
      }
    } else {
      assert Misleads(store, w, path);
    }
  }

  /** The record that a file matches is sound, so a matching id means matching content. */
  lemma {:induction false} MatchIsContent(path: Path, node: Node, v: View, id: Id)
    requires node.File? && SoundBelow(path, Some(node), v)
    requires path in v.files && v.files[path].mark == node.mark && v.files[path].id == id
    ensures id == Blob(node.bytes)
  {
    assert path <= path && path[|path|..] == [];
    assert RecordSound(At(node, []), v.files[path]);
  }

  /** Writes one file, unless the cache or its content shows that it already matches. */
  method MaterializeBlob(m: Materializer, path: Path, id: Id, node: Option<Node>, ghost tidy: bool)
    returns (after: Option<Node>, error: Option<Error>)
    requires id.Blob? && SoundBelow(path, node, m.cache) && (tidy ==> TidyBelow(m.options, path, node, m.cache))
    modifies m`cache
    ensures LaidOut(m.options, m.store, old(m.cache), m.cache, path, id, node, after, error.None?)
    ensures error.Some? ==> Explained(m.options, m.store, error.value)
    ensures tidy && error.None? ==> TidyBelow(m.options, path, after, m.cache)
  {
    hide SoundBelow, FlagsOk, SameOutside;
    ghost var before := m.cache;
    SameOutsideReflexive(path, before);
    if node.Some? && node.value.File? {
      var found := LookupFile(Get(m.cache.files, path), node.value.mark);
      if found.matching.Some? && found.matching.value.id == id {
        MatchIsContent(path, node.value, m.cache, id);
      }
      if (found.matching.Some? && found.matching.value.id == id) || Blob(node.value.bytes) == id {
        RecordsFile(m.options, m.store, path, id, node, node.value, before, before);
        m.cache := WithFile(m.cache, path, node.value.mark, id, true);
        return node, None;
      }
    }
    m.cache := Without(m.cache, path);
    Forgets(m.store, path, before);
    var left := if node.Some? && node.value.File? then node else None;
    if id !in m.store {
      assert SoundBelow(path, left, m.cache) by { NoneToBeSound(path, left, m.cache); }
      return left, Some(MissingObject(id));
    }
    var mark: Fingerprint := *;
    RecordsFile(m.options, m.store, path, id, node, File(id.bytes, mark), before, m.cache);
    m.cache := WithFile(m.cache, path, mark, id, true);
    return Some(File(id.bytes, mark)), None;
  }

  lemma {:induction false} Forgets(store: set<Id>, path: Path, v: View)
    ensures NoRecords(path, Without(v, path)) && SameOutside(path, v, Without(v, path))
    ensures FlagsOk(store, v) ==> FlagsOk(store, Without(v, path))
  {
  }

  lemma {:induction false} NoneToBeSound(path: Path, node: Option<Node>, v: View)
    requires NoRecords(path, v)
    ensures SoundBelow(path, node, v)
  {
  }

  /** What pruning leaves of `before`: the target's own names and what it preserves. */
  ghost predicate LeftByPruning(o: Options, names: set<Name>, before: map<Name, Node>, after: map<Name, Node>) {
    forall n: Name ::
      && (n in after <==> n in before && (n in names || Preserves(o, n, before[n])))
      && (n in after ==> after[n] == before[n])
  }

  ghost predicate Among(after: map<Name, Node>, before: map<Name, Node>) {
    forall n <- after :: n in before && after[n] == before[n]
  }

  /** The cache without the records of these children, at any depth. */
  ghost function Forgotten(v: View, path: Path, names: set<Name>): (w: View) {
    View(map p | p in v.files && !(path < p && p[|path|] in names) :: v.files[p],
         map p | p in v.directories && !(path < p && p[|path|] in names) :: v.directories[p])
  }

  lemma {:induction false} ForgottenNext(v: View, path: Path, names: set<Name>, name: Name)
    ensures Without(Forgotten(v, path, names), path + [name]) == Forgotten(v, path, names + {name})
  {
    forall p: Path ensures path + [name] <= p <==> path < p && p[|path|] == name {
      Next(path, name, p);
    }
  }

  lemma {:induction false} ForgottenNothing(v: View, path: Path)
    ensures Forgotten(v, path, {}) == v
  {
  }

  /** Removes what the target does not name, except what is excluded, and forgets the records of what it removed. */
  method PruneDirectory(m: Materializer, path: Path, names: set<Name>, before: map<Name, Node>)
    returns (after: map<Name, Node>, error: Option<Error>)
    modifies m`cache
    ensures error.Some? == PruneFails(m.options, names, before) && Among(after, before)
    ensures error.Some? ==> Explained(m.options, m.store, error.value)
    ensures error.None? ==> LeftByPruning(m.options, names, before, after)
    ensures m.cache == if error.None? then Forgotten(old(m.cache), path, before.Keys - after.Keys) else old(m.cache)
  {
    after, error := before, None;
    var todo := before.Keys;
    var removed: set<Name> := {};
    while todo != {}
      invariant todo <= before.Keys && removed <= before.Keys - todo
      invariant forall n <- before :: n in removed <==> n !in todo && n !in names && !Preserves(m.options, n, before[n])
      invariant forall n <- removed :: !before[n].Symlink?
      invariant after == before - removed
      decreases todo
    {
      var name :| name in todo;
      todo := todo - {name};
      if name !in names && !Preserves(m.options, name, before[name]) {
        if before[name].Symlink? {
          error := Some(SymlinkUnsupported(path + [name]));
          return;
        }
        after := after - {name};
        removed := removed + {name};
      }
    }
    ForgetRemoved(m, path, removed);
    assert before.Keys - after.Keys == removed;
  }

  method ForgetRemoved(m: Materializer, path: Path, removed: set<Name>)
    modifies m`cache
    ensures m.cache == Forgotten(old(m.cache), path, removed)
  {
    hide Forgotten;
    ForgottenNothing(m.cache, path);
    var todo := removed;
    assert removed - todo == {};
    while todo != {}
      invariant todo <= removed && m.cache == Forgotten(old(m.cache), path, removed - todo)
      decreases todo
    {
      var name :| name in todo;
      ForgottenNext(old(m.cache), path, removed - todo, name);
      assert removed - (todo - {name}) == removed - todo + {name};
      m.cache := Without(m.cache, path + [name]);
      todo := todo - {name};
    }
    assert removed - todo == removed;
  }

  lemma {:induction false} PrunedSound(path: Path, before: map<Name, Node>, after: map<Name, Node>, v: View, w: View)
    requires SoundBelow(path, Some(Dir(before)), v) && Among(after, before)
    requires forall p <- w.files :: p in v.files && w.files[p] == v.files[p]
    ensures SoundBelow(path, Some(Dir(after)), w)
  {
    forall p <- w.files | path <= p ensures RecordSound(At(Dir(after), p[|path|..]), w.files[p]) {
      assert RecordSound(AtIn(Some(Dir(before)), p[|path|..]), v.files[p]);
    }
  }

  lemma {:induction false} PrunedTidy(o: Options, path: Path, before: map<Name, Node>, after: map<Name, Node>, v: View)
    requires TidyBelow(o, path, Some(Dir(before)), v) && Among(after, before)
    ensures TidyBelow(o, path, Some(Dir(after)), Forgotten(v, path, before.Keys - after.Keys))
  {
    var w := Forgotten(v, path, before.Keys - after.Keys);
    forall p <- w.directories | path <= p ensures Visited(o, Dir(after), p[|path|..]) {
      var rest := p[|path|..];
      assert p in v.directories && Visited(o, Dir(before), rest);
      if rest != [] {
        assert rest[0] == p[|path|] && rest[0] in after;
      }
    }
  }

  /** Some of the target's entries are in place; the others are as they were. */
  ghost predicate Underway(o: Options, target: Entries, before: map<Name, Node>, after: map<Name, Node>,
                           todo: set<Name>) {
    && todo <= target.Keys && Pruned(o, target, before, after)
    && (forall n <- target.Keys - todo :: n in after && EntryMatches(o, target[n], Start(ChildAt(before, n)), after[n]))
    && (forall n <- todo :: ChildAt(after, n) == ChildAt(before, n))
  }

  ghost predicate HeldExcept(v: View, path: Path, target: Entries, after: map<Name, Node>, todo: set<Name>) {
    forall n <- target.Keys - todo :: n in after && Holds(v, path + [n], target[n], after[n])
  }

  /** Where the loop over a target's entries stands. */
  ghost predicate Progress(o: Options, store: set<Id>, v: View, w: View, path: Path, target: Entries,
                           before: map<Name, Node>, after: map<Name, Node>, todo: set<Name>, vouched: bool,
                           tidy: bool) {
    && SameOutside(path, v, w) && SoundBelow(path, Some(Dir(after)), w)
    && Underway(o, target, before, after, todo) && HeldExcept(w, path, target, after, todo)
    && (vouched ==> MisleadingIn(store, path, target.Keys - todo, w))
    && (!vouched && FlagsOk(store, v) ==> FlagsOk(store, w))
    && (tidy ==> TidyBelow(o, path, Some(Dir(after)), w))
  }

  lemma {:induction false} ProgressStarts(o: Options, store: set<Id>, v: View, path: Path, target: Entries,
                                          before: map<Name, Node>, after: map<Name, Node>, tidy: bool)
    requires SoundBelow(path, Some(Dir(before)), v) && (tidy ==> TidyBelow(o, path, Some(Dir(before)), v))
    requires LeftByPruning(o, target.Keys, before, after) && Among(after, before)
    ensures Progress(o, store, v, Forgotten(v, path, before.Keys - after.Keys), path, target, before, after,
                     target.Keys, false, tidy)
  {
    hide Preserves, SoundBelow, TidyBelow;
    var w := Forgotten(v, path, before.Keys - after.Keys);
    PrunedSound(path, before, after, v, w);
    if tidy {
      PrunedTidy(o, path, before, after, v);
    }
  }

  /** The children after one of them was laid, or removed. */
  function Placed(children: map<Name, Node>, name: Name, node: Option<Node>): (placed: map<Name, Node>) {
    if node.Some? then children[name := node.value] else children - {name}
  }

  lemma {:induction false} Step(path: Path, n: Name, p: Path)
    requires path + [n] <= p
    ensures path <= p && p[|path|..] != [] && p[|path|..][0] == n && p[|path|..][1..] == p[|path| + 1..]
  {
    assert p[|path|] == (path + [n])[|path|];
  }

  lemma {:induction false} SoundChild(path: Path, children: map<Name, Node>, n: Name, v: View)
    requires SoundBelow(path, Some(Dir(children)), v)
    ensures SoundBelow(path + [n], ChildAt(children, n), v)
  {
    hide RecordSound;
    forall p <- v.files | path + [n] <= p
      ensures RecordSound(AtIn(ChildAt(children, n), p[|path| + 1..]), v.files[p])
    {
      Step(path, n, p);
      assert AtIn(Some(Dir(children)), p[|path|..]) == AtIn(ChildAt(children, n), p[|path| + 1..]);
    }
  }

  lemma {:induction false} TidyChild(o: Options, path: Path, children: map<Name, Node>, n: Name, v: View)
    requires TidyBelow(o, path, Some(Dir(children)), v)
    ensures TidyBelow(o, path + [n], ChildAt(children, n), v)
  {
    forall p <- v.directories | path + [n] <= p
      ensures n in children && Visited(o, children[n], p[|path| + 1..])
    {
      Step(path, n, p);
      assert Visited(o, Dir(children), p[|path|..]);
    }
  }

  lemma {:induction false} AtPlaced(children: map<Name, Node>, n: Name, node: Option<Node>, rest: Path)
    ensures rest != [] && rest[0] == n ==> At(Dir(Placed(children, n, node)), rest) == AtIn(node, rest[1..])
    ensures rest != [] && rest[0] != n ==> At(Dir(Placed(children, n, node)), rest) == At(Dir(children), rest)
  {
  }

  lemma {:induction false} SoundPlaced(path: Path, children: map<Name, Node>, n: Name, node: Option<Node>, v: View,
                                       w: View)
    requires SoundBelow(path, Some(Dir(children)), v)
    requires SameOutside(path + [n], v, w) && SoundBelow(path + [n], node, w)
    ensures SoundBelow(path, Some(Dir(Placed(children, n, node))), w)
  {
    hide At, Placed;
    forall p <- w.files | path <= p ensures RecordSound(At(Dir(Placed(children, n, node)), p[|path|..]), w.files[p]) {
      var rest := p[|path|..];
      AtPlaced(children, n, node, rest);
      if path + [n] <= p {
        Step(path, n, p);
      } else {
        assert Get(v.files, p) == Get(w.files, p);
        Next(path, n, p);
        if rest == [] {
          NotFile(Placed(children, n, node), w.files[p]);
        } else {
          assert rest[0] == p[|path|];
        }
      }
    }
  }

  lemma {:induction false} NotFile(children: map<Name, Node>, record: FileRecord)
    ensures RecordSound(At(Dir(children), []), record)
  {
  }

  lemma {:induction false} TidyPlaced(o: Options, path: Path, children: map<Name, Node>, n: Name, node: Node, v: View,
                                      w: View)
    requires TidyBelow(o, path, Some(Dir(children)), v) && SameOutside(path + [n], v, w)
    requires TidyBelow(o, path + [n], Some(node), w) && !Skips(o, n, node)
    ensures TidyBelow(o, path, Some(Dir(children[n := node])), w)
  {
    forall p <- w.directories | path <= p ensures Visited(o, Dir(children[n := node]), p[|path|..]) {
      var rest := p[|path|..];
      if path + [n] <= p {
        Step(path, n, p);
        assert Visited(o, node, rest[1..]);
      } else {
        assert Get(v.directories, p) == Get(w.directories, p);
        Next(path, n, p);
        assert Visited(o, Dir(children), rest);
        if rest != [] {
          assert rest[0] == p[|path|];
        }
      }
    }
  }

  lemma {:induction false} SiblingSame(path: Path, n: Name, k: Name, v: View, w: View)
    requires SameOutside(path + [k], v, w) && n != k
    ensures SameBelow(path + [n], v, w)
  {
    hide Get;
    forall p: Path | path + [n] <= p
      ensures Get(v.files, p) == Get(w.files, p) && Get(v.directories, p) == Get(w.directories, p)
    {
      Next(path, n, p);
      Next(path, k, p);
    }
  }

  lemma {:induction false} HeldNext(v: View, w: View, path: Path, target: Entries, after: map<Name, Node>,
                                    todo: set<Name>, name: Name, node: Node)
    requires HeldExcept(v, path, target, after, todo) && name in todo && name in target
    requires SameOutside(path + [name], v, w) && Holds(w, path + [name], target[name], node)
    ensures HeldExcept(w, path, target, after[name := node], todo - {name})
  {
    hide Holds, SameOutside;
    forall n <- target.Keys - (todo - {name})
      ensures n in after[name := node] && Holds(w, path + [n], target[n], after[name := node][n])
    {
      if n != name {
        assert n in target.Keys - todo;
        SiblingSame(path, n, name, v, w);
        HoldsSame(v, w, path + [n], target[n], after[n]);
      }
    }
  }

  lemma {:induction false} UnderwayNext(o: Options, target: Entries, before: map<Name, Node>, after: map<Name, Node>,
                                        todo: set<Name>, name: Name, node: Node)
    requires Underway(o, target, before, after, todo) && name in todo
    requires EntryMatches(o, target[name], Start(ChildAt(after, name)), node)
    ensures Underway(o, target, before, after[name := node], todo - {name})
  {
    hide EntryMatches, Preserves, Start;
    assert ChildAt(after, name) == ChildAt(before, name);
    var later := after[name := node];
    forall n <- target.Keys - (todo - {name})
      ensures n in later && EntryMatches(o, target[n], Start(ChildAt(before, n)), later[n])
    {
      if n != name {
        assert n in target.Keys - todo;
      }
    }
  }

  lemma {:induction false} StillMisleading(store: set<Id>, path: Path, names: set<Name>, name: Name, v: View, w: View)
    requires SameOutside(path + [name], v, w) && name !in names
    ensures MisleadingIn(store, path, names, v) ==> MisleadingIn(store, path, names + {name}, w)
    ensures Misleading(store, path + [name], w) ==> MisleadingIn(store, path, names + {name}, w)
  {
    if MisleadingIn(store, path, names, v) {
      var p :| path < p && p[|path|] in names && Misleads(store, v, p);
      Next(path, name, p);
      assert Get(v.files, p) == Get(w.files, p);
      assert p[|path|] in names + {name} && Misleads(store, w, p);
    }
    if Misleading(store, path + [name], w) {
      var p :| path + [name] <= p && Misleads(store, w, p);
      Next(path, name, p);
    }
  }

  lemma {:induction false} MisleadingWider(store: set<Id>, path: Path, names: set<Name>, v: View)
    requires MisleadingIn(store, path, names, v)
    ensures Misleading(store, path, v)
  {
  }

  /** One more entry of the target, laid or failed. */
  lemma {:induction false} ProgressNext(o: Options, store: set<Id>, u: View, v: View, w: View, path: Path,
                                        target: Entries, before: map<Name, Node>, after: map<Name, Node>,
                                        todo: set<Name>, vouched: bool, tidy: bool, name: Name, node: Option<Node>,
                                        done: bool)
    requires Progress(o, store, u, v, path, target, before, after, todo, vouched, tidy) && name in todo
    requires LaidOut(o, store, v, w, path + [name], target[name], ChildAt(before, name), node, done)
    requires tidy ==> EntryIncludable(o, name, target[name])
    requires tidy && done ==> TidyBelow(o, path + [name], node, w)
    ensures var also := LayEntry(o, store, target[name], ChildAt(before, name)).vouched;
      && SameOutside(path, u, w) && SoundBelow(path, Some(Dir(Placed(after, name, node))), w)
      && (vouched || also ==> Misleading(store, path, w))
      && (!vouched && !also && FlagsOk(store, u) ==> FlagsOk(store, w))
      && (done ==> node.Some? && Progress(o, store, u, w, path, target, before, after[name := node.value],
                                          todo - {name}, vouched || also, tidy))
  {
    hide SameOutside, SoundBelow, TidyBelow, FlagsOk, EntryMatches, Holds, LayEntry, Misleading, MisleadingIn, Pruned,
      HeldExcept, EntryIncludable;
    SameOutsideWider(path, name, v, w);
    SameOutsideJoins(path, u, v, w);
    SoundPlaced(path, after, name, node, v, w);
    var names := target.Keys - todo;
    assert target.Keys - (todo - {name}) == names + {name};
    StillMisleading(store, path, names, name, v, w);
    if MisleadingIn(store, path, names + {name}, w) {
      MisleadingWider(store, path, names + {name}, w);
    }
    assert ChildAt(after, name) == ChildAt(before, name);
    if done {
      UnderwayNext(o, target, before, after, todo, name, node.value);
      HeldNext(v, w, path, target, after, todo, name, node.value);
      if tidy {
        LaidIsNotSkipped(o, name, target[name], Start(ChildAt(before, name)), node.value);
        TidyPlaced(o, path, after, name, node.value, v, w);
      }
    }
  }

  lemma {:induction false} LaidIsNotSkipped(o: Options, name: Name, id: Id, before: map<Name, Node>, node: Node)
    requires EntryMatches(o, id, before, node) && EntryIncludable(o, name, id)
    ensures !Skips(o, name, node)
  {
  }

  /** With every entry laid, recording the directory as stored completes it. */
  lemma {:induction false} ProgressEnds(o: Options, store: set<Id>, v: View, w: View, path: Path, target: Entries,
                                        before: map<Name, Node>, after: map<Name, Node>, vouched: bool, tidy: bool)
    requires Progress(o, store, v, w, path, target, before, after, {}, vouched, tidy) && Tree(target) in store
    requires LayDirectory(o, store, target, before) == Laying(true, vouched)
    ensures var x := WithDirectory(w, path, target, true);
      && LaidOut(o, store, v, x, path, Tree(target), Some(Dir(before)), Some(Dir(after)), true)
      && (tidy ==> TidyBelow(o, path, Some(Dir(after)), x))
  {
    hide SameOutside, FlagsOk, LayDirectory, Pruned, Preserves, WithDirectory, Misleading, MisleadingIn, EntryMatches,
      Visited;
    var x := WithDirectory(w, path, target, true);
    SameOutsideRecord(path, w, 0, Blob([]), target, true);
    SameOutsideJoins(path, v, w, x);
    RecordsDirectory(o, path, target, Dir(after), w);
    if vouched {
      MisleadingWider(store, path, target.Keys - {}, w);
      StillMisleads(store, path, target, w);
    }
    if FlagsOk(store, w) {
      FlagsWithDirectory(w, store, path, target, true);
    }
    assert target.Keys - {} == target.Keys;
    UnderwayEnds(o, target, before, after);
    forall n <- target ensures n in after && Holds(x, path + [n], target[n], after[n]) {
      OwnRecordOnly(path, n, target, w);
      HoldsSame(w, x, path + [n], target[n], after[n]);
    }
  }

  lemma {:induction false} UnderwayEnds(o: Options, target: Entries, before: map<Name, Node>, after: map<Name, Node>)
    requires Underway(o, target, before, after, {})
    ensures EntryMatches(o, Tree(target), before, Dir(after))
  {
    hide Pruned;
    forall n <- target ensures n in after && EntryMatches(o, target[n], Start(ChildAt(before, n)), after[n]) {
      assert n in target.Keys - {};
    }
  }

  lemma {:induction false} RecordsDirectory(o: Options, path: Path, target: Entries, node: Node, v: View)
    requires node.Dir?
    ensures var w := WithDirectory(v, path, target, true);
      && (SoundBelow(path, Some(node), v) ==> SoundBelow(path, Some(node), w))
      && (TidyBelow(o, path, Some(node), v) ==> TidyBelow(o, path, Some(node), w))
      && Get(w.directories, path) == Some(DirectoryRecord(target, true))
  {
    hide At;
    assert path <= path && path[|path|..] == [];
  }

  lemma {:induction false} StillMisleads(store: set<Id>, path: Path, target: Entries, v: View)
    requires Misleading(store, path, v)
    ensures Misleading(store, path, WithDirectory(v, path, target, true))
  {
    var p :| path <= p && Misleads(store, v, p);
    assert Misleads(store, WithDirectory(v, path, target, true), p);
  }

  lemma {:induction false} OwnRecordOnly(path: Path, n: Name, target: Entries, v: View)
    ensures SameBelow(path + [n], v, WithDirectory(v, path, target, true))
  {
    hide NextDirectory;
    var w := WithDirectory(v, path, target, true);
    forall p: Path | path + [n] <= p
      ensures Get(v.files, p) == Get(w.files, p) && Get(v.directories, p) == Get(w.directories, p)
    {
      assert |p| > |path|;
    }
  }

  /** Laying a tree depends on the directory it starts from, not on what had to make room for it. */
  lemma {:induction false} StartIsEnough(o: Options, store: set<Id>, v: View, w: View, path: Path, target: Entries,
                                         node: Option<Node>, after: Option<Node>, done: bool)
    requires LaidOut(o, store, v, w, path, Tree(target), Some(Dir(Start(node))), after, done)
    ensures LaidOut(o, store, v, w, path, Tree(target), node, after, done)
  {
    hide SameOutside, SoundBelow, FlagsOk, Matches, Holds, Misleading, LayDirectory;
    assert Start(Some(Dir(Start(node)))) == Start(node);
    assert LayEntry(o, store, Tree(target), Some(Dir(Start(node)))) == LayEntry(o, store, Tree(target), node);
  }

  lemma {:induction false} FromStart(o: Options, path: Path, node: Option<Node>, v: View)
    ensures SoundBelow(path, node, v) ==> SoundBelow(path, Some(Dir(Start(node))), v)
    ensures TidyBelow(o, path, node, v) ==> TidyBelow(o, path, Some(Dir(Start(node))), v)
  {
  }

  method MaterializeEntry(m: Materializer, path: Path, name: Name, id: Id, node: Option<Node>, ghost tidy: bool)
    returns (after: Option<Node>, error: Option<Error>)
    requires SoundBelow(path, node, m.cache)
    requires tidy ==> TidyBelow(m.options, path, node, m.cache) && EntryIncludable(m.options, name, id)
    modifies m`cache
    ensures LaidOut(m.options, m.store, old(m.cache), m.cache, path, id, node, after, error.None?)
    ensures tidy && error.None? ==> TidyBelow(m.options, path, after, m.cache)
    ensures error.Some? ==> Explained(m.options, m.store, error.value)
    decreases id, 1
  {
    hide SoundBelow, TidyBelow, LaidOut, Includable;
    match id {
      case Blob(_) =>
        after, error := MaterializeBlob(m, path, id, node, tidy);
      case Tree(entries) =>
        FromStart(m.options, path, node, m.cache);
        ghost var before := m.cache;
        var children;
        children, error := MaterializeDirectory(m, path, entries, Start(node), tidy);
        after := Some(Dir(children));
        StartIsEnough(m.options, m.store, before, m.cache, path, entries, node, after, error.None?);
    }
  }

  /** Lays the target over the directory: prune, then place every entry in order, then record it as stored. */
  method MaterializeDirectory(m: Materializer, path: Path, target: Entries, before: map<Name, Node>,
                              ghost tidy: bool)
    returns (after: map<Name, Node>, error: Option<Error>)
    requires SoundBelow(path, Some(Dir(before)), m.cache)
    requires tidy ==> TidyBelow(m.options, path, Some(Dir(before)), m.cache) && Includable(m.options, target)
    modifies m`cache
    ensures LaidOut(m.options, m.store, old(m.cache), m.cache, path, Tree(target), Some(Dir(before)),
                    Some(Dir(after)), error.None?)
    ensures tidy && error.None? ==> TidyBelow(m.options, path, Some(Dir(after)), m.cache)
    ensures error.Some? ==> Explained(m.options, m.store, error.value)
    decreases Tree(target), 0
  {
    hide SoundBelow, TidyBelow, LaidOut, Progress, LayNames, LayEntry, EntryIncludable, PruneFails, Elements, Ascending,
      NameLeq, LeftByPruning, Among, Forgotten, WithDirectory;
    ghost var o, store, begun := m.options, m.store, m.cache;
    ghost var lay := LayDirectory(o, store, target, before);
    if Tree(target) !in m.store {
      NotLaid(o, store, begun, path, target, before, before);
      return before, Some(MissingObject(Tree(target)));
    }
    after, error := PruneDirectory(m, path, target.Keys, before);
    if error.Some? {
      assert SoundBelow(path, Some(Dir(after)), m.cache) by { PrunedSound(path, before, after, begun, begun); }
      NotLaid(o, store, begun, path, target, before, after);
      return;
    }
    ProgressStarts(o, store, begun, path, target, before, after, tidy);
    NamesAreOrdered();
    var names := Enumerate(NameLeq, target.Keys);
    AscendingIsUnique(NameLeq, names, Listing(NameLeq, target.Keys));
    var i: nat := 0;
    ghost var vouched := false;
    assert names[0..] == names;
    while i < |names|
      invariant i <= |names| && Elements(names[i..]) <= target.Keys
      invariant Ascending(NameLeq, names[i..]) && error.None?
      invariant Progress(o, store, begun, m.cache, path, target, before, after, Elements(names[i..]), vouched, tidy)
      invariant var rest := LayNames(o, store, target, before, names[i..]);
        lay == Laying(rest.done, vouched || rest.vouched)
    {
      var name := names[i];
      Head(names, i);
      ghost var earlier, todo := m.cache, Elements(names[i..]);
      LaysNext(o, store, target, before, names, i);
      Unlaid(o, store, begun, earlier, path, target, before, after, todo, vouched, tidy, name);
      var node;
      node, error := MaterializeEntry(m, path + [name], name, target[name], ChildAt(after, name), tidy);
      ProgressNext(o, store, begun, earlier, m.cache, path, target, before, after, todo, vouched, tidy, name, node,
                   error.None?);
      ghost var first := LayEntry(o, store, target[name], ChildAt(before, name));
      LaidMeans(o, store, earlier, m.cache, path + [name], target[name], ChildAt(before, name), node, error.None?);
      after := Placed(after, name, node);
      if error.Some? {
        CutShort(o, store, begun, m.cache, path, target, before, after, vouched);
        return;
      }
      assert todo - {name} == Elements(names[i + 1..]);
      vouched := vouched || first.vouched;
      i := i + 1;
    }
    NothingLeft(names);
    AllLaid(o, store, target, before, names, i);
    ProgressEnds(o, store, begun, m.cache, path, target, before, after, vouched, tidy);
    m.cache := WithDirectory(m.cache, path, target, true);
  }

  lemma {:induction false} NothingLeft(s: seq<Name>)
    ensures Elements(s[|s|..]) == {}
  {
  }

  lemma {:induction false} AllLaid(o: Options, store: set<Id>, target: Entries, before: map<Name, Node>,
                                   names: seq<Name>, i: nat)
    requires i == |names|
    ensures Elements(names[i..]) == {} && LayNames(o, store, target, before, names[i..]) == Laying(true, false)
  {
    NothingLeft(names);
  }

  lemma {:induction false} Head(s: seq<Name>, i: nat)
    requires i < |s| && Ascending(NameLeq, s[i..])
    ensures Elements(s[i..]) == {s[i]} + Elements(s[i + 1..]) && s[i] !in Elements(s[i + 1..])
    ensures Ascending(NameLeq, s[i + 1..])
  {
    hide NameLeq;
    assert s[i..][0] == s[i] && s[i..][1..] == s[i + 1..];
  }

  lemma {:induction false} LaysNext(o: Options, store: set<Id>, target: Entries, before: map<Name, Node>,
                                    names: seq<Name>, i: nat)
    requires i < |names| && Elements(names[i..]) <= target.Keys
    ensures names[i] in target && Elements(names[i + 1..]) <= target.Keys
    ensures var first := LayEntry(o, store, target[names[i]], ChildAt(before, names[i]));
      LayNames(o, store, target, before, names[i..]) ==
        if !first.done then first
        else
          var rest := LayNames(o, store, target, before, names[i + 1..]);
          Laying(rest.done, first.vouched || rest.vouched)
  {
    hide LayEntry;
    assert names[i..][0] == names[i] && names[i..][1..] == names[i + 1..];
  }

  /** What an entry not yet laid starts from. */
  lemma {:induction false} Unlaid(o: Options, store: set<Id>, u: View, v: View, path: Path, target: Entries,
                                  before: map<Name, Node>, after: map<Name, Node>, todo: set<Name>, vouched: bool,
                                  tidy: bool, name: Name)
    requires Progress(o, store, u, v, path, target, before, after, todo, vouched, tidy) && name in todo
    requires tidy ==> Includable(o, target)
    ensures name in target && ChildAt(after, name) == ChildAt(before, name)
    ensures SoundBelow(path + [name], ChildAt(after, name), v)
    ensures tidy ==> TidyBelow(o, path + [name], ChildAt(after, name), v) && EntryIncludable(o, name, target[name])
  {
    hide SoundBelow, TidyBelow, SameOutside, FlagsOk, EntryIncludable, HeldExcept, MisleadingIn, Pruned, EntryMatches;
    SoundChild(path, after, name, v);
    if tidy {
      TidyChild(o, path, after, name, v);
    }
  }

  lemma {:induction false} LaidMeans(o: Options, store: set<Id>, v: View, w: View, path: Path, id: Id,
                                     node: Option<Node>, after: Option<Node>, done: bool)
    requires LaidOut(o, store, v, w, path, id, node, after, done)
    ensures done == LayEntry(o, store, id, node).done && (done ==> after.Some?)
  {
  }

  /** Nothing was laid, and no record changed. */
  lemma {:induction false} NotLaid(o: Options, store: set<Id>, v: View, path: Path, target: Entries,
                                   before: map<Name, Node>, after: map<Name, Node>)
    requires LayDirectory(o, store, target, before) == Laying(false, false) && SoundBelow(path, Some(Dir(after)), v)
    ensures LaidOut(o, store, v, v, path, Tree(target), Some(Dir(before)), Some(Dir(after)), false)
  {
    hide LayDirectory, SoundBelow, FlagsOk;
    SameOutsideReflexive(path, v);
  }

  /** An entry failed: what came before it stays. */
  lemma {:induction false} CutShort(o: Options, store: set<Id>, v: View, w: View, path: Path, target: Entries,
                                    before: map<Name, Node>, after: map<Name, Node>, vouched: bool)
    requires SameOutside(path, v, w) && SoundBelow(path, Some(Dir(after)), w)
    requires !LayDirectory(o, store, target, before).done
    requires LayDirectory(o, store, target, before).vouched ==> Misleading(store, path, w)
    requires !LayDirectory(o, store, target, before).vouched && FlagsOk(store, v) ==> FlagsOk(store, w)
    ensures LaidOut(o, store, v, w, path, Tree(target), Some(Dir(before)), Some(Dir(after)), false)
  {
    hide LayDirectory, SoundBelow, FlagsOk, SameOutside, Misleading;
  }

  lemma {:induction false} SoundRoot(disk: Node, v: View)
    ensures SoundBelow([], Some(disk), v) <==> FilesSound(disk, v)
  {
    hide At, RecordSound;
    forall p <- v.files ensures p[0..] == p {}
  }

  lemma {:induction false} TidyRoot(o: Options, disk: Node, v: View)
    ensures TidyBelow(o, [], Some(disk), v) <==> Tidy(o, disk, v)
  {
    hide Visited;
    forall p <- v.directories ensures p[0..] == p {}
  }

  /** What was laid, seen from the root. */
  lemma {:induction false} LaidRoot(o: Options, store: set<Id>, v: View, w: View, target: Entries,
                                    before: map<Name, Node>, after: map<Name, Node>)
    requires LaidOut(o, store, v, w, [], Tree(target), Some(Dir(before)), Some(Dir(after)), true)
    ensures Matches(o, target, before, after) && Scannable(o, after)
    ensures Scan(o, after) == target <==> Includable(o, target)
    ensures Includable(o, target) ==> PutsDirectory(o, w, [], after) == {} && Fresh(o, Dir(after), w)
  {
    hide Matches, Scannable, Scan, Includable, Holds, LayDirectory, PutsDirectory, FlagsOk, SameOutside, SoundBelow,
      Visited, Expected;
    ScanOfMaterialized(o, target, before, after);
    if Includable(o, target) {
      NothingToPutBelow(o, w, [], target, before, after);
      forall p: Path | Visited(o, Dir(after), p) ensures Get(w.directories, p) == Expected(o, Dir(after), p) {
        HeldIsExpected(o, w, [], target, before, after, p);
        assert [] + p == p;
      }
    }
  }

  /**
   * Materialising a tree. It succeeds exactly when every directory of the target can be laid. It is computed beforehand
   * whether a `stored` flag is left that the store belies, which after a success is the case exactly for a target that
   * was not retrievable. A scan of the result returns the target, and a capture of it puts nothing, exactly when no
   * name in the target is one that scans skip. Exact records stay exact. A failure leaves a disk that the cache is
   * still sound for.
   */
  method MaterializeTree(m: Materializer, disk: Node, target: Entries) returns (after: Node, error: Option<Error>)
    requires disk.Dir? && FilesSound(disk, m.cache)
    modifies m`cache
    ensures after.Dir? && FilesSound(after, m.cache)
    ensures error.None? == LayDirectory(m.options, m.store, target, disk.children).done
    ensures error.None? <==> forall p: Path :: CanLayAt(m.options, m.store, target, disk, p)
    ensures LayDirectory(m.options, m.store, target, disk.children).vouched ==> !FlagsOk(m.store, m.cache)
    ensures !LayDirectory(m.options, m.store, target, disk.children).vouched && old(FlagsOk(m.store, m.cache)) ==>
      FlagsOk(m.store, m.cache)
    ensures error.None? && old(FlagsOk(m.store, m.cache)) ==>
      (FlagsOk(m.store, m.cache) <==> Retrievable(m.store, Tree(target)))
    ensures error.None? ==> Matches(m.options, target, disk.children, after.children)
    ensures error.None? ==> forall p: Path :: LaidAt(m.options, target, disk, after, p)
    ensures error.None? ==> Scannable(m.options, after.children)
    ensures error.None? ==> (Scan(m.options, after.children) == target <==> Includable(m.options, target))
    ensures error.None? && Includable(m.options, target) ==>
      PutsDirectory(m.options, m.cache, [], after.children) == {} && Fresh(m.options, after, m.cache)
    ensures error.None? && Includable(m.options, target) && old(Settled(m.options, disk, m.cache, {})) ==>
      Settled(m.options, after, m.cache, {})
    ensures error.Some? ==> Explained(m.options, m.store, error.value)
  {
    hide FlagsOk, Matches, Scannable, Scan, Includable, PutsDirectory, FilesSound, Settled, LayDirectory, TidyBelow,
      Tidy, SoundBelow, Fresh, Explained, EntryMatches, Holds, SameOutside, Misleading, Retrievable, LaidAt, CanLayAt;
    ghost var before, tidy := m.cache, Includable(m.options, target) && Settled(m.options, disk, m.cache, {});
    SoundRoot(disk, m.cache);
    if tidy {
      SettledMeans(m.options, disk, m.cache);
      TidyRoot(m.options, disk, m.cache);
    }
    var children;
    children, error := MaterializeDirectory(m, [], target, disk.children, tidy);
    after := Dir(children);
    SoundRoot(after, m.cache);
    LaysExactly(m.options, m.store, target, disk);
    if LayDirectory(m.options, m.store, target, disk.children).vouched {
      MisleadingBreaksFlags(m.store, [], m.cache);
    }
    if error.None? {
      LaidIsRetrievable(m.options, m.store, Tree(target), Some(disk));
      LaidRoot(m.options, m.store, before, m.cache, target, disk.children, children);
      forall p: Path ensures LaidAt(m.options, target, disk, after, p) {
        LaidEverywhere(m.options, target, disk, after, p);
      }
      if tidy {
        TidyRoot(m.options, after, m.cache);
        SettledMeans(m.options, after, m.cache);
      }
    }
  }
}
