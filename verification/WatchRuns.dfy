/** The watch loop: events report changes and invalidate their paths; hinted captures and reconciliations follow. */
module WatchRuns {
  import opened Wrappers
  import opened Workspace
  import opened Ascents
  import opened CacheRecords
  import opened CacheTruth
  import opened CaptureEffects
  import opened DirectoryWalks
  import opened HintedSettling
  import opened HintedCapture
  import opened HintList
  import opened HintedPlan
  import opened Glimpses
  import opened HintedChanges
  import opened MaterializedTrees
  import opened MaterializerRuns

  /** True flags and exact records of a retrievable workspace: where the loop starts, and what it returns to. */
  ghost predicate InStep(o: Options, s: State) {
    && s.disk.Dir? && True(s) && Scannable(o, s.disk.children) && Settled(o, s.disk, s.cache, {})
    && Retrievable(s.store, Tree(Scan(o, s.disk.children)))
  }

  /** A full capture starts the loop unless stale records are left over. */
  lemma {:induction false} CaptureStarts(o: Options, s: State, root: Id, t: State)
    requires Usable(s) && Happens(o, s, Event(FullCapture, Some(root)), t) && True(s)
    ensures InStep(o, t) <==> Tidy(o, s.disk, s.cache)
  {
    hide Scannable, Scan, Retrievable, PutsDirectory, Walked, FlagsOk, Keeps, FilesSound, Settled, Tidy, Fresh;
    StepFlags(o, s, Event(FullCapture, Some(root)), t);
    WalkKeepsStale(o, s.cache, t.cache, s.disk);
    SettledMeans(o, t.disk, t.cache);
  }

  /** Materialising a retrievable tree that scans can record keeps it going. */
  lemma {:induction false} MaterializeContinues(o: Options, s: State, target: Entries, t: State)
    requires Usable(s) && InStep(o, s) && Happens(o, s, Event(Materialize(target), None), t)
    requires LayDirectory(o, s.store, target, s.disk.children).done && Includable(o, target)
    requires Retrievable(s.store, Tree(target))
    ensures InStep(o, t) && Scan(o, t.disk.children) == target
  {
    hide LayDirectory, Retrievable, Scannable, Scan, Includable, PutsDirectory, FlagsOk, Keeps, FilesSound, Settled;
    NotVouched(o, s, Materialize(target));
    StepFlags(o, s, Event(Materialize(target), None), t);
  }

  /** No directory record lies at or below a hint. */
  ghost predicate Cleared(v: View, hints: set<Path>) {
    forall p <- v.directories :: !Hinted(hints, p)
  }

  /** Since `base` was captured, changes were reported at the dirty paths and the records there invalidated. */
  ghost predicate Pending(o: Options, base: Node, s: State, dirty: seq<Path>) {
    && base.Dir? && s.disk.Dir? && True(s) && Scannable(o, base.children)
    && Retrievable(s.store, Tree(Scan(o, base.children)))
    && ChangedOnlyAt(o, base, s.disk, Surviving(o, dirty))
    && SettledBut(o, base, s.cache, Surviving(o, dirty)) && Cleared(s.cache, Surviving(o, dirty))
  }

  lemma {:induction false} NothingPending(o: Options, s: State)
    requires InStep(o, s)
    ensures Pending(o, s.disk, s, [])
  {
    hide Scannable, Scan, Retrievable, Settled, True, GlimpseAt;
    assert Surviving(o, []) == {};
    SettledIsSettledBut(o, s.disk, s.cache, {});
  }

  /** A visited directory has no excluded name on its path. */
  lemma {:induction false} VisitedIsNotExcluded(o: Options, disk: Node, p: Path, h: Path)
    requires Visited(o, disk, p) && h <= p
    ensures !ExcludesPath(o, h)
    decreases |h|
  {
    if h != [] {
      var child := disk.children[p[0]];
      assert child.Dir? by { VisitedIsDirectory(o, child, p[1..]); }
      VisitedIsNotExcluded(o, child, p[1..], h[1..]);
    }
  }

  /** Invalidating a path: what survives of it is a hint, what does not survive had no records. */
  lemma {:induction false} InvalidationPends(o: Options, base: Node, v: View, hints: set<Path>, h: Path)
    requires SettledBut(o, base, v, hints) && (ExcludesPath(o, h) || h in hints)
    ensures SettledBut(o, base, Without(v, h), hints)
    ensures Cleared(v, hints - {h}) ==> Cleared(Without(v, h), hints)
  {
    hide Visited, Refreshed, ExcludesPath;
    forall p: Path | !Hinted(hints, p) ensures Get(Without(v, h).directories, p) == Expected(o, base, p) {
      assert Get(v.directories, p) == Expected(o, base, p);
      if h <= p && Visited(o, base, p) {
        VisitedIsNotExcluded(o, base, p, h);
      }
    }
    if Cleared(v, hints - {h}) {
      forall p <- Without(v, h).directories ensures !Hinted(hints, p) {
        assert !Hinted(hints - {h}, p);
        OtherHints(hints, h, p);
      }
    }
  }

  lemma {:induction false} OtherHints(hints: set<Path>, h: Path, p: Path)
    requires !(h <= p) && !Hinted(hints - {h}, p)
    ensures !Hinted(hints, p)
  {
    forall k <- hints ensures !(k <= p) {
      assert k != h ==> k in hints - {h};
    }
  }

  lemma {:induction false} MoreHints(hints: set<Path>, more: set<Path>, p: Path)
    requires hints <= more && !Hinted(more, p)
    ensures !Hinted(hints, p)
  {
  }

  /** Fewer records, all hinted ones gone. */
  lemma {:induction false} InvalidationsPend(o: Options, base: Node, v: View, hints: set<Path>, done: set<Path>,
                                             paths: seq<Path>)
    requires SettledBut(o, base, v, hints) && Cleared(v, done) && hints <= done + Elements(paths)
    requires forall h <- Elements(paths) :: ExcludesPath(o, h) || h in hints
    ensures SettledBut(o, base, WithoutAll(v, paths), hints) && Cleared(WithoutAll(v, paths), hints)
    decreases |paths|
  {
    hide SettledBut, Without, ExcludesPath, Hinted;
    if paths == [] {
      forall p <- v.directories ensures !Hinted(hints, p) {
        MoreHints(hints, done, p);
      }
    } else {
      var h := paths[0];
      assert Elements(paths) == {h} + Elements(paths[1..]);
      InvalidationPends(o, base, v, hints, h);
      ClearedOne(v, done, h);
      InvalidationsPend(o, base, Without(v, h), hints, done + {h}, paths[1..]);
    }
  }

  lemma {:induction false} ClearedOne(v: View, done: set<Path>, h: Path)
    requires Cleared(v, done)
    ensures Cleared(Without(v, h), done + {h})
  {
    forall p <- Without(v, h).directories ensures !Hinted(done + {h}, p) {
      assert !Hinted(done, p);
    }
  }

  /** One event: the disk changes at the reported paths, and their records are invalidated. */
  ghost predicate Noticed(o: Options, s: State, paths: seq<Path>, changed: State, t: State) {
    && Happens(o, s, Event(ChangeDisk(changed.disk), None), changed)
    && Happens(o, changed, Event(InvalidatePaths(paths), None), t)
    && ChangedOnlyAt(o, s.disk, changed.disk, Surviving(o, paths))
  }

  lemma {:induction false} SurvivingBoth(o: Options, a: seq<Path>, b: seq<Path>)
    ensures Surviving(o, a + b) == Surviving(o, a) + Surviving(o, b)
  {
    hide Elements, ExcludesPath;
    ElementsAppend(a, b);
  }

  lemma {:induction false} ChangedTwice(o: Options, a: Node, b: Node, c: Node, first: set<Path>, second: set<Path>)
    requires ChangedOnlyAt(o, a, b, first) && ChangedOnlyAt(o, b, c, second)
    ensures ChangedOnlyAt(o, a, c, first + second)
  {
    hide GlimpseAt, Hinted;
    forall p: Path | !Hinted(first + second, p) ensures GlimpseAt(o, a, p) == GlimpseAt(o, c, p) {
      MoreHints(first, first + second, p);
      MoreHints(second, first + second, p);
    }
  }

  lemma {:induction false} FewerSettled(o: Options, base: Node, v: View, hints: set<Path>, more: set<Path>)
    requires SettledBut(o, base, v, hints) && hints <= more
    ensures SettledBut(o, base, v, more)
  {
    hide Expected, Hinted;
    forall p: Path | !Hinted(more, p) ensures Get(v.directories, p) == Expected(o, base, p) {
      MoreHints(hints, more, p);
    }
  }

  lemma {:induction false} NoticePends(o: Options, base: Node, s: State, dirty: seq<Path>, paths: seq<Path>,
                                       changed: State, t: State)
    requires Pending(o, base, s, dirty) && Usable(s) && Noticed(o, s, paths, changed, t)
    ensures Pending(o, base, t, dirty + paths) && Usable(t)
  {
    hide Scannable, Scan, Retrievable, ChangedOnlyAt, SettledBut, Cleared, FilesSound, WithoutAll, Elements, FlagsOk;
    StepFlags(o, s, Event(ChangeDisk(changed.disk), None), changed);
    StepFlags(o, changed, Event(InvalidatePaths(paths), None), t);
    var first, second := Surviving(o, dirty), Surviving(o, paths);
    SurvivingBoth(o, dirty, paths);
    ChangedTwice(o, base, s.disk, t.disk, first, second);
    FewerSettled(o, base, s.cache, first, first + second);
    InvalidationsPend(o, base, s.cache, first + second, first, paths);
  }

  /** With the reported records gone, none is stale. */
  lemma {:induction false} PendingIsTidy(o: Options, base: Node, s: State, dirty: seq<Path>)
    requires Pending(o, base, s, dirty)
    ensures Tidy(o, s.disk, s.cache)
  {
    hide Scannable, Scan, Retrievable, ChangedOnlyAt, SettledBut, Hinted, Surviving, True, Visited, FreshBut;
    var hints := Surviving(o, dirty);
    SettledButMeans(o, base, s.cache, hints);
    forall p <- s.cache.directories ensures Visited(o, s.disk, p) {
      StillVisited(o, base, s.disk, hints, p);
    }
  }

  /**
   * The capture after any number of events, from their paths or by a full walk: if it succeeds, it returns the root of
   * a full walk, retrievable, and the records are exact again.
   */
  lemma {:induction false} CaptureSettles(o: Options, base: Node, s: State, dirty: seq<Path>, hints: seq<Path>,
                                          root: Id, t: State)
    requires Pending(o, base, s, dirty) && Usable(s) && (hints == dirty || hints == [])
    requires Happens(o, s, Event(HintedCapture(hints), Some(root)), t)
    ensures InStep(o, t) && Usable(t) && t.disk == s.disk && root == Tree(Scan(o, s.disk.children))
  {
    hide Scannable, Scan, Retrievable, ChangedOnlyAt, SettledBut, Cleared, Surviving, FlagsOk, Plan, Covered, Settled,
      Keeps, FilesSound, Tidy, TakeoverJustified, Kept, Elements, PutsAncestors, RebuiltBy;
    StepFlags(o, s, Event(HintedCapture(hints), Some(root)), t);
    PendingIsTidy(o, base, s, dirty);
    if hints == dirty {
      WatchTurn(o, base, s.disk, s.store, s.cache, dirty, t.store);
      if Plan(o, s.disk, s.cache, s.store, dirty).Some? {
        PlannedIsCovered(o, s, dirty);
        PlanIsScan(o, s.disk, s.cache, s.store, dirty);
        PlanIsRetrievable(o, s.disk, s.cache, s.store, dirty);
      }
    } else {
      NoHints(o, s);
    }
  }

  lemma {:induction false} PlannedIsCovered(o: Options, s: State, hints: seq<Path>)
    requires Plan(o, s.disk, s.cache, s.store, hints).Some? && Covered(o, s.disk, s.cache, hints)
    ensures DiffersOnlyAtHints(o, s.disk, s.cache, Surviving(o, hints))
  {
    hide Surviving, Kept;
  }

  lemma {:induction false} NoHints(o: Options, s: State)
    ensures Covered(o, s.disk, s.cache, []) && Plan(o, s.disk, s.cache, s.store, []).None?
  {
  }

  /** What the loop sees: an event, a snapshot from the dirty paths, or a reconciling snapshot. */
  datatype Turn =
    | Notice(paths: seq<Path>, changed: State, after: State)
    | Snapshot(root: Option<Id>, after: State)
    | Reconcile(root: Option<Id>, after: State)

  /** The turns follow one another; the loop stops when a capture fails. */
  ghost predicate Watched(o: Options, s: State, dirty: seq<Path>, turns: seq<Turn>)
    decreases |turns|
  {
    turns == [] ||
    match turns[0]
    case Notice(paths, changed, after) =>
      Noticed(o, s, paths, changed, after) && Watched(o, after, dirty + paths, turns[1..])
    case Snapshot(root, after) =>
      && Happens(o, s, Event(HintedCapture(dirty), root), after)
      && if root.None? then turns[1..] == [] else Watched(o, after, [], turns[1..])
    case Reconcile(root, after) =>
      && Happens(o, s, Event(HintedCapture([]), root), after)
      && if root.None? then turns[1..] == [] else Watched(o, after, [], turns[1..])
  }

  /** The loop's promise at one of its turns. */
  ghost predicate TurnOk(o: Options, turn: Turn) {
    !turn.Notice? && turn.root.Some? ==>
      InStep(o, turn.after) && turn.root.value == Tree(Scan(o, turn.after.disk.children))
  }

  /** Through any run of the watch loop, every root returned is a full walk's and is retrievable. */
  lemma {:induction false} WatchLoop(o: Options, base: Node, s: State, dirty: seq<Path>, turns: seq<Turn>, i: nat)
    requires Pending(o, base, s, dirty) && Usable(s) && Watched(o, s, dirty, turns) && i < |turns|
    ensures TurnOk(o, turns[i])
    decreases i
  {
    hide Pending, InStep, Usable, Noticed, Happens, Scan;
    match turns[0] {
      case Notice(paths, changed, after) =>
        NoticePends(o, base, s, dirty, paths, changed, after);
        if i > 0 {
          WatchLoop(o, base, after, dirty + paths, turns[1..], i - 1);
        }
      case Snapshot(root, after) =>
        if root.Some? {
          CaptureSettles(o, base, s, dirty, dirty, root.value, after);
          NothingPending(o, after);
          if i > 0 {
            WatchLoop(o, after.disk, after, [], turns[1..], i - 1);
          }
        }
      case Reconcile(root, after) =>
        if root.Some? {
          CaptureSettles(o, base, s, dirty, [], root.value, after);
          NothingPending(o, after);
          if i > 0 {
            WatchLoop(o, after.disk, after, [], turns[1..], i - 1);
          }
        }
    }
  }
}
