/** Capturing a whole workspace from change hints, against a full walk. */
module HintedTree {
  import opened Wrappers
  import opened Workspace
  import opened CacheRecords
  import opened CacheTruth
  import opened CaptureEffects
  import opened DirectoryWalks
  import opened Capture
  import opened HintedAccuracy
  import opened HintedRecords
  import opened HintedWeave
  import opened HintedSettling
  import opened HintedCapture
  import opened HintList
  import opened HintedPlan
  import opened Ascents

  /** Processing a hint depends only on the records above it. */
  lemma {:induction false} ProcessedAgrees(o: Options, disk: Node, d: Directories, e: Directories, store: set<Id>,
                                           hints: set<Path>, h: Path)
    requires AgreeAbove(hints, d, e) && h in hints && h != [] && Antichain(hints)
    ensures var a, b := Processed(o, disk, d, store, h), Processed(o, disk, e, store, h);
      && a.Some? == b.Some? && (a.Some? ==> a.value.1 == b.value.1 && AgreeAbove(hints, a.value.0, b.value.0))
    ensures ProcessedTrees(o, disk, d, h) == ProcessedTrees(o, disk, e, h)
  {
    hide SightAt, Replace, Climb, ClimbTrees, Antichain, ContentsOf, Consulted;
    var parent, name, sight := h[..|h| - 1], h[|h| - 1], SightAt(o, disk, h, h[|h| - 1]);
    assert parent < h && !(h <= parent);
    IsConsulted(hints, h, parent);
    assert Get(d, parent) == Get(e, parent);
    var left, left' := map p | p in d && !(h <= p) :: d[p], map p | p in e && !(h <= p) :: e[p];
    assert Get(left, parent) == Get(left', parent);
    if parent in left && left[parent].stored && !sight.Unreadable? {
      var record := DirectoryRecord(Replace(left[parent].entries, name, sight), false);
      LeftAgrees(hints, d, e, left, left', h, parent, record);
      ClimbAgrees(hints, left[parent := record], left'[parent := record], store + ContentsOf(sight), parent, h);
    }
  }

  lemma {:induction false} LeftAgrees(hints: set<Path>, d: Directories, e: Directories, left: Directories,
                                      left': Directories, h: Path, parent: Path, record: DirectoryRecord)
    requires AgreeAbove(hints, d, e) && h in hints && h != [] && Antichain(hints)
    requires left == map p | p in d && !(h <= p) :: d[p]
    requires left' == map p | p in e && !(h <= p) :: e[p]
    ensures AgreeAbove(hints, left[parent := record], left'[parent := record])
  {
    hide Antichain, Consulted;
    forall p: Path | Consulted(hints, p) ensures Get(left[parent := record], p) == Get(left'[parent := record], p) {
      NotAbove(hints, h, p);
      assert Get(d, p) == Get(e, p);
    }
  }

  /** What is left to compute of the hints, while the actual records agree with the computed ones. */
  ghost predicate OnTrack(o: Options, disk: Node, all: set<Path>, v: View, store: set<Id>, d: Directories,
                          rest: seq<Path>, end: Option<(Directories, set<Id>)>, trees: set<Id>) {
    && AgreeAbove(all, d, v.directories) && ProcessedAll(o, disk, d, store, rest) == end
    && RebuiltAll(o, disk, d, store, rest) == trees
  }

  /** One more hint: the trees it put, and those still to be put. */
  lemma {:induction false} StaysOnTrack(o: Options, disk: Node, all: set<Path>, v: View, store: set<Id>, w: View,
                                        more: set<Id>, d: Directories, rest: seq<Path>,
                                        end: Option<(Directories, set<Id>)>, trees: set<Id>, done: bool)
    returns (next: Directories, left: set<Id>)
    requires OnTrack(o, disk, all, v, store, d, rest, end, trees) && rest != [] && rest[0] != []
    requires rest[0] in all && Antichain(all)
    requires AsProcessed(all, Processed(o, disk, v.directories, store, rest[0]), done, w.directories, more)
    ensures done ==> OnTrack(o, disk, all, w, more, next, rest[1..], end, left)
    ensures !done ==> end.None? && left == {}
    ensures trees == ProcessedTrees(o, disk, v.directories, rest[0]) + left
  {
    hide Processed, ProcessedTrees, Antichain, Consulted;
    ProcessedAgrees(o, disk, d, v.directories, store, all, rest[0]);
    var step := Processed(o, disk, d, store, rest[0]);
    next := if step.Some? then step.value.0 else d;
    left := if step.Some? then RebuiltAll(o, disk, step.value.0, step.value.1, rest[1..]) else {};
  }

  /** Through all the hints: the outcome, the records and the store are those computed beforehand. */
  method CaptureHintedPaths(m: Materializer, disk: Node, hints: seq<Path>) returns (r: Result<Option<Id>, Error>)
    requires FilesSound(disk, m.cache) && disk.Dir? && hints != []
    requires [] in Elements(hints) ==> hints[0] == []
    requires [] !in Elements(hints) ==> Antichain(Elements(hints))
    modifies m
    ensures Keeps(disk, old(m.cache), old(m.store), m.cache, m.store)
    ensures var end := ProcessedAll(m.options, disk, old(m.cache.directories), old(m.store), hints);
      && ((r.Ok? && r.value.Some?) == (RootStored(old(m.cache.directories)) && end.Some?))
      && (r.Ok? && r.value.Some? ==>
          RootEntries(end.value.0) == RootEntries(m.cache.directories) && m.store == end.value.1)
    ensures r.Ok? && r.value.Some? ==> [] !in Elements(hints)
    ensures r.Ok? && r.value.Some? ==>
      RootPut(m.cache, m.store) && r.value.value == Tree(m.cache.directories[[]].entries)
    ensures (r.Ok? && r.value.Some? && old(Agreement(m.options, disk, m.cache.directories, Elements(hints)))
             && old(Settled(m.options, disk, m.cache, Elements(hints)))) ==>
      Settled(m.options, disk, m.cache, {})
    ensures r.Ok? && old(Tidy(m.options, disk, m.cache)) ==> Tidy(m.options, disk, m.cache)
    ensures r.Err? ==> [] !in Elements(hints) && AnyFails(m.options, disk, old(m.cache), Elements(hints))
    ensures PutsAncestors(old(m.cache), old(m.store), m.store,
                          RebuiltBy(m.options, disk, old(m.cache), old(m.store), hints))
  {
    hide Tidy, FilesSound, Antichain, Elements, SameRecords, Keeps, Settled, OnTrack, AgreeAbove, ProcessedAll,
      RootPut, HintDone, Agreement, HintFails, PutsAncestors, RebuiltAll, SettledAside, Visited, Processed,
      ProcessedTrees;
    ghost var o, before, stored, all := m.options, m.cache, m.store, Elements(hints);
    ghost var end := ProcessedAll(o, disk, before.directories, stored, hints);
    KeepsReflexive(disk, before, stored);
    SameRecordsReflexive(all, before);
    PutsNoAncestors(before, stored, stored);
    if [] !in m.cache.directories || !m.cache.directories[[]].stored {
      return Ok(None);
    }
    FirstElement(hints);
    if hints[0] == [] {
      RootHinted(o, disk, before.directories, stored, hints);
      return Ok(None);
    }
    var i: nat := 0;
    assert hints[0..] == hints;
    ghost var d, done, left := before.directories, {}, RebuiltAll(o, disk, before.directories, stored, hints);
    TrackStarts(o, disk, all, before, stored, hints, end, left);
    ghost var settled := Agreement(o, disk, before.directories, all) && Settled(o, disk, before, all);
    if settled {
      AsideStarts(o, disk, before, all);
    }
    while i < |hints|
      invariant i <= |hints| && [] !in all && Antichain(all)
      invariant Keeps(disk, before, stored, m.cache, m.store) && SameRecords(all, before, m.cache)
      invariant OnTrack(o, disk, all, m.cache, m.store, d, hints[i..], end, left)
      invariant PutsAncestors(before, stored, m.store, done)
      invariant done + left == RebuiltAll(o, disk, before.directories, stored, hints)
      invariant settled ==> SettledAside(o, disk, m.cache, all, Elements(hints[i..]))
      invariant Tidy(o, disk, before) ==> Tidy(o, disk, m.cache)
      invariant i > 0 ==> RootPut(m.cache, m.store)
    {
      RestStep(hints, i);
      KeepsSound(disk, before, stored, m.cache, m.store);
      ghost var turn, held := m.cache, m.store;
      var step := CaptureHintedPath(m, disk, all, hints[i]);
      ghost var put := ProcessedTrees(o, disk, turn.directories, hints[i]);
      PutsAncestorsJoins(disk, before, stored, turn, held, m.store, done, put);
      KeepsJoins(disk, before, stored, turn, held, m.cache, m.store);
      d, left := StaysOnTrack(o, disk, all, turn, held, m.cache, m.store, d, hints[i..], end, left, step == Ok(true));
      done := done + put;
      assert done + left == RebuiltAll(o, disk, before.directories, stored, hints);
      if step.Err? {
        FailedBefore(o, disk, all, before, turn, hints[i]);
        return Err(step.error);
      }
      if !step.value {
        assert done + {} == done;
        return Ok(None);
      }
      if settled {
        ParentVisited(o, disk, all, before, turn, m.store, held, hints[i]);
        AsideNext(o, disk, turn, m.cache, all, Elements(hints[i + 1..]), hints[i]);
      }
      SameRecordsJoin(all, before, turn, m.cache);
      i := i + 1;
    }
    assert hints[i..] == [];
    NoneLeft(hints);
    TrackEnds(o, disk, all, m.cache, m.store, d, end, left);
    RootIsThere(m.cache, m.store);
    if settled {
      SettledAbove(o, disk, before.directories, stored, hints, m.cache);
      AsideEnds(o, disk, m.cache, all);
    }
    r := Ok(Some(Tree(m.cache.directories[[]].entries)));
  }

  /** Some hint cannot be captured. */
  ghost predicate AnyFails(o: Options, disk: Node, v: View, hints: set<Path>) {
    exists h <- hints :: h != [] && HintFails(o, disk, v, h)
  }

  lemma {:induction false} FailedBefore(o: Options, disk: Node, all: set<Path>, v: View, w: View, h: Path)
    requires SameRecords(all, v, w) && h in all && h != [] && HintFails(o, disk, w, h)
    ensures AnyFails(o, disk, v, all)
  {
    hide SightAt, Orphan;
    SameAbove(all, v, w, h);
    assert h[..|h| - 1] < h;
    if Orphan(w, h) {
      OrphanedBefore(all, h, v, w);
    }
    assert HintFails(o, disk, v, h);
  }

  lemma {:induction false} PutsAncestorsJoins(disk: Node, u: View, s: set<Id>, v: View, t: set<Id>, x: set<Id>,
                                              first: set<Id>, second: set<Id>)
    requires Keeps(disk, u, s, v, t) && PutsAncestors(u, s, t, first) && PutsAncestors(v, t, x, second)
    ensures PutsAncestors(u, s, x, first + second)
  {
    hide FlagsOk, Grounded, FilesSound, FilesFrom;
    if FlagsOk(s, u) {
      GroundedJoins(s, t, x, first, second);
      assert t <= x by { GroundedGrows(t, x, second); }
    }
  }

  lemma {:induction false} GroundedGrows(store: set<Id>, more: set<Id>, open: set<Id>)
    requires Grounded(store, more, open)
    ensures store <= more
  {
  }

  /** Where consulted records agree with the disk, a hint that could be processed has a visited parent. */
  lemma {:induction false} ParentVisited(o: Options, disk: Node, all: set<Path>, v: View, w: View, more: set<Id>,
                                         store: set<Id>, h: Path)
    requires Agreement(o, disk, v.directories, all) && SameRecords(all, v, w) && h in all && h != []
    requires Processed(o, disk, w.directories, store, h).Some?
    ensures Visited(o, disk, h[..|h| - 1])
  {
    hide Visited, At, SightAt, Climb, Matches, Touched;
    var parent := h[..|h| - 1];
    assert parent < h;
    IsConsulted(all, h, parent);
    assert parent in w.directories;
    assert Accurate(o, disk, parent, v.directories[parent].entries, all);
  }

  /** After all the hints, the records above them are exactly a full walk's. */
  lemma {:induction false} SettledAbove(o: Options, disk: Node, d: Directories, store: set<Id>, hints: seq<Path>,
                                        w: View)
    requires Agreement(o, disk, d, Elements(hints)) && Antichain(Elements(hints)) && hints != [] && disk.Dir?
    requires [] !in Elements(hints) && ProcessedAll(o, disk, d, store, hints).Some?
    requires AgreeAbove(Elements(hints), ProcessedAll(o, disk, d, store, hints).value.0, w.directories)
    ensures forall p: Path :: Consulted(Elements(hints), p) ==> Get(w.directories, p) == Expected(o, disk, p)
  {
    hide ProcessedAll, Agreement, Antichain, Scan, Visited, At, Scannable, Elements, Woven;
    var all := Elements(hints);
    var (e, after) := ProcessedAll(o, disk, d, store, hints).value;
    HintsWeave(o, disk, d, store, hints);
    FirstElement(hints);
    forall p: Path | Consulted(all, p) ensures Get(w.directories, p) == Expected(o, disk, p) {
      assert Leads(all, p) by { assert p == [] ==> p < hints[0]; }
      WovenIsStored(o, disk, d, e, after, all, p);
      WovenIsScan(o, disk, d, e, after, all, p);
      assert Get(e, p) == Get(w.directories, p);
    }
  }

  lemma {:induction false} WovenIsStored(o: Options, disk: Node, d: Directories, e: Directories, after: set<Id>,
                                         all: set<Path>, p: Path)
    requires Woven(o, disk, d, e, after, all, all) && Leads(all, p)
    ensures p in e && e[p].stored
  {
    hide WovenAt, Seen, Consulted;
  }

  lemma {:induction false} TrackStarts(o: Options, disk: Node, all: set<Path>, v: View, store: set<Id>,
                                       hints: seq<Path>, end: Option<(Directories, set<Id>)>, trees: set<Id>)
    requires end == ProcessedAll(o, disk, v.directories, store, hints)
    requires trees == RebuiltAll(o, disk, v.directories, store, hints)
    ensures OnTrack(o, disk, all, v, store, v.directories, hints, end, trees)
  {
  }

  lemma {:induction false} TrackEnds(o: Options, disk: Node, all: set<Path>, v: View, store: set<Id>, d: Directories,
                                     end: Option<(Directories, set<Id>)>, trees: set<Id>)
    requires OnTrack(o, disk, all, v, store, d, [], end, trees)
    ensures end == Some((d, store)) && RootEntries(d) == RootEntries(v.directories) && trees == {}
    ensures AgreeAbove(all, d, v.directories)
  {
    assert Consulted(all, []);
    assert Get(d, []) == Get(v.directories, []);
  }

  lemma {:induction false} RootIsThere(v: View, store: set<Id>)
    requires RootPut(v, store)
    ensures [] in v.directories
  {
  }

  lemma {:induction false} RestStep(hints: seq<Path>, i: nat)
    requires i < |hints|
    ensures Elements(hints[i..]) == Elements(hints[i + 1..]) + {hints[i]} && hints[i] in Elements(hints)
    ensures hints[i..] != [] && hints[i..][0] == hints[i] && hints[i..][1..] == hints[i + 1..]
  {
    assert hints[i..][1..] == hints[i + 1..];
    ElementsAt(hints, i);
  }

  lemma {:induction false} NoneLeft(hints: seq<Path>)
    ensures Elements(hints[|hints|..]) == {}
  {
  }

  /** A full walk of the workspace; its root is retrievable exactly when all it took on trust was stored. */
  method CaptureTree(m: Materializer, disk: Node) returns (r: Result<Id, Error>)
    requires FilesSound(disk, m.cache) && disk.Dir?
    modifies m
    ensures Keeps(disk, old(m.cache), old(m.store), m.cache, m.store)
    ensures PutsClosed(old(m.cache), old(m.store), m.store)
    ensures r.Ok? == Scannable(m.options, disk.children)
    ensures r.Ok? ==> r.value == Tree(Scan(m.options, disk.children))
    ensures r.Ok? ==> Walked(true, m.options, old(m.cache), m.cache, [], disk)
    ensures r.Ok? ==> m.store == old(m.store) + PutsDirectory(m.options, old(m.cache), [], disk.children)
    ensures r.Ok? ==> (Retrievable(m.store, r.value) <==>
      TrustKeptBelow(m.options, old(m.cache), old(m.store) + PutsDirectory(m.options, old(m.cache), [], disk.children),
                     [], disk.children))
    ensures r.Ok? && old(FlagsOk(m.store, m.cache)) ==> Retrievable(m.store, r.value)
  {
    hide FilesSound, Scannable, Scan, Retrievable, Walked, PutsDirectory, TrustKeptBelow, Keeps, FlagsOk, PutsClosed;
    ghost var before, stored := m.cache, m.store;
    r := CaptureDirectory(m, disk, [], disk.children);
    if r.Ok? {
      DirectoryByTrust(m.options, before, m.store, [], disk.children);
      if FlagsOk(stored, before) {
        FlagsGrow(stored, m.store, before);
        FlagsJustifyBelow(m.options, disk, before, m.store, [], disk.children);
      }
    }
  }

  /** With nothing hinted that survives, a stored root record is trusted as it is. */
  method StoredRoot(m: Materializer) returns (root: Option<Id>)
    ensures root.Some? == RootStored(m.cache.directories)
    ensures root.Some? ==> root.value == Tree(m.cache.directories[[]].entries)
  {
    if [] !in m.cache.directories || !m.cache.directories[[]].stored {
      return None;
    }
    root := Some(Tree(m.cache.directories[[]].entries));
  }

  /**
   * Hinted capture. Whether it answers from the hints, the root it then returns, the store it leaves and whether that
   * root is retrievable are all computed beforehand from the cache, the store, the disk and the hints; otherwise it is
   * a full walk. If records and disk differ only at or below surviving hints, an answer is the root of a full walk. If
   * the records away from the hints are exactly a full walk's, they all are afterwards; and after a full walk they are,
   * unless some were stale before. From true flags, only rebuilt ancestors may name objects that are not stored.
   */
  method CaptureTreeWithHints(m: Materializer, disk: Node, hints: seq<Path>) returns (r: Result<Id, Error>)
    requires FilesSound(disk, m.cache) && disk.Dir?
    modifies m
    ensures Keeps(disk, old(m.cache), old(m.store), m.cache, m.store)
    ensures var plan := Plan(m.options, disk, old(m.cache), old(m.store), hints);
      plan.Some? ==>
        && r.Ok? && r.value == plan.value.root && m.store == plan.value.store
        && (Retrievable(m.store, r.value) <==> TakeoverJustified(m.options, old(m.cache), plan.value.store, hints))
    ensures var plan := Plan(m.options, disk, old(m.cache), old(m.store), hints);
      plan.None? && r.Ok? ==>
        && Scannable(m.options, disk.children) && r.value == Tree(Scan(m.options, disk.children))
        && (old(FlagsOk(m.store, m.cache)) ==> Retrievable(m.store, r.value))
    ensures r.Ok? && old(Covered(m.options, disk, m.cache, hints)) ==>
      Scannable(m.options, disk.children) && r.value == Tree(Scan(m.options, disk.children))
    ensures var plan := Plan(m.options, disk, old(m.cache), old(m.store), hints);
      plan.Some? && Scannable(m.options, disk.children) && r.value == Tree(Scan(m.options, disk.children)) ==>
        old(Covered(m.options, disk, m.cache, hints))
    ensures var plan := Plan(m.options, disk, old(m.cache), old(m.store), hints);
      (r.Ok? && old(Covered(m.options, disk, m.cache, hints))
        && if plan.Some? then old(Settled(m.options, disk, m.cache, Elements(Kept(m.options, hints))))
           else old(Tidy(m.options, disk, m.cache)))
      ==> Settled(m.options, disk, m.cache, {})
    ensures r.Err? && old(Covered(m.options, disk, m.cache, hints)) ==>
      Unscannable(m.options, disk) || AnyOrphan(old(m.cache), Surviving(m.options, hints))
    ensures PutsAncestors(old(m.cache), old(m.store), m.store,
                          RebuiltBy(m.options, disk, old(m.cache), old(m.store), Kept(m.options, hints)))
  {
    hide FilesSound, Scannable, Scan, Retrievable, DiffersOnlyAtHints, Surviving, Antichain, Elements, Keeps, Settled,
      ProcessedAll, Kept, Unscannable, AnyOrphan, AnyFails, FlagsOk, RootPut, Tidy, Walked, Fresh, TakeoverJustified,
      Agreement, PutsAncestors, RebuiltAll, PutsClosed, AllRepresented;
    ghost var o, before, stored := m.options, m.cache, m.store;
    ghost var trees := RebuiltBy(o, disk, before, stored, Kept(o, hints));
    KeepsReflexive(disk, before, stored);
    PutsNoAncestors(before, stored, stored);
    NothingRebuilt(o, disk, before.directories, stored);
    NoneKept(o);
    if hints != [] {
      var kept := NormalizeHints(m.options, hints);
      KeptCases(o, hints);
      FirstElement(kept);
      if [] !in Elements(kept) && DiffersOnlyAtHints(o, disk, before, Surviving(o, hints)) {
        KeptHintsSuffice(o, disk, before, Surviving(o, hints), Elements(kept));
      }
      var root: Option<Id>;
      if kept == [] {
        root := StoredRoot(m);
      } else {
        var hinted := CaptureHintedPaths(m, disk, kept);
        if hinted.Err? {
          FailureExplained(o, disk, before, hints);
          return Err(hinted.error);
        }
        root := hinted.value;
        if root.Some? {
          RootIsThere(m.cache, m.store);
        }
      }
      if root.Some? {
        PlanIsRetrievable(o, disk, before, stored, hints);
        RightExactlyWhenCovered(o, disk, before, stored, hints);
        return Ok(root.value);
      }
    }
    ghost var turn, held := m.cache, m.store;
    KeepsSound(disk, before, stored, turn, held);
    r := CaptureTree(m, disk);
    PutsAncestorsWalked(disk, before, stored, turn, held, m.store, trees);
    KeepsJoins(disk, before, stored, turn, held, m.cache, m.store);
    KeepsFlags(disk, before, stored, turn, held);
    if r.Ok? && Tidy(o, disk, turn) {
      WalkKeepsStale(o, turn, m.cache, disk);
      SettledMeans(o, disk, m.cache);
    }
    Unscanned(o, disk);
  }

  ghost predicate AnyOrphan(v: View, hints: set<Path>) {
    exists h <- hints :: Orphan(v, h)
  }

  lemma {:induction false} KeepsFlags(disk: Node, v: View, store: set<Id>, w: View, more: set<Id>)
    requires Keeps(disk, v, store, w, more)
    ensures FlagsOk(store, v) ==> FlagsOk(more, w)
  {
  }

  lemma {:induction false} Unscanned(o: Options, disk: Node)
    requires disk.Dir?
    ensures !Scannable(o, disk.children) ==> Unscannable(o, disk)
  {
  }

  lemma {:induction false} NothingRebuilt(o: Options, disk: Node, d: Directories, store: set<Id>)
    ensures RebuiltAll(o, disk, d, store, []) == {}
  {
  }

  lemma {:induction false} NoneKept(o: Options)
    ensures Kept(o, []) == []
  {
    hide Compact;
    PathsAreOrdered();
    assert Surviving(o, []) == {};
    Nothing(PathLeq);
    AscendingIsUnique(PathLeq, Listing(PathLeq, {}), []);
    assert Compact([], []) == [] by { CompactNothing(); }
  }

  lemma {:induction false} CompactNothing()
    ensures Compact([], []) == []
  {
  }

  lemma {:induction false} PutsAncestorsWalked(disk: Node, u: View, s: set<Id>, v: View, t: set<Id>, x: set<Id>,
                                               trees: set<Id>)
    requires Keeps(disk, u, s, v, t) && PutsAncestors(u, s, t, trees) && PutsClosed(v, t, x)
    ensures PutsAncestors(u, s, x, trees)
  {
    hide FlagsOk, Grounded, FilesSound, FilesFrom;
    if FlagsOk(s, u) {
      GroundedJoins(s, t, x, trees, {});
      assert trees + {} == trees;
      GroundedGrows(t, x, {});
    }
  }

  /** Where the hints cover every difference, a hint fails only if a full walk does or an ancestor record is missing. */
  lemma {:induction false} FailureExplained(o: Options, disk: Node, v: View, hints: seq<Path>)
    requires disk.Dir? && [] !in Elements(Kept(o, hints)) && AnyFails(o, disk, v, Elements(Kept(o, hints)))
    ensures DiffersOnlyAtHints(o, disk, v, Surviving(o, hints)) ==>
      Unscannable(o, disk) || AnyOrphan(v, Surviving(o, hints))
  {
    hide DiffersOnlyAtHints, Surviving, Kept, Elements, Unscannable, SightAt, Visited, At, Look, Orphan, Matches,
      Touched, Normalized;
    var survivors, kept := Surviving(o, hints), Elements(Kept(o, hints));
    KeptCases(o, hints);
    var h :| h in kept && h != [] && HintFails(o, disk, v, h);
    if DiffersOnlyAtHints(o, disk, v, survivors) && !Orphan(v, h) {
      var parent, name := h[..|h| - 1], h[|h| - 1];
      assert h == parent + [name];
      KeptHintsSuffice(o, disk, v, survivors, kept);
      IsConsulted(kept, h, parent);
      assert Accurate(o, disk, parent, v.directories[parent].entries, kept);
      var children := At(disk, parent).value.children;
      SightIsLook(o, disk, parent, children, name);
      UnreadableBelow(o, disk, parent, children, name);
    }
  }
}
