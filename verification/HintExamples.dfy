/** Runs in which a hinted capture is not a full walk, and a materialised tree is not what a scan returns. */
module HintExamples {
  import opened Wrappers
  import opened Workspace
  import opened Ascents
  import opened CacheRecords
  import opened CacheTruth
  import opened CaptureEffects
  import opened DirectoryWalks
  import opened Capture
  import opened HintedAccuracy
  import opened HintedRecords
  import opened HintedSettling
  import opened HintedCapture
  import opened HintList
  import opened HintedPlan
  import opened HintedTree
  import opened Glimpses
  import opened HintedChanges
  import opened MaterializedTrees
  import opened Materialization
  import opened DanglingExample

  const STALE_HINT: Path := [A, F]

  const NOTHING: Entries := map[]
  const EMPTY_A: Entries := map[A := Tree(NOTHING)]

  /** After `a` was captured, removed, and the empty workspace was captured: the record of `a` is left over. */
  const STALE: Directories := map[[] := DirectoryRecord(NOTHING, true), [A] := DirectoryRecord(NOTHING, true)]

  lemma {:induction false} StaleHintProcessed(store: set<Id>)
    ensures ProcessedAll(NO_EXCLUSIONS, Dir(map[]), STALE, store, [STALE_HINT]) ==
      Some((STALE[[] := DirectoryRecord(EMPTY_A, true)], store + {Tree(NOTHING)} + {Tree(EMPTY_A)}))
  {
    hide Replace, Climb;
    assert STALE_HINT[..1] == [A] && STALE_HINT[|STALE_HINT| - 1] == F && [STALE_HINT][1..] == [];
    assert SightAt(NO_EXCLUSIONS, Dir(map[]), STALE_HINT, F) == Skipped;
    assert (map p | p in STALE && !(STALE_HINT <= p) :: STALE[p]) == STALE;
    assert Replace(NOTHING, F, Skipped) == NOTHING by { Entries(); }
    assert store + ContentsOf(Skipped) == store;
    StaleClimb(store);
  }

  lemma {:induction false} Entries()
    ensures Replace(NOTHING, F, Skipped) == NOTHING && Replace(NOTHING, A, Entry(Tree(NOTHING))) == EMPTY_A
  {
  }

  lemma {:induction false} StaleClimb(store: set<Id>)
    ensures Climb(STALE[[A] := DirectoryRecord(NOTHING, false)], store, [A]) ==
      Some((STALE[[] := DirectoryRecord(EMPTY_A, true)], store + {Tree(NOTHING)} + {Tree(EMPTY_A)}))
  {
    hide Replace;
    Entries();
    assert [A][..0] == [];
    var e := STALE[[A] := DirectoryRecord(NOTHING, false)][[A] := DirectoryRecord(NOTHING, true)];
    assert e == STALE;
    var waiting := STALE[[] := DirectoryRecord(EMPTY_A, false)];
    assert Carried(e, [], A, NOTHING) == waiting;
    assert waiting[[] := DirectoryRecord(EMPTY_A, true)] == STALE[[] := DirectoryRecord(EMPTY_A, true)];
    assert Climb(waiting, store + {Tree(NOTHING)}, [])
        == Some((STALE[[] := DirectoryRecord(EMPTY_A, true)], store + {Tree(NOTHING)} + {Tree(EMPTY_A)}));
  }

  /**
   * With a record left over, although every record of a visited directory is exact and nothing has changed on disk, a
   * hint below the directory that is gone brings it back: the answer is not the full walk's.
   */
  lemma {:induction false} StaleRecordIsRevived(v: View, store: set<Id>)
    requires v.directories == STALE
    ensures Fresh(NO_EXCLUSIONS, Dir(map[]), v) && Scan(NO_EXCLUSIONS, map[]) == NOTHING
    ensures ChangedOnlyAt(NO_EXCLUSIONS, Dir(map[]), Dir(map[]), {STALE_HINT})
    ensures !NoStaleRecords(NO_EXCLUSIONS, Dir(map[]), v, {STALE_HINT})
    ensures !DiffersOnlyAtHints(NO_EXCLUSIONS, Dir(map[]), v, {STALE_HINT})
    ensures Plan(NO_EXCLUSIONS, Dir(map[]), v, store, [STALE_HINT]) ==
      Some(Answer(Tree(EMPTY_A), store + {Tree(NOTHING)} + {Tree(EMPTY_A)}))
    ensures Tree(EMPTY_A) != Tree(Scan(NO_EXCLUSIONS, map[]))
  {
    hide ProcessedAll, DiffersOnlyAtHints, Surviving, Kept, Visited, Refreshed;
    var o, disk := NO_EXCLUSIONS, Dir(map[]);
    forall p: Path ensures Visited(o, disk, p) <==> p == [] {
      OnlyRoot(o, p);
    }
    assert Fresh(o, disk, v) by { RefreshedHere(true, o, map[], None); }
    assert !NoStaleRecords(o, disk, v, {STALE_HINT}) by {
      assert [A] < STALE_HINT && Leads({STALE_HINT}, [A]) && !Hinted({STALE_HINT}, [A]);
    }
    assert FreshBut(o, disk, v, {STALE_HINT});
    ChangesAtHintsSuffice(o, disk, disk, v, {STALE_HINT});
    assert !ExcludesPath(o, STALE_HINT) by { NothingExcluded(STALE_HINT); }
    KeptOne(o, STALE_HINT);
    StaleHintProcessed(store);
  }

  const DEEP_HINT: Path := [A, B, F]

  /** The same record does no harm under a hint that it cannot answer: a full walk is due. */
  lemma {:induction false} StaleRecordMayNotMatter(v: View, store: set<Id>)
    requires v.directories == STALE
    ensures !NoStaleRecords(NO_EXCLUSIONS, Dir(map[]), v, {DEEP_HINT})
    ensures Plan(NO_EXCLUSIONS, Dir(map[]), v, store, [DEEP_HINT]).None?
  {
    hide Surviving, Kept, SightAt, Climb;
    var o, disk := NO_EXCLUSIONS, Dir(map[]);
    assert !Visited(o, disk, [A]) by { OnlyRoot(o, [A]); }
    assert [A] < DEEP_HINT && Leads({DEEP_HINT}, [A]) && !Hinted({DEEP_HINT}, [A]);
    assert !ExcludesPath(o, DEEP_HINT) by { NothingExcluded(DEEP_HINT); }
    KeptOne(o, DEEP_HINT);
    assert DEEP_HINT[..2] == [A, B] && [A, B] !in STALE;
    assert Processed(o, disk, STALE, store, DEEP_HINT).None?;
  }

  lemma {:induction false} OnlyRoot(o: Options, p: Path)
    ensures Visited(o, Dir(map[]), p) <==> p == []
  {
  }

  /** The run: capture with `a`, capture without, capture with the hint. */
  method StaleRun() returns (m: Materializer, hinted: Result<Id, Error>)
    ensures fresh(m) && hinted == Ok(Tree(EMPTY_A)) && hinted != Ok(Tree(Scan(NO_EXCLUSIONS, map[])))
  {
    hide Scan, Scannable, Retrievable, Walked, PutsDirectory, FlagsOk, TrustKeptBelow, Plan, Covered, PutsAncestors,
      PutsClosed, Settled, FilesSound, FilesFrom, Fresh;
    var o := NO_EXCLUSIONS;
    m := new Materializer(o, NO_RECORDS, {});
    EmptyScans();
    var with, none := Dir(map[A := Dir(map[])]), Dir(map[]);
    NothingToSound(with);
    NothingToSound(none);
    var first := CaptureTree(m, with);
    ghost var captured, store := m.cache, m.store;
    assert FilesSound(none, captured) by {
      assert Trusts(with, none);
      SoundElsewhere(with, none, NO_RECORDS, captured);
    }
    var second := CaptureTree(m, none);
    KeepsSound(none, captured, store, m.cache, m.store);
    LeftOver(captured, m.cache);
    StaleRecordIsRevived(m.cache, m.store);
    hinted := CaptureTreeWithHints(m, none, [STALE_HINT]);
  }

  lemma {:induction false} EmptyScans()
    ensures Scannable(NO_EXCLUSIONS, map[]) && Scannable(NO_EXCLUSIONS, map[A := Dir(map[])])
    ensures Scan(NO_EXCLUSIONS, map[]) == NOTHING
  {
  }

  lemma {:induction false} LeftOver(v: View, w: View)
    requires Walked(true, NO_EXCLUSIONS, NO_RECORDS, v, [], Dir(map[A := Dir(map[])]))
    requires Walked(true, NO_EXCLUSIONS, v, w, [], Dir(map[]))
    ensures w.directories == STALE
  {
    hide Visited, At, Scan;
    EmptyScans();
    var o, with, none := NO_EXCLUSIONS, Dir(map[A := Dir(map[])]), Dir(map[]);
    assert At(with, [A]) == Some(none) && At(none, []) == Some(none) by { InWith(); }
    forall p: Path ensures Get(w.directories, p) == Get(STALE, p) {
      assert p[0..] == p && [] <= p;
      assert Get(v.directories, p) == AfterWalk(true, o, NO_RECORDS, [], with, p);
      assert Get(w.directories, p) == AfterWalk(true, o, v, [], none, p);
      OnlyRoot(o, p);
      RootAndA(p);
    }
    EqualRecords(w.directories, STALE);
  }

  lemma {:induction false} InWith()
    ensures At(Dir(map[A := Dir(map[])]), [A]) == Some(Dir(map[])) && At(Dir(map[]), []) == Some(Dir(map[]))
  {
    assert [A][1..] == [];
  }

  lemma {:induction false} RootAndA(p: Path)
    ensures Visited(NO_EXCLUSIONS, Dir(map[A := Dir(map[])]), p) <==> p in {[], [A]}
  {
    if p != [] {
      HeadAndRest(p, A, []);
      assert [A] + [] == [A];
      OnlyRoot(NO_EXCLUSIONS, p[1..]);
    }
  }

  /** `x` is excluded as a directory name, and a plain file has that name. */
  const X_EXCLUDED: Options := Options({X}, SkipSymlinks)
  const FIRST: map<Name, Node> := map[X := File([0], 1)]
  const SECOND: map<Name, Node> := map[X := File([1], 2)]
  const FIRST_ENTRIES: Entries := map[X := Blob([0])]
  const SECOND_ENTRIES: Entries := map[X := Blob([1])]

  lemma {:induction false} FileScans()
    ensures Scannable(X_EXCLUDED, FIRST) && Scan(X_EXCLUDED, FIRST) == FIRST_ENTRIES
    ensures Scannable(X_EXCLUDED, SECOND) && Scan(X_EXCLUDED, SECOND) == SECOND_ENTRIES
  {
    assert See(X_EXCLUDED, X, File([0], 1)) == Entry(Blob([0]));
    assert See(X_EXCLUDED, X, File([1], 2)) == Entry(Blob([1]));
  }

  /** The file changes and is hinted, its hint is dropped, and the capture answers with the root of before. */
  lemma {:induction false} ExcludedFileIsMissed(v: View, store: set<Id>)
    requires Get(v.directories, []) == Some(DirectoryRecord(FIRST_ENTRIES, true))
    ensures ChangedOnlyAt(X_EXCLUDED, Dir(FIRST), Dir(SECOND), Elements([[X]]))
    ensures Misses(X_EXCLUDED, Dir(FIRST), Dir(SECOND), [[X]], [X])
    ensures !ChangedOnlyAt(X_EXCLUDED, Dir(FIRST), Dir(SECOND), Surviving(X_EXCLUDED, [[X]]))
    ensures Plan(X_EXCLUDED, Dir(SECOND), v, store, [[X]]) == Some(Answer(Tree(FIRST_ENTRIES), store))
    ensures Tree(FIRST_ENTRIES) != Tree(Scan(X_EXCLUDED, SECOND))
  {
    hide Scan, Surviving, Kept, ProcessedAll;
    FileScans();
    assert FIRST_ENTRIES[X] != SECOND_ENTRIES[X];
    KeptOne(X_EXCLUDED, [X]);
    One([X]);
    forall p: Path | !Hinted({[X]}, p)
      ensures GlimpseAt(X_EXCLUDED, Dir(FIRST), p) == GlimpseAt(X_EXCLUDED, Dir(SECOND), p)
    {
      assert p != [] && p[0] == X ==> [X] <= p;
    }
    assert [X][1..] == [];
    assert GlimpseAt(X_EXCLUDED, Dir(FIRST), [X]) == Content([0]);
    assert GlimpseAt(X_EXCLUDED, Dir(SECOND), [X]) == Content([1]);
    SurvivingHintsSuffice(X_EXCLUDED, Dir(FIRST), Dir(SECOND), [[X]]);
  }

  /** The run: capture, edit, capture with the hint. */
  method ExcludedFileRun() returns (m: Materializer, hinted: Result<Id, Error>)
    ensures fresh(m) && hinted == Ok(Tree(FIRST_ENTRIES)) && hinted != Ok(Tree(Scan(X_EXCLUDED, SECOND)))
  {
    hide Scan, Scannable, Retrievable, Walked, PutsDirectory, FlagsOk, TrustKeptBelow, Plan, Covered, PutsAncestors,
      PutsClosed, Settled, FilesSound, FilesFrom, Misses, ChangedOnlyAt;
    m := new Materializer(X_EXCLUDED, NO_RECORDS, {});
    FileScans();
    NothingToSound(Dir(FIRST));
    NothingToSound(Dir(SECOND));
    var first := CaptureTree(m, Dir(FIRST));
    assert FilesSound(Dir(SECOND), m.cache) by {
      assert Trusts(Dir(FIRST), Dir(SECOND));
      SoundElsewhere(Dir(FIRST), Dir(SECOND), NO_RECORDS, m.cache);
    }
    RootCaptured(m.cache);
    ExcludedFileIsMissed(m.cache, m.store);
    hinted := CaptureTreeWithHints(m, Dir(SECOND), [[X]]);
  }

  lemma {:induction false} RootCaptured(w: View)
    requires Walked(true, X_EXCLUDED, NO_RECORDS, w, [], Dir(FIRST))
    ensures Get(w.directories, []) == Some(DirectoryRecord(FIRST_ENTRIES, true))
  {
    hide Scan, Scannable;
    FileScans();
    assert Get(w.directories, []) == AfterWalk(true, X_EXCLUDED, NO_RECORDS, [], Dir(FIRST), []);
    RefreshedHere(true, X_EXCLUDED, FIRST, None);
  }

  const EXCLUDED_TARGET: Entries := map[X := Tree(NOTHING)]

  /** A tree with a directory that scans skip is laid, and the scan does not return it. */
  method ExcludedTargetRun() returns (m: Materializer, disk: Node, error: Option<Error>)
    ensures fresh(m) && error.None? && disk.Dir? && Scan(X_EXCLUDED, disk.children) != EXCLUDED_TARGET
  {
    hide Scan, Scannable, FlagsOk, LayDirectory, FilesSound, PutsDirectory, Fresh, Settled, MaterializedTrees.Matches;
    m := new Materializer(X_EXCLUDED, NO_RECORDS, {Tree(NOTHING), Tree(EXCLUDED_TARGET)});
    NothingToSound(Dir(map[]));
    assert Retrievable(m.store, Tree(EXCLUDED_TARGET));
    RetrievableIsLaid(X_EXCLUDED, m.store, Tree(EXCLUDED_TARGET), Some(Dir(map[])));
    assert LayDirectory(X_EXCLUDED, m.store, EXCLUDED_TARGET, map[]).done;
    assert !Includable(X_EXCLUDED, EXCLUDED_TARGET) by {
      assert !EntryIncludable(X_EXCLUDED, X, EXCLUDED_TARGET[X]);
    }
    disk, error := MaterializeTree(m, Dir(map[]), EXCLUDED_TARGET);
  }
}
