/**
 * A run that ends with roots that are not retrievable. A comparison hashes the new content of `a/x` without putting it
 * and is cut short before it reaches the root; a hinted capture below `a` then puts the tree of `a` as recorded; and
 * materialising the root that it returned vouches for the missing content, so that a full capture returns it too.
 */
module DanglingExample {
  import opened Wrappers
  import opened Bytes
  import opened Workspace
  import opened CacheRecords
  import opened CacheTruth
  import opened CaptureEffects
  import opened DirectoryWalks
  import opened Capture
  import opened HintedAccuracy
  import opened HintedRecords
  import opened HintedSettling
  import opened HintedCapture
  import opened HintList
  import opened HintedPlan
  import opened HintedTree
  import opened Comparison
  import opened MaterializedTrees
  import opened Materialization

  const A: Name := [97]
  const B: Name := [98]
  const F: Name := [102]
  const X: Name := [120]

  const NO_EXCLUSIONS: Options := Options({}, SkipSymlinks)
  const NO_RECORDS: View := View(map[], map[])

  /** What is captured at first; then `a/x` is edited; then `a/b/f` is removed. */
  const BEFORE_B: map<Name, Node> := map[F := File([2], 1)]
  const BEFORE_A: map<Name, Node> := map[B := Dir(BEFORE_B), X := File([0], 2)]
  const BEFORE: map<Name, Node> := map[A := Dir(BEFORE_A)]
  const EDITED_A: map<Name, Node> := map[B := Dir(BEFORE_B), X := File([1], 7)]
  const EDITED: map<Name, Node> := map[A := Dir(EDITED_A)]
  const AFTER_A: map<Name, Node> := map[B := Dir(map[]), X := File([1], 7)]
  const AFTER: map<Name, Node> := map[A := Dir(AFTER_A)]

  const HINT: Path := [A, B, F]

  const OLD_B: Id := Tree(map[F := Blob([2])])
  const OLD_A: Id := Tree(map[B := OLD_B, X := Blob([0])])
  const OLD_ROOT: Id := Tree(map[A := OLD_A])
  const EDITED_ENTRIES: Entries := map[B := OLD_B, X := Blob([1])]
  const NEW_B: Id := Tree(map[])
  const NEW_A: Id := Tree(map[B := NEW_B, X := Blob([1])])
  const NEW_ROOT: Id := Tree(map[A := NEW_A])

  /** Records of the root, of `a` and of `a/b`. */
  function Records(root: DirectoryRecord, a: DirectoryRecord, b: DirectoryRecord): (d: Directories) {
    map[[] := root, [A] := a, [A, B] := b]
  }

  /** After the comparison: the record of `a` names the new content of `x` and is not stored. */
  const COMPARED: Directories :=
    Records(DirectoryRecord(OLD_ROOT.entries, true), DirectoryRecord(EDITED_ENTRIES, false),
            DirectoryRecord(OLD_B.entries, true))

  lemma {:induction false} FromB(root: DirectoryRecord, a: DirectoryRecord, b: DirectoryRecord, store: set<Id>)
    ensures Climb(Records(root, a, b), store, [A, B]) ==
      Climb(Records(root, DirectoryRecord(Replace(a.entries, B, Entry(Tree(b.entries))), false),
                    DirectoryRecord(b.entries, true)), PutUnlessStored(store, b), [A])
  {
    hide Replace;
    assert [A, B][..1] == [A];
    assert Carried(Records(root, a, b)[[A, B] := DirectoryRecord(b.entries, true)], [A], B, b.entries)
        == Records(root, DirectoryRecord(Replace(a.entries, B, Entry(Tree(b.entries))), false),
                   DirectoryRecord(b.entries, true));
  }

  lemma {:induction false} FromA(root: DirectoryRecord, a: DirectoryRecord, b: DirectoryRecord, store: set<Id>)
    ensures Climb(Records(root, a, b), store, [A]) ==
      Climb(Records(DirectoryRecord(Replace(root.entries, A, Entry(Tree(a.entries))), false),
                    DirectoryRecord(a.entries, true), b), PutUnlessStored(store, a), [])
  {
    hide Replace;
    assert [A][..0] == [];
    assert Carried(Records(root, a, b)[[A] := DirectoryRecord(a.entries, true)], [], A, a.entries)
        == Records(DirectoryRecord(Replace(root.entries, A, Entry(Tree(a.entries))), false),
                   DirectoryRecord(a.entries, true), b);
  }

  lemma {:induction false} FromRoot(entries: Entries, a: DirectoryRecord, b: DirectoryRecord, store: set<Id>)
    ensures Climb(Records(DirectoryRecord(entries, false), a, b), store, []) ==
      Some((Records(DirectoryRecord(entries, true), a, b), store + {Tree(entries)}))
  {
    assert Records(DirectoryRecord(entries, false), a, b)[[] := DirectoryRecord(entries, true)]
        == Records(DirectoryRecord(entries, true), a, b);
  }

  lemma {:induction false} NewEntries()
    ensures Replace(OLD_B.entries, F, Skipped) == NEW_B.entries
    ensures Replace(EDITED_ENTRIES, B, Entry(NEW_B)) == NEW_A.entries
    ensures Replace(OLD_ROOT.entries, A, Entry(NEW_A)) == NEW_ROOT.entries
  {
  }

  lemma {:induction false} NothingAtHint()
    ensures SightAt(NO_EXCLUSIONS, Dir(AFTER), HINT, F) == Skipped
  {
    assert HINT[1..] == [B, F] && [B, F][1..] == [F];
    assert StatAt(Dir(map[]), [F]).Absent?;
    assert StatAt(Dir(AFTER_A), [B, F]).Absent?;
  }

  /** The store after the hinted capture: the rebuilt trees are put, the content of `a/x` is not. */
  function Rebuilt(store: set<Id>): (after: set<Id>) {
    store + {NEW_B} + {NEW_A} + {NEW_ROOT}
  }

  lemma {:induction false} HintProcessed(store: set<Id>)
    ensures ProcessedAll(NO_EXCLUSIONS, Dir(AFTER), COMPARED, store, [HINT]) ==
      Some((Records(DirectoryRecord(NEW_ROOT.entries, true), DirectoryRecord(NEW_A.entries, true),
                    DirectoryRecord(NEW_B.entries, true)), Rebuilt(store)))
  {
    hide Climb, Replace, SightAt;
    NothingAtHint();
    NewEntries();
    var root, a := COMPARED[[]], COMPARED[[A]];
    assert HINT[..2] == [A, B] && [HINT][1..] == [];
    assert (map p | p in COMPARED && !(HINT <= p) :: COMPARED[p]) == COMPARED;
    assert COMPARED[[A, B] := DirectoryRecord(NEW_B.entries, false)]
        == Records(root, a, DirectoryRecord(NEW_B.entries, false));
    assert store + ContentsOf(Skipped) == store;
    FromB(root, a, DirectoryRecord(NEW_B.entries, false), store);
    var done := DirectoryRecord(NEW_B.entries, true);
    FromA(root, DirectoryRecord(NEW_A.entries, false), done, store + {NEW_B});
    FromRoot(NEW_ROOT.entries, DirectoryRecord(NEW_A.entries, true), done, store + {NEW_B} + {NEW_A});
  }

  lemma {:induction false} Places(a: map<Name, Node>, b: map<Name, Node>)
    requires B in a && a[B] == Dir(b)
    ensures var disk := Dir(map[A := Dir(a)]);
      && At(disk, [A]) == Some(Dir(a)) && At(disk, [A, B]) == Some(Dir(b))
      && Visited(NO_EXCLUSIONS, disk, [A]) && Visited(NO_EXCLUSIONS, disk, [A, B])
  {
    assert [A][1..] == [] && [A, B][1..] == [B] && [B][1..] == [];
    assert At(Dir(a), [B]) == Some(Dir(b));
    assert Visited(NO_EXCLUSIONS, Dir(a), [B]);
  }

  lemma {:induction false} RootRecord()
    ensures LagsOnlyByHints(NO_EXCLUSIONS, Dir(AFTER), [], OLD_ROOT.entries, {HINT})
  {
    hide See;
    assert [] + [A] == [A] <= HINT;
    assert Related({HINT}, [] + [A]);
  }

  lemma {:induction false} ARecord()
    ensures LagsOnlyByHints(NO_EXCLUSIONS, Dir(AFTER), [A], EDITED_ENTRIES, {HINT})
  {
    Places(AFTER_A, map[]);
    assert [A] + [B] == [A, B] <= HINT;
    assert Related({HINT}, [A] + [B]);
    assert See(NO_EXCLUSIONS, X, File([1], 7)) == Entry(Blob([1]));
  }

  lemma {:induction false} BRecord()
    ensures LagsOnlyByHints(NO_EXCLUSIONS, Dir(AFTER), [A, B], OLD_B.entries, {HINT})
  {
    hide See;
    Places(AFTER_A, map[]);
    assert [A, B] + [F] == HINT;
    assert Related({HINT}, [A, B] + [F]);
  }

  lemma {:induction false} NewRootIsScan()
    ensures Scannable(NO_EXCLUSIONS, AFTER) && Scan(NO_EXCLUSIONS, AFTER) == NEW_ROOT.entries
  {
    hide See;
    Seen(map[], [1], 7);
    assert Scan(NO_EXCLUSIONS, map[]) == map[];
  }

  /** What a scan makes of the three directories, given the innermost. */
  lemma {:induction false} Seen(b: map<Name, Node>, bytes: Bytes, mark: Fingerprint)
    requires Scannable(NO_EXCLUSIONS, b)
    ensures var a: map<Name, Node> := map[B := Dir(b), X := File(bytes, mark)];
      var entries: Entries := map[B := Tree(Scan(NO_EXCLUSIONS, b)), X := Blob(bytes)];
      && Scannable(NO_EXCLUSIONS, a) && Scan(NO_EXCLUSIONS, a) == entries
      && Scannable(NO_EXCLUSIONS, map[A := Dir(a)]) && Scan(NO_EXCLUSIONS, map[A := Dir(a)]) == map[A := Tree(entries)]
  {
    hide See;
    var o := NO_EXCLUSIONS;
    var a: map<Name, Node> := map[B := Dir(b), X := File(bytes, mark)];
    SeeDirectory(o, B, b);
    assert See(o, X, File(bytes, mark)) == Entry(Blob(bytes)) by { SeeFile(X, bytes, mark); }
    assert Scan(o, a) == map[B := Tree(Scan(o, b)), X := Blob(bytes)];
    SeeDirectory(o, A, a);
  }

  lemma {:induction false} SeeFile(name: Name, bytes: Bytes, mark: Fingerprint)
    requires name != METADATA_NAME
    ensures See(NO_EXCLUSIONS, name, File(bytes, mark)) == Entry(Blob(bytes))
  {
  }

  /**
   * With the records that the comparison left, the hint covers every difference, and the capture answers from it: the
   * root it returns is the full walk's, and the content of `a/x` is missing, whatever else is stored.
   */
  lemma {:induction false} HintedCaptureCanDangle(v: View, store: set<Id>)
    requires v.directories == COMPARED && Blob([1]) !in store
    ensures Covered(NO_EXCLUSIONS, Dir(AFTER), v, [HINT])
    ensures Plan(NO_EXCLUSIONS, Dir(AFTER), v, store, [HINT]) == Some(Answer(NEW_ROOT, Rebuilt(store)))
    ensures NEW_ROOT == Tree(Scan(NO_EXCLUSIONS, AFTER)) && !Retrievable(Rebuilt(store), NEW_ROOT)
    ensures !Closed(Rebuilt(store))
  {
    hide Plan, Covered, Scan, Scannable, Retrievable;
    HintCovers(v);
    Planned(v, store);
    NewRootIsScan();
    Missing(Rebuilt(store));
    assert !Supported(Rebuilt(store), NEW_A) by { assert NEW_A.entries[X] == Blob([1]); }
  }

  lemma {:induction false} HintCovers(v: View)
    requires v.directories == COMPARED
    ensures Covered(NO_EXCLUSIONS, Dir(AFTER), v, [HINT])
  {
    hide LagsOnlyByHints, Surviving, Kept;
    assert !ExcludesPath(NO_EXCLUSIONS, HINT) by { NothingExcluded(HINT); }
    KeptOne(NO_EXCLUSIONS, HINT);
    RootRecord();
    ARecord();
    BRecord();
  }

  lemma {:induction false} Planned(v: View, store: set<Id>)
    requires v.directories == COMPARED
    ensures Plan(NO_EXCLUSIONS, Dir(AFTER), v, store, [HINT]) == Some(Answer(NEW_ROOT, Rebuilt(store)))
  {
    hide ProcessedAll, Surviving, Kept, Rebuilt;
    assert !ExcludesPath(NO_EXCLUSIONS, HINT) by { NothingExcluded(HINT); }
    KeptOne(NO_EXCLUSIONS, HINT);
    HintProcessed(store);
  }

  lemma {:induction false} NothingExcluded(path: Path)
    ensures !ExcludesPath(NO_EXCLUSIONS, path)
  {
    if path != [] {
      NothingExcluded(path[1..]);
    }
  }

  lemma {:induction false} Missing(store: set<Id>)
    requires Blob([1]) !in store
    ensures !Retrievable(store, NEW_ROOT)
  {
    assert NEW_ROOT.entries[A] == NEW_A && NEW_A.entries[X] == Blob([1]);
    assert !Retrievable(store, NEW_A);
  }

  lemma {:induction false} OldRootIsScan()
    ensures Scannable(NO_EXCLUSIONS, BEFORE_B) && Scan(NO_EXCLUSIONS, BEFORE_B) == OLD_B.entries
    ensures Scannable(NO_EXCLUSIONS, BEFORE) && Scan(NO_EXCLUSIONS, BEFORE) == OLD_ROOT.entries
    ensures Scannable(NO_EXCLUSIONS, EDITED_A) && Scan(NO_EXCLUSIONS, EDITED_A) == EDITED_ENTRIES
    ensures Scan(NO_EXCLUSIONS, BEFORE_A) == OLD_A.entries
  {
    hide See;
    SeeFile(F, [2], 1);
    assert Scan(NO_EXCLUSIONS, BEFORE_B) == OLD_B.entries;
    Seen(BEFORE_B, [0], 2);
    Seen(BEFORE_B, [1], 7);
  }

  /** The directories that a scan visits are the three. */
  lemma {:induction false} OnlyThree(bytes: Bytes, mark: Fingerprint, p: Path)
    ensures var a: map<Name, Node> := map[B := Dir(BEFORE_B), X := File(bytes, mark)];
      && (Visited(NO_EXCLUSIONS, Dir(a), p) <==> p in {[], [B]})
      && (Visited(NO_EXCLUSIONS, Dir(map[A := Dir(a)]), p) <==> p in {[], [A], [A, B]})
  {
    hide Skips;
    InA(bytes, mark, p);
    Names();
    if p != [] {
      InA(bytes, mark, p[1..]);
      HeadAndRest(p, A, []);
      HeadAndRest(p, A, [B]);
      assert [A] + [] == [A] && [A] + [B] == [A, B];
    }
  }

  lemma {:induction false} Names()
    ensures forall node: Node :: !Skips(NO_EXCLUSIONS, A, node) && !Skips(NO_EXCLUSIONS, B, node)
  {
  }

  lemma {:induction false} HeadAndRest(p: Path, name: Name, rest: Path)
    requires p != []
    ensures p == [name] + rest <==> p[0] == name && p[1..] == rest
  {
    assert p == [p[0]] + p[1..];
  }

  lemma {:induction false} InA(bytes: Bytes, mark: Fingerprint, p: Path)
    ensures Visited(NO_EXCLUSIONS, Dir(map[B := Dir(BEFORE_B), X := File(bytes, mark)]), p) <==> p in {[], [B]}
  {
    if p != [] {
      HeadAndRest(p, B, []);
      assert [B] + [] == [B];
      assert Visited(NO_EXCLUSIONS, Dir(BEFORE_B), p[1..]) <==> p[1..] == [];
    }
  }

  const CAPTURED: Directories :=
    Records(DirectoryRecord(OLD_ROOT.entries, true), DirectoryRecord(OLD_A.entries, true),
            DirectoryRecord(OLD_B.entries, true))

  lemma {:induction false} CapturedRecords(w: View)
    requires Walked(true, NO_EXCLUSIONS, NO_RECORDS, w, [], Dir(BEFORE))
    ensures w.directories == CAPTURED
  {
    hide Scan, Visited, At, Scannable;
    OldRootIsScan();
    Places(BEFORE_A, BEFORE_B);
    Root(BEFORE);
    forall p: Path ensures Get(w.directories, p) == Get(CAPTURED, p) {
      OnlyThree([0], 2, p);
      assert p[0..] == p && [] <= p;
      assert Get(w.directories, p) == AfterWalk(true, NO_EXCLUSIONS, NO_RECORDS, [], Dir(BEFORE), p);
    }
    EqualRecords(w.directories, CAPTURED);
  }

  lemma {:induction false} Root(children: map<Name, Node>)
    ensures At(Dir(children), []) == Some(Dir(children)) && Visited(NO_EXCLUSIONS, Dir(children), [])
  {
  }

  lemma {:induction false} EqualRecords(d: Directories, e: Directories)
    requires forall p: Path :: Get(d, p) == Get(e, p)
    ensures d == e
  {
    forall p: Path ensures p in d <==> p in e {
      assert Get(d, p) == Get(e, p);
    }
    forall p <- d ensures d[p] == e[p] {
      assert Get(d, p) == Get(e, p);
    }
  }

  lemma {:induction false} ComparedRecords(v: View, w: View)
    requires v.directories == CAPTURED && Walked(false, NO_EXCLUSIONS, v, w, [A], Dir(EDITED_A))
    ensures w.directories == COMPARED
  {
    hide Scan, Visited, At, Scannable;
    OldRootIsScan();
    InnerPlaces();
    assert EDITED_ENTRIES[X] != OLD_A.entries[X];
    forall p: Path ensures Get(w.directories, p) == Get(COMPARED, p) {
      assert Get(w.directories, p) == AfterWalk(false, NO_EXCLUSIONS, v, [A], Dir(EDITED_A), p);
      if [A] <= p {
        assert p[0] == [A][0] && p[|[A]|..] == p[1..];
        InA([1], 7, p[1..]);
        HeadAndRest(p, A, []);
        HeadAndRest(p, A, [B]);
        assert [A] + [] == [A] && [A] + [B] == [A, B];
      }
    }
    EqualRecords(w.directories, COMPARED);
  }

  lemma {:induction false} InnerPlaces()
    ensures At(Dir(EDITED_A), []) == Some(Dir(EDITED_A)) && At(Dir(EDITED_A), [B]) == Some(Dir(BEFORE_B))
    ensures [A][1..] == [] && [A, B][1..] == [B]
  {
    assert [B][1..] == [];
  }

  lemma {:induction false} NotPut(store: set<Id>)
    requires store == PutsDirectory(NO_EXCLUSIONS, NO_RECORDS, [], BEFORE)
    ensures Blob([1]) !in store
  {
    hide Scan, PutsDirectory, Scannable;
    OldRootIsScan();
    PutsAllBelow(NO_EXCLUSIONS, NO_RECORDS, [], BEFORE);
    assert Blob([1]) !in Contents(OLD_B);
    assert Blob([1]) !in Contents(OLD_A);
  }

  /** Everything but the content of `a/x` is stored, and that is on disk already. */
  lemma {:induction false} CanBeLaid(store: set<Id>)
    ensures LayDirectory(NO_EXCLUSIONS, Rebuilt(store), NEW_ROOT.entries, AFTER).done
    ensures Includable(NO_EXCLUSIONS, NEW_ROOT.entries)
  {
    hide LayDirectory, Includable;
    var o, after := NO_EXCLUSIONS, Rebuilt(store);
    DirectoryLaid(o, after, map[], map[]);
    assert LayEntry(o, after, NEW_B, Some(Dir(map[]))).done;
    assert LayEntry(o, after, Blob([1]), Some(File([1], 7))).done;
    DirectoryLaid(o, after, NEW_A.entries, AFTER_A);
    assert LayEntry(o, after, NEW_A, Some(Dir(AFTER_A))).done;
    DirectoryLaid(o, after, NEW_ROOT.entries, AFTER);
    NewRootIsScan();
    ScanIsIncludable(o, AFTER);
  }

  lemma {:induction false} FingerprintsHold()
    ensures Trusts(Dir(BEFORE), Dir(EDITED)) && Trusts(Dir(BEFORE), Dir(AFTER)) && Trusts(Dir(EDITED), Dir(AFTER))
  {
    assert Trusts(Dir(BEFORE_B), Dir(BEFORE_B)) && Trusts(Dir(BEFORE_B), Dir(map[]));
    assert Trusts(Dir(BEFORE_A), Dir(EDITED_A)) && Trusts(Dir(BEFORE_A), Dir(AFTER_A));
    assert Trusts(Dir(EDITED_A), Dir(AFTER_A));
  }

  /** From an empty cache and store: a capture, an edit, and a comparison that gets no further than `a`. */
  method CutShort() returns (m: Materializer)
    ensures fresh(m) && m.options == NO_EXCLUSIONS && m.cache.directories == COMPARED && Blob([1]) !in m.store
    ensures FilesSound(Dir(AFTER), m.cache)
  {
    hide Scan, Scannable, Retrievable, Walked, PutsDirectory, FlagsOk, TrustKeptBelow, At, SameOutside, FilesSound,
      FilesFrom, Trusts, Fetchable;
    m := new Materializer(NO_EXCLUSIONS, NO_RECORDS, {});
    OldRootIsScan();
    FingerprintsHold();
    NothingToSound(Dir(BEFORE));
    NothingToSound(Dir(EDITED));
    NothingToSound(Dir(AFTER));
    var first := CaptureTree(m, Dir(BEFORE));
    CapturedRecords(m.cache);
    assert {} + PutsDirectory(NO_EXCLUSIONS, NO_RECORDS, [], BEFORE) == m.store;
    NotPut(m.store);
    SavedIsRetrievable(m.store);
    ghost var captured := m.cache;
    SoundElsewhere(Dir(BEFORE), Dir(EDITED), NO_RECORDS, captured);
    SoundElsewhere(Dir(BEFORE), Dir(AFTER), NO_RECORDS, captured);
    Places(EDITED_A, BEFORE_B);
    RetrievableIsFetchable(m.store, OLD_A.entries, Scan(NO_EXCLUSIONS, EDITED_A));
    var compared := CompareDirectory(m, Dir(EDITED), OLD_A.entries, [A], EDITED_A);
    ComparedRecords(captured, m.cache);
    SoundElsewhere(Dir(EDITED), Dir(AFTER), captured, m.cache);
  }

  /** Then a removal, a hinted capture, a materialisation and a full capture: both return a root that dangles. */
  method DanglingRun() returns (m: Materializer, hinted: Result<Id, Error>, full: Result<Id, Error>)
    ensures fresh(m) && hinted == Ok(NEW_ROOT) && full == Ok(NEW_ROOT) && !Retrievable(m.store, NEW_ROOT)
  {
    hide Scan, Scannable, Retrievable, Walked, PutsDirectory, FlagsOk, TrustKeptBelow, Plan, Covered, PutsAncestors,
      PutsClosed, LayDirectory, Includable, Settled, MaterializedTrees.Matches, Fresh, FilesSound, Keeps, Rebuilt;
    m := CutShort();
    ghost var cache, store := m.cache, m.store;
    HintedCaptureCanDangle(cache, store);
    hinted := CaptureTreeWithHints(m, Dir(AFTER), [HINT]);
    KeepsSound(Dir(AFTER), cache, store, m.cache, m.store);
    CanBeLaid(store);
    var disk, error := MaterializeTree(m, Dir(AFTER), NEW_ROOT.entries);
    full := CaptureTree(m, disk);
    assert Rebuilt(store) + {} == Rebuilt(store);
  }

  lemma {:induction false} NothingToSound(disk: Node)
    ensures FilesSound(disk, NO_RECORDS) && FlagsOk({}, NO_RECORDS)
  {
  }

  lemma {:induction false} SavedIsRetrievable(store: set<Id>)
    requires Retrievable(store, OLD_ROOT)
    ensures Retrievable(store, OLD_A)
  {
    ChildRetrievable(store, OLD_ROOT.entries, A);
  }
}
