/** From one capture to the next: a capture, changes at hinted paths only, then a hinted capture. */
module HintedChanges {
  import opened Wrappers
  import opened Workspace
  import opened Ascents
  import opened CacheRecords
  import opened CacheTruth
  import opened DirectoryWalks
  import opened HintedAccuracy
  import opened HintedRecords
  import opened HintedWeave
  import opened HintedSettling
  import opened HintList
  import opened HintedCapture
  import opened HintedPlan
  import opened Glimpses

  /** Every visible change from one disk to the other lies at or below a hint. */
  ghost predicate ChangedOnlyAt(o: Options, before: Node, after: Node, hints: set<Path>) {
    forall p: Path :: !Hinted(hints, p) ==> GlimpseAt(o, before, p) == GlimpseAt(o, after, p)
  }

  /** The records that a hinted capture consults are for directories that the captured disk had. */
  ghost predicate NoStaleRecords(o: Options, disk: Node, v: View, hints: set<Path>) {
    forall p <- v.directories :: Consulted(hints, p) && !Hinted(hints, p) ==> Visited(o, disk, p)
  }

  /** Away from the hints, every visited directory has the record that a full capture leaves. */
  ghost predicate FreshBut(o: Options, disk: Node, v: View, hints: set<Path>) {
    forall p: Path :: !Hinted(hints, p) && Visited(o, disk, p) ==> Get(v.directories, p) == Expected(o, disk, p)
  }

  /** Away from the hints, the records are exactly those that a full capture leaves. */
  ghost predicate SettledBut(o: Options, disk: Node, v: View, hints: set<Path>) {
    forall p: Path :: !Hinted(hints, p) ==> Get(v.directories, p) == Expected(o, disk, p)
  }

  lemma {:induction false} SettledButMeans(o: Options, disk: Node, v: View, hints: set<Path>)
    requires SettledBut(o, disk, v, hints)
    ensures FreshBut(o, disk, v, hints) && NoStaleRecords(o, disk, v, hints)
    ensures forall p: Path :: !Hinted(hints, p) ==> (p in v.directories <==> Visited(o, disk, p))
  {
    hide Visited, Hinted, Refreshed;
    forall p: Path | !Hinted(hints, p) ensures p in v.directories <==> Visited(o, disk, p) {
      assert Get(v.directories, p) == Expected(o, disk, p);
    }
  }

  lemma {:induction false} SettledIsSettledBut(o: Options, disk: Node, v: View, hints: set<Path>)
    requires Settled(o, disk, v, {})
    ensures SettledBut(o, disk, v, hints)
  {
    hide Expected, Hinted;
    forall p: Path ensures Get(v.directories, p) == Expected(o, disk, p) {
      assert !Related({}, p);
    }
  }

  /** Away from the hints the same directories are visited. */
  lemma {:induction false} StillVisited(o: Options, before: Node, after: Node, hints: set<Path>, p: Path)
    requires ChangedOnlyAt(o, before, after, hints) && !Hinted(hints, p)
    ensures Visited(o, before, p) <==> Visited(o, after, p)
  {
    hide Visited, GlimpseAt, Hinted;
    VisitedIsSeen(o, before, p);
    VisitedIsSeen(o, after, p);
  }

  /** An entry unrelated to the hints looks the same on both disks. */
  lemma {:induction false} StillLooksSame(o: Options, before: Node, after: Node, hints: set<Path>, p: Path, n: Name)
    requires ChangedOnlyAt(o, before, after, hints) && !Related(hints, p + [n])
    requires Visited(o, before, p) && Visited(o, after, p)
    requires At(before, p).Some? && At(before, p).value.Dir? && At(after, p).Some? && At(after, p).value.Dir?
    ensures Look(o, At(before, p).value.children, n) == Look(o, At(after, p).value.children, n)
  {
    hide Visited, GlimpseAt, Hinted, At, Related, Look;
    var a, b := At(before, p).value.children, At(after, p).value.children;
    forall q: Path ensures GlimpseAt(o, Dir(a), [n] + q) == GlimpseAt(o, Dir(b), [n] + q) {
      Deeper(o, before, p, [n] + q);
      Deeper(o, after, p, [n] + q);
      assert p + [n] + q == p + ([n] + q);
      NotBelow(hints, p + [n], q);
    }
    LookSame(o, a, b, n);
  }

  lemma {:induction false} NotBelow(hints: set<Path>, entry: Path, q: Path)
    requires !Related(hints, entry)
    ensures !Hinted(hints, entry + q)
  {
    forall h <- hints ensures !(h <= entry + q) {
      OneExtendsTheOther(h, entry, q);
    }
  }

  lemma {:induction false} OneExtendsTheOther(h: Path, entry: Path, q: Path)
    ensures h <= entry + q ==> h <= entry || entry <= h
  {
  }

  lemma {:induction false} FreshRecord(o: Options, disk: Node, v: View, hints: set<Path>, p: Path)
    requires FreshBut(o, disk, v, hints) && Visited(o, disk, p) && !Hinted(hints, p)
    ensures At(disk, p).Some? && At(disk, p).value.Dir?
    ensures Get(v.directories, p) == Some(DirectoryRecord(Scan(o, At(disk, p).value.children), true))
  {
    hide Scan, Visited, At, Hinted;
    VisitedIsDirectory(o, disk, p);
  }

  lemma {:induction false} RecordStillRight(o: Options, before: Node, after: Node, v: View, hints: set<Path>, p: Path)
    requires before.Dir? && Scannable(o, before.children) && FreshBut(o, before, v, hints)
    requires ChangedOnlyAt(o, before, after, hints) && Visited(o, before, p) && !Hinted(hints, p)
    ensures p in v.directories && LagsOnlyByHints(o, after, p, v.directories[p].entries, hints)
  {
    hide Scan, At, Visited, Scannable, ChangedOnlyAt, Related, FreshBut, Matches, Look, Hinted;
    FreshRecord(o, before, v, hints, p);
    StillVisited(o, before, after, hints, p);
    VisitedIsDirectory(o, after, p);
    var was, now := At(before, p).value.children, At(after, p).value.children;
    forall n: Name ensures Related(hints, p + [n]) || Matches(o, now, v.directories[p].entries, n) {
      if !Related(hints, p + [n]) {
        StillLooksSame(o, before, after, hints, p, n);
        if Look(o, was, n).Unreadable? {
          UnreadableBelow(o, before, p, was, n);
        } else {
          ScanMatches(o, was, n);
          SameMatch(o, was, now, Scan(o, was), n);
        }
      }
    }
  }

  lemma {:induction false} SameMatch(o: Options, was: map<Name, Node>, now: map<Name, Node>, entries: Entries, n: Name)
    requires Look(o, was, n) == Look(o, now, n) && Matches(o, was, entries, n)
    ensures Matches(o, now, entries, n)
  {
    hide Look;
  }

  /**
   * After a capture, when the disk changes only at or below the hints: the records that the next hinted capture
   * consults differ from the disk only there exactly when none is left over from a directory that is gone.
   */
  lemma {:induction false} ChangesAtHintsSuffice(o: Options, before: Node, after: Node, v: View, hints: set<Path>)
    requires before.Dir? && Scannable(o, before.children) && FreshBut(o, before, v, hints)
    requires ChangedOnlyAt(o, before, after, hints)
    ensures DiffersOnlyAtHints(o, after, v, hints) <==> NoStaleRecords(o, before, v, hints)
  {
    hide Scan, Visited, Scannable, FreshBut, Consulted, Hinted, ChangedOnlyAt, LagsOnlyByHints;
    forall p <- v.directories | Consulted(hints, p) && !Hinted(hints, p)
      ensures LagsOnlyByHints(o, after, p, v.directories[p].entries, hints) <==> Visited(o, before, p)
    {
      StillVisited(o, before, after, hints, p);
      LagsWhereVisited(o, after, p, v.directories[p].entries, hints);
      if Visited(o, before, p) {
        RecordStillRight(o, before, after, v, hints, p);
      }
    }
  }

  /** Left over on the disk that was captured is left over on the disk as it is now. */
  lemma {:induction false} StaleOnBoth(o: Options, before: Node, after: Node, v: View, hints: set<Path>)
    requires ChangedOnlyAt(o, before, after, hints)
    ensures NoStaleRecords(o, before, v, hints) <==> NoStaleRecords(o, after, v, hints)
  {
    hide Visited, Consulted, Hinted, ChangedOnlyAt;
    forall p <- v.directories | !Hinted(hints, p) ensures Visited(o, before, p) <==> Visited(o, after, p) {
      StillVisited(o, before, after, hints, p);
    }
  }

  /**
   * After a capture and changes only at or below surviving hints: an answer from the hints is the root of a full walk
   * exactly when no record that it consults is left over. Without an answer from the hints, a full walk is made.
   */
  lemma {:induction false} AgreesUnlessStale(o: Options, before: Node, after: Node, store: set<Id>, v: View,
                                             hints: seq<Path>)
    requires before.Dir? && Scannable(o, before.children) && FreshBut(o, before, v, Surviving(o, hints))
    requires after.Dir? && ChangedOnlyAt(o, before, after, Surviving(o, hints))
    requires Plan(o, after, v, store, hints).Some?
    ensures Plan(o, after, v, store, hints).value.root == Tree(Scan(o, after.children)) <==>
      NoStaleRecords(o, before, v, Surviving(o, hints))
  {
    hide Scan, Scannable, FreshBut, ChangedOnlyAt, Surviving, Plan, Visited, Consulted, Hinted, DiffersOnlyAtHints,
      LagsOnlyByHints;
    var survivors := Surviving(o, hints);
    StaleOnBoth(o, before, after, v, survivors);
    if NoStaleRecords(o, before, v, survivors) {
      ChangesAtHintsSuffice(o, before, after, v, survivors);
      PlanIsScan(o, after, v, store, hints);
    }
    if Plan(o, after, v, store, hints).value.root == Tree(Scan(o, after.children)) {
      forall p <- v.directories | Consulted(survivors, p) && !Hinted(survivors, p) ensures Visited(o, after, p) {
        ScanIsCovered(o, after, v, store, hints, p);
      }
    }
  }

  lemma {:induction false} LagsWhereVisited(o: Options, disk: Node, p: Path, entries: Entries, hints: set<Path>)
    ensures LagsOnlyByHints(o, disk, p, entries, hints) ==> Visited(o, disk, p)
  {
  }

  /** If the captured tree was retrievable, so is all that the next hinted capture takes over unseen. */
  lemma {:induction false} TakeoverIsRetrievable(o: Options, before: Node, store: set<Id>, v: View, hints: set<Path>)
    requires before.Dir? && Scannable(o, before.children) && FreshBut(o, before, v, hints)
    requires NoStaleRecords(o, before, v, hints) && Retrievable(store, Tree(Scan(o, before.children)))
    ensures TakenOverRetrievable(store, v, hints)
  {
    hide Scan, Scannable, FreshBut, Retrievable, TakenOverRetrievable, NoStaleRecords, DiffersOnlyAtHints, GlimpseAt,
      Hinted;
    ChangesAtHintsSuffice(o, before, before, v, hints);
    RetrievableWasTakenOver(o, before, store, v, hints);
  }

  /** No hints at all find a stale record exactly when every record is for a visited directory. */
  lemma {:induction false} TidyMeansNoneStale(o: Options, disk: Node, v: View)
    ensures Tidy(o, disk, v) <==> forall hints: set<Path> :: NoStaleRecords(o, disk, v, hints)
  {
    hide Visited;
    if forall hints: set<Path> :: NoStaleRecords(o, disk, v, hints) {
      forall p <- v.directories ensures Visited(o, disk, p) {
        var h := p + [METADATA_NAME];
        assert NoStaleRecords(o, disk, v, {h});
        assert Leads({h}, p) && !Hinted({h}, p);
      }
    }
  }

  /** What the kept hints are unrelated to, the surviving ones are unrelated to. */
  lemma {:induction false} UnrelatedToKept(hints: set<Path>, kept: set<Path>, p: Path)
    requires AllRepresented(kept, hints) && !Related(kept, p)
    ensures !Related(hints, p)
  {
    forall h <- hints ensures !(p <= h || h <= p) {
      assert Represented(kept, h);
      var c :| c in kept && c <= h;
      OnOneLine(c, p, h);
    }
  }

  lemma {:induction false} OnOneLine(c: Path, p: Path, h: Path)
    requires c <= h
    ensures p <= h || h <= p ==> c <= p || p <= c
  {
  }

  /** Away from the hints a full walk leaves the same record on both disks. */
  lemma {:induction false} StillExpected(o: Options, before: Node, after: Node, hints: set<Path>, p: Path)
    requires ChangedOnlyAt(o, before, after, hints) && !Related(hints, p)
    ensures Expected(o, before, p) == Expected(o, after, p)
  {
    hide Visited, At, ChangedOnlyAt, Related, Scan, Look;
    assert !Hinted(hints, p) by { NotBelow(hints, p, []); assert p + [] == p; }
    StillVisited(o, before, after, hints, p);
    if Visited(o, before, p) {
      VisitedIsDirectory(o, before, p);
      VisitedIsDirectory(o, after, p);
      var was, now := At(before, p).value.children, At(after, p).value.children;
      forall n: Name ensures Look(o, was, n) == Look(o, now, n) {
        NotRelatedBelow(hints, p, n);
        StillLooksSame(o, before, after, hints, p, n);
      }
      ScanSame(o, was, now);
    }
  }

  lemma {:induction false} NotRelatedBelow(hints: set<Path>, p: Path, n: Name)
    requires !Related(hints, p)
    ensures !Related(hints, p + [n])
  {
    forall h <- hints ensures !(p + [n] <= h || h <= p + [n]) {
      OneExtendsTheOther(h, p, [n]);
      assert p + [n] <= h ==> p <= h;
    }
  }

  /**
   * Before a hinted capture: from exact records of a retrievable tree, apart from those at or below the hints, changes
   * at surviving hints leave it covered, what it takes over retrievable, and the records away from its hints exact.
   */
  lemma {:induction false} WatchTurn(o: Options, before: Node, after: Node, store: set<Id>, v: View, hints: seq<Path>,
                                     more: set<Id>)
    requires before.Dir? && Scannable(o, before.children) && SettledBut(o, before, v, Surviving(o, hints))
    requires Retrievable(store, Tree(Scan(o, before.children))) && store <= more
    requires ChangedOnlyAt(o, before, after, Surviving(o, hints))
    ensures Covered(o, after, v, hints) && TakeoverJustified(o, v, more, hints)
    ensures Settled(o, after, v, Elements(Kept(o, hints)))
  {
    hide Scan, Scannable, Retrievable, ChangedOnlyAt, Surviving, Kept, FreshBut, SettledBut, NoStaleRecords,
      DiffersOnlyAtHints, Elements, Settled, TakenOverRetrievable, AllRepresented, Antichain, Hinted, Visited;
    var survivors, kept := Surviving(o, hints), Elements(Kept(o, hints));
    SettledButMeans(o, before, v, survivors);
    ChangesAtHintsSuffice(o, before, after, v, survivors);
    RetrievableGrows(store, more, Tree(Scan(o, before.children)));
    TakeoverIsRetrievable(o, before, more, v, survivors);
    KeptIsCompacted(o, hints);
    if Kept(o, hints) == [] {
      FirstElement(Kept(o, hints));
      NoneHinted(survivors, kept);
      RootIsRetrievable(o, before, more, v, survivors);
    }
    SettledAway(o, before, after, v, survivors, kept);
  }

  lemma {:induction false} NoneHinted(hints: set<Path>, kept: set<Path>)
    requires AllRepresented(kept, hints) && kept == {}
    ensures hints == {} && !Hinted(hints, [])
  {
    assert forall h: Path :: !Represented(kept, h);
  }

  lemma {:induction false} RootIsRetrievable(o: Options, disk: Node, store: set<Id>, v: View, hints: set<Path>)
    requires disk.Dir? && FreshBut(o, disk, v, hints) && !Hinted(hints, [])
    requires Retrievable(store, Tree(Scan(o, disk.children)))
    ensures [] in v.directories && Tree(v.directories[[]].entries) in store
  {
    hide Scan, FreshBut, Hinted;
    assert At(disk, []) == Some(disk);
    FreshRecord(o, disk, v, hints, []);
  }

  lemma {:induction false} SettledAway(o: Options, before: Node, after: Node, v: View, hints: set<Path>,
                                       kept: set<Path>)
    requires SettledBut(o, before, v, hints) && ChangedOnlyAt(o, before, after, hints) && AllRepresented(kept, hints)
    ensures Settled(o, after, v, kept)
  {
    hide Expected, ChangedOnlyAt, AllRepresented;
    forall p: Path | !Related(kept, p) ensures Get(v.directories, p) == Expected(o, after, p) {
      UnrelatedToKept(hints, kept, p);
      StillExpected(o, before, after, hints, p);
      assert !Hinted(hints, p) by { NotBelow(hints, p, []); assert p + [] == p; }
    }
  }

  /** A hint with an excluded last name that is dropped although what it names has visibly changed. */
  ghost predicate Misses(o: Options, before: Node, after: Node, hints: seq<Path>, h: Path) {
    && h != [] && h[|h| - 1] in o.excluded && !Hinted(Surviving(o, hints), h)
    && GlimpseAt(o, before, h) != GlimpseAt(o, after, h)
  }

  lemma {:induction false} ExcludedSegment(o: Options, path: Path) returns (i: nat)
    requires ExcludesPath(o, path)
    ensures i < |path| && path[i] in o.excluded
  {
    if path[0] in o.excluded {
      i := 0;
    } else {
      var k := ExcludedSegment(o, path[1..]);
      i := k + 1;
    }
  }

  /** Changes at the hints are changes at the surviving ones, except where an excluded name names no directory. */
  lemma {:induction false} SurvivingHintsSuffice(o: Options, before: Node, after: Node, hints: seq<Path>)
    requires ChangedOnlyAt(o, before, after, Elements(hints))
    ensures ChangedOnlyAt(o, before, after, Surviving(o, hints)) <==>
      forall h <- Elements(hints) :: !Misses(o, before, after, hints, h)
  {
    hide GlimpseAt, Elements, ExcludesPath;
    if forall h <- Elements(hints) :: !Misses(o, before, after, hints, h) {
      forall p: Path | !Hinted(Surviving(o, hints), p) ensures GlimpseAt(o, before, p) == GlimpseAt(o, after, p) {
        if Hinted(Elements(hints), p) {
          var h :| h in Elements(hints) && h <= p;
          assert ExcludesPath(o, h) by { assert h !in Surviving(o, hints); }
          var i := ExcludedSegment(o, h);
          if i + 1 < |p| {
            NothingBelowExcluded(o, before, p, i);
            NothingBelowExcluded(o, after, p, i);
          } else {
            assert h == p;
            assert !Misses(o, before, after, hints, h);
          }
        }
      }
    }
  }

  /** The records that hints consult are stored, and so are all those above them. */
  ghost predicate Ready(d: Directories, hints: set<Path>) {
    forall p <- d :: Consulted(hints, p) ==> d[p].stored && forall q: Path :: q <= p ==> q in d
  }

  /** The hint's parent has a record, and what the disk has there can be captured. */
  ghost predicate Processable(o: Options, disk: Node, d: Directories, h: Path) {
    h != [] && h[..|h| - 1] in d && !SightAt(o, disk, h, h[|h| - 1]).Unreadable?
  }

  lemma {:induction false} ClimbGoes(d: Directories, store: set<Id>, path: Path)
    requires forall q: Path :: q <= path ==> q in d
    ensures Climb(d, store, path).Some?
    decreases |path|
  {
    hide Replace;
    assert path <= path;
    if path != [] {
      var parent, name, entries := path[..|path| - 1], path[|path| - 1], d[path].entries;
      assert parent <= path;
      var e := Carried(d[path := DirectoryRecord(entries, true)], parent, name, entries);
      forall q: Path | q <= parent ensures q in e {
        assert q <= path;
      }
      ClimbGoes(e, PutUnlessStored(store, d[path]), parent);
    }
  }

  /** Processing one hint succeeds where it can, and leaves the records for the other hints ready. */
  lemma {:induction false} ProcessedGoes(o: Options, disk: Node, d: Directories, store: set<Id>, all: set<Path>,
                                         h: Path)
    requires Antichain(all) && [] !in all && h in all && Ready(d, all)
    ensures var end := Processed(o, disk, d, store, h);
      && (end.Some? <==> Processable(o, disk, d, h))
      && (end.Some? ==> Ready(end.value.0, all))
      && (end.Some? ==> forall p: Path :: Consulted(all, p) ==> (p in end.value.0 <==> p in d))
  {
    hide SightAt, Replace, Climb, ContentsOf, Antichain;
    var parent, name, sight := h[..|h| - 1], h[|h| - 1], SightAt(o, disk, h, h[|h| - 1]);
    assert parent < h && !(h <= parent);
    IsConsulted(all, h, parent);
    var left := map p | p in d && !(h <= p) :: d[p];
    forall p: Path | Consulted(all, p) ensures p in left <==> p in d {
      NotAbove(all, h, p);
    }
    if parent in d && !sight.Unreadable? {
      var patched := left[parent := DirectoryRecord(Replace(left[parent].entries, name, sight), false)];
      forall q: Path | q <= parent ensures q in patched {
        assert q <= parent && !(h <= q);
      }
      ClimbGoes(patched, store + ContentsOf(sight), parent);
      ClimbShape(patched, store + ContentsOf(sight), parent);
      ReadyAfter(d, left, patched, Climb(patched, store + ContentsOf(sight), parent).value.0, all, h, parent);
    }
  }

  lemma {:induction false} ReadyAfter(d: Directories, left: Directories, patched: Directories, e: Directories,
                                      all: set<Path>, h: Path, parent: Path)
    requires Ready(d, all) && Antichain(all) && [] !in all && h in all && parent < h && parent in d
    requires left == map p | p in d && !(h <= p) :: d[p]
    requires parent in left && patched.Keys == left.Keys && e.Keys == patched.Keys
    requires forall p <- left :: p != parent ==> patched[p] == left[p]
    requires forall p: Path :: p <= parent ==> p in e && e[p].stored
    requires forall p: Path :: !(p <= parent) ==> Get(patched, p) == Get(e, p)
    ensures Ready(e, all)
    ensures forall p: Path :: Consulted(all, p) ==> (p in e <==> p in d)
  {
    hide Antichain, Consulted;
    forall p: Path | Consulted(all, p) ensures p in e <==> p in d {
      NotAbove(all, h, p);
    }
    forall p <- e | Consulted(all, p) ensures e[p].stored && forall q: Path :: q <= p ==> q in e {
      NotAbove(all, h, p);
      if !(p <= parent) {
        assert parent <= parent;
        assert Get(patched, p) == Get(e, p) && d[p].stored;
      }
      forall q: Path | q <= p ensures q in e {
        assert q in d && !(h <= q);
      }
    }
  }

  /** Hints alone give an answer exactly when every one of them can be processed. */
  lemma {:induction false} AllProcessedGoes(o: Options, disk: Node, d: Directories, store: set<Id>, all: set<Path>,
                                            hints: seq<Path>)
    requires Antichain(all) && [] !in all && Elements(hints) <= all && Ready(d, all)
    ensures var end := ProcessedAll(o, disk, d, store, hints);
      && (end.Some? <==> forall h <- Elements(hints) :: Processable(o, disk, d, h))
      && (end.Some? ==> ([] in end.value.0 <==> [] in d))
    decreases |hints|
  {
    hide Processed, Antichain, Ready, SightAt;
    if hints != [] {
      var h := hints[0];
      assert Elements(hints) == {h} + Elements(hints[1..]);
      ProcessedGoes(o, disk, d, store, all, h);
      var next := Processed(o, disk, d, store, h);
      if next.Some? {
        AllProcessedGoes(o, disk, next.value.0, next.value.1, all, hints[1..]);
        forall k <- Elements(hints[1..])
          ensures Processable(o, disk, d, k) <==> Processable(o, disk, next.value.0, k)
        {
          assert k != [] && k[..|k| - 1] < k;
          IsConsulted(all, k, k[..|k| - 1]);
        }
        assert Consulted(all, []);
      }
    }
  }

  /** The hint's parent is a directory that a scan visits, and what the disk has at the hint can be captured. */
  ghost predicate Answerable(o: Options, disk: Node, h: Path) {
    h != [] && Visited(o, disk, h[..|h| - 1]) && !SightAt(o, disk, h, h[|h| - 1]).Unreadable?
  }

  /** From exact records, after changes at the hints: when a hinted capture answers from the hints alone. */
  lemma {:induction false} AnswersFromHints(o: Options, before: Node, after: Node, store: set<Id>, v: View,
                                            hints: seq<Path>)
    requires before.Dir? && SettledBut(o, before, v, Surviving(o, hints)) && hints != []
    requires ChangedOnlyAt(o, before, after, Surviving(o, hints))
    ensures Plan(o, after, v, store, hints).Some? <==>
      forall h <- Elements(Kept(o, hints)) :: Answerable(o, after, h)
  {
    hide SightAt, ProcessedAll, Elements, Surviving, Kept, SettledBut, ChangedOnlyAt, Antichain, Visited,
      AllRepresented, Ready, Hinted;
    var survivors, kept := Surviving(o, hints), Elements(Kept(o, hints));
    KeptIsCompacted(o, hints);
    FirstElement(Kept(o, hints));
    if [] in kept {
      RootHinted(o, after, v.directories, store, Kept(o, hints));
      assert !Answerable(o, after, []);
    } else {
      assert kept - {[]} == kept;
      RootRecorded(o, before, v, survivors, kept);
      ReadyWhenSettled(o, before, v, survivors, kept);
      AllProcessedGoes(o, after, v.directories, store, kept, Kept(o, hints));
      forall h <- kept ensures Processable(o, after, v.directories, h) <==> Answerable(o, after, h) {
        ParentRecorded(o, before, after, v, survivors, kept, h);
      }
    }
  }

  lemma {:induction false} RootRecorded(o: Options, disk: Node, v: View, hints: set<Path>, kept: set<Path>)
    requires disk.Dir? && SettledBut(o, disk, v, hints) && Normalized(hints, kept)
    ensures RootStored(v.directories)
  {
    hide Scan, SettledBut, FreshBut, Normalized, Hinted;
    ConsultedIsNotBelow(hints, kept, []);
    SettledButMeans(o, disk, v, hints);
    FreshRecord(o, disk, v, hints, []);
  }

  lemma {:induction false} VisitedAbove(o: Options, disk: Node, p: Path, q: Path)
    requires Visited(o, disk, p) && q <= p
    ensures Visited(o, disk, q)
    decreases |q|
  {
    if q != [] {
      VisitedAbove(o, disk.children[p[0]], p[1..], q[1..]);
    }
  }

  lemma {:induction false} ReadyWhenSettled(o: Options, disk: Node, v: View, hints: set<Path>, kept: set<Path>)
    requires SettledBut(o, disk, v, hints) && Normalized(hints, kept)
    ensures Ready(v.directories, kept)
  {
    hide Visited, Scan, At, SettledBut, FreshBut, Normalized, Hinted, Consulted;
    SettledButMeans(o, disk, v, hints);
    forall p <- v.directories | Consulted(kept, p)
      ensures v.directories[p].stored && forall q: Path :: q <= p ==> q in v.directories
    {
      ConsultedIsNotBelow(hints, kept, p);
      FreshRecord(o, disk, v, hints, p);
      forall q: Path | q <= p ensures q in v.directories {
        VisitedAbove(o, disk, p, q);
        HintedAbove(hints, q, p);
        FreshRecord(o, disk, v, hints, q);
      }
    }
  }

  lemma {:induction false} HintedAbove(hints: set<Path>, q: Path, p: Path)
    requires q <= p
    ensures Hinted(hints, q) ==> Hinted(hints, p)
  {
    if Hinted(hints, q) {
      var h :| h in hints && h <= q;
      assert h <= p;
    }
  }

  lemma {:induction false} ParentRecorded(o: Options, before: Node, after: Node, v: View, hints: set<Path>,
                                          kept: set<Path>, h: Path)
    requires SettledBut(o, before, v, hints) && ChangedOnlyAt(o, before, after, hints)
    requires Normalized(hints, kept) && h in kept && h != []
    ensures h[..|h| - 1] in v.directories <==> Visited(o, after, h[..|h| - 1])
  {
    hide Visited, ChangedOnlyAt, Normalized, SettledBut, FreshBut, Hinted;
    var p := h[..|h| - 1];
    assert p < h;
    IsConsulted(kept, h, p);
    ConsultedIsNotBelow(hints, kept, p);
    StillVisited(o, before, after, hints, p);
    SettledButMeans(o, before, v, hints);
  }
}
