/** The answer that hints alone give, computed beforehand; when it is retrievable, and when it is a full walk's. */
module HintedPlan {
  import opened Wrappers
  import opened Workspace
  import opened Ascents
  import opened CacheRecords
  import opened CacheTruth
  import opened HintedAccuracy
  import opened HintedRecords
  import opened HintedWeave
  import opened HintedSettling
  import opened HintList

  /** A record above the hints says the truth about every entry unrelated to them. */
  ghost predicate LagsOnlyByHints(o: Options, disk: Node, path: Path, entries: Entries, hints: set<Path>) {
    && Visited(o, disk, path)
    && At(disk, path).Some? && At(disk, path).value.Dir?
    && forall n: Name :: Related(hints, path + [n]) || Matches(o, At(disk, path).value.children, entries, n)
  }

  /** Every difference between the consulted records and the disk lies at or below a hint. */
  ghost predicate DiffersOnlyAtHints(o: Options, disk: Node, v: View, hints: set<Path>) {
    forall p <- v.directories ::
      Consulted(hints, p) && !Hinted(hints, p) ==> LagsOnlyByHints(o, disk, p, v.directories[p].entries, hints)
  }

  /** The entries that a hinted capture takes over from a record without looking at them. */
  ghost predicate TakenOver(v: View, hints: set<Path>, path: Path, n: Name) {
    && path in v.directories && Consulted(hints, path) && !Hinted(hints, path)
    && n in v.directories[path].entries && !Related(hints, path + [n])
  }

  ghost predicate TakenOverRetrievable(store: set<Id>, v: View, hints: set<Path>) {
    forall p: Path, n: Name :: TakenOver(v, hints, p, n) ==> Retrievable(store, v.directories[p].entries[n])
  }

  ghost predicate Normalized(hints: set<Path>, kept: set<Path>) {
    kept <= hints && AllRepresented(kept, hints) && Antichain(kept) && [] !in kept
  }

  /** The kept hint that stands for a surviving one; it does not lie above a consulted record. */
  lemma {:induction false} Representative(hints: set<Path>, kept: set<Path>, path: Path, h: Path) returns (c: Path)
    requires Normalized(hints, kept) && Consulted(kept, path) && h in hints
    ensures c in kept && c <= h && !(c <= path)
  {
    hide Antichain, Consulted;
    assert Represented(kept, h);
    c :| c in kept && c <= h;
    NotAbove(kept, c, path);
  }

  lemma {:induction false} ConsultedIsNotBelow(hints: set<Path>, kept: set<Path>, path: Path)
    requires Normalized(hints, kept) && Consulted(kept, path)
    ensures Consulted(hints, path) && !Hinted(hints, path)
  {
    hide AllRepresented, Antichain;
    forall h <- hints ensures !(h <= path) {
      var c := Representative(hints, kept, path, h);
      assert h <= path ==> c <= path;
    }
  }

  lemma {:induction false} PrefixCases(path: Path, n: Name, h: Path, c: Path)
    requires (path + [n] <= h || h <= path + [n]) && c <= h && !(c <= path)
    ensures path + [n] <= c
  {
    if |path| < |c| {
      assert path + [n] == c[..|path| + 1];
    }
  }

  lemma {:induction false} RelatedIsTouched(hints: set<Path>, kept: set<Path>, path: Path, n: Name)
    requires Normalized(hints, kept) && Consulted(kept, path) && Related(hints, path + [n])
    ensures Touched(kept, path + [n])
  {
    hide Normalized, Consulted;
    var h :| h in hints && (path + [n] <= h || h <= path + [n]);
    var c := Representative(hints, kept, path, h);
    PrefixCases(path, n, h, c);
  }

  /** Keeping fewer hints loses nothing: what the surviving hints excuse, the kept ones excuse. */
  lemma {:induction false} KeptHintsSuffice(o: Options, disk: Node, v: View, hints: set<Path>, kept: set<Path>)
    requires DiffersOnlyAtHints(o, disk, v, hints) && Normalized(hints, kept)
    ensures Agreement(o, disk, v.directories, kept)
  {
    hide Visited, At, Matches, Normalized, Consulted, Related, Touched, Hinted;
    forall p <- v.directories | Consulted(kept, p) ensures Accurate(o, disk, p, v.directories[p].entries, kept) {
      ConsultedIsNotBelow(hints, kept, p);
      assert LagsOnlyByHints(o, disk, p, v.directories[p].entries, hints);
      forall n: Name | Related(hints, p + [n]) ensures Touched(kept, p + [n]) {
        RelatedIsTouched(hints, kept, p, n);
      }
    }
  }

  /** What lies above the surviving hints and below none lies above a kept one. */
  lemma {:induction false} ConsultedByKept(hints: set<Path>, kept: set<Path>, p: Path)
    requires Normalized(hints, kept) && Consulted(hints, p) && !Hinted(hints, p)
    ensures Consulted(kept, p)
  {
    hide Antichain;
    if p != [] {
      var s :| s in hints && p < s;
      assert Represented(kept, s);
      var c :| c in kept && c <= s;
      assert !(c <= p) && p < c;
    }
  }

  /** Taken over from above the surviving hints is unseen by the kept ones. */
  lemma {:induction false} TakenOverIsUnseen(v: View, hints: set<Path>, kept: set<Path>, p: Path, n: Name)
    requires Normalized(hints, kept)
    ensures TakenOver(v, hints, p, n) <==> Unseen(v.directories, kept, p, n)
  {
    hide Normalized, Hinted, Consulted;
    if Consulted(kept, p) {
      ConsultedIsNotBelow(hints, kept, p);
      if Related(hints, p + [n]) {
        RelatedIsTouched(hints, kept, p, n);
      }
      TouchedIsRelated(hints, kept, p + [n]);
    } else if Consulted(hints, p) && !Hinted(hints, p) {
      ConsultedByKept(hints, kept, p);
    }
  }

  lemma {:induction false} TouchedIsRelated(hints: set<Path>, kept: set<Path>, p: Path)
    requires Normalized(hints, kept)
    ensures Touched(kept, p) ==> Related(hints, p)
  {
    hide AllRepresented, Antichain;
  }

  lemma {:induction false} AllUnseen(store: set<Id>, v: View, hints: set<Path>, kept: set<Path>)
    requires Normalized(hints, kept)
    ensures TakenOverRetrievable(store, v, hints) <==> UnseenRetrievable(store, v.directories, kept, [])
  {
    hide Normalized, Retrievable;
    forall p: Path, n: Name ensures TakenOver(v, hints, p, n) <==> Unseen(v.directories, kept, p, n) {
      TakenOverIsUnseen(v, hints, kept, p, n);
    }
    if UnseenRetrievable(store, v.directories, kept, []) {
      forall p: Path, n: Name | TakenOver(v, hints, p, n) ensures Retrievable(store, v.directories[p].entries[n]) {
        assert [] <= p && Unseen(v.directories, kept, p, n);
      }
    }
  }

  function RootEntries(d: Directories): (entries: Option<Entries>) {
    if [] in d then Some(d[[]].entries) else None
  }

  /** Whether the root is recorded as stored, so that hints may be enough. */
  predicate RootStored(d: Directories) {
    [] in d && d[[]].stored
  }

  lemma {:induction false} RootHinted(o: Options, disk: Node, d: Directories, store: set<Id>, hints: seq<Path>)
    requires hints != [] && hints[0] == []
    ensures ProcessedAll(o, disk, d, store, hints).None? && RebuiltAll(o, disk, d, store, hints) == {}
  {
  }

  lemma {:induction false} FirstElement(hints: seq<Path>)
    ensures hints != [] ==> hints[0] in Elements(hints)
    ensures hints == [] ==> Elements(hints) == {}
  {
  }

  /** Inside a retrievable tree, every visited directory's tree is retrievable too. */
  lemma {:induction false} RetrievableInside(o: Options, disk: Node, store: set<Id>, path: Path)
    requires disk.Dir? && Visited(o, disk, path) && Scannable(o, disk.children)
    requires Retrievable(store, Tree(Scan(o, disk.children)))
    ensures At(disk, path).Some? && At(disk, path).value.Dir?
    ensures Retrievable(store, Tree(Scan(o, At(disk, path).value.children)))
    decreases |path|
  {
    hide See;
    if path != [] {
      var name := path[0];
      var child := disk.children[name];
      assert child.Dir?;
      SeeDirectory(o, name, child.children);
      assert !See(o, name, child).Unreadable?;
      assert Scan(o, disk.children)[name] == Tree(Scan(o, child.children));
      RetrievableInside(o, child, store, path[1..]);
    }
  }

  /** If the captured root is retrievable, so is everything the capture took over unseen. */
  lemma {:induction false} RetrievableWasTakenOver(o: Options, disk: Node, store: set<Id>, v: View, hints: set<Path>)
    requires disk.Dir? && Scannable(o, disk.children) && Retrievable(store, Tree(Scan(o, disk.children)))
    requires DiffersOnlyAtHints(o, disk, v, hints)
    ensures TakenOverRetrievable(store, v, hints)
  {
    hide See, Visited, Retrievable, At, Scannable, Related, Consulted, Hinted;
    forall p: Path, n: Name | TakenOver(v, hints, p, n) ensures Retrievable(store, v.directories[p].entries[n]) {
      RetrievableInside(o, disk, store, p);
      var entries := v.directories[p].entries;
      assert LagsOnlyByHints(o, disk, p, entries, hints);
      var children := At(disk, p).value.children;
      assert Matches(o, children, entries, n);
      EntryInScan(o, children, entries, n);
      ChildRetrievable(store, Scan(o, children), n);
    }
  }

  lemma {:induction false} EntryInScan(o: Options, children: map<Name, Node>, entries: Entries, n: Name)
    requires Matches(o, children, entries, n) && n in entries
    ensures n in Scan(o, children) && Scan(o, children)[n] == entries[n]
  {
    hide See;
  }

  /** An answer from hints alone: the root it returns and the store it leaves. */
  datatype Answer = Answer(root: Id, store: set<Id>)

  /** The answer that hints alone give, if they do: computed from the cache, the store, the disk and the hints. */
  ghost function Plan(o: Options, disk: Node, v: View, store: set<Id>, hints: seq<Path>): (plan: Option<Answer>) {
    if hints == [] || !RootStored(v.directories) then None
    else if Kept(o, hints) == [] then Some(Answer(Tree(v.directories[[]].entries), store))
    else
      var end := ProcessedAll(o, disk, v.directories, store, Kept(o, hints));
      if end.None? || RootEntries(end.value.0).None? then None
      else Some(Answer(Tree(RootEntries(end.value.0).value), end.value.1))
  }

  /** The ancestor trees that these hints make a capture put, whether or not they then give an answer. */
  ghost function RebuiltBy(o: Options, disk: Node, v: View, store: set<Id>, kept: seq<Path>): (trees: set<Id>) {
    if RootStored(v.directories) then RebuiltAll(o, disk, v.directories, store, kept) else {}
  }

  /** What the answer takes over unseen is retrievable with the objects the capture itself puts. */
  ghost predicate TakeoverJustified(o: Options, v: View, after: set<Id>, hints: seq<Path>) {
    && TakenOverRetrievable(after, v, Surviving(o, hints))
    && (Kept(o, hints) == [] && [] in v.directories ==> Tree(v.directories[[]].entries) in after)
  }

  /** It is enough that all that is taken over is retrievable in the store before the capture. */
  lemma {:induction false} StoredTakeoverSuffices(o: Options, v: View, before: set<Id>, after: set<Id>,
                                                  hints: seq<Path>)
    requires before <= after && TakeoverJustified(o, v, before, hints)
    ensures TakeoverJustified(o, v, after, hints)
  {
    hide Surviving, Kept, TakenOver, Retrievable;
    forall p: Path, n: Name | TakenOver(v, Surviving(o, hints), p, n)
      ensures p in v.directories && n in v.directories[p].entries && Retrievable(after, v.directories[p].entries[n])
    {
      TakenOverIsRecorded(v, Surviving(o, hints), p, n);
      RetrievableGrows(before, after, v.directories[p].entries[n]);
    }
  }

  lemma {:induction false} TakenOverIsRecorded(v: View, hints: set<Path>, p: Path, n: Name)
    requires TakenOver(v, hints, p, n)
    ensures p in v.directories && n in v.directories[p].entries
  {
  }

  /** What normalisation leaves, in the cases that matter to an answer. */
  lemma {:induction false} KeptCases(o: Options, hints: seq<Path>)
    ensures var kept, survivors := Elements(Kept(o, hints)), Surviving(o, hints);
      && kept <= survivors && ([] in kept ==> Kept(o, hints) != [] && Kept(o, hints)[0] == [])
      && ([] !in kept ==> Normalized(survivors, kept)) && (Kept(o, hints) == [] ==> survivors == {})
  {
    hide Elements, Surviving, Kept, Antichain;
    KeptIsCompacted(o, hints);
    FirstElement(Kept(o, hints));
    var kept, survivors := Elements(Kept(o, hints)), Surviving(o, hints);
    if [] !in kept {
      assert kept - {[]} == kept;
    }
    if Kept(o, hints) == [] {
      assert forall h: Path :: !Represented(kept, h);
    }
  }

  /** How the hints of a plan weave the records: every answer comes from woven records or from the root alone. */
  lemma {:induction false} PlanIsWoven(o: Options, disk: Node, v: View, store: set<Id>, hints: seq<Path>)
    returns (e: Directories)
    requires Plan(o, disk, v, store, hints).Some? && Kept(o, hints) != []
    ensures var kept, plan := Elements(Kept(o, hints)), Plan(o, disk, v, store, hints).value;
      && Normalized(Surviving(o, hints), kept) && Leads(kept, []) && [] in e && plan.root == Tree(e[[]].entries)
      && Woven(o, disk, v.directories, e, plan.store, kept, kept)
  {
    hide Elements, Surviving, Kept, Antichain, ProcessedAll, Woven, AllRepresented;
    var list := Kept(o, hints);
    KeptCases(o, hints);
    FirstElement(list);
    if [] in Elements(list) {
      RootHinted(o, disk, v.directories, store, list);
    }
    HintsWeave(o, disk, v.directories, store, list);
    e := ProcessedAll(o, disk, v.directories, store, list).value.0;
    assert [] < list[0];
  }

  /** An answer from hints is retrievable exactly when what it takes over is, whatever the records say of the disk. */
  lemma {:induction false} PlanIsRetrievable(o: Options, disk: Node, v: View, store: set<Id>, hints: seq<Path>)
    requires Plan(o, disk, v, store, hints).Some?
    ensures var plan := Plan(o, disk, v, store, hints).value;
      Retrievable(plan.store, plan.root) <==> TakeoverJustified(o, v, plan.store, hints)
  {
    hide Plan, Retrievable, Surviving, Kept, Elements, Woven, Normalized, UnseenRetrievable, TakenOverRetrievable,
      Leads;
    var plan := Plan(o, disk, v, store, hints).value;
    if Kept(o, hints) == [] {
      RootAlone(o, disk, v, store, hints);
    } else {
      var e := PlanIsWoven(o, disk, v, store, hints);
      var kept := Elements(Kept(o, hints));
      WovenRetrievable(o, disk, v.directories, e, plan.store, kept, []);
      AllUnseen(plan.store, v, Surviving(o, hints), kept);
    }
  }

  lemma {:induction false} RootAlone(o: Options, disk: Node, v: View, store: set<Id>, hints: seq<Path>)
    requires Plan(o, disk, v, store, hints).Some? && Kept(o, hints) == []
    ensures var plan := Plan(o, disk, v, store, hints).value;
      Retrievable(plan.store, plan.root) <==> TakeoverJustified(o, v, plan.store, hints)
  {
    hide Retrievable, Surviving, Kept, ProcessedAll;
    KeptCases(o, hints);
    var entries := v.directories[[]].entries;
    TreeRetrievable(store, entries);
    forall p: Path, n: Name ensures TakenOver(v, {}, p, n) <==> p == [] && n in entries {
      assert !Hinted({}, p) && !Related({}, p + [n]);
    }
    if TakenOverRetrievable(store, v, {}) {
      forall n <- entries ensures Retrievable(store, entries[n]) {
        assert TakenOver(v, {}, [], n);
      }
    }
  }

  /** If the hints cover every difference, an answer from them is the root of a full walk. */
  lemma {:induction false} PlanIsScan(o: Options, disk: Node, v: View, store: set<Id>, hints: seq<Path>)
    requires disk.Dir? && Plan(o, disk, v, store, hints).Some? && DiffersOnlyAtHints(o, disk, v, Surviving(o, hints))
    ensures Scannable(o, disk.children)
    ensures Plan(o, disk, v, store, hints).value.root == Tree(Scan(o, disk.children))
  {
    hide Plan, Surviving, Kept, Elements, Woven, Normalized, DiffersOnlyAtHints, Agreement, Scan, Scannable, Leads,
      Visited;
    if Kept(o, hints) == [] {
      RootAloneIsScan(o, disk, v, store, hints);
    } else {
      var e := PlanIsWoven(o, disk, v, store, hints);
      var kept := Elements(Kept(o, hints));
      KeptHintsSuffice(o, disk, v, Surviving(o, hints), kept);
      WovenIsScan(o, disk, v.directories, e, Plan(o, disk, v, store, hints).value.store, kept, []);
      assert At(disk, []) == Some(disk);
    }
  }

  lemma {:induction false} RootAloneIsScan(o: Options, disk: Node, v: View, store: set<Id>, hints: seq<Path>)
    requires disk.Dir? && Plan(o, disk, v, store, hints).Some? && DiffersOnlyAtHints(o, disk, v, Surviving(o, hints))
    requires Kept(o, hints) == []
    ensures Scannable(o, disk.children)
    ensures Plan(o, disk, v, store, hints).value.root == Tree(Scan(o, disk.children))
  {
    hide Surviving, Kept, ProcessedAll, Matches, Scan, Scannable;
    KeptCases(o, hints);
    assert LagsOnlyByHints(o, disk, [], v.directories[[]].entries, {}) by { assert !Hinted({}, []); }
    assert At(disk, []) == Some(disk);
    forall n: Name ensures Matches(o, disk.children, v.directories[[]].entries, n) {
      assert !Related({}, [] + [n]);
    }
    MatchesAll(o, disk.children, v.directories[[]].entries);
  }

  /** An answer from hints that is the root of a full walk: what it consults is visited, and right but for the hints. */
  lemma {:induction false} ScanIsCovered(o: Options, disk: Node, v: View, store: set<Id>, hints: seq<Path>, p: Path)
    requires disk.Dir? && Plan(o, disk, v, store, hints).Some?
    requires Plan(o, disk, v, store, hints).value.root == Tree(Scan(o, disk.children))
    requires Consulted(Surviving(o, hints), p) && !Hinted(Surviving(o, hints), p)
    ensures Visited(o, disk, p)
    ensures Scannable(o, disk.children) ==>
      p in v.directories && LagsOnlyByHints(o, disk, p, v.directories[p].entries, Surviving(o, hints))
  {
    hide Plan, Surviving, Kept, Elements, Woven, Normalized, Scan, Scannable, Hinted, Consulted, Visited, Leads,
      LagsOnlyByHints;
    if Kept(o, hints) == [] {
      KeptCases(o, hints);
      OnlyRootConsulted(p);
      RootAloneIsCovered(o, disk, v, store, hints);
    } else {
      var e := PlanIsWoven(o, disk, v, store, hints);
      var kept, after := Elements(Kept(o, hints)), Plan(o, disk, v, store, hints).value.store;
      ConsultedByKept(Surviving(o, hints), kept, p);
      assert [] + p == p;
      OnlyRootOrLed(kept);
      WovenIsVisited(o, disk, v.directories, e, after, kept, [], disk, p);
      if Scannable(o, disk.children) {
        WovenIsCovered(o, disk, v.directories, e, after, Surviving(o, hints), kept, p);
      }
    }
  }

  lemma {:induction false} WovenIsCovered(o: Options, disk: Node, d: Directories, e: Directories, after: set<Id>,
                                          hints: set<Path>, kept: set<Path>, p: Path)
    requires Woven(o, disk, d, e, after, kept, kept) && Normalized(hints, kept) && Consulted(kept, p) && p in e
    requires Visited(o, disk, p) && At(disk, p).Some? && At(disk, p).value.Dir?
    requires Scannable(o, At(disk, p).value.children) && e[p].entries == Scan(o, At(disk, p).value.children)
    ensures p in d && LagsOnlyByHints(o, disk, p, d[p].entries, hints)
  {
    hide Visited, At, Scan, Matches, Normalized, Leads, Touched, Related, SightAt;
    var children := At(disk, p).value.children;
    forall n: Name ensures Related(hints, p + [n]) || Matches(o, children, d[p].entries, n) {
      assert WovenAt(o, disk, d, e, kept, p, n);
      TouchedIsLed(kept, p + [n]);
      TouchedIsRelated(hints, kept, p + [n]);
      if !Touched(kept, p + [n]) {
        NoneUnreadable(o, children, n);
        ScanMatches(o, children, n);
        SameEntryMatches(o, children, e[p].entries, d[p].entries, n);
      }
    }
  }

  lemma {:induction false} NoneUnreadable(o: Options, children: map<Name, Node>, n: Name)
    requires Scannable(o, children)
    ensures !Look(o, children, n).Unreadable?
  {
    hide See;
  }

  lemma {:induction false} RootAloneIsCovered(o: Options, disk: Node, v: View, store: set<Id>, hints: seq<Path>)
    requires disk.Dir? && Plan(o, disk, v, store, hints).Some? && Kept(o, hints) == []
    requires Plan(o, disk, v, store, hints).value.root == Tree(Scan(o, disk.children))
    ensures Visited(o, disk, [])
    ensures Scannable(o, disk.children) ==>
      [] in v.directories && LagsOnlyByHints(o, disk, [], v.directories[[]].entries, Surviving(o, hints))
  {
    hide ProcessedAll, Scan, Matches, Kept, Surviving;
    assert At(disk, []) == Some(disk);
    if Scannable(o, disk.children) {
      forall n: Name ensures Matches(o, disk.children, v.directories[[]].entries, n) {
        NoneUnreadable(o, disk.children, n);
        ScanMatches(o, disk.children, n);
      }
    }
  }

  /** For every cache, store, disk and hints: an answer from hints is right exactly when they cover every difference. */
  lemma {:induction false} RightExactlyWhenCovered(o: Options, disk: Node, v: View, store: set<Id>, hints: seq<Path>)
    requires disk.Dir? && Plan(o, disk, v, store, hints).Some?
    ensures (Scannable(o, disk.children) && Plan(o, disk, v, store, hints).value.root == Tree(Scan(o, disk.children)))
       <==> DiffersOnlyAtHints(o, disk, v, Surviving(o, hints))
  {
    hide Plan, Surviving, Scan, Scannable, LagsOnlyByHints, Consulted, Hinted, Visited;
    if DiffersOnlyAtHints(o, disk, v, Surviving(o, hints)) {
      PlanIsScan(o, disk, v, store, hints);
    }
    if Scannable(o, disk.children) && Plan(o, disk, v, store, hints).value.root == Tree(Scan(o, disk.children)) {
      forall p <- v.directories | Consulted(Surviving(o, hints), p) && !Hinted(Surviving(o, hints), p)
        ensures LagsOnlyByHints(o, disk, p, v.directories[p].entries, Surviving(o, hints))
      {
        ScanIsCovered(o, disk, v, store, hints, p);
      }
    }
  }

  lemma {:induction false} OnlyRootConsulted(p: Path)
    ensures Consulted({}, p) <==> p == []
  {
  }

  lemma {:induction false} OnlyRootOrLed(kept: set<Path>)
    ensures Consulted(kept, [])
  {
  }

  /** The hints, if any, cover every difference between the consulted records and the disk. */
  ghost predicate Covered(o: Options, disk: Node, v: View, hints: seq<Path>) {
    hints == [] || DiffersOnlyAtHints(o, disk, v, Surviving(o, hints))
  }
}
