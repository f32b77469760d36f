/**
 * What processing hints makes of the records above them: every record on the way to a hint is linked to its parent's,
 * the hinted entries are what the disk has, and all other entries are taken over unseen.
 */
module HintedWeave {
  import opened Wrappers
  import opened Workspace
  import opened Ascents
  import opened CacheRecords
  import opened CacheTruth
  import opened CaptureEffects
  import opened HintedAccuracy
  import opened HintedRecords

  function EntryAt(entries: Entries, n: Name): (entry: Option<Id>) {
    if n in entries then Some(entries[n]) else None
  }

  function SightEntry(sight: Sight): (entry: Option<Id>) {
    if sight.Entry? then Some(sight.id) else None
  }

  /** The tree that the record at `p` stands for. */
  function RecordTree(d: Directories, p: Path): (tree: Option<Id>) {
    if p in d then Some(Tree(d[p].entries)) else None
  }

  /** After a climb from `path`, the entry toward `path` is the rebuilt tree; other entries are as they were. */
  ghost predicate Linked(d: Directories, e: Directories, path: Path, p: Path, n: Name) {
    && p in d && p in e
    && EntryAt(e[p].entries, n) == if p + [n] <= path then RecordTree(e, p + [n]) else EntryAt(d[p].entries, n)
  }

  lemma {:induction false} ClimbLinks(d: Directories, store: set<Id>, path: Path)
    requires Climb(d, store, path).Some?
    ensures var (e, more) := Climb(d, store, path).value;
      && (forall p: Path, n: Name :: p <= path ==> Linked(d, e, path, p, n))
      && (forall p: Path :: p <= path && (p < path || !d[path].stored) ==> p in e && Tree(e[p].entries) in more)
    decreases |path|
  {
    hide Replace;
    var (e, more) := Climb(d, store, path).value;
    ClimbShape(d, store, path);
    if path == [] {
      assert forall n: Name :: !([] + [n] <= path);
    } else {
      var parent, name, entries := path[..|path| - 1], path[|path| - 1], d[path].entries;
      assert path == parent + [name];
      var mid := Carried(d[path := DirectoryRecord(entries, true)], parent, name, entries);
      var put := PutUnlessStored(store, d[path]);
      ClimbLinks(mid, put, parent);
      ClimbShape(mid, put, parent);
      ClimbLinksStep(d, mid, e, path, parent, name);
      assert path <= path && !(path <= parent) && Get(mid, path) == Get(e, path);
      forall p: Path | p <= path && (p < path || !d[path].stored) ensures p in e && Tree(e[p].entries) in more {
        assert p == path || p <= parent;
      }
    }
  }

  lemma {:induction false} ClimbLinksStep(d: Directories, mid: Directories, e: Directories, path: Path, parent: Path,
                                          name: Name)
    requires path == parent + [name] && path in d && parent in d
    requires mid == Carried(d[path := DirectoryRecord(d[path].entries, true)], parent, name, d[path].entries)
    requires Get(mid, path) == Get(e, path) && forall p: Path, n: Name :: p <= parent ==> Linked(mid, e, parent, p, n)
    ensures forall p: Path, n: Name :: p <= path ==> Linked(d, e, path, p, n)
  {
    forall p: Path, n: Name | p <= path ensures Linked(d, e, path, p, n) {
      if p == path {
        assert !(p + [n] <= path);
      } else {
        assert p <= parent;
        assert Linked(mid, e, parent, p, n);
        PrefixStep(parent, name, p, n);
      }
    }
  }

  lemma {:induction false} PrefixStep(parent: Path, name: Name, p: Path, n: Name)
    requires p <= parent
    ensures p + [n] <= parent + [name] <==> p + [n] <= parent || (p == parent && n == name)
    ensures p + [n] <= parent ==> p != parent
  {
    if p == parent {
      assert (parent + [name])[|parent|] == name && (p + [n])[|p|] == n;
    } else {
      assert |p + [n]| <= |parent|;
      assert (parent + [name])[..|p| + 1] == parent[..|p| + 1];
    }
  }

  /** What one processed hint does to the entry `n` of the record at `p`, above the hint. */
  ghost predicate Rewoven(o: Options, disk: Node, d: Directories, e: Directories, h: Path, p: Path, n: Name) {
    && p in d && p in e
    && EntryAt(e[p].entries, n) ==
      if p + [n] < h then RecordTree(e, p + [n])
      else if p + [n] == h then SightEntry(SightAt(o, disk, h, n))
      else EntryAt(d[p].entries, n)
  }

  /** What processing a hint does to the records and the store. */
  ghost predicate HintWoven(o: Options, disk: Node, d: Directories, store: set<Id>, e: Directories, more: set<Id>,
                            h: Path)
    requires h != []
  {
    var sight := SightAt(o, disk, h, h[|h| - 1]);
    && !sight.Unreadable? && store <= more && ContentsOf(sight) <= more
    && (forall p: Path, n: Name :: p < h ==> Rewoven(o, disk, d, e, h, p, n))
    && (forall p: Path :: p < h ==> p in e && e[p].stored && Tree(e[p].entries) in more)
    && (forall p: Path :: !(p < h) && !(h <= p) ==> Get(d, p) == Get(e, p))
  }

  lemma {:induction false} ProcessedWeaves(o: Options, disk: Node, d: Directories, store: set<Id>, h: Path)
    requires h != [] && Processed(o, disk, d, store, h).Some?
    ensures var (e, more) := Processed(o, disk, d, store, h).value;
      HintWoven(o, disk, d, store, e, more, h)
  {
    hide SightAt, Replace, Climb, ContentsOf, Linked;
    var parent, name, sight := h[..|h| - 1], h[|h| - 1], SightAt(o, disk, h, h[|h| - 1]);
    assert h == parent + [name];
    var left := map p | p in d && !(h <= p) :: d[p];
    var patched := left[parent := DirectoryRecord(Replace(left[parent].entries, name, sight), false)];
    var (e, more) := Processed(o, disk, d, store, h).value;
    ClimbShape(patched, store + ContentsOf(sight), parent);
    ClimbLinks(patched, store + ContentsOf(sight), parent);
    forall p: Path, n: Name | p < h ensures Rewoven(o, disk, d, e, h, p, n) {
      assert p <= parent && !(h <= p);
      assert Linked(patched, e, parent, p, n);
      PatchedEntry(o, disk, d, left, patched, e, h, parent, name, p, n);
    }
    forall p: Path | p < h ensures p in e && e[p].stored && Tree(e[p].entries) in more {
      assert p <= parent;
    }
    forall p: Path | !(p < h) && !(h <= p) ensures Get(d, p) == Get(e, p) {
      assert !(p <= parent) by { assert p <= parent ==> p < h; }
      assert Get(patched, p) == Get(e, p) && parent <= parent;
    }
  }

  lemma {:induction false} PatchedEntry(o: Options, disk: Node, d: Directories, left: Directories,
                                        patched: Directories, e: Directories, h: Path, parent: Path, name: Name,
                                        p: Path, n: Name)
    requires h == parent + [name] && p <= parent && parent in left && Linked(patched, e, parent, p, n)
    requires left == map q | q in d && !(h <= q) :: d[q]
    requires var sight := SightAt(o, disk, h, name);
      patched == left[parent := DirectoryRecord(Replace(left[parent].entries, name, sight), false)]
    ensures Rewoven(o, disk, d, e, h, p, n)
  {
    hide SightAt;
    PrefixStep(parent, name, p, n);
    assert p + [n] <= parent ==> p + [n] < h;
    assert p + [n] < h ==> p + [n] <= parent;
    if p == parent {
      ReplacedEntry(left[parent].entries, name, SightAt(o, disk, h, name), n);
      assert p + [n] == h <==> n == name;
    } else {
      assert |p + [n]| <= |parent| && p + [n] != h;
      assert patched[p] == left[p] == d[p];
    }
  }

  lemma {:induction false} ReplacedEntry(entries: Entries, name: Name, sight: Sight, n: Name)
    ensures EntryAt(Replace(entries, name, sight), n) == if n == name then SightEntry(sight) else EntryAt(entries, n)
  {
  }

  /** The entry `n` of a record above the hints, once those in `done` are processed. */
  ghost predicate WovenAt(o: Options, disk: Node, d: Directories, e: Directories, done: set<Path>, p: Path, n: Name) {
    && p in d && p in e
    && EntryAt(e[p].entries, n) ==
      if Leads(done, p + [n]) then RecordTree(e, p + [n])
      else if p + [n] in done then SightEntry(SightAt(o, disk, p + [n], n))
      else EntryAt(d[p].entries, n)
  }

  ghost predicate Woven(o: Options, disk: Node, d: Directories, e: Directories, after: set<Id>, all: set<Path>,
                        done: set<Path>) {
    && (forall p: Path :: Consulted(all, p) ==> (p in d <==> p in e))
    && (forall p: Path, n: Name :: Consulted(all, p) && p in d ==> WovenAt(o, disk, d, e, done, p, n))
    && (forall p: Path :: Leads(done, p) ==> p in e && e[p].stored && Tree(e[p].entries) in after)
    && (forall h <- done :: Seen(o, disk, after, h))
  }

  /** What the disk has at the hint was captured. */
  ghost predicate Seen(o: Options, disk: Node, after: set<Id>, h: Path) {
    h != [] && var sight := SightAt(o, disk, h, h[|h| - 1]); !sight.Unreadable? && ContentsOf(sight) <= after
  }

  lemma {:induction false} WovenStep(o: Options, disk: Node, d: Directories, e: Directories, store: set<Id>,
                                     x: Directories, more: set<Id>, all: set<Path>, done: set<Path>, h: Path)
    requires Woven(o, disk, d, e, store, all, done) && done <= all && h in all && h != [] && Antichain(all)
    requires HintWoven(o, disk, e, store, x, more, h)
    ensures Woven(o, disk, d, x, more, all, done + {h})
  {
    hide SightAt, Antichain, Rewoven, WovenAt, ContentsOf, Consulted, Leads;
    forall p: Path | Consulted(all, p) ensures p in d <==> p in x {
      NotAbove(all, h, p);
      assert !(p < h) ==> Get(e, p) == Get(x, p);
      assert p < h ==> Rewoven(o, disk, e, x, h, p, METADATA_NAME);
      KnownWhereRewoven(o, disk, e, x, h, p);
    }
    forall p: Path, n: Name | Consulted(all, p) && p in d ensures WovenAt(o, disk, d, x, done + {h}, p, n) {
      NotAbove(all, h, p);
      assert WovenAt(o, disk, d, e, done, p, n);
      WovenEntry(o, disk, d, e, x, all, done, h, p, n);
    }
    forall p: Path | Leads(done + {h}, p) ensures p in x && x[p].stored && Tree(x[p].entries) in more {
      LeadsBoth(done, h, p);
      if !(p < h) {
        LeadsMore(done, all, p);
        NotAbove(all, h, p);
        assert Get(e, p) == Get(x, p);
      }
    }
  }

  lemma {:induction false} KnownWhereRewoven(o: Options, disk: Node, e: Directories, x: Directories, h: Path, p: Path)
    ensures Rewoven(o, disk, e, x, h, p, METADATA_NAME) ==> p in e && p in x
  {
    hide SightAt;
  }

  lemma {:induction false} LeadsBoth(done: set<Path>, h: Path, p: Path)
    ensures Leads(done + {h}, p) <==> Leads(done, p) || p < h
  {
    if Leads(done, p) {
      var k :| k in done && p < k;
      assert k in done + {h};
    }
    if p < h {
      assert h in done + {h};
    }
  }

  lemma {:induction false} LeadsMore(done: set<Path>, all: set<Path>, p: Path)
    requires done <= all && Leads(done, p)
    ensures Consulted(all, p)
  {
  }

  lemma {:induction false} NotLed(all: set<Path>, done: set<Path>, h: Path)
    requires Antichain(all) && done <= all && h in all
    ensures !Leads(done, h)
  {
  }

  /** One entry of one record, above the hint or not. */
  lemma {:induction false} WovenEntry(o: Options, disk: Node, d: Directories, e: Directories, x: Directories,
                                      all: set<Path>, done: set<Path>, h: Path, p: Path, n: Name)
    requires WovenAt(o, disk, d, e, done, p, n) && !(h <= p) && h in all && done <= all && Antichain(all) && h != []
    requires p < h ==> Rewoven(o, disk, e, x, h, p, n)
    requires forall q: Path :: !(q < h) && !(h <= q) ==> Get(e, q) == Get(x, q)
    ensures WovenAt(o, disk, d, x, done + {h}, p, n)
  {
    hide SightAt, Antichain, Leads;
    var q := p + [n];
    LeadsBoth(done, h, q);
    NotLed(all, done, h);
    if !(p < h) {
      assert Get(e, p) == Get(x, p);
      assert q <= h ==> p < h;
    }
    if !(q <= h) {
      NextBelow(p, n, h);
      assert Get(e, q) == Get(x, q);
    }
  }

  lemma {:induction false} NextBelow(p: Path, n: Name, h: Path)
    requires !(h <= p) && !(p + [n] <= h)
    ensures !(h <= p + [n])
  {
    assert h <= p + [n] ==> |h| <= |p| || h == p + [n];
  }

  /** Processing all the hints weaves all the records above them. */
  lemma {:induction false} AllWoven(o: Options, disk: Node, d: Directories, e: Directories, store: set<Id>,
                                    all: set<Path>, done: set<Path>, hints: seq<Path>)
    requires Woven(o, disk, d, e, store, all, done) && done <= all && Antichain(all) && Elements(hints) <= all
    requires ProcessedAll(o, disk, e, store, hints).Some?
    ensures var (x, after) := ProcessedAll(o, disk, e, store, hints).value;
      Woven(o, disk, d, x, after, all, done + Elements(hints)) && store <= after
    decreases |hints|
  {
    hide Processed, Woven, HintWoven, Antichain;
    if hints == [] {
      assert done + {} == done;
    } else {
      var h := hints[0];
      ProcessedWeaves(o, disk, e, store, h);
      var (x, more) := Processed(o, disk, e, store, h).value;
      WovenStep(o, disk, d, e, store, x, more, all, done, h);
      AllWoven(o, disk, d, x, more, all, done + {h}, hints[1..]);
      assert done + Elements(hints) == done + {h} + Elements(hints[1..]);
      assert store <= more by { StoreGrows(o, disk, e, store, x, more, h); }
    }
  }

  lemma {:induction false} StoreGrows(o: Options, disk: Node, d: Directories, store: set<Id>, e: Directories,
                                      more: set<Id>, h: Path)
    requires h != [] && HintWoven(o, disk, d, store, e, more, h)
    ensures store <= more
  {
    hide SightAt;
  }

  lemma {:induction false} HintsWeave(o: Options, disk: Node, d: Directories, store: set<Id>, hints: seq<Path>)
    requires Antichain(Elements(hints)) && ProcessedAll(o, disk, d, store, hints).Some?
    ensures var (e, after) := ProcessedAll(o, disk, d, store, hints).value;
      Woven(o, disk, d, e, after, Elements(hints), Elements(hints)) && store <= after
  {
    hide ProcessedAll, Antichain, SightAt;
    var all := Elements(hints);
    assert Woven(o, disk, d, d, store, all, {});
    AllWoven(o, disk, d, d, store, all, {}, hints);
    assert {} + all == all;
  }

  /** An entry that a hinted capture takes over from a record without looking at it. */
  ghost predicate Unseen(d: Directories, all: set<Path>, p: Path, n: Name) {
    p in d && Consulted(all, p) && n in d[p].entries && !Touched(all, p + [n])
  }

  ghost predicate UnseenRetrievable(store: set<Id>, d: Directories, all: set<Path>, top: Path) {
    forall p: Path, n: Name :: top <= p && Unseen(d, all, p, n) ==> Retrievable(store, d[p].entries[n])
  }

  lemma {:induction false} UnseenDeeper(store: set<Id>, d: Directories, all: set<Path>, top: Path, n: Name)
    requires UnseenRetrievable(store, d, all, top)
    ensures UnseenRetrievable(store, d, all, top + [n])
  {
    hide Unseen, Retrievable;
    forall p: Path, k: Name | top + [n] <= p && Unseen(d, all, p, k)
      ensures p in d && k in d[p].entries && Retrievable(store, d[p].entries[k])
    {
      assert top <= p;
      UnseenIsRecorded(d, all, p, k);
    }
  }

  lemma {:induction false} UnseenIsRecorded(d: Directories, all: set<Path>, p: Path, n: Name)
    requires Unseen(d, all, p, n)
    ensures p in d && n in d[p].entries
  {
  }

  /** The tree rebuilt at `p` is retrievable exactly when all that it takes over unseen is. */
  lemma {:induction false} WovenRetrievable(o: Options, disk: Node, d: Directories, e: Directories, after: set<Id>,
                                            all: set<Path>, p: Path)
    requires Woven(o, disk, d, e, after, all, all) && Leads(all, p) && p in e
    ensures Retrievable(after, Tree(e[p].entries)) <==> UnseenRetrievable(after, d, all, p)
    decreases Tree(e[p].entries)
  {
    hide Retrievable, SightAt, Leads, Touched, ContentsOf;
    var entries := e[p].entries;
    TreeRetrievable(after, entries);
    assert Consulted(all, p);
    forall n <- entries
      ensures Leads(all, p + [n]) ==>
        (p + [n] in e && entries[n] == Tree(e[p + [n]].entries)
         && (Retrievable(after, entries[n]) <==> UnseenRetrievable(after, d, all, p + [n])))
      ensures !Leads(all, p + [n]) && p + [n] in all ==> Retrievable(after, entries[n])
      ensures !Leads(all, p + [n]) && p + [n] !in all ==> n in d[p].entries && d[p].entries[n] == entries[n]
    {
      assert WovenAt(o, disk, d, e, all, p, n);
      if Leads(all, p + [n]) {
        WovenRetrievable(o, disk, d, e, after, all, p + [n]);
      } else if p + [n] in all {
        assert Seen(o, disk, after, p + [n]);
        SeenIsRetrievable(o, disk, after, p, n);
      }
    }
    if Retrievable(after, Tree(entries)) {
      forall q: Path, n: Name | p <= q && Unseen(d, all, q, n)
        ensures q in d && n in d[q].entries && Retrievable(after, d[q].entries[n])
      {
        UnseenIsInside(o, disk, d, e, after, all, p, q, n);
      }
    }
    if UnseenRetrievable(after, d, all, p) {
      forall n <- entries ensures Retrievable(after, entries[n]) {
        UnseenDeeper(after, d, all, p, n);
        TouchedIsLed(all, p + [n]);
        assert p <= p;
        assert !Leads(all, p + [n]) && p + [n] !in all ==> Unseen(d, all, p, n);
      }
    }
  }

  lemma {:induction false} SeenIsRetrievable(o: Options, disk: Node, after: set<Id>, p: Path, n: Name)
    requires Seen(o, disk, after, p + [n])
    ensures SightAt(o, disk, p + [n], n).Entry? ==> Retrievable(after, SightAt(o, disk, p + [n], n).id)
  {
    hide SightAt, Retrievable;
    assert (p + [n])[|p + [n]| - 1] == n;
    SightIsRetrievable(after, SightAt(o, disk, p + [n], n));
  }

  lemma {:induction false} ContentsAreRetrievable(store: set<Id>, id: Id)
    requires Contents(id) <= store
    ensures Retrievable(store, id)
  {
    if id.Tree? {
      forall n <- id.entries ensures Retrievable(store, id.entries[n]) {
        ContentsAreRetrievable(store, id.entries[n]);
      }
    }
  }

  lemma {:induction false} SightIsRetrievable(store: set<Id>, sight: Sight)
    requires ContentsOf(sight) <= store
    ensures sight.Entry? ==> Retrievable(store, sight.id)
  {
    if sight.Entry? {
      ContentsAreRetrievable(store, sight.id);
    }
  }

  /** What is taken over somewhere below `p` is inside the tree rebuilt there. */
  lemma {:induction false} UnseenIsInside(o: Options, disk: Node, d: Directories, e: Directories, after: set<Id>,
                                          all: set<Path>, p: Path, q: Path, n: Name)
    requires Woven(o, disk, d, e, after, all, all) && Consulted(all, p) && p in e && p <= q && Unseen(d, all, q, n)
    requires Retrievable(after, Tree(e[p].entries))
    ensures q in d && n in d[q].entries && Retrievable(after, d[q].entries[n])
    decreases |q| - |p|
  {
    hide Retrievable, SightAt, Leads, Touched;
    if p == q {
      TouchedIsLed(all, q + [n]);
      assert WovenAt(o, disk, d, e, all, q, n);
      ChildRetrievable(after, e[p].entries, n);
    } else {
      var k := q[|p|];
      Toward(all, p, q);
      assert WovenAt(o, disk, d, e, all, p, k);
      ChildRetrievable(after, e[p].entries, k);
      UnseenIsInside(o, disk, d, e, after, all, p + [k], q, n);
    }
  }

  /** The next record toward a consulted one is consulted. */
  lemma {:induction false} Toward(all: set<Path>, p: Path, q: Path)
    requires p < q && Consulted(all, q)
    ensures Leads(all, p + [q[|p|]]) && p + [q[|p|]] <= q
  {
    var h :| h in all && q < h;
    assert p + [q[|p|]] <= q < h;
  }

  /** If the tree rebuilt at `p` is what a scan of `node` gives, so is every tree that the hints consult below it. */
  lemma {:induction false} WovenIsVisited(o: Options, disk: Node, d: Directories, e: Directories, after: set<Id>,
                                          all: set<Path>, p: Path, node: Node, rest: Path)
    requires Woven(o, disk, d, e, after, all, all) && p in e && Consulted(all, p) && Consulted(all, p + rest)
    requires node.Dir? && e[p].entries == Scan(o, node.children)
    ensures Visited(o, node, rest) && At(node, rest).Some? && At(node, rest).value.Dir? && p + rest in e
    ensures e[p + rest].entries == Scan(o, At(node, rest).value.children)
    ensures Scannable(o, node.children) ==> Scannable(o, At(node, rest).value.children)
    decreases |rest|
  {
    hide SightAt, Leads, Scan, Scannable;
    if rest == [] {
      assert p + rest == p;
    } else {
      var k := rest[0];
      Toward(all, p, p + rest);
      assert (p + rest)[|p|] == k && p + [k] + rest[1..] == p + rest;
      assert WovenAt(o, disk, d, e, all, p, k);
      TreeOfScan(o, node.children, k, e[p + [k]].entries);
      WovenIsVisited(o, disk, d, e, after, all, p + [k], node.children[k], rest[1..]);
    }
  }

  lemma {:induction false} TreeOfScan(o: Options, children: map<Name, Node>, k: Name, entries: Entries)
    requires EntryAt(Scan(o, children), k) == Some(Tree(entries))
    ensures k in children && children[k].Dir? && !Skips(o, k, children[k])
    ensures entries == Scan(o, children[k].children) && (Scannable(o, children) ==> Scannable(o, children[k].children))
  {
    if children[k].Dir? && !Skips(o, k, children[k]) {
      SeeDirectory(o, k, children[k].children);
    }
  }

  /** If the consulted records were right but for the hints, the tree rebuilt at `p` is what a scan gives there. */
  lemma {:induction false} WovenIsScan(o: Options, disk: Node, d: Directories, e: Directories, after: set<Id>,
                                       all: set<Path>, p: Path)
    requires Woven(o, disk, d, e, after, all, all) && Agreement(o, disk, d, all) && Consulted(all, p) && p in e
    ensures Visited(o, disk, p) && At(disk, p).Some? && At(disk, p).value.Dir?
    ensures Scannable(o, At(disk, p).value.children) && e[p].entries == Scan(o, At(disk, p).value.children)
    decreases Tree(e[p].entries)
  {
    hide SightAt, Leads, Touched, See, Visited, At, Scan, Scannable, Matches, Look;
    assert Accurate(o, disk, p, d[p].entries, all);
    var children := At(disk, p).value.children;
    forall n: Name ensures Matches(o, children, e[p].entries, n) {
      assert WovenAt(o, disk, d, e, all, p, n);
      TouchedIsLed(all, p + [n]);
      if Leads(all, p + [n]) {
        assert p + [n] in e && e[p].entries[n] == Tree(e[p + [n]].entries);
        WovenIsScan(o, disk, d, e, after, all, p + [n]);
        DirectoryMatches(o, disk, p, n, e[p].entries);
      } else if p + [n] in all {
        assert Seen(o, disk, after, p + [n]);
        SightMatches(o, disk, after, p, children, n, e[p].entries);
      } else {
        SameEntryMatches(o, children, d[p].entries, e[p].entries, n);
      }
    }
    MatchesAll(o, children, e[p].entries);
  }

  lemma {:induction false} DirectoryMatches(o: Options, disk: Node, p: Path, n: Name, entries: Entries)
    requires Visited(o, disk, p + [n]) && At(disk, p).Some? && At(disk, p).value.Dir?
    requires At(disk, p + [n]).Some? && At(disk, p + [n]).value.Dir?
    requires Scannable(o, At(disk, p + [n]).value.children)
    requires EntryAt(entries, n) == Some(Tree(Scan(o, At(disk, p + [n]).value.children)))
    ensures Matches(o, At(disk, p).value.children, entries, n)
  {
    hide Visited, At, Scan, Scannable;
    VisitedParent(o, disk, p, n);
    var children := At(disk, p).value.children;
    SeeDirectory(o, n, children[n].children);
  }

  lemma {:induction false} SightMatches(o: Options, disk: Node, after: set<Id>, p: Path, children: map<Name, Node>,
                                        n: Name, entries: Entries)
    requires Seen(o, disk, after, p + [n]) && At(disk, p) == Some(Dir(children))
    requires EntryAt(entries, n) == SightEntry(SightAt(o, disk, p + [n], n))
    ensures Matches(o, children, entries, n)
  {
    hide SightAt, At, Look, ContentsOf;
    assert (p + [n])[|p + [n]| - 1] == n;
    SightIsLook(o, disk, p, children, n);
  }

  lemma {:induction false} ScanMatches(o: Options, children: map<Name, Node>, n: Name)
    requires !Look(o, children, n).Unreadable?
    ensures Matches(o, children, Scan(o, children), n)
  {
    hide See;
  }

  lemma {:induction false} SameEntryMatches(o: Options, children: map<Name, Node>, entries: Entries, same: Entries,
                                            n: Name)
    requires Matches(o, children, entries, n) && EntryAt(entries, n) == EntryAt(same, n)
    ensures Matches(o, children, same, n)
  {
    hide Look;
  }
}
