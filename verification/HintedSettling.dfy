/** Which directory records are exactly what a full walk leaves, while hints are being processed. */
module HintedSettling {
  import opened Wrappers
  import opened Workspace
  import opened CacheRecords
  import opened CaptureEffects
  import opened DirectoryWalks
  import opened HintedAccuracy

  /** The path lies at or below a hint. */
  ghost predicate Hinted(hints: set<Path>, path: Path) {
    exists h <- hints :: h <= path
  }

  /** The path lies at, above or below a hint. */
  ghost predicate Related(hints: set<Path>, path: Path) {
    exists h <- hints :: path <= h || h <= path
  }

  /** Away from the hints, the records are those of a full walk: present for visited directories and for no others. */
  ghost predicate Settled(o: Options, disk: Node, v: View, stale: set<Path>) {
    forall p: Path :: !Related(stale, p) ==> Get(v.directories, p) == Expected(o, disk, p)
  }

  /** Every directory that a scan visits has the record that a full capture leaves. */
  ghost predicate Fresh(o: Options, disk: Node, v: View) {
    forall p: Path :: Visited(o, disk, p) ==> Get(v.directories, p) == Expected(o, disk, p)
  }

  /** Every directory record is for a directory that a scan visits. */
  ghost predicate Tidy(o: Options, disk: Node, v: View) {
    forall p <- v.directories :: Visited(o, disk, p)
  }

  lemma {:induction false} SettledMeans(o: Options, disk: Node, v: View)
    ensures Settled(o, disk, v, {}) <==> Fresh(o, disk, v) && Tidy(o, disk, v)
  {
    hide Visited, Refreshed;
    if Settled(o, disk, v, {}) {
      forall p: Path ensures Get(v.directories, p) == Expected(o, disk, p) {
        assert !Related({}, p);
      }
      forall p <- v.directories ensures Visited(o, disk, p) {
        assert Get(v.directories, p) == Expected(o, disk, p);
      }
    }
    if Fresh(o, disk, v) && Tidy(o, disk, v) {
      forall p: Path ensures Get(v.directories, p) == Expected(o, disk, p) {
        assert Visited(o, disk, p) || p !in v.directories;
      }
    }
  }

  /** A full walk refreshes every visited directory's record, and neither drops nor adds a stale one. */
  lemma {:induction false} WalkKeepsStale(o: Options, v: View, w: View, disk: Node)
    requires Walked(true, o, v, w, [], disk)
    ensures Fresh(o, disk, w) && (Tidy(o, disk, w) <==> Tidy(o, disk, v))
  {
    hide Visited, Refreshed, Expected;
    forall p: Path
      ensures Get(w.directories, p) == if Visited(o, disk, p) then Expected(o, disk, p) else Get(v.directories, p)
    {
      assert p[0..] == p && [] <= p;
      assert Get(w.directories, p) == AfterWalk(true, o, v, [], disk, p);
      if Visited(o, disk, p) {
        RefreshedIsExpected(o, disk, p, Get(v.directories, p));
      }
    }
    if Tidy(o, disk, v) {
      forall p <- w.directories ensures Visited(o, disk, p) {
        assert Get(w.directories, p).Some?;
      }
    }
    if Tidy(o, disk, w) {
      forall p <- v.directories ensures Visited(o, disk, p) {
        assert !Visited(o, disk, p) ==> Get(w.directories, p) == Get(v.directories, p);
      }
    }
  }

  /** The directory records after capturing whatever the disk has at the hint. */
  ghost predicate WalkedHint(o: Options, disk: Node, v: View, w: View, h: Path, name: Name) {
    if StatAt(disk, h).Found? then WalkedEntry(true, o, v, w, h, name, StatAt(disk, h).node)
    else v.directories == w.directories
  }

  /** What a full walk leaves below a visited directory's entry. */
  lemma {:induction false} ExpectedBelow(o: Options, disk: Node, parent: Path, children: map<Name, Node>, name: Name,
                                         rest: Path)
    requires Visited(o, disk, parent) && At(disk, parent) == Some(Dir(children))
    ensures Expected(o, disk, parent + ([name] + rest)) ==
      if name in children && !Skips(o, name, children[name]) then Expected(o, children[name], rest) else None
    decreases |parent|
  {
    hide Scan;
    var p := parent + ([name] + rest);
    if parent == [] {
      assert p == [name] + rest && p[0] == name && p[1..] == rest;
      ExpectedChild(o, children, p);
    } else {
      assert p[0] == parent[0] && p[1..] == parent[1..] + ([name] + rest);
      ExpectedChild(o, disk.children, p);
      ExpectedBelow(o, disk.children[parent[0]], parent[1..], children, name, rest);
    }
  }

  /** After capturing at a hint with no records left there, the records at and below it are a full walk's. */
  lemma {:induction false} HintIsSettled(o: Options, disk: Node, v: View, w: View, parent: Path,
                                         children: map<Name, Node>, name: Name, p: Path)
    requires Visited(o, disk, parent) && At(disk, parent) == Some(Dir(children)) && parent + [name] <= p
    requires NoRecords(parent + [name], v) && WalkedHint(o, disk, v, w, parent + [name], name)
    ensures Get(w.directories, p) == Expected(o, disk, p)
  {
    hide At, StatAt, Visited, Expected;
    var h, rest := parent + [name], p[|parent| + 1..];
    assert p == parent + ([name] + rest) by { assert p == h + rest; }
    AtChild(disk, parent, name);
    StatIsAt(disk, h);
    ExpectedBelow(o, disk, parent, children, name, rest);
    assert Get(v.directories, p) == None;
    if name in children && !Skips(o, name, children[name]) {
      assert Get(w.directories, p) == AfterWalk(true, o, v, h, children[name], p);
      if Visited(o, children[name], rest) {
        RefreshedIsExpected(o, children[name], rest, None);
      }
      NotExpected(o, children[name], rest);
    }
  }

  lemma {:induction false} NotExpected(o: Options, node: Node, rest: Path)
    ensures !Visited(o, node, rest) ==> Expected(o, node, rest).None?
  {
    hide Scan;
  }

  lemma {:induction false} RelatedToBoth(stale: set<Path>, h: Path, p: Path)
    ensures Related(stale + {h}, p) <==> Related(stale, p) || p <= h || h <= p
  {
    if Related(stale, p) {
      var k :| k in stale && (p <= k || k <= p);
      assert k in stale + {h};
    }
    if p <= h || h <= p {
      assert h in stale + {h};
    }
  }

  /** What processing a hint leaves of the records, on the way to them and elsewhere. */
  ghost predicate HintDone(o: Options, disk: Node, v: View, w: View, h: Path) {
    && (forall p: Path :: !(p <= h) && !(h <= p) ==> Get(v.directories, p) == Get(w.directories, p))
    && (forall p: Path :: h <= p ==> Get(w.directories, p) == Expected(o, disk, p))
    && (forall p: Path :: p < h ==> p in w.directories && w.directories[p].stored)
  }

  /** While hints of `rest` are pending: apart from them and from the records above hints, the records are exact. */
  ghost predicate SettledAside(o: Options, disk: Node, v: View, hints: set<Path>, rest: set<Path>) {
    forall p: Path :: !Related(rest, p) && !Consulted(hints, p) ==> Get(v.directories, p) == Expected(o, disk, p)
  }

  lemma {:induction false} AsideStarts(o: Options, disk: Node, v: View, hints: set<Path>)
    requires Settled(o, disk, v, hints)
    ensures SettledAside(o, disk, v, hints, hints)
  {
    hide Related, Expected;
  }

  lemma {:induction false} AsideNext(o: Options, disk: Node, v: View, w: View, hints: set<Path>, rest: set<Path>,
                                     h: Path)
    requires SettledAside(o, disk, v, hints, rest + {h}) && HintDone(o, disk, v, w, h) && h in hints
    ensures SettledAside(o, disk, w, hints, rest)
  {
    hide Related, Expected, Consulted;
    forall p: Path | !Related(rest, p) && !Consulted(hints, p) ensures Get(w.directories, p) == Expected(o, disk, p) {
      RelatedToBoth(rest, h, p);
      if p < h {
        IsConsulted(hints, h, p);
      }
    }
  }

  /** With every hint processed and the records above them exact, all records are. */
  lemma {:induction false} AsideEnds(o: Options, disk: Node, v: View, hints: set<Path>)
    requires SettledAside(o, disk, v, hints, {})
    requires forall p: Path :: Consulted(hints, p) ==> Get(v.directories, p) == Expected(o, disk, p)
    ensures Settled(o, disk, v, {})
  {
    hide Expected, Consulted;
  }

  /** Processing a hint leaves no stale record where there was none. */
  lemma {:induction false} TidyNext(o: Options, disk: Node, v: View, w: View, h: Path)
    requires Tidy(o, disk, v) && HintDone(o, disk, v, w, h)
    requires forall p: Path :: p < h ==> (p in v.directories <==> p in w.directories)
    ensures Tidy(o, disk, w)
  {
    hide Visited, Refreshed;
    forall p <- w.directories ensures Visited(o, disk, p) {
      if h <= p {
        assert Get(w.directories, p) == Expected(o, disk, p);
      } else if !(p <= h) {
        assert Get(v.directories, p) == Get(w.directories, p);
      }
    }
  }

  lemma {:induction false} TidyWithout(o: Options, disk: Node, v: View, h: Path)
    requires Tidy(o, disk, v)
    ensures Tidy(o, disk, Without(v, h))
  {
    hide Visited;
  }
}
