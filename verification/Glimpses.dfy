/** What a scan sees at each path of a disk: disks that show the same everywhere scan to the same tree. */
module Glimpses {
  import opened Bytes
  import opened Workspace
  import opened HintedAccuracy

  datatype Glimpse = Nothing | Directory | Content(bytes: Bytes) | Unsupported

  function Here(o: Options, node: Node): (seen: Glimpse) {
    match node
    case File(bytes, _) => Content(bytes)
    case Dir(_) => Directory
    case Symlink => if o.symlinks.SkipSymlinks? then Nothing else Unsupported
    case Special => Unsupported
  }

  /** What is at a path as far as a scan can tell: what it skips is not there. */
  function GlimpseAt(o: Options, disk: Node, path: Path): (seen: Glimpse)
    decreases |path|
  {
    if path == [] then Here(o, disk)
    else if disk.Dir? && path[0] in disk.children && !Skips(o, path[0], disk.children[path[0]]) then
      GlimpseAt(o, disk.children[path[0]], path[1..])
    else Nothing
  }

  lemma {:induction false} VisitedIsSeen(o: Options, disk: Node, path: Path)
    ensures Visited(o, disk, path) <==> GlimpseAt(o, disk, path) == Directory
    decreases |path|
  {
    if path != [] && disk.Dir? && path[0] in disk.children && !Skips(o, path[0], disk.children[path[0]]) {
      VisitedIsSeen(o, disk.children[path[0]], path[1..]);
    }
  }

  lemma {:induction false} Inside(o: Options, children: map<Name, Node>, n: Name, q: Path)
    ensures GlimpseAt(o, Dir(children), [n] + q) ==
      if n in children && !Skips(o, n, children[n]) then GlimpseAt(o, children[n], q) else Nothing
  {
    assert ([n] + q)[0] == n && ([n] + q)[1..] == q;
  }

  lemma {:induction false} Deeper(o: Options, disk: Node, p: Path, q: Path)
    requires Visited(o, disk, p) && At(disk, p).Some?
    ensures GlimpseAt(o, disk, p + q) == GlimpseAt(o, At(disk, p).value, q)
    decreases |p|
  {
    if p == [] {
      assert p + q == q;
    } else {
      assert (p + q)[0] == p[0] && (p + q)[1..] == p[1..] + q;
      Deeper(o, disk.children[p[0]], p[1..], q);
    }
  }

  ghost predicate SameUnder(o: Options, a: map<Name, Node>, b: map<Name, Node>, n: Name) {
    forall q: Path :: GlimpseAt(o, Dir(a), [n] + q) == GlimpseAt(o, Dir(b), [n] + q)
  }

  ghost predicate SameShow(o: Options, a: Node, b: Node) {
    forall q: Path :: GlimpseAt(o, a, q) == GlimpseAt(o, b, q)
  }

  /** The children show the same under the name, so a scan makes the same of it. */
  lemma {:induction false} LookSame(o: Options, a: map<Name, Node>, b: map<Name, Node>, n: Name)
    requires SameUnder(o, a, b, n)
    ensures Look(o, a, n) == Look(o, b, n)
    decreases Dir(a), 0
  {
    hide GlimpseAt, See;
    var inA, inB := n in a && !Skips(o, n, a[n]), n in b && !Skips(o, n, b[n]);
    if inA && inB {
      forall q: Path ensures GlimpseAt(o, a[n], q) == GlimpseAt(o, b[n], q) {
        Inside(o, a, n, q);
        Inside(o, b, n, q);
        assert GlimpseAt(o, Dir(a), [n] + q) == GlimpseAt(o, Dir(b), [n] + q);
      }
      SeeSame(o, n, a[n], b[n]);
    } else {
      Inside(o, a, n, []);
      Inside(o, b, n, []);
      assert GlimpseAt(o, Dir(a), [n] + []) == GlimpseAt(o, Dir(b), [n] + []);
      if n in a {
        UnseenIsSkipped(o, n, a[n]);
      }
      if n in b {
        UnseenIsSkipped(o, n, b[n]);
      }
    }
  }

  lemma {:induction false} UnseenIsSkipped(o: Options, n: Name, node: Node)
    ensures Skips(o, n, node) || GlimpseAt(o, node, []) == Nothing ==> See(o, n, node).Skipped?
  {
  }

  lemma {:induction false} SeeSame(o: Options, n: Name, a: Node, b: Node)
    requires !Skips(o, n, a) && !Skips(o, n, b) && SameShow(o, a, b)
    ensures See(o, n, a) == See(o, n, b)
    decreases a, 1
  {
    hide Scan, Scannable;
    assert GlimpseAt(o, a, []) == GlimpseAt(o, b, []);
    if a.Dir? {
      SeeDirectory(o, n, a.children);
      SeeDirectory(o, n, b.children);
      forall k: Name ensures Look(o, a.children, k) == Look(o, b.children, k) {
        assert SameUnder(o, a.children, b.children, k);
        LookSame(o, a.children, b.children, k);
      }
      ScanSame(o, a.children, b.children);
    }
  }

  lemma {:induction false} ScanSame(o: Options, a: map<Name, Node>, b: map<Name, Node>)
    requires forall n: Name :: Look(o, a, n) == Look(o, b, n)
    ensures Scannable(o, a) == Scannable(o, b) && Scan(o, a) == Scan(o, b)
  {
    hide See;
    forall n: Name ensures n in Scan(o, a) <==> n in Scan(o, b) {
      assert Look(o, a, n) == Look(o, b, n);
    }
    forall n <- Scan(o, a) ensures Scan(o, a)[n] == Scan(o, b)[n] {
      assert Look(o, a, n) == Look(o, b, n);
    }
    assert Scannable(o, a) <==> forall n: Name :: !Look(o, a, n).Unreadable? by { ScannableByLook(o, a); }
    assert Scannable(o, b) <==> forall n: Name :: !Look(o, b, n).Unreadable? by { ScannableByLook(o, b); }
  }

  lemma {:induction false} ScannableByLook(o: Options, a: map<Name, Node>)
    ensures Scannable(o, a) <==> forall n: Name :: !Look(o, a, n).Unreadable?
  {
    hide See;
    if forall n: Name :: !Look(o, a, n).Unreadable? {
      forall n <- a ensures !See(o, n, a[n]).Unreadable? {
        assert !Look(o, a, n).Unreadable?;
      }
    }
  }

  /** A path through a name that a scan skips as a directory shows nothing. */
  lemma {:induction false} NothingBelowExcluded(o: Options, disk: Node, path: Path, i: nat)
    requires i + 1 < |path| && path[i] in o.excluded
    ensures GlimpseAt(o, disk, path) == Nothing
    decreases i
  {
    if i > 0 && disk.Dir? && path[0] in disk.children && !Skips(o, path[0], disk.children[path[0]]) {
      NothingBelowExcluded(o, disk.children[path[0]], path[1..], i - 1);
    } else if disk.Dir? && path[0] in disk.children && !Skips(o, path[0], disk.children[path[0]]) {
      assert !disk.children[path[0]].Dir?;
      assert path[1..] != [];
    }
  }
}
