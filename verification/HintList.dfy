/** Normalising change hints: excluded paths are dropped, and so is whatever lies below another hint. */
module HintList {
  import opened Workspace
  import opened Lexicographic
  import opened Ascents
  import opened HintedAccuracy

  /** Some segment of the path is an excluded directory name, whatever it names on disk. */
  predicate ExcludesPath(o: Options, path: Path) {
    path != [] && (path[0] in o.excluded || ExcludesPath(o, path[1..]))
  }

  /** The hints that survive exclusion. */
  function Surviving(o: Options, hints: seq<Path>): (kept: set<Path>) {
    set h <- Elements(hints) | !ExcludesPath(o, h)
  }

  /** Some compacted, non-empty hint is an ancestor of `path` or is `path`. */
  predicate HasAncestor(compacted: seq<Path>, path: Path) {
    compacted != [] && ((compacted[0] != [] && compacted[0] <= path) || HasAncestor(compacted[1..], path))
  }

  lemma {:induction false} HasAncestorMeans(compacted: seq<Path>, path: Path)
    ensures HasAncestor(compacted, path) <==> Ancestor(Elements(compacted), path)
  {
    if compacted != [] {
      HasAncestorMeans(compacted[1..], path);
      assert compacted[0] in Elements(compacted);
      if Ancestor(Elements(compacted[1..]), path) {
        var c :| c in Elements(compacted[1..]) && c != [] && c <= path;
        assert c in Elements(compacted);
      }
    }
  }

  ghost predicate Ancestor(kept: set<Path>, path: Path) {
    exists c <- kept :: c != [] && c <= path
  }

  /** `h` lies at or below a kept hint; only the root hint may stand for the root. */
  ghost predicate Represented(kept: set<Path>, h: Path) {
    exists c <- kept :: c <= h && (h != [] ==> c != [])
  }

  ghost predicate AllRepresented(kept: set<Path>, hints: set<Path>) {
    forall h <- hints :: Represented(kept, h)
  }

  ghost predicate AllBefore(kept: set<Path>, rest: set<Path>) {
    forall c <- kept, y <- rest :: PathLeq(c, y) && c != y
  }

  lemma {:induction false} KeepsAntichain(kept: set<Path>, path: Path)
    requires Antichain(kept - {[]}) && (forall c <- kept :: PathLeq(c, path) && c != path)
    requires !Ancestor(kept, path)
    ensures Antichain(kept + {path} - {[]})
  {
    hide PathLeq;
    forall a <- kept + {path} - {[]}, b <- kept + {path} - {[]} | a <= b ensures a == b {
      if a in kept && b in kept {
        assert a in kept - {[]} && b in kept - {[]};
      } else if b in kept {
        PathPrefix(a, b);
        PathAntisymmetric(a, b);
      }
    }
  }

  lemma {:induction false} PathPrefix(a: Path, b: Path)
    requires a <= b
    ensures PathLeq(a, b)
  {
    LexPrefix(NameLeq, a, b);
  }

  lemma {:induction false} PathAntisymmetric(a: Path, b: Path)
    requires PathLeq(a, b) && PathLeq(b, a)
    ensures a == b
  {
    NamesAreOrdered();
    LexAntisymmetric(NameLeq, a, b);
  }

  lemma {:induction false} RootComesFirst(kept: set<Path>)
    requires forall c <- kept :: PathLeq(c, []) && c != []
    ensures kept == {}
  {
    hide PathLeq;
    if kept != {} {
      var c :| c in kept;
      PathPrefix([], c);
      PathAntisymmetric(c, []);
    }
  }

  lemma {:induction false} Represent(kept: set<Path>, more: set<Path>, done: set<Path>, path: Path)
    requires AllRepresented(kept, done) && kept <= more && Represented(more, path)
    ensures AllRepresented(more, done + {path})
  {
    forall h <- done ensures Represented(more, h) {
      assert Represented(kept, h);
    }
  }

  /** Compacting the rest of an ascending list: what lies below a kept, non-empty hint is dropped. */
  function Compact(compacted: seq<Path>, rest: seq<Path>): (kept: seq<Path>)
    decreases |rest|
  {
    if rest == [] then compacted
    else Compact(if HasAncestor(compacted, rest[0]) then compacted else compacted + [rest[0]], rest[1..])
  }

  /** The hints that normalisation keeps, in order. */
  ghost function Kept(o: Options, hints: seq<Path>): (kept: seq<Path>) {
    PathsAreOrdered();
    Compact([], Listing(PathLeq, Surviving(o, hints)))
  }

  /** What normalisation promises about the hints it keeps. */
  ghost predicate Compacted(all: set<Path>, kept: seq<Path>) {
    && Elements(kept) <= all && AllRepresented(Elements(kept), all)
    && Antichain(Elements(kept) - {[]}) && ([] in Elements(kept) ==> kept[0] == [])
  }

  /** The same promises while part of the ascending list is still to be looked at. */
  ghost predicate Compacting(all: set<Path>, compacted: seq<Path>, rest: seq<Path>) {
    && Ascending(PathLeq, rest) && Elements(compacted) + Elements(rest) <= all
    && AllBefore(Elements(compacted), Elements(rest)) && AllRepresented(Elements(compacted), all - Elements(rest))
    && Antichain(Elements(compacted) - {[]}) && ([] in Elements(compacted) ==> compacted != [] && compacted[0] == [])
  }

  lemma {:induction false} CompactingStep(all: set<Path>, compacted: seq<Path>, rest: seq<Path>)
    requires Compacting(all, compacted, rest) && rest != []
    ensures Compacting(all, if HasAncestor(compacted, rest[0]) then compacted else compacted + [rest[0]], rest[1..])
  {
    hide Elements, Antichain, PathLeq, HasAncestor;
    var path := rest[0];
    HeadAndTail(rest);
    HasAncestorMeans(compacted, path);
    assert all - Elements(rest[1..]) == all - Elements(rest) + {path};
    if HasAncestor(compacted, path) {
      Represent(Elements(compacted), Elements(compacted), all - Elements(rest), path);
    } else {
      ElementsAppend(compacted, [path]);
      One(path);
      KeepsAntichain(Elements(compacted), path);
      if path == [] {
        RootComesFirst(Elements(compacted));
        NoElements(compacted);
      }
      Represent(Elements(compacted), Elements(compacted + [path]), all - Elements(rest), path);
    }
  }

  lemma {:induction false} CompactKeeps(all: set<Path>, compacted: seq<Path>, rest: seq<Path>)
    requires Compacting(all, compacted, rest)
    ensures Compacted(all, Compact(compacted, rest))
    decreases |rest|
  {
    hide Compacting, HasAncestor;
    if rest == [] {
      CompactingEnds(all, compacted);
    } else {
      CompactingStep(all, compacted, rest);
      CompactKeeps(all, if HasAncestor(compacted, rest[0]) then compacted else compacted + [rest[0]], rest[1..]);
    }
  }

  lemma {:induction false} CompactingEnds(all: set<Path>, compacted: seq<Path>)
    requires Compacting(all, compacted, [])
    ensures Compacted(all, compacted)
  {
    hide Antichain, AllRepresented;
    assert all - Elements<Path>([]) == all;
  }

  /** Every hint kept survives exclusion, every survivor lies at or below a kept one, and none below another. */
  lemma {:induction false} KeptIsCompacted(o: Options, hints: seq<Path>)
    ensures Compacted(Surviving(o, hints), Kept(o, hints))
  {
    hide Surviving, Compact, Antichain, PathLeq, Ascending;
    PathsAreOrdered();
    var all := Surviving(o, hints);
    Nothing(PathLeq);
    EmptyAntichain();
    CompactKeeps(all, [], Listing(PathLeq, all));
  }

  method NormalizeHints(o: Options, hints: seq<Path>) returns (compacted: seq<Path>)
    ensures compacted == Kept(o, hints) && Compacted(Surviving(o, hints), compacted)
  {
    hide Elements, Surviving, HasAncestor, PathLeq, Ascending, Compacted;
    PathsAreOrdered();
    KeptIsCompacted(o, hints);
    var all := Surviving(o, hints);
    var rest := Enumerate(PathLeq, all);
    AscendingIsUnique(PathLeq, rest, Listing(PathLeq, all));
    compacted := [];
    while rest != []
      invariant Compact(compacted, rest) == Kept(o, hints)
      decreases |rest|
    {
      var path := rest[0];
      if !HasAncestor(compacted, path) {
        compacted := compacted + [path];
      }
      rest := rest[1..];
    }
  }

  lemma {:induction false} EmptyAntichain()
    ensures Antichain({} - {[]})
  {
  }

  lemma {:induction false} HeadAndTail(s: seq<Path>)
    requires s != [] && Ascending(PathLeq, s)
    ensures Elements(s) == {s[0]} + Elements(s[1..]) && Before(PathLeq, s[0], s[1..]) && Ascending(PathLeq, s[1..])
  {
  }

  lemma {:induction false} One(path: Path)
    ensures Elements([path]) == {path}
  {
  }

  lemma {:induction false} NoElements(s: seq<Path>)
    requires Elements(s) == {}
    ensures s == []
  {
  }

  lemma {:induction false} KeptOne(o: Options, h: Path)
    ensures Surviving(o, [h]) == if ExcludesPath(o, h) then {} else {h}
    ensures Kept(o, [h]) == if ExcludesPath(o, h) then [] else [h]
  {
    hide ExcludesPath, PathLeq;
    PathsAreOrdered();
    One(h);
    Nothing(PathLeq);
    OnlyOne(PathLeq, h);
    var list := if ExcludesPath(o, h) then [] else [h];
    AscendingIsUnique(PathLeq, Listing(PathLeq, Surviving(o, [h])), list);
    assert !HasAncestor([], h) && [h][1..] == [];
    assert [] + [h] == [h] && Compact([h], []) == [h];
  }

  lemma {:induction false} OnlyOne(leq: (Path, Path) -> bool, h: Path)
    ensures Ascending(leq, [h]) && Elements([h]) == {h}
  {
    assert [h][1..] == [];
  }
}
