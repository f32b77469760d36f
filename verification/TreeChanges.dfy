/** The differences between two trees: which paths differ at the top, and how. */
module TreeChanges {
  import opened Wrappers
  import opened Workspace

  datatype ChangeKind = Added | Deleted | Modified | TypeChanged

  datatype Change = Change(path: Path, kind: ChangeKind)

  /** How the entries at the end of `p` differ, when everything above is a directory on both sides. */
  function KindAt(saved: Entries, current: Entries, p: Path): (kind: Option<ChangeKind>)
    requires p != []
    decreases |p|
  {
    var n := p[0];
    if n in saved && n in current && saved[n].Tree? && current[n].Tree? then
      if |p| == 1 then None else KindAt(saved[n].entries, current[n].entries, p[1..])
    else if |p| > 1 then None
    else EntryKind(saved, current, n)
  }

  /** How two entries differ that are not both directories. */
  function EntryKind(saved: Entries, current: Entries, n: Name): (kind: Option<ChangeKind>) {
    if n !in saved then (if n in current then Some(Added) else None)
    else if n !in current then Some(Deleted)
    else if saved[n] == current[n] then None
    else if saved[n].Blob? && current[n].Blob? then Some(Modified)
    else Some(TypeChanged)
  }

  ghost predicate NoDifference(saved: Entries, current: Entries) {
    forall p: Path :: p != [] ==> KindAt(saved, current, p).None?
  }

  /** Trees are equal exactly when no path differs. */
  lemma {:induction false} NoDifferenceIsEqual(saved: Entries, current: Entries)
    ensures saved == current <==> NoDifference(saved, current)
    decreases Tree(saved)
  {
    hide KindAt;
    if saved == current {
      forall p: Path | p != [] ensures KindAt(saved, current, p).None? {
        SameTreesAgree(saved, p);
      }
    } else if NoDifference(saved, current) {
      forall n: Name ensures n in saved <==> n in current {
        PresentInBoth(saved, current, n);
      }
      forall n <- saved ensures saved[n] == current[n] {
        AgreeAt(saved, current, n);
      }
    }
  }

  lemma {:induction false} PresentInBoth(saved: Entries, current: Entries, n: Name)
    requires NoDifference(saved, current)
    ensures n in saved <==> n in current
  {
    assert KindAt(saved, current, [n]).None?;
  }

  lemma {:induction false} SameTreesAgree(entries: Entries, p: Path)
    requires p != []
    ensures KindAt(entries, entries, p).None?
    decreases |p|
  {
    if |p| > 1 && p[0] in entries && entries[p[0]].Tree? {
      SameTreesAgree(entries[p[0]].entries, p[1..]);
    }
  }

  lemma {:induction false} AgreeAt(saved: Entries, current: Entries, n: Name)
    requires n in saved && n in current && NoDifference(saved, current)
    ensures saved[n] == current[n]
    decreases Tree(saved), 0
  {
    assert KindAt(saved, current, [n]).None?;
    if saved[n].Tree? && current[n].Tree? {
      var inner, inner' := saved[n].entries, current[n].entries;
      forall p: Path | p != [] ensures KindAt(inner, inner', p).None? {
        Descend(saved, current, n, p);
        assert KindAt(saved, current, [n] + p).None?;
      }
      NoDifferenceIsEqual(inner, inner');
    }
  }

  lemma {:induction false} Descend(saved: Entries, current: Entries, n: Name, p: Path)
    requires p != [] && n in saved && n in current && saved[n].Tree? && current[n].Tree?
    ensures KindAt(saved, current, [n] + p) == KindAt(saved[n].entries, current[n].entries, p)
  {
    assert ([n] + p)[0] == n && ([n] + p)[1..] == p;
  }

  /** A listed difference is topmost: nothing above it differs by itself. */
  lemma {:induction false} ListedIsTopmost(saved: Entries, current: Entries, p: Path, q: Path)
    requires p != [] && q != [] && q < p && KindAt(saved, current, p).Some?
    ensures KindAt(saved, current, q).None?
    decreases |p|
  {
    assert q[0] == p[0];
    if |q| > 1 {
      assert q[1..] < p[1..];
      ListedIsTopmost(saved[p[0]].entries, current[p[0]].entries, p[1..], q[1..]);
    }
  }

  function EntryAt(entries: Entries, p: Path): (id: Option<Id>)
    requires p != []
    decreases |p|
  {
    if p[0] !in entries then None
    else if |p| == 1 then Some(entries[p[0]])
    else if entries[p[0]].Blob? then None
    else EntryAt(entries[p[0]].entries, p[1..])
  }

  /** What the kind says of the two entries at the path. */
  lemma {:induction false} KindIsRight(saved: Entries, current: Entries, p: Path)
    requires p != [] && KindAt(saved, current, p).Some?
    ensures var old_, new_ := EntryAt(saved, p), EntryAt(current, p);
      match KindAt(saved, current, p).value
      case Added => old_.None? && new_.Some?
      case Deleted => old_.Some? && new_.None?
      case Modified => old_.Some? && new_.Some? && old_.value.Blob? && new_.value.Blob? && old_ != new_
      case TypeChanged => old_.Some? && new_.Some? && old_.value.Blob? != new_.value.Blob?
    decreases |p|
  {
    if |p| > 1 {
      KindIsRight(saved[p[0]].entries, current[p[0]].entries, p[1..]);
    }
  }

  /** Wherever two trees hold different entries, a listed path lies at, above or below. */
  lemma {:induction false} DifferenceIsListed(saved: Entries, current: Entries, p: Path) returns (q: Path)
    requires p != [] && EntryAt(saved, p) != EntryAt(current, p)
    ensures q != [] && KindAt(saved, current, q).Some? && (q <= p || p <= q)
    decreases |p|
  {
    var n := p[0];
    if n in saved && n in current && saved[n].Tree? && current[n].Tree? {
      var rest: Path;
      if |p| == 1 {
        rest := SomeDifference(saved[n].entries, current[n].entries);
      } else {
        rest := DifferenceIsListed(saved[n].entries, current[n].entries, p[1..]);
        assert p == [n] + p[1..];
      }
      Descend(saved, current, n, rest);
      q := [n] + rest;
    } else {
      q := [n];
      assert q <= p;
    }
  }

  lemma {:induction false} SomeDifference(saved: Entries, current: Entries) returns (q: Path)
    requires saved != current
    ensures q != [] && KindAt(saved, current, q).Some?
  {
    hide KindAt;
    NoDifferenceIsEqual(saved, current);
    q :| q != [] && KindAt(saved, current, q).Some?;
  }
}
