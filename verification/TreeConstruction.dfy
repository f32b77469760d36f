/** Building a tree from entries in any order: sorted by name, and refused when a name occurs twice. */
module TreeConstruction {
  import opened Wrappers
  import opened Bytes
  import Lexicographic
  import Sorting
  import Workspace
  import opened TreeCodec

  predicate EntryLeq(a: Entry, b: Entry) {
    Workspace.NameLeq(a.name, b.name)
  }

  predicate NameLeq(a: Name, b: Name) {
    Workspace.NameLeq(a, b)
  }

  lemma {:induction false} Orders()
    ensures Sorting.TotalPreorder(EntryLeq)
    ensures Sorting.TotalPreorder(NameLeq) && Sorting.Antisymmetric(NameLeq)
  {
    Workspace.NamesAreOrdered();
    var leq := Workspace.NameLeq;
    assert forall a: Name, b: Name :: NameLeq(a, b) == leq(a, b);
    assert forall a: Entry, b: Entry :: EntryLeq(a, b) == leq(a.name, b.name);
  }

  /** The first name that two neighbours share. */
  function FirstDuplicate(entries: seq<Entry>): (name: Option<Name>) {
    if |entries| < 2 then None
    else if entries[0].name == entries[1].name then Some(entries[0].name)
    else FirstDuplicate(entries[1..])
  }

  function New(entries: seq<Entry>): (r: Result<seq<Entry>, TreeError>) {
    Orders();
    var sorted := Sorting.Sort(EntryLeq, entries);
    var duplicate := FirstDuplicate(sorted);
    if duplicate.Some? then Err(DuplicateName(duplicate.value)) else Ok(sorted)
  }

  function Names(entries: seq<Entry>): (names: seq<Name>)
    ensures |names| == |entries|
    ensures forall i :: 0 <= i < |entries| ==> names[i] == entries[i].name
  {
    if entries == [] then [] else [entries[0].name] + Names(entries[1..])
  }

  function Without<T>(s: seq<T>, j: nat): (rest: seq<T>)
    requires j < |s|
  {
    s[..j] + s[j + 1..]
  }

  lemma {:induction false} RemoveAt<T>(s: seq<T>, j: nat)
    requires j < |s|
    ensures multiset(s) == multiset{s[j]} + multiset(Without(s, j))
  {
    assert s == s[..j] + ([s[j]] + s[j + 1..]);
    assert multiset(s[..j] + ([s[j]] + s[j + 1..])) == multiset(s[..j]) + multiset([s[j]] + s[j + 1..]);
  }

  lemma {:induction false} Cancel<T>(x: T, a: multiset<T>, b: multiset<T>)
    requires multiset{x} + a == multiset{x} + b
    ensures a == b
  {
    assert a == (multiset{x} + a) - multiset{x};
    assert b == (multiset{x} + b) - multiset{x};
  }

  lemma {:induction false} NamesWithout(b: seq<Entry>, j: nat)
    requires j < |b|
    ensures Names(Without(b, j)) == Without(Names(b), j)
  {
  }

  /** Rearranged entries have rearranged names. */
  lemma {:induction false} NamesOfMultiset(a: seq<Entry>, b: seq<Entry>)
    requires multiset(a) == multiset(b)
    ensures multiset(Names(a)) == multiset(Names(b))
    decreases |a|
  {
    hide Names, Without;
    assert |a| == |multiset(a)| == |b|;
    if a != [] {
      assert a[0] in multiset(b);
      var j :| 0 <= j < |b| && b[j] == a[0];
      RemoveAt(a, 0);
      RemoveAt(b, j);
      Shorter(a, 0);
      Cancel(a[0], multiset(Without(a, 0)), multiset(Without(b, j)));
      NamesOfMultiset(Without(a, 0), Without(b, j));
      NamesWithout(a, 0);
      NamesWithout(b, j);
      RemoveAt(Names(a), 0);
      RemoveAt(Names(b), j);
    } else {
      assert a == b;
    }
  }

  lemma {:induction false} Shorter<T>(s: seq<T>, j: nat)
    requires j < |s|
    ensures |Without(s, j)| == |s| - 1
  {
  }

  /** Sorted by name, so are the names. */
  lemma {:induction false} SortedNames(entries: seq<Entry>)
    requires Sorting.Sorted(EntryLeq, entries)
    ensures Sorting.Sorted(NameLeq, Names(entries))
  {
    hide Names;
    var names := Names(entries);
    forall i, j | 0 <= i < j < |names| ensures NameLeq(names[i], names[j]) {
      assert EntryLeq(entries[i], entries[j]);
    }
  }

  function DuplicateOf(names: seq<Name>): (name: Option<Name>) {
    if |names| < 2 then None else if names[0] == names[1] then Some(names[0]) else DuplicateOf(names[1..])
  }

  lemma {:induction false} DuplicateByNames(entries: seq<Entry>)
    ensures FirstDuplicate(entries) == DuplicateOf(Names(entries))
    decreases |entries|
  {
    if |entries| >= 2 {
      DuplicateByNames(entries[1..]);
      assert Names(entries)[1..] == Names(entries[1..]);
    }
  }

  /** In a sorted list without equal neighbours no name occurs twice. */
  lemma {:induction false} NoDuplicate(names: seq<Name>, k: nat)
    requires Sorting.Sorted(NameLeq, names) && DuplicateOf(names).None? && 0 < k < |names|
    ensures names[0] != names[k]
  {
    hide NameLeq;
    assert names[0] != names[1];
    if k > 1 {
      Squeeze(names[0], names[1], names[k]);
    }
  }

  lemma {:induction false} Squeeze(x: Name, y: Name, z: Name)
    requires NameLeq(x, y) && NameLeq(y, z) && x != y
    ensures x != z
  {
    if NameLeq(y, x) {
      Workspace.NamesAreOrdered();
      Lexicographic.LexAntisymmetric(Workspace.ByteLeq, x, y);
    }
  }

  /** Equal names in the same order and the same entries overall: the same list. */
  lemma {:induction false} SameEntries(a: seq<Entry>, b: seq<Entry>)
    requires multiset(a) == multiset(b) && Names(a) == Names(b)
    requires Sorting.Sorted(NameLeq, Names(a)) && DuplicateOf(Names(a)).None?
    ensures a == b
    decreases |a|
  {
    hide Sorting.Sorted, DuplicateOf, Names;
    assert |a| == |Names(a)| == |b|;
    if a != [] {
      SameHead(a, b);
      SameTails(a, b);
      SameEntries(a[1..], b[1..]);
      assert a == [a[0]] + a[1..] && b == [b[0]] + b[1..];
    }
  }

  lemma {:induction false} SameHead(a: seq<Entry>, b: seq<Entry>)
    requires a != [] && multiset(a) == multiset(b) && Names(a) == Names(b)
    requires Sorting.Sorted(NameLeq, Names(a)) && DuplicateOf(Names(a)).None?
    ensures b != [] && a[0] == b[0]
  {
    hide Sorting.Sorted, DuplicateOf, Names;
    assert a[0] in multiset(b);
    var j :| 0 <= j < |b| && b[j] == a[0];
    assert Names(a)[0] == a[0].name && Names(b)[j] == a[0].name;
    if j > 0 {
      NoDuplicate(Names(a), j);
    }
  }

  lemma {:induction false} SameTails(a: seq<Entry>, b: seq<Entry>)
    requires a != [] && b != [] && a[0] == b[0] && multiset(a) == multiset(b) && Names(a) == Names(b)
    requires Sorting.Sorted(NameLeq, Names(a)) && DuplicateOf(Names(a)).None?
    ensures multiset(a[1..]) == multiset(b[1..]) && Names(a[1..]) == Names(b[1..])
    ensures Sorting.Sorted(NameLeq, Names(a[1..])) && DuplicateOf(Names(a[1..])).None?
  {
    hide NameLeq;
    assert Names(a)[1..] == Names(a[1..]) && Names(b)[1..] == Names(b[1..]);
    TailMultiset(a, b);
    var names, rest := Names(a), Names(a[1..]);
    forall i, j | 0 <= i < j < |rest| ensures NameLeq(rest[i], rest[j]) {
      assert NameLeq(names[i + 1], names[j + 1]);
    }
  }

  lemma {:induction false} TailMultiset(a: seq<Entry>, b: seq<Entry>)
    requires a != [] && b != [] && a[0] == b[0] && multiset(a) == multiset(b)
    ensures multiset(a[1..]) == multiset(b[1..])
  {
    RemoveAt(a, 0);
    RemoveAt(b, 0);
    Cancel(a[0], multiset(Without(a, 0)), multiset(Without(b, 0)));
    assert Without(a, 0) == a[1..] && Without(b, 0) == b[1..];
  }

  /** Whatever order the entries come in, the tree is the same, and so is the error when a name occurs twice. */
  lemma {:induction false} NewIgnoresOrder(a: seq<Entry>, b: seq<Entry>)
    requires multiset(a) == multiset(b)
    ensures New(a) == New(b)
  {
    hide Names, FirstDuplicate, DuplicateOf, EntryLeq, NameLeq;
    Orders();
    var s, t := Sorting.Sort(EntryLeq, a), Sorting.Sort(EntryLeq, b);
    SortedNames(s);
    SortedNames(t);
    NamesOfMultiset(s, t);
    Sorting.SortedIsUnique(NameLeq, Names(s), Names(t));
    DuplicateByNames(s);
    DuplicateByNames(t);
    if FirstDuplicate(s).None? {
      SameEntries(s, t);
    }
  }

  lemma {:induction false} StrictlyAscending(utf8: Utf8, previous: Option<Name>, entries: seq<Entry>)
    requires Sorting.Sorted(EntryLeq, entries) && FirstDuplicate(entries).None?
    requires forall i :: 0 <= i < |entries| ==> EntryOk(utf8, entries[i])
    requires entries != [] ==> OrderFault(previous, entries[0].name).None?
    ensures EntriesOk(utf8, previous, entries)
    decreases |entries|
  {
    hide EntryOk;
    if entries != [] {
      if |entries| > 1 {
        assert EntryLeq(entries[0], entries[1]);
      }
      StrictlyAscending(utf8, Some(entries[0].name), entries[1..]);
    }
  }

  /** A tree that is built holds exactly the entries given,
    in canonical form; it is refused only for a repeated name. */
  lemma {:induction false} NewIsCanonical(utf8: Utf8, entries: seq<Entry>)
    requires |entries| < U32 && forall i :: 0 <= i < |entries| ==> EntryOk(utf8, entries[i])
    ensures New(entries).Ok? ==> TreeOk(utf8, New(entries).value) && multiset(New(entries).value) == multiset(entries)
    ensures New(entries).Err? ==> exists name :: New(entries).error == DuplicateName(name) && Repeated(entries, name)
  {
    hide EntryOk, EntryLeq, EntriesOk;
    Orders();
    var sorted := Sorting.Sort(EntryLeq, entries);
    assert |sorted| == |multiset(sorted)| == |entries|;
    if New(entries).Ok? {
      forall i | 0 <= i < |sorted| ensures EntryOk(utf8, sorted[i]) {
        assert sorted[i] in multiset(entries);
      }
      StrictlyAscending(utf8, None, sorted);
    } else {
      var i := DuplicateIndex(sorted);
      RepeatedInSorted(entries, sorted, i);
    }
  }

  /** Two of the entries have this name. */
  ghost predicate Repeated(entries: seq<Entry>, name: Name) {
    multiset(Names(entries))[name] >= 2
  }

  lemma {:induction false} DuplicateIndex(entries: seq<Entry>) returns (i: nat)
    requires FirstDuplicate(entries).Some?
    ensures i + 1 < |entries| && entries[i].name == entries[i + 1].name == FirstDuplicate(entries).value
    decreases |entries|
  {
    if entries[0].name == entries[1].name {
      i := 0;
    } else {
      var k := DuplicateIndex(entries[1..]);
      i := k + 1;
    }
  }

  lemma {:induction false} RepeatedInSorted(entries: seq<Entry>, sorted: seq<Entry>, i: nat)
    requires multiset(entries) == multiset(sorted) && i + 1 < |sorted| && sorted[i].name == sorted[i + 1].name
    ensures Repeated(entries, sorted[i].name)
  {
    NamesOfMultiset(entries, sorted);
    var names := Names(sorted);
    RemoveAt(names, i);
    assert Without(names, i)[i] == names[i + 1];
    RemoveAt(Without(names, i), i);
  }
}
