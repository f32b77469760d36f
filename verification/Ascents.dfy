/** Finite sets listed in strictly ascending order, as an ordered set or a sorted directory listing is. */
module Ascents {
  import opened Lexicographic
  import Seqs

  function Elements<T>(s: seq<T>): (elements: set<T>) {
    if s == [] then {} else {s[0]} + Elements(s[1..])
  }

  /** `x` comes strictly before every element of `s`. */
  ghost predicate Before<T>(leq: (T, T) -> bool, x: T, s: seq<T>) {
    forall y <- Elements(s) :: leq(x, y) && x != y
  }

  ghost predicate Ascending<T>(leq: (T, T) -> bool, s: seq<T>) {
    s == [] || (Before(leq, s[0], s[1..]) && Ascending(leq, s[1..]))
  }

  /** The ascending sequence with `x` among its elements. */
  function Insert<T(==)>(leq: (T, T) -> bool, x: T, s: seq<T>): (r: seq<T>) {
    if s == [] then [x]
    else if s[0] == x then s
    else if leq(x, s[0]) then [x] + s
    else [s[0]] + Insert(leq, x, s[1..])
  }

  lemma {:induction false} InsertAscends<T(!new)>(leq: (T, T) -> bool, x: T, s: seq<T>)
    requires TotalOrder(leq) && Ascending(leq, s)
    ensures Ascending(leq, Insert(leq, x, s)) && Elements(Insert(leq, x, s)) == Elements(s) + {x}
  {
    if s == [] {
      Seqs.ConcatTail(x, s);
    } else if s[0] != x {
      if leq(x, s[0]) {
        Seqs.ConcatTail(x, s);
      } else {
        InsertAscends(leq, x, s[1..]);
        Seqs.ConcatTail(s[0], Insert(leq, x, s[1..]));
      }
    }
  }

  /** Lists a finite set in ascending order. */
  method Enumerate<T(==,!new)>(leq: (T, T) -> bool, elements: set<T>) returns (r: seq<T>)
    requires TotalOrder(leq)
    ensures Ascending(leq, r) && Elements(r) == elements
  {
    hide Insert, TotalOrder, Ascending, Elements;
    r := [];
    Nothing(leq);
    var todo := elements;
    while todo != {}
      invariant todo <= elements && Ascending(leq, r) && Elements(r) == elements - todo
      decreases todo
    {
      var x :| x in todo;
      InsertAscends(leq, x, r);
      r := Insert(leq, x, r);
      todo := todo - {x};
    }
  }

  lemma {:induction false} Nothing<T>(leq: (T, T) -> bool)
    ensures Ascending(leq, []) && Elements<T>([]) == {}
  {
  }

  lemma {:induction false} ElementsAt<T>(s: seq<T>, i: nat)
    requires i < |s|
    ensures s[i] in Elements(s)
  {
    if i > 0 {
      ElementsAt(s[1..], i - 1);
    }
  }

  lemma {:induction false} ElementsAppend<T>(s: seq<T>, t: seq<T>)
    ensures Elements(s + t) == Elements(s) + Elements(t)
  {
    if s == [] {
      assert s + t == t;
    } else {
      Seqs.ConcatTail(s[0], s[1..] + t);
      assert s + t == [s[0]] + (s[1..] + t);
      ElementsAppend(s[1..], t);
    }
  }

  /** Two ascending lists of the same set are the same list. */
  lemma {:induction false} AscendingIsUnique<T(!new)>(leq: (T, T) -> bool, a: seq<T>, b: seq<T>)
    requires TotalOrder(leq) && Ascending(leq, a) && Ascending(leq, b) && Elements(a) == Elements(b)
    ensures a == b
  {
    if a != [] && b != [] {
      SameHead(leq, a, b);
      AscendingIsUnique(leq, a[1..], b[1..]);
      assert a == [a[0]] + a[1..] && b == [b[0]] + b[1..];
    }
  }

  lemma {:induction false} SameHead<T(!new)>(leq: (T, T) -> bool, a: seq<T>, b: seq<T>)
    requires TotalOrder(leq) && Ascending(leq, a) && Ascending(leq, b) && Elements(a) == Elements(b)
    requires a != [] && b != []
    ensures a[0] == b[0] && Elements(a[1..]) == Elements(b[1..])
  {
    assert a[0] in Elements(b) && b[0] in Elements(a);
    assert Elements(a[1..]) == Elements(a) - {a[0]};
    assert Elements(b[1..]) == Elements(b) - {b[0]};
  }

  /** The ascending list of a finite set. */
  ghost function Listing<T(!new)>(leq: (T, T) -> bool, elements: set<T>): (r: seq<T>)
    requires TotalOrder(leq)
    ensures Ascending(leq, r) && Elements(r) == elements
  {
    if elements == {} then []
    else
      var x :| x in elements;
      var rest := Listing(leq, elements - {x});
      InsertAscends(leq, x, rest);
      Insert(leq, x, rest)
  }
}
