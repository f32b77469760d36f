/** The order of sequences by their first difference, as byte strings, names and paths are ordered. */
module Lexicographic {
  ghost predicate TotalOrder<T(!new)>(leq: (T, T) -> bool) {
    && (forall x, y :: leq(x, y) || leq(y, x))
    && (forall x, y, z :: leq(x, y) && leq(y, z) ==> leq(x, z))
    && (forall x, y :: leq(x, y) && leq(y, x) ==> x == y)
  }

  predicate LexLeq<T(==)>(leq: (T, T) -> bool, a: seq<T>, b: seq<T>) {
    a == [] || (b != [] && if a[0] == b[0] then LexLeq(leq, a[1..], b[1..]) else leq(a[0], b[0]))
  }

  lemma {:induction false} LexTotal<T(!new)>(leq: (T, T) -> bool, a: seq<T>, b: seq<T>)
    requires TotalOrder(leq)
    ensures LexLeq(leq, a, b) || LexLeq(leq, b, a)
  {
    if a != [] && b != [] && a[0] == b[0] {
      LexTotal(leq, a[1..], b[1..]);
    }
  }

  lemma {:induction false} LexAntisymmetric<T(!new)>(leq: (T, T) -> bool, a: seq<T>, b: seq<T>)
    requires TotalOrder(leq) && LexLeq(leq, a, b) && LexLeq(leq, b, a)
    ensures a == b
  {
    if a != [] {
      assert a[0] == b[0];
      LexAntisymmetric(leq, a[1..], b[1..]);
      assert a == [a[0]] + a[1..] && b == [b[0]] + b[1..];
    }
  }

  lemma {:induction false} LexTransitive<T(!new)>(leq: (T, T) -> bool, a: seq<T>, b: seq<T>, c: seq<T>)
    requires TotalOrder(leq) && LexLeq(leq, a, b) && LexLeq(leq, b, c)
    ensures LexLeq(leq, a, c)
  {
    if a != [] && a[0] == b[0] && b[0] == c[0] {
      LexTransitive(leq, a[1..], b[1..], c[1..]);
    }
  }

  lemma {:induction false} LexIsTotalOrder<T(!new)>(leq: (T, T) -> bool)
    requires TotalOrder(leq)
    ensures TotalOrder((a: seq<T>, b: seq<T>) => LexLeq(leq, a, b))
  {
    hide LexLeq;
    forall a: seq<T>, b: seq<T> ensures LexLeq(leq, a, b) || LexLeq(leq, b, a) {
      LexTotal(leq, a, b);
    }
    forall a: seq<T>, b: seq<T> | LexLeq(leq, a, b) && LexLeq(leq, b, a) ensures a == b {
      LexAntisymmetric(leq, a, b);
    }
    forall a: seq<T>, b: seq<T>, c: seq<T> | LexLeq(leq, a, b) && LexLeq(leq, b, c) ensures LexLeq(leq, a, c) {
      LexTransitive(leq, a, b, c);
    }
  }

  /** A prefix comes first. */
  lemma {:induction false} LexPrefix<T(!new)>(leq: (T, T) -> bool, a: seq<T>, b: seq<T>)
    requires a <= b
    ensures LexLeq(leq, a, b)
  {
    if a != [] {
      LexPrefix(leq, a[1..], b[1..]);
    }
  }
}
