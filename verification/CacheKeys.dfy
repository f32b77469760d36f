/** Paths as keys of the cache's ordered table, and the range scan that removes a subtree of them. */
module CacheKeys {
  import opened Wrappers
  import opened Bytes
  import opened Lexicographic
  import opened Ascents
  import opened Workspace

  const SLASH: Byte := 47

  type Key = Bytes

  predicate SlashFree(s: Bytes) {
    s == [] || (s[0] != SLASH && SlashFree(s[1..]))
  }

  predicate ValidName(n: Name) {
    n != [] && SlashFree(n)
  }

  predicate ValidPath(p: Path) {
    p == [] || (ValidName(p[0]) && ValidPath(p[1..]))
  }

  /** The segments of a path joined by slashes. */
  function EncodeKey(p: Path): (key: Key) {
    if p == [] then [] else if |p| == 1 then p[0] else p[0] + ([SLASH] + EncodeKey(p[1..]))
  }

  /** The bytes before the first slash. */
  function FirstSegment(key: Key): (n: Name)
    ensures |n| <= |key|
  {
    if key == [] || key[0] == SLASH then [] else [key[0]] + FirstSegment(key[1..])
  }

  /** Splits at the slashes; an empty segment is an error. */
  function Segments(key: Key): (p: Option<Path>) {
    var n := FirstSegment(key);
    if n == [] then None
    else if |n| == |key| then Some([n])
    else
      var rest := Segments(key[|n| + 1..]);
      if rest.None? then None else Some([n] + rest.value)
  }

  function DecodeKey(key: Key): (p: Option<Path>) {
    if key == [] then Some([]) else Segments(key)
  }

  /** The rest of a key after its first segment. */
  ghost predicate Tail(rest: Bytes) {
    rest == [] || rest[0] == SLASH
  }

  lemma {:induction false} FirstSegmentOf(n: Name, rest: Bytes)
    requires SlashFree(n) && Tail(rest)
    ensures FirstSegment(n + rest) == n
  {
    if n == [] {
      assert n + rest == rest;
    } else {
      assert (n + rest)[0] == n[0] && (n + rest)[1..] == n[1..] + rest;
      FirstSegmentOf(n[1..], rest);
      assert n == [n[0]] + n[1..];
    }
  }

  lemma {:induction false} FirstSegmentSplits(key: Key)
    ensures SlashFree(FirstSegment(key)) && key[..|FirstSegment(key)|] == FirstSegment(key)
    ensures Tail(key[|FirstSegment(key)|..])
  {
    if key != [] && key[0] != SLASH {
      FirstSegmentSplits(key[1..]);
      var n := FirstSegment(key[1..]);
      assert ([key[0]] + n)[1..] == n;
      assert key == [key[0]] + key[1..];
      assert key[1..][|n|..] == key[|n| + 1..];
    }
  }

  /** What follows the first segment of a path in its key. */
  function Following(p: Path): (rest: Bytes)
    requires p != []
  {
    if |p| == 1 then [] else [SLASH] + EncodeKey(p[1..])
  }

  lemma {:induction false} KeySplits(p: Path)
    requires p != [] && ValidPath(p)
    ensures EncodeKey(p) == p[0] + Following(p) && Tail(Following(p)) && FirstSegment(EncodeKey(p)) == p[0]
  {
    assert p[0] + [] == p[0];
    FirstSegmentOf(p[0], Following(p));
  }

  lemma {:induction false} DecodeOfEncodeKey(p: Path)
    requires ValidPath(p)
    ensures DecodeKey(EncodeKey(p)) == Some(p)
  {
    if p != [] {
      KeySplits(p);
      assert |p| == 1 ==> p == [p[0]];
      if |p| > 1 {
        DecodeOfEncodeKey(p[1..]);
        KeySplits(p[1..]);
        assert EncodeKey(p)[|p[0]| + 1..] == EncodeKey(p[1..]);
        assert p == [p[0]] + p[1..];
      }
    }
  }

  /** A key is the segments with a '/' between every two of them. */
  lemma {:induction false} KeyIsJoined(p: Path, n: Name)
    ensures EncodeKey([n]) == n
    ensures p != [] ==> EncodeKey(p + [n]) == EncodeKey(p) + (['/' as int] + n)
    decreases |p|
  {
    if p != [] {
      assert (p + [n])[1..] == p[1..] + [n];
      assert |p| == 1 ==> p[1..] + [n] == [n];
      KeyIsJoined(p[1..], n);
    }
  }

  /** No segment is empty: no '/' at either end and no two in a row. */
  ghost predicate NoneEmpty(key: Key) {
    && key != [] && key[0] != '/' as int && key[|key| - 1] != '/' as int
    && forall i :: 0 < i < |key| && key[i] == '/' as int ==> key[i - 1] != '/' as int
  }

  lemma {:induction false} FirstIsSlashFree(key: Key, i: nat)
    requires i < |FirstSegment(key)|
    ensures key[i] != '/' as int
  {
    if i > 0 {
      FirstIsSlashFree(key[1..], i - 1);
    }
  }

  lemma {:induction false} SegmentsWhere(key: Key)
    ensures Segments(key).Some? <==> NoneEmpty(key)
    decreases |key|
  {
    var n := FirstSegment(key);
    FirstSegmentSplits(key);
    if n != [] && |n| < |key| {
      var rest := key[|n| + 1..];
      assert key[|n|..][0] == key[|n|] == '/' as int;
      SegmentsWhere(rest);
      forall i | 0 <= i < |n| ensures key[i] != '/' as int {
        FirstIsSlashFree(key, i);
      }
      assert forall i :: 0 <= i < |rest| ==> rest[i] == key[|n| + 1 + i];
      if NoneEmpty(rest) {
        forall i | 0 < i < |key| && key[i] == '/' as int ensures key[i - 1] != '/' as int {
          assert i > |n| + 1 ==> rest[i - |n| - 1] == key[i] && rest[i - |n| - 2] == key[i - 1];
        }
      }
    } else if n != [] {
      forall i | 0 <= i < |key| ensures key[i] != '/' as int {
        FirstIsSlashFree(key, i);
      }
    }
  }

  /** Exactly the keys with an empty segment are refused; the empty key is the root's. */
  lemma {:induction false} AcceptedKeys(key: Key)
    ensures DecodeKey(key).Some? <==> key == [] || NoneEmpty(key)
    ensures DecodeKey([]) == Some([])
  {
    SegmentsWhere(key);
  }

  lemma {:induction false} EncodeOfDecodeKey(key: Key)
    requires DecodeKey(key).Some?
    ensures ValidPath(DecodeKey(key).value) && EncodeKey(DecodeKey(key).value) == key
  {
    if key != [] {
      EncodeOfSegments(key);
    }
  }

  lemma {:induction false} EncodeOfSegments(key: Key)
    requires Segments(key).Some?
    ensures Segments(key).value != [] && ValidPath(Segments(key).value) && EncodeKey(Segments(key).value) == key
    decreases |key|
  {
    FirstSegmentSplits(key);
    var n := FirstSegment(key);
    if |n| < |key| {
      EncodeOfSegments(key[|n| + 1..]);
      assert key == n + ([SLASH] + key[|n| + 1..]);
    }
  }

  /** `key` is `stem` or continues it after a slash. */
  predicate Continues(stem: Key, key: Key) {
    key == stem || stem + [SLASH] <= key
  }

  /** A key's prefix up to a slash is a path's prefix: the string test and the path test select the same records. */
  lemma {:induction false} KeyMatches(p: Path, q: Path)
    requires ValidPath(p) && ValidPath(q) && p != []
    ensures p <= q <==> Continues(EncodeKey(p), EncodeKey(q))
    decreases |p|
  {
    hide EncodeKey, Continues;
    if q == [] || p[0] != q[0] {
      OtherFirst(p, q);
    } else if |p| == 1 || |q| == 1 {
      ShortKey(p, q);
    } else {
      KeyMatches(p[1..], q[1..]);
      LongKey(p);
      LongKey(q);
      CommonHead(p[0] + [SLASH], EncodeKey(p[1..]), EncodeKey(q[1..]));
      CommonFirst(p, q);
    }
  }

  lemma {:induction false} LongKey(p: Path)
    requires |p| > 1
    ensures EncodeKey(p) == (p[0] + [SLASH]) + EncodeKey(p[1..])
  {
  }

  lemma {:induction false} ShortKey(p: Path, q: Path)
    requires ValidPath(p) && ValidPath(q) && p != [] && q != [] && p[0] == q[0] && (|p| == 1 || |q| == 1)
    ensures p <= q <==> Continues(EncodeKey(p), EncodeKey(q))
  {
    assert |p| == 1 ==> p == [p[0]];
    if |q| > 1 {
      LongKey(q);
    } else if |p| > 1 {
      LongKey(p);
    }
  }

  lemma {:induction false} OtherFirst(p: Path, q: Path)
    requires ValidPath(p) && ValidPath(q) && p != [] && (q == [] || p[0] != q[0])
    ensures !(p <= q) && !Continues(EncodeKey(p), EncodeKey(q))
  {
    hide EncodeKey, FirstSegment;
    KeySplits(p);
    if q != [] {
      KeySplits(q);
      if EncodeKey(p) + [SLASH] <= EncodeKey(q) {
        FirstOfLonger(p, EncodeKey(q));
      }
    } else {
      EmptyKey();
    }
  }

  lemma {:induction false} EmptyKey()
    ensures EncodeKey([]) == []
  {
  }

  lemma {:induction false} CommonHead(head: Bytes, a: Bytes, b: Bytes)
    ensures Continues(head + a, head + b) <==> Continues(a, b)
  {
    SameAfter(head, a, b);
    PrefixAfter(head, a + [SLASH], b);
    assert (head + a) + [SLASH] == head + (a + [SLASH]);
  }

  lemma {:induction false} SameAfter(head: Bytes, a: Bytes, b: Bytes)
    ensures head + a == head + b <==> a == b
  {
    Peel(head, a);
    Peel(head, b);
  }

  lemma {:induction false} PrefixAfter(head: Bytes, a: Bytes, b: Bytes)
    ensures head + a <= head + b <==> a <= b
  {
    if head + a <= head + b {
      assert a == (head + b)[|head|..|head| + |a|];
    }
  }

  lemma {:induction false} CommonFirst(p: Path, q: Path)
    requires p != [] && q != [] && p[0] == q[0]
    ensures p <= q <==> p[1..] <= q[1..]
  {
    if p[1..] <= q[1..] {
      assert p == [p[0]] + p[1..] && q == [q[0]] + q[1..];
    }
  }

  lemma {:induction false} FirstOfLonger(p: Path, key: Key)
    requires ValidPath(p) && p != [] && EncodeKey(p) + [SLASH] <= key
    ensures FirstSegment(key) == p[0]
  {
    KeySplits(p);
    var rest := key[|p[0]|..];
    assert key == EncodeKey(p) + [SLASH] + key[|EncodeKey(p)| + 1..];
    assert rest == Following(p) + [SLASH] + key[|EncodeKey(p)| + 1..];
    assert key == p[0] + rest;
    FirstSegmentOf(p[0], rest);
  }

  /** Between a string and a longer one that extends it, every string extends it. */
  lemma {:induction false} Sandwich(prefix: Key, low: Key, high: Key)
    requires NameLeq(prefix, low) && NameLeq(low, high) && prefix <= high
    ensures prefix <= low
  {
    LexSandwich(prefix, low, high);
  }

  lemma {:induction false} LexSandwich(prefix: Key, low: Key, high: Key)
    requires LexLeq(ByteLeq, prefix, low) && LexLeq(ByteLeq, low, high) && prefix <= high
    ensures prefix <= low
    decreases |prefix|
  {
    if prefix != [] {
      assert prefix[0] == high[0];
      LexSandwich(prefix[1..], low[1..], high[1..]);
      assert prefix == [prefix[0]] + prefix[1..] && low == [low[0]] + low[1..];
    }
  }

  /** The keys of a table decode to the paths of its records. */
  ghost predicate KeysDecode<T>(table: map<Key, T>) {
    forall k <- table :: DecodeKey(k).Some?
  }

  /** The record's key lies at or below the path, as a string. */
  predicate KeyBelow(path: Path, k: Key) {
    path == [] || Continues(EncodeKey(path), k)
  }

  lemma {:induction false} KeyBelowIsPathBelow(path: Path, k: Key)
    requires ValidPath(path) && DecodeKey(k).Some?
    ensures KeyBelow(path, k) <==> path <= DecodeKey(k).value
  {
    EncodeOfDecodeKey(k);
    if path != [] {
      KeyMatches(path, DecodeKey(k).value);
    }
  }

  function Above(prefix: Key, keys: set<Key>): (above: set<Key>) {
    set k <- keys | NameLeq(prefix, k)
  }

  /** The ordered scan from `prefix` on, which stops at the first key that does not start with it. */
  method ScanRange(prefix: Key, keys: set<Key>) returns (found: set<Key>)
    ensures found == set k <- keys | prefix <= k
  {
    hide NameLeq, Elements, Ascending;
    NamesAreOrdered();
    var range := Enumerate(NameLeq, Above(prefix, keys));
    found := {};
    var i: nat := 0;
    assert range[0..] == range;
    while i < |range|
      invariant i <= |range| && Ascending(NameLeq, range[i..]) && Elements(range[i..]) <= Above(prefix, keys)
      invariant found == set k <- Above(prefix, keys) - Elements(range[i..]) | prefix <= k
    {
      var key := range[i];
      NextKey(range, i);
      if !(prefix <= key) {
        assert range[i..][0] == key;
        break;
      }
      found := found + {key};
      assert Above(prefix, keys) - Elements(range[i + 1..]) == Above(prefix, keys) - Elements(range[i..]) + {key};
      i := i + 1;
    }
    forall k <- keys | prefix <= k ensures k in found {
      PrefixIsAbove(prefix, k);
      NotInRest(prefix, range[i..], k);
    }
  }

  /** Once the scan meets a key that does not start with the prefix, no later key does. */
  lemma {:induction false} NotInRest(prefix: Key, rest: seq<Key>, k: Key)
    requires Ascending(NameLeq, rest) && prefix <= k
    requires rest != [] ==> NameLeq(prefix, rest[0]) && !(prefix <= rest[0])
    ensures k !in Elements(rest)
  {
    hide NameLeq;
    if rest != [] && k in Elements(rest) && k != rest[0] {
      assert NameLeq(rest[0], k);
      Sandwich(prefix, rest[0], k);
    }
  }

  lemma {:induction false} PrefixIsAbove(prefix: Key, k: Key)
    requires prefix <= k
    ensures NameLeq(prefix, k)
  {
    LexPrefix(ByteLeq, prefix, k);
  }

  lemma {:induction false} NextKey(range: seq<Key>, i: nat)
    requires i < |range| && Ascending(NameLeq, range[i..])
    ensures Elements(range[i..]) == {range[i]} + Elements(range[i + 1..]) && range[i] !in Elements(range[i + 1..])
    ensures Ascending(NameLeq, range[i + 1..])
  {
    hide NameLeq;
    assert range[i..][0] == range[i] && range[i..][1..] == range[i + 1..];
  }

  /** The table without the records at or below `path`: its own key, and the range of keys that continue it. */
  method RemovePathFromTable<T>(table: map<Key, T>, path: Path) returns (left: map<Key, T>)
    requires ValidPath(path) && KeysDecode(table)
    ensures left == map k | k in table && !(path <= DecodeKey(k).value) :: table[k]
  {
    hide EncodeKey, DecodeKey;
    var key := EncodeKey(path);
    left := table - {key};
    if key != [] {
      var found := ScanRange(key + [SLASH], left.Keys);
      left := left - found;
    } else {
      left := map[];
    }
    EmptyKeyIsRoot(path);
    forall k <- table ensures k in left <==> !(path <= DecodeKey(k).value) {
      KeyBelowIsPathBelow(path, k);
    }
  }

  lemma {:induction false} EmptyKeyIsRoot(path: Path)
    requires ValidPath(path)
    ensures EncodeKey(path) == [] <==> path == []
  {
  }
}
