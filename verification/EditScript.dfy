/** The regions of a base that one side edited, and what applying them yields. */
module EditScript {
  import opened Matching
  import opened Patience
  import PatienceSearch
  import Seqs

  /** Base lines [start, end) are replaced. */
  datatype Edit<T> = Edit(start: nat, end: nat, replacement: seq<T>) {
    predicate IsInsertion() {
      start == end
    }
  }

  /**
   Edits of a base of `n` lines, from position `pos` on: each changes something, and between two of them
   at least one base line is untouched.
   */
  ghost predicate Script<T>(n: nat, edits: seq<Edit<T>>, pos: nat) {
    edits == [] ||
    (&& pos <= edits[0].start <= edits[0].end <= n
     && (edits[0].start < edits[0].end || edits[0].replacement != [])
     && Script(n, edits[1..], edits[0].end + 1))
  }

  lemma {:induction false} ScriptEarlier<T>(n: nat, edits: seq<Edit<T>>, pos: nat, next: nat)
    requires pos <= next && Script(n, edits, next)
    ensures Script(n, edits, pos)
  {
  }

  /** The side that the edits make of the base lines from `pos` on. */
  ghost function Apply<T>(base: seq<T>, edits: seq<Edit<T>>, pos: nat): (side: seq<T>)
    requires pos <= |base| && Script(|base|, edits, pos)
  {
    if edits == [] then base[pos..]
    else
      ScriptEarlier(|base|, edits[1..], edits[0].end, edits[0].end + 1);
      base[pos..edits[0].start] + (edits[0].replacement + Apply(base, edits[1..], edits[0].end))
  }

  /** Lines before the first edit pass through unchanged. */
  lemma {:induction false} ApplyAdvance<T>(base: seq<T>, edits: seq<Edit<T>>, pos: nat, next: nat)
    requires pos <= next <= |base| && Script(|base|, edits, next)
    ensures Script(|base|, edits, pos)
    ensures Apply(base, edits, pos) == base[pos..next] + Apply(base, edits, next)
  {
    if edits == [] {
      Seqs.SplitTail(base, pos, next);
    } else {
      var start := edits[0].start;
      ScriptEarlier(|base|, edits[1..], edits[0].end, edits[0].end + 1);
      var rest := edits[0].replacement + Apply(base, edits[1..], edits[0].end);
      Seqs.Split(base, pos, next, start);
      Seqs.Assoc(base[pos..next], base[next..start], rest);
    }
  }

  /** Two stretches of base lines before the first edit. */
  lemma {:induction false} ApplyAdvanceTwice<T>(base: seq<T>, edits: seq<Edit<T>>, pos: nat, mid: nat, next: nat)
    requires pos <= mid <= next <= |base| && Script(|base|, edits, next)
    ensures Script(|base|, edits, pos)
    ensures Apply(base, edits, pos) == base[pos..mid] + (base[mid..next] + Apply(base, edits, next))
  {
    ApplyAdvance(base, edits, mid, next);
    ApplyAdvance(base, edits, pos, mid);
  }

  /** Applying a script is applying a front of it to a front of the base, then the rest to the rest. */
  lemma {:induction false} ApplySplit<T>(base: seq<T>, edits: seq<Edit<T>>, pos: nat, count: nat, cut: nat)
    requires pos <= cut <= |base| && count <= |edits| && Script(|base|, edits, pos)
    requires Script(cut, edits[..count], pos) && Script(|base|, edits[count..], cut)
    ensures Apply(base, edits, pos) == Apply(base[..cut], edits[..count], pos) + Apply(base, edits[count..], cut)
    decreases count
  {
    var front := base[..cut];
    if count == 0 {
      assert edits[0..] == edits && edits[..0] == [] && front[pos..] == base[pos..cut];
      ApplyAdvance(base, edits, pos, cut);
    } else {
      var edit, rest := edits[0], edits[1..];
      assert edits[..count][0] == edit && edits[..count][1..] == rest[..count - 1];
      assert edits[count..] == rest[count - 1..];
      assert front[pos..edit.start] == base[pos..edit.start];
      ScriptEarlier(|base|, rest, edit.end, edit.end + 1);
      ScriptEarlier(cut, rest[..count - 1], edit.end, edit.end + 1);
      ApplySplit(base, rest, edit.end, count - 1, cut);
      var left, right := Apply(front, rest[..count - 1], edit.end), Apply(base, edits[count..], cut);
      Seqs.Assoc(edit.replacement, left, right);
      Seqs.Assoc(base[pos..edit.start], edit.replacement + left, right);
    }
  }

  /** From base line `b` on, the edits produce the side from line `s` on. */
  ghost predicate Gives<T>(base: seq<T>, edits: seq<Edit<T>>, b: nat, side: seq<T>, s: nat) {
    && b <= |base| && s <= |side| && Script(|base|, edits, b)
    && Apply(base, edits, b) == side[s..]
  }

  /** The edit, if any, that turns base lines [b, b') into side lines [s, s'). */
  function Gap<T>(b: nat, b': nat, s: nat, s': nat, side: seq<T>): (edits: seq<Edit<T>>)
    requires s <= s' <= |side|
  {
    if b != b' || s != s' then [Edit(b, b', side[s..s'])] else []
  }

  /** The edits between consecutive matches, from base line `b` and side line `s` on. */
  ghost function Between<T>(base: seq<T>, side: seq<T>, matches: seq<Pair>, b: nat, s: nat): (edits: seq<Edit<T>>)
    requires b <= |base| && s <= |side| && IsMatching(base, side, Box(b, |base|, s, |side|), matches)
  {
    if matches == [] then Gap(b, |base|, s, |side|, side)
    else
      Gap(b, matches[0].0, s, matches[0].1, side)
      + Between(base, side, matches[1..], matches[0].0 + 1, matches[0].1 + 1)
  }

  lemma {:induction false} ApplyGap<T>(base: seq<T>, side: seq<T>, b: nat, b': nat, s: nat, s': nat, rest: seq<Edit<T>>)
    requires b <= b' <= |base| && s <= s' <= |side|
    requires Script(|base|, rest, b' + 1)
    ensures Script(|base|, rest, b') && Script(|base|, Gap(b, b', s, s', side) + rest, b)
    ensures Apply(base, Gap(b, b', s, s', side) + rest, b) == side[s..s'] + Apply(base, rest, b')
  {
    ScriptEarlier(|base|, rest, b', b' + 1);
    if b == b' && s == s' {
      Seqs.Empty(rest);
      Seqs.Empty(Apply(base, rest, b'));
    } else {
      var edit := Edit(b, b', side[s..s']);
      Seqs.ConcatTail(edit, rest);
      Seqs.Empty(edit.replacement + Apply(base, rest, b'));
      assert base[b..b] == [];
    }
  }

  /** A gap, then a matched line, then edits that give the rest of the side. */
  lemma {:induction false} ApplyGapMatch<T>(base: seq<T>, side: seq<T>, b: nat, b': nat, s: nat, s': nat,
                                            rest: seq<Edit<T>>)
    requires b <= b' < |base| && s <= s' < |side| && base[b'] == side[s']
    requires Gives(base, rest, b' + 1, side, s' + 1)
    ensures Gives(base, Gap(b, b', s, s', side) + rest, b, side, s)
  {
    ApplyAdvance(base, rest, b', b' + 1);
    assert base[b'..b' + 1] == [side[s']];
    Seqs.HeadTail(side, s');
    ApplyGap(base, side, b, b', s, s', rest);
    Seqs.SplitTail(side, s, s');
  }

  lemma {:induction false} LastGapApplies<T>(base: seq<T>, side: seq<T>, b: nat, s: nat)
    requires b <= |base| && s <= |side|
    ensures Gives(base, Gap(b, |base|, s, |side|, side), b, side, s)
  {
    ApplyGap(base, side, b, |base|, s, |side|, []);
    Seqs.Empty(Gap(b, |base|, s, |side|, side));
    Seqs.Empty(side[s..]);
  }

  /** Applying the edits between matches gives the side back. */
  lemma {:induction false} BetweenApplies<T>(base: seq<T>, side: seq<T>, matches: seq<Pair>, b: nat, s: nat)
    requires b <= |base| && s <= |side| && IsMatching(base, side, Box(b, |base|, s, |side|), matches)
    ensures Gives(base, Between(base, side, matches, b, s), b, side, s)
    decreases |matches|
  {
    hide Gives, Gap;
    if matches == [] {
      LastGapApplies(base, side, b, s);
    } else {
      var (b', s') := matches[0];
      BetweenApplies(base, side, matches[1..], b' + 1, s' + 1);
      ApplyGapMatch(base, side, b, b', s, s', Between(base, side, matches[1..], b' + 1, s' + 1));
    }
  }

  ghost function Regions<T>(base: seq<T>, side: seq<T>): (edits: seq<Edit<T>>) {
    var box := Box(0, |base|, 0, |side|);
    PatienceMatchesValid(base, side, LisAnchoring(base, side), box);
    Between(base, side, PatienceMatches(base, side, LisAnchoring(base, side), box), 0, 0)
  }

  /** The edit regions turn the base into exactly the side. */
  lemma {:induction false} RegionsApply<T>(base: seq<T>, side: seq<T>)
    ensures Script(|base|, Regions(base, side), 0)
    ensures Apply(base, Regions(base, side), 0) == side
  {
    var box := Box(0, |base|, 0, |side|);
    PatienceMatchesValid(base, side, LisAnchoring(base, side), box);
    BetweenApplies(base, side, PatienceMatches(base, side, LisAnchoring(base, side), box), 0, 0);
  }

  method EditRegions<T(==)>(base: seq<T>, side: seq<T>) returns (edits: seq<Edit<T>>)
    ensures edits == Regions(base, side)
  {
    var matches := PatienceSearch.MatchingPairs(base, side);
    edits := RegionsBetween(base, side, matches);
  }

  method RegionsBetween<T(==)>(base: seq<T>, side: seq<T>, matches: seq<Pair>) returns (edits: seq<Edit<T>>)
    requires IsMatching(base, side, Box(0, |base|, 0, |side|), matches)
    ensures edits == Between(base, side, matches, 0, 0)
  {
    edits := [];
    var b: nat, s: nat := 0, 0;
    var todo := matches;
    ghost var goal := Between(base, side, matches, 0, 0);
    ghost var rest := goal;
    Seqs.Empty(goal);
    while todo != []
      invariant b <= |base| && s <= |side| && IsMatching(base, side, Box(b, |base|, s, |side|), todo)
      invariant rest == Between(base, side, todo, b, s) && edits + rest == goal
      decreases |todo|
    {
      var (b', s') := todo[0];
      edits, rest := PushGap(b, b', s, s', side, edits, rest, Between(base, side, todo[1..], b' + 1, s' + 1));
      b, s, todo := b' + 1, s' + 1, todo[1..];
    }
    Seqs.Empty(Gap(b, |base|, s, |side|, side));
    edits, rest := PushGap(b, |base|, s, |side|, side, edits, rest, []);
    Seqs.Empty(edits);
  }

  method PushGap<T>(b: nat, b': nat, s: nat, s': nat, side: seq<T>, edits: seq<Edit<T>>,
                    ghost rest: seq<Edit<T>>, ghost next: seq<Edit<T>>)
    returns (pushed: seq<Edit<T>>, ghost left: seq<Edit<T>>)
    requires s <= s' <= |side| && rest == Gap(b, b', s, s', side) + next
    ensures pushed == edits + Gap(b, b', s, s', side)
    ensures left == next && pushed + left == edits + rest
  {
    pushed, left := edits, next;
    Seqs.Assoc(edits, Gap(b, b', s, s', side), next);
    if b != b' || s != s' {
      pushed := pushed + [Edit(b, b', side[s..s'])];
    } else {
      Seqs.Empty(next);
      Seqs.Empty(edits);
    }
  }
}
