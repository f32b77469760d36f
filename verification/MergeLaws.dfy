/** What a merge answers, said of its outcome alone. */
module MergeLaws {
  import opened Wrappers
  import opened Bytes
  import opened LineText
  import opened Matching
  import opened Patience
  import opened EditScript
  import opened MergeWalk
  import opened MergeChunks
  import opened MergeHunks
  import opened MergeFile
  import Seqs

  /** The version as an outcome: its bytes, or the deletion. */
  function Verbatim(version: Option<Bytes>): (outcome: Outcome) {
    Clean(if version.Some? then Present(version.value) else Deleted)
  }

  /** Where one side left the file as it was, the other side is taken, its deletion included. */
  lemma {:induction false} OneSidedChange(base: Bytes, changed: Option<Bytes>)
    ensures Merge(Some(base), Some(base), changed) == Verbatim(changed)
    ensures Merge(Some(base), changed, Some(base)) == Verbatim(changed)
  {
  }

  /** Where both sides did the same, that is taken; what one side alone added is taken too. */
  lemma {:induction false} SameOrAdded(base: Option<Bytes>, version: Option<Bytes>)
    ensures Merge(base, version, version) == Verbatim(version)
    ensures Merge(None, version, None) == Verbatim(version) && Merge(None, None, version) == Verbatim(version)
  {
  }

  /** All other cases of an absent version conflict as a whole, holding exactly the three versions. */
  lemma {:induction false} AbsentConflicts(base: Bytes, ours: Bytes, theirs: Bytes)
    ensures ours != theirs ==>
      Merge(None, Some(ours), Some(theirs)) == Conflicted([Conflict(BothAdded, None, Some(ours), Some(theirs))])
    ensures ours != base ==>
      Merge(Some(base), Some(ours), None) == Conflicted([Conflict(ModifyDelete, Some(base), Some(ours), None)])
    ensures theirs != base ==>
      Merge(Some(base), None, Some(theirs)) == Conflicted([Conflict(ModifyDelete, Some(base), None, Some(theirs))])
  {
  }

  ghost predicate HasNul(bytes: Bytes) {
    exists i :: 0 <= i < |bytes| && bytes[i] == 0
  }

  /** Three different versions conflict as a whole if one is binary or larger than 8 MiB; otherwise lines are merged. */
  lemma {:induction false} PresentVersions(base: Bytes, ours: Bytes, theirs: Bytes)
    requires base != ours && base != theirs && ours != theirs
    ensures var merged := Merge(Some(base), Some(ours), Some(theirs));
      if HasNul(base) || HasNul(ours) || HasNul(theirs) then
        merged == Conflicted([Conflict(Binary, Some(base), Some(ours), Some(theirs))])
      else if |base| > 8388608 || |ours| > 8388608 || |theirs| > 8388608 then
        merged == Conflicted([Conflict(TooLarge, Some(base), Some(ours), Some(theirs))])
      else merged == MergeText(base, ours, theirs)
  {
    hide MergeText;
  }

  /** The longest common prefix of two equal sequences is all of them. */
  lemma {:induction false} PrefixOfSame<T>(lines: seq<T>, i: nat)
    requires i <= |lines|
    ensures CommonPrefix(lines, lines, Box(i, |lines|, i, |lines|)) == |lines| - i
    decreases |lines| - i
  {
    if i < |lines| {
      PrefixOfSame(lines, i + 1);
    }
  }

  lemma {:induction false} NothingBetween<T>(lines: seq<T>, i: nat)
    requires i <= |lines|
    ensures IsMatching(lines, lines, Box(i, |lines|, i, |lines|), Diagonal(i, i, |lines| - i))
    ensures Between(lines, lines, Diagonal(i, i, |lines| - i), i, i) == []
    decreases |lines| - i
  {
    if i < |lines| {
      NothingBetween(lines, i + 1);
      Seqs.ConcatTail((i, i), Diagonal(i + 1, i + 1, |lines| - i - 1));
    }
  }

  /** A side that did not change has no edits. */
  lemma {:induction false} NoRegions<T>(lines: seq<T>)
    ensures Regions(lines, lines) == []
  {
    hide CommonPrefix, CommonSuffix, MiddleMatches, Between, Sound, PicksLis, IsMatching;
    var box, n, anchoring := Box(0, |lines|, 0, |lines|), |lines|, LisAnchoring(lines, lines);
    PatienceMatchesValid(lines, lines, anchoring, box);
    PrefixOfSame(lines, 0);
    NothingBetween(lines, 0);
    assert box.(b0 := n, s0 := n) == Box(n, n, n, n);
    NothingToMatch(lines, anchoring, n);
    assert PatienceMatches(lines, lines, anchoring, box) == Diagonal(0, 0, n) + [] + [] == Diagonal(0, 0, n - 0);
    assert Between(lines, lines, Diagonal(0, 0, n), 0, 0) == [];
  }

  lemma {:induction false} NothingToMatch<T>(lines: seq<T>, anchoring: Anchoring, n: nat)
    requires n == |lines| && Sound(lines, lines, anchoring)
    ensures CommonSuffix(lines, lines, Box(n, n, n, n)) == 0
    ensures MiddleMatches(lines, lines, anchoring, Box(n, n, n, n)) == [] && Diagonal(n, n, 0) == []
  {
    hide Sound;
  }

  lemma {:induction false} ShownOfTwo(first: Chunk, second: Chunk, rest: seq<Chunk>, version: Version)
    ensures ShownAll([first, second] + rest, version) ==
      Shown(first, version) + (Shown(second, version) + ShownAll(rest, version))
    ensures !first.verdict.Clash? ==>
      Clashes([first, second] + rest) ==
        (if second.verdict.Clash? then [ConflictOf(second)] else []) + Clashes(rest)
  {
    assert ([first, second] + rest)[1..] == [second] + rest;
    Seqs.ConcatTail(second, rest);
    Seqs.Empty(Clashes([second] + rest));
  }

  /** With no edits on the other side, a side's own edits are applied. */
  lemma {:induction false} OnlyOurs(base: seq<Line>, ours: seq<Edit<Line>>, pos: nat)
    requires pos <= |base| && Script(|base|, ours, pos)
    ensures Clashes(Walk(base, ours, [], pos)) == []
    ensures ShownAll(Walk(base, ours, [], pos), Ours) == Text(Apply(base, ours, pos))
    decreases |ours|
  {
    hide Clashes, ShownAll, Text;
    if ours == [] {
      ShownOfLast(base[pos..]);
    } else {
      var edit, rest := ours[0], ours[1..];
      ScriptEarlier(|base|, rest, edit.end, edit.end + 1);
      OnlyOurs(base, rest, edit.end);
      var first, second := Same(base[pos..edit.start]), OursOnly(base, edit);
      ShownOfTwo(first, second, Walk(base, rest, [], edit.end), Ours);
      TextConcat(edit.replacement, Apply(base, rest, edit.end));
      TextConcat(base[pos..edit.start], edit.replacement + Apply(base, rest, edit.end));
    }
  }

  lemma {:induction false} ShownOfLast(lines: seq<Line>)
    ensures ShownAll([Same(lines)], Ours) == Text(lines) && Clashes([Same(lines)]) == []
  {
    assert [Same(lines)][1..] == [];
    Seqs.Empty(Text(lines));
  }

  /** Where only one side changed the text, its text is the merge, byte for byte. */
  lemma {:induction false} OneSidedText(base: Bytes, changed: Bytes)
    ensures MergeText(base, changed, base) == Clean(Present(changed))
    ensures MergeText(base, base, changed) == Clean(Present(changed))
  {
    hide Walk, Apply, Render, Split, Regions, Clashes, ShownAll, Script;
    var lines := Split(base);
    RegionsApply(lines, Split(changed));
    NoRegions(lines);
    OnlyOurs(lines, Regions(lines, Split(changed)), 0);
    TextOfSplit(changed);
    MergeTextExact(base, changed, base);
    MergeTextMirrors(base, changed, base);
  }

  ghost predicate Balanced(chunks: seq<Chunk>) {
    chunks == [] || (chunks[0] == chunks[0].Mirrored() && Balanced(chunks[1..]))
  }

  lemma {:induction false} MirrorIsBalanced(chunks: seq<Chunk>)
    requires Mirror(chunks) == chunks
    ensures Balanced(chunks)
  {
    if chunks != [] {
      assert Mirror(chunks)[1..] == Mirror(chunks[1..]);
      MirrorIsBalanced(chunks[1..]);
    }
  }

  lemma {:induction false} BalancedText(chunks: seq<Chunk>)
    requires Balanced(chunks) && AllJustified(chunks)
    ensures Clashes(chunks) == [] && ShownAll(chunks, Ours) == Text(Column(chunks, Ours))
  {
    if chunks != [] {
      BalancedText(chunks[1..]);
      TextConcat(chunks[0].ours, Column(chunks[1..], Ours));
      Seqs.Empty(Clashes(chunks[1..]));
    }
  }

  /** Where both sides made the same change, that is the merge. */
  lemma {:induction false} SameText(base: Bytes, changed: Bytes)
    ensures MergeText(base, changed, changed) == Clean(Present(changed))
  {
    hide Render, TextChunks, Clashes, ShownAll, Column, AllJustified, Text, Mirror;
    MergeTextExact(base, changed, changed);
    TextChunksMirror(base, changed, changed);
    MirrorIsBalanced(TextChunks(base, changed, changed));
    BalancedText(TextChunks(base, changed, changed));
  }

  /** Edits in order, none overlapping the next. */
  ghost predicate Ordered(n: nat, edits: seq<Edit<Line>>, pos: nat) {
    edits == [] || (pos <= edits[0].start <= edits[0].end <= n && Ordered(n, edits[1..], edits[0].end))
  }

  /** The base lines from `pos` on with all the edits made. */
  ghost function Rewrite(base: seq<Line>, edits: seq<Edit<Line>>, pos: nat): (lines: seq<Line>)
    requires pos <= |base| && Ordered(|base|, edits, pos)
  {
    if edits == [] then base[pos..]
    else base[pos..edits[0].start] + (edits[0].replacement + Rewrite(base, edits[1..], edits[0].end))
  }

  /** The edits of both sides, by position. */
  ghost function Both(ours: seq<Edit<Line>>, theirs: seq<Edit<Line>>): (edits: seq<Edit<Line>>)
    decreases |ours| + |theirs|
  {
    if ours == [] then theirs
    else if theirs == [] then ours
    else if ours[0].end <= theirs[0].start then [ours[0]] + Both(ours[1..], theirs)
    else [theirs[0]] + Both(ours, theirs[1..])
  }

  /** None is lost and none is made twice. */
  lemma {:induction false} BothHoldsAll(ours: seq<Edit<Line>>, theirs: seq<Edit<Line>>)
    ensures multiset(Both(ours, theirs)) == multiset(ours) + multiset(theirs)
    decreases |ours| + |theirs|
  {
    if ours != [] && theirs != [] {
      if ours[0].end <= theirs[0].start {
        BothHoldsAll(ours[1..], theirs);
        OneMore(ours[0], ours[1..], theirs, Both(ours[1..], theirs));
        assert ours == [ours[0]] + ours[1..];
      } else {
        BothHoldsAll(ours, theirs[1..]);
        OneMore(theirs[0], theirs[1..], ours, Both(ours, theirs[1..]));
        assert theirs == [theirs[0]] + theirs[1..];
      }
    }
  }

  lemma {:induction false} OneMore(edit: Edit<Line>, rest: seq<Edit<Line>>, others: seq<Edit<Line>>,
                                   both: seq<Edit<Line>>)
    requires multiset(both) == multiset(rest) + multiset(others)
    ensures multiset([edit] + both) == multiset([edit] + rest) + multiset(others)
  {
  }

  lemma {:induction false} ScriptIsOrdered(base: seq<Line>, edits: seq<Edit<Line>>, pos: nat)
    requires pos <= |base| && Script(|base|, edits, pos)
    ensures Ordered(|base|, edits, pos) && Rewrite(base, edits, pos) == Apply(base, edits, pos)
    decreases |edits|
  {
    if edits != [] {
      ScriptEarlier(|base|, edits[1..], edits[0].end, edits[0].end + 1);
      ScriptIsOrdered(base, edits[1..], edits[0].end);
    }
  }

  /** Edits that keep apart are all made, and nothing else happens. */
  lemma {:induction false} ApartEditsAreMade(base: seq<Line>, ours: seq<Edit<Line>>, theirs: seq<Edit<Line>>, pos: nat)
    requires pos <= |base| && Script(|base|, ours, pos) && Script(|base|, theirs, pos) && AllApart(ours, theirs)
    ensures Ordered(|base|, Both(ours, theirs), pos)
    ensures ShownAll(Walk(base, ours, theirs, pos), Ours) == Text(Rewrite(base, Both(ours, theirs), pos))
    decreases |ours| + |theirs|
  {
    hide ShownAll, Text, AllApart;
    var move := NextMove(ours, theirs);
    if ours == [] && theirs == [] {
      ShownOfLast(base[pos..]);
    } else if ours != [] && (theirs == [] || ours[0].end <= theirs[0].start) {
      var edit := ours[0];
      ScriptEarlier(|base|, ours[1..], edit.end, edit.end + 1);
      ApartHeads(ours, theirs);
      ApartEditsAreMade(base, ours[1..], theirs, edit.end);
      MadeFirst(base, edit, Both(ours[1..], theirs), pos, OursOnly(base, edit),
                Walk(base, ours[1..], theirs, edit.end));
      assert Both(ours, theirs) == [edit] + Both(ours[1..], theirs);
    } else {
      var edit := theirs[0];
      ScriptEarlier(|base|, theirs[1..], edit.end, edit.end + 1);
      ApartHeads(ours, theirs);
      ApartTail(ours, theirs);
      ApartEditsAreMade(base, ours, theirs[1..], edit.end);
      MadeFirst(base, edit, Both(ours, theirs[1..]), pos, OursOnly(base, edit).Mirrored(),
                Walk(base, ours, theirs[1..], edit.end));
      assert Both(ours, theirs) == [edit] + Both(ours, theirs[1..]);
    }
  }

  lemma {:induction false} ApartHeads(ours: seq<Edit<Line>>, theirs: seq<Edit<Line>>)
    requires AllApart(ours, theirs) && (ours != [] || theirs != [])
    ensures ours != [] && theirs != [] ==> Apart(ours[0], theirs[0])
    ensures ours != [] ==> AllApart(ours[1..], theirs)
  {
  }

  lemma {:induction false} MadeFirst(base: seq<Line>, edit: Edit<Line>, edits: seq<Edit<Line>>, pos: nat, chunk: Chunk,
                                     rest: seq<Chunk>)
    requires pos <= edit.start <= edit.end <= |base| && Ordered(|base|, edits, edit.end)
    requires chunk in {OursOnly(base, edit), OursOnly(base, edit).Mirrored()}
    requires ShownAll(rest, Ours) == Text(Rewrite(base, edits, edit.end))
    ensures Ordered(|base|, [edit] + edits, pos)
    ensures ShownAll([Same(base[pos..edit.start]), chunk] + rest, Ours) == Text(Rewrite(base, [edit] + edits, pos))
  {
    hide ShownAll, Text;
    Seqs.ConcatTail(edit, edits);
    ShownOfTwo(Same(base[pos..edit.start]), chunk, rest, Ours);
    TextConcat(edit.replacement, Rewrite(base, edits, edit.end));
    TextConcat(base[pos..edit.start], edit.replacement + Rewrite(base, edits, edit.end));
  }

  /** Files whose edits keep apart merge to the base with both sides' edits made. */
  lemma {:induction false} ApartTextsMerge(base: Bytes, ours: Bytes, theirs: Bytes)
    requires AllApart(Regions(Split(base), Split(ours)), Regions(Split(base), Split(theirs)))
    ensures var edits := Both(Regions(Split(base), Split(ours)), Regions(Split(base), Split(theirs)));
      && Ordered(|Split(base)|, edits, 0)
      && MergeText(base, ours, theirs) == Clean(Present(Text(Rewrite(Split(base), edits, 0))))
  {
    hide Regions, Walk, AllApart, Render, Split, ShownAll, Clashes, Text, Script, Both, Rewrite, Ordered;
    var lines := Split(base);
    RegionsApply(lines, Split(ours));
    RegionsApply(lines, Split(theirs));
    ApartEditsMerge(base, ours, theirs);
    ApartEditsAreMade(lines, Regions(lines, Split(ours)), Regions(lines, Split(theirs)), 0);
    MergeTextExact(base, ours, theirs);
  }
}
