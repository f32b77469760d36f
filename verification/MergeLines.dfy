/** The merge itself: the cursor loop over both edit lists and the dispatch on absent versions. */
module MergeLines {
  import opened Wrappers
  import opened Bytes
  import opened Numbers
  import opened LineText
  import opened EditScript
  import opened ConflictGroup
  import opened MergeWalk
  import opened MergeChunks
  import opened MergeHunks
  import opened MergeFile

  /** What the loop has left to do, as seen from its cursors. */
  ghost predicate Pending(base: seq<Line>, ours: seq<Edit<Line>>, theirs: seq<Edit<Line>>, pos: nat,
                          hunks: seq<Hunk>, conflicted: bool, goal: seq<Hunk>) {
    && pos <= |base| && Script(|base|, ours, pos) && Script(|base|, theirs, pos)
    && Render(hunks, Walk(base, ours, theirs, pos)) == goal
    && (conflicted <==> Conflicts(hunks) != [])
  }

  /** Two chunks emitted: the flag follows, and the rest of the walk is left. */
  lemma {:induction false} Pushed(base: seq<Line>, ours: seq<Edit<Line>>, theirs: seq<Edit<Line>>, pos: nat,
               hunks: seq<Hunk>, conflicted: bool, goal: seq<Hunk>, first: Chunk, second: Chunk,
               rest: seq<Chunk>, pushed: seq<Hunk>)
    requires Pending(base, ours, theirs, pos, hunks, conflicted, goal) && first.verdict.Untouched?
    requires Walk(base, ours, theirs, pos) == [first, second] + rest
    requires pushed == Emit(Emit(hunks, first), second)
    ensures Render(pushed, rest) == goal
    ensures conflicted || second.verdict.Clash? <==> Conflicts(pushed) != []
  {
    RenderTwo(hunks, first, second, rest);
    EmitConflicts(hunks, first);
    EmitConflicts(Emit(hunks, first), second);
  }

  method TurnInsertions(base: seq<Line>, ours: seq<Edit<Line>>, theirs: seq<Edit<Line>>, pos: nat,
                        hunks: seq<Hunk>, conflicted: bool, ghost goal: seq<Hunk>)
    returns (next: nat, pushed: seq<Hunk>, flag: bool)
    requires Pending(base, ours, theirs, pos, hunks, conflicted, goal) && NextMove(ours, theirs).InsertBoth?
    ensures Pending(base, ours[1..], theirs[1..], next, pushed, flag, goal)
  {
    next := ours[0].start;
    ScriptEarlier(|base|, ours[1..], next, next + 1);
    ScriptEarlier(|base|, theirs[1..], next, next + 1);
    var clash;
    pushed, clash := PushInsertions(base, ours[0], theirs[0], pos, hunks);
    Pushed(base, ours, theirs, pos, hunks, conflicted, goal, Same(base[pos..next]),
           Insertions(ours[0].replacement, theirs[0].replacement), Walk(base, ours[1..], theirs[1..], next), pushed);
    flag := conflicted || clash;
  }

  method TurnOurs(base: seq<Line>, ours: seq<Edit<Line>>, theirs: seq<Edit<Line>>, pos: nat,
                  hunks: seq<Hunk>, conflicted: bool, ghost goal: seq<Hunk>)
    returns (next: nat, pushed: seq<Hunk>)
    requires Pending(base, ours, theirs, pos, hunks, conflicted, goal) && NextMove(ours, theirs).EditOurs?
    ensures Pending(base, ours[1..], theirs, next, pushed, conflicted, goal)
  {
    next := ours[0].end;
    ScriptEarlier(|base|, ours[1..], next, next + 1);
    pushed := PushEdit(base, ours[0], pos, hunks);
    Pushed(base, ours, theirs, pos, hunks, conflicted, goal, Same(base[pos..ours[0].start]),
           OursOnly(base, ours[0]), Walk(base, ours[1..], theirs, next), pushed);
  }

  method TurnTheirs(base: seq<Line>, ours: seq<Edit<Line>>, theirs: seq<Edit<Line>>, pos: nat,
                    hunks: seq<Hunk>, conflicted: bool, ghost goal: seq<Hunk>)
    returns (next: nat, pushed: seq<Hunk>)
    requires Pending(base, ours, theirs, pos, hunks, conflicted, goal) && NextMove(ours, theirs).EditTheirs?
    ensures Pending(base, ours, theirs[1..], next, pushed, conflicted, goal)
  {
    next := theirs[0].end;
    ScriptEarlier(|base|, theirs[1..], next, next + 1);
    pushed := PushEdit(base, theirs[0], pos, hunks);
    Pushed(base, ours, theirs, pos, hunks, conflicted, goal, Same(base[pos..theirs[0].start]),
           OursOnly(base, theirs[0]).Mirrored(), Walk(base, ours, theirs[1..], next), pushed);
  }

  method TurnCollision(base: seq<Line>, ours: seq<Edit<Line>>, theirs: seq<Edit<Line>>, pos: nat,
                       hunks: seq<Hunk>, conflicted: bool, ghost goal: seq<Hunk>)
    returns (o: nat, t: nat, next: nat, pushed: seq<Hunk>, flag: bool)
    requires Pending(base, ours, theirs, pos, hunks, conflicted, goal) && NextMove(ours, theirs).Collide?
    ensures o <= |ours| && t <= |theirs| && 0 < o + t
    ensures Pending(base, ours[o..], theirs[t..], next, pushed, flag, goal)
  {
    CollisionScripts(|base|, ours, theirs, pos);
    var start, end := Min(ours[0].start, theirs[0].start), Max(ours[0].end, theirs[0].end);
    assert ours[0..] == ours && theirs[0..] == theirs;
    next, o, t := FindGroup(ours, 0, theirs, 0, start, end);
    var clash;
    pushed, clash := PushCollision(base, ours, theirs, pos, start, Group(next, o, t), hunks);
    Pushed(base, ours, theirs, pos, hunks, conflicted, goal, Same(base[pos..start]),
           Collided(base, ours, theirs), Walk(base, ours[o..], theirs[t..], next), pushed);
    flag := conflicted || clash;
  }

  /** The cursor loop. */
  method WalkEdits(base: seq<Line>, ours: seq<Edit<Line>>, theirs: seq<Edit<Line>>)
    returns (hunks: seq<Hunk>, conflicted: bool)
    requires Script(|base|, ours, 0) && Script(|base|, theirs, 0)
    ensures hunks == Render([], Walk(base, ours, theirs, 0))
    ensures conflicted <==> Conflicts(hunks) != []
  {
    hunks, conflicted := [], false;
    ghost var goal := Render([], Walk(base, ours, theirs, 0));
    var pos: nat, leftOurs, leftTheirs := 0, ours, theirs;
    while leftOurs != [] || leftTheirs != []
      invariant Pending(base, leftOurs, leftTheirs, pos, hunks, conflicted, goal)
      decreases |leftOurs| + |leftTheirs|
    {
      match NextMove(leftOurs, leftTheirs) {
        case InsertBoth =>
          pos, hunks, conflicted := TurnInsertions(base, leftOurs, leftTheirs, pos, hunks, conflicted, goal);
          leftOurs, leftTheirs := leftOurs[1..], leftTheirs[1..];
        case EditOurs =>
          pos, hunks := TurnOurs(base, leftOurs, leftTheirs, pos, hunks, conflicted, goal);
          leftOurs := leftOurs[1..];
        case EditTheirs =>
          pos, hunks := TurnTheirs(base, leftOurs, leftTheirs, pos, hunks, conflicted, goal);
          leftTheirs := leftTheirs[1..];
        case Collide =>
          var o, t, next, pushed, flag := TurnCollision(base, leftOurs, leftTheirs, pos, hunks, conflicted, goal);
          pos, hunks, conflicted := next, pushed, flag;
          leftOurs, leftTheirs := leftOurs[o..], leftTheirs[t..];
      }
    }
    ghost var last := Same(base[pos..]);
    assert Walk(base, leftOurs, leftTheirs, pos) == [last];
    RenderOne(hunks, last);
    EmitConflicts(hunks, last);
    hunks := PushResolved(hunks, Text(base[pos..]));
  }

  method MergePresentLines(base: Bytes, ours: Bytes, theirs: Bytes) returns (outcome: Outcome)
    ensures outcome == MergePresent(base, ours, theirs)
  {
    var unsuitable := Unsuitable(base, ours, theirs);
    if unsuitable.Some? {
      return WholeFile(unsuitable.value, Some(base), Some(ours), Some(theirs));
    }
    var baseLines := SplitLines(base);
    var oursLines := SplitLines(ours);
    var theirsLines := SplitLines(theirs);
    var oursEdits := EditRegions(baseLines, oursLines);
    var theirsEdits := EditRegions(baseLines, theirsLines);
    RegionsApply(baseLines, oursLines);
    RegionsApply(baseLines, theirsLines);
    var hunks, conflicted := WalkEdits(baseLines, oursEdits, theirsEdits);
    if conflicted {
      outcome := Conflicted(hunks);
    } else {
      var merged := ConcatResolvedHunks(hunks);
      outcome := Clean(Present(merged));
    }
  }

  method ConcatResolvedHunks(hunks: seq<Hunk>) returns (output: Bytes)
    requires Conflicts(hunks) == []
    ensures output == HunksText(hunks, Ours)
  {
    output := [];
    assert hunks[..|hunks|] == hunks;
    for i := 0 to |hunks|
      invariant Conflicts(hunks[..i]) == [] && output == HunksText(hunks[..i], Ours)
    {
      assert hunks[..i + 1] == hunks[..i] + [hunks[i]];
      PushedHunk(hunks[..i], hunks[i], Ours);
      if hunks[i].Resolved? {
        output := output + hunks[i].bytes;
      }
      NoConflictAt(hunks, i);
    }
  }

  lemma {:induction false} NoConflictAt(hunks: seq<Hunk>, i: nat)
    requires i < |hunks| && Conflicts(hunks) == []
    ensures hunks[i].Resolved? && Conflicts(hunks[..i + 1]) == []
    decreases |hunks|
  {
    assert hunks[..|hunks|] == hunks;
    if i + 1 < |hunks| {
      NoConflictAt(hunks[..|hunks| - 1], i);
      assert hunks[..|hunks| - 1][..i + 1] == hunks[..i + 1];
    }
  }

  /** Merges one file from three versions, any of which may be absent. */
  method MergeLineInput(base: Option<Bytes>, ours: Option<Bytes>, theirs: Option<Bytes>) returns (outcome: Outcome)
    ensures outcome == Merge(base, ours, theirs)
  {
    if ours.None? && theirs.None? {
      outcome := Clean(Deleted);
    } else if ours.Some? && theirs.Some? && ours.value == theirs.value {
      outcome := Clean(Present(ours.value));
    } else if base.Some? && ours.Some? && base.value == ours.value {
      outcome := if theirs.Some? then Clean(Present(theirs.value)) else Clean(Deleted);
    } else if base.Some? && theirs.Some? && base.value == theirs.value {
      outcome := if ours.Some? then Clean(Present(ours.value)) else Clean(Deleted);
    } else if base.None? && theirs.None? {
      outcome := Clean(Present(ours.value));
    } else if base.None? && ours.None? {
      outcome := Clean(Present(theirs.value));
    } else if base.None? {
      outcome := WholeFile(BothAdded, base, ours, theirs);
    } else if ours.None? || theirs.None? {
      outcome := WholeFile(ModifyDelete, base, ours, theirs);
    } else {
      outcome := MergePresentLines(base.value, ours.value, theirs.value);
    }
  }
}
