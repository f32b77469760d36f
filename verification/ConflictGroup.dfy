/**
 The least group of edits, from both sides, that one conflict must hold.  A conflict starts as a range
 of base lines; every edit that falls inside is absorbed and may widen the range.
 */
module ConflictGroup {
  import opened EditScript
  import opened Numbers
  import Seqs

  /** The end of the grown range, and how many edits of each side it absorbed. */
  datatype Group = Group(end: nat, ours: nat, theirs: nat) {
    function Mirrored(): Group {
      Group(end, theirs, ours)
    }
  }

  predicate InsideConflict<T>(edit: Edit<T>, start: nat, end: nat) {
    if start == end then edit.IsInsertion() && edit.start == start
    else if edit.IsInsertion() then start < edit.start < end
    else edit.start < end && start < edit.end
  }

  predicate Covers(start: nat, end: nat, line: nat) {
    start <= line < end
  }

  /**
   * A replacement is inside when it changes a line of the range, an insertion when it lies between two lines of the
   * range, or in the same place when the range holds no line.
   */
  lemma {:induction false} InsideMeans<T>(edit: Edit<T>, start: nat, end: nat)
    requires start <= end && edit.start <= edit.end
    ensures edit.start < edit.end && start < end ==>
      (InsideConflict(edit, start, end) <==>
        exists line: nat :: Covers(start, end, line) && Covers(edit.start, edit.end, line))
    ensures edit.start == edit.end && start < end ==>
      (InsideConflict(edit, start, end) <==> start <= edit.start - 1 && edit.start + 1 <= end)
    ensures start == end ==> (InsideConflict(edit, start, end) <==> edit.start == edit.end == start)
  {
    if edit.start < edit.end && start < end && InsideConflict(edit, start, end) {
      assert Covers(start, end, Max(start, edit.start)) && Covers(edit.start, edit.end, Max(start, edit.start));
    }
  }

  /** Absorbs edits, ours first, until neither side's next edit is inside. */
  function Absorb<T>(ours: seq<Edit<T>>, theirs: seq<Edit<T>>, start: nat, end: nat): (group: Group)
    ensures end <= group.end && group.ours <= |ours| && group.theirs <= |theirs|
    decreases |ours| + |theirs|
  {
    if ours != [] && InsideConflict(ours[0], start, end) then
      var rest := Absorb(ours[1..], theirs, start, Max(end, ours[0].end));
      rest.(ours := rest.ours + 1)
    else if theirs != [] && InsideConflict(theirs[0], start, end) then
      var rest := Absorb(ours, theirs[1..], start, Max(end, theirs[0].end));
      rest.(theirs := rest.theirs + 1)
    else Group(end, 0, 0)
  }

  /** The first `count` edits end by `end`, and the next one, if any, is not inside. */
  ghost predicate Stops<T>(edits: seq<Edit<T>>, count: nat, start: nat, end: nat) {
    if count == 0 then edits == [] || !InsideConflict(edits[0], start, end)
    else edits != [] && edits[0].end <= end && Stops(edits[1..], count - 1, start, end)
  }

  /** A group that absorbs everything inside its own range. */
  ghost predicate Closed<T>(ours: seq<Edit<T>>, theirs: seq<Edit<T>>, start: nat, group: Group) {
    Stops(ours, group.ours, start, group.end) && Stops(theirs, group.theirs, start, group.end)
  }

  lemma {:induction false} AbsorbCloses<T>(ours: seq<Edit<T>>, theirs: seq<Edit<T>>, start: nat, end: nat)
    ensures Closed(ours, theirs, start, Absorb(ours, theirs, start, end))
    decreases |ours| + |theirs|
  {
    if ours != [] && InsideConflict(ours[0], start, end) {
      AbsorbCloses(ours[1..], theirs, start, Max(end, ours[0].end));
    } else if theirs != [] && InsideConflict(theirs[0], start, end) {
      AbsorbCloses(ours, theirs[1..], start, Max(end, theirs[0].end));
    }
  }

  /** Every closed group around the starting range holds the absorbed one. */
  lemma {:induction false} AbsorbIsLeast<T>(ours: seq<Edit<T>>, theirs: seq<Edit<T>>, start: nat, end: nat,
                                            group: Group)
    requires start < end <= group.end && Closed(ours, theirs, start, group)
    ensures var least := Absorb(ours, theirs, start, end);
      least.end <= group.end && least.ours <= group.ours && least.theirs <= group.theirs
    decreases |ours| + |theirs|
  {
    if ours != [] && InsideConflict(ours[0], start, end) {
      AbsorbIsLeast(ours[1..], theirs, start, Max(end, ours[0].end), group.(ours := group.ours - 1));
    } else if theirs != [] && InsideConflict(theirs[0], start, end) {
      AbsorbIsLeast(ours, theirs[1..], start, Max(end, theirs[0].end), group.(theirs := group.theirs - 1));
    }
  }

  /** The group does not depend on which side is absorbed first. */
  lemma {:induction false} AbsorbMirrors<T>(ours: seq<Edit<T>>, theirs: seq<Edit<T>>, start: nat, end: nat)
    requires start < end
    ensures Absorb(theirs, ours, start, end) == Absorb(ours, theirs, start, end).Mirrored()
  {
    AbsorbCloses(ours, theirs, start, end);
    AbsorbCloses(theirs, ours, start, end);
    AbsorbIsLeast(ours, theirs, start, end, Absorb(theirs, ours, start, end).Mirrored());
    AbsorbIsLeast(theirs, ours, start, end, Absorb(ours, theirs, start, end).Mirrored());
  }

  /** An edit of theirs may be absorbed at any time. */
  lemma {:induction false} AbsorbTheirs<T>(ours: seq<Edit<T>>, theirs: seq<Edit<T>>, start: nat, end: nat)
    requires start < end && theirs != [] && InsideConflict(theirs[0], start, end)
    ensures var rest := Absorb(ours, theirs[1..], start, Max(end, theirs[0].end));
      Absorb(ours, theirs, start, end) == rest.(theirs := rest.theirs + 1)
  {
    AbsorbMirrors(ours, theirs, start, end);
    AbsorbMirrors(theirs[1..], ours, start, Max(end, theirs[0].end));
  }

  /** What is left of both scripts starts at or after the end of the group. */
  lemma {:induction false} AbsorbLeavesScripts<T>(n: nat, ours: seq<Edit<T>>, theirs: seq<Edit<T>>, start: nat,
                                                  end: nat)
    requires start < end <= n && Script(n, ours, start + 1) && Script(n, theirs, start + 1)
    ensures var group := Absorb(ours, theirs, start, end);
      group.end <= n && Script(n, ours[group.ours..], group.end) && Script(n, theirs[group.theirs..], group.end)
    decreases |ours| + |theirs|
  {
    var group := Absorb(ours, theirs, start, end);
    if ours != [] && InsideConflict(ours[0], start, end) {
      ScriptEarlier(n, ours[1..], start + 1, ours[0].end + 1);
      AbsorbLeavesScripts(n, ours[1..], theirs, start, Max(end, ours[0].end));
      assert ours[group.ours..] == ours[1..][group.ours - 1..];
    } else if theirs != [] && InsideConflict(theirs[0], start, end) {
      ScriptEarlier(n, theirs[1..], start + 1, theirs[0].end + 1);
      AbsorbLeavesScripts(n, ours, theirs[1..], start, Max(end, theirs[0].end));
      assert theirs[group.theirs..] == theirs[1..][group.theirs - 1..];
    }
  }

  /** The absorbed edits are a script of the grown range. */
  lemma {:induction false} StopsIsScript<T>(n: nat, edits: seq<Edit<T>>, count: nat, pos: nat, start: nat, end: nat)
    requires Script(n, edits, pos) && Stops(edits, count, start, end)
    ensures count <= |edits| && Script(end, edits[..count], pos)
    decreases count
  {
    if count > 0 {
      StopsIsScript(n, edits[1..], count - 1, edits[0].end + 1, start, end);
      assert edits[..count][1..] == edits[1..][..count - 1];
    }
  }

  /** One inner loop: absorbs a run of one side's edits. */
  method AbsorbRun<T>(edits: seq<Edit<T>>, from: nat, ghost others: seq<Edit<T>>, start: nat, end: nat)
    returns (next: nat, grown: nat)
    requires from <= |edits| && start < end
    ensures from <= next <= |edits| && end <= grown
    ensures next == from ==> grown == end
    ensures next < |edits| ==> !InsideConflict(edits[next], start, grown)
    ensures var rest := Absorb(edits[next..], others, start, grown);
      Absorb(edits[from..], others, start, end) == rest.(ours := rest.ours + next - from)
  {
    next, grown := from, end;
    ghost var goal := Absorb(edits[from..], others, start, end);
    while next < |edits| && InsideConflict(edits[next], start, grown)
      invariant from <= next <= |edits| && end <= grown
      invariant next == from ==> grown == end
      invariant var rest := Absorb(edits[next..], others, start, grown);
        goal == rest.(ours := rest.ours + next - from)
    {
      Seqs.HeadTail(edits, next);
      grown := Max(grown, edits[next].end);
      next := next + 1;
    }
  }

  /** The source's nested loops find the same group. */
  method FindGroup<T>(ours: seq<Edit<T>>, oursStart: nat, theirs: seq<Edit<T>>, theirsStart: nat,
                      conflictStart: nat, initialEnd: nat)
    returns (conflictEnd: nat, nextOurs: nat, nextTheirs: nat)
    requires oursStart <= |ours| && theirsStart <= |theirs| && conflictStart < initialEnd
    ensures oursStart <= nextOurs <= |ours| && theirsStart <= nextTheirs <= |theirs|
    ensures Absorb(ours[oursStart..], theirs[theirsStart..], conflictStart, initialEnd) ==
      Group(conflictEnd, nextOurs - oursStart, nextTheirs - theirsStart)
  {
    conflictEnd, nextOurs, nextTheirs := initialEnd, oursStart, theirsStart;
    ghost var goal := Absorb(ours[oursStart..], theirs[theirsStart..], conflictStart, initialEnd);
    var changed := true;
    while changed
      invariant oursStart <= nextOurs <= |ours| && theirsStart <= nextTheirs <= |theirs|
      invariant conflictStart < conflictEnd
      invariant var rest := Absorb(ours[nextOurs..], theirs[nextTheirs..], conflictStart, conflictEnd);
        && goal == Group(rest.end, rest.ours + nextOurs - oursStart, rest.theirs + nextTheirs - theirsStart)
        && (!changed ==> rest == Group(conflictEnd, 0, 0))
      decreases |ours| - nextOurs + |theirs| - nextTheirs, changed
    {
      var i, end := AbsorbRun(ours, nextOurs, theirs[nextTheirs..], conflictStart, conflictEnd);
      AbsorbMirrors(ours[i..], theirs[nextTheirs..], conflictStart, end);
      var j, end' := AbsorbRun(theirs, nextTheirs, ours[i..], conflictStart, end);
      AbsorbMirrors(ours[i..], theirs[j..], conflictStart, end');
      changed := i != nextOurs || j != nextTheirs;
      conflictEnd, nextOurs, nextTheirs := end', i, j;
    }
  }
}
