/**
 The two-cursor walk of the three-way merge.  It cuts base, ours and theirs into consecutive chunks and
 decides each one: take the side that edited, accept what both agree on, or report a conflict.
 */
module MergeWalk {
  import opened Bytes
  import opened Numbers
  import opened EditScript
  import opened ConflictGroup
  import opened LineText

  datatype ConflictKind = BothAdded | BothInserted | BothModified | ModifyDelete | Binary | TooLarge

  datatype Verdict = Untouched | TakeOurs | TakeTheirs | Agree | Clash(kind: ConflictKind) {
    function Mirrored(): Verdict {
      match this
      case TakeOurs => TakeTheirs
      case TakeTheirs => TakeOurs
      case _ => this
    }
  }

  /** Consecutive lines of the three versions that are decided together. */
  datatype Chunk = Chunk(base: seq<Line>, ours: seq<Line>, theirs: seq<Line>, verdict: Verdict) {
    function Mirrored(): Chunk {
      Chunk(base, theirs, ours, verdict.Mirrored())
    }
  }

  function Classify(base: Bytes, ours: Bytes, theirs: Bytes): (kind: ConflictKind) {
    if base != [] && (ours == [] || theirs == []) then ModifyDelete
    else if base == [] then BothInserted
    else BothModified
  }

  function Same(lines: seq<Line>): (chunk: Chunk) {
    Chunk(lines, lines, lines, Untouched)
  }

  /** Both sides insert at one place. */
  function Insertions(ours: seq<Line>, theirs: seq<Line>): (chunk: Chunk) {
    Chunk([], ours, theirs, if ours == theirs then Agree else Clash(BothInserted))
  }

  /** Both sides edit one range of base lines. */
  function Overlap(base: seq<Line>, ours: seq<Line>, theirs: seq<Line>): (chunk: Chunk) {
    Chunk(base, ours, theirs,
      if Text(ours) == Text(theirs) then Agree else Clash(Classify(Text(base), Text(ours), Text(theirs))))
  }

  /** Which branch of the walk applies. */
  datatype Move = Finish | InsertBoth | EditOurs | EditTheirs | Collide

  function NextMove(ours: seq<Edit<Line>>, theirs: seq<Edit<Line>>): (move: Move)
    ensures move.InsertBoth? || move.Collide? ==> ours != [] && theirs != []
    ensures move.EditOurs? ==> ours != [] && (theirs == [] || ours[0].end <= theirs[0].start)
    ensures move.EditTheirs? ==> theirs != [] && (ours == [] || theirs[0].end <= ours[0].start)
  {
    if ours == [] && theirs == [] then Finish
    else if theirs == [] then EditOurs
    else if ours == [] then EditTheirs
    else if ours[0].IsInsertion() && theirs[0].IsInsertion() && ours[0].start == theirs[0].start then InsertBoth
    else if ours[0].end <= theirs[0].start then EditOurs
    else if theirs[0].end <= ours[0].start then EditTheirs
    else Collide
  }

  /** The group that two colliding edits start. */
  function Collision(ours: seq<Edit<Line>>, theirs: seq<Edit<Line>>): (group: Group)
    requires ours != [] && theirs != []
  {
    Absorb(ours, theirs, Min(ours[0].start, theirs[0].start), Max(ours[0].end, theirs[0].end))
  }

  /** Everything the walk relies on when two edits collide. */
  ghost predicate CollisionFits(n: nat, ours: seq<Edit<Line>>, theirs: seq<Edit<Line>>)
    requires ours != [] && theirs != []
  {
    var start, group := Min(ours[0].start, theirs[0].start), Collision(ours, theirs);
    && 0 < group.ours && 0 < group.theirs && start < group.end <= n
    && Script(group.end, ours[..group.ours], start) && Script(group.end, theirs[..group.theirs], start)
    && Script(n, ours[group.ours..], group.end) && Script(n, theirs[group.theirs..], group.end)
  }

  /** Both colliding edits are inside the range they start, so each is the first of its side absorbed. */
  lemma {:induction false} CollisionAbsorbsHeads(ours: seq<Edit<Line>>, theirs: seq<Edit<Line>>, rest: Group)
    requires NextMove(ours, theirs).Collide?
    requires ours[0].start <= ours[0].end && theirs[0].start <= theirs[0].end
    requires rest == Absorb(ours[1..], theirs[1..], Min(ours[0].start, theirs[0].start), Max(ours[0].end,
                            theirs[0].end))
    ensures Min(ours[0].start, theirs[0].start) < Max(ours[0].end, theirs[0].end)
    ensures Collision(ours, theirs) == Group(rest.end, rest.ours + 1, rest.theirs + 1)
  {
    AbsorbTheirs(ours[1..], theirs, Min(ours[0].start, theirs[0].start), Max(ours[0].end, theirs[0].end));
  }

  lemma {:induction false} CollisionLeaves(n: nat, ours: seq<Edit<Line>>, theirs: seq<Edit<Line>>, pos: nat)
    requires Script(n, ours, pos) && Script(n, theirs, pos) && NextMove(ours, theirs).Collide?
    ensures var group := Collision(ours, theirs);
      && 0 < group.ours && 0 < group.theirs && group.end <= n
      && Script(n, ours[group.ours..], group.end) && Script(n, theirs[group.theirs..], group.end)
  {
    var start, end := Min(ours[0].start, theirs[0].start), Max(ours[0].end, theirs[0].end);
    var rest := Absorb(ours[1..], theirs[1..], start, end);
    CollisionAbsorbsHeads(ours, theirs, rest);
    ScriptEarlier(n, ours[1..], start + 1, ours[0].end + 1);
    ScriptEarlier(n, theirs[1..], start + 1, theirs[0].end + 1);
    AbsorbLeavesScripts(n, ours[1..], theirs[1..], start, end);
    assert ours[rest.ours + 1..] == ours[1..][rest.ours..];
    assert theirs[rest.theirs + 1..] == theirs[1..][rest.theirs..];
  }

  lemma {:induction false} CollisionScripts(n: nat, ours: seq<Edit<Line>>, theirs: seq<Edit<Line>>, pos: nat)
    requires Script(n, ours, pos) && Script(n, theirs, pos) && NextMove(ours, theirs).Collide?
    ensures CollisionFits(n, ours, theirs)
  {
    var start, end := Min(ours[0].start, theirs[0].start), Max(ours[0].end, theirs[0].end);
    var group := Collision(ours, theirs);
    CollisionLeaves(n, ours, theirs, pos);
    AbsorbCloses(ours, theirs, start, end);
    StopsIsScript(n, ours, group.ours, start, start, group.end);
    StopsIsScript(n, theirs, group.theirs, start, start, group.end);
  }

  /** The chunks from base line `pos` on. */
  ghost function Walk(base: seq<Line>, ours: seq<Edit<Line>>, theirs: seq<Edit<Line>>, pos: nat): (chunks: seq<Chunk>)
    requires pos <= |base| && Script(|base|, ours, pos) && Script(|base|, theirs, pos)
    decreases |ours| + |theirs|
  {
    match NextMove(ours, theirs)
    case Finish => [Same(base[pos..])]
    case InsertBoth =>
      var at := ours[0].start;
      ScriptEarlier(|base|, ours[1..], at, at + 1);
      ScriptEarlier(|base|, theirs[1..], at, at + 1);
      [Same(base[pos..at]), Insertions(ours[0].replacement, theirs[0].replacement)]
      + Walk(base, ours[1..], theirs[1..], at)
    case EditOurs =>
      var edit := ours[0];
      ScriptEarlier(|base|, ours[1..], edit.end, edit.end + 1);
      [Same(base[pos..edit.start]), OursOnly(base, edit)] + Walk(base, ours[1..], theirs, edit.end)
    case EditTheirs =>
      var edit := theirs[0];
      ScriptEarlier(|base|, theirs[1..], edit.end, edit.end + 1);
      [Same(base[pos..edit.start]), OursOnly(base, edit).Mirrored()] + Walk(base, ours, theirs[1..], edit.end)
    case Collide =>
      CollisionScripts(|base|, ours, theirs, pos);
      var start, group := Min(ours[0].start, theirs[0].start), Collision(ours, theirs);
      [Same(base[pos..start]), Collided(base, ours, theirs)]
      + Walk(base, ours[group.ours..], theirs[group.theirs..], group.end)
  }

  function OursOnly(base: seq<Line>, edit: Edit<Line>): (chunk: Chunk)
    requires edit.start <= edit.end <= |base|
  {
    Chunk(base[edit.start..edit.end], edit.replacement, base[edit.start..edit.end], TakeOurs)
  }

  ghost function Collided(base: seq<Line>, ours: seq<Edit<Line>>, theirs: seq<Edit<Line>>): (chunk: Chunk)
    requires ours != [] && theirs != [] && CollisionFits(|base|, ours, theirs)
  {
    var start, group := Min(ours[0].start, theirs[0].start), Collision(ours, theirs);
    Overlap(base[start..group.end],
            Apply(base[..group.end], ours[..group.ours], start),
            Apply(base[..group.end], theirs[..group.theirs], start))
  }
}
