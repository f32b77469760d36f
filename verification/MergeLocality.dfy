/** A merge is local: edits on the two sides of a cut are merged apart, conflicts included. */
module MergeLocality {
  import opened Numbers
  import opened LineText
  import opened EditScript
  import opened ConflictGroup
  import opened MergeWalk
  import opened MergeChunks
  import opened MergeHunks
  import Seqs

  /** The edits end at or before the cut. */
  ghost predicate EndBy(edits: seq<Edit<Line>>, cut: nat) {
    edits == [] || (edits[0].end <= cut && EndBy(edits[1..], cut))
  }

  /** The edits start at or after the cut. */
  ghost predicate StartFrom(edits: seq<Edit<Line>>, cut: nat) {
    edits == [] || (cut <= edits[0].start && StartFrom(edits[1..], cut))
  }

  /** Some edit inserts at the cut. */
  ghost predicate InsertsAt(edits: seq<Edit<Line>>, cut: nat) {
    edits != [] && ((edits[0].start == cut && edits[0].end == cut) || InsertsAt(edits[1..], cut))
  }

  /** Edits of one side before the cut, and of the other after it, do not insert at one place. */
  ghost predicate Clear(front: seq<Edit<Line>>, back: seq<Edit<Line>>, cut: nat) {
    EndBy(front, cut) && StartFrom(back, cut) && !(InsertsAt(front, cut) && InsertsAt(back, cut))
  }

  lemma {:induction false} ClearTail(front: seq<Edit<Line>>, back: seq<Edit<Line>>, cut: nat)
    requires Clear(front, back, cut) && front != []
    ensures Clear(front[1..], back, cut)
  {
  }

  lemma {:induction false} EndByTail(edits: seq<Edit<Line>>, count: nat, cut: nat)
    requires EndBy(edits, cut) && count <= |edits|
    ensures EndBy(edits[count..], cut) && (InsertsAt(edits[count..], cut) ==> InsertsAt(edits, cut))
  {
    if count > 0 {
      EndByTail(edits[1..], count - 1, cut);
      assert edits[count..] == edits[1..][count - 1..];
    }
  }

  /** What the front absorbs, it absorbs whatever comes after the cut. */
  lemma {:induction false} AbsorbStaysInFront(ours: seq<Edit<Line>>, theirs: seq<Edit<Line>>, moreOurs: seq<Edit<Line>>,
                                              moreTheirs: seq<Edit<Line>>, start: nat, end: nat, cut: nat)
    requires start < end <= cut && EndBy(ours, cut) && EndBy(theirs, cut)
    requires StartFrom(moreOurs, cut) && StartFrom(moreTheirs, cut)
    ensures Absorb(ours + moreOurs, theirs + moreTheirs, start, end) == Absorb(ours, theirs, start, end)
    ensures Absorb(ours, theirs, start, end).end <= cut
    decreases |ours| + |theirs|
  {
    HeadOfJoin(ours, moreOurs);
    HeadOfJoin(theirs, moreTheirs);
    if ours != [] && InsideConflict(ours[0], start, end) {
      AbsorbStaysInFront(ours[1..], theirs, moreOurs, moreTheirs, start, Max(end, ours[0].end), cut);
    } else if theirs != [] && InsideConflict(theirs[0], start, end) {
      AbsorbStaysInFront(ours, theirs[1..], moreOurs, moreTheirs, start, Max(end, theirs[0].end), cut);
    }
  }

  lemma {:induction false} HeadOfJoin(front: seq<Edit<Line>>, back: seq<Edit<Line>>)
    ensures front != [] ==> (front + back)[0] == front[0] && (front + back)[1..] == front[1..] + back
    ensures front == [] ==> front + back == back
  {
  }

  /** The same first move, with or without what comes after the cut. */
  lemma {:induction false} SameMove(ours: seq<Edit<Line>>, theirs: seq<Edit<Line>>, moreOurs: seq<Edit<Line>>,
                                    moreTheirs: seq<Edit<Line>>, n: nat, pos: nat, cut: nat)
    requires ours != [] || theirs != []
    requires Script(n, ours + moreOurs, pos) && Script(n, theirs + moreTheirs, pos)
    requires Clear(ours, moreTheirs, cut) && Clear(theirs, moreOurs, cut)
    ensures NextMove(ours + moreOurs, theirs + moreTheirs) == NextMove(ours, theirs)
  {
    HeadOfJoin(ours, moreOurs);
    HeadOfJoin(theirs, moreTheirs);
  }

  lemma {:induction false} FrontScript(n: nat, front: seq<Edit<Line>>, back: seq<Edit<Line>>, pos: nat, cut: nat)
    requires Script(n, front + back, pos) && EndBy(front, cut) && StartFrom(back, cut) && cut <= n && pos <= cut
    ensures Script(cut, front, pos) && Script(n, back, cut)
    decreases |front|
  {
    HeadOfJoin(front, back);
    if front != [] {
      ScriptEarlier(n, front[1..] + back, pos, front[0].end + 1);
      FrontScriptTail(n, front[1..], back, front[0].end + 1, cut);
    } else if back != [] {
      assert Script(n, back[1..], back[0].end + 1);
    }
  }

  lemma {:induction false} FrontScriptTail(n: nat, front: seq<Edit<Line>>, back: seq<Edit<Line>>, pos: nat, cut: nat)
    requires Script(n, front + back, pos) && EndBy(front, cut) && StartFrom(back, cut) && cut <= n
    ensures Script(cut, front, pos) && Script(n, back, cut)
    decreases |front|
  {
    HeadOfJoin(front, back);
    if front != [] {
      FrontScriptTail(n, front[1..], back, front[0].end + 1, cut);
    }
  }

  /** The text and the clashes of a walk, taken together. */
  ghost predicate Splits(whole: seq<Chunk>, front: seq<Chunk>, back: seq<Chunk>) {
    && Clashes(whole) == Clashes(front) + Clashes(back)
    && forall version :: ShownAll(whole, version) == ShownAll(front, version) + ShownAll(back, version)
  }

  lemma {:induction false} ShownJoin(front: seq<Chunk>, back: seq<Chunk>, version: Version)
    ensures ShownAll(front + back, version) == ShownAll(front, version) + ShownAll(back, version)
    ensures Clashes(front + back) == Clashes(front) + Clashes(back)
    decreases |front|
  {
    hide Shown, ConflictOf;
    if front == [] {
      assert front + back == back;
      Seqs.Empty(Clashes(back));
      Seqs.Empty(ShownAll(back, version));
    } else {
      assert (front + back)[0] == front[0] && (front + back)[1..] == front[1..] + back;
      ShownJoin(front[1..], back, version);
      Seqs.Assoc(Shown(front[0], version), ShownAll(front[1..], version), ShownAll(back, version));
      Seqs.Assoc(if front[0].verdict.Clash? then [ConflictOf(front[0])] else [], Clashes(front[1..]), Clashes(back));
    }
  }

  lemma {:induction false} SplitsTwo(first: Chunk, second: Chunk, whole: seq<Chunk>, front: seq<Chunk>,
                                     back: seq<Chunk>)
    requires Splits(whole, front, back)
    ensures Splits([first, second] + whole, [first, second] + front, back)
  {
    hide ShownAll, Clashes;
    forall version
      ensures ShownAll([first, second] + whole, version)
           == ShownAll([first, second] + front, version) + ShownAll(back, version)
    {
      ShownJoin([first, second], whole, version);
      ShownJoin([first, second], front, version);
      Seqs.Assoc(ShownAll([first, second], version), ShownAll(front, version), ShownAll(back, version));
    }
    ShownJoin([first, second], whole, Ours);
    ShownJoin([first, second], front, Ours);
    Seqs.Assoc(Clashes([first, second]), Clashes(front), Clashes(back));
  }

  /** A walk may start earlier: only untouched lines come first. */
  lemma {:induction false} WalkAdvances(base: seq<Line>, ours: seq<Edit<Line>>, theirs: seq<Edit<Line>>, pos: nat,
                                        next: nat)
    requires pos <= next <= |base| && Script(|base|, ours, next) && Script(|base|, theirs, next)
    ensures Script(|base|, ours, pos) && Script(|base|, theirs, pos)
    ensures Splits(Walk(base, ours, theirs, pos), [Same(base[pos..next])], Walk(base, ours, theirs, next))
  {
    hide Collided, Collision, ShownAll, Clashes, Script;
    ScriptEarlier(|base|, ours, pos, next);
    ScriptEarlier(|base|, theirs, pos, next);
    FirstIsSame(base, ours, theirs, pos);
    FirstIsSame(base, ours, theirs, next);
    var a, b := Walk(base, ours, theirs, pos), Walk(base, ours, theirs, next);
    SameStart(base, ours, theirs, pos, next);
    var to := |a[0].base| + pos;
    assert a[0] == Same(base[pos..to]) && b[0] == Same(base[next..to]) && a[1..] == b[1..];
    Seqs.Split(base, pos, next, to);
    TextConcat(base[pos..next], base[next..to]);
    forall version ensures ShownAll(a, version) == ShownAll([Same(base[pos..next])], version) + ShownAll(b, version) {
      ShownFirst(a, version);
      ShownFirst(b, version);
      ShownOne(base[pos..next], version);
      Seqs.Assoc(Text(base[pos..next]), Text(base[next..to]), ShownAll(b[1..], version));
    }
    ShownFirst(a, Ours);
    ShownFirst(b, Ours);
    ShownOne(base[pos..next], Ours);
  }

  lemma {:induction false} ShownOne(lines: seq<Line>, version: Version)
    ensures ShownAll([Same(lines)], version) == Text(lines) && Clashes([Same(lines)]) == []
  {
    assert [Same(lines)][1..] == [];
    Seqs.Empty(Text(lines));
  }

  lemma {:induction false} ShownFirst(chunks: seq<Chunk>, version: Version)
    requires chunks != [] && chunks[0].verdict.Untouched? && chunks[0].ours == chunks[0].base
    ensures ShownAll(chunks, version) == Text(chunks[0].base) + ShownAll(chunks[1..], version)
    ensures Clashes(chunks) == Clashes(chunks[1..])
  {
    Seqs.Empty(Clashes(chunks[1..]));
  }

  /** Where the first untouched chunk of a walk ends. */
  ghost function FirstStart(n: nat, ours: seq<Edit<Line>>, theirs: seq<Edit<Line>>): (at: nat) {
    if ours == [] && theirs == [] then n
    else if theirs == [] then ours[0].start
    else if ours == [] then theirs[0].start
    else Min(ours[0].start, theirs[0].start)
  }

  lemma {:induction false} FirstIsSame(base: seq<Line>, ours: seq<Edit<Line>>, theirs: seq<Edit<Line>>, pos: nat)
    requires pos <= |base| && Script(|base|, ours, pos) && Script(|base|, theirs, pos)
    ensures pos <= FirstStart(|base|, ours, theirs) <= |base|
    ensures Walk(base, ours, theirs, pos) != []
    ensures Walk(base, ours, theirs, pos)[0] == Same(base[pos..FirstStart(|base|, ours, theirs)])
  {
    hide Collided, Collision;
  }

  lemma {:induction false} SameStart(base: seq<Line>, ours: seq<Edit<Line>>, theirs: seq<Edit<Line>>, pos: nat,
                                     next: nat)
    requires pos <= next <= |base| && Script(|base|, ours, next) && Script(|base|, theirs, next)
    requires Script(|base|, ours, pos) && Script(|base|, theirs, pos)
    ensures Walk(base, ours, theirs, pos)[1..] == Walk(base, ours, theirs, next)[1..]
    ensures Walk(base, ours, theirs, next)[0] == Same(base[next..FirstStart(|base|, ours, theirs)])
    ensures next <= FirstStart(|base|, ours, theirs)
  {
    hide Collided, Collision, Same;
    FirstIsSame(base, ours, theirs, next);
  }

  /** One turn of the front, as part of the whole and on its own. */
  lemma {:induction false} WalkSplits(base: seq<Line>, ours: seq<Edit<Line>>, theirs: seq<Edit<Line>>,
                                      moreOurs: seq<Edit<Line>>, moreTheirs: seq<Edit<Line>>, pos: nat, cut: nat)
    requires pos <= cut <= |base|
    requires Script(|base|, ours + moreOurs, pos) && Script(|base|, theirs + moreTheirs, pos)
    requires Script(cut, ours, pos) && Script(cut, theirs, pos)
    requires Script(|base|, moreOurs, cut) && Script(|base|, moreTheirs, cut)
    requires EndBy(ours, cut) && StartFrom(moreOurs, cut) && EndBy(theirs, cut) && StartFrom(moreTheirs, cut)
    requires Clear(ours, moreTheirs, cut) && Clear(theirs, moreOurs, cut)
    ensures Splits(Walk(base, ours + moreOurs, theirs + moreTheirs, pos), Walk(base[..cut], ours, theirs, pos),
                   Walk(base, moreOurs, moreTheirs, cut))
    decreases |ours| + |theirs|, 1
  {
    hide Collided, Collision, CollisionFits, Splits, Clear, Insertions, OursOnly, Same, StartFrom, EndBy;
    HeadOfJoin(ours, moreOurs);
    HeadOfJoin(theirs, moreTheirs);
    if ours == [] && theirs == [] {
      WalkAdvances(base, moreOurs, moreTheirs, pos, cut);
      assert base[..cut][pos..] == base[pos..cut];
    } else {
      SameMove(ours, theirs, moreOurs, moreTheirs, |base|, pos, cut);
      match NextMove(ours, theirs)
      case Finish =>
      case InsertBoth => SplitInsertions(base, ours, theirs, moreOurs, moreTheirs, pos, cut);
      case EditOurs => SplitOurs(base, ours, theirs, moreOurs, moreTheirs, pos, cut);
      case EditTheirs => SplitTheirs(base, ours, theirs, moreOurs, moreTheirs, pos, cut);
      case Collide => SplitCollision(base, ours, theirs, moreOurs, moreTheirs, pos, cut);
    }
  }

  lemma {:induction false} SplitInsertions(base: seq<Line>, ours: seq<Edit<Line>>, theirs: seq<Edit<Line>>,
                                           moreOurs: seq<Edit<Line>>, moreTheirs: seq<Edit<Line>>, pos: nat, cut: nat)
    requires pos <= cut <= |base|
    requires Script(|base|, ours + moreOurs, pos) && Script(|base|, theirs + moreTheirs, pos)
    requires Script(cut, ours, pos) && Script(cut, theirs, pos)
    requires Script(|base|, moreOurs, cut) && Script(|base|, moreTheirs, cut)
    requires EndBy(ours, cut) && StartFrom(moreOurs, cut) && EndBy(theirs, cut) && StartFrom(moreTheirs, cut)
    requires Clear(ours, moreTheirs, cut) && Clear(theirs, moreOurs, cut)
    requires NextMove(ours, theirs) == InsertBoth && NextMove(ours + moreOurs, theirs + moreTheirs) == InsertBoth
    ensures Splits(Walk(base, ours + moreOurs, theirs + moreTheirs, pos), Walk(base[..cut], ours, theirs, pos),
                   Walk(base, moreOurs, moreTheirs, cut))
    decreases |ours| + |theirs|, 0
  {
    hide Collided, Collision, CollisionFits, Splits, OursOnly, InsertsAt;
    var at := ours[0].start;
    HeadOfJoin(ours, moreOurs);
    HeadOfJoin(theirs, moreTheirs);
    ScriptEarlier(|base|, (ours + moreOurs)[1..], at, at + 1);
    ScriptEarlier(|base|, (theirs + moreTheirs)[1..], at, at + 1);
    ScriptEarlier(cut, ours[1..], at, at + 1);
    ScriptEarlier(cut, theirs[1..], at, at + 1);
    ClearTail(ours, moreTheirs, cut);
    ClearTail(theirs, moreOurs, cut);
    WalkSplits(base, ours[1..], theirs[1..], moreOurs, moreTheirs, at, cut);
    assert base[..cut][pos..at] == base[pos..at];
    SplitsTwo(Same(base[pos..at]), Insertions(ours[0].replacement, theirs[0].replacement),
              Walk(base, ours[1..] + moreOurs, theirs[1..] + moreTheirs, at),
              Walk(base[..cut], ours[1..], theirs[1..], at), Walk(base, moreOurs, moreTheirs, cut));
  }

  lemma {:induction false} SplitOurs(base: seq<Line>, ours: seq<Edit<Line>>, theirs: seq<Edit<Line>>,
                                     moreOurs: seq<Edit<Line>>, moreTheirs: seq<Edit<Line>>, pos: nat, cut: nat)
    requires pos <= cut <= |base|
    requires Script(|base|, ours + moreOurs, pos) && Script(|base|, theirs + moreTheirs, pos)
    requires Script(cut, ours, pos) && Script(cut, theirs, pos)
    requires Script(|base|, moreOurs, cut) && Script(|base|, moreTheirs, cut)
    requires EndBy(ours, cut) && StartFrom(moreOurs, cut) && EndBy(theirs, cut) && StartFrom(moreTheirs, cut)
    requires Clear(ours, moreTheirs, cut) && Clear(theirs, moreOurs, cut)
    requires NextMove(ours, theirs) == EditOurs && NextMove(ours + moreOurs, theirs + moreTheirs) == EditOurs
    ensures Splits(Walk(base, ours + moreOurs, theirs + moreTheirs, pos), Walk(base[..cut], ours, theirs, pos),
                   Walk(base, moreOurs, moreTheirs, cut))
    decreases |ours| + |theirs|, 0
  {
    hide Collided, Collision, CollisionFits, Splits, Insertions, InsertsAt;
    var edit := ours[0];
    HeadOfJoin(ours, moreOurs);
    ScriptEarlier(|base|, (ours + moreOurs)[1..], edit.end, edit.end + 1);
    ScriptEarlier(cut, ours[1..], edit.end, edit.end + 1);
    LaterScript(|base|, theirs + moreTheirs, pos, edit.end);
    LaterScript(cut, theirs, pos, edit.end);
    ClearTail(ours, moreTheirs, cut);
    WalkSplits(base, ours[1..], theirs, moreOurs, moreTheirs, edit.end, cut);
    assert base[..cut][pos..edit.start] == base[pos..edit.start];
    assert base[..cut][edit.start..edit.end] == base[edit.start..edit.end];
    SplitsTwo(Same(base[pos..edit.start]), OursOnly(base, edit),
              Walk(base, ours[1..] + moreOurs, theirs + moreTheirs, edit.end),
              Walk(base[..cut], ours[1..], theirs, edit.end), Walk(base, moreOurs, moreTheirs, cut));
  }

  lemma {:induction false} SplitTheirs(base: seq<Line>, ours: seq<Edit<Line>>, theirs: seq<Edit<Line>>,
                                       moreOurs: seq<Edit<Line>>, moreTheirs: seq<Edit<Line>>, pos: nat, cut: nat)
    requires pos <= cut <= |base|
    requires Script(|base|, ours + moreOurs, pos) && Script(|base|, theirs + moreTheirs, pos)
    requires Script(cut, ours, pos) && Script(cut, theirs, pos)
    requires Script(|base|, moreOurs, cut) && Script(|base|, moreTheirs, cut)
    requires EndBy(ours, cut) && StartFrom(moreOurs, cut) && EndBy(theirs, cut) && StartFrom(moreTheirs, cut)
    requires Clear(ours, moreTheirs, cut) && Clear(theirs, moreOurs, cut)
    requires NextMove(ours, theirs) == EditTheirs && NextMove(ours + moreOurs, theirs + moreTheirs) == EditTheirs
    ensures Splits(Walk(base, ours + moreOurs, theirs + moreTheirs, pos), Walk(base[..cut], ours, theirs, pos),
                   Walk(base, moreOurs, moreTheirs, cut))
    decreases |ours| + |theirs|, 0
  {
    hide Collided, Collision, CollisionFits, Splits, Insertions, InsertsAt;
    var edit := theirs[0];
    HeadOfJoin(theirs, moreTheirs);
    ScriptEarlier(|base|, (theirs + moreTheirs)[1..], edit.end, edit.end + 1);
    ScriptEarlier(cut, theirs[1..], edit.end, edit.end + 1);
    LaterScript(|base|, ours + moreOurs, pos, edit.end);
    LaterScript(cut, ours, pos, edit.end);
    ClearTail(theirs, moreOurs, cut);
    WalkSplits(base, ours, theirs[1..], moreOurs, moreTheirs, edit.end, cut);
    assert base[..cut][pos..edit.start] == base[pos..edit.start];
    assert base[..cut][edit.start..edit.end] == base[edit.start..edit.end];
    SplitsTwo(Same(base[pos..edit.start]), OursOnly(base, edit).Mirrored(),
              Walk(base, ours + moreOurs, theirs[1..] + moreTheirs, edit.end),
              Walk(base[..cut], ours, theirs[1..], edit.end), Walk(base, moreOurs, moreTheirs, cut));
  }

  lemma {:induction false} SplitCollision(base: seq<Line>, ours: seq<Edit<Line>>, theirs: seq<Edit<Line>>,
                                          moreOurs: seq<Edit<Line>>, moreTheirs: seq<Edit<Line>>, pos: nat, cut: nat)
    requires pos <= cut <= |base|
    requires Script(|base|, ours + moreOurs, pos) && Script(|base|, theirs + moreTheirs, pos)
    requires Script(cut, ours, pos) && Script(cut, theirs, pos)
    requires Script(|base|, moreOurs, cut) && Script(|base|, moreTheirs, cut)
    requires EndBy(ours, cut) && StartFrom(moreOurs, cut) && EndBy(theirs, cut) && StartFrom(moreTheirs, cut)
    requires Clear(ours, moreTheirs, cut) && Clear(theirs, moreOurs, cut)
    requires NextMove(ours, theirs) == Collide && NextMove(ours + moreOurs, theirs + moreTheirs) == Collide
    ensures Splits(Walk(base, ours + moreOurs, theirs + moreTheirs, pos), Walk(base[..cut], ours, theirs, pos),
                   Walk(base, moreOurs, moreTheirs, cut))
    decreases |ours| + |theirs|, 0
  {
    hide Splits, Walk, InsertsAt, Collision, Collided, Clear, CollisionFits, Script, StartFrom, NextMove;
    CollideStep(base, ours + moreOurs, theirs + moreTheirs, pos);
    CollideStep(base[..cut], ours, theirs, pos);
    SameCollision(base, ours, theirs, moreOurs, moreTheirs, pos, cut);
    var start, group := Min(ours[0].start, theirs[0].start), Collision(ours, theirs);
    HeadOfJoin(ours, moreOurs);
    HeadOfJoin(theirs, moreTheirs);
    RestOfJoin(ours, moreOurs, group.ours);
    RestOfJoin(theirs, moreTheirs, group.theirs);
    ClearRest(ours, moreTheirs, group.ours, cut);
    ClearRest(theirs, moreOurs, group.theirs, cut);
    EndByTail(ours, group.ours, cut);
    EndByTail(theirs, group.theirs, cut);
    WalkSplits(base, ours[group.ours..], theirs[group.theirs..], moreOurs, moreTheirs, group.end, cut);
    assert base[..cut][pos..start] == base[pos..start];
    SplitsTwo(Same(base[pos..start]), Collided(base[..cut], ours, theirs),
              Walk(base, ours[group.ours..] + moreOurs, theirs[group.theirs..] + moreTheirs, group.end),
              Walk(base[..cut], ours[group.ours..], theirs[group.theirs..], group.end),
              Walk(base, moreOurs, moreTheirs, cut));
  }

  /** One turn of the walk at a collision. */
  lemma {:induction false} CollideStep(base: seq<Line>, ours: seq<Edit<Line>>, theirs: seq<Edit<Line>>, pos: nat)
    requires pos <= |base| && Script(|base|, ours, pos) && Script(|base|, theirs, pos)
    requires NextMove(ours, theirs) == Collide
    ensures ours != [] && theirs != [] && CollisionFits(|base|, ours, theirs)
    ensures var start, group := Min(ours[0].start, theirs[0].start), Collision(ours, theirs);
      && pos <= start <= group.end <= |base| && 0 < group.ours <= |ours| && 0 < group.theirs <= |theirs|
      && Script(|base|, ours[group.ours..], group.end) && Script(|base|, theirs[group.theirs..], group.end)
      && Walk(base, ours, theirs, pos) == [Same(base[pos..start]), Collided(base, ours, theirs)]
                                        + Walk(base, ours[group.ours..], theirs[group.theirs..], group.end)
  {
    hide Collided;
    CollisionScripts(|base|, ours, theirs, pos);
  }

  lemma {:induction false} LaterScript(n: nat, edits: seq<Edit<Line>>, pos: nat, next: nat)
    requires Script(n, edits, pos) && (edits != [] ==> next <= edits[0].start)
    ensures Script(n, edits, next)
  {
  }

  lemma {:induction false} ClearRest(front: seq<Edit<Line>>, back: seq<Edit<Line>>, count: nat, cut: nat)
    requires Clear(front, back, cut) && count <= |front|
    ensures Clear(front[count..], back, cut)
  {
    EndByTail(front, count, cut);
  }

  lemma {:induction false} RestOfJoin(front: seq<Edit<Line>>, back: seq<Edit<Line>>, count: nat)
    requires count <= |front|
    ensures (front + back)[count..] == front[count..] + back && (front + back)[..count] == front[..count]
  {
  }

  lemma {:induction false} SameCollision(base: seq<Line>, ours: seq<Edit<Line>>, theirs: seq<Edit<Line>>,
                                         moreOurs: seq<Edit<Line>>, moreTheirs: seq<Edit<Line>>, pos: nat, cut: nat)
    requires cut <= |base| && ours != [] && theirs != [] && NextMove(ours, theirs).Collide?
    requires CollisionFits(|base|, ours + moreOurs, theirs + moreTheirs) && CollisionFits(cut, ours, theirs)
    requires EndBy(ours, cut) && StartFrom(moreOurs, cut) && EndBy(theirs, cut) && StartFrom(moreTheirs, cut)
    requires Script(cut, ours, pos) && Script(cut, theirs, pos)
    ensures Collision(ours + moreOurs, theirs + moreTheirs) == Collision(ours, theirs)
    ensures Collided(base, ours + moreOurs, theirs + moreTheirs) == Collided(base[..cut], ours, theirs)
  {
    hide Script, Apply;
    HeadOfJoin(ours, moreOurs);
    HeadOfJoin(theirs, moreTheirs);
    var start, end := Min(ours[0].start, theirs[0].start), Max(ours[0].end, theirs[0].end);
    HeadsBy(ours, theirs, cut, pos);
    AbsorbStaysInFront(ours, theirs, moreOurs, moreTheirs, start, end, cut);
    var group := Collision(ours, theirs);
    RestOfJoin(ours, moreOurs, group.ours);
    RestOfJoin(theirs, moreTheirs, group.theirs);
    assert base[..cut][..group.end] == base[..group.end] && base[..cut][start..group.end] == base[start..group.end];
  }

  lemma {:induction false} HeadsBy(ours: seq<Edit<Line>>, theirs: seq<Edit<Line>>, cut: nat, pos: nat)
    requires ours != [] && theirs != [] && NextMove(ours, theirs).Collide? && EndBy(ours, cut) && EndBy(theirs, cut)
    requires Script(cut, ours, pos) && Script(cut, theirs, pos)
    ensures Min(ours[0].start, theirs[0].start) < Max(ours[0].end, theirs[0].end) <= cut
  {
  }

  /**
   * Cut the base anywhere that no edit spans and where the two sides do not both insert: what is merged before the cut
   * and what is merged after it are the merges of the two parts, so a conflict stays where its edits are.
   */
  lemma {:induction false} MergesAreLocal(base: seq<Line>, ours: seq<Edit<Line>>, theirs: seq<Edit<Line>>,
                                          moreOurs: seq<Edit<Line>>, moreTheirs: seq<Edit<Line>>, cut: nat)
    requires cut <= |base| && Script(|base|, ours + moreOurs, 0) && Script(|base|, theirs + moreTheirs, 0)
    requires EndBy(ours, cut) && StartFrom(moreOurs, cut) && EndBy(theirs, cut) && StartFrom(moreTheirs, cut)
    requires Clear(ours, moreTheirs, cut) && Clear(theirs, moreOurs, cut)
    ensures Script(cut, ours, 0) && Script(cut, theirs, 0)
    ensures Script(|base|, moreOurs, cut) && Script(|base|, moreTheirs, cut)
    ensures Splits(Walk(base, ours + moreOurs, theirs + moreTheirs, 0), Walk(base[..cut], ours, theirs, 0),
                   Walk(base, moreOurs, moreTheirs, cut))
  {
    hide Splits, Walk, Clear;
    FrontScript(|base|, ours, moreOurs, 0, cut);
    FrontScript(|base|, theirs, moreTheirs, 0, cut);
    WalkSplits(base, ours, theirs, moreOurs, moreTheirs, 0, cut);
  }
}
