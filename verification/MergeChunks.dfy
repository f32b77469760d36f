/** What the chunks of a walk contain, and what swapping the two sides does to them. */
module MergeChunks {
  import opened EditScript
  import opened Numbers
  import opened ConflictGroup
  import opened LineText
  import opened MergeWalk
  import Seqs

  datatype Version = Base | Ours | Theirs

  function Part(chunk: Chunk, version: Version): (lines: seq<Line>) {
    match version
    case Base => chunk.base
    case Ours => chunk.ours
    case Theirs => chunk.theirs
  }

  /** The lines of one version, chunk after chunk. */
  function Column(chunks: seq<Chunk>, version: Version): (lines: seq<Line>) {
    if chunks == [] then [] else Part(chunks[0], version) + Column(chunks[1..], version)
  }

  lemma {:induction false} ColumnOfTwo(first: Chunk, second: Chunk, rest: seq<Chunk>, version: Version)
    ensures Column([first, second] + rest, version) ==
      Part(first, version) + (Part(second, version) + Column(rest, version))
  {
    assert ([first, second] + rest)[1..] == [second] + rest;
    Seqs.ConcatTail(second, rest);
  }

  /** A chunk's verdict is right about its three versions. */
  ghost predicate Justified(chunk: Chunk) {
    match chunk.verdict
    case Untouched => chunk.ours == chunk.base && chunk.theirs == chunk.base
    case TakeOurs => chunk.theirs == chunk.base
    case TakeTheirs => chunk.ours == chunk.base
    case Agree => Text(chunk.ours) == Text(chunk.theirs)
    case Clash(kind) =>
      && chunk.ours != chunk.theirs
      && kind == Classify(Text(chunk.base), Text(chunk.ours), Text(chunk.theirs))
  }

  ghost predicate AllJustified(chunks: seq<Chunk>) {
    chunks == [] || (Justified(chunks[0]) && AllJustified(chunks[1..]))
  }

  lemma {:induction false} JustifiedTwo(first: Chunk, second: Chunk, rest: seq<Chunk>)
    requires Justified(first) && Justified(second) && AllJustified(rest)
    ensures AllJustified([first, second] + rest)
  {
    assert ([first, second] + rest)[1..] == [second] + rest;
    Seqs.ConcatTail(second, rest);
  }

  /** The chunks spell out the rest of base, ours and theirs, and every verdict is justified. */
  ghost predicate Covers(base: seq<Line>, ours: seq<Edit<Line>>, theirs: seq<Edit<Line>>, pos: nat, chunks: seq<Chunk>)
    requires pos <= |base| && Script(|base|, ours, pos) && Script(|base|, theirs, pos)
  {
    && Column(chunks, Base) == base[pos..]
    && Column(chunks, Ours) == Apply(base, ours, pos)
    && Column(chunks, Theirs) == Apply(base, theirs, pos)
    && AllJustified(chunks)
  }

  lemma {:induction false} CoversInsertions(base: seq<Line>, ours: seq<Edit<Line>>, theirs: seq<Edit<Line>>,
                                            pos: nat, rest: seq<Chunk>)
    requires pos <= |base| && Script(|base|, ours, pos) && Script(|base|, theirs, pos)
    requires NextMove(ours, theirs).InsertBoth?
    requires Script(|base|, ours[1..], ours[0].start) && Script(|base|, theirs[1..], ours[0].start)
    requires Covers(base, ours[1..], theirs[1..], ours[0].start, rest)
    ensures var at := ours[0].start;
      Covers(base, ours, theirs, pos,
        [Same(base[pos..at]), Insertions(ours[0].replacement, theirs[0].replacement)] + rest)
  {
    var at := ours[0].start;
    var first, second := Same(base[pos..at]), Insertions(ours[0].replacement, theirs[0].replacement);
    forall version { ColumnOfTwo(first, second, rest, version); }
    JustifiedTwo(first, second, rest);
    Seqs.Empty(base[at..]);
    Seqs.SplitTail(base, pos, at);
  }

  lemma {:induction false} CoversOurs(base: seq<Line>, ours: seq<Edit<Line>>, theirs: seq<Edit<Line>>, pos: nat,
                                      rest: seq<Chunk>)
    requires pos <= |base| && ours != [] && Script(|base|, ours, pos) && Script(|base|, theirs, ours[0].end)
    requires Script(|base|, ours[1..], ours[0].end) && Covers(base, ours[1..], theirs, ours[0].end, rest)
    ensures Script(|base|, theirs, pos)
    ensures Covers(base, ours, theirs, pos, [Same(base[pos..ours[0].start]), OursOnly(base, ours[0])] + rest)
  {
    var edit := ours[0];
    var first, second := Same(base[pos..edit.start]), OursOnly(base, edit);
    ScriptEarlier(|base|, theirs, pos, edit.end);
    forall version { ColumnOfTwo(first, second, rest, version); }
    JustifiedTwo(first, second, rest);
    Seqs.SplitTail(base, edit.start, edit.end);
    Seqs.SplitTail(base, pos, edit.start);
    ApplyAdvanceTwice(base, theirs, pos, edit.start, edit.end);
  }

  lemma {:induction false} CoversTheirs(base: seq<Line>, ours: seq<Edit<Line>>, theirs: seq<Edit<Line>>, pos: nat,
                                        rest: seq<Chunk>)
    requires pos <= |base| && theirs != [] && Script(|base|, theirs, pos) && Script(|base|, ours, theirs[0].end)
    requires Script(|base|, theirs[1..], theirs[0].end) && Covers(base, ours, theirs[1..], theirs[0].end, rest)
    ensures Script(|base|, ours, pos)
    ensures Covers(base, ours, theirs, pos,
      [Same(base[pos..theirs[0].start]), OursOnly(base, theirs[0]).Mirrored()] + rest)
  {
    var edit := theirs[0];
    var first, second := Same(base[pos..edit.start]), OursOnly(base, edit).Mirrored();
    ScriptEarlier(|base|, ours, pos, edit.end);
    forall version { ColumnOfTwo(first, second, rest, version); }
    JustifiedTwo(first, second, rest);
    Seqs.SplitTail(base, edit.start, edit.end);
    Seqs.SplitTail(base, pos, edit.start);
    ApplyAdvanceTwice(base, ours, pos, edit.start, edit.end);
  }

  /** One side of a collision: the lines before it, the edited range, and the rest. */
  lemma {:induction false} ApplyCollision(base: seq<Line>, edits: seq<Edit<Line>>, pos: nat, start: nat, count: nat,
                                          end: nat)
    requires pos <= start <= end <= |base| && 0 < count <= |edits| && Script(|base|, edits, pos)
    requires Script(end, edits[..count], start) && Script(|base|, edits[count..], end)
    ensures Apply(base, edits, pos) ==
      base[pos..start] + (Apply(base[..end], edits[..count], start) + Apply(base, edits[count..], end))
  {
    assert edits[..count][0] == edits[0];
    ApplyAdvance(base, edits, pos, start);
    ApplySplit(base, edits, start, count, end);
  }

  lemma {:induction false} CoversCollision(base: seq<Line>, ours: seq<Edit<Line>>, theirs: seq<Edit<Line>>, pos: nat,
                                           rest: seq<Chunk>)
    requires pos <= |base| && Script(|base|, ours, pos) && Script(|base|, theirs, pos)
    requires ours != [] && theirs != [] && CollisionFits(|base|, ours, theirs)
    requires var group := Collision(ours, theirs);
      Covers(base, ours[group.ours..], theirs[group.theirs..], group.end, rest)
    ensures var start := Min(ours[0].start, theirs[0].start);
      Covers(base, ours, theirs, pos, [Same(base[pos..start]), Collided(base, ours, theirs)] + rest)
  {
    var start, group := Min(ours[0].start, theirs[0].start), Collision(ours, theirs);
    var first, second := Same(base[pos..start]), Collided(base, ours, theirs);
    forall version { ColumnOfTwo(first, second, rest, version); }
    JustifiedTwo(first, second, rest);
    Seqs.SplitTail(base, start, group.end);
    Seqs.SplitTail(base, pos, start);
    ApplyCollision(base, ours, pos, start, group.ours, group.end);
    ApplyCollision(base, theirs, pos, start, group.theirs, group.end);
  }

  /** The chunk theorem. */
  lemma {:induction false} WalkCovers(base: seq<Line>, ours: seq<Edit<Line>>, theirs: seq<Edit<Line>>, pos: nat)
    requires pos <= |base| && Script(|base|, ours, pos) && Script(|base|, theirs, pos)
    ensures Covers(base, ours, theirs, pos, Walk(base, ours, theirs, pos))
    decreases |ours| + |theirs|
  {
    match NextMove(ours, theirs)
    case Finish =>
      Seqs.Empty(base[pos..]);
    case InsertBoth =>
      var at := ours[0].start;
      ScriptEarlier(|base|, ours[1..], at, at + 1);
      ScriptEarlier(|base|, theirs[1..], at, at + 1);
      WalkCovers(base, ours[1..], theirs[1..], at);
      CoversInsertions(base, ours, theirs, pos, Walk(base, ours[1..], theirs[1..], at));
    case EditOurs =>
      var end := ours[0].end;
      ScriptEarlier(|base|, ours[1..], end, end + 1);
      WalkCovers(base, ours[1..], theirs, end);
      CoversOurs(base, ours, theirs, pos, Walk(base, ours[1..], theirs, end));
    case EditTheirs =>
      var end := theirs[0].end;
      ScriptEarlier(|base|, theirs[1..], end, end + 1);
      WalkCovers(base, ours, theirs[1..], end);
      CoversTheirs(base, ours, theirs, pos, Walk(base, ours, theirs[1..], end));
    case Collide =>
      CollisionScripts(|base|, ours, theirs, pos);
      var group := Collision(ours, theirs);
      WalkCovers(base, ours[group.ours..], theirs[group.theirs..], group.end);
      CoversCollision(base, ours, theirs, pos,
        Walk(base, ours[group.ours..], theirs[group.theirs..], group.end));
  }

  function Mirror(chunks: seq<Chunk>): (mirrored: seq<Chunk>) {
    if chunks == [] then [] else [chunks[0].Mirrored()] + Mirror(chunks[1..])
  }

  lemma {:induction false} MirrorTwo(first: Chunk, second: Chunk, rest: seq<Chunk>)
    ensures Mirror([first, second] + rest) == [first.Mirrored(), second.Mirrored()] + Mirror(rest)
  {
    assert ([first, second] + rest)[1..] == [second] + rest;
    Seqs.ConcatTail(second, rest);
  }

  lemma {:induction false} CollisionMirrors(base: seq<Line>, ours: seq<Edit<Line>>, theirs: seq<Edit<Line>>, pos: nat)
    requires Script(|base|, ours, pos) && Script(|base|, theirs, pos) && NextMove(ours, theirs).Collide?
    ensures CollisionFits(|base|, ours, theirs) && CollisionFits(|base|, theirs, ours)
    ensures Collision(theirs, ours) == Collision(ours, theirs).Mirrored()
    ensures Collided(base, theirs, ours) == Collided(base, ours, theirs).Mirrored()
  {
    CollisionScripts(|base|, ours, theirs, pos);
    CollisionScripts(|base|, theirs, ours, pos);
    AbsorbMirrors(ours, theirs, Min(ours[0].start, theirs[0].start), Max(ours[0].end, theirs[0].end));
  }

  /** Swapping ours and theirs swaps the sides of every chunk and changes nothing else. */
  lemma {:induction false} WalkMirrors(base: seq<Line>, ours: seq<Edit<Line>>, theirs: seq<Edit<Line>>, pos: nat)
    requires pos <= |base| && Script(|base|, ours, pos) && Script(|base|, theirs, pos)
    ensures Walk(base, theirs, ours, pos) == Mirror(Walk(base, ours, theirs, pos))
    decreases |ours| + |theirs|, 1
  {
    match NextMove(ours, theirs)
    case Finish =>
    case InsertBoth => WalkMirrorsInsertions(base, ours, theirs, pos);
    case EditOurs => WalkMirrorsOurs(base, ours, theirs, pos);
    case EditTheirs => WalkMirrorsTheirs(base, ours, theirs, pos);
    case Collide => WalkMirrorsCollision(base, ours, theirs, pos);
  }

  lemma {:induction false} WalkMirrorsInsertions(base: seq<Line>, ours: seq<Edit<Line>>, theirs: seq<Edit<Line>>,
                                                 pos: nat)
    requires pos <= |base| && Script(|base|, ours, pos) && Script(|base|, theirs, pos)
    requires NextMove(ours, theirs).InsertBoth?
    ensures Walk(base, theirs, ours, pos) == Mirror(Walk(base, ours, theirs, pos))
    decreases |ours| + |theirs|, 0
  {
    hide Mirror, Collided, Collision, CollisionFits, OursOnly, Text, Classify;
    var at := ours[0].start;
    ScriptEarlier(|base|, ours[1..], at, at + 1);
    ScriptEarlier(|base|, theirs[1..], at, at + 1);
    WalkMirrors(base, ours[1..], theirs[1..], at);
    MirrorTwo(Same(base[pos..at]), Insertions(ours[0].replacement, theirs[0].replacement),
              Walk(base, ours[1..], theirs[1..], at));
  }

  lemma {:induction false} WalkMirrorsOurs(base: seq<Line>, ours: seq<Edit<Line>>, theirs: seq<Edit<Line>>, pos: nat)
    requires pos <= |base| && Script(|base|, ours, pos) && Script(|base|, theirs, pos)
    requires NextMove(ours, theirs).EditOurs?
    ensures Walk(base, theirs, ours, pos) == Mirror(Walk(base, ours, theirs, pos))
    decreases |ours| + |theirs|, 0
  {
    hide Mirror, Collided, Collision, CollisionFits, Insertions, Text, Classify;
    var edit := ours[0];
    ScriptEarlier(|base|, ours[1..], edit.end, edit.end + 1);
    WalkMirrors(base, ours[1..], theirs, edit.end);
    MirrorTwo(Same(base[pos..edit.start]), OursOnly(base, edit), Walk(base, ours[1..], theirs, edit.end));
  }

  lemma {:induction false} WalkMirrorsTheirs(base: seq<Line>, ours: seq<Edit<Line>>, theirs: seq<Edit<Line>>, pos: nat)
    requires pos <= |base| && Script(|base|, ours, pos) && Script(|base|, theirs, pos)
    requires NextMove(ours, theirs).EditTheirs?
    ensures Walk(base, theirs, ours, pos) == Mirror(Walk(base, ours, theirs, pos))
    decreases |ours| + |theirs|, 0
  {
    hide Mirror, Collided, Collision, CollisionFits, Insertions, Text, Classify;
    var edit := theirs[0];
    ScriptEarlier(|base|, theirs[1..], edit.end, edit.end + 1);
    WalkMirrors(base, ours, theirs[1..], edit.end);
    MirrorTwo(Same(base[pos..edit.start]), OursOnly(base, edit).Mirrored(),
              Walk(base, ours, theirs[1..], edit.end));
  }

  lemma {:induction false} WalkMirrorsCollision(base: seq<Line>, ours: seq<Edit<Line>>, theirs: seq<Edit<Line>>,
                                                pos: nat)
    requires pos <= |base| && Script(|base|, ours, pos) && Script(|base|, theirs, pos)
    requires NextMove(ours, theirs).Collide?
    ensures Walk(base, theirs, ours, pos) == Mirror(Walk(base, ours, theirs, pos))
    decreases |ours| + |theirs|, 0
  {
    hide Mirror, Insertions, OursOnly, Text, Classify, Absorb;
    CollisionMirrors(base, ours, theirs, pos);
    var start, group := Min(ours[0].start, theirs[0].start), Collision(ours, theirs);
    WalkMirrors(base, ours[group.ours..], theirs[group.theirs..], group.end);
    MirrorTwo(Same(base[pos..start]), Collided(base, ours, theirs),
              Walk(base, ours[group.ours..], theirs[group.theirs..], group.end));
  }
}
