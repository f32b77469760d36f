/** The hunks a merge reports: adjacent resolved text is joined, every conflict stands alone. */
module MergeHunks {
  import opened Wrappers
  import opened Bytes
  import opened LineText
  import opened MergeWalk
  import opened MergeChunks
  import Seqs

  datatype Hunk =
    | Resolved(bytes: Bytes)
    | Conflict(kind: ConflictKind, base: Option<Bytes>, ours: Option<Bytes>, theirs: Option<Bytes>)
  {
    function Mirrored(): Hunk {
      match this
      case Resolved(_) => this
      case Conflict(kind, base, ours, theirs) => Conflict(kind, base, theirs, ours)
    }
  }

  function PushResolved(hunks: seq<Hunk>, bytes: Bytes): (pushed: seq<Hunk>) {
    if bytes == [] then hunks
    else if hunks != [] && hunks[|hunks| - 1].Resolved? then
      hunks[..|hunks| - 1] + [Resolved(hunks[|hunks| - 1].bytes + bytes)]
    else hunks + [Resolved(bytes)]
  }

  function ConflictOf(chunk: Chunk): (hunk: Hunk)
    requires chunk.verdict.Clash?
  {
    Conflict(chunk.verdict.kind, Some(Text(chunk.base)), Some(Text(chunk.ours)), Some(Text(chunk.theirs)))
  }

  /** The lines a chunk contributes when it is not a conflict. */
  function Chosen(chunk: Chunk): (lines: seq<Line>) {
    if chunk.verdict.TakeTheirs? then chunk.theirs else chunk.ours
  }

  function Emit(hunks: seq<Hunk>, chunk: Chunk): (emitted: seq<Hunk>) {
    if chunk.verdict.Clash? then hunks + [ConflictOf(chunk)] else PushResolved(hunks, Text(Chosen(chunk)))
  }

  function Render(hunks: seq<Hunk>, chunks: seq<Chunk>): (rendered: seq<Hunk>)
    decreases |chunks|
  {
    if chunks == [] then hunks else Render(Emit(hunks, chunks[0]), chunks[1..])
  }

  lemma {:induction false} RenderTwo(hunks: seq<Hunk>, first: Chunk, second: Chunk, rest: seq<Chunk>)
    ensures Render(hunks, [first, second] + rest) == Render(Emit(Emit(hunks, first), second), rest)
  {
    assert ([first, second] + rest)[1..] == [second] + rest;
    Seqs.ConcatTail(second, rest);
  }

  lemma {:induction false} RenderOne(hunks: seq<Hunk>, chunk: Chunk)
    ensures Render(hunks, [chunk]) == Emit(hunks, chunk)
  {
    assert [chunk][1..] == [];
    assert Render(Emit(hunks, chunk), []) == Emit(hunks, chunk);
  }

  /** The text of one version in a chunk that is a conflict, the chosen text elsewhere. */
  function Shown(chunk: Chunk, version: Version): (bytes: Bytes) {
    if chunk.verdict.Clash? then Text(Part(chunk, version)) else Text(Chosen(chunk))
  }

  function ShownAll(chunks: seq<Chunk>, version: Version): (bytes: Bytes) {
    if chunks == [] then [] else Shown(chunks[0], version) + ShownAll(chunks[1..], version)
  }

  function HunkText(hunk: Hunk, version: Version): (bytes: Bytes) {
    match hunk
    case Resolved(bytes) => bytes
    case Conflict(_, base, ours, theirs) =>
      var side := match version case Base => base case Ours => ours case Theirs => theirs;
      if side.Some? then side.value else []
  }

  /** The text of the hunks with every conflict settled in favour of one version. */
  function HunksText(hunks: seq<Hunk>, version: Version): (bytes: Bytes) {
    if hunks == [] then []
    else HunksText(hunks[..|hunks| - 1], version) + HunkText(hunks[|hunks| - 1], version)
  }

  function Conflicts(hunks: seq<Hunk>): (conflicts: seq<Hunk>) {
    if hunks == [] then []
    else
      var last := hunks[|hunks| - 1];
      Conflicts(hunks[..|hunks| - 1]) + (if last.Conflict? then [last] else [])
  }

  function Clashes(chunks: seq<Chunk>): (conflicts: seq<Hunk>) {
    if chunks == [] then []
    else (if chunks[0].verdict.Clash? then [ConflictOf(chunks[0])] else []) + Clashes(chunks[1..])
  }

  lemma {:induction false} PushedHunk(hunks: seq<Hunk>, hunk: Hunk, version: Version)
    ensures HunksText(hunks + [hunk], version) == HunksText(hunks, version) + HunkText(hunk, version)
    ensures Conflicts(hunks + [hunk]) == Conflicts(hunks) + (if hunk.Conflict? then [hunk] else [])
  {
    assert (hunks + [hunk])[..|hunks|] == hunks;
  }

  lemma {:induction false} PushResolvedText(hunks: seq<Hunk>, bytes: Bytes, version: Version)
    ensures HunksText(PushResolved(hunks, bytes), version) == HunksText(hunks, version) + bytes
    ensures Conflicts(PushResolved(hunks, bytes)) == Conflicts(hunks)
  {
    if bytes == [] {
      Seqs.Empty(HunksText(hunks, version));
    } else if hunks != [] && hunks[|hunks| - 1].Resolved? {
      var front, last := hunks[..|hunks| - 1], hunks[|hunks| - 1].bytes;
      PushedHunk(front, Resolved(last + bytes), version);
      Seqs.Assoc(HunksText(front, version), last, bytes);
    } else {
      PushedHunk(hunks, Resolved(bytes), version);
    }
  }

  lemma {:induction false} EmitText(hunks: seq<Hunk>, chunk: Chunk, version: Version)
    ensures HunksText(Emit(hunks, chunk), version) == HunksText(hunks, version) + Shown(chunk, version)
    ensures Conflicts(Emit(hunks, chunk)) ==
      Conflicts(hunks) + (if chunk.verdict.Clash? then [ConflictOf(chunk)] else [])
  {
    if chunk.verdict.Clash? {
      PushedHunk(hunks, ConflictOf(chunk), version);
    } else {
      PushResolvedText(hunks, Text(Chosen(chunk)), version);
    }
  }

  /** The hunks hold the chosen text and the three versions of every clash, in order and nothing else. */
  lemma {:induction false} RenderText(hunks: seq<Hunk>, chunks: seq<Chunk>, version: Version)
    ensures HunksText(Render(hunks, chunks), version) == HunksText(hunks, version) + ShownAll(chunks, version)
    ensures Conflicts(Render(hunks, chunks)) == Conflicts(hunks) + Clashes(chunks)
    decreases |chunks|
  {
    if chunks != [] {
      var chunk, rest := chunks[0], chunks[1..];
      EmitText(hunks, chunk, version);
      RenderText(Emit(hunks, chunk), rest, version);
      Seqs.Assoc(HunksText(hunks, version), Shown(chunk, version), ShownAll(rest, version));
      Seqs.Assoc(Conflicts(hunks), if chunk.verdict.Clash? then [ConflictOf(chunk)] else [], Clashes(rest));
    }
  }

  function MirrorHunks(hunks: seq<Hunk>): (mirrored: seq<Hunk>)
    ensures |mirrored| == |hunks|
    ensures forall i :: 0 <= i < |hunks| ==> mirrored[i] == hunks[i].Mirrored()
  {
    if hunks == [] then [] else [hunks[0].Mirrored()] + MirrorHunks(hunks[1..])
  }

  lemma {:induction false} EmitMirrors(hunks: seq<Hunk>, chunk: Chunk)
    requires Justified(chunk)
    ensures Emit(MirrorHunks(hunks), chunk.Mirrored()) == MirrorHunks(Emit(hunks, chunk))
  {
    hide Text;
    assert chunk.verdict.Clash? || Text(Chosen(chunk.Mirrored())) == Text(Chosen(chunk));
    if !chunk.verdict.Clash? {
      PushMirrors(hunks, Text(Chosen(chunk)));
    }
  }

  lemma {:induction false} PushMirrors(hunks: seq<Hunk>, bytes: Bytes)
    ensures PushResolved(MirrorHunks(hunks), bytes) == MirrorHunks(PushResolved(hunks, bytes))
  {
    var pushed, mirrored := PushResolved(hunks, bytes), PushResolved(MirrorHunks(hunks), bytes);
    assert |mirrored| == |pushed|;
  }

  lemma {:induction false} RenderMirrors(hunks: seq<Hunk>, chunks: seq<Chunk>)
    requires AllJustified(chunks)
    ensures Render(MirrorHunks(hunks), Mirror(chunks)) == MirrorHunks(Render(hunks, chunks))
    decreases |chunks|
  {
    if chunks != [] {
      EmitMirrors(hunks, chunks[0]);
      RenderMirrors(Emit(hunks, chunks[0]), chunks[1..]);
      Seqs.ConcatTail(chunks[0].Mirrored(), Mirror(chunks[1..]));
    }
  }

  /** No resolved hunk is empty, and no two stand next to each other. */
  ghost predicate Tight(hunks: seq<Hunk>) {
    && (forall i :: 0 <= i < |hunks| && hunks[i].Resolved? ==> hunks[i].bytes != [])
    && forall i :: 0 < i < |hunks| ==> hunks[i - 1].Conflict? || hunks[i].Conflict?
  }

  lemma {:induction false} EmitStaysTight(hunks: seq<Hunk>, chunk: Chunk)
    requires Tight(hunks)
    ensures Tight(Emit(hunks, chunk))
  {
  }

  /** Adjacent resolved text is one hunk. */
  lemma {:induction false} RenderIsTight(hunks: seq<Hunk>, chunks: seq<Chunk>)
    requires Tight(hunks)
    ensures Tight(Render(hunks, chunks))
    decreases |chunks|
  {
    hide Emit, Tight;
    if chunks != [] {
      EmitStaysTight(hunks, chunks[0]);
      RenderIsTight(Emit(hunks, chunks[0]), chunks[1..]);
    }
  }
}
