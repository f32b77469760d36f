/** The line-oriented three-way merge of one file. */
module MergeFile {
  import opened Wrappers
  import opened Bytes
  import opened Numbers
  import opened LineText
  import opened EditScript
  import opened ConflictGroup
  import opened MergeWalk
  import opened MergeChunks
  import opened MergeHunks
  import Seqs

  const MAX_TEXT_MERGE_BYTES: nat := 8 * 1024 * 1024

  datatype MergedFile = Present(bytes: Bytes) | Deleted

  datatype Outcome = Clean(file: MergedFile) | Conflicted(hunks: seq<Hunk>) {
    function Mirrored(): Outcome {
      match this
      case Clean(_) => this
      case Conflicted(hunks) => Conflicted(MirrorHunks(hunks))
    }
  }

  function WholeFile(kind: ConflictKind, base: Option<Bytes>, ours: Option<Bytes>,
                     theirs: Option<Bytes>): (o: Outcome) {
    Conflicted([Conflict(kind, base, ours, theirs)])
  }

  predicate IsBinary(bytes: Bytes) {
    exists i :: 0 <= i < |bytes| && bytes[i] == 0
  }

  /** The chunks of three texts. */
  ghost function TextChunks(base: Bytes, ours: Bytes, theirs: Bytes): (chunks: seq<Chunk>) {
    var lines := Split(base);
    RegionsApply(lines, Split(ours));
    RegionsApply(lines, Split(theirs));
    Walk(lines, Regions(lines, Split(ours)), Regions(lines, Split(theirs)), 0)
  }

  function Report(hunks: seq<Hunk>): (outcome: Outcome) {
    if Conflicts(hunks) != [] then Conflicted(hunks) else Clean(Present(HunksText(hunks, Ours)))
  }

  /** Why three files cannot be merged by lines, if they cannot. */
  function Unsuitable(base: Bytes, ours: Bytes, theirs: Bytes): (reason: Option<ConflictKind>) {
    if IsBinary(base) || IsBinary(ours) || IsBinary(theirs) then Some(Binary)
    else if |base| > MAX_TEXT_MERGE_BYTES || |ours| > MAX_TEXT_MERGE_BYTES || |theirs| > MAX_TEXT_MERGE_BYTES then
      Some(TooLarge)
    else None
  }

  ghost function MergeText(base: Bytes, ours: Bytes, theirs: Bytes): (outcome: Outcome) {
    Report(Render([], TextChunks(base, ours, theirs)))
  }

  ghost function MergePresent(base: Bytes, ours: Bytes, theirs: Bytes): (outcome: Outcome) {
    match Unsuitable(base, ours, theirs)
    case Some(kind) => WholeFile(kind, Some(base), Some(ours), Some(theirs))
    case None => MergeText(base, ours, theirs)
  }

  /** What a merge of three versions, any of which may be absent, reports. */
  ghost function Merge(base: Option<Bytes>, ours: Option<Bytes>, theirs: Option<Bytes>): (outcome: Outcome) {
    if ours.None? && theirs.None? then Clean(Deleted)
    else if ours == theirs then Clean(Present(ours.value))
    else if base.Some? && base == ours then FileOf(theirs)
    else if base.Some? && base == theirs then FileOf(ours)
    else if base.None? && theirs.None? then FileOf(ours)
    else if base.None? && ours.None? then FileOf(theirs)
    else if base.None? then WholeFile(BothAdded, base, ours, theirs)
    else if ours.None? || theirs.None? then WholeFile(ModifyDelete, base, ours, theirs)
    else MergePresent(base.value, ours.value, theirs.value)
  }

  function FileOf(version: Option<Bytes>): (outcome: Outcome) {
    if version.Some? then Clean(Present(version.value)) else Clean(Deleted)
  }

  /** A conflict inside a text: all three versions are there, the sides differ, and the kind says how. */
  ghost predicate RealConflict(hunk: Hunk) {
    && hunk.Conflict? && hunk.base.Some? && hunk.ours.Some? && hunk.theirs.Some? && hunk.ours != hunk.theirs
    && hunk.kind ==
      if hunk.base == Some([]) then BothInserted
      else if hunk.ours == Some([]) || hunk.theirs == Some([]) then ModifyDelete
      else BothModified
  }

  /** Every conflict's two sides differ, byte for byte. */
  ghost predicate SidesDiffer(conflicts: seq<Hunk>) {
    conflicts == [] || (RealConflict(conflicts[0]) && SidesDiffer(conflicts[1..]))
  }

  /** Three ways to settle a chunk: the other side left it alone, or both sides have the same text. */
  ghost predicate Settles(chunk: Chunk, bytes: Bytes) {
    && (chunk.theirs == chunk.base ==> bytes == Text(chunk.ours))
    && (chunk.ours == chunk.base ==> bytes == Text(chunk.theirs))
    && (chunk.theirs == chunk.base || chunk.ours == chunk.base || bytes == Text(chunk.ours) == Text(chunk.theirs))
  }

  /** Each chunk is shown as it must be settled, or is a conflict and shown in the version asked for. */
  ghost predicate AllSettled(chunks: seq<Chunk>) {
    chunks == [] || (AllSettled(chunks[1..]) && forall version :: SettledIn(chunks[0], version))
  }

  ghost predicate SettledIn(chunk: Chunk, version: Version) {
    if chunk.verdict.Clash? then
      Shown(chunk, version) == match version
        case Base => Text(chunk.base)
        case Ours => Text(chunk.ours)
        case Theirs => Text(chunk.theirs)
    else Settles(chunk, Shown(chunk, version))
  }

  lemma {:induction false} JustifiedIsSettled(chunks: seq<Chunk>)
    requires AllJustified(chunks)
    ensures AllSettled(chunks)
  {
    hide Text, Classify;
    if chunks != [] {
      JustifiedIsSettled(chunks[1..]);
    }
  }

  lemma {:induction false} ClashIsReal(chunk: Chunk)
    requires Justified(chunk) && chunk.verdict.Clash? && LineForm(chunk.ours) && LineForm(chunk.theirs)
    ensures RealConflict(ConflictOf(chunk))
  {
    hide LineForm, Text;
    TextTellsApart(chunk.ours, chunk.theirs);
  }

  lemma {:induction false} ClashesDiffer(chunks: seq<Chunk>)
    requires AllJustified(chunks) && LineForm(Column(chunks, Ours)) && LineForm(Column(chunks, Theirs))
    ensures SidesDiffer(Clashes(chunks))
    decreases |chunks|
  {
    hide LineForm, Justified, RealConflict, ConflictOf;
    if chunks != [] {
      var chunk, rest := chunks[0], chunks[1..];
      LineFormParts(chunk.ours, Column(rest, Ours));
      LineFormParts(chunk.theirs, Column(rest, Theirs));
      ClashesDiffer(rest);
      if chunk.verdict.Clash? {
        ClashIsReal(chunk);
        Seqs.ConcatTail(ConflictOf(chunk), Clashes(rest));
      } else {
        Seqs.Empty(Clashes(rest));
      }
    }
  }

  /**
   Three texts are cut into consecutive chunks that spell out each of them exactly, every verdict is
   justified, and the outcome shows precisely these chunks: it is clean just when no chunk clashes, and
   then holds the chosen text; otherwise its conflicts are the clashes, in order, with all three versions,
   the bytes of ours and theirs different in each.
   */
  lemma {:induction false} MergeTextExact(base: Bytes, ours: Bytes, theirs: Bytes)
    ensures var chunks := TextChunks(base, ours, theirs);
      && Text(Column(chunks, Base)) == base && Text(Column(chunks, Ours)) == ours
      && Text(Column(chunks, Theirs)) == theirs && AllJustified(chunks)
      && var hunks := Render([], chunks);
      && AllSettled(chunks) && Conflicts(hunks) == Clashes(chunks) && SidesDiffer(Conflicts(hunks))
      && (forall version :: HunksText(hunks, version) == ShownAll(chunks, version))
      && MergeText(base, ours, theirs) ==
         if Clashes(chunks) == [] then Clean(Present(ShownAll(chunks, Ours))) else Conflicted(hunks)
  {
    var lines, chunks := Split(base), TextChunks(base, ours, theirs);
    RegionsApply(lines, Split(ours));
    RegionsApply(lines, Split(theirs));
    WalkCovers(lines, Regions(lines, Split(ours)), Regions(lines, Split(theirs)), 0);
    assert lines[0..] == lines;
    TextOfSplit(base);
    TextOfSplit(ours);
    TextOfSplit(theirs);
    forall version ensures HunksText(Render([], chunks), version) == ShownAll(chunks, version) {
      RenderText([], chunks, version);
      Seqs.Empty(ShownAll(chunks, version));
    }
    RenderText([], chunks, Ours);
    Seqs.Empty(Clashes(chunks));
    SplitForm(ours);
    SplitForm(theirs);
    ClashesDiffer(chunks);
    JustifiedIsSettled(chunks);
  }

  lemma {:induction false} TextChunksMirror(base: Bytes, ours: Bytes, theirs: Bytes)
    ensures TextChunks(base, theirs, ours) == Mirror(TextChunks(base, ours, theirs))
  {
    var lines := Split(base);
    RegionsApply(lines, Split(ours));
    RegionsApply(lines, Split(theirs));
    WalkMirrors(lines, Regions(lines, Split(ours)), Regions(lines, Split(theirs)), 0);
  }

  lemma {:induction false} MergeTextMirrors(base: Bytes, ours: Bytes, theirs: Bytes)
    ensures MergeText(base, theirs, ours) == MergeText(base, ours, theirs).Mirrored()
  {
    var chunks := TextChunks(base, ours, theirs);
    TextChunksMirror(base, ours, theirs);
    assert AllJustified(chunks) by {
      MergeTextExact(base, ours, theirs);
    }
    RenderMirrors([], chunks);
    ReportMirrors(Render([], chunks));
  }

  lemma {:induction false} WholeFileMirrors(kind: ConflictKind, base: Option<Bytes>, ours: Option<Bytes>,
                                            theirs: Option<Bytes>)
    ensures WholeFile(kind, base, theirs, ours) == WholeFile(kind, base, ours, theirs).Mirrored()
  {
    assert MirrorHunks([Conflict(kind, base, ours, theirs)]) == [Conflict(kind, base, theirs, ours)];
  }

  lemma {:induction false} MergePresentMirrors(base: Bytes, ours: Bytes, theirs: Bytes)
    ensures MergePresent(base, theirs, ours) == MergePresent(base, ours, theirs).Mirrored()
  {
    assert Unsuitable(base, theirs, ours) == Unsuitable(base, ours, theirs);
    match Unsuitable(base, ours, theirs)
    case Some(kind) => WholeFileMirrors(kind, Some(base), Some(ours), Some(theirs));
    case None => MergeTextMirrors(base, ours, theirs);
  }

  lemma {:induction false} ConflictsMirror(hunks: seq<Hunk>)
    ensures Conflicts(MirrorHunks(hunks)) == [] <==> Conflicts(hunks) == []
    ensures Conflicts(hunks) == [] ==> MirrorHunks(hunks) == hunks
    decreases |hunks|
  {
    if hunks != [] {
      var front := hunks[..|hunks| - 1];
      assert MirrorHunks(hunks)[..|hunks| - 1] == MirrorHunks(front);
      ConflictsMirror(front);
      if Conflicts(hunks) == [] {
        assert hunks == front + [hunks[|hunks| - 1]];
      }
    }
  }

  lemma {:induction false} ReportMirrors(hunks: seq<Hunk>)
    ensures Report(MirrorHunks(hunks)) == Report(hunks).Mirrored()
  {
    ConflictsMirror(hunks);
  }

  /** Swapping ours and theirs yields the same outcome with the sides of every conflict exchanged. */
  lemma {:induction false} MergeMirrors(base: Option<Bytes>, ours: Option<Bytes>, theirs: Option<Bytes>)
    ensures Merge(base, theirs, ours) == Merge(base, ours, theirs).Mirrored()
  {
    if ours == theirs || base == ours || base == theirs {
    } else if base.None? {
      WholeFileMirrors(BothAdded, base, ours, theirs);
    } else if ours.None? || theirs.None? {
      WholeFileMirrors(ModifyDelete, base, ours, theirs);
    } else {
      MergePresentMirrors(base.value, ours.value, theirs.value);
    }
  }

  /** The edits neither overlap nor insert at the same place; touching is allowed. */
  ghost predicate Apart(a: Edit<Line>, b: Edit<Line>) {
    && (a.end <= b.start || b.end <= a.start)
    && !(a.IsInsertion() && b.IsInsertion() && a.start == b.start)
  }

  ghost predicate ApartFrom(a: Edit<Line>, edits: seq<Edit<Line>>) {
    edits == [] || (Apart(a, edits[0]) && ApartFrom(a, edits[1..]))
  }

  ghost predicate AllApart(ours: seq<Edit<Line>>, theirs: seq<Edit<Line>>) {
    ours == [] || (ApartFrom(ours[0], theirs) && AllApart(ours[1..], theirs))
  }

  lemma {:induction false} ApartTail(ours: seq<Edit<Line>>, theirs: seq<Edit<Line>>)
    requires AllApart(ours, theirs) && theirs != []
    ensures AllApart(ours, theirs[1..])
    decreases |ours|
  {
    if ours != [] {
      ApartTail(ours[1..], theirs);
    }
  }

  lemma {:induction false} ClashesOfTwo(first: Chunk, second: Chunk, rest: seq<Chunk>)
    requires !first.verdict.Clash? && !second.verdict.Clash? && Clashes(rest) == []
    ensures Clashes([first, second] + rest) == []
  {
    assert ([first, second] + rest)[1..] == [second] + rest;
    Seqs.ConcatTail(second, rest);
  }

  /** Edits that keep apart never conflict. */
  lemma {:induction false} ApartEditsDoNotClash(base: seq<Line>, ours: seq<Edit<Line>>, theirs: seq<Edit<Line>>,
                                                pos: nat)
    requires pos <= |base| && Script(|base|, ours, pos) && Script(|base|, theirs, pos) && AllApart(ours, theirs)
    ensures Clashes(Walk(base, ours, theirs, pos)) == []
    decreases |ours| + |theirs|
  {
    hide Clashes;
    var move := NextMove(ours, theirs);
    if move.Finish? {
      NoClash(Same(base[pos..]));
    } else if move.EditOurs? {
      var edit := ours[0];
      ScriptEarlier(|base|, ours[1..], edit.end, edit.end + 1);
      ApartEditsDoNotClash(base, ours[1..], theirs, edit.end);
      ClashesOfTwo(Same(base[pos..edit.start]), OursOnly(base, edit), Walk(base, ours[1..], theirs, edit.end));
    } else {
      var edit := theirs[0];
      ScriptEarlier(|base|, theirs[1..], edit.end, edit.end + 1);
      ApartTail(ours, theirs);
      ApartEditsDoNotClash(base, ours, theirs[1..], edit.end);
      ClashesOfTwo(Same(base[pos..edit.start]), OursOnly(base, edit).Mirrored(),
                   Walk(base, ours, theirs[1..], edit.end));
    }
  }

  lemma {:induction false} NoClash(chunk: Chunk)
    requires !chunk.verdict.Clash?
    ensures Clashes([chunk]) == []
  {
    assert [chunk][1..] == [];
    assert Clashes([]) == [];
  }

  /** Files whose edits keep apart merge cleanly. */
  lemma {:induction false} ApartEditsMerge(base: Bytes, ours: Bytes, theirs: Bytes)
    requires AllApart(Regions(Split(base), Split(ours)), Regions(Split(base), Split(theirs)))
    ensures MergeText(base, ours, theirs).Clean?
  {
    hide Regions, Walk, AllApart, Render, Split;
    var lines := Split(base);
    RegionsApply(lines, Split(ours));
    RegionsApply(lines, Split(theirs));
    ApartEditsDoNotClash(lines, Regions(lines, Split(ours)), Regions(lines, Split(theirs)), 0);
    MergeTextExact(base, ours, theirs);
  }

  /** Applies edits of one range of base lines, as bytes. */
  method ApplyEditsToRange(base: seq<Line>, edits: seq<Edit<Line>>, start: nat, end: nat) returns (output: Bytes)
    requires start <= end <= |base| && Script(end, edits, start)
    ensures output == Text(Apply(base[..end], edits, start))
  {
    output := [];
    ghost var front, goal := base[..end], Text(Apply(base[..end], edits, start));
    var cursor: nat, todo := start, edits;
    Seqs.Empty(goal);
    while todo != []
      invariant cursor <= end && Script(end, todo, cursor)
      invariant output + Text(Apply(front, todo, cursor)) == goal
      decreases |todo|
    {
      var edit := todo[0];
      ScriptEarlier(end, todo[1..], edit.end, edit.end + 1);
      ghost var rest := Apply(front, todo[1..], edit.end);
      Seqs.SliceOfFront(base, cursor, edit.start, end);
      TextConcat(base[cursor..edit.start], edit.replacement + rest);
      TextConcat(edit.replacement, rest);
      Regroup(output, Text(base[cursor..edit.start]), Text(edit.replacement), Text(rest));
      if edit.start > cursor {
        output := output + Text(base[cursor..edit.start]);
      } else {
        Seqs.Empty(output);
      }
      output := output + Text(edit.replacement);
      cursor := Max(cursor, edit.end);
      todo := todo[1..];
    }
    Seqs.SliceOfFront(base, cursor, end, end);
    assert front[cursor..end] == front[cursor..];
    if cursor < end {
      output := output + Text(base[cursor..end]);
    } else {
      Seqs.Empty(output);
    }
  }

  lemma {:induction false} Regroup(a: Bytes, b: Bytes, c: Bytes, d: Bytes)
    ensures a + (b + (c + d)) == ((a + b) + c) + d
  {
  }

  lemma {:induction false} EmitConflicts(hunks: seq<Hunk>, chunk: Chunk)
    ensures Conflicts(Emit(hunks, chunk)) == [] <==> Conflicts(hunks) == [] && !chunk.verdict.Clash?
  {
    EmitText(hunks, chunk, Ours);
  }

  /** The hunks of a collision: the lines before it, then the agreed text or a conflict. */
  method PushCollision(base: seq<Line>, ours: seq<Edit<Line>>, theirs: seq<Edit<Line>>, pos: nat,
                       start: nat, group: Group, hunks: seq<Hunk>)
    returns (pushed: seq<Hunk>, clash: bool)
    requires ours != [] && theirs != [] && CollisionFits(|base|, ours, theirs)
    requires start == Min(ours[0].start, theirs[0].start) && group == Collision(ours, theirs) && pos <= start
    ensures pushed == Emit(Emit(hunks, Same(base[pos..start])), Collided(base, ours, theirs))
    ensures clash == Collided(base, ours, theirs).verdict.Clash?
  {
    pushed := PushResolved(hunks, Text(base[pos..start]));
    var oursBytes := ApplyEditsToRange(base, ours[..group.ours], start, group.end);
    var theirsBytes := ApplyEditsToRange(base, theirs[..group.theirs], start, group.end);
    var baseBytes := Text(base[start..group.end]);
    clash := oursBytes != theirsBytes;
    if clash {
      var kind := Classify(baseBytes, oursBytes, theirsBytes);
      pushed := pushed + [Conflict(kind, Some(baseBytes), Some(oursBytes), Some(theirsBytes))];
    } else {
      pushed := PushResolved(pushed, oursBytes);
    }
  }

  /** The hunks of two insertions at one place. */
  method PushInsertions(base: seq<Line>, ours: Edit<Line>, theirs: Edit<Line>, pos: nat, hunks: seq<Hunk>)
    returns (pushed: seq<Hunk>, clash: bool)
    requires pos <= ours.start <= |base|
    ensures pushed == Emit(Emit(hunks, Same(base[pos..ours.start])), Insertions(ours.replacement, theirs.replacement))
    ensures clash == Insertions(ours.replacement, theirs.replacement).verdict.Clash?
  {
    pushed := PushResolved(hunks, Text(base[pos..ours.start]));
    clash := ours.replacement != theirs.replacement;
    if clash {
      pushed := pushed + [Conflict(BothInserted, Some([]), Some(Text(ours.replacement)),
                          Some(Text(theirs.replacement)))];
    } else {
      pushed := PushResolved(pushed, Text(ours.replacement));
    }
  }

  /** The hunks of an edit that the other side leaves alone. */
  method PushEdit(base: seq<Line>, edit: Edit<Line>, pos: nat, hunks: seq<Hunk>) returns (pushed: seq<Hunk>)
    requires pos <= edit.start <= edit.end <= |base|
    ensures pushed == Emit(Emit(hunks, Same(base[pos..edit.start])), OursOnly(base, edit))
    ensures pushed == Emit(Emit(hunks, Same(base[pos..edit.start])), OursOnly(base, edit).Mirrored())
  {
    pushed := PushResolved(hunks, Text(base[pos..edit.start]));
    pushed := PushResolved(pushed, Text(edit.replacement));
  }
}
