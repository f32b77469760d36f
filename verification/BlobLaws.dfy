/** What reads and puts of blobs come to, on any store. */
module BlobLaws {
  import opened Wrappers
  import opened Bytes
  import opened BlobDelta
  import opened BlobReading
  import opened BlobWriters

  /** The file of `id` holds the blob itself, or a delta that says and has the right depth on such a chain. */
  ghost predicate Chain(hash: Hash, files: Files, id: Id, bytes: Bytes, depth: nat)
    decreases depth
  {
    && id in files && hash(bytes) == id
    && if depth == 0 then files[id] == bytes
       else
         && hash(files[id]) != id
         && exists delta: Delta, base: Bytes ::
              && Decode(files[id]) == Ok(Some(delta)) && delta.depth == depth
              && Chain(hash, files, delta.baseId, base, depth - 1) && Reconstruct(delta, base) == Ok(bytes)
  }

  /** A read succeeds exactly along a sound chain that stays within 16 links of where it started. */
  lemma {:induction false} ReadsExactly(hash: Hash, files: Files, id: Id, recursionDepth: nat, bytes: Bytes, depth: nat)
    ensures ReadAt(hash, files, id, recursionDepth) == Ok(BlobRead(bytes, depth))
       <==> Chain(hash, files, id, bytes, depth) && depth + recursionDepth <= 16
    decreases MAX_DELTA_CHAIN_DEPTH + 1 - recursionDepth
  {
    hide Decode, Reconstruct;
    var base := BaseOf(hash, files, id);
    if recursionDepth <= MAX_DELTA_CHAIN_DEPTH && base.Some? {
      var read := ReadAt(hash, files, base.value, recursionDepth + 1);
      if read.Ok? {
        ReadsExactly(hash, files, base.value, recursionDepth + 1, read.value.bytes, read.value.depth);
      }
      if Chain(hash, files, id, bytes, depth) && depth > 0 && depth + recursionDepth <= 16 {
        var delta: Delta, under: Bytes :| Decode(files[id]) == Ok(Some(delta)) && delta.depth == depth
                            && Chain(hash, files, delta.baseId, under, depth - 1)
                            && Reconstruct(delta, under) == Ok(bytes);
        ReadsExactly(hash, files, delta.baseId, recursionDepth + 1, under, depth - 1);
      }
    }
  }

  /** What is wrong at the blob that an error names. */
  ghost predicate AtFault(hash: Hash, files: Files, error: ReadError, links: nat) {
    match error
    case MissingObject(id) => id !in files
    case ChainTooDeep(id) => links > 16 || TooDeep(Parsed(files, id))
    case InvalidDelta(id, reason) =>
      Parsed(files, id) == Err(reason) || Rebuilds(hash, files, id, links) == Err(reason)
    case DepthMismatch(id) => WrongDepth(hash, files, Parsed(files, id), links)
    case HashMismatch(id, actual) =>
      && actual != id
      && if Parsed(files, id) == Ok(None) then id in files && actual == hash(files[id])
         else HashesTo(hash, Rebuilds(hash, files, id, links), actual)
  }

  function Parsed(files: Files, id: Id): (parsed: Result<Option<Delta>, DeltaError>) {
    if id in files then Decode(files[id]) else Ok(None)
  }

  predicate TooDeep(parsed: Result<Option<Delta>, DeltaError>) {
    parsed.Ok? && parsed.value.Some? && parsed.value.value.depth > 16
  }

  /** The recorded depth is not one more than the base's. */
  predicate WrongDepth(hash: Hash, files: Files, parsed: Result<Option<Delta>, DeltaError>, links: nat) {
    && parsed.Ok? && parsed.value.Some?
    && var base := ReadAt(hash, files, parsed.value.value.baseId, links + 1);
      base.Ok? && parsed.value.value.depth != base.value.depth + 1
  }

  /** The delta applied to its base; where there is none, nothing. */
  function Rebuilds(hash: Hash, files: Files, id: Id, links: nat): (target: Result<Bytes, DeltaError>) {
    var parsed := Parsed(files, id);
    if parsed.Err? || parsed.value.None? then Ok([])
    else
      var base := ReadAt(hash, files, parsed.value.value.baseId, links + 1);
      if base.Err? then Ok([]) else Reconstruct(parsed.value.value, base.value.bytes)
  }

  predicate HashesTo(hash: Hash, target: Result<Bytes, DeltaError>, actual: Id) {
    target.Ok? && hash(target.value) == actual
  }

  /** A read that fails names a blob on its chain, and what is wrong with it. */
  lemma {:induction false} FailsAtFault(hash: Hash, files: Files, id: Id, recursionDepth: nat) returns (links: nat)
    requires ReadAt(hash, files, id, recursionDepth).Err?
    ensures var error := ReadAt(hash, files, id, recursionDepth).error;
      Follow(hash, files, id, links) == Some(error.id) && AtFault(hash, files, error, recursionDepth + links)
    decreases MAX_DELTA_CHAIN_DEPTH + 1 - recursionDepth
  {
    hide Decode, Reconstruct;
    links := 0;
    var base := BaseOf(hash, files, id);
    if recursionDepth <= MAX_DELTA_CHAIN_DEPTH && base.Some? && !TooDeep(Parsed(files, id)) {
      if ReadAt(hash, files, base.value, recursionDepth + 1).Err? {
        var more := FailsAtFault(hash, files, base.value, recursionDepth + 1);
        links := more + 1;
      }
    }
  }

  /** A chain's links lead to a file that holds its blob itself. */
  lemma {:induction false} LinksLead(hash: Hash, files: Files, id: Id, n: nat)
    requires Links(hash, files, id, n)
    ensures Follow(hash, files, id, n).Some?
    ensures var end := Follow(hash, files, id, n).value; end in files && hash(files[end]) == end
    decreases n
  {
    hide BaseOf;
    if n > 0 {
      LinksLead(hash, files, BaseOf(hash, files, id).value, n - 1);
    }
  }

  function Steady(files: Files, n: nat): (stores: seq<Files>)
    ensures |stores| == n
  {
    if n == 0 then [] else [files] + Steady(files, n - 1)
  }

  /** Where nothing changes meanwhile, a read spread over time is one reading, error or not. */
  lemma {:induction false} SteadyRead(hash: Hash, files: Files, id: Id, recursionDepth: nat)
    requires recursionDepth <= 17
    ensures ReadOver(hash, Steady(files, 17 - recursionDepth), id, recursionDepth)
         == ReadAt(hash, files, id, recursionDepth)
    decreases 17 - recursionDepth
  {
    hide Decode, Reconstruct;
    if recursionDepth <= 16 {
      var base := BaseOf(hash, files, id);
      if base.Some? {
        SteadyRead(hash, files, base.value, recursionDepth + 1);
      }
      assert Steady(files, 17 - recursionDepth)[1..] == Steady(files, 17 - (recursionDepth + 1));
    }
  }

  /**
   * A put writes a delta exactly where a base other than the blob itself is offered, can be read, and a delta on it can
   * be created; the delta then names that base, rebuilds the blob from it, and is shorter by more than 1024 bytes.
   */
  lemma {:induction false} PlansExactly(hash: Hash, files: Files, bytes: Bytes, base: Option<Id>)
    requires |bytes| < U64 && forall id: Id :: Read(hash, files, id).Ok? ==> |Read(hash, files, id).value.bytes| < U64
    ensures var plan := Plan(hash, files, bytes, base);
      var pays := base.Some? && base.value != hash(bytes) && Read(hash, files, base.value).Ok?
                  && Creates(base.value, Read(hash, files, base.value).value, bytes).Some?;
      && (!pays ==> plan == bytes)
      && (pays ==>
            var under := Read(hash, files, base.value).value;
            && Decode(plan) == Ok(Creates(base.value, under, bytes))
            && Reconstruct(Creates(base.value, under, bytes).value, under.bytes) == Ok(bytes)
            && |plan| + 1024 < |bytes|)
  {
    hide Encode, Decode, ReadAt, Reconstruct, CommonPrefixLen, CommonSuffixLen;
    if base.Some? && Read(hash, files, base.value).Ok? {
      var under := Read(hash, files, base.value).value;
      if Creates(base.value, under, bytes).Some? {
        CreateReconstructs(base.value, under.bytes, under.depth, bytes);
        DecodeOfEncodeDelta(Creates(base.value, under, bytes).value);
      }
    }
  }

  function Creates(baseId: Id, base: BlobRead, bytes: Bytes): (delta: Option<Delta>) {
    Create(baseId, base.bytes, base.depth, bytes)
  }

  /**
   * On any store, sound or not: a put is done only when it has linked its bytes or read its blob, it fails only with
   * what reading its blob gives, and a readable or damaged object is found at the first look.
   */
  lemma {:induction false} MovesExactly(hash: Hash, files: Files, writer: Writer)
    requires !writer.Done? && !writer.Failed?
    ensures var next, id := Moved(hash, files, writer), hash(writer.bytes);
      var found := Read(hash, files, id);
      && next.bytes == writer.bytes
      && (next.Done? ==> found.Ok? || (writer.Linking? && id !in files
                                       && Written(hash, files, writer) == files[id := writer.plan]))
      && (next.Failed? ==> found == Err(next.error))
      && (writer.Looking? && found.Ok? ==> next.Done?)
      && (writer.Linking? ==> next.Done? || id in files)
      && (writer.Looking? && found.Err? && !found.error.MissingObject? ==> next.Failed?)
      && (writer.Looking? && id !in files ==> next.Linking? && next.plan == writer.plan)
      && (!(writer.Linking? && id !in files) ==> Written(hash, files, writer) == files)
  {
    hide Plan, Decode, Reconstruct;
    if writer.Looking? && Read(hash, files, hash(writer.bytes)).Ok? {
      ReadNeedsFile(hash, files, hash(writer.bytes));
    }
  }

  /** How many steps a put has still to take at most. */
  function Left(writer: Writer): (n: nat) {
    match writer
    case Choosing(_, _) => 4
    case Looking(_, _) => 3
    case Linking(_, _) => 2
    case Confirming(_) => 1
    case Done(_) => 0
    case Failed(_, _) => 0
  }

  /** How often a put is given its turn. */
  function Turns(steps: seq<Step>, who: nat): (n: nat) {
    if steps == [] then 0 else (if steps[0] == Advance(who) then 1 else 0) + Turns(steps[1..], who)
  }

  lemma {:induction false} TurnCounts(hash: Hash, s: State, step: Step, who: nat)
    requires who in s.writers
    ensures var later := After(hash, s, step);
      && who in later.writers && later.writers[who].bytes == s.writers[who].bytes
      && (step == Advance(who) && Left(s.writers[who]) > 0 ==> Left(later.writers[who]) < Left(s.writers[who]))
      && (step != Advance(who) || Left(s.writers[who]) == 0 ==> later.writers[who] == s.writers[who])
  {
    hide Plan, ReadAt, Written, Hashed;
  }

  lemma {:induction false} EndsWithin(hash: Hash, s: State, steps: seq<Step>, who: nat)
    requires who in s.writers && Left(s.writers[who]) <= Turns(steps, who)
    ensures var end := Run(hash, s, steps);
      who in end.writers && Left(end.writers[who]) == 0 && end.writers[who].bytes == s.writers[who].bytes
    decreases |steps|
  {
    hide After, Left;
    if steps != [] {
      TurnCounts(hash, s, steps[0], who);
      EndsWithin(hash, After(hash, s, steps[0]), steps[1..], who);
    }
  }

  /** Under every interleaving, a put that has had four turns is done. */
  lemma {:induction false} PutsComplete(hash: Hash, s: State, who: nat, bytes: Bytes, base: Option<Id>,
                                        steps: seq<Step>)
    requires Consistent(hash, s) && who !in s.writers && |bytes| < U64 && Turns(steps, who) >= 4
    requires CollisionFree(hash, Run(hash, After(hash, s, Begin(who, bytes, base)), steps).seen)
    ensures var end := Run(hash, After(hash, s, Begin(who, bytes, base)), steps);
      who in end.writers && end.writers[who] == Done(bytes)
  {
    hide Run, CollisionFree, Turns, Readable, Sound;
    var begun := After(hash, s, Begin(who, bytes, base));
    RunGrows(hash, begun, steps);
    FewerCollisions(hash, begun.seen, Run(hash, begun, steps).seen);
    FewerCollisions(hash, s.seen, begun.seen);
    StepIsConsistent(hash, s, Begin(who, bytes, base));
    RunIsConsistent(hash, begun, steps);
    EndsWithin(hash, begun, steps, who);
    var end := Run(hash, begun, steps);
    assert WriterOk(hash, end.files, end.seen, end.writers[who]);
  }
}
