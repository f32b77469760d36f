/**
 * Concurrent blob writers over one store, in atomic steps: choose raw or delta bytes, look for an existing object,
 * link the new file if the name is still free, and otherwise confirm what a racer stored.
 */
module BlobWriters {
  import opened Wrappers
  import opened Bytes
  import opened BlobDelta
  import opened BlobReading

  datatype Writer =
    | Choosing(bytes: Bytes, base: Option<Id>)
    | Looking(bytes: Bytes, plan: Bytes)
    | Linking(bytes: Bytes, plan: Bytes)
    | Confirming(bytes: Bytes)
    | Done(bytes: Bytes)
    | Failed(bytes: Bytes, error: ReadError)

  /** The files, the writers, and every byte string ever hashed as blob or file content. */
  datatype State = State(files: Files, writers: map<nat, Writer>, seen: set<Bytes>)

  const EMPTY: State := State(map[], map[], {})

  datatype Step =
    | Begin(who: nat, bytes: Bytes, base: Option<Id>)
    | Advance(who: nat)

  /** The bytes a put writes: a delta against a readable base where that pays, else the blob itself. */
  function Plan(hash: Hash, files: Files, bytes: Bytes, base: Option<Id>): (plan: Bytes) {
    if base.None? || base.value == hash(bytes) || |bytes| < MIN_DELTA_TARGET_BYTES then bytes
    else DeltaPlan(bytes, base.value, Read(hash, files, base.value))
  }

  function DeltaPlan(bytes: Bytes, baseId: Id, read: Reading): (plan: Bytes) {
    if read.Err? then bytes
    else
      var delta := Create(baseId, read.value.bytes, read.value.depth, bytes);
      if delta.None? then bytes else Encode(delta.value)
  }

  /** The verdict of an existence check that found a file. */
  function Checked(bytes: Bytes, reading: Reading): (writer: Writer) {
    if reading.Ok? then Done(bytes) else Failed(bytes, reading.error)
  }

  function Moved(hash: Hash, files: Files, writer: Writer): (next: Writer) {
    match writer
    case Choosing(bytes, base) => Looking(bytes, Plan(hash, files, bytes, base))
    case Looking(bytes, plan) =>
      var reading := Read(hash, files, hash(bytes));
      if hash(bytes) !in files || (reading.Err? && reading.error.MissingObject?) then Linking(bytes, plan)
      else Checked(bytes, reading)
    case Linking(bytes, plan) => if hash(bytes) in files then Confirming(bytes) else Done(bytes)
    case Confirming(bytes) => Checked(bytes, Read(hash, files, hash(bytes)))
    case Done(_) => writer
    case Failed(_, _) => writer
  }

  /** Linking creates the file only where none exists; no other move touches the files. */
  function Written(hash: Hash, files: Files, writer: Writer): (later: Files) {
    if writer.Linking? && hash(writer.bytes) !in files then files[hash(writer.bytes) := writer.plan] else files
  }

  function Hashed(hash: Hash, files: Files, writer: Writer): (more: set<Bytes>) {
    if writer.Choosing? then {Plan(hash, files, writer.bytes, writer.base)} else {}
  }

  /** One step of one writer; a step that is not possible changes nothing. */
  function After(hash: Hash, s: State, step: Step): (next: State) {
    match step
    case Begin(who, bytes, base) =>
      if who in s.writers || |bytes| >= U64 then s
      else State(s.files, s.writers[who := Choosing(bytes, base)], s.seen + {bytes})
    case Advance(who) =>
      if who !in s.writers then s
      else
        var writer := s.writers[who];
        State(Written(hash, s.files, writer), s.writers[who := Moved(hash, s.files, writer)],
              s.seen + Hashed(hash, s.files, writer))
  }

  function Run(hash: Hash, s: State, steps: seq<Step>): (end: State)
    decreases |steps|
  {
    if steps == [] then s else Run(hash, After(hash, s, steps[0]), steps[1..])
  }

  ghost predicate CollisionFree(hash: Hash, seen: set<Bytes>) {
    forall x <- seen, y <- seen :: hash(x) == hash(y) ==> x == y
  }

  /** Reading `id` works and yields a byte string that some writer put. */
  ghost predicate Readable(hash: Hash, files: Files, seen: set<Bytes>, id: Id) {
    var read := Read(hash, files, id);
    read.Ok? && read.value.bytes in seen && |read.value.bytes| < U64
  }

  /** Linking these bytes now would make the blob readable. */
  ghost predicate Sound(hash: Hash, files: Files, bytes: Bytes, plan: Bytes) {
    plan == bytes || SoundDelta(hash, files, bytes, plan, Decode(plan))
  }

  ghost predicate SoundDelta(hash: Hash, files: Files, bytes: Bytes, plan: Bytes,
                             decoded: Result<Option<Delta>, DeltaError>) {
    && decoded.Ok? && decoded.value.Some?
    && var delta := decoded.value.value;
    var base := Read(hash, files, delta.baseId);
    && plan != bytes && delta.depth <= MAX_DELTA_CHAIN_DEPTH
    && base.Ok? && delta.depth == base.value.depth + 1
    && Reconstruct(delta, base.value.bytes) == Ok(bytes)
  }

  ghost predicate WriterOk(hash: Hash, files: Files, seen: set<Bytes>, writer: Writer) {
    && writer.bytes in seen && |writer.bytes| < U64
    && !writer.Failed?
    && (writer.Looking? || writer.Linking? ==> writer.plan in seen && Sound(hash, files, writer.bytes, writer.plan))
    && (writer.Confirming? || writer.Done? ==> hash(writer.bytes) in files)
  }

  ghost predicate FilesOk(hash: Hash, files: Files, seen: set<Bytes>) {
    forall id <- files :: Readable(hash, files, seen, id)
  }

  ghost predicate WritersOk(hash: Hash, files: Files, seen: set<Bytes>, writers: map<nat, Writer>) {
    forall who <- writers :: WriterOk(hash, files, seen, writers[who])
  }

  ghost predicate Consistent(hash: Hash, s: State) {
    FilesOk(hash, s.files, s.seen) && WritersOk(hash, s.files, s.seen, s.writers)
  }

  /** What grows keeps its meaning. */
  ghost predicate Grows(s: State, later: State) {
    Extends(s.files, later.files) && s.seen <= later.seen
  }

  lemma {:induction false} ReadablePersists(hash: Hash, files: Files, later: Files, seen: set<Bytes>, more: set<Bytes>,
                                            id: Id)
    requires Extends(files, later) && seen <= more && Readable(hash, files, seen, id)
    ensures Readable(hash, later, more, id)
  {
    ReadPersists(hash, files, later, id, 0);
  }

  lemma {:induction false} WriterOkPersists(hash: Hash, files: Files, later: Files, seen: set<Bytes>, more: set<Bytes>,
                                            writer: Writer)
    requires Extends(files, later) && seen <= more && WriterOk(hash, files, seen, writer)
    ensures WriterOk(hash, later, more, writer)
  {
    hide ReadAt, Decode, Reconstruct;
    if (writer.Looking? || writer.Linking?) && writer.plan != writer.bytes {
      ReadPersists(hash, files, later, Decode(writer.plan).value.value.baseId, 0);
    }
  }

  /** Whatever base is offered, the chosen bytes are sound to link. */
  lemma {:induction false} PlanIsSound(hash: Hash, files: Files, seen: set<Bytes>, bytes: Bytes, base: Option<Id>)
    requires FilesOk(hash, files, seen) && |bytes| < U64
    ensures Sound(hash, files, bytes, Plan(hash, files, bytes, base))
  {
    hide Encode, Decode, Create, ReadAt, Reconstruct;
    var plan := Plan(hash, files, bytes, base);
    if plan != bytes {
      assert base.value in files by { ReadNeedsFile(hash, files, base.value); }
      assert Readable(hash, files, seen, base.value);
      var read := Read(hash, files, base.value).value;
      CreateReconstructs(base.value, read.bytes, read.depth, bytes);
      DecodeOfEncodeDelta(Create(base.value, read.bytes, read.depth, bytes).value);
    }
  }

  lemma {:induction false} ReadNeedsFile(hash: Hash, files: Files, id: Id)
    requires Read(hash, files, id).Ok?
    ensures id in files
  {
  }

  /** Linking sound bytes makes the blob readable, whichever form they have. */
  lemma {:induction false} LinkIsReadable(hash: Hash, files: Files, seen: set<Bytes>, bytes: Bytes, plan: Bytes)
    requires hash(bytes) !in files && Sound(hash, files, bytes, plan)
    requires bytes in seen && plan in seen && |bytes| < U64 && CollisionFree(hash, seen)
    ensures Readable(hash, files[hash(bytes) := plan], seen, hash(bytes))
  {
    hide Decode, Reconstruct;
    var id := hash(bytes);
    var later := files[id := plan];
    if plan != bytes {
      var delta := Decode(plan).value.value;
      var base := Read(hash, files, delta.baseId).value;
      ReadIsSound(hash, files, delta.baseId, 0);
      assert base.depth + 1 <= MAX_DELTA_CHAIN_DEPTH;
      ReadPersists(hash, files, later, delta.baseId, 0);
      ReadWithinLimit(hash, later, delta.baseId, 0, 1);
      assert hash(plan) != id;
      assert ReadAt(hash, later, id, 0) == Ok(BlobRead(bytes, delta.depth));
    }
  }

  lemma {:induction false} StepGrows(hash: Hash, s: State, step: Step)
    ensures Grows(s, After(hash, s, step))
  {
    hide Moved, Hashed;
  }

  /** The writer that moves stays in order; this is where no put fails. */
  lemma {:induction false} MoveIsOk(hash: Hash, files: Files, seen: set<Bytes>, writer: Writer)
    requires FilesOk(hash, files, seen) && WriterOk(hash, files, seen, writer)
    ensures WriterOk(hash, Written(hash, files, writer), seen + Hashed(hash, files, writer),
                     Moved(hash, files, writer))
  {
    hide ReadAt, Plan, Sound;
    if writer.Choosing? {
      PlanIsSound(hash, files, seen, writer.bytes, writer.base);
    } else if hash(writer.bytes) in files {
      assert Readable(hash, files, seen, hash(writer.bytes));
    }
  }

  lemma {:induction false} FilesStayOk(hash: Hash, files: Files, seen: set<Bytes>, more: set<Bytes>, writer: Writer)
    requires FilesOk(hash, files, seen) && WriterOk(hash, files, seen, writer) && CollisionFree(hash, seen)
    requires seen <= more
    ensures FilesOk(hash, Written(hash, files, writer), more)
  {
    hide Readable, Sound;
    var later := Written(hash, files, writer);
    forall id <- later ensures Readable(hash, later, more, id) {
      if id in files {
        ReadablePersists(hash, files, later, seen, more, id);
      } else {
        LinkIsReadable(hash, files, seen, writer.bytes, writer.plan);
        ReadablePersists(hash, later, later, seen, more, id);
      }
    }
  }

  lemma {:induction false} OthersStayOk(hash: Hash, s: State, later: State)
    requires Grows(s, later) && WritersOk(hash, s.files, s.seen, s.writers)
    ensures WritersOk(hash, later.files, later.seen, s.writers)
  {
    hide WriterOk;
    forall who <- s.writers ensures WriterOk(hash, later.files, later.seen, s.writers[who]) {
      WriterOkPersists(hash, s.files, later.files, s.seen, later.seen, s.writers[who]);
    }
  }

  lemma {:induction false} StepIsConsistent(hash: Hash, s: State, step: Step)
    requires Consistent(hash, s) && CollisionFree(hash, s.seen)
    ensures Consistent(hash, After(hash, s, step))
  {
    hide Moved, Hashed, Written, Extends, CollisionFree, Readable, Sound, WriterOk;
    var later := After(hash, s, step);
    StepGrows(hash, s, step);
    OthersStayOk(hash, s, later);
    if step.Advance? && step.who in s.writers {
      var writer := s.writers[step.who];
      MoveIsOk(hash, s.files, s.seen, writer);
      FilesStayOk(hash, s.files, s.seen, later.seen, writer);
    } else if later != s {
      forall id <- s.files ensures Readable(hash, s.files, later.seen, id) {
        ReadablePersists(hash, s.files, later.files, s.seen, later.seen, id);
      }
      assert WriterOk(hash, s.files, later.seen, Choosing(step.bytes, step.base)) by { NewWriterIsOk(hash, later,
                                                                                      step); }
    }
  }

  lemma {:induction false} NewWriterIsOk(hash: Hash, later: State, step: Step)
    requires step.Begin? && step.bytes in later.seen && |step.bytes| < U64
    ensures WriterOk(hash, later.files, later.seen, Choosing(step.bytes, step.base))
  {
  }

  /** Published objects never change, over any run from any state. */
  lemma {:induction false} RunGrows(hash: Hash, s: State, steps: seq<Step>)
    ensures Grows(s, Run(hash, s, steps))
    decreases |steps|
  {
    hide After;
    if steps != [] {
      StepGrows(hash, s, steps[0]);
      RunGrows(hash, After(hash, s, steps[0]), steps[1..]);
    }
  }

  lemma {:induction false} FewerCollisions(hash: Hash, seen: set<Bytes>, more: set<Bytes>)
    requires seen <= more && CollisionFree(hash, more)
    ensures CollisionFree(hash, seen)
  {
  }

  lemma {:induction false} RunIsConsistent(hash: Hash, s: State, steps: seq<Step>)
    requires Consistent(hash, s) && CollisionFree(hash, Run(hash, s, steps).seen)
    ensures Consistent(hash, Run(hash, s, steps))
    decreases |steps|
  {
    hide After, Consistent, CollisionFree;
    if steps != [] {
      RunGrows(hash, s, steps);
      FewerCollisions(hash, s.seen, Run(hash, s, steps).seen);
      StepIsConsistent(hash, s, steps[0]);
      RunIsConsistent(hash, After(hash, s, steps[0]), steps[1..]);
    }
  }

  /** A put that is done reads back the exact bytes it was given. */
  lemma {:induction false} DoneReadsBack(hash: Hash, s: State, who: nat)
    requires Consistent(hash, s) && CollisionFree(hash, s.seen) && who in s.writers && s.writers[who].Done?
    ensures var bytes := s.writers[who].bytes;
      Read(hash, s.files, hash(bytes)).Ok? && Read(hash, s.files, hash(bytes)).value.bytes == bytes
  {
    hide ReadAt, Sound;
    var bytes := s.writers[who].bytes;
    assert WriterOk(hash, s.files, s.seen, s.writers[who]);
    assert Readable(hash, s.files, s.seen, hash(bytes));
    ReadIsSound(hash, s.files, hash(bytes), 0);
  }

  /**
   * Over every interleaving of any writers with any base hints, from an empty store: no put has failed, every
   * published id can be read, and what a finished put stored reads back exactly, then and after any further steps.
   */
  lemma {:induction false} PutsAreDurable(hash: Hash, steps: seq<Step>, more: seq<Step>, who: nat)
    requires CollisionFree(hash, Run(hash, Run(hash, EMPTY, steps), more).seen)
    requires who in Run(hash, EMPTY, steps).writers
    ensures var s := Run(hash, EMPTY, steps);
      var later := Run(hash, s, more);
      var bytes := s.writers[who].bytes;
      && !s.writers[who].Failed?
      && Extends(s.files, later.files)
      && (s.writers[who].Done? ==> (Read(hash, s.files, hash(bytes)).Ok?
            && Read(hash, s.files, hash(bytes)).value.bytes == bytes
            && Read(hash, later.files, hash(bytes)) == Read(hash, s.files, hash(bytes))))
  {
    hide Run, Read, CollisionFree, Readable, Sound, Extends;
    var s := Run(hash, EMPTY, steps);
    var later := Run(hash, s, more);
    RunGrows(hash, s, more);
    FewerCollisions(hash, s.seen, later.seen);
    assert Consistent(hash, EMPTY);
    RunIsConsistent(hash, EMPTY, steps);
    assert WriterOk(hash, s.files, s.seen, s.writers[who]);
    if s.writers[who].Done? {
      DoneReadsBack(hash, s, who);
      ReadStays(hash, s.files, later.files, hash(s.writers[who].bytes));
    }
  }

  lemma {:induction false} ReadStays(hash: Hash, files: Files, later: Files, id: Id)
    requires Extends(files, later) && Read(hash, files, id).Ok?
    ensures Read(hash, later, id) == Read(hash, files, id)
  {
    ReadPersists(hash, files, later, id, 0);
  }

  /** The blob `n` base links away from `id`. */
  function Follow(hash: Hash, files: Files, id: Id, n: nat): (end: Option<Id>)
    decreases n
  {
    if n == 0 then Some(id)
    else
      var base := BaseOf(hash, files, id);
      if base.None? then None else Follow(hash, files, base.value, n - 1)
  }

  lemma {:induction false} FollowCountsDown(hash: Hash, files: Files, id: Id, links: nat, n: nat)
    requires Links(hash, files, id, links) && Follow(hash, files, id, n).Some?
    ensures n <= links && Links(hash, files, Follow(hash, files, id, n).value, links - n)
    decreases n
  {
    hide BaseOf;
    if n > 0 {
      if links == 0 {
        WholeHasNoBase(hash, files, id);
      } else {
        FollowCountsDown(hash, files, BaseOf(hash, files, id).value, links - 1, n - 1);
      }
    }
  }

  lemma {:induction false} WholeHasNoBase(hash: Hash, files: Files, id: Id)
    requires Links(hash, files, id, 0)
    ensures BaseOf(hash, files, id).None?
  {
  }

  /** In every reachable state each published id is readable and its base links end; none leads back to it. */
  lemma {:induction false} LinksAreAcyclic(hash: Hash, steps: seq<Step>, id: Id, n: nat)
    requires CollisionFree(hash, Run(hash, EMPTY, steps).seen) && id in Run(hash, EMPTY, steps).files && n > 0
    ensures var files := Run(hash, EMPTY, steps).files;
      && Read(hash, files, id).Ok?
      && Links(hash, files, id, Read(hash, files, id).value.depth)
      && Follow(hash, files, id, n) != Some(id)
  {
    hide Run, ReadAt, Links, Follow, CollisionFree;
    var s := Run(hash, EMPTY, steps);
    assert Consistent(hash, EMPTY);
    RunIsConsistent(hash, EMPTY, steps);
    assert Readable(hash, s.files, s.seen, id);
    ReadIsSound(hash, s.files, id, 0);
    var links := Read(hash, s.files, id).value.depth;
    if Follow(hash, s.files, id, n) == Some(id) {
      FollowCountsDown(hash, s.files, id, links, n);
      LinkCountIsUnique(hash, s.files, id, links, links - n);
    }
  }

  /** A read that races with writers returns what one atomic read at its first file opening would. */
  lemma {:induction false} RacingReadIsAtomic(hash: Hash, s: State, stores: seq<Files>, id: Id)
    requires Consistent(hash, s) && |stores| == MAX_DELTA_CHAIN_DEPTH + 1
    requires stores[0] == s.files && AllExtend(s.files, stores)
    ensures ReadOver(hash, stores, id, 0) == Read(hash, s.files, id)
  {
    if id in s.files {
      assert Readable(hash, s.files, s.seen, id);
      ReadOverIsRead(hash, s.files, stores, id, 0);
    }
  }
}
