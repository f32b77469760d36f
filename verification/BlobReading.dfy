/** Reading a blob through its chain of deltas, on any store: whole, missing, damaged or cyclic. */
module BlobReading {
  import opened Wrappers
  import opened Bytes
  import opened BlobDelta

  type Files = map<Id, Bytes>

  type Hash = Bytes -> Id

  datatype BlobRead = BlobRead(bytes: Bytes, depth: nat)

  datatype ReadError =
    | MissingObject(id: Id)
    | ChainTooDeep(id: Id)
    | InvalidDelta(id: Id, reason: DeltaError)
    | DepthMismatch(id: Id)
    | HashMismatch(id: Id, actual: Id)

  type Reading = Result<BlobRead, ReadError>

  /** What reading `id` yields at `recursionDepth` links below the blob that was asked for. */
  function ReadAt(hash: Hash, files: Files, id: Id, recursionDepth: nat): (result: Reading)
    decreases MAX_DELTA_CHAIN_DEPTH + 1 - recursionDepth
  {
    if recursionDepth > MAX_DELTA_CHAIN_DEPTH then Err(ChainTooDeep(id))
    else if id !in files then Err(MissingObject(id))
    else if hash(files[id]) == id then Ok(BlobRead(files[id], 0))
    else
      match Decode(files[id]) {
        case Err(reason) => Err(InvalidDelta(id, reason))
        case Ok(None) => Err(HashMismatch(id, hash(files[id])))
        case Ok(Some(delta)) =>
          if delta.depth > MAX_DELTA_CHAIN_DEPTH then Err(ChainTooDeep(id))
          else Rebuild(hash, id, delta, ReadAt(hash, files, delta.baseId, recursionDepth + 1))
      }
  }

  function Read(hash: Hash, files: Files, id: Id): (result: Reading) {
    ReadAt(hash, files, id, 0)
  }

  /** The end of a read of a delta, once its base has been read. */
  function Rebuild(hash: Hash, id: Id, delta: Delta, base: Reading): (result: Reading) {
    if base.Err? then base
    else if delta.depth != base.value.depth + 1 then Err(DepthMismatch(id))
    else
      var target := Reconstruct(delta, base.value.bytes);
      if target.Err? then Err(InvalidDelta(id, target.error))
      else if hash(target.value) != id then Err(HashMismatch(id, hash(target.value)))
      else Ok(BlobRead(target.value, delta.depth))
  }

  /** The blob a stored file leans on: none when the file holds the blob itself. */
  function BaseOf(hash: Hash, files: Files, id: Id): (base: Option<Id>) {
    if id in files && hash(files[id]) != id && Decode(files[id]).Ok? && Decode(files[id]).value.Some? then
      Some(Decode(files[id]).value.value.baseId)
    else None
  }

  /** From `id` exactly `n` base links lead to a file that holds its blob itself. */
  predicate Links(hash: Hash, files: Files, id: Id, n: nat)
    decreases n
  {
    if n == 0 then id in files && hash(files[id]) == id
    else
      var base := BaseOf(hash, files, id);
      base.Some? && Links(hash, files, base.value, n - 1)
  }

  lemma {:induction false} LinkCountIsUnique(hash: Hash, files: Files, id: Id, m: nat, n: nat)
    requires Links(hash, files, id, m) && Links(hash, files, id, n)
    ensures m == n
    decreases m
  {
    if m > 0 && n > 0 {
      LinkCountIsUnique(hash, files, BaseOf(hash, files, id).value, m - 1, n - 1);
    }
  }

  /** On any store, a read that succeeds returns bytes with the right hash and the true number of links. */
  lemma {:induction false} ReadIsSound(hash: Hash, files: Files, id: Id, recursionDepth: nat)
    requires ReadAt(hash, files, id, recursionDepth).Ok?
    ensures var read := ReadAt(hash, files, id, recursionDepth).value;
      && hash(read.bytes) == id
      && Links(hash, files, id, read.depth)
      && read.depth + recursionDepth <= MAX_DELTA_CHAIN_DEPTH
    decreases MAX_DELTA_CHAIN_DEPTH + 1 - recursionDepth
  {
    hide Decode, Reconstruct;
    var base := BaseOf(hash, files, id);
    if base.Some? {
      ReadIsSound(hash, files, base.value, recursionDepth + 1);
    }
  }

  lemma {:induction false} ReadWithinLimit(hash: Hash, files: Files, id: Id, low: nat, high: nat)
    requires low <= high && ReadAt(hash, files, id, low).Ok?
    requires ReadAt(hash, files, id, low).value.depth + high <= MAX_DELTA_CHAIN_DEPTH
    ensures ReadAt(hash, files, id, high) == ReadAt(hash, files, id, low)
    decreases MAX_DELTA_CHAIN_DEPTH + 1 - low
  {
    hide Decode, Reconstruct;
    var base := BaseOf(hash, files, id);
    if base.Some? {
      ReadWithinLimit(hash, files, base.value, low + 1, high + 1);
    }
  }

  /** Where a chain is read from does not matter, except that it must stay within the limit. */
  lemma {:induction false} ReadShifts(hash: Hash, files: Files, id: Id, low: nat, high: nat)
    requires low <= high && ReadAt(hash, files, id, low).Ok?
    ensures ReadAt(hash, files, id, high) == ReadAt(hash, files, id, low)
       <==> ReadAt(hash, files, id, low).value.depth + high <= MAX_DELTA_CHAIN_DEPTH
  {
    hide ReadAt;
    if ReadAt(hash, files, id, low).value.depth + high <= MAX_DELTA_CHAIN_DEPTH {
      ReadWithinLimit(hash, files, id, low, high);
    } else if ReadAt(hash, files, id, high).Ok? {
      ReadIsSound(hash, files, id, high);
    }
  }

  ghost predicate Extends(files: Files, later: Files) {
    forall id <- files :: id in later && later[id] == files[id]
  }

  /** Files that appear later do not disturb a read that already succeeds. */
  lemma {:induction false} ReadPersists(hash: Hash, files: Files, later: Files, id: Id, recursionDepth: nat)
    requires Extends(files, later) && ReadAt(hash, files, id, recursionDepth).Ok?
    ensures ReadAt(hash, later, id, recursionDepth) == ReadAt(hash, files, id, recursionDepth)
    decreases MAX_DELTA_CHAIN_DEPTH + 1 - recursionDepth
  {
    hide Decode, Reconstruct;
    assert id in files;
    var base := BaseOf(hash, files, id);
    if base.Some? {
      ReadPersists(hash, files, later, base.value, recursionDepth + 1);
    }
  }

  /** A read whose successive file openings see successive stores. */
  function ReadOver(hash: Hash, stores: seq<Files>, id: Id, recursionDepth: nat): (result: Reading)
    requires |stores| + recursionDepth == MAX_DELTA_CHAIN_DEPTH + 1
  {
    if stores == [] then Err(ChainTooDeep(id))
    else if id !in stores[0] then Err(MissingObject(id))
    else if hash(stores[0][id]) == id then Ok(BlobRead(stores[0][id], 0))
    else
      match Decode(stores[0][id]) {
        case Err(reason) => Err(InvalidDelta(id, reason))
        case Ok(None) => Err(HashMismatch(id, hash(stores[0][id])))
        case Ok(Some(delta)) =>
          if delta.depth > MAX_DELTA_CHAIN_DEPTH then Err(ChainTooDeep(id))
          else Rebuild(hash, id, delta, ReadOver(hash, stores[1..], delta.baseId, recursionDepth + 1))
      }
  }

  ghost predicate AllExtend(files: Files, stores: seq<Files>) {
    stores == [] || (Extends(files, stores[0]) && AllExtend(files, stores[1..]))
  }

  /** While the store only grows, a read spread over time returns what one reading at the start would. */
  lemma {:induction false} ReadOverIsRead(hash: Hash, files: Files, stores: seq<Files>, id: Id, recursionDepth: nat)
    requires |stores| + recursionDepth == MAX_DELTA_CHAIN_DEPTH + 1 && AllExtend(files, stores)
    requires ReadAt(hash, files, id, recursionDepth).Ok?
    ensures ReadOver(hash, stores, id, recursionDepth) == ReadAt(hash, files, id, recursionDepth)
    decreases |stores|
  {
    hide Decode, Reconstruct;
    assert id in files;
    var base := BaseOf(hash, files, id);
    if base.Some? {
      ReadOverIsRead(hash, files, stores[1..], base.value, recursionDepth + 1);
    }
  }

  /** The recursive read, counting the files it opens: one a link, and at most 17, even on a cyclic store. */
  method ReadBlobDataAt(hash: Hash, files: Files, id: Id, recursionDepth: nat)
    returns (result: Reading, touched: nat)
    ensures result == ReadAt(hash, files, id, recursionDepth)
    ensures result.Ok? ==> touched == result.value.depth + 1
    ensures recursionDepth <= MAX_DELTA_CHAIN_DEPTH + 1 ==> touched <= MAX_DELTA_CHAIN_DEPTH + 1 - recursionDepth
    decreases MAX_DELTA_CHAIN_DEPTH + 1 - recursionDepth
  {
    hide Decode, Reconstruct;
    touched := 0;
    if recursionDepth > MAX_DELTA_CHAIN_DEPTH {
      return Err(ChainTooDeep(id)), touched;
    }
    touched := 1;
    if id !in files {
      return Err(MissingObject(id)), touched;
    }
    var stored := files[id];
    if hash(stored) == id {
      return Ok(BlobRead(stored, 0)), touched;
    }
    var decoded := Decode(stored);
    if decoded.Err? {
      return Err(InvalidDelta(id, decoded.error)), touched;
    }
    if decoded.value.None? {
      return Err(HashMismatch(id, hash(stored))), touched;
    }
    var delta := decoded.value.value;
    if delta.depth > MAX_DELTA_CHAIN_DEPTH {
      return Err(ChainTooDeep(id)), touched;
    }
    var base, more := ReadBlobDataAt(hash, files, delta.baseId, recursionDepth + 1);
    result, touched := Rebuild(hash, id, delta, base), touched + more;
  }
}
