/** Blob deltas: a common prefix and suffix of a base blob around inserted bytes. */
module BlobDelta {
  import opened Wrappers
  import opened Bytes

  const MAX_DELTA_CHAIN_DEPTH: nat := 16
  const MIN_DELTA_TARGET_BYTES: nat := 16 * 1024
  const MIN_DELTA_SAVINGS_BYTES: nat := 1024
  const OBJECT_ID_BYTES: nat := 32

  /** The text "era-blob-delta-v1" and a newline. */
  const MAGIC: Bytes :=
    [101, 114, 97, 45, 98, 108, 111, 98, 45, 100, 101, 108, 116, 97, 45, 118, 49, 10]

  const HEADER_LEN: nat := 18 + 4 + OBJECT_ID_BYTES + 5 * 8

  type Id = id: Bytes | |id| == OBJECT_ID_BYTES witness seq(OBJECT_ID_BYTES, _ => 0)

  datatype Delta = Delta(baseId: Id, depth: nat, baseLen: nat, targetLen: nat, prefixLen: nat, suffixLen: nat,
                         insert: Bytes)

  /** The fields fit the widths they are stored in. */
  ghost predicate Fits(delta: Delta) {
    && delta.depth < U32 && delta.baseLen < U64 && delta.targetLen < U64
    && delta.prefixLen < U64 && delta.suffixLen < U64 && |delta.insert| < U64
  }

  datatype DeltaError = TruncatedHeader | InsertLength | BaseLength | BaseRange | TargetRange | InsertRange

  /** The five lengths of the header, then the inserted bytes. */
  function EncodeLengths(delta: Delta): (bytes: Bytes) {
    BigEndian(delta.baseLen, 8) + (BigEndian(delta.targetLen, 8) + (BigEndian(delta.prefixLen, 8)
    + (BigEndian(delta.suffixLen, 8) + (BigEndian(|delta.insert|, 8) + delta.insert))))
  }

  function Encode(delta: Delta): (bytes: Bytes)
    ensures |bytes| == HEADER_LEN + |delta.insert|
  {
    MAGIC + (BigEndian(delta.depth, 4) + (delta.baseId + EncodeLengths(delta)))
  }

  function Decode(bytes: Bytes): (result: Result<Option<Delta>, DeltaError>) {
    if |bytes| < |MAGIC| || bytes[..|MAGIC|] != MAGIC then Ok(None)
    else if |bytes| < HEADER_LEN then Err(TruncatedHeader)
    else
      var depths := bytes[|MAGIC|..];
      var ids := depths[4..];
      var id: Id := ids[..OBJECT_ID_BYTES];
      DecodeLengths(FromBigEndian(depths[..4]), id, ids[OBJECT_ID_BYTES..])
  }

  function DecodeLengths(depth: nat, baseId: Id, bytes: Bytes): (result: Result<Option<Delta>, DeltaError>)
    requires |bytes| >= 40
  {
    var base := FromBigEndian(bytes[..8]);
    var targets := bytes[8..];
    var prefixes := targets[8..];
    var suffixes := prefixes[8..];
    var inserts := suffixes[8..];
    var insert := inserts[8..];
    if |insert| != FromBigEndian(inserts[..8]) then Err(InsertLength)
    else Ok(Some(Delta(baseId, depth, base, FromBigEndian(targets[..8]), FromBigEndian(prefixes[..8]),
                       FromBigEndian(suffixes[..8]), insert)))
  }

  lemma {:induction false} NumberField(n: nat, width: nat, rest: Bytes)
    requires n < Limit(width)
    ensures var bytes := BigEndian(n, width) + rest;
      FromBigEndian(bytes[..width]) == n && bytes[width..] == rest
  {
    Peel(BigEndian(n, width), rest);
    DecodeOfEncode(n, width);
  }

  lemma {:induction false} LengthsRoundTrip(delta: Delta)
    requires Fits(delta)
    ensures DecodeLengths(delta.depth, delta.baseId, EncodeLengths(delta)) == Ok(Some(delta))
  {
    Limits();
    var insert := BigEndian(|delta.insert|, 8) + delta.insert;
    var suffix := BigEndian(delta.suffixLen, 8) + insert;
    var prefix := BigEndian(delta.prefixLen, 8) + suffix;
    var target := BigEndian(delta.targetLen, 8) + prefix;
    NumberField(|delta.insert|, 8, delta.insert);
    NumberField(delta.suffixLen, 8, insert);
    NumberField(delta.prefixLen, 8, suffix);
    NumberField(delta.targetLen, 8, prefix);
    NumberField(delta.baseLen, 8, target);
  }

  /** Every delta decodes from its own encoding. */
  lemma {:induction false} DecodeOfEncodeDelta(delta: Delta)
    requires Fits(delta)
    ensures Decode(Encode(delta)) == Ok(Some(delta))
  {
    Limits();
    var lengths := EncodeLengths(delta);
    Peel(MAGIC, BigEndian(delta.depth, 4) + (delta.baseId + lengths));
    NumberField(delta.depth, 4, delta.baseId + lengths);
    Peel(delta.baseId, lengths);
    LengthsRoundTrip(delta);
  }

  lemma {:induction false} NumberFieldBack(bytes: Bytes, width: nat)
    requires width <= |bytes|
    ensures BigEndian(FromBigEndian(bytes[..width]), width) + bytes[width..] == bytes
  {
    EncodeOfDecode(bytes[..width]);
    Unpeel(bytes, width);
  }

  lemma {:induction false} LengthsBack(depth: nat, baseId: Id, bytes: Bytes)
    requires |bytes| >= 40 && depth < U32
    ensures var result := DecodeLengths(depth, baseId, bytes);
      result.Ok? ==> (result.value.Some? && Fits(result.value.value) && EncodeLengths(result.value.value) == bytes)
  {
    Limits();
    var result := DecodeLengths(depth, baseId, bytes);
    if result.Ok? {
      var targets := bytes[8..];
      var prefixes := targets[8..];
      var suffixes := prefixes[8..];
      var inserts := suffixes[8..];
      NumberFieldBack(bytes, 8);
      NumberFieldBack(targets, 8);
      NumberFieldBack(prefixes, 8);
      NumberFieldBack(suffixes, 8);
      NumberFieldBack(inserts, 8);
    }
  }

  /** Bytes that decode to a delta are exactly its encoding. */
  lemma {:induction false} EncodeOfDecodeDelta(bytes: Bytes)
    requires Decode(bytes).Ok? && Decode(bytes).value.Some?
    ensures Fits(Decode(bytes).value.value) && Encode(Decode(bytes).value.value) == bytes
  {
    Limits();
    var depths := bytes[|MAGIC|..];
    var ids := depths[4..];
    NumberFieldBack(depths, 4);
    Unpeel(ids, OBJECT_ID_BYTES);
    Unpeel(bytes, |MAGIC|);
    LengthsBack(FromBigEndian(depths[..4]), ids[..OBJECT_ID_BYTES], ids[OBJECT_ID_BYTES..]);
  }

  function CommonPrefixLen(base: Bytes, target: Bytes): (n: nat)
    ensures n <= |base| && n <= |target| && base[..n] == target[..n]
    ensures n < |base| && n < |target| ==> base[n] != target[n]
  {
    if base == [] || target == [] || base[0] != target[0] then 0
    else
      var n := CommonPrefixLen(base[1..], target[1..]);
      assert base[..n + 1] == [base[0]] + base[1..][..n] && target[..n + 1] == [target[0]] + target[1..][..n];
      n + 1
  }

  lemma {:induction false} LastBytes(bytes: Bytes, n: nat)
    requires n < |bytes|
    ensures var front := bytes[..|bytes| - 1];
      && bytes[|bytes| - n - 1..] == front[|front| - n..] + [bytes[|bytes| - 1]]
      && (n < |front| ==> front[|front| - n - 1] == bytes[|bytes| - n - 2])
  {
  }

  lemma {:induction false} OneMoreByte(base: Bytes, target: Bytes, n: nat, max: nat)
    requires n < max <= |base| && max <= |target| && base[|base| - 1] == target[|target| - 1]
    requires base[..|base| - 1][|base| - 1 - n..] == target[..|target| - 1][|target| - 1 - n..]
    requires n < max - 1 ==>
      base[..|base| - 1][|base| - 1 - n - 1] != target[..|target| - 1][|target| - 1 - n - 1]
    ensures base[|base| - (n + 1)..] == target[|target| - (n + 1)..]
    ensures n + 1 < max ==> base[|base| - (n + 1) - 1] != target[|target| - (n + 1) - 1]
  {
    LastBytes(base, n);
    LastBytes(target, n);
  }

  /** The common suffix, at most `max` bytes of it. */
  function CommonSuffixLen(base: Bytes, target: Bytes, max: nat): (n: nat)
    requires max <= |base| && max <= |target|
    ensures n <= max && base[|base| - n..] == target[|target| - n..]
    ensures n < max ==> base[|base| - n - 1] != target[|target| - n - 1]
    decreases max
  {
    if max == 0 || base[|base| - 1] != target[|target| - 1] then 0
    else
      var n := CommonSuffixLen(base[..|base| - 1], target[..|target| - 1], max - 1);
      OneMoreByte(base, target, n, max);
      n + 1
  }

  function Create(baseId: Id, base: Bytes, baseDepth: nat, target: Bytes): (delta: Option<Delta>) {
    if |target| < MIN_DELTA_TARGET_BYTES || baseDepth >= MAX_DELTA_CHAIN_DEPTH then None
    else
      var prefixLen := CommonPrefixLen(base, target);
      var shorter := if |base| < |target| then |base| else |target|;
      var suffixLen := CommonSuffixLen(base, target, shorter - prefixLen);
      var insert := target[prefixLen..|target| - suffixLen];
      if HEADER_LEN + |insert| + MIN_DELTA_SAVINGS_BYTES >= |target| then None
      else Some(Delta(baseId, baseDepth + 1, |base|, |target|, prefixLen, suffixLen, insert))
  }

  function Reconstruct(delta: Delta, base: Bytes): (target: Result<Bytes, DeltaError>) {
    if |base| != delta.baseLen then Err(BaseLength)
    else if delta.prefixLen > |base| || delta.suffixLen > |base| - delta.prefixLen then Err(BaseRange)
    else if delta.prefixLen > delta.targetLen || delta.suffixLen > delta.targetLen - delta.prefixLen then
      Err(TargetRange)
    else if |delta.insert| != delta.targetLen - delta.prefixLen - delta.suffixLen then Err(InsertRange)
    else Ok(base[..delta.prefixLen] + delta.insert + base[|base| - delta.suffixLen..])
  }

  lemma {:induction false} Reassemble(base: Bytes, target: Bytes, p: nat, q: nat)
    requires p + q <= |base| && p + q <= |target|
    requires base[..p] == target[..p] && base[|base| - q..] == target[|target| - q..]
    ensures base[..p] + target[p..|target| - q] + base[|base| - q..] == target
  {
  }

  /** A created delta rebuilds its target from its base, links one deeper, and saves more than 1024 bytes. */
  lemma {:induction false} CreateReconstructs(baseId: Id, base: Bytes, baseDepth: nat, target: Bytes)
    requires |base| < U64 && |target| < U64 && Create(baseId, base, baseDepth, target).Some?
    ensures var delta := Create(baseId, base, baseDepth, target).value;
      && Fits(delta) && delta.baseId == baseId && delta.depth == baseDepth + 1 <= MAX_DELTA_CHAIN_DEPTH
      && Reconstruct(delta, base) == Ok(target)
      && |Encode(delta)| + MIN_DELTA_SAVINGS_BYTES < |target|
  {
    hide CommonPrefixLen, CommonSuffixLen;
    var delta := Create(baseId, base, baseDepth, target).value;
    Reassemble(base, target, delta.prefixLen, delta.suffixLen);
  }

  /** As many bytes as the two have in common from the start. */
  predicate LongestPrefix(base: Bytes, target: Bytes, p: nat) {
    && p <= |base| && p <= |target| && base[..p] == target[..p]
    && (p < |base| && p < |target| ==> base[p] != target[p])
  }

  /** As many as they have in common from the end without reaching into the prefix, in either of them. */
  predicate LongestSuffix(base: Bytes, target: Bytes, p: nat, q: nat) {
    && p + q <= |base| && p + q <= |target| && base[|base| - q..] == target[|target| - q..]
    && (p + q < |base| && p + q < |target| ==> base[|base| - q - 1] != target[|target| - q - 1])
  }

  lemma {:induction false} OnePrefix(base: Bytes, target: Bytes, p: nat, p': nat)
    requires LongestPrefix(base, target, p) && LongestPrefix(base, target, p')
    ensures p == p'
  {
    if p < p' {
      ShorterPrefix(base, target, p, p');
    } else if p' < p {
      ShorterPrefix(base, target, p', p);
    }
  }

  lemma {:induction false} ShorterPrefix(base: Bytes, target: Bytes, p: nat, longer: nat)
    requires p < longer <= |base| && longer <= |target| && base[..longer] == target[..longer]
    ensures base[p] == target[p]
  {
    assert base[..longer][p] == target[..longer][p];
  }

  lemma {:induction false} OneSuffix(base: Bytes, target: Bytes, p: nat, q: nat, q': nat)
    requires LongestSuffix(base, target, p, q) && LongestSuffix(base, target, p, q')
    ensures q == q'
  {
    if q < q' {
      ShorterSuffix(base, target, q, q');
    } else if q' < q {
      ShorterSuffix(base, target, q', q);
    }
  }

  lemma {:induction false} ShorterSuffix(base: Bytes, target: Bytes, q: nat, longer: nat)
    requires q < longer <= |base| && longer <= |target| && base[|base| - longer..] == target[|target| - longer..]
    ensures base[|base| - q - 1] == target[|target| - q - 1]
  {
    assert base[|base| - longer..][longer - q - 1] == base[|base| - q - 1];
    assert target[|target| - longer..][longer - q - 1] == target[|target| - q - 1];
  }

  lemma {:induction false} PrefixIsLongest(base: Bytes, target: Bytes)
    ensures LongestPrefix(base, target, CommonPrefixLen(base, target))
  {
    hide CommonPrefixLen;
  }

  /** There always are such a prefix and suffix. */
  lemma {:induction false} LongestExist(base: Bytes, target: Bytes)
    ensures exists p: nat, q: nat :: LongestPrefix(base, target, p) && LongestSuffix(base, target, p, q)
  {
    hide CommonPrefixLen, CommonSuffixLen;
    var p := CommonPrefixLen(base, target);
    var max := (if |base| < |target| then |base| else |target|) - p;
    assert LongestPrefix(base, target, p) && LongestSuffix(base, target, p, CommonSuffixLen(base, target, max));
  }

  lemma {:induction false} SuffixIsLongest(base: Bytes, target: Bytes, p: nat, q: nat)
    requires LongestPrefix(base, target, p) && LongestSuffix(base, target, p, q)
    ensures CommonSuffixLen(base, target, (if |base| < |target| then |base| else |target|) - p) == q
  {
    hide CommonSuffixLen;
    var max := (if |base| < |target| then |base| else |target|) - p;
    OneSuffix(base, target, p, q, CommonSuffixLen(base, target, max));
  }

  /**
   * A delta is created exactly for a target of at least 16 KiB on a base less than 16 links deep, where prefix and
   * suffix leave out more than the header of 94 bytes and 1024 more; it inserts what lies between the two.
   */
  lemma {:induction false} CreatedExactly(baseId: Id, base: Bytes, baseDepth: nat, target: Bytes, p: nat, q: nat)
    requires LongestPrefix(base, target, p) && LongestSuffix(base, target, p, q)
    ensures Create(baseId, base, baseDepth, target) ==
      if |target| >= 16_384 && baseDepth < 16 && p + q > 94 + 1024 then
        Some(Delta(baseId, baseDepth + 1, |base|, |target|, p, q, target[p..|target| - q]))
      else None
  {
    hide CommonPrefixLen, CommonSuffixLen, LongestPrefix, LongestSuffix;
    PrefixIsLongest(base, target);
    OnePrefix(base, target, p, CommonPrefixLen(base, target));
    SuffixIsLongest(base, target, p, q);
  }

  /**
   * Reconstruction accepts a base exactly where the recorded lengths fit together; the result then begins and ends as
   * the base does, around the insert.
   */
  lemma {:induction false} ReconstructsExactly(delta: Delta, base: Bytes)
    ensures Reconstruct(delta, base).Ok? <==>
      |base| == delta.baseLen && delta.prefixLen + delta.suffixLen <= |base|
      && delta.prefixLen + |delta.insert| + delta.suffixLen == delta.targetLen
    ensures Reconstruct(delta, base).Ok? ==>
      var target, p, q := Reconstruct(delta, base).value, delta.prefixLen, delta.suffixLen;
      && |target| == delta.targetLen && p + q <= |target| && p + q <= |base|
      && target[..p] == base[..p] && target[p..|target| - q] == delta.insert
      && target[|target| - q..] == base[|base| - q..]
    ensures Reconstruct(delta, base).Err? ==>
      Reconstruct(delta, base).error ==
        if |base| != delta.baseLen then BaseLength
        else if delta.prefixLen + delta.suffixLen > |base| then BaseRange
        else if delta.prefixLen + delta.suffixLen > delta.targetLen then TargetRange
        else InsertRange
  {
  }

  /** What reads as no delta at all, and what as a damaged one. */
  lemma {:induction false} DecodedExactly(bytes: Bytes)
    ensures Decode(bytes) == Ok(None) <==> |bytes| < 18 || bytes[..18] != MAGIC
    ensures Decode(bytes) == Err(TruncatedHeader) <==> 18 <= |bytes| < 94 && bytes[..18] == MAGIC
    ensures Decode(bytes) == Err(InsertLength) <==>
      |bytes| >= 94 && bytes[..18] == MAGIC && FromBigEndian(bytes[86..94]) != |bytes| - 94
    ensures Decode(bytes).Err? ==> Decode(bytes).error == TruncatedHeader || Decode(bytes).error == InsertLength
  {
    if |bytes| >= 94 {
      assert bytes[18..][4..][32..][8..][8..][8..][8..] == bytes[86..];
      assert bytes[86..][..8] == bytes[86..94];
    }
  }
}
