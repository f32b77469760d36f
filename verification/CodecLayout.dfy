/** Where the fields of encoded trees, snapshots and blob deltas lie, byte by byte. */
module CodecLayout {
  import opened Wrappers
  import opened Bytes
  import opened ByteFields
  import BlobDelta
  import SnapshotCodec
  import TreeCodec

  /** `part` lies in `bytes` at offset `at`. */
  predicate At(bytes: Bytes, at: nat, part: Bytes) {
    at + |part| <= |bytes| && bytes[at..at + |part|] == part
  }

  /** The characters of `text` lie there, a byte each. */
  predicate Spells(bytes: Bytes, at: nat, text: string) {
    at + |text| <= |bytes| && forall i :: 0 <= i < |text| ==> bytes[at + i] == text[i] as int
  }

  /** What four bytes read, the most significant first. */
  function Read4(bytes: Bytes, at: nat): (n: nat)
    requires at + 4 <= |bytes|
  {
    var a: nat, b: nat, c: nat, d: nat := bytes[at], bytes[at + 1], bytes[at + 2], bytes[at + 3];
    0x100_0000 * a + 0x1_0000 * b + 0x100 * c + d
  }

  predicate Number4(bytes: Bytes, at: nat, n: nat) {
    at + 4 <= |bytes| && Read4(bytes, at) == n
  }

  predicate Number8(bytes: Bytes, at: nat, n: nat) {
    at + 8 <= |bytes| && 0x1_0000_0000 * Read4(bytes, at) + Read4(bytes, at + 4) == n
  }

  /** A text as its length and its bytes. */
  predicate TextAt(bytes: Bytes, at: nat, text: Bytes) {
    Number4(bytes, at, |text|) && At(bytes, at + 4, text)
  }

  lemma {:induction false} Inside(bytes: Bytes, at: nat, a: Bytes, b: Bytes)
    requires At(bytes, at, a + b)
    ensures At(bytes, at, a) && At(bytes, at + |a|, b)
  {
    Peel(a, b);
    assert bytes[at..at + |a|] == (a + b)[..|a|];
    assert bytes[at + |a|..at + |a + b|] == (a + b)[|a|..];
  }

  lemma {:induction false} LastByte(bytes: Bytes, n: nat)
    requires n < |bytes|
    ensures FromBigEndian(bytes[..n + 1]) == FromBigEndian(bytes[..n]) * 256 + bytes[n]
  {
    assert bytes[..n + 1][..n] == bytes[..n];
  }

  /** Four more bytes at the end of a number. */
  lemma {:induction false} FourMore(bytes: Bytes, n: nat)
    requires n + 4 <= |bytes|
    ensures FromBigEndian(bytes[..n + 4]) == 0x1_0000_0000 * FromBigEndian(bytes[..n]) + Read4(bytes, n)
  {
    hide FromBigEndian;
    LastByte(bytes, n);
    LastByte(bytes, n + 1);
    LastByte(bytes, n + 2);
    LastByte(bytes, n + 3);
  }

  lemma {:induction false} Number4At(bytes: Bytes, at: nat, n: nat)
    requires n < U32 && At(bytes, at, BigEndian(n, 4))
    ensures Number4(bytes, at, n)
  {
    hide BigEndian, FromBigEndian;
    Limits();
    DecodeOfEncode(n, 4);
    var part := BigEndian(n, 4);
    FourMore(part, 0);
    Nothing();
    assert part[..4] == part && part[..0] == [];
    SameNumber(bytes, at, part, 0);
  }

  lemma {:induction false} Nothing()
    ensures FromBigEndian([]) == 0
  {
  }

  lemma {:induction false} SameNumber(bytes: Bytes, at: nat, part: Bytes, k: nat)
    requires At(bytes, at, part) && k + 4 <= |part|
    ensures Read4(bytes, at + k) == Read4(part, k)
  {
    assert forall i :: 0 <= i < |part| ==> part[i] == bytes[at + i];
  }

  lemma {:induction false} Number8At(bytes: Bytes, at: nat, n: nat)
    requires n < U64 && At(bytes, at, BigEndian(n, 8))
    ensures Number8(bytes, at, n)
  {
    hide BigEndian, FromBigEndian;
    Limits();
    DecodeOfEncode(n, 8);
    var part := BigEndian(n, 8);
    FourMore(part, 0);
    FourMore(part, 4);
    Nothing();
    assert part[..8] == part && part[..0] == [];
    SameNumber(bytes, at, part, 0);
    SameNumber(bytes, at, part, 4);
  }

  lemma {:induction false} TextLies(bytes: Bytes, at: nat, text: Bytes)
    requires |text| < U32 && At(bytes, at, EncodeText(text))
    ensures TextAt(bytes, at, text)
  {
    Inside(bytes, at, BigEndian(|text|, 4), text);
    Number4At(bytes, at, |text|);
  }

  /** The entry at `k` starts after the magic, the count and the entries before it. */
  function EntryStart(entries: seq<TreeCodec.Entry>, k: nat): (at: nat)
    requires k <= |entries|
  {
    if k == 0 then 16 else EntryStart(entries, k - 1) + 1 + 4 + |entries[k - 1].name| + 32
  }

  /** A kind letter, the name as a text, and the 32 bytes of the id. */
  predicate EntryLaid(bytes: Bytes, at: nat, e: TreeCodec.Entry) {
    && Spells(bytes, at, if e.kind.BlobEntry? then "b" else "t") && TextAt(bytes, at + 1, e.name)
    && At(bytes, at + 5 + |e.name|, e.id)
  }

  lemma {:induction false} EntryLies(bytes: Bytes, at: nat, e: TreeCodec.Entry)
    requires |e.name| < U32 && At(bytes, at, TreeCodec.EncodeEntry(e))
    ensures EntryLaid(bytes, at, e)
  {
    hide EncodeText, TextAt;
    Inside(bytes, at, [TreeCodec.Tag(e.kind)], EncodeText(e.name) + e.id);
    Inside(bytes, at + 1, EncodeText(e.name), e.id);
    TextLies(bytes, at + 1, e.name);
    TextLength(e.name);
    assert bytes[at..at + 1][0] == bytes[at];
  }

  lemma {:induction false} TextLength(text: Bytes)
    ensures |EncodeText(text)| == 4 + |text|
  {
  }

  lemma {:induction false} EntriesLie(bytes: Bytes, entries: seq<TreeCodec.Entry>, k: nat)
    requires k <= |entries| && At(bytes, 16, TreeCodec.EncodeEntries(entries))
    ensures At(bytes, EntryStart(entries, k), TreeCodec.EncodeEntries(entries[k..]))
    decreases k
  {
    hide At;
    if k > 0 {
      EntriesLie(bytes, entries, k - 1);
      var e := entries[k - 1];
      assert entries[k - 1..][1..] == entries[k..];
      Inside(bytes, EntryStart(entries, k - 1), TreeCodec.EncodeEntry(e), TreeCodec.EncodeEntries(entries[k..]));
      assert |TreeCodec.EncodeEntry(e)| == 1 + 4 + |e.name| + 32;
    } else {
      assert entries[0..] == entries;
    }
  }

  /** The bytes of a tree: the magic, the number of entries, and one entry after the other, with nothing after them. */
  lemma {:induction false} TreeLayout(entries: seq<TreeCodec.Entry>)
    requires |entries| < U32 && forall k :: 0 <= k < |entries| ==> |entries[k].name| < U32
    ensures var bytes := TreeCodec.Encode(entries);
      && Spells(bytes, 0, "ERA_TREE_V1\0") && Number4(bytes, 12, |entries|)
      && (forall k :: 0 <= k < |entries| ==> EntryLaid(bytes, EntryStart(entries, k), entries[k]))
      && |bytes| == EntryStart(entries, |entries|)
  {
    hide Number4, EntryLaid, TreeCodec.EncodeEntry;
    var bytes, body := TreeCodec.Encode(entries), TreeCodec.EncodeEntries(entries);
    Inside(bytes, 0, TreeCodec.TREE_MAGIC, BigEndian(|entries|, 4) + body);
    Inside(bytes, 12, BigEndian(|entries|, 4), body);
    Number4At(bytes, 12, |entries|);
    forall k | 0 <= k < |entries| ensures EntryLaid(bytes, EntryStart(entries, k), entries[k]) {
      EntriesLie(bytes, entries, k);
      Inside(bytes, EntryStart(entries, k), TreeCodec.EncodeEntry(entries[k]),
             TreeCodec.EncodeEntries(entries[k..][1..]));
      EntryLies(bytes, EntryStart(entries, k), entries[k]);
    }
    BodyLength(entries);
  }

  lemma {:induction false} BodyLength(entries: seq<TreeCodec.Entry>)
    ensures 16 + |TreeCodec.EncodeEntries(entries)| == EntryStart(entries, |entries|)
    decreases |entries|
  {
    if entries != [] {
      var n := |entries| - 1;
      assert entries == entries[..n] + [entries[n]];
      TreeCodec.EncodeAppend(entries[..n], entries[n]);
      BodyLength(entries[..n]);
      SameStart(entries[..n], entries, n);
    }
  }

  lemma {:induction false} SameStart(a: seq<TreeCodec.Entry>, b: seq<TreeCodec.Entry>, k: nat)
    requires k <= |a| <= |b| && a == b[..|a|]
    ensures EntryStart(a, k) == EntryStart(b, k)
    decreases k
  {
    if k > 0 {
      SameStart(a, b, k - 1);
    }
  }

  /**
   * The bytes of a blob delta: the magic, the depth, the base's id, the lengths of base, target, prefix, suffix and
   * insert, and the insert.
   */
  lemma {:induction false} DeltaLayout(delta: BlobDelta.Delta)
    requires BlobDelta.Fits(delta)
    ensures var bytes := BlobDelta.Encode(delta);
      && Spells(bytes, 0, "era-blob-delta-v1\n") && Number4(bytes, 18, delta.depth) && At(bytes, 22, delta.baseId)
      && Number8(bytes, 54, delta.baseLen) && Number8(bytes, 62, delta.targetLen)
      && Number8(bytes, 70, delta.prefixLen) && Number8(bytes, 78, delta.suffixLen)
      && Number8(bytes, 86, |delta.insert|) && At(bytes, 94, delta.insert) && |bytes| == 94 + |delta.insert|
  {
    hide Number4, Number8;
    var bytes, lengths := BlobDelta.Encode(delta), BlobDelta.EncodeLengths(delta);
    Inside(bytes, 0, BlobDelta.MAGIC, BigEndian(delta.depth, 4) + (delta.baseId + lengths));
    Inside(bytes, 18, BigEndian(delta.depth, 4), delta.baseId + lengths);
    Number4At(bytes, 18, delta.depth);
    Inside(bytes, 22, delta.baseId, lengths);
    LengthsLie(bytes, delta);
  }

  lemma {:induction false} LengthsLie(bytes: Bytes, delta: BlobDelta.Delta)
    requires BlobDelta.Fits(delta) && At(bytes, 54, BlobDelta.EncodeLengths(delta))
    ensures Number8(bytes, 54, delta.baseLen) && Number8(bytes, 62, delta.targetLen)
    ensures Number8(bytes, 70, delta.prefixLen) && Number8(bytes, 78, delta.suffixLen)
    ensures Number8(bytes, 86, |delta.insert|) && At(bytes, 94, delta.insert)
  {
    hide Number8, At;
    var insert := BigEndian(|delta.insert|, 8) + delta.insert;
    var suffix := BigEndian(delta.suffixLen, 8) + insert;
    var prefix := BigEndian(delta.prefixLen, 8) + suffix;
    var target := BigEndian(delta.targetLen, 8) + prefix;
    Inside(bytes, 54, BigEndian(delta.baseLen, 8), target);
    Inside(bytes, 62, BigEndian(delta.targetLen, 8), prefix);
    Inside(bytes, 70, BigEndian(delta.prefixLen, 8), suffix);
    Inside(bytes, 78, BigEndian(delta.suffixLen, 8), insert);
    Inside(bytes, 86, BigEndian(|delta.insert|, 8), delta.insert);
    Number8At(bytes, 54, delta.baseLen);
    Number8At(bytes, 62, delta.targetLen);
    Number8At(bytes, 70, delta.prefixLen);
    Number8At(bytes, 78, delta.suffixLen);
    Number8At(bytes, 86, |delta.insert|);
  }

  /** The length of an optional text: its tag, and the text if there is one. */
  function OptionalLength(text: Option<Bytes>): (n: nat) {
    if text.None? then 1 else 1 + 4 + |text.value|
  }

  /** A zero byte for no text; a one and the text for a text. */
  predicate OptionalAt(bytes: Bytes, at: nat, text: Option<Bytes>) {
    if text.None? then At(bytes, at, [0]) else At(bytes, at, [1]) && TextAt(bytes, at + 1, text.value)
  }

  /** Where the attribute at `k` starts, when the first starts at `start`. */
  function AttributeStart(attributes: seq<SnapshotCodec.Attribute>, start: nat, k: nat): (at: nat)
    requires k <= |attributes|
  {
    if k == 0 then start
    else AttributeStart(attributes, start, k - 1) + 4 + |attributes[k - 1].key| + 4 + |attributes[k - 1].value|
  }

  predicate AttributeLaid(bytes: Bytes, at: nat, a: SnapshotCodec.Attribute) {
    TextAt(bytes, at, a.key) && TextAt(bytes, at + 4 + |a.key|, a.value)
  }

  lemma {:induction false} OptionalLies(bytes: Bytes, at: nat, text: Option<Bytes>)
    requires At(bytes, at, SnapshotCodec.EncodeOptional(text)) && (text.Some? ==> |text.value| < U32)
    ensures OptionalAt(bytes, at, text) && |SnapshotCodec.EncodeOptional(text)| == OptionalLength(text)
  {
    hide At, TextAt, EncodeText;
    if text.Some? {
      Inside(bytes, at, [1], EncodeText(text.value));
      TextLies(bytes, at + 1, text.value);
      TextLength(text.value);
    }
  }

  lemma {:induction false} ParentsLie(bytes: Bytes, at: nat, ids: seq<SnapshotCodec.Id>)
    requires At(bytes, at, SnapshotCodec.EncodeIds(ids))
    ensures |SnapshotCodec.EncodeIds(ids)| == 32 * |ids|
    ensures forall k :: 0 <= k < |ids| ==> At(bytes, at + 32 * k, ids[k])
    decreases |ids|
  {
    hide At;
    if ids != [] {
      Inside(bytes, at, ids[0], SnapshotCodec.EncodeIds(ids[1..]));
      ParentsLie(bytes, at + 32, ids[1..]);
      forall k | 0 <= k < |ids| ensures At(bytes, at + 32 * k, ids[k]) {
        if k > 0 {
          assert ids[k] == ids[1..][k - 1] && at + 32 + 32 * (k - 1) == at + 32 * k;
        }
      }
    }
  }

  lemma {:induction false} AttributeLies(bytes: Bytes, at: nat, a: SnapshotCodec.Attribute)
    requires |a.key| < U32 && |a.value| < U32 && At(bytes, at, SnapshotCodec.EncodeAttribute(a))
    ensures AttributeLaid(bytes, at, a)
    ensures |SnapshotCodec.EncodeAttribute(a)| == 4 + |a.key| + 4 + |a.value|
  {
    hide At, TextAt, EncodeText;
    Inside(bytes, at, EncodeText(a.key), EncodeText(a.value));
    TextLength(a.key);
    TextLength(a.value);
    TextLies(bytes, at, a.key);
    TextLies(bytes, at + 4 + |a.key|, a.value);
  }

  ghost predicate Short(attributes: seq<SnapshotCodec.Attribute>) {
    forall k :: 0 <= k < |attributes| ==> |attributes[k].key| < U32 && |attributes[k].value| < U32
  }

  lemma {:induction false} AttributesLie(bytes: Bytes, start: nat, attributes: seq<SnapshotCodec.Attribute>, k: nat)
    requires k <= |attributes| && Short(attributes) && At(bytes, start, SnapshotCodec.EncodeAttributes(attributes))
    ensures At(bytes, AttributeStart(attributes, start, k), SnapshotCodec.EncodeAttributes(attributes[k..]))
    ensures k < |attributes| ==> AttributeLaid(bytes, AttributeStart(attributes, start, k), attributes[k])
    decreases k
  {
    hide At, AttributeLaid, SnapshotCodec.EncodeAttribute;
    if k > 0 {
      AttributesLie(bytes, start, attributes, k - 1);
      AttributeThere(bytes, AttributeStart(attributes, start, k - 1), attributes, k - 1);
    } else {
      assert attributes[0..] == attributes;
    }
    if k < |attributes| {
      AttributeThere(bytes, AttributeStart(attributes, start, k), attributes, k);
    }
  }

  lemma {:induction false} AttributeThere(bytes: Bytes, at: nat, attributes: seq<SnapshotCodec.Attribute>, k: nat)
    requires k < |attributes| && Short(attributes) && At(bytes, at, SnapshotCodec.EncodeAttributes(attributes[k..]))
    ensures AttributeLaid(bytes, at, attributes[k])
    ensures At(bytes, at + 4 + |attributes[k].key| + 4 + |attributes[k].value|,
               SnapshotCodec.EncodeAttributes(attributes[k + 1..]))
  {
    hide At, AttributeLaid, SnapshotCodec.EncodeAttribute;
    assert attributes[k..][1..] == attributes[k + 1..];
    Inside(bytes, at, SnapshotCodec.EncodeAttribute(attributes[k]),
           SnapshotCodec.EncodeAttributes(attributes[k + 1..]));
    AttributeLies(bytes, at, attributes[k]);
  }

  /** Everything of a snapshot's bytes up to the timestamp; the texts begin after it. */
  ghost predicate HeadLaid(bytes: Bytes, s: SnapshotCodec.Snapshot) {
    && Spells(bytes, 0, "ERA_SNAPSHOT_V1\0") && At(bytes, 16, s.root) && Number4(bytes, 48, |s.parents|)
    && (forall k :: 0 <= k < |s.parents| ==> At(bytes, 52 + 32 * k, s.parents[k]))
    && Number8(bytes, 52 + 32 * |s.parents|, s.timestamp)
  }

  function SourceStart(s: SnapshotCodec.Snapshot): (at: nat) {
    60 + 32 * |s.parents| + OptionalLength(s.author) + OptionalLength(s.message)
  }

  /** The author, the message, the source, the number of attributes, and each attribute's key and value. */
  ghost predicate TextsLaid(bytes: Bytes, s: SnapshotCodec.Snapshot) {
    && OptionalAt(bytes, 60 + 32 * |s.parents|, s.author)
    && OptionalAt(bytes, 60 + 32 * |s.parents| + OptionalLength(s.author), s.message)
    && TextAt(bytes, SourceStart(s), s.source)
    && Number4(bytes, SourceStart(s) + 4 + |s.source|, |s.attributes|)
    && var start := SourceStart(s) + 8 + |s.source|;
      && (forall k :: 0 <= k < |s.attributes| ==>
            AttributeLaid(bytes, AttributeStart(s.attributes, start, k), s.attributes[k]))
      && |bytes| == AttributeStart(s.attributes, start, |s.attributes|)
  }

  lemma {:induction false} AttributesAreShort(utf8: SnapshotCodec.Utf8, previous: Option<Bytes>,
                                              attributes: seq<SnapshotCodec.Attribute>)
    requires SnapshotCodec.AttributesOk(utf8, previous, attributes)
    ensures Short(attributes)
    decreases |attributes|
  {
    if attributes != [] {
      AttributesAreShort(utf8, Some(attributes[0].key), attributes[1..]);
      forall k | 0 <= k < |attributes| ensures |attributes[k].key| < U32 && |attributes[k].value| < U32 {
        assert k > 0 ==> attributes[k] == attributes[1..][k - 1];
      }
    }
  }

  lemma {:induction false} HeadLies(bytes: Bytes, s: SnapshotCodec.Snapshot)
    requires |s.parents| < U32 && s.timestamp < U64 && bytes == SnapshotCodec.Encode(s)
    ensures HeadLaid(bytes, s) && At(bytes, 60 + 32 * |s.parents|, SnapshotCodec.EncodeTexts(s))
    ensures |bytes| == 60 + 32 * |s.parents| + |SnapshotCodec.EncodeTexts(s)|
  {
    hide Number4, Number8, SnapshotCodec.EncodeTexts, SnapshotCodec.EncodeIds;
    var texts, ids := SnapshotCodec.EncodeTexts(s), SnapshotCodec.EncodeIds(s.parents);
    var stamped := BigEndian(s.timestamp, 8) + texts;
    var listed := BigEndian(|s.parents|, 4) + (ids + stamped);
    Inside(bytes, 0, SnapshotCodec.SNAPSHOT_MAGIC, s.root + listed);
    Inside(bytes, 16, s.root, listed);
    Inside(bytes, 48, BigEndian(|s.parents|, 4), ids + stamped);
    Number4At(bytes, 48, |s.parents|);
    Inside(bytes, 52, ids, stamped);
    ParentsLie(bytes, 52, s.parents);
    Inside(bytes, 52 + 32 * |s.parents|, BigEndian(s.timestamp, 8), texts);
    Number8At(bytes, 52 + 32 * |s.parents|, s.timestamp);
  }

  lemma {:induction false} TextsLie(bytes: Bytes, utf8: SnapshotCodec.Utf8, s: SnapshotCodec.Snapshot)
    requires SnapshotCodec.SnapshotOk(utf8, s) && At(bytes, 60 + 32 * |s.parents|, SnapshotCodec.EncodeTexts(s))
    requires |bytes| == 60 + 32 * |s.parents| + |SnapshotCodec.EncodeTexts(s)|
    ensures TextsLaid(bytes, s)
  {
    hide At, Number4, TextAt, OptionalAt, AttributeLaid, SnapshotCodec.EncodeOptional, SnapshotCodec.EncodeProvenance,
      SnapshotCodec.AttributesOk, OptionalLength, AttributeStart;
    var at := 60 + 32 * |s.parents|;
    var author, message := SnapshotCodec.EncodeOptional(s.author), SnapshotCodec.EncodeOptional(s.message);
    var rest := SnapshotCodec.EncodeProvenance(s);
    Inside(bytes, at, author, message + rest);
    OptionalLies(bytes, at, s.author);
    Inside(bytes, at + |author|, message, rest);
    OptionalLies(bytes, at + |author|, s.message);
    ProvenanceLies(bytes, utf8, s, SourceStart(s));
  }

  lemma {:induction false} ProvenanceLies(bytes: Bytes, utf8: SnapshotCodec.Utf8, s: SnapshotCodec.Snapshot, at: nat)
    requires |s.source| < U32 && |s.attributes| < U32 && SnapshotCodec.AttributesOk(utf8, None, s.attributes)
    requires At(bytes, at, SnapshotCodec.EncodeProvenance(s)) && |bytes| == at + |SnapshotCodec.EncodeProvenance(s)|
    ensures TextAt(bytes, at, s.source) && Number4(bytes, at + 4 + |s.source|, |s.attributes|)
    ensures var start := at + 8 + |s.source|;
      && (forall k :: 0 <= k < |s.attributes| ==>
            AttributeLaid(bytes, AttributeStart(s.attributes, start, k), s.attributes[k]))
      && |bytes| == AttributeStart(s.attributes, start, |s.attributes|)
  {
    hide At, Number4, TextAt, AttributeLaid, SnapshotCodec.EncodeAttributes, EncodeText, SnapshotCodec.AttributesOk,
      AttributeStart;
    var count, body := BigEndian(|s.attributes|, 4), SnapshotCodec.EncodeAttributes(s.attributes);
    Inside(bytes, at, EncodeText(s.source), count + body);
    TextLies(bytes, at, s.source);
    TextLength(s.source);
    Inside(bytes, at + 4 + |s.source|, count, body);
    Number4At(bytes, at + 4 + |s.source|, |s.attributes|);
    AttributesAreShort(utf8, None, s.attributes);
    var start := at + 8 + |s.source|;
    forall k | 0 <= k < |s.attributes|
      ensures AttributeLaid(bytes, AttributeStart(s.attributes, start, k), s.attributes[k])
    {
      AttributesLie(bytes, start, s.attributes, k);
    }
    AttributesLength(s.attributes, start);
  }

  lemma {:induction false} AttributesLength(attributes: seq<SnapshotCodec.Attribute>, start: nat)
    ensures start + |SnapshotCodec.EncodeAttributes(attributes)| == AttributeStart(attributes, start, |attributes|)
    decreases |attributes|
  {
    if attributes != [] {
      var n := |attributes| - 1;
      assert attributes == attributes[..n] + [attributes[n]];
      SnapshotCodec.AttributesAppend(attributes[..n], attributes[n]);
      AttributesLength(attributes[..n], start);
      SameAttributeStart(attributes[..n], attributes, start, n);
    }
  }

  lemma {:induction false} SameAttributeStart(a: seq<SnapshotCodec.Attribute>, b: seq<SnapshotCodec.Attribute>,
                                              start: nat, k: nat)
    requires k <= |a| <= |b| && a == b[..|a|]
    ensures AttributeStart(a, start, k) == AttributeStart(b, start, k)
    decreases k
  {
    if k > 0 {
      SameAttributeStart(a, b, start, k - 1);
    }
  }

  /** The bytes of a snapshot, field by field, with nothing after them. */
  lemma {:induction false} SnapshotLayout(utf8: SnapshotCodec.Utf8, s: SnapshotCodec.Snapshot)
    requires SnapshotCodec.SnapshotOk(utf8, s)
    ensures HeadLaid(SnapshotCodec.Encode(s), s) && TextsLaid(SnapshotCodec.Encode(s), s)
  {
    hide HeadLaid, TextsLaid, SnapshotCodec.Encode, SnapshotCodec.EncodeTexts;
    HeadLies(SnapshotCodec.Encode(s), s);
    TextsLie(SnapshotCodec.Encode(s), utf8, s);
  }
}
