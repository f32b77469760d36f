/** Which bytes the snapshot parser refuses, and why. */
module SnapshotRefusals {
  import opened Wrappers
  import opened Bytes
  import opened ByteFields
  import TreeRefusals
  import Workspace
  import opened SnapshotCodec

  lemma {:induction false} TextIsCut(utf8: Utf8, text: Bytes, n: nat, field: FieldName)
    requires |text| < U32 && n < |EncodeText(text)|
    ensures DecodeText(utf8, EncodeText(text)[..n], field) == Err(UnexpectedEof)
  {
    hide EncodeText, TakeText;
    TreeRefusals.TextCut(text, [], n);
    assert EncodeText(text) + [] == EncodeText(text);
  }

  lemma {:induction false} OptionalCut(utf8: Utf8, text: Option<Bytes>, n: nat, field: FieldName)
    requires OptionalOk(utf8, text) && n < |EncodeOptional(text)|
    ensures DecodeOptional(utf8, EncodeOptional(text)[..n], field) == Err(UnexpectedEof)
  {
    hide EncodeText, DecodeText;
    if text.Some? && n > 0 {
      assert EncodeOptional(text)[..n][1..] == EncodeText(text.value)[..n - 1];
      TextIsCut(utf8, text.value, n - 1, field);
    }
  }

  lemma {:induction false} IdsCut(ids: seq<Id>, n: nat)
    requires n < |EncodeIds(ids)|
    ensures TakeIds(EncodeIds(ids)[..n], |ids|).None?
    decreases |ids|
  {
    if n >= 32 {
      var more := EncodeIds(ids[1..])[..n - 32];
      assert EncodeIds(ids)[..n] == ids[0] + more;
      Peel(ids[0], more);
      IdsCut(ids[1..], n - 32);
    }
  }

  lemma {:induction false} AttributeCut(utf8: Utf8, a: Attribute, previous: Option<Bytes>, n: nat)
    requires TextOk(utf8, a.key) && TextOk(utf8, a.value) && OrderFault(previous, a.key).None?
    requires n < |EncodeAttribute(a)|
    ensures DecodeAttribute(utf8, EncodeAttribute(a)[..n], previous) == Err(UnexpectedEof)
  {
    hide EncodeText, DecodeText, OrderFault;
    var key, value := EncodeText(a.key), EncodeText(a.value);
    if n < |key| {
      assert (key + value)[..n] == key[..n];
      TextIsCut(utf8, a.key, n, KeyField);
    } else {
      assert (key + value)[..n] == key + value[..n - |key|];
      DecodeTextOf(utf8, a.key, value[..n - |key|], KeyField);
      TextIsCut(utf8, a.value, n - |key|, ValueField);
    }
  }

  lemma {:induction false} AttributesCut(utf8: Utf8, attributes: seq<Attribute>, previous: Option<Bytes>, n: nat)
    requires AttributesOk(utf8, previous, attributes) && n < |EncodeAttributes(attributes)|
    ensures DecodeAttributes(utf8, EncodeAttributes(attributes)[..n], |attributes|, previous) == Err(UnexpectedEof)
    decreases |attributes|
  {
    hide TextOk, OrderFault, EncodeAttribute, DecodeAttribute;
    var a, more := attributes[0], EncodeAttributes(attributes[1..]);
    var first := EncodeAttribute(a);
    if n < |first| {
      assert EncodeAttributes(attributes)[..n] == first[..n];
      AttributeCut(utf8, a, previous, n);
    } else {
      assert EncodeAttributes(attributes)[..n] == first + more[..n - |first|];
      AttributeRoundTrip(utf8, a, more[..n - |first|], previous);
      AttributesCut(utf8, attributes[1..], Some(a.key), n - |first|);
    }
  }

  lemma {:induction false} ProvenanceCut(utf8: Utf8, s: Snapshot, n: nat)
    requires TextOk(utf8, s.source) && |s.attributes| < U32 && AttributesOk(utf8, None, s.attributes)
    requires n < |EncodeProvenance(s)|
    ensures DecodeProvenance(utf8, EncodeProvenance(s)[..n]) == Err(UnexpectedEof)
  {
    hide DecodeText, EncodeText, DecodeAttributes, EncodeAttributes, AttributesOk, TextOk;
    Limits();
    var source, count, listed := EncodeText(s.source), BigEndian(|s.attributes|, 4), EncodeAttributes(s.attributes);
    var bytes := EncodeProvenance(s)[..n];
    if n < |source| {
      assert bytes == source[..n];
      LengthFits(utf8, s.source);
      TextIsCut(utf8, s.source, n, SourceField);
    } else {
      assert bytes == source + (count + listed)[..n - |source|];
      DecodeTextOf(utf8, s.source, (count + listed)[..n - |source|], SourceField);
      if n >= |source| + 4 {
        var part := listed[..n - |source| - 4];
        assert (count + listed)[..n - |source|] == count + part;
        NumberOf(|s.attributes|, 4, part);
        AttributesCut(utf8, s.attributes, None, n - |source| - 4);
      }
    }
  }

  lemma {:induction false} LengthFits(utf8: Utf8, text: Bytes)
    requires TextOk(utf8, text)
    ensures |text| < U32
  {
  }

  lemma {:induction false} TextsCut(utf8: Utf8, s: Snapshot, head: Head, n: nat)
    requires SnapshotOk(utf8, s) && n < |EncodeTexts(s)|
    ensures DecodeTexts(utf8, head, EncodeTexts(s)[..n]) == Err(UnexpectedEof)
  {
    hide DecodeOptional, EncodeOptional, DecodeProvenance, EncodeProvenance, AttributesOk, TextOk, OptionalOk;
    var author, message, rest := EncodeOptional(s.author), EncodeOptional(s.message), EncodeProvenance(s);
    var bytes := EncodeTexts(s)[..n];
    if n < |author| {
      assert bytes == author[..n];
      OptionalCut(utf8, s.author, n, AuthorField);
    } else {
      var m := n - |author|;
      assert bytes == author + (message + rest)[..m];
      OptionalRoundTrip(utf8, s.author, (message + rest)[..m], AuthorField);
      if m < |message| {
        assert (message + rest)[..m] == message[..m];
        OptionalCut(utf8, s.message, m, MessageField);
      } else {
        assert (message + rest)[..m] == message + rest[..m - |message|];
        OptionalRoundTrip(utf8, s.message, rest[..m - |message|], MessageField);
        ProvenanceCut(utf8, s, m - |message|);
      }
    }
  }

  /** The bytes of a snapshot's head. */
  function EncodeHead(s: Snapshot): (bytes: Bytes) {
    s.root + (BigEndian(|s.parents|, 4) + (EncodeIds(s.parents) + BigEndian(s.timestamp, 8)))
  }

  lemma {:induction false} HeadThen(s: Snapshot, rest: Bytes)
    requires |s.parents| < U32 && s.timestamp < U64
    ensures DecodeHead(EncodeHead(s) + rest) == Some(Field(Head(s.root, s.parents, s.timestamp), rest))
  {
    hide DecodeHead, EncodeIds, BigEndian;
    HeadRoundTrip(s.root, s.parents, s.timestamp, rest);
    var stamp := BigEndian(s.timestamp, 8);
    assert EncodeHead(s) + rest == s.root + (BigEndian(|s.parents|, 4) + (EncodeIds(s.parents) + (stamp + rest)));
  }

  lemma {:induction false} HeadCut(s: Snapshot, n: nat)
    requires |s.parents| < U32 && s.timestamp < U64 && n < |EncodeHead(s)|
    ensures DecodeHead(EncodeHead(s)[..n]).None?
  {
    hide TakeIds, EncodeIds, BigEndian, FromBigEndian;
    Limits();
    var count, ids, stamp := BigEndian(|s.parents|, 4), EncodeIds(s.parents), BigEndian(s.timestamp, 8);
    if n >= 36 {
      var m := n - 36;
      var bytes := EncodeHead(s)[..n];
      assert bytes == s.root + (count + (ids + stamp)[..m]);
      Peel(s.root, count + (ids + stamp)[..m]);
      NumberOf(|s.parents|, 4, (ids + stamp)[..m]);
      if m < |ids| {
        assert (ids + stamp)[..m] == ids[..m];
        IdsCut(s.parents, m);
      } else {
        assert (ids + stamp)[..m] == ids + stamp[..m - |ids|];
        IdsRoundTrip(s.parents, stamp[..m - |ids|]);
      }
    }
  }

  lemma {:induction false} EncodedAs(s: Snapshot)
    ensures Encode(s) == SNAPSHOT_MAGIC + (EncodeHead(s) + EncodeTexts(s))
  {
    hide EncodeIds, EncodeTexts, BigEndian;
    var ids, stamp, texts := EncodeIds(s.parents), BigEndian(s.timestamp, 8), EncodeTexts(s);
    assert (ids + stamp) + texts == ids + (stamp + texts);
    assert EncodeHead(s) + texts == s.root + (BigEndian(|s.parents|, 4) + ((ids + stamp) + texts));
  }

  /** A snapshot's bytes cut short end too early, or do not even hold the magic. */
  lemma {:induction false} TruncatedSnapshot(utf8: Utf8, s: Snapshot, n: nat)
    requires SnapshotOk(utf8, s) && n < |Encode(s)|
    ensures Decode(utf8, Encode(s)[..n]) == Err(if n < 16 then InvalidMagic else UnexpectedEof)
  {
    hide DecodeHead, EncodeHead, DecodeTexts, EncodeTexts, Encode, AttributesOk, TextOk;
    EncodedAs(s);
    var head, texts := EncodeHead(s), EncodeTexts(s);
    if n >= 16 {
      var m, bytes := n - 16, Encode(s)[..n];
      assert bytes == SNAPSHOT_MAGIC + (head + texts)[..m];
      Peel(SNAPSHOT_MAGIC, (head + texts)[..m]);
      if m < |head| {
        assert (head + texts)[..m] == head[..m];
        HeadCut(s, m);
      } else {
        assert (head + texts)[..m] == head + texts[..m - |head|];
        HeadThen(s, texts[..m - |head|]);
        TextsCut(utf8, s, Head(s.root, s.parents, s.timestamp), m - |head|);
      }
    }
  }

  /** Sixteen bytes that are not the magic, or fewer, are a wrong magic; nothing else is. */
  lemma {:induction false} WrongMagicExactly(utf8: Utf8, bytes: Bytes)
    ensures Decode(utf8, bytes) == Err(InvalidMagic) <==> |bytes| < 16 || bytes[..16] != SNAPSHOT_MAGIC
  {
    hide DecodeHead, DecodeTexts;
    if |bytes| >= 16 && DecodeHead(bytes[16..]).Some? {
      var head := DecodeHead(bytes[16..]).value;
      ErrorsInside(utf8, head.value, head.rest);
    }
  }

  lemma {:induction false} ErrorsInside(utf8: Utf8, head: Head, bytes: Bytes)
    ensures DecodeTexts(utf8, head, bytes) != Err(InvalidMagic)
  {
    hide DecodeText, DecodeAttributes, TakeNumber;
    OptionalErrors(utf8, bytes, AuthorField);
    var author := DecodeOptional(utf8, bytes, AuthorField);
    if author.Ok? {
      OptionalErrors(utf8, author.value.rest, MessageField);
      var message := DecodeOptional(utf8, author.value.rest, MessageField);
      if message.Ok? {
        ProvenanceErrors(utf8, message.value.rest);
      }
    }
  }

  lemma {:induction false} TextErrors(utf8: Utf8, bytes: Bytes, field: FieldName)
    ensures var r := DecodeText(utf8, bytes, field); r != Err(InvalidMagic) && r != Err(TrailingBytes)
  {
    hide TakeText;
  }

  lemma {:induction false} OptionalErrors(utf8: Utf8, bytes: Bytes, field: FieldName)
    ensures var r := DecodeOptional(utf8, bytes, field); r != Err(InvalidMagic) && r != Err(TrailingBytes)
  {
    hide DecodeText;
    if bytes != [] {
      TextErrors(utf8, bytes[1..], field);
    }
  }

  lemma {:induction false} ProvenanceErrors(utf8: Utf8, bytes: Bytes)
    ensures DecodeProvenance(utf8, bytes) != Err(InvalidMagic)
  {
    hide DecodeText, DecodeAttributes, TakeNumber;
    TextErrors(utf8, bytes, SourceField);
    var source := DecodeText(utf8, bytes, SourceField);
    if source.Ok? && TakeNumber(source.value.rest, 4).Some? {
      var count := TakeNumber(source.value.rest, 4).value;
      AttributesErrors(utf8, count.rest, count.value, None);
    }
  }

  lemma {:induction false} AttributesErrors(utf8: Utf8, bytes: Bytes, count: nat, previous: Option<Bytes>)
    ensures var r := DecodeAttributes(utf8, bytes, count, previous); r != Err(InvalidMagic) && r != Err(TrailingBytes)
    decreases count
  {
    hide DecodeText, Workspace.NameLeq;
    if count > 0 {
      TextErrors(utf8, bytes, KeyField);
      var key := DecodeText(utf8, bytes, KeyField);
      if key.Ok? {
        TextErrors(utf8, key.value.rest, ValueField);
      }
      var first := DecodeAttribute(utf8, bytes, previous);
      if first.Ok? {
        AttributesErrors(utf8, first.value.rest, count - 1, Some(first.value.value.key));
      }
    }
  }

  /** Bytes after a snapshot are refused, and only where there is a whole snapshot before them. */
  lemma {:induction false} TrailingExactly(utf8: Utf8, bytes: Bytes)
    ensures Decode(utf8, bytes) == Err(TrailingBytes) <==> exists n :: 0 <= n < |bytes| && Decode(utf8, bytes[..n]).Ok?
  {
    hide Decode;
    if Decode(utf8, bytes) == Err(TrailingBytes) {
      var n := SnapshotBefore(utf8, bytes);
      assert Decode(utf8, bytes[..n]).Ok?;
    }
    if n :| 0 <= n < |bytes| && Decode(utf8, bytes[..n]).Ok? {
      EncodeOfDecodeSnapshot(utf8, bytes[..n]);
      TrailingSnapshot(utf8, Decode(utf8, bytes[..n]).value, bytes[n..]);
      assert bytes[..n] + bytes[n..] == bytes;
    }
  }

  lemma {:induction false} TrailingSnapshot(utf8: Utf8, s: Snapshot, rest: Bytes)
    requires SnapshotOk(utf8, s) && rest != []
    ensures Decode(utf8, Encode(s) + rest) == Err(TrailingBytes)
  {
    hide DecodeHead, EncodeHead, DecodeOptional, EncodeOptional, DecodeProvenance, EncodeProvenance, Encode,
      AttributesOk, TextOk, OptionalOk;
    EncodedAs(s);
    var head, author, message := EncodeHead(s), EncodeOptional(s.author), EncodeOptional(s.message);
    var provenance := EncodeProvenance(s) + rest;
    var texts := author + (message + provenance);
    assert EncodeTexts(s) + rest == texts;
    assert Encode(s) + rest == SNAPSHOT_MAGIC + (head + texts);
    Peel(SNAPSHOT_MAGIC, head + texts);
    HeadThen(s, texts);
    OptionalRoundTrip(utf8, s.author, message + provenance, AuthorField);
    OptionalRoundTrip(utf8, s.message, provenance, MessageField);
    ProvenanceTrailing(utf8, s, rest);
  }

  lemma {:induction false} ProvenanceTrailing(utf8: Utf8, s: Snapshot, rest: Bytes)
    requires TextOk(utf8, s.source) && |s.attributes| < U32 && AttributesOk(utf8, None, s.attributes) && rest != []
    ensures DecodeProvenance(utf8, EncodeProvenance(s) + rest) == Err(TrailingBytes)
  {
    hide DecodeText, EncodeText, DecodeAttributes, EncodeAttributes, AttributesOk, TextOk;
    Limits();
    var source, count, listed := EncodeText(s.source), BigEndian(|s.attributes|, 4), EncodeAttributes(s.attributes);
    assert EncodeProvenance(s) + rest == source + (count + (listed + rest));
    DecodeTextOf(utf8, s.source, count + (listed + rest), SourceField);
    NumberOf(|s.attributes|, 4, listed + rest);
    AttributesRoundTrip(utf8, s.attributes, rest, None);
  }

  /** Where the parser finds trailing bytes, it has read a whole snapshot. */
  lemma {:induction false} SnapshotBefore(utf8: Utf8, bytes: Bytes) returns (n: nat)
    requires Decode(utf8, bytes) == Err(TrailingBytes)
    ensures n < |bytes| && Decode(utf8, bytes[..n]).Ok?
  {
    hide DecodeHead, EncodeTexts, DecodeTexts, EncodeIds, AttributesOk, TextOk, OptionalOk, Encode;
    var head := DecodeHead(bytes[16..]).value;
    Unpeel(bytes, 16);
    HeadBack(bytes[16..]);
    var s, rest := TextsBefore(utf8, head.value, head.rest);
    n := |bytes| - |rest|;
    EncodedAs(s);
    assert EncodeHead(s) + head.rest == bytes[16..] by { Regroup(s, head.rest); }
    assert Encode(s) + rest == bytes by {
      assert SNAPSHOT_MAGIC + (EncodeHead(s) + (EncodeTexts(s) + rest)) == Encode(s) + rest;
    }
    assert bytes[..n] == Encode(s);
    DecodeOfEncodeSnapshot(utf8, s);
  }

  lemma {:induction false} Regroup(s: Snapshot, rest: Bytes)
    ensures EncodeHead(s) + rest
         == s.root + (BigEndian(|s.parents|, 4) + (EncodeIds(s.parents) + (BigEndian(s.timestamp, 8) + rest)))
  {
    hide EncodeIds, BigEndian;
    var ids, stamp := EncodeIds(s.parents), BigEndian(s.timestamp, 8);
    assert (ids + stamp) + rest == ids + (stamp + rest);
  }

  lemma {:induction false} TextsBefore(utf8: Utf8, head: Head, bytes: Bytes) returns (s: Snapshot, rest: Bytes)
    requires DecodeTexts(utf8, head, bytes) == Err(TrailingBytes) && |head.parents| < U32 && head.timestamp < U64
    ensures Head(s.root, s.parents, s.timestamp) == head && SnapshotOk(utf8, s) && rest != []
    ensures EncodeTexts(s) + rest == bytes
  {
    hide DecodeOptional, EncodeOptional, EncodeProvenance, DecodeProvenance, AttributesOk, TextOk, OptionalOk;
    OptionalErrors(utf8, bytes, AuthorField);
    OptionalBack(utf8, bytes, AuthorField);
    var author := DecodeOptional(utf8, bytes, AuthorField).value;
    OptionalErrors(utf8, author.rest, MessageField);
    OptionalBack(utf8, author.rest, MessageField);
    var message := DecodeOptional(utf8, author.rest, MessageField).value;
    var provenance;
    provenance, rest := ProvenanceBefore(utf8, message.rest);
    s := Snapshot(head.root, head.parents, head.timestamp, author.value, message.value, provenance.source,
                  provenance.attributes);
    SameProvenance(s, provenance);
    assert EncodeTexts(s) + rest
        == EncodeOptional(s.author) + (EncodeOptional(s.message) + (EncodeProvenance(s) + rest));
  }

  function ProvenanceBytes(p: Provenance): (bytes: Bytes) {
    EncodeText(p.source) + (BigEndian(|p.attributes|, 4) + EncodeAttributes(p.attributes))
  }

  lemma {:induction false} SameProvenance(s: Snapshot, p: Provenance)
    requires s.source == p.source && s.attributes == p.attributes
    ensures EncodeProvenance(s) == ProvenanceBytes(p)
  {
  }

  lemma {:induction false} ProvenanceBefore(utf8: Utf8, bytes: Bytes) returns (p: Provenance, rest: Bytes)
    requires DecodeProvenance(utf8, bytes) == Err(TrailingBytes)
    ensures TextOk(utf8, p.source) && |p.attributes| < U32 && AttributesOk(utf8, None, p.attributes) && rest != []
    ensures ProvenanceBytes(p) + rest == bytes
  {
    hide DecodeText, EncodeText, DecodeAttributes, EncodeAttributes, TakeNumber, AttributesOk, TextOk;
    Limits();
    TextErrors(utf8, bytes, SourceField);
    DecodeTextBack(utf8, bytes, SourceField);
    var source := DecodeText(utf8, bytes, SourceField).value;
    NumberBack(source.rest, 4);
    var count := TakeNumber(source.rest, 4).value;
    AttributesErrors(utf8, count.rest, count.value, None);
    AttributesBack(utf8, count.rest, count.value, None);
    var attributes := DecodeAttributes(utf8, count.rest, count.value, None).value;
    p, rest := Provenance(source.value, attributes.value), attributes.rest;
    assert ProvenanceBytes(p) + rest
        == EncodeText(p.source) + (BigEndian(|p.attributes|, 4) + (EncodeAttributes(p.attributes) + rest));
  }

  /** The first text that is not UTF-8 decides the refusal, in the order author, message, source. */
  lemma {:induction false} FaultyText(utf8: Utf8, s: Snapshot)
    requires |s.parents| < U32 && s.timestamp < U64 && |s.source| < U32
    requires (s.author.Some? ==> |s.author.value| < U32) && (s.message.Some? ==> |s.message.value| < U32)
    ensures var r := Decode(utf8, Encode(s));
      && (s.author.Some? && !utf8(s.author.value) ==> r == Err(StringNotUtf8(AuthorField)))
      && (OptionalOk(utf8, s.author) && s.message.Some? && !utf8(s.message.value) ==>
            r == Err(StringNotUtf8(MessageField)))
      && (OptionalOk(utf8, s.author) && OptionalOk(utf8, s.message) && !utf8(s.source) ==>
            r == Err(StringNotUtf8(SourceField)))
  {
    hide DecodeHead, EncodeHead, DecodeOptional, EncodeOptional, DecodeProvenance, EncodeProvenance, Encode,
      AttributesOk;
    EncodedAs(s);
    var head, texts := EncodeHead(s), EncodeTexts(s);
    Peel(SNAPSHOT_MAGIC, head + texts);
    HeadThen(s, texts);
    var message, provenance := EncodeOptional(s.message), EncodeProvenance(s);
    OptionalRefused(utf8, s.author, message + provenance, AuthorField);
    if OptionalOk(utf8, s.author) {
      OptionalRoundTrip(utf8, s.author, message + provenance, AuthorField);
      OptionalRefused(utf8, s.message, provenance, MessageField);
      if OptionalOk(utf8, s.message) {
        OptionalRoundTrip(utf8, s.message, provenance, MessageField);
        SourceRefused(utf8, s);
      }
    }
  }

  lemma {:induction false} TextRefused(utf8: Utf8, text: Bytes, rest: Bytes, field: FieldName)
    requires |text| < U32 && !utf8(text)
    ensures DecodeText(utf8, EncodeText(text) + rest, field) == Err(StringNotUtf8(field))
  {
    hide EncodeText, TakeText;
    TextOf(text, rest);
  }

  lemma {:induction false} OptionalRefused(utf8: Utf8, text: Option<Bytes>, rest: Bytes, field: FieldName)
    requires text.Some? ==> |text.value| < U32
    ensures text.Some? && !utf8(text.value) ==>
      DecodeOptional(utf8, EncodeOptional(text) + rest, field) == Err(StringNotUtf8(field))
  {
    hide EncodeText, DecodeText;
    if text.Some? && !utf8(text.value) {
      assert (EncodeOptional(text) + rest)[1..] == EncodeText(text.value) + rest;
      TextRefused(utf8, text.value, rest, field);
    }
  }

  lemma {:induction false} SourceRefused(utf8: Utf8, s: Snapshot)
    requires |s.source| < U32
    ensures !utf8(s.source) ==> DecodeProvenance(utf8, EncodeProvenance(s)) == Err(StringNotUtf8(SourceField))
  {
    hide EncodeText, DecodeText, EncodeAttributes, DecodeAttributes;
    if !utf8(s.source) {
      TextRefused(utf8, s.source, BigEndian(|s.attributes|, 4) + EncodeAttributes(s.attributes), SourceField);
    }
  }

  /** An optional text begins with a zero or a one. */
  lemma {:induction false} UnknownTag(utf8: Utf8, s: Snapshot, tag: Byte, rest: Bytes)
    requires |s.parents| < U32 && s.timestamp < U64 && OptionalOk(utf8, s.author) && tag > 1
    ensures Decode(utf8, SNAPSHOT_MAGIC + (EncodeHead(s) + ([tag] + rest)))
         == Err(InvalidOptionalStringTag(AuthorField, tag))
    ensures Decode(utf8, SNAPSHOT_MAGIC + (EncodeHead(s) + (EncodeOptional(s.author) + ([tag] + rest))))
         == Err(InvalidOptionalStringTag(MessageField, tag))
  {
    hide DecodeHead, EncodeHead, EncodeOptional, DecodeProvenance, DecodeText;
    var bytes := [tag] + rest;
    Peel(SNAPSHOT_MAGIC, EncodeHead(s) + bytes);
    HeadThen(s, bytes);
    Peel(SNAPSHOT_MAGIC, EncodeHead(s) + (EncodeOptional(s.author) + bytes));
    HeadThen(s, EncodeOptional(s.author) + bytes);
    OptionalRoundTrip(utf8, s.author, bytes, AuthorField);
  }

  /** The first attribute that may not stand where it does decides the refusal. */
  lemma {:induction false} FaultyAttribute(utf8: Utf8, s: Snapshot, k: nat)
    requires |s.parents| < U32 && s.timestamp < U64 && OptionalOk(utf8, s.author) && OptionalOk(utf8, s.message)
    requires TextOk(utf8, s.source) && k < |s.attributes| < U32 && AttributesOk(utf8, None, s.attributes[..k])
    requires |s.attributes[k].key| < U32 && |s.attributes[k].value| < U32
    ensures var key, value, r := s.attributes[k].key, s.attributes[k].value, Decode(utf8, Encode(s));
      && (!utf8(key) ==> r == Err(StringNotUtf8(KeyField)))
      && (utf8(key) && k > 0 && key == s.attributes[k - 1].key ==> r == Err(DuplicateAttribute(key)))
      && (utf8(key) && k > 0 && !Workspace.NameLeq(s.attributes[k - 1].key, key) ==>
            r == Err(NonCanonicalAttributeOrder(s.attributes[k - 1].key, key)))
      && (utf8(key) && (k > 0 ==> Follows(s.attributes[k - 1].key, key)) && !utf8(value) ==>
            r == Err(StringNotUtf8(ValueField)))
  {
    hide DecodeHead, EncodeHead, DecodeOptional, EncodeOptional, EncodeProvenance, Encode, DecodeAttributes,
      AttributesOk, Workspace.NameLeq, TakeNumber, EncodeText, DecodeText, OptionalOk, TextOk;
    EncodedAs(s);
    var texts, provenance := EncodeTexts(s), EncodeProvenance(s);
    Peel(SNAPSHOT_MAGIC, EncodeHead(s) + texts);
    HeadThen(s, texts);
    OptionalRoundTrip(utf8, s.author, EncodeOptional(s.message) + provenance, AuthorField);
    OptionalRoundTrip(utf8, s.message, provenance, MessageField);
    AttributesReached(utf8, s);
    Reached(utf8, s.attributes, k, None);
    var previous := if k == 0 then None else Some(s.attributes[k - 1].key);
    AttributeRefused(utf8, s.attributes[k], EncodeAttributes(s.attributes[k + 1..]), previous);
    Workspace.NamesAreOrdered();
  }

  predicate Follows(previous: Bytes, key: Bytes) {
    previous != key && Workspace.NameLeq(previous, key)
  }

  lemma {:induction false} AttributesReached(utf8: Utf8, s: Snapshot)
    requires TextOk(utf8, s.source) && |s.attributes| < U32
    ensures var r := DecodeAttributes(utf8, EncodeAttributes(s.attributes), |s.attributes|, None);
      r.Err? ==> DecodeProvenance(utf8, EncodeProvenance(s)) == Err(r.error)
  {
    hide DecodeText, EncodeText, DecodeAttributes, EncodeAttributes, TakeNumber, TextOk;
    Limits();
    var listed := EncodeAttributes(s.attributes);
    DecodeTextOf(utf8, s.source, BigEndian(|s.attributes|, 4) + listed, SourceField);
    NumberOf(|s.attributes|, 4, listed);
  }

  lemma {:induction false} AttributeRefused(utf8: Utf8, a: Attribute, rest: Bytes, previous: Option<Bytes>)
    requires |a.key| < U32 && |a.value| < U32
    ensures var r := DecodeAttribute(utf8, EncodeAttribute(a) + rest, previous);
      if !utf8(a.key) then r == Err(StringNotUtf8(KeyField))
      else if OrderFault(previous, a.key).Some? then r == Err(OrderFault(previous, a.key).value)
      else !utf8(a.value) ==> r == Err(StringNotUtf8(ValueField))
  {
    hide EncodeText, DecodeText, OrderFault;
    var value := EncodeText(a.value) + rest;
    assert EncodeAttribute(a) + rest == EncodeText(a.key) + value;
    if !utf8(a.key) {
      TextRefused(utf8, a.key, value, KeyField);
    } else {
      DecodeTextOf(utf8, a.key, value, KeyField);
      if !utf8(a.value) {
        TextRefused(utf8, a.value, rest, ValueField);
      }
    }
  }

  lemma {:induction false} Reached(utf8: Utf8, attributes: seq<Attribute>, k: nat, previous: Option<Bytes>)
    requires k < |attributes| && AttributesOk(utf8, previous, attributes[..k])
    ensures var last := if k == 0 then previous else Some(attributes[k - 1].key);
      var at := DecodeAttribute(utf8, EncodeAttribute(attributes[k]) + EncodeAttributes(attributes[k + 1..]), last);
      at.Err? ==> DecodeAttributes(utf8, EncodeAttributes(attributes), |attributes|, previous) == Err(at.error)
    decreases k
  {
    hide TextOk, OrderFault, EncodeAttribute, DecodeAttribute;
    if k > 0 {
      var a := attributes[0];
      assert attributes[..k][1..] == attributes[1..][..k - 1] && attributes[..k][0] == a;
      AttributeRoundTrip(utf8, a, EncodeAttributes(attributes[1..]), previous);
      Reached(utf8, attributes[1..], k - 1, Some(a.key));
      assert attributes[1..][k - 1 + 1..] == attributes[k + 1..];
    }
  }
}
