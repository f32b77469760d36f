/** Snapshots and their canonical bytes. */
module SnapshotCodec {
  import opened Wrappers
  import opened Bytes
  import opened ByteFields
  import BlobDelta
  import Workspace

  /** The text "ERA_SNAPSHOT_V1" and a zero byte. */
  const SNAPSHOT_MAGIC: Bytes := [69, 82, 65, 95, 83, 78, 65, 80, 83, 72, 79, 84, 95, 86, 49, 0]

  const OBJECT_ID_BYTES: nat := BlobDelta.OBJECT_ID_BYTES

  type Id = BlobDelta.Id

  type Utf8 = Bytes -> bool

  datatype Attribute = Attribute(key: Bytes, value: Bytes)

  /** The attributes are listed in the order of their keys. */
  datatype Snapshot = Snapshot(root: Id, parents: seq<Id>, timestamp: nat, author: Option<Bytes>,
                               message: Option<Bytes>, source: Bytes, attributes: seq<Attribute>)

  datatype FieldName = AuthorField | MessageField | SourceField | KeyField | ValueField

  datatype SnapshotError =
    | InvalidMagic
    | UnexpectedEof
    | InvalidOptionalStringTag(field: FieldName, tag: Byte)
    | StringNotUtf8(field: FieldName)
    | DuplicateAttribute(key: Bytes)
    | NonCanonicalAttributeOrder(previous: Bytes, current: Bytes)
    | TrailingBytes

  ghost predicate TextOk(utf8: Utf8, text: Bytes) {
    utf8(text) && |text| < U32
  }

  ghost predicate OptionalOk(utf8: Utf8, text: Option<Bytes>) {
    text.Some? ==> TextOk(utf8, text.value)
  }

  function OrderFault(previous: Option<Bytes>, key: Bytes): (fault: Option<SnapshotError>) {
    if previous.None? then None
    else if previous.value == key then Some(DuplicateAttribute(key))
    else if Workspace.NameLeq(previous.value, key) then None
    else Some(NonCanonicalAttributeOrder(previous.value, key))
  }

  ghost predicate AttributesOk(utf8: Utf8, previous: Option<Bytes>, attributes: seq<Attribute>)
    decreases |attributes|
  {
    attributes == [] || (
      && TextOk(utf8, attributes[0].key) && TextOk(utf8, attributes[0].value)
      && OrderFault(previous, attributes[0].key).None?
      && AttributesOk(utf8, Some(attributes[0].key), attributes[1..]))
  }

  ghost predicate SnapshotOk(utf8: Utf8, s: Snapshot) {
    && |s.parents| < U32 && s.timestamp < U64 && OptionalOk(utf8, s.author) && OptionalOk(utf8, s.message)
    && TextOk(utf8, s.source) && |s.attributes| < U32 && AttributesOk(utf8, None, s.attributes)
  }

  function EncodeIds(ids: seq<Id>): (bytes: Bytes) {
    if ids == [] then [] else ids[0] + EncodeIds(ids[1..])
  }

  function EncodeOptional(text: Option<Bytes>): (bytes: Bytes) {
    if text.None? then [0] else [1] + EncodeText(text.value)
  }

  function EncodeAttribute(a: Attribute): (bytes: Bytes) {
    EncodeText(a.key) + EncodeText(a.value)
  }

  function EncodeAttributes(attributes: seq<Attribute>): (bytes: Bytes) {
    if attributes == [] then [] else EncodeAttribute(attributes[0]) + EncodeAttributes(attributes[1..])
  }

  function EncodeProvenance(s: Snapshot): (bytes: Bytes) {
    EncodeText(s.source) + (BigEndian(|s.attributes|, 4) + EncodeAttributes(s.attributes))
  }

  function EncodeTexts(s: Snapshot): (bytes: Bytes) {
    EncodeOptional(s.author) + (EncodeOptional(s.message) + EncodeProvenance(s))
  }

  function Encode(s: Snapshot): (bytes: Bytes) {
    SNAPSHOT_MAGIC + (s.root + (BigEndian(|s.parents|, 4) + (EncodeIds(s.parents)
    + (BigEndian(s.timestamp, 8) + EncodeTexts(s)))))
  }

  function TakeId(bytes: Bytes): (field: Option<Field<Id>>) {
    if |bytes| < OBJECT_ID_BYTES then None
    else
      var id: Id := bytes[..OBJECT_ID_BYTES];
      Some(Field(id, bytes[OBJECT_ID_BYTES..]))
  }

  function TakeIds(bytes: Bytes, count: nat): (field: Option<Field<seq<Id>>>)
    decreases count
  {
    if count == 0 then Some(Field([], bytes))
    else
      var first := TakeId(bytes);
      if first.None? then None
      else
        var more := TakeIds(first.value.rest, count - 1);
        if more.None? then None else Some(Field([first.value.value] + more.value.value, more.value.rest))
  }

  function DecodeText(utf8: Utf8, bytes: Bytes, field: FieldName): (r: Result<Field<Bytes>, SnapshotError>) {
    var text := TakeText(bytes);
    if text.None? then Err(UnexpectedEof)
    else if !utf8(text.value.value) then Err(StringNotUtf8(field))
    else Ok(text.value)
  }

  function DecodeOptional(utf8: Utf8, bytes: Bytes, field: FieldName): (r: Result<Field<Option<Bytes>>, SnapshotError>)
  {
    if bytes == [] then Err(UnexpectedEof)
    else if bytes[0] == 0 then Ok(Field(None, bytes[1..]))
    else if bytes[0] != 1 then Err(InvalidOptionalStringTag(field, bytes[0]))
    else
      var text := DecodeText(utf8, bytes[1..], field);
      if text.Err? then Err(text.error) else Ok(Field(Some(text.value.value), text.value.rest))
  }

  function DecodeAttribute(utf8: Utf8, bytes: Bytes, previous: Option<Bytes>)
    : (r: Result<Field<Attribute>, SnapshotError>)
  {
    var key := DecodeText(utf8, bytes, KeyField);
    if key.Err? then Err(key.error)
    else if OrderFault(previous, key.value.value).Some? then Err(OrderFault(previous, key.value.value).value)
    else
      var value := DecodeText(utf8, key.value.rest, ValueField);
      if value.Err? then Err(value.error)
      else Ok(Field(Attribute(key.value.value, value.value.value), value.value.rest))
  }

  function DecodeAttributes(utf8: Utf8, bytes: Bytes, count: nat, previous: Option<Bytes>)
    : (r: Result<Field<seq<Attribute>>, SnapshotError>)
    decreases count
  {
    if count == 0 then Ok(Field([], bytes))
    else
      var first := DecodeAttribute(utf8, bytes, previous);
      if first.Err? then Err(first.error)
      else
        var more := DecodeAttributes(utf8, first.value.rest, count - 1, Some(first.value.value.key));
        if more.Err? then more else Ok(Field([first.value.value] + more.value.value, more.value.rest))
  }

  /** What precedes the texts. */
  datatype Head = Head(root: Id, parents: seq<Id>, timestamp: nat)

  datatype Provenance = Provenance(source: Bytes, attributes: seq<Attribute>)

  function DecodeHead(bytes: Bytes): (head: Option<Field<Head>>) {
    var root := TakeId(bytes);
    if root.None? then None
    else
      var count := TakeNumber(root.value.rest, 4);
      if count.None? then None
      else
        var parents := TakeIds(count.value.rest, count.value.value);
        if parents.None? then None
        else
          var timestamp := TakeNumber(parents.value.rest, 8);
          if timestamp.None? then None
          else Some(Field(Head(root.value.value, parents.value.value, timestamp.value.value), timestamp.value.rest))
  }

  function DecodeProvenance(utf8: Utf8, bytes: Bytes): (r: Result<Provenance, SnapshotError>) {
    var source := DecodeText(utf8, bytes, SourceField);
    if source.Err? then Err(source.error)
    else
      var count := TakeNumber(source.value.rest, 4);
      if count.None? then Err(UnexpectedEof)
      else
        var attributes := DecodeAttributes(utf8, count.value.rest, count.value.value, None);
        if attributes.Err? then Err(attributes.error)
        else if attributes.value.rest != [] then Err(TrailingBytes)
        else Ok(Provenance(source.value.value, attributes.value.value))
  }

  function DecodeTexts(utf8: Utf8, head: Head, bytes: Bytes): (r: Result<Snapshot, SnapshotError>) {
    var author := DecodeOptional(utf8, bytes, AuthorField);
    if author.Err? then Err(author.error)
    else
      var message := DecodeOptional(utf8, author.value.rest, MessageField);
      if message.Err? then Err(message.error)
      else
        var provenance := DecodeProvenance(utf8, message.value.rest);
        if provenance.Err? then Err(provenance.error)
        else Ok(Snapshot(head.root, head.parents, head.timestamp, author.value.value, message.value.value,
                         provenance.value.source, provenance.value.attributes))
  }

  function Decode(utf8: Utf8, bytes: Bytes): (r: Result<Snapshot, SnapshotError>) {
    if |bytes| < |SNAPSHOT_MAGIC| || bytes[..|SNAPSHOT_MAGIC|] != SNAPSHOT_MAGIC then Err(InvalidMagic)
    else
      var head := DecodeHead(bytes[|SNAPSHOT_MAGIC|..]);
      if head.None? then Err(UnexpectedEof) else DecodeTexts(utf8, head.value.value, head.value.rest)
  }

  lemma {:induction false} IdsRoundTrip(ids: seq<Id>, rest: Bytes)
    ensures TakeIds(EncodeIds(ids) + rest, |ids|) == Some(Field(ids, rest))
    decreases |ids|
  {
    if ids == [] {
      assert EncodeIds(ids) + rest == rest;
    } else {
      var after := EncodeIds(ids[1..]) + rest;
      assert EncodeIds(ids) + rest == ids[0] + after;
      Peel(ids[0], after);
      IdsRoundTrip(ids[1..], rest);
      assert ids == [ids[0]] + ids[1..];
    }
  }

  lemma {:induction false} IdsBack(bytes: Bytes, count: nat)
    requires TakeIds(bytes, count).Some?
    ensures var field := TakeIds(bytes, count).value;
      |field.value| == count && EncodeIds(field.value) + field.rest == bytes
    decreases count
  {
    if count > 0 {
      Unpeel(bytes, OBJECT_ID_BYTES);
      var first, field := TakeId(bytes).value, TakeIds(bytes, count).value;
      IdsBack(first.rest, count - 1);
      assert field.value[1..] == TakeIds(first.rest, count - 1).value.value;
      assert EncodeIds(field.value) + field.rest == first.value + (EncodeIds(field.value[1..]) + field.rest);
    }
  }

  lemma {:induction false} DecodeTextOf(utf8: Utf8, text: Bytes, rest: Bytes, field: FieldName)
    requires TextOk(utf8, text)
    ensures DecodeText(utf8, EncodeText(text) + rest, field) == Ok(Field(text, rest))
  {
    hide EncodeText, TakeText;
    TextOf(text, rest);
  }

  lemma {:induction false} DecodeTextBack(utf8: Utf8, bytes: Bytes, field: FieldName)
    requires DecodeText(utf8, bytes, field).Ok?
    ensures var text := DecodeText(utf8, bytes, field).value;
      TextOk(utf8, text.value) && EncodeText(text.value) + text.rest == bytes
  {
    hide EncodeText, TakeText;
    TextBack(bytes);
  }

  lemma {:induction false} OptionalRoundTrip(utf8: Utf8, text: Option<Bytes>, rest: Bytes, field: FieldName)
    requires OptionalOk(utf8, text)
    ensures DecodeOptional(utf8, EncodeOptional(text) + rest, field) == Ok(Field(text, rest))
  {
    hide EncodeText, DecodeText;
    var bytes := EncodeOptional(text) + rest;
    if text.None? {
      assert bytes[1..] == rest;
    } else {
      assert bytes[1..] == EncodeText(text.value) + rest;
      DecodeTextOf(utf8, text.value, rest, field);
    }
  }

  lemma {:induction false} OptionalBack(utf8: Utf8, bytes: Bytes, field: FieldName)
    requires DecodeOptional(utf8, bytes, field).Ok?
    ensures var text := DecodeOptional(utf8, bytes, field).value;
      OptionalOk(utf8, text.value) && EncodeOptional(text.value) + text.rest == bytes
  {
    hide EncodeText, DecodeText;
    assert bytes == [bytes[0]] + bytes[1..];
    if bytes[0] == 1 {
      DecodeTextBack(utf8, bytes[1..], field);
      var text := DecodeOptional(utf8, bytes, field).value;
      assert EncodeOptional(text.value) + text.rest == [1] + (EncodeText(text.value.value) + text.rest);
    }
  }

  lemma {:induction false} AttributeRoundTrip(utf8: Utf8, a: Attribute, rest: Bytes, previous: Option<Bytes>)
    requires TextOk(utf8, a.key) && TextOk(utf8, a.value) && OrderFault(previous, a.key).None?
    ensures DecodeAttribute(utf8, EncodeAttribute(a) + rest, previous) == Ok(Field(a, rest))
  {
    hide EncodeText, DecodeText, OrderFault;
    assert EncodeAttribute(a) + rest == EncodeText(a.key) + (EncodeText(a.value) + rest);
    DecodeTextOf(utf8, a.key, EncodeText(a.value) + rest, KeyField);
    DecodeTextOf(utf8, a.value, rest, ValueField);
  }

  lemma {:induction false} AttributeBack(utf8: Utf8, bytes: Bytes, previous: Option<Bytes>)
    requires DecodeAttribute(utf8, bytes, previous).Ok?
    ensures var a := DecodeAttribute(utf8, bytes, previous).value;
      && TextOk(utf8, a.value.key) && TextOk(utf8, a.value.value) && OrderFault(previous, a.value.key).None?
      && EncodeAttribute(a.value) + a.rest == bytes
  {
    hide EncodeText, DecodeText, OrderFault;
    DecodeTextBack(utf8, bytes, KeyField);
    var key := DecodeText(utf8, bytes, KeyField).value;
    DecodeTextBack(utf8, key.rest, ValueField);
    var a := DecodeAttribute(utf8, bytes, previous).value;
    assert EncodeAttribute(a.value) + a.rest == EncodeText(a.value.key) + (EncodeText(a.value.value) + a.rest);
  }

  lemma {:induction false} AttributesRoundTrip(utf8: Utf8, attributes: seq<Attribute>, rest: Bytes,
                                               previous: Option<Bytes>)
    requires AttributesOk(utf8, previous, attributes)
    ensures DecodeAttributes(utf8, EncodeAttributes(attributes) + rest, |attributes|, previous)
         == Ok(Field(attributes, rest))
    decreases |attributes|
  {
    hide TextOk, OrderFault, EncodeAttribute, DecodeAttribute;
    if attributes == [] {
      assert EncodeAttributes(attributes) + rest == rest;
    } else {
      var a, after := attributes[0], EncodeAttributes(attributes[1..]) + rest;
      assert EncodeAttributes(attributes) + rest == EncodeAttribute(a) + after;
      AttributeRoundTrip(utf8, a, after, previous);
      AttributesRoundTrip(utf8, attributes[1..], rest, Some(a.key));
      assert attributes == [a] + attributes[1..];
    }
  }

  lemma {:induction false} AttributesBack(utf8: Utf8, bytes: Bytes, count: nat, previous: Option<Bytes>)
    requires DecodeAttributes(utf8, bytes, count, previous).Ok?
    ensures var field := DecodeAttributes(utf8, bytes, count, previous).value;
      && |field.value| == count && AttributesOk(utf8, previous, field.value)
      && EncodeAttributes(field.value) + field.rest == bytes
    decreases count
  {
    hide TextOk, OrderFault, EncodeAttribute, DecodeAttribute;
    if count > 0 {
      AttributeBack(utf8, bytes, previous);
      var first, field := DecodeAttribute(utf8, bytes, previous).value,
                          DecodeAttributes(utf8, bytes, count, previous).value;
      AttributesBack(utf8, first.rest, count - 1, Some(first.value.key));
      assert field.value[1..] == DecodeAttributes(utf8, first.rest, count - 1, Some(first.value.key)).value.value;
      assert EncodeAttributes(field.value) + field.rest
          == EncodeAttribute(first.value) + (EncodeAttributes(field.value[1..]) + field.rest);
    }
  }

  lemma {:induction false} HeadRoundTrip(root: Id, parents: seq<Id>, timestamp: nat, rest: Bytes)
    requires |parents| < U32 && timestamp < U64
    ensures DecodeHead(root + (BigEndian(|parents|, 4) + (EncodeIds(parents) + (BigEndian(timestamp, 8) + rest))))
         == Some(Field(Head(root, parents, timestamp), rest))
  {
    hide TakeIds, EncodeIds, TakeNumber;
    Limits();
    var stamped := BigEndian(timestamp, 8) + rest;
    var listed := EncodeIds(parents) + stamped;
    Peel(root, BigEndian(|parents|, 4) + listed);
    NumberOf(|parents|, 4, listed);
    IdsRoundTrip(parents, stamped);
    NumberOf(timestamp, 8, rest);
  }

  lemma {:induction false} HeadBack(bytes: Bytes)
    requires DecodeHead(bytes).Some?
    ensures var h, rest := DecodeHead(bytes).value.value, DecodeHead(bytes).value.rest;
      && |h.parents| < U32 && h.timestamp < U64
      && h.root + (BigEndian(|h.parents|, 4) + (EncodeIds(h.parents) + (BigEndian(h.timestamp, 8) + rest))) == bytes
  {
    hide TakeIds, EncodeIds, TakeNumber;
    Limits();
    Unpeel(bytes, OBJECT_ID_BYTES);
    var root := TakeId(bytes).value;
    NumberBack(root.rest, 4);
    var count := TakeNumber(root.rest, 4).value;
    IdsBack(count.rest, count.value);
    NumberBack(TakeIds(count.rest, count.value).value.rest, 8);
  }

  lemma {:induction false} ProvenanceRoundTrip(utf8: Utf8, s: Snapshot)
    requires TextOk(utf8, s.source) && |s.attributes| < U32 && AttributesOk(utf8, None, s.attributes)
    ensures DecodeProvenance(utf8, EncodeProvenance(s)) == Ok(Provenance(s.source, s.attributes))
  {
    hide DecodeText, EncodeText, DecodeAttributes, EncodeAttributes, TakeNumber, AttributesOk, TextOk;
    Limits();
    var listed := EncodeAttributes(s.attributes);
    DecodeTextOf(utf8, s.source, BigEndian(|s.attributes|, 4) + listed, SourceField);
    NumberOf(|s.attributes|, 4, listed);
    AttributesRoundTrip(utf8, s.attributes, [], None);
    assert listed + [] == listed;
  }

  lemma {:induction false} ProvenanceBack(utf8: Utf8, bytes: Bytes, s: Snapshot)
    requires DecodeProvenance(utf8, bytes) == Ok(Provenance(s.source, s.attributes))
    ensures TextOk(utf8, s.source) && |s.attributes| < U32 && AttributesOk(utf8, None, s.attributes)
    ensures EncodeProvenance(s) == bytes
  {
    hide DecodeText, EncodeText, DecodeAttributes, EncodeAttributes, TakeNumber, AttributesOk, TextOk;
    Limits();
    DecodeTextBack(utf8, bytes, SourceField);
    var source := DecodeText(utf8, bytes, SourceField).value;
    NumberBack(source.rest, 4);
    var count := TakeNumber(source.rest, 4).value;
    AttributesBack(utf8, count.rest, count.value, None);
    assert EncodeAttributes(s.attributes) + [] == EncodeAttributes(s.attributes);
  }

  lemma {:induction false} TextsRoundTrip(utf8: Utf8, s: Snapshot)
    requires SnapshotOk(utf8, s)
    ensures DecodeTexts(utf8, Head(s.root, s.parents, s.timestamp), EncodeTexts(s)) == Ok(s)
  {
    hide DecodeOptional, EncodeOptional, DecodeProvenance, EncodeProvenance, AttributesOk, TextOk;
    OptionalRoundTrip(utf8, s.author, EncodeOptional(s.message) + EncodeProvenance(s), AuthorField);
    OptionalRoundTrip(utf8, s.message, EncodeProvenance(s), MessageField);
    ProvenanceRoundTrip(utf8, s);
  }

  /** Every well-formed snapshot decodes from its own bytes. */
  lemma {:induction false} DecodeOfEncodeSnapshot(utf8: Utf8, s: Snapshot)
    requires SnapshotOk(utf8, s)
    ensures Decode(utf8, Encode(s)) == Ok(s)
  {
    hide DecodeHead, DecodeTexts, EncodeTexts, EncodeIds, AttributesOk, TextOk;
    var texts := EncodeTexts(s);
    Peel(SNAPSHOT_MAGIC,
         s.root + (BigEndian(|s.parents|, 4) + (EncodeIds(s.parents) + (BigEndian(s.timestamp, 8) + texts))));
    HeadRoundTrip(s.root, s.parents, s.timestamp, texts);
    TextsRoundTrip(utf8, s);
  }

  lemma {:induction false} TextsBack(utf8: Utf8, head: Head, bytes: Bytes)
    requires DecodeTexts(utf8, head, bytes).Ok?
    ensures var s := DecodeTexts(utf8, head, bytes).value;
      && Head(s.root, s.parents, s.timestamp) == head && EncodeTexts(s) == bytes
      && OptionalOk(utf8, s.author) && OptionalOk(utf8, s.message)
      && TextOk(utf8, s.source) && |s.attributes| < U32 && AttributesOk(utf8, None, s.attributes)
  {
    hide DecodeOptional, EncodeOptional, DecodeProvenance, EncodeProvenance, AttributesOk, TextOk;
    OptionalBack(utf8, bytes, AuthorField);
    var author := DecodeOptional(utf8, bytes, AuthorField).value;
    OptionalBack(utf8, author.rest, MessageField);
    var message := DecodeOptional(utf8, author.rest, MessageField).value;
    ProvenanceBack(utf8, message.rest, DecodeTexts(utf8, head, bytes).value);
  }

  /** Accepted bytes are exactly the encoding of the snapshot they decode to, and that snapshot is well-formed. */
  lemma {:induction false} EncodeOfDecodeSnapshot(utf8: Utf8, bytes: Bytes)
    requires Decode(utf8, bytes).Ok?
    ensures SnapshotOk(utf8, Decode(utf8, bytes).value) && Encode(Decode(utf8, bytes).value) == bytes
  {
    hide DecodeHead, DecodeTexts, EncodeTexts, EncodeIds, AttributesOk, TextOk;
    Unpeel(bytes, |SNAPSHOT_MAGIC|);
    HeadBack(bytes[|SNAPSHOT_MAGIC|..]);
    var head := DecodeHead(bytes[|SNAPSHOT_MAGIC|..]).value;
    TextsBack(utf8, head.value, head.rest);
  }

  /** The loop over the parents. */
  method ReadIds(bytes: Bytes, count: nat) returns (field: Option<Field<seq<Id>>>)
    ensures field == TakeIds(bytes, count)
  {
    hide TakeId, TakeIds;
    var rest, ids := bytes, [];
    var i: nat := 0;
    IdsStart(bytes, count);
    while i < count
      invariant i <= count && IdsJoined(ids, TakeIds(rest, count - i)) == TakeIds(bytes, count)
    {
      IdsNext(ids, rest, count - i);
      var id := TakeId(rest);
      if id.None? {
        return None;
      }
      ids, rest := ids + [id.value.value], id.value.rest;
      i := i + 1;
    }
    IdsEnd(ids, rest);
    field := Some(Field(ids, rest));
  }

  function IdsJoined(ids: seq<Id>, more: Option<Field<seq<Id>>>): (field: Option<Field<seq<Id>>>) {
    if more.None? then None else Some(Field(ids + more.value.value, more.value.rest))
  }

  lemma {:induction false} IdsStart(bytes: Bytes, count: nat)
    ensures IdsJoined([], TakeIds(bytes, count)) == TakeIds(bytes, count)
  {
    hide TakeIds;
    assert TakeIds(bytes, count).Some? ==> [] + TakeIds(bytes, count).value.value == TakeIds(bytes, count).value.value;
  }

  lemma {:induction false} IdsEnd(ids: seq<Id>, rest: Bytes)
    ensures IdsJoined(ids, TakeIds(rest, 0)) == Some(Field(ids, rest))
  {
    assert ids + [] == ids;
  }

  lemma {:induction false} IdsNext(ids: seq<Id>, bytes: Bytes, count: nat)
    requires count > 0
    ensures var first := TakeId(bytes);
      IdsJoined(ids, TakeIds(bytes, count)) ==
        if first.None? then None else IdsJoined(ids + [first.value.value], TakeIds(first.value.rest, count - 1))
  {
    hide TakeId;
    var first := TakeId(bytes);
    if first.Some? {
      var more := TakeIds(first.value.rest, count - 1);
      if more.Some? {
        assert ids + ([first.value.value] + more.value.value) == (ids + [first.value.value]) + more.value.value;
      }
    }
  }

  /** The loop over the attributes, which also checks their order. */
  method ReadAttributes(utf8: Utf8, bytes: Bytes, count: nat) returns (r: Result<Field<seq<Attribute>>, SnapshotError>)
    ensures r == DecodeAttributes(utf8, bytes, count, None)
  {
    hide DecodeAttribute, DecodeAttributes;
    var rest, attributes, previous := bytes, [], None;
    var i: nat := 0;
    AttributesStart(DecodeAttributes(utf8, bytes, count, None));
    while i < count
      invariant i <= count
      invariant AttributesJoined(attributes, DecodeAttributes(utf8, rest, count - i, previous))
             == DecodeAttributes(utf8, bytes, count, None)
    {
      AttributesNext(utf8, attributes, rest, count - i, previous);
      var attribute := DecodeAttribute(utf8, rest, previous);
      if attribute.Err? {
        return Err(attribute.error);
      }
      attributes, rest := attributes + [attribute.value.value], attribute.value.rest;
      previous := Some(attribute.value.value.key);
      i := i + 1;
    }
    AttributesEnd(utf8, attributes, rest, previous);
    r := Ok(Field(attributes, rest));
  }

  function AttributesJoined(attributes: seq<Attribute>, more: Result<Field<seq<Attribute>>, SnapshotError>)
    : (r: Result<Field<seq<Attribute>>, SnapshotError>)
  {
    if more.Err? then more else Ok(Field(attributes + more.value.value, more.value.rest))
  }

  lemma {:induction false} AttributesStart(all: Result<Field<seq<Attribute>>, SnapshotError>)
    ensures AttributesJoined([], all) == all
  {
    assert all.Ok? ==> [] + all.value.value == all.value.value;
  }

  lemma {:induction false} AttributesEnd(utf8: Utf8, attributes: seq<Attribute>, rest: Bytes, previous: Option<Bytes>)
    ensures AttributesJoined(attributes, DecodeAttributes(utf8, rest, 0, previous)) == Ok(Field(attributes, rest))
  {
    assert attributes + [] == attributes;
  }

  lemma {:induction false} AttributesNext(utf8: Utf8, attributes: seq<Attribute>, bytes: Bytes, count: nat,
                                          previous: Option<Bytes>)
    requires count > 0
    ensures var first := DecodeAttribute(utf8, bytes, previous);
      AttributesJoined(attributes, DecodeAttributes(utf8, bytes, count, previous)) ==
        if first.Err? then Err(first.error)
        else AttributesJoined(attributes + [first.value.value],
                              DecodeAttributes(utf8, first.value.rest, count - 1, Some(first.value.value.key)))
  {
    hide DecodeAttribute;
    var first := DecodeAttribute(utf8, bytes, previous);
    if first.Ok? {
      var more := DecodeAttributes(utf8, first.value.rest, count - 1, Some(first.value.value.key));
      if more.Ok? {
        assert attributes + ([first.value.value] + more.value.value)
            == (attributes + [first.value.value]) + more.value.value;
      }
    }
  }

  method ReadHead(bytes: Bytes) returns (head: Option<Field<Head>>)
    ensures head == DecodeHead(bytes)
  {
    hide TakeId, TakeIds, TakeNumber;
    var root := TakeId(bytes);
    if root.None? {
      return None;
    }
    var count := TakeNumber(root.value.rest, 4);
    if count.None? {
      return None;
    }
    var parents := ReadIds(count.value.rest, count.value.value);
    if parents.None? {
      return None;
    }
    var timestamp := TakeNumber(parents.value.rest, 8);
    if timestamp.None? {
      return None;
    }
    head := Some(Field(Head(root.value.value, parents.value.value, timestamp.value.value), timestamp.value.rest));
  }

  method ReadProvenance(utf8: Utf8, bytes: Bytes) returns (r: Result<Provenance, SnapshotError>)
    ensures r == DecodeProvenance(utf8, bytes)
  {
    hide DecodeText, DecodeAttributes, TakeNumber;
    var source := DecodeText(utf8, bytes, SourceField);
    if source.Err? {
      return Err(source.error);
    }
    var count := TakeNumber(source.value.rest, 4);
    if count.None? {
      return Err(UnexpectedEof);
    }
    var attributes := ReadAttributes(utf8, count.value.rest, count.value.value);
    if attributes.Err? {
      return Err(attributes.error);
    }
    if attributes.value.rest != [] {
      return Err(TrailingBytes);
    }
    r := Ok(Provenance(source.value.value, attributes.value.value));
  }

  method FromCanonicalBytes(utf8: Utf8, bytes: Bytes) returns (r: Result<Snapshot, SnapshotError>)
    ensures r == Decode(utf8, bytes)
  {
    hide DecodeHead, DecodeOptional, DecodeProvenance;
    if |bytes| < |SNAPSHOT_MAGIC| || bytes[..|SNAPSHOT_MAGIC|] != SNAPSHOT_MAGIC {
      return Err(InvalidMagic);
    }
    var head := ReadHead(bytes[|SNAPSHOT_MAGIC|..]);
    if head.None? {
      return Err(UnexpectedEof);
    }
    var author := DecodeOptional(utf8, head.value.rest, AuthorField);
    if author.Err? {
      return Err(author.error);
    }
    var message := DecodeOptional(utf8, author.value.rest, MessageField);
    if message.Err? {
      return Err(message.error);
    }
    var provenance := ReadProvenance(utf8, message.value.rest);
    if provenance.Err? {
      return Err(provenance.error);
    }
    r := Ok(Snapshot(head.value.value.root, head.value.value.parents, head.value.value.timestamp, author.value.value,
                     message.value.value, provenance.value.source, provenance.value.attributes));
  }

  lemma {:induction false} IdsAppend(ids: seq<Id>, id: Id)
    ensures EncodeIds(ids + [id]) == EncodeIds(ids) + id
  {
    if ids == [] {
      assert ids + [id] == [id] && [id][1..] == [];
    } else {
      assert (ids + [id])[1..] == ids[1..] + [id];
      IdsAppend(ids[1..], id);
    }
  }

  lemma {:induction false} AttributesAppend(attributes: seq<Attribute>, a: Attribute)
    ensures EncodeAttributes(attributes + [a]) == EncodeAttributes(attributes) + EncodeAttribute(a)
  {
    hide EncodeAttribute;
    if attributes == [] {
      assert attributes + [a] == [a] && [a][1..] == [];
    } else {
      assert (attributes + [a])[1..] == attributes[1..] + [a];
      AttributesAppend(attributes[1..], a);
    }
  }

  /** Appends every parent to the output. */
  method WriteIds(output: Bytes, ids: seq<Id>) returns (longer: Bytes)
    ensures longer == output + EncodeIds(ids)
  {
    longer := output;
    var i: nat := 0;
    assert ids[..0] == [];
    while i < |ids|
      invariant i <= |ids| && longer == output + EncodeIds(ids[..i])
    {
      assert ids[..i + 1] == ids[..i] + [ids[i]];
      IdsAppend(ids[..i], ids[i]);
      longer := longer + ids[i];
      i := i + 1;
    }
    assert ids[..i] == ids;
  }

  method WriteAttributes(output: Bytes, attributes: seq<Attribute>) returns (longer: Bytes)
    ensures longer == output + EncodeAttributes(attributes)
  {
    hide EncodeAttribute;
    longer := output;
    var i: nat := 0;
    assert attributes[..0] == [];
    while i < |attributes|
      invariant i <= |attributes| && longer == output + EncodeAttributes(attributes[..i])
    {
      assert attributes[..i + 1] == attributes[..i] + [attributes[i]];
      AttributesAppend(attributes[..i], attributes[i]);
      longer := longer + EncodeAttribute(attributes[i]);
      i := i + 1;
    }
    assert attributes[..i] == attributes;
  }

  /** The encoder appends field after field. */
  method ToCanonicalBytes(s: Snapshot) returns (output: Bytes)
    ensures output == Encode(s)
  {
    hide EncodeIds, EncodeAttributes, EncodeOptional, EncodeText;
    output := SNAPSHOT_MAGIC + s.root;
    output := output + BigEndian(|s.parents|, 4);
    output := WriteIds(output, s.parents);
    output := output + BigEndian(s.timestamp, 8);
    output := output + EncodeOptional(s.author);
    output := output + EncodeOptional(s.message);
    output := output + EncodeText(s.source);
    output := output + BigEndian(|s.attributes|, 4);
    output := WriteAttributes(output, s.attributes);
  }
}
