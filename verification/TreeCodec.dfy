/** Trees as sorted entries, and their canonical bytes. */
module TreeCodec {
  import opened Wrappers
  import opened Bytes
  import opened ByteFields
  import Workspace
  import BlobDelta

  /** The text "ERA_TREE_V1" and a zero byte. */
  const TREE_MAGIC: Bytes := [69, 82, 65, 95, 84, 82, 69, 69, 95, 86, 49, 0]

  const OBJECT_ID_BYTES: nat := BlobDelta.OBJECT_ID_BYTES

  type Name = Bytes

  datatype EntryKind = BlobEntry | TreeEntry

  datatype Entry = Entry(name: Name, kind: EntryKind, id: BlobDelta.Id)

  datatype InvalidName = Empty | CurrentDirectory | ParentDirectory | ContainsSlash | ContainsNul

  datatype TreeError =
    | InvalidEntryName(name: Name, reason: InvalidName)
    | DuplicateName(name: Name)
    | InvalidMagic
    | UnexpectedEof
    | InvalidEntryKind(index: nat, value: Byte)
    | NameNotUtf8(index: nat)
    | NonCanonicalOrder(previous: Name, current: Name)
    | TrailingBytes

  /** Whether a byte string is UTF-8. */
  type Utf8 = Bytes -> bool

  predicate Contains(s: Bytes, b: Byte) {
    s != [] && (s[0] == b || Contains(s[1..], b))
  }

  function NameFault(name: Name): (fault: Option<InvalidName>) {
    if name == [] then Some(Empty)
    else if name == [46] then Some(CurrentDirectory)
    else if name == [46, 46] then Some(ParentDirectory)
    else if Contains(name, 47) then Some(ContainsSlash)
    else if Contains(name, 0) then Some(ContainsNul)
    else None
  }

  function Tag(kind: EntryKind): (tag: Byte) {
    match kind
    case BlobEntry => 98
    case TreeEntry => 116
  }

  function FromTag(tag: Byte): (kind: Option<EntryKind>) {
    if tag == 98 then Some(BlobEntry) else if tag == 116 then Some(TreeEntry) else None
  }

  ghost predicate EntryOk(utf8: Utf8, e: Entry) {
    utf8(e.name) && NameFault(e.name).None? && |e.name| < U32
  }

  /** Why a name may not follow the previous one: it is not strictly greater. */
  function OrderFault(previous: Option<Name>, name: Name): (fault: Option<TreeError>) {
    if previous.None? then None
    else if previous.value == name then Some(DuplicateName(name))
    else if Workspace.NameLeq(previous.value, name) then None
    else Some(NonCanonicalOrder(previous.value, name))
  }

  /** Valid entries in strictly ascending order of their names. */
  ghost predicate EntriesOk(utf8: Utf8, previous: Option<Name>, entries: seq<Entry>)
    decreases |entries|
  {
    entries == [] || (EntryOk(utf8, entries[0]) && OrderFault(previous, entries[0].name).None?
                      && EntriesOk(utf8, Some(entries[0].name), entries[1..]))
  }

  ghost predicate TreeOk(utf8: Utf8, entries: seq<Entry>) {
    |entries| < U32 && EntriesOk(utf8, None, entries)
  }

  function EncodeEntry(e: Entry): (bytes: Bytes) {
    [Tag(e.kind)] + (EncodeText(e.name) + e.id)
  }

  function EncodeEntries(entries: seq<Entry>): (bytes: Bytes) {
    if entries == [] then [] else EncodeEntry(entries[0]) + EncodeEntries(entries[1..])
  }

  function Encode(entries: seq<Entry>): (bytes: Bytes) {
    TREE_MAGIC + (BigEndian(|entries|, 4) + EncodeEntries(entries))
  }

  /** One entry off the front; `index` counts the entries before it. */
  function DecodeEntry(utf8: Utf8, bytes: Bytes, index: nat, previous: Option<Name>)
    : (r: Result<Field<Entry>, TreeError>)
  {
    if bytes == [] then Err(UnexpectedEof)
    else if FromTag(bytes[0]).None? then Err(InvalidEntryKind(index, bytes[0]))
    else DecodeNamed(utf8, bytes[1..], FromTag(bytes[0]).value, index, previous)
  }

  function DecodeNamed(utf8: Utf8, bytes: Bytes, kind: EntryKind, index: nat, previous: Option<Name>)
    : (r: Result<Field<Entry>, TreeError>)
  {
    var text := TakeText(bytes);
    if text.None? then Err(UnexpectedEof)
    else
      var name := text.value.value;
      if !utf8(name) then Err(NameNotUtf8(index))
      else if NameFault(name).Some? then Err(InvalidEntryName(name, NameFault(name).value))
      else if OrderFault(previous, name).Some? then Err(OrderFault(previous, name).value)
      else if |text.value.rest| < OBJECT_ID_BYTES then Err(UnexpectedEof)
      else
        var id: BlobDelta.Id := text.value.rest[..OBJECT_ID_BYTES];
        Ok(Field(Entry(name, kind, id), text.value.rest[OBJECT_ID_BYTES..]))
  }

  function DecodeEntries(utf8: Utf8, bytes: Bytes, index: nat, count: nat, previous: Option<Name>)
    : (r: Result<Field<seq<Entry>>, TreeError>)
    decreases count
  {
    if count == 0 then Ok(Field([], bytes))
    else
      var first := DecodeEntry(utf8, bytes, index, previous);
      if first.Err? then Err(first.error)
      else
        var e := first.value.value;
        var more := DecodeEntries(utf8, first.value.rest, index + 1, count - 1, Some(e.name));
        if more.Err? then more else Ok(Field([e] + more.value.value, more.value.rest))
  }

  function Decode(utf8: Utf8, bytes: Bytes): (r: Result<seq<Entry>, TreeError>) {
    if |bytes| < |TREE_MAGIC| then Err(UnexpectedEof)
    else if bytes[..|TREE_MAGIC|] != TREE_MAGIC then Err(InvalidMagic)
    else
      var count := TakeNumber(bytes[|TREE_MAGIC|..], 4);
      if count.None? then Err(UnexpectedEof)
      else Finish(DecodeEntries(utf8, count.value.rest, 0, count.value.value, None))
  }

  function Finish(decoded: Result<Field<seq<Entry>>, TreeError>): (r: Result<seq<Entry>, TreeError>) {
    if decoded.Err? then Err(decoded.error)
    else if decoded.value.rest != [] then Err(TrailingBytes)
    else Ok(decoded.value.value)
  }

  lemma {:induction false} EntryRoundTrip(utf8: Utf8, e: Entry, rest: Bytes, index: nat, previous: Option<Name>)
    requires EntryOk(utf8, e) && OrderFault(previous, e.name).None?
    ensures DecodeEntry(utf8, EncodeEntry(e) + rest, index, previous) == Ok(Field(e, rest))
  {
    hide NameFault, OrderFault, EncodeText, TakeText;
    var named := EncodeText(e.name) + (e.id + rest);
    var bytes := EncodeEntry(e) + rest;
    assert bytes == [Tag(e.kind)] + named;
    assert bytes[0] == Tag(e.kind) && bytes[1..] == named;
    TextOf(e.name, e.id + rest);
    Peel(e.id, rest);
  }

  lemma {:induction false} EntriesRoundTrip(utf8: Utf8, entries: seq<Entry>, rest: Bytes, index: nat,
                                            previous: Option<Name>)
    requires EntriesOk(utf8, previous, entries)
    ensures DecodeEntries(utf8, EncodeEntries(entries) + rest, index, |entries|, previous) == Ok(Field(entries, rest))
    decreases |entries|
  {
    hide EntryOk, OrderFault, EncodeEntry, DecodeEntry;
    if entries == [] {
      assert EncodeEntries(entries) + rest == rest;
    } else {
      var e, after := entries[0], EncodeEntries(entries[1..]) + rest;
      assert EncodeEntries(entries) + rest == EncodeEntry(e) + after;
      EntryRoundTrip(utf8, e, after, index, previous);
      EntriesRoundTrip(utf8, entries[1..], rest, index + 1, Some(e.name));
      assert entries == [e] + entries[1..];
    }
  }

  /** Every well-formed tree decodes from its own bytes. */
  lemma {:induction false} DecodeOfEncodeTree(utf8: Utf8, entries: seq<Entry>)
    requires TreeOk(utf8, entries)
    ensures Decode(utf8, Encode(entries)) == Ok(entries)
  {
    hide EntriesOk, EncodeEntries, DecodeEntries;
    Limits();
    var body := EncodeEntries(entries);
    Peel(TREE_MAGIC, BigEndian(|entries|, 4) + body);
    NumberOf(|entries|, 4, body);
    EntriesRoundTrip(utf8, entries, [], 0, None);
    assert body + [] == body;
  }

  lemma {:induction false} EntryBack(utf8: Utf8, bytes: Bytes, index: nat, previous: Option<Name>)
    requires DecodeEntry(utf8, bytes, index, previous).Ok?
    ensures var field := DecodeEntry(utf8, bytes, index, previous).value;
      && EntryOk(utf8, field.value) && OrderFault(previous, field.value.name).None?
      && EncodeEntry(field.value) + field.rest == bytes
  {
    hide NameFault, OrderFault, EncodeText, TakeText;
    TextBack(bytes[1..]);
    var text := TakeText(bytes[1..]).value;
    Unpeel(text.rest, OBJECT_ID_BYTES);
    var field := DecodeEntry(utf8, bytes, index, previous).value;
    assert EncodeEntry(field.value) + field.rest
        == [bytes[0]] + (EncodeText(text.value) + (field.value.id + field.rest));
    assert bytes == [bytes[0]] + bytes[1..];
  }

  lemma {:induction false} EntriesBack(utf8: Utf8, bytes: Bytes, index: nat, count: nat, previous: Option<Name>)
    requires DecodeEntries(utf8, bytes, index, count, previous).Ok?
    ensures var field := DecodeEntries(utf8, bytes, index, count, previous).value;
      && |field.value| == count && EntriesOk(utf8, previous, field.value)
      && EncodeEntries(field.value) + field.rest == bytes
    decreases count
  {
    hide EntryOk, OrderFault, EncodeEntry, DecodeEntry;
    if count > 0 {
      EntryBack(utf8, bytes, index, previous);
      var first := DecodeEntry(utf8, bytes, index, previous).value;
      EntriesBack(utf8, first.rest, index + 1, count - 1, Some(first.value.name));
      var field := DecodeEntries(utf8, bytes, index, count, previous).value;
      assert field.value[1..] == DecodeEntries(utf8, first.rest, index + 1, count - 1,
                                               Some(first.value.name)).value.value;
      assert EncodeEntries(field.value) + field.rest
          == EncodeEntry(first.value) + (EncodeEntries(field.value[1..]) + field.rest);
    }
  }

  /** Accepted bytes are exactly the encoding of the tree they decode to, and that tree is well-formed. */
  lemma {:induction false} EncodeOfDecodeTree(utf8: Utf8, bytes: Bytes)
    requires Decode(utf8, bytes).Ok?
    ensures TreeOk(utf8, Decode(utf8, bytes).value) && Encode(Decode(utf8, bytes).value) == bytes
  {
    hide EntriesOk, EncodeEntries, DecodeEntries;
    Limits();
    Unpeel(bytes, |TREE_MAGIC|);
    var count := TakeNumber(bytes[|TREE_MAGIC|..], 4).value;
    NumberBack(bytes[|TREE_MAGIC|..], 4);
    EntriesBack(utf8, count.rest, 0, count.value, None);
    var entries := Decode(utf8, bytes).value;
    assert EncodeEntries(entries) + [] == EncodeEntries(entries);
  }

  lemma {:induction false} EncodeAppend(entries: seq<Entry>, e: Entry)
    ensures EncodeEntries(entries + [e]) == EncodeEntries(entries) + EncodeEntry(e)
  {
    hide EncodeEntry;
    if entries == [] {
      assert entries + [e] == [e] && [e][1..] == [];
    } else {
      assert (entries + [e])[1..] == entries[1..] + [e];
      EncodeAppend(entries[1..], e);
    }
  }

  method ToCanonicalBytes(entries: seq<Entry>) returns (output: Bytes)
    ensures output == Encode(entries)
  {
    hide EncodeEntries;
    output := TREE_MAGIC;
    output := output + BigEndian(|entries|, 4);
    var i: nat := 0;
    EncodeNothing();
    assert entries[..0] == [];
    while i < |entries|
      invariant i <= |entries| && output == TREE_MAGIC + (BigEndian(|entries|, 4) + EncodeEntries(entries[..i]))
    {
      assert entries[..i + 1] == entries[..i] + [entries[i]];
      EncodeAppend(entries[..i], entries[i]);
      output := output + EncodeEntry(entries[i]);
      i := i + 1;
    }
    assert entries[..i] == entries;
  }

  lemma {:induction false} EncodeNothing()
    ensures EncodeEntries([]) == []
  {
  }

  /** What the loop has read, put in front of what it still reads. */
  function Joined(entries: seq<Entry>, more: Result<Field<seq<Entry>>, TreeError>)
    : (r: Result<Field<seq<Entry>>, TreeError>)
  {
    if more.Err? then more else Ok(Field(entries + more.value.value, more.value.rest))
  }

  lemma {:induction false} JoinedNext(utf8: Utf8, entries: seq<Entry>, bytes: Bytes, index: nat, count: nat,
                                      previous: Option<Name>)
    requires count > 0
    ensures var first := DecodeEntry(utf8, bytes, index, previous);
      Joined(entries, DecodeEntries(utf8, bytes, index, count, previous)) ==
        if first.Err? then Err(first.error)
        else Joined(entries + [first.value.value],
                    DecodeEntries(utf8, first.value.rest, index + 1, count - 1, Some(first.value.value.name)))
  {
    hide DecodeEntry;
    var first := DecodeEntry(utf8, bytes, index, previous);
    if first.Ok? {
      var more := DecodeEntries(utf8, first.value.rest, index + 1, count - 1, Some(first.value.value.name));
      if more.Ok? {
        assert entries + ([first.value.value] + more.value.value) == (entries + [first.value.value]) + more.value.value;
      }
    }
  }

  /** The parser: magic, count, entries one after the other, and nothing after them. */
  method FromCanonicalBytes(utf8: Utf8, bytes: Bytes) returns (r: Result<seq<Entry>, TreeError>)
    ensures r == Decode(utf8, bytes)
  {
    hide DecodeEntry, DecodeEntries;
    if |bytes| < |TREE_MAGIC| {
      return Err(UnexpectedEof);
    }
    if bytes[..|TREE_MAGIC|] != TREE_MAGIC {
      return Err(InvalidMagic);
    }
    var count := TakeNumber(bytes[|TREE_MAGIC|..], 4);
    if count.None? {
      return Err(UnexpectedEof);
    }
    var rest, entries, previous := count.value.rest, [], None;
    var index: nat := 0;
    ghost var all := DecodeEntries(utf8, rest, 0, count.value.value, None);
    JoinedNone(all);
    while index < count.value.value
      invariant index <= count.value.value
      invariant Joined(entries, DecodeEntries(utf8, rest, index, count.value.value - index, previous)) == all
    {
      JoinedNext(utf8, entries, rest, index, count.value.value - index, previous);
      var entry := DecodeEntry(utf8, rest, index, previous);
      if entry.Err? {
        return Err(entry.error);
      }
      entries, rest, previous := entries + [entry.value.value], entry.value.rest, Some(entry.value.value.name);
      index := index + 1;
    }
    NoMore(utf8, entries, rest, index, previous);
    r := if rest != [] then Err(TrailingBytes) else Ok(entries);
  }

  lemma {:induction false} JoinedNone(all: Result<Field<seq<Entry>>, TreeError>)
    ensures Joined([], all) == all
  {
    assert all.Ok? ==> [] + all.value.value == all.value.value;
  }

  lemma {:induction false} NoMore(utf8: Utf8, entries: seq<Entry>, rest: Bytes, index: nat, previous: Option<Name>)
    ensures Joined(entries, DecodeEntries(utf8, rest, index, 0, previous)) == Ok(Field(entries, rest))
  {
    assert entries + [] == entries;
  }
}
