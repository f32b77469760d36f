/** Which bytes the tree parser refuses, and why. */
module TreeRefusals {
  import opened Wrappers
  import opened Bytes
  import opened ByteFields
  import Workspace
  import opened TreeCodec

  /** A text cut short does not read. */
  lemma {:induction false} TextCut(text: Bytes, rest: Bytes, n: nat)
    requires |text| < U32 && n < |EncodeText(text)|
    ensures TakeText((EncodeText(text) + rest)[..n]).None?
  {
    Limits();
    var length := BigEndian(|text|, 4);
    if n >= 4 {
      var part := text[..n - 4];
      assert (EncodeText(text) + rest)[..n] == length + part;
      NumberOf(|text|, 4, part);
    }
  }

  lemma {:induction false} EntryCut(utf8: Utf8, e: Entry, index: nat, previous: Option<Name>, n: nat)
    requires EntryOk(utf8, e) && OrderFault(previous, e.name).None? && n < |EncodeEntry(e)|
    ensures DecodeEntry(utf8, EncodeEntry(e)[..n], index, previous) == Err(UnexpectedEof)
  {
    hide NameFault, OrderFault, EncodeText, TakeText;
    if n > 0 {
      var bytes, text := EncodeEntry(e)[..n], EncodeText(e.name);
      assert bytes[0] == Tag(e.kind) && bytes[1..] == (text + e.id)[..n - 1];
      if n - 1 < |text| {
        TextCut(e.name, e.id, n - 1);
      } else {
        assert bytes[1..] == text + e.id[..n - 1 - |text|];
        TextOf(e.name, e.id[..n - 1 - |text|]);
      }
    }
  }

  lemma {:induction false} EntriesCut(utf8: Utf8, entries: seq<Entry>, index: nat, previous: Option<Name>, n: nat)
    requires EntriesOk(utf8, previous, entries) && n < |EncodeEntries(entries)|
    ensures DecodeEntries(utf8, EncodeEntries(entries)[..n], index, |entries|, previous) == Err(UnexpectedEof)
    decreases |entries|
  {
    hide EntryOk, OrderFault, EncodeEntry, DecodeEntry;
    var e, more := entries[0], EncodeEntries(entries[1..]);
    var first := EncodeEntry(e);
    if n < |first| {
      assert EncodeEntries(entries)[..n] == first[..n];
      EntryCut(utf8, e, index, previous, n);
    } else {
      assert EncodeEntries(entries)[..n] == first + more[..n - |first|];
      EntryRoundTrip(utf8, e, more[..n - |first|], index, previous);
      EntriesCut(utf8, entries[1..], index + 1, Some(e.name), n - |first|);
    }
  }

  /** A tree's bytes cut short anywhere end too early. */
  lemma {:induction false} TruncatedTree(utf8: Utf8, entries: seq<Entry>, n: nat)
    requires TreeOk(utf8, entries) && n < |Encode(entries)|
    ensures Decode(utf8, Encode(entries)[..n]) == Err(UnexpectedEof)
  {
    hide EntriesOk, EncodeEntries, DecodeEntries;
    Limits();
    var bytes, count, body := Encode(entries)[..n], BigEndian(|entries|, 4), EncodeEntries(entries);
    if 12 <= n {
      assert bytes[..12] == TREE_MAGIC;
      if 16 <= n {
        assert bytes[12..] == count + body[..n - 16];
        NumberOf(|entries|, 4, body[..n - 16]);
        EntriesCut(utf8, entries, 0, None, n - 16);
      }
    }
  }

  lemma {:induction false} NoTrailingInside(utf8: Utf8, bytes: Bytes, index: nat, count: nat, previous: Option<Name>)
    ensures DecodeEntries(utf8, bytes, index, count, previous) != Err(TrailingBytes)
    ensures DecodeEntries(utf8, bytes, index, count, previous) != Err(InvalidMagic)
    decreases count
  {
    hide NameFault, TakeText, Workspace.NameLeq;
    if count > 0 {
      var first := DecodeEntry(utf8, bytes, index, previous);
      if first.Ok? {
        NoTrailingInside(utf8, first.value.rest, index + 1, count - 1, Some(first.value.value.name));
      }
    }
  }

  /** Bytes after a tree are refused, and only where there is a whole tree before them. */
  lemma {:induction false} TrailingExactly(utf8: Utf8, bytes: Bytes)
    ensures Decode(utf8, bytes) == Err(TrailingBytes) <==> exists n :: 0 <= n < |bytes| && Decode(utf8, bytes[..n]).Ok?
  {
    hide Decode;
    if Decode(utf8, bytes) == Err(TrailingBytes) {
      var n := TreeBefore(utf8, bytes);
      assert Decode(utf8, bytes[..n]).Ok?;
    }
    if n :| 0 <= n < |bytes| && Decode(utf8, bytes[..n]).Ok? {
      EncodeOfDecodeTree(utf8, bytes[..n]);
      var entries := Decode(utf8, bytes[..n]).value;
      TrailingTree(utf8, entries, bytes[n..]);
      assert bytes[..n] + bytes[n..] == bytes;
    }
  }

  lemma {:induction false} TrailingTree(utf8: Utf8, entries: seq<Entry>, rest: Bytes)
    requires TreeOk(utf8, entries) && rest != []
    ensures Decode(utf8, Encode(entries) + rest) == Err(TrailingBytes)
  {
    hide EntriesOk, EncodeEntries, DecodeEntries;
    Limits();
    var count, body := BigEndian(|entries|, 4), EncodeEntries(entries);
    assert Encode(entries) + rest == TREE_MAGIC + (count + (body + rest));
    Peel(TREE_MAGIC, count + (body + rest));
    NumberOf(|entries|, 4, body + rest);
    EntriesRoundTrip(utf8, entries, rest, 0, None);
  }

  lemma {:induction false} TreeBefore(utf8: Utf8, bytes: Bytes) returns (n: nat)
    requires Decode(utf8, bytes) == Err(TrailingBytes)
    ensures n < |bytes| && Decode(utf8, bytes[..n]).Ok?
  {
    hide EntriesOk, EncodeEntries, DecodeEntries;
    Limits();
    Unpeel(bytes, 12);
    var count := TakeNumber(bytes[12..], 4).value;
    NumberBack(bytes[12..], 4);
    NoTrailingInside(utf8, count.rest, 0, count.value, None);
    EntriesBack(utf8, count.rest, 0, count.value, None);
    var read := DecodeEntries(utf8, count.rest, 0, count.value, None).value;
    n := |bytes| - |read.rest|;
    assert Encode(read.value) + read.rest == bytes;
    assert bytes[..n] == Encode(read.value);
    DecodeOfEncodeTree(utf8, read.value);
  }

  /** Twelve bytes that are not the magic, and nothing else, are a wrong magic. */
  lemma {:induction false} WrongMagicExactly(utf8: Utf8, bytes: Bytes)
    ensures Decode(utf8, bytes) == Err(InvalidMagic) <==> |bytes| >= 12 && bytes[..12] != TREE_MAGIC
  {
    hide DecodeEntries, TakeNumber;
    if |bytes| >= 12 && TakeNumber(bytes[12..], 4).Some? {
      var count := TakeNumber(bytes[12..], 4).value;
      NoTrailingInside(utf8, count.rest, 0, count.value, None);
    }
  }

  predicate Has(name: Name, c: char) {
    exists i :: 0 <= i < |name| && name[i] == c as int
  }

  lemma {:induction false} ContainsIsHas(name: Name, b: Byte)
    ensures Contains(name, b) <==> exists i :: 0 <= i < |name| && name[i] == b
    decreases |name|
  {
    if name != [] {
      ContainsIsHas(name[1..], b);
      assert forall i :: 0 < i < |name| ==> name[i] == name[1..][i - 1];
      if i :| 0 <= i < |name[1..]| && name[1..][i] == b {
        assert name[i + 1] == b;
      }
    }
  }

  /** The names a tree entry may not have. */
  lemma {:induction false} NameRules(name: Name)
    ensures name == [] ==> NameFault(name) == Some(Empty)
    ensures |name| == 1 && name[0] == '.' as int ==> NameFault(name) == Some(CurrentDirectory)
    ensures |name| == 2 && name[0] == name[1] == '.' as int ==> NameFault(name) == Some(ParentDirectory)
    ensures Has(name, '/') ==> NameFault(name) == Some(ContainsSlash)
    ensures Has(name, '\0') && !Has(name, '/') ==> NameFault(name) == Some(ContainsNul)
    ensures NameFault(name).Some? ==>
              || name == [] || (|name| == 1 && name[0] == '.' as int)
              || (|name| == 2 && name[0] == name[1] == '.' as int) || Has(name, '/') || Has(name, '\0')
  {
    ContainsIsHas(name, 47);
    ContainsIsHas(name, 0);
  }

  /** The first entry that may not stand where it does decides the refusal. */
  lemma {:induction false} FaultyTree(utf8: Utf8, entries: seq<Entry>, k: nat)
    requires k < |entries| < U32 && EntriesOk(utf8, None, entries[..k]) && |entries[k].name| < U32
    ensures var name, r := entries[k].name, Decode(utf8, Encode(entries));
      && (!utf8(name) ==> r == Err(NameNotUtf8(k)))
      && (utf8(name) && NameFault(name).Some? ==> r == Err(InvalidEntryName(name, NameFault(name).value)))
      && (utf8(name) && NameFault(name).None? && k > 0 ==>
            && (name == entries[k - 1].name ==> r == Err(DuplicateName(name)))
            && (!Workspace.NameLeq(entries[k - 1].name, name) ==>
                  r == Err(NonCanonicalOrder(entries[k - 1].name, name))))
  {
    hide EntriesOk, EncodeEntries, DecodeEntries, NameFault, Workspace.NameLeq;
    Limits();
    var e, body := entries[k], EncodeEntries(entries);
    Peel(TREE_MAGIC, BigEndian(|entries|, 4) + body);
    NumberOf(|entries|, 4, body);
    var previous := if k == 0 then None else Some(entries[k - 1].name);
    var after := EncodeEntries(entries[k + 1..]);
    Reached(utf8, entries, k, 0, None);
    assert e.name == entries[k].name;
    Refused(utf8, e, after, k, previous);
    if k > 0 {
      Workspace.NamesAreOrdered();
    }
  }

  lemma {:induction false} Refused(utf8: Utf8, e: Entry, rest: Bytes, index: nat, previous: Option<Name>)
    requires |e.name| < U32
    ensures var r := DecodeEntry(utf8, EncodeEntry(e) + rest, index, previous);
      if !utf8(e.name) then r == Err(NameNotUtf8(index))
      else if NameFault(e.name).Some? then r == Err(InvalidEntryName(e.name, NameFault(e.name).value))
      else OrderFault(previous, e.name).Some? ==> r == Err(OrderFault(previous, e.name).value)
  {
    hide NameFault, OrderFault, EncodeText, TakeText;
    var named := EncodeText(e.name) + (e.id + rest);
    var bytes := EncodeEntry(e) + rest;
    assert bytes == [Tag(e.kind)] + named;
    assert bytes[0] == Tag(e.kind) && bytes[1..] == named;
    TextOf(e.name, e.id + rest);
  }

  /** The parser reads the sound entries and comes to entry `k`. */
  lemma {:induction false} Reached(utf8: Utf8, entries: seq<Entry>, k: nat, index: nat, previous: Option<Name>)
    requires k < |entries| && EntriesOk(utf8, previous, entries[..k])
    ensures var last := if k == 0 then previous else Some(entries[k - 1].name);
      var at := DecodeEntry(utf8, EncodeEntry(entries[k]) + EncodeEntries(entries[k + 1..]), index + k, last);
      at.Err? ==> DecodeEntries(utf8, EncodeEntries(entries), index, |entries|, previous) == Err(at.error)
    decreases k
  {
    hide EntryOk, OrderFault, EncodeEntry, DecodeEntry;
    if k > 0 {
      var e := entries[0];
      assert entries[..k][1..] == entries[1..][..k - 1] && entries[..k][0] == e;
      EntryRoundTrip(utf8, e, EncodeEntries(entries[1..]), index, previous);
      Reached(utf8, entries[1..], k - 1, index + 1, Some(e.name));
      assert entries[1..][k - 1 + 1..] == entries[k + 1..];
    }
  }

  /** A kind byte other than 'b' and 't' is refused where it stands. */
  lemma {:induction false} UnknownKind(utf8: Utf8, entries: seq<Entry>, count: nat, tag: Byte, rest: Bytes)
    requires |entries| < count < U32 && EntriesOk(utf8, None, entries) && tag != 'b' as int && tag != 't' as int
    ensures Decode(utf8, TREE_MAGIC + (BigEndian(count, 4) + (EncodeEntries(entries) + ([tag] + rest))))
         == Err(InvalidEntryKind(|entries|, tag))
  {
    hide EntriesOk, EncodeEntries, DecodeEntries;
    Limits();
    var body := EncodeEntries(entries) + ([tag] + rest);
    Peel(TREE_MAGIC, BigEndian(count, 4) + body);
    NumberOf(count, 4, body);
    RefusedAfter(utf8, entries, [tag] + rest, count, 0, None);
  }

  lemma {:induction false} RefusedAfter(utf8: Utf8, entries: seq<Entry>, rest: Bytes, count: nat, index: nat,
                                        previous: Option<Name>)
    requires |entries| < count && EntriesOk(utf8, previous, entries) && rest != [] && FromTag(rest[0]).None?
    ensures DecodeEntries(utf8, EncodeEntries(entries) + rest, index, count, previous)
         == Err(InvalidEntryKind(index + |entries|, rest[0]))
    decreases |entries|
  {
    hide EntryOk, OrderFault, EncodeEntry, DecodeEntry, FromTag;
    if entries == [] {
      assert EncodeEntries(entries) + rest == rest;
      KindFirst(utf8, rest, index, previous);
    } else {
      var e, more := entries[0], EncodeEntries(entries[1..]) + rest;
      assert EncodeEntries(entries) + rest == EncodeEntry(e) + more;
      EntryRoundTrip(utf8, e, more, index, previous);
      RefusedAfter(utf8, entries[1..], rest, count - 1, index + 1, Some(e.name));
    }
  }

  lemma {:induction false} KindFirst(utf8: Utf8, bytes: Bytes, index: nat, previous: Option<Name>)
    requires bytes != [] && FromTag(bytes[0]).None?
    ensures DecodeEntry(utf8, bytes, index, previous) == Err(InvalidEntryKind(index, bytes[0]))
  {
  }
}
