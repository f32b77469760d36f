/** Reading fixed and length-prefixed fields off the front of a byte string. */
module ByteFields {
  import opened Wrappers
  import opened Bytes

  /** A field and the bytes after it. */
  datatype Field<+T> = Field(value: T, rest: Bytes)

  function Take(bytes: Bytes, n: nat): (field: Option<Field<Bytes>>) {
    if n <= |bytes| then Some(Field(bytes[..n], bytes[n..])) else None
  }

  function TakeNumber(bytes: Bytes, width: nat): (field: Option<Field<nat>>) {
    var taken := Take(bytes, width);
    if taken.None? then None else Some(Field(FromBigEndian(taken.value.value), taken.value.rest))
  }

  lemma {:induction false} TakeOf(head: Bytes, rest: Bytes)
    ensures Take(head + rest, |head|) == Some(Field(head, rest))
  {
    Peel(head, rest);
  }

  lemma {:induction false} TakeBack(bytes: Bytes, n: nat)
    requires Take(bytes, n).Some?
    ensures Take(bytes, n).value.value + Take(bytes, n).value.rest == bytes && |Take(bytes, n).value.value| == n
  {
    Unpeel(bytes, n);
  }

  lemma {:induction false} NumberOf(n: nat, width: nat, rest: Bytes)
    requires n < Limit(width)
    ensures TakeNumber(BigEndian(n, width) + rest, width) == Some(Field(n, rest))
  {
    TakeOf(BigEndian(n, width), rest);
    DecodeOfEncode(n, width);
  }

  lemma {:induction false} NumberBack(bytes: Bytes, width: nat)
    requires TakeNumber(bytes, width).Some?
    ensures var field := TakeNumber(bytes, width).value;
      field.value < Limit(width) && BigEndian(field.value, width) + field.rest == bytes
  {
    TakeBack(bytes, width);
    EncodeOfDecode(Take(bytes, width).value.value);
  }

  /** A 32-bit length, then that many bytes. */
  function EncodeText(text: Bytes): (bytes: Bytes) {
    BigEndian(|text|, 4) + text
  }

  function TakeText(bytes: Bytes): (field: Option<Field<Bytes>>) {
    var length := TakeNumber(bytes, 4);
    if length.None? then None else Take(length.value.rest, length.value.value)
  }

  lemma {:induction false} TextOf(text: Bytes, rest: Bytes)
    requires |text| < U32
    ensures TakeText(EncodeText(text) + rest) == Some(Field(text, rest))
  {
    Limits();
    assert EncodeText(text) + rest == BigEndian(|text|, 4) + (text + rest);
    NumberOf(|text|, 4, text + rest);
    TakeOf(text, rest);
  }

  lemma {:induction false} TextBack(bytes: Bytes)
    requires TakeText(bytes).Some?
    ensures |TakeText(bytes).value.value| < U32
    ensures EncodeText(TakeText(bytes).value.value) + TakeText(bytes).value.rest == bytes
  {
    Limits();
    NumberBack(bytes, 4);
    var length := TakeNumber(bytes, 4).value;
    TakeBack(length.rest, length.value);
    var text := TakeText(bytes).value;
    assert EncodeText(text.value) + text.rest == BigEndian(length.value, 4) + (text.value + text.rest);
  }
}
