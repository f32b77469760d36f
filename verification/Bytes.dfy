/** Byte strings and fixed-width big-endian numbers. */
module Bytes {
  type Byte = b: int | 0 <= b < 256

  type Bytes = seq<Byte>

  const U32: nat := 0x1_0000_0000
  const U64: nat := 0x1_0000_0000_0000_0000

  /** The number of values of `width` bytes. */
  function Limit(width: nat): (limit: nat)
    ensures limit > 0
  {
    if width == 0 then 1 else 256 * Limit(width - 1)
  }

  lemma {:induction false} Limits()
    ensures Limit(4) == U32 && Limit(8) == U64
  {
    assert Limit(2) == 0x1_0000 && Limit(4) == 0x1_0000 * 0x1_0000;
    assert Limit(6) == 0x1_0000 * Limit(4) && Limit(8) == 0x1_0000 * Limit(6);
  }

  function BigEndian(n: nat, width: nat): (bytes: Bytes)
    ensures |bytes| == width
  {
    if width == 0 then [] else BigEndian(n / 256, width - 1) + [n % 256]
  }

  function FromBigEndian(bytes: Bytes): (n: nat)
    ensures n < Limit(|bytes|)
  {
    if bytes == [] then 0 else FromBigEndian(bytes[..|bytes| - 1]) * 256 + bytes[|bytes| - 1]
  }

  lemma {:induction false} DecodeOfEncode(n: nat, width: nat)
    requires n < Limit(width)
    ensures FromBigEndian(BigEndian(n, width)) == n
    decreases width
  {
    if width > 0 {
      DecodeOfEncode(n / 256, width - 1);
      assert BigEndian(n, width)[..width - 1] == BigEndian(n / 256, width - 1);
    }
  }

  lemma {:induction false} EncodeOfDecode(bytes: Bytes)
    ensures BigEndian(FromBigEndian(bytes), |bytes|) == bytes
    decreases |bytes|
  {
    if bytes != [] {
      EncodeOfDecode(bytes[..|bytes| - 1]);
    }
  }

  /** Reading a prefix of known length off a concatenation. */
  lemma {:induction false} Peel(head: Bytes, rest: Bytes)
    ensures (head + rest)[..|head|] == head && (head + rest)[|head|..] == rest
  {
  }

  lemma {:induction false} Unpeel(bytes: Bytes, n: nat)
    requires n <= |bytes|
    ensures bytes[..n] + bytes[n..] == bytes
  {
  }
}
