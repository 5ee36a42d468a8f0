/**
 * The big-endian decoders of book/utils.go, which the instruction handlers
 * use to read their operands out of a method's bytecode.
 */
module Utils {
  import opened Base

  /** The unsigned value of a big-endian byte string (Go's binary.BigEndian). */
  function BigEndian(s: seq<byte>): nat
  {
    if s == [] then 0 else BigEndian(s[..|s| - 1]) * TWO_8 + s[|s| - 1]
  }

  function Pow256(n: nat): (p: nat)
    ensures p >= 1
  {
    if n == 0 then 1 else TWO_8 * Pow256(n - 1)
  }

  /** The n-byte big-endian encoding of v: the inverse of BigEndian. */
  function ToBigEndian(v: nat, n: nat): (s: seq<byte>)
    ensures |s| == n
  {
    if n == 0 then [] else ToBigEndian(v / TWO_8, n - 1) + [v % TWO_8]
  }

  lemma {:induction false} BigEndianBound(s: seq<byte>)
    ensures BigEndian(s) < Pow256(|s|)
  {
    if s != [] {
      BigEndianBound(s[..|s| - 1]);
    }
  }

  /** Decoding an n-byte encoding gives back the value, for every value that fits. */
  lemma {:induction false} BigEndianRoundTrip(v: nat, n: nat)
    requires v < Pow256(n)
    ensures BigEndian(ToBigEndian(v, n)) == v
  {
    if n > 0 {
      var s := ToBigEndian(v, n);
      assert s[..|s| - 1] == ToBigEndian(v / TWO_8, n - 1);
      BigEndianRoundTrip(v / TWO_8, n - 1);
    }
  }

  /** Encoding a decoded string gives back the string. */
  lemma {:induction false} ToBigEndianRoundTrip(s: seq<byte>)
    ensures ToBigEndian(BigEndian(s), |s|) == s
  {
    if s != [] {
      var p := s[..|s| - 1];
      assert BigEndian(s) / TWO_8 == BigEndian(p);
      ToBigEndianRoundTrip(p);
      assert s == p + [s[|s| - 1]];
    }
  }

  lemma BigEndianTwo(a: byte, b: byte)
    ensures BigEndian([a, b]) == a * TWO_8 + b
  {
    assert [a, b][..1] == [a];
    assert [a][..0] == [];
    assert BigEndian([a]) == a;
  }

  /** ParseU8 of utils.go: the byte at index. */
  function ParseU8(bs: seq<byte>, index: int): (r: byte)
    requires 0 <= index < |bs|
    ensures r == BigEndian(bs[index..index + 1])
  {
    assert bs[index..index + 1][..0] == [];
    bs[index]
  }

  /** ParseU16 of utils.go: the big-endian unsigned 16-bit value at index. */
  function ParseU16(bs: seq<byte>, index: int): (r: u16)
    requires 0 <= index && index + 2 <= |bs|
    ensures r == bs[index] * TWO_8 + bs[index + 1]
  {
    var s := bs[index..index + 2];
    BigEndianTwo(s[0], s[1]);
    assert s == [s[0], s[1]];
    BigEndian(s)
  }

  /** Go's int16(x) conversion: the two's-complement reading of 16 bits. */
  function ToInt16(x: u16): int
  {
    if x < 0x8000 then x else x - TWO_16
  }

  /** ParseI16 of utils.go: the same two bytes, read as a signed value. */
  function ParseI16(bs: seq<byte>, index: int): (r: int)
    requires 0 <= index && index + 2 <= |bs|
    ensures -0x8000 <= r < 0x8000
    ensures (r - ParseU16(bs, index)) % TWO_16 == 0
    ensures bs[index] < 0x80 <==> r >= 0
  {
    ToInt16(ParseU16(bs, index))
  }

  /** The signed reading loses nothing: the unsigned value is recovered modulo 2^16. */
  lemma ParseI16Unsigned(bs: seq<byte>, index: int)
    requires 0 <= index && index + 2 <= |bs|
    ensures ParseU16(bs, index) == ParseI16(bs, index) % TWO_16
  {
  }
}
