// Bytes and 32-bit little-endian fields, as the packed structs of the wire formats
// lay them out.
module LittleEndian {
  newtype Byte = x: int | 0 <= x < 256

  const UINT32_RANGE: nat := 0x1_0000_0000

  // A 32-bit little-endian field.
  function EncodeUint32(n: nat): (s: seq<Byte>)
    requires n < UINT32_RANGE
    ensures |s| == 4
  {
    [(n % 256) as Byte, (n / 256 % 256) as Byte, (n / 65536 % 256) as Byte, (n / 16777216) as Byte]
  }

  function DecodeUint32(s: seq<Byte>): (n: nat)
    requires |s| == 4
    ensures n < UINT32_RANGE
  {
    s[0] as int + 256 * s[1] as int + 65536 * s[2] as int + 16777216 * s[3] as int
  }

  lemma {:induction false} Uint32RoundTrip(n: nat)
    requires n < UINT32_RANGE
    ensures DecodeUint32(EncodeUint32(n)) == n
  {
    var a, b := n / 256, n / 65536;
    assert n == 256 * a + n % 256;
    assert b == a / 256 && a == 256 * b + a % 256;
    assert n / 16777216 == b / 256 && b == 256 * (b / 256) + b % 256;
  }

  // The low byte comes first, and each one after it weighs 256 times as much.
  lemma LowByteFirst(a: Byte, b: Byte, c: Byte, d: Byte)
    ensures DecodeUint32([a, 0, 0, 0]) == a as int
    ensures DecodeUint32([a, b, c, d]) == a as int + 256 * DecodeUint32([b, c, d, 0])
  {
  }
}
