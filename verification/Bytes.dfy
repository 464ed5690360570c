// Bytes, 32-bit words and the big-endian form in which session keys and
// pickles carry them.
module Bytes {

  const MODULUS: nat := 0x1_0000_0000

  type uint32 = x: int | 0 <= x < 0x1_0000_0000

  type byte = x: int | 0 <= x < 256

  type Data = seq<byte>

  function BigEndian(c: uint32): (b: Data)
    ensures |b| == 4
  {
    [c / 0x100_0000, c / 0x1_0000 % 256, c / 0x100 % 256, c % 256]
  }

  function FromBigEndian(b: Data): (c: uint32)
    requires |b| == 4
  {
    var b0: int, b1: int, b2: int, b3: int := b[0], b[1], b[2], b[3];
    b0 * 0x100_0000 + b1 * 0x1_0000 + b2 * 0x100 + b3
  }

  lemma BigEndianRoundTrip(c: uint32, b: Data)
    requires |b| == 4
    ensures FromBigEndian(BigEndian(c)) == c
    ensures BigEndian(FromBigEndian(b)) == b
  {
    hide BigEndian, FromBigEndian;
    FromBigEndianOfBigEndian(c);
    BigEndianOfFromBigEndian(b);
  }

  lemma FromBigEndianOfBigEndian(c: uint32)
    ensures FromBigEndian(BigEndian(c)) == c
  {
    var c1, c2 := c / 0x100, c / 0x1_0000;
    assert c == c1 * 0x100 + c % 0x100;
    assert c1 == c2 * 0x100 + c1 % 0x100;
    assert c2 == c / 0x100_0000 * 0x100 + c2 % 0x100;
  }

  lemma BigEndianOfFromBigEndian(b: Data)
    requires |b| == 4
    ensures BigEndian(FromBigEndian(b)) == b
  {
    var x: int := FromBigEndian(b);
    var b0: int, b1: int, b2: int, b3: int := b[0], b[1], b[2], b[3];
    Digit(b0 * 0x1_0000 + b1 * 0x100 + b2, b3, x);
    Digit(b0 * 0x100 + b1, b2, x / 0x100);
    Digit(b0, b1, x / 0x1_0000);
  }

  lemma Digit(q: nat, r: nat, x: nat)
    requires x == q * 256 + r && r < 256
    ensures x / 256 == q && x % 256 == r && x / 0x1_0000 == q / 256
  {
  }
}
