// A byte as a number, for the records, and as eight bits, for the cipher and
// the encoding.
module Octets {
  import opened Bytes

  function BitIf(on: bool, mask: bv8): (b: bv8) {
    if on then mask else 0
  }

  function FromBools(b0: bool, b1: bool, b2: bool, b3: bool, b4: bool, b5: bool, b6: bool, b7: bool): (b: bv8) {
    BitIf(b0, 1) | BitIf(b1, 2) | BitIf(b2, 4) | BitIf(b3, 8) | BitIf(b4, 16) | BitIf(b5, 32)
    | BitIf(b6, 64) | BitIf(b7, 128)
  }

  predicate HasBit(b: bv8, mask: bv8) {
    b & mask != 0
  }

  function Weight(on: bool): (x: byte) {
    if on then 1 else 0
  }

  /** From the lowest bit up. */
  function Sum(b0: bool, b1: bool, b2: bool, b3: bool, b4: bool, b5: bool, b6: bool, b7: bool): (x: byte) {
    Weight(b0) + 2 * (Weight(b1) + 2 * (Weight(b2) + 2 * (Weight(b3)
    + 2 * (Weight(b4) + 2 * (Weight(b5) + 2 * (Weight(b6) + 2 * Weight(b7)))))))
  }

  predicate Odd(x: nat) {
    x % 2 == 1
  }

  function Half(x: nat): (h: nat) {
    x / 2
  }

  function ToBits(x: byte): (b: bv8) {
    var x1 := Half(x);
    var x2 := Half(x1);
    var x3 := Half(x2);
    var x4 := Half(x3);
    var x5 := Half(x4);
    var x6 := Half(x5);
    FromBools(Odd(x), Odd(x1), Odd(x2), Odd(x3), Odd(x4), Odd(x5), Odd(x6), Odd(Half(x6)))
  }

  function FromBits(b: bv8): (x: byte) {
    Sum(HasBit(b, 1), HasBit(b, 2), HasBit(b, 4), HasBit(b, 8), HasBit(b, 16), HasBit(b, 32), HasBit(b, 64),
        HasBit(b, 128))
  }

  lemma BoolsBack(b0: bool, b1: bool, b2: bool, b3: bool, b4: bool, b5: bool, b6: bool, b7: bool)
    ensures var b := FromBools(b0, b1, b2, b3, b4, b5, b6, b7);
      && HasBit(b, 1) == b0 && HasBit(b, 2) == b1 && HasBit(b, 4) == b2 && HasBit(b, 8) == b3
      && HasBit(b, 16) == b4 && HasBit(b, 32) == b5 && HasBit(b, 64) == b6 && HasBit(b, 128) == b7
  {
  }

  lemma Halves(x: nat)
    ensures x == Weight(Odd(x)) + 2 * Half(x)
  {
  }

  lemma SumOfBools(b0: bool, b1: bool, b2: bool, b3: bool, b4: bool, b5: bool, b6: bool, b7: bool)
    ensures FromBits(FromBools(b0, b1, b2, b3, b4, b5, b6, b7)) == Sum(b0, b1, b2, b3, b4, b5, b6, b7)
  {
    hide FromBools, HasBit, Sum;
    BoolsBack(b0, b1, b2, b3, b4, b5, b6, b7);
  }

  lemma SumOfHalves(x: byte)
    ensures var x1 := Half(x); var x2 := Half(x1); var x3 := Half(x2); var x4 := Half(x3);
      var x5 := Half(x4); var x6 := Half(x5);
      Sum(Odd(x), Odd(x1), Odd(x2), Odd(x3), Odd(x4), Odd(x5), Odd(x6), Odd(Half(x6))) == x
  {
    hide Odd, Half;
    var x1 := Half(x);
    var x2 := Half(x1);
    var x3 := Half(x2);
    var x4 := Half(x3);
    var x5 := Half(x4);
    var x6 := Half(x5);
    Halves(x);
    Halves(x1);
    Halves(x2);
    Halves(x3);
    Halves(x4);
    Halves(x5);
    Halves(x6);
    Halves(Half(x6));
  }

  lemma SameByte(x: byte)
    ensures FromBits(ToBits(x)) == x
  {
    hide FromBools, FromBits, Sum, Odd, Half;
    var x1 := Half(x);
    var x2 := Half(x1);
    var x3 := Half(x2);
    var x4 := Half(x3);
    var x5 := Half(x4);
    var x6 := Half(x5);
    SumOfBools(Odd(x), Odd(x1), Odd(x2), Odd(x3), Odd(x4), Odd(x5), Odd(x6), Odd(Half(x6)));
    SumOfHalves(x);
  }
}
