// The S-box circuit computes what FIPS 197 section 5.1.1 defines: the affine
// image of the inverse in GF(2^8), with 0 in the place of an inverse of 0.
module Field {
  import opened Sbox
  import opened Aes
  import opened Bitslice

  // ------------------------------------------------------------------
  // Multiplication (section 4.2)
  // ------------------------------------------------------------------

  function Scaled(bit: bool, b: Byte): (c: Byte) {
    if bit then b else 0
  }

  /** The product, bit by bit from the highest bit of a. */
  function Times(a: Byte, b: Byte): (c: Byte) {
    var s6 := Add(Xtime(Scaled(BitOf(a, 7) == Word(1), b)), Scaled(BitOf(a, 6) == Word(1), b));
    var s5 := Add(Xtime(s6), Scaled(BitOf(a, 5) == Word(1), b));
    var s4 := Add(Xtime(s5), Scaled(BitOf(a, 4) == Word(1), b));
    var s3 := Add(Xtime(s4), Scaled(BitOf(a, 3) == Word(1), b));
    var s2 := Add(Xtime(s3), Scaled(BitOf(a, 2) == Word(1), b));
    var s1 := Add(Xtime(s2), Scaled(BitOf(a, 1) == Word(1), b));
    Add(Xtime(s1), Scaled(BitOf(a, 0) == Word(1), b))
  }

  /** The affine step: each bit is added to four others and to the constant {63}. */
  function Affine(b: Byte): (c: Byte) {
    b ^ ((b << 1) | (b >> 7)) ^ ((b << 2) | (b >> 6)) ^ ((b << 3) | (b >> 5)) ^ ((b << 4) | (b >> 4)) ^ 0x63
  }

  function Scale(x: Word, r: Octet): (s: Octet) {
    Octet(And(x, r.w0), And(x, r.w1), And(x, r.w2), And(x, r.w3), And(x, r.w4), And(x, r.w5), And(x, r.w6),
          And(x, r.w7))
  }

  /** The same product on bitsliced bytes. */
  function TimesOctet(q: Octet, r: Octet): (s: Octet) {
    var s6 := AddOctet(Double(Scale(q.w7, r)), Scale(q.w6, r));
    var s5 := AddOctet(Double(s6), Scale(q.w5, r));
    var s4 := AddOctet(Double(s5), Scale(q.w4, r));
    var s3 := AddOctet(Double(s4), Scale(q.w3, r));
    var s2 := AddOctet(Double(s3), Scale(q.w2, r));
    var s1 := AddOctet(Double(s2), Scale(q.w1, r));
    AddOctet(Double(s1), Scale(q.w0, r))
  }

  // ------------------------------------------------------------------
  // The circuit inverts: all 256 bytes, a quarter of them at a time
  // ------------------------------------------------------------------

  predicate NoBits(q: Octet, p: bv6) {
    && !Bit(q.w0, p) && !Bit(q.w1, p) && !Bit(q.w2, p) && !Bit(q.w3, p)
    && !Bit(q.w4, p) && !Bit(q.w5, p) && !Bit(q.w6, p) && !Bit(q.w7, p)
  }

  /** The byte at position p is 1 or 0. */
  predicate IsUnit(t: Octet, p: bv6, one: bool) {
    && Bit(t.w0, p) == one && !Bit(t.w1, p) && !Bit(t.w2, p) && !Bit(t.w3, p)
    && !Bit(t.w4, p) && !Bit(t.w5, p) && !Bit(t.w6, p) && !Bit(t.w7, p)
  }

  lemma Product11(q: Octet, r: Octet, t: Octet, p: bv6)
    requires r == Unaffine(Substitute(q)) && t == TimesOctet(q, r) && Bit(q.w0, p) && Bit(q.w1, p)
    ensures IsUnit(t, p, !NoBits(q, p))
  {
    hide Bit, Xor, And, Not, Pick;
    Bitwise(p);
  }

  lemma Product10(q: Octet, r: Octet, t: Octet, p: bv6)
    requires r == Unaffine(Substitute(q)) && t == TimesOctet(q, r) && Bit(q.w0, p) && !Bit(q.w1, p)
    ensures IsUnit(t, p, !NoBits(q, p))
  {
    hide Bit, Xor, And, Not, Pick;
    Bitwise(p);
  }

  lemma Product01(q: Octet, r: Octet, t: Octet, p: bv6)
    requires r == Unaffine(Substitute(q)) && t == TimesOctet(q, r) && !Bit(q.w0, p) && Bit(q.w1, p)
    ensures IsUnit(t, p, !NoBits(q, p))
  {
    hide Bit, Xor, And, Not, Pick;
    Bitwise(p);
  }

  lemma Product00(q: Octet, r: Octet, t: Octet, p: bv6)
    requires r == Unaffine(Substitute(q)) && t == TimesOctet(q, r) && !Bit(q.w0, p) && !Bit(q.w1, p)
    ensures IsUnit(t, p, !NoBits(q, p))
  {
    hide Bit, Xor, And, Not, Pick;
    Bitwise(p);
  }

  lemma ProductBits(q: Octet, p: bv6)
    ensures IsUnit(TimesOctet(q, Unaffine(Substitute(q))), p, !NoBits(q, p))
  {
    hide Substitute, Unaffine, TimesOctet, Bit, IsUnit, NoBits;
    var r := Unaffine(Substitute(q));
    var t := TimesOctet(q, r);
    if Bit(q.w0, p) {
      if Bit(q.w1, p) { Product11(q, r, t, p); } else { Product10(q, r, t, p); }
    } else {
      if Bit(q.w1, p) { Product01(q, r, t, p); } else { Product00(q, r, t, p); }
    }
  }

  // Nothing else gives 1: again all 256 bytes, an eighth of them at a time.

  lemma Unique000(q: Octet, r: Octet, s: Octet, t: Octet, p: bv6)
    requires s == Unaffine(Substitute(q)) && t == TimesOctet(q, r)
    requires IsUnit(t, p, true) && !Bit(q.w0, p) && !Bit(q.w1, p) && !Bit(q.w2, p)
    ensures SameBits(r, s, p)
  {
    hide Bit, Xor, And, Not, Pick;
    Bitwise(p);
  }

  lemma Unique001(q: Octet, r: Octet, s: Octet, t: Octet, p: bv6)
    requires s == Unaffine(Substitute(q)) && t == TimesOctet(q, r)
    requires IsUnit(t, p, true) && !Bit(q.w0, p) && !Bit(q.w1, p) && Bit(q.w2, p)
    ensures SameBits(r, s, p)
  {
    hide Bit, Xor, And, Not, Pick;
    Bitwise(p);
  }

  lemma Unique010(q: Octet, r: Octet, s: Octet, t: Octet, p: bv6)
    requires s == Unaffine(Substitute(q)) && t == TimesOctet(q, r)
    requires IsUnit(t, p, true) && !Bit(q.w0, p) && Bit(q.w1, p) && !Bit(q.w2, p)
    ensures SameBits(r, s, p)
  {
    hide Bit, Xor, And, Not, Pick;
    Bitwise(p);
  }

  lemma Unique011(q: Octet, r: Octet, s: Octet, t: Octet, p: bv6)
    requires s == Unaffine(Substitute(q)) && t == TimesOctet(q, r)
    requires IsUnit(t, p, true) && !Bit(q.w0, p) && Bit(q.w1, p) && Bit(q.w2, p)
    ensures SameBits(r, s, p)
  {
    hide Bit, Xor, And, Not, Pick;
    Bitwise(p);
  }

  lemma Unique100(q: Octet, r: Octet, s: Octet, t: Octet, p: bv6)
    requires s == Unaffine(Substitute(q)) && t == TimesOctet(q, r)
    requires IsUnit(t, p, true) && Bit(q.w0, p) && !Bit(q.w1, p) && !Bit(q.w2, p)
    ensures SameBits(r, s, p)
  {
    hide Bit, Xor, And, Not, Pick;
    Bitwise(p);
  }

  lemma Unique101(q: Octet, r: Octet, s: Octet, t: Octet, p: bv6)
    requires s == Unaffine(Substitute(q)) && t == TimesOctet(q, r)
    requires IsUnit(t, p, true) && Bit(q.w0, p) && !Bit(q.w1, p) && Bit(q.w2, p)
    ensures SameBits(r, s, p)
  {
    hide Bit, Xor, And, Not, Pick;
    Bitwise(p);
  }

  lemma Unique110(q: Octet, r: Octet, s: Octet, t: Octet, p: bv6)
    requires s == Unaffine(Substitute(q)) && t == TimesOctet(q, r)
    requires IsUnit(t, p, true) && Bit(q.w0, p) && Bit(q.w1, p) && !Bit(q.w2, p)
    ensures SameBits(r, s, p)
  {
    hide Bit, Xor, And, Not, Pick;
    Bitwise(p);
  }

  lemma Unique111(q: Octet, r: Octet, s: Octet, t: Octet, p: bv6)
    requires s == Unaffine(Substitute(q)) && t == TimesOctet(q, r)
    requires IsUnit(t, p, true) && Bit(q.w0, p) && Bit(q.w1, p) && Bit(q.w2, p)
    ensures SameBits(r, s, p)
  {
    hide Bit, Xor, And, Not, Pick;
    Bitwise(p);
  }

  lemma FactorBits(q: Octet, r: Octet, p: bv6)
    requires IsUnit(TimesOctet(q, r), p, true)
    ensures SameBits(r, Unaffine(Substitute(q)), p)
  {
    hide Substitute, Unaffine, TimesOctet, Bit, IsUnit, SameBits;
    var s := Unaffine(Substitute(q));
    var t := TimesOctet(q, r);
    match (Bit(q.w0, p), Bit(q.w1, p), Bit(q.w2, p)) {
      case (true, true, true) => Unique111(q, r, s, t, p);
      case (true, true, false) => Unique110(q, r, s, t, p);
      case (true, false, true) => Unique101(q, r, s, t, p);
      case (true, false, false) => Unique100(q, r, s, t, p);
      case (false, true, true) => Unique011(q, r, s, t, p);
      case (false, true, false) => Unique010(q, r, s, t, p);
      case (false, false, true) => Unique001(q, r, s, t, p);
      case (false, false, false) => Unique000(q, r, s, t, p);
    }
  }

  // ------------------------------------------------------------------
  // From bits to bytes
  // ------------------------------------------------------------------

  lemma ScaleByte(x: Word, r: Octet)
    requires Single(x)
    ensures ByteOf(Scale(x, r)) == Scaled(x == Word(1), ByteOf(r))
  {
  }

  lemma PickScale(x: Word, r: Octet, p: bv6)
    ensures PickAll(Scale(x, r), p) == Scale(Pick(x, p), PickAll(r, p))
  {
    hide Pick, And;
    Pickwise(p);
  }

  lemma AtScale(x: Word, r: Octet, p: bv6)
    ensures At(Scale(x, r), p) == Scaled(Pick(x, p) == Word(1), At(r, p))
  {
    hide Pick, Scale, PickAll, ByteOf, Single, Scaled;
    PickScale(x, r, p);
    PickIsSingle(x, p);
    ScaleByte(Pick(x, p), PickAll(r, p));
  }

  lemma AtTimes(a: Byte, r: Octet)
    ensures At(TimesOctet(Spread(a), r), 0) == Times(a, At(r, 0))
  {
    hide At, AddOctet, Add, Double, Xtime, Scale, Scaled, BitOf, Pick;
    var q := Spread(a);
    SpreadPicks(a);
    var s6 := AddOctet(Double(Scale(q.w7, r)), Scale(q.w6, r));
    var s5 := AddOctet(Double(s6), Scale(q.w5, r));
    var s4 := AddOctet(Double(s5), Scale(q.w4, r));
    var s3 := AddOctet(Double(s4), Scale(q.w3, r));
    var s2 := AddOctet(Double(s3), Scale(q.w2, r));
    var s1 := AddOctet(Double(s2), Scale(q.w1, r));
    AtScale(q.w7, r, 0);
    AtHorner(Scale(q.w7, r), q.w6, r);
    AtHorner(s6, q.w5, r);
    AtHorner(s5, q.w4, r);
    AtHorner(s4, q.w3, r);
    AtHorner(s3, q.w2, r);
    AtHorner(s2, q.w1, r);
    AtHorner(s1, q.w0, r);
  }

  lemma AtHorner(s: Octet, x: Word, r: Octet)
    ensures At(AddOctet(Double(s), Scale(x, r)), 0) == Add(Xtime(At(s, 0)), Scaled(Pick(x, 0) == Word(1), At(r, 0)))
  {
    hide *;
    AtAdd(Double(s), Scale(x, r), 0);
    AtDouble(s, 0);
    AtScale(x, r, 0);
  }

  lemma SpreadPicks(a: Byte)
    ensures var q := Spread(a);
      && Pick(q.w0, 0) == BitOf(a, 0) && Pick(q.w1, 0) == BitOf(a, 1) && Pick(q.w2, 0) == BitOf(a, 2)
      && Pick(q.w3, 0) == BitOf(a, 3)
      && Pick(q.w4, 0) == BitOf(a, 4) && Pick(q.w5, 0) == BitOf(a, 5) && Pick(q.w6, 0) == BitOf(a, 6)
      && Pick(q.w7, 0) == BitOf(a, 7)
  {
  }

  lemma UnitByte(t: Octet, one: bool)
    ensures IsUnit(t, 0, one) <==> At(t, 0) == if one then 1 else 0
  {
  }

  lemma SameBitsSameByte(q: Octet, r: Octet)
    requires SameBits(q, r, 0)
    ensures At(q, 0) == At(r, 0)
  {
    hide Pick, Bit, ByteOf;
    BitIsPick(q.w0, r.w0, 0);
    BitIsPick(q.w1, r.w1, 0);
    BitIsPick(q.w2, r.w2, 0);
    BitIsPick(q.w3, r.w3, 0);
    BitIsPick(q.w4, r.w4, 0);
    BitIsPick(q.w5, r.w5, 0);
    BitIsPick(q.w6, r.w6, 0);
    BitIsPick(q.w7, r.w7, 0);
  }

  lemma NoBitsIsZero(a: Byte)
    ensures NoBits(Spread(a), 0) <==> a == 0
  {
  }

  /** The byte whose affine image the S-box gives. */
  function Inverse(b: Byte): (c: Byte) {
    At(Unaffine(Substitute(Spread(b))), 0)
  }

  /** It is the inverse of every byte that has one. */
  lemma InverseIsInverse(b: Byte)
    ensures Times(b, Inverse(b)) == if b == 0 then 0 else 1
  {
    hide Substitute, Unaffine, TimesOctet, Times, At, Spread, IsUnit, NoBits;
    var q := Spread(b);
    ProductBits(q, 0);
    AtTimes(b, Unaffine(Substitute(q)));
    UnitByte(TimesOctet(q, Unaffine(Substitute(q))), !NoBits(q, 0));
    NoBitsIsZero(b);
  }

  /** And the only one. */
  lemma InverseIsUnique(b: Byte, c: Byte)
    ensures Times(b, c) == 1 <==> b != 0 && c == Inverse(b)
  {
    hide Substitute, Unaffine, TimesOctet, Times, At, Spread, IsUnit, SameBits;
    InverseIsInverse(b);
    AtTimes(b, Spread(c));
    SpreadAt(c);
    UnitByte(TimesOctet(Spread(b), Spread(c)), true);
    if Times(b, c) == 1 {
      FactorBits(Spread(b), Spread(c), 0);
      SameBitsSameByte(Spread(c), Unaffine(Substitute(Spread(b))));
      ZeroTimes(c);
    }
  }

  lemma ZeroTimes(c: Byte)
    ensures Times(0, c) == 0
  {
  }

  lemma UnaffineIsLocal(q: Octet, p: bv6, r: Octet, o: bv6)
    requires PickAll(q, p) == PickAll(r, o)
    ensures PickAll(Unaffine(q), p) == PickAll(Unaffine(r), o)
  {
    hide Pick, Xor, Not, Flip;
    Pickwise(p);
    Pickwise(o);
  }

  /** The affine step undone, on a byte. */
  function UnaffineByte(b: Byte): (c: Byte) {
    At(Unaffine(Spread(b)), 0)
  }

  function InvAffine(b: Byte): (c: Byte) {
    ((b << 1) | (b >> 7)) ^ ((b << 3) | (b >> 5)) ^ ((b << 6) | (b >> 2)) ^ 0x05
  }

  lemma InvAffineUndone(b: Byte)
    ensures Affine(InvAffine(b)) == b
  {
  }

  lemma LowXor3(x: Word, y: Word, z: Word)
    ensures LowBit(Xor3(x, y, z)) == LowBit(x) ^ LowBit(y) ^ LowBit(z)
  {
  }

  lemma LowNot(x: Word)
    ensures LowBit(Not(x)) == 1 ^ LowBit(x)
  {
  }

  lemma LowBitOf(b: Byte, j: bv3)
    ensures LowBit(BitOf(b, j)) == (b >> j) & 1
  {
  }

  lemma LowPick(x: Word)
    ensures LowBit(Pick(x, 0)) == LowBit(x)
  {
  }

  lemma AtZero(q: Octet)
    ensures At(q, 0) == ByteOf(q)
  {
    hide LowBit, Pick;
    LowPick(q.w0);
    LowPick(q.w1);
    LowPick(q.w2);
    LowPick(q.w3);
    LowPick(q.w4);
    LowPick(q.w5);
    LowPick(q.w6);
    LowPick(q.w7);
  }

  /** The affine step undone, with b given by its bits. */
  lemma InvAffineBits(b: Byte, b0: Byte, b1: Byte, b2: Byte, b3: Byte, b4: Byte, b5: Byte, b6: Byte, b7: Byte)
    requires b0 == (b >> 0) & 1 && b1 == (b >> 1) & 1 && b2 == (b >> 2) & 1 && b3 == (b >> 3) & 1
    requires b4 == (b >> 4) & 1 && b5 == (b >> 5) & 1 && b6 == (b >> 6) & 1 && b7 == (b >> 7) & 1
    ensures (b2 ^ (1 ^ b5) ^ b7) | ((b3 ^ (1 ^ b6) ^ (1 ^ b0)) << 1) | ((b4 ^ b7 ^ (1 ^ b1)) << 2)
          | (((1 ^ b5) ^ (1 ^ b0) ^ b2) << 3) | (((1 ^ b6) ^ (1 ^ b1) ^ b3) << 4) | ((b7 ^ b2 ^ b4) << 5)
          | (((1 ^ b0) ^ b3 ^ (1 ^ b5)) << 6) | (((1 ^ b1) ^ b4 ^ (1 ^ b6)) << 7)
         == InvAffine(b)
  {
  }

  lemma UnaffineIs(b: Byte)
    ensures UnaffineByte(b) == InvAffine(b)
  {
    hide LowBit, Xor3, Not, BitOf, At, InvAffine;
    var q := Spread(b);
    var q0, q1, q5, q6 := Not(q.w0), Not(q.w1), Not(q.w5), Not(q.w6);
    AtZero(Unaffine(q));
    LowNot(q.w0);
    LowNot(q.w1);
    LowNot(q.w5);
    LowNot(q.w6);
    LowXor3(q.w2, q5, q.w7);
    LowXor3(q.w3, q6, q0);
    LowXor3(q.w4, q.w7, q1);
    LowXor3(q5, q0, q.w2);
    LowXor3(q6, q1, q.w3);
    LowXor3(q.w7, q.w2, q.w4);
    LowXor3(q0, q.w3, q5);
    LowXor3(q1, q.w4, q6);
    LowBitOf(b, 0);
    LowBitOf(b, 1);
    LowBitOf(b, 2);
    LowBitOf(b, 3);
    LowBitOf(b, 4);
    LowBitOf(b, 5);
    LowBitOf(b, 6);
    LowBitOf(b, 7);
    InvAffineBits(b, LowBit(q.w0), LowBit(q.w1), LowBit(q.w2), LowBit(q.w3),
                  LowBit(q.w4), LowBit(q.w5), LowBit(q.w6), LowBit(q.w7));
  }

  lemma UnaffineUndone(b: Byte)
    ensures Affine(UnaffineByte(b)) == b
  {
    hide UnaffineByte, InvAffine, Affine;
    UnaffineIs(b);
    InvAffineUndone(b);
  }

  lemma ZeroBits(q: Octet)
    requires NoBits(q, 0)
    ensures NoBits(Unaffine(Substitute(q)), 0)
  {
  }

  lemma NoBitsByte(q: Octet)
    requires NoBits(q, 0)
    ensures At(q, 0) == 0
  {
  }

  /** The S-box of FIPS 197: the affine image of the inverse of b, or of 0 when b is 0. */
  lemma SubByteIsAffineInverse(b: Byte)
    ensures SubByte(b) == Affine(Inverse(b))
    ensures if b == 0 then Inverse(b) == 0 else forall c :: Times(b, c) == 1 <==> c == Inverse(b)
  {
    hide Substitute, Unaffine, Affine, PickAll, ByteOf, Spread, Times, NoBits;
    var s := Substitute(Spread(b));
    AtDetermines(s, 0);
    UnaffineIsLocal(s, 0, Spread(At(s, 0)), 0);
    UnaffineUndone(SubByte(b));
    forall c
      ensures b != 0 ==> (Times(b, c) == 1 <==> c == Inverse(b))
    {
      InverseIsUnique(b, c);
    }
    if b == 0 {
      NoBitsIsZero(b);
      ZeroBits(Spread(b));
      NoBitsByte(Unaffine(s));
    }
  }
}
