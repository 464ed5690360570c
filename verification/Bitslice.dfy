// The bitsliced cipher: four blocks at once in eight words. Byte r of column c
// of block l sits at position 16r + 4c + l. Every step on words is shown to be
// the step of FIPS 197 on each of the four blocks.
module Bitslice {
  import opened Sbox
  import opened Aes

  // ------------------------------------------------------------------
  // Steps on words
  // ------------------------------------------------------------------

  function Rotr16(x: Word): (y: Word) {
    Word((x.bits >> 16) | (x.bits << 48))
  }

  function Rotr32(x: Word): (y: Word) {
    Word((x.bits << 32) | (x.bits >> 32))
  }

  function ShiftRowsWord(x: Word): (y: Word) {
    var b := x.bits;
    Word((b & 0x000000000000FFFF)
         | ((b & 0x00000000FFF00000) >> 4)
         | ((b & 0x00000000000F0000) << 12)
         | ((b & 0x0000FF0000000000) >> 8)
         | ((b & 0x000000FF00000000) << 8)
         | ((b & 0xF000000000000000) >> 12)
         | ((b & 0x0FFF000000000000) << 4))
  }

  function InvShiftRowsWord(x: Word): (y: Word) {
    var b := x.bits;
    Word((b & 0x000000000000FFFF)
         | ((b & 0x000000000FFF0000) << 4)
         | ((b & 0x00000000F0000000) >> 12)
         | ((b & 0x000000FF00000000) << 8)
         | ((b & 0x0000FF0000000000) >> 8)
         | ((b & 0x000F000000000000) << 12)
         | ((b & 0xFFF0000000000000) >> 4))
  }

  function AddOctet(q: Octet, k: Octet): (s: Octet) {
    Octet(Xor(q.w0, k.w0), Xor(q.w1, k.w1), Xor(q.w2, k.w2), Xor(q.w3, k.w3),
          Xor(q.w4, k.w4), Xor(q.w5, k.w5), Xor(q.w6, k.w6), Xor(q.w7, k.w7))
  }

  function Rotated16(q: Octet): (s: Octet) {
    Octet(Rotr16(q.w0), Rotr16(q.w1), Rotr16(q.w2), Rotr16(q.w3), Rotr16(q.w4), Rotr16(q.w5), Rotr16(q.w6),
          Rotr16(q.w7))
  }

  function Rotated32(q: Octet): (s: Octet) {
    Octet(Rotr32(q.w0), Rotr32(q.w1), Rotr32(q.w2), Rotr32(q.w3), Rotr32(q.w4), Rotr32(q.w5), Rotr32(q.w6),
          Rotr32(q.w7))
  }

  function ShiftOctet(q: Octet): (s: Octet) {
    Octet(ShiftRowsWord(q.w0), ShiftRowsWord(q.w1), ShiftRowsWord(q.w2), ShiftRowsWord(q.w3),
          ShiftRowsWord(q.w4), ShiftRowsWord(q.w5), ShiftRowsWord(q.w6), ShiftRowsWord(q.w7))
  }

  function InvShiftOctet(q: Octet): (s: Octet) {
    Octet(InvShiftRowsWord(q.w0), InvShiftRowsWord(q.w1), InvShiftRowsWord(q.w2), InvShiftRowsWord(q.w3),
          InvShiftRowsWord(q.w4), InvShiftRowsWord(q.w5), InvShiftRowsWord(q.w6), InvShiftRowsWord(q.w7))
  }

  // The multiplications by constants, read off bit by bit.

  function Double(q: Octet): (s: Octet) {
    Octet(q.w7, Xor(q.w0, q.w7), q.w1, Xor(q.w2, q.w7), Xor(q.w3, q.w7), q.w4, q.w5, q.w6)
  }

  function Xor4(a: Word, b: Word, c: Word, d: Word): (r: Word) {
    Xor(Xor3(a, b, c), d)
  }

  function Xor5(a: Word, b: Word, c: Word, d: Word, e: Word): (r: Word) {
    Xor(Xor4(a, b, c, d), e)
  }

  function Xor6(a: Word, b: Word, c: Word, d: Word, e: Word, f: Word): (r: Word) {
    Xor(Xor5(a, b, c, d, e), f)
  }

  function By14(q: Octet): (s: Octet) {
    Octet(Xor3(q.w5, q.w6, q.w7), Xor(q.w0, q.w5), Xor3(q.w0, q.w1, q.w6), Xor5(q.w0, q.w1, q.w2, q.w5, q.w6),
          Xor4(q.w1, q.w2, q.w3, q.w5), Xor4(q.w2, q.w3, q.w4, q.w6), Xor4(q.w3, q.w4, q.w5, q.w7),
          Xor3(q.w4, q.w5, q.w6))
  }

  function By11(r: Octet): (s: Octet) {
    Octet(Xor3(r.w0, r.w5, r.w7), Xor5(r.w0, r.w1, r.w5, r.w6, r.w7), Xor4(r.w1, r.w2, r.w6, r.w7),
          Xor4(r.w0, r.w2, r.w3, r.w5), Xor6(r.w1, r.w3, r.w4, r.w5, r.w6, r.w7), Xor5(r.w2, r.w4, r.w5, r.w6, r.w7),
          Xor4(r.w3, r.w5, r.w6, r.w7), Xor3(r.w4, r.w6, r.w7))
  }

  function By13(q: Octet): (s: Octet) {
    Octet(Xor3(q.w0, q.w5, q.w6), Xor3(q.w1, q.w5, q.w7), Xor3(q.w0, q.w2, q.w6),
          Xor6(q.w0, q.w1, q.w3, q.w5, q.w6, q.w7), Xor5(q.w1, q.w2, q.w4, q.w5, q.w7), Xor4(q.w2, q.w3, q.w5, q.w6),
          Xor4(q.w3, q.w4, q.w6, q.w7), Xor3(q.w4, q.w5, q.w7))
  }

  function By9(r: Octet): (s: Octet) {
    Octet(Xor(r.w0, r.w5), Xor3(r.w1, r.w5, r.w6), Xor3(r.w2, r.w6, r.w7), Xor4(r.w0, r.w3, r.w5, r.w7),
          Xor4(r.w1, r.w4, r.w5, r.w6), Xor4(r.w2, r.w5, r.w6, r.w7), Xor3(r.w3, r.w6, r.w7), Xor(r.w4, r.w7))
  }

  function MixOctet(q: Octet): (s: Octet) {
    var r := Rotated16(q);
    AddOctet(AddOctet(Double(AddOctet(q, r)), r), Rotated32(AddOctet(q, r)))
  }

  function InvMixOctet(q: Octet): (s: Octet) {
    var r := Rotated16(q);
    AddOctet(AddOctet(By14(q), By11(r)), Rotated32(AddOctet(By13(q), By9(r))))
  }

  // ------------------------------------------------------------------
  // Each step at each position
  // ------------------------------------------------------------------

  lemma AddBytes(q: Octet, k: Octet)
    ensures ByteOf(AddOctet(q, k)) == Add(ByteOf(q), ByteOf(k))
  {
  }

  lemma PickAllAdd(q: Octet, k: Octet, p: bv6)
    ensures PickAll(AddOctet(q, k), p) == AddOctet(PickAll(q, p), PickAll(k, p))
  {
    hide Pick, Xor;
    Pickwise(p);
  }

  lemma AtAdd(q: Octet, k: Octet, p: bv6)
    ensures At(AddOctet(q, k), p) == Add(At(q, p), At(k, p))
  {
    hide ByteOf, PickAll, AddOctet, Add;
    PickAllAdd(q, k, p);
    AddBytes(PickAll(q, p), PickAll(k, p));
  }

  lemma PickRotated(x: Word, p: bv6)
    ensures Pick(Rotr16(x), p) == Pick(x, p + 16)
    ensures Pick(Rotr32(x), p) == Pick(x, p + 32)
  {
  }

  lemma DoubleByte(q: Octet)
    ensures ByteOf(Double(q)) == Xtime(ByteOf(q))
  {
  }

  lemma By14Byte(q: Octet)
    ensures ByteOf(By14(q)) == Times14(ByteOf(q))
  {
  }

  lemma By11Byte(q: Octet)
    ensures ByteOf(By11(q)) == Times11(ByteOf(q))
  {
  }

  lemma By13Byte(q: Octet)
    ensures ByteOf(By13(q)) == Times13(ByteOf(q))
  {
  }

  lemma By9Byte(q: Octet)
    ensures ByteOf(By9(q)) == Times9(ByteOf(q))
  {
  }

  lemma PickAllMultiples(q: Octet, p: bv6)
    ensures PickAll(Double(q), p) == Double(PickAll(q, p))
    ensures PickAll(By14(q), p) == By14(PickAll(q, p))
    ensures PickAll(By11(q), p) == By11(PickAll(q, p))
    ensures PickAll(By13(q), p) == By13(PickAll(q, p))
    ensures PickAll(By9(q), p) == By9(PickAll(q, p))
  {
    hide Pick, Xor;
    Pickwise(p);
  }

  lemma PickAllRotated(q: Octet, p: bv6)
    ensures PickAll(Rotated16(q), p) == PickAll(q, p + 16)
    ensures PickAll(Rotated32(q), p) == PickAll(q, p + 32)
  {
    hide Pick, Rotr16, Rotr32;
    PickRotated(q.w0, p);
    PickRotated(q.w1, p);
    PickRotated(q.w2, p);
    PickRotated(q.w3, p);
    PickRotated(q.w4, p);
    PickRotated(q.w5, p);
    PickRotated(q.w6, p);
    PickRotated(q.w7, p);
  }

  lemma AtRotated(q: Octet, p: bv6)
    ensures At(Rotated16(q), p) == At(q, p + 16)
    ensures At(Rotated32(q), p) == At(q, p + 32)
  {
    hide ByteOf, PickAll, Rotated16, Rotated32;
    PickAllRotated(q, p);
  }

  lemma AtDouble(q: Octet, p: bv6)
    ensures At(Double(q), p) == Xtime(At(q, p))
  {
    hide ByteOf, PickAll, Double, Xtime;
    PickAllMultiples(q, p);
    DoubleByte(PickAll(q, p));
  }

  lemma AtMultiples(q: Octet, p: bv6)
    ensures At(By14(q), p) == Times14(At(q, p))
    ensures At(By11(q), p) == Times11(At(q, p))
    ensures At(By13(q), p) == Times13(At(q, p))
    ensures At(By9(q), p) == Times9(At(q, p))
  {
    hide ByteOf, PickAll, By14, By11, By13, By9, Times14, Times11, Times13, Times9;
    PickAllMultiples(q, p);
    By14Byte(PickAll(q, p));
    By11Byte(PickAll(q, p));
    By13Byte(PickAll(q, p));
    By9Byte(PickAll(q, p));
  }

  lemma MixRowRegrouped(a: Byte, b: Byte, c: Byte, d: Byte)
    ensures Add(Add(Add(Xtime(a), Xtime(b)), b), Add(c, d)) == MixRow(a, b, c, d)
  {
    hide Xtime;
  }

  lemma AtMix(q: Octet, p: bv6)
    ensures At(MixOctet(q), p) == MixRow(At(q, p), At(q, p + 16), At(q, p + 32), At(q, p + 48))
  {
    hide At, AddOctet, Add, Double, Rotated16, Rotated32, Xtime, MixRow;
    var r := Rotated16(q);
    var s := AddOctet(q, r);
    AtAdd(AddOctet(Double(s), r), Rotated32(s), p);
    AtAdd(Double(s), r, p);
    AtDouble(s, p);
    AtRotated(s, p);
    AtAdd(q, r, p);
    AtAdd(q, r, p + 32);
    AtRotated(q, p);
    AtRotated(q, p + 32);
    assert p + 32 + 16 == p + 48;
    XtimeAdd(At(q, p), At(q, p + 16));
    MixRowRegrouped(At(q, p), At(q, p + 16), At(q, p + 32), At(q, p + 48));
  }

  lemma InvMixRowRegrouped(a: Byte, b: Byte, c: Byte, d: Byte)
    ensures Add(Add(a, b), Add(c, d)) == Add4(a, b, c, d)
  {
  }

  lemma AtInvMix(q: Octet, p: bv6)
    ensures At(InvMixOctet(q), p) == InvMixRow(At(q, p), At(q, p + 16), At(q, p + 32), At(q, p + 48))
  {
    hide At, AddOctet, Add, Add4, By14, By11, By13, By9, Rotated16, Rotated32, Times14, Times11, Times13, Times9;
    var r := Rotated16(q);
    var s := AddOctet(By13(q), By9(r));
    AtAdd(AddOctet(By14(q), By11(r)), Rotated32(s), p);
    AtAdd(By14(q), By11(r), p);
    AtRotated(s, p);
    AtAdd(By13(q), By9(r), p + 32);
    AtMultiples(q, p);
    AtMultiples(r, p);
    AtMultiples(q, p + 32);
    AtMultiples(r, p + 32);
    AtRotated(q, p);
    AtRotated(q, p + 32);
    assert p + 32 + 16 == p + 48;
    InvMixRowRegrouped(Times14(At(q, p)), Times11(At(q, p + 16)), Times13(At(q, p + 32)), Times9(At(q, p + 48)));
  }

  /** Where position p is filled from: the same row, r columns further on. */
  function ShiftSource(p: bv6): (o: bv6) {
    (p & 0x30) | ((p + ((p >> 4) << 2)) & 0x0f)
  }

  function InvShiftSource(p: bv6): (o: bv6) {
    (p & 0x30) | ((p - ((p >> 4) << 2)) & 0x0f)
  }

  lemma AtShift(q: Octet, p: bv6)
    ensures At(ShiftOctet(q), p) == At(q, ShiftSource(p))
  {
  }

  lemma AtInvShift(q: Octet, p: bv6)
    ensures At(InvShiftOctet(q), p) == At(q, InvShiftSource(p))
  {
  }

  // ------------------------------------------------------------------
  // Each step on each block
  // ------------------------------------------------------------------

  function ColumnAt(q: Octet, p: bv6): (c: Column) {
    Column(At(q, p), At(q, p + 16), At(q, p + 32), At(q, p + 48))
  }

  /** The state of one of the four blocks. */
  function Lane(q: Octet, l: bv6): (s: State)
    requires l < 4
  {
    State(ColumnAt(q, l), ColumnAt(q, l + 4), ColumnAt(q, l + 8), ColumnAt(q, l + 12))
  }

  lemma LaneSubBytes(q: Octet, l: bv6)
    requires l < 4
    ensures Lane(Substitute(q), l) == SubBytes(Lane(q, l))
    ensures Lane(Unsubstitute(q), l) == InvSubBytes(Lane(q, l))
  {
    hide *;
    ColumnSub(q, l);
    ColumnSub(q, l + 4);
    ColumnSub(q, l + 8);
    ColumnSub(q, l + 12);
    LaneColumns(q, l);
    LaneColumns(Substitute(q), l);
    LaneColumns(Unsubstitute(q), l);
    SubBytesColumns(ColumnAt(q, l), ColumnAt(q, l + 4), ColumnAt(q, l + 8), ColumnAt(q, l + 12));
  }

  lemma LaneColumns(q: Octet, l: bv6)
    requires l < 4
    ensures Lane(q, l) == State(ColumnAt(q, l), ColumnAt(q, l + 4), ColumnAt(q, l + 8), ColumnAt(q, l + 12))
  {
  }

  lemma SubBytesColumns(c0: Column, c1: Column, c2: Column, c3: Column)
    ensures SubBytes(State(c0, c1, c2, c3)) == State(SubColumn(c0), SubColumn(c1), SubColumn(c2), SubColumn(c3))
    ensures InvSubBytes(State(c0, c1, c2, c3))
         == State(InvSubColumn(c0), InvSubColumn(c1), InvSubColumn(c2), InvSubColumn(c3))
  {
    hide SubColumn, InvSubColumn;
  }

  lemma ColumnSub(q: Octet, p: bv6)
    ensures ColumnAt(Substitute(q), p) == SubColumn(ColumnAt(q, p))
    ensures ColumnAt(Unsubstitute(q), p) == InvSubColumn(ColumnAt(q, p))
  {
    hide At, Substitute, Unsubstitute, SubByte, InvSubByte;
    SubstituteAt(q, p);
    SubstituteAt(q, p + 16);
    SubstituteAt(q, p + 32);
    SubstituteAt(q, p + 48);
  }

  lemma ColumnMix(q: Octet, p: bv6)
    ensures ColumnAt(MixOctet(q), p) == MixColumn(ColumnAt(q, p))
    ensures ColumnAt(InvMixOctet(q), p) == InvMixColumn(ColumnAt(q, p))
  {
    hide At, MixOctet, InvMixOctet, MixRow, InvMixRow;
    AtMix(q, p);
    AtMix(q, p + 16);
    AtMix(q, p + 32);
    AtMix(q, p + 48);
    AtInvMix(q, p);
    AtInvMix(q, p + 16);
    AtInvMix(q, p + 32);
    AtInvMix(q, p + 48);
    Wrap(p);
  }

  lemma Wrap(p: bv6)
    ensures p + 16 + 16 == p + 32 && p + 16 + 32 == p + 48 && p + 16 + 48 == p
    ensures p + 32 + 16 == p + 48 && p + 32 + 32 == p && p + 32 + 48 == p + 16
    ensures p + 48 + 16 == p && p + 48 + 32 == p + 16 && p + 48 + 48 == p + 32
  {
  }

  lemma ColumnAdd(q: Octet, k: Octet, p: bv6)
    ensures ColumnAt(AddOctet(q, k), p) == AddColumn(ColumnAt(q, p), ColumnAt(k, p))
  {
    hide At, AddOctet, Add;
    AtAdd(q, k, p);
    AtAdd(q, k, p + 16);
    AtAdd(q, k, p + 32);
    AtAdd(q, k, p + 48);
  }

  lemma LaneMix(q: Octet, l: bv6)
    requires l < 4
    ensures Lane(MixOctet(q), l) == Aes.MixColumns(Lane(q, l))
    ensures Lane(InvMixOctet(q), l) == Aes.InvMixColumns(Lane(q, l))
  {
    hide ColumnAt, MixOctet, InvMixOctet, MixColumn, InvMixColumn;
    ColumnMix(q, l);
    ColumnMix(q, l + 4);
    ColumnMix(q, l + 8);
    ColumnMix(q, l + 12);
  }

  lemma LaneAdd(q: Octet, k: Octet, l: bv6)
    requires l < 4
    ensures Lane(AddOctet(q, k), l) == Aes.AddRoundKey(Lane(q, l), Lane(k, l))
  {
    hide ColumnAt, AddOctet, AddColumn;
    ColumnAdd(q, k, l);
    ColumnAdd(q, k, l + 4);
    ColumnAdd(q, k, l + 8);
    ColumnAdd(q, k, l + 12);
  }

  // Row r of column c comes from column c + r, or goes there.
  lemma ShiftSources(l: bv6)
    requires l < 4
    ensures ShiftSource(l) == l && ShiftSource(l + 16) == l + 4 + 16
    ensures ShiftSource(l + 32) == l + 8 + 32 && ShiftSource(l + 48) == l + 12 + 48
    ensures ShiftSource(l + 4) == l + 4 && ShiftSource(l + 4 + 16) == l + 8 + 16
    ensures ShiftSource(l + 4 + 32) == l + 12 + 32 && ShiftSource(l + 4 + 48) == l + 48
    ensures ShiftSource(l + 8) == l + 8 && ShiftSource(l + 8 + 16) == l + 12 + 16
    ensures ShiftSource(l + 8 + 32) == l + 32 && ShiftSource(l + 8 + 48) == l + 4 + 48
    ensures ShiftSource(l + 12) == l + 12 && ShiftSource(l + 12 + 16) == l + 16
    ensures ShiftSource(l + 12 + 32) == l + 4 + 32 && ShiftSource(l + 12 + 48) == l + 8 + 48
  {
  }

  lemma InvShiftSources(l: bv6)
    requires l < 4
    ensures InvShiftSource(l) == l && InvShiftSource(l + 16) == l + 12 + 16
    ensures InvShiftSource(l + 32) == l + 8 + 32 && InvShiftSource(l + 48) == l + 4 + 48
    ensures InvShiftSource(l + 4) == l + 4 && InvShiftSource(l + 4 + 16) == l + 16
    ensures InvShiftSource(l + 4 + 32) == l + 12 + 32 && InvShiftSource(l + 4 + 48) == l + 8 + 48
    ensures InvShiftSource(l + 8) == l + 8 && InvShiftSource(l + 8 + 16) == l + 4 + 16
    ensures InvShiftSource(l + 8 + 32) == l + 32 && InvShiftSource(l + 8 + 48) == l + 12 + 48
    ensures InvShiftSource(l + 12) == l + 12 && InvShiftSource(l + 12 + 16) == l + 8 + 16
    ensures InvShiftSource(l + 12 + 32) == l + 4 + 32 && InvShiftSource(l + 12 + 48) == l + 48
  {
  }

  lemma LaneShift(q: Octet, l: bv6)
    requires l < 4
    ensures Lane(ShiftOctet(q), l) == Aes.ShiftRows(Lane(q, l))
  {
    hide At, ShiftOctet, ShiftSource;
    ShiftSources(l);
    ColumnShift(q, l);
    ColumnShift(q, l + 4);
    ColumnShift(q, l + 8);
    ColumnShift(q, l + 12);
  }

  lemma ColumnShift(q: Octet, p: bv6)
    ensures ColumnAt(ShiftOctet(q), p)
         == Column(At(q, ShiftSource(p)), At(q, ShiftSource(p + 16)), At(q, ShiftSource(p + 32)),
                   At(q, ShiftSource(p + 48)))
    ensures ColumnAt(InvShiftOctet(q), p)
         == Column(At(q, InvShiftSource(p)), At(q, InvShiftSource(p + 16)), At(q, InvShiftSource(p + 32)),
                   At(q, InvShiftSource(p + 48)))
  {
    hide At, ShiftOctet, InvShiftOctet, ShiftSource, InvShiftSource;
    AtShift(q, p);
    AtShift(q, p + 16);
    AtShift(q, p + 32);
    AtShift(q, p + 48);
    AtInvShift(q, p);
    AtInvShift(q, p + 16);
    AtInvShift(q, p + 32);
    AtInvShift(q, p + 48);
  }

  lemma LaneInvShift(q: Octet, l: bv6)
    requires l < 4
    ensures Lane(InvShiftOctet(q), l) == Aes.InvShiftRows(Lane(q, l))
  {
    hide At, InvShiftOctet, InvShiftSource;
    InvShiftSources(l);
    ColumnShift(q, l);
    ColumnShift(q, l + 4);
    ColumnShift(q, l + 8);
    ColumnShift(q, l + 12);
  }

  // ------------------------------------------------------------------
  // The two ciphers
  // ------------------------------------------------------------------

  /** The words after the initial key and n full rounds. */
  function EncryptRounds(keys: seq<Octet>, q: Octet, n: nat): (s: Octet)
    requires n < |keys|
  {
    if n == 0 then AddOctet(q, keys[0])
    else AddOctet(MixOctet(ShiftOctet(Substitute(EncryptRounds(keys, q, n - 1)))), keys[n])
  }

  function EncryptOctet(keys: seq<Octet>, q: Octet): (s: Octet)
    requires |keys| >= 2
  {
    AddOctet(ShiftOctet(Substitute(EncryptRounds(keys, q, |keys| - 2))), keys[|keys| - 1])
  }

  /** The words while decrypting, when round n is the next to be undone. */
  function DecryptRounds(keys: seq<Octet>, q: Octet, n: nat): (s: Octet)
    requires n < |keys| - 1
    decreases |keys| - n
  {
    if n == |keys| - 2 then AddOctet(q, keys[|keys| - 1])
    else InvMixOctet(AddOctet(Unsubstitute(InvShiftOctet(DecryptRounds(keys, q, n + 1))), keys[n + 1]))
  }

  function DecryptOctet(keys: seq<Octet>, q: Octet): (s: Octet)
    requires |keys| >= 2
  {
    AddOctet(Unsubstitute(InvShiftOctet(DecryptRounds(keys, q, 0))), keys[0])
  }

  /** The round keys as block l sees them. */
  function LaneKeys(keys: seq<Octet>, l: bv6): (k: seq<State>)
    requires l < 4
    ensures |k| == |keys|
  {
    seq(|keys|, i requires 0 <= i < |keys| => Lane(keys[i], l))
  }

  lemma LaneRound(q: Octet, k: Octet, l: bv6)
    requires l < 4
    ensures Lane(AddOctet(MixOctet(ShiftOctet(Substitute(q))), k), l)
         == Aes.AddRoundKey(Aes.MixColumns(Aes.ShiftRows(Aes.SubBytes(Lane(q, l)))), Lane(k, l))
  {
    hide *;
    LaneSubBytes(q, l);
    LaneShift(Substitute(q), l);
    LaneMix(ShiftOctet(Substitute(q)), l);
    LaneAdd(MixOctet(ShiftOctet(Substitute(q))), k, l);
  }

  lemma LaneUnround(q: Octet, k: Octet, l: bv6)
    requires l < 4
    ensures Lane(InvMixOctet(AddOctet(Unsubstitute(InvShiftOctet(q)), k)), l)
         == Aes.InvMixColumns(Aes.AddRoundKey(Aes.InvSubBytes(Aes.InvShiftRows(Lane(q, l))), Lane(k, l)))
  {
    hide *;
    LaneInvShift(q, l);
    LaneSubBytes(InvShiftOctet(q), l);
    LaneAdd(Unsubstitute(InvShiftOctet(q)), k, l);
    LaneMix(AddOctet(Unsubstitute(InvShiftOctet(q)), k), l);
  }

  lemma {:induction false} LaneEncryptRounds(keys: seq<Octet>, q: Octet, n: nat, l: bv6)
    requires n < |keys| && l < 4
    ensures Lane(EncryptRounds(keys, q, n), l) == Aes.Rounds(LaneKeys(keys, l), Lane(q, l), n)
  {
    hide Lane, AddOctet, MixOctet, ShiftOctet, Substitute, Aes.AddRoundKey, Aes.MixColumns, Aes.ShiftRows, Aes.SubBytes;
    if n == 0 {
      LaneAdd(q, keys[0], l);
    } else {
      LaneEncryptRounds(keys, q, n - 1, l);
      LaneRound(EncryptRounds(keys, q, n - 1), keys[n], l);
    }
  }

  /** Bitsliced encryption is the cipher of FIPS 197 on each of the four blocks. */
  lemma LaneEncrypt(keys: seq<Octet>, q: Octet, l: bv6)
    requires |keys| >= 2 && l < 4
    ensures Lane(EncryptOctet(keys, q), l) == Aes.Cipher(LaneKeys(keys, l), Lane(q, l))
  {
    hide Lane, AddOctet, MixOctet, ShiftOctet, Substitute, Aes.AddRoundKey, Aes.MixColumns, Aes.ShiftRows, Aes.SubBytes;
    hide EncryptRounds, Aes.Rounds;
    LaneEncryptRounds(keys, q, |keys| - 2, l);
    var s := EncryptRounds(keys, q, |keys| - 2);
    LaneSubBytes(s, l);
    LaneShift(Substitute(s), l);
    LaneAdd(ShiftOctet(Substitute(s)), keys[|keys| - 1], l);
  }

  lemma {:induction false} LaneDecryptRounds(keys: seq<Octet>, q: Octet, n: nat, l: bv6)
    requires n < |keys| - 1 && l < 4
    ensures Lane(DecryptRounds(keys, q, n), l) == Aes.Unrounds(LaneKeys(keys, l), Lane(q, l), n)
    decreases |keys| - n
  {
    hide Lane, AddOctet, InvMixOctet, InvShiftOctet, Unsubstitute;
    hide Aes.AddRoundKey, Aes.InvMixColumns, Aes.InvShiftRows, Aes.InvSubBytes;
    if n == |keys| - 2 {
      LaneAdd(q, keys[|keys| - 1], l);
    } else {
      LaneDecryptRounds(keys, q, n + 1, l);
      LaneUnround(DecryptRounds(keys, q, n + 1), keys[n + 1], l);
    }
  }

  /** Bitsliced decryption is the inverse cipher of FIPS 197 on each of the four blocks. */
  lemma LaneDecrypt(keys: seq<Octet>, q: Octet, l: bv6)
    requires |keys| >= 2 && l < 4
    ensures Lane(DecryptOctet(keys, q), l) == Aes.InvCipher(LaneKeys(keys, l), Lane(q, l))
  {
    hide Lane, AddOctet, InvMixOctet, InvShiftOctet, Unsubstitute, DecryptRounds;
    hide Aes.AddRoundKey, Aes.InvMixColumns, Aes.InvShiftRows, Aes.InvSubBytes, Aes.Unrounds;
    LaneDecryptRounds(keys, q, 0, l);
    var s := DecryptRounds(keys, q, 0);
    LaneInvShift(s, l);
    LaneSubBytes(InvShiftOctet(s), l);
    LaneAdd(Unsubstitute(InvShiftOctet(s)), keys[0], l);
  }

  /** A block comes out as its own input says, whatever the other three lanes hold
      and whichever lane it travels in. */
  lemma LanesAreIndependent(keys: seq<Octet>, q: Octet, l: bv6, r: Octet, m: bv6)
    requires |keys| >= 2 && l < 4 && m < 4 && Lane(q, l) == Lane(r, m) && LaneKeys(keys, l) == LaneKeys(keys, m)
    ensures Lane(EncryptOctet(keys, q), l) == Lane(EncryptOctet(keys, r), m)
    ensures Lane(DecryptOctet(keys, q), l) == Lane(DecryptOctet(keys, r), m)
  {
    hide *;
    LaneEncrypt(keys, q, l);
    LaneEncrypt(keys, r, m);
    LaneDecrypt(keys, q, l);
    LaneDecrypt(keys, r, m);
  }

  // ------------------------------------------------------------------
  // The four lanes are all there is
  // ------------------------------------------------------------------

  /** A position where two words differ. */
  function DifferingBit(x: Word, y: Word): (p: bv6)
    ensures x != y ==> Pick(x, p) != Pick(y, p)
  {
    var d := x.bits ^ y.bits;
    var p5: bv6 := if d & 0xFFFFFFFF == 0 then 32 else 0;
    var p4: bv6 := if (d >> p5) & 0xFFFF == 0 then p5 + 16 else p5;
    var p3: bv6 := if (d >> p4) & 0xFF == 0 then p4 + 8 else p4;
    var p2: bv6 := if (d >> p3) & 0xF == 0 then p3 + 4 else p3;
    var p1: bv6 := if (d >> p2) & 0x3 == 0 then p2 + 2 else p2;
    if (d >> p1) & 0x1 == 0 then p1 + 1 else p1
  }

  lemma SamePicks(q: Octet, r: Octet, p: bv6)
    requires At(q, p) == At(r, p)
    ensures PickAll(q, p) == PickAll(r, p)
  {
  }

  lemma OctetsEqual(q: Octet, r: Octet)
    requires forall p: bv6 :: At(q, p) == At(r, p)
    ensures q == r
  {
    hide At, Pick, DifferingBit;
    SamePicks(q, r, DifferingBit(q.w0, r.w0));
    SamePicks(q, r, DifferingBit(q.w1, r.w1));
    SamePicks(q, r, DifferingBit(q.w2, r.w2));
    SamePicks(q, r, DifferingBit(q.w3, r.w3));
    SamePicks(q, r, DifferingBit(q.w4, r.w4));
    SamePicks(q, r, DifferingBit(q.w5, r.w5));
    SamePicks(q, r, DifferingBit(q.w6, r.w6));
    SamePicks(q, r, DifferingBit(q.w7, r.w7));
  }

  lemma ColumnsCover(q: Octet, r: Octet, p: bv6)
    requires ColumnAt(q, p & 0x0f) == ColumnAt(r, p & 0x0f)
    ensures At(q, p) == At(r, p)
  {
  }

  lemma LanesCover(q: Octet, r: Octet, p: bv6)
    requires forall l: bv6 :: l < 4 ==> Lane(q, l) == Lane(r, l)
    ensures At(q, p) == At(r, p)
  {
    hide At, ColumnAt;
    var l := p & 0x03;
    var o := p & 0x0f;
    assert Lane(q, l) == Lane(r, l);
    assert o == l || o == l + 4 || o == l + 8 || o == l + 12;
    ColumnsCover(q, r, p);
  }

  /** For any number of rounds, any round keys and any words, decrypting undoes encrypting. */
  lemma EncryptUndone(keys: seq<Octet>, q: Octet)
    requires |keys| >= 2
    ensures DecryptOctet(keys, EncryptOctet(keys, q)) == q
  {
    hide *;
    var r := DecryptOctet(keys, EncryptOctet(keys, q));
    forall l: bv6 | l < 4
      ensures Lane(r, l) == Lane(q, l)
    {
      LaneEncrypt(keys, q, l);
      LaneDecrypt(keys, EncryptOctet(keys, q), l);
      Aes.CipherUndone(LaneKeys(keys, l), Lane(q, l));
    }
    forall p: bv6
      ensures At(r, p) == At(q, p)
    {
      LanesCover(r, q, p);
    }
    OctetsEqual(r, q);
  }

  // ------------------------------------------------------------------
  // In place
  // ------------------------------------------------------------------

  /** Eight words of an array. */
  function OctetAt(a: array<Word>, from: nat): (q: Octet)
    requires from + 8 <= a.Length
    reads a
  {
    Octet(a[from], a[from + 1], a[from + 2], a[from + 3], a[from + 4], a[from + 5], a[from + 6], a[from + 7])
  }

  method Store(q: array<Word>, s: Octet)
    requires q.Length == 8
    modifies q
    ensures OctetAt(q, 0) == s
  {
    q[0], q[1], q[2], q[3], q[4], q[5], q[6], q[7] := s.w0, s.w1, s.w2, s.w3, s.w4, s.w5, s.w6, s.w7;
  }

  method BitsliceSbox(q: array<Word>)
    requires q.Length == 8
    modifies q
    ensures OctetAt(q, 0) == Substitute(old(OctetAt(q, 0)))
  {
    hide Substitute;
    Store(q, Substitute(OctetAt(q, 0)));
  }

  method BitsliceInvSbox(q: array<Word>)
    requires q.Length == 8
    modifies q
    ensures OctetAt(q, 0) == Unsubstitute(old(OctetAt(q, 0)))
  {
    hide Substitute, Unaffine;
    Store(q, Unaffine(OctetAt(q, 0)));
    BitsliceSbox(q);
    Store(q, Unaffine(OctetAt(q, 0)));
  }

  method AddRoundKeyInPlace(q: array<Word>, sk: array<Word>, from: nat)
    requires q.Length == 8 && from + 8 <= sk.Length && q != sk
    modifies q
    ensures OctetAt(q, 0) == AddOctet(old(OctetAt(q, 0)), OctetAt(sk, from))
  {
    hide Xor;
    for i := 0 to 8
      invariant forall j :: 0 <= j < i ==> q[j] == Xor(old(q[j]), sk[from + j])
      invariant forall j :: i <= j < 8 ==> q[j] == old(q[j])
    {
      q[i] := Xor(q[i], sk[from + i]);
    }
  }

  method ShiftRowsInPlace(q: array<Word>)
    requires q.Length == 8
    modifies q
    ensures OctetAt(q, 0) == ShiftOctet(old(OctetAt(q, 0)))
  {
    hide ShiftRowsWord;
    for i := 0 to 8
      invariant forall j :: 0 <= j < i ==> q[j] == ShiftRowsWord(old(q[j]))
      invariant forall j :: i <= j < 8 ==> q[j] == old(q[j])
    {
      q[i] := ShiftRowsWord(q[i]);
    }
  }

  method InvShiftRowsInPlace(q: array<Word>)
    requires q.Length == 8
    modifies q
    ensures OctetAt(q, 0) == InvShiftOctet(old(OctetAt(q, 0)))
  {
    hide InvShiftRowsWord;
    for i := 0 to 8
      invariant forall j :: 0 <= j < i ==> q[j] == InvShiftRowsWord(old(q[j]))
      invariant forall j :: i <= j < 8 ==> q[j] == old(q[j])
    {
      q[i] := InvShiftRowsWord(q[i]);
    }
  }

  method MixColumnsInPlace(q: array<Word>)
    requires q.Length == 8
    modifies q
    ensures OctetAt(q, 0) == MixOctet(old(OctetAt(q, 0)))
  {
    hide AddOctet, Double, Rotated16, Rotated32;
    Store(q, MixOctet(OctetAt(q, 0)));
  }

  method InvMixColumnsInPlace(q: array<Word>)
    requires q.Length == 8
    modifies q
    ensures OctetAt(q, 0) == InvMixOctet(old(OctetAt(q, 0)))
  {
    hide AddOctet, By14, By11, By13, By9, Rotated16, Rotated32;
    Store(q, InvMixOctet(OctetAt(q, 0)));
  }

  /** The expanded key as a list of round keys. */
  function RoundKeys(skey: array<Word>, numRounds: nat): (keys: seq<Octet>)
    requires 8 * (numRounds + 1) <= skey.Length
    reads skey
    ensures |keys| == numRounds + 1
    ensures forall u :: 0 <= u <= numRounds ==> keys[u] == OctetAt(skey, 8 * u)
  {
    seq(numRounds + 1, u requires 0 <= u <= numRounds reads skey => OctetAt(skey, 8 * u))
  }

  method BitsliceEncrypt(numRounds: nat, skey: array<Word>, q: array<Word>)
    requires 1 <= numRounds && 8 * (numRounds + 1) <= skey.Length && q.Length == 8 && q != skey
    modifies q
    ensures OctetAt(q, 0) == EncryptOctet(RoundKeys(skey, numRounds), old(OctetAt(q, 0)))
  {
    hide AddOctet, Substitute, MixOctet, ShiftOctet, OctetAt;
    ghost var keys, start := RoundKeys(skey, numRounds), OctetAt(q, 0);
    AddRoundKeyInPlace(q, skey, 0);
    for u := 1 to numRounds
      invariant keys == RoundKeys(skey, numRounds)
      invariant OctetAt(q, 0) == EncryptRounds(keys, start, u - 1)
    {
      BitsliceSbox(q);
      ShiftRowsInPlace(q);
      MixColumnsInPlace(q);
      AddRoundKeyInPlace(q, skey, 8 * u);
    }
    BitsliceSbox(q);
    ShiftRowsInPlace(q);
    AddRoundKeyInPlace(q, skey, 8 * numRounds);
  }

  method BitsliceDecrypt(numRounds: nat, skey: array<Word>, q: array<Word>)
    requires 1 <= numRounds && 8 * (numRounds + 1) <= skey.Length && q.Length == 8 && q != skey
    modifies q
    ensures OctetAt(q, 0) == DecryptOctet(RoundKeys(skey, numRounds), old(OctetAt(q, 0)))
  {
    hide AddOctet, Unsubstitute, InvMixOctet, InvShiftOctet, OctetAt;
    ghost var keys, start := RoundKeys(skey, numRounds), OctetAt(q, 0);
    AddRoundKeyInPlace(q, skey, 8 * numRounds);
    var u := numRounds - 1;
    while u > 0
      invariant 0 <= u < numRounds && keys == RoundKeys(skey, numRounds)
      invariant OctetAt(q, 0) == DecryptRounds(keys, start, u)
    {
      InvShiftRowsInPlace(q);
      BitsliceInvSbox(q);
      AddRoundKeyInPlace(q, skey, 8 * u);
      InvMixColumnsInPlace(q);
      u := u - 1;
    }
    InvShiftRowsInPlace(q);
    BitsliceInvSbox(q);
    AddRoundKeyInPlace(q, skey, 0);
  }
}
