// The block cipher of FIPS 197, on bytes: the cipher of section 5.1, the
// inverse cipher of section 5.3, and the proof that one undoes the other. The
// S-box is the circuit of module Sbox applied to a single byte.
module Aes {
  import opened Sbox

  type Byte = bv8

  // ------------------------------------------------------------------
  // Bytes as octets of single bits
  // ------------------------------------------------------------------

  function LowBit(w: Word): (b: Byte) {
    (w.bits & 1) as bv8
  }

  /** The byte whose bit j is the lowest bit of word j. */
  function ByteOf(q: Octet): (b: Byte) {
    LowBit(q.w0) | (LowBit(q.w1) << 1) | (LowBit(q.w2) << 2) | (LowBit(q.w3) << 3)
    | (LowBit(q.w4) << 4) | (LowBit(q.w5) << 5) | (LowBit(q.w6) << 6) | (LowBit(q.w7) << 7)
  }

  /** The byte at position p of a bitsliced block. */
  function At(q: Octet, p: bv6): (b: Byte) {
    ByteOf(PickAll(q, p))
  }

  function BitOf(b: Byte, j: bv3): (w: Word) {
    Word(((b >> j) & 1) as bv64)
  }

  /** One byte, at position 0. */
  function Spread(b: Byte): (q: Octet) {
    Octet(BitOf(b, 0), BitOf(b, 1), BitOf(b, 2), BitOf(b, 3), BitOf(b, 4), BitOf(b, 5), BitOf(b, 6), BitOf(b, 7))
  }

  predicate Single(w: Word) {
    w.bits <= 1
  }

  lemma PickIsSingle(x: Word, p: bv6)
    ensures Single(Pick(x, p))
  {
  }

  /** A byte determines its bits. */
  lemma AtDetermines(q: Octet, p: bv6)
    ensures PickAll(Spread(At(q, p)), 0) == PickAll(q, p)
  {
  }

  lemma SpreadAt(b: Byte)
    ensures At(Spread(b), 0) == b
  {
  }

  // ------------------------------------------------------------------
  // The S-box (section 5.1.1)
  // ------------------------------------------------------------------

  function SubByte(b: Byte): (s: Byte) {
    At(Substitute(Spread(b)), 0)
  }

  function InvSubByte(b: Byte): (s: Byte) {
    At(Unsubstitute(Spread(b)), 0)
  }

  /** The word circuit substitutes every one of the 64 bytes. */
  lemma SubstituteAt(q: Octet, p: bv6)
    ensures At(Substitute(q), p) == SubByte(At(q, p))
    ensures At(Unsubstitute(q), p) == InvSubByte(At(q, p))
  {
    hide Substitute, Unsubstitute, PickAll, ByteOf, Spread;
    AtDetermines(q, p);
    SubstituteIsLocal(q, p, Spread(At(q, p)), 0);
  }

  lemma SubByteUndone(b: Byte)
    ensures InvSubByte(SubByte(b)) == b
  {
    hide Substitute, Unsubstitute, PickAll, ByteOf, Spread;
    var q := Spread(b);
    SubstituteAt(Substitute(q), 0);
    SubstituteUndone(q, 0);
    SpreadAt(b);
  }

  // ------------------------------------------------------------------
  // Arithmetic in GF(2^8) (sections 4.1 and 4.2)
  // ------------------------------------------------------------------

  function Add(a: Byte, b: Byte): (c: Byte) {
    a ^ b
  }

  function Add4(a: Byte, b: Byte, c: Byte, d: Byte): (s: Byte) {
    a ^ b ^ c ^ d
  }

  function Add5(a: Byte, b: Byte, c: Byte, d: Byte, e: Byte): (s: Byte) {
    a ^ b ^ c ^ d ^ e
  }

  /** Multiplication by {02}: 0x1b is added back when the top bit falls out. */
  function Xtime(b: Byte): (c: Byte) {
    (b << 1) ^ (0x1b & (0 - (b >> 7)))
  }

  function Times4(b: Byte): (c: Byte) {
    Xtime(Xtime(b))
  }

  function Times8(b: Byte): (c: Byte) {
    Xtime(Times4(b))
  }

  function Times9(b: Byte): (c: Byte) {
    Times8(b) ^ b
  }

  function Times11(b: Byte): (c: Byte) {
    Times8(b) ^ Xtime(b) ^ b
  }

  function Times13(b: Byte): (c: Byte) {
    Times8(b) ^ Times4(b) ^ b
  }

  function Times14(b: Byte): (c: Byte) {
    Times8(b) ^ Times4(b) ^ Xtime(b)
  }

  // ------------------------------------------------------------------
  // Columns (sections 5.1.3 and 5.3.3)
  // ------------------------------------------------------------------

  datatype Column = Column(r0: Byte, r1: Byte, r2: Byte, r3: Byte)

  /** {02}a + {03}b + c + d: row 0 of a mixed column; the other rows are its rotations. */
  function MixRow(a: Byte, b: Byte, c: Byte, d: Byte): (m: Byte) {
    Add5(Xtime(a), Xtime(b), b, c, d)
  }

  function MixColumn(c: Column): (d: Column) {
    Column(MixRow(c.r0, c.r1, c.r2, c.r3), MixRow(c.r1, c.r2, c.r3, c.r0),
           MixRow(c.r2, c.r3, c.r0, c.r1), MixRow(c.r3, c.r0, c.r1, c.r2))
  }

  /** {0e}a + {0b}b + {0d}c + {09}d. */
  function InvMixRow(a: Byte, b: Byte, c: Byte, d: Byte): (m: Byte) {
    Add4(Times14(a), Times11(b), Times13(c), Times9(d))
  }

  function InvMixColumn(c: Column): (d: Column) {
    Column(InvMixRow(c.r0, c.r1, c.r2, c.r3), InvMixRow(c.r1, c.r2, c.r3, c.r0),
           InvMixRow(c.r2, c.r3, c.r0, c.r1), InvMixRow(c.r3, c.r0, c.r1, c.r2))
  }

  lemma XtimeAdd(a: Byte, b: Byte)
    ensures Xtime(Add(a, b)) == Add(Xtime(a), Xtime(b))
  {
  }

  lemma Adds5(a: Byte, b: Byte, c: Byte, d: Byte, e: Byte)
    ensures Add5(a, b, c, d, e) == Add(Add(Add(Add(a, b), c), d), e)
  {
  }

  lemma XtimeAdd5(a: Byte, b: Byte, c: Byte, d: Byte, e: Byte)
    ensures Xtime(Add5(a, b, c, d, e)) == Add5(Xtime(a), Xtime(b), Xtime(c), Xtime(d), Xtime(e))
  {
    hide Xtime, Add, Add5;
    Adds5(a, b, c, d, e);
    XtimeAdd(Add(Add(Add(a, b), c), d), e);
    XtimeAdd(Add(Add(a, b), c), d);
    XtimeAdd(Add(a, b), c);
    XtimeAdd(a, b);
    Adds5(Xtime(a), Xtime(b), Xtime(c), Xtime(d), Xtime(e));
  }

  /** Mixing twice multiplies by {05} and adds {04} times the opposite row. */
  function TwiceRow(a: Byte, c: Byte): (m: Byte) {
    Add(a, Times4(Add(a, c)))
  }

  function Twice(c: Column): (d: Column) {
    Column(TwiceRow(c.r0, c.r2), TwiceRow(c.r1, c.r3), TwiceRow(c.r2, c.r0), TwiceRow(c.r3, c.r1))
  }

  lemma Times4Add(a: Byte, b: Byte)
    ensures Times4(Add(a, b)) == Add(Times4(a), Times4(b))
    ensures Times8(Add(a, b)) == Add(Times8(a), Times8(b))
  {
    hide Xtime, Add;
    XtimeAdd(a, b);
    XtimeAdd(Xtime(a), Xtime(b));
    XtimeAdd(Times4(a), Times4(b));
  }

  // The bytes of a column and their multiples, with all repetitions cancelled.
  lemma CancelTwice(a: Byte, b: Byte, c: Byte, d: Byte, a2: Byte, b2: Byte, c2: Byte, d2: Byte, a4: Byte, b4: Byte,
                    c4: Byte)
    ensures Add5(a4 ^ b4 ^ b2 ^ c2 ^ d2, b4 ^ c4 ^ c2 ^ d2 ^ a2, b2 ^ c2 ^ c ^ d ^ a, c2 ^ d2 ^ d ^ a ^ b,
                 d2 ^ a2 ^ a ^ b ^ c)
         == a ^ a4 ^ c4
  {
  }

  lemma AddTwice(a: Byte, b: Byte, c: Byte)
    ensures Add(a, Add(b, c)) == a ^ b ^ c
  {
  }

  lemma Add5IsXor(a: Byte, b: Byte, c: Byte, d: Byte, e: Byte)
    ensures Add5(a, b, c, d, e) == a ^ b ^ c ^ d ^ e
  {
  }

  lemma MixTwiceRow(a: Byte, b: Byte, c: Byte, d: Byte)
    ensures MixRow(MixRow(a, b, c, d), MixRow(b, c, d, a), MixRow(c, d, a, b), MixRow(d, a, b, c)) == TwiceRow(a, c)
  {
    hide Xtime, Add, Add5;
    var a2, b2, c2, d2, a4, b4, c4 := Xtime(a), Xtime(b), Xtime(c), Xtime(d), Times4(a), Times4(b), Times4(c);
    XtimeAdd5(a2, b2, b, c, d);
    XtimeAdd5(b2, c2, c, d, a);
    Add5IsXor(a4, b4, b2, c2, d2);
    Add5IsXor(b4, c4, c2, d2, a2);
    Add5IsXor(b2, c2, c, d, a);
    Add5IsXor(c2, d2, d, a, b);
    Add5IsXor(d2, a2, a, b, c);
    CancelTwice(a, b, c, d, a2, b2, c2, d2, a4, b4, c4);
    Times4Add(a, c);
    AddTwice(a, a4, c4);
  }

  lemma MixTwice(c: Column)
    ensures MixColumn(MixColumn(c)) == Twice(c)
  {
    hide MixRow, TwiceRow;
    MixTwiceRow(c.r0, c.r1, c.r2, c.r3);
    MixTwiceRow(c.r1, c.r2, c.r3, c.r0);
    MixTwiceRow(c.r2, c.r3, c.r0, c.r1);
    MixTwiceRow(c.r3, c.r0, c.r1, c.r2);
  }

  lemma AddCancels(a: Byte, b: Byte, c: Byte)
    ensures Add(Add(a, b), Add(c, b)) == Add(a, c) && Add(Add(a, b), b) == a
  {
  }

  lemma AddCommutes(a: Byte, b: Byte)
    ensures Add(a, b) == Add(b, a)
  {
  }

  lemma TwiceTwiceRow(a: Byte, c: Byte)
    ensures TwiceRow(TwiceRow(a, c), TwiceRow(c, a)) == a
  {
    hide Times4, Add;
    AddCommutes(a, c);
    AddCancels(a, Times4(Add(a, c)), c);
  }

  /** Four mixings are the identity. */
  lemma TwiceTwice(c: Column)
    ensures Twice(Twice(c)) == c
  {
    hide TwiceRow;
    TwiceTwiceRow(c.r0, c.r2);
    TwiceTwiceRow(c.r1, c.r3);
    TwiceTwiceRow(c.r2, c.r0);
    TwiceTwiceRow(c.r3, c.r1);
  }

  lemma CancelInverse(a: Byte, b: Byte, c: Byte, d: Byte, a2: Byte, b2: Byte, a4: Byte, b4: Byte, c4: Byte, d4: Byte,
                      a8: Byte, b8: Byte, c8: Byte, d8: Byte)
    ensures Add5(a2 ^ a8 ^ c8, b2 ^ b8 ^ d8, b ^ b4 ^ d4, c ^ c4 ^ a4, d ^ d4 ^ b4)
         == Add4(a8 ^ a4 ^ a2, b8 ^ b2 ^ b, c8 ^ c4 ^ c, d8 ^ d)
  {
  }

  lemma MultiplesOfTwiceRow(a: Byte, c: Byte)
    ensures TwiceRow(a, c) == a ^ Times4(a) ^ Times4(c)
    ensures Xtime(TwiceRow(a, c)) == Xtime(a) ^ Times8(a) ^ Times8(c)
  {
    hide Xtime, Times4, Add;
    Times4Add(a, c);
    AddTwice(a, Times4(a), Times4(c));
    XtimeAdd(a, Add(Times4(a), Times4(c)));
    XtimeAdd(Times4(a), Times4(c));
    AddTwice(Xtime(a), Times8(a), Times8(c));
  }

  lemma MixRowOfTwice(a: Byte, b: Byte, c: Byte, d: Byte)
    ensures MixRow(TwiceRow(a, c), TwiceRow(b, d), TwiceRow(c, a), TwiceRow(d, b))
         == Add5(Xtime(a) ^ Times8(a) ^ Times8(c), Xtime(b) ^ Times8(b) ^ Times8(d), b ^ Times4(b) ^ Times4(d),
                 c ^ Times4(c) ^ Times4(a), d ^ Times4(d) ^ Times4(b))
  {
    hide Xtime, Times4, Times8, TwiceRow, Add5;
    MultiplesOfTwiceRow(a, c);
    MultiplesOfTwiceRow(b, d);
    MultiplesOfTwiceRow(c, a);
    MultiplesOfTwiceRow(d, b);
  }

  lemma InvMixRowIsSum(a: Byte, b: Byte, c: Byte, d: Byte)
    ensures InvMixRow(a, b, c, d)
         == Add4(Times8(a) ^ Times4(a) ^ Xtime(a), Times8(b) ^ Xtime(b) ^ b, Times8(c) ^ Times4(c) ^ c, Times8(d) ^ d)
  {
  }

  /** Unmixing is mixing three times. */
  lemma InverseRow(a: Byte, b: Byte, c: Byte, d: Byte)
    ensures InvMixRow(a, b, c, d) == MixRow(TwiceRow(a, c), TwiceRow(b, d), TwiceRow(c, a), TwiceRow(d, b))
  {
    hide *;
    InvMixRowIsSum(a, b, c, d);
    MixRowOfTwice(a, b, c, d);
    CancelInverse(a, b, c, d, Xtime(a), Xtime(b), Times4(a), Times4(b), Times4(c), Times4(d),
                  Times8(a), Times8(b), Times8(c), Times8(d));
  }

  lemma InverseIsThrice(c: Column)
    ensures InvMixColumn(c) == MixColumn(Twice(c))
  {
    hide MixRow, InvMixRow, TwiceRow;
    InverseRow(c.r0, c.r1, c.r2, c.r3);
    InverseRow(c.r1, c.r2, c.r3, c.r0);
    InverseRow(c.r2, c.r3, c.r0, c.r1);
    InverseRow(c.r3, c.r0, c.r1, c.r2);
  }

  lemma MixColumnUndone(c: Column)
    ensures InvMixColumn(MixColumn(c)) == c
  {
    hide *;
    InverseIsThrice(MixColumn(c));
    MixTwice(MixColumn(c));
    MixTwice(c);
    MixTwice(Twice(c));
    TwiceTwice(c);
  }

  // ------------------------------------------------------------------
  // The state and its rounds (sections 5.1 and 5.3)
  // ------------------------------------------------------------------

  datatype State = State(c0: Column, c1: Column, c2: Column, c3: Column)

  function SubColumn(c: Column): (d: Column) {
    Column(SubByte(c.r0), SubByte(c.r1), SubByte(c.r2), SubByte(c.r3))
  }

  function InvSubColumn(c: Column): (d: Column) {
    Column(InvSubByte(c.r0), InvSubByte(c.r1), InvSubByte(c.r2), InvSubByte(c.r3))
  }

  function AddColumn(c: Column, d: Column): (e: Column) {
    Column(Add(c.r0, d.r0), Add(c.r1, d.r1), Add(c.r2, d.r2), Add(c.r3, d.r3))
  }

  function SubBytes(s: State): (t: State) {
    State(SubColumn(s.c0), SubColumn(s.c1), SubColumn(s.c2), SubColumn(s.c3))
  }

  function InvSubBytes(s: State): (t: State) {
    State(InvSubColumn(s.c0), InvSubColumn(s.c1), InvSubColumn(s.c2), InvSubColumn(s.c3))
  }

  /** Row r moves r columns to the left. */
  function ShiftRows(s: State): (t: State) {
    State(Column(s.c0.r0, s.c1.r1, s.c2.r2, s.c3.r3), Column(s.c1.r0, s.c2.r1, s.c3.r2, s.c0.r3),
          Column(s.c2.r0, s.c3.r1, s.c0.r2, s.c1.r3), Column(s.c3.r0, s.c0.r1, s.c1.r2, s.c2.r3))
  }

  /** Row r moves r columns to the right. */
  function InvShiftRows(s: State): (t: State) {
    State(Column(s.c0.r0, s.c3.r1, s.c2.r2, s.c1.r3), Column(s.c1.r0, s.c0.r1, s.c3.r2, s.c2.r3),
          Column(s.c2.r0, s.c1.r1, s.c0.r2, s.c3.r3), Column(s.c3.r0, s.c2.r1, s.c1.r2, s.c0.r3))
  }

  function MixColumns(s: State): (t: State) {
    State(MixColumn(s.c0), MixColumn(s.c1), MixColumn(s.c2), MixColumn(s.c3))
  }

  function InvMixColumns(s: State): (t: State) {
    State(InvMixColumn(s.c0), InvMixColumn(s.c1), InvMixColumn(s.c2), InvMixColumn(s.c3))
  }

  function AddRoundKey(s: State, k: State): (t: State) {
    State(AddColumn(s.c0, k.c0), AddColumn(s.c1, k.c1), AddColumn(s.c2, k.c2), AddColumn(s.c3, k.c3))
  }

  /** The state after the initial key and n full rounds. */
  function Rounds(keys: seq<State>, s: State, n: nat): (t: State)
    requires n < |keys|
  {
    if n == 0 then AddRoundKey(s, keys[0])
    else AddRoundKey(MixColumns(ShiftRows(SubBytes(Rounds(keys, s, n - 1)))), keys[n])
  }

  /** One round key more than there are rounds. */
  function Cipher(keys: seq<State>, s: State): (t: State)
    requires |keys| >= 2
  {
    AddRoundKey(ShiftRows(SubBytes(Rounds(keys, s, |keys| - 2))), keys[|keys| - 1])
  }

  /** The state in the inverse cipher when round n is the next to be undone. */
  function Unrounds(keys: seq<State>, s: State, n: nat): (t: State)
    requires n < |keys| - 1
    decreases |keys| - n
  {
    if n == |keys| - 2 then AddRoundKey(s, keys[|keys| - 1])
    else InvMixColumns(AddRoundKey(InvSubBytes(InvShiftRows(Unrounds(keys, s, n + 1))), keys[n + 1]))
  }

  function InvCipher(keys: seq<State>, s: State): (t: State)
    requires |keys| >= 2
  {
    AddRoundKey(InvSubBytes(InvShiftRows(Unrounds(keys, s, 0))), keys[0])
  }

  lemma AddColumnUndone(c: Column, k: Column)
    ensures AddColumn(AddColumn(c, k), k) == c
  {
  }

  lemma AddRoundKeyUndone(s: State, k: State)
    ensures AddRoundKey(AddRoundKey(s, k), k) == s
  {
    hide AddColumn;
    AddColumnUndone(s.c0, k.c0);
    AddColumnUndone(s.c1, k.c1);
    AddColumnUndone(s.c2, k.c2);
    AddColumnUndone(s.c3, k.c3);
  }

  lemma SubColumnUndone(c: Column)
    ensures InvSubColumn(SubColumn(c)) == c
  {
    hide SubByte, InvSubByte;
    SubByteUndone(c.r0);
    SubByteUndone(c.r1);
    SubByteUndone(c.r2);
    SubByteUndone(c.r3);
  }

  lemma SubBytesUndone(s: State)
    ensures InvSubBytes(SubBytes(s)) == s
  {
    hide SubColumn, InvSubColumn;
    SubColumnUndone(s.c0);
    SubColumnUndone(s.c1);
    SubColumnUndone(s.c2);
    SubColumnUndone(s.c3);
  }

  lemma MixColumnsUndone(s: State)
    ensures InvMixColumns(MixColumns(s)) == s
  {
    hide MixColumn, InvMixColumn;
    MixColumnUndone(s.c0);
    MixColumnUndone(s.c1);
    MixColumnUndone(s.c2);
    MixColumnUndone(s.c3);
  }

  lemma ShiftRowsUndone(s: State)
    ensures InvShiftRows(ShiftRows(s)) == s
  {
  }

  /** The inverse cipher passes through the states of the cipher in reverse. */
  lemma {:induction false} UnroundsFollow(keys: seq<State>, s: State, n: nat)
    requires n < |keys| - 1
    ensures Unrounds(keys, Cipher(keys, s), n) == ShiftRows(SubBytes(Rounds(keys, s, n)))
    decreases |keys| - n
  {
    hide AddRoundKey, SubBytes, InvSubBytes, ShiftRows, InvShiftRows, MixColumns, InvMixColumns;
    if n == |keys| - 2 {
      AddRoundKeyUndone(ShiftRows(SubBytes(Rounds(keys, s, n))), keys[n + 1]);
    } else {
      UnroundsFollow(keys, s, n + 1);
      var t := Rounds(keys, s, n + 1);
      ShiftRowsUndone(SubBytes(t));
      SubBytesUndone(t);
      AddRoundKeyUndone(MixColumns(ShiftRows(SubBytes(Rounds(keys, s, n)))), keys[n + 1]);
      MixColumnsUndone(ShiftRows(SubBytes(Rounds(keys, s, n))));
    }
  }

  /** For any number of rounds and any round keys, the inverse cipher undoes the cipher. */
  lemma CipherUndone(keys: seq<State>, s: State)
    requires |keys| >= 2
    ensures InvCipher(keys, Cipher(keys, s)) == s
  {
    hide AddRoundKey, SubBytes, InvSubBytes, ShiftRows, InvShiftRows, MixColumns, InvMixColumns;
    UnroundsFollow(keys, s, 0);
    ShiftRowsUndone(SubBytes(Rounds(keys, s, 0)));
    SubBytesUndone(Rounds(keys, s, 0));
    AddRoundKeyUndone(s, keys[0]);
  }
}
