// Getting four blocks of bytes into bitsliced words and out again: the
// interleaving of 32-bit words and the 8x8 bit transposition.
module Blocks {
  import opened Sbox
  import opened Aes
  import opened Bitslice

  // ------------------------------------------------------------------
  // Transposition
  // ------------------------------------------------------------------

  /** One swap step between two words: bits under `high` of x with bits under `low` of y. */
  function SwapLow(low: bv64, s: bv7, x: Word, y: Word): (z: Word)
    requires s <= 64
  {
    Word((x.bits & low) | ((y.bits & low) << s))
  }

  function SwapHigh(high: bv64, s: bv7, x: Word, y: Word): (z: Word)
    requires s <= 64
  {
    Word(((x.bits & high) >> s) | (y.bits & high))
  }

  function Low2(x: Word, y: Word): (z: Word) { SwapLow(0x5555555555555555, 1, x, y) }

  function High2(x: Word, y: Word): (z: Word) { SwapHigh(0xAAAAAAAAAAAAAAAA, 1, x, y) }

  function Low4(x: Word, y: Word): (z: Word) { SwapLow(0x3333333333333333, 2, x, y) }

  function High4(x: Word, y: Word): (z: Word) { SwapHigh(0xCCCCCCCCCCCCCCCC, 2, x, y) }

  function Low8(x: Word, y: Word): (z: Word) { SwapLow(0x0F0F0F0F0F0F0F0F, 4, x, y) }

  function High8(x: Word, y: Word): (z: Word) { SwapHigh(0xF0F0F0F0F0F0F0F0, 4, x, y) }

  function Swaps2(q: Octet): (s: Octet) {
    Octet(Low2(q.w0, q.w1), High2(q.w0, q.w1), Low2(q.w2, q.w3), High2(q.w2, q.w3),
          Low2(q.w4, q.w5), High2(q.w4, q.w5), Low2(q.w6, q.w7), High2(q.w6, q.w7))
  }

  function Swaps4(q: Octet): (s: Octet) {
    Octet(Low4(q.w0, q.w2), Low4(q.w1, q.w3), High4(q.w0, q.w2), High4(q.w1, q.w3),
          Low4(q.w4, q.w6), Low4(q.w5, q.w7), High4(q.w4, q.w6), High4(q.w5, q.w7))
  }

  function Swaps8(q: Octet): (s: Octet) {
    Octet(Low8(q.w0, q.w4), Low8(q.w1, q.w5), Low8(q.w2, q.w6), Low8(q.w3, q.w7),
          High8(q.w0, q.w4), High8(q.w1, q.w5), High8(q.w2, q.w6), High8(q.w3, q.w7))
  }

  function Ortho(q: Octet): (s: Octet) {
    Swaps8(Swaps4(Swaps2(q)))
  }

  function Nth(q: Octet, j: bv6): (w: Word)
    requires j < 8
  {
    if j == 0 then q.w0 else if j == 1 then q.w1 else if j == 2 then q.w2 else if j == 3 then q.w3
    else if j == 4 then q.w4 else if j == 5 then q.w5 else if j == 6 then q.w6 else q.w7
  }

  lemma PickSwapped2(x: Word, y: Word, p: bv6)
    ensures Pick(Low2(x, y), p) == if p & 1 == 0 then Pick(x, p) else Pick(y, p - 1)
    ensures Pick(High2(x, y), p) == if p & 1 == 0 then Pick(x, p + 1) else Pick(y, p)
  {
  }

  lemma PickSwapped4(x: Word, y: Word, p: bv6)
    ensures Pick(Low4(x, y), p) == if p & 2 == 0 then Pick(x, p) else Pick(y, p - 2)
    ensures Pick(High4(x, y), p) == if p & 2 == 0 then Pick(x, p + 2) else Pick(y, p)
  {
  }

  lemma PickSwapped8(x: Word, y: Word, p: bv6)
    ensures Pick(Low8(x, y), p) == if p & 4 == 0 then Pick(x, p) else Pick(y, p - 4)
    ensures Pick(High8(x, y), p) == if p & 4 == 0 then Pick(x, p + 4) else Pick(y, p)
  {
  }

  // Each step exchanges one bit of the word number with the same bit of the position.

  lemma PickSwaps2(q: Octet, j: bv6, p: bv6)
    requires j < 8
    ensures Pick(Nth(Swaps2(q), j), p) == Pick(Nth(q, (j & 6) | (p & 1)), (p & 0x3e) | (j & 1))
  {
    hide Pick, Low2, High2;
    PickSwapped2(q.w0, q.w1, p);
    PickSwapped2(q.w2, q.w3, p);
    PickSwapped2(q.w4, q.w5, p);
    PickSwapped2(q.w6, q.w7, p);
  }

  lemma PickSwaps4(q: Octet, j: bv6, p: bv6)
    requires j < 8
    ensures Pick(Nth(Swaps4(q), j), p) == Pick(Nth(q, (j & 5) | (p & 2)), (p & 0x3d) | (j & 2))
  {
    hide Pick, Low4, High4;
    PickSwapped4(q.w0, q.w2, p);
    PickSwapped4(q.w1, q.w3, p);
    PickSwapped4(q.w4, q.w6, p);
    PickSwapped4(q.w5, q.w7, p);
  }

  lemma PickSwaps8(q: Octet, j: bv6, p: bv6)
    requires j < 8
    ensures Pick(Nth(Swaps8(q), j), p) == Pick(Nth(q, (j & 3) | (p & 4)), (p & 0x3b) | (j & 4))
  {
    hide Pick, Low8, High8;
    PickSwapped8(q.w0, q.w4, p);
    PickSwapped8(q.w1, q.w5, p);
    PickSwapped8(q.w2, q.w6, p);
    PickSwapped8(q.w3, q.w7, p);
  }

  /** The whole step exchanges the word number with the position inside its byte. */
  lemma PickOrtho(q: Octet, j: bv6, p: bv6)
    requires j < 8
    ensures Pick(Nth(Ortho(q), j), p) == Pick(Nth(q, p & 7), (p & 0x38) | j)
  {
    hide Pick, Nth, Swaps2, Swaps4, Swaps8;
    var j1, p1 := (j & 3) | (p & 4), (p & 0x3b) | (j & 4);
    var j2, p2 := (j1 & 5) | (p1 & 2), (p1 & 0x3d) | (j1 & 2);
    PickSwaps8(Swaps4(Swaps2(q)), j, p);
    PickSwaps4(Swaps2(q), j1, p1);
    PickSwaps2(q, j2, p2);
    assert (j2 & 6) | (p2 & 1) == p & 7;
    assert (p2 & 0x3e) | (j2 & 1) == (p & 0x38) | j;
  }

  lemma WordsEqual(x: Word, y: Word)
    requires forall p: bv6 :: Pick(x, p) == Pick(y, p)
    ensures x == y
  {
    hide Pick, DifferingBit;
    assert Pick(x, DifferingBit(x, y)) == Pick(y, DifferingBit(x, y));
  }

  lemma OrthoTwiceWord(q: Octet, j: bv6)
    requires j < 8
    ensures Nth(Ortho(Ortho(q)), j) == Nth(q, j)
  {
    hide Pick, Nth, Ortho;
    var x, y := Nth(Ortho(Ortho(q)), j), Nth(q, j);
    forall p: bv6
      ensures Pick(x, p) == Pick(y, p)
    {
      PickOrtho(Ortho(q), j, p);
      PickOrtho(q, p & 7, (p & 0x38) | j);
      assert ((p & 0x38) | j) & 7 == j && (((p & 0x38) | j) & 0x38) | (p & 7) == p;
    }
    WordsEqual(x, y);
  }

  /** The transposition undoes itself. */
  lemma OrthoTwice(q: Octet)
    ensures Ortho(Ortho(q)) == q
  {
    hide Ortho;
    OrthoTwiceWord(q, 0);
    OrthoTwiceWord(q, 1);
    OrthoTwiceWord(q, 2);
    OrthoTwiceWord(q, 3);
    OrthoTwiceWord(q, 4);
    OrthoTwiceWord(q, 5);
    OrthoTwiceWord(q, 6);
    OrthoTwiceWord(q, 7);
  }

  /** The byte of a word that starts at bit `base`. */
  function ByteAt(x: Word, base: bv6): (b: Byte) {
    ((x.bits >> base) & 0xff) as bv8
  }

  lemma ByteAtPicks(x: Word, base: bv6)
    requires base & 7 == 0
    ensures ByteAt(x, base)
         == ByteOf(Octet(Pick(x, base), Pick(x, base | 1), Pick(x, base | 2), Pick(x, base | 3),
                         Pick(x, base | 4), Pick(x, base | 5), Pick(x, base | 6), Pick(x, base | 7)))
  {
  }

  lemma AtOrtho(q: Octet, p: bv6)
    ensures At(Ortho(q), p) == ByteAt(Nth(q, p & 7), p & 0x38)
  {
    hide Pick, ByteOf, Ortho, ByteAt;
    PickOrtho(q, 0, p);
    PickOrtho(q, 1, p);
    PickOrtho(q, 2, p);
    PickOrtho(q, 3, p);
    PickOrtho(q, 4, p);
    PickOrtho(q, 5, p);
    PickOrtho(q, 6, p);
    PickOrtho(q, 7, p);
    NthOfWords(Ortho(q));
    hide Nth;
    assert (p & 0x38) | 0 == p & 0x38;
    ByteAtPicks(Nth(q, p & 7), p & 0x38);
  }

  lemma NthOfWords(q: Octet)
    ensures Nth(q, 0) == q.w0 && Nth(q, 1) == q.w1 && Nth(q, 2) == q.w2 && Nth(q, 3) == q.w3
    ensures Nth(q, 4) == q.w4 && Nth(q, 5) == q.w5 && Nth(q, 6) == q.w6 && Nth(q, 7) == q.w7
  {
  }

  // ------------------------------------------------------------------
  // Interleaving
  // ------------------------------------------------------------------

  /** A block as four little-endian words, one per column. */
  datatype Quad = Quad(w0: bv32, w1: bv32, w2: bv32, w3: bv32)

  /** The bytes of a word, each followed by a zero byte. */
  function Stretch(w: bv32): (x: bv64) {
    var x0 := w as bv64;
    var x1 := (x0 | (x0 << 16)) & 0x0000FFFF0000FFFF;
    (x1 | (x1 << 8)) & 0x00FF00FF00FF00FF
  }

  /** Every other byte of a word. */
  function Squeeze(x: bv64): (w: bv32) {
    var x0 := x & 0x00FF00FF00FF00FF;
    var x1 := (x0 | (x0 >> 8)) & 0x0000FFFF0000FFFF;
    ((x1 | (x1 >> 16)) & 0xFFFFFFFF) as bv32
  }

  /** The bytes of two words in turn. */
  function Woven(v: bv32, w: bv32): (x: Word) {
    Word(Stretch(v) | (Stretch(w) << 8))
  }

  function InterleaveIn(b: Quad): (r: (Word, Word)) {
    (Woven(b.w0, b.w2), Woven(b.w1, b.w3))
  }

  function InterleaveOut(x: Word, y: Word): (b: Quad) {
    Quad(Squeeze(x.bits), Squeeze(y.bits), Squeeze(x.bits >> 8), Squeeze(y.bits >> 8))
  }

  function ColumnOf(w: bv32): (c: Column) {
    Column((w & 0xff) as bv8, ((w >> 8) & 0xff) as bv8, ((w >> 16) & 0xff) as bv8, ((w >> 24) & 0xff) as bv8)
  }

  function StateOf(b: Quad): (s: State) {
    State(ColumnOf(b.w0), ColumnOf(b.w1), ColumnOf(b.w2), ColumnOf(b.w3))
  }

  function WordOf(c: Column): (w: bv32) {
    c.r0 as bv32 | ((c.r1 as bv32) << 8) | ((c.r2 as bv32) << 16) | ((c.r3 as bv32) << 24)
  }

  function QuadOf(s: State): (b: Quad) {
    Quad(WordOf(s.c0), WordOf(s.c1), WordOf(s.c2), WordOf(s.c3))
  }

  lemma ColumnWord(c: Column, w: bv32)
    ensures ColumnOf(WordOf(c)) == c
    ensures WordOf(ColumnOf(w)) == w
  {
  }

  lemma StateQuad(s: State, b: Quad)
    ensures StateOf(QuadOf(s)) == s
    ensures QuadOf(StateOf(b)) == b
  {
    hide ColumnOf, WordOf;
    ColumnWord(s.c0, b.w0);
    ColumnWord(s.c1, b.w1);
    ColumnWord(s.c2, b.w2);
    ColumnWord(s.c3, b.w3);
  }

  /** The block held by two interleaved words. */
  function Interleaved(x: Word, y: Word): (s: State) {
    State(Column(ByteAt(x, 0), ByteAt(x, 16), ByteAt(x, 32), ByteAt(x, 48)),
          Column(ByteAt(y, 0), ByteAt(y, 16), ByteAt(y, 32), ByteAt(y, 48)),
          Column(ByteAt(x, 8), ByteAt(x, 24), ByteAt(x, 40), ByteAt(x, 56)),
          Column(ByteAt(y, 8), ByteAt(y, 24), ByteAt(y, 40), ByteAt(y, 56)))
  }

  lemma StretchedBytes(v: bv32, w: bv32)
    ensures var x := Woven(v, w);
      && ColumnOf(v) == Column(ByteAt(x, 0), ByteAt(x, 16), ByteAt(x, 32), ByteAt(x, 48))
      && ColumnOf(w) == Column(ByteAt(x, 8), ByteAt(x, 24), ByteAt(x, 40), ByteAt(x, 56))
  {
  }

  lemma SqueezedBytes(x: Word)
    ensures ColumnOf(Squeeze(x.bits)) == Column(ByteAt(x, 0), ByteAt(x, 16), ByteAt(x, 32), ByteAt(x, 48))
    ensures ColumnOf(Squeeze(x.bits >> 8)) == Column(ByteAt(x, 8), ByteAt(x, 24), ByteAt(x, 40), ByteAt(x, 56))
  {
  }

  lemma InterleavedIn(b: Quad)
    ensures Interleaved(InterleaveIn(b).0, InterleaveIn(b).1) == StateOf(b)
  {
    hide Woven, ColumnOf, ByteAt;
    StretchedBytes(b.w0, b.w2);
    StretchedBytes(b.w1, b.w3);
  }

  lemma InterleavedOut(x: Word, y: Word)
    ensures StateOf(InterleaveOut(x, y)) == Interleaved(x, y)
  {
    hide Squeeze, ColumnOf, ByteAt;
    SqueezedBytes(x);
    SqueezedBytes(y);
  }

  lemma LaneOrtho(q: Octet, l: bv6)
    requires l < 4
    ensures Lane(Ortho(q), l) == Interleaved(Nth(q, l), Nth(q, l + 4))
  {
    hide At, Ortho, Nth, ByteAt;
    ColumnOrtho(q, l, l, 0);
    ColumnOrtho(q, l + 4, l + 4, 0);
    ColumnOrtho(q, l + 8, l, 8);
    ColumnOrtho(q, l + 12, l + 4, 8);
  }

  lemma ColumnOrtho(q: Octet, p: bv6, j: bv6, base: bv6)
    requires j < 8 && (base == 0 || base == 8) && p == j + base
    ensures ColumnAt(Ortho(q), p)
         == Column(ByteAt(Nth(q, j), base), ByteAt(Nth(q, j), base + 16), ByteAt(Nth(q, j), base + 32),
                   ByteAt(Nth(q, j), base + 48))
  {
    hide At, Ortho, Nth, ByteAt;
    AtOrtho(q, p);
    AtOrtho(q, p + 16);
    AtOrtho(q, p + 32);
    AtOrtho(q, p + 48);
    assert p & 7 == j && (p + 16) & 7 == j && (p + 32) & 7 == j && (p + 48) & 7 == j;
    assert p & 0x38 == base && (p + 16) & 0x38 == base + 16 && (p + 32) & 0x38 == base + 32
           && (p + 48) & 0x38 == base + 48;
  }

  // ------------------------------------------------------------------
  // Four blocks in, four blocks out
  // ------------------------------------------------------------------

  /** Even words first, then odd words, then the transposition. */
  function Interleave4(b0: Quad, b1: Quad, b2: Quad, b3: Quad): (q: Octet) {
    Octet(InterleaveIn(b0).0, InterleaveIn(b1).0, InterleaveIn(b2).0, InterleaveIn(b3).0,
          InterleaveIn(b0).1, InterleaveIn(b1).1, InterleaveIn(b2).1, InterleaveIn(b3).1)
  }

  lemma LoadedLanes(b0: Quad, b1: Quad, b2: Quad, b3: Quad)
    ensures var q := Ortho(Interleave4(b0, b1, b2, b3));
      Lane(q, 0) == StateOf(b0) && Lane(q, 1) == StateOf(b1) && Lane(q, 2) == StateOf(b2) && Lane(q, 3) == StateOf(b3)
  {
    hide Lane, Ortho, Nth, InterleaveIn, Interleaved, StateOf;
    var q := Interleave4(b0, b1, b2, b3);
    LaneOrtho(q, 0);
    LaneOrtho(q, 1);
    LaneOrtho(q, 2);
    LaneOrtho(q, 3);
    NthOfWords(q);
    InterleavedIn(b0);
    InterleavedIn(b1);
    InterleavedIn(b2);
    InterleavedIn(b3);
  }

  /** Block l is read back from words l and l + 4 after transposing again. */
  lemma UnloadedLane(q: Octet, l: bv6)
    requires l < 4
    ensures StateOf(InterleaveOut(Nth(Ortho(q), l), Nth(Ortho(q), l + 4))) == Lane(q, l)
  {
    hide Lane, Ortho, Nth, InterleaveOut, Interleaved, StateOf;
    InterleavedOut(Nth(Ortho(q), l), Nth(Ortho(q), l + 4));
    LaneOrtho(Ortho(q), l);
    OrthoTwice(q);
  }
}
