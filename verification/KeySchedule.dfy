// The key schedule: the expansion of FIPS 197 section 5.2, its compressed
// bitsliced form, and the expansion of that form into round keys that all four
// lanes share.
module KeySchedule {
  import opened Sbox
  import opened Aes
  import opened Bitslice
  import opened Blocks

  // ------------------------------------------------------------------
  // FIPS 197 section 5.2, on columns
  // ------------------------------------------------------------------

  function RotColumn(c: Column): (d: Column) {
    Column(c.r1, c.r2, c.r3, c.r0)
  }

  /** {02} to the power n - 1. */
  function RoundConstant(n: nat): (b: Byte) {
    if n <= 1 then 1 else Xtime(RoundConstant(n - 1))
  }

  /** What is made of word i - 1, for a key of nk words: j and k are i % nk and i / nk. */
  function Twisted(nk: nat, j: nat, k: nat, last: Column): (c: Column) {
    if j == 0 then AddColumn(SubColumn(RotColumn(last)), Column(RoundConstant(k), 0, 0, 0))
    else if nk > 6 && j == 4 then SubColumn(last)
    else last
  }

  /** Word i of the expanded key. */
  function ExpandedWord(key: seq<Column>, i: nat): (c: Column)
    requires |key| > 0
  {
    if i < |key| then key[i]
    else AddColumn(ExpandedWord(key, i - |key|), Twisted(|key|, i % |key|, i / |key|, ExpandedWord(key, i - 1)))
  }

  /** Round key u: words 4u to 4u + 3. */
  function RoundKey(key: seq<Column>, u: nat): (s: State)
    requires |key| > 0
  {
    State(ExpandedWord(key, 4 * u), ExpandedWord(key, 4 * u + 1), ExpandedWord(key, 4 * u + 2),
          ExpandedWord(key, 4 * u + 3))
  }

  // ------------------------------------------------------------------
  // One word through the circuit
  // ------------------------------------------------------------------

  function Widened(x: bv32): (y: Word) {
    Word(x as bv64)
  }

  function Narrowed(x: Word): (y: bv32) {
    (x.bits & 0xFFFFFFFF) as bv32
  }

  /** A word alone in a zeroed q[8]. */
  function Alone(x: Word): (q: Octet) {
    Octet(x, Word(0), Word(0), Word(0), Word(0), Word(0), Word(0), Word(0))
  }

  function SubWord(x: bv32): (y: bv32) {
    Narrowed(Ortho(Substitute(Ortho(Alone(Widened(x))))).w0)
  }

  lemma NarrowedBytes(x: Word)
    ensures ColumnOf(Narrowed(x)) == Column(ByteAt(x, 0), ByteAt(x, 8), ByteAt(x, 16), ByteAt(x, 24))
  {
  }

  lemma WidenedBytes(x: bv32)
    ensures var y := Widened(x); ColumnOf(x) == Column(ByteAt(y, 0), ByteAt(y, 8), ByteAt(y, 16), ByteAt(y, 24))
  {
  }

  lemma AloneFirst(x: Word)
    ensures Alone(x).w0 == x
  {
  }

  /** Byte 0, 8, 16, .. of word 0 is substituted by the circuit between two transpositions. */
  lemma SubThrough(q: Octet, base: bv6)
    requires base & 7 == 0
    ensures ByteAt(Ortho(Substitute(Ortho(q))).w0, base) == SubByte(ByteAt(q.w0, base))
  {
    hide At, Ortho, Substitute, SubByte, ByteAt;
    assert base & 0x38 == base;
    NthOfWords(q);
    NthOfWords(Ortho(Substitute(Ortho(q))));
    hide Nth;
    AtOrtho(Ortho(Substitute(Ortho(q))), base);
    OrthoTwice(Substitute(Ortho(q)));
    SubstituteAt(Ortho(q), base);
    AtOrtho(q, base);
  }

  lemma SubWordIsSubColumn(x: bv32)
    ensures ColumnOf(SubWord(x)) == SubColumn(ColumnOf(x))
  {
    hide Ortho, Substitute, SubByte, ByteAt, ColumnOf, Alone, Widened, Narrowed;
    var q := Alone(Widened(x));
    AloneFirst(Widened(x));
    WidenedBytes(x);
    NarrowedBytes(Ortho(Substitute(Ortho(q))).w0);
    SubThrough(q, 0);
    SubThrough(q, 8);
    SubThrough(q, 16);
    SubThrough(q, 24);
  }

  // ------------------------------------------------------------------
  // Keys that all lanes share
  // ------------------------------------------------------------------

  /** One word holding the bits of four, one lane of each. */
  function Compress(x0: Word, x1: Word, x2: Word, x3: Word): (y: Word) {
    Word((x0.bits & 0x1111111111111111) | (x1.bits & 0x2222222222222222)
         | (x2.bits & 0x4444444444444444) | (x3.bits & 0x8888888888888888))
  }

  /** Every bit of the first lane copied into all four. */
  function Fill(x: bv64): (y: Word) {
    Word((x << 4) - x)
  }

  function Lane0(y: Word): (x: bv64) { y.bits & 0x1111111111111111 }

  function Lane1(y: Word): (x: bv64) { (y.bits & 0x2222222222222222) >> 1 }

  function Lane2(y: Word): (x: bv64) { (y.bits & 0x4444444444444444) >> 2 }

  function Lane3(y: Word): (x: bv64) { (y.bits & 0x8888888888888888) >> 3 }

  function Expand0(y: Word): (x: Word) { Fill(Lane0(y)) }

  function Expand1(y: Word): (x: Word) { Fill(Lane1(y)) }

  function Expand2(y: Word): (x: Word) { Fill(Lane2(y)) }

  function Expand3(y: Word): (x: Word) { Fill(Lane3(y)) }

  predicate Sparse(x: bv64) {
    x & 0x1111111111111111 == x
  }

  lemma LanesAreSparse(y: Word)
    ensures Sparse(Lane0(y)) && Sparse(Lane1(y)) && Sparse(Lane2(y)) && Sparse(Lane3(y))
  {
  }

  lemma PickLanes(y: Word, p: bv6)
    requires p & 3 == 0
    ensures Pick(Word(Lane0(y)), p) == Pick(y, p)
    ensures Pick(Word(Lane1(y)), p) == Pick(y, p | 1)
    ensures Pick(Word(Lane2(y)), p) == Pick(y, p | 2)
    ensures Pick(Word(Lane3(y)), p) == Pick(y, p | 3)
  {
  }

  lemma PickFilled(x: bv64, p: bv6)
    requires Sparse(x)
    ensures Pick(Fill(x), p) == Pick(Word(x), p & 0x3c)
  {
    hide Fill, Pick, Sparse;
    FillCopies(x);
    PickCopied(x, p);
  }

  lemma FillCopies(x: bv64)
    requires Sparse(x)
    ensures Fill(x) == Word(x | (x << 1) | (x << 2) | (x << 3))
  {
  }

  lemma PickCopied(x: bv64, p: bv6)
    requires Sparse(x)
    ensures Pick(Word(x | (x << 1) | (x << 2) | (x << 3)), p) == Pick(Word(x), p & 0x3c)
  {
  }

  lemma PickExpanded(y: Word, p: bv6)
    ensures Pick(Expand0(y), p) == Pick(y, p & 0x3c)
    ensures Pick(Expand1(y), p) == Pick(y, (p & 0x3c) | 1)
    ensures Pick(Expand2(y), p) == Pick(y, (p & 0x3c) | 2)
    ensures Pick(Expand3(y), p) == Pick(y, (p & 0x3c) | 3)
  {
    hide Fill, Pick, Sparse, Lane0, Lane1, Lane2, Lane3;
    LanesAreSparse(y);
    PickFilled(Lane0(y), p);
    PickFilled(Lane1(y), p);
    PickFilled(Lane2(y), p);
    PickFilled(Lane3(y), p);
    PickLanes(y, p & 0x3c);
  }

  lemma PickCompressed(x0: Word, x1: Word, x2: Word, x3: Word, p: bv6)
    requires p & 3 == 0
    ensures Pick(Compress(x0, x1, x2, x3), p) == Pick(x0, p)
    ensures Pick(Compress(x0, x1, x2, x3), p | 1) == Pick(x1, p | 1)
    ensures Pick(Compress(x0, x1, x2, x3), p | 2) == Pick(x2, p | 2)
    ensures Pick(Compress(x0, x1, x2, x3), p | 3) == Pick(x3, p | 3)
  {
  }

  /** The four lanes of the word hold the same bits. */
  ghost predicate Uniform(x: Word) {
    forall p: bv6 :: Pick(x, p) == Pick(x, p & 0x3c)
  }

  lemma UniformPick(x: Word, p: bv6)
    requires Uniform(x) && p & 3 == 0
    ensures Pick(x, p | 1) == Pick(x, p) && Pick(x, p | 2) == Pick(x, p) && Pick(x, p | 3) == Pick(x, p)
  {
  }

  lemma ExpandUndoesCompress(x0: Word, x1: Word, x2: Word, x3: Word)
    requires Uniform(x0) && Uniform(x1) && Uniform(x2) && Uniform(x3)
    ensures var y := Compress(x0, x1, x2, x3);
      Expand0(y) == x0 && Expand1(y) == x1 && Expand2(y) == x2 && Expand3(y) == x3
  {
    hide Pick, Compress, Expand0, Expand1, Expand2, Expand3;
    var y := Compress(x0, x1, x2, x3);
    forall p: bv6
      ensures Pick(Expand0(y), p) == Pick(x0, p) && Pick(Expand1(y), p) == Pick(x1, p)
      ensures Pick(Expand2(y), p) == Pick(x2, p) && Pick(Expand3(y), p) == Pick(x3, p)
    {
      PickExpanded(y, p);
      PickCompressed(x0, x1, x2, x3, p & 0x3c);
      UniformPick(x1, p & 0x3c);
      UniformPick(x2, p & 0x3c);
      UniformPick(x3, p & 0x3c);
    }
    WordsEqual(Expand0(y), x0);
    WordsEqual(Expand1(y), x1);
    WordsEqual(Expand2(y), x2);
    WordsEqual(Expand3(y), x3);
  }

  /** A round key before compression: the same block in all four lanes. */
  function RoundOctet(b: Quad): (q: Octet) {
    Ortho(Interleave4(b, b, b, b))
  }

  lemma SameLanes(b: Quad, j: bv6, p: bv6)
    requires j < 8
    ensures Pick(Nth(RoundOctet(b), j), p) == Pick(Nth(RoundOctet(b), j), p & 0x3c)
  {
    hide Pick, Ortho, InterleaveIn;
    PickOrtho(Interleave4(b, b, b, b), j, p);
    PickOrtho(Interleave4(b, b, b, b), j, p & 0x3c);
    assert p & 0x38 == (p & 0x3c) & 0x38;
    assert (p & 0x3c) & 7 == p & 4;
  }

  lemma RoundWordUniform(b: Quad, j: bv6)
    requires j < 8
    ensures Uniform(Nth(RoundOctet(b), j))
  {
    hide Pick, Nth, RoundOctet;
    forall p: bv6
      ensures Pick(Nth(RoundOctet(b), j), p) == Pick(Nth(RoundOctet(b), j), p & 0x3c)
    {
      SameLanes(b, j, p);
    }
  }

  function Compressed(q: Octet): (c: (Word, Word)) {
    (Compress(q.w0, q.w1, q.w2, q.w3), Compress(q.w4, q.w5, q.w6, q.w7))
  }

  function Expanded(y: Word, z: Word): (q: Octet) {
    Octet(Expand0(y), Expand1(y), Expand2(y), Expand3(y), Expand0(z), Expand1(z), Expand2(z), Expand3(z))
  }

  /** The compressed form of a round key loses nothing. */
  lemma ExpandedRoundKey(b: Quad)
    ensures Expanded(Compressed(RoundOctet(b)).0, Compressed(RoundOctet(b)).1) == RoundOctet(b)
  {
    hide Compress, Expand0, Expand1, Expand2, Expand3, RoundOctet, Uniform;
    var q := RoundOctet(b);
    NthOfWords(q);
    hide Nth;
    RoundWordUniform(b, 0);
    RoundWordUniform(b, 1);
    RoundWordUniform(b, 2);
    RoundWordUniform(b, 3);
    RoundWordUniform(b, 4);
    RoundWordUniform(b, 5);
    RoundWordUniform(b, 6);
    RoundWordUniform(b, 7);
    ExpandUndoesCompress(q.w0, q.w1, q.w2, q.w3);
    ExpandUndoesCompress(q.w4, q.w5, q.w6, q.w7);
  }

  // ------------------------------------------------------------------
  // The schedule in arrays
  // ------------------------------------------------------------------

  const RCON: seq<Byte> := [0x01, 0x02, 0x04, 0x08, 0x10, 0x20, 0x40, 0x80, 0x1B, 0x36]

  lemma RconIsRoundConstant(k: nat)
    requires k < 10
    ensures RCON[k] == RoundConstant(k + 1)
  {
    if k == 0 {
    } else {
      RconIsRoundConstant(k - 1);
      assert RCON[k] == Xtime(RCON[k - 1]);
    }
  }

  predicate KeyLength(n: nat) {
    n == 16 || n == 24 || n == 32
  }

  function KeyColumns(key: seq<Byte>): (c: seq<Column>)
    ensures |c| == |key| / 4
  {
    seq(|key| / 4, i requires 0 <= i < |key| / 4 => Column(key[4 * i], key[4 * i + 1], key[4 * i + 2], key[4 * i + 3]))
  }

  lemma Quotient(i: nat, nk: nat, j: nat, k: nat)
    requires (nk == 4 || nk == 6 || nk == 8) && j < nk && i == nk * k + j
    ensures i / nk == k && i % nk == j
  {
  }

  lemma RoundBound(i: nat, nk: nat, j: nat, k: nat)
    requires (nk == 4 || nk == 6 || nk == 8) && i == nk * (k + 1) + j && i < 4 * nk + 28
    ensures k < 10
  {
  }

  lemma NextWord(i: nat, nk: nat, j: nat, k: nat)
    requires i == nk * (k + 1) + j
    ensures i + 1 == nk * (k + 1) + (j + 1)
    ensures j + 1 == nk ==> i + 1 == nk * (k + 2)
  {
  }

  function XorWords(v: bv32, w: bv32): (x: bv32) {
    v ^ w
  }

  function RotWord(w: bv32): (x: bv32) {
    (w << 24) | (w >> 8)
  }

  function RconWord(k: nat): (w: bv32)
    requires k < 10
  {
    RCON[k] as bv32
  }

  lemma ColumnXor(v: bv32, w: bv32)
    ensures ColumnOf(XorWords(v, w)) == AddColumn(ColumnOf(v), ColumnOf(w))
  {
  }

  lemma ColumnRot(w: bv32)
    ensures ColumnOf(RotWord(w)) == RotColumn(ColumnOf(w))
  {
  }

  lemma ColumnRcon(k: nat)
    requires k < 10
    ensures ColumnOf(RconWord(k)) == Column(RoundConstant(k + 1), 0, 0, 0)
  {
    hide RoundConstant;
    RconIsRoundConstant(k);
    ColumnLow(RCON[k]);
  }

  lemma ColumnLow(b: Byte)
    ensures ColumnOf(b as bv32) == Column(b, 0, 0, 0)
  {
  }

  function Twist(nk: nat, j: nat, k: nat, tmp: bv32): (t: bv32)
    requires k < 10
  {
    if j == 0 then XorWords(SubWord(RotWord(tmp)), RconWord(k))
    else if nk > 6 && j == 4 then SubWord(tmp)
    else tmp
  }

  lemma TwistIsTwisted(nk: nat, j: nat, k: nat, tmp: bv32)
    requires k < 10
    ensures ColumnOf(Twist(nk, j, k, tmp)) == Twisted(nk, j, k + 1, ColumnOf(tmp))
  {
    hide SubWord, ColumnOf, SubColumn, AddColumn, RotColumn, RoundConstant, XorWords, RotWord, RconWord;
    ColumnRot(tmp);
    SubWordIsSubColumn(RotWord(tmp));
    ColumnXor(SubWord(RotWord(tmp)), RconWord(k));
    ColumnRcon(k);
    SubWordIsSubColumn(tmp);
  }

  /** w is word m of the expanded key. */
  predicate IsWord(key: seq<Byte>, m: nat, w: bv32)
    requires KeyLength(|key|)
  {
    ColumnOf(w) == ExpandedWord(KeyColumns(key), m)
  }

  function KeyWord(key: seq<Byte>, i: nat): (w: bv32)
    requires 4 * i + 4 <= |key|
  {
    WordOf(Column(key[4 * i], key[4 * i + 1], key[4 * i + 2], key[4 * i + 3]))
  }

  lemma KeyWordIsWord(key: seq<Byte>, i: nat)
    requires KeyLength(|key|) && 4 * i + 4 <= |key|
    ensures IsWord(key, i, KeyWord(key, i))
  {
  }

  lemma NextIsWord(key: seq<Byte>, i: nat, j: nat, k: nat, last: bv32, back: bv32)
    requires KeyLength(|key|)
    requires var nk := |key| / 4;
      && nk <= i && j < nk && i == nk * (k + 1) + j && k < 10
      && IsWord(key, i - 1, last) && IsWord(key, i - nk, back)
    ensures IsWord(key, i, XorWords(back, Twist(|key| / 4, j, k, last)))
  {
    hide ColumnOf, Twist, Twisted, AddColumn, XorWords;
    Quotient(i, |key| / 4, j, k + 1);
    TwistIsTwisted(|key| / 4, j, k, last);
    ColumnXor(back, Twist(|key| / 4, j, k, last));
  }

  method ExpandWords(skey: array<bv32>, key: seq<Byte>, count: nat)
    requires KeyLength(|key|) && count == |key| + 28 <= skey.Length
    modifies skey
    ensures forall m :: 0 <= m < count ==> IsWord(key, m, skey[m])
  {
    hide IsWord, Twist, XorWords, KeyWord;
    var nk := |key| / 4;
    for i := 0 to nk
      invariant forall m :: 0 <= m < i ==> IsWord(key, m, skey[m])
    {
      skey[i] := KeyWord(key, i);
      KeyWordIsWord(key, i);
    }
    var tmp := skey[nk - 1];
    var i, j, k := nk, 0, 0;
    while i < count
      invariant nk <= i <= count && j < nk && i == nk * (k + 1) + j
      invariant IsWord(key, i - 1, tmp)
      invariant forall m :: 0 <= m < i ==> IsWord(key, m, skey[m])
    {
      RoundBound(i, nk, j, k);
      NextIsWord(key, i, j, k, tmp, skey[i - nk]);
      tmp := Twist(nk, j, k, tmp);
      tmp := XorWords(skey[i - nk], tmp);
      skey[i] := tmp;
      NextWord(i, nk, j, k);
      i, j := i + 1, j + 1;
      if j == nk {
        j, k := 0, k + 1;
      }
    }
  }

  /** Round key u of the schedule, bitsliced. */
  function KeyOctet(key: seq<Byte>, u: nat): (q: Octet)
    requires KeyLength(|key|)
  {
    RoundOctet(QuadOf(RoundKey(KeyColumns(key), u)))
  }

  function NumRounds(keyLength: nat): (n: nat) {
    if KeyLength(keyLength) then keyLength / 4 + 6 else 0
  }

  lemma QuadOfWords(s: State, b: Quad)
    requires ColumnOf(b.w0) == s.c0 && ColumnOf(b.w1) == s.c1 && ColumnOf(b.w2) == s.c2 && ColumnOf(b.w3) == s.c3
    ensures b == QuadOf(s)
  {
    hide ColumnOf, QuadOf;
    StateQuad(s, b);
  }

  /** The compressed schedule holds every round key of the expansion; other key lengths are refused. */
  method Keysched(comp: array<Word>, key: seq<Byte>) returns (numRounds: nat)
    requires comp.Length == 30
    modifies comp
    ensures numRounds == NumRounds(|key|)
    ensures !KeyLength(|key|) ==> forall i :: 0 <= i < 30 ==> comp[i] == old(comp[i])
    ensures KeyLength(|key|) ==> forall u :: 0 <= u <= numRounds ==> HoldsKey(comp, key, u)
  {
    if |key| != 16 && |key| != 24 && |key| != 32 {
      return 0;
    }
    numRounds := NumRounds(|key|);
    var skey := new bv32[60];
    ExpandWords(skey, key, |key| + 28);
    CompressKeys(comp, skey[..], key, numRounds);
  }

  /** Words 2u and 2u + 1 are round key u, compressed. */
  predicate HoldsKey(comp: array<Word>, key: seq<Byte>, u: nat)
    requires 2 * u + 1 < comp.Length && KeyLength(|key|)
    reads comp
  {
    (comp[2 * u], comp[2 * u + 1]) == Compressed(KeyOctet(key, u))
  }

  method CompressKeys(comp: array<Word>, skey: seq<bv32>, key: seq<Byte>, numRounds: nat)
    requires KeyLength(|key|) && 2 * (numRounds + 1) <= comp.Length && 4 * (numRounds + 1) <= |skey|
    requires forall m :: 0 <= m < 4 * (numRounds + 1) ==> IsWord(key, m, skey[m])
    modifies comp
    ensures forall u :: 0 <= u <= numRounds ==> HoldsKey(comp, key, u)
  {
    hide IsWord, Compressed, RoundOctet, KeyOctet;
    for u := 0 to numRounds + 1
      invariant forall v :: 0 <= v < u ==> HoldsKey(comp, key, v)
    {
      var b := Quad(skey[4 * u], skey[4 * u + 1], skey[4 * u + 2], skey[4 * u + 3]);
      KeyOfQuad(key, u, b);
      var c := Compressed(RoundOctet(b));
      comp[2 * u], comp[2 * u + 1] := c.0, c.1;
    }
  }

  lemma KeyOfQuad(key: seq<Byte>, u: nat, b: Quad)
    requires KeyLength(|key|)
    requires IsWord(key, 4 * u, b.w0) && IsWord(key, 4 * u + 1, b.w1)
    requires IsWord(key, 4 * u + 2, b.w2) && IsWord(key, 4 * u + 3, b.w3)
    ensures RoundOctet(b) == KeyOctet(key, u)
  {
    hide ColumnOf, QuadOf, RoundOctet, ExpandedWord, KeyColumns;
    QuadOfWords(RoundKey(KeyColumns(key), u), b);
  }

  method SkeyExpand(skey: array<Word>, numRounds: nat, comp: array<Word>)
    requires 8 * (numRounds + 1) <= skey.Length && 2 * (numRounds + 1) <= comp.Length && skey != comp
    modifies skey
    ensures forall u :: 0 <= u <= numRounds ==> OctetAt(skey, 8 * u) == Expanded(comp[2 * u], comp[2 * u + 1])
  {
    hide Expand0, Expand1, Expand2, Expand3;
    for u := 0 to 2 * (numRounds + 1)
      invariant forall t :: 0 <= t < u ==>
        && skey[4 * t] == Expand0(comp[t]) && skey[4 * t + 1] == Expand1(comp[t])
        && skey[4 * t + 2] == Expand2(comp[t]) && skey[4 * t + 3] == Expand3(comp[t])
    {
      skey[4 * u] := Expand0(comp[u]);
      skey[4 * u + 1] := Expand1(comp[u]);
      skey[4 * u + 2] := Expand2(comp[u]);
      skey[4 * u + 3] := Expand3(comp[u]);
    }
    forall u | 0 <= u <= numRounds
      ensures OctetAt(skey, 8 * u) == Expanded(comp[2 * u], comp[2 * u + 1])
    {
      assert 4 * (2 * u) == 8 * u && 4 * (2 * u + 1) == 8 * u + 4;
    }
  }

  /** The round keys of FIPS 197 for a key. */
  function CipherKeys(key: seq<Byte>): (keys: seq<State>)
    requires KeyLength(|key|)
    ensures |keys| == NumRounds(|key|) + 1
  {
    seq(NumRounds(|key|) + 1, u requires 0 <= u => RoundKey(KeyColumns(key), u))
  }

  lemma KeyOctetLane(key: seq<Byte>, u: nat, l: bv6)
    requires KeyLength(|key|) && l < 4
    ensures Lane(KeyOctet(key, u), l) == RoundKey(KeyColumns(key), u)
  {
    hide Lane, Ortho, Interleave4, RoundKey, StateOf, QuadOf;
    var s := RoundKey(KeyColumns(key), u);
    LoadedLanes(QuadOf(s), QuadOf(s), QuadOf(s), QuadOf(s));
    StateQuad(s, QuadOf(s));
    assert l == 0 || l == 1 || l == 2 || l == 3;
  }

  /** Expanding the compressed schedule gives every lane the round keys of FIPS 197. */
  lemma ScheduleIsCipherKeys(keys: seq<Octet>, key: seq<Byte>, l: bv6)
    requires KeyLength(|key|) && l < 4 && |keys| == NumRounds(|key|) + 1
    requires forall u :: 0 <= u < |keys| ==>
      keys[u] == Expanded(Compressed(KeyOctet(key, u)).0, Compressed(KeyOctet(key, u)).1)
    ensures LaneKeys(keys, l) == CipherKeys(key)
  {
    hide Lane, RoundKey, KeyColumns, Expanded, Compressed, RoundOctet, QuadOf;
    forall u | 0 <= u < |keys|
      ensures Lane(keys[u], l) == RoundKey(KeyColumns(key), u)
    {
      ExpandedRoundKey(QuadOf(RoundKey(KeyColumns(key), u)));
      KeyOctetLane(key, u, l);
    }
  }
}
