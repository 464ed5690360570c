// Unpadded base64 (RFC 4648 sections 4 and 3.2) over one buffer: encoding from
// the tail of the output region and decoding onto the input region.
module Base64 {
  import opened Common
  import opened Aes
  import opened Cbc

  // ------------------------------------------------------------------
  // The alphabet
  // ------------------------------------------------------------------

  /** ENCODE_BASE64: A-Z, a-z, 0-9, + and /. */
  function EncodeChar(v: Byte): (c: Byte) {
    if v < 26 then v + 0x41
    else if v < 52 then (v - 26) + 0x61
    else if v < 62 then (v - 52) + 0x30
    else if v == 62 then 0x2B else 0x2F
  }

  /** DECODE_BASE64; the entry for every other character is the byte of -1. */
  function DecodeChar(c: Byte): (v: Byte) {
    if 0x41 <= c < 0x5B then c - 0x41
    else if 0x61 <= c < 0x7B then (c - 0x61) + 26
    else if 0x30 <= c < 0x3A then (c - 0x30) + 52
    else if c == 0x2B then 62
    else if c == 0x2F then 63
    else 0xFF
  }

  lemma DecodedChar(v: Byte)
    requires v < 64
    ensures DecodeChar(EncodeChar(v) & 0x7F) == v
  {
  }

  /** A character of the alphabet. */
  predicate InAlphabet(c: Byte) {
    c < 0x80 && DecodeChar(c) < 64
  }

  // ------------------------------------------------------------------
  // Lengths
  // ------------------------------------------------------------------

  function EncodeLength(n: nat): (m: nat)
    ensures m >= n
  {
    4 * ((n + 2) / 3) + (n + 2) % 3 - 2
  }

  function DecodeLength(n: nat): (m: Option<nat>)
    ensures m.Some? ==> m.value <= n
  {
    if n % 4 == 1 then None else Some(3 * ((n + 2) / 4) + (n + 2) % 4 - 2)
  }

  lemma LengthsAgree(n: nat)
    ensures DecodeLength(EncodeLength(n)) == Some(n)
  {
    var g, r := n / 3, n % 3;
    assert (n + 2) / 3 == g + (if r == 0 then 0 else 1) && (n + 2) % 3 == if r == 0 then 2 else r - 1;
    var m := EncodeLength(n);
    assert m == 4 * g + if r == 0 then 0 else r + 1;
    FourParts(g, m - 4 * g);
  }

  lemma FourParts(g: nat, r: nat)
    requires r < 4
    ensures (4 * g + r) % 4 == r
    ensures (4 * g + r + 2) / 4 == g + (if r >= 2 then 1 else 0)
    ensures (4 * g + r + 2) % 4 == if r >= 2 then r - 2 else r + 2
  {
  }

  // ------------------------------------------------------------------
  // The encoding
  // ------------------------------------------------------------------

  /** A byte of the data, or the zero bits that fill up the last group. */
  function Nth(s: seq<Byte>, i: nat): (b: Byte) {
    if i < |s| then s[i] else 0
  }

  /** The j-th group of six bits of three bytes. */
  function Sextet(a: Byte, b: Byte, c: Byte, j: nat): (v: Byte) {
    if j == 0 then a >> 2
    else if j == 1 then ((a & 0x03) << 4) | (b >> 4)
    else if j == 2 then ((b & 0x0F) << 2) | (c >> 6)
    else c & 0x3F
  }

  function CharAt(s: seq<Byte>, k: nat): (c: Byte) {
    var g := 3 * (k / 4);
    EncodeChar(Sextet(Nth(s, g), Nth(s, g + 1), Nth(s, g + 2), k % 4))
  }

  function Encode(s: seq<Byte>): (t: seq<Byte>)
    ensures |t| == EncodeLength(|s|)
  {
    seq(EncodeLength(|s|), k requires 0 <= k => CharAt(s, k))
  }

  // ------------------------------------------------------------------
  // The decoding
  // ------------------------------------------------------------------

  function Value(c: Byte): (v: Byte) {
    DecodeChar(c & 0x7F)
  }

  /** Four values shifted together six bits at a time. */
  function Join4(v0: Byte, v1: Byte, v2: Byte, v3: Byte): (v: bv32) {
    (((((v0 as bv32 << 6) | v1 as bv32) << 6) | v2 as bv32) << 6) | v3 as bv32
  }

  function Join3(v0: Byte, v1: Byte, v2: Byte): (v: bv32) {
    (((v0 as bv32 << 6) | v1 as bv32) << 6) | v2 as bv32
  }

  function Join2(v0: Byte, v1: Byte): (v: bv32) {
    (v0 as bv32 << 6) | v1 as bv32
  }

  /** The low byte after a shift, as an assignment to a byte takes it. */
  function LowByte(v: bv32, shift: nat): (b: Byte)
    requires shift < 32
  {
    ((v >> shift) & 0xFF) as bv8
  }

  /** Byte 0, 1 or 2 of four values. */
  function Combined(v0: Byte, v1: Byte, v2: Byte, v3: Byte, j: nat): (b: Byte) {
    LowByte(Join4(v0, v1, v2, v3), if j == 0 then 16 else if j == 1 then 8 else 0)
  }

  /** The j-th byte of four characters. */
  function Octet3(c0: Byte, c1: Byte, c2: Byte, c3: Byte, j: nat): (b: Byte) {
    Combined(Value(c0), Value(c1), Value(c2), Value(c3), j)
  }

  const A: Byte := 0x41

  /** A character of the text, or the A that stands for zero bits. */
  function NthChar(t: seq<Byte>, i: nat): (c: Byte) {
    if i < |t| then t[i] else A
  }

  function ByteAt(t: seq<Byte>, i: nat): (b: Byte) {
    var g := 4 * (i / 3);
    Octet3(NthChar(t, g), NthChar(t, g + 1), NthChar(t, g + 2), NthChar(t, g + 3), i % 3)
  }

  function Decode(t: seq<Byte>): (s: Option<seq<Byte>>)
  {
    match DecodeLength(|t|)
    case None => None
    case Some(n) => Some(seq(n, i requires 0 <= i => ByteAt(t, i)))
  }

  // ------------------------------------------------------------------
  // Round trips
  // ------------------------------------------------------------------

  lemma SextetsJoined(a: Byte, b: Byte, c: Byte)
    ensures var v := Join4(Sextet(a, b, c, 0), Sextet(a, b, c, 1), Sextet(a, b, c, 2), Sextet(a, b, c, 3));
      v == (a as bv32 << 16) | (b as bv32 << 8) | c as bv32
  {
  }

  lemma JoinedBytes(a: Byte, b: Byte, c: Byte)
    ensures var v := (a as bv32 << 16) | (b as bv32 << 8) | c as bv32;
      LowByte(v, 16) == a && LowByte(v, 8) == b && LowByte(v, 0) == c
  {
  }

  lemma SextetsCombined(a: Byte, b: Byte, c: Byte, j: nat)
    requires j < 3
    ensures Combined(Sextet(a, b, c, 0), Sextet(a, b, c, 1), Sextet(a, b, c, 2), Sextet(a, b, c, 3), j)
         == if j == 0 then a else if j == 1 then b else c
  {
    hide Sextet, Join4, LowByte;
    SextetsJoined(a, b, c);
    JoinedBytes(a, b, c);
  }

  lemma SextetIsSmall(a: Byte, b: Byte, c: Byte, j: nat)
    ensures Sextet(a, b, c, j) < 64
  {
  }

  lemma GroupUndone(a: Byte, b: Byte, c: Byte, j: nat)
    requires j < 3
    ensures Octet3(EncodeChar(Sextet(a, b, c, 0)), EncodeChar(Sextet(a, b, c, 1)),
                   EncodeChar(Sextet(a, b, c, 2)), EncodeChar(Sextet(a, b, c, 3)), j)
         == if j == 0 then a else if j == 1 then b else c
  {
    hide EncodeChar, DecodeChar, Sextet, Combined;
    SextetIsSmall(a, b, c, 0);
    SextetIsSmall(a, b, c, 1);
    SextetIsSmall(a, b, c, 2);
    SextetIsSmall(a, b, c, 3);
    DecodedChar(Sextet(a, b, c, 0));
    DecodedChar(Sextet(a, b, c, 1));
    DecodedChar(Sextet(a, b, c, 2));
    DecodedChar(Sextet(a, b, c, 3));
    SextetsCombined(a, b, c, j);
  }

  /** Past the end of the text, the zero bits of a short last group read as the letter A. */
  lemma NthCharOf(s: seq<Byte>, k: nat)
    requires k / 4 * 3 < |s|
    ensures NthChar(Encode(s), k) == CharAt(s, k)
  {
  }

  lemma NthOfGroup(s: seq<Byte>, g: nat, j: nat)
    requires 3 * g < |s| && j < 4
    ensures NthChar(Encode(s), 4 * g + j) == EncodeChar(Sextet(Nth(s, 3 * g), Nth(s, 3 * g + 1), Nth(s, 3 * g + 2), j))
  {
    hide EncodeChar, Sextet, Encode, NthChar, Nth;
    assert (4 * g + j) / 4 == g && (4 * g + j) % 4 == j;
    NthCharOf(s, 4 * g + j);
  }

  lemma NthInside(s: seq<Byte>, g: nat, j: nat)
    requires 3 * g + j < |s| && j < 3
    ensures Nth(s, 3 * g + j) == s[3 * g + j]
  {
  }

  lemma ByteUndone(s: seq<Byte>, i: nat)
    requires i < |s|
    ensures ByteAt(Encode(s), i) == s[i]
  {
    hide EncodeChar, Sextet, Octet3, Encode, NthChar, CharAt, Nth;
    var g := i / 3;
    NthOfGroup(s, g, 0);
    NthOfGroup(s, g, 1);
    NthOfGroup(s, g, 2);
    NthOfGroup(s, g, 3);
    NthInside(s, g, i % 3);
    GroupUndone(Nth(s, 3 * g), Nth(s, 3 * g + 1), Nth(s, 3 * g + 2), i % 3);
  }

  /** Decoding undoes encoding for every byte string. */
  lemma DecodeEncode(s: seq<Byte>)
    ensures Decode(Encode(s)) == Some(s)
  {
    hide CharAt, ByteAt;
    LengthsAgree(|s|);
    forall i | 0 <= i < |s|
      ensures ByteAt(Encode(s), i) == s[i]
    {
      ByteUndone(s, i);
    }
    var t := Encode(s);
    assert seq(|s|, i requires 0 <= i => ByteAt(t, i)) == s;
  }

  // ------------------------------------------------------------------
  // Which texts are encodings
  // ------------------------------------------------------------------

  predicate AllInAlphabet(t: seq<Byte>) {
    forall i :: 0 <= i < |t| ==> InAlphabet(t[i])
  }

  /** The unused low bits of a short last group are zero. */
  predicate ZeroTail(t: seq<Byte>) {
    && (|t| % 4 == 2 ==> Value(t[|t| - 1]) & 0x0F == 0)
    && (|t| % 4 == 3 ==> Value(t[|t| - 1]) & 0x03 == 0)
  }

  lemma CombinedSextets(v0: Byte, v1: Byte, v2: Byte, v3: Byte, j: nat)
    requires v0 < 64 && v1 < 64 && v2 < 64 && v3 < 64 && j < 4
    ensures Sextet(Combined(v0, v1, v2, v3, 0), Combined(v0, v1, v2, v3, 1), Combined(v0, v1, v2, v3, 2), j)
         == if j == 0 then v0 else if j == 1 then v1 else if j == 2 then v2 else v3
  {
  }

  lemma ShortSextets(v0: Byte, v1: Byte, v2: Byte)
    requires v0 < 64 && v1 < 64 && v2 < 64
    ensures Sextet(Combined(v0, v1, 0, 0, 0), 0, 0, 0) == v0
    ensures Sextet(Combined(v0, v1, 0, 0, 0), 0, 0, 1) == v1 <==> v1 & 0x0F == 0
    ensures Sextet(Combined(v0, v1, v2, 0, 0), Combined(v0, v1, v2, 0, 1), 0, 0) == v0
    ensures Sextet(Combined(v0, v1, v2, 0, 0), Combined(v0, v1, v2, 0, 1), 0, 1) == v1
    ensures Sextet(Combined(v0, v1, v2, 0, 0), Combined(v0, v1, v2, 0, 1), 0, 2) == v2 <==> v2 & 0x03 == 0
  {
  }

  lemma SameChar(v: Byte, c: Byte)
    requires v < 64 && InAlphabet(c)
    ensures EncodeChar(v) == c <==> v == Value(c)
    ensures Value(c) < 64
  {
  }

  /** A group of r characters decodes to r - 1 bytes. */
  lemma DecodedNth(t: seq<Byte>, s: seq<Byte>, g: nat, j: nat)
    requires Decode(t) == Some(s) && 4 * g < |t| && j < 3
    ensures Nth(s, 3 * g + j)
         == if 4 * g + j + 2 <= |t|
            then Octet3(NthChar(t, 4 * g), NthChar(t, 4 * g + 1), NthChar(t, 4 * g + 2), NthChar(t, 4 * g + 3), j)
            else 0
  {
    hide Octet3, NthChar, ByteAt;
    GroupBytes(t, g, j);
  }

  lemma ValueOfNth(t: seq<Byte>, i: nat)
    requires AllInAlphabet(t)
    ensures Value(NthChar(t, i)) < 64 && (i >= |t| ==> Value(NthChar(t, i)) == 0)
  {
    hide InAlphabet, Value, EncodeChar;
    AlphabetA();
    ValueOfA();
    SameChar(0, NthChar(t, i));
  }

  /** All characters of a full group come back. */
  lemma WholeGroupBack(t: seq<Byte>, s: seq<Byte>, g: nat, j: nat)
    requires Decode(t) == Some(s) && AllInAlphabet(t) && 4 * g + 4 <= |t| && j < 4
    ensures Sextet(Nth(s, 3 * g), Nth(s, 3 * g + 1), Nth(s, 3 * g + 2), j) == Value(NthChar(t, 4 * g + j))
  {
    hide Sextet, Combined, Value, AllInAlphabet, Decode, Nth, NthChar;
    ValueOfNth(t, 4 * g);
    ValueOfNth(t, 4 * g + 1);
    ValueOfNth(t, 4 * g + 2);
    ValueOfNth(t, 4 * g + 3);
    DecodedNth(t, s, g, 0);
    DecodedNth(t, s, g, 1);
    DecodedNth(t, s, g, 2);
    CombinedSextets(Value(NthChar(t, 4 * g)), Value(NthChar(t, 4 * g + 1)),
                    Value(NthChar(t, 4 * g + 2)), Value(NthChar(t, 4 * g + 3)), j);
  }

  /** Of two characters the first comes back, and the second exactly when its unused bits are zero. */
  lemma PairBack(t: seq<Byte>, s: seq<Byte>, g: nat, j: nat)
    requires Decode(t) == Some(s) && AllInAlphabet(t) && |t| == 4 * g + 2 && j < 2
    ensures Sextet(Nth(s, 3 * g), Nth(s, 3 * g + 1), Nth(s, 3 * g + 2), j) == Value(NthChar(t, 4 * g + j))
       <==> j == 0 || Value(NthChar(t, 4 * g + 1)) & 0x0F == 0
  {
    hide Sextet, Combined, Value, AllInAlphabet, Decode, Nth, NthChar;
    ValueOfNth(t, 4 * g);
    ValueOfNth(t, 4 * g + 1);
    ValueOfNth(t, 4 * g + 2);
    ValueOfNth(t, 4 * g + 3);
    DecodedNth(t, s, g, 0);
    DecodedNth(t, s, g, 1);
    DecodedNth(t, s, g, 2);
    ShortSextets(Value(NthChar(t, 4 * g)), Value(NthChar(t, 4 * g + 1)), 0);
  }

  /** Of three characters the first two come back, and the third exactly when its unused bits are zero. */
  lemma TripleBack(t: seq<Byte>, s: seq<Byte>, g: nat, j: nat)
    requires Decode(t) == Some(s) && AllInAlphabet(t) && |t| == 4 * g + 3 && j < 3
    ensures Sextet(Nth(s, 3 * g), Nth(s, 3 * g + 1), Nth(s, 3 * g + 2), j) == Value(NthChar(t, 4 * g + j))
       <==> j < 2 || Value(NthChar(t, 4 * g + 2)) & 0x03 == 0
  {
    hide Sextet, Combined, Value, AllInAlphabet, Decode, Nth, NthChar;
    ValueOfNth(t, 4 * g);
    ValueOfNth(t, 4 * g + 1);
    ValueOfNth(t, 4 * g + 2);
    ValueOfNth(t, 4 * g + 3);
    DecodedNth(t, s, g, 0);
    DecodedNth(t, s, g, 1);
    DecodedNth(t, s, g, 2);
    ShortSextets(Value(NthChar(t, 4 * g)), Value(NthChar(t, 4 * g + 1)), Value(NthChar(t, 4 * g + 2)));
  }

  lemma TailOf(t: seq<Byte>, g: nat)
    requires |t| != 4 * g + 1 && 4 * g < |t| <= 4 * g + 4
    ensures ZeroTail(t) <==> match |t| - 4 * g
      case 2 => Value(NthChar(t, 4 * g + 1)) & 0x0F == 0
      case 3 => Value(NthChar(t, 4 * g + 2)) & 0x03 == 0
      case _ => true
  {
    hide Value;
  }

  lemma NoLoneChar(t: seq<Byte>, g: nat)
    requires Decode(t).Some?
    ensures |t| != 4 * g + 1
  {
    hide ByteAt;
  }

  /** Which six bits come back: all those of a full group, and of a short one all
      but the last, which comes back exactly when its unused bits are zero. */
  lemma SextetBack(t: seq<Byte>, s: seq<Byte>, g: nat, j: nat)
    requires Decode(t) == Some(s) && AllInAlphabet(t) && 4 * g + j < |t| && j < 4
    ensures Sextet(Nth(s, 3 * g), Nth(s, 3 * g + 1), Nth(s, 3 * g + 2), j) == Value(NthChar(t, 4 * g + j))
       <==> 4 * g + j < |t| - 1 || ZeroTail(t)
  {
    hide Sextet, Value, AllInAlphabet, Decode, Nth, NthChar, ZeroTail;
    NoLoneChar(t, g);
    if 4 * g + 4 <= |t| {
      WholeGroupBack(t, s, g, j);
      if |t| == 4 * g + 4 {
        TailOf(t, g);
      }
    } else if |t| == 4 * g + 2 {
      PairBack(t, s, g, j);
      TailOf(t, g);
    } else {
      TripleBack(t, s, g, j);
      TailOf(t, g);
    }
  }

  /** A character of a full group comes back; the last one of a short group exactly when its unused bits are zero. */
  lemma CharBack(t: seq<Byte>, s: seq<Byte>, k: nat)
    requires Decode(t) == Some(s) && AllInAlphabet(t) && k < |t|
    ensures CharAt(s, k) == t[k] <==> k < |t| - 1 || ZeroTail(t)
  {
    hide InAlphabet, EncodeChar, Sextet, Value, Decode, Nth, ZeroTail;
    var g, j := k / 4, k % 4;
    SextetBack(t, s, g, j);
    SextetIsSmall(Nth(s, 3 * g), Nth(s, 3 * g + 1), Nth(s, 3 * g + 2), j);
    SameChar(Sextet(Nth(s, 3 * g), Nth(s, 3 * g + 1), Nth(s, 3 * g + 2), j), t[k]);
  }

  lemma AlphabetA()
    ensures InAlphabet(A)
  {
  }

  lemma DecodedLength(t: seq<Byte>, s: seq<Byte>)
    requires Decode(t) == Some(s)
    ensures EncodeLength(|s|) == |t| && (|t| == 0 ==> ZeroTail(t))
  {
    hide ByteAt, Value, EncodeLength, DecodeLength;
    LengthsInverse(|t|);
  }

  lemma LengthsInverse(m: nat)
    requires DecodeLength(m).Some?
    ensures EncodeLength(DecodeLength(m).value) == m
  {
  }

  /** A text over the alphabet is the encoding of what it decodes to exactly when its unused bits are zero. */
  lemma EncodeDecode(t: seq<Byte>)
    requires AllInAlphabet(t) && Decode(t).Some?
    ensures Encode(Decode(t).value) == t <==> ZeroTail(t)
  {
    hide CharAt, Decode, AllInAlphabet, ZeroTail;
    var s := Decode(t).value;
    DecodedLength(t, s);
    forall k | 0 <= k < |t|
      ensures Encode(s)[k] == t[k] <==> k < |t| - 1 || ZeroTail(t)
    {
      CharBack(t, s, k);
    }
    EqualUpToLast(Encode(s), t, ZeroTail(t));
  }

  lemma EqualUpToLast<T>(a: seq<T>, b: seq<T>, same: bool)
    requires |a| == |b| && (|a| == 0 ==> same)
    requires forall k :: 0 <= k < |a| ==> (a[k] == b[k] <==> k < |a| - 1 || same)
    ensures a == b <==> same
  {
    if !same {
      assert a[|a| - 1] != b[|a| - 1];
    }
  }

  // ------------------------------------------------------------------
  // In place
  // ------------------------------------------------------------------

  /** Three bytes in one number. */
  function Packed(a: Byte, b: Byte, c: Byte): (v: bv32) {
    (((a as bv32 << 8) | b as bv32) << 8) | c as bv32
  }

  /** ENCODE_BASE64 of six bits of the number. */
  function CharOf(v: bv32, j: nat): (c: Byte) {
    var w := if j == 0 then v >> 18 else if j == 1 then v >> 12 else if j == 2 then v >> 6 else v;
    EncodeChar((w & 0x3F) as bv8)
  }

  lemma PackedChars(a: Byte, b: Byte, c: Byte, j: nat)
    requires j < 4
    ensures CharOf(Packed(a, b, c), j) == EncodeChar(Sextet(a, b, c, j))
  {
    hide EncodeChar;
  }

  /** The first n characters for three bytes. */
  function Group(a: Byte, b: Byte, c: Byte, n: nat): (t: seq<Byte>) {
    seq(n, j requires 0 <= j => EncodeChar(Sextet(a, b, c, j)))
  }

  lemma GroupIs(a: Byte, b: Byte, c: Byte, n: nat)
    requires n <= 4
    ensures var v := Packed(a, b, c); Group(a, b, c, n) == [CharOf(v, 0), CharOf(v, 1), CharOf(v, 2), CharOf(v, 3)][..n]
  {
    hide EncodeChar, Sextet, Packed, CharOf;
    PackedChars(a, b, c, 0);
    PackedChars(a, b, c, 1);
    PackedChars(a, b, c, 2);
    PackedChars(a, b, c, 3);
  }

  /** Writes the first n characters of a group, from the last to the first. */
  method WriteGroup(output: array<Byte>, at: nat, a: Byte, b: Byte, c: Byte, n: nat)
    requires 2 <= n <= 4 && at + n <= output.Length
    modifies output
    ensures output[at..at + n] == Group(a, b, c, n)
    ensures forall k :: 0 <= k < output.Length && !(at <= k < at + n) ==> output[k] == old(output[k])
  {
    hide Group, Packed, CharOf;
    var value := Packed(a, b, c);
    GroupIs(a, b, c, n);
    if n == 4 {
      output[at + 3] := CharOf(value, 3);
    }
    if n >= 3 {
      output[at + 2] := CharOf(value, 2);
    }
    output[at + 1] := CharOf(value, 1);
    output[at] := CharOf(value, 0);
    FilledGroup(output[..], at, n, CharOf(value, 0), CharOf(value, 1), CharOf(value, 2), CharOf(value, 3));
  }

  lemma FilledGroup(s: seq<Byte>, at: nat, n: nat, c0: Byte, c1: Byte, c2: Byte, c3: Byte)
    requires 2 <= n <= 4 && at + n <= |s|
    requires s[at] == c0 && s[at + 1] == c1 && (n >= 3 ==> s[at + 2] == c2) && (n >= 4 ==> s[at + 3] == c3)
    ensures s[at..at + n] == [c0, c1, c2, c3][..n]
  {
  }

  /** The first n characters of group g. */
  lemma GroupChars(s: seq<Byte>, g: nat, j: nat)
    requires j < 4
    ensures CharAt(s, 4 * g + j) == EncodeChar(Sextet(Nth(s, 3 * g), Nth(s, 3 * g + 1), Nth(s, 3 * g + 2), j))
  {
  }

  /** What is written so far, what has not been read yet, and the rest. */
  ghost predicate EncodedSoFar(s: seq<Byte>, before: seq<Byte>, after: seq<Byte>, to: nat, n: nat) {
    && |after| == |before| && to + n <= |after|
    && (forall k :: 0 <= k < n ==> after[to + k] == CharAt(s, k))
    && (forall k :: 0 <= k < |after| && !(to <= k < to + n) ==> after[k] == before[k])
  }

  lemma EncodedMore(s: seq<Byte>, before: seq<Byte>, now: seq<Byte>, after: seq<Byte>, to: nat, g: nat, m: nat)
    requires EncodedSoFar(s, before, now, to, 4 * g) && m <= 4 && |after| == |now| && to + 4 * g + m <= |now|
    requires after[to + 4 * g..to + 4 * g + m] == Group(Nth(s, 3 * g), Nth(s, 3 * g + 1), Nth(s, 3 * g + 2), m)
    requires forall k :: 0 <= k < |now| && !(to + 4 * g <= k < to + 4 * g + m) ==> after[k] == now[k]
    ensures EncodedSoFar(s, before, after, to, 4 * g + m)
  {
    hide EncodeChar, Sextet, Nth, CharAt;
    forall k | 0 <= k < 4 * g + m
      ensures after[to + k] == CharAt(s, k)
    {
      if k >= 4 * g {
        GroupChars(s, g, k - 4 * g);
        assert after[to + k] == after[to + 4 * g..to + 4 * g + m][k - 4 * g];
      }
    }
  }

  lemma EncodedNone(s: seq<Byte>, before: seq<Byte>, to: nat)
    requires to <= |before|
    ensures EncodedSoFar(s, before, before, to, 0)
  {
  }

  lemma EncodedAll(s: seq<Byte>, before: seq<Byte>, after: seq<Byte>, to: nat)
    requires EncodedSoFar(s, before, after, to, EncodeLength(|s|))
    ensures after[to..to + EncodeLength(|s|)] == Encode(s)
    ensures SameOutside(before, after, to, EncodeLength(|s|))
  {
  }

  /** The whole groups, front to back. */
  method EncodeGroups(input: array<Byte>, from: nat, length: nat, output: array<Byte>, to: nat)
    requires from + length <= input.Length && to + EncodeLength(length) <= output.Length
    requires input != output || to + EncodeLength(length) <= from + length || from + length <= to
    modifies output
    ensures EncodedSoFar(old(input[from..from + length]), old(output[..]), output[..], to, 4 * (length / 3))
    ensures input[from + 3 * (length / 3)..from + length] == old(input[from..from + length])[3 * (length / 3)..]
  {
    hide CharAt, Group, EncodedSoFar;
    ghost var s, before := input[from..from + length], output[..];
    EncodedNone(s, before, to);
    var g := 0;
    while g < length / 3
      invariant 0 <= g <= length / 3
      invariant forall i :: 3 * g <= i < length ==> input[from + i] == s[i]
      invariant EncodedSoFar(s, before, output[..], to, 4 * g)
    {
      ghost var now := output[..];
      WriteGroup(output, to + 4 * g, input[from + 3 * g], input[from + 3 * g + 1], input[from + 3 * g + 2], 4);
      EncodedMore(s, before, now, output[..], to, g, 4);
      g := g + 1;
    }
  }

  /** One or two bytes after the last whole group. */
  method EncodeTail(input: array<Byte>, from: nat, length: nat, output: array<Byte>, to: nat,
                    ghost s: seq<Byte>, ghost before: seq<Byte>)
    requires from + length <= input.Length && to + EncodeLength(length) <= output.Length && length % 3 != 0
    requires |s| == length && input[from + 3 * (length / 3)..from + length] == s[3 * (length / 3)..]
    requires EncodedSoFar(s, before, output[..], to, 4 * (length / 3))
    modifies output
    ensures EncodedSoFar(s, before, output[..], to, EncodeLength(length))
  {
    hide CharAt, Group, EncodedSoFar;
    var g := length / 3;
    var remainder := length - 3 * g;
    ghost var now, tail := output[..], input[from + 3 * g..from + length];
    assert tail[0] == Nth(s, 3 * g);
    assert remainder == 2 ==> tail[1] == Nth(s, 3 * g + 1);
    var a := input[from + 3 * g];
    var b := if remainder == 2 then input[from + 3 * g + 1] else 0;
    assert a == Nth(s, 3 * g) && b == Nth(s, 3 * g + 1) && Nth(s, 3 * g + 2) == 0;
    WriteGroup(output, to + 4 * g, a, b, 0, remainder + 1);
    EncodedMore(s, before, now, output[..], to, g, remainder + 1);
  }

  /** `_olm_encode_base64`. The two buffers may be one, with the data at the tail of the output region. */
  method EncodeBase64(input: array<Byte>, from: nat, length: nat, output: array<Byte>, to: nat) returns (written: nat)
    requires from + length <= input.Length && to + EncodeLength(length) <= output.Length
    requires input != output || to + EncodeLength(length) <= from + length || from + length <= to
    modifies output
    ensures written == EncodeLength(length)
    ensures output[to..to + written] == Encode(old(input[from..from + length]))
    ensures SameOutside(old(output[..]), output[..], to, written)
  {
    hide CharAt, Encode, Group, SameOutside, EncodedSoFar;
    ghost var s, before := input[from..from + length], output[..];
    EncodeGroups(input, from, length, output, to);
    if length % 3 != 0 {
      EncodeTail(input, from, length, output, to, s, before);
    }
    written := EncodeLength(length);
    EncodedAll(s, before, output[..], to);
  }

  /** The first n bytes of four characters. */
  function Bytes3(c0: Byte, c1: Byte, c2: Byte, c3: Byte, n: nat): (s: seq<Byte>) {
    seq(n, j requires 0 <= j => Octet3(c0, c1, c2, c3, j))
  }

  lemma ShortGroups(v0: Byte, v1: Byte, v2: Byte)
    ensures LowByte(Join2(v0, v1), 4) == Combined(v0, v1, 0, 0, 0)
    ensures LowByte(Join3(v0, v1, v2), 2) == Combined(v0, v1, v2, 0, 1)
    ensures LowByte(Join3(v0, v1, v2), 10) == Combined(v0, v1, v2, 0, 0)
  {
  }

  lemma ValueOfA()
    ensures Value(A) == 0
  {
  }

  method ReadGroup(c0: Byte, c1: Byte, c2: Byte, c3: Byte, output: array<Byte>, at: nat)
    requires at + 3 <= output.Length
    modifies output
    ensures output[at..at + 3] == Bytes3(c0, c1, c2, c3, 3)
    ensures forall k :: 0 <= k < output.Length && !(at <= k < at + 3) ==> output[k] == old(output[k])
  {
    hide Value, Join4, LowByte;
    var value := Join4(Value(c0), Value(c1), Value(c2), Value(c3));
    output[at + 2] := LowByte(value, 0);
    output[at + 1] := LowByte(value, 8);
    output[at] := LowByte(value, 16);
  }

  method ReadTail(c0: Byte, c1: Byte, c2: Byte, remainder: nat, output: array<Byte>, at: nat)
    requires (remainder == 2 && c2 == A) || remainder == 3
    requires at + remainder - 1 <= output.Length
    modifies output
    ensures output[at..at + remainder - 1] == Bytes3(c0, c1, c2, A, remainder - 1)
    ensures forall k :: 0 <= k < output.Length && !(at <= k < at + remainder - 1) ==> output[k] == old(output[k])
  {
    ValueOfA();
    hide Value, Join2, Join3, LowByte, Combined;
    ShortGroups(Value(c0), Value(c1), Value(c2));
    if remainder == 3 {
      var value := Join3(Value(c0), Value(c1), Value(c2));
      output[at + 1] := LowByte(value, 2);
      output[at] := LowByte(value, 10);
    } else {
      output[at] := LowByte(Join2(Value(c0), Value(c1)), 4);
    }
  }

  ghost predicate DecodedSoFar(t: seq<Byte>, before: seq<Byte>, after: seq<Byte>, to: nat, n: nat) {
    && |after| == |before| && to + n <= |after|
    && (forall i :: 0 <= i < n ==> after[to + i] == ByteAt(t, i))
    && (forall k :: 0 <= k < |after| && !(to <= k < to + n) ==> after[k] == before[k])
  }

  lemma GroupBytes(t: seq<Byte>, g: nat, j: nat)
    requires j < 3
    ensures ByteAt(t, 3 * g + j)
         == Octet3(NthChar(t, 4 * g), NthChar(t, 4 * g + 1), NthChar(t, 4 * g + 2), NthChar(t, 4 * g + 3), j)
  {
    hide Octet3;
  }

  lemma DecodedMore(t: seq<Byte>, before: seq<Byte>, now: seq<Byte>, after: seq<Byte>, to: nat, g: nat, m: nat)
    requires DecodedSoFar(t, before, now, to, 3 * g) && m <= 3 && |after| == |now| && to + 3 * g + m <= |now|
    requires after[to + 3 * g..to + 3 * g + m]
          == Bytes3(NthChar(t, 4 * g), NthChar(t, 4 * g + 1), NthChar(t, 4 * g + 2), NthChar(t, 4 * g + 3), m)
    requires forall k :: 0 <= k < |now| && !(to + 3 * g <= k < to + 3 * g + m) ==> after[k] == now[k]
    ensures DecodedSoFar(t, before, after, to, 3 * g + m)
  {
    hide Octet3, NthChar, ByteAt;
    forall i | 0 <= i < 3 * g + m
      ensures after[to + i] == ByteAt(t, i)
    {
      if i >= 3 * g {
        GroupBytes(t, g, i - 3 * g);
        assert after[to + i] == after[to + 3 * g..to + 3 * g + m][i - 3 * g];
      }
    }
  }

  lemma DecodedNone(t: seq<Byte>, before: seq<Byte>, to: nat)
    requires to <= |before|
    ensures DecodedSoFar(t, before, before, to, 0)
  {
  }

  lemma DecodedAll(t: seq<Byte>, before: seq<Byte>, after: seq<Byte>, to: nat)
    requires DecodeLength(|t|).Some? && DecodedSoFar(t, before, after, to, DecodeLength(|t|).value)
    ensures Decode(t).Some? && after[to..to + DecodeLength(|t|).value] == Decode(t).value
    ensures SameOutside(before, after, to, DecodeLength(|t|).value)
  {
  }

  /** The whole groups, front to back. */
  method DecodeGroups(input: array<Byte>, from: nat, length: nat, output: array<Byte>, to: nat)
    requires from + length <= input.Length && DecodeLength(length).Some?
    requires to + DecodeLength(length).value <= output.Length
    requires input != output || to <= from || from + length <= to
    modifies output
    ensures DecodedSoFar(old(input[from..from + length]), old(output[..]), output[..], to, 3 * (length / 4))
    ensures input[from + 4 * (length / 4)..from + length] == old(input[from..from + length])[4 * (length / 4)..]
  {
    hide ByteAt, Bytes3, DecodedSoFar;
    ghost var t, before := input[from..from + length], output[..];
    DecodedNone(t, before, to);
    var g := 0;
    while g < length / 4
      invariant 0 <= g <= length / 4
      invariant forall i :: 4 * g <= i < length ==> input[from + i] == t[i]
      invariant DecodedSoFar(t, before, output[..], to, 3 * g)
    {
      ghost var now := output[..];
      ReadGroup(input[from + 4 * g], input[from + 4 * g + 1], input[from + 4 * g + 2], input[from + 4 * g + 3], output,
                to + 3 * g);
      DecodedMore(t, before, now, output[..], to, g, 3);
      g := g + 1;
    }
  }

  lemma DecodeLengthParts(n: nat)
    ensures DecodeLength(n).Some? <==> n % 4 != 1
    ensures DecodeLength(n).Some? ==> DecodeLength(n).value == 3 * (n / 4) + (if n % 4 == 0 then 0 else n % 4 - 1)
  {
  }

  /** Two or three characters after the last whole group. */
  method DecodeTail(input: array<Byte>, from: nat, length: nat, output: array<Byte>, to: nat,
                    ghost t: seq<Byte>, ghost before: seq<Byte>)
    requires from + length <= input.Length && length % 4 >= 2 && to + 3 * (length / 4) + length % 4 - 1 <= output.Length
    requires |t| == length && input[from + 4 * (length / 4)..from + length] == t[4 * (length / 4)..]
    requires DecodedSoFar(t, before, output[..], to, 3 * (length / 4))
    modifies output
    ensures DecodedSoFar(t, before, output[..], to, 3 * (length / 4) + length % 4 - 1)
  {
    hide ByteAt, Bytes3, DecodedSoFar;
    var g := length / 4;
    var remainder := length - 4 * g;
    ghost var now, tail := output[..], input[from + 4 * g..from + length];
    assert tail[0] == NthChar(t, 4 * g) && tail[1] == NthChar(t, 4 * g + 1);
    assert remainder == 3 ==> tail[2] == NthChar(t, 4 * g + 2);
    var c0, c1 := input[from + 4 * g], input[from + 4 * g + 1];
    var c2 := if remainder == 3 then input[from + 4 * g + 2] else A;
    assert c0 == NthChar(t, 4 * g) && c1 == NthChar(t, 4 * g + 1);
    assert c2 == NthChar(t, 4 * g + 2) && NthChar(t, 4 * g + 3) == A;
    ReadTail(c0, c1, c2, remainder, output, to + 3 * g);
    DecodedMore(t, before, now, output[..], to, g, remainder - 1);
  }

  /** `_olm_decode_base64`. The two buffers may be one, with the output no later than the input. */
  method DecodeBase64(input: array<Byte>, from: nat, length: nat, output: array<Byte>, to: nat) returns (r: Option<nat>)
    requires from + length <= input.Length
    requires DecodeLength(length).Some? ==> to + DecodeLength(length).value <= output.Length
    requires input != output || to <= from || from + length <= to
    modifies output
    ensures r == DecodeLength(length)
    ensures r == None ==> output[..] == old(output[..])
    ensures r.Some? ==> SameOutside(old(output[..]), output[..], to, r.value)
    ensures r.Some? ==> Decode(old(input[from..from + length])) == Some(output[to..to + r.value])
  {
    hide ByteAt, Decode, Bytes3, SameOutside, DecodedSoFar, DecodeLength;
    DecodeLengthParts(length);
    r := DecodeLength(length);
    if r == None {
      return;
    }
    ghost var t, before := input[from..from + length], output[..];
    DecodeGroups(input, from, length, output, to);
    if length % 4 != 0 {
      DecodeTail(input, from, length, output, to, t, before);
    }
    DecodedAll(t, before, output[..], to);
  }
}
