// Cipher block chaining (NIST SP 800-38A section 6.2) over the bitsliced
// cipher, in place: encryption one block at a time in one lane, decryption four
// blocks at a time with a short tail, and the padding around both.
module Cbc {
  import opened Sbox
  import opened Aes
  import opened Bitslice
  import opened Blocks
  import opened KeySchedule

  // ------------------------------------------------------------------
  // The mode, on blocks
  // ------------------------------------------------------------------

  /** Block i of the ciphertext. */
  function CipherBlock(keys: seq<State>, iv: State, p: seq<State>, i: nat): (c: State)
    requires |keys| >= 2 && i < |p|
  {
    Cipher(keys, AddRoundKey(if i == 0 then iv else CipherBlock(keys, iv, p, i - 1), p[i]))
  }

  function CbcEncrypt(keys: seq<State>, iv: State, p: seq<State>): (c: seq<State>)
    requires |keys| >= 2
    ensures |c| == |p|
  {
    seq(|p|, i requires 0 <= i < |p| => CipherBlock(keys, iv, p, i))
  }

  /** Block i of the plaintext. */
  function PlainBlock(keys: seq<State>, iv: State, c: seq<State>, i: nat): (p: State)
    requires |keys| >= 2 && i < |c|
  {
    AddRoundKey(InvCipher(keys, c[i]), if i == 0 then iv else c[i - 1])
  }

  function CbcDecrypt(keys: seq<State>, iv: State, c: seq<State>): (p: seq<State>)
    requires |keys| >= 2
    ensures |p| == |c|
  {
    seq(|c|, i requires 0 <= i < |c| => PlainBlock(keys, iv, c, i))
  }

  lemma EncryptedBlock(keys: seq<State>, iv: State, p: seq<State>, i: nat)
    requires |keys| >= 2 && i < |p|
    ensures var c := CbcEncrypt(keys, iv, p); c[i] == Cipher(keys, AddRoundKey(if i == 0 then iv else c[i - 1], p[i]))
  {
    hide Cipher, AddRoundKey;
  }

  lemma DecryptedBlock(keys: seq<State>, iv: State, c: seq<State>, i: nat)
    requires |keys| >= 2 && i < |c|
    ensures CbcDecrypt(keys, iv, c)[i] == AddRoundKey(InvCipher(keys, c[i]), if i == 0 then iv else c[i - 1])
  {
    hide InvCipher, AddRoundKey;
  }

  lemma AddCommutesState(s: State, t: State)
    ensures AddRoundKey(s, t) == AddRoundKey(t, s)
  {
  }

  /** Decrypting in chaining mode undoes encrypting, for any number of blocks. */
  lemma CbcUndone(keys: seq<State>, iv: State, p: seq<State>)
    requires |keys| >= 2
    ensures CbcDecrypt(keys, iv, CbcEncrypt(keys, iv, p)) == p
  {
    hide AddRoundKey, Cipher, InvCipher;
    var c := CbcEncrypt(keys, iv, p);
    forall i | 0 <= i < |p|
      ensures PlainBlock(keys, iv, c, i) == p[i]
    {
      var last := if i == 0 then iv else c[i - 1];
      CipherUndone(keys, AddRoundKey(last, p[i]));
      AddCommutesState(last, p[i]);
      AddRoundKeyUndone(p[i], last);
    }
  }

  // ------------------------------------------------------------------
  // Blocks in memory
  // ------------------------------------------------------------------

  function BlockOf(b: seq<Byte>): (s: State)
    requires |b| == 16
  {
    State(Column(b[0], b[1], b[2], b[3]), Column(b[4], b[5], b[6], b[7]),
          Column(b[8], b[9], b[10], b[11]), Column(b[12], b[13], b[14], b[15]))
  }

  function ToBlocks(b: seq<Byte>): (s: seq<State>)
    ensures |s| == |b| / 16
  {
    seq(|b| / 16, i requires 0 <= i < |b| / 16 => BlockOf(b[16 * i..16 * i + 16]))
  }

  /** Whole blocks determine their bytes. */
  lemma BlocksDetermine(a: seq<Byte>, b: seq<Byte>)
    requires |a| == |b| && |a| % 16 == 0 && ToBlocks(a) == ToBlocks(b)
    ensures a == b
  {
    forall k | 0 <= k < |a|
      ensures a[k] == b[k]
    {
      var i := k / 16;
      assert ToBlocks(a)[i] == ToBlocks(b)[i];
      SameByte(a[16 * i..16 * i + 16], b[16 * i..16 * i + 16], k % 16);
    }
  }

  lemma SameByte(a: seq<Byte>, b: seq<Byte>, k: nat)
    requires |a| == |b| == 16 && BlockOf(a) == BlockOf(b) && k < 16
    ensures a[k] == b[k]
  {
    if k < 4 {
      SameByteOfColumn(a, b, 0, k);
    } else if k < 8 {
      SameByteOfColumn(a, b, 4, k);
    } else if k < 12 {
      SameByteOfColumn(a, b, 8, k);
    } else {
      SameByteOfColumn(a, b, 12, k);
    }
  }

  lemma SameByteOfColumn(a: seq<Byte>, b: seq<Byte>, c: nat, k: nat)
    requires c <= k < c + 4 <= |a| == |b|
    requires a[c] == b[c] && a[c + 1] == b[c + 1] && a[c + 2] == b[c + 2] && a[c + 3] == b[c + 3]
    ensures a[k] == b[k]
  {
  }

  function BlockAt(buf: array<Byte>, at: nat): (s: State)
    requires at + 16 <= buf.Length
    reads buf
  {
    State(Column(buf[at], buf[at + 1], buf[at + 2], buf[at + 3]),
          Column(buf[at + 4], buf[at + 5], buf[at + 6], buf[at + 7]),
          Column(buf[at + 8], buf[at + 9], buf[at + 10], buf[at + 11]),
          Column(buf[at + 12], buf[at + 13], buf[at + 14], buf[at + 15]))
  }

  function XorQuad(b: Quad, c: Quad): (d: Quad) {
    Quad(XorWords(b.w0, c.w0), XorWords(b.w1, c.w1), XorWords(b.w2, c.w2), XorWords(b.w3, c.w3))
  }

  lemma XorQuadIsAdd(b: Quad, c: Quad)
    ensures StateOf(XorQuad(b, c)) == AddRoundKey(StateOf(b), StateOf(c))
  {
    hide ColumnOf, XorWords, AddColumn;
    ColumnXor(b.w0, c.w0);
    ColumnXor(b.w1, c.w1);
    ColumnXor(b.w2, c.w2);
    ColumnXor(b.w3, c.w3);
  }

  method ReadWord(buf: array<Byte>, at: nat) returns (w: bv32)
    requires at + 4 <= buf.Length
    ensures ColumnOf(w) == Column(buf[at], buf[at + 1], buf[at + 2], buf[at + 3])
  {
    hide ColumnOf, WordOf;
    w := WordOf(Column(buf[at], buf[at + 1], buf[at + 2], buf[at + 3]));
    ColumnWord(Column(buf[at], buf[at + 1], buf[at + 2], buf[at + 3]), w);
  }

  method ReadBlock(buf: array<Byte>, at: nat) returns (b: Quad)
    requires at + 16 <= buf.Length
    ensures StateOf(b) == BlockAt(buf, at)
  {
    hide ColumnOf;
    var w0 := ReadWord(buf, at);
    var w1 := ReadWord(buf, at + 4);
    var w2 := ReadWord(buf, at + 8);
    var w3 := ReadWord(buf, at + 12);
    b := Quad(w0, w1, w2, w3);
  }

  method WriteWord(buf: array<Byte>, at: nat, w: bv32)
    requires at + 4 <= buf.Length
    modifies buf
    ensures ColumnOf(w) == Column(buf[at], buf[at + 1], buf[at + 2], buf[at + 3])
    ensures forall k :: 0 <= k < buf.Length && !(at <= k < at + 4) ==> buf[k] == old(buf[k])
  {
    hide ColumnOf;
    var c := ColumnOf(w);
    buf[at], buf[at + 1], buf[at + 2], buf[at + 3] := c.r0, c.r1, c.r2, c.r3;
  }

  method WriteBlock(buf: array<Byte>, at: nat, b: Quad)
    requires at + 16 <= buf.Length
    modifies buf
    ensures BlockAt(buf, at) == StateOf(b)
    ensures forall k :: 0 <= k < buf.Length && !(at <= k < at + 16) ==> buf[k] == old(buf[k])
  {
    hide ColumnOf;
    WriteWord(buf, at, b.w0);
    WriteWord(buf, at + 4, b.w1);
    WriteWord(buf, at + 8, b.w2);
    WriteWord(buf, at + 12, b.w3);
  }

  // ------------------------------------------------------------------
  // Blocks through the bitsliced cipher
  // ------------------------------------------------------------------

  method OrthoInPlace(q: array<Word>)
    requires q.Length == 8
    modifies q
    ensures OctetAt(q, 0) == Ortho(old(OctetAt(q, 0)))
  {
    hide Ortho;
    Store(q, Ortho(OctetAt(q, 0)));
  }

  function LaneOf(i: nat): (l: bv6)
    requires i < 4
    ensures l < 4
  {
    if i == 0 then 0 else if i == 1 then 1 else if i == 2 then 2 else 3
  }

  /** The words of the array that carry block i. */
  lemma NthAt(q: array<Word>, i: nat)
    requires q.Length == 8 && i < 4
    ensures Nth(OctetAt(q, 0), LaneOf(i)) == q[i] && Nth(OctetAt(q, 0), LaneOf(i) + 4) == q[i + 4]
  {
  }

  /** Every lane uses these round keys. */
  ghost predicate AllLanes(keys: seq<State>, skey: array<Word>, numRounds: nat)
    requires 8 * (numRounds + 1) <= skey.Length
    reads skey
  {
    forall l: bv6 | l < 4 :: LaneKeys(RoundKeys(skey, numRounds), l) == keys
  }

  /** A single block encrypted in lane 0; the other lanes hold whatever the memory held. */
  method EncryptQuad(numRounds: nat, skey: array<Word>, w: Quad, ghost keys: seq<State>) returns (c: Quad)
    requires 1 <= numRounds && 8 * (numRounds + 1) <= skey.Length
    requires AllLanes(keys, skey, numRounds)
    ensures |keys| >= 2 && StateOf(c) == Cipher(keys, StateOf(w))
  {
    hide Lane, Ortho, Nth, Interleaved, InterleaveIn, InterleaveOut, EncryptOctet, Cipher, StateOf;
    assert LaneKeys(RoundKeys(skey, numRounds), 0) == keys;
    var q := new Word[8];
    q[0], q[4] := InterleaveIn(w).0, InterleaveIn(w).1;
    ghost var q0 := OctetAt(q, 0);
    NthAt(q, 0);
    InterleavedIn(w);
    LaneOrtho(q0, 0);
    OrthoInPlace(q);
    BitsliceEncrypt(numRounds, skey, q);
    ghost var q1 := OctetAt(q, 0);
    LaneEncrypt(RoundKeys(skey, numRounds), Ortho(q0), 0);
    OrthoInPlace(q);
    NthAt(q, 0);
    UnloadedLane(q1, 0);
    c := InterleaveOut(q[0], q[4]);
  }

  /** Four blocks decrypted at once. */
  method DecryptQuads(numRounds: nat, skey: array<Word>, w1: array<Quad>, w2: array<Quad>, ghost keys: seq<State>)
    requires 1 <= numRounds && 8 * (numRounds + 1) <= skey.Length && w1.Length == w2.Length == 4 && w1 != w2
    requires AllLanes(keys, skey, numRounds)
    modifies w2
    ensures |keys| >= 2 && forall i :: 0 <= i < 4 ==> StateOf(w2[i]) == InvCipher(keys, StateOf(w1[i]))
  {
    hide Lane, Ortho, Nth, Interleave4, InterleaveOut, DecryptOctet, InvCipher, StateOf;
    var q := LoadQuads(w1);
    ghost var q0 := OctetAt(q, 0);
    LoadedLanes(w1[0], w1[1], w1[2], w1[3]);
    OrthoInPlace(q);
    BitsliceDecrypt(numRounds, skey, q);
    ghost var q1 := OctetAt(q, 0);
    OrthoInPlace(q);
    UnloadQuads(q, w2);
    assert LaneKeys(RoundKeys(skey, numRounds), 0) == keys;
    forall i | 0 <= i < 4
      ensures StateOf(w2[i]) == InvCipher(keys, StateOf(w1[i]))
    {
      UnloadedLane(q1, LaneOf(i));
      LaneDecrypt(RoundKeys(skey, numRounds), Ortho(q0), LaneOf(i));
      assert LaneKeys(RoundKeys(skey, numRounds), LaneOf(i)) == keys;
    }
  }

  method LoadQuads(w1: array<Quad>) returns (q: array<Word>)
    requires w1.Length == 4
    ensures fresh(q) && q.Length == 8 && OctetAt(q, 0) == Interleave4(w1[0], w1[1], w1[2], w1[3])
  {
    hide InterleaveIn;
    q := new Word[8];
    for i := 0 to 4
      invariant forall j :: 0 <= j < i ==> q[j] == InterleaveIn(w1[j]).0 && q[j + 4] == InterleaveIn(w1[j]).1
    {
      q[i], q[i + 4] := InterleaveIn(w1[i]).0, InterleaveIn(w1[i]).1;
    }
  }

  method UnloadQuads(q: array<Word>, w2: array<Quad>)
    requires q.Length == 8 && w2.Length == 4
    modifies w2
    ensures OctetAt(q, 0) == old(OctetAt(q, 0))
    ensures forall i :: 0 <= i < 4 ==>
      w2[i] == InterleaveOut(Nth(OctetAt(q, 0), LaneOf(i)), Nth(OctetAt(q, 0), LaneOf(i) + 4))
  {
    hide InterleaveOut, Nth;
    ghost var s := OctetAt(q, 0);
    for i := 0 to 4
      invariant OctetAt(q, 0) == s
      invariant forall j :: 0 <= j < i ==> w2[j] == InterleaveOut(Nth(s, LaneOf(j)), Nth(s, LaneOf(j) + 4))
    {
      NthAt(q, i);
      w2[i] := InterleaveOut(q[i], q[i + 4]);
    }
  }

  // ------------------------------------------------------------------
  // The mode in place
  // ------------------------------------------------------------------

  /** Whole blocks of a buffer. */
  function BlocksAt(buf: array<Byte>, from: nat, n: nat): (s: seq<State>)
    requires from + 16 * n <= buf.Length
    reads buf
    ensures |s| == n
  {
    seq(n, i requires 0 <= i < n reads buf => BlockAt(buf, from + 16 * i))
  }

  /** The two contents agree outside the range. */
  ghost predicate SameOutside(a: seq<Byte>, b: seq<Byte>, from: nat, length: nat) {
    |a| == |b| && forall k :: 0 <= k < |a| && !(from <= k < from + length) ==> a[k] == b[k]
  }

  lemma SameOutsideBoth(a: seq<Byte>, b: seq<Byte>, c: seq<Byte>, from: nat, length: nat)
    requires SameOutside(a, b, from, length) && SameOutside(b, c, from, length)
    ensures SameOutside(a, c, from, length)
  {
  }

  lemma SameOutsideSelf(a: seq<Byte>, from: nat, length: nat)
    ensures SameOutside(a, a, from, length)
  {
  }

  /** Writes block i of a region of n blocks. */
  method WriteNth(buf: array<Byte>, from: nat, n: nat, i: nat, b: Quad)
    requires i < n && from + 16 * n <= buf.Length
    modifies buf
    ensures BlocksAt(buf, from, n) == old(BlocksAt(buf, from, n))[i := StateOf(b)]
    ensures SameOutside(old(buf[..]), buf[..], from, 16 * n)
  {
    hide StateOf;
    WriteBlock(buf, from + 16 * i, b);
  }

  method ReadNth(buf: array<Byte>, from: nat, n: nat, i: nat) returns (b: Quad)
    requires i < n && from + 16 * n <= buf.Length
    ensures StateOf(b) == BlocksAt(buf, from, n)[i]
  {
    hide StateOf;
    b := ReadBlock(buf, from + 16 * i);
  }

  /** The region when block i is next: done in front, untouched behind. */
  lemma NextDone(done: seq<State>, before: seq<State>, i: nat)
    requires |done| == |before| && i < |done|
    ensures (done[..i] + before[i..])[i] == before[i]
    ensures (done[..i] + before[i..])[i := done[i]] == done[..i + 1] + before[i + 1..]
  {
  }

  /** The key context: a compressed schedule. */
  class CbcKeys {
    const skey: array<Word>
    var numRounds: nat

    ghost predicate Holds(key: seq<Byte>)
      reads this, skey
    {
      && KeyLength(|key|) && skey.Length == 30 && numRounds == NumRounds(|key|)
      && forall u :: 0 <= u <= numRounds ==> HoldsKey(skey, key, u)
    }

    constructor (key: seq<Byte>)
      requires KeyLength(|key|)
      ensures Holds(key) && fresh(skey)
    {
      skey := new Word[30];
      new;
      numRounds := Keysched(skey, key);
    }

    /** The round keys, one set for all four lanes. */
    method Expand(ghost key: seq<Byte>) returns (expanded: array<Word>)
      requires Holds(key)
      ensures fresh(expanded) && expanded.Length == 120
      ensures AllLanes(CipherKeys(key), expanded, numRounds)
    {
      hide Compressed, KeyOctet, CipherKeys, Expanded;
      expanded := new Word[120];
      SkeyExpand(expanded, numRounds, skey);
      ghost var keys := RoundKeys(expanded, numRounds);
      forall u | 0 <= u < |keys|
        ensures keys[u] == Expanded(Compressed(KeyOctet(key, u)).0, Compressed(KeyOctet(key, u)).1)
      {
        assert HoldsKey(skey, key, u);
      }
      forall l: bv6 | l < 4
        ensures LaneKeys(keys, l) == CipherKeys(key)
      {
        ScheduleIsCipherKeys(keys, key, l);
      }
    }

    /** `br_aes_ct64_cbcenc_run` on n blocks from `from`. */
    method EncryptRun(ghost key: seq<Byte>, iv: array<Byte>, buf: array<Byte>, from: nat, n: nat)
      requires Holds(key) && iv.Length == 16 && iv != buf && from + 16 * n <= buf.Length
      modifies iv, buf
      ensures BlocksAt(buf, from, n) == CbcEncrypt(CipherKeys(key), old(BlockAt(iv, 0)), old(BlocksAt(buf, from, n)))
      ensures SameOutside(old(buf[..]), buf[..], from, 16 * n)
      ensures BlockAt(iv, 0) == if n == 0 then old(BlockAt(iv, 0)) else BlocksAt(buf, from, n)[n - 1]
    {
      hide CipherKeys, BlockAt, BlocksAt, Cipher, AddRoundKey, StateOf, XorQuad, SameOutside, AllLanes;
      var expanded := Expand(key);
      var ivw := ReadBlock(iv, 0);
      ivw := EncryptLoop(expanded, buf, from, n, ivw, CipherKeys(key), BlocksAt(buf, from, n));
      WriteBlock(iv, 0, ivw);
    }

    /** The encryption loop; returns the last ciphertext block. */
    method EncryptLoop(expanded: array<Word>, buf: array<Byte>, from: nat, n: nat, iv: Quad,
                       ghost keys: seq<State>, ghost p: seq<State>) returns (ivw: Quad)
      requires 1 <= numRounds && 8 * (numRounds + 1) <= expanded.Length
      requires AllLanes(keys, expanded, numRounds) && |keys| >= 2
      requires from + 16 * n <= buf.Length && BlocksAt(buf, from, n) == p && (expanded as object) != buf
      modifies buf
      ensures BlocksAt(buf, from, n) == CbcEncrypt(keys, StateOf(iv), p)
      ensures StateOf(ivw) == if n == 0 then StateOf(iv) else BlocksAt(buf, from, n)[n - 1]
      ensures SameOutside(old(buf[..]), buf[..], from, 16 * n)
    {
      hide BlockAt, BlocksAt, Cipher, AddRoundKey, StateOf, XorQuad, SameOutside, AllLanes, CbcEncrypt;
      ghost var iv0, before := StateOf(iv), buf[..];
      ghost var c := CbcEncrypt(keys, iv0, p);
      ivw := iv;
      SameOutsideSelf(before, from, 16 * n);
      for i := 0 to n
        invariant AllLanes(keys, expanded, numRounds)
        invariant StateOf(ivw) == if i == 0 then iv0 else c[i - 1]
        invariant BlocksAt(buf, from, n) == c[..i] + p[i..]
        invariant SameOutside(before, buf[..], from, 16 * n)
      {
        var b := ReadNth(buf, from, n, i);
        NextDone(c, p, i);
        EncryptedBlock(keys, iv0, p, i);
        XorQuadIsAdd(ivw, b);
        ivw := EncryptQuad(numRounds, expanded, XorQuad(ivw, b), keys);
        ghost var now := buf[..];
        WriteNth(buf, from, n, i, ivw);
        SameOutsideBoth(before, now, buf[..], from, 16 * n);
      }
      assert c[..n] + p[n..] == c;
    }

    method ReadBatch(buf: array<Byte>, from: nat, n: nat, i: nat, m: nat) returns (w1: array<Quad>)
      requires from + 16 * n <= buf.Length && i + m <= n && m <= 4
      ensures fresh(w1) && w1.Length == 4 && forall a :: 0 <= a < m ==> StateOf(w1[a]) == BlocksAt(buf, from, n)[i + a]
    {
      hide BlocksAt, StateOf;
      w1 := new Quad[4];
      for b := 0 to m
        invariant forall a :: 0 <= a < b ==> StateOf(w1[a]) == BlocksAt(buf, from, n)[i + a]
        modifies w1
      {
        w1[b] := ReadNth(buf, from, n, i + b);
      }
    }

    /** The four inverse ciphers, each added to the ciphertext block before it. */
    method DecryptWords(expanded: array<Word>, w1: array<Quad>, m: nat, ivw: Quad, ghost keys: seq<State>,
                        ghost iv0: State, ghost c: seq<State>, ghost i: nat) returns (w2: array<Quad>)
      requires 1 <= numRounds && 8 * (numRounds + 1) <= expanded.Length && AllLanes(keys, expanded, numRounds)
      requires |keys| >= 2 && w1.Length == 4 && 1 <= m <= 4 && i + m <= |c|
      requires forall a :: 0 <= a < m ==> StateOf(w1[a]) == c[i + a]
      requires StateOf(ivw) == if i == 0 then iv0 else c[i - 1]
      ensures fresh(w2) && w2.Length == 4
      ensures forall a :: 0 <= a < m ==> StateOf(w2[a]) == CbcDecrypt(keys, iv0, c)[i + a]
    {
      hide InvCipher, AddRoundKey, StateOf, XorQuad, AllLanes, CbcDecrypt;
      ghost var d := CbcDecrypt(keys, iv0, c);
      w2 := new Quad[4];
      DecryptQuads(numRounds, expanded, w1, w2, keys);
      DecryptedBlock(keys, iv0, c, i);
      XorQuadIsAdd(w2[0], ivw);
      w2[0] := XorQuad(w2[0], ivw);
      for b := 1 to m
        invariant forall a :: 0 <= a < b ==> StateOf(w2[a]) == d[i + a]
        invariant forall a :: b <= a < m ==> StateOf(w2[a]) == InvCipher(keys, c[i + a])
        modifies w2
      {
        DecryptedBlock(keys, iv0, c, i + b);
        XorQuadIsAdd(w2[b], w1[b - 1]);
        w2[b] := XorQuad(w2[b], w1[b - 1]);
      }
    }

    /** One pass of the decryption loop: m blocks from block i, 4 of them or the short tail. */
    method DecryptBatch(expanded: array<Word>, buf: array<Byte>, from: nat, n: nat, i: nat, m: nat, ivw: Quad,
                        ghost keys: seq<State>, ghost iv0: State, ghost c: seq<State>) returns (next: Quad)
      requires 1 <= numRounds && 8 * (numRounds + 1) <= expanded.Length && AllLanes(keys, expanded, numRounds)
      requires |keys| >= 2 && from + 16 * n <= buf.Length && |c| == n && 1 <= m <= 4 && i + m <= n
      requires StateOf(ivw) == if i == 0 then iv0 else c[i - 1]
      requires BlocksAt(buf, from, n) == CbcDecrypt(keys, iv0, c)[..i] + c[i..]
      modifies buf
      ensures BlocksAt(buf, from, n) == CbcDecrypt(keys, iv0, c)[..i + m] + c[i + m..]
      ensures StateOf(next) == c[i + m - 1]
      ensures SameOutside(old(buf[..]), buf[..], from, 16 * n)
    {
      hide BlocksAt, StateOf, SameOutside, AllLanes, CbcDecrypt;
      ghost var d := CbcDecrypt(keys, iv0, c);
      var w1 := ReadBatch(buf, from, n, i, m);
      forall a | 0 <= a < m
        ensures StateOf(w1[a]) == c[i + a]
      {
        assert (d[..i] + c[i..])[i + a] == c[i + a];
      }
      var w2 := DecryptWords(expanded, w1, m, ivw, keys, iv0, c, i);
      next := w1[m - 1];
      WriteBatch(buf, from, n, i, m, w2[..], d, c);
    }

    method WriteBatch(buf: array<Byte>, from: nat, n: nat, i: nat, m: nat, w2: seq<Quad>, ghost d: seq<State>,
                      ghost c: seq<State>)
      requires from + 16 * n <= buf.Length && |c| == |d| == n && i + m <= n && m <= |w2|
      requires forall a :: 0 <= a < m ==> StateOf(w2[a]) == d[i + a]
      requires BlocksAt(buf, from, n) == d[..i] + c[i..]
      modifies buf
      ensures BlocksAt(buf, from, n) == d[..i + m] + c[i + m..]
      ensures SameOutside(old(buf[..]), buf[..], from, 16 * n)
    {
      hide BlockAt, BlocksAt, StateOf, SameOutside;
      ghost var before := buf[..];
      SameOutsideSelf(before, from, 16 * n);
      for b := 0 to m
        invariant forall a :: 0 <= a < m ==> StateOf(w2[a]) == d[i + a]
        invariant BlocksAt(buf, from, n) == d[..i + b] + c[i + b..]
        invariant SameOutside(before, buf[..], from, 16 * n)
      {
        NextDone(d, c, i + b);
        ghost var now := buf[..];
        WriteNth(buf, from, n, i + b, w2[b]);
        SameOutsideBoth(before, now, buf[..], from, 16 * n);
      }
    }

    /** The decryption loop; returns the last ciphertext block. */
    method DecryptLoop(expanded: array<Word>, buf: array<Byte>, from: nat, n: nat, iv: Quad,
                       ghost keys: seq<State>, ghost c: seq<State>) returns (ivw: Quad)
      requires 1 <= numRounds && 8 * (numRounds + 1) <= expanded.Length
      requires AllLanes(keys, expanded, numRounds) && |keys| >= 2
      requires from + 16 * n <= buf.Length && BlocksAt(buf, from, n) == c && (expanded as object) != buf
      modifies buf
      ensures BlocksAt(buf, from, n) == CbcDecrypt(keys, StateOf(iv), c)
      ensures StateOf(ivw) == if n == 0 then StateOf(iv) else c[n - 1]
      ensures SameOutside(old(buf[..]), buf[..], from, 16 * n)
    {
      hide BlocksAt, StateOf, SameOutside, AllLanes, CbcDecrypt;
      ghost var before, d := buf[..], CbcDecrypt(keys, StateOf(iv), c);
      ivw := iv;
      SameOutsideSelf(before, from, 16 * n);
      var i := 0;
      while i < n
        invariant 0 <= i <= n && AllLanes(keys, expanded, numRounds)
        invariant StateOf(ivw) == if i == 0 then StateOf(iv) else c[i - 1]
        invariant BlocksAt(buf, from, n) == d[..i] + c[i..]
        invariant SameOutside(before, buf[..], from, 16 * n)
      {
        var m := if n - i >= 4 then 4 else n - i;
        ghost var now := buf[..];
        ivw := DecryptBatch(expanded, buf, from, n, i, m, ivw, keys, StateOf(iv), c);
        SameOutsideBoth(before, now, buf[..], from, 16 * n);
        i := i + m;
      }
    }

    /** `br_aes_ct64_cbcdec_run` on n blocks from `from`. */
    method DecryptRun(ghost key: seq<Byte>, iv: array<Byte>, buf: array<Byte>, from: nat, n: nat)
      requires Holds(key) && iv.Length == 16 && iv != buf && from + 16 * n <= buf.Length
      modifies iv, buf
      ensures BlocksAt(buf, from, n) == CbcDecrypt(CipherKeys(key), old(BlockAt(iv, 0)), old(BlocksAt(buf, from, n)))
      ensures SameOutside(old(buf[..]), buf[..], from, 16 * n)
      ensures BlockAt(iv, 0) == if n == 0 then old(BlockAt(iv, 0)) else old(BlocksAt(buf, from, n)[n - 1])
    {
      hide CipherKeys, BlockAt, BlocksAt, StateOf, SameOutside, AllLanes, CbcDecrypt;
      var expanded := Expand(key);
      var ivw := ReadBlock(iv, 0);
      ivw := DecryptLoop(expanded, buf, from, n, ivw, CipherKeys(key), BlocksAt(buf, from, n));
      WriteBlock(iv, 0, ivw);
    }
  }
}
