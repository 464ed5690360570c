// AES-256 in CBC mode with the padding of RFC 5652 section 6.3, over byte
// buffers that may overlap.
module Crypto {
  import opened Common
  import opened Aes
  import opened KeySchedule
  import opened Cbc

  const AES_BLOCK_LENGTH: nat := 16

  type Key = k: seq<Byte> | |k| == 32 witness seq(32, _ => 0)
  type Iv = v: seq<Byte> | |v| == 16 witness seq(16, _ => 0)

  // ------------------------------------------------------------------
  // Blocks and bytes
  // ------------------------------------------------------------------

  function StateBytes(s: State): (b: seq<Byte>)
    ensures |b| == 16 && BlockOf(b) == s
  {
    [s.c0.r0, s.c0.r1, s.c0.r2, s.c0.r3, s.c1.r0, s.c1.r1, s.c1.r2, s.c1.r3,
     s.c2.r0, s.c2.r1, s.c2.r2, s.c2.r3, s.c3.r0, s.c3.r1, s.c3.r2, s.c3.r3]
  }

  function FromBlocks(s: seq<State>): (b: seq<Byte>)
    ensures |b| == 16 * |s|
  {
    seq(16 * |s|, k requires 0 <= k < 16 * |s| => StateBytes(s[k / 16])[k % 16])
  }

  lemma ToBlocksOfFromBlocks(s: seq<State>)
    ensures ToBlocks(FromBlocks(s)) == s
  {
    hide StateBytes, BlockOf;
    var b := FromBlocks(s);
    forall i | 0 <= i < |s|
      ensures BlockOf(b[16 * i..16 * i + 16]) == s[i]
    {
      assert b[16 * i..16 * i + 16] == StateBytes(s[i]);
    }
  }

  lemma FromBlocksOfToBlocks(b: seq<Byte>)
    requires |b| % 16 == 0
    ensures FromBlocks(ToBlocks(b)) == b
  {
    hide FromBlocks, ToBlocks;
    ToBlocksOfFromBlocks(ToBlocks(b));
    BlocksDetermine(FromBlocks(ToBlocks(b)), b);
  }

  // ------------------------------------------------------------------
  // Padding
  // ------------------------------------------------------------------

  function EncryptCbcLength(n: nat): (m: nat)
    ensures m % 16 == 0 && n < m <= n + 16
  {
    n + AES_BLOCK_LENGTH - n % AES_BLOCK_LENGTH
  }

  /** The number of padding bytes, as a byte. */
  function PadByte(n: nat): (b: Byte) {
    (AES_BLOCK_LENGTH - n % AES_BLOCK_LENGTH) as bv8
  }

  function Padded(p: seq<Byte>): (q: seq<Byte>)
    ensures |q| == EncryptCbcLength(|p|)
  {
    p + seq(EncryptCbcLength(|p|) - |p|, _ => PadByte(|p|))
  }

  /** What a byte says about the padding. */
  function PadLength(b: Byte): (n: nat) {
    b as nat
  }

  lemma PadLengths(n: nat)
    ensures PadLength(PadByte(n)) == EncryptCbcLength(n) - n
  {
  }

  // ------------------------------------------------------------------
  // Encrypting and decrypting whole messages
  // ------------------------------------------------------------------

  function Encrypted(key: Key, iv: Iv, p: seq<Byte>): (c: seq<Byte>)
    ensures |c| == EncryptCbcLength(|p|)
  {
    FromBlocks(CbcEncrypt(CipherKeys(key), BlockOf(iv), ToBlocks(Padded(p))))
  }

  /** The padded plaintext of whole blocks. */
  function Deciphered(key: Key, iv: Iv, c: seq<Byte>): (p: seq<Byte>)
    requires |c| % 16 == 0
    ensures |p| == |c|
  {
    FromBlocks(CbcDecrypt(CipherKeys(key), BlockOf(iv), ToBlocks(c)))
  }

  /** The length of the plaintext: refused for no or broken blocks, and for more padding than text. */
  function PlaintextLength(p: seq<Byte>): (n: Option<nat>)
  {
    if |p| == 0 || |p| % 16 != 0 then None
    else if PadLength(p[|p| - 1]) > |p| then None
    else Some(|p| - PadLength(p[|p| - 1]))
  }

  function Decrypted(key: Key, iv: Iv, c: seq<Byte>): (p: Option<seq<Byte>>)
  {
    if |c| % 16 != 0 then None
    else
      match PlaintextLength(Deciphered(key, iv, c))
      case None => None
      case Some(n) => Some(Deciphered(key, iv, c)[..n])
  }

  lemma DecipheredEncrypted(key: Key, iv: Iv, p: seq<Byte>)
    ensures Deciphered(key, iv, Encrypted(key, iv, p)) == Padded(p)
  {
    hide CipherKeys, CbcEncrypt, CbcDecrypt, BlockOf, ToBlocks, FromBlocks, Padded;
    var blocks := ToBlocks(Padded(p));
    ToBlocksOfFromBlocks(CbcEncrypt(CipherKeys(key), BlockOf(iv), blocks));
    CbcUndone(CipherKeys(key), BlockOf(iv), blocks);
    FromBlocksOfToBlocks(Padded(p));
  }

  /** Decrypting restores every plaintext and its length. */
  lemma DecryptedEncrypted(key: Key, iv: Iv, p: seq<Byte>)
    ensures Decrypted(key, iv, Encrypted(key, iv, p)) == Some(p)
  {
    hide Deciphered, Encrypted, PadLength, PadByte;
    DecipheredEncrypted(key, iv, p);
    PadLengths(|p|);
    assert Padded(p)[..|p|] == p;
  }

  // ------------------------------------------------------------------
  // In memory
  // ------------------------------------------------------------------

  /** memmove: source and target may be the same buffer and may overlap. */
  method Move(target: array<Byte>, to: nat, source: array<Byte>, from: nat, count: nat)
    requires to + count <= target.Length && from + count <= source.Length
    modifies target
    ensures target[to..to + count] == old(source[from..from + count])
    ensures SameOutside(old(target[..]), target[..], to, count)
  {
    var taken := source[from..from + count];
    for i := 0 to count
      invariant target[to..to + i] == taken[..i]
      invariant forall k :: 0 <= k < target.Length && !(to <= k < to + i) ==> target[k] == old(target[k])
    {
      target[to + i] := taken[i];
    }
  }

  /** memset. */
  method Fill(target: array<Byte>, to: nat, b: Byte, count: nat)
    requires to + count <= target.Length
    modifies target
    ensures target[to..to + count] == seq(count, _ => b)
    ensures SameOutside(old(target[..]), target[..], to, count)
  {
    for i := 0 to count
      invariant forall k :: to <= k < to + i ==> target[k] == b
      invariant forall k :: 0 <= k < target.Length && !(to <= k < to + i) ==> target[k] == old(target[k])
    {
      target[to + i] := b;
    }
  }

  lemma BlockOfSlice(buf: array<Byte>, at: nat)
    requires at + 16 <= buf.Length
    ensures BlockAt(buf, at) == BlockOf(buf[at..at + 16])
  {
  }

  lemma BlocksOfSlice(buf: array<Byte>, from: nat, n: nat)
    requires from + 16 * n <= buf.Length
    ensures BlocksAt(buf, from, n) == ToBlocks(buf[from..from + 16 * n])
  {
    hide BlockAt, BlockOf;
    var b := buf[from..from + 16 * n];
    forall i | 0 <= i < n
      ensures BlockAt(buf, from + 16 * i) == BlockOf(b[16 * i..16 * i + 16])
    {
      BlockOfSlice(buf, from + 16 * i);
      assert b[16 * i..16 * i + 16] == buf[from + 16 * i..from + 16 * i + 16];
    }
  }

  method NewIv(iv: Iv) returns (copy: array<Byte>)
    ensures fresh(copy) && copy.Length == 16 && BlockAt(copy, 0) == BlockOf(iv)
  {
    copy := new Byte[16];
    for i := 0 to 16
      invariant forall k :: 0 <= k < i ==> copy[k] == iv[k]
    {
      copy[i] := iv[i];
    }
  }

  /** Moves the input to the output and pads it there. */
  method Pad(input: array<Byte>, from: nat, length: nat, output: array<Byte>, to: nat)
    requires from + length <= input.Length && to + EncryptCbcLength(length) <= output.Length
    modifies output
    ensures output[to..to + EncryptCbcLength(length)] == Padded(old(input[from..from + length]))
    ensures SameOutside(old(output[..]), output[..], to, EncryptCbcLength(length))
  {
    hide PadByte;
    ghost var p := input[from..from + length];
    var count := EncryptCbcLength(length) - length;
    Move(output, to, input, from, length);
    Fill(output, to + length, PadByte(length), count);
    assert output[to..to + length] == p;
    assert output[to..to + length + count] == output[to..to + length] + output[to + length..to + length + count];
  }

  method AesEncryptCbc(key: Key, iv: Iv, input: array<Byte>, from: nat, length: nat, output: array<Byte>, to: nat)
    requires from + length <= input.Length && to + EncryptCbcLength(length) <= output.Length
    modifies output
    ensures output[to..to + EncryptCbcLength(length)] == Encrypted(key, iv, old(input[from..from + length]))
    ensures SameOutside(old(output[..]), output[..], to, EncryptCbcLength(length))
  {
    hide CipherKeys, CbcEncrypt, BlockOf, BlockAt, BlocksAt, Padded, ToBlocks, FromBlocks, SameOutside;
    ghost var before := output[..];
    var keys := new CbcKeys(key);
    var ivCopy := NewIv(iv);
    var padded := EncryptCbcLength(length);
    Pad(input, from, length, output, to);
    BlocksOfSlice(output, to, padded / 16);
    ghost var moved := output[..];
    keys.EncryptRun(key, ivCopy, output, to, padded / 16);
    SameOutsideBoth(before, moved, output[..], to, padded);
    BlocksOfSlice(output, to, padded / 16);
    FromBlocksOfToBlocks(output[to..to + padded]);
  }

  lemma DecryptedRefused(key: Key, iv: Iv, c: seq<Byte>)
    requires |c| == 0 || |c| % 16 != 0
    ensures Decrypted(key, iv, c) == None
  {
  }

  lemma DecryptedIs(key: Key, iv: Iv, c: seq<Byte>, p: seq<Byte>)
    requires |c| % 16 == 0 && |c| > 0 && p == Deciphered(key, iv, c)
    ensures Decrypted(key, iv, c)
         == if PadLength(p[|p| - 1]) > |p| then None else Some(p[..|p| - PadLength(p[|p| - 1])])
  {
    hide Deciphered, PadLength;
  }

  method AesDecryptCbc(key: Key, iv: Iv, input: array<Byte>, from: nat, length: nat, output: array<Byte>, to: nat)
    returns (r: Option<nat>)
    requires from + length <= input.Length && to + length <= output.Length
    modifies output
    ensures SameOutside(old(output[..]), output[..], to, length)
    ensures length == 0 || length % 16 != 0 ==> r == None && output[..] == old(output[..])
    ensures
      match Decrypted(key, iv, old(input[from..from + length]))
      case None => r == None
      case Some(p) => r == Some(|p|) && output[to..to + |p|] == p
  {
    hide Deciphered, Decrypted, PadLength, SameOutside;
    ghost var c := input[from..from + length];
    SameOutsideSelf(output[..], to, length);
    if length == 0 || length % 16 != 0 {
      DecryptedRefused(key, iv, c);
      return None;
    }
    Decipher(key, iv, input, from, length, output, to);
    ghost var p := output[to..to + length];
    DecryptedIs(key, iv, c, p);
    var padding := PadLength(output[to + length - 1]);
    assert p[length - 1] == output[to + length - 1];
    if padding > length {
      return None;
    }
    TakeOfSlice(output[..], to, length, length - padding);
    return Some(length - padding);
  }

  lemma TakeOfSlice(s: seq<Byte>, from: nat, length: nat, k: nat)
    requires from + length <= |s| && k <= length
    ensures s[from..from + length][..k] == s[from..from + k]
  {
  }

  method Decipher(key: Key, iv: Iv, input: array<Byte>, from: nat, length: nat, output: array<Byte>, to: nat)
    requires from + length <= input.Length && to + length <= output.Length && length % 16 == 0
    modifies output
    ensures SameOutside(old(output[..]), output[..], to, length)
    ensures output[to..to + length] == Deciphered(key, iv, old(input[from..from + length]))
  {
    hide CipherKeys, CbcDecrypt, BlockOf, BlockAt, BlocksAt, ToBlocks, FromBlocks, SameOutside;
    ghost var before := output[..];
    var keys := new CbcKeys(key);
    var ivCopy := NewIv(iv);
    Move(output, to, input, from, length);
    BlocksOfSlice(output, to, length / 16);
    ghost var moved := output[..];
    keys.DecryptRun(key, ivCopy, output, to, length / 16);
    SameOutsideBoth(before, moved, output[..], to, length);
    BlocksOfSlice(output, to, length / 16);
    FromBlocksOfToBlocks(output[to..to + length]);
  }
}
