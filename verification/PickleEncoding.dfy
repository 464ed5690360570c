// Pickles are encrypted and base64-encoded inside one buffer: the raw bytes
// stand at its tail, are encrypted there, get a MAC behind them, and are then
// encoded onto the front.
module PickleEncoding {
  import opened Common
  import opened Aes
  import opened Cbc
  import opened Crypto
  import opened Base64

  const MAC_LENGTH: nat := 8

  type Mac = m: seq<Byte> | |m| == 32 witness seq(32, _ => 0)

  datatype DerivedKeys = DerivedKeys(aesKey: Key, macKey: seq<Byte>, iv: Iv)

  /** What the cipher needs from its key: HKDF-SHA-256 and HMAC-SHA-256, about which nothing is assumed. */
  datatype Primitives = Primitives(hkdf: seq<Byte> -> DerivedKeys, hmac: (seq<Byte>, seq<Byte>) -> Mac)

  // ------------------------------------------------------------------
  // Encrypt, then authenticate
  // ------------------------------------------------------------------

  /** Ciphertext and the first eight bytes of its MAC. */
  function Sealed(f: Primitives, key: seq<Byte>, p: seq<Byte>): (c: seq<Byte>)
    ensures |c| == EncryptCbcLength(|p|) + MAC_LENGTH
  {
    var k := f.hkdf(key);
    var c := Encrypted(k.aesKey, k.iv, p);
    c + f.hmac(k.macKey, c)[..MAC_LENGTH]
  }

  function Opened(f: Primitives, key: seq<Byte>, c: seq<Byte>): (p: Option<seq<Byte>>)
  {
    if |c| < MAC_LENGTH then None
    else
      var k := f.hkdf(key);
      var body := c[..|c| - MAC_LENGTH];
      if c[|c| - MAC_LENGTH..] != f.hmac(k.macKey, body)[..MAC_LENGTH] then None else Decrypted(k.aesKey, k.iv, body)
  }

  lemma OpenedSealed(f: Primitives, key: seq<Byte>, p: seq<Byte>)
    ensures Opened(f, key, Sealed(f, key, p)) == Some(p)
  {
    hide Encrypted, Decrypted;
    var k := f.hkdf(key);
    DecryptedEncrypted(k.aesKey, k.iv, p);
    var c := Encrypted(k.aesKey, k.iv, p);
    assert Sealed(f, key, p)[..|c|] == c;
    assert Sealed(f, key, p)[|c|..] == f.hmac(k.macKey, c)[..MAC_LENGTH];
  }

  // ------------------------------------------------------------------
  // The pickle format
  // ------------------------------------------------------------------

  function EncodedLength(rawLength: nat): (n: nat) {
    EncodeLength(EncryptCbcLength(rawLength) + MAC_LENGTH)
  }

  /** Where in the output the raw pickle has to stand: `_olm_enc_output_pos`. */
  function OutputPos(rawLength: nat): (pos: nat)
    ensures pos + EncryptCbcLength(rawLength) + MAC_LENGTH == EncodedLength(rawLength)
  {
    EncodedLength(rawLength) - (EncryptCbcLength(rawLength) + MAC_LENGTH)
  }

  /** The encoded pickle of some raw bytes. */
  function Encoded(f: Primitives, key: seq<Byte>, raw: seq<Byte>): (t: seq<Byte>)
    ensures |t| == EncodedLength(|raw|)
  {
    Encode(Sealed(f, key, raw))
  }

  /** What reading an encoded pickle gives: raw bytes, or an error code. */
  function Read(f: Primitives, key: seq<Byte>, t: seq<Byte>): (r: Result<seq<Byte>>)
  {
    match Decode(t)
    case None => Err(InvalidBase64)
    case Some(c) =>
      match Opened(f, key, c)
      case None => Err(BadAccountKey)
      case Some(p) => Ok(p)
  }

  /** The reader undoes the writer for every key and every raw pickle. */
  lemma ReadEncoded(f: Primitives, key: seq<Byte>, raw: seq<Byte>)
    ensures Read(f, key, Encoded(f, key, raw)) == Ok(raw)
  {
    hide Sealed, Opened, Encode, Decode;
    DecodeEncode(Sealed(f, key, raw));
    OpenedSealed(f, key, raw);
  }

  // ------------------------------------------------------------------
  // In one buffer
  // ------------------------------------------------------------------

  /** `aes_sha_256_cipher_encrypt` in place: ciphertext over the plaintext, MAC behind it. */
  method CipherEncrypt(f: Primitives, key: seq<Byte>, buf: array<Byte>, at: nat, length: nat)
    requires at + EncryptCbcLength(length) + MAC_LENGTH <= buf.Length
    modifies buf
    ensures buf[at..at + EncryptCbcLength(length) + MAC_LENGTH] == Sealed(f, key, old(buf[at..at + length]))
    ensures SameOutside(old(buf[..]), buf[..], at, EncryptCbcLength(length) + MAC_LENGTH)
  {
    hide Encrypted;
    var keys := f.hkdf(key);
    ghost var p := buf[at..at + length];
    var end := at + EncryptCbcLength(length);
    AesEncryptCbc(keys.aesKey, keys.iv, buf, at, length, buf, at);
    var mac := f.hmac(keys.macKey, buf[at..end])[..MAC_LENGTH];
    Put(buf, end, mac);
    assert buf[at..end] == Encrypted(keys.aesKey, keys.iv, p);
    assert buf[at..end + MAC_LENGTH] == buf[at..end] + buf[end..end + MAC_LENGTH];
  }

  method Put(buf: array<Byte>, at: nat, b: seq<Byte>)
    requires at + |b| <= buf.Length
    modifies buf
    ensures buf[at..at + |b|] == b
    ensures SameOutside(old(buf[..]), buf[..], at, |b|)
  {
    for i := 0 to |b|
      invariant forall k :: 0 <= k < i ==> buf[at + k] == b[k]
      invariant forall k :: 0 <= k < buf.Length && !(at <= k < at + i) ==> buf[k] == old(buf[k])
    {
      buf[at + i] := b[i];
    }
  }

  /** `_olm_enc_output`: the raw pickle stands at `OutputPos`; afterwards the text fills the buffer from the front. */
  method EncOutput(f: Primitives, key: seq<Byte>, buf: array<Byte>, rawLength: nat) returns (written: nat)
    requires EncodedLength(rawLength) <= buf.Length
    modifies buf
    ensures written == EncodedLength(rawLength)
    ensures buf[..written] == Encoded(f, key, old(buf[OutputPos(rawLength)..OutputPos(rawLength) + rawLength]))
    ensures buf[written..] == old(buf[written..])
  {
    hide Sealed, Encode;
    var length := EncryptCbcLength(rawLength) + MAC_LENGTH;
    var pos := OutputPos(rawLength);
    CipherEncrypt(f, key, buf, pos, rawLength);
    ghost var moved := buf[..];
    written := EncodeBase64(buf, pos, length, buf, 0);
  }

  /** `_olm_enc_input`: decoded and decrypted onto the front of the same buffer. */
  method EncInput(f: Primitives, key: seq<Byte>, buf: array<Byte>, b64Length: nat) returns (r: Result<nat>)
    requires b64Length <= buf.Length
    modifies buf
    ensures
      match Read(f, key, old(buf[..b64Length]))
      case Err(e) => r == Err(e)
      case Ok(raw) => r == Ok(|raw|) && |raw| <= buf.Length && buf[..|raw|] == raw
  {
    hide Opened, Decode, Decrypted;
    ghost var t := buf[..b64Length];
    var decoded := DecodeBase64(buf, 0, b64Length, buf, 0);
    DecodeFails(t);
    if decoded == None {
      return Err(InvalidBase64);
    }
    var n := CipherDecrypt(f, key, buf, decoded.value);
    r := match n { case None => Err(BadAccountKey) case Some(k) => Ok(k) };
  }

  lemma DecodeFails(t: seq<Byte>)
    ensures Decode(t) == None <==> DecodeLength(|t|) == None
  {
  }

  lemma DecryptedShorter(key: Key, iv: Iv, c: seq<Byte>)
    ensures Decrypted(key, iv, c).Some? ==> |Decrypted(key, iv, c).value| <= |c|
  {
  }

  /** `aes_sha_256_cipher_decrypt` in place on the first `length` bytes. */
  method CipherDecrypt(f: Primitives, key: seq<Byte>, buf: array<Byte>, length: nat) returns (r: Option<nat>)
    requires length <= buf.Length
    modifies buf
    ensures
      match Opened(f, key, old(buf[..length]))
      case None => r == None
      case Some(p) => r == Some(|p|) && |p| <= buf.Length && buf[..|p|] == p
  {
    hide Decrypted;
    if length < MAC_LENGTH {
      return None;
    }
    var keys := f.hkdf(key);
    var bodyLength := length - MAC_LENGTH;
    ghost var c := buf[..length];
    assert c[..bodyLength] == buf[..bodyLength] && c[bodyLength..] == buf[bodyLength..length];
    if buf[bodyLength..length] != f.hmac(keys.macKey, buf[..bodyLength])[..MAC_LENGTH] {
      return None;
    }
    DecryptedShorter(keys.aesKey, keys.iv, buf[..bodyLength]);
    r := AesDecryptCbc(keys.aesKey, keys.iv, buf, 0, bodyLength, buf, 0);
  }
}
