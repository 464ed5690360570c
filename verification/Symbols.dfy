// Symbolic cryptography for the Olm sessions. Keys are free terms, so two keys
// are equal only when they were derived in the same way; Diffie-Hellman is an
// unordered pair; a tag verifies only for the key and the content it was made
// from.
module Symbols {
  import opened Common
  import opened Bytes

  datatype PrivateKey = PrivateKey(id: nat)
  datatype PublicKey = PublicKey(id: nat)
  datatype KeyPair = KeyPair(publicKey: PublicKey, privateKey: PrivateKey)

  /** The pair grown from 32 random bytes, here named by a number. */
  function GenerateKey(random: nat): (k: KeyPair) {
    KeyPair(PublicKey(random), PrivateKey(random))
  }

  datatype SharedSecret = SharedSecret(low: nat, high: nat)

  function DiffieHellman(ours: PrivateKey, theirs: PublicKey): (s: SharedSecret) {
    if ours.id <= theirs.id then SharedSecret(ours.id, theirs.id) else SharedSecret(theirs.id, ours.id)
  }

  /** 32-byte symmetric keys by derivation. */
  datatype Key =
    | RootOf(agreed: seq<SharedSecret>)                 // HKDF("OLM_ROOT"), first half
    | ChainOf(agreed: seq<SharedSecret>)                // HKDF("OLM_ROOT"), second half
    | NextRoot(root: Key, secret: SharedSecret)         // HKDF("OLM_RATCHET"), first half
    | NewChain(root: Key, secret: SharedSecret)         // HKDF("OLM_RATCHET"), second half
    | NextLink(link: Key)                               // HMAC of CHAIN_KEY_SEED
    | MessageKeyOf(link: Key)                           // HMAC of MESSAGE_KEY_SEED
    | Foreign(name: nat)                                // any key not derived from the agreed secret

  /** A key someone without the agreed secret cannot form. */
  predicate DerivedFrom(k: Key, agreed: seq<SharedSecret>) {
    match k
    case RootOf(a) => a == agreed
    case ChainOf(a) => a == agreed
    case NextRoot(r, _) => DerivedFrom(r, agreed)
    case NewChain(r, _) => DerivedFrom(r, agreed)
    case NextLink(l) => DerivedFrom(l, agreed)
    case MessageKeyOf(l) => DerivedFrom(l, agreed)
    case Foreign(_) => false
  }

  /** AES-CBC under the keys derived from a message key. */
  datatype Ciphertext = Ciphertext(key: Key, plaintext: Data) {
    function Length(): nat {
      |plaintext| + 16 - |plaintext| % 16
    }
  }

  datatype KeyField = NoKey | MalformedKey(length: nat) | HasKey(key: PublicKey)

  /** A ratchet message as the decoder reports it, with its MAC. */
  datatype Message = Message(version: byte, counter: Option<uint32>, ratchetKey: KeyField,
                             ciphertext: Option<Ciphertext>, tag: Tag)

  /** HMAC under the key derived from `key`, over everything before it. */
  datatype Tag = Tag(key: Key, version: byte, counter: Option<uint32>, ratchetKey: KeyField,
                     ciphertext: Option<Ciphertext>)

  predicate TagVerifies(m: Message, key: Key) {
    m.tag == Tag(key, m.version, m.counter, m.ratchetKey, m.ciphertext)
  }

  /** MAC check, then decryption. */
  function Open(m: Message, key: Key): (r: Option<Data>) {
    if m.ciphertext.Some? && TagVerifies(m, key) && m.ciphertext.value.key == key
    then Some(m.ciphertext.value.plaintext) else None
  }

  function Seal(key: Key, version: byte, counter: uint32, ratchetKey: PublicKey, plaintext: Data): (m: Message)
    ensures Open(m, key) == Some(plaintext)
  {
    var c := Some(Ciphertext(key, plaintext));
    Message(version, Some(counter), HasKey(ratchetKey), c, Tag(key, version, Some(counter), HasKey(ratchetKey), c))
  }
}
