// One side of the Olm double ratchet: the pure description of what encrypting
// and decrypting do to a ratchet, and the object that does it in place.
module Ratchet {
  import opened Common
  import opened Bytes
  import opened Symbols
  import opened List
  import Wire = Message

  const PROTOCOL_VERSION: byte := 3
  const MAX_MESSAGE_GAP: nat := 2000
  const MAX_RECEIVER_CHAINS: nat := 5
  const MAX_SKIPPED_MESSAGE_KEYS: nat := 40

  datatype ChainKey = ChainKey(index: uint32, key: Key)
  datatype MessageKey = MessageKey(index: uint32, key: Key)
  datatype SenderChain = SenderChain(ratchetKey: KeyPair, chainKey: ChainKey)
  datatype ReceiverChain = ReceiverChain(ratchetKey: PublicKey, chainKey: ChainKey)
  datatype SkippedKey = SkippedKey(ratchetKey: PublicKey, messageKey: MessageKey)

  datatype State = State(rootKey: Key, senderChain: seq<SenderChain>, receiverChains: seq<ReceiverChain>,
                         skipped: seq<SkippedKey>)

  predicate Bounded(s: State) {
    && |s.senderChain| <= 1
    && |s.receiverChains| <= MAX_RECEIVER_CHAINS
    && |s.skipped| <= MAX_SKIPPED_MESSAGE_KEYS
  }

  /** An initialised ratchet can always send: it has a chain, or a peer key to open one with. */
  predicate CanSend(s: State) {
    |s.senderChain| == 1 || |s.receiverChains| > 0
  }

  // ------------------------------------------------------------------
  // Key derivation
  // ------------------------------------------------------------------

  function CreateChainKey(root: Key, ours: KeyPair, theirs: PublicKey): (r: (Key, ChainKey)) {
    var secret := DiffieHellman(ours.privateKey, theirs);
    (NextRoot(root, secret), ChainKey(0, NewChain(root, secret)))
  }

  function AdvanceChainKey(c: ChainKey): (c': ChainKey) {
    ChainKey((c.index + 1) % MODULUS, NextLink(c.key))
  }

  function CreateMessageKeys(c: ChainKey): (m: MessageKey) {
    MessageKey(c.index, MessageKeyOf(c.key))
  }

  function Linked(k: Key, n: nat): (k': Key) {
    if n == 0 then k else NextLink(Linked(k, n - 1))
  }

  /** The chain key advanced to index i. */
  function At(c: ChainKey, i: uint32): (c': ChainKey)
    requires c.index <= i
    ensures c'.index == i
  {
    ChainKey(i, Linked(c.key, i - c.index))
  }

  // ------------------------------------------------------------------
  // Starting
  // ------------------------------------------------------------------

  function InitialAlice(agreed: seq<SharedSecret>, ours: KeyPair): (s: State)
    ensures Bounded(s) && CanSend(s)
  {
    State(RootOf(agreed), [SenderChain(ours, ChainKey(0, ChainOf(agreed)))], [], [])
  }

  function InitialBob(agreed: seq<SharedSecret>, theirs: PublicKey): (s: State)
    ensures Bounded(s) && CanSend(s)
  {
    State(RootOf(agreed), [], [ReceiverChain(theirs, ChainKey(0, ChainOf(agreed)))], [])
  }

  /** Both starts, on a ratchet that may already hold chains. */
  function StartedAsAlice(s: State, agreed: seq<SharedSecret>, ours: KeyPair): (t: State)
    requires Bounded(s)
    ensures Bounded(t) && CanSend(t)
    ensures s.receiverChains == [] && s.skipped == [] ==> t == InitialAlice(agreed, ours)
  {
    s.(rootKey := RootOf(agreed), senderChain := [SenderChain(ours, ChainKey(0, ChainOf(agreed)))])
  }

  function StartedAsBob(s: State, agreed: seq<SharedSecret>, theirs: PublicKey): (t: State)
    requires Bounded(s)
    ensures Bounded(t) && CanSend(t)
    ensures s.senderChain == [] && s.receiverChains == [] && s.skipped == [] ==> t == InitialBob(agreed, theirs)
  {
    var chain := ReceiverChain(theirs, ChainKey(0, ChainOf(agreed)));
    s.(rootKey := RootOf(agreed), receiverChains := PushFront(s.receiverChains, MAX_RECEIVER_CHAINS, chain))
  }

  // ------------------------------------------------------------------
  // Encrypting
  // ------------------------------------------------------------------

  const CURVE25519_KEY_LENGTH: nat := 32
  const CURVE25519_RANDOM_LENGTH: nat := 32
  const MAC_LENGTH: nat := 8

  /** The ciphertext of so many bytes. */
  function PaddedLength(n: nat): (m: nat) {
    n + 16 - n % 16
  }

  /** `_olm_ratchet_encrypt_output_length`: predicted before a chain may have to be opened. */
  function EncryptLength(s: State, plaintext: nat): (n: nat) {
    var counter := if s.senderChain == [] then 0 else s.senderChain[0].chainKey.index;
    Wire.EncodeMessageLength(counter, CURVE25519_KEY_LENGTH, PaddedLength(plaintext), MAC_LENGTH)
  }

  /** The ratchet with a sender chain, opened from `random` when there is none. */
  function WithSenderChain(s: State, random: nat): (s': State)
    requires Bounded(s) && CanSend(s)
    ensures Bounded(s') && |s'.senderChain| == 1
  {
    if |s.senderChain| == 1 then s
    else
      var ours := GenerateKey(random);
      var (root, chain) := CreateChainKey(s.rootKey, ours, s.receiverChains[0].ratchetKey);
      s.(rootKey := root, senderChain := [SenderChain(ours, chain)])
  }

  function Encrypt(s: State, plaintext: Data, random: nat): (r: (State, Message))
    requires Bounded(s) && CanSend(s)
    ensures Bounded(r.0) && CanSend(r.0)
  {
    var t := WithSenderChain(s, random);
    var chain := t.senderChain[0];
    var keys := CreateMessageKeys(chain.chainKey);
    (t.(senderChain := [chain.(chainKey := AdvanceChainKey(chain.chainKey))]),
     Seal(keys.key, PROTOCOL_VERSION, keys.index, chain.ratchetKey.publicKey, plaintext))
  }

  // ------------------------------------------------------------------
  // Decrypting
  // ------------------------------------------------------------------

  /** Position of the first chain with this ratchet key, or the length. */
  function FindChain(chains: seq<ReceiverChain>, key: PublicKey): (i: nat)
    ensures i <= |chains| && (i < |chains| ==> chains[i].ratchetKey == key)
    ensures forall j :: 0 <= j < i ==> chains[j].ratchetKey != key
  {
    if chains == [] || chains[0].ratchetKey == key then 0 else 1 + FindChain(chains[1..], key)
  }

  predicate SkippedOpens(k: SkippedKey, key: PublicKey, counter: uint32, m: Message) {
    k.messageKey.index == counter && k.ratchetKey == key && Open(m, k.messageKey.key).Some?
  }

  /** Position of the first skipped key that decrypts the message, or the length. */
  function FindSkipped(skipped: seq<SkippedKey>, key: PublicKey, counter: uint32, m: Message): (i: nat)
    ensures i <= |skipped| && (i < |skipped| ==> SkippedOpens(skipped[i], key, counter, m))
    ensures forall j :: 0 <= j < i ==> !SkippedOpens(skipped[j], key, counter, m)
  {
    if skipped == [] || SkippedOpens(skipped[0], key, counter, m) then 0
    else 1 + FindSkipped(skipped[1..], key, counter, m)
  }

  function TrialExisting(chain: ChainKey, counter: uint32, m: Message): (r: Option<Data>) {
    if counter < chain.index || counter - chain.index > MAX_MESSAGE_GAP then None
    else Open(m, CreateMessageKeys(At(chain, counter)).key)
  }

  function TrialNew(s: State, key: PublicKey, counter: uint32, m: Message): (r: Option<Data>) {
    if s.senderChain == [] || counter > MAX_MESSAGE_GAP then None
    else TrialExisting(CreateChainKey(s.rootKey, s.senderChain[0].ratchetKey, key).1, counter, m)
  }

  /** The keys of `chain` from its index up to `counter`, each pushed in front. */
  function StoreSkipped(skipped: seq<SkippedKey>, key: PublicKey, chain: ChainKey,
                        counter: uint32): (t: seq<SkippedKey>)
    requires |skipped| <= MAX_SKIPPED_MESSAGE_KEYS
    ensures |t| <= MAX_SKIPPED_MESSAGE_KEYS
    decreases counter - chain.index
  {
    if chain.index >= counter then skipped
    else StoreSkipped(
      PushFront(skipped, MAX_SKIPPED_MESSAGE_KEYS, SkippedKey(key, CreateMessageKeys(chain))),
      key, AdvanceChainKey(chain), counter)
  }

  /** Adopting the peer's new ratchet key: a new receiver chain in front, our sender chain dropped. */
  function WithReceiverChain(s: State, key: PublicKey): (s': State)
    requires Bounded(s) && |s.senderChain| == 1
    ensures Bounded(s') && s'.receiverChains != [] && s'.receiverChains[0].chainKey.index == 0
  {
    var (root, chain) := CreateChainKey(s.rootKey, s.senderChain[0].ratchetKey, key);
    State(root, [], PushFront(s.receiverChains, MAX_RECEIVER_CHAINS, ReceiverChain(key, chain)), s.skipped)
  }

  /** Receiver chain i moved past `counter`, its passed-over keys stored. */
  function PastCounter(s: State, i: nat, counter: uint32): (s': State)
    requires Bounded(s) && i < |s.receiverChains| && s.receiverChains[i].chainKey.index <= counter
    ensures Bounded(s')
  {
    var chain := s.receiverChains[i];
    s.(receiverChains := s.receiverChains[i := chain.(chainKey := AdvanceChainKey(At(chain.chainKey, counter)))],
       skipped := StoreSkipped(s.skipped, chain.ratchetKey, chain.chainKey, counter))
  }

  function DecryptWithKey(s: State, key: PublicKey, counter: uint32, m: Message): (r: (State, Result<Data>))
    requires Bounded(s)
    ensures Bounded(r.0)
  {
    var i := FindChain(s.receiverChains, key);
    if i == |s.receiverChains| then
      match TrialNew(s, key, counter, m)
      case None => (s, Err(BadMessageMac))
      case Some(plaintext) => (PastCounter(WithReceiverChain(s, key), 0, counter), Ok(plaintext))
    else if s.receiverChains[i].chainKey.index > counter then
      var k := FindSkipped(s.skipped, key, counter, m);
      if k == |s.skipped| then (s, Err(BadMessageMac))
      else (s.(skipped := Erased(s.skipped, k)), Ok(Open(m, s.skipped[k].messageKey.key).value))
    else
      match TrialExisting(s.receiverChains[i].chainKey, counter, m)
      case None => (s, Err(BadMessageMac))
      case Some(plaintext) => (PastCounter(s, i, counter), Ok(plaintext))
  }

  function Decrypt(s: State, m: Message, maxPlaintext: nat): (r: (State, Result<Data>))
    requires Bounded(s)
    ensures Bounded(r.0)
  {
    if m.version != PROTOCOL_VERSION then (s, Err(BadMessageVersion))
    else if m.counter.None? || m.ratchetKey.NoKey? || m.ciphertext.None? then (s, Err(BadMessageFormat))
    else if maxPlaintext < m.ciphertext.value.Length() then (s, Err(OutputBufferTooSmall))
    else if !m.ratchetKey.HasKey? then (s, Err(BadMessageFormat))
    else DecryptWithKey(s, m.ratchetKey.key, m.counter.value, m)
  }

  /** A failing decrypt leaves root key, chains and skipped keys as they were. */
  lemma FailureChangesNothing(s: State, m: Message, maxPlaintext: nat)
    requires Bounded(s)
    ensures Decrypt(s, m, maxPlaintext).1.Err? ==> Decrypt(s, m, maxPlaintext).0 == s
  {
  }

  predicate OnUnknownKey(s: State, m: Message) {
    m.ratchetKey.HasKey? && FindChain(s.receiverChains, m.ratchetKey.key) == |s.receiverChains|
  }

  /** The chain derived from the old root key, moved to the counter of m, opens m; the new
      state keeps that very chain in front, moved past m, with the root key derived beside it. */
  predicate Committed(s: State, m: Message, plaintext: Data, t: State) {
    && |s.senderChain| == 1 && |s.receiverChains| <= MAX_RECEIVER_CHAINS
    && m.ratchetKey.HasKey? && m.counter.Some? && m.counter.value <= MAX_MESSAGE_GAP
    && var (root, chain) := CreateChainKey(s.rootKey, s.senderChain[0].ratchetKey, m.ratchetKey.key);
       var verified := At(chain, m.counter.value);
       && Open(m, CreateMessageKeys(verified).key) == Some(plaintext)
       && t.rootKey == root && t.senderChain == []
       && t.receiverChains == PushFront(s.receiverChains, MAX_RECEIVER_CHAINS,
                                        ReceiverChain(m.ratchetKey.key, AdvanceChainKey(verified)))
  }

  /** A message on an unknown ratchet key commits exactly the chain that verified it. */
  lemma CommitsVerifiedChain(s: State, m: Message, maxPlaintext: nat)
    requires Bounded(s) && OnUnknownKey(s, m) && Decrypt(s, m, maxPlaintext).1.Ok?
    ensures Committed(s, m, Decrypt(s, m, maxPlaintext).1.value, Decrypt(s, m, maxPlaintext).0)
  {
    hide StoreSkipped, Linked, FindChain;
  }

  /** The key of the next message stored, and its chain moved past it. */
  function PastOne(s: State, i: nat): (t: State)
    requires Bounded(s) && i < |s.receiverChains|
    ensures Bounded(t) && |t.receiverChains| == |s.receiverChains|
  {
    var c := s.receiverChains[i];
    s.(receiverChains := s.receiverChains[i := c.(chainKey := AdvanceChainKey(c.chainKey))],
       skipped := PushFront(s.skipped, MAX_SKIPPED_MESSAGE_KEYS,
                            SkippedKey(c.ratchetKey, CreateMessageKeys(c.chainKey))))
  }

  lemma PastCounterNext(s: State, i: nat, counter: uint32)
    requires Bounded(s) && i < |s.receiverChains| && s.receiverChains[i].chainKey.index < counter
    ensures PastOne(s, i).receiverChains[i].chainKey.index == s.receiverChains[i].chainKey.index + 1
    ensures PastCounter(PastOne(s, i), i, counter) == PastCounter(s, i, counter)
  {
    hide PushFront, CreateMessageKeys;
    LinkedTwice(s.receiverChains[i].chainKey, counter);
  }

  lemma LinkedTwice(c: ChainKey, counter: uint32)
    requires c.index < counter
    ensures At(AdvanceChainKey(c), counter) == At(c, counter)
  {
    LinkedFirst(c.key, counter - c.index);
  }

  lemma {:induction false} LinkedFirst(k: Key, n: nat)
    requires n > 0
    ensures Linked(NextLink(k), n - 1) == Linked(k, n)
  {
    if n == 1 {
    } else {
      LinkedFirst(k, n - 1);
    }
  }

  lemma PastCounterLast(s: State, i: nat)
    requires Bounded(s) && i < |s.receiverChains|
    ensures var c := s.receiverChains[i];
      PastCounter(s, i, c.chainKey.index)
        == s.(receiverChains := s.receiverChains[i := c.(chainKey := AdvanceChainKey(c.chainKey))])
  {
  }

  // ------------------------------------------------------------------
  // The C object
  // ------------------------------------------------------------------

  /** 32 bytes of key storage, which a call may be given as input and output at once. */
  class SharedKey {
    var key: Key

    constructor ()
    {
      key := Foreign(0);
    }
  }

  function WithSenderKey(c: SenderChain, k: ChainKey): (c': SenderChain) {
    c.(chainKey := k)
  }

  function WithReceiverKey(c: ReceiverChain, k: ChainKey): (c': ReceiverChain) {
    c.(chainKey := k)
  }

  function OnlyKey(c: ChainKey, k: ChainKey): (c': ChainKey) {
    k
  }

  /** `create_chain_key`: the new root key may be written over the one it is derived from;
      the new chain key goes into a field of element `at`, which `with` sets. */
  method DeriveChain<C>(root: SharedKey, ours: KeyPair, theirs: PublicKey, newRoot: SharedKey,
                        chains: array<C>, at: nat, with: (C, ChainKey) -> C)
    requires at < chains.Length
    modifies newRoot, chains
    ensures newRoot.key == CreateChainKey(old(root.key), ours, theirs).0
    ensures chains[..] == old(chains[..])[at := with(old(chains[at]), CreateChainKey(old(root.key), ours, theirs).1)]
  {
    var secret := DiffieHellman(ours.privateKey, theirs);
    var firstHalf, secondHalf := NextRoot(root.key, secret), NewChain(root.key, secret);
    newRoot.key := firstHalf;
    chains[at] := with(chains[at], ChainKey(0, secondHalf));
  }

  class OlmRatchet {
    var lastError: Option<Error>
    const rootKey: SharedKey
    const senderChain: List<SenderChain>
    const receiverChains: List<ReceiverChain>
    const skipped: List<SkippedKey>

    /** Everything the structure is made of. */
    ghost function Storage(): (s: set<object>) {
      {rootKey, senderChain, senderChain.data, receiverChains, receiverChains.data, skipped, skipped.data}
    }

    /** Nothing is stored in two places at once. */
    ghost predicate Apart() {
      && (senderChain as object) != receiverChains && (senderChain as object) != skipped
      && (receiverChains as object) != skipped
      && (senderChain.data as object) != receiverChains.data && (senderChain.data as object) != skipped.data
      && (receiverChains.data as object) != skipped.data
    }

    ghost predicate Valid()
      reads this, Storage()
    {
      && Apart()
      && senderChain.Valid() && senderChain.data.Length == 1
      && receiverChains.Valid() && receiverChains.data.Length == MAX_RECEIVER_CHAINS
      && skipped.Valid() && skipped.data.Length == MAX_SKIPPED_MESSAGE_KEYS
    }

    function View(): (s: State)
      requires Valid()
      reads this, Storage()
      ensures Bounded(s)
    {
      State(rootKey.key, senderChain.Contents(), receiverChains.Contents(), skipped.Contents())
    }

    constructor ()
      ensures Valid() && fresh(Storage()) && lastError == None
      ensures View().senderChain == [] && View().receiverChains == [] && View().skipped == []
    {
      lastError := None;
      rootKey := new SharedKey();
      senderChain := new List(1);
      receiverChains := new List(MAX_RECEIVER_CHAINS);
      skipped := new List(MAX_SKIPPED_MESSAGE_KEYS);
    }

    method InitialiseAsBob(agreed: seq<SharedSecret>, theirs: PublicKey)
      requires Valid()
      modifies Storage()
      ensures Valid() && View() == StartedAsBob(old(View()), agreed, theirs)
    {
      ghost var chains := receiverChains.Contents();
      var slot := receiverChains.InsertFrontSlot();
      receiverChains.Put(slot, receiverChains.data[slot].(chainKey := ChainKey(0, ChainOf(agreed))));
      rootKey.key := RootOf(agreed);
      receiverChains.Put(slot, receiverChains.data[slot].(ratchetKey := theirs));
      FilledFront(chains, MAX_RECEIVER_CHAINS, receiverChains.Contents());
    }

    method InitialiseAsAlice(agreed: seq<SharedSecret>, ours: KeyPair)
      requires Valid()
      modifies Storage()
      ensures Valid() && View() == StartedAsAlice(old(View()), agreed, ours)
    {
      var slot := senderChain.InsertFrontSlot();
      senderChain.Put(slot, senderChain.data[slot].(chainKey := ChainKey(0, ChainOf(agreed))));
      rootKey.key := RootOf(agreed);
      senderChain.Put(slot, senderChain.data[slot].(ratchetKey := ours));
    }

    /** The first sending after a reply: the slot comes first, then its two halves. */
    method OpenSenderChain(random: nat)
      requires Valid() && senderChain.length == 0 && receiverChains.length > 0
      modifies rootKey, senderChain`length, senderChain.data
      ensures Valid() && View() == WithSenderChain(old(View()), random)
    {
      hide CreateChainKey;
      var slot := senderChain.InsertFrontSlot();
      senderChain.Put(slot, senderChain.data[slot].(ratchetKey := GenerateKey(random)));
      DeriveChain(rootKey, senderChain.data[slot].ratchetKey, receiverChains.data[0].ratchetKey,
                  rootKey, senderChain.data, slot, WithSenderKey);
    }

    /** `_olm_ratchet_encrypt`. */
    method EncryptMessage(plaintext: Data, random: nat, randomLength: nat, maxOutput: nat) returns (r: Result<Message>)
      requires Valid() && CanSend(View())
      modifies this, Storage()
      ensures Valid() && CanSend(View())
      ensures var needed := if old(View()).senderChain == [] then CURVE25519_RANDOM_LENGTH else 0;
        r == if randomLength < needed then Err(NotEnoughRandom)
             else if maxOutput < EncryptLength(old(View()), |plaintext|) then Err(OutputBufferTooSmall)
             else Ok(Encrypt(old(View()), plaintext, random).1)
      ensures r.Ok? ==> View() == Encrypt(old(View()), plaintext, random).0 && lastError == old(lastError)
      ensures r.Err? ==> View() == old(View()) && lastError == Some(r.error)
    {
      hide EncryptLength, CreateChainKey;
      ghost var s := View();
      var outputLength := EncryptLength(View(), |plaintext|);
      if randomLength < (if senderChain.length == 0 then CURVE25519_RANDOM_LENGTH else 0) {
        lastError := Some(NotEnoughRandom);
        return Err(NotEnoughRandom);
      }
      if maxOutput < outputLength {
        lastError := Some(OutputBufferTooSmall);
        return Err(OutputBufferTooSmall);
      }
      if senderChain.length == 0 {
        OpenSenderChain(random);
      }
      assert View() == WithSenderChain(s, random);
      hide WithSenderChain;
      var chain := senderChain.data[0];
      var keys := CreateMessageKeys(chain.chainKey);
      senderChain.Put(0, chain.(chainKey := AdvanceChainKey(chain.chainKey)));
      r := Ok(Seal(keys.key, PROTOCOL_VERSION, keys.index, senderChain.data[0].ratchetKey.publicKey, plaintext));
    }

    /** Trial on a copy of an existing chain. */
    method VerifyForExistingChain(chain: ChainKey, counter: uint32, m: Message) returns (r: Option<Data>)
      ensures r == TrialExisting(chain, counter, m)
    {
      if counter < chain.index {
        return None;
      }
      if counter - chain.index > MAX_MESSAGE_GAP {
        return None;
      }
      var newChain := chain;
      while newChain.index < counter
        invariant chain.index <= newChain.index <= counter && newChain == At(chain, newChain.index)
      {
        newChain := AdvanceChainKey(newChain);
      }
      return Open(m, CreateMessageKeys(newChain).key);
    }

    /** Trial on a chain derived into storage of its own: the ratchet is not touched. */
    method VerifyForNewChain(key: PublicKey, counter: uint32, m: Message) returns (r: Option<Data>)
      requires Valid()
      ensures r == TrialNew(View(), key, counter, m)
    {
      hide CreateChainKey;
      if senderChain.length == 0 || counter > MAX_MESSAGE_GAP {
        return None;
      }
      var newRoot := new SharedKey();
      var newChain := new ChainKey[1];
      DeriveChain(rootKey, senderChain.data[0].ratchetKey, key, newRoot, newChain, 0, OnlyKey);
      r := VerifyForExistingChain(newChain[0], counter, m);
    }

    method SearchChains(key: PublicKey) returns (i: nat)
      requires Valid()
      ensures i == FindChain(View().receiverChains, key)
    {
      ghost var chains := View().receiverChains;
      i := 0;
      while i < receiverChains.length
        invariant 0 <= i <= |chains|
        invariant FindChain(chains, key) == i + FindChain(chains[i..], key)
      {
        if receiverChains.data[i].ratchetKey == key {
          return;
        }
        i := i + 1;
      }
    }

    /** Tries every stored key of this chain and index until one verifies. */
    method SearchSkipped(key: PublicKey, counter: uint32, m: Message) returns (k: nat, r: Option<Data>)
      requires Valid()
      ensures k == FindSkipped(View().skipped, key, counter, m)
      ensures r == if k < |View().skipped| then Open(m, View().skipped[k].messageKey.key) else None
    {
      ghost var stored := View().skipped;
      k, r := 0, None;
      while k < skipped.length
        invariant 0 <= k <= |stored| && r == None
        invariant FindSkipped(stored, key, counter, m) == k + FindSkipped(stored[k..], key, counter, m)
      {
        if counter == skipped.data[k].messageKey.index && skipped.data[k].ratchetKey == key {
          r := Open(m, skipped.data[k].messageKey.key);
          if r.Some? {
            return;
          }
        }
        k := k + 1;
      }
    }

    /** A new slot in front, filled field by field. */
    method StoreKey(chain: ReceiverChain)
      requires Valid()
      modifies skipped`length, skipped.data
      ensures Valid()
      ensures var key := SkippedKey(chain.ratchetKey, CreateMessageKeys(chain.chainKey));
        View() == old(View()).(skipped := PushFront(old(View()).skipped, MAX_SKIPPED_MESSAGE_KEYS, key))
    {
      hide PushFront, CreateMessageKeys;
      ghost var stored := skipped.Contents();
      var slot := skipped.InsertFrontSlot();
      skipped.Put(slot, skipped.data[slot].(messageKey := CreateMessageKeys(chain.chainKey)));
      skipped.Put(slot, skipped.data[slot].(ratchetKey := chain.ratchetKey));
      FilledFront(stored, MAX_SKIPPED_MESSAGE_KEYS, skipped.Contents());
    }

    /** `advance_chain_key` with the chain's own key as input and output. */
    method AdvanceInPlace(i: nat)
      requires Valid() && i < receiverChains.length
      modifies receiverChains.data
      ensures Valid()
      ensures var c := old(View()).receiverChains[i];
        View() == old(View()).(receiverChains :=
                                 old(View()).receiverChains[i := c.(chainKey := AdvanceChainKey(c.chainKey))])
    {
      var c := receiverChains.data[i];
      receiverChains.Put(i, c.(chainKey := AdvanceChainKey(c.chainKey)));
    }

    /** Stores the keys up to `counter` and moves the chain past it. */
    method AdvancePast(i: nat, counter: uint32)
      requires Valid() && i < receiverChains.length && receiverChains.data[i].chainKey.index <= counter
      modifies receiverChains.data, skipped`length, skipped.data
      ensures Valid() && View() == PastCounter(old(View()), i, counter)
    {
      hide PushFront, CreateMessageKeys, PastCounter, AdvanceChainKey;
      while receiverChains.data[i].chainKey.index < counter
        invariant Valid() && i < |View().receiverChains| && View().receiverChains[i].chainKey.index <= counter
        invariant PastCounter(View(), i, counter) == PastCounter(old(View()), i, counter)
        decreases counter - receiverChains.data[i].chainKey.index
      {
        ghost var s := View();
        PastCounterNext(s, i, counter);
        StoreKey(receiverChains.data[i]);
        AdvanceInPlace(i);
        assert View() == PastOne(s, i);
      }
      PastCounterLast(View(), i);
      AdvanceInPlace(i);
    }

    /** Adopting the peer's ratchet key. The slot is taken first, so it still holds another
        chain; the ratchet key is filled in; then the chain is derived a second time, into the
        slot and from the root key that the derivation overwrites; then the sender chain goes. */
    method CommitNewChain(key: PublicKey)
      requires Valid() && senderChain.length == 1
      modifies Storage()
      ensures Valid() && View() == WithReceiverChain(old(View()), key)
    {
      hide CreateChainKey;
      ghost var chains := receiverChains.Contents();
      var slot := receiverChains.InsertFrontSlot();
      receiverChains.Put(slot, receiverChains.data[slot].(ratchetKey := key));
      DeriveChain(rootKey, senderChain.data[0].ratchetKey, receiverChains.data[slot].ratchetKey,
                  rootKey, receiverChains.data, slot, WithReceiverKey);
      FilledFront(chains, MAX_RECEIVER_CHAINS, receiverChains.Contents());
      senderChain.Erase(0);
    }

    /** `_olm_ratchet_decrypt`. On success with an unknown ratchet key the chain kept is the one
        whose trial opened the message. */
    method DecryptMessage(m: Message, maxPlaintext: nat) returns (r: Result<Data>)
      requires Valid()
      modifies this, Storage()
      ensures Valid()
      ensures (View(), r) == Decrypt(old(View()), m, maxPlaintext)
      ensures OnUnknownKey(old(View()), m) && r.Ok? ==> Committed(old(View()), m, r.value, View())
      ensures lastError == match r { case Ok(_) => old(lastError) case Err(e) => Some(e) }
    {
      if OnUnknownKey(View(), m) && Decrypt(View(), m, maxPlaintext).1.Ok? {
        CommitsVerifiedChain(View(), m, maxPlaintext);
      }
      hide OnUnknownKey, Committed, DecryptWithKey;
      if m.version != PROTOCOL_VERSION {
        lastError := Some(BadMessageVersion);
        return Err(BadMessageVersion);
      }
      if m.counter.None? || m.ratchetKey.NoKey? || m.ciphertext.None? {
        lastError := Some(BadMessageFormat);
        return Err(BadMessageFormat);
      }
      if maxPlaintext < m.ciphertext.value.Length() {
        lastError := Some(OutputBufferTooSmall);
        return Err(OutputBufferTooSmall);
      }
      if !m.ratchetKey.HasKey? {
        lastError := Some(BadMessageFormat);
        return Err(BadMessageFormat);
      }
      r := DecryptKnown(m, m.ratchetKey.key, m.counter.value);
    }

    /** The part of `_olm_ratchet_decrypt` behind the format checks. */
    method DecryptKnown(m: Message, key: PublicKey, counter: uint32) returns (r: Result<Data>)
      requires Valid()
      modifies this, Storage()
      ensures Valid()
      ensures (View(), r) == DecryptWithKey(old(View()), key, counter, m)
      ensures lastError == match r { case Ok(_) => old(lastError) case Err(e) => Some(e) }
    {
      hide PushFront, TrialNew, TrialExisting, FindChain, FindSkipped, PastCounter, CreateChainKey;
      var i := SearchChains(key);
      var plaintext: Option<Data>;
      var unknown := i == receiverChains.length;
      if unknown {
        plaintext := VerifyForNewChain(key, counter, m);
      } else if receiverChains.data[i].chainKey.index > counter {
        var k: nat;
        k, plaintext := SearchSkipped(key, counter, m);
        if plaintext.Some? {
          skipped.Erase(k);
          return Ok(plaintext.value);
        }
      } else {
        plaintext := VerifyForExistingChain(receiverChains.data[i].chainKey, counter, m);
      }
      if plaintext.None? {
        lastError := Some(BadMessageMac);
        return Err(BadMessageMac);
      }
      if unknown {
        TrialNeedsSender(View(), key, counter, m);
        CommitNewChain(key);
        i := 0;
      } else {
        TrialNeedsIndex(View().receiverChains[i].chainKey, counter, m);
      }
      AdvancePast(i, counter);
      return Ok(plaintext.value);
    }
  }

  lemma TrialNeedsSender(s: State, key: PublicKey, counter: uint32, m: Message)
    requires TrialNew(s, key, counter, m).Some?
    ensures s.senderChain != []
  {
  }

  lemma TrialNeedsIndex(chain: ChainKey, counter: uint32, m: Message)
    requires TrialExisting(chain, counter, m).Some?
    ensures chain.index <= counter
  {
  }
}
