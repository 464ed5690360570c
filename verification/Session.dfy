// Olm sessions: how two accounts agree on a ratchet by triple Diffie-Hellman,
// pre-key messages that carry the agreement, and the session object around
// the ratchet.
module Session {
  import opened Common
  import opened Bytes
  import opened Symbols
  import opened Ratchet
  import A = Account
  import Wire = Message
  import Runs

  type OneTimeKey = A.OneTimeKey<KeyPair>

  /** What session creation uses of an account. */
  datatype Party = Party(identity: KeyPair, keys: A.Keys<KeyPair>)

  /** A pre-key message as its decoder reports it; `message` is the ratchet message inside. */
  datatype PreKeyMessage = PreKeyMessage(version: byte, oneTimeKey: KeyField, baseKey: KeyField,
                                         identityKey: KeyField, message: Option<Message>)

  datatype Envelope = PreKey(preKey: PreKeyMessage) | Normal(normal: Message)

  datatype SessionState = SessionState(receivedMessage: bool, aliceIdentityKey: PublicKey, aliceBaseKey: PublicKey,
                                       bobOneTimeKey: PublicKey, ratchet: State)

  function PublicOf(k: KeyPair): (p: PublicKey) {
    k.publicKey
  }

  /** SHA-256 of the three keys: equal exactly when the keys are. */
  datatype SessionId = Sha256(aliceIdentityKey: PublicKey, aliceBaseKey: PublicKey, bobOneTimeKey: PublicKey)

  function Id(x: SessionState): (id: SessionId) {
    Sha256(x.aliceIdentityKey, x.aliceBaseKey, x.bobOneTimeKey)
  }

  // ------------------------------------------------------------------
  // Creating a session
  // ------------------------------------------------------------------

  /** Alice's three shared secrets, in the order in which they are hashed. */
  function SecretOfAlice(identity: KeyPair, base: KeyPair, theirIdentity: PublicKey,
                         theirOneTime: PublicKey): (s: seq<SharedSecret>) {
    [DiffieHellman(identity.privateKey, theirOneTime),
     DiffieHellman(base.privateKey, theirIdentity),
     DiffieHellman(base.privateKey, theirOneTime)]
  }

  function SecretOfBob(identity: KeyPair, oneTime: KeyPair, theirIdentity: PublicKey,
                       theirBase: PublicKey): (s: seq<SharedSecret>) {
    [DiffieHellman(oneTime.privateKey, theirIdentity),
     DiffieHellman(identity.privateKey, theirBase),
     DiffieHellman(oneTime.privateKey, theirBase)]
  }

  /** Creating an outbound session in an object that may have been used before. */
  function OutboundOn(x: SessionState, identity: KeyPair, theirIdentity: PublicKey, theirOneTime: PublicKey,
                      baseRandom: nat, ratchetRandom: nat): (x': SessionState)
    requires Bounded(x.ratchet)
  {
    var base := GenerateKey(baseRandom);
    var agreed := SecretOfAlice(identity, base, theirIdentity, theirOneTime);
    SessionState(false, identity.publicKey, base.publicKey, theirOneTime,
                 StartedAsAlice(x.ratchet, agreed, GenerateKey(ratchetRandom)))
  }

  /** An initialised object: no chains, nothing received. */
  predicate Blank(x: SessionState) {
    !x.receivedMessage && x.ratchet.senderChain == [] && x.ratchet.receiverChains == [] && x.ratchet.skipped == []
  }

  const BLANK := SessionState(false, PublicKey(0), PublicKey(0), PublicKey(0), State(Foreign(0), [], [], []))

  function Outbound(identity: KeyPair, theirIdentity: PublicKey, theirOneTime: PublicKey,
                    baseRandom: nat, ratchetRandom: nat): (x: SessionState)
    ensures Usable(x) && !x.receivedMessage && |x.ratchet.senderChain| == 1
    ensures x.ratchet.senderChain[0].chainKey.index == 0
  {
    OutboundOn(BLANK, identity, theirIdentity, theirOneTime, baseRandom, ratchetRandom)
  }

  /** `check_message_fields`. */
  predicate FieldsPresent(m: PreKeyMessage, haveIdentity: bool) {
    && (haveIdentity || !m.identityKey.NoKey?)
    && (m.identityKey.NoKey? || m.identityKey.HasKey?)
    && m.message.Some? && m.baseKey.HasKey? && m.oneTimeKey.HasKey?
  }

  /** The identity key is loaded from the message even when the caller knows it. */
  predicate CarriesIdentity(theirs: Option<PublicKey>, m: PreKeyMessage) {
    theirs.Some? ==> !m.identityKey.NoKey?
  }

  /** Bob's ratchet, once the three keys have been loaded. */
  function InboundRatchet(s: State, bob: Party, m: PreKeyMessage, identityKey: PublicKey, baseKey: PublicKey,
                          oneTimeKey: PublicKey): (r: Result<State>)
    requires Bounded(s) && m.message.Some?
    ensures r.Ok? ==> Bounded(r.value)
  {
    if !m.message.value.ratchetKey.HasKey? then Err(BadMessageFormat)
    else
      match A.Lookup(bob.keys, PublicOf, oneTimeKey)
      case None => Err(BadMessageKeyId)
      case Some(k) => Ok(StartedAsBob(s, SecretOfBob(bob.identity, k.key, identityKey, baseKey),
                                      m.message.value.ratchetKey.key))
  }

  /** Creating an inbound session, likewise. */
  function InboundOn(x: SessionState, bob: Party, theirs: Option<PublicKey>,
                     m: PreKeyMessage): (r: Result<SessionState>)
    requires Bounded(x.ratchet) && CarriesIdentity(theirs, m)
  {
    if !FieldsPresent(m, theirs.Some?) then Err(BadMessageFormat)
    else if theirs.Some? && theirs.value != m.identityKey.key then Err(BadMessageKeyId)
    else
      match InboundRatchet(x.ratchet, bob, m, m.identityKey.key, m.baseKey.key, m.oneTimeKey.key)
      case Err(e) => Err(e)
      case Ok(t) => Ok(SessionState(x.receivedMessage, m.identityKey.key, m.baseKey.key, m.oneTimeKey.key, t))
  }

  function Inbound(bob: Party, theirs: Option<PublicKey>, m: PreKeyMessage): (r: Result<SessionState>)
    requires CarriesIdentity(theirs, m)
  {
    InboundOn(BLANK, bob, theirs, m)
  }

  /** Every initialised object gives the same session. */
  lemma BlankIsNew(x: SessionState, identity: KeyPair, theirIdentity: PublicKey, theirOneTime: PublicKey,
                   baseRandom: nat, ratchetRandom: nat, bob: Party, theirs: Option<PublicKey>, m: PreKeyMessage)
    requires Blank(x) && CarriesIdentity(theirs, m)
    ensures OutboundOn(x, identity, theirIdentity, theirOneTime, baseRandom, ratchetRandom)
         == Outbound(identity, theirIdentity, theirOneTime, baseRandom, ratchetRandom)
    ensures InboundOn(x, bob, theirs, m) == Inbound(bob, theirs, m)
  {
    hide A.Lookup;
  }

  predicate Matches(x: SessionState, theirs: Option<PublicKey>, m: PreKeyMessage) {
    && FieldsPresent(m, theirs.Some?)
    && (m.identityKey.HasKey? ==> m.identityKey.key == x.aliceIdentityKey)
    && (theirs.Some? ==> theirs.value == x.aliceIdentityKey)
    && m.baseKey.key == x.aliceBaseKey
    && m.oneTimeKey.key == x.bobOneTimeKey
  }

  // ------------------------------------------------------------------
  // Using a session
  // ------------------------------------------------------------------

  predicate Usable(x: SessionState) {
    Bounded(x.ratchet) && CanSend(x.ratchet)
  }

  /** Until it has received a message, a party repeats the agreement in every message. */
  function Wrapped(x: SessionState, m: Message): (e: Envelope) {
    if x.receivedMessage then Normal(m)
    else PreKey(PreKeyMessage(PROTOCOL_VERSION, HasKey(x.bobOneTimeKey), HasKey(x.aliceBaseKey),
                              HasKey(x.aliceIdentityKey), Some(m)))
  }

  function Body(e: Envelope): (m: Option<Message>) {
    if e.PreKey? then e.preKey.message else Some(e.normal)
  }

  function Sending(x: SessionState, plaintext: Data, random: nat): (r: (SessionState, Envelope))
    requires Usable(x)
    ensures Usable(r.0)
  {
    var (s, m) := Ratchet.Encrypt(x.ratchet, plaintext, random);
    (x.(ratchet := s), Wrapped(x, m))
  }

  function Receiving(x: SessionState, e: Envelope, room: nat): (r: (SessionState, Result<Data>))
    requires Usable(x)
    ensures Usable(r.0)
  {
    match Body(e)
    case None => (x, Err(BadMessageFormat))
    case Some(m) =>
      DecryptKeepsSending(x.ratchet, m, room);
      var (s, r) := Ratchet.Decrypt(x.ratchet, m, room);
      (x.(ratchet := s, receivedMessage := x.receivedMessage || r.Ok?), r)
  }

  /** Losing the sender chain leaves a receiver chain to open the next one from. */
  lemma DecryptKeepsSending(s: State, m: Message, room: nat)
    requires Bounded(s) && CanSend(s)
    ensures CanSend(Ratchet.Decrypt(s, m, room).0)
  {
  }

  datatype Use = Encrypting(plaintext: Data, random: nat) | Decrypting(envelope: Envelope, room: nat)

  function Used(x: SessionState, u: Use): (x': SessionState)
    requires Usable(x)
    ensures Usable(x')
  {
    match u
    case Encrypting(plaintext, random) => Sending(x, plaintext, random).0
    case Decrypting(e, room) => Receiving(x, e, room).0
  }

  function After(x: SessionState, uses: seq<Use>): (x': SessionState)
    requires Usable(x)
    ensures Usable(x')
    decreases |uses|
  {
    if uses == [] then x else After(Used(x, uses[0]), uses[1..])
  }

  function Encryptions(uses: seq<Use>): (n: nat) {
    if uses == [] then 0 else (if uses[0].Encrypting? then 1 else 0) + Encryptions(uses[1..])
  }

  // ------------------------------------------------------------------
  // Both parties agree
  // ------------------------------------------------------------------

  /** The two halves of the pair belong together. */
  predicate Genuine(k: KeyPair) {
    k == GenerateKey(k.privateKey.id)
  }

  lemma SecretsAgree(alice: KeyPair, base: KeyPair, bob: KeyPair, oneTime: KeyPair)
    requires Genuine(alice) && Genuine(base) && Genuine(bob) && Genuine(oneTime)
    ensures SecretOfAlice(alice, base, bob.publicKey, oneTime.publicKey)
         == SecretOfBob(bob, oneTime, alice.publicKey, base.publicKey)
  {
  }

  /** A session that has sent n messages on its first chain and accepted none. */
  function Unanswered(x: SessionState, n: nat): (x': SessionState)
    requires |x.ratchet.senderChain| == 1
  {
    var chain := x.ratchet.senderChain[0];
    var key := ChainKey((chain.chainKey.index + n) % MODULUS, Linked(chain.chainKey.key, n));
    x.(ratchet := x.ratchet.(senderChain := [chain.(chainKey := key)]))
  }

  lemma StillReceived(x: SessionState, u: Use)
    requires Usable(x) && x.receivedMessage
    ensures Used(x, u).receivedMessage
  {
  }

  lemma {:induction false} ReceivedForGood(x: SessionState, uses: seq<Use>)
    requires Usable(x) && x.receivedMessage
    ensures After(x, uses).receivedMessage
    decreases |uses|
  {
    hide Used;
    if uses == [] {
    } else {
      StillReceived(x, uses[0]);
      ReceivedForGood(Used(x, uses[0]), uses[1..]);
    }
  }

  lemma UnansweredSends(x: SessionState, n: nat, plaintext: Data, random: nat)
    requires Usable(x) && |x.ratchet.senderChain| == 1
    ensures Usable(Unanswered(x, n))
    ensures Sending(Unanswered(x, n), plaintext, random).0 == Unanswered(x, n + 1)
  {
    WrapsOnce(x.ratchet.senderChain[0].chainKey.index, n);
  }

  lemma WrapsOnce(i: nat, n: nat)
    ensures ((i + n) % MODULUS + 1) % MODULUS == (i + n + 1) % MODULUS
  {
  }

  lemma RefusedChangesNothing(x: SessionState, e: Envelope, room: nat)
    requires Usable(x) && !Receiving(x, e, room).0.receivedMessage
    ensures Receiving(x, e, room).0 == x
  {
  }

  /** While nothing was accepted, encrypting only moved the first chain on and refused messages changed nothing. */
  lemma {:induction false} UnansweredRun(x: SessionState, n: nat, uses: seq<Use>)
    requires Usable(x) && |x.ratchet.senderChain| == 1 && !x.receivedMessage
    ensures Usable(Unanswered(x, n))
    ensures !After(Unanswered(x, n), uses).receivedMessage ==>
      After(Unanswered(x, n), uses) == Unanswered(x, n + Encryptions(uses))
    decreases |uses|
  {
    hide Sending, Receiving, Linked;
    var y := Unanswered(x, n);
    if uses == [] {
    } else {
      match uses[0]
      case Encrypting(plaintext, random) =>
        UnansweredSends(x, n, plaintext, random);
        UnansweredRun(x, n + 1, uses[1..]);
      case Decrypting(e, room) =>
        if Receiving(y, e, room).0.receivedMessage {
          ReceivedForGood(Receiving(y, e, room).0, uses[1..]);
        } else {
          RefusedChangesNothing(y, e, room);
          UnansweredRun(x, n, uses[1..]);
        }
    }
  }

  /** Bob's counterpart of Alice's new session: the same root key and identifiers,
      and her first sender chain as his first receiver chain. */
  function Counterpart(x: SessionState): (y: SessionState)
    requires |x.ratchet.senderChain| == 1
  {
    var chain := x.ratchet.senderChain[0];
    SessionState(false, x.aliceIdentityKey, x.aliceBaseKey, x.bobOneTimeKey,
                 State(x.ratchet.rootKey, [], [ReceiverChain(chain.ratchetKey.publicKey, chain.chainKey)], []))
  }

  lemma UnansweredMessage(x: SessionState, n: nat, plaintext: Data, random: nat)
    requires Usable(x) && |x.ratchet.senderChain| == 1 && !x.receivedMessage
    ensures Usable(Unanswered(x, n))
    ensures var e := Sending(Unanswered(x, n), plaintext, random).1;
      && e.PreKey? && e.preKey.message.Some?
      && e.preKey == PreKeyMessage(PROTOCOL_VERSION, HasKey(x.bobOneTimeKey), HasKey(x.aliceBaseKey),
                                   HasKey(x.aliceIdentityKey), e.preKey.message)
      && e.preKey.message.value
      == Seal(MessageKeyOf(Linked(x.ratchet.senderChain[0].chainKey.key, n)), PROTOCOL_VERSION,
              (x.ratchet.senderChain[0].chainKey.index + n) % MODULUS, x.ratchet.senderChain[0].ratchetKey.publicKey,
              plaintext)
  {
  }

  /** The situation at the start of a session: Bob still holds the key pair Alice used. */
  predicate Meeting(alice: KeyPair, bob: Party, oneTime: OneTimeKey, theirs: Option<PublicKey>) {
    && Genuine(alice) && Genuine(bob.identity) && Genuine(oneTime.key)
    && A.Lookup(bob.keys, PublicOf, oneTime.key.publicKey) == Some(oneTime)
    && (theirs.Some? ==> theirs.value == alice.publicKey)
  }

  /** Whatever Alice did with her session before: as long as she has not accepted a
      message, each of her messages lets Bob create the same counterpart. It has the
      same triple Diffie-Hellman secret, identifier, root key and first chain, and it
      matches that message. */
  lemma InboundFromAnyMessage(alice: KeyPair, bob: Party, oneTime: OneTimeKey, theirs: Option<PublicKey>,
                              baseRandom: nat,
                              ratchetRandom: nat, x0: SessionState, uses: seq<Use>, plaintext: Data, random: nat)
    requires Meeting(alice, bob, oneTime, theirs)
    requires x0 == Outbound(alice, bob.identity.publicKey, oneTime.key.publicKey, baseRandom, ratchetRandom)
    requires !After(x0, uses).receivedMessage
    ensures var e := Sending(After(x0, uses), plaintext, random).1;
      && e.PreKey?
      && Inbound(bob, theirs, e.preKey) == Ok(Counterpart(x0))
      && Id(Counterpart(x0)) == Id(x0)
      && Matches(Counterpart(x0), theirs, e.preKey)
  {
    SecretsAgree(alice, GenerateKey(baseRandom), bob.identity, oneTime.key);
    AfterUnanswered(x0, uses);
    UnansweredMessage(x0, Encryptions(uses), plaintext, random);
    hide Sending, After, Linked, A.Lookup;
  }

  lemma StartsUnanswered(x: SessionState)
    requires |x.ratchet.senderChain| == 1 && x.ratchet.senderChain[0].chainKey.index == 0
    ensures Unanswered(x, 0) == x
  {
  }

  lemma AfterUnanswered(x: SessionState, uses: seq<Use>)
    requires Usable(x) && |x.ratchet.senderChain| == 1 && !x.receivedMessage
    requires x.ratchet.senderChain[0].chainKey.index == 0
    requires !After(x, uses).receivedMessage
    ensures After(x, uses) == Unanswered(x, Encryptions(uses))
  {
    hide *;
    StartsUnanswered(x);
    UnansweredRun(x, 0, uses);
  }

  /** The counterpart opens message n of the first chain, with all earlier ones still
      outstanding, exactly when n is within the permitted gap and the buffer has room. */
  lemma CounterpartOpens(x: SessionState, n: uint32, plaintext: Data, random: nat, room: nat)
    requires Usable(x) && |x.ratchet.senderChain| == 1 && !x.receivedMessage
    requires x.ratchet.senderChain[0].chainKey.index == 0
    ensures Usable(Unanswered(x, n)) && Usable(Counterpart(x))
    ensures var e := Sending(Unanswered(x, n), plaintext, random).1;
      var (y, r) := Receiving(Counterpart(x), e, room);
      if n <= MAX_MESSAGE_GAP && PaddedLength(|plaintext|) <= room
      then r == Ok(plaintext) && y.receivedMessage
      else r.Err? && y == Counterpart(x)
  {
  }

  /** First contact: any message Alice sends before she has accepted one lets Bob create
      the session and, in it, read that very message, provided no more than 2000 of her
      messages went before. */
  lemma FirstContact(alice: KeyPair, bob: Party, oneTime: OneTimeKey, theirs: Option<PublicKey>, baseRandom: nat,
                     ratchetRandom: nat, x0: SessionState, uses: seq<Use>, plaintext: Data, random: nat, room: nat)
    requires Meeting(alice, bob, oneTime, theirs) && Encryptions(uses) < MODULUS
    requires x0 == Outbound(alice, bob.identity.publicKey, oneTime.key.publicKey, baseRandom, ratchetRandom)
    requires !After(x0, uses).receivedMessage
    ensures var e := Sending(After(x0, uses), plaintext, random).1;
      && e.PreKey? && Usable(Counterpart(x0)) && Inbound(bob, theirs, e.preKey) == Ok(Counterpart(x0))
      && var r := Receiving(Counterpart(x0), e, room).1;
         if Encryptions(uses) <= MAX_MESSAGE_GAP && PaddedLength(|plaintext|) <= room then r == Ok(plaintext)
             else r.Err?
  {
    var n: uint32 := Encryptions(uses);
    hide *;
    InboundFromAnyMessage(alice, bob, oneTime, theirs, baseRandom, ratchetRandom, x0, uses, plaintext, random);
    AfterUnanswered(x0, uses);
    CounterpartOpens(x0, n, plaintext, random, room);
  }

  /** The two ratchets of a new session are the two sides with which every run of the ratchet begins. */
  lemma SessionsStartRuns(alice: KeyPair, bob: Party, oneTime: OneTimeKey, theirs: Option<PublicKey>, baseRandom: nat,
                          ratchetRandom: nat)
    requires Meeting(alice, bob, oneTime, theirs)
    ensures var x := Outbound(alice, bob.identity.publicKey, oneTime.key.publicKey, baseRandom, ratchetRandom);
      exists agreed :: Runs.Start(agreed, ratchetRandom).alice.state == x.ratchet
                    && Runs.Start(agreed, ratchetRandom).bob.state == Counterpart(x).ratchet
  {
    var x := Outbound(alice, bob.identity.publicKey, oneTime.key.publicKey, baseRandom, ratchetRandom);
    var agreed := SecretOfAlice(alice, GenerateKey(baseRandom), bob.identity.publicKey, oneTime.key.publicKey);
    assert Runs.Start(agreed, ratchetRandom).alice.state == x.ratchet;
  }

  // ------------------------------------------------------------------
  // Matching and key use
  // ------------------------------------------------------------------

  /** A session made from one pre-key message matches another exactly when a session
      made from that other one would have the same identifier. */
  lemma MatchesSameId(bob: Party, theirs: Option<PublicKey>, m: PreKeyMessage, bob': Party, theirs': Option<PublicKey>,
                      m': PreKeyMessage)
    requires CarriesIdentity(theirs, m) && Inbound(bob, theirs, m).Ok?
    requires CarriesIdentity(theirs', m') && Inbound(bob', theirs', m').Ok?
    ensures Matches(Inbound(bob, theirs, m).value, theirs', m')
            <==> Id(Inbound(bob, theirs, m).value) == Id(Inbound(bob', theirs', m').value)
  {
  }

  /** No two one-time keys have the same public half. */
  ghost predicate DistinctKeys(list: seq<OneTimeKey>) {
    forall i, j :: 0 <= i < j < |list| ==> list[i].key.publicKey != list[j].key.publicKey
  }

  /** Once its one-time key is removed, a pre-key message starts no second session,
      unless it names a fallback key, which stays. */
  lemma RemovedKeyStartsNothing(bob: Party, theirs: Option<PublicKey>, m: PreKeyMessage)
    requires A.Bounded(bob.keys) && DistinctKeys(bob.keys.oneTime)
    requires CarriesIdentity(theirs, m) && Inbound(bob, theirs, m).Ok?
    ensures var bob' := bob.(keys := A.Remove(bob.keys, PublicOf, m.oneTimeKey.key));
      if exists i :: 0 <= i < |bob.keys.fallback| && bob.keys.fallback[i].key.publicKey == m.oneTimeKey.key
      then Inbound(bob', theirs, m).Ok? else Inbound(bob', theirs, m) == Err(BadMessageKeyId)
  {
  }

  // ------------------------------------------------------------------
  // Lengths
  // ------------------------------------------------------------------

  /** `_olm_session_encrypt_message_length`. */
  function MessageLength(x: SessionState, plaintext: nat): (n: nat) {
    var n := EncryptLength(x.ratchet, plaintext);
    if x.receivedMessage then n
    else Wire.OneTimeKeyMessageLength(CURVE25519_KEY_LENGTH, CURVE25519_KEY_LENGTH, CURVE25519_KEY_LENGTH, n)
  }

  predicate Complete(m: Message) {
    m.counter.Some? && m.ciphertext.Some?
  }

  /** Where the encoder's header for this very message ends, and the MAC behind it. */
  function WrittenLength(m: Message): (n: nat)
    requires Complete(m)
  {
    Wire.End(Wire.MESSAGE_FIELDS, [CURVE25519_KEY_LENGTH, m.counter.value, m.ciphertext.value.Length()], 1) + MAC_LENGTH
  }

  /** The bytes that the encoders write for an envelope. */
  function EnvelopeLength(e: Envelope): (n: nat)
    requires Body(e).Some? && Complete(Body(e).value)
  {
    var n := WrittenLength(Body(e).value);
    if e.Normal? then n
    else Wire.End(Wire.PRE_KEY_FIELDS, [CURVE25519_KEY_LENGTH, CURVE25519_KEY_LENGTH, CURVE25519_KEY_LENGTH, n], 1)
  }

  /** The predicted length is what the encoders write for the message, also when its chain
      is opened only afterwards. */
  lemma LengthIsExact(x: SessionState, plaintext: Data, random: nat)
    requires Usable(x)
    ensures var e := Sending(x, plaintext, random).1;
      Body(e).Some? && Complete(Body(e).value) && EnvelopeLength(e) == MessageLength(x, |plaintext|)
  {
    var m := Body(Sending(x, plaintext, random).1).value;
    var k := CURVE25519_KEY_LENGTH;
    Wire.LengthsAreEnds(m.counter.value, k, m.ciphertext.value.Length(), MAC_LENGTH, k, k, k, WrittenLength(m), 0);
    hide Wire.EncodeMessageLength, Wire.OneTimeKeyMessageLength, Wire.End;
  }

  // ------------------------------------------------------------------
  // The C object
  // ------------------------------------------------------------------

  class OlmSession {
    const ratchet: OlmRatchet
    var lastError: Option<Error>
    var receivedMessage: bool
    var aliceIdentityKey: PublicKey
    var aliceBaseKey: PublicKey
    var bobOneTimeKey: PublicKey

    /** The ratchet's error is always handed on and cleared. */
    ghost predicate Valid()
      reads this, ratchet, ratchet.Storage()
    {
      ratchet.Valid() && ratchet.lastError == None
    }

    function View(): (x: SessionState)
      requires Valid()
      reads this, ratchet, ratchet.Storage()
      ensures Bounded(x.ratchet)
    {
      SessionState(receivedMessage, aliceIdentityKey, aliceBaseKey, bobOneTimeKey, ratchet.View())
    }

    constructor ()
      ensures Valid() && fresh(ratchet) && fresh(ratchet.Storage()) && Blank(View()) && lastError == None
    {
      ratchet := new OlmRatchet();
      lastError, receivedMessage := None, false;
      aliceIdentityKey, aliceBaseKey, bobOneTimeKey := PublicKey(0), PublicKey(0), PublicKey(0);
    }

    method NewOutboundSession(identity: KeyPair, theirIdentity: PublicKey, theirOneTime: PublicKey,
                              baseRandom: nat, ratchetRandom: nat, randomLength: nat) returns (r: Result<nat>)
      requires Valid()
      modifies this, ratchet, ratchet.Storage()
      ensures r == if randomLength < 2 * CURVE25519_RANDOM_LENGTH then Err(NotEnoughRandom) else Ok(0)
      ensures Valid()
      ensures r.Ok? ==>
        View() == OutboundOn(old(View()), identity, theirIdentity, theirOneTime, baseRandom, ratchetRandom)
      ensures r.Err? ==> View() == old(View())
      ensures lastError == if r.Err? then Some(r.error) else old(lastError)
    {
      if randomLength < 2 * CURVE25519_RANDOM_LENGTH {
        lastError := Some(NotEnoughRandom);
        return Err(NotEnoughRandom);
      }
      var base := GenerateKey(baseRandom);
      receivedMessage := false;
      aliceIdentityKey := identity.publicKey;
      aliceBaseKey := base.publicKey;
      bobOneTimeKey := theirOneTime;
      ratchet.InitialiseAsAlice(SecretOfAlice(identity, base, theirIdentity, theirOneTime), GenerateKey(ratchetRandom));
      return Ok(0);
    }

    method LoadKeys(identityKey: PublicKey, baseKey: PublicKey, oneTimeKey: PublicKey)
      requires Valid()
      modifies this`aliceIdentityKey, this`aliceBaseKey, this`bobOneTimeKey
      ensures Valid() && View() == SessionState(receivedMessage, identityKey, baseKey, oneTimeKey, old(ratchet.View()))
    {
      aliceIdentityKey := identityKey;
      aliceBaseKey := baseKey;
      bobOneTimeKey := oneTimeKey;
    }

    /** The part behind the loaded keys. */
    method StartRatchet(identity: KeyPair, account: A.OlmAccount<KeyPair>, m: PreKeyMessage) returns (r: Result<nat>)
      requires Valid() && account.Valid() && m.message.Some?
      modifies this`lastError, ratchet.Storage()
      ensures Valid()
      ensures match InboundRatchet(old(ratchet.View()), Party(identity, old(account.View())), m, aliceIdentityKey,
                                   aliceBaseKey, bobOneTimeKey)
        case Ok(t) => r == Ok(0) && ratchet.View() == t && lastError == old(lastError)
        case Err(e) => r == Err(e) && ratchet.View() == old(ratchet.View()) && lastError == Some(e)
    {
      hide StartedAsBob, SecretOfBob, A.Lookup;
      if !m.message.value.ratchetKey.HasKey? {
        lastError := Some(BadMessageFormat);
        return Err(BadMessageFormat);
      }
      var ours := account.LookupKey(PublicOf, bobOneTimeKey);
      if ours.None? {
        lastError := Some(BadMessageKeyId);
        return Err(BadMessageKeyId);
      }
      ratchet.InitialiseAsBob(SecretOfBob(identity, ours.value.key, aliceIdentityKey, aliceBaseKey),
                              m.message.value.ratchetKey.key);
      return Ok(0);
    }

    /** When only the inner message or the key lookup is at fault, the three keys have already been loaded. */
    method NewInboundSession(identity: KeyPair, account: A.OlmAccount<KeyPair>, theirs: Option<PublicKey>,
                             m: PreKeyMessage)
      returns (r: Result<nat>)
      requires Valid() && account.Valid() && CarriesIdentity(theirs, m)
      modifies this, ratchet, ratchet.Storage()
      ensures Valid()
      ensures var made := InboundOn(old(View()), Party(identity, old(account.View())), theirs, m);
        && (made.Ok? ==> r == Ok(0) && View() == made.value && lastError == old(lastError))
        && (made.Err? ==>
              r == Err(made.error) && ratchet.View() == old(ratchet.View()) && lastError == Some(made.error))
      ensures r.Err? ==>
        View() == (if !FieldsPresent(m, theirs.Some?) || (theirs.Some? && theirs.value != m.identityKey.key)
                   then old(View())
                   else SessionState(old(receivedMessage), m.identityKey.key, m.baseKey.key, m.oneTimeKey.key,
                                     old(ratchet.View())))
    {
      hide InboundRatchet;
      if !FieldsPresent(m, theirs.Some?) {
        lastError := Some(BadMessageFormat);
        return Err(BadMessageFormat);
      }
      if theirs.Some? && theirs.value != m.identityKey.key {
        lastError := Some(BadMessageKeyId);
        return Err(BadMessageKeyId);
      }
      LoadKeys(m.identityKey.key, m.baseKey.key, m.oneTimeKey.key);
      r := StartRatchet(identity, account, m);
    }

    method MatchesInboundSession(theirs: Option<PublicKey>, m: PreKeyMessage) returns (same: bool)
      requires Valid()
      ensures same == Matches(View(), theirs, m)
    {
      if !FieldsPresent(m, theirs.Some?) {
        return false;
      }
      same := true;
      if m.identityKey.HasKey? {
        same := same && m.identityKey.key == aliceIdentityKey;
      }
      if theirs.Some? {
        same := same && theirs.value == aliceIdentityKey;
      }
      same := same && m.baseKey.key == aliceBaseKey;
      same := same && m.oneTimeKey.key == bobOneTimeKey;
    }

    method EncryptMessage(plaintext: Data, random: nat, randomLength: nat, maxOutput: nat) returns (r: Result<Envelope>)
      requires Valid() && Usable(View())
      modifies this, ratchet, ratchet.Storage()
      ensures var needed := if old(View()).ratchet.senderChain == [] then CURVE25519_RANDOM_LENGTH else 0;
        r == if maxOutput < MessageLength(old(View()), |plaintext|) then Err(OutputBufferTooSmall)
             else if randomLength < needed then Err(NotEnoughRandom)
             else Ok(Sending(old(View()), plaintext, random).1)
      ensures Valid() && Usable(View())
      ensures View() == if r.Ok? then Sending(old(View()), plaintext, random).0 else old(View())
      ensures lastError == if r.Err? then Some(r.error) else old(lastError)
    {
      hide Ratchet.Encrypt, EncryptLength, Wire.OneTimeKeyMessageLength;
      if maxOutput < MessageLength(View(), |plaintext|) {
        lastError := Some(OutputBufferTooSmall);
        return Err(OutputBufferTooSmall);
      }
      var bodyLength := EncryptLength(ratchet.View(), |plaintext|);
      var sealed := ratchet.EncryptMessage(plaintext, random, randomLength, bodyLength);
      if sealed.Err? {
        lastError := ratchet.lastError;
        ratchet.lastError := None;
        return Err(sealed.error);
      }
      if receivedMessage {
        return Ok(Normal(sealed.value));
      }
      return Ok(PreKey(PreKeyMessage(PROTOCOL_VERSION, HasKey(bobOneTimeKey), HasKey(aliceBaseKey),
                                     HasKey(aliceIdentityKey), Some(sealed.value))));
    }

    method DecryptMessage(e: Envelope, room: nat) returns (r: Result<Data>)
      requires Valid() && Usable(View())
      modifies this, ratchet, ratchet.Storage()
      ensures Valid() && Usable(View())
      ensures (View(), r) == Receiving(old(View()), e, room)
      ensures lastError == if r.Err? then Some(r.error) else old(lastError)
    {
      hide Ratchet.Decrypt;
      if e.PreKey? && e.preKey.message.None? {
        lastError := Some(BadMessageFormat);
        return Err(BadMessageFormat);
      }
      var m := if e.Normal? then e.normal else e.preKey.message.value;
      DecryptKeepsSending(ratchet.View(), m, room);
      r := ratchet.DecryptMessage(m, room);
      if r.Err? {
        lastError := ratchet.lastError;
        ratchet.lastError := None;
        return;
      }
      receivedMessage := true;
    }
  }
}
