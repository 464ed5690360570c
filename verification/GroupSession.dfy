// Group sessions: one sender ratchet, any number of receivers that each cache
// two ratchets. Cipher and signature are symbolic: a tag or a signature
// verifies only for the key and the content it was made for.
module GroupSession {
  import opened Common
  import opened Bytes
  import opened Megolm
  import Base64
  import Wire = Message

  const OLM_PROTOCOL_VERSION: byte := 3
  const SESSION_KEY_VERSION: byte := 2
  const SESSION_EXPORT_VERSION: byte := 1
  const HALF: nat := 0x8000_0000

  /** AES ciphertext under the keys derived from four ratchet parts. */
  datatype Ciphertext<P> = Ciphertext(key: seq<P>, plaintext: Data) {
    function Length(): nat {
      |plaintext| + 16 - |plaintext| % 16
    }
  }

  datatype Mac<P> = Mac(key: seq<P>, version: byte, index: Option<uint32>, ciphertext: Option<Ciphertext<P>>)

  datatype Signature<P> = Signature(signer: nat, version: byte, index: Option<uint32>,
                                    ciphertext: Option<Ciphertext<P>>, mac: Mac<P>)

  /** A group message after decoding; a field the bytes do not hold is None. */
  datatype Message<P> = Message(version: byte, index: Option<uint32>, ciphertext: Option<Ciphertext<P>>,
                                mac: Mac<P>, signature: Signature<P>)

  /** The raw bytes of a shared (signed) or exported (unsigned) session key, field by field. */
  datatype SessionKey<P> = SessionKey(version: byte, counter: Data, parts: seq<P>, signingKey: nat,
                                      signedBy: Option<nat>)

  ghost predicate WellFormedKey<P>(k: SessionKey<P>) {
    |k.counter| == 4 && |k.parts| == PARTS
  }

  predicate SignedBy<P(==)>(m: Message<P>, signer: nat) {
    m.signature == Signature(signer, m.version, m.index, m.ciphertext, m.mac)
  }

  /** MAC check and decryption with the keys of one ratchet value. */
  function Open<P(==)>(m: Message<P>, key: seq<P>): (r: Option<Data>)
    requires m.ciphertext.Some?
  {
    if m.mac == Mac(key, m.version, m.index, m.ciphertext) && m.ciphertext.value.key == key
    then Some(m.ciphertext.value.plaintext) else None
  }

  /** The message an outbound session with this ratchet sends. */
  function Seal<P>(r: Ratchet<P>, signer: nat, plaintext: Data): (m: Message<P>) {
    var c := Some(Ciphertext(r.parts, plaintext));
    var mac := Mac(r.parts, OLM_PROTOCOL_VERSION, Some(r.counter), c);
    Message(OLM_PROTOCOL_VERSION, Some(r.counter), c, mac,
            Signature(signer, OLM_PROTOCOL_VERSION, Some(r.counter), c, mac))
  }

  function ShareKey<P>(r: Ratchet<P>, signer: nat): (k: SessionKey<P>) {
    SessionKey(SESSION_KEY_VERSION, BigEndian(r.counter), r.parts, signer, Some(signer))
  }

  function ExportKey<P>(r: Ratchet<P>, signingKey: nat): (k: SessionKey<P>) {
    SessionKey(SESSION_EXPORT_VERSION, BigEndian(r.counter), r.parts, signingKey, None)
  }

  // ------------------------------------------------------------------
  // The receiver as a value
  // ------------------------------------------------------------------

  datatype Inbound<P> = Inbound(initial: Ratchet<P>, latest: Ratchet<P>, signingKey: nat, verified: bool)

  ghost predicate ValidInbound<P>(s: Inbound<P>) {
    Valid(s.initial) && Valid(s.latest)
  }

  function FromKey<P>(k: SessionKey<P>, verified: bool): (s: Inbound<P>)
    requires |k.counter| == 4
  {
    var r := Ratchet(k.parts, FromBigEndian(k.counter));
    Inbound(r, r, k.signingKey, verified)
  }

  /** The ratchet at `index`, and the session with its cache moved on. */
  function GetMegolm<P>(hmac: Hmac<P>, s: Inbound<P>, index: uint32): (r: (Inbound<P>, Option<Ratchet<P>>))
    requires ValidInbound(s)
    ensures ValidInbound(r.0) && (r.1.Some? ==> Valid(r.1.value))
  {
    if Distance(s.latest.counter, index) < HALF then
      var m := Steps(hmac, s.latest, Distance(s.latest.counter, index));
      (s.(latest := m), Some(m))
    else if Distance(s.initial.counter, index) >= HALF then
      (s, None)
    else
      (s, Some(Steps(hmac, s.initial, Distance(s.initial.counter, index))))
  }

  function Decrypt<P(==)>(hmac: Hmac<P>, s: Inbound<P>, m: Message<P>, maxPlaintext: nat)
      : (r: (Inbound<P>, Result<Data>))
    requires ValidInbound(s)
    ensures ValidInbound(r.0)
  {
    if m.version != OLM_PROTOCOL_VERSION then (s, Err(BadMessageVersion))
    else if m.index.None? || m.ciphertext.None? then (s, Err(BadMessageFormat))
    else if !SignedBy(m, s.signingKey) then (s, Err(BadSignature))
    else if maxPlaintext < m.ciphertext.value.Length() then (s, Err(OutputBufferTooSmall))
    else
      var (s', ratchet) := GetMegolm(hmac, s, m.index.value);
      if ratchet.None? then (s', Err(UnknownMessageIndex))
      else match Open(m, ratchet.value.parts)
        case None => (s', Err(BadMessageMac))
        case Some(plaintext) => (s'.(verified := true), Ok(plaintext))
  }

  function Export<P>(hmac: Hmac<P>, s: Inbound<P>, index: uint32): (r: (Inbound<P>, Result<SessionKey<P>>))
    requires ValidInbound(s)
    ensures ValidInbound(r.0)
  {
    var (s', ratchet) := GetMegolm(hmac, s, index);
    (s', if ratchet.None? then Err(UnknownMessageIndex)
         else Ok(SessionKey(SESSION_EXPORT_VERSION, BigEndian(index), ratchet.value.parts, s.signingKey, None)))
  }

  datatype Op<P> = DecryptOp(message: Message<P>, maxPlaintext: nat) | ExportOp(index: uint32)

  function Apply<P(==)>(hmac: Hmac<P>, s: Inbound<P>, op: Op<P>): (s': Inbound<P>)
    requires ValidInbound(s)
    ensures ValidInbound(s')
  {
    match op
    case DecryptOp(m, n) => Decrypt(hmac, s, m, n).0
    case ExportOp(i) => Export(hmac, s, i).0
  }

  function Run<P(==)>(hmac: Hmac<P>, s: Inbound<P>, ops: seq<Op<P>>): (s': Inbound<P>)
    requires ValidInbound(s)
    ensures ValidInbound(s')
  {
    if ops == [] then s else Apply(hmac, Run(hmac, s, ops[..|ops| - 1]), ops[|ops| - 1])
  }

  // ------------------------------------------------------------------
  // The cache is invisible
  // ------------------------------------------------------------------

  /** Less than 2^31 indices past the first known one. */
  predicate InWindow<P>(s: Inbound<P>, index: uint32) {
    Distance(s.initial.counter, index) < HALF
  }

  predicate OpInWindow<P>(s: Inbound<P>, op: Op<P>) {
    match op
    case DecryptOp(m, _) => m.index.Some? ==> InWindow(s, m.index.value)
    case ExportOp(i) => InWindow(s, i)
  }

  /** The plain answer: the first known ratchet stepped to `index`. */
  function Stepped<P>(hmac: Hmac<P>, s: Inbound<P>, index: uint32): (r: Ratchet<P>)
    requires ValidInbound(s)
    ensures Valid(r)
  {
    Steps(hmac, s.initial, Distance(s.initial.counter, index))
  }

  ghost predicate Cached<P>(hmac: Hmac<P>, s: Inbound<P>) {
    && ValidInbound(s)
    && InWindow(s, s.latest.counter)
    && s.latest == Stepped(hmac, s, s.latest.counter)
  }

  lemma DistanceSplits(c: uint32, l: uint32, i: uint32)
    requires Distance(c, l) < HALF && Distance(c, i) < HALF
    ensures Distance(l, i) < HALF <==> Distance(c, l) <= Distance(c, i)
    ensures Distance(c, l) <= Distance(c, i) ==> Distance(c, i) == Distance(c, l) + Distance(l, i)
  {
  }

  /** In the window a request is never refused, and its answer does not depend
      on what was asked before. */
  lemma AnswerIsPlain<P>(hmac: Hmac<P>, s: Inbound<P>, index: uint32)
    requires Cached(hmac, s) && InWindow(s, index)
    ensures var (s', r) := GetMegolm(hmac, s, index);
      && r == Some(Stepped(hmac, s, index))
      && Cached(hmac, s') && s' == s.(latest := s'.latest)
  {
    hide Steps, Distance;
    DistanceSplits(s.initial.counter, s.latest.counter, index);
    if Distance(s.latest.counter, index) < HALF {
      StepsAdd(hmac, s.initial, Distance(s.initial.counter, s.latest.counter), Distance(s.latest.counter, index));
      SteppedCounter(hmac, s.latest, index);
    }
  }

  lemma SteppedCounter<P>(hmac: Hmac<P>, r: Ratchet<P>, index: uint32)
    requires Valid(r)
    ensures Steps(hmac, r, Distance(r.counter, index)).counter == index
  {
    hide Steps, Distance;
    StepsCounter(hmac, r, Distance(r.counter, index));
  }

  /** Every run of decrypts and exports in the window keeps the cache exact,
      also when a decrypt moved it and then failed its MAC. */
  lemma {:induction false} RunKeepsCache<P>(hmac: Hmac<P>, s: Inbound<P>, ops: seq<Op<P>>)
    requires ValidInbound(s) && Cached(hmac, s)
    requires forall op :: op in ops ==> OpInWindow(s, op)
    ensures var t := Run(hmac, s, ops);
      Cached(hmac, t) && t.initial == s.initial && t.signingKey == s.signingKey
  {
    hide Distance, Steps, GetMegolm, Cached, SignedBy, Open;
    if ops == [] {
    } else {
      var front, op := ops[..|ops| - 1], ops[|ops| - 1];
      RunKeepsCache(hmac, s, front);
      var t := Run(hmac, s, front);
      assert OpInWindow(s, op) && OpInWindow(t, op);
      match op
      case DecryptOp(m, _) =>
        if m.index.Some? {
          AnswerIsPlain(hmac, t, m.index.value);
          VerifiedIsNotCached(hmac, GetMegolm(hmac, t, m.index.value).0);
        }
      case ExportOp(i) => AnswerIsPlain(hmac, t, i);
    }
  }

  lemma VerifiedIsNotCached<P>(hmac: Hmac<P>, s: Inbound<P>)
    ensures Cached(hmac, s) ==> Cached(hmac, s.(verified := true))
  {
  }

  // ------------------------------------------------------------------
  // End to end
  // ------------------------------------------------------------------

  /** A receiver of the session key starts with the sender's ratchet. */
  lemma SharedKeyRestoresRatchet<P>(r: Ratchet<P>, signer: nat)
    ensures FromKey(ShareKey(r, signer), true) == Inbound(r, r, signer, true)
    ensures FromKey(ExportKey(r, signer), false) == Inbound(r, r, signer, false)
  {
    BigEndianRoundTrip(r.counter, BigEndian(r.counter));
  }

  lemma FreshIsCached<P>(hmac: Hmac<P>, r: Ratchet<P>, signingKey: nat, verified: bool)
    requires Valid(r)
    ensures Cached(hmac, Inbound(r, r, signingKey, verified))
  {
  }

  /** The k-th message after the session key was shared decrypts to its
      plaintext, whatever was received or exported in between and however often. */
  lemma GroupEndToEnd<P>(hmac: Hmac<P>, sender: Ratchet<P>, signer: nat, k: nat, plaintext: Data,
                         ops: seq<Op<P>>, maxPlaintext: nat)
    requires Valid(sender) && k < HALF
    requires var s := FromKey(ShareKey(sender, signer), true); forall op :: op in ops ==> OpInWindow(s, op)
    ensures ValidInbound(FromKey(ShareKey(sender, signer), true))
    ensures var s := Run(hmac, FromKey(ShareKey(sender, signer), true), ops);
      var m := Seal(Steps(hmac, sender, k), signer, plaintext);
      maxPlaintext >= m.ciphertext.value.Length() ==> Decrypt(hmac, s, m, maxPlaintext).1 == Ok(plaintext)
  {
    SharedKeyRestoresRatchet(sender, signer);
    FreshIsCached(hmac, sender, signer, true);
    var s0 := Inbound(sender, sender, signer, true);
    RunKeepsCache(hmac, s0, ops);
    var s := Run(hmac, s0, ops);
    var r := Steps(hmac, sender, k);
    StepsCounter(hmac, sender, k);
    assert Distance(sender.counter, r.counter) == k by { ForwardDistance(sender.counter, k); }
    hide Steps, Distance, Run, Cached;
    AnswerIsPlain(hmac, s, r.counter);
    hide GetMegolm;
  }

  lemma ForwardDistance(c: uint32, k: nat)
    requires k < MODULUS
    ensures Distance(c, (c + k) % MODULUS) == k
  {
  }

  /** An importer answers every index at or after the exported one as the exporter does. */
  lemma ImportAgrees<P>(hmac: Hmac<P>, s: Inbound<P>, i: uint32, ops: seq<Op<P>>, j: uint32)
    requires ValidInbound(s) && Cached(hmac, s)
    requires InWindow(s, i) && InWindow(s, j) && Distance(s.initial.counter, i) <= Distance(s.initial.counter, j)
    requires Export(hmac, s, i).1.Ok?
    requires var t := FromKey(Export(hmac, s, i).1.value, false); forall op :: op in ops ==> OpInWindow(t, op)
    ensures ValidInbound(FromKey(Export(hmac, s, i).1.value, false))
    ensures var t := Run(hmac, FromKey(Export(hmac, s, i).1.value, false), ops);
      GetMegolm(hmac, t, j).1 == Some(Stepped(hmac, s, j)) == GetMegolm(hmac, s, j).1
  {
    hide Steps, Distance, GetMegolm;
    var r := Stepped(hmac, s, i);
    ExportIsPlain(hmac, s, i);
    AnswerIsPlain(hmac, s, j);
    hide Export, Run, FromKey;
    SharedKeyRestoresRatchet(r, s.signingKey);
    FreshIsCached(hmac, r, s.signingKey, false);
    var t0 := Inbound(r, r, s.signingKey, false);
    RunKeepsCache(hmac, t0, ops);
    DistanceSplits(s.initial.counter, i, j);
    AnswerIsPlain(hmac, Run(hmac, t0, ops), j);
    StepsAdd(hmac, s.initial, Distance(s.initial.counter, i), Distance(i, j));
  }

  lemma ExportIsPlain<P>(hmac: Hmac<P>, s: Inbound<P>, i: uint32)
    requires Cached(hmac, s) && InWindow(s, i)
    ensures Export(hmac, s, i).1 == Ok(ExportKey(Stepped(hmac, s, i), s.signingKey))
    ensures Stepped(hmac, s, i).counter == i
  {
    hide Steps, Distance, GetMegolm;
    AnswerIsPlain(hmac, s, i);
    SteppedCounter(hmac, s.initial, i);
  }

  // ------------------------------------------------------------------
  // All runs, in the window or not
  // ------------------------------------------------------------------

  /** The index an operation looks up, when it gets as far as looking one up. */
  function Lookup<P(==)>(signingKey: nat, op: Op<P>): (i: Option<uint32>) {
    match op
    case ExportOp(i) => Some(i)
    case DecryptOp(m, room) =>
      if m.version == OLM_PROTOCOL_VERSION && m.index.Some? && m.ciphertext.Some?
         && SignedBy(m, signingKey) && m.ciphertext.value.Length() <= room
      then m.index else None
  }

  /** The indices a run looks up, in order. */
  function Lookups<P(==)>(signingKey: nat, ops: seq<Op<P>>): (indices: seq<uint32>) {
    if ops == [] then []
    else
      Lookups(signingKey, ops[..|ops| - 1])
      + match Lookup(signingKey, ops[|ops| - 1]) { case None => [] case Some(i) => [i] }
  }

  /** From c + n counted on past 2^32, how far ahead index i lies. */
  function Ahead(c: uint32, n: nat, i: uint32): (d: nat) {
    Distance((c + n) % MODULUS, i)
  }

  /** How far the latest ratchet has come after these lookups: one that lies less
      than 2^31 ahead moves it there, any other leaves it. */
  function Travelled(c: uint32, indices: seq<uint32>): (n: nat) {
    if indices == [] then 0
    else
      var n, i := Travelled(c, indices[..|indices| - 1]), indices[|indices| - 1];
      if Ahead(c, n, i) < HALF then n + Ahead(c, n, i) else n
  }

  /** The latest ratchet stands n steps past the first known one, possibly more than once around. */
  ghost predicate StandsAt<P>(hmac: Hmac<P>, s: Inbound<P>, n: nat) {
    ValidInbound(s) && s.latest == Steps(hmac, s.initial, n)
  }

  /** What a lookup does and gives, by the distance travelled alone. */
  lemma AnswerByTravel<P>(hmac: Hmac<P>, s: Inbound<P>, n: nat, i: uint32)
    requires StandsAt(hmac, s, n)
    ensures var d := Ahead(s.initial.counter, n, i); var (s', r) := GetMegolm(hmac, s, i);
      && s' == s.(latest := s'.latest) && StandsAt(hmac, s', if d < HALF then n + d else n)
      && r == if d < HALF then Some(Steps(hmac, s.initial, n + d))
              else if InWindow(s, i) then Some(Stepped(hmac, s, i)) else None
  {
    hide Steps, Distance;
    StepsCounter(hmac, s.initial, n);
    StepsAdd(hmac, s.initial, n, Distance(s.latest.counter, i));
  }

  lemma ApplyTravels<P>(hmac: Hmac<P>, s: Inbound<P>, n: nat, op: Op<P>)
    requires StandsAt(hmac, s, n)
    ensures var t := Apply(hmac, s, op);
      && t.initial == s.initial && t.signingKey == s.signingKey
      && StandsAt(hmac, t, match Lookup(s.signingKey, op)
                           case None => n
                           case Some(i) =>
                             if Ahead(s.initial.counter, n, i) < HALF
                             then n + Ahead(s.initial.counter, n, i) else n)
  {
    hide Steps, Ahead, GetMegolm, SignedBy, Open;
    if Lookup(s.signingKey, op).Some? {
      AnswerByTravel(hmac, s, n, Lookup(s.signingKey, op).value);
    }
  }

  /** After any run at all, the latest ratchet is the first known one stepped as far
      as the lookups say. */
  lemma {:induction false} RunTravels<P>(hmac: Hmac<P>, r: Ratchet<P>, signingKey: nat, verified: bool, ops: seq<Op<P>>)
    requires Valid(r)
    ensures var t := Run(hmac, Inbound(r, r, signingKey, verified), ops);
      && t.initial == r && t.signingKey == signingKey
      && StandsAt(hmac, t, Travelled(r.counter, Lookups(signingKey, ops)))
  {
    hide Apply, Lookup, Ahead;
    if ops == [] {
    } else {
      var front, op := ops[..|ops| - 1], ops[|ops| - 1];
      RunTravels(hmac, r, signingKey, verified, front);
      var indices := Lookups(signingKey, front);
      ApplyTravels(hmac, Run(hmac, Inbound(r, r, signingKey, verified), front), Travelled(r.counter, indices), op);
      if i :| Lookup(signingKey, op) == Some(i) {
        assert (indices + [i])[..|indices|] == indices;
      } else {
        assert indices + [] == indices;
      }
    }
  }

  /** No value comes back within the first k hashes of x. */
  ghost predicate NoRepeat<P>(hmac: Hmac<P>, x: P, k: nat) {
    forall a, b :: 0 <= a < b <= k ==> Hashed(hmac, x, a) != Hashed(hmac, x, b)
  }

  lemma TravelLaps(c: uint32, n: nat, i: uint32)
    ensures var t := n + Ahead(c, n, i);
      && t >= Distance(c, i)
      && (t < MODULUS ==> t == Distance(c, i))
      && (t >= MODULUS ==> TopMoves(c, t) > TopMoves(c, Distance(c, i)))
  {
    var t, d := n + Ahead(c, n, i), Distance(c, i);
    assert (c + t) % MODULUS == (c + d) % MODULUS by { SameTarget(c, n, i); }
    SameResidue(c, t, d);
    hide Ahead, Distance, TopMoves;
    if t >= MODULUS {
      LapMoves(c, t, d);
    }
  }

  lemma SameTarget(c: uint32, n: nat, i: uint32)
    ensures (c + (n + Ahead(c, n, i))) % MODULUS == i == (c + Distance(c, i)) % MODULUS
  {
    var d := Ahead(c, n, i);
    assert ((c + n) % MODULUS + d) % MODULUS == i;
    AddResidue(c + n, d);
  }

  lemma AddResidue(x: nat, d: nat)
    ensures (x % MODULUS + d) % MODULUS == (x + d) % MODULUS
  {
  }

  lemma SameResidue(c: nat, t: nat, d: nat)
    requires d < MODULUS && (c + t) % MODULUS == (c + d) % MODULUS
    ensures t >= d && (t < MODULUS ==> t == d) && (t >= MODULUS ==> t >= d + MODULUS)
  {
  }

  lemma LapMoves(c: nat, t: nat, d: nat)
    requires t >= d + MODULUS
    ensures TopMoves(c, t) > TopMoves(c, d)
  {
  }

  /** Exactly when a lookup is right. For every hash, an answer is the first known
      ratchet stepped to the index if it comes from the first ratchet, or from a latest
      one that has not yet gone once around; for a hash under which R(0) does not repeat
      so soon, only then. */
  lemma PlainIff<P>(hmac: Hmac<P>, s: Inbound<P>, n: nat, i: uint32)
    requires StandsAt(hmac, s, n)
    ensures var c, r := s.initial.counter, GetMegolm(hmac, s, i).1; var d := Ahead(c, n, i);
      var fits := r != None && (d >= HALF || n + d < MODULUS);
      && (r == None <==> d >= HALF && Distance(c, i) >= HALF)
      && (fits ==> r == Some(Stepped(hmac, s, i)))
      && (NoRepeat(hmac, s.initial.parts[0], TopMoves(c, n + d)) ==> (r == Some(Stepped(hmac, s, i)) <==> fits))
  {
    hide Steps, Distance, GetMegolm, Ahead, TopMoves, Hashed;
    var c := s.initial.counter;
    var d := Ahead(c, n, i);
    AnswerByTravel(hmac, s, n, i);
    TravelLaps(c, n, i);
    TopHashes(hmac, s.initial, n + d);
    TopHashes(hmac, s.initial, Distance(c, i));
  }

  /** The same for every run from a new session: what a lookup answers is decided by the
      indices looked up before. */
  lemma AnswerAfterRun<P>(hmac: Hmac<P>, r: Ratchet<P>, signingKey: nat, verified: bool, ops: seq<Op<P>>, i: uint32)
    requires Valid(r)
    ensures var n := Travelled(r.counter, Lookups(signingKey, ops)); var d := Ahead(r.counter, n, i);
      var answer := GetMegolm(hmac, Run(hmac, Inbound(r, r, signingKey, verified), ops), i).1;
      var plain := Some(Steps(hmac, r, Distance(r.counter, i)));
      && answer == (if d < HALF then Some(Steps(hmac, r, n + d))
                    else if Distance(r.counter, i) < HALF then plain
                    else None)
      && (NoRepeat(hmac, r.parts[0], TopMoves(r.counter, n + d)) ==>
            (answer == plain <==> answer != None && (d >= HALF || n + d < MODULUS)))
  {
    hide Steps, Distance, GetMegolm, Ahead, Travelled, Lookups, TopMoves, Hashed, Run, NoRepeat;
    RunTravels(hmac, r, signingKey, verified, ops);
    var s := Run(hmac, Inbound(r, r, signingKey, verified), ops);
    var n := Travelled(r.counter, Lookups(signingKey, ops));
    AnswerByTravel(hmac, s, n, i);
    PlainIff(hmac, s, n, i);
  }

  /** One run that leaves the window. After two requests of 2^31 - 1 steps index 0, which is
      r itself, is answered by a ratchet that went once around, with R(0) hashed 256 times. */
  lemma WindowNeeded<P>(hmac: Hmac<P>, r: Ratchet<P>, ops: seq<Op<P>>)
    requires Valid(r) && r.counter == 0 && ops == [ExportOp(0x7FFF_FFFF), ExportOp(0xFFFF_FFFE)]
    ensures GetMegolm(hmac, Run(hmac, Inbound(r, r, 0, true), ops), 0).1 == Some(Steps(hmac, r, MODULUS))
    ensures Steps(hmac, r, MODULUS).parts[0] == Hashed(hmac, r.parts[0], 256)
  {
    TwoLookups<P>(0x7FFF_FFFF, 0xFFFF_FFFE);
    TwoRequests();
    FullLap(hmac, r);
    hide Steps, Distance, GetMegolm, Ahead, Travelled, Lookups, Hashed, Run, NoRepeat, TopMoves;
    AnswerAfterRun(hmac, r, 0, true, ops, 0);
  }

  lemma FullLap<P>(hmac: Hmac<P>, r: Ratchet<P>)
    requires Valid(r) && r.counter == 0
    ensures Steps(hmac, r, MODULUS).parts[0] == Hashed(hmac, r.parts[0], 256)
  {
    hide Steps, Hashed;
    TopHashes(hmac, r, MODULUS);
  }

  lemma TwoLookups<P>(i: uint32, j: uint32)
    ensures Lookups<P>(0, [ExportOp(i), ExportOp(j)]) == [i, j]
  {
    var ops: seq<Op<P>> := [ExportOp(i), ExportOp(j)];
    assert ops[..1] == [ExportOp(i)] && ops[..1][..0] == [];
    assert Lookups(0, ops[..1][..0]) == [];
    assert Lookups(0, ops[..1]) == [i];
  }

  lemma TwoRequests()
    ensures Travelled(0, [0x7FFF_FFFF, 0xFFFF_FFFE]) == 0xFFFF_FFFE && Ahead(0, 0xFFFF_FFFE, 0) == 2
  {
    var indices: seq<uint32> := [0x7FFF_FFFF, 0xFFFF_FFFE];
    assert indices[..1] == [0x7FFF_FFFF] && indices[..1][..0] == [];
    assert Travelled(0, indices[..1][..0]) == 0;
    assert Travelled(0, indices[..1]) == 0x7FFF_FFFF;
  }

  // ------------------------------------------------------------------
  // The C objects
  // ------------------------------------------------------------------

  lemma ShiftLeft(d0: byte, d1: byte, d2: byte, d3: byte)
    ensures var c: int := FromBigEndian([d0, d1, d2, d3]);
      c / 0x100_0000 == d0 && c * 0x100 % MODULUS == FromBigEndian([d1, d2, d3, 0])
  {
  }

  method EncodeCounter(counter: uint32) returns (out: Data)
    ensures out == BigEndian(counter)
  {
    ghost var d := BigEndian(counter);
    BigEndianRoundTrip(counter, d);
    hide BigEndian;
    out := [];
    var c: uint32 := counter;
    for i := 0 to 4
      invariant out == d[..i]
      invariant i < 4 ==> c == FromBigEndian(d[i..] + [0, 0, 0, 0][..i])
    {
      ghost var rest := d[i..] + [0, 0, 0, 0][..i];
      assert rest == [rest[0], rest[1], rest[2], rest[3]] && rest[0] == d[i];
      ShiftLeft(rest[0], rest[1], rest[2], rest[3]);
      assert i < 3 ==> d[i + 1..] + [0, 0, 0, 0][..i + 1] == [rest[1], rest[2], rest[3], 0];
      hide FromBigEndian;
      out := out + [c / 0x100_0000];
      c := c * 0x100 % MODULUS;
    }
  }

  method DecodeCounter(b: Data) returns (counter: uint32)
    requires |b| == 4
    ensures counter == FromBigEndian(b)
  {
    counter := 0;
    var b0: int, b1: int, b2: int := b[0], b[1], b[2];
    for i := 0 to 4
      invariant counter == if i == 0 then 0 else if i == 1 then b0 else if i == 2 then b0 * 0x100 + b1
                           else if i == 3 then b0 * 0x1_0000 + b1 * 0x100 + b2 else FromBigEndian(b)
    {
      counter := counter * 0x100 % MODULUS + b[i];
    }
  }

  const MEGOLM_RATCHET_LENGTH: nat := 128
  const ED25519_RANDOM_LENGTH: nat := 32
  const ED25519_SIGNATURE_LENGTH: nat := 64
  const MAC_LENGTH: nat := 8
  const SESSION_KEY_RAW_LENGTH: nat := 1 + 4 + MEGOLM_RATCHET_LENGTH + 32 + ED25519_SIGNATURE_LENGTH
  const SESSION_EXPORT_RAW_LENGTH: nat := 1 + 4 + MEGOLM_RATCHET_LENGTH + 32

  /** `olm_group_encrypt_message_length`: the text that carries a message of this index. */
  function EncryptLength(counter: uint32, plaintext: nat): (n: nat) {
    Base64.EncodeLength(Wire.GroupMessageLength(counter, plaintext + 16 - plaintext % 16, MAC_LENGTH,
                                                ED25519_SIGNATURE_LENGTH))
  }

  /** The prediction is the text of the bytes that the encoder writes for the message that is
      then made: its header, the ciphertext, the MAC and the signature. */
  lemma LengthIsExact<P>(r: Ratchet<P>, signer: nat, plaintext: Data)
    ensures var m := Seal(r, signer, plaintext);
      && m.index.Some? && m.ciphertext.Some?
      && EncryptLength(r.counter, |plaintext|)
         == Base64.EncodeLength(Wire.End(Wire.GROUP_FIELDS, [m.index.value, m.ciphertext.value.Length()], 1)
                                + MAC_LENGTH + ED25519_SIGNATURE_LENGTH)
  {
    var m := Seal(r, signer, plaintext);
    Wire.LengthsAreEnds(m.index.value, 0, m.ciphertext.value.Length(), MAC_LENGTH, 0, 0, 0, 0,
                        ED25519_SIGNATURE_LENGTH);
    hide Wire.GroupMessageLength, Wire.End;
  }

  class OutboundGroupSession<P(==)> {
    const ratchet: Megolm<P>
    var signingKey: nat
    var lastError: Option<Error>

    ghost predicate Valid()
      reads ratchet
    {
      ratchet.Valid()
    }

    /** Cleared memory: every byte zero. */
    constructor (hmac: Hmac<P>, zero: P)
      ensures Valid() && fresh(ratchet) && fresh(ratchet.data) && ratchet.hmac == hmac && lastError == None
    {
      ratchet := new Megolm(hmac, [zero, zero, zero, zero], 0);
      signingKey, lastError := 0, None;
    }

    /** `random` are the four ratchet parts, `key` the signing key, both from the random bytes. */
    method Init(random: seq<P>, key: nat, randomLength: nat) returns (r: Result<nat>)
      requires Valid() && |random| == PARTS
      modifies this, ratchet`counter, ratchet.data
      ensures Valid()
      ensures r == if randomLength < MEGOLM_RATCHET_LENGTH + ED25519_RANDOM_LENGTH then Err(NotEnoughRandom) else Ok(0)
      ensures r.Ok? ==> ratchet.View() == Ratchet(random, 0) && signingKey == key && lastError == old(lastError)
      ensures r.Err? ==> ratchet.View() == old(ratchet.View()) && signingKey == old(signingKey)
      ensures r.Err? ==> lastError == Some(r.error)
    {
      if randomLength < MEGOLM_RATCHET_LENGTH + ED25519_RANDOM_LENGTH {
        lastError := Some(NotEnoughRandom);
        return Err(NotEnoughRandom);
      }
      ratchet.Init(random, 0);
      signingKey := key;
      return Ok(0);
    }

    method GroupEncrypt(plaintext: Data, maxOutput: nat) returns (r: Result<Message<P>>)
      requires Valid()
      modifies this`lastError, ratchet`counter, ratchet.data
      ensures Valid()
      ensures r == if maxOutput < EncryptLength(old(ratchet.counter), |plaintext|) then Err(OutputBufferTooSmall)
                   else Ok(Seal(old(ratchet.View()), signingKey, plaintext))
      ensures ratchet.View() == if r.Ok? then Step(ratchet.hmac, old(ratchet.View())) else old(ratchet.View())
      ensures lastError == if r.Err? then Some(r.error) else old(lastError)
    {
      if maxOutput < EncryptLength(ratchet.counter, |plaintext|) {
        lastError := Some(OutputBufferTooSmall);
        return Err(OutputBufferTooSmall);
      }
      var key, index := ratchet.data[..], ratchet.counter;
      var c := Some(Ciphertext(key, plaintext));
      var mac := Mac(key, OLM_PROTOCOL_VERSION, Some(index), c);
      ratchet.Advance();
      return Ok(Message(OLM_PROTOCOL_VERSION, Some(index), c, mac,
                        Signature(signingKey, OLM_PROTOCOL_VERSION, Some(index), c, mac)));
    }

    method GetSessionKey(maxOutput: nat) returns (r: Result<SessionKey<P>>)
      requires Valid()
      modifies this`lastError
      ensures r == if maxOutput < Base64.EncodeLength(SESSION_KEY_RAW_LENGTH) then Err(OutputBufferTooSmall)
                   else Ok(ShareKey(ratchet.View(), signingKey))
      ensures lastError == if r.Err? then Some(r.error) else old(lastError)
    {
      if maxOutput < Base64.EncodeLength(SESSION_KEY_RAW_LENGTH) {
        lastError := Some(OutputBufferTooSmall);
        return Err(OutputBufferTooSmall);
      }
      var counter := EncodeCounter(ratchet.counter);
      return Ok(SessionKey(SESSION_KEY_VERSION, counter, ratchet.data[..], signingKey, Some(signingKey)));
    }
  }

  class InboundGroupSession<P(==)> {
    const initialRatchet: Megolm<P>
    const latestRatchet: Megolm<P>
    const hmac: Hmac<P>
    var signingKey: nat
    var signingKeyVerified: bool
    var lastError: Option<Error>

    ghost predicate Valid()
      reads this, initialRatchet, latestRatchet
    {
      && initialRatchet.Valid() && latestRatchet.Valid()
      && initialRatchet.hmac == hmac && latestRatchet.hmac == hmac
      && initialRatchet != latestRatchet && initialRatchet.data != latestRatchet.data
    }

    ghost function View(): (s: Inbound<P>)
      requires Valid()
      reads this, initialRatchet, latestRatchet, initialRatchet.data, latestRatchet.data
      ensures ValidInbound(s)
    {
      Inbound(initialRatchet.View(), latestRatchet.View(), signingKey, signingKeyVerified)
    }

    /** Cleared memory: every byte zero. */
    constructor (hmac: Hmac<P>, zero: P)
      ensures Valid() && this.hmac == hmac && !signingKeyVerified && lastError == None
      ensures fresh(initialRatchet) && fresh(latestRatchet) && fresh(initialRatchet.data) && fresh(latestRatchet.data)
    {
      this.hmac := hmac;
      initialRatchet := new Megolm(hmac, [zero, zero, zero, zero], 0);
      latestRatchet := new Megolm(hmac, [zero, zero, zero, zero], 0);
      signingKey, signingKeyVerified, lastError := 0, false, None;
    }

    /** Both import paths; only the signed form is checked against its signature. */
    method InitGroupSessionKeys(key: SessionKey<P>, exportFormat: bool) returns (ok: bool)
      requires Valid() && WellFormedKey(key)
      modifies this, initialRatchet`counter, initialRatchet.data, latestRatchet`counter, latestRatchet.data
      ensures Valid()
      ensures ok <==>
        && key.version == (if exportFormat then SESSION_EXPORT_VERSION else SESSION_KEY_VERSION)
        && (exportFormat || key.signedBy == Some(key.signingKey))
      ensures ok ==> View() == FromKey(key, old(signingKeyVerified) || !exportFormat)
      ensures ok ==> lastError == old(lastError)
      ensures var badVersion := key.version != (if exportFormat then SESSION_EXPORT_VERSION else SESSION_KEY_VERSION);
        !ok ==> && lastError == Some(if badVersion then BadSessionKey else BadSignature)
                && View() == (if badVersion then old(View()) else FromKey(key, old(signingKeyVerified)))
    {
      var expectedVersion := if exportFormat then SESSION_EXPORT_VERSION else SESSION_KEY_VERSION;
      if key.version != expectedVersion {
        lastError := Some(BadSessionKey);
        return false;
      }
      var counter := DecodeCounter(key.counter);
      initialRatchet.Init(key.parts, counter);
      latestRatchet.Init(key.parts, counter);
      signingKey := key.signingKey;
      if !exportFormat {
        if key.signedBy != Some(signingKey) {
          lastError := Some(BadSignature);
          return false;
        }
        signingKeyVerified := true;
      }
      return true;
    }

    /** `olm_init_inbound_group_session` and `olm_import_inbound_group_session`:
        the text must have the length of exactly one raw key. */
    method InitFromText(textLength: nat, key: SessionKey<P>, exportFormat: bool) returns (ok: bool)
      requires Valid() && WellFormedKey(key)
      modifies this, initialRatchet`counter, initialRatchet.data, latestRatchet`counter, latestRatchet.data
      ensures Valid()
      ensures var expected := if exportFormat then SESSION_EXPORT_RAW_LENGTH else SESSION_KEY_RAW_LENGTH;
        textLength != Base64.EncodeLength(expected) ==>
          && !ok && View() == old(View())
          && lastError == Some(if textLength % 4 == 1 then InvalidBase64 else BadSessionKey)
      ensures var expected := if exportFormat then SESSION_EXPORT_RAW_LENGTH else SESSION_KEY_RAW_LENGTH;
        textLength == Base64.EncodeLength(expected) ==>
        var badVersion := key.version != (if exportFormat then SESSION_EXPORT_VERSION else SESSION_KEY_VERSION);
        && (ok <==> !badVersion && (exportFormat || key.signedBy == Some(key.signingKey)))
        && (ok ==> View() == FromKey(key, old(signingKeyVerified) || !exportFormat) && lastError == old(lastError))
        && (!ok ==> && lastError == Some(if badVersion then BadSessionKey else BadSignature)
                    && View() == (if badVersion then old(View()) else FromKey(key, old(signingKeyVerified))))
    {
      var rawLength := Base64.DecodeLength(textLength);
      if rawLength == None {
        lastError := Some(InvalidBase64);
        return false;
      }
      if rawLength.value != (if exportFormat then SESSION_EXPORT_RAW_LENGTH else SESSION_KEY_RAW_LENGTH) {
        lastError := Some(BadSessionKey);
        return false;
      }
      ok := InitGroupSessionKeys(key, exportFormat);
    }

    /** A copy of the ratchet at `messageIndex`, or null when it lies too far back. */
    method RatchetAt(messageIndex: uint32) returns (result: Megolm?<P>)
      requires Valid()
      modifies this`lastError, latestRatchet`counter, latestRatchet.data
      ensures Valid()
      ensures View() == GetMegolm(hmac, old(View()), messageIndex).0
      ensures var answer := GetMegolm(hmac, old(View()), messageIndex).1;
        if answer.None? then result == null && lastError == Some(UnknownMessageIndex)
        else
          && result != null && fresh(result) && fresh(result.data) && result.Valid()
          && result.View() == answer.value
          && lastError == old(lastError)
    {
      // unsigned subtraction: (message_index - counter) mod 2^32
      if (messageIndex - latestRatchet.counter) % MODULUS < HALF {
        ghost var _ := latestRatchet.AdvanceTo(messageIndex);
        result := latestRatchet.Copy();
      } else if (messageIndex - initialRatchet.counter) % MODULUS >= HALF {
        lastError := Some(UnknownMessageIndex);
        return null;
      } else {
        result := initialRatchet.Copy();
        ghost var _ := result.AdvanceTo(messageIndex);
      }
    }

    method DecryptMessage(m: Message<P>, maxPlaintext: nat) returns (r: Result<Data>, messageIndex: Option<uint32>)
      requires Valid()
      modifies this, latestRatchet`counter, latestRatchet.data
      ensures Valid()
      ensures (View(), r) == Decrypt(hmac, old(View()), m, maxPlaintext)
      ensures messageIndex == if m.version == OLM_PROTOCOL_VERSION && m.ciphertext.Some? then m.index else None
      ensures lastError == match r { case Ok(_) => old(lastError) case Err(e) => Some(e) }
    {
      messageIndex := None;
      if m.version != OLM_PROTOCOL_VERSION {
        lastError := Some(BadMessageVersion);
        return Err(BadMessageVersion), None;
      }
      if m.index.None? || m.ciphertext.None? {
        lastError := Some(BadMessageFormat);
        return Err(BadMessageFormat), None;
      }
      messageIndex := m.index;
      if !SignedBy(m, signingKey) {
        lastError := Some(BadSignature);
        return Err(BadSignature), messageIndex;
      }
      if maxPlaintext < m.ciphertext.value.Length() {
        lastError := Some(OutputBufferTooSmall);
        return Err(OutputBufferTooSmall), messageIndex;
      }
      var megolm := RatchetAt(m.index.value);
      if megolm == null {
        return Err(UnknownMessageIndex), messageIndex;
      }
      match Open(m, megolm.data[..])
      case None =>
        lastError := Some(BadMessageMac);
        return Err(BadMessageMac), messageIndex;
      case Some(plaintext) =>
        signingKeyVerified := true;
        return Ok(plaintext), messageIndex;
    }

    /** `olm_group_decrypt`; a text of the wrong length is refused before anything is read. */
    method GroupDecrypt(textLength: nat, m: Message<P>, maxPlaintext: nat)
      returns (r: Result<Data>, messageIndex: Option<uint32>)
      requires Valid()
      modifies this, latestRatchet`counter, latestRatchet.data
      ensures Valid()
      ensures (View(), r) == if textLength % 4 == 1 then (old(View()), Err(InvalidBase64))
                             else Decrypt(hmac, old(View()), m, maxPlaintext)
      ensures messageIndex
           == if textLength % 4 != 1 && m.version == OLM_PROTOCOL_VERSION && m.ciphertext.Some? then m.index else None
      ensures lastError == match r { case Ok(_) => old(lastError) case Err(e) => Some(e) }
    {
      hide Decrypt;
      if Base64.DecodeLength(textLength) == None {
        lastError := Some(InvalidBase64);
        return Err(InvalidBase64), None;
      }
      r, messageIndex := DecryptMessage(m, maxPlaintext);
    }

    method ExportSession(messageIndex: uint32, maxOutput: nat) returns (r: Result<SessionKey<P>>)
      requires Valid()
      modifies this`lastError, latestRatchet`counter, latestRatchet.data
      ensures Valid()
      ensures (View(), r) == if maxOutput < Base64.EncodeLength(SESSION_EXPORT_RAW_LENGTH)
                             then (old(View()), Err(OutputBufferTooSmall))
                             else Export(hmac, old(View()), messageIndex)
      ensures lastError == match r { case Ok(_) => old(lastError) case Err(e) => Some(e) }
    {
      if maxOutput < Base64.EncodeLength(SESSION_EXPORT_RAW_LENGTH) {
        lastError := Some(OutputBufferTooSmall);
        return Err(OutputBufferTooSmall);
      }
      var megolm := RatchetAt(messageIndex);
      if megolm == null {
        return Err(UnknownMessageIndex);
      }
      var counter := EncodeCounter(messageIndex);
      return Ok(SessionKey(SESSION_EXPORT_VERSION, counter, megolm.data[..], signingKey, None));
    }
  }
}
