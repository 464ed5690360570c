// Raw pickles of sessions and accounts: fixed-width records, lists with a size
// in front, and readers that must cope with any bytes at all.
module Pickle {
  import opened Common
  import opened Bytes
  import opened List

  type Bytes32 = b: Data | |b| == 32 witness seq(32, _ => 0)
  type Bytes64 = b: Data | |b| == 64 witness seq(64, _ => 0)

  // ------------------------------------------------------------------
  // Fixed-width records
  // ------------------------------------------------------------------

  /** How a record is written in `width` bytes and read back. */
  datatype Codec<!T> = Codec(width: nat, enc: T -> Data, dec: Data -> T)

  ghost predicate Lawful<T(!new)>(c: Codec<T>) {
    c.width > 0 && forall x: T :: |c.enc(x)| == c.width && c.dec(c.enc(x)) == x
  }

  /** n bytes from `from`, or zeros when there are not enough. */
  function Part(d: Data, from: nat, n: nat): (p: Data)
    ensures |p| == n
    ensures from + n <= |d| ==> p == d[from..from + n]
  {
    if from + n <= |d| then d[from..from + n] else seq(n, _ => 0)
  }

  function ReadOne<T>(c: Codec<T>, s: Data, pos: nat): (r: Option<(T, nat)>)
    requires pos <= |s|
    ensures r.Some? ==> r.value.1 == pos + c.width <= |s|
  {
    if |s| - pos < c.width then None else Some((c.dec(s[pos..pos + c.width]), pos + c.width))
  }

  // ------------------------------------------------------------------
  // Lists
  // ------------------------------------------------------------------

  function Elements<T>(c: Codec<T>, list: seq<T>): (b: Data) {
    if list == [] then [] else c.enc(list[0]) + Elements(c, list[1..])
  }

  function ListBytes<T>(c: Codec<T>, list: seq<T>): (b: Data)
    requires |list| < MODULUS
  {
    BigEndian(|list|) + Elements(c, list)
  }

  lemma {:induction false} ElementsLength<T(!new)>(c: Codec<T>, list: seq<T>)
    requires Lawful(c)
    ensures |Elements(c, list)| == |list| * c.width
  {
    if list == [] {
    } else {
      ElementsLength(c, list[1..]);
      assert |list| * c.width == (|list| - 1) * c.width + c.width;
    }
  }

  /** The reading loop: at most `size` elements, ending early when the bytes end. */
  function ReadElements<T>(c: Codec<T>, s: Data, pos: nat, size: nat, list: seq<T>,
                           capacity: nat): (r: Option<(seq<T>, nat)>)
    requires pos <= |s| && |list| <= capacity && 0 < capacity
    ensures r.Some? ==> |r.value.0| <= capacity && pos <= r.value.1 <= |s|
    decreases size
  {
    if size == 0 || pos == |s| then Some((list, pos))
    else
      match ReadOne(c, s, pos)
      case None => None
      case Some((x, next)) => ReadElements(c, s, next, size - 1, Inserted(list, capacity, |list|, x), capacity)
  }

  function ReadUint32(s: Data, pos: nat): (r: Option<(uint32, nat)>)
    requires pos <= |s|
    ensures r.Some? ==> r.value.1 == pos + 4 <= |s|
  {
    if |s| - pos < 4 then None else Some((FromBigEndian(s[pos..pos + 4]), pos + 4))
  }

  function ReadList<T>(c: Codec<T>, s: Data, pos: nat, capacity: nat): (r: Option<(seq<T>, nat)>)
    requires pos <= |s| && 0 < capacity
    ensures r.Some? ==> |r.value.0| <= capacity && pos <= r.value.1 <= |s|
  {
    match ReadUint32(s, pos)
    case None => None
    case Some((size, next)) => ReadElements(c, s, next, size, [], capacity)
  }

  /** The bytes b stand at `pos`. */
  predicate Stands(s: Data, pos: nat, b: Data) {
    pos + |b| <= |s| && s[pos..pos + |b|] == b
  }

  lemma StandsSplit(s: Data, pos: nat, a: Data, b: Data)
    requires Stands(s, pos, a + b)
    ensures Stands(s, pos, a) && Stands(s, pos + |a|, b)
  {
    var t := s[pos..pos + |a + b|];
    assert s[pos..pos + |a|] == t[..|a|] == a;
    assert s[pos + |a|..pos + |a| + |b|] == t[|a|..] == b;
  }

  lemma {:induction false} ReadsElements<T(!new)>(c: Codec<T>, s: Data, pos: nat, done: seq<T>, list: seq<T>,
                                                  capacity: nat)
    requires Lawful(c) && Stands(s, pos, Elements(c, list)) && |done| + |list| <= capacity && 0 < capacity
    ensures ReadElements(c, s, pos, |list|, done, capacity) == Some((done + list, pos + |Elements(c, list)|))
    decreases |list|
  {
    if list == [] {
      assert done + list == done;
    } else {
      hide Stands;
      StandsSplit(s, pos, c.enc(list[0]), Elements(c, list[1..]));
      StandingOne(c, s, pos, list[0]);
      AppendAtEnd(done, capacity, list[0]);
      assert |Elements(c, list)| == c.width + |Elements(c, list[1..])|;
      ReadsElements(c, s, pos + c.width, done + [list[0]], list[1..], capacity);
      assert done + [list[0]] + list[1..] == done + list;
    }
  }

  lemma AppendAtEnd<T>(list: seq<T>, capacity: nat, x: T)
    requires |list| < capacity
    ensures Inserted(list, capacity, |list|, x) == list + [x]
  {
  }

  lemma StandingOne<T(!new)>(c: Codec<T>, s: Data, pos: nat, x: T)
    requires Lawful(c) && Stands(s, pos, c.enc(x))
    ensures ReadOne(c, s, pos) == Some((x, pos + c.width)) && pos + c.width <= |s| && |c.enc(x)| == c.width > 0
  {
  }

  lemma StandingUint32(s: Data, pos: nat, n: uint32)
    requires Stands(s, pos, BigEndian(n))
    ensures ReadUint32(s, pos) == Some((n, pos + 4)) && pos + 4 <= |s|
  {
    hide BigEndian, FromBigEndian;
    BigEndianRoundTrip(n, BigEndian(n));
  }

  /** A list that fits comes back whole, whatever follows it. */
  lemma ReadsList<T(!new)>(c: Codec<T>, s: Data, pos: nat, list: seq<T>, capacity: nat)
    requires Lawful(c) && |list| <= capacity < MODULUS && 0 < capacity && Stands(s, pos, ListBytes(c, list))
    ensures ReadList(c, s, pos, capacity) == Some((list, pos + |ListBytes(c, list)|))
    ensures pos + |ListBytes(c, list)| <= |s|
  {
    hide Stands, BigEndian, ReadUint32;
    StandsSplit(s, pos, BigEndian(|list|), Elements(c, list));
    StandingUint32(s, pos, |list|);
    ReadsElements(c, s, pos + 4, [], list, capacity);
    assert [] + list == list;
    StandsInside(s, pos + 4, Elements(c, list));
  }

  lemma StandsInside(s: Data, pos: nat, b: Data)
    requires Stands(s, pos, b)
    ensures pos + |b| <= |s|
  {
  }

  // ------------------------------------------------------------------
  // The ratchet
  // ------------------------------------------------------------------

  const MAX_RECEIVER_CHAINS: nat := 5
  const MAX_SKIPPED_MESSAGE_KEYS: nat := 40
  const MAX_ONE_TIME_KEYS: nat := 100

  datatype SenderRecord = SenderRecord(publicKey: Bytes32, privateKey: Bytes32, chainKey: Bytes32, index: uint32)

  /** A receiver chain, or a skipped message key: both have the same shape. */
  datatype ChainRecord = ChainRecord(ratchetKey: Bytes32, key: Bytes32, index: uint32)

  function SenderBytes(x: SenderRecord): (b: Data) {
    x.publicKey + x.privateKey + x.chainKey + BigEndian(x.index)
  }

  function SenderOf(b: Data): (x: SenderRecord) {
    SenderRecord(Part(b, 0, 32), Part(b, 32, 32), Part(b, 64, 32), FromBigEndian(Part(b, 96, 4)))
  }

  function ChainBytes(x: ChainRecord): (b: Data) {
    x.ratchetKey + x.key + BigEndian(x.index)
  }

  function ChainOf(b: Data): (x: ChainRecord) {
    ChainRecord(Part(b, 0, 32), Part(b, 32, 32), FromBigEndian(Part(b, 64, 4)))
  }

  const SENDER := Codec(100, SenderBytes, SenderOf)
  const CHAIN := Codec(68, ChainBytes, ChainOf)

  lemma SenderLawful()
    ensures Lawful(SENDER)
  {
    forall x: SenderRecord
      ensures |SenderBytes(x)| == 100 && SenderOf(SenderBytes(x)) == x
    {
      hide BigEndian, FromBigEndian;
      BigEndianRoundTrip(x.index, BigEndian(x.index));
      var b := SenderBytes(x);
      assert b[0..32] == x.publicKey && b[32..64] == x.privateKey && b[64..96] == x.chainKey
             && b[96..100] == BigEndian(x.index);
    }
  }

  lemma ChainLawful()
    ensures Lawful(CHAIN)
  {
    forall x: ChainRecord
      ensures |ChainBytes(x)| == 68 && ChainOf(ChainBytes(x)) == x
    {
      hide BigEndian, FromBigEndian;
      BigEndianRoundTrip(x.index, BigEndian(x.index));
      var b := ChainBytes(x);
      assert b[0..32] == x.ratchetKey && b[32..64] == x.key && b[64..68] == BigEndian(x.index);
    }
  }

  datatype RatchetRecord = RatchetRecord(rootKey: Bytes32, senderChain: seq<SenderRecord>,
                                         receiverChains: seq<ChainRecord>, skipped: seq<ChainRecord>)

  /** The lists of the C structure cannot hold more. */
  predicate RatchetFits(r: RatchetRecord) {
    |r.senderChain| <= 1 && |r.receiverChains| <= MAX_RECEIVER_CHAINS && |r.skipped| <= MAX_SKIPPED_MESSAGE_KEYS
  }

  function RatchetBytes(r: RatchetRecord): (b: Data)
    requires RatchetFits(r)
  {
    r.rootKey + (ListBytes(SENDER, r.senderChain) + (ListBytes(CHAIN, r.receiverChains) + ListBytes(CHAIN, r.skipped)))
  }

  function ReadBytes32(s: Data, pos: nat): (r: Option<(Bytes32, nat)>)
    requires pos <= |s|
    ensures r.Some? ==> r.value.1 == pos + 32 <= |s|
  {
    if |s| - pos < 32 then None else Some((s[pos..pos + 32], pos + 32))
  }

  function ReadRatchet(s: Data, pos: nat, includesChainIndex: bool): (r: Option<(RatchetRecord, nat)>)
    requires pos <= |s|
    ensures r.Some? ==> RatchetFits(r.value.0) && pos <= r.value.1 <= |s|
  {
    match ReadBytes32(s, pos)
    case None => None
    case Some((rootKey, pos1)) =>
      match ReadList(SENDER, s, pos1, 1)
      case None => None
      case Some((senderChain, pos2)) =>
        match ReadList(CHAIN, s, pos2, MAX_RECEIVER_CHAINS)
        case None => None
        case Some((receiverChains, pos3)) =>
          match ReadList(CHAIN, s, pos3, MAX_SKIPPED_MESSAGE_KEYS)
          case None => None
          case Some((skipped, pos4)) =>
            var ratchet := RatchetRecord(rootKey, senderChain, receiverChains, skipped);
            if !includesChainIndex then Some((ratchet, pos4))
            else
              match ReadUint32(s, pos4)
              case None => None
              case Some((_, pos5)) => Some((ratchet, pos5))
  }

  lemma ReadsRatchet(s: Data, pos: nat, r: RatchetRecord)
    requires RatchetFits(r) && Stands(s, pos, RatchetBytes(r))
    ensures ReadRatchet(s, pos, false) == Some((r, pos + |RatchetBytes(r)|))
  {
    hide Stands, ListBytes, ReadList, Lawful;
    SenderLawful();
    ChainLawful();
    var a, b, c := ListBytes(SENDER, r.senderChain), ListBytes(CHAIN, r.receiverChains), ListBytes(CHAIN, r.skipped);
    StandsSplit(s, pos, r.rootKey, a + (b + c));
    StandingBytes32(s, pos, r.rootKey);
    StandsSplit(s, pos + 32, a, b + c);
    ReadsList(SENDER, s, pos + 32, r.senderChain, 1);
    StandsSplit(s, pos + 32 + |a|, b, c);
    ReadsList(CHAIN, s, pos + 32 + |a|, r.receiverChains, MAX_RECEIVER_CHAINS);
    ReadsList(CHAIN, s, pos + 32 + |a| + |b|, r.skipped, MAX_SKIPPED_MESSAGE_KEYS);
  }

  lemma StandingBytes32(s: Data, pos: nat, b: Bytes32)
    requires Stands(s, pos, b)
    ensures pos + 32 <= |s| && ReadBytes32(s, pos) == Some((b, pos + 32))
  {
  }

  function RatchetLength(r: RatchetRecord): (n: nat) {
    32 + (4 + |r.senderChain| * 100) + (4 + |r.receiverChains| * 68) + (4 + |r.skipped| * 68)
  }

  lemma RatchetBytesLength(r: RatchetRecord)
    requires RatchetFits(r)
    ensures |RatchetBytes(r)| == RatchetLength(r)
  {
    hide Elements;
    SenderLawful();
    ChainLawful();
    ElementsLength(SENDER, r.senderChain);
    ElementsLength(CHAIN, r.receiverChains);
    ElementsLength(CHAIN, r.skipped);
  }

  // ------------------------------------------------------------------
  // The session
  // ------------------------------------------------------------------

  const SESSION_PICKLE_VERSION: uint32 := 1
  const LOGGING_PICKLE_VERSION: uint32 := 0x80000001

  datatype SessionRecord = SessionRecord(receivedMessage: bool, aliceIdentityKey: Bytes32, aliceBaseKey: Bytes32,
                                         bobOneTimeKey: Bytes32, ratchet: RatchetRecord)

  function BoolByte(b: bool): (d: Data) {
    if b then [1] else [0]
  }

  function SessionBytes(x: SessionRecord): (b: Data)
    requires RatchetFits(x.ratchet)
  {
    BigEndian(SESSION_PICKLE_VERSION) + (BoolByte(x.receivedMessage) + (x.aliceIdentityKey + (x.aliceBaseKey
    + (x.bobOneTimeKey + RatchetBytes(x.ratchet)))))
  }

  function SessionLength(x: SessionRecord): (n: nat) {
    4 + 1 + 32 + 32 + 32 + RatchetLength(x.ratchet)
  }

  function ReadBool(s: Data, pos: nat): (r: Option<(bool, nat)>)
    requires pos <= |s|
    ensures r.Some? ==> r.value.1 == pos + 1 <= |s|
  {
    if pos == |s| then None else Some((s[pos] != 0, pos + 1))
  }

  /** Identity key, base key and one-time key. */
  function ReadKeys(s: Data, pos: nat): (r: Option<((Bytes32, Bytes32, Bytes32), nat)>)
    requires pos <= |s|
    ensures r.Some? ==> r.value.1 == pos + 96 <= |s|
  {
    if |s| - pos < 96 then None
    else Some(((s[pos..pos + 32], s[pos + 32..pos + 64], s[pos + 64..pos + 96]), pos + 96))
  }

  /** A reader's failure may come with an error code of its own. */
  function ReadSession(s: Data, pos: nat): (r: Result<(SessionRecord, nat)>)
    requires pos <= |s|
    ensures r.Ok? ==> RatchetFits(r.value.0.ratchet) && pos <= r.value.1 <= |s|
  {
    match ReadUint32(s, pos)
    case None => Err(CorruptedPickle)
    case Some((version, pos0)) =>
      if version != SESSION_PICKLE_VERSION && version != LOGGING_PICKLE_VERSION then Err(UnknownPickleVersion)
      else
        match ReadBool(s, pos0)
        case None => Err(CorruptedPickle)
        case Some((received, pos1)) =>
          match ReadKeys(s, pos1)
          case None => Err(CorruptedPickle)
          case Some((keys, pos2)) =>
            match ReadRatchet(s, pos2, version == LOGGING_PICKLE_VERSION)
            case None => Err(CorruptedPickle)
            case Some((ratchet, pos3)) => Ok((SessionRecord(received, keys.0, keys.1, keys.2, ratchet), pos3))
  }

  lemma StandingKeys(s: Data, pos: nat, a: Bytes32, b: Bytes32, c: Bytes32)
    requires Stands(s, pos, a + (b + c))
    ensures pos + 96 <= |s| && ReadKeys(s, pos) == Some(((a, b, c), pos + 96))
  {
    StandsSplit(s, pos, a, b + c);
    StandsSplit(s, pos + 32, b, c);
  }

  lemma SessionBytesGrouped(x: SessionRecord)
    requires RatchetFits(x.ratchet)
    ensures SessionBytes(x) == BigEndian(SESSION_PICKLE_VERSION) + (BoolByte(x.receivedMessage)
                            + ((x.aliceIdentityKey + (x.aliceBaseKey + x.bobOneTimeKey)) + RatchetBytes(x.ratchet)))
  {
  }

  lemma StandingBool(s: Data, pos: nat, b: bool)
    requires Stands(s, pos, BoolByte(b))
    ensures pos + 1 <= |s| && ReadBool(s, pos) == Some((b, pos + 1))
  {
  }

  /** Reading a written session restores every field and stops at its end. */
  lemma ReadsSession(s: Data, pos: nat, x: SessionRecord)
    requires RatchetFits(x.ratchet) && Stands(s, pos, SessionBytes(x))
    ensures ReadSession(s, pos) == Ok((x, pos + |SessionBytes(x)|))
  {
    hide Stands, RatchetBytes, ReadRatchet, BigEndian, BoolByte, ReadBool, ReadKeys, ReadUint32, SessionBytes;
    var keys := x.aliceIdentityKey + (x.aliceBaseKey + x.bobOneTimeKey);
    var rest := keys + RatchetBytes(x.ratchet);
    SessionBytesGrouped(x);
    StandsSplit(s, pos, BigEndian(SESSION_PICKLE_VERSION), BoolByte(x.receivedMessage) + rest);
    StandingUint32(s, pos, SESSION_PICKLE_VERSION);
    StandsSplit(s, pos + 4, BoolByte(x.receivedMessage), rest);
    StandingBool(s, pos + 4, x.receivedMessage);
    BoolByteLength(x.receivedMessage);
    StandsSplit(s, pos + 5, keys, RatchetBytes(x.ratchet));
    StandingKeys(s, pos + 5, x.aliceIdentityKey, x.aliceBaseKey, x.bobOneTimeKey);
    ReadsRatchet(s, pos + 101, x.ratchet);
  }

  lemma BoolByteLength(b: bool)
    ensures |BoolByte(b)| == 1
  {
  }

  /** The writer fills exactly the length it predicts. */
  lemma SessionBytesLength(x: SessionRecord)
    requires RatchetFits(x.ratchet)
    ensures |SessionBytes(x)| == SessionLength(x)
  {
    hide RatchetBytes, RatchetLength;
    RatchetBytesLength(x.ratchet);
  }

  // ------------------------------------------------------------------
  // The account
  // ------------------------------------------------------------------

  const ACCOUNT_PICKLE_VERSION: uint32 := 4

  datatype OneTimeKeyRecord = OneTimeKeyRecord(id: uint32, published: bool, publicKey: Bytes32, privateKey: Bytes32)

  function OneTimeKeyBytes(x: OneTimeKeyRecord): (b: Data) {
    BigEndian(x.id) + BoolByte(x.published) + x.publicKey + x.privateKey
  }

  function OneTimeKeyOf(b: Data): (x: OneTimeKeyRecord) {
    OneTimeKeyRecord(FromBigEndian(Part(b, 0, 4)), Part(b, 4, 1) != [0], Part(b, 5, 32), Part(b, 37, 32))
  }

  const ONE_TIME_KEY := Codec(69, OneTimeKeyBytes, OneTimeKeyOf)

  lemma OneTimeKeyLawful()
    ensures Lawful(ONE_TIME_KEY)
  {
    forall x: OneTimeKeyRecord
      ensures |OneTimeKeyBytes(x)| == 69 && OneTimeKeyOf(OneTimeKeyBytes(x)) == x
    {
      hide BigEndian, FromBigEndian;
      BigEndianRoundTrip(x.id, BigEndian(x.id));
      var b := OneTimeKeyBytes(x);
      assert b[0..4] == BigEndian(x.id) && b[4..5] == BoolByte(x.published) && b[5..37] == x.publicKey
             && b[37..69] == x.privateKey;
    }
  }

  datatype AccountRecord = AccountRecord(ed25519Public: Bytes32, ed25519Private: Bytes64, curvePublic: Bytes32,
                                         curvePrivate: Bytes32, oneTimeKeys: seq<OneTimeKeyRecord>,
                                         fallbackKeys: seq<OneTimeKeyRecord>, nextId: uint32)

  /** The current fallback key comes first; there are at most two. */
  predicate AccountFits(x: AccountRecord) {
    |x.oneTimeKeys| <= MAX_ONE_TIME_KEYS && |x.fallbackKeys| <= 2
  }

  function AccountBytes(x: AccountRecord): (b: Data)
    requires AccountFits(x)
  {
    BigEndian(ACCOUNT_PICKLE_VERSION) + (x.ed25519Public + (x.ed25519Private + (x.curvePublic + (x.curvePrivate
    + (ListBytes(ONE_TIME_KEY, x.oneTimeKeys) + ([|x.fallbackKeys|] + (Elements(ONE_TIME_KEY, x.fallbackKeys)
    + BigEndian(x.nextId))))))))
  }

  function AccountLength(x: AccountRecord): (n: nat) {
    4 + (32 + 64 + 32 + 32) + (4 + |x.oneTimeKeys| * 69) + 1 + |x.fallbackKeys| * 69 + 4
  }

  /** The counted fallback keys: a count above two is refused after two keys have been read. */
  function ReadFallback(s: Data, pos: nat): (r: Option<(seq<OneTimeKeyRecord>, nat)>)
    requires pos <= |s|
    ensures r.Some? ==> |r.value.0| <= 2 && pos <= r.value.1 <= |s|
  {
    if pos == |s| then None
    else if s[pos] == 0 then Some(([], pos + 1))
    else
      match ReadOne(ONE_TIME_KEY, s, pos + 1)
      case None => None
      case Some((current, pos1)) =>
        if s[pos] == 1 then Some(([current], pos1))
        else
          match ReadOne(ONE_TIME_KEY, s, pos1)
          case None => None
          case Some((previous, pos2)) => if s[pos] == 2 then Some(([current, previous], pos2)) else None
  }

  /** Version 2 had no fallback keys; version 3 always stored two and marked the ones in use as published. */
  function ReadFallbackOf(version: uint32, s: Data, pos: nat): (r: Option<(seq<OneTimeKeyRecord>, nat)>)
    requires pos <= |s|
    ensures r.Some? ==> |r.value.0| <= 2 && pos <= r.value.1 <= |s|
  {
    if version == 2 then Some(([], pos))
    else if version == 3 then
      match ReadOne(ONE_TIME_KEY, s, pos)
      case None => None
      case Some((current, pos1)) =>
        match ReadOne(ONE_TIME_KEY, s, pos1)
        case None => None
        case Some((previous, pos2)) =>
          Some((if !current.published then []
                else if !previous.published then [current] else [current, previous], pos2))
    else ReadFallback(s, pos)
  }

  datatype IdentityRecord = IdentityRecord(ed25519Public: Bytes32, ed25519Private: Bytes64, curvePublic: Bytes32,
                                           curvePrivate: Bytes32)

  function ReadIdentity(s: Data, pos: nat): (r: Option<(IdentityRecord, nat)>)
    requires pos <= |s|
    ensures r.Some? ==> r.value.1 == pos + 160 <= |s|
  {
    if |s| - pos < 160 then None
    else Some((IdentityRecord(s[pos..pos + 32], s[pos + 32..pos + 96], s[pos + 96..pos + 128], s[pos + 128..pos + 160]),
               pos + 160))
  }

  function ReadAccount(s: Data, pos: nat): (r: Result<(AccountRecord, nat)>)
    requires pos <= |s|
    ensures r.Ok? ==> AccountFits(r.value.0) && pos <= r.value.1 <= |s|
  {
    match ReadUint32(s, pos)
    case None => Err(CorruptedPickle)
    case Some((version, pos0)) =>
      if version == 1 then Err(BadLegacyAccountPickle)
      else if version != ACCOUNT_PICKLE_VERSION && version != 3 && version != 2 then Err(UnknownPickleVersion)
      else
        match ReadIdentity(s, pos0)
        case None => Err(CorruptedPickle)
        case Some((id, pos1)) =>
          match ReadList(ONE_TIME_KEY, s, pos1, MAX_ONE_TIME_KEYS)
          case None => Err(CorruptedPickle)
          case Some((keys, pos2)) =>
            match ReadFallbackOf(version, s, pos2)
            case None => Err(CorruptedPickle)
            case Some((fallback, pos3)) =>
              match ReadUint32(s, pos3)
              case None => Err(CorruptedPickle)
              case Some((nextId, pos4)) =>
                Ok((AccountRecord(id.ed25519Public, id.ed25519Private, id.curvePublic, id.curvePrivate, keys, fallback,
                                  nextId), pos4))
  }

  lemma StandingFallback(s: Data, pos: nat, keys: seq<OneTimeKeyRecord>)
    requires |keys| <= 2 && Stands(s, pos, [|keys|] + Elements(ONE_TIME_KEY, keys))
    ensures ReadFallback(s, pos) == Some((keys, pos + 1 + |Elements(ONE_TIME_KEY, keys)|))
    ensures pos + 1 + |Elements(ONE_TIME_KEY, keys)| <= |s|
  {
    OneTimeKeyLawful();
    hide Lawful, OneTimeKeyBytes, OneTimeKeyOf, Stands, Elements;
    FewElements(keys);
    StandsSplit(s, pos, [|keys|], Elements(ONE_TIME_KEY, keys));
    FirstStands(s, pos, |keys|);
    if |keys| == 1 {
      StandingOne(ONE_TIME_KEY, s, pos + 1, keys[0]);
      assert keys == [keys[0]];
    } else if |keys| == 2 {
      StandsSplit(s, pos + 1, OneTimeKeyBytes(keys[0]), OneTimeKeyBytes(keys[1]));
      StandingOne(ONE_TIME_KEY, s, pos + 1, keys[0]);
      StandingOne(ONE_TIME_KEY, s, pos + 70, keys[1]);
      assert keys == [keys[0], keys[1]];
    }
  }

  lemma FirstStands(s: Data, pos: nat, x: byte)
    requires Stands(s, pos, [x])
    ensures pos < |s| && s[pos] == x
  {
    assert s[pos] == s[pos..pos + 1][0];
  }

  lemma StandingIdentity(s: Data, pos: nat, a: Bytes32, b: Bytes64, c: Bytes32, d: Bytes32)
    requires Stands(s, pos, a + (b + (c + d)))
    ensures pos + 160 <= |s| && ReadIdentity(s, pos) == Some((IdentityRecord(a, b, c, d), pos + 160))
  {
    StandsSplit(s, pos, a, b + (c + d));
    StandsSplit(s, pos + 32, b, c + d);
    StandsSplit(s, pos + 96, c, d);
  }

  lemma AccountBytesGrouped(x: AccountRecord)
    requires AccountFits(x)
    ensures var id := x.ed25519Public + (x.ed25519Private + (x.curvePublic + x.curvePrivate));
      AccountBytes(x) == BigEndian(ACCOUNT_PICKLE_VERSION) + (id + (ListBytes(ONE_TIME_KEY, x.oneTimeKeys)
      + (([|x.fallbackKeys|] + Elements(ONE_TIME_KEY, x.fallbackKeys)) + BigEndian(x.nextId))))
  {
    hide ListBytes, Elements, BigEndian;
    var a: Data, b: Data, c: Data, d: Data := x.ed25519Public, x.ed25519Private, x.curvePublic, x.curvePrivate;
    var list, keys, last := ListBytes(ONE_TIME_KEY, x.oneTimeKeys), Elements(ONE_TIME_KEY, x.fallbackKeys),
        BigEndian(x.nextId);
    var n := [|x.fallbackKeys|];
    assert (n + keys) + last == n + (keys + last);
    var rest := list + (n + (keys + last));
    assert a + (b + (c + (d + rest))) == (a + (b + (c + d))) + rest;
  }

  /** Reading a written account restores every field and stops at its end. */
  lemma ReadsAccount(s: Data, pos: nat, x: AccountRecord)
    requires AccountFits(x) && Stands(s, pos, AccountBytes(x))
    ensures ReadAccount(s, pos) == Ok((x, pos + |AccountBytes(x)|))
  {
    hide Stands, ListBytes, Elements, ReadList, ReadFallback, ReadIdentity, ReadUint32, BigEndian, Lawful;
    OneTimeKeyLawful();
    var list, keys, last := ListBytes(ONE_TIME_KEY, x.oneTimeKeys), Elements(ONE_TIME_KEY, x.fallbackKeys),
        BigEndian(x.nextId);
    var id := x.ed25519Public + (x.ed25519Private + (x.curvePublic + x.curvePrivate));
    var rest := list + (([|x.fallbackKeys|] + keys) + last);
    AccountBytesGrouped(x);
    StandsSplit(s, pos, BigEndian(ACCOUNT_PICKLE_VERSION), id + rest);
    StandingUint32(s, pos, ACCOUNT_PICKLE_VERSION);
    StandsSplit(s, pos + 4, id, rest);
    StandingIdentity(s, pos + 4, x.ed25519Public, x.ed25519Private, x.curvePublic, x.curvePrivate);
    StandsSplit(s, pos + 164, list, ([|x.fallbackKeys|] + keys) + last);
    ReadsList(ONE_TIME_KEY, s, pos + 164, x.oneTimeKeys, MAX_ONE_TIME_KEYS);
    var pos2 := pos + 164 + |list|;
    StandsSplit(s, pos2, [|x.fallbackKeys|] + keys, last);
    StandingFallback(s, pos2, x.fallbackKeys);
    StandingUint32(s, pos2 + 1 + |keys|, x.nextId);
  }

  lemma AccountBytesLength(x: AccountRecord)
    requires AccountFits(x)
    ensures |AccountBytes(x)| == AccountLength(x)
  {
    hide Elements;
    OneTimeKeyLawful();
    ElementsLength(ONE_TIME_KEY, x.oneTimeKeys);
    ElementsLength(ONE_TIME_KEY, x.fallbackKeys);
  }

  // ------------------------------------------------------------------
  // Lists cut short
  // ------------------------------------------------------------------

  lemma {:induction false} CutElements<T(!new)>(c: Codec<T>, s: Data, pos: nat, done: seq<T>, list: seq<T>,
                                                capacity: nat, j: nat, r: nat)
    requires Lawful(c) && |done| + |list| <= capacity && 0 < capacity
    requires j <= |list| && r < c.width && (j == |list| ==> r == 0)
    requires pos <= |s| && |s| - pos == j * c.width + r <= |Elements(c, list)|
    requires s[pos..] == Elements(c, list)[..|s| - pos]
    ensures ReadElements(c, s, pos, |list|, done, capacity) == if r == 0 then Some((done + list[..j], |s|)) else None
    decreases |list|
  {
    hide Elements, Inserted;
    if list == [] || j == 0 {
      assert done + list[..j] == done;
      EmptyElements(c);
    } else {
      assert j * c.width == (j - 1) * c.width + c.width;
      CutFirst(c, s, pos, list);
      AppendAtEnd(done, capacity, list[0]);
      CutElements(c, s, pos + c.width, done + [list[0]], list[1..], capacity, j - 1, r);
      assert done + [list[0]] + list[1..][..j - 1] == done + list[..j];
    }
  }

  lemma CutFirst<T(!new)>(c: Codec<T>, s: Data, pos: nat, list: seq<T>)
    requires Lawful(c) && list != [] && pos + c.width <= |s|
    requires |s| - pos <= |Elements(c, list)| && s[pos..] == Elements(c, list)[..|s| - pos]
    ensures ReadOne(c, s, pos) == Some((list[0], pos + c.width))
    ensures |Elements(c, list)| == c.width + |Elements(c, list[1..])|
    ensures s[pos + c.width..] == Elements(c, list[1..])[..|s| - pos - c.width]
  {
    assert s[pos..pos + c.width] == s[pos..][..c.width] == c.enc(list[0]);
    assert s[pos + c.width..] == s[pos..][c.width..];
  }

  /** A list whose bytes end early reads as a shorter list when they end between
      two elements, and is refused exactly when they end inside one. */
  lemma CutList<T(!new)>(c: Codec<T>, s: Data, pos: nat, list: seq<T>, capacity: nat, j: nat, r: nat)
    requires Lawful(c) && |list| <= capacity < MODULUS && 0 < capacity
    requires j <= |list| && r < c.width && (j == |list| ==> r == 0)
    requires pos + 4 <= |s| && |s| - pos - 4 == j * c.width + r
    requires |s| - pos <= |ListBytes(c, list)| && s[pos..] == ListBytes(c, list)[..|s| - pos]
    ensures ReadList(c, s, pos, capacity) == if r == 0 then Some((list[..j], |s|)) else None
  {
    var b := ListBytes(c, list);
    assert s[pos..pos + 4] == s[pos..][..4] == BigEndian(|list|);
    StandingUint32(s, pos, |list|);
    assert s[pos + 4..] == s[pos..][4..] == Elements(c, list)[..|s| - pos - 4];
    hide BigEndian, ReadUint32;
    CutElements(c, s, pos + 4, [], list, capacity, j, r);
    assert [] + list[..j] == list[..j];
  }

  /** What stands at `pos`, up to the end of s, is the beginning of b. */
  predicate Begins(s: Data, pos: nat, b: Data) {
    pos <= |s| && s[pos..] <= b
  }

  lemma BeginsSplit(s: Data, pos: nat, a: Data, b: Data)
    requires Begins(s, pos, a + b)
    ensures pos <= |s|
    ensures if |a| <= |s| - pos then Stands(s, pos, a) && Begins(s, pos + |a|, b) else Begins(s, pos, a)
  {
  }

  lemma {:induction false} PartOfList(n: nat, width: nat, cut: nat)
    requires width > 0 && cut < n * width
    ensures cut / width < n && cut == cut / width * width + cut % width
  {
  }

  /** A list cut short, at any byte. */
  lemma CutListAt<T(!new)>(c: Codec<T>, s: Data, pos: nat, list: seq<T>, capacity: nat)
    requires Lawful(c) && |list| <= capacity < MODULUS && 0 < capacity
    requires Begins(s, pos, ListBytes(c, list)) && |s| - pos < |ListBytes(c, list)|
    ensures pos <= |s| && c.width > 0
    ensures var cut := |s| - pos - 4;
      if 0 <= cut && cut % c.width == 0
      then cut / c.width < |list| && ReadList(c, s, pos, capacity) == Some((list[..cut / c.width], |s|))
      else ReadList(c, s, pos, capacity) == None
  {
    hide Elements, ReadElements, BigEndian, FromBigEndian;
    LawfulWidth(c);
    var cut := |s| - pos - 4;
    if cut >= 0 {
      ElementsLength(c, list);
      hide Lawful;
      PartOfList(|list|, c.width, cut);
      CutList(c, s, pos, list, capacity, cut / c.width, cut % c.width);
    }
  }

  lemma LawfulWidth<T(!new)>(c: Codec<T>)
    requires Lawful(c)
    ensures c.width > 0
  {
  }

  lemma NothingLeft<T>(c: Codec<T>, s: Data, capacity: nat)
    requires 0 < capacity
    ensures ReadList(c, s, |s|, capacity) == None
  {
  }

  lemma ListBytesLength<T(!new)>(c: Codec<T>, list: seq<T>)
    requires Lawful(c) && |list| < MODULUS
    ensures |ListBytes(c, list)| == 4 + |list| * c.width
  {
    hide Elements;
    ElementsLength(c, list);
  }

  /** The first `have` bytes of a ratchet pickle, read as a ratchet: only the end of a
      skipped key can pass for the end of the list. */
  function CutRatchet(r: RatchetRecord, have: nat): (c: Option<RatchetRecord>) {
    var cut := have - (RatchetLength(r) - 68 * |r.skipped|);
    if 0 <= cut && cut % 68 == 0 && cut / 68 <= |r.skipped| then Some(r.(skipped := r.skipped[..cut / 68])) else None
  }

  lemma ReadsCutRatchet(s: Data, pos: nat, r: RatchetRecord)
    requires RatchetFits(r) && Begins(s, pos, RatchetBytes(r)) && |s| - pos < |RatchetBytes(r)|
    ensures pos <= |s|
    ensures ReadRatchet(s, pos, false)
         == match CutRatchet(r, |s| - pos) { case None => None case Some(t) => Some((t, |s|)) }
  {
    hide Stands, Begins, ListBytes, ReadList, Lawful;
    SenderLawful();
    ChainLawful();
    var a, b, c := ListBytes(SENDER, r.senderChain), ListBytes(CHAIN, r.receiverChains), ListBytes(CHAIN, r.skipped);
    ListBytesLength(SENDER, r.senderChain);
    ListBytesLength(CHAIN, r.receiverChains);
    ListBytesLength(CHAIN, r.skipped);
    BeginsSplit(s, pos, r.rootKey, a + (b + c));
    if |s| - pos >= 32 {
      StandingBytes32(s, pos, r.rootKey);
      var pos1 := pos + 32;
      BeginsSplit(s, pos1, a, b + c);
      if |s| - pos1 < |a| {
        CutListAt(SENDER, s, pos1, r.senderChain, 1);
        NothingLeft(CHAIN, s, MAX_RECEIVER_CHAINS);
      } else {
        ReadsList(SENDER, s, pos1, r.senderChain, 1);
        var pos2 := pos1 + |a|;
        BeginsSplit(s, pos2, b, c);
        if |s| - pos2 < |b| {
          CutListAt(CHAIN, s, pos2, r.receiverChains, MAX_RECEIVER_CHAINS);
          NothingLeft(CHAIN, s, MAX_SKIPPED_MESSAGE_KEYS);
        } else {
          ReadsList(CHAIN, s, pos2, r.receiverChains, MAX_RECEIVER_CHAINS);
          CutListAt(CHAIN, s, pos2 + |b|, r.skipped, MAX_SKIPPED_MESSAGE_KEYS);
        }
      }
    }
  }

  lemma BeginsAtStart(b: Data, k: nat)
    requires k <= |b|
    ensures Begins(b[..k], 0, b)
  {
  }

  lemma BoolAt(s: Data, pos: nat, b: bool)
    requires pos <= |s| && (pos < |s| ==> Stands(s, pos, BoolByte(b)))
    ensures ReadBool(s, pos) == if pos < |s| then Some((b, pos + 1)) else None
  {
  }

  /** A session pickle cut short is refused, except when the cut falls between two of its
      skipped message keys: then it reads as the same session without the keys behind the cut. */
  lemma CutSession(x: SessionRecord, k: nat)
    requires RatchetFits(x.ratchet) && k < SessionLength(x)
    ensures |SessionBytes(x)| == SessionLength(x)
    ensures var cut := k - (SessionLength(x) - 68 * |x.ratchet.skipped|);
      ReadSession(SessionBytes(x)[..k], 0)
      == if 0 <= cut && cut % 68 == 0 then Ok((x.(ratchet := x.ratchet.(skipped := x.ratchet.skipped[..cut / 68])), k))
         else Err(CorruptedPickle)
  {
    hide Stands, Begins, RatchetBytes, ReadRatchet, BigEndian, FromBigEndian, BoolByte, ReadBool, ReadKeys,
         SessionBytes, CutRatchet;
    SessionBytesLength(x);
    SessionBytesGrouped(x);
    var s := SessionBytes(x)[..k];
    var keys := x.aliceIdentityKey + (x.aliceBaseKey + x.bobOneTimeKey);
    var rest := keys + RatchetBytes(x.ratchet);
    BoolByteLength(x.receivedMessage);
    RatchetBytesLength(x.ratchet);
    CutRatchetExact(x.ratchet, k - 101);
    BeginsAtStart(SessionBytes(x), k);
    BeginsSplit(s, 0, BigEndian(SESSION_PICKLE_VERSION), BoolByte(x.receivedMessage) + rest);
    if k >= 4 {
      StandingUint32(s, 0, SESSION_PICKLE_VERSION);
      BeginsSplit(s, 4, BoolByte(x.receivedMessage), rest);
      BoolAt(s, 4, x.receivedMessage);
    }
    if k >= 5 {
      BeginsSplit(s, 5, keys, RatchetBytes(x.ratchet));
      NoKeys(s, 5);
    }
    if k >= 101 {
      StandingKeys(s, 5, x.aliceIdentityKey, x.aliceBaseKey, x.bobOneTimeKey);
      ReadsCutRatchet(s, 101, x.ratchet);
    }
  }

  lemma NoKeys(s: Data, pos: nat)
    requires pos <= |s|
    ensures ReadKeys(s, pos) == None <==> |s| - pos < 96
  {
  }

  lemma CutRatchetExact(r: RatchetRecord, have: int)
    requires have < RatchetLength(r)
    ensures var cut := have - (RatchetLength(r) - 68 * |r.skipped|);
      && (have < 0 ==> cut < 0)
      && (have >= 0 ==>
        CutRatchet(r, have)
        == if 0 <= cut && cut % 68 == 0 then Some(r.(skipped := r.skipped[..cut / 68])) else None)
  {
  }

  lemma CutFallback(s: Data, pos: nat, keys: seq<OneTimeKeyRecord>)
    requires |keys| <= 2 && Begins(s, pos, [|keys|] + Elements(ONE_TIME_KEY, keys))
    requires |s| - pos < 1 + |Elements(ONE_TIME_KEY, keys)|
    ensures pos <= |s| && ReadFallback(s, pos) == None
  {
    OneTimeKeyLawful();
    hide Lawful, OneTimeKeyBytes, OneTimeKeyOf;
    ElementsLength(ONE_TIME_KEY, keys);
    BeginsSplit(s, pos, [|keys|], Elements(ONE_TIME_KEY, keys));
    if |s| - pos >= 1 {
      assert s[pos] == s[pos..pos + 1][0];
    }
  }

  /** An account pickle cut short at any byte is refused: its last field is not a list. */
  lemma CutAccount(x: AccountRecord, k: nat)
    requires AccountFits(x) && k < AccountLength(x)
    ensures |AccountBytes(x)| == AccountLength(x)
    ensures ReadAccount(AccountBytes(x)[..k], 0) == Err(CorruptedPickle)
  {
    hide Stands, Begins, ListBytes, Elements, ReadList, ReadFallback, ReadIdentity, BigEndian, FromBigEndian, Lawful;
    OneTimeKeyLawful();
    AccountBytesLength(x);
    AccountBytesGrouped(x);
    var list, keys, last := ListBytes(ONE_TIME_KEY, x.oneTimeKeys),
        [|x.fallbackKeys|] + Elements(ONE_TIME_KEY, x.fallbackKeys), BigEndian(x.nextId);
    var id := x.ed25519Public + (x.ed25519Private + (x.curvePublic + x.curvePrivate));
    var s := AccountBytes(x)[..k];
    BeginsAtStart(AccountBytes(x), k);
    BeginsSplit(s, 0, BigEndian(ACCOUNT_PICKLE_VERSION), id + (list + (keys + last)));
    if k >= 4 {
      StandingUint32(s, 0, ACCOUNT_PICKLE_VERSION);
      BeginsSplit(s, 4, id, list + (keys + last));
      if k < 164 {
        NoIdentity(s, 4);
      } else {
        StandingIdentity(s, 4, x.ed25519Public, x.ed25519Private, x.curvePublic, x.curvePrivate);
        CutAccountTail(s, 164, x);
      }
    }
  }

  lemma NoIdentity(s: Data, pos: nat)
    requires pos <= |s| && |s| - pos < 160
    ensures ReadIdentity(s, pos) == None
  {
  }

  lemma NoFallback(s: Data)
    ensures ReadFallback(s, |s|) == None
  {
  }

  /** Whatever part of the one-time keys, fallback keys and counter is missing, some read fails. */
  lemma CutAccountTail(s: Data, pos: nat, x: AccountRecord)
    requires AccountFits(x)
    requires var b := ListBytes(ONE_TIME_KEY, x.oneTimeKeys)
             + (([|x.fallbackKeys|] + Elements(ONE_TIME_KEY, x.fallbackKeys)) + BigEndian(x.nextId));
      Begins(s, pos, b) && |s| - pos < |b|
    ensures pos <= |s|
    ensures match ReadList(ONE_TIME_KEY, s, pos, MAX_ONE_TIME_KEYS)
      case None => true
      case Some((_, pos2)) => match ReadFallback(s, pos2)
        case None => true
        case Some((_, pos3)) => ReadUint32(s, pos3) == None
  {
    hide Stands, Begins, ListBytes, Elements, ReadList, ReadFallback, BigEndian, FromBigEndian, Lawful;
    OneTimeKeyLawful();
    var list, keys, last := ListBytes(ONE_TIME_KEY, x.oneTimeKeys),
        [|x.fallbackKeys|] + Elements(ONE_TIME_KEY, x.fallbackKeys), BigEndian(x.nextId);
    BeginsSplit(s, pos, list, keys + last);
    if |s| - pos < |list| {
      CutListAt(ONE_TIME_KEY, s, pos, x.oneTimeKeys, MAX_ONE_TIME_KEYS);
      NoFallback(s);
    } else {
      ReadsList(ONE_TIME_KEY, s, pos, x.oneTimeKeys, MAX_ONE_TIME_KEYS);
      var pos2 := pos + |list|;
      BeginsSplit(s, pos2, keys, last);
      if |s| - pos2 < |keys| {
        CutFallback(s, pos2, x.fallbackKeys);
      } else {
        StandingFallback(s, pos2, x.fallbackKeys);
      }
    }
  }

  // ------------------------------------------------------------------
  // The writers
  // ------------------------------------------------------------------

  /** b has been written between `pos` and `next`, and nothing else. */
  ghost predicate Wrote(before: Data, after: Data, pos: nat, next: nat, b: Data) {
    |after| == |before| && pos + |b| == next <= |before| && after == before[..pos] + b + before[next..]
  }

  lemma WroteNothing(before: Data, pos: nat)
    requires pos <= |before|
    ensures Wrote(before, before, pos, pos, [])
  {
  }

  lemma WroteBoth(a: Data, b: Data, c: Data, pos: nat, middle: nat, next: nat, x: Data, y: Data)
    requires Wrote(a, b, pos, middle, x) && Wrote(b, c, middle, next, y)
    ensures Wrote(a, c, pos, next, x + y)
  {
  }

  /** memcpy. */
  method PickleBytes(buf: array<byte>, pos: nat, b: Data) returns (next: nat)
    requires pos + |b| <= buf.Length
    modifies buf
    ensures Wrote(old(buf[..]), buf[..], pos, next, b)
  {
    for i := 0 to |b|
      invariant forall k :: 0 <= k < i ==> buf[pos + k] == b[k]
      invariant forall k :: 0 <= k < buf.Length && !(pos <= k < pos + i) ==> buf[k] == old(buf[k])
    {
      buf[pos + i] := b[i];
    }
    next := pos + |b|;
  }

  method PickleUint32(buf: array<byte>, pos: nat, value: uint32) returns (next: nat)
    requires pos + 4 <= buf.Length
    modifies buf
    ensures Wrote(old(buf[..]), buf[..], pos, next, BigEndian(value))
  {
    buf[pos] := value / 0x100_0000;
    buf[pos + 1] := value / 0x1_0000 % 256;
    buf[pos + 2] := value / 0x100 % 256;
    buf[pos + 3] := value % 256;
    next := pos + 4;
  }

  lemma {:induction false} ElementsMore<T>(c: Codec<T>, list: seq<T>, i: nat)
    requires i < |list|
    ensures Elements(c, list[..i + 1]) == Elements(c, list[..i]) + c.enc(list[i])
  {
    if i == 0 {
      assert list[..1][1..] == [] && list[..0] == [];
    } else {
      ElementsMore(c, list[1..], i - 1);
      assert list[..i + 1][1..] == list[1..][..i] && list[..i][1..] == list[1..][..i - 1];
    }
  }

  lemma ElementsFit<T>(c: Codec<T>, list: seq<T>, i: nat)
    requires i < |list|
    ensures |Elements(c, list[..i])| + |c.enc(list[i])| <= |Elements(c, list)|
    decreases |list| - i
  {
    ElementsMore(c, list, i);
    if i + 1 < |list| {
      ElementsFit(c, list, i + 1);
    } else {
      assert list[..i + 1] == list;
    }
  }

  /** The size, then the elements in order. */
  method PickleList<T>(c: Codec<T>, buf: array<byte>, pos: nat, list: seq<T>) returns (next: nat)
    requires |list| < MODULUS && pos + |ListBytes(c, list)| <= buf.Length
    modifies buf
    ensures Wrote(old(buf[..]), buf[..], pos, next, ListBytes(c, list))
  {
    hide Wrote, Elements, BigEndian;
    ghost var before := buf[..];
    next := PickleUint32(buf, pos, |list|);
    ghost var b := BigEndian(|list|);
    assert list[..0] == [] && b + Elements(c, []) == b by { EmptyElements(c); }
    WroteEnds(before, buf[..], pos, next, b);
    for i := 0 to |list|
      invariant next == pos + |b + Elements(c, list[..i])|
      invariant Wrote(before, buf[..], pos, next, b + Elements(c, list[..i]))
    {
      ElementsFit(c, list, i);
      ghost var now, middle := buf[..], next;
      next := PickleBytes(buf, next, c.enc(list[i]));
      WroteEnds(now, buf[..], middle, next, c.enc(list[i]));
      WroteBoth(before, now, buf[..], pos, middle, next, b + Elements(c, list[..i]), c.enc(list[i]));
      ElementsMore(c, list, i);
      assert b + Elements(c, list[..i]) + c.enc(list[i]) == b + (Elements(c, list[..i]) + c.enc(list[i]));
    }
    assert list[..|list|] == list;
  }

  lemma EmptyElements<T>(c: Codec<T>)
    ensures Elements(c, []) == []
  {
  }

  lemma WroteEnds(before: Data, after: Data, pos: nat, next: nat, b: Data)
    requires Wrote(before, after, pos, next, b)
    ensures next == pos + |b|
  {
  }

  /** `_olm_ratchet_pickle`. */
  method PickleRatchet(buf: array<byte>, pos: nat, r: RatchetRecord) returns (next: nat)
    requires RatchetFits(r) && pos + |RatchetBytes(r)| <= buf.Length
    modifies buf
    ensures Wrote(old(buf[..]), buf[..], pos, next, RatchetBytes(r))
  {
    hide Wrote, ListBytes;
    ghost var b0 := buf[..];
    ghost var x, y, z := ListBytes(SENDER, r.senderChain), ListBytes(CHAIN, r.receiverChains),
        ListBytes(CHAIN, r.skipped);
    var pos1 := PickleBytes(buf, pos, r.rootKey);
    ghost var b1 := buf[..];
    WroteEnds(b0, b1, pos, pos1, r.rootKey);
    var pos2 := PickleList(SENDER, buf, pos1, r.senderChain);
    ghost var b2 := buf[..];
    WroteEnds(b1, b2, pos1, pos2, x);
    var pos3 := PickleList(CHAIN, buf, pos2, r.receiverChains);
    ghost var b3 := buf[..];
    WroteEnds(b2, b3, pos2, pos3, y);
    next := PickleList(CHAIN, buf, pos3, r.skipped);
    WroteBoth(b2, b3, buf[..], pos2, pos3, next, y, z);
    WroteBoth(b1, b2, buf[..], pos1, pos2, next, x, y + z);
    WroteBoth(b0, b1, buf[..], pos, pos1, next, r.rootKey, x + (y + z));
  }

  /** `_olm_pickle_session`. */
  method PickleSession(buf: array<byte>, pos: nat, x: SessionRecord) returns (next: nat)
    requires RatchetFits(x.ratchet) && pos + |SessionBytes(x)| <= buf.Length
    modifies buf
    ensures Wrote(old(buf[..]), buf[..], pos, next, SessionBytes(x))
  {
    hide Wrote, RatchetBytes, BigEndian;
    BoolByteLength(x.receivedMessage);
    ghost var b0 := buf[..];
    ghost var e := RatchetBytes(x.ratchet);
    ghost var d := x.bobOneTimeKey + e;
    ghost var c := x.aliceBaseKey + d;
    ghost var b := x.aliceIdentityKey + c;
    var pos1 := PickleUint32(buf, pos, SESSION_PICKLE_VERSION);
    ghost var b1 := buf[..];
    WroteEnds(b0, b1, pos, pos1, BigEndian(SESSION_PICKLE_VERSION));
    var pos2 := PickleBytes(buf, pos1, BoolByte(x.receivedMessage));
    ghost var b2 := buf[..];
    WroteEnds(b1, b2, pos1, pos2, BoolByte(x.receivedMessage));
    var pos3 := PickleBytes(buf, pos2, x.aliceIdentityKey);
    ghost var b3 := buf[..];
    WroteEnds(b2, b3, pos2, pos3, x.aliceIdentityKey);
    var pos4 := PickleBytes(buf, pos3, x.aliceBaseKey);
    ghost var b4 := buf[..];
    WroteEnds(b3, b4, pos3, pos4, x.aliceBaseKey);
    var pos5 := PickleBytes(buf, pos4, x.bobOneTimeKey);
    ghost var b5 := buf[..];
    WroteEnds(b4, b5, pos4, pos5, x.bobOneTimeKey);
    next := PickleRatchet(buf, pos5, x.ratchet);
    WroteBoth(b4, b5, buf[..], pos4, pos5, next, x.bobOneTimeKey, e);
    WroteBoth(b3, b4, buf[..], pos3, pos4, next, x.aliceBaseKey, d);
    WroteBoth(b2, b3, buf[..], pos2, pos3, next, x.aliceIdentityKey, c);
    WroteBoth(b1, b2, buf[..], pos1, pos2, next, BoolByte(x.receivedMessage), b);
    WroteBoth(b0, b1, buf[..], pos, pos1, next, BigEndian(SESSION_PICKLE_VERSION), BoolByte(x.receivedMessage) + b);
  }

  method PickleUint8(buf: array<byte>, pos: nat, value: byte) returns (next: nat)
    requires pos + 1 <= buf.Length
    modifies buf
    ensures Wrote(old(buf[..]), buf[..], pos, next, [value])
  {
    buf[pos] := value;
    next := pos + 1;
  }

  /** The identity keys: Ed25519 first, then Curve25519. */
  method PickleIdentityKeys(buf: array<byte>, pos: nat, x: AccountRecord) returns (next: nat)
    requires pos + 160 <= buf.Length
    modifies buf
    ensures Wrote(old(buf[..]), buf[..], pos, next,
                  x.ed25519Public + (x.ed25519Private + (x.curvePublic + x.curvePrivate)))
  {
    hide Wrote;
    ghost var b0 := buf[..];
    var pos1 := PickleBytes(buf, pos, x.ed25519Public);
    ghost var b1 := buf[..];
    WroteEnds(b0, b1, pos, pos1, x.ed25519Public);
    var pos2 := PickleBytes(buf, pos1, x.ed25519Private);
    ghost var b2 := buf[..];
    WroteEnds(b1, b2, pos1, pos2, x.ed25519Private);
    var pos3 := PickleBytes(buf, pos2, x.curvePublic);
    ghost var b3 := buf[..];
    WroteEnds(b2, b3, pos2, pos3, x.curvePublic);
    next := PickleBytes(buf, pos3, x.curvePrivate);
    WroteBoth(b2, b3, buf[..], pos2, pos3, next, x.curvePublic, x.curvePrivate);
    WroteBoth(b1, b2, buf[..], pos1, pos2, next, x.ed25519Private, x.curvePublic + x.curvePrivate);
    WroteBoth(b0, b1, buf[..], pos, pos1, next, x.ed25519Public, x.ed25519Private + (x.curvePublic + x.curvePrivate));
  }

  /** The number of fallback keys, then the keys, the current one first. */
  method PickleFallback(buf: array<byte>, pos: nat, keys: seq<OneTimeKeyRecord>) returns (next: nat)
    requires |keys| <= 2 && pos + 1 + |Elements(ONE_TIME_KEY, keys)| <= buf.Length
    modifies buf
    ensures Wrote(old(buf[..]), buf[..], pos, next, [|keys|] + Elements(ONE_TIME_KEY, keys))
  {
    hide Wrote, Elements, OneTimeKeyBytes;
    ghost var b0 := buf[..];
    FewElements(keys);
    next := PickleUint8(buf, pos, |keys|);
    WroteEnds(b0, buf[..], pos, next, [|keys|]);
    if keys == [] {
      assert [|keys|] + Elements(ONE_TIME_KEY, keys) == [|keys|];
    }
    if |keys| >= 1 {
      ghost var b1, pos1, first := buf[..], next, ONE_TIME_KEY.enc(keys[0]);
      next := PickleBytes(buf, next, ONE_TIME_KEY.enc(keys[0]));
      WroteEnds(b1, buf[..], pos1, next, first);
      WroteBoth(b0, b1, buf[..], pos, pos1, next, [|keys|], first);
      if |keys| >= 2 {
        ghost var b2, pos2, second := buf[..], next, ONE_TIME_KEY.enc(keys[1]);
        next := PickleBytes(buf, next, ONE_TIME_KEY.enc(keys[1]));
        WroteBoth(b0, b2, buf[..], pos, pos2, next, [|keys|] + first, second);
        assert [|keys|] + first + second == [|keys|] + (first + second);
      }
    }
  }

  lemma FewElements(keys: seq<OneTimeKeyRecord>)
    requires |keys| <= 2
    ensures Elements(ONE_TIME_KEY, keys)
         == if keys == [] then [] else if |keys| == 1 then ONE_TIME_KEY.enc(keys[0])
            else ONE_TIME_KEY.enc(keys[0]) + ONE_TIME_KEY.enc(keys[1])
  {
  }

  /** `_olm_pickle_account`. */
  method PickleAccount(buf: array<byte>, pos: nat, x: AccountRecord) returns (next: nat)
    requires AccountFits(x) && pos + |AccountBytes(x)| <= buf.Length
    modifies buf
    ensures Wrote(old(buf[..]), buf[..], pos, next, AccountBytes(x))
  {
    hide Wrote, ListBytes, Elements, BigEndian;
    ghost var b0 := buf[..];
    ghost var id := x.ed25519Public + (x.ed25519Private + (x.curvePublic + x.curvePrivate));
    ghost var list, keys, last := ListBytes(ONE_TIME_KEY, x.oneTimeKeys),
        [|x.fallbackKeys|] + Elements(ONE_TIME_KEY, x.fallbackKeys), BigEndian(x.nextId);
    ghost var head := BigEndian(ACCOUNT_PICKLE_VERSION);
    AccountBytesGrouped(x);
    var pos1 := PickleUint32(buf, pos, ACCOUNT_PICKLE_VERSION);
    ghost var b1 := buf[..];
    WroteEnds(b0, b1, pos, pos1, head);
    var pos2 := PickleIdentityKeys(buf, pos1, x);
    ghost var b2 := buf[..];
    WroteEnds(b1, b2, pos1, pos2, id);
    var pos3 := PickleList(ONE_TIME_KEY, buf, pos2, x.oneTimeKeys);
    ghost var b3 := buf[..];
    WroteEnds(b2, b3, pos2, pos3, list);
    var pos4 := PickleFallback(buf, pos3, x.fallbackKeys);
    ghost var b4 := buf[..];
    WroteEnds(b3, b4, pos3, pos4, keys);
    next := PickleUint32(buf, pos4, x.nextId);
    WroteBoth(b3, b4, buf[..], pos3, pos4, next, keys, last);
    WroteBoth(b2, b3, buf[..], pos2, pos3, next, list, keys + last);
    WroteBoth(b1, b2, buf[..], pos1, pos2, next, id, list + (keys + last));
    WroteBoth(b0, b1, buf[..], pos, pos1, next, head, id + (list + (keys + last)));
  }

  // ------------------------------------------------------------------
  // The reading loop
  // ------------------------------------------------------------------

  /** `size` counts down, but the bytes end first when it lies: every turn consumes one record. */
  method UnpickleList<T>(c: Codec<T>, s: Data, from: nat, capacity: nat) returns (r: Option<(seq<T>, nat)>)
    requires from <= |s| && 0 < capacity && c.width > 0
    ensures r == ReadList(c, s, from, capacity)
  {
    var head := ReadUint32(s, from);
    if head == None {
      return None;
    }
    var size: nat, pos := head.value.0, head.value.1;
    var list: seq<T> := [];
    while size > 0 && pos != |s|
      invariant pos <= |s| && |list| <= capacity
      invariant ReadElements(c, s, pos, size, list, capacity) == ReadList(c, s, from, capacity)
      decreases |s| - pos
    {
      size := size - 1;
      var one := ReadOne(c, s, pos);
      if one == None {
        return None;
      }
      list := Inserted(list, capacity, |list|, one.value.0);
      pos := one.value.1;
    }
    return Some((list, pos));
  }

  // ------------------------------------------------------------------
  // The readers
  // ------------------------------------------------------------------

  /** `_olm_ratchet_unpickle`: version 0x80000001 stored an index that is read and dropped. */
  method UnpickleRatchet(s: Data, from: nat, includesChainIndex: bool) returns (r: Option<(RatchetRecord, nat)>)
    requires from <= |s|
    ensures r == ReadRatchet(s, from, includesChainIndex)
  {
    hide ReadList, ReadUint32, Lawful;
    var pos := from;
    if |s| - pos < 32 {
      return None;
    }
    var rootKey := s[pos..pos + 32];
    pos := pos + 32;
    var senderChain := UnpickleList(SENDER, s, pos, 1);
    if senderChain == None {
      return None;
    }
    pos := senderChain.value.1;
    var receiverChains := UnpickleList(CHAIN, s, pos, MAX_RECEIVER_CHAINS);
    if receiverChains == None {
      return None;
    }
    pos := receiverChains.value.1;
    var skipped := UnpickleList(CHAIN, s, pos, MAX_SKIPPED_MESSAGE_KEYS);
    if skipped == None {
      return None;
    }
    pos := skipped.value.1;
    if includesChainIndex {
      var dummy := ReadUint32(s, pos);
      if dummy == None {
        return None;
      }
      pos := dummy.value.1;
    }
    return Some((RatchetRecord(rootKey, senderChain.value.0, receiverChains.value.0, skipped.value.0), pos));
  }

  /** `_olm_unpickle_session`. */
  method UnpickleSession(s: Data, from: nat) returns (r: Result<(SessionRecord, nat)>)
    requires from <= |s|
    ensures r == ReadSession(s, from)
  {
    hide ReadRatchet, FromBigEndian;
    var pos := from;
    if |s| - pos < 4 {
      return Err(CorruptedPickle);
    }
    var version := FromBigEndian(s[pos..pos + 4]);
    pos := pos + 4;
    var includesChainIndex := version == LOGGING_PICKLE_VERSION;
    if version != SESSION_PICKLE_VERSION && !includesChainIndex {
      return Err(UnknownPickleVersion);
    }
    if pos == |s| {
      return Err(CorruptedPickle);
    }
    var receivedMessage := s[pos] != 0;
    pos := pos + 1;
    if |s| - pos < 32 {
      return Err(CorruptedPickle);
    }
    var aliceIdentityKey := s[pos..pos + 32];
    pos := pos + 32;
    if |s| - pos < 32 {
      return Err(CorruptedPickle);
    }
    var aliceBaseKey := s[pos..pos + 32];
    pos := pos + 32;
    if |s| - pos < 32 {
      return Err(CorruptedPickle);
    }
    var bobOneTimeKey := s[pos..pos + 32];
    pos := pos + 32;
    var ratchet := UnpickleRatchet(s, pos, includesChainIndex);
    if ratchet == None {
      return Err(CorruptedPickle);
    }
    return Ok((SessionRecord(receivedMessage, aliceIdentityKey, aliceBaseKey, bobOneTimeKey, ratchet.value.0),
               ratchet.value.1));
  }

  /** The fallback keys as each pickle version stored them. */
  method UnpickleFallback(version: uint32, s: Data, from: nat) returns (r: Option<(seq<OneTimeKeyRecord>, nat)>)
    requires from <= |s| && 2 <= version <= 4
    ensures r == ReadFallbackOf(version, s, from)
  {
    hide OneTimeKeyOf, OneTimeKeyBytes;
    var pos, count: byte := from, 2;
    if version <= 2 {
      return Some(([], pos));
    }
    if version == 4 {
      if pos == |s| {
        return None;
      }
      count := s[pos];
      pos := pos + 1;
    }
    if count == 0 {
      return Some(([], pos));
    }
    var current := ReadOne(ONE_TIME_KEY, s, pos);
    if current == None {
      return None;
    }
    pos := current.value.1;
    var keys := [current.value.0];
    if count >= 2 {
      var previous := ReadOne(ONE_TIME_KEY, s, pos);
      if previous == None {
        return None;
      }
      pos := previous.value.1;
      keys := [current.value.0, previous.value.0];
      if count >= 3 {
        return None;
      }
    }
    if version == 3 {
      // only keys marked as published were in use
      if !keys[0].published {
        keys := [];
      } else if !keys[1].published {
        keys := [keys[0]];
      }
    }
    return Some((keys, pos));
  }

  /** `_olm_unpickle_account`. */
  method UnpickleAccount(s: Data, from: nat) returns (r: Result<(AccountRecord, nat)>)
    requires from <= |s|
    ensures r == ReadAccount(s, from)
  {
    hide ReadIdentity, ReadList, ReadFallbackOf, FromBigEndian;
    var pos := from;
    if |s| - pos < 4 {
      return Err(CorruptedPickle);
    }
    var version := FromBigEndian(s[pos..pos + 4]);
    pos := pos + 4;
    match version {
      case 4 | 3 | 2 =>
      case 1 => return Err(BadLegacyAccountPickle);
      case _ => return Err(UnknownPickleVersion);
    }
    var identity := ReadIdentity(s, pos);
    if identity == None {
      return Err(CorruptedPickle);
    }
    pos := identity.value.1;
    var oneTimeKeys := UnpickleList(ONE_TIME_KEY, s, pos, MAX_ONE_TIME_KEYS);
    if oneTimeKeys == None {
      return Err(CorruptedPickle);
    }
    pos := oneTimeKeys.value.1;
    var fallbackKeys := UnpickleFallback(version, s, pos);
    if fallbackKeys == None {
      return Err(CorruptedPickle);
    }
    pos := fallbackKeys.value.1;
    if |s| - pos < 4 {
      return Err(CorruptedPickle);
    }
    var nextId := FromBigEndian(s[pos..pos + 4]);
    pos := pos + 4;
    var id := identity.value.0;
    return Ok((AccountRecord(id.ed25519Public, id.ed25519Private, id.curvePublic, id.curvePrivate,
                             oneTimeKeys.value.0, fallbackKeys.value.0, nextId), pos));
  }
}
