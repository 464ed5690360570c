// Two Olm ratchets and a network that loses, repeats, reorders and forges.
module Protocol {
  import opened Common
  import opened Bytes
  import opened Symbols
  import opened List
  import opened Books
  import opened Ratchet

  // ------------------------------------------------------------------
  // History: what has been agreed, generated and sent
  // ------------------------------------------------------------------

  /** keys[e] is the ratchet key that opened epoch e, log[e] the plaintexts sent on it. */
  datatype History = History(agreed: seq<SharedSecret>, keys: seq<nat>, log: seq<seq<Data>>)

  ghost predicate Sound(h: History) {
    && |h.keys| == |h.log| >= 1
    && Distinct(h.keys)
    && forall e :: 0 <= e < |h.log| ==> |h.log[e]| < MODULUS
  }

  predicate Sent(h: History, x: Slot) {
    x.0 < |h.log| && x.1 < |h.log[x.0]|
  }

  function RootAt(h: History, e: nat): (k: Key)
    requires e < |h.keys|
  {
    if e == 0 then RootOf(h.agreed)
    else NextRoot(RootAt(h, e - 1), DiffieHellman(PrivateKey(h.keys[e]), PublicKey(h.keys[e - 1])))
  }

  function ChainAt(h: History, e: nat): (k: Key)
    requires e < |h.keys|
  {
    if e == 0 then ChainOf(h.agreed)
    else NewChain(RootAt(h, e - 1), DiffieHellman(PrivateKey(h.keys[e]), PublicKey(h.keys[e - 1])))
  }

  function LinkAt(h: History, e: nat, i: uint32): (c: ChainKey)
    requires e < |h.keys|
  {
    ChainKey(i, Linked(ChainAt(h, e), i))
  }

  function MessageKeyAt(h: History, e: nat, i: uint32): (k: MessageKey)
    requires e < |h.keys|
  {
    CreateMessageKeys(LinkAt(h, e, i))
  }

  /** The message with index i of epoch e, as its sender produced it. */
  function MessageAt(h: History, x: Slot): (m: Message)
    requires Sound(h) && Sent(h, x)
  {
    Seal(MessageKeyAt(h, x.0, x.1).key, PROTOCOL_VERSION, x.1, PublicKey(h.keys[x.0]), h.log[x.0][x.1])
  }

  // ------------------------------------------------------------------
  // The ratchet a book stands for
  // ------------------------------------------------------------------

  ghost predicate Fits(h: History, p: Party, b: Book) {
    && Sound(h)
    && Kept(p, b)
    && b.top < |h.keys|
    && (forall q :: 0 <= q < |b.live| ==> b.live[q] <= |h.log[EpochAt(p, b.top, q)]|)
    && (forall x :: x in b.skipped ==> Sent(h, x))
  }

  lemma FitsKept(h: History, p: Party, b: Book)
    requires Fits(h, p, b)
    ensures Kept(p, b) && Small(b) && b.top < |h.log| == |h.keys|
  {
  }

  function SenderOf(h: History, p: Party, top: nat): (s: seq<SenderChain>)
    requires Sound(h) && top < |h.keys|
  {
    if top % 2 == p then [SenderChain(GenerateKey(h.keys[top]), LinkAt(h, top, |h.log[top]|))] else []
  }

  function ReceiverOf(h: History, e: nat, index: nat): (c: ReceiverChain)
    requires e < |h.keys| && index < MODULUS
  {
    ReceiverChain(PublicKey(h.keys[e]), LinkAt(h, e, index))
  }

  function SkippedOf(h: History, x: Slot): (k: SkippedKey)
    requires x.0 < |h.keys| && x.1 < MODULUS
  {
    SkippedKey(PublicKey(h.keys[x.0]), MessageKeyAt(h, x.0, x.1))
  }

  function SkippedList(h: History, skipped: seq<Slot>): (s: seq<SkippedKey>)
    requires Sound(h) && forall x :: x in skipped ==> Sent(h, x)
    ensures |s| == |skipped|
    ensures forall k :: 0 <= k < |s| ==> Sent(h, skipped[k]) && s[k] == SkippedOf(h, skipped[k])
  {
    seq(|skipped|, k requires 0 <= k < |skipped| =>
      assert skipped[k] in skipped && Sent(h, skipped[k]); SkippedOf(h, skipped[k]))
  }

  function ReceiverList(h: History, p: Party, b: Book): (s: seq<ReceiverChain>)
    requires Fits(h, p, b)
    ensures |s| == |b.live|
    ensures forall q :: 0 <= q < |s| ==> s[q] == ReceiverOf(h, EpochAt(p, b.top, q), b.live[q])
  {
    seq(|b.live|, q requires 0 <= q < |b.live| => ReceiverOf(h, EpochAt(p, b.top, q), b.live[q]))
  }

  /** Every key of the ratchet is determined by the history and the book. */
  function RatchetOf(h: History, p: Party, b: Book): (s: State)
    requires Fits(h, p, b)
    ensures Bounded(s)
  {
    State(RootAt(h, b.top), SenderOf(h, p, b.top), ReceiverList(h, p, b), SkippedList(h, b.skipped))
  }

  // ------------------------------------------------------------------
  // Keys of different epochs and indices differ
  // ------------------------------------------------------------------

  lemma {:induction false} RootsDiffer(h: History, e: nat, f: nat)
    requires e < |h.keys| && f < |h.keys| && RootAt(h, e) == RootAt(h, f)
    ensures e == f
  {
    if e == 0 || f == 0 {
    } else {
      RootsDiffer(h, e - 1, f - 1);
    }
  }

  lemma {:induction false} LinksDiffer(a: Key, m: nat, b: Key, n: nat)
    requires !a.NextLink? && !b.NextLink? && Linked(a, m) == Linked(b, n)
    ensures a == b && m == n
  {
    if m == 0 || n == 0 {
    } else {
      LinksDiffer(a, m - 1, b, n - 1);
    }
  }

  /** A trial chain fits a message of epoch e only if it grew from the root key of epoch e - 1. */
  lemma TrialKeyMatches(h: History, e: nat, i: uint32, root: Key, secret: SharedSecret, n: nat)
    requires e < |h.keys| && Linked(NewChain(root, secret), n) == LinkAt(h, e, i).key
    ensures e > 0 && root == RootAt(h, e - 1)
  {
    LinksDiffer(NewChain(root, secret), n, ChainAt(h, e), i);
  }

  lemma {:induction false} LinkedAdd(k: Key, m: nat, n: nat)
    ensures Linked(Linked(k, m), n) == Linked(k, m + n)
  {
    if n == 0 {
    } else {
      LinkedAdd(k, m, n - 1);
    }
  }

  lemma LinkAdvances(h: History, e: nat, i: uint32, j: uint32)
    requires e < |h.keys| && i <= j
    ensures Ratchet.At(LinkAt(h, e, i), j) == LinkAt(h, e, j)
    ensures i < MODULUS - 1 ==> AdvanceChainKey(LinkAt(h, e, i)) == LinkAt(h, e, i + 1)
  {
    LinkedAdd(ChainAt(h, e), i, j - i);
  }

  // ------------------------------------------------------------------
  // Decrypting follows the book
  // ------------------------------------------------------------------

  lemma FindChainFollows(h: History, p: Party, b: Book, e: nat)
    requires Fits(h, p, b) && e < |h.keys|
    ensures FindChain(RatchetOf(h, p, b).receiverChains, PublicKey(h.keys[e]))
         == if Live(p, b, e) then Place(p, b.top, e) else |b.live|
  {
    var chains := RatchetOf(h, p, b).receiverChains;
    forall q | 0 <= q < |b.live|
      ensures chains[q].ratchetKey == PublicKey(h.keys[e]) <==> EpochAt(p, b.top, q) == e
    {
    }
    if Live(p, b, e) {
      var q := Place(p, b.top, e);
      assert EpochAt(p, b.top, q) == e;
      assert chains[q].ratchetKey == PublicKey(h.keys[e]);
    } else {
      forall q | 0 <= q < |b.live|
        ensures EpochAt(p, b.top, q) != e
      {
      }
    }
  }

  lemma {:induction false} FindSkippedFollows(h: History, skipped: seq<Slot>, x: Slot)
    requires Sound(h) && Sent(h, x) && forall y :: y in skipped ==> Sent(h, y)
    ensures FindSkipped(SkippedList(h, skipped), PublicKey(h.keys[x.0]), x.1, MessageAt(h, x)) == Find(skipped, x)
  {
  }

  lemma {:induction false} StoreFollows(h: History, skipped: seq<Slot>, e: nat, from: nat, to: nat)
    requires Sound(h) && |skipped| <= MAX_SKIPPED_MESSAGE_KEYS
    requires forall y :: y in skipped ==> Sent(h, y)
    requires e < |h.log| && from <= to <= |h.log[e]|
    ensures forall y :: y in Store(skipped, e, from, to) ==> Sent(h, y)
    ensures StoreSkipped(SkippedList(h, skipped), PublicKey(h.keys[e]), LinkAt(h, e, from), to)
         == SkippedList(h, Store(skipped, e, from, to))
    decreases if from < to then to - from else 0
  {
    if from >= to {
    } else {
      LinkAdvances(h, e, from, from);
      hide Sound, LinkAt;
      var next := PushFront(skipped, MAX_SKIPPED_MESSAGE_KEYS, (e, from));
      assert PushFront(SkippedList(h, skipped), MAX_SKIPPED_MESSAGE_KEYS, SkippedOf(h, (e, from)))
          == SkippedList(h, next);
      StoreFollows(h, next, e, from + 1, to);
    }
  }

  lemma StoreSent(h: History, skipped: seq<Slot>, e: nat, from: nat, to: nat)
    requires |skipped| <= MAX_SKIPPED_MESSAGE_KEYS && forall y :: y in skipped ==> Sent(h, y)
    requires e < |h.log| && to <= |h.log[e]|
    ensures forall y :: y in Store(skipped, e, from, to) ==> Sent(h, y)
  {
    forall y | y in Store(skipped, e, from, to)
      ensures Sent(h, y)
    {
      StoreMembers(skipped, e, from, to, y);
    }
  }

  lemma TrialFollows(h: History, x: Slot, index: uint32)
    requires Sound(h) && Sent(h, x)
    ensures TrialExisting(LinkAt(h, x.0, index), x.1, MessageAt(h, x))
         == if index <= x.1 && x.1 - index <= MAX_MESSAGE_GAP then Some(h.log[x.0][x.1]) else None
  {
    if index <= x.1 {
      LinkAdvances(h, x.0, index, x.1);
    }
  }

  lemma TakeStoredFits(h: History, p: Party, b: Book, y: Slot)
    requires Fits(h, p, b) && y in b.skipped
    ensures Fits(h, p, TakeStored(b, y))
  {
    TakeStoredKeeps(p, b, y);
    forall x | x in TakeStored(b, y).skipped
      ensures Sent(h, x)
    {
      ErasedMembers(b.skipped, Find(b.skipped, y), x);
    }
    hide Kept, Sound;
  }

  lemma TakeAheadFits(h: History, p: Party, b: Book, e: nat, i: nat)
    requires Fits(h, p, b) && Live(p, b, e) && b.live[Place(p, b.top, e)] <= i && Sent(h, (e, i))
    ensures Fits(h, p, TakeAhead(p, b, e, i))
  {
    hide Kept, Sound, Store;
    FitsKept(h, p, b);
    TakeAheadKeeps(p, b, e, i);
    StoreSent(h, b.skipped, e, b.live[Place(p, b.top, e)], i);
  }

  lemma TakeNewFits(h: History, p: Party, b: Book, e: nat, i: nat)
    requires Fits(h, p, b) && e == b.top + 1 && e % 2 != p && Sent(h, (e, i))
    ensures Fits(h, p, TakeNew(b, e, i))
  {
    hide Kept, Store, Sound;
    FitsKept(h, p, b);
    TakeNewKeeps(p, b, e, i);
    StoreSent(h, b.skipped, e, 0, i);
    NewChainsInLog(h, p, b, e, i);
  }

  lemma NewChainsInLog(h: History, p: Party, b: Book, e: nat, i: nat)
    requires Fits(h, p, b) && e == b.top + 1 && e % 2 != p && Sent(h, (e, i))
    requires Small(b) && Kept(p, TakeNew(b, e, i))
    ensures var b' := TakeNew(b, e, i);
      forall q :: 0 <= q < |b'.live| ==> 2 * q <= Newest(p, e) && b'.live[q] <= |h.log[EpochAt(p, e, q)]|
  {
    hide Kept, Store, Sound, TakeNew, Newest, EpochAt;
    var b' := TakeNew(b, e, i);
    forall q | 0 <= q < |b'.live|
      ensures 2 * q <= Newest(p, e) && b'.live[q] <= |h.log[EpochAt(p, e, q)]|
    {
      NewLive(p, b, e, i, q);
      LiveInRange(p, b', q);
      if q == 0 {
        EpochZero(p, e);
      } else {
        EpochShift(p, b.top, q);
      }
    }
  }

  lemma NewLive(p: Party, b: Book, e: nat, i: nat, q: nat)
    requires Small(b)
    ensures var b' := TakeNew(b, e, i);
      && b'.top == e
      && (q < |b'.live| ==> if q == 0 then b'.live[q] == i + 1 else q - 1 < |b.live| && b'.live[q] == b.live[q - 1])
  {
    hide Store;
  }

  lemma EpochZero(p: Party, e: nat)
    requires e % 2 != p
    ensures Newest(p, e) == e && EpochAt(p, e, 0) == e
  {
  }

  /** Opening the next epoch moves every older chain one place back. */
  lemma EpochShift(p: Party, top: nat, q: nat)
    requires (top + 1) % 2 != p && 0 < q && 2 * q <= Newest(p, top + 1)
    ensures 2 * (q - 1) <= Newest(p, top) && EpochAt(p, top + 1, q) == EpochAt(p, top, q - 1)
  {
  }

  lemma DecryptStored(h: History, p: Party, b: Book, x: Slot)
    requires Fits(h, p, b) && Sent(h, x) && Live(p, b, x.0) && x.1 < b.live[Place(p, b.top, x.0)]
    ensures var (s', r) := DecryptWithKey(RatchetOf(h, p, b), PublicKey(h.keys[x.0]), x.1, MessageAt(h, x));
      if x in b.skipped then
        Fits(h, p, TakeStored(b, x)) && s' == RatchetOf(h, p, TakeStored(b, x)) && r == Ok(h.log[x.0][x.1])
      else
        s' == RatchetOf(h, p, b) && r == Err(BadMessageMac)
  {
    var s := RatchetOf(h, p, b);
    FindChainFollows(h, p, b, x.0);
    FindSkippedFollows(h, b.skipped, x);
    hide Kept, FindChain, FindSkipped, LinkAt, MessageKeyAt, RootAt;
    if x in b.skipped {
      TakeStoredFits(h, p, b, x);
      StoredRatchet(h, p, b, x);
      hide RatchetOf, Fits, TakeStored;
    }
  }

  lemma StoredRatchet(h: History, p: Party, b: Book, x: Slot)
    requires Fits(h, p, b) && x in b.skipped && Small(b) && Fits(h, p, TakeStored(b, x))
    ensures var s := RatchetOf(h, p, b);
      RatchetOf(h, p, TakeStored(b, x)) == s.(skipped := Erased(s.skipped, Find(b.skipped, x)))
  {
    hide Kept, SkippedOf, ReceiverOf, Sound;
    var s, b' := RatchetOf(h, p, b), TakeStored(b, x);
    assert SkippedList(h, b'.skipped) == Erased(s.skipped, Find(b.skipped, x));
    assert ReceiverList(h, p, b') == ReceiverList(h, p, b);
  }

  lemma DecryptAhead(h: History, p: Party, b: Book, e: nat, i: nat)
    requires Fits(h, p, b) && Sent(h, (e, i)) && Live(p, b, e) && b.live[Place(p, b.top, e)] <= i
    ensures var (s', r) := DecryptWithKey(RatchetOf(h, p, b), PublicKey(h.keys[e]), i, MessageAt(h, (e, i)));
      if i - b.live[Place(p, b.top, e)] <= MAX_MESSAGE_GAP then
        Fits(h, p, TakeAhead(p, b, e, i)) && s' == RatchetOf(h, p, TakeAhead(p, b, e, i)) && r == Ok(h.log[e][i])
      else
        s' == RatchetOf(h, p, b) && r == Err(BadMessageMac)
  {
    var s, q := RatchetOf(h, p, b), Place(p, b.top, e);
    FindChainFollows(h, p, b, e);
    TrialFollows(h, (e, i), b.live[q]);
    if i - b.live[q] <= MAX_MESSAGE_GAP {
      TakeAheadFits(h, p, b, e, i);
      StoreFollows(h, b.skipped, e, b.live[q], i);
      LinkAdvances(h, e, b.live[q], i);
      LinkAdvances(h, e, i, i);
      AheadChains(h, p, b, e, i);
      hide Fits, LinkAt, StoreSkipped, Store;
    }
  }

  lemma AheadChains(h: History, p: Party, b: Book, e: nat, i: nat)
    requires Fits(h, p, b) && Live(p, b, e) && Fits(h, p, TakeAhead(p, b, e, i)) && i < MODULUS - 1
    ensures RatchetOf(h, p, TakeAhead(p, b, e, i)).receiverChains
         == RatchetOf(h, p, b).receiverChains[Place(p, b.top, e) := ReceiverOf(h, e, i + 1)]
  {
  }

  lemma NextEpochKeys(h: History, e: nat)
    requires e + 1 < |h.keys|
    ensures CreateChainKey(RootAt(h, e), GenerateKey(h.keys[e]), PublicKey(h.keys[e + 1]))
         == (RootAt(h, e + 1), LinkAt(h, e + 1, 0))
    ensures CreateChainKey(RootAt(h, e), GenerateKey(h.keys[e + 1]), PublicKey(h.keys[e]))
         == (RootAt(h, e + 1), LinkAt(h, e + 1, 0))
  {
  }

  lemma TrialNewFollows(h: History, p: Party, b: Book, e: nat, i: nat)
    requires Fits(h, p, b) && Sent(h, (e, i)) && e == b.top + 1 && e % 2 != p
    ensures TrialNew(RatchetOf(h, p, b), PublicKey(h.keys[e]), i, MessageAt(h, (e, i)))
         == if i <= MAX_MESSAGE_GAP then Some(h.log[e][i]) else None
  {
  }

  lemma AdoptFollows(h: History, p: Party, b: Book, e: nat, i: nat, s: State)
    requires Fits(h, p, b) && Sent(h, (e, i)) && e == b.top + 1 && e % 2 != p
    requires s == RatchetOf(h, p, b) && |s.senderChain| == 1
    ensures Fits(h, p, TakeNew(b, e, i))
    ensures PastCounter(WithReceiverChain(s, PublicKey(h.keys[e])), 0, i) == RatchetOf(h, p, TakeNew(b, e, i))
  {
    TakeNewFits(h, p, b, e, i);
    NextEpochKeys(h, b.top);
    StoreFollows(h, b.skipped, e, 0, i);
    LinkAdvances(h, e, 0, i);
    LinkAdvances(h, e, i, i);
    NewChains(h, p, b, e, i);
    hide Kept, LinkAt, StoreSkipped, Store, CreateChainKey, Ratchet.At;
  }

  lemma DecryptNew(h: History, p: Party, b: Book, e: nat, i: nat)
    requires Fits(h, p, b) && Sent(h, (e, i)) && e == b.top + 1 && e % 2 != p
    ensures var (s', r) := DecryptWithKey(RatchetOf(h, p, b), PublicKey(h.keys[e]), i, MessageAt(h, (e, i)));
      if i <= MAX_MESSAGE_GAP then
        Fits(h, p, TakeNew(b, e, i)) && s' == RatchetOf(h, p, TakeNew(b, e, i)) && r == Ok(h.log[e][i])
      else
        s' == RatchetOf(h, p, b) && r == Err(BadMessageMac)
  {
    HasSender(h, p, b);
    hide RatchetOf, TrialNew, WithReceiverChain, PastCounter, TakeNew, MessageAt, FindChain, FindSkipped, TrialExisting;
    FindChainFollows(h, p, b, e);
    TrialNewFollows(h, p, b, e, i);
    AdoptFollows(h, p, b, e, i, RatchetOf(h, p, b));
  }

  lemma HasSender(h: History, p: Party, b: Book)
    requires Fits(h, p, b) && b.top % 2 == p
    ensures |RatchetOf(h, p, b).senderChain| == 1
  {
  }

  lemma NewChains(h: History, p: Party, b: Book, e: nat, i: nat)
    requires Fits(h, p, b) && e == b.top + 1 && e % 2 != p && e < |h.keys| && i < MODULUS - 1
    requires Fits(h, p, TakeNew(b, e, i))
    ensures RatchetOf(h, p, TakeNew(b, e, i)).receiverChains
         == PushFront(RatchetOf(h, p, b).receiverChains, MAX_RECEIVER_CHAINS, ReceiverOf(h, e, i + 1))
  {
    hide ReceiverOf, LinkAt, RootAt, SenderOf, SkippedList, Newest, EpochAt, Place, Kept, Fits, Store, TakeNew;
    FitsKept(h, p, b);
    var b' := TakeNew(b, e, i);
    FitsKept(h, p, b');
    NewLiveLength(b, e, i);
    forall q | 0 <= q < |b'.live|
      ensures ReceiverList(h, p, b')[q] == if q == 0 then ReceiverOf(h, e, i + 1) else ReceiverList(h, p, b)[q - 1]
    {
      NewLive(p, b, e, i, q);
      LiveInRange(p, b', q);
      if q == 0 {
        EpochZero(p, e);
      } else {
        EpochShift(p, b.top, q);
      }
    }
  }

  lemma NewLiveLength(b: Book, e: nat, i: nat)
    requires Small(b)
    ensures |TakeNew(b, e, i).live| == if |b.live| < MAX_RECEIVER_CHAINS then |b.live| + 1 else MAX_RECEIVER_CHAINS
  {
    hide Store;
  }

  /** Messages of evicted chains, and our own messages sent back to us, fail the new-chain trial. */
  lemma DecryptForeignEpoch(h: History, p: Party, b: Book, e: nat, i: nat)
    requires Fits(h, p, b) && Sent(h, (e, i)) && !Live(p, b, e) && !(e == b.top + 1 && e % 2 != p)
    ensures DecryptWithKey(RatchetOf(h, p, b), PublicKey(h.keys[e]), i, MessageAt(h, (e, i)))
         == (RatchetOf(h, p, b), Err(BadMessageMac))
  {
    FindChainFollows(h, p, b, e);
    ForeignTrial(h, p, b, e, i);
    hide TrialNew, RatchetOf, Fits, MessageAt;
  }

  lemma ForeignTrial(h: History, p: Party, b: Book, e: nat, i: nat)
    requires Fits(h, p, b) && Sent(h, (e, i)) && !(e == b.top + 1 && e % 2 != p)
    ensures TrialNew(RatchetOf(h, p, b), PublicKey(h.keys[e]), i, MessageAt(h, (e, i))) == None
  {
    hide Kept, RootAt, LinkAt, ReceiverList, SkippedList;
    var s, m := RatchetOf(h, p, b), MessageAt(h, (e, i));
    if s.senderChain != [] && i <= MAX_MESSAGE_GAP {
      var (root, chain) := CreateChainKey(s.rootKey, s.senderChain[0].ratchetKey, PublicKey(h.keys[e]));
      if Linked(chain.key, i) == LinkAt(h, e, i).key {
        TrialKeyMatches(h, e, i, s.rootKey, DiffieHellman(PrivateKey(h.keys[b.top]), PublicKey(h.keys[e])), i);
        RootsDiffer(h, b.top, e - 1);
        assert false;
      }
    }
  }

  /** Decrypting a message of the session does exactly what the book says. */
  lemma DecryptFollowsBook(h: History, p: Party, b: Book, x: Slot, room: nat)
    requires Fits(h, p, b) && Sent(h, x)
    ensures var m := MessageAt(h, x); var (s', r) := Decrypt(RatchetOf(h, p, b), m, room);
      if room < m.ciphertext.value.Length() then s' == RatchetOf(h, p, b) && r == Err(OutputBufferTooSmall)
      else if Accepts(p, b, x.0, x.1) then
        var b' := Take(p, b, x.0, x.1);
        Fits(h, p, b') && s' == RatchetOf(h, p, b') && r == Ok(h.log[x.0][x.1])
      else s' == RatchetOf(h, p, b) && r == Err(BadMessageMac)
  {
    var e, i := x.0, x.1;
    if Live(p, b, e) {
      if i < b.live[Place(p, b.top, e)] {
        DecryptStored(h, p, b, x);
      } else {
        DecryptAhead(h, p, b, e, i);
      }
    } else if e == b.top + 1 && e % 2 != p {
      DecryptNew(h, p, b, e, i);
    } else {
      DecryptForeignEpoch(h, p, b, e, i);
    }
    hide DecryptWithKey, Fits, RatchetOf, TakeStored, TakeAhead, TakeNew;
  }
}
