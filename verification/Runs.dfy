// Runs of two Olm ratchets. A world holds both ratchets and every message that
// was ever sent; a run delivers any of them to anyone, any number of times, in
// any order or never, and may deliver forged messages in between.
module Runs {
  import opened Common
  import opened Bytes
  import opened Symbols
  import opened Books
  import opened Ratchet
  import opened Protocol

  /** One party: its ratchet and the messages it has accepted. `book` and
      `spent` only record what happened and are read by no step of the system. */
  datatype Side = Side(state: State, taken: set<Message>, book: Book, spent: set<Slot>)

  datatype World = World(alice: Side, bob: Side, network: set<Message>, history: History) {
    function At(p: Party): Side {
      if p == 0 then alice else bob
    }

    function With(p: Party, side: Side): World {
      if p == 0 then this.(alice := side) else this.(bob := side)
    }
  }

  datatype Event =
    | Send(sender: Party, plaintext: Data, random: nat)
    | Deliver(receiver: Party, message: Message, room: nat)

  predicate TypedSide(h: History, side: Side) {
    Bounded(side.state) && Small(side.book) && side.book.top < |h.log|
  }

  predicate Typed(w: World) {
    |w.history.keys| == |w.history.log| && TypedSide(w.history, w.alice) && TypedSide(w.history, w.bob)
  }

  /** A message nobody with the agreed secret made: its tag was computed under
      another key, or over other content. */
  predicate Forged(agreed: seq<SharedSecret>, m: Message) {
    !(DerivedFrom(m.tag.key, agreed) && TagVerifies(m, m.tag.key))
  }

  /** Fresh random ratchet keys, chain indices below 2^32 - 1, honest or forged messages. */
  predicate Ready(w: World, ev: Event) {
    Typed(w) &&
    match ev
    case Send(p, _, random) =>
      var s := w.At(p).state;
      && CanSend(s)
      && random !in w.history.keys
      && (s.senderChain != [] ==> s.senderChain[0].chainKey.index < MODULUS - 1)
    case Deliver(_, m, _) => m in w.network || Forged(w.history.agreed, m)
  }

  function Step(w: World, ev: Event): (w': World)
    requires Ready(w, ev)
    ensures Typed(w')
  {
    match ev
    case Send(p, plaintext, random) =>
      var side := w.At(p);
      var (s, m) := Encrypt(side.state, plaintext, random);
      var w' := w.(network := w.network + {m});
      if side.state.senderChain == [] then
        w'.(history := Opened(w.history, random, plaintext))
          .With(p, side.(state := s, book := side.book.(top := side.book.top + 1)))
      else
        w'.(history := Logged(w.history, side.book.top, plaintext)).With(p, side.(state := s))
    case Deliver(p, m, room) =>
      var side := w.At(p);
      var (s, r) := Decrypt(side.state, m, room);
      w.With(p, if r.Err? then side.(state := s)
                else Received(w.history, p, side.(state := s, taken := side.taken + {m}), m))
  }

  /** A new epoch with its first message. */
  function Opened(h: History, random: nat, plaintext: Data): (h': History) {
    h.(keys := h.keys + [random], log := h.log + [[plaintext]])
  }

  /** One more message on epoch e. */
  function Logged(h: History, e: nat, plaintext: Data): (h': History)
    requires e < |h.log|
  {
    h.(log := h.log[e := h.log[e] + [plaintext]])
  }

  /** The epoch opened with this ratchet key, or the number of epochs. */
  function EpochOf(keys: seq<nat>, key: nat): (e: nat)
    ensures e <= |keys| && (e < |keys| ==> keys[e] == key)
    ensures key in keys ==> e < |keys|
  {
    if keys == [] || keys[0] == key then 0 else 1 + EpochOf(keys[1..], key)
  }

  function SlotOf(h: History, m: Message): (x: Slot) {
    if m.counter.Some? && m.ratchetKey.HasKey? then (EpochOf(h.keys, m.ratchetKey.key.id), m.counter.value)
    else (0, 0)
  }

  /** Bookkeeping for an accepted message. */
  function Received(h: History, p: Party, side: Side, m: Message): (side': Side)
    requires TypedSide(h, side)
    ensures TypedSide(h, side')
  {
    var x := SlotOf(h, m);
    if x.0 < |h.log| && Accepts(p, side.book, x.0, x.1) then
      side.(book := Take(p, side.book, x.0, x.1), spent := side.spent + {x})
    else side
  }

  function Start(agreed: seq<SharedSecret>, random: nat): (w: World)
    ensures Typed(w)
  {
    World(Side(InitialAlice(agreed, GenerateKey(random)), {}, Book(0, [], []), {}),
          Side(InitialBob(agreed, PublicKey(random)), {}, Book(0, [0], []), {}),
          {}, History(agreed, [random], [[]]))
  }

  predicate Possible(w: World, run: seq<Event>)
    decreases |run|
  {
    run == [] || (Ready(w, run[0]) && Possible(Step(w, run[0]), run[1..]))
  }

  function After(w: World, run: seq<Event>): (w': World)
    requires Typed(w) && Possible(w, run)
    ensures Typed(w')
    decreases |run|
  {
    if run == [] then w else After(Step(w, run[0]), run[1..])
  }

  // ------------------------------------------------------------------
  // The invariant of all runs
  // ------------------------------------------------------------------

  ghost predicate SentAs(h: History, m: Message, x: Slot) {
    Sound(h) && Sent(h, x) && m == MessageAt(h, x)
  }

  /** One party's ratchet is what its book says, and nothing it took can be taken again. */
  ghost predicate Agrees(h: History, p: Party, side: Side) {
    && Fits(h, p, side.book)
    && side.state == RatchetOf(h, p, side.book)
    && Spent(p, side.book, side.spent)
    && (forall m :: m in side.taken ==> SentAs(h, m, SlotOf(h, m)) && SlotOf(h, m) in side.spent)
  }

  ghost predicate AllSent(h: History, network: set<Message>) {
    forall m :: m in network ==> SentAs(h, m, SlotOf(h, m))
  }

  /** The last epoch is held by its owner; the other party holds it too, or the one before. */
  predicate Tops(n: int, top0: nat, top1: nat) {
    && (if n % 2 == 0 then top0 else top1) == n
    && n - 1 <= (if n % 2 == 0 then top1 else top0) <= n
    && (n == 0 ==> top1 == 0)
  }

  ghost predicate Inv(w: World) {
    && Sound(w.history)
    && Agrees(w.history, 0, w.alice)
    && Agrees(w.history, 1, w.bob)
    && AllSent(w.history, w.network)
    && Tops(|w.history.keys| - 1, w.alice.book.top, w.bob.book.top)
  }

  // ------------------------------------------------------------------
  // Histories only grow
  // ------------------------------------------------------------------

  lemma MessageHasSlot(h: History, x: Slot)
    requires Sound(h) && Sent(h, x)
    ensures SlotOf(h, MessageAt(h, x)) == x
  {
  }

  ghost predicate Grows(h: History, h': History) {
    && Sound(h) && Sound(h')
    && h'.agreed == h.agreed
    && h.keys <= h'.keys
    && |h.log| <= |h'.log|
    && forall e :: 0 <= e < |h.log| ==> h.log[e] <= h'.log[e]
  }

  lemma {:induction false} RootGrows(h: History, h': History, e: nat)
    requires Grows(h, h') && e < |h.keys|
    ensures RootAt(h', e) == RootAt(h, e) && ChainAt(h', e) == ChainAt(h, e)
  {
    if e == 0 {
    } else {
      RootGrows(h, h', e - 1);
    }
  }

  lemma MessageGrows(h: History, h': History, m: Message)
    requires Grows(h, h') && SentAs(h, m, SlotOf(h, m))
    ensures SlotOf(h', m) == SlotOf(h, m) && SentAs(h', m, SlotOf(h', m))
  {
    var x := SlotOf(h, m);
    RootGrows(h, h', x.0);
    assert MessageAt(h', x) == m;
    MessageHasSlot(h', x);
  }

  lemma ListsGrow(h: History, h': History, p: Party, b: Book)
    requires Grows(h, h') && Fits(h, p, b)
    ensures Fits(h', p, b)
    ensures ReceiverList(h', p, b) == ReceiverList(h, p, b)
    ensures SkippedList(h', b.skipped) == SkippedList(h, b.skipped)
  {
    assert Fits(h', p, b);
    forall q | 0 <= q < |b.live|
      ensures ReceiverList(h', p, b)[q] == ReceiverList(h, p, b)[q]
    {
      RootGrows(h, h', EpochAt(p, b.top, q));
    }
    forall k | 0 <= k < |b.skipped|
      ensures SkippedList(h', b.skipped)[k] == SkippedList(h, b.skipped)[k]
    {
      assert b.skipped[k] in b.skipped;
      RootGrows(h, h', b.skipped[k].0);
    }
  }

  /** A ratchet depends on the history only through its own epochs. */
  lemma RatchetGrows(h: History, h': History, p: Party, b: Book)
    requires Grows(h, h') && Fits(h, p, b)
    requires b.top % 2 == p ==> h'.log[b.top] == h.log[b.top]
    ensures Fits(h', p, b) && RatchetOf(h', p, b) == RatchetOf(h, p, b)
  {
    ListsGrow(h, h', p, b);
    RootGrows(h, h', b.top);
    hide ReceiverList, SkippedList, Kept;
  }

  // ------------------------------------------------------------------
  // Every step keeps the invariant
  // ------------------------------------------------------------------

  lemma StartBobFits(h: History)
    requires Sound(h) && |h.keys| == 1
    ensures Fits(h, 1, Book(0, [0], []))
  {
    assert Newest(1, 0) == 0 && ReadCount(1, 0) == 1;
  }

  lemma StartBob(h: History, b: Book)
    requires Fits(h, 1, b) && b == Book(0, [0], [])
    ensures RatchetOf(h, 1, b) == InitialBob(h.agreed, PublicKey(h.keys[0]))
  {
    var s := RatchetOf(h, 1, b);
    assert s.rootKey == RootOf(h.agreed) && s.senderChain == [] && s.skipped == [];
    StartBobChain(h, b);
  }

  lemma FirstLink(h: History)
    requires |h.keys| > 0
    ensures ReceiverOf(h, 0, 0) == ReceiverChain(PublicKey(h.keys[0]), ChainKey(0, ChainOf(h.agreed)))
  {
  }

  lemma StartBobChain(h: History, b: Book)
    requires Fits(h, 1, b) && b == Book(0, [0], [])
    ensures ReceiverList(h, 1, b) == [ReceiverChain(PublicKey(h.keys[0]), ChainKey(0, ChainOf(h.agreed)))]
  {
    FirstLink(h);
    hide Kept, Fits, ReceiverOf;
    Singleton(ReceiverList(h, 1, b));
  }

  lemma Singleton<T>(s: seq<T>)
    requires |s| == 1
    ensures s == [s[0]]
  {
  }

  lemma StartHolds(agreed: seq<SharedSecret>, random: nat)
    ensures Inv(Start(agreed, random))
  {
    var w := Start(agreed, random);
    StartBobFits(w.history);
    StartBob(w.history, w.bob.book);
  }

  lemma TakeAgrees(h: History, p: Party, side: Side, m: Message, room: nat)
    requires Agrees(h, p, side) && SentAs(h, m, SlotOf(h, m))
    ensures TypedSide(h, side)
    ensures var x := SlotOf(h, m); var (s', r) := Decrypt(side.state, m, room);
      && (r.Err? ==> s' == side.state)
      && (r.Ok? ==>
        && Accepts(p, side.book, x.0, x.1)
        && r == Ok(h.log[x.0][x.1])
        && Agrees(h, p, Received(h, p, side.(state := s', taken := side.taken + {m}), m)))
  {
    hide Fits, RatchetOf, Decrypt, MessageAt, SlotOf, Take, Spent, Accepts, Sound;
    var x := SlotOf(h, m);
    DecryptFollowsBook(h, p, side.book, x, room);
    FitsKept(h, p, side.book);
    if Decrypt(side.state, m, room).1.Ok? {
      TakeSpends(p, side.book, side.spent, x.0, x.1);
      TakenAgrees(h, p, side, m, Decrypt(side.state, m, room).0);
    }
  }

  lemma TakenAgrees(h: History, p: Party, side: Side, m: Message, s': State)
    requires Agrees(h, p, side) && TypedSide(h, side.(state := s')) && SentAs(h, m, SlotOf(h, m))
    requires var x := SlotOf(h, m);
      && Accepts(p, side.book, x.0, x.1)
      && var b' := Take(p, side.book, x.0, x.1);
         Fits(h, p, b') && s' == RatchetOf(h, p, b') && Spent(p, b', side.spent + {x})
    ensures Agrees(h, p, Received(h, p, side.(state := s', taken := side.taken + {m}), m))
  {
    hide Fits, RatchetOf, MessageAt, SlotOf, Take, Spent, Accepts, Sound;
  }

  lemma AgreesTyped(h: History, p: Party, side: Side)
    requires Agrees(h, p, side)
    ensures TypedSide(h, side) && side.book.top < |h.keys| == |h.log|
  {
  }

  lemma InvTyped(w: World)
    requires Inv(w)
    ensures Typed(w)
  {
  }

  lemma TakeTop(h: History, p: Party, side: Side, m: Message)
    requires TypedSide(h, side) && SentAs(h, m, SlotOf(h, m)) && Accepts(p, side.book, SlotOf(h, m).0, SlotOf(h, m).1)
    ensures var top := Received(h, p, side, m).book.top;
      top == side.book.top || (top == side.book.top + 1 < |h.keys| && top % 2 != p)
  {
  }

  lemma DeliverKeeps(w: World, p: Party, m: Message, room: nat)
    requires Inv(w) && Typed(w) && m in w.network
    ensures Inv(Step(w, Deliver(p, m, room)))
  {
    hide Agrees, SlotOf, SentAs, Decrypt, Received, Accepts, Sound;
    var side := w.At(p);
    TakeAgrees(w.history, p, side, m, room);
    if Decrypt(side.state, m, room).1.Ok? {
      TakeTop(w.history, p, side.(state := Decrypt(side.state, m, room).0, taken := side.taken + {m}), m);
    }
  }

  lemma AgreesGrows(h: History, h': History, p: Party, side: Side)
    requires Grows(h, h') && Agrees(h, p, side)
    requires side.book.top % 2 == p ==> h'.log[side.book.top] == h.log[side.book.top]
    ensures Agrees(h', p, side)
  {
    RatchetGrows(h, h', p, side.book);
    forall m | m in side.taken
      ensures SentAs(h', m, SlotOf(h', m)) && SlotOf(h', m) in side.spent
    {
      MessageGrows(h, h', m);
    }
  }

  lemma AllSentGrows(h: History, h': History, network: set<Message>)
    requires Grows(h, h') && AllSent(h, network)
    ensures AllSent(h', network)
  {
    forall m | m in network
      ensures SentAs(h', m, SlotOf(h', m))
    {
      MessageGrows(h, h', m);
    }
  }

  /** The sender's side after one more message, on its old chain or on a new one. */
  ghost predicate SendsAs(h: History, h': History, p: Party, side: Side, b': Book, plaintext: Data, random: nat) {
    && Bounded(side.state) && CanSend(side.state)
    && var (s, m) := Encrypt(side.state, plaintext, random);
       && Grows(h, h')
       && Agrees(h', p, side.(state := s, book := b'))
       && SentAs(h', m, SlotOf(h', m))
  }

  lemma LoggedGrows(h: History, e: nat, plaintext: Data)
    requires Sound(h) && e < |h.log| && |h.log[e]| < MODULUS - 1
    ensures Grows(h, Logged(h, e, plaintext))
  {
  }

  lemma OpenedGrows(h: History, random: nat, plaintext: Data)
    requires Sound(h) && random !in h.keys
    ensures Grows(h, Opened(h, random, plaintext))
  {
  }

  lemma SendOnChain(h: History, p: Party, side: Side, plaintext: Data, random: nat)
    requires Agrees(h, p, side) && side.state.senderChain != []
    requires side.state.senderChain[0].chainKey.index < MODULUS - 1
    ensures side.book.top < |h.log|
    ensures SendsAs(h, Logged(h, side.book.top, plaintext), p, side, side.book, plaintext, random)
  {
    var top, b := side.book.top, side.book;
    var n := |h.log[top]|;
    assert b.top % 2 == p && side.state.senderChain == [SenderChain(GenerateKey(h.keys[top]), LinkAt(h, top, n))];
    var h' := Logged(h, top, plaintext);
    LoggedGrows(h, top, plaintext);
    LogKeepsRest(h, h', p, side);
    RootGrows(h, h', top);
    LinkAdvances(h, top, n, n);
    MessageHasSlot(h', (top, n));
    var (s, m) := Encrypt(side.state, plaintext, random);
    assert s == RatchetOf(h', p, b);
    assert m == MessageAt(h', (top, n));
  }

  lemma LogKeepsRest(h: History, h': History, p: Party, side: Side)
    requires Grows(h, h') && Agrees(h, p, side)
    ensures Fits(h', p, side.book)
    ensures ReceiverList(h', p, side.book) == ReceiverList(h, p, side.book)
    ensures SkippedList(h', side.book.skipped) == SkippedList(h, side.book.skipped)
    ensures forall m :: m in side.taken ==> SentAs(h', m, SlotOf(h', m)) && SlotOf(h', m) in side.spent
  {
    ListsGrow(h, h', p, side.book);
    forall m | m in side.taken
      ensures SentAs(h', m, SlotOf(h', m)) && SlotOf(h', m) in side.spent
    {
      MessageGrows(h, h', m);
    }
  }

  lemma SendOpensChain(h: History, p: Party, side: Side, plaintext: Data, random: nat)
    requires Agrees(h, p, side) && side.state.senderChain == []
    requires side.book.top == |h.keys| - 1 && random !in h.keys
    ensures SendsAs(h, Opened(h, random, plaintext), p, side, side.book.(top := side.book.top + 1), plaintext, random)
  {
    hide Agrees, Fits, RatchetOf, Encrypt, Sound, SlotOf, RootAt, MessageAt, Bounded, CanSend, Grows;
    var top, h' := side.book.top, Opened(h, random, plaintext);
    SenderParity(h, p, side);
    AgreesTyped(h, p, side);
    SoundAgrees(h, p, side);
    OpenedGrows(h, random, plaintext);
    FrontChain(h, p, side);
    AgreesLists(h, p, side);
    LogKeepsRest(h, h', p, side);
    OpenFits(h', p, side.book);
    OpenedState(h', p, side.book);
    OpenedAgrees(h, h', p, side);
    GrowsSound(h, h');
    MessageHasSlot(h', (top + 1, 0));
    RootGrows(h, h', top);
    AgreesKeys(h, p, side);
    OpeningEncrypts(h', top, side.state, plaintext, random);
  }

  lemma SoundAgrees(h: History, p: Party, side: Side)
    requires Agrees(h, p, side)
    ensures Sound(h) && Bounded(side.state)
  {
  }

  /** A new sender chain leaves the other chains and the stored keys alone. */
  lemma OpenedState(h: History, p: Party, b: Book)
    requires Fits(h, p, b) && b.top % 2 != p && b.top + 1 < |h.keys| && |h.log[b.top + 1]| == 1
    requires Fits(h, p, b.(top := b.top + 1))
    ensures RatchetOf(h, p, b.(top := b.top + 1))
         == State(RootAt(h, b.top + 1), [SenderChain(GenerateKey(h.keys[b.top + 1]), LinkAt(h, b.top + 1, 1))],
                  ReceiverList(h, p, b), SkippedList(h, b.skipped))
  {
    hide Kept, ReceiverList, SkippedList, LinkAt, RootAt, GenerateKey;
    OpenFits(h, p, b);
  }

  lemma AgreesLists(h: History, p: Party, side: Side)
    requires Agrees(h, p, side)
    ensures side.state.receiverChains == ReceiverList(h, p, side.book)
    ensures side.state.skipped == SkippedList(h, side.book.skipped)
  {
    hide Fits, SentAs, SlotOf, Spent;
  }

  lemma OpenedAgrees(h: History, h': History, p: Party, side: Side)
    requires Grows(h, h') && Agrees(h, p, side) && side.book.top % 2 != p
    requires Fits(h', p, side.book.(top := side.book.top + 1))
    ensures var b' := side.book.(top := side.book.top + 1);
      Agrees(h', p, side.(state := RatchetOf(h', p, b'), book := b'))
  {
    hide Fits, RatchetOf, SentAs, SlotOf;
    LogKeepsRest(h, h', p, side);
    OpenSpends(p, side.book, side.spent);
  }

  /** Encrypting without a sender chain moves to the next epoch and sends its message 0. */
  lemma OpeningEncrypts(h': History, top: nat, s: State, plaintext: Data, random: nat)
    requires Sound(h') && top + 1 == |h'.keys| - 1 && h'.keys[top + 1] == random && h'.log[top + 1] == [plaintext]
    requires Bounded(s) && CanSend(s) && s.senderChain == [] && s.rootKey == RootAt(h', top)
    requires s.receiverChains[0].ratchetKey == PublicKey(h'.keys[top])
    ensures Encrypt(s, plaintext, random)
         == (State(RootAt(h', top + 1), [SenderChain(GenerateKey(random), LinkAt(h', top + 1, 1))], s.receiverChains,
                   s.skipped),
             MessageAt(h', (top + 1, 0)))
  {
  }

  /** Our newest receiver chain is the last epoch when we have no sender chain. */
  lemma FrontChain(h: History, p: Party, side: Side)
    requires Agrees(h, p, side) && side.state.senderChain == []
    ensures CanSend(side.state)
    ensures side.state.receiverChains[0].ratchetKey == PublicKey(h.keys[side.book.top])
  {
    var b := side.book;
    assert b.top % 2 != p && |b.live| > 0;
    assert EpochAt(p, b.top, 0) == b.top;
    assert ReceiverList(h, p, b)[0] == ReceiverOf(h, EpochAt(p, b.top, 0), b.live[0]);
  }

  lemma OpenFits(h: History, p: Party, b: Book)
    requires Fits(h, p, b) && b.top % 2 != p && b.top + 1 < |h.keys|
    ensures var b' := b.(top := b.top + 1);
      Fits(h, p, b') && ReceiverList(h, p, b') == ReceiverList(h, p, b)
  {
    OpenKeeps(p, b);
    var b' := b.(top := b.top + 1);
    assert Newest(p, b'.top) == Newest(p, b.top);
    assert forall q :: 0 <= q < |b.live| ==> EpochAt(p, b'.top, q) == EpochAt(p, b.top, q);
  }

  lemma SenderParity(h: History, p: Party, side: Side)
    requires Agrees(h, p, side)
    ensures side.state.senderChain == [] <==> side.book.top % 2 != p
  {
  }

  lemma SendKeeps(w: World, p: Party, plaintext: Data, random: nat)
    requires Inv(w) && Ready(w, Send(p, plaintext, random))
    ensures Inv(Step(w, Send(p, plaintext, random)))
  {
    hide Agrees, AllSent, Encrypt, CanSend, Grows, SentAs, Sound, Bounded;
    var side := w.At(p);
    var (s, m) := Encrypt(side.state, plaintext, random);
    SenderParity(w.history, p, side);
    if side.state.senderChain == [] {
      SendOpensChain(w.history, p, side, plaintext, random);
      SendRest(w, p, Opened(w.history, random, plaintext),
               side.(state := s, book := side.book.(top := side.book.top + 1)), m);
    } else {
      SendOnChain(w.history, p, side, plaintext, random);
      SendRest(w, p, Logged(w.history, side.book.top, plaintext), side.(state := s), m);
    }
  }

  lemma SendRest(w: World, p: Party, h': History, side': Side, m: Message)
    requires Inv(w) && Grows(w.history, h') && Agrees(h', p, side') && SentAs(h', m, SlotOf(h', m))
    requires var top := w.At(1 - p).book.top;
      top % 2 == 1 - p && top < |w.history.log| <= |h'.log| ==> h'.log[top] == w.history.log[top]
    requires var w' := w.With(p, side'); Tops(|h'.keys| - 1, w'.alice.book.top, w'.bob.book.top)
    ensures Inv(w.(network := w.network + {m}, history := h').With(p, side'))
  {
    hide Agrees, SentAs, SlotOf, Sound, Grows, Tops;
    AgreesTyped(w.history, 1 - p, w.At(1 - p));
    GrowsSound(w.history, h');
    AgreesGrows(w.history, h', 1 - p, w.At(1 - p));
    AllSentGrows(w.history, h', w.network);
  }

  lemma GrowsSound(h: History, h': History)
    requires Grows(h, h')
    ensures Sound(h') && |h.log| <= |h'.log|
  {
  }

  // ------------------------------------------------------------------
  // Forged messages
  // ------------------------------------------------------------------

  predicate AllDerived(s: State, agreed: seq<SharedSecret>) {
    && DerivedFrom(s.rootKey, agreed)
    && (forall c :: c in s.receiverChains ==> DerivedFrom(c.chainKey.key, agreed))
    && (forall k :: k in s.skipped ==> DerivedFrom(k.messageKey.key, agreed))
  }

  lemma {:induction false} LinkedDerived(k: Key, n: nat, agreed: seq<SharedSecret>)
    requires DerivedFrom(k, agreed)
    ensures DerivedFrom(Linked(k, n), agreed)
  {
    if n == 0 {
    } else {
      LinkedDerived(k, n - 1, agreed);
    }
  }

  lemma ForgedDoesNotOpen(m: Message, key: Key, agreed: seq<SharedSecret>)
    requires Forged(agreed, m) && DerivedFrom(key, agreed)
    ensures Open(m, key) == None
  {
  }

  lemma ForgedTrial(chain: ChainKey, counter: uint32, m: Message, agreed: seq<SharedSecret>)
    requires Forged(agreed, m) && DerivedFrom(chain.key, agreed)
    ensures TrialExisting(chain, counter, m) == None
  {
    if chain.index <= counter {
      LinkedDerived(chain.key, counter - chain.index, agreed);
      ForgedDoesNotOpen(m, CreateMessageKeys(Ratchet.At(chain, counter)).key, agreed);
    }
  }

  /** Whatever its header claims, a forged message is refused and changes nothing. */
  lemma ForgedIsRefused(s: State, m: Message, room: nat, agreed: seq<SharedSecret>)
    requires Bounded(s) && AllDerived(s, agreed) && Forged(agreed, m)
    ensures Decrypt(s, m, room).1.Err? && Decrypt(s, m, room).0 == s
  {
    if m.counter.Some? && m.ratchetKey.HasKey? {
      var key, counter := m.ratchetKey.key, m.counter.value;
      var i := FindChain(s.receiverChains, key);
      if i < |s.receiverChains| {
        assert s.receiverChains[i] in s.receiverChains;
        ForgedTrial(s.receiverChains[i].chainKey, counter, m, agreed);
        var k := FindSkipped(s.skipped, key, counter, m);
        if k < |s.skipped| {
          assert s.skipped[k] in s.skipped;
          ForgedDoesNotOpen(m, s.skipped[k].messageKey.key, agreed);
          assert false;
        }
      } else if s.senderChain != [] {
        ForgedTrial(CreateChainKey(s.rootKey, s.senderChain[0].ratchetKey, key).1, counter, m, agreed);
      }
    }
  }

  lemma {:induction false} RootDerived(h: History, e: nat)
    requires e < |h.keys|
    ensures DerivedFrom(RootAt(h, e), h.agreed) && DerivedFrom(ChainAt(h, e), h.agreed)
  {
    if e == 0 {
    } else {
      RootDerived(h, e - 1);
    }
  }

  lemma LinkDerived(h: History, e: nat, i: uint32)
    requires e < |h.keys|
    ensures DerivedFrom(LinkAt(h, e, i).key, h.agreed) && DerivedFrom(MessageKeyAt(h, e, i).key, h.agreed)
  {
    RootDerived(h, e);
    LinkedDerived(ChainAt(h, e), i, h.agreed);
  }

  lemma RatchetDerived(h: History, p: Party, b: Book)
    requires Fits(h, p, b)
    ensures AllDerived(RatchetOf(h, p, b), h.agreed)
  {
    var s := RatchetOf(h, p, b);
    RootDerived(h, b.top);
    forall q | 0 <= q < |b.live|
      ensures DerivedFrom(s.receiverChains[q].chainKey.key, h.agreed)
    {
      LinkDerived(h, EpochAt(p, b.top, q), b.live[q]);
    }
    forall k | 0 <= k < |b.skipped|
      ensures DerivedFrom(s.skipped[k].messageKey.key, h.agreed)
    {
      LinkDerived(h, b.skipped[k].0, b.skipped[k].1);
    }
  }

  lemma AgreesDerived(h: History, p: Party, side: Side)
    requires Agrees(h, p, side)
    ensures Bounded(side.state) && AllDerived(side.state, h.agreed)
  {
    hide Fits, RatchetOf, AllDerived, Spent, SentAs;
    RatchetDerived(h, p, side.book);
  }

  lemma ForgeryKeeps(w: World, p: Party, m: Message, room: nat)
    requires Inv(w) && Typed(w) && Forged(w.history.agreed, m)
    ensures Decrypt(w.At(p).state, m, room) == (w.At(p).state, Decrypt(w.At(p).state, m, room).1)
    ensures Decrypt(w.At(p).state, m, room).1.Err?
    ensures Step(w, Deliver(p, m, room)) == w
  {
    hide Inv, Decrypt, Forged, AllDerived;
    InvSide(w, p);
    AgreesDerived(w.history, p, w.At(p));
    ForgedIsRefused(w.At(p).state, m, room, w.history.agreed);
  }

  // ------------------------------------------------------------------
  // All runs
  // ------------------------------------------------------------------

  lemma StepKeeps(w: World, ev: Event)
    requires Inv(w) && Ready(w, ev)
    ensures Inv(Step(w, ev))
  {
    hide Inv, Step;
    match ev
    case Send(p, plaintext, random) => SendKeeps(w, p, plaintext, random);
    case Deliver(p, m, room) =>
      if m in w.network {
        DeliverKeeps(w, p, m, room);
      } else {
        ForgeryKeeps(w, p, m, room);
      }
  }

  lemma {:induction false} RunKeeps(w: World, run: seq<Event>)
    requires Inv(w) && Typed(w) && Possible(w, run)
    ensures Inv(After(w, run))
    decreases |run|
  {
    hide Inv, Ready, Step;
    if run == [] {
    } else {
      StepKeeps(w, run[0]);
      RunKeeps(Step(w, run[0]), run[1..]);
    }
  }

  /** A world that some run reaches from the start of a session. */
  ghost predicate Reachable(w: World) {
    exists agreed, random, run :: Possible(Start(agreed, random), run) && w == After(Start(agreed, random), run)
  }

  lemma ReachableHolds(w: World)
    requires Reachable(w)
    ensures Inv(w) && Typed(w)
  {
    hide Inv, Possible, After, Start;
    var agreed, random, run :| Possible(Start(agreed, random), run) && w == After(Start(agreed, random), run);
    StartHolds(agreed, random);
    RunKeeps(Start(agreed, random), run);
    InvTyped(w);
  }

  /** The root keys agree, or exactly one party is one key derivation ahead:
      the one that opened a sender chain the other has not read yet. */
  lemma RootKeysAgree(w: World)
    requires Typed(w) && Reachable(w)
    ensures w.alice.state.rootKey == w.bob.state.rootKey
      || exists p: Party :: OneAhead(w.At(p).state, w.At(1 - p).state)
  {
    hide Inv, Typed, Reachable, RootAt, CreateChainKey, OneAhead;
    ReachableHolds(w);
    InvTops(w);
    var n := |w.history.keys| - 1;
    var p: Party := n % 2;
    SideKeys(w, p);
    SideKeys(w, 1 - p);
    if w.At(1 - p).book.top == n - 1 {
      UnreadIsAhead(w, p, n);
    }
  }

  lemma UnreadIsAhead(w: World, p: Party, n: nat)
    requires Inv(w) && 0 < n == |w.history.keys| - 1 && n % 2 == p
    requires w.At(p).book.top == n && w.At(1 - p).book.top == n - 1
    ensures OneAhead(w.At(p).state, w.At(1 - p).state)
  {
    hide Inv, RootAt, CreateChainKey;
    SideKeys(w, p);
    SideKeys(w, 1 - p);
    NextEpochKeys(w.history, n - 1);
    UnreadChain(w, p, n);
    if RootAt(w.history, n) == RootAt(w.history, n - 1) {
      RootsDiffer(w.history, n, n - 1);
    }
  }

  lemma SideKeys(w: World, p: Party)
    requires Inv(w)
    ensures var s, top := w.At(p).state, w.At(p).book.top;
      && top < |w.history.keys|
      && s.rootKey == RootAt(w.history, top)
      && (if top % 2 == p then |s.senderChain| == 1 && s.senderChain[0].ratchetKey == GenerateKey(w.history.keys[top])
          else s.senderChain == [])
  {
  }

  lemma AgreesKeys(h: History, p: Party, side: Side)
    requires Agrees(h, p, side)
    ensures var s, top := side.state, side.book.top;
      && top < |h.keys|
      && s.rootKey == RootAt(h, top)
      && (if top % 2 == p then |s.senderChain| == 1 && s.senderChain[0].ratchetKey == GenerateKey(h.keys[top])
          else s.senderChain == [])
  {
  }

  /** No receiver chain carries the ratchet key of an epoch the party has not read. */
  lemma UnreadChain(w: World, p: Party, n: nat)
    requires Inv(w) && n < |w.history.keys| && w.At(1 - p).book.top == n - 1
    ensures forall c :: c in w.At(1 - p).state.receiverChains ==> c.ratchetKey != PublicKey(w.history.keys[n])
  {
  }

  ghost predicate OneAhead(s: State, t: State) {
    && |s.senderChain| == 1 && |t.senderChain| == 1
    && s.rootKey != t.rootKey
    && s.rootKey == CreateChainKey(t.rootKey, t.senderChain[0].ratchetKey, s.senderChain[0].ratchetKey.publicKey).0
    && (forall c :: c in t.receiverChains ==> c.ratchetKey != s.senderChain[0].ratchetKey.publicKey)
  }

  /** A receiver chain at index n holds the sender's chain key advanced n times:
      carried on to the sender's index it is the sender's chain key. */
  lemma ReceiverFollowsSender(w: World, p: Party, q: nat)
    requires Typed(w) && Reachable(w) && q < |w.At(p).state.receiverChains| && w.At(1 - p).state.senderChain != []
    requires w.At(p).state.receiverChains[q].ratchetKey == w.At(1 - p).state.senderChain[0].ratchetKey.publicKey
    ensures var c, s := w.At(p).state.receiverChains[q].chainKey, w.At(1 - p).state.senderChain[0].chainKey;
      c.index <= s.index && Ratchet.At(c, s.index) == s
  {
    hide Reachable, Inv, Agrees;
    ReachableHolds(w);
    InvSide(w, p);
    InvSide(w, 1 - p);
    ChainFollowsSender(w.history, p, w.At(p), w.At(1 - p), q);
  }

  lemma ChainFollowsSender(h: History, p: Party, ours: Side, theirs: Side, q: nat)
    requires Agrees(h, p, ours) && Agrees(h, 1 - p, theirs)
    requires q < |ours.state.receiverChains| && theirs.state.senderChain != []
    requires ours.state.receiverChains[q].ratchetKey == theirs.state.senderChain[0].ratchetKey.publicKey
    ensures var c, s := ours.state.receiverChains[q].chainKey, theirs.state.senderChain[0].chainKey;
      c.index <= s.index && Ratchet.At(c, s.index) == s
  {
    hide Kept, Spent, SentAs, RootAt, SkippedList, LinkAt, Ratchet.At;
    var b := ours.book;
    LiveInRange(p, b, q);
    var e := EpochAt(p, b.top, q);
    assert e == theirs.book.top;
    LinkAdvances(h, e, b.live[q], |h.log[e]|);
    LinkIndex(h, e, b.live[q]);
    LinkIndex(h, e, |h.log[e]|);
  }

  /** A chain of epoch e at index i holds the first key of that epoch advanced i times. */
  ghost predicate ChainOfEpoch(h: History, p: Party, c: ReceiverChain, e: nat) {
    && e < |h.keys| == |h.log| && e % 2 != p
    && c.ratchetKey == PublicKey(h.keys[e])
    && c.chainKey.index <= |h.log[e]|
    && c.chainKey.key == Linked(ChainAt(h, e), c.chainKey.index)
  }

  /** Every live receiver chain, also one the peer has long stopped sending on, is the peer's
      chain of one epoch, advanced no further than the peer advanced it. */
  lemma ReceiverChainsInHistory(w: World, p: Party, q: nat)
    requires Typed(w) && Reachable(w) && q < |w.At(p).state.receiverChains|
    ensures exists e :: ChainOfEpoch(w.history, p, w.At(p).state.receiverChains[q], e)
  {
    hide Reachable, Inv, Agrees, ChainOfEpoch;
    ReachableHolds(w);
    InvSide(w, p);
    ChainInHistory(w.history, p, w.At(p), q);
  }

  lemma ChainInHistory(h: History, p: Party, side: Side, q: nat)
    requires Agrees(h, p, side) && q < |side.state.receiverChains|
    ensures exists e :: ChainOfEpoch(h, p, side.state.receiverChains[q], e)
  {
    hide Kept, Spent, SentAs, RootAt, ChainAt, SkippedList;
    LiveInRange(p, side.book, q);
    assert ChainOfEpoch(h, p, side.state.receiverChains[q], EpochAt(p, side.book.top, q));
  }

  lemma LinkIndex(h: History, e: nat, i: uint32)
    requires e < |h.keys|
    ensures LinkAt(h, e, i).index == i
  {
  }

  /** An honest message is either refused without any change, or decrypts to
      the plaintext that was sent and had not been accepted before. */
  lemma DeliveredAsSent(w: World, p: Party, m: Message, room: nat)
    requires Typed(w) && Reachable(w) && m in w.network
    ensures var (s', r) := Decrypt(w.At(p).state, m, room);
      && (r.Err? ==> s' == w.At(p).state)
      && (r.Ok? ==> m.ciphertext.Some? && r.value == m.ciphertext.value.plaintext && m !in w.At(p).taken)
  {
    ReachableHolds(w);
    InvSide(w, p);
    InvNetwork(w, m);
    hide Inv, Agrees, Decrypt, SlotOf, SentAs, Accepts, Received;
    TakeAgrees(w.history, p, w.At(p), m, room);
    if m in w.At(p).taken {
      TakenIsSpent(w.history, p, w.At(p), m);
    }
    SentPlaintext(w.history, m);
  }

  lemma InvNetwork(w: World, m: Message)
    requires Inv(w) && m in w.network
    ensures SentAs(w.history, m, SlotOf(w.history, m))
  {
  }

  lemma TakenIsSpent(h: History, p: Party, side: Side, m: Message)
    requires Agrees(h, p, side) && m in side.taken
    ensures !Accepts(p, side.book, SlotOf(h, m).0, SlotOf(h, m).1)
  {
  }

  lemma SentPlaintext(h: History, m: Message)
    requires SentAs(h, m, SlotOf(h, m))
    ensures var x := SlotOf(h, m); m.ciphertext.Some? && m.ciphertext.value.plaintext == h.log[x.0][x.1]
  {
  }

  /** A message once accepted is refused ever after, however the run goes on. */
  lemma AtMostOnce(w: World, p: Party, m: Message, room: nat, run: seq<Event>)
    requires Typed(w) && Reachable(w) && m in w.network && Decrypt(w.At(p).state, m, room).1.Ok?
    requires Ready(w, Deliver(p, m, room)) && Possible(Step(w, Deliver(p, m, room)), run)
    ensures forall room' :: Decrypt(After(Step(w, Deliver(p, m, room)), run).At(p).state, m, room').1.Err?
  {
    ReachableHolds(w);
    var w1 := Step(w, Deliver(p, m, room));
    hide Inv, Decrypt, Step;
    assert m in w1.At(p).taken by { DeliveryIsRecorded(w, p, m, room); }
    StepKeeps(w, Deliver(p, m, room));
    RunKeeps(w1, run);
    TakenGrows(w1, run, p);
    var w2 := After(w1, run);
    InvTyped(w2);
    forall room' : nat
      ensures Decrypt(w2.At(p).state, m, room').1.Err?
    {
      TakenIsRefused(w2, p, m, room');
    }
  }

  lemma DeliveryIsRecorded(w: World, p: Party, m: Message, room: nat)
    requires Ready(w, Deliver(p, m, room)) && Decrypt(w.At(p).state, m, room).1.Ok?
    ensures m in Step(w, Deliver(p, m, room)).At(p).taken
  {
  }

  lemma TakenIsRefused(w: World, p: Party, m: Message, room: nat)
    requires Inv(w) && Typed(w) && m in w.At(p).taken
    ensures Decrypt(w.At(p).state, m, room).1.Err?
  {
    InvSide(w, p);
    hide Inv;
    TakenIsSpent(w.history, p, w.At(p), m);
    TakenWasSent(w.history, p, w.At(p), m);
    TakeAgrees(w.history, p, w.At(p), m, room);
    hide Agrees, SentAs, Decrypt, Accepts, SlotOf, Received;
  }

  lemma InvSide(w: World, p: Party)
    requires Inv(w)
    ensures Agrees(w.history, p, w.At(p))
  {
    hide Agrees, AllSent, Sound, Tops;
  }

  lemma InvTops(w: World)
    requires Inv(w)
    ensures Tops(|w.history.keys| - 1, w.alice.book.top, w.bob.book.top)
  {
  }

  lemma TakenWasSent(h: History, p: Party, side: Side, m: Message)
    requires Agrees(h, p, side) && m in side.taken
    ensures SentAs(h, m, SlotOf(h, m))
  {
  }

  lemma {:induction false} TakenGrows(w: World, run: seq<Event>, p: Party)
    requires Typed(w) && Possible(w, run)
    ensures w.At(p).taken <= After(w, run).At(p).taken
    decreases |run|
  {
    hide Ready;
    if run == [] {
    } else {
      TakenGrowsStep(w, run[0], p);
      TakenGrows(Step(w, run[0]), run[1..], p);
    }
  }

  lemma TakenGrowsStep(w: World, ev: Event, p: Party)
    requires Ready(w, ev)
    ensures w.At(p).taken <= Step(w, ev).At(p).taken
  {
  }
}
