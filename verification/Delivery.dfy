// When messages arrive: exactly which ones a ratchet accepts, and how long a
// passed-over message can still be opened.
module Delivery {
  import opened Common
  import opened Bytes
  import opened Symbols
  import opened List
  import opened Books
  import opened Ratchet
  import opened Protocol
  import opened Runs

  // ------------------------------------------------------------------
  // Passed-over messages in the book
  // ------------------------------------------------------------------

  /** Slot x can be opened late: stored no deeper than k, on a chain no deeper than q. */
  predicate Held(p: Party, b: Book, x: Slot, k: nat, q: nat) {
    && x in b.skipped && Find(b.skipped, x) <= k < MAX_SKIPPED_MESSAGE_KEYS
    && Live(p, b, x.0) && Place(p, b.top, x.0) <= q < MAX_RECEIVER_CHAINS
  }

  lemma {:induction false} FindAt(s: seq<Slot>, x: Slot, k: nat)
    requires k < |s| && s[k] == x
    ensures Find(s, x) <= k && x in s
  {
  }

  lemma PushFind(s: seq<Slot>, x: Slot, y: Slot)
    requires |s| <= MAX_SKIPPED_MESSAGE_KEYS && x in s && Find(s, x) + 1 < MAX_SKIPPED_MESSAGE_KEYS
    ensures var t := PushFront(s, MAX_SKIPPED_MESSAGE_KEYS, y); x in t && Find(t, x) <= Find(s, x) + 1
  {
    var k, t := Find(s, x), PushFront(s, MAX_SKIPPED_MESSAGE_KEYS, y);
    FindIn(s, x);
    hide PushFront, Inserted;
    assert t[1..][k] == x;
    FindAt(t, x, k + 1);
  }

  lemma {:induction false} StoreFind(skipped: seq<Slot>, e: nat, from: nat, to: nat, x: Slot)
    requires |skipped| <= MAX_SKIPPED_MESSAGE_KEYS && x in skipped && from <= to
    requires Find(skipped, x) + (to - from) < MAX_SKIPPED_MESSAGE_KEYS
    ensures x in Store(skipped, e, from, to)
    ensures Find(Store(skipped, e, from, to), x) <= Find(skipped, x) + (to - from)
    decreases if from < to then to - from else 0
  {
    hide PushFront, Inserted, Find;
    if from >= to {
    } else {
      PushFind(skipped, x, (e, from));
      StoreFind(PushFront(skipped, MAX_SKIPPED_MESSAGE_KEYS, (e, from)), e, from + 1, to, x);
    }
  }

  lemma {:induction false} FindIn(s: seq<Slot>, x: Slot)
    requires x in s
    ensures Find(s, x) < |s|
  {
  }

  lemma ErasedFind(s: seq<Slot>, j: nat, x: Slot)
    requires j < |s| && x in s && x != s[j]
    ensures var t := Erased(s, j); x in t && Find(t, x) <= Find(s, x)
  {
    FindIn(s, x);
    var k := Find(s, x);
    FindAt(Erased(s, j), x, if k < j then k else k - 1);
  }

  /** How many keys taking message i of epoch e stores. */
  function BookPasses(p: Party, b: Book, e: nat, i: nat): (n: nat) {
    if !Live(p, b, e) then i
    else if i < b.live[Place(p, b.top, e)] then 0
    else i - b.live[Place(p, b.top, e)]
  }

  /** Opening the peer's next epoch moves every kept chain one place back. */
  lemma PlaceShift(p: Party, top: nat, e: nat)
    requires e % 2 != p && e <= Newest(p, top)
    ensures (top + 1) % 2 != p ==> e <= Newest(p, top + 1) && Place(p, top + 1, e) == Place(p, top, e) + 1
  {
  }

  lemma TakeHolds(p: Party, b: Book, e: nat, i: nat, x: Slot, k: nat, q: nat)
    requires Kept(p, b) && Accepts(p, b, e, i) && x != (e, i) && Held(p, b, x, k, q)
    requires k + BookPasses(p, b, e, i) < MAX_SKIPPED_MESSAGE_KEYS
    requires !Live(p, b, e) ==> q + 1 < MAX_RECEIVER_CHAINS
    ensures Held(p, Take(p, b, e, i), x, k + BookPasses(p, b, e, i), if Live(p, b, e) then q else q + 1)
  {
    hide Distinct, Store, Inserted, Find, Newest, Place, PushFront;
    if !Live(p, b, e) {
      StoreFind(b.skipped, e, 0, i, x);
      PlaceShift(p, b.top, x.0);
    } else if i < b.live[Place(p, b.top, e)] {
      FindIn(b.skipped, (e, i));
      ErasedFind(b.skipped, Find(b.skipped, (e, i)), x);
    } else {
      StoreFind(b.skipped, e, b.live[Place(p, b.top, e)], i, x);
    }
  }

  /** The message just passed over is stored that far from the front. */
  lemma {:induction false} StoreNew(skipped: seq<Slot>, e: nat, from: nat, to: nat, j: nat)
    requires |skipped| <= MAX_SKIPPED_MESSAGE_KEYS && from <= j < to && to - 1 - j < MAX_SKIPPED_MESSAGE_KEYS
    ensures (e, j) in Store(skipped, e, from, to)
    ensures Find(Store(skipped, e, from, to), (e, j)) <= to - 1 - j
    decreases if from < to then to - from else 0
  {
    var next := PushFront(skipped, MAX_SKIPPED_MESSAGE_KEYS, (e, from));
    if from == j {
      FindAt(next, (e, j), 0);
      StoreFind(next, e, from + 1, to, (e, j));
    } else {
      StoreNew(next, e, from + 1, to, j);
    }
  }

  // ------------------------------------------------------------------
  // What a delivery does to the lists of a ratchet
  // ------------------------------------------------------------------

  /** Whether accepting m opens a new receiver chain. */
  predicate OpensChain(s: State, m: Message, room: nat)
    requires Bounded(s)
  {
    Decrypt(s, m, room).1.Ok? && FindChain(s.receiverChains, m.ratchetKey.key) == |s.receiverChains|
  }

  /** How many message keys accepting m stores. */
  function Passes(s: State, m: Message, room: nat): (n: nat)
    requires Bounded(s)
  {
    if Decrypt(s, m, room).1.Err? then 0
    else
      var i := FindChain(s.receiverChains, m.ratchetKey.key);
      if i == |s.receiverChains| then m.counter.value
      else if m.counter.value < s.receiverChains[i].chainKey.index then 0
      else m.counter.value - s.receiverChains[i].chainKey.index
  }

  /** No message makes a ratchet store more than 2000 keys. */
  lemma GapBound(s: State, m: Message, room: nat)
    requires Bounded(s)
    ensures Passes(s, m, room) <= MAX_MESSAGE_GAP
  {
  }

  function RunPasses(w: World, p: Party, run: seq<Event>): (n: nat)
    requires Typed(w) && Possible(w, run)
    decreases |run|
  {
    if run == [] then 0
    else
      (if run[0].Deliver? && run[0].receiver == p then Passes(w.At(p).state, run[0].message, run[0].room) else 0)
      + RunPasses(Step(w, run[0]), p, run[1..])
  }

  function RunOpens(w: World, p: Party, run: seq<Event>): (n: nat)
    requires Typed(w) && Possible(w, run)
    decreases |run|
  {
    if run == [] then 0
    else
      (if run[0].Deliver? && run[0].receiver == p && OpensChain(w.At(p).state, run[0].message, run[0].room)
       then 1 else 0)
      + RunOpens(Step(w, run[0]), p, run[1..])
  }

  /** The lists of the ratchet say what the book says. */
  lemma PassesFollows(h: History, p: Party, side: Side, m: Message, room: nat)
    requires Agrees(h, p, side) && SentAs(h, m, SlotOf(h, m)) && Bounded(side.state)
    requires Decrypt(side.state, m, room).1.Ok?
    ensures var x := SlotOf(h, m);
      && Passes(side.state, m, room) == BookPasses(p, side.book, x.0, x.1)
      && (OpensChain(side.state, m, room) <==> !Live(p, side.book, x.0))
  {
    var x, b := SlotOf(h, m), side.book;
    hide Decrypt, Kept, Spent, SkippedList, LinkAt, RootAt, MessageKeyAt, SlotOf;
    FindChainFollows(h, p, b, x.0);
    if Live(p, b, x.0) {
      LinkIndex(h, x.0, b.live[Place(p, b.top, x.0)]);
    }
  }

  // ------------------------------------------------------------------
  // Late messages
  // ------------------------------------------------------------------

  /** The key of m is at position k of the skipped keys, its chain at position q. */
  predicate Stored(s: State, m: Message, k: nat, q: nat) {
    && m.counter.Some? && m.ratchetKey.HasKey?
    && k < |s.skipped| && s.skipped[k].ratchetKey == m.ratchetKey.key
    && s.skipped[k].messageKey.index == m.counter.value
    && q < |s.receiverChains| && s.receiverChains[q].ratchetKey == m.ratchetKey.key
  }

  lemma StoredIsHeld(h: History, p: Party, side: Side, m: Message, k: nat, q: nat)
    requires Agrees(h, p, side) && SentAs(h, m, SlotOf(h, m)) && Stored(side.state, m, k, q)
    ensures Held(p, side.book, SlotOf(h, m), k, q)
  {
  }

  lemma KeyOfMessage(h: History, x: Slot)
    requires Sound(h) && Sent(h, x)
    ensures MessageAt(h, x).ratchetKey == HasKey(PublicKey(h.keys[x.0])) && MessageAt(h, x).counter == Some(x.1)
  {
  }

  lemma HeldOpens(h: History, p: Party, side: Side, m: Message, k: nat, q: nat, room: nat)
    requires Agrees(h, p, side) && SentAs(h, m, SlotOf(h, m)) && Bounded(side.state)
    requires Held(p, side.book, SlotOf(h, m), k, q)
    requires m.ciphertext.Some? && m.ciphertext.value.Length() <= room
    ensures Decrypt(side.state, m, room).1 == Ok(m.ciphertext.value.plaintext)
  {
    hide Fits, RatchetOf, Decrypt, MessageAt, SlotOf, Take, Spent, Sound, Find, Held, Accepts;
    var x := SlotOf(h, m);
    FitsKept(h, p, side.book);
    HeldIsAccepted(p, side.book, x, k, q);
    DecryptFollowsBook(h, p, side.book, x, room);
    SentPlaintext(h, m);
  }

  lemma HeldIsAccepted(p: Party, b: Book, x: Slot, k: nat, q: nat)
    requires Kept(p, b) && Held(p, b, x, k, q)
    ensures Accepts(p, b, x.0, x.1)
  {
  }

  lemma SendBook(w: World, p: Party, ev: Event)
    requires Ready(w, ev) && ev.Send?
    ensures Step(w, ev).At(p).book
         == if ev.sender == p && w.At(p).state.senderChain == [] then w.At(p).book.(top := w.At(p).book.top + 1)
            else w.At(p).book
  {
  }

  lemma HeldSend(w: World, p: Party, m: Message, ev: Event, k: nat, q: nat)
    requires Inv(w) && ev.Send? && Ready(w, ev) && m in w.network
    requires Held(p, w.At(p).book, SlotOf(w.history, m), k, q)
    ensures Held(p, Step(w, ev).At(p).book, SlotOf(Step(w, ev).history, m), k, q)
  {
    hide Inv, Held, Ready, Step, SlotOf, Agrees;
    SendKeepsSlot(w, m, ev);
    SendBook(w, p, ev);
    InvSide(w, ev.sender);
    SenderParity(w.history, ev.sender, w.At(ev.sender));
    if ev.sender == p && w.At(p).state.senderChain == [] {
      HeldOpening(p, w.At(p).book, SlotOf(w.history, m), k, q);
    }
  }

  lemma SendKeepsSlot(w: World, m: Message, ev: Event)
    requires Inv(w) && ev.Send? && Ready(w, ev) && m in w.network
    ensures SlotOf(Step(w, ev).history, m) == SlotOf(w.history, m)
  {
    hide Inv, Encrypt, Agrees, SlotOf, SentAs, Grows;
    InvNetwork(w, m);
    InvSide(w, ev.sender);
    var side := w.At(ev.sender);
    SenderParity(w.history, ev.sender, side);
    InvSound(w);
    if side.state.senderChain == [] {
      OpenedGrows(w.history, ev.random, ev.plaintext);
    } else {
      SenderIndex(w.history, ev.sender, side);
      LoggedGrows(w.history, side.book.top, ev.plaintext);
    }
    MessageGrows(w.history, Step(w, ev).history, m);
  }

  lemma InvSound(w: World)
    requires Inv(w)
    ensures Sound(w.history)
  {
  }

  lemma SenderIndex(h: History, p: Party, side: Side)
    requires Agrees(h, p, side) && side.state.senderChain != []
    ensures Sound(h) && side.book.top < |h.log|
    ensures side.state.senderChain[0].chainKey.index == |h.log[side.book.top]|
  {
  }

  lemma HeldOpening(p: Party, b: Book, x: Slot, k: nat, q: nat)
    requires Held(p, b, x, k, q) && b.top % 2 != p
    ensures Held(p, b.(top := b.top + 1), x, k, q)
  {
  }

  lemma HeldDelivery(w: World, p: Party, m: Message, later: Message, room: nat, k: nat, q: nat)
    requires Inv(w) && Ready(w, Deliver(p, later, room)) && m in w.network
    requires m !in Step(w, Deliver(p, later, room)).At(p).taken
    requires Held(p, w.At(p).book, SlotOf(w.history, m), k, q)
    requires k + Passes(w.At(p).state, later, room) < MAX_SKIPPED_MESSAGE_KEYS
    requires OpensChain(w.At(p).state, later, room) ==> q + 1 < MAX_RECEIVER_CHAINS
    ensures Held(p, Step(w, Deliver(p, later, room)).At(p).book, SlotOf(w.history, m),
                 k + Passes(w.At(p).state, later, room), if OpensChain(w.At(p).state, later, room) then q + 1 else q)
  {
    hide Inv, Decrypt, Held, SlotOf, Forged, Agrees, Bounded, SentAs;
    var side := w.At(p);
    InvSide(w, p);
    if later !in w.network {
      ForgeryKeeps(w, p, later, room);
    } else if Decrypt(side.state, later, room).1.Ok? {
      InvNetwork(w, m);
      InvNetwork(w, later);
      PassesFollows(w.history, p, side, later, room);
      SlotsDiffer(w.history, m, later);
      TakeAgrees(w.history, p, side, later, room);
      HeldTake(w.history, p, side, SlotOf(w.history, later), SlotOf(w.history, m), k, q);
      SlotInLog(w.history, later);
      hide Take, Accepts, BookPasses, Passes, OpensChain, Live;
    }
  }

  lemma SlotInLog(h: History, m: Message)
    requires SentAs(h, m, SlotOf(h, m))
    ensures SlotOf(h, m).0 < |h.log|
  {
  }

  lemma SlotsDiffer(h: History, m: Message, later: Message)
    requires SentAs(h, m, SlotOf(h, m)) && SentAs(h, later, SlotOf(h, later)) && m != later
    ensures SlotOf(h, m) != SlotOf(h, later)
  {
  }

  lemma HeldTake(h: History, p: Party, side: Side, x: Slot, y: Slot, k: nat, q: nat)
    requires Agrees(h, p, side) && Small(side.book)
    requires Accepts(p, side.book, x.0, x.1) && x != y && Held(p, side.book, y, k, q)
    requires k + BookPasses(p, side.book, x.0, x.1) < MAX_SKIPPED_MESSAGE_KEYS
    requires !Live(p, side.book, x.0) ==> q + 1 < MAX_RECEIVER_CHAINS
    ensures Held(p, Take(p, side.book, x.0, x.1), y, k + BookPasses(p, side.book, x.0, x.1),
                 if Live(p, side.book, x.0) then q else q + 1)
  {
    hide Fits, RatchetOf, Held, Accepts, Take, BookPasses, Live, Spent;
    FitsKept(h, p, side.book);
    TakeHolds(p, side.book, x.0, x.1, y, k, q);
  }

  lemma {:induction false} HeldRun(w: World, p: Party, m: Message, run: seq<Event>, k: nat, q: nat)
    requires Inv(w) && Typed(w) && Possible(w, run) && m in w.network
    requires m !in After(w, run).At(p).taken
    requires Held(p, w.At(p).book, SlotOf(w.history, m), k, q)
    requires k + RunPasses(w, p, run) < MAX_SKIPPED_MESSAGE_KEYS && q + RunOpens(w, p, run) < MAX_RECEIVER_CHAINS
    ensures var w' := After(w, run);
      Held(p, w'.At(p).book, SlotOf(w'.history, m), k + RunPasses(w, p, run), q + RunOpens(w, p, run))
    decreases |run|
  {
    hide Inv, Held, SlotOf, Ready, Step, Passes, OpensChain;
    if run == [] {
    } else {
      var ev, w1 := run[0], Step(w, run[0]);
      StepKeeps(w, ev);
      TakenGrows(w1, run[1..], p);
      StepNetwork(w, ev);
      if ev.Send? {
        HeldSend(w, p, m, ev, k, q);
        HeldRun(w1, p, m, run[1..], k, q);
      } else if ev.receiver == p {
        HeldDelivery(w, p, m, ev.message, ev.room, k, q);
        HeldRun(w1, p, m, run[1..], k + Passes(w.At(p).state, ev.message, ev.room),
                if OpensChain(w.At(p).state, ev.message, ev.room) then q + 1 else q);
      } else {
        OtherDelivery(w, p, ev);
        HeldRun(w1, p, m, run[1..], k, q);
      }
    }
  }

  lemma StepNetwork(w: World, ev: Event)
    requires Ready(w, ev)
    ensures w.network <= Step(w, ev).network
    ensures ev.Deliver? ==> Step(w, ev).history == w.history
  {
  }

  lemma OtherDelivery(w: World, p: Party, ev: Event)
    requires Ready(w, ev) && ev.Deliver? && ev.receiver != p
    ensures Step(w, ev).At(p) == w.At(p) && Step(w, ev).history == w.history
  {
  }

  lemma {:induction false} NetworkGrows(w: World, run: seq<Event>)
    requires Typed(w) && Possible(w, run)
    ensures w.network <= After(w, run).network
    decreases |run|
  {
    hide Ready, Step;
    if run == [] {
    } else {
      StepNetwork(w, run[0]);
      NetworkGrows(Step(w, run[0]), run[1..]);
    }
  }

  /** A passed-over message still opens, to what was sent, however the run goes on:
      while fewer than 40 keys are stored in front of its own and fewer than 5
      receiver chains stand in front of its chain. */
  lemma OutOfOrder(w: World, p: Party, m: Message, k: nat, q: nat, run: seq<Event>, room: nat)
    requires Typed(w) && Reachable(w) && Possible(w, run)
    requires m in w.network && Stored(w.At(p).state, m, k, q)
    requires m !in After(w, run).At(p).taken
    requires k + RunPasses(w, p, run) < MAX_SKIPPED_MESSAGE_KEYS && q + RunOpens(w, p, run) < MAX_RECEIVER_CHAINS
    requires m.ciphertext.Some? && m.ciphertext.value.Length() <= room
    ensures Decrypt(After(w, run).At(p).state, m, room).1 == Ok(m.ciphertext.value.plaintext)
  {
    hide Reachable, Inv, Held, Stored, SlotOf, SentAs, Agrees, Decrypt, Possible, After, RunPasses, RunOpens;
    ReachableHolds(w);
    InvSide(w, p);
    InvNetwork(w, m);
    StoredIsHeld(w.history, p, w.At(p), m, k, q);
    HeldRun(w, p, m, run, k, q);
    RunKeeps(w, run);
    NetworkGrows(w, run);
    var w' := After(w, run);
    InvTyped(w');
    InvSide(w', p);
    InvNetwork(w', m);
    HeldOpens(w'.history, p, w'.At(p), m, k + RunPasses(w, p, run), q + RunOpens(w, p, run), room);
  }

  /** Receiver chain i moved past `counter` holds the key of every index it passed,
      the latest in front, each the message key of that chain at that index. */
  lemma {:induction false} PassedAreStored(skipped: seq<SkippedKey>, key: PublicKey, chain: ChainKey, counter: uint32,
                                           j: uint32)
    requires |skipped| <= MAX_SKIPPED_MESSAGE_KEYS && chain.index <= j < counter
    requires counter - 1 - j < MAX_SKIPPED_MESSAGE_KEYS
    ensures var t := StoreSkipped(skipped, key, chain, counter);
      counter - 1 - j < |t| && t[counter - 1 - j] == SkippedKey(key, CreateMessageKeys(Ratchet.At(chain, j)))
    decreases counter - chain.index
  {
    hide PushFront, Inserted, CreateMessageKeys;
    var stored := SkippedKey(key, CreateMessageKeys(chain));
    var next := PushFront(skipped, MAX_SKIPPED_MESSAGE_KEYS, stored);
    if chain.index == j {
      StoreShifts(next, key, AdvanceChainKey(chain), counter, 0);
    } else {
      LinkedTwice(chain, j);
      PassedAreStored(next, key, AdvanceChainKey(chain), counter, j);
    }
  }

  lemma PushShifts(skipped: seq<SkippedKey>, x: SkippedKey, k: nat)
    requires |skipped| <= MAX_SKIPPED_MESSAGE_KEYS && k < |skipped| && k + 1 < MAX_SKIPPED_MESSAGE_KEYS
    ensures var t := PushFront(skipped, MAX_SKIPPED_MESSAGE_KEYS, x); k + 1 < |t| && t[k + 1] == skipped[k]
  {
  }

  lemma {:induction false} StoreShifts(skipped: seq<SkippedKey>, key: PublicKey, chain: ChainKey, counter: uint32,
                                       k: nat)
    requires |skipped| <= MAX_SKIPPED_MESSAGE_KEYS && k < |skipped| && chain.index <= counter
    requires k + counter - chain.index < MAX_SKIPPED_MESSAGE_KEYS
    ensures var t := StoreSkipped(skipped, key, chain, counter);
      k + counter - chain.index < |t| && t[k + counter - chain.index] == skipped[k]
    decreases counter - chain.index
  {
    hide PushFront, Inserted, CreateMessageKeys;
    if chain.index >= counter {
    } else {
      var stored := SkippedKey(key, CreateMessageKeys(chain));
      var next := PushFront(skipped, MAX_SKIPPED_MESSAGE_KEYS, stored);
      PushShifts(skipped, stored, k);
      StoreShifts(next, key, AdvanceChainKey(chain), counter, k + 1);
    }
  }

  /** The chain that message m extends: a kept one, or the one its ratchet key opens. */
  function ChainFor(s: State, m: Message): (c: ChainKey)
    requires Bounded(s) && m.ratchetKey.HasKey?
    requires FindChain(s.receiverChains, m.ratchetKey.key) == |s.receiverChains| ==> s.senderChain != []
  {
    var i := FindChain(s.receiverChains, m.ratchetKey.key);
    if i < |s.receiverChains| then s.receiverChains[i].chainKey
    else CreateChainKey(s.rootKey, s.senderChain[0].ratchetKey, m.ratchetKey.key).1
  }

  /** Accepting message number n stores the keys of the messages it passes over. */
  lemma AcceptingStores(s: State, m: Message, room: nat, earlier: Message)
    requires Bounded(s) && Decrypt(s, m, room).1.Ok?
    requires earlier.ratchetKey == m.ratchetKey && earlier.counter.Some?
    ensures FindChain(s.receiverChains, m.ratchetKey.key) == |s.receiverChains| ==> s.senderChain != []
    ensures
      var c, j, n := ChainFor(s, m), earlier.counter.value, m.counter.value;
      var i := FindChain(s.receiverChains, m.ratchetKey.key);
      c.index <= j < n && n - 1 - j < MAX_SKIPPED_MESSAGE_KEYS ==>
        && Stored(Decrypt(s, m, room).0, earlier, n - 1 - j, if i < |s.receiverChains| then i else 0)
        && Decrypt(s, m, room).0.skipped[n - 1 - j].messageKey == CreateMessageKeys(Ratchet.At(c, j))
  {
    hide StoreSkipped, Linked, FindSkipped, Inserted;
    var c, j, n := ChainFor(s, m), earlier.counter.value, m.counter.value;
    if c.index <= j < n && n - 1 - j < MAX_SKIPPED_MESSAGE_KEYS {
      PassedAreStored(s.skipped, m.ratchetKey.key, c, n, j);
    }
  }

  // ------------------------------------------------------------------
  // Exactly which messages are accepted
  // ------------------------------------------------------------------

  /** The rule a ratchet follows for a message that was really sent, without any cryptography. */
  ghost predicate Acceptable(w: World, p: Party, m: Message, room: nat) {
    && m.counter.Some? && m.ratchetKey.HasKey? && m.ciphertext.Some?
    && m.ciphertext.value.Length() <= room
    && var s, n, peer := w.At(p).state, m.counter.value, w.At(1 - p).state;
       var i := FindChain(s.receiverChains, m.ratchetKey.key);
       if i < |s.receiverChains| then
         if n < s.receiverChains[i].chainKey.index then exists k :: Stored(s, m, k, i)
         else n - s.receiverChains[i].chainKey.index <= MAX_MESSAGE_GAP
       else
         && s.senderChain != [] && peer.senderChain != []
         && m.ratchetKey.key == peer.senderChain[0].ratchetKey.publicKey
         && n <= MAX_MESSAGE_GAP
  }

  lemma StoredIff(h: History, p: Party, side: Side, m: Message)
    requires Agrees(h, p, side) && SentAs(h, m, SlotOf(h, m)) && Live(p, side.book, SlotOf(h, m).0)
    ensures SlotOf(h, m) in side.book.skipped
        <==> exists k :: Stored(side.state, m, k, Place(p, side.book.top, SlotOf(h, m).0))
  {
    var x, b := SlotOf(h, m), side.book;
    var q := Place(p, b.top, x.0);
    hide Spent, LinkAt, RootAt, MessageKeyAt, SlotOf, Stored, Held;
    if x in b.skipped {
      FindIn(b.skipped, x);
      HeldIsStored(h, p, side, m, Find(b.skipped, x), q);
    }
    if k :| Stored(side.state, m, k, q) {
      StoredIsHeld(h, p, side, m, k, q);
      HeldIsIn(p, b, x, k, q);
    }
  }

  lemma HeldIsIn(p: Party, b: Book, x: Slot, k: nat, q: nat)
    requires Held(p, b, x, k, q)
    ensures x in b.skipped
  {
  }

  lemma HeldIsStored(h: History, p: Party, side: Side, m: Message, k: nat, q: nat)
    requires Agrees(h, p, side) && SentAs(h, m, SlotOf(h, m))
    requires k < |side.book.skipped| && side.book.skipped[k] == SlotOf(h, m)
    requires q < |side.book.live| && Live(p, side.book, SlotOf(h, m).0) && q == Place(p, side.book.top, SlotOf(h, m).0)
    ensures Stored(side.state, m, k, q)
  {
  }

  /** Off the kept chains, the one epoch that can be read next is the peer's current sender chain. */
  lemma NextEpochIsPeers(h: History, p: Party, ours: Side, theirs: Side, e: nat)
    requires Agrees(h, p, ours) && Agrees(h, 1 - p, theirs) && e < |h.keys|
    requires Tops(|h.keys| - 1, if p == 0 then ours.book.top else theirs.book.top,
                                if p == 0 then theirs.book.top else ours.book.top)
    requires !Live(p, ours.book, e)
    ensures (e == ours.book.top + 1 && e % 2 != p)
      <==> (ours.state.senderChain != [] && theirs.state.senderChain != []
            && PublicKey(h.keys[e]) == theirs.state.senderChain[0].ratchetKey.publicKey)
  {
    hide Agrees, Kept;
    AgreesKeys(h, p, ours);
    AgreesKeys(h, 1 - p, theirs);
    KeysDistinct(h, p, ours);
    FrontIsLive(h, p, ours);
  }

  lemma KeysDistinct(h: History, p: Party, side: Side)
    requires Agrees(h, p, side)
    ensures Distinct(h.keys)
  {
  }

  lemma FrontIsLive(h: History, p: Party, side: Side)
    requires Agrees(h, p, side)
    ensures Newest(p, side.book.top) >= 0 ==> Live(p, side.book, Newest(p, side.book.top))
  {
  }

  lemma AcceptsIff(h: History, p: Party, ours: Side, theirs: Side, m: Message)
    requires Agrees(h, p, ours) && Agrees(h, 1 - p, theirs) && SentAs(h, m, SlotOf(h, m))
    requires Tops(|h.keys| - 1, if p == 0 then ours.book.top else theirs.book.top,
                                if p == 0 then theirs.book.top else ours.book.top)
    ensures var x := SlotOf(h, m);
      Accepts(p, ours.book, x.0, x.1) <==>
        var s, i := ours.state, FindChain(ours.state.receiverChains, PublicKey(h.keys[x.0]));
        if i < |s.receiverChains| then
          if x.1 < s.receiverChains[i].chainKey.index then exists k :: Stored(s, m, k, i)
          else x.1 - s.receiverChains[i].chainKey.index <= MAX_MESSAGE_GAP
        else
          && s.senderChain != [] && theirs.state.senderChain != []
          && PublicKey(h.keys[x.0]) == theirs.state.senderChain[0].ratchetKey.publicKey
          && x.1 <= MAX_MESSAGE_GAP
  {
    hide SlotOf, Stored, Tops, Agrees, MessageAt;
    var x, b := SlotOf(h, m), ours.book;
    ChainPlace(h, p, ours, x.0);
    if Live(p, b, x.0) {
      StoredIff(h, p, ours, m);
    } else {
      NextEpochIsPeers(h, p, ours, theirs, x.0);
    }
    hide Live;
  }

  lemma ChainPlace(h: History, p: Party, side: Side, e: nat)
    requires Agrees(h, p, side) && e < |h.keys|
    ensures var i, chains := FindChain(side.state.receiverChains, PublicKey(h.keys[e])), side.state.receiverChains;
      && |chains| == |side.book.live|
      && (if Live(p, side.book, e) then
            i == Place(p, side.book.top, e) && chains[i].chainKey.index == side.book.live[i]
          else i == |chains|)
  {
    hide Kept, Spent, SentAs, RootAt, SkippedList, LinkAt, FindChain;
    FindChainFollows(h, p, side.book, e);
    if Live(p, side.book, e) {
      LinkIndex(h, e, side.book.live[Place(p, side.book.top, e)]);
    }
  }

  /** A message that was really sent is accepted exactly when the rule allows it. */
  lemma AcceptedIff(w: World, p: Party, m: Message, room: nat)
    requires Typed(w) && Reachable(w) && m in w.network
    ensures Decrypt(w.At(p).state, m, room).1.Ok? <==> Acceptable(w, p, m, room)
  {
    hide Reachable, Inv, Agrees, Decrypt, SlotOf, Stored, Tops, Accepts, FindChain, Sound;
    ReachableHolds(w);
    InvSide(w, p);
    InvSide(w, 1 - p);
    InvNetwork(w, m);
    InvTops(w);
    var h := w.history;
    AgreesTyped(h, p, w.At(p));
    KeyOfMessage(h, SlotOf(h, m));
    SentPlaintext(h, m);
    AcceptsIff(h, p, w.At(p), w.At(1 - p), m);
    DecryptsIff(h, p, w.At(p), m, room);
    hide MessageAt;
  }

  lemma DecryptsIff(h: History, p: Party, side: Side, m: Message, room: nat)
    requires Agrees(h, p, side) && SentAs(h, m, SlotOf(h, m)) && Bounded(side.state) && m.ciphertext.Some?
    ensures Decrypt(side.state, m, room).1.Ok?
      <==> m.ciphertext.value.Length() <= room && Accepts(p, side.book, SlotOf(h, m).0, SlotOf(h, m).1)
  {
    hide Fits, RatchetOf, Decrypt, MessageAt, SlotOf, Take, Spent, Sound, Accepts;
    DecryptFollowsBook(h, p, side.book, SlotOf(h, m), room);
  }
}
