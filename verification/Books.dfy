// What the double ratchet amounts to once the cryptography is taken away. The
// sender chains of both parties are numbered in the order they are opened:
// epoch 0 is Alice's first chain, and whoever is not the owner of epoch e
// opens epoch e + 1. A party's book records the newest epoch whose root key it
// holds, how far it has read each receiver chain it still keeps, and which
// passed-over messages it can still open.
module Books {
  import opened List
  import R = Ratchet

  /** Alice is 0, Bob is 1; epoch e belongs to party e % 2. */
  type Party = p: int | 0 <= p < 2

  /** A message: its epoch and its index on that chain. */
  type Slot = (nat, nat)

  datatype Book = Book(top: nat, live: seq<nat>, skipped: seq<Slot>)

  /** The newest epoch of the other party that this one has read (-1 for none). */
  function Newest(p: Party, top: nat): (e: int)
    ensures -1 <= e <= top
  {
    if top % 2 == p then top - 1 else top
  }

  /** Position of epoch e in the receiver chain list, were it long enough. */
  function Place(p: Party, top: nat, e: nat): (q: nat)
    requires e % 2 != p && e <= Newest(p, top)
    ensures Newest(p, top) - 2 * q == e
  {
    (Newest(p, top) - e) / 2
  }

  /** The epoch of receiver chain q. */
  function EpochAt(p: Party, top: nat, q: nat): (e: nat)
    requires 2 * q <= Newest(p, top)
    ensures e % 2 != p && e <= Newest(p, top) && Place(p, top, e) == q
  {
    Newest(p, top) - 2 * q
  }

  predicate Read(p: Party, b: Book, e: nat) {
    e % 2 != p && e <= Newest(p, b.top)
  }

  predicate Live(p: Party, b: Book, e: nat) {
    Read(p, b, e) && Place(p, b.top, e) < |b.live|
  }

  /** Messages `from` .. `to - 1` of epoch e pushed in front, oldest first. */
  function Store(skipped: seq<Slot>, e: nat, from: nat, to: nat): (t: seq<Slot>)
    requires |skipped| <= R.MAX_SKIPPED_MESSAGE_KEYS
    ensures |t| <= R.MAX_SKIPPED_MESSAGE_KEYS
    decreases if from < to then to - from else 0
  {
    if from >= to then skipped else Store(PushFront(skipped, R.MAX_SKIPPED_MESSAGE_KEYS, (e, from)), e, from + 1, to)
  }

  function Find(skipped: seq<Slot>, x: Slot): (k: nat)
    ensures k <= |skipped| && (k < |skipped| ==> skipped[k] == x)
    ensures forall j :: 0 <= j < k ==> skipped[j] != x
  {
    if skipped == [] || skipped[0] == x then 0 else 1 + Find(skipped[1..], x)
  }

  /** Whether the receiver takes message i of epoch e. */
  predicate Accepts(p: Party, b: Book, e: nat, i: nat) {
    if Live(p, b, e) then
      var index := b.live[Place(p, b.top, e)];
      if i < index then (e, i) in b.skipped else i - index <= R.MAX_MESSAGE_GAP
    else
      e == b.top + 1 && e % 2 != p && i <= R.MAX_MESSAGE_GAP
  }

  predicate Small(b: Book) {
    |b.live| <= R.MAX_RECEIVER_CHAINS && |b.skipped| <= R.MAX_SKIPPED_MESSAGE_KEYS
  }

  /** A passed-over message is opened late. */
  function TakeStored(b: Book, x: Slot): (b': Book)
    requires Small(b) && x in b.skipped
    ensures Small(b')
  {
    b.(skipped := Erased(b.skipped, Find(b.skipped, x)))
  }

  /** A kept chain moves past message i, storing what it passes over. */
  function TakeAhead(p: Party, b: Book, e: nat, i: nat): (b': Book)
    requires Small(b) && Live(p, b, e)
    ensures Small(b')
  {
    var q := Place(p, b.top, e);
    b.(live := b.live[q := i + 1], skipped := Store(b.skipped, e, b.live[q], i))
  }

  /** A new chain opens with message i; the oldest of five kept chains is dropped. */
  function TakeNew(b: Book, e: nat, i: nat): (b': Book)
    requires Small(b)
    ensures Small(b')
  {
    Book(e, PushFront(b.live, R.MAX_RECEIVER_CHAINS, i + 1), Store(b.skipped, e, 0, i))
  }

  /** The book after taking message i of epoch e. */
  function Take(p: Party, b: Book, e: nat, i: nat): (b': Book)
    requires Small(b) && Accepts(p, b, e, i)
    ensures Small(b')
  {
    if !Live(p, b, e) then TakeNew(b, e, i)
    else if i < b.live[Place(p, b.top, e)] then TakeStored(b, (e, i))
    else TakeAhead(p, b, e, i)
  }

  // ------------------------------------------------------------------
  // What a book keeps
  // ------------------------------------------------------------------

  /** Number of epochs of the other party up to `top`. */
  function ReadCount(p: Party, top: nat): (n: nat)
  {
    (Newest(p, top) + 2) / 2
  }

  /** A slot that may be stored: read, and already passed on its chain. */
  predicate Passed(p: Party, b: Book, x: Slot) {
    Read(p, b, x.0) && (Live(p, b, x.0) ==> x.1 < b.live[Place(p, b.top, x.0)])
  }

  ghost predicate Distinct<T>(s: seq<T>) {
    forall j, k :: 0 <= j < k < |s| ==> s[j] != s[k]
  }

  ghost predicate Kept(p: Party, b: Book) {
    && |b.live| == (if ReadCount(p, b.top) < R.MAX_RECEIVER_CHAINS then ReadCount(p, b.top) else R.MAX_RECEIVER_CHAINS)
    && |b.skipped| <= R.MAX_SKIPPED_MESSAGE_KEYS
    && Distinct(b.skipped)
    && forall x :: x in b.skipped ==> Passed(p, b, x)
  }

  lemma LiveInRange(p: Party, b: Book, q: nat)
    requires Kept(p, b) && q < |b.live|
    ensures 2 * q <= Newest(p, b.top)
  {
  }

  lemma {:induction false} StoreMembers(skipped: seq<Slot>, e: nat, from: nat, to: nat, x: Slot)
    requires |skipped| <= R.MAX_SKIPPED_MESSAGE_KEYS && x in Store(skipped, e, from, to)
    ensures x in skipped || (x.0 == e && from <= x.1 < to)
    decreases if from < to then to - from else 0
  {
    if from >= to {
    } else {
      StoreMembers(PushFront(skipped, R.MAX_SKIPPED_MESSAGE_KEYS, (e, from)), e, from + 1, to, x);
    }
  }

  lemma {:induction false} StoreDistinct(skipped: seq<Slot>, e: nat, from: nat, to: nat)
    requires |skipped| <= R.MAX_SKIPPED_MESSAGE_KEYS && Distinct(skipped)
    requires forall x :: x in skipped && x.0 == e ==> x.1 < from
    ensures Distinct(Store(skipped, e, from, to))
    decreases if from < to then to - from else 0
  {
    if from >= to {
    } else {
      StoreDistinct(PushFront(skipped, R.MAX_SKIPPED_MESSAGE_KEYS, (e, from)), e, from + 1, to);
    }
  }

  lemma ErasedMembers<T>(s: seq<T>, k: nat, x: T)
    requires k < |s| && Distinct(s)
    ensures x in Erased(s, k) <==> x in s && x != s[k]
    ensures Distinct(Erased(s, k))
  {
    var t := Erased(s, k);
    if x in s && x != s[k] {
      var j :| 0 <= j < |s| && s[j] == x;
      assert x == t[if j < k then j else j - 1];
    }
  }

  lemma TakeStoredKeeps(p: Party, b: Book, y: Slot)
    requires Kept(p, b) && y in b.skipped
    ensures Kept(p, TakeStored(b, y))
  {
    var b' := TakeStored(b, y);
    forall x | x in b'.skipped
      ensures Passed(p, b', x)
    {
      ErasedMembers(b.skipped, Find(b.skipped, y), x);
    }
    ErasedMembers(b.skipped, Find(b.skipped, y), y);
  }

  lemma TakeAheadKeeps(p: Party, b: Book, e: nat, i: nat)
    requires Kept(p, b) && Live(p, b, e) && b.live[Place(p, b.top, e)] <= i
    ensures Kept(p, TakeAhead(p, b, e, i))
  {
    var q := Place(p, b.top, e);
    var b' := TakeAhead(p, b, e, i);
    forall x | x in b.skipped && x.0 == e
      ensures x.1 < b.live[q]
    {
      assert Passed(p, b, x);
    }
    StoreDistinct(b.skipped, e, b.live[q], i);
    forall x | x in b'.skipped
      ensures Passed(p, b', x)
    {
      StoreMembers(b.skipped, e, b.live[q], i, x);
      if x in b.skipped {
        assert Passed(p, b, x);
      }
    }
  }

  lemma TakeNewKeeps(p: Party, b: Book, e: nat, i: nat)
    requires Kept(p, b) && e == b.top + 1 && e % 2 != p
    ensures Kept(p, TakeNew(b, e, i))
  {
    var b' := TakeNew(b, e, i);
    assert Newest(p, e) == e && Newest(p, b.top) == e - 2;
    forall x | x in b.skipped
      ensures x.0 != e
    {
      assert Passed(p, b, x);
    }
    StoreDistinct(b.skipped, e, 0, i);
    forall x | x in b'.skipped
      ensures Passed(p, b', x)
    {
      StoreMembers(b.skipped, e, 0, i, x);
      if x in b.skipped {
        assert Passed(p, b, x);
        assert Place(p, e, x.0) == Place(p, b.top, x.0) + 1;
      }
    }
  }

  lemma TakeKeeps(p: Party, b: Book, e: nat, i: nat)
    requires Kept(p, b) && Accepts(p, b, e, i)
    ensures Kept(p, Take(p, b, e, i))
  {
    if !Live(p, b, e) {
      TakeNewKeeps(p, b, e, i);
    } else if i < b.live[Place(p, b.top, e)] {
      TakeStoredKeeps(p, b, (e, i));
    } else {
      TakeAheadKeeps(p, b, e, i);
    }
  }

  /** Opening our own chain for the next epoch. */
  lemma OpenKeeps(p: Party, b: Book)
    requires Kept(p, b) && b.top % 2 != p
    ensures Kept(p, b.(top := b.top + 1))
  {
    var b' := b.(top := b.top + 1);
    assert Newest(p, b'.top) == Newest(p, b.top);
    forall x | x in b'.skipped
      ensures Passed(p, b', x)
    {
      assert Passed(p, b, x);
    }
  }

  // ------------------------------------------------------------------
  // At most once
  // ------------------------------------------------------------------

  /** Nothing in `taken` can be taken again. */
  ghost predicate Spent(p: Party, b: Book, taken: set<Slot>) {
    forall x :: x in taken ==> Passed(p, b, x) && x !in b.skipped
  }

  lemma TakeSpends(p: Party, b: Book, taken: set<Slot>, e: nat, i: nat)
    requires Kept(p, b) && Accepts(p, b, e, i) && Spent(p, b, taken)
    ensures Spent(p, Take(p, b, e, i), taken + {(e, i)})
  {
    var b' := Take(p, b, e, i);
    forall x | x in taken + {(e, i)}
      ensures Passed(p, b', x) && x !in b'.skipped
    {
      assert x in taken ==> Passed(p, b, x) && x !in b.skipped;
      assert x in b.skipped ==> Passed(p, b, x);
      if Live(p, b, e) {
        var q := Place(p, b.top, e);
        if i < b.live[q] {
          ErasedMembers(b.skipped, Find(b.skipped, (e, i)), x);
        } else if x in b'.skipped {
          StoreMembers(b.skipped, e, b.live[q], i, x);
        }
      } else {
        if Read(p, b, x.0) {
          assert Place(p, e, x.0) == Place(p, b.top, x.0) + 1;
        }
        if x in b'.skipped {
          StoreMembers(b.skipped, e, 0, i, x);
        }
      }
    }
  }

  lemma OpenSpends(p: Party, b: Book, taken: set<Slot>)
    requires b.top % 2 != p && Spent(p, b, taken)
    ensures Spent(p, b.(top := b.top + 1), taken)
  {
    var b' := b.(top := b.top + 1);
    assert Newest(p, b'.top) == Newest(p, b.top);
    forall x | x in taken
      ensures Passed(p, b', x) && x !in b'.skipped
    {
      assert Passed(p, b, x);
    }
  }
}
