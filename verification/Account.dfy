// An account's one-time and fallback keys. One-time keys are kept newest first
// in a list of one hundred; all keys of an account are numbered by one counter.
module Account {
  import opened Common
  import opened Bytes
  import opened List

  const MAX_ONE_TIME_KEYS: nat := 100

  /** A key with its number; K is the type of key pairs. */
  datatype OneTimeKey<+K> = OneTimeKey(id: uint32, published: bool, key: K)

  /** The key lists of an account: one-time keys newest first, the current fallback key before the previous one. */
  datatype Keys<+K> = Keys(oneTime: seq<OneTimeKey<K>>, fallback: seq<OneTimeKey<K>>, nextId: uint32)

  predicate Bounded<K>(a: Keys<K>) {
    |a.oneTime| <= MAX_ONE_TIME_KEYS && |a.fallback| <= 2
  }

  function Fresh<K>(): (a: Keys<K>) {
    Keys([], [], 0)
  }

  // ------------------------------------------------------------------
  // The operations
  // ------------------------------------------------------------------

  /** The counter is an unsigned 32-bit number. */
  function NextId(id: uint32): (next: uint32) {
    (id + 1) % MODULUS
  }

  /** One more one-time key, under the next number. */
  function WithKey<K>(a: Keys<K>, key: K): (b: Keys<K>)
    requires Bounded(a)
    ensures Bounded(b) && b.nextId == NextId(a.nextId)
  {
    var id := NextId(a.nextId);
    a.(oneTime := PushFront(a.oneTime, MAX_ONE_TIME_KEYS, OneTimeKey(id, false, key)), nextId := id)
  }

  /** `_olm_account_generate_one_time_keys`: each new key goes in front; a full list drops its oldest. */
  function GenerateOneTime<K>(a: Keys<K>, keys: seq<K>): (b: Keys<K>)
    requires Bounded(a)
    ensures Bounded(b) && b.nextId == (a.nextId + |keys|) % MODULUS
    decreases |keys|
  {
    if keys == [] then a else GenerateOneTime(WithKey(a, keys[0]), keys[1..])
  }

  lemma NextKey<K>(a: Keys<K>, keys: seq<K>, i: nat)
    requires Bounded(a) && i < |keys|
    ensures GenerateOneTime(a, keys[i..]) == GenerateOneTime(WithKey(a, keys[i]), keys[i + 1..])
  {
    hide WithKey;
    assert keys[i..][1..] == keys[i + 1..];
  }

  lemma NoMoreKeys<K>(a: Keys<K>)
    requires Bounded(a)
    ensures GenerateOneTime(a, []) == a
  {
  }

  /** `_olm_account_generate_fallback_key`: the current key becomes the previous one. */
  function GenerateFallback<K>(a: Keys<K>, key: K): (b: Keys<K>)
    requires Bounded(a)
    ensures Bounded(b) && b.nextId == NextId(a.nextId)
  {
    var id := NextId(a.nextId);
    a.(fallback := [OneTimeKey(id, false, key)] + (if a.fallback == [] then [] else [a.fallback[0]]), nextId := id)
  }

  function ForgetOldFallback<K>(a: Keys<K>): (b: Keys<K>)
    requires Bounded(a)
    ensures Bounded(b)
  {
    if |a.fallback| < 2 then a else a.(fallback := [a.fallback[0]])
  }

  function Published<K>(list: seq<OneTimeKey<K>>): (r: seq<OneTimeKey<K>>)
    ensures |r| == |list|
  {
    seq(|list|, i requires 0 <= i < |list| => list[i].(published := true))
  }

  /** `_olm_account_mark_keys_as_published`: the previous fallback key keeps its mark. */
  function MarkPublished<K>(a: Keys<K>): (b: Keys<K>)
    requires Bounded(a)
    ensures Bounded(b)
  {
    a.(oneTime := Published(a.oneTime),
       fallback := if a.fallback == [] then [] else a.fallback[0 := a.fallback[0].(published := true)])
  }

  /** Position of the first key whose public half is `p`, or the length. */
  function Find<K, P(==)>(list: seq<OneTimeKey<K>>, publicOf: K -> P, p: P): (i: nat)
    ensures i <= |list| && (i < |list| ==> publicOf(list[i].key) == p)
    ensures forall j :: 0 <= j < i ==> publicOf(list[j].key) != p
  {
    if list == [] || publicOf(list[0].key) == p then 0 else 1 + Find(list[1..], publicOf, p)
  }

  /** The search through at most two keys, spelled out. */
  lemma FindFallback<K, P>(list: seq<OneTimeKey<K>>, publicOf: K -> P, p: P)
    requires |list| <= 2
    ensures Find(list, publicOf, p)
         == if |list| >= 1 && publicOf(list[0].key) == p then 0
            else if |list| >= 2 && publicOf(list[1].key) == p then 1 else |list|
  {
    var i := Find(list, publicOf, p);
    hide Find;
  }

  /** `_olm_account_lookup_key`: one-time keys, then the current fallback key, then the previous one. */
  function Lookup<K, P(==)>(a: Keys<K>, publicOf: K -> P, p: P): (k: Option<OneTimeKey<K>>)
    ensures k.Some? ==> (k.value in a.oneTime || k.value in a.fallback) && publicOf(k.value.key) == p
    ensures k.None? ==> forall i :: 0 <= i < |a.oneTime| ==> publicOf(a.oneTime[i].key) != p
    ensures k.None? ==> forall i :: 0 <= i < |a.fallback| ==> publicOf(a.fallback[i].key) != p
  {
    var i := Find(a.oneTime, publicOf, p);
    if i < |a.oneTime| then Some(a.oneTime[i])
    else
      var j := Find(a.fallback, publicOf, p);
      if j < |a.fallback| then Some(a.fallback[j]) else None
  }

  /** `_olm_account_remove_key`: a fallback key is reported but stays. */
  function Remove<K, P(==)>(a: Keys<K>, publicOf: K -> P, p: P): (b: Keys<K>)
    requires Bounded(a)
    ensures Bounded(b)
  {
    var i := Find(a.oneTime, publicOf, p);
    a.(oneTime := Erased(a.oneTime, i))
  }

  // ------------------------------------------------------------------
  // What every run keeps
  // ------------------------------------------------------------------

  ghost predicate Falling<K>(list: seq<OneTimeKey<K>>) {
    forall i, j :: 0 <= i < j < |list| ==> list[i].id > list[j].id
  }

  ghost predicate Issued<K>(list: seq<OneTimeKey<K>>, nextId: uint32) {
    forall i :: 0 <= i < |list| ==> 1 <= list[i].id <= nextId
  }

  ghost predicate Apart<K>(list: seq<OneTimeKey<K>>, others: seq<OneTimeKey<K>>) {
    forall i, j :: 0 <= i < |list| && 0 <= j < |others| ==> list[i].id != others[j].id
  }

  /** One-time ids fall strictly, all ids come from the counter, and fallback ids are nobody else's. */
  ghost predicate Numbered<K>(a: Keys<K>) {
    && Falling(a.oneTime) && Falling(a.fallback)
    && Issued(a.oneTime, a.nextId) && Issued(a.fallback, a.nextId)
    && Apart(a.oneTime, a.fallback)
  }

  lemma {:induction false} GenerateOneTimeNumbered<K>(a: Keys<K>, keys: seq<K>)
    requires Bounded(a) && Numbered(a) && a.nextId + |keys| < MODULUS
    ensures Numbered(GenerateOneTime(a, keys))
    decreases |keys|
  {
    hide Numbered, WithKey;
    if keys == [] {
    } else {
      PushNumbered(a, keys[0]);
      GenerateOneTimeNumbered(WithKey(a, keys[0]), keys[1..]);
    }
  }

  lemma PushNumbered<K>(a: Keys<K>, key: K)
    requires Bounded(a) && Numbered(a) && a.nextId + 1 < MODULUS
    ensures Numbered(WithKey(a, key))
  {
    hide PushFront, Inserted, Falling, Issued, Apart;
    var x := OneTimeKey(a.nextId + 1, false, key);
    var t := PushFront(a.oneTime, MAX_ONE_TIME_KEYS, x);
    PushedFront(a.oneTime, x, t, a.nextId);
    PushedApart(a.oneTime, x, t, a.fallback, a.nextId);
    IssuedLater(a.fallback, a.nextId);
  }

  lemma PushedFront<K>(list: seq<OneTimeKey<K>>, x: OneTimeKey<K>, t: seq<OneTimeKey<K>>, nextId: uint32)
    requires Falling(list) && Issued(list, nextId) && x.id == nextId + 1
    requires 0 < |t| <= |list| + 1 && t[0] == x && t[1..] == list[..|t| - 1]
    ensures Falling(t) && Issued(t, x.id)
  {
    forall i | 1 <= i < |t|
      ensures t[i] == list[i - 1]
    {
      assert t[i] == t[1..][i - 1];
    }
  }

  lemma PushedApart<K>(list: seq<OneTimeKey<K>>, x: OneTimeKey<K>, t: seq<OneTimeKey<K>>, others: seq<OneTimeKey<K>>,
                       nextId: uint32)
    requires Apart(list, others) && Issued(others, nextId) && x.id == nextId + 1
    requires 0 < |t| <= |list| + 1 && t[0] == x && t[1..] == list[..|t| - 1]
    ensures Apart(t, others)
  {
    forall i | 1 <= i < |t|
      ensures t[i] == list[i - 1]
    {
      assert t[i] == t[1..][i - 1];
    }
  }

  lemma IssuedLater<K>(list: seq<OneTimeKey<K>>, nextId: uint32)
    requires Issued(list, nextId) && nextId < MODULUS - 1
    ensures Issued(list, nextId + 1)
  {
  }

  lemma RemoveNumbered<K, P>(a: Keys<K>, publicOf: K -> P, p: P)
    requires Bounded(a) && Numbered(a)
    ensures Numbered(Remove(a, publicOf, p))
  {
    hide Find, Erased;
    ErasedNumbered(a.oneTime, Find(a.oneTime, publicOf, p), a.fallback, a.nextId);
  }

  lemma ErasedNumbered<K>(list: seq<OneTimeKey<K>>, i: nat, others: seq<OneTimeKey<K>>, nextId: uint32)
    requires Falling(list) && Issued(list, nextId) && Apart(list, others)
    ensures var t := Erased(list, i); Falling(t) && Issued(t, nextId) && Apart(t, others)
  {
    var t := Erased(list, i);
    forall j | 0 <= j < |t|
      ensures t[j] == list[if j < i then j else j + 1]
    {
    }
  }

  datatype Event<K, P> =
    | NewOneTimeKeys(keys: seq<K>)
    | NewFallbackKey(key: K)
    | ForgetOld
    | Publish
    | RemoveKey(p: P)

  /** How many ids an event uses up. */
  function Ids<K, P>(ev: Event<K, P>): (n: nat) {
    if ev.NewOneTimeKeys? then |ev.keys| else if ev.NewFallbackKey? then 1 else 0
  }

  function Step<K, P(==)>(a: Keys<K>, publicOf: K -> P, ev: Event<K, P>): (b: Keys<K>)
    requires Bounded(a)
    ensures Bounded(b) && b.nextId == (a.nextId + Ids(ev)) % MODULUS
  {
    match ev
    case NewOneTimeKeys(keys) => GenerateOneTime(a, keys)
    case NewFallbackKey(key) => GenerateFallback(a, key)
    case ForgetOld => ForgetOldFallback(a)
    case Publish => MarkPublished(a)
    case RemoveKey(p) => Remove(a, publicOf, p)
  }

  function RunIds<K, P>(run: seq<Event<K, P>>): (n: nat) {
    if run == [] then 0 else Ids(run[0]) + RunIds(run[1..])
  }

  function After<K, P(==)>(a: Keys<K>, publicOf: K -> P, run: seq<Event<K, P>>): (b: Keys<K>)
    requires Bounded(a)
    ensures Bounded(b)
    decreases |run|
  {
    if run == [] then a else After(Step(a, publicOf, run[0]), publicOf, run[1..])
  }

  lemma StepNumbered<K, P>(a: Keys<K>, publicOf: K -> P, ev: Event<K, P>)
    requires Bounded(a) && Numbered(a) && a.nextId + Ids(ev) < MODULUS
    ensures Numbered(Step(a, publicOf, ev))
  {
    hide Numbered, GenerateOneTime, GenerateFallback, ForgetOldFallback, MarkPublished, Remove;
    match ev
    case NewOneTimeKeys(keys) => GenerateOneTimeNumbered(a, keys);
    case NewFallbackKey(key) => FallbackNumbered(a, key);
    case ForgetOld => ForgetNumbered(a);
    case Publish => PublishNumbered(a);
    case RemoveKey(p) => RemoveNumbered(a, publicOf, p);
  }

  lemma FallbackNumbered<K>(a: Keys<K>, key: K)
    requires Bounded(a) && Numbered(a) && a.nextId + 1 < MODULUS
    ensures Numbered(GenerateFallback(a, key))
  {
  }

  lemma ForgetNumbered<K>(a: Keys<K>)
    requires Bounded(a) && Numbered(a)
    ensures Numbered(ForgetOldFallback(a))
  {
  }

  lemma PublishNumbered<K>(a: Keys<K>)
    requires Bounded(a) && Numbered(a)
    ensures Numbered(MarkPublished(a))
  {
  }

  /** In every run that uses fewer than 2^32 ids there are never more than one hundred
      one-time keys, their ids fall strictly, and the fallback ids differ from all others. */
  lemma {:induction false} RunNumbered<K, P>(a: Keys<K>, publicOf: K -> P, run: seq<Event<K, P>>)
    requires Bounded(a) && Numbered(a) && a.nextId + RunIds(run) < MODULUS
    ensures Bounded(After(a, publicOf, run)) && Numbered(After(a, publicOf, run))
    decreases |run|
  {
    hide Numbered, Step;
    if run == [] {
    } else {
      StepNumbered(a, publicOf, run[0]);
      RunNumbered(Step(a, publicOf, run[0]), publicOf, run[1..]);
    }
  }

  lemma FreshRuns<K, P>(publicOf: K -> P, run: seq<Event<K, P>>)
    requires RunIds(run) < MODULUS
    ensures Numbered(After(Fresh(), publicOf, run))
  {
    RunNumbered(Fresh(), publicOf, run);
  }

  // ------------------------------------------------------------------
  // The C object
  // ------------------------------------------------------------------

  const CURVE25519_RANDOM_LENGTH: nat := 32

  class OlmAccount<K(0)> {
    var lastError: Option<Error>
    var oneTimeKeys: seq<OneTimeKey<K>>
    var currentFallbackKey: OneTimeKey<K>
    var prevFallbackKey: OneTimeKey<K>
    var numFallbackKeys: nat
    var nextOneTimeKeyId: uint32

    ghost predicate Valid()
      reads this
    {
      numFallbackKeys <= 2 && |oneTimeKeys| <= MAX_ONE_TIME_KEYS
    }

    /** The keys that count: the fallback slots beyond `numFallbackKeys` hold leftovers. */
    ghost function View(): (a: Keys<K>)
      requires Valid()
      reads this
      ensures Bounded(a)
    {
      Keys(oneTimeKeys,
           if numFallbackKeys == 0 then [] else if numFallbackKeys == 1 then [currentFallbackKey]
           else [currentFallbackKey, prevFallbackKey],
           nextOneTimeKeyId)
    }

    constructor ()
      ensures Valid() && View() == Fresh() && lastError == None
    {
      lastError, oneTimeKeys, numFallbackKeys, nextOneTimeKeyId := None, [], 0, 0;
      currentFallbackKey := *;
      prevFallbackKey := *;
    }

    /** `keys` are the key pairs grown from the random bytes. */
    method GenerateOneTimeKeys(keys: seq<K>, randomLength: nat) returns (r: Result<nat>)
      requires Valid()
      modifies this
      ensures Valid()
      ensures r == if randomLength < CURVE25519_RANDOM_LENGTH * |keys| then Err(NotEnoughRandom) else Ok(|keys|)
      ensures View() == if r.Ok? then GenerateOneTime(old(View()), keys) else old(View())
      ensures lastError == if r.Err? then Some(r.error) else old(lastError)
    {
      if randomLength < CURVE25519_RANDOM_LENGTH * |keys| {
        lastError := Some(NotEnoughRandom);
        return Err(NotEnoughRandom);
      }
      hide PushFront, Inserted, GenerateOneTime;
      assert keys[0..] == keys;
      for i := 0 to |keys|
        invariant Valid() && lastError == old(lastError)
        invariant GenerateOneTime(View(), keys[i..]) == GenerateOneTime(old(View()), keys)
      {
        NextKey(View(), keys, i);
        nextOneTimeKeyId := NextId(nextOneTimeKeyId);
        oneTimeKeys := PushFront(oneTimeKeys, MAX_ONE_TIME_KEYS, OneTimeKey(nextOneTimeKeyId, false, keys[i]));
      }
      assert keys[|keys|..] == [];
      NoMoreKeys(View());
      return Ok(|keys|);
    }

    method GenerateFallbackKey(key: K, randomLength: nat) returns (r: Result<nat>)
      requires Valid()
      modifies this
      ensures Valid()
      ensures r == if randomLength < CURVE25519_RANDOM_LENGTH then Err(NotEnoughRandom) else Ok(1)
      ensures View() == if r.Ok? then GenerateFallback(old(View()), key) else old(View())
      ensures lastError == if r.Err? then Some(r.error) else old(lastError)
    {
      if randomLength < CURVE25519_RANDOM_LENGTH {
        lastError := Some(NotEnoughRandom);
        return Err(NotEnoughRandom);
      }
      if numFallbackKeys < 2 {
        numFallbackKeys := numFallbackKeys + 1;
      }
      prevFallbackKey := currentFallbackKey;
      nextOneTimeKeyId := NextId(nextOneTimeKeyId);
      currentFallbackKey := OneTimeKey(nextOneTimeKeyId, false, key);
      return Ok(1);
    }

    method ForgetOldFallbackKey()
      requires Valid()
      modifies this`numFallbackKeys
      ensures Valid() && View() == ForgetOldFallback(old(View()))
    {
      if numFallbackKeys >= 2 {
        numFallbackKeys := 1;
      }
    }

    method MarkOneTimeKeys() returns (count: nat)
      modifies this`oneTimeKeys
      ensures oneTimeKeys == Published(old(oneTimeKeys)) && count == Unpublished(old(oneTimeKeys))
    {
      count := 0;
      for i := 0 to |oneTimeKeys|
        invariant |oneTimeKeys| == |old(oneTimeKeys)|
        invariant forall j :: 0 <= j < i ==> oneTimeKeys[j] == old(oneTimeKeys)[j].(published := true)
        invariant forall j :: i <= j < |oneTimeKeys| ==> oneTimeKeys[j] == old(oneTimeKeys)[j]
        invariant count + Unpublished(old(oneTimeKeys)[i..]) == Unpublished(old(oneTimeKeys))
      {
        if !oneTimeKeys[i].published {
          oneTimeKeys := oneTimeKeys[i := oneTimeKeys[i].(published := true)];
          count := count + 1;
        }
      }
    }

    method MarkKeysAsPublished() returns (count: nat)
      requires Valid()
      modifies this`oneTimeKeys, this`currentFallbackKey
      ensures Valid() && View() == MarkPublished(old(View()))
      ensures count == Unpublished(old(oneTimeKeys))
    {
      hide Published, Unpublished;
      count := MarkOneTimeKeys();
      currentFallbackKey := currentFallbackKey.(published := true);
      assert View().fallback == MarkPublished(old(View())).fallback;
    }

    method LookupKey<P(==)>(publicOf: K -> P, p: P) returns (k: Option<OneTimeKey<K>>)
      requires Valid()
      ensures k == Lookup(View(), publicOf, p)
    {
      var i := 0;
      while i < |oneTimeKeys|
        invariant 0 <= i <= |oneTimeKeys| && Find(oneTimeKeys, publicOf, p) == i + Find(oneTimeKeys[i..], publicOf, p)
      {
        if publicOf(oneTimeKeys[i].key) == p {
          return Some(oneTimeKeys[i]);
        }
        i := i + 1;
      }
      FindFallback(View().fallback, publicOf, p);
      hide Find;
      if numFallbackKeys >= 1 && publicOf(currentFallbackKey.key) == p {
        return Some(currentFallbackKey);
      }
      if numFallbackKeys >= 2 && publicOf(prevFallbackKey.key) == p {
        return Some(prevFallbackKey);
      }
      return None;
    }

    method RemoveKey<P(==)>(publicOf: K -> P, p: P) returns (id: Option<uint32>)
      requires Valid()
      modifies this`oneTimeKeys
      ensures Valid() && View() == Remove(old(View()), publicOf, p)
      ensures id == match Lookup(old(View()), publicOf, p) { case None => None case Some(k) => Some(k.id) }
    {
      var i := 0;
      while i < |oneTimeKeys|
        invariant 0 <= i <= |oneTimeKeys| && oneTimeKeys == old(oneTimeKeys)
        invariant Find(oneTimeKeys, publicOf, p) == i + Find(oneTimeKeys[i..], publicOf, p)
      {
        if publicOf(oneTimeKeys[i].key) == p {
          id := Some(oneTimeKeys[i].id);
          oneTimeKeys := Erased(oneTimeKeys, i);
          return;
        }
        i := i + 1;
      }
      assert Erased(oneTimeKeys, |oneTimeKeys|) == oneTimeKeys;
      FindFallback(View().fallback, publicOf, p);
      hide Find, Erased;
      if numFallbackKeys >= 1 && publicOf(currentFallbackKey.key) == p {
        return Some(currentFallbackKey.id);
      }
      if numFallbackKeys >= 2 && publicOf(prevFallbackKey.key) == p {
        return Some(prevFallbackKey.id);
      }
      return None;
    }
  }

  function Unpublished<K>(list: seq<OneTimeKey<K>>): (n: nat) {
    if list == [] then 0 else (if list[0].published then 0 else 1) + Unpublished(list[1..])
  }
}
