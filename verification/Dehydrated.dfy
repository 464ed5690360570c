// Dehydrated devices (MSC3814): an account reduced to its private keys, and
// restored from them under new ids.
module Dehydrated {
  import opened Common
  import opened Bytes
  import opened List
  import opened Account
  import P = Pickle

  type Bytes32 = P.Bytes32

  const DEHYDRATED_DEVICE_PICKLE_VERSION: uint32 := 1

  datatype RawKeyPair = RawKeyPair(publicKey: Bytes32, privateKey: Bytes32)

  /** Curve25519 as far as it matters here: a private key determines its public key. */
  datatype Curve = Curve(publicOf: Bytes32 -> Bytes32)

  function Generate(c: Curve, random: Bytes32): (k: RawKeyPair) {
    RawKeyPair(c.publicOf(random), random)
  }

  /** The part of an account that a dehydrated device carries. */
  datatype Device = Device(identity: RawKeyPair, seed: Bytes32, keys: Keys<RawKeyPair>)

  /** The private keys in id order, oldest first, although the list runs newest first. */
  function Privates(list: seq<OneTimeKey<RawKeyPair>>): (b: Data)
    ensures |b| == 32 * |list|
  {
    if list == [] then [] else Privates(list[1..]) + list[0].key.privateKey
  }

  function FallbackBytes(fallback: seq<OneTimeKey<RawKeyPair>>): (b: Data) {
    if fallback == [] then [0] else [1] + fallback[0].key.privateKey
  }

  function HeadBytes(d: Device): (b: Data)
    requires Bounded(d.keys)
    ensures |b| == 72
  {
    BigEndian(DEHYDRATED_DEVICE_PICKLE_VERSION) + d.identity.privateKey + d.seed + BigEndian(|d.keys.oneTime|)
  }

  function DeviceBytes(d: Device): (b: Data)
    requires Bounded(d.keys)
  {
    HeadBytes(d) + Privates(d.keys.oneTime) + FallbackBytes(d.keys.fallback)
  }

  /** `pickle_length`. */
  function PickleLength(d: Device): (n: nat) {
    4 + 32 + 32 + 4 + |d.keys.oneTime| * 32 + 1 + (if d.keys.fallback == [] then 0 else 32)
  }

  /** The pickle has exactly the predicted length. */
  lemma DeviceBytesLength(d: Device)
    requires Bounded(d.keys)
    ensures |DeviceBytes(d)| == PickleLength(d)
  {
  }

  // ------------------------------------------------------------------
  // Restoring
  // ------------------------------------------------------------------

  /** The count stored keys at `pos`, newest first, numbered 1 to count. */
  function RestoredKeys(c: Curve, b: Data, pos: nat, count: nat): (list: seq<OneTimeKey<RawKeyPair>>)
    requires pos + 32 * count <= |b| && count <= MAX_ONE_TIME_KEYS
    ensures |list| == count
  {
    if count == 0 then []
    else
      [OneTimeKey(count, true, Generate(c, b[pos + 32 * (count - 1)..pos + 32 * count]))]
      + RestoredKeys(c, b, pos, count - 1)
  }

  function Unpickle(c: Curve, b: Data): (r: Result<Device>)
    ensures r.Ok? ==> Bounded(r.value.keys)
  {
    if |b| < 73 then Err(CorruptedPickle)
    else if FromBigEndian(b[0..4]) != DEHYDRATED_DEVICE_PICKLE_VERSION then Err(UnknownPickleVersion)
    else
      var count := FromBigEndian(b[68..72]);
      if count > MAX_ONE_TIME_KEYS || |b| - 72 < count * 32 + 1 then Err(CorruptedPickle)
      else
        var list := RestoredKeys(c, b, 72, count);
        var flag := 72 + 32 * count;
        var identity, seed := Generate(c, b[4..36]), b[36..68];
        if b[flag] == 0 then
          if flag + 1 != |b| then Err(PickleExtraData) else Ok(Device(identity, seed, Keys(list, [], count)))
        else if |b| - (flag + 1) < 32 then Err(CorruptedPickle)
        else if flag + 33 != |b| then Err(PickleExtraData)
        else
          var current := OneTimeKey(count + 1, true, Generate(c, b[flag + 1..flag + 33]));
          Ok(Device(identity, seed, Keys(list, [current], count + 1)))
  }

  /** What a device looks like after the trip: the same private keys in the same
      order under ids 1 to n, all published, without the previous fallback key. */
  function Renumbered(c: Curve, list: seq<OneTimeKey<RawKeyPair>>): (r: seq<OneTimeKey<RawKeyPair>>)
    requires |list| <= MAX_ONE_TIME_KEYS
    ensures |r| == |list|
  {
    seq(|list|, j requires 0 <= j < |list| => OneTimeKey(|list| - j, true, Generate(c, list[j].key.privateKey)))
  }

  function Restored(c: Curve, d: Device): (r: Device)
    requires Bounded(d.keys)
  {
    var n := |d.keys.oneTime|;
    Device(Generate(c, d.identity.privateKey), d.seed,
           if d.keys.fallback == [] then Keys(Renumbered(c, d.keys.oneTime), [], n)
           else Keys(Renumbered(c, d.keys.oneTime),
                     [OneTimeKey(n + 1, true, Generate(c, d.keys.fallback[0].key.privateKey))], n + 1))
  }

  lemma {:induction false} RestoresKeys(c: Curve, b: Data, pos: nat, list: seq<OneTimeKey<RawKeyPair>>)
    requires |list| <= MAX_ONE_TIME_KEYS && pos + 32 * |list| <= |b| && b[pos..pos + 32 * |list|] == Privates(list)
    ensures RestoredKeys(c, b, pos, |list|) == Renumbered(c, list)
    decreases |list|
  {
    if list == [] {
    } else {
      var n, rest := |list|, list[1..];
      var all := b[pos..pos + 32 * n];
      assert all[..32 * (n - 1)] == Privates(rest) && all[32 * (n - 1)..] == list[0].key.privateKey;
      assert b[pos..pos + 32 * (n - 1)] == all[..32 * (n - 1)];
      assert b[pos + 32 * (n - 1)..pos + 32 * n] == all[32 * (n - 1)..];
      RestoresKeys(c, b, pos, rest);
      forall j | 0 < j < n
        ensures Renumbered(c, list)[j] == Renumbered(c, rest)[j - 1]
      {
        assert list[j] == rest[j - 1];
      }
    }
  }

  lemma Parts(d: Device)
    requires Bounded(d.keys)
    ensures var b := DeviceBytes(d); var flag := 72 + 32 * |d.keys.oneTime|;
      && |b| == PickleLength(d)
      && b[0..4] == BigEndian(DEHYDRATED_DEVICE_PICKLE_VERSION) && b[4..36] == d.identity.privateKey
      && b[36..68] == d.seed
      && b[68..72] == BigEndian(|d.keys.oneTime|)
      && b[72..flag] == Privates(d.keys.oneTime)
      && b[flag..] == FallbackBytes(d.keys.fallback)
  {
  }

  /** Restoring a dehydrated account keeps every current private key, in order, under ids 1 to n. */
  lemma UnpicklesPickled(c: Curve, d: Device)
    requires Bounded(d.keys)
    ensures Unpickle(c, DeviceBytes(d)) == Ok(Restored(c, d))
  {
    hide BigEndian, FromBigEndian, Privates, DeviceBytes, RestoredKeys, Renumbered;
    var b, n := DeviceBytes(d), |d.keys.oneTime|;
    var flag := 72 + 32 * n;
    Parts(d);
    BigEndianRoundTrip(DEHYDRATED_DEVICE_PICKLE_VERSION, b[0..4]);
    BigEndianRoundTrip(n, b[68..72]);
    RestoresKeys(c, b, 72, d.keys.oneTime);
    assert b[flag] == b[flag..][0];
    if d.keys.fallback != [] {
      var key := d.keys.fallback[0].key.privateKey;
      assert ([1] + key)[1..33] == key;
      assert b[flag + 1..flag + 33] == b[flag..][1..33] == key;
    }
  }

  lemma RestoredNumbered(c: Curve, d: Device)
    requires Bounded(d.keys)
    ensures Numbered(Restored(c, d).keys)
  {
  }

  // ------------------------------------------------------------------
  // Writing again what was read
  // ------------------------------------------------------------------

  lemma {:induction false} PrivatesOfRestored(c: Curve, b: Data, pos: nat, count: nat)
    requires pos + 32 * count <= |b| && count <= MAX_ONE_TIME_KEYS
    ensures Privates(RestoredKeys(c, b, pos, count)) == b[pos..pos + 32 * count]
  {
    if count == 0 {
    } else {
      PrivatesOfRestored(c, b, pos, count - 1);
      var list := RestoredKeys(c, b, pos, count);
      assert list[1..] == RestoredKeys(c, b, pos, count - 1);
      assert b[pos..pos + 32 * count] == b[pos..pos + 32 * (count - 1)] + b[pos + 32 * (count - 1)..pos + 32 * count];
    }
  }

  /** The position of the fallback flag of an accepted plaintext. */
  function FlagPos(b: Data): (pos: nat)
    requires |b| >= 73
  {
    72 + 32 * FromBigEndian(b[68..72])
  }

  /** Pickling an accepted plaintext again reproduces it byte for byte exactly when its fallback flag is 0 or 1. */
  lemma RepicklesAccepted(c: Curve, b: Data)
    requires Unpickle(c, b).Ok?
    ensures FlagPos(b) < |b|
    ensures DeviceBytes(Unpickle(c, b).value) == b <==> b[FlagPos(b)] <= 1
  {
    hide BigEndian, FromBigEndian, Privates, RestoredKeys;
    var d := Unpickle(c, b).value;
    var count := FromBigEndian(b[68..72]);
    var flag := 72 + 32 * count;
    BigEndianRoundTrip(0, b[0..4]);
    BigEndianRoundTrip(0, b[68..72]);
    PrivatesOfRestored(c, b, 72, count);
    var head := HeadBytes(d);
    assert head == b[..72];
    assert b == b[..72] + b[72..flag] + b[flag..];
    assert DeviceBytes(d) == b[..72] + b[72..flag] + FallbackBytes(d.keys.fallback);
    if b[flag] == 0 {
      assert b[flag..] == [0];
    } else {
      assert b[flag..] == [b[flag]] + b[flag + 1..flag + 33];
      assert FallbackBytes(d.keys.fallback) == [1] + b[flag + 1..flag + 33];
      assert DeviceBytes(d)[flag] == 1;
    }
  }

  // ------------------------------------------------------------------
  // The C object
  // ------------------------------------------------------------------

  /** An account with the parts that a dehydrated device carries. */
  class DeviceAccount {
    const account: OlmAccount<RawKeyPair>
    var lastError: Option<Error>
    var identity: RawKeyPair
    var seed: Bytes32
    var seedKnown: bool

    ghost predicate Valid()
      reads this, account
    {
      account.Valid()
    }

    ghost function View(): (d: Device)
      requires Valid()
      reads this, account
      ensures Bounded(d.keys)
    {
      Device(identity, seed, account.View())
    }

    constructor ()
      ensures Valid() && fresh(account) && account.View() == Fresh() && !seedKnown && lastError == None
    {
      account := new OlmAccount();
      lastError, seedKnown := None, false;
      identity, seed := RawKeyPair(seq(32, _ => 0), seq(32, _ => 0)), seq(32, _ => 0);
    }

    method PickleHead(buf: array<byte>, pos: nat) returns (next: nat)
      requires Valid() && pos + 72 <= buf.Length
      modifies buf
      ensures P.Wrote(old(buf[..]), buf[..], pos, next, HeadBytes(View()))
    {
      hide P.Wrote, BigEndian;
      ghost var b0 := buf[..];
      var pos1 := P.PickleUint32(buf, pos, DEHYDRATED_DEVICE_PICKLE_VERSION);
      ghost var b1, version := buf[..], BigEndian(DEHYDRATED_DEVICE_PICKLE_VERSION);
      P.WroteEnds(b0, b1, pos, pos1, version);
      var pos2 := P.PickleBytes(buf, pos1, identity.privateKey);
      ghost var b2 := buf[..];
      P.WroteEnds(b1, b2, pos1, pos2, identity.privateKey);
      P.WroteBoth(b0, b1, b2, pos, pos1, pos2, version, identity.privateKey);
      var pos3 := P.PickleBytes(buf, pos2, seed);
      ghost var b3 := buf[..];
      P.WroteEnds(b2, b3, pos2, pos3, seed);
      P.WroteBoth(b0, b2, b3, pos, pos2, pos3, version + identity.privateKey, seed);
      next := P.PickleUint32(buf, pos3, |account.oneTimeKeys|);
      P.WroteBoth(b0, b3, buf[..], pos, pos3, next, version + identity.privateKey + seed,
                  BigEndian(|account.oneTimeKeys|));
    }

    /** Walks the list from its end, so that the oldest key is written first. */
    method PickleKeys(buf: array<byte>, pos: nat) returns (next: nat)
      requires Valid() && pos + 32 * |account.oneTimeKeys| <= buf.Length
      modifies buf
      ensures P.Wrote(old(buf[..]), buf[..], pos, next, Privates(account.oneTimeKeys))
    {
      hide P.Wrote;
      ghost var before := buf[..];
      var list := account.oneTimeKeys;
      var k := |list|;
      next := pos;
      P.WroteNothing(before, pos);
      while k > 0
        invariant 0 <= k <= |list| && next == pos + 32 * (|list| - k)
        invariant P.Wrote(before, buf[..], pos, next, Privates(list[k..]))
      {
        k := k - 1;
        assert list[k..][1..] == list[k + 1..];
        ghost var now, middle := buf[..], next;
        next := P.PickleBytes(buf, next, list[k].key.privateKey);
        P.WroteEnds(now, buf[..], middle, next, list[k].key.privateKey);
        P.WroteBoth(before, now, buf[..], pos, middle, next, Privates(list[k + 1..]), list[k].key.privateKey);
      }
      assert list[0..] == list;
    }

    method PickleFallback(buf: array<byte>, pos: nat) returns (next: nat)
      requires Valid() && pos + (if account.numFallbackKeys >= 1 then 33 else 1) <= buf.Length
      modifies buf
      ensures P.Wrote(old(buf[..]), buf[..], pos, next, FallbackBytes(View().keys.fallback))
    {
      hide P.Wrote;
      ghost var before := buf[..];
      if account.numFallbackKeys >= 1 {
        next := P.PickleUint8(buf, pos, 1);
        ghost var now, middle := buf[..], next;
        P.WroteEnds(before, now, pos, middle, [1]);
        next := P.PickleBytes(buf, next, account.currentFallbackKey.key.privateKey);
        P.WroteBoth(before, now, buf[..], pos, middle, next, [1], account.currentFallbackKey.key.privateKey);
      } else {
        next := P.PickleUint8(buf, pos, 0);
      }
    }

    /** `pickle`: fills exactly the predicted length. */
    method Pickle(buf: array<byte>, pos: nat) returns (next: nat)
      requires Valid() && pos + PickleLength(View()) <= buf.Length
      modifies buf
      ensures P.Wrote(old(buf[..]), buf[..], pos, next, DeviceBytes(View())) && next == pos + PickleLength(View())
    {
      hide P.Wrote, HeadBytes, FallbackBytes;
      DeviceBytesLength(View());
      ghost var b0, head, keys := buf[..], HeadBytes(View()), Privates(account.oneTimeKeys);
      var pos1 := PickleHead(buf, pos);
      ghost var b1 := buf[..];
      P.WroteEnds(b0, b1, pos, pos1, head);
      var pos2 := PickleKeys(buf, pos1);
      ghost var b2 := buf[..];
      P.WroteEnds(b1, b2, pos1, pos2, keys);
      P.WroteBoth(b0, b1, b2, pos, pos1, pos2, head, keys);
      next := PickleFallback(buf, pos2);
      P.WroteBoth(b0, b2, buf[..], pos, pos2, next, head + keys, FallbackBytes(View().keys.fallback));
      P.WroteEnds(b0, buf[..], pos, next, DeviceBytes(View()));
    }

    /** Each stored key goes in front, so the list runs newest first again. */
    method UnpickleKeys(c: Curve, b: Data, count: nat)
      requires Valid() && account.oneTimeKeys == [] && count <= MAX_ONE_TIME_KEYS && 72 + 32 * count <= |b|
      modifies account`oneTimeKeys
      ensures Valid() && account.oneTimeKeys == RestoredKeys(c, b, 72, count)
    {
      var pos := 72;
      for i := 0 to count
        invariant pos == 72 + 32 * i && account.oneTimeKeys == RestoredKeys(c, b, 72, i)
      {
        account.oneTimeKeys := PushFront(account.oneTimeKeys, MAX_ONE_TIME_KEYS,
                                         OneTimeKey(i + 1, true, Generate(c, b[pos..pos + 32])));
        pos := pos + 32;
      }
    }

    /** `unpickle`, on an account that has just been initialised. */
    method UnpickleDevice(c: Curve, b: Data) returns (r: Result<nat>)
      requires Valid() && account.View() == Fresh()
      modifies this, account
      ensures Valid()
      ensures match Unpickle(c, b)
        case Ok(d) => r == Ok(0) && View() == d && seedKnown && lastError == old(lastError)
        case Err(e) => r == Err(e) && lastError == Some(e)
    {
      hide FromBigEndian, RestoredKeys;
      if |b| < 73 {
        lastError := Some(CorruptedPickle);
        return Err(CorruptedPickle);
      }
      if FromBigEndian(b[0..4]) != DEHYDRATED_DEVICE_PICKLE_VERSION {
        lastError := Some(UnknownPickleVersion);
        return Err(UnknownPickleVersion);
      }
      identity := Generate(c, b[4..36]);
      seed := b[36..68];
      seedKnown := true;
      var count := FromBigEndian(b[68..72]);
      if count > MAX_ONE_TIME_KEYS || |b| - 72 < count * 32 + 1 {
        lastError := Some(CorruptedPickle);
        return Err(CorruptedPickle);
      }
      UnpickleKeys(c, b, count);
      var pos := 72 + 32 * count;
      account.nextOneTimeKeyId := count;
      if b[pos] != 0 {
        pos := pos + 1;
        if |b| - pos < 32 {
          lastError := Some(CorruptedPickle);
          return Err(CorruptedPickle);
        }
        account.numFallbackKeys := 1;
        account.nextOneTimeKeyId := account.nextOneTimeKeyId + 1;
        account.currentFallbackKey := OneTimeKey(account.nextOneTimeKeyId, true, Generate(c, b[pos..pos + 32]));
        pos := pos + 32;
      } else {
        pos := pos + 1;
      }
      if pos != |b| {
        lastError := Some(PickleExtraData);
        return Err(PickleExtraData);
      }
      return Ok(0);
    }
  }
}
