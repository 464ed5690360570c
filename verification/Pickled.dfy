// Whole pickles in one buffer, as an application stores them: the raw record,
// encrypted and encoded, and read back. The raw records are on numbers, the
// cipher on bit vectors; the bytes are the same.
module Pickled {
  import opened Common
  import opened Bytes
  import opened Octets
  import opened PickleEncoding
  import A = Aes
  import C = Cbc
  import P = Pickle

  function ToWire(d: Data): (b: seq<A.Byte>)
    ensures |b| == |d|
  {
    seq(|d|, i requires 0 <= i < |d| => ToBits(d[i]))
  }

  function FromWire(b: seq<A.Byte>): (d: Data)
    ensures |d| == |b|
  {
    seq(|b|, i requires 0 <= i < |b| => FromBits(b[i]))
  }

  /** The bytes are the same on both sides. */
  lemma WireUndone(d: Data)
    ensures FromWire(ToWire(d)) == d
  {
    hide ToBits, FromBits;
    forall i | 0 <= i < |d|
      ensures FromWire(ToWire(d))[i] == d[i]
    {
      SameByte(d[i]);
    }
  }

  // ------------------------------------------------------------------
  // Sessions
  // ------------------------------------------------------------------

  function SessionText(f: Primitives, key: seq<A.Byte>, x: P.SessionRecord): (t: seq<A.Byte>)
    requires P.RatchetFits(x.ratchet)
  {
    Encoded(f, key, ToWire(P.SessionBytes(x)))
  }

  function SessionFrom(f: Primitives, key: seq<A.Byte>, t: seq<A.Byte>): (r: Result<P.SessionRecord>) {
    match Read(f, key, t)
    case Err(e) => Err(e)
    case Ok(raw) =>
      match P.ReadSession(FromWire(raw), 0)
      case Err(e) => Err(e)
      case Ok((x, pos)) => if pos != |raw| then Err(PickleExtraData) else Ok(x)
  }

  /** A session pickled under any key is the session that unpickling gives. */
  lemma SessionRestored(f: Primitives, key: seq<A.Byte>, x: P.SessionRecord)
    requires P.RatchetFits(x.ratchet)
    ensures SessionFrom(f, key, SessionText(f, key, x)) == Ok(x)
  {
    hide Encoded, Read, ToWire, FromWire, P.SessionBytes, P.ReadSession, P.Stands;
    var d := P.SessionBytes(x);
    ReadEncoded(f, key, ToWire(d));
    WireUndone(d);
    StandsAlone(d);
    P.ReadsSession(d, 0, x);
  }

  lemma StandsAlone(d: Data)
    ensures P.Stands(d, 0, d)
  {
  }

  /** `olm_pickle_session`: the record is written where the encoder expects it, in the buffer that gets the text. */
  method PickleSession(f: Primitives, key: seq<A.Byte>, x: P.SessionRecord, buf: array<A.Byte>) returns (r: Result<nat>)
    requires P.RatchetFits(x.ratchet)
    modifies buf
    ensures var n := EncodedLength(P.SessionLength(x));
      if buf.Length < n then r == Err(OutputBufferTooSmall) && buf[..] == old(buf[..])
      else r == Ok(n) && buf[..n] == SessionText(f, key, x) && buf[n..] == old(buf[n..])
  {
    hide Encoded, ToWire, P.SessionBytes, P.SessionLength, EncodedLength, OutputPos;
    P.SessionBytesLength(x);
    r := StorePickle(f, key, P.SessionBytes(x), buf);
  }

  /** Both picklers: the length check, the raw bytes, the encoding. */
  method StorePickle(f: Primitives, key: seq<A.Byte>, raw: Data, buf: array<A.Byte>) returns (r: Result<nat>)
    modifies buf
    ensures var n := EncodedLength(|raw|);
      if buf.Length < n then r == Err(OutputBufferTooSmall) && buf[..] == old(buf[..])
      else r == Ok(n) && buf[..n] == Encoded(f, key, ToWire(raw)) && buf[n..] == old(buf[n..])
  {
    hide Encoded, ToWire, EncodedLength, OutputPos;
    if buf.Length < EncodedLength(|raw|) {
      return Err(OutputBufferTooSmall);
    }
    ghost var before := buf[..];
    PosInside(|raw|);
    Put(buf, OutputPos(|raw|), ToWire(raw));
    ghost var now := buf[..];
    var written := EncOutput(f, key, buf, |raw|);
    Behind(before, now, OutputPos(|raw|), |raw|, written);
    return Ok(written);
  }

  lemma PosInside(n: nat)
    ensures OutputPos(n) + n <= EncodedLength(n)
  {
  }

  lemma Behind(before: seq<A.Byte>, now: seq<A.Byte>, pos: nat, n: nat, written: nat)
    requires C.SameOutside(before, now, pos, n) && pos + n <= written <= |now|
    ensures |before| == |now| && now[written..] == before[written..]
  {
  }

  /** `olm_unpickle_session`: decoded and decrypted in the buffer, then read to its very end. */
  method UnpickleSession(f: Primitives, key: seq<A.Byte>, buf: array<A.Byte>) returns (r: Result<P.SessionRecord>)
    modifies buf
    ensures r == SessionFrom(f, key, old(buf[..]))
  {
    hide Read, FromWire, P.ReadSession;
    var length := EncInput(f, key, buf, buf.Length);
    assert old(buf[..buf.Length]) == old(buf[..]);
    if length.Err? {
      return Err(length.error);
    }
    var raw := FromWire(buf[..length.value]);
    var record := P.UnpickleSession(raw, 0);
    if record.Err? {
      return Err(record.error);
    }
    if record.value.1 != |raw| {
      return Err(PickleExtraData);
    }
    return Ok(record.value.0);
  }

  // ------------------------------------------------------------------
  // Accounts
  // ------------------------------------------------------------------

  function AccountText(f: Primitives, key: seq<A.Byte>, x: P.AccountRecord): (t: seq<A.Byte>)
    requires P.AccountFits(x)
  {
    Encoded(f, key, ToWire(P.AccountBytes(x)))
  }

  function AccountFrom(f: Primitives, key: seq<A.Byte>, t: seq<A.Byte>): (r: Result<P.AccountRecord>) {
    match Read(f, key, t)
    case Err(e) => Err(e)
    case Ok(raw) =>
      match P.ReadAccount(FromWire(raw), 0)
      case Err(e) => Err(e)
      case Ok((x, pos)) => if pos != |raw| then Err(PickleExtraData) else Ok(x)
  }

  /** An account pickled under any key is the account that unpickling gives. */
  lemma AccountRestored(f: Primitives, key: seq<A.Byte>, x: P.AccountRecord)
    requires P.AccountFits(x)
    ensures AccountFrom(f, key, AccountText(f, key, x)) == Ok(x)
  {
    hide Encoded, Read, ToWire, FromWire, P.AccountBytes, P.ReadAccount, P.Stands;
    var d := P.AccountBytes(x);
    ReadEncoded(f, key, ToWire(d));
    WireUndone(d);
    StandsAlone(d);
    P.ReadsAccount(d, 0, x);
  }

  /** `olm_pickle_account`. */
  method PickleAccount(f: Primitives, key: seq<A.Byte>, x: P.AccountRecord, buf: array<A.Byte>) returns (r: Result<nat>)
    requires P.AccountFits(x)
    modifies buf
    ensures var n := EncodedLength(P.AccountLength(x));
      if buf.Length < n then r == Err(OutputBufferTooSmall) && buf[..] == old(buf[..])
      else r == Ok(n) && buf[..n] == AccountText(f, key, x) && buf[n..] == old(buf[n..])
  {
    hide Encoded, ToWire, P.AccountBytes, P.AccountLength, EncodedLength, OutputPos;
    P.AccountBytesLength(x);
    r := StorePickle(f, key, P.AccountBytes(x), buf);
  }

  /** `olm_unpickle_account`. */
  method UnpickleAccount(f: Primitives, key: seq<A.Byte>, buf: array<A.Byte>) returns (r: Result<P.AccountRecord>)
    modifies buf
    ensures r == AccountFrom(f, key, old(buf[..]))
  {
    hide Read, FromWire, P.ReadAccount;
    var length := EncInput(f, key, buf, buf.Length);
    assert old(buf[..buf.Length]) == old(buf[..]);
    if length.Err? {
      return Err(length.error);
    }
    var raw := FromWire(buf[..length.value]);
    var record := P.UnpickleAccount(raw, 0);
    if record.Err? {
      return Err(record.error);
    }
    if record.value.1 != |raw| {
      return Err(PickleExtraData);
    }
    return Ok(record.value.0);
  }
}
