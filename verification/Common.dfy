// Error codes and result types shared by all modules.
module Common {

  datatype Option<+T> = None | Some(value: T)

  /** The codes of `include/libce/error.h` that the modelled functions set. */
  datatype Error =
    | NotEnoughRandom
    | OutputBufferTooSmall
    | BadMessageVersion
    | BadMessageFormat
    | BadMessageMac
    | BadMessageKeyId
    | BadAccountKey
    | UnknownPickleVersion
    | BadLegacyAccountPickle
    | CorruptedPickle
    | BadSessionKey
    | UnknownMessageIndex
    | BadSignature
    | PickleExtraData
    | InvalidBase64

  /** A C function that returns SIZE_MAX and sets `last_error`, or succeeds. */
  datatype Result<+T> = Ok(value: T) | Err(error: Error)
}
