/** The error taxonomy of the value log (src/error.rs). */
module Errors {
  import opened Bytes

  /** The part of `std::io::ErrorKind` this core produces or inspects. */
  datatype IoErrorKind = InvalidData | OtherKind(name: string)

  /** A `std::io::Error`; `message` is what its `to_string()` yields. */
  datatype IoError = IoError(kind: IoErrorKind, message: string)

  /** The allocator's failure to reserve space (the only variant of
      `rarena_allocator::Error` that this core can receive). */
  datatype AllocError = AllocInsufficientSpace(requested: u32, available: u32)

  /** `valog::Error`. The constructors `value_too_large`, `out_of_bounds`
      and `checksum_mismatch` build these variants field for field. */
  datatype Error =
    | InsufficientSpace(requested: u32, available: u32)
    | ValueTooLarge(size: nat, maximum: nat)
    | OutOfBounds(offset: u32, len: u32, dataOffset: u32, endOffset: u32)
    | ChecksumMismatch
    | IO(io: IoError)

  const ARENA_VERSION_MISMATCH: string := "ARENA's magic version mismatch"

  function BadMagicText(): IoError { IoError(InvalidData, "bad magic text") }

  function BadMagicVersion(): IoError { IoError(InvalidData, "bad magic version") }

  function BadVersion(): IoError { IoError(InvalidData, "bad version") }

  /** The three header errors are distinct, all InvalidData, and pass
      through `from_arena_io_err` unchanged: a failed header check is never
      reported as a version mismatch of the allocator. */
  lemma HeaderErrorsSurviveArenaMapping()
    ensures BadMagicText() != BadMagicVersion() && BadMagicText() != BadVersion() && BadMagicVersion() != BadVersion()
    ensures BadMagicText().kind == BadMagicVersion().kind == BadVersion().kind == InvalidData
    ensures FromArenaIoErr(BadMagicText()) == BadMagicText()
    ensures FromArenaIoErr(BadMagicVersion()) == BadMagicVersion()
    ensures FromArenaIoErr(BadVersion()) == BadVersion()
  {
    assert BadMagicText().message[0] != ARENA_VERSION_MISMATCH[0];
    assert BadMagicVersion().message[0] != ARENA_VERSION_MISMATCH[0];
    assert BadVersion().message[0] != ARENA_VERSION_MISMATCH[0];
  }

  /** `Error::from_insufficient_space`: the allocator's numbers pass through. */
  function FromInsufficientSpace(e: AllocError): (r: Error)
    ensures r.InsufficientSpace?
    ensures r.requested == e.requested && r.available == e.available
  {
    InsufficientSpace(e.requested, e.available)
  }

  /** `impl From<std::io::Error> for Error`. */
  function FromIo(e: IoError): (r: Error)
    ensures r.IO? && r.io == e
  {
    IO(e)
  }

  /** `Error::from_arena_io_err`: the allocator's version-mismatch error is
      reported as the log's own "bad version"; every other error is kept. */
  function FromArenaIoErr(e: IoError): (r: IoError)
    ensures ARENA_VERSION_MISMATCH <= e.message ==> r == BadVersion()
    ensures !(ARENA_VERSION_MISMATCH <= e.message) ==> r == e
  {
    if ARENA_VERSION_MISMATCH <= e.message then BadVersion() else e
  }

  /** Mapping twice changes nothing more: the replacement is not itself an
      allocator version-mismatch error. */
  lemma FromArenaIoErrIdempotent(e: IoError)
    ensures FromArenaIoErr(FromArenaIoErr(e)) == FromArenaIoErr(e)
    ensures FromArenaIoErr(e).kind == InvalidData || FromArenaIoErr(e) == e
  {
    assert !(ARENA_VERSION_MISMATCH <= BadVersion().message) by {
      assert |BadVersion().message| < |ARENA_VERSION_MISMATCH|;
    }
  }
}
